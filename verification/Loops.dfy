/** The inner loops of the multiplication, each with the rows it runs over.

The row methods are the innermost loops: they walk one row with running
indices, so all arithmetic in them is linear.  The Fill and Assemble methods
are the loop nests that prepare the operands and put the result together. */
module Loops {
  import opened Matrices
  import opened FlatMemory

  // ----- rows -----

  /** mem[d + j] := +-mem[x + j] +- mem[y + j] for j from `from` up to `to`. */
  method RowSigned(mem: array<int>, d: int, x: int, negX: bool, y: int, negY: bool, from: int, to: int) returns (j: int)
    requires 0 <= from
    requires from < to ==> 0 <= d + from && d + to <= mem.Length
    requires from < to ==> 0 <= x + from && x + to <= mem.Length && Disjoint(d + from, d + to, x + from, x + to)
    requires from < to ==> 0 <= y + from && y + to <= mem.Length && Disjoint(d + from, d + to, y + from, y + to)
    modifies mem
    ensures j == Max(from, to)
    ensures Frame(old(mem[..]), mem[..], d + from, d + j)
    ensures forall k :: d + from <= k < d + j ==>
              mem[k] == Sign(negX) * old(mem[k - d + x]) + Sign(negY) * old(mem[k - d + y])
  {
    j := from;
    while j < to
      invariant from <= j <= Max(from, to)
      invariant forall k :: 0 <= k < mem.Length && !(d + from <= k < d + j) ==> mem[k] == old(mem[k])
      invariant forall k :: d + from <= k < d + j ==>
                  mem[k] == Sign(negX) * old(mem[k - d + x]) + Sign(negY) * old(mem[k - d + y])
    {
      mem[d + j] := Sign(negX) * mem[x + j] + Sign(negY) * mem[y + j];
      j := j + 1;
    }
  }

  /** mem[d + j] := +-mem[x + j] for j from `from` up to `to`. */
  method RowCopy(mem: array<int>, d: int, x: int, negX: bool, from: int, to: int) returns (j: int)
    requires 0 <= from
    requires from < to ==> 0 <= d + from && d + to <= mem.Length
    requires from < to ==> 0 <= x + from && x + to <= mem.Length && Disjoint(d + from, d + to, x + from, x + to)
    modifies mem
    ensures j == Max(from, to)
    ensures Frame(old(mem[..]), mem[..], d + from, d + j)
    ensures forall k :: d + from <= k < d + j ==> mem[k] == Sign(negX) * old(mem[k - d + x])
  {
    j := from;
    while j < to
      invariant from <= j <= Max(from, to)
      invariant forall k :: 0 <= k < mem.Length && !(d + from <= k < d + j) ==> mem[k] == old(mem[k])
      invariant forall k :: d + from <= k < d + j ==> mem[k] == Sign(negX) * old(mem[k - d + x])
    {
      mem[d + j] := Sign(negX) * mem[x + j];
      j := j + 1;
    }
  }

  /** mem[d + j] := 0 for j from `from` up to `to`. */
  method RowZero(mem: array<int>, d: int, from: int, to: int) returns (j: int)
    requires 0 <= from
    requires from < to ==> 0 <= d + from && d + to <= mem.Length
    modifies mem
    ensures j == Max(from, to)
    ensures Frame(old(mem[..]), mem[..], d + from, d + j)
    ensures forall k :: d + from <= k < d + j ==> mem[k] == 0
  {
    j := from;
    while j < to
      invariant from <= j <= Max(from, to)
      invariant forall k :: 0 <= k < mem.Length && !(d + from <= k < d + j) ==> mem[k] == old(mem[k])
      invariant forall k :: d + from <= k < d + j ==> mem[k] == 0
    {
      mem[d + j] := 0;
      j := j + 1;
    }
  }

  /** The innermost product loop: one cell accumulates the terms k below m. */
  method DotCell(mem: array<int>, x: int, a: int, b: int, bs: int, m: int, i: int, j: int, cols: int,
                 ghost f: Mat, ghost g: Mat)
    requires 0 <= x < mem.Length && 0 <= bs && 0 <= j < cols
    requires 0 < m ==> 0 <= a && a + m <= mem.Length && !(a <= x < a + m)
    requires 0 < m ==> 0 <= b && b + Span(m, cols, bs) <= mem.Length && !(b <= x < b + Span(m, cols, bs))
    requires forall k :: 0 <= k < m ==> mem[a + k] == f(i, k)
    requires Holds(mem[..], b, bs, m, cols, g)
    modifies mem
    ensures Frame(old(mem[..]), mem[..], x, x + 1)
    ensures mem[x] == Dot(f, g, i, j, m)
  {
    ghost var s0 := mem[..];
    mem[x] := 0;
    var k := 0;
    while k < m
      invariant 0 <= k <= Max(0, m)
      invariant Frame(s0, mem[..], x, x + 1)
      invariant mem[x] == Dot(f, g, i, j, k)
    {
      InSpan(m, cols, bs, k, j);
      assert Cell(s0, b, bs, k, j) == g(k, j);
      assert s0[a + k] == f(i, k);
      mem[x] := mem[x] + mem[a + k] * mem[b + k * bs + j];
      k := k + 1;
    }
  }

  /** One row of products: mem[d + j] := row a times column j of the block at b. */
  method RowDot(mem: array<int>, d: int, a: int, b: int, bs: int, m: int, i: int, cols: int,
                ghost f: Mat, ghost g: Mat) returns (j: int)
    requires 0 <= bs
    requires 0 < cols ==> 0 <= d && d + cols <= mem.Length
    requires 0 < m && 0 < cols ==> 0 <= a && a + m <= mem.Length && Disjoint(d, d + cols, a, a + m)
    requires 0 < m && 0 < cols
        ==> 0 <= b && b + Span(m, cols, bs) <= mem.Length && Disjoint(d, d + cols, b, b + Span(m, cols, bs))
    requires 0 < cols ==> forall k :: 0 <= k < m ==> mem[a + k] == f(i, k)
    requires Holds(mem[..], b, bs, m, cols, g)
    modifies mem
    ensures j == Max(0, cols)
    ensures Frame(old(mem[..]), mem[..], d, d + j)
    ensures forall k :: d <= k < d + j ==> mem[k] == Dot(f, g, i, k - d, m)
  {
    ghost var s0 := mem[..];
    j := 0;
    while j < cols
      invariant 0 <= j <= Max(0, cols)
      invariant Frame(s0, mem[..], d, d + j)
      invariant forall k :: d <= k < d + j ==> mem[k] == Dot(f, g, i, k - d, m)
    {
      ghost var s := mem[..];
      forall k | 0 <= k < m ensures mem[a + k] == f(i, k) {
        assert s0[a + k] == f(i, k);
      }
      HoldsOutside(s0, s, b, bs, m, cols, g, d, d + cols);
      DotCell(mem, d + j, a, b, bs, m, i, j, cols, f, g);
      j := j + 1;
    }
  }

  // ----- operands -----

  /** Row i of two blocks combined into row i of an n-wide destination. */
  lemma CombRow(s: seq<int>, t: seq<int>, dst: int, n: int, i: int, cols: int,
                p: int, q: int, stride: int, minus: bool, f: Mat, g: Mat)
    requires 0 <= i && 0 <= cols <= n && |s| == |t|
    requires 0 <= dst + i * n && dst + i * n + cols <= |t|
    requires 0 <= p + i * stride && p + i * stride + cols <= |s|
    requires 0 <= q + i * stride && q + i * stride + cols <= |s|
    requires forall j :: 0 <= j < cols ==> Cell(s, p, stride, i, j) == f(i, j)
    requires forall j :: 0 <= j < cols ==> Cell(s, q, stride, i, j) == g(i, j)
    requires forall x :: dst + i * n <= x < dst + i * n + cols ==>
               t[x] == s[x - (dst + i * n) + (p + i * stride)] + Sign(minus) * s[x - (dst + i * n) + (q + i * stride)]
    ensures forall j :: 0 <= j < cols ==> Cell(t, dst, n, i, j) == Comb(minus, f, g)(i, j)
  {
    forall j | 0 <= j < cols
      ensures Cell(t, dst, n, i, j) == Comb(minus, f, g)(i, j)
    {
      assert Cell(s, p, stride, i, j) == f(i, j) && Cell(s, q, stride, i, j) == g(i, j);
      assert t[dst + i * n + j] == s[p + i * stride + j] + Sign(minus) * s[q + i * stride + j];
    }
  }

  /** Row i of an n by n block inside memory. */
  lemma RowInBlock(base: int, n: int, stride: int, i: int)
    requires 0 <= i < n && 0 <= stride
    ensures base <= base + i * stride && base + i * stride + n <= base + Extent(n, stride)
  {
    InExtent(n, stride, i, 0);
    InExtent(n, stride, i, n - 1);
  }

  /** One combined row: the body of the operand loops. */
  method FillRow(mem: array<int>, dst: int, d: int, n: int, p: int, q: int, stride: int, minus: bool,
                 i: int, cols: int, ghost f: Mat, ghost g: Mat)
    returns (next: int)
    requires 0 <= stride && 0 <= i < n && 0 <= cols <= n && d == dst + i * n
    requires 0 <= dst && dst + n * n <= mem.Length
    requires 0 <= p && p + Extent(n, stride) <= mem.Length && Disjoint(dst, dst + n * n, p, p + Extent(n, stride))
    requires 0 <= q && q + Extent(n, stride) <= mem.Length && Disjoint(dst, dst + n * n, q, q + Extent(n, stride))
    requires Holds(mem[..], p, stride, n, cols, f) && Holds(mem[..], q, stride, n, cols, g)
    modifies mem
    ensures next == d + cols
    ensures Frame(old(mem[..]), mem[..], d, d + cols)
    ensures forall j :: 0 <= j < cols ==> Cell(mem[..], dst, n, i, j) == Comb(minus, f, g)(i, j)
  {
    ghost var s := mem[..];
    RowBound(i, n, n);
    RowInBlock(p, n, stride, i);
    RowInBlock(q, n, stride, i);
    var j := RowSigned(mem, d, p + i * stride, false, q + i * stride, minus, 0, cols);
    next := d + j;
    CombRow(s, mem[..], dst, n, i, cols, p, q, stride, minus, f, g);
  }

  /** a_cum: the first rows of the combination, whole rows, one counter running through. */
  method FillRows(mem: array<int>, dst: int, n: int, p: int, q: int, stride: int, minus: bool, rows: int,
                  ghost f: Mat, ghost g: Mat)
    requires 0 <= stride && 0 <= n && rows <= n
    requires 0 <= dst && dst + n * n <= mem.Length
    requires 0 <= p && p + Extent(n, stride) <= mem.Length && Disjoint(dst, dst + n * n, p, p + Extent(n, stride))
    requires 0 <= q && q + Extent(n, stride) <= mem.Length && Disjoint(dst, dst + n * n, q, q + Extent(n, stride))
    requires Holds(mem[..], p, stride, n, n, f) && Holds(mem[..], q, stride, n, n, g)
    modifies mem
    ensures Frame(old(mem[..]), mem[..], dst, dst + n * n)
    ensures Holds(mem[..], dst, n, rows, n, Comb(minus, f, g))
  {
    ghost var s0 := mem[..];
    var cumIx := dst;
    var i := 0;
    while i < rows
      invariant 0 <= i && (i <= rows || i == 0) && cumIx == dst + i * n
      invariant Frame(s0, mem[..], dst, dst + n * n)
      invariant Holds(mem[..], dst, n, i, n, Comb(minus, f, g))
    {
      ghost var s := mem[..];
      RowBound(i, n, n);
      HoldsFrame2(s0, s, p, stride, n, n, n, f, dst, dst + n * n, dst, dst + n * n);
      HoldsFrame2(s0, s, q, stride, n, n, n, g, dst, dst + n * n, dst, dst + n * n);
      cumIx := FillRow(mem, dst, cumIx, n, p, q, stride, minus, i, n, f, g);
      HoldsNextRow(s, mem[..], dst, n, i, n, Comb(minus, f, g));
      i := i + 1;
    }
  }

  /** b_cum: the first columns of the combination, the counter restarted on every row. */
  method FillCols(mem: array<int>, dst: int, n: int, p: int, q: int, stride: int, minus: bool, cols: int,
                  ghost f: Mat, ghost g: Mat)
    requires 0 <= stride && 0 <= n && 0 <= cols <= n
    requires 0 <= dst && dst + n * n <= mem.Length
    requires 0 <= p && p + Extent(n, stride) <= mem.Length && Disjoint(dst, dst + n * n, p, p + Extent(n, stride))
    requires 0 <= q && q + Extent(n, stride) <= mem.Length && Disjoint(dst, dst + n * n, q, q + Extent(n, stride))
    requires Holds(mem[..], p, stride, n, n, f) && Holds(mem[..], q, stride, n, n, g)
    modifies mem
    ensures Frame(old(mem[..]), mem[..], dst, dst + n * n)
    ensures Holds(mem[..], dst, n, n, cols, Comb(minus, f, g))
  {
    ghost var s0 := mem[..];
    var i := 0;
    while i < n
      invariant 0 <= i <= n
      invariant Frame(s0, mem[..], dst, dst + n * n)
      invariant Holds(mem[..], dst, n, i, cols, Comb(minus, f, g))
    {
      ghost var s := mem[..];
      RowBound(i, n, n);
      HoldsFrame2(s0, s, p, stride, n, n, n, f, dst, dst + n * n, dst, dst + n * n);
      HoldsFrame2(s0, s, q, stride, n, n, n, g, dst, dst + n * n, dst, dst + n * n);
      var cumIx := dst + i * n;
      cumIx := FillRow(mem, dst, cumIx, n, p, q, stride, minus, i, cols, f, g);
      HoldsNextRow(s, mem[..], dst, n, i, cols, Comb(minus, f, g));
      i := i + 1;
    }
  }
}
