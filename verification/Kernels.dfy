/** The naive kernel and the workspace of the recursive ones. */
module Kernels {
  import opened Matrices
  import opened FlatMemory
  import opened Loops

  const RESOLVE_SIZE := 32

  /** The size can be halved without remainder until it is small enough for the naive kernel. */
  predicate Halves(n: nat) {
    n <= RESOLVE_SIZE || (n % 2 == 0 && Halves(n / 2))
  }

  /** Scratch cells a recursive call of size n uses: nine blocks of half size,
      then the scratch of the calls it makes, which share one buffer. */
  function Need(n: nat): (need: nat) {
    if n <= RESOLVE_SIZE then 0 else 9 * ((n / 2) * (n / 2)) + Need(n / 2)
  }

  /** Size at which the recursion stops. */
  function Leaf(n: nat): (r: nat) {
    if n <= RESOLVE_SIZE then n else Leaf(n / 2)
  }

  /** The workspace is three squares less the three squares of the leaf size, so
      3 * n * n is enough at every depth. */
  lemma {:induction false} NeedExact(n: nat)
    requires Halves(n)
    ensures Need(n) == 3 * (n * n) - 3 * (Leaf(n) * Leaf(n))
  {
    if n > RESOLVE_SIZE {
      NeedExact(n / 2);
      assert n * n == 4 * ((n / 2) * (n / 2)) by {
        assert n == 2 * (n / 2);
      }
    }
  }

  /** The loop nest of the naive kernels: rows by l products of m terms each,
      every row filled up with zeros to yLim. */
  method ProductRows(mem: array<int>, n: int, m: int, a: int, sa: int, b: int, sb: int,
                     C: int, rows: int, l: int, yLim: int, ghost f: Mat, ghost g: Mat) returns (i: int)
    requires 0 <= sa && 0 <= sb && rows <= n && m <= n && l <= yLim && 0 <= yLim <= n
    requires 0 <= C && C + n * n <= mem.Length
    requires 0 < rows && 0 < m && 0 < l ==>
               0 <= a && a + Span(rows, m, sa) <= mem.Length && Disjoint(C, C + n * n, a, a + Span(rows, m, sa))
    requires 0 < rows && 0 < m && 0 < l ==>
               0 <= b && b + Span(m, l, sb) <= mem.Length && Disjoint(C, C + n * n, b, b + Span(m, l, sb))
    requires 0 < l ==> Holds(mem[..], a, sa, rows, m, f)
    requires 0 < rows ==> Holds(mem[..], b, sb, m, l, g)
    requires forall k, j :: 0 <= k < m && Max(0, l) <= j < yLim ==> g(k, j) == 0
    modifies mem
    ensures i == Max(0, rows)
    ensures OnlyRect(old(mem[..]), mem[..], C, n, n, 0, rows, 0, yLim)
    ensures Holds(mem[..], C, n, rows, yLim, Mul(f, g, m))
  {
    ghost var s0 := mem[..];
    i := 0;
    while i < rows
      invariant 0 <= i <= Max(0, rows)
      invariant OnlyRect(s0, mem[..], C, n, n, 0, rows, 0, yLim)
      invariant Holds(mem[..], C, n, i, yLim, Mul(f, g, m))
    {
      ghost var s := mem[..];
      RowBound(i, n, n);
      if 0 < l {
        HoldsOutside(s0, s, b, sb, m, l, g, C, C + n * n);
        HoldsOutside(s0, s, a, sa, rows, m, f, C, C + n * n);
        if 0 < m {
          RowInSpan(a, rows, m, sa, i);
          RowViewed(s, a + i * sa, a, sa, i, m, f);
        }
      }
      var j := ProductRow(mem, n, m, a + i * sa, b, sb, C + i * n, i, l, yLim, f, g);
      RowIsRect(s, mem[..], C, n, n, i, 0, yLim, C + i * n, C + i * n + yLim);
      RectTrans(s0, s, mem[..], C, n, n, 0, rows, 0, yLim, i, i + 1, 0, yLim);
      DotRowHolds(s, mem[..], C, n, i, yLim, f, g, m);
      i := i + 1;
    }
  }

  /** One row of the nest: l products, then zeros. */
  method ProductRow(mem: array<int>, n: int, m: int, a: int, b: int, sb: int,
                    d: int, i: int, l: int, yLim: int, ghost f: Mat, ghost g: Mat) returns (j: int)
    requires 0 <= sb && l <= yLim && 0 <= yLim && 0 <= d && d + yLim <= mem.Length
    requires 0 < m && 0 < l ==> 0 <= a && a + m <= mem.Length && Disjoint(d, d + yLim, a, a + m)
    requires 0 < m && 0 < l
        ==> 0 <= b && b + Span(m, l, sb) <= mem.Length && Disjoint(d, d + yLim, b, b + Span(m, l, sb))
    requires 0 < l ==> forall k :: 0 <= k < m ==> mem[a + k] == f(i, k)
    requires 0 < l ==> Holds(mem[..], b, sb, m, l, g)
    requires forall k, j :: 0 <= k < m && Max(0, l) <= j < yLim ==> g(k, j) == 0
    modifies mem
    ensures j == yLim
    ensures Frame(old(mem[..]), mem[..], d, d + yLim)
    ensures forall x :: d <= x < d + yLim ==> mem[x] == Dot(f, g, i, x - d, m)
  {
    j := RowDot(mem, d, a, b, sb, m, i, l, f, g);
    ghost var t := mem[..];
    j := RowZero(mem, d, j, yLim);
    forall x | d <= x < d + yLim
      ensures mem[x] == Dot(f, g, i, x - d, m)
    {
      if d + Max(0, l) <= x {
        DotZeroRight(f, g, i, x - d, m);
      } else {
        assert t[x] == Dot(f, g, i, x - d, m);
      }
    }
  }

  lemma DotRowHolds(s: seq<int>, t: seq<int>, c: int, n: int, i: int, cols: int, f: Mat, g: Mat, m: int)
    requires Holds(s, c, n, i, cols, Mul(f, g, m)) && 0 <= i && 0 <= cols <= n
    requires 0 <= c + i * n && c + i * n + cols <= |t|
    requires Frame(s, t, c + i * n, c + i * n + cols)
    requires forall k :: c + i * n <= k < c + i * n + cols ==> t[k] == Dot(f, g, i, k - (c + i * n), m)
    ensures Holds(t, c, n, i + 1, cols, Mul(f, g, m))
  {
    forall j | 0 <= j < cols
      ensures Cell(t, c, n, i, j) == Mul(f, g, m)(i, j)
    {
      assert t[c + i * n + j] == Dot(f, g, i, j, m);
    }
    HoldsNextRow(s, t, c, n, i, cols, Mul(f, g, m));
  }

  /** The naive kernel on blocks that lie inside their matrices. */
  method SMMNoCheckAB(mem: array<int>, mSz: nat, a: int, sa: int, b: int, sb: int, C: int, cxLim: int, cyLim: int)
    requires 0 <= sa && 0 <= sb
    requires 0 <= C && C + mSz * mSz <= mem.Length
    requires 0 <= a && a + Extent(mSz, sa) <= mem.Length && Disjoint(C, C + mSz * mSz, a, a + Extent(mSz, sa))
    requires 0 <= b && b + Extent(mSz, sb) <= mem.Length && Disjoint(C, C + mSz * mSz, b, b + Extent(mSz, sb))
    modifies mem
    ensures OnlyRect(old(mem[..]), mem[..], C, mSz, mSz, 0, cxLim, 0, cyLim)
    ensures Holds(mem[..], C, mSz, Min(mSz, cxLim), Min(mSz, cyLim),
                  Mul(View(old(mem[..]), a, sa), View(old(mem[..]), b, sb), mSz))
  {
    if cxLim <= 0 || cyLim <= 0 {
      return;
    }
    var mSzX := if mSz > cxLim then cxLim else mSz;
    var mSzY := if mSz > cyLim then cyLim else mSz;
    SpanMono(mSzX, mSz, mSz, mSz, sa);
    SpanMono(mSz, mSzY, mSz, mSz, sb);
    var _ := ProductRows(mem, mSz, mSz, a, sa, b, sb, C, mSzX, mSzY, mSzY, View(mem[..], a, sa), View(mem[..], b, sb));
  }

  // ----- the kernel for blocks that may stick out of their matrix -----

  /** Zero rows: the last nest of SMM, and all that is left of a block outside its matrix. */
  method ZeroRows(mem: array<int>, C: int, n: int, from: int, to: int, yLim: int, ghost f: Mat) returns (i: int)
    requires 0 <= from && to <= n && 0 <= yLim <= n
    requires 0 <= C && C + n * n <= mem.Length
    requires Holds(mem[..], C, n, from, yLim, f)
    requires forall i, j :: from <= i < to && 0 <= j < yLim ==> f(i, j) == 0
    modifies mem
    ensures i == Max(from, to)
    ensures OnlyRect(old(mem[..]), mem[..], C, n, n, 0, to, 0, yLim)
    ensures Holds(mem[..], C, n, i, yLim, f)
  {
    ghost var s0 := mem[..];
    i := from;
    while i < to
      invariant from <= i <= Max(from, to)
      invariant OnlyRect(s0, mem[..], C, n, n, 0, to, 0, yLim)
      invariant Holds(mem[..], C, n, i, yLim, f)
    {
      ghost var s := mem[..];
      RowBound(i, n, n);
      var j := RowZero(mem, C + i * n, 0, yLim);
      RowIsRect(s, mem[..], C, n, n, i, 0, yLim, C + i * n, C + i * n + yLim);
      RectTrans(s0, s, mem[..], C, n, n, 0, to, 0, yLim, i, i + 1, 0, yLim);
      HoldsNextRow(s, mem[..], C, n, i, yLim, f);
      i := i + 1;
    }
  }

  /** Terms that vanish do not change an inner product. */
  lemma {:induction false} DotTail(f: Mat, g: Mat, i: int, j: int, m: int, n: int)
    requires m <= n
    requires forall k :: Max(0, m) <= k < n ==> f(i, k) == 0 || g(k, j) == 0
    ensures Dot(f, g, i, j, m) == Dot(f, g, i, j, n)
    decreases n - m
  {
    if m < n {
      DotTail(f, g, i, j, m, n - 1);
    }
  }

  method SMM(mem: array<int>, mSz: nat, l: int, m: int, n: int, A: int, xa: nat, ya: nat, sa: nat,
             B: int, xb: nat, yb: nat, sb: nat, C: int, cxLim: int, cyLim: int)
    requires 0 <= C && C + mSz * mSz <= mem.Length
    requires Readable(mem.Length, A, sa, n, m, xa, ya, mSz, C, C + mSz * mSz)
    requires Readable(mem.Length, B, sb, m, l, xb, yb, mSz, C, C + mSz * mSz)
    modifies mem
    ensures OnlyRect(old(mem[..]), mem[..], C, mSz, mSz, 0, cxLim, 0, cyLim)
    ensures Holds(mem[..], C, mSz, Min(mSz, cxLim), Min(mSz, cyLim),
                  Mul(ZBlock(old(mem[..]), A, sa, n, m, xa, ya), ZBlock(old(mem[..]), B, sb, m, l, xb, yb), mSz))
  {
    if cxLim <= 0 || cyLim <= 0 {
      return;
    }
    ghost var s0 := mem[..];
    ghost var f, g := ZBlock(s0, A, sa, n, m, xa, ya), ZBlock(s0, B, sb, m, l, xb, yb);
    var mSzX := if mSz > cxLim then cxLim else mSz;
    var mSzY := if mSz > cyLim then cyLim else mSz;
    var rows := if xa + mSz >= n then n - xa else mSz;
    var cols := if yb + mSz >= l then l - yb else mSz;
    var terms;
    if ya > xb {
      terms := if ya + mSz >= m then m - ya else mSz;
    } else {
      terms := if xb + mSz >= m then m - xb else mSz;
    }
    if rows > cxLim && cols > cyLim {
      ClippedProduct(mem, mSz, l, m, n, A, xa, ya, sa, B, xb, yb, sb, C, cxLim, cyLim, terms, cxLim, cyLim);
    } else {
      if rows > cxLim { rows := cxLim; }
      if cols > cyLim { cols := cyLim; }
      ClippedProduct(mem, mSz, l, m, n, A, xa, ya, sa, B, xb, yb, sb, C, rows, cols, terms, mSzX, mSzY);
    }
  }

  /** The nests of SMM: products where both blocks reach, zeros in the rest of the window. */
  method ClippedProduct(mem: array<int>, mSz: nat, l: int, m: int, n: int, A: int, xa: nat, ya: nat, sa: nat, B: int,
                        xb: nat, yb: nat, sb: nat, C: int, rows: int, cols: int, terms: int, xLim: int, yLim: int)
    requires 0 <= C && C + mSz * mSz <= mem.Length && 0 <= xLim <= mSz && 0 <= yLim <= mSz
    requires Readable(mem.Length, A, sa, n, m, xa, ya, mSz, C, C + mSz * mSz)
    requires Readable(mem.Length, B, sb, m, l, xb, yb, mSz, C, C + mSz * mSz)
    requires terms == Min(mSz, m - Max(xb, ya))
    requires rows == Min(xLim, n - xa) && cols == Min(yLim, l - yb)
    modifies mem
    ensures OnlyRect(old(mem[..]), mem[..], C, mSz, mSz, 0, xLim, 0, yLim)
    ensures Holds(mem[..], C, mSz, xLim, yLim,
                  Mul(ZBlock(old(mem[..]), A, sa, n, m, xa, ya), ZBlock(old(mem[..]), B, sb, m, l, xb, yb), mSz))
  {
    ghost var s0 := mem[..];
    ghost var f, g := ZBlock(s0, A, sa, n, m, xa, ya), ZBlock(s0, B, sb, m, l, xb, yb);
    var a, b := A + xa * sa + ya, B + xb * sb + yb;
    ZRead(s0, s0, A, sa, n, m, xa, ya, mSz, C, C + mSz * mSz, rows, terms);
    ZRead(s0, s0, B, sb, m, l, xb, yb, mSz, C, C + mSz * mSz, terms, cols);
    OutsideZero(s0, A, sa, n, m, xa, ya, B, sb, m, l, xb, yb, mSz, rows, cols, terms, xLim, yLim);
    var i := ProductRows(mem, mSz, terms, a, sa, b, sb, C, rows, cols, yLim, f, g);
    ghost var s := mem[..];
    ZeroProducts(f, g, i, xLim, yLim, terms);
    i := ZeroRows(mem, C, mSz, i, xLim, yLim, Mul(f, g, terms));
    RectTrans(s0, s, mem[..], C, mSz, mSz, 0, xLim, 0, yLim, 0, xLim, 0, yLim);
    TermsHold(mem[..], C, mSz, xLim, yLim, f, g, terms);
  }

  /** What lies beyond the clipped limits is zero in one operand or the other. */
  lemma OutsideZero(s: seq<int>, A: int, sa: int, n: int, m: int, xa: int, ya: int,
                    B: int, sb: int, m': int, l: int, xb: int, yb: int, mSz: int,
                    rows: int, cols: int, terms: int, xLim: int, yLim: int)
    requires m' == m && terms == Min(mSz, m - Max(xb, ya))
    requires rows == Min(xLim, n - xa) && cols == Min(yLim, l - yb)
    ensures var f, g := ZBlock(s, A, sa, n, m, xa, ya), ZBlock(s, B, sb, m', l, xb, yb);
            && (forall k, j :: 0 <= k < terms && Max(0, cols) <= j < yLim ==> g(k, j) == 0)
            && (forall i, k :: Max(0, rows) <= i < xLim && 0 <= k < terms ==> f(i, k) == 0)
            && (forall i, j, k :: 0 <= i < xLim && 0 <= j < yLim && Max(0, terms) <= k < mSz
                  ==> f(i, k) == 0 || g(k, j) == 0)
  {
  }

  lemma ZeroProducts(f: Mat, g: Mat, from: int, to: int, cols: int, m: int)
    requires forall i, k :: from <= i < to && 0 <= k < m ==> f(i, k) == 0
    ensures forall i, j :: from <= i < to && 0 <= j < cols ==> Mul(f, g, m)(i, j) == 0
  {
    forall i, j | from <= i < to && 0 <= j < cols
      ensures Mul(f, g, m)(i, j) == 0
    {
      DotTail(f, g, i, j, Min(0, m), m);
    }
  }

  lemma TermsHold(s: seq<int>, C: int, n: int, r: int, c: int, f: Mat, g: Mat, m: int)
    requires m <= n && Holds(s, C, n, r, c, Mul(f, g, m))
    requires forall i, j, k :: 0 <= i < r && 0 <= j < c && Max(0, m) <= k < n ==> f(i, k) == 0 || g(k, j) == 0
    ensures Holds(s, C, n, r, c, Mul(f, g, n))
  {
    forall i, j | 0 <= i < r && 0 <= j < c
      ensures Cell(s, C, n, i, j) == Mul(f, g, n)(i, j)
    {
      DotTail(f, g, i, j, m, n);
      assert Cell(s, C, n, i, j) == Mul(f, g, m)(i, j);
    }
  }
}
