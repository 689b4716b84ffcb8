/** One flat memory of integers.

A pointer of the program is an index, a matrix block is a base address, a
stride and a size.  This file says which cells a block occupies, what it means
for a block to hold a matrix, and which cells a call left alone. */
module FlatMemory {
  import opened Matrices

  /** The value of row i, column j of the block at base; 0 outside the memory. */
  ghost function Cell(s: seq<int>, base: int, stride: int, i: int, j: int): (r: int) {
    var x := base + i * stride + j;
    if 0 <= x < |s| then s[x] else 0
  }

  ghost function View(s: seq<int>, base: int, stride: int): (r: Mat) {
    (i, j) => Cell(s, base, stride, i, j)
  }

  /** The rows by cols window at base holds the entries of f. */
  ghost predicate Holds(s: seq<int>, base: int, stride: int, rows: int, cols: int, f: Mat) {
    forall i, j :: 0 <= i < rows && 0 <= j < cols ==> Cell(s, base, stride, i, j) == f(i, j)
  }

  /** Number of cells from the first to the last of a rows by cols block. */
  ghost function Span(rows: int, cols: int, stride: int): (r: int) {
    if rows <= 0 || cols <= 0 then 0 else (rows - 1) * stride + cols
  }

  ghost function Extent(n: int, stride: int): (r: int) { Span(n, n, stride) }

  /** Every cell outside [lo, hi) is unchanged. */
  ghost predicate Frame(s: seq<int>, t: seq<int>, lo: int, hi: int) {
    |s| == |t| && forall x :: 0 <= x < |s| && !(lo <= x < hi) ==> s[x] == t[x]
  }

  /** Every cell outside [lo, hi) and [lo', hi') is unchanged. */
  ghost predicate Frame2(s: seq<int>, t: seq<int>, lo: int, hi: int, lo': int, hi': int) {
    |s| == |t| && forall x :: 0 <= x < |s| && !(lo <= x < hi) && !(lo' <= x < hi') ==> s[x] == t[x]
  }

  ghost predicate Disjoint(lo: int, hi: int, lo': int, hi': int) {
    hi <= lo' || hi' <= lo
  }

  function Max(x: int, y: int): (r: int) { if x < y then y else x }

  function Min(x: int, y: int): (r: int) { if x < y then x else y }

  /** A matrix of the given number of rows and columns, zero everywhere else. */
  ghost function ZView(s: seq<int>, base: int, stride: int, rows: int, cols: int): (r: Mat) {
    (i, j) => if i < rows && j < cols then Cell(s, base, stride, i, j) else 0
  }

  /** The part of the n by n block at (x, y) that lies in a rows by cols matrix
      is inside the memory and does not meet [lo, hi). */
  ghost predicate Readable(len: int, base: int, stride: int, rows: int, cols: int, x: int, y: int, n: int, lo: int,
                           hi: int) {
    var r, c := Min(n, rows - x), Min(n, cols - y);
    0 < r && 0 < c ==>
      var at := base + x * stride + y;
      0 <= at && at + Span(r, c, stride) <= len && Disjoint(at, at + Span(r, c, stride), lo, hi)
  }

  // ----- indices -----

  lemma RowBound(i: int, k: int, stride: int)
    requires 0 <= i < k && 0 <= stride
    ensures 0 <= i * stride && i * stride + stride <= k * stride
  {
    assert i * stride + stride == (i + 1) * stride;
    MulMono(i + 1, k, stride);
    MulMono(0, i, stride);
  }

  lemma MulMono(x: int, y: int, z: int)
    requires x <= y && 0 <= z
    ensures x * z <= y * z
  {
  }

  lemma InSpan(rows: int, cols: int, stride: int, i: int, j: int)
    requires 0 <= i < rows && 0 <= j < cols && 0 <= stride
    ensures 0 <= i * stride + j < Span(rows, cols, stride)
  {
    MulMono(i, rows - 1, stride);
    MulMono(0, i, stride);
  }

  lemma RowInSpan(base: int, rows: int, cols: int, stride: int, i: int)
    requires 0 <= i < rows && 0 < cols && 0 <= stride
    ensures base <= base + i * stride && base + i * stride + cols <= base + Span(rows, cols, stride)
  {
    InSpan(rows, cols, stride, i, 0);
    InSpan(rows, cols, stride, i, cols - 1);
  }

  lemma SpanMono(r: int, c: int, r': int, c': int, stride: int)
    requires r <= r' && c <= c' && 0 <= stride
    ensures Span(r, c, stride) <= Span(r', c', stride)
  {
    if 0 < r && 0 < c {
      MulMono(r - 1, r' - 1, stride);
    } else if 0 < r' && 0 < c' {
      MulMono(0, r' - 1, stride);
    }
  }

  lemma RowsApart(i: int, k: int, n: int)
    requires 0 <= i && 0 <= k && i != k && 0 <= n
    ensures i * n + n <= k * n || k * n + n <= i * n
  {
    if i < k {
      RowBound(i, k, n);
    } else {
      RowBound(k, i, n);
    }
  }

  /** Entry (i, j) of an n by n block lies inside the block's extent. */
  lemma InExtent(n: int, stride: int, i: int, j: int)
    requires 0 <= i < n && 0 <= j < n && 0 <= stride
    ensures 0 <= i * stride + j < Extent(n, stride)
  {
    MulMono(i, n - 1, stride);
    MulMono(0, i, stride);
  }

  lemma InSquare(n: int, i: int, j: int)
    requires 0 <= i < n && 0 <= j < n
    ensures 0 <= i * n + j < n * n
  {
    RowBound(i, n, n);
  }

  /** The block of size h at (di, dj) lies inside the block it is taken from. */
  lemma SubExtent(n: int, stride: int, di: int, dj: int, h: int)
    requires 0 <= di && 0 <= dj && 0 < h && di + h <= n && dj + h <= n && 0 <= stride
    ensures 0 <= di * stride + dj
    ensures di * stride + dj + Extent(h, stride) <= Extent(n, stride)
  {
    MulMono(0, di, stride);
    assert di * stride + (h - 1) * stride == (di + h - 1) * stride;
    MulMono(di + h - 1, n - 1, stride);
  }

  // ----- holding and framing -----

  /** A block of a held matrix is held at its own address. */
  lemma BlockHolds(s: seq<int>, base: int, stride: int, n: int, f: Mat, di: int, dj: int, h: int)
    requires Holds(s, base, stride, n, n, f)
    requires 0 <= di && 0 <= dj && di + h <= n && dj + h <= n
    ensures Holds(s, base + di * stride + dj, stride, h, h, Blk(f, di, dj))
  {
    forall i, j | 0 <= i < h && 0 <= j < h
      ensures Cell(s, base + di * stride + dj, stride, i, j) == Blk(f, di, dj)(i, j)
    {
      assert (i + di) * stride == i * stride + di * stride;
      assert Cell(s, base, stride, i + di, j + dj) == f(i + di, j + dj);
    }
  }

  /** A block survives changes to other cells. */
  lemma HoldsFrame2(s: seq<int>, t: seq<int>, base: int, stride: int, n: int, rows: int, cols: int, f: Mat,
                    lo: int, hi: int, lo': int, hi': int)
    requires Holds(s, base, stride, rows, cols, f) && Frame2(s, t, lo, hi, lo', hi')
    requires 0 <= stride && rows <= n && cols <= n
    requires Disjoint(base, base + Extent(n, stride), lo, hi) && Disjoint(base, base + Extent(n, stride), lo', hi')
    ensures Holds(t, base, stride, rows, cols, f)
  {
    forall i, j | 0 <= i < rows && 0 <= j < cols
      ensures Cell(t, base, stride, i, j) == f(i, j)
    {
      InExtent(n, stride, i, j);
      assert Cell(s, base, stride, i, j) == f(i, j);
    }
  }

  /** Row i of a held block, read at its own address. */
  lemma RowViewed(s: seq<int>, p: int, base: int, stride: int, i: int, n: int, f: Mat)
    requires 0 <= p && p + n <= |s| && p == base + i * stride
    requires forall k :: 0 <= k < n ==> Cell(s, base, stride, i, k) == f(i, k)
    ensures forall k :: 0 <= k < n ==> s[p + k] == f(i, k)
  {
    forall k | 0 <= k < n ensures s[p + k] == f(i, k) {
      assert Cell(s, base, stride, i, k) == f(i, k);
    }
  }

  lemma HoldsOutside(s: seq<int>, t: seq<int>, base: int, stride: int, rows: int, cols: int, f: Mat, lo: int, hi: int)
    requires Holds(s, base, stride, rows, cols, f) && Frame(s, t, lo, hi) && 0 <= stride
    requires 0 < rows && 0 < cols ==> Disjoint(base, base + Span(rows, cols, stride), lo, hi)
    ensures Holds(t, base, stride, rows, cols, f)
  {
    forall i, j | 0 <= i < rows && 0 <= j < cols
      ensures Cell(t, base, stride, i, j) == f(i, j)
    {
      InSpan(rows, cols, stride, i, j);
      assert Cell(s, base, stride, i, j) == f(i, j);
    }
  }

  /** Writing row i of an n-wide block below the rows already done. */
  lemma HoldsNextRow(s: seq<int>, t: seq<int>, base: int, n: int, i: int, cols: int, f: Mat)
    requires Holds(s, base, n, i, cols, f) && 0 <= i && 0 <= cols <= n
    requires Frame(s, t, base + i * n, base + i * n + n)
    requires forall j :: 0 <= j < cols ==> Cell(t, base, n, i, j) == f(i, j)
    ensures Holds(t, base, n, i + 1, cols, f)
  {
    forall i', j | 0 <= i' < i + 1 && 0 <= j < cols
      ensures Cell(t, base, n, i', j) == f(i', j)
    {
      if i' < i {
        RowBound(i', i, n);
        assert Cell(s, base, n, i', j) == f(i', j);
      }
    }
  }

  // ----- zero-extended blocks -----

  /** The n by n block at (x, y) of a rows by cols matrix, zero outside it. */
  ghost function ZBlock(s: seq<int>, A: int, sa: int, rows: int, cols: int, x: int, y: int): (r: Mat) {
    Blk(ZView(s, A, sa, rows, cols), x, y)
  }

  /** The cells of a zero-extended block that lie in the matrix can be read, and hold the block,
      as long as only the destination was written. */
  lemma ZRead(s0: seq<int>, s: seq<int>, A: int, sa: int, rows: int, cols: int, x: int, y: int, n: int,
              lo: int, hi: int, r: int, c: int)
    requires 0 <= sa && 0 <= x && 0 <= y
    requires Frame(s0, s, lo, hi) && Readable(|s0|, A, sa, rows, cols, x, y, n, lo, hi)
    requires r <= Min(n, rows - x) && c <= Min(n, cols - y)
    ensures 0 < r && 0 < c ==>
              var at := A + x * sa + y;
              0 <= at && at + Span(r, c, sa) <= |s| && Disjoint(at, at + Span(r, c, sa), lo, hi)
    ensures Holds(s, A + x * sa + y, sa, r, c, ZBlock(s0, A, sa, rows, cols, x, y))
  {
    SpanMono(r, c, Min(n, rows - x), Min(n, cols - y), sa);
    var at := A + x * sa + y;
    forall i, j | 0 <= i < r && 0 <= j < c
      ensures Cell(s, at, sa, i, j) == ZBlock(s0, A, sa, rows, cols, x, y)(i, j)
    {
      InSpan(r, c, sa, i, j);
      assert (i + x) * sa == i * sa + x * sa;
    }
  }

  // ----- rectangles of a block -----

  /** Only rows [i0, i1) and columns [j0, j1) of the r by n block at c may differ. */
  ghost predicate OnlyRect(s: seq<int>, t: seq<int>, c: int, r: int, n: int, i0: int, i1: int, j0: int, j1: int) {
    && Frame(s, t, c, c + r * n)
    && forall i, j :: 0 <= i < r && 0 <= j < n && !(i0 <= i < i1 && j0 <= j < j1)
                      ==> Cell(s, c, n, i, j) == Cell(t, c, n, i, j)
  }

  lemma RowIsRect(s: seq<int>, t: seq<int>, c: int, r: int, n: int, i: int, j0: int, j1: int, lo: int, hi: int)
    requires 0 <= i < r && 0 <= n && 0 <= j0 && j1 <= n
    requires Frame(s, t, lo, hi) && lo == c + i * n + j0 && hi == lo + (j1 - j0)
    ensures OnlyRect(s, t, c, r, n, i, i + 1, j0, j1)
  {
    RowBound(i, r, n);
    forall i', j | 0 <= i' < r && 0 <= j < n && !(i <= i' < i + 1 && j0 <= j < j1)
      ensures Cell(s, c, n, i', j) == Cell(t, c, n, i', j)
    {
      if i' < i {
        RowBound(i', i, n);
      } else if i < i' {
        RowBound(i, i', n);
      }
    }
  }

  lemma RectTrans(s: seq<int>, t: seq<int>, u: seq<int>, c: int, r: int, n: int, i0: int, i1: int, j0: int, j1: int,
                  k0: int, k1: int, l0: int, l1: int)
    requires OnlyRect(s, t, c, r, n, i0, i1, j0, j1)
    requires OnlyRect(t, u, c, r, n, k0, k1, l0, l1)
    requires i0 <= k0 && k1 <= i1 && j0 <= l0 && l1 <= j1
    ensures OnlyRect(s, u, c, r, n, i0, i1, j0, j1)
  {
    forall i, j | 0 <= i < r && 0 <= j < n && !(i0 <= i < i1 && j0 <= j < j1)
      ensures Cell(s, c, n, i, j) == Cell(u, c, n, i, j)
    {
      assert Cell(s, c, n, i, j) == Cell(t, c, n, i, j) == Cell(u, c, n, i, j);
    }
  }
}
