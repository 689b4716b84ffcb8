/** Sums, differences and negations of blocks that may stick out of their matrix.

Outside the matrix a block counts as zero.  The destination is always a dense
mSz by mSz block of which only a cxLim by cyLim window is asked for. */
module BlockSums {
  import opened Matrices
  import opened FlatMemory
  import opened Loops

  /** The three inner loops of one row: both operands, the first alone, zeros. */
  method SumRow(mem: array<int>, C: int, n: int, i: int, d: int, x: int, negX: bool, y: int, negY: bool,
                yL: int, xL: int, yLim: int, ghost f: Mat, ghost g: Mat)
    requires 0 <= i < n && d == C + i * n && yL <= n && xL <= n && yLim <= n
    requires 0 <= d && d + n <= mem.Length
    requires 0 < Max(yL, xL) ==> 0 <= x && x + Max(yL, xL) <= mem.Length && Disjoint(d, d + n, x, x + Max(yL, xL))
    requires 0 < yL ==> 0 <= y && y + yL <= mem.Length && Disjoint(d, d + n, y, y + yL)
    requires forall j :: 0 <= j < Max(yL, xL) ==> mem[x + j] == f(i, j)
    requires forall j :: 0 <= j < yL ==> mem[y + j] == g(i, j)
    requires forall j :: Max(0, Max(yL, xL)) <= j < yLim ==> f(i, j) == 0
    requires forall j :: Max(0, yL) <= j < yLim ==> g(i, j) == 0
    modifies mem
    ensures Frame(old(mem[..]), mem[..], d, d + n)
    ensures forall j :: 0 <= j < yLim ==> Cell(mem[..], C, n, i, j) == Signed(negX, f, negY, g)(i, j)
  {
    ghost var s0 := mem[..];
    var j := RowSigned(mem, d, x, negX, y, negY, 0, yL);
    ghost var s1 := mem[..];
    j := RowCopy(mem, d, x, negX, j, xL);
    ghost var s2 := mem[..];
    j := RowZero(mem, d, j, yLim);
    forall j | 0 <= j < yLim
      ensures Cell(mem[..], C, n, i, j) == Signed(negX, f, negY, g)(i, j)
    {
      assert mem[d + j] == if j < yL then s1[d + j] else if j < xL then s2[d + j] else 0;
      if j < Max(yL, xL) {
        assert s0[x + j] == f(i, j);
      }
      if j < yL {
        assert s0[y + j] == g(i, j);
      }
    }
  }

  /** Rows [from, to): yL columns have both operands inside, xL at least the first. */
  ghost predicate RowsFit(rows: int, cols: int, xr: int, xc: int, yr: int, yc: int,
                          from: int, to: int, yL: int, xL: int, yLim: int) {
    from < to ==>
      && (0 < yL ==> yr + to <= rows && yc + yL <= cols)
      && (yr + from >= rows || yc + Max(0, yL) >= cols || yL >= yLim)
      && (0 < Max(yL, xL) ==> xr + to <= rows && xc + Max(yL, xL) <= cols)
      && (xr + from >= rows || xc + Max(0, Max(yL, xL)) >= cols || Max(yL, xL) >= yLim)
  }

  /** One nest of loops: rows [from, to) of the destination. */
  method SumRows(mem: array<int>, C: int, n: int, A: int, sa: int, rows: int, cols: int,
                 xr: int, xc: int, negX: bool, yr: int, yc: int, negY: bool,
                 from: int, to: int, yL: int, xL: int, yLim: int, ghost s0: seq<int>) returns (i: int)
    requires 0 <= sa && 0 <= xr && 0 <= xc && 0 <= yr && 0 <= yc
    requires 0 <= from && to <= n && yL <= n && xL <= n && 0 <= yLim <= n
    requires 0 <= C && C + n * n <= mem.Length && Frame(s0, mem[..], C, C + n * n)
    requires Readable(|s0|, A, sa, rows, cols, xr, xc, n, C, C + n * n)
    requires Readable(|s0|, A, sa, rows, cols, yr, yc, n, C, C + n * n)
    requires RowsFit(rows, cols, xr, xc, yr, yc, from, to, yL, xL, yLim)
    requires Holds(mem[..], C, n, from, yLim,
                   Signed(negX, ZBlock(s0, A, sa, rows, cols, xr, xc), negY, ZBlock(s0, A, sa, rows, cols, yr, yc)))
    modifies mem
    ensures i == Max(from, to)
    ensures Frame(s0, mem[..], C, C + n * n)
    ensures Holds(mem[..], C, n, i, yLim,
                  Signed(negX, ZBlock(s0, A, sa, rows, cols, xr, xc), negY, ZBlock(s0, A, sa, rows, cols, yr, yc)))
  {
    ghost var f, g := ZBlock(s0, A, sa, rows, cols, xr, xc), ZBlock(s0, A, sa, rows, cols, yr, yc);
    var x0, y0 := A + xr * sa + xc, A + yr * sa + yc;
    i := from;
    while i < to
      invariant from <= i <= Max(from, to)
      invariant Frame(s0, mem[..], C, C + n * n)
      invariant Holds(mem[..], C, n, i, yLim, Signed(negX, f, negY, g))
    {
      ghost var s := mem[..];
      RowBound(i, n, n);
      RowOperand(s0, s, A, sa, rows, cols, xr, xc, n, C, C + n * n, i, Max(yL, xL));
      RowOperand(s0, s, A, sa, rows, cols, yr, yc, n, C, C + n * n, i, yL);
      SumRow(mem, C, n, i, C + i * n, x0 + i * sa, negX, y0 + i * sa, negY, yL, xL, yLim, f, g);
      HoldsNextRow(s, mem[..], C, n, i, yLim, Signed(negX, f, negY, g));
      i := i + 1;
    }
  }

  /** The first c cells of row i of a zero-extended block, when they lie in the matrix. */
  lemma RowOperand(s0: seq<int>, s: seq<int>, A: int, sa: int, rows: int, cols: int, x: int, y: int, n: int,
                   lo: int, hi: int, i: int, c: int)
    requires 0 <= sa && 0 <= x && 0 <= y
    requires Frame(s0, s, lo, hi) && Readable(|s0|, A, sa, rows, cols, x, y, n, lo, hi)
    requires 0 <= i < n && c <= n && (0 < c ==> x + i < rows && y + c <= cols)
    ensures var p := A + x * sa + y + i * sa;
            0 < c ==> 0 <= p && p + c <= |s| && Disjoint(p, p + c, lo, hi)
    ensures forall j :: 0 <= j < c ==> s[A + x * sa + y + i * sa + j] == ZBlock(s0, A, sa, rows, cols, x, y)(i, j)
  {
    if 0 < c {
      ZRead(s0, s, A, sa, rows, cols, x, y, n, lo, hi, i + 1, c);
      RowInSpan(A + x * sa + y, i + 1, c, sa, i);
      RowViewed(s, A + x * sa + y + i * sa, A + x * sa + y, sa, i, c, ZBlock(s0, A, sa, rows, cols, x, y));
    }
  }

  lemma SignedIsComb(s: seq<int>, base: int, n: int, r: int, c: int, negX: bool, f: Mat, negY: bool, g: Mat)
    requires Holds(s, base, n, r, c, Signed(negX, f, negY, g))
    ensures !negX ==> Holds(s, base, n, r, c, Comb(negY, f, g))
    ensures negX && !negY ==> Holds(s, base, n, r, c, Comb(true, g, f))
  {
    forall i, j | 0 <= i < r && 0 <= j < c
      ensures !negX ==> Cell(s, base, n, i, j) == Comb(negY, f, g)(i, j)
      ensures negX && !negY ==> Cell(s, base, n, i, j) == Comb(true, g, f)(i, j)
    {
      assert Cell(s, base, n, i, j) == Signed(negX, f, negY, g)(i, j);
      assert Comb(negY, f, g)(i, j) == (if negY then f(i, j) - g(i, j) else f(i, j) + g(i, j));
    }
  }

  /** The three nests one after the other: rows with both operands, rows with the first, zero rows. */
  method Nests(mem: array<int>, C: int, n: int, A: int, sa: int, rows: int, cols: int,
               xr: int, xc: int, negX: bool, yr: int, yc: int, negY: bool,
               r1: int, y1: int, x1: int, r2: int, x2: int, r3: int, yLim: int) returns (i: int)
    requires 0 <= sa && 0 <= xr && 0 <= xc && 0 <= yr && 0 <= yc
    requires r1 <= n && r2 <= n && r3 <= n && y1 <= n && x1 <= n && x2 <= n && 0 <= yLim <= n
    requires 0 <= C && C + n * n <= mem.Length
    requires Readable(mem.Length, A, sa, rows, cols, xr, xc, n, C, C + n * n)
    requires Readable(mem.Length, A, sa, rows, cols, yr, yc, n, C, C + n * n)
    requires RowsFit(rows, cols, xr, xc, yr, yc, 0, r1, y1, x1, yLim)
    requires RowsFit(rows, cols, xr, xc, yr, yc, Max(0, r1), r2, 0, x2, yLim)
    requires RowsFit(rows, cols, xr, xc, yr, yc, Max(Max(0, r1), r2), r3, 0, 0, yLim)
    modifies mem
    ensures i == Max(Max(Max(0, r1), r2), r3)
    ensures Frame(old(mem[..]), mem[..], C, C + n * n)
    ensures Holds(mem[..], C, n, i, yLim,
                  Signed(negX, ZBlock(old(mem[..]), A, sa, rows, cols, xr, xc), negY,
                         ZBlock(old(mem[..]), A, sa, rows, cols, yr, yc)))
  {
    ghost var s0 := mem[..];
    i := SumRows(mem, C, n, A, sa, rows, cols, xr, xc, negX, yr, yc, negY, 0, r1, y1, x1, yLim, s0);
    i := SumRows(mem, C, n, A, sa, rows, cols, xr, xc, negX, yr, yc, negY, i, r2, 0, x2, yLim, s0);
    i := SumRows(mem, C, n, A, sa, rows, cols, xr, xc, negX, yr, yc, negY, i, r3, 0, 0, yLim, s0);
  }

  /** Where the nests of SMAdd and SMSub1 end: the first operand has the smaller
      indices, so it reaches at least as far as the second.  Only the sum clips the
      limits to the window when the first operand lies inside the matrix. */
  method Limits1(mSz: nat, abx: nat, aby: nat, xa: nat, ya: nat, xb: nat, yb: nat,
                 cxLim: int, cyLim: int, mSzX: int, mSzY: int, minus: bool)
    returns (r1: int, y1: int, x1: int, r2: int, x2: int, r3: int)
    requires xa <= xb && ya <= yb && 0 < cxLim && 0 < cyLim && mSzX == Min(mSz, cxLim) && mSzY == Min(mSz, cyLim)
    ensures r1 <= mSz && r2 <= mSz && r3 <= mSz && y1 <= mSz && x1 <= mSz && x2 <= mSz
    ensures RowsFit(abx, aby, xa, ya, xb, yb, 0, r1, y1, x1, mSzY)
    ensures RowsFit(abx, aby, xa, ya, xb, yb, Max(0, r1), r2, 0, x2, mSzY)
    ensures RowsFit(abx, aby, xa, ya, xb, yb, Max(Max(0, r1), r2), r3, 0, 0, mSzY)
    ensures mSzX <= Max(Max(Max(0, r1), r2), r3)
  {
    var axLim, ayLim, bxLim, byLim;
    if xb + mSz >= abx {
      bxLim := abx - xb;
      byLim := if yb + mSz >= aby then aby - yb else mSz;
    } else {
      if yb + mSz >= aby {
        byLim := aby - yb;
      } else {
        return mSzX, mSzY, mSzY, 0, 0, 0;
      }
      bxLim := mSz;
    }
    if xa + mSz >= abx {
      axLim := abx - xa;
      ayLim := if ya + mSz >= aby then aby - ya else mSz;
    } else {
      if ya + mSz >= aby {
        ayLim := aby - ya;
      } else {
        if !minus {
          if bxLim > cxLim { bxLim := mSzX; }
          if byLim > cyLim { byLim := mSzY; }
        }
        return bxLim, byLim, mSzY, mSzX, mSzY, 0;
      }
      axLim := mSz;
    }
    if axLim > cxLim { axLim := mSzX; }
    if ayLim > cyLim { ayLim := mSzY; }
    if bxLim > cxLim { bxLim := mSzX; }
    if byLim > cyLim { byLim := mSzY; }
    return bxLim, byLim, ayLim, axLim, ayLim, mSzX;
  }

  /** Where the nests of SMSub2 end: the subtracted block b has the smaller
      indices, so the roles of the operands are exchanged. */
  method Limits2(mSz: nat, abx: nat, aby: nat, xa: nat, ya: nat, xb: nat, yb: nat,
                 cxLim: int, cyLim: int, mSzX: int, mSzY: int)
    returns (r1: int, y1: int, x1: int, r2: int, x2: int, r3: int)
    requires xb <= xa && yb <= ya && 0 < cxLim && 0 < cyLim && mSzX == Min(mSz, cxLim) && mSzY == Min(mSz, cyLim)
    ensures r1 <= mSz && r2 <= mSz && r3 <= mSz && y1 <= mSz && x1 <= mSz && x2 <= mSz
    ensures RowsFit(abx, aby, xb, yb, xa, ya, 0, r1, y1, x1, mSzY)
    ensures RowsFit(abx, aby, xb, yb, xa, ya, Max(0, r1), r2, 0, x2, mSzY)
    ensures RowsFit(abx, aby, xb, yb, xa, ya, Max(Max(0, r1), r2), r3, 0, 0, mSzY)
    ensures mSzX <= Max(Max(Max(0, r1), r2), r3)
  {
    r1, y1, x1, r2, x2, r3 := Limits1(mSz, abx, aby, xb, yb, xa, ya, cxLim, cyLim, mSzX, mSzY, true);
  }

  /** C := A + B, where B has the greater indices. */
  method SMAdd(mem: array<int>, mSz: nat, abx: nat, aby: nat, A: int, xa: nat, ya: nat, sa: nat,
               xb: nat, yb: nat, C: int, cxLim: int, cyLim: int)
    requires xa <= xb && ya <= yb
    requires 0 <= C && C + mSz * mSz <= mem.Length
    requires Readable(mem.Length, A, sa, abx, aby, xa, ya, mSz, C, C + mSz * mSz)
    requires Readable(mem.Length, A, sa, abx, aby, xb, yb, mSz, C, C + mSz * mSz)
    modifies mem
    ensures Frame(old(mem[..]), mem[..], C, C + mSz * mSz)
    ensures Holds(mem[..], C, mSz, Min(mSz, cxLim), Min(mSz, cyLim),
                  Comb(false, ZBlock(old(mem[..]), A, sa, abx, aby, xa, ya),
                       ZBlock(old(mem[..]), A, sa, abx, aby, xb, yb)))
  {
    if cxLim <= 0 || cyLim <= 0 {
      return;
    }
    ghost var f, g := ZBlock(mem[..], A, sa, abx, aby, xa, ya), ZBlock(mem[..], A, sa, abx, aby, xb, yb);
    var mSzX := if cxLim > mSz then mSz else cxLim;
    var mSzY := if cyLim > mSz then mSz else cyLim;
    var r1, y1, x1, r2, x2, r3 := Limits1(mSz, abx, aby, xa, ya, xb, yb, cxLim, cyLim, mSzX, mSzY, false);
    var i := Nests(mem, C, mSz, A, sa, abx, aby, xa, ya, false, xb, yb, false, r1, y1, x1, r2, x2, r3, mSzY);
    SignedIsComb(mem[..], C, mSz, mSzX, mSzY, false, f, false, g);
  }

  /** C := A - B, where B has the greater indices. */
  method SMSub1(mem: array<int>, mSz: nat, abx: nat, aby: nat, A: int, xa: nat, ya: nat, sa: nat,
                xb: nat, yb: nat, C: int, cxLim: int, cyLim: int)
    requires xa <= xb && ya <= yb
    requires 0 <= C && C + mSz * mSz <= mem.Length
    requires Readable(mem.Length, A, sa, abx, aby, xa, ya, mSz, C, C + mSz * mSz)
    requires Readable(mem.Length, A, sa, abx, aby, xb, yb, mSz, C, C + mSz * mSz)
    modifies mem
    ensures Frame(old(mem[..]), mem[..], C, C + mSz * mSz)
    ensures Holds(mem[..], C, mSz, Min(mSz, cxLim), Min(mSz, cyLim),
                  Comb(true, ZBlock(old(mem[..]), A, sa, abx, aby, xa, ya),
                       ZBlock(old(mem[..]), A, sa, abx, aby, xb, yb)))
  {
    if cxLim <= 0 || cyLim <= 0 {
      return;
    }
    ghost var f, g := ZBlock(mem[..], A, sa, abx, aby, xa, ya), ZBlock(mem[..], A, sa, abx, aby, xb, yb);
    var mSzX := if cxLim > mSz then mSz else cxLim;
    var mSzY := if cyLim > mSz then mSz else cyLim;
    var r1, y1, x1, r2, x2, r3 := Limits1(mSz, abx, aby, xa, ya, xb, yb, cxLim, cyLim, mSzX, mSzY, true);
    var i := Nests(mem, C, mSz, A, sa, abx, aby, xa, ya, false, xb, yb, true, r1, y1, x1, r2, x2, r3, mSzY);
    SignedIsComb(mem[..], C, mSz, mSzX, mSzY, false, f, true, g);
  }

  /** C := A - B, where A has the greater indices. */
  method SMSub2(mem: array<int>, mSz: nat, abx: nat, aby: nat, A: int, xa: nat, ya: nat, sa: nat,
                xb: nat, yb: nat, C: int, cxLim: int, cyLim: int)
    requires xb <= xa && yb <= ya
    requires 0 <= C && C + mSz * mSz <= mem.Length
    requires Readable(mem.Length, A, sa, abx, aby, xa, ya, mSz, C, C + mSz * mSz)
    requires Readable(mem.Length, A, sa, abx, aby, xb, yb, mSz, C, C + mSz * mSz)
    modifies mem
    ensures Frame(old(mem[..]), mem[..], C, C + mSz * mSz)
    ensures Holds(mem[..], C, mSz, Min(mSz, cxLim), Min(mSz, cyLim),
                  Comb(true, ZBlock(old(mem[..]), A, sa, abx, aby, xa, ya),
                       ZBlock(old(mem[..]), A, sa, abx, aby, xb, yb)))
  {
    if cxLim <= 0 || cyLim <= 0 {
      return;
    }
    ghost var f, g := ZBlock(mem[..], A, sa, abx, aby, xa, ya), ZBlock(mem[..], A, sa, abx, aby, xb, yb);
    var mSzX := if cxLim > mSz then mSz else cxLim;
    var mSzY := if cyLim > mSz then mSz else cyLim;
    var r1, y1, x1, r2, x2, r3 := Limits2(mSz, abx, aby, xa, ya, xb, yb, cxLim, cyLim, mSzX, mSzY);
    var i := Nests(mem, C, mSz, A, sa, abx, aby, xb, yb, true, xa, ya, false, r1, y1, x1, r2, x2, r3, mSzY);
    SignedIsComb(mem[..], C, mSz, mSzX, mSzY, true, g, false, f);
  }

  /** C := -A; the window is not clipped, so it must lie in the block. */
  method SMNegate(mem: array<int>, mSz: nat, abx: nat, aby: nat, A: int, xa: nat, ya: nat, sa: nat,
                  C: int, cxLim: int, cyLim: int)
    requires 0 < cxLim && 0 < cyLim ==> cxLim <= mSz && cyLim <= mSz
    requires 0 <= C && C + mSz * mSz <= mem.Length
    requires Readable(mem.Length, A, sa, abx, aby, xa, ya, mSz, C, C + mSz * mSz)
    modifies mem
    ensures Frame(old(mem[..]), mem[..], C, C + mSz * mSz)
    ensures Holds(mem[..], C, mSz, cxLim, cyLim, Sub(ZERO, ZBlock(old(mem[..]), A, sa, abx, aby, xa, ya)))
  {
    if cxLim <= 0 || cyLim <= 0 {
      return;
    }
    ghost var f := ZBlock(mem[..], A, sa, abx, aby, xa, ya);
    var axLim, ayLim;
    if xa + mSz >= abx {
      axLim := abx - xa;
      ayLim := if ya + mSz >= aby then aby - ya else mSz;
    } else {
      axLim := mSz;
      ayLim := if ya + mSz >= aby then aby - ya else mSz;
    }
    if cxLim < axLim { axLim := cxLim; }
    if cyLim < ayLim { ayLim := cyLim; }
    NegateRows(mem, mSz, abx, aby, A, xa, ya, sa, C, axLim, ayLim, cxLim, cyLim);
  }

  /** The nests of SMNegate.  The second operand is the block just outside the
      matrix, so nothing of it is read and it counts as zero. */
  method NegateRows(mem: array<int>, mSz: nat, abx: nat, aby: nat, A: int, xa: nat, ya: nat, sa: nat,
                    C: int, axLim: int, ayLim: int, cxLim: int, cyLim: int)
    requires 0 < cxLim <= mSz && 0 < cyLim <= mSz
    requires axLim == Min(Min(mSz, abx - xa), cxLim) && ayLim == Min(Min(mSz, aby - ya), cyLim)
    requires 0 <= C && C + mSz * mSz <= mem.Length
    requires Readable(mem.Length, A, sa, abx, aby, xa, ya, mSz, C, C + mSz * mSz)
    modifies mem
    ensures Frame(old(mem[..]), mem[..], C, C + mSz * mSz)
    ensures Holds(mem[..], C, mSz, cxLim, cyLim, Sub(ZERO, ZBlock(old(mem[..]), A, sa, abx, aby, xa, ya)))
  {
    ghost var s0 := mem[..];
    var i := Nests(mem, C, mSz, A, sa, abx, aby, xa, ya, true, abx, aby, false, axLim, 0, ayLim, 0, 0, cxLim, cyLim);
    SignedIsNeg(s0, mem[..], C, mSz, cxLim, cyLim, A, sa, abx, aby, xa, ya);
  }

  lemma SignedIsNeg(s0: seq<int>, s: seq<int>, base: int, n: int, r: int, c: int, A: int, sa: int, rows: int, cols: int,
                    x: int, y: int)
    requires Holds(s, base, n, r, c,
                   Signed(true, ZBlock(s0, A, sa, rows, cols, x, y), false, ZBlock(s0, A, sa, rows, cols, rows, cols)))
    ensures Holds(s, base, n, r, c, Sub(ZERO, ZBlock(s0, A, sa, rows, cols, x, y)))
  {
    var f, g := ZBlock(s0, A, sa, rows, cols, x, y), ZBlock(s0, A, sa, rows, cols, rows, cols);
    forall i, j | 0 <= i < r && 0 <= j < c
      ensures Cell(s, base, n, i, j) == Sub(ZERO, f)(i, j)
    {
      assert Cell(s, base, n, i, j) == Signed(true, f, false, g)(i, j);
      assert g(i, j) == 0;
    }
  }
}
