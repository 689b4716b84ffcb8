/** Strassen multiplication when the right operand's block may stick out of its matrix.

Beyond the m rows and l columns of B the block counts as zero, so some quadrants
of it vanish, and with them some of the seven products: those are neither
computed nor read. */
module StrassenChecked {
  import opened Matrices
  import opened FlatMemory
  import opened Loops
  import opened Kernels
  import opened BlockSums
  import opened Assembly
  import opened Division
  import Strassen

  // ----- operands -----

  /** The two operand blocks: A is n by m with its block's corner at (xa, ya),
      B is m by l with its block's corner at (xb, yb). */
  datatype Source = Source(l: nat, m: nat, n: nat, A: int, xa: nat, ya: nat, sa: nat, B: int, xb: nat, yb: nat,
                           sb: nat) {
    /** The same, with the left operand taken from an h-wide scratch block. */
    function FromScratch(o: int, h: nat): (r: Source) { this.(A := o, xa := 0, ya := 0, sa := h) }

    function MoveB(dx: nat, dy: nat): (r: Source) { this.(xb := xb + dx, yb := yb + dy) }
  }

  /** The left block lies inside A; a is the address of its corner. */
  ghost predicate LeftInside(len: int, src: Source, n: int, a: int, lo: int, hi: int) {
    && src.xa + n <= src.n && src.ya + n <= src.m && a == src.A + src.xa * src.sa + src.ya
    && Operand(len, a, src.sa, n, lo, hi)
  }

  /** The matrix B is apart from the region. */
  ghost predicate RightApart(len: int, src: Source, lo: int, hi: int) {
    0 <= src.B && src.B + Span(src.m, src.l, src.sb) <= len
      && Disjoint(src.B, src.B + Span(src.m, src.l, src.sb), lo, hi)
  }

  /** Blocks of A and of B, zero beyond the matrix. */
  ghost function LeftAt(s: seq<int>, src: Source, x: int, y: int): (r: Mat) {
    ZBlock(s, src.A, src.sa, src.n, src.m, x, y)
  }

  ghost function RightAt(s: seq<int>, src: Source, x: int, y: int): (r: Mat) {
    ZBlock(s, src.B, src.sb, src.m, src.l, x, y)
  }

  /** The right operand: the block of B, zero beyond m rows and l columns. */
  ghost function Right(s: seq<int>, src: Source): (r: Mat) { RightAt(s, src, src.xb, src.yb) }

  ghost predicate SameOn(f: Mat, g: Mat, n: int) {
    forall i, j :: 0 <= i < n && 0 <= j < n ==> f(i, j) == g(i, j)
  }

  lemma LeftReadable(len: int, src: Source, n: int, a: int, h: nat, dx: nat, dy: nat, lo: int, hi: int)
    requires LeftInside(len, src, n, a, lo, hi) && dx + h <= n && dy + h <= n
    ensures Readable(len, src.A, src.sa, src.n, src.m, src.xa + dx, src.ya + dy, h, lo, hi)
  {
    if 0 < h {
      SubExtent(n, src.sa, dx, dy, h);
      assert (src.xa + dx) * src.sa == src.xa * src.sa + dx * src.sa;
    }
  }

  lemma LeftSame(s0: seq<int>, s: seq<int>, src: Source, n: int, a: int, h: nat, dx: nat, dy: nat)
    requires src.xa + n <= src.n && src.ya + n <= src.m && a == src.A + src.xa * src.sa + src.ya
    requires dx + h <= n && dy + h <= n && 0 <= a && Kept(s0, s, a, a + Extent(n, src.sa))
    ensures SameOn(LeftAt(s, src, src.xa + dx, src.ya + dy), Blk(View(s0, a, src.sa), dx, dy), h)
  {
    forall i, j | 0 <= i < h && 0 <= j < h
      ensures LeftAt(s, src, src.xa + dx, src.ya + dy)(i, j) == Blk(View(s0, a, src.sa), dx, dy)(i, j)
    {
      LeftEntry(src.xa, src.ya, src.sa, src.A, a, i + dx, j + dy);
      InExtent(n, src.sa, i + dx, j + dy);
    }
  }

  lemma LeftEntry(xa: int, ya: int, sa: int, A: int, a: int, i: int, j: int)
    requires a == A + xa * sa + ya
    ensures A + (i + xa) * sa + (j + ya) == a + i * sa + j
  {
  }

  lemma RightReadable(len: int, src: Source, x: nat, y: nat, h: nat, lo: int, hi: int)
    requires RightApart(len, src, lo, hi)
    ensures Readable(len, src.B, src.sb, src.m, src.l, x, y, h, lo, hi)
  {
    var r, c := Min(h, src.m - x), Min(h, src.l - y);
    if 0 < r && 0 < c {
      assert x * src.sb + (r - 1) * src.sb == (x + r - 1) * src.sb;
      MulMono(x + r - 1, src.m - 1, src.sb);
      MulMono(0, x, src.sb);
    }
  }

  lemma RightSame(s0: seq<int>, s: seq<int>, src: Source, h: nat, dx: nat, dy: nat)
    requires 0 <= src.B && Kept(s0, s, src.B, src.B + Span(src.m, src.l, src.sb))
    ensures SameOn(RightAt(s, src, src.xb + dx, src.yb + dy), Blk(Right(s0, src), dx, dy), h)
  {
    forall i, j | 0 <= i < h && 0 <= j < h
      ensures RightAt(s, src, src.xb + dx, src.yb + dy)(i, j) == Blk(Right(s0, src), dx, dy)(i, j)
    {
      var x, y := i + dx + src.xb, j + dy + src.yb;
      if x < src.m && y < src.l {
        InSpan(src.m, src.l, src.sb, x, y);
      }
    }
  }

  /** A quadrant of the left block can be read, and is the quadrant it was at the start. */
  lemma LeftBlock(s0: seq<int>, s: seq<int>, src: Source, n: int, a: int, h: nat, dx: nat, dy: nat, lo: int, hi: int,
                  z: Mat, g: Mat)
    requires LeftInside(|s|, src, n, a, lo, hi) && dx + h <= n && dy + h <= n && Kept(s0, s, a, a + Extent(n, src.sa))
    requires z == LeftAt(s, src, src.xa + dx, src.ya + dy) && g == Blk(View(s0, a, src.sa), dx, dy)
    ensures Readable(|s|, src.A, src.sa, src.n, src.m, src.xa + dx, src.ya + dy, h, lo, hi) && SameOn(z, g, h)
  {
    LeftReadable(|s|, src, n, a, h, dx, dy, lo, hi);
    LeftSame(s0, s, src, n, a, h, dx, dy);
  }

  lemma RightBlock(s0: seq<int>, s: seq<int>, src: Source, h: nat, dx: nat, dy: nat, lo: int, hi: int, z: Mat, g: Mat)
    requires RightApart(|s|, src, lo, hi) && Kept(s0, s, src.B, src.B + Span(src.m, src.l, src.sb))
    requires z == RightAt(s, src, src.xb + dx, src.yb + dy) && g == Blk(Right(s0, src), dx, dy)
    ensures Readable(|s|, src.B, src.sb, src.m, src.l, src.xb + dx, src.yb + dy, h, lo, hi) && SameOn(z, g, h)
  {
    RightReadable(|s|, src, src.xb + dx, src.yb + dy, h, lo, hi);
    RightSame(s0, s, src, h, dx, dy);
  }

  // ----- preparing operands -----

  /** One of the sums or differences of blocks, whichever fits the order of the indices. */
  method Combine(mem: array<int>, dst: int, h: nat, rows: nat, cols: nat, M: int, sm: nat,
                 x1: nat, y1: nat, x2: nat, y2: nat, minus: bool, cx: int, cy: int, ghost z1: Mat, ghost z2: Mat)
    requires z1 == ZBlock(mem[..], M, sm, rows, cols, x1, y1) && z2 == ZBlock(mem[..], M, sm, rows, cols, x2, y2)
    requires (x1 <= x2 && y1 <= y2) || (minus && x2 <= x1 && y2 <= y1)
    requires 0 <= dst && dst + h * h <= mem.Length
    requires Readable(mem.Length, M, sm, rows, cols, x1, y1, h, dst, dst + h * h)
    requires Readable(mem.Length, M, sm, rows, cols, x2, y2, h, dst, dst + h * h)
    modifies mem
    ensures Frame(old(mem[..]), mem[..], dst, dst + h * h)
    ensures Holds(mem[..], dst, h, Min(h, cx), Min(h, cy), Comb(minus, z1, z2))
  {
    if !minus {
      SMAdd(mem, h, rows, cols, M, x1, y1, sm, x2, y2, dst, cx, cy);
    } else if x1 <= x2 && y1 <= y2 {
      SMSub1(mem, h, rows, cols, M, x1, y1, sm, x2, y2, dst, cx, cy);
    } else {
      SMSub2(mem, h, rows, cols, M, x1, y1, sm, x2, y2, dst, cx, cy);
    }
  }

  lemma CombSame(s: seq<int>, base: int, h: int, rows: int, cols: int, minus: bool, f1: Mat, f2: Mat, g1: Mat, g2: Mat)
    requires Holds(s, base, h, rows, cols, Comb(minus, f1, f2)) && rows <= h && cols <= h
    requires SameOn(f1, g1, h) && SameOn(f2, g2, h)
    ensures Holds(s, base, h, rows, cols, Comb(minus, g1, g2))
  {
    forall i, j | 0 <= i < rows && 0 <= j < cols
      ensures Cell(s, base, h, i, j) == Comb(minus, g1, g2)(i, j)
    {
      assert Cell(s, base, h, i, j) == Comb(minus, f1, f2)(i, j);
      assert f1(i, j) == g1(i, j) && f2(i, j) == g2(i, j);
    }
  }

  /** a_cum := a block of A plus or minus another. */
  method CombineLeft(mem: array<int>, o: int, h: nat, src: Source, n: nat, dx1: nat, dy1: nat, dx2: nat, dy2: nat,
                     minus: bool, rows: int, ghost a: int, ghost s0: seq<int>)
    requires 2 * h == n && 0 <= o && o + h * h <= mem.Length && LeftInside(mem.Length, src, n, a, o, o + h * h)
    requires Kept(s0, mem[..], a, a + Extent(n, src.sa)) && rows <= h
    requires (dx1 == 0 || dx1 == h) && (dy1 == 0 || dy1 == h) && (dx2 == 0 || dx2 == h) && (dy2 == 0 || dy2 == h)
    requires (dx1 <= dx2 && dy1 <= dy2) || (minus && dx2 <= dx1 && dy2 <= dy1)
    modifies mem
    ensures Frame(old(mem[..]), mem[..], o, o + h * h)
    ensures Holds(mem[..], o, h, rows, h,
                  Comb(minus, Blk(View(s0, a, src.sa), dx1, dy1), Blk(View(s0, a, src.sa), dx2, dy2)))
  {
    ghost var s := mem[..];
    var x1, y1, x2, y2, hh := src.xa + dx1, src.ya + dy1, src.xa + dx2, src.ya + dy2, h * h;
    ghost var z1, z2 := LeftAt(s, src, x1, y1), LeftAt(s, src, x2, y2);
    ghost var g1, g2 := Blk(View(s0, a, src.sa), dx1, dy1), Blk(View(s0, a, src.sa), dx2, dy2);
    assert dx1 + h <= n && dy1 + h <= n && dx2 + h <= n && dy2 + h <= n;
    assert Readable(|s|, src.A, src.sa, src.n, src.m, x1, y1, h, o, o + hh) && SameOn(z1, g1, h) by {
      LeftBlock(s0, s, src, n, a, h, dx1, dy1, o, o + hh, z1, g1);
    }
    assert Readable(|s|, src.A, src.sa, src.n, src.m, x2, y2, h, o, o + hh) && SameOn(z2, g2, h) by {
      LeftBlock(s0, s, src, n, a, h, dx2, dy2, o, o + hh, z2, g2);
    }
    Combine(mem, o, h, src.n, src.m, src.A, src.sa, x1, y1, x2, y2, minus, rows, h, z1, z2);
    CombSame(mem[..], o, h, rows, h, minus, z1, z2, g1, g2);
  }

  /** b_cum := a block of B plus or minus another. */
  method CombineRight(mem: array<int>, o: int, h: nat, src: Source, dx1: nat, dy1: nat, dx2: nat, dy2: nat, minus: bool,
                      cols: int, ghost s0: seq<int>)
    requires 0 <= o && o + h * h <= mem.Length && RightApart(mem.Length, src, o, o + h * h)
    requires Kept(s0, mem[..], src.B, src.B + Span(src.m, src.l, src.sb)) && cols <= h
    requires (dx1 <= dx2 && dy1 <= dy2) || (minus && dx2 <= dx1 && dy2 <= dy1)
    modifies mem
    ensures Frame(old(mem[..]), mem[..], o, o + h * h)
    ensures Holds(mem[..], o, h, h, cols, Comb(minus, Blk(Right(s0, src), dx1, dy1), Blk(Right(s0, src), dx2, dy2)))
  {
    ghost var s := mem[..];
    var x1, y1, x2, y2, hh := src.xb + dx1, src.yb + dy1, src.xb + dx2, src.yb + dy2, h * h;
    ghost var z1, z2 := RightAt(s, src, x1, y1), RightAt(s, src, x2, y2);
    ghost var g1, g2 := Blk(Right(s0, src), dx1, dy1), Blk(Right(s0, src), dx2, dy2);
    RightBlock(s0, s, src, h, dx1, dy1, o, o + hh, z1, g1);
    RightBlock(s0, s, src, h, dx2, dy2, o, o + hh, z2, g2);
    Combine(mem, o, h, src.m, src.l, src.B, src.sb, x1, y1, x2, y2, minus, h, cols, z1, z2);
    CombSame(mem[..], o, h, h, cols, minus, z1, z2, g1, g2);
  }

  // ----- a divided call -----

  /** Where the operands of a divided call are: apart from its scratch and its result. */
  ghost predicate Setting(s0: seq<int>, c: Call, end: int, src: Source, a: int, f: Mat, g: Mat) {
    && LeftInside(|s0|, src, c.n, a, c.o, end) && LeftInside(|s0|, src, c.n, a, c.C, c.C + c.n * c.n)
    && RightApart(|s0|, src, c.o, end) && RightApart(|s0|, src, c.C, c.C + c.n * c.n)
    && f == View(s0, a, src.sa) && g == Right(s0, src)
  }

  /** While a call runs, its operands stay what they were. */
  lemma Intact(s0: seq<int>, s: seq<int>, c: Call, end: int, src: Source, a: int, f: Mat, g: Mat)
    requires Setting(s0, c, end, src, a, f, g) && Frame2(s0, s, c.o, end, c.C, c.C + c.n * c.n)
    ensures Kept(s0, s, a, a + Extent(c.n, src.sa)) && Kept(s0, s, src.B, src.B + Span(src.m, src.l, src.sb))
  {
  }

  lemma Shrink(len: int, src: Source, n: int, a: int, lo: int, hi: int, lo': int, hi': int)
    requires LeftInside(len, src, n, a, lo, hi) && RightApart(len, src, lo, hi) && lo <= lo' && hi' <= hi
    ensures LeftInside(len, src, n, a, lo', hi') && RightApart(len, src, lo', hi')
  {
  }

  /** A product with an operand replaced by one that agrees with it. */
  lemma ProductSame(s: seq<int>, p: int, h: int, rows: int, cols: int, f: Mat, g: Mat, g': Mat)
    requires Holds(s, p, h, rows, cols, Mul(f, g, h)) && rows <= h && cols <= h && SameOn(g, g', h)
    ensures Holds(s, p, h, rows, cols, Mul(f, g', h))
  {
    forall i, j | 0 <= i < rows && 0 <= j < cols
      ensures Cell(s, p, h, i, j) == Mul(f, g', h)(i, j)
    {
      assert Cell(s, p, h, i, j) == Mul(f, g, h)(i, j);
      DotCong(f, g, i, j, f, g', i, j, h);
    }
  }

  /** a_cum times b_cum, both prepared. */
  method StepBoth(mem: array<int>, k: int, c: Call, src: Source, dx1: nat, dy1: nat, dx2: nat, dy2: nat, minusA: bool,
                  ex1: nat, ey1: nat, ex2: nat, ey2: nat, minusB: bool, ghost s0: seq<int>, ghost ks: set<int>,
                  ghost qs: set<Corner>, ghost end: int, ghost a: int, ghost f: Mat, ghost g: Mat)
    requires 1 <= k <= 7 && k !in ks && Progress(s0, mem[..], ks, qs, c, end, f, g) && Setting(s0, c, end, src, a, f, g)
    requires (dx1 == 0 || dx1 == c.h) && (dy1 == 0 || dy1 == c.h) && (dx2 == 0 || dx2 == c.h)
        && (dy2 == 0 || dy2 == c.h)
    requires (dx1 <= dx2 && dy1 <= dy2) || (minusA && dx2 <= dx1 && dy2 <= dy1)
    requires (ex1 <= ex2 && ey1 <= ey2) || (minusB && ex2 <= ex1 && ey2 <= ey1)
    requires SevenProducts(k, f, g, c.h)
        == Mul(Comb(minusA, Blk(f, dx1, dy1), Blk(f, dx2, dy2)), Comb(minusB, Blk(g, ex1, ey1), Blk(g, ex2, ey2)), c.h)
    modifies mem
    ensures Progress(s0, mem[..], ks + {k}, qs, c, end, f, g)
  {
    ghost var s := mem[..];
    var h, hh, o, rows, cols := c.h, c.hh, c.o, c.W().Rows(k), c.W().Cols(k);
    ghost var fa, gb := Comb(minusA, Blk(f, dx1, dy1), Blk(f, dx2, dy2)),
        Comb(minusB, Blk(g, ex1, ey1), Blk(g, ex2, ey2));
    ProductInScratch(o, h, hh, k);
    Intact(s0, s, c, end, src, a, f, g);
    Shrink(|s|, src, c.n, a, o, end, o, o + hh);
    Shrink(|s|, src, c.n, a, o, end, o + hh, o + hh + hh);
    CombineLeft(mem, o, h, src, c.n, dx1, dy1, dx2, dy2, minusA, rows, a, s0);
    ghost var s1 := mem[..];
    Intact(s0, s1, c, end, src, a, f, g);
    CombineRight(mem, o + hh, h, src, ex1, ey1, ex2, ey2, minusB, cols, s0);
    HoldsKeptDense(s1, mem[..], o, h, rows, h, fa, hh);
    Strassen.Recurse(mem, o, h, hh, ProductAt(o, hh, k), o, h, o + hh, h, rows, cols, end, fa, gb);
    ProgressProduct(s0, s, mem[..], k, ks, qs, c, end, f, g);
  }

  lemma LeftProduct(s: seq<int>, t: seq<int>, p: int, h: int, rows: int, cols: int, a: int, sa: int, f: Mat, g: Mat)
    requires rows <= h && cols <= h && Holds(s, a, sa, rows, h, f)
    requires Holds(t, p, h, rows, cols, Mul(View(s, a, sa), g, h))
    ensures Holds(t, p, h, rows, cols, Mul(f, g, h))
  {
    forall i, j | 0 <= i < rows && 0 <= j < cols
      ensures Cell(t, p, h, i, j) == Mul(f, g, h)(i, j)
    {
      assert Cell(t, p, h, i, j) == Mul(View(s, a, sa), g, h)(i, j);
      forall k | 0 <= k < h ensures View(s, a, sa)(i, k) == f(i, k) {
        assert Cell(s, a, sa, i, k) == f(i, k);
      }
      DotCong(View(s, a, sa), g, i, j, f, g, i, j, h);
    }
  }

  /** The recursive call that checks the right operand. */
  method RecurseChecked(mem: array<int>, o: int, h: nat, hh: int, p: int, src: Source, rows: int, cols: int,
                        ghost end: int, a: int, ghost f: Mat, ghost g: Mat)
    requires Halves(h) && Layout(mem.Length, o, h, hh, p, end)
    requires rows <= h && cols <= h
    requires LeftInside(mem.Length, src, h, a, o + 9 * hh, end) && LeftInside(mem.Length, src, h, a, p, p + hh)
    requires RightApart(mem.Length, src, o, end)
    requires Holds(mem[..], a, src.sa, rows, h, f) && SameOn(Right(mem[..], src), g, h)
    modifies mem
    ensures Frame2(old(mem[..]), mem[..], p, p + hh, o + 9 * hh, end)
    ensures Holds(mem[..], p, h, rows, cols, Mul(f, g, h))
    decreases h, 0, 1
  {
    ghost var s := mem[..];
    SMCheckB(mem, o + 9 * hh, h, src, p, rows, cols, a);
    LeftProduct(s, mem[..], p, h, rows, cols, a, src.sa, f, Right(s, src));
    ProductSame(mem[..], p, h, rows, cols, f, Right(s, src), g);
  }

  /** a_cum times a block of B. */
  method StepLeft(mem: array<int>, k: int, c: Call, src: Source, dx1: nat, dy1: nat, dx2: nat, dy2: nat, minus: bool,
                  ex: nat, ey: nat, ghost s0: seq<int>, ghost ks: set<int>, ghost qs: set<Corner>, ghost end: int,
                  ghost a: int, ghost f: Mat, ghost g: Mat, ghost g': Mat)
    requires 1 <= k <= 7 && k !in ks && Progress(s0, mem[..], ks, qs, c, end, f, g) && Setting(s0, c, end, src, a, f, g)
    requires (dx1 == 0 || dx1 == c.h) && (dy1 == 0 || dy1 == c.h) && (dx2 == 0 || dx2 == c.h)
        && (dy2 == 0 || dy2 == c.h)
    requires (dx1 <= dx2 && dy1 <= dy2) || (minus && dx2 <= dx1 && dy2 <= dy1)
    requires SevenProducts(k, f, g, c.h) == Mul(Comb(minus, Blk(f, dx1, dy1), Blk(f, dx2, dy2)), g', c.h)
    requires SameOn(Blk(g, ex, ey), g', c.h)
    modifies mem
    ensures Progress(s0, mem[..], ks + {k}, qs, c, end, f, g)
    decreases c.h, 1
  {
    ghost var s := mem[..];
    var h, hh, o, rows, cols := c.h, c.hh, c.o, c.W().Rows(k), c.W().Cols(k);
    ghost var fa := Comb(minus, Blk(f, dx1, dy1), Blk(f, dx2, dy2));
    var p := ProductAt(o, hh, k);
    ProductInScratch(o, h, hh, k);
    Intact(s0, s, c, end, src, a, f, g);
    Shrink(|s|, src, c.n, a, o, end, o, o + hh);
    CombineLeft(mem, o, h, src, c.n, dx1, dy1, dx2, dy2, minus, rows, a, s0);
    ghost var s1 := mem[..];
    Intact(s0, s1, c, end, src, a, f, g);
    var sub := src.FromScratch(o, h).MoveB(ex, ey);
    ScratchOperand(|s|, src, sub, o, h, hh, p, end, ex, ey);
    CheckedRight(s0, s1, src, sub, h, ex, ey, g, g');
    RecurseChecked(mem, o, h, hh, p, sub, rows, cols, end, o, fa, g');
    ProgressProduct(s0, s, mem[..], k, ks, qs, c, end, f, g);
  }

  lemma SameTrans(f: Mat, g: Mat, g': Mat, n: int)
    requires SameOn(f, g, n) && SameOn(g, g', n)
    ensures SameOn(f, g', n)
  {
    forall i, j | 0 <= i < n && 0 <= j < n ensures f(i, j) == g'(i, j) {
      assert f(i, j) == g(i, j) && g(i, j) == g'(i, j);
    }
  }

  lemma ScratchOperand(len: int, src: Source, sub: Source, o: int, h: nat, hh: int, p: int, end: int, ex: nat, ey: nat)
    requires Layout(len, o, h, hh, p, end) && sub == src.FromScratch(o, h).MoveB(ex, ey)
    requires h <= src.n && h <= src.m && RightApart(len, src, o, end)
    ensures LeftInside(len, sub, h, o, o + 9 * hh, end) && LeftInside(len, sub, h, o, p, p + hh)
    ensures RightApart(len, sub, o, end)
  {
    DenseExtent(h);
  }

  /** The block of B a checked call is given is the one asked for. */
  lemma CheckedRight(s0: seq<int>, s: seq<int>, src: Source, sub: Source, h: nat, ex: nat, ey: nat, g: Mat, g': Mat)
    requires 0 <= src.B && Kept(s0, s, src.B, src.B + Span(src.m, src.l, src.sb)) && g == Right(s0, src)
    requires sub.B == src.B && sub.sb == src.sb && sub.m == src.m && sub.l == src.l && sub.xb == src.xb + ex
        && sub.yb == src.yb + ey
    requires SameOn(Blk(g, ex, ey), g', h)
    ensures SameOn(Right(s, sub), g', h)
  {
    RightSame(s0, s, src, h, ex, ey);
    SameTrans(RightAt(s, src, src.xb + ex, src.yb + ey), Blk(g, ex, ey), g', h);
  }

  /** A quadrant of the left block, at its own address. */
  lemma LeftQuadrant(s0: seq<int>, s: seq<int>, src: Source, n: int, a: int, h: nat, dx: nat, dy: nat, lo: int, hi: int,
                     x: int)
    requires LeftInside(|s|, src, n, a, lo, hi) && Kept(s0, s, a, a + Extent(n, src.sa))
    requires 0 < h && dx + h <= n && dy + h <= n && x == a + dx * src.sa + dy
    ensures Operand(|s|, x, src.sa, h, lo, hi)
    ensures Holds(s, x, src.sa, h, h, Blk(View(s0, a, src.sa), dx, dy))
  {
    SubExtent(n, src.sa, dx, dy, h);
    var f := View(s0, a, src.sa);
    HoldsKept(s0, s, a, src.sa, n, n, f, a + Extent(n, src.sa));
    BlockHolds(s, a, src.sa, n, f, dx, dy, h);
  }

  /** A quadrant of A times b_cum. */
  method StepRight(mem: array<int>, k: int, c: Call, src: Source, x: int, dx: nat, dy: nat, ex1: nat, ey1: nat,
                   ex2: nat, ey2: nat, ghost s0: seq<int>, ghost ks: set<int>, ghost qs: set<Corner>, ghost end: int,
                   ghost a: int, ghost f: Mat, ghost g: Mat)
    requires 1 <= k <= 7 && k !in ks && Progress(s0, mem[..], ks, qs, c, end, f, g) && Setting(s0, c, end, src, a, f, g)
    requires (dx == 0 || dx == c.h) && (dy == 0 || dy == c.h) && x == a + dx * src.sa + dy && 0 < c.h
    requires (ex1 <= ex2 && ey1 <= ey2) || (ex2 <= ex1 && ey2 <= ey1)
    requires SevenProducts(k, f, g, c.h) == Mul(Blk(f, dx, dy), Comb(true, Blk(g, ex1, ey1), Blk(g, ex2, ey2)), c.h)
    modifies mem
    ensures Progress(s0, mem[..], ks + {k}, qs, c, end, f, g)
  {
    ghost var s := mem[..];
    var h, hh, o, rows, cols := c.h, c.hh, c.o, c.W().Rows(k), c.W().Cols(k);
    ghost var fa, gb := Blk(f, dx, dy), Comb(true, Blk(g, ex1, ey1), Blk(g, ex2, ey2));
    ProductInScratch(o, h, hh, k);
    Intact(s0, s, c, end, src, a, f, g);
    Shrink(|s|, src, c.n, a, o, end, o + hh, o + hh + hh);
    CombineRight(mem, o + hh, h, src, ex1, ey1, ex2, ey2, true, cols, s0);
    Intact(s0, mem[..], c, end, src, a, f, g);
    LeftQuadrant(s0, mem[..], src, c.n, a, h, dx, dy, o, end, x);
    Strassen.Recurse(mem, o, h, hh, ProductAt(o, hh, k), x, src.sa, o + hh, h, rows, cols, end, fa, gb);
    ProgressProduct(s0, s, mem[..], k, ks, qs, c, end, f, g);
  }

  /** A quadrant of A times the negated upper left quadrant of B. */
  method StepNegate(mem: array<int>, k: int, c: Call, src: Source, x: int, dx: nat, dy: nat,
                    ghost s0: seq<int>, ghost ks: set<int>, ghost qs: set<Corner>, ghost end: int, ghost a: int,
                    ghost f: Mat, ghost g: Mat, ghost g': Mat)
    requires 1 <= k <= 7 && k !in ks && Progress(s0, mem[..], ks, qs, c, end, f, g) && Setting(s0, c, end, src, a, f, g)
    requires (dx == 0 || dx == c.h) && (dy == 0 || dy == c.h) && x == a + dx * src.sa + dy && 0 < c.h
    requires SevenProducts(k, f, g, c.h) == Mul(Blk(f, dx, dy), g', c.h)
    requires SameOn(Sub(ZERO, Blk(g, 0, 0)), g', c.h)
    modifies mem
    ensures Progress(s0, mem[..], ks + {k}, qs, c, end, f, g)
  {
    ghost var s := mem[..];
    var h, hh, o, rows, cols := c.h, c.hh, c.o, c.W().Rows(k), c.W().Cols(k);
    ProductInScratch(o, h, hh, k);
    Intact(s0, s, c, end, src, a, f, g);
    Shrink(|s|, src, c.n, a, o, end, o + hh, o + hh + hh);
    RightReadable(|s|, src, src.xb, src.yb, h, o + hh, o + hh + hh);
    SMNegate(mem, h, src.m, src.l, src.B, src.xb, src.yb, src.sb, o + hh, h, cols);
    NegatedSame(s0, s, mem[..], src, o + hh, h, cols, g, g');
    Intact(s0, mem[..], c, end, src, a, f, g);
    LeftQuadrant(s0, mem[..], src, c.n, a, h, dx, dy, o, end, x);
    Strassen.Recurse(mem, o, h, hh, ProductAt(o, hh, k), x, src.sa, o + hh, h, rows, cols, end, Blk(f, dx, dy), g');
    ProgressProduct(s0, s, mem[..], k, ks, qs, c, end, f, g);
  }

  lemma NegatedSame(s0: seq<int>, s: seq<int>, t: seq<int>, src: Source, p: int, h: nat, cols: int, g: Mat, g': Mat)
    requires 0 <= src.B && Kept(s0, s, src.B, src.B + Span(src.m, src.l, src.sb)) && g == Right(s0, src) && cols <= h
    requires Holds(t, p, h, h, cols, Sub(ZERO, Right(s, src))) && SameOn(Sub(ZERO, Blk(g, 0, 0)), g', h)
    ensures Holds(t, p, h, h, cols, g')
  {
    RightSame(s0, s, src, h, 0, 0);
    forall i, j | 0 <= i < h && 0 <= j < cols ensures Cell(t, p, h, i, j) == g'(i, j) {
      assert Cell(t, p, h, i, j) == Sub(ZERO, Right(s, src))(i, j);
      assert RightAt(s, src, src.xb + 0, src.yb + 0)(i, j) == Blk(g, 0, 0)(i, j);
      assert Sub(ZERO, Blk(g, 0, 0))(i, j) == g'(i, j);
    }
  }

  /** The upper left quadrant of A times a block of B, both read in place. */
  method StepBlock(mem: array<int>, k: int, c: Call, src: Source, a: int, ex: nat, ey: nat,
                   ghost s0: seq<int>, ghost ks: set<int>, ghost qs: set<Corner>, ghost end: int,
                   ghost f: Mat, ghost g: Mat, ghost g': Mat)
    requires 1 <= k <= 7 && k !in ks && Progress(s0, mem[..], ks, qs, c, end, f, g) && Setting(s0, c, end, src, a, f, g)
    requires SevenProducts(k, f, g, c.h) == Mul(Blk(f, 0, 0), g', c.h) && 0 < c.h
    requires SameOn(Blk(g, ex, ey), g', c.h)
    modifies mem
    ensures Progress(s0, mem[..], ks + {k}, qs, c, end, f, g)
    decreases c.h, 1
  {
    ghost var s := mem[..];
    var h, hh, o, rows, cols := c.h, c.hh, c.o, c.W().Rows(k), c.W().Cols(k);
    var p := ProductAt(o, hh, k);
    ProductInScratch(o, h, hh, k);
    Intact(s0, s, c, end, src, a, f, g);
    LeftQuadrant(s0, s, src, c.n, a, h, 0, 0, o, end, a);
    var sub := src.MoveB(ex, ey);
    CheckedRight(s0, s, src, sub, h, ex, ey, g, g');
    HoldsFewer(s, a, src.sa, h, rows, Blk(f, 0, 0));
    RecurseChecked(mem, o, h, hh, p, sub, rows, cols, end, a, Blk(f, 0, 0), g');
    ProgressProduct(s0, s, mem[..], k, ks, qs, c, end, f, g);
  }

  lemma HoldsFewer(s: seq<int>, base: int, stride: int, h: int, rows: int, f: Mat)
    requires Holds(s, base, stride, h, h, f) && rows <= h
    ensures Holds(s, base, stride, rows, h, f)
  {
  }

  // ----- quadrants of B outside the matrix -----

  /** Quadrants of the right operand beyond the last row or the last column vanish. */
  lemma OutsideVanishes(s0: seq<int>, src: Source, h: nat, dx: nat, dy: nat)
    requires src.xb + dx >= src.m || src.yb + dy >= src.l
    ensures SameOn(ZERO, Blk(Right(s0, src), dx, dy), h)
  {
  }

  lemma AddZero(f: Mat, z: Mat, h: nat)
    requires SameOn(ZERO, z, h)
    ensures SameOn(f, Comb(false, f, z), h) && SameOn(f, Comb(true, f, z), h)
        && SameOn(Sub(ZERO, f), Comb(true, z, f), h)
  {
    forall i, j | 0 <= i < h && 0 <= j < h
      ensures f(i, j) == Comb(false, f, z)(i, j) && f(i, j) == Comb(true, f, z)(i, j)
          && Sub(ZERO, f)(i, j) == Comb(true, z, f)(i, j)
    {
      assert ZERO(i, j) == z(i, j);
    }
  }

  lemma ProductVanishes(f: Mat, g: Mat, h: nat)
    requires SameOn(ZERO, g, h)
    ensures forall i, j :: 0 <= i < h && 0 <= j < h ==> Mul(f, g, h)(i, j) == 0
  {
    forall i, j | 0 <= i < h && 0 <= j < h
      ensures Mul(f, g, h)(i, j) == 0
    {
      forall k | 0 <= k < h ensures g(k, j) == 0 {
        assert ZERO(k, j) == g(k, j);
      }
      DotZeroRight(f, g, i, j, h);
    }
  }

  lemma CombVanishes(minus: bool, f: Mat, g: Mat, h: nat)
    requires SameOn(ZERO, f, h) && SameOn(ZERO, g, h)
    ensures SameOn(ZERO, Comb(minus, f, g), h)
  {
    forall i, j | 0 <= i < h && 0 <= j < h ensures ZERO(i, j) == Comb(minus, f, g)(i, j) {
      assert ZERO(i, j) == f(i, j) && ZERO(i, j) == g(i, j);
    }
  }

  /** The products that vanish: p3, p5 and p7 as the quadrants of B are missing. */
  function Vanishing(bx2Out: bool, by2Out: bool): (r: set<int>) {
    (if by2Out then {3} else {}) + (if bx2Out || by2Out then {5} else {}) + (if bx2Out then {7} else {})
  }

  lemma VanishingZero(s0: seq<int>, src: Source, h: nat, bx2Out: bool, by2Out: bool, f: Mat, g: Mat)
    requires g == Right(s0, src) && bx2Out == (src.xb + h >= src.m) && by2Out == (src.yb + h >= src.l)
    ensures Zeros(Vanishing(bx2Out, by2Out), h, f, g)
  {
    if by2Out {
      OutsideVanishes(s0, src, h, 0, h);
      OutsideVanishes(s0, src, h, h, h);
      CombVanishes(true, Blk(g, 0, h), Blk(g, h, h), h);
      ProductVanishes(Blk(f, 0, 0), Comb(true, Blk(g, 0, h), Blk(g, h, h)), h);
    }
    if bx2Out || by2Out {
      OutsideVanishes(s0, src, h, h, h);
      ProductVanishes(Comb(false, Blk(f, 0, 0), Blk(f, 0, h)), Blk(g, h, h), h);
    }
    if bx2Out {
      OutsideVanishes(s0, src, h, h, 0);
      OutsideVanishes(s0, src, h, h, h);
      CombVanishes(false, Blk(g, h, 0), Blk(g, h, h), h);
      ProductVanishes(Comb(true, Blk(f, 0, h), Blk(f, h, h)), Comb(false, Blk(g, h, 0), Blk(g, h, h)), h);
    }
  }

  // ----- the recursive multiplication -----

  /** The numbers of the products computed first. */
  function FirstNumbers(c: Call): (r: set<int>) {
    {1, 4} + (if c.h < c.cxLim then {2} else {}) + (if c.h < c.cxLim && c.h < c.cyLim then {6} else {})
  }

  method Product1(mem: array<int>, c: Call, src: Source, bx2Out: bool, by2Out: bool,
                  ghost s0: seq<int>, ghost end: int, ghost a: int, ghost f: Mat, ghost g: Mat)
    requires Progress(s0, mem[..], {}, {}, c, end, f, g) && Setting(s0, c, end, src, a, f, g)
    requires bx2Out == (src.xb + c.h >= src.m) && by2Out == (src.yb + c.h >= src.l)
    modifies mem
    ensures Progress(s0, mem[..], {} + {1}, {}, c, end, f, g)
    decreases c.h, 2
  {
    var h := c.h;
    if bx2Out || by2Out {
      OutsideVanishes(s0, src, h, h, h);
      AddZero(Blk(g, 0, 0), Blk(g, h, h), h);
      StepLeft(mem, 1, c, src, 0, 0, h, h, false, 0, 0, s0, {}, {}, end, a, f, g,
               Comb(false, Blk(g, 0, 0), Blk(g, h, h)));
    } else {
      StepBoth(mem, 1, c, src, 0, 0, h, h, false, 0, 0, h, h, false, s0, {}, {}, end, a, f, g);
    }
  }

  method Product4(mem: array<int>, c: Call, src: Source, bx2Out: bool, ghost s0: seq<int>, ghost ks: set<int>,
                  ghost end: int, ghost a: int, ghost f: Mat, ghost g: Mat, a22: int)
    requires Progress(s0, mem[..], ks, {}, c, end, f, g) && Setting(s0, c, end, src, a, f, g) && 4 !in ks
    requires bx2Out == (src.xb + c.h >= src.m) && a22 == a + c.h * src.sa + c.h && 0 < c.h
    modifies mem
    ensures Progress(s0, mem[..], ks + {4}, {}, c, end, f, g)
  {
    var h := c.h;
    if bx2Out {
      OutsideVanishes(s0, src, h, h, 0);
      AddZero(Blk(g, 0, 0), Blk(g, h, 0), h);
      StepNegate(mem, 4, c, src, a22, h, h, s0, ks, {}, end, a, f, g, Comb(true, Blk(g, h, 0), Blk(g, 0, 0)));
    } else {
      StepRight(mem, 4, c, src, a22, h, h, h, 0, 0, 0, s0, ks, {}, end, a, f, g);
    }
  }

  method Product6(mem: array<int>, c: Call, src: Source, by2Out: bool,
                  ghost s0: seq<int>, ghost ks: set<int>, ghost end: int, ghost a: int, ghost f: Mat, ghost g: Mat)
    requires Progress(s0, mem[..], ks, {}, c, end, f, g) && Setting(s0, c, end, src, a, f, g) && 6 !in ks
    requires by2Out == (src.yb + c.h >= src.l)
    modifies mem
    ensures Progress(s0, mem[..], ks + {6}, {}, c, end, f, g)
    decreases c.h, 2
  {
    var h := c.h;
    if by2Out {
      OutsideVanishes(s0, src, h, 0, h);
      AddZero(Blk(g, 0, 0), Blk(g, 0, h), h);
      StepLeft(mem, 6, c, src, h, 0, 0, 0, true, 0, 0, s0, ks, {}, end, a, f, g,
               Comb(false, Blk(g, 0, 0), Blk(g, 0, h)));
    } else {
      StepBoth(mem, 6, c, src, h, 0, 0, 0, true, 0, 0, 0, h, false, s0, ks, {}, end, a, f, g);
    }
  }

  method Product3(mem: array<int>, c: Call, src: Source, bx2Out: bool, ghost s0: seq<int>, ghost ks: set<int>,
                  ghost end: int, ghost a: int, ghost f: Mat, ghost g: Mat, a11: int)
    requires Progress(s0, mem[..], ks, {}, c, end, f, g) && Setting(s0, c, end, src, a, f, g) && 3 !in ks
    requires bx2Out == (src.xb + c.h >= src.m) && a11 == a && 0 < c.h
    modifies mem
    ensures Progress(s0, mem[..], ks + {3}, {}, c, end, f, g)
    decreases c.h, 2
  {
    var h := c.h;
    if bx2Out {
      OutsideVanishes(s0, src, h, h, h);
      AddZero(Blk(g, 0, h), Blk(g, h, h), h);
      StepBlock(mem, 3, c, src, a11, 0, h, s0, ks, {}, end, f, g, Comb(true, Blk(g, 0, h), Blk(g, h, h)));
    } else {
      StepRight(mem, 3, c, src, a11, 0, 0, 0, h, h, h, s0, ks, {}, end, a, f, g);
    }
  }

  method Product7(mem: array<int>, c: Call, src: Source, by2Out: bool,
                  ghost s0: seq<int>, ghost ks: set<int>, ghost end: int, ghost a: int, ghost f: Mat, ghost g: Mat)
    requires Progress(s0, mem[..], ks, {}, c, end, f, g) && Setting(s0, c, end, src, a, f, g) && 7 !in ks
    requires by2Out == (src.yb + c.h >= src.l)
    modifies mem
    ensures Progress(s0, mem[..], ks + {7}, {}, c, end, f, g)
    decreases c.h, 2
  {
    var h := c.h;
    if by2Out {
      OutsideVanishes(s0, src, h, h, h);
      AddZero(Blk(g, h, 0), Blk(g, h, h), h);
      StepLeft(mem, 7, c, src, 0, h, h, h, true, h, 0, s0, ks, {}, end, a, f, g,
               Comb(false, Blk(g, h, 0), Blk(g, h, h)));
    } else {
      StepBoth(mem, 7, c, src, 0, h, h, h, true, h, 0, h, h, false, s0, ks, {}, end, a, f, g);
    }
  }

  /** Products that read one quadrant of B as it is. */
  method PlainProduct(mem: array<int>, k: int, c: Call, src: Source,
                      ghost s0: seq<int>, ghost ks: set<int>, ghost end: int, ghost a: int, ghost f: Mat, ghost g: Mat)
    requires (k == 2 || k == 5) && Progress(s0, mem[..], ks, {}, c, end, f, g) && Setting(s0, c, end, src, a, f, g)
        && k !in ks
    modifies mem
    ensures Progress(s0, mem[..], ks + {k}, {}, c, end, f, g)
    decreases c.h, 2
  {
    var h := c.h;
    if k == 2 {
      StepLeft(mem, 2, c, src, h, 0, h, h, false, 0, 0, s0, ks, {}, end, a, f, g, Blk(g, 0, 0));
    } else {
      StepLeft(mem, 5, c, src, 0, 0, 0, h, false, h, h, s0, ks, {}, end, a, f, g, Blk(g, h, h));
    }
  }

  /** Products 1, 2, 4 and 6, as far as the window needs them. */
  method FirstProducts(mem: array<int>, c: Call, src: Source, bx2Out: bool, by2Out: bool, a22: int,
                       ghost s0: seq<int>, ghost end: int, ghost a: int, ghost f: Mat, ghost g: Mat)
    requires Progress(s0, mem[..], {}, {}, c, end, f, g) && Setting(s0, c, end, src, a, f, g) && 0 < c.h
    requires bx2Out == (src.xb + c.h >= src.m) && by2Out == (src.yb + c.h >= src.l) && a22 == a + c.h * src.sa + c.h
    modifies mem
    ensures Progress(s0, mem[..], FirstNumbers(c), {}, c, end, f, g)
    decreases c.h, 3
  {
    Product1(mem, c, src, bx2Out, by2Out, s0, end, a, f, g);
    ghost var ks := {} + {1};
    if c.cxLim > c.h {
      PlainProduct(mem, 2, c, src, s0, ks, end, a, f, g);
      ks := ks + {2};
    }
    Product4(mem, c, src, bx2Out, s0, ks, end, a, f, g, a22);
    ks := ks + {4};
    if c.cxLim > c.h && c.cyLim > c.h {
      Product6(mem, c, src, by2Out, s0, ks, end, a, f, g);
      ks := ks + {6};
    }
    assert ks == FirstNumbers(c);
  }

  /** What the quadrants the window reaches are made of is there, or vanishes. */
  lemma AllSupplied(c: Call, ks: set<int>, zs: set<int>)
    requires FirstNumbers(c) <= ks && {3, 5, 7} <= ks + zs && zs <= {3, 5, 7} && c.cxLim <= 2 * c.h
        && c.cyLim <= 2 * c.h
    ensures Supplied(Q11, c.W(), ks, zs)
    ensures c.h < c.cyLim ==> Supplied(Q12, c.W(), ks, zs)
    ensures c.h < c.cxLim ==> Supplied(Q21, c.W(), ks, zs)
    ensures c.h < c.cxLim && c.h < c.cyLim ==> Supplied(Q22, c.W(), ks, zs)
  {
  }

  /** Assembles every quadrant the window reaches, without the products that vanish. */
  method Quadrants(mem: array<int>, zs: set<int>, c: Call, ghost s0: seq<int>, ghost ks: set<int>, ghost end: int,
                   ghost f: Mat, ghost g: Mat)
    requires Progress(s0, mem[..], ks, {}, c, end, f, g) && Zeros(zs, c.h, f, g)
    requires FirstNumbers(c) <= ks && {3, 5, 7} <= ks + zs && zs <= {3, 5, 7}
    modifies mem
    ensures Touched(s0, mem[..], c.o, end, c.C, c.n, c.cxLim, c.cyLim)
    ensures Holds(mem[..], c.C, c.n, c.cxLim, c.cyLim, Mul(f, g, c.n))
  {
    ghost var qs := {};
    AllSupplied(c, ks, zs);
    DoQuadrant(mem, Q11, zs, c, s0, ks, qs, end, f, g);
    qs := qs + {Q11};
    if c.h < c.cyLim {
      DoQuadrant(mem, Q12, zs, c, s0, ks, qs, end, f, g);
      qs := qs + {Q12};
    }
    if c.h < c.cxLim {
      DoQuadrant(mem, Q21, zs, c, s0, ks, qs, end, f, g);
      qs := qs + {Q21};
    }
    if c.h < c.cxLim && c.h < c.cyLim {
      DoQuadrant(mem, Q22, zs, c, s0, ks, qs, end, f, g);
      qs := qs + {Q22};
    }
    Finished(mem[..], qs, c, f, g);
  }

  /** The divided call: which products are computed depends on which quadrants of B are outside. */
  method DivideChecked(mem: array<int>, c: Call, src: Source, a: int, ghost end: int, ghost f: Mat, ghost g: Mat)
    requires Progress(mem[..], mem[..], {}, {}, c, end, f, g) && Setting(mem[..], c, end, src, a, f, g) && 0 < c.h
    modifies mem
    ensures Touched(old(mem[..]), mem[..], c.o, end, c.C, c.n, c.cxLim, c.cyLim)
    ensures Holds(mem[..], c.C, c.n, c.cxLim, c.cyLim, Mul(f, g, c.n))
    decreases c.h, 5
  {
    ghost var s0 := mem[..];
    var bx2Out := src.xb + c.h >= src.m;
    var by2Out := src.yb + c.h >= src.l;
    VanishingZero(s0, src, c.h, bx2Out, by2Out, f, g);
    FirstProducts(mem, c, src, bx2Out, by2Out, a + c.h * src.sa + c.h, s0, end, a, f, g);
    ghost var ks := FirstNumbers(c);
    if bx2Out && by2Out {
      Quadrants(mem, {3, 5, 7}, c, s0, ks, end, f, g);
      return;
    }
    if !by2Out {
      Product3(mem, c, src, bx2Out, s0, ks, end, a, f, g, a);
      ks := ks + {3};
    }
    if bx2Out {
      Quadrants(mem, {5, 7}, c, s0, ks, end, f, g);
      return;
    }
    Product7(mem, c, src, by2Out, s0, ks, end, a, f, g);
    ks := ks + {7};
    if by2Out {
      Quadrants(mem, {3, 5}, c, s0, ks, end, f, g);
      return;
    }
    PlainProduct(mem, 5, c, src, s0, ks, end, a, f, g);
    ks := ks + {5};
    if c.cxLim >= c.n && c.cyLim >= c.n {
      assert ks == {1, 2, 3, 4, 5, 6, 7};
      AssembleFull(mem, c, s0, ks, end, f, g);
    } else {
      Quadrants(mem, {}, c, s0, ks, end, f, g);
    }
  }

  // ----- the calls that are not divided -----

  /** The block is outside B: the window is zero. */
  method ZeroWindow(mem: array<int>, mSz: nat, src: Source, C: int, cxLim: int, cyLim: int, ghost a: int)
    requires 0 < cxLim <= mSz && 0 < cyLim <= mSz && 0 <= C && C + mSz * mSz <= mem.Length
    requires src.xb >= src.m || src.yb >= src.l
    modifies mem
    ensures OnlyRect(old(mem[..]), mem[..], C, mSz, mSz, 0, cxLim, 0, cyLim)
    ensures Holds(mem[..], C, mSz, cxLim, cyLim, Mul(View(old(mem[..]), a, src.sa), Right(old(mem[..]), src), mSz))
  {
    ghost var f, g := View(mem[..], a, src.sa), Right(mem[..], src);
    OutsideVanishes(mem[..], src, mSz, 0, 0);
    assert SameOn(ZERO, g, mSz) by {
      forall i, j | 0 <= i < mSz && 0 <= j < mSz ensures ZERO(i, j) == g(i, j) {
        assert ZERO(i, j) == Blk(g, 0, 0)(i, j);
      }
    }
    ProductVanishes(f, g, mSz);
    var _ := ZeroRows(mem, C, mSz, 0, cxLim, cyLim, Mul(f, g, mSz));
  }

  /** The block is inside B: nothing needs checking. */
  method Inside(mem: array<int>, buf: int, mSz: nat, src: Source, C: int, cxLim: int, cyLim: int, a: int)
    requires Halves(mSz) && 0 < cxLim <= mSz && 0 < cyLim <= mSz
    requires 0 <= buf && buf + Need(mSz) <= mem.Length && 0 <= C && C + mSz * mSz <= mem.Length
    requires Disjoint(C, C + mSz * mSz, buf, buf + Need(mSz))
    requires LeftInside(mem.Length, src, mSz, a, buf, buf + Need(mSz))
        && LeftInside(mem.Length, src, mSz, a, C, C + mSz * mSz)
    requires RightApart(mem.Length, src, buf, buf + Need(mSz)) && RightApart(mem.Length, src, C, C + mSz * mSz)
    requires src.xb + mSz <= src.m && src.yb + mSz <= src.l
    modifies mem
    ensures Touched(old(mem[..]), mem[..], buf, buf + Need(mSz), C, mSz, cxLim, cyLim)
    ensures Holds(mem[..], C, mSz, cxLim, cyLim, Mul(View(old(mem[..]), a, src.sa), Right(old(mem[..]), src), mSz))
  {
    ghost var s := mem[..];
    var b := src.B + src.xb * src.sb + src.yb;
    RightInside(s, src, mSz, b);
    Strassen.ExtentNonneg(mSz, src.sa);
    Strassen.SMNoCheckAB(mem, buf, mSz, a, src.sa, b, src.sb, C, cxLim, cyLim);
    ProductSame(mem[..], C, mSz, cxLim, cyLim, View(s, a, src.sa), View(s, b, src.sb), Right(s, src));
  }

  lemma RightInside(s: seq<int>, src: Source, n: nat, b: int)
    requires src.xb + n <= src.m && src.yb + n <= src.l && b == src.B + src.xb * src.sb + src.yb && 0 < n
    ensures SameOn(View(s, b, src.sb), Right(s, src), n)
    ensures src.B <= b && 0 <= Extent(n, src.sb) && b + Extent(n, src.sb) <= src.B + Span(src.m, src.l, src.sb)
  {
    forall i, j | 0 <= i < n && 0 <= j < n
      ensures View(s, b, src.sb)(i, j) == Right(s, src)(i, j)
    {
      LeftEntry(src.xb, src.yb, src.sb, src.B, b, i, j);
    }
    Strassen.ExtentNonneg(n, src.sb);
    MulMono(0, src.xb, src.sb);
    assert src.xb * src.sb + (n - 1) * src.sb == (src.xb + n - 1) * src.sb;
    MulMono(src.xb + n - 1, src.m - 1, src.sb);
  }

  /** Small blocks: the naive kernel checks both operands. */
  method LeafWindow(mem: array<int>, mSz: nat, src: Source, C: int, cxLim: int, cyLim: int, ghost a: int)
    requires 0 < cxLim <= mSz && 0 < cyLim <= mSz && 0 <= C && C + mSz * mSz <= mem.Length
    requires LeftInside(mem.Length, src, mSz, a, C, C + mSz * mSz) && RightApart(mem.Length, src, C, C + mSz * mSz)
    modifies mem
    ensures OnlyRect(old(mem[..]), mem[..], C, mSz, mSz, 0, cxLim, 0, cyLim)
    ensures Holds(mem[..], C, mSz, cxLim, cyLim, Mul(View(old(mem[..]), a, src.sa), Right(old(mem[..]), src), mSz))
  {
    ghost var s := mem[..];
    LeftReadable(|s|, src, mSz, a, mSz, 0, 0, C, C + mSz * mSz);
    RightReadable(|s|, src, src.xb, src.yb, mSz, C, C + mSz * mSz);
    SMM(mem, mSz, src.l, src.m, src.n, src.A, src.xa, src.ya, src.sa, src.B, src.xb, src.yb, src.sb, C, cxLim, cyLim);
    LeafSame(s, mem[..], src, mSz, a, C, cxLim, cyLim);
  }

  lemma LeafSame(s: seq<int>, t: seq<int>, src: Source, n: nat, a: int, C: int, rows: int, cols: int)
    requires src.xa + n <= src.n && src.ya + n <= src.m && a == src.A + src.xa * src.sa + src.ya && 0 <= a && rows <= n
        && cols <= n
    requires Holds(t, C, n, rows, cols, Mul(LeftAt(s, src, src.xa, src.ya), Right(s, src), n))
    ensures Holds(t, C, n, rows, cols, Mul(View(s, a, src.sa), Right(s, src), n))
  {
    LeftSame(s, s, src, n, a, n, 0, 0);
    var f, f', g := LeftAt(s, src, src.xa, src.ya), View(s, a, src.sa), Right(s, src);
    forall i, j | 0 <= i < rows && 0 <= j < cols
      ensures Cell(t, C, n, i, j) == Mul(f', g, n)(i, j)
    {
      assert Cell(t, C, n, i, j) == Mul(f, g, n)(i, j);
      forall k | 0 <= k < n ensures f(i, k) == f'(i, k) {
        assert LeftAt(s, src, src.xa + 0, src.ya + 0)(i, k) == Blk(f', 0, 0)(i, k);
      }
      DotCong(f, g, i, j, f', g, i, j, n);
    }
  }

  method SMCheckB(mem: array<int>, buf: int, mSz: nat, src: Source, C: int, cxLim: int, cyLim: int, a: int)
    requires Halves(mSz) && (0 < cxLim && 0 < cyLim ==> cxLim <= mSz && cyLim <= mSz)
    requires 0 <= buf && buf + Need(mSz) <= mem.Length && 0 <= C && C + mSz * mSz <= mem.Length
    requires Disjoint(C, C + mSz * mSz, buf, buf + Need(mSz))
    requires LeftInside(mem.Length, src, mSz, a, buf, buf + Need(mSz))
        && LeftInside(mem.Length, src, mSz, a, C, C + mSz * mSz)
    requires RightApart(mem.Length, src, buf, buf + Need(mSz)) && RightApart(mem.Length, src, C, C + mSz * mSz)
    modifies mem
    ensures Touched(old(mem[..]), mem[..], buf, buf + Need(mSz), C, mSz, cxLim, cyLim)
    ensures 0 < cxLim && 0 < cyLim ==>
              Holds(mem[..], C, mSz, cxLim, cyLim, Mul(View(old(mem[..]), a, src.sa), Right(old(mem[..]), src), mSz))
    decreases mSz, 0, 0
  {
    if cxLim <= 0 || cyLim <= 0 {
      return;
    }
    if src.xb >= src.m || src.yb >= src.l {
      ZeroWindow(mem, mSz, src, C, cxLim, cyLim, a);
    } else if src.xb + mSz <= src.m && src.yb + mSz <= src.l {
      Inside(mem, buf, mSz, src, C, cxLim, cyLim, a);
    } else if mSz <= RESOLVE_SIZE {
      LeafWindow(mem, mSz, src, C, cxLim, cyLim, a);
    } else {
      var n_2 := mSz / 2;
      var c := Call(buf, n_2, n_2 * n_2, C, mSz, cxLim, cyLim);
      ghost var end := buf + Need(mSz);
      DivideChecked(mem, c, src, a, end, View(mem[..], a, src.sa), Right(mem[..], src));
    }
  }
}
