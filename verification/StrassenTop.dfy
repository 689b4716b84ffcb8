/** The top of the multiplication: seven independent jobs, each with its own
scratch buffer, and the assembly of the result. */
module StrassenTop {
  import opened Matrices
  import opened FlatMemory
  import opened Loops
  import opened Kernels
  import opened Assembly
  import opened Division
  import opened StrassenChecked
  import Strassen

  /** A job changes its scratch buffer (five h by h blocks) and its product. */
  ghost predicate JobFrame(s: seq<int>, t: seq<int>, sub: int, hh: int, p: int) {
    Frame2(s, t, sub, sub + 5 * hh, p, p + hh)
  }

  /** The buffers of a job: its scratch, and the seven products from o + 2 * hh on,
      apart from each other and from the operands. */
  ghost predicate JobPlace(len: int, src: Source, n: int, a: int, o: int, hh: int, sub: int) {
    && 0 <= sub && sub + 5 * hh <= len && 0 <= o + 2 * hh && o + 9 * hh <= len && 0 <= hh
    && Disjoint(sub, sub + 5 * hh, o + 2 * hh, o + 9 * hh)
    && LeftInside(len, src, n, a, sub, sub + 5 * hh) && LeftInside(len, src, n, a, o + 2 * hh, o + 9 * hh)
    && RightApart(len, src, sub, sub + 5 * hh) && RightApart(len, src, o + 2 * hh, o + 9 * hh)
  }

  /** The recursion's scratch fits in front of a_cum. */
  lemma ScratchFits(h: nat, hh: int)
    requires Halves(h) && hh == h * h
    ensures Need(h) <= 3 * hh
  {
    NeedExact(h);
    MulMono(0, Leaf(h), Leaf(h));
  }

  ghost predicate Unchanged(s0: seq<int>, s: seq<int>, src: Source, n: int, a: int) {
    Kept(s0, s, a, a + Extent(n, src.sa)) && Kept(s0, s, src.B, src.B + Span(src.m, src.l, src.sb))
  }

  lemma StillUnchanged(s0: seq<int>, s: seq<int>, t: seq<int>, src: Source, n: int, a: int, lo: int, hi: int)
    requires Unchanged(s0, s, src, n, a) && Frame(s, t, lo, hi)
    requires LeftInside(|s|, src, n, a, lo, hi) && RightApart(|s|, src, lo, hi)
    ensures Unchanged(s0, t, src, n, a)
  {
  }

  /** The recursive multiplication of a job: scratch at sub, two dense or embedded operands. */
  method JobMultiply(mem: array<int>, sub: int, h: nat, hh: int, p: int, a: int, sa: int, b: int, sb: int, rows: int,
                     cols: int, ghost f: Mat, ghost g: Mat)
    requires Halves(h) && hh == h * h && rows <= h && cols <= h && 0 <= sa && 0 <= sb
    requires Separate(mem.Length, sub, sub + 3 * hh, p, p + hh, a, a + Extent(h, sa), b, b + Extent(h, sb))
    requires Holds(mem[..], a, sa, rows, h, f) && Holds(mem[..], b, sb, h, cols, g)
    modifies mem
    ensures Frame2(old(mem[..]), mem[..], sub, sub + 3 * hh, p, p + hh)
    ensures Holds(mem[..], p, h, rows, cols, Mul(f, g, h))
  {
    ghost var s := mem[..];
    ScratchFits(h, hh);
    Strassen.SMNoCheckAB(mem, sub, h, a, sa, b, sb, p, rows, cols);
    WindowProduct(s, mem[..], p, h, rows, cols, a, sa, b, sb, f, g);
  }

  /** The multiplication that checks A, for the blocks it is given here: they lie
      inside A or entirely outside. */
  method SMCheckA(mem: array<int>, buf: int, mSz: nat, m: nat, n: nat, xa: nat, ya: nat, a: int, sa: int, b: int,
                  sb: int, C: int, cxLim: int, cyLim: int)
    requires 0 <= sa && 0 <= sb && Halves(mSz) && (0 < cxLim && 0 < cyLim ==> cxLim <= mSz && cyLim <= mSz)
    requires xa >= n || ya >= m || (xa + mSz <= n && ya + mSz <= m)
    requires 0 <= C && C + mSz * mSz <= mem.Length
    requires xa < n && ya < m ==>
               Separate(mem.Length, buf, buf + Need(mSz), C, C + mSz * mSz, a, a + Extent(mSz, sa), b,
                        b + Extent(mSz, sb))
    modifies mem
    ensures xa < n && ya < m ==> Touched(old(mem[..]), mem[..], buf, buf + Need(mSz), C, mSz, cxLim, cyLim)
    ensures xa < n && ya < m ==>
              Holds(mem[..], C, mSz, Min(mSz, cxLim), Min(mSz, cyLim),
                    Mul(View(old(mem[..]), a, sa), View(old(mem[..]), b, sb), mSz))
    ensures !(xa < n && ya < m) ==> OnlyRect(old(mem[..]), mem[..], C, mSz, mSz, 0, cxLim, 0, cyLim)
    ensures !(xa < n && ya < m) && 0 < cxLim && 0 < cyLim ==> Holds(mem[..], C, mSz, cxLim, cyLim, ZERO)
  {
    if cxLim <= 0 || cyLim <= 0 {
      return;
    }
    if xa >= n || ya >= m {
      var _ := ZeroRows(mem, C, mSz, 0, cxLim, cyLim, ZERO);
      return;
    }
    Strassen.SMNoCheckAB(mem, buf, mSz, a, sa, b, sb, C, cxLim, cyLim);
  }

  // ----- the seven jobs -----

  /** Both operands are prepared: products 1, 6 and 7. */
  method JobBoth(mem: array<int>, k: int, h: nat, hh: int, src: Source, n: nat, a: int, o: int, sub: int, dx1: nat,
                 dy1: nat, dx2: nat, dy2: nat, minusA: bool, ex1: nat, ey1: nat, ex2: nat, ey2: nat, minusB: bool,
                 rows: int, cols: int, ghost s0: seq<int>, ghost f: Mat, ghost g: Mat)
    requires 1 <= k <= 7 && Halves(h) && 0 < h && hh == h * h && n == 2 * h && rows <= h && cols <= h
    requires JobPlace(mem.Length, src, n, a, o, hh, sub) && Unchanged(s0, mem[..], src, n, a)
    requires f == View(s0, a, src.sa) && g == Right(s0, src)
    requires (dx1 == 0 || dx1 == h) && (dy1 == 0 || dy1 == h) && (dx2 == 0 || dx2 == h) && (dy2 == 0 || dy2 == h)
    requires (dx1 <= dx2 && dy1 <= dy2) || (minusA && dx2 <= dx1 && dy2 <= dy1)
    requires (ex1 <= ex2 && ey1 <= ey2) || (minusB && ex2 <= ex1 && ey2 <= ey1)
    requires SevenProducts(k, f, g, h)
        == Mul(Comb(minusA, Blk(f, dx1, dy1), Blk(f, dx2, dy2)), Comb(minusB, Blk(g, ex1, ey1), Blk(g, ex2, ey2)), h)
    modifies mem
    ensures JobFrame(old(mem[..]), mem[..], sub, hh, ProductAt(o, hh, k))
    ensures Have(mem[..], o, h, hh, k, rows, cols, f, g)
  {
    ghost var s := mem[..];
    var aCum, bCum, p := sub + 3 * hh, sub + 4 * hh, ProductAt(o, hh, k);
    ghost var fa, gb := Comb(minusA, Blk(f, dx1, dy1), Blk(f, dx2, dy2)),
        Comb(minusB, Blk(g, ex1, ey1), Blk(g, ex2, ey2));
    ProductInScratch(o, h, hh, k);
    Shrink(|s|, src, n, a, sub, sub + 5 * hh, aCum, aCum + hh);
    Shrink(|s|, src, n, a, sub, sub + 5 * hh, bCum, bCum + hh);
    CombineLeft(mem, aCum, h, src, n, dx1, dy1, dx2, dy2, minusA, rows, a, s0);
    ghost var s1 := mem[..];
    StillUnchanged(s0, s, s1, src, n, a, aCum, aCum + hh);
    CombineRight(mem, bCum, h, src, ex1, ey1, ex2, ey2, minusB, cols, s0);
    HoldsKeptDense(s1, mem[..], aCum, h, rows, h, fa, hh);
    DenseExtent(h);
    JobMultiply(mem, sub, h, hh, p, aCum, h, bCum, h, rows, cols, fa, gb);
  }

  /** The left operand is prepared, the right one is a block of B as it is: products 2 and 5. */
  method JobLeft(mem: array<int>, k: int, h: nat, hh: int, src: Source, n: nat, a: int, o: int, sub: int,
                  dx1: nat, dy1: nat, dx2: nat, dy2: nat, ex: nat, ey: nat,
                  rows: int, cols: int, ghost s0: seq<int>, ghost f: Mat, ghost g: Mat)
    requires 1 <= k <= 7 && Halves(h) && 0 < h && hh == h * h && n == 2 * h && rows <= h && cols <= h
    requires JobPlace(mem.Length, src, n, a, o, hh, sub) && Unchanged(s0, mem[..], src, n, a)
    requires f == View(s0, a, src.sa) && g == Right(s0, src)
    requires (dx1 == 0 || dx1 == h) && (dy1 == 0 || dy1 == h) && (dx2 == 0 || dx2 == h) && (dy2 == 0 || dy2 == h)
    requires dx1 <= dx2 && dy1 <= dy2
    requires SevenProducts(k, f, g, h) == Mul(Comb(false, Blk(f, dx1, dy1), Blk(f, dx2, dy2)), Blk(g, ex, ey), h)
    modifies mem
    ensures JobFrame(old(mem[..]), mem[..], sub, hh, ProductAt(o, hh, k))
    ensures Have(mem[..], o, h, hh, k, rows, cols, f, g)
  {
    ghost var s := mem[..];
    var aCum, p := sub + 3 * hh, ProductAt(o, hh, k);
    ghost var fa := Comb(false, Blk(f, dx1, dy1), Blk(f, dx2, dy2));
    ProductInScratch(o, h, hh, k);
    Shrink(|s|, src, n, a, sub, sub + 5 * hh, aCum, aCum + hh);
    CombineLeft(mem, aCum, h, src, n, dx1, dy1, dx2, dy2, false, rows, a, s0);
    ghost var s1 := mem[..];
    StillUnchanged(s0, s, s1, src, n, a, aCum, aCum + hh);
    var left := src.FromScratch(aCum, h).MoveB(ex, ey);
    CheckedRight(s0, s1, src, left, h, ex, ey, g, Blk(g, ex, ey));
    JobChecked(mem, sub, h, hh, p, left, aCum, rows, cols, fa, Blk(g, ex, ey));
  }

  method JobChecked(mem: array<int>, sub: int, h: nat, hh: int, p: int, src: Source, a: int, rows: int, cols: int,
                     ghost f: Mat, ghost g: Mat)
    requires Halves(h) && hh == h * h && rows <= h && cols <= h && src.sa == h && a == sub + 3 * hh && src.A == a
        && src.xa == 0 && src.ya == 0
    requires h <= src.n && h <= src.m && 0 <= sub && sub + 5 * hh <= mem.Length && 0 <= p && p + hh <= mem.Length
    requires Disjoint(sub, sub + 5 * hh, p, p + hh)
    requires RightApart(mem.Length, src, sub, sub + 5 * hh) && RightApart(mem.Length, src, p, p + hh)
    requires Holds(mem[..], a, h, rows, h, f) && SameOn(Right(mem[..], src), g, h)
    modifies mem
    ensures Frame2(old(mem[..]), mem[..], sub, sub + 3 * hh, p, p + hh)
    ensures Holds(mem[..], p, h, rows, cols, Mul(f, g, h))
  {
    ghost var s := mem[..];
    ScratchFits(h, hh);
    DenseExtent(h);
    SMCheckB(mem, sub, h, src, p, rows, cols, a);
    LeftProduct(s, mem[..], p, h, rows, cols, a, h, f, Right(s, src));
    ProductSame(mem[..], p, h, rows, cols, f, Right(s, src), g);
  }

  /** The left operand is a quadrant of A as it is, the right one is prepared: products 3 and 4. */
  method JobRight(mem: array<int>, k: int, h: nat, hh: int, src: Source, n: nat, a: int, o: int, sub: int,
                   x: int, dx: nat, dy: nat, ex1: nat, ey1: nat, ex2: nat, ey2: nat,
                   rows: int, cols: int, ghost s0: seq<int>, ghost f: Mat, ghost g: Mat)
    requires 1 <= k <= 7 && Halves(h) && 0 < h && hh == h * h && n == 2 * h && rows <= h && cols <= h
    requires JobPlace(mem.Length, src, n, a, o, hh, sub) && Unchanged(s0, mem[..], src, n, a)
    requires f == View(s0, a, src.sa) && g == Right(s0, src) && src.xa == 0 && src.ya == 0
    requires (dx == 0 || dx == h) && (dy == 0 || dy == h) && x == a + dx * src.sa + dy
    requires (ex1 <= ex2 && ey1 <= ey2) || (ex2 <= ex1 && ey2 <= ey1)
    requires SevenProducts(k, f, g, h) == Mul(Blk(f, dx, dy), Comb(true, Blk(g, ex1, ey1), Blk(g, ex2, ey2)), h)
    modifies mem
    ensures JobFrame(old(mem[..]), mem[..], sub, hh, ProductAt(o, hh, k))
    ensures Have(mem[..], o, h, hh, k, rows, cols, f, g)
  {
    ghost var s := mem[..];
    var bCum, p := sub + 4 * hh, ProductAt(o, hh, k);
    ghost var gb := Comb(true, Blk(g, ex1, ey1), Blk(g, ex2, ey2));
    ProductInScratch(o, h, hh, k);
    Shrink(|s|, src, n, a, sub, sub + 5 * hh, bCum, bCum + hh);
    CombineRight(mem, bCum, h, src, ex1, ey1, ex2, ey2, true, cols, s0);
    ghost var s1 := mem[..];
    StillUnchanged(s0, s, s1, src, n, a, bCum, bCum + hh);
    LeftQuadrant(s0, s1, src, n, a, h, dx, dy, sub, sub + 5 * hh, x);
    LeftQuadrant(s0, s1, src, n, a, h, dx, dy, o + 2 * hh, o + 9 * hh, x);
    HoldsFewer(s1, x, src.sa, h, rows, Blk(f, dx, dy));
    JobInside(mem, sub, h, hh, p, src.m, src.n, dx, dy, x, src.sa, bCum, rows, cols, Blk(f, dx, dy), gb);
  }

  method JobInside(mem: array<int>, sub: int, h: nat, hh: int, p: int, m: nat, n: nat, dx: nat, dy: nat, a: int,
                   sa: int, b: int, rows: int, cols: int, ghost f: Mat, ghost g: Mat)
    requires Halves(h) && hh == h * h && rows <= h && cols <= h && 0 <= sa && dx + h <= n && dy + h <= m && 0 < h
    requires b == sub + 4 * hh && 0 <= sub && sub + 5 * hh <= mem.Length && 0 <= p && p + hh <= mem.Length
    requires Disjoint(sub, sub + 5 * hh, p, p + hh)
    requires Operand(mem.Length, a, sa, h, sub, sub + 5 * hh) && Operand(mem.Length, a, sa, h, p, p + hh)
    requires Holds(mem[..], a, sa, rows, h, f) && Holds(mem[..], b, h, h, cols, g)
    modifies mem
    ensures Frame2(old(mem[..]), mem[..], sub, sub + 3 * hh, p, p + hh)
    ensures Holds(mem[..], p, h, rows, cols, Mul(f, g, h))
  {
    ghost var s := mem[..];
    ScratchFits(h, hh);
    DenseExtent(h);
    Strassen.ExtentNonneg(h, sa);
    SMCheckA(mem, sub, h, m, n, dx, dy, a, sa, b, h, p, rows, cols);
    WindowProduct(s, mem[..], p, h, rows, cols, a, sa, b, h, f, g);
  }

  /** Job number k: product k, whatever was computed before. */
  method Job(mem: array<int>, k: int, h: nat, hh: int, src: Source, n: nat, a: int, o: int, sub: int, w: Window,
              ghost s0: seq<int>, ghost f: Mat, ghost g: Mat)
    requires 1 <= k <= 7 && Halves(h) && 0 < h && hh == h * h && n == 2 * h && w.Rows(k) <= h && w.Cols(k) <= h
    requires JobPlace(mem.Length, src, n, a, o, hh, sub) && Unchanged(s0, mem[..], src, n, a)
    requires f == View(s0, a, src.sa) && g == Right(s0, src) && src.xa == 0 && src.ya == 0
    modifies mem
    ensures JobFrame(old(mem[..]), mem[..], sub, hh, ProductAt(o, hh, k))
    ensures Have(mem[..], o, h, hh, k, w.Rows(k), w.Cols(k), f, g)
  {
    if k == 1 {
      JobBoth(mem, 1, h, hh, src, n, a, o, sub, 0, 0, h, h, false, 0, 0, h, h, false, w.xLim, w.yLim, s0, f, g);
    } else if k == 2 {
      JobLeft(mem, 2, h, hh, src, n, a, o, sub, h, 0, h, h, 0, 0, w.xLim2, w.yLim, s0, f, g);
    } else if k == 3 {
      JobRight(mem, 3, h, hh, src, n, a, o, sub, a, 0, 0, 0, h, h, h, w.xLim, w.yLim2, s0, f, g);
    } else if k == 4 {
      JobRight(mem, 4, h, hh, src, n, a, o, sub, a + h * src.sa + h, h, h, h, 0, 0, 0, w.xLim, w.yLim, s0, f, g);
    } else if k == 5 {
      JobLeft(mem, 5, h, hh, src, n, a, o, sub, 0, 0, 0, h, h, h, w.xLim, w.yLim, s0, f, g);
    } else if k == 6 {
      JobBoth(mem, 6, h, hh, src, n, a, o, sub, h, 0, 0, 0, true, 0, 0, 0, h, false, w.xLim2, w.yLim2, s0, f, g);
    } else {
      JobBoth(mem, 7, h, hh, src, n, a, o, sub, 0, h, h, h, true, h, 0, h, h, false, w.xLim, w.yLim, s0, f, g);
    }
  }

  // ----- all jobs, in any order -----

  /** Where everything is: the buffers of the seven jobs and the products. */
  ghost predicate Buffers(len: int, src: Source, n: int, a: int, o: int, hh: int, subs: seq<int>) {
    |subs| == 7 && forall k :: 0 <= k < 7 ==> JobPlace(len, src, n, a, o, hh, subs[k])
  }

  /** Only scratch buffers and products differ. */
  ghost predicate OnlyBuffers(s: seq<int>, t: seq<int>, o: int, hh: int, subs: seq<int>) {
    |s| == |t| && forall x :: 0 <= x < |s| && !(o + 2 * hh <= x < o + 9 * hh) && !InSubs(x, hh, subs) ==> s[x] == t[x]
  }

  ghost predicate InSubs(x: int, hh: int, subs: seq<int>) {
    exists k :: 0 <= k < |subs| && subs[k] <= x < subs[k] + 5 * hh
  }

  /** A job keeps the operands, the products of the other jobs and the rest of the memory. */
  lemma JobKeeps(s0: seq<int>, s: seq<int>, t: seq<int>, k: int, ks: set<int>, w: Window, h: nat, hh: int, src: Source,
                 n: nat, a: int, o: int, subs: seq<int>, f: Mat, g: Mat)
    requires 1 <= k <= 7 && k !in ks && hh == h * h && n == 2 * h && Buffers(|s|, src, n, a, o, hh, subs)
    requires w.xLim <= h && w.yLim <= h && w.xLim2 <= h && w.yLim2 <= h
    requires Unchanged(s0, s, src, n, a) && OnlyBuffers(s0, s, o, hh, subs) && Known(s, ks, w, o, h, hh, f, g)
    requires JobFrame(s, t, subs[k - 1], hh, ProductAt(o, hh, k)) && Have(t, o, h, hh, k, w.Rows(k), w.Cols(k), f, g)
    ensures Unchanged(s0, t, src, n, a) && OnlyBuffers(s0, t, o, hh, subs) && Known(t, ks + {k}, w, o, h, hh, f, g)
  {
    ProductInScratch(o, h, hh, k);
    forall i | i in ks
      ensures 1 <= i <= 7 && Have(t, o, h, hh, i, w.Rows(i), w.Cols(i), f, g)
    {
      ProductInScratch(o, h, hh, i);
      RowsApart(i + 1, k + 1, hh);
      HoldsKeptDense(s, t, ProductAt(o, hh, i), h, w.Rows(i), w.Cols(i), SevenProducts(i, f, g, h), hh);
    }
  }

  /** The jobs in the given order: every job writes its own buffers and reads only
      the operands and its own buffers, so any order gives all seven products. */
  method RunJobs(mem: array<int>, order: seq<int>, h: nat, hh: int, src: Source, n: nat, a: int, o: int, subs: seq<int>,
                 w: Window, ghost f: Mat, ghost g: Mat)
    requires Halves(h) && 0 < h && hh == h * h && n == 2 * h && src.xa == 0 && src.ya == 0
    requires w.xLim <= h && w.yLim <= h && w.xLim2 <= h && w.yLim2 <= h
    requires Buffers(mem.Length, src, n, a, o, hh, subs)
    requires f == View(mem[..], a, src.sa) && g == Right(mem[..], src)
    requires IsOrder(order)
    modifies mem
    ensures OnlyBuffers(old(mem[..]), mem[..], o, hh, subs)
    ensures Known(mem[..], {1, 2, 3, 4, 5, 6, 7}, w, o, h, hh, f, g)
  {
    ghost var s0 := mem[..];
    ghost var ks: set<int> := {};
    var i := 0;
    while i < |order|
      invariant 0 <= i <= |order|
      invariant ks == set j | 0 <= j < i :: order[j]
      invariant Unchanged(s0, mem[..], src, n, a) && OnlyBuffers(s0, mem[..], o, hh, subs)
      invariant Known(mem[..], ks, w, o, h, hh, f, g)
    {
      ghost var s := mem[..];
      var k := order[i];
      Job(mem, k, h, hh, src, n, a, o, subs[k - 1], w, s0, f, g);
      JobKeeps(s0, s, mem[..], k, ks, w, h, hh, src, n, a, o, subs, f, g);
      ks := ks + {k};
      i := i + 1;
    }
    forall k | k in {1, 2, 3, 4, 5, 6, 7}
      ensures 1 <= k <= 7 && Have(mem[..], o, h, hh, k, w.Rows(k), w.Cols(k), f, g)
    {
      assert k in order;
      assert k in ks;
    }
  }

  /** Each of the seven jobs exactly once. */
  predicate IsOrder(order: seq<int>) {
    && (forall j :: 0 <= j < |order| ==> 1 <= order[j] <= 7)
    && (forall j, i :: 0 <= j < i < |order| ==> order[j] != order[i])
    && (forall k :: 1 <= k <= 7 ==> k in order)
  }

  // ----- the assembly -----

  /** One quadrant of the n by l result, from all seven products. */
  method TopQuadrant(mem: array<int>, q: Corner, h: nat, hh: int, o: int, w: Window, C: int, n: int, l: int, cEnd: int,
                     rows: int, cols: int, ghost qs: set<Corner>, ghost f: Mat, ghost g: Mat)
    requires hh == h * h && 0 <= C && cEnd == C + n * l && cEnd <= mem.Length && 0 <= o + 2 * hh
        && o + 9 * hh <= mem.Length
    requires Disjoint(C, cEnd, o + 2 * hh, o + 9 * hh) && n == 2 * h && w == Split(n, l, h) && l <= n
    requires rows == q.Rows(w) && cols == q.Cols(w) && 0 < cols && (q.Q12? || q.Q22? ==> h < l) && q !in qs
    requires Known(mem[..], {1, 2, 3, 4, 5, 6, 7}, w, o, h, hh, f, g)
    requires forall r :: r in qs ==> QuadrantDone(mem[..], C, l, h, r, w, f, g) && (r.Q12? || r.Q22? ==> h < l)
    modifies mem
    ensures Known(mem[..], {1, 2, 3, 4, 5, 6, 7}, w, o, h, hh, f, g) && Frame(old(mem[..]), mem[..], C, cEnd)
    ensures forall r :: r in qs + {q} ==> QuadrantDone(mem[..], C, l, h, r, w, f, g)
  {
    ghost var s := mem[..];
    var p := o + 2 * hh;
    PromiseQuadrant(s, {1, 2, 3, 4, 5, 6, 7}, {}, w, q, o, h, hh, p, f, g);
    assert Drop(q.Recipe(), {}) == q.Recipe();
    Assemble(mem, C, n, l, p, h, q.Row(h), q.Col(h), rows, cols, q.Recipe(), Quadrant(f, g, h, q.Row(h), q.Col(h)));
    ghost var t := mem[..];
    KnownOutside(s, t, {1, 2, 3, 4, 5, 6, 7}, w, o, h, hh, C, cEnd, f, g);
    forall r | r in qs
      ensures QuadrantDone(t, C, l, h, r, w, f, g)
    {
      DoneBeside(s, t, C, n, l, r.Row(h), r.Col(h), r.Rows(w), r.Cols(w), Quadrant(f, g, h, r.Row(h), r.Col(h)),
                 q.Row(h), q.Row(h) + rows, q.Col(h), q.Col(h) + cols);
    }
  }

  /** The quadrants of the result that its l columns reach. */
  method TopQuadrants(mem: array<int>, h: nat, hh: int, o: int, w: Window, C: int, n: int, l: int, cEnd: int,
                      ghost f: Mat, ghost g: Mat)
    requires hh == h * h && 0 < h && 0 <= C && cEnd == C + n * l && cEnd <= mem.Length && 0 <= o + 2 * hh
        && o + 9 * hh <= mem.Length
    requires Disjoint(C, cEnd, o + 2 * hh, o + 9 * hh) && n == 2 * h && w == Split(n, l, h) && 1 <= l <= n
    requires Known(mem[..], {1, 2, 3, 4, 5, 6, 7}, w, o, h, hh, f, g)
    modifies mem
    ensures Frame(old(mem[..]), mem[..], C, cEnd)
    ensures Holds(mem[..], C, l, n, l, Mul(f, g, n))
  {
    ghost var qs := {};
    var do12 := h < l;
    TopQuadrant(mem, Q11, h, hh, o, w, C, n, l, cEnd, h, if h >= l then l else h, qs, f, g);
    qs := qs + {Q11};
    if do12 {
      TopQuadrant(mem, Q12, h, hh, o, w, C, n, l, cEnd, h, if n > l then l - h else h, qs, f, g);
      qs := qs + {Q12};
    }
    TopQuadrant(mem, Q21, h, hh, o, w, C, n, l, cEnd, h, if h > l then l else h, qs, f, g);
    qs := qs + {Q21};
    if do12 {
      TopQuadrant(mem, Q22, h, hh, o, w, C, n, l, cEnd, h, if n > l then l - h else h, qs, f, g);
      qs := qs + {Q22};
    }
    assert QuadrantDone(mem[..], C, l, h, Q11, w, f, g) && QuadrantDone(mem[..], C, l, h, Q21, w, f, g);
    if do12 {
      assert QuadrantDone(mem[..], C, l, h, Q12, w, f, g) && QuadrantDone(mem[..], C, l, h, Q22, w, f, g);
    }
    WholeWindow(mem[..], C, l, n, h, f, g, n, l, w.xLim, w.yLim, w.xLim2, w.yLim2);
  }

  // ----- the whole multiplication -----

  /** A (n by m), B (m by l), C (n by l), the seven products at P and the jobs' scratch:
      inside the memory, and apart wherever one of them is written. */
  ghost predicate TopRegions(len: int, l: int, m: int, n: int, A: int, B: int, C: int, P: int, hh: int,
                             subs: seq<int>) {
    && 0 <= A && A + n * m <= len && 0 <= B && B + m * l <= len && 0 <= C && C + n * l <= len && 0 <= P
       && P + 7 * hh <= len
    && Disjoint(A, A + n * m, P, P + 7 * hh) && Disjoint(B, B + m * l, P, P + 7 * hh)
       && Disjoint(C, C + n * l, P, P + 7 * hh)
    && |subs| == 7 && forall k :: 0 <= k < 7 ==> TopSub(len, l, m, n, A, B, P, hh, subs[k])
  }

  ghost predicate TopSub(len: int, l: int, m: int, n: int, A: int, B: int, P: int, hh: int, sub: int) {
    && 0 <= sub && sub + 5 * hh <= len && Disjoint(sub, sub + 5 * hh, P, P + 7 * hh)
    && Disjoint(sub, sub + 5 * hh, A, A + n * m) && Disjoint(sub, sub + 5 * hh, B, B + m * l)
  }

  lemma TopPlaces(len: int, l: nat, m: nat, n: nat, A: int, B: int, C: int, P: int, hh: int, subs: seq<int>,
                  src: Source, o: int)
    requires TopRegions(len, l, m, n, A, B, C, P, hh, subs) && m == n && 1 <= l && 0 < n && 0 <= hh && o == P - 2 * hh
    requires src == Source(l, m, n, A, 0, 0, m, B, 0, 0, l)
    ensures Buffers(len, src, n, A, o, hh, subs)
  {
    DenseExtent(n);
    forall k | 0 <= k < 7
      ensures JobPlace(len, src, n, A, o, hh, subs[k])
    {
      assert TopSub(len, l, m, n, A, B, P, hh, subs[k]);
    }
  }

  /** Within its m rows and l columns B is what it holds. */
  lemma WholeRight(s: seq<int>, t: seq<int>, C: int, l: nat, m: nat, n: nat, f: Mat, src: Source)
    requires src.xb == 0 && src.yb == 0 && src.m == m && src.l == l && m == n
    requires Holds(t, C, l, n, l, Mul(f, Right(s, src), n))
    ensures Holds(t, C, l, n, l, Mul(f, View(s, src.B, src.sb), m))
  {
    var g, g' := Right(s, src), View(s, src.B, src.sb);
    forall i, j | 0 <= i < n && 0 <= j < l
      ensures Cell(t, C, l, i, j) == Mul(f, g', m)(i, j)
    {
      assert Cell(t, C, l, i, j) == Mul(f, g, n)(i, j);
      forall k | 0 <= k < m ensures g(k, j) == g'(k, j) {
      }
      DotCong(f, g, i, j, f, g', i, j, m);
    }
  }

  /** Only the result, the products and the jobs' scratch differ. */
  ghost predicate OnlyTop(s: seq<int>, t: seq<int>, C: int, cEnd: int, P: int, hh: int, subs: seq<int>) {
    |s| == |t|
      && forall x :: (0 <= x < |s| && !(C <= x < cEnd) && !(P <= x < P + 7 * hh) && !InSubs(x, hh, subs))
           ==> s[x] == t[x]
  }

  /** The jobs, then the assembly. */
  method JobsAndQuadrants(mem: array<int>, h: nat, hh: int, o: int, src: Source, w: Window, C: int, cEnd: int, n: nat,
                          l: nat, subs: seq<int>, order: seq<int>, ghost P: int, ghost f: Mat, ghost g: Mat)
    requires Halves(h) && 0 < h && hh == h * h && n == 2 * h && src.xa == 0 && src.ya == 0 && 1 <= l <= n
        && P == o + 2 * hh
    requires w == Split(n, l, h) && IsOrder(order) && Buffers(mem.Length, src, n, src.A, o, hh, subs)
    requires 0 <= C && cEnd == C + n * l && cEnd <= mem.Length && 0 <= P && P + 7 * hh <= mem.Length
        && Disjoint(C, cEnd, P, P + 7 * hh)
    requires f == View(mem[..], src.A, src.sa) && g == Right(mem[..], src)
    modifies mem
    ensures Holds(mem[..], C, l, n, l, Mul(f, g, n))
    ensures OnlyTop(old(mem[..]), mem[..], C, cEnd, P, hh, subs)
  {
    RunJobs(mem, order, h, hh, src, n, src.A, o, subs, w, f, g);
    TopQuadrants(mem, h, hh, o, w, C, n, l, cEnd, f, g);
  }

  // ----- a product with the identity -----

  /** Where a matrix of cols columns keeps the entry in row i and column j. */
  function At(base: int, cols: int, i: int, j: int): (r: int) { base + i * cols + j }

  ghost predicate Identity(s: seq<int>, A: int, n: int) {
    forall i, k :: 0 <= i < n && 0 <= k < n ==>
                     0 <= At(A, n, i, k) < |s| && s[At(A, n, i, k)] == if i == k then 1 else 0
  }

  ghost predicate SameCells(s: seq<int>, B: int, t: seq<int>, C: int, rows: int, cols: int) {
    forall i, j :: 0 <= i < rows && 0 <= j < cols ==>
                     && 0 <= At(B, cols, i, j) < |s| && 0 <= At(C, cols, i, j) < |t|
                     && t[At(C, cols, i, j)] == s[At(B, cols, i, j)]
  }

  /** What holds the product of the identity and B holds B. */
  lemma IdentityCopies(s: seq<int>, t: seq<int>, A: int, B: int, C: int, n: nat, l: nat)
    requires 0 <= B && B + n * l <= |s| && 0 <= C && C + n * l <= |t|
    requires Identity(s, A, n) && Holds(t, C, l, n, l, Mul(View(s, A, n), View(s, B, l), n))
    ensures SameCells(s, B, t, C, n, l)
  {
    forall i, j | 0 <= i < n && 0 <= j < l
      ensures 0 <= At(B, l, i, j) < |s| && 0 <= At(C, l, i, j) < |t| && t[At(C, l, i, j)] == s[At(B, l, i, j)]
    {
      InDense(n, l, i, j);
      forall k | 0 <= k < n ensures View(s, A, n)(i, k) == if i == k then 1 else 0 {
        assert 0 <= At(A, n, i, k) < |s|;
      }
      UnitRow(View(s, A, n), View(s, B, l), i, j, n, i);
      assert Cell(t, C, l, i, j) == Cell(s, B, l, i, j);
    }
  }

  lemma InDense(n: int, l: int, i: int, j: int)
    requires 0 <= i < n && 0 <= j < l
    ensures 0 <= i * l + j < n * l
  {
    MulMono(0, i, l);
    MulMono(i + 1, n, l);
  }

  /** The whole product of an mSz by mSz matrix A and a matrix B of l columns: whatever the
      order of the jobs, every cell of C is written with the naive sum, and nothing
      else but the products and the jobs' scratch is changed. */
  method SM1(mem: array<int>, mSz: nat, l: nat, m: nat, n: nat, A: int, B: int, C: int, P: int, subs: seq<int>,
             order: seq<int>)
    requires RESOLVE_SIZE < mSz && Halves(mSz) && m == n == mSz && 1 <= l <= mSz && IsOrder(order)
    requires TopRegions(mem.Length, l, m, n, A, B, C, P, (mSz / 2) * (mSz / 2), subs)
    modifies mem
    ensures Holds(mem[..], C, l, n, l, Mul(View(old(mem[..]), A, m), View(old(mem[..]), B, l), m))
    ensures OnlyTop(old(mem[..]), mem[..], C, C + n * l, P, (mSz / 2) * (mSz / 2), subs)
    ensures Identity(old(mem[..]), A, n) ==> SameCells(old(mem[..]), B, mem[..], C, n, l)
  {
    ghost var s := mem[..];
    var n_2 := mSz / 2;
    var n_22 := n_2 * n_2;
    var o := P - 2 * n_22;
    var src := Source(l, m, n, A, 0, 0, m, B, 0, 0, l);
    ghost var f, g := View(s, A, m), Right(s, src);
    MulMono(0, n_2, n_2);
    TopPlaces(mem.Length, l, m, n, A, B, C, P, n_22, subs, src, o);
    JobsAndQuadrants(mem, n_2, n_22, o, src, Split(n, l, n_2), C, C + n * l, n, l, subs, order, P, f, g);
    WholeRight(s, mem[..], C, l, m, n, f, src);
    if Identity(s, A, n) {
      IdentityCopies(s, mem[..], A, B, C, n, l);
    }
  }
}
