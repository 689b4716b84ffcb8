/** Strassen multiplication of blocks that lie inside their matrices.

A call multiplies two mSz by mSz blocks, but delivers only a cxLim by cyLim
window of the product.  It prepares operands and products in a scratch buffer
whose cells outside the requested windows are stale. */
module Strassen {
  import opened Matrices
  import opened FlatMemory
  import opened Loops
  import opened Kernels
  import opened Assembly
  import opened Division

  // ----- one product -----

  /** (a1 +- a2) x (b1 +- b2): both operands are prepared. */
  method ProductBoth(mem: array<int>, o: int, h: nat, hh: int, p: int, a1: int, a2: int, sa: int, minusA: bool,
                     b1: int, b2: int, sb: int, minusB: bool, rows: int, cols: int,
                     ghost end: int, ghost f1: Mat, ghost f2: Mat, ghost g1: Mat, ghost g2: Mat)
    requires Halves(h) && Layout(mem.Length, o, h, hh, p, end)
    requires 0 <= rows <= h && 0 <= cols <= h
    requires Operand(mem.Length, a1, sa, h, o, end) && Operand(mem.Length, a2, sa, h, o, end)
    requires Operand(mem.Length, b1, sb, h, o, end) && Operand(mem.Length, b2, sb, h, o, end)
    requires Holds(mem[..], a1, sa, h, h, f1) && Holds(mem[..], a2, sa, h, h, f2)
    requires Holds(mem[..], b1, sb, h, h, g1) && Holds(mem[..], b2, sb, h, h, g2)
    modifies mem
    ensures StepFrame(old(mem[..]), mem[..], o, hh, p, end)
    ensures Holds(mem[..], p, h, rows, cols, Mul(Comb(minusA, f1, f2), Comb(minusB, g1, g2), h))
    decreases h, 1
  {
    ghost var s0 := mem[..];
    FillRows(mem, o, h, a1, a2, sa, minusA, rows, f1, f2);
    ghost var s1 := mem[..];
    HoldsKept(s0, s1, b1, sb, h, h, g1, b1 + Extent(h, sb));
    HoldsKept(s0, s1, b2, sb, h, h, g2, b2 + Extent(h, sb));
    FillCols(mem, o + hh, h, b1, b2, sb, minusB, cols, g1, g2);
    HoldsKeptDense(s1, mem[..], o, h, rows, h, Comb(minusA, f1, f2), hh);
    Recurse(mem, o, h, hh, p, o, h, o + hh, h, rows, cols, end, Comb(minusA, f1, f2), Comb(minusB, g1, g2));
  }

  /** a x (b1 +- b2) */
  method ProductRight(mem: array<int>, o: int, h: nat, hh: int, p: int, a: int, sa: int,
                      b1: int, b2: int, sb: int, minusB: bool, rows: int, cols: int,
                      ghost end: int, ghost f: Mat, ghost g1: Mat, ghost g2: Mat)
    requires Halves(h) && Layout(mem.Length, o, h, hh, p, end)
    requires 0 <= rows <= h && 0 <= cols <= h
    requires Operand(mem.Length, a, sa, h, o, end)
    requires Operand(mem.Length, b1, sb, h, o, end) && Operand(mem.Length, b2, sb, h, o, end)
    requires Holds(mem[..], a, sa, h, h, f)
    requires Holds(mem[..], b1, sb, h, h, g1) && Holds(mem[..], b2, sb, h, h, g2)
    modifies mem
    ensures StepFrame(old(mem[..]), mem[..], o, hh, p, end)
    ensures Holds(mem[..], p, h, rows, cols, Mul(f, Comb(minusB, g1, g2), h))
    decreases h, 1
  {
    ghost var s0 := mem[..];
    FillCols(mem, o + hh, h, b1, b2, sb, minusB, cols, g1, g2);
    HoldsKept(s0, mem[..], a, sa, h, h, f, a + Extent(h, sa));
    Recurse(mem, o, h, hh, p, a, sa, o + hh, h, rows, cols, end, f, Comb(minusB, g1, g2));
  }

  /** (a1 +- a2) x b */
  method ProductLeft(mem: array<int>, o: int, h: nat, hh: int, p: int, a1: int, a2: int, sa: int, minusA: bool,
                     b: int, sb: int, rows: int, cols: int,
                     ghost end: int, ghost f1: Mat, ghost f2: Mat, ghost g: Mat)
    requires Halves(h) && Layout(mem.Length, o, h, hh, p, end)
    requires 0 <= rows <= h && 0 <= cols <= h
    requires Operand(mem.Length, a1, sa, h, o, end) && Operand(mem.Length, a2, sa, h, o, end)
    requires Operand(mem.Length, b, sb, h, o, end)
    requires Holds(mem[..], a1, sa, h, h, f1) && Holds(mem[..], a2, sa, h, h, f2)
    requires Holds(mem[..], b, sb, h, h, g)
    modifies mem
    ensures StepFrame(old(mem[..]), mem[..], o, hh, p, end)
    ensures Holds(mem[..], p, h, rows, cols, Mul(Comb(minusA, f1, f2), g, h))
    decreases h, 1
  {
    ghost var s0 := mem[..];
    FillRows(mem, o, h, a1, a2, sa, minusA, rows, f1, f2);
    HoldsKept(s0, mem[..], b, sb, h, h, g, b + Extent(h, sb));
    Recurse(mem, o, h, hh, p, o, h, b, sb, rows, cols, end, Comb(minusA, f1, f2), g);
  }

  /** The regions of the recursive call, in terms of their end addresses. */
  lemma RecursionSeparate(len: int, o: int, hh: int, p: int, end: int, a: int, aEnd: int, b: int, bEnd: int, sub: int,
                          need: int)
    requires 0 <= o && 0 <= hh && sub == o + 9 * hh && end == sub + need && 0 <= need && end <= len && o + 2 * hh <= p
        && p + hh <= o + 9 * hh
    requires (0 <= a <= aEnd <= len && Disjoint(a, aEnd, o, end)) || (a == o && aEnd == o + hh)
    requires (0 <= b <= bEnd <= len && Disjoint(b, bEnd, o, end)) || (b == o + hh && bEnd == o + 2 * hh)
    ensures Separate(len, sub, end, p, p + hh, a, aEnd, b, bEnd)
  {
  }

  lemma ExtentNonneg(n: int, stride: int)
    requires 0 <= stride
    ensures 0 <= Extent(n, stride)
  {
    if 0 < n {
      MulMono(0, n - 1, stride);
    }
  }

  /** The recursive call of a product: into p, with the scratch behind the products. */
  method Recurse(mem: array<int>, o: int, h: nat, hh: int, p: int, a: int, sa: int,
                 b: int, sb: int, rows: int, cols: int,
                 ghost end: int, ghost f: Mat, ghost g: Mat)
    requires Halves(h) && Layout(mem.Length, o, h, hh, p, end) && 0 <= sa && 0 <= sb
    requires rows <= h && cols <= h
    requires Operand(mem.Length, a, sa, h, o, end) || (a == o && sa == h)
    requires Operand(mem.Length, b, sb, h, o, end) || (b == o + hh && sb == h)
    requires Holds(mem[..], a, sa, rows, h, f) && Holds(mem[..], b, sb, h, cols, g)
    modifies mem
    ensures Frame2(old(mem[..]), mem[..], p, p + hh, o + 9 * hh, end)
    ensures Holds(mem[..], p, h, rows, cols, Mul(f, g, h))
    decreases h, 0, 1
  {
    ghost var s := mem[..];
    DenseExtent(h);
    ExtentNonneg(h, sa);
    ExtentNonneg(h, sb);
    RecursionSeparate(mem.Length, o, hh, p, end, a, a + Extent(h, sa), b, b + Extent(h, sb), o + 9 * hh, Need(h));
    SMNoCheckAB(mem, o + 9 * hh, h, a, sa, b, sb, p, rows, cols);
    WindowProduct(s, mem[..], p, h, rows, cols, a, sa, b, sb, f, g);
  }

  // ----- the seven products -----

  /** Computes product number k in the rows by cols window. */
  method Multiply(mem: array<int>, k: int, o: int, h: nat, hh: int, qa: Quad, sa: int,
                  qb: Quad, sb: int, rows: int, cols: int,
                  ghost end: int, ghost f: Mat, ghost g: Mat)
    requires 1 <= k <= 7 && Halves(h) && Layout(mem.Length, o, h, hh, ProductAt(o, hh, k), end)
    requires 0 <= rows <= h && 0 <= cols <= h
    requires QuadApart(mem.Length, qa, sa, h, o, end) && QuadApart(mem.Length, qb, sb, h, o, end)
    requires QuadHolds(mem[..], qa, sa, h, f) && QuadHolds(mem[..], qb, sb, h, g)
    modifies mem
    ensures StepFrame(old(mem[..]), mem[..], o, hh, ProductAt(o, hh, k), end)
    ensures Have(mem[..], o, h, hh, k, rows, cols, f, g)
    decreases h, 2
  {
    var p := ProductAt(o, hh, k);
    if k == 1 {
      ProductBoth(mem, o, h, hh, p, qa.x11, qa.x22, sa, false, qb.x11, qb.x22, sb, false, rows, cols, end,
                  Blk(f, 0, 0), Blk(f, h, h), Blk(g, 0, 0), Blk(g, h, h));
    } else if k == 2 {
      ProductLeft(mem, o, h, hh, p, qa.x21, qa.x22, sa, false, qb.x11, sb, rows, cols, end,
                  Blk(f, h, 0), Blk(f, h, h), Blk(g, 0, 0));
    } else if k == 3 {
      ProductRight(mem, o, h, hh, p, qa.x11, sa, qb.x12, qb.x22, sb, true, rows, cols, end,
                   Blk(f, 0, 0), Blk(g, 0, h), Blk(g, h, h));
    } else if k == 4 {
      ProductRight(mem, o, h, hh, p, qa.x22, sa, qb.x21, qb.x11, sb, true, rows, cols, end,
                   Blk(f, h, h), Blk(g, h, 0), Blk(g, 0, 0));
    } else if k == 5 {
      ProductLeft(mem, o, h, hh, p, qa.x11, qa.x12, sa, false, qb.x22, sb, rows, cols, end,
                  Blk(f, 0, 0), Blk(f, 0, h), Blk(g, h, h));
    } else if k == 6 {
      ProductBoth(mem, o, h, hh, p, qa.x21, qa.x11, sa, true, qb.x11, qb.x12, sb, false, rows, cols, end,
                  Blk(f, h, 0), Blk(f, 0, 0), Blk(g, 0, 0), Blk(g, 0, h));
    } else {
      ProductBoth(mem, o, h, hh, p, qa.x12, qa.x22, sa, true, qb.x21, qb.x22, sb, false, rows, cols, end,
                  Blk(f, 0, h), Blk(f, h, h), Blk(g, h, 0), Blk(g, h, h));
    }
  }

  /** The operands at the start of a divided call: their quadrants are apart from all it writes. */
  ghost predicate Operands(s0: seq<int>, c: Call, end: int, qa: Quad, sa: int, qb: Quad, sb: int, f: Mat, g: Mat) {
    && QuadApart(|s0|, qa, sa, c.h, c.o, end) && QuadApart(|s0|, qb, sb, c.h, c.o, end)
    && QuadApart(|s0|, qa, sa, c.h, c.C, c.C + c.n * c.n) && QuadApart(|s0|, qb, sb, c.h, c.C, c.C + c.n * c.n)
    && QuadHolds(s0, qa, sa, c.h, f) && QuadHolds(s0, qb, sb, c.h, g)
  }

  lemma QuadIntact(s: seq<int>, t: seq<int>, q: Quad, stride: int, h: int, f: Mat, lo: int, hi: int, lo': int, hi': int)
    requires QuadHolds(s, q, stride, h, f) && Frame2(s, t, lo, hi, lo', hi')
    requires QuadApart(|s|, q, stride, h, lo, hi) && QuadApart(|s|, q, stride, h, lo', hi')
    ensures QuadHolds(t, q, stride, h, f)
  {
    HoldsFrame2(s, t, q.x11, stride, h, h, h, Blk(f, 0, 0), lo, hi, lo', hi');
    HoldsFrame2(s, t, q.x12, stride, h, h, h, Blk(f, 0, h), lo, hi, lo', hi');
    HoldsFrame2(s, t, q.x21, stride, h, h, h, Blk(f, h, 0), lo, hi, lo', hi');
    HoldsFrame2(s, t, q.x22, stride, h, h, h, Blk(f, h, h), lo, hi, lo', hi');
  }

  /** Computes product number k on top of the known ones. */
  method DoProduct(mem: array<int>, k: int, c: Call, qa: Quad, sa: int, qb: Quad, sb: int, ghost s0: seq<int>,
                   ghost ks: set<int>, ghost qs: set<Corner>, ghost end: int, ghost f: Mat, ghost g: Mat)
    requires 1 <= k <= 7 && k !in ks && Progress(s0, mem[..], ks, qs, c, end, f, g)
    requires Operands(s0, c, end, qa, sa, qb, sb, f, g)
    requires 0 <= c.W().Rows(k) && 0 <= c.W().Cols(k)
    modifies mem
    ensures Progress(s0, mem[..], ks + {k}, qs, c, end, f, g)
    decreases c.h, 5
  {
    ghost var s := mem[..];
    QuadIntact(s0, s, qa, sa, c.h, f, c.o, end, c.C, c.C + c.n * c.n);
    QuadIntact(s0, s, qb, sb, c.h, g, c.o, end, c.C, c.C + c.n * c.n);
    ProductInScratch(c.o, c.h, c.hh, k);
    Multiply(mem, k, c.o, c.h, c.hh, qa, sa, qb, sb, c.W().Rows(k), c.W().Cols(k), end, f, g);
    ProgressProduct(s0, s, mem[..], k, ks, qs, c, end, f, g);
  }

  // ----- the recursive multiplication -----

  /** The window reaches the block's end both ways: products 2, 3 and 6, then all quadrants in one nest. */
  method FullProduct(mem: array<int>, c: Call, qa: Quad, sa: int, qb: Quad, sb: int,
                     ghost s0: seq<int>, ghost end: int, ghost f: Mat, ghost g: Mat)
    requires Progress(s0, mem[..], {1, 4, 5, 7}, {}, c, end, f, g) && c.cxLim == c.n && c.cyLim == c.n
    requires Operands(s0, c, end, qa, sa, qb, sb, f, g)
    modifies mem
    ensures Touched(s0, mem[..], c.o, end, c.C, c.n, c.cxLim, c.cyLim)
    ensures Holds(mem[..], c.C, c.n, c.cxLim, c.cyLim, Mul(f, g, c.n))
    decreases c.h, 6
  {
    DoProduct(mem, 2, c, qa, sa, qb, sb, s0, {1, 4, 5, 7}, {}, end, f, g);
    DoProduct(mem, 3, c, qa, sa, qb, sb, s0, {1, 4, 5, 7} + {2}, {}, end, f, g);
    DoProduct(mem, 6, c, qa, sa, qb, sb, s0, {1, 4, 5, 7} + {2} + {3}, {}, end, f, g);
    AssembleFull(mem, c, s0, {1, 4, 5, 7} + {2} + {3} + {6}, end, f, g);
  }

  /** One more product and the quadrant that waited for it. */
  method ProductAndQuadrant(mem: array<int>, k: int, q: Corner, c: Call, qa: Quad, sa: int, qb: Quad, sb: int,
                            ghost s0: seq<int>, ghost ks: set<int>, ghost qs: set<Corner>, ghost end: int, ghost f: Mat,
                            ghost g: Mat)
    requires 1 <= k <= 7 && k !in ks && Progress(s0, mem[..], ks, qs, c, end, f, g)
    requires Operands(s0, c, end, qa, sa, qb, sb, f, g)
    requires 0 <= c.W().Rows(k) && 0 <= c.W().Cols(k) && q !in qs && Supplied(q, c.W(), ks + {k}, {})
    modifies mem
    ensures Progress(s0, mem[..], ks + {k}, qs + {q}, c, end, f, g)
    decreases c.h, 6
  {
    DoProduct(mem, k, c, qa, sa, qb, sb, s0, ks, qs, end, f, g);
    DoQuadrant(mem, q, {}, c, s0, ks + {k}, qs, end, f, g);
  }

  /** The quadrants below the middle, as far as the window reaches them, when those above are there. */
  method LowerQuadrants(mem: array<int>, c: Call, qa: Quad, sa: int, qb: Quad, sb: int, ghost s0: seq<int>,
                        ghost ks: set<int>, ghost qs: set<Corner>, ghost end: int, ghost f: Mat, ghost g: Mat)
    requires Progress(s0, mem[..], ks, qs, c, end, f, g)
    requires Operands(s0, c, end, qa, sa, qb, sb, f, g)
    requires {1, 4, 5, 7} <= ks && 2 !in ks && 6 !in ks && Q11 in qs && Q21 !in qs && Q22 !in qs
    requires c.h < c.cyLim ==> 3 in ks && Q12 in qs
    modifies mem
    ensures Touched(s0, mem[..], c.o, end, c.C, c.n, c.cxLim, c.cyLim)
    ensures Holds(mem[..], c.C, c.n, c.cxLim, c.cyLim, Mul(f, g, c.n))
    decreases c.h, 7
  {
    ghost var ks', qs' := ks, qs;
    if c.h < c.cxLim {
      ProductAndQuadrant(mem, 2, Q21, c, qa, sa, qb, sb, s0, ks', qs', end, f, g);
      ks', qs' := ks' + {2}, qs' + {Q21};
      if c.h < c.cyLim {
        ProductAndQuadrant(mem, 6, Q22, c, qa, sa, qb, sb, s0, ks', qs', end, f, g);
        ks', qs' := ks' + {6}, qs' + {Q22};
      }
    }
    Finished(mem[..], qs', c, f, g);
  }

  /** The window stops short of the block's end somewhere: only the quadrants it
      reaches are computed, one after the other. */
  method LimitedProduct(mem: array<int>, c: Call, qa: Quad, sa: int, qb: Quad, sb: int,
                        ghost s0: seq<int>, ghost end: int, ghost f: Mat, ghost g: Mat)
    requires Progress(s0, mem[..], {1, 4, 5, 7}, {}, c, end, f, g)
    requires Operands(s0, c, end, qa, sa, qb, sb, f, g)
    modifies mem
    ensures Touched(s0, mem[..], c.o, end, c.C, c.n, c.cxLim, c.cyLim)
    ensures Holds(mem[..], c.C, c.n, c.cxLim, c.cyLim, Mul(f, g, c.n))
    decreases c.h, 8
  {
    var do12 := c.h < c.cyLim;
    ghost var ks, qs := {1, 4, 5, 7}, {};
    DoQuadrant(mem, Q11, {}, c, s0, ks, qs, end, f, g);
    qs := qs + {Q11};
    if do12 {
      ProductAndQuadrant(mem, 3, Q12, c, qa, sa, qb, sb, s0, ks, qs, end, f, g);
      ks, qs := ks + {3}, qs + {Q12};
    }
    LowerQuadrants(mem, c, qa, sa, qb, sb, s0, ks, qs, end, f, g);
  }

  /** At the start of a divided call nothing is computed and nothing changed. */
  lemma Starting(s: seq<int>, c: Call, end: int, a: int, sa: int, b: int, sb: int)
    requires Geometry(|s|, c, end) && 0 < c.h && 0 <= sa && 0 <= sb
    requires Separate(|s|, c.o, end, c.C, c.C + c.n * c.n, a, a + Extent(c.n, sa), b, b + Extent(c.n, sb))
    ensures Progress(s, s, {}, {}, c, end, View(s, a, sa), View(s, b, sb))
    ensures Operands(s, c, end, QuadAt(a, sa, c.h), sa, QuadAt(b, sb, c.h), sb, View(s, a, sa), View(s, b, sb))
  {
    QuadViewed(s, a, sa, c.n, c.h);
    QuadViewed(s, b, sb, c.n, c.h);
    QuadInside(|s|, a, sa, c.n, c.h, c.o, end);
    QuadInside(|s|, b, sb, c.n, c.h, c.o, end);
    QuadInside(|s|, a, sa, c.n, c.h, c.C, c.C + c.n * c.n);
    QuadInside(|s|, b, sb, c.n, c.h, c.C, c.C + c.n * c.n);
  }

  /** Products 1, 4, 5 and 7, then the quadrants. */
  method Divide(mem: array<int>, c: Call, qa: Quad, sa: int, qb: Quad, sb: int, ghost end: int, ghost f: Mat,
                ghost g: Mat)
    requires Progress(mem[..], mem[..], {}, {}, c, end, f, g)
    requires Operands(mem[..], c, end, qa, sa, qb, sb, f, g)
    modifies mem
    ensures Touched(old(mem[..]), mem[..], c.o, end, c.C, c.n, c.cxLim, c.cyLim)
    ensures Holds(mem[..], c.C, c.n, c.cxLim, c.cyLim, Mul(f, g, c.n))
    decreases c.h, 9
  {
    ghost var s0 := mem[..];
    DoProduct(mem, 1, c, qa, sa, qb, sb, s0, {}, {}, end, f, g);
    DoProduct(mem, 4, c, qa, sa, qb, sb, s0, {1}, {}, end, f, g);
    DoProduct(mem, 5, c, qa, sa, qb, sb, s0, {1, 4}, {}, end, f, g);
    DoProduct(mem, 7, c, qa, sa, qb, sb, s0, {1, 4, 5}, {}, end, f, g);
    assert {} + {1} == {1} && {1} + {4} == {1, 4} && {1, 4} + {5} == {1, 4, 5} && {1, 4, 5} + {7} == {1, 4, 5, 7};
    if c.cxLim >= c.n && c.cyLim >= c.n {
      FullProduct(mem, c, qa, sa, qb, sb, s0, end, f, g);
    } else {
      LimitedProduct(mem, c, qa, sa, qb, sb, s0, end, f, g);
    }
  }

  method SMNoCheckAB(mem: array<int>, buf: int, mSz: nat, a: int, sa: int,
                     b: int, sb: int, C: int, cxLim: int, cyLim: int)
    requires 0 <= sa && 0 <= sb
    requires Halves(mSz) && WindowFits(mSz, cxLim, cyLim)
    requires Separate(mem.Length, buf, buf + Need(mSz), C, C + mSz * mSz, a, a + Extent(mSz, sa), b,
                      b + Extent(mSz, sb))
    modifies mem
    ensures Touched(old(mem[..]), mem[..], buf, buf + Need(mSz), C, mSz, cxLim, cyLim)
    ensures Holds(mem[..], C, mSz, Min(mSz, cxLim), Min(mSz, cyLim),
                  Mul(View(old(mem[..]), a, sa), View(old(mem[..]), b, sb), mSz))
    decreases mSz, 0, 0
  {
    if cxLim <= 0 || cyLim <= 0 {
      return;
    }
    if mSz <= RESOLVE_SIZE {
      SMMNoCheckAB(mem, mSz, a, sa, b, sb, C, cxLim, cyLim);
      return;
    }
    var n_2 := mSz / 2;
    var c := Call(buf, n_2, n_2 * n_2, C, mSz, cxLim, cyLim);
    ghost var end := buf + Need(mSz);
    Starting(mem[..], c, end, a, sa, b, sb);
    Divide(mem, c, QuadAt(a, sa, n_2), sa, QuadAt(b, sb, n_2), sb, end, View(mem[..], a, sa), View(mem[..], b, sb));
  }
}
