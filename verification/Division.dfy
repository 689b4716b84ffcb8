/** What the recursive multiplications share: the layout of the scratch buffer,
    the seven products, and the progress of a call that is divided into quadrants. */
module Division {
  import opened Matrices
  import opened FlatMemory
  import opened Loops
  import opened Kernels
  import opened Assembly

  // ----- regions -----

  /** Scratch [o, end), result [C, cEnd) and the two operands are inside the memory
      and apart from one another; the operands may overlap. */
  ghost predicate Separate(len: int, o: int, end: int, C: int, cEnd: int, a: int, aEnd: int, b: int, bEnd: int) {
    && 0 <= o <= end <= len && 0 <= C <= cEnd <= len && 0 <= a <= aEnd <= len && 0 <= b <= bEnd <= len
    && Disjoint(o, end, C, cEnd)
    && Disjoint(a, aEnd, o, end) && Disjoint(a, aEnd, C, cEnd)
    && Disjoint(b, bEnd, o, end) && Disjoint(b, bEnd, C, cEnd)
  }

  /** Only the scratch and the window of the result may differ. */
  ghost predicate Touched(s: seq<int>, t: seq<int>, o: int, end: int, C: int, n: int, rows: int, cols: int) {
    && Frame2(s, t, o, end, C, C + n * n)
    && forall i, j :: 0 <= i < n && 0 <= j < n && !(i < rows && j < cols) ==> Cell(s, C, n, i, j) == Cell(t, C, n, i, j)
  }

  /** What computing one product may change: the operand buffers, that product, the
      scratch of the recursive call. */
  ghost predicate StepFrame(s: seq<int>, t: seq<int>, o: int, hh: int, p: int, end: int) {
    |s| == |t| && forall x :: 0 <= x < |s| && !(o <= x < o + 2 * hh) && !(p <= x < p + hh) && !(o + 9 * hh <= x < end)
                              ==> s[x] == t[x]
  }

  ghost predicate Kept(s: seq<int>, t: seq<int>, lo: int, hi: int) {
    |s| == |t| && forall x :: 0 <= x < |s| && lo <= x < hi ==> s[x] == t[x]
  }

  /** The block is inside the memory and apart from the scratch. */
  ghost predicate Operand(len: int, base: int, stride: int, n: int, o: int, end: int) {
    0 <= stride && 0 <= base && base + Extent(n, stride) <= len && Disjoint(base, base + Extent(n, stride), o, end)
  }

  /** Layout of the scratch of a call whose blocks are h by h: two operand buffers,
      seven products, then the scratch of the calls it makes. */
  ghost predicate Layout(len: int, o: int, h: int, hh: int, p: int, end: int) {
    0 <= h && hh == h * h && 0 <= o && end == o + 9 * hh + Need(h) && end <= len && o + 2 * hh <= p
      && p + hh <= o + 9 * hh
  }

  lemma HoldsKept(s: seq<int>, t: seq<int>, base: int, stride: int, rows: int, cols: int, f: Mat, hi: int)
    requires Holds(s, base, stride, rows, cols, f) && 0 <= stride && Kept(s, t, base, hi)
    requires base + Span(rows, cols, stride) <= hi
    ensures Holds(t, base, stride, rows, cols, f)
  {
    forall i, j | 0 <= i < rows && 0 <= j < cols
      ensures Cell(t, base, stride, i, j) == f(i, j)
    {
      InSpan(rows, cols, stride, i, j);
      assert Cell(s, base, stride, i, j) == f(i, j);
    }
  }

  /** A dense h by h block. */
  lemma HoldsKeptDense(s: seq<int>, t: seq<int>, p: int, h: int, rows: int, cols: int, f: Mat, hh: int)
    requires Holds(s, p, h, rows, cols, f) && 0 <= h && rows <= h && cols <= h && hh == h * h
    requires Kept(s, t, p, p + hh)
    ensures Holds(t, p, h, rows, cols, f)
  {
    SpanMono(rows, cols, h, h, h);
    DenseExtent(h);
    HoldsKept(s, t, p, h, rows, cols, f, p + hh);
  }

  lemma DenseExtent(h: int)
    requires 0 <= h
    ensures Extent(h, h) == h * h
  {
  }

  /** A product of held operands: only the window's rows and columns of the operands matter. */
  lemma WindowProduct(s: seq<int>, t: seq<int>, p: int, h: int, rows: int, cols: int,
                      a: int, sa: int, b: int, sb: int, f: Mat, g: Mat)
    requires rows <= h && cols <= h
    requires Holds(s, a, sa, rows, h, f) && Holds(s, b, sb, h, cols, g)
    requires Holds(t, p, h, rows, cols, Mul(View(s, a, sa), View(s, b, sb), h))
    ensures Holds(t, p, h, rows, cols, Mul(f, g, h))
  {
    forall i, j | 0 <= i < rows && 0 <= j < cols
      ensures Cell(t, p, h, i, j) == Mul(f, g, h)(i, j)
    {
      assert Cell(t, p, h, i, j) == Mul(View(s, a, sa), View(s, b, sb), h)(i, j);
      forall k | 0 <= k < h
        ensures View(s, a, sa)(i, k) == f(i, k) && View(s, b, sb)(k, j) == g(k, j)
      {
        assert Cell(s, a, sa, i, k) == f(i, k) && Cell(s, b, sb, k, j) == g(k, j);
      }
      DotCong(View(s, a, sa), View(s, b, sb), i, j, f, g, i, j, h);
    }
  }

  // ----- the quadrants of an operand -----

  /** Addresses of the four h by h blocks of an operand. */
  datatype Quad = Quad(x11: int, x12: int, x21: int, x22: int)

  function QuadAt(base: int, stride: int, h: int): (r: Quad) {
    Quad(base, base + h, base + h * stride, base + h * stride + h)
  }

  ghost predicate QuadHolds(s: seq<int>, q: Quad, stride: int, h: int, f: Mat) {
    && Holds(s, q.x11, stride, h, h, Blk(f, 0, 0)) && Holds(s, q.x12, stride, h, h, Blk(f, 0, h))
    && Holds(s, q.x21, stride, h, h, Blk(f, h, 0)) && Holds(s, q.x22, stride, h, h, Blk(f, h, h))
  }

  ghost predicate QuadApart(len: int, q: Quad, stride: int, h: int, lo: int, hi: int) {
    && Operand(len, q.x11, stride, h, lo, hi) && Operand(len, q.x12, stride, h, lo, hi)
    && Operand(len, q.x21, stride, h, lo, hi) && Operand(len, q.x22, stride, h, lo, hi)
  }

  lemma QuadInside(len: int, base: int, stride: int, n: int, h: int, lo: int, hi: int)
    requires Operand(len, base, stride, n, lo, hi) && 0 < h && n == 2 * h
    ensures QuadApart(len, QuadAt(base, stride, h), stride, h, lo, hi)
  {
    SubExtent(n, stride, 0, 0, h);
    SubExtent(n, stride, 0, h, h);
    SubExtent(n, stride, h, 0, h);
    SubExtent(n, stride, h, h, h);
  }

  lemma QuadViewed(s: seq<int>, base: int, stride: int, n: int, h: int)
    requires 0 < h && n == 2 * h
    ensures QuadHolds(s, QuadAt(base, stride, h), stride, h, View(s, base, stride))
  {
    var f := View(s, base, stride);
    BlockHolds(s, base, stride, n, f, 0, 0, h);
    BlockHolds(s, base, stride, n, f, 0, h, h);
    BlockHolds(s, base, stride, n, f, h, 0, h);
    BlockHolds(s, base, stride, n, f, h, h, h);
  }

  // ----- the seven products -----

  /** Where product number k is kept. */
  function ProductAt(o: int, hh: int, k: int): (r: int) { o + (k + 1) * hh }

  ghost predicate Have(s: seq<int>, o: int, h: int, hh: int, k: int, rows: int, cols: int, f: Mat, g: Mat) {
    Holds(s, ProductAt(o, hh, k), h, rows, cols, SevenProducts(k, f, g, h))
  }

  lemma ProductInScratch(o: int, h: int, hh: int, k: int)
    requires 1 <= k <= 7 && hh == h * h && 0 <= h
    ensures 0 <= hh && o + 2 * hh <= ProductAt(o, hh, k) && ProductAt(o, hh, k) + hh <= o + 9 * hh
  {
    MulMono(0, h, h);
    MulMono(2, k + 1, hh);
    MulMono(k + 2, 9, hh);
    assert (k + 2) * hh == (k + 1) * hh + hh;
  }

  lemma HaveKept(s: seq<int>, t: seq<int>, o: int, h: int, hh: int, end: int, k: int, k2: int, rows: int, cols: int,
                 f: Mat, g: Mat)
    requires 1 <= k <= 7 && 1 <= k2 <= 7 && k != k2 && hh == h * h && 0 <= h && rows <= h && cols <= h
    requires StepFrame(s, t, o, hh, ProductAt(o, hh, k2), end)
    requires Have(s, o, h, hh, k, rows, cols, f, g)
    ensures Have(t, o, h, hh, k, rows, cols, f, g)
  {
    ProductInScratch(o, h, hh, k);
    ProductInScratch(o, h, hh, k2);
    RowsApart(k + 1, k2 + 1, hh);
    HoldsKeptDense(s, t, ProductAt(o, hh, k), h, rows, cols, SevenProducts(k, f, g, h), hh);
  }

  /** What the program asserts of the window before it divides a block. */
  ghost predicate WindowFits(mSz: nat, cxLim: int, cyLim: int) {
    RESOLVE_SIZE < mSz && 0 < cxLim && 0 < cyLim ==> cxLim <= mSz && cyLim <= mSz
  }

  /** How far the products are needed: rows and columns of the left and upper, and of the right and lower half. */
  datatype Window = Window(xLim: int, yLim: int, xLim2: int, yLim2: int) {
    function Rows(k: int): (r: int) { if k == 2 || k == 6 then xLim2 else xLim }
    function Cols(k: int): (r: int) { if k == 3 || k == 6 then yLim2 else yLim }
  }

  /** The window asked for, split at h. */
  function Split(cxLim: int, cyLim: int, h: int): (r: Window) {
    Window(if cxLim > h then h else cxLim, if cyLim > h then h else cyLim, cxLim - h, cyLim - h)
  }

  /** The products whose numbers are in ks have been computed. */
  ghost predicate Known(s: seq<int>, ks: set<int>, w: Window, o: int, h: int, hh: int, f: Mat, g: Mat) {
    forall k :: k in ks ==> 1 <= k <= 7 && Have(s, o, h, hh, k, w.Rows(k), w.Cols(k), f, g)
  }

  /** The products left out vanish. */
  ghost predicate Zeros(zs: set<int>, h: int, f: Mat, g: Mat) {
    forall k, i, j :: k in zs && 0 <= i < h && 0 <= j < h ==> SevenProducts(k, f, g, h)(i, j) == 0
  }

  // ----- a call between its steps -----

  /** The sizes and addresses of a call of size n = 2h. */
  datatype Call = Call(o: int, h: nat, hh: int, C: int, n: int, cxLim: int, cyLim: int)
  {
    function W(): (r: Window) { Split(cxLim, cyLim, h) }
  }

  ghost predicate Geometry(len: int, c: Call, end: int) {
    && c.hh == c.h * c.h && 0 <= c.o && end == c.o + 9 * c.hh + Need(c.h) && end <= len && Halves(c.h)
    && c.n == 2 * c.h && 0 <= c.C && c.C + c.n * c.n <= len && Disjoint(c.C, c.C + c.n * c.n, c.o, end)
    && 0 < c.cxLim <= c.n && 0 < c.cyLim <= c.n
  }

  datatype Corner = Q11 | Q12 | Q21 | Q22 {
    function Row(h: int): (r: int) { if Q11? || Q12? then 0 else h }
    function Col(h: int): (r: int) { if Q11? || Q21? then 0 else h }
    function Rows(w: Window): (r: int) { if Q11? || Q12? then w.xLim else w.xLim2 }
    function Cols(w: Window): (r: int) { if Q11? || Q21? then w.yLim else w.yLim2 }
    function Recipe(): (r: Recipe) {
      match this
      case Q11 => C11
      case Q12 => C12
      case Q21 => C21
      case Q22 => C22
    }
    /** The products the quadrant is made of. */
    function Needs(): (r: set<int>) {
      match this
      case Q11 => {1, 4, 5, 7}
      case Q12 => {3, 5}
      case Q21 => {2, 4}
      case Q22 => {1, 2, 3, 6}
    }
  }

  ghost predicate QuadrantDone(s: seq<int>, C: int, n: int, h: int, q: Corner, w: Window, f: Mat, g: Mat) {
    HoldsAt(s, C, n, q.Row(h), q.Col(h), q.Rows(w), q.Cols(w), Quadrant(f, g, h, q.Row(h), q.Col(h)))
  }

  ghost predicate Done(s: seq<int>, qs: set<Corner>, c: Call, f: Mat, g: Mat) {
    forall q :: q in qs ==> QuadrantDone(s, c.C, c.n, c.h, q, c.W(), f, g)
  }

  /** The products ks and the quadrants qs are there, and only scratch and window were written since s0. */
  ghost predicate Progress(s0: seq<int>, s: seq<int>, ks: set<int>, qs: set<Corner>, c: Call, end: int, f: Mat,
                           g: Mat) {
    && Geometry(|s|, c, end)
    && Known(s, ks, c.W(), c.o, c.h, c.hh, f, g) && Done(s, qs, c, f, g)
    && Touched(s0, s, c.o, end, c.C, c.n, c.cxLim, c.cyLim)
  }

  lemma TouchedMore(s0: seq<int>, s: seq<int>, t: seq<int>, o: int, end: int, C: int, n: int, cEnd: int, rows: int,
                    cols: int)
    requires Touched(s0, s, o, end, C, n, rows, cols) && Frame(s, t, o, end)
    requires cEnd == C + n * n && Disjoint(C, cEnd, o, end)
    ensures Touched(s0, t, o, end, C, n, rows, cols)
  {
    forall i, j | 0 <= i < n && 0 <= j < n && !(i < rows && j < cols)
      ensures Cell(s0, C, n, i, j) == Cell(t, C, n, i, j)
    {
      InSquare(n, i, j);
      assert Cell(s0, C, n, i, j) == Cell(s, C, n, i, j);
    }
  }

  lemma TouchedRect(s0: seq<int>, s: seq<int>, t: seq<int>, o: int, end: int, C: int, n: int, rows: int, cols: int,
                    i0: int, i1: int, j0: int, j1: int)
    requires Touched(s0, s, o, end, C, n, rows, cols) && OnlyRect(s, t, C, n, n, i0, i1, j0, j1) && i1 <= rows
        && j1 <= cols
    ensures Touched(s0, t, o, end, C, n, rows, cols)
  {
    forall i, j | 0 <= i < n && 0 <= j < n && !(i < rows && j < cols)
      ensures Cell(s0, C, n, i, j) == Cell(t, C, n, i, j)
    {
      assert Cell(s, C, n, i, j) == Cell(t, C, n, i, j);
      assert Cell(s0, C, n, i, j) == Cell(s, C, n, i, j);
    }
  }

  /** A finished quadrant survives writes outside the result. */
  lemma DoneOutside(s: seq<int>, t: seq<int>, C: int, n: int, cEnd: int, di: int, dj: int, rows: int, cols: int, v: Mat,
                    lo: int, hi: int)
    requires HoldsAt(s, C, n, di, dj, rows, cols, v) && Frame(s, t, lo, hi) && cEnd == C + n * n
        && Disjoint(C, cEnd, lo, hi)
    requires 0 <= di && 0 <= dj && di + rows <= n && dj + cols <= n
    ensures HoldsAt(t, C, n, di, dj, rows, cols, v)
  {
    forall i, j | 0 <= i < rows && 0 <= j < cols
      ensures Cell(t, C, n, i + di, j + dj) == v(i, j)
    {
      InSquare(n, i + di, j + dj);
      assert Cell(s, C, n, i + di, j + dj) == v(i, j);
    }
  }

  /** A finished quadrant survives writes to another rectangle of the result. */
  lemma DoneBeside(s: seq<int>, t: seq<int>, C: int, height: int, n: int, di: int, dj: int, rows: int, cols: int,
                   v: Mat, i0: int, i1: int, j0: int, j1: int)
    requires HoldsAt(s, C, n, di, dj, rows, cols, v) && OnlyRect(s, t, C, height, n, i0, i1, j0, j1)
    requires 0 <= di && 0 <= dj && di + rows <= height && dj + cols <= n
    requires Disjoint(di, di + rows, i0, i1) || Disjoint(dj, dj + cols, j0, j1)
    ensures HoldsAt(t, C, n, di, dj, rows, cols, v)
  {
    forall i, j | 0 <= i < rows && 0 <= j < cols
      ensures Cell(t, C, n, i + di, j + dj) == v(i, j)
    {
      assert Cell(s, C, n, i + di, j + dj) == v(i, j);
    }
  }

  /** A product was computed: the step changed its own buffers only. */
  lemma ProgressProduct(s0: seq<int>, s: seq<int>, t: seq<int>, k: int, ks: set<int>, qs: set<Corner>, c: Call,
                        end: int, f: Mat, g: Mat)
    requires Progress(s0, s, ks, qs, c, end, f, g) && 1 <= k <= 7 && k !in ks
    requires StepFrame(s, t, c.o, c.hh, ProductAt(c.o, c.hh, k), end)
    requires Have(t, c.o, c.h, c.hh, k, c.W().Rows(k), c.W().Cols(k), f, g)
    ensures Progress(s0, t, ks + {k}, qs, c, end, f, g)
  {
    ProductInScratch(c.o, c.h, c.hh, k);
    TouchedMore(s0, s, t, c.o, end, c.C, c.n, c.C + c.n * c.n, c.cxLim, c.cyLim);
    forall q | q in qs
      ensures QuadrantDone(t, c.C, c.n, c.h, q, c.W(), f, g)
    {
      DoneOutside(s, t, c.C, c.n, c.C + c.n * c.n, q.Row(c.h), q.Col(c.h), q.Rows(c.W()), q.Cols(c.W()),
                  Quadrant(f, g, c.h, q.Row(c.h), q.Col(c.h)), c.o, end);
    }
    KnownKept(s, t, k, ks, c.W(), c.o, c.h, c.hh, end, f, g);
  }

  lemma KnownKept(s: seq<int>, t: seq<int>, k: int, ks: set<int>, w: Window, o: int, h: int, hh: int, end: int, f: Mat,
                  g: Mat)
    requires Known(s, ks, w, o, h, hh, f, g) && 1 <= k <= 7 && k !in ks && 0 <= h && hh == h * h
    requires w.xLim <= h && w.yLim <= h && w.xLim2 <= h && w.yLim2 <= h
    requires StepFrame(s, t, o, hh, ProductAt(o, hh, k), end) && Have(t, o, h, hh, k, w.Rows(k), w.Cols(k), f, g)
    ensures Known(t, ks + {k}, w, o, h, hh, f, g)
  {
    forall i | i in ks
      ensures 1 <= i <= 7 && Have(t, o, h, hh, i, w.Rows(i), w.Cols(i), f, g)
    {
      HaveKept(s, t, o, h, hh, end, i, k, w.Rows(i), w.Cols(i), f, g);
    }
  }

  // ----- from products to quadrants -----

  /** Reading a product through the recipes' addressing. */
  lemma ProductRead(s: seq<int>, o: int, h: int, hh: int, k: int, p: int, rows: int, cols: int, f: Mat, g: Mat, i: int,
                    j: int)
    requires 1 <= k <= 7 && hh == h * h && p == o + 2 * hh && Have(s, o, h, hh, k, rows, cols, f, g) && 0 <= i < rows
        && 0 <= j < cols
    ensures Product(s, p, h, k, i, j) == SevenProducts(k, f, g, h)(i, j)
  {
    assert p + (k - 1) * hh == ProductAt(o, hh, k);
    assert Cell(s, ProductAt(o, hh, k), h, i, j) == SevenProducts(k, f, g, h)(i, j);
  }

  /** A product a quadrant asks for is either left out and vanishes, or can be read. */
  lemma ProductValue(s: seq<int>, ks: set<int>, zs: set<int>, w: Window, k: int, rows: int, cols: int,
                     o: int, h: nat, hh: int, p: int, f: Mat, g: Mat, i: int, j: int)
    requires hh == h * h && p == o + 2 * hh && Known(s, ks, w, o, h, hh, f, g) && Zeros(zs, h, f, g) && 1 <= k <= 7
    requires (k in ks && k !in zs && rows <= w.Rows(k) && cols <= w.Cols(k)) || k in zs
    requires 0 <= i < rows <= h && 0 <= j < cols <= h
    ensures k in zs ==> SevenProducts(k, f, g, h)(i, j) == 0
    ensures k !in zs ==> SevenProducts(k, f, g, h)(i, j) == Product(s, p, h, k, i, j)
  {
    if k !in zs {
      ProductRead(s, o, h, hh, k, p, w.Rows(k), w.Cols(k), f, g, i, j);
    }
  }

  /** The products the quadrant is made of are known or vanish. */
  ghost predicate Supplied(q: Corner, w: Window, ks: set<int>, zs: set<int>) {
    forall k :: k in q.Needs() ==> k in zs || (k in ks && q.Rows(w) <= w.Rows(k) && q.Cols(w) <= w.Cols(k))
  }

  lemma CellQuadrant(s: seq<int>, ks: set<int>, zs: set<int>, w: Window, q: Corner, o: int, h: nat, hh: int, p: int,
                     f: Mat, g: Mat, i: int, j: int)
    requires hh == h * h && p == o + 2 * hh && Known(s, ks, w, o, h, hh, f, g) && Zeros(zs, h, f, g)
    requires Supplied(q, w, ks, zs)
    requires 0 <= i < q.Rows(w) <= h && 0 <= j < q.Cols(w) <= h
    ensures Cooked(Drop(q.Recipe(), zs), s, p, h, i, j) == Quadrant(f, g, h, q.Row(h), q.Col(h))(i, j)
  {
    var rows, cols := q.Rows(w), q.Cols(w);
    forall k | k in q.Needs()
      ensures k in zs ==> SevenProducts(k, f, g, h)(i, j) == 0
      ensures k !in zs ==> SevenProducts(k, f, g, h)(i, j) == Product(s, p, h, k, i, j)
    {
      ProductValue(s, ks, zs, w, k, rows, cols, o, h, hh, p, f, g, i, j);
    }
    CookedMix(q.Recipe(), zs, s, p, h, i, j,
              SevenProducts(1, f, g, h)(i, j), SevenProducts(2, f, g, h)(i, j), SevenProducts(3, f, g, h)(i, j),
              SevenProducts(4, f, g, h)(i, j), SevenProducts(5, f, g, h)(i, j), SevenProducts(6, f, g, h)(i, j),
              SevenProducts(7, f, g, h)(i, j));
    StrassenMix(q, f, g, h, i, j);
  }

  /** Strassen's identities, as recipes. */
  lemma StrassenMix(q: Corner, f: Mat, g: Mat, h: nat, i: int, j: int)
    ensures Mix(q.Recipe(), SevenProducts(1, f, g, h)(i, j), SevenProducts(2, f, g, h)(i, j),
                SevenProducts(3, f, g, h)(i, j),
                SevenProducts(4, f, g, h)(i, j), SevenProducts(5, f, g, h)(i, j), SevenProducts(6, f, g, h)(i, j),
                SevenProducts(7, f, g, h)(i, j))
         == Quadrant(f, g, h, q.Row(h), q.Col(h))(i, j)
  {
    match q
    case Q11 => Strassen11(f, g, h, i, j);
    case Q12 => Strassen12(f, g, h, i, j);
    case Q21 => Strassen21(f, g, h, i, j);
    case Q22 => Strassen22(f, g, h, i, j);
  }

  lemma PromiseQuadrant(s: seq<int>, ks: set<int>, zs: set<int>, w: Window, q: Corner, o: int, h: nat, hh: int, p: int,
                        f: Mat, g: Mat)
    requires hh == h * h && p == o + 2 * hh && Known(s, ks, w, o, h, hh, f, g) && Zeros(zs, h, f, g)
    requires Supplied(q, w, ks, zs) && q.Rows(w) <= h && q.Cols(w) <= h
    ensures Promised(s, p, h, q.Rows(w), q.Cols(w), Drop(q.Recipe(), zs), Quadrant(f, g, h, q.Row(h), q.Col(h)))
  {
    forall i, j | 0 <= i < q.Rows(w) && 0 <= j < q.Cols(w)
      ensures Cooked(Drop(q.Recipe(), zs), s, p, h, i, j) == Quadrant(f, g, h, q.Row(h), q.Col(h))(i, j)
    {
      CellQuadrant(s, ks, zs, w, q, o, h, hh, p, f, g, i, j);
    }
  }

  /** The four quadrants, each as far as the window reaches, make up the window. */
  lemma WholeWindow(s: seq<int>, C: int, stride: int, n: int, h: nat, f: Mat, g: Mat, cxLim: int, cyLim: int,
                    r1: int, c1: int, r2: int, c2: int)
    requires n == 2 * h && cxLim <= n && cyLim <= n
    requires Min(h, cxLim) <= r1 && Min(h, cyLim) <= c1 && cxLim - h <= r2 && cyLim - h <= c2
    requires HoldsAt(s, C, stride, 0, 0, r1, c1, Quadrant(f, g, h, 0, 0))
    requires 0 < c2 ==> HoldsAt(s, C, stride, 0, h, r1, c2, Quadrant(f, g, h, 0, h))
    requires 0 < r2 ==> HoldsAt(s, C, stride, h, 0, r2, c1, Quadrant(f, g, h, h, 0))
    requires 0 < r2 && 0 < c2 ==> HoldsAt(s, C, stride, h, h, r2, c2, Quadrant(f, g, h, h, h))
    ensures Holds(s, C, stride, cxLim, cyLim, Mul(f, g, n))
  {
    forall i, j | 0 <= i < cxLim && 0 <= j < cyLim
      ensures Cell(s, C, stride, i, j) == Mul(f, g, n)(i, j)
    {
      var di, dj := if i < h then 0 else h, if j < h then 0 else h;
      assert Cell(s, C, stride, (i - di) + di, (j - dj) + dj) == Quadrant(f, g, h, di, dj)(i - di, j - dj);
    }
  }

  /** Writing the result keeps the products. */
  lemma KnownOutside(s: seq<int>, t: seq<int>, ks: set<int>, w: Window, o: int, h: nat, hh: int, C: int, cEnd: int,
                     f: Mat, g: Mat)
    requires Known(s, ks, w, o, h, hh, f, g) && hh == h * h
    requires w.xLim <= h && w.yLim <= h && w.xLim2 <= h && w.yLim2 <= h
    requires Disjoint(C, cEnd, o + 2 * hh, o + 9 * hh) && Frame(s, t, C, cEnd)
    ensures Known(t, ks, w, o, h, hh, f, g)
  {
    forall k | k in ks
      ensures 1 <= k <= 7 && Have(t, o, h, hh, k, w.Rows(k), w.Cols(k), f, g)
    {
      ProductInScratch(o, h, hh, k);
      HoldsKeptDense(s, t, ProductAt(o, hh, k), h, w.Rows(k), w.Cols(k), SevenProducts(k, f, g, h), hh);
    }
  }

  /** Assembles one quadrant from known products, dropping those that vanish. */
  method DoQuadrant(mem: array<int>, q: Corner, zs: set<int>, c: Call, ghost s0: seq<int>, ghost ks: set<int>,
                    ghost qs: set<Corner>, ghost end: int, ghost f: Mat, ghost g: Mat)
    requires Progress(s0, mem[..], ks, qs, c, end, f, g) && Zeros(zs, c.h, f, g) && q !in qs
        && Supplied(q, c.W(), ks, zs)
    modifies mem
    ensures Progress(s0, mem[..], ks, qs + {q}, c, end, f, g)
  {
    ghost var s := mem[..];
    var w := c.W();
    var p := c.o + 2 * c.hh;
    PromiseQuadrant(s, ks, zs, w, q, c.o, c.h, c.hh, p, f, g);
    AssembleQuadrant(mem, q, zs, w, c.o, c.h, c.hh, p, c.C, c.n, c.C + c.n * c.n, end, f, g);
    ProgressQuadrant(s0, s, mem[..], q, ks, qs, c, w, end, f, g);
  }

  lemma ProgressQuadrant(s0: seq<int>, s: seq<int>, t: seq<int>, q: Corner, ks: set<int>, qs: set<Corner>, c: Call,
                         w: Window, end: int, f: Mat, g: Mat)
    requires Progress(s0, s, ks, qs, c, end, f, g) && q !in qs && w == c.W()
    requires OnlyRect(s, t, c.C, c.n, c.n, q.Row(c.h), q.Row(c.h) + q.Rows(w), q.Col(c.h), q.Col(c.h) + q.Cols(w))
    requires QuadrantDone(t, c.C, c.n, c.h, q, w, f, g)
    ensures Progress(s0, t, ks, qs + {q}, c, end, f, g)
  {
    ProductInScratch(c.o, c.h, c.hh, 1);
    KnownOutside(s, t, ks, w, c.o, c.h, c.hh, c.C, c.C + c.n * c.n, f, g);
    var i0, j0 := q.Row(c.h), q.Col(c.h);
    var i1, j1 := i0 + q.Rows(w), j0 + q.Cols(w);
    TouchedRect(s0, s, t, c.o, end, c.C, c.n, c.cxLim, c.cyLim, i0, i1, j0, j1);
    forall r | r in qs
      ensures QuadrantDone(t, c.C, c.n, c.h, r, w, f, g)
    {
      DoneBeside(s, t, c.C, c.n, c.n, r.Row(c.h), r.Col(c.h), r.Rows(w), r.Cols(w),
                 Quadrant(f, g, c.h, r.Row(c.h), r.Col(c.h)), i0, i1, j0, j1);
    }
  }

  method AssembleQuadrant(mem: array<int>, q: Corner, zs: set<int>, w: Window, o: int, h: nat, hh: int, p: int,
                          C: int, n: int, ghost cEnd: int, ghost end: int, ghost f: Mat, ghost g: Mat)
    requires hh == h * h && 0 <= o && p == o + 2 * hh && o + 9 * hh <= end <= mem.Length && n == 2 * h
    requires 0 <= C && cEnd == C + n * n && cEnd <= mem.Length && Disjoint(C, cEnd, o, end)
    requires w.xLim <= h && w.yLim <= h && w.xLim2 <= h && w.yLim2 <= h
    requires Promised(mem[..], p, h, q.Rows(w), q.Cols(w), Drop(q.Recipe(), zs), Quadrant(f, g, h, q.Row(h), q.Col(h)))
    modifies mem
    ensures OnlyRect(old(mem[..]), mem[..], C, n, n, q.Row(h), q.Row(h) + q.Rows(w), q.Col(h), q.Col(h) + q.Cols(w))
    ensures QuadrantDone(mem[..], C, n, h, q, w, f, g)
  {
    Assemble(mem, C, n, n, p, h, q.Row(h), q.Col(h), q.Rows(w), q.Cols(w), Drop(q.Recipe(), zs),
             Quadrant(f, g, h, q.Row(h), q.Col(h)));
  }

  /** All four quadrants at once, when the window is the whole block. */
  method AssembleFull(mem: array<int>, c: Call, ghost s0: seq<int>, ghost ks: set<int>, ghost end: int, ghost f: Mat,
                      ghost g: Mat)
    requires Progress(s0, mem[..], ks, {}, c, end, f, g) && c.cxLim == c.n && c.cyLim == c.n
    requires ks == {1, 2, 3, 4, 5, 6, 7}
    modifies mem
    ensures Touched(s0, mem[..], c.o, end, c.C, c.n, c.cxLim, c.cyLim)
    ensures Holds(mem[..], c.C, c.n, c.cxLim, c.cyLim, Mul(f, g, c.n))
  {
    ghost var s := mem[..];
    var p := c.o + 2 * c.hh;
    FullPromise(s, ks, c.W(), Q11, c.o, c.h, c.hh, p, f, g);
    FullPromise(s, ks, c.W(), Q12, c.o, c.h, c.hh, p, f, g);
    FullPromise(s, ks, c.W(), Q21, c.o, c.h, c.hh, p, f, g);
    FullPromise(s, ks, c.W(), Q22, c.o, c.h, c.hh, p, f, g);
    AssembleAll(mem, c.C, c.n, p, c.h, Quadrant(f, g, c.h, 0, 0), Quadrant(f, g, c.h, 0, c.h),
                Quadrant(f, g, c.h, c.h, 0), Quadrant(f, g, c.h, c.h, c.h));
    WholeWindow(mem[..], c.C, c.n, c.n, c.h, f, g, c.n, c.n, c.h, c.h, c.h, c.h);
  }

  lemma FullPromise(s: seq<int>, ks: set<int>, w: Window, q: Corner, o: int, h: nat, hh: int, p: int, f: Mat, g: Mat)
    requires hh == h * h && p == o + 2 * hh && Known(s, ks, w, o, h, hh, f, g)
    requires ks == {1, 2, 3, 4, 5, 6, 7} && w == Window(h, h, h, h)
    ensures Promised(s, p, h, h, h, q.Recipe(), Quadrant(f, g, h, q.Row(h), q.Col(h)))
  {
    PromiseQuadrant(s, ks, {}, w, q, o, h, hh, p, f, g);
    assert Drop(q.Recipe(), {}) == q.Recipe();
  }

  /** Once the quadrants the window reaches are done, the window holds the product. */
  lemma Finished(s: seq<int>, qs: set<Corner>, c: Call, f: Mat, g: Mat)
    requires Done(s, qs, c, f, g) && c.n == 2 * c.h && c.cxLim <= c.n && c.cyLim <= c.n
    requires Q11 in qs && (c.h < c.cyLim ==> Q12 in qs) && (c.h < c.cxLim ==> Q21 in qs)
    requires c.h < c.cxLim && c.h < c.cyLim ==> Q22 in qs
    ensures Holds(s, c.C, c.n, c.cxLim, c.cyLim, Mul(f, g, c.n))
  {
    var w := c.W();
    assert QuadrantDone(s, c.C, c.n, c.h, Q11, w, f, g);
    if c.h < c.cyLim {
      assert QuadrantDone(s, c.C, c.n, c.h, Q12, w, f, g);
    }
    if c.h < c.cxLim {
      assert QuadrantDone(s, c.C, c.n, c.h, Q21, w, f, g);
      if c.h < c.cyLim {
        assert QuadrantDone(s, c.C, c.n, c.h, Q22, w, f, g);
      }
    }
    WholeWindow(s, c.C, c.n, c.n, c.h, f, g, c.cxLim, c.cyLim, w.xLim, w.yLim, w.xLim2, w.yLim2);
  }
}
