/** Matrices as values, and how flat memory represents them.

A matrix is a function of its row and column: only the entries a caller asks
about matter, so blocks, zero-extended blocks and blocks with stale cells are
all the same kind of value.  Products are sums over the ring of integers. */
module Matrices {

  type Mat = (int, int) -> int

  ghost const ZERO: Mat := (i, j) => 0

  ghost function Add(f: Mat, g: Mat): (r: Mat) { (i, j) => f(i, j) + g(i, j) }

  ghost function Sub(f: Mat, g: Mat): (r: Mat) { (i, j) => f(i, j) - g(i, j) }

  /** Signed sum. */
  ghost function Signed(negX: bool, f: Mat, negY: bool, g: Mat): (r: Mat) {
    (i, j) => Sign(negX) * f(i, j) + Sign(negY) * g(i, j)
  }

  /** Sum or difference, as the flag says. */
  ghost function Comb(minus: bool, f: Mat, g: Mat): (r: Mat) { if minus then Sub(f, g) else Add(f, g) }

  /** The block whose upper left corner is at row di and column dj. */
  ghost function Blk(f: Mat, di: int, dj: int): (r: Mat) { (i, j) => f(i + di, j + dj) }

  /** The sum over k below n of f(i, k) * g(k, j): the naive inner product. */
  ghost function Dot(f: Mat, g: Mat, i: int, j: int, n: int): (r: int)
    decreases n
  {
    if n <= 0 then 0 else Dot(f, g, i, j, n - 1) + f(i, n - 1) * g(n - 1, j)
  }

  ghost function Mul(f: Mat, g: Mat, n: int): (r: Mat) { (i, j) => Dot(f, g, i, j, n) }

  // ----- algebra of products -----

  lemma {:induction false} DotCong(f: Mat, g: Mat, i: int, j: int, f': Mat, g': Mat, i': int, j': int, n: int)
    requires forall k :: 0 <= k < n ==> f(i, k) == f'(i', k)
    requires forall k :: 0 <= k < n ==> g(k, j) == g'(k, j')
    ensures Dot(f, g, i, j, n) == Dot(f', g', i', j', n)
    decreases n
  {
    if n > 0 {
      DotCong(f, g, i, j, f', g', i', j', n - 1);
    }
  }

  lemma {:induction false} DotLeft(minus: bool, f1: Mat, f2: Mat, g: Mat, i: int, j: int, n: int)
    ensures Dot(Comb(minus, f1, f2), g, i, j, n)
         == if minus then Dot(f1, g, i, j, n) - Dot(f2, g, i, j, n) else Dot(f1, g, i, j, n) + Dot(f2, g, i, j, n)
    decreases n
  {
    if n > 0 {
      DotLeft(minus, f1, f2, g, i, j, n - 1);
      var x, y, z := f1(i, n - 1), f2(i, n - 1), g(n - 1, j);
      assert (x + y) * z == x * z + y * z;
      assert (x - y) * z == x * z - y * z;
    }
  }

  lemma {:induction false} DotRight(minus: bool, f: Mat, g1: Mat, g2: Mat, i: int, j: int, n: int)
    ensures Dot(f, Comb(minus, g1, g2), i, j, n)
         == if minus then Dot(f, g1, i, j, n) - Dot(f, g2, i, j, n) else Dot(f, g1, i, j, n) + Dot(f, g2, i, j, n)
    decreases n
  {
    if n > 0 {
      DotRight(minus, f, g1, g2, i, j, n - 1);
      var x, y, z := g1(n - 1, j), g2(n - 1, j), f(i, n - 1);
      assert z * (x + y) == z * x + z * y;
      assert z * (x - y) == z * x - z * y;
    }
  }

  function Sign(minus: bool): (r: int) { if minus then -1 else 1 }

  /** The sum or the difference, as the flag says. */
  function PlusMinus(minus: bool, x: int, y: int): (r: int) { if minus then x - y else x + y }

  /** A product of two sums or differences is four products. */
  lemma DotBoth(ma: bool, f1: Mat, f2: Mat, mb: bool, g1: Mat, g2: Mat, i: int, j: int, n: int)
    ensures Dot(Comb(ma, f1, f2), Comb(mb, g1, g2), i, j, n)
         == PlusMinus(ma, PlusMinus(mb, Dot(f1, g1, i, j, n), Dot(f1, g2, i, j, n)),
                          PlusMinus(mb, Dot(f2, g1, i, j, n), Dot(f2, g2, i, j, n)))
  {
    DotLeft(ma, f1, f2, Comb(mb, g1, g2), i, j, n);
    DotRight(mb, f1, g1, g2, i, j, n);
    DotRight(mb, f2, g1, g2, i, j, n);
  }

  lemma {:induction false} DotSplit(f: Mat, g: Mat, i: int, j: int, h: nat, k: nat)
    ensures Dot(f, g, i, j, h + k) == Dot(f, g, i, j, h) + Dot(Blk(f, 0, h), Blk(g, h, 0), i, j, k)
    decreases k
  {
    if k > 0 {
      DotSplit(f, g, i, j, h, k - 1);
      assert f(i, h + k - 1) == Blk(f, 0, h)(i, k - 1);
      assert g(h + k - 1, j) == Blk(g, h, 0)(k - 1, j);
    }
  }

  lemma {:induction false} DotZeroRight(f: Mat, g: Mat, i: int, j: int, n: int)
    requires forall k :: 0 <= k < n ==> g(k, j) == 0
    ensures Dot(f, g, i, j, n) == 0
    decreases n
  {
    if n > 0 {
      DotZeroRight(f, g, i, j, n - 1);
    }
  }

  lemma {:induction false} DotUnitRow(f: Mat, g: Mat, i: int, j: int, n: int, c: int)
    requires forall k :: 0 <= k < n ==> f(i, k) == if k == c then 1 else 0
    ensures Dot(f, g, i, j, n) == if 0 <= c < n then g(c, j) else 0
    decreases n
  {
    if n > 0 {
      DotUnitRow(f, g, i, j, n - 1, c);
    }
  }

  lemma {:induction false} DotUnitColumn(f: Mat, g: Mat, i: int, j: int, n: int, c: int)
    requires forall k :: 0 <= k < n ==> g(k, j) == if k == c then 1 else 0
    ensures Dot(f, g, i, j, n) == if 0 <= c < n then f(i, c) else 0
    decreases n
  {
    if n > 0 {
      DotUnitColumn(f, g, i, j, n - 1, c);
    }
  }

  /** A row that is 1 in column c and 0 elsewhere picks row c of the right matrix. */
  lemma UnitRow(f: Mat, g: Mat, i: int, j: int, n: int, c: int)
    requires 0 <= c < n && f(i, c) == 1 && forall k :: 0 <= k < n && k != c ==> f(i, k) == 0
    ensures Mul(f, g, n)(i, j) == g(c, j)
  {
    DotUnitRow(f, g, i, j, n, c);
  }

  /** A column that is 1 in row c and 0 elsewhere picks column c of the left matrix. */
  lemma UnitColumn(f: Mat, g: Mat, i: int, j: int, n: int, c: int)
    requires 0 <= c < n && g(c, j) == 1 && forall k :: 0 <= k < n && k != c ==> g(k, j) == 0
    ensures Mul(f, g, n)(i, j) == f(i, c)
  {
    DotUnitColumn(f, g, i, j, n, c);
  }

  /** The block at (di, dj) of a product of 2h by 2h matrices is the sum of two products of blocks. */
  lemma DotQuadrant(f: Mat, g: Mat, h: nat, di: int, dj: int, i: int, j: int)
    ensures Dot(f, g, i + di, j + dj, 2 * h)
         == Dot(Blk(f, di, 0), Blk(g, 0, dj), i, j, h) + Dot(Blk(f, di, h), Blk(g, h, dj), i, j, h)
  {
    var f', g' := Blk(f, di, 0), Blk(g, 0, dj);
    DotCong(f, g, i + di, j + dj, f', g', i, j, 2 * h);
    DotSplit(f', g', i, j, h, h);
    DotCong(Blk(f', 0, h), Blk(g', h, 0), i, j, Blk(f, di, h), Blk(g, h, dj), i, j, h);
  }

  /** The seven products of the method, for operands f and g of size 2h. */
  ghost function P1(f: Mat, g: Mat, h: int): (r: Mat) {
    Mul(Comb(false, Blk(f, 0, 0), Blk(f, h, h)), Comb(false, Blk(g, 0, 0), Blk(g, h, h)), h)
  }
  ghost function P2(f: Mat, g: Mat, h: int): (r: Mat) {
    Mul(Comb(false, Blk(f, h, 0), Blk(f, h, h)), Blk(g, 0, 0), h)
  }
  ghost function P3(f: Mat, g: Mat, h: int): (r: Mat) {
    Mul(Blk(f, 0, 0), Comb(true, Blk(g, 0, h), Blk(g, h, h)), h)
  }
  ghost function P4(f: Mat, g: Mat, h: int): (r: Mat) {
    Mul(Blk(f, h, h), Comb(true, Blk(g, h, 0), Blk(g, 0, 0)), h)
  }
  ghost function P5(f: Mat, g: Mat, h: int): (r: Mat) {
    Mul(Comb(false, Blk(f, 0, 0), Blk(f, 0, h)), Blk(g, h, h), h)
  }
  ghost function P6(f: Mat, g: Mat, h: int): (r: Mat) {
    Mul(Comb(true, Blk(f, h, 0), Blk(f, 0, 0)), Comb(false, Blk(g, 0, 0), Blk(g, 0, h)), h)
  }
  ghost function P7(f: Mat, g: Mat, h: int): (r: Mat) {
    Mul(Comb(true, Blk(f, 0, h), Blk(f, h, h)), Comb(false, Blk(g, h, 0), Blk(g, h, h)), h)
  }

  /** Product number k of operands f and g. */
  ghost function SevenProducts(k: int, f: Mat, g: Mat, h: int): (r: Mat) {
    if k == 1 then P1(f, g, h) else if k == 2 then P2(f, g, h) else if k == 3 then P3(f, g, h)
    else if k == 4 then P4(f, g, h) else if k == 5 then P5(f, g, h) else if k == 6 then P6(f, g, h)
    else P7(f, g, h)
  }

  /** The quadrant of the product whose corner is at (di, dj). */
  ghost function Quadrant(f: Mat, g: Mat, h: int, di: int, dj: int): (r: Mat) { Blk(Mul(f, g, 2 * h), di, dj) }

  /** One entry of the product of the block of f at (p, r) and the block of g at (q, t). */
  ghost function Term(f: Mat, g: Mat, h: int, p: int, r: int, q: int, t: int, i: int, j: int): (res: int) {
    Dot(Blk(f, p, r), Blk(g, q, t), i, j, h)
  }

  lemma Sum1(f: Mat, g: Mat, h: nat, i: int, j: int)
    ensures SevenProducts(1, f, g, h)(i, j)
         == Term(f, g, h, 0, 0, 0, 0, i, j) + Term(f, g, h, 0, 0, h, h, i, j)
            + (Term(f, g, h, h, h, 0, 0, i, j) + Term(f, g, h, h, h, h, h, i, j))
  {
    DotBoth(false, Blk(f, 0, 0), Blk(f, h, h), false, Blk(g, 0, 0), Blk(g, h, h), i, j, h);
  }

  lemma Sum2(f: Mat, g: Mat, h: nat, i: int, j: int)
    ensures SevenProducts(2, f, g, h)(i, j) == Term(f, g, h, h, 0, 0, 0, i, j) + Term(f, g, h, h, h, 0, 0, i, j)
  {
    DotLeft(false, Blk(f, h, 0), Blk(f, h, h), Blk(g, 0, 0), i, j, h);
  }

  lemma Sum3(f: Mat, g: Mat, h: nat, i: int, j: int)
    ensures SevenProducts(3, f, g, h)(i, j) == Term(f, g, h, 0, 0, 0, h, i, j) - Term(f, g, h, 0, 0, h, h, i, j)
  {
    DotRight(true, Blk(f, 0, 0), Blk(g, 0, h), Blk(g, h, h), i, j, h);
  }

  lemma Sum4(f: Mat, g: Mat, h: nat, i: int, j: int)
    ensures SevenProducts(4, f, g, h)(i, j) == Term(f, g, h, h, h, h, 0, i, j) - Term(f, g, h, h, h, 0, 0, i, j)
  {
    DotRight(true, Blk(f, h, h), Blk(g, h, 0), Blk(g, 0, 0), i, j, h);
  }

  lemma Sum5(f: Mat, g: Mat, h: nat, i: int, j: int)
    ensures SevenProducts(5, f, g, h)(i, j) == Term(f, g, h, 0, 0, h, h, i, j) + Term(f, g, h, 0, h, h, h, i, j)
  {
    DotLeft(false, Blk(f, 0, 0), Blk(f, 0, h), Blk(g, h, h), i, j, h);
  }

  lemma Sum6(f: Mat, g: Mat, h: nat, i: int, j: int)
    ensures SevenProducts(6, f, g, h)(i, j)
         == Term(f, g, h, h, 0, 0, 0, i, j) + Term(f, g, h, h, 0, 0, h, i, j)
            - (Term(f, g, h, 0, 0, 0, 0, i, j) + Term(f, g, h, 0, 0, 0, h, i, j))
  {
    DotBoth(true, Blk(f, h, 0), Blk(f, 0, 0), false, Blk(g, 0, 0), Blk(g, 0, h), i, j, h);
  }

  lemma Sum7(f: Mat, g: Mat, h: nat, i: int, j: int)
    ensures SevenProducts(7, f, g, h)(i, j)
         == Term(f, g, h, 0, h, h, 0, i, j) + Term(f, g, h, 0, h, h, h, i, j)
            - (Term(f, g, h, h, h, h, 0, i, j) + Term(f, g, h, h, h, h, h, i, j))
  {
    DotBoth(true, Blk(f, 0, h), Blk(f, h, h), false, Blk(g, h, 0), Blk(g, h, h), i, j, h);
  }

  lemma QuadrantTerms(f: Mat, g: Mat, h: nat, p: int, t: int, i: int, j: int)
    ensures Quadrant(f, g, h, p, t)(i, j) == Term(f, g, h, p, 0, 0, t, i, j) + Term(f, g, h, p, h, h, t, i, j)
  {
    DotQuadrant(f, g, h, p, t, i, j);
  }

  /** Strassen's identities: whatever the entries are, the four quadrants of the
      naive product are these sums of the seven products. */
  lemma Strassen11(f: Mat, g: Mat, h: nat, i: int, j: int)
    ensures SevenProducts(1, f, g, h)(i, j) + SevenProducts(4, f, g, h)(i, j)
            - SevenProducts(5, f, g, h)(i, j) + SevenProducts(7, f, g, h)(i, j)
         == Quadrant(f, g, h, 0, 0)(i, j)
  {
    Sum1(f, g, h, i, j);
    Sum4(f, g, h, i, j);
    Sum5(f, g, h, i, j);
    Sum7(f, g, h, i, j);
    QuadrantTerms(f, g, h, 0, 0, i, j);
  }

  lemma Strassen12(f: Mat, g: Mat, h: nat, i: int, j: int)
    ensures SevenProducts(3, f, g, h)(i, j) + SevenProducts(5, f, g, h)(i, j) == Quadrant(f, g, h, 0, h)(i, j)
  {
    Sum3(f, g, h, i, j);
    Sum5(f, g, h, i, j);
    QuadrantTerms(f, g, h, 0, h, i, j);
  }

  lemma Strassen21(f: Mat, g: Mat, h: nat, i: int, j: int)
    ensures SevenProducts(2, f, g, h)(i, j) + SevenProducts(4, f, g, h)(i, j) == Quadrant(f, g, h, h, 0)(i, j)
  {
    Sum2(f, g, h, i, j);
    Sum4(f, g, h, i, j);
    QuadrantTerms(f, g, h, h, 0, i, j);
  }

  lemma Strassen22(f: Mat, g: Mat, h: nat, i: int, j: int)
    ensures SevenProducts(1, f, g, h)(i, j) + SevenProducts(3, f, g, h)(i, j)
            - SevenProducts(2, f, g, h)(i, j) + SevenProducts(6, f, g, h)(i, j)
         == Quadrant(f, g, h, h, h)(i, j)
  {
    Sum1(f, g, h, i, j);
    Sum2(f, g, h, i, j);
    Sum3(f, g, h, i, j);
    Sum6(f, g, h, i, j);
    QuadrantTerms(f, g, h, h, h, i, j);
  }
}
