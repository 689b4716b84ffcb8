/** Putting the quadrants of the result together from the seven products. */
module Assembly {
  import opened Matrices
  import opened FlatMemory

  /** How a quadrant is put together: coefficient k_i of product p_i.  A product
      with coefficient 0 is not read (it may not have been computed). */
  datatype Recipe = Recipe(k1: int, k2: int, k3: int, k4: int, k5: int, k6: int, k7: int)

  const C11 := Recipe(1, 0, 0, 1, -1, 0, 1)
  const C12 := Recipe(0, 0, 1, 0, 1, 0, 0)
  const C21 := Recipe(0, 1, 0, 1, 0, 0, 0)
  const C22 := Recipe(1, -1, 1, 0, 0, 1, 0)

  /** The recipe without the products in zs. */
  function Drop(r: Recipe, zs: set<int>): (res: Recipe) {
    Recipe(if 1 in zs then 0 else r.k1, if 2 in zs then 0 else r.k2, if 3 in zs then 0 else r.k3,
           if 4 in zs then 0 else r.k4, if 5 in zs then 0 else r.k5, if 6 in zs then 0 else r.k6,
           if 7 in zs then 0 else r.k7)
  }

  /** A coefficient applied; only its sign counts. */
  function Term(k: int, v: int): (r: int) { if k == 0 then 0 else if k < 0 then -v else v }

  /** Cell (i, j) of product number t; the products are h by h blocks, one after the other from p. */
  ghost function Product(s: seq<int>, p: int, h: int, t: int, i: int, j: int): (r: int) {
    Cell(s, p + (t - 1) * (h * h), h, i, j)
  }

  ghost function Cooked(r: Recipe, s: seq<int>, p: int, h: int, i: int, j: int): (res: int) {
    Term(r.k1, Product(s, p, h, 1, i, j)) + Term(r.k2, Product(s, p, h, 2, i, j))
    + Term(r.k3, Product(s, p, h, 3, i, j)) + Term(r.k4, Product(s, p, h, 4, i, j))
    + Term(r.k5, Product(s, p, h, 5, i, j)) + Term(r.k6, Product(s, p, h, 6, i, j))
    + Term(r.k7, Product(s, p, h, 7, i, j))
  }

  /** The same sum read at running index x of the first product. */
  ghost function CookedAt(r: Recipe, s: seq<int>, x: int, hh: int): (res: int)
    requires 0 <= x && 0 <= hh && x + 6 * hh < |s|
  {
    Term(r.k1, s[x]) + Term(r.k2, s[x + hh]) + Term(r.k3, s[x + 2 * hh]) + Term(r.k4, s[x + 3 * hh])
    + Term(r.k5, s[x + 4 * hh]) + Term(r.k6, s[x + 5 * hh]) + Term(r.k7, s[x + 6 * hh])
  }

  lemma CookedIsAt(r: Recipe, s: seq<int>, p: int, h: int, i: int, j: int)
    requires 0 <= p && 0 <= i < h && 0 <= j < h && p + 7 * (h * h) <= |s|
    ensures 0 <= i * h + j < h * h
    ensures Cooked(r, s, p, h, i, j) == CookedAt(r, s, p + i * h + j, h * h)
  {
    InSquare(h, i, j);
  }

  /** The recipe's sum of seven numbers. */
  ghost function Mix(r: Recipe, x1: int, x2: int, x3: int, x4: int, x5: int, x6: int, x7: int): (res: int) {
    Term(r.k1, x1) + Term(r.k2, x2) + Term(r.k3, x3) + Term(r.k4, x4) + Term(r.k5, x5) + Term(r.k6, x6) + Term(r.k7, x7)
  }

  /** Products that were left out because they vanish may be dropped from a recipe. */
  lemma CookedMix(r: Recipe, zs: set<int>, s: seq<int>, p: int, h: int, i: int, j: int,
                  x1: int, x2: int, x3: int, x4: int, x5: int, x6: int, x7: int)
    requires r.k1 == 0 || (1 in zs && x1 == 0) || (1 !in zs && x1 == Product(s, p, h, 1, i, j))
    requires r.k2 == 0 || (2 in zs && x2 == 0) || (2 !in zs && x2 == Product(s, p, h, 2, i, j))
    requires r.k3 == 0 || (3 in zs && x3 == 0) || (3 !in zs && x3 == Product(s, p, h, 3, i, j))
    requires r.k4 == 0 || (4 in zs && x4 == 0) || (4 !in zs && x4 == Product(s, p, h, 4, i, j))
    requires r.k5 == 0 || (5 in zs && x5 == 0) || (5 !in zs && x5 == Product(s, p, h, 5, i, j))
    requires r.k6 == 0 || (6 in zs && x6 == 0) || (6 !in zs && x6 == Product(s, p, h, 6, i, j))
    requires r.k7 == 0 || (7 in zs && x7 == 0) || (7 !in zs && x7 == Product(s, p, h, 7, i, j))
    ensures Cooked(Drop(r, zs), s, p, h, i, j) == Mix(r, x1, x2, x3, x4, x5, x6, x7)
  {
  }

  /** The recipe gives the entries of v on the rows by cols window. */
  ghost predicate Promised(s: seq<int>, p: int, h: int, rows: int, cols: int, r: Recipe, v: Mat) {
    forall i, j :: 0 <= i < rows && 0 <= j < cols ==> Cooked(r, s, p, h, i, j) == v(i, j)
  }

  /** Reading row i of the promise at its running index, after cells outside the products changed. */
  lemma RowPromise(s0: seq<int>, s: seq<int>, p: int, h: int, rows: int, cols: int, r: Recipe, v: Mat, i: int)
    requires Promised(s0, p, h, rows, cols, r, v) && 0 <= i < rows <= h && 0 <= cols <= h
    requires 0 <= p && p + 7 * (h * h) <= |s0| == |s|
    requires forall x :: p <= x < p + 7 * (h * h) ==> s[x] == s0[x]
    ensures 0 <= i * h && i * h + cols <= h * h
    ensures forall k :: 0 <= k < cols ==> CookedAt(r, s, p + i * h + k, h * h) == v(i, k)
  {
    RowBound(i, h, h);
    forall k | 0 <= k < cols
      ensures CookedAt(r, s, p + i * h + k, h * h) == v(i, k)
    {
      CookedIsAt(r, s0, p, h, i, k);
      assert Cooked(r, s0, p, h, i, k) == v(i, k);
      SameCooked(r, s0, s, p + i * h + k, h * h);
    }
  }

  lemma SameCooked(r: Recipe, s0: seq<int>, s: seq<int>, x: int, hh: int)
    requires 0 <= x && 0 <= hh && x + 6 * hh < |s0| == |s|
    requires s[x] == s0[x] && s[x + hh] == s0[x + hh] && s[x + 2 * hh] == s0[x + 2 * hh]
        && s[x + 3 * hh] == s0[x + 3 * hh]
    requires s[x + 4 * hh] == s0[x + 4 * hh] && s[x + 5 * hh] == s0[x + 5 * hh] && s[x + 6 * hh] == s0[x + 6 * hh]
    ensures CookedAt(r, s, x, hh) == CookedAt(r, s0, x, hh)
  {
  }

  /** One cell of a quadrant. */
  method CellAssemble(mem: array<int>, d: int, x: int, hh: int, r: Recipe)
    requires 0 <= d < mem.Length && 0 <= x && 0 <= hh && x + 6 * hh < mem.Length
    modifies mem
    ensures Frame(old(mem[..]), mem[..], d, d + 1)
    ensures mem[d] == CookedAt(r, old(mem[..]), x, hh)
  {
    mem[d] := (if r.k1 == 0 then 0 else Term(r.k1, mem[x])) + (if r.k2 == 0 then 0 else Term(r.k2, mem[x + hh]))
            + (if r.k3 == 0 then 0 else Term(r.k3, mem[x + 2 * hh]))
              + (if r.k4 == 0 then 0 else Term(r.k4, mem[x + 3 * hh]))
            + (if r.k5 == 0 then 0 else Term(r.k5, mem[x + 4 * hh]))
              + (if r.k6 == 0 then 0 else Term(r.k6, mem[x + 5 * hh]))
            + (if r.k7 == 0 then 0 else Term(r.k7, mem[x + 6 * hh]));
  }

  /** One row of a quadrant, with the index into the products running along. */
  method RowAssemble(mem: array<int>, d: int, pIndex: int, hh: int, cols: int, r: Recipe, i: int, ghost v: Mat)
    requires 0 <= cols && 0 <= hh && 0 <= d && d + cols <= mem.Length
    requires 0 <= pIndex && pIndex + cols + 6 * hh <= mem.Length
    requires Disjoint(d, d + cols, pIndex, pIndex + cols + 6 * hh)
    requires forall k :: 0 <= k < cols ==> CookedAt(r, mem[..], pIndex + k, hh) == v(i, k)
    modifies mem
    ensures Frame(old(mem[..]), mem[..], d, d + cols)
    ensures forall x :: d <= x < d + cols ==> mem[x] == v(i, x - d)
  {
    ghost var s0 := mem[..];
    var x := pIndex;
    var iy := 0;
    while iy < cols
      invariant 0 <= iy <= cols && x == pIndex + iy
      invariant Frame(s0, mem[..], d, d + iy)
      invariant forall x :: d <= x < d + iy ==> mem[x] == v(i, x - d)
    {
      SameCooked(r, s0, mem[..], x, hh);
      assert CookedAt(r, s0, pIndex + iy, hh) == v(i, iy);
      CellAssemble(mem, d + iy, x, hh, r);
      x := x + 1;
      iy := iy + 1;
    }
  }

  /** Rows [di, di + rows), columns [dj, dj + cols) of the n by n block at C hold v. */
  ghost predicate HoldsAt(s: seq<int>, C: int, n: int, di: int, dj: int, rows: int, cols: int, v: Mat) {
    forall i, j :: 0 <= i < rows && 0 <= j < cols ==> Cell(s, C, n, i + di, j + dj) == v(i, j)
  }

  lemma HoldsAtNextRow(s: seq<int>, t: seq<int>, C: int, height: int, n: int, di: int, dj: int, i: int, cols: int,
                       v: Mat, d: int)
    requires 0 <= di && 0 <= i && di + i < height && 0 <= dj && dj + cols <= n
    requires d == C + (i + di) * n + dj && 0 <= d && d + cols <= |t|
    requires HoldsAt(s, C, n, di, dj, i, cols, v)
    requires OnlyRect(s, t, C, height, n, i + di, i + di + 1, dj, dj + cols)
    requires forall x :: d <= x < d + cols ==> t[x] == v(i, x - d)
    ensures HoldsAt(t, C, n, di, dj, i + 1, cols, v)
  {
    forall i', j | 0 <= i' < i && 0 <= j < cols
      ensures Cell(t, C, n, i' + di, j + dj) == v(i', j)
    {
      assert Cell(s, C, n, i' + di, j + dj) == v(i', j);
    }
    QuadrantGains(t, C, n, di, dj, i, cols, v, d);
  }

  lemma RowOfRect(C: int, height: int, n: int, i: int, j: int, cols: int)
    requires 0 <= i < height && 0 <= j && 0 <= cols && j + cols <= n
    ensures C <= C + i * n + j && C + i * n + j + cols <= C + height * n
  {
    RowBound(i, height, n);
  }

  /** One row of a quadrant: the body of the assembling loops. */
  method AssembleRow(mem: array<int>, C: int, height: int, n: int, di: int, dj: int, cols: int, ix: int, d: int, x: int,
                     hh: int, r: Recipe, ghost v: Mat)
    requires 0 <= di && 0 <= ix && ix + di < height && 0 <= dj && 0 <= cols && dj + cols <= n
    requires d == C + (ix + di) * n + dj && 0 <= d && d + cols <= mem.Length
    requires 0 <= x && 0 <= hh && x + cols + 6 * hh <= mem.Length && Disjoint(d, d + cols, x, x + cols + 6 * hh)
    requires forall k :: 0 <= k < cols ==> CookedAt(r, mem[..], x + k, hh) == v(ix, k)
    requires HoldsAt(mem[..], C, n, di, dj, ix, cols, v)
    modifies mem
    ensures OnlyRect(old(mem[..]), mem[..], C, height, n, ix + di, ix + di + 1, dj, dj + cols)
    ensures HoldsAt(mem[..], C, n, di, dj, ix + 1, cols, v)
  {
    ghost var s := mem[..];
    RowAssemble(mem, d, x, hh, cols, r, ix, v);
    RowIsRect(s, mem[..], C, height, n, ix + di, dj, dj + cols, d, d + cols);
    HoldsAtNextRow(s, mem[..], C, height, n, di, dj, ix, cols, v, d);
  }

  /** One quadrant of a height by n result, limited to rows by cols. */
  method Assemble(mem: array<int>, C: int, height: int, n: int, p: int, h: int, di: int, dj: int, rows: int, cols: int,
                  r: Recipe, ghost v: Mat)
    requires 0 <= di && di + rows <= height && 0 <= dj && dj + cols <= n && rows <= h && cols <= h && 0 <= h
    requires 0 <= C && C + height * n <= mem.Length
    requires 0 <= p && p + 7 * (h * h) <= mem.Length && Disjoint(C, C + height * n, p, p + 7 * (h * h))
    requires Promised(mem[..], p, h, rows, cols, r, v)
    modifies mem
    ensures OnlyRect(old(mem[..]), mem[..], C, height, n, di, di + rows, dj, dj + cols)
    ensures HoldsAt(mem[..], C, n, di, dj, rows, cols, v)
  {
    if cols <= 0 {
      return;
    }
    ghost var s0 := mem[..];
    var ix := 0;
    while ix < rows
      invariant 0 <= ix <= Max(0, rows)
      invariant OnlyRect(s0, mem[..], C, height, n, di, di + rows, dj, dj + cols)
      invariant HoldsAt(mem[..], C, n, di, dj, ix, cols, v)
    {
      ghost var s := mem[..];
      RowPromise(s0, s, p, h, rows, cols, r, v, ix);
      RowOfRect(C, height, n, ix + di, dj, cols);
      AssembleRow(mem, C, height, n, di, dj, cols, ix, C + (ix + di) * n + dj, p + ix * h, h * h, r, v);
      RectTrans(s0, s, mem[..], C, height, n, di, di + rows, dj, dj + cols, ix + di, ix + di + 1, dj, dj + cols);
      ix := ix + 1;
    }
  }

  // ----- all four quadrants in one nest -----

  /** The values the four quadrants get from running index x of the products. */
  ghost predicate FourValues(s: seq<int>, x: int, hh: int, e11: int, e12: int, e21: int, e22: int)
    requires 0 <= x && 0 <= hh && x + 6 * hh < |s|
  {
    CookedAt(C11, s, x, hh) == e11 && CookedAt(C12, s, x, hh) == e12
    && CookedAt(C21, s, x, hh) == e21 && CookedAt(C22, s, x, hh) == e22
  }

  /** The four cells of one step. */
  method FourCells(mem: array<int>, c: int, x: int, h: int, hh: int, hm: int, ghost s0: seq<int>,
                   ghost e11: int, ghost e12: int, ghost e21: int, ghost e22: int)
    requires 0 < h && 2 * h <= hm && 0 <= c && c + hm + h < mem.Length
    requires 0 <= x && 0 <= hh && x + 6 * hh < mem.Length == |s0|
    requires Disjoint(c, c + hm + h + 1, x, x + 6 * hh + 1)
    requires forall y :: x <= y <= x + 6 * hh ==> mem[y] == s0[y]
    requires FourValues(s0, x, hh, e11, e12, e21, e22)
    modifies mem
    ensures forall y :: 0 <= y < mem.Length && y != c && y != c + h && y != c + hm && y != c + hm + h
              ==> mem[y] == old(mem[y])
    ensures FourDone(mem[..], c, h, hm, e11, e12, e21, e22)
  {
    mem[c] := mem[x] + mem[x + 3 * hh] - mem[x + 4 * hh] + mem[x + 6 * hh];
    mem[c + h] := mem[x + 2 * hh] + mem[x + 4 * hh];
    mem[c + hm] := mem[x + hh] + mem[x + 3 * hh];
    mem[c + hm + h] := mem[x] + mem[x + 2 * hh] - mem[x + hh] + mem[x + 5 * hh];
  }

  ghost predicate FourDone(s: seq<int>, c: int, h: int, hm: int, e11: int, e12: int, e21: int, e22: int)
    requires 0 <= h && 0 <= hm && 0 <= c && c + hm + h < |s|
  {
    s[c] == e11 && s[c + h] == e12 && s[c + hm] == e21 && s[c + hm + h] == e22
  }

  /** Steps below n of a row are done, and nothing else is changed. */
  ghost predicate RowSoFar(s0: seq<int>, s: seq<int>, d: int, n: int, h: int, hm: int, i: int,
                           v11: Mat, v12: Mat, v21: Mat, v22: Mat)
    requires 0 <= n <= h && 0 <= hm && 0 <= d && d + hm + 2 * h <= |s| == |s0|
  {
    && (forall x :: (0 <= x < |s| && !(d <= x < d + n) && !(d + h <= x < d + h + n)
                     && !(d + hm <= x < d + hm + n) && !(d + hm + h <= x < d + hm + h + n)) ==> s[x] == s0[x])
    && (forall k :: 0 <= k < n ==> FourDone(s, d + k, h, hm, v11(i, k), v12(i, k), v21(i, k), v22(i, k)))
  }

  lemma RowStep(s0: seq<int>, s: seq<int>, t: seq<int>, d: int, n: int, h: int, hm: int, i: int,
                v11: Mat, v12: Mat, v21: Mat, v22: Mat)
    requires 0 <= n < h && 2 * h <= hm && 0 <= d && d + hm + 2 * h <= |s| == |s0| == |t|
    requires RowSoFar(s0, s, d, n, h, hm, i, v11, v12, v21, v22)
    requires forall y :: 0 <= y < |t| && y != d + n && y != d + n + h && y != d + n + hm && y != d + n + hm + h
               ==> t[y] == s[y]
    requires FourDone(t, d + n, h, hm, v11(i, n), v12(i, n), v21(i, n), v22(i, n))
    ensures RowSoFar(s0, t, d, n + 1, h, hm, i, v11, v12, v21, v22)
  {
    forall k | 0 <= k < n
      ensures FourDone(t, d + k, h, hm, v11(i, k), v12(i, k), v21(i, k), v22(i, k))
    {
      assert FourDone(s, d + k, h, hm, v11(i, k), v12(i, k), v21(i, k), v22(i, k));
    }
  }

  /** One row of all four quadrants: four cells per step, both indices running. */
  method RowAssembleAll(mem: array<int>, d: int, pIndex: int, h: int, hh: int, hm: int, i: int,
                        ghost v11: Mat, ghost v12: Mat, ghost v21: Mat, ghost v22: Mat) returns (next: int)
    requires 0 <= h && 0 <= hh && 2 * h <= hm && 0 <= d && d + hm + 2 * h <= mem.Length
    requires 0 <= pIndex && pIndex + h + 6 * hh <= mem.Length
    requires Disjoint(d, d + hm + 2 * h, pIndex, pIndex + h + 6 * hh)
    requires forall k :: 0 <= k < h ==> FourValues(mem[..], pIndex + k, hh, v11(i, k), v12(i, k), v21(i, k), v22(i, k))
    modifies mem
    ensures next == pIndex + h
    ensures RowSoFar(old(mem[..]), mem[..], d, h, h, hm, i, v11, v12, v21, v22)
  {
    ghost var s0 := mem[..];
    next := pIndex;
    var cIndex := d;
    var iy := 0;
    while iy < h
      invariant 0 <= iy <= h && next == pIndex + iy && cIndex == d + iy
      invariant RowSoFar(s0, mem[..], d, iy, h, hm, i, v11, v12, v21, v22)
    {
      ghost var s := mem[..];
      FourCells(mem, cIndex, next, h, hh, hm, s0, v11(i, iy), v12(i, iy), v21(i, iy), v22(i, iy));
      RowStep(s0, s, mem[..], d, iy, h, hm, i, v11, v12, v21, v22);
      cIndex := cIndex + 1;
      next := next + 1;
      iy := iy + 1;
    }
  }

  /** Rows u and w of the block are new; a quadrant that has neither keeps what it holds. */
  lemma QuadrantKept(s: seq<int>, t: seq<int>, C: int, n: int, u: int, w: int, du: int, dw: int,
                     di: int, dj: int, rows: int, cols: int, v: Mat)
    requires 0 <= u && 0 <= w && 0 <= di && 0 <= dj && dj + cols <= n
    requires di + rows <= w && (di + rows <= u || u < di)
    requires du == C + u * n && dw == C + w * n && |s| == |t|
    requires forall x :: 0 <= x < |s| && !(du <= x < du + n) && !(dw <= x < dw + n) ==> t[x] == s[x]
    requires HoldsAt(s, C, n, di, dj, rows, cols, v)
    ensures HoldsAt(t, C, n, di, dj, rows, cols, v)
  {
    forall i, j | 0 <= i < rows && 0 <= j < cols
      ensures Cell(t, C, n, i + di, j + dj) == v(i, j)
    {
      assert Cell(s, C, n, i + di, j + dj) == v(i, j);
      KeptCell(s, t, C, n, u, w, du, dw, i + di, j + dj);
    }
  }

  lemma QuadrantGains(t: seq<int>, C: int, n: int, di: int, dj: int, ix: int, cols: int, v: Mat, e: int)
    requires 0 <= ix && 0 <= e && e + cols <= |t| && e == C + (ix + di) * n + dj
    requires forall x :: e <= x < e + cols ==> t[x] == v(ix, x - e)
    requires HoldsAt(t, C, n, di, dj, ix, cols, v)
    ensures HoldsAt(t, C, n, di, dj, ix + 1, cols, v)
  {
    forall i, j | 0 <= i < ix + 1 && 0 <= j < cols
      ensures Cell(t, C, n, i + di, j + dj) == v(i, j)
    {
      if i == ix {
        assert t[e + j] == v(ix, j);
      } else {
        assert Cell(t, C, n, i + di, j + dj) == v(i, j);
      }
    }
  }

  /** Rows other than the two written ones keep their cells. */
  lemma KeptCell(s: seq<int>, t: seq<int>, C: int, n: int, u: int, w: int, du: int, dw: int, i: int, j: int)
    requires 0 <= u && 0 <= w && 0 <= i && 0 <= j < n && i != u && i != w
    requires du == C + u * n && dw == C + w * n && |s| == |t|
    requires forall x :: 0 <= x < |s| && !(du <= x < du + n) && !(dw <= x < dw + n) ==> t[x] == s[x]
    ensures Cell(t, C, n, i, j) == Cell(s, C, n, i, j)
  {
    RowsApart(i, u, n);
    RowsApart(i, w, n);
  }

  lemma AllGain(s: seq<int>, t: seq<int>, C: int, n: int, h: int, ix: int, d: int, hm: int,
                v11: Mat, v12: Mat, v21: Mat, v22: Mat, e12: int, dw: int, e22: int)
    requires 2 * h <= n && 0 <= ix < h && d == C + ix * n && dw == C + (ix + h) * n
    requires 0 <= d && 0 <= hm && dw == d + hm && dw + n <= |t| == |s| && e12 == d + h && e22 == dw + h
    requires RowSoFar(s, t, d, h, h, hm, ix, v11, v12, v21, v22)
    requires HoldsAt(s, C, n, 0, 0, ix, h, v11) && HoldsAt(s, C, n, 0, h, ix, h, v12)
    requires HoldsAt(s, C, n, h, 0, ix, h, v21) && HoldsAt(s, C, n, h, h, ix, h, v22)
    ensures HoldsAt(t, C, n, 0, 0, ix + 1, h, v11) && HoldsAt(t, C, n, 0, h, ix + 1, h, v12)
    ensures HoldsAt(t, C, n, h, 0, ix + 1, h, v21) && HoldsAt(t, C, n, h, h, ix + 1, h, v22)
  {
    RowValues(s, t, d, n, h, hm, ix, v11, v12, v21, v22, e12, dw, e22);
    OneGains(s, t, C, n, h, ix, d, dw, 0, 0, v11, d);
    OneGains(s, t, C, n, h, ix, d, dw, 0, h, v12, e12);
    OneGains(s, t, C, n, h, ix, d, dw, h, 0, v21, dw);
    OneGains(s, t, C, n, h, ix, d, dw, h, h, v22, e22);
  }

  lemma OneGains(s: seq<int>, t: seq<int>, C: int, n: int, h: int, ix: int, du: int, dw: int, di: int, dj: int, v: Mat,
                 e: int)
    requires 0 <= ix < h && (di == 0 || di == h) && 0 <= dj && dj + h <= n
    requires du == C + ix * n && dw == C + (ix + h) * n && e == (if di == 0 then du else dw) + dj
    requires 0 <= du && du <= dw && dw + n <= |t| == |s|
    requires forall x :: 0 <= x < |s| && !(du <= x < du + n) && !(dw <= x < dw + n) ==> t[x] == s[x]
    requires forall x :: e <= x < e + h ==> t[x] == v(ix, x - e)
    requires HoldsAt(s, C, n, di, dj, ix, h, v)
    ensures HoldsAt(t, C, n, di, dj, ix + 1, h, v)
  {
    QuadrantKept(s, t, C, n, ix, ix + h, du, dw, di, dj, ix, h, v);
    QuadrantGains(t, C, n, di, dj, ix, h, v, e);
  }

  lemma RowValues(s: seq<int>, t: seq<int>, d: int, n: int, h: int, hm: int, i: int,
                  v11: Mat, v12: Mat, v21: Mat, v22: Mat, e12: int, dw: int, e22: int)
    requires 0 <= h && 0 <= hm && 0 <= d && d + hm + 2 * h <= |t| == |s| && 2 * h <= n
    requires dw == d + hm && e12 == d + h && e22 == dw + h
    requires RowSoFar(s, t, d, h, h, hm, i, v11, v12, v21, v22)
    ensures forall x :: 0 <= x < |s| && !(d <= x < d + n) && !(dw <= x < dw + n) ==> t[x] == s[x]
    ensures forall x :: d <= x < d + h ==> t[x] == v11(i, x - d)
    ensures forall x :: e12 <= x < e12 + h ==> t[x] == v12(i, x - e12)
    ensures forall x :: dw <= x < dw + h ==> t[x] == v21(i, x - dw)
    ensures forall x :: e22 <= x < e22 + h ==> t[x] == v22(i, x - e22)
  {
    RowQuarter(s, t, d, h, hm, i, v11, v12, v21, v22, d, v11);
    RowQuarter(s, t, d, h, hm, i, v11, v12, v21, v22, e12, v12);
    RowQuarter(s, t, d, h, hm, i, v11, v12, v21, v22, dw, v21);
    RowQuarter(s, t, d, h, hm, i, v11, v12, v21, v22, e22, v22);
  }

  /** One of the four pieces of a row, from its first cell on. */
  lemma RowQuarter(s: seq<int>, t: seq<int>, d: int, h: int, hm: int, i: int,
                   v11: Mat, v12: Mat, v21: Mat, v22: Mat, from: int, v: Mat)
    requires 0 <= h && 0 <= hm && 0 <= d && d + hm + 2 * h <= |t| == |s|
    requires RowSoFar(s, t, d, h, h, hm, i, v11, v12, v21, v22)
    requires (from == d && v == v11) || (from == d + h && v == v12) || (from == d + hm && v == v21)
        || (from == d + hm + h && v == v22)
    ensures forall x :: from <= x < from + h ==> t[x] == v(i, x - from)
  {
    forall x | from <= x < from + h ensures t[x] == v(i, x - from) {
      RowValue(s, t, d, h, hm, i, v11, v12, v21, v22, x - from);
    }
  }

  lemma RowValue(s: seq<int>, t: seq<int>, d: int, h: int, hm: int, i: int,
                 v11: Mat, v12: Mat, v21: Mat, v22: Mat, k: int)
    requires 0 <= k < h && 0 <= hm && 0 <= d && d + hm + 2 * h <= |t| == |s|
    requires RowSoFar(s, t, d, h, h, hm, i, v11, v12, v21, v22)
    ensures t[d + k] == v11(i, k) && t[d + k + h] == v12(i, k) && t[d + k + hm] == v21(i, k)
        && t[d + k + hm + h] == v22(i, k)
  {
    assert FourDone(t, d + k, h, hm, v11(i, k), v12(i, k), v21(i, k), v22(i, k));
  }

  /** The promises of the four quadrants, read at row i's running index. */
  lemma RowPromises(s0: seq<int>, s: seq<int>, p: int, h: int, v11: Mat, v12: Mat, v21: Mat, v22: Mat, i: int, hh: int,
                    x: int)
    requires Promised(s0, p, h, h, h, C11, v11) && Promised(s0, p, h, h, h, C12, v12)
    requires Promised(s0, p, h, h, h, C21, v21) && Promised(s0, p, h, h, h, C22, v22)
    requires 0 <= i < h && hh == h * h && x == p + i * h
    requires 0 <= p && p + 7 * hh <= |s0| == |s|
    requires forall y :: p <= y < p + 7 * hh ==> s[y] == s0[y]
    ensures p <= x && x + h <= p + hh
    ensures forall k :: 0 <= k < h ==> FourValues(s, x + k, hh, v11(i, k), v12(i, k), v21(i, k), v22(i, k))
  {
    RowPromise(s0, s, p, h, h, h, C11, v11, i);
    RowPromise(s0, s, p, h, h, h, C12, v12, i);
    RowPromise(s0, s, p, h, h, h, C21, v21, i);
    RowPromise(s0, s, p, h, h, h, C22, v22, i);
    forall k | 0 <= k < h
      ensures FourValues(s, x + k, hh, v11(i, k), v12(i, k), v21(i, k), v22(i, k))
    {
      assert CookedAt(C11, s, p + i * h + k, h * h) == v11(i, k);
      assert CookedAt(C12, s, p + i * h + k, h * h) == v12(i, k);
      assert CookedAt(C21, s, p + i * h + k, h * h) == v21(i, k);
      assert CookedAt(C22, s, p + i * h + k, h * h) == v22(i, k);
    }
  }

  /** Rows ix and ix + h of the 2h by 2h block at C. */
  lemma TwoRows(C: int, h: int, n: int, ix: int, hm: int)
    requires 0 <= ix < h && n == 2 * h && hm == h * n
    ensures C <= C + ix * n && C + ix * n + hm == C + (ix + h) * n && C + (ix + h) * n + n <= C + n * n
    ensures 2 * h <= hm
  {
    assert (ix + h) * n == ix * n + h * n;
    RowBound(ix, n, n);
    RowBound(ix + h, n, n);
    RowBound(0, h, n);
  }

  method AssembleAll(mem: array<int>, C: int, n: int, p: int, h: int,
                     ghost v11: Mat, ghost v12: Mat, ghost v21: Mat, ghost v22: Mat)
    requires 0 <= h && n == 2 * h && 0 <= C && C + n * n <= mem.Length
    requires 0 <= p && p + 7 * (h * h) <= mem.Length && Disjoint(C, C + n * n, p, p + 7 * (h * h))
    requires Promised(mem[..], p, h, h, h, C11, v11) && Promised(mem[..], p, h, h, h, C12, v12)
    requires Promised(mem[..], p, h, h, h, C21, v21) && Promised(mem[..], p, h, h, h, C22, v22)
    modifies mem
    ensures Frame(old(mem[..]), mem[..], C, C + n * n)
    ensures HoldsAt(mem[..], C, n, 0, 0, h, h, v11) && HoldsAt(mem[..], C, n, 0, h, h, h, v12)
    ensures HoldsAt(mem[..], C, n, h, 0, h, h, v21) && HoldsAt(mem[..], C, n, h, h, h, h, v22)
  {
    ghost var s0 := mem[..];
    var pIndex, hh, hm := p, h * h, h * n;
    var ix := 0;
    while ix < h
      invariant 0 <= ix <= h && pIndex == p + ix * h
      invariant Frame(s0, mem[..], C, C + n * n)
      invariant HoldsAt(mem[..], C, n, 0, 0, ix, h, v11) && HoldsAt(mem[..], C, n, 0, h, ix, h, v12)
      invariant HoldsAt(mem[..], C, n, h, 0, ix, h, v21) && HoldsAt(mem[..], C, n, h, h, ix, h, v22)
    {
      ghost var s := mem[..];
      TwoRows(C, h, n, ix, hm);
      RowPromises(s0, s, p, h, v11, v12, v21, v22, ix, hh, pIndex);
      pIndex :=
        AssembleTwoRows(mem, C, n, C + n * n, h, hh, hm, ix, C + ix * n, C + (ix + h) * n, pIndex, v11, v12, v21, v22);
      assert (ix + 1) * h == ix * h + h;
      ix := ix + 1;
    }
  }

  method AssembleTwoRows(mem: array<int>, C: int, n: int, end: int, h: int, hh: int, hm: int, ix: int, d: int, dw: int,
                         pIndex: int, ghost v11: Mat, ghost v12: Mat, ghost v21: Mat, ghost v22: Mat)
    returns (next: int)
    requires 0 <= ix < h && 2 * h == n && d == C + ix * n && dw == C + (ix + h) * n && dw == d + hm
    requires 0 <= C <= d && 2 * h <= hm && dw + n <= end <= mem.Length
    requires 0 <= hh && 0 <= pIndex && pIndex + h + 6 * hh <= mem.Length
        && Disjoint(C, end, pIndex, pIndex + h + 6 * hh)
    requires forall k :: 0 <= k < h
               ==> FourValues(mem[..], pIndex + k, hh, v11(ix, k), v12(ix, k), v21(ix, k), v22(ix, k))
    requires HoldsAt(mem[..], C, n, 0, 0, ix, h, v11) && HoldsAt(mem[..], C, n, 0, h, ix, h, v12)
    requires HoldsAt(mem[..], C, n, h, 0, ix, h, v21) && HoldsAt(mem[..], C, n, h, h, ix, h, v22)
    modifies mem
    ensures next == pIndex + h
    ensures Frame(old(mem[..]), mem[..], C, end)
    ensures HoldsAt(mem[..], C, n, 0, 0, ix + 1, h, v11) && HoldsAt(mem[..], C, n, 0, h, ix + 1, h, v12)
    ensures HoldsAt(mem[..], C, n, h, 0, ix + 1, h, v21) && HoldsAt(mem[..], C, n, h, h, ix + 1, h, v22)
  {
    ghost var s := mem[..];
    next := RowAssembleAll(mem, d, pIndex, h, hh, hm, ix, v11, v12, v21, v22);
    AllGain(s, mem[..], C, n, h, ix, d, hm, v11, v12, v21, v22, d + h, dw, dw + h);
  }
}
