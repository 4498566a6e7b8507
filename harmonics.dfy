/**
 * The solid spherical harmonics engine of autofunc/harmonics.py (class
 * SolSphHarm), for one input direction (x, y, z), over exact reals.
 *
 * The backend's square root enters as a function constrained on the
 * non-negative reals by its square (`IsSqrt`); pi and the backend's machine
 * epsilon enter as inputs. The NaN placeholders the source keeps in its
 * coefficient lists are the `NaN` case of `Cell`.
 */
module Harmonics {

  /** A list slot that holds either the source's NaN placeholder or a value. */
  datatype Cell<T> = NaN | Val(v: T)

  /** The backend's square root: exact on the non-negative reals. */
  ghost predicate IsSqrt(sqrt: real -> real)
  {
    forall x: real :: RootAt(sqrt, x)
  }

  ghost predicate RootAt(sqrt: real -> real, x: real)
  {
    0.0 <= x ==> 0.0 <= sqrt(x) && sqrt(x) * sqrt(x) == x
  }

  function Max(i: int, j: int): int
  {
    if i < j then j else i
  }

  function AbsDiff(i: int, j: int): nat
  {
    if i < j then j - i else i - j
  }

  // ---------------------------------------------------------------------
  // Coefficient tables (_init_alp)
  // ---------------------------------------------------------------------

  lemma DifferenceOfSquaresPositive(l: int, m: int)
    requires 0 <= m < l
    ensures 0 < l * l - m * m
  {
    assert m * m <= m * l;
    assert m * l < l * l;
  }

  lemma OddDenominatorPositive(k: int)
    requires 1 <= k
    ensures 0 < 4 * (k * k) - 1
  {
    assert k * k >= k * 1;
  }

  /** Radicand of the a-coefficient of degree l and order m. */
  function ARadicand(l: int, m: int): real
    requires 0 <= m < l
  {
    DifferenceOfSquaresPositive(l, m);
    (4 * (l * l) - 1) as real / (l * l - m * m) as real
  }

  /** Radicand (before the sign) of the b-coefficient of degree l and order m. */
  function BRadicand(l: int, m: int): real
    requires 2 <= l
  {
    OddDenominatorPositive(l - 1);
    ((l - 1) * (l - 1) - m * m) as real / (4 * ((l - 1) * (l - 1)) - 1) as real
  }

  /** Radicand of the c-coefficient of degree l. */
  function CRadicand(l: int): real
  {
    (2 * l + 1) as real
  }

  /** Radicand (before the sign) of the d-coefficient of degree l. */
  function DRadicand(l: int): real
    requires 1 <= l
  {
    1.0 + 1.0 / (2 * l) as real
  }

  /** The a-coefficients of degree l, one per order m = 0 .. l-2. */
  function ARow(sqrt: real -> real, l: int): seq<real>
    requires 2 <= l
  {
    seq(l - 1, m requires 0 <= m < l - 1 => sqrt(ARadicand(l, m)))
  }

  /** The b-coefficients of degree l, one per order m = 0 .. l-2. */
  function BRow(sqrt: real -> real, l: int): seq<real>
    requires 2 <= l
  {
    seq(l - 1, m requires 0 <= m < l - 1 => -sqrt(BRadicand(l, m)))
  }

  /** The four coefficient lists `_al`, `_bl`, `_cl`, `_dl`, indexed by degree. */
  datatype Tables = Tables(a: seq<Cell<seq<real>>>, b: seq<Cell<seq<real>>>, c: seq<real>, d: seq<Cell<real>>)

  /** What `_init_alp` stores: the seeds at degrees 0 and 1, then the general entries. */
  predicate IsTables(t: Tables, lmax: nat, sqrt: real -> real)
  {
    var n := Max(2, lmax + 1);
    |t.a| == n && |t.b| == n && |t.c| == n && |t.d| == n &&
    t.a[0] == NaN && t.a[1] == NaN && t.b[0] == NaN && t.b[1] == NaN &&
    t.c[0] == 1.0 && t.c[1] == sqrt(3.0) && t.d[0] == NaN && t.d[1] == Val(-sqrt(1.5)) &&
    forall l :: 2 <= l < n ==>
      t.a[l] == Val(ARow(sqrt, l)) && t.b[l] == Val(BRow(sqrt, l)) &&
      t.c[l] == sqrt(CRadicand(l)) && t.d[l] == Val(-sqrt(DRadicand(l)))
  }

  /** The shape the recurrence relies on: a and b hold l-1 values from degree 2, d a value from degree 1. */
  predicate Shaped(t: Tables)
  {
    2 <= |t.c| && |t.a| == |t.c| && |t.b| == |t.c| && |t.d| == |t.c| &&
    (forall l :: 2 <= l < |t.a| ==> t.a[l].Val? && |t.a[l].v| == l - 1) &&
    (forall l :: 2 <= l < |t.b| ==> t.b[l].Val? && |t.b[l].v| == l - 1) &&
    (forall l :: 1 <= l < |t.d| ==> t.d[l].Val?)
  }

  method InitAlp(lmax: nat, sqrt: real -> real) returns (t: Tables)
    ensures IsTables(t, lmax, sqrt)
  {
    var a: seq<Cell<seq<real>>> := [NaN, NaN];
    var b: seq<Cell<seq<real>>> := [NaN, NaN];
    var c: seq<real> := [1.0, sqrt(3.0)];
    var d: seq<Cell<real>> := [NaN, Val(-sqrt(1.5))];
    var l := 2;
    while l <= lmax
      invariant 2 <= l <= Max(2, lmax + 1)
      invariant |a| == l && |b| == l && |c| == l && |d| == l
      invariant a[0] == NaN && a[1] == NaN && b[0] == NaN && b[1] == NaN
      invariant c[0] == 1.0 && c[1] == sqrt(3.0) && d[0] == NaN && d[1] == Val(-sqrt(1.5))
      invariant forall k :: 2 <= k < l ==>
        a[k] == Val(ARow(sqrt, k)) && b[k] == Val(BRow(sqrt, k)) &&
        c[k] == sqrt(CRadicand(k)) && d[k] == Val(-sqrt(DRadicand(k)))
    {
      var aa: seq<real> := [];
      var bb: seq<real> := [];
      var m := 0;
      while m < l - 1
        invariant 0 <= m <= l - 1
        invariant |aa| == m && |bb| == m
        invariant forall k :: 0 <= k < m ==> aa[k] == sqrt(ARadicand(l, k)) && bb[k] == -sqrt(BRadicand(l, k))
      {
        aa := aa + [sqrt(ARadicand(l, m))];
        bb := bb + [-sqrt(BRadicand(l, m))];
        m := m + 1;
      }
      assert aa == ARow(sqrt, l);
      assert bb == BRow(sqrt, l);
      a := a + [Val(aa)];
      b := b + [Val(bb)];
      c := c + [sqrt(CRadicand(l))];
      d := d + [Val(-sqrt(DRadicand(l)))];
      l := l + 1;
    }
    t := Tables(a, b, c, d);
  }

  lemma RadicandsAndDenominatorsPositive(l: int, m: int)
    requires 2 <= l && 0 <= m <= l - 2
    ensures 0 < l * l - m * m && 0 < 4 * ((l - 1) * (l - 1)) - 1
    ensures 0.0 < ARadicand(l, m) && 0.0 < BRadicand(l, m)
  {
    DifferenceOfSquaresPositive(l, m);
    DifferenceOfSquaresPositive(l - 1, m);
    OddDenominatorPositive(l - 1);
    RadicandsPositive(l, m);
  }

  /** The real-valued half of RadicandsAndDenominatorsPositive, kept free of integer products. */
  lemma RadicandsPositive(l: int, m: int)
    requires 2 <= l && 0 <= m <= l - 2
    ensures 0.0 < ARadicand(l, m) && 0.0 < BRadicand(l, m)
  {
    DifferenceOfSquaresPositive(l, m);
    DifferenceOfSquaresPositive(l - 1, m);
    OddDenominatorPositive(l - 1);
    QuotientPositive((4 * (l * l) - 1) as real, (l * l - m * m) as real);
    QuotientPositive(((l - 1) * (l - 1) - m * m) as real, (4 * ((l - 1) * (l - 1)) - 1) as real);
  }

  lemma QuotientPositive(p: real, q: real)
    requires 0.0 < p && 0.0 < q
    ensures 0.0 < p / q
  {
    assert (p / q) * q == p;
  }

  lemma RootOfPositive(sqrt: real -> real, x: real)
    requires IsSqrt(sqrt) && 0.0 < x
    ensures 0.0 < sqrt(x) && sqrt(x) * sqrt(x) == x
  {
    assert RootAt(sqrt, x);
  }

  /** Degree coefficients: c_l squared is 2l+1, d_l squared is 1 + 1/(2l) and d_l is negative, seeds included. */
  lemma DegreeCoefficients(t: Tables, lmax: nat, sqrt: real -> real)
    requires IsSqrt(sqrt) && IsTables(t, lmax, sqrt)
    ensures forall l :: 0 <= l < |t.c| ==> t.c[l] * t.c[l] == CRadicand(l)
    ensures forall l :: 1 <= l < |t.d| ==> t.d[l].Val? && t.d[l].v * t.d[l].v == DRadicand(l) && t.d[l].v < 0.0
  {
    forall l | 0 <= l < |t.c| ensures t.c[l] * t.c[l] == CRadicand(l) {
      if 1 <= l {
        RootOfPositive(sqrt, CRadicand(l));
      }
    }
    forall l | 1 <= l < |t.d| ensures t.d[l].Val? && t.d[l].v * t.d[l].v == DRadicand(l) && t.d[l].v < 0.0 {
      QuotientPositive(1.0, (2 * l) as real);
      RootOfPositive(sqrt, DRadicand(l));
    }
  }

  /** The stored tables have the shape the recurrence reads. */
  lemma TablesShaped(t: Tables, lmax: nat, sqrt: real -> real)
    requires IsTables(t, lmax, sqrt)
    ensures Shaped(t) && |t.c| == Max(2, lmax + 1)
  {
  }

  /** Recurrence coefficients: a_lm is the positive root of its radicand, b_lm the negative one. */
  lemma RecurrenceCoefficients(t: Tables, lmax: nat, sqrt: real -> real, l: int, m: int)
    requires IsSqrt(sqrt) && IsTables(t, lmax, sqrt)
    requires 2 <= l < |t.a| && 0 <= m < l - 1
    ensures t.a[l].Val? && t.b[l].Val? && m < |t.a[l].v| && m < |t.b[l].v|
    ensures var a := t.a[l].v[m]; 0.0 < a && a * a == ARadicand(l, m)
    ensures var b := t.b[l].v[m]; b < 0.0 && b * b == BRadicand(l, m)
  {
    RadicandsPositive(l, m);
    assert t.a[l] == Val(ARow(sqrt, l)) && t.b[l] == Val(BRow(sqrt, l));
    PositiveRootEntry(sqrt, ARow(sqrt, l), l, m, ARadicand(l, m));
    PositiveRootEntry(sqrt, BRow(sqrt, l), l, m, BRadicand(l, m));
  }

  lemma PositiveRootEntry(sqrt: real -> real, row: seq<real>, l: int, m: int, x: real)
    requires IsSqrt(sqrt) && 0.0 < x && 0 <= m < |row|
    requires row[m] == sqrt(x) || row[m] == -sqrt(x)
    ensures row[m] * row[m] == x && (row[m] == sqrt(x) ==> 0.0 < row[m]) && (row[m] == -sqrt(x) ==> row[m] < 0.0)
  {
    RootOfPositive(sqrt, x);
  }

  // ---------------------------------------------------------------------
  // Index grids (_init_lms) and the coefficient grid (_init_coef)
  // ---------------------------------------------------------------------

  function SignOf(i: int, j: int): int
  {
    if j < i then -1 else 1
  }

  /** The three (lmax+1) x (lmax+1) grids: degree max(i,j), order |i-j|, and -1 strictly below the diagonal. */
  predicate IsLms(lGrid: array2<int>, mGrid: array2<int>, sign: array2<int>, lmax: nat)
    reads lGrid, mGrid, sign
  {
    lGrid.Length0 == lmax + 1 && lGrid.Length1 == lmax + 1 &&
    mGrid.Length0 == lmax + 1 && mGrid.Length1 == lmax + 1 &&
    sign.Length0 == lmax + 1 && sign.Length1 == lmax + 1 &&
    forall i, j :: 0 <= i <= lmax && 0 <= j <= lmax ==>
      lGrid[i, j] == Max(i, j) && mGrid[i, j] == AbsDiff(i, j) && sign[i, j] == SignOf(i, j)
  }

  method InitLms(lmax: nat) returns (lGrid: array2<int>, mGrid: array2<int>, sign: array2<int>)
    ensures fresh(lGrid) && fresh(mGrid) && fresh(sign)
    ensures IsLms(lGrid, mGrid, sign, lmax)
  {
    var n := lmax + 1;
    lGrid := new int[n, n];
    mGrid := new int[n, n];
    sign := new int[n, n];
    var i := 0;
    while i < n
      invariant 0 <= i <= n
      invariant forall r, c :: 0 <= r < n && 0 <= c < n && Max(r, c) < i ==> lGrid[r, c] == Max(r, c)
      invariant forall r, c :: 0 <= r < n && 0 <= c < n && (r < i || c < i) ==> mGrid[r, c] == AbsDiff(r, c)
      invariant forall r, c :: 0 <= r < i && 0 <= c < n ==> sign[r, c] == SignOf(r, c)
    {
      FillDegreeShell(lGrid, i);
      FillOrderShell(mGrid, i);
      FillSignRow(sign, i);
      i := i + 1;
    }
  }

  /** Iteration i on the degree grid: column i above the diagonal, then row i up to it, become i. */
  method FillDegreeShell(lGrid: array2<int>, i: int)
    requires lGrid.Length0 == lGrid.Length1 && 0 <= i < lGrid.Length0
    modifies lGrid
    ensures forall r, c :: 0 <= r < lGrid.Length0 && 0 <= c < lGrid.Length1 ==>
      lGrid[r, c] == if Max(r, c) == i then i else old(lGrid[r, c])
  {
    var r := 0;
    while r < i
      invariant 0 <= r <= i
      invariant forall r', c :: 0 <= r' < lGrid.Length0 && 0 <= c < lGrid.Length1 ==>
        lGrid[r', c] == if c == i && r' < r then i else old(lGrid[r', c])
    {
      lGrid[r, i] := i;
      r := r + 1;
    }
    var c := 0;
    while c <= i
      invariant 0 <= c <= i + 1
      invariant forall r', c' :: 0 <= r' < lGrid.Length0 && 0 <= c' < lGrid.Length1 ==>
        lGrid[r', c'] == if (c' == i && r' < i) || (r' == i && c' < c) then i else old(lGrid[r', c'])
    {
      lGrid[i, c] := i;
      c := c + 1;
    }
  }

  /** Iteration i on the order grid: row i and column i from the diagonal on hold the distance to it. */
  method FillOrderShell(mGrid: array2<int>, i: int)
    requires mGrid.Length0 == mGrid.Length1 && 0 <= i < mGrid.Length0
    modifies mGrid
    ensures forall r, c :: 0 <= r < mGrid.Length0 && 0 <= c < mGrid.Length1 ==>
      mGrid[r, c] == if (r == i && i <= c) || (c == i && i <= r) then AbsDiff(r, c) else old(mGrid[r, c])
  {
    var j := 0;
    while j < mGrid.Length0 - i
      invariant 0 <= j <= mGrid.Length0 - i
      invariant forall r, c :: 0 <= r < mGrid.Length0 && 0 <= c < mGrid.Length1 ==>
        mGrid[r, c] == if (r == i && i <= c < i + j) || (c == i && i <= r < i + j) then AbsDiff(r, c) else old(mGrid[r, c])
    {
      mGrid[i, i + j] := j;
      mGrid[i + j, i] := j;
      j := j + 1;
    }
  }

  /** Iteration i on the sign grid: row i is -1 before the diagonal and +1 from it on. */
  method FillSignRow(sign: array2<int>, i: int)
    requires sign.Length0 == sign.Length1 && 0 <= i < sign.Length0
    modifies sign
    ensures forall r, c :: 0 <= r < sign.Length0 && 0 <= c < sign.Length1 ==>
      sign[r, c] == if r == i then SignOf(r, c) else old(sign[r, c])
  {
    var c := 0;
    while c < i
      invariant 0 <= c <= i
      invariant forall r', c' :: 0 <= r' < sign.Length0 && 0 <= c' < sign.Length1 ==>
        sign[r', c'] == if r' == i && c' < c then -1 else old(sign[r', c'])
    {
      sign[i, c] := -1;
      c := c + 1;
    }
    c := i;
    while c < sign.Length1
      invariant i <= c <= sign.Length1
      invariant forall r', c' :: 0 <= r' < sign.Length0 && 0 <= c' < sign.Length1 ==>
        sign[r', c'] == if r' == i && c' < i then -1 else if r' == i && i <= c' < c then 1 else old(sign[r', c'])
    {
      sign[i, c] := 1;
      c := c + 1;
    }
  }

  /** The radicand of `coef` at a grid cell of degree l and order m. */
  function CoefRadicand(l: int, m: int): real
  {
    ((l * l - m * m) * (2 * l + 1)) as real / (2 * l - 1) as real
  }

  /** `_init_coef`: the square root of the radicand grid with row 0 and column 0 sliced off. */
  function InitCoef(lGrid: array2<int>, mGrid: array2<int>, sqrt: real -> real): (coef: seq<seq<real>>)
    reads lGrid, mGrid
    requires 1 <= lGrid.Length0 && lGrid.Length1 == lGrid.Length0
    requires mGrid.Length0 == lGrid.Length0 && mGrid.Length1 == lGrid.Length0
    ensures |coef| == lGrid.Length0 - 1
    ensures forall i :: 0 <= i < |coef| ==> |coef[i]| == lGrid.Length0 - 1
  {
    var n := lGrid.Length0 - 1;
    seq(n, i requires 0 <= i < n reads lGrid, mGrid =>
      seq(n, j requires 0 <= j < n reads lGrid, mGrid =>
        sqrt(CoefRadicand(lGrid[i + 1, j + 1], mGrid[i + 1, j + 1]))))
  }

  /** On the sliced region (i, j >= 1) the denominator 2l-1 is positive and `coef` squares to a positive radicand. */
  lemma CoefWellDefined(lGrid: array2<int>, mGrid: array2<int>, sign: array2<int>, lmax: nat, sqrt: real -> real, i: int, j: int)
    requires IsSqrt(sqrt) && IsLms(lGrid, mGrid, sign, lmax)
    requires 1 <= i <= lmax && 1 <= j <= lmax
    ensures |InitCoef(lGrid, mGrid, sqrt)| == lmax
    ensures 0 < 2 * lGrid[i, j] - 1 && 0.0 < CoefRadicand(lGrid[i, j], mGrid[i, j])
    ensures var coef := InitCoef(lGrid, mGrid, sqrt);
      coef[i - 1][j - 1] * coef[i - 1][j - 1] == CoefRadicand(lGrid[i, j], mGrid[i, j])
  {
    var l, m := lGrid[i, j], mGrid[i, j];
    assert l == Max(i, j) && m == AbsDiff(i, j);
    CoefRadicandPositive(l, m);
    CoefEntry(lGrid, mGrid, sqrt, i, j);
    RootOfPositive(sqrt, CoefRadicand(l, m));
  }

  lemma CoefEntry(lGrid: array2<int>, mGrid: array2<int>, sqrt: real -> real, i: int, j: int)
    requires 1 <= lGrid.Length0 && lGrid.Length1 == lGrid.Length0
    requires mGrid.Length0 == lGrid.Length0 && mGrid.Length1 == lGrid.Length0
    requires 1 <= i < lGrid.Length0 && 1 <= j < lGrid.Length0
    ensures InitCoef(lGrid, mGrid, sqrt)[i - 1][j - 1] == sqrt(CoefRadicand(lGrid[i, j], mGrid[i, j]))
  {
  }

  /** Below the degree, the order keeps the radicand of `coef` positive. */
  lemma CoefRadicandPositive(l: int, m: int)
    requires 0 <= m < l
    ensures 0 < 2 * l - 1 && 0.0 < CoefRadicand(l, m)
  {
    DifferenceOfSquaresPositive(l, m);
    ProductPositive(l * l - m * m, 2 * l + 1);
    QuotientPositive(((l * l - m * m) * (2 * l + 1)) as real, (2 * l - 1) as real);
  }

  lemma ProductPositive(p: int, q: int)
    requires 0 < p && 0 < q
    ensures 0 < p * q
  {
    assert p * q >= 1 * q;
  }

  // ---------------------------------------------------------------------
  // Associated Legendre recurrence (__call__, step 2)
  // ---------------------------------------------------------------------

  /** A ragged triangle: row l holds l+1 entries, one per order m = 0 .. l. */
  predicate Triangle(rows: seq<seq<real>>)
  {
    forall l :: 0 <= l < |rows| ==> |rows[l]| == l + 1
  }

  /** The three-term step a * (z * p + r2 * b * o), from p in row l-1 and o in row l-2. */
  function ThreeTerm(a: real, b: real, z: real, r2: real, p: real, o: real): real
  {
    a * (z * p + r2 * b * o)
  }

  function Triple(u: real, v: real, w: real): real
  {
    u * v * w
  }

  /**
   * Row l = |rows| of the recurrence, built from rows l-1 and l-2: the
   * three-term step for m = 0 .. l-2, then the two entries derived from
   * the last entry of row l-1.
   */
  function NextRow(t: Tables, rows: seq<seq<real>>, z: real, r2: real, rxy: real): (row: seq<real>)
    requires Shaped(t) && Triangle(rows) && 1 <= |rows| < |t.c|
    ensures |row| == |rows| + 1
  {
    var l := |rows|;
    seq(l - 1, m requires 0 <= m < l - 1 =>
      ThreeTerm(t.a[l].v[m], t.b[l].v[m], z, r2, rows[l - 1][m], rows[l - 2][m]))
    + [Triple(t.c[l], z, rows[l - 1][l - 1]), Triple(t.d[l].v, rxy, rows[l - 1][l - 1])]
  }

  /** The first n rows of `alp`, starting from the single entry Yoo. */
  function AlpRows(t: Tables, yoo: real, z: real, r2: real, rxy: real, n: nat): (rows: seq<seq<real>>)
    requires Shaped(t) && 1 <= n <= |t.c|
    ensures |rows| == n && Triangle(rows) && rows[0] == [yoo]
    decreases n
  {
    if n == 1 then [[yoo]]
    else
      var prev := AlpRows(t, yoo, z, r2, rxy, n - 1);
      prev + [NextRow(t, prev, z, r2, rxy)]
  }

  method Legendre(t: Tables, yoo: real, z: real, r2: real, rxy: real, lmax: nat) returns (alp: seq<seq<real>>)
    requires Shaped(t) && lmax < |t.c|
    ensures alp == AlpRows(t, yoo, z, r2, rxy, lmax + 1)
  {
    alp := [[yoo]];
    var l := 1;
    while l <= lmax
      invariant 1 <= l <= lmax + 1
      invariant alp == AlpRows(t, yoo, z, r2, rxy, l)
    {
      alp := alp + [NextRow(t, alp, z, r2, rxy)];
      l := l + 1;
    }
  }

  lemma {:induction false} AlpPrefix(t: Tables, yoo: real, z: real, r2: real, rxy: real, n: nat, k: nat)
    requires Shaped(t) && 1 <= k <= n <= |t.c|
    ensures AlpRows(t, yoo, z, r2, rxy, n)[..k] == AlpRows(t, yoo, z, r2, rxy, k)
    decreases n
  {
    if k < n {
      var prev := AlpRows(t, yoo, z, r2, rxy, n - 1);
      assert AlpRows(t, yoo, z, r2, rxy, n)[..n - 1] == prev;
      AlpPrefix(t, yoo, z, r2, rxy, n - 1, k);
      assert AlpRows(t, yoo, z, r2, rxy, n)[..k] == prev[..k];
    }
  }

  /**
   * Entry (l, m) of the table reads only rows l-1 and l-2, and row l-2
   * only for m <= l-2.
   */
  lemma RecurrenceEntries(t: Tables, yoo: real, z: real, r2: real, rxy: real, n: nat, l: nat)
    requires Shaped(t) && 1 <= l < n <= |t.c|
    ensures var rows := AlpRows(t, yoo, z, r2, rxy, n);
      (forall m :: 0 <= m < l - 1 ==>
        rows[l][m] == ThreeTerm(t.a[l].v[m], t.b[l].v[m], z, r2, rows[l - 1][m], rows[l - 2][m])) &&
      rows[l][l - 1] == Triple(t.c[l], z, rows[l - 1][l - 1]) &&
      rows[l][l] == Triple(t.d[l].v, rxy, rows[l - 1][l - 1])
  {
    var rows := AlpRows(t, yoo, z, r2, rxy, n);
    var prev := AlpRows(t, yoo, z, r2, rxy, l);
    var row := NextRow(t, prev, z, r2, rxy);
    AlpPrefix(t, yoo, z, r2, rxy, n, l);
    AlpPrefix(t, yoo, z, r2, rxy, n, l + 1);
    assert rows[l] == row by {
      assert AlpRows(t, yoo, z, r2, rxy, l + 1) == prev + [row];
      assert rows[..l + 1][l] == rows[l];
    }
    assert rows[l - 1] == prev[l - 1] by {
      assert rows[..l][l - 1] == rows[l - 1];
    }
    assert l >= 2 ==> rows[l - 2] == prev[l - 2] by {
      if l >= 2 {
        assert rows[..l][l - 2] == rows[l - 2];
      }
    }
    NextRowEntries(t, prev, z, r2, rxy);
  }

  lemma NextRowEntries(t: Tables, rows: seq<seq<real>>, z: real, r2: real, rxy: real)
    requires Shaped(t) && Triangle(rows) && 1 <= |rows| < |t.c|
    ensures var l, row := |rows|, NextRow(t, rows, z, r2, rxy);
      (forall m :: 0 <= m < l - 1 ==>
        row[m] == ThreeTerm(t.a[l].v[m], t.b[l].v[m], z, r2, rows[l - 1][m], rows[l - 2][m])) &&
      row[l - 1] == Triple(t.c[l], z, rows[l - 1][l - 1]) &&
      row[l] == Triple(t.d[l].v, rxy, rows[l - 1][l - 1])
  {
  }

  /** On the plane z = 0 every entry with l - m odd vanishes. */
  lemma {:induction false} OddVanishesOnPlane(t: Tables, yoo: real, r2: real, rxy: real, n: nat, l: nat)
    requires Shaped(t) && 1 <= n <= |t.c| && l < n
    ensures forall m :: 0 <= m <= l && (l - m) % 2 == 1 ==> AlpRows(t, yoo, 0.0, r2, rxy, n)[l][m] == 0.0
    decreases l
  {
    if 1 <= l {
      var rows := AlpRows(t, yoo, 0.0, r2, rxy, n);
      RecurrenceEntries(t, yoo, 0.0, r2, rxy, n, l);
      if 2 <= l {
        OddVanishesOnPlane(t, yoo, r2, rxy, n, l - 2);
      }
      forall m | 0 <= m <= l && (l - m) % 2 == 1 ensures rows[l][m] == 0.0 {
        if m < l - 1 {
          assert rows[l - 2][m] == 0.0;
        }
      }
    }
  }

  function RPow(x: real, k: nat): real
  {
    if k == 0 then 1.0 else x * RPow(x, k - 1)
  }

  /** The product d_1 * ... * d_l of the degree coefficients. */
  function DProduct(t: Tables, l: nat): real
    requires Shaped(t) && l < |t.d|
  {
    if l == 0 then 1.0 else DProduct(t, l - 1) * t.d[l].v
  }

  lemma Regroup(d: real, r: real, y: real, p: real, q: real)
    ensures d * r * (y * p * q) == y * (p * d) * (r * q)
  {
  }

  /** The last entry of row l is Yoo * d_1 * ... * d_l * rxy^l. */
  lemma {:induction false} SectoralClosedForm(t: Tables, yoo: real, z: real, r2: real, rxy: real, n: nat, l: nat)
    requires Shaped(t) && 1 <= n <= |t.c| && l < n
    ensures AlpRows(t, yoo, z, r2, rxy, n)[l][l] == yoo * DProduct(t, l) * RPow(rxy, l)
    decreases l
  {
    if 1 <= l {
      RecurrenceEntries(t, yoo, z, r2, rxy, n, l);
      SectoralClosedForm(t, yoo, z, r2, rxy, n, l - 1);
      Regroup(t.d[l].v, rxy, yoo, DProduct(t, l - 1), RPow(rxy, l - 1));
    }
  }

  // ---------------------------------------------------------------------
  // Azimuth: sin(m phi) and cos(m phi) (__call__, step 3)
  // ---------------------------------------------------------------------

  datatype Complex = Complex(re: real, im: real)

  /** Complex product, with the terms in the order the source's recurrence uses. */
  function Mul(w: Complex, u: Complex): Complex
  {
    Complex(w.re * u.re - w.im * u.im, w.im * u.re + w.re * u.im)
  }

  function Pow(w: Complex, k: nat): Complex
  {
    if k == 0 then Complex(1.0, 0.0) else Mul(w, Pow(w, k - 1))
  }

  function Norm2(w: Complex): real
  {
    w.re * w.re + w.im * w.im
  }

  function CScale(k: real, w: Complex): Complex
  {
    Complex(k * w.re, k * w.im)
  }

  lemma MulNorm2(w: Complex, u: Complex)
    ensures Norm2(Mul(w, u)) == Norm2(w) * Norm2(u)
  {
  }

  lemma {:induction false} PowNorm2(w: Complex, k: nat)
    ensures Norm2(Pow(w, k)) == RPow(Norm2(w), k)
  {
    if 0 < k {
      PowNorm2(w, k - 1);
      MulNorm2(w, Pow(w, k - 1));
    }
  }

  /** rxy = sqrt(x^2 + y^2 + eps): positive for eps > 0, so the divisions by it are defined. */
  function Rxy(sqrt: real -> real, eps: real, x: real, y: real): (rxy: real)
    requires IsSqrt(sqrt) && 0.0 < eps
    ensures 0.0 < rxy
  {
    SquaresNonNegative(x, y);
    RootOfPositive(sqrt, x * x + y * y + eps);
    sqrt(x * x + y * y + eps)
  }

  lemma SquaresNonNegative(x: real, y: real)
    ensures 0.0 <= x * x + y * y
  {
  }

  /** cos(phi) + i sin(phi), selecting the raw x and y where the pole test fires. */
  function AzimuthSeed(x: real, y: real, rxy: real, eps: real): (w: Complex)
    requires 0.0 < rxy
    ensures rxy < eps ==> w == Complex(x, y)
    ensures eps <= rxy ==> w.re * rxy == x && w.im * rxy == y
  {
    if rxy < eps then Complex(x, y) else Complex(x / rxy, y / rxy)
  }

  /** With 0 < eps < 1 the pole test never fires: rxy >= sqrt(eps) > eps. */
  lemma PoleNeverFires(sqrt: real -> real, eps: real, x: real, y: real)
    requires IsSqrt(sqrt) && 0.0 < eps < 1.0
    ensures !(Rxy(sqrt, eps, x, y) < eps)
  {
    var rxy := Rxy(sqrt, eps, x, y);
    SquaresNonNegative(x, y);
    RootOfPositive(sqrt, x * x + y * y + eps);
    assert rxy * rxy == x * x + y * y + eps;
    RootAboveEps(rxy, eps, x * x + y * y + eps);
  }

  lemma RootAboveEps(r: real, eps: real, v: real)
    requires 0.0 < r && 0.0 < eps < 1.0 && r * r == v && eps <= v
    ensures eps <= r
  {
    if r < eps {
      SquareBelow(r, eps);
    }
  }

  lemma SquareBelow(r: real, eps: real)
    requires 0.0 < r < eps < 1.0
    ensures r * r < eps
  {
    ScaleStrict(r, r, eps);
    ScaleStrict(eps, r, 1.0);
    assert r * eps == eps * r;
    assert r * r < eps * r;
    assert eps * r < eps;
  }

  lemma ScaleStrict(k: real, a: real, b: real)
    requires 0.0 < k && a < b
    ensures k * a < k * b
  {
    assert k * b - k * a == k * (b - a);
  }

  lemma QuotientSquare(p: real, r: real, x: real)
    requires p * r == x
    ensures p * p * (r * r) == x * x
  {
    assert p * p * (r * r) == (p * r) * (p * r);
  }

  /**
   * Away from the pole the seed is (x, y) / rxy, whose squared modulus is
   * (x^2 + y^2) / (x^2 + y^2 + eps): slightly below 1.
   */
  lemma AzimuthSeedNorm(sqrt: real -> real, eps: real, x: real, y: real)
    requires IsSqrt(sqrt) && 0.0 < eps < 1.0
    ensures var rxy := Rxy(sqrt, eps, x, y);
      var w := AzimuthSeed(x, y, rxy, eps);
      w.re * rxy == x && w.im * rxy == y &&
      Norm2(w) * (x * x + y * y + eps) == x * x + y * y && Norm2(w) < 1.0
  {
    var rxy := Rxy(sqrt, eps, x, y);
    PoleNeverFires(sqrt, eps, x, y);
    var w := AzimuthSeed(x, y, rxy, eps);
    assert w == Complex(x / rxy, y / rxy);
    SquaresNonNegative(x, y);
    RootOfPositive(sqrt, x * x + y * y + eps);
    assert rxy * rxy == x * x + y * y + eps;
    QuotientSquare(w.re, rxy, x);
    QuotientSquare(w.im, rxy, y);
    assert Norm2(w) * (rxy * rxy) == x * x + y * y;
    BelowOne(Norm2(w), x * x + y * y, eps);
  }

  lemma BelowOne(n: real, s: real, eps: real)
    requires 0.0 <= s && 0.0 < eps && n * (s + eps) == s
    ensures n < 1.0
  {
  }

  /** cos + i sin holds the successive powers of w. */
  predicate PowersOf(sin: seq<real>, cos: seq<real>, w: Complex)
  {
    |cos| == |sin| && forall k :: 0 <= k < |sin| ==> Complex(cos[k], sin[k]) == Pow(w, k)
  }

  method AzimuthTrig(lmax: nat, sinPhi: real, cosPhi: real) returns (sin: seq<real>, cos: seq<real>)
    ensures |sin| == Max(2, lmax + 1)
    ensures PowersOf(sin, cos, Complex(cosPhi, sinPhi))
  {
    sin := [0.0, sinPhi];
    cos := [1.0, cosPhi];
    assert Pow(Complex(cosPhi, sinPhi), 1) == Complex(cosPhi, sinPhi);
    var m := 2;
    while m <= lmax
      invariant 2 <= m <= Max(2, lmax + 1)
      invariant |sin| == m
      invariant PowersOf(sin, cos, Complex(cosPhi, sinPhi))
    {
      var s := sinPhi * cos[|cos| - 1] + cosPhi * sin[|sin| - 1];
      var c := cosPhi * cos[|cos| - 1] - sinPhi * sin[|sin| - 1];
      TrigStep(sin, cos, sinPhi, cosPhi);
      sin := sin + [s];
      cos := cos + [c];
      m := m + 1;
    }
  }

  /** One angle-addition step appends the next power. */
  lemma TrigStep(sin: seq<real>, cos: seq<real>, sinPhi: real, cosPhi: real)
    requires 1 <= |sin| && PowersOf(sin, cos, Complex(cosPhi, sinPhi))
    ensures PowersOf(sin + [sinPhi * cos[|cos| - 1] + cosPhi * sin[|sin| - 1]],
                     cos + [cosPhi * cos[|cos| - 1] - sinPhi * sin[|sin| - 1]], Complex(cosPhi, sinPhi))
  {
    var w := Complex(cosPhi, sinPhi);
    var n := |sin|;
    assert Complex(cos[n - 1], sin[n - 1]) == Pow(w, n - 1);
    assert Pow(w, n) == Mul(w, Pow(w, n - 1));
  }

  /** cos(m phi)^2 + sin(m phi)^2 is the m-th power of cos(phi)^2 + sin(phi)^2. */
  lemma TrigModulus(sin: seq<real>, cos: seq<real>, w: Complex)
    requires PowersOf(sin, cos, w)
    ensures forall k :: 0 <= k < |sin| ==> cos[k] * cos[k] + sin[k] * sin[k] == RPow(Norm2(w), k)
  {
    forall k | 0 <= k < |sin| ensures cos[k] * cos[k] + sin[k] * sin[k] == RPow(Norm2(w), k) {
      PowNorm2(w, k);
      assert Norm2(Complex(cos[k], sin[k])) == cos[k] * cos[k] + sin[k] * sin[k];
    }
  }

  // ---------------------------------------------------------------------
  // Packed triangular layout of Y (__call__, step 4)
  // ---------------------------------------------------------------------

  datatype Part = Re | Im

  /** Harmonic (l, m) and which of its components. */
  datatype Slot = Slot(l: int, m: int, part: Part)

  /** The components stored: both parts for 1 <= m <= l <= lmax, the real part only for m = 0. */
  predicate IsSlot(s: Slot, lmax: nat)
  {
    0 <= s.m <= s.l <= lmax && (s.part == Im ==> 1 <= s.m)
  }

  /** Where a component is stored: the real part at (l, l-m), the imaginary part at (l-m, l). */
  function Position(s: Slot): (int, int)
  {
    if s.part == Re then (s.l, s.l - s.m) else (s.l - s.m, s.l)
  }

  /** Which component a cell holds: on or below the diagonal a real part, above it an imaginary one. */
  function Owner(i: int, j: int): Slot
  {
    if j <= i then Slot(i, i - j, Re) else Slot(j, j - i, Im)
  }

  /** Stored components and matrix cells correspond one to one. */
  lemma LayoutIsBijective(lmax: nat)
    ensures forall s :: IsSlot(s, lmax) ==>
      0 <= Position(s).0 <= lmax && 0 <= Position(s).1 <= lmax && Owner(Position(s).0, Position(s).1) == s
    ensures forall i, j :: 0 <= i <= lmax && 0 <= j <= lmax ==>
      IsSlot(Owner(i, j), lmax) && Position(Owner(i, j)) == (i, j)
  {
    forall s | IsSlot(s, lmax)
      ensures 0 <= Position(s).0 <= lmax && 0 <= Position(s).1 <= lmax && Owner(Position(s).0, Position(s).1) == s
    {
      if s.part == Re {
        assert Position(s) == (s.l, s.l - s.m);
      } else {
        assert Position(s) == (s.l - s.m, s.l);
      }
    }
    forall i, j | 0 <= i <= lmax && 0 <= j <= lmax
      ensures IsSlot(Owner(i, j), lmax) && Position(Owner(i, j)) == (i, j)
    {
      if j <= i {
        assert Owner(i, j) == Slot(i, i - j, Re);
      } else {
        assert Owner(i, j) == Slot(j, j - i, Im);
      }
    }
  }

  /** The value assembly stores in cell (i, j). */
  function Layout(alp: seq<seq<real>>, sin: seq<real>, cos: seq<real>, i: int, j: int): (v: real)
    requires Triangle(alp) && |alp| <= |sin| && |alp| <= |cos|
    requires 0 <= i < |alp| && 0 <= j < |alp|
    ensures i == j ==> v == alp[i][0]
    ensures var s := Owner(i, j);
      i != j ==> v == alp[s.l][s.m] * (if s.part == Re then cos[s.m] else sin[s.m])
  {
    if i == j then alp[i][0]
    else if j < i then alp[i][i - j] * cos[i - j]
    else alp[j][j - i] * sin[j - i]
  }

  /** The cells assembly has filled once it has done degrees below l and orders l .. m+1 of degree l. */
  predicate Written(l: int, m: int, i: int, j: int)
  {
    (i < l && j < l) || (i == l && j == l) || (i == l && j < l - m) || (j == l && i < l - m)
  }

  method Assemble(lmax: nat, alp: seq<seq<real>>, sin: seq<real>, cos: seq<real>) returns (Y: array2<real>)
    requires |alp| == lmax + 1 && Triangle(alp) && lmax < |sin| && lmax < |cos|
    ensures fresh(Y) && Y.Length0 == lmax + 1 && Y.Length1 == lmax + 1
    ensures forall i, j :: 0 <= i <= lmax && 0 <= j <= lmax ==> Y[i, j] == Layout(alp, sin, cos, i, j)
  {
    Y := new real[lmax + 1, lmax + 1]((i, j) => 0.0);
    var l := 0;
    while l <= lmax
      invariant 0 <= l <= lmax + 1
      invariant forall i, j :: 0 <= i <= lmax && 0 <= j <= lmax ==>
        Y[i, j] == if i < l && j < l then Layout(alp, sin, cos, i, j) else 0.0
    {
      Y[l, l] := alp[l][0];
      var m := l;
      while m > 0
        invariant 0 <= m <= l
        invariant forall i, j :: 0 <= i <= lmax && 0 <= j <= lmax ==>
          Y[i, j] == if Written(l, m, i, j) then Layout(alp, sin, cos, i, j) else 0.0
      {
        assert alp[l][m] * cos[m] == Layout(alp, sin, cos, l, l - m);
        assert alp[l][m] * sin[m] == Layout(alp, sin, cos, l - m, l);
        Y[l, l - m] := alp[l][m] * cos[m];
        Y[l - m, l] := alp[l][m] * sin[m];
        m := m - 1;
      }
      l := l + 1;
    }
  }

  /** The documented retrieval: Y[l,l] for m = 0, Y[l,l-m] + i Y[l-m,l] for m > 0. */
  function ReadHarmonic(Y: array2<real>, l: int, m: int): Complex
    reads Y
    requires 0 <= m <= l && l < Y.Length0 && l < Y.Length1
  {
    if m == 0 then Complex(Y[l, l], 0.0) else Complex(Y[l, l - m], Y[l - m, l])
  }

  /** Reading back the assembled matrix gives alp[l][m] * (cos(m phi) + i sin(m phi)). */
  lemma ReadBack(Y: array2<real>, alp: seq<seq<real>>, sin: seq<real>, cos: seq<real>)
    requires Triangle(alp) && 1 <= |alp| <= |sin| && |alp| <= |cos| && cos[0] == 1.0 && sin[0] == 0.0
    requires Y.Length0 == |alp| && Y.Length1 == |alp|
    requires forall i, j :: 0 <= i < |alp| && 0 <= j < |alp| ==> Y[i, j] == Layout(alp, sin, cos, i, j)
    ensures forall l, m :: 0 <= m <= l < |alp| ==>
      ReadHarmonic(Y, l, m) == CScale(alp[l][m], Complex(cos[m], sin[m]))
  {
    forall l, m | 0 <= m <= l < |alp|
      ensures ReadHarmonic(Y, l, m) == CScale(alp[l][m], Complex(cos[m], sin[m]))
    {
      if 0 < m {
        assert Y[l, l - m] == Layout(alp, sin, cos, l, l - m);
        assert Y[l - m, l] == Layout(alp, sin, cos, l - m, l);
      } else {
        assert Y[l, l] == Layout(alp, sin, cos, l, l);
      }
    }
  }

  /** With cos + i sin the powers of w, reading back gives alp[l][m] * w^m. */
  lemma ReadBackPowers(Y: array2<real>, alp: seq<seq<real>>, sin: seq<real>, cos: seq<real>, w: Complex)
    requires Triangle(alp) && 1 <= |alp| <= |sin| && PowersOf(sin, cos, w)
    requires Y.Length0 == |alp| && Y.Length1 == |alp|
    requires forall i, j :: 0 <= i < |alp| && 0 <= j < |alp| ==> Y[i, j] == Layout(alp, sin, cos, i, j)
    ensures forall l, m :: 0 <= m <= l < |alp| ==> ReadHarmonic(Y, l, m) == CScale(alp[l][m], Pow(w, m))
  {
    assert Complex(cos[0], sin[0]) == Pow(w, 0);
    ReadBack(Y, alp, sin, cos);
    forall l, m | 0 <= m <= l < |alp| ensures ReadHarmonic(Y, l, m) == CScale(alp[l][m], Pow(w, m)) {
      assert Complex(cos[m], sin[m]) == Pow(w, m);
    }
  }

  /** The four steps of `__call__` for one direction, from the stored tables. */
  method Evaluate(t: Tables, yoo: real, sqrt: real -> real, eps: real, lmax: nat, x: real, y: real, z: real)
    returns (Y: array2<real>)
    requires IsSqrt(sqrt) && 0.0 < eps && Shaped(t) && lmax < |t.c|
    ensures fresh(Y) && Y.Length0 == lmax + 1 && Y.Length1 == lmax + 1
    ensures var rxy := Rxy(sqrt, eps, x, y);
      var alp := AlpRows(t, yoo, z, x * x + y * y + z * z, rxy, lmax + 1);
      forall l, m :: 0 <= m <= l <= lmax ==>
        ReadHarmonic(Y, l, m) == CScale(alp[l][m], Pow(AzimuthSeed(x, y, rxy, eps), m))
  {
    var rxy2 := x * x + y * y;
    var r2 := rxy2 + z * z;
    var rxy := Rxy(sqrt, eps, x, y);
    var alp := Legendre(t, yoo, z, r2, rxy, lmax);
    var w := AzimuthSeed(x, y, rxy, eps);
    var sin, cos := AzimuthTrig(lmax, w.im, w.re);
    assert Complex(w.re, w.im) == w;
    Y := Assemble(lmax, alp, sin, cos);
    ReadBackPowers(Y, alp, sin, cos, w);
  }

  // ---------------------------------------------------------------------
  // The engine object
  // ---------------------------------------------------------------------

  class SolSphHarm {
    const lmax: nat
    /** The backend's square root and machine epsilon. */
    const sqrt: real -> real
    const eps: real
    /** sqrt(1 / (4 pi)), the degree-0 harmonic. */
    const Yoo: real
    const tables: Tables
    const lGrid: array2<int>
    const mGrid: array2<int>
    const sign: array2<int>
    const coef: seq<seq<real>>

    ghost predicate Valid()
      reads lGrid, mGrid, sign
    {
      IsSqrt(sqrt) && 0.0 < eps &&
      IsTables(tables, lmax, sqrt) && Shaped(tables) &&
      IsLms(lGrid, mGrid, sign, lmax) &&
      coef == InitCoef(lGrid, mGrid, sqrt)
    }

    constructor (lmax: nat, sqrt: real -> real, pi: real, eps: real)
      requires IsSqrt(sqrt) && 0.0 < pi && 0.0 < eps
      ensures this.lmax == lmax && this.sqrt == sqrt && this.eps == eps
      ensures Yoo == sqrt(1.0 / (4.0 * pi)) && 0.0 < Yoo && Yoo * Yoo == 1.0 / (4.0 * pi)
      ensures fresh(lGrid) && fresh(mGrid) && fresh(sign)
      ensures Valid()
    {
      this.lmax := lmax;
      this.sqrt := sqrt;
      this.eps := eps;
      QuotientPositive(1.0, 4.0 * pi);
      RootOfPositive(sqrt, 1.0 / (4.0 * pi));
      Yoo := sqrt(1.0 / (4.0 * pi));
      var t := InitAlp(lmax, sqrt);
      TablesShaped(t, lmax, sqrt);
      tables := t;
      var l, m, s := InitLms(lmax);
      lGrid, mGrid, sign := l, m, s;
      coef := InitCoef(l, m, sqrt);
    }

    /** Y for the direction (x, y, z), laid out as the class documents. */
    method Call(x: real, y: real, z: real) returns (Y: array2<real>)
      requires Valid()
      ensures fresh(Y) && Y.Length0 == lmax + 1 && Y.Length1 == lmax + 1
      ensures var rxy := Rxy(sqrt, eps, x, y);
        var alp := AlpRows(tables, Yoo, z, x * x + y * y + z * z, rxy, lmax + 1);
        forall l, m :: 0 <= m <= l <= lmax ==>
          ReadHarmonic(Y, l, m) == CScale(alp[l][m], Pow(AzimuthSeed(x, y, rxy, eps), m))
    {
      Y := Evaluate(tables, Yoo, sqrt, eps, lmax, x, y, z);
    }
  }
}
