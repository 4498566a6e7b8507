# AutoFunc core in Dafny

A model of the numerical core of AutoFunc. AutoFunc writes algorithms once against
abstract tensor contracts, then binds them to a concrete backend such as numpy. The
model covers four parts of the package:

- **The capability contracts** (`autofunc/abstract.py`): `Alloc`, `Seg`, `Elem`,
  `Reduc` and their union `Abs`, with the module catalogue `__all__`. Each class is a
  value made of its name, its bases in order and the attribute names it declares
  (module `Abstract`).
- **The composer** `concrete(cls, cfg, suffix)` (`autofunc/concrete/concrete.py`)
  and the numpy profiles handed to it (module `Concrete`). The composer walks
  `__all__`. For each contract the class subclasses, it looks up the backend class in
  `cfg` and puts it in front of the bases. A missing key is a `KeyError`, modelled as
  a `Failure`. `suffix` defaults to the empty string, and `np32` and `np64` bind with
  that default, so their composed types are named `cls.__name__ + "_"`. The model
  takes the suffix as a parameter, and every lemma about it holds for each suffix,
  `""` included.
- **The axis-angle `Rotation`** (`autofunc/coo3d.py`, module `Coo3d`): the
  quaternion built from the normalised axis and the half angle, the stored matrix
  `_rot`, and its application to a batch of row vectors.
- **The solid spherical harmonics engine `SolSphHarm`** (`autofunc/harmonics.py`,
  module `Harmonics`). This covers:
  - the coefficient lists built by `_init_alp`;
  - the degree/order/sign grids built by `_init_lms`;
  - the `coef` grid built by `_init_coef`;
  - the four steps of `__call__` for one input direction: the associated Legendre
    recurrence, the pole test, the sin/cos angle-addition loop, and the assembly of
    the output matrix in the documented layout.

  The class is a Dafny `class` with fields that never change after construction.
  Its constructor runs the three initialisers, and `Call` runs the evaluation.

Numbers are exact reals. The backend's square root is a parameter `sqrt`, required to
be exact on the non-negative reals. π and the machine epsilon `eps` are parameters too.
In `Coo3d`, the backend's `norm`, `cos` and `sin` results are parameters, each
constrained only by its defining square identity. `Result` (module `Wrappers`) carries
the composer's error path.

## Model

| member | source | states |
|---|---|---|
| Abstract.IsSubclass | autofunc/abstract.py:249 | `issubclass(c, t)`: t is c itself or, transitively, one of its bases (definition; its properties are the lemmas below) |
| Abstract.Exposed | autofunc/abstract.py:116-259 | The names declared by a class and, transitively, by its bases (definition; its properties are the lemmas below) |
| Abstract.SubclassSeesInherited | autofunc/abstract.py:116-259 | A subclass declares, itself or through its bases, every name its superclass declares |
| Abstract.Algorithm | autofunc/abstract.py:249-259 | An algorithm class declared as a subclass of `Abs` subclasses `Abs` and each of `Alloc`, `Seg`, `Elem`, `Reduc`, but not `Tens` |
| Abstract.SubclassTransitive | autofunc/abstract.py:249 | `issubclass` is transitive along chains of bases |
| Abstract.AbsSubclassHasAllCapabilities | autofunc/abstract.py:249-259 | Any subclass of `Abs` is a subclass of all four capability contracts |
| Abstract.NothingDerivesFromTens | autofunc/abstract.py:116-259 | None of `Alloc`, `Seg`, `Elem`, `Reduc`, `Abs` is a subclass of `Tens` |
| Abstract.OperationSetsDisjoint | autofunc/abstract.py:116-246 | No operation name is declared by two of the capability contracts |
| Abstract.AbsIsUnion | autofunc/abstract.py:249-259 | `Abs` declares nothing itself and exposes exactly the union of the four contracts' operations |
| Abstract.AlgorithmSeesAllOperations | autofunc/abstract.py:249-259 | The names declared by an algorithm derived from `Abs` and by its bases are exactly its own plus every contract operation |
| Concrete.Required | autofunc/concrete/concrete.py:7-9 | A contract is among those the composer uses iff it is in the catalogue and the class subclasses it; there are never more than catalogue entries |
| Concrete.RequiredAppend | autofunc/concrete/concrete.py:7-9 | The contracts used from a catalogue a + b are those used from a followed by those used from b, so catalogue order is kept and each entry is used once per occurrence |
| Concrete.RequiredSingle | autofunc/concrete/concrete.py:9 | A single catalogue entry is used exactly when the class subclasses it |
| Concrete.Walk | autofunc/concrete/concrete.py:7-11 | The lookup loop over a catalogue. When it fails, the key is a catalogue contract that the class subclasses and that `cfg` lacks |
| Concrete.Bind | autofunc/concrete/concrete.py:5-13 | The composer for a given catalogue. On success the type is named `cls.__name__ + "_" + suffix` and declares nothing; on failure the key is a catalogue contract the class subclasses and `cfg` lacks |
| Concrete.FirstMissing | autofunc/concrete/concrete.py:10 | The `KeyError` key is absent from `cfg`, and every contract before it is present |
| Concrete.Concrete | autofunc/concrete/concrete.py:5-13 | The composer loop succeeds iff `cfg` holds every contract the class uses (up to the checks of `type()` itself, which are not modelled). On success the type is `name_suffix`, its bases are the backend classes in reverse catalogue order followed by `cls`, and it declares nothing. On failure the error names the first missing contract |
| Concrete.WalkMeaning | autofunc/concrete/concrete.py:7-11 | The lookup loop, from any prefix of collected bases, in closed form |
| Concrete.BindMeaning | autofunc/concrete/concrete.py:5-13 | The composed type, or the `KeyError`, in closed form for any catalogue |
| Concrete.BasesEndWithCls | autofunc/concrete/concrete.py:6-11 | A composed type has one base per contract used, plus `cls`, which comes last |
| Concrete.ContributionOrder | autofunc/concrete/concrete.py:7-11 | Contract t contributes `cfg[t]` exactly when the class subclasses t, and contributions appear in reverse catalogue order |
| Concrete.ComposedName | autofunc/concrete/concrete.py:12-13 | The new type is named `cls.__name__ + "_" + suffix` and declares no attributes |
| Concrete.MissingContractFails | autofunc/concrete/concrete.py:9-10 | If a used contract is missing from `cfg`, the composer fails with a key that is used and missing |
| Concrete.UnusedContractsIgnored | autofunc/concrete/concrete.py:9-10 | Entries of `cfg` for contracts the class does not use never affect the result |
| Concrete.RequiredWhole | autofunc/concrete/concrete.py:7-9 | When the class subclasses every contract of the catalogue, all of them are used, in order |
| Concrete.AlgorithmRequires | autofunc/concrete/concrete.py:7-9 | For an algorithm derived from `Abs`, the contracts of `__all__` it uses are `Alloc, Seg, Elem, Reduc, Abs` |
| Concrete.NumpyBindingFails | autofunc/concrete/numpy.py:119-121 | As written, binding any `Abs`-derived algorithm with `np32` or `np64` fails with `KeyError(Abs)` |
| Concrete.MissingLastFails | autofunc/concrete/concrete.py:7-10 | When exactly five contracts are used and all but the last are in `cfg`, the composer fails with the last one's key |
| Concrete.NumpyProfileKeys | autofunc/concrete/numpy.py:119-121 | A numpy profile has keys `Alloc`, `Seg`, `Elem`, `Reduc` and no `Abs` key |
| Concrete.NumpyProfileLookup | autofunc/concrete/numpy.py:119-121 | The numpy profiles map `Alloc, Seg, Elem, Reduc` to the chosen `Alloc_np*`, `Seg_np`, `Elem_np`, `Reduc_np` |
| Concrete.AlgorithmRequiresCapabilities | autofunc/concrete/concrete.py:7-9 | Over the catalogue without `Abs`, an `Abs`-derived algorithm uses `Alloc, Seg, Elem, Reduc` |
| Concrete.BindCapabilities | autofunc/concrete/concrete.py:7-13 | The composer over the catalogue without `Abs` (the correction of the finding below); it never fails with `KeyError(Abs)` |
| Concrete.NumpyBindingCorrected | autofunc/concrete/numpy.py:119-121 | With the corrected catalogue, the numpy profiles bind every `Abs`-derived algorithm to `name_suffix` with bases `Reduc_np, Elem_np, Seg_np, Alloc_np*, cls` |
| Coo3d.NewRotation | autofunc/coo3d.py:56-71 | The constructor stores `_rot` as the transpose of the matrix of the axis-angle quaternion |
| Coo3d.AxisAngle | autofunc/coo3d.py:57-60 | The quaternion has a = cos(angle/2) and (b, c, d) = -sin(angle/2) · axis/‖axis‖; it is a unit quaternion when cos² + sin² = 1 |
| Coo3d.UnitAfterNormalising | autofunc/coo3d.py:57-58 | The axis divided by its norm is a unit vector, and scaling it back by the norm gives the axis |
| Coo3d.RotationOrthogonal | autofunc/coo3d.py:56-71 | The stored `_rot` is orthogonal: `_rot`ᵀ `_rot` = `_rot` `_rot`ᵀ = I |
| Coo3d.RowsOrthonormal | autofunc/coo3d.py:61-70 | For a unit quaternion, the quaternion matrix times its transpose is the identity |
| Coo3d.ColumnsOrthonormal | autofunc/coo3d.py:61-70 | For a unit quaternion, the transpose of the quaternion matrix times the matrix is the identity |
| Coo3d.VectorPartFixed | autofunc/coo3d.py:61-70 | The matrix of a unit quaternion leaves its vector part (b, c, d) unchanged |
| Coo3d.AxisFixed | autofunc/coo3d.py:56-74 | The rotation maps its own axis to itself |
| Coo3d.Apply | autofunc/coo3d.py:73-74 | `xyz @ _rot` keeps the number of rows and maps each row v to v · `_rot` |
| Coo3d.LengthKept | autofunc/coo3d.py:73-74 | A matrix whose product with its transpose is the identity keeps the length of every row vector it multiplies |
| Coo3d.ApplyKeepsLengths | autofunc/coo3d.py:56-74 | Applying the rotation keeps the length of every point of the batch |
| Coo3d.OppositeAngleConjugates | autofunc/coo3d.py:59-60 | Turning by -angle (same half-angle cosine, opposite sine) gives the conjugate quaternion (a, -b, -c, -d) |
| Coo3d.OppositeRotationTransposes | autofunc/coo3d.py:56-71 | The rotation by -angle about the same axis stores the transpose of the rotation by angle |
| Coo3d.RowTimesAssociates | autofunc/coo3d.py:73-74 | Applying one matrix and then another is applying their product |
| Coo3d.TurnBack | autofunc/coo3d.py:56-74 | Rotating by angle and then by -angle about the same axis gives every point of the batch back |
| Coo3d.DotKept | autofunc/coo3d.py:73-74 | A matrix whose product with its transpose is the identity keeps dot products, hence lengths and angles |
| Coo3d.ApplyKeepsAngles | autofunc/coo3d.py:56-74 | Applying the rotation keeps the dot product of any two points of the batch, so angles between them are kept |
| Coo3d.QuarterTurnRotation | autofunc/coo3d.py:56-71 | A quarter turn about z stores `_rot` with rows (0, 1, 0), (-1, 0, 0), (0, 0, 1) |
| Coo3d.QuarterTurnExample | autofunc/tests/test_coo3d.py:16-37 | A quarter turn about z sends x to y, y to -x, z to z and -x to -y |
| Harmonics.InitAlp | autofunc/harmonics.py:56-80 | The four coefficient lists have max(2, lmax+1) entries: NaN seeds and c = [1, √3], d₁ = -√1.5 at degrees 0 and 1, then the general a, b, c, d entries for every degree 2..lmax |
| Harmonics.DegreeCoefficients | autofunc/harmonics.py:61-72 | c_l² = 2l+1 for every degree, seeds included; d_l² = 1 + 1/(2l) and d_l < 0 for every l ≥ 1 |
| Harmonics.RecurrenceCoefficients | autofunc/harmonics.py:66-68 | a_lm > 0 with a_lm² = (4l²-1)/(l²-m²); b_lm < 0 with b_lm² = ((l-1)²-m²)/(4(l-1)²-1) |
| Harmonics.RadicandsAndDenominatorsPositive | autofunc/harmonics.py:67-68 | For m ≤ l-2, both denominators and both radicands of a_lm and b_lm are positive, so the square roots are real and defined |
| Harmonics.RadicandsPositive | autofunc/harmonics.py:67-68 | For m ≤ l-2, both radicands of a_lm and b_lm are positive |
| Harmonics.TablesShaped | autofunc/harmonics.py:63-76 | The stored lists hold l-1 values of a and b from degree 2, and a value of d from degree 1 |
| Harmonics.InitLms | autofunc/harmonics.py:82-98 | Three fresh (lmax+1)² grids: degree max(i, j), order abs(i - j), and sign -1 strictly below the diagonal, +1 elsewhere |
| Harmonics.FillDegreeShell | autofunc/harmonics.py:89-90 | Iteration i sets exactly the cells with max(r, c) = i of the degree grid to i |
| Harmonics.FillOrderShell | autofunc/harmonics.py:91-93 | Iteration i sets row i and column i, from the diagonal on, to the distance from the diagonal |
| Harmonics.FillSignRow | autofunc/harmonics.py:94-95 | Iteration i sets row i to -1 before the diagonal and +1 from it on, leaving other rows unchanged |
| Harmonics.InitCoef | autofunc/harmonics.py:100-102 | `coef` is an lmax × lmax grid: the full grid with row 0 and column 0 sliced off |
| Harmonics.CoefWellDefined | autofunc/harmonics.py:100-102 | On the sliced region the denominator 2l-1 and the radicand are positive, and coef² equals (l²-m²)(2l+1)/(2l-1) |
| Harmonics.CoefRadicandPositive | autofunc/harmonics.py:101 | For 0 ≤ m < l, the denominator 2l-1 and the radicand of `coef` are positive |
| Harmonics.AlpRows | autofunc/harmonics.py:113-126 | The Legendre table is a triangle: row l has l+1 entries, and row 0 is [Yoo] |
| Harmonics.Legendre | autofunc/harmonics.py:113-126 | The loop builds exactly the lmax+1 rows of the recurrence |
| Harmonics.NextRow | autofunc/harmonics.py:116-125 | One pass of the recurrence: row l has one more entry than there are rows before it (its entries are given by RecurrenceEntries) |
| Harmonics.AlpPrefix | autofunc/harmonics.py:115-126 | Each row depends only on the rows before it: the first k rows of a longer table are the k-row table |
| Harmonics.RecurrenceEntries | autofunc/harmonics.py:116-125 | Entry (l, m) is a_lm(z·P[l-1][m] + r²·b_lm·P[l-2][m]) for m ≤ l-2, c_l·z·P[l-1][l-1] for m = l-1, and d_l·rxy·P[l-1][l-1] for m = l |
| Harmonics.OddVanishesOnPlane | autofunc/harmonics.py:116-125 | On the plane z = 0, every entry with l-m odd is zero |
| Harmonics.SectoralClosedForm | autofunc/harmonics.py:114-124 | The sectoral entry P[l][l] is Yoo · d₁⋯d_l · rxy^l |
| Harmonics.Rxy | autofunc/harmonics.py:111 | rxy = √(x²+y²+eps) is positive for eps > 0, so the divisions by it are defined |
| Harmonics.PoleNeverFires | autofunc/harmonics.py:129-131 | With 0 < eps < 1, the pole test rxy < eps is never true, because rxy ≥ √eps > eps |
| Harmonics.AzimuthSeed | autofunc/harmonics.py:129-131 | At the pole (rxy < eps) the seed is (x, y); elsewhere it is the pair whose product with rxy is (x, y) |
| Harmonics.AzimuthSeedNorm | autofunc/harmonics.py:129-131 | Away from the pole, (cos φ, sin φ)·rxy = (x, y), and cos²φ + sin²φ = (x²+y²)/(x²+y²+eps) < 1 |
| Harmonics.AzimuthTrig | autofunc/harmonics.py:132-138 | The loop yields max(2, lmax+1) entries with cos[m] + i·sin[m] = (cos φ + i·sin φ)^m for every m |
| Harmonics.MulNorm2 | autofunc/harmonics.py:135-136 | The squared modulus of the angle-addition product is the product of the squared moduli |
| Harmonics.PowNorm2 | autofunc/harmonics.py:132-138 | The squared modulus of w^k is the k-th power of the squared modulus of w |
| Harmonics.TrigModulus | autofunc/harmonics.py:132-138 | cos²(mφ) + sin²(mφ) = (cos²φ + sin²φ)^m |
| Harmonics.LayoutIsBijective | autofunc/harmonics.py:26-42 | The documented layout is a bijection: each stored component (l, m, part) has its own cell in the (lmax+1)² matrix, and every cell holds exactly one component |
| Harmonics.Layout | autofunc/harmonics.py:141-146 | The value of cell (i, j): P[i][0] on the diagonal; elsewhere P[l][m]·cos(mφ) for a real-part cell or P[l][m]·sin(mφ) for an imaginary-part cell, with (l, m) the component that owns the cell |
| Harmonics.Assemble | autofunc/harmonics.py:140-146 | The fresh (lmax+1)² matrix holds P[l][0] on the diagonal, P[l][m]·cos(mφ) at (l, l-m) and P[l][m]·sin(mφ) at (l-m, l) |
| Harmonics.ReadBack | autofunc/harmonics.py:26-35 | Reading Y[l,l] for m = 0, or Y[l,l-m] + i·Y[l-m,l] for m > 0, gives P[l][m]·(cos mφ + i·sin mφ) |
| Harmonics.ReadBackPowers | autofunc/harmonics.py:26-35 | When cos + i·sin holds the powers of w, reading back harmonic (l, m) gives P[l][m]·w^m |
| Harmonics.Evaluate | autofunc/harmonics.py:104-148 | The four steps give an (lmax+1)² matrix from which harmonic (l, m) reads back as P[l][m]·w^m, with P the Legendre table at (z, r², rxy) and w the azimuth seed |
| Harmonics.SolSphHarm.constructor | autofunc/harmonics.py:48-54 | Stores lmax, sets Yoo = √(1/(4π)) (positive, with square 1/(4π)), and leaves the tables, the three grids and `coef` as the initialisers build them |
| Harmonics.SolSphHarm.Call | autofunc/harmonics.py:104-148 | For a constructed engine, `Y` is the fresh (lmax+1)² matrix whose harmonic (l, m) reads back as P[l][m]·(cos φ + i·sin φ)^m |

## Left out

- `Cart2Sph` and `Sph2Cart` (coo3d.py:7-46) are not modelled: they are built on
  `atan2`, `sin` and `cos`, which have no exact counterpart over the reals here.
  Only `Rotation` is in scope.
- Floating point is not modelled: rounding, overflow, and NaN propagation through
  arithmetic. NaN appears only as the placeholder `NaN` in the coefficient lists,
  which the recurrence never reads.
- `__call__` works on a batch of n inputs at once, broadcasting every step across it.
  The model evaluates one direction; every step is element-wise, so the batch is
  n independent copies.
- The backend square root, π, eps, the axis norm and the half-angle cos/sin are
  parameters constrained by their defining identities.
- Of the numpy adapter (concrete/numpy.py) only its backend classes, as the composer
  binds them, and its `np32`/`np64` profiles are modelled; the method bodies are not.
- concrete/np.py is not part of this model. Its `Generators_np32` classes derive from
  an `ab.Generators` that abstract.py does not define.
- `Tens` operator overloads and the attribute signatures of the contracts
  (abstract.py:10-113) are not modelled beyond the names each contract declares.
  `abc.ABC` and abstract-method enforcement are left out.
- Concrete.Concrete: the checks `type()` makes when it builds the composed class are
  not modelled. It raises `TypeError` for a duplicate base, for example when one
  backend class is registered for two used contracts, and for bases that admit no
  method resolution order. In both cases the model returns `Success`. The
  "succeeds iff" of Concrete.Concrete and BindMeaning covers only the `KeyError` path.
- Python's `type()` builds a new class. The model returns a `Class` value, and class
  identity is structural: two classes with the same name, bases and attributes are
  equal.
- Coo3d.AxisAngle: a zero axis has no norm, so the axis is required to have positive
  norm. The source would divide by zero there.
- Harmonics.InitCoef: only the sliced region is stored. Its row 0 and column 0 are
  where 2l-1 = -1 or the radicand is zero, and the source discards them too. `coef`
  is never read by `__call__`, so no property connects it to the output.
- Harmonics.SolSphHarm.constructor: lmax is a natural number, so a negative lmax is not
  modelled. With lmax = -1 the source builds empty (0, 0, 1) grids. With lmax ≤ -2 its
  call `empty((lmax + 1, lmax + 1, 1))` has negative dimensions, which numpy rejects
  with a `ValueError`.
- Harmonics.Evaluate: the pole branch of the azimuth seed is modelled as written, but
  with 0 < eps < 1 it never fires (PoleNeverFires).
- The `Elem` contract's promise that its functions are element-wise
  (abstract.py:189-198) is a property of backend code that is not part of this model.
- `setup.py`, the tests, and the `example.py` script are not modelled, except the
  rotation test case (QuarterTurnExample).

## Findings

| source | as written | input that shows it | evidently intended | confidence | as-written member | corrected member |
|---|---|---|---|---|---|---|
| autofunc/concrete/concrete.py:7-10 with autofunc/concrete/numpy.py:119-121 | The composer looks up every contract in `__all__` that the class subclasses, and `__all__` includes `Abs`. The numpy profiles have no `Abs` key. | `np64(SolSphHarm)`: `SolSphHarm` subclasses `Abs`, so `cfg[Abs]` raises `KeyError(Abs)` | Bind only the capability contracts (`__all__` without `Abs`), which the profiles provide | high, not executed | Concrete.NumpyBindingFails | Concrete.NumpyBindingCorrected |
