/**
 * The capability composer `concrete(cls, cfg, suffix)` (autofunc/concrete/concrete.py)
 * and the numpy configurations handed to it (autofunc/concrete/numpy.py).
 *
 * The composer walks the contract catalogue in order; for every contract the
 * algorithm class subclasses it looks the contract up in `cfg` (raising
 * `KeyError` when it is absent) and prepends the backend class it finds to
 * the bases, which start as `(cls,)`. The new type is named
 * `cls.__name__ + "_" + suffix`, has those bases and declares nothing.
 */
module Concrete {
  import opened Abstract
  import opened Wrappers

  /** The exception `cfg[t]` raises for a missing key. */
  datatype Error = KeyError(key: Class)

  /** A backend profile: the class that implements each contract. */
  type Config = map<Class, Class>

  /** The contracts of `catalogue` that cls subclasses, in catalogue order. */
  function Required(cls: Class, catalogue: seq<Class>): (r: seq<Class>)
    ensures |r| <= |catalogue|
    ensures forall t :: t in r <==> t in catalogue && IsSubclass(cls, t)
  {
    if catalogue == [] then []
    else (if IsSubclass(cls, catalogue[0]) then [catalogue[0]] else []) + Required(cls, catalogue[1..])
  }

  /**
   * The contracts used from a catalogue a + b are those used from a followed
   * by those used from b: catalogue order is kept and each entry is used
   * once per occurrence.
   */
  lemma {:induction false} RequiredAppend(cls: Class, a: seq<Class>, b: seq<Class>)
    ensures Required(cls, a + b) == Required(cls, a) + Required(cls, b)
    decreases |a|
  {
    if a == [] {
      assert a + b == b;
    } else {
      assert (a + b)[0] == a[0] && (a + b)[1..] == a[1..] + b;
      RequiredAppend(cls, a[1..], b);
    }
  }

  /** A single contract is used exactly when the class subclasses it. */
  lemma RequiredSingle(cls: Class, t: Class)
    ensures Required(cls, [t]) == if IsSubclass(cls, t) then [t] else []
  {
    assert [t][1..] == [];
  }

  predicate Present(cfg: Config, ts: seq<Class>)
  {
    forall i :: 0 <= i < |ts| ==> ts[i] in cfg
  }

  /** The backend classes cfg assigns to ts, in the same order. */
  function Lookup(cfg: Config, ts: seq<Class>): (r: seq<Class>)
    requires Present(cfg, ts)
    ensures |r| == |ts| && forall i :: 0 <= i < |ts| ==> r[i] == cfg[ts[i]]
  {
    if ts == [] then [] else [cfg[ts[0]]] + Lookup(cfg, ts[1..])
  }

  function Reverse<T>(s: seq<T>): (r: seq<T>)
    ensures |r| == |s| && forall i :: 0 <= i < |s| ==> r[i] == s[|s| - 1 - i]
  {
    if s == [] then [] else Reverse(s[1..]) + [s[0]]
  }

  /** The first contract of ts that cfg lacks: the key of the KeyError. */
  function FirstMissing(cfg: Config, ts: seq<Class>): (t: Class)
    requires !Present(cfg, ts)
    ensures t !in cfg
    ensures exists k :: 0 <= k < |ts| && ts[k] == t && Present(cfg, ts[..k])
  {
    if ts[0] !in cfg then
      assert Present(cfg, ts[..0]);
      ts[0]
    else
      var t := FirstMissing(cfg, ts[1..]);
      var k :| 0 <= k < |ts[1..]| && ts[1..][k] == t && Present(cfg, ts[1..][..k]);
      assert ts[..k + 1] == [ts[0]] + ts[1..][..k];
      t
  }

  /**
   * The loop of concrete.py:7-11 run over the rest of the catalogue, ts,
   * from the bases collected so far.
   */
  function Walk(cls: Class, cfg: Config, ts: seq<Class>, bases: seq<Class>): (r: Result<seq<Class>, Error>)
    ensures r.Failure? ==> r.error.key in ts && IsSubclass(cls, r.error.key) && r.error.key !in cfg
    decreases |ts|
  {
    if ts == [] then Success(bases)
    else if !IsSubclass(cls, ts[0]) then Walk(cls, cfg, ts[1..], bases)
    else if ts[0] !in cfg then Failure(KeyError(ts[0]))
    else Walk(cls, cfg, ts[1..], [cfg[ts[0]]] + bases)
  }

  /** `concrete(cls, cfg, suffix)` walking the given catalogue. */
  function Bind(cls: Class, cfg: Config, suffix: string, catalogue: seq<Class>): (r: Result<Class, Error>)
    ensures r.Success? ==> r.value.name == cls.name + "_" + suffix && r.value.attrs == {}
    ensures r.Failure? ==> r.error.key in catalogue && IsSubclass(cls, r.error.key) && r.error.key !in cfg
  {
    match Walk(cls, cfg, catalogue, [cls])
    case Failure(e) => Failure(e)
    case Success(bases) => Success(Class(cls.name + "_" + suffix, bases, {}))
  }

  /** The composer as written: it walks `__all__`, `Abs` included. */
  method Concrete(cls: Class, cfg: Config, suffix: string) returns (r: Result<Class, Error>)
    ensures r == Bind(cls, cfg, suffix, All)
    ensures r.Success? <==> Present(cfg, Required(cls, All))
    ensures r.Success? ==> r.value == Class(cls.name + "_" + suffix, Reverse(Lookup(cfg, Required(cls, All))) + [cls], {})
    ensures r.Failure? ==> r.error == KeyError(FirstMissing(cfg, Required(cls, All)))
  {
    var bases := [cls];
    var i := 0;
    while i < |All|
      invariant 0 <= i <= |All|
      invariant Walk(cls, cfg, All, [cls]) == Walk(cls, cfg, All[i..], bases)
    {
      var t := All[i];
      assert All[i..][1..] == All[i + 1..];
      if IsSubclass(cls, t) {
        if t !in cfg {
          r := Failure(KeyError(t));
          BindMeaning(cls, cfg, suffix, All);
          return;
        }
        var b := cfg[t];
        bases := [b] + bases;
      }
      i := i + 1;
    }
    r := Success(Class(cls.name + "_" + suffix, bases, {}));
    BindMeaning(cls, cfg, suffix, All);
  }

  /** What the walk computes, stated without the loop. */
  lemma {:induction false} WalkMeaning(cls: Class, cfg: Config, ts: seq<Class>, bases: seq<Class>)
    ensures Walk(cls, cfg, ts, bases) ==
      if Present(cfg, Required(cls, ts))
      then Success(Reverse(Lookup(cfg, Required(cls, ts))) + bases)
      else Failure(KeyError(FirstMissing(cfg, Required(cls, ts))))
    decreases |ts|
  {
    if ts != [] {
      var rest := Required(cls, ts[1..]);
      if !IsSubclass(cls, ts[0]) {
        WalkMeaning(cls, cfg, ts[1..], bases);
        assert Required(cls, ts) == rest;
      } else {
        var rs := Required(cls, ts);
        assert rs == [ts[0]] + rest;
        assert rs[1..] == rest;
        if ts[0] in cfg {
          WalkMeaning(cls, cfg, ts[1..], [cfg[ts[0]]] + bases);
          assert Present(cfg, rs) <==> Present(cfg, rest) by {
            if Present(cfg, rest) {
              forall i | 0 <= i < |rs| ensures rs[i] in cfg {
                if i > 0 { assert rs[i] == rest[i - 1]; }
              }
            }
          }
          if Present(cfg, rs) {
            var tail := Reverse(Lookup(cfg, rest));
            assert tail + ([cfg[ts[0]]] + bases) == (tail + [cfg[ts[0]]]) + bases;
            assert Lookup(cfg, rs) == [cfg[ts[0]]] + Lookup(cfg, rest);
            assert Reverse(Lookup(cfg, rs)) == Reverse(Lookup(cfg, rest)) + [cfg[ts[0]]];
          } else {
            assert FirstMissing(cfg, rs) == FirstMissing(cfg, rest);
          }
        } else {
          assert !Present(cfg, rs) && FirstMissing(cfg, rs) == ts[0];
        }
      }
    } else {
      assert Reverse(Lookup(cfg, Required(cls, ts))) == [];
      assert [] + bases == bases;
    }
  }

  /** The result of the composer in closed form. */
  lemma BindMeaning(cls: Class, cfg: Config, suffix: string, catalogue: seq<Class>)
    ensures Bind(cls, cfg, suffix, catalogue) ==
      if Present(cfg, Required(cls, catalogue))
      then Success(Class(cls.name + "_" + suffix, Reverse(Lookup(cfg, Required(cls, catalogue))) + [cls], {}))
      else Failure(KeyError(FirstMissing(cfg, Required(cls, catalogue))))
  {
    WalkMeaning(cls, cfg, catalogue, [cls]);
  }

  /** The last base of a composed type is always cls, and there is one base per contract used, plus cls. */
  lemma BasesEndWithCls(cls: Class, cfg: Config, suffix: string, catalogue: seq<Class>)
    requires Bind(cls, cfg, suffix, catalogue).Success?
    ensures var bases := Bind(cls, cfg, suffix, catalogue).value.bases;
      |bases| == 1 + |Required(cls, catalogue)| && bases[|bases| - 1] == cls
  {
    BindMeaning(cls, cfg, suffix, catalogue);
  }

  /**
   * Contract t contributes `cfg[t]` exactly when cls subclasses it, and the
   * contributions come in reverse catalogue order, before cls.
   */
  lemma ContributionOrder(cls: Class, cfg: Config, suffix: string, catalogue: seq<Class>)
    requires Bind(cls, cfg, suffix, catalogue).Success?
    ensures var rs := Required(cls, catalogue);
      var bases := Bind(cls, cfg, suffix, catalogue).value.bases;
      (forall t :: t in rs <==> t in catalogue && IsSubclass(cls, t)) &&
      |bases| == |rs| + 1 &&
      forall k :: 0 <= k < |rs| ==> rs[k] in cfg && bases[|rs| - 1 - k] == cfg[rs[k]]
  {
    BindMeaning(cls, cfg, suffix, catalogue);
  }

  /** The name is the class name, an underscore and the suffix; the new type declares nothing. */
  lemma ComposedName(cls: Class, cfg: Config, suffix: string, catalogue: seq<Class>)
    requires Bind(cls, cfg, suffix, catalogue).Success?
    ensures Bind(cls, cfg, suffix, catalogue).value.name == cls.name + "_" + suffix
    ensures Bind(cls, cfg, suffix, catalogue).value.attrs == {}
  {
    BindMeaning(cls, cfg, suffix, catalogue);
  }

  /** A missing contract that cls uses makes the composer raise, naming that contract. */
  lemma MissingContractFails(cls: Class, cfg: Config, suffix: string, catalogue: seq<Class>, t: Class)
    requires t in catalogue && IsSubclass(cls, t) && t !in cfg
    ensures Bind(cls, cfg, suffix, catalogue).Failure?
    ensures var e := Bind(cls, cfg, suffix, catalogue).error;
      e.key in catalogue && IsSubclass(cls, e.key) && e.key !in cfg
  {
    BindMeaning(cls, cfg, suffix, catalogue);
    var rs := Required(cls, catalogue);
    assert t in rs;
    var k :| 0 <= k < |rs| && rs[k] == t;
  }

  /** Contracts cls does not use are never looked up: cfg may omit them or map them anywhere. */
  lemma {:induction false} UnusedContractsIgnored(cls: Class, cfg1: Config, cfg2: Config, ts: seq<Class>, bases: seq<Class>)
    requires forall t :: t in ts && IsSubclass(cls, t) ==>
      (t in cfg1 <==> t in cfg2) && (t in cfg1 ==> cfg1[t] == cfg2[t])
    ensures Walk(cls, cfg1, ts, bases) == Walk(cls, cfg2, ts, bases)
    decreases |ts|
  {
    if ts != [] {
      assert forall t :: t in ts[1..] ==> t in ts;
      if IsSubclass(cls, ts[0]) && ts[0] in cfg1 {
        UnusedContractsIgnored(cls, cfg1, cfg2, ts[1..], [cfg1[ts[0]]] + bases);
      } else {
        UnusedContractsIgnored(cls, cfg1, cfg2, ts[1..], bases);
      }
    }
  }

  // The numpy backend classes and profiles (autofunc/concrete/numpy.py).

  const AllocNp32: Class := Class("Alloc_np32", [Alloc], {"eps", "tens", "zeros", "ones", "empty", "full", "rand"})
  const AllocNp64: Class := Class("Alloc_np64", [Alloc], {"eps", "tens", "zeros", "ones", "empty", "full", "rand"})
  const SegNp: Class := Class("Seg_np", [Seg], {"cat", "stack", "t"})
  const ElemNp: Class := Class("Elem_np", [Elem], {"sqrt", "sin", "cos", "atan2", "where", "allclose"})
  const ReducNp: Class := Class("Reduc_np", [Reduc], {"norm"})

  /** `np32`'s configuration: no entry for `Tens` nor for `Abs`. */
  const Np32: Config := map[Alloc := AllocNp32, Reduc := ReducNp, Elem := ElemNp, Seg := SegNp]
  const Np64: Config := map[Alloc := AllocNp64, Reduc := ReducNp, Elem := ElemNp, Seg := SegNp]

  /** A catalogue whose every contract cls subclasses is required in full. */
  lemma {:induction false} RequiredWhole(cls: Class, ts: seq<Class>)
    requires forall t :: t in ts ==> IsSubclass(cls, t)
    ensures Required(cls, ts) == ts
  {
    if ts != [] {
      assert ts[0] in ts && IsSubclass(cls, ts[0]);
      assert forall t :: t in ts[1..] ==> t in ts;
      RequiredWhole(cls, ts[1..]);
      assert ts == [ts[0]] + ts[1..];
    }
  }

  /** For an algorithm derived from `Abs`, the contracts of `__all__` it uses: all but `Tens`. */
  lemma AlgorithmRequires(name: string, attrs: set<string>)
    ensures Required(Algorithm(name, attrs), All) == [Alloc, Seg, Elem, Reduc, Abs]
  {
    var c := Algorithm(name, attrs);
    assert All[0] == Tens && !IsSubclass(c, Tens);
    assert All[1..] == [Alloc, Seg, Elem, Reduc, Abs];
    RequiredWhole(c, All[1..]);
  }

  /**
   * As written, binding any algorithm derived from `Abs` to a numpy profile
   * fails: `Abs` is in `__all__`, the algorithm subclasses it, and the
   * profile has no `Abs` key.
   */
  lemma NumpyBindingFails(name: string, attrs: set<string>, cfg: Config, suffix: string)
    requires cfg == Np32 || cfg == Np64
    ensures Bind(Algorithm(name, attrs), cfg, suffix, All) == Failure(KeyError(Abs))
  {
    AlgorithmRequires(name, attrs);
    if cfg == Np32 { NumpyProfileKeys(AllocNp32); } else { NumpyProfileKeys(AllocNp64); }
    MissingLastFails(Algorithm(name, attrs), cfg, suffix, All, [Alloc, Seg, Elem, Reduc, Abs]);
  }

  /** When only the last contract used is missing from cfg, the composer raises on that one. */
  lemma MissingLastFails(c: Class, cfg: Config, suffix: string, catalogue: seq<Class>, rs: seq<Class>)
    requires Required(c, catalogue) == rs && |rs| == 5
    requires rs[0] in cfg && rs[1] in cfg && rs[2] in cfg && rs[3] in cfg && rs[4] !in cfg
    ensures Bind(c, cfg, suffix, catalogue) == Failure(KeyError(rs[4]))
  {
    LastMissing(cfg, rs);
    BindMeaning(c, cfg, suffix, catalogue);
  }

  /** The first contract of rs missing from cfg is the last one, when only that one is missing. */
  lemma LastMissing(cfg: Config, rs: seq<Class>)
    requires |rs| == 5
    requires rs[0] in cfg && rs[1] in cfg && rs[2] in cfg && rs[3] in cfg && rs[4] !in cfg
    ensures !Present(cfg, rs) && FirstMissing(cfg, rs) == rs[4]
  {
    assert !Present(cfg, rs);
    var t := FirstMissing(cfg, rs);
    var k :| 0 <= k < |rs| && rs[k] == t && Present(cfg, rs[..k]);
    assert t !in cfg;
    assert k != 0 && k != 1 && k != 2 && k != 3;
  }

  /** `__all__` without the aggregate `Abs`: the contracts a profile implements. */
  const Capabilities: seq<Class> := [Tens, Alloc, Seg, Elem, Reduc]

  /** The composer walking only the capability contracts. */
  function BindCapabilities(cls: Class, cfg: Config, suffix: string): (r: Result<Class, Error>)
    ensures r.Failure? ==> r.error.key != Abs
  {
    Bind(cls, cfg, suffix, Capabilities)
  }

  /** A numpy profile maps each capability contract to its numpy class. */
  /** A numpy profile registers the four capabilities and not `Abs`. */
  lemma NumpyProfileKeys(alloc: Class)
    ensures var cfg := map[Alloc := alloc, Reduc := ReducNp, Elem := ElemNp, Seg := SegNp];
      Alloc in cfg && Seg in cfg && Elem in cfg && Reduc in cfg && Abs !in cfg
  {
    assert Abs.name != Alloc.name && Abs.name != Reduc.name && Abs.name != Elem.name && Abs.name != Seg.name;
  }

  lemma NumpyProfileLookup(alloc: Class)
    ensures var cfg := map[Alloc := alloc, Reduc := ReducNp, Elem := ElemNp, Seg := SegNp];
      Present(cfg, [Alloc, Seg, Elem, Reduc]) &&
      Lookup(cfg, [Alloc, Seg, Elem, Reduc]) == [alloc, SegNp, ElemNp, ReducNp]
  {
    var cfg := map[Alloc := alloc, Reduc := ReducNp, Elem := ElemNp, Seg := SegNp];
    assert Alloc in cfg && Seg in cfg && Elem in cfg && Reduc in cfg;
    assert cfg[Alloc] == alloc && cfg[Seg] == SegNp && cfg[Elem] == ElemNp && cfg[Reduc] == ReducNp;
  }

  /** An algorithm derived from `Abs` uses every capability contract but `Tens`. */
  lemma AlgorithmRequiresCapabilities(name: string, attrs: set<string>)
    ensures Required(Algorithm(name, attrs), Capabilities) == [Alloc, Seg, Elem, Reduc]
  {
    var c := Algorithm(name, attrs);
    assert Capabilities[0] == Tens && !IsSubclass(c, Tens);
    assert Capabilities[1..] == [Alloc, Seg, Elem, Reduc];
    RequiredWhole(c, Capabilities[1..]);
  }

  /** With the catalogue corrected, the numpy profiles bind every algorithm derived from `Abs`. */
  lemma NumpyBindingCorrected(name: string, attrs: set<string>, alloc: Class, suffix: string)
    requires alloc == AllocNp32 || alloc == AllocNp64
    ensures var cfg := map[Alloc := alloc, Reduc := ReducNp, Elem := ElemNp, Seg := SegNp];
      var c := Algorithm(name, attrs);
      BindCapabilities(c, cfg, suffix) ==
        Success(Class(name + "_" + suffix, [ReducNp, ElemNp, SegNp, alloc, c], {}))
  {
    var cfg := map[Alloc := alloc, Reduc := ReducNp, Elem := ElemNp, Seg := SegNp];
    var c := Algorithm(name, attrs);
    var rs := Required(c, Capabilities);
    AlgorithmRequiresCapabilities(name, attrs);
    NumpyProfileLookup(alloc);
    assert Present(cfg, rs);
    assert Reverse(Lookup(cfg, rs)) + [c] == [ReducNp, ElemNp, SegNp, alloc, c];
    BindMeaning(c, cfg, suffix, Capabilities);
  }
}
