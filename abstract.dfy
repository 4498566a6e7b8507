/**
 * The capability contracts of the tensor abstraction (autofunc/abstract.py).
 *
 * A Python class is modelled as a value: its name, its direct bases in
 * declaration order and the attribute names its own body declares. The
 * `abc.ABC` base that every contract also lists is left out, since it
 * declares nothing the composer looks at.
 */
module Abstract {

  datatype Class = Class(name: string, bases: seq<Class>, attrs: set<string>)

  /** `issubclass(c, t)`: t is c itself or, transitively, one of its bases. */
  predicate IsSubclass(c: Class, t: Class)
    decreases c
  {
    c == t || exists i :: 0 <= i < |c.bases| && IsSubclass(c.bases[i], t)
  }

  /** The names declared by c and by its bases, transitively. */
  function Exposed(c: Class): set<string>
    decreases c, |c.bases| + 1
  {
    c.attrs + ExposedFrom(c, 0)
  }

  /** The attributes exposed by the bases of c from position i on. */
  function ExposedFrom(c: Class, i: nat): set<string>
    requires i <= |c.bases|
    decreases c, |c.bases| - i
  {
    if i == |c.bases| then {} else Exposed(c.bases[i]) + ExposedFrom(c, i + 1)
  }

  /** The operator overloads and accessors of the `Tens` interface. */
  const TensAttrs: set<string> :=
    {"__add__", "__sub__", "__mul__", "__div__", "__truediv__", "__pow__", "__matmul__",
     "__radd__", "__rsub__", "__rmul__", "__rdiv__", "__rtruediv__", "__rpow__",
     "__rmatmul__", "__lt__", "__gt__", "__neg__", "shape", "reshape", "__getitem__",
     "__setitem__", "__iter__"}

  const Tens: Class := Class("Tens", [], TensAttrs)
  const Alloc: Class := Class("Alloc", [], {"eps", "tens", "zeros", "ones", "empty", "full", "rand"})
  const Seg: Class := Class("Seg", [], {"cat", "stack", "t"})
  const Elem: Class := Class("Elem", [], {"sqrt", "sin", "cos", "atan2", "where", "allclose"})
  const Reduc: Class := Class("Reduc", [], {"norm"})
  /** `class Abs(Reduc, Elem, Seg, Alloc): pass` */
  const Abs: Class := Class("Abs", [Reduc, Elem, Seg, Alloc], {})

  /** The module's `__all__`, in its fixed order. */
  const All: seq<Class> := [Tens, Alloc, Seg, Elem, Reduc, Abs]

  /** The bases of c from position i on declare everything base k declares, for i <= k. */
  lemma {:induction false} BaseExposed(c: Class, i: nat, k: nat)
    requires i <= k < |c.bases|
    ensures Exposed(c.bases[k]) <= ExposedFrom(c, i)
    decreases k - i
  {
    if i < k {
      BaseExposed(c, i + 1, k);
    }
  }

  /** A subclass declares, itself or through its bases, every name its superclass does. */
  lemma {:induction false} SubclassSeesInherited(c: Class, t: Class)
    requires IsSubclass(c, t)
    ensures Exposed(t) <= Exposed(c)
    decreases c
  {
    if c != t {
      var i :| 0 <= i < |c.bases| && IsSubclass(c.bases[i], t);
      SubclassSeesInherited(c.bases[i], t);
      BaseExposed(c, 0, i);
    }
  }

  /** An algorithm class written against the contracts, such as `SolSphHarm(ab.Abs)`. */
  function Algorithm(name: string, attrs: set<string>): (c: Class)
    ensures IsSubclass(c, Abs) && !IsSubclass(c, Tens)
    ensures forall t :: t in [Alloc, Seg, Elem, Reduc] ==> IsSubclass(c, t)
  {
    var c := Class(name, [Abs], attrs);
    assert c.bases[0] == Abs;
    NothingDerivesFromTens();
    AbsSubclassHasAllCapabilities(c);
    c
  }

  lemma {:induction false} SubclassTransitive(a: Class, b: Class, c: Class)
    requires IsSubclass(a, b) && IsSubclass(b, c)
    ensures IsSubclass(a, c)
    decreases a
  {
    if a != b {
      var i :| 0 <= i < |a.bases| && IsSubclass(a.bases[i], b);
      SubclassTransitive(a.bases[i], b, c);
    }
  }

  /** Any subclass of `Abs` is a subclass of each of the four capability contracts. */
  lemma AbsSubclassHasAllCapabilities(cls: Class)
    requires IsSubclass(cls, Abs)
    ensures IsSubclass(cls, Alloc) && IsSubclass(cls, Seg)
    ensures IsSubclass(cls, Elem) && IsSubclass(cls, Reduc)
  {
    assert Abs.bases == [Reduc, Elem, Seg, Alloc];
    assert IsSubclass(Abs.bases[0], Reduc) && IsSubclass(Abs.bases[1], Elem);
    assert IsSubclass(Abs.bases[2], Seg) && IsSubclass(Abs.bases[3], Alloc);
    SubclassTransitive(cls, Abs, Alloc);
    SubclassTransitive(cls, Abs, Seg);
    SubclassTransitive(cls, Abs, Elem);
    SubclassTransitive(cls, Abs, Reduc);
  }

  /** None of the capability contracts, nor `Abs`, derives from `Tens`. */
  lemma NothingDerivesFromTens()
    ensures forall t :: t in [Alloc, Seg, Elem, Reduc, Abs] ==> !IsSubclass(t, Tens)
  {
    forall t | t in [Alloc, Seg, Elem, Reduc]
      ensures !IsSubclass(t, Tens)
    {
      assert t.bases == [] && t != Tens;
    }
    assert forall i :: 0 <= i < |Abs.bases| ==> Abs.bases[i] in [Alloc, Seg, Elem, Reduc];
  }

  /** No operation name is declared by two capability contracts. */
  lemma OperationSetsDisjoint()
    ensures Alloc.attrs !! Seg.attrs && Alloc.attrs !! Elem.attrs && Alloc.attrs !! Reduc.attrs
    ensures Seg.attrs !! Elem.attrs && Seg.attrs !! Reduc.attrs && Elem.attrs !! Reduc.attrs
  {
  }

  /** `Abs` declares nothing itself and exposes exactly the union of the four contracts. */
  lemma AbsIsUnion()
    ensures Abs.attrs == {}
    ensures Exposed(Abs) == Reduc.attrs + Elem.attrs + Seg.attrs + Alloc.attrs
  {
    assert Exposed(Reduc) == Reduc.attrs && Exposed(Elem) == Elem.attrs;
    assert Exposed(Seg) == Seg.attrs && Exposed(Alloc) == Alloc.attrs;
    assert ExposedFrom(Abs, 4) == {};
    assert ExposedFrom(Abs, 3) == Alloc.attrs;
    assert ExposedFrom(Abs, 2) == Seg.attrs + Alloc.attrs;
    assert ExposedFrom(Abs, 1) == Elem.attrs + Seg.attrs + Alloc.attrs;
  }

  /** The names declared by an algorithm derived from `Abs` and its bases: its own plus every contract operation. */
  lemma AlgorithmSeesAllOperations(name: string, attrs: set<string>)
    ensures Exposed(Algorithm(name, attrs)) == attrs + Reduc.attrs + Elem.attrs + Seg.attrs + Alloc.attrs
  {
    var c := Algorithm(name, attrs);
    AbsIsUnion();
    assert c.bases == [Abs];
    assert ExposedFrom(c, 1) == {};
  }
}
