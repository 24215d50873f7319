/** The type table: one object per distinct type, so that comparing references
    is comparing types. */
module Interning {

  datatype TyKind =
    | KVoid | KI8 | KU8 | KI32 | KU32 | KI64 | KU64 | KF32 | KF64 | KB8 | KB32 | KB64
    | KUntypedInt | KUntypedFloat | KUntypedBool | KNull | KPoison
    | KPtr | KArray | KStruct | KEnum

  const PTR_SIZE: nat := 8

  datatype CoreLayout = CoreLayout(kind: TyKind, size: nat, align: nat)

  const CORE_LAYOUT: seq<CoreLayout> := [
    CoreLayout(KVoid, 0, 1), CoreLayout(KI8, 1, 1), CoreLayout(KU8, 1, 1), CoreLayout(KI32, 4, 4),
    CoreLayout(KU32, 4, 4), CoreLayout(KI64, 8, 8), CoreLayout(KU64, 8, 8), CoreLayout(KF32, 4, 4),
    CoreLayout(KF64, 8, 8), CoreLayout(KB8, 1, 1), CoreLayout(KB32, 4, 4), CoreLayout(KB64, 8, 8),
    CoreLayout(KUntypedInt, 0, 1), CoreLayout(KUntypedFloat, 0, 1), CoreLayout(KUntypedBool, 0, 1),
    CoreLayout(KNull, PTR_SIZE, PTR_SIZE), CoreLayout(KPoison, 0, 1)]

  /** What a type object stands for: core types by kind, pointers and arrays by
      structure, structs and enums by declaration. */
  datatype Meaning =
    | Core(kind: TyKind)
    | PtrTo(elem: Meaning)
    | ArrayOf(elem: Meaning, length: nat)
    | Declared(ordinal: nat)

  class Ty {
    const kind: TyKind
    const elem: Ty?
    const length: nat
    const name: string
    var size: nat
    var align: nat

    predicate Fits(c: CoreLayout)
      reads this
    {
      size == c.size && align == c.align
    }

    constructor (kind: TyKind, elem: Ty?, length: nat, name: string, size: nat, align: nat)
      ensures this.kind == kind && this.elem == elem && this.length == length && this.name == name
      ensures this.size == size && this.align == align
    {
      this.kind, this.elem, this.length, this.name, this.size, this.align := kind, elem, length, name, size, align;
    }
  }

  lemma KindsDistinct(i: nat)
    requires i < |CORE_LAYOUT|
    ensures forall j :: 0 <= j < i ==> CORE_LAYOUT[j].kind != CORE_LAYOUT[i].kind
  {
  }

  /** The bits of a core type fill its bytes, and its alignment is its size. */
  lemma CoreSizes(i: nat)
    requires i < |CORE_LAYOUT|
    ensures var c := CORE_LAYOUT[i];
            && (c.kind in {KI8, KU8, KB8} ==> 8 * c.size == 8)
            && (c.kind in {KI32, KU32, KF32, KB32} ==> 8 * c.size == 32)
            && (c.kind in {KI64, KU64, KF64, KB64, KNull} ==> 8 * c.size == 64)
            && (c.size > 0 ==> c.align == c.size) && (c.size == 0 ==> c.align == 1)
  {
  }

  class TypeTable {
    var core: seq<Ty>      // the singletons
    var derived: seq<Ty>   // every type made so far beyond the core ones, oldest first
    /** What each object stands for. */
    ghost var meaning: map<Ty, Meaning>

    /** The object's fields say what it stands for, its element being a type of
        the table. */
    ghost predicate Says(t: Ty, i: nat)
      requires t in meaning
      reads this
    {
      match t.kind
      case KPtr => t.elem != null && t.elem in meaning && meaning[t] == PtrTo(meaning[t.elem])
      case KArray => t.elem != null && t.elem in meaning && meaning[t] == ArrayOf(meaning[t.elem], t.length)
      case KStruct => meaning[t] == Declared(i)
      case KEnum => meaning[t] == Declared(i)
      case _ => false
    }

    ghost predicate Valid()
      reads this
    {
      && |core| == |CORE_LAYOUT|
      && (forall i :: 0 <= i < |core| ==>
            core[i] in meaning && meaning[core[i]] == Core(CORE_LAYOUT[i].kind) && core[i].kind == CORE_LAYOUT[i].kind)
      && (forall i :: 0 <= i < |derived| ==> derived[i] in meaning && Says(derived[i], i))
      && (forall t :: t in meaning ==> t in core || t in derived)
      && HashConsed()
    }

    /** Two objects of the table are one exactly when they stand for the same type. */
    ghost predicate HashConsed()
      reads this
    {
      forall a, b :: a in meaning && b in meaning ==> (a == b <==> meaning[a] == meaning[b])
    }

    constructor ()
      ensures Valid() && derived == [] && fresh(core)
      ensures forall i :: 0 <= i < |core| ==> core[i].Fits(CORE_LAYOUT[i])
    {
      core, derived, meaning := [], [], map[];
      new;
      hide CoreUpTo, Valid, Ty.Fits;
      NoneYet();
      while |core| < |CORE_LAYOUT|
        invariant |core| <= |CORE_LAYOUT| && CoreUpTo() && fresh(core) && derived == []
        invariant forall j :: 0 <= j < |core| ==> core[j].Fits(CORE_LAYOUT[j])
      {
        AddCore();
      }
      AllThere();
    }

    lemma NoneYet()
      requires core == [] && derived == [] && meaning == map[]
      ensures CoreUpTo()
    {
    }

    lemma AllThere()
      requires CoreUpTo() && |core| == |CORE_LAYOUT|
      ensures Valid()
    {
    }

    /** The table while its core types are made. */
    ghost predicate CoreUpTo()
      reads this
    {
      && |core| <= |CORE_LAYOUT| && derived == []
      && (forall j :: 0 <= j < |core| ==>
            core[j] in meaning && meaning[core[j]] == Core(CORE_LAYOUT[j].kind) && core[j].kind == CORE_LAYOUT[j].kind)
      && (forall t :: t in meaning ==> t in core)
      && HashConsed()
    }

    method AddCore()
      requires CoreUpTo() && |core| < |CORE_LAYOUT|
      modifies this
      ensures CoreUpTo() && |core| == |old(core)| + 1 && core[..|old(core)|] == old(core) && derived == []
      ensures var t := core[|old(core)|]; fresh(t) && t.Fits(CORE_LAYOUT[|old(core)|])
    {
      var c := CORE_LAYOUT[|core|];
      var t := new Ty(c.kind, null, 0, "", c.size, c.align);
      KindsDistinct(|core|);
      core := core + [t];
      meaning := meaning[t := Core(c.kind)];
    }

    /** A new object for a type no object stands for yet. */
    method Add(t: Ty, ghost m: Meaning)
      requires Valid() && t !in meaning && (forall a :: a in meaning ==> meaning[a] != m)
      requires match t.kind
               case KPtr => t.elem != null && t.elem in meaning && m == PtrTo(meaning[t.elem])
               case KArray => t.elem != null && t.elem in meaning && m == ArrayOf(meaning[t.elem], t.length)
               case KStruct => m == Declared(|derived|)
               case KEnum => m == Declared(|derived|)
               case _ => false
      modifies this
      ensures Valid() && core == old(core) && derived == old(derived) + [t] && meaning == old(meaning)[t := m]
    {
      ghost var before := meaning;
      derived := derived + [t];
      meaning := meaning[t := m];
      forall i | 0 <= i < |derived| ensures derived[i] in meaning && Says(derived[i], i) {
        if i < |derived| - 1 {
          assert derived[i] == old(derived)[i];
        }
      }
    }

    /** The pointer type to `elem`. */
    method Ptr(elem: Ty) returns (t: Ty)
      requires Valid() && elem in meaning
      modifies this
      ensures Valid() && t in meaning && meaning[t] == PtrTo(old(meaning)[elem])
      ensures core == old(core)
              && ((meaning == old(meaning) && derived == old(derived))
              || (fresh(t) && meaning == old(meaning)[t := meaning[t]]))
      ensures fresh(t) ==> t.size == 8 && t.align == 8
    {
      var i := 0;
      while i < |derived|
        invariant 0 <= i <= |derived|
        invariant forall j :: 0 <= j < i ==> !(derived[j].kind == KPtr && derived[j].elem == elem)
      {
        if derived[i].kind == KPtr && derived[i].elem == elem {
          return derived[i];
        }
        i := i + 1;
      }
      ghost var m := PtrTo(meaning[elem]);
      forall a | a in meaning ensures meaning[a] != m {
        if a in derived {
          var j :| 0 <= j < |derived| && derived[j] == a;
          assert Says(a, j);
        }
      }
      t := new Ty(KPtr, elem, 0, "", PTR_SIZE, PTR_SIZE);
      Add(t, m);
    }

    /** The type of arrays of `length` elements. */
    method Array(elem: Ty, length: nat) returns (t: Ty)
      requires Valid() && elem in meaning
      modifies this
      ensures Valid() && t in meaning && meaning[t] == ArrayOf(old(meaning)[elem], length)
      ensures core == old(core)
              && ((meaning == old(meaning) && derived == old(derived))
              || (fresh(t) && meaning == old(meaning)[t := meaning[t]]))
      ensures fresh(t) ==> t.size == length * elem.size % 0x1_0000_0000 && t.align == elem.align
    {
      var i := 0;
      while i < |derived|
        invariant 0 <= i <= |derived|
        invariant forall j :: 0 <= j < i ==>
                  !(derived[j].kind == KArray && derived[j].elem == elem && derived[j].length == length)
      {
        if derived[i].kind == KArray && derived[i].elem == elem && derived[i].length == length {
          return derived[i];
        }
        i := i + 1;
      }
      ghost var m := ArrayOf(meaning[elem], length);
      forall a | a in meaning ensures meaning[a] != m {
        if a in derived {
          var j :| 0 <= j < |derived| && derived[j] == a;
          assert Says(a, j);
        }
      }
      t := new Ty(KArray, elem, length, "", length * elem.size % 0x1_0000_0000, elem.align);
      Add(t, m);
    }

    /** Every struct or enum declaration is a type of its own. */
    method Declare(isStruct: bool, name: string, base: Ty?) returns (t: Ty)
      requires Valid() && (!isStruct ==> base != null)
      modifies this
      ensures Valid() && fresh(t) && core == old(core) && derived == old(derived) + [t]
      ensures meaning == old(meaning)[t := Declared(|old(derived)|)]
      ensures if isStruct then t.size == 0 && t.align == 1 else t.size == base.size && t.align == base.align
    {
      forall a | a in meaning ensures meaning[a] != Declared(|derived|) {
        if a in derived {
          var j :| 0 <= j < |derived| && derived[j] == a;
          assert Says(a, j);
        }
      }
      if isStruct {
        t := new Ty(KStruct, null, 0, name, 0, 1);
      } else {
        t := new Ty(KEnum, null, 0, name, base.size, base.align);
      }
      Add(t, Declared(|derived|));
    }

    /** In any table, two pointer types are one object exactly when their elements
        are, and two array types exactly when their elements and lengths are. */
    lemma SameStructureSameObject(a: Ty, b: Ty)
      requires Valid() && a in derived && b in derived
      ensures a.kind == KPtr && b.kind == KPtr ==> (a == b <==> a.elem == b.elem)
      ensures a.kind == KArray && b.kind == KArray ==> (a == b <==> a.elem == b.elem && a.length == b.length)
      ensures a.kind != b.kind ==> a != b
    {
      var i :| 0 <= i < |derived| && derived[i] == a;
      var j :| 0 <= j < |derived| && derived[j] == b;
      assert Says(a, i) && Says(b, j);
    }
  }
}
