/** Implicit conversions: when a type converts to another by itself, what two
    types have in common, and that converting never changes a value. */
module Conversions {
  import opened Words
  import opened Types
  import opened Tree
  import opened Ir

  // ---------------------------------------------------------------- the order

  /** The size of a type in bytes, for the types that have one here. */
  function Size(t: Ty): nat {
    match t
    case I8 => 1
    case U8 => 1
    case B8 => 1
    case I32 => 4
    case U32 => 4
    case F32 => 4
    case B32 => 4
    case I64 => 8
    case U64 => 8
    case F64 => 8
    case B64 => 8
    case _ => 0
  }

  /** Does `from` become `to` without a cast? */
  predicate Assignable(from: Ty, to: Ty) {
    from == to || from.Poison? || to.Poison?
    || match from
       case UntypedInt => IsInteger(to) || IsFloat(to) || to.UntypedFloat?
       case UntypedFloat => IsFloat(to)
       case UntypedBool => IsBool(to)
       case Null => to.Ptr?
       case Enum(_, base, _) => BaseTy(base) == to || Widens(BaseTy(base), to)
       case _ => Widens(from, to)
  }

  predicate Widens(from: Ty, to: Ty) {
    if IsInteger(from) && IsInteger(to) then IsSigned(from) == IsSigned(to) && Size(to) > Size(from)
    else if from.F32? && to.F64? then true
    else IsBool(from) && IsBool(to) && Size(to) > Size(from)
  }

  function CommonType(a: Ty, b: Ty): Option<Ty> {
    if a == b then Some(a)
    else if Assignable(a, b) then Some(b)
    else if Assignable(b, a) then Some(a)
    else None
  }

  /** Every conversion climbs. */
  function Rank(t: Ty): nat {
    match t
    case UntypedInt => 0
    case UntypedBool => 0
    case Null => 0
    case UntypedFloat => 1
    case Enum(_, base, _) => 2 * Size(BaseTy(base)) + 2
    case _ => 2 * Size(t) + 3
  }

  lemma WidensClimbs(a: Ty, b: Ty)
    requires Widens(a, b)
    ensures Size(a) < Size(b) && Rank(a) < Rank(b) && !a.Ptr? && !a.UntypedFloat? && !a.Enum? && !b.Enum?
            && !b.UntypedFloat? && !b.Ptr?
    ensures !b.Poison? && !b.UntypedInt? && !b.UntypedBool? && !b.Null?
    ensures IsInteger(b) == IsInteger(a) && IsFloat(b) == IsFloat(a) && IsBool(b) == IsBool(a)
  {
  }

  lemma Climbs(a: Ty, b: Ty)
    requires !a.Poison? && !b.Poison? && Assignable(a, b)
    ensures a == b || Rank(a) < Rank(b)
  {
    hide Widens;
    if Widens(a, b) {
      WidensClimbs(a, b);
    }
    if a.Enum? && Widens(BaseTy(a.base), b) {
      WidensClimbs(BaseTy(a.base), b);
    }
  }

  lemma WidensOn(a: Ty, b: Ty, c: Ty)
    requires Widens(a, b) && Widens(b, c)
    ensures Widens(a, c)
  {
  }

  lemma AssignableOn(a: Ty, b: Ty, c: Ty)
    requires !a.Poison? && !b.Poison? && !c.Poison? && Assignable(a, b) && Assignable(b, c) && a != b && b != c
    ensures Assignable(a, c)
  {
    hide Widens, Size, IsSigned;
    assert !b.Enum? && !b.UntypedInt? && !b.UntypedBool? && !b.Null? && (b.UntypedFloat? ==> a.UntypedInt?) by {
      if Widens(a, b) {
        WidensClimbs(a, b);
      }
      if a.Enum? && Widens(BaseTy(a.base), b) {
        WidensClimbs(BaseTy(a.base), b);
      }
    }
    if Widens(b, c) {
      WidensClimbs(b, c);
      if Widens(a, b) {
        WidensOn(a, b, c);
      }
      if a.Enum? && Widens(BaseTy(a.base), b) {
        WidensOn(BaseTy(a.base), b, c);
      }
    }
  }

  /** Away from the error type, converting is a partial order. */
  lemma AssignableOrder(a: Ty, b: Ty, c: Ty)
    requires !a.Poison? && !b.Poison? && !c.Poison?
    ensures Assignable(a, a)
    ensures Assignable(a, b) && Assignable(b, a) ==> a == b
    ensures Assignable(a, b) && Assignable(b, c) ==> Assignable(a, c)
  {
    hide Assignable;
    assert Assignable(a, a) by {
      Itself(a);
    }
    if Assignable(a, b) && Assignable(b, a) {
      Climbs(a, b);
      Climbs(b, a);
    }
    if Assignable(a, b) && Assignable(b, c) && a != b && b != c {
      AssignableOn(a, b, c);
    }
  }

  lemma Itself(a: Ty)
    ensures Assignable(a, a)
  {
  }

  /** The error type converts both ways with everything, so it is in no order with
      the rest. */
  lemma PoisonBreaksOrder()
    ensures Assignable(I32, Poison) && Assignable(Poison, U8) && !Assignable(I32, U8)
  {
  }

  /** Swapping the operands gives the same common type exactly when neither is the
      error type, or both are. */
  lemma CommonTypeSymmetric(a: Ty, b: Ty)
    ensures CommonType(a, b) == CommonType(b, a) <==> (a.Poison? <==> b.Poison?)
  {
    if !a.Poison? && !b.Poison? {
      hide Assignable;
      AssignableOrder(a, b, b);
    }
  }

  /** The common type is the least type that both convert to, and there is one exactly
      when one of the two converts to the other. */
  lemma CommonTypeIsJoin(a: Ty, b: Ty, d: Ty)
    requires !a.Poison? && !b.Poison?
    ensures CommonType(a, b).Some? <==> Assignable(a, b) || Assignable(b, a)
    ensures CommonType(a, b).Some? ==>
              var c := CommonType(a, b).value;
              Assignable(a, c) && Assignable(b, c) && (Assignable(a, d) && Assignable(b, d) ==> Assignable(c, d))
  {
  }

  // -------------------------------------------------------------------- values

  /** The pattern after the cast that lowering picks for widening. */
  function Extended(from: Ty, to: Ty, p: nat): nat {
    if Width(from) == Width(to) then p
    else IrCast(if IsSigned(from) then SExt else ZExt, Width(from), Width(to), p)
  }

  /** Integers, truth values and enums, each with a type of its own. */
  predicate IsValueType(t: Ty) {
    IsScalar(t) && !IsUntyped(t)
  }

  lemma WidensOut(from: Ty, to: Ty)
    requires Widens(from, to) && IsValueType(to)
    ensures Width(from) < Width(to) && IsSigned(from) == IsSigned(to) && IsBoolLike(from) == IsBoolLike(to)
    ensures IsInteger(from) ==> IsInteger(to)
  {
  }

  lemma NeverNarrows(from: Ty, to: Ty)
    requires IsValueType(from) && IsValueType(to) && Assignable(from, to)
    ensures Width(from) <= Width(to)
    ensures IsSigned(from) ==> IsSigned(to)
    ensures !from.Enum? ==> IsSigned(from) == IsSigned(to) && IsBoolLike(from) == IsBoolLike(to)
    ensures from.Enum? ==> IsIntLike(to)
  {
    hide Widens;
    if Widens(from, to) {
      WidensOut(from, to);
    } else if from.Enum? && Widens(BaseTy(from.base), to) {
      WidensOut(BaseTy(from.base), to);
    }
  }

  /** A conversion that needs no cast: whatever the source type holds, the target
      type holds, save what an enum holds beyond its base type. */
  lemma TargetHolds(from: Ty, to: Ty, v: int)
    requires IsValueType(from) && IsValueType(to) && Assignable(from, to) && InRange(from, v) && !from.Enum?
    ensures InRange(to, v)
  {
    NeverNarrows(from, to);
    if !IsBoolLike(from) {
      Pow2Monotone(Width(from), Width(to));
      Pow2Monotone(Width(from) - 1, Width(to) - 1);
    }
  }

  /** One integer type becomes another by itself exactly when their signedness is the
      same and the target holds all that the source holds. */
  lemma IntegersConvertIff(from: Ty, to: Ty)
    requires IsInteger(from) && IsInteger(to)
    ensures Assignable(from, to) <==>
              IsSigned(from) == IsSigned(to) && forall v: int :: InRange(from, v) ==> InRange(to, v)
  {
    hide Pow2;
    PowersOfTwo();
    if !Assignable(from, to) && IsSigned(from) == IsSigned(to) {
      var most := (if IsSigned(from) then Pow2(Width(from) - 1) else Pow2(Width(from))) - 1;
      assert InRange(from, most) && !InRange(to, most);
    }
  }

  /** One truth value type becomes another by itself exactly when it is no wider, and an
      enum becomes what its base type becomes. */
  lemma OthersConvertIff(from: Ty, to: Ty)
    ensures IsBool(from) && IsBool(to) ==> (Assignable(from, to) <==> from == to || Width(from) < Width(to))
    ensures from.Enum? && IsInteger(to) ==> (Assignable(from, to) <==> Assignable(BaseTy(from.base), to))
    ensures IsValueType(from) && IsValueType(to) && IsBoolLike(from) != IsBoolLike(to) ==> !Assignable(from, to)
    ensures to.Enum? && !from.Poison? ==> (Assignable(from, to) <==> from == to)
  {
  }

  /** An enum member's number was checked against the base type, so it is held too. */
  lemma MemberHeld(e: Ty, to: Ty, v: nat)
    requires e.Enum? && IsValueType(to) && Assignable(e, to) && IntFits(e, v) && v < 0x1_0000_0000_0000_0000
    ensures InRange(to, v)
  {
    hide Pow2, Assignable;
    BaseBound(e.base, v);
    if e != to {
      BaseAssigns(e, to);
      TargetHolds(BaseTy(e.base), to, v);
    }
    if e == to {
      UnsignedToo(e.base, v);
    }
  }

  lemma BaseAssigns(e: Ty, to: Ty)
    requires e.Enum? && Assignable(e, to) && e != to && !to.Poison?
    ensures Assignable(BaseTy(e.base), to)
  {
  }

  lemma BaseBound(b: Base, v: nat)
    requires IntFits(BaseTy(b), v) && v < 0x1_0000_0000_0000_0000
    ensures InRange(BaseTy(b), v)
  {
    hide Pow2;
    PowersOfTwo();
  }

  lemma UnsignedToo(b: Base, v: nat)
    requires InRange(BaseTy(b), v)
    ensures Fits(false, BaseWidth(b), v)
  {
    Pow2Monotone(BaseWidth(b) - 1, BaseWidth(b));
  }

  lemma PowersOfTwo()
    ensures Pow2(7) == 0x80 && Pow2(8) == 0x100 && Pow2(31) == 0x8000_0000 && Pow2(32) == 0x1_0000_0000
    ensures Pow2(63) == 0x8000_0000_0000_0000 && Pow2(64) == 0x1_0000_0000_0000_0000
  {
    assert Pow2(7) == 128 && Pow2(8) == 256;
    Pow2Add(8, 8);
    Pow2Add(16, 15);
    Pow2Add(8, 7);
    Pow2Add(16, 16);
    Pow2Add(32, 31);
    Pow2Add(32, 32);
  }

  /** The number that the widened pattern reads as is the number itself, exactly
      when the target type holds it. */
  lemma WideningKeepsValue(from: Ty, to: Ty, v: int)
    requires IsValueType(from) && IsValueType(to) && Assignable(from, to) && InRange(from, v)
    ensures Decode(IsSigned(to), Width(to), Extended(from, to, Enc(Width(from), v))) == v <==> InRange(to, v)
  {
    hide Assignable, Width, IsSigned, InRange, Extended, Decode;
    ExtendedIsEnc(from, to, v);
    if InRange(to, v) {
      InRangeDecodes(to, v);
    } else {
      ScalarFacts(from);
      ScalarFacts(to);
      if !from.Enum? {
        TargetHolds(from, to, v);
      }
      NeverNarrows(from, to);
      OutOfRange(to, v);
    }
  }

  lemma ScalarFacts(t: Ty)
    requires IsScalar(t)
    ensures Width(t) > 0
  {
  }

  lemma OutOfRange(t: Ty, v: int)
    requires IsIntLike(t) && !InRange(t, v)
    ensures Decode(IsSigned(t), Width(t), Enc(Width(t), v)) != v
  {
    hide Width, IsSigned, Enc, Decode, Pow2, Fits, IsIntLike, IsBoolLike;
    IntNotBool(t);
    DecodeFits(IsSigned(t), Width(t), Enc(Width(t), v));
  }

  lemma ExtendedIsEnc(from: Ty, to: Ty, v: int)
    requires IsValueType(from) && IsValueType(to) && Assignable(from, to) && InRange(from, v)
    ensures Extended(from, to, Enc(Width(from), v)) == Enc(Width(to), v)
  {
    hide Assignable, Width, IsSigned, Enc, Decode, AsSigned, Pow2, Fits, IsScalar, IsBoolLike, IsIntLike, InRange;
    NeverNarrows(from, to);
    PatternReads(from, v);
  }

  /** The pattern of a number reads as that number, with or without a sign. */
  lemma PatternReads(t: Ty, v: int)
    requires IsScalar(t) && InRange(t, v)
    ensures if IsSigned(t) then AsSigned(Width(t), Enc(Width(t), v)) == v else Enc(Width(t), v) == v
  {
    hide Width, Pow2, IsSigned, AsSigned, Enc, InRange;
    InRangeDecodes(t, v);
  }
}
