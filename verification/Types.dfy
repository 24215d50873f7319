/** The types of the checked program. They are interned, so `==` on this datatype is
    the pointer comparison of the compiler (see Interning.dfy). */
module Types {
  import opened Words

  datatype Member = Member(name: string, value: nat)

  /** Compound types refer to other types by their place in the type table. */
  type TypeId = nat

  /** The integer types an enum may be built on. */
  datatype Base = OnI8 | OnU8 | OnI32 | OnU32 | OnI64 | OnU64

  datatype Ty =
    | Void
    | I8 | U8 | I32 | U32 | I64 | U64
    | F32 | F64
    | B8 | B32 | B64
    | Ptr(elem: TypeId)
    | Array(elem: TypeId, length: nat)
    | Struct(name: string)
    | Enum(name: string, base: Base, members: seq<Member>)
    | UntypedInt | UntypedFloat | UntypedBool | Null
    | Poison

  function BaseTy(b: Base): Ty {
    match b
    case OnI8 => I8
    case OnU8 => U8
    case OnI32 => I32
    case OnU32 => U32
    case OnI64 => I64
    case OnU64 => U64
  }

  predicate IsInteger(t: Ty) {
    t.I8? || t.U8? || t.I32? || t.U32? || t.I64? || t.U64?
  }

  predicate IsSigned(t: Ty) {
    t.I8? || t.I32? || t.I64?
  }

  predicate IsFloat(t: Ty) {
    t.F32? || t.F64?
  }

  predicate IsBool(t: Ty) {
    t.B8? || t.B32? || t.B64?
  }

  predicate IsUntyped(t: Ty) {
    t.UntypedInt? || t.UntypedFloat? || t.UntypedBool? || t.Null?
  }

  /** Does the literal `value` fit in this type? A minus sign is no part of it. */
  predicate IntFits(t: Ty, value: nat) {
    match if t.Enum? then BaseTy(t.base) else t
    case I8 => value <= 0x7F
    case U8 => value <= 0xFF
    case I32 => value <= 0x7FFF_FFFF
    case U32 => value <= 0xFFFF_FFFF
    case I64 => value <= 0x7FFF_FFFF_FFFF_FFFF
    case U64 => true
    case F32 => true
    case F64 => true
    case _ => false
  }

  // ----------------------------------------------------------- scalar values

  /** Integer-valued types: what the scalar fragment computes on. */
  predicate IsIntLike(t: Ty) {
    IsInteger(t) || t.UntypedInt? || t.Enum?
  }

  predicate IsBoolLike(t: Ty) {
    IsBool(t) || t.UntypedBool?
  }

  predicate IsScalar(t: Ty) {
    IsIntLike(t) || IsBoolLike(t)
  }

  /** The width lowering gives a scalar; an untyped int is 64 bits wide and an
      untyped bool 32. */
  function Width(t: Ty): (w: nat)
    ensures IsScalar(t) ==> w in {8, 32, 64}
  {
    match t
    case I8 => 8
    case U8 => 8
    case B8 => 8
    case I32 => 32
    case U32 => 32
    case B32 => 32
    case UntypedBool => 32
    case I64 => 64
    case U64 => 64
    case B64 => 64
    case UntypedInt => 64
    case Enum(_, base, _) => BaseWidth(base)
    case _ => 0
  }

  function BaseWidth(b: Base): nat {
    match b
    case OnI8 => 8
    case OnU8 => 8
    case OnI32 => 32
    case OnU32 => 32
    case OnI64 => 64
    case OnU64 => 64
  }

  /** The values a scalar type ranges over. Booleans are 0 and 1; an enum counts
      as unsigned, as in IsSigned. */
  predicate InRange(t: Ty, v: int) {
    if IsBoolLike(t) then v == 0 || v == 1 else Fits(IsSigned(t), Width(t), v)
  }

  /** The value of a computation whose mathematical result is `n`. */
  function WrapTy(t: Ty, n: int): int {
    if IsBoolLike(t) then (if n == 0 then 0 else 1) else Wrap(IsSigned(t), Width(t), n)
  }

  lemma WrapTyFacts(t: Ty, n: int)
    requires IsIntLike(t)
    ensures InRange(t, WrapTy(t, n))
    ensures Enc(Width(t), WrapTy(t, n)) == Enc(Width(t), n)
  {
    hide Wrap, Fits, Enc, IsIntLike, IsBoolLike, IsSigned, Width;
    IntNotBool(t);
    WrapFacts(IsSigned(t), Width(t), n);
  }

  lemma IntNotBool(t: Ty)
    requires IsIntLike(t)
    ensures !IsBoolLike(t) && Width(t) > 0
  {
  }

  lemma InRangeDecodes(t: Ty, v: int)
    requires IsScalar(t) && InRange(t, v)
    ensures Decode(IsSigned(t), Width(t), Enc(Width(t), v)) == v
  {
    if IsBoolLike(t) {
      Pow2Monotone(1, Width(t));
      EncSmall(Width(t), v);
    } else {
      DecodeEnc(IsSigned(t), Width(t), v);
    }
  }
}
