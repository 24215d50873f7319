/** The opcodes lowering picks compute, on bit patterns, what the language's
    operators mean on numbers. */
module SimWords {
  import opened Words
  import opened Types
  import opened Tree
  import opened Ir
  import opened Lowering

  lemma MulGrows(q: int, p: int)
    requires q >= 0 && p >= 1
    ensures q * p >= q && q * p >= 0
  {
  }

  lemma NegMul(q: int, b: int)
    ensures -q * b == q * -b && -q * b == -(q * b)
  {
  }

  lemma NonNegDiv(a: int, b: int)
    requires a >= 0 && b > 0
    ensures a / b >= 0 && 0 <= a / b * b <= a && a % b == a - a / b * b
    ensures a / b <= a
  {
    var q := a / b;
    assert a == q * b + a % b;
    if q >= 0 {
      MulGrows(q, b);
    } else {
      MulGrows(-q - 1, b);
      NegMul(q, b);
    }
  }

  lemma TruncFacts(a: int, b: int)
    requires b != 0
    ensures a >= 0 && b > 0 ==> TruncDiv(a, b) == a / b && TruncRem(a, b) == a % b
    ensures a >= 0 ==> 0 <= TruncRem(a, b) <= a
    ensures a < 0 ==> a <= TruncRem(a, b) <= 0
  {
    var x, y := if a >= 0 then a else -a, if b > 0 then b else -b;
    var q := x / y;
    NonNegDiv(x, y);
    NegMul(q, b);
    NegMul(q, y);
  }

  lemma ShrFits(a: int, b: nat)
    ensures a >= 0 ==> 0 <= a / Pow2(b) <= a
    ensures a < 0 ==> a <= a / Pow2(b) < 0
  {
    var p := Pow2(b);
    FloorBounds(a, p);
  }

  lemma FloorBounds(a: int, p: int)
    requires p >= 1
    ensures a >= 0 ==> 0 <= a / p <= a
    ensures a < 0 ==> a <= a / p < 0
  {
    if a >= 0 {
      NonNegDiv(a, p);
    } else {
      // -a - 1 = q' * p + r' gives the floor of a / p as -q' - 1
      NonNegDiv(-a - 1, p);
      var q := (-a - 1) / p;
      NegMul(q + 1, p);
      DivModUnique(a, p, -(q + 1), a + (q + 1) * p);
    }
  }

  /** The opcode for `op` at type `t` computes the pattern of the result. */
  predicate Agrees(op: BinOp, t: Ty, a: int, b: int)
    requires !IsComparison(op) && !IsLogical(op)
  {
    var r := Arith(op, t, a, b);
    r.Some? ==>
      && InRange(t, r.value)
      && IrBin(IntBinop(op, IsSigned(t)), Width(t), Enc(Width(t), a), Enc(Width(t), b)) == Some(Enc(Width(t), r.value))
  }

  lemma ArithSim(op: BinOp, t: Ty, a: int, b: int)
    requires IsIntLike(t) && InRange(t, a) && !IsComparison(op) && !IsLogical(op)
    requires IsShift(op) || InRange(t, b)
    ensures Agrees(op, t, a, b)
  {
    match op
    case Add => RingSim(t, a, b);
    case Sub => RingSim(t, a, b);
    case Mul => RingSim(t, a, b);
    case Div => DivSim(t, a, b);
    case Rem => RemSim(t, a, b);
    case And => BitwiseSim(t, a, b);
    case Or => BitwiseSim(t, a, b);
    case Xor => BitwiseSim(t, a, b);
    case Shl => ShlSim(t, a, b);
    case Shr => ShrSim(t, a, b);
  }

  /** Addition, subtraction and multiplication wrap the same way on patterns. */
  lemma RingSim(t: Ty, a: int, b: int)
    requires IsIntLike(t)
    ensures Agrees(Add, t, a, b) && Agrees(Sub, t, a, b) && Agrees(Mul, t, a, b)
  {
    hide Width, IsSigned, InRange, WrapTy, Enc, TruncDiv, TruncRem, Bitwise, Pow2;
    var w := Width(t);
    EncAdd(w, a, b);
    WrapTyFacts(t, a + b);
    EncSub(w, a, b);
    WrapTyFacts(t, a - b);
    EncMul(w, a, b);
    WrapTyFacts(t, a * b);
  }

  lemma DivSim(t: Ty, a: int, b: int)
    requires IsIntLike(t) && InRange(t, a) && InRange(t, b)
    ensures Agrees(Div, t, a, b)
  {
    hide Width, Pow2, Enc, WrapTy, Bitwise;
    InRangeDecodes(t, a);
    InRangeDecodes(t, b);
    if b != 0 {
      TruncFacts(a, b);
    }
  }

  lemma RemSim(t: Ty, a: int, b: int)
    requires IsIntLike(t) && InRange(t, a) && InRange(t, b)
    ensures Agrees(Rem, t, a, b)
  {
    hide Width, Pow2, Enc, WrapTy, Bitwise, AsSigned, TruncDiv, TruncRem;
    InRangeDecodes(t, a);
    InRangeDecodes(t, b);
    if b != 0 {
      TruncFacts(a, b);
    }
  }

  lemma BitwiseSim(t: Ty, a: int, b: int)
    requires IsIntLike(t)
    ensures Agrees(And, t, a, b) && Agrees(Or, t, a, b) && Agrees(Xor, t, a, b)
  {
    hide Width, IsSigned, InRange, WrapTy, Enc, TruncDiv, TruncRem, Bitwise, Pow2;
    var w := Width(t);
    forall op
      ensures var r := WrapTy(t, Bitwise(op, w, a, b));
              InRange(t, r) && Bitwise(op, w, Enc(w, a), Enc(w, b)) == Enc(w, r)
    {
      BitwiseEnc(op, w, a, b);
      WrapTyFacts(t, Bitwise(op, w, a, b));
      EncSmall(w, Bitwise(op, w, a, b));
    }
  }

  lemma ShlSim(t: Ty, a: int, b: int)
    requires IsIntLike(t)
    ensures Agrees(Shl, t, a, b)
  {
    hide Width, InRange, WrapTy, Enc, TruncDiv, TruncRem, Bitwise, Pow2;
    var w := Width(t);
    if 0 <= b < w {
      Pow2Above(w);
      EncSmall(w, b);
      EncMulLeft(w, a, Pow2(b));
      WrapTyFacts(t, a * Pow2(b));
    }
  }

  lemma ShrSim(t: Ty, a: int, b: int)
    requires IsIntLike(t) && InRange(t, a)
    ensures Agrees(Shr, t, a, b)
  {
    hide Width, WrapTy, Enc, TruncDiv, TruncRem, Bitwise, Pow2;
    var w := Width(t);
    if 0 <= b < w {
      InRangeDecodes(t, a);
      Pow2Above(w);
      EncSmall(w, b);
      ShrFits(a, b);
    }
  }

  lemma CompareSim(op: BinOp, t: Ty, a: int, b: int)
    requires IsIntLike(t) && InRange(t, a) && InRange(t, b) && IsComparison(op)
    ensures IrCompare(IntPred(op, IsSigned(t)), Width(t), Enc(Width(t), a), Enc(Width(t), b)) == Compare(op, a, b)
  {
    hide Width, Pow2, Enc;
    InRangeDecodes(t, a);
    InRangeDecodes(t, b);
  }

  lemma NegSim(t: Ty, a: int)
    requires IsIntLike(t)
    ensures InRange(t, EvalUnary(Neg, t, a))
    ensures IrBin(ISub, Width(t), Enc(Width(t), 0), Enc(Width(t), a)) == Some(Enc(Width(t), EvalUnary(Neg, t, a)))
  {
    hide Wrap;
    EncSub(Width(t), 0, a);
    WrapTyFacts(t, -a);
  }

  lemma BitNotSim(t: Ty, a: int)
    requires IsIntLike(t)
    ensures InRange(t, EvalUnary(BitNot, t, a))
    ensures IrBin(IXor, Width(t), Enc(Width(t), a), Enc(Width(t), 0xFFFF_FFFF_FFFF_FFFF))
            == Some(Enc(Width(t), EvalUnary(BitNot, t, a)))
  {
    hide InRange, WrapTy, Enc, Bitwise, Pow2;
    var w := Width(t);
    AllOnes(w);
    BitwiseEnc(BitXor, w, a, -1);
    XorOnes(w, a);
    WrapTyFacts(t, -a - 1);
  }

  /** The constant written for `~`: 64 one bits, read at any narrower width. */
  lemma AllOnes(w: nat)
    requires w in {8, 32, 64}
    ensures Enc(w, 0xFFFF_FFFF_FFFF_FFFF) == Enc(w, -1)
  {
    assert Pow2(8) == 0x100 by { Pow2Add(4, 4); }
    assert Pow2(16) == 0x1_0000 by { Pow2Add(8, 8); }
    assert Pow2(32) == 0x1_0000_0000 by { Pow2Add(16, 16); }
    Pow2Add(32, 32);
    var k := if w == 8 then 0x100_0000_0000_0000 else if w == 32 then 0x1_0000_0000 else 1;
    EncCongruent(w, 0xFFFF_FFFF_FFFF_FFFF, -1, k);
  }

  /** Extension by the signedness of the source type, or truncation, keeps the
      number modulo the target's width. */
  lemma CastSim(from: Ty, w: nat, v: int)
    requires IsScalar(from) && InRange(from, v) && w > 0
    ensures w < Width(from) ==> IrCast(Trunc, Width(from), w, Enc(Width(from), v)) == Enc(w, v)
    ensures w > Width(from) ==>
              IrCast(if IsSigned(from) then SExt else ZExt, Width(from), w, Enc(Width(from), v)) == Enc(w, v)
  {
    if w < Width(from) {
      EncNarrow(w, Width(from), v);
    } else {
      InRangeDecodes(from, v);
    }
  }

  lemma ConvSim(from: Ty, to: Ty, v: int)
    requires IsScalar(from) && IsScalar(to) && InRange(from, v) && (IsBoolLike(to) ==> IsBoolLike(from))
    ensures InRange(to, ConvValue(to, v)) && Enc(Width(to), ConvValue(to, v)) == Enc(Width(to), v)
  {
    if IsIntLike(to) {
      WrapTyFacts(to, v);
    }
  }

  lemma TruthSim(t: Ty, b: bool)
    requires IsBoolLike(t)
    ensures InRange(t, Truth(b)) && Enc(Width(t), Truth(b)) == Truth(b) && Enc(1, Truth(b)) == Truth(b)
  {
    Pow2Monotone(1, Width(t));
    EncSmall(Width(t), Truth(b));
    EncSmall(1, Truth(b));
  }
}
