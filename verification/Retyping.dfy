/** What an untyped tree is worth once it has a type: through the operators that
    work on low bits alone, the type could as well be given to the result. */
module Retyping {
  import opened Words
  import opened Types
  import opened Tree
  import opened Typing
  import opened Coercion

  // ------------------------------------------------------------ wrapping twice

  lemma Congruent(t: Ty, x: int, y: int)
    requires IsInteger(t) && Enc(Width(t), x) == Enc(Width(t), y)
    ensures WrapTy(t, x) == WrapTy(t, y)
  {
  }

  /** Wrapping at 64 bits first changes nothing. */
  lemma WrapThrough(t: Ty, x: int)
    requires IsInteger(t)
    ensures WrapTy(t, WrapTy(UntypedInt, x)) == WrapTy(t, x)
    ensures Enc(Width(t), WrapTy(t, x)) == Enc(Width(t), x) == Enc(Width(t), WrapTy(UntypedInt, x))
  {
    hide Pow2, Enc;
    IntegerFacts(t);
    UntypedWraps(x);
    EncNarrow(Width(t), 64, x);
    WrapTyFacts(t, x);
    Congruent(t, WrapTy(UntypedInt, x), x);
  }

  lemma IntegerFacts(t: Ty)
    requires IsInteger(t)
    ensures 0 < Width(t) <= 64 && IsIntLike(t) && !IsBoolLike(t)
  {
  }

  lemma UntypedWraps(x: int)
    ensures WrapTy(UntypedInt, x) == Enc(64, x)
  {
    hide Pow2, Enc;
  }

  // ------------------------------------------------------------------ operators

  /** The operators whose low bits depend on the low bits of their operands. */
  predicate IsRing(op: BinOp) {
    op.Add? || op.Sub? || op.Mul? || op.And? || op.Or? || op.Xor?
  }

  /** Their result before it is wrapped. */
  function Raw(op: BinOp, w: nat, a: int, b: int): int
    requires IsRing(op)
  {
    match op
    case Add => a + b
    case Sub => a - b
    case Mul => a * b
    case And => Bitwise(BitAnd, w, a, b)
    case Or => Bitwise(BitOr, w, a, b)
    case Xor => Bitwise(BitXor, w, a, b)
  }

  lemma ArithRaw(op: BinOp, t: Ty, a: int, b: int)
    requires IsRing(op)
    ensures Arith(op, t, a, b) == Some(WrapTy(t, Raw(op, Width(t), a, b)))
  {
    hide WrapTy, Bitwise, Width;
  }

  /** A narrower bitwise result is the low part of a wider one. */
  lemma {:induction false} BitwiseNarrow(op: BitOp, w: nat, n: nat, a: int, b: int)
    requires w <= n
    ensures Enc(w, Bitwise(op, n, a, b)) == Bitwise(op, w, a, b)
  {
    if w == 0 {
      DivModUnique(Bitwise(op, n, a, b), 1, Bitwise(op, n, a, b), 0);
    } else {
      hide Enc;
      var x := Bitwise(op, n, a, b);
      BitwiseNarrow(op, w - 1, n - 1, a / 2, b / 2);
      DivModUnique(x, 2, Bitwise(op, n - 1, a / 2, b / 2), BitOf(op, a % 2, b % 2));
      HalfOfEnc(w, x);
      assert Enc(w, x) == 2 * (Enc(w, x) / 2) + Enc(w, x) % 2;
    }
  }

  lemma BitwiseCongruent(op: BitOp, w: nat, a: int, b: int, c: int, d: int)
    requires w <= 64 && Enc(w, a) == Enc(w, c) && Enc(w, b) == Enc(w, d)
    ensures Enc(w, Bitwise(op, w, a, b)) == Enc(w, Bitwise(op, 64, c, d))
  {
    hide Enc, Bitwise;
    BitwiseEnc(op, w, a, b);
    BitwiseEnc(op, w, c, d);
    BitwiseNarrow(op, w, 64, c, d);
    BitwiseNarrow(op, w, w, a, b);
  }

  lemma RawCongruent(op: BinOp, w: nat, a: int, b: int, c: int, d: int)
    requires IsRing(op) && w <= 64 && Enc(w, a) == Enc(w, c) && Enc(w, b) == Enc(w, d)
    ensures Enc(w, Raw(op, w, a, b)) == Enc(w, Raw(op, 64, c, d))
  {
    hide Enc, Bitwise;
    match op
    case Add => EncAdd(w, a, b); EncAdd(w, c, d);
    case Sub => EncSub(w, a, b); EncSub(w, c, d);
    case Mul => EncMul(w, a, b); EncMul(w, c, d);
    case And => BitwiseCongruent(BitAnd, w, a, b, c, d);
    case Or => BitwiseCongruent(BitOr, w, a, b, c, d);
    case Xor => BitwiseCongruent(BitXor, w, a, b, c, d);
  }

  /** One operator: on wrapped operands at the target's type, or at 64 bits and
      wrapped after. */
  lemma RingStep(op: BinOp, t: Ty, a: int, b: int)
    requires IsRing(op) && IsInteger(t)
    ensures Arith(op, UntypedInt, a, b).Some?
    ensures Arith(op, t, WrapTy(t, a), WrapTy(t, b)) == Some(WrapTy(t, Arith(op, UntypedInt, a, b).value))
  {
    hide Arith, WrapTy, Raw, Enc, IsRing;
    var w, a1, b1 := Width(t), WrapTy(t, a), WrapTy(t, b);
    IntegerFacts(t);
    ArithRaw(op, t, a1, b1);
    ArithRaw(op, UntypedInt, a, b);
    WrapThrough(t, a);
    WrapThrough(t, b);
    RawCongruent(op, w, a1, b1, a, b);
    WrapThrough(t, Raw(op, 64, a, b));
    Congruent(t, Raw(op, w, a1, b1), Raw(op, 64, a, b));
  }

  lemma ShiftStep(t: Ty, a: int, b: int)
    requires IsInteger(t) && Arith(Shl, t, WrapTy(t, a), b).Some?
    ensures Arith(Shl, UntypedInt, a, b).Some?
    ensures Arith(Shl, t, WrapTy(t, a), b) == Some(WrapTy(t, Arith(Shl, UntypedInt, a, b).value))
  {
    hide WrapTy, Enc, Pow2;
    IntegerFacts(t);
    WrapThrough(t, a);
    EncMulLeft(Width(t), a, Pow2(b));
    EncMulLeft(Width(t), WrapTy(t, a), Pow2(b));
    WrapThrough(t, a * Pow2(b));
    Congruent(t, WrapTy(t, a) * Pow2(b), a * Pow2(b));
  }

  lemma UnaryStep(op: UnOp, t: Ty, a: int)
    requires IsInteger(t) && (op.Neg? || op.BitNot?)
    ensures EvalUnary(op, t, WrapTy(t, a)) == WrapTy(t, EvalUnary(op, UntypedInt, a))
  {
    hide WrapTy, Enc;
    var w, k := Width(t), if op.Neg? then 0 else -1;
    WrapThrough(t, a);
    EncSub(w, k, WrapTy(t, a));
    EncSub(w, k, a);
    WrapThrough(t, k - a);
    Congruent(t, k - WrapTy(t, a), k - a);
  }

  // ---------------------------------------------------------------------- trees

  /** No division, remainder or right shift on the way to the literals. */
  predicate LowBits(e: Expr)
    decreases e
  {
    match e
    case Unary(_, operand, _) => LowBits(operand)
    case Binary(op, l, r, _) => LowBits(l) && (op.Shl? || (IsRing(op) && LowBits(r)))
    case _ => true
  }

  /** Giving such a tree a type has the value, and the calls, of converting the
      64-bit result to it, wherever the retyped tree has a value at all: a shift
      may be too far for the narrower type. */
  lemma {:induction false} RetypeKeepsValue(e: Expr, target: Ty, scope: Scope, vars: seq<Local>, tr: Trace, orc: Oracle)
    requires UntypedTree(e, scope) && LowBits(e) && IsInteger(target) && Retype(e, target).errors == 0
    requires Eval(Retype(e, target).expr, vars, tr, orc).Val?
    ensures Eval(e, vars, tr, orc).Val?
    ensures Eval(Retype(e, target).expr, vars, tr, orc) == Eval(Conv(e, target), vars, tr, orc)
    decreases e
  {
    hide WrapTy, Arith, EvalUnary, InRange, IntFits, TypedExpr, IsInteger, IsIntLike;
    match e
    case Int(n, _) => LiteralStays(n, target);
    case Unary(op, operand, _) =>
      RetypeKeepsValue(operand, target, scope, vars, tr, orc);
      UnaryStep(op, target, Eval(operand, vars, tr, orc).value);
    case Binary(op, l, r, _) =>
      RetypeKeepsValue(l, target, scope, vars, tr, orc);
      var a := Eval(l, vars, tr, orc);
      if op.Shl? {
        ShiftStep(target, a.value, Eval(r, vars, a.trace, orc).value);
      } else {
        RetypeKeepsValue(r, target, scope, vars, a.trace, orc);
        RingStep(op, target, a.value, Eval(r, vars, a.trace, orc).value);
      }
  }

  lemma LiteralStays(n: nat, t: Ty)
    requires IsInteger(t) && IntFits(t, n) && InRange(UntypedInt, n)
    ensures WrapTy(t, n) == n
  {
    hide InRange, IntFits, WrapTy, IsInteger;
    FitsInRange(t, n);
    ScalarInteger(t);
    WrapIffHeld(t, n);
  }

  lemma ScalarInteger(t: Ty)
    requires IsInteger(t)
    ensures IsScalar(t)
  {
  }

  /** Division sees the high bits: `-1 / 2` as an i32 is 0, but at 64 bits it is
      2^63 - 1, which reads as -1 when converted. */
  lemma DivisionKeepsNot(vars: seq<Local>, tr: Trace, orc: Oracle)
    ensures var e := Binary(Div, Unary(Neg, Int(1, UntypedInt), UntypedInt), Int(2, UntypedInt), UntypedInt);
            && Retype(e, I32).errors == 0
            && Eval(Retype(e, I32).expr, vars, tr, orc) == Val(0, tr)
            && Eval(Conv(e, I32), vars, tr, orc) == Val(-1, tr)
  {
    hide Pow2, WrapTy, InRange;
    var minus := Unary(Neg, Int(1, UntypedInt), UntypedInt);
    var e := Binary(Div, minus, Int(2, UntypedInt), UntypedInt);
    MinusOneHalved();
    assert Eval(minus, vars, tr, orc) == Val(Pow2(64) - 1, tr);
    assert Eval(e, vars, tr, orc) == Val(Pow2(63) - 1, tr);
    var r := Retype(e, I32).expr;
    assert r == Binary(Div, Unary(Neg, Int(1, I32), I32), Int(2, I32), I32);
    assert Eval(r.lhs, vars, tr, orc) == Val(-1, tr);
  }

  lemma MinusOneHalved()
    ensures WrapTy(UntypedInt, -1) == Pow2(64) - 1 == 2 * Pow2(63) - 1
    ensures TruncDiv(Pow2(64) - 1, 2) == Pow2(63) - 1 && InRange(UntypedInt, Pow2(63) - 1)
    ensures WrapTy(I32, Pow2(63) - 1) == -1 && WrapTy(I32, -1) == -1
    ensures TruncDiv(-1, 2) == 0 && InRange(I32, 0)
  {
    hide Pow2;
    Doubled(64);
    Doubled(32);
    Pow2Monotone(0, 31);
    Pow2Monotone(0, 63);
    EncCongruent(64, -1, Pow2(64) - 1, -1);
    EncSmall(64, Pow2(64) - 1);
    Pow2Add(31, 32);
    EncCongruent(32, Pow2(63) - 1, -1, Pow2(31));
    EncCongruent(32, -1, Pow2(32) - 1, -1);
    EncSmall(32, Pow2(32) - 1);
  }
}
