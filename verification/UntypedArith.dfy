/** Integers that never met a type are lowered at 64 bits, and as neither side is
    a signed type, with the unsigned operators. Each lemma says for which numbers
    of 64-bit signed range that is what the program says. */
module UntypedArith {
  import opened Words
  import opened Types
  import opened Tree
  import opened Ir
  import opened Lowering

  // --------------------------------------------------------------------- words

  lemma UnsignedPattern(w: nat, a: int)
    requires w > 0 && Fits(true, w, a)
    ensures Enc(w, a) == (if a < 0 then a + Pow2(w) else a)
  {
    hide Pow2;
    assert Pow2(w) == 2 * Pow2(w - 1) by { Doubled(w); }
    if a < 0 {
      EncCongruent(w, a, a + Pow2(w), -1);
      EncSmall(w, a + Pow2(w));
    } else {
      EncSmall(w, a);
    }
  }

  /** A number of at most 64 signed bits, or the one past them, as a word. */
  function AsWord(v: int, h: nat): int {
    if v < 0 then v + 2 * h else v
  }

  lemma Pattern(v: int)
    requires 0 - Pow2(63) <= v <= Pow2(63)
    ensures Enc(64, v) == AsWord(v, Pow2(63)) && Pow2(64) == 2 * Pow2(63) && Pow2(63) > 64
  {
    hide Pow2;
    Doubled(64);
    assert Pow2(7) == 128 by { Small(); }
    Pow2Monotone(7, 63);
    if v < Pow2(63) {
      UnsignedPattern(64, v);
    } else {
      EncSmall(64, v);
    }
  }

  lemma Small()
    ensures Pow2(0) == 1 && Pow2(1) == 2 && Pow2(7) == 128
  {
    assert Pow2(4) == 16;
  }

  // ------------------------------------------------------------------ quotients

  lemma Quotient(x: nat, y: nat)
    requires y > 0
    ensures 0 <= x / y <= x && x == x / y * y + x % y
    ensures x >= y ==> x / y >= 1
    ensures y >= 2 ==> 2 * (x / y) <= x
  {
    var q, r := x / y, x % y;
    assert x == q * y + r;
    if q <= -1 {
      MulAway(q, y);
    }
    if q >= 1 {
      MulAway(q, y);
      MulAway(y, q);
      if y >= 2 {
        MulAway(y - 1, q);
      }
    }
  }

  lemma Smaller(x: nat, y: nat)
    requires x < y
    ensures x / y == 0 && x % y == x
  {
    DivModUnique(x, y, 0, x);
  }

  lemma JustOver(x: nat, y: nat)
    requires 0 < y <= x < 2 * y
    ensures x / y == 1 && x % y == x - y
  {
    DivModUnique(x, y, 1, x - y);
  }

  /** The source's division on magnitudes. */
  lemma Truncated(a: int, b: int)
    requires b != 0
    ensures var x, y := if a < 0 then -a else a, if b < 0 then -b else b;
            && TruncDiv(a, b) == (if (a < 0) == (b < 0) then x / y else -(x / y))
            && TruncRem(a, b) == (if a < 0 then -(x % y) else x % y)
  {
    var x, y := if a < 0 then -a else a, if b < 0 then -b else b;
    var q, r := x / y, x % y;
    assert x == q * y + r;
  }

  lemma Quotients(a: int, b: int, h: nat)
    requires h > 1 && 0 - h <= a < h && 0 - h <= b < h && b != 0
    ensures AsWord(a, h) / AsWord(b, h) == AsWord(TruncDiv(a, b), h)
            <==> (if a >= 0 then b > 0 || a < -b else b == 1 || a == b)
  {
    hide TruncDiv;
    Truncated(a, b);
    if a >= 0 && b > 0 {
      Quotient(a, b);
    } else if a >= 0 {
      Smaller(a, b + 2 * h);
      Quotient(a, -b);
      if a < -b {
        Smaller(a, -b);
      }
    } else if b > 0 {
      NegativeByPositive(a, b, h);
    } else if a >= b {
      JustOver(a + 2 * h, b + 2 * h);
      if a == b {
        JustOver(-a, -b);
      } else {
        Smaller(-a, -b);
      }
    } else {
      Smaller(a + 2 * h, b + 2 * h);
      Quotient(-a, -b);
    }
  }

  lemma NegativeByPositive(a: int, b: int, h: nat)
    requires h > 1 && 0 - h <= a < 0 < b < h
    ensures (a + 2 * h) / b == AsWord(-(-a / b), h) <==> b == 1
  {
    Quotient(a + 2 * h, b);
    Quotient(-a, b);
  }

  lemma Remainders(a: int, b: int, h: nat)
    requires h > 1 && 0 - h <= a < h && 0 - h <= b < h && b != 0
    ensures AsWord(a, h) % AsWord(b, h) == AsWord(TruncRem(a, b), h)
            <==> (if a >= 0 then b > 0 || a < -b else a == b || (b > 0 && -a % b == 0 && (2 * h) % b == 0))
  {
    hide TruncRem;
    Truncated(a, b);
    if a >= 0 && b < 0 {
      Smaller(a, b + 2 * h);
      if a < -b {
        Smaller(a, -b);
      }
    } else if a < 0 && b > 0 {
      SumOfMultiples(-a, 2 * h, b);
    } else if a < 0 && a >= b {
      JustOver(a + 2 * h, b + 2 * h);
      if a == b {
        JustOver(-a, -b);
      } else {
        Smaller(-a, -b);
      }
    } else if a < 0 {
      Smaller(a + 2 * h, b + 2 * h);
    }
  }

  lemma SumOfMultiples(x: nat, y: nat, b: nat)
    requires b > 0 && x <= y
    ensures x % b == 0 ==> (y - x) % b == y % b
  {
    if x % b == 0 {
      var k := x / b;
      assert x == k * b;
      assert y - x == y + -k * b;
      ModShift(y, -k, b);
    }
  }

  // ----------------------------------------------------------------- operators

  /** A comparison is right exactly for numbers of the same sign; a test for
      equality always is. */
  lemma UntypedCompare(op: BinOp, a: int, b: int)
    requires IsComparison(op) && Fits(true, 64, a) && Fits(true, 64, b)
    ensures IrCompare(IntPred(op, IsSigned(UntypedInt)), 64, Enc(64, a), Enc(64, b)) == Compare(op, a, b)
            <==> op.Eq? || op.Ne? || (a < 0) == (b < 0)
  {
    hide Pow2;
    Pattern(a);
    Pattern(b);
  }

  /** What the lowered operator computes on two untyped integers at width `w`. */
  function UntypedOpAt(op: BinOp, w: nat, a: int, b: int): Option<nat> {
    IrBin(IntBinop(op, IsSigned(UntypedInt)), w, Enc(w, a), Enc(w, b))
  }

  function UntypedOp(op: BinOp, a: int, b: int): Option<nat> {
    UntypedOpAt(op, 64, a, b)
  }

  /** Division is unsigned: right exactly when neither number is negative, or in
      the few cases where the unsigned quotient happens to be the same. */
  lemma UntypedDivide(a: int, b: int)
    requires Fits(true, 64, a) && Fits(true, 64, b) && b != 0
    ensures UntypedOp(Div, a, b) == Some(Enc(64, TruncDiv(a, b)))
            <==> (if a >= 0 then b > 0 || a < -b else b == 1 || a == b)
  {
    hide Pow2, TruncDiv;
    Pattern(a);
    Pattern(b);
    QuotientWord(a, b);
    Quotients(a, b, Pow2(63));
    DivideEmits(a, b);
  }

  lemma QuotientWord(a: int, b: int)
    requires Fits(true, 64, a) && b != 0
    ensures Enc(64, TruncDiv(a, b)) == AsWord(TruncDiv(a, b), Pow2(63))
  {
    hide Pow2, TruncDiv;
    Truncated(a, b);
    Quotient(if a < 0 then -a else a, if b < 0 then -b else b);
    Pattern(TruncDiv(a, b));
  }

  lemma DivideEmits(a: int, b: int)
    requires Fits(true, 64, a) && Fits(true, 64, b) && b != 0
    ensures UntypedOp(Div, a, b) == Some(AsWord(a, Pow2(63)) / AsWord(b, Pow2(63)))
  {
    hide Pow2;
    Pattern(a);
    Pattern(b);
    Quotient(Enc(64, a), Enc(64, b));
    EncSmall(64, Enc(64, a) / Enc(64, b));
  }

  /** So is the remainder; of a negative number by a positive one it comes out
      right when both remainders are zero. */
  lemma UntypedRemainder(a: int, b: int)
    requires Fits(true, 64, a) && Fits(true, 64, b) && b != 0
    ensures UntypedOp(Rem, a, b) == Some(Enc(64, TruncRem(a, b)))
            <==> (if a >= 0 then b > 0 || a < -b else a == b || (b > 0 && -a % b == 0 && Pow2(64) % b == 0))
  {
    hide Pow2, TruncRem;
    Pattern(a);
    Pattern(b);
    RemainderWord(a, b);
    Remainders(a, b, Pow2(63));
    RemainderEmits(a, b);
  }

  lemma RemainderWord(a: int, b: int)
    requires Fits(true, 64, a) && Fits(true, 64, b) && b != 0
    ensures Enc(64, TruncRem(a, b)) == AsWord(TruncRem(a, b), Pow2(63))
  {
    hide Pow2, TruncRem;
    Truncated(a, b);
    Pattern(TruncRem(a, b));
  }

  lemma RemainderEmits(a: int, b: int)
    requires Fits(true, 64, a) && Fits(true, 64, b) && b != 0
    ensures UntypedOp(Rem, a, b) == Some(AsWord(a, Pow2(63)) % AsWord(b, Pow2(63)))
  {
    hide Pow2;
    Pattern(a);
    Pattern(b);
    EncSmall(64, Enc(64, a) % Enc(64, b));
  }

  // -------------------------------------------------------------------- shifts

  lemma ShiftLeftAt(w: nat, a: int, b: int)
    requires 0 <= b < w <= 64
    ensures UntypedOpAt(Shl, w, a, b) == Some(Enc(64, a * Pow2(b))) <==> Enc(64, a * Pow2(b)) < Pow2(w)
  {
    hide Pow2;
    Pow2Above(w);
    EncSmall(w, b);
    var v := a * Pow2(b);
    EncMulLeft(w, a, Pow2(b));
    EncNarrow(w, 64, v);
    if Enc(64, v) < Pow2(w) {
      EncSmall(w, Enc(64, v));
    }
  }

  /** A right shift brings in zeros, and at a narrow width it has lost the high
      bits before. */
  lemma ShiftRightAt(w: nat, a: int, b: int)
    requires 0 <= b < w <= 64 && Fits(true, 64, a)
    ensures UntypedOpAt(Shr, w, a, b) == Some(Enc(64, a / Pow2(b)))
            <==> (if a >= 0 then a < Pow2(w) else w == 64 && b == 0)
  {
    hide Pow2, Enc, UntypedOpAt;
    ShiftEmits(w, a, b);
    if a >= 0 {
      ShiftedPositive(w, a, b);
    } else if w < 64 {
      ShiftedNarrow(w, a, b);
    } else if b > 0 {
      ShiftedNegative(a, b);
    } else {
      ShiftByNone(a);
    }
  }

  lemma ShiftEmits(w: nat, a: int, b: int)
    requires 0 <= b < w <= 64
    ensures UntypedOpAt(Shr, w, a, b) == Some(Enc(w, Enc(w, a) / Pow2(b))) == Some(Enc(w, a) / Pow2(b))
  {
    hide Pow2;
    Pow2Above(w);
    EncSmall(w, b);
    Quotient(Enc(w, a), Pow2(b));
    EncSmall(w, Enc(w, a) / Pow2(b));
  }

  lemma ShiftedPositive(w: nat, a: nat, b: nat)
    requires b < w <= 64 && Fits(true, 64, a)
    ensures Enc(w, a) / Pow2(b) == Enc(64, a / Pow2(b)) <==> a < Pow2(w)
  {
    hide Pow2;
    Pattern(a);
    Quotient(a, Pow2(b));
    EncSmall(64, a / Pow2(b));
    if a < Pow2(w) {
      EncSmall(w, a);
    } else {
      Pow2Add(w - b, b);
      HighBits(a, Pow2(w - b), Pow2(b));
    }
  }

  /** Dropping what lies above `p * m` changes the quotient by `m`. */
  lemma HighBits(a: nat, p: nat, m: nat)
    requires p > 0 && m > 0 && p * m > 0 && a >= p * m
    ensures a % (p * m) / m < a / m
  {
    var w := p * m;
    var k, e := a / w, a % w;
    Quotient(a, w);
    Quotient(e, m);
    HighPart(a, k, p, m, e / m, e % m, e, w);
  }

  lemma HighPart(a: nat, k: nat, p: nat, m: nat, q: nat, r: nat, e: nat, w: nat)
    requires k >= 1 && p >= 1 && r < m && w == p * m && a == k * w + e && e == q * m + r
    ensures q < a / m
  {
    MulAssoc(k, p, m);
    assert a == (k * p + q) * m + r;
    DivModUnique(a, m, k * p + q, r);
    MulAway(k, p);
  }

  lemma ShiftedNarrow(w: nat, a: int, b: nat)
    requires b < w < 64 && Fits(true, 64, a) && a < 0
    ensures Enc(w, a) / Pow2(b) != Enc(64, a / Pow2(b))
  {
    hide Pow2;
    Pow2Monotone(w, 63);
    Quotient(Enc(w, a), Pow2(b));
    Pattern(a);
    NegativeFloor(a, Pow2(b));
    Pattern(a / Pow2(b));
  }

  lemma ShiftByNone(a: int)
    ensures Enc(64, a) / Pow2(0) == Enc(64, a / Pow2(0))
  {
    hide Pow2;
    Small();
  }

  lemma ShiftedNegative(a: int, b: nat)
    requires Fits(true, 64, a) && a < 0 < b < 64
    ensures Enc(64, a) / Pow2(b) != Enc(64, a / Pow2(b))
  {
    hide Pow2;
    Pattern(a);
    var m := Pow2(b);
    assert m >= 2 by { Pow2Monotone(1, b); Small(); }
    Quotient(a + Pow2(64), m);
    NegativeFloor(a, m);
    Pattern(a / m);
  }

  lemma NegativeFloor(a: int, m: nat)
    requires a < 0 < m
    ensures a <= a / m < 0
  {
    var q, r := a / m, a % m;
    assert a == q * m + r;
    if q >= 1 {
      MulAway(q, m);
    }
    if q + 1 < 0 {
      MulAway(m, -(q + 1));
    }
  }

  lemma NarrowShiftAt()
    ensures UntypedOpAt(Shl, 8, 2, 7) == Some(0) && Enc(64, 2 * Pow2(7)) == 256
    ensures UntypedOpAt(Shr, 8, 256, 1) == Some(0) && Enc(64, 256 / Pow2(1)) == 128
  {
    hide Pow2;
    Small();
    Doubled(8);
    Pow2Monotone(9, 64);
    Doubled(9);
    EncCongruent(8, 2 * Pow2(7), 0, 1);
    EncCongruent(8, 256, 0, 1);
    EncSmall(8, 0);
    EncSmall(8, 2);
    EncSmall(8, 7);
    EncSmall(8, 1);
    EncSmall(64, 256);
    EncSmall(64, 128);
  }

  // ------------------------------------------------------------------ examples

  /** `-1 < 2` is false. */
  lemma MinusOneIsNotLess(vars: seq<Local>, tr: Trace, orc: Oracle)
    ensures Eval(Binary(Lt, Unary(Neg, Int(1, UntypedInt), UntypedInt), Int(2, UntypedInt), UntypedBool), vars, tr, orc)
            == Val(0, tr)
  {
    hide Pow2, WrapTy;
    var minus := Unary(Neg, Int(1, UntypedInt), UntypedInt);
    MinusOne();
    assert Eval(minus, vars, tr, orc) == Val(Pow2(64) - 1, tr);
  }

  lemma MinusOne()
    ensures WrapTy(UntypedInt, -1) == Pow2(64) - 1 > 2
  {
    hide Pow2;
    Pattern(-1);
  }

  /** `-6 / 2` is not -3, `-5 % 3` is not -2, and `-4 >> 1` is not -2. */
  lemma NegativesGoWrong()
    ensures UntypedOp(Div, -6, 2) != Some(Enc(64, TruncDiv(-6, 2)))
    ensures UntypedOp(Rem, -5, 3) != Some(Enc(64, TruncRem(-5, 3)))
    ensures UntypedOp(Shr, -4, 1) != Some(Enc(64, -4 / Pow2(1)))
  {
    hide UntypedOpAt, Pow2, TruncDiv, TruncRem, Enc;
    Pattern(0);
    UntypedDivide(-6, 2);
    UntypedRemainder(-5, 3);
    ShiftRightAt(64, -4, 1);
  }
}
