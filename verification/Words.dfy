/** Machine words: two's complement encoding of mathematical integers at a
    width of `w` bits, and the bitwise operators on them. */
module Words {

  datatype Option<+T> = None | Some(value: T)

  function Pow2(n: nat): (p: nat)
    ensures p >= 1
  {
    if n == 0 then 1 else 2 * Pow2(n - 1)
  }

  /** The bit pattern of `v` at width `w`. */
  function Enc(w: nat, v: int): (p: nat)
    ensures p < Pow2(w)
  {
    v % Pow2(w)
  }

  /** Two's complement reading of a pattern. */
  function AsSigned(w: nat, p: nat): int
  {
    if w > 0 && p >= Pow2(w - 1) then p - Pow2(w) else p
  }

  function Decode(signed: bool, w: nat, p: nat): int
  {
    if signed then AsSigned(w, p) else p
  }

  /** The number that `v` wraps around to. */
  function Wrap(signed: bool, w: nat, v: int): int
  {
    Decode(signed, w, Enc(w, v))
  }

  predicate Fits(signed: bool, w: nat, v: int)
  {
    if signed then w > 0 && 0 - Pow2(w - 1) <= v < Pow2(w - 1) else 0 <= v < Pow2(w)
  }

  lemma MulAway(d: int, m: int)
    requires m > 0
    ensures d >= 1 ==> d * m >= m
    ensures d <= -1 ==> d * m <= -m
  {
  }

  lemma DivModUnique(x: int, m: int, q: int, r: int)
    requires m > 0 && 0 <= r < m
    requires x == q * m + r
    ensures x / m == q && x % m == r
  {
    var d := q - x / m;
    assert d * m == x % m - r;
    MulAway(d, m);
  }

  lemma ModShift(a: int, k: int, m: int)
    requires m > 0
    ensures (a + k * m) % m == a % m
  {
    DivModUnique(a + k * m, m, a / m + k, a % m);
  }

  /** Two numbers a multiple of 2^w apart have the same pattern. */
  lemma EncCongruent(w: nat, a: int, b: int, k: int)
    requires a == b + k * Pow2(w)
    ensures Enc(w, a) == Enc(w, b)
  {
    ModShift(b, k, Pow2(w));
  }

  lemma EncSmall(w: nat, v: int)
    requires 0 <= v < Pow2(w)
    ensures Enc(w, v) == v
  {
    DivModUnique(v, Pow2(w), 0, v);
  }

  lemma EncAdd(w: nat, a: int, b: int)
    ensures Enc(w, Enc(w, a) + Enc(w, b)) == Enc(w, a + b)
  {
    var m := Pow2(w);
    EncCongruent(w, a + b, Enc(w, a) + Enc(w, b), a / m + b / m);
  }

  lemma EncSub(w: nat, a: int, b: int)
    ensures Enc(w, Enc(w, a) - Enc(w, b)) == Enc(w, a - b)
  {
    var m := Pow2(w);
    EncCongruent(w, a - b, Enc(w, a) - Enc(w, b), a / m - b / m);
  }

  lemma EncMul(w: nat, a: int, b: int)
    ensures Enc(w, Enc(w, a) * Enc(w, b)) == Enc(w, a * b)
  {
    var m := Pow2(w);
    var x, y, p, q := Enc(w, a), Enc(w, b), a / m, b / m;
    assert a == p * m + x && b == q * m + y;
    calc {
      a * b;
      (p * m + x) * (q * m + y);
      x * y + (p * q * m + p * y + q * x) * m;
    }
    EncCongruent(w, a * b, x * y, p * q * m + p * y + q * x);
  }

  lemma EncMulLeft(w: nat, a: int, b: int)
    ensures Enc(w, Enc(w, a) * b) == Enc(w, a * b)
  {
    var m := Pow2(w);
    assert a * b == Enc(w, a) * b + (a / m * b) * m;
    EncCongruent(w, a * b, Enc(w, a) * b, a / m * b);
  }

  lemma Pow2Add(a: nat, b: nat)
    ensures Pow2(a + b) == Pow2(a) * Pow2(b)
  {
    if a > 0 {
      Pow2Add(a - 1, b);
      assert Pow2(a + b) == 2 * Pow2(a + b - 1);
    }
  }

  lemma Pow2Monotone(a: nat, b: nat)
    requires a <= b
    ensures Pow2(a) <= Pow2(b)
  {
    if a < b {
      Pow2Monotone(a, b - 1);
    }
  }

  lemma Doubled(w: nat)
    requires w > 0
    ensures Pow2(w) == 2 * Pow2(w - 1)
  {
  }

  lemma Pow2Above(n: nat)
    ensures n < Pow2(n)
  {
  }

  lemma MulAssoc(a: int, b: int, c: int)
    ensures a * (b * c) == a * b * c
  {
  }

  /** Truncating a wider pattern gives the pattern of the number itself. */
  lemma EncNarrow(w: nat, wide: nat, v: int)
    requires w <= wide
    ensures Enc(w, Enc(wide, v)) == Enc(w, v)
  {
    hide Pow2;
    Pow2Add(wide - w, w);
    var m, k := Pow2(w), Pow2(wide - w);
    var q, e := v / (k * m), v % (k * m);
    MulAssoc(q, k, m);
    EncCongruent(w, v, e, q * k);
  }

  lemma DecodeFits(signed: bool, w: nat, p: nat)
    requires w > 0 && p < Pow2(w)
    ensures Fits(signed, w, Decode(signed, w, p))
    ensures Enc(w, Decode(signed, w, p)) == p
  {
    EncSmall(w, p);
    if signed && p >= Pow2(w - 1) {
      EncCongruent(w, p - Pow2(w), p, -1);
    }
  }

  lemma DecodeEnc(signed: bool, w: nat, v: int)
    requires w > 0 && Fits(signed, w, v)
    ensures Decode(signed, w, Enc(w, v)) == v
  {
    if v >= 0 {
      EncSmall(w, v);
    } else {
      EncCongruent(w, v, v + Pow2(w), -1);
      EncSmall(w, v + Pow2(w));
    }
  }

  lemma WrapFacts(signed: bool, w: nat, v: int)
    requires w > 0
    ensures Fits(signed, w, Wrap(signed, w, v))
    ensures Enc(w, Wrap(signed, w, v)) == Enc(w, v)
  {
    DecodeFits(signed, w, Enc(w, v));
  }

  // ---------------------------------------------------------------- bitwise

  datatype BitOp = BitAnd | BitOr | BitXor

  function BitOf(op: BitOp, x: int, y: int): (b: nat)
    ensures b <= 1
  {
    match op
    case BitAnd => if x == 1 && y == 1 then 1 else 0
    case BitOr => if x == 1 || y == 1 then 1 else 0
    case BitXor => if x != y then 1 else 0
  }

  /** The low `w` bits of the bitwise operator on two's complement integers. */
  function Bitwise(op: BitOp, w: nat, a: int, b: int): (r: nat)
    ensures r < Pow2(w)
  {
    if w == 0 then 0
    else BitOf(op, a % 2, b % 2) + 2 * Bitwise(op, w - 1, a / 2, b / 2)
  }

  lemma HalfOfEnc(w: nat, a: int)
    requires w > 0
    ensures Enc(w, a) % 2 == a % 2
    ensures Enc(w, a) / 2 == Enc(w - 1, a / 2)
  {
    var m := Pow2(w - 1);
    var h := a / 2;
    assert a == (h / m) * (2 * m) + (2 * (h % m) + a % 2) by {
      assert h == (h / m) * m + h % m;
    }
    DivModUnique(a, 2 * m, h / m, 2 * (h % m) + a % 2);
  }

  /** Only the low `w` bits of the operands matter. */
  lemma {:induction false} BitwiseEnc(op: BitOp, w: nat, a: int, b: int)
    ensures Bitwise(op, w, Enc(w, a), Enc(w, b)) == Bitwise(op, w, a, b)
  {
    if w > 0 {
      HalfOfEnc(w, a);
      HalfOfEnc(w, b);
      BitwiseEnc(op, w - 1, a / 2, b / 2);
    }
  }

  /** What two patterns have in common and what either has add up to both; what
      only one of them has is the difference. */
  lemma {:induction false} AndOrXor(w: nat, a: int, b: int)
    ensures Bitwise(BitAnd, w, a, b) + Bitwise(BitOr, w, a, b) == Enc(w, a) + Enc(w, b)
    ensures Bitwise(BitXor, w, a, b) == Bitwise(BitOr, w, a, b) - Bitwise(BitAnd, w, a, b)
  {
    if w == 0 {
      DivModUnique(a, 1, a, 0);
      DivModUnique(b, 1, b, 0);
    } else {
      AndOrXor(w - 1, a / 2, b / 2);
      HalfOfEnc(w, a);
      HalfOfEnc(w, b);
      var x, y := Enc(w, a), Enc(w, b);
      assert x == 2 * (x / 2) + x % 2 && y == 2 * (y / 2) + y % 2;
    }
  }

  /** Flipping every bit is `-a - 1`: what `xor` with all ones computes. */
  lemma {:induction false} XorOnes(w: nat, a: int)
    ensures Bitwise(BitXor, w, a, -1) == Enc(w, -a - 1)
  {
    if w == 0 {
      DivModUnique(-a - 1, 1, -a - 1, 0);
    } else {
      XorOnes(w - 1, a / 2);
      HalfOfEnc(w, -a - 1);
      assert (-a - 1) / 2 == -(a / 2) - 1;
      assert (-a - 1) % 2 == 1 - a % 2;
      assert (-1) / 2 == -1;
      var e := Enc(w, -a - 1);
      assert e == 2 * (e / 2) + e % 2;
    }
  }
}
