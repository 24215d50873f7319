/** Integer constants in the IR: 64 raw bits, read back as a number by extending
    the sign by hand. */
module Constants {
  import opened Words
  import opened Types
  import opened ProbingMap

  /** `ir_const_signed`: masks the raw bits down to the width and, if the sign bit
      is set, fills in everything above it. */
  function ConstSigned(bits: nat, raw: nat): int
    requires bits > 0
  {
    if bits >= 64 then AsSigned(64, Enc(64, raw))
    else
      var sign := Pow2(bits - 1);
      var low := Bitwise(BitAnd, 64, raw, 2 * sign - 1);
      if Bitwise(BitAnd, 64, low, sign) != 0 then
        AsSigned(64, Bitwise(BitOr, 64, low, Bitwise(BitXor, 64, 2 * sign - 1, -1)))
      else AsSigned(64, low)
  }

  // ---------------------------------------------------------------------- bits

  /** A number below 2^k has its top bit set exactly when it is 2^(k-1) or more. */
  lemma {:induction false} TopBit(w: nat, p: nat, k: nat)
    requires 0 < k <= w && p < Pow2(k)
    ensures Bitwise(BitAnd, w, p, Pow2(k - 1)) != 0 <==> p >= Pow2(k - 1)
  {
    if k == 1 {
      NoBits(w - 1, p / 2);
    } else {
      TopBit(w - 1, p / 2, k - 1);
      assert Pow2(k - 1) == 2 * Pow2(k - 2);
    }
  }

  lemma {:induction false} NoBits(w: nat, p: nat)
    ensures Bitwise(BitAnd, w, p, 0) == 0
  {
    if w > 0 {
      NoBits(w - 1, p / 2);
    }
  }

  /** Setting every bit from `k` up subtracts 2^k, modulo 2^w. */
  lemma {:induction false} FillHigh(w: nat, p: nat, k: nat)
    requires k <= w && p < Pow2(k)
    ensures Bitwise(BitOr, w, p, 0 - Pow2(k)) == Pow2(w) - Pow2(k) + p
  {
    if k == 0 {
      AllOnes(w);
    } else {
      FillHigh(w - 1, p / 2, k - 1);
      FillStep(w, p, Pow2(k - 1));
    }
  }

  lemma FillStep(w: nat, p: nat, m: nat)
    requires w > 0
    ensures Bitwise(BitOr, w, p, 0 - 2 * m) == p % 2 + 2 * Bitwise(BitOr, w - 1, p / 2, 0 - m)
  {
    assert (0 - 2 * m) / 2 == 0 - m && (0 - 2 * m) % 2 == 0;
  }

  lemma {:induction false} AllOnes(w: nat)
    ensures Bitwise(BitOr, w, 0, -1) == Pow2(w) - 1
  {
    if w > 0 {
      AllOnes(w - 1);
      assert (-1) / 2 == -1 && (-1) % 2 == 1;
    }
  }

  /** Reading a constant back gives its low bits as a signed number. */
  lemma ConstSignedReads(bits: nat, raw: nat)
    requires 0 < bits <= 64
    ensures ConstSigned(bits, raw) == AsSigned(bits, Enc(bits, raw))
  {
    hide Bitwise, Pow2;
    if bits < 64 {
      var sign := Pow2(bits - 1);
      assert Pow2(bits) == 2 * sign by {
        Doubled(bits);
      }
      MaskIsRemainder(64, raw, bits);
      var p := Enc(bits, raw);
      TopBit(64, p, bits);
      XorOnes(64, Pow2(bits) - 1);
      BitwiseEnc(BitOr, 64, p, 0 - Pow2(bits));
      BitwiseEnc(BitOr, 64, p, Enc(64, 0 - Pow2(bits)));
      EncSmall(64, Enc(64, 0 - Pow2(bits)));
      FillHigh(64, p, bits);
      Pow2Monotone(bits, 63);
      Doubled(64);
    }
  }

  /** A literal that fits its type reads back as the number written, exactly when
      its top bit is clear; in a signed type that is always so. */
  lemma LiteralReadsBack(t: Ty, v: nat)
    requires IsInteger(t) && IntFits(t, v) && InRange(t, v)
    ensures ConstSigned(Width(t), v) == v <==> v < Pow2(Width(t) - 1)
    ensures IsSigned(t) ==> ConstSigned(Width(t), v) == v
  {
    hide Pow2;
    var w := Width(t);
    ConstSignedReads(w, v);
    Doubled(w);
    EncSmall(w, v);
  }
}
