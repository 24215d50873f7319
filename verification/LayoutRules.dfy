/** Laying fields out in order: the rounding rules, what the offsets promise, and
    the loops that compute them. Offsets and sizes are 32-bit words. */
module LayoutRules {
  import opened Words

  const U32: nat := 0x1_0000_0000

  predicate IsAlign(a: nat) {
    a == 1 || a == 2 || a == 4 || a == 8
  }

  /** A field, as far as its place is concerned. */
  datatype Slot = Slot(size: nat, align: nat)

  predicate WellSized(slots: seq<Slot>) {
    forall i :: 0 <= i < |slots| ==> IsAlign(slots[i].align) && slots[i].size < U32
  }

  // ----------------------------------------------------------------- rounding

  /** The next multiple of `align`, by division, in 32-bit words. */
  function RoundUp(n: nat, align: nat): (r: nat)
    requires align > 0
    ensures r % align == 0 && r <= (n + align - 1) % U32
  {
    Multiple((n + align - 1) % U32 / align, align);
    (n + align - 1) % U32 / align * align
  }

  /** The same by masking the low bits, for powers of two. */
  function MaskUp(n: nat, align: nat): nat {
    Bitwise(BitAnd, 32, n + align - 1, Bitwise(BitXor, 32, align - 1, -1))
  }

  lemma Multiple(q: nat, a: nat)
    requires a > 0
    ensures q * a % a == 0
  {
    DivModUnique(q * a, a, q, 0);
  }

  lemma {:induction false} AndOnes(w: nat, x: int)
    ensures Bitwise(BitAnd, w, x, -1) == Enc(w, x)
  {
    if w == 0 {
      DivModUnique(x, 1, x, 0);
    } else {
      AndOnes(w - 1, x / 2);
      HalfOfEnc(w, x);
      assert (-1) / 2 == -1 && (-1) % 2 == 1;
    }
  }

  lemma HalveTwice(e: nat, m: nat)
    requires m > 0
    ensures 2 * (e / 2 / m * m) == e / (2 * m) * (2 * m)
  {
    var q, r := e / 2 / m, e / 2 % m;
    assert e == 2 * (q * m + r) + e % 2;
    DivModUnique(e, 2 * m, q, 2 * r + e % 2);
  }

  /** An even mask drops the lowest bit. */
  lemma MaskStep(w: nat, x: int, m: nat)
    requires w > 0
    ensures Bitwise(BitAnd, w, x, 0 - 2 * m) == 2 * Bitwise(BitAnd, w - 1, x / 2, 0 - m)
  {
    assert (0 - 2 * m) / 2 == 0 - m && (0 - 2 * m) % 2 == 0;
  }

  lemma FloorStep(w: nat, x: int, m: nat)
    requires w > 0 && m > 0
    ensures 2 * (Enc(w - 1, x / 2) / m * m) == Enc(w, x) / (2 * m) * (2 * m)
  {
    hide Enc;
    HalfOfEnc(w, x);
    HalveTwice(Enc(w, x), m);
  }

  /** Clearing the low `k` bits is dividing and multiplying back. */
  lemma {:induction false} MaskIsFloor(w: nat, x: int, k: nat)
    requires k <= w
    ensures Bitwise(BitAnd, w, x, 0 - Pow2(k)) == Enc(w, x) / Pow2(k) * Pow2(k)
  {
    hide Bitwise, Enc;
    if k == 0 {
      AndOnes(w, x);
    } else {
      var m := Pow2(k - 1);
      MaskIsFloor(w - 1, x / 2, k - 1);
      MaskStep(w, x, m);
      FloorStep(w, x, m);
    }
  }

  lemma Pow2Of32()
    ensures Pow2(32) == U32
  {
    Pow2Add(16, 16);
    assert Pow2(16) == 65536 by {
      Pow2Add(8, 8);
      assert Pow2(8) == 256;
    }
  }

  /** The division and the mask round alike, wrap-around included. */
  lemma RoundingsAgree(n: nat, align: nat)
    requires IsAlign(align)
    ensures MaskUp(n, align) == RoundUp(n, align)
  {
    hide Bitwise;
    var k := if align == 1 then 0 else if align == 2 then 1 else if align == 4 then 2 else 3;
    assert Pow2(k) == align;
    XorOnes(32, align - 1);
    var x := n + align - 1;
    BitwiseEnc(BitAnd, 32, x, 0 - align);
    BitwiseEnc(BitAnd, 32, x, Enc(32, 0 - align));
    EncTwice(0 - align);
    MaskIsFloor(32, x, k);
    Pow2Of32();
  }

  lemma EncTwice(v: int)
    ensures Enc(32, Enc(32, v)) == Enc(32, v)
  {
    EncSmall(32, Enc(32, v));
  }

  // ------------------------------------------------------------------ offsets

  /** The running offset after `k` fields. */
  function EndOf(slots: seq<Slot>, k: nat): (r: nat)
    requires k <= |slots| && WellSized(slots)
    ensures r < U32
    decreases k, 0
  {
    if k == 0 then 0 else (OffsetOf(slots, k - 1) + slots[k - 1].size) % U32
  }

  /** Where field `k` is placed. */
  function OffsetOf(slots: seq<Slot>, k: nat): (r: nat)
    requires k < |slots| && WellSized(slots)
    ensures r < U32
    decreases k, 1
  {
    RoundUp(EndOf(slots, k), slots[k].align)
  }

  /** The largest alignment of the first `k` fields. */
  function AlignOf(slots: seq<Slot>, k: nat): (r: nat)
    requires k <= |slots| && WellSized(slots)
    ensures IsAlign(r) && forall i :: 0 <= i < k ==> slots[i].align <= r
  {
    if k == 0 then 1
    else if slots[k - 1].align > AlignOf(slots, k - 1) then slots[k - 1].align
    else AlignOf(slots, k - 1)
  }

  function SizeOf(slots: seq<Slot>): (r: nat)
    requires WellSized(slots)
    ensures r < U32
  {
    RoundUp(EndOf(slots, |slots|), AlignOf(slots, |slots|))
  }

  /** One more field. */
  lemma PlaceOne(slots: seq<Slot>, i: nat)
    requires WellSized(slots) && i < |slots|
    ensures IsAlign(slots[i].align) && OffsetOf(slots, i) == RoundUp(EndOf(slots, i), slots[i].align)
    ensures EndOf(slots, i + 1) == (OffsetOf(slots, i) + slots[i].size) % U32
    ensures AlignOf(slots, i + 1) == if slots[i].align > AlignOf(slots, i) then slots[i].align else AlignOf(slots, i)
  {
    hide RoundUp;
  }

  lemma PlaceNone(slots: seq<Slot>)
    requires WellSized(slots)
    ensures EndOf(slots, 0) == 0 && AlignOf(slots, 0) == 1
  {
  }

  // --------------------------------------------------------------------- laws

  lemma Divides(a: nat, b: nat)
    requires IsAlign(a) && IsAlign(b) && a <= b
    ensures b % a == 0
  {
  }

  /** Every field sits at a multiple of its alignment, in a struct whose alignment
      is a multiple of it too and whose size is a multiple of its own. */
  lemma Aligned(slots: seq<Slot>, k: nat)
    requires WellSized(slots) && k < |slots|
    ensures OffsetOf(slots, k) % slots[k].align == 0
    ensures AlignOf(slots, |slots|) % slots[k].align == 0
    ensures SizeOf(slots) % AlignOf(slots, |slots|) == 0
  {
    hide EndOf, AlignOf;
    assert slots[k].align <= AlignOf(slots, |slots|);
    Divides(slots[k].align, AlignOf(slots, |slots|));
  }

  /** Structs that share their first `k` fields share those fields' offsets. */
  lemma {:induction false} CommonPrefix(a: seq<Slot>, b: seq<Slot>, k: nat)
    requires WellSized(a) && WellSized(b) && k <= |a| && k <= |b| && a[..k] == b[..k]
    ensures EndOf(a, k) == EndOf(b, k) && AlignOf(a, k) == AlignOf(b, k)
    ensures forall i :: 0 <= i < k ==> OffsetOf(a, i) == OffsetOf(b, i)
  {
    if k > 0 {
      assert a[..k - 1] == a[..k][..k - 1] && b[..k - 1] == b[..k][..k - 1];
      CommonPrefix(a, b, k - 1);
      assert a[k - 1] == a[..k][k - 1] == b[..k][k - 1] == b[k - 1];
    }
  }

  /** What comes after field `k`: the next field, or the end of the struct. */
  function NextOf(slots: seq<Slot>, k: nat): nat
    requires WellSized(slots) && k < |slots|
  {
    if k + 1 < |slots| then OffsetOf(slots, k + 1) else SizeOf(slots)
  }

  /** The fields are in order and do not overlap, and the struct holds them all. */
  predicate Apart(slots: seq<Slot>)
    requires WellSized(slots)
  {
    forall k :: 0 <= k < |slots| ==> OffsetOf(slots, k) + slots[k].size <= NextOf(slots, k)
  }

  /** Rounding up without wrap-around. */
  function ExactUp(n: nat, align: nat): (r: nat)
    requires align > 0
    ensures n <= r < n + align
  {
    (n + align - 1) / align * align
  }

  function ExactEnd(slots: seq<Slot>, k: nat): nat
    requires k <= |slots| && WellSized(slots)
  {
    if k == 0 then 0 else ExactUp(ExactEnd(slots, k - 1), slots[k - 1].align) + slots[k - 1].size
  }

  /** The size the struct would have if sizes had no bound. */
  function ExactSize(slots: seq<Slot>): nat
    requires WellSized(slots)
  {
    ExactUp(ExactEnd(slots, |slots|), AlignOf(slots, |slots|))
  }

  lemma RoundFacts(n: nat, align: nat)
    requires IsAlign(align) && n < U32
    ensures if ExactUp(n, align) < U32 then RoundUp(n, align) == ExactUp(n, align) else n > 0 && RoundUp(n, align) == 0
  {
    var x := n + align - 1;
    assert x / align * align <= x;
    if x >= U32 {
      DivModUnique(x, U32, 1, x - U32);
      DivModUnique(x - U32, align, 0, x - U32);
      FloorGrows(U32, x, align);
    } else {
      DivModUnique(x, U32, 0, x);
    }
  }

  lemma FloorGrows(m: nat, x: nat, a: nat)
    requires IsAlign(a) && m % a == 0 && m <= x
    ensures x / a * a >= m
  {
  }

  lemma {:induction false} ExactGrows(slots: seq<Slot>, j: nat, k: nat)
    requires WellSized(slots) && j <= k <= |slots|
    ensures ExactEnd(slots, j) <= ExactEnd(slots, k)
  {
    if j < k {
      ExactGrows(slots, j, k - 1);
    }
  }

  /** As long as nothing wraps, the offsets are the exact ones. */
  lemma {:induction false} NoWrap(slots: seq<Slot>, k: nat)
    requires WellSized(slots) && k <= |slots| && ExactEnd(slots, k) < U32
    ensures EndOf(slots, k) == ExactEnd(slots, k)
    ensures k > 0 ==> OffsetOf(slots, k - 1) == ExactUp(ExactEnd(slots, k - 1), slots[k - 1].align)
  {
    if k > 0 {
      hide ExactUp, RoundUp;
      ExactGrows(slots, k - 1, k);
      NoWrap(slots, k - 1);
      RoundFacts(EndOf(slots, k - 1), slots[k - 1].align);
      DivModUnique(ExactEnd(slots, k), U32, 0, ExactEnd(slots, k));
    }
  }

  /** Where the exact end first leaves 32 bits, two fields run into each other. */
  lemma {:induction false} WrapShows(slots: seq<Slot>, k: nat)
    requires WellSized(slots) && k <= |slots| && ExactEnd(slots, k) >= U32
    ensures !Apart(slots)
  {
    if ExactEnd(slots, k - 1) >= U32 {
      WrapShows(slots, k - 1);
    } else {
      NoWrap(slots, k - 1);
      RoundFacts(EndOf(slots, k - 1), slots[k - 1].align);
      if ExactUp(ExactEnd(slots, k - 1), slots[k - 1].align) >= U32 {
        assert k - 1 > 0;
        NoWrap(slots, k - 1);
        assert OffsetOf(slots, k - 2) + slots[k - 2].size == EndOf(slots, k - 1) > NextOf(slots, k - 2);
      } else {
        assert OffsetOf(slots, k - 1) + slots[k - 1].size >= U32 > NextOf(slots, k - 1);
      }
    }
  }

  lemma StepsFit(slots: seq<Slot>, k: nat)
    requires WellSized(slots) && k < |slots| && ExactSize(slots) < U32
    ensures OffsetOf(slots, k) + slots[k].size <= NextOf(slots, k)
  {
    hide EndOf, OffsetOf, AlignOf, RoundUp;
    var n := |slots|;
    ExactGrows(slots, k + 1, n);
    NoWrap(slots, k + 1);
    if k + 1 < n {
      ExactGrows(slots, k + 2, n);
      NoWrap(slots, k + 2);
    } else {
      RoundFacts(EndOf(slots, n), AlignOf(slots, n));
    }
  }

  /** The fields are ascending and disjoint exactly when the struct's size fits
      in 32 bits; nothing in the compiler checks that it does. */
  lemma ApartIffFits(slots: seq<Slot>)
    requires WellSized(slots) && slots != []
    ensures Apart(slots) <==> ExactSize(slots) < U32
  {
    hide EndOf, AlignOf, RoundUp;
    var n := |slots|;
    if ExactSize(slots) < U32 {
      forall k | 0 <= k < n ensures OffsetOf(slots, k) + slots[k].size <= NextOf(slots, k) {
        StepsFit(slots, k);
      }
    } else if ExactEnd(slots, n) >= U32 {
      WrapShows(slots, n);
    } else {
      TailWraps(slots);
    }
  }

  /** Two fields of 2^31 bytes: the struct has size zero. */
  lemma HugeFields()
    ensures var slots := [Slot(0x8000_0000, 8), Slot(0x8000_0000, 8)];
            WellSized(slots) && ExactSize(slots) >= U32 && SizeOf(slots) == 0 && !Apart(slots)
  {
    var slots := [Slot(0x8000_0000, 8), Slot(0x8000_0000, 8)];
    assert ExactEnd(slots, 1) == 0x8000_0000;
    assert ExactEnd(slots, 2) == U32;
    assert EndOf(slots, 1) == 0x8000_0000;
    assert EndOf(slots, 2) == 0;
    ApartIffFits(slots);
  }

  lemma TailWraps(slots: seq<Slot>)
    requires WellSized(slots) && slots != [] && ExactEnd(slots, |slots|) < U32 <= ExactSize(slots)
    ensures !Apart(slots)
  {
    hide ExactUp;
    var n := |slots|;
    NoWrap(slots, n);
    RoundFacts(EndOf(slots, n), AlignOf(slots, n));
    assert OffsetOf(slots, n - 1) + slots[n - 1].size == EndOf(slots, n) > NextOf(slots, n - 1);
  }

  // --------------------------------------------------------------------- loop

  datatype FieldSym = FieldSym(name: string, slot: Slot, offset: nat)

  function SlotsOf(fields: seq<FieldSym>): (r: seq<Slot>)
    ensures |r| == |fields| && forall i :: 0 <= i < |fields| ==> r[i] == fields[i].slot
  {
    seq(|fields|, i requires 0 <= i < |fields| => fields[i].slot)
  }

  /** The second implementation's loop, which places the fields and finds the
      alignment as it goes. */
  method TyLayoutStruct(fields: array<FieldSym>) returns (size: nat, align: nat)
    requires WellSized(SlotsOf(fields[..]))
    modifies fields
    ensures var slots := SlotsOf(old(fields[..]));
            && size == SizeOf(slots) && align == AlignOf(slots, |slots|)
            && forall i :: 0 <= i < fields.Length ==> fields[i] == old(fields[i]).(offset := OffsetOf(slots, i))
  {
    hide RoundUp, MaskUp, SlotsOf, EndOf, OffsetOf, AlignOf, WellSized;
    ghost var slots := SlotsOf(fields[..]);
    PlaceNone(slots);
    var offset := 0;
    align := 1;
    var i := 0;
    while i < fields.Length
      invariant i <= fields.Length && offset == EndOf(slots, i) && align == AlignOf(slots, i)
      invariant forall j :: 0 <= j < i ==> fields[j] == old(fields[j]).(offset := OffsetOf(slots, j))
      invariant forall j :: i <= j < fields.Length ==> fields[j] == old(fields[j])
    {
      PlaceOne(slots, i);
      assert fields[i].slot == slots[i];
      var fa := fields[i].slot.align;
      if fa > align {
        align := fa;
      }
      RoundingsAgree(offset, fa);
      offset := MaskUp(offset, fa);
      fields[i] := fields[i].(offset := offset);
      offset := (offset + fields[i].slot.size) % U32;
      i := i + 1;
    }
    RoundingsAgree(offset, align);
    size := MaskUp(offset, align);
  }
}
