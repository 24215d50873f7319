/** The other three places that compute a layout give what the checker's pass put
    in its table: the IR's sizes and alignments, the C backend's field offsets,
    and the second implementation's loop. */
module LayoutAgreement {
  import opened Words
  import opened Types
  import opened LayoutRules
  import opened LayoutOrder

  datatype IrType = IVoid | IInt(bits: nat) | IFloat(bits: nat) | IPtr | IArray(elem: IrType, length: nat)
      | IStruct(id: nat)

  function IrOfCore(t: Ty): IrType {
    match t
    case I8 => IInt(8)
    case U8 => IInt(8)
    case B8 => IInt(8)
    case I32 => IInt(32)
    case U32 => IInt(32)
    case B32 => IInt(32)
    case I64 => IInt(64)
    case U64 => IInt(64)
    case B64 => IInt(64)
    case F32 => IFloat(32)
    case F64 => IFloat(64)
    case _ => IVoid
  }

  /** The IR type of a type as written. */
  function IrOf(t: Written): IrType {
    match t
    case Core(ty) => IrOfCore(ty)
    case StructName(id) => IStruct(id)
    case EnumName(base) => IrOfCore(BaseTy(base))
    case Unknown => IVoid
    case Pointer(_) => IPtr
    case Array(e, length) => IArray(IrOf(e), length)
  }

  function Body(decl: seq<Field>): (r: seq<IrType>)
    ensures |r| == |decl| && forall i :: 0 <= i < |decl| ==> r[i] == IrOf(decl[i].ty)
  {
    seq(|decl|, i requires 0 <= i < |decl| => IrOf(decl[i].ty))
  }

  /** The IR's struct bodies, filled in from the declarations. */
  predicate Bodies(env: Env, bodies: seq<seq<IrType>>) {
    |bodies| == |env.decls| && forall id :: 0 <= id < |bodies| ==> bodies[id] == Body(env.decls[id])
  }

  /** Everything a type holds is among the first `k` structs completed. */
  predicate Within(env: Env, w: Written, k: nat) {
    k <= |env.order| && Named(|env.decls|, w) && forall b :: b in Holds(w) ==> b in env.order[..k]
  }

  /** The place of a struct in the order, and its fields' types before it. */
  lemma Before(env: Env, id: nat, k: nat) returns (r: nat)
    requires Finished(env) && Within(env, StructName(id), k)
    ensures r < k && env.order[r] == id && id < |env.decls|
    ensures forall i :: 0 <= i < |env.decls[id]| ==> Within(env, env.decls[id][i].ty, r)
  {
    hide LaidOut;
    assert id in Holds(StructName(id));
    r :| 0 <= r < k && env.order[r] == id;
    forall i | 0 <= i < |env.decls[id]| ensures Within(env, env.decls[id][i].ty, r) {
      forall b | b in Holds(env.decls[id][i].ty) ensures b in env.order[..r] {
        assert b in Needs(env.decls[id][i].ty);
        assert Edge(env.decls, env.order[r], b);
      }
    }
  }

  lemma WithinElem(env: Env, w: Written, k: nat)
    requires Within(env, w, k) && w.Array?
    ensures Within(env, w.elem, k)
  {
  }

  lemma Everything(env: Env, w: Written)
    requires Finished(env) && Named(|env.decls|, w)
    ensures Within(env, w, |env.order|)
  {
    hide LaidOut;
    assert env.order[..|env.order|] == env.order;
    HoldsNamed(|env.decls|, w);
  }

  lemma HoldsNamed(n: nat, w: Written)
    requires Named(n, w)
    ensures forall b :: b in Holds(w) ==> b < n
  {
  }

  function Slots(env: Env, id: nat): (r: seq<Slot>)
    requires Finished(env) && id < |env.decls|
    ensures WellSized(r) && |r| == |env.decls[id]|
    ensures forall i :: 0 <= i < |r| ==> r[i] == SlotOf(env.table, env.decls[id][i].ty)
  {
    assert AllNamed(|env.table|, env.decls[id]);
    SlotsOfFields(env.table, env.decls[id])
  }

  lemma TableEntry(env: Env, id: nat)
    requires Finished(env) && id < |env.decls|
    ensures env.table[id] == Slot(SizeOf(Slots(env, id)), AlignOf(Slots(env, id), |env.decls[id]|))
    ensures |env.places| == |env.table| == |env.decls| && |env.places[id]| == |env.decls[id]|
    ensures forall i :: 0 <= i < |env.decls[id]| ==>
              env.places[id][i] == FieldSym(env.decls[id][i].name, Slots(env, id)[i], OffsetOf(Slots(env, id), i))
  {
    hide SizeOf, AlignOf, OffsetOf, SlotOf;
    assert LaidOut(env.decls[id], env.table, env.table[id], env.places[id]);
  }

  /** The IR's alignment of a type. The recursion ends because a struct comes
      after the structs it holds. */
  method IrTypeAlign(bodies: seq<seq<IrType>>, t: IrType, ghost env: Env, ghost w: Written, ghost k: nat)
    returns (a: nat)
    requires Finished(env) && Bodies(env, bodies) && t == IrOf(w) && Within(env, w, k)
    ensures a == SlotOf(env.table, w).align
    decreases k, t
  {
    hide Finished, AlignOf, Within, LayoutRules.SizeOf;
    match t {
      case IVoid => a := 1;
      case IInt(bits) => a := if bits <= 8 then 1 else bits / 8;
      case IFloat(bits) => a := bits / 8;
      case IPtr => a := 8;
      case IArray(e, _) =>
        WithinElem(env, w, k);
        a := IrTypeAlign(bodies, e, env, w.elem, k);
      case IStruct(id) =>
        ghost var r := Before(env, id, k);
        ghost var slots := Slots(env, id);
        TableEntry(env, id);
        PlaceNone(slots);
        a := 1;
        var i := 0;
        while i < |bodies[id]|
          invariant i <= |slots| && a == AlignOf(slots, i)
        {
          PlaceOne(slots, i);
          var fa := IrTypeAlign(bodies, bodies[id][i], env, env.decls[id][i].ty, r);
          if fa > a {
            a := fa;
          }
          i := i + 1;
        }
    }
  }

  /** The array length is cut to 32 bits before it is multiplied, which does not
      change the product's low 32 bits. */
  lemma LengthCut(length: nat, size: nat)
    ensures length % LayoutRules.U32 * size % LayoutRules.U32 == length * size % LayoutRules.U32
  {
    var m := LayoutRules.U32;
    assert length * size == length % m * size + length / m * size * m;
    ModShift(length % m * size, length / m * size, m);
  }

  /** The IR's size of a type, rounding with masks where the checker divides. */
  method IrTypeSize(bodies: seq<seq<IrType>>, t: IrType, ghost env: Env, ghost w: Written, ghost k: nat)
    returns (size: nat)
    requires Finished(env) && Bodies(env, bodies) && t == IrOf(w) && Within(env, w, k)
    ensures size == SlotOf(env.table, w).size
    decreases k, t
  {
    hide Finished, AlignOf, EndOf, OffsetOf, RoundUp, MaskUp, Within;
    match t {
      case IVoid => size := 0;
      case IInt(bits) => size := if bits <= 8 then 1 else bits / 8;
      case IFloat(bits) => size := bits / 8;
      case IPtr => size := 8;
      case IArray(e, length) =>
        WithinElem(env, w, k);
        size := IrTypeSize(bodies, e, env, w.elem, k);
        LengthCut(length, size);
        size := length % LayoutRules.U32 * size % LayoutRules.U32;
      case IStruct(id) =>
        ghost var r := Before(env, id, k);
        ghost var slots := Slots(env, id);
        TableEntry(env, id);
        PlaceNone(slots);
        var off := 0;
        var i := 0;
        while i < |bodies[id]|
          invariant i <= |slots| && off == EndOf(slots, i)
        {
          PlaceOne(slots, i);
          var a := IrTypeAlign(bodies, bodies[id][i], env, env.decls[id][i].ty, r);
          RoundingsAgree(off, a);
          off := MaskUp(off, a);
          var fs := IrTypeSize(bodies, bodies[id][i], env, env.decls[id][i].ty, r);
          off := (off + fs) % LayoutRules.U32;
          i := i + 1;
        }
        var a := IrTypeAlign(bodies, t, env, w, k);
        RoundingsAgree(off, a);
        size := MaskUp(off, a);
    }
  }

  /** The C backend's offset of a field. */
  method FieldOffset(bodies: seq<seq<IrType>>, id: nat, field: nat, ghost env: Env) returns (off: nat)
    requires Finished(env) && Bodies(env, bodies) && id < |bodies| && field < |bodies[id]|
    ensures |env.places[id]| == |bodies[id]| && off == env.places[id][field].offset
  {
    hide Finished, AlignOf, EndOf, OffsetOf, RoundUp, MaskUp, Within, SlotOf;
    ghost var k := |env.order|;
    FieldsNamed(env, id);
    ghost var slots := Slots(env, id);
    TableEntry(env, id);
    PlaceNone(slots);
    off := 0;
    var i := 0;
    while i < field && i < |bodies[id]|
      invariant i <= field && off == EndOf(slots, i)
    {
      PlaceOne(slots, i);
      var a := IrTypeAlign(bodies, bodies[id][i], env, env.decls[id][i].ty, k);
      RoundingsAgree(off, a);
      off := MaskUp(off, a);
      var fs := IrTypeSize(bodies, bodies[id][i], env, env.decls[id][i].ty, k);
      off := (off + fs) % LayoutRules.U32;
      i := i + 1;
    }
    PlaceOne(slots, field);
    var a := IrTypeAlign(bodies, bodies[id][field], env, env.decls[id][field].ty, k);
    RoundingsAgree(off, a);
    off := MaskUp(off, a);
  }

  lemma FieldsNamed(env: Env, id: nat)
    requires Finished(env) && id < |env.decls|
    ensures forall i :: 0 <= i < |env.decls[id]| ==> Within(env, env.decls[id][i].ty, |env.order|)
  {
    hide LaidOut, Within;
    assert AllNamed(|env.decls|, env.decls[id]);
    forall i | 0 <= i < |env.decls[id]| ensures Within(env, env.decls[id][i].ty, |env.order|) {
      Everything(env, env.decls[id][i].ty);
    }
  }

  /** The second implementation, on the same fields before they are placed: the
      same offsets, size and alignment. */
  method SecondLayout(id: nat, env: Env) returns (fields: array<FieldSym>, size: nat, align: nat)
    requires Finished(env) && id < |env.decls|
    ensures fields[..] == env.places[id] && Slot(size, align) == env.table[id]
  {
    hide Finished, AlignOf, EndOf, OffsetOf, RoundUp, SlotOf, LayoutRules.SizeOf, WellSized;
    TableEntry(env, id);
    ghost var slots := Slots(env, id);
    var placed := env.places[id];
    fields := new FieldSym[|placed|](i requires 0 <= i < |placed| => placed[i].(offset := 0));
    assert SlotsOf(fields[..]) == slots;
    size, align := TyLayoutStruct(fields);
    assert forall i :: 0 <= i < |placed| ==> fields[i] == placed[i];
  }
}
