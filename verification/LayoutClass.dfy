/** The layout walk itself, on the progress, sizes and error counts it updates. */
module LayoutClass {
  import opened Types
  import opened LayoutRules
  import opened LayoutOrder
  import opened LayoutSteps
  import opened LayoutFaults

  /** What resolving a type gives; without errors, its size is right. */
  predicate Resolved(t: Written, r: Sem, table: seq<Slot>, errors: nat) {
    && (t.StructName? <==> r.OfStruct?)
    && (t.StructName? ==> r.id == t.id)
    && (r.Sized? ==> IsAlign(r.slot.align) && r.slot.size < LayoutRules.U32)
    && Named(|table|, t) && WellSized(table)
    && (errors == 0 && r.Sized? ==> r.slot == SlotOf(table, t))
    && (t == Core(Void) ==> r.NoSize?)
    && (errors == 0 && r.NoSize? ==> t == Core(Void))
  }

  /** What the last pass resolves, in source order: a struct, the signature of a
      function of the program or of an extern block, or a global. An enum needs
      nothing more, nor does a declaration whose name belongs to an earlier one. */
  datatype Item =
    | StructItem(id: nat)
    | Signature(ret: Written, params: seq<Written>)
    | Global(ty: Written, hasInit: bool, isMut: bool)
    | NothingLeft

  predicate ItemNamed(n: nat, it: Item) {
    match it
    case StructItem(id) => id < n
    case Signature(ret, params) => Named(n, ret) && forall i :: 0 <= i < |params| ==> Named(n, params[i])
    case Global(ty, _, _) => Named(n, ty)
    case NothingLeft => true
  }

  /** Every struct is declared by one of the items. */
  predicate ItemsNamed(n: nat, items: seq<Item>) {
    && (forall i :: 0 <= i < |items| ==> ItemNamed(n, items[i]))
    && (forall id :: 0 <= id < n ==> StructItem(id) in items)
  }

  /** Structs and arrays are not passed by value. */
  predicate Passable(t: Written) {
    !t.StructName? && !t.Array?
  }

  predicate ItemFine(it: Item) {
    match it
    case Signature(ret, params) =>
      Passable(ret) && forall i :: 0 <= i < |params| ==> Passable(params[i]) && params[i] != Core(Void)
    case Global(ty, hasInit, isMut) => ty != Core(Void) && (hasInit || isMut)
    case _ => true
  }

  /** The types an item asks for. */
  function TypesOf(it: Item): seq<Written> {
    match it
    case Signature(ret, params) => [ret] + params
    case Global(ty, _, _) => [ty]
    case _ => []
  }

  /** The item is not fit for use, or one of its types is at fault. */
  ghost predicate ItemFaulty(order: seq<nat>, table: seq<Slot>, it: Item) {
    !ItemFine(it) || TypesFaulty(order, table, TypesOf(it))
  }

  function AllTypes(items: seq<Item>): seq<Written> {
    if items == [] then [] else AllTypes(items[..|items| - 1]) + TypesOf(items[|items| - 1])
  }

  predicate AllFine(items: seq<Item>) {
    forall k :: 0 <= k < |items| ==> ItemFine(items[k])
  }

  class Layouts {
    const decls: Decls
    var state: seq<Progress>
    var table: seq<Slot>
    var places: seq<seq<FieldSym>>
    var errors: nat
    var reports: seq<nat>
    ghost var stack: seq<nat>
    ghost var order: seq<nat>

    constructor (decls: Decls)
      ensures this.decls == decls && Inv(decls, Snap()) && stack == [] && errors == 0 && Judging()
    {
      this.decls := decls;
      state := seq(|decls|, i => Unstarted);
      table := seq(|decls|, i => NOTHING);
      places := seq(|decls|, i => []);
      errors, reports := 0, [];
      stack, order := [], [];
    }

    ghost function Snap(): Snapshot
      reads this
    {
      Snapshot(state, table, places, errors, reports, stack, order)
    }

    ghost predicate AllAsked(needs: set<nat>)
      reads this
    {
      forall b :: b in needs ==> Asked(decls, Snap(), b)
    }

    /** No completed struct is at fault, if there are no errors. */
    ghost predicate Judging()
      reads this
    {
      Judged(decls, Snap())
    }

    ghost predicate TypeFaulty(t: Written)
      reads this
    {
      Faulty(order, table, t)
    }

    method Fail()
      requires Inv(decls, Snap())
      modifies `errors
      ensures Inv(decls, Snap()) && Grows(old(Snap()), Snap()) && errors == old(errors) + 1 && Judging()
    {
      hide Waiting, Edge, Path, Ranked, Witnessed, SizesRight, StructFaulty;
      errors := errors + 1;
    }

    /** A type's object; the element structs of arrays are laid out on the way. */
    method Resolve(t: Written) returns (r: Sem)
      requires Inv(decls, Snap()) && WellNamed(decls) && Named(|decls|, t) && AllAsked(Resolving(t)) && Judging()
      modifies this
      ensures Inv(decls, Snap()) && Grows(old(Snap()), Snap()) && Judging()
      ensures reports == [] ==> forall b :: b in Resolving(t) ==> b in order
      ensures Resolved(t, r, table, errors) && Verdict(decls, old(errors), Snap(), TypeFaulty(t))
      decreases Waiting(state), 1, t, 0
    {
      hide Judged, Blamed;
      match t {
        case Core(ty) =>
          r := if ty.Void? then NoSize else Sized(CoreSlot(ty));
        case StructName(id) =>
          r := OfStruct(id);
        case EnumName(base) =>
          r := Sized(CoreSlot(BaseTy(base)));
        case Unknown =>
          Fail();
          r := NoSize;
        case Pointer(e) =>
          var _ := Resolve(e);
          r := Sized(PTR_SLOT);
        case Array(e, length) =>
          r := ResolveArray(e, length);
      }
    }

    method ResolveArray(e: Written, length: nat) returns (r: Sem)
      requires Inv(decls, Snap()) && WellNamed(decls) && Named(|decls|, e)
               && AllAsked(Resolving(Written.Array(e, length))) && Judging()
      modifies this
      ensures Inv(decls, Snap()) && Grows(old(Snap()), Snap()) && Judging()
      ensures reports == [] ==> forall b :: b in Resolving(Written.Array(e, length)) ==> b in order
      ensures Resolved(Written.Array(e, length), r, table, errors)
      ensures Verdict(decls, old(errors), Snap(), TypeFaulty(Written.Array(e, length)))
      decreases Waiting(state), 1, e, 3
    {
      var el := ResolveInner(e);
      ghost var s := Snap();
      r := NoSize;
      if length == 0 {
        Fail();
      } else if el.NoSize? || (el.OfStruct? && !state[el.id].Done?) {
        Fail();
      } else {
        var slot := if el.OfStruct? then table[el.id] else el.slot;
        TooMany(length, slot.size);
        if slot.size != 0 && length > 0xFFFF_FFFF / slot.size {
          Fail();
        } else {
          r := Sized(Slot(length * slot.size % LayoutRules.U32, slot.align));
        }
      }
      ArrayVerdict(decls, old(errors), s, Snap(), e, length);
    }

    /** A type, and the struct it is, if it is one. */
    method ResolveInner(t: Written) returns (r: Sem)
      requires Inv(decls, Snap()) && WellNamed(decls) && Named(|decls|, t) && AllAsked(Needs(t)) && Judging()
      modifies this
      ensures Inv(decls, Snap()) && Grows(old(Snap()), Snap()) && Judging()
      ensures reports == [] ==> forall b :: b in Needs(t) ==> b in order
      ensures Resolved(t, r, table, errors) && Verdict(decls, old(errors), Snap(), TypeFaulty(t))
      ensures r.OfStruct? && reports == [] ==> state[r.id].Done?
      decreases Waiting(state), 1, t, 2
    {
      hide Inv, Judged, Blamed, Verdict, Faulty, Asked, Named, WellNamed, Settled;
      ghost var start := Snap();
      r := Resolve(t);
      ghost var s := Snap();
      if r.OfStruct? {
        assert r.id < |decls| by { NamedStruct(|decls|, t, r.id); }
        assert Asked(decls, s, r.id) by { StillAsked(decls, start, s, r.id); }
        LayoutStruct(r.id);
        GrowsOn(start, s, Snap());
        StructResolved(decls, Snap(), r.id);
        Carry(decls, old(errors), s, Snap(), t);
      }
    }

    /** One field: its type's size, the structs it needs laid out first. */
    method LayField(f: Field) returns (slot: Slot)
      requires Inv(decls, Snap()) && WellNamed(decls) && Named(|decls|, f.ty) && AllAsked(Needs(f.ty)) && Judging()
      modifies this
      ensures Inv(decls, Snap()) && Grows(old(Snap()), Snap()) && Judging()
      ensures reports == [] ==> forall b :: b in Needs(f.ty) ==> b in order
      ensures IsAlign(slot.align) && slot.size < LayoutRules.U32
      ensures Named(|table|, f.ty) && WellSized(table) && (errors == 0 ==> slot == SlotOf(table, f.ty))
      ensures Verdict(decls, old(errors), Snap(), FieldFaulty(order, table, f))
      decreases Waiting(state), 2
    {
      var ft := ResolveInner(f.ty);
      if ft.NoSize? || (ft.OfStruct? && !state[ft.id].Done?) {
        Fail();
        return NOTHING;
      }
      slot := if ft.OfStruct? then table[ft.id] else ft.slot;
    }

    /** Counts an error if an earlier field has this name. */
    method CheckDuplicate(fields: seq<FieldSym>, name: string)
      requires Inv(decls, Snap())
      modifies `errors
      ensures Inv(decls, Snap()) && Grows(old(Snap()), Snap()) && reports == old(reports)
      ensures errors == old(errors) + (if exists j :: 0 <= j < |fields| && fields[j].name == name then 1 else 0)
      ensures old(Judging()) ==> Judging()
    {
      var j := 0;
      while j < |fields|
        invariant j <= |fields| && errors == old(errors)
        invariant forall k :: 0 <= k < j ==> fields[k].name != name
        modifies `errors
      {
        if fields[j].name == name {
          Fail();
          return;
        }
        j := j + 1;
      }
      assert Grows(old(Snap()), Snap());
    }

    /** The loop over a struct's fields: what they need is laid out first, and each
        is placed at the next multiple of its alignment. */
    method LayFields(id: nat) returns (fields: seq<FieldSym>, offset: nat, align: nat)
      requires Inv(decls, Snap()) && WellNamed(decls) && id < |decls| && stack != [] && stack[|stack| - 1] == id
      requires Judging()
      modifies this
      ensures Inv(decls, Snap()) && Grows(old(Snap()), Snap()) && Judging()
      ensures reports == [] ==> forall b :: Edge(decls, id, b) ==> b in order
      ensures IsAlign(align)
      ensures errors == 0 ==> LaidOut(decls[id], table, Slot(RoundUp(offset, align), align), fields)
      ensures Verdict(decls, old(errors), Snap(), StructFaulty(decls, order, table, id))
      decreases Waiting(state), 3
    {
      hide Inv, Settled, Waiting, Edge, LaidOut, Needs, NeedsMet, Placed, SlotsHold, SlotOf, EndOf, OffsetOf, AlignOf,
          RoundUp, Judged, Verdict, FieldsFaulty, FieldFaulty, Repeats;
      var decl := decls[id];
      fields, offset, align := [], 0, 1;
      ghost var slots: seq<Slot> := [];
      var i := 0;
      StartFields(decls, Snap(), decl);
      NoFields(decls, Snap(), decl);
      while i < |decl|
        invariant i <= |decl| && Inv(decls, Snap()) && Grows(old(Snap()), Snap()) && stack == old(stack) && Judging()
        invariant Placed(decl, i, fields, slots) && WellSized(slots) && |slots| == i
        invariant offset == EndOf(slots, i) && align == AlignOf(slots, i)
        invariant reports == [] ==> NeedsMet(decl, i, order)
        invariant errors == 0 ==> reports == [] && SlotsHold(decl, i, slots, table)
        invariant Verdict(decls, old(errors), Snap(), FieldsFaulty(order, table, decl, i))
        decreases |decl| - i
      {
        ghost var before := Snap();
        NeedIsEdge(decls, id, i);
        var slot := LayField(decl[i]);
        FieldDone(decls, before, Snap(), decl, i, slots, slot);
        ghost var between := Snap();
        CheckDuplicate(fields, decl[i].name);
        RepeatsName(decl, i, fields, slots);
        NextVerdict(decls, old(errors), before, between, Snap(), decl, i);
        GrowsOn(before, between, Snap());
        GrowsOn(old(Snap()), before, Snap());
        PlaceNext(decl, i, fields, slots, slot);
        slots := slots + [slot];
        offset := RoundUp(offset, slot.align);
        fields := fields + [FieldSym(decl[i].name, slot, offset)];
        offset := (offset + slot.size) % LayoutRules.U32;
        if slot.align > align {
          align := slot.align;
        }
        i := i + 1;
      }
      if reports == [] {
        EdgesMet(decls, id, order);
      }
      if errors == 0 {
        PlacedIsLaidOut(decl, fields, slots, table);
      }
    }

    method LayoutStruct(id: nat)
      requires Inv(decls, Snap()) && WellNamed(decls) && id < |decls| && Asked(decls, Snap(), id) && Judging()
      modifies this
      ensures Inv(decls, Snap()) && Grows(old(Snap()), Snap()) && Judging()
      ensures (reports == [] ==> id in order) && Verdict(decls, old(errors), Snap(), false)
      decreases Waiting(state), 0
    {
      hide Inv, Grows, Edge, LaidOut, Waiting, RoundUp, WellNamed, Asked, Judged, StructFaulty, Shape, Settled;
      ghost var s := Snap();
      Known(decls, s, id);
      if state[id].Done? {
        return;
      }
      if state[id].InProgress? {
        ReportKeeps(decls, s, id);
        errors, reports := errors + 1, reports + [id];
        state := state[id := Done];
        Reported(decls, Snap());
        return;
      }
      EnterKeeps(decls, s, id);
      EnterJudged(decls, s, id);
      state := state[id := InProgress];
      stack := stack + [id];
      assert Snap() == Enter(s, id);
      var fields, offset, align := LayFields(id);
      ghost var t := Snap();
      Complete(decls, s, id, t, Slot(RoundUp(offset, align), align), fields);
      LeaveVerdict(decls, s.errors, t, id, Slot(RoundUp(offset, align), align), fields);
      places := places[id := fields];
      table := table[id := Slot(RoundUp(offset, align), align)];
      state := state[id := Done];
      stack, order := stack[..|stack| - 1], order + [id];
      assert Snap() == Leave(t, id, Slot(RoundUp(offset, align), align), fields);
    }

    /** A type of a signature or a global: a struct it names is laid out. */
    method ResolveHere(t: Written) returns (r: Sem)
      requires Inv(decls, Snap()) && WellNamed(decls) && Named(|decls|, t) && stack == [] && Judging()
      modifies this
      ensures Inv(decls, Snap()) && Grows(old(Snap()), Snap()) && stack == [] && Judging()
      ensures (t.StructName? <==> r.OfStruct?) && (r.OfStruct? ==> t == StructName(r.id) && r.id < |state|)
      ensures (t == Core(Void) ==> r.NoSize?) && (errors == 0 && r.NoSize? ==> t == Core(Void))
      ensures r.OfStruct? && reports == [] ==> state[r.id].Done?
      ensures reports == [] ==> AllResolved([t], order)
      ensures Verdict(decls, old(errors), Snap(), TypesFaulty(order, table, [t]))
    {
      hide Inv, Edge, WellNamed, Named, SlotOf, Judged, Verdict, TypesFaulty, WellSized, Settled, Waiting;
      ResolvingNeeded(t);
      r := ResolveInner(t);
      OneType(order, table, t);
      assert r.OfStruct? ==> r.id < |state| by { HasStates(decls, Snap(), t, r); }
    }

    /** Counts an error if a value of this type cannot be passed. */
    method CheckPassable(t: Written, r: Sem) returns (ok: bool)
      requires Inv(decls, Snap()) && stack == [] && (t.StructName? <==> r.OfStruct?) && Judging()
      modifies `errors
      ensures Inv(decls, Snap()) && Grows(old(Snap()), Snap()) && stack == [] && Judging()
      ensures errors == old(errors) + (if Passable(t) || (t.Array? && r.NoSize?) then 0 else 1)
    {
      hide Inv, Grows, Judged;
      GrowsRefl(decls, Snap());
      ok := !r.OfStruct? && (!t.Array? || r.NoSize?);
      if !ok {
        Fail();
      }
    }

    method ResolveRet(t: Written)
      requires Inv(decls, Snap()) && WellNamed(decls) && stack == [] && Named(|decls|, t) && Judging()
      modifies this
      ensures Inv(decls, Snap()) && Grows(old(Snap()), Snap()) && stack == [] && Judging()
      ensures reports == [] ==> AllResolved([t], order)
      ensures Verdict(decls, old(errors), Snap(), !Passable(t) || TypesFaulty(order, table, [t]))
    {
      hide Inv, Grows, WellNamed, Named, Judged, TypesFaulty, AllResolved, Blamed;
      ghost var start := Snap();
      var r := ResolveHere(t);
      ghost var s := Snap();
      var _ := CheckPassable(t, r);
      GrowsOn(start, s, Snap());
      SameBlame(decls, s, Snap());
    }

    method ResolveParam(t: Written)
      requires Inv(decls, Snap()) && WellNamed(decls) && stack == [] && Named(|decls|, t) && Judging()
      modifies this
      ensures Inv(decls, Snap()) && Grows(old(Snap()), Snap()) && stack == [] && Judging()
      ensures reports == [] ==> AllResolved([t], order)
      ensures Verdict(decls, old(errors), Snap(),
                  !Passable(t) || t == Core(Void) || TypesFaulty(order, table, [t]))
    {
      hide Inv, Grows, WellNamed, Named, Judged, TypesFaulty, AllResolved, Blamed;
      ghost var start := Snap();
      var r := ResolveHere(t);
      ghost var s := Snap();
      if t == Core(Void) {
        Fail();
      } else {
        var _ := CheckPassable(t, r);
      }
      GrowsOn(start, s, Snap());
      SameBlame(decls, s, Snap());
    }

    /** The return type and then the parameters of a function. */
    method ResolveSignature(ret: Written, params: seq<Written>)
      requires Inv(decls, Snap()) && WellNamed(decls) && stack == [] && ItemNamed(|decls|, Signature(ret, params))
      requires Judging()
      modifies this
      ensures Inv(decls, Snap()) && Grows(old(Snap()), Snap()) && stack == [] && Judging()
      ensures reports == [] ==> AllResolved([ret] + params, order)
      ensures Verdict(decls, old(errors), Snap(), ItemFaulty(order, table, Signature(ret, params)))
    {
      hide Inv, Grows, WellNamed, Named, Passable, Judged, TypesFaulty, AllResolved, Verdict, NamedAll, ItemFine;
      ghost var start := Snap();
      ResolveRet(ret);
      assert [ret] + params[..0] == [ret];
      for i := 0 to |params|
        invariant Inv(decls, Snap()) && Grows(start, Snap()) && stack == [] && Judging()
        invariant reports == [] ==> AllResolved([ret] + params[..i], order)
        invariant Verdict(decls, start.errors, Snap(),
                      SignatureUnfit(ret, params, i) || TypesFaulty(order, table, [ret] + params[..i]))
      {
        ghost var s := Snap();
        ResolveParam(params[i]);
        GrowsOn(start, s, Snap());
        Kept(decls, s, Snap());
        ghost var seen := [ret] + params[..i];
        assert NamedAll(|decls|, seen) by { hide *; SeenNamed(|decls|, ret, params, i); }
        JoinVerdicts(decls, start.errors, s, Snap(), seen, [params[i]], SignatureUnfit(ret, params, i),
            !Passable(params[i]) || params[i] == Core(Void));
        assert seen + [params[i]] == [ret] + params[..i + 1];
        if reports == [] {
          ResolvedBoth(seen, [params[i]], s.order, order);
        }
      }
      assert params[..|params|] == params;
      UnfitIsNotFine(ret, params);
    }

    /** A global needs a type with a size, and a value unless it can be assigned. */
    method ResolveGlobal(ty: Written, hasInit: bool, isMut: bool)
      requires Inv(decls, Snap()) && WellNamed(decls) && stack == [] && Named(|decls|, ty) && Judging()
      modifies this
      ensures Inv(decls, Snap()) && Grows(old(Snap()), Snap()) && stack == [] && Judging()
      ensures reports == [] ==> AllResolved([ty], order)
      ensures Verdict(decls, old(errors), Snap(), ItemFaulty(order, table, Global(ty, hasInit, isMut)))
    {
      hide Inv, Grows, WellNamed, Named, Judged, TypesFaulty, AllResolved, Blamed;
      ghost var start := Snap();
      var r := ResolveHere(ty);
      ghost var s := Snap();
      if r.NoSize? || (r.OfStruct? && !state[r.id].Done?) {
        Fail();
        GrowsOn(start, s, Snap());
        if reports != [] {
          Reported(decls, Snap());
        }
      }
      ghost var u := Snap();
      if !hasInit && !isMut {
        Fail();
        GrowsOn(start, u, Snap());
      }
      SameBlame(decls, s, Snap());
    }

    method ResolveItem(it: Item)
      requires Inv(decls, Snap()) && WellNamed(decls) && stack == [] && ItemNamed(|decls|, it) && Judging()
      modifies this
      ensures Inv(decls, Snap()) && Grows(old(Snap()), Snap()) && stack == [] && Judging()
      ensures reports == [] ==> AllResolved(TypesOf(it), order)
      ensures Verdict(decls, old(errors), Snap(), ItemFaulty(order, table, it))
      ensures it.StructItem? && reports == [] ==> it.id in order
    {
      hide Inv, Grows, WellNamed, Named, Judged, Blamed, Faulty;
      match it
      case StructItem(id) =>
        ghost var start := Snap();
        LayoutStruct(id);
        Kept(decls, start, Snap());
      case Signature(ret, params) => ResolveSignature(ret, params);
      case Global(ty, hasInit, isMut) => ResolveGlobal(ty, hasInit, isMut);
      case NothingLeft => GrowsRefl(decls, Snap());
    }

    /** Every item, in source order. */
    method ResolveProgram(items: seq<Item>)
      requires Inv(decls, Snap()) && WellNamed(decls) && stack == [] && ItemsNamed(|decls|, items) && Judging()
      modifies this
      ensures Inv(decls, Snap()) && Grows(old(Snap()), Snap()) && Judging()
      ensures reports == [] ==> forall id :: 0 <= id < |decls| ==> id in order
      ensures Verdict(decls, old(errors), Snap(), !AllFine(items) || TypesFaulty(order, table, AllTypes(items)))
    {
      hide Inv, Grows, WellNamed, Named, ItemFine, Judged, TypesFaulty, AllResolved, Verdict, NamedAll, AllFine,
          TypesOf;
      ghost var start := Snap();
      GrowsRefl(decls, start);
      NothingFaulty(decls, start);
      for i := 0 to |items|
        invariant Inv(decls, Snap()) && Grows(start, Snap()) && stack == [] && Judging()
        invariant reports == [] ==> forall k :: 0 <= k < i && items[k].StructItem? ==> items[k].id in order
        invariant reports == [] ==> AllResolved(AllTypes(items[..i]), order)
        invariant Verdict(decls, start.errors, Snap(),
                      !AllFine(items[..i]) || TypesFaulty(order, table, AllTypes(items[..i])))
      {
        ghost var s := Snap();
        ResolveItem(items[i]);
        GrowsOn(start, s, Snap());
        Kept(decls, s, Snap());
        ghost var seen := AllTypes(items[..i]);
        TypesNamed(|decls|, items, i);
        JoinVerdicts(decls, start.errors, s, Snap(), seen, TypesOf(items[i]), !AllFine(items[..i]),
            !ItemFine(items[i]));
        OneMoreItem(items, i);
        if reports == [] {
          ResolvedBoth(seen, TypesOf(items[i]), s.order, order);
        }
      }
      assert items[..|items|] == items;
      forall id | 0 <= id < |decls| && reports == [] ensures id in order {
        var k :| 0 <= k < |items| && items[k] == StructItem(id);
      }
    }
  }

  /** The return type or one of the first `n` parameters cannot be passed. */
  ghost predicate SignatureUnfit(ret: Written, params: seq<Written>, n: nat) {
    !Passable(ret) || exists k :: 0 <= k < n && k < |params| && (!Passable(params[k]) || params[k] == Core(Void))
  }

  lemma UnfitIsNotFine(ret: Written, params: seq<Written>)
    ensures SignatureUnfit(ret, params, |params|) <==> !ItemFine(Signature(ret, params))
  {
    hide Passable;
  }

  lemma SeenNamed(n: nat, ret: Written, params: seq<Written>, i: nat)
    requires ItemNamed(n, Signature(ret, params)) && i <= |params|
    ensures NamedAll(n, [ret] + params[..i])
  {
    hide Named;
  }

  lemma SameBlame(decls: Decls, s: Snapshot, u: Snapshot)
    requires u == s.(errors := u.errors)
    ensures Blamed(decls, s) <==> Blamed(decls, u)
  {
    hide StructFaulty;
  }

  lemma NothingFaulty(decls: Decls, s: Snapshot)
    ensures AllFine([]) && AllTypes([]) == [] && AllResolved([], s.order) && !TypesFaulty(s.order, s.table, [])
    ensures Verdict(decls, s.errors, s, false)
  {
  }

  lemma {:induction false} TypesNamed(n: nat, items: seq<Item>, i: nat)
    requires i <= |items| && forall k :: 0 <= k < |items| ==> ItemNamed(n, items[k])
    ensures NamedAll(n, AllTypes(items[..i]))
  {
    hide Named;
    if i > 0 {
      TypesNamed(n, items, i - 1);
      assert items[..i][..i - 1] == items[..i - 1];
    }
  }

  lemma OneMoreItem(items: seq<Item>, i: nat)
    requires i < |items|
    ensures AllTypes(items[..i + 1]) == AllTypes(items[..i]) + TypesOf(items[i])
    ensures AllFine(items[..i + 1]) <==> AllFine(items[..i]) && ItemFine(items[i])
  {
    hide ItemFine, TypesOf;
    assert items[..i + 1][..i] == items[..i];
    assert items[..i + 1][i] == items[i];
    assert forall k :: 0 <= k < i ==> items[..i + 1][k] == items[..i][k];
  }

  /** The types of all items are at fault exactly when those of one are. */
  lemma {:induction false} FaultyItem(order: seq<nat>, table: seq<Slot>, items: seq<Item>)
    ensures !AllFine(items) || TypesFaulty(order, table, AllTypes(items)) <==>
              exists k :: 0 <= k < |items| && ItemFaulty(order, table, items[k])
  {
    hide ItemFine, TypesOf, TypesFaulty;
    if items == [] {
      NoTypes(order, table);
    } else {
      var k := |items| - 1;
      FaultyItem(order, table, items[..k]);
      TypesBoth(order, table, AllTypes(items[..k]), TypesOf(items[k]));
      assert items[..|items|] == items;
      OneMoreItem(items, k);
      assert forall j :: 0 <= j < k ==> items[..k][j] == items[j];
    }
  }

  lemma NoTypes(order: seq<nat>, table: seq<Slot>)
    ensures !TypesFaulty(order, table, [])
  {
  }

  lemma NoFields(decls: Decls, s: Snapshot, decl: seq<Field>)
    ensures Verdict(decls, s.errors, s, FieldsFaulty(s.order, s.table, decl, 0))
  {
  }

  lemma RepeatsName(decl: seq<Field>, i: nat, fields: seq<FieldSym>, slots: seq<Slot>)
    requires i < |decl| && Placed(decl, i, fields, slots)
    ensures Repeats(decl, i) <==> exists j :: 0 <= j < |fields| && fields[j].name == decl[i].name
  {
    hide OffsetOf;
    assert forall j :: 0 <= j < i ==> fields[j].name == decl[j].name;
  }

  lemma Reported(decls: Decls, s: Snapshot)
    requires s.reports != [] && s.errors > 0
    ensures Judged(decls, s) && Blamed(decls, s)
  {
  }

  lemma EnterJudged(decls: Decls, s: Snapshot, id: nat)
    requires id < |s.state| && Judged(decls, s)
    ensures Judged(decls, Enter(s, id))
  {
  }

  lemma LeaveVerdict(decls: Decls, before: nat, s: Snapshot, id: nat, slot: Slot, syms: seq<FieldSym>)
    requires WellNamed(decls) && Inv(decls, s) && Judged(decls, s) && id < |decls| && s.stack != []
    requires s.reports == [] ==> forall b :: Edge(decls, id, b) ==> b in s.order
    requires Verdict(decls, before, s, StructFaulty(decls, s.order, s.table, id))
    requires Inv(decls, Leave(s, id, slot, syms)) && id !in s.order
    ensures var t := Leave(s, id, slot, syms); Judged(decls, t) && Verdict(decls, before, t, false)
  {
    hide StructFaulty, Edge, Tracks, Path, Witnessed, Ranked, SizesRight, WellSized, WellNamed;
    var t := Leave(s, id, slot, syms);
    assert Settled(s, t);
    LeaveJudged(decls, s, id, slot, syms);
    if s.errors > 0 && (Blamed(decls, s) || StructFaulty(decls, s.order, s.table, id)) {
      BlameStays(decls, s, t);
    }
  }

  lemma StillAsked(decls: Decls, a: Snapshot, b: Snapshot, id: nat)
    requires Grows(a, b) && Asked(decls, a, id)
    ensures Asked(decls, b, id)
  {
    hide Edge, Waiting, Settled;
  }

  lemma StructResolved(decls: Decls, s: Snapshot, id: nat)
    requires Inv(decls, s) && id < |decls|
    ensures Resolved(StructName(id), OfStruct(id), s.table, s.errors) && id < |s.state|
    ensures s.reports == [] && id in s.order ==> s.state[id].Done?
  {
    hide Edge, LaidOut, Ranked, Witnessed, SizesRight, Path, Waiting;
  }

  /** The test by division is the one on the product. */
  lemma TooMany(n: nat, size: nat)
    ensures size != 0 && n > 0xFFFF_FFFF / size <==> n * size >= LayoutRules.U32
  {
    if size != 0 {
      var q := 0xFFFF_FFFF / size;
      if n > q {
        assert n * size >= (q + 1) * size;
      } else {
        assert n * size <= q * size;
      }
    }
  }

  lemma NamedStruct(n: nat, t: Written, id: nat)
    requires Named(n, t) && t == StructName(id)
    ensures id < n
  {
  }

  lemma HasStates(decls: Decls, s: Snapshot, t: Written, r: Sem)
    requires Inv(decls, s) && Named(|decls|, t) && (r.OfStruct? ==> t == StructName(r.id))
    ensures r.OfStruct? ==> r.id < |s.state|
  {
  }

  lemma GrowsRefl(decls: Decls, s: Snapshot)
    requires Inv(decls, s)
    ensures Grows(s, s)
  {
    hide Tracks, Path, Ranked, Witnessed, SizesRight, Waiting;
  }

  lemma Kept(decls: Decls, a: Snapshot, b: Snapshot)
    requires Inv(decls, a) && Grows(a, b)
    ensures a.reports <= b.reports && b.stack == a.stack && a.errors <= b.errors
    ensures forall i :: i in a.order ==> i in b.order
  {
    hide Tracks, Path, Ranked, Witnessed, SizesRight, Waiting;
  }

  /** No struct is reported exactly when the walk's edges have no cycle. */
  lemma ReportsIffCyclic(decls: Decls, s: Snapshot)
    requires Inv(decls, s) && (s.reports == [] ==> forall i :: 0 <= i < |decls| ==> i in s.order)
    ensures s.reports == [] <==> !exists p :: Cycle(decls, p)
  {
    hide Tracks, Path, SizesRight, Edge, Shape;
    if s.reports != [] {
      assert OnCycle(decls, s.reports[0]);
    } else if p :| Cycle(decls, p) {
      StartsInside(decls, p);
      assert s.order[..|s.order|] == s.order;
      RankedIsAcyclic(decls, s.order, p, |s.order|);
    }
  }

  lemma StartsInside(decls: Decls, p: seq<nat>)
    requires Cycle(decls, p)
    ensures p[0] < |decls|
  {
    assert Edge(decls, p[0], p[1]);
  }

  /** Unless a struct was reported, none contains itself, and all are completed,
      each after the structs it needs and so after those it has inside. */
  ghost predicate Ordered(decls: Decls, order: seq<nat>) {
    && (forall id :: 0 <= id < |decls| ==> id in order)
    && Ranked(decls, order) && HeldFirst(decls, order)
    && !exists p :: HoldsItself(decls, p)
  }

  lemma OrderedUnlessReported(decls: Decls, s: Snapshot)
    requires Inv(decls, s) && (s.reports == [] ==> forall i :: 0 <= i < |decls| ==> i in s.order)
    ensures s.reports == [] ==> Ordered(decls, s.order)
  {
    hide Tracks, Path, SizesRight, Edge, Shape, Ranked, Cycle, HeldFirst;
    if s.reports == [] {
      ReportsIffCyclic(decls, s);
      RankedHoldsFirst(decls, s.order);
      forall p ensures !HoldsItself(decls, p) {
        if HoldsItself(decls, p) {
          HoldsItselfIsCycle(decls, p);
        }
      }
    }
  }

  lemma ErrorsIffFaulty(decls: Decls, s: Snapshot, fault: bool)
    requires Inv(decls, s) && Judged(decls, s) && (s.reports == [] ==> forall i :: 0 <= i < |decls| ==> i in s.order)
    requires Verdict(decls, 0, s, fault)
    ensures s.errors == 0 <==>
              s.reports == [] && (forall id: nat :: !StructFaulty(decls, s.order, s.table, id)) && !fault
  {
    hide Tracks, Path, SizesRight, Witnessed, Ranked, FieldsFaulty;
  }

  /** The whole pass. It reports a struct exactly when some struct can be reached
      from itself, wherever in the program the types that ask for it are written;
      unless it does, every struct comes after the ones it needs. There is
      no error at all exactly when there is no such struct, no struct and no item is
      at fault by the final sizes, and then every size, alignment and offset is the
      one the rules give. */
  method LayoutProgram(decls: Decls, items: seq<Item>)
    returns (errors: nat, reports: seq<nat>, table: seq<Slot>, places: seq<seq<FieldSym>>, ghost order: seq<nat>)
    requires WellNamed(decls) && ItemsNamed(|decls|, items)
    ensures reports == [] <==> !exists p :: Cycle(decls, p)
    ensures forall i :: 0 <= i < |reports| ==> OnCycle(decls, reports[i])
    ensures reports == [] ==> Ordered(decls, order)
    ensures |table| == |places| == |decls|
    ensures errors == 0 ==> reports == [] && Finished(Env(decls, table, places, order))
    ensures errors == 0 <==>
              && reports == []
              && (forall id: nat :: !StructFaulty(decls, order, table, id))
              && (forall k :: 0 <= k < |items| ==> !ItemFaulty(order, table, items[k]))
  {
    hide ItemFaulty, ItemsNamed, WellNamed, Ordered, Edge, StructFaulty, Path, Ranked, TypesFaulty, AllFine, OnCycle;
    var walk := new Layouts(decls);
    walk.ResolveProgram(items);
    FaultyItem(walk.order, walk.table, items);
    ErrorsIffFaulty(decls, walk.Snap(), !AllFine(items) || TypesFaulty(walk.order, walk.table, AllTypes(items)));
    ReportsIffCyclic(decls, walk.Snap());
    OrderedUnlessReported(decls, walk.Snap());
    errors, reports, table, places, order := walk.errors, walk.reports, walk.table, walk.places, walk.order;
  }
}
