/** The steps of the layout walk keep its invariants. */
module LayoutSteps {
  import opened Types
  import opened LayoutRules
  import opened LayoutOrder

  /** The struct being laid out, if any, needs this one. */
  ghost predicate Asked(decls: Decls, s: Snapshot, id: nat) {
    s.stack == [] || Edge(decls, s.stack[|s.stack| - 1], id)
  }

  // ------------------------------------------------------------------- enter

  function Enter(s: Snapshot, id: nat): Snapshot
    requires id < |s.state|
  {
    s.(state := s.state[id := InProgress], stack := s.stack + [id])
  }

  lemma PathPush(decls: Decls, p: seq<nat>, id: nat)
    requires Path(decls, p) && (p == [] || Edge(decls, p[|p| - 1], id))
    ensures Path(decls, p + [id])
  {
    hide Edge;
    var q := p + [id];
    forall k | 0 <= k < |q| - 1 ensures Edge(decls, q[k], q[k + 1]) {
      if k + 1 < |p| {
        assert q[k] == p[k] && q[k + 1] == p[k + 1];
      }
    }
  }

  lemma EnterKeeps(decls: Decls, s: Snapshot, id: nat)
    requires Inv(decls, s) && id < |decls| && s.state[id].Unstarted? && Asked(decls, s, id)
    ensures Inv(decls, Enter(s, id)) && id !in s.stack && id !in s.order
    ensures Waiting(Enter(s, id).state) < Waiting(s.state)
  {
    hide Edge, Path, Ranked, Witnessed, LaidOut, WellSized;
    PathPush(decls, s.stack, id);
    assert id in Waiting(s.state);
  }

  // ------------------------------------------------------------------ report

  function Report(s: Snapshot, id: nat): Snapshot
    requires id < |s.state|
  {
    s.(state := s.state[id := Done], errors := s.errors + 1, reports := s.reports + [id])
  }

  /** A struct met again while in progress is on a cycle: the stack from it on,
      and back. */
  lemma ReportIsCycle(decls: Decls, s: Snapshot, id: nat)
    requires Path(decls, s.stack) && id in s.stack && Asked(decls, s, id)
    ensures OnCycle(decls, id)
  {
    hide Edge;
    var k :| 0 <= k < |s.stack| && s.stack[k] == id;
    var p := s.stack[k..];
    assert Path(decls, p) by {
      forall i | 0 <= i < |p| - 1 ensures Edge(decls, p[i], p[i + 1]) {
        assert p[i] == s.stack[k + i] && p[i + 1] == s.stack[k + i + 1];
      }
    }
    PathPush(decls, p, id);
    assert Cycle(decls, p + [id]) && (p + [id])[0] == id;
  }

  lemma ReportKeeps(decls: Decls, s: Snapshot, id: nat)
    requires Inv(decls, s) && id < |decls| && s.state[id].InProgress? && Asked(decls, s, id)
    ensures Inv(decls, Report(s, id)) && Grows(s, Report(s, id))
  {
    ReportIsCycle(decls, s, id);
    hide Edge, Path, Ranked, OnCycle, LaidOut, WellSized, Asked;
  }

  // ------------------------------------------------------------------- leave

  function Leave(s: Snapshot, id: nat, slot: Slot, syms: seq<FieldSym>): Snapshot
    requires id < |s.state| == |s.table| == |s.places| && s.stack != []
  {
    s.(state := s.state[id := Done], table := s.table[id := slot], places := s.places[id := syms],
       stack := s.stack[..|s.stack| - 1], order := s.order + [id])
  }

  lemma RankedLeave(decls: Decls, order: seq<nat>, id: nat)
    requires Ranked(decls, order) && (forall b :: Edge(decls, id, b) ==> b in order)
    ensures Ranked(decls, order + [id])
  {
    hide Edge;
    var o := order + [id];
    forall k, b | 0 <= k < |o| && Edge(decls, o[k], b) ensures b in o[..k] {
      if k < |order| {
        assert o[k] == order[k] && o[..k] == order[..k];
      } else {
        assert o[..k] == order;
      }
    }
  }

  /** A completed struct's layout does not change when another one completes. */
  lemma LaidOutStable(decls: Decls, i: nat, a: seq<Slot>, b: seq<Slot>, slot: Slot, syms: seq<FieldSym>)
    requires i < |decls| && |a| == |b| && LaidOut(decls[i], a, slot, syms) && WellSized(b)
    requires forall j: nat :: j < |a| && Edge(decls, i, j) ==> a[j] == b[j]
    ensures LaidOut(decls[i], b, slot, syms)
  {
    var fields := decls[i];
    forall f | 0 <= f < |fields| ensures SlotOf(a, fields[f].ty) == SlotOf(b, fields[f].ty) {
      forall j | j in Holds(fields[f].ty) && j < |a| ensures a[j] == b[j] {
        assert j in Needs(fields[f].ty);
        assert Edge(decls, i, j);
      }
      SlotStable(|a|, a, b, fields[f].ty);
    }
    assert SlotsOfFields(a, fields) == SlotsOfFields(b, fields);
  }

  lemma SizesLeave(decls: Decls, s: Snapshot, id: nat, slot: Slot, syms: seq<FieldSym>)
    requires Inv(decls, s) && id < |decls| && s.stack != [] && id !in s.order
    requires IsAlign(slot.align) && slot.size < LayoutRules.U32
    requires s.errors == 0
    requires forall b :: Edge(decls, id, b) ==> b in s.order
    requires LaidOut(decls[id], s.table, slot, syms)
    requires Shape(|decls|, Leave(s, id, slot, syms))
    ensures SizesRight(decls, Leave(s, id, slot, syms))
  {
    hide Edge, LaidOut, Waiting, Path, Witnessed;
    var t := Leave(s, id, slot, syms);
    forall i | i in t.order ensures LaidOut(decls[i], t.table, t.table[i], t.places[i]) {
      if i in s.order {
        assert i != id && LaidOut(decls[i], s.table, s.table[i], s.places[i]);
        var k :| 0 <= k < |s.order| && s.order[k] == i;
        forall j: nat | j < |s.table| && Edge(decls, i, j) ensures s.table[j] == t.table[j] {
          assert j in s.order[..k] && j in s.order;
        }
        LaidOutStable(decls, i, s.table, t.table, t.table[i], t.places[i]);
      } else {
        assert i == id;
        LaidOutStable(decls, id, s.table, t.table, slot, syms);
      }
    }
  }

  lemma LeaveTracks(n: nat, s: Snapshot, id: nat, slot: Slot, syms: seq<FieldSym>)
    requires Shape(n, s) && Tracks(n, s) && id < n && s.stack != [] && s.stack[|s.stack| - 1] == id
    requires id !in s.stack[..|s.stack| - 1]
    requires IsAlign(slot.align) && slot.size < LayoutRules.U32
    ensures Shape(n, Leave(s, id, slot, syms)) && Tracks(n, Leave(s, id, slot, syms))
  {
    hide WellSized;
    var t := Leave(s, id, slot, syms);
    assert s.stack == t.stack + [id];
    assert WellSized(t.table) by {
      SizedUpdate(s.table, id, slot);
    }
    forall i | i in t.order ensures i < n && t.state[i].Done? && i !in t.stack {
      assert i == id || i in s.order;
    }
    forall i | i in t.stack ensures i in s.stack && i != id {
    }
    forall i: nat | i < n && t.state[i].Done? ensures s.reports == [] ==> i in t.order {
      if i != id && s.reports == [] {
        assert i in s.order;
      }
    }
  }

  lemma SizedUpdate(table: seq<Slot>, id: nat, slot: Slot)
    requires WellSized(table) && id < |table| && IsAlign(slot.align) && slot.size < LayoutRules.U32
    ensures WellSized(table[id := slot])
  {
  }

  lemma LeaveKeeps(decls: Decls, s: Snapshot, id: nat, slot: Slot, syms: seq<FieldSym>)
    requires Inv(decls, s) && id < |decls| && s.stack != [] && s.stack[|s.stack| - 1] == id
    requires id !in s.stack[..|s.stack| - 1] && id !in s.order
    requires IsAlign(slot.align) && slot.size < LayoutRules.U32
    requires s.reports == [] ==> forall b :: Edge(decls, id, b) ==> b in s.order
    requires s.errors == 0 ==> LaidOut(decls[id], s.table, slot, syms)
    ensures Inv(decls, Leave(s, id, slot, syms))
    ensures Settled(s, Leave(s, id, slot, syms))
  {
    assert Settled(s, Leave(s, id, slot, syms));
    hide Edge, LaidOut, Ranked, Witnessed, Shape, Tracks, SizesRight;
    LeaveTracks(|decls|, s, id, slot, syms);
    if s.reports == [] {
      RankedLeave(decls, s.order, id);
    }
    if s.errors == 0 {
      SizesLeave(decls, s, id, slot, syms);
    }
  }

  /** A struct completed after its fields: from before it was entered to after. */
  lemma Complete(decls: Decls, s: Snapshot, id: nat, t: Snapshot, slot: Slot, syms: seq<FieldSym>)
    requires Inv(decls, s) && id < |decls| && s.state[id].Unstarted? && Asked(decls, s, id)
    requires Inv(decls, t) && Grows(Enter(s, id), t)
    requires IsAlign(slot.align) && slot.size < LayoutRules.U32
    requires t.reports == [] ==> forall b :: Edge(decls, id, b) ==> b in t.order
    requires t.errors == 0 ==> LaidOut(decls[id], t.table, slot, syms)
    ensures t.stack == s.stack + [id] && |t.state| == |t.table| == |t.places| == |decls|
    ensures Inv(decls, Leave(t, id, slot, syms)) && Grows(s, Leave(t, id, slot, syms))
    ensures id in Leave(t, id, slot, syms).order && id !in t.order
  {
    EnterKeeps(decls, s, id);
    hide Edge, LaidOut, Ranked, Witnessed, SizesRight, Path, WellSized;
    assert t.stack == s.stack + [id];
    assert id in t.stack && id !in t.order;
    assert t.stack[..|t.stack| - 1] == s.stack;
    LeaveKeeps(decls, t, id, slot, syms);
    LeaveGrows(s, id, t, slot, syms);
  }

  lemma LeaveGrows(s: Snapshot, id: nat, t: Snapshot, slot: Slot, syms: seq<FieldSym>)
    requires id < |s.state| == |s.table| == |s.places| && Grows(Enter(s, id), t)
    requires Waiting(Enter(s, id).state) <= Waiting(s.state)
    requires t.stack == s.stack + [id] && Settled(t, Leave(t, id, slot, syms))
    requires forall i :: i in t.order ==> i < |s.state|
    ensures Grows(s, Leave(t, id, slot, syms))
  {
    var u := Leave(t, id, slot, syms);
    assert u.stack == s.stack;
    assert Waiting(u.state) <= Waiting(t.state);
    hide Waiting;
    assert Settled(s, t);
    SettledOn(s, t, u);
  }

  lemma SettledOn(a: Snapshot, b: Snapshot, c: Snapshot)
    requires |a.table| == |b.table| == |c.table| == |a.places| == |b.places| == |c.places|
    requires Settled(a, b) && Settled(b, c)
    ensures Settled(a, c)
  {
  }

  lemma Known(decls: Decls, s: Snapshot, id: nat)
    requires Inv(decls, s) && id < |decls|
    ensures |s.state| == |s.table| == |s.places| == |decls| && Grows(s, s)
    ensures s.reports == [] && s.state[id].Done? ==> id in s.order
    ensures s.reports + [id] != []
  {
    hide Edge, LaidOut, Ranked, Witnessed, SizesRight, Path, WellSized, Waiting;
  }

  // ------------------------------------------------------------- field by field

  /** What the first `i` fields need is completed. */
  ghost predicate NeedsMet(decl: seq<Field>, i: nat, order: seq<nat>) {
    forall j, b :: 0 <= j < i && j < |decl| && b in Needs(decl[j].ty) ==> b in order
  }

  /** The first `i` fields are placed by the rules. */
  ghost predicate Placed(decl: seq<Field>, i: nat, fields: seq<FieldSym>, slots: seq<Slot>) {
    && |fields| == |slots| == i <= |decl| && WellSized(slots)
    && forall j :: 0 <= j < i ==> fields[j] == FieldSym(decl[j].name, slots[j], OffsetOf(slots, j))
  }

  /** The first `i` sizes used are the ones in the table. */
  ghost predicate SlotsHold(decl: seq<Field>, i: nat, slots: seq<Slot>, table: seq<Slot>) {
    && AllNamed(|table|, decl) && WellSized(table) && |slots| == i <= |decl|
    && forall j :: 0 <= j < i ==> slots[j] == SlotOf(table, decl[j].ty)
  }

  lemma NeedIsEdge(decls: Decls, id: nat, i: nat)
    requires id < |decls| && i < |decls[id]|
    ensures forall b :: b in Needs(decls[id][i].ty) ==> Edge(decls, id, b)
  {
  }

  lemma EdgesMet(decls: Decls, id: nat, order: seq<nat>)
    requires id < |decls| && NeedsMet(decls[id], |decls[id]|, order)
    ensures forall b :: Edge(decls, id, b) ==> b in order
  {
  }

  lemma NeedsKept(decls: Decls, a: Snapshot, b: Snapshot, decl: seq<Field>, i: nat)
    requires Inv(decls, a) && Grows(a, b) && NeedsMet(decl, i, a.order)
    ensures NeedsMet(decl, i, b.order)
  {
    hide Tracks, Path, Ranked, Witnessed, SizesRight, Waiting, Needs, WellSized;
  }

  lemma SlotsKept(decls: Decls, a: Snapshot, b: Snapshot, decl: seq<Field>, i: nat, slots: seq<Slot>)
    requires Inv(decls, a) && Inv(decls, b) && Grows(a, b) && NeedsMet(decl, i, a.order)
    requires SlotsHold(decl, i, slots, a.table)
    ensures SlotsHold(decl, i, slots, b.table)
  {
    hide Tracks, Path, Ranked, Witnessed, SizesRight, Waiting;
    forall j | 0 <= j < i ensures slots[j] == SlotOf(b.table, decl[j].ty) {
      SlotStable(|decls|, a.table, b.table, decl[j].ty);
    }
  }

  lemma PlaceNext(decl: seq<Field>, i: nat, fields: seq<FieldSym>, slots: seq<Slot>, slot: Slot)
    requires Placed(decl, i, fields, slots) && i < |decl| && IsAlign(slot.align) && slot.size < LayoutRules.U32
    ensures var off, more := RoundUp(EndOf(slots, i), slot.align), slots + [slot];
            && Placed(decl, i + 1, fields + [FieldSym(decl[i].name, slot, off)], more)
            && EndOf(more, i + 1) == (off + slot.size) % LayoutRules.U32
            && AlignOf(more, i + 1) == if slot.align > AlignOf(slots, i) then slot.align else AlignOf(slots, i)
  {
    hide RoundUp;
    var more := slots + [slot];
    assert more[..i] == slots[..i];
    CommonPrefix(slots, more, i);
    PlaceOne(more, i);
    hide EndOf, OffsetOf, AlignOf;
  }

  lemma PlacedIsLaidOut(decl: seq<Field>, fields: seq<FieldSym>, slots: seq<Slot>, table: seq<Slot>)
    requires Placed(decl, |decl|, fields, slots) && SlotsHold(decl, |decl|, slots, table)
    ensures LaidOut(decl, table, Slot(RoundUp(EndOf(slots, |decl|), AlignOf(slots, |decl|)), AlignOf(slots, |decl|)),
            fields)
  {
    hide RoundUp, EndOf, OffsetOf, AlignOf, SlotOf;
    assert slots == SlotsOfFields(table, decl);
  }

  lemma StartFields(decls: Decls, s: Snapshot, decl: seq<Field>)
    requires Inv(decls, s) && AllNamed(|decls|, decl)
    ensures Grows(s, s) && NeedsMet(decl, 0, s.order) && Placed(decl, 0, [], []) && SlotsHold(decl, 0, [], s.table)
    ensures EndOf([], 0) == 0 && AlignOf([], 0) == 1 && (s.errors == 0 ==> s.reports == [])
  {
    hide Tracks, Path, Ranked, Witnessed, SizesRight, Waiting;
  }

  /** One more field's needs are met and its size is known. */
  lemma FieldDone(decls: Decls, a: Snapshot, b: Snapshot, decl: seq<Field>, i: nat, slots: seq<Slot>, slot: Slot)
    requires Inv(decls, a) && Inv(decls, b) && Grows(a, b) && i < |decl| && |slots| == i
    requires a.reports == [] ==> NeedsMet(decl, i, a.order)
    requires a.errors == 0 ==> SlotsHold(decl, i, slots, a.table)
    requires b.reports == [] ==> forall n :: n in Needs(decl[i].ty) ==> n in b.order
    requires Named(|b.table|, decl[i].ty) && WellSized(b.table)
             && (b.errors == 0 ==> slot == SlotOf(b.table, decl[i].ty))
    ensures b.reports == [] ==> NeedsMet(decl, i + 1, b.order)
    ensures b.errors == 0 ==> b.reports == [] && SlotsHold(decl, i + 1, slots + [slot], b.table)
  {
    if b.reports == [] {
      NeedsKept(decls, a, b, decl, i);
    }
    if b.errors == 0 {
      SlotsKept(decls, a, b, decl, i, slots);
    }
    hide Tracks, Path, Ranked, Witnessed, SizesRight, Waiting, SlotOf, Needs, Settled;
  }
}
