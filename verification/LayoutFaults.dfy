/** What is wrong with a program's types: everything the layout pass may report,
    save cycles. A type's size is judged once the structs inside it are
    completed. */
module LayoutFaults {
  import opened Types
  import opened LayoutRules
  import opened LayoutOrder
  import opened LayoutSteps

  /** A name that is no type, an array without elements, of `void`, or of 2^32 bytes
      or more, anywhere in the type. */
  ghost predicate Faulty(order: seq<nat>, table: seq<Slot>, t: Written) {
    match t
    case Unknown => true
    case Pointer(e) => Faulty(order, table, e)
    case Array(e, n) =>
      || Faulty(order, table, e) || e == Core(Void) || n == 0
      || (KnownSize(order, table, e) && n * SlotOf(table, e).size >= LayoutRules.U32)
    case _ => false
  }

  predicate KnownSize(order: seq<nat>, table: seq<Slot>, t: Written) {
    Named(|table|, t) && WellSized(table) && forall b :: b in Holds(t) ==> b in order
  }

  ghost predicate FieldFaulty(order: seq<nat>, table: seq<Slot>, f: Field) {
    f.ty == Core(Void) || Faulty(order, table, f.ty)
  }

  /** An earlier field has the name of field `i`. */
  predicate Repeats(fields: seq<Field>, i: nat) {
    i < |fields| && exists j :: 0 <= j < i && fields[j].name == fields[i].name
  }

  /** One of the first `n` fields is at fault. */
  ghost predicate FieldsFaulty(order: seq<nat>, table: seq<Slot>, fields: seq<Field>, n: nat) {
    exists i: nat :: i < n && i < |fields| && (FieldFaulty(order, table, fields[i]) || Repeats(fields, i))
  }

  ghost predicate StructFaulty(decls: Decls, order: seq<nat>, table: seq<Slot>, id: nat) {
    id < |decls| && FieldsFaulty(order, table, decls[id], |decls[id]|)
  }

  /** Some struct has been reported or is at fault. */
  ghost predicate Blamed(decls: Decls, s: Snapshot) {
    s.reports != [] || exists id: nat :: StructFaulty(decls, s.order, s.table, id)
  }

  /** Without errors, no completed struct is at fault. */
  ghost predicate Judged(decls: Decls, s: Snapshot) {
    s.errors == 0 ==> forall id :: id in s.order ==> !StructFaulty(decls, s.order, s.table, id)
  }

  // ---------------------------------------------------------------- stability

  /** The completed structs stay, with their sizes. */
  ghost predicate Stays(n: nat, order: seq<nat>, table: seq<Slot>, order1: seq<nat>, table1: seq<Slot>) {
    && |table| == |table1| == n && WellSized(table) && WellSized(table1)
    && forall i :: i in order && i < n ==> i in order1 && table1[i] == table[i]
  }

  lemma SettledStays(decls: Decls, s: Snapshot, t: Snapshot)
    requires Shape(|decls|, s) && Shape(|decls|, t) && Settled(s, t)
    ensures Stays(|decls|, s.order, s.table, t.order, t.table)
  {
    hide WellSized;
  }

  lemma KnownStays(n: nat, o: seq<nat>, a: seq<Slot>, p: seq<nat>, b: seq<Slot>, t: Written)
    requires Stays(n, o, a, p, b) && KnownSize(o, a, t)
    ensures KnownSize(p, b, t) && SlotOf(a, t) == SlotOf(b, t)
  {
    HoldsNamed(n, t);
    SlotStable(n, a, b, t);
  }

  lemma {:induction false} HoldsNamed(n: nat, t: Written)
    requires Named(n, t)
    ensures forall b :: b in Holds(t) ==> b < n
  {
    if t.Array? {
      HoldsNamed(n, t.elem);
    }
  }

  lemma {:induction false} FaultStays(n: nat, o: seq<nat>, a: seq<Slot>, p: seq<nat>, b: seq<Slot>, t: Written)
    requires Stays(n, o, a, p, b) && Faulty(o, a, t)
    ensures Faulty(p, b, t)
  {
    hide Stays, KnownSize, SlotOf;
    match t
    case Pointer(e) => FaultStays(n, o, a, p, b, e);
    case Array(e, _) =>
      if Faulty(o, a, e) {
        FaultStays(n, o, a, p, b, e);
      } else if KnownSize(o, a, e) {
        KnownStays(n, o, a, p, b, e);
      }
    case _ =>
  }

  /** A type judged when all it needs was completed is not judged otherwise later. */
  lemma {:induction false} FineStays(n: nat, o: seq<nat>, a: seq<Slot>, p: seq<nat>, b: seq<Slot>, t: Written)
    requires Stays(n, o, a, p, b) && Named(n, t) && (forall i :: i in Resolving(t) ==> i in o) && !Faulty(o, a, t)
    ensures !Faulty(p, b, t)
  {
    hide SlotOf;
    match t
    case Pointer(e) => FineStays(n, o, a, p, b, e);
    case Array(e, _) =>
      FineStays(n, o, a, p, b, e);
      assert forall i :: i in Holds(e) ==> i in Resolving(t);
      KnownStays(n, o, a, p, b, e);
    case _ =>
  }

  lemma BlameStays(decls: Decls, s: Snapshot, t: Snapshot)
    requires Shape(|decls|, s) && Shape(|decls|, t) && Settled(s, t) && s.reports <= t.reports && Blamed(decls, s)
    ensures Blamed(decls, t)
  {
    hide Faulty, Settled, WellSized, Repeats;
    SettledStays(decls, s, t);
    if s.reports == [] {
      var id: nat :| StructFaulty(decls, s.order, s.table, id);
      FieldsFaultStays(|decls|, s.order, s.table, t.order, t.table, decls[id], |decls[id]|);
      assert StructFaulty(decls, t.order, t.table, id);
    }
  }

  lemma FieldsFaultStays(n: nat, o: seq<nat>, a: seq<Slot>, p: seq<nat>, b: seq<Slot>, fields: seq<Field>, k: nat)
    requires Stays(n, o, a, p, b) && FieldsFaulty(o, a, fields, k)
    ensures FieldsFaulty(p, b, fields, k)
  {
    hide Faulty, Stays, Repeats;
    var i: nat :| i < k && i < |fields| && (FieldFaulty(o, a, fields[i]) || Repeats(fields, i));
    if Faulty(o, a, fields[i].ty) {
      FaultStays(n, o, a, p, b, fields[i].ty);
    }
    assert FieldFaulty(p, b, fields[i]) || Repeats(fields, i);
  }

  lemma FieldsFineStay(n: nat, o: seq<nat>, a: seq<Slot>, p: seq<nat>, b: seq<Slot>, fields: seq<Field>, k: nat)
    requires Stays(n, o, a, p, b) && AllNamed(n, fields) && NeedsMet(fields, k, o) && !FieldsFaulty(o, a, fields, k)
    ensures !FieldsFaulty(p, b, fields, k)
  {
    hide Faulty, Stays, Repeats, Needs;
    forall i: nat | i < k && i < |fields| ensures !FieldFaulty(p, b, fields[i]) && !Repeats(fields, i) {
      assert !FieldFaulty(o, a, fields[i]) && !Repeats(fields, i);
      ResolvingNeeded(fields[i].ty);
      FineStays(n, o, a, p, b, fields[i].ty);
    }
  }

  lemma ResolvingNeeded(t: Written)
    ensures Resolving(t) <= Needs(t)
  {
  }

  lemma StructFineStays(decls: Decls, s: Snapshot, t: Snapshot, id: nat)
    requires WellNamed(decls) && Shape(|decls|, s) && Shape(|decls|, t) && Settled(s, t) && id < |decls|
    requires !StructFaulty(decls, s.order, s.table, id) && forall b :: Edge(decls, id, b) ==> b in s.order
    ensures !StructFaulty(decls, t.order, t.table, id)
  {
    hide Faulty, Settled, WellSized, FieldsFaulty, Needs;
    SettledStays(decls, s, t);
    forall j, b | 0 <= j < |decls[id]| && b in Needs(decls[id][j].ty) ensures b in s.order {
      assert Edge(decls, id, b);
    }
    FieldsFineStay(|decls|, s.order, s.table, t.order, t.table, decls[id], |decls[id]|);
  }

  /** Completing a struct that is not at fault leaves none at fault. */
  lemma LeaveJudged(decls: Decls, s: Snapshot, id: nat, slot: Slot, syms: seq<FieldSym>)
    requires WellNamed(decls) && Inv(decls, s) && Judged(decls, s) && id < |decls| && s.stack != []
    requires s.reports == [] ==> forall b :: Edge(decls, id, b) ==> b in s.order
    requires s.errors == 0 ==> !StructFaulty(decls, s.order, s.table, id)
    requires Shape(|decls|, Leave(s, id, slot, syms)) && Settled(s, Leave(s, id, slot, syms))
    ensures Judged(decls, Leave(s, id, slot, syms))
  {
    hide StructFaulty, Settled, WellSized, Edge, Path, Witnessed, SizesRight, Tracks, WellNamed;
    var t := Leave(s, id, slot, syms);
    if s.errors == 0 {
      forall i | i in t.order ensures !StructFaulty(decls, t.order, t.table, i) {
        if i in s.order {
          var k :| 0 <= k < |s.order| && s.order[k] == i;
          forall b | Edge(decls, i, b) ensures b in s.order {
            assert b in s.order[..k];
          }
          StructFineStays(decls, s, t, i);
        } else {
          assert i == id;
          StructFineStays(decls, s, t, id);
        }
      }
    }
  }

  // ----------------------------------------------------------------- verdicts

  /** After a step that began with `before` errors: without any error there is no fault,
      and a first error means that a struct is to blame or that there is one. */
  ghost predicate Verdict(decls: Decls, before: nat, s: Snapshot, fault: bool) {
    if s.errors == 0 then !fault else before > 0 || Blamed(decls, s) || fault
  }

  /** The verdict on a type stands while structs are laid out after it. */
  lemma Carry(decls: Decls, before: nat, s: Snapshot, u: Snapshot, t: Written)
    requires Inv(decls, s) && Inv(decls, u) && Grows(s, u) && Named(|decls|, t)
    requires s.reports == [] ==> forall b :: b in Resolving(t) ==> b in s.order
    requires Verdict(decls, before, s, Faulty(s.order, s.table, t)) && Verdict(decls, s.errors, u, false)
    ensures Verdict(decls, before, u, Faulty(u.order, u.table, t))
  {
    hide Blamed, WellSized, Tracks, Path, Witnessed, Ranked, SizesRight, Waiting, Settled, Faulty, Resolving;
    SettledStays(decls, s, u);
    if s.errors > 0 && Blamed(decls, s) {
      BlameStays(decls, s, u);
    }
    if Faulty(s.order, s.table, t) {
      FaultStays(|decls|, s.order, s.table, u.order, u.table, t);
    } else if u.errors == 0 {
      FineStays(|decls|, s.order, s.table, u.order, u.table, t);
    }
  }

  /** The same of what is inside a struct's first fields. */
  lemma CarryFields(decls: Decls, before: nat, s: Snapshot, u: Snapshot, fields: seq<Field>, k: nat)
    requires Inv(decls, s) && Inv(decls, u) && Grows(s, u) && AllNamed(|decls|, fields)
    requires s.reports == [] ==> NeedsMet(fields, k, s.order)
    requires Verdict(decls, before, s, FieldsFaulty(s.order, s.table, fields, k)) && s.errors <= u.errors
    ensures u.errors == 0 ==> !FieldsFaulty(u.order, u.table, fields, k)
    ensures s.errors > 0 ==> before > 0 || Blamed(decls, u) || FieldsFaulty(u.order, u.table, fields, k)
  {
    hide Blamed, WellSized, Tracks, Path, Witnessed, Ranked, SizesRight, Waiting, Settled, FieldsFaulty, NeedsMet;
    SettledStays(decls, s, u);
    if s.errors > 0 && Blamed(decls, s) {
      BlameStays(decls, s, u);
    }
    if FieldsFaulty(s.order, s.table, fields, k) {
      FieldsFaultStays(|decls|, s.order, s.table, u.order, u.table, fields, k);
    } else if u.errors == 0 {
      FieldsFineStay(|decls|, s.order, s.table, u.order, u.table, fields, k);
    }
  }

  /** The verdict on an array, once its element's struct is laid out: `void` has no
      size, the number of elements is not zero, and the size fits. */
  lemma ArrayVerdict(decls: Decls, before: nat, s: Snapshot, u: Snapshot, e: Written, n: nat)
    requires Inv(decls, s) && s.errors <= u.errors && s.order == u.order && s.table == u.table
    requires s.reports == u.reports && Named(|decls|, e)
    requires s.reports == [] ==> forall b :: b in Resolving(Written.Array(e, n)) ==> b in s.order
    requires Verdict(decls, before, s, Faulty(s.order, s.table, e))
    requires u.errors == 0 ==> e != Core(Void) && n > 0 && n * SlotOf(s.table, e).size < LayoutRules.U32
    requires s.errors == 0 < u.errors ==>
               || u.reports != [] || e == Core(Void) || n == 0
               || n * SlotOf(s.table, e).size >= LayoutRules.U32
    ensures Verdict(decls, before, u, Faulty(u.order, u.table, Written.Array(e, n)))
  {
    hide WellSized, Tracks, Path, Witnessed, Ranked, SizesRight, SlotOf, StructFaulty;
    assert forall b :: b in Holds(e) ==> b in Resolving(Written.Array(e, n));
  }

  /** One more field, and whether its name was there already. */
  lemma NextVerdict(decls: Decls, before: nat, s: Snapshot, u: Snapshot, v: Snapshot, fields: seq<Field>, k: nat)
    requires Inv(decls, s) && Inv(decls, u) && Grows(s, u) && AllNamed(|decls|, fields) && k < |fields|
    requires s.reports == [] ==> NeedsMet(fields, k, s.order)
    requires Verdict(decls, before, s, FieldsFaulty(s.order, s.table, fields, k))
    requires Verdict(decls, s.errors, u, FieldFaulty(u.order, u.table, fields[k]))
    requires v == u.(errors := u.errors + (if Repeats(fields, k) then 1 else 0))
    ensures Verdict(decls, before, v, FieldsFaulty(v.order, v.table, fields, k + 1))
  {
    hide StructFaulty, FieldFaulty, Repeats, FieldsFaulty, Inv, NeedsMet, AllNamed;
    CarryFields(decls, before, s, u, fields, k);
    MoreFields(u.order, u.table, fields, k);
  }

  lemma MoreFields(order: seq<nat>, table: seq<Slot>, fields: seq<Field>, k: nat)
    requires k < |fields|
    ensures FieldsFaulty(order, table, fields, k + 1) <==>
            FieldsFaulty(order, table, fields, k) || FieldFaulty(order, table, fields[k]) || Repeats(fields, k)
  {
    hide FieldFaulty, Repeats;
  }

  // ------------------------------------------------------------------ several types

  ghost predicate TypesFaulty(order: seq<nat>, table: seq<Slot>, ts: seq<Written>) {
    exists i :: 0 <= i < |ts| && Faulty(order, table, ts[i])
  }

  /** What these types have structs laid out for is completed. */
  ghost predicate AllResolved(ts: seq<Written>, order: seq<nat>) {
    forall i, b :: 0 <= i < |ts| && b in Resolving(ts[i]) ==> b in order
  }

  predicate NamedAll(n: nat, ts: seq<Written>) {
    forall i :: 0 <= i < |ts| ==> Named(n, ts[i])
  }

  /** The verdict on types looked at so far, and on anything about them that needs no
      size (`other`), once more types have been looked at. */
  lemma JoinVerdicts(decls: Decls, before: nat, s: Snapshot, u: Snapshot, ts: seq<Written>, us: seq<Written>,
      other: bool, more: bool)
    requires Inv(decls, s) && Inv(decls, u) && Grows(s, u) && NamedAll(|decls|, ts)
    requires s.reports == [] ==> AllResolved(ts, s.order)
    requires Verdict(decls, before, s, other || TypesFaulty(s.order, s.table, ts))
    requires Verdict(decls, s.errors, u, more || TypesFaulty(u.order, u.table, us))
    ensures Verdict(decls, before, u, other || more || TypesFaulty(u.order, u.table, ts + us))
  {
    hide Blamed, WellSized, Tracks, Path, Witnessed, Ranked, SizesRight, Waiting, Settled, Faulty, Resolving,
        TypesFaulty;
    hide AllResolved, NamedAll;
    TypesBoth(u.order, u.table, ts, us);
    SettledStays(decls, s, u);
    if s.errors > 0 && Blamed(decls, s) {
      BlameStays(decls, s, u);
    }
    if TypesFaulty(s.order, s.table, ts) {
      TypesFaultStay(|decls|, s.order, s.table, u.order, u.table, ts);
    } else if u.errors == 0 {
      TypesFineStay(|decls|, s.order, s.table, u.order, u.table, ts);
    }
  }

  lemma TypesBoth(order: seq<nat>, table: seq<Slot>, ts: seq<Written>, us: seq<Written>)
    ensures TypesFaulty(order, table, ts + us) <==> TypesFaulty(order, table, ts) || TypesFaulty(order, table, us)
  {
    hide Faulty;
    var both := ts + us;
    assert forall i :: 0 <= i < |ts| ==> both[i] == ts[i];
    assert forall i :: 0 <= i < |us| ==> both[|ts| + i] == us[i];
  }

  lemma TypesFaultStay(n: nat, o: seq<nat>, a: seq<Slot>, p: seq<nat>, b: seq<Slot>, ts: seq<Written>)
    requires Stays(n, o, a, p, b) && TypesFaulty(o, a, ts)
    ensures TypesFaulty(p, b, ts)
  {
    hide Faulty, Stays;
    var i :| 0 <= i < |ts| && Faulty(o, a, ts[i]);
    FaultStays(n, o, a, p, b, ts[i]);
  }

  lemma TypesFineStay(n: nat, o: seq<nat>, a: seq<Slot>, p: seq<nat>, b: seq<Slot>, ts: seq<Written>)
    requires Stays(n, o, a, p, b) && NamedAll(n, ts) && AllResolved(ts, o) && !TypesFaulty(o, a, ts)
    ensures !TypesFaulty(p, b, ts)
  {
    hide Faulty, Stays;
    forall i | 0 <= i < |ts| ensures !Faulty(p, b, ts[i]) {
      FineStays(n, o, a, p, b, ts[i]);
    }
  }

  lemma ResolvedBoth(ts: seq<Written>, us: seq<Written>, a: seq<nat>, b: seq<nat>)
    requires AllResolved(ts, a) && AllResolved(us, b) && forall i :: i in a ==> i in b
    ensures AllResolved(ts + us, b)
  {
  }

  lemma OneType(order: seq<nat>, table: seq<Slot>, t: Written)
    ensures TypesFaulty(order, table, [t]) <==> Faulty(order, table, t)
    ensures !TypesFaulty(order, table, [])
  {
    hide Faulty;
    assert [t][0] == t;
  }
}
