/** Struct layout on demand: a depth-first walk over the structs a struct's
    fields need, each unstarted, in progress or done. A struct met again while in
    progress is reported as containing itself. */
module LayoutOrder {
  import opened Types
  import opened LayoutRules

  /** A type as written, with its names looked up. */
  datatype Written =
    | Core(ty: Ty)
    | StructName(id: nat)
    | EnumName(base: Base)
    | Unknown
    | Pointer(elem: Written)
    | Array(elem: Written, length: nat)

  datatype Field = Field(name: string, ty: Written)

  /** The struct declarations; a struct is known by its place here. */
  type Decls = seq<seq<Field>>

  predicate Named(n: nat, t: Written) {
    match t
    case Core(ty) => ty.Void? || IsInteger(ty) || IsFloat(ty) || IsBool(ty)
    case StructName(id) => id < n
    case Pointer(e) => Named(n, e)
    case Array(e, _) => Named(n, e)
    case _ => true
  }

  predicate AllNamed(n: nat, fields: seq<Field>) {
    forall i :: 0 <= i < |fields| ==> Named(n, fields[i].ty)
  }

  predicate WellNamed(decls: Decls) {
    forall i :: 0 <= i < |decls| ==> AllNamed(|decls|, decls[i])
  }

  // -------------------------------------------------------------------- edges

  function Itself(t: Written): set<nat> {
    if t.StructName? then {t.id} else {}
  }

  /** The structs that resolving a type lays out: the element types of its arrays,
      even behind a pointer. */
  function Resolving(t: Written): set<nat> {
    match t
    case Pointer(e) => Resolving(e)
    case Array(e, _) => Resolving(e) + Itself(e)
    case _ => {}
  }

  /** The structs that a field of this type lays out. */
  function Needs(t: Written): set<nat> {
    Resolving(t) + Itself(t)
  }

  /** The structs a value of this type has inside it. */
  function Holds(t: Written): (r: set<nat>)
    ensures r <= Needs(t)
  {
    match t
    case StructName(id) => {id}
    case Array(e, _) => Holds(e)
    case _ => {}
  }

  ghost predicate Edge(decls: Decls, a: nat, b: nat) {
    a < |decls| && exists i :: 0 <= i < |decls[a]| && b in Needs(decls[a][i].ty)
  }

  ghost predicate Inside(decls: Decls, a: nat, b: nat) {
    a < |decls| && exists i :: 0 <= i < |decls[a]| && b in Holds(decls[a][i].ty)
  }

  /** A walk along the edges that the layout follows. */
  ghost predicate Path(decls: Decls, p: seq<nat>) {
    forall k :: 0 <= k < |p| - 1 ==> Edge(decls, p[k], p[k + 1])
  }

  ghost predicate Cycle(decls: Decls, p: seq<nat>) {
    |p| >= 2 && Path(decls, p) && p[0] == p[|p| - 1]
  }

  ghost predicate OnCycle(decls: Decls, id: nat) {
    exists p :: Cycle(decls, p) && p[0] == id
  }

  // -------------------------------------------------------------------- state

  datatype Progress = Unstarted | InProgress | Done

  /** What a type is to the layout. */
  datatype Sem = Sized(slot: Slot) | NoSize | OfStruct(id: nat)

  /** Everything the walk keeps. `stack` is the structs in progress and `order`
      the ones completed, both oldest first. */
  datatype Snapshot = Snapshot(
    state: seq<Progress>, table: seq<Slot>, places: seq<seq<FieldSym>>,
    errors: nat, reports: seq<nat>, stack: seq<nat>, order: seq<nat>)

  function Waiting(state: seq<Progress>): set<nat> {
    set i: nat | 0 <= i < |state| && state[i].Unstarted?
  }

  const NOTHING: Slot := Slot(0, 1)

  function CoreSize(t: Ty): nat {
    match t
    case I8 => 1
    case U8 => 1
    case B8 => 1
    case I32 => 4
    case U32 => 4
    case F32 => 4
    case B32 => 4
    case I64 => 8
    case U64 => 8
    case F64 => 8
    case B64 => 8
    case _ => 0
  }

  function CoreSlot(t: Ty): (r: Slot)
    ensures IsAlign(r.align) && r.size < LayoutRules.U32
  {
    if CoreSize(t) == 0 then NOTHING else Slot(CoreSize(t), CoreSize(t))
  }

  const PTR_SLOT: Slot := Slot(8, 8)

  /** The size and alignment of a type, those of the structs being known. */
  function SlotOf(table: seq<Slot>, t: Written): (r: Slot)
    requires Named(|table|, t) && WellSized(table)
    ensures IsAlign(r.align) && r.size < LayoutRules.U32
  {
    match t
    case Core(ty) => CoreSlot(ty)
    case StructName(id) => table[id]
    case EnumName(base) => CoreSlot(BaseTy(base))
    case Unknown => NOTHING
    case Pointer(_) => PTR_SLOT
    case Array(e, length) =>
      var el := SlotOf(table, e);
      Slot(length * el.size % LayoutRules.U32, el.align)
  }

  function SlotsOfFields(table: seq<Slot>, fields: seq<Field>): (r: seq<Slot>)
    requires AllNamed(|table|, fields) && WellSized(table)
    ensures |r| == |fields| && WellSized(r)
    ensures forall i :: 0 <= i < |fields| ==> r[i] == SlotOf(table, fields[i].ty)
  {
    seq(|fields|, i requires 0 <= i < |fields| => SlotOf(table, fields[i].ty))
  }

  // --------------------------------------------------------------- invariants

  /** The table's entry for a struct is its layout by the rules. */
  ghost predicate LaidOut(fields: seq<Field>, table: seq<Slot>, slot: Slot, syms: seq<FieldSym>) {
    && AllNamed(|table|, fields) && WellSized(table) && |syms| == |fields|
    && var slots := SlotsOfFields(table, fields);
       && slot == Slot(SizeOf(slots), AlignOf(slots, |slots|))
       && forall i :: 0 <= i < |fields| ==> syms[i] == FieldSym(fields[i].name, slots[i], OffsetOf(slots, i))
  }

  /** Every struct comes after the structs it needs. */
  ghost predicate Ranked(decls: Decls, order: seq<nat>) {
    forall k, b :: 0 <= k < |order| && Edge(decls, order[k], b) ==> b in order[..k]
  }

  predicate Shape(n: nat, s: Snapshot) {
    && |s.state| == |s.table| == |s.places| == n && WellSized(s.table)
    && (forall i :: 0 <= i < |s.stack| ==> s.stack[i] < n)
    && (forall i :: 0 <= i < |s.order| ==> s.order[i] < n)
  }

  /** The stack and the completed structs, against the states. */
  predicate Tracks(n: nat, s: Snapshot)
    requires Shape(n, s)
  {
    && (forall i :: i in s.stack ==> !s.state[i].Unstarted?)
    && (forall i :: i in s.order ==> s.state[i].Done? && i !in s.stack)
    && (forall i :: 0 <= i < n && s.state[i].InProgress? ==> i in s.stack)
    && (s.reports == [] ==>
          (forall i :: 0 <= i < n && s.state[i].Done? ==> i in s.order)
          && (forall i :: i in s.stack ==> s.state[i].InProgress?))
  }

  ghost predicate Witnessed(decls: Decls, reports: seq<nat>) {
    forall i :: 0 <= i < |reports| ==> OnCycle(decls, reports[i])
  }

  ghost predicate SizesRight(decls: Decls, s: Snapshot)
    requires Shape(|decls|, s)
  {
    forall i :: i in s.order ==> LaidOut(decls[i], s.table, s.table[i], s.places[i])
  }

  ghost predicate Inv(decls: Decls, s: Snapshot) {
    && Shape(|decls|, s) && Tracks(|decls|, s) && Path(decls, s.stack) && Witnessed(decls, s.reports)
    && |s.reports| <= s.errors
    && (s.reports == [] ==> Ranked(decls, s.order))
    && (s.errors == 0 ==> SizesRight(decls, s))
  }

  /** What a step keeps. */
  predicate Grows(s: Snapshot, t: Snapshot) {
    && |s.state| == |t.state| == |s.table| == |t.table| == |s.places| == |t.places|
    && t.stack == s.stack && s.reports <= t.reports && s.errors <= t.errors
    && Waiting(t.state) <= Waiting(s.state)
    && Settled(s, t)
  }

  /** Completed structs are not touched again. */
  predicate Settled(s: Snapshot, t: Snapshot)
    requires |s.table| == |t.table| == |s.places| == |t.places|
  {
    forall i :: i in s.order && i < |s.table| ==> i in t.order && t.table[i] == s.table[i] && t.places[i] == s.places[i]
  }

  lemma GrowsOn(a: Snapshot, b: Snapshot, c: Snapshot)
    requires Grows(a, b) && Grows(b, c)
    ensures Grows(a, c)
  {
    hide Waiting;
  }

  /** A type's size depends only on the structs it holds. */
  lemma {:induction false} SlotStable(n: nat, a: seq<Slot>, b: seq<Slot>, t: Written)
    requires |a| == |b| == n && WellSized(a) && WellSized(b) && Named(n, t)
    requires forall i :: i in Holds(t) && i < n ==> a[i] == b[i]
    ensures SlotOf(a, t) == SlotOf(b, t)
  {
    if t.Array? {
      SlotStable(n, a, b, t.elem);
    }
  }

  /** What a pass without errors leaves: for every struct, its layout by the
      rules, each struct after those it needs. */
  datatype Env = Env(decls: Decls, table: seq<Slot>, places: seq<seq<FieldSym>>, order: seq<nat>)

  ghost predicate Finished(env: Env) {
    && WellNamed(env.decls) && |env.table| == |env.places| == |env.decls| && WellSized(env.table)
    && Ranked(env.decls, env.order)
    && forall id :: 0 <= id < |env.decls| ==>
         id in env.order && LaidOut(env.decls[id], env.table, env.table[id], env.places[id])
  }

  // ------------------------------------------------------------------- acyclic

  lemma {:induction false} CycleDescends(decls: Decls, order: seq<nat>, p: seq<nat>, j: nat, k: nat)
    requires Path(decls, p) && Ranked(decls, order) && j < |p| && k <= |order| && p[j] in order[..k]
    ensures forall i :: j <= i < |p| ==> p[i] in order[..k]
    decreases |p| - j
  {
    if j + 1 < |p| {
      var r :| 0 <= r < k && order[r] == p[j];
      assert Edge(decls, order[r], p[j + 1]);
      assert p[j + 1] in order[..r];
      assert p[j + 1] in order[..k];
      CycleDescends(decls, order, p, j + 1, k);
    }
  }

  /** A walk that starts among the first `k` structs does not come back to where
      it started. */
  lemma {:induction false} RankedIsAcyclic(decls: Decls, order: seq<nat>, p: seq<nat>, k: nat)
    requires Ranked(decls, order) && k <= |order| && Cycle(decls, p) && p[0] in order[..k]
    ensures false
    decreases k
  {
    var r :| 0 <= r < k && order[r] == p[0];
    assert Edge(decls, order[r], p[1]);
    CycleDescends(decls, order, p, 1, r);
    RankedIsAcyclic(decls, order, p, r);
  }

  /** The converse fails: this struct holds no struct at all, and the array behind
      its pointer has it reported all the same. */
  lemma PointerToArrayOfItself()
    ensures var decls: Decls := [[Field("p", Pointer(Written.Array(StructName(0), 4)))]];
            && Cycle(decls, [0, 0]) && forall a, b :: !Inside(decls, a, b)
  {
    var decls: Decls := [[Field("p", Pointer(Written.Array(StructName(0), 4)))]];
    assert 0 in Needs(decls[0][0].ty);
    assert Edge(decls, 0, 0);
    assert Holds(decls[0][0].ty) == {};
  }

  lemma InsideIsEdge(decls: Decls, a: nat, b: nat)
    requires Inside(decls, a, b)
    ensures Edge(decls, a, b)
  {
    var i :| 0 <= i < |decls[a]| && b in Holds(decls[a][i].ty);
    assert b in Needs(decls[a][i].ty);
  }

  // -------------------------------------------------------- structs in structs

  /** A struct that has itself inside, at any depth. */
  ghost predicate HoldsItself(decls: Decls, p: seq<nat>) {
    |p| >= 2 && (forall k :: 0 <= k < |p| - 1 ==> Inside(decls, p[k], p[k + 1])) && p[0] == p[|p| - 1]
  }

  /** Every struct comes after the structs a value of it has inside. */
  ghost predicate HeldFirst(decls: Decls, order: seq<nat>) {
    forall k, b :: 0 <= k < |order| && Inside(decls, order[k], b) ==> b in order[..k]
  }

  lemma RankedHoldsFirst(decls: Decls, order: seq<nat>)
    requires Ranked(decls, order)
    ensures HeldFirst(decls, order)
  {
    hide Edge, Inside;
    forall k, b | 0 <= k < |order| && Inside(decls, order[k], b) ensures b in order[..k] {
      InsideIsEdge(decls, order[k], b);
    }
  }

  /** Whatever really contains itself is on a cycle of the edges followed. */
  lemma HoldsItselfIsCycle(decls: Decls, p: seq<nat>)
    requires HoldsItself(decls, p)
    ensures Cycle(decls, p)
  {
    hide Edge, Inside;
    forall k | 0 <= k < |p| - 1 ensures Edge(decls, p[k], p[k + 1]) {
      InsideIsEdge(decls, p[k], p[k + 1]);
    }
  }
}
