/** Which declaration a local name means: the checker's scope stack and the list
    of locals that lowering cuts back, walked over the same tree. */
module Scopes {
  import opened Words
  import opened Types
  import opened Tree

  // ---------------------------------------------------------- the scope stack

  /** The declarations in scope, where each open scope starts, the stack as it was
      at every point where expressions were checked, and the redeclarations. */
  datatype Names = Names(syms: seq<Decl>, marks: seq<nat>, log: seq<seq<Decl>>, dups: nat)

  function CurrentMark(s: Names): nat {
    if s.marks == [] then 0 else s.marks[|s.marks| - 1]
  }

  function Push(s: Names): Names {
    s.(marks := s.marks + [|s.syms|])
  }

  function Pop(s: Names): Names {
    if s.marks == [] then s
    else s.(syms := Cut(s.syms, CurrentMark(s)), marks := s.marks[..|s.marks| - 1])
  }

  predicate InCurrent(s: Names, x: string) {
    exists i :: CurrentMark(s) <= i < |s.syms| && s.syms[i].name == x
  }

  function Note(s: Names): Names {
    s.(log := s.log + [s.syms])
  }

  /** A redeclaration in the same scope is an error and declares nothing. */
  function Declare(s: Names, d: Decl): (r: Names)
    ensures s.syms <= r.syms && r.marks == s.marks && r.dups >= s.dups
    ensures r.dups == s.dups ==> r.syms == s.syms + [d]
  {
    if InCurrent(s, d.name) then s.(dups := s.dups + 1) else s.(syms := s.syms + [d])
  }

  // --------------------------------------------------------- the checker's walk

  /** What every step of the walk keeps: the scopes open before, and what they
      hold. */
  predicate Within(s: Names, r: Names) {
    s.syms <= r.syms && r.marks == s.marks && r.dups >= s.dups
  }

  function CheckStmt(st: Stmt, s: Names): (r: Names)
    ensures Within(s, r)
    decreases st, 0
  {
    match st
    case Block(ss) => CheckBlock(ss, s)
    case Var(d, init) => Declare(if init.Some? then Note(s) else s, d)
    case If(_, thn, els) =>
      var s1 := CheckBlock(thn, Note(s));
      if els.Some? then CheckStmt(els.value, s1) else s1
    case While(_, body) => CheckBlock(body, Note(s))
    case Match(_, arms) => CheckArms(arms, Note(s))
    case Return(e) => if e.Some? then Note(s) else s
    case ExprStmt(_) => Note(s)
    case Assign(_, _, _) => Note(s)
    case Break => s
    case Continue => s
    case Empty => s
  }

  function CheckBlock(ss: seq<Stmt>, s: Names): (r: Names)
    ensures Within(s, r) && r.syms == s.syms
    decreases ss, 1
  {
    Pop(CheckSeq(ss, Push(s)))
  }

  function CheckSeq(ss: seq<Stmt>, s: Names): (r: Names)
    ensures Within(s, r)
    decreases ss, 0
  {
    if ss == [] then s else CheckStmt(ss[|ss| - 1], CheckSeq(ss[..|ss| - 1], s))
  }

  /** No scope is opened around an arm's body. */
  function CheckArms(arms: seq<Arm>, s: Names): (r: Names)
    ensures Within(s, r)
    decreases arms, 0
  {
    if arms == [] then s else CheckStmt(arms[|arms| - 1].body, CheckArms(arms[..|arms| - 1], s))
  }

  function CheckParams(params: seq<Decl>, s: Names): (r: Names)
    ensures Within(s, r)
  {
    if params == [] then s else Declare(CheckParams(params[..|params| - 1], s), params[|params| - 1])
  }

  function CheckFn(fn: FnDecl, s: Names): (r: Names)
    ensures Within(s, r) && r.syms == s.syms
  {
    Pop(CheckBlock(fn.body, CheckParams(fn.params, Push(s))))
  }

  // ------------------------------------------------------------ redeclarations

  predicate Distinct(names: seq<string>) {
    forall i, j :: 0 <= i < j < |names| ==> names[i] != names[j]
  }

  function NamesOf(ds: seq<Decl>): (r: seq<string>)
    ensures |r| == |ds| && forall i :: 0 <= i < |ds| ==> r[i] == ds[i].name
  {
    seq(|ds|, i requires 0 <= i < |ds| => ds[i].name)
  }

  /** The names a statement declares in the scope it stands in, in order: its own, those
      of its else branch and those of its arms, but nothing from inside a block. */
  function Own(st: Stmt): seq<string>
    decreases st, 0
  {
    match st
    case Var(d, _) => [d.name]
    case If(_, _, els) => if els.Some? then Own(els.value) else []
    case Match(_, arms) => OwnArms(arms)
    case _ => []
  }

  function OwnArms(arms: seq<Arm>): seq<string>
    decreases arms, 0
  {
    if arms == [] then [] else OwnArms(arms[..|arms| - 1]) + Own(arms[|arms| - 1].body)
  }

  function OwnSeq(ss: seq<Stmt>): seq<string>
    decreases ss, 0
  {
    if ss == [] then [] else OwnSeq(ss[..|ss| - 1]) + Own(ss[|ss| - 1])
  }

  /** No block inside the statement declares a name twice in its own scope. */
  predicate BlocksDistinct(st: Stmt)
    decreases st, 0
  {
    match st
    case Block(ss) => BlockDistinct(ss)
    case If(_, thn, els) => BlockDistinct(thn) && (els.Some? ==> BlocksDistinct(els.value))
    case While(_, body) => BlockDistinct(body)
    case Match(_, arms) => ArmsDistinct(arms)
    case _ => true
  }

  predicate BlockDistinct(ss: seq<Stmt>)
    decreases ss, 1
  {
    Distinct(OwnSeq(ss)) && SeqDistinct(ss)
  }

  predicate SeqDistinct(ss: seq<Stmt>)
    decreases ss, 0
  {
    ss == [] || (SeqDistinct(ss[..|ss| - 1]) && BlocksDistinct(ss[|ss| - 1]))
  }

  predicate ArmsDistinct(arms: seq<Arm>)
    decreases arms, 0
  {
    arms == [] || (ArmsDistinct(arms[..|arms| - 1]) && BlocksDistinct(arms[|arms| - 1].body))
  }

  /** No scope of the function declares a name twice: its parameters' or a block's. */
  predicate FnDistinct(fn: FnDecl) {
    Distinct(NamesOf(fn.params)) && BlockDistinct(fn.body)
  }

  /** The names declared so far in the scope opened last. */
  function Current(s: Names): seq<string>
    requires CurrentMark(s) <= |s.syms|
  {
    NamesOf(s.syms[CurrentMark(s)..])
  }

  /** What the walk does to the scope it is in: it reports nothing exactly when
      `clean` holds and the new names differ from each other and from those there
      are, and then it adds them; what is there stays distinct. */
  predicate Declares(s: Names, r: Names, names: seq<string>, clean: bool)
    requires Within(s, r) && CurrentMark(s) <= |s.syms|
  {
    && (r.dups == s.dups <==> clean && Distinct(Current(s) + names))
    && (r.dups == s.dups ==> Current(r) == Current(s) + names)
    && Distinct(Current(r))
  }

  lemma DeclareOne(s: Names, d: Decl)
    requires CurrentMark(s) <= |s.syms| && Distinct(Current(s))
    ensures Declares(s, Declare(s, d), [d.name], true)
  {
    hide Distinct;
    var names := Current(s);
    CurrentHas(s, d.name);
    DistinctMore(names, d.name);
    if !InCurrent(s, d.name) {
      var r := Declare(s, d);
      assert r.syms[CurrentMark(s)..] == s.syms[CurrentMark(s)..] + [d];
      assert Current(r) == names + [d.name];
    }
  }

  lemma CurrentHas(s: Names, x: string)
    requires CurrentMark(s) <= |s.syms|
    ensures InCurrent(s, x) <==> x in Current(s)
  {
    var m := CurrentMark(s);
    assert forall i :: m <= i < |s.syms| ==> Current(s)[i - m] == s.syms[i].name;
    if x in Current(s) {
      var i :| 0 <= i < |Current(s)| && Current(s)[i] == x;
      assert s.syms[m + i].name == x;
    }
  }

  lemma DistinctMore(names: seq<string>, x: string)
    requires Distinct(names)
    ensures Distinct(names + [x]) <==> x !in names
  {
    var more := names + [x];
    if x in names {
      var i :| 0 <= i < |names| && names[i] == x;
      assert more[i] == more[|names|];
    }
  }

  /** One walk after the other. */
  lemma DeclareBoth(s: Names, t: Names, r: Names, a: seq<string>, b: seq<string>, cleanA: bool, cleanB: bool)
    requires CurrentMark(s) <= |s.syms| && Within(s, t) && Within(t, r)
    requires Declares(s, t, a, cleanA) && Declares(t, r, b, cleanB)
    ensures Declares(s, r, a + b, cleanA && cleanB)
  {
    hide Distinct, NamesOf;
    assert Current(s) + a + b == Current(s) + (a + b);
    if Distinct(Current(s) + a + b) {
      PrefixDistinct(Current(s) + a, b);
    }
  }

  lemma PrefixDistinct(a: seq<string>, b: seq<string>)
    requires Distinct(a + b)
    ensures Distinct(a)
  {
    assert forall i :: 0 <= i < |a| ==> (a + b)[i] == a[i];
  }

  /** A walk that leaves the scope as it is. */
  lemma DeclareNone(s: Names, r: Names, clean: bool)
    requires CurrentMark(s) <= |s.syms| && Distinct(Current(s)) && Within(s, r) && r.syms == s.syms
    requires r.dups == s.dups <==> clean
    ensures Declares(s, r, [], clean)
  {
    hide Distinct, NamesOf;
    assert Current(s) + [] == Current(s);
  }

  /** The walk over a statement reports a redeclaration exactly when a block inside it
      declares a name twice, or the statement declares, in the scope it stands in,
      a name twice or one that is there already. */
  lemma {:induction false} StmtDeclares(st: Stmt, s: Names)
    requires CurrentMark(s) <= |s.syms| && Distinct(Current(s))
    ensures Declares(s, CheckStmt(st, s), Own(st), BlocksDistinct(st))
    decreases st, 0
  {
    hide Distinct, NamesOf, CheckBlock, CheckArms, BlockDistinct, ArmsDistinct, Declare, OwnArms;
    match st {
      case Block(ss) => BlockDeclares(ss, s);
      case Var(d, init) => DeclareOne(if init.Some? then Note(s) else s, d);
      case If(_, thn, els) =>
        BlockDeclares(thn, Note(s));
        if els.Some? {
          var s1 := CheckBlock(thn, Note(s));
          StmtDeclares(els.value, s1);
          DeclareBoth(Note(s), s1, CheckStmt(els.value, s1), [], Own(els.value), BlockDistinct(thn),
              BlocksDistinct(els.value));
          assert [] + Own(els.value) == Own(els.value);
        }
      case While(_, body) => BlockDeclares(body, Note(s));
      case Match(_, arms) => ArmsDeclare(arms, Note(s));
      case _ => DeclareNone(s, CheckStmt(st, s), true);
    }
  }

  lemma {:induction false} BlockDeclares(ss: seq<Stmt>, s: Names)
    requires CurrentMark(s) <= |s.syms| && Distinct(Current(s))
    ensures Declares(s, CheckBlock(ss, s), [], BlockDistinct(ss))
    decreases ss, 1
  {
    hide Distinct, NamesOf, CheckSeq, SeqDistinct, OwnSeq;
    var s1 := Push(s);
    NothingYet(s1);
    SeqDeclares(ss, s1);
    assert Current(s1) + OwnSeq(ss) == OwnSeq(ss);
    DeclareNone(s, CheckBlock(ss, s), BlockDistinct(ss));
  }

  lemma NothingYet(s: Names)
    requires CurrentMark(s) == |s.syms|
    ensures Current(s) == [] && Distinct(Current(s))
  {
  }

  lemma {:induction false} SeqDeclares(ss: seq<Stmt>, s: Names)
    requires CurrentMark(s) <= |s.syms| && Distinct(Current(s))
    ensures Declares(s, CheckSeq(ss, s), OwnSeq(ss), SeqDistinct(ss))
    decreases ss, 0
  {
    hide Distinct, NamesOf, CheckStmt, BlocksDistinct, Own, Declares;
    if ss == [] {
      DeclareNone(s, s, true);
    } else {
      var k := |ss| - 1;
      var s1 := CheckSeq(ss[..k], s);
      SeqDeclares(ss[..k], s);
      Kept(s, s1, OwnSeq(ss[..k]), SeqDistinct(ss[..k]));
      StmtDeclares(ss[k], s1);
      DeclareBoth(s, s1, CheckStmt(ss[k], s1), OwnSeq(ss[..k]), Own(ss[k]), SeqDistinct(ss[..k]),
          BlocksDistinct(ss[k]));
    }
  }

  lemma Kept(s: Names, r: Names, names: seq<string>, clean: bool)
    requires CurrentMark(s) <= |s.syms| && Within(s, r) && Declares(s, r, names, clean)
    ensures CurrentMark(r) <= |r.syms| && Distinct(Current(r))
  {
    hide Distinct, NamesOf;
  }

  lemma {:induction false} ArmsDeclare(arms: seq<Arm>, s: Names)
    requires CurrentMark(s) <= |s.syms| && Distinct(Current(s))
    ensures Declares(s, CheckArms(arms, s), OwnArms(arms), ArmsDistinct(arms))
    decreases arms, 0
  {
    hide Distinct, NamesOf, CheckStmt, BlocksDistinct, Own, Declares;
    if arms == [] {
      DeclareNone(s, s, true);
    } else {
      var k := |arms| - 1;
      var s1 := CheckArms(arms[..k], s);
      ArmsDeclare(arms[..k], s);
      Kept(s, s1, OwnArms(arms[..k]), ArmsDistinct(arms[..k]));
      StmtDeclares(arms[k].body, s1);
      DeclareBoth(s, s1, CheckStmt(arms[k].body, s1), OwnArms(arms[..k]), Own(arms[k].body), ArmsDistinct(arms[..k]),
          BlocksDistinct(arms[k].body));
    }
  }

  lemma {:induction false} ParamsDeclare(params: seq<Decl>, s: Names)
    requires CurrentMark(s) <= |s.syms| && Distinct(Current(s))
    ensures Declares(s, CheckParams(params, s), NamesOf(params), true)
  {
    hide Distinct, NamesOf, Declare, Declares;
    if params == [] {
      DeclareNone(s, s, true);
      NoNames();
    } else {
      var k := |params| - 1;
      var s1 := CheckParams(params[..k], s);
      ParamsDeclare(params[..k], s);
      Kept(s, s1, NamesOf(params[..k]), true);
      DeclareOne(s1, params[k]);
      DeclareBoth(s, s1, Declare(s1, params[k]), NamesOf(params[..k]), [params[k].name], true, true);
      assert NamesOf(params) == NamesOf(params[..k]) + [params[k].name];
    }
  }

  lemma NoNames()
    ensures NamesOf([]) == []
  {
  }

  /** A function is free of redeclaration errors exactly when no scope in it declares
      a name twice; names of outer scopes may be used again. */
  lemma FnDeclares(fn: FnDecl, s: Names)
    ensures CheckFn(fn, s).dups == s.dups <==> FnDistinct(fn)
  {
    hide Distinct, NamesOf, CheckParams, CheckBlock, BlockDistinct;
    var s1 := Push(s);
    NothingYet(s1);
    ParamsDeclare(fn.params, s1);
    var s2 := CheckParams(fn.params, s1);
    assert [] + NamesOf(fn.params) == NamesOf(fn.params);
    BlockDeclares(fn.body, s2);
    if s2.dups == s1.dups {
      assert Current(s2) + [] == Current(s2);
    }
  }

  // ------------------------------------------------------------ lowering's walk

  datatype Locals = Locals(decls: seq<Decl>, log: seq<seq<Decl>>)

  function NoteLow(s: Locals): Locals {
    s.(log := s.log + [s.decls])
  }

  function LowStmt(st: Stmt, s: Locals): (r: Locals)
    ensures s.decls <= r.decls
    decreases st, 0
  {
    match st
    case Block(ss) => LowBlock(ss, s)
    case Var(d, init) =>
      var s1 := if init.Some? then NoteLow(s) else s;
      s1.(decls := s1.decls + [d])
    case If(_, thn, els) =>
      var s1 := LowBlock(thn, NoteLow(s));
      if els.Some? then LowStmt(els.value, s1) else s1
    case While(_, body) => LowBlock(body, NoteLow(s))
    case Match(_, arms) => LowArms(arms, NoteLow(s))
    case Return(e) => if e.Some? then NoteLow(s) else s
    case ExprStmt(_) => NoteLow(s)
    case Assign(_, _, _) => NoteLow(s)
    case Break => s
    case Continue => s
    case Empty => s
  }

  function LowBlock(ss: seq<Stmt>, s: Locals): (r: Locals)
    ensures r.decls == s.decls
    decreases ss, 1
  {
    var r := LowSeq(ss, s);
    r.(decls := Cut(r.decls, |s.decls|))
  }

  function LowSeq(ss: seq<Stmt>, s: Locals): (r: Locals)
    ensures s.decls <= r.decls
    decreases ss, 0
  {
    if ss == [] then s else LowStmt(ss[|ss| - 1], LowSeq(ss[..|ss| - 1], s))
  }

  /** What an arm's body declares is dropped after it. */
  function LowArms(arms: seq<Arm>, s: Locals): (r: Locals)
    ensures r.decls == s.decls
    decreases arms, 0
  {
    if arms == [] then s
    else
      var s1 := LowArms(arms[..|arms| - 1], s);
      var r := LowStmt(arms[|arms| - 1].body, s1);
      r.(decls := Cut(r.decls, |s1.decls|))
  }

  function LowFn(fn: FnDecl): Locals {
    LowBlock(fn.body, Locals(fn.params, []))
  }

  // ------------------------------------------------------------------ agreement

  /** Does the statement declare something in the scope it stands in? */
  predicate Leaves(st: Stmt)
    decreases st
  {
    match st
    case Var(_, _) => true
    case If(_, _, els) => els.Some? && Leaves(els.value)
    case Match(_, arms) => exists i :: 0 <= i < |arms| && Leaves(arms[i].body)
    case _ => false
  }

  /** After the statement the checker has declarations in scope that lowering has
      dropped. */
  predicate Parts(st: Stmt)
    decreases st
  {
    match st
    case If(_, _, els) => els.Some? && Parts(els.value)
    case Match(_, _) => Leaves(st)
    case _ => false
  }

  predicate PartsAny(ss: seq<Stmt>) {
    exists i :: 0 <= i < |ss| && Parts(ss[i])
  }

  predicate LeavesAny(arms: seq<Arm>) {
    exists i :: 0 <= i < |arms| && Leaves(arms[i].body)
  }

  /** Every expression of the statement stands where both passes have the same
      declarations; `same` says whether they do at its start. */
  predicate Sees(st: Stmt, same: bool)
    decreases st, 0
  {
    match st
    case Block(ss) => SeesAll(ss, same)
    case Var(_, init) => init.Some? ==> same
    case If(_, thn, els) => same && SeesAll(thn, same) && (els.Some? ==> Sees(els.value, same))
    case While(_, body) => same && SeesAll(body, same)
    case Match(_, arms) => same && SeesArms(arms, same)
    case Return(e) => e.Some? ==> same
    case ExprStmt(_) => same
    case Assign(_, _, _) => same
    case _ => true
  }

  predicate SeesAll(ss: seq<Stmt>, same: bool)
    decreases ss, 0
  {
    ss == [] ||
    (var k := |ss| - 1; SeesAll(ss[..k], same) && Sees(ss[k], same && !PartsAny(ss[..k])))
  }

  predicate SeesArms(arms: seq<Arm>, same: bool)
    decreases arms, 0
  {
    arms == [] ||
    (var k := |arms| - 1; SeesArms(arms[..k], same) && Sees(arms[k].body, same && !LeavesAny(arms[..k])))
  }

  /** The two stacks: equal, or the checker's is the longer one. */
  predicate Related(s: Names, l: Locals, same: bool) {
    |s.log| == |l.log| && (if same then s.syms == l.decls else |s.syms| > |l.decls|)
  }

  /** What one step notes: the logs stay equal exactly when it sees the same. */
  predicate Noted(s: Names, l: Locals, s1: Names, l1: Locals, sees: bool) {
    s1.log == l1.log <==> s.log == l.log && sees
  }

  lemma NoteBoth(s: Names, l: Locals, same: bool)
    requires Related(s, l, same)
    ensures Related(Note(s), NoteLow(l), same) && Noted(s, l, Note(s), NoteLow(l), same)
  {
    var a, b := s.log + [s.syms], l.log + [l.decls];
    assert a[..|s.log|] == s.log && b[..|l.log|] == l.log;
    assert a[|s.log|] == s.syms && b[|l.log|] == l.decls;
  }

  /** Both walks over a statement, from equal stacks or not: what they have looked
      up in so far stays the same exactly when every expression in it sees the same
      declarations, and they part exactly when a match in it leaves one behind. */
  lemma {:induction false} StmtAgrees(st: Stmt, s: Names, l: Locals, same: bool)
    requires Related(s, l, same) && CheckStmt(st, s).dups == s.dups
    ensures Related(CheckStmt(st, s), LowStmt(st, l), same && !Parts(st))
    ensures Noted(s, l, CheckStmt(st, s), LowStmt(st, l), Sees(st, same))
    decreases st, 0
  {
    hide LeavesAny, PartsAny;
    match st {
      case Block(ss) => BlockAgrees(ss, s, l, same);
      case Var(d, init) =>
        if init.Some? {
          NoteBoth(s, l, same);
        }
      case If(_, thn, els) =>
        NoteBoth(s, l, same);
        BlockAgrees(thn, Note(s), NoteLow(l), same);
        if els.Some? {
          StmtAgrees(els.value, CheckBlock(thn, Note(s)), LowBlock(thn, NoteLow(l)), same);
        }
      case While(_, body) =>
        NoteBoth(s, l, same);
        BlockAgrees(body, Note(s), NoteLow(l), same);
      case Match(_, arms) =>
        NoteBoth(s, l, same);
        ArmsAgree(arms, Note(s), NoteLow(l), same);
        MatchLeaves(st);
      case Return(e) =>
        if e.Some? {
          NoteBoth(s, l, same);
        }
      case ExprStmt(_) => NoteBoth(s, l, same);
      case Assign(_, _, _) => NoteBoth(s, l, same);
      case _ =>
    }
  }

  lemma MatchLeaves(st: Stmt)
    requires st.Match?
    ensures Leaves(st) <==> LeavesAny(st.arms)
  {
  }

  lemma {:induction false} BlockAgrees(ss: seq<Stmt>, s: Names, l: Locals, same: bool)
    requires Related(s, l, same) && CheckBlock(ss, s).dups == s.dups
    ensures Related(CheckBlock(ss, s), LowBlock(ss, l), same)
    ensures Noted(s, l, CheckBlock(ss, s), LowBlock(ss, l), SeesAll(ss, same))
    decreases ss, 1
  {
    SeqAgrees(ss, Push(s), l, same);
  }

  lemma PartsSplit(ss: seq<Stmt>)
    requires ss != []
    ensures PartsAny(ss) <==> PartsAny(ss[..|ss| - 1]) || Parts(ss[|ss| - 1])
  {
    hide Parts;
    var k := |ss| - 1;
    assert forall i :: 0 <= i < k ==> ss[..k][i] == ss[i];
    if PartsAny(ss[..k]) {
      var i :| 0 <= i < k && Parts(ss[..k][i]);
      assert Parts(ss[i]);
    }
  }

  lemma LeavesSplit(arms: seq<Arm>)
    requires arms != []
    ensures LeavesAny(arms) <==> LeavesAny(arms[..|arms| - 1]) || Leaves(arms[|arms| - 1].body)
  {
    hide Leaves;
    var k := |arms| - 1;
    assert forall i :: 0 <= i < k ==> arms[..k][i] == arms[i];
    if LeavesAny(arms[..k]) {
      var i :| 0 <= i < k && Leaves(arms[..k][i].body);
      assert Leaves(arms[i].body);
    }
  }

  lemma {:induction false} SeqAgrees(ss: seq<Stmt>, s: Names, l: Locals, same: bool)
    requires Related(s, l, same) && CheckSeq(ss, s).dups == s.dups
    ensures Related(CheckSeq(ss, s), LowSeq(ss, l), same && !PartsAny(ss))
    ensures Noted(s, l, CheckSeq(ss, s), LowSeq(ss, l), SeesAll(ss, same))
    decreases ss, 0
  {
    hide Sees, Parts;
    if ss != [] {
      var k := |ss| - 1;
      SeqAgrees(ss[..k], s, l, same);
      PartsSplit(ss);
      StmtAgrees(ss[k], CheckSeq(ss[..k], s), LowSeq(ss[..k], l), same && !PartsAny(ss[..k]));
    }
  }

  lemma {:induction false} ArmsAgree(arms: seq<Arm>, s: Names, l: Locals, same: bool)
    requires Related(s, l, same) && CheckArms(arms, s).dups == s.dups
    ensures Related(CheckArms(arms, s), LowArms(arms, l), same && !LeavesAny(arms))
    ensures Noted(s, l, CheckArms(arms, s), LowArms(arms, l), SeesArms(arms, same))
    decreases arms, 0
  {
    hide Sees, Leaves, Parts;
    if arms != [] {
      var k := |arms| - 1;
      ArmsAgree(arms[..k], s, l, same);
      LeavesSplit(arms);
      var s1, l1 := CheckArms(arms[..k], s), LowArms(arms[..k], l);
      StmtAgrees(arms[k].body, s1, l1, same && !LeavesAny(arms[..k]));
      StmtLeaves(arms[k].body, s1);
    }
  }

  /** What a statement adds to the checker's stack, when it redeclares nothing. */
  lemma {:induction false} StmtLeaves(st: Stmt, s: Names)
    requires CheckStmt(st, s).dups == s.dups
    ensures Leaves(st) <==> CheckStmt(st, s).syms != s.syms
    decreases st, 0
  {
    match st {
      case Var(d, _) => assert |s.syms + [d]| > |s.syms|;
      case If(_, thn, els) =>
        if els.Some? {
          StmtLeaves(els.value, CheckBlock(thn, Note(s)));
        }
      case Match(_, arms) => ArmsLeave(arms, Note(s));
      case _ =>
    }
  }

  lemma {:induction false} ArmsLeave(arms: seq<Arm>, s: Names)
    requires CheckArms(arms, s).dups == s.dups
    ensures (exists i :: 0 <= i < |arms| && Leaves(arms[i].body)) <==> CheckArms(arms, s).syms != s.syms
    decreases arms, 0
  {
    if arms != [] {
      var k := |arms| - 1;
      var s1 := CheckArms(arms[..k], s);
      ArmsLeave(arms[..k], s);
      StmtLeaves(arms[k].body, s1);
      assert forall i :: 0 <= i < k ==> arms[..k][i] == arms[i];
    }
  }

  /** After a match the two stacks are the same exactly when no arm declares
      something outside a block. */
  lemma MatchAgreesIff(scrutinee: Expr, arms: seq<Arm>, s: Names, l: Locals)
    requires s.syms == l.decls && CheckStmt(Match(scrutinee, arms), s).dups == s.dups
    ensures CheckStmt(Match(scrutinee, arms), s).syms == LowStmt(Match(scrutinee, arms), l).decls
            <==> !Leaves(Match(scrutinee, arms))
  {
    StmtLeaves(Match(scrutinee, arms), s);
  }

  lemma {:induction false} ParamsDeclared(params: seq<Decl>, s: Names)
    requires CheckParams(params, s).dups == s.dups
    ensures CheckParams(params, s) == s.(syms := s.syms + params)
  {
    if params == [] {
      assert s.syms + params == s.syms;
    } else {
      var k := |params| - 1;
      ParamsDeclared(params[..k], s);
      assert params == params[..k] + [params[k]];
      assert s.syms + params[..k] + [params[k]] == s.syms + params;
    }
  }

  /** In a function without redeclarations both passes have the same declarations
      on their stacks at every expression, exactly when no expression follows a
      match, in its scope or in a later arm, that leaves a declaration behind. */
  lemma FnAgrees(fn: FnDecl)
    requires FnDistinct(fn)
    ensures CheckFn(fn, Names([], [], [], 0)).log == LowFn(fn).log <==> SeesAll(fn.body, true)
  {
    FnDeclares(fn, Names([], [], [], 0));
    var s := Push(Names([], [], [], 0));
    var s1 := CheckParams(fn.params, s);
    ParamsDeclared(fn.params, s);
    assert s.syms + fn.params == fn.params;
    BlockAgrees(fn.body, s1, Locals(fn.params, []), true);
  }
}
