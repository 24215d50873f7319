/** The main theorem about control flow: the blocks a statement is lowered to
    simulate every way the statement can run, including never ending. */
module SimFlow {
  import opened Words
  import opened Types
  import opened Tree
  import opened Typing
  import opened Ir
  import opened Lowering
  import opened LoweringShape
  import opened LoweringTypes
  import opened SimExpr
  import opened SimStmt

  function Innermost(loops: seq<Loop>): Loop {
    if loops == [] then Loop(0, 0) else loops[|loops| - 1]
  }

  /** What `n` steps from `m` to `m'` have to show for the result `r` of a
      statement lowered from `s` to `t`. */
  predicate Simulates(f: Blocks, s: Low, t: Low, ret: Ty, r: Result, m: Machine, m': Machine, n: nat, fuel: nat,
      orc: Oracle) {
    match r
    case Wrong => true
    case Normal(env) =>
      // fell through: at the end of the code, which is still open
      && Reaches(f, m, m', n, orc) && RegsKept(m, m', s.nextTemp)
      && AtEnd(t, m') && IsOpen(t) && m'.trace == env.trace && Represents(t.locals, env.vars, m')
    case Broke(env) =>
      && Reaches(f, m, m', n, orc) && RegsKept(m, m', s.nextTemp)
      && JumpedTo(s, Innermost(s.loops).breakTo, env, m')
    case Continued(env) =>
      && Reaches(f, m, m', n, orc) && RegsKept(m, m', s.nextTemp)
      && JumpedTo(s, Innermost(s.loops).continueTo, env, m')
    case Returned(v, trace) =>
      Reaches(f, m, m', n, orc) && Step(f, m', orc) == Halt(Pattern(ret, v), trace)
    case OutOfFuel =>
      Reaches(f, m, m', n, orc) && n >= fuel
  }

  function Pattern(ret: Ty, v: Option<int>): Option<nat> {
    if v.None? then None else Some(Enc(Width(ret), v.value))
  }

  /** At the start of block `b`, with the variables in scope at `s`. */
  predicate JumpedTo(s: Low, b: nat, env: Env, m: Machine) {
    m.blk == b && m.pc == 0 && m.trace == env.trace && Represents(s.locals, Cut(env.vars, |s.locals|), m)
  }

  predicate Start(s: Low, scope: Scope, env: Env, m: Machine) {
    Ready(s, scope, env.vars, m) && IsOpen(s) && m.trace == env.trace
  }

  // -------------------------------------------------------------- composition

  /** The statement at `s` goes on as the code at `p` did, when that did not
      fall through. */
  lemma Early(f: Blocks, s: Low, p: Low, u: Low, t: Low, ret: Ty, r: Result, m: Machine, m1: Machine, m2: Machine,
              n1: nat, n2: nat, fuel: nat, orc: Oracle)
    requires Simulates(f, p, u, ret, r, m1, m2, n2, fuel, orc) && !r.Normal?
    requires Reaches(f, m, m1, n1, orc) && RegsKept(m, m1, s.nextTemp) && s.nextTemp <= p.nextTemp
    requires p.loops == s.loops && s.locals <= p.locals
    ensures Simulates(f, s, t, ret, r, m, m2, n1 + n2, fuel, orc)
  {
    if !r.Wrong? {
      ReachesTrans(f, m, m1, m2, n1, n2, orc);
    }
    if r.Broke? || r.Continued? {
      RegsKeptTrans(m, m1, m2, s.nextTemp, p.nextTemp);
      RepresentsCut(p.locals, Cut(r.env.vars, |p.locals|), m2, |s.locals|);
      assert s.locals == p.locals[..|s.locals|];
    }
  }

  /** A branch runs from `p` to `u` and is joined to the empty block `end`. */
  lemma Joined(f: Blocks, s: Low, p: Low, u: Low, t: Low, end: nat, ret: Ty, r: Result, m: Machine, m1: Machine,
      m2: Machine,
               n1: nat, n2: nat, fuel: nat, orc: Oracle)
    returns (n: nat, m': Machine)
    requires Simulates(f, p, u, ret, r, m1, m2, n2, fuel, orc)
    requires Reaches(f, m, m1, n1, orc) && RegsKept(m, m1, s.nextTemp) && s.nextTemp <= p.nextTemp
    requires p.loops == s.loops && p.locals == s.locals && u.locals == s.locals && t.locals == s.locals
    requires Ext(Join(u, end).blocks, f)
    requires t.cur == end && t.blocks[end] == []
    ensures Simulates(f, s, t, ret, r, m, m', n, fuel, orc)
    ensures r.OutOfFuel? ==> n >= n1 + fuel
  {
    if r.Normal? {
      var m3 := RunBr(f, u, end, m2, orc);
      ReachesTrans(f, m, m1, m2, n1, n2, orc);
      ReachesTrans(f, m, m2, m3, n1 + n2, 1, orc);
      RegsKeptTrans(m, m1, m2, s.nextTemp, p.nextTemp);
      RegsKeptTrans(m, m2, m3, s.nextTemp, p.nextTemp);
      SameData(u.locals, r.env.vars, m2, m3);
      n, m' := n1 + n2 + 1, m3;
    } else {
      Early(f, s, p, u, t, ret, r, m, m1, m2, n1, n2, fuel, orc);
      n, m' := n1 + n2, m2;
    }
  }

  /** Where the machine is does not matter to what its slots hold. */
  lemma SameData(locals: seq<Binding>, vars: seq<Local>, m: Machine, m': Machine)
    requires Represents(locals, vars, m) && m'.regs == m.regs && m'.mem == m.mem
    ensures Represents(locals, vars, m')
  {
    forall i | 0 <= i < |vars| ensures Represented(locals[i], vars[i], m') {
      assert Represented(locals[i], vars[i], m);
    }
  }

  /** The start of a block that is still empty. */
  lemma StartAt(s: Low, p: Low, scope: Scope, env: Env, m: Machine)
    requires m.blk == p.cur && m.pc == 0 && p.blocks[p.cur] == [] && m.trace == env.trace
    requires p.locals == s.locals && RegsBelow(s.locals, p.nextTemp)
    requires SameDecls(scope, env.vars) && Represents(s.locals, env.vars, m)
    ensures Start(p, scope, env, m)
  {
  }

  lemma RegsBelowMore(locals: seq<Binding>, k: nat, n: nat)
    requires RegsBelow(locals, k) && k <= n
    ensures RegsBelow(locals, n)
  {
  }

  /** After a statement the invariant holds again for what it leaves in scope. */
  lemma NextStart(s: Low, st: Stmt, t: Low, scope: Scope, vars: seq<Local>, m: Machine, env: Env, m': Machine)
    requires Ready(s, scope, vars, m) && StmtShape(s, st, t) && ElseOk(st)
    requires AtEnd(t, m') && IsOpen(t) && m'.trace == env.trace && Represents(t.locals, env.vars, m')
    ensures Start(t, After(st, scope), env, m')
  {
    MirrorsScope(s.locals, scope, vars, m);
    var scope' := After(st, scope);
    assert |t.locals| == |scope'|;
    forall i | 0 <= i < |scope'| ensures env.vars[i].decl == scope'[i] {
      assert Represented(t.locals[i], env.vars[i], m');
      if i < |s.locals| {
        assert t.locals[i] == s.locals[i];
      }
    }
    forall i | 0 <= i < |t.locals| ensures t.locals[i].reg < t.nextTemp {
      if i < |s.locals| {
        assert t.locals[i] == s.locals[i];
      }
    }
  }

  lemma {:induction false} TypedElse(st: Stmt, scope: Scope, ret: Ty, inLoop: bool)
    requires TypedStmt(st, scope, ret, inLoop)
    ensures ElseOk(st)
    decreases st
  {
    if st.If? && st.els.Some? && st.els.value.If? {
      TypedElse(st.els.value, scope, ret, inLoop);
    }
  }

  // -------------------------------------------------------------- if: stages

  /** The states an `if` goes through, all part of the finished function. */
  lemma IfStages(f: Blocks, s: Low, st: Stmt, ret: Ty)
    requires st.If? && ElseOk(st) && Ext(LowerIf(s, st, ret).blocks, f)
    ensures var b, hasElse := |s.blocks|, st.els.Some?;
            var end := if hasElse then b + 2 else b + 1;
            var t := LowerTest(IfBlocks(s, hasElse), st.cond, b, b + 1);
            var p := Position(t, b);
            var u := LowerBlock(p, st.thn, ret);
            var j := Join(u, end);
            && Ext(t.blocks, f) && Ext(u.blocks, f) && Ext(j.blocks, f)
            && p.blocks[b] == [] && p.locals == u.locals == s.locals && p.loops == s.loops && s.nextTemp <= p.nextTemp
            && LowerIf(s, st, ret).cur == end && LowerIf(s, st, ret).locals == s.locals
            && LowerIf(s, st, ret).blocks[end] == []
            && (hasElse ==>
                  var q := Position(j, b + 1);
                  var w := LowerStmt(q, st.els.value, ret);
                  && q.blocks[b + 1] == [] && q.locals == w.locals == s.locals && q.loops == s.loops
                  && s.nextTemp <= q.nextTemp && Ext(w.blocks, f) && Ext(Join(w, end).blocks, f))
  {
    hide LowerTest, LowerBlock, LowerStmt, Ext, IsOpen, Emit, Join;
    var b, hasElse := |s.blocks|, st.els.Some?;
    var end := if hasElse then b + 2 else b + 1;
    var t := LowerTest(IfBlocks(s, hasElse), st.cond, b, b + 1);
    TestShape(IfBlocks(s, hasElse), st.cond, b, b + 1);
    IfHeadShape(s, hasElse, t);
    var p := Position(t, b);
    var u := LowerBlock(p, st.thn, ret);
    BlockShapes(p, st.thn, ret);
    IfThenShape(s, hasElse, t, u, end);
    var j := Join(u, end);
    JoinShape(u, end);
    if hasElse {
      var q := Position(j, b + 1);
      var w := LowerStmt(q, st.els.value, ret);
      StmtShapes(q, st.els.value, ret);
      IfElseShape(s, j, w);
      JoinShape(w, end);
      ExtTrans(w.blocks, Join(w, end).blocks, f);
      ExtTrans(j.blocks, w.blocks, f);
    }
    ExtTrans(u.blocks, j.blocks, f);
    ExtTrans(t.blocks, u.blocks, f);
  }

  // ----------------------------------------------------------- while: stages

  lemma WhileStages(f: Blocks, s: Low, st: Stmt, ret: Ty)
    requires st.While? && Ext(LowerWhile(s, st, ret).blocks, f)
    ensures var b := |s.blocks|;
            var h := WhileHead(s);
            var t := LowerTest(h, st.cond, b + 1, b + 2);
            var e := EnterWhile(s, st.cond);
            var u := LowerBlock(e, st.body, ret);
            var w := LowerWhile(s, st, ret);
            && Ext(h.blocks, f) && Ext(t.blocks, f) && Ext(u.blocks, f) && Ext(Join(u, b).blocks, f)
            && h.blocks[b] == [] && e.blocks[b + 1] == [] && w.blocks[b + 2] == [] && w.cur == b + 2
            && h.locals == e.locals == u.locals == w.locals == s.locals
            && h.loops == s.loops && e.loops == s.loops + [Loop(b, b + 2)]
            && s.nextTemp <= h.nextTemp && s.nextTemp <= e.nextTemp
  {
    hide LowerTest, LowerBlock, Ext;
    var b := |s.blocks|;
    var h := WhileHead(s);
    var t := LowerTest(h, st.cond, b + 1, b + 2);
    var e := EnterWhile(s, st.cond);
    EnterWhileShape(s, st.cond);
    TestShape(h, st.cond, b + 1, b + 2);
    var u := LowerBlock(e, st.body, ret);
    BlockShapes(e, st.body, ret);
    WhileShape(s, e, u);
    JoinShape(u, b);
    ExtTrans(u.blocks, Join(u, b).blocks, f);
    ExtTrans(e.blocks, u.blocks, f);
    ExtTrans(h.blocks, t.blocks, f);
  }

  // ----------------------------------------------------------- match: stages

  /** The state after the tests of an arm, before its body. */
  function ArmTests(s: Low, arm: Arm, v: Operand): (r: Low)
    ensures |s.blocks| < |r.blocks|
  {
    if HasWildcard(arm.labels) then NewBlock(s) else LowerLabels(NewBlock(s), arm.labels, v, |s.blocks|)
  }

  lemma ArmStages(f: Blocks, s: Low, arm: Arm, v: Operand, end: nat, ret: Ty)
    requires Ext(LowerArm(s, arm, v, end, ret).blocks, f)
    ensures var b := |s.blocks|;
            var q := ArmTests(s, arm, v);
            var p := Position(q, b);
            var u := LowerStmt(p, arm.body, ret);
            var t := LowerArm(s, arm, v, end, ret);
            && Ext(q.blocks, f) && Ext(u.blocks, f) && Ext(Join(u, end).blocks, f)
            && p.blocks[b] == [] && StmtShape(p, arm.body, u)
            && p.locals == q.locals == s.locals && p.loops == s.loops && s.nextTemp <= p.nextTemp
            && t.cur == q.cur && t.blocks[t.cur] == q.blocks[q.cur]
  {
    hide LowerLabels, LowerStmt, Ext;
    var b := |s.blocks|;
    var q := ArmTests(s, arm, v);
    LabelsShapes(NewBlock(s), arm.labels, v, b);
    var p := Position(q, b);
    var u := LowerStmt(p, arm.body, ret);
    StmtShapes(p, arm.body, ret);
    JoinShape(u, end);
    CodeTrans(p, u, Join(u, end));
    ExtTrans(u.blocks, Join(u, end).blocks, f);
    ExtTrans(q.blocks, u.blocks, f);
  }

  function ChainAt(s: Low, arms: seq<Arm>, i: nat, v: Operand, end: nat, ret: Ty): Low
    requires i <= |arms|
  {
    LowerArms(s, arms[..i], v, end, ret).0
  }

  lemma ArmsGrow(s: Low, arms: seq<Arm>, v: Operand, end: nat, ret: Ty)
    ensures var t := LowerArms(s, arms, v, end, ret).0; Grows(s, t) && t.loops == s.loops && Ext(t.blocks, t.blocks)
  {
    ArmsShapes(s, arms, v, end, ret);
  }

  lemma ArmGrow(s: Low, arm: Arm, v: Operand, end: nat, ret: Ty)
    ensures var t := LowerArm(s, arm, v, end, ret); Grows(s, t) && t.loops == s.loops && Ext(t.blocks, t.blocks)
  {
    ArmShapes(s, arm, v, end, ret);
  }

  /** The chain up to arm `i` is part of the whole chain. */
  lemma {:induction false} ChainPrefix(s: Low, arms: seq<Arm>, i: nat, v: Operand, end: nat, ret: Ty)
    requires i <= |arms|
    ensures var c, t := ChainAt(s, arms, i, v, end, ret), LowerArms(s, arms, v, end, ret).0;
            Ext(c.blocks, t.blocks) && c.locals == s.locals && c.loops == s.loops
            && s.nextTemp <= c.nextTemp <= t.nextTemp
    ensures i < |arms| ==>
              var c, t := ChainAt(s, arms, i, v, end, ret), LowerArms(s, arms, v, end, ret).0;
              Ext(LowerArm(c, arms[i], v, end, ret).blocks, t.blocks)
  {
    hide Ext, LowerArm;
    ArmsGrow(s, arms[..i], v, end, ret);
    if i == |arms| {
      assert arms[..i] == arms;
    } else {
      var k := |arms| - 1;
      var s1 := LowerArms(s, arms[..k], v, end, ret).0;
      ArmGrow(s1, arms[k], v, end, ret);
      var t := LowerArms(s, arms, v, end, ret).0;
      assert arms[..k][..i] == arms[..i];
      ChainPrefix(s, arms[..k], i, v, end, ret);
      ExtTrans(ChainAt(s, arms, i, v, end, ret).blocks, s1.blocks, t.blocks);
      if i < k {
        assert arms[..k][i] == arms[i];
        ExtTrans(LowerArm(ChainAt(s, arms, i, v, end, ret), arms[i], v, end, ret).blocks, s1.blocks, t.blocks);
      }
    }
  }

  /** The wildcard block remembered is that of the last wildcard arm. */
  lemma {:induction false} WildBlock(s: Low, arms: seq<Arm>, v: Operand, end: nat, ret: Ty)
    ensures var wild := LowerArms(s, arms, v, end, ret).1;
            match LastWildcard(arms)
            case None => wild == None
            case Some(i) => wild == Some(|ChainAt(s, arms, i, v, end, ret).blocks|)
  {
    if arms != [] {
      var k := |arms| - 1;
      if !HasWildcard(arms[k].labels) {
        WildBlock(s, arms[..k], v, end, ret);
        if LastWildcard(arms[..k]).Some? {
          assert arms[..k][..LastWildcard(arms).value] == arms[..LastWildcard(arms).value];
        }
      }
    }
  }

  // ------------------------------------------------------------ match: tests

  lemma LabelLowersToConst(s: Low, l: Label, t: Ty, scope: Scope)
    requires l.Value? && TypedLabel(l, t, scope) && IsIntLike(t) && Mirrors(s.locals, scope)
    ensures LabelConst(l.expr).Some? && InRange(t, LabelConst(l.expr).value)
    ensures LowerExpr(s, l.expr) == (s, Const(IInt(Width(t)), LabelConst(l.expr).value))
  {
    IrOfScalar(t);
    if l.expr.Name? {
      LocalsAgree(scope, s.locals, l.expr.name);
    }
  }

  lemma LabelSim(f: Blocks, s: Low, l: Label, v: Operand, body: nat, t: Ty, a: int, scope: Scope, m: Machine,
      orc: Oracle)
    returns (n: nat, m': Machine)
    requires l.Value? && TypedLabel(l, t, scope) && IsIntLike(t) && Mirrors(s.locals, scope)
    requires AtEnd(s, m) && Holds(v, t, a, m) && Below(v, s.nextTemp) && Ext(LowerLabel(s, l, v, body).blocks, f)
    ensures Reaches(f, m, m', n, orc) && Kept(m, m', s.nextTemp) && m'.trace == m.trace
    ensures if LabelIs(l, a) then m'.blk == body && m'.pc == 0 else AtEnd(LowerLabel(s, l, v, body), m')
  {
    hide Ext, Kept, Reaches, Enc, Width, LowerExpr;
    LabelLowersToConst(NewBlock(s), l, t, scope);
    var c := LabelConst(l.expr).value;
    var s1 := NewBlock(s);
    var w := Const(IInt(Width(t)), c);
    var i := Icmp(PEq, s1.nextTemp, v, w);
    var s2 := Def(s1, i);
    var jump := CondBr(Temp(IInt(1), s1.nextTemp), body, |s.blocks|);
    EmitIn(f, s2, jump);
    EncInjectiveAt(t, a, c);
    var m1 := RunIcmp(f, s1, PEq, v, w, Enc(Width(t), a), Enc(Width(t), c), m, orc);
    m' := RunCondBr(f, s2, Temp(IInt(1), s1.nextTemp), body, |s.blocks|, if a == c then 1 else 0, m1, orc);
    JumpKept(m1, m'.blk, s1.nextTemp + 1);
    Chain(f, m, m1, m', s.nextTemp, s1.nextTemp + 1, 1, 1, orc);
    n := 2;
  }

  lemma EncInjectiveAt(t: Ty, a: int, c: int)
    requires IsIntLike(t) && InRange(t, a) && InRange(t, c)
    ensures Enc(Width(t), a) == Enc(Width(t), c) <==> a == c
  {
    InRangeDecodes(t, a);
    InRangeDecodes(t, c);
  }

  predicate AnyLabel(labels: seq<Label>, a: int) {
    exists j :: 0 <= j < |labels| && LabelIs(labels[j], a)
  }

  predicate TypedLabels(labels: seq<Label>, t: Ty, scope: Scope) {
    forall j :: 0 <= j < |labels| ==> TypedLabel(labels[j], t, scope)
  }

  /** The tests of an arm jump to its body exactly when a label is equal. */
  lemma {:induction false} LabelsSim(f: Blocks, s: Low, labels: seq<Label>, v: Operand, body: nat, t: Ty, a: int,
      scope: Scope, m: Machine, orc: Oracle)
    returns (n: nat, m': Machine)
    requires !HasWildcard(labels) && TypedLabels(labels, t, scope) && IsIntLike(t) && Mirrors(s.locals, scope)
    requires AtEnd(s, m) && Holds(v, t, a, m) && Below(v, s.nextTemp) && Ext(LowerLabels(s, labels, v, body).blocks, f)
    ensures Reaches(f, m, m', n, orc) && Kept(m, m', s.nextTemp) && m'.trace == m.trace
    ensures if AnyLabel(labels, a) then m'.blk == body && m'.pc == 0 else AtEnd(LowerLabels(s, labels, v, body), m')
    decreases labels
  {
    hide Ext, Kept, Reaches, Holds, LowerLabel, TypedLabel, LabelIs, Mirrors;
    if labels == [] {
      StayPut(f, m, s.nextTemp, orc);
      n, m' := 0, m;
    } else {
      var k := |labels| - 1;
      var s1 := LowerLabels(s, labels[..k], v, body);
      LabelsShapes(s, labels[..k], v, body);
      LabelShape(s1, labels[k], v, body);
      ExtTrans(s1.blocks, LowerLabel(s1, labels[k], v, body).blocks, f);
      assert labels[k].Value?;
      var n1, m1 := LabelsSim(f, s, labels[..k], v, body, t, a, scope, m, orc);
      if AnyLabel(labels[..k], a) {
        n, m' := n1, m1;
      } else {
        HoldsKept(v, t, a, m, m1, s.nextTemp);
        var n2, m2 := LabelSim(f, s1, labels[k], v, body, t, a, scope, m1, orc);
        Chain(f, m, m1, m2, s.nextTemp, s1.nextTemp, n1, n2, orc);
        n, m' := n1 + n2, m2;
      }
    }
  }

  predicate TypedArms(arms: seq<Arm>, t: Ty, scope: Scope) {
    forall i :: 0 <= i < |arms| ==> TypedLabels(arms[i].labels, t, scope)
  }

  /** The chain of tests jumps to the body of the first arm hit, or falls off
      its end. */
  lemma {:induction false} ChainSim(f: Blocks, s: Low, arms: seq<Arm>, v: Operand, end: nat, ret: Ty, t: Ty, a: int,
      scope: Scope, m: Machine, orc: Oracle)
    returns (n: nat, m': Machine)
    requires TypedArms(arms, t, scope) && IsIntLike(t) && Mirrors(s.locals, scope)
    requires AtEnd(s, m) && Holds(v, t, a, m) && Below(v, s.nextTemp)
             && Ext(LowerArms(s, arms, v, end, ret).0.blocks, f)
    ensures Reaches(f, m, m', n, orc) && Kept(m, m', s.nextTemp) && m'.trace == m.trace
    ensures match FirstHit(arms, a)
            case Some(i) => m'.blk == |ChainAt(s, arms, i, v, end, ret).blocks| && m'.pc == 0
            case None => AtEnd(LowerArms(s, arms, v, end, ret).0, m')
    decreases arms
  {
    hide Ext, Kept, Reaches, Holds, LowerArm, TypedLabel, LabelIs, Mirrors;
    if arms == [] {
      StayPut(f, m, s.nextTemp, orc);
      n, m' := 0, m;
    } else {
      var k := |arms| - 1;
      var s1 := LowerArms(s, arms[..k], v, end, ret).0;
      ArmsShapes(s, arms[..k], v, end, ret);
      ArmShapes(s1, arms[k], v, end, ret);
      ExtTrans(s1.blocks, LowerArm(s1, arms[k], v, end, ret).blocks, f);
      var n1, m1 := ChainSim(f, s, arms[..k], v, end, ret, t, a, scope, m, orc);
      if FirstHit(arms[..k], a).Some? {
        assert arms[..k][..FirstHit(arms, a).value] == arms[..FirstHit(arms, a).value];
        n, m' := n1, m1;
      } else {
        HoldsKept(v, t, a, m, m1, s.nextTemp);
        var n2, m2 := ArmTestSim(f, s1, arms[k], v, end, ret, t, a, scope, m1, orc);
        Chain(f, m, m1, m2, s.nextTemp, s1.nextTemp, n1, n2, orc);
        n, m' := n1 + n2, m2;
      }
    }
  }

  lemma ArmTestSim(f: Blocks, s: Low, arm: Arm, v: Operand, end: nat, ret: Ty, t: Ty, a: int, scope: Scope, m: Machine,
      orc: Oracle)
    returns (n: nat, m': Machine)
    requires TypedLabels(arm.labels, t, scope) && IsIntLike(t) && Mirrors(s.locals, scope)
    requires AtEnd(s, m) && Holds(v, t, a, m) && Below(v, s.nextTemp) && Ext(LowerArm(s, arm, v, end, ret).blocks, f)
    ensures Reaches(f, m, m', n, orc) && Kept(m, m', s.nextTemp) && m'.trace == m.trace
    ensures if Hits(arm, a) then m'.blk == |s.blocks| && m'.pc == 0 else AtEnd(LowerArm(s, arm, v, end, ret), m')
  {
    hide Ext, Kept, Reaches, Holds, LowerArm, LowerLabels, TypedLabel, LabelIs, Mirrors, StmtShape;
    ArmStages(f, s, arm, v, end, ret);
    if HasWildcard(arm.labels) {
      StayPut(f, m, s.nextTemp, orc);
      n, m' := 0, m;
    } else {
      n, m' := LabelsSim(f, NewBlock(s), arm.labels, v, |s.blocks|, t, a, scope, m, orc);
    }
  }
}
