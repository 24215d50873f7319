/** Lowering preserves meaning: whatever a statement, and then a whole function,
    does in the language, its blocks do in the IR. */
module Simulation {
  import opened Words
  import opened Types
  import opened Tree
  import opened Typing
  import opened Ir
  import opened Lowering
  import opened LoweringShape
  import opened SimExpr
  import opened SimStmt
  import opened SimFlow

  /** What is known where a statement's code starts. */
  predicate Begins(s: Low, scope: Scope, inLoop: bool, env: Env, m: Machine) {
    Start(s, scope, env, m) && (inLoop ==> s.loops != [])
  }

  lemma {:induction false} StmtSim(f: Blocks, s: Low, st: Stmt, scope: Scope, ret: Ty, inLoop: bool, env: Env,
      m: Machine, orc: Oracle, fuel: nat)
    returns (n: nat, m': Machine)
    requires Begins(s, scope, inLoop, env, m) && TypedStmt(st, scope, ret, inLoop)
    requires Ext(LowerStmt(s, st, ret).blocks, f)
    ensures Simulates(f, s, LowerStmt(s, st, ret), ret, Exec(st, env, orc, fuel), m, m', n, fuel, orc)
    decreases fuel, st, 3
  {
    hide Ext, Ready, Reaches, RegsKept, Represents, AtEnd, LowerIf, LowerWhile, LowerMatch, LowerBlock, LowerVar,
        LowerAssign, LowerReturn, LowerExpr;
    assert LowerStmt(s, st, ret) == LowerOpen(s, st, ret);
    match st
    case Block(ss) => n, m' := BlockSim(f, s, ss, scope, ret, inLoop, env, m, orc, fuel);
    case If(_, _, _) => n, m' := IfSim(f, s, st, scope, ret, inLoop, env, m, orc, fuel);
    case While(_, _) => n, m' := WhileSim(f, s, st, scope, ret, env, m, orc, fuel);
    case Match(_, _) => n, m' := MatchSim(f, s, st, scope, ret, inLoop, env, m, orc, fuel);
    case _ => n, m' := LeafSim(f, s, st, scope, ret, inLoop, env, m, orc, fuel);
  }

  lemma LeafSim(f: Blocks, s: Low, st: Stmt, scope: Scope, ret: Ty, inLoop: bool, env: Env, m: Machine, orc: Oracle,
      fuel: nat)
    returns (n: nat, m': Machine)
    requires !st.Block? && !st.If? && !st.While? && !st.Match?
    requires Begins(s, scope, inLoop, env, m) && TypedStmt(st, scope, ret, inLoop)
    requires Ext(LowerOpen(s, st, ret).blocks, f)
    ensures Simulates(f, s, LowerOpen(s, st, ret), ret, Exec(st, env, orc, fuel), m, m', n, fuel, orc)
  {
    hide Ext, Simulates, Begins, TypedStmt, LowerOpen, Exec;
    match st
    case Empty => n, m' := EmptyCaseSim(f, s, st, scope, ret, inLoop, env, m, orc, fuel);
    case Break => n, m' := JumpCaseSim(f, s, st, scope, ret, inLoop, env, m, orc, fuel);
    case Continue => n, m' := JumpCaseSim(f, s, st, scope, ret, inLoop, env, m, orc, fuel);
    case ExprStmt(_) => n, m' := ExprCaseSim(f, s, st, scope, ret, inLoop, env, m, orc, fuel);
    case Return(_) => n, m' := ReturnCaseSim(f, s, st, scope, ret, inLoop, env, m, orc, fuel);
    case Var(_, _) => n, m' := VarCaseSim(f, s, st, scope, ret, inLoop, env, m, orc, fuel);
    case Assign(_, _, _) => n, m' := AssignCaseSim(f, s, st, scope, ret, inLoop, env, m, orc, fuel);
  }

  lemma EmptyCaseSim(f: Blocks, s: Low, st: Stmt, scope: Scope, ret: Ty, inLoop: bool, env: Env, m: Machine,
      orc: Oracle, fuel: nat)
    returns (n: nat, m': Machine)
    requires st.Empty?
    requires Begins(s, scope, inLoop, env, m) && TypedStmt(st, scope, ret, inLoop)
    requires Ext(LowerOpen(s, st, ret).blocks, f)
    ensures Simulates(f, s, LowerOpen(s, st, ret), ret, Exec(st, env, orc, fuel), m, m', n, fuel, orc)
  {
    hide Ext, RegsKept, Represents, LowerVar, LowerAssign, LowerReturn, LowerExpr, Arith, Eval, TypedExpr,
        TypedOperands;
    n, m' := 0, m;
    RegsKeptSelf(m, s.nextTemp);
  }

  lemma JumpCaseSim(f: Blocks, s: Low, st: Stmt, scope: Scope, ret: Ty, inLoop: bool, env: Env, m: Machine,
      orc: Oracle, fuel: nat)
    returns (n: nat, m': Machine)
    requires st.Break? || st.Continue?
    requires Begins(s, scope, inLoop, env, m) && TypedStmt(st, scope, ret, inLoop)
    requires Ext(LowerOpen(s, st, ret).blocks, f)
    ensures Simulates(f, s, LowerOpen(s, st, ret), ret, Exec(st, env, orc, fuel), m, m', n, fuel, orc)
  {
    hide Ext, RegsKept, Represents, LowerVar, LowerAssign, LowerReturn, LowerExpr, Arith, Eval, TypedExpr,
        TypedOperands;
    var l := s.loops[|s.loops| - 1];
    n, m' := JumpSim(f, s, if st.Break? then l.breakTo else l.continueTo, scope, env, m, orc);
  }

  lemma ExprCaseSim(f: Blocks, s: Low, st: Stmt, scope: Scope, ret: Ty, inLoop: bool, env: Env, m: Machine,
      orc: Oracle, fuel: nat)
    returns (n: nat, m': Machine)
    requires st.ExprStmt?
    requires Begins(s, scope, inLoop, env, m) && TypedStmt(st, scope, ret, inLoop)
    requires Ext(LowerOpen(s, st, ret).blocks, f)
    ensures Simulates(f, s, LowerOpen(s, st, ret), ret, Exec(st, env, orc, fuel), m, m', n, fuel, orc)
  {
    hide Ext, RegsKept, Represents, LowerVar, LowerAssign, LowerReturn, LowerExpr, Arith, Eval, TypedExpr,
        TypedOperands;
    n, m' := 0, m;
    if Eval(st.expr, env.vars, env.trace, orc).Val? {
      ExprShape(s, st.expr);
      n, m' := ExprSim(f, s, st.expr, scope, env.vars, m, orc);
      KeptRegs(m, m', s.nextTemp);
      RepresentsKept(s.locals, env.vars, m, m', s.nextTemp);
    }
  }

  lemma ReturnCaseSim(f: Blocks, s: Low, st: Stmt, scope: Scope, ret: Ty, inLoop: bool, env: Env, m: Machine,
      orc: Oracle, fuel: nat)
    returns (n: nat, m': Machine)
    requires st.Return?
    requires Begins(s, scope, inLoop, env, m) && TypedStmt(st, scope, ret, inLoop)
    requires Ext(LowerOpen(s, st, ret).blocks, f)
    ensures Simulates(f, s, LowerOpen(s, st, ret), ret, Exec(st, env, orc, fuel), m, m', n, fuel, orc)
  {
    hide Ext, RegsKept, Represents, LowerVar, LowerAssign, LowerReturn, LowerExpr, Arith, Eval, TypedExpr;
    hide TypedOperands, IsScalar, Answer;
    n, m' := 0, m;
    if st.result.None? {
      ReturnVoidSim(f, s, m, orc);
    } else if Eval(st.result.value, env.vars, env.trace, orc).Val? {
      n, m' := ReturnSim(f, s, st.result.value, ret, scope, env.vars, m, orc);
    }
  }

  lemma VarCaseSim(f: Blocks, s: Low, st: Stmt, scope: Scope, ret: Ty, inLoop: bool, env: Env, m: Machine, orc: Oracle,
      fuel: nat)
    returns (n: nat, m': Machine)
    requires st.Var?
    requires Begins(s, scope, inLoop, env, m) && TypedStmt(st, scope, ret, inLoop)
    requires Ext(LowerOpen(s, st, ret).blocks, f)
    ensures Simulates(f, s, LowerOpen(s, st, ret), ret, Exec(st, env, orc, fuel), m, m', n, fuel, orc)
  {
    hide Ext, RegsKept, Represents, LowerVar, LowerAssign, LowerReturn, LowerExpr, Arith, Eval, TypedExpr,
        TypedOperands;
    n, m' := 0, m;
    if st.init.Some? ==> Eval(st.init.value, env.vars, env.trace, orc).Val? {
      VarShape(s, st.decl, st.init);
      n, m' := VarSim(f, s, st.decl, st.init, scope, env.vars, m, orc);
    }
  }

  lemma AssignCaseSim(f: Blocks, s: Low, st: Stmt, scope: Scope, ret: Ty, inLoop: bool, env: Env, m: Machine,
      orc: Oracle, fuel: nat)
    returns (n: nat, m': Machine)
    requires st.Assign?
    requires Begins(s, scope, inLoop, env, m) && TypedStmt(st, scope, ret, inLoop)
    requires Ext(LowerOpen(s, st, ret).blocks, f)
    ensures Simulates(f, s, LowerOpen(s, st, ret), ret, Exec(st, env, orc, fuel), m, m', n, fuel, orc)
  {
    hide Ext, RegsKept, Represents, LowerAssign, LowerExpr, Arith, Eval, TypedExpr, TypedOperands, AtEnd, Reaches;
    LookupsAgree(scope, env.vars, st.target.name);
    AssignShape(s, st.target, st.op, st.rhs);
    n, m' := 0, m;
    if Exec(st, env, orc, fuel).Normal? {
      if st.op.None? {
        n, m' := AssignSim(f, s, st.target, st.rhs, scope, env.vars, m, orc);
      } else {
        n, m' := CompoundSim(f, s, st.target, st.op.value, st.rhs, scope, env.vars, m, orc);
      }
    }
  }

  lemma RegsKeptSelf(m: Machine, k: nat)
    ensures RegsKept(m, m, k)
  {
  }

  lemma ReturnVoidSim(f: Blocks, s: Low, m: Machine, orc: Oracle)
    requires AtEnd(s, m) && Ext(LowerReturn(s, None, Void).blocks, f)
    ensures Step(f, m, orc) == Halt(None, m.trace)
  {
    Fetch(f, s, Ret(None), m, orc);
  }

  lemma JumpSim(f: Blocks, s: Low, d: nat, scope: Scope, env: Env, m: Machine, orc: Oracle)
    returns (n: nat, m': Machine)
    requires Start(s, scope, env, m) && Ext(Emit(s, Br(d)).blocks, f)
    ensures Reaches(f, m, m', n, orc) && RegsKept(m, m', s.nextTemp) && JumpedTo(s, d, env, m')
  {
    m' := RunBr(f, s, d, m, orc);
    n := 1;
    SameData(s.locals, env.vars, m, m');
  }

  // ------------------------------------------------------------------ blocks

  lemma {:induction false} BlockSim(f: Blocks, s: Low, ss: seq<Stmt>, scope: Scope, ret: Ty, inLoop: bool, env: Env,
      m: Machine, orc: Oracle, fuel: nat)
    returns (n: nat, m': Machine)
    requires Begins(s, scope, inLoop, env, m) && TypedSeq(ss, scope, ret, inLoop)
    requires Ext(LowerBlock(s, ss, ret).blocks, f)
    ensures Simulates(f, s, LowerBlock(s, ss, ret), ret, ExecBlock(ss, env, orc, fuel), m, m', n, fuel, orc)
    decreases fuel, ss, 1
  {
    hide Ext, RegsKept, Reaches, LowerSeq, ExecSeq;
    n, m' := SeqSim(f, s, ss, scope, ret, inLoop, env, m, orc, fuel);
    SeqShapes(s, ss, ret);
    LeaveSim(f, s, LowerSeq(s, ss, ret), LowerBlock(s, ss, ret), ret, ExecSeq(ss, env, orc, fuel), m, m', n, fuel, orc);
  }

  /** Leaving a scope cuts both stacks back to the same mark. */
  lemma LeaveSim(f: Blocks, s: Low, u: Low, t: Low, ret: Ty, r: Result, m: Machine, m': Machine, n: nat, fuel: nat,
      orc: Oracle)
    requires Simulates(f, s, u, ret, r, m, m', n, fuel, orc)
    requires s.locals <= u.locals && t == u.(locals := s.locals)
    ensures Simulates(f, s, t, ret, Leave(r, |s.locals|), m, m', n, fuel, orc)
  {
    if r.Normal? {
      RepresentsCut(u.locals, r.env.vars, m', |s.locals|);
      assert s.locals == u.locals[..|s.locals|];
    } else if r.Broke? || r.Continued? {
      CutTwice(r.env.vars, |s.locals|);
    }
  }

  lemma CutTwice<T>(x: seq<T>, k: nat)
    ensures Cut(Cut(x, k), k) == Cut(x, k)
  {
  }

  lemma {:induction false} SeqSim(f: Blocks, s: Low, ss: seq<Stmt>, scope: Scope, ret: Ty, inLoop: bool, env: Env,
      m: Machine, orc: Oracle, fuel: nat)
    returns (n: nat, m': Machine)
    requires Begins(s, scope, inLoop, env, m) && TypedSeq(ss, scope, ret, inLoop)
    requires Ext(LowerSeq(s, ss, ret).blocks, f)
    ensures Simulates(f, s, LowerSeq(s, ss, ret), ret, ExecSeq(ss, env, orc, fuel), m, m', n, fuel, orc)
    ensures ExecSeq(ss, env, orc, fuel).Normal? ==>
              Start(LowerSeq(s, ss, ret), AfterSeq(ss, scope), ExecSeq(ss, env, orc, fuel).env, m')
    decreases fuel, ss, 0
  {
    hide Ext, RegsKept, Reaches, Represents, Ready, LowerStmt, Exec, TypedStmt, After;
    if ss == [] {
      StayPut(f, m, s.nextTemp, orc);
      RegsKeptSelf(m, s.nextTemp);
      n, m' := 0, m;
      ReadyParts(s, scope, env, m);
    } else {
      var k := |ss| - 1;
      var s1 := LowerSeq(s, ss[..k], ret);
      var t := LowerStmt(s1, ss[k], ret);
      SeqShapes(s, ss[..k], ret);
      StmtShapes(s1, ss[k], ret);
      ExtTrans(s1.blocks, t.blocks, f);
      var n1, m1 := SeqSim(f, s, ss[..k], scope, ret, inLoop, env, m, orc, fuel);
      var r := ExecSeq(ss[..k], env, orc, fuel);
      if r.Normal? {
        var scope1 := AfterSeq(ss[..k], scope);
        var n2, m2 := StmtSim(f, s1, ss[k], scope1, ret, inLoop, r.env, m1, orc, fuel);
        n, m' := n1 + n2, m2;
        var r2 := Exec(ss[k], r.env, orc, fuel);
        TypedElse(ss[k], scope1, ret, inLoop);
        if r2.Normal? {
          ReachesTrans(f, m, m1, m2, n1, n2, orc);
          RegsKeptTrans(m, m1, m2, s.nextTemp, s1.nextTemp);
          NextStart(s1, ss[k], t, scope1, r.env.vars, m1, r2.env, m2);
        } else {
          Early(f, s, s1, t, t, ret, r2, m, m1, m2, n1, n2, fuel, orc);
        }
      } else {
        n, m' := n1, m1;
        Unfallen(f, s, s1, t, ret, r, m, m1, n1, fuel, orc);
      }
    }
  }

  lemma ReadyParts(s: Low, scope: Scope, env: Env, m: Machine)
    requires Ready(s, scope, env.vars, m)
    ensures Represents(s.locals, env.vars, m) && AtEnd(s, m)
  {
  }

  /** Where code ends does not matter to a run that never gets there. */
  lemma Unfallen(f: Blocks, s: Low, u: Low, t: Low, ret: Ty, r: Result, m: Machine, m': Machine, n: nat, fuel: nat,
      orc: Oracle)
    requires Simulates(f, s, u, ret, r, m, m', n, fuel, orc) && !r.Normal?
    ensures Simulates(f, s, t, ret, r, m, m', n, fuel, orc)
  {
  }

  // ---------------------------------------------------------------------- if

  lemma TypedIf(st: Stmt, scope: Scope, ret: Ty, inLoop: bool)
    requires st.If? && TypedStmt(st, scope, ret, inLoop)
    ensures TypedCondition(st.cond, scope) && TypedSeq(st.thn, scope, ret, inLoop)
    ensures st.els.Some? ==> TypedStmt(st.els.value, scope, ret, inLoop)
  {
    hide TypedCondition, TypedSeq;
  }

  lemma ExecIf(st: Stmt, env: Env, orc: Oracle, fuel: nat)
    requires st.If?
    ensures var out := Eval(st.cond, env.vars, env.trace, orc);
            Exec(st, env, orc, fuel) ==
              if out.Undefined? then Wrong
              else if out.value != 0 then ExecBlock(st.thn, env.(trace := out.trace), orc, fuel)
              else if st.els.Some? then Exec(st.els.value, env.(trace := out.trace), orc, fuel)
              else Normal(env.(trace := out.trace))
  {
    hide Eval, ExecBlock;
  }

  /** The condition of an `if`: computed, and branched on. */
  lemma IfTestSim(f: Blocks, s: Low, st: Stmt, scope: Scope, ret: Ty, env: Env, m: Machine, orc: Oracle)
    returns (n: nat, m': Machine)
    requires st.If? && Start(s, scope, env, m) && TypedCondition(st.cond, scope)
    requires Eval(st.cond, env.vars, env.trace, orc).Val?
    requires var b := |s.blocks|; Ext(LowerTest(IfBlocks(s, st.els.Some?), st.cond, b, b + 1).blocks, f)
    ensures var out, b := Eval(st.cond, env.vars, env.trace, orc), |s.blocks|;
            && n >= 1 && Reaches(f, m, m', n, orc) && RegsKept(m, m', s.nextTemp) && m'.trace == out.trace
            && m'.blk == (if out.value != 0 then b else b + 1) && m'.pc == 0
    ensures Represents(s.locals, env.vars, m') && RegsBelow(s.locals, s.nextTemp) && SameDecls(scope, env.vars)
  {
    hide Ext, RegsKept, Reaches, Represents, RegsBelow, SameDecls, Kept, LowerTest, Eval, Execute, IrOf, Step, Width,
        TypedCondition;
    var b, h := |s.blocks|, IfBlocks(s, st.els.Some?);
    ReadyAt(s, h, scope, env.vars, m);
    n, m' := TestSim(f, h, st.cond, b, b + 1, scope, env.vars, m, orc);
    KeptRegs(m, m', s.nextTemp);
    RepresentsKept(s.locals, env.vars, m, m', s.nextTemp);
  }

  /** The first branch of an `if`, from its block to the end block. */
  lemma {:induction false} ThenSim(f: Blocks, s: Low, p: Low, ss: seq<Stmt>, t: Low, end: nat, scope: Scope, ret: Ty,
      inLoop: bool, env: Env,
                                    m: Machine, m1: Machine, n1: nat, orc: Oracle, fuel: nat)
    returns (n: nat, m': Machine)
    requires TypedSeq(ss, scope, ret, inLoop) && (inLoop ==> s.loops != [])
    requires p.loops == s.loops && p.locals == LowerBlock(p, ss, ret).locals == t.locals == s.locals
             && s.nextTemp <= p.nextTemp
    requires p.blocks[p.cur] == [] && t.cur == end && t.blocks[end] == []
    requires Ext(LowerBlock(p, ss, ret).blocks, f) && Ext(Join(LowerBlock(p, ss, ret), end).blocks, f)
    requires Reaches(f, m, m1, n1, orc) && RegsKept(m, m1, s.nextTemp)
    requires m1.blk == p.cur && m1.pc == 0 && m1.trace == env.trace
    requires Represents(s.locals, env.vars, m1) && RegsBelow(s.locals, s.nextTemp) && SameDecls(scope, env.vars)
    ensures Simulates(f, s, t, ret, ExecBlock(ss, env, orc, fuel), m, m', n, fuel, orc)
    ensures ExecBlock(ss, env, orc, fuel).OutOfFuel? ==> n >= n1 + fuel
    decreases fuel, ss, 2
  {
    hide Ext, RegsKept, Reaches, Represents, RegsBelow, SameDecls, LowerBlock, LowerStmt, ExecBlock, Exec, Simulates,
        Join, Start;
    RegsBelowMore(s.locals, s.nextTemp, p.nextTemp);
    StartAt(s, p, scope, env, m1);
    var n2, m2 := BlockSim(f, p, ss, scope, ret, inLoop, env, m1, orc, fuel);
    n, m' := Joined(f, s, p, LowerBlock(p, ss, ret), t, end, ret, ExecBlock(ss, env, orc, fuel), m, m1, m2, n1, n2,
        fuel, orc);
  }

  /** The other branch. */
  lemma {:induction false} ElseSim(f: Blocks, s: Low, p: Low, st: Stmt, t: Low, end: nat, scope: Scope, ret: Ty,
      inLoop: bool, env: Env,
                                    m: Machine, m1: Machine, n1: nat, orc: Oracle, fuel: nat)
    returns (n: nat, m': Machine)
    requires TypedStmt(st, scope, ret, inLoop) && (inLoop ==> s.loops != [])
    requires p.loops == s.loops && p.locals == LowerStmt(p, st, ret).locals == t.locals == s.locals
             && s.nextTemp <= p.nextTemp
    requires p.blocks[p.cur] == [] && t.cur == end && t.blocks[end] == []
    requires Ext(LowerStmt(p, st, ret).blocks, f) && Ext(Join(LowerStmt(p, st, ret), end).blocks, f)
    requires Reaches(f, m, m1, n1, orc) && RegsKept(m, m1, s.nextTemp)
    requires m1.blk == p.cur && m1.pc == 0 && m1.trace == env.trace
    requires Represents(s.locals, env.vars, m1) && RegsBelow(s.locals, s.nextTemp) && SameDecls(scope, env.vars)
    ensures Simulates(f, s, t, ret, Exec(st, env, orc, fuel), m, m', n, fuel, orc)
    ensures Exec(st, env, orc, fuel).OutOfFuel? ==> n >= n1 + fuel
    decreases fuel, st, 4
  {
    hide Ext, RegsKept, Reaches, Represents, RegsBelow, SameDecls, LowerBlock, LowerStmt, ExecBlock, Exec, Simulates,
        Join, Start;
    RegsBelowMore(s.locals, s.nextTemp, p.nextTemp);
    StartAt(s, p, scope, env, m1);
    var n2, m2 := StmtSim(f, p, st, scope, ret, inLoop, env, m1, orc, fuel);
    n, m' := Joined(f, s, p, LowerStmt(p, st, ret), t, end, ret, Exec(st, env, orc, fuel), m, m1, m2, n1, n2, fuel,
        orc);
  }

  lemma {:induction false} IfSim(f: Blocks, s: Low, st: Stmt, scope: Scope, ret: Ty, inLoop: bool, env: Env,
      m: Machine, orc: Oracle, fuel: nat)
    returns (n: nat, m': Machine)
    requires st.If?
    requires Begins(s, scope, inLoop, env, m) && TypedStmt(st, scope, ret, inLoop)
    requires Ext(LowerIf(s, st, ret).blocks, f)
    ensures Simulates(f, s, LowerIf(s, st, ret), ret, Exec(st, env, orc, fuel), m, m', n, fuel, orc)
    decreases fuel, st, 2
  {
    hide Ext, RegsKept, Reaches, Represents, RegsBelow, SameDecls, Kept, LowerTest, LowerBlock, LowerStmt, Eval;
    hide ExecBlock, TypedSeq, TypedExpr, Simulates, Execute, IrOf, Step, Width, TypedName, IsOpen, TypedCondition;
    hide Start, LowerIf, Join, ElseOk, TypedStmt, Exec;
    var b, hasElse := |s.blocks|, st.els.Some?;
    var end := if hasElse then b + 2 else b + 1;
    TypedElse(st, scope, ret, inLoop);
    TypedIf(st, scope, ret, inLoop);
    ExecIf(st, env, orc, fuel);
    IfStages(f, s, st, ret);
    var h := IfBlocks(s, hasElse);
    var t := LowerTest(h, st.cond, b, b + 1);
    var out := Eval(st.cond, env.vars, env.trace, orc);
    if out.Undefined? {
      n, m' := 0, m;
      WrongSim(f, s, LowerIf(s, st, ret), ret, m, m', n, fuel, orc);
    } else {
      var n1, m1 := IfTestSim(f, s, st, scope, ret, env, m, orc);
      var env1 := env.(trace := out.trace);
      if out.value != 0 {
        n, m' := ThenSim(f, s, Position(t, b), st.thn, LowerIf(s, st, ret), end, scope, ret, inLoop, env1, m, m1, n1,
            orc, fuel);
      } else if hasElse {
        var q := Position(Join(LowerBlock(Position(t, b), st.thn, ret), end), b + 1);
        n, m' := ElseSim(f, s, q, st.els.value, LowerIf(s, st, ret), end, scope, ret, inLoop, env1, m, m1, n1, orc,
            fuel);
      } else {
        n, m' := n1, m1;
        FallsTo(f, s, LowerIf(s, st, ret), ret, env1, m, m1, n1, fuel, orc);
      }
    }
  }

  lemma WrongSim(f: Blocks, s: Low, t: Low, ret: Ty, m: Machine, m': Machine, n: nat, fuel: nat, orc: Oracle)
    ensures Simulates(f, s, t, ret, Wrong, m, m', n, fuel, orc)
  {
  }

  lemma ReadyAt(s: Low, h: Low, scope: Scope, vars: seq<Local>, m: Machine)
    requires Ready(s, scope, vars, m)
    requires h.cur == s.cur && h.blocks[h.cur] == s.blocks[s.cur] && h.locals == s.locals && h.nextTemp == s.nextTemp
    ensures Ready(h, scope, vars, m) && RegsBelow(s.locals, s.nextTemp) && Represents(s.locals, vars, m)
            && SameDecls(scope, vars)
  {
  }

  /** Arriving at the empty block where a statement ends. */
  lemma FallsTo(f: Blocks, s: Low, t: Low, ret: Ty, env: Env, m: Machine, m': Machine, n: nat, fuel: nat, orc: Oracle)
    requires Reaches(f, m, m', n, orc) && RegsKept(m, m', s.nextTemp) && m'.trace == env.trace
    requires m'.blk == t.cur && m'.pc == 0 && t.blocks[t.cur] == [] && t.locals == s.locals
    requires Represents(s.locals, env.vars, m')
    ensures Simulates(f, s, t, ret, Normal(env), m, m', n, fuel, orc)
  {
  }

  // ------------------------------------------------------------------- while

  lemma {:induction false} WhileSim(f: Blocks, s: Low, st: Stmt, scope: Scope, ret: Ty, env: Env, m: Machine,
      orc: Oracle, fuel: nat)
    returns (n: nat, m': Machine)
    requires st.While?
    requires Start(s, scope, env, m) && TypedStmt(st, scope, ret, true)
    requires Ext(LowerWhile(s, st, ret).blocks, f)
    ensures Simulates(f, s, LowerWhile(s, st, ret), ret, Exec(st, env, orc, fuel), m, m', n, fuel, orc)
    decreases fuel, st, 1
  {
    hide Ext, RegsKept, Reaches, Represents, RegsBelow, SameDecls, Kept, LowerWhile, Exec, Simulates, TypedStmt;
    hide Step, Execute, Within;
    WhileStages(f, s, st, ret);
    var b := |s.blocks|;
    var h0 := NewBlock(NewBlock(NewBlock(s)));
    ReadyAt(s, h0, scope, env.vars, m);
    var m1 := RunBr(f, h0, b, m, orc);
    SameData(s.locals, env.vars, m, m1);
    StartAt(s, WhileHead(s), scope, env, m1);
    var n2;
    n2, m' := LoopSim(f, s, st, scope, ret, env, m1, orc, fuel);
    SameRegsKept(m, m1, s.nextTemp);
    n := 1 + n2;
    Resume(f, s, LowerWhile(s, st, ret), ret, Exec(st, env, orc, fuel), m, m1, m', 1, n2, fuel, fuel, orc);
  }

  lemma SameRegsKept(m: Machine, m': Machine, k: nat)
    requires m'.regs == m.regs
    ensures RegsKept(m, m', k)
  {
  }

  /** The statement goes on from `m1` as it would have from `m`. */
  lemma Resume(f: Blocks, s: Low, t: Low, ret: Ty, r: Result, m: Machine, m1: Machine, m2: Machine,
               n1: nat, n2: nat, fuel1: nat, fuel: nat, orc: Oracle)
    requires Simulates(f, s, t, ret, r, m1, m2, n2, fuel1, orc)
    requires Reaches(f, m, m1, n1, orc) && RegsKept(m, m1, s.nextTemp) && fuel <= n1 + fuel1
    ensures Simulates(f, s, t, ret, r, m, m2, n1 + n2, fuel, orc)
  {
    if !r.Wrong? {
      ReachesTrans(f, m, m1, m2, n1, n2, orc);
    }
    if r.Normal? || r.Broke? || r.Continued? {
      RegsKeptTrans(m, m1, m2, s.nextTemp, s.nextTemp);
    }
  }

  /** Any number of iterations, from the top of the condition block. */
  lemma {:induction false} LoopSim(f: Blocks, s: Low, st: Stmt, scope: Scope, ret: Ty, env: Env, m: Machine,
      orc: Oracle, fuel: nat)
    returns (n: nat, m': Machine)
    requires st.While?
    requires Start(WhileHead(s), scope, env, m) && RegsBelow(s.locals, s.nextTemp) && TypedStmt(st, scope, ret, true)
    requires Ext(LowerWhile(s, st, ret).blocks, f)
    ensures Simulates(f, s, LowerWhile(s, st, ret), ret, Exec(st, env, orc, fuel), m, m', n, fuel, orc)
    decreases fuel, st, 0
  {
    hide Ext, RegsKept, Reaches, Represents, RegsBelow, SameDecls, Kept, LowerWhile, LowerTest, LowerBlock, Eval,
        ExecBlock, TypedSeq, TypedExpr, Simulates, EnterWhile;
    WhileStages(f, s, st, ret);
    var b := |s.blocks|;
    var h, e, t := WhileHead(s), EnterWhile(s, st.cond), LowerWhile(s, st, ret);
    var out := Eval(st.cond, env.vars, env.trace, orc);
    if out.Undefined? {
      n, m' := 0, m;
      WrongSim(f, s, t, ret, m, m', n, fuel, orc);
    } else {
      var n1, m1 := TestSim(f, h, st.cond, b + 1, b + 2, scope, env.vars, m, orc);
      var env1 := env.(trace := out.trace);
      KeptSmaller(m, m1, s.nextTemp, h.nextTemp);
      KeptRegs(m, m1, s.nextTemp);
      RepresentsKept(s.locals, env.vars, m, m1, s.nextTemp);
      if out.value == 0 {
        n, m' := n1, m1;
        FallsTo(f, s, t, ret, env1, m, m1, n1, fuel, orc);
      } else if fuel == 0 {
        n, m' := n1, m1;
        OutOfFuelSim(f, s, t, ret, m, m1, n1, orc);
      } else {
        EnterWhileAt(s, st.cond);
        RegsBelowMore(s.locals, s.nextTemp, e.nextTemp);
        StartAt(s, e, scope, env1, m1);
        var n2, m2 := BlockSim(f, e, st.body, scope, ret, true, env1, m1, orc, fuel - 1);
        var n3, m3, again := IterationSim(f, s, st, scope, ret, env1, m1, m2, n2, orc, fuel);
        if again.Some? {
          var n4, m4 := LoopSim(f, s, st, scope, ret, again.value, m3, orc, fuel - 1);
          var r := Exec(st, again.value, orc, fuel - 1);
          Resume(f, s, t, ret, r, m1, m3, m4, n3, n4, fuel - 1, fuel - 1, orc);
          Resume(f, s, t, ret, r, m, m1, m4, n1, n3 + n4, fuel - 1, fuel, orc);
          n, m' := n1 + (n3 + n4), m4;
        } else {
          Resume(f, s, t, ret, Exec(st, env, orc, fuel), m, m1, m3, n1, n3, fuel - 1, fuel, orc);
          n, m' := n1 + n3, m3;
        }
      }
    }
  }

  lemma KeptSmaller(m: Machine, m': Machine, k: nat, n: nat)
    requires Kept(m, m', n) && k <= n
    ensures Kept(m, m', k)
  {
  }

  lemma EnterWhileAt(s: Low, cond: Expr)
    ensures EnterWhile(s, cond).cur == |s.blocks| + 1
  {
  }

  lemma OutOfFuelSim(f: Blocks, s: Low, t: Low, ret: Ty, m: Machine, m': Machine, n: nat, orc: Oracle)
    requires Reaches(f, m, m', n, orc)
    ensures Simulates(f, s, t, ret, OutOfFuel, m, m', n, 0, orc)
  {
  }

  /** After one run of the body: back at the condition, or done with the loop. */
  lemma IterationSim(f: Blocks, s: Low, st: Stmt, scope: Scope, ret: Ty, env: Env, m: Machine, m1: Machine, n1: nat,
      orc: Oracle, fuel: nat)
    returns (n: nat, m': Machine, again: Option<Env>)
    requires st.While? && Ext(LowerWhile(s, st, ret).blocks, f) && fuel > 0
    requires SameDecls(scope, env.vars) && Represents(s.locals, env.vars, m) && RegsBelow(s.locals, s.nextTemp)
    requires var e := EnterWhile(s, st.cond);
             Simulates(f, e, LowerBlock(e, st.body, ret), ret, ExecBlock(st.body, env, orc, fuel - 1), m, m1, n1,
                 fuel - 1, orc)
    ensures var r := ExecBlock(st.body, env, orc, fuel - 1);
            match again
            case Some(env1) =>
              && (r == Normal(env1) || r == Continued(env1))
              && Reaches(f, m, m', n, orc) && RegsKept(m, m', s.nextTemp) && Start(WhileHead(s), scope, env1, m')
            case None =>
              && !r.Normal? && !r.Continued?
              && Simulates(f, s, LowerWhile(s, st, ret), ret, if r.Broke? then Normal(r.env) else r, m, m', n,
                  fuel - 1, orc)
  {
    hide Ext, RegsKept, Reaches, RegsBelow, LowerWhile, LowerBlock, EnterWhile, ExecSeq, SameDecls, Step, Width;
    hide InRange;
    WhileStages(f, s, st, ret);
    var b := |s.blocks|;
    var e, t := EnterWhile(s, st.cond), LowerWhile(s, st, ret);
    var u := LowerBlock(e, st.body, ret);
    var r := ExecBlock(st.body, env, orc, fuel - 1);
    n, m', again := n1, m1, None;
    RegsBelowMore(s.locals, s.nextTemp, WhileHead(s).nextTemp);
    match r
    case Normal(env1) =>
      m' := RunBr(f, u, b, m1, orc);
      n, again := n1 + 1, Some(env1);
      ReachesTrans(f, m, m1, m', n1, 1, orc);
      RegsKeptLess(m, m1, s.nextTemp, e.nextTemp);
      SameRegsKept(m1, m', s.nextTemp);
      RegsKeptTrans(m, m1, m', s.nextTemp, s.nextTemp);
      SameData(s.locals, env1.vars, m1, m');
      SameScope(s.locals, scope, env.vars, m, env1.vars, m1);
      StartAt(s, WhileHead(s), scope, env1, m');
    case Continued(env1) =>
      again := Some(env1);
      RegsKeptLess(m, m1, s.nextTemp, e.nextTemp);
      CutTwice(ExecSeq(st.body, env, orc, fuel - 1).env.vars, |s.locals|);
      SameScope(s.locals, scope, env.vars, m, env1.vars, m1);
      StartAt(s, WhileHead(s), scope, env1, m1);
    case Broke(env1) =>
      RegsKeptLess(m, m1, s.nextTemp, e.nextTemp);
      CutTwice(ExecSeq(st.body, env, orc, fuel - 1).env.vars, |s.locals|);
    case Returned(_, _) =>
    case Wrong =>
    case OutOfFuel =>
  }

  lemma RegsKeptLess(m: Machine, m': Machine, k: nat, n: nat)
    requires RegsKept(m, m', n) && k <= n
    ensures RegsKept(m, m', k)
  {
  }

  /** The same stack of locals represents variables with the same declarations. */
  lemma SameScope(locals: seq<Binding>, scope: Scope, vars: seq<Local>, m: Machine, vars': seq<Local>, m': Machine)
    requires Represents(locals, vars, m) && SameDecls(scope, vars) && Represents(locals, vars', m')
    ensures SameDecls(scope, vars')
  {
    forall i | 0 <= i < |scope| ensures vars'[i].decl == scope[i] {
      assert Represented(locals[i], vars[i], m) && Represented(locals[i], vars'[i], m');
    }
  }

  // ------------------------------------------------------------------- match

  lemma {:induction false} MatchSim(f: Blocks, s: Low, st: Stmt, scope: Scope, ret: Ty, inLoop: bool, env: Env,
      m: Machine, orc: Oracle, fuel: nat)
    returns (n: nat, m': Machine)
    requires st.Match?
    requires Begins(s, scope, inLoop, env, m) && TypedStmt(st, scope, ret, inLoop)
    requires Ext(LowerMatch(s, st, ret).blocks, f)
    ensures Simulates(f, s, LowerMatch(s, st, ret), ret, Exec(st, env, orc, fuel), m, m', n, fuel, orc)
    decreases fuel, st, 2
  {
    hide Ext, RegsKept, Reaches, Represents, RegsBelow, SameDecls, Kept, LowerMatch, LowerExpr, LowerArms, Eval,
        TypedExpr, Simulates, Holds, TypedLabel;
    var t := LowerMatch(s, st, ret);
    var out := Eval(st.scrutinee, env.vars, env.trace, orc);
    if out.Undefined? {
      n, m' := 0, m;
      WrongSim(f, s, t, ret, m, m', n, fuel, orc);
    } else {
      var env1 := env.(trace := out.trace);
      var n1, m1 := SelectSim(f, s, st, scope, ret, inLoop, env, m, orc, fuel);
      match SelectArm(st.arms, out.value)
      case None =>
        n, m' := n1, m1;
        MatchEnd(s, st, ret);
        FallsTo(f, s, t, ret, env1, m, m1, n1, fuel, orc);
      case Some(i) =>
        n, m' := ArmSim(f, s, st, i, scope, ret, inLoop, env1, m, m1, n1, orc, fuel);
    }
  }

  /** Where arm `i` of a match is lowered: the chain's state before it. */
  function BeforeArm(s: Low, st: Stmt, i: nat, ret: Ty): Low
    requires st.Match? && i <= |st.arms|
  {
    var (s1, v) := LowerExpr(s, st.scrutinee);
    ChainAt(NewBlock(s1), st.arms, i, v, |s1.blocks|, ret)
  }

  lemma MatchEnd(s: Low, st: Stmt, ret: Ty)
    requires st.Match?
    ensures var t := LowerMatch(s, st, ret);
            t.locals == s.locals && t.cur == |LowerExpr(s, st.scrutinee).0.blocks| && t.blocks[t.cur] == []
  {
    hide LowerExpr, LowerArms;
    var (s1, v) := LowerExpr(s, st.scrutinee);
    ExprShape(s, st.scrutinee);
    ArmsShapes(NewBlock(s1), st.arms, v, |s1.blocks|, ret);
  }

  lemma MatchStages(f: Blocks, s: Low, st: Stmt, ret: Ty)
    requires st.Match? && Ext(LowerMatch(s, st, ret).blocks, f)
    ensures var (s1, v) := LowerExpr(s, st.scrutinee);
            var (c, wild) := LowerArms(NewBlock(s1), st.arms, v, |s1.blocks|, ret);
            && Ext(s1.blocks, f) && Ext(c.blocks, f)
            && Ext(Emit(c, Br(if wild.Some? then wild.value else |s1.blocks|)).blocks, f)
            && s1.locals == c.locals == s.locals && s1.loops == s.loops && c.loops == s.loops
            && s.nextTemp <= s1.nextTemp && Below(v, s1.nextTemp)
  {
    hide LowerExpr, LowerArms, Ext;
    var (s1, v) := LowerExpr(s, st.scrutinee);
    ExprShape(s, st.scrutinee);
    ArmsShapes(NewBlock(s1), st.arms, v, |s1.blocks|, ret);
    var (c, wild) := LowerArms(NewBlock(s1), st.arms, v, |s1.blocks|, ret);
    EmitIn(f, c, Br(if wild.Some? then wild.value else |s1.blocks|));
    ExtTrans(NewBlock(s1).blocks, c.blocks, f);
    OneMoreBlock(s1, f);
  }

  lemma OneMoreBlock(s: Low, f: Blocks)
    requires Ext(NewBlock(s).blocks, f)
    ensures Ext(s.blocks, f)
  {
    ExtTrans(s.blocks, NewBlock(s).blocks, f);
  }

  /** Evaluates the scrutinee and runs the tests: to the body of the arm the
      language selects, or past them all. */
  lemma SelectSim(f: Blocks, s: Low, st: Stmt, scope: Scope, ret: Ty, inLoop: bool, env: Env, m: Machine, orc: Oracle,
      fuel: nat)
    returns (n: nat, m': Machine)
    requires st.Match?
    requires Begins(s, scope, inLoop, env, m) && TypedStmt(st, scope, ret, inLoop)
    requires Ext(LowerMatch(s, st, ret).blocks, f)
    requires Eval(st.scrutinee, env.vars, env.trace, orc).Val?
    ensures var out := Eval(st.scrutinee, env.vars, env.trace, orc);
            && Reaches(f, m, m', n, orc) && RegsKept(m, m', s.nextTemp) && m'.trace == out.trace
            && Represents(s.locals, env.vars, m') && SameDecls(scope, env.vars) && RegsBelow(s.locals, s.nextTemp)
            && m'.pc == 0
            && m'.blk == (match SelectArm(st.arms, out.value)
                          case Some(i) => |BeforeArm(s, st, i, ret).blocks|
                          case None => |LowerExpr(s, st.scrutinee).0.blocks|)
  {
    hide Ext, RegsKept, Reaches, Represents, RegsBelow, SameDecls, Kept, LowerMatch, LowerExpr, LowerArms, Eval,
        TypedExpr, Holds, TypedLabel, ChainAt, TypedStmt;
    MatchStages(f, s, st, ret);
    var (s1, v) := LowerExpr(s, st.scrutinee);
    var end, c0 := |s1.blocks|, NewBlock(s1);
    var (c, wild) := LowerArms(c0, st.arms, v, end, ret);
    var a := Eval(st.scrutinee, env.vars, env.trace, orc).value;
    var ty := st.scrutinee.ty;
    MatchTyped(st, scope, ret, inLoop);
    ReadyAt(s, s, scope, env.vars, m);
    MirrorsScope(s.locals, scope, env.vars, m);
    var n1, m1 := ExprSim(f, s, st.scrutinee, scope, env.vars, m, orc);
    var n2, m2 := ChainSim(f, c0, st.arms, v, end, ret, ty, a, scope, m1, orc);
    Chain(f, m, m1, m2, s.nextTemp, c0.nextTemp, n1, n2, orc);
    n, m' := n1 + n2, m2;
    if FirstHit(st.arms, a).None? {
      WildBlock(c0, st.arms, v, end, ret);
      var dest := if wild.Some? then wild.value else end;
      m' := RunBr(f, c, dest, m2, orc);
      JumpKept(m2, dest, c.nextTemp);
      ArmsGrow(c0, st.arms, v, end, ret);
      Chain(f, m, m2, m', s.nextTemp, c.nextTemp, n1 + n2, 1, orc);
      n := n1 + n2 + 1;
    }
    KeptRegs(m, m', s.nextTemp);
    RepresentsKept(s.locals, env.vars, m, m', s.nextTemp);
  }

  lemma MatchTyped(st: Stmt, scope: Scope, ret: Ty, inLoop: bool)
    requires st.Match? && TypedStmt(st, scope, ret, inLoop)
    ensures TypedExpr(st.scrutinee, scope) && IsIntLike(st.scrutinee.ty) && TypedArms(st.arms, st.scrutinee.ty, scope)
    ensures forall i :: 0 <= i < |st.arms| ==> TypedStmt(st.arms[i].body, scope, ret, inLoop)
  {
  }

  /** Runs the body of the selected arm and leaves for the end of the match. */
  lemma {:induction false} ArmSim(f: Blocks, s: Low, st: Stmt, i: nat, scope: Scope, ret: Ty, inLoop: bool, env: Env,
      m: Machine, m1: Machine, n1: nat, orc: Oracle, fuel: nat)
    returns (n: nat, m': Machine)
    requires st.Match? && i < |st.arms| && (inLoop ==> s.loops != []) && TypedStmt(st, scope, ret, inLoop)
    requires Ext(LowerMatch(s, st, ret).blocks, f)
    requires Reaches(f, m, m1, n1, orc) && RegsKept(m, m1, s.nextTemp) && m1.trace == env.trace
    requires Represents(s.locals, env.vars, m1) && SameDecls(scope, env.vars) && RegsBelow(s.locals, s.nextTemp)
    requires m1.blk == |BeforeArm(s, st, i, ret).blocks| && m1.pc == 0
    ensures Simulates(f, s, LowerMatch(s, st, ret), ret, Leave(Exec(st.arms[i].body, env, orc, fuel), |env.vars|), m,
            m', n, fuel, orc)
    decreases fuel, st, 1
  {
    hide Ext, RegsKept, Reaches, Represents, RegsBelow, SameDecls, LowerMatch, LowerExpr, LowerArms, LowerArm,
        LowerStmt, Simulates, Exec, TypedStmt, ChainAt, StmtShape, ArmTests;
    var arm := st.arms[i];
    var (s1, v) := LowerExpr(s, st.scrutinee);
    var end, c0 := |s1.blocks|, NewBlock(s1);
    MatchStages(f, s, st, ret);
    MatchTyped(st, scope, ret, inLoop);
    MatchEnd(s, st, ret);
    ChainPrefix(c0, st.arms, i, v, end, ret);
    var c := BeforeArm(s, st, i, ret);
    ExtTrans(LowerArm(c, arm, v, end, ret).blocks, LowerArms(c0, st.arms, v, end, ret).0.blocks, f);
    ArmStages(f, c, arm, v, end, ret);
    var p := Position(ArmTests(c, arm, v), |c.blocks|);
    var u := LowerStmt(p, arm.body, ret);
    RegsBelowMore(s.locals, s.nextTemp, p.nextTemp);
    StartAt(s, p, scope, env, m1);
    var n2, m2 := StmtSim(f, p, arm.body, scope, ret, inLoop, env, m1, orc, fuel);
    var r := Exec(arm.body, env, orc, fuel);
    var w := u.(locals := p.locals);
    ArmLocals(p, arm.body, u);
    LeaveSim(f, p, u, w, ret, r, m1, m2, n2, fuel, orc);
    RepresentsLengths(s.locals, env.vars, m1);
    JoinOf(u, w, end);
    n, m' := Joined(f, s, p, w, LowerMatch(s, st, ret), end, ret, Leave(r, |s.locals|), m, m1, m2, n1, n2, fuel, orc);
  }

  lemma ArmLocals(p: Low, st: Stmt, u: Low)
    requires StmtShape(p, st, u)
    ensures p.locals <= u.locals
  {
  }

  lemma RepresentsLengths(locals: seq<Binding>, vars: seq<Local>, m: Machine)
    requires Represents(locals, vars, m)
    ensures |locals| == |vars|
  {
  }

  lemma JoinOf(u: Low, w: Low, end: nat)
    requires w == u.(locals := w.locals)
    ensures Join(w, end).blocks == Join(u, end).blocks
  {
  }
}
