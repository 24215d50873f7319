/** Lowering a checked function keeps the verifier satisfied: every block ends
    in exactly one terminator, every branch stays inside the function, and every
    other check of the verifier passes. */
module VerifyStmt {
  import opened Words
  import opened Types
  import opened Tree
  import opened Typing
  import opened Ir
  import opened Lowering
  import opened LoweringShape
  import opened LoweringTypes
  import opened IrVerify
  import opened VerifyExpr

  /** A statement may leave its last block ended or open. */
  ghost predicate Steps(s: Low, t: Low, ret: IrTy, open: set<nat>) {
    Inv(t, ret, Swap(open, s.cur, t.cur)) && Later(s.blocks, t.blocks)
  }

  lemma StepsOut(s: Low, t: Low, ret: IrTy, open: set<nat>)
    requires Steps(s, t, ret, open)
    ensures Inv(t, ret, Swap(open, s.cur, t.cur)) && Later(s.blocks, t.blocks) && t.cur in Swap(open, s.cur, t.cur)
  {
  }

  lemma StepsTrans(s: Low, t: Low, u: Low, ret: IrTy, open: set<nat>)
    requires Steps(s, t, ret, open) && Steps(t, u, ret, Swap(open, s.cur, t.cur))
    ensures Steps(s, u, ret, open)
  {
    hide Inv;
    LaterTrans(s.blocks, t.blocks, u.blocks);
    InvWeaken(u, ret, Swap(Swap(open, s.cur, t.cur), t.cur, u.cur), Swap(open, s.cur, u.cur));
  }

  lemma MovesSteps(s: Low, t: Low, ret: IrTy, open: set<nat>)
    requires Moves(s, t, ret, open)
    ensures Steps(s, t, ret, open)
  {
  }

  lemma EndsSteps(s: Low, t: Low, ret: IrTy, open: set<nat>)
    requires Inv(t, ret, open - {s.cur}) && Later(s.blocks, t.blocks)
    ensures Steps(s, t, ret, open)
  {
    hide Inv;
    InvWeaken(t, ret, open - {s.cur}, Swap(open, s.cur, t.cur));
  }

  lemma EnsureOpenOk(s: Low, ret: IrTy, open: set<nat>)
    requires Inv(s, ret, open) && s.cur in open
    ensures Steps(s, EnsureOpen(s), ret, open) && IsOpen(EnsureOpen(s))
  {
    hide Ok, Later;
    if IsOpen(s) {
      assert Swap(open, s.cur, s.cur) == open;
      LaterSelf(s.blocks);
    } else {
      EndedOk(s, ret, open);
      AddBlock(s, ret, open - {s.cur});
      PositionInv(NewBlock(s), |s.blocks|, ret, open - {s.cur} + {|s.blocks|});
    }
  }

  lemma EndedOk(s: Low, ret: IrTy, open: set<nat>)
    requires Inv(s, ret, open) && !IsOpen(s)
    ensures Inv(s, ret, open - {s.cur})
  {
  }

  lemma LaterSelf(f: Blocks)
    ensures Later(f, f)
  {
  }

  /** A block that has ended, or is ended by a jump inside the function. */
  lemma JoinOk(s: Low, b: nat, ret: IrTy, open: set<nat>)
    requires Inv(s, ret, open) && b < |s.blocks|
    ensures Inv(Join(s, b), ret, open - {s.cur}) && Later(s.blocks, Join(s, b).blocks)
  {
    hide Ok, Later;
    if IsOpen(s) {
      EmitEnds(s, Br(b), ret, open);
    } else {
      LaterSelf(s.blocks);
    }
  }

  lemma CutOk(s: Low, n: nat, ret: IrTy, open: set<nat>)
    requires Inv(s, ret, open)
    ensures Inv(s.(locals := Cut(s.locals, n)), ret, open)
  {
  }

  lemma PushOk(s: Low, b: Binding, ret: IrTy, open: set<nat>)
    requires Inv(s, ret, open) && SlotOf(s.blocks, b.reg) == Some(IrOf(b.decl.ty))
    ensures Inv(s.(locals := s.locals + [b]), ret, open)
  {
  }

  lemma LoopOk(s: Low, loops: seq<Loop>, ret: IrTy, open: set<nat>)
    requires Inv(s, ret, open) && LoopsOk(|s.blocks|, loops)
    ensures Inv(s.(loops := loops), ret, open)
  {
  }

  /** An expression made as wide as its destination. */
  lemma WidenedOk(s: Low, e: Expr, t: Ty, scope: Scope, ret: IrTy, open: set<nat>)
    requires TypedExpr(e, scope) && Mirrors(s.locals, scope) && IsScalar(e.ty) && IsScalar(t)
    requires Inv(s, ret, open) && IsOpen(s) && s.cur in open
    ensures var (a, v) := LowerExpr(s, e); var (b, c) := CoerceTo(a, v, IrOf(t), e.ty);
            Moves(s, b, ret, open) && c.ty == IrOf(t)
  {
    hide Inv, Keeps, Moves, CoerceTo, Mirrors, Later;
    var (a, v) := LowerExpr(s, e);
    ExprOk(s, e, scope, ret, open);
    ScalarOperand(s, e, scope);
    MovesOpen(s, a, ret, open);
    IrOfScalar(t);
    CoerceKeeps(a, v, IrOf(t), e.ty, ret, Swap(open, s.cur, a.cur));
    MovesKeeps(s, a, CoerceTo(a, v, IrOf(t), e.ty).0, ret, open);
  }

  lemma MovesStore(s: Low, t: Low, v: Operand, slot: nat, ret: IrTy, open: set<nat>)
    requires Moves(s, t, ret, open) && SlotOf(s.blocks, slot) == Some(v.ty)
    ensures Moves(s, Emit(t, Store(v, Temp(IPtr, slot))), ret, open)
  {
    hide Inv, Keeps, Moves, Later, SlotOf;
    MovesOpen(s, t, ret, open);
    SlotLater(s.blocks, t.blocks, slot);
    StoreKeeps(t, v, slot, ret, Swap(open, s.cur, t.cur));
    MovesKeeps(s, t, Emit(t, Store(v, Temp(IPtr, slot))), ret, open);
  }

  // ------------------------------------------------------- simple statements

  lemma VarOk(s: Low, d: Decl, init: Option<Expr>, scope: Scope, ret: IrTy, open: set<nat>)
    requires IsScalar(d.ty) && (init.Some? ==> TypedExpr(init.value, scope) && init.value.ty == d.ty)
    requires Inv(s, ret, open) && IsOpen(s) && s.cur in open && Mirrors(s.locals, scope)
    ensures Steps(s, LowerVar(s, d, init), ret, open)
  {
    hide Inv, Keeps, Moves, Later, CoerceTo, Mirrors, IrOf;
    var t := IrOf(d.ty);
    var i := Alloca(s.nextTemp, t);
    var s1 := Def(s, i);
    EmitKeeps(s, i, ret, open);
    KeepsOpen(s, s1, ret, open);
    var u: Low;
    if init.Some? {
      var (a, v) := LowerExpr(s1, init.value);
      var (b, c) := CoerceTo(a, v, t, init.value.ty);
      WidenedOk(s1, init.value, d.ty, scope, ret, open);
      MovesStore(s1, b, c, s.nextTemp, ret, open);
      u := Emit(b, Store(c, Temp(IPtr, s.nextTemp)));
    } else {
      StoreKeeps(s1, Const(t, 0), s.nextTemp, ret, open);
      u := Emit(s1, Store(Const(t, 0), Temp(IPtr, s.nextTemp)));
      KeepsMoves(s1, u, ret, open);
    }
    MovesOpen(s1, u, ret, open);
    SlotLater(s1.blocks, u.blocks, s.nextTemp);
    LaterTrans(s.blocks, s1.blocks, u.blocks);
    PushOk(u, Binding(d, s.nextTemp), ret, Swap(open, s.cur, u.cur));
  }

  lemma TargetOk(s: Low, target: Expr, scope: Scope, ret: IrTy, open: set<nat>)
    requires target.Name? && FindDecl(scope, target.name).Some? && TypedExpr(target, scope)
    requires Inv(s, ret, open) && Mirrors(s.locals, scope)
    ensures var (s1, a) := LowerAddr(s, target);
            s1 == s && a.Temp? && a.ty == IPtr && SlotOf(s.blocks, a.id) == Some(IrOf(target.ty)) && IsScalar(target.ty)
  {
    LocalsAgree(scope, s.locals, target.name);
  }

  lemma SetOk(s: Low, target: Expr, rhs: Expr, scope: Scope, ret: IrTy, open: set<nat>)
    requires TypedStmt(Assign(target, None, rhs), scope, Void, false)
    requires Inv(s, ret, open) && IsOpen(s) && s.cur in open && Mirrors(s.locals, scope)
    ensures Moves(s, LowerAssign(s, target, None, rhs), ret, open)
  {
    hide Inv, Keeps, Moves, Later, CoerceTo, Mirrors, IrOf, LowerAddr;
    var (s1, addr) := LowerAddr(s, target);
    TargetOk(s, target, scope, ret, open);
    var (a, v) := LowerExpr(s, rhs);
    var (b, c) := CoerceTo(a, v, IrOf(target.ty), rhs.ty);
    WidenedOk(s, rhs, target.ty, scope, ret, open);
    MovesStore(s, b, c, addr.id, ret, open);
  }

  /** The right side computed, combined with the current value and stored. */
  lemma OperateOk(s: Low, cur: Operand, slot: nat, t: Ty, op: BinOp, rhs: Expr, scope: Scope, ret: IrTy, open: set<nat>)
    requires TypedExpr(rhs, scope) && IsScalar(rhs.ty) && IsScalar(t) && cur.ty == IrOf(t)
             && SlotOf(s.blocks, slot) == Some(IrOf(t))
    requires Inv(s, ret, open) && IsOpen(s) && s.cur in open && Mirrors(s.locals, scope)
    ensures var (s2, v) := LowerExpr(s, rhs);
            var (s3, c) := CoerceTo(s2, v, IrOf(t), rhs.ty);
            var s4 := Def(s3, Bin(IntBinop(op, IsSigned(t)), s3.nextTemp, cur, c));
            Moves(s, Emit(s4, Store(Temp(IrOf(t), s3.nextTemp), Temp(IPtr, slot))), ret, open)
  {
    hide Inv, Keeps, Moves, Later, CoerceTo, Mirrors, IntBinop, IsOpen, SlotOf, Swap;
    var (s2, v) := LowerExpr(s, rhs);
    var (s3, c) := CoerceTo(s2, v, IrOf(t), rhs.ty);
    WidenedOk(s, rhs, t, scope, ret, open);
    IrOfScalar(t);
    MovesOpen(s, s3, ret, open);
    var i := Bin(IntBinop(op, IsSigned(t)), s3.nextTemp, cur, c);
    BinKeeps(s3, i.op, cur, c, ret, Swap(open, s.cur, s3.cur));
    MovesKeeps(s, s3, Def(s3, i), ret, open);
    MovesStore(s, Def(s3, i), Temp(IrOf(t), s3.nextTemp), slot, ret, open);
  }

  lemma UpdateOk(s: Low, target: Expr, op: BinOp, rhs: Expr, scope: Scope, ret: IrTy, open: set<nat>)
    requires TypedStmt(Assign(target, Some(op), rhs), scope, Void, false)
    requires Inv(s, ret, open) && IsOpen(s) && s.cur in open && Mirrors(s.locals, scope)
    ensures Moves(s, LowerAssign(s, target, Some(op), rhs), ret, open)
  {
    hide Inv, Keeps, Moves, Later, CoerceTo, Mirrors, LowerAddr, IntBinop, Width, IsOpen, SlotOf;
    var (s0, addr) := LowerAddr(s, target);
    TargetOk(s, target, scope, ret, open);
    var t := IrOf(target.ty);
    IrOfScalar(target.ty);
    var load := Load(s.nextTemp, t, addr);
    var s1 := Def(s, load);
    EmitKeeps(s, load, ret, open);
    KeepsOpen(s, s1, ret, open);
    SlotLater(s.blocks, s1.blocks, addr.id);
    OperateOk(s1, Temp(t, s.nextTemp), addr.id, target.ty, op, rhs, scope, ret, open);
    KeepsMoves(s, s1, ret, open);
    assert Swap(open, s.cur, s1.cur) == open;
    MovesTrans(s, s1, LowerAssign(s, target, Some(op), rhs), ret, open);
  }

  lemma ReturnValueOk(s: Low, e: Expr, scope: Scope, ret: Ty, open: set<nat>)
    requires TypedExpr(e, scope) && IsScalar(ret) && e.ty == ret
    requires Inv(s, IrOf(ret), open) && IsOpen(s) && s.cur in open && Mirrors(s.locals, scope)
    ensures var (a, v) := LowerExpr(s, e);
            var (b, c) := CoerceTo(a, v, IrOf(ret), ret);
            Steps(s, Emit(b, Ret(Some(c))), IrOf(ret), open)
  {
    hide Inv, Keeps, Moves, Later, CoerceTo, Mirrors, Steps, IrOf, IsOpen, Emit, TypedExpr, IsScalar;
    var (a, v) := LowerExpr(s, e);
    var (b, c) := CoerceTo(a, v, IrOf(ret), ret);
    WidenedOk(s, e, ret, scope, IrOf(ret), open);
    MovesOpen(s, b, IrOf(ret), open);
    MovesSteps(s, b, IrOf(ret), open);
    EmitEnds(b, Ret(Some(c)), IrOf(ret), Swap(open, s.cur, b.cur));
    EndsSteps(b, Emit(b, Ret(Some(c))), IrOf(ret), Swap(open, s.cur, b.cur));
    StepsTrans(s, b, Emit(b, Ret(Some(c))), IrOf(ret), open);
  }

  lemma ReturnOk(s: Low, result: Option<Expr>, scope: Scope, ret: Ty, open: set<nat>)
    requires TypedStmt(Return(result), scope, ret, false)
    requires Inv(s, IrOf(ret), open) && IsOpen(s) && s.cur in open && Mirrors(s.locals, scope)
    ensures Steps(s, LowerReturn(s, result, ret), IrOf(ret), open)
  {
    hide Inv, Keeps, Moves, Later, CoerceTo, Mirrors, Steps;
    if result.None? {
      EmitEnds(s, Ret(None), IrOf(ret), open);
      EndsSteps(s, Emit(s, Ret(None)), IrOf(ret), open);
    } else {
      ReturnValueOk(s, result.value, scope, ret, open);
    }
  }

  lemma JumpOk(s: Low, dest: nat, ret: IrTy, open: set<nat>)
    requires Inv(s, ret, open) && IsOpen(s) && s.cur in open && dest < |s.blocks|
    ensures Steps(s, Emit(s, Br(dest)), ret, open)
  {
    hide Inv, Later, Steps;
    EmitEnds(s, Br(dest), ret, open);
    EndsSteps(s, Emit(s, Br(dest)), ret, open);
  }

  lemma TypedTest(cond: Expr, scope: Scope)
    requires TypedCondition(cond, scope)
    ensures TypedExpr(cond, scope)
  {
  }

  /** The condition is computed and branched on; its block is closed. */
  lemma TestOk(s: Low, cond: Expr, yes: nat, no: nat, scope: Scope, ret: IrTy, open: set<nat>)
    requires TypedCondition(cond, scope) && Mirrors(s.locals, scope)
    requires Inv(s, ret, open) && IsOpen(s) && s.cur in open && yes < |s.blocks| && no < |s.blocks|
    ensures var t := LowerTest(s, cond, yes, no); Inv(t, ret, open - {s.cur}) && Later(s.blocks, t.blocks)
  {
    hide Inv, Keeps, Moves, Later, Mirrors, IsOpen, ToI1, TypedCondition, InstrOk, Swap;
    assert TypedExpr(cond, scope) by { TypedTest(cond, scope); }
    var (s1, v) := LowerExpr(s, cond);
    ExprOk(s, cond, scope, ret, open);
    MovesOpen(s, s1, ret, open);
    var (s2, i1) := ToI1(s1, v);
    I1Keeps(s1, v, IVoid, ret, Swap(open, s.cur, s1.cur));
    MovesKeeps(s, s1, s2, ret, open);
    MovesOpen(s, s2, ret, open);
    CondOk(s2.blocks, ret, i1, yes, no);
    EmitEnds(s2, CondBr(i1, yes, no), ret, Swap(open, s.cur, s2.cur));
    LaterTrans(s.blocks, s2.blocks, Emit(s2, CondBr(i1, yes, no)).blocks);
    SwapLeft(open, s.cur, s2.cur);
    InvWeaken(Emit(s2, CondBr(i1, yes, no)), ret, Swap(open, s.cur, s2.cur) - {s2.cur}, open - {s.cur});
  }

  lemma CondOk(f: Blocks, ret: IrTy, c: Operand, yes: nat, no: nat)
    requires c.ty == IInt(1) && yes < |f| && no < |f|
    ensures InstrOk(f, ret, CondBr(c, yes, no))
  {
  }

  lemma SwapLeft(open: set<nat>, a: nat, b: nat)
    ensures Swap(open, a, b) - {b} <= open - {a}
  {
  }

  // ---------------------------------------------------------- control flow

  /** The typing facts of a statement about to be lowered. */
  predicate Ready(s: Low, scope: Scope, inLoop: bool) {
    Mirrors(s.locals, scope) && (inLoop ==> s.loops != [])
  }

  lemma {:induction false} StmtOk(s: Low, st: Stmt, scope: Scope, ret: Ty, inLoop: bool, open: set<nat>)
    requires TypedStmt(st, scope, ret, inLoop) && Ready(s, scope, inLoop)
    requires Inv(s, IrOf(ret), open) && s.cur in open
    ensures Steps(s, LowerStmt(s, st, ret), IrOf(ret), open)
    decreases st, 2
  {
    hide Inv, Steps, Later, IsOpen, LowerOpen;
    EnsureOpenOk(s, IrOf(ret), open);
    var s1 := EnsureOpen(s);
    StepsOut(s, s1, IrOf(ret), open);
    OpenOk(s1, st, scope, ret, inLoop, Swap(open, s.cur, s1.cur));
    StepsTrans(s, s1, LowerStmt(s, st, ret), IrOf(ret), open);
  }

  lemma {:induction false} OpenOk(s: Low, st: Stmt, scope: Scope, ret: Ty, inLoop: bool, open: set<nat>)
    requires TypedStmt(st, scope, ret, inLoop) && Ready(s, scope, inLoop)
    requires Inv(s, IrOf(ret), open) && IsOpen(s) && s.cur in open
    ensures Steps(s, LowerOpen(s, st, ret), IrOf(ret), open)
    decreases st, 1
  {
    hide Inv, Steps, Moves, Later, IsOpen, Mirrors, LowerVar, LowerAssign, LowerReturn, LowerIf, LowerWhile,
        LowerMatch, LowerBlock;
    var t := LowerOpen(s, st, ret);
    match st
    case Block(ss) => BodyOk(s, ss, scope, ret, inLoop, open);
    case Var(d, init) => VarOk(s, d, init, scope, IrOf(ret), open);
    case Assign(target, op, rhs) =>
      if op.None? {
        SetOk(s, target, rhs, scope, IrOf(ret), open);
      } else {
        UpdateOk(s, target, op.value, rhs, scope, IrOf(ret), open);
      }
      MovesSteps(s, t, IrOf(ret), open);
    case ExprStmt(e) =>
      ExprOk(s, e, scope, IrOf(ret), open);
      MovesSteps(s, t, IrOf(ret), open);
    case Empty =>
      KeepsSelf(s, IrOf(ret), open);
      KeepsMoves(s, s, IrOf(ret), open);
      MovesSteps(s, s, IrOf(ret), open);
    case Return(e) => ReturnOk(s, e, scope, ret, open);
    case Break =>
      InLoopOk(s, IrOf(ret), open);
      JumpOk(s, s.loops[|s.loops| - 1].breakTo, IrOf(ret), open);
    case Continue =>
      InLoopOk(s, IrOf(ret), open);
      JumpOk(s, s.loops[|s.loops| - 1].continueTo, IrOf(ret), open);
    case If(_, _, _) => IfOk(s, st, scope, ret, inLoop, open);
    case While(_, _) => WhileOk(s, st, scope, ret, inLoop, open);
    case Match(_, _) => MatchOk(s, st, scope, ret, inLoop, open);
  }

  lemma InLoopOk(s: Low, ret: IrTy, open: set<nat>)
    requires Inv(s, ret, open) && s.loops != []
    ensures var l := s.loops[|s.loops| - 1]; l.breakTo < |s.blocks| && l.continueTo < |s.blocks|
  {
  }

  lemma {:induction false} BodyOk(s: Low, ss: seq<Stmt>, scope: Scope, ret: Ty, inLoop: bool, open: set<nat>)
    requires TypedSeq(ss, scope, ret, inLoop) && Ready(s, scope, inLoop)
    requires Inv(s, IrOf(ret), open) && s.cur in open
    ensures Steps(s, LowerBlock(s, ss, ret), IrOf(ret), open)
    decreases ss, 1
  {
    hide Inv, Later, LowerSeq;
    SeqOk(s, ss, scope, ret, inLoop, open);
    var s1 := LowerSeq(s, ss, ret);
    CutOk(s1, |s.locals|, IrOf(ret), Swap(open, s.cur, s1.cur));
  }

  lemma {:induction false} SeqOk(s: Low, ss: seq<Stmt>, scope: Scope, ret: Ty, inLoop: bool, open: set<nat>)
    requires TypedSeq(ss, scope, ret, inLoop) && Ready(s, scope, inLoop)
    requires Inv(s, IrOf(ret), open) && s.cur in open
    ensures Steps(s, LowerSeq(s, ss, ret), IrOf(ret), open)
    ensures Ready(LowerSeq(s, ss, ret), AfterSeq(ss, scope), inLoop)
    decreases ss, 0
  {
    hide Inv, Later, Steps, LowerStmt;
    if ss == [] {
      assert Swap(open, s.cur, s.cur) == open;
      SelfSteps(s, IrOf(ret), open);
    } else {
      var k := |ss| - 1;
      SeqOk(s, ss[..k], scope, ret, inLoop, open);
      var s1 := LowerSeq(s, ss[..k], ret);
      StepsOut(s, s1, IrOf(ret), open);
      StmtOk(s1, ss[k], AfterSeq(ss[..k], scope), ret, inLoop, Swap(open, s.cur, s1.cur));
      StepsTrans(s, s1, LowerSeq(s, ss, ret), IrOf(ret), open);
      ReadyAfter(s1, ss[k], AfterSeq(ss[..k], scope), ret, inLoop);
    }
  }

  lemma SelfSteps(s: Low, ret: IrTy, open: set<nat>)
    requires Inv(s, ret, open) && s.cur in open
    ensures Steps(s, s, ret, open)
  {
    assert Swap(open, s.cur, s.cur) == open;
  }

  lemma ReadyAfter(s: Low, st: Stmt, scope: Scope, ret: Ty, inLoop: bool)
    requires Ready(s, scope, inLoop) && TypedStmt(st, scope, ret, inLoop)
    ensures Ready(LowerStmt(s, st, ret), After(st, scope), inLoop)
  {
    hide LowerStmt, Within;
    StmtShapes(s, st, ret);
    TypedElse(st, scope, ret, inLoop);
    var t := LowerStmt(s, st, ret);
    if st.Var? {
      assert t.locals == s.locals + [t.locals[|s.locals|]];
    }
  }

  lemma {:induction false} TypedElse(st: Stmt, scope: Scope, ret: Ty, inLoop: bool)
    requires TypedStmt(st, scope, ret, inLoop)
    ensures ElseOk(st)
    decreases st
  {
    if st.If? && st.els.Some? && st.els.value.If? {
      TypedElse(st.els.value, scope, ret, inLoop);
    }
  }

  /** The arm of an `if` lowered into its own block `b` and joined to `end`. */
  lemma ArmDone(s: Low, t: Low, b: nat, end: nat, ret: IrTy, open: set<nat>)
    requires b < |s.blocks| && end < |t.blocks| && Steps(Position(s, b), t, ret, open) && b in open
    ensures Inv(Join(t, end), ret, open - {b}) && Later(s.blocks, Join(t, end).blocks)
  {
    hide Inv, Later;
    JoinOk(t, end, ret, Swap(open, b, t.cur));
    InvWeaken(Join(t, end), ret, Swap(open, b, t.cur) - {t.cur}, open - {b});
    LaterTrans(s.blocks, t.blocks, Join(t, end).blocks);
  }

  lemma IfBlocksOk(s: Low, hasElse: bool, ret: IrTy, open: set<nat>)
    requires Inv(s, ret, open) && IsOpen(s) && s.cur in open
    ensures var t := IfBlocks(s, hasElse); var b := |s.blocks|;
            && Inv(t, ret, open + (if hasElse then {b, b + 1, b + 2} else {b, b + 1}))
            && Later(s.blocks, t.blocks) && IsOpen(t) && t.cur == s.cur
  {
    hide Inv, Later;
    var b := |s.blocks|;
    var s1, s2 := NewBlock(s), NewBlock(NewBlock(s));
    AddBlock(s, ret, open);
    AddBlock(s1, ret, open + {b});
    LaterTrans(s.blocks, s1.blocks, s2.blocks);
    assert open + {b} + {b + 1} == open + {b, b + 1};
    if hasElse {
      AddBlock(s2, ret, open + {b, b + 1});
      LaterTrans(s.blocks, s2.blocks, NewBlock(s2).blocks);
      assert open + {b, b + 1} + {b + 2} == open + {b, b + 1, b + 2};
    }
  }

  /** After the condition: the builder's old block is closed. */
  lemma IfTested(s: Low, st: Stmt, scope: Scope, ret: IrTy, open: set<nat>)
    requires st.If? && TypedCondition(st.cond, scope) && Mirrors(s.locals, scope)
    requires Inv(s, ret, open) && IsOpen(s) && s.cur in open
    ensures var b := |s.blocks|; var t := LowerTest(IfBlocks(s, st.els.Some?), st.cond, b, b + 1);
            && Inv(t, ret, open - {s.cur} + (if st.els.Some? then {b, b + 1, b + 2} else {b, b + 1}))
            && Later(s.blocks, t.blocks)
            && t.locals == s.locals && t.loops == s.loops
  {
    hide Inv, Later, LowerTest, Mirrors;
    var b := |s.blocks|;
    var s0 := IfBlocks(s, st.els.Some?);
    var more := if st.els.Some? then {b, b + 1, b + 2} else {b, b + 1};
    IfBlocksOk(s, st.els.Some?, ret, open);
    TestOk(s0, st.cond, b, b + 1, scope, ret, open + more);
    TestShape(s0, st.cond, b, b + 1);
    var t := LowerTest(s0, st.cond, b, b + 1);
    LaterTrans(s.blocks, s0.blocks, t.blocks);
    InvWeaken(t, ret, open + more - {s.cur}, open - {s.cur} + more);
  }

  lemma TypedIf(st: Stmt, scope: Scope, ret: Ty, inLoop: bool)
    requires st.If? && TypedStmt(st, scope, ret, inLoop)
    ensures TypedCondition(st.cond, scope) && TypedSeq(st.thn, scope, ret, inLoop)
    ensures st.els.Some? ==> TypedStmt(st.els.value, scope, ret, inLoop)
  {
  }

  /** The first branch of an `if`, lowered into block `b` and joined to `end`. */
  lemma {:induction false} ThenOk(t: Low, b: nat, end: nat, ss: seq<Stmt>, scope: Scope, ret: Ty, inLoop: bool,
      open: set<nat>)
    requires TypedSeq(ss, scope, ret, inLoop) && Ready(t, scope, inLoop)
    requires b < |t.blocks| && end < |t.blocks| && b in open && Inv(t, IrOf(ret), open)
    ensures var u := Join(LowerBlock(Position(t, b), ss, ret), end);
            && Inv(u, IrOf(ret), open - {b}) && Later(t.blocks, u.blocks) && Ready(u, scope, inLoop)
            && |t.blocks| <= |u.blocks|
    decreases ss, 2
  {
    hide Inv, Later, Steps, LowerBlock, Mirrors, Join, IrOf;
    var p := Position(t, b);
    PositionInv(t, b, IrOf(ret), open);
    var body := LowerBlock(p, ss, ret);
    BodyOk(p, ss, scope, ret, inLoop, open);
    BlockShapes(p, ss, ret);
    ArmDone(t, body, b, end, IrOf(ret), open);
    JoinShape(body, end);
  }

  lemma {:induction false} IfOk(s: Low, st: Stmt, scope: Scope, ret: Ty, inLoop: bool, open: set<nat>)
    requires st.If? && TypedStmt(st, scope, ret, inLoop) && Ready(s, scope, inLoop)
    requires Inv(s, IrOf(ret), open) && IsOpen(s) && s.cur in open
    ensures Steps(s, LowerIf(s, st, ret), IrOf(ret), open)
    decreases st, 0
  {
    hide Inv, Later, Steps, LowerTest, LowerBlock, LowerStmt, Mirrors, Join, TypedExpr, TypedCondition, IsOpen, IrOf;
    hide TypedStmt, TypedSeq;
    TypedIf(st, scope, ret, inLoop);
    var b, r := |s.blocks|, IrOf(ret);
    var t := LowerTest(IfBlocks(s, st.els.Some?), st.cond, b, b + 1);
    IfTested(s, st, scope, r, open);
    var open1 := open - {s.cur} + (if st.els.Some? then {b, b + 1, b + 2} else {b, b + 1});
    var end := if st.els.Some? then b + 2 else b + 1;
    ThenOk(t, b, end, st.thn, scope, ret, inLoop, open1);
    var u := Join(LowerBlock(Position(t, b), st.thn, ret), end);
    LaterTrans(s.blocks, t.blocks, u.blocks);
    if st.els.Some? {
      var q := Position(u, b + 1);
      PositionInv(u, b + 1, r, open1 - {b});
      var other := LowerStmt(q, st.els.value, ret);
      StmtOk(q, st.els.value, scope, ret, inLoop, open1 - {b});
      ArmDone(u, other, b + 1, end, r, open1 - {b});
      LaterTrans(s.blocks, u.blocks, Join(other, end).blocks);
      EndLeft(open, s.cur, b, true);
      IfClosed(s, Join(other, end), end, r, open, open1 - {b} - {b + 1});
    } else {
      EndLeft(open, s.cur, b, false);
      IfClosed(s, u, end, r, open, open1 - {b});
    }
  }

  lemma EndLeft(open: set<nat>, c: nat, b: nat, hasElse: bool)
    ensures hasElse ==> open - {c} + {b, b + 1, b + 2} - {b} - {b + 1} <= open - {c} + {b + 2}
    ensures !hasElse ==> open - {c} + {b, b + 1} - {b} <= open - {c} + {b + 1}
  {
  }

  lemma IfClosed(s: Low, t: Low, end: nat, ret: IrTy, open: set<nat>, left: set<nat>)
    requires Inv(t, ret, left) && Later(s.blocks, t.blocks) && end < |t.blocks| && left <= open - {s.cur} + {end}
    ensures Steps(s, Position(t, end), ret, open)
  {
    PositionInv(t, end, ret, left);
    InvWeaken(Position(t, end), ret, left, open - {s.cur} + {end});
  }

  /** Up to the body of a `while`: the condition's block is closed too. */
  lemma WhileEntered(s: Low, cond: Expr, scope: Scope, ret: IrTy, open: set<nat>)
    requires TypedCondition(cond, scope) && Mirrors(s.locals, scope)
    requires Inv(s, ret, open) && IsOpen(s) && s.cur in open
    ensures var b := |s.blocks|; var t := EnterWhile(s, cond);
            Inv(t, ret, open - {s.cur} + {b + 1, b + 2}) && Later(s.blocks, t.blocks)
  {
    hide Inv, Later, LowerTest, Mirrors;
    var b := |s.blocks|;
    var s0 := NewBlock(NewBlock(NewBlock(s)));
    IfBlocksOk(s, true, ret, open);
    var open0 := open + {b, b + 1, b + 2};
    var s1 := Emit(s0, Br(b));
    EmitEnds(s0, Br(b), ret, open0);
    var p := Position(s1, b);
    PositionInv(s1, b, ret, open0 - {s.cur});
    TestOk(p, cond, b + 1, b + 2, scope, ret, open0 - {s.cur});
    TestShape(p, cond, b + 1, b + 2);
    var s2 := LowerTest(p, cond, b + 1, b + 2);
    LaterTrans(s.blocks, s0.blocks, s1.blocks);
    LaterTrans(s.blocks, s1.blocks, s2.blocks);
    InvWeaken(s2, ret, open0 - {s.cur} - {b}, open - {s.cur} + {b + 1, b + 2});
    LoopsGrow(s2, b, ret, open - {s.cur} + {b + 1, b + 2});
    LoopOk(s2, s2.loops + [Loop(b, b + 2)], ret, open - {s.cur} + {b + 1, b + 2});
    PositionInv(s2.(loops := s2.loops + [Loop(b, b + 2)]), b + 1, ret, open - {s.cur} + {b + 1, b + 2});
  }

  lemma LoopsGrow(s: Low, b: nat, ret: IrTy, open: set<nat>)
    requires Inv(s, ret, open) && b + 2 < |s.blocks|
    ensures LoopsOk(|s.blocks|, s.loops + [Loop(b, b + 2)])
  {
  }

  lemma {:induction false} WhileOk(s: Low, st: Stmt, scope: Scope, ret: Ty, inLoop: bool, open: set<nat>)
    requires st.While? && TypedStmt(st, scope, ret, inLoop) && Ready(s, scope, inLoop)
    requires Inv(s, IrOf(ret), open) && IsOpen(s) && s.cur in open
    ensures Steps(s, LowerWhile(s, st, ret), IrOf(ret), open)
    decreases st, 0
  {
    hide Inv, Later, Steps, EnterWhile, LowerBlock, Mirrors, Join;
    var b, r := |s.blocks|, IrOf(ret);
    var t := EnterWhile(s, st.cond);
    WhileEntered(s, st.cond, scope, r, open);
    EnterWhileShape(s, st.cond);
    var open1 := open - {s.cur} + {b + 1, b + 2};
    var body := LowerBlock(t, st.body, ret);
    BodyOk(t, st.body, scope, ret, true, open1);
    BlockShapes(t, st.body, ret);
    ArmDone(t, body, b + 1, b, r, open1);
    var u := Join(body, b);
    JoinShape(body, b);
    LoopsShrink(u, s.loops, Loop(b, b + 2), r, open1 - {b + 1});
    LoopOk(u, s.loops, r, open1 - {b + 1});
    LaterTrans(s.blocks, t.blocks, u.blocks);
    assert Cut(u.loops, |u.loops| - 1) == s.loops;
    IfClosed(s, u.(loops := s.loops), b + 2, r, open, open1 - {b + 1});
  }

  lemma LoopsShrink(s: Low, loops: seq<Loop>, l: Loop, ret: IrTy, open: set<nat>)
    requires Inv(s, ret, open) && s.loops == loops + [l]
    ensures LoopsOk(|s.blocks|, loops)
  {
    forall i | 0 <= i < |loops| ensures loops[i].continueTo < |s.blocks| && loops[i].breakTo < |s.blocks| {
      assert s.loops[i] == loops[i];
    }
  }

  // ------------------------------------------------------------------- match

  lemma TypedMatch(st: Stmt, scope: Scope, ret: Ty, inLoop: bool)
    requires st.Match? && TypedStmt(st, scope, ret, inLoop)
    ensures TypedExpr(st.scrutinee, scope) && IsIntLike(st.scrutinee.ty) && IsScalar(st.scrutinee.ty)
    ensures TypedArms(st.arms, st.scrutinee.ty, scope, ret, inLoop)
  {
  }

  lemma {:induction false} MatchOk(s: Low, st: Stmt, scope: Scope, ret: Ty, inLoop: bool, open: set<nat>)
    requires st.Match? && TypedStmt(st, scope, ret, inLoop) && Ready(s, scope, inLoop)
    requires Inv(s, IrOf(ret), open) && IsOpen(s) && s.cur in open
    ensures Steps(s, LowerMatch(s, st, ret), IrOf(ret), open)
    decreases st, 0
  {
    hide Inv, Later, Steps, Moves, LowerArms, Mirrors, TypedLabel, IrOf, HasType, TypedStmt, TypedExpr, TypedArms;
    hide LowerExpr;
    TypedMatch(st, scope, ret, inLoop);
    var r := IrOf(ret);
    var (s1, v) := LowerExpr(s, st.scrutinee);
    ExprOk(s, st.scrutinee, scope, r, open);
    ExprShape(s, st.scrutinee);
    ExprType(s, st.scrutinee, scope);
    MovesOpen(s, s1, r, open);
    var open1 := Swap(open, s.cur, s1.cur);
    var end := |s1.blocks|;
    var s0 := NewBlock(s1);
    AddBlock(s1, r, open1);
    var (s2, wild) := LowerArms(s0, st.arms, v, end, ret);
    ArmsOk(s0, st.arms, v, st.scrutinee.ty, end, scope, ret, inLoop, open1 + {end});
    ArmsShapes(s0, st.arms, v, end, ret);
    MovesOpen(s0, s2, r, open1 + {end});
    var dest := if wild.Some? then wild.value else end;
    EmitEnds(s2, Br(dest), r, Swap(open1 + {end}, s1.cur, s2.cur));
    LaterTrans(s.blocks, s1.blocks, s0.blocks);
    LaterTrans(s.blocks, s0.blocks, s2.blocks);
    LaterTrans(s.blocks, s2.blocks, Emit(s2, Br(dest)).blocks);
    IfClosed(s, Emit(s2, Br(dest)), end, r, open, Swap(open1 + {end}, s1.cur, s2.cur) - {s2.cur});
  }

  predicate TypedArms(arms: seq<Arm>, t: Ty, scope: Scope, ret: Ty, inLoop: bool) {
    forall i :: 0 <= i < |arms| ==> TypedArm(arms[i], t, scope, ret, inLoop)
  }

  predicate TypedArm(arm: Arm, t: Ty, scope: Scope, ret: Ty, inLoop: bool) {
    && TypedStmt(arm.body, scope, ret, inLoop)
    && forall j :: 0 <= j < |arm.labels| ==> TypedLabel(arm.labels[j], t, scope)
  }

  lemma {:induction false} ArmsOk(s: Low, arms: seq<Arm>, v: Operand, t: Ty, end: nat, scope: Scope, ret: Ty,
      inLoop: bool, open: set<nat>)
    requires TypedArms(arms, t, scope, ret, inLoop) && IsIntLike(t) && HasType(v, t) && Ready(s, scope, inLoop)
             && end < |s.blocks|
    requires Inv(s, IrOf(ret), open) && IsOpen(s) && s.cur in open
    ensures Moves(s, LowerArms(s, arms, v, end, ret).0, IrOf(ret), open)
    decreases arms, 0
  {
    hide Inv, Later, Moves, LowerArm, Mirrors, Swap, IrOf, TypedArm, HasType, Ready, HasWildcard;
    hide IsIntLike, IsOpen, Shape, Within, TypedArms;
    if arms == [] {
      KeepsSelf(s, IrOf(ret), open);
      KeepsMoves(s, s, IrOf(ret), open);
    } else {
      var k := |arms| - 1;
      ArmsSplit(arms, t, scope, ret, inLoop);
      ArmsOk(s, arms[..k], v, t, end, scope, ret, inLoop, open);
      var s1 := LowerArms(s, arms[..k], v, end, ret).0;
      ArmsFrame(s, arms[..k], v, end, scope, ret, inLoop);
      MovesOpen(s, s1, IrOf(ret), open);
      ArmOk(s1, arms[k], v, t, end, scope, ret, inLoop, Swap(open, s.cur, s1.cur));
      MovesTrans(s, s1, LowerArm(s1, arms[k], v, end, ret), IrOf(ret), open);
    }
  }

  lemma ArmsSplit(arms: seq<Arm>, t: Ty, scope: Scope, ret: Ty, inLoop: bool)
    requires arms != [] && TypedArms(arms, t, scope, ret, inLoop)
    ensures TypedArms(arms[..|arms| - 1], t, scope, ret, inLoop) && TypedArm(arms[|arms| - 1], t, scope, ret, inLoop)
  {
  }

  lemma ArmsFrame(s: Low, arms: seq<Arm>, v: Operand, end: nat, scope: Scope, ret: Ty, inLoop: bool)
    requires Ready(s, scope, inLoop)
    ensures Ready(LowerArms(s, arms, v, end, ret).0, scope, inLoop)
  {
    hide LowerArms, Shape;
    ArmsShapes(s, arms, v, end, ret);
  }

  /** What the body of an arm leaves behind, back on the chain. */
  lemma ArmClosed(s: Low, s2: Low, u: Low, b: nat, n: nat, ret: IrTy, open: set<nat>, left: set<nat>)
    requires Inv(u, ret, left) && left <= Swap(open, s.cur, s2.cur) && s2.cur < |u.blocks|
    requires Later(s.blocks, u.blocks) && u.blocks[s2.cur] == s2.blocks[s2.cur] && IsOpen(s2)
             && Cut(u.locals, n) == s.locals
    ensures Moves(s, Position(u.(locals := Cut(u.locals, n)), s2.cur), ret, open)
  {
    hide Later, Cut;
    CutOk(u, n, ret, left);
    var w := u.(locals := Cut(u.locals, n));
    PositionInv(w, s2.cur, ret, left);
    InvWeaken(Position(w, s2.cur), ret, left, Swap(open, s.cur, s2.cur));
  }

  lemma {:induction false} ArmOk(s: Low, arm: Arm, v: Operand, t: Ty, end: nat, scope: Scope, ret: Ty, inLoop: bool,
      open: set<nat>)
    requires TypedArm(arm, t, scope, ret, inLoop) && IsIntLike(t) && HasType(v, t) && Ready(s, scope, inLoop)
             && end < |s.blocks|
    requires Inv(s, IrOf(ret), open) && IsOpen(s) && s.cur in open
    ensures Moves(s, LowerArm(s, arm, v, end, ret), IrOf(ret), open)
    decreases arm, 0
  {
    hide Inv, Later, Steps, Moves, LowerStmt, LowerLabels, Join, Mirrors, IrOf, HasType, TypedLabel, Swap, IsOpen;
    hide HasWildcard, IsIntLike, Cut;
    var b, r := |s.blocks|, IrOf(ret);
    var s1 := NewBlock(s);
    AddBlock(s, r, open);
    OpenSame(s, s1);
    var s2 := if HasWildcard(arm.labels) then s1 else LowerLabels(s1, arm.labels, v, b);
    ChainOk(s1, arm, v, t, b, scope, r, open + {b});
    ChainFrame(s1, arm, v, b);
    MovesOpen(s1, s2, r, open + {b});
    var open2 := Swap(open + {b}, s.cur, s2.cur);
    SwapHas(open, b, s.cur, s2.cur);
    var p := Position(s2, b);
    PositionInv(s2, b, r, open2);
    var body := LowerStmt(p, arm.body, ret);
    StmtOk(p, arm.body, scope, ret, inLoop, open2);
    BodyFrame(s2, arm.body, b, end, ret);
    ArmDone(s2, body, b, end, r, open2);
    var u := Join(body, end);
    LaterTrans(s.blocks, s1.blocks, s2.blocks);
    LaterTrans(s.blocks, s2.blocks, u.blocks);
    ArmClosed(s, s2, u, b, |s2.locals|, r, open, open2 - {b});
  }

  lemma OpenSame(s: Low, t: Low)
    requires IsOpen(s) && t.blocks[t.cur] == s.blocks[s.cur]
    ensures IsOpen(t)
  {
  }

  lemma SwapHas(open: set<nat>, b: nat, a: nat, c: nat)
    requires b != a && b != c && a != b
    ensures b in Swap(open + {b}, a, c) && Swap(open + {b}, a, c) - {b} <= Swap(open, a, c)
  {
  }

  lemma ChainOk(s: Low, arm: Arm, v: Operand, t: Ty, b: nat, scope: Scope, ret: IrTy, open: set<nat>)
    requires forall j :: 0 <= j < |arm.labels| ==> TypedLabel(arm.labels[j], t, scope)
    requires IsIntLike(t) && HasType(v, t) && Mirrors(s.locals, scope) && b < |s.blocks|
    requires Inv(s, ret, open) && IsOpen(s) && s.cur in open
    ensures Moves(s, if HasWildcard(arm.labels) then s else LowerLabels(s, arm.labels, v, b), ret, open)
  {
    hide Inv, Moves, LowerLabels;
    if HasWildcard(arm.labels) {
      KeepsSelf(s, ret, open);
      KeepsMoves(s, s, ret, open);
    } else {
      LabelsOk(s, arm.labels, v, t, b, scope, ret, open);
    }
  }

  lemma {:induction false} LabelsOk(s: Low, labels: seq<Label>, v: Operand, t: Ty, body: nat, scope: Scope, ret: IrTy,
      open: set<nat>)
    requires forall j :: 0 <= j < |labels| ==> TypedLabel(labels[j], t, scope)
    requires IsIntLike(t) && HasType(v, t) && Mirrors(s.locals, scope) && body < |s.blocks|
    requires Inv(s, ret, open) && IsOpen(s) && s.cur in open
    ensures Moves(s, LowerLabels(s, labels, v, body), ret, open)
    decreases labels
  {
    hide Inv, Moves, LowerLabel, TypedLabel, HasType, Mirrors, Swap;
    if labels == [] {
      KeepsSelf(s, ret, open);
      KeepsMoves(s, s, ret, open);
    } else {
      var k := |labels| - 1;
      LabelsOk(s, labels[..k], v, t, body, scope, ret, open);
      LabelsShapes(s, labels[..k], v, body);
      var s1 := LowerLabels(s, labels[..k], v, body);
      MovesOpen(s, s1, ret, open);
      LabelOk(s1, labels[k], v, t, body, scope, ret, Swap(open, s.cur, s1.cur));
      MovesTrans(s, s1, LowerLabel(s1, labels[k], v, body), ret, open);
    }
  }

  lemma LabelTyped(l: Label, t: Ty, scope: Scope)
    requires TypedLabel(l, t, scope) && IsIntLike(t) && l.Value?
    ensures TypedExpr(l.expr, scope) && IsScalar(l.expr.ty) && IrOf(l.expr.ty) == IrOf(t)
  {
    IrOfScalar(t);
    IrOfScalar(l.expr.ty);
  }

  lemma LabelOk(s: Low, l: Label, v: Operand, t: Ty, body: nat, scope: Scope, ret: IrTy, open: set<nat>)
    requires TypedLabel(l, t, scope) && IsIntLike(t) && HasType(v, t) && Mirrors(s.locals, scope) && body < |s.blocks|
    requires Inv(s, ret, open) && IsOpen(s) && s.cur in open
    ensures Moves(s, LowerLabel(s, l, v, body), ret, open)
  {
    hide Inv, Moves, Keeps, Later, TypedLabel, Mirrors, IsOpen, IrOf, MemberValue, FindDecl, LowerExpr, TypedExpr;
    if l.Wildcard? {
      KeepsSelf(s, ret, open);
      KeepsMoves(s, s, ret, open);
    } else {
      LabelTyped(l, t, scope);
      var next := |s.blocks|;
      var s0 := NewBlock(s);
      AddBlock(s, ret, open);
      assert IsOpen(s0) by { OpenSame(s, s0); }
      var (s1, w) := LowerExpr(s0, l.expr);
      ExprOk(s0, l.expr, scope, ret, open + {next});
      ExprShape(s0, l.expr);
      ExprType(s0, l.expr, scope);
      MovesOpen(s0, s1, ret, open + {next});
      var open1 := Swap(open + {next}, s.cur, s1.cur);
      var i := Icmp(PEq, s1.nextTemp, v, w);
      EmitKeeps(s1, i, ret, open1);
      var s2 := Def(s1, i);
      KeepsOpen(s1, s2, ret, open1);
      var c := CondBr(Temp(IInt(1), s1.nextTemp), body, next);
      EmitEnds(s2, c, ret, open1);
      LaterTrans(s.blocks, s0.blocks, s1.blocks);
      LaterTrans(s.blocks, s1.blocks, s2.blocks);
      LaterTrans(s.blocks, s2.blocks, Emit(s2, c).blocks);
      assert s1.blocks[next] == [];
      NextOpen(s, Emit(s2, c), next, ret, open, open1 - {s1.cur});
    }
  }

  lemma NextOpen(s: Low, t: Low, next: nat, ret: IrTy, open: set<nat>, left: set<nat>)
    requires Inv(t, ret, left) && next < |t.blocks| && t.blocks[next] == [] && left <= Swap(open, s.cur, next)
    requires Later(s.blocks, t.blocks) && t.locals == s.locals
    ensures Moves(s, Position(t, next), ret, open)
  {
    PositionInv(t, next, ret, left);
    InvWeaken(Position(t, next), ret, left, Swap(open, s.cur, next));
  }

  // --------------------------------------------------------------- functions

  lemma {:induction false} ParamsOk(s: Low, params: seq<Decl>, ret: IrTy)
    requires Inv(s, ret, {s.cur}) && IsOpen(s) && s.locals == []
    ensures var t := LowerParams(s, params);
            Inv(t, ret, {s.cur}) && IsOpen(t) && t.cur == s.cur && Mirrors(t.locals, params) && t.loops == s.loops
    decreases |params|
  {
    hide Inv, Keeps, Later, IrOf, IsOpen;
    if params != [] {
      var k := |params| - 1;
      ParamsOk(s, params[..k], ret);
      var s1 := LowerParams(s, params[..k]);
      var t := IrOf(params[k].ty);
      EmitKeeps(s1, Alloca(s1.nextTemp, t), ret, {s.cur});
      var s2 := Def(s1, Alloca(s1.nextTemp, t));
      KeepsOpen(s1, s2, ret, {s.cur});
      StoreKeeps(s2, Temp(t, k), s1.nextTemp, ret, {s.cur});
      var s3 := Emit(s2, Store(Temp(t, k), Temp(IPtr, s1.nextTemp)));
      KeepsOpen(s2, s3, ret, {s.cur});
      SlotLater(s2.blocks, s3.blocks, s1.nextTemp);
      PushOk(s3, Binding(params[k], s1.nextTemp), ret, {s.cur});
      OpenSame(s3, LowerParams(s, params));
    }
  }

  lemma AllSealed(s: Low, ret: IrTy)
    requires Inv(s, ret, {})
    ensures Problems(s.blocks, ret) == 0 && s.errors == 0
  {
    Clean(s.blocks, ret);
    forall j | 0 <= j < |s.blocks|
      ensures EndsOnce(s.blocks[j]) && forall k :: 0 <= k < |s.blocks[j]| ==>
              InstrProblems(s.blocks, ret, s.blocks[j][k]) == 0
    {
      var b := s.blocks[j];
      assert BlockOk(s.blocks, ret, s.nextTemp, b) && Terminated(b);
      forall k | 0 <= k < |b| ensures InstrProblems(s.blocks, ret, b[k]) == 0 && (k < |b| - 1 ==> !IsTerminator(b[k])) {
        assert InstrOk(s.blocks, ret, b[k]);
      }
    }
  }

  lemma EndsClean(s: Low, i: Instr, ret: IrTy, c: nat)
    requires Inv(s, ret, {s.cur}) && IsOpen(s) && IsTerminator(i) && InstrOk(s.blocks, ret, i)
    ensures Problems(Emit(s, i).blocks, ret) == 0 && Emit(s, i).errors == 0
  {
    hide Later, Ok, Sealed;
    EmitEnds(s, i, ret, {s.cur});
    assert {s.cur} - {s.cur} == {};
    AllSealed(Emit(s, i), ret);
  }

  /** Lowering a checked function reports no error, and the verifier finds
      nothing wrong with what it produced. */
  lemma LoweredClean(fn: FnDecl)
    requires TypedFn(fn)
    ensures LowerFunction(fn).errors == 0
    ensures Problems(LowerFunction(fn).blocks, IrOf(fn.ret)) == 0
  {
    hide LowerBlock, LowerParams, Later, Mirrors;
    var r := IrOf(fn.ret);
    var s := Entry(fn);
    assert Inv(s, r, {0});
    ParamsOk(s, fn.params, r);
    var p := LowerParams(s, fn.params);
    BodyOk(p, fn.body, fn.params, fn.ret, false, {0});
    var t := Body(fn);
    assert Swap({0}, 0, t.cur) == {t.cur};
    if IsOpen(t) {
      EndsClean(t, if fn.ret.Void? then Ret(None) else Unreachable, r, 0);
    } else {
      AllSealed(t, r);
    }
  }
}
