/** Return reachability on the generated code: when sema's check accepts a body,
    no path through the blocks leads from the entry to the `unreachable` that
    lowering puts at the end. */
module CfgReach {
  import opened Words
  import opened Types
  import opened Tree
  import opened Ir
  import opened Lowering
  import opened LoweringShape
  import opened Reachability

  // ------------------------------------------------------------------- paths

  predicate Leads(b: seq<Instr>, d: nat) {
    exists k :: 0 <= k < |b| && ((b[k].Br? && b[k].dest == d) || (b[k].CondBr? && (b[k].dest == d || b[k].dest2 == d)))
  }

  /** A path through the blocks, starting at the entry block. */
  predicate Path(f: Blocks, p: seq<nat>) {
    && p != [] && p[0] == 0
    && (forall k :: 0 <= k < |p| ==> p[k] < |f|)
    && (forall k :: 0 <= k < |p| - 1 ==> Leads(f[p[k]], p[k + 1]))
  }

  // ---------------------------------------------------------------- invariant

  /** The instruction stays within the blocks `live`. */
  predicate Stays(i: Instr, live: set<nat>) {
    && !i.Unreachable?
    && (i.Br? ==> i.dest in live)
    && (i.CondBr? ==> i.dest in live && i.dest2 in live)
  }

  /** No jump leaves the blocks `live`, and none of them is `unreachable`. */
  predicate Closed(f: Blocks, live: set<nat>) {
    forall j :: j in live ==> j < |f| && forall k :: 0 <= k < |f[j]| ==> Stays(f[j][k], live)
  }

  predicate Live(s: Low, live: set<nat>) {
    s.cur in live && IsOpen(s)
  }

  predicate JumpsIn(loops: seq<Loop>, live: set<nat>) {
    forall k :: 0 <= k < |loops| ==> loops[k].continueTo in live && loops[k].breakTo in live
  }

  /** Blocks `n` up to `m`. */
  function Fresh(n: nat, m: nat): set<nat> {
    set x: nat | x < m && From(n, x)
  }

  predicate From(n: nat, x: nat) {
    n <= x
  }

  lemma StaysMore(i: Instr, live: set<nat>, more: set<nat>)
    requires Stays(i, live) && live <= more
    ensures Stays(i, more)
  {
  }

  lemma EmitIn(s: Low, i: Instr, live: set<nat>)
    requires Closed(s.blocks, live) && (s.cur in live ==> Stays(i, live))
    ensures Closed(Emit(s, i).blocks, live)
  {
    hide Stays;
    var t := Emit(s, i);
    forall j | j in live ensures j < |t.blocks| && forall k :: 0 <= k < |t.blocks[j]| ==> Stays(t.blocks[j][k], live) {
      assert j < |s.blocks|;
    }
  }

  lemma AddLive(s: Low, live: set<nat>)
    requires Closed(s.blocks, live)
    ensures Closed(NewBlock(s).blocks, live + {|s.blocks|}) && Closed(NewBlock(s).blocks, live)
  {
    hide Stays;
    var t := NewBlock(s);
    forall j, k | j in live && 0 <= k < |s.blocks[j]| ensures Stays(s.blocks[j][k], live + {|s.blocks|}) {
      StaysMore(s.blocks[j][k], live, live + {|s.blocks|});
    }
  }

  /** More live blocks, all of them with code that stays inside. */
  lemma MoreLive(f: Blocks, live: set<nat>, d: nat)
    requires Closed(f, live) && d < |f| && f[d] == []
    ensures Closed(f, live + {d})
  {
    hide Stays;
    forall j, k | j in live && 0 <= k < |f[j]| ensures Stays(f[j][k], live + {d}) {
      StaysMore(f[j][k], live, live + {d});
    }
  }

  // ------------------------------------------------------------- expressions

  /** Code whose jumps go to blocks of its own. */
  predicate Inside(s: Low, t: Low, live: set<nat>) {
    |s.blocks| <= |t.blocks| && Closed(t.blocks, live + Fresh(|s.blocks|, |t.blocks|))
  }

  lemma EmitPlain(s: Low, i: Instr, live: set<nat>)
    requires Closed(s.blocks, live) && !IsTerminator(i)
    ensures Closed(Emit(s, i).blocks, live) && Closed(Def(s, i).blocks, live)
  {
    EmitIn(s, i, live);
  }

  lemma CoerceIn(s: Low, v: Operand, want: IrTy, from: Ty, live: set<nat>)
    requires Closed(s.blocks, live)
    ensures Closed(CoerceTo(s, v, want, from).0.blocks, live)
  {
    hide Closed;
    forall i | !IsTerminator(i) ensures Closed(Def(s, i).blocks, live) {
      EmitPlain(s, i, live);
    }
  }

  lemma I1In(s: Low, v: Operand, want: IrTy, live: set<nat>)
    requires Closed(s.blocks, live)
    ensures Closed(ToI1(s, v).0.blocks, live) && Closed(FromI1(s, v, want).0.blocks, live)
  {
    hide Closed;
    forall i | !IsTerminator(i) ensures Closed(Def(s, i).blocks, live) {
      EmitPlain(s, i, live);
    }
  }

  lemma NameIn(s: Low, x: string, t: Ty, live: set<nat>)
    requires Closed(s.blocks, live)
    ensures Closed(LowerName(s, x, t).0.blocks, live)
  {
    hide Closed, IrOf, MemberValue;
    forall i | !IsTerminator(i) ensures Closed(Def(s, i).blocks, live) {
      EmitPlain(s, i, live);
    }
  }

  lemma UnaryIn(s: Low, op: UnOp, v: Operand, t: Ty, live: set<nat>)
    requires Closed(s.blocks, live)
    ensures Closed(FinishUnary(s, op, v, t).0.blocks, live)
  {
    hide Closed, FromI1, IrOf;
    forall i | !IsTerminator(i) ensures Closed(Def(s, i).blocks, live) {
      EmitPlain(s, i, live);
    }
    if op.LogNot? {
      I1In(Def(s, Icmp(PEq, s.nextTemp, v, Const(v.ty, 0))), Temp(IInt(1), s.nextTemp), IrOf(t), live);
    }
  }

  lemma BinaryIn(s: Low, op: BinOp, l: Operand, r: Operand, lt: Ty, rt: Ty, t: Ty, live: set<nat>)
    requires Closed(s.blocks, live)
    ensures Closed(FinishBinary(s, op, l, r, lt, rt, t).0.blocks, live)
  {
    hide Closed, FromI1, IrOf, CoerceTo, IntPred, IntBinop, IsSigned, IsUntyped;
    CoerceIn(s, l, r.ty, lt, live);
    CoerceIn(s, r, l.ty, rt, live);
    var Balanced(s1, l1, r1) := Balance(s, l, r, lt, rt);
    forall i | !IsTerminator(i) ensures Closed(Def(s1, i).blocks, live) {
      EmitPlain(s1, i, live);
    }
    var i := Icmp(IntPred(op, IsSigned(lt)), s1.nextTemp, l1, r1);
    I1In(Def(s1, i), Temp(IInt(1), s1.nextTemp), IrOf(t), live);
  }

  lemma CallIn(s: Low, f: Fn, vs: seq<Operand>, live: set<nat>)
    requires Closed(s.blocks, live)
    ensures Closed(FinishCall(s, f, vs).0.blocks, live)
  {
    hide Closed, IrOf;
    EmitPlain(s, CallI(0, f, vs), live);
    EmitPlain(s, CallI(s.nextTemp, f, vs), live);
  }

  lemma InsideTrans(s: Low, t: Low, u: Low, live: set<nat>)
    requires Inside(s, t, live) && Inside(t, u, live + Fresh(|s.blocks|, |t.blocks|))
    ensures Inside(s, u, live)
  {
    assert live + Fresh(|s.blocks|, |t.blocks|) + Fresh(|t.blocks|, |u.blocks|) == live + Fresh(|s.blocks|, |u.blocks|);
  }

  lemma InsideSame(s: Low, t: Low, u: Low, live: set<nat>)
    requires Inside(s, t, live) && |u.blocks| == |t.blocks|
    requires Closed(t.blocks, live + Fresh(|s.blocks|, |t.blocks|)) ==>
             Closed(u.blocks, live + Fresh(|s.blocks|, |t.blocks|))
    ensures Inside(s, u, live)
  {
  }

  lemma {:induction false} ExprIn(s: Low, e: Expr, live: set<nat>)
    requires Closed(s.blocks, live)
    ensures Inside(s, LowerExpr(s, e).0, live)
    decreases e, 1
  {
    hide Closed, FinishUnary, FinishBinary, FinishCall, LowerName, CoerceTo, BeginLogical, BranchLogical, FinishLogical;
    assert live + Fresh(|s.blocks|, |s.blocks|) == live;
    match e
    case Int(_, _) =>
    case Bool(_, _) =>
    case Name(x, t) =>
      NameIn(s, x, t, live);
    case Unary(op, e1, t) =>
      var (s1, v) := LowerExpr(s, e1);
      ExprIn(s, e1, live);
      UnaryIn(s1, op, v, t, live + Fresh(|s.blocks|, |s1.blocks|));
    case Conv(e1, t) =>
      var (s1, v) := LowerExpr(s, e1);
      ExprIn(s, e1, live);
      CoerceIn(s1, v, IrOf(t), e1.ty, live + Fresh(|s.blocks|, |s1.blocks|));
      ConvSize(s1, v, e1.ty, t);
    case Call(f, args, t) =>
      var (s1, vs) := LowerArgs(s, f, args);
      ArgsIn(s, f, args, live);
      CallIn(s1, f, vs, live + Fresh(|s.blocks|, |s1.blocks|));
    case Binary(op, l, r, t) =>
      if IsLogical(op) {
        LogicalIn(s, e, live);
      } else {
        var (s1, lhs) := LowerExpr(s, l);
        var (s2, rhs) := LowerExpr(s1, r);
        ExprIn(s, l, live);
        ExprIn(s1, r, live + Fresh(|s.blocks|, |s1.blocks|));
        InsideTrans(s, s1, s2, live);
        BinaryIn(s2, op, lhs, rhs, l.ty, r.ty, t, live + Fresh(|s.blocks|, |s2.blocks|));
      }
  }

  /** A conversion adds instructions, never blocks. */
  lemma ConvSize(s: Low, v: Operand, from: Ty, to: Ty)
    ensures |LowerConversion(s, v, from, to).0.blocks| == |s.blocks|
    ensures |CoerceTo(s, v, IrOf(to), from).0.blocks| == |s.blocks|
  {
  }

  /** Both blocks of a logical operator are live. */
  lemma {:induction false} LogicalIn(s: Low, e: Expr, live: set<nat>)
    requires e.Binary? && IsLogical(e.bop) && Closed(s.blocks, live)
    ensures Inside(s, LowerExpr(s, e).0, live)
    decreases e, 0
  {
    hide Closed, BeginLogical, BranchLogical, FinishLogical;
    var b := |s.blocks|;
    var s0 := BeginLogical(s, e.ty);
    BeginIn(s, e.ty, live);
    var (s1, lhs) := LowerExpr(s0, e.lhs);
    ExprIn(s0, e.lhs, live + Fresh(b, b + 2));
    InsideTrans(s, s0, s1, live);
    var s2 := BranchLogical(s1, e.bop, lhs, e.lhs.ty, e.ty, s.nextTemp, b);
    BranchIn(s1, e.bop, lhs, e.lhs.ty, e.ty, s.nextTemp, b, live + Fresh(b, |s1.blocks|));
    InsideSame(s, s1, s2, live);
    var (s3, rhs) := LowerExpr(s2, e.rhs);
    ExprIn(s2, e.rhs, live + Fresh(b, |s2.blocks|));
    InsideTrans(s, s2, s3, live);
    FinishLogicalIn(s3, rhs, e.rhs.ty, e.ty, s.nextTemp, b, live + Fresh(b, |s3.blocks|));
  }

  lemma BeginIn(s: Low, t: Ty, live: set<nat>)
    requires Closed(s.blocks, live)
    ensures Inside(s, BeginLogical(s, t), live) && |BeginLogical(s, t).blocks| == |s.blocks| + 2
  {
    hide Closed;
    var b := |s.blocks|;
    var d := Def(s, Alloca(s.nextTemp, IrOf(t)));
    EmitPlain(s, Alloca(s.nextTemp, IrOf(t)), live);
    AddLive(d, live);
    AddLive(NewBlock(d), live + {b});
    assert live + {b} + {b + 1} == live + Fresh(b, b + 2);
  }

  lemma BranchIn(s: Low, op: BinOp, lhs: Operand, lt: Ty, t: Ty, slot: nat, b: nat, live: set<nat>)
    requires Closed(s.blocks, live) && b + 1 < |s.blocks| && b in live && b + 1 in live
    ensures Closed(BranchLogical(s, op, lhs, lt, t, slot, b).blocks, live)
  {
    hide Closed, CoerceTo, ToI1;
    var (s1, c) := CoerceTo(s, lhs, IrOf(t), lt);
    CoerceIn(s, lhs, IrOf(t), lt, live);
    var s2 := Emit(s1, Store(c, Temp(IPtr, slot)));
    EmitPlain(s1, Store(c, Temp(IPtr, slot)), live);
    var (s3, i1) := ToI1(s2, lhs);
    I1In(s2, lhs, IVoid, live);
    EmitIn(s3, if op.LogAnd? then CondBr(i1, b, b + 1) else CondBr(i1, b + 1, b), live);
  }

  lemma FinishLogicalIn(s: Low, rhs: Operand, rt: Ty, t: Ty, slot: nat, b: nat, live: set<nat>)
    requires Closed(s.blocks, live) && b + 1 < |s.blocks| && b + 1 in live
    ensures Closed(FinishLogical(s, rhs, rt, t, slot, b).0.blocks, live)
  {
    hide Closed, CoerceTo;
    var (s1, c) := CoerceTo(s, rhs, IrOf(t), rt);
    CoerceIn(s, rhs, IrOf(t), rt, live);
    var s2 := Emit(s1, Store(c, Temp(IPtr, slot)));
    EmitPlain(s1, Store(c, Temp(IPtr, slot)), live);
    var s3 := Position(Emit(s2, Br(b + 1)), b + 1);
    EmitIn(s2, Br(b + 1), live);
    EmitPlain(s3, Load(s3.nextTemp, IrOf(t), Temp(IPtr, slot)), live);
  }

  lemma {:induction false} ArgsIn(s: Low, f: Fn, args: seq<Expr>, live: set<nat>)
    requires Closed(s.blocks, live)
    ensures Inside(s, LowerArgs(s, f, args).0, live)
    decreases args, 0
  {
    hide Closed, CoerceTo;
    if args == [] {
      assert live + Fresh(|s.blocks|, |s.blocks|) == live;
    } else {
      var k := |args| - 1;
      var (s1, vs) := LowerArgs(s, f, args[..k]);
      var (s2, v) := LowerExpr(s1, args[k]);
      ArgsIn(s, f, args[..k], live);
      ExprIn(s1, args[k], live + Fresh(|s.blocks|, |s1.blocks|));
      InsideTrans(s, s1, s2, live);
      if k < |f.params| {
        CoerceIn(s2, v, IrOf(f.params[k]), args[k].ty, live + Fresh(|s.blocks|, |s2.blocks|));
        ConvSize(s2, v, args[k].ty, f.params[k]);
      }
    }
  }

  // -------------------------------------------------------------- statements

  /** Of the blocks that existed before, only `extra` may have become live. */
  predicate OldLive(s: Low, live: set<nat>, live2: set<nat>, extra: set<nat>) {
    live <= live2 && forall d :: d in live2 && d < |s.blocks| ==> d in live || d in extra
  }

  /** Code that starts dead changes nothing about the live blocks. */
  lemma Dead(s: Low, t: Low, live: set<nat>)
    requires Closed(s.blocks, live) && s.cur !in live && Shape(s, t)
    ensures Closed(t.blocks, live) && t.cur !in live
  {
    hide Stays;
    forall j | j in live ensures j < |t.blocks| && t.blocks[j] == s.blocks[j] {
    }
  }

  lemma NewOnly(s: Low, t: Low, live: set<nat>)
    requires |s.blocks| <= |t.blocks|
    ensures OldLive(s, live, live + Fresh(|s.blocks|, |t.blocks|), {})
  {
  }

  /** A statement without control flow. */
  lemma SimpleIn(s: Low, st: Stmt, ret: Ty, live: set<nat>)
    requires Closed(s.blocks, live) && (st.Var? || st.Assign? || st.ExprStmt? || st.Return? || st.Empty?)
    ensures Inside(s, LowerOpen(s, st, ret), live)
  {
    hide Closed, CoerceTo, LowerExpr;
    assert live + Fresh(|s.blocks|, |s.blocks|) == live;
    match st
    case Var(d, init) => VarIn(s, d, init, live);
    case Assign(target, op, rhs) => AssignIn(s, target, op, rhs, live);
    case ExprStmt(e) => ExprIn(s, e, live);
    case Empty =>
    case Return(e) => ReturnIn(s, e, ret, live);
  }

  lemma WidenedIn(s: Low, e: Expr, want: IrTy, live: set<nat>)
    requires Closed(s.blocks, live)
    ensures var (a, v) := LowerExpr(s, e); Inside(s, CoerceTo(a, v, want, e.ty).0, live)
  {
    hide Closed, CoerceTo;
    var (a, v) := LowerExpr(s, e);
    ExprIn(s, e, live);
    CoerceIn(a, v, want, e.ty, live + Fresh(|s.blocks|, |a.blocks|));
    CoerceSize(a, v, want, e.ty);
  }

  lemma CoerceSize(s: Low, v: Operand, want: IrTy, from: Ty)
    ensures |CoerceTo(s, v, want, from).0.blocks| == |s.blocks|
  {
  }

  lemma EmitInside(s: Low, t: Low, i: Instr, live: set<nat>)
    requires Inside(s, t, live) && (!IsTerminator(i) || i.Ret?)
    ensures Inside(s, Emit(t, i), live) && Inside(s, Def(t, i), live)
  {
    EmitIn(t, i, live + Fresh(|s.blocks|, |t.blocks|));
  }

  lemma FromStart(s: Low, s1: Low, t: Low, live: set<nat>)
    requires Inside(s1, t, live) && |s1.blocks| == |s.blocks|
    ensures Inside(s, t, live)
  {
  }

  lemma VarIn(s: Low, d: Decl, init: Option<Expr>, live: set<nat>)
    requires Closed(s.blocks, live)
    ensures Inside(s, LowerVar(s, d, init), live)
  {
    hide Closed, CoerceTo, Inside;
    var t := IrOf(d.ty);
    var slot := Temp(IPtr, s.nextTemp);
    var s1 := Def(s, Alloca(s.nextTemp, t));
    EmitPlain(s, Alloca(s.nextTemp, t), live);
    var u: Low;
    if init.Some? {
      var (a, v) := LowerExpr(s1, init.value);
      var (b, c) := CoerceTo(a, v, t, init.value.ty);
      WidenedIn(s1, init.value, t, live);
      EmitInside(s1, b, Store(c, slot), live);
      u := Emit(b, Store(c, slot));
    } else {
      SelfInside(s1, live);
      EmitInside(s1, s1, Store(Const(t, 0), slot), live);
      u := Emit(s1, Store(Const(t, 0), slot));
    }
    FromStart(s, s1, u, live);
    SameCode(s, u, LowerVar(s, d, init), live);
  }

  lemma SelfInside(s: Low, live: set<nat>)
    requires Closed(s.blocks, live)
    ensures Inside(s, s, live)
  {
    assert live + Fresh(|s.blocks|, |s.blocks|) == live;
  }

  lemma SameCode(s: Low, t: Low, u: Low, live: set<nat>)
    requires Inside(s, t, live) && u.blocks == t.blocks
    ensures Inside(s, u, live)
  {
  }

  lemma AssignIn(s: Low, target: Expr, op: Option<BinOp>, rhs: Expr, live: set<nat>)
    requires Closed(s.blocks, live)
    ensures Inside(s, LowerAssign(s, target, op, rhs), live)
  {
    hide Closed, CoerceTo, Inside, LowerAddr, IntBinop;
    var (s1, addr) := LowerAddr(s, target);
    var t := IrOf(target.ty);
    if op.None? {
      var (s2, v) := LowerExpr(s1, rhs);
      var (s3, c) := CoerceTo(s2, v, t, rhs.ty);
      WidenedIn(s1, rhs, t, live);
      EmitInside(s1, s3, Store(c, addr), live);
      FromStart(s, s1, Emit(s3, Store(c, addr)), live);
    } else {
      var load := Load(s1.nextTemp, t, addr);
      var a := Def(s1, load);
      EmitPlain(s1, load, live);
      var (s2, v) := LowerExpr(a, rhs);
      var (s3, c) := CoerceTo(s2, v, t, rhs.ty);
      WidenedIn(a, rhs, t, live);
      var i := Bin(IntBinop(op.value, IsSigned(target.ty)), s3.nextTemp, Temp(t, s1.nextTemp), c);
      EmitInside(a, s3, i, live);
      EmitInside(a, Def(s3, i), Store(Temp(t, s3.nextTemp), addr), live);
      FromStart(s, a, Emit(Def(s3, i), Store(Temp(t, s3.nextTemp), addr)), live);
    }
  }

  lemma ReturnIn(s: Low, result: Option<Expr>, ret: Ty, live: set<nat>)
    requires Closed(s.blocks, live)
    ensures Inside(s, LowerReturn(s, result, ret), live)
  {
    hide Closed, CoerceTo, Inside;
    if result.None? {
      SelfInside(s, live);
      EmitInside(s, s, Ret(None), live);
    } else {
      var (a, v) := LowerExpr(s, result.value);
      var (b, c) := CoerceTo(a, v, IrOf(ret), result.value.ty);
      WidenedIn(s, result.value, IrOf(ret), live);
      EmitInside(s, b, Ret(Some(c)), live);
    }
  }

  /** A condition that branches to two live blocks. */
  lemma TestIn(s: Low, cond: Expr, yes: nat, no: nat, live: set<nat>)
    requires Closed(s.blocks, live) && yes in live && no in live
    ensures Inside(s, LowerTest(s, cond, yes, no), live)
  {
    hide Closed, ToI1;
    var (s1, v) := LowerExpr(s, cond);
    ExprIn(s, cond, live);
    var more := live + Fresh(|s.blocks|, |s1.blocks|);
    var (s2, i1) := ToI1(s1, v);
    I1In(s1, v, IVoid, more);
    I1Size(s1, v);
    EmitIn(s2, CondBr(i1, yes, no), more);
  }

  lemma I1Size(s: Low, v: Operand)
    ensures |ToI1(s, v).0.blocks| == |s.blocks|
  {
  }

  /** A block that is still open jumps to `end`, which becomes live with it. */
  lemma JoinIn(s: Low, end: nat, live: set<nat>) returns (live2: set<nat>)
    requires Closed(s.blocks, live) && end < |s.blocks| && (s.blocks[end] == [] || end in live)
    ensures Closed(Join(s, end).blocks, live2) && live2 == (if Live(s, live) then live + {end} else live)
  {
    hide Closed, Stays;
    live2 := live;
    if Live(s, live) {
      live2 := live + {end};
      if s.blocks[end] == [] {
        MoreLive(s.blocks, live, end);
      } else {
        assert live2 == live;
      }
    }
    if IsOpen(s) {
      assert s.cur in live2 ==> Stays(Br(end), live2) by { BrStays(end, live2, s.cur in live, end in live2); }
      NotLive(s, live, end);
      EmitIn(s, Br(end), live2);
    }
  }

  lemma BrStays(end: nat, live: set<nat>, cur: bool, has: bool)
    requires has == (end in live)
    ensures has ==> Stays(Br(end), live)
  {
  }

  lemma NotLive(s: Low, live: set<nat>, end: nat)
    ensures IsOpen(s) && !Live(s, live) ==> s.cur !in live
  {
  }

  /** What lowering a statement does to the live blocks: it goes on living only
      if it was live and the statement does not diverge. */
  predicate Reached(s: Low, t: Low, live: set<nat>, live2: set<nat>, diverges: bool) {
    && Closed(t.blocks, live2)
    && OldLive(s, live, live2, {})
    && (Live(t, live2) ==> Live(s, live) && !diverges)
  }

  lemma {:induction false} StmtReach(s: Low, st: Stmt, ret: Ty, live: set<nat>) returns (live2: set<nat>)
    requires s.loops == [] ==> !HasStrayJump(st)
    requires Closed(s.blocks, live) && (Live(s, live) ==> JumpsIn(s.loops, live))
    ensures Reached(s, LowerStmt(s, st, ret), live, live2, StmtDiverges(st))
    decreases st, 2
  {
    hide Closed, JumpsIn, LowerOpen, Shape, StmtDiverges;
    if Live(s, live) {
      live2 := OpenReach(s, st, ret, live);
    } else {
      live2 := live;
      var s1 := EnsureOpen(s);
      assert Closed(s1.blocks, live) && s1.cur !in live by { DeadStart(s, live); }
      OpenShapes(s1, st, ret);
      StmtShapeOf(s1, st, LowerOpen(s1, st, ret));
      Dead(s1, LowerOpen(s1, st, ret), live);
    }
  }

  lemma DeadStart(s: Low, live: set<nat>)
    requires Closed(s.blocks, live) && !Live(s, live)
    ensures Closed(EnsureOpen(s).blocks, live) && EnsureOpen(s).cur !in live
  {
    AddLive(s, live);
  }

  lemma StmtShapeOf(s: Low, st: Stmt, t: Low)
    requires StmtShape(s, st, t)
    ensures Shape(s, t) && t.loops == s.loops
  {
  }

  lemma InsideReached(s: Low, t: Low, live: set<nat>) returns (live2: set<nat>)
    requires Inside(s, t, live) && Live(s, live)
    ensures Reached(s, t, live, live2, false)
  {
    live2 := live + Fresh(|s.blocks|, |t.blocks|);
  }

  lemma {:induction false} OpenReach(s: Low, st: Stmt, ret: Ty, live: set<nat>) returns (live2: set<nat>)
    requires s.loops == [] ==> !HasStrayJump(st)
    requires Closed(s.blocks, live) && Live(s, live) && JumpsIn(s.loops, live)
    ensures Reached(s, LowerOpen(s, st, ret), live, live2, StmtDiverges(st))
    decreases st, 1
  {
    hide Closed, LowerVar, LowerAssign, LowerReturn, LowerIf, LowerWhile, LowerMatch, LowerBlock, Stays, Inside,
        BlockDiverges;
    match st
    case Block(ss) => live2 := BlockReach(s, ss, ret, live);
    case If(_, _, _) => live2 := IfReach(s, st, ret, live);
    case While(_, _) => live2 := WhileReach(s, st, ret, live);
    case Match(_, _) => live2 := MatchReach(s, st, ret, live);
    case Break => live2 := JumpReach(s, s.loops[|s.loops| - 1].breakTo, live);
    case Continue => live2 := JumpReach(s, s.loops[|s.loops| - 1].continueTo, live);
    case Return(e) =>
      SimpleIn(s, st, ret, live);
      live2 := InsideReached(s, LowerOpen(s, st, ret), live);
      ReturnShape(s, e, ret);
    case _ =>
      SimpleIn(s, st, ret, live);
      live2 := InsideReached(s, LowerOpen(s, st, ret), live);
  }

  lemma JumpReach(s: Low, d: nat, live: set<nat>) returns (live2: set<nat>)
    requires Closed(s.blocks, live) && Live(s, live) && d in live
    ensures Reached(s, Emit(s, Br(d)), live, live2, true)
  {
    live2 := live;
    EmitIn(s, Br(d), live);
    EmitShape(s, Br(d));
  }

  lemma {:induction false} BlockReach(s: Low, ss: seq<Stmt>, ret: Ty, live: set<nat>) returns (live2: set<nat>)
    requires s.loops == [] ==> !JumpsOut(ss)
    requires Closed(s.blocks, live) && (Live(s, live) ==> JumpsIn(s.loops, live))
    ensures Reached(s, LowerBlock(s, ss, ret), live, live2, BlockDiverges(ss))
    decreases ss, 1
  {
    hide Closed, LowerSeq, BlockDiverges, JumpsIn;
    live2 := SeqReach(s, ss, ret, live);
  }

  lemma ReachedTrans(s: Low, t: Low, u: Low, live: set<nat>, live1: set<nat>, live2: set<nat>, d1: bool, d2: bool)
    requires Reached(s, t, live, live1, d1) && Reached(t, u, live1, live2, d2) && |s.blocks| <= |t.blocks|
    ensures Reached(s, u, live, live2, d1 || d2)
  {
  }

  lemma ReachedSelf(s: Low, live: set<nat>)
    requires Closed(s.blocks, live)
    ensures Reached(s, s, live, live, false)
  {
  }

  lemma SeqDiverges(ss: seq<Stmt>)
    ensures ss == [] ==> !BlockDiverges(ss)
    ensures ss != [] ==> (BlockDiverges(ss) <==> BlockDiverges(ss[..|ss| - 1]) || StmtDiverges(ss[|ss| - 1]))
  {
    hide StmtDiverges;
    if ss != [] {
      var k := |ss| - 1;
      assert forall i :: 0 <= i < k ==> ss[..k][i] == ss[i];
      if BlockDiverges(ss) && !StmtDiverges(ss[k]) {
        var i :| 0 <= i < |ss| && StmtDiverges(ss[i]);
        assert StmtDiverges(ss[..k][i]);
      }
      if BlockDiverges(ss[..k]) {
        var i :| 0 <= i < k && StmtDiverges(ss[..k][i]);
        assert StmtDiverges(ss[i]);
      }
    }
  }

  lemma JumpsMore(loops: seq<Loop>, live: set<nat>, more: set<nat>)
    requires JumpsIn(loops, live) && live <= more
    ensures JumpsIn(loops, more)
  {
  }

  lemma {:induction false} SeqReach(s: Low, ss: seq<Stmt>, ret: Ty, live: set<nat>) returns (live2: set<nat>)
    requires s.loops == [] ==> !JumpsOut(ss)
    requires Closed(s.blocks, live) && (Live(s, live) ==> JumpsIn(s.loops, live))
    ensures Reached(s, LowerSeq(s, ss, ret), live, live2, BlockDiverges(ss))
    ensures LowerSeq(s, ss, ret).loops == s.loops
    decreases ss, 0
  {
    hide Closed, LowerStmt, BlockDiverges, StmtDiverges, JumpsIn, Reached, Live, Shape;
    SeqDiverges(ss);
    if ss != [] {
      JumpsOutSplit(ss);
    }
    if ss == [] {
      live2 := live;
      ReachedSelf(s, live);
    } else {
      var k := |ss| - 1;
      var s1 := LowerSeq(s, ss[..k], ret);
      var live1 := SeqReach(s, ss[..k], ret, live);
      ReachedOut(s, s1, live, live1, BlockDiverges(ss[..k]));
      if Live(s1, live1) {
        JumpsMore(s.loops, live, live1);
      }
      live2 := StmtReach(s1, ss[k], ret, live1);
      StmtShapes(s1, ss[k], ret);
      StmtShapeOf(s1, ss[k], LowerStmt(s1, ss[k], ret));
      ReachedTrans(s, s1, LowerStmt(s1, ss[k], ret), live, live1, live2, BlockDiverges(ss[..k]), StmtDiverges(ss[k]));
    }
  }

  lemma ReachedOut(s: Low, t: Low, live: set<nat>, live2: set<nat>, diverges: bool)
    requires Reached(s, t, live, live2, diverges)
    ensures Closed(t.blocks, live2) && live <= live2 && (Live(t, live2) ==> Live(s, live) && !diverges)
    ensures forall d :: d in live2 && d < |s.blocks| ==> d in live
  {
  }

  // ------------------------------------------------------------ if and while

  /** After the condition of an `if`: both branches are live, and the end block
      too when there is no else. */
  lemma IfTestIn(s: Low, st: Stmt, live: set<nat>) returns (live1: set<nat>)
    requires st.If? && Closed(s.blocks, live)
    ensures var b := |s.blocks|; var t := LowerTest(IfBlocks(s, st.els.Some?), st.cond, b, b + 1);
            && Closed(t.blocks, live1) && live <= live1 && b in live1 && b + 1 in live1
            && (forall d :: d in live1 && d < |IfBlocks(s, st.els.Some?).blocks| ==> d in live || d == b || d == b + 1)
  {
    hide Closed, LowerTest;
    var b := |s.blocks|;
    AddLive(s, live);
    AddLive(NewBlock(s), live + {b});
    var live0 := live + {b} + {b + 1};
    if st.els.Some? {
      AddLive(NewBlock(NewBlock(s)), live0);
    }
    var h := IfBlocks(s, st.els.Some?);
    TestIn(h, st.cond, b, b + 1, live0);
    live1 := live0 + Fresh(|h.blocks|, |LowerTest(h, st.cond, b, b + 1).blocks|);
  }

  /** One branch of an `if`, lowered into block `b` of `s` and joined to `end`. */
  predicate Branched(s: Low, t: Low, end: nat, live: set<nat>, live2: set<nat>, diverges: bool) {
    && Closed(t.blocks, live2)
    && OldLive(s, live, live2, {end})
    && (end in live2 ==> end in live || !diverges)
  }

  lemma BranchDone(s: Low, p: Low, body: Low, end: nat, live: set<nat>, live1: set<nat>, diverges: bool)
    returns (live2: set<nat>)
    requires Reached(p, body, live, live1, diverges) && |p.blocks| == |s.blocks| <= |body.blocks|
    requires end < |s.blocks| && body.blocks[end] == []
    ensures Branched(s, Join(body, end), end, live, live2, diverges)
  {
    hide Closed;
    live2 := JoinIn(body, end, live1);
  }

  lemma StrayIf(st: Stmt)
    requires st.If? && !HasStrayJump(st)
    ensures !JumpsOut(st.thn) && (st.els.Some? ==> !HasStrayJump(st.els.value))
  {
  }

  lemma {:induction false} IfReach(s: Low, st: Stmt, ret: Ty, live: set<nat>) returns (live2: set<nat>)
    requires st.If? && (s.loops == [] ==> !HasStrayJump(st))
    requires Closed(s.blocks, live) && Live(s, live) && JumpsIn(s.loops, live)
    ensures Reached(s, LowerIf(s, st, ret), live, live2, StmtDiverges(st))
    decreases st, 0
  {
    hide Closed, LowerTest, LowerBlock, LowerStmt, BlockDiverges, JumpsIn, Reached, Shape, Join, IsOpen, HasStrayJump,
        JumpsOut;
    if s.loops == [] {
      StrayIf(st);
    }
    var b, hasElse := |s.blocks|, st.els.Some?;
    var end := if hasElse then b + 2 else b + 1;
    var t := LowerTest(IfBlocks(s, hasElse), st.cond, b, b + 1);
    var live1 := IfTestIn(s, st, live);
    IfTestFrame(s, st, ret);
    var p := Position(t, b);
    JumpsMore(s.loops, live, live1);
    var liveA := BlockReach(p, st.thn, ret, live1);
    var body := LowerBlock(p, st.thn, ret);
    IfBodyFrame(s, st, ret);
    var liveB := BranchDone(t, p, body, end, live1, liveA, BlockDiverges(st.thn));
    var u := Join(body, end);
    if hasElse {
      var q := Position(u, b + 1);
      assert Live(q, liveB);
      JumpsMore(s.loops, live, liveB);
      var liveC := StmtReach(q, st.els.value, ret, liveB);
      var other := LowerStmt(q, st.els.value, ret);
      IfElseFrame(s, st, ret);
      live2 := BranchDone(u, q, other, end, liveB, liveC, StmtDiverges(st.els.value));
      ClosedBound(s.blocks, live, end);
      IfReached(s, Join(other, end), end, live, live1, liveB, live2, StmtDiverges(st));
    } else {
      live2 := liveB;
      IfReached(s, u, end, live, live1, liveB, live2, StmtDiverges(st));
    }
  }

  lemma IfReached(s: Low, t: Low, end: nat, live: set<nat>, live1: set<nat>, liveB: set<nat>, live2: set<nat>,
      diverges: bool)
    requires end in live2 ==> !diverges
    requires Closed(t.blocks, live2) && live <= live1 <= liveB <= live2 && Live(s, live)
             && |s.blocks| <= end < |t.blocks|
    requires forall d :: d in live1 && d < |s.blocks| ==> d in live
    requires forall d :: d in liveB && d < |s.blocks| ==> d in live1
    requires forall d :: d in live2 && d < |s.blocks| ==> d in liveB
    ensures Reached(s, Position(t, end), live, live2, diverges)
  {
  }

  /** Where the pieces of an `if` leave the blocks they do not touch. */
  lemma IfTestFrame(s: Low, st: Stmt, ret: Ty)
    requires st.If?
    ensures var b := |s.blocks|; var t := LowerTest(IfBlocks(s, st.els.Some?), st.cond, b, b + 1);
            t.loops == s.loops && t.locals == s.locals && IsOpen(Position(t, b)) && IfOpen(s, t, 0, st.els.Some?)
  {
    hide LowerTest;
    var b := |s.blocks|;
    TestShape(IfBlocks(s, st.els.Some?), st.cond, b, b + 1);
    IfHeadShape(s, st.els.Some?, LowerTest(IfBlocks(s, st.els.Some?), st.cond, b, b + 1));
  }

  lemma IfBodyFrame(s: Low, st: Stmt, ret: Ty)
    requires st.If?
    ensures var b := |s.blocks|; var hasElse := st.els.Some?;
            var end := if hasElse then b + 2 else b + 1;
            var t := LowerTest(IfBlocks(s, hasElse), st.cond, b, b + 1);
            var body := LowerBlock(Position(t, b), st.thn, ret);
            var u := Join(body, end);
            && |t.blocks| <= |body.blocks| && |u.blocks| == |body.blocks| && body.blocks[end] == []
            && IfOpen(s, u, 1, hasElse) && (hasElse ==> IsOpen(Position(u, b + 1)))
  {
    hide LowerTest, LowerBlock;
    var b, hasElse := |s.blocks|, st.els.Some?;
    var end := if hasElse then b + 2 else b + 1;
    var t := LowerTest(IfBlocks(s, hasElse), st.cond, b, b + 1);
    IfTestFrame(s, st, ret);
    BlockShapes(Position(t, b), st.thn, ret);
    IfThenShape(s, hasElse, t, LowerBlock(Position(t, b), st.thn, ret), end);
  }

  lemma IfElseFrame(s: Low, st: Stmt, ret: Ty)
    requires st.If? && st.els.Some?
    ensures var b := |s.blocks|;
            var t := LowerTest(IfBlocks(s, true), st.cond, b, b + 1);
            var u := Join(LowerBlock(Position(t, b), st.thn, ret), b + 2);
            var other := LowerStmt(Position(u, b + 1), st.els.value, ret);
            |u.blocks| <= |other.blocks| && (u.blocks[b + 2] == [] ==> other.blocks[b + 2] == [])
  {
    hide LowerTest, LowerBlock, LowerStmt;
    var b := |s.blocks|;
    var t := LowerTest(IfBlocks(s, true), st.cond, b, b + 1);
    var u := Join(LowerBlock(Position(t, b), st.thn, ret), b + 2);
    IfBodyFrame(s, st, ret);
    StmtShapes(Position(u, b + 1), st.els.value, ret);
  }

  lemma {:induction false} WhileReach(s: Low, st: Stmt, ret: Ty, live: set<nat>) returns (live2: set<nat>)
    requires st.While?
    requires Closed(s.blocks, live) && Live(s, live) && JumpsIn(s.loops, live)
    ensures Reached(s, LowerWhile(s, st, ret), live, live2, StmtDiverges(st))
    decreases st, 0
  {
    hide Closed, EnterWhile, LowerBlock, JumpsIn, Shape, Join;
    var b := |s.blocks|;
    var t := EnterWhile(s, st.cond);
    var live1 := WhileTestIn(s, st.cond, live);
    EnterWhileShape(s, st.cond);
    JumpsPushed(s, t, b, live, live1);
    var liveA := BlockReach(t, st.body, ret, live1);
    var body := LowerBlock(t, st.body, ret);
    BlockShapes(t, st.body, ret);
    ShapeSize(t, body);
    live2 := JoinIn(body, b, liveA);
    assert live2 == liveA;
  }

  lemma ShapeSize(s: Low, t: Low)
    requires Shape(s, t)
    ensures |s.blocks| <= |t.blocks|
  {
  }

  lemma JumpsPushed(s: Low, t: Low, b: nat, live: set<nat>, live1: set<nat>)
    requires JumpsIn(s.loops, live) && live <= live1 && b in live1 && b + 2 in live1
             && t.loops == s.loops + [Loop(b, b + 2)]
    ensures JumpsIn(t.loops, live1)
  {
  }

  lemma WhileTestIn(s: Low, cond: Expr, live: set<nat>) returns (live1: set<nat>)
    requires Closed(s.blocks, live)
    ensures var b := |s.blocks|; var t := EnterWhile(s, cond);
            && Closed(t.blocks, live1) && live <= live1 && b in live1 && b + 1 in live1 && b + 2 in live1
            && (forall d :: d in live1 && d < b ==> d in live)
  {
    hide Closed, LowerTest;
    var b := |s.blocks|;
    AddLive(s, live);
    AddLive(NewBlock(s), live + {b});
    AddLive(NewBlock(NewBlock(s)), live + {b} + {b + 1});
    var live0 := live + {b} + {b + 1} + {b + 2};
    var s0 := NewBlock(NewBlock(NewBlock(s)));
    EmitIn(s0, Br(b), live0);
    var p := Position(Emit(s0, Br(b)), b);
    TestIn(p, cond, b + 1, b + 2, live0);
    live1 := live0 + Fresh(|p.blocks|, |LowerTest(p, cond, b + 1, b + 2).blocks|);
  }

  // ------------------------------------------------------------------- match

  lemma {:induction false} MatchReach(s: Low, st: Stmt, ret: Ty, live: set<nat>) returns (live2: set<nat>)
    requires st.Match? && (s.loops == [] ==> !HasStrayJump(st))
    requires Closed(s.blocks, live) && Live(s, live) && JumpsIn(s.loops, live)
    ensures Reached(s, LowerMatch(s, st, ret), live, live2, StmtDiverges(st))
    decreases st, 0
  {
    hide Closed, LowerArms, JumpsIn, Shape, Chained, HasWildcard, Fresh;
    var (s1, v) := LowerExpr(s, st.scrutinee);
    ExprIn(s, st.scrutinee, live);
    ExprShape(s, st.scrutinee);
    var live1 := live + Fresh(|s.blocks|, |s1.blocks|);
    NewOnly(s, s1, live);
    ShapeCur(s, s1, live);
    var end := |s1.blocks|;
    var s0 := NewBlock(s1);
    AddLive(s1, live1);
    assert s0.blocks[s0.cur] == s1.blocks[s1.cur];
    JumpsMore(s.loops, live, live1);
    ClosedBound(s1.blocks, live1, end);
    var liveA := ArmsReach(s0, st.arms, v, end, ret, live1);
    var (s2, wild) := LowerArms(s0, st.arms, v, end, ret);
    ChainedOut(s0, s2, end, wild, live1, liveA, st.arms);
    ArmsShapes(s0, st.arms, v, end, ret);
    live2 := MatchDone(s, s2, wild, end, live1, liveA, st.arms);
    MatchReached(s, st, s2, wild, end, live, live1, liveA, live2);
  }

  lemma ClosedBound(f: Blocks, live: set<nat>, d: nat)
    requires Closed(f, live) && |f| <= d
    ensures d !in live
  {
  }

  lemma ShapeCur(s: Low, t: Low, live: set<nat>)
    requires PlainShape(s, t) && Live(s, live)
    ensures Live(t, live + Fresh(|s.blocks|, |t.blocks|))
  {
  }

  /** The jump that ends the chain of tests. */
  lemma MatchDone(s: Low, s2: Low, wild: Option<nat>, end: nat, live1: set<nat>, liveA: set<nat>, arms: seq<Arm>)
    returns (live2: set<nat>)
    requires Closed(s2.blocks, liveA) && Live(s2, liveA) && end < |s2.blocks| && (s2.blocks[end] == [] || end in liveA)
    requires wild.Some? ==> wild.value in liveA
    ensures Closed(Emit(s2, Br(if wild.Some? then wild.value else end)).blocks, live2)
    ensures live2 == (if wild.Some? then liveA else liveA + {end})
  {
    hide Closed;
    if wild.Some? {
      live2 := liveA;
      EmitIn(s2, Br(wild.value), live2);
    } else {
      live2 := liveA + {end};
      if s2.blocks[end] == [] {
        MoreLive(s2.blocks, liveA, end);
      } else {
        assert live2 == liveA;
      }
      EmitIn(s2, Br(end), live2);
    }
  }

  lemma MatchReached(s: Low, st: Stmt, s2: Low, wild: Option<nat>, end: nat, live: set<nat>, live1: set<nat>,
      liveA: set<nat>, live2: set<nat>)
    requires st.Match? && end < |s2.blocks| && |s.blocks| <= end && Live(s, live)
    requires live <= live1 <= liveA <= live2 && OldLive(s, live, live1, {})
    requires live2 == (if wild.Some? then liveA else liveA + {end}) && end !in live1
    requires forall d :: d in liveA && d <= end ==> d in live1 || d == end
    requires end in liveA ==> exists k :: 0 <= k < |st.arms| && !StmtDiverges(st.arms[k].body)
    requires wild.None? ==> forall k :: 0 <= k < |st.arms| ==> !HasWildcard(st.arms[k].labels)
    requires Closed(Emit(s2, Br(if wild.Some? then wild.value else end)).blocks, live2)
    ensures Reached(s, Position(Emit(s2, Br(if wild.Some? then wild.value else end)), end), live, live2,
            StmtDiverges(st))
  {
    hide Closed, HasWildcard;
  }

  /** A state on the chain of tests of a match, after arms `arms`. */
  predicate Chained(s: Low, t: Low, end: nat, wild: Option<nat>, live: set<nat>, live2: set<nat>, arms: seq<Arm>) {
    && Closed(t.blocks, live2) && Live(t, live2)
    && OldLive(s, live, live2, {end})
    && end < |t.blocks| && (t.blocks[end] == [] || end in live2)
    && (wild.Some? ==> wild.value in live2)
    && (wild.None? ==> forall k :: 0 <= k < |arms| ==> !HasWildcard(arms[k].labels))
    && (end in live2 && end !in live ==> exists k :: 0 <= k < |arms| && !StmtDiverges(arms[k].body))
  }

  lemma ChainedOut(s: Low, t: Low, end: nat, wild: Option<nat>, live: set<nat>, live2: set<nat>, arms: seq<Arm>)
    requires end < |s.blocks| <= |t.blocks| && Chained(s, t, end, wild, live, live2, arms)
    ensures Closed(t.blocks, live2) && Live(t, live2) && live <= live2
    ensures forall d :: d in live2 && d < |s.blocks| ==> d in live || d == end
    ensures t.blocks[end] == [] || end in live2
    ensures wild.Some? ==> wild.value in live2
    ensures wild.None? ==> forall k :: 0 <= k < |arms| ==> !HasWildcard(arms[k].labels)
    ensures end in live2 && end !in live ==> exists k :: 0 <= k < |arms| && !StmtDiverges(arms[k].body)
  {
  }

  lemma {:induction false} ArmsReach(s: Low, arms: seq<Arm>, v: Operand, end: nat, ret: Ty, live: set<nat>)
    returns (live2: set<nat>)
    requires s.loops == [] ==> forall k :: 0 <= k < |arms| ==> !HasStrayJump(arms[k].body)
    requires Closed(s.blocks, live) && Live(s, live) && JumpsIn(s.loops, live)
    requires end < |s.blocks| && s.cur != end && (s.blocks[end] == [] || end in live)
    ensures var (t, wild) := LowerArms(s, arms, v, end, ret);
            t.cur != end && Chained(s, t, end, wild, live, live2, arms)
    decreases arms, 0
  {
    hide Closed, LowerArm, JumpsIn, Shape, HasWildcard, HasStrayJump;
    if arms == [] {
      live2 := live;
    } else {
      var k := |arms| - 1;
      var live1 := ArmsReach(s, arms[..k], v, end, ret, live);
      var (s1, wild) := LowerArms(s, arms[..k], v, end, ret);
      ChainedOut(s, s1, end, wild, live, live1, arms[..k]);
      ArmsShapes(s, arms[..k], v, end, ret);
      JumpsMore(s.loops, live, live1);
      live2 := ArmReach(s1, arms[k], v, end, ret, live1);
      ChainedStep(s, arms, s1, LowerArm(s1, arms[k], v, end, ret), end, wild, live, live1, live2);
    }
  }

  lemma ChainedStep(s: Low, arms: seq<Arm>, s1: Low, t: Low, end: nat, wild: Option<nat>, live: set<nat>,
      live1: set<nat>, live2: set<nat>)
    requires arms != [] && end < |s.blocks| <= |s1.blocks| < |t.blocks|
    requires Chained(s, s1, end, wild, live, live1, arms[..|arms| - 1])
    requires Closed(t.blocks, live2) && Live(t, live2) && OldLive(s1, live1, live2, {end})
             && (t.blocks[end] == [] || end in live2)
    requires |s1.blocks| in live2 && (end in live2 && end !in live1 ==> !StmtDiverges(arms[|arms| - 1].body))
    ensures Chained(s, t, end, if HasWildcard(arms[|arms| - 1].labels) then Some(|s1.blocks|) else wild, live, live2,
            arms)
  {
    hide Closed, HasWildcard, StmtDiverges, Live;
    var k := |arms| - 1;
    assert arms == arms[..k] + [arms[k]];
    if end in live2 && end !in live {
      if end in live1 {
        var j :| 0 <= j < k && !StmtDiverges(arms[..k][j].body);
        assert !StmtDiverges(arms[j].body);
      } else {
        assert !StmtDiverges(arms[k].body);
      }
    }
  }

  lemma {:induction false} ArmReach(s: Low, arm: Arm, v: Operand, end: nat, ret: Ty, live: set<nat>)
    returns (live2: set<nat>)
    requires s.loops == [] ==> !HasStrayJump(arm.body)
    requires Closed(s.blocks, live) && Live(s, live) && JumpsIn(s.loops, live)
    requires end < |s.blocks| && s.cur != end && (s.blocks[end] == [] || end in live)
    ensures var t := LowerArm(s, arm, v, end, ret);
            && Closed(t.blocks, live2) && Live(t, live2) && OldLive(s, live, live2, {end})
            && (t.blocks[end] == [] || end in live2)
            && |s.blocks| in live2 && (end in live2 && end !in live ==> !StmtDiverges(arm.body)) && t.cur != end
    decreases arm, 0
  {
    hide Closed, LowerStmt, LowerLabels, JumpsIn, HasWildcard, StmtDiverges, Shape, Join;
    var b := |s.blocks|;
    var s1 := NewBlock(s);
    AddLive(s, live);
    assert s1.blocks[s1.cur] == s.blocks[s.cur];
    var s2 := if HasWildcard(arm.labels) then s1 else LowerLabels(s1, arm.labels, v, b);
    var live1 := live + {b};
    var liveA := live1;
    if !HasWildcard(arm.labels) {
      liveA := LabelsReach(s1, arm.labels, v, b, live1);
    }
    ChainShape(s1, arm, v, b, end);
    var p := Position(s2, b);
    JumpsMore(s.loops, live, liveA);
    var liveB := StmtReach(p, arm.body, ret, liveA);
    var body := LowerStmt(p, arm.body, ret);
    ArmBodyShape(s2, arm.body, b, end, ret);
    live2 := JoinIn(body, end, liveB);
  }

  lemma ChainShape(s: Low, arm: Arm, v: Operand, b: nat, end: nat)
    requires b < |s.blocks| && end < |s.blocks| && s.cur != b && s.cur != end
    ensures var t := if HasWildcard(arm.labels) then s else LowerLabels(s, arm.labels, v, b);
            t.loops == s.loops && t.cur != b && t.cur != end && t.blocks[b] == s.blocks[b]
            && t.blocks[end] == s.blocks[end]
  {
    hide LowerLabels, HasWildcard;
    LabelsShapes(s, arm.labels, v, b);
  }

  lemma ArmBodyShape(s: Low, st: Stmt, b: nat, end: nat, ret: Ty)
    requires b < |s.blocks| && s.cur != b && end < |s.blocks| && end != b
    ensures var body := LowerStmt(Position(s, b), st, ret);
            var u := Join(body, end);
            && |s.blocks| <= |body.blocks| && body.blocks[end] == s.blocks[end]
            && u.blocks[s.cur] == s.blocks[s.cur]
            && u.blocks[end] == (if body.cur == end then u.blocks[end] else s.blocks[end]) && body.cur != end
  {
    hide LowerStmt;
    var p := Position(s, b);
    StmtShapes(p, st, ret);
  }

  lemma {:induction false} LabelsReach(s: Low, labels: seq<Label>, v: Operand, body: nat, live: set<nat>)
    returns (live2: set<nat>)
    requires Closed(s.blocks, live) && Live(s, live) && body in live && body < |s.blocks|
    ensures var t := LowerLabels(s, labels, v, body);
            Closed(t.blocks, live2) && Live(t, live2) && OldLive(s, live, live2, {})
    decreases labels
  {
    hide Closed, LowerLabel;
    if labels == [] {
      live2 := live;
    } else {
      var k := |labels| - 1;
      var live1 := LabelsReach(s, labels[..k], v, body, live);
      var s1 := LowerLabels(s, labels[..k], v, body);
      live2 := LabelReach(s1, labels[k], v, body, live1);
    }
  }

  lemma LabelReach(s: Low, l: Label, v: Operand, body: nat, live: set<nat>) returns (live2: set<nat>)
    requires Closed(s.blocks, live) && Live(s, live) && body in live && body < |s.blocks|
    ensures var t := LowerLabel(s, l, v, body); Closed(t.blocks, live2) && Live(t, live2) && OldLive(s, live, live2, {})
  {
    hide Closed, LowerExpr;
    if l.Wildcard? {
      live2 := live;
    } else {
      var next := |s.blocks|;
      var s0 := NewBlock(s);
      AddLive(s, live);
      var (s1, w) := LowerExpr(s0, l.expr);
      ExprIn(s0, l.expr, live + {next});
      ExprShape(s0, l.expr);
      live2 := live + {next} + Fresh(|s0.blocks|, |s1.blocks|);
      var i := Icmp(PEq, s1.nextTemp, v, w);
      EmitPlain(s1, i, live2);
      var s2 := Def(s1, i);
      EmitIn(s2, CondBr(Temp(IInt(1), s1.nextTemp), body, next), live2);
    }
  }

  // --------------------------------------------------------------- functions

  lemma {:induction false} ParamsIn(s: Low, params: seq<Decl>, live: set<nat>)
    requires Closed(s.blocks, live) && Live(s, live)
    ensures var t := LowerParams(s, params); Closed(t.blocks, live) && Live(t, live) && t.loops == s.loops
    decreases |params|
  {
    hide Closed;
    if params != [] {
      var k := |params| - 1;
      ParamsIn(s, params[..k], live);
      var s1 := LowerParams(s, params[..k]);
      var i := Alloca(s1.nextTemp, IrOf(params[k].ty));
      var s2 := Def(s1, i);
      EmitPlain(s1, i, live);
      EmitPlain(s2, Store(Temp(IrOf(params[k].ty), k), Temp(IPtr, s1.nextTemp)), live);
    }
  }

  lemma {:induction false} PathStays(f: Blocks, live: set<nat>, p: seq<nat>)
    requires Closed(f, live) && 0 in live && Path(f, p)
    ensures p[|p| - 1] in live
    decreases |p|
  {
    if |p| > 1 {
      PathStays(f, live, p[..|p| - 1]);
      var a := p[|p| - 2];
      assert Leads(f[p[|p| - 2]], p[|p| - 2 + 1]);
      var k :| 0 <= k < |f[a]|
          && ((f[a][k].Br? && f[a][k].dest == p[|p| - 1])
          || (f[a][k].CondBr? && (f[a][k].dest == p[|p| - 1] || f[a][k].dest2 == p[|p| - 1])));
      assert Stays(f[a][k], live);
    }
  }

  /** A body that diverges, its jumps all inside loops, has blocks, closed under
      jumps and containing the entry, none of which is `unreachable`. */
  lemma LiveBlocks(fn: FnDecl) returns (live: set<nat>)
    requires !JumpsOut(fn.body) && BlockDiverges(fn.body)
    ensures 0 in live && Closed(LowerFunction(fn).blocks, live)
  {
    hide Closed, BlockDiverges, LowerBlock, LowerParams;
    var s := Entry(fn);
    assert Closed(s.blocks, {0}) by { ClosedEntry(fn); }
    ParamsIn(s, fn.params, {0});
    var p := LowerParams(s, fn.params);
    assert JumpsIn(p.loops, {0});
    live := BlockReach(p, fn.body, fn.ret, {0});
    var t := Body(fn);
    assert !Live(t, live);
    if IsOpen(t) {
      EmitIn(t, if fn.ret.Void? then Ret(None) else Unreachable, live);
    }
  }

  lemma ClosedEntry(fn: FnDecl)
    ensures Closed(Entry(fn).blocks, {0})
  {
  }

  /** The `unreachable` that lowering writes is never reached: when the check says
      that the body diverges, no path of the control-flow graph leads from its
      entry to a block with an `unreachable` in it. */
  lemma UnreachableIsUnreachable(fn: FnDecl, p: seq<nat>)
    requires !JumpsOut(fn.body) && BlockDiverges(fn.body)
    requires Path(LowerFunction(fn).blocks, p)
    ensures Unreachable !in LowerFunction(fn).blocks[p[|p| - 1]]
  {
    hide LowerFunction, BlockDiverges;
    var f := LowerFunction(fn).blocks;
    var live := LiveBlocks(fn);
    PathStays(f, live, p);
    var b := f[p[|p| - 1]];
    forall k | 0 <= k < |b| ensures b[k] != Unreachable {
      assert Stays(b[k], live);
    }
  }
}
