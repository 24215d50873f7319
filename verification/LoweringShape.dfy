/** Lowering only ever appends: to the block it started in and to blocks it made
    itself. Everything else about the generated code rests on this. */
module LoweringShape {
  import opened Words
  import opened Types
  import opened Tree
  import opened Ir
  import opened Lowering

  /** `b` has every block of `a`, with more instructions at their ends. */
  predicate Ext(a: Blocks, b: Blocks) {
    |a| <= |b| && forall i :: 0 <= i < |a| ==> a[i] <= b[i]
  }

  lemma ExtTrans(a: Blocks, b: Blocks, c: Blocks)
    requires Ext(a, b) && Ext(b, c)
    ensures Ext(a, c)
  {
  }

  /** From `s` to `t` only block `c` and blocks from `n` on change, and the
      builder ends up at one of those. */
  predicate Within(n: nat, c: nat, s: Low, t: Low) {
    && n <= |s.blocks|
    && Ext(s.blocks, t.blocks)
    && (forall i :: 0 <= i < n && i != c ==> t.blocks[i] == s.blocks[i])
    && (t.cur == c || t.cur >= n)
    && s.nextTemp <= t.nextTemp
    && s.errors <= t.errors
  }

  predicate Shape(s: Low, t: Low) {
    Within(|s.blocks|, s.cur, s, t)
  }

  /** As Shape, for code that neither declares nor ends its block. */
  predicate PlainShape(s: Low, t: Low) {
    Shape(s, t) && t.locals == s.locals && t.loops == s.loops && (IsOpen(s) ==> IsOpen(t))
  }

  lemma WithinTrans(n: nat, c: nat, s: Low, t: Low, u: Low)
    requires Within(n, c, s, t) && Within(n, c, t, u)
    ensures Within(n, c, s, u)
  {
  }

  /** What stays within the blocks of `t` stays within those of an earlier state. */
  lemma Rebase(n: nat, c: nat, t: Low, u: Low)
    requires Shape(t, u) && n <= |t.blocks| && (t.cur == c || t.cur >= n)
    ensures Within(n, c, t, u)
  {
  }

  lemma ShapeTrans(s: Low, t: Low, u: Low)
    requires Shape(s, t) && Shape(t, u)
    ensures Shape(s, u)
  {
    Rebase(|s.blocks|, s.cur, t, u);
    WithinTrans(|s.blocks|, s.cur, s, t, u);
  }

  lemma PlainTrans(s: Low, t: Low, u: Low)
    requires PlainShape(s, t) && PlainShape(t, u)
    ensures PlainShape(s, u)
  {
    ShapeTrans(s, t, u);
  }

  /** Every loop jumps to blocks of the function. */
  predicate LoopsOk(n: nat, loops: seq<Loop>) {
    forall i :: 0 <= i < |loops| ==> loops[i].continueTo < n && loops[i].breakTo < n
  }

  /** The builder's block `a` has been ended or left open as `b`. */
  function Swap(open: set<nat>, a: nat, b: nat): set<nat> {
    open - {a} + {b}
  }

  predicate Below(o: Operand, k: nat) {
    o.Temp? ==> o.id < k
  }

  lemma EmitShape(s: Low, i: Instr)
    ensures Shape(s, Emit(s, i)) && Shape(s, Def(s, i))
    ensures !IsTerminator(i) ==> PlainShape(s, Emit(s, i)) && PlainShape(s, Def(s, i))
    ensures IsOpen(Emit(s, i)) == !IsTerminator(i)
  {
    var t := Emit(s, i);
    assert t.blocks[s.cur] == s.blocks[s.cur] + [i];
  }

  lemma CoerceShape(s: Low, v: Operand, want: IrTy, from: Ty)
    requires Below(v, s.nextTemp)
    ensures var (t, c) := CoerceTo(s, v, want, from);
            PlainShape(s, t) && Below(c, t.nextTemp) && |t.blocks| == |s.blocks| && t.cur == s.cur
  {
    forall i | !IsTerminator(i) ensures PlainShape(s, Def(s, i)) {
      EmitShape(s, i);
    }
  }

  lemma I1Shape(s: Low, v: Operand, want: IrTy)
    requires Below(v, s.nextTemp)
    ensures var (t, c) := ToI1(s, v);
            PlainShape(s, t) && Below(c, t.nextTemp) && |t.blocks| == |s.blocks| && t.cur == s.cur
    ensures var (t, c) := FromI1(s, v, want); PlainShape(s, t) && Below(c, t.nextTemp)
  {
    forall i | !IsTerminator(i) ensures PlainShape(s, Def(s, i)) {
      EmitShape(s, i);
    }
  }

  lemma FinishUnaryShape(s: Low, op: UnOp, v: Operand, t: Ty)
    requires Below(v, s.nextTemp)
    ensures var (u, r) := FinishUnary(s, op, v, t); PlainShape(s, u) && Below(r, u.nextTemp)
  {
    match op
    case Neg => EmitShape(s, Bin(ISub, s.nextTemp, Const(v.ty, 0), v));
    case BitNot => EmitShape(s, Bin(IXor, s.nextTemp, v, Const(v.ty, 0xFFFF_FFFF_FFFF_FFFF)));
    case LogNot =>
      var i := Icmp(PEq, s.nextTemp, v, Const(v.ty, 0));
      EmitShape(s, i);
      I1Shape(Def(s, i), Temp(IInt(1), s.nextTemp), IrOf(t));
      PlainTrans(s, Def(s, i), FinishUnary(s, op, v, t).0);
  }

  lemma FinishBinaryShape(s: Low, op: BinOp, lhs: Operand, rhs: Operand, lt: Ty, rt: Ty, t: Ty)
    requires Below(lhs, s.nextTemp) && Below(rhs, s.nextTemp)
    ensures var (u, r) := FinishBinary(s, op, lhs, rhs, lt, rt, t); PlainShape(s, u) && Below(r, u.nextTemp)
  {
    var Balanced(s1, l, r) := Balance(s, lhs, rhs, lt, rt);
    CoerceShape(s, rhs, lhs.ty, rt);
    CoerceShape(s, lhs, rhs.ty, lt);
    var u := FinishBinary(s, op, lhs, rhs, lt, rt, t).0;
    if IsComparison(op) {
      var i := Icmp(IntPred(op, IsSigned(lt)), s1.nextTemp, l, r);
      EmitShape(s1, i);
      I1Shape(Def(s1, i), Temp(IInt(1), s1.nextTemp), IrOf(t));
      PlainTrans(s1, Def(s1, i), u);
    } else {
      EmitShape(s1, Bin(IntBinop(op, IsSigned(lt)), s1.nextTemp, l, r));
    }
    PlainTrans(s, s1, u);
  }

  lemma FinishCallShape(s: Low, f: Fn, vs: seq<Operand>)
    ensures var (u, r) := FinishCall(s, f, vs); PlainShape(s, u) && Below(r, u.nextTemp)
  {
    EmitShape(s, CallI(0, f, vs));
    EmitShape(s, CallI(s.nextTemp, f, vs));
  }

  // ------------------------------------------------------- logical operators

  lemma BeginLogicalShape(s: Low, t: Ty)
    ensures var u := BeginLogical(s, t);
            PlainShape(s, u) && u.cur == s.cur && |u.blocks| == |s.blocks| + 2
            && u.blocks[|s.blocks|] == [] && u.blocks[|s.blocks| + 1] == [] && s.nextTemp < u.nextTemp
  {
    EmitShape(s, Alloca(s.nextTemp, IrOf(t)));
  }

  /** The state from which the branch leaves for the right operand. */
  function AtBranch(s: Low, op: BinOp, lhs: Operand, lt: Ty, t: Ty, slot: nat, b: nat): Low
    requires b + 1 < |s.blocks|
  {
    var s2 := Emit(CoerceTo(s, lhs, IrOf(t), lt).0, Store(CoerceTo(s, lhs, IrOf(t), lt).1, Temp(IPtr, slot)));
    ToI1(s2, lhs).0
  }

  lemma BranchLogicalShape(s: Low, op: BinOp, lhs: Operand, lt: Ty, t: Ty, slot: nat, b: nat)
    requires Below(lhs, s.nextTemp) && b + 1 < |s.blocks| && s.cur != b
    ensures var u := BranchLogical(s, op, lhs, lt, t, slot, b);
            Ext(s.blocks, u.blocks) && |u.blocks| == |s.blocks| && u.cur == b && u.locals == s.locals
            && u.loops == s.loops
            && s.nextTemp <= u.nextTemp && s.errors <= u.errors
            && forall i :: 0 <= i < |s.blocks| && i != s.cur ==> u.blocks[i] == s.blocks[i]
  {
    var (s1, c) := CoerceTo(s, lhs, IrOf(t), lt);
    CoerceShape(s, lhs, IrOf(t), lt);
    EmitShape(s1, Store(c, Temp(IPtr, slot)));
    var s2 := Emit(s1, Store(c, Temp(IPtr, slot)));
    var (s3, i1) := ToI1(s2, lhs);
    I1Shape(s2, lhs, IVoid);
    PlainTrans(s, s1, s2);
    PlainTrans(s, s2, s3);
    EmitShape(s3, if op.LogAnd? then CondBr(i1, b, b + 1) else CondBr(i1, b + 1, b));
  }

  lemma FinishLogicalShape(s: Low, rhs: Operand, rt: Ty, t: Ty, slot: nat, b: nat)
    requires Below(rhs, s.nextTemp) && b + 1 < |s.blocks| && s.cur != b + 1
    ensures var (u, r) := FinishLogical(s, rhs, rt, t, slot, b);
            && Ext(s.blocks, u.blocks) && |u.blocks| == |s.blocks| && u.cur == b + 1 && u.locals == s.locals
            && u.loops == s.loops
            && s.nextTemp <= u.nextTemp && s.errors <= u.errors && Below(r, u.nextTemp)
            && (forall i :: 0 <= i < |s.blocks| && i != s.cur && i != b + 1 ==> u.blocks[i] == s.blocks[i])
            && IsOpen(u)
  {
    var (s1, c) := CoerceTo(s, rhs, IrOf(t), rt);
    CoerceShape(s, rhs, IrOf(t), rt);
    var s2 := Emit(s1, Store(c, Temp(IPtr, slot)));
    EmitShape(s1, Store(c, Temp(IPtr, slot)));
    EmitShape(s2, Br(b + 1));
    var s4 := Position(Emit(s2, Br(b + 1)), b + 1);
    EmitShape(s4, Load(s4.nextTemp, IrOf(t), Temp(IPtr, slot)));
    ShapeTrans(s, s1, s2);
    ShapeTrans(s, s2, Emit(s2, Br(b + 1)));
  }

  /** The pieces of a logical operator put together: `s1` is the state after the
      left operand, `s3` after the right. */
  lemma LogicalShape(s: Low, op: BinOp, lt: Ty, rt: Ty, t: Ty, s1: Low, lhs: Operand, s3: Low, rhs: Operand)
    requires PlainShape(BeginLogical(s, t), s1) && Below(lhs, s1.nextTemp)
    requires PlainShape(BranchLogical(s1, op, lhs, lt, t, s.nextTemp, |s.blocks|), s3) && Below(rhs, s3.nextTemp)
    ensures var (u, v) := FinishLogical(s3, rhs, rt, t, s.nextTemp, |s.blocks|);
            PlainShape(s, u) && Below(v, u.nextTemp)
  {
    var b, slot := |s.blocks|, s.nextTemp;
    BeginLogicalShape(s, t);
    var s0 := BeginLogical(s, t);
    BranchLogicalShape(s1, op, lhs, lt, t, slot, b);
    var s2 := BranchLogical(s1, op, lhs, lt, t, slot, b);
    FinishLogicalShape(s3, rhs, rt, t, slot, b);
    var u := FinishLogical(s3, rhs, rt, t, slot, b).0;
    Rebase(b, s.cur, s0, s1);
    Rebase(b, s.cur, s2, s3);
    WithinTrans(b, s.cur, s, s0, s1);
    WithinTrans(b, s.cur, s, s1, s2);
    WithinTrans(b, s.cur, s, s2, s3);
    WithinTrans(b, s.cur, s, s3, u);
  }

  // ------------------------------------------------------------- expressions

  lemma PlainSelf(s: Low)
    ensures PlainShape(s, s)
  {
  }

  lemma NameShape(s: Low, x: string, t: Ty)
    ensures var (u, v) := LowerName(s, x, t); PlainShape(s, u) && Below(v, u.nextTemp)
  {
    forall i | !IsTerminator(i) ensures PlainShape(s, Def(s, i)) {
      EmitShape(s, i);
    }
  }

  lemma ConversionShape(s: Low, v: Operand, from: Ty, to: Ty)
    requires Below(v, s.nextTemp)
    ensures var (u, c) := LowerConversion(s, v, from, to); PlainShape(s, u) && Below(c, u.nextTemp)
  {
    CoerceShape(s, v, IrOf(to), from);
  }

  lemma {:induction false} ExprShape(s: Low, e: Expr)
    ensures var (u, v) := LowerExpr(s, e); PlainShape(s, u) && Below(v, u.nextTemp)
    decreases e, 1
  {
    hide FinishUnary, FinishCall, FinishBinary, BeginLogical, BranchLogical, FinishLogical, LowerConversion, LowerName,
        PlainShape;
    match e
    case Int(n, t) => PlainSelf(s);
    case Bool(b, t) => PlainSelf(s);
    case Name(x, t) => NameShape(s, x, t);
    case Unary(op, e1, t) =>
      var (s1, v) := LowerExpr(s, e1);
      ExprShape(s, e1);
      FinishUnaryShape(s1, op, v, t);
      PlainTrans(s, s1, LowerExpr(s, e).0);
    case Conv(e1, t) =>
      var (s1, v) := LowerExpr(s, e1);
      ExprShape(s, e1);
      ConversionShape(s1, v, e1.ty, t);
      PlainTrans(s, s1, LowerExpr(s, e).0);
    case Call(f, args, t) =>
      var (s1, vs) := LowerArgs(s, f, args);
      ArgsShape(s, f, args);
      FinishCallShape(s1, f, vs);
      PlainTrans(s, s1, LowerExpr(s, e).0);
    case Binary(op, _, _, _) => if IsLogical(op) { LogicalExprShape(s, e); } else { ArithExprShape(s, e); }
  }

  lemma {:induction false} LogicalExprShape(s: Low, e: Expr)
    requires e.Binary? && IsLogical(e.bop)
    ensures var (u, v) := LowerExpr(s, e); PlainShape(s, u) && Below(v, u.nextTemp)
    decreases e, 0
  {
    hide PlainShape, Below, BeginLogical, BranchLogical, FinishLogical;
    var (s1, lhs) := LowerExpr(BeginLogical(s, e.ty), e.lhs);
    var s2 := BranchLogical(s1, e.bop, lhs, e.lhs.ty, e.ty, s.nextTemp, |s.blocks|);
    var (s3, rhs) := LowerExpr(s2, e.rhs);
    ExprShape(BeginLogical(s, e.ty), e.lhs);
    ExprShape(s2, e.rhs);
    LogicalShape(s, e.bop, e.lhs.ty, e.rhs.ty, e.ty, s1, lhs, s3, rhs);
  }

  lemma {:induction false} ArithExprShape(s: Low, e: Expr)
    requires e.Binary? && !IsLogical(e.bop)
    ensures var (u, v) := LowerExpr(s, e); PlainShape(s, u) && Below(v, u.nextTemp)
    decreases e, 0
  {
    hide FinishBinary;
    var (s1, lhs) := LowerExpr(s, e.lhs);
    var (s2, rhs) := LowerExpr(s1, e.rhs);
    ExprShape(s, e.lhs);
    ExprShape(s1, e.rhs);
    PlainTrans(s, s1, s2);
    FinishBinaryShape(s2, e.bop, lhs, rhs, e.lhs.ty, e.rhs.ty, e.ty);
    PlainTrans(s, s2, LowerExpr(s, e).0);
  }

  lemma {:induction false} ArgsShape(s: Low, f: Fn, args: seq<Expr>)
    ensures var (u, vs) := LowerArgs(s, f, args);
            PlainShape(s, u) && |vs| == |args| && forall i :: 0 <= i < |vs| ==> Below(vs[i], u.nextTemp)
    decreases args, 0
  {
    if args != [] {
      var k := |args| - 1;
      var (s1, vs) := LowerArgs(s, f, args[..k]);
      var (s2, v) := LowerExpr(s1, args[k]);
      ArgsShape(s, f, args[..k]);
      ExprShape(s1, args[k]);
      PlainTrans(s, s1, s2);
      if k < |f.params| {
        CoerceShape(s2, v, IrOf(f.params[k]), args[k].ty);
        PlainTrans(s, s2, LowerArgs(s, f, args).0);
      }
    }
  }

  // -------------------------------------------------------------- statements

  /** As Shape, for code with the loop stack restored; declarations may have
      been pushed on the locals. */
  predicate CodeShape(s: Low, t: Low) {
    Shape(s, t) && t.loops == s.loops && s.locals <= t.locals
  }

  lemma CodeTrans(s: Low, t: Low, u: Low)
    requires CodeShape(s, t) && CodeShape(t, u)
    ensures CodeShape(s, u)
  {
    ShapeTrans(s, t, u);
  }

  lemma JoinShape(s: Low, b: nat)
    ensures var t := Join(s, b);
            CodeShape(s, t) && t.locals == s.locals && t.cur == s.cur && t.nextTemp == s.nextTemp && !IsOpen(t)
  {
    EmitShape(s, Br(b));
  }

  lemma TestShape(s: Low, cond: Expr, yes: nat, no: nat)
    ensures CodeShape(s, LowerTest(s, cond, yes, no)) && LowerTest(s, cond, yes, no).locals == s.locals
  {
    var (s1, v) := LowerExpr(s, cond);
    ExprShape(s, cond);
    I1Shape(s1, v, IVoid);
    var (s2, i1) := ToI1(s1, v);
    EmitShape(s2, CondBr(i1, yes, no));
    CodeTrans(s, s1, s2);
    CodeTrans(s, s2, LowerTest(s, cond, yes, no));
  }

  lemma AddrShape(s: Low, e: Expr)
    ensures LowerAddr(s, e).0 == s.(errors := LowerAddr(s, e).0.errors) && s.errors <= LowerAddr(s, e).0.errors
  {
  }

  lemma VarShape(s: Low, d: Decl, init: Option<Expr>)
    ensures var t := LowerVar(s, d, init);
            && CodeShape(s, t) && t.locals == s.locals + [Binding(d, s.nextTemp)] && s.nextTemp < t.nextTemp
            && (IsOpen(s) ==> IsOpen(t))
  {
    var t := IrOf(d.ty);
    var slot := Temp(IPtr, s.nextTemp);
    var s1 := Def(s, Alloca(s.nextTemp, t));
    EmitShape(s, Alloca(s.nextTemp, t));
    if init.Some? {
      var (a, v) := LowerExpr(s1, init.value);
      ExprShape(s1, init.value);
      var (b, c) := CoerceTo(a, v, t, init.value.ty);
      CoerceShape(a, v, t, init.value.ty);
      EmitShape(b, Store(c, slot));
      PlainTrans(s, s1, a);
      PlainTrans(s, a, b);
      PlainTrans(s, b, Emit(b, Store(c, slot)));
    } else {
      EmitShape(s1, Store(Const(t, 0), slot));
      PlainTrans(s, s1, Emit(s1, Store(Const(t, 0), slot)));
    }
  }

  lemma AssignShape(s: Low, target: Expr, op: Option<BinOp>, rhs: Expr)
    ensures PlainShape(s, LowerAssign(s, target, op, rhs))
  {
    var (s1, addr) := LowerAddr(s, target);
    AddrShape(s, target);
    var t := IrOf(target.ty);
    var s0 := s1;
    if op.Some? {
      s0 := Def(s1, Load(s1.nextTemp, t, addr));
      EmitShape(s1, Load(s1.nextTemp, t, addr));
    }
    PlainTrans(s, s1, s0);
    var (s2, v) := LowerExpr(s0, rhs);
    ExprShape(s0, rhs);
    var (s3, c) := CoerceTo(s2, v, t, rhs.ty);
    CoerceShape(s2, v, t, rhs.ty);
    PlainTrans(s, s0, s2);
    PlainTrans(s, s2, s3);
    if op.None? {
      EmitShape(s3, Store(c, addr));
      PlainTrans(s, s3, Emit(s3, Store(c, addr)));
    } else {
      var i := Bin(IntBinop(op.value, IsSigned(target.ty)), s3.nextTemp, Temp(t, s1.nextTemp), c);
      EmitShape(s3, i);
      EmitShape(Def(s3, i), Store(Temp(t, s3.nextTemp), addr));
      PlainTrans(s, s3, Def(s3, i));
      PlainTrans(s, Def(s3, i), Emit(Def(s3, i), Store(Temp(t, s3.nextTemp), addr)));
    }
  }

  lemma ReturnShape(s: Low, result: Option<Expr>, ret: Ty)
    ensures CodeShape(s, LowerReturn(s, result, ret)) && LowerReturn(s, result, ret).locals == s.locals
    ensures !IsOpen(LowerReturn(s, result, ret))
  {
    if result.None? {
      EmitShape(s, Ret(None));
    } else {
      var (s1, v) := LowerExpr(s, result.value);
      ExprShape(s, result.value);
      var (s2, c) := CoerceTo(s1, v, IrOf(ret), result.value.ty);
      CoerceShape(s1, v, IrOf(ret), result.value.ty);
      EmitShape(s2, Ret(Some(c)));
      CodeTrans(s, s1, s2);
      CodeTrans(s, s2, Emit(s2, Ret(Some(c))));
    }
  }

  /** The state in which the body of a `while` entered at `s` is lowered. */
  predicate EnteredWhile(s: Low, t: Low) {
    var b := |s.blocks|;
    && Within(b, s.cur, s, t) && b + 3 <= |t.blocks| && t.cur == b + 1
    && t.loops == s.loops + [Loop(b, b + 2)] && t.locals == s.locals
    && t.blocks[b + 1] == [] && t.blocks[b + 2] == []
  }

  function WhileHead(s: Low): (r: Low)
    ensures |r.blocks| == |s.blocks| + 3
  {
    Position(Emit(NewBlock(NewBlock(NewBlock(s))), Br(|s.blocks|)), |s.blocks|)
  }

  lemma WhileTestShape(s: Low, t: Low)
    requires CodeShape(WhileHead(s), t) && t.locals == s.locals
    ensures EnteredWhile(s, Position(t.(loops := t.loops + [Loop(|s.blocks|, |s.blocks| + 2)]), |s.blocks| + 1))
  {
    var b := |s.blocks|;
    EmitShape(NewBlock(NewBlock(NewBlock(s))), Br(b));
    Rebase(b, s.cur, WhileHead(s), t);
    WithinTrans(b, s.cur, s, WhileHead(s), t);
  }

  lemma EnterWhileShape(s: Low, cond: Expr)
    ensures EnteredWhile(s, EnterWhile(s, cond))
  {
    TestShape(WhileHead(s), cond, |s.blocks| + 1, |s.blocks| + 2);
    WhileTestShape(s, LowerTest(WhileHead(s), cond, |s.blocks| + 1, |s.blocks| + 2));
  }

  /** Inside an `if` entered at `s`: the blocks from `|s.blocks| + from` up to
      the end block are still empty. */
  predicate IfOpen(s: Low, t: Low, from: nat, hasElse: bool) {
    var b := |s.blocks|;
    && Within(b, s.cur, s, t) && t.loops == s.loops && t.locals == s.locals
    && b + (if hasElse then 3 else 2) <= |t.blocks|
    && (forall k :: b + from <= k < b + (if hasElse then 3 else 2) ==> t.blocks[k] == [])
  }

  lemma IfHeadShape(s: Low, hasElse: bool, t: Low)
    requires CodeShape(IfBlocks(s, hasElse), t) && t.locals == s.locals
    ensures IfOpen(s, t, 0, hasElse)
  {
    var b := |s.blocks|;
    var s0 := IfBlocks(s, hasElse);
    Rebase(b, s.cur, s0, t);
    WithinTrans(b, s.cur, s, s0, t);
  }

  lemma IfThenShape(s: Low, hasElse: bool, t: Low, body: Low, end: nat)
    requires IfOpen(s, t, 0, hasElse)
    requires CodeShape(Position(t, |s.blocks|), body) && body.locals == s.locals
    ensures IfOpen(s, Join(body, end), 1, hasElse)
  {
    var b := |s.blocks|;
    var p := Position(t, b);
    JoinShape(body, end);
    CodeTrans(p, body, Join(body, end));
    Rebase(b, s.cur, p, Join(body, end));
    WithinTrans(b, s.cur, s, p, Join(body, end));
  }

  lemma IfElseShape(s: Low, t: Low, other: Low)
    requires IfOpen(s, t, 1, true)
    requires CodeShape(Position(t, |s.blocks| + 1), other)
    ensures var u := Join(other, |s.blocks| + 2);
            Within(|s.blocks|, s.cur, s, u) && u.loops == s.loops && s.locals <= u.locals
    ensures other.locals == s.locals ==> IfOpen(s, Join(other, |s.blocks| + 2), 2, true)
  {
    var b := |s.blocks|;
    var p := Position(t, b + 1);
    JoinShape(other, b + 2);
    CodeTrans(p, other, Join(other, b + 2));
    Rebase(b, s.cur, p, Join(other, b + 2));
    WithinTrans(b, s.cur, s, t, Join(other, b + 2));
  }

  lemma WhileShape(s: Low, t: Low, body: Low)
    requires EnteredWhile(s, t)
    requires CodeShape(t, body) && body.locals == s.locals
    ensures CodeShape(s, LeaveWhile(body, |s.blocks|)) && LeaveWhile(body, |s.blocks|).locals == s.locals
  {
    var b := |s.blocks|;
    JoinShape(body, b);
    CodeTrans(t, body, Join(body, b));
    Rebase(b, s.cur, t, Join(body, b));
    WithinTrans(b, s.cur, s, t, Join(body, b));
  }

  lemma MatchShape(s: Low, s1: Low, s2: Low, dest: nat)
    requires PlainShape(s, s1)
    requires CodeShape(NewBlock(s1), s2) && s2.locals == s1.locals
    ensures var t := Position(Emit(s2, Br(dest)), |s1.blocks|); CodeShape(s, t) && t.locals == s.locals
  {
    CodeTrans(s, s1, NewBlock(s1));
    CodeTrans(s, NewBlock(s1), s2);
    EmitShape(s2, Br(dest));
    CodeTrans(s, s2, Emit(s2, Br(dest)));
  }

  /** The parser only builds `else` with a block or another `if`. */
  predicate ElseOk(st: Stmt) {
    st.If? && st.els.Some? ==> st.els.value.Block? || (st.els.value.If? && ElseOk(st.els.value))
  }

  /** Lowering a statement pushes at most its own declaration. */
  predicate StmtShape(s: Low, st: Stmt, t: Low) {
    && CodeShape(s, t)
    && (if st.Var? then
          && |t.locals| == |s.locals| + 1
          && t.locals[|s.locals|].decl == st.decl
          && s.nextTemp <= t.locals[|s.locals|].reg < t.nextTemp
        else ElseOk(st) ==> t.locals == s.locals)
  }

  lemma {:induction false} StmtShapes(s: Low, st: Stmt, ret: Ty)
    ensures StmtShape(s, st, LowerStmt(s, st, ret))
    decreases st, 2
  {
    OpenShapes(EnsureOpen(s), st, ret);
    CodeTrans(s, EnsureOpen(s), LowerStmt(s, st, ret));
  }

  lemma {:induction false} OpenShapes(s: Low, st: Stmt, ret: Ty)
    ensures StmtShape(s, st, LowerOpen(s, st, ret))
    decreases st, 1
  {
    match st
    case Block(ss) => BlockShapes(s, ss, ret);
    case Var(d, init) => VarShape(s, d, init);
    case Assign(target, op, rhs) => AssignShape(s, target, op, rhs);
    case ExprStmt(e) => ExprShape(s, e);
    case Empty =>
    case Return(e) => ReturnShape(s, e, ret);
    case Break => if s.loops != [] { EmitShape(s, Br(s.loops[|s.loops| - 1].breakTo)); }
    case Continue => if s.loops != [] { EmitShape(s, Br(s.loops[|s.loops| - 1].continueTo)); }
    case If(c, thn, els) => IfShapes(s, st, ret);
    case While(c, body) => WhileShapes(s, st, ret);
    case Match(scrutinee, arms) => MatchShapes(s, st, ret);
  }

  lemma {:induction false} WhileShapes(s: Low, st: Stmt, ret: Ty)
    requires st.While?
    ensures StmtShape(s, st, LowerWhile(s, st, ret))
    decreases st, 0
  {
    var t := EnterWhile(s, st.cond);
    BlockShapes(t, st.body, ret);
    EnterWhileShape(s, st.cond);
    WhileShape(s, t, LowerBlock(t, st.body, ret));
  }

  lemma {:induction false} MatchShapes(s: Low, st: Stmt, ret: Ty)
    requires st.Match?
    ensures StmtShape(s, st, LowerMatch(s, st, ret))
    decreases st, 0
  {
    var (s1, v) := LowerExpr(s, st.scrutinee);
    ExprShape(s, st.scrutinee);
    ArmsShapes(NewBlock(s1), st.arms, v, |s1.blocks|, ret);
    var (s2, wild) := LowerArms(NewBlock(s1), st.arms, v, |s1.blocks|, ret);
    MatchShape(s, s1, s2, if wild.Some? then wild.value else |s1.blocks|);
  }

  lemma {:induction false} IfShapes(s: Low, st: Stmt, ret: Ty)
    requires st.If?
    ensures StmtShape(s, st, LowerIf(s, st, ret))
    decreases st, 0
  {
    hide Join, LowerTest, LowerBlock, LowerStmt, StmtShape, ElseOk, Within, CodeShape, IfOpen;
    var b, hasElse := |s.blocks|, st.els.Some?;
    var end := if hasElse then b + 2 else b + 1;
    var t := LowerTest(IfBlocks(s, hasElse), st.cond, b, b + 1);
    TestShape(IfBlocks(s, hasElse), st.cond, b, b + 1);
    IfHeadShape(s, hasElse, t);
    var body := LowerBlock(Position(t, b), st.thn, ret);
    BlockShapes(Position(t, b), st.thn, ret);
    IfThenShape(s, hasElse, t, body, end);
    IfOpenOut(s, Join(body, end), 1, hasElse);
    if hasElse {
      var u := Position(Join(body, end), b + 1);
      var other := LowerStmt(u, st.els.value, ret);
      StmtShapes(u, st.els.value, ret);
      ElseShape(u, st, other);
      IfElseShape(s, Join(body, end), other);
      if other.locals == s.locals {
        IfOpenOut(s, Join(other, end), 2, true);
      }
      IfEndShape(s, st, Join(other, end), end);
    } else {
      IfEndShape(s, st, Join(body, end), end);
    }
  }

  lemma IfOpenOut(s: Low, t: Low, from: nat, hasElse: bool)
    requires IfOpen(s, t, from, hasElse)
    ensures Within(|s.blocks|, s.cur, s, t) && t.loops == s.loops && t.locals == s.locals
  {
  }

  lemma ElseShape(s: Low, st: Stmt, t: Low)
    requires st.If? && st.els.Some? && StmtShape(s, st.els.value, t)
    ensures CodeShape(s, t) && (ElseOk(st) ==> t.locals == s.locals)
  {
  }

  lemma IfEndShape(s: Low, st: Stmt, t: Low, end: nat)
    requires st.If? && Within(|s.blocks|, s.cur, s, t) && t.loops == s.loops && s.locals <= t.locals
    requires (ElseOk(st) ==> t.locals == s.locals) && |s.blocks| <= end < |t.blocks|
    ensures StmtShape(s, st, Position(t, end))
  {
  }

  lemma {:induction false} BlockShapes(s: Low, ss: seq<Stmt>, ret: Ty)
    ensures CodeShape(s, LowerBlock(s, ss, ret)) && LowerBlock(s, ss, ret).locals == s.locals
    decreases ss, 1
  {
    SeqShapes(s, ss, ret);
  }

  lemma {:induction false} SeqShapes(s: Low, ss: seq<Stmt>, ret: Ty)
    ensures CodeShape(s, LowerSeq(s, ss, ret))
    decreases ss, 0
  {
    if ss != [] {
      var k := |ss| - 1;
      SeqShapes(s, ss[..k], ret);
      StmtShapes(LowerSeq(s, ss[..k], ret), ss[k], ret);
      CodeTrans(s, LowerSeq(s, ss[..k], ret), LowerSeq(s, ss, ret));
    }
  }

  lemma {:induction false} ArmsShapes(s: Low, arms: seq<Arm>, v: Operand, end: nat, ret: Ty)
    ensures var (t, wild) := LowerArms(s, arms, v, end, ret);
            CodeShape(s, t) && t.locals == s.locals && (wild.Some? ==> |s.blocks| <= wild.value < |t.blocks|)
    decreases arms, 0
  {
    if arms != [] {
      var k := |arms| - 1;
      ArmsShapes(s, arms[..k], v, end, ret);
      var s1 := LowerArms(s, arms[..k], v, end, ret).0;
      ArmShapes(s1, arms[k], v, end, ret);
      CodeTrans(s, s1, LowerArm(s1, arms[k], v, end, ret));
    }
  }

  lemma {:induction false} ArmShapes(s: Low, arm: Arm, v: Operand, end: nat, ret: Ty)
    ensures var t := LowerArm(s, arm, v, end, ret); CodeShape(s, t) && t.locals == s.locals
    decreases arm, 0
  {
    var b := |s.blocks|;
    var s1 := NewBlock(s);
    var s2 := if HasWildcard(arm.labels) then s1 else LowerLabels(s1, arm.labels, v, b);
    LabelsShapes(s1, arm.labels, v, b);
    var body := LowerStmt(Position(s2, b), arm.body, ret);
    StmtShapes(Position(s2, b), arm.body, ret);
    JoinShape(body, end);
    CodeTrans(Position(s2, b), body, Join(body, end));
    Rebase(b, s.cur, s1, s2);
    Rebase(b, s.cur, Position(s2, b), Join(body, end));
    WithinTrans(b, s.cur, s, s2, Join(body, end));
  }

  lemma {:induction false} LabelsShapes(s: Low, labels: seq<Label>, v: Operand, body: nat)
    ensures var t := LowerLabels(s, labels, v, body);
            CodeShape(s, t) && t.locals == s.locals && (IsOpen(s) ==> IsOpen(t))
    decreases labels, 0
  {
    if labels != [] {
      var k := |labels| - 1;
      LabelsShapes(s, labels[..k], v, body);
      var s1 := LowerLabels(s, labels[..k], v, body);
      LabelShape(s1, labels[k], v, body);
      CodeTrans(s, s1, LowerLabel(s1, labels[k], v, body));
    }
  }

  lemma LabelShape(s: Low, l: Label, v: Operand, body: nat)
    ensures var t := LowerLabel(s, l, v, body); CodeShape(s, t) && t.locals == s.locals && (IsOpen(s) ==> IsOpen(t))
  {
    if l.Value? {
      var next := |s.blocks|;
      var (s1, w) := LowerExpr(NewBlock(s), l.expr);
      ExprShape(NewBlock(s), l.expr);
      var i := Icmp(PEq, s1.nextTemp, v, w);
      EmitShape(s1, i);
      var s2 := Def(s1, i);
      EmitShape(s2, CondBr(Temp(IInt(1), s1.nextTemp), body, next));
      var s3 := Emit(s2, CondBr(Temp(IInt(1), s1.nextTemp), body, next));
      CodeTrans(s, NewBlock(s), s1);
      CodeTrans(s, s1, s2);
      CodeTrans(s, s2, s3);
    }
  }

  /** The tests of an arm leave the block of its body alone. */
  lemma ChainFrame(s: Low, arm: Arm, v: Operand, b: nat)
    requires b < |s.blocks| && s.cur != b
    ensures var t := if HasWildcard(arm.labels) then s else LowerLabels(s, arm.labels, v, b);
            t.locals == s.locals && t.loops == s.loops && t.cur != b
  {
    hide LowerLabels, HasWildcard;
    LabelsShapes(s, arm.labels, v, b);
  }

  /** The body of an arm leaves the chain of tests alone. */
  lemma BodyFrame(s: Low, st: Stmt, b: nat, end: nat, ret: Ty)
    requires b < |s.blocks| && s.cur != b
    ensures var u := Join(LowerStmt(Position(s, b), st, ret), end);
            |s.blocks| <= |u.blocks| && u.blocks[s.cur] == s.blocks[s.cur] && Cut(u.locals, |s.locals|) == s.locals
  {
    hide LowerStmt;
    var p := Position(s, b);
    var body := LowerStmt(p, st, ret);
    StmtShapes(p, st, ret);
    JoinShape(body, end);
    assert body.blocks[s.cur] == s.blocks[s.cur];
  }
}
