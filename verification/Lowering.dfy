/** Lowering, as functions on the lowering state: what each routine of the
    lowerer leaves behind. LowerClass.dfy has the routines themselves. */
module Lowering {
  import opened Words
  import opened Types
  import opened Tree
  import opened Ir

  datatype Binding = Binding(decl: Decl, reg: nat)

  datatype Loop = Loop(continueTo: nat, breakTo: nat)

  datatype LowState = LowState(
    blocks: Blocks,         // the blocks of the function, in creation order
    cur: nat,               // the block the builder is positioned at
    nextTemp: nat,
    locals: seq<Binding>,   // innermost last
    loops: seq<Loop>,
    errors: nat)

  /** The builder is always positioned at a block of the function. */
  type Low = s: LowState | s.cur < |s.blocks| witness LowState([[]], 0, 0, [], [], 0)

  // ----------------------------------------------------------------- builder

  function Emit(s: Low, i: Instr): Low {
    s.(blocks := s.blocks[s.cur := s.blocks[s.cur] + [i]])
  }

  /** Emits an instruction that defines the next temporary. */
  function Def(s: Low, i: Instr): Low {
    Emit(s, i).(nextTemp := s.nextTemp + 1)
  }

  function NewBlock(s: Low): Low {
    s.(blocks := s.blocks + [[]])
  }

  function Position(s: Low, b: nat): Low
    requires b < |s.blocks|
  {
    s.(cur := b)
  }

  predicate IsOpen(s: Low) {
    !Terminated(s.blocks[s.cur])
  }

  function Fail(s: Low): Low {
    s.(errors := s.errors + 1)
  }

  // ------------------------------------------------------------------- types

  function IrOf(t: Ty): IrTy {
    match t
    case F32 => IFloat(32)
    case F64 => IFloat(64)
    case UntypedFloat => IFloat(64)
    case Ptr(_) => IPtr
    case Null => IPtr
    case Array(elem, n) => IArray(elem, n)
    case Struct(name) => IStruct(name)
    case Void => IVoid
    case Poison => IVoid
    case _ => IInt(Width(t))
  }

  lemma IrOfScalar(t: Ty)
    requires IsScalar(t)
    ensures IrOf(t) == IInt(Width(t))
  {
  }

  // ----------------------------------------------------------------- lookups

  function FindLocal(locals: seq<Binding>, x: string): (r: Option<nat>)
    ensures r.Some? ==> r.value < |locals|
  {
    if locals == [] then None
    else if locals[|locals| - 1].decl.name == x then Some(|locals| - 1)
    else FindLocal(locals[..|locals| - 1], x)
  }

  // -------------------------------------------------------------- conversions

  /** Branches test one bit: a wider truth value is compared with zero... */
  function ToI1(s: Low, v: Operand): (Low, Operand) {
    if v.ty == IInt(1) then (s, v)
    else (Def(s, Icmp(PNe, s.nextTemp, v, Const(v.ty, 0))), Temp(IInt(1), s.nextTemp))
  }

  /** ...and the bit a comparison yields is widened to its type. */
  function FromI1(s: Low, v: Operand, want: IrTy): (Low, Operand) {
    if !want.IInt? || want.bits == 1 then (s, v)
    else (Def(s, Cast(ZExt, s.nextTemp, v, want)), Temp(want, s.nextTemp))
  }

  /** Makes a value as wide as its context, extending by the signedness of the
      type it comes from. Only the integer case: floats are not modelled. */
  function CoerceTo(s: Low, v: Operand, want: IrTy, from: Ty): (Low, Operand) {
    if v.ty == want || !v.ty.IInt? || !want.IInt? then (s, v)
    else if v.ty.bits > want.bits then
      (Def(s, Cast(Trunc, s.nextTemp, v, want)), Temp(want, s.nextTemp))
    else
      (Def(s, Cast(if IsSigned(from) then SExt else ZExt, s.nextTemp, v, want)), Temp(want, s.nextTemp))
  }

  /** An explicit or inserted conversion: between integers it is the same rule. */
  function LowerConversion(s: Low, v: Operand, from: Ty, to: Ty): (r: (Low, Operand))
    ensures |r.0.blocks| == |s.blocks|
  {
    if v.ty.IInt? && IrOf(to).IInt? then CoerceTo(s, v, IrOf(to), from)
    else if v.ty == IrOf(to) then (s, v)
    else (Fail(s), v)
  }

  function IntBinop(op: BinOp, signed: bool): IrOp {
    match op
    case Add => IAdd
    case Sub => ISub
    case Mul => IMul
    case Div => if signed then ISDiv else IUDiv
    case Rem => if signed then ISRem else IURem
    case And => IAnd
    case Or => IOr
    case Xor => IXor
    case Shl => IShl
    case Shr => if signed then IAShr else ILShr
    case _ => IAdd
  }

  function IntPred(op: BinOp, signed: bool): Pred {
    match op
    case Eq => PEq
    case Ne => PNe
    case Lt => if signed then PSlt else PUlt
    case Le => if signed then PSle else PUle
    case Gt => if signed then PSgt else PUgt
    case _ => if signed then PSge else PUge
  }

  // -------------------------------------------------------------- expressions

  function LowerExpr(s: Low, e: Expr): (r: (Low, Operand))
    ensures |s.blocks| <= |r.0.blocks|
    decreases e, 0
  {
    hide LowerName, FinishUnary, FinishBinary, FinishCall, LowerConversion, BeginLogical, BranchLogical, FinishLogical,
        LowerArgs;
    match e
    case Int(n, t) => (s, Const(IrOf(t), n))
    case Bool(b, t) => (s, Const(IrOf(t), Truth(b)))
    case Name(x, t) => LowerName(s, x, t)
    case Unary(op, e1, t) =>
      var (s1, v) := LowerExpr(s, e1);
      FinishUnary(s1, op, v, t)
    case Conv(e1, t) =>
      var (s1, v) := LowerExpr(s, e1);
      LowerConversion(s1, v, e1.ty, t)
    case Call(f, args, t) =>
      var (s1, vs) := LowerArgs(s, f, args);
      FinishCall(s1, f, vs)
    case Binary(op, l, r, t) =>
      if IsLogical(op) then
        var (s1, lhs) := LowerExpr(BeginLogical(s, t), l);
        var (s2, rhs) := LowerExpr(BranchLogical(s1, op, lhs, l.ty, t, s.nextTemp, |s.blocks|), r);
        FinishLogical(s2, rhs, r.ty, t, s.nextTemp, |s.blocks|)
      else
        var (s1, lhs) := LowerExpr(s, l);
        var (s2, rhs) := LowerExpr(s1, r);
        FinishBinary(s2, op, lhs, rhs, l.ty, r.ty, t)
  }

  function LowerName(s: Low, x: string, t: Ty): (r: (Low, Operand))
    ensures |r.0.blocks| == |s.blocks|
  {
    match FindLocal(s.locals, x)
    case Some(i) =>
      var b := s.locals[i];
      (Def(s, Load(s.nextTemp, IrOf(b.decl.ty), Temp(IPtr, b.reg))), Temp(IrOf(b.decl.ty), s.nextTemp))
    case None =>
      match MemberValue(t, x)
      case Some(v) => (s, Const(IrOf(t), v))
      case None => (Fail(s), Undef(IrOf(t)))
  }

  /** A name that is no local's lowers to the number of the first member of its
      enum spelled so, and to an error when there is none. */
  lemma MemberLowers(s: Low, x: string, t: Ty)
    requires t.Enum? && FindLocal(s.locals, x).None?
    ensures var r := LowerExpr(s, Name(x, t));
            && (forall i: nat :: FirstNamed(t.members, x, i) ==>
                  r.0 == s && r.1 == Const(IInt(Width(t)), t.members[i].value))
            && ((forall i :: 0 <= i < |t.members| ==> t.members[i].name != x) ==> r.0 == Fail(s))
  {
    MemberIsFirst(t.members, x);
    forall i: nat | FirstNamed(t.members, x, i)
      ensures FindMember(t.members, x) == Some(t.members[i].value)
    {
    }
  }

  function FinishUnary(s: Low, op: UnOp, v: Operand, t: Ty): (r: (Low, Operand))
    ensures |r.0.blocks| == |s.blocks|
  {
    match op
    case Neg => (Def(s, Bin(ISub, s.nextTemp, Const(v.ty, 0), v)), Temp(v.ty, s.nextTemp))
    case BitNot => (Def(s, Bin(IXor, s.nextTemp, v, Const(v.ty, 0xFFFF_FFFF_FFFF_FFFF))), Temp(v.ty, s.nextTemp))
    case LogNot => FromI1(Def(s, Icmp(PEq, s.nextTemp, v, Const(v.ty, 0))), Temp(IInt(1), s.nextTemp), IrOf(t))
  }

  datatype Balanced = Balanced(state: Low, left: Operand, right: Operand)

  /** Brings both operands to one width: the left one's unless it is untyped. */
  function Balance(s: Low, l: Operand, r: Operand, lt: Ty, rt: Ty): Balanced {
    if l.ty != r.ty && !IsUntyped(lt) then
      var (s1, r1) := CoerceTo(s, r, l.ty, rt);
      Balanced(s1, l, r1)
    else if l.ty != r.ty then
      var (s1, l1) := CoerceTo(s, l, r.ty, lt);
      Balanced(s1, l1, r)
    else Balanced(s, l, r)
  }

  function FinishBinary(s: Low, op: BinOp, lhs: Operand, rhs: Operand, lt: Ty, rt: Ty, t: Ty): (r: (Low, Operand))
    ensures |r.0.blocks| == |s.blocks|
  {
    var Balanced(s1, l, r) := Balance(s, lhs, rhs, lt, rt);
    if IsComparison(op) then
      FromI1(Def(s1, Icmp(IntPred(op, IsSigned(lt)), s1.nextTemp, l, r)), Temp(IInt(1), s1.nextTemp), IrOf(t))
    else
      (Def(s1, Bin(IntBinop(op, IsSigned(lt)), s1.nextTemp, l, r)), Temp(l.ty, s1.nextTemp))
  }

  /** Logical operators: a slot for the result and the blocks `rhs` and `end`,
      numbered `b` and `b + 1`; the slot is temporary `slot`. */
  function BeginLogical(s: Low, t: Ty): (r: Low)
    ensures |r.blocks| == |s.blocks| + 2
  {
    NewBlock(NewBlock(Def(s, Alloca(s.nextTemp, IrOf(t)))))
  }

  /** Stores the left value and branches on it; leaves the builder at `rhs`. */
  function BranchLogical(s: Low, op: BinOp, lhs: Operand, lt: Ty, t: Ty, slot: nat, b: nat): (r: Low)
    requires b + 1 < |s.blocks|
    ensures |r.blocks| == |s.blocks|
  {
    var (s1, c) := CoerceTo(s, lhs, IrOf(t), lt);
    var s2 := Emit(s1, Store(c, Temp(IPtr, slot)));
    var (s3, i1) := ToI1(s2, lhs);
    var s4 := Emit(s3, if op.LogAnd? then CondBr(i1, b, b + 1) else CondBr(i1, b + 1, b));
    Position(s4, b)
  }

  /** Stores the right value, joins, and loads what the branch that ran wrote. */
  function FinishLogical(s: Low, rhs: Operand, rt: Ty, t: Ty, slot: nat, b: nat): (r: (Low, Operand))
    requires b + 1 < |s.blocks|
    ensures |r.0.blocks| == |s.blocks|
  {
    var (s1, c) := CoerceTo(s, rhs, IrOf(t), rt);
    var s2 := Position(Emit(Emit(s1, Store(c, Temp(IPtr, slot))), Br(b + 1)), b + 1);
    (Def(s2, Load(s2.nextTemp, IrOf(t), Temp(IPtr, slot))), Temp(IrOf(t), s2.nextTemp))
  }

  function LowerArgs(s: Low, f: Fn, args: seq<Expr>): (r: (Low, seq<Operand>))
    ensures |s.blocks| <= |r.0.blocks|
    decreases args, 0
  {
    if args == [] then (s, [])
    else
      var k := |args| - 1;
      var (s1, vs) := LowerArgs(s, f, args[..k]);
      var (s2, v) := LowerExpr(s1, args[k]);
      if k < |f.params| then
        var (s3, c) := CoerceTo(s2, v, IrOf(f.params[k]), args[k].ty);
        (s3, vs + [c])
      else (s2, vs + [v])
  }

  function FinishCall(s: Low, f: Fn, vs: seq<Operand>): (r: (Low, Operand))
    ensures |r.0.blocks| == |s.blocks|
  {
    if f.ret.Void? then (Emit(s, CallI(0, f, vs)), Undef(IVoid))
    else (Def(s, CallI(s.nextTemp, f, vs)), Temp(IrOf(f.ret), s.nextTemp))
  }

  // --------------------------------------------------------------- statements

  /** Code after a jump or a return goes into a block that nothing leads to. */
  function EnsureOpen(s: Low): (r: Low)
    ensures |s.blocks| <= |r.blocks|
  {
    if IsOpen(s) then s else Position(NewBlock(s), |s.blocks|)
  }

  /** Ends the current block with a jump unless it has already ended. */
  function Join(s: Low, b: nat): (r: Low)
    ensures |r.blocks| == |s.blocks|
  {
    if IsOpen(s) then Emit(s, Br(b)) else s
  }

  function LowerVar(s: Low, d: Decl, init: Option<Expr>): (r: Low)
    ensures |s.blocks| <= |r.blocks|
  {
    var t := IrOf(d.ty);
    var slot := Temp(IPtr, s.nextTemp);
    var s1 := Def(s, Alloca(s.nextTemp, t));
    var s2 :=
      if init.Some? then
        var (a, v) := LowerExpr(s1, init.value);
        var (b, c) := CoerceTo(a, v, t, init.value.ty);
        Emit(b, Store(c, slot))
      else Emit(s1, Store(Const(t, 0), slot));
    s2.(locals := s2.locals + [Binding(d, s.nextTemp)])
  }

  /** The storage of an assignment target. */
  function LowerAddr(s: Low, e: Expr): (r: (Low, Operand))
    ensures r.0.blocks == s.blocks
    decreases e
  {
    match e
    case Name(x, _) => (
      match FindLocal(s.locals, x)
      case Some(i) => (s, Temp(IPtr, s.locals[i].reg))
      case None => (Fail(s), Undef(IPtr)))
    case Conv(e1, _) => LowerAddr(s, e1)
    case _ => (Fail(s), Undef(IPtr))
  }

  function LowerAssign(s: Low, target: Expr, op: Option<BinOp>, rhs: Expr): (r: Low)
    ensures |s.blocks| <= |r.blocks|
  {
    var (s1, addr) := LowerAddr(s, target);
    var t := IrOf(target.ty);
    if op.None? then
      var (s2, v) := LowerExpr(s1, rhs);
      var (s3, c) := CoerceTo(s2, v, t, rhs.ty);
      Emit(s3, Store(c, addr))
    else
      var cur := Temp(t, s1.nextTemp);
      var (s2, v) := LowerExpr(Def(s1, Load(s1.nextTemp, t, addr)), rhs);
      var (s3, c) := CoerceTo(s2, v, t, rhs.ty);
      var s4 := Def(s3, Bin(IntBinop(op.value, IsSigned(target.ty)), s3.nextTemp, cur, c));
      Emit(s4, Store(Temp(t, s3.nextTemp), addr))
  }

  function LowerReturn(s: Low, result: Option<Expr>, ret: Ty): (r: Low)
    ensures |s.blocks| <= |r.blocks|
  {
    if result.None? then Emit(s, Ret(None))
    else
      var (s1, v) := LowerExpr(s, result.value);
      var (s2, c) := CoerceTo(s1, v, IrOf(ret), result.value.ty);
      Emit(s2, Ret(Some(c)))
  }

  /** `if`: new blocks then (b), else (b + 1, when there is one) and end. */
  function IfBlocks(s: Low, hasElse: bool): (r: Low)
    ensures |r.blocks| == |s.blocks| + (if hasElse then 3 else 2)
  {
    if hasElse then NewBlock(NewBlock(NewBlock(s))) else NewBlock(NewBlock(s))
  }

  /** Lowers a condition and branches on it. */
  function LowerTest(s: Low, cond: Expr, yes: nat, no: nat): (r: Low)
    ensures |s.blocks| <= |r.blocks|
  {
    var (s1, v) := LowerExpr(s, cond);
    var (s2, i1) := ToI1(s1, v);
    Emit(s2, CondBr(i1, yes, no))
  }

  /** `while`: blocks cond (b), body (b + 1) and end (b + 2); jumps to cond,
      tests there, and enters the body with the loop pushed. */
  function EnterWhile(s: Low, cond: Expr): (r: Low)
    ensures |s.blocks| + 3 <= |r.blocks|
  {
    var b := |s.blocks|;
    var s1 := Emit(NewBlock(NewBlock(NewBlock(s))), Br(b));
    var s2 := LowerTest(Position(s1, b), cond, b + 1, b + 2);
    Position(s2.(loops := s2.loops + [Loop(b, b + 2)]), b + 1)
  }

  function LeaveWhile(s: Low, b: nat): (r: Low)
    requires b + 2 < |s.blocks|
    ensures |r.blocks| == |s.blocks|
  {
    var s1 := Join(s, b);
    Position(s1.(loops := Cut(s1.loops, if |s1.loops| > 0 then |s1.loops| - 1 else 0)), b + 2)
  }

  function LowerStmt(s: Low, st: Stmt, ret: Ty): (r: Low)
    ensures |s.blocks| <= |r.blocks|
    decreases st, 2
  {
    LowerOpen(EnsureOpen(s), st, ret)
  }

  /** Lowers a statement into an open block. */
  function LowerOpen(s: Low, st: Stmt, ret: Ty): (r: Low)
    ensures |s.blocks| <= |r.blocks|
    decreases st, 1
  {
    match st
    case Block(ss) => LowerBlock(s, ss, ret)
    case Var(d, init) => LowerVar(s, d, init)
    case Assign(target, op, rhs) => LowerAssign(s, target, op, rhs)
    case ExprStmt(e) => LowerExpr(s, e).0
    case Empty => s
    case Return(e) => LowerReturn(s, e, ret)
    case Break => if s.loops == [] then Fail(s) else Emit(s, Br(s.loops[|s.loops| - 1].breakTo))
    case Continue => if s.loops == [] then Fail(s) else Emit(s, Br(s.loops[|s.loops| - 1].continueTo))
    case If(_, _, _) => LowerIf(s, st, ret)
    case While(_, _) => LowerWhile(s, st, ret)
    case Match(_, _) => LowerMatch(s, st, ret)
  }

  function LowerIf(s: Low, st: Stmt, ret: Ty): (r: Low)
    requires st.If?
    ensures |s.blocks| <= |r.blocks|
    decreases st, 0
  {
    var b := |s.blocks|;
    var end := if st.els.Some? then b + 2 else b + 1;
    var s1 := LowerTest(IfBlocks(s, st.els.Some?), st.cond, b, b + 1);
    var s2 := Join(LowerBlock(Position(s1, b), st.thn, ret), end);
    var s3 := if st.els.Some? then Join(LowerStmt(Position(s2, b + 1), st.els.value, ret), end) else s2;
    Position(s3, end)
  }

  function LowerWhile(s: Low, st: Stmt, ret: Ty): (r: Low)
    requires st.While?
    ensures |s.blocks| <= |r.blocks|
    decreases st, 0
  {
    LeaveWhile(LowerBlock(EnterWhile(s, st.cond), st.body, ret), |s.blocks|)
  }

  /** The arms' tests in order, then a jump to the last wildcard arm, or to the end
      block when no arm has a `_`. */
  function LowerMatch(s: Low, st: Stmt, ret: Ty): (r: Low)
    requires st.Match?
    ensures |s.blocks| <= |r.blocks|
    decreases st, 0
  {
    var (s1, v) := LowerExpr(s, st.scrutinee);
    var end := |s1.blocks|;
    var (s2, wild) := LowerArms(NewBlock(s1), st.arms, v, end, ret);
    Position(Emit(s2, Br(if wild.Some? then wild.value else end)), end)
  }

  function LowerBlock(s: Low, ss: seq<Stmt>, ret: Ty): (r: Low)
    ensures |s.blocks| <= |r.blocks|
    decreases ss, 1
  {
    var s1 := LowerSeq(s, ss, ret);
    s1.(locals := Cut(s1.locals, |s.locals|))
  }

  function LowerSeq(s: Low, ss: seq<Stmt>, ret: Ty): (r: Low)
    ensures |s.blocks| <= |r.blocks|
    decreases ss, 0
  {
    if ss == [] then s
    else LowerStmt(LowerSeq(s, ss[..|ss| - 1], ret), ss[|ss| - 1], ret)
  }

  /** The tests of all arms, one after the other, and the block of the last
      wildcard arm so far. */
  function LowerArms(s: Low, arms: seq<Arm>, v: Operand, end: nat, ret: Ty): (r: (Low, Option<nat>))
    ensures |s.blocks| <= |r.0.blocks|
    decreases arms, 0
  {
    if arms == [] then (s, None)
    else
      var k := |arms| - 1;
      var (s1, wild) := LowerArms(s, arms[..k], v, end, ret);
      (LowerArm(s1, arms[k], v, end, ret), if HasWildcard(arms[k].labels) then Some(|s1.blocks|) else wild)
  }

  /** One arm: its tests go on the chain, its body into its own block. */
  function LowerArm(s: Low, arm: Arm, v: Operand, end: nat, ret: Ty): (r: Low)
    ensures |s.blocks| < |r.blocks|
    decreases arm, 0
  {
    var b := |s.blocks|;
    var s1 := NewBlock(s);
    var s2 := if HasWildcard(arm.labels) then s1 else LowerLabels(s1, arm.labels, v, b);
    var s3 := Join(LowerStmt(Position(s2, b), arm.body, ret), end);
    Position(s3.(locals := Cut(s3.locals, |s2.locals|)), s2.cur)
  }

  function LowerLabels(s: Low, labels: seq<Label>, v: Operand, body: nat): (r: Low)
    ensures |s.blocks| <= |r.blocks|
    decreases labels, 0
  {
    if labels == [] then s
    else
      var s1 := LowerLabels(s, labels[..|labels| - 1], v, body);
      LowerLabel(s1, labels[|labels| - 1], v, body)
  }

  function LowerLabel(s: Low, l: Label, v: Operand, body: nat): (r: Low)
    ensures |s.blocks| <= |r.blocks|
  {
    if l.Wildcard? then s
    else
      var next := |s.blocks|;
      var (s1, w) := LowerExpr(NewBlock(s), l.expr);
      var s2 := Def(s1, Icmp(PEq, s1.nextTemp, v, w));
      Position(Emit(s2, CondBr(Temp(IInt(1), s1.nextTemp), body, next)), next)
  }

  // ---------------------------------------------------------------- functions

  /** Spills the parameters: one slot each, holding the argument. */
  function LowerParams(s: Low, params: seq<Decl>): (r: Low)
    ensures |r.blocks| == |s.blocks|
  {
    if params == [] then s
    else
      var k := |params| - 1;
      var s1 := LowerParams(s, params[..k]);
      var s2 := Def(s1, Alloca(s1.nextTemp, IrOf(params[k].ty)));
      var s3 := Emit(s2, Store(Temp(IrOf(params[k].ty), k), Temp(IPtr, s1.nextTemp)));
      s3.(locals := s3.locals + [Binding(params[k], s1.nextTemp)])
  }

  /** Temporaries 0 .. |params| - 1 are the parameters. */
  function Entry(fn: FnDecl): Low {
    LowState([[]], 0, |fn.params|, [], [], 0)
  }

  function Body(fn: FnDecl): Low {
    LowerBlock(LowerParams(Entry(fn), fn.params), fn.body, fn.ret)
  }

  function LowerFunction(fn: FnDecl): Low {
    var s := Body(fn);
    if !IsOpen(s) then s
    else if fn.ret.Void? then Emit(s, Ret(None))
    else Emit(s, Unreachable)
  }

  /** What lowering cannot do it reports: a jump outside every loop, and an assignment
      to what is no local. */
  lemma FailuresReported(s: Low, st: Stmt, ret: Ty)
    ensures (st.Break? || st.Continue?) && s.loops == [] ==> LowerStmt(s, st, ret).errors == s.errors + 1
    ensures forall x, t :: FindLocal(s.locals, x).None? ==> LowerAddr(s, Name(x, t)).0.errors == s.errors + 1
    ensures forall e: Expr :: !e.Name? && !e.Conv? ==> LowerAddr(s, e).0.errors == s.errors + 1
  {
  }
}
