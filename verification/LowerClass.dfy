/** The lowerer itself: one mutable state, walked over by one routine per
    construct. Each routine is shown to leave behind exactly the state that the
    functions of Lowering.dfy describe, so everything proved about those holds
    of it. */
module LowerClass {
  import opened Words
  import opened Types
  import opened Tree
  import opened Ir
  import Spec = Lowering
  import Shape = LoweringShape

  /** A comparison of balanced operands, and an arithmetic operator on them. */
  function CompareSpec(s: Spec.Low, op: BinOp, l: Operand, r: Operand, lt: Ty, t: Ty): (Spec.Low, Operand) {
    Spec.FromI1(Spec.Def(s, Icmp(Spec.IntPred(op, IsSigned(lt)), s.nextTemp, l, r)), Temp(IInt(1), s.nextTemp),
        Spec.IrOf(t))
  }

  function ArithSpec(s: Spec.Low, op: BinOp, l: Operand, r: Operand, lt: Ty): (Spec.Low, Operand) {
    (Spec.Def(s, Bin(Spec.IntBinop(op, IsSigned(lt)), s.nextTemp, l, r)), Temp(l.ty, s.nextTemp))
  }

  lemma FinishedCompare(s: Spec.Low, s1: Spec.Low, op: BinOp, lhs: Operand, rhs: Operand, l: Operand, r: Operand,
                        lt: Ty, rt: Ty, t: Ty)
    requires Spec.Balance(s, lhs, rhs, lt, rt) == Spec.Balanced(s1, l, r) && IsComparison(op)
    ensures Spec.FinishBinary(s, op, lhs, rhs, lt, rt, t).0 == CompareSpec(s1, op, l, r, lt, t).0
    ensures Spec.FinishBinary(s, op, lhs, rhs, lt, rt, t).1 == CompareSpec(s1, op, l, r, lt, t).1
  {
    hide Spec.Balance, Spec.FromI1, Spec.IntPred, Spec.IrOf, Spec.Def, IsSigned;
  }

  lemma FinishedArith(s: Spec.Low, s1: Spec.Low, op: BinOp, lhs: Operand, rhs: Operand, l: Operand, r: Operand, lt: Ty,
                      rt: Ty, t: Ty)
    requires Spec.Balance(s, lhs, rhs, lt, rt) == Spec.Balanced(s1, l, r) && !IsComparison(op)
    ensures Spec.FinishBinary(s, op, lhs, rhs, lt, rt, t).0 == ArithSpec(s1, op, l, r, lt).0
    ensures Spec.FinishBinary(s, op, lhs, rhs, lt, rt, t).1 == ArithSpec(s1, op, l, r, lt).1
  {
    hide Spec.Balance, Spec.IntBinop, Spec.Def, IsSigned;
  }

  class Lower {
    var blocks: Blocks
    var cur: nat
    var nextTemp: nat
    var locals: seq<Spec.Binding>
    var loops: seq<Spec.Loop>
    var errors: nat

    ghost predicate Valid()
      reads this
    {
      cur < |blocks|
    }

    ghost function State(): Spec.Low
      requires Valid()
      reads this
    {
      Spec.LowState(blocks, cur, nextTemp, locals, loops, errors)
    }

    constructor ()
      ensures Valid() && State() == Spec.LowState([[]], 0, 0, [], [], 0)
    {
      blocks, cur, nextTemp, locals, loops, errors := [[]], 0, 0, [], [], 0;
    }

    // --------------------------------------------------------------- builder

    method Emit(i: Instr)
      requires Valid()
      modifies `blocks
      ensures Valid() && State() == Spec.Emit(old(State()), i)
    {
      blocks := blocks[cur := blocks[cur] + [i]];
    }

    /** Emits an instruction that defines the next temporary. */
    method Define(i: Instr, ty: IrTy) returns (v: Operand)
      requires Valid()
      modifies this
      ensures Valid() && State() == Spec.Def(old(State()), i) && v == Temp(ty, old(nextTemp))
    {
      v := Temp(ty, nextTemp);
      Emit(i);
      nextTemp := nextTemp + 1;
    }

    method NewBlock() returns (b: nat)
      requires Valid()
      modifies `blocks
      ensures Valid() && State() == Spec.NewBlock(old(State())) && b == old(|blocks|)
    {
      b := |blocks|;
      blocks := blocks + [[]];
    }

    method PositionAt(b: nat)
      requires Valid() && b < |blocks|
      modifies `cur
      ensures Valid() && State() == Spec.Position(old(State()), b)
    {
      cur := b;
    }

    method Fail()
      requires Valid()
      modifies `errors
      ensures Valid() && State() == Spec.Fail(old(State()))
    {
      errors := errors + 1;
    }

    method FindLocal(x: string) returns (r: Option<nat>)
      ensures r == Spec.FindLocal(locals, x)
    {
      var i := |locals|;
      assert locals[..i] == locals;
      while i > 0 // innermost first
        invariant 0 <= i <= |locals|
        invariant Spec.FindLocal(locals, x) == Spec.FindLocal(locals[..i], x)
      {
        i := i - 1;
        assert locals[..i + 1][..i] == locals[..i];
        if locals[i].decl.name == x {
          return Some(i);
        }
      }
      return None;
    }

    // ----------------------------------------------------------- conversions

    method ToI1(v: Operand) returns (r: Operand)
      requires Valid()
      modifies this
      ensures Valid() && State() == Spec.ToI1(old(State()), v).0 && r == Spec.ToI1(old(State()), v).1
      ensures |blocks| == old(|blocks|)
    {
      if v.ty == IInt(1) {
        return v;
      }
      r := Define(Icmp(PNe, nextTemp, v, Const(v.ty, 0)), IInt(1));
    }

    method FromI1(v: Operand, want: IrTy) returns (r: Operand)
      requires Valid()
      modifies this
      ensures Valid() && State() == Spec.FromI1(old(State()), v, want).0 && r == Spec.FromI1(old(State()), v, want).1
      ensures |blocks| == old(|blocks|)
    {
      if !want.IInt? || want.bits == 1 {
        return v;
      }
      r := Define(Cast(ZExt, nextTemp, v, want), want);
    }

    method CoerceTo(v: Operand, want: IrTy, from: Ty) returns (r: Operand)
      requires Valid()
      modifies this
      ensures Valid() && State() == Spec.CoerceTo(old(State()), v, want, from).0
              && r == Spec.CoerceTo(old(State()), v, want, from).1
      ensures |blocks| == old(|blocks|)
    {
      hide IsSigned;
      r := v;
      if v.ty != want && v.ty.IInt? && want.IInt? {
        r := Resize(v, want, IsSigned(from));
      }
    }

    method LowerConversion(v: Operand, from: Ty, to: Ty) returns (r: Operand)
      requires Valid()
      modifies this
      ensures Valid() && State() == Spec.LowerConversion(old(State()), v, from, to).0
              && r == Spec.LowerConversion(old(State()), v, from, to).1
    {
      hide Spec.IrOf, IsSigned, Spec.Def, Spec.Fail;
      var dst := Spec.IrOf(to);
      r := v;
      if v.ty.IInt? && dst.IInt? {
        // the sign of what is widened decides
        r := Resize(v, dst, IsSigned(from));
      } else if v.ty != dst {
        Fail();
      }
    }

    /** An integer made wider or narrower. */
    method Resize(v: Operand, dst: IrTy, signed: bool) returns (r: Operand)
      requires Valid() && v.ty.IInt? && dst.IInt?
      modifies this
      ensures Valid() && |blocks| == old(|blocks|)
      ensures v.ty.bits == dst.bits ==> State() == old(State()) && r == v
      ensures v.ty.bits != dst.bits ==>
                var c := if v.ty.bits > dst.bits then Trunc else if signed then SExt else ZExt;
                State() == Spec.Def(old(State()), Cast(c, old(nextTemp), v, dst)) && r == Temp(dst, old(nextTemp))
    {
      if v.ty.bits == dst.bits {
        r := v;
      } else if v.ty.bits > dst.bits {
        r := Define(Cast(Trunc, nextTemp, v, dst), dst);
      } else {
        r := Define(Cast(if signed then SExt else ZExt, nextTemp, v, dst), dst);
      }
    }

    // ----------------------------------------------------------- expressions

    method LowerExpr(e: Expr) returns (v: Operand)
      requires Valid()
      modifies this
      ensures Valid() && State() == Spec.LowerExpr(old(State()), e).0 && v == Spec.LowerExpr(old(State()), e).1
      decreases e, 2
    {
      match e
      case Int(n, t) => v := Const(Spec.IrOf(t), n);
      case Bool(b, t) => v := Const(Spec.IrOf(t), if b then 1 else 0);
      case Name(x, t) => v := LowerName(x, t);
      case Unary(_, _, _) => v := LowerUnary(e);
      case Binary(_, _, _, _) => v := LowerBinary(e);
      case Call(f, args, _) => v := LowerCall(f, args);
      case Conv(operand, t) =>
        var w := LowerExpr(operand);
        v := LowerConversion(w, operand.ty, t);
    }

    method LowerName(x: string, t: Ty) returns (v: Operand)
      requires Valid()
      modifies this
      ensures Valid() && State() == Spec.LowerName(old(State()), x, t).0 && v == Spec.LowerName(old(State()), x, t).1
    {
      var i := FindLocal(x);
      if i.Some? {
        var b := locals[i.value];
        v := Define(Load(nextTemp, Spec.IrOf(b.decl.ty), Temp(IPtr, b.reg)), Spec.IrOf(b.decl.ty));
        return;
      }
      var member := MemberValue(t, x);
      if member.Some? {
        return Const(Spec.IrOf(t), member.value);
      }
      Fail();
      return Undef(Spec.IrOf(t));
    }

    method LowerUnary(e: Expr) returns (v: Operand)
      requires Valid() && e.Unary?
      modifies this
      ensures Valid() && State() == Spec.LowerExpr(old(State()), e).0 && v == Spec.LowerExpr(old(State()), e).1
      decreases e, 1
    {
      var w := LowerExpr(e.operand);
      match e.uop
      case Neg => v := Define(Bin(ISub, nextTemp, Const(w.ty, 0), w), w.ty);
      case BitNot => v := Define(Bin(IXor, nextTemp, w, Const(w.ty, 0xFFFF_FFFF_FFFF_FFFF)), w.ty);
      case LogNot =>
        var c := Define(Icmp(PEq, nextTemp, w, Const(w.ty, 0)), IInt(1));
        v := FromI1(c, Spec.IrOf(e.ty));
    }

    method LowerBinary(e: Expr) returns (v: Operand)
      requires Valid() && e.Binary?
      modifies this
      ensures Valid() && State() == Spec.LowerExpr(old(State()), e).0 && v == Spec.LowerExpr(old(State()), e).1
      decreases e, 1
    {
      if IsLogical(e.bop) {
        v := LowerShortCircuit(e);
        return;
      }
      var lt, rt := e.lhs.ty, e.rhs.ty;
      var lhs := LowerExpr(e.lhs);
      var rhs := LowerExpr(e.rhs);
      v := OperateOn(e.bop, lhs, rhs, lt, rt, e.ty);
    }

    /** The operator itself, once both operands are lowered. */
    method OperateOn(op: BinOp, lhs: Operand, rhs: Operand, lt: Ty, rt: Ty, t: Ty) returns (v: Operand)
      requires Valid() && !IsLogical(op)
      modifies this
      ensures Valid() && State() == Spec.FinishBinary(old(State()), op, lhs, rhs, lt, rt, t).0
      ensures v == Spec.FinishBinary(old(State()), op, lhs, rhs, lt, rt, t).1
    {
      hide Spec.Balance, Spec.FromI1, Spec.IntBinop, Spec.IntPred, Spec.IrOf, Spec.Def, Spec.FinishBinary, IsSigned;
      ghost var s0 := State();
      var l, r := Balance(lhs, rhs, lt, rt);
      ghost var s1 := State();
      assert Spec.Balance(s0, lhs, rhs, lt, rt) == Spec.Balanced(s1, l, r);
      if IsComparison(op) {
        v := CompareOn(op, l, r, lt, t);
        FinishedCompare(s0, s1, op, lhs, rhs, l, r, lt, rt, t);
      } else {
        v := ArithOn(op, l, r, lt);
        FinishedArith(s0, s1, op, lhs, rhs, l, r, lt, rt, t);
      }
    }

    method CompareOn(op: BinOp, l: Operand, r: Operand, lt: Ty, t: Ty) returns (v: Operand)
      requires Valid() && IsComparison(op)
      modifies this
      ensures Valid() && State() == CompareSpec(old(State()), op, l, r, lt, t).0
      ensures v == CompareSpec(old(State()), op, l, r, lt, t).1
    {
      hide Spec.FromI1, Spec.IntPred, Spec.IrOf, IsSigned;
      var p := Spec.IntPred(op, IsSigned(lt));
      var c := Define(Icmp(p, nextTemp, l, r), IInt(1));
      v := FromI1(c, Spec.IrOf(t));
    }

    method ArithOn(op: BinOp, l: Operand, r: Operand, lt: Ty) returns (v: Operand)
      requires Valid() && !IsComparison(op) && !IsLogical(op)
      modifies this
      ensures Valid() && State() == ArithSpec(old(State()), op, l, r, lt).0
      ensures v == ArithSpec(old(State()), op, l, r, lt).1
    {
      hide Spec.IntBinop, IsSigned;
      v := Define(Bin(Spec.IntBinop(op, IsSigned(lt)), nextTemp, l, r), l.ty);
    }

    /** Brings both operands to one width. */
    method Balance(lhs: Operand, rhs: Operand, lt: Ty, rt: Ty) returns (l: Operand, r: Operand)
      requires Valid()
      modifies this
      ensures Valid() && State() == Spec.Balance(old(State()), lhs, rhs, lt, rt).state
      ensures l == Spec.Balance(old(State()), lhs, rhs, lt, rt).left
              && r == Spec.Balance(old(State()), lhs, rhs, lt, rt).right
    {
      hide Spec.CoerceTo, IsUntyped;
      l, r := lhs, rhs;
      var wantL, wantR := lhs.ty, rhs.ty;
      if wantL != wantR {
        if !IsUntyped(lt) {
          r := CoerceTo(rhs, wantL, rt);
        } else {
          l := CoerceTo(lhs, wantR, lt);
        }
      }
    }

    /** `&&` and `||`: the branch that runs is the one that writes the slot. */
    method LowerShortCircuit(e: Expr) returns (v: Operand)
      requires Valid() && e.Binary? && IsLogical(e.bop)
      modifies this
      ensures Valid() && State() == Spec.LowerExpr(old(State()), e).0 && v == Spec.LowerExpr(old(State()), e).1
      decreases e, 0
    {
      hide Spec.IrOf, Spec.BranchLogical, Spec.FinishLogical, Spec.LowerArgs, Spec.LowerName;
      var rt := Spec.IrOf(e.ty);
      var slot := Define(Alloca(nextTemp, rt), IPtr);
      var rhsBlock := NewBlock();
      var endBlock := NewBlock();
      assert State() == Spec.BeginLogical(old(State()), e.ty);
      var lhs := LowerExpr(e.lhs);
      BranchLogical(e.bop, lhs, e.lhs.ty, e.ty, slot, rhsBlock);
      var rhs := LowerExpr(e.rhs);
      v := FinishLogical(rhs, e.rhs.ty, e.ty, slot, rhsBlock);
    }

    /** Stores the left value and branches on it. */
    method BranchLogical(op: BinOp, lhs: Operand, lt: Ty, t: Ty, slot: Operand, b: nat)
      requires Valid() && b + 1 < |blocks| && slot.Temp? && slot.ty == IPtr
      modifies this
      ensures Valid() && State() == Spec.BranchLogical(old(State()), op, lhs, lt, t, slot.id, b)
    {
      hide Spec.CoerceTo, Spec.ToI1, Spec.IrOf;
      StoreOperand(lhs, Spec.IrOf(t), lt, slot);
      var cond := ToI1(lhs);
      if op.LogAnd? {
        Emit(CondBr(cond, b, b + 1));
      } else {
        Emit(CondBr(cond, b + 1, b));
      }
      PositionAt(b);
    }

    /** Stores the right value, joins, and loads what the branch that ran wrote. */
    method FinishLogical(rhs: Operand, rt: Ty, t: Ty, slot: Operand, b: nat) returns (v: Operand)
      requires Valid() && b + 1 < |blocks| && slot.Temp? && slot.ty == IPtr
      modifies this
      ensures Valid() && State() == Spec.FinishLogical(old(State()), rhs, rt, t, slot.id, b).0
      ensures v == Spec.FinishLogical(old(State()), rhs, rt, t, slot.id, b).1
    {
      hide Spec.CoerceTo, Spec.IrOf;
      StoreOperand(rhs, Spec.IrOf(t), rt, slot);
      Emit(Br(b + 1));
      PositionAt(b + 1);
      v := Define(Load(nextTemp, Spec.IrOf(t), slot), Spec.IrOf(t));
    }

    method StoreOperand(v: Operand, t: IrTy, from: Ty, addr: Operand)
      requires Valid()
      modifies this
      ensures Valid() && State()
              == (var (s, c) := Spec.CoerceTo(old(State()), v, t, from); Spec.Emit(s, Store(c, addr)))
      ensures |blocks| == old(|blocks|)
    {
      var c := CoerceTo(v, t, from);
      Emit(Store(c, addr));
    }

    method LowerCall(f: Fn, args: seq<Expr>) returns (v: Operand)
      requires Valid()
      modifies this
      ensures Valid()
      ensures var (s, vs) := Spec.LowerArgs(old(State()), f, args);
              State() == Spec.FinishCall(s, f, vs).0 && v == Spec.FinishCall(s, f, vs).1
      decreases args
    {
      var vs := [];
      var i := 0;
      while i < |args|
        invariant 0 <= i <= |args| && Valid()
        invariant State() == Spec.LowerArgs(old(State()), f, args[..i]).0
                  && vs == Spec.LowerArgs(old(State()), f, args[..i]).1
      {
        var w := LowerExpr(args[i]);
        if i < |f.params| {
          w := CoerceTo(w, Spec.IrOf(f.params[i]), args[i].ty);
        }
        vs := vs + [w];
        assert args[..i + 1][..i] == args[..i];
        i := i + 1;
      }
      assert args[..i] == args;
      if f.ret.Void? {
        Emit(CallI(0, f, vs));
        return Undef(IVoid);
      }
      v := Define(CallI(nextTemp, f, vs), Spec.IrOf(f.ret));
    }

    // ------------------------------------------------------------ statements

    method EnsureOpen()
      requires Valid()
      modifies this
      ensures Valid() && State() == Spec.EnsureOpen(old(State()))
    {
      if Terminated(blocks[cur]) {
        var b := NewBlock();
        PositionAt(b);
      }
    }

    /** Ends the current block with a jump unless it has already ended. */
    method JoinTo(b: nat)
      requires Valid()
      modifies this
      ensures Valid() && State() == Spec.Join(old(State()), b)
    {
      if !Terminated(blocks[cur]) {
        Emit(Br(b));
      }
    }

    method LowerVar(d: Decl, init: Option<Expr>)
      requires Valid()
      modifies this
      ensures Valid() && State() == Spec.LowerVar(old(State()), d, init)
    {
      hide Spec.CoerceTo, Spec.LowerExpr, Spec.IrOf;
      var t := Spec.IrOf(d.ty);
      var slot := Define(Alloca(nextTemp, t), IPtr);
      if init.Some? {
        var v := LowerExpr(init.value);
        StoreOperand(v, t, init.value.ty, slot);
      } else {
        Emit(Store(Const(t, 0), slot));
      }
      locals := locals + [Spec.Binding(d, slot.id)];
    }

    method LowerAddr(e: Expr) returns (addr: Operand)
      requires Valid()
      modifies this
      ensures Valid() && State() == Spec.LowerAddr(old(State()), e).0 && addr == Spec.LowerAddr(old(State()), e).1
      decreases e
    {
      match e
      case Name(x, _) =>
        var i := FindLocal(x);
        if i.Some? {
          return Temp(IPtr, locals[i.value].reg);
        }
        Fail();
        return Undef(IPtr);
      case Conv(operand, _) => addr := LowerAddr(operand);
      case _ =>
        Fail();
        return Undef(IPtr);
    }

    method LowerAssign(target: Expr, op: Option<BinOp>, rhs: Expr)
      requires Valid()
      modifies this
      ensures Valid() && State() == Spec.LowerAssign(old(State()), target, op, rhs)
    {
      hide Spec.CoerceTo, Spec.LowerExpr, Spec.IrOf, Spec.LowerAddr, Spec.Emit, Spec.Def, Spec.IntBinop;
      var addr := LowerAddr(target);
      var t := Spec.IrOf(target.ty);
      if op.None? {
        var v := LowerExpr(rhs);
        StoreOperand(v, t, rhs.ty, addr);
        return;
      }
      var current := Define(Load(nextTemp, t, addr), t);
      var v := LowerExpr(rhs);
      v := CoerceTo(v, t, rhs.ty);
      var result := Define(Bin(Spec.IntBinop(op.value, IsSigned(target.ty)), nextTemp, current, v), t);
      Emit(Store(result, addr));
    }

    method LowerReturn(result: Option<Expr>, ret: Ty)
      requires Valid()
      modifies this
      ensures Valid() && State() == Spec.LowerReturn(old(State()), result, ret)
    {
      hide Spec.CoerceTo, Spec.LowerExpr, Spec.IrOf, Spec.Emit;
      if result.None? {
        Emit(Ret(None));
        return;
      }
      var v := LowerExpr(result.value);
      v := CoerceTo(v, Spec.IrOf(ret), result.value.ty);
      Emit(Ret(Some(v)));
    }

    /** Lowers a condition and branches on it. */
    method LowerTest(cond: Expr, yes: nat, no: nat)
      requires Valid()
      modifies this
      ensures Valid() && State() == Spec.LowerTest(old(State()), cond, yes, no)
    {
      hide Spec.ToI1, Spec.LowerExpr, Spec.Emit;
      var v := LowerExpr(cond);
      var i1 := ToI1(v);
      Emit(CondBr(i1, yes, no));
    }

    method LowerStmt(st: Stmt, ret: Ty)
      requires Valid()
      modifies this
      ensures Valid() && State() == Spec.LowerStmt(old(State()), st, ret)
      decreases st, 2
    {
      hide Spec.LowerBlock, Spec.LowerVar, Spec.LowerAssign, Spec.LowerExpr, Spec.LowerReturn, Spec.LowerIf;
      hide Spec.LowerWhile, Spec.LowerMatch, Spec.EnsureOpen, Spec.Emit;
      EnsureOpen();
      match st
      case Block(ss) => LowerBlock(ss, ret);
      case Var(d, init) => LowerVar(d, init);
      case Assign(target, op, rhs) => LowerAssign(target, op, rhs);
      case ExprStmt(e) => var _ := LowerExpr(e);
      case Empty =>
      case Return(e) => LowerReturn(e, ret);
      case Break =>
        if loops == [] {
          Fail();
        } else {
          Emit(Br(loops[|loops| - 1].breakTo));
        }
      case Continue =>
        if loops == [] {
          Fail();
        } else {
          Emit(Br(loops[|loops| - 1].continueTo));
        }
      case If(_, _, _) => LowerIf(st, ret);
      case While(_, _) => LowerWhile(st, ret);
      case Match(_, _) => LowerMatch(st, ret);
    }

    method LowerIf(st: Stmt, ret: Ty)
      requires Valid() && st.If?
      modifies this
      ensures Valid() && State() == Spec.LowerIf(old(State()), st, ret)
      decreases st, 1
    {
      hide Spec.LowerTest, Spec.LowerBlock, Spec.Join, Spec.LowerStmt;
      var thenBlock := NewBlock();
      var elseBlock := |blocks|;
      if st.els.Some? {
        elseBlock := NewBlock();
      }
      var endBlock := NewBlock();
      assert State() == Spec.IfBlocks(old(State()), st.els.Some?);
      LowerTest(st.cond, thenBlock, if st.els.Some? then elseBlock else endBlock);
      LowerBranches(st, ret, thenBlock, elseBlock, endBlock);
    }

    /** Both branches of an `if`, each joined to the end block. */
    method LowerBranches(st: Stmt, ret: Ty, thenBlock: nat, elseBlock: nat, endBlock: nat)
      requires Valid() && st.If? && thenBlock < |blocks| && endBlock < |blocks|
               && (st.els.Some? ==> elseBlock < |blocks|)
      modifies this
      ensures Valid()
      ensures var s2 := Spec.Join(Spec.LowerBlock(Spec.Position(old(State()), thenBlock), st.thn, ret), endBlock);
              var s3 := if st.els.None? then s2
                        else Spec.Join(Spec.LowerStmt(Spec.Position(s2, elseBlock), st.els.value, ret), endBlock);
              State() == Spec.Position(s3, endBlock)
      decreases st, 0
    {
      hide Spec.LowerBlock, Spec.Join, Spec.LowerStmt;
      PositionAt(thenBlock);
      LowerBlock(st.thn, ret);
      JoinTo(endBlock);
      if st.els.Some? {
        PositionAt(elseBlock);
        LowerStmt(st.els.value, ret);
        JoinTo(endBlock);
      }
      PositionAt(endBlock);
    }

    method LowerWhile(st: Stmt, ret: Ty)
      requires Valid() && st.While?
      modifies this
      ensures Valid() && State() == Spec.LowerWhile(old(State()), st, ret)
      decreases st, 0
    {
      hide Spec.LowerTest, Spec.LowerBlock, Spec.Join;
      var condBlock := NewBlock();
      var bodyBlock := NewBlock();
      var endBlock := NewBlock();
      Emit(Br(condBlock));
      PositionAt(condBlock);
      LowerTest(st.cond, bodyBlock, endBlock);
      loops := loops + [Spec.Loop(condBlock, endBlock)];
      PositionAt(bodyBlock);
      assert State() == Spec.EnterWhile(old(State()), st.cond);
      ghost var entered := State();
      LowerBlock(st.body, ret);
      Shape.BlockShapes(entered, st.body, ret);
      Shape.JoinShape(State(), condBlock);
      JoinTo(condBlock);
      loops := loops[..|loops| - 1];
      PositionAt(endBlock);
    }

    method LowerMatch(st: Stmt, ret: Ty)
      requires Valid() && st.Match?
      modifies this
      ensures Valid() && State() == Spec.LowerMatch(old(State()), st, ret)
      decreases st, 0
    {
      hide Spec.LowerExpr, Spec.LowerArm, HasWildcard;
      var scrutinee := LowerExpr(st.scrutinee);
      var endBlock := NewBlock();
      ghost var s0 := State();
      var wildcard := None;
      var a := 0;
      while a < |st.arms|
        invariant 0 <= a <= |st.arms| && Valid() && endBlock < |blocks|
        invariant State() == Spec.LowerArms(s0, st.arms[..a], scrutinee, endBlock, ret).0
        invariant wildcard == Spec.LowerArms(s0, st.arms[..a], scrutinee, endBlock, ret).1
      {
        var bodyBlock, isWildcard := LowerArm(st.arms[a], scrutinee, endBlock, ret);
        if isWildcard {
          wildcard := Some(bodyBlock);
        }
        assert st.arms[..a + 1][..a] == st.arms[..a];
        a := a + 1;
      }
      assert st.arms[..a] == st.arms;
      Emit(Br(if wildcard.Some? then wildcard.value else endBlock));
      PositionAt(endBlock);
    }

    method IsWildcardArm(labels: seq<Label>) returns (isWildcard: bool)
      ensures isWildcard == HasWildcard(labels)
      ensures !isWildcard ==> forall j :: 0 <= j < |labels| ==> labels[j].Value?
    {
      isWildcard := false;
      var l := 0;
      while l < |labels|
        invariant 0 <= l <= |labels|
        invariant isWildcard <==> exists j :: 0 <= j < l && labels[j].Wildcard?
      {
        if labels[l].Wildcard? {
          isWildcard := true;
        }
        l := l + 1;
      }
    }

    /** One arm of a match: its tests go on the chain, its body is lowered away
        from it. */
    method LowerArm(arm: Arm, v: Operand, endBlock: nat, ret: Ty) returns (bodyBlock: nat, isWildcard: bool)
      requires Valid()
      modifies this
      ensures Valid() && State() == Spec.LowerArm(old(State()), arm, v, endBlock, ret)
      ensures bodyBlock == old(|blocks|) && isWildcard == HasWildcard(arm.labels)
      decreases arm, 0
    {
      hide Spec.LowerStmt, Spec.LowerLabels, Spec.Join, HasWildcard, Cut;
      bodyBlock := NewBlock();
      isWildcard := IsWildcardArm(arm.labels);
      if !isWildcard {
        LowerLabels(arm.labels, v, bodyBlock);
      }
      LowerArmBody(arm.body, bodyBlock, endBlock, ret);
    }

    /** Fills the arm's own block and repositions the builder at the tests. */
    method LowerArmBody(body: Stmt, bodyBlock: nat, endBlock: nat, ret: Ty)
      requires Valid() && bodyBlock < |blocks|
      modifies this
      ensures Valid()
      ensures var s := Spec.Join(Spec.LowerStmt(Spec.Position(old(State()), bodyBlock), body, ret), endBlock);
              State() == Spec.Position(s.(locals := Cut(s.locals, |old(locals)|)), old(cur))
      decreases body, 3
    {
      hide Spec.LowerStmt, Spec.Join, Cut;
      var resume, mark := cur, |locals|;
      PositionAt(bodyBlock);
      LowerStmt(body, ret);
      JoinTo(endBlock);
      locals := Cut(locals, mark);
      PositionAt(resume);
    }

    /** The equality tests of an arm. */
    method LowerLabels(labels: seq<Label>, v: Operand, bodyBlock: nat)
      requires Valid() && forall j :: 0 <= j < |labels| ==> labels[j].Value?
      modifies this
      ensures Valid() && State() == Spec.LowerLabels(old(State()), labels, v, bodyBlock)
    {
      hide Spec.LowerExpr;
      var l := 0;
      while l < |labels|
        invariant 0 <= l <= |labels| && Valid()
        invariant State() == Spec.LowerLabels(old(State()), labels[..l], v, bodyBlock)
      {
        ghost var s := State();
        var nextBlock := NewBlock();
        var w := LowerExpr(labels[l].expr);
        var c := Define(Icmp(PEq, nextTemp, v, w), IInt(1));
        Emit(CondBr(c, bodyBlock, nextBlock));
        PositionAt(nextBlock);
        assert State() == Spec.LowerLabel(s, labels[l], v, bodyBlock);
        assert labels[..l + 1][..l] == labels[..l];
        l := l + 1;
      }
      assert labels[..l] == labels;
    }

    /** Remembers how many locals there were and drops the rest at the end. */
    method LowerBlock(ss: seq<Stmt>, ret: Ty)
      requires Valid()
      modifies this
      ensures Valid() && State() == Spec.LowerBlock(old(State()), ss, ret)
      decreases ss, 1
    {
      hide Spec.LowerStmt;
      var mark := |locals|;
      var i := 0;
      while i < |ss|
        invariant 0 <= i <= |ss| && Valid()
        invariant State() == Spec.LowerSeq(old(State()), ss[..i], ret)
      {
        LowerStmt(ss[i], ret);
        assert ss[..i + 1][..i] == ss[..i];
        i := i + 1;
      }
      assert ss[..i] == ss;
      locals := Cut(locals, mark);
    }

    // ------------------------------------------------------------- functions

    /** Spills the parameters. */
    method LowerParams(params: seq<Decl>)
      requires Valid()
      modifies this
      ensures Valid() && State() == Spec.LowerParams(old(State()), params)
    {
      var i := 0;
      while i < |params|
        invariant 0 <= i <= |params| && Valid()
        invariant State() == Spec.LowerParams(old(State()), params[..i])
      {
        var t := Spec.IrOf(params[i].ty);
        var slot := Define(Alloca(nextTemp, t), IPtr);
        Emit(Store(Temp(t, i), slot));
        locals := locals + [Spec.Binding(params[i], slot.id)];
        assert params[..i + 1][..i] == params[..i];
        i := i + 1;
      }
      assert params[..i] == params;
    }

    /** Starts a new function and lowers its body. The errors of earlier
        functions are kept. */
    method LowerFunction(fn: FnDecl)
      modifies this
      ensures Valid() && blocks == Spec.LowerFunction(fn).blocks
      ensures errors == old(errors) + Spec.LowerFunction(fn).errors
    {
      hide Spec.LowerBlock, Spec.LowerParams;
      var before := errors;
      blocks, cur, nextTemp, locals, loops, errors := [[]], 0, |fn.params|, [], [], 0;
      LowerParams(fn.params);
      LowerBlock(fn.body, fn.ret);
      if !Terminated(blocks[cur]) {
        if fn.ret.Void? {
          Emit(Ret(None));
        } else {
          Emit(Unreachable);
        }
      }
      errors := before + errors;
    }
  }
}
