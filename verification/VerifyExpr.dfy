/** Lowering a checked expression keeps the verifier satisfied. */
module VerifyExpr {
  import opened Words
  import opened Types
  import opened Tree
  import opened Typing
  import opened Ir
  import opened Lowering
  import opened LoweringShape
  import opened LoweringTypes
  import opened IrVerify

  // ---------------------------------------------------------------- invariant

  /** Passes its own check, and keeps passing it as the function grows. */
  predicate InstrOk(f: Blocks, ret: IrTy, i: Instr) {
    && InstrProblems(f, ret, i) == 0
    && (i.Store? ==> i.addr.Temp? && DefiningInstr(f, i.addr.id).Some?)
  }

  predicate DefinesBelow(i: Instr, k: nat) {
    Defines(i).Some? ==> Defines(i).value < k
  }

  predicate BlockOk(f: Blocks, ret: IrTy, k: nat, b: seq<Instr>) {
    forall j :: 0 <= j < |b| ==>
      InstrOk(f, ret, b[j]) && DefinesBelow(b[j], k) && (j < |b| - 1 ==> !IsTerminator(b[j]))
  }

  /** What temporary `id` was allocated as. */
  function SlotOf(f: Blocks, id: nat): Option<IrTy> {
    match DefiningInstr(f, id)
    case Some(Alloca(_, t)) => Some(t)
    case _ => None
  }

  predicate SlotsOk(f: Blocks, locals: seq<Binding>) {
    forall i :: 0 <= i < |locals| ==> SlotOf(f, locals[i].reg) == Some(IrOf(locals[i].decl.ty))
  }

  predicate Ok(s: Low, ret: IrTy) {
    && (forall j :: 0 <= j < |s.blocks| ==> BlockOk(s.blocks, ret, s.nextTemp, s.blocks[j]))
    && SlotsOk(s.blocks, s.locals)
    && LoopsOk(|s.blocks|, s.loops)
    && s.errors == 0
  }

  /** Every block outside `open` has its terminator. */
  predicate Sealed(f: Blocks, open: set<nat>) {
    forall j :: 0 <= j < |f| && j !in open ==> Terminated(f[j])
  }

  /** `f` became `g`: more blocks, and values keep their definitions. */
  ghost predicate Later(f: Blocks, g: Blocks) {
    |f| <= |g| && forall id :: DefiningInstr(f, id).Some? ==> DefiningInstr(g, id) == DefiningInstr(f, id)
  }

  lemma LaterTrans(f: Blocks, g: Blocks, h: Blocks)
    requires Later(f, g) && Later(g, h)
    ensures Later(f, h)
  {
    forall id | DefiningInstr(f, id).Some? ensures DefiningInstr(h, id) == DefiningInstr(f, id) {
      assert DefiningInstr(g, id) == DefiningInstr(f, id);
    }
  }

  lemma SlotLater(f: Blocks, g: Blocks, id: nat)
    requires Later(f, g) && SlotOf(f, id).Some?
    ensures SlotOf(g, id) == SlotOf(f, id)
  {
  }

  lemma InstrLater(f: Blocks, g: Blocks, ret: IrTy, i: Instr)
    requires Later(f, g) && InstrOk(f, ret, i)
    ensures InstrOk(g, ret, i)
  {
  }

  lemma BlockLater(f: Blocks, g: Blocks, ret: IrTy, k: nat, n: nat, b: seq<Instr>)
    requires Later(f, g) && BlockOk(f, ret, k, b) && k <= n
    ensures BlockOk(g, ret, n, b)
  {
    forall j | 0 <= j < |b|
        ensures InstrOk(g, ret, b[j]) && DefinesBelow(b[j], n) && (j < |b| - 1 ==> !IsTerminator(b[j])) {
      InstrLater(f, g, ret, b[j]);
    }
  }

  // ---------------------------------------------------------------- emission

  /** Appending one instruction to block `j`. */
  function Appended(f: Blocks, j: nat, i: Instr): Blocks
    requires j < |f|
  {
    f[j := f[j] + [i]]
  }

  lemma {:induction false} DefAppend(f: Blocks, j: nat, i: Instr, id: nat)
    requires j < |f|
    ensures Defines(i) != Some(id) ==> DefiningInstr(Appended(f, j, i), id) == DefiningInstr(f, id)
    ensures Defines(i) == Some(id) && DefiningInstr(f, id).None? ==> DefiningInstr(Appended(f, j, i), id) == Some(i)
    decreases |f|
  {
    var k := |f| - 1;
    var g := Appended(f, j, i);
    if j < k {
      DefAppend(f[..k], j, i, id);
      assert g[..k] == Appended(f[..k], j, i);
    } else {
      assert g[..k] == f[..k];
      assert (f[k] + [i])[..|f[k]|] == f[k];
    }
  }

  lemma {:induction false} NoDef(f: Blocks, ret: IrTy, k: nat)
    requires forall j :: 0 <= j < |f| ==> forall x :: 0 <= x < |f[j]| ==> DefinesBelow(f[j][x], k)
    ensures DefiningInstr(f, k).None?
    decreases |f|
  {
    if f != [] {
      NoDef(f[..|f| - 1], ret, k);
    }
  }

  lemma FreshTemp(s: Low, ret: IrTy)
    requires Ok(s, ret)
    ensures DefiningInstr(s.blocks, s.nextTemp).None?
  {
    forall j | 0 <= j < |s.blocks| ensures forall x :: 0 <= x < |s.blocks[j]| ==>
        DefinesBelow(s.blocks[j][x], s.nextTemp) {
      assert BlockOk(s.blocks, ret, s.nextTemp, s.blocks[j]);
    }
    NoDef(s.blocks, ret, s.nextTemp);
  }

  lemma EmitLater(s: Low, i: Instr, ret: IrTy)
    requires Ok(s, ret) && (Defines(i).Some? ==> Defines(i).value == s.nextTemp)
    ensures Later(s.blocks, Emit(s, i).blocks)
    ensures Defines(i).Some? ==> DefiningInstr(Emit(s, i).blocks, s.nextTemp) == Some(i)
  {
    FreshTemp(s, ret);
    forall id: nat
      ensures DefiningInstr(s.blocks, id).Some? ==> DefiningInstr(Emit(s, i).blocks, id) == DefiningInstr(s.blocks, id)
    {
      DefAppend(s.blocks, s.cur, i, id);
    }
    DefAppend(s.blocks, s.cur, i, s.nextTemp);
  }

  /** Emitting an instruction that passes its check into an open block. */
  lemma EmitOk(s: Low, i: Instr, ret: IrTy)
    requires Ok(s, ret) && IsOpen(s) && InstrOk(s.blocks, ret, i)
    requires Defines(i).Some? ==> Defines(i).value == s.nextTemp
    ensures var t := if Defines(i).Some? then Def(s, i) else Emit(s, i);
            Ok(t, ret) && Later(s.blocks, t.blocks)
    ensures Defines(i).Some? ==> DefiningInstr(Def(s, i).blocks, s.nextTemp) == Some(i)
  {
    EmitLater(s, i, ret);
    var t := if Defines(i).Some? then Def(s, i) else Emit(s, i);
    InstrLater(s.blocks, t.blocks, ret, i);
    forall j | 0 <= j < |t.blocks| ensures BlockOk(t.blocks, ret, t.nextTemp, t.blocks[j]) {
      assert BlockOk(s.blocks, ret, s.nextTemp, s.blocks[j]);
      BlockLater(s.blocks, t.blocks, ret, s.nextTemp, t.nextTemp, s.blocks[j]);
      if j == s.cur {
        AppendOk(t.blocks, ret, t.nextTemp, s.blocks[j], i);
      }
    }
    forall x | 0 <= x < |t.locals| ensures SlotOf(t.blocks, t.locals[x].reg) == Some(IrOf(t.locals[x].decl.ty)) {
      SlotLater(s.blocks, t.blocks, s.locals[x].reg);
    }
  }

  lemma AppendOk(f: Blocks, ret: IrTy, k: nat, b: seq<Instr>, i: Instr)
    requires BlockOk(f, ret, k, b) && !Terminated(b) && InstrOk(f, ret, i) && DefinesBelow(i, k)
    ensures BlockOk(f, ret, k, b + [i])
  {
    forall j | 0 <= j < |b + [i]|
      ensures InstrOk(f, ret, (b + [i])[j]) && DefinesBelow((b + [i])[j], k)
              && (j < |b + [i]| - 1 ==> !IsTerminator((b + [i])[j]))
    {
      if j < |b| {
        assert InstrOk(f, ret, b[j]) && DefinesBelow(b[j], k) && (j < |b| - 1 ==> !IsTerminator(b[j]));
      }
    }
  }

  lemma {:induction false} NewBlockDef(f: Blocks, id: nat)
    ensures DefiningInstr(f + [[]], id) == DefiningInstr(f, id)
  {
    assert (f + [[]])[..|f|] == f;
  }

  lemma NewBlockOk(s: Low, ret: IrTy)
    requires Ok(s, ret)
    ensures Ok(NewBlock(s), ret) && Later(s.blocks, NewBlock(s).blocks)
  {
    var t := NewBlock(s);
    forall id: nat ensures DefiningInstr(t.blocks, id) == DefiningInstr(s.blocks, id) {
      NewBlockDef(s.blocks, id);
    }
    forall j | 0 <= j < |t.blocks| ensures BlockOk(t.blocks, ret, t.nextTemp, t.blocks[j]) {
      if j < |s.blocks| {
        assert BlockOk(s.blocks, ret, s.nextTemp, s.blocks[j]);
        BlockLater(s.blocks, t.blocks, ret, s.nextTemp, t.nextTemp, s.blocks[j]);
      }
    }
    forall x | 0 <= x < |t.locals| ensures SlotOf(t.blocks, t.locals[x].reg) == Some(IrOf(t.locals[x].decl.ty)) {
      SlotLater(s.blocks, t.blocks, s.locals[x].reg);
    }
  }

  // ----------------------------------------------------------------- sealing

  lemma EmitSealed(s: Low, i: Instr, open: set<nat>)
    requires Sealed(s.blocks, open)
    ensures s.cur in open ==> Sealed(Emit(s, i).blocks, open)
    ensures IsTerminator(i) ==> Sealed(Emit(s, i).blocks, open - {s.cur})
  {
    var t := Emit(s, i);
    forall j | 0 <= j < |t.blocks| && j !in open ensures s.cur in open ==> Terminated(t.blocks[j]) {
      assert j != s.cur ==> t.blocks[j] == s.blocks[j];
    }
  }

  lemma NewBlockSealed(s: Low, open: set<nat>)
    requires Sealed(s.blocks, open)
    ensures Sealed(NewBlock(s).blocks, open + {|s.blocks|})
  {
  }

  // ------------------------------------------------------------- expressions

  /** The whole invariant: everything emitted passes, and the blocks still open
      are `open`. */
  predicate Inv(s: Low, ret: IrTy, open: set<nat>) {
    Ok(s, ret) && Sealed(s.blocks, open)
  }

  /** A step that stays in its block. */
  ghost predicate Keeps(s: Low, t: Low, ret: IrTy, open: set<nat>) {
    Inv(t, ret, open) && Later(s.blocks, t.blocks) && IsOpen(t) && t.cur == s.cur && t.locals == s.locals
    && |t.blocks| == |s.blocks|
  }

  lemma KeepsTrans(s: Low, t: Low, u: Low, ret: IrTy, open: set<nat>)
    requires Keeps(s, t, ret, open) && Keeps(t, u, ret, open)
    ensures Keeps(s, u, ret, open)
  {
    LaterTrans(s.blocks, t.blocks, u.blocks);
  }

  /** One plain instruction. */
  lemma EmitKeeps(s: Low, i: Instr, ret: IrTy, open: set<nat>)
    requires Inv(s, ret, open) && IsOpen(s) && s.cur in open && InstrOk(s.blocks, ret, i) && !IsTerminator(i)
    requires Defines(i).Some? ==> Defines(i).value == s.nextTemp
    ensures Keeps(s, if Defines(i).Some? then Def(s, i) else Emit(s, i), ret, open)
    ensures Defines(i).Some? ==> DefiningInstr(Def(s, i).blocks, s.nextTemp) == Some(i)
  {
    hide Ok, Later, Sealed, InstrOk;
    EmitOk(s, i, ret);
    EmitSealed(s, i, open);
    EmitShape(s, i);
  }

  /** A terminator: the block is closed. */
  lemma EmitEnds(s: Low, i: Instr, ret: IrTy, open: set<nat>)
    requires Inv(s, ret, open) && IsOpen(s) && InstrOk(s.blocks, ret, i) && IsTerminator(i)
    ensures Inv(Emit(s, i), ret, open - {s.cur}) && Later(s.blocks, Emit(s, i).blocks)
  {
    hide Ok, Later, Sealed, InstrOk;
    EmitOk(s, i, ret);
    EmitSealed(s, i, open);
  }

  lemma KeepsSelf(s: Low, ret: IrTy, open: set<nat>)
    requires Inv(s, ret, open) && IsOpen(s)
    ensures Keeps(s, s, ret, open)
  {
  }

  lemma CoerceKeeps(s: Low, v: Operand, want: IrTy, from: Ty, ret: IrTy, open: set<nat>)
    requires Inv(s, ret, open) && IsOpen(s) && s.cur in open && v.ty.IInt? && want.IInt?
    ensures Keeps(s, CoerceTo(s, v, want, from).0, ret, open) && CoerceTo(s, v, want, from).1.ty == want
  {
    hide Inv, Keeps;
    if v.ty == want {
      KeepsSelf(s, ret, open);
    } else if v.ty.bits > want.bits {
      EmitKeeps(s, Cast(Trunc, s.nextTemp, v, want), ret, open);
    } else {
      EmitKeeps(s, Cast(if IsSigned(from) then SExt else ZExt, s.nextTemp, v, want), ret, open);
    }
  }

  lemma I1Keeps(s: Low, v: Operand, want: IrTy, ret: IrTy, open: set<nat>)
    requires Inv(s, ret, open) && IsOpen(s) && s.cur in open
    ensures Keeps(s, ToI1(s, v).0, ret, open) && ToI1(s, v).1.ty == IInt(1)
    ensures Keeps(s, FromI1(s, v, want).0, ret, open)
  {
    hide Inv, Keeps;
    KeepsSelf(s, ret, open);
    EmitKeeps(s, Icmp(PNe, s.nextTemp, v, Const(v.ty, 0)), ret, open);
    EmitKeeps(s, Cast(ZExt, s.nextTemp, v, want), ret, open);
  }

  lemma KeepsOpen(s: Low, t: Low, ret: IrTy, open: set<nat>)
    requires Keeps(s, t, ret, open)
    ensures Inv(t, ret, open) && IsOpen(t) && t.cur == s.cur && Later(s.blocks, t.blocks) && t.locals == s.locals
            && |t.blocks| == |s.blocks|
  {
  }

  lemma UnaryKeeps(s: Low, op: UnOp, v: Operand, t: Ty, ret: IrTy, open: set<nat>)
    requires Inv(s, ret, open) && IsOpen(s) && s.cur in open && v.ty.IInt?
    ensures Keeps(s, FinishUnary(s, op, v, t).0, ret, open)
  {
    hide Inv, Keeps;
    match op
    case Neg => EmitKeeps(s, Bin(ISub, s.nextTemp, Const(v.ty, 0), v), ret, open);
    case BitNot => EmitKeeps(s, Bin(IXor, s.nextTemp, v, Const(v.ty, 0xFFFF_FFFF_FFFF_FFFF)), ret, open);
    case LogNot => IcmpKeeps(s, PEq, v, Const(v.ty, 0), t, ret, open);
  }

  lemma IcmpKeeps(s: Low, p: Pred, l: Operand, r: Operand, t: Ty, ret: IrTy, open: set<nat>)
    requires Inv(s, ret, open) && IsOpen(s) && s.cur in open && l.ty == r.ty
    ensures Keeps(s, FromI1(Def(s, Icmp(p, s.nextTemp, l, r)), Temp(IInt(1), s.nextTemp), IrOf(t)).0, ret, open)
  {
    hide Inv, Keeps;
    var i := Icmp(p, s.nextTemp, l, r);
    EmitKeeps(s, i, ret, open);
    KeepsOpen(s, Def(s, i), ret, open);
    I1Keeps(Def(s, i), Temp(IInt(1), s.nextTemp), IrOf(t), ret, open);
    KeepsTrans(s, Def(s, i), FromI1(Def(s, i), Temp(IInt(1), s.nextTemp), IrOf(t)).0, ret, open);
  }

  lemma BinKeeps(s: Low, op: IrOp, l: Operand, r: Operand, ret: IrTy, open: set<nat>)
    requires Inv(s, ret, open) && IsOpen(s) && s.cur in open && l.ty == r.ty && l.ty.IInt?
    ensures Keeps(s, Def(s, Bin(op, s.nextTemp, l, r)), ret, open)
  {
    hide Inv, Keeps;
    EmitKeeps(s, Bin(op, s.nextTemp, l, r), ret, open);
  }

  /** Operands that differ in width are those of a shift, and the left one is
      typed. */
  lemma MixedWidths(op: BinOp, l: Operand, r: Operand, lt: Ty, rt: Ty, t: Ty)
    requires TypedOperands(op, lt, rt, t) && !IsLogical(op) && HasType(l, lt) && HasType(r, rt)
    ensures l.ty == IInt(Width(lt)) && r.ty == IInt(Width(rt)) && (l.ty != r.ty ==> !IsUntyped(lt))
  {
    hide IrOf, Width;
    IrOfScalar(lt);
    IrOfScalar(rt);
  }

  lemma BalanceKeeps(s: Low, op: BinOp, l: Operand, r: Operand, lt: Ty, rt: Ty, t: Ty, ret: IrTy, open: set<nat>)
    requires Inv(s, ret, open) && IsOpen(s) && s.cur in open
    requires TypedOperands(op, lt, rt, t) && !IsLogical(op) && HasType(l, lt) && HasType(r, rt)
    ensures var Balanced(s1, l1, r1) := Balance(s, l, r, lt, rt);
            Keeps(s, s1, ret, open) && l1.ty == r1.ty == IInt(Width(lt))
  {
    hide Inv, Keeps, CoerceTo, IrOf, Width, IsOpen, TypedOperands, IsUntyped, HasType;
    MixedWidths(op, l, r, lt, rt, t);
    CoerceKeeps(s, r, l.ty, rt, ret, open);
    KeepsSelf(s, ret, open);
  }

  lemma BinaryKeeps(s: Low, op: BinOp, l: Operand, r: Operand, lt: Ty, rt: Ty, t: Ty, ret: IrTy, open: set<nat>)
    requires Inv(s, ret, open) && IsOpen(s) && s.cur in open
    requires TypedOperands(op, lt, rt, t) && !IsLogical(op) && HasType(l, lt) && HasType(r, rt)
    ensures Keeps(s, FinishBinary(s, op, l, r, lt, rt, t).0, ret, open)
  {
    hide Inv, Keeps, FromI1, IntPred, IntBinop, Balance, Def, TypedOperands, IrOf, Width, HasType, IsSigned, IsOpen,
        FinishBinary;
    var Balanced(s1, l1, r1) := Balance(s, l, r, lt, rt);
    BalanceKeeps(s, op, l, r, lt, rt, t, ret, open);
    KeepsOpen(s, s1, ret, open);
    OperateKeeps(s, s1, op, l, r, l1, r1, lt, rt, t, ret, open);
    KeepsTrans(s, s1, FinishBinary(s, op, l, r, lt, rt, t).0, ret, open);
  }

  lemma OperateKeeps(s: Low, s1: Low, op: BinOp, l: Operand, r: Operand, l1: Operand, r1: Operand, lt: Ty, rt: Ty,
      t: Ty, ret: IrTy, open: set<nat>)
    requires !IsLogical(op) && Balance(s, l, r, lt, rt) == Balanced(s1, l1, r1) && l1.ty == r1.ty && l1.ty.IInt?
    requires Inv(s1, ret, open) && IsOpen(s1) && s1.cur in open
    ensures Keeps(s1, FinishBinary(s, op, l, r, lt, rt, t).0, ret, open)
  {
    hide Inv, Keeps, Balance, Def, IsOpen, FromI1, IntPred, IntBinop, IsSigned;
    if IsComparison(op) {
      IcmpKeeps(s1, IntPred(op, IsSigned(lt)), l1, r1, t, ret, open);
    } else {
      BinKeeps(s1, IntBinop(op, IsSigned(lt)), l1, r1, ret, open);
    }
  }

  /** A step that may end the block it starts in and continue in another. */
  ghost predicate Moves(s: Low, t: Low, ret: IrTy, open: set<nat>) {
    Inv(t, ret, Swap(open, s.cur, t.cur)) && Later(s.blocks, t.blocks) && IsOpen(t) && t.locals == s.locals
  }

  lemma InvWeaken(s: Low, ret: IrTy, open: set<nat>, more: set<nat>)
    requires Inv(s, ret, open) && open <= more
    ensures Inv(s, ret, more)
  {
  }

  lemma MovesTrans(s: Low, t: Low, u: Low, ret: IrTy, open: set<nat>)
    requires Moves(s, t, ret, open) && Moves(t, u, ret, Swap(open, s.cur, t.cur))
    ensures Moves(s, u, ret, open)
  {
    hide Inv;
    LaterTrans(s.blocks, t.blocks, u.blocks);
    InvWeaken(u, ret, Swap(Swap(open, s.cur, t.cur), t.cur, u.cur), Swap(open, s.cur, u.cur));
  }

  lemma KeepsMoves(s: Low, t: Low, ret: IrTy, open: set<nat>)
    requires Keeps(s, t, ret, open) && s.cur in open
    ensures Moves(s, t, ret, open)
  {
    assert Swap(open, s.cur, t.cur) == open;
  }

  /** Moving on, then one step in the new block. */
  lemma MovesKeeps(s: Low, t: Low, u: Low, ret: IrTy, open: set<nat>)
    requires Moves(s, t, ret, open) && Keeps(t, u, ret, Swap(open, s.cur, t.cur))
    ensures Moves(s, u, ret, open)
  {
    hide Inv, Keeps, Moves;
    KeepsMoves(t, u, ret, Swap(open, s.cur, t.cur));
    MovesTrans(s, t, u, ret, open);
  }

  lemma MovesOpen(s: Low, t: Low, ret: IrTy, open: set<nat>)
    requires Moves(s, t, ret, open)
    ensures Inv(t, ret, Swap(open, s.cur, t.cur)) && IsOpen(t) && t.locals == s.locals && Later(s.blocks, t.blocks)
    ensures t.cur in Swap(open, s.cur, t.cur)
  {
  }

  lemma PositionInv(s: Low, b: nat, ret: IrTy, open: set<nat>)
    requires Inv(s, ret, open) && b < |s.blocks|
    ensures Inv(Position(s, b), ret, open)
  {
  }

  lemma AddBlock(s: Low, ret: IrTy, open: set<nat>)
    requires Inv(s, ret, open)
    ensures Inv(NewBlock(s), ret, open + {|s.blocks|}) && Later(s.blocks, NewBlock(s).blocks)
  {
    hide Ok, Later, Sealed;
    NewBlockOk(s, ret);
    NewBlockSealed(s, open);
  }

  /** A store as wide as the slot it goes to. */
  lemma StoreKeeps(s: Low, v: Operand, slot: nat, ret: IrTy, open: set<nat>)
    requires Inv(s, ret, open) && IsOpen(s) && s.cur in open && SlotOf(s.blocks, slot) == Some(v.ty)
    ensures Keeps(s, Emit(s, Store(v, Temp(IPtr, slot))), ret, open)
  {
    EmitKeeps(s, Store(v, Temp(IPtr, slot)), ret, open);
  }

  // ------------------------------------------------------- logical operators

  lemma BeginOk(s: Low, t: Ty, ret: IrTy, open: set<nat>)
    requires Inv(s, ret, open) && IsOpen(s) && s.cur in open
    ensures var u := BeginLogical(s, t);
            && Inv(u, ret, open + {|s.blocks|, |s.blocks| + 1}) && Later(s.blocks, u.blocks) && IsOpen(u)
            && SlotOf(u.blocks, s.nextTemp) == Some(IrOf(t))
  {
    hide Inv, Keeps, Later;
    var i := Alloca(s.nextTemp, IrOf(t));
    var d := Def(s, i);
    EmitKeeps(s, i, ret, open);
    KeepsOpen(s, d, ret, open);
    AddBlock(d, ret, open);
    AddBlock(NewBlock(d), ret, open + {|s.blocks|});
    assert open + {|s.blocks|} + {|s.blocks| + 1} == open + {|s.blocks|, |s.blocks| + 1};
    LaterTrans(s.blocks, d.blocks, NewBlock(d).blocks);
    LaterTrans(s.blocks, NewBlock(d).blocks, BeginLogical(s, t).blocks);
    SlotLater(d.blocks, NewBlock(d).blocks, s.nextTemp);
    SlotLater(NewBlock(d).blocks, BeginLogical(s, t).blocks, s.nextTemp);
  }

  /** The left value is stored and branched on. */
  lemma BranchOk(s: Low, op: BinOp, lhs: Operand, lt: Ty, t: Ty, slot: nat, b: nat, ret: IrTy, open: set<nat>)
    requires Inv(s, ret, open) && IsOpen(s) && s.cur in open && b + 1 < |s.blocks| && s.cur != b && s.blocks[b] == []
    requires SlotOf(s.blocks, slot) == Some(IrOf(t)) && IrOf(t).IInt? && lhs.ty.IInt? && Below(lhs, s.nextTemp)
    ensures var u := BranchLogical(s, op, lhs, lt, t, slot, b);
            Inv(u, ret, open - {s.cur}) && Later(s.blocks, u.blocks) && IsOpen(u)
  {
    hide Inv, Keeps, Later, IrOf, SlotOf, CoerceTo;
    var (s1, c) := CoerceTo(s, lhs, IrOf(t), lt);
    var s2 := Emit(s1, Store(c, Temp(IPtr, slot)));
    OperandStored(s, lhs, lt, t, slot, ret, open);
    KeepsOpen(s, s2, ret, open);
    var (s3, i1) := ToI1(s2, lhs);
    I1Keeps(s2, lhs, IVoid, ret, open);
    KeepsOpen(s2, s3, ret, open);
    var i := if op.LogAnd? then CondBr(i1, b, b + 1) else CondBr(i1, b + 1, b);
    EmitEnds(s3, i, ret, open);
    PositionInv(Emit(s3, i), b, ret, open - {s.cur});
    LaterTrans(s.blocks, s2.blocks, s3.blocks);
    LaterTrans(s.blocks, s3.blocks, Emit(s3, i).blocks);
    BranchLogicalShape(s, op, lhs, lt, t, slot, b);
  }

  /** An operand stored in the result slot. */
  lemma OperandStored(s: Low, v: Operand, from: Ty, t: Ty, slot: nat, ret: IrTy, open: set<nat>)
    requires Inv(s, ret, open) && IsOpen(s) && s.cur in open
    requires SlotOf(s.blocks, slot) == Some(IrOf(t)) && IrOf(t).IInt? && v.ty.IInt?
    ensures var (s1, c) := CoerceTo(s, v, IrOf(t), from); Keeps(s, Emit(s1, Store(c, Temp(IPtr, slot))), ret, open)
  {
    hide Inv, Keeps, Later, IrOf, SlotOf, CoerceTo, IsOpen, Emit;
    var (s1, c) := CoerceTo(s, v, IrOf(t), from);
    CoerceKeeps(s, v, IrOf(t), from, ret, open);
    KeepsOpen(s, s1, ret, open);
    SlotLater(s.blocks, s1.blocks, slot);
    StoreKeeps(s1, c, slot, ret, open);
    KeepsTrans(s, s1, Emit(s1, Store(c, Temp(IPtr, slot))), ret, open);
  }

  /** The state in which the right value has been stored and the block ended. */
  function RightEnded(s: Low, rhs: Operand, rt: Ty, t: Ty, slot: nat, b: nat): Low {
    var (s1, c) := CoerceTo(s, rhs, IrOf(t), rt);
    Emit(Emit(s1, Store(c, Temp(IPtr, slot))), Br(b + 1))
  }

  lemma RightEndedOk(s: Low, rhs: Operand, rt: Ty, t: Ty, slot: nat, b: nat, ret: IrTy, open: set<nat>)
    requires Inv(s, ret, open) && IsOpen(s) && s.cur in open && b + 1 < |s.blocks|
    requires SlotOf(s.blocks, slot) == Some(IrOf(t)) && IrOf(t).IInt? && rhs.ty.IInt?
    ensures var u := RightEnded(s, rhs, rt, t, slot, b); Inv(u, ret, open - {s.cur}) && Later(s.blocks, u.blocks)
  {
    hide Inv, Keeps, Later, IrOf, SlotOf, CoerceTo, IsOpen, Emit;
    var (s1, c) := CoerceTo(s, rhs, IrOf(t), rt);
    var s2 := Emit(s1, Store(c, Temp(IPtr, slot)));
    OperandStored(s, rhs, rt, t, slot, ret, open);
    KeepsOpen(s, s2, ret, open);
    EmitEnds(s2, Br(b + 1), ret, open);
    LaterTrans(s.blocks, s2.blocks, Emit(s2, Br(b + 1)).blocks);
  }

  lemma RightEndedFrame(s: Low, rhs: Operand, rt: Ty, t: Ty, slot: nat, b: nat)
    requires b + 1 < |s.blocks| && s.cur != b + 1
    ensures var u := RightEnded(s, rhs, rt, t, slot, b);
            && |u.blocks| == |s.blocks| && u.blocks[b + 1] == s.blocks[b + 1]
            && FinishLogical(s, rhs, rt, t, slot, b).0
               == Def(Position(u, b + 1), Load(u.nextTemp, IrOf(t), Temp(IPtr, slot)))
  {
    hide CoerceTo, IrOf;
    CoerceFrame(s, rhs, IrOf(t), rt, b + 1);
  }

  /** The right value is stored, and the end block loads the result. */
  lemma FinishOk(s: Low, rhs: Operand, rt: Ty, t: Ty, slot: nat, b: nat, ret: IrTy, open: set<nat>)
    requires Inv(s, ret, open) && IsOpen(s) && s.cur in open && b + 1 < |s.blocks| && s.cur != b + 1
             && s.blocks[b + 1] == [] && b + 1 in open
    requires SlotOf(s.blocks, slot) == Some(IrOf(t)) && IrOf(t).IInt? && rhs.ty.IInt?
    ensures var u := FinishLogical(s, rhs, rt, t, slot, b).0;
            Inv(u, ret, open - {s.cur}) && Later(s.blocks, u.blocks)
  {
    hide Inv, Later, IrOf, SlotOf, IsOpen, RightEnded, FinishLogical, Def;
    var u := RightEnded(s, rhs, rt, t, slot, b);
    RightEndedOk(s, rhs, rt, t, slot, b, ret, open);
    RightEndedFrame(s, rhs, rt, t, slot, b);
    ResultLoaded(u, t, slot, b, ret, open - {s.cur});
    LaterTrans(s.blocks, u.blocks, FinishLogical(s, rhs, rt, t, slot, b).0.blocks);
  }

  lemma CoerceFrame(s: Low, v: Operand, want: IrTy, from: Ty, j: nat)
    requires j < |s.blocks| && j != s.cur
    ensures var (s1, c) := CoerceTo(s, v, want, from);
            s1.cur == s.cur && |s1.blocks| == |s.blocks| && s1.blocks[j] == s.blocks[j]
  {
  }

  lemma ResultLoaded(s: Low, t: Ty, slot: nat, b: nat, ret: IrTy, open: set<nat>)
    requires Inv(s, ret, open) && b + 1 < |s.blocks| && s.blocks[b + 1] == [] && b + 1 in open
    ensures var p := Position(s, b + 1); var u := Def(p, Load(p.nextTemp, IrOf(t), Temp(IPtr, slot)));
            Inv(u, ret, open) && Later(s.blocks, u.blocks)
  {
    hide Inv, Keeps, Later, IrOf;
    var p := Position(s, b + 1);
    PositionInv(s, b + 1, ret, open);
    var i := Load(p.nextTemp, IrOf(t), Temp(IPtr, slot));
    EmitKeeps(p, i, ret, open);
    KeepsOpen(p, Def(p, i), ret, open);
  }

  // ------------------------------------------------------------- expressions

  lemma NameKeeps(s: Low, x: string, t: Ty, scope: Scope, ret: IrTy, open: set<nat>)
    requires TypedName(x, t, scope) && Mirrors(s.locals, scope)
    requires Inv(s, ret, open) && IsOpen(s) && s.cur in open
    ensures Keeps(s, LowerName(s, x, t).0, ret, open)
  {
    hide Inv, Keeps;
    LocalsAgree(scope, s.locals, x);
    KeepsSelf(s, ret, open);
    if FindLocal(s.locals, x).Some? {
      var b := s.locals[FindLocal(s.locals, x).value];
      EmitKeeps(s, Load(s.nextTemp, IrOf(b.decl.ty), Temp(IPtr, b.reg)), ret, open);
    }
  }

  lemma CallKeeps(s: Low, f: Fn, vs: seq<Operand>, ret: IrTy, open: set<nat>)
    requires Inv(s, ret, open) && IsOpen(s) && s.cur in open
             && (|vs| == |f.params| || (f.variadic && |vs| > |f.params|))
    ensures Keeps(s, FinishCall(s, f, vs).0, ret, open)
  {
    hide Inv, Keeps;
    if f.ret.Void? {
      EmitKeeps(s, CallI(0, f, vs), ret, open);
    } else {
      EmitKeeps(s, CallI(s.nextTemp, f, vs), ret, open);
    }
  }

  /** Lowering a checked expression keeps the function free of problems, and
      ends every block it opened except the one it leaves the builder in. */
  lemma {:induction false} ExprOk(s: Low, e: Expr, scope: Scope, ret: IrTy, open: set<nat>)
    requires TypedExpr(e, scope) && Mirrors(s.locals, scope)
    requires Inv(s, ret, open) && IsOpen(s) && s.cur in open
    ensures Moves(s, LowerExpr(s, e).0, ret, open)
    decreases e, 1
  {
    hide Inv, Keeps, Moves, Later, FinishUnary, FinishCall, CoerceTo, LowerName, IsOpen, Mirrors, Swap, IrOf;
    var t := LowerExpr(s, e).0;
    match e
    case Int(_, _) =>
      KeepsSelf(s, ret, open);
      KeepsMoves(s, s, ret, open);
    case Bool(_, _) =>
      KeepsSelf(s, ret, open);
      KeepsMoves(s, s, ret, open);
    case Name(x, ty) =>
      NameKeeps(s, x, ty, scope, ret, open);
      KeepsMoves(s, t, ret, open);
    case Unary(op, e1, ty) =>
      var (s1, v) := LowerExpr(s, e1);
      ExprOk(s, e1, scope, ret, open);
      ScalarOperand(s, e1, scope);
      MovesOpen(s, s1, ret, open);
      UnaryKeeps(s1, op, v, ty, ret, Swap(open, s.cur, s1.cur));
      MovesKeeps(s, s1, t, ret, open);
    case Conv(e1, ty) =>
      var (s1, v) := LowerExpr(s, e1);
      ExprOk(s, e1, scope, ret, open);
      ScalarOperand(s, e1, scope);
      IrOfScalar(ty);
      MovesOpen(s, s1, ret, open);
      CoerceKeeps(s1, v, IrOf(ty), e1.ty, ret, Swap(open, s.cur, s1.cur));
      MovesKeeps(s, s1, t, ret, open);
    case Call(f, args, ty) =>
      var (s1, vs) := LowerArgs(s, f, args);
      ArgsOk(s, f, args, scope, ret, open);
      ArgsShape(s, f, args);
      MovesOpen(s, s1, ret, open);
      CallKeeps(s1, f, vs, ret, Swap(open, s.cur, s1.cur));
      MovesKeeps(s, s1, t, ret, open);
    case Binary(op, l, r, ty) =>
      if IsLogical(op) {
        LogicalOk(s, e, scope, ret, open);
      } else {
        ArithOk(s, e, scope, ret, open);
      }
  }

  lemma ScalarOperand(s: Low, e: Expr, scope: Scope)
    requires TypedExpr(e, scope) && Mirrors(s.locals, scope) && IsScalar(e.ty)
    ensures HasType(LowerExpr(s, e).1, e.ty) && LowerExpr(s, e).1.ty.IInt?
  {
    ExprType(s, e, scope);
    IrOfScalar(e.ty);
  }

  lemma {:induction false} ArithOk(s: Low, e: Expr, scope: Scope, ret: IrTy, open: set<nat>)
    requires e.Binary? && !IsLogical(e.bop) && TypedExpr(e, scope) && Mirrors(s.locals, scope)
    requires Inv(s, ret, open) && IsOpen(s) && s.cur in open
    ensures Moves(s, LowerExpr(s, e).0, ret, open)
    decreases e, 0
  {
    hide Inv, Keeps, Moves, Later, FinishBinary, IsOpen, Mirrors, Swap, IrOf, TypedOperands;
    var (s1, lhs) := LowerExpr(s, e.lhs);
    var (s2, rhs) := LowerExpr(s1, e.rhs);
    var open1 := Swap(open, s.cur, s1.cur);
    ExprOk(s, e.lhs, scope, ret, open);
    MovesOpen(s, s1, ret, open);
    ExprType(s, e.lhs, scope);
    ExprOk(s1, e.rhs, scope, ret, open1);
    ExprType(s1, e.rhs, scope);
    MovesTrans(s, s1, s2, ret, open);
    MovesOpen(s, s2, ret, open);
    BinaryKeeps(s2, e.bop, lhs, rhs, e.lhs.ty, e.rhs.ty, e.ty, ret, Swap(open, s.cur, s2.cur));
    MovesKeeps(s, s2, LowerExpr(s, e).0, ret, open);
  }

  /** Where the left operand left off. */
  lemma LeftDone(s: Low, t: Ty, s1: Low, slot: nat, ret: IrTy, open: set<nat>)
    requires Inv(s, ret, open) && SlotOf(s.blocks, slot).Some?
    requires Moves(s, s1, ret, open)
    ensures SlotOf(s1.blocks, slot) == SlotOf(s.blocks, slot)
  {
    hide Inv;
    SlotLater(s.blocks, s1.blocks, slot);
  }

  lemma {:induction false} LogicalOk(s: Low, e: Expr, scope: Scope, ret: IrTy, open: set<nat>)
    requires e.Binary? && IsLogical(e.bop) && TypedExpr(e, scope) && Mirrors(s.locals, scope)
    requires Inv(s, ret, open) && IsOpen(s) && s.cur in open
    ensures Moves(s, LowerExpr(s, e).0, ret, open)
    decreases e, 0
  {
    hide Inv, Keeps, Later, Moves, BeginLogical, BranchLogical, FinishLogical, SlotOf, IrOf, Mirrors, IsOpen;
    hide HasType, LowerArgs, TypedArgs, TypedName, Below, IsBoolLike;
    var b, slot := |s.blocks|, s.nextTemp;
    var s0 := BeginLogical(s, e.ty);
    var open0 := open + {b, b + 1};
    BeginOk(s, e.ty, ret, open);
    BeginLogicalShape(s, e.ty);
    var (s1, lhs) := LowerExpr(s0, e.lhs);
    ExprOk(s0, e.lhs, scope, ret, open0);
    ExprShape(s0, e.lhs);
    MovesOpen(s0, s1, ret, open0);
    LeftDone(s0, e.ty, s1, slot, ret, open0);
    var open1 := Swap(open0, s.cur, s1.cur);
    IrOfScalar(e.ty);
    ScalarOperand(s0, e.lhs, scope);
    assert s1.cur != b && s1.blocks[b] == [] && s1.blocks[b + 1] == [];
    var s2 := BranchLogical(s1, e.bop, lhs, e.lhs.ty, e.ty, slot, b);
    BranchOk(s1, e.bop, lhs, e.lhs.ty, e.ty, slot, b, ret, open1);
    BranchLogicalShape(s1, e.bop, lhs, e.lhs.ty, e.ty, slot, b);
    SlotLater(s1.blocks, s2.blocks, slot);
    var open2 := open1 - {s1.cur};
    var (s3, rhs) := LowerExpr(s2, e.rhs);
    ExprOk(s2, e.rhs, scope, ret, open2);
    ExprShape(s2, e.rhs);
    MovesOpen(s2, s3, ret, open2);
    LeftDone(s2, e.ty, s3, slot, ret, open2);
    ScalarOperand(s2, e.rhs, scope);
    var open3 := Swap(open2, b, s3.cur);
    FinishOk(s3, rhs, e.rhs.ty, e.ty, slot, b, ret, open3);
    var u := FinishLogical(s3, rhs, e.rhs.ty, e.ty, slot, b).0;
    FinishLogicalShape(s3, rhs, e.rhs.ty, e.ty, slot, b);
    LaterTrans(s.blocks, s0.blocks, s1.blocks);
    LaterTrans(s.blocks, s1.blocks, s2.blocks);
    LaterTrans(s.blocks, s2.blocks, s3.blocks);
    LaterTrans(s.blocks, s3.blocks, u.blocks);
    InvWeaken(u, ret, open3 - {s3.cur}, Swap(open, s.cur, u.cur));
    MovesIntro(s, u, ret, open);
  }

  lemma MovesIntro(s: Low, t: Low, ret: IrTy, open: set<nat>)
    requires Inv(t, ret, Swap(open, s.cur, t.cur)) && Later(s.blocks, t.blocks) && IsOpen(t) && t.locals == s.locals
    ensures Moves(s, t, ret, open)
  {
  }

  lemma {:induction false} ArgsOk(s: Low, f: Fn, args: seq<Expr>, scope: Scope, ret: IrTy, open: set<nat>)
    requires TypedArgs(f, args, scope) && Mirrors(s.locals, scope)
    requires Inv(s, ret, open) && IsOpen(s) && s.cur in open
    ensures Moves(s, LowerArgs(s, f, args).0, ret, open)
    decreases args, 0
  {
    hide Inv, Keeps, Moves, Later, CoerceTo, IsOpen, Mirrors, Swap, IrOf;
    if args == [] {
      KeepsSelf(s, ret, open);
      KeepsMoves(s, s, ret, open);
    } else {
      var k := |args| - 1;
      var (s1, vs) := LowerArgs(s, f, args[..k]);
      var (s2, v) := LowerExpr(s1, args[k]);
      ArgsOk(s, f, args[..k], scope, ret, open);
      MovesOpen(s, s1, ret, open);
      ExprOk(s1, args[k], scope, ret, Swap(open, s.cur, s1.cur));
      MovesTrans(s, s1, s2, ret, open);
      MovesOpen(s, s2, ret, open);
      if k < |f.params| {
        ScalarOperand(s1, args[k], scope);
        IrOfScalar(f.params[k]);
        CoerceKeeps(s2, v, IrOf(f.params[k]), args[k].ty, ret, Swap(open, s.cur, s2.cur));
        MovesKeeps(s, s2, LowerArgs(s, f, args).0, ret, open);
      }
    }
  }
}
