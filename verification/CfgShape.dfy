/** The generated code as a control-flow graph: whatever the body, every block
    ends in its one terminator and no branch leaves the function. */
module CfgShape {
  import opened Words
  import opened Types
  import opened Tree
  import opened Ir
  import opened Lowering
  import opened LoweringShape
  import opened IrVerify

  // ---------------------------------------------------------------- invariant

  /** The instruction branches, if at all, to one of `n` blocks. */
  predicate Lands(i: Instr, n: nat) {
    (i.Br? ==> i.dest < n) && (i.CondBr? ==> i.dest < n && i.dest2 < n)
  }

  /** No terminator before the last instruction. */
  predicate Straight(b: seq<Instr>, n: nat) {
    forall j :: 0 <= j < |b| ==> Lands(b[j], n) && (j < |b| - 1 ==> !IsTerminator(b[j]))
  }

  /** Every block outside `open` is finished. */
  predicate Formed(s: Low, open: set<nat>) {
    && (forall j :: 0 <= j < |s.blocks| ==>
          Straight(s.blocks[j], |s.blocks|) && (j !in open ==> Terminated(s.blocks[j])))
    && LoopsOk(|s.blocks|, s.loops)
  }

  /** The builder is in the middle of block `c`. */
  predicate Building(s: Low, c: nat, open: set<nat>) {
    Formed(s, open) && IsOpen(s) && s.cur == c && c in open
  }

  /** From the middle of one block to the middle of another. */
  predicate Moved(s: Low, t: Low, open: set<nat>) {
    Building(t, t.cur, Swap(open, s.cur, t.cur))
  }

  lemma Weaken(s: Low, open: set<nat>, more: set<nat>)
    requires Formed(s, open) && open <= more
    ensures Formed(s, more)
  {
  }

  lemma AppendStraight(b: seq<Instr>, i: Instr, n: nat)
    requires Straight(b, n) && !Terminated(b) && Lands(i, n)
    ensures Straight(b + [i], n)
  {
    forall j | 0 <= j < |b + [i]| ensures Lands((b + [i])[j], n) && (j < |b| ==> !IsTerminator((b + [i])[j])) {
      if j < |b| {
        assert (b + [i])[j] == b[j];
      }
    }
  }

  lemma EmitFormed(s: Low, i: Instr, open: set<nat>)
    requires Formed(s, open) && IsOpen(s) && Lands(i, |s.blocks|)
    ensures Formed(Emit(s, i), if IsTerminator(i) then open - {s.cur} else open + {s.cur})
  {
    hide Straight, Lands;
    AppendStraight(s.blocks[s.cur], i, |s.blocks|);
    var t := Emit(s, i);
    forall j | 0 <= j < |t.blocks| ensures Straight(t.blocks[j], |t.blocks|) {
    }
  }

  /** One plain instruction. */
  lemma PlainStep(s: Low, i: Instr, c: nat, open: set<nat>)
    requires Building(s, c, open) && !IsTerminator(i)
    ensures Building(Emit(s, i), c, open) && Building(Def(s, i), c, open)
  {
    hide Straight;
    EmitFormed(s, i, open);
    assert open + {s.cur} == open;
    EmitShape(s, i);
  }

  /** A terminator: the block is finished. */
  lemma EndStep(s: Low, i: Instr, open: set<nat>)
    requires Formed(s, open) && IsOpen(s) && IsTerminator(i) && Lands(i, |s.blocks|)
    ensures Formed(Emit(s, i), open - {s.cur})
  {
    EmitFormed(s, i, open);
  }

  lemma AddBlock(s: Low, open: set<nat>)
    requires Formed(s, open)
    ensures Formed(NewBlock(s), open + {|s.blocks|})
  {
    var t := NewBlock(s);
    forall j | 0 <= j < |t.blocks| ensures Straight(t.blocks[j], |t.blocks|) {
      if j < |s.blocks| {
        assert Straight(s.blocks[j], |s.blocks|);
      }
    }
  }

  lemma MovedOn(s: Low, t: Low, u: Low, open: set<nat>)
    requires Moved(s, t, open) && Moved(t, u, Swap(open, s.cur, t.cur))
    ensures Moved(s, u, open)
  {
    hide Formed;
    Weaken(u, Swap(Swap(open, s.cur, t.cur), t.cur, u.cur), Swap(open, s.cur, u.cur));
  }

  lemma Stayed(s: Low, t: Low, open: set<nat>)
    requires Building(t, s.cur, open)
    ensures Moved(s, t, open)
  {
    hide Formed;
    Weaken(t, open, Swap(open, s.cur, t.cur));
  }

  /** Moving on, then staying. */
  lemma MovedStayed(s: Low, t: Low, u: Low, open: set<nat>)
    requires Moved(s, t, open) && Building(u, t.cur, Swap(open, s.cur, t.cur))
    ensures Moved(s, u, open)
  {
  }

  // ------------------------------------------------------------- expressions

  lemma CoerceFormed(s: Low, v: Operand, want: IrTy, from: Ty, c: nat, open: set<nat>)
    requires Building(s, c, open)
    ensures Building(CoerceTo(s, v, want, from).0, c, open)
  {
    hide Building;
    forall i | !IsTerminator(i) ensures Building(Def(s, i), c, open) {
      PlainStep(s, i, c, open);
    }
  }

  lemma I1Formed(s: Low, v: Operand, want: IrTy, c: nat, open: set<nat>)
    requires Building(s, c, open)
    ensures Building(ToI1(s, v).0, c, open) && Building(FromI1(s, v, want).0, c, open)
  {
    hide Building;
    forall i | !IsTerminator(i) ensures Building(Def(s, i), c, open) {
      PlainStep(s, i, c, open);
    }
  }

  lemma NameFormed(s: Low, x: string, t: Ty, c: nat, open: set<nat>)
    requires Building(s, c, open)
    ensures Building(LowerName(s, x, t).0, c, open)
  {
    hide Formed, IrOf, MemberValue;
    forall i | !IsTerminator(i) ensures Building(Def(s, i), c, open) {
      PlainStep(s, i, c, open);
    }
    FailFormed(s, open);
  }

  lemma FailFormed(s: Low, open: set<nat>)
    requires Formed(s, open)
    ensures Formed(Fail(s), open)
  {
  }

  lemma ConversionFormed(s: Low, v: Operand, from: Ty, to: Ty, c: nat, open: set<nat>)
    requires Building(s, c, open)
    ensures Building(LowerConversion(s, v, from, to).0, c, open)
  {
    hide Formed, IrOf, CoerceTo;
    CoerceFormed(s, v, IrOf(to), from, c, open);
    FailFormed(s, open);
  }

  lemma UnaryFormed(s: Low, op: UnOp, v: Operand, t: Ty, c: nat, open: set<nat>)
    requires Building(s, c, open)
    ensures Building(FinishUnary(s, op, v, t).0, c, open)
  {
    hide Building, FromI1, IrOf;
    forall i | !IsTerminator(i) ensures Building(Def(s, i), c, open) {
      PlainStep(s, i, c, open);
    }
    if op.LogNot? {
      I1Formed(Def(s, Icmp(PEq, s.nextTemp, v, Const(v.ty, 0))), Temp(IInt(1), s.nextTemp), IrOf(t), c, open);
    }
  }

  lemma BinaryFormed(s: Low, op: BinOp, l: Operand, r: Operand, lt: Ty, rt: Ty, t: Ty, c: nat, open: set<nat>)
    requires Building(s, c, open)
    ensures Building(FinishBinary(s, op, l, r, lt, rt, t).0, c, open)
  {
    hide Building, FromI1, IrOf, CoerceTo, IntPred, IntBinop, IsSigned, IsUntyped;
    CoerceFormed(s, r, l.ty, rt, c, open);
    CoerceFormed(s, l, r.ty, lt, c, open);
    var Balanced(s1, l1, r1) := Balance(s, l, r, lt, rt);
    forall i | !IsTerminator(i) ensures Building(Def(s1, i), c, open) {
      PlainStep(s1, i, c, open);
    }
    var i := Icmp(IntPred(op, IsSigned(lt)), s1.nextTemp, l1, r1);
    I1Formed(Def(s1, i), Temp(IInt(1), s1.nextTemp), IrOf(t), c, open);
  }

  lemma CallFormed(s: Low, f: Fn, vs: seq<Operand>, c: nat, open: set<nat>)
    requires Building(s, c, open)
    ensures Building(FinishCall(s, f, vs).0, c, open)
  {
    hide Building, IrOf;
    PlainStep(s, CallI(0, f, vs), c, open);
    PlainStep(s, CallI(s.nextTemp, f, vs), c, open);
  }

  lemma {:induction false} ExprFormed(s: Low, e: Expr, open: set<nat>)
    requires Building(s, s.cur, open)
    ensures Moved(s, LowerExpr(s, e).0, open)
    decreases e, 1
  {
    hide Building, Moved, LowerName, FinishUnary, FinishBinary, FinishCall, LowerConversion, Swap;
    hide BeginLogical, BranchLogical, FinishLogical;
    var t := LowerExpr(s, e).0;
    match e
    case Int(_, _) => Stayed(s, s, open);
    case Bool(_, _) => Stayed(s, s, open);
    case Name(x, ty) =>
      NameFormed(s, x, ty, s.cur, open);
      Stayed(s, t, open);
    case Unary(op, e1, ty) =>
      var (s1, v) := LowerExpr(s, e1);
      ExprFormed(s, e1, open);
      Arrived(s, s1, open);
      UnaryFormed(s1, op, v, ty, s1.cur, Swap(open, s.cur, s1.cur));
      MovedStayed(s, s1, t, open);
    case Conv(e1, ty) =>
      var (s1, v) := LowerExpr(s, e1);
      ExprFormed(s, e1, open);
      Arrived(s, s1, open);
      ConversionFormed(s1, v, e1.ty, ty, s1.cur, Swap(open, s.cur, s1.cur));
      MovedStayed(s, s1, t, open);
    case Call(f, args, ty) =>
      var (s1, vs) := LowerArgs(s, f, args);
      ArgsFormed(s, f, args, open);
      Arrived(s, s1, open);
      CallFormed(s1, f, vs, s1.cur, Swap(open, s.cur, s1.cur));
      MovedStayed(s, s1, t, open);
    case Binary(op, l, r, ty) =>
      if IsLogical(op) {
        LogicalFormed(s, e, open);
      } else {
        var (s1, lhs) := LowerExpr(s, l);
        var (s2, rhs) := LowerExpr(s1, r);
        ExprFormed(s, l, open);
        Arrived(s, s1, open);
        ExprFormed(s1, r, Swap(open, s.cur, s1.cur));
        MovedOn(s, s1, s2, open);
        Arrived(s, s2, open);
        BinaryFormed(s2, op, lhs, rhs, l.ty, r.ty, ty, s2.cur, Swap(open, s.cur, s2.cur));
        MovedStayed(s, s2, t, open);
      }
  }

  lemma Arrived(s: Low, t: Low, open: set<nat>)
    requires Moved(s, t, open)
    ensures Building(t, t.cur, Swap(open, s.cur, t.cur))
  {
  }

  lemma {:induction false} ArgsFormed(s: Low, f: Fn, args: seq<Expr>, open: set<nat>)
    requires Building(s, s.cur, open)
    ensures Moved(s, LowerArgs(s, f, args).0, open)
    decreases args, 0
  {
    hide Building, Moved, CoerceTo, Swap, IrOf;
    if args == [] {
      Stayed(s, s, open);
    } else {
      var k := |args| - 1;
      var (s1, vs) := LowerArgs(s, f, args[..k]);
      var (s2, v) := LowerExpr(s1, args[k]);
      ArgsFormed(s, f, args[..k], open);
      Arrived(s, s1, open);
      ExprFormed(s1, args[k], Swap(open, s.cur, s1.cur));
      MovedOn(s, s1, s2, open);
      Arrived(s, s2, open);
      if k < |f.params| {
        CoerceFormed(s2, v, IrOf(f.params[k]), args[k].ty, s2.cur, Swap(open, s.cur, s2.cur));
        MovedStayed(s, s2, LowerArgs(s, f, args).0, open);
      }
    }
  }

  // ------------------------------------------------------- logical operators

  lemma BeginFormed(s: Low, t: Ty, open: set<nat>)
    requires Building(s, s.cur, open)
    ensures Building(BeginLogical(s, t), s.cur, open + {|s.blocks|, |s.blocks| + 1})
  {
    hide Formed, IrOf;
    var i := Alloca(s.nextTemp, IrOf(t));
    PlainStep(s, i, s.cur, open);
    AddBlock(Def(s, i), open);
    AddBlock(NewBlock(Def(s, i)), open + {|s.blocks|});
    assert open + {|s.blocks|} + {|s.blocks| + 1} == open + {|s.blocks|, |s.blocks| + 1};
    BeginLogicalShape(s, t);
  }

  lemma BranchFormed(s: Low, op: BinOp, lhs: Operand, lt: Ty, t: Ty, slot: nat, b: nat, open: set<nat>)
    requires Building(s, s.cur, open) && b + 1 < |s.blocks| && s.cur != b && s.blocks[b] == [] && b in open
    requires Below(lhs, s.nextTemp)
    ensures Building(BranchLogical(s, op, lhs, lt, t, slot, b), b, open - {s.cur})
  {
    hide Formed, IrOf, CoerceTo, ToI1;
    var (s1, v) := CoerceTo(s, lhs, IrOf(t), lt);
    CoerceFormed(s, lhs, IrOf(t), lt, s.cur, open);
    var s2 := Emit(s1, Store(v, Temp(IPtr, slot)));
    PlainStep(s1, Store(v, Temp(IPtr, slot)), s.cur, open);
    var (s3, i1) := ToI1(s2, lhs);
    I1Formed(s2, lhs, IVoid, s.cur, open);
    BranchLogicalShape(s, op, lhs, lt, t, slot, b);
    var i := if op.LogAnd? then CondBr(i1, b, b + 1) else CondBr(i1, b + 1, b);
    EndStep(s3, i, open);
    AtBlock(Emit(s3, i), b, open - {s.cur});
  }

  /** Continuing at a block nothing has been put in yet. */
  lemma AtBlock(s: Low, b: nat, open: set<nat>)
    requires Formed(s, open) && b < |s.blocks|
    ensures Formed(Position(s, b), open)
  {
  }

  lemma FinishFormed(s: Low, rhs: Operand, rt: Ty, t: Ty, slot: nat, b: nat, open: set<nat>)
    requires Building(s, s.cur, open) && b + 1 < |s.blocks| && s.cur != b + 1 && s.blocks[b + 1] == [] && b + 1 in open
    requires Below(rhs, s.nextTemp)
    ensures Building(FinishLogical(s, rhs, rt, t, slot, b).0, b + 1, open - {s.cur})
  {
    hide Formed, IrOf, CoerceTo;
    var (s1, v) := CoerceTo(s, rhs, IrOf(t), rt);
    CoerceFormed(s, rhs, IrOf(t), rt, s.cur, open);
    CoerceShape(s, rhs, IrOf(t), rt);
    var s2 := Emit(s1, Store(v, Temp(IPtr, slot)));
    PlainStep(s1, Store(v, Temp(IPtr, slot)), s.cur, open);
    var s3 := Emit(s2, Br(b + 1));
    EndStep(s2, Br(b + 1), open);
    AtBlock(s3, b + 1, open - {s.cur});
    var s4 := Position(s3, b + 1);
    assert s4.blocks[b + 1] == [];
    PlainStep(s4, Load(s4.nextTemp, IrOf(t), Temp(IPtr, slot)), b + 1, open - {s.cur});
  }

  lemma {:induction false} LogicalFormed(s: Low, e: Expr, open: set<nat>)
    requires e.Binary? && IsLogical(e.bop) && Building(s, s.cur, open)
    ensures Moved(s, LowerExpr(s, e).0, open)
    decreases e, 0
  {
    hide Formed, IsOpen, BeginLogical, BranchLogical, FinishLogical, Below;
    var b, slot := |s.blocks|, s.nextTemp;
    var s0 := BeginLogical(s, e.ty);
    var open0 := open + {b, b + 1};
    BeginFormed(s, e.ty, open);
    BeginLogicalShape(s, e.ty);
    var (s1, lhs) := LowerExpr(s0, e.lhs);
    ExprFormed(s0, e.lhs, open0);
    ExprShape(s0, e.lhs);
    var open1 := Swap(open0, s.cur, s1.cur);
    assert s1.cur != b && s1.cur != b + 1 && s1.blocks[b] == [] && s1.blocks[b + 1] == [];
    var s2 := BranchLogical(s1, e.bop, lhs, e.lhs.ty, e.ty, slot, b);
    BranchFormed(s1, e.bop, lhs, e.lhs.ty, e.ty, slot, b, open1);
    BranchLogicalShape(s1, e.bop, lhs, e.lhs.ty, e.ty, slot, b);
    var open2 := open1 - {s1.cur};
    var (s3, rhs) := LowerExpr(s2, e.rhs);
    ExprFormed(s2, e.rhs, open2);
    ExprShape(s2, e.rhs);
    var open3 := Swap(open2, b, s3.cur);
    assert s3.cur != b + 1 && s3.blocks[b + 1] == [];
    FinishFormed(s3, rhs, e.rhs.ty, e.ty, slot, b, open3);
    LogicalEnd(s, FinishLogical(s3, rhs, e.rhs.ty, e.ty, slot, b).0, b, s1.cur, s3.cur, open);
  }

  lemma LogicalEnd(s: Low, u: Low, b: nat, c1: nat, c3: nat, open: set<nat>)
    requires Building(u, b + 1, Swap(Swap(open + {b, b + 1}, s.cur, c1) - {c1}, b, c3) - {c3})
    ensures Moved(s, u, open)
  {
    hide Formed;
    Weaken(u, Swap(Swap(open + {b, b + 1}, s.cur, c1) - {c1}, b, c3) - {c3}, Swap(open, s.cur, b + 1));
  }

  // -------------------------------------------------------------- statements

  /** What lowering a statement does, wherever it leaves the builder. */
  predicate Done(s: Low, t: Low, open: set<nat>) {
    Formed(t, Swap(open, s.cur, t.cur))
  }

  lemma MovedDone(s: Low, t: Low, open: set<nat>)
    requires Moved(s, t, open)
    ensures Done(s, t, open)
  {
  }

  lemma EndedDone(s: Low, t: Low, open: set<nat>)
    requires Formed(t, open - {s.cur})
    ensures Done(s, t, open)
  {
    hide Formed;
    Weaken(t, open - {s.cur}, Swap(open, s.cur, t.cur));
  }

  lemma DoneTrans(s: Low, t: Low, u: Low, open: set<nat>)
    requires Done(s, t, open) && Done(t, u, Swap(open, s.cur, t.cur))
    ensures Done(s, u, open)
  {
    hide Formed;
    Weaken(u, Swap(Swap(open, s.cur, t.cur), t.cur, u.cur), Swap(open, s.cur, u.cur));
  }

  /** Moving on, then a terminator. */
  lemma MovedEnds(s: Low, t: Low, i: Instr, open: set<nat>)
    requires Moved(s, t, open) && IsTerminator(i) && Lands(i, |t.blocks|)
    ensures Formed(Emit(t, i), open - {s.cur})
  {
    hide Formed, Lands;
    EndStep(t, i, Swap(open, s.cur, t.cur));
    Weaken(Emit(t, i), Swap(open, s.cur, t.cur) - {t.cur}, open - {s.cur});
  }

  /** Moving on, then one plain instruction. */
  lemma MovedPlain(s: Low, t: Low, i: Instr, open: set<nat>)
    requires Moved(s, t, open) && !IsTerminator(i)
    ensures Moved(s, Emit(t, i), open) && Moved(s, Def(t, i), open)
  {
    hide Formed;
    PlainStep(t, i, t.cur, Swap(open, s.cur, t.cur));
  }

  lemma WidenedFormed(s: Low, e: Expr, want: IrTy, open: set<nat>)
    requires Building(s, s.cur, open)
    ensures var (a, v) := LowerExpr(s, e); Moved(s, CoerceTo(a, v, want, e.ty).0, open)
  {
    hide Building, CoerceTo, Swap;
    var (a, v) := LowerExpr(s, e);
    ExprFormed(s, e, open);
    CoerceFormed(a, v, want, e.ty, a.cur, Swap(open, s.cur, a.cur));
    MovedStayed(s, a, CoerceTo(a, v, want, e.ty).0, open);
  }

  lemma FromPlain(s: Low, s1: Low, t: Low, open: set<nat>)
    requires s1.cur == s.cur && Moved(s1, t, open)
    ensures Moved(s, t, open)
  {
  }

  lemma SameCode(s: Low, t: Low, u: Low, open: set<nat>)
    requires Moved(s, t, open) && u.blocks == t.blocks && u.cur == t.cur && u.loops == t.loops
    ensures Moved(s, u, open)
  {
  }

  lemma VarFormed(s: Low, d: Decl, init: Option<Expr>, open: set<nat>)
    requires Building(s, s.cur, open)
    ensures Moved(s, LowerVar(s, d, init), open)
  {
    hide Building, Moved, CoerceTo, IrOf;
    var t := IrOf(d.ty);
    var slot := Temp(IPtr, s.nextTemp);
    var s1 := Def(s, Alloca(s.nextTemp, t));
    PlainStep(s, Alloca(s.nextTemp, t), s.cur, open);
    var u: Low;
    if init.Some? {
      var (a, v) := LowerExpr(s1, init.value);
      var (b, c) := CoerceTo(a, v, t, init.value.ty);
      WidenedFormed(s1, init.value, t, open);
      MovedPlain(s1, b, Store(c, slot), open);
      u := Emit(b, Store(c, slot));
    } else {
      Stayed(s1, s1, open);
      MovedPlain(s1, s1, Store(Const(t, 0), slot), open);
      u := Emit(s1, Store(Const(t, 0), slot));
    }
    FromPlain(s, s1, u, open);
    SameCode(s, u, LowerVar(s, d, init), open);
  }

  lemma AddrFormed(s: Low, e: Expr, open: set<nat>)
    requires Building(s, s.cur, open)
    ensures Building(LowerAddr(s, e).0, s.cur, open)
  {
    AddrShape(s, e);
  }

  lemma AssignFormed(s: Low, target: Expr, op: Option<BinOp>, rhs: Expr, open: set<nat>)
    requires Building(s, s.cur, open)
    ensures Moved(s, LowerAssign(s, target, op, rhs), open)
  {
    hide Moved, CoerceTo, IrOf, LowerAddr, IntBinop, Formed, IsOpen;
    var (s1, addr) := LowerAddr(s, target);
    AddrFormed(s, target, open);
    var t := IrOf(target.ty);
    if op.None? {
      var (s2, v) := LowerExpr(s1, rhs);
      var (s3, c) := CoerceTo(s2, v, t, rhs.ty);
      WidenedFormed(s1, rhs, t, open);
      MovedPlain(s1, s3, Store(c, addr), open);
      FromPlain(s, s1, Emit(s3, Store(c, addr)), open);
    } else {
      var load := Load(s1.nextTemp, t, addr);
      var a := Def(s1, load);
      PlainStep(s1, load, s.cur, open);
      var (s2, v) := LowerExpr(a, rhs);
      var (s3, c) := CoerceTo(s2, v, t, rhs.ty);
      WidenedFormed(a, rhs, t, open);
      var i := Bin(IntBinop(op.value, IsSigned(target.ty)), s3.nextTemp, Temp(t, s1.nextTemp), c);
      MovedPlain(a, s3, i, open);
      MovedPlain(a, Def(s3, i), Store(Temp(t, s3.nextTemp), addr), open);
      FromPlain(s, a, Emit(Def(s3, i), Store(Temp(t, s3.nextTemp), addr)), open);
    }
  }

  lemma ReturnFormed(s: Low, result: Option<Expr>, ret: Ty, open: set<nat>)
    requires Building(s, s.cur, open)
    ensures Formed(LowerReturn(s, result, ret), open - {s.cur})
  {
    hide Formed, Moved, CoerceTo, IrOf;
    if result.None? {
      EndStep(s, Ret(None), open);
    } else {
      var (a, v) := LowerExpr(s, result.value);
      var (b, c) := CoerceTo(a, v, IrOf(ret), result.value.ty);
      WidenedFormed(s, result.value, IrOf(ret), open);
      MovedEnds(s, b, Ret(Some(c)), open);
    }
  }

  /** A condition that branches to two blocks of the function. */
  lemma TestFormed(s: Low, cond: Expr, yes: nat, no: nat, open: set<nat>)
    requires Building(s, s.cur, open) && yes < |s.blocks| && no < |s.blocks|
    ensures Formed(LowerTest(s, cond, yes, no), open - {s.cur})
  {
    hide Building, Moved, ToI1, Formed, Swap;
    var (s1, v) := LowerExpr(s, cond);
    ExprFormed(s, cond, open);
    Arrived(s, s1, open);
    var (s2, i1) := ToI1(s1, v);
    I1Formed(s1, v, IVoid, s1.cur, Swap(open, s.cur, s1.cur));
    MovedStayed(s, s1, s2, open);
    assert |s1.blocks| == |s2.blocks| by { I1Blocks(s1, v); }
    MovedEnds(s, s2, CondBr(i1, yes, no), open);
  }

  lemma I1Blocks(s: Low, v: Operand)
    ensures |ToI1(s, v).0.blocks| == |s.blocks|
  {
  }

  lemma JumpFormed(s: Low, jump: nat, open: set<nat>)
    requires Building(s, s.cur, open) && jump < |s.blocks|
    ensures Done(s, Emit(s, Br(jump)), open)
  {
    EndStep(s, Br(jump), open);
    EndedDone(s, Emit(s, Br(jump)), open);
  }

  lemma InLoop(s: Low, open: set<nat>)
    requires Formed(s, open) && s.loops != []
    ensures var l := s.loops[|s.loops| - 1]; l.breakTo < |s.blocks| && l.continueTo < |s.blocks|
  {
  }

  /** A block that has ended, or is ended by a jump inside the function. */
  lemma JoinFormed(s: Low, b: nat, open: set<nat>)
    requires Formed(s, open) && b < |s.blocks|
    ensures Formed(Join(s, b), open - {s.cur})
  {
    if IsOpen(s) {
      EndStep(s, Br(b), open);
    }
  }

  lemma EnsureOpenFormed(s: Low, open: set<nat>)
    requires Formed(s, open) && s.cur in open
    ensures var t := EnsureOpen(s); Building(t, t.cur, Swap(open, s.cur, t.cur))
  {
    hide Straight;
    if IsOpen(s) {
      Stayed(s, s, open);
    } else {
      assert Formed(s, open - {s.cur});
      AddBlock(s, open - {s.cur});
    }
  }

  lemma {:induction false} StmtFormed(s: Low, st: Stmt, ret: Ty, open: set<nat>)
    requires Formed(s, open) && s.cur in open
    ensures Done(s, LowerStmt(s, st, ret), open)
    decreases st, 2
  {
    hide Formed, Done, LowerOpen, Swap, IsOpen;
    var s1 := EnsureOpen(s);
    EnsureOpenFormed(s, open);
    OpenFormed(s1, st, ret, Swap(open, s.cur, s1.cur));
    MovedDone(s, s1, open);
    DoneTrans(s, s1, LowerStmt(s, st, ret), open);
  }

  lemma {:induction false} OpenFormed(s: Low, st: Stmt, ret: Ty, open: set<nat>)
    requires Building(s, s.cur, open)
    ensures Done(s, LowerOpen(s, st, ret), open)
    decreases st, 1
  {
    hide Formed, Moved, Done, IsOpen, Swap, LowerVar, LowerAssign, LowerReturn, LowerIf, LowerWhile, LowerMatch,
        LowerBlock, LowerExpr;
    var t := LowerOpen(s, st, ret);
    match st
    case Block(ss) => BlockFormed(s, ss, ret, open);
    case Var(d, init) =>
      VarFormed(s, d, init, open);
      MovedDone(s, t, open);
    case Assign(target, op, rhs) =>
      AssignFormed(s, target, op, rhs, open);
      MovedDone(s, t, open);
    case ExprStmt(e) =>
      ExprFormed(s, e, open);
      MovedDone(s, t, open);
    case Empty =>
      Stayed(s, s, open);
      MovedDone(s, s, open);
    case Return(e) =>
      ReturnFormed(s, e, ret, open);
      EndedDone(s, t, open);
    case Break => LeaveFormed(s, true, open);
    case Continue => LeaveFormed(s, false, open);
    case If(_, _, _) => IfFormed(s, st, ret, open);
    case While(_, _) => WhileFormed(s, st, ret, open);
    case Match(_, _) => MatchFormed(s, st, ret, open);
  }

  /** A jump out of the innermost loop; outside loops it is only reported. */
  lemma LeaveFormed(s: Low, breaks: bool, open: set<nat>)
    requires Building(s, s.cur, open)
    ensures s.loops == [] ==> Done(s, Fail(s), open)
    ensures s.loops != [] ==> var l := s.loops[|s.loops| - 1];
                              Done(s, Emit(s, Br(if breaks then l.breakTo else l.continueTo)), open)
  {
    hide Formed, Done, IsOpen;
    if s.loops == [] {
      FailFormed(s, open);
      Stayed(s, s, open);
      MovedDone(s, s, open);
      assert Done(s, Fail(s), open) by { DoneFails(s, s, open); }
    } else {
      InLoop(s, open);
      var l := s.loops[|s.loops| - 1];
      JumpFormed(s, if breaks then l.breakTo else l.continueTo, open);
    }
  }

  lemma DoneFails(s: Low, t: Low, open: set<nat>)
    requires Done(s, t, open)
    ensures Done(s, Fail(t), open)
  {
  }

  lemma {:induction false} BlockFormed(s: Low, ss: seq<Stmt>, ret: Ty, open: set<nat>)
    requires Formed(s, open) && s.cur in open
    ensures Done(s, LowerBlock(s, ss, ret), open)
    decreases ss, 1
  {
    hide LowerSeq;
    SeqFormed(s, ss, ret, open);
  }

  lemma {:induction false} SeqFormed(s: Low, ss: seq<Stmt>, ret: Ty, open: set<nat>)
    requires Formed(s, open) && s.cur in open
    ensures Done(s, LowerSeq(s, ss, ret), open)
    decreases ss, 0
  {
    hide Formed, LowerStmt;
    if ss == [] {
      Weaken(s, open, Swap(open, s.cur, s.cur));
    } else {
      var k := |ss| - 1;
      var s1 := LowerSeq(s, ss[..k], ret);
      SeqFormed(s, ss[..k], ret, open);
      StmtFormed(s1, ss[k], ret, Swap(open, s.cur, s1.cur));
      DoneTrans(s, s1, LowerSeq(s, ss, ret), open);
    }
  }

  // ------------------------------------------------------------ if and while

  /** A branch lowered into its own block `b` of `s` and joined to `end`. */
  lemma BranchDone(s: Low, t: Low, b: nat, end: nat, open: set<nat>)
    requires b < |s.blocks| && end < |t.blocks| && Done(Position(s, b), t, open)
    ensures Formed(Join(t, end), open - {b})
  {
    hide Formed;
    JoinFormed(t, end, Swap(open, b, t.cur));
    Weaken(Join(t, end), Swap(open, b, t.cur) - {t.cur}, open - {b});
  }

  /** Going on at the end block. */
  lemma AtEnd(s: Low, t: Low, end: nat, open: set<nat>, left: set<nat>)
    requires Formed(t, left) && end < |t.blocks| && left <= open - {s.cur} + {end}
    ensures Done(s, Position(t, end), open)
  {
    hide Formed;
    AtBlock(t, end, left);
    Weaken(Position(t, end), left, open - {s.cur} + {end});
  }

  lemma BlocksFormed(s: Low, hasElse: bool, open: set<nat>)
    requires Building(s, s.cur, open)
    ensures var b := |s.blocks|;
            Building(IfBlocks(s, hasElse), s.cur, open + (if hasElse then {b, b + 1, b + 2} else {b, b + 1}))
  {
    hide Formed;
    var b := |s.blocks|;
    AddBlock(s, open);
    AddBlock(NewBlock(s), open + {b});
    assert open + {b} + {b + 1} == open + {b, b + 1};
    if hasElse {
      AddBlock(NewBlock(NewBlock(s)), open + {b, b + 1});
      assert open + {b, b + 1} + {b + 2} == open + {b, b + 1, b + 2};
    }
  }

  lemma {:induction false} IfFormed(s: Low, st: Stmt, ret: Ty, open: set<nat>)
    requires st.If? && Building(s, s.cur, open)
    ensures Done(s, LowerIf(s, st, ret), open)
    decreases st, 0
  {
    hide Formed, Done, LowerTest, LowerBlock, LowerStmt, Join, IfBlocks, IsOpen;
    var b, hasElse := |s.blocks|, st.els.Some?;
    var more := if hasElse then {b, b + 1, b + 2} else {b, b + 1};
    var end := if hasElse then b + 2 else b + 1;
    var s0 := IfBlocks(s, hasElse);
    BlocksFormed(s, hasElse, open);
    var t := LowerTest(s0, st.cond, b, b + 1);
    TestFormed(s0, st.cond, b, b + 1, open + more);
    var open1 := open + more - {s.cur};
    var p := Position(t, b);
    AtBlock(t, b, open1);
    var body := LowerBlock(p, st.thn, ret);
    BlockFormed(p, st.thn, ret, open1);
    BranchDone(t, body, b, end, open1);
    var u := Join(body, end);
    if hasElse {
      var q := Position(u, b + 1);
      AtBlock(u, b + 1, open1 - {b});
      var other := LowerStmt(q, st.els.value, ret);
      StmtFormed(q, st.els.value, ret, open1 - {b});
      BranchDone(u, other, b + 1, end, open1 - {b});
      AtEnd(s, Join(other, end), end, open, open1 - {b} - {b + 1});
    } else {
      AtEnd(s, u, end, open, open1 - {b});
    }
  }

  lemma LoopsFormed(s: Low, loops: seq<Loop>, open: set<nat>)
    requires Formed(s, open) && LoopsOk(|s.blocks|, loops)
    ensures Formed(s.(loops := loops), open)
  {
  }

  lemma LoopsChange(s: Low, loops: seq<Loop>, b: nat, open: set<nat>)
    requires Formed(s, open) && b + 2 < |s.blocks|
    ensures LoopsOk(|s.blocks|, s.loops + [Loop(b, b + 2)])
    ensures s.loops == loops + [Loop(b, b + 2)] ==> LoopsOk(|s.blocks|, loops)
  {
    if s.loops == loops + [Loop(b, b + 2)] {
      assert forall i :: 0 <= i < |loops| ==> loops[i] == s.loops[i];
    }
  }

  lemma EnterFormed(s: Low, cond: Expr, open: set<nat>)
    requires Building(s, s.cur, open)
    ensures Formed(EnterWhile(s, cond), open - {s.cur} + {|s.blocks| + 1, |s.blocks| + 2})
  {
    hide Formed, LowerTest;
    var b := |s.blocks|;
    var s0 := NewBlock(NewBlock(NewBlock(s)));
    var open0 := open + {b, b + 1, b + 2};
    BlocksFormed(s, true, open);
    EndStep(s0, Br(b), open0);
    var p := Position(Emit(s0, Br(b)), b);
    AtBlock(Emit(s0, Br(b)), b, open0 - {s.cur});
    assert p.blocks[b] == [];
    var t := LowerTest(p, cond, b + 1, b + 2);
    TestFormed(p, cond, b + 1, b + 2, open0 - {s.cur});
    TestShape(p, cond, b + 1, b + 2);
    var left := open - {s.cur} + {b + 1, b + 2};
    Weaken(t, open0 - {s.cur} - {b}, left);
    LoopsChange(t, [], b, left);
    LoopsFormed(t, t.loops + [Loop(b, b + 2)], left);
    AtBlock(t.(loops := t.loops + [Loop(b, b + 2)]), b + 1, left);
  }

  lemma {:induction false} WhileFormed(s: Low, st: Stmt, ret: Ty, open: set<nat>)
    requires st.While? && Building(s, s.cur, open)
    ensures Done(s, LowerWhile(s, st, ret), open)
    decreases st, 0
  {
    hide Formed, Done, EnterWhile, LowerBlock, Join, IsOpen;
    var b := |s.blocks|;
    var t := EnterWhile(s, st.cond);
    EnterFormed(s, st.cond, open);
    EnterWhileShape(s, st.cond);
    var open1 := open - {s.cur} + {b + 1, b + 2};
    var body := LowerBlock(t, st.body, ret);
    BlockFormed(t, st.body, ret, open1);
    BlockShapes(t, st.body, ret);
    BranchDone(t, body, b + 1, b, open1);
    var u := Join(body, b);
    JoinShape(body, b);
    LoopsChange(u, s.loops, b, open1 - {b + 1});
    LoopsFormed(u, s.loops, open1 - {b + 1});
    assert Cut(u.loops, |u.loops| - 1) == s.loops;
    AtEnd(s, u.(loops := s.loops), b + 2, open, open1 - {b + 1});
  }

  // ------------------------------------------------------------------- match

  lemma {:induction false} MatchFormed(s: Low, st: Stmt, ret: Ty, open: set<nat>)
    requires st.Match? && Building(s, s.cur, open)
    ensures Done(s, LowerMatch(s, st, ret), open)
    decreases st, 0
  {
    hide Formed, Done, LowerArms, LowerExpr, IsOpen;
    var (s1, v) := LowerExpr(s, st.scrutinee);
    ExprFormed(s, st.scrutinee, open);
    var open1 := Swap(open, s.cur, s1.cur);
    var end := |s1.blocks|;
    var s0 := NewBlock(s1);
    AddBlock(s1, open1);
    assert IsOpen(s0) by { SameBlock(s1, s0); }
    var (s2, wild) := LowerArms(s0, st.arms, v, end, ret);
    ArmsFormed(s0, st.arms, v, end, ret, open1 + {end});
    ArmsShapes(s0, st.arms, v, end, ret);
    var jump := if wild.Some? then wild.value else end;
    MovedEnds(s0, s2, Br(jump), open1 + {end});
    AtEnd(s, Emit(s2, Br(jump)), end, open, open1 + {end} - {s1.cur});
  }

  lemma SameBlock(s: Low, t: Low)
    requires IsOpen(s) && t.blocks[t.cur] == s.blocks[s.cur]
    ensures IsOpen(t)
  {
  }

  lemma {:induction false} ArmsFormed(s: Low, arms: seq<Arm>, v: Operand, end: nat, ret: Ty, open: set<nat>)
    requires Building(s, s.cur, open) && end < |s.blocks|
    ensures Moved(s, LowerArms(s, arms, v, end, ret).0, open)
    decreases arms, 0
  {
    hide Building, Moved, LowerArm, Swap;
    if arms == [] {
      Stayed(s, s, open);
    } else {
      var k := |arms| - 1;
      var s1 := LowerArms(s, arms[..k], v, end, ret).0;
      ArmsFormed(s, arms[..k], v, end, ret, open);
      Arrived(s, s1, open);
      ArmFormed(s1, arms[k], v, end, ret, Swap(open, s.cur, s1.cur));
      MovedOn(s, s1, LowerArm(s1, arms[k], v, end, ret), open);
    }
  }

  lemma {:induction false} ArmFormed(s: Low, arm: Arm, v: Operand, end: nat, ret: Ty, open: set<nat>)
    requires Building(s, s.cur, open) && end < |s.blocks|
    ensures Moved(s, LowerArm(s, arm, v, end, ret), open)
    decreases arm, 0
  {
    hide Formed, Done, LowerStmt, LowerLabels, HasWildcard, IsOpen, Join;
    var b := |s.blocks|;
    var s1 := NewBlock(s);
    AddBlock(s, open);
    assert IsOpen(s1) by { SameBlock(s, s1); }
    var open1 := open + {b};
    var s2 := if HasWildcard(arm.labels) then s1 else LowerLabels(s1, arm.labels, v, b);
    ChainFormed(s1, arm, v, b, open1);
    ChainFrame(s1, arm, v, b);
    var open2 := Swap(open1, s.cur, s2.cur);
    var p := Position(s2, b);
    AtBlock(s2, b, open2);
    var body := LowerStmt(p, arm.body, ret);
    StmtFormed(p, arm.body, ret, open2);
    BranchDone(s2, body, b, end, open2);
    BodyFrame(s2, arm.body, b, end, ret);
    var u := Join(body, end);
    BackOnChain(s, s2, u, b, |s2.locals|, open);
  }

  lemma ChainFormed(s: Low, arm: Arm, v: Operand, b: nat, open: set<nat>)
    requires Building(s, s.cur, open) && b < |s.blocks|
    ensures Moved(s, if HasWildcard(arm.labels) then s else LowerLabels(s, arm.labels, v, b), open)
  {
    hide Building, Moved;
    if HasWildcard(arm.labels) {
      Stayed(s, s, open);
    } else {
      LabelsFormed(s, arm.labels, v, b, open);
    }
  }

  /** After the body of an arm the builder is back where the tests left it. */
  lemma BackOnChain(s: Low, s2: Low, u: Low, b: nat, n: nat, open: set<nat>)
    requires Formed(u, Swap(open + {b}, s.cur, s2.cur) - {b}) && s2.cur != b && s2.cur < |u.blocks|
    requires IsOpen(s2) && u.blocks[s2.cur] == s2.blocks[s2.cur]
    ensures Moved(s, Position(u.(locals := Cut(u.locals, n)), s2.cur), open)
  {
    hide Straight;
    Weaken(u, Swap(open + {b}, s.cur, s2.cur) - {b}, Swap(open, s.cur, s2.cur));
  }

  lemma {:induction false} LabelsFormed(s: Low, labels: seq<Label>, v: Operand, body: nat, open: set<nat>)
    requires Building(s, s.cur, open) && body < |s.blocks|
    ensures Moved(s, LowerLabels(s, labels, v, body), open)
    decreases labels
  {
    hide Building, Moved, LowerLabel, Swap;
    if labels == [] {
      Stayed(s, s, open);
    } else {
      var k := |labels| - 1;
      var s1 := LowerLabels(s, labels[..k], v, body);
      LabelsFormed(s, labels[..k], v, body, open);
      Arrived(s, s1, open);
      LabelFormed(s1, labels[k], v, body, Swap(open, s.cur, s1.cur));
      MovedOn(s, s1, LowerLabel(s1, labels[k], v, body), open);
    }
  }

  lemma LabelFormed(s: Low, l: Label, v: Operand, body: nat, open: set<nat>)
    requires Building(s, s.cur, open) && body < |s.blocks|
    ensures Moved(s, LowerLabel(s, l, v, body), open)
  {
    hide Formed, LowerExpr;
    if l.Wildcard? {
      Stayed(s, s, open);
    } else {
      var next := |s.blocks|;
      var s0 := NewBlock(s);
      AddBlock(s, open);
      assert IsOpen(s0) by { SameBlock(s, s0); }
      var (s1, w) := LowerExpr(s0, l.expr);
      ExprFormed(s0, l.expr, open + {next});
      ExprShape(s0, l.expr);
      var i := Icmp(PEq, s1.nextTemp, v, w);
      MovedPlain(s0, s1, i, open + {next});
      var s2 := Def(s1, i);
      var c := CondBr(Temp(IInt(1), s1.nextTemp), body, next);
      MovedEnds(s0, s2, c, open + {next});
      NextTest(s, Emit(s2, c), next, open);
    }
  }

  /** Going on at the block of the next test. */
  lemma NextTest(s: Low, t: Low, next: nat, open: set<nat>)
    requires Formed(t, open + {next} - {s.cur}) && next < |t.blocks| && t.blocks[next] == []
    ensures Moved(s, Position(t, next), open)
  {
    hide Straight;
    Weaken(t, open + {next} - {s.cur}, Swap(open, s.cur, next));
  }

  // --------------------------------------------------------------- functions

  lemma {:induction false} ParamsFormed(s: Low, params: seq<Decl>, open: set<nat>)
    requires Building(s, s.cur, open)
    ensures Building(LowerParams(s, params), s.cur, open)
    decreases |params|
  {
    hide Formed, IrOf;
    if params != [] {
      var k := |params| - 1;
      ParamsFormed(s, params[..k], open);
      var s1 := LowerParams(s, params[..k]);
      var t := IrOf(params[k].ty);
      PlainStep(s1, Alloca(s1.nextTemp, t), s.cur, open);
      var s2 := Def(s1, Alloca(s1.nextTemp, t));
      var i := Store(Temp(t, k), Temp(IPtr, s1.nextTemp));
      PlainStep(s2, i, s.cur, open);
      PushFormed(Emit(s2, i), Binding(params[k], s1.nextTemp), s.cur, open);
    }
  }

  lemma PushFormed(s: Low, b: Binding, c: nat, open: set<nat>)
    requires Building(s, c, open)
    ensures Building(s.(locals := s.locals + [b]), c, open)
  {
  }

  lemma BodyFormed(fn: FnDecl)
    ensures Formed(LowerFunction(fn), {})
  {
    hide LowerBlock, LowerParams, Formed;
    var s := Entry(fn);
    assert Formed(s, {0}) by { EntryFormed(fn); }
    ParamsFormed(s, fn.params, {0});
    var p := LowerParams(s, fn.params);
    BlockFormed(p, fn.body, fn.ret, {0});
    var t := Body(fn);
    assert Swap({0}, 0, t.cur) == {t.cur};
    if IsOpen(t) {
      EndStep(t, if fn.ret.Void? then Ret(None) else Unreachable, {t.cur});
      assert {t.cur} - {t.cur} == {};
    } else {
      Finished(t);
    }
  }

  lemma EntryFormed(fn: FnDecl)
    ensures Formed(Entry(fn), {0})
  {
  }

  lemma Finished(s: Low)
    requires Formed(s, Swap({0}, 0, s.cur)) && !IsOpen(s)
    ensures Formed(s, {})
  {
  }

  /** Whatever the function, checked or not, what lowering makes of it is well
      formed as a control-flow graph: every block is terminated once, at its end,
      and no branch leaves the function. */
  lemma LoweredWellFormed(fn: FnDecl)
    ensures forall b :: b in LowerFunction(fn).blocks ==>
              EndsOnce(b) && forall i :: i in b ==> Lands(i, |LowerFunction(fn).blocks|)
  {
    hide LowerFunction;
    BodyFormed(fn);
    var f := LowerFunction(fn).blocks;
    forall b | b in f ensures Straight(b, |f|) && Terminated(b) {
      var j :| 0 <= j < |f| && f[j] == b;
    }
  }
}
