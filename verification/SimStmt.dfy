/** Running the code of a statement does what the statement does. */
module SimStmt {
  import opened Words
  import opened Types
  import opened Tree
  import opened Typing
  import opened Ir
  import opened Lowering
  import opened LoweringShape
  import opened LoweringTypes
  import opened SimWords
  import opened SimExpr

  // -------------------------------------------------------- stores to locals

  /** Temporaries below `k` keep their contents; slots may have been written. */
  predicate RegsKept(m: Machine, m': Machine, k: nat) {
    forall id :: id in m.regs && id < k ==> id in m'.regs && m'.regs[id] == m.regs[id]
  }

  lemma RegsKeptTrans(a: Machine, b: Machine, c: Machine, k: nat, n: nat)
    requires RegsKept(a, b, k) && RegsKept(b, c, n) && k <= n
    ensures RegsKept(a, c, k)
  {
  }

  lemma KeptRegs(m: Machine, m': Machine, k: nat)
    requires Kept(m, m', k)
    ensures RegsKept(m, m', k)
  {
  }

  /** Writing one local's slot changes that variable and no other. */
  lemma RepresentsStore(locals: seq<Binding>, vars: seq<Local>, i: nat, v: int, m: Machine, m': Machine)
    requires Represents(locals, vars, m) && i < |vars| && InRange(vars[i].decl.ty, v)
    requires m'.regs == m.regs
    requires var a := m.regs[locals[i].reg].addr;
             m'.mem == m.mem[a := Slot(IrOf(vars[i].decl.ty), Some(Enc(Width(vars[i].decl.ty), v)))]
    ensures Represents(locals, vars[i := vars[i].(value := v)], m')
  {
    var vars' := vars[i := vars[i].(value := v)];
    assert Represented(locals[i], vars[i], m);
    forall j | 0 <= j < |vars'| ensures Represented(locals[j], vars'[j], m') {
      assert Represented(locals[j], vars[j], m);
      if j < i {
        assert m.regs[locals[j].reg] != m.regs[locals[i].reg];
      } else if i < j {
        assert m.regs[locals[i].reg] != m.regs[locals[j].reg];
      }
    }
    forall j, k | 0 <= j < k < |locals| ensures m'.regs[locals[j].reg] != m'.regs[locals[k].reg] {
      assert Represented(locals[j], vars[j], m) && Represented(locals[k], vars[k], m);
    }
  }

  /** A new local in a slot past all those in use. */
  lemma RepresentsPush(locals: seq<Binding>, vars: seq<Local>, d: Decl, reg: nat, v: int, base: Machine, m: Machine)
    requires Represents(locals, vars, base) && Kept(base, m, reg) && RegsBelow(locals, reg)
    requires IsScalar(d.ty) && InRange(d.ty, v)
    requires OwnSlot(reg, d.ty, base, m) && SlotHolds(reg, IrOf(d.ty), Enc(Width(d.ty), v), m)
    ensures Represents(locals + [Binding(d, reg)], vars + [Local(d, v)], m)
  {
    RepresentsKept(locals, vars, base, m, reg);
    var locals', vars' := locals + [Binding(d, reg)], vars + [Local(d, v)];
    forall j | 0 <= j < |vars'| ensures Represented(locals'[j], vars'[j], m) {
      if j < |vars| {
        assert Represented(locals[j], vars[j], m);
      }
    }
    forall j, k | 0 <= j < k < |locals'| ensures m.regs[locals'[j].reg] != m.regs[locals'[k].reg] {
      assert Represented(locals[j], vars[j], base);
      if k < |locals| {
        assert Represented(locals[k], vars[k], m);
      }
    }
  }

  lemma RepresentsCut(locals: seq<Binding>, vars: seq<Local>, m: Machine, k: nat)
    requires Represents(locals, vars, m) && k <= |vars|
    ensures Represents(locals[..k], vars[..k], m)
  {
    forall j | 0 <= j < k ensures Represented(locals[..k][j], vars[..k][j], m) {
      assert Represented(locals[j], vars[j], m);
    }
  }

  // --------------------------------------------------------- leaf statements

  lemma AllocaSim(f: Blocks, s: Low, t: Ty, m: Machine, orc: Oracle) returns (m': Machine)
    requires AtEnd(s, m) && Ext(Def(s, Alloca(s.nextTemp, IrOf(t))).blocks, f)
    ensures var s1 := Def(s, Alloca(s.nextTemp, IrOf(t)));
            && Reaches(f, m, m', 1, orc) && AtEnd(s1, m') && Kept(m, m', s.nextTemp) && m'.trace == m.trace
            && OwnSlot(s.nextTemp, t, m, m')
  {
    m' := RunDef(f, s, Alloca(s.nextTemp, IrOf(t)), m, orc);
  }

  lemma StayPut(f: Blocks, m: Machine, k: nat, orc: Oracle)
    ensures Reaches(f, m, m, 0, orc) && Kept(m, m, k)
  {
  }

  lemma ZeroHolds(t: Ty, m: Machine)
    requires IsScalar(t)
    ensures Holds(Const(IrOf(t), 0), t, 0, m)
  {
    IrOfScalar(t);
    EncSmall(Width(t), 0);
  }

  lemma VarGrowth(f: Blocks, s: Low, d: Decl, init: Option<Expr>)
    requires Ext(LowerVar(s, d, init).blocks, f)
    ensures var s1 := Def(s, Alloca(s.nextTemp, IrOf(d.ty)));
            && Ext(s1.blocks, f) && s1.locals == s.locals && s1.nextTemp == s.nextTemp + 1
            && (init.Some? ==>
                  && Ext(LowerExpr(s1, init.value).0.blocks, f)
                  && LowerExpr(s1, init.value).0.locals == s.locals
                  && Below(LowerExpr(s1, init.value).1, LowerExpr(s1, init.value).0.nextTemp)
                  && s1.nextTemp <= LowerExpr(s1, init.value).0.nextTemp)
  {
    hide LowerExpr;
    var t := IrOf(d.ty);
    var slot := Temp(IPtr, s.nextTemp);
    var s1 := Def(s, Alloca(s.nextTemp, t));
    EmitShape(s, Alloca(s.nextTemp, t));
    if init.Some? {
      var (a, v) := LowerExpr(s1, init.value);
      ExprShape(s1, init.value);
      var (b, c) := CoerceTo(a, v, t, init.value.ty);
      CoerceShape(a, v, t, init.value.ty);
      EmitShape(b, Store(c, slot));
      ExtTrans(b.blocks, Emit(b, Store(c, slot)).blocks, f);
      ExtTrans(a.blocks, b.blocks, f);
      ExtTrans(s1.blocks, a.blocks, f);
    } else {
      EmitShape(s1, Store(Const(t, 0), slot));
      ExtTrans(s1.blocks, Emit(s1, Store(Const(t, 0), slot)).blocks, f);
    }
  }

  lemma VarSim(f: Blocks, s: Low, d: Decl, init: Option<Expr>, scope: Scope, vars: seq<Local>, m: Machine, orc: Oracle)
    returns (n: nat, m': Machine)
    requires Ready(s, scope, vars, m) && Ext(LowerVar(s, d, init).blocks, f) && IsScalar(d.ty)
    requires init.Some? ==> TypedExpr(init.value, scope) && init.value.ty == d.ty
    requires init.Some? ==> Eval(init.value, vars, m.trace, orc).Val?
    ensures var t := LowerVar(s, d, init);
            var out := if init.Some? then Eval(init.value, vars, m.trace, orc) else Val(0, m.trace);
            && Reaches(f, m, m', n, orc) && AtEnd(t, m') && RegsKept(m, m', s.nextTemp) && m'.trace == out.trace
            && Represents(t.locals, vars + [Local(d, out.value)], m')
  {
    hide Ext, Represents, RegsBelow, Kept, RegsKept, Reaches, OwnSlot, SlotHolds, SameDecls, LowerExpr, Eval,
        TypedExpr, Width, Enc, InRange;
    var reg := s.nextTemp;
    var s1 := Def(s, Alloca(reg, IrOf(d.ty)));
    VarGrowth(f, s, d, init);
    IrOfScalar(d.ty);
    var m1 := AllocaSim(f, s, d.ty, m, orc);
    ReadyAfter(s, s1, scope, vars, m, m1);
    var n2, m2, a, s2, v;
    if init.Some? {
      s2, v := LowerExpr(s1, init.value).0, LowerExpr(s1, init.value).1;
      a := Eval(init.value, vars, m.trace, orc).value;
      n2, m2 := ExprSim(f, s1, init.value, scope, vars, m1, orc);
    } else {
      s2, v, a, n2, m2 := s1, Const(IrOf(d.ty), 0), 0, 0, m1;
      StayPut(f, m1, s1.nextTemp, orc);
      ZeroHolds(d.ty, m1);
    }
    OwnSlotKept(reg, d.ty, m, m1, m2, s1.nextTemp);
    Chain(f, m, m1, m2, reg, s1.nextTemp, 1, n2, orc);
    var n3, m3 := WriteSlot(f, s2, v, d.ty, d.ty, a, reg, m2, m, reg, orc);
    ReachesTrans(f, m, m2, m3, 1 + n2, n3, orc);
    n, m' := 1 + n2 + n3, m3;
    HoldsInRange(v, d.ty, a, m2);
    RepresentsPush(s.locals, vars, d, reg, a, m, m3);
    KeptRegs(m, m3, reg);
  }

  lemma HoldsInRange(v: Operand, t: Ty, a: int, m: Machine)
    requires Holds(v, t, a, m)
    ensures InRange(t, a)
  {
  }

  /** Storing an operand into the slot of local `i`. */
  lemma StoreLocalSim(f: Blocks, s: Low, i: nat, v: Operand, a: int, scope: Scope, vars: seq<Local>, m: Machine,
      orc: Oracle)
    returns (m': Machine)
    requires Ready(s, scope, vars, m) && i < |vars| && Holds(v, scope[i].ty, a, m)
    requires Ext(Emit(s, Store(v, Temp(IPtr, s.locals[i].reg))).blocks, f)
    ensures Reaches(f, m, m', 1, orc) && AtEnd(Emit(s, Store(v, Temp(IPtr, s.locals[i].reg))), m')
    ensures m'.regs == m.regs && m'.trace == m.trace
    ensures Represents(s.locals, vars[i := vars[i].(value := a)], m')
  {
    assert Represented(s.locals[i], vars[i], m);
    IrOfScalar(scope[i].ty);
    m' := RunStore(f, s, v, s.locals[i].reg, Enc(Width(scope[i].ty), a), m, orc);
    RepresentsStore(s.locals, vars, i, a, m, m');
  }

  lemma AssignGrowth(f: Blocks, s: Low, target: Expr, op: Option<BinOp>, rhs: Expr, i: nat)
    requires target.Name? && FindLocal(s.locals, target.name) == Some(i)
    requires Ext(LowerAssign(s, target, op, rhs).blocks, f)
    ensures var addr := Temp(IPtr, s.locals[i].reg); var t := IrOf(target.ty);
            var s1 := if op.None? then s else Def(s, Load(s.nextTemp, t, addr));
            var (s2, v) := LowerExpr(s1, rhs);
            var (s3, c) := CoerceTo(s2, v, t, rhs.ty);
            && Ext(s1.blocks, f) && Ext(s2.blocks, f) && Ext(s3.blocks, f)
            && Grows(s, s1) && Grows(s1, s2) && Grows(s2, s3)
            && Below(v, s2.nextTemp) && Below(c, s3.nextTemp)
            && (op.Some? ==> Ext(Def(s3,
                Bin(IntBinop(op.value, IsSigned(target.ty)), s3.nextTemp, Temp(t, s.nextTemp), c)).blocks, f))
  {
    hide LowerExpr;
    var addr, t := Temp(IPtr, s.locals[i].reg), IrOf(target.ty);
    var s1 := if op.None? then s else Def(s, Load(s.nextTemp, t, addr));
    EmitShape(s, Load(s.nextTemp, t, addr));
    var (s2, v) := LowerExpr(s1, rhs);
    ExprShape(s1, rhs);
    var (s3, c) := CoerceTo(s2, v, t, rhs.ty);
    CoerceShape(s2, v, t, rhs.ty);
    var u := LowerAssign(s, target, op, rhs);
    if op.None? {
      EmitShape(s3, Store(c, addr));
    } else {
      var i := Bin(IntBinop(op.value, IsSigned(target.ty)), s3.nextTemp, Temp(t, s.nextTemp), c);
      EmitShape(s3, i);
      EmitShape(Def(s3, i), Store(Temp(t, s3.nextTemp), addr));
      ExtTrans(Def(s3, i).blocks, u.blocks, f);
      ExtTrans(s3.blocks, Def(s3, i).blocks, u.blocks);
    }
    ExtTrans(s3.blocks, u.blocks, f);
    ExtTrans(s2.blocks, s3.blocks, f);
    ExtTrans(s1.blocks, s2.blocks, f);
  }

  /** `x = e` */
  lemma AssignSim(f: Blocks, s: Low, target: Expr, rhs: Expr, scope: Scope, vars: seq<Local>, m: Machine, orc: Oracle)
    returns (n: nat, m': Machine)
    requires Ready(s, scope, vars, m) && Ext(LowerAssign(s, target, None, rhs).blocks, f)
    requires target.Name? && FindDecl(scope, target.name).Some? && TypedExpr(target, scope)
    requires TypedExpr(rhs, scope) && rhs.ty == target.ty && Eval(rhs, vars, m.trace, orc).Val?
    ensures var t := LowerAssign(s, target, None, rhs); var out := Eval(rhs, vars, m.trace, orc);
            var i := FindDecl(scope, target.name).value;
            && Reaches(f, m, m', n, orc) && AtEnd(t, m') && RegsKept(m, m', s.nextTemp) && m'.trace == out.trace
            && i < |vars| && Represents(s.locals, vars[i := vars[i].(value := out.value)], m')
  {
    hide Ext, Represents, RegsBelow, Kept, RegsKept, Reaches, SameDecls, LowerExpr, Eval, Width, Enc, InRange;
    var i := FindDecl(scope, target.name).value;
    MirrorsScope(s.locals, scope, vars, m);
    LocalsAgree(scope, s.locals, target.name);
    AssignGrowth(f, s, target, None, rhs, i);
    var (s2, v) := LowerExpr(s, rhs);
    IrOfScalar(target.ty);
    ExprType(s, rhs, scope);
    var n1, m1 := ExprSim(f, s, rhs, scope, vars, m, orc);
    ReadyAfter(s, s2, scope, vars, m, m1);
    ReadyLengths(s, scope, vars, m);
    m' := StoreLocalSim(f, s2, i, v, Eval(rhs, vars, m.trace, orc).value, scope, vars, m1, orc);
    n := n1 + 1;
    ReachesTrans(f, m, m1, m', n1, 1, orc);
    SameRegs(m, m1, m', s.nextTemp);
  }

  lemma ReadyLengths(s: Low, scope: Scope, vars: seq<Local>, m: Machine)
    requires Ready(s, scope, vars, m)
    ensures |scope| == |vars| == |s.locals|
  {
  }

  lemma SameRegs(m: Machine, m1: Machine, m': Machine, k: nat)
    requires Kept(m, m1, k) && m'.regs == m1.regs
    ensures RegsKept(m, m', k)
  {
  }

  /** `x op= e` */
  lemma CompoundSim(f: Blocks, s: Low, target: Expr, op: BinOp, rhs: Expr, scope: Scope, vars: seq<Local>, m: Machine,
      orc: Oracle)
    returns (n: nat, m': Machine)
    requires Ready(s, scope, vars, m) && Ext(LowerAssign(s, target, Some(op), rhs).blocks, f)
    requires target.Name? && FindDecl(scope, target.name).Some? && TypedExpr(target, scope)
    requires !IsComparison(op) && !IsLogical(op)
    requires TypedExpr(rhs, scope) && TypedOperands(op, target.ty, rhs.ty, target.ty)
             && Eval(rhs, vars, m.trace, orc).Val?
    requires var i := FindDecl(scope, target.name).value;
             i < |vars| && Arith(op, target.ty, vars[i].value, Eval(rhs, vars, m.trace, orc).value).Some?
    ensures var t := LowerAssign(s, target, Some(op), rhs); var out := Eval(rhs, vars, m.trace, orc);
            var i := FindDecl(scope, target.name).value;
            var r := Arith(op, target.ty, vars[i].value, out.value).value;
            && Reaches(f, m, m', n, orc) && AtEnd(t, m') && RegsKept(m, m', s.nextTemp) && m'.trace == out.trace
            && Represents(s.locals, vars[i := vars[i].(value := r)], m')
  {
    hide Ext, Represents, RegsBelow, Kept, RegsKept, Reaches, SameDecls, LowerExpr, Eval, Arith, Width, Enc, InRange;
    hide IrBin, Fail, IrOf, FindLocal, IsSigned, IsIntLike;
    var i := FindDecl(scope, target.name).value;
    MirrorsScope(s.locals, scope, vars, m);
    LocalsAgree(scope, s.locals, target.name);
    AssignGrowth(f, s, target, Some(op), rhs, i);
    var t := target.ty;
    var addr, cur := Temp(IPtr, s.locals[i].reg), Temp(IrOf(t), s.nextTemp);
    IrOfScalar(t);
    var s1 := Def(s, Load(s.nextTemp, IrOf(t), addr));
    var (s2, v) := LowerExpr(s1, rhs);
    var (s3, c) := CoerceTo(s2, v, IrOf(t), rhs.ty);
    var a, b := vars[i].value, Eval(rhs, vars, m.trace, orc).value;
    LocalSlot(s, i, scope, vars, m);
    var m1 := RunLoad(f, s, IrOf(t), s.locals[i].reg, Enc(Width(t), a), m, orc);
    assert Holds(cur, t, a, m1);
    ReadyAfter(s, s1, scope, vars, m, m1);
    var n2, m2 := ExprSim(f, s1, rhs, scope, vars, m1, orc);
    HoldsKept(cur, t, a, m1, m2, s1.nextTemp);
    var n3, m3 := CoerceSim(f, s2, v, t, rhs.ty, b, m2, orc);
    HoldsKept(cur, t, a, m2, m3, s2.nextTemp);
    Chain(f, m, m1, m2, s.nextTemp, s1.nextTemp, 1, n2, orc);
    Chain(f, m, m2, m3, s.nextTemp, s2.nextTemp, 1 + n2, n3, orc);
    ReadyAfter(s, s3, scope, vars, m, m3);
    var n4;
    n4, m' := OperateSim(f, s3, i, t, op, cur, c, a, b, scope, vars, m3, orc);
    n := 1 + n2 + n3 + n4;
    ReachesTrans(f, m, m3, m', 1 + n2 + n3, n4, orc);
    KeptRegs(m, m3, s.nextTemp);
    RegsKeptTrans(m, m3, m', s.nextTemp, s3.nextTemp);
  }

  /** Applies the operator of a compound assignment and stores the result. */
  lemma OperateSim(f: Blocks, s: Low, i: nat, t: Ty, op: BinOp, cur: Operand, c: Operand, a: int, b: int,
                   scope: Scope, vars: seq<Local>, m: Machine, orc: Oracle)
    returns (n: nat, m': Machine)
    requires Ready(s, scope, vars, m) && i < |scope| && scope[i].ty == t && IsIntLike(t) && !IsComparison(op)
             && !IsLogical(op)
    requires Holds(cur, t, a, m) && c.ty == IInt(Width(t)) && ReadOperand(c, m) == Some(Bits(Enc(Width(t), b)))
    requires Arith(op, t, a, b).Some? && (IsShift(op) || InRange(t, b))
    requires var s1 := Def(s, Bin(IntBinop(op, IsSigned(t)), s.nextTemp, cur, c));
             i < |s.locals| && Ext(Emit(s1, Store(Temp(IrOf(t), s.nextTemp), Temp(IPtr, s.locals[i].reg))).blocks, f)
    ensures var s1 := Def(s, Bin(IntBinop(op, IsSigned(t)), s.nextTemp, cur, c));
            var r := Arith(op, t, a, b).value;
            && Reaches(f, m, m', n, orc)
            && AtEnd(Emit(s1, Store(Temp(IrOf(t), s.nextTemp), Temp(IPtr, s.locals[i].reg))), m')
            && RegsKept(m, m', s.nextTemp) && m'.trace == m.trace
            && i < |vars| && Represents(s.locals, vars[i := vars[i].(value := r)], m')
  {
    hide Ext, Represents, RegsBelow, Kept, RegsKept, Reaches, SameDecls, Arith, Width, Enc, InRange, IrBin;
    ArithSim(op, t, a, b);
    IrOfScalar(t);
    var r := Arith(op, t, a, b).value;
    var s1 := Def(s, Bin(IntBinop(op, IsSigned(t)), s.nextTemp, cur, c));
    EmitIn(f, s1, Store(Temp(IrOf(t), s.nextTemp), Temp(IPtr, s.locals[i].reg)));
    var m1 := RunBin(f, s, IntBinop(op, IsSigned(t)), cur, c, Enc(Width(t), a), Enc(Width(t), b), Enc(Width(t), r), m,
        orc);
    ReadyAfter(s, s1, scope, vars, m, m1);
    ReadyLengths(s, scope, vars, m);
    m' := StoreLocalSim(f, s1, i, Temp(IrOf(t), s.nextTemp), r, scope, vars, m1, orc);
    n := 2;
    ReachesTrans(f, m, m1, m', 1, 1, orc);
    SameRegs(m, m1, m', s.nextTemp);
  }

  lemma LocalSlot(s: Low, i: nat, scope: Scope, vars: seq<Local>, m: Machine)
    requires Ready(s, scope, vars, m) && i < |vars|
    ensures |scope| == |vars| == |s.locals|
    ensures InRange(scope[i].ty, vars[i].value)
    ensures SlotHolds(s.locals[i].reg, IrOf(scope[i].ty), Enc(Width(scope[i].ty), vars[i].value), m)
  {
    assert Represented(s.locals[i], vars[i], m);
  }

  lemma ReturnSim(f: Blocks, s: Low, e: Expr, ret: Ty, scope: Scope, vars: seq<Local>, m: Machine, orc: Oracle)
    returns (n: nat, m': Machine)
    requires Ready(s, scope, vars, m) && Ext(LowerReturn(s, Some(e), ret).blocks, f)
    requires TypedExpr(e, scope) && IsScalar(ret) && e.ty == ret && Eval(e, vars, m.trace, orc).Val?
    ensures var out := Eval(e, vars, m.trace, orc);
            Reaches(f, m, m', n, orc) && Step(f, m', orc) == Halt(Some(Enc(Width(ret), out.value)), out.trace)
  {
    hide Ext, Represents, RegsBelow, Kept, Reaches, SameDecls, LowerExpr, Eval, Width, Enc, InRange;
    var (s1, v) := LowerExpr(s, e);
    IrOfScalar(ret);
    MirrorsScope(s.locals, scope, vars, m);
    ExprType(s, e, scope);
    assert LowerReturn(s, Some(e), ret) == Emit(s1, Ret(Some(v)));
    EmitShape(s1, Ret(Some(v)));
    EmitIn(f, s1, Ret(Some(v)));
    n, m' := ExprSim(f, s, e, scope, vars, m, orc);
    Fetch(f, s1, Ret(Some(v)), m', orc);
  }

  lemma EmitIn(f: Blocks, s: Low, i: Instr)
    requires Ext(Emit(s, i).blocks, f)
    ensures Ext(s.blocks, f)
  {
    EmitShape(s, i);
    ExtTrans(s.blocks, Emit(s, i).blocks, f);
  }

  /** Evaluates a condition and jumps on it. */
  lemma TestSim(f: Blocks, s: Low, cond: Expr, yes: nat, no: nat, scope: Scope, vars: seq<Local>, m: Machine,
      orc: Oracle)
    returns (n: nat, m': Machine)
    requires Ready(s, scope, vars, m) && Ext(LowerTest(s, cond, yes, no).blocks, f)
    requires TypedCondition(cond, scope) && Eval(cond, vars, m.trace, orc).Val?
    ensures var out := Eval(cond, vars, m.trace, orc);
            && n >= 1 && Reaches(f, m, m', n, orc) && Kept(m, m', s.nextTemp) && m'.trace == out.trace
            && m'.blk == (if out.value != 0 then yes else no) && m'.pc == 0
  {
    hide Ext, Represents, RegsBelow, Kept, Reaches, SameDecls, LowerExpr, Eval, TypedExpr, Width, Enc;
    var (s1, v) := LowerExpr(s, cond);
    var (s2, c) := ToI1(s1, v);
    GrowExpr(s, cond);
    GrowI1(s1, v);
    EmitIn(f, s2, CondBr(c, yes, no));
    GrowsIn(s1, s2, f);
    var a := Eval(cond, vars, m.trace, orc).value;
    var n1, m1 := ExprSim(f, s, cond, scope, vars, m, orc);
    var n2, m2 := ToI1Sim(f, s1, v, cond.ty, a, m1, orc);
    m' := RunCondBr(f, s2, c, yes, no, a, m2, orc);
    JumpKept(m2, m'.blk, s2.nextTemp);
    Chain(f, m, m1, m2, s.nextTemp, s1.nextTemp, n1, n2, orc);
    Chain(f, m, m2, m', s.nextTemp, s2.nextTemp, n1 + n2, 1, orc);
    n := n1 + n2 + 1;
  }

  lemma GrowI1(s: Low, v: Operand)
    requires Below(v, s.nextTemp)
    ensures var (u, c) := ToI1(s, v); Grows(s, u) && Below(c, u.nextTemp)
  {
    I1Shape(s, v, IVoid);
  }
}
