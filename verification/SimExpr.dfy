/** Running the code of an expression computes its value, with the same calls. */
module SimExpr {
  import opened Words
  import opened Types
  import opened Tree
  import opened Typing
  import opened Ir
  import opened Lowering
  import opened LoweringShape
  import opened LoweringTypes
  import opened SimWords

  // ------------------------------------------------- machine against program

  /** The machine is about to run whatever is emitted next into `s`. */
  predicate AtEnd(s: Low, m: Machine) {
    m.blk == s.cur && m.pc == |s.blocks[s.cur]|
  }

  /** Every local's temporary holds the address of a slot of its own, whose
      content is the pattern of the variable's value. */
  predicate Represents(locals: seq<Binding>, vars: seq<Local>, m: Machine) {
    && |locals| == |vars|
    && (forall i :: 0 <= i < |vars| ==> Represented(locals[i], vars[i], m))
    && (forall i, j :: 0 <= i < j < |locals| ==> m.regs[locals[i].reg] != m.regs[locals[j].reg])
  }

  predicate Represented(b: Binding, v: Local, m: Machine) {
    && b.decl == v.decl
    && IsScalar(v.decl.ty) && InRange(v.decl.ty, v.value)
    && b.reg in m.regs && m.regs[b.reg].Addr?
    && m.regs[b.reg].addr < |m.mem|
    && m.mem[m.regs[b.reg].addr] == Slot(IrOf(v.decl.ty), Some(Enc(Width(v.decl.ty), v.value)))
  }

  predicate RegsBelow(locals: seq<Binding>, k: nat) {
    forall i :: 0 <= i < |locals| ==> locals[i].reg < k
  }

  predicate SameDecls(scope: Scope, vars: seq<Local>) {
    |scope| == |vars| && forall i :: 0 <= i < |scope| ==> vars[i].decl == scope[i]
  }

  /** Temporaries below `k` and all existing slots are as before. */
  predicate Kept(m: Machine, m': Machine, k: nat) {
    && (forall id :: id in m.regs && id < k ==> id in m'.regs && m'.regs[id] == m.regs[id])
    && m.mem <= m'.mem
  }

  predicate Holds(o: Operand, t: Ty, v: int, m: Machine) {
    && InRange(t, v)
    && o.ty == IInt(Width(t))
    && ReadOperand(o, m) == Some(Bits(Enc(Width(t), v)))
  }

  lemma KeptTrans(a: Machine, b: Machine, c: Machine, k: nat, n: nat)
    requires Kept(a, b, k) && Kept(b, c, n) && k <= n
    ensures Kept(a, c, k)
  {
  }

  lemma RepresentsKept(locals: seq<Binding>, vars: seq<Local>, m: Machine, m': Machine, k: nat)
    requires Represents(locals, vars, m) && Kept(m, m', k) && RegsBelow(locals, k)
    ensures Represents(locals, vars, m')
  {
    forall i | 0 <= i < |vars| ensures Represented(locals[i], vars[i], m') {
      assert Represented(locals[i], vars[i], m);
    }
    forall i, j | 0 <= i < j < |locals| ensures m'.regs[locals[i].reg] != m'.regs[locals[j].reg] {
      assert Represented(locals[i], vars[i], m) && Represented(locals[j], vars[j], m);
    }
  }

  lemma HoldsKept(o: Operand, t: Ty, v: int, m: Machine, m': Machine, k: nat)
    requires Holds(o, t, v, m) && Kept(m, m', k) && Below(o, k)
    ensures Holds(o, t, v, m')
  {
  }

  /** The two name lookups walk stacks of the same declarations. */
  lemma {:induction false} LookupsAgree(scope: Scope, vars: seq<Local>, x: string)
    requires SameDecls(scope, vars)
    ensures FindVar(vars, x) == FindDecl(scope, x)
  {
    if vars != [] {
      var k := |vars| - 1;
      LookupsAgree(scope[..k], vars[..k], x);
    }
  }

  lemma MirrorsScope(locals: seq<Binding>, scope: Scope, vars: seq<Local>, m: Machine)
    requires Represents(locals, vars, m) && SameDecls(scope, vars)
    ensures Mirrors(locals, scope)
  {
    forall i | 0 <= i < |locals| ensures locals[i].decl == scope[i] {
      assert Represented(locals[i], vars[i], m);
    }
  }

  // ----------------------------------------------------------- one instruction

  /** Emitted code is what the finished function has at that place. */
  lemma Fetch(f: Blocks, s: Low, i: Instr, m: Machine, orc: Oracle)
    requires Ext(Emit(s, i).blocks, f) && AtEnd(s, m)
    ensures Step(f, m, orc) == Execute(i, m, orc)
  {
    var b := Emit(s, i).blocks[s.cur];
    assert b[|s.blocks[s.cur]|] == i;
    assert b <= f[s.cur];
  }

  /** One emitted definition. */
  lemma RunDef(f: Blocks, s: Low, i: Instr, m: Machine, orc: Oracle) returns (m': Machine)
    requires Ext(Def(s, i).blocks, f) && AtEnd(s, m)
    requires Execute(i, m, orc).Next? && !IsTerminator(i)
    ensures m' == Execute(i, m, orc).m && Reaches(f, m, m', 1, orc) && AtEnd(Def(s, i), m') && AtEnd(Emit(s, i), m')
  {
    Fetch(f, s, i, m, orc);
    m' := Execute(i, m, orc).m;
    assert Reaches(f, m', m', 0, orc);
  }

  /** The temporary an emitted instruction defines holds `z`; all else is kept. */
  predicate Defined(s: Low, i: Instr, z: nat, m: Machine, m': Machine) {
    && AtEnd(Def(s, i), m')
    && Kept(m, m', s.nextTemp) && m'.mem == m.mem && m'.trace == m.trace
    && s.nextTemp in m'.regs && m'.regs[s.nextTemp] == Bits(z)
  }

  lemma RunBin(f: Blocks, s: Low, op: IrOp, l: Operand, r: Operand, x: nat, y: nat, z: nat, m: Machine, orc: Oracle)
    returns (m': Machine)
    requires Ext(Def(s, Bin(op, s.nextTemp, l, r)).blocks, f) && AtEnd(s, m)
    requires l.ty.IInt? && r.ty == l.ty && ReadOperand(l, m) == Some(Bits(x)) && ReadOperand(r, m) == Some(Bits(y))
    requires IrBin(op, l.ty.bits, x, y) == Some(z)
    ensures Reaches(f, m, m', 1, orc) && Defined(s, Bin(op, s.nextTemp, l, r), z, m, m')
  {
    m' := RunDef(f, s, Bin(op, s.nextTemp, l, r), m, orc);
  }

  lemma RunIcmp(f: Blocks, s: Low, p: Pred, l: Operand, r: Operand, x: nat, y: nat, m: Machine, orc: Oracle)
    returns (m': Machine)
    requires Ext(Def(s, Icmp(p, s.nextTemp, l, r)).blocks, f) && AtEnd(s, m)
    requires l.ty.IInt? && r.ty == l.ty && ReadOperand(l, m) == Some(Bits(x)) && ReadOperand(r, m) == Some(Bits(y))
    ensures Reaches(f, m, m', 1, orc)
    ensures Defined(s, Icmp(p, s.nextTemp, l, r), if IrCompare(p, l.ty.bits, x, y) then 1 else 0, m, m')
  {
    m' := RunDef(f, s, Icmp(p, s.nextTemp, l, r), m, orc);
  }

  lemma RunCast(f: Blocks, s: Low, c: CastOp, v: Operand, to: IrTy, x: nat, m: Machine, orc: Oracle)
    returns (m': Machine)
    requires Ext(Def(s, Cast(c, s.nextTemp, v, to)).blocks, f) && AtEnd(s, m)
    requires v.ty.IInt? && to.IInt? && ReadOperand(v, m) == Some(Bits(x))
    ensures Reaches(f, m, m', 1, orc) && Defined(s, Cast(c, s.nextTemp, v, to), IrCast(c, v.ty.bits, to.bits, x), m, m')
  {
    m' := RunDef(f, s, Cast(c, s.nextTemp, v, to), m, orc);
  }

  /** Slot `a` holds the pattern `p` at type `t`, and temporary `slot` points at it. */
  predicate SlotHolds(slot: nat, t: IrTy, p: nat, m: Machine) {
    && slot in m.regs && m.regs[slot].Addr? && m.regs[slot].addr < |m.mem|
    && m.mem[m.regs[slot].addr] == Slot(t, Some(p))
  }

  lemma RunLoad(f: Blocks, s: Low, t: IrTy, slot: nat, p: nat, m: Machine, orc: Oracle) returns (m': Machine)
    requires Ext(Def(s, Load(s.nextTemp, t, Temp(IPtr, slot))).blocks, f) && AtEnd(s, m)
    requires SlotHolds(slot, t, p, m)
    ensures Reaches(f, m, m', 1, orc) && Defined(s, Load(s.nextTemp, t, Temp(IPtr, slot)), p, m, m')
  {
    m' := RunDef(f, s, Load(s.nextTemp, t, Temp(IPtr, slot)), m, orc);
  }

  // ----------------------------------------------------------------- casts

  lemma CoerceSim(f: Blocks, s: Low, v: Operand, want: Ty, from: Ty, a: int, m: Machine, orc: Oracle)
    returns (n: nat, m': Machine)
    requires IsScalar(from) && IsScalar(want) && Holds(v, from, a, m)
    requires Ext(CoerceTo(s, v, IrOf(want), from).0.blocks, f) && AtEnd(s, m) && Below(v, s.nextTemp)
    ensures var (t, c) := CoerceTo(s, v, IrOf(want), from);
            && Reaches(f, m, m', n, orc) && AtEnd(t, m') && Kept(m, m', s.nextTemp) && m'.trace == m.trace
            && c.ty == IInt(Width(want)) && ReadOperand(c, m') == Some(Bits(Enc(Width(want), a)))
  {
    IrOfScalar(want);
    if v.ty == IrOf(want) {
      n, m' := 0, m;
    } else {
      CastSim(from, Width(want), a);
      var i := Cast(if Width(from) > Width(want) then Trunc else if IsSigned(from) then SExt else ZExt, s.nextTemp, v,
          IrOf(want));
      n := 1;
      m' := RunCast(f, s, i.cast, v, IrOf(want), Enc(Width(from), a), m, orc);
    }
  }

  lemma ToI1Sim(f: Blocks, s: Low, v: Operand, t: Ty, a: int, m: Machine, orc: Oracle) returns (n: nat, m': Machine)
    requires IsBoolLike(t) && Holds(v, t, a, m)
    requires Ext(ToI1(s, v).0.blocks, f) && AtEnd(s, m) && Below(v, s.nextTemp)
    ensures var (u, c) := ToI1(s, v);
            && Reaches(f, m, m', n, orc) && AtEnd(u, m') && Kept(m, m', s.nextTemp) && m'.trace == m.trace
            && c.ty == IInt(1) && ReadOperand(c, m') == Some(Bits(a))
  {
    TruthSim(t, a != 0);
    TruthSim(t, false);
    n := 1;
    m' := RunIcmp(f, s, PNe, v, Const(v.ty, 0), a, 0, m, orc);
  }

  lemma FromI1Sim(f: Blocks, s: Low, v: Operand, t: Ty, b: bool, m: Machine, orc: Oracle) returns (n: nat, m': Machine)
    requires IsBoolLike(t) && v.ty == IInt(1) && ReadOperand(v, m) == Some(Bits(Truth(b)))
    requires Ext(FromI1(s, v, IrOf(t)).0.blocks, f) && AtEnd(s, m) && Below(v, s.nextTemp)
    ensures var (u, c) := FromI1(s, v, IrOf(t));
            && Reaches(f, m, m', n, orc) && AtEnd(u, m') && Kept(m, m', s.nextTemp) && m'.trace == m.trace
            && Holds(c, t, Truth(b), m')
  {
    TruthSim(t, b);
    IrOfScalar(t);
    n := 1;
    m' := RunCast(f, s, ZExt, v, IrOf(t), Truth(b), m, orc);
  }

  /** One emitted store to the slot a temporary points at. */
  lemma RunStore(f: Blocks, s: Low, v: Operand, slot: nat, p: nat, m: Machine, orc: Oracle) returns (m': Machine)
    requires Ext(Emit(s, Store(v, Temp(IPtr, slot))).blocks, f) && AtEnd(s, m)
    requires v.ty.IInt? && ReadOperand(v, m) == Some(Bits(p))
    requires slot in m.regs && m.regs[slot].Addr? && m.regs[slot].addr < |m.mem| && m.mem[m.regs[slot].addr].ty == v.ty
    ensures var a := m.regs[slot].addr; m' == m.(pc := m.pc + 1, mem := m.mem[a := Slot(v.ty, Some(p))])
    ensures Reaches(f, m, m', 1, orc) && AtEnd(Emit(s, Store(v, Temp(IPtr, slot))), m')
  {
    m' := RunDef(f, s, Store(v, Temp(IPtr, slot)), m, orc);
  }

  // -------------------------------------------------------------- expressions

  /** What is known when the code of an expression starts to run. */
  predicate Ready(s: Low, scope: Scope, vars: seq<Local>, m: Machine) {
    AtEnd(s, m) && SameDecls(scope, vars) && Represents(s.locals, vars, m) && RegsBelow(s.locals, s.nextTemp)
  }

  /** What is known when it is done: the operand holds the value, the trace is
      the program's, and older temporaries and slots are untouched. */
  predicate Done(t: Low, v: Operand, ty: Ty, out: Outcome, m: Machine, m': Machine, k: nat) {
    && out.Val?
    && AtEnd(t, m') && Kept(m, m', k) && m'.trace == out.trace
    && (IsScalar(ty) ==> Holds(v, ty, out.value, m'))
  }

  lemma ReadyAfter(s: Low, t: Low, scope: Scope, vars: seq<Local>, m: Machine, m': Machine)
    requires Ready(s, scope, vars, m) && AtEnd(t, m') && Kept(m, m', s.nextTemp)
    requires t.locals == s.locals && s.nextTemp <= t.nextTemp
    ensures Ready(t, scope, vars, m')
  {
    RepresentsKept(s.locals, vars, m, m', s.nextTemp);
  }

  lemma RepresentedAt(locals: seq<Binding>, vars: seq<Local>, m: Machine, i: nat)
    requires Represents(locals, vars, m) && i < |vars|
    ensures i < |locals| && Represented(locals[i], vars[i], m)
  {
  }

  lemma NameSim(f: Blocks, s: Low, x: string, t: Ty, scope: Scope, vars: seq<Local>, m: Machine, orc: Oracle)
    returns (n: nat, m': Machine)
    requires Ready(s, scope, vars, m) && TypedName(x, t, scope)
    requires Ext(LowerName(s, x, t).0.blocks, f)
    ensures var (u, v) := LowerName(s, x, t); var out := Eval(Name(x, t), vars, m.trace, orc);
            Reaches(f, m, m', n, orc) && Done(u, v, t, out, m, m', s.nextTemp)
  {
    hide Execute, WrapTy, Ext, Within, Pow2, Represents;
    MirrorsScope(s.locals, scope, vars, m);
    LocalsAgree(scope, s.locals, x);
    LookupsAgree(scope, vars, x);
    IrOfScalar(t);
    match FindLocal(s.locals, x)
    case Some(i) =>
      RepresentedAt(s.locals, vars, m, i);
      n := 1;
      m' := RunLoad(f, s, IrOf(t), s.locals[i].reg, Enc(Width(t), vars[i].value), m, orc);
    case None => n, m' := 0, m;
  }

  lemma NotSim(f: Blocks, s: Low, v: Operand, ot: Ty, t: Ty, a: int, m: Machine, orc: Oracle)
    returns (n: nat, m': Machine)
    requires Holds(v, ot, a, m) && AtEnd(s, m) && Below(v, s.nextTemp) && IsBoolLike(ot) && IsBoolLike(t)
    requires Ext(FinishUnary(s, LogNot, v, t).0.blocks, f)
    ensures var (u, r) := FinishUnary(s, LogNot, v, t);
            Reaches(f, m, m', n, orc) && Done(u, r, t, Val(Truth(a == 0), m.trace), m, m', s.nextTemp)
  {
    hide Enc, WrapTy, Execute, IrBin, Width, Ext, Within, Kept, Reaches, IrOf, FromI1;
    TruthSim(ot, a != 0);
    TruthSim(ot, false);
    var i := Icmp(PEq, s.nextTemp, v, Const(v.ty, 0));
    FromI1Ext(Def(s, i), Temp(IInt(1), s.nextTemp), IrOf(t), f);
    var m1 := RunIcmp(f, s, PEq, v, Const(v.ty, 0), a, 0, m, orc);
    n, m' := FromI1Sim(f, Def(s, i), Temp(IInt(1), s.nextTemp), t, a == 0, m1, orc);
    Chain(f, m, m1, m', s.nextTemp, s.nextTemp + 1, 1, n, orc);
    n := 1 + n;
  }

  lemma UnarySim(f: Blocks, s: Low, op: UnOp, v: Operand, ot: Ty, t: Ty, a: int, m: Machine, orc: Oracle)
    returns (n: nat, m': Machine)
    requires Holds(v, ot, a, m) && AtEnd(s, m) && Below(v, s.nextTemp)
    requires if op.LogNot? then IsBoolLike(ot) && IsBoolLike(t) else IsIntLike(t) && ot == t
    requires Ext(FinishUnary(s, op, v, t).0.blocks, f)
    ensures var (u, r) := FinishUnary(s, op, v, t);
            Reaches(f, m, m', n, orc) && Done(u, r, t, Val(EvalUnary(op, t, a), m.trace), m, m', s.nextTemp)
  {
    hide Execute, WrapTy, IrBin, IrCast, Ext, Within, Reaches, Pow2, Bitwise, IrOf, Width;
    match op
    case Neg =>
      NegSim(t, a);
      n := 1;
      m' := RunBin(f, s, ISub, Const(v.ty, 0), v, Enc(Width(t), 0), Enc(Width(t), a),
          Enc(Width(t), EvalUnary(Neg, t, a)), m, orc);
    case BitNot =>
      BitNotSim(t, a);
      n := 1;
      m' := RunBin(f, s, IXor, v, Const(v.ty, 0xFFFF_FFFF_FFFF_FFFF), Enc(Width(t), a),
          Enc(Width(t), 0xFFFF_FFFF_FFFF_FFFF), Enc(Width(t), EvalUnary(BitNot, t, a)), m, orc);
    case LogNot => n, m' := NotSim(f, s, v, ot, t, a, m, orc);
  }

  lemma FromI1Ext(s: Low, v: Operand, want: IrTy, f: Blocks)
    requires Below(v, s.nextTemp) && Ext(FromI1(s, v, want).0.blocks, f)
    ensures Ext(s.blocks, f)
  {
    I1Shape(s, v, want);
    ExtTrans(s.blocks, FromI1(s, v, want).0.blocks, f);
  }

  lemma SameWidth(s: Low, op: BinOp, l: Operand, r: Operand, lt: Ty, t: Ty)
    requires IsComparison(op) && l.ty == r.ty
    ensures FinishBinary(s, op, l, r, lt, lt, t)
            == FromI1(Def(s, Icmp(IntPred(op, IsSigned(lt)), s.nextTemp, l, r)), Temp(IInt(1), s.nextTemp), IrOf(t))
  {
  }

  lemma ComparisonSim(f: Blocks, s: Low, op: BinOp, l: Operand, r: Operand, lt: Ty, t: Ty, a: int, b: int, m: Machine,
      orc: Oracle)
    returns (n: nat, m': Machine)
    requires IsComparison(op) && IsIntLike(lt) && IsBoolLike(t)
    requires Holds(l, lt, a, m) && Holds(r, lt, b, m) && Below(l, s.nextTemp) && Below(r, s.nextTemp) && AtEnd(s, m)
    requires Ext(FinishBinary(s, op, l, r, lt, lt, t).0.blocks, f)
    ensures var (u, v) := FinishBinary(s, op, l, r, lt, lt, t);
            Reaches(f, m, m', n, orc) && Done(u, v, t, Val(Truth(Compare(op, a, b)), m.trace), m, m', s.nextTemp)
  {
    hide Enc, InRange, WrapTy, Execute, Arith, Compare, IrBin, IrCompare, Width, Ext, Within, IntPred, IsSigned;
    hide Kept, Reaches, IrOf, FromI1, FinishBinary, IsIntLike, Pow2;
    CompareSim(op, lt, a, b);
    var i := Icmp(IntPred(op, IsSigned(lt)), s.nextTemp, l, r);
    SameWidth(s, op, l, r, lt, t);
    FromI1Ext(Def(s, i), Temp(IInt(1), s.nextTemp), IrOf(t), f);
    var m1 := RunIcmp(f, s, i.pred, l, r, Enc(Width(lt), a), Enc(Width(lt), b), m, orc);
    n, m' := FromI1Sim(f, Def(s, i), Temp(IInt(1), s.nextTemp), t, Compare(op, a, b), m1, orc);
    Chain(f, m, m1, m', s.nextTemp, s.nextTemp + 1, 1, n, orc);
    n := 1 + n;
  }

  /** A comparison or an arithmetic operator on two evaluated operands. */
  lemma BinarySim(f: Blocks, s: Low, op: BinOp, l: Operand, r: Operand, lt: Ty, rt: Ty, t: Ty, a: int, b: int,
      m: Machine, orc: Oracle)
    returns (n: nat, m': Machine)
    requires !IsLogical(op) && TypedOperands(op, lt, rt, t)
    requires Holds(l, lt, a, m) && Holds(r, rt, b, m) && Below(l, s.nextTemp) && Below(r, s.nextTemp) && AtEnd(s, m)
    requires !IsComparison(op) ==> Arith(op, t, a, b).Some?
    requires Ext(FinishBinary(s, op, l, r, lt, rt, t).0.blocks, f)
    ensures var (u, v) := FinishBinary(s, op, l, r, lt, rt, t);
            var c := if IsComparison(op) then Truth(Compare(op, a, b)) else Arith(op, t, a, b).value;
            Reaches(f, m, m', n, orc) && Done(u, v, t, Val(c, m.trace), m, m', s.nextTemp)
  {
    hide Enc, InRange, WrapTy, Execute, Arith, Compare, IrBin, IrCompare, Width, Ext, Within, IntPred, IsSigned;
    hide Kept, Reaches, Done, IrOf, FinishBinary;
    if IsComparison(op) {
      n, m' := ComparisonSim(f, s, op, l, r, lt, t, a, b, m, orc);
    } else {
      n, m' := ArithmeticSim(f, s, op, l, r, lt, rt, t, a, b, m, orc);
    }
  }

  lemma ArithmeticSim(f: Blocks, s: Low, op: BinOp, l: Operand, r: Operand, lt: Ty, rt: Ty, t: Ty, a: int, b: int,
      m: Machine, orc: Oracle)
    returns (n: nat, m': Machine)
    requires !IsLogical(op) && !IsComparison(op) && TypedOperands(op, lt, rt, t)
    requires Holds(l, lt, a, m) && Holds(r, rt, b, m) && Below(l, s.nextTemp) && Below(r, s.nextTemp) && AtEnd(s, m)
    requires Arith(op, t, a, b).Some?
    requires Ext(FinishBinary(s, op, l, r, lt, rt, t).0.blocks, f)
    ensures var (u, v) := FinishBinary(s, op, l, r, lt, rt, t);
            Reaches(f, m, m', n, orc) && Done(u, v, t, Val(Arith(op, t, a, b).value, m.trace), m, m', s.nextTemp)
  {
    hide Enc, InRange, WrapTy, IrBin, IrCast, Width, Execute, IsSigned, Ext, Bitwise, IntBinop, Reaches, Step;
    hide IsIntLike, Pow2, Kept, Within;
    IrOfScalar(lt);
    var (s1, c) := CoerceTo(s, r, IrOf(lt), rt);
    assert Balance(s, l, r, lt, rt) == Balanced(s1, l, c);
    CoerceShape(s, r, IrOf(lt), rt);
    var i := Bin(IntBinop(op, IsSigned(lt)), s1.nextTemp, l, c);
    EmitShape(s1, i);
    ExtTrans(s1.blocks, Def(s1, i).blocks, f);
    var n1, m1 := CoerceSim(f, s, r, lt, rt, b, m, orc);
    HoldsKept(l, lt, a, m, m1, s.nextTemp);
    ArithSim(op, t, a, b);
    m' := RunBin(f, s1, i.op, l, c, Enc(Width(lt), a), Enc(Width(lt), b), Enc(Width(lt), Arith(op, t, a, b).value), m1,
        orc);
    n := n1 + 1;
    ReachesTrans(f, m, m1, m', n1, 1, orc);
    KeptTrans(m, m1, m', s.nextTemp, s1.nextTemp);
  }

  lemma CallSim(f: Blocks, s: Low, callee: Fn, vs: seq<Operand>, ps: seq<nat>, m: Machine, orc: Oracle)
    returns (n: nat, m': Machine)
    requires AtEnd(s, m) && ReadAll(vs, m) == Some(ps) && (callee.ret.Void? || IsScalar(callee.ret))
    requires TakesArgs(callee, |vs|)
    requires Ext(FinishCall(s, callee, vs).0.blocks, f)
    ensures var (u, v) := FinishCall(s, callee, vs);
            var out := Val(Answer(orc, m.trace, callee, ps), m.trace + [Event(callee.name, ps)]);
            Reaches(f, m, m', n, orc) && Done(u, v, callee.ret, out, m, m', s.nextTemp)
  {
    n := 1;
    if callee.ret.Void? {
      m' := RunDef(f, s, CallI(0, callee, vs), m, orc);
    } else {
      IrOfScalar(callee.ret);
      if IsIntLike(callee.ret) {
        WrapTyFacts(callee.ret, orc(m.trace, callee.name, ps));
      }
      m' := RunDef(f, s, CallI(s.nextTemp, callee, vs), m, orc);
    }
  }

  lemma {:induction false} ReadAllKept(vs: seq<Operand>, m: Machine, m': Machine, k: nat)
    requires ReadAll(vs, m).Some? && Kept(m, m', k) && forall i :: 0 <= i < |vs| ==> Below(vs[i], k)
    ensures ReadAll(vs, m') == ReadAll(vs, m)
  {
    if vs != [] {
      ReadAllKept(vs[..|vs| - 1], m, m', k);
      assert Below(vs[|vs| - 1], k);
    }
  }

  // -------------------------------------------------------------------- jumps

  lemma RunBr(f: Blocks, s: Low, d: nat, m: Machine, orc: Oracle) returns (m': Machine)
    requires Ext(Emit(s, Br(d)).blocks, f) && AtEnd(s, m)
    ensures m' == m.(blk := d, pc := 0) && Reaches(f, m, m', 1, orc)
  {
    Fetch(f, s, Br(d), m, orc);
    m' := m.(blk := d, pc := 0);
    assert Reaches(f, m', m', 0, orc);
  }

  lemma RunCondBr(f: Blocks, s: Low, c: Operand, yes: nat, no: nat, x: nat, m: Machine, orc: Oracle)
    returns (m': Machine)
    requires Ext(Emit(s, CondBr(c, yes, no)).blocks, f) && AtEnd(s, m)
    requires c.ty == IInt(1) && ReadOperand(c, m) == Some(Bits(x))
    ensures m' == m.(blk := if x != 0 then yes else no, pc := 0) && Reaches(f, m, m', 1, orc)
  {
    Fetch(f, s, CondBr(c, yes, no), m, orc);
    m' := m.(blk := if x != 0 then yes else no, pc := 0);
    assert Reaches(f, m', m', 0, orc);
  }

  // ------------------------------------------------------- logical operators

  /** Temporary `slot` points at a slot of type `t` that `base` did not have. */
  predicate OwnSlot(slot: nat, t: Ty, base: Machine, m: Machine) {
    && slot in m.regs && m.regs[slot].Addr? && |base.mem| <= m.regs[slot].addr < |m.mem|
    && m.mem[m.regs[slot].addr].ty == IrOf(t)
  }

  lemma OwnSlotKept(slot: nat, t: Ty, base: Machine, m: Machine, m': Machine, k: nat)
    requires OwnSlot(slot, t, base, m) && Kept(m, m', k) && slot < k
    ensures OwnSlot(slot, t, base, m')
  {
  }

  lemma SlotHoldsKept(slot: nat, t: IrTy, p: nat, m: Machine, m': Machine, k: nat)
    requires SlotHolds(slot, t, p, m) && Kept(m, m', k) && slot < k
    ensures SlotHolds(slot, t, p, m')
  {
  }

  lemma KeptSelf(m: Machine, k: nat)
    ensures Kept(m, m, k)
  {
  }

  lemma JumpKept(m: Machine, d: nat, k: nat)
    ensures Kept(m, m.(blk := d, pc := 0), k)
  {
  }

  lemma BeginSim(f: Blocks, s: Low, t: Ty, m: Machine, orc: Oracle) returns (m': Machine)
    requires AtEnd(s, m) && Ext(BeginLogical(s, t).blocks, f)
    ensures Reaches(f, m, m', 1, orc) && AtEnd(BeginLogical(s, t), m') && Kept(m, m', s.nextTemp) && m'.trace == m.trace
    ensures OwnSlot(s.nextTemp, t, m, m')
  {
    var i := Alloca(s.nextTemp, IrOf(t));
    assert Ext(Def(s, i).blocks, BeginLogical(s, t).blocks);
    ExtTrans(Def(s, i).blocks, BeginLogical(s, t).blocks, f);
    m' := RunDef(f, s, i, m, orc);
  }

  /** A store to a slot `base` did not have. */
  lemma Written(m: Machine, m': Machine, slot: nat, t: Ty, p: nat, base: Machine, k: nat)
    requires OwnSlot(slot, t, base, m) && Kept(base, m, k)
    requires m' == m.(pc := m.pc + 1, mem := m.mem[m.regs[slot].addr := Slot(IrOf(t), Some(p))])
    ensures SlotHolds(slot, IrOf(t), p, m') && OwnSlot(slot, t, base, m') && Kept(base, m', k)
  {
  }

  /** Coerces a value and stores it in the slot at address `a`, past the first
      `|base.mem|` slots. */
  lemma WriteSlot(f: Blocks, s: Low, v: Operand, from: Ty, t: Ty, x: int, slot: nat, m: Machine, base: Machine, k: nat,
      orc: Oracle)
    returns (n: nat, m': Machine)
    requires var (s1, c) := CoerceTo(s, v, IrOf(t), from); Ext(Emit(s1, Store(c, Temp(IPtr, slot))).blocks, f)
    requires IsScalar(from) && IsScalar(t) && Holds(v, from, x, m) && Below(v, s.nextTemp) && AtEnd(s, m)
    requires slot < s.nextTemp && OwnSlot(slot, t, base, m) && Kept(base, m, k) && k <= s.nextTemp
    ensures var (s1, c) := CoerceTo(s, v, IrOf(t), from);
            && Reaches(f, m, m', n, orc) && AtEnd(Emit(s1, Store(c, Temp(IPtr, slot))), m')
            && m'.trace == m.trace && SlotHolds(slot, IrOf(t), Enc(Width(t), x), m')
            && OwnSlot(slot, t, base, m') && Kept(base, m', k)
    ensures Holds(v, from, x, m')
  {
    hide Ext, Within, IrCast, Enc, Reaches, CoerceTo, Execute, Step, InRange, IrOf, Width, Kept;
    var (s1, c) := CoerceTo(s, v, IrOf(t), from);
    CoerceShape(s, v, IrOf(t), from);
    IrOfScalar(t);
    var i := Store(c, Temp(IPtr, slot));
    EmitShape(s1, i);
    ExtTrans(s1.blocks, Emit(s1, i).blocks, f);
    var n1, m1 := CoerceSim(f, s, v, t, from, x, m, orc);
    HoldsKept(v, from, x, m, m1, s.nextTemp);
    OwnSlotKept(slot, t, base, m, m1, s.nextTemp);
    KeptTrans(base, m, m1, k, s.nextTemp);
    m' := RunStore(f, s1, c, slot, Enc(Width(t), x), m1, orc);
    Written(m1, m', slot, t, Enc(Width(t), x), base, k);
    n := n1 + 1;
    ReachesTrans(f, m, m1, m', n1, 1, orc);
  }

  lemma TakeBranch(f: Blocks, s: Low, c: Operand, yes: nat, no: nat, x: nat, slot: nat, t: Ty, p: nat, m: Machine,
      base: Machine, k: nat, n: nat, orc: Oracle)
    returns (m': Machine)
    requires Ext(Emit(s, CondBr(c, yes, no)).blocks, f) && AtEnd(s, m)
    requires c.ty == IInt(1) && ReadOperand(c, m) == Some(Bits(x))
    requires SlotHolds(slot, IrOf(t), p, m) && OwnSlot(slot, t, base, m) && Kept(base, m, k) && slot < n && k <= n
    ensures m' == m.(blk := if x != 0 then yes else no, pc := 0) && Reaches(f, m, m', 1, orc)
    ensures SlotHolds(slot, IrOf(t), p, m') && OwnSlot(slot, t, base, m') && Kept(base, m', k)
  {
    hide Ext, Reaches, Emit, IrOf;
    m' := RunCondBr(f, s, c, yes, no, x, m, orc);
    JumpKept(m, m'.blk, n);
    KeptTrans(base, m, m', k, n);
  }

  function LeftStored(s: Low, lhs: Operand, lt: Ty, t: Ty, slot: nat): Low {
    Emit(CoerceTo(s, lhs, IrOf(t), lt).0, Store(CoerceTo(s, lhs, IrOf(t), lt).1, Temp(IPtr, slot)))
  }

  lemma LeftStoredSim(f: Blocks, s: Low, lhs: Operand, lt: Ty, t: Ty, a: int, slot: nat, m: Machine, base: Machine,
      k: nat, orc: Oracle)
    returns (n: nat, m': Machine)
    requires IsBoolLike(lt) && IsBoolLike(t) && Ext(LeftStored(s, lhs, lt, t, slot).blocks, f)
    requires Holds(lhs, lt, a, m) && Below(lhs, s.nextTemp) && AtEnd(s, m)
    requires slot < s.nextTemp && OwnSlot(slot, t, base, m) && Kept(base, m, k) && k <= s.nextTemp
    ensures Reaches(f, m, m', n, orc) && AtEnd(LeftStored(s, lhs, lt, t, slot), m') && m'.trace == m.trace
    ensures SlotHolds(slot, IrOf(t), Enc(Width(t), a), m') && OwnSlot(slot, t, base, m') && Kept(base, m', k)
    ensures Holds(lhs, lt, a, m')
  {
    hide CoerceTo, Kept, OwnSlot, Reaches, Ext, Execute, Holds, SlotHolds, Enc, Width, IrOf, Step, Emit;
    n, m' := WriteSlot(f, s, lhs, lt, t, a, slot, m, base, k, orc);
  }

  lemma BelowMore(v: Operand, k: nat, n: nat)
    requires Below(v, k) && k <= n
    ensures Below(v, n)
  {
  }

  /** The pieces of BranchLogical are part of the finished function. */
  lemma BranchStages(f: Blocks, s: Low, op: BinOp, lhs: Operand, lt: Ty, t: Ty, slot: nat, b: nat)
    requires b + 1 < |s.blocks| && Below(lhs, s.nextTemp) && Ext(BranchLogical(s, op, lhs, lt, t, slot, b).blocks, f)
    ensures var s2 := LeftStored(s, lhs, lt, t, slot);
            var (s3, i1) := ToI1(s2, lhs);
            && s3 == AtBranch(s, op, lhs, lt, t, slot, b)
            && s.nextTemp <= s2.nextTemp <= s3.nextTemp && Ext(s2.blocks, f) && Ext(s3.blocks, f)
            && Ext(Emit(s3, if op.LogAnd? then CondBr(i1, b, b + 1) else CondBr(i1, b + 1, b)).blocks, f)
  {
    hide CoerceTo, ToI1, Ext, IrOf;
    var (s1, c) := CoerceTo(s, lhs, IrOf(t), lt);
    CoerceShape(s, lhs, IrOf(t), lt);
    var s2 := Emit(s1, Store(c, Temp(IPtr, slot)));
    EmitShape(s1, Store(c, Temp(IPtr, slot)));
    var (s3, i1) := ToI1(s2, lhs);
    I1Shape(s2, lhs, IVoid);
    var i := if op.LogAnd? then CondBr(i1, b, b + 1) else CondBr(i1, b + 1, b);
    EmitShape(s3, i);
    ExtTrans(s3.blocks, Emit(s3, i).blocks, f);
    ExtTrans(s2.blocks, s3.blocks, f);
  }

  /** Stores the left value and branches: to the end when it decides, else to
      the code of the right operand. */
  lemma BranchSim(f: Blocks, s: Low, op: BinOp, lhs: Operand, lt: Ty, t: Ty, a: int, slot: nat, b: nat, m: Machine,
      base: Machine, k: nat, orc: Oracle)
    returns (n: nat, m': Machine)
    requires IsLogical(op) && IsBoolLike(lt) && IsBoolLike(t)
    requires b + 1 < |s.blocks| && Ext(BranchLogical(s, op, lhs, lt, t, slot, b).blocks, f)
    requires Holds(lhs, lt, a, m) && Below(lhs, s.nextTemp) && AtEnd(s, m)
    requires slot < s.nextTemp && OwnSlot(slot, t, base, m) && Kept(base, m, k) && k <= s.nextTemp
    ensures Reaches(f, m, m', n, orc) && m'.trace == m.trace
    ensures SlotHolds(slot, IrOf(t), Enc(Width(t), a), m')
    ensures OwnSlot(slot, t, base, m') && Kept(base, m', k)
    ensures m'.blk == (if op.LogAnd? == (a != 0) then b else b + 1) && m'.pc == 0
  {
    hide CoerceTo, ToI1, Kept, OwnSlot, Reaches, Ext, Execute, Holds, SlotHolds, Enc, InRange, WrapTy, IrCast;
    hide IrCompare, Width, IrOf, Within, Step, AtBranch, BranchLogical, Emit, Def, ReadOperand, IsBoolLike;
    hide IsLogical, Below, LeftStored;
    var s2, s3 := LeftStored(s, lhs, lt, t, slot), AtBranch(s, op, lhs, lt, t, slot, b);
    BranchStages(f, s, op, lhs, lt, t, slot, b);
    var i1 := ToI1(s2, lhs).1;
    var yes, no := if op.LogAnd? then b else b + 1, if op.LogAnd? then b + 1 else b;
    var n1, m1 := LeftStoredSim(f, s, lhs, lt, t, a, slot, m, base, k, orc);
    BelowMore(lhs, s.nextTemp, s2.nextTemp);
    var n2, m2 := ToI1Sim(f, s2, lhs, lt, a, m1, orc);
    OwnSlotKept(slot, t, base, m1, m2, s2.nextTemp);
    SlotHoldsKept(slot, IrOf(t), Enc(Width(t), a), m1, m2, s2.nextTemp);
    KeptTrans(base, m1, m2, k, s2.nextTemp);
    m' := TakeBranch(f, s3, i1, yes, no, a, slot, t, Enc(Width(t), a), m2, base, k, s2.nextTemp, orc);
    Chain3(f, m, m1, m2, m', n1, n2, orc);
    n := n1 + n2 + 1;
  }

  /** Two runs and a step in a row. */
  lemma Chain3(f: Blocks, a: Machine, b: Machine, c: Machine, d: Machine, n: nat, k: nat, orc: Oracle)
    requires Reaches(f, a, b, n, orc) && Reaches(f, b, c, k, orc) && Reaches(f, c, d, 1, orc)
    ensures Reaches(f, a, d, n + k + 1, orc)
  {
    hide Reaches;
    ReachesTrans(f, a, b, c, n, k, orc);
    ReachesTrans(f, a, c, d, n + k, 1, orc);
  }

  /** Loads the result at the end block. */
  lemma EndLoadSim(f: Blocks, s: Low, rhs: Operand, rt: Ty, t: Ty, a: int, slot: nat, b: nat, m: Machine,
      base: Machine, k: nat, orc: Oracle)
    returns (m': Machine)
    requires b + 1 < |s.blocks| && s.cur != b + 1 && s.blocks[b + 1] == [] && Below(rhs, s.nextTemp) && k <= s.nextTemp
    requires Ext(FinishLogical(s, rhs, rt, t, slot, b).0.blocks, f)
    requires IsBoolLike(t) && InRange(t, a) && SlotHolds(slot, IrOf(t), Enc(Width(t), a), m)
    requires m.blk == b + 1 && m.pc == 0 && Kept(base, m, k)
    ensures var (u, v) := FinishLogical(s, rhs, rt, t, slot, b);
            Reaches(f, m, m', 1, orc) && Done(u, v, t, Val(a, m.trace), base, m', k)
  {
    var (s1, c) := CoerceTo(s, rhs, IrOf(t), rt);
    CoerceShape(s, rhs, IrOf(t), rt);
    var s2 := Position(Emit(Emit(s1, Store(c, Temp(IPtr, slot))), Br(b + 1)), b + 1);
    assert s2.blocks[b + 1] == s.blocks[b + 1];
    IrOfScalar(t);
    m' := RunLoad(f, s2, IrOf(t), slot, Enc(Width(t), a), m, orc);
    KeptTrans(base, m, m', k, s2.nextTemp);
  }

  lemma FinishStages(f: Blocks, s: Low, rhs: Operand, rt: Ty, t: Ty, slot: nat, b: nat)
    requires b + 1 < |s.blocks| && Below(rhs, s.nextTemp) && Ext(FinishLogical(s, rhs, rt, t, slot, b).0.blocks, f)
    ensures var s2 := LeftStored(s, rhs, rt, t, slot); Ext(s2.blocks, f) && Ext(Emit(s2, Br(b + 1)).blocks, f)
  {
    hide CoerceTo, Ext, IrOf;
    var (s1, c) := CoerceTo(s, rhs, IrOf(t), rt);
    CoerceShape(s, rhs, IrOf(t), rt);
    var s2 := Emit(s1, Store(c, Temp(IPtr, slot)));
    var s3 := Emit(s2, Br(b + 1));
    EmitShape(s2, Br(b + 1));
    var u := FinishLogical(s, rhs, rt, t, slot, b).0;
    EmitShape(Position(s3, b + 1), Load(s3.nextTemp, IrOf(t), Temp(IPtr, slot)));
    ExtTrans(s3.blocks, u.blocks, f);
    ExtTrans(s2.blocks, s3.blocks, f);
  }

  /** Stores the right value, jumps to the end and loads it. */
  lemma RightSim(f: Blocks, s: Low, rhs: Operand, rt: Ty, t: Ty, a: int, slot: nat, b: nat, m: Machine, base: Machine,
      k: nat, orc: Oracle)
    returns (n: nat, m': Machine)
    requires b + 1 < |s.blocks| && s.cur != b + 1 && s.blocks[b + 1] == [] && Below(rhs, s.nextTemp) && k <= s.nextTemp
    requires Ext(FinishLogical(s, rhs, rt, t, slot, b).0.blocks, f)
    requires IsBoolLike(rt) && IsBoolLike(t) && Holds(rhs, rt, a, m) && AtEnd(s, m) && Kept(base, m, k)
    requires slot < s.nextTemp && OwnSlot(slot, t, base, m)
    ensures var (u, v) := FinishLogical(s, rhs, rt, t, slot, b);
            Reaches(f, m, m', n, orc) && Done(u, v, t, Val(a, m.trace), base, m', k)
  {
    hide Ext, Execute, Holds, Enc, InRange, WrapTy, IrCast, Width, IrOf, Within, Kept, OwnSlot, Reaches, SlotHolds;
    hide FinishLogical, Emit, Def, Below;
    var s2 := LeftStored(s, rhs, rt, t, slot);
    FinishStages(f, s, rhs, rt, t, slot, b);
    var n1, m1 := WriteSlot(f, s, rhs, rt, t, a, slot, m, base, k, orc);
    var m2 := RunBr(f, s2, b + 1, m1, orc);
    JumpKept(m1, b + 1, s.nextTemp);
    SlotHoldsKept(slot, IrOf(t), Enc(Width(t), a), m1, m2, s.nextTemp);
    KeptTrans(base, m1, m2, k, s.nextTemp);
    LogicalLeftValue(rt, t, rhs, a, m);
    m' := EndLoadSim(f, s, rhs, rt, t, a, slot, b, m2, base, k, orc);
    ReachesTrans(f, m, m1, m2, n1, 1, orc);
    ReachesTrans(f, m, m2, m', n1 + 1, 1, orc);
    n := n1 + 2;
  }

  // ------------------------------------------------------------- composition

  /** The part of Shape that running code needs. */
  predicate Grows(s: Low, t: Low) {
    Ext(s.blocks, t.blocks) && t.locals == s.locals && s.nextTemp <= t.nextTemp
  }

  lemma GrowsIn(s: Low, t: Low, f: Blocks)
    requires Grows(s, t) && Ext(t.blocks, f)
    ensures Ext(s.blocks, f)
  {
    ExtTrans(s.blocks, t.blocks, f);
  }

  lemma GrowExpr(s: Low, e: Expr)
    ensures var (u, v) := LowerExpr(s, e); Grows(s, u) && Below(v, u.nextTemp)
  {
    ExprShape(s, e);
  }

  lemma GrowArgs(s: Low, callee: Fn, args: seq<Expr>)
    ensures var (u, vs) := LowerArgs(s, callee, args);
            Grows(s, u) && |vs| == |args| && forall i :: 0 <= i < |vs| ==> Below(vs[i], u.nextTemp)
  {
    ArgsShape(s, callee, args);
  }

  lemma GrowUnary(s: Low, op: UnOp, v: Operand, t: Ty)
    requires Below(v, s.nextTemp)
    ensures Grows(s, FinishUnary(s, op, v, t).0)
  {
    FinishUnaryShape(s, op, v, t);
  }

  lemma GrowBinary(s: Low, op: BinOp, l: Operand, r: Operand, lt: Ty, rt: Ty, t: Ty)
    requires Below(l, s.nextTemp) && Below(r, s.nextTemp)
    ensures Grows(s, FinishBinary(s, op, l, r, lt, rt, t).0)
  {
    FinishBinaryShape(s, op, l, r, lt, rt, t);
  }

  lemma GrowCoerce(s: Low, v: Operand, want: IrTy, from: Ty)
    requires Below(v, s.nextTemp)
    ensures var (u, c) := CoerceTo(s, v, want, from); Grows(s, u) && Below(c, u.nextTemp)
  {
    CoerceShape(s, v, want, from);
  }

  lemma GrowCall(s: Low, callee: Fn, vs: seq<Operand>)
    ensures Grows(s, FinishCall(s, callee, vs).0)
  {
    FinishCallShape(s, callee, vs);
  }

  /** Two runs in a row. */
  lemma Chain(f: Blocks, a: Machine, b: Machine, c: Machine, k: nat, n: nat, x: nat, y: nat, orc: Oracle)
    requires Reaches(f, a, b, x, orc) && Reaches(f, b, c, y, orc) && Kept(a, b, k) && Kept(b, c, n) && k <= n
    ensures Reaches(f, a, c, x + y, orc) && Kept(a, c, k)
  {
    ReachesTrans(f, a, b, c, x, y, orc);
    KeptTrans(a, b, c, k, n);
  }

  // ------------------------------------------------------------ the main lemma

  /** Whenever the program's evaluation of an expression is defined, running its
      code reaches the end of that code with the value in the operand, the same
      calls made in the same order, and nothing older disturbed. */
  lemma {:induction false} ExprSim(f: Blocks, s: Low, e: Expr, scope: Scope, vars: seq<Local>, m: Machine, orc: Oracle)
    returns (n: nat, m': Machine)
    requires Ready(s, scope, vars, m) && TypedExpr(e, scope) && Ext(LowerExpr(s, e).0.blocks, f)
    requires Eval(e, vars, m.trace, orc).Val?
    ensures var (u, v) := LowerExpr(s, e);
            Reaches(f, m, m', n, orc) && Done(u, v, e.ty, Eval(e, vars, m.trace, orc), m, m', s.nextTemp)
    decreases e, 1
  {
    hide Ext, Represents, SameDecls, RegsBelow, Kept;
    match e
    case Int(_, _) => n, m' := ConstSim(f, s, e, scope, vars, m, orc);
    case Bool(_, _) => n, m' := ConstSim(f, s, e, scope, vars, m, orc);
    case Name(x, t) => n, m' := NameSim(f, s, x, t, scope, vars, m, orc);
    case Binary(op, _, _, _) =>
      if IsLogical(op) {
        n, m' := LogicalExprSim(f, s, e, scope, vars, m, orc);
      } else {
        n, m' := BinaryExprSim(f, s, e, scope, vars, m, orc);
      }
    case Unary(_, _, _) => n, m' := UnaryExprSim(f, s, e, scope, vars, m, orc);
    case Conv(_, _) => n, m' := ConvExprSim(f, s, e, scope, vars, m, orc);
    case Call(_, _, _) => n, m' := CallExprSim(f, s, e, scope, vars, m, orc);
  }

  lemma ConstSim(f: Blocks, s: Low, e: Expr, scope: Scope, vars: seq<Local>, m: Machine, orc: Oracle)
    returns (n: nat, m': Machine)
    requires e.Int? || e.Bool?
    requires Ready(s, scope, vars, m) && TypedExpr(e, scope)
    ensures var (u, v) := LowerExpr(s, e);
            Reaches(f, m, m', n, orc) && Done(u, v, e.ty, Eval(e, vars, m.trace, orc), m, m', s.nextTemp)
  {
    IrOfScalar(e.ty);
    if e.Bool? {
      TruthSim(e.ty, e.flag);
    }
    n, m' := 0, m;
  }

  lemma {:induction false} UnaryExprSim(f: Blocks, s: Low, e: Expr, scope: Scope, vars: seq<Local>, m: Machine,
      orc: Oracle)
    returns (n: nat, m': Machine)
    requires e.Unary?
    requires Ready(s, scope, vars, m) && TypedExpr(e, scope) && Ext(LowerExpr(s, e).0.blocks, f)
    requires Eval(e, vars, m.trace, orc).Val?
    ensures var (u, v) := LowerExpr(s, e);
            Reaches(f, m, m', n, orc) && Done(u, v, e.ty, Eval(e, vars, m.trace, orc), m, m', s.nextTemp)
    decreases e, 0
  {
    hide Ext, Represents, SameDecls, RegsBelow, Kept;
    hide FinishUnary, FinishBinary, FinishCall, BeginLogical, BranchLogical, FinishLogical, LowerName, Emit, Def;
    hide Arith, Compare, EvalUnary, Answer, Enc, InRange, ReadOperand, Reaches, Width;
    var (s1, v) := LowerExpr(s, e.operand);
    GrowExpr(s, e.operand);
    GrowUnary(s1, e.uop, v, e.ty);
    GrowsIn(s1, FinishUnary(s1, e.uop, v, e.ty).0, f);
    var n1, m1 := ExprSim(f, s, e.operand, scope, vars, m, orc);
    var n2, m2 := UnarySim(f, s1, e.uop, v, e.operand.ty, e.ty, Eval(e.operand, vars, m.trace, orc).value, m1, orc);
    n, m' := n1 + n2, m2;
    Chain(f, m, m1, m2, s.nextTemp, s1.nextTemp, n1, n2, orc);
  }

  lemma {:induction false} CallExprSim(f: Blocks, s: Low, e: Expr, scope: Scope, vars: seq<Local>, m: Machine,
      orc: Oracle)
    returns (n: nat, m': Machine)
    requires e.Call?
    requires Ready(s, scope, vars, m) && TypedExpr(e, scope) && Ext(LowerExpr(s, e).0.blocks, f)
    requires Eval(e, vars, m.trace, orc).Val?
    ensures var (u, v) := LowerExpr(s, e);
            Reaches(f, m, m', n, orc) && Done(u, v, e.ty, Eval(e, vars, m.trace, orc), m, m', s.nextTemp)
    decreases e, 0
  {
    hide Ext, Represents, SameDecls, RegsBelow, Kept, FinishUnary, FinishBinary, FinishCall, BeginLogical;
    hide BranchLogical, FinishLogical, LowerName, Emit, Def, Arith, Compare, EvalUnary, Answer, Enc, InRange;
    hide ReadOperand, Reaches, Width, WrapTy, Holds, Execute, TypedName, ReadAll, IrOf, IsOpen, Within, PlainShape;
    hide Mirrors, TypedArgs, EvalArgs, LowerArgs, FindVar, MemberValue;
    var (s1, vs) := LowerArgs(s, e.callee, e.args);
    GrowArgs(s, e.callee, e.args);
    GrowCall(s1, e.callee, vs);
    GrowsIn(s1, FinishCall(s1, e.callee, vs).0, f);
    var n1, m1 := ArgsSim(f, s, e.callee, e.args, scope, vars, m, orc);
    var n2, m2 := CallSim(f, s1, e.callee, vs, EvalArgs(e.callee, e.args, vars, m.trace, orc).patterns, m1, orc);
    n, m' := n1 + n2, m2;
    Chain(f, m, m1, m2, s.nextTemp, s1.nextTemp, n1, n2, orc);
  }

  lemma {:induction false} ConvExprSim(f: Blocks, s: Low, e: Expr, scope: Scope, vars: seq<Local>, m: Machine,
      orc: Oracle)
    returns (n: nat, m': Machine)
    requires e.Conv?
    requires Ready(s, scope, vars, m) && TypedExpr(e, scope) && Ext(LowerExpr(s, e).0.blocks, f)
    requires Eval(e, vars, m.trace, orc).Val?
    ensures var (u, v) := LowerExpr(s, e);
            Reaches(f, m, m', n, orc) && Done(u, v, e.ty, Eval(e, vars, m.trace, orc), m, m', s.nextTemp)
    decreases e, 0
  {
    hide Ext, Represents, SameDecls, RegsBelow, Kept;
    hide FinishUnary, FinishBinary, FinishCall, BeginLogical, BranchLogical, FinishLogical, LowerName, Emit, Def;
    hide Arith, Compare, EvalUnary, Answer, Enc, InRange, ReadOperand, Reaches, Width;
    var from, to := e.operand.ty, e.ty;
    var (s1, v) := LowerExpr(s, e.operand);
    IrOfScalar(from);
    IrOfScalar(to);
    GrowExpr(s, e.operand);
    MirrorsScope(s.locals, scope, vars, m);
    ExprType(s, e.operand, scope);
    GrowCoerce(s1, v, IrOf(to), from);
    GrowsIn(s1, CoerceTo(s1, v, IrOf(to), from).0, f);
    var n1, m1 := ExprSim(f, s, e.operand, scope, vars, m, orc);
    var a := Eval(e.operand, vars, m.trace, orc).value;
    var n2, m2 := CoerceSim(f, s1, v, to, from, a, m1, orc);
    ConvSim(from, to, a);
    n, m' := n1 + n2, m2;
    Chain(f, m, m1, m2, s.nextTemp, s1.nextTemp, n1, n2, orc);
  }

  lemma OperandsScalar(op: BinOp, l: Ty, r: Ty, t: Ty)
    requires TypedOperands(op, l, r, t) && !IsLogical(op)
    ensures IsScalar(l) && IsScalar(r) && IsScalar(t)
  {
  }

  lemma {:induction false} BinaryExprSim(f: Blocks, s: Low, e: Expr, scope: Scope, vars: seq<Local>, m: Machine,
      orc: Oracle)
    returns (n: nat, m': Machine)
    requires e.Binary? && !IsLogical(e.bop)
    requires Ready(s, scope, vars, m) && TypedExpr(e, scope) && Ext(LowerExpr(s, e).0.blocks, f)
    requires Eval(e, vars, m.trace, orc).Val?
    ensures var (u, v) := LowerExpr(s, e);
            Reaches(f, m, m', n, orc) && Done(u, v, e.ty, Eval(e, vars, m.trace, orc), m, m', s.nextTemp)
    decreases e, 0
  {
    hide Ext, Represents, SameDecls, RegsBelow, Kept, Holds, FinishUnary, FinishBinary, FinishCall, BeginLogical;
    hide BranchLogical, FinishLogical, LowerName, Emit, Def, Arith, Compare, EvalUnary, Answer, Enc, InRange;
    hide ReadOperand, Reaches, Width, TypedName, TypedArgs, EvalArgs, LowerArgs, FindVar, MemberValue, TypedOperands;
    hide Step, Execute, Within, WrapTy, IrOf;
    var lt, rt := e.lhs.ty, e.rhs.ty;
    var (s1, lhs) := LowerExpr(s, e.lhs);
    var (s2, rhs) := LowerExpr(s1, e.rhs);
    GrowExpr(s, e.lhs);
    GrowExpr(s1, e.rhs);
    GrowBinary(s2, e.bop, lhs, rhs, lt, rt, e.ty);
    GrowsIn(s2, FinishBinary(s2, e.bop, lhs, rhs, lt, rt, e.ty).0, f);
    GrowsIn(s1, s2, f);
    var n1, m1 := ExprSim(f, s, e.lhs, scope, vars, m, orc);
    ReadyAfter(s, s1, scope, vars, m, m1);
    var n2, m2 := ExprSim(f, s1, e.rhs, scope, vars, m1, orc);
    var a := Eval(e.lhs, vars, m.trace, orc).value;
    var b := Eval(e.rhs, vars, m1.trace, orc).value;
    OperandsScalar(e.bop, lt, rt, e.ty);
    HoldsKept(lhs, lt, a, m1, m2, s1.nextTemp);
    var n3, m3 := BinarySim(f, s2, e.bop, lhs, rhs, lt, rt, e.ty, a, b, m2, orc);
    n, m' := n1 + n2 + n3, m3;
    Chain(f, m, m1, m2, s.nextTemp, s1.nextTemp, n1, n2, orc);
    Chain(f, m, m2, m3, s.nextTemp, s2.nextTemp, n1 + n2, n3, orc);
  }

  lemma {:induction false} ArgsSim(f: Blocks, s: Low, callee: Fn, args: seq<Expr>, scope: Scope, vars: seq<Local>,
      m: Machine, orc: Oracle)
    returns (n: nat, m': Machine)
    requires Ready(s, scope, vars, m) && TypedArgs(callee, args, scope) && Ext(LowerArgs(s, callee, args).0.blocks, f)
    requires EvalArgs(callee, args, vars, m.trace, orc).Vals?
    ensures var (u, vs) := LowerArgs(s, callee, args); var out := EvalArgs(callee, args, vars, m.trace, orc);
            && Reaches(f, m, m', n, orc) && AtEnd(u, m') && Kept(m, m', s.nextTemp) && m'.trace == out.trace
            && ReadAll(vs, m') == Some(out.patterns)
    decreases args, 1
  {
    hide Ext, Represents, SameDecls, RegsBelow, FinishUnary, FinishBinary, FinishCall, BeginLogical, BranchLogical;
    hide FinishLogical, LowerName, Emit, Def, Arith, Compare, EvalUnary, Answer, Enc, InRange, ReadOperand, Width;
    hide TypedName, IrOf, Within, WrapTy, Eval, LowerExpr, TypedExpr, FindVar, MemberValue, Holds, Kept, Step;
    if args == [] {
      KeptSelf(m, s.nextTemp);
      n, m' := 0, m;
    } else {
      var k := |args| - 1;
      var e := args[k];
      var (s1, vs) := LowerArgs(s, callee, args[..k]);
      var (s2, v) := LowerExpr(s1, e);
      GrowArgs(s, callee, args[..k]);
      GrowExpr(s1, e);
      IrOfScalar(e.ty);
      MirrorsScope(s.locals, scope, vars, m);
      ExprType(s1, e, scope);
      assert LowerArgs(s, callee, args).0 == s2 && LowerArgs(s, callee, args).1 == vs + [v];
      GrowsIn(s1, s2, f);
      var n1, m1 := ArgsSim(f, s, callee, args[..k], scope, vars, m, orc);
      ReadyAfter(s, s1, scope, vars, m, m1);
      var n2, m2 := ExprSim(f, s1, e, scope, vars, m1, orc);
      n, m' := n1 + n2, m2;
      Chain(f, m, m1, m2, s.nextTemp, s1.nextTemp, n1, n2, orc);
      ReadOneMore(vs, v, e.ty, Eval(e, vars, m1.trace, orc).value, m1, m2, s1.nextTemp);
    }
  }

  lemma ReadOneMore(vs: seq<Operand>, v: Operand, t: Ty, a: int, m1: Machine, m2: Machine, k: nat)
    requires ReadAll(vs, m1).Some? && Kept(m1, m2, k) && forall i :: 0 <= i < |vs| ==> Below(vs[i], k)
    requires Holds(v, t, a, m2)
    ensures ReadAll(vs + [v], m2) == Some(ReadAll(vs, m1).value + [Enc(Width(t), a)])
  {
    ReadAllKept(vs, m1, m2, k);
    assert (vs + [v])[..|vs|] == vs;
  }

  lemma LogicalCode(s: Low, e: Expr, s1: Low, lhs: Operand, s3: Low, rhs: Operand)
    requires e.Binary? && IsLogical(e.bop)
    requires s1 == LowerExpr(BeginLogical(s, e.ty), e.lhs).0 && lhs == LowerExpr(BeginLogical(s, e.ty), e.lhs).1
    requires var s2 := BranchLogical(s1, e.bop, lhs, e.lhs.ty, e.ty, s.nextTemp, |s.blocks|);
             s3 == LowerExpr(s2, e.rhs).0 && rhs == LowerExpr(s2, e.rhs).1
    ensures LowerExpr(s, e).0 == FinishLogical(s3, rhs, e.rhs.ty, e.ty, s.nextTemp, |s.blocks|).0
    ensures LowerExpr(s, e).1 == FinishLogical(s3, rhs, e.rhs.ty, e.ty, s.nextTemp, |s.blocks|).1
  {
    hide BeginLogical, BranchLogical, FinishLogical;
  }

  lemma LogicalParts(e: Expr, scope: Scope, vars: seq<Local>, tr: Trace, orc: Oracle)
    requires e.Binary? && IsLogical(e.bop) && TypedExpr(e, scope) && Eval(e, vars, tr, orc).Val?
    ensures TypedExpr(e.lhs, scope) && TypedExpr(e.rhs, scope)
    ensures IsBoolLike(e.lhs.ty) && IsBoolLike(e.rhs.ty) && IsBoolLike(e.ty)
    ensures var a := Eval(e.lhs, vars, tr, orc);
            && a.Val?
            && Eval(e, vars, tr, orc) ==
                 if e.bop.LogAnd? == (a.value != 0) then Eval(e.rhs, vars, a.trace, orc) else a
  {
    hide IsBoolLike, Arith, Compare;
  }

  /** The right operand runs exactly when the left one does not decide. */
  lemma {:induction false} LogicalExprSim(f: Blocks, s: Low, e: Expr, scope: Scope, vars: seq<Local>, m: Machine,
      orc: Oracle)
    returns (n: nat, m': Machine)
    requires e.Binary? && IsLogical(e.bop)
    requires Ready(s, scope, vars, m) && TypedExpr(e, scope) && Ext(LowerExpr(s, e).0.blocks, f)
    requires Eval(e, vars, m.trace, orc).Val?
    ensures var (u, v) := LowerExpr(s, e);
            Reaches(f, m, m', n, orc) && Done(u, v, e.ty, Eval(e, vars, m.trace, orc), m, m', s.nextTemp)
    decreases e, 0
  {
    hide Ext, Represents, SameDecls, RegsBelow, Kept, OwnSlot, Holds, Reaches, Width, Enc, InRange, Emit, Def;
    hide BeginLogical, BranchLogical, FinishLogical, FinishBinary, Within, Execute, TypedName, TypedArgs, Arith;
    hide Compare, EvalUnary, LowerName, FinishCall, FinishUnary, CoerceTo, IrOf, SlotHolds, PlainShape, Step;
    hide EvalArgs, LowerArgs, FindVar, MemberValue, LowerExpr, Eval, TypedExpr, IsBoolLike, IsLogical, Below;
    var Binary(op, l, r, t) := e;
    var b, slot := |s.blocks|, s.nextTemp;
    var s0 := BeginLogical(s, t);
    var (s1, lhs) := LowerExpr(s0, l);
    var s2 := BranchLogical(s1, op, lhs, l.ty, t, slot, b);
    var (s3, rhs) := LowerExpr(s2, r);
    LogicalCode(s, e, s1, lhs, s3, rhs);
    LogicalParts(e, scope, vars, m.trace, orc);
    LogicalGrowth(f, s, e, s0, s1, lhs, s2, s3, rhs);
    var m0 := BeginSim(f, s, t, m, orc);
    ReadyAfter(s, s0, scope, vars, m, m0);
    var n1, m1 := ExprSim(f, s0, l, scope, vars, m0, orc);
    Chain(f, m, m0, m1, slot, s0.nextTemp, 1, n1, orc);
    OwnSlotKept(slot, t, m, m0, m1, s0.nextTemp);
    var a := Eval(l, vars, m.trace, orc).value;
    var n2, m2 := BranchSim(f, s1, op, lhs, l.ty, t, a, slot, b, m1, m, slot, orc);
    ReachesTrans(f, m, m1, m2, 1 + n1, n2, orc);
    var n3;
    if op.LogAnd? == (a != 0) {
      AtEmptyBlock(s2, m2);
      ReadyAfter(s, s2, scope, vars, m, m2);
      n3, m' := RightRunSim(f, s2, r, t, scope, vars, slot, b, m2, m, orc);
    } else {
      LogicalLeftValue(l.ty, t, lhs, a, m1);
      m' := EndLoadSim(f, s3, rhs, r.ty, t, a, slot, b, m2, m, slot, orc);
      n3 := 1;
    }
    n := 1 + n1 + n2 + n3;
    ReachesTrans(f, m, m2, m', 1 + n1 + n2, n3, orc);
  }

  /** The right operand runs, and its value ends up in the slot. */
  lemma {:induction false} RightRunSim(f: Blocks, s: Low, r: Expr, t: Ty, scope: Scope, vars: seq<Local>, slot: nat,
      b: nat,
                                       m: Machine, base: Machine, orc: Oracle)
    returns (n: nat, m': Machine)
    requires TypedExpr(r, scope) && IsBoolLike(r.ty) && IsBoolLike(t)
    requires Ready(s, scope, vars, m) && Eval(r, vars, m.trace, orc).Val?
    requires Kept(base, m, slot) && OwnSlot(slot, t, base, m) && slot < s.nextTemp
    requires var (u, rhs) := LowerExpr(s, r);
             && Ext(u.blocks, f) && b + 1 < |u.blocks| && u.cur != b + 1 && u.blocks[b + 1] == []
             && Below(rhs, u.nextTemp) && s.nextTemp <= u.nextTemp
             && Ext(FinishLogical(u, rhs, r.ty, t, slot, b).0.blocks, f)
    ensures var (u, rhs) := LowerExpr(s, r);
            var (w, v) := FinishLogical(u, rhs, r.ty, t, slot, b);
            Reaches(f, m, m', n, orc) && Done(w, v, t, Eval(r, vars, m.trace, orc), base, m', slot)
    decreases r, 2
  {
    hide Ext, Represents, SameDecls, RegsBelow, Kept, OwnSlot, Holds, Reaches, Width, Enc, InRange, Emit, Def;
    hide FinishLogical, Execute, TypedExpr, LowerExpr, Eval, CoerceTo, IrOf, Step;
    var (u, rhs) := LowerExpr(s, r);
    var n1, m1 := ExprSim(f, s, r, scope, vars, m, orc);
    KeptTrans(base, m, m1, slot, s.nextTemp);
    OwnSlotKept(slot, t, base, m, m1, s.nextTemp);
    var n2;
    n2, m' := RightSim(f, u, rhs, r.ty, t, Eval(r, vars, m.trace, orc).value, slot, b, m1, base, slot, orc);
    ReachesTrans(f, m, m1, m', n1, n2, orc);
    n := n1 + n2;
  }

  lemma AtEmptyBlock(s: Low, m: Machine)
    requires m.blk == s.cur && m.pc == 0 && s.blocks[s.cur] == []
    ensures AtEnd(s, m)
  {
  }

  /** A boolean operand's value is one of the result's. */
  lemma LogicalLeftValue(lt: Ty, t: Ty, lhs: Operand, a: int, m: Machine)
    requires IsBoolLike(lt) && IsBoolLike(t) && Holds(lhs, lt, a, m)
    ensures InRange(t, a)
  {
  }

  /** The stages of a logical operator's code, each part of the finished function. */
  lemma LogicalGrowth(f: Blocks, s: Low, e: Expr, s0: Low, s1: Low, lhs: Operand, s2: Low, s3: Low, rhs: Operand)
    requires e.Binary? && s0 == BeginLogical(s, e.ty) && LowerExpr(s0, e.lhs) == (s1, lhs)
    requires s2 == BranchLogical(s1, e.bop, lhs, e.lhs.ty, e.ty, s.nextTemp, |s.blocks|)
    requires LowerExpr(s2, e.rhs) == (s3, rhs)
    requires Ext(FinishLogical(s3, rhs, e.rhs.ty, e.ty, s.nextTemp, |s.blocks|).0.blocks, f)
    ensures Ext(s0.blocks, f) && Ext(s1.blocks, f) && Ext(s2.blocks, f) && Ext(s3.blocks, f)
    ensures s0.locals == s1.locals == s2.locals == s3.locals == s.locals
    ensures s.nextTemp < s0.nextTemp <= s1.nextTemp <= s2.nextTemp <= s3.nextTemp
    ensures Below(lhs, s1.nextTemp) && Below(rhs, s3.nextTemp)
    ensures s2.cur == |s.blocks| && s2.blocks[s2.cur] == []
    ensures s3.cur != |s.blocks| + 1 && s3.blocks[|s.blocks| + 1] == []
  {
    hide Ext, BeginLogical, BranchLogical, FinishLogical, LowerExpr;
    LeftStage(s, e, s0, s1, lhs);
    RightStage(s1, e, lhs, s.nextTemp, |s.blocks|, s2, s3, rhs);
    ExtTrans(s3.blocks, FinishLogical(s3, rhs, e.rhs.ty, e.ty, s.nextTemp, |s.blocks|).0.blocks, f);
    ExtTrans(s2.blocks, s3.blocks, f);
    ExtTrans(s1.blocks, s2.blocks, f);
    ExtTrans(s0.blocks, s1.blocks, f);
  }

  lemma LeftStage(s: Low, e: Expr, s0: Low, s1: Low, lhs: Operand)
    requires e.Binary? && s0 == BeginLogical(s, e.ty) && LowerExpr(s0, e.lhs) == (s1, lhs)
    ensures Grows(s0, s1) && s0.locals == s.locals && s.nextTemp < s0.nextTemp && Below(lhs, s1.nextTemp)
    ensures var b := |s.blocks|;
            b + 1 < |s1.blocks| && s1.blocks[b] == [] && s1.blocks[b + 1] == [] && s1.cur != b && s1.cur != b + 1
  {
    hide BeginLogical, LowerExpr;
    BeginLogicalShape(s, e.ty);
    ExprShape(s0, e.lhs);
  }

  lemma RightStage(s1: Low, e: Expr, lhs: Operand, slot: nat, b: nat, s2: Low, s3: Low, rhs: Operand)
    requires e.Binary? && Below(lhs, s1.nextTemp)
    requires b + 1 < |s1.blocks| && s1.blocks[b] == [] && s1.blocks[b + 1] == [] && s1.cur != b && s1.cur != b + 1
    requires s2 == BranchLogical(s1, e.bop, lhs, e.lhs.ty, e.ty, slot, b) && LowerExpr(s2, e.rhs) == (s3, rhs)
    ensures Ext(s1.blocks, s2.blocks) && s2.locals == s1.locals && s1.nextTemp <= s2.nextTemp
    ensures s2.cur == b && s2.blocks[b] == []
    ensures Grows(s2, s3) && Below(rhs, s3.nextTemp) && s3.cur != b + 1 && s3.blocks[b + 1] == []
    ensures Ext(s3.blocks, FinishLogical(s3, rhs, e.rhs.ty, e.ty, slot, b).0.blocks)
  {
    hide BranchLogical, FinishLogical, LowerExpr;
    BranchLogicalShape(s1, e.bop, lhs, e.lhs.ty, e.ty, slot, b);
    ExprShape(s2, e.rhs);
    FinishLogicalShape(s3, rhs, e.rhs.ty, e.ty, slot, b);
  }
}
