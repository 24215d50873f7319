/** The IR: blocks of instructions over numbered temporaries, no phi nodes, and
    a machine that runs it one instruction at a time. */
module Ir {
  import opened Words
  import opened Types
  import opened Tree

  datatype IrTy = IVoid | IInt(bits: nat) | IFloat(bits: nat) | IPtr | IArray(elem: TypeId, length: nat)
      | IStruct(name: string)

  /** A value: a constant, the temporary an instruction or a parameter defines,
      or no value at all (the result of a void call). */
  datatype Operand = Const(ty: IrTy, raw: int) | Temp(ty: IrTy, id: nat) | Undef(ty: IrTy)

  datatype IrOp =
    | IAdd | ISub | IMul | ISDiv | IUDiv | ISRem | IURem
    | IAnd | IOr | IXor | IShl | ILShr | IAShr

  datatype Pred = PEq | PNe | PSlt | PSle | PSgt | PSge | PUlt | PUle | PUgt | PUge

  datatype CastOp = Trunc | ZExt | SExt

  datatype Instr =
    | Alloca(dst: nat, slot: IrTy)
    | Load(dst: nat, ty: IrTy, addr: Operand)
    | Store(val: Operand, addr: Operand)
    | Bin(op: IrOp, dst: nat, lhs: Operand, rhs: Operand)
    | Icmp(pred: Pred, dst: nat, lhs: Operand, rhs: Operand)
    | Cast(cast: CastOp, dst: nat, val: Operand, to: IrTy)
    | CallI(dst: nat, callee: Fn, args: seq<Operand>)
    | Ret(result: Option<Operand>)
    | Br(dest: nat)
    | CondBr(cond: Operand, dest: nat, dest2: nat)
    | Unreachable

  type Blocks = seq<seq<Instr>>

  predicate IsTerminator(i: Instr) {
    i.Ret? || i.Br? || i.CondBr? || i.Unreachable?
  }

  /** A block counts as terminated when its last instruction is a terminator. */
  predicate Terminated(b: seq<Instr>) {
    b != [] && IsTerminator(b[|b| - 1])
  }

  // ------------------------------------------------------------ instructions

  /** The operators on bit patterns of width `w`; None where the IR gives no
      meaning. */
  function IrBin(op: IrOp, w: nat, x: nat, y: nat): Option<nat> {
    match op
    case IAdd => Some(Enc(w, x + y))
    case ISub => Some(Enc(w, x - y))
    case IMul => Some(Enc(w, x * y))
    case IUDiv => if y == 0 then None else Some(Enc(w, x / y))
    case IURem => if y == 0 then None else Some(Enc(w, x % y))
    case ISDiv => SignedDiv(w, AsSigned(w, x), AsSigned(w, y))
    case ISRem => SignedRem(w, AsSigned(w, x), AsSigned(w, y))
    case IAnd => Some(Bitwise(BitAnd, w, x, y))
    case IOr => Some(Bitwise(BitOr, w, x, y))
    case IXor => Some(Bitwise(BitXor, w, x, y))
    case IShl => if y < w then Some(Enc(w, x * Pow2(y))) else None
    case ILShr => if y < w then Some(Enc(w, x / Pow2(y))) else None
    case IAShr => if y < w then Some(Enc(w, AsSigned(w, x) / Pow2(y))) else None
  }

  function SignedDiv(w: nat, a: int, b: int): Option<nat> {
    if b == 0 || !Fits(true, w, TruncDiv(a, b)) then None else Some(Enc(w, TruncDiv(a, b)))
  }

  function SignedRem(w: nat, a: int, b: int): Option<nat> {
    if b == 0 || !Fits(true, w, TruncDiv(a, b)) then None else Some(Enc(w, TruncRem(a, b)))
  }

  predicate IrCompare(p: Pred, w: nat, x: nat, y: nat) {
    match p
    case PEq => x == y
    case PNe => x != y
    case PUlt => x < y
    case PUle => x <= y
    case PUgt => x > y
    case PUge => x >= y
    case PSlt => AsSigned(w, x) < AsSigned(w, y)
    case PSle => AsSigned(w, x) <= AsSigned(w, y)
    case PSgt => AsSigned(w, x) > AsSigned(w, y)
    case PSge => AsSigned(w, x) >= AsSigned(w, y)
  }

  function IrCast(c: CastOp, from: nat, to: nat, x: nat): nat {
    match c
    case Trunc => Enc(to, x)
    case ZExt => Enc(to, x)
    case SExt => Enc(to, AsSigned(from, x))
  }

  // ----------------------------------------------------------------- machine

  /** What a temporary holds: a bit pattern or the address of a slot. */
  datatype Word = Bits(bits: nat) | Addr(addr: nat)

  /** A stack slot; its content is unknown until the first store. */
  datatype Slot = Slot(ty: IrTy, content: Option<nat>)

  datatype Machine = Machine(blk: nat, pc: nat, regs: map<nat, Word>, mem: seq<Slot>, trace: Trace)

  datatype StepResult =
    | Next(m: Machine)
    | Halt(result: Option<nat>, trace: Trace)
    | Stuck

  function ReadOperand(o: Operand, m: Machine): Option<Word> {
    match o
    case Const(t, raw) => if t.IInt? then Some(Bits(Enc(t.bits, raw))) else None
    case Temp(_, id) => if id in m.regs then Some(m.regs[id]) else None
    case Undef(_) => None
  }

  function ReadBits(o: Operand, m: Machine): Option<nat> {
    match ReadOperand(o, m)
    case Some(Bits(b)) => if o.ty.IInt? then Some(b) else None
    case _ => None
  }

  function ReadAddr(o: Operand, m: Machine): (r: Option<nat>)
    ensures r.Some? ==> r.value < |m.mem|
  {
    match ReadOperand(o, m)
    case Some(Addr(a)) => if a < |m.mem| then Some(a) else None
    case _ => None
  }

  function ReadAll(os: seq<Operand>, m: Machine): Option<seq<nat>> {
    if os == [] then Some([])
    else
      match (ReadAll(os[..|os| - 1], m), ReadBits(os[|os| - 1], m))
      case (Some(bs), Some(b)) => Some(bs + [b])
      case _ => None
  }

  /** How many arguments a call may pass: as many as there are parameters, or more
      to a variadic callee. */
  predicate TakesArgs(f: Fn, n: nat) {
    n == |f.params| || (f.variadic && n > |f.params|)
  }

  /** The next instruction, with `dst := w` and the program counter advanced. */
  function Define(m: Machine, dst: nat, w: Word): StepResult {
    Next(m.(pc := m.pc + 1, regs := m.regs[dst := w]))
  }

  function Execute(i: Instr, m: Machine, orc: Oracle): StepResult {
    match i
    case Alloca(dst, t) =>
      Define(m.(mem := m.mem + [Slot(t, None)]), dst, Addr(|m.mem|))
    case Load(dst, t, p) => (
      match ReadAddr(p, m)
      case Some(a) =>
        if m.mem[a].ty == t && m.mem[a].content.Some? then Define(m, dst, Bits(m.mem[a].content.value)) else Stuck
      case None => Stuck)
    case Store(v, p) => (
      match (ReadAddr(p, m), ReadBits(v, m))
      case (Some(a), Some(b)) =>
        // a store of another width would leave the slot half written
        if m.mem[a].ty == v.ty then Next(m.(pc := m.pc + 1, mem := m.mem[a := m.mem[a].(content := Some(b))]))
        else Stuck
      case _ => Stuck)
    case Bin(op, dst, l, r) => (
      match (ReadBits(l, m), ReadBits(r, m))
      case (Some(x), Some(y)) =>
        if l.ty != r.ty || IrBin(op, l.ty.bits, x, y).None? then Stuck
        else Define(m, dst, Bits(IrBin(op, l.ty.bits, x, y).value))
      case _ => Stuck)
    case Icmp(p, dst, l, r) => (
      match (ReadBits(l, m), ReadBits(r, m))
      case (Some(x), Some(y)) =>
        if l.ty != r.ty then Stuck
        else Define(m, dst, Bits(if IrCompare(p, l.ty.bits, x, y) then 1 else 0))
      case _ => Stuck)
    case Cast(c, dst, v, to) => (
      match ReadBits(v, m)
      case Some(x) => if to.IInt? then Define(m, dst, Bits(IrCast(c, v.ty.bits, to.bits, x))) else Stuck
      case None => Stuck)
    case CallI(dst, f, args) => (
      match ReadAll(args, m)
      case Some(bs) =>
        var m1 := m.(trace := m.trace + [Event(f.name, bs)]);
        if !TakesArgs(f, |args|) then Stuck
        else if f.ret.Void? then Next(m1.(pc := m.pc + 1))
        else Define(m1, dst, Bits(Enc(Width(f.ret), Answer(orc, m.trace, f, bs))))
      case None => Stuck)
    case Ret(v) => (
      if v.None? then Halt(None, m.trace)
      else
        match ReadBits(v.value, m)
        case Some(b) => Halt(Some(b), m.trace)
        case None => Stuck)
    case Br(d) => Next(m.(blk := d, pc := 0))
    case CondBr(c, d, d2) => (
      match ReadBits(c, m)
      case Some(b) => if c.ty == IInt(1) then Next(m.(blk := if b != 0 then d else d2, pc := 0)) else Stuck
      case None => Stuck)
    case Unreachable => Stuck
  }

  function Step(f: Blocks, m: Machine, orc: Oracle): StepResult {
    if m.blk < |f| && m.pc < |f[m.blk]| then Execute(f[m.blk][m.pc], m, orc) else Stuck
  }

  /** `n` steps lead from `m` to `m'`. */
  predicate Reaches(f: Blocks, m: Machine, m': Machine, n: nat, orc: Oracle)
    decreases n
  {
    if n == 0 then m == m'
    else Step(f, m, orc).Next? && Reaches(f, Step(f, m, orc).m, m', n - 1, orc)
  }

  lemma {:induction false} ReachesTrans(f: Blocks, a: Machine, b: Machine, c: Machine, k: nat, n: nat, orc: Oracle)
    requires Reaches(f, a, b, k, orc) && Reaches(f, b, c, n, orc)
    ensures Reaches(f, a, c, k + n, orc)
    decreases k
  {
    if k > 0 {
      ReachesTrans(f, Step(f, a, orc).m, b, c, k - 1, n, orc);
    }
  }

  lemma {:induction false} ReachesSplit(f: Blocks, a: Machine, c: Machine, k: nat, n: nat, orc: Oracle)
    returns (b: Machine)
    requires k <= n && Reaches(f, a, c, n, orc)
    ensures Reaches(f, a, b, k, orc) && Reaches(f, b, c, n - k, orc)
    decreases k
  {
    if k == 0 {
      b := a;
    } else {
      b := ReachesSplit(f, Step(f, a, orc).m, c, k - 1, n - 1, orc);
    }
  }
}
