/** The structural verifier of the IR: how many problems it reports. */
module IrVerify {
  import opened Words
  import opened Types
  import opened Tree
  import opened Ir

  /** The size in bytes of a scalar IR type. */
  function ScalarSize(t: IrTy): nat {
    match t
    case IInt(bits) => if bits <= 8 then 1 else bits / 8
    case IFloat(bits) => bits / 8
    case IPtr => 8
    case _ => 0
  }

  /** The temporary an instruction defines, if any. */
  function Defines(i: Instr): Option<nat> {
    match i
    case Alloca(d, _) => Some(d)
    case Load(d, _, _) => Some(d)
    case Bin(_, d, _, _) => Some(d)
    case Icmp(_, d, _, _) => Some(d)
    case Cast(_, d, _, _) => Some(d)
    case CallI(d, f, _) => if f.ret.Void? then None else Some(d)
    case _ => None
  }

  /** The first instruction of a block that defines temporary `id`. */
  function DefiningIn(b: seq<Instr>, id: nat): (r: Option<Instr>)
    ensures r.Some? ==> r.value in b && Defines(r.value) == Some(id)
    ensures r.None? ==> forall k :: 0 <= k < |b| ==> Defines(b[k]) != Some(id)
  {
    if b == [] then None
    else
      match DefiningIn(b[..|b| - 1], id)
      case Some(i) => Some(i)
      case None => if Defines(b[|b| - 1]) == Some(id) then Some(b[|b| - 1]) else None
  }

  /** The definition of temporary `id`; parameters have none. */
  function DefiningInstr(f: Blocks, id: nat): (r: Option<Instr>)
    ensures r.Some? ==> Defines(r.value) == Some(id)
    ensures r.None? ==> forall j :: 0 <= j < |f| ==> DefiningIn(f[j], id).None?
  {
    if f == [] then None
    else
      match DefiningInstr(f[..|f| - 1], id)
      case Some(i) => Some(i)
      case None => DefiningIn(f[|f| - 1], id)
  }

  function Count(b: bool): nat {
    if b then 1 else 0
  }

  /** A store wider than the stack slot it visibly goes to. */
  predicate TooWide(f: Blocks, v: Operand, addr: Operand) {
    addr.Temp? &&
    (match DefiningInstr(f, addr.id)
     case Some(Alloca(_, slot)) => !slot.IArray? && !slot.IStruct? && ScalarSize(v.ty) > ScalarSize(slot)
     case _ => false)
  }

  /** The problems of one instruction of a function with blocks `f` and return
      type `ret`. */
  function InstrProblems(f: Blocks, ret: IrTy, i: Instr): nat {
    match i
    case Store(v, a) => Count(a.ty != IPtr) + Count(TooWide(f, v, a))
    case Load(_, _, a) => Count(a.ty != IPtr)
    case Bin(_, _, l, r) => Count(l.ty != r.ty) + Count(!l.ty.IInt?)
    case Icmp(_, _, l, r) => Count(l.ty != r.ty)
    case CondBr(c, d, d2) => Count(c.ty != IInt(1)) + Count(d >= |f| || d2 >= |f|)
    case Br(d) => Count(d >= |f|)
    case Ret(v) => if v.None? then Count(ret != IVoid) else Count(v.value.ty != ret)
    case CallI(_, fn, args) =>
      if !fn.variadic then Count(|args| != |fn.params|) else Count(|args| < |fn.params|)
    case _ => 0
  }

  /** The problems of the instructions up to and including the first terminator,
      plus one for whatever is wrong with the terminators themselves. */
  function BlockProblems(f: Blocks, ret: IrTy, b: seq<Instr>): nat {
    if b == [] then 1
    else if IsTerminator(b[0]) then InstrProblems(f, ret, b[0]) + Count(|b| > 1)
    else InstrProblems(f, ret, b[0]) + BlockProblems(f, ret, b[1..])
  }

  function ProblemsUpTo(f: Blocks, ret: IrTy, n: nat): nat
    requires n <= |f|
  {
    if n == 0 then 0 else ProblemsUpTo(f, ret, n - 1) + BlockProblems(f, ret, f[n - 1])
  }

  function Problems(f: Blocks, ret: IrTy): nat {
    if f == [] then 1 else ProblemsUpTo(f, ret, |f|)
  }

  /** The verifier's two loops. */
  method Verify(f: Blocks, ret: IrTy) returns (problems: nat)
    ensures problems == Problems(f, ret)
  {
    problems := 0;
    if f == [] {
      return 1;
    }
    var n := 0;
    while n < |f|
      invariant n <= |f| && problems == ProblemsUpTo(f, ret, n)
    {
      var b := f[n];
      var seen := false;
      var k := 0;
      while k < |b|
        invariant k <= |b|
        invariant seen ==> k > 0 && IsTerminator(b[k - 1])
        invariant problems + (if seen then Count(k < |b|) else BlockProblems(f, ret, b[k..]))
                  == ProblemsUpTo(f, ret, n) + BlockProblems(f, ret, b)
      {
        if seen {
          problems := problems + 1;
          break;
        }
        seen := IsTerminator(b[k]);
        problems := problems + InstrProblems(f, ret, b[k]);
        assert b[k..][1..] == b[k + 1..];
        k := k + 1;
      }
      if !seen {
        problems := problems + 1;
      }
      n := n + 1;
    }
  }

  // ------------------------------------------------------------- what clean means

  /** A block that ends in its one terminator. */
  predicate EndsOnce(b: seq<Instr>) {
    Terminated(b) && forall k :: 0 <= k < |b| - 1 ==> !IsTerminator(b[k])
  }

  /** No problems means: every block ends in exactly one terminator, and every
      instruction passes its own check. */
  lemma {:induction false} BlockClean(f: Blocks, ret: IrTy, b: seq<Instr>)
    ensures BlockProblems(f, ret, b) == 0 <==>
            EndsOnce(b) && forall k :: 0 <= k < |b| ==> InstrProblems(f, ret, b[k]) == 0
  {
    if b == [] {
    } else if IsTerminator(b[0]) {
      if |b| > 1 {
        assert IsTerminator(b[0]);
      }
    } else {
      BlockClean(f, ret, b[1..]);
      if |b| > 1 {
        assert b[1..][|b| - 2] == b[|b| - 1];
        forall k | 0 <= k < |b| ensures k > 0 ==> b[k] == b[1..][k - 1] {
        }
      }
    }
  }

  lemma {:induction false} Clean(f: Blocks, ret: IrTy)
    ensures Problems(f, ret) == 0 <==>
            f != [] && forall j :: 0 <= j < |f| ==>
              EndsOnce(f[j]) && forall k :: 0 <= k < |f[j]| ==> InstrProblems(f, ret, f[j][k]) == 0
  {
    CleanUpTo(f, ret, |f|);
  }

  lemma {:induction false} CleanUpTo(f: Blocks, ret: IrTy, n: nat)
    requires n <= |f|
    ensures ProblemsUpTo(f, ret, n) == 0 <==>
            forall j :: 0 <= j < n ==>
              EndsOnce(f[j]) && forall k :: 0 <= k < |f[j]| ==> InstrProblems(f, ret, f[j][k]) == 0
  {
    if n > 0 {
      CleanUpTo(f, ret, n - 1);
      BlockClean(f, ret, f[n - 1]);
    }
  }

  // ------------------------------------------------------- what it means for a run

  function Operands(i: Instr): seq<Operand> {
    match i
    case Load(_, _, a) => [a]
    case Store(v, a) => [v, a]
    case Bin(_, _, l, r) => [l, r]
    case Icmp(_, _, l, r) => [l, r]
    case Cast(_, _, v, _) => [v]
    case CallI(_, _, args) => args
    case Ret(v) => if v.None? then [] else [v.value]
    case CondBr(c, _, _) => [c]
    case _ => []
  }

  /** The operand holds what its type says: a pattern or an address. */
  predicate Readable(o: Operand, m: Machine) {
    match o.ty
    case IInt(_) => ReadBits(o, m).Some?
    case IPtr => ReadAddr(o, m).Some?
    case _ => true
  }

  predicate AllReadable(os: seq<Operand>, m: Machine) {
    forall k :: 0 <= k < |os| ==> Readable(os[k], m)
  }

  predicate AllInts(os: seq<Operand>) {
    forall k :: 0 <= k < |os| ==> os[k].ty.IInt?
  }

  /** The machine stores, compares, converts, passes and returns integers only. */
  predicate OnIntegers(i: Instr, ret: IrTy) {
    match i
    case Store(v, _) => v.ty.IInt?
    case Icmp(_, _, l, _) => l.ty.IInt?
    case Cast(_, _, v, to) => v.ty.IInt? && to.IInt?
    case CallI(_, _, args) => AllInts(args)
    case Ret(v) => v.Some? ==> ret.IInt?
    case _ => true
  }

  /** Where a run may stop without a result although nothing is reported: an
      operation without a meaning, an `unreachable` reached, and memory that is
      read before it is written or at another type. */
  predicate GoesWrong(i: Instr, m: Machine) {
    match i
    case Unreachable => true
    case Bin(op, _, l, r) =>
      && l.ty.IInt? && ReadBits(l, m).Some? && ReadBits(r, m).Some?
      && IrBin(op, l.ty.bits, ReadBits(l, m).value, ReadBits(r, m).value).None?
    case Load(_, t, a) =>
      && ReadAddr(a, m).Some?
      && (var slot := m.mem[ReadAddr(a, m).value]; slot.ty != t || slot.content.None?)
    case Store(v, a) => ReadAddr(a, m).Some? && m.mem[ReadAddr(a, m).value].ty != v.ty
    case _ => false
  }

  lemma {:induction false} ReadAllOf(os: seq<Operand>, m: Machine)
    requires AllReadable(os, m) && AllInts(os)
    ensures ReadAll(os, m).Some?
  {
    if os != [] {
      var k := |os| - 1;
      ReadAllOf(os[..k], m);
      assert Readable(os[k], m) && os[k].ty.IInt?;
    }
  }

  /** An instruction that nothing is reported of, whose operands hold what their
      types say, stops the machine only where it goes wrong. */
  lemma ExecutesUnlessWrong(f: Blocks, ret: IrTy, i: Instr, m: Machine, orc: Oracle)
    requires InstrProblems(f, ret, i) == 0 && AllReadable(Operands(i), m) && OnIntegers(i, ret)
    ensures Execute(i, m, orc).Stuck? <==> GoesWrong(i, m)
  {
    hide IrBin, IrCompare, IrCast, DefiningInstr, AllReadable, Width, Answer;
    if i.CallI? {
      ReadAllOf(i.args, m);
    } else {
      OperandsReadable(i, m);
    }
  }

  lemma OperandsReadable(i: Instr, m: Machine)
    requires AllReadable(Operands(i), m)
    ensures i.Load? ==> Readable(i.addr, m)
    ensures i.Store? ==> Readable(i.val, m) && Readable(i.addr, m)
    ensures i.Bin? || i.Icmp? ==> Readable(i.lhs, m) && Readable(i.rhs, m)
    ensures i.Cast? ==> Readable(i.val, m)
    ensures i.Ret? && i.result.Some? ==> Readable(i.result.value, m)
    ensures i.CondBr? ==> Readable(i.cond, m)
  {
    hide Readable;
    var os := Operands(i);
    assert forall k :: 0 <= k < |os| ==> Readable(os[k], m);
    if |os| > 0 {
      assert Readable(os[0], m);
    }
    if |os| > 1 {
      assert Readable(os[1], m);
    }
  }

  /** The machine is at an instruction of the function. */
  predicate Inside(f: Blocks, m: Machine) {
    m.blk < |f| && m.pc < |f[m.blk]|
  }

  /** A step of a function without problems stays in it, or ends in a result of the
      return type. */
  lemma StepStaysInside(f: Blocks, ret: IrTy, m: Machine, orc: Oracle)
    requires Problems(f, ret) == 0 && Inside(f, m)
    ensures var r := Step(f, m, orc);
            && (r.Next? ==> Inside(f, r.m))
            && (r.Halt? ==>
                  var i := f[m.blk][m.pc];
                  && i.Ret? && (i.result.Some? <==> r.result.Some?)
                  && (if i.result.Some? then i.result.value.ty == ret && ret.IInt? else ret.IVoid?))
  {
    hide IrBin, IrCompare, IrCast, Width, Answer, ReadOperand, ReadAll, BlockProblems, ProblemsUpTo, Problems, TooWide;
    Clean(f, ret);
    var b := f[m.blk];
    assert EndsOnce(b) && InstrProblems(f, ret, b[m.pc]) == 0;
    if m.pc < |b| - 1 {
      assert !IsTerminator(b[m.pc]);
    }
    assert forall d :: 0 <= d < |f| ==> EndsOnce(f[d]) && |f[d]| > 0;
  }

  /** So does every run: wherever it gets, it is at an instruction of the function. */
  lemma {:induction false} RunStaysInside(f: Blocks, ret: IrTy, m: Machine, m': Machine, n: nat, orc: Oracle)
    requires Problems(f, ret) == 0 && Inside(f, m) && Reaches(f, m, m', n, orc)
    ensures Inside(f, m')
    decreases n
  {
    if n > 0 {
      hide Problems, Step;
      StepStaysInside(f, ret, m, orc);
      RunStaysInside(f, ret, Step(f, m, orc).m, m', n - 1, orc);
    }
  }

  /** A function without problems, run from its first block with operands that hold
      what their types say, has a next step or a result wherever it gets, unless it
      goes wrong there. */
  lemma RunGoesOn(f: Blocks, ret: IrTy, m: Machine, m': Machine, n: nat, orc: Oracle)
    requires Problems(f, ret) == 0 && Inside(f, m) && Reaches(f, m, m', n, orc)
    ensures Inside(f, m')
    ensures var i := f[m'.blk][m'.pc];
            AllReadable(Operands(i), m') && OnIntegers(i, ret) ==>
              (Step(f, m', orc).Stuck? <==> GoesWrong(i, m'))
  {
    hide Problems, InstrProblems, Execute, GoesWrong, AllReadable, OnIntegers, Operands;
    RunStaysInside(f, ret, m, m', n, orc);
    Clean(f, ret);
    var i := f[m'.blk][m'.pc];
    if AllReadable(Operands(i), m') && OnIntegers(i, ret) {
      ExecutesUnlessWrong(f, ret, i, m', orc);
    }
  }

  /** The bits of a scalar that fills its bytes. */
  function BitsOf(t: IrTy): nat {
    match t
    case IInt(bits) => bits
    case IFloat(bits) => bits
    case IPtr => 64
    case _ => 0
  }

  predicate WholeBytes(t: IrTy) {
    (t.IInt? && BitsOf(t) >= 8 && BitsOf(t) % 8 == 0) || (t.IFloat? && BitsOf(t) % 8 == 0) || t.IPtr?
  }

  /** A store that visibly goes to a slot is reported exactly when it writes more
      bits than the slot has. */
  lemma StoreFits(f: Blocks, ret: IrTy, v: Operand, addr: Operand, slot: Instr)
    requires addr.Temp? && addr.ty == IPtr && DefiningInstr(f, addr.id) == Some(slot) && slot.Alloca?
    requires WholeBytes(v.ty) && WholeBytes(slot.slot)
    ensures InstrProblems(f, ret, Store(v, addr)) == 0 <==> BitsOf(v.ty) <= BitsOf(slot.slot)
  {
  }
}
