/** The compiler's contract for a whole function: its IR behaves exactly as the
    program does. */
module Correctness {
  import opened Words
  import opened Types
  import opened Tree
  import opened Typing
  import opened Ir
  import opened Lowering
  import opened LoweringShape
  import opened SimExpr
  import opened SimStmt
  import opened SimFlow
  import opened Simulation
  import opened Reachability

  // ------------------------------------------------------------------- entry

  predicate GoodArgs(fn: FnDecl, args: seq<int>) {
    |args| == |fn.params| && forall i :: 0 <= i < |args| ==> InRange(fn.params[i].ty, args[i])
  }

  /** A call starts in block 0 with the arguments in the first temporaries and no
      slots. */
  function Initial(fn: FnDecl, args: seq<int>): Machine
    requires |args| == |fn.params|
  {
    Machine(0, 0, map i: nat | 0 <= i < |args| :: Bits(Enc(Width(fn.params[i].ty), args[i])), [], [])
  }

  function Taken(params: seq<Decl>, args: seq<int>): seq<Local>
    requires |args| == |params|
  {
    seq(|args|, i requires 0 <= i < |args| => Local(params[i], args[i]))
  }

  /** The code that spills parameter `k`. */
  function SpillParam(s: Low, d: Decl, k: nat): Low {
    var s2 := Def(s, Alloca(s.nextTemp, IrOf(d.ty)));
    var s3 := Emit(s2, Store(Temp(IrOf(d.ty), k), Temp(IPtr, s.nextTemp)));
    s3.(locals := s3.locals + [Binding(d, s.nextTemp)])
  }

  lemma SpillGrowth(f: Blocks, s: Low, d: Decl, k: nat)
    requires Ext(SpillParam(s, d, k).blocks, f)
    ensures Ext(s.blocks, f) && Ext(Def(s, Alloca(s.nextTemp, IrOf(d.ty))).blocks, f)
    ensures IsOpen(SpillParam(s, d, k))
  {
    var s2 := Def(s, Alloca(s.nextTemp, IrOf(d.ty)));
    EmitIn(f, s2, Store(Temp(IrOf(d.ty), k), Temp(IPtr, s.nextTemp)));
    EmitIn(f, s, Alloca(s.nextTemp, IrOf(d.ty)));
    EmitShape(s2, Store(Temp(IrOf(d.ty), k), Temp(IPtr, s.nextTemp)));
  }

  lemma SpillSim(f: Blocks, s: Low, d: Decl, k: nat, a: int, vars: seq<Local>, m: Machine, orc: Oracle)
    returns (n: nat, m': Machine)
    requires AtEnd(s, m) && Represents(s.locals, vars, m) && RegsBelow(s.locals, s.nextTemp) && k < s.nextTemp
    requires IsScalar(d.ty) && Holds(Temp(IrOf(d.ty), k), d.ty, a, m)
    requires Ext(SpillParam(s, d, k).blocks, f)
    ensures var t := SpillParam(s, d, k);
            && Reaches(f, m, m', n, orc) && Kept(m, m', s.nextTemp) && m'.trace == m.trace
            && AtEnd(t, m') && Represents(t.locals, vars + [Local(d, a)], m') && RegsBelow(t.locals, t.nextTemp)
  {
    hide Ext, Reaches, Kept, Represents, OwnSlot, SlotHolds, Enc, Width, InRange, Holds;
    var slot, v := s.nextTemp, Temp(IrOf(d.ty), k);
    var s2 := Def(s, Alloca(slot, IrOf(d.ty)));
    SpillGrowth(f, s, d, k);
    IrOfScalar(d.ty);
    var m2 := AllocaSim(f, s, d.ty, m, orc);
    HoldsKept(v, d.ty, a, m, m2, slot);
    var n3;
    n3, m' := WriteSlot(f, s2, v, d.ty, d.ty, a, slot, m2, m, slot, orc);
    n := 1 + n3;
    ReachesTrans(f, m, m2, m', 1, n3, orc);
    HoldsInRange(v, d.ty, a, m2);
    RepresentsPush(s.locals, vars, d, slot, a, m, m');
  }

  /** The code that spills the parameters sets up the outermost scope. */
  lemma {:induction false} ParamsSim(f: Blocks, s: Low, params: seq<Decl>, args: seq<int>, m: Machine, orc: Oracle)
    returns (n: nat, m': Machine)
    requires |args| == |params| && s.locals == [] && |params| <= s.nextTemp && AtEnd(s, m) && IsOpen(s)
    requires forall i :: 0 <= i < |params| ==>
             IsScalar(params[i].ty) && Holds(Temp(IrOf(params[i].ty), i), params[i].ty, args[i], m)
    requires Ext(LowerParams(s, params).blocks, f)
    ensures var t := LowerParams(s, params);
            && Reaches(f, m, m', n, orc) && Kept(m, m', s.nextTemp) && m'.trace == m.trace
            && AtEnd(t, m') && Represents(t.locals, Taken(params, args), m') && RegsBelow(t.locals, t.nextTemp)
            && s.nextTemp <= t.nextTemp && t.loops == s.loops && IsOpen(t)
  {
    hide Ext, Reaches, Kept, Represents, Holds, IrOf, Width, Step, Execute, Enc, InRange, ReadOperand, IsOpen;
    if params == [] {
      StayPut(f, m, s.nextTemp, orc);
      n, m' := 0, m;
      NothingRepresented(m);
    } else {
      var k := |params| - 1;
      var d, a := params[k], args[k];
      var s1 := LowerParams(s, params[..k]);
      assert LowerParams(s, params) == SpillParam(s1, d, k);
      SpillGrowth(f, s1, d, k);
      var n1, m1 := ParamsSim(f, s, params[..k], args[..k], m, orc);
      HoldsKept(Temp(IrOf(d.ty), k), d.ty, a, m, m1, s.nextTemp);
      var n2, m2 := SpillSim(f, s1, d, k, a, Taken(params[..k], args[..k]), m1, orc);
      Chain(f, m, m1, m2, s.nextTemp, s1.nextTemp, n1, n2, orc);
      n, m' := n1 + n2, m2;
      assert Taken(params, args) == Taken(params[..k], args[..k]) + [Local(d, a)];
    }
  }

  lemma NothingRepresented(m: Machine)
    ensures Represents([], [], m)
  {
  }

  lemma ParamHolds(fn: FnDecl, args: seq<int>, i: nat)
    requires GoodArgs(fn, args) && i < |args| && IsScalar(fn.params[i].ty)
    ensures Holds(Temp(IrOf(fn.params[i].ty), i), fn.params[i].ty, args[i], Initial(fn, args))
  {
    IrOfScalar(fn.params[i].ty);
  }

  // ------------------------------------------------------------ the function

  /** Everything a run of the body can do, the function's code does. */
  lemma FunctionSim(fn: FnDecl, args: seq<int>, orc: Oracle, fuel: nat) returns (n: nat, m': Machine)
    requires Accepted(fn) && GoodArgs(fn, args)
    ensures var f, m := LowerFunction(fn).blocks, Initial(fn, args);
            match RunBody(fn, args, orc, fuel)
            case Returned(v, trace) => Reaches(f, m, m', n, orc) && Step(f, m', orc) == Halt(Pattern(fn.ret, v), trace)
            case Normal(env) => Reaches(f, m, m', n, orc) && Step(f, m', orc) == Halt(None, env.trace)
            case OutOfFuel => Reaches(f, m, m', n, orc) && n >= fuel
            case _ => true
  {
    hide Reaches, Ext, Represents, RegsBelow, LowerParams, LowerBlock, ExecBlock, RegsKept, Kept, TypedSeq,
        BlockDiverges, Holds, LowerFunction;
    var f, m := LowerFunction(fn).blocks, Initial(fn, args);
    var s0, s1, s2 := Entry(fn), LowerParams(Entry(fn), fn.params), Body(fn);
    FunctionGrowth(fn);
    forall i | 0 <= i < |fn.params| ensures Holds(Temp(IrOf(fn.params[i].ty), i), fn.params[i].ty, args[i], m) {
      ParamHolds(fn, args, i);
    }
    var n1, m1 := ParamsSim(f, s0, fn.params, args, m, orc);
    var env := Entered(fn, args);
    assert env.vars == Taken(fn.params, args);
    var n2, m2 := BlockSim(f, s1, fn.body, fn.params, fn.ret, false, env, m1, orc, fuel);
    n, m' := n1 + n2, m2;
    NoneOutTyped(fn.body, fn.params, fn.ret);
    NeverFallsOff(fn, args, orc, fuel);
    var r := RunBody(fn, args, orc, fuel);
    if !r.Wrong? {
      ReachesTrans(f, m, m1, m2, n1, n2, orc);
    }
    if r.Normal? {
      EndOfVoid(fn);
      Fetch(f, s2, Ret(None), m2, orc);
    }
  }

  lemma FunctionGrowth(fn: FnDecl)
    ensures var f := LowerFunction(fn).blocks;
            Ext(LowerParams(Entry(fn), fn.params).blocks, f) && Ext(Body(fn).blocks, f)
  {
    hide LowerParams, LowerBlock;
    var s1, s2 := LowerParams(Entry(fn), fn.params), Body(fn);
    BlockShapes(s1, fn.body, fn.ret);
    EmitShape(s2, Ret(None));
    EmitShape(s2, Unreachable);
    ExtTrans(s1.blocks, s2.blocks, LowerFunction(fn).blocks);
  }

  lemma EndOfVoid(fn: FnDecl)
    requires IsOpen(Body(fn)) && fn.ret.Void?
    ensures Ext(Emit(Body(fn), Ret(None)).blocks, LowerFunction(fn).blocks)
  {
    EmitShape(Body(fn), Ret(None));
    assert Ext(Emit(Body(fn), Ret(None)).blocks, Emit(Body(fn), Ret(None)).blocks);
  }

  // -------------------------------------------------------------- behaviours

  datatype Behaviour =
    | Terminates(result: Option<nat>, trace: Trace)
    | Diverges

  /** The program returns this result, having made these calls. */
  predicate ProgramReturns(fn: FnDecl, args: seq<int>, orc: Oracle, fuel: nat, b: Behaviour)
    requires |args| == |fn.params|
  {
    match RunBody(fn, args, orc, fuel)
    case Returned(v, trace) => b == Terminates(Pattern(fn.ret, v), trace)
    case Normal(env) => b == Terminates(None, env.trace)
    case _ => false
  }

  ghost predicate ProgramBehaves(fn: FnDecl, args: seq<int>, orc: Oracle, b: Behaviour)
    requires |args| == |fn.params|
  {
    match b
    case Terminates(_, _) => exists fuel: nat :: ProgramReturns(fn, args, orc, fuel, b)
    case Diverges => forall fuel: nat :: RunBody(fn, args, orc, fuel).OutOfFuel?
  }

  predicate HaltsAfter(f: Blocks, m: Machine, m': Machine, n: nat, orc: Oracle, b: Behaviour) {
    b.Terminates? && Reaches(f, m, m', n, orc) && Step(f, m', orc) == Halt(b.result, b.trace)
  }

  /** At least `n` steps can be taken. */
  ghost predicate StepsOn(f: Blocks, m: Machine, n: nat, orc: Oracle) {
    exists m' :: Reaches(f, m, m', n, orc)
  }

  /** The IR behaves: it halts with a result, or takes steps for ever. */
  ghost predicate IrBehaves(f: Blocks, m: Machine, orc: Oracle, b: Behaviour) {
    match b
    case Terminates(_, _) => exists n: nat, m' :: HaltsAfter(f, m, m', n, orc, b)
    case Diverges => forall n: nat :: StepsOn(f, m, n, orc)
  }

  /** No run performs an undefined operation. */
  ghost predicate NeverWrong(fn: FnDecl, args: seq<int>, orc: Oracle)
    requires |args| == |fn.params|
  {
    forall fuel: nat :: !RunBody(fn, args, orc, fuel).Wrong?
  }

  lemma {:induction false} ReachesUnique(f: Blocks, a: Machine, b: Machine, c: Machine, n: nat, orc: Oracle)
    requires Reaches(f, a, b, n, orc) && Reaches(f, a, c, n, orc)
    ensures b == c
    decreases n
  {
    if n > 0 {
      ReachesUnique(f, Step(f, a, orc).m, b, c, n - 1, orc);
    }
  }

  /** A machine that halts takes no step further. */
  lemma HaltIsLast(f: Blocks, m: Machine, m': Machine, n: nat, x: Machine, k: nat, orc: Oracle)
    requires Reaches(f, m, m', n, orc) && !Step(f, m', orc).Next? && Reaches(f, m, x, k, orc)
    ensures k <= n
  {
    if k > n {
      var y := ReachesSplit(f, m, x, n, k, orc);
      ReachesUnique(f, m, m', y, n, orc);
      assert false;
    }
  }

  /** The IR has at most one behaviour. */
  lemma IrBehavesOnce(f: Blocks, m: Machine, orc: Oracle, b: Behaviour, c: Behaviour)
    requires IrBehaves(f, m, orc, b) && IrBehaves(f, m, orc, c)
    ensures b == c
  {
    if b.Terminates? {
      var n: nat, x :| HaltsAfter(f, m, x, n, orc, b);
      if c.Terminates? {
        var k: nat, y :| HaltsAfter(f, m, y, k, orc, c);
        HaltIsLast(f, m, x, n, y, k, orc);
        HaltIsLast(f, m, y, k, x, n, orc);
        ReachesUnique(f, m, x, y, n, orc);
      } else {
        assert StepsOn(f, m, n + 1, orc);
        var y :| Reaches(f, m, y, n + 1, orc);
        HaltIsLast(f, m, x, n, y, n + 1, orc);
      }
    } else if c.Terminates? {
      var n: nat, x :| HaltsAfter(f, m, x, n, orc, c);
      assert StepsOn(f, m, n + 1, orc);
      var y :| Reaches(f, m, y, n + 1, orc);
      HaltIsLast(f, m, x, n, y, n + 1, orc);
    }
  }

  /** Lowering preserves meaning: what the program does, the IR does, be it
      returning a value after some calls or running for ever. */
  lemma LoweringPreserves(fn: FnDecl, args: seq<int>, orc: Oracle, b: Behaviour)
    requires Accepted(fn) && GoodArgs(fn, args) && ProgramBehaves(fn, args, orc, b)
    ensures IrBehaves(LowerFunction(fn).blocks, Initial(fn, args), orc, b)
  {
    hide LowerFunction, RunBody, Reaches, Initial;
    var f, m := LowerFunction(fn).blocks, Initial(fn, args);
    if b.Terminates? {
      var fuel: nat :| ProgramReturns(fn, args, orc, fuel, b);
      var n, m' := FunctionSim(fn, args, orc, fuel);
      assert HaltsAfter(f, m, m', n, orc, b);
    } else {
      forall n: nat ensures StepsOn(f, m, n, orc) {
        var k, x := FunctionSim(fn, args, orc, n);
        var y := ReachesSplit(f, m, x, n, k, orc);
      }
    }
  }

  /** And it does nothing else: for a program without undefined operations the
      IR's behaviours are exactly the program's. */
  lemma LoweringCorrect(fn: FnDecl, args: seq<int>, orc: Oracle, b: Behaviour)
    requires Accepted(fn) && GoodArgs(fn, args) && NeverWrong(fn, args, orc)
    ensures ProgramBehaves(fn, args, orc, b) <==> IrBehaves(LowerFunction(fn).blocks, Initial(fn, args), orc, b)
  {
    hide LowerFunction, RunBody, IrBehaves;
    if ProgramBehaves(fn, args, orc, b) {
      LoweringPreserves(fn, args, orc, b);
    }
    if IrBehaves(LowerFunction(fn).blocks, Initial(fn, args), orc, b) {
      var c := SomeBehaviour(fn, args, orc);
      LoweringPreserves(fn, args, orc, c);
      IrBehavesOnce(LowerFunction(fn).blocks, Initial(fn, args), orc, b, c);
    }
  }

  /** A program that never goes wrong returns or runs for ever. */
  lemma SomeBehaviour(fn: FnDecl, args: seq<int>, orc: Oracle) returns (b: Behaviour)
    requires Accepted(fn) && |args| == |fn.params| && NeverWrong(fn, args, orc)
    ensures ProgramBehaves(fn, args, orc, b)
  {
    hide RunBody;
    if fuel: nat :| !RunBody(fn, args, orc, fuel).OutOfFuel? {
      NoneOutTyped(fn.body, fn.params, fn.ret);
      NeverFallsOff(fn, args, orc, fuel);
      var r := RunBody(fn, args, orc, fuel);
      b := if r.Returned? then Terminates(Pattern(fn.ret, r.value), r.trace) else Terminates(None, r.env.trace);
      assert ProgramReturns(fn, args, orc, fuel, b);
    } else {
      b := Diverges;
    }
  }
}
