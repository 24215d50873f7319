/** Temporaries along the paths of the generated code: nothing reads one before
    the instruction that defines it, whatever path led there. */
module Dominance {
  import opened Words
  import opened Types
  import opened Tree
  import opened Ir
  import opened Lowering
  import opened LoweringShape
  import opened IrVerify
  import opened CfgReach

  // -------------------------------------------------------------- what is known

  predicate In(o: Operand, known: set<nat>) {
    TempOf(o) <= known
  }

  function TempOf(o: Operand): set<nat> {
    if o.Temp? then {o.id} else {}
  }

  /** The temporaries an instruction reads. */
  function TempsRead(i: Instr): set<nat> {
    match i
    case Load(_, _, a) => TempOf(a)
    case Store(v, a) => TempOf(v) + TempOf(a)
    case Bin(_, _, l, r) => TempOf(l) + TempOf(r)
    case Icmp(_, _, l, r) => TempOf(l) + TempOf(r)
    case Cast(_, _, v, _) => TempOf(v)
    case CallI(_, _, args) => set k | 0 <= k < |args| && args[k].Temp? :: args[k].id
    case Ret(v) => if v.Some? then TempOf(v.value) else {}
    case CondBr(c, _, _) => TempOf(c)
    case _ => {}
  }

  predicate Reads(i: Instr, known: set<nat>) {
    TempsRead(i) <= known
  }

  function Made(i: Instr): set<nat> {
    if Defines(i).Some? then {Defines(i).value} else {}
  }

  /** What is known after the instructions `b`, entered knowing `a`. */
  function Known(a: set<nat>, b: seq<Instr>): (r: set<nat>)
    ensures a <= r
  {
    if b == [] then a else Known(a, b[..|b| - 1]) + Made(b[|b| - 1])
  }

  /** Wherever the instruction leads, no more is expected than is known. */
  predicate Passes(i: Instr, known: set<nat>, entry: seq<set<nat>>) {
    && (i.Br? ==> i.dest < |entry| && entry[i.dest] <= known)
    && (i.CondBr? ==> i.dest < |entry| && i.dest2 < |entry| && entry[i.dest] <= known && entry[i.dest2] <= known)
  }

  predicate Fine(i: Instr, known: set<nat>, entry: seq<set<nat>>) {
    Reads(i, known) && Passes(i, known, entry)
  }

  predicate BlockFine(a: set<nat>, b: seq<Instr>, entry: seq<set<nat>>) {
    forall k :: 0 <= k < |b| ==> Fine(b[k], Known(a, b[..k]), entry)
  }

  /** What is known where the builder stands. */
  function Now(s: Low, entry: seq<set<nat>>): set<nat>
    requires |entry| == |s.blocks|
  {
    Known(entry[s.cur], s.blocks[s.cur])
  }

  /** The slots of the locals are known, and what the loops' targets expect. */
  predicate Scoped(locals: seq<Binding>, loops: seq<Loop>, entry: seq<set<nat>>, known: set<nat>) {
    && (forall k :: 0 <= k < |locals| ==> locals[k].reg in known)
    && (forall k :: 0 <= k < |loops| ==>
          && loops[k].continueTo < |entry| && loops[k].breakTo < |entry|
          && entry[loops[k].continueTo] <= known && entry[loops[k].breakTo] <= known)
  }

  /** `entry` says what each block may count on. */
  predicate Sound(s: Low, entry: seq<set<nat>>) {
    |entry| == |s.blocks| && forall j :: 0 <= j < |entry| ==> BlockFine(entry[j], s.blocks[j], entry)
  }

  predicate Avail(s: Low, entry: seq<set<nat>>) {
    Sound(s, entry) && Scoped(s.locals, s.loops, entry, Now(s, entry))
  }

  /** Further code, which knows at least as much at its end. */
  predicate Onward(s: Low, entry: seq<set<nat>>, t: Low, more: seq<set<nat>>) {
    && |entry| == |s.blocks| && Sound(t, more) && entry <= more
    && Now(s, entry) <= Now(t, more)
  }

  lemma OnwardTrans(s: Low, a: seq<set<nat>>, t: Low, b: seq<set<nat>>, u: Low, c: seq<set<nat>>)
    requires Onward(s, a, t, b) && Onward(t, b, u, c)
    ensures Onward(s, a, u, c)
  {
  }

  lemma ScopedMore(locals: seq<Binding>, loops: seq<Loop>, a: seq<set<nat>>, known: set<nat>, b: seq<set<nat>>,
      more: set<nat>)
    requires Scoped(locals, loops, a, known) && a <= b && known <= more
    ensures Scoped(locals, loops, b, more)
  {
  }

  /** Locals and loops as they were are still in order. */
  lemma Same(s: Low, a: seq<set<nat>>, t: Low, b: seq<set<nat>>)
    requires Avail(s, a) && Onward(s, a, t, b) && t.locals == s.locals && t.loops == s.loops
    ensures Avail(t, b)
  {
    hide Sound, Now;
    SoundSize(s, a);
    SoundSize(t, b);
    ScopedMore(s.locals, s.loops, a, Now(s, a), b, Now(t, b));
  }

  lemma SoundSize(s: Low, a: seq<set<nat>>)
    requires Sound(s, a)
    ensures |a| == |s.blocks|
  {
  }

  // ------------------------------------------------------------------- emission

  lemma KnownAppend(a: set<nat>, b: seq<Instr>, i: Instr)
    ensures Known(a, b + [i]) == Known(a, b) + Made(i)
  {
    assert (b + [i])[..|b|] == b;
  }

  lemma AppendFine(a: set<nat>, b: seq<Instr>, i: Instr, entry: seq<set<nat>>)
    requires BlockFine(a, b, entry) && Fine(i, Known(a, b), entry)
    ensures BlockFine(a, b + [i], entry)
  {
    hide Fine, Known;
    forall k | 0 <= k < |b + [i]| ensures Fine((b + [i])[k], Known(a, (b + [i])[..k]), entry) {
      assert (b + [i])[..k] == b[..k];
      assert b[..|b|] == b;
    }
  }

  lemma EmitSound(s: Low, entry: seq<set<nat>>, i: Instr)
    requires Sound(s, entry) && Fine(i, Now(s, entry), entry)
    ensures Onward(s, entry, Emit(s, i), entry) && Onward(s, entry, Def(s, i), entry)
    ensures Now(Emit(s, i), entry) == Now(Def(s, i), entry) == Now(s, entry) + Made(i)
  {
    hide BlockFine, Fine;
    AppendFine(entry[s.cur], s.blocks[s.cur], i, entry);
    KnownAppend(entry[s.cur], s.blocks[s.cur], i);
  }

  /** An instruction that leads nowhere. */
  lemma PlainSound(s: Low, entry: seq<set<nat>>, i: Instr)
    requires Sound(s, entry) && Reads(i, Now(s, entry)) && !IsTerminator(i)
    ensures Onward(s, entry, Emit(s, i), entry) && Onward(s, entry, Def(s, i), entry)
    ensures Now(Def(s, i), entry) == Now(Emit(s, i), entry) == Now(s, entry) + Made(i)
  {
    hide Sound, Now, Reads, Onward;
    EmitSound(s, entry, i);
  }

  lemma GrownFine(a: set<nat>, b: seq<Instr>, entry: seq<set<nat>>, x: set<nat>)
    requires BlockFine(a, b, entry)
    ensures BlockFine(a, b, entry + [x])
  {
    hide Reads, Known;
    forall k | 0 <= k < |b| ensures Fine(b[k], Known(a, b[..k]), entry + [x]) {
      assert Fine(b[k], Known(a, b[..k]), entry);
    }
  }

  /** A new block may count on anything; what leads there will have to know it. */
  lemma BlockSound(s: Low, entry: seq<set<nat>>, x: set<nat>)
    requires Sound(s, entry)
    ensures Onward(s, entry, NewBlock(s), entry + [x]) && Now(NewBlock(s), entry + [x]) == Now(s, entry)
  {
    hide BlockFine, Known;
    var t := NewBlock(s);
    forall j | 0 <= j < |t.blocks| ensures BlockFine((entry + [x])[j], t.blocks[j], entry + [x]) {
      if j < |s.blocks| {
        GrownFine(entry[j], s.blocks[j], entry, x);
      } else {
        NothingFine(x, entry + [x]);
      }
    }
  }

  lemma NothingFine(x: set<nat>, entry: seq<set<nat>>)
    ensures BlockFine(x, [], entry)
  {
  }

  /** Going on at another block: what it may count on is known there. */
  lemma PositionSound(s: Low, entry: seq<set<nat>>, b: nat)
    requires Sound(s, entry) && b < |s.blocks|
    ensures Sound(Position(s, b), entry) && entry[b] <= Now(Position(s, b), entry)
  {
  }

  // ---------------------------------------------------------------- expressions

  /** The code of an expression: what comes of it is known at the end. */
  predicate Yields(s: Low, a: seq<set<nat>>, t: Low, b: seq<set<nat>>, v: Operand) {
    Onward(s, a, t, b) && In(v, Now(t, b))
  }

  lemma InMore(v: Operand, known: set<nat>, more: set<nat>)
    requires In(v, known) && known <= more
    ensures In(v, more)
  {
  }

  lemma Stays(s: Low, entry: seq<set<nat>>, v: Operand)
    requires Sound(s, entry) && In(v, Now(s, entry))
    ensures Yields(s, entry, s, entry, v)
  {
  }

  /** One instruction that defines the next temporary. */
  lemma DefYields(s: Low, entry: seq<set<nat>>, i: Instr, t: IrTy)
    requires Sound(s, entry) && Reads(i, Now(s, entry)) && !IsTerminator(i) && Defines(i) == Some(s.nextTemp)
    ensures Yields(s, entry, Def(s, i), entry, Temp(t, s.nextTemp))
  {
    hide Sound, Now, Reads, Onward;
    PlainSound(s, entry, i);
  }

  lemma YieldsTrans(s: Low, a: seq<set<nat>>, t: Low, b: seq<set<nat>>, u: Low, c: seq<set<nat>>, v: Operand)
    requires Onward(s, a, t, b) && Yields(t, b, u, c, v)
    ensures Yields(s, a, u, c, v)
  {
    hide Sound, Now;
  }

  lemma CoerceYields(s: Low, entry: seq<set<nat>>, v: Operand, want: IrTy, from: Ty)
    requires Sound(s, entry) && In(v, Now(s, entry))
    ensures var (t, c) := CoerceTo(s, v, want, from); Yields(s, entry, t, entry, c)
  {
    hide Sound, Now, Yields, IsSigned;
    Stays(s, entry, v);
    forall op ensures Yields(s, entry, Def(s, Cast(op, s.nextTemp, v, want)), entry, Temp(want, s.nextTemp)) {
      DefYields(s, entry, Cast(op, s.nextTemp, v, want), want);
    }
  }

  lemma I1Yields(s: Low, entry: seq<set<nat>>, v: Operand)
    requires Sound(s, entry) && In(v, Now(s, entry))
    ensures var (t, c) := ToI1(s, v); Yields(s, entry, t, entry, c)
  {
    hide Sound, Now, Yields;
    Stays(s, entry, v);
    DefYields(s, entry, Icmp(PNe, s.nextTemp, v, Const(v.ty, 0)), IInt(1));
  }

  lemma FromI1Yields(s: Low, entry: seq<set<nat>>, v: Operand, want: IrTy)
    requires Sound(s, entry) && In(v, Now(s, entry))
    ensures var (t, c) := FromI1(s, v, want); Yields(s, entry, t, entry, c)
  {
    hide Sound, Now, Yields;
    Stays(s, entry, v);
    DefYields(s, entry, Cast(ZExt, s.nextTemp, v, want), want);
  }

  lemma Arrived(s: Low, a: seq<set<nat>>, t: Low, b: seq<set<nat>>, v: Operand)
    requires Yields(s, a, t, b, v)
    ensures Onward(s, a, t, b) && Sound(t, b) && In(v, Now(t, b)) && |b| == |t.blocks| && a <= b
    ensures |a| == |s.blocks| && Now(s, a) <= Now(t, b)
  {
  }

  lemma IcmpYields(s: Low, entry: seq<set<nat>>, p: Pred, l: Operand, r: Operand, want: IrTy)
    requires Sound(s, entry) && In(l, Now(s, entry)) && In(r, Now(s, entry))
    ensures var (t, v) := FromI1(Def(s, Icmp(p, s.nextTemp, l, r)), Temp(IInt(1), s.nextTemp), want);
            Yields(s, entry, t, entry, v)
  {
    hide Sound, Now, Yields, Onward, FromI1;
    var i := Icmp(p, s.nextTemp, l, r);
    var one := Temp(IInt(1), s.nextTemp);
    DefYields(s, entry, i, IInt(1));
    Arrived(s, entry, Def(s, i), entry, one);
    FromI1Yields(Def(s, i), entry, one, want);
    var (t, v) := FromI1(Def(s, i), one, want);
    YieldsTrans(s, entry, Def(s, i), entry, t, entry, v);
  }

  lemma UnaryYields(s: Low, entry: seq<set<nat>>, op: UnOp, v: Operand, t: Ty)
    requires Sound(s, entry) && In(v, Now(s, entry))
    ensures var (u, r) := FinishUnary(s, op, v, t); Yields(s, entry, u, entry, r)
  {
    hide Sound, Now, Yields, IrOf, FromI1;
    match op
    case Neg => DefYields(s, entry, Bin(ISub, s.nextTemp, Const(v.ty, 0), v), v.ty);
    case BitNot => DefYields(s, entry, Bin(IXor, s.nextTemp, v, Const(v.ty, 0xFFFF_FFFF_FFFF_FFFF)), v.ty);
    case LogNot => IcmpYields(s, entry, PEq, v, Const(v.ty, 0), IrOf(t));
  }

  lemma BalanceYields(s: Low, entry: seq<set<nat>>, l: Operand, r: Operand, lt: Ty, rt: Ty)
    requires Sound(s, entry) && In(l, Now(s, entry)) && In(r, Now(s, entry))
    ensures var Balanced(s1, l1, r1) := Balance(s, l, r, lt, rt);
            Yields(s, entry, s1, entry, l1) && Yields(s, entry, s1, entry, r1)
  {
    hide Sound, Now, Yields, Onward, CoerceTo, IsUntyped;
    Stays(s, entry, l);
    Stays(s, entry, r);
    CoerceYields(s, entry, r, l.ty, rt);
    CoerceYields(s, entry, l, r.ty, lt);
    var (t, c) := CoerceTo(s, r, l.ty, rt);
    var (u, d) := CoerceTo(s, l, r.ty, lt);
    Arrived(s, entry, t, entry, c);
    Arrived(s, entry, u, entry, d);
    YieldsMore(s, entry, t, entry, l);
    YieldsMore(s, entry, u, entry, r);
  }

  lemma YieldsMore(s: Low, a: seq<set<nat>>, t: Low, b: seq<set<nat>>, v: Operand)
    requires Onward(s, a, t, b) && In(v, Now(s, a))
    ensures Yields(s, a, t, b, v)
  {
  }

  lemma BinaryYields(s: Low, entry: seq<set<nat>>, op: BinOp, l: Operand, r: Operand, lt: Ty, rt: Ty, t: Ty)
    requires Sound(s, entry) && In(l, Now(s, entry)) && In(r, Now(s, entry))
    ensures var (u, v) := FinishBinary(s, op, l, r, lt, rt, t); Yields(s, entry, u, entry, v)
  {
    hide Sound, Now, Yields, Onward, Balance, IntPred, IntBinop, IsSigned, IrOf, FromI1;
    var Balanced(s1, l1, r1) := Balance(s, l, r, lt, rt);
    BalanceYields(s, entry, l, r, lt, rt);
    Arrived(s, entry, s1, entry, l1);
    Arrived(s, entry, s1, entry, r1);
    var (u, v) := FinishBinary(s, op, l, r, lt, rt, t);
    if IsComparison(op) {
      IcmpYields(s1, entry, IntPred(op, IsSigned(lt)), l1, r1, IrOf(t));
    } else {
      DefYields(s1, entry, Bin(IntBinop(op, IsSigned(lt)), s1.nextTemp, l1, r1), l1.ty);
    }
    YieldsTrans(s, entry, s1, entry, u, entry, v);
  }

  lemma CallYields(s: Low, entry: seq<set<nat>>, f: Fn, vs: seq<Operand>)
    requires Sound(s, entry) && forall k :: 0 <= k < |vs| ==> In(vs[k], Now(s, entry))
    ensures var (u, v) := FinishCall(s, f, vs); Yields(s, entry, u, entry, v)
  {
    hide Sound, Now, IrOf;
    if f.ret.Void? {
      PlainSound(s, entry, CallI(0, f, vs));
    } else {
      PlainSound(s, entry, CallI(s.nextTemp, f, vs));
    }
  }

  lemma FailSound(s: Low, entry: seq<set<nat>>)
    requires Sound(s, entry)
    ensures Onward(s, entry, Fail(s), entry)
  {
  }

  lemma NameYields(s: Low, entry: seq<set<nat>>, x: string, t: Ty)
    requires Avail(s, entry)
    ensures var (u, v) := LowerName(s, x, t); Yields(s, entry, u, entry, v)
  {
    hide Sound, Now, IrOf, MemberValue, Onward;
    FailSound(s, entry);
    if FindLocal(s.locals, x).Some? {
      var b := s.locals[FindLocal(s.locals, x).value];
      DefYields(s, entry, Load(s.nextTemp, IrOf(b.decl.ty), Temp(IPtr, b.reg)), IrOf(b.decl.ty));
    } else {
      Stays(s, entry, Const(IrOf(t), 0));
    }
  }

  lemma ConversionYields(s: Low, entry: seq<set<nat>>, v: Operand, from: Ty, to: Ty)
    requires Sound(s, entry) && In(v, Now(s, entry))
    ensures var (u, c) := LowerConversion(s, v, from, to); Yields(s, entry, u, entry, c)
  {
    hide Sound, Now, IrOf, CoerceTo, Onward;
    CoerceYields(s, entry, v, IrOf(to), from);
    FailSound(s, entry);
    Stays(s, entry, v);
    YieldsMore(s, entry, Fail(s), entry, v);
  }

  lemma {:induction false} ExprYields(s: Low, a: seq<set<nat>>, e: Expr) returns (b: seq<set<nat>>)
    requires Avail(s, a)
    ensures var (t, v) := LowerExpr(s, e); Yields(s, a, t, b, v)
    decreases e, 1
  {
    hide Avail, Sound, Now, Yields, Onward, FinishUnary, FinishBinary, FinishCall, LowerConversion, LowerName, IrOf;
    hide BeginLogical, BranchLogical, FinishLogical;
    AvailSound(s, a);
    b := a;
    match e
    case Int(n, t) => Stays(s, a, Const(IrOf(t), n));
    case Bool(f, t) => Stays(s, a, Const(IrOf(t), Truth(f)));
    case Name(x, t) => NameYields(s, a, x, t);
    case Unary(op, e1, t) =>
      var (s1, v) := LowerExpr(s, e1);
      b := ExprYields(s, a, e1);
      Arrived(s, a, s1, b, v);
      UnaryYields(s1, b, op, v, t);
      YieldsTrans(s, a, s1, b, LowerExpr(s, e).0, b, LowerExpr(s, e).1);
    case Conv(e1, t) =>
      var (s1, v) := LowerExpr(s, e1);
      b := ExprYields(s, a, e1);
      Arrived(s, a, s1, b, v);
      ConversionYields(s1, b, v, e1.ty, t);
      YieldsTrans(s, a, s1, b, LowerExpr(s, e).0, b, LowerExpr(s, e).1);
    case Call(f, args, t) =>
      var (s1, vs) := LowerArgs(s, f, args);
      b := ArgsYield(s, a, f, args);
      CallYields(s1, b, f, vs);
      YieldsTrans(s, a, s1, b, LowerExpr(s, e).0, b, LowerExpr(s, e).1);
    case Binary(op, l, r, t) =>
      if IsLogical(op) {
        b := LogicalYields(s, a, e);
      } else {
        b := ArithYields(s, a, e);
      }
  }

  lemma AvailSound(s: Low, a: seq<set<nat>>)
    requires Avail(s, a)
    ensures Sound(s, a) && |a| == |s.blocks|
  {
  }

  lemma {:induction false} ArithYields(s: Low, a: seq<set<nat>>, e: Expr) returns (b: seq<set<nat>>)
    requires e.Binary? && !IsLogical(e.bop) && Avail(s, a)
    ensures var (t, v) := LowerExpr(s, e); Yields(s, a, t, b, v)
    decreases e, 0
  {
    hide Avail, Sound, Now, Yields, Onward, FinishBinary;
    var (s1, lhs) := LowerExpr(s, e.lhs);
    var (s2, rhs) := LowerExpr(s1, e.rhs);
    var a1 := ExprYields(s, a, e.lhs);
    Arrived(s, a, s1, a1, lhs);
    ExprAvail(s, a, e.lhs, a1);
    b := ExprYields(s1, a1, e.rhs);
    Arrived(s1, a1, s2, b, rhs);
    InMore(lhs, Now(s1, a1), Now(s2, b));
    OnwardTrans(s, a, s1, a1, s2, b);
    BinaryYields(s2, b, e.bop, lhs, rhs, e.lhs.ty, e.rhs.ty, e.ty);
    YieldsTrans(s, a, s2, b, LowerExpr(s, e).0, b, LowerExpr(s, e).1);
  }

  lemma ExprAvail(s: Low, a: seq<set<nat>>, e: Expr, b: seq<set<nat>>)
    requires Avail(s, a) && Onward(s, a, LowerExpr(s, e).0, b)
    ensures Avail(LowerExpr(s, e).0, b)
  {
    hide Avail, Onward, LowerExpr;
    ExprShape(s, e);
    Same(s, a, LowerExpr(s, e).0, b);
  }

  lemma {:induction false} ArgsYield(s: Low, a: seq<set<nat>>, f: Fn, args: seq<Expr>) returns (b: seq<set<nat>>)
    requires Avail(s, a)
    ensures var (t, vs) := LowerArgs(s, f, args);
            Onward(s, a, t, b) && Sound(t, b) && |vs| == |args| && forall k :: 0 <= k < |vs| ==> In(vs[k], Now(t, b))
    decreases args, 0
  {
    hide Avail, Sound, Now, Yields, Onward, CoerceTo, IrOf, In;
    if args == [] {
      b := a;
      Still(s, a);
    } else {
      var k := |args| - 1;
      var (s1, vs) := LowerArgs(s, f, args[..k]);
      var (s2, v) := LowerExpr(s1, args[k]);
      var a1 := ArgsYield(s, a, f, args[..k]);
      ArgsAvail(s, a, f, args[..k], a1);
      b := ExprYields(s1, a1, args[k]);
      Arrived(s1, a1, s2, b, v);
      var (s3, c) := LowerArgs(s, f, args);
      if k < |f.params| {
        var (s4, w) := CoerceTo(s2, v, IrOf(f.params[k]), args[k].ty);
        CoerceYields(s2, b, v, IrOf(f.params[k]), args[k].ty);
        YieldsTrans(s1, a1, s2, b, s4, b, w);
        Arrived(s1, a1, s4, b, w);
      }
      OnwardTrans(s, a, s1, a1, s3, b);
      forall j | 0 <= j < k ensures In(vs[j], Now(s3, b)) {
        InMore(vs[j], Now(s1, a1), Now(s3, b));
      }
    }
  }

  lemma Still(s: Low, a: seq<set<nat>>)
    requires Avail(s, a)
    ensures Onward(s, a, s, a) && Sound(s, a)
  {
  }

  lemma ArgsAvail(s: Low, a: seq<set<nat>>, f: Fn, args: seq<Expr>, b: seq<set<nat>>)
    requires Avail(s, a) && Onward(s, a, LowerArgs(s, f, args).0, b)
    ensures Avail(LowerArgs(s, f, args).0, b)
  {
    hide Avail, Onward, LowerArgs;
    ArgsShape(s, f, args);
    Same(s, a, LowerArgs(s, f, args).0, b);
  }

  // ---------------------------------------------------------- logical operators

  lemma BeginAvail(s: Low, a: seq<set<nat>>, t: Ty) returns (b: seq<set<nat>>)
    requires Avail(s, a)
    ensures var u := BeginLogical(s, t); var n := |s.blocks|;
            && Avail(u, b) && Onward(s, a, u, b) && n + 1 < |b| && b[n] == b[n + 1] == Now(u, b)
            && s.nextTemp in Now(u, b)
  {
    hide Sound, Now, IrOf, Scoped, Onward;
    AvailSound(s, a);
    var i := Alloca(s.nextTemp, IrOf(t));
    var d := Def(s, i);
    PlainSound(s, a, i);
    var x := Now(d, a);
    OnwardSound(s, a, d, a);
    BlockSound(d, a, x);
    var a1 := a + [x];
    OnwardSound(d, a, NewBlock(d), a1);
    BlockSound(NewBlock(d), a1, x);
    b := a1 + [x];
    OnwardTrans(s, a, d, a, NewBlock(d), a1);
    OnwardTrans(s, a, NewBlock(d), a1, BeginLogical(s, t), b);
    Same(s, a, BeginLogical(s, t), b);
  }

  lemma OnwardSound(s: Low, a: seq<set<nat>>, t: Low, b: seq<set<nat>>)
    requires Onward(s, a, t, b)
    ensures Sound(t, b) && |b| == |t.blocks| && |a| == |s.blocks| && a <= b && Now(s, a) <= Now(t, b)
  {
  }

  /** A store of a coerced operand to a known slot. */
  lemma StoredSound(s: Low, a: seq<set<nat>>, v: Operand, want: IrTy, from: Ty, addr: Operand)
    requires Sound(s, a) && In(v, Now(s, a)) && In(addr, Now(s, a))
    ensures var (s1, c) := CoerceTo(s, v, want, from); Onward(s, a, Emit(s1, Store(c, addr)), a)
  {
    hide Sound, Now, Onward, CoerceTo, In;
    var (s1, c) := CoerceTo(s, v, want, from);
    CoerceYields(s, a, v, want, from);
    Arrived(s, a, s1, a, c);
    InMore(addr, Now(s, a), Now(s1, a));
    PlainSound(s1, a, Store(c, addr));
    OnwardTrans(s, a, s1, a, Emit(s1, Store(c, addr)), a);
  }

  lemma BranchSound(s: Low, a: seq<set<nat>>, op: BinOp, lhs: Operand, lt: Ty, t: Ty, slot: nat, b: nat)
    requires Sound(s, a) && In(lhs, Now(s, a)) && slot in Now(s, a) && b + 1 < |s.blocks|
    requires a[b] <= Now(s, a) && a[b + 1] <= Now(s, a)
    ensures var u := BranchLogical(s, op, lhs, lt, t, slot, b); Sound(u, a) && a[b] <= Now(u, a)
  {
    hide Sound, Now, Onward, CoerceTo, ToI1, IrOf;
    var (s1, c) := CoerceTo(s, lhs, IrOf(t), lt);
    var s2 := Emit(s1, Store(c, Temp(IPtr, slot)));
    StoredSound(s, a, lhs, IrOf(t), lt, Temp(IPtr, slot));
    OnwardSound(s, a, s2, a);
    var (s3, i1) := ToI1(s2, lhs);
    I1Yields(s2, a, lhs);
    Arrived(s2, a, s3, a, i1);
    var i := if op.LogAnd? then CondBr(i1, b, b + 1) else CondBr(i1, b + 1, b);
    EmitSound(s3, a, i);
    OnwardSound(s3, a, Emit(s3, i), a);
    PositionSound(Emit(s3, i), a, b);
  }

  lemma FinishSound(s: Low, a: seq<set<nat>>, rhs: Operand, rt: Ty, t: Ty, slot: nat, b: nat)
    requires Sound(s, a) && In(rhs, Now(s, a)) && slot in Now(s, a) && b + 1 < |s.blocks|
    requires a[b + 1] <= Now(s, a) && slot in a[b + 1]
    ensures var (u, v) := FinishLogical(s, rhs, rt, t, slot, b);
            Sound(u, a) && a[b + 1] <= Now(u, a) && In(v, Now(u, a))
  {
    hide Sound, Now, Onward, CoerceTo, IrOf;
    var (s1, c) := CoerceTo(s, rhs, IrOf(t), rt);
    var s2 := Emit(s1, Store(c, Temp(IPtr, slot)));
    StoredSound(s, a, rhs, IrOf(t), rt, Temp(IPtr, slot));
    OnwardSound(s, a, s2, a);
    EmitSound(s2, a, Br(b + 1));
    var s3 := Emit(s2, Br(b + 1));
    OnwardSound(s2, a, s3, a);
    var s4 := Position(s3, b + 1);
    PositionSound(s3, a, b + 1);
    PlainSound(s4, a, Load(s4.nextTemp, IrOf(t), Temp(IPtr, slot)));
    OnwardSound(s4, a, Def(s4, Load(s4.nextTemp, IrOf(t), Temp(IPtr, slot))), a);
  }

  lemma {:induction false} LogicalYields(s: Low, a: seq<set<nat>>, e: Expr) returns (b: seq<set<nat>>)
    requires e.Binary? && IsLogical(e.bop) && Avail(s, a)
    ensures var (t, v) := LowerExpr(s, e); Yields(s, a, t, b, v)
    decreases e, 0
  {
    hide Avail, Sound, Now, Yields, Onward, BeginLogical, BranchLogical, FinishLogical, In;
    var n, slot := |s.blocks|, s.nextTemp;
    var s0 := BeginLogical(s, e.ty);
    var a0 := BeginAvail(s, a, e.ty);
    OnwardSound(s, a, s0, a0);
    var (s1, lhs) := LowerExpr(s0, e.lhs);
    var a1 := ExprYields(s0, a0, e.lhs);
    Arrived(s0, a0, s1, a1, lhs);
    ExprShape(s0, e.lhs);
    BeginLogicalShape(s, e.ty);
    var s2 := BranchLogical(s1, e.bop, lhs, e.lhs.ty, e.ty, slot, n);
    BranchSound(s1, a1, e.bop, lhs, e.lhs.ty, e.ty, slot, n);
    BranchLogicalShape(s1, e.bop, lhs, e.lhs.ty, e.ty, slot, n);
    MiddleAvail(s0, a0, s2, a1, a1[n]);
    var (s3, rhs) := LowerExpr(s2, e.rhs);
    b := ExprYields(s2, a1, e.rhs);
    Arrived(s2, a1, s3, b, rhs);
    FinishSound(s3, b, rhs, e.rhs.ty, e.ty, slot, n);
    var (t, v) := FinishLogical(s3, rhs, e.rhs.ty, e.ty, slot, n);
    LogicalDone(s, a, s0, a0, t, b, v, n);
  }

  /** At a block that may count on what was known before. */
  lemma MiddleAvail(s: Low, a: seq<set<nat>>, t: Low, b: seq<set<nat>>, x: set<nat>)
    requires Avail(s, a) && Sound(t, b) && a <= b && Now(s, a) <= x <= Now(t, b)
    requires t.locals == s.locals && t.loops == s.loops
    ensures Avail(t, b)
  {
    hide Sound, Now;
    SoundSize(s, a);
    SoundSize(t, b);
    ScopedMore(s.locals, s.loops, a, Now(s, a), b, Now(t, b));
  }

  lemma LogicalDone(s: Low, a: seq<set<nat>>, s0: Low, a0: seq<set<nat>>, t: Low, b: seq<set<nat>>, v: Operand, n: nat)
    requires Onward(s, a, s0, a0) && Sound(t, b) && a0 <= b && n + 1 < |a0| && a0[n + 1] == Now(s0, a0)
    requires b[n + 1] <= Now(t, b) && In(v, Now(t, b))
    ensures Yields(s, a, t, b, v)
  {
    hide Sound, Now;
  }

  // ----------------------------------------------------------------- statements

  /** Every `else` is a block or another `if`, as the parser builds them. */
  predicate ElsesOk(st: Stmt)
    decreases st
  {
    match st
    case Block(ss) => AllElsesOk(ss)
    case If(_, thn, els) =>
      AllElsesOk(thn) && (els.Some? ==> (els.value.Block? || els.value.If?) && ElsesOk(els.value))
    case While(_, body) => AllElsesOk(body)
    case Match(_, arms) => forall k :: 0 <= k < |arms| ==> ElsesOk(arms[k].body)
    case _ => true
  }

  predicate AllElsesOk(ss: seq<Stmt>)
    decreases ss
  {
    forall k :: 0 <= k < |ss| ==> ElsesOk(ss[k])
  }

  lemma {:induction false} ElsesOkShape(st: Stmt)
    requires ElsesOk(st)
    ensures ElseOk(st)
    decreases st
  {
    if st.If? && st.els.Some? && st.els.value.If? {
      ElsesOkShape(st.els.value);
    }
  }

  /** What lowering a statement leaves behind. */
  predicate Follows(s: Low, a: seq<set<nat>>, t: Low, b: seq<set<nat>>) {
    Avail(t, b) && Onward(s, a, t, b)
  }

  lemma FollowsOut(s: Low, a: seq<set<nat>>, t: Low, b: seq<set<nat>>)
    requires Follows(s, a, t, b)
    ensures Avail(t, b) && Onward(s, a, t, b) && |b| == |t.blocks| && |a| == |s.blocks| && a <= b
    ensures Sound(t, b) && Now(s, a) <= Now(t, b)
  {
  }

  lemma FollowsTrans(s: Low, a: seq<set<nat>>, t: Low, b: seq<set<nat>>, u: Low, c: seq<set<nat>>)
    requires Follows(s, a, t, b) && Follows(t, b, u, c)
    ensures Follows(s, a, u, c)
  {
    hide Avail, Sound, Now;
    OnwardTrans(s, a, t, b, u, c);
  }

  lemma FollowsSame(s: Low, a: seq<set<nat>>, t: Low, b: seq<set<nat>>)
    requires Avail(s, a) && Onward(s, a, t, b) && t.locals == s.locals && t.loops == s.loops
    ensures Follows(s, a, t, b)
  {
    hide Avail, Onward;
    Same(s, a, t, b);
  }

  /** An expression made as wide as its destination. */
  lemma WidenedYields(s: Low, a: seq<set<nat>>, e: Expr, want: IrTy) returns (b: seq<set<nat>>)
    requires Avail(s, a)
    ensures var (s1, v) := LowerExpr(s, e); var (s2, c) := CoerceTo(s1, v, want, e.ty); Yields(s, a, s2, b, c)
  {
    hide Avail, Sound, Now, Yields, Onward, CoerceTo, LowerExpr;
    var (s1, v) := LowerExpr(s, e);
    b := ExprYields(s, a, e);
    Arrived(s, a, s1, b, v);
    CoerceYields(s1, b, v, want, e.ty);
    var (s2, c) := CoerceTo(s1, v, want, e.ty);
    YieldsTrans(s, a, s1, b, s2, b, c);
  }

  /** ...and stored. */
  lemma WidenedStored(s: Low, a: seq<set<nat>>, e: Expr, want: IrTy, addr: Operand) returns (b: seq<set<nat>>)
    requires Avail(s, a) && In(addr, Now(s, a))
    ensures var (s1, v) := LowerExpr(s, e); var (s2, c) := CoerceTo(s1, v, want, e.ty);
            Onward(s, a, Emit(s2, Store(c, addr)), b)
  {
    hide Avail, Sound, Now, Yields, Onward, CoerceTo, LowerExpr, In;
    var (s1, v) := LowerExpr(s, e);
    var (s2, c) := CoerceTo(s1, v, want, e.ty);
    b := WidenedYields(s, a, e, want);
    Arrived(s, a, s2, b, c);
    InMore(addr, Now(s, a), Now(s2, b));
    PlainSound(s2, b, Store(c, addr));
    OnwardTrans(s, a, s2, b, Emit(s2, Store(c, addr)), b);
  }

  lemma VarFollows(s: Low, a: seq<set<nat>>, d: Decl, init: Option<Expr>) returns (b: seq<set<nat>>)
    requires Avail(s, a)
    ensures Follows(s, a, LowerVar(s, d, init), b)
  {
    hide Avail, Sound, Now, Onward, CoerceTo, LowerExpr, IrOf;
    var t := IrOf(d.ty);
    var i := Alloca(s.nextTemp, t);
    var slot := Temp(IPtr, s.nextTemp);
    var s1 := Def(s, i);
    AvailSound(s, a);
    PlainSound(s, a, i);
    OnwardSound(s, a, s1, a);
    Same(s, a, s1, a);
    var u: Low;
    if init.Some? {
      var (s2, v) := LowerExpr(s1, init.value);
      var (s3, c) := CoerceTo(s2, v, t, init.value.ty);
      b := WidenedStored(s1, a, init.value, t, slot);
      u := Emit(s3, Store(c, slot));
    } else {
      b := a;
      PlainSound(s1, a, Store(Const(t, 0), slot));
      u := Emit(s1, Store(Const(t, 0), slot));
    }
    OnwardSound(s1, a, u, b);
    OnwardTrans(s, a, s1, a, u, b);
    VarShape(s, d, init);
    PushAvail(s, a, u, b, Binding(d, s.nextTemp));
    assert LowerVar(s, d, init) == u.(locals := u.locals + [Binding(d, s.nextTemp)]);
  }

  lemma PushAvail(s: Low, a: seq<set<nat>>, t: Low, b: seq<set<nat>>, x: Binding)
    requires Avail(s, a) && Onward(s, a, t, b) && t.locals + [x] == s.locals + [x] && t.loops == s.loops
    requires x.reg in Now(t, b)
    ensures Follows(s, a, t.(locals := t.locals + [x]), b)
  {
    hide BlockFine, Known;
    var u := t.(locals := t.locals + [x]);
    assert t.locals == (t.locals + [x])[..|t.locals|];
    assert s.locals == (s.locals + [x])[..|s.locals|];
    assert Now(u, b) == Now(t, b);
    ScopedMore(s.locals, s.loops, a, Now(s, a), b, Now(u, b));
  }

  lemma AddrIn(s: Low, a: seq<set<nat>>, e: Expr)
    requires Avail(s, a)
    ensures var (s1, addr) := LowerAddr(s, e); Avail(s1, a) && Onward(s, a, s1, a) && In(addr, Now(s1, a))
    decreases e
  {
    hide BlockFine, Known;
    AddrShape(s, e);
    AddrKnown(s, a, e);
    var s1 := LowerAddr(s, e).0;
    assert Now(s1, a) == Now(s, a);
  }

  lemma AddrKnown(s: Low, a: seq<set<nat>>, e: Expr)
    requires Avail(s, a)
    ensures In(LowerAddr(s, e).1, Now(s, a))
    decreases e
  {
    hide Sound, Now;
    match e
    case Conv(e1, _) => AddrKnown(s, a, e1);
    case _ =>
  }

  lemma AssignFollows(s: Low, a: seq<set<nat>>, target: Expr, op: Option<BinOp>, rhs: Expr) returns (b: seq<set<nat>>)
    requires Avail(s, a)
    ensures Follows(s, a, LowerAssign(s, target, op, rhs), b)
  {
    hide Avail, Sound, Now, Onward, CoerceTo, LowerExpr, IrOf, LowerAddr, IntBinop, In, LowerAssign;
    var (s1, addr) := LowerAddr(s, target);
    AddrIn(s, a, target);
    AssignShape(s, target, op, rhs);
    var u := LowerAssign(s, target, op, rhs);
    if op.None? {
      AssignPlain(s, target, rhs);
      b := WidenedStored(s1, a, rhs, IrOf(target.ty), addr);
    } else {
      b := CompoundStored(s1, a, addr, target.ty, op.value, rhs);
      AssignCompound(s, target, op.value, rhs);
    }
    OnwardTrans(s, a, s1, a, u, b);
    FollowsSame(s, a, u, b);
  }

  lemma AssignPlain(s: Low, target: Expr, rhs: Expr)
    ensures var (s1, addr) := LowerAddr(s, target);
            var (s2, v) := LowerExpr(s1, rhs); var (s3, c) := CoerceTo(s2, v, IrOf(target.ty), rhs.ty);
            LowerAssign(s, target, None, rhs) == Emit(s3, Store(c, addr))
  {
    hide LowerAddr, LowerExpr, CoerceTo, IrOf;
  }

  /** What `op=` computes and stores, once the address is known. */
  function CompoundCode(s: Low, addr: Operand, t: Ty, op: BinOp, rhs: Expr): Low {
    var cur := Temp(IrOf(t), s.nextTemp);
    var (s2, v) := LowerExpr(Def(s, Load(s.nextTemp, IrOf(t), addr)), rhs);
    var (s3, c) := CoerceTo(s2, v, IrOf(t), rhs.ty);
    Emit(Def(s3, Bin(IntBinop(op, IsSigned(t)), s3.nextTemp, cur, c)), Store(Temp(IrOf(t), s3.nextTemp), addr))
  }

  lemma AssignCompound(s: Low, target: Expr, op: BinOp, rhs: Expr)
    ensures var (s1, addr) := LowerAddr(s, target);
            LowerAssign(s, target, Some(op), rhs) == CompoundCode(s1, addr, target.ty, op, rhs)
  {
    hide LowerAddr, LowerExpr, CoerceTo, IrOf, IntBinop;
  }

  lemma CompoundStored(s: Low, a: seq<set<nat>>, addr: Operand, t: Ty, op: BinOp, rhs: Expr) returns (b: seq<set<nat>>)
    requires Avail(s, a) && In(addr, Now(s, a))
    ensures Onward(s, a, CompoundCode(s, addr, t, op, rhs), b)
  {
    hide Avail, Sound, Now, Onward, CoerceTo, LowerExpr, IrOf, IntBinop, Yields;
    var cur := Temp(IrOf(t), s.nextTemp);
    var load := Load(s.nextTemp, IrOf(t), addr);
    var s1 := Def(s, load);
    AvailSound(s, a);
    DefYields(s, a, load, IrOf(t));
    Arrived(s, a, s1, a, cur);
    Same(s, a, s1, a);
    var (s2, v) := LowerExpr(s1, rhs);
    var (s3, c) := CoerceTo(s2, v, IrOf(t), rhs.ty);
    b := WidenedYields(s1, a, rhs, IrOf(t));
    Arrived(s1, a, s3, b, c);
    InMore(cur, Now(s1, a), Now(s3, b));
    var i := Bin(IntBinop(op, IsSigned(t)), s3.nextTemp, cur, c);
    var r := Temp(IrOf(t), s3.nextTemp);
    DefYields(s3, b, i, IrOf(t));
    Arrived(s3, b, Def(s3, i), b, r);
    InMore(addr, Now(s, a), Now(Def(s3, i), b));
    PlainSound(Def(s3, i), b, Store(r, addr));
    OnwardTrans(s, a, s1, a, s3, b);
    OnwardTrans(s, a, s3, b, Def(s3, i), b);
    OnwardTrans(s, a, Def(s3, i), b, Emit(Def(s3, i), Store(r, addr)), b);
  }

  lemma ReturnFollows(s: Low, a: seq<set<nat>>, result: Option<Expr>, ret: Ty) returns (b: seq<set<nat>>)
    requires Avail(s, a)
    ensures Follows(s, a, LowerReturn(s, result, ret), b)
  {
    hide Avail, Sound, Now, Onward, CoerceTo, LowerExpr, IrOf;
    ReturnShape(s, result, ret);
    AvailSound(s, a);
    if result.None? {
      b := a;
      EmitSound(s, a, Ret(None));
    } else {
      var (s1, v) := LowerExpr(s, result.value);
      var (s2, c) := CoerceTo(s1, v, IrOf(ret), result.value.ty);
      b := WidenedYields(s, a, result.value, IrOf(ret));
      Arrived(s, a, s2, b, c);
      EmitSound(s2, b, Ret(Some(c)));
      OnwardTrans(s, a, s2, b, Emit(s2, Ret(Some(c))), b);
    }
    FollowsSame(s, a, LowerReturn(s, result, ret), b);
  }

  /** A condition that branches to two blocks which count on no more than is known
      before it. */
  lemma TestFollows(s: Low, a: seq<set<nat>>, cond: Expr, yes: nat, no: nat) returns (b: seq<set<nat>>)
    requires Avail(s, a) && yes < |a| && no < |a| && a[yes] <= Now(s, a) && a[no] <= Now(s, a)
    ensures Follows(s, a, LowerTest(s, cond, yes, no), b)
  {
    hide Avail, Sound, Now, Onward, Yields, ToI1, LowerExpr;
    var (s1, v) := LowerExpr(s, cond);
    b := ExprYields(s, a, cond);
    Arrived(s, a, s1, b, v);
    var (s2, i1) := ToI1(s1, v);
    I1Yields(s1, b, v);
    Arrived(s1, b, s2, b, i1);
    EmitSound(s2, b, CondBr(i1, yes, no));
    OnwardTrans(s, a, s1, b, s2, b);
    OnwardTrans(s, a, s2, b, Emit(s2, CondBr(i1, yes, no)), b);
    TestShape(s, cond, yes, no);
    FollowsSame(s, a, LowerTest(s, cond, yes, no), b);
  }

  lemma JumpFollows(s: Low, a: seq<set<nat>>, d: nat)
    requires Avail(s, a) && d < |a| && a[d] <= Now(s, a)
    ensures Follows(s, a, Emit(s, Br(d)), a)
  {
    hide Avail, Sound, Now, Onward;
    AvailSound(s, a);
    EmitSound(s, a, Br(d));
    FollowsSame(s, a, Emit(s, Br(d)), a);
  }

  lemma JoinFollows(s: Low, a: seq<set<nat>>, d: nat)
    requires Avail(s, a) && d < |a| && a[d] <= Now(s, a)
    ensures Follows(s, a, Join(s, d), a)
  {
    hide Avail, Sound, Now, Onward;
    JumpFollows(s, a, d);
    Still(s, a);
    FollowsSame(s, a, s, a);
  }

  lemma LoopTargets(s: Low, a: seq<set<nat>>)
    requires Avail(s, a) && s.loops != []
    ensures var l := s.loops[|s.loops| - 1];
            && l.breakTo < |a| && l.continueTo < |a|
            && a[l.breakTo] <= Now(s, a) && a[l.continueTo] <= Now(s, a)
  {
    hide Sound, Now;
  }

  lemma EnsureOpenFollows(s: Low, a: seq<set<nat>>) returns (b: seq<set<nat>>)
    requires Avail(s, a)
    ensures Follows(s, a, EnsureOpen(s), b)
  {
    hide Avail, Sound, Now, Onward;
    AvailSound(s, a);
    if IsOpen(s) {
      b := a;
      Still(s, a);
    } else {
      b := NewAvail(s, a);
      FollowsOut(s, a, NewBlock(s), b);
      Elsewhere(s, a, NewBlock(s), b, |s.blocks|);
    }
    FollowsSame(s, a, EnsureOpen(s), b);
  }

  /** A block that counts on all that is known where it is made. */
  lemma NewAvail(s: Low, a: seq<set<nat>>) returns (b: seq<set<nat>>)
    requires Avail(s, a)
    ensures Follows(s, a, NewBlock(s), b) && |b| == |a| + 1 && b[|a|] == Now(s, a) == Now(NewBlock(s), b)
  {
    hide Sound, Now, Onward;
    AvailSound(s, a);
    b := a + [Now(s, a)];
    BlockSound(s, a, Now(s, a));
    FollowsSame(s, a, NewBlock(s), b);
  }

  /** Going on at a block that counts on what was known before. */
  lemma Elsewhere(s: Low, a: seq<set<nat>>, t: Low, b: seq<set<nat>>, d: nat)
    requires |a| == |s.blocks| && Sound(t, b) && a <= b && d < |b| && Now(s, a) <= b[d]
    ensures Onward(s, a, Position(t, d), b)
  {
    hide BlockFine, Known;
    PositionSound(t, b, d);
  }

  lemma {:induction false} StmtFollows(s: Low, a: seq<set<nat>>, st: Stmt, ret: Ty) returns (b: seq<set<nat>>)
    requires Avail(s, a) && ElsesOk(st)
    ensures Follows(s, a, LowerStmt(s, st, ret), b)
    decreases st, 2
  {
    hide Avail, Follows, EnsureOpen, LowerOpen, ElsesOk;
    var a1 := EnsureOpenFollows(s, a);
    FollowsOut(s, a, EnsureOpen(s), a1);
    b := OpenFollows(EnsureOpen(s), a1, st, ret);
    FollowsTrans(s, a, EnsureOpen(s), a1, LowerStmt(s, st, ret), b);
  }

  lemma {:induction false} OpenFollows(s: Low, a: seq<set<nat>>, st: Stmt, ret: Ty) returns (b: seq<set<nat>>)
    requires Avail(s, a) && ElsesOk(st)
    ensures Follows(s, a, LowerOpen(s, st, ret), b)
    decreases st, 1
  {
    hide Avail, Follows, Onward, Sound, Now, LowerVar, LowerAssign, LowerReturn, LowerIf, LowerWhile, LowerMatch;
    hide LowerBlock, LowerExpr, Yields;
    b := a;
    Still(s, a);
    match st
    case Block(ss) => b := BlockFollows(s, a, ss, ret);
    case Var(d, init) => b := VarFollows(s, a, d, init);
    case Assign(target, op, rhs) => b := AssignFollows(s, a, target, op, rhs);
    case ExprStmt(e) => b := ExprFollows(s, a, e);
    case Empty => FollowsSame(s, a, s, a);
    case Return(e) => b := ReturnFollows(s, a, e, ret);
    case Break => LeaveFollows(s, a, true);
    case Continue => LeaveFollows(s, a, false);
    case If(_, _, _) => b := IfFollows(s, a, st, ret);
    case While(_, _) => b := WhileFollows(s, a, st, ret);
    case Match(_, _) => b := MatchFollows(s, a, st, ret);
  }

  lemma ExprFollows(s: Low, a: seq<set<nat>>, e: Expr) returns (b: seq<set<nat>>)
    requires Avail(s, a)
    ensures Follows(s, a, LowerExpr(s, e).0, b)
  {
    hide Avail, Onward, LowerExpr;
    b := ExprYields(s, a, e);
    ExprShape(s, e);
    FollowsSame(s, a, LowerExpr(s, e).0, b);
  }

  lemma LeaveFollows(s: Low, a: seq<set<nat>>, breaks: bool)
    requires Avail(s, a)
    ensures s.loops == [] ==> Follows(s, a, Fail(s), a)
    ensures s.loops != [] ==> var l := s.loops[|s.loops| - 1];
                              Follows(s, a, Emit(s, Br(if breaks then l.breakTo else l.continueTo)), a)
  {
    hide Avail, Follows, Onward, Sound, Now;
    AvailSound(s, a);
    if s.loops == [] {
      FailSound(s, a);
      FollowsSame(s, a, Fail(s), a);
    } else {
      LoopTargets(s, a);
      var l := s.loops[|s.loops| - 1];
      JumpFollows(s, a, if breaks then l.breakTo else l.continueTo);
    }
  }

  lemma {:induction false} BlockFollows(s: Low, a: seq<set<nat>>, ss: seq<Stmt>, ret: Ty) returns (b: seq<set<nat>>)
    requires Avail(s, a) && AllElsesOk(ss)
    ensures Follows(s, a, LowerBlock(s, ss, ret), b)
    decreases ss, 1
  {
    hide Avail, Follows, LowerSeq, AllElsesOk;
    b := SeqFollows(s, a, ss, ret);
    var s1 := LowerSeq(s, ss, ret);
    FollowsOut(s, a, s1, b);
    BlockShapes(s, ss, ret);
    SeqShapes(s, ss, ret);
    Relocal(s, a, s1, b, LowerBlock(s, ss, ret));
  }

  lemma Relocal(s: Low, a: seq<set<nat>>, t: Low, b: seq<set<nat>>, u: Low)
    requires Avail(s, a) && Onward(s, a, t, b) && u.locals == s.locals && u.loops == s.loops
    requires u.blocks == t.blocks && u.cur == t.cur
    ensures Follows(s, a, u, b)
  {
    hide BlockFine, Known;
    assert Now(u, b) == Now(t, b);
    ScopedMore(s.locals, s.loops, a, Now(s, a), b, Now(u, b));
  }

  lemma {:induction false} SeqFollows(s: Low, a: seq<set<nat>>, ss: seq<Stmt>, ret: Ty) returns (b: seq<set<nat>>)
    requires Avail(s, a) && AllElsesOk(ss)
    ensures Follows(s, a, LowerSeq(s, ss, ret), b)
    decreases ss, 0
  {
    hide Avail, Follows, LowerStmt, ElsesOk, Onward;
    if ss == [] {
      b := a;
      Still(s, a);
      FollowsSame(s, a, s, a);
    } else {
      var k := |ss| - 1;
      var s1 := LowerSeq(s, ss[..k], ret);
      var a1 := SeqFollows(s, a, ss[..k], ret);
      FollowsOut(s, a, s1, a1);
      b := StmtFollows(s1, a1, ss[k], ret);
      FollowsTrans(s, a, s1, a1, LowerSeq(s, ss, ret), b);
    }
  }

  // -------------------------------------------------------------- if and while

  /** The blocks of an `if` count on what is known before its condition. */
  lemma BlocksFollow(s: Low, a: seq<set<nat>>, hasElse: bool) returns (b: seq<set<nat>>)
    requires Avail(s, a)
    ensures var t := IfBlocks(s, hasElse); var n := |s.blocks|;
            && Follows(s, a, t, b) && Now(t, b) == Now(s, a) && n + (if hasElse then 3 else 2) == |b|
            && forall k :: n <= k < |b| ==> b[k] == Now(s, a)
  {
    hide Avail, Follows, Now;
    var s1, s2 := NewBlock(s), NewBlock(NewBlock(s));
    var a1 := NewAvail(s, a);
    FollowsOut(s, a, s1, a1);
    var a2 := NewAvail(s1, a1);
    FollowsOut(s1, a1, s2, a2);
    FollowsTrans(s, a, s1, a1, s2, a2);
    b := a2;
    if hasElse {
      b := NewAvail(s2, a2);
      FollowsOut(s2, a2, NewBlock(s2), b);
      FollowsTrans(s, a, s2, a2, NewBlock(s2), b);
    }
  }

  /** A branch in its own block `d`, then a jump to `end`; both count on what is
      known at `s`. */
  lemma {:induction false} BranchFollows(s: Low, a: seq<set<nat>>, t: Low, b: seq<set<nat>>, d: nat, end: nat,
      ss: seq<Stmt>, ret: Ty)
    returns (c: seq<set<nat>>)
    requires Avail(s, a) && Sound(t, b) && a <= b && t.locals == s.locals && t.loops == s.loops && AllElsesOk(ss)
    requires d < |b| && end < |b| && b[d] == Now(s, a) && b[end] == Now(s, a)
    ensures var u := Join(LowerBlock(Position(t, d), ss, ret), end);
            Sound(u, c) && b <= c && u.locals == s.locals && u.loops == s.loops
    decreases ss, 2
  {
    hide Avail, Sound, Follows, Onward, Now, LowerBlock, Join, AllElsesOk;
    SoundSize(t, b);
    var p := Position(t, d);
    AtBlock(s, a, t, b, d);
    c := BlockFollows(p, b, ss, ret);
    var body := LowerBlock(p, ss, ret);
    FollowsOut(p, b, body, c);
    BlockShapes(p, ss, ret);
    JoinFollows(body, c, end);
    FollowsOut(body, c, Join(body, end), c);
    JoinShape(body, end);
  }

  lemma AtBlock(s: Low, a: seq<set<nat>>, t: Low, b: seq<set<nat>>, d: nat)
    requires Avail(s, a) && Sound(t, b) && a <= b && t.locals == s.locals && t.loops == s.loops
    requires d < |b| && Now(s, a) <= b[d]
    ensures Avail(Position(t, d), b) && Onward(s, a, Position(t, d), b) && |b| == |t.blocks|
    ensures b[d] <= Now(Position(t, d), b)
  {
    hide Sound, Now;
    SoundSize(t, b);
    PositionSound(t, b, d);
    AvailSound(s, a);
    Elsewhere(s, a, t, b, d);
    Same(s, a, Position(t, d), b);
  }

  lemma {:induction false} IfFollows(s: Low, a: seq<set<nat>>, st: Stmt, ret: Ty) returns (b: seq<set<nat>>)
    requires st.If? && Avail(s, a) && ElsesOk(st)
    ensures Follows(s, a, LowerIf(s, st, ret), b)
    decreases st, 0
  {
    hide Avail, Sound, Follows, Onward, Now, LowerBlock, LowerStmt, Join, LowerTest, IfBlocks, AllElsesOk;
    var n, hasElse := |s.blocks|, st.els.Some?;
    var end := if hasElse then n + 2 else n + 1;
    var s0 := IfBlocks(s, hasElse);
    var a0 := BlocksFollow(s, a, hasElse);
    FollowsOut(s, a, s0, a0);
    var t := LowerTest(s0, st.cond, n, n + 1);
    var a1 := TestFollows(s0, a0, st.cond, n, n + 1);
    FollowsOut(s0, a0, t, a1);
    TestShape(s0, st.cond, n, n + 1);
    assert t.locals == s.locals && t.loops == s.loops by { BlocksShape(s, hasElse); }
    b := BranchFollows(s, a, t, a1, n, end, st.thn, ret);
    var u := Join(LowerBlock(Position(t, n), st.thn, ret), end);
    assert b[n + 1] == Now(s, a) && b[end] == Now(s, a);
    SoundSize(u, b);
    if hasElse {
      var c := ElseFollows(s, a, u, b, n + 1, end, st, ret);
      var w := Join(LowerStmt(Position(u, n + 1), st.els.value, ret), end);
      SoundSize(w, c);
      b := c;
      AtBlock(s, a, w, c, end);
    } else {
      AtBlock(s, a, u, b, end);
    }
    assert LowerIf(s, st, ret).cur == end;
    FollowsIntro(s, a, LowerIf(s, st, ret), b);
  }

  lemma FollowsIntro(s: Low, a: seq<set<nat>>, t: Low, b: seq<set<nat>>)
    requires Avail(t, b) && Onward(s, a, t, b)
    ensures Follows(s, a, t, b)
  {
  }

  lemma BlocksShape(s: Low, hasElse: bool)
    ensures IfBlocks(s, hasElse).locals == s.locals && IfBlocks(s, hasElse).loops == s.loops
  {
  }

  lemma {:induction false} ElseFollows(s: Low, a: seq<set<nat>>, t: Low, b: seq<set<nat>>, d: nat, end: nat, st: Stmt,
      ret: Ty)
    returns (c: seq<set<nat>>)
    requires st.If? && st.els.Some? && ElsesOk(st)
    requires Avail(s, a) && Sound(t, b) && a <= b && t.locals == s.locals && t.loops == s.loops
    requires d < |b| && end < |b| && b[d] == Now(s, a) && b[end] == Now(s, a)
    ensures d < |t.blocks|
    ensures var u := Join(LowerStmt(Position(t, d), st.els.value, ret), end);
            Sound(u, c) && b <= c && u.locals == s.locals && u.loops == s.loops
    decreases st.els.value, 3
  {
    hide Avail, Sound, Follows, Onward, Now, LowerStmt, Join, AllElsesOk;
    SoundSize(t, b);
    var p := Position(t, d);
    AtBlock(s, a, t, b, d);
    c := StmtFollows(p, b, st.els.value, ret);
    var other := LowerStmt(p, st.els.value, ret);
    FollowsOut(p, b, other, c);
    StmtShapes(p, st.els.value, ret);
    ElsesOkShape(st.els.value);
    JoinFollows(other, c, end);
    FollowsOut(other, c, Join(other, end), c);
    JoinShape(other, end);
  }

  /** Into the body of a `while`: the loop's targets count on what is known before
      it. */
  lemma EnterFollows(s: Low, a: seq<set<nat>>, cond: Expr) returns (b: seq<set<nat>>)
    requires Avail(s, a)
    ensures var t := EnterWhile(s, cond); var n := |s.blocks|;
            && Avail(t, b) && a <= b && n + 2 < |b| && b[n] == b[n + 2] == Now(s, a) && Now(s, a) <= Now(t, b)
  {
    hide Avail, Sound, Follows, Onward, Now, LowerTest;
    var n := |s.blocks|;
    var s0 := NewBlock(NewBlock(NewBlock(s)));
    var a0 := BlocksFollow(s, a, true);
    FollowsOut(s, a, s0, a0);
    JumpFollows(s0, a0, n);
    var s1 := Emit(s0, Br(n));
    FollowsOut(s0, a0, s1, a0);
    AtBlock(s, a, s1, a0, n);
    var p := Position(s1, n);
    b := TestFollows(p, a0, cond, n + 1, n + 2);
    var t := LowerTest(p, cond, n + 1, n + 2);
    FollowsOut(p, a0, t, b);
    TestShape(p, cond, n + 1, n + 2);
    AtBlock(s, a, t, b, n + 1);
    PushLoop(Position(t, n + 1), b, Loop(n, n + 2));
    assert EnterWhile(s, cond) == Position(t, n + 1).(loops := t.loops + [Loop(n, n + 2)]);
  }

  lemma PushLoop(s: Low, a: seq<set<nat>>, l: Loop)
    requires Avail(s, a) && l.continueTo < |a| && l.breakTo < |a|
    requires a[l.continueTo] <= Now(s, a) && a[l.breakTo] <= Now(s, a)
    ensures var t := s.(loops := s.loops + [l]); Avail(t, a) && Now(t, a) == Now(s, a)
  {
    hide BlockFine, Known;
    var t := s.(loops := s.loops + [l]);
    assert Now(t, a) == Now(s, a);
  }

  lemma {:induction false} WhileFollows(s: Low, a: seq<set<nat>>, st: Stmt, ret: Ty) returns (b: seq<set<nat>>)
    requires st.While? && Avail(s, a) && ElsesOk(st)
    ensures Follows(s, a, LowerWhile(s, st, ret), b)
    decreases st, 0
  {
    hide Avail, Sound, Follows, Onward, Now, LowerBlock, Join, EnterWhile, AllElsesOk;
    var n := |s.blocks|;
    var t := EnterWhile(s, st.cond);
    var a1 := EnterFollows(s, a, st.cond);
    EnterWhileShape(s, st.cond);
    b := BlockFollows(t, a1, st.body, ret);
    var body := LowerBlock(t, st.body, ret);
    FollowsOut(t, a1, body, b);
    BlockShapes(t, st.body, ret);
    JoinFollows(body, b, n);
    var u := Join(body, n);
    FollowsOut(body, b, u, b);
    JoinShape(body, n);
    assert Cut(u.loops, |u.loops| - 1) == s.loops;
    Unloop(u, b, s.loops);
    AtBlock(s, a, u.(loops := s.loops), b, n + 2);
    FollowsIntro(s, a, LowerWhile(s, st, ret), b);
  }

  lemma Unloop(s: Low, a: seq<set<nat>>, loops: seq<Loop>)
    requires Sound(s, a)
    ensures Sound(s.(loops := loops), a)
  {
  }

  // ---------------------------------------------------------------------- match

  lemma {:induction false} MatchFollows(s: Low, a: seq<set<nat>>, st: Stmt, ret: Ty) returns (b: seq<set<nat>>)
    requires st.Match? && Avail(s, a) && ElsesOk(st)
    ensures Follows(s, a, LowerMatch(s, st, ret), b)
    decreases st, 0
  {
    hide Avail, Sound, Follows, Onward, Now, LowerArms, LowerExpr, Yields, In;
    var (s1, v) := LowerExpr(s, st.scrutinee);
    var a1 := ExprYields(s, a, st.scrutinee);
    Arrived(s, a, s1, a1, v);
    ExprAvail(s, a, st.scrutinee, a1);
    ExprShape(s, st.scrutinee);
    var end := |s1.blocks|;
    var s0 := NewBlock(s1);
    var a0 := NewAvail(s1, a1);
    FollowsOut(s1, a1, s0, a0);
    var (s2, wild) := LowerArms(s0, st.arms, v, end, ret);
    b := ArmsFollow(s0, a0, st.arms, v, end, ret);
    FollowsOut(s0, a0, s2, b);
    ArmsShapes(s0, st.arms, v, end, ret);
    var jump := if wild.Some? then wild.value else end;
    JumpFollows(s2, b, jump);
    FollowsOut(s2, b, Emit(s2, Br(jump)), b);
    AtBlock(s, a, Emit(s2, Br(jump)), b, end);
    FollowsIntro(s, a, LowerMatch(s, st, ret), b);
  }

  lemma {:induction false} ArmsFollow(s: Low, a: seq<set<nat>>, arms: seq<Arm>, v: Operand, end: nat, ret: Ty)
    returns (b: seq<set<nat>>)
    requires Avail(s, a) && end < |a| && a[end] <= Now(s, a) && In(v, Now(s, a))
    requires forall k :: 0 <= k < |arms| ==> ElsesOk(arms[k].body)
    ensures var (t, wild) := LowerArms(s, arms, v, end, ret);
            Follows(s, a, t, b) && (wild.Some? ==> wild.value < |b| && b[wild.value] <= Now(t, b))
    decreases arms, 0
  {
    hide Avail, Sound, Follows, Onward, Now, LowerArm, In, ElsesOk;
    if arms == [] {
      b := a;
      Still(s, a);
      FollowsSame(s, a, s, a);
    } else {
      var k := |arms| - 1;
      var (s1, wild) := LowerArms(s, arms[..k], v, end, ret);
      var a1 := ArmsFollow(s, a, arms[..k], v, end, ret);
      FollowsOut(s, a, s1, a1);
      InMore(v, Now(s, a), Now(s1, a1));
      b := ArmFollows(s1, a1, arms[k], v, end, ret);
      var t := LowerArm(s1, arms[k], v, end, ret);
      FollowsOut(s1, a1, t, b);
      FollowsTrans(s, a, s1, a1, t, b);
    }
  }

  lemma {:induction false} ArmFollows(s: Low, a: seq<set<nat>>, arm: Arm, v: Operand, end: nat, ret: Ty)
    returns (b: seq<set<nat>>)
    requires Avail(s, a) && end < |a| && a[end] <= Now(s, a) && In(v, Now(s, a)) && ElsesOk(arm.body)
    ensures Follows(s, a, LowerArm(s, arm, v, end, ret), b) && |s.blocks| < |b| && b[|s.blocks|] == Now(s, a)
    decreases arm, 0
  {
    hide Avail, Sound, Follows, Onward, Now, LowerStmt, LowerLabels, Join, HasWildcard, In, ElsesOk;
    var n := |s.blocks|;
    var s1 := NewBlock(s);
    var a1 := NewAvail(s, a);
    FollowsOut(s, a, s1, a1);
    var s2 := if HasWildcard(arm.labels) then s1 else LowerLabels(s1, arm.labels, v, n);
    var a2 := ChainFollows(s1, a1, arm, v, n);
    FollowsOut(s1, a1, s2, a2);
    ChainFrame(s1, arm, v, n);
    b := ArmBodyFollows(s, a, s2, a2, arm.body, n, end, ret);
    var u := Join(LowerStmt(Position(s2, n), arm.body, ret), end);
    BodyFrame(s2, arm.body, n, end, ret);
    OnwardTrans(s, a, s1, a1, s2, a2);
    BackFollows(s, a, s2, a2, u, b);
    assert LowerArm(s, arm, v, end, ret) == Position(u.(locals := Cut(u.locals, |s2.locals|)), s2.cur);
  }

  lemma {:induction false} ArmBodyFollows(s: Low, a: seq<set<nat>>, t: Low, b: seq<set<nat>>, st: Stmt, d: nat,
      end: nat, ret: Ty)
    returns (c: seq<set<nat>>)
    requires Avail(s, a) && Sound(t, b) && a <= b && t.locals == s.locals && t.loops == s.loops && ElsesOk(st)
    requires d < |b| && b[d] == Now(s, a) && end < |a| && a[end] <= Now(s, a)
    ensures d < |t.blocks|
    ensures var u := Join(LowerStmt(Position(t, d), st, ret), end); Sound(u, c) && b <= c && u.loops == s.loops
    decreases st, 3
  {
    hide Avail, Sound, Follows, Onward, Now, LowerStmt, Join, ElsesOk;
    SoundSize(t, b);
    var p := Position(t, d);
    AtBlock(s, a, t, b, d);
    c := StmtFollows(p, b, st, ret);
    var body := LowerStmt(p, st, ret);
    FollowsOut(p, b, body, c);
    StmtShapes(p, st, ret);
    JoinFollows(body, c, end);
    FollowsOut(body, c, Join(body, end), c);
    JoinShape(body, end);
  }

  /** Back on the chain of tests, in a block the body has not touched. */
  lemma BackFollows(s: Low, a: seq<set<nat>>, s2: Low, a2: seq<set<nat>>, u: Low, b: seq<set<nat>>)
    requires Avail(s, a) && Onward(s, a, s2, a2) && Sound(u, b) && a2 <= b && s2.cur < |u.blocks|
    requires u.blocks[s2.cur] == s2.blocks[s2.cur] && s2.locals == s.locals && s2.loops == s.loops
    requires Cut(u.locals, |s2.locals|) == s2.locals && u.loops == s.loops
    ensures Follows(s, a, Position(u.(locals := Cut(u.locals, |s2.locals|)), s2.cur), b)
  {
    hide BlockFine, Known, Cut;
    var t := Position(u.(locals := Cut(u.locals, |s2.locals|)), s2.cur);
    assert Now(t, b) == Now(s2, a2);
    FollowsSame(s, a, t, b);
  }

  lemma ChainFollows(s: Low, a: seq<set<nat>>, arm: Arm, v: Operand, n: nat) returns (b: seq<set<nat>>)
    requires Avail(s, a) && n < |a| && a[n] <= Now(s, a) && In(v, Now(s, a))
    ensures Follows(s, a, if HasWildcard(arm.labels) then s else LowerLabels(s, arm.labels, v, n), b)
  {
    hide Avail, Follows, Onward, LowerLabels, HasWildcard, Now;
    if HasWildcard(arm.labels) {
      b := a;
      Still(s, a);
      FollowsSame(s, a, s, a);
    } else {
      b := LabelsFollow(s, a, arm.labels, v, n);
    }
  }

  lemma {:induction false} LabelsFollow(s: Low, a: seq<set<nat>>, labels: seq<Label>, v: Operand, body: nat)
    returns (b: seq<set<nat>>)
    requires Avail(s, a) && body < |a| && a[body] <= Now(s, a) && In(v, Now(s, a))
    ensures Follows(s, a, LowerLabels(s, labels, v, body), b)
    decreases labels
  {
    hide Avail, Follows, Onward, LowerLabel, Now, In;
    if labels == [] {
      b := a;
      Still(s, a);
      FollowsSame(s, a, s, a);
    } else {
      var k := |labels| - 1;
      var s1 := LowerLabels(s, labels[..k], v, body);
      var a1 := LabelsFollow(s, a, labels[..k], v, body);
      FollowsOut(s, a, s1, a1);
      InMore(v, Now(s, a), Now(s1, a1));
      b := LabelFollows(s1, a1, labels[k], v, body);
      FollowsTrans(s, a, s1, a1, LowerLabel(s1, labels[k], v, body), b);
    }
  }

  lemma LabelFollows(s: Low, a: seq<set<nat>>, l: Label, v: Operand, body: nat) returns (b: seq<set<nat>>)
    requires Avail(s, a) && body < |a| && a[body] <= Now(s, a) && In(v, Now(s, a))
    ensures Follows(s, a, LowerLabel(s, l, v, body), b)
  {
    hide Avail, Sound, Follows, Onward, LowerExpr, Now, In, Yields;
    if l.Wildcard? {
      b := a;
      Still(s, a);
      FollowsSame(s, a, s, a);
    } else {
      var next := |s.blocks|;
      var s0 := NewBlock(s);
      var a0 := NewAvail(s, a);
      FollowsOut(s, a, s0, a0);
      var (s1, w) := LowerExpr(s0, l.expr);
      b := ExprYields(s0, a0, l.expr);
      Arrived(s0, a0, s1, b, w);
      ExprShape(s0, l.expr);
      InMore(v, Now(s, a), Now(s1, b));
      var i := Icmp(PEq, s1.nextTemp, v, w);
      var one := Temp(IInt(1), s1.nextTemp);
      DefYields(s1, b, i, IInt(1));
      var s2 := Def(s1, i);
      Arrived(s1, b, s2, b, one);
      var c := CondBr(one, body, next);
      assert Fine(c, Now(s2, b), b) by { CondFine(one, body, next, Now(s2, b), b); }
      EmitSound(s2, b, c);
      OnwardSound(s2, b, Emit(s2, c), b);
      AtBlock(s, a, Emit(s2, c), b, next);
      FollowsIntro(s, a, LowerLabel(s, l, v, body), b);
    }
  }

  lemma CondFine(c: Operand, yes: nat, no: nat, known: set<nat>, entry: seq<set<nat>>)
    requires In(c, known) && yes < |entry| && no < |entry| && entry[yes] <= known && entry[no] <= known
    ensures Fine(CondBr(c, yes, no), known, entry)
  {
  }

  // ------------------------------------------------------------------ functions

  /** The temporaries of the parameters. */
  function Params(n: nat): (r: set<nat>)
    ensures forall x: nat :: x in r <==> x < n
  {
    if n == 0 then {} else Params(n - 1) + {n - 1}
  }

  lemma {:induction false} ParamsFollow(s: Low, a: seq<set<nat>>, params: seq<Decl>)
    requires Avail(s, a) && Params(|params|) <= Now(s, a)
    ensures Follows(s, a, LowerParams(s, params), a)
    decreases |params|
  {
    hide Avail, Sound, Follows, Onward, Now, IrOf;
    if params == [] {
      Still(s, a);
      FollowsSame(s, a, s, a);
    } else {
      var k := |params| - 1;
      ParamsFollow(s, a, params[..k]);
      var s1 := LowerParams(s, params[..k]);
      FollowsOut(s, a, s1, a);
      var t := IrOf(params[k].ty);
      var i := Alloca(s1.nextTemp, t);
      var slot := Temp(IPtr, s1.nextTemp);
      PlainSound(s1, a, i);
      var s2 := Def(s1, i);
      OnwardSound(s1, a, s2, a);
      PlainSound(s2, a, Store(Temp(t, k), slot));
      var s3 := Emit(s2, Store(Temp(t, k), slot));
      OnwardSound(s2, a, s3, a);
      OnwardTrans(s1, a, s2, a, s3, a);
      PushAvail(s1, a, s3, a, Binding(params[k], s1.nextTemp));
      FollowsTrans(s, a, s1, a, LowerParams(s, params), a);
    }
  }

  lemma FunctionSound(fn: FnDecl) returns (entry: seq<set<nat>>)
    requires AllElsesOk(fn.body)
    ensures Sound(LowerFunction(fn), entry) && |entry| > 0 && entry[0] == Params(|fn.params|)
  {
    hide Avail, Sound, Follows, Onward, Now, LowerParams, LowerBlock, AllElsesOk;
    var s := Entry(fn);
    var a := [Params(|fn.params|)];
    assert Avail(s, a) && Now(s, a) == Params(|fn.params|) by { EntryAvail(fn); }
    ParamsFollow(s, a, fn.params);
    var p := LowerParams(s, fn.params);
    FollowsOut(s, a, p, a);
    entry := BlockFollows(p, a, fn.body, fn.ret);
    var t := Body(fn);
    FollowsOut(p, a, t, entry);
    if IsOpen(t) {
      var i := if fn.ret.Void? then Ret(None) else Unreachable;
      EmitSound(t, entry, i);
      OnwardSound(t, entry, Emit(t, i), entry);
    }
  }

  lemma EntryAvail(fn: FnDecl)
    ensures Avail(Entry(fn), [Params(|fn.params|)]) && Now(Entry(fn), [Params(|fn.params|)]) == Params(|fn.params|)
  {
  }

  // ---------------------------------------------------------------------- paths

  predicate DefinesIn(b: seq<Instr>, x: nat) {
    exists j :: 0 <= j < |b| && Defines(b[j]) == Some(x)
  }

  lemma {:induction false} KnownFrom(a: set<nat>, b: seq<Instr>, x: nat)
    requires x in Known(a, b)
    ensures x in a || DefinesIn(b, x)
    decreases |b|
  {
    if b != [] {
      var k := |b| - 1;
      if x in Known(a, b[..k]) {
        KnownFrom(a, b[..k], x);
        if DefinesIn(b[..k], x) {
          var j :| 0 <= j < k && Defines(b[..k][j]) == Some(x);
          assert Defines(b[j]) == Some(x);
        }
      } else {
        assert Defines(b[k]) == Some(x);
      }
    }
  }

  /** What a block may count on has been defined by the time a path enters it. */
  lemma {:induction false} EnteredKnowing(f: Low, entry: seq<set<nat>>, p: seq<nat>, n: nat, x: nat)
    requires Sound(f, entry) && |entry| > 0 && entry[0] == Params(n) && Path(f.blocks, p) && x in entry[p[|p| - 1]]
    ensures x < n || exists k :: 0 <= k < |p| - 1 && DefinesIn(f.blocks[p[k]], x)
    decreases |p|
  {
    hide Known;
    if |p| > 1 {
      var m := |p| - 2;
      var q := p[..m + 1];
      var d := p[m + 1];
      assert Leads(f.blocks[p[m]], p[m + 1]);
      var b := f.blocks[p[m]];
      var k :| 0 <= k < |b| && ((b[k].Br? && b[k].dest == d) || (b[k].CondBr? && (b[k].dest == d || b[k].dest2 == d)));
      assert Fine(b[k], Known(entry[p[m]], b[..k]), entry);
      KnownFrom(entry[p[m]], b[..k], x);
      if x in entry[p[m]] {
        EnteredKnowing(f, entry, q, n, x);
      } else {
        var j :| 0 <= j < |b[..k]| && Defines(b[..k][j]) == Some(x);
        assert Defines(b[j]) == Some(x);
        assert DefinesIn(f.blocks[p[m]], x);
      }
    }
  }

  /** On every path through the code of a function, each temporary an instruction
      reads is a parameter's, or was defined before: in a block the path has been
      through or earlier in the same one. */
  lemma ReadAfterDefined(fn: FnDecl, p: seq<nat>, k: nat, x: nat)
    requires AllElsesOk(fn.body) && Path(LowerFunction(fn).blocks, p)
    requires var b := LowerFunction(fn).blocks[p[|p| - 1]]; k < |b| && x in TempsRead(b[k])
    ensures var f := LowerFunction(fn).blocks;
            || x < |fn.params|
            || (exists j :: 0 <= j < |p| - 1 && DefinesIn(f[p[j]], x))
            || DefinesIn(f[p[|p| - 1]][..k], x)
  {
    hide LowerFunction, Known, TempsRead, DefinesIn, AllElsesOk;
    var f := LowerFunction(fn);
    var entry := FunctionSound(fn);
    var d := p[|p| - 1];
    var b := f.blocks[d];
    assert Fine(b[k], Known(entry[d], b[..k]), entry);
    KnownFrom(entry[d], b[..k], x);
    if !DefinesIn(b[..k], x) {
      EnteredKnowing(f, entry, p, |fn.params|, x);
    }
  }
}
