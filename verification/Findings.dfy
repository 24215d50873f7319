/** Where the code does something other than its documentation promises: for
    each, a concrete input that shows it, and exactly when it does not happen. */
module Findings {
  import opened Words
  import opened Types
  import opened Tree
  import opened Typing
  import opened Ir
  import opened Lowering
  import opened LoweringShape
  import opened LoweringTypes
  import opened IrVerify
  import opened UntypedArith
  import Conversions
  import Coercion
  import Scopes

  // ------------------------------------------------ shadowed match labels

  /** A named match label is a constant to sema, which looks it up among the
      globals. Lowering looks among the locals first, so the label is lowered to
      that constant exactly when no local has its name. */
  lemma LabelIsConstantUnlessShadowed(s: Low, x: string, t: Ty)
    requires MemberValue(t, x).Some?
    ensures LowerName(s, x, t).1 == Const(IrOf(t), MemberValue(t, x).value) <==> FindLocal(s.locals, x).None?
  {
  }

  /** With a local named like the member, the test reads the variable. */
  lemma ShadowedLabelReadsVariable(reg: nat, tmp: nat)
    ensures var color := Enum("Color", OnI32, [Member("RED", 7)]);
            var s: Low := LowState([[]], 0, tmp, [Binding(Decl("RED", I32), reg)], [], 0);
            LowerName(s, "RED", color).0.blocks[0] == [Load(tmp, IInt(32), Temp(IPtr, reg))]
  {
    var s: Low := LowState([[]], 0, tmp, [Binding(Decl("RED", I32), reg)], [], 0);
    assert FindLocal(s.locals, "RED") == Some(0);
    assert [] + [Load(tmp, IInt(32), Temp(IPtr, reg))] == [Load(tmp, IInt(32), Temp(IPtr, reg))];
  }

  // ------------------------------------------------- labels of another width

  /** The test a named label lowers to: the scrutinee against the constant, at the
      label's own type. */
  function LabelTest(s: Low, v: Operand, x: string, t: Ty): Instr
    requires MemberValue(t, x).Some?
  {
    Icmp(PEq, s.nextTemp, v, Const(IrOf(t), MemberValue(t, x).value))
  }

  lemma LabelTested(s: Low, v: Operand, x: string, t: Ty, body: nat)
    requires MemberValue(t, x).Some? && FindLocal(s.locals, x).None?
    ensures LabelTest(s, v, x, t) in LowerLabel(s, Value(Name(x, t)), v, body).blocks[s.cur]
  {
    hide IrOf, MemberValue, FindLocal;
    var s0 := NewBlock(s);
    var i := LabelTest(s, v, x, t);
    var b := s.blocks[s.cur];
    var c := CondBr(Temp(IInt(1), s.nextTemp), body, |s.blocks|);
    assert LowerExpr(s0, Name(x, t)) == (s0, i.rhs);
    assert LowerLabel(s, Value(Name(x, t)), v, body).blocks[s.cur] == b + [i] + [c];
    assert (b + [i] + [c])[|b|] == i;
  }

  /** A named label keeps its enum's type whatever the scrutinee's, as sema only
      asks that the one converts to the other. The verifier accepts the test
      exactly when the two have the same width. */
  lemma LabelWidths(f: Blocks, ret: IrTy, s: Low, v: Operand, t: Ty, x: string, lt: Ty)
    requires IsIntLike(t) && HasType(v, t) && lt.Enum? && MemberValue(lt, x).Some?
    ensures InstrProblems(f, ret, LabelTest(s, v, x, lt)) == 0 <==> Width(lt) == Width(t)
  {
    IrOfScalar(t);
    IrOfScalar(lt);
  }

  /** `match x { A => {} }` with a u32 `x` and `enum E : u8 { A }`. */
  function NarrowLabelFn(): FnDecl {
    FnDecl([Decl("x", U32)], Void,
           [Match(Name("x", U32), [Arm([Value(Name("A", Enum("E", OnU8, [Member("A", 0)])))], Block([]))])])
  }

  /** sema takes the label, and the verifier finds fault with what it becomes. */
  lemma NarrowLabel()
    ensures Conversions.Assignable(Enum("E", OnU8, [Member("A", 0)]), U32)
    ensures Problems(LowerFunction(NarrowLabelFn()).blocks, IVoid) > 0
  {
    hide LowerFunction, LowerParams, LowerMatch, Problems, InstrProblems, Within, LabelTest;
    var fn, e := NarrowLabelFn(), Enum("E", OnU8, [Member("A", 0)]);
    var p, f := LowerParams(Entry(fn), fn.params), LowerFunction(fn).blocks;
    NarrowParams();
    var i := NarrowTest(p);
    assert Body(fn).blocks == LowerMatch(p, fn.body[0], Void).blocks by { OneStatement(p, fn.body[0], Void); }
    BodyInFunction(fn);
    var k :| 0 <= k < |Body(fn).blocks[0]| && Body(fn).blocks[0][k] == i;
    assert f[0][k] == i;
    Clean(f, IVoid);
  }

  lemma NarrowParams()
    ensures var p := LowerParams(Entry(NarrowLabelFn()), NarrowLabelFn().params);
            p.cur == 0 && IsOpen(p) && |p.blocks| == 1 && p.locals == [Binding(Decl("x", U32), 1)]
  {
    var s := Entry(NarrowLabelFn());
    assert LowerParams(s, []) == s;
    assert [Decl("x", U32)][..0] == [];
  }

  lemma OneStatement(s: Low, st: Stmt, ret: Ty)
    requires IsOpen(s) && st.Match?
    ensures LowerBlock(s, [st], ret).blocks == LowerMatch(s, st, ret).blocks
  {
    hide LowerMatch;
    assert [st][..0] == [] && [st][0] == st;
    assert LowerSeq(s, [], ret) == s;
    assert LowerSeq(s, [st], ret) == LowerStmt(s, st, ret);
    assert LowerStmt(s, st, ret) == LowerOpen(s, st, ret) == LowerMatch(s, st, ret);
  }

  lemma BodyInFunction(fn: FnDecl)
    ensures Ext(Body(fn).blocks, LowerFunction(fn).blocks)
  {
    hide Body;
    EmitShape(Body(fn), Ret(None));
    EmitShape(Body(fn), Unreachable);
  }

  lemma NarrowTest(p: Low) returns (i: Instr)
    requires p.cur == 0 && IsOpen(p) && |p.blocks| == 1 && p.locals == [Binding(Decl("x", U32), 1)]
    ensures i in LowerMatch(p, NarrowLabelFn().body[0], Void).blocks[0]
    ensures forall f: Blocks :: InstrProblems(f, IVoid, i) > 0
  {
    hide LowerArm, LowerLabel, InstrProblems, LabelTest, Within;
    var e := Enum("E", OnU8, [Member("A", 0)]);
    var st := NarrowLabelFn().body[0];
    var arm := st.arms[0];
    var (s1, v) := LowerExpr(p, st.scrutinee);
    assert FindLocal(p.locals, "x") == Some(0);
    assert v.ty == IInt(32) && s1.cur == 0 && |s1.blocks| == 1 && s1.locals == p.locals;
    var s0 := NewBlock(s1);
    assert FindLocal(p.locals, "A").None? by { NotFound(); }
    i := LabelTest(NewBlock(s0), v, "A", e);
    FirstTest(s0, arm, v, "A", e, 1, Void);
    assert st.arms[..0] == [];
    var t := LowerArm(s0, arm, v, 1, Void);
    assert LowerArms(s0, st.arms, v, 1, Void).0 == t;
    EmitShape(t, Br(1));
    forall f: Blocks ensures InstrProblems(f, IVoid, i) > 0 {
      LabelWidths(f, IVoid, NewBlock(s0), v, U32, "A", e);
    }
  }

  lemma NotFound()
    ensures FindLocal([Binding(Decl("x", U32), 1)], "A").None?
  {
    var l := [Binding(Decl("x", U32), 1)];
    assert l[..0] == [] && FindLocal([], "A").None?;
  }

  /** The test of an arm's one label stays on the chain. */
  lemma FirstTest(s: Low, arm: Arm, v: Operand, x: string, t: Ty, end: nat, ret: Ty)
    requires arm.labels == [Value(Name(x, t))] && MemberValue(t, x).Some? && FindLocal(s.locals, x).None?
    ensures LabelTest(NewBlock(s), v, x, t) in LowerArm(s, arm, v, end, ret).blocks[s.cur]
  {
    hide LowerLabel, LowerStmt, FindLocal, MemberValue, LabelTest;
    var s1, b := NewBlock(s), |s.blocks|;
    LabelTested(s1, v, x, t, b);
    assert arm.labels[..0] == [] && !HasWildcard(arm.labels);
    var s2 := LowerLabels(s1, arm.labels, v, b);
    assert LowerLabels(s1, [], v, b) == s1;
    assert s2 == LowerLabel(s1, arm.labels[0], v, b);
    var body := LowerStmt(Position(s2, b), arm.body, ret);
    StmtShapes(Position(s2, b), arm.body, ret);
    JoinShape(body, end);
  }

  // ---------------------------------------------- literals an enum cannot hold

  /** A literal label takes the scrutinee's type, but only an integer type is
      checked to hold it. On an enum the test is equality of the numbers exactly
      when the enum holds the literal. */
  lemma LiteralLabelTests(t: Ty, n: nat)
    requires t.Enum?
    ensures (forall v :: InRange(t, v) ==> (LabelReads(t, n, v) <==> v == n)) <==> InRange(t, n)
  {
    if InRange(t, n) {
      forall v | InRange(t, v) ensures LabelReads(t, n, v) <==> v == n {
        InRangeDecodes(t, v);
        InRangeDecodes(t, n);
      }
    } else {
      WrapTyFacts(t, n);
      assert LabelReads(t, n, WrapTy(t, n));
    }
  }

  /** Does the test of literal `n` succeed on the value `v`? */
  predicate LabelReads(t: Ty, n: nat, v: int) {
    IrCompare(PEq, Width(t), Enc(Width(t), v), Enc(Width(t), n))
  }

  /** On a u8 enum sema takes the label 300, which then matches 44. */
  lemma LabelThreeHundred()
    ensures var e := Enum("E", OnU8, []);
            && Coercion.Retype(Int(300, UntypedInt), e) == Coercion.Rewritten(Int(300, e), 0)
            && LabelReads(e, 300, 44)
  {
    assert Pow2(8) == 256 by { assert Pow2(4) == 16; }
  }

  // -------------------------------------------------------- untyped shifts

  /** An untyped left operand of a shift takes the width of the amount: the shift
      is emitted at that width, and what comes out has the width of its own type
      exactly if the amount is 64 bits wide. */
  lemma UntypedShiftWidth(s: Low, op: BinOp, l: Operand, r: Operand, rt: Ty, t: Ty)
    requires IsShift(op) && HasType(l, UntypedInt) && IsIntLike(rt) && HasType(r, rt)
    ensures var (u, v) := FinishBinary(s, op, l, r, UntypedInt, rt, t);
            var b := u.blocks[s.cur];
            && (HasType(v, UntypedInt) <==> Width(rt) == 64)
            && b != [] && b[|b| - 1].Bin? && b[|b| - 1].op == IntBinop(op, IsSigned(UntypedInt))
            && b[|b| - 1].lhs.ty == IInt(Width(rt)) && b[|b| - 1].rhs == r
  {
    hide IsIntLike, IrOf, Width;
    IntIsScalar(rt);
    IrOfScalar(rt);
    WidthOfUntyped();
    IrOfScalar(UntypedInt);
  }

  lemma IntIsScalar(t: Ty)
    requires IsIntLike(t)
    ensures IsScalar(t)
  {
  }

  lemma WidthOfUntyped()
    ensures Width(UntypedInt) == 64 && IsScalar(UntypedInt)
  {
  }

  /** At the amount's width a left shift computes the number exactly when the
      64-bit result fits that width. */
  lemma UntypedShiftLeft(rt: Ty, a: int, b: int)
    requires IsIntLike(rt) && 0 <= b < Width(rt)
    ensures UntypedOpAt(Shl, Width(rt), a, b) == Some(Enc(64, a * Pow2(b))) <==> Enc(64, a * Pow2(b)) < Pow2(Width(rt))
  {
    hide Pow2, Width;
    WidthBound(rt);
    ShiftLeftAt(Width(rt), a, b);
  }

  /** And a right shift, of a 64-bit number, exactly when that number fits it; a
      negative one never does, unless nothing is shifted at 64 bits. */
  lemma UntypedShiftRight(rt: Ty, a: int, b: int)
    requires IsIntLike(rt) && 0 <= b < Width(rt) && Fits(true, 64, a)
    ensures UntypedOpAt(Shr, Width(rt), a, b) == Some(Enc(64, a / Pow2(b)))
            <==> (if a >= 0 then a < Pow2(Width(rt)) else Width(rt) == 64 && b == 0)
  {
    hide Pow2, Width;
    WidthBound(rt);
    ShiftRightAt(Width(rt), a, b);
  }

  lemma WidthBound(t: Ty)
    requires IsIntLike(t)
    ensures 0 < Width(t) <= 64
  {
  }

  /** With an 8-bit amount, `2 << 7` is 0 and `256 >> 1` is 0. */
  lemma NarrowShift()
    ensures UntypedOpAt(Shl, Width(U8), 2, 7) == Some(0) && Enc(64, 2 * Pow2(7)) == 256
    ensures UntypedOpAt(Shr, Width(U8), 256, 1) == Some(0) && Enc(64, 256 / Pow2(1)) == 128
  {
    NarrowShiftAt();
  }

  // ---------------------------------------------------------- enum widening

  /** An enum is never a signed type, whatever it is built on, so widening one
      extends with zeros. The number its base type reads is kept exactly when it
      is not negative. */
  lemma EnumWidening(e: Ty, w: nat, v: int)
    requires e.Enum? && IsSigned(BaseTy(e.base)) && InRange(BaseTy(e.base), v) && w > Width(e)
    ensures AsSigned(w, IrCast(if IsSigned(e) then SExt else ZExt, Width(e), w, Enc(Width(e), v))) == v <==> v >= 0
  {
    var n := Width(e);
    assert n == Width(BaseTy(e.base));
    UnsignedPattern(n, v);
    Pow2Monotone(n, w - 1);
    assert Pow2(n) == 2 * Pow2(n - 1);
    EncSmall(w, Enc(n, v));
  }

  /** A -1 stored in an i32 enum widens to 2^32 - 1. */
  lemma NegativeEnumWidens()
    ensures IrCast(if IsSigned(Enum("E", OnI32, [])) then SExt else ZExt, 32, 64, Enc(32, -1)) == Pow2(32) - 1
  {
    hide Pow2;
    Pow2Above(31);
    Pow2Above(32);
    UnsignedPattern(32, -1);
    Pow2Monotone(32, 64);
    EncSmall(64, Pow2(32) - 1);
  }

  // -------------------------------------------------- labels beside a wildcard

  /** One of the labels is the value. */
  predicate Names(arm: Arm, v: int) {
    exists j :: 0 <= j < |arm.labels| && LabelIs(arm.labels[j], v)
  }

  /** The first arm that lists the value, wildcard or not. */
  function FirstNamed(arms: seq<Arm>, v: int): (r: Option<nat>)
    ensures r.Some? ==> r.value < |arms| && Names(arms[r.value], v)
    ensures forall i :: 0 <= i < (if r.Some? then r.value else |arms|) ==> !Names(arms[i], v)
  {
    if arms == [] then None
    else
      match FirstNamed(arms[..|arms| - 1], v)
      case Some(i) => Some(i)
      case None => if Names(arms[|arms| - 1], v) then Some(|arms| - 1) else None
  }

  /** The labels an arm lists beside `_` are not tested. So the first arm that
      lists the value is the one that runs, exactly when it has no `_`, or
      nothing after it lists the value in an arm of its own or has a `_`. */
  lemma LabelsBesideWildcard(arms: seq<Arm>, v: int)
    requires FirstNamed(arms, v).Some?
    ensures var i := FirstNamed(arms, v).value;
            SelectArm(arms, v) == Some(i) <==>
            (HasWildcard(arms[i].labels) ==> forall k :: i < k < |arms| ==>
                !Hits(arms[k], v) && !HasWildcard(arms[k].labels))
  {
    hide HasWildcard, LabelIs;
    var i := FirstNamed(arms, v).value;
    forall k | 0 <= k < i ensures !Hits(arms[k], v) {
      assert !Names(arms[k], v);
    }
    if HasWildcard(arms[i].labels) {
      assert !Hits(arms[i], v);
    } else {
      assert Hits(arms[i], v);
    }
  }

  /** `match 1 { 1, _ => ...  1 => ... }` runs the second arm. */
  lemma WildcardArmLosesItsLabels(a: Stmt, b: Stmt)
    ensures var one := Value(Int(1, I32));
            SelectArm([Arm([one, Wildcard], a), Arm([one], b)], 1) == Some(1)
  {
    var one := Value(Int(1, I32));
    var first, second := Arm([one, Wildcard], a), Arm([one], b);
    var arms := [first, second];
    assert first.labels[1].Wildcard?;
    assert HasWildcard(first.labels) && !Hits(first, 1);
    assert LabelIs(second.labels[0], 1);
    assert !HasWildcard(second.labels) && Hits(second, 1);
    assert arms[..1] == [first] && [first][..0] == [];
    assert FirstHit([first], 1).None?;
  }

  // --------------------------------------------------- declarations in an arm

  /** `match x { 1 => let i32 y = 2; } return y;` */
  function ArmDeclFn(): FnDecl {
    FnDecl([Decl("x", I32)], I32,
           [Match(Name("x", I32), [Arm([Value(Int(1, I32))], Var(Decl("y", I32), Some(Int(2, I32))))]),
            Return(Some(Name("y", I32)))])
  }

  /** sema opens no scope around the body of an arm and so finds `y` at the
      `return`; lowering has dropped it and reports an error. */
  lemma ArmDeclarationLost()
    ensures var s := Scopes.CheckParams([Decl("x", I32)], Scopes.Push(Scopes.Names([], [], [], 0)));
            FindDecl(Scopes.CheckSeq(ArmDeclFn().body[..1], Scopes.Push(s)).syms, "y").Some?
    ensures Scopes.CheckFn(ArmDeclFn(), Scopes.Names([], [], [], 0)).dups == 0
    ensures LowerFunction(ArmDeclFn()).errors > 0
  {
    ArmDeclarationFound();
    ArmDeclarationDropped();
  }

  lemma ArmDeclarationFound()
    ensures var s := Scopes.CheckParams([Decl("x", I32)], Scopes.Push(Scopes.Names([], [], [], 0)));
            FindDecl(Scopes.CheckSeq(ArmDeclFn().body[..1], Scopes.Push(s)).syms, "y").Some?
    ensures Scopes.CheckFn(ArmDeclFn(), Scopes.Names([], [], [], 0)).dups == 0
  {
    hide Scopes.CheckSeq, Scopes.CheckArms, Scopes.CheckParams, Scopes.InCurrent;
    var x, y, fn := Decl("x", I32), Decl("y", I32), ArmDeclFn();
    var s0 := Scopes.Push(Scopes.Names([], [], [], 0));
    var s := Scopes.CheckParams([x], s0);
    assert s == Scopes.Names([x], [0], [], 0) by { OneParamChecked(x); }
    var s1 := Scopes.Push(s);
    var s2 := Scopes.Note(Scopes.Note(s1));
    OneArmChecked(fn.body[0].arms[0], Scopes.Note(s1));
    assert !Scopes.InCurrent(s2, "y") by { NothingCurrent(s2, "y"); }
    assert Scopes.Declare(s2, y).syms == [x, y];
    assert fn.body[..1] == [fn.body[0]];
    StatementsChecked(fn.body[0], fn.body[1], s1);
    var s3 := Scopes.CheckStmt(fn.body[0], s1);
    assert s3 == Scopes.Declare(s2, y);
    assert FindDecl(s3.syms, "y") == Some(1);
  }

  lemma NothingCurrent(s: Scopes.Names, x: string)
    requires Scopes.CurrentMark(s) == |s.syms|
    ensures !Scopes.InCurrent(s, x)
  {
  }

  lemma OneParamChecked(x: Decl)
    ensures Scopes.CheckParams([x], Scopes.Push(Scopes.Names([], [], [], 0))) == Scopes.Names([x], [0], [], 0)
  {
    var s := Scopes.Push(Scopes.Names([], [], [], 0));
    assert [x][..0] == [];
    assert Scopes.CheckParams([], s) == s;
    NothingCurrent(s, x.name);
    assert Scopes.CheckParams([x], s) == Scopes.Declare(s, x);
    assert [] + [x] == [x];
  }

  lemma OneArmChecked(arm: Arm, s: Scopes.Names)
    ensures Scopes.CheckArms([arm], s) == Scopes.CheckStmt(arm.body, s)
  {
    assert [arm][..0] == [];
    assert Scopes.CheckArms([], s) == s;
  }

  lemma StatementsChecked(a: Stmt, b: Stmt, s: Scopes.Names)
    ensures Scopes.CheckSeq([a], s) == Scopes.CheckStmt(a, s)
    ensures Scopes.CheckSeq([a, b], s) == Scopes.CheckStmt(b, Scopes.CheckStmt(a, s))
  {
    assert [a][..0] == [] && [a, b][..1] == [a];
    assert Scopes.CheckSeq([], s) == s;
  }

  lemma ArmDeclarationDropped()
    ensures LowerFunction(ArmDeclFn()).errors > 0
  {
    hide LowerFunction, LowerParams, LowerStmt, Within;
    var fn := ArmDeclFn();
    var p := LowerParams(Entry(fn), fn.params);
    assert p.locals == [Binding(Decl("x", I32), 1)] by { OneParam(fn); }
    var m := fn.body[0];
    assert fn.body[..1] == [m] && [m][..0] == [];
    var s := LowerSeq(p, [m], I32);
    assert LowerSeq(p, [], I32) == p;
    assert s == LowerStmt(p, m, I32);
    StmtShapes(p, m, I32);
    assert s.locals == p.locals;
    assert FindLocal(s.locals, "y").None? by { assert s.locals[..0] == [] && FindLocal([], "y").None?; }
    UnknownName(s, "y", I32);
    var t := LowerStmt(s, fn.body[1], I32);
    assert LowerSeq(p, fn.body, I32) == t;
    ErrorsStay(fn, t);
  }

  lemma OneParam(fn: FnDecl)
    requires |fn.params| == 1
    ensures LowerParams(Entry(fn), fn.params).locals == [Binding(fn.params[0], 1)]
  {
    assert fn.params[..0] == [];
    assert LowerParams(Entry(fn), []) == Entry(fn);
  }

  lemma UnknownName(s: Low, x: string, t: Ty)
    requires FindLocal(s.locals, x).None? && MemberValue(t, x).None?
    ensures LowerStmt(s, Return(Some(Name(x, t))), t).errors > s.errors
  {
    hide FindLocal, MemberValue, IrOf;
    var s1 := EnsureOpen(s);
    assert s1.locals == s.locals && s1.errors == s.errors;
    assert LowerStmt(s, Return(Some(Name(x, t))), t) == LowerReturn(s1, Some(Name(x, t)), t);
    assert LowerExpr(s1, Name(x, t)) == LowerName(s1, x, t);
  }

  lemma ErrorsStay(fn: FnDecl, t: Low)
    requires t == LowerSeq(LowerParams(Entry(fn), fn.params), fn.body, fn.ret)
    ensures LowerFunction(fn).errors == t.errors
  {
    hide LowerSeq, LowerParams;
  }
}
