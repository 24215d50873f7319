/** One function with every construct of the scalar fragment in it: it counts as
    checked, so the theorems about checked functions speak of all of them. */
module Sample {
  import opened Words
  import opened Types
  import opened Tree
  import opened Typing

  const COLOR: Ty := Enum("Color", OnU8, [Member("RED", 0), Member("BLUE", 1)])

  const PARAMS: seq<Decl> := [Decl("p", I32), Decl("c", B8)]

  const LOCALS: seq<Decl> := PARAMS + [Decl("x", I64), Decl("e", COLOR)]

  function P(): Expr { Name("p", I32) }

  function C(): Expr { Name("c", B8) }

  function X(): Expr { Name("x", I64) }

  function E(): Expr { Name("e", COLOR) }

  function Log(): Fn { Fn("log", [I32], Void, true) }

  /** `!c && (x << 1) % 10 < -x || c` */
  function Condition(): Expr {
    Binary(LogOr,
        Binary(LogAnd, Unary(LogNot, C(), B8),
            Binary(Lt, Binary(Rem, Binary(Shl, X(), Int(1, I64), I64), Int(10, I64), I64), Unary(Neg, X(), I64), B32),
                B8),
        C(), B8)
  }

  /** `while cond { if c { continue; } else if c { break; } else { x += 1; } }` */
  function Loop(): Stmt {
    While(Condition(),
        [If(C(), [Continue],
            Some(If(C(), [Break], Some(Block([Assign(X(), Some(Add), Int(1, I64))])))))])
  }

  /** `match e { RED, 1 => { log(p, x, true); } _ => x = ~x; }` */
  function Choice(): Stmt {
    Match(E(), [
      Arm([Value(Name("RED", COLOR)), Value(Int(1, COLOR))],
          Block([ExprStmt(Call(Log(), [P(), X(), Bool(true, B32)], Void))])),
      Arm([Wildcard], Assign(X(), None, Unary(BitNot, X(), I64)))])
  }

  function Body(): seq<Stmt> {
    [Var(Decl("x", I64), Some(Conv(P(), I64))), Var(Decl("e", COLOR), Some(Name("BLUE", COLOR))),
     Loop(), Choice(), Empty, Return(Some(Conv(X(), I32)))]
  }

  lemma Lookups(scope: Scope)
    requires scope == PARAMS || scope == LOCALS
    ensures FindDecl(scope, "p") == Some(0) && FindDecl(scope, "c") == Some(1)
    ensures scope == LOCALS ==> FindDecl(scope, "x") == Some(2) && FindDecl(scope, "e") == Some(3)
    ensures FindDecl(scope, "RED").None? && FindDecl(scope, "BLUE").None?
  {
    assert scope[0].name == "p" && scope[1].name == "c";
    if scope == LOCALS {
      assert scope[2].name == "x" && scope[3].name == "e";
    }
  }

  lemma SmallFit()
    ensures forall n: int :: 0 <= n <= 10 ==> InRange(I64, n) && InRange(COLOR, n)
  {
    hide Pow2;
    Pow2Above(8);
    Pow2Above(63);
    Pow2Monotone(8, 63);
    Doubled(8);
    Pow2Above(7);
    Doubled(7);
    Pow2Above(6);
  }

  lemma NamesTyped()
    ensures TypedExpr(P(), LOCALS) && TypedExpr(C(), LOCALS) && TypedExpr(X(), LOCALS) && TypedExpr(E(), LOCALS)
    ensures TypedExpr(P(), PARAMS)
  {
    Lookups(PARAMS);
    Lookups(LOCALS);
  }

  lemma MembersTyped(scope: Scope)
    requires scope == PARAMS || scope == LOCALS || scope == PARAMS + [Decl("x", I64)]
    ensures FindDecl(scope, "RED").None? && FindDecl(scope, "BLUE").None?
    ensures TypedExpr(Name("RED", COLOR), scope) && TypedExpr(Name("BLUE", COLOR), scope)
  {
    SmallFit();
    MemberIsFirst(COLOR.members, "RED");
    MemberIsFirst(COLOR.members, "BLUE");
    assert FirstNamed(COLOR.members, "RED", 0) && FirstNamed(COLOR.members, "BLUE", 1);
    hide InRange;
  }

  lemma Two(op: BinOp, l: Expr, r: Expr, t: Ty)
    requires TypedExpr(l, LOCALS) && TypedExpr(r, LOCALS) && TypedOperands(op, l.ty, r.ty, t)
    ensures TypedExpr(Binary(op, l, r, t), LOCALS)
  {
    hide TypedOperands, TypedName, TypedArgs, IsIntLike, IsBoolLike, IsScalar, InRange;
  }

  lemma One(op: UnOp, e: Expr, t: Ty)
    requires TypedExpr(e, LOCALS)
    requires if op.LogNot? then IsBoolLike(e.ty) && IsBoolLike(t) else IsIntLike(t) && e.ty == t
    ensures TypedExpr(Unary(op, e, t), LOCALS)
  {
    hide IsBoolLike, IsIntLike;
  }

  lemma Literal(n: nat, t: Ty)
    requires IsIntLike(t) && InRange(t, n)
    ensures TypedExpr(Int(n, t), LOCALS)
  {
    hide IsIntLike, InRange;
  }

  lemma Converted(e: Expr, t: Ty, scope: Scope)
    requires TypedExpr(e, scope) && IsIntLike(e.ty) && IsIntLike(t)
    ensures TypedExpr(Conv(e, t), scope)
  {
    IntNotBool(t);
    hide IsIntLike, IsBoolLike;
  }

  lemma ConditionTyped()
    ensures TypedCondition(Condition(), LOCALS)
  {
    hide TypedExpr, InRange;
    NamesTyped();
    SmallFit();
    var x, c := X(), C();
    Literal(1, I64);
    Literal(10, I64);
    One(Neg, x, I64);
    One(LogNot, c, B8);
    var twice := Binary(Shl, x, Int(1, I64), I64);
    var rest := Binary(Rem, twice, Int(10, I64), I64);
    var less := Binary(Lt, rest, Unary(Neg, x, I64), B32);
    var both := Binary(LogAnd, Unary(LogNot, c, B8), less, B8);
    Two(Shl, x, Int(1, I64), I64);
    Two(Rem, twice, Int(10, I64), I64);
    Two(Lt, rest, Unary(Neg, x, I64), B32);
    Two(LogAnd, Unary(LogNot, c, B8), less, B8);
    Two(LogOr, both, c, B8);
  }

  lemma Alone(st: Stmt, scope: Scope, inLoop: bool)
    requires TypedStmt(st, scope, I32, inLoop)
    ensures TypedSeq([st], scope, I32, inLoop)
  {
    hide TypedStmt;
    assert TypedSeq([], scope, I32, inLoop) && [st][..0] == [] && AfterSeq([], scope) == scope;
  }

  lemma AddTyped()
    ensures TypedStmt(Assign(X(), Some(Add), Int(1, I64)), LOCALS, I32, true)
  {
    hide InRange, FindDecl, TypedExpr;
    NamesTyped();
    SmallFit();
    Lookups(LOCALS);
    Literal(1, I64);
  }

  lemma LoopTyped()
    ensures TypedStmt(Loop(), LOCALS, I32, false)
  {
    hide TypedExpr, FindDecl;
    NamesTyped();
    ConditionTyped();
    AddTyped();
    var add := Assign(X(), Some(Add), Int(1, I64));
    var other := If(C(), [Break], Some(Block([add])));
    var body := If(C(), [Continue], Some(other));
    Alone(add, LOCALS, true);
    Alone(Break, LOCALS, true);
    Alone(Continue, LOCALS, true);
    assert TypedStmt(Block([add]), LOCALS, I32, true);
    assert TypedStmt(other, LOCALS, I32, true);
    assert TypedStmt(body, LOCALS, I32, true);
    Alone(body, LOCALS, true);
  }

  lemma CallTyped()
    ensures TypedExpr(Call(Log(), [P(), X(), Bool(true, B32)], Void), LOCALS)
  {
    NamesTyped();
    var args := [P(), X(), Bool(true, B32)];
    hide FindDecl;
    assert args[..2] == [P(), X()] && args[..2][..1] == [P()] && args[..2][..1][..0] == [];
    assert TypedArgs(Log(), [], LOCALS);
    assert TypedArgs(Log(), args[..2][..1], LOCALS);
    assert TypedArgs(Log(), args[..2], LOCALS);
  }

  lemma LabelsTyped()
    ensures TypedLabel(Value(Name("RED", COLOR)), COLOR, LOCALS) && TypedLabel(Value(Int(1, COLOR)), COLOR, LOCALS)
    ensures TypedLabel(Wildcard, COLOR, LOCALS)
  {
    hide InRange, FindDecl;
    MembersTyped(LOCALS);
    SmallFit();
  }

  lemma FlipTyped()
    ensures TypedStmt(Assign(X(), None, Unary(BitNot, X(), I64)), LOCALS, I32, false)
  {
    hide TypedExpr, FindDecl;
    NamesTyped();
    Lookups(LOCALS);
    One(BitNot, X(), I64);
  }

  lemma ChoiceTyped()
    ensures TypedStmt(Choice(), LOCALS, I32, false)
  {
    hide TypedExpr, FindDecl, InRange, TypedLabel;
    NamesTyped();
    LabelsTyped();
    CallTyped();
    FlipTyped();
    var call := ExprStmt(Call(Log(), [P(), X(), Bool(true, B32)], Void));
    Alone(call, LOCALS, false);
    assert TypedStmt(Block([call]), LOCALS, I32, false);
    ArmsTyped(Choice().arms);
  }

  lemma ArmsTyped(arms: seq<Arm>)
    requires |arms| == 2 && |arms[0].labels| == 2 && |arms[1].labels| == 1
    requires TypedStmt(arms[0].body, LOCALS, I32, false) && TypedStmt(arms[1].body, LOCALS, I32, false)
    requires TypedLabel(arms[0].labels[0], COLOR, LOCALS) && TypedLabel(arms[0].labels[1], COLOR, LOCALS)
    requires TypedLabel(arms[1].labels[0], COLOR, LOCALS)
    ensures forall i :: 0 <= i < |arms| ==>
              && TypedStmt(arms[i].body, LOCALS, I32, false)
              && forall j :: 0 <= j < |arms[i].labels| ==> TypedLabel(arms[i].labels[j], COLOR, LOCALS)
  {
    hide TypedStmt, TypedLabel;
  }

  lemma Then(ss: seq<Stmt>, st: Stmt, scope: Scope)
    requires TypedSeq(ss, PARAMS, I32, false) && AfterSeq(ss, PARAMS) == scope && TypedStmt(st, scope, I32, false)
    ensures TypedSeq(ss + [st], PARAMS, I32, false) && AfterSeq(ss + [st], PARAMS) == After(st, scope)
  {
    hide TypedStmt;
    assert (ss + [st])[..|ss|] == ss;
  }

  lemma EndsTyped()
    ensures TypedStmt(Var(Decl("x", I64), Some(Conv(P(), I64))), PARAMS, I32, false)
    ensures TypedStmt(Var(Decl("e", COLOR), Some(Name("BLUE", COLOR))), PARAMS + [Decl("x", I64)], I32, false)
    ensures TypedStmt(Empty, LOCALS, I32, false) && TypedStmt(Return(Some(Conv(X(), I32))), LOCALS, I32, false)
  {
    hide TypedExpr, FindDecl;
    NamesTyped();
    MembersTyped(PARAMS + [Decl("x", I64)]);
    Converted(P(), I64, PARAMS);
    Converted(X(), I32, LOCALS);
  }

  /** The sample is a checked function. */
  lemma SampleIsChecked()
    ensures TypedFn(FnDecl(PARAMS, I32, Body()))
  {
    hide TypedStmt, TypedSeq, AfterSeq;
    LoopTyped();
    ChoiceTyped();
    EndsTyped();
    var a, b := Var(Decl("x", I64), Some(Conv(P(), I64))), Var(Decl("e", COLOR), Some(Name("BLUE", COLOR)));
    var last := Return(Some(Conv(X(), I32)));
    Nothing();
    Then([], a, PARAMS);
    assert [] + [a] == [a];
    Then([a], b, PARAMS + [Decl("x", I64)]);
    assert PARAMS + [Decl("x", I64)] + [Decl("e", COLOR)] == LOCALS && [a] + [b] == [a, b];
    Then([a, b], Loop(), LOCALS);
    assert [a, b] + [Loop()] == [a, b, Loop()];
    Then([a, b, Loop()], Choice(), LOCALS);
    assert [a, b, Loop()] + [Choice()] == [a, b, Loop(), Choice()];
    Then([a, b, Loop(), Choice()], Empty, LOCALS);
    assert [a, b, Loop(), Choice()] + [Empty] == [a, b, Loop(), Choice(), Empty];
    Then([a, b, Loop(), Choice(), Empty], last, LOCALS);
    assert Body() == [a, b, Loop(), Choice(), Empty] + [last];
  }

  lemma Nothing()
    ensures TypedSeq([], PARAMS, I32, false) && AfterSeq([], PARAMS) == PARAMS
  {
  }
}
