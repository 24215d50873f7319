/** The second parser, the one written in the language itself: it gives
    up at the first error, has no nesting limit, and does not know about error
    tokens. */
module Stage1Parsing {
  import opened Words
  import opened Tokens
  import opened Syntax
  import C = Parsing

  datatype State = State(pos: nat, errors: nat)

  datatype Res<+T> = Res(s: State, v: T)

  predicate At(ts: C.Input, s: State) {
    s.pos < |ts|
  }

  predicate Forward(ts: C.Input, s: State, t: State) {
    At(ts, t) && s.pos <= t.pos && s.errors <= t.errors
  }

  function Cur(ts: C.Input, s: State): Kind
    requires At(ts, s)
  {
    ts[s.pos].kind
  }

  function Advance(ts: C.Input, s: State): (t: State)
    requires At(ts, s)
    ensures Forward(ts, s, t) && t.errors == s.errors && (Cur(ts, s) != EOF ==> t.pos == s.pos + 1)
  {
    if s.pos + 1 < |ts| then s.(pos := s.pos + 1) else s
  }

  function Report(s: State): State {
    s.(errors := s.errors + 1)
  }

  function Expect(ts: C.Input, s: State, k: Kind): (t: State)
    requires At(ts, s)
    ensures Forward(ts, s, t) && (t.errors == s.errors <==> Cur(ts, s) == k)
    ensures Cur(ts, s) == k && k != EOF ==> t.pos == s.pos + 1
  {
    if Cur(ts, s) == k then Advance(ts, s) else Report(s)
  }

  // ------------------------------------------------------------------- types

  function ParseType(ts: C.Input, s: State): (r: Res<Type>)
    requires At(ts, s)
    ensures Forward(ts, s, r.s) && (r.s.errors == s.errors ==> r.s.pos > s.pos)
  {
    var k := Cur(ts, s);
    if IsCoreType(k) then TypeSuffixes(ts, Advance(ts, s), CoreType(k))
    else if k == IDENT then TypeSuffixes(ts, Advance(ts, s), NamedType(ts[s.pos].text))
    else Res(Report(s), NoType)
  }

  function TypeSuffixes(ts: C.Input, s: State, t: Type): (r: Res<Type>)
    requires At(ts, s)
    ensures Forward(ts, s, r.s)
    decreases |ts| - s.pos
  {
    if Cur(ts, s) == STAR then TypeSuffixes(ts, Advance(ts, s), PointerType(t))
    else if Cur(ts, s) == LBRACKET then
      var s1 := Advance(ts, s);
      if Cur(ts, s1) != INT then Res(Report(s1), NoType)
      else TypeSuffixes(ts, Expect(ts, Advance(ts, s1), RBRACKET), ArrayType(t, ts[s1.pos].value))
    else Res(s, t)
  }

  // ------------------------------------------------------------- expressions

  function ParsePrimary(ts: C.Input, s: State): (r: Res<Expr>)
    requires At(ts, s)
    ensures Forward(ts, s, r.s) && (r.s.errors == s.errors ==> r.s.pos > s.pos)
    decreases |ts| - s.pos, 0
  {
    var k, t := Cur(ts, s), ts[s.pos];
    if k == INT then Res(Advance(ts, s), IntLit(t.value))
    else if k == CHAR then Res(Advance(ts, s), CharLit(t.value))
    else if k == FLOAT then Res(Advance(ts, s), FloatLit(t.float))
    else if k == KW_TRUE || k == KW_FALSE then Res(Advance(ts, s), BoolLit(k == KW_TRUE))
    else if k == KW_NULL then Res(Advance(ts, s), NullLit)
    else if k == STRING then Res(Advance(ts, s), StringLit(t.str))
    else if k == IDENT then Res(Advance(ts, s), Name(t.text))
    else if k == LPAREN then
      var r := ParseExpr(ts, Advance(ts, s));
      Res(Expect(ts, r.s, RPAREN), r.v)
    else Res(Report(s), NoExpr)
  }

  function ParsePostfix(ts: C.Input, s: State): (r: Res<Expr>)
    requires At(ts, s)
    ensures Forward(ts, s, r.s) && (r.s.errors == s.errors ==> r.s.pos > s.pos)
    decreases |ts| - s.pos, 2
  {
    var r := ParsePrimary(ts, s);
    if r.v == NoExpr then r else PostfixOps(ts, r.s, r.v)
  }

  function PostfixOps(ts: C.Input, s: State, e: Expr): (r: Res<Expr>)
    requires At(ts, s)
    ensures Forward(ts, s, r.s)
    decreases |ts| - s.pos, 1
  {
    var k := Cur(ts, s);
    if k == LPAREN then
      var r := ParseArgs(ts, Advance(ts, s));
      PostfixOps(ts, Expect(ts, r.s, RPAREN), Call(e, r.v))
    else if k == LBRACKET then
      var r := ParseExpr(ts, Advance(ts, s));
      PostfixOps(ts, Expect(ts, r.s, RBRACKET), Index(e, r.v))
    else if k == DOT then
      var s1 := Advance(ts, s);
      if Cur(ts, s1) == KW_AS then
        var r := ParseBracketedType(ts, Advance(ts, s1));
        PostfixOps(ts, r.s, Cast(e, r.v))
      else if Cur(ts, s1) != IDENT then Res(Report(s1), NoExpr)
      else PostfixOps(ts, Advance(ts, s1), Field(e, Some(ts[s1.pos].text)))
    else Res(s, e)
  }

  function ParseBracketedType(ts: C.Input, s: State): (r: Res<Type>)
    requires At(ts, s)
    ensures Forward(ts, s, r.s)
  {
    var r := ParseType(ts, Expect(ts, s, LPAREN));
    Res(Expect(ts, r.s, RPAREN), r.v)
  }

  function ParseArgs(ts: C.Input, s: State): (r: Res<seq<Expr>>)
    requires At(ts, s)
    ensures Forward(ts, s, r.s)
    decreases |ts| - s.pos, 17
  {
    if Cur(ts, s) == RPAREN then Res(s, []) else ParseArgList(ts, s)
  }

  function ParseArgList(ts: C.Input, s: State): (r: Res<seq<Expr>>)
    requires At(ts, s)
    ensures Forward(ts, s, r.s)
    decreases |ts| - s.pos, 16
  {
    var r := ParseExpr(ts, s);
    if Cur(ts, r.s) == COMMA then
      var rest := ParseArgList(ts, Advance(ts, r.s));
      Res(rest.s, [r.v] + rest.v)
    else Res(r.s, [r.v])
  }

  function ParseUnary(ts: C.Input, s: State): (r: Res<Expr>)
    requires At(ts, s)
    ensures Forward(ts, s, r.s) && (r.s.errors == s.errors ==> r.s.pos > s.pos)
    decreases |ts| - s.pos, 3
  {
    var k := Cur(ts, s);
    if C.IsUnaryOp(k) then
      var r := ParseUnary(ts, Advance(ts, s));
      Res(r.s, Unary(k, r.v))
    else if k == KW_SIZEOF then
      var r := ParseBracketedType(ts, Advance(ts, s));
      Res(r.s, SizeOf(r.v))
    else ParsePostfix(ts, s)
  }

  function ParseLevel(ts: C.Input, s: State, level: nat): (r: Res<Expr>)
    requires At(ts, s) && level <= 10
    ensures Forward(ts, s, r.s) && (r.s.errors == s.errors ==> r.s.pos > s.pos)
    decreases |ts| - s.pos, 14 - level
  {
    if level == 10 then ParseUnary(ts, s)
    else
      var r := ParseLevel(ts, s, level + 1);
      LevelOps(ts, r.s, level, r.v)
  }

  function LevelOps(ts: C.Input, s: State, level: nat, lhs: Expr): (r: Res<Expr>)
    requires At(ts, s) && level < 10
    ensures Forward(ts, s, r.s)
    decreases |ts| - s.pos, 0
  {
    if C.IsOp(level, Cur(ts, s)) then
      var r := ParseLevel(ts, Advance(ts, s), level + 1);
      LevelOps(ts, r.s, level, Binary(Cur(ts, s), lhs, r.v))
    else Res(s, lhs)
  }

  /** The loosest level is the whole expression. */
  function ParseExpr(ts: C.Input, s: State): (r: Res<Expr>)
    requires At(ts, s)
    ensures Forward(ts, s, r.s) && (r.s.errors == s.errors ==> r.s.pos > s.pos)
    decreases |ts| - s.pos, 15
  {
    ParseLevel(ts, s, 0)
  }

  // -------------------------------------------------------------- statements

  /** A block is a statement here; NoStmt when it does not start with a brace. */
  function ParseBlock(ts: C.Input, s: State): (r: Res<Stmt>)
    requires At(ts, s)
    ensures Forward(ts, s, r.s) && (r.s.errors == s.errors ==> r.s.pos > s.pos)
    decreases |ts| - s.pos, 18
  {
    if Cur(ts, s) != LBRACE then Res(Report(s), NoStmt)
    else
      var r := ParseStmts(ts, Advance(ts, s));
      Res(Expect(ts, r.s, RBRACE), Block(r.v))
  }

  function StmtsOf(b: Stmt): seq<Stmt> {
    if b.Block? then b.stmts else []
  }

  function ParseStmts(ts: C.Input, s: State): (r: Res<seq<Stmt>>)
    requires At(ts, s)
    ensures Forward(ts, s, r.s)
    decreases |ts| - s.pos, 21
  {
    if Cur(ts, s) == RBRACE || Cur(ts, s) == EOF || s.errors != 0 then Res(s, [])
    else
      var r := ParseStmt(ts, s);
      if r.s.errors != 0 then Res(r.s, [r.v])
      else
        var rest := ParseStmts(ts, r.s);
        Res(rest.s, [r.v] + rest.v)
  }

  function ParseStmt(ts: C.Input, s: State): (r: Res<Stmt>)
    requires At(ts, s)
    ensures Forward(ts, s, r.s) && (r.s.errors == s.errors ==> r.s.pos > s.pos)
    decreases |ts| - s.pos, 20
  {
    var k := Cur(ts, s);
    if k == LBRACE then ParseBlock(ts, s)
    else if k == SEMI then Res(Advance(ts, s), Empty)
    else if k == KW_LET then ParseVar(ts, Advance(ts, s))
    else if k == KW_MATCH then ParseMatch(ts, Advance(ts, s))
    else if k == KW_IF then ParseIf(ts, Advance(ts, s))
    else if k == KW_WHILE then
      var c := ParseExpr(ts, Advance(ts, s));
      var body := ParseBlock(ts, c.s);
      Res(body.s, While(c.v, StmtsOf(body.v)))
    else if k == KW_RETURN then ParseReturn(ts, Advance(ts, s))
    else if k == KW_BREAK then Res(Expect(ts, Advance(ts, s), SEMI), Break)
    else if k == KW_CONTINUE then Res(Expect(ts, Advance(ts, s), SEMI), Continue)
    else ParseExprStmt(ts, s)
  }

  datatype Declarator = Declarator(param: Param, named: bool)

  /** `"mut"? Type identifier`; the name may be missing. */
  function ParseDeclarator(ts: C.Input, s: State): (r: Res<Declarator>)
    requires At(ts, s)
    ensures Forward(ts, s, r.s) && (r.s.errors == s.errors ==> r.s.pos > s.pos && r.v.named)
  {
    var isMut := Cur(ts, s) == KW_MUT;
    var t := ParseType(ts, if isMut then Advance(ts, s) else s);
    if Cur(ts, t.s) == IDENT then Res(Advance(ts, t.s), Declarator(Param(isMut, t.v, ts[t.s.pos].text), true))
    else Res(Report(t.s), Declarator(Param(isMut, t.v, ""), false))
  }

  function ParseVar(ts: C.Input, s: State): (r: Res<Stmt>)
    requires At(ts, s)
    ensures Forward(ts, s, r.s)
  {
    var d := ParseDeclarator(ts, s);
    var Param(isMut, ty, name) := d.v.param;
    if !d.v.named then Res(d.s, Var(isMut, ty, name, None))
    else
      var init := ParseInit(ts, d.s);
      Res(Expect(ts, init.s, SEMI), Var(isMut, ty, name, init.v))
  }

  function ParseInit(ts: C.Input, s: State): (r: Res<Option<Expr>>)
    requires At(ts, s)
    ensures Forward(ts, s, r.s)
  {
    if Cur(ts, s) == EQ then
      var e := ParseExpr(ts, Advance(ts, s));
      Res(e.s, Some(e.v))
    else Res(s, None)
  }

  function ParseIf(ts: C.Input, s: State): (r: Res<Stmt>)
    requires At(ts, s)
    ensures Forward(ts, s, r.s)
    decreases |ts| - s.pos, 23
  {
    var c := ParseExpr(ts, s);
    var thn := ParseBlock(ts, c.s);
    if Cur(ts, thn.s) == KW_ELSE then
      var s1 := Advance(ts, thn.s);
      if Cur(ts, s1) == KW_IF then
        var e := ParseStmt(ts, s1);
        Res(e.s, If(c.v, StmtsOf(thn.v), Some(e.v)))
      else
        var b := ParseBlock(ts, s1);
        Res(b.s, If(c.v, StmtsOf(thn.v), Some(b.v)))
    else Res(thn.s, If(c.v, StmtsOf(thn.v), None))
  }

  function ParseMatch(ts: C.Input, s: State): (r: Res<Stmt>)
    requires At(ts, s)
    ensures Forward(ts, s, r.s)
    decreases |ts| - s.pos, 25
  {
    var e := ParseExpr(ts, s);
    var arms := ParseArms(ts, Expect(ts, e.s, LBRACE));
    Res(Expect(ts, arms.s, RBRACE), Match(e.v, arms.v))
  }

  function ParseArms(ts: C.Input, s: State): (r: Res<seq<Arm>>)
    requires At(ts, s)
    ensures Forward(ts, s, r.s)
    decreases |ts| - s.pos, 24
  {
    if Cur(ts, s) == RBRACE || Cur(ts, s) == EOF || s.errors != 0 then Res(s, [])
    else
      var labels := ParseLabels(ts, s);
      var body := ParseStmt(ts, Expect(ts, labels.s, FAT_ARROW));
      if body.s.errors != 0 then Res(body.s, [Arm(labels.v, body.v)])
      else
        var rest := ParseArms(ts, body.s);
        Res(rest.s, [Arm(labels.v, body.v)] + rest.v)
  }

  /** Labels are whole expressions here, and a wildcard is a null one. */
  function ParseLabels(ts: C.Input, s: State): (r: Res<seq<Option<Expr>>>)
    requires At(ts, s)
    ensures Forward(ts, s, r.s) && (r.s.errors == s.errors ==> r.s.pos > s.pos)
    decreases |ts| - s.pos
  {
    var l := ParseLabel(ts, s);
    if Cur(ts, l.s) == COMMA then
      var rest := ParseLabels(ts, Advance(ts, l.s));
      Res(rest.s, [l.v] + rest.v)
    else Res(l.s, [l.v])
  }

  function ParseLabel(ts: C.Input, s: State): (r: Res<Option<Expr>>)
    requires At(ts, s)
    ensures Forward(ts, s, r.s) && (r.s.errors == s.errors ==> r.s.pos > s.pos)
  {
    if Cur(ts, s) == IDENT && ts[s.pos].text == "_" then Res(Advance(ts, s), None)
    else
      var e := ParseExpr(ts, s);
      Res(e.s, if e.v == NoExpr then None else Some(e.v))
  }

  function ParseReturn(ts: C.Input, s: State): (r: Res<Stmt>)
    requires At(ts, s)
    ensures Forward(ts, s, r.s)
  {
    if Cur(ts, s) == SEMI then Res(Expect(ts, s, SEMI), Return(None))
    else
      var e := ParseExpr(ts, s);
      Res(Expect(ts, e.s, SEMI), Return(Some(e.v)))
  }

  function ParseExprStmt(ts: C.Input, s: State): (r: Res<Stmt>)
    requires At(ts, s)
    ensures Forward(ts, s, r.s) && (r.s.errors == s.errors ==> r.s.pos > s.pos)
  {
    var e := ParseExpr(ts, s);
    if C.IsAssignOp(Cur(ts, e.s)) then
      var rhs := ParseExpr(ts, Advance(ts, e.s));
      Res(Expect(ts, rhs.s, SEMI), Assign(e.v, Cur(ts, e.s), rhs.v))
    else Res(Expect(ts, e.s, SEMI), ExprStmt(e.v))
  }

  // ------------------------------------------------------------------- items

  /** From the name on; the `fn` has been passed. */
  function ParseFn(ts: C.Input, s: State, wantBody: bool): (r: Res<FnDecl>)
    requires At(ts, s)
    ensures Forward(ts, s, r.s)
  {
    if Cur(ts, s) != IDENT then Res(Report(s), FnDecl("", [], false, NoType, None))
    else
      var params := ParseParamList(ts, Advance(ts, s));
      ParseFnRest(ts, params.s, ts[s.pos].text, params.v, wantBody)
  }

  function ParseParamList(ts: C.Input, s: State): (r: Res<C.Params>)
    requires At(ts, s)
    ensures Forward(ts, s, r.s)
  {
    var s1 := Expect(ts, s, LPAREN);
    var params := if Cur(ts, s1) == RPAREN then Res(s1, C.Params([], false)) else ParseParams(ts, s1);
    Res(Expect(ts, params.s, RPAREN), params.v)
  }

  function ParseParams(ts: C.Input, s: State): (r: Res<C.Params>)
    requires At(ts, s)
    ensures Forward(ts, s, r.s)
    decreases |ts| - s.pos
  {
    if s.errors != 0 then Res(s, C.Params([], false))
    else if Cur(ts, s) == ELLIPSIS then Res(Advance(ts, s), C.Params([], true))
    else
      var d := ParseDeclarator(ts, s);
      if Cur(ts, d.s) == COMMA then
        var s1 := Advance(ts, d.s);
        if d.s.errors != 0 then Res(s1, C.Params([d.v.param], false))
        else
          var rest := ParseParams(ts, s1);
          Res(rest.s, C.Params([d.v.param] + rest.v.params, rest.v.variadic))
      else Res(d.s, C.Params([d.v.param], false))
  }

  function ParseFnRest(ts: C.Input, s: State, name: string, params: C.Params, wantBody: bool): (r: Res<FnDecl>)
    requires At(ts, s)
    ensures Forward(ts, s, r.s)
  {
    var ret := if Cur(ts, s) == ARROW then ParseType(ts, Advance(ts, s)) else Res(s, CoreType(KW_VOID));
    if wantBody then
      var body := ParseBlock(ts, ret.s);
      Res(body.s, FnDecl(name, params.params, params.variadic, ret.v, Some(StmtsOf(body.v))))
    else Res(Expect(ts, ret.s, SEMI), FnDecl(name, params.params, params.variadic, ret.v, None))
  }

  function ParseItem(ts: C.Input, s: State): (r: Res<Option<Item>>)
    requires At(ts, s)
    ensures Forward(ts, s, r.s) && (r.s.errors == s.errors ==> r.s.pos > s.pos)
  {
    var k := Cur(ts, s);
    if k == KW_FN then
      var f := ParseFn(ts, Advance(ts, s), true);
      Res(f.s, Some(FnItem(f.v)))
    else if k == KW_STRUCT then ParseStruct(ts, Advance(ts, s))
    else if k == KW_ENUM then ParseEnum(ts, Advance(ts, s))
    else if k == KW_LET then ParseGlobal(ts, Advance(ts, s))
    else if k == KW_EXTERN then ParseExtern(ts, Advance(ts, s))
    else Res(Report(s), None)
  }

  function ParseStruct(ts: C.Input, s: State): (r: Res<Option<Item>>)
    requires At(ts, s)
    ensures Forward(ts, s, r.s)
  {
    if Cur(ts, s) != IDENT then Res(Report(s), Some(StructItem("", [])))
    else
      var fields := ParseFields(ts, Expect(ts, Advance(ts, s), LBRACE));
      Res(Expect(ts, fields.s, RBRACE), Some(StructItem(ts[s.pos].text, fields.v)))
  }

  function ParseFields(ts: C.Input, s: State): (r: Res<seq<Param>>)
    requires At(ts, s)
    ensures Forward(ts, s, r.s)
    decreases |ts| - s.pos
  {
    if Cur(ts, s) == RBRACE || Cur(ts, s) == EOF || s.errors != 0 then Res(s, [])
    else
      var f := ParseField(ts, s);
      if f.s.errors != 0 then Res(f.s, [f.v])
      else
        var rest := ParseFields(ts, f.s);
        Res(rest.s, [f.v] + rest.v)
  }

  function ParseField(ts: C.Input, s: State): (r: Res<Param>)
    requires At(ts, s)
    ensures Forward(ts, s, r.s) && (r.s.errors == s.errors ==> r.s.pos > s.pos)
  {
    var t := ParseType(ts, s);
    if Cur(ts, t.s) == IDENT then Res(Expect(ts, Advance(ts, t.s), SEMI), Param(false, t.v, ts[t.s.pos].text))
    else Res(Expect(ts, Report(t.s), SEMI), Param(false, t.v, ""))
  }

  function ParseEnum(ts: C.Input, s: State): (r: Res<Option<Item>>)
    requires At(ts, s)
    ensures Forward(ts, s, r.s)
  {
    if Cur(ts, s) != IDENT then Res(Report(s), Some(EnumItem("", KW_I32, [])))
    else
      var s1 := Advance(ts, s);
      // whatever follows the colon is taken as the base type
      var colon := Cur(ts, s1) == COLON;
      var s2 := if colon then Advance(ts, s1) else s1;
      var base := if colon then Cur(ts, s2) else KW_I32;
      var members := ParseMembers(ts, Expect(ts, if colon then Advance(ts, s2) else s2, LBRACE));
      Res(Expect(ts, members.s, RBRACE), Some(EnumItem(ts[s.pos].text, base, members.v)))
  }

  function ParseMembers(ts: C.Input, s: State): (r: Res<seq<EnumMember>>)
    requires At(ts, s)
    ensures Forward(ts, s, r.s)
    decreases |ts| - s.pos
  {
    if Cur(ts, s) == RBRACE || Cur(ts, s) == EOF || s.errors != 0 then Res(s, [])
    else
      var s0 := if Cur(ts, s) == IDENT then s else Report(s);
      var value := ParseMemberValue(ts, Advance(ts, s0));
      var m := EnumMember(ts[s.pos].text, value.v);
      var s1 := if Cur(ts, value.s) == COMMA then Advance(ts, value.s)
                else if Cur(ts, value.s) == RBRACE then value.s else Report(value.s);
      var rest := ParseMembers(ts, s1);
      Res(rest.s, [m] + rest.v)
  }

  function ParseMemberValue(ts: C.Input, s: State): (r: Res<Option<nat>>)
    requires At(ts, s)
    ensures Forward(ts, s, r.s)
  {
    if Cur(ts, s) == EQ then
      var s1 := Advance(ts, s);
      Res(Advance(ts, if Cur(ts, s1) == INT then s1 else Report(s1)), Some(ts[s1.pos].value))
    else Res(s, None)
  }

  function ParseGlobal(ts: C.Input, s: State): (r: Res<Option<Item>>)
    requires At(ts, s)
    ensures Forward(ts, s, r.s)
  {
    var d := ParseDeclarator(ts, s);
    var Param(isMut, ty, name) := d.v.param;
    if !d.v.named then Res(d.s, Some(GlobalItem(isMut, ty, name, None)))
    else
      var init := ParseInit(ts, d.s);
      Res(Expect(ts, init.s, SEMI), Some(GlobalItem(isMut, ty, name, init.v)))
  }

  function ParseExtern(ts: C.Input, s: State): (r: Res<Option<Item>>)
    requires At(ts, s)
    ensures Forward(ts, s, r.s)
  {
    if Cur(ts, s) != STRING then Res(Report(s), Some(ExternItem("", [])))
    else
      var fns := ParseExternFns(ts, Expect(ts, Advance(ts, s), LBRACE));
      Res(Expect(ts, fns.s, RBRACE), Some(ExternItem(ts[s.pos].str, fns.v)))
  }

  function ParseExternFns(ts: C.Input, s: State): (r: Res<seq<FnDecl>>)
    requires At(ts, s)
    ensures Forward(ts, s, r.s)
    decreases |ts| - s.pos
  {
    if Cur(ts, s) == RBRACE || Cur(ts, s) == EOF || s.errors != 0 then Res(s, [])
    else
      var f := ParseFn(ts, Advance(ts, if Cur(ts, s) == KW_FN then s else Report(s)), false);
      var rest := ParseExternFns(ts, f.s);
      Res(rest.s, [f.v] + rest.v)
  }

  function ParseItems(ts: C.Input, s: State): (r: Res<seq<Option<Item>>>)
    requires At(ts, s)
    ensures Forward(ts, s, r.s)
    decreases |ts| - s.pos
  {
    if Cur(ts, s) == EOF || s.errors != 0 then Res(s, [])
    else
      var it := ParseItem(ts, s);
      if it.s.errors != 0 then Res(it.s, [it.v])
      else
        var rest := ParseItems(ts, it.s);
        Res(rest.s, [it.v] + rest.v)
  }

  function ParseProgram(ts: C.Input): Res<seq<Option<Item>>> {
    ParseItems(ts, State(0, 0))
  }
}
