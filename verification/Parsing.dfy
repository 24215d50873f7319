/** The recursive-descent parser, as functions on its state: what each routine
    returns and where it leaves off. ParserClass.dfy has the routines. */
module Parsing {
  import opened Words
  import opened Tokens
  import opened Syntax

  const MAX_NESTING: nat := 200

  /** The parser's input always ends in an end-of-file token. */
  type Input = ts: seq<Token> | |ts| > 0 && ts[|ts| - 1].kind == EOF witness [Token(EOF, "", 0, "", 0)]

  /** The two counters together are the program's error count: `lexical` are
      the error tokens reported on the way, `syntax` everything else. */
  datatype State = State(pos: nat, depth: nat, lexical: nat, syntax: nat)

  datatype Res<+T> = Res(s: State, v: T)

  function Errors(s: State): nat {
    s.lexical + s.syntax
  }

  /** How many error tokens there are before position `n`. */
  function ErrorTokens(ts: Input, n: nat): nat
    requires n <= |ts|
  {
    if n == 0 then 0 else ErrorTokens(ts, n - 1) + (if ts[n - 1].kind == ERROR then 1 else 0)
  }

  /** At a token, and not at one that is an error. */
  predicate At(ts: Input, s: State) {
    s.pos < |ts| && ts[s.pos].kind != ERROR
  }

  /** What every routine keeps: it never moves back or past the end, never
      rests on an error token, reports each error token it passes exactly once,
      and leaves the nesting counter as it was. */
  predicate Steady(ts: Input, s: State, t: State)
    requires At(ts, s)
  {
    && At(ts, t) && s.pos <= t.pos && t.depth == s.depth
    && s.syntax <= t.syntax && s.lexical <= t.lexical
    && t.lexical - s.lexical == ErrorTokens(ts, t.pos) - ErrorTokens(ts, s.pos)
  }

  /** Nothing was reported. */
  predicate Clean(s: State, t: State) {
    Errors(t) == Errors(s)
  }

  // ------------------------------------------------------------ token access

  function Cur(ts: Input, s: State): Kind
    requires At(ts, s)
  {
    ts[s.pos].kind
  }

  function SkipErrors(ts: Input, s: State): (t: State)
    requires s.pos < |ts|
    ensures At(ts, t) && s.pos <= t.pos && t == s.(pos := t.pos, lexical := t.lexical)
    ensures t.lexical - s.lexical == ErrorTokens(ts, t.pos) - ErrorTokens(ts, s.pos) == t.pos - s.pos
    decreases |ts| - s.pos
  {
    if ts[s.pos].kind == ERROR && s.pos + 1 < |ts| then
      SkipErrors(ts, s.(pos := s.pos + 1, lexical := s.lexical + 1))
    else s
  }

  /** To the next token that is no error; the end of file is never left. */
  function Advance(ts: Input, s: State): (t: State)
    requires At(ts, s)
    ensures Steady(ts, s, t) && t.syntax == s.syntax
    ensures Cur(ts, s) != EOF ==> t.pos > s.pos
    ensures Clean(s, t) ==> t.pos <= s.pos + 1
  {
    if s.pos + 1 < |ts| then SkipErrors(ts, s.(pos := s.pos + 1)) else s
  }

  function Report(s: State): State {
    s.(syntax := s.syntax + 1)
  }

  function Expect(ts: Input, s: State, k: Kind): (r: Res<bool>)
    requires At(ts, s)
    ensures Steady(ts, s, r.s) && (Clean(s, r.s) ==> r.v)
    ensures r.v <==> Cur(ts, s) == k
    ensures r.v && k != EOF ==> r.s.pos > s.pos
  {
    if Cur(ts, s) == k then Res(Advance(ts, s), true) else Res(Report(s), false)
  }

  function ExpectIdent(ts: Input, s: State): (r: Res<Option<string>>)
    requires At(ts, s)
    ensures Steady(ts, s, r.s) && (Clean(s, r.s) ==> r.v.Some?)
    ensures r.v.Some? ==> Cur(ts, s) == IDENT && r.s.pos > s.pos
  {
    if Cur(ts, s) == IDENT then Res(Advance(ts, s), Some(ts[s.pos].text)) else Res(Report(s), None)
  }

  // ---------------------------------------------------------------- recovery

  predicate StopsStmt(k: Kind) {
    k == RBRACE || k == LBRACE || k == KW_LET || k == KW_IF || k == KW_WHILE || k == KW_MATCH || k == KW_RETURN
    || k == KW_BREAK || k == KW_CONTINUE || k == KW_FN || k == KW_STRUCT || k == KW_ENUM || k == KW_EXTERN
  }

  predicate StopsItem(k: Kind) {
    k == KW_FN || k == KW_STRUCT || k == KW_ENUM || k == KW_LET || k == KW_EXTERN
  }

  function SyncStmt(ts: Input, s: State): (t: State)
    requires At(ts, s)
    ensures Steady(ts, s, t)
    decreases |ts| - s.pos
  {
    if Cur(ts, s) == EOF then s
    else if Cur(ts, s) == SEMI then Advance(ts, s)
    else if StopsStmt(Cur(ts, s)) then s
    else SyncStmt(ts, Advance(ts, s))
  }

  function SyncMember(ts: Input, s: State): (t: State)
    requires At(ts, s)
    ensures Steady(ts, s, t)
    decreases |ts| - s.pos
  {
    if Cur(ts, s) == EOF then s
    else if Cur(ts, s) == SEMI || Cur(ts, s) == COMMA then Advance(ts, s)
    else if Cur(ts, s) == RBRACE then s
    else SyncMember(ts, Advance(ts, s))
  }

  function SyncItem(ts: Input, s: State): (t: State)
    requires At(ts, s)
    ensures Steady(ts, s, t)
    decreases |ts| - s.pos
  {
    if Cur(ts, s) == EOF || StopsItem(Cur(ts, s)) then s else SyncItem(ts, Advance(ts, s))
  }

  /** One token further if a resynchronisation did not move. */
  function Forced(ts: Input, before: nat, s: State): (t: State)
    requires At(ts, s)
    ensures Steady(ts, s, t)
    ensures before <= s.pos && ts[s.pos].kind != EOF ==> t.pos > before
    ensures s.pos != before ==> t == s
  {
    if s.pos == before then Advance(ts, s) else s
  }

  // ------------------------------------------------------------------- types

  function ParseType(ts: Input, s: State): (r: Res<Type>)
    requires At(ts, s)
    ensures Steady(ts, s, r.s) && (Clean(s, r.s) ==> WholeType(r.v)) && (r.v != NoType ==> r.s.pos > s.pos)
  {
    var k := Cur(ts, s);
    if IsCoreType(k) then TypeSuffixes(ts, Advance(ts, s), CoreType(k))
    else if k == IDENT then TypeSuffixes(ts, Advance(ts, s), NamedType(ts[s.pos].text))
    else Res(Report(s), NoType)
  }

  /** `*` and `[n]`, the innermost type first. */
  function TypeSuffixes(ts: Input, s: State, t: Type): (r: Res<Type>)
    requires At(ts, s) && t != NoType
    ensures Steady(ts, s, r.s) && (WholeType(t) ==> WholeType(r.v)) && r.v != NoType
    decreases |ts| - s.pos
  {
    if Cur(ts, s) == STAR then TypeSuffixes(ts, Advance(ts, s), PointerType(t))
    else if Cur(ts, s) == LBRACKET then
      var s1 := Advance(ts, s);
      var n := if Cur(ts, s1) == INT then ts[s1.pos].value else 0;
      var s2 := if Cur(ts, s1) == INT then Advance(ts, s1) else Report(s1);
      TypeSuffixes(ts, Expect(ts, s2, RBRACKET).s, ArrayType(t, n))
    else Res(s, t)
  }

  // ------------------------------------------------------------- expressions

  function ParsePrimary(ts: Input, s: State): (r: Res<Expr>)
    requires At(ts, s)
    ensures Steady(ts, s, r.s) && (Clean(s, r.s) ==> WholeExpr(r.v)) && (r.v != NoExpr ==> r.s.pos > s.pos)
    decreases |ts| - s.pos, 0
  {
    var k, t := Cur(ts, s), ts[s.pos];
    if k == INT then Res(Advance(ts, s), IntLit(t.value))
    else if k == FLOAT then Res(Advance(ts, s), FloatLit(t.float))
    else if k == CHAR then Res(Advance(ts, s), CharLit(t.value))
    else if k == STRING then Res(Advance(ts, s), StringLit(t.str))
    else if k == KW_TRUE || k == KW_FALSE then Res(Advance(ts, s), BoolLit(k == KW_TRUE))
    else if k == KW_NULL then Res(Advance(ts, s), NullLit)
    else if k == IDENT then Res(Advance(ts, s), Name(t.text))
    else if k == LPAREN then
      var r := ParseExpr(ts, Advance(ts, s));
      Res(Expect(ts, r.s, RPAREN).s, r.v)
    else Res(Report(s), NoExpr)
  }

  function ParsePostfix(ts: Input, s: State): (r: Res<Expr>)
    requires At(ts, s)
    ensures Steady(ts, s, r.s) && (Clean(s, r.s) ==> WholeExpr(r.v)) && (r.v != NoExpr ==> r.s.pos > s.pos)
    decreases |ts| - s.pos, 2
  {
    var r := ParsePrimary(ts, s);
    if r.v == NoExpr then r else PostfixOps(ts, r.s, r.v)
  }

  function PostfixOps(ts: Input, s: State, e: Expr): (r: Res<Expr>)
    requires At(ts, s) && e != NoExpr
    ensures Steady(ts, s, r.s) && (Clean(s, r.s) && WholeExpr(e) ==> WholeExpr(r.v)) && r.v != NoExpr
    decreases |ts| - s.pos, 1
  {
    var r := PostfixOp(ts, s, e);
    if r.v == NoExpr then Res(s, e) else PostfixOps(ts, r.s, r.v)
  }

  /** One postfix operator applied to `e`; NoExpr when there is none. */
  function PostfixOp(ts: Input, s: State, e: Expr): (r: Res<Expr>)
    requires At(ts, s) && e != NoExpr
    ensures Steady(ts, s, r.s) && (Clean(s, r.s) && WholeExpr(e) && r.v != NoExpr ==> WholeExpr(r.v))
    ensures r.v != NoExpr ==> r.s.pos > s.pos
    decreases |ts| - s.pos, 0
  {
    var k := Cur(ts, s);
    if k == LPAREN then
      var r := ParseArgs(ts, Advance(ts, s));
      Res(Expect(ts, r.s, RPAREN).s, Call(e, r.v))
    else if k == LBRACKET then
      var r := ParseExpr(ts, Advance(ts, s));
      Res(Expect(ts, r.s, RBRACKET).s, Index(e, r.v))
    else if k == DOT then ParseDotted(ts, Advance(ts, s), e)
    else Res(s, NoExpr)
  }

  /** What follows a dot: a cast or a field. */
  function ParseDotted(ts: Input, s: State, e: Expr): (r: Res<Expr>)
    requires At(ts, s)
    ensures Steady(ts, s, r.s) && (Clean(s, r.s) && WholeExpr(e) ==> WholeExpr(r.v)) && r.v != NoExpr
  {
    if Cur(ts, s) == KW_AS then
      var r := ParseBracketedType(ts, Advance(ts, s));
      Res(r.s, Cast(e, r.v))
    else
      var r := ExpectIdent(ts, s);
      Res(r.s, Field(e, r.v))
  }

  /** `( Type )`, as in `.as(T)` and `sizeof(T)`. */
  function ParseBracketedType(ts: Input, s: State): (r: Res<Type>)
    requires At(ts, s)
    ensures Steady(ts, s, r.s) && (Clean(s, r.s) ==> WholeType(r.v))
  {
    var open := Expect(ts, s, LPAREN);
    if !open.v then Res(open.s, NoType)
    else
      var r := ParseType(ts, open.s);
      Res(Expect(ts, r.s, RPAREN).s, r.v)
  }

  function ParseArgs(ts: Input, s: State): (r: Res<seq<Expr>>)
    requires At(ts, s)
    ensures Steady(ts, s, r.s) && (Clean(s, r.s) ==> WholeExprs(r.v))
    decreases |ts| - s.pos, 17
  {
    if Cur(ts, s) == RPAREN then Res(s, []) else ParseArgList(ts, s)
  }

  function ParseArgList(ts: Input, s: State): (r: Res<seq<Expr>>)
    requires At(ts, s)
    ensures Steady(ts, s, r.s) && (Clean(s, r.s) ==> WholeExprs(r.v)) && r.v != []
    decreases |ts| - s.pos, 16
  {
    var r := ParseExpr(ts, s);
    if Cur(ts, r.s) == COMMA then
      var rest := ParseArgList(ts, Advance(ts, r.s));
      Res(rest.s, [r.v] + rest.v)
    else Res(r.s, [r.v])
  }

  predicate IsUnaryOp(k: Kind) {
    k == MINUS || k == BANG || k == TILDE || k == STAR || k == AMP
  }

  function ParseUnary(ts: Input, s: State): (r: Res<Expr>)
    requires At(ts, s)
    ensures Steady(ts, s, r.s) && (Clean(s, r.s) ==> WholeExpr(r.v)) && (r.v != NoExpr ==> r.s.pos > s.pos)
    decreases |ts| - s.pos, 3
  {
    var k := Cur(ts, s);
    if IsUnaryOp(k) then
      var r := ParseUnary(ts, Advance(ts, s));
      Res(r.s, Unary(k, r.v))
    else if k == KW_SIZEOF then
      var r := ParseBracketedType(ts, Advance(ts, s));
      Res(r.s, SizeOf(r.v))
    else ParsePostfix(ts, s)
  }

  /** The binary operators of each level of the ladder, loosest first. */
  predicate IsOp(level: nat, k: Kind) {
    match level
    case 0 => k == PIPE_PIPE
    case 1 => k == AMP_AMP
    case 2 => k == EQ_EQ || k == BANG_EQ
    case 3 => k == LT || k == LE || k == GT || k == GE
    case 4 => k == PIPE
    case 5 => k == CARET
    case 6 => k == AMP
    case 7 => k == SHL || k == SHR
    case 8 => k == PLUS || k == MINUS
    case 9 => k == STAR || k == SLASH || k == PERCENT
    case _ => false
  }

  /** Every level has the same shape: operands of the next level, joined to the
      left. Level 10 is the unary operators. */
  function ParseLevel(ts: Input, s: State, level: nat): (r: Res<Expr>)
    requires At(ts, s) && level <= 10
    ensures Steady(ts, s, r.s) && (Clean(s, r.s) ==> WholeExpr(r.v)) && (r.v != NoExpr ==> r.s.pos > s.pos)
    decreases |ts| - s.pos, 14 - level
  {
    if level == 10 then ParseUnary(ts, s)
    else
      var r := ParseLevel(ts, s, level + 1);
      LevelOps(ts, r.s, level, r.v)
  }

  function LevelOps(ts: Input, s: State, level: nat, lhs: Expr): (r: Res<Expr>)
    requires At(ts, s) && level < 10
    ensures Steady(ts, s, r.s) && (Clean(s, r.s) && WholeExpr(lhs) ==> WholeExpr(r.v))
            && (r.v != lhs ==> r.s.pos > s.pos)
    decreases |ts| - s.pos, 0
  {
    if IsOp(level, Cur(ts, s)) then
      var r := ParseLevel(ts, Advance(ts, s), level + 1);
      LevelOps(ts, r.s, level, Binary(Cur(ts, s), lhs, r.v))
    else Res(s, lhs)
  }

  function ParseExpr(ts: Input, s: State): (r: Res<Expr>)
    requires At(ts, s)
    ensures Steady(ts, s, r.s) && (Clean(s, r.s) ==> WholeExpr(r.v)) && (r.v != NoExpr ==> r.s.pos > s.pos)
    decreases |ts| - s.pos, 15
  {
    if s.depth >= MAX_NESTING then Res(Report(s), NoExpr)
    else
      var r := ParseLevel(ts, s.(depth := s.depth + 1), 0);
      Res(r.s.(depth := s.depth), r.v)
  }

  // one turn of the loops of the ladder

  lemma NoMoreOps(ts: Input, s: State, k: nat, e: Expr)
    requires At(ts, s) && k < 10 && !IsOp(k, Cur(ts, s))
    ensures LevelOps(ts, s, k, e) == Res(s, e)
  {
  }

  lemma OneMoreOp(ts: Input, s: State, k: nat, lhs: Expr)
    requires At(ts, s) && k < 10 && IsOp(k, Cur(ts, s))
    ensures Advance(ts, s).pos > s.pos
    ensures var r := ParseLevel(ts, Advance(ts, s), k + 1);
            LevelOps(ts, s, k, lhs) == LevelOps(ts, r.s, k, Binary(Cur(ts, s), lhs, r.v))
  {
  }

  lemma OneLevelDown(ts: Input, s: State, k: nat)
    requires At(ts, s) && k < 10
    ensures ParseLevel(ts, s, k) == LevelOps(ts, ParseLevel(ts, s, k + 1).s, k, ParseLevel(ts, s, k + 1).v)
  {
  }

  lemma OneMorePostfix(ts: Input, s: State, e: Expr)
    requires At(ts, s) && e != NoExpr
    ensures var r := PostfixOp(ts, s, e); r.v != NoExpr ==> PostfixOps(ts, s, e) == PostfixOps(ts, r.s, r.v)
  {
  }

  predicate StartsLiteral(k: Kind) {
    k == INT || k == FLOAT || k == CHAR || k == STRING || k == KW_TRUE || k == KW_FALSE || k == KW_NULL
  }

  function ParseLiteral(ts: Input, s: State): (r: Res<Expr>)
    requires At(ts, s)
    ensures Steady(ts, s, r.s) && (Clean(s, r.s) ==> WholeExpr(r.v))
  {
    if StartsLiteral(Cur(ts, s)) then ParsePrimary(ts, s) else Res(Report(s), NoExpr)
  }

  // -------------------------------------------------------------- statements

  predicate IsAssignOp(k: Kind) {
    k == EQ || k == PLUS_EQ || k == MINUS_EQ || k == STAR_EQ || k == SLASH_EQ || k == PERCENT_EQ
    || k == AMP_EQ || k == PIPE_EQ || k == CARET_EQ || k == SHL_EQ || k == SHR_EQ
  }

  /** A statement that could not be read costs an error, so that callers may
      rely on either a statement or a report. */
  predicate StmtRes(ts: Input, s: State, r: Res<Stmt>)
    requires At(ts, s)
  {
    Steady(ts, s, r.s) && (Clean(s, r.s) ==> WholeStmt(r.v) && r.s.pos > s.pos)
  }

  function ParseStmt(ts: Input, s: State): (r: Res<Stmt>)
    requires At(ts, s)
    ensures StmtRes(ts, s, r)
    decreases |ts| - s.pos, 20
  {
    if s.depth >= MAX_NESTING then Res(Report(s), NoStmt)
    else
      var r := ParseStmtInner(ts, s.(depth := s.depth + 1));
      Res(r.s.(depth := s.depth), r.v)
  }

  function ParseStmtInner(ts: Input, s: State): (r: Res<Stmt>)
    requires At(ts, s)
    ensures StmtRes(ts, s, r)
    decreases |ts| - s.pos, 19
  {
    var k := Cur(ts, s);
    if k == LBRACE then
      var b := ParseBlock(ts, s);
      Res(b.s, Block(b.v))
    else if k == KW_LET then ParseVar(ts, s)
    else if k == KW_IF then ParseIf(ts, s)
    else if k == KW_WHILE then ParseWhile(ts, s)
    else if k == KW_MATCH then ParseMatch(ts, s)
    else if k == KW_RETURN then ParseReturn(ts, s)
    else if k == KW_BREAK then Res(Expect(ts, Advance(ts, s), SEMI).s, Break)
    else if k == KW_CONTINUE then Res(Expect(ts, Advance(ts, s), SEMI).s, Continue)
    else if k == SEMI then Res(Advance(ts, s), Empty)
    else ParseExprStmt(ts, s)
  }

  function ParseBlock(ts: Input, s: State): (r: Res<seq<Stmt>>)
    requires At(ts, s)
    ensures Steady(ts, s, r.s) && (Clean(s, r.s) ==> WholeStmts(r.v) && r.s.pos > s.pos)
    decreases |ts| - s.pos, 18
  {
    var open := Expect(ts, s, LBRACE);
    if !open.v then Res(open.s, [])
    else
      var r := ParseStmts(ts, open.s);
      Res(Expect(ts, r.s, RBRACE).s, r.v)
  }

  function ParseStmts(ts: Input, s: State): (r: Res<seq<Stmt>>)
    requires At(ts, s)
    ensures Steady(ts, s, r.s) && (Clean(s, r.s) ==> WholeStmts(r.v))
    ensures Cur(ts, r.s) == RBRACE || Cur(ts, r.s) == EOF
    decreases |ts| - s.pos, 21
  {
    if Cur(ts, s) == RBRACE || Cur(ts, s) == EOF then Res(s, [])
    else
      var r := ParseStmt(ts, s);
      var rest := ParseStmts(ts, NextStmt(ts, s, r));
      if r.v == NoStmt then rest else Res(rest.s, [r.v] + rest.v)
  }

  /** Where the next statement starts: after this one, or after resynchronising
      when it could not be read. */
  function NextStmt(ts: Input, s: State, r: Res<Stmt>): (t: State)
    requires At(ts, s) && Cur(ts, s) != EOF && StmtRes(ts, s, r)
    ensures Steady(ts, s, t) && t.pos > s.pos && Steady(ts, r.s, t)
    ensures Clean(s, t) ==> t == r.s
  {
    Forced(ts, s.pos, if r.v == NoStmt then SyncStmt(ts, r.s) else r.s)
  }

  /** `"mut"? Type identifier` */
  function ParseDeclarator(ts: Input, s: State): (r: Res<Option<Param>>)
    requires At(ts, s)
    ensures Steady(ts, s, r.s) && (Clean(s, r.s) ==> r.v.Some?) && (r.v.Some? ==> r.s.pos > s.pos)
    ensures Clean(s, r.s) && r.v.Some? ==> WholeType(r.v.value.ty)
  {
    var isMut := Cur(ts, s) == KW_MUT;
    var t := ParseType(ts, if isMut then Advance(ts, s) else s);
    if t.v == NoType then Res(t.s, None)
    else
      var name := ExpectIdent(ts, t.s);
      Res(name.s, if name.v.None? then None else Some(Param(isMut, t.v, name.v.value)))
  }

  function ParseVar(ts: Input, s: State): (r: Res<Stmt>)
    requires At(ts, s) && Cur(ts, s) == KW_LET
    ensures StmtRes(ts, s, r)
  {
    hide ErrorTokens, WholeExpr, WholeType, ParseDeclarator, ParseInit, Advance, Expect;
    var s1 := Advance(ts, s);
    assert Steady(ts, s, s1) && s1.pos > s.pos;
    var d := ParseDeclarator(ts, s1);
    assert Steady(ts, s, d.s);
    if d.v.None? then Res(d.s, NoStmt)
    else
      var init := ParseInit(ts, d.s);
      assert Steady(ts, s, init.s);
      FinishVar(ts, s, init.s, d.v.value, init.v)
  }

  /** The semicolon that ends a declaration. */
  function FinishVar(ts: Input, start: State, s: State, d: Param, init: Option<Expr>): (r: Res<Stmt>)
    requires At(ts, start) && Steady(ts, start, s) && s.pos > start.pos
    requires Clean(start, s) ==> WholeType(d.ty) && (init.Some? ==> WholeExpr(init.value))
    ensures StmtRes(ts, start, r)
  {
    Res(Expect(ts, s, SEMI).s, Var(d.isMut, d.ty, d.name, init))
  }

  /** `( "=" Expr )?` */
  function ParseInit(ts: Input, s: State): (r: Res<Option<Expr>>)
    requires At(ts, s)
    ensures Steady(ts, s, r.s) && (Clean(s, r.s) && r.v.Some? ==> WholeExpr(r.v.value))
  {
    if Cur(ts, s) == EQ then
      var e := ParseExpr(ts, Advance(ts, s));
      Res(e.s, Some(e.v))
    else Res(s, None)
  }

  function ParseIf(ts: Input, s: State): (r: Res<Stmt>)
    requires At(ts, s) && Cur(ts, s) == KW_IF
    ensures StmtRes(ts, s, r)
    decreases |ts| - s.pos, 17
  {
    var c := ParseExpr(ts, Advance(ts, s));
    var thn := ParseBlock(ts, c.s);
    var els := ParseElse(ts, thn.s);
    Res(els.s, If(c.v, thn.v, els.v))
  }

  function ParseElse(ts: Input, s: State): (r: Res<Option<Stmt>>)
    requires At(ts, s)
    ensures Steady(ts, s, r.s) && (Clean(s, r.s) && r.v.Some? ==> WholeStmt(r.v.value))
    decreases |ts| - s.pos, 22
  {
    if Cur(ts, s) == KW_ELSE then
      var s1 := Advance(ts, s);
      if Cur(ts, s1) == KW_IF then
        var e := ParseIf(ts, s1);
        Res(e.s, Some(e.v))
      else if Cur(ts, s1) == LBRACE then
        var b := ParseBlock(ts, s1);
        Res(b.s, Some(Block(b.v)))
      else Res(Report(s1), None)
    else Res(s, None)
  }

  function ParseWhile(ts: Input, s: State): (r: Res<Stmt>)
    requires At(ts, s) && Cur(ts, s) == KW_WHILE
    ensures StmtRes(ts, s, r)
    decreases |ts| - s.pos, 17
  {
    var c := ParseExpr(ts, Advance(ts, s));
    var body := ParseBlock(ts, c.s);
    Res(body.s, While(c.v, body.v))
  }

  function ParseMatch(ts: Input, s: State): (r: Res<Stmt>)
    requires At(ts, s) && Cur(ts, s) == KW_MATCH
    ensures StmtRes(ts, s, r)
    decreases |ts| - s.pos, 17
  {
    var e := ParseExpr(ts, Advance(ts, s));
    var open := Expect(ts, e.s, LBRACE);
    if !open.v then Res(open.s, Match(e.v, []))
    else
      var arms := ParseArms(ts, open.s);
      Res(Expect(ts, arms.s, RBRACE).s, Match(e.v, arms.v))
  }

  function ParseArms(ts: Input, s: State): (r: Res<seq<Arm>>)
    requires At(ts, s)
    ensures Steady(ts, s, r.s) && (Clean(s, r.s) ==> WholeArms(r.v))
    ensures Cur(ts, r.s) == RBRACE || Cur(ts, r.s) == EOF
    decreases |ts| - s.pos, 24
  {
    hide ErrorTokens, ParseArm, NextArm, WholeArm;
    if Cur(ts, s) == RBRACE || Cur(ts, s) == EOF then Res(s, [])
    else
      var a := ParseArm(ts, s);
      var t := NextArm(ts, s, a);
      assert Steady(ts, s, t) && t.pos > s.pos;
      var rest := ParseArms(ts, t);
      if a.v.None? then rest else Res(rest.s, [a.v.value] + rest.v)
  }

  predicate ArmRes(ts: Input, s: State, r: Res<Option<Arm>>)
    requires At(ts, s)
  {
    Steady(ts, s, r.s) && (Clean(s, r.s) ==> r.v.Some? && WholeArm(r.v.value) && r.s.pos > s.pos)
  }

  function NextArm(ts: Input, s: State, r: Res<Option<Arm>>): (t: State)
    requires At(ts, s) && Cur(ts, s) != EOF && ArmRes(ts, s, r)
    ensures Steady(ts, s, t) && t.pos > s.pos && Steady(ts, r.s, t)
    ensures Clean(s, t) ==> t == r.s
  {
    Forced(ts, s.pos, if r.v.None? then SyncStmt(ts, r.s) else r.s)
  }

  function ParseArm(ts: Input, s: State): (r: Res<Option<Arm>>)
    requires At(ts, s)
    ensures ArmRes(ts, s, r)
    decreases |ts| - s.pos, 23
  {
    var labels := ParseLabels(ts, s);
    if labels.v.None? then Res(labels.s, None)
    else
      var arrow := Expect(ts, labels.s, FAT_ARROW);
      if !arrow.v then Res(arrow.s, None)
      else
        var body := ParseStmt(ts, arrow.s);
        Res(body.s, if body.v == NoStmt then None else Some(Arm(labels.v.value, body.v)))
  }

  predicate StartsLabel(k: Kind) {
    k == IDENT || k == INT || k == CHAR
  }

  /** One label; the wildcard is spelled like a name. */
  function LabelOf(t: Token): (r: Option<Expr>)
    requires StartsLabel(t.kind)
    ensures WholeLabel(r)
  {
    if t.kind == IDENT then (if t.text == "_" then None else Some(Name(t.text)))
    else if t.kind == INT then Some(IntLit(t.value))
    else Some(CharLit(t.value))
  }

  function ParseLabels(ts: Input, s: State): (r: Res<Option<seq<Option<Expr>>>>)
    requires At(ts, s)
    ensures Steady(ts, s, r.s) && (Clean(s, r.s) ==> r.v.Some?)
            && (r.v.Some? ==> WholeLabels(r.v.value) && r.s.pos > s.pos)
    decreases |ts| - s.pos
  {
    if !StartsLabel(Cur(ts, s)) then Res(Report(s), None)
    else
      var one := LabelOf(ts[s.pos]);
      var s1 := Advance(ts, s);
      if Cur(ts, s1) == COMMA then
        var rest := ParseLabels(ts, Advance(ts, s1));
        if rest.v.None? then rest else Res(rest.s, Some([one] + rest.v.value))
      else Res(s1, Some([one]))
  }

  function ParseReturn(ts: Input, s: State): (r: Res<Stmt>)
    requires At(ts, s) && Cur(ts, s) == KW_RETURN
    ensures StmtRes(ts, s, r)
  {
    var s1 := Advance(ts, s);
    if Cur(ts, s1) == SEMI then Res(Expect(ts, s1, SEMI).s, Return(None))
    else
      var e := ParseExpr(ts, s1);
      Res(Expect(ts, e.s, SEMI).s, Return(Some(e.v)))
  }

  function ParseExprStmt(ts: Input, s: State): (r: Res<Stmt>)
    requires At(ts, s)
    ensures StmtRes(ts, s, r)
  {
    hide ErrorTokens, ParseExpr, Advance, Expect;
    var e := ParseExpr(ts, s);
    if e.v == NoExpr then Res(e.s, NoStmt)
    else if IsAssignOp(Cur(ts, e.s)) then
      var s1 := Advance(ts, e.s);
      assert Steady(ts, s, s1);
      var rhs := ParseExpr(ts, s1);
      assert Steady(ts, s, rhs.s);
      Res(Expect(ts, rhs.s, SEMI).s, Assign(e.v, Cur(ts, e.s), rhs.v))
    else Res(Expect(ts, e.s, SEMI).s, ExprStmt(e.v))
  }

  // ------------------------------------------------------------------- items

  function ParseFnDecl(ts: Input, s: State, isExtern: bool): (r: Res<Option<FnDecl>>)
    requires At(ts, s)
    ensures Steady(ts, s, r.s) && (r.v.Some? ==> r.s.pos > s.pos)
    ensures Clean(s, r.s) ==> r.v.Some? && WholeFn(r.v.value) && r.v.value.body.None? == isExtern
  {
    var fn := Expect(ts, s, KW_FN);
    if !fn.v then Res(fn.s, None)
    else
      var name := ExpectIdent(ts, fn.s);
      if name.v.None? then Res(name.s, None)
      else
        var params := ParseParamList(ts, name.s, isExtern);
        if params.v.None? then Res(params.s, None)
            else ParseFnRest(ts, params.s, name.v.value, params.v.value, isExtern)
  }

  /** `"(" ParamList? ")"` */
  function ParseParamList(ts: Input, s: State, isExtern: bool): (r: Res<Option<Params>>)
    requires At(ts, s)
    ensures Steady(ts, s, r.s) && (Clean(s, r.s) ==> r.v.Some? && WholeParams(r.v.value.params))
  {
    var open := Expect(ts, s, LPAREN);
    if !open.v then Res(open.s, None)
    else
      var params := if Cur(ts, open.s) == RPAREN then Res(open.s, Some(Params([], false)))
          else ParseParams(ts, open.s, isExtern);
      if params.v.None? then params
      else
        var close := Expect(ts, params.s, RPAREN);
        Res(close.s, if close.v then params.v else None)
  }

  /** The return type, and the body or the semicolon. */
  function ParseFnRest(ts: Input, s: State, name: string, params: Params, isExtern: bool): (r: Res<Option<FnDecl>>)
    requires At(ts, s)
    ensures Steady(ts, s, r.s)
    ensures Clean(s, r.s) && WholeParams(params.params) ==>
              r.v.Some? && WholeFn(r.v.value) && r.v.value.body.None? == isExtern
  {
    var ret := ParseRet(ts, s);
    if ret.v == NoType then Res(ret.s, None)
    else if isExtern then
      var semi := Expect(ts, ret.s, SEMI);
      Res(semi.s, if semi.v then Some(FnDecl(name, params.params, params.variadic, ret.v, None)) else None)
    else
      var body := ParseBlock(ts, ret.s);
      Res(body.s, Some(FnDecl(name, params.params, params.variadic, ret.v, Some(body.v))))
  }

  /** A missing return type is `void`. */
  function ParseRet(ts: Input, s: State): (r: Res<Type>)
    requires At(ts, s)
    ensures Steady(ts, s, r.s) && (Clean(s, r.s) ==> WholeType(r.v))
  {
    if Cur(ts, s) == ARROW then ParseType(ts, Advance(ts, s)) else Res(s, CoreType(KW_VOID))
  }

  datatype Params = Params(params: seq<Param>, variadic: bool)

  function ParseParams(ts: Input, s: State, isExtern: bool): (r: Res<Option<Params>>)
    requires At(ts, s)
    ensures Steady(ts, s, r.s)
            && (Clean(s, r.s) ==> r.v.Some? && WholeParams(r.v.value.params) && (r.v.value.variadic ==> isExtern))
    decreases |ts| - s.pos
  {
    if Cur(ts, s) == ELLIPSIS then
      var s1 := Advance(ts, s);
      Res(if isExtern then s1 else Report(s1), Some(Params([], isExtern)))
    else
      var param := ParseDeclarator(ts, s);
      if param.v.None? then Res(param.s, None)
      else if Cur(ts, param.s) == COMMA then
        var rest := ParseParams(ts, Advance(ts, param.s), isExtern);
        Res(rest.s, if rest.v.None? then None
            else Some(Params([param.v.value] + rest.v.value.params, rest.v.value.variadic)))
      else Res(param.s, Some(Params([param.v.value], false)))
  }

  predicate ItemRes(ts: Input, s: State, r: Res<Option<Item>>)
    requires At(ts, s)
  {
    Steady(ts, s, r.s) && (Clean(s, r.s) ==> r.v.Some? && WholeItem(r.v.value) && r.s.pos > s.pos)
  }

  function ParseStruct(ts: Input, s: State): (r: Res<Option<Item>>)
    requires At(ts, s) && Cur(ts, s) == KW_STRUCT
    ensures ItemRes(ts, s, r)
  {
    var name := ExpectIdent(ts, Advance(ts, s));
    if name.v.None? then Res(name.s, None)
    else
      var open := Expect(ts, name.s, LBRACE);
      if !open.v then Res(open.s, None)
      else
        var fields := ParseFields(ts, open.s);
        Res(Expect(ts, fields.s, RBRACE).s, Some(StructItem(name.v.value, fields.v)))
  }

  function ParseField(ts: Input, s: State): (r: Res<Option<Param>>)
    requires At(ts, s)
    ensures Steady(ts, s, r.s) && (Clean(s, r.s) ==> r.v.Some?) && (r.v.Some? ==> r.s.pos > s.pos)
    ensures Clean(s, r.s) && r.v.Some? ==> WholeType(r.v.value.ty)
  {
    var t := ParseType(ts, s);
    if t.v == NoType then Res(t.s, None)
    else
      var name := ExpectIdent(ts, t.s);
      if name.v.None? then Res(name.s, None)
      else
        var semi := Expect(ts, name.s, SEMI);
        Res(semi.s, if semi.v then Some(Param(false, t.v, name.v.value)) else None)
  }

  /** Where the next member starts. */
  function NextMember(ts: Input, s: State, t: State, failed: bool): (u: State)
    requires At(ts, s) && Cur(ts, s) != EOF && Steady(ts, s, t) && (Clean(s, t) ==> !failed)
             && (!failed ==> t.pos > s.pos)
    ensures Steady(ts, s, u) && u.pos > s.pos && Steady(ts, t, u)
    ensures Clean(s, u) ==> u == t
  {
    Forced(ts, s.pos, if failed then SyncMember(ts, t) else t)
  }

  function ParseFields(ts: Input, s: State): (r: Res<seq<Param>>)
    requires At(ts, s)
    ensures Steady(ts, s, r.s) && (Clean(s, r.s) ==> WholeParams(r.v))
    decreases |ts| - s.pos
  {
    if Cur(ts, s) == RBRACE || Cur(ts, s) == EOF then Res(s, [])
    else
      var f := ParseField(ts, s);
      var rest := ParseFields(ts, NextMember(ts, s, f.s, f.v.None?));
      if f.v.None? then rest else Res(rest.s, [f.v.value] + rest.v)
  }

  function ParseEnum(ts: Input, s: State): (r: Res<Option<Item>>)
    requires At(ts, s) && Cur(ts, s) == KW_ENUM
    ensures ItemRes(ts, s, r)
  {
    hide ErrorTokens, WholeExpr, WholeType, WholeFn, WholeParams, WholeExterns, IsCoreType;
    hide ParseBase, FinishEnum, Advance, Expect, ExpectIdent;
    var s1 := Advance(ts, s);
    assert Steady(ts, s, s1) && s1.pos > s.pos;
    var name := ExpectIdent(ts, s1);
    assert Steady(ts, s, name.s);
    if name.v.None? then Res(name.s, None)
    else
      var base := ParseBase(ts, name.s);
      assert Steady(ts, s, base.s);
      var open := Expect(ts, base.s, LBRACE);
      assert Steady(ts, s, open.s);
      if !open.v then Res(open.s, None) else FinishEnum(ts, s, open.s, name.v.value, base.v)
  }

  /** The members and the brace that ends them. */
  function FinishEnum(ts: Input, start: State, s: State, name: string, base: Kind): (r: Res<Option<Item>>)
    requires At(ts, start) && Steady(ts, start, s) && s.pos > start.pos && IsCoreType(base)
    ensures ItemRes(ts, start, r)
  {
    var members := ParseMembers(ts, s);
    Res(Expect(ts, members.s, RBRACE).s, Some(EnumItem(name, base, members.v)))
  }

  function ParseBase(ts: Input, s: State): (r: Res<Kind>)
    requires At(ts, s)
    ensures Steady(ts, s, r.s) && IsCoreType(r.v)
  {
    if Cur(ts, s) == COLON then
      var s1 := Advance(ts, s);
      if IsCoreType(Cur(ts, s1)) then Res(Advance(ts, s1), Cur(ts, s1)) else Res(Report(s1), KW_I32)
    else Res(s, KW_I32)
  }

  /** `( "=" int_lit )?` */
  function ParseMemberValue(ts: Input, s: State): (r: Res<Option<nat>>)
    requires At(ts, s)
    ensures Steady(ts, s, r.s)
  {
    if Cur(ts, s) == EQ then
      var s1 := Advance(ts, s);
      if Cur(ts, s1) == INT then Res(Advance(ts, s1), Some(ts[s1.pos].value)) else Res(Report(s1), None)
    else Res(s, None)
  }

  function ParseMembers(ts: Input, s: State): (r: Res<seq<EnumMember>>)
    requires At(ts, s)
    ensures Steady(ts, s, r.s)
    decreases |ts| - s.pos
  {
    if Cur(ts, s) == RBRACE || Cur(ts, s) == EOF then Res(s, [])
    else
      var name := ExpectIdent(ts, s);
      if name.v.None? then ParseMembers(ts, Forced(ts, s.pos, SyncMember(ts, name.s)))
      else
        var value := ParseMemberValue(ts, name.s);
        var m := EnumMember(name.v.value, value.v);
        // the last member may lack its comma
        if Cur(ts, value.s) == COMMA then
          var rest := ParseMembers(ts, Advance(ts, value.s));
          Res(rest.s, [m] + rest.v)
        else Res(value.s, [m])
  }

  function ParseGlobal(ts: Input, s: State): (r: Res<Option<Item>>)
    requires At(ts, s) && Cur(ts, s) == KW_LET
    ensures ItemRes(ts, s, r)
  {
    hide ErrorTokens, WholeExpr, WholeType, WholeFn, WholeParams, WholeExterns, IsCoreType;
    hide ParseDeclarator, ParseGlobalInit, Advance, Expect, Report;
    var s1 := Advance(ts, s);
    assert Steady(ts, s, s1) && s1.pos > s.pos;
    var d := ParseDeclarator(ts, s1);
    assert Steady(ts, s, d.s);
    if d.v.None? then Res(d.s, None)
    else
      var init := ParseGlobalInit(ts, d.s);
      assert Steady(ts, s, init.s);
      if init.v == Some(NoExpr) then Res(init.s, None)
      else FinishGlobal(ts, s, init.s, d.v.value, init.v)
  }

  /** The semicolon that ends a global. */
  function FinishGlobal(ts: Input, start: State, s: State, d: Param, init: Option<Expr>): (r: Res<Option<Item>>)
    requires At(ts, start) && Steady(ts, start, s) && s.pos > start.pos
    requires Clean(start, s) ==> WholeType(d.ty) && (init.Some? ==> WholeExpr(init.value))
    ensures ItemRes(ts, start, r)
  {
    Res(Expect(ts, s, SEMI).s, Some(GlobalItem(d.isMut, d.ty, d.name, init)))
  }

  /** `( "=" literal )?` */
  function ParseGlobalInit(ts: Input, s: State): (r: Res<Option<Expr>>)
    requires At(ts, s)
    ensures Steady(ts, s, r.s) && (Clean(s, r.s) && r.v.Some? ==> WholeExpr(r.v.value))
  {
    if Cur(ts, s) == EQ then
      var e := ParseLiteral(ts, Advance(ts, s));
      Res(e.s, Some(e.v))
    else Res(s, None)
  }

  function ParseExtern(ts: Input, s: State): (r: Res<Option<Item>>)
    requires At(ts, s) && Cur(ts, s) == KW_EXTERN
    ensures ItemRes(ts, s, r)
  {
    hide ErrorTokens, WholeExterns, ParseExternBody, Advance;
    var s1 := Advance(ts, s);
    if Cur(ts, s1) != STRING then Res(Report(s1), None)
    else
      var s2 := Advance(ts, s1);
      assert Steady(ts, s, s2) && s2.pos > s.pos;
      FinishExtern(ts, s, s2, ts[s1.pos].str, ParseExternBody(ts, s2))
  }

  /** The braces have been read. */
  function FinishExtern(ts: Input, start: State, s: State, abi: string, body: Res<Option<seq<FnDecl>>>)
    : (r: Res<Option<Item>>)
    requires At(ts, start) && Steady(ts, start, s) && s.pos > start.pos
    requires Steady(ts, s, body.s) && (Clean(s, body.s) ==> body.v.Some? && WholeExterns(body.v.value))
    ensures ItemRes(ts, start, r)
  {
    hide ErrorTokens, WholeExterns;
    Res(body.s, if body.v.None? then None else Some(ExternItem(abi, body.v.value)))
  }

  function ParseExternBody(ts: Input, s: State): (r: Res<Option<seq<FnDecl>>>)
    requires At(ts, s)
    ensures Steady(ts, s, r.s) && (Clean(s, r.s) ==> r.v.Some? && WholeExterns(r.v.value))
  {
    var open := Expect(ts, s, LBRACE);
    if !open.v then Res(open.s, None)
    else
      var fns := ParseExternFns(ts, open.s);
      Res(Expect(ts, fns.s, RBRACE).s, Some(fns.v))
  }

  function ParseExternFns(ts: Input, s: State): (r: Res<seq<FnDecl>>)
    requires At(ts, s)
    ensures Steady(ts, s, r.s)
    ensures Clean(s, r.s) ==> WholeExterns(r.v)
    decreases |ts| - s.pos
  {
    if Cur(ts, s) == RBRACE || Cur(ts, s) == EOF then Res(s, [])
    else
      var f := ParseFnDecl(ts, s, true);
      var rest := ParseExternFns(ts, NextMember(ts, s, f.s, f.v.None?));
      if f.v.None? then rest else Res(rest.s, [f.v.value] + rest.v)
  }

  /** The first token decides what item it is. */
  function ParseItem(ts: Input, s: State): (r: Res<Option<Item>>)
    requires At(ts, s)
    ensures ItemRes(ts, s, r)
  {
    var k := Cur(ts, s);
    if k == KW_FN then
      var f := ParseFnDecl(ts, s, false);
      Res(f.s, if f.v.None? then None else Some(FnItem(f.v.value)))
    else if k == KW_STRUCT then ParseStruct(ts, s)
    else if k == KW_ENUM then ParseEnum(ts, s)
    else if k == KW_LET then ParseGlobal(ts, s)
    else if k == KW_EXTERN then ParseExtern(ts, s)
    else Res(Report(s), None)
  }

  /** Where the next item starts. */
  function NextItem(ts: Input, s: State, r: Res<Option<Item>>): (t: State)
    requires At(ts, s) && Cur(ts, s) != EOF && ItemRes(ts, s, r)
    ensures Steady(ts, s, t) && t.pos > s.pos && Steady(ts, r.s, t)
    ensures Clean(s, t) ==> t == r.s
  {
    Forced(ts, s.pos, if r.v.None? then SyncItem(ts, r.s) else r.s)
  }

  function ParseItems(ts: Input, s: State): (r: Res<seq<Item>>)
    requires At(ts, s)
    ensures Steady(ts, s, r.s) && Cur(ts, r.s) == EOF
    ensures Clean(s, r.s) ==> WholeItems(r.v)
    decreases |ts| - s.pos
  {
    if Cur(ts, s) == EOF then Res(s, [])
    else
      var it := ParseItem(ts, s);
      var rest := ParseItems(ts, NextItem(ts, s, it));
      if it.v.None? then rest else Res(rest.s, [it.v.value] + rest.v)
  }

  lemma NoErrorsYet(ts: Input)
    ensures ErrorTokens(ts, 0) == 0
  {
  }

  /** A whole program. The parser ends at an end of file with the nesting
      counter back at zero, having reported every error token up to there once;
      and if it reported nothing, no required child is missing anywhere. */
  function ParseProgram(ts: Input): (r: Res<seq<Item>>)
    ensures r.s.pos < |ts| && ts[r.s.pos].kind == EOF && r.s.depth == 0
    ensures r.s.lexical == ErrorTokens(ts, r.s.pos)
    ensures Errors(r.s) == 0 ==> WholeItems(r.v)
  {
    hide WholeItems, SkipErrors, ParseItems, ErrorTokens;
    NoErrorsYet(ts);
    ParseItems(ts, SkipErrors(ts, State(0, 0, 0, 0)))
  }
}
