/** On everything the first parser accepts without a report, the second builds
    the same tree. */
module TwinParsers {
  import opened Words
  import opened Tokens
  import opened Syntax
  import C = Parsing
  import S = Stage1Parsing

  /** The second parser at the same place, nothing reported so far. */
  function Of(s: C.State): S.State {
    S.State(s.pos, 0)
  }

  predicate Same<T(==)>(c: C.Res<T>, d: S.Res<T>) {
    d.s == Of(c.s) && d.v == c.v
  }

  lemma AdvanceTwin(ts: C.Input, s: C.State)
    requires C.At(ts, s) && C.Clean(s, C.Advance(ts, s))
    ensures S.Advance(ts, Of(s)) == Of(C.Advance(ts, s))
  {
  }

  lemma ExpectTwin(ts: C.Input, s: C.State, k: Kind)
    requires C.At(ts, s) && C.Clean(s, C.Expect(ts, s, k).s)
    ensures S.Expect(ts, Of(s), k) == Of(C.Expect(ts, s, k).s) && C.Cur(ts, s) == k
  {
    AdvanceTwin(ts, s);
  }

  // ------------------------------------------------------------------- types

  lemma {:induction false} TypeTwin(ts: C.Input, s: C.State)
    requires C.At(ts, s) && C.Clean(s, C.ParseType(ts, s).s)
    ensures Same(C.ParseType(ts, s), S.ParseType(ts, Of(s)))
  {
    var k := C.Cur(ts, s);
    AdvanceTwin(ts, s);
    SuffixesTwin(ts, C.Advance(ts, s), if IsCoreType(k) then CoreType(k) else NamedType(ts[s.pos].text));
  }

  lemma {:induction false} SuffixesTwin(ts: C.Input, s: C.State, t: Type)
    requires C.At(ts, s) && t != NoType && C.Clean(s, C.TypeSuffixes(ts, s, t).s)
    ensures Same(C.TypeSuffixes(ts, s, t), S.TypeSuffixes(ts, Of(s), t))
    decreases |ts| - s.pos
  {
    if C.Cur(ts, s) == STAR {
      AdvanceTwin(ts, s);
      SuffixesTwin(ts, C.Advance(ts, s), PointerType(t));
    } else if C.Cur(ts, s) == LBRACKET {
      AdvanceTwin(ts, s);
      var s1 := C.Advance(ts, s);
      AdvanceTwin(ts, s1);
      var s2 := C.Advance(ts, s1);
      ExpectTwin(ts, s2, RBRACKET);
      SuffixesTwin(ts, C.Expect(ts, s2, RBRACKET).s, ArrayType(t, ts[s1.pos].value));
    }
  }

  lemma BracketedTwin(ts: C.Input, s: C.State)
    requires C.At(ts, s) && C.Clean(s, C.ParseBracketedType(ts, s).s)
    ensures Same(C.ParseBracketedType(ts, s), S.ParseBracketedType(ts, Of(s)))
  {
    ExpectTwin(ts, s, LPAREN);
    var s1 := C.Expect(ts, s, LPAREN).s;
    TypeTwin(ts, s1);
    ExpectTwin(ts, C.ParseType(ts, s1).s, RPAREN);
  }

  // ------------------------------------------------------------- expressions

  lemma {:induction false} PrimaryTwin(ts: C.Input, s: C.State)
    requires C.At(ts, s) && C.Clean(s, C.ParsePrimary(ts, s).s)
    ensures Same(C.ParsePrimary(ts, s), S.ParsePrimary(ts, Of(s)))
    decreases |ts| - s.pos, 0
  {
    AdvanceTwin(ts, s);
    if C.Cur(ts, s) == LPAREN {
      var s1 := C.Advance(ts, s);
      ExprTwin(ts, s1);
      ExpectTwin(ts, C.ParseExpr(ts, s1).s, RPAREN);
    }
  }

  lemma {:induction false} PostfixTwin(ts: C.Input, s: C.State)
    requires C.At(ts, s) && C.Clean(s, C.ParsePostfix(ts, s).s)
    ensures Same(C.ParsePostfix(ts, s), S.ParsePostfix(ts, Of(s)))
    decreases |ts| - s.pos, 2
  {
    PrimaryTwin(ts, s);
    var r := C.ParsePrimary(ts, s);
    if r.v != NoExpr {
      PostfixOpsTwin(ts, r.s, r.v);
    }
  }

  lemma {:induction false} PostfixOpsTwin(ts: C.Input, s: C.State, e: Expr)
    requires C.At(ts, s) && e != NoExpr && C.Clean(s, C.PostfixOps(ts, s, e).s)
    ensures Same(C.PostfixOps(ts, s, e), S.PostfixOps(ts, Of(s), e))
    decreases |ts| - s.pos, 1
  {
    var r := C.PostfixOp(ts, s, e);
    if r.v != NoExpr {
      PostfixOpTwin(ts, s, e);
      PostfixOpsTwin(ts, r.s, r.v);
    }
  }

  /** One postfix operator. */
  lemma {:induction false} PostfixOpTwin(ts: C.Input, s: C.State, e: Expr)
    requires C.At(ts, s) && e != NoExpr && C.PostfixOp(ts, s, e).v != NoExpr && C.Clean(s, C.PostfixOp(ts, s, e).s)
    ensures var r := C.PostfixOp(ts, s, e); S.PostfixOps(ts, Of(s), e) == S.PostfixOps(ts, Of(r.s), r.v)
    decreases |ts| - s.pos, 0
  {
    hide C.Advance, S.Advance;
    hide C.ParseArgs, S.ParseArgs, C.ParseExpr, S.ParseExpr, C.ParseBracketedType, S.ParseBracketedType;
    hide C.ErrorTokens, WholeExpr, C.SkipErrors, IsCoreType, C.Advance, S.Advance, C.Expect, S.Expect;
    AdvanceTwin(ts, s);
    var s1 := C.Advance(ts, s);
    if C.Cur(ts, s) == LPAREN {
      ArgsTwin(ts, s1);
      ExpectTwin(ts, C.ParseArgs(ts, s1).s, RPAREN);
    } else if C.Cur(ts, s) == LBRACKET {
      ExprTwin(ts, s1);
      ExpectTwin(ts, C.ParseExpr(ts, s1).s, RBRACKET);
    } else {
      AdvanceTwin(ts, s1);
      if C.Cur(ts, s1) == KW_AS {
        BracketedTwin(ts, C.Advance(ts, s1));
      }
    }
  }

  lemma {:induction false} ArgsTwin(ts: C.Input, s: C.State)
    requires C.At(ts, s) && C.Clean(s, C.ParseArgs(ts, s).s)
    ensures Same(C.ParseArgs(ts, s), S.ParseArgs(ts, Of(s)))
    decreases |ts| - s.pos, 17
  {
    if C.Cur(ts, s) != RPAREN {
      ArgListTwin(ts, s);
    }
  }

  lemma {:induction false} ArgListTwin(ts: C.Input, s: C.State)
    requires C.At(ts, s) && C.Clean(s, C.ParseArgList(ts, s).s)
    ensures Same(C.ParseArgList(ts, s), S.ParseArgList(ts, Of(s)))
    decreases |ts| - s.pos, 16
  {
    ExprTwin(ts, s);
    var r := C.ParseExpr(ts, s);
    if C.Cur(ts, r.s) == COMMA {
      AdvanceTwin(ts, r.s);
      ArgListTwin(ts, C.Advance(ts, r.s));
    }
  }

  lemma {:induction false} UnaryTwin(ts: C.Input, s: C.State)
    requires C.At(ts, s) && C.Clean(s, C.ParseUnary(ts, s).s)
    ensures Same(C.ParseUnary(ts, s), S.ParseUnary(ts, Of(s)))
    decreases |ts| - s.pos, 3
  {
    if C.IsUnaryOp(C.Cur(ts, s)) {
      AdvanceTwin(ts, s);
      UnaryTwin(ts, C.Advance(ts, s));
    } else if C.Cur(ts, s) == KW_SIZEOF {
      AdvanceTwin(ts, s);
      BracketedTwin(ts, C.Advance(ts, s));
    } else {
      PostfixTwin(ts, s);
    }
  }

  lemma {:induction false} LevelTwin(ts: C.Input, s: C.State, level: nat)
    requires C.At(ts, s) && level <= 10 && C.Clean(s, C.ParseLevel(ts, s, level).s)
    ensures Same(C.ParseLevel(ts, s, level), S.ParseLevel(ts, Of(s), level))
    decreases |ts| - s.pos, 14 - level
  {
    if level == 10 {
      UnaryTwin(ts, s);
    } else {
      LevelTwin(ts, s, level + 1);
      var r := C.ParseLevel(ts, s, level + 1);
      LevelOpsTwin(ts, r.s, level, r.v);
    }
  }

  lemma {:induction false} LevelOpsTwin(ts: C.Input, s: C.State, level: nat, lhs: Expr)
    requires C.At(ts, s) && level < 10 && C.Clean(s, C.LevelOps(ts, s, level, lhs).s)
    ensures Same(C.LevelOps(ts, s, level, lhs), S.LevelOps(ts, Of(s), level, lhs))
    decreases |ts| - s.pos, 0
  {
    hide C.Advance, S.Advance;
    if C.IsOp(level, C.Cur(ts, s)) {
      AdvanceTwin(ts, s);
      var s1 := C.Advance(ts, s);
      LevelTwin(ts, s1, level + 1);
      var r := C.ParseLevel(ts, s1, level + 1);
      LevelOpsTwin(ts, r.s, level, Binary(C.Cur(ts, s), lhs, r.v));
    }
  }

  lemma {:induction false} ExprTwin(ts: C.Input, s: C.State)
    requires C.At(ts, s) && C.Clean(s, C.ParseExpr(ts, s).s)
    ensures Same(C.ParseExpr(ts, s), S.ParseExpr(ts, Of(s)))
    decreases |ts| - s.pos, 15
  {
    hide C.Advance, S.Advance;
    LevelTwin(ts, s.(depth := s.depth + 1), 0);
  }

  // -------------------------------------------------------------- statements

  lemma {:induction false} BlockTwin(ts: C.Input, s: C.State)
    requires C.At(ts, s) && C.Clean(s, C.ParseBlock(ts, s).s)
    ensures var c, d := C.ParseBlock(ts, s), S.ParseBlock(ts, Of(s)); d.s == Of(c.s) && d.v == Block(c.v)
    decreases |ts| - s.pos, 18
  {
    ExpectTwin(ts, s, LBRACE);
    AdvanceTwin(ts, s);
    var s1 := C.Advance(ts, s);
    StmtsTwin(ts, s1);
    ExpectTwin(ts, C.ParseStmts(ts, s1).s, RBRACE);
  }

  lemma {:induction false} StmtsTwin(ts: C.Input, s: C.State)
    requires C.At(ts, s) && C.Clean(s, C.ParseStmts(ts, s).s)
    ensures Same(C.ParseStmts(ts, s), S.ParseStmts(ts, Of(s)))
    decreases |ts| - s.pos, 21
  {
    if C.Cur(ts, s) != RBRACE && C.Cur(ts, s) != EOF {
      var r := C.ParseStmt(ts, s);
      var s1 := C.NextStmt(ts, s, r);
      assert C.Clean(s, s1);
      StmtTwin(ts, s);
      StmtsTwin(ts, s1);
    }
  }

  lemma {:induction false} StmtTwin(ts: C.Input, s: C.State)
    requires C.At(ts, s) && C.Clean(s, C.ParseStmt(ts, s).s)
    ensures Same(C.ParseStmt(ts, s), S.ParseStmt(ts, Of(s)))
    decreases |ts| - s.pos, 20
  {
    hide C.ParseStmtInner, S.ParseStmt, C.Advance;
    StmtInnerTwin(ts, s.(depth := s.depth + 1));
  }

  lemma {:induction false} StmtInnerTwin(ts: C.Input, s: C.State)
    requires C.At(ts, s) && C.Clean(s, C.ParseStmtInner(ts, s).s)
    ensures Same(C.ParseStmtInner(ts, s), S.ParseStmt(ts, Of(s)))
    decreases |ts| - s.pos, 19
  {
    var k := C.Cur(ts, s);
    if k == LBRACE {
      BlockTwin(ts, s);
    } else if k == KW_LET {
      VarTwin(ts, s);
    } else if k == KW_IF {
      IfTwin(ts, s);
    } else if k == KW_WHILE {
      WhileTwin(ts, s);
    } else if k == KW_MATCH {
      MatchTwin(ts, s);
    } else if k == KW_RETURN {
      ReturnTwin(ts, s);
    } else if k == KW_BREAK || k == KW_CONTINUE {
      AdvanceTwin(ts, s);
      ExpectTwin(ts, C.Advance(ts, s), SEMI);
    } else if k == SEMI {
      AdvanceTwin(ts, s);
    } else {
      ExprStmtTwin(ts, s);
    }
  }

  lemma DeclaratorTwin(ts: C.Input, s: C.State)
    requires C.At(ts, s) && C.Clean(s, C.ParseDeclarator(ts, s).s)
    ensures var c, d := C.ParseDeclarator(ts, s), S.ParseDeclarator(ts, Of(s));
            c.v.Some? && d.s == Of(c.s) && d.v == S.Declarator(c.v.value, true)
  {
    AdvanceTwin(ts, s);
    var s1 := if C.Cur(ts, s) == KW_MUT then C.Advance(ts, s) else s;
    TypeTwin(ts, s1);
    AdvanceTwin(ts, C.ParseType(ts, s1).s);
  }

  lemma InitTwin(ts: C.Input, s: C.State)
    requires C.At(ts, s) && C.Clean(s, C.ParseInit(ts, s).s)
    ensures Same(C.ParseInit(ts, s), S.ParseInit(ts, Of(s)))
  {
    if C.Cur(ts, s) == EQ {
      AdvanceTwin(ts, s);
      ExprTwin(ts, C.Advance(ts, s));
    }
  }

  lemma VarTwin(ts: C.Input, s: C.State)
    requires C.At(ts, s) && C.Cur(ts, s) == KW_LET && C.Clean(s, C.ParseVar(ts, s).s)
    ensures Same(C.ParseVar(ts, s), S.ParseStmt(ts, Of(s)))
  {
    AdvanceTwin(ts, s);
    var s1 := C.Advance(ts, s);
    DeclaratorTwin(ts, s1);
    var d := C.ParseDeclarator(ts, s1);
    InitTwin(ts, d.s);
    ExpectTwin(ts, C.ParseInit(ts, d.s).s, SEMI);
  }

  lemma {:induction false} IfTwin(ts: C.Input, s: C.State)
    requires C.At(ts, s) && C.Cur(ts, s) == KW_IF && C.Clean(s, C.ParseIf(ts, s).s)
    ensures Same(C.ParseIf(ts, s), S.ParseStmt(ts, Of(s)))
    decreases |ts| - s.pos, 17
  {
    hide C.ParseExpr, S.ParseExpr, C.ParseBlock, S.ParseBlock, C.ErrorTokens, WholeExpr, WholeStmt, C.SkipErrors;
    AdvanceTwin(ts, s);
    var s1 := C.Advance(ts, s);
    ExprTwin(ts, s1);
    var c := C.ParseExpr(ts, s1);
    BlockTwin(ts, c.s);
    var thn := C.ParseBlock(ts, c.s);
    if C.Cur(ts, thn.s) == KW_ELSE {
      ElseTwin(ts, thn.s);
    }
  }

  lemma {:induction false} ElseTwin(ts: C.Input, s: C.State)
    requires C.At(ts, s) && C.Cur(ts, s) == KW_ELSE && C.Clean(s, C.ParseElse(ts, s).s)
    ensures var c, s1 := C.ParseElse(ts, s), S.Advance(ts, Of(s));
            var d := if S.Cur(ts, s1) == KW_IF then S.ParseStmt(ts, s1) else S.ParseBlock(ts, s1);
            c.v.Some? && d.s == Of(c.s) && d.v == c.v.value
    decreases |ts| - s.pos, 22
  {
    AdvanceTwin(ts, s);
    var s1 := C.Advance(ts, s);
    if C.Cur(ts, s1) == KW_IF {
      IfTwin(ts, s1);
    } else {
      BlockTwin(ts, s1);
    }
  }

  lemma {:induction false} WhileTwin(ts: C.Input, s: C.State)
    requires C.At(ts, s) && C.Cur(ts, s) == KW_WHILE && C.Clean(s, C.ParseWhile(ts, s).s)
    ensures Same(C.ParseWhile(ts, s), S.ParseStmt(ts, Of(s)))
    decreases |ts| - s.pos, 17
  {
    AdvanceTwin(ts, s);
    var s1 := C.Advance(ts, s);
    ExprTwin(ts, s1);
    BlockTwin(ts, C.ParseExpr(ts, s1).s);
  }

  lemma {:induction false} MatchTwin(ts: C.Input, s: C.State)
    requires C.At(ts, s) && C.Cur(ts, s) == KW_MATCH && C.Clean(s, C.ParseMatch(ts, s).s)
    ensures Same(C.ParseMatch(ts, s), S.ParseStmt(ts, Of(s)))
    decreases |ts| - s.pos, 17
  {
    hide C.Advance, S.Advance, C.ParseArms, S.ParseArms, C.ParseExpr, S.ParseExpr;
    AdvanceTwin(ts, s);
    var s1 := C.Advance(ts, s);
    ExprTwin(ts, s1);
    var e := C.ParseExpr(ts, s1);
    ExpectTwin(ts, e.s, LBRACE);
    var s2 := C.Expect(ts, e.s, LBRACE).s;
    ArmsTwin(ts, s2);
    ExpectTwin(ts, C.ParseArms(ts, s2).s, RBRACE);
  }

  lemma {:induction false} ArmsTwin(ts: C.Input, s: C.State)
    requires C.At(ts, s) && C.Clean(s, C.ParseArms(ts, s).s)
    ensures Same(C.ParseArms(ts, s), S.ParseArms(ts, Of(s)))
    decreases |ts| - s.pos, 24
  {
    if C.Cur(ts, s) != RBRACE && C.Cur(ts, s) != EOF {
      var a := C.ParseArm(ts, s);
      var s1 := C.NextArm(ts, s, a);
      assert C.Clean(s, s1);
      ArmTwin(ts, s);
      ArmsTwin(ts, s1);
    }
  }

  lemma {:induction false} ArmTwin(ts: C.Input, s: C.State)
    requires C.At(ts, s) && C.Clean(s, C.ParseArm(ts, s).s)
    ensures var a := C.ParseArm(ts, s);
            var labels := S.ParseLabels(ts, Of(s));
            var body := S.ParseStmt(ts, S.Expect(ts, labels.s, FAT_ARROW));
            a.v.Some? && body.s == Of(a.s) && Arm(labels.v, body.v) == a.v.value
    decreases |ts| - s.pos, 23
  {
    var labels := C.ParseLabels(ts, s);
    // a clean arm has its arrow after the labels
    var arrow := C.Expect(ts, labels.s, FAT_ARROW);
    LabelsTwin(ts, s);
    ExpectTwin(ts, labels.s, FAT_ARROW);
    StmtTwin(ts, arrow.s);
  }

  /** A label is read as a whole expression by the second parser, which stops at
      the comma or the arrow that must come next. */
  lemma {:induction false} LabelsTwin(ts: C.Input, s: C.State)
    requires C.At(ts, s) && C.Clean(s, C.ParseLabels(ts, s).s) && C.Cur(ts, C.ParseLabels(ts, s).s) == FAT_ARROW
    ensures C.ParseLabels(ts, s).v.Some?
    ensures var c, d := C.ParseLabels(ts, s), S.ParseLabels(ts, Of(s)); d.s == Of(c.s) && d.v == c.v.value
    decreases |ts| - s.pos
  {
    AdvanceTwin(ts, s);
    var s1 := C.Advance(ts, s);
    LabelTwin(ts, s);
    if C.Cur(ts, s1) == COMMA {
      AdvanceTwin(ts, s1);
      LabelsTwin(ts, C.Advance(ts, s1));
    }
  }

  lemma LabelTwin(ts: C.Input, s: C.State)
    requires C.At(ts, s) && C.StartsLabel(C.Cur(ts, s)) && C.Clean(s, C.Advance(ts, s))
    requires var k := C.Cur(ts, C.Advance(ts, s)); k == COMMA || k == FAT_ARROW
    ensures S.ParseLabel(ts, Of(s)) == S.Res(Of(C.Advance(ts, s)), C.LabelOf(ts[s.pos]))
  {
    AdvanceTwin(ts, s);
    if !(C.Cur(ts, s) == IDENT && ts[s.pos].text == "_") {
      SingleTwin(ts, s, 0);
    }
  }

  /** A one-token expression before a token that cannot continue one. */
  lemma {:induction false} SingleTwin(ts: C.Input, s: C.State, level: nat)
    requires C.At(ts, s) && level <= 10 && C.Clean(s, C.Advance(ts, s))
    requires C.StartsLabel(C.Cur(ts, s)) || C.StartsLiteral(C.Cur(ts, s))
    requires var k := C.Cur(ts, C.Advance(ts, s)); k == COMMA || k == FAT_ARROW || k == SEMI
    ensures var r := S.ParsePrimary(ts, Of(s));
            r.s == Of(C.Advance(ts, s)) && r.v != NoExpr && S.ParseLevel(ts, Of(s), level) == r
    decreases 10 - level
  {
    hide C.Advance, S.Advance;
    AdvanceTwin(ts, s);
    var r := S.ParsePrimary(ts, Of(s));
    if level < 10 {
      SingleTwin(ts, s, level + 1);
      assert S.LevelOps(ts, r.s, level, r.v) == r;
    } else {
      assert S.PostfixOps(ts, r.s, r.v) == r;
      assert S.ParsePostfix(ts, Of(s)) == r;
    }
  }

  lemma ReturnTwin(ts: C.Input, s: C.State)
    requires C.At(ts, s) && C.Cur(ts, s) == KW_RETURN && C.Clean(s, C.ParseReturn(ts, s).s)
    ensures Same(C.ParseReturn(ts, s), S.ParseStmt(ts, Of(s)))
  {
    AdvanceTwin(ts, s);
    var s1 := C.Advance(ts, s);
    if C.Cur(ts, s1) == SEMI {
      ExpectTwin(ts, s1, SEMI);
    } else {
      ExprTwin(ts, s1);
      ExpectTwin(ts, C.ParseExpr(ts, s1).s, SEMI);
    }
  }

  lemma ExprStmtTwin(ts: C.Input, s: C.State)
    requires C.At(ts, s) && C.Clean(s, C.ParseExprStmt(ts, s).s)
    ensures Same(C.ParseExprStmt(ts, s), S.ParseExprStmt(ts, Of(s)))
  {
    ExprTwin(ts, s);
    var e := C.ParseExpr(ts, s);
    if C.IsAssignOp(C.Cur(ts, e.s)) {
      AdvanceTwin(ts, e.s);
      var s1 := C.Advance(ts, e.s);
      ExprTwin(ts, s1);
      ExpectTwin(ts, C.ParseExpr(ts, s1).s, SEMI);
    } else {
      ExpectTwin(ts, e.s, SEMI);
    }
  }

  // ------------------------------------------------------------------- items

  lemma FnTwin(ts: C.Input, s: C.State, isExtern: bool)
    requires C.At(ts, s) && C.Clean(s, C.ParseFnDecl(ts, s, isExtern).s)
    ensures C.Cur(ts, s) == KW_FN
    ensures var c, d := C.ParseFnDecl(ts, s, isExtern), S.ParseFn(ts, S.Advance(ts, Of(s)), !isExtern);
            c.v.Some? && d.s == Of(c.s) && d.v == c.v.value
  {
    hide C.Advance, S.Advance, C.ParseParamList, S.ParseParamList, C.ParseFnRest;
    AdvanceTwin(ts, s);
    var s1 := C.Advance(ts, s);
    AdvanceTwin(ts, s1);
    var s2 := C.Advance(ts, s1);
    ParamListTwin(ts, s2, isExtern);
    var params := C.ParseParamList(ts, s2, isExtern);
    FnRestTwin(ts, params.s, ts[s1.pos].text, params.v.value, isExtern);
  }

  lemma ParamListTwin(ts: C.Input, s: C.State, isExtern: bool)
    requires C.At(ts, s) && C.Clean(s, C.ParseParamList(ts, s, isExtern).s)
    ensures var c, d := C.ParseParamList(ts, s, isExtern), S.ParseParamList(ts, Of(s));
            c.v.Some? && d.s == Of(c.s) && d.v == c.v.value
  {
    ExpectTwin(ts, s, LPAREN);
    var s1 := C.Expect(ts, s, LPAREN).s;
    if C.Cur(ts, s1) == RPAREN {
      ExpectTwin(ts, s1, RPAREN);
    } else {
      var params := C.ParseParams(ts, s1, isExtern);
      ParamsTwin(ts, s1, isExtern);
      ExpectTwin(ts, params.s, RPAREN);
    }
  }

  lemma {:induction false} ParamsTwin(ts: C.Input, s: C.State, isExtern: bool)
    requires C.At(ts, s) && C.Clean(s, C.ParseParams(ts, s, isExtern).s)
    ensures var c, d := C.ParseParams(ts, s, isExtern), S.ParseParams(ts, Of(s));
            c.v.Some? && d.s == Of(c.s) && d.v == c.v.value
    decreases |ts| - s.pos
  {
    if C.Cur(ts, s) == ELLIPSIS {
      AdvanceTwin(ts, s);
    } else {
      DeclaratorTwin(ts, s);
      var d := C.ParseDeclarator(ts, s);
      if C.Cur(ts, d.s) == COMMA {
        AdvanceTwin(ts, d.s);
        ParamsTwin(ts, C.Advance(ts, d.s), isExtern);
      }
    }
  }

  lemma FnRestTwin(ts: C.Input, s: C.State, name: string, params: C.Params, isExtern: bool)
    requires C.At(ts, s) && C.Clean(s, C.ParseFnRest(ts, s, name, params, isExtern).s)
    ensures var c, d := C.ParseFnRest(ts, s, name, params, isExtern), S.ParseFnRest(ts, Of(s), name, params, !isExtern);
            c.v.Some? && d.s == Of(c.s) && d.v == c.v.value
  {
    AdvanceTwin(ts, s);
    if C.Cur(ts, s) == ARROW {
      TypeTwin(ts, C.Advance(ts, s));
    }
    var ret := C.ParseRet(ts, s);
    if isExtern {
      ExpectTwin(ts, ret.s, SEMI);
    } else {
      BlockTwin(ts, ret.s);
    }
  }

  lemma StructTwin(ts: C.Input, s: C.State)
    requires C.At(ts, s) && C.Cur(ts, s) == KW_STRUCT && C.Clean(s, C.ParseStruct(ts, s).s)
    ensures Same(C.ParseStruct(ts, s), S.ParseItem(ts, Of(s)))
  {
    AdvanceTwin(ts, s);
    var s1 := C.Advance(ts, s);
    AdvanceTwin(ts, s1);
    var s2 := C.Advance(ts, s1);
    ExpectTwin(ts, s2, LBRACE);
    var s3 := C.Expect(ts, s2, LBRACE).s;
    FieldsTwin(ts, s3);
    ExpectTwin(ts, C.ParseFields(ts, s3).s, RBRACE);
  }

  lemma {:induction false} FieldsTwin(ts: C.Input, s: C.State)
    requires C.At(ts, s) && C.Clean(s, C.ParseFields(ts, s).s)
    ensures Same(C.ParseFields(ts, s), S.ParseFields(ts, Of(s)))
    decreases |ts| - s.pos
  {
    if C.Cur(ts, s) != RBRACE && C.Cur(ts, s) != EOF {
      var f := C.ParseField(ts, s);
      var s1 := C.NextMember(ts, s, f.s, f.v.None?);
      assert C.Clean(s, s1);
      FieldTwin(ts, s);
      FieldsTwin(ts, s1);
    }
  }

  lemma FieldTwin(ts: C.Input, s: C.State)
    requires C.At(ts, s) && C.Clean(s, C.ParseField(ts, s).s)
    ensures var c, d := C.ParseField(ts, s), S.ParseField(ts, Of(s));
            c.v.Some? && d.s == Of(c.s) && d.v == c.v.value
  {
    TypeTwin(ts, s);
    var t := C.ParseType(ts, s);
    AdvanceTwin(ts, t.s);
    ExpectTwin(ts, C.Advance(ts, t.s), SEMI);
  }

  lemma EnumTwin(ts: C.Input, s: C.State)
    requires C.At(ts, s) && C.Cur(ts, s) == KW_ENUM && C.Clean(s, C.ParseEnum(ts, s).s)
    ensures Same(C.ParseEnum(ts, s), S.ParseItem(ts, Of(s)))
  {
    hide C.Advance, S.Advance;
    AdvanceTwin(ts, s);
    var s1 := C.Advance(ts, s);
    AdvanceTwin(ts, s1);
    var s2 := C.Advance(ts, s1);
    AdvanceTwin(ts, s2);
    if C.Cur(ts, s2) == COLON {
      AdvanceTwin(ts, C.Advance(ts, s2));
    }
    var base := C.ParseBase(ts, s2);
    ExpectTwin(ts, base.s, LBRACE);
    var s3 := C.Expect(ts, base.s, LBRACE).s;
    var members := C.ParseMembers(ts, s3);
    ExpectTwin(ts, members.s, RBRACE);
    MembersTwin(ts, s3);
  }

  /** A clean list of members is followed by the closing brace. */
  lemma {:induction false} MembersTwin(ts: C.Input, s: C.State)
    requires C.At(ts, s) && C.Clean(s, C.ParseMembers(ts, s).s) && C.Cur(ts, C.ParseMembers(ts, s).s) == RBRACE
    ensures Same(C.ParseMembers(ts, s), S.ParseMembers(ts, Of(s)))
    decreases |ts| - s.pos
  {
    if C.Cur(ts, s) != RBRACE && C.Cur(ts, s) != EOF {
      var name := C.ExpectIdent(ts, s);
      AdvanceTwin(ts, s);
      MemberValueTwin(ts, name.s);
      var value := C.ParseMemberValue(ts, name.s);
      if C.Cur(ts, value.s) == COMMA {
        AdvanceTwin(ts, value.s);
        MembersTwin(ts, C.Advance(ts, value.s));
      } else {
        var m := EnumMember(ts[s.pos].text, value.v);
        assert [m] + [] == [m];
      }
    }
  }

  lemma MemberValueTwin(ts: C.Input, s: C.State)
    requires C.At(ts, s) && C.Clean(s, C.ParseMemberValue(ts, s).s)
    ensures Same(C.ParseMemberValue(ts, s), S.ParseMemberValue(ts, Of(s)))
  {
    if C.Cur(ts, s) == EQ {
      AdvanceTwin(ts, s);
      AdvanceTwin(ts, C.Advance(ts, s));
    }
  }

  lemma GlobalTwin(ts: C.Input, s: C.State)
    requires C.At(ts, s) && C.Cur(ts, s) == KW_LET && C.Clean(s, C.ParseGlobal(ts, s).s)
    ensures Same(C.ParseGlobal(ts, s), S.ParseItem(ts, Of(s)))
  {
    hide C.Advance, S.Advance;
    AdvanceTwin(ts, s);
    var s1 := C.Advance(ts, s);
    DeclaratorTwin(ts, s1);
    var d := C.ParseDeclarator(ts, s1);
    var init := C.ParseGlobalInit(ts, d.s);
    ExpectTwin(ts, init.s, SEMI);
    GlobalInitTwin(ts, d.s);
  }

  /** A literal, which the second parser reads as a whole expression, stopping at
      the semicolon that must come next. */
  lemma GlobalInitTwin(ts: C.Input, s: C.State)
    requires C.At(ts, s) && C.Clean(s, C.ParseGlobalInit(ts, s).s) && C.Cur(ts, C.ParseGlobalInit(ts, s).s) == SEMI
    ensures Same(C.ParseGlobalInit(ts, s), S.ParseInit(ts, Of(s)))
  {
    if C.Cur(ts, s) == EQ {
      AdvanceTwin(ts, s);
      var s1 := C.Advance(ts, s);
      AdvanceTwin(ts, s1);
      SingleTwin(ts, s1, 0);
      PrimaryTwin(ts, s1);
    }
  }

  lemma ExternTwin(ts: C.Input, s: C.State)
    requires C.At(ts, s) && C.Cur(ts, s) == KW_EXTERN && C.Clean(s, C.ParseExtern(ts, s).s)
    ensures Same(C.ParseExtern(ts, s), S.ParseItem(ts, Of(s)))
  {
    hide C.ParseExternBody, S.ParseExternFns, C.Advance, S.Advance, S.Expect;
    AdvanceTwin(ts, s);
    var s1 := C.Advance(ts, s);
    AdvanceTwin(ts, s1);
    ExternBodyTwin(ts, C.Advance(ts, s1));
    assert S.ParseItem(ts, Of(s)) == S.ParseExtern(ts, Of(s1));
  }

  /** The braces and the declarations between them. */
  lemma ExternBodyTwin(ts: C.Input, s: C.State)
    requires C.At(ts, s) && C.Clean(s, C.ParseExternBody(ts, s).s)
    ensures var fns := S.ParseExternFns(ts, S.Expect(ts, Of(s), LBRACE));
            && S.Expect(ts, fns.s, RBRACE) == Of(C.ParseExternBody(ts, s).s)
            && C.ParseExternBody(ts, s).v == Some(fns.v)
  {
    hide S.ParseExternFns, C.ParseExternFns;
    ExpectTwin(ts, s, LBRACE);
    var s1 := C.Expect(ts, s, LBRACE).s;
    ExternFnsTwin(ts, s1);
    ExpectTwin(ts, C.ParseExternFns(ts, s1).s, RBRACE);
  }

  lemma {:induction false} ExternFnsTwin(ts: C.Input, s: C.State)
    requires C.At(ts, s) && C.Clean(s, C.ParseExternFns(ts, s).s)
    ensures Same(C.ParseExternFns(ts, s), S.ParseExternFns(ts, Of(s)))
    decreases |ts| - s.pos
  {
    if C.Cur(ts, s) != RBRACE && C.Cur(ts, s) != EOF {
      var f := C.ParseFnDecl(ts, s, true);
      var s1 := C.NextMember(ts, s, f.s, f.v.None?);
      assert C.Clean(s, s1);
      FnTwin(ts, s, true);
      ExternFnsTwin(ts, s1);
    }
  }

  lemma ItemTwin(ts: C.Input, s: C.State)
    requires C.At(ts, s) && C.Clean(s, C.ParseItem(ts, s).s)
    ensures Same(C.ParseItem(ts, s), S.ParseItem(ts, Of(s)))
  {
    var k := C.Cur(ts, s);
    if k == KW_FN {
      FnTwin(ts, s, false);
    } else if k == KW_STRUCT {
      StructTwin(ts, s);
    } else if k == KW_ENUM {
      EnumTwin(ts, s);
    } else if k == KW_LET {
      GlobalTwin(ts, s);
    } else if k == KW_EXTERN {
      ExternTwin(ts, s);
    }
  }

  function Items(items: seq<Item>): (r: seq<Option<Item>>)
    ensures |r| == |items| && forall i :: 0 <= i < |r| ==> r[i] == Some(items[i])
  {
    if items == [] then [] else [Some(items[0])] + Items(items[1..])
  }

  lemma {:induction false} ItemsTwin(ts: C.Input, s: C.State)
    requires C.At(ts, s) && C.Clean(s, C.ParseItems(ts, s).s)
    ensures var c, d := C.ParseItems(ts, s), S.ParseItems(ts, Of(s)); d.s == Of(c.s) && d.v == Items(c.v)
    decreases |ts| - s.pos
  {
    if C.Cur(ts, s) != EOF {
      var it := C.ParseItem(ts, s);
      var s1 := C.NextItem(ts, s, it);
      assert C.Clean(s, s1);
      ItemTwin(ts, s);
      ItemsTwin(ts, s1);
    }
  }

  /** Every token stream the first parser accepts with no report at all gets the
      same tree from the second, which reports nothing either. */
  lemma ParsersAgree(ts: C.Input)
    requires C.Errors(C.ParseProgram(ts).s) == 0
    ensures S.ParseProgram(ts).s.errors == 0 && S.ParseProgram(ts).v == Items(C.ParseProgram(ts).v)
  {
    ItemsTwin(ts, C.State(0, 0, 0, 0));
  }
}
