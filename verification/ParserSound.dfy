/** The ladder accepts nothing but the grammar's expressions: what it reads without
    a report is what some derivation of the tree it returns spells. */
module ParserSound {
  import opened Words
  import opened Tokens
  import opened Syntax
  import opened Grammar
  import opened Parsing
  import opened ParserRoundTrip

  /** From `s` to `t` the input reads `w`, and nothing is reported. */
  predicate Passed(ts: Input, s: State, t: State, w: seq<Token>) {
    Reads(ts, s.pos, w) && t == Moved(s, |w|)
  }

  lemma PassBoth(ts: Input, s: State, t: State, u: State, a: seq<Token>, b: seq<Token>)
    requires Passed(ts, s, t, a) && Passed(ts, t, u, b)
    ensures Passed(ts, s, u, a + b)
  {
    var w := a + b;
    forall i | 0 <= i < |w| ensures Like(ts[s.pos + i], w[i]) && w[i].kind != ERROR {
      if i >= |a| {
        assert Like(ts[t.pos + (i - |a|)], b[i - |a|]);
      }
    }
  }

  /** A step over a token, without a report, passes that token. */
  lemma PassOne(ts: Input, s: State, t: Token)
    requires At(ts, s) && Clean(s, Advance(ts, s)) && Like(ts[s.pos], t) && t.kind != EOF
    ensures Passed(ts, s, Advance(ts, s), [t])
  {
    hide ErrorTokens;
  }

  lemma PassExpected(ts: Input, s: State, k: Kind)
    requires At(ts, s) && Clean(s, Expect(ts, s, k).s) && k > IDENT && k !in {INT, FLOAT, CHAR, STRING}
    ensures Cur(ts, s) == k && Passed(ts, s, Expect(ts, s, k).s, [Tok(k)])
  {
    hide ErrorTokens;
    PassOne(ts, s, Tok(k));
  }

  lemma PassNothing(ts: Input, s: State)
    requires At(ts, s)
    ensures Passed(ts, s, s, [])
  {
  }

  // -------------------------------------------------------------------- types

  lemma TypeSound(ts: Input, s: State)
    requires At(ts, s) && Clean(s, ParseType(ts, s).s)
    ensures var r := ParseType(ts, s); ProperType(r.v) && Passed(ts, s, r.s, TypeText(r.v))
  {
    hide ErrorTokens, SkipErrors, Advance, Passed;
    var s1 := Advance(ts, s);
    if IsCoreType(Cur(ts, s)) {
      PassOne(ts, s, Tok(Cur(ts, s)));
      SuffixesSound(ts, s, s1, CoreType(Cur(ts, s)));
    } else {
      PassOne(ts, s, Ident(ts[s.pos].text));
      SuffixesSound(ts, s, s1, NamedType(ts[s.pos].text));
    }
  }

  lemma {:induction false} SuffixesSound(ts: Input, start: State, s: State, t: Type)
    requires At(ts, s) && ProperType(t) && Passed(ts, start, s, TypeText(t)) && Clean(s, TypeSuffixes(ts, s, t).s)
    ensures var r := TypeSuffixes(ts, s, t); ProperType(r.v) && Passed(ts, start, r.s, TypeText(r.v))
    decreases |ts| - s.pos
  {
    hide ErrorTokens, SkipErrors, Advance, Passed, Expect;
    var s1 := Advance(ts, s);
    if Cur(ts, s) == STAR {
      PassOne(ts, s, Tok(STAR));
      PassBoth(ts, start, s, s1, TypeText(t), [Tok(STAR)]);
      SuffixesSound(ts, start, s1, PointerType(t));
    } else if Cur(ts, s) == LBRACKET {
      ArrayTailSound(ts, start, s, t);
    }
  }

  lemma {:induction false} ArrayTailSound(ts: Input, start: State, s: State, t: Type)
    requires At(ts, s) && Cur(ts, s) == LBRACKET
    requires ProperType(t) && Passed(ts, start, s, TypeText(t)) && Clean(s, TypeSuffixes(ts, s, t).s)
    ensures var r := TypeSuffixes(ts, s, t); ProperType(r.v) && Passed(ts, start, r.s, TypeText(r.v))
    decreases |ts| - s.pos, 0
  {
    hide ErrorTokens, SkipErrors, Advance, Passed, Expect;
    var s1 := Advance(ts, s);
    var n := if Cur(ts, s1) == INT then ts[s1.pos].value else 0;
    var s2 := if Cur(ts, s1) == INT then Advance(ts, s1) else Report(s1);
    var s3 := Expect(ts, s2, RBRACKET).s;
    assert TypeSuffixes(ts, s, t) == TypeSuffixes(ts, s3, ArrayType(t, n));
    var size := Token(INT, "", n, "", 0);
    PassOne(ts, s, Tok(LBRACKET));
    PassOne(ts, s1, size);
    PassExpected(ts, s2, RBRACKET);
    PassBoth(ts, s, s1, s2, [Tok(LBRACKET)], [size]);
    PassBoth(ts, s, s2, s3, [Tok(LBRACKET)] + [size], [Tok(RBRACKET)]);
    assert [Tok(LBRACKET)] + [size] + [Tok(RBRACKET)] == [Tok(LBRACKET), size, Tok(RBRACKET)];
    PassBoth(ts, start, s, s3, TypeText(t), [Tok(LBRACKET), size, Tok(RBRACKET)]);
    SuffixesSound(ts, start, s3, ArrayType(t, n));
  }

  lemma BracketedSound(ts: Input, s: State)
    requires At(ts, s) && Clean(s, ParseBracketedType(ts, s).s)
    ensures var r := ParseBracketedType(ts, s); ProperType(r.v) && Passed(ts, s, r.s, BracketedText(r.v))
  {
    hide ErrorTokens, SkipErrors, Advance, Passed, Expect, ParseType;
    var s1 := Expect(ts, s, LPAREN).s;
    var t := ParseType(ts, s1);
    var s2 := Expect(ts, t.s, RPAREN).s;
    PassExpected(ts, s, LPAREN);
    TypeSound(ts, s1);
    PassExpected(ts, t.s, RPAREN);
    PassBoth(ts, s1, t.s, s2, TypeText(t.v), [Tok(RPAREN)]);
    PassBoth(ts, s, s1, s2, [Tok(LPAREN)], TypeText(t.v) + [Tok(RPAREN)]);
  }

  // -------------------------------------------------------------- expressions

  /** What `r` read from `s` on is the expression `f`, at level `k` or tighter. */
  predicate Derives(ts: Input, s: State, r: Res<Expr>, f: ExprForm, k: nat) {
    && GoodExpr(f) && Level(f) >= k && ExprTree(f) == r.v
    && Passed(ts, s, r.s, ExprText(f)) && Room(s, ExprDepth(f))
  }

  lemma {:induction false} ExprSound(ts: Input, s: State) returns (f: ExprForm)
    requires At(ts, s) && Clean(s, ParseExpr(ts, s).s)
    ensures Derives(ts, s, ParseExpr(ts, s), f, 0) && Room(s, 1 + ExprDepth(f))
    decreases |ts| - s.pos, 15
  {
    hide ErrorTokens, SkipErrors, Advance, ParseLevel, Reads, GoodExpr, ExprTree, ExprText, ExprDepth;
    f := LevelSound(ts, s.(depth := s.depth + 1), 0);
  }

  lemma {:induction false} LevelSound(ts: Input, s: State, k: nat) returns (f: ExprForm)
    requires At(ts, s) && k <= 10 && Clean(s, ParseLevel(ts, s, k).s) && Room(s, 0)
    ensures Derives(ts, s, ParseLevel(ts, s, k), f, k)
    decreases |ts| - s.pos, 14 - k
  {
    hide ErrorTokens, SkipErrors, Advance, Derives, ParseUnary, LevelOps, ParseLevel, WholeExpr;
    if k == 10 {
      LastLevel(ts, s);
      f := UnarySound(ts, s);
    } else {
      OneLevelDown(ts, s, k);
      var r := ParseLevel(ts, s, k + 1);
      f := LevelSound(ts, s, k + 1);
      DerivesLower(ts, s, r, f, k);
      f := OpsSound(ts, s, r, k, f);
    }
  }

  lemma LastLevel(ts: Input, s: State)
    requires At(ts, s)
    ensures ParseLevel(ts, s, 10) == ParseUnary(ts, s)
  {
  }

  lemma DerivesLower(ts: Input, s: State, r: Res<Expr>, f: ExprForm, k: nat)
    requires Derives(ts, s, r, f, k + 1)
    ensures Derives(ts, s, r, f, k)
  {
    hide Passed, GoodExpr, ExprTree, ExprText, ExprDepth, Level;
  }

  /** The loop of level `k`, with the left operand read so far. */
  lemma {:induction false} OpsSound(ts: Input, start: State, l: Res<Expr>, k: nat, f: ExprForm) returns (g: ExprForm)
    requires At(ts, l.s) && k < 10 && Derives(ts, start, l, f, k) && Clean(l.s, LevelOps(ts, l.s, k, l.v).s)
    ensures Derives(ts, start, LevelOps(ts, l.s, k, l.v), g, k)
    decreases |ts| - l.s.pos, 0
  {
    hide ErrorTokens, SkipErrors, Advance, Derives, LevelOps, ParseLevel, IsOp, WholeExpr;
    var op := Cur(ts, l.s);
    if IsOp(k, op) {
      OneMoreOp(ts, l.s, k, l.v);
      var s1 := Advance(ts, l.s);
      var r := ParseLevel(ts, s1, k + 1);
      DerivesRoom(ts, start, l, f, k);
      g := LevelSound(ts, s1, k + 1);
      g := BinarySound(ts, start, l, k, f, r, g);
      g := OpsSound(ts, start, Res(r.s, Binary(op, l.v, r.v)), k, g);
    } else {
      NoMoreOps(ts, l.s, k, l.v);
      g := f;
    }
  }

  lemma DerivesRoom(ts: Input, s: State, r: Res<Expr>, f: ExprForm, k: nat)
    requires Derives(ts, s, r, f, k)
    ensures r.s.depth == s.depth && Room(s, 0) && Room(r.s, 0) && r.v != NoExpr
  {
    IsTree(f);
  }

  lemma OpIsPlain(k: nat, op: Kind)
    requires IsOp(k, op)
    ensures op > IDENT && op !in {INT, FLOAT, CHAR, STRING} && LevelOf(op) == k < 10
  {
    LevelOfIsOp(op);
  }

  lemma BinarySound(ts: Input, start: State, l: Res<Expr>, k: nat, f: ExprForm, r: Res<Expr>, g: ExprForm)
    returns (h: ExprForm)
    requires At(ts, l.s) && Derives(ts, start, l, f, k) && IsOp(k, Cur(ts, l.s)) && Clean(l.s, Advance(ts, l.s))
    requires Derives(ts, Advance(ts, l.s), r, g, k + 1)
    ensures Derives(ts, start, Res(r.s, Binary(Cur(ts, l.s), l.v, r.v)), h, k)
  {
    hide ErrorTokens, SkipErrors, Advance, Passed, Reads, IsOp, LevelOf;
    var op := Cur(ts, l.s);
    var s1 := Advance(ts, l.s);
    OpIsPlain(k, op);
    PassOne(ts, l.s, Tok(op));
    PassBoth(ts, l.s, s1, r.s, [Tok(op)], ExprText(g));
    PassBoth(ts, start, l.s, r.s, ExprText(f), [Tok(op)] + ExprText(g));
    DerivesRoom(ts, start, l, f, k);
    h := BinaryF(op, f, g);
  }

  lemma {:induction false} UnarySound(ts: Input, s: State) returns (f: ExprForm)
    requires At(ts, s) && Clean(s, ParseUnary(ts, s).s) && Room(s, 0)
    ensures Derives(ts, s, ParseUnary(ts, s), f, 10)
    decreases |ts| - s.pos, 3
  {
    hide ErrorTokens, SkipErrors, Advance, Passed, Reads, ParsePostfix, ParseBracketedType, WholeExpr, WholeType;
    hide IsUnaryOp, PrefixOp, ProperType, TypeText;
    var k, s1 := Cur(ts, s), Advance(ts, s);
    PrefixIsUnaryOp(k);
    if IsUnaryOp(k) {
      UnaryIsPlain(k);
      var r := ParseUnary(ts, s1);
      f := UnarySound(ts, s1);
      PassOne(ts, s, Tok(k));
      PassBoth(ts, s, s1, r.s, [Tok(k)], ExprText(f));
      f := UnaryF(k, f);
    } else if k == KW_SIZEOF {
      var r := ParseBracketedType(ts, s1);
      BracketedSound(ts, s1);
      PassOne(ts, s, Tok(k));
      PassBoth(ts, s, s1, r.s, [Tok(k)], BracketedText(r.v));
      f := SizeOfF(r.v);
    } else {
      f := PostfixSound(ts, s);
    }
  }

  lemma UnaryIsPlain(k: Kind)
    requires IsUnaryOp(k)
    ensures k > IDENT && k !in {INT, FLOAT, CHAR, STRING}
  {
  }

  lemma {:induction false} PostfixSound(ts: Input, s: State) returns (f: ExprForm)
    requires At(ts, s) && Clean(s, ParsePostfix(ts, s).s) && Room(s, 0)
    ensures Derives(ts, s, ParsePostfix(ts, s), f, 11)
    decreases |ts| - s.pos, 2
  {
    hide ErrorTokens, SkipErrors, Advance, Derives, ParsePrimary, PostfixOps, WholeExpr;
    var r := ParsePrimary(ts, s);
    f := PrimarySound(ts, s);
    DerivesRoom(ts, s, r, f, 11);
    f := PostfixOpsSound(ts, s, r, f);
  }

  lemma {:induction false} PostfixOpsSound(ts: Input, start: State, l: Res<Expr>, f: ExprForm) returns (g: ExprForm)
    requires At(ts, l.s) && Derives(ts, start, l, f, 11) && l.v != NoExpr && Clean(l.s, PostfixOps(ts, l.s, l.v).s)
    ensures Derives(ts, start, PostfixOps(ts, l.s, l.v), g, 11)
    decreases |ts| - l.s.pos, 1
  {
    hide ErrorTokens, SkipErrors, Advance, Derives, PostfixOp, WholeExpr;
    var r := PostfixOp(ts, l.s, l.v);
    if r.v == NoExpr {
      g := f;
    } else {
      g := PostfixOpSound(ts, start, l, f);
      g := PostfixOpsSound(ts, start, r, g);
    }
  }

  lemma {:induction false} PostfixOpSound(ts: Input, start: State, l: Res<Expr>, f: ExprForm) returns (g: ExprForm)
    requires At(ts, l.s) && Derives(ts, start, l, f, 11) && l.v != NoExpr
    requires PostfixOp(ts, l.s, l.v).v != NoExpr && Clean(l.s, PostfixOp(ts, l.s, l.v).s)
    ensures Derives(ts, start, PostfixOp(ts, l.s, l.v), g, 11)
    decreases |ts| - l.s.pos, 0
  {
    hide ErrorTokens, SkipErrors, Advance, Derives, ParseArgs, ParseExpr, ParseDotted, WholeExpr, WholeExprs, Expect;
    var k, s1 := Cur(ts, l.s), Advance(ts, l.s);
    DerivesRoom(ts, start, l, f, 11);
    if k == LPAREN {
      var r := ParseArgs(ts, s1);
      var args := ArgsSound(ts, s1);
      g := CallSound(ts, start, l, f, r, args);
    } else if k == LBRACKET {
      var r := ParseExpr(ts, s1);
      g := ExprSound(ts, s1);
      g := IndexSound(ts, start, l, f, r, g);
    } else {
      g := DottedSound(ts, start, l, f);
    }
  }

  lemma CallSound(ts: Input, start: State, l: Res<Expr>, f: ExprForm, r: Res<seq<Expr>>, args: seq<ExprForm>)
    returns (g: ExprForm)
    requires At(ts, l.s) && Derives(ts, start, l, f, 11) && Cur(ts, l.s) == LPAREN && Clean(l.s, Advance(ts, l.s))
    requires DerivesArgs(ts, Advance(ts, l.s), r, args) && At(ts, r.s) && Clean(r.s, Expect(ts, r.s, RPAREN).s)
    ensures Derives(ts, start, Res(Expect(ts, r.s, RPAREN).s, Call(l.v, r.v)), g, 11)
  {
    hide ErrorTokens, SkipErrors, Advance, Passed, Reads, Expect;
    var s1, s2 := Advance(ts, l.s), Expect(ts, r.s, RPAREN).s;
    PassOne(ts, l.s, Tok(LPAREN));
    PassExpected(ts, r.s, RPAREN);
    PassBoth(ts, s1, r.s, s2, ArgsText(args), [Tok(RPAREN)]);
    PassBoth(ts, l.s, s1, s2, [Tok(LPAREN)], ArgsText(args) + [Tok(RPAREN)]);
    PassBoth(ts, start, l.s, s2, ExprText(f), [Tok(LPAREN)] + (ArgsText(args) + [Tok(RPAREN)]));
    DerivesRoom(ts, start, l, f, 11);
    g := CallF(f, args);
  }

  lemma IndexSound(ts: Input, start: State, l: Res<Expr>, f: ExprForm, r: Res<Expr>, i: ExprForm)
    returns (g: ExprForm)
    requires At(ts, l.s) && Derives(ts, start, l, f, 11) && Cur(ts, l.s) == LBRACKET && Clean(l.s, Advance(ts, l.s))
    requires Derives(ts, Advance(ts, l.s), r, i, 0) && Room(Advance(ts, l.s), 1 + ExprDepth(i))
    requires At(ts, r.s) && Clean(r.s, Expect(ts, r.s, RBRACKET).s)
    ensures Derives(ts, start, Res(Expect(ts, r.s, RBRACKET).s, Index(l.v, r.v)), g, 11)
  {
    hide ErrorTokens, SkipErrors, Advance, Passed, Reads, Expect;
    var s1, s2 := Advance(ts, l.s), Expect(ts, r.s, RBRACKET).s;
    PassOne(ts, l.s, Tok(LBRACKET));
    PassExpected(ts, r.s, RBRACKET);
    PassBoth(ts, s1, r.s, s2, ExprText(i), [Tok(RBRACKET)]);
    PassBoth(ts, l.s, s1, s2, [Tok(LBRACKET)], ExprText(i) + [Tok(RBRACKET)]);
    PassBoth(ts, start, l.s, s2, ExprText(f), [Tok(LBRACKET)] + (ExprText(i) + [Tok(RBRACKET)]));
    DerivesRoom(ts, start, l, f, 11);
    g := IndexF(f, i);
  }

  /** A cast or a field. */
  lemma DottedSound(ts: Input, start: State, l: Res<Expr>, f: ExprForm) returns (g: ExprForm)
    requires At(ts, l.s) && Derives(ts, start, l, f, 11) && Cur(ts, l.s) == DOT
    requires Clean(l.s, ParseDotted(ts, Advance(ts, l.s), l.v).s)
    ensures Derives(ts, start, ParseDotted(ts, Advance(ts, l.s), l.v), g, 11)
  {
    hide ErrorTokens, SkipErrors, Advance, Passed, Reads, ParseBracketedType, ProperType, TypeText;
    var s1 := Advance(ts, l.s);
    PassOne(ts, l.s, Tok(DOT));
    if Cur(ts, s1) == KW_AS {
      var s2 := Advance(ts, s1);
      var r := ParseBracketedType(ts, s2);
      PassOne(ts, s1, Tok(KW_AS));
      BracketedSound(ts, s2);
      PassBoth(ts, s1, s2, r.s, [Tok(KW_AS)], BracketedText(r.v));
      PassBoth(ts, l.s, s1, r.s, [Tok(DOT)], [Tok(KW_AS)] + BracketedText(r.v));
      PassBoth(ts, start, l.s, r.s, ExprText(f), [Tok(DOT)] + ([Tok(KW_AS)] + BracketedText(r.v)));
      g := CastF(f, r.v);
    } else {
      var name := ts[s1.pos].text;
      var s2 := Advance(ts, s1);
      PassOne(ts, s1, Ident(name));
      PassBoth(ts, l.s, s1, s2, [Tok(DOT)], [Ident(name)]);
      PassBoth(ts, start, l.s, s2, ExprText(f), [Tok(DOT)] + [Ident(name)]);
      g := FieldF(f, name);
    }
  }

  predicate DerivesArgs(ts: Input, s: State, r: Res<seq<Expr>>, args: seq<ExprForm>) {
    && GoodArgs(args) && ArgsTree(args) == r.v && Passed(ts, s, r.s, ArgsText(args)) && Room(s, ArgsDepth(args))
  }

  lemma {:induction false} ArgsSound(ts: Input, s: State) returns (args: seq<ExprForm>)
    requires At(ts, s) && Clean(s, ParseArgs(ts, s).s) && Room(s, 0)
    ensures DerivesArgs(ts, s, ParseArgs(ts, s), args)
    decreases |ts| - s.pos, 17
  {
    hide ErrorTokens, SkipErrors, Advance, Passed, ParseArgList, WholeExprs;
    if Cur(ts, s) == RPAREN {
      PassNothing(ts, s);
      args := [];
    } else {
      args := ArgListSound(ts, s);
    }
  }

  lemma {:induction false} ArgListSound(ts: Input, s: State) returns (args: seq<ExprForm>)
    requires At(ts, s) && Clean(s, ParseArgList(ts, s).s)
    ensures DerivesArgs(ts, s, ParseArgList(ts, s), args) && args != []
    decreases |ts| - s.pos, 16
  {
    hide ErrorTokens, SkipErrors, Advance, Passed, Reads, ParseExpr, WholeExpr, WholeExprs, GoodExpr, ExprText,
        ExprTree;
    hide ExprDepth, ArgsText, ArgsDepth, GoodArgs;
    var r := ParseExpr(ts, s);
    var f := ExprSound(ts, s);
    args := [f];
    if Cur(ts, r.s) == COMMA {
      var s1 := Advance(ts, r.s);
      var rest := ParseArgList(ts, s1);
      var more := ArgListSound(ts, s1);
      PassOne(ts, r.s, Tok(COMMA));
      PassBoth(ts, r.s, s1, rest.s, [Tok(COMMA)], ArgsText(more));
      PassBoth(ts, s, r.s, rest.s, ExprText(f), [Tok(COMMA)] + ArgsText(more));
      ArgsMore(f, more);
      args := [f] + more;
    } else {
      NoArgs();
      ArgsMore(f, []);
      assert [f] + [] == [f] && [r.v] + [] == [r.v];
    }
  }

  lemma NoArgs()
    ensures GoodArgs([]) && ArgsTree([]) == [] && ArgsText([]) == [] && ArgsDepth([]) == 0
  {
  }

  lemma ArgsMore(f: ExprForm, more: seq<ExprForm>)
    requires GoodExpr(f) && GoodArgs(more)
    ensures var args := [f] + more;
            && GoodArgs(args) && ArgsTree(args) == [ExprTree(f)] + ArgsTree(more)
            && ArgsDepth(args) == Max(1 + ExprDepth(f), ArgsDepth(more))
            && ArgsText(args) == if more == [] then ExprText(f) else ExprText(f) + ([Tok(COMMA)] + ArgsText(more))
  {
    hide GoodExpr, ExprText, ExprTree, ExprDepth;
    var args := [f] + more;
    assert args[1..] == more;
  }

  lemma {:induction false} PrimarySound(ts: Input, s: State) returns (f: ExprForm)
    requires At(ts, s) && Clean(s, ParsePrimary(ts, s).s) && Room(s, 0)
    ensures Derives(ts, s, ParsePrimary(ts, s), f, 11)
    decreases |ts| - s.pos, 0
  {
    hide ErrorTokens, SkipErrors, Advance, Passed, Reads, ParseExpr, WholeExpr, Expect;
    if Cur(ts, s) == LPAREN {
      var s1 := Advance(ts, s);
      var r := ParseExpr(ts, s1);
      var s2 := Expect(ts, r.s, RPAREN).s;
      f := ExprSound(ts, s1);
      PassOne(ts, s, Tok(LPAREN));
      PassExpected(ts, r.s, RPAREN);
      PassBoth(ts, s1, r.s, s2, ExprText(f), [Tok(RPAREN)]);
      PassBoth(ts, s, s1, s2, [Tok(LPAREN)], ExprText(f) + [Tok(RPAREN)]);
      f := ParenF(f);
    } else {
      f := AtomF(ParsePrimary(ts, s).v);
      PassOne(ts, s, AtomToken(f.atom));
    }
  }
}
