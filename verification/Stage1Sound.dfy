/** The second parser accepts little more than the grammar: what it reads without
    an error is what some derivation spells, if labels and first values of globals
    may be any expression, an enum's base type any token, and any function
    variadic. */
module Stage1Sound {
  import opened Words
  import opened Tokens
  import opened Syntax
  import opened Grammar
  import opened Stage1Parsing
  import C = Parsing
  import Reading = ParserRoundTrip
  import Programs = ProgramRoundTrip
  import First = ParserSound
  import Whole = ProgramSound
  import TwinParsers

  /** From `s` to `t` the input reads `w`, and there is no error. */
  predicate Passed(ts: C.Input, s: State, t: State, w: seq<Token>) {
    && s.pos + |w| < |ts| && t == State(s.pos + |w|, 0) && s.errors == 0
    && forall i :: 0 <= i < |w| ==> Reading.Like(ts[s.pos + i], w[i])
  }

  lemma PassBoth(ts: C.Input, s: State, t: State, u: State, a: seq<Token>, b: seq<Token>)
    requires Passed(ts, s, t, a) && Passed(ts, t, u, b)
    ensures Passed(ts, s, u, a + b)
  {
    hide Reading.Like;
    var w := a + b;
    forall i | 0 <= i < |w| ensures Reading.Like(ts[s.pos + i], w[i]) {
      if i >= |a| {
        assert Reading.Like(ts[t.pos + (i - |a|)], b[i - |a|]);
      }
    }
  }

  lemma PassOne(ts: C.Input, s: State, t: Token)
    requires At(ts, s) && s.errors == 0 && Reading.Like(ts[s.pos], t) && (t.kind != EOF || s.pos + 1 < |ts|)
    ensures Passed(ts, s, Advance(ts, s), [t])
  {
  }

  lemma PassExpected(ts: C.Input, s: State, k: Kind)
    requires At(ts, s) && Expect(ts, s, k).errors == 0 && k > IDENT && k !in {INT, FLOAT, CHAR, STRING}
    ensures Cur(ts, s) == k && Passed(ts, s, Expect(ts, s, k), [Tok(k)])
  {
    PassOne(ts, s, Tok(k));
  }

  lemma PassNothing(ts: C.Input, s: State)
    requires At(ts, s) && s.errors == 0
    ensures Passed(ts, s, s, [])
  {
  }

  // -------------------------------------------------------------------- types

  lemma TypeSound(ts: C.Input, s: State)
    requires At(ts, s) && ParseType(ts, s).s.errors == 0
    ensures var r := ParseType(ts, s); ProperType(r.v) && Passed(ts, s, r.s, TypeText(r.v))
  {
    hide Advance, Passed;
    var s1 := Advance(ts, s);
    if IsCoreType(Cur(ts, s)) {
      PassOne(ts, s, Tok(Cur(ts, s)));
      SuffixesSound(ts, s, s1, CoreType(Cur(ts, s)));
    } else {
      PassOne(ts, s, Ident(ts[s.pos].text));
      SuffixesSound(ts, s, s1, NamedType(ts[s.pos].text));
    }
  }

  lemma {:induction false} SuffixesSound(ts: C.Input, start: State, s: State, t: Type)
    requires At(ts, s) && ProperType(t) && Passed(ts, start, s, TypeText(t)) && TypeSuffixes(ts, s, t).s.errors == 0
    ensures var r := TypeSuffixes(ts, s, t); ProperType(r.v) && Passed(ts, start, r.s, TypeText(r.v))
    decreases |ts| - s.pos
  {
    hide Advance, Passed, Expect;
    var s1 := Advance(ts, s);
    if Cur(ts, s) == STAR {
      PassOne(ts, s, Tok(STAR));
      PassBoth(ts, start, s, s1, TypeText(t), [Tok(STAR)]);
      SuffixesSound(ts, start, s1, PointerType(t));
    } else if Cur(ts, s) == LBRACKET {
      var n := ts[s1.pos].value;
      var size := Token(INT, "", n, "", 0);
      var s2 := Advance(ts, s1);
      var s3 := Expect(ts, s2, RBRACKET);
      assert TypeSuffixes(ts, s, t) == TypeSuffixes(ts, s3, ArrayType(t, n));
      PassOne(ts, s, Tok(LBRACKET));
      PassOne(ts, s1, size);
      PassExpected(ts, s2, RBRACKET);
      PassBoth(ts, s, s1, s2, [Tok(LBRACKET)], [size]);
      PassBoth(ts, s, s2, s3, [Tok(LBRACKET)] + [size], [Tok(RBRACKET)]);
      assert [Tok(LBRACKET)] + [size] + [Tok(RBRACKET)] == [Tok(LBRACKET), size, Tok(RBRACKET)];
      PassBoth(ts, start, s, s3, TypeText(t), [Tok(LBRACKET), size, Tok(RBRACKET)]);
      SuffixesSound(ts, start, s3, ArrayType(t, n));
    }
  }

  lemma BracketedSound(ts: C.Input, s: State)
    requires At(ts, s) && ParseBracketedType(ts, s).s.errors == 0
    ensures var r := ParseBracketedType(ts, s); ProperType(r.v) && Passed(ts, s, r.s, BracketedText(r.v))
  {
    hide Advance, Passed, Expect, ParseType;
    var s1 := Expect(ts, s, LPAREN);
    var t := ParseType(ts, s1);
    var s2 := Expect(ts, t.s, RPAREN);
    PassExpected(ts, s, LPAREN);
    TypeSound(ts, s1);
    PassExpected(ts, t.s, RPAREN);
    PassBoth(ts, s1, t.s, s2, TypeText(t.v), [Tok(RPAREN)]);
    PassBoth(ts, s, s1, s2, [Tok(LPAREN)], TypeText(t.v) + [Tok(RPAREN)]);
  }

  // -------------------------------------------------------------- expressions

  predicate Derives(ts: C.Input, s: State, r: Res<Expr>, f: ExprForm, k: nat) {
    GoodExpr(f) && Level(f) >= k && ExprTree(f) == r.v && Passed(ts, s, r.s, ExprText(f))
  }

  lemma {:induction false} ExprSound(ts: C.Input, s: State) returns (f: ExprForm)
    requires At(ts, s) && ParseExpr(ts, s).s.errors == 0
    ensures Derives(ts, s, ParseExpr(ts, s), f, 0)
    decreases |ts| - s.pos, 15
  {
    hide ParseLevel, Derives;
    f := LevelSound(ts, s, 0);
  }

  lemma {:induction false} LevelSound(ts: C.Input, s: State, k: nat) returns (f: ExprForm)
    requires At(ts, s) && k <= 10 && ParseLevel(ts, s, k).s.errors == 0
    ensures Derives(ts, s, ParseLevel(ts, s, k), f, k)
    decreases |ts| - s.pos, 14 - k
  {
    hide Advance, Derives, ParseUnary, LevelOps;
    if k == 10 {
      f := UnarySound(ts, s);
    } else {
      var r := ParseLevel(ts, s, k + 1);
      f := LevelSound(ts, s, k + 1);
      DerivesLower(ts, s, r, f, k);
      f := OpsSound(ts, s, r, k, f);
    }
  }

  lemma DerivesLower(ts: C.Input, s: State, r: Res<Expr>, f: ExprForm, k: nat)
    requires Derives(ts, s, r, f, k + 1)
    ensures Derives(ts, s, r, f, k)
  {
    hide Passed, GoodExpr, ExprTree, ExprText, Level;
  }

  lemma MoreOps(ts: C.Input, s: State, k: nat, lhs: Expr)
    requires At(ts, s) && k < 10
    ensures if C.IsOp(k, Cur(ts, s)) then
              var r := ParseLevel(ts, Advance(ts, s), k + 1);
              Advance(ts, s).pos > s.pos
              && LevelOps(ts, s, k, lhs) == LevelOps(ts, r.s, k, Binary(Cur(ts, s), lhs, r.v))
            else LevelOps(ts, s, k, lhs) == Res(s, lhs)
  {
  }

  lemma {:induction false} OpsSound(ts: C.Input, start: State, l: Res<Expr>, k: nat, f: ExprForm) returns (g: ExprForm)
    requires At(ts, l.s) && k < 10 && Derives(ts, start, l, f, k) && LevelOps(ts, l.s, k, l.v).s.errors == 0
    ensures Derives(ts, start, LevelOps(ts, l.s, k, l.v), g, k)
    decreases |ts| - l.s.pos, 0
  {
    hide Advance, Derives, LevelOps, ParseLevel, C.IsOp;
    var op := Cur(ts, l.s);
    MoreOps(ts, l.s, k, l.v);
    if C.IsOp(k, op) {
      var s1 := Advance(ts, l.s);
      var r := ParseLevel(ts, s1, k + 1);
      g := LevelSound(ts, s1, k + 1);
      g := BinarySound(ts, start, l, k, f, r, g);
      g := OpsSound(ts, start, Res(r.s, Binary(op, l.v, r.v)), k, g);
    } else {
      g := f;
    }
  }

  lemma BinarySound(ts: C.Input, start: State, l: Res<Expr>, k: nat, f: ExprForm, r: Res<Expr>, g: ExprForm)
    returns (h: ExprForm)
    requires At(ts, l.s) && Derives(ts, start, l, f, k) && C.IsOp(k, Cur(ts, l.s)) && l.s.errors == 0
    requires Derives(ts, Advance(ts, l.s), r, g, k + 1)
    ensures Derives(ts, start, Res(r.s, Binary(Cur(ts, l.s), l.v, r.v)), h, k)
  {
    hide Advance, Passed, C.IsOp, LevelOf;
    var op := Cur(ts, l.s);
    var s1 := Advance(ts, l.s);
    First.OpIsPlain(k, op);
    PassOne(ts, l.s, Tok(op));
    PassBoth(ts, l.s, s1, r.s, [Tok(op)], ExprText(g));
    PassBoth(ts, start, l.s, r.s, ExprText(f), [Tok(op)] + ExprText(g));
    h := BinaryF(op, f, g);
  }

  lemma {:induction false} UnarySound(ts: C.Input, s: State) returns (f: ExprForm)
    requires At(ts, s) && ParseUnary(ts, s).s.errors == 0
    ensures Derives(ts, s, ParseUnary(ts, s), f, 10)
    decreases |ts| - s.pos, 3
  {
    hide Advance, Passed, ParsePostfix, ParseBracketedType, C.IsUnaryOp, PrefixOp, ProperType, TypeText;
    var k, s1 := Cur(ts, s), Advance(ts, s);
    Reading.PrefixIsUnaryOp(k);
    if C.IsUnaryOp(k) {
      First.UnaryIsPlain(k);
      var r := ParseUnary(ts, s1);
      f := UnarySound(ts, s1);
      PassOne(ts, s, Tok(k));
      PassBoth(ts, s, s1, r.s, [Tok(k)], ExprText(f));
      f := UnaryF(k, f);
    } else if k == KW_SIZEOF {
      var r := ParseBracketedType(ts, s1);
      BracketedSound(ts, s1);
      PassOne(ts, s, Tok(k));
      PassBoth(ts, s, s1, r.s, [Tok(k)], BracketedText(r.v));
      f := SizeOfF(r.v);
    } else {
      f := PostfixSound(ts, s);
    }
  }

  lemma {:induction false} PostfixSound(ts: C.Input, s: State) returns (f: ExprForm)
    requires At(ts, s) && ParsePostfix(ts, s).s.errors == 0
    ensures Derives(ts, s, ParsePostfix(ts, s), f, 11)
    decreases |ts| - s.pos, 2
  {
    hide Advance, Derives, ParsePrimary, PostfixOps;
    var r := ParsePrimary(ts, s);
    f := PrimarySound(ts, s);
    DerivesTree(ts, s, r, f);
    f := PostfixOpsSound(ts, s, r, f);
  }

  lemma DerivesTree(ts: C.Input, s: State, r: Res<Expr>, f: ExprForm)
    requires Derives(ts, s, r, f, 11)
    ensures r.v != NoExpr
  {
    Reading.IsTree(f);
  }

  /** One turn of the postfix loop. */
  function PostfixStep(ts: C.Input, s: State, e: Expr): (r: Option<Res<Expr>>)
    requires At(ts, s)
    ensures r.Some? ==> At(ts, r.value.s) && r.value.s.pos > s.pos && r.value.s.errors >= s.errors
    ensures r.Some? ==> PostfixOps(ts, s, e) == PostfixOps(ts, r.value.s, r.value.v)
    ensures r.None? ==> PostfixOps(ts, s, e) == Res(s, e) || PostfixOps(ts, s, e).s.errors > s.errors
  {
    var k := Cur(ts, s);
    if k == LPAREN then
      var r := ParseArgs(ts, Advance(ts, s));
      Some(Res(Expect(ts, r.s, RPAREN), Call(e, r.v)))
    else if k == LBRACKET then
      var r := ParseExpr(ts, Advance(ts, s));
      Some(Res(Expect(ts, r.s, RBRACKET), Index(e, r.v)))
    else if k == DOT then
      var s1 := Advance(ts, s);
      if Cur(ts, s1) == KW_AS then
        var r := ParseBracketedType(ts, Advance(ts, s1));
        Some(Res(r.s, Cast(e, r.v)))
      else if Cur(ts, s1) != IDENT then None
      else Some(Res(Advance(ts, s1), Field(e, Some(ts[s1.pos].text))))
    else None
  }

  lemma {:induction false} PostfixOpsSound(ts: C.Input, start: State, l: Res<Expr>, f: ExprForm) returns (g: ExprForm)
    requires At(ts, l.s) && Derives(ts, start, l, f, 11) && PostfixOps(ts, l.s, l.v).s.errors == 0
    ensures Derives(ts, start, PostfixOps(ts, l.s, l.v), g, 11)
    decreases |ts| - l.s.pos, 1
  {
    hide Advance, Derives, PostfixStep, PostfixOps;
    var r := PostfixStep(ts, l.s, l.v);
    g := f;
    if r.Some? {
      g := StepSound(ts, start, l, f);
      g := PostfixOpsSound(ts, start, r.value, g);
    }
  }

  lemma {:induction false} StepSound(ts: C.Input, start: State, l: Res<Expr>, f: ExprForm) returns (g: ExprForm)
    requires At(ts, l.s) && Derives(ts, start, l, f, 11)
    requires PostfixStep(ts, l.s, l.v).Some? && PostfixStep(ts, l.s, l.v).value.s.errors == 0
    ensures Derives(ts, start, PostfixStep(ts, l.s, l.v).value, g, 11)
    decreases |ts| - l.s.pos, 0
  {
    hide Advance, Derives, ParseArgs, ParseExpr, Expect, PostfixOps, ParseBracketedType;
    var k, s1 := Cur(ts, l.s), Advance(ts, l.s);
    if k == LPAREN {
      var r := ParseArgs(ts, s1);
      var args := ArgsSound(ts, s1);
      g := CallSound(ts, start, l, f, r, args);
    } else if k == LBRACKET {
      var r := ParseExpr(ts, s1);
      g := ExprSound(ts, s1);
      g := IndexSound(ts, start, l, f, r, g);
    } else if Cur(ts, s1) == KW_AS {
      g := CastSound(ts, start, l, f);
    } else {
      g := FieldSound(ts, start, l, f);
    }
  }

  lemma CallSound(ts: C.Input, start: State, l: Res<Expr>, f: ExprForm, r: Res<seq<Expr>>, args: seq<ExprForm>)
    returns (g: ExprForm)
    requires At(ts, l.s) && Derives(ts, start, l, f, 11) && Cur(ts, l.s) == LPAREN
    requires DerivesArgs(ts, Advance(ts, l.s), r, args) && At(ts, r.s) && Expect(ts, r.s, RPAREN).errors == 0
    requires l.s.errors == 0
    ensures Derives(ts, start, Res(Expect(ts, r.s, RPAREN), Call(l.v, r.v)), g, 11)
  {
    hide Advance, Passed, Expect;
    var s1, s2 := Advance(ts, l.s), Expect(ts, r.s, RPAREN);
    PassOne(ts, l.s, Tok(LPAREN));
    PassExpected(ts, r.s, RPAREN);
    PassBoth(ts, s1, r.s, s2, ArgsText(args), [Tok(RPAREN)]);
    PassBoth(ts, l.s, s1, s2, [Tok(LPAREN)], ArgsText(args) + [Tok(RPAREN)]);
    PassBoth(ts, start, l.s, s2, ExprText(f), [Tok(LPAREN)] + (ArgsText(args) + [Tok(RPAREN)]));
    g := CallF(f, args);
  }

  lemma IndexSound(ts: C.Input, start: State, l: Res<Expr>, f: ExprForm, r: Res<Expr>, i: ExprForm)
    returns (g: ExprForm)
    requires At(ts, l.s) && Derives(ts, start, l, f, 11) && Cur(ts, l.s) == LBRACKET && l.s.errors == 0
    requires Derives(ts, Advance(ts, l.s), r, i, 0) && At(ts, r.s) && Expect(ts, r.s, RBRACKET).errors == 0
    ensures Derives(ts, start, Res(Expect(ts, r.s, RBRACKET), Index(l.v, r.v)), g, 11)
  {
    hide Advance, Passed, Expect;
    var s1, s2 := Advance(ts, l.s), Expect(ts, r.s, RBRACKET);
    PassOne(ts, l.s, Tok(LBRACKET));
    PassExpected(ts, r.s, RBRACKET);
    PassBoth(ts, s1, r.s, s2, ExprText(i), [Tok(RBRACKET)]);
    PassBoth(ts, l.s, s1, s2, [Tok(LBRACKET)], ExprText(i) + [Tok(RBRACKET)]);
    PassBoth(ts, start, l.s, s2, ExprText(f), [Tok(LBRACKET)] + (ExprText(i) + [Tok(RBRACKET)]));
    g := IndexF(f, i);
  }

  lemma CastSound(ts: C.Input, start: State, l: Res<Expr>, f: ExprForm) returns (g: ExprForm)
    requires At(ts, l.s) && Derives(ts, start, l, f, 11) && Cur(ts, l.s) == DOT && l.s.errors == 0
    requires Cur(ts, Advance(ts, l.s)) == KW_AS
    requires ParseBracketedType(ts, Advance(ts, Advance(ts, l.s))).s.errors == 0
    ensures var r := ParseBracketedType(ts, Advance(ts, Advance(ts, l.s)));
            Derives(ts, start, Res(r.s, Cast(l.v, r.v)), g, 11)
  {
    hide Advance, Passed, ParseBracketedType, ProperType, TypeText;
    var s1 := Advance(ts, l.s);
    var s2 := Advance(ts, s1);
    var r := ParseBracketedType(ts, s2);
    PassOne(ts, l.s, Tok(DOT));
    PassOne(ts, s1, Tok(KW_AS));
    BracketedSound(ts, s2);
    PassBoth(ts, s1, s2, r.s, [Tok(KW_AS)], BracketedText(r.v));
    PassBoth(ts, l.s, s1, r.s, [Tok(DOT)], [Tok(KW_AS)] + BracketedText(r.v));
    PassBoth(ts, start, l.s, r.s, ExprText(f), [Tok(DOT)] + ([Tok(KW_AS)] + BracketedText(r.v)));
    g := CastF(f, r.v);
  }

  lemma FieldSound(ts: C.Input, start: State, l: Res<Expr>, f: ExprForm) returns (g: ExprForm)
    requires At(ts, l.s) && Derives(ts, start, l, f, 11) && Cur(ts, l.s) == DOT && l.s.errors == 0
    requires Cur(ts, Advance(ts, l.s)) == IDENT
    ensures var s1 := Advance(ts, l.s);
            Derives(ts, start, Res(Advance(ts, s1), Field(l.v, Some(ts[s1.pos].text))), g, 11)
  {
    hide Advance, Passed;
    var s1 := Advance(ts, l.s);
    var s2 := Advance(ts, s1);
    var name := ts[s1.pos].text;
    PassOne(ts, l.s, Tok(DOT));
    PassOne(ts, s1, Ident(name));
    PassBoth(ts, l.s, s1, s2, [Tok(DOT)], [Ident(name)]);
    PassBoth(ts, start, l.s, s2, ExprText(f), [Tok(DOT)] + [Ident(name)]);
    g := FieldF(f, name);
  }

  predicate DerivesArgs(ts: C.Input, s: State, r: Res<seq<Expr>>, args: seq<ExprForm>) {
    GoodArgs(args) && ArgsTree(args) == r.v && Passed(ts, s, r.s, ArgsText(args))
  }

  lemma {:induction false} ArgsSound(ts: C.Input, s: State) returns (args: seq<ExprForm>)
    requires At(ts, s) && ParseArgs(ts, s).s.errors == 0
    ensures DerivesArgs(ts, s, ParseArgs(ts, s), args)
    decreases |ts| - s.pos, 17
  {
    hide Passed, ParseArgList;
    if Cur(ts, s) == RPAREN {
      PassNothing(ts, s);
      args := [];
    } else {
      args := ArgListSound(ts, s);
    }
  }

  lemma {:induction false} ArgListSound(ts: C.Input, s: State) returns (args: seq<ExprForm>)
    requires At(ts, s) && ParseArgList(ts, s).s.errors == 0
    ensures DerivesArgs(ts, s, ParseArgList(ts, s), args) && args != []
    decreases |ts| - s.pos, 16
  {
    hide Advance, Passed, ParseExpr, GoodExpr, ExprText, ExprTree, ExprDepth, ArgsText, ArgsDepth, GoodArgs;
    var r := ParseExpr(ts, s);
    var f := ExprSound(ts, s);
    args := [f];
    if Cur(ts, r.s) == COMMA {
      var s1 := Advance(ts, r.s);
      var rest := ParseArgList(ts, s1);
      var more := ArgListSound(ts, s1);
      PassOne(ts, r.s, Tok(COMMA));
      PassBoth(ts, r.s, s1, rest.s, [Tok(COMMA)], ArgsText(more));
      PassBoth(ts, s, r.s, rest.s, ExprText(f), [Tok(COMMA)] + ArgsText(more));
      First.ArgsMore(f, more);
      args := [f] + more;
    } else {
      First.NoArgs();
      First.ArgsMore(f, []);
      assert [f] + [] == [f] && [r.v] + [] == [r.v];
    }
  }

  lemma {:induction false} PrimarySound(ts: C.Input, s: State) returns (f: ExprForm)
    requires At(ts, s) && ParsePrimary(ts, s).s.errors == 0
    ensures Derives(ts, s, ParsePrimary(ts, s), f, 11)
    decreases |ts| - s.pos, 0
  {
    hide Advance, Passed, ParseExpr, Expect;
    if Cur(ts, s) == LPAREN {
      var s1 := Advance(ts, s);
      var r := ParseExpr(ts, s1);
      var s2 := Expect(ts, r.s, RPAREN);
      f := ExprSound(ts, s1);
      PassOne(ts, s, Tok(LPAREN));
      PassExpected(ts, r.s, RPAREN);
      PassBoth(ts, s1, r.s, s2, ExprText(f), [Tok(RPAREN)]);
      PassBoth(ts, s, s1, s2, [Tok(LPAREN)], ExprText(f) + [Tok(RPAREN)]);
      f := ParenF(f);
    } else {
      f := AtomF(ParsePrimary(ts, s).v);
      PassOne(ts, s, AtomToken(f.atom));
    }
  }

  // ------------------------------------------------------------- declarations

  lemma DeclSound(ts: C.Input, s: State)
    requires At(ts, s) && ParseDeclarator(ts, s).s.errors == 0
    ensures var r := ParseDeclarator(ts, s);
            r.v.named && ProperType(r.v.param.ty) && Passed(ts, s, r.s, DeclText(r.v.param))
  {
    hide Advance, Passed, ParseType, ProperType, TypeText;
    var isMut := Cur(ts, s) == KW_MUT;
    var s1 := if isMut then Advance(ts, s) else s;
    var t := ParseType(ts, s1);
    var s2 := Advance(ts, t.s);
    var name := Ident(ts[t.s.pos].text);
    TypeSound(ts, s1);
    PassOne(ts, t.s, name);
    PassBoth(ts, s1, t.s, s2, TypeText(t.v), [name]);
    if isMut {
      PassOne(ts, s, Tok(KW_MUT));
      PassBoth(ts, s, s1, s2, [Tok(KW_MUT)], TypeText(t.v) + [name]);
    } else {
      Programs.Nothing(TypeText(t.v) + [name]);
    }
  }

  lemma InitSound(ts: C.Input, s: State) returns (e: Option<ExprForm>)
    requires At(ts, s) && ParseInit(ts, s).s.errors == 0
    ensures var r := ParseInit(ts, s); GoodInit(e) && InitTree(e) == r.v && Passed(ts, s, r.s, InitText(e))
  {
    hide Advance, Passed, ParseExpr, GoodExpr, ExprText, ExprTree;
    if Cur(ts, s) == EQ {
      var s1 := Advance(ts, s);
      var f := ExprSound(ts, s1);
      PassOne(ts, s, Tok(EQ));
      PassBoth(ts, s, s1, ParseExpr(ts, s1).s, [Tok(EQ)], ExprText(f));
      e := Some(f);
    } else {
      PassNothing(ts, s);
      e := None;
    }
  }

  // --------------------------------------------------------------- statements

  predicate DerivesStmt(ts: C.Input, s: State, r: Res<Stmt>, f: StmtForm) {
    GoodStmt(f, false) && StmtTree(f) == r.v && Passed(ts, s, r.s, StmtText(f))
  }

  lemma VarSound(ts: C.Input, s: State) returns (f: StmtForm)
    requires At(ts, s) && Cur(ts, s) == KW_LET && ParseVar(ts, Advance(ts, s)).s.errors == 0
    ensures DerivesStmt(ts, s, ParseVar(ts, Advance(ts, s)), f)
  {
    hide Advance, Passed, ParseDeclarator, ParseInit, Expect, GoodInit, InitText, InitTree, DeclText, ProperType;
    var s1 := Advance(ts, s);
    var d := ParseDeclarator(ts, s1);
    DeclSound(ts, s1);
    var i := ParseInit(ts, d.s);
    var s2 := Expect(ts, i.s, SEMI);
    var e := InitSound(ts, d.s);
    f := VarF(d.v.param, e);
    PassOne(ts, s, Tok(KW_LET));
    PassExpected(ts, i.s, SEMI);
    PassBoth(ts, d.s, i.s, s2, InitText(e), [Tok(SEMI)]);
    PassBoth(ts, s1, d.s, s2, DeclText(f.decl), InitText(e) + [Tok(SEMI)]);
    PassBoth(ts, s, s1, s2, [Tok(KW_LET)], DeclText(f.decl) + (InitText(e) + [Tok(SEMI)]));
  }

  lemma ReturnSound(ts: C.Input, s: State) returns (f: StmtForm)
    requires At(ts, s) && Cur(ts, s) == KW_RETURN && ParseReturn(ts, Advance(ts, s)).s.errors == 0
    ensures DerivesStmt(ts, s, ParseReturn(ts, Advance(ts, s)), f)
  {
    hide Advance, Passed, ParseExpr, Expect, GoodExpr, ExprText, ExprTree;
    var s1 := Advance(ts, s);
    PassOne(ts, s, Tok(KW_RETURN));
    if Cur(ts, s1) == SEMI {
      var s2 := Expect(ts, s1, SEMI);
      PassExpected(ts, s1, SEMI);
      PassBoth(ts, s, s1, s2, [Tok(KW_RETURN)], [Tok(SEMI)]);
      Programs.Nothing([Tok(SEMI)]);
      f := ReturnF(None);
    } else {
      var e := ParseExpr(ts, s1);
      var s2 := Expect(ts, e.s, SEMI);
      var g := ExprSound(ts, s1);
      PassExpected(ts, e.s, SEMI);
      PassBoth(ts, s1, e.s, s2, ExprText(g), [Tok(SEMI)]);
      PassBoth(ts, s, s1, s2, [Tok(KW_RETURN)], ExprText(g) + [Tok(SEMI)]);
      f := ReturnF(Some(g));
    }
  }

  lemma ExprStmtSound(ts: C.Input, s: State) returns (f: StmtForm)
    requires At(ts, s) && ParseExprStmt(ts, s).s.errors == 0
    ensures DerivesStmt(ts, s, ParseExprStmt(ts, s), f)
  {
    hide Advance, Passed, ParseExpr, Expect, C.IsAssignOp, AssignOp, GoodExpr, ExprText, ExprTree;
    var e := ParseExpr(ts, s);
    var g := ExprSound(ts, s);
    var op := Cur(ts, e.s);
    if C.IsAssignOp(op) {
      Whole.AssignIsPlain(op);
      var s1 := Advance(ts, e.s);
      var r := ParseExpr(ts, s1);
      var s2 := Expect(ts, r.s, SEMI);
      var h := ExprSound(ts, s1);
      PassOne(ts, e.s, Tok(op));
      PassExpected(ts, r.s, SEMI);
      PassBoth(ts, s1, r.s, s2, ExprText(h), [Tok(SEMI)]);
      PassBoth(ts, e.s, s1, s2, [Tok(op)], ExprText(h) + [Tok(SEMI)]);
      PassBoth(ts, s, e.s, s2, ExprText(g), [Tok(op)] + (ExprText(h) + [Tok(SEMI)]));
      f := AssignF(g, op, h);
    } else {
      var s2 := Expect(ts, e.s, SEMI);
      PassExpected(ts, e.s, SEMI);
      PassBoth(ts, s, e.s, s2, ExprText(g), [Tok(SEMI)]);
      f := ExprF(g);
    }
  }

  lemma KeywordSound(ts: C.Input, s: State, k: Kind)
    requires At(ts, s) && Cur(ts, s) == k && k in {KW_BREAK, KW_CONTINUE}
    requires Expect(ts, Advance(ts, s), SEMI).errors == 0
    ensures Passed(ts, s, Expect(ts, Advance(ts, s), SEMI), [Tok(k), Tok(SEMI)])
  {
    hide Advance, Passed, Expect;
    var s1 := Advance(ts, s);
    var s2 := Expect(ts, s1, SEMI);
    PassOne(ts, s, Tok(k));
    PassExpected(ts, s1, SEMI);
    PassBoth(ts, s, s1, s2, [Tok(k)], [Tok(SEMI)]);
    assert [Tok(k)] + [Tok(SEMI)] == [Tok(k), Tok(SEMI)];
  }

  lemma {:induction false} StmtSound(ts: C.Input, s: State) returns (f: StmtForm)
    requires At(ts, s) && ParseStmt(ts, s).s.errors == 0
    ensures DerivesStmt(ts, s, ParseStmt(ts, s), f) && (Cur(ts, s) == KW_IF ==> f.IfF?)
    decreases |ts| - s.pos, 20
  {
    hide Advance, Expect, Passed, ParseBlock, ParseVar, ParseIf, ParseExpr, ParseMatch, ParseReturn, ParseExprStmt;
    hide GoodStmts, StmtsTree, BlockText, StmtText, GoodStmt, StmtTree;
    var k := Cur(ts, s);
    if k == LBRACE {
      f := BlockStmtSound(ts, s);
    } else if k == KW_LET {
      f := VarSound(ts, s);
    } else if k == KW_IF {
      f := IfSound(ts, s);
    } else if k == KW_WHILE {
      f := WhileSound(ts, s);
    } else if k == KW_MATCH {
      f := MatchSound(ts, s);
    } else if k == KW_RETURN {
      f := ReturnSound(ts, s);
    } else if k == KW_BREAK || k == KW_CONTINUE || k == SEMI {
      f := JumpSound(ts, s);
    } else {
      f := ExprStmtSound(ts, s);
    }
  }

  lemma JumpSound(ts: C.Input, s: State) returns (f: StmtForm)
    requires At(ts, s) && Cur(ts, s) in {KW_BREAK, KW_CONTINUE, SEMI} && ParseStmt(ts, s).s.errors == 0
    ensures DerivesStmt(ts, s, ParseStmt(ts, s), f)
  {
    hide Advance, Expect, Passed, ParseBlock, ParseVar, ParseIf, ParseExpr, ParseMatch, ParseReturn, ParseExprStmt;
    var k := Cur(ts, s);
    if k == SEMI {
      PassOne(ts, s, Tok(SEMI));
      f := EmptyF;
    } else {
      KeywordSound(ts, s, k);
      f := if k == KW_BREAK then BreakF else ContinueF;
    }
  }

  lemma {:induction false} BlockStmtSound(ts: C.Input, s: State) returns (f: StmtForm)
    requires At(ts, s) && ParseBlock(ts, s).s.errors == 0
    ensures DerivesStmt(ts, s, ParseBlock(ts, s), f) && f.BlockF?
    decreases |ts| - s.pos, 19
  {
    hide Passed, ParseBlock, GoodStmts, StmtsTree, BlockText;
    var fs := BlockSound(ts, s);
    f := BlockF(fs);
  }

  lemma {:induction false} BlockSound(ts: C.Input, s: State) returns (fs: seq<StmtForm>)
    requires At(ts, s) && ParseBlock(ts, s).s.errors == 0
    ensures var r := ParseBlock(ts, s);
            && GoodStmts(fs, false) && r.v == Block(StmtsTree(fs)) && StmtsOf(r.v) == StmtsTree(fs)
            && Passed(ts, s, r.s, BlockText(fs))
    decreases |ts| - s.pos, 18
  {
    hide Advance, Expect, Passed, ParseStmts, GoodStmts, StmtsTree, StmtsText;
    var s1 := Advance(ts, s);
    PassOne(ts, s, Tok(LBRACE));
    var r := ParseStmts(ts, s1);
    var s2 := Expect(ts, r.s, RBRACE);
    fs := StmtsSound(ts, s1);
    PassExpected(ts, r.s, RBRACE);
    PassBoth(ts, s1, r.s, s2, StmtsText(fs), [Tok(RBRACE)]);
    PassBoth(ts, s, s1, s2, [Tok(LBRACE)], StmtsText(fs) + [Tok(RBRACE)]);
  }

  lemma {:induction false} StmtsSound(ts: C.Input, s: State) returns (fs: seq<StmtForm>)
    requires At(ts, s) && ParseStmts(ts, s).s.errors == 0
    ensures var r := ParseStmts(ts, s);
            GoodStmts(fs, false) && StmtsTree(fs) == r.v && Passed(ts, s, r.s, StmtsText(fs))
    decreases |ts| - s.pos, 21
  {
    hide Passed, ParseStmt, GoodStmt, StmtTree, StmtText;
    if Cur(ts, s) == RBRACE || Cur(ts, s) == EOF {
      PassNothing(ts, s);
      fs := [];
    } else {
      var r := ParseStmt(ts, s);
      var rest := ParseStmts(ts, r.s);
      var f := StmtSound(ts, s);
      var more := StmtsSound(ts, r.s);
      PassBoth(ts, s, r.s, rest.s, StmtText(f), StmtsText(more));
      fs := [f] + more;
      assert fs[1..] == more;
    }
  }

  lemma {:induction false} WhileSound(ts: C.Input, s: State) returns (f: StmtForm)
    requires At(ts, s) && Cur(ts, s) == KW_WHILE && ParseStmt(ts, s).s.errors == 0
    ensures DerivesStmt(ts, s, ParseStmt(ts, s), f)
    decreases |ts| - s.pos, 19
  {
    hide Advance, Passed, ParseExpr, ParseBlock, GoodExpr, ExprText, ExprTree, GoodStmts, StmtsTree, BlockText;
    var s1 := Advance(ts, s);
    var c := ParseExpr(ts, s1);
    var body := ParseBlock(ts, c.s);
    var g := ExprSound(ts, s1);
    var fs := BlockSound(ts, c.s);
    PassOne(ts, s, Tok(KW_WHILE));
    PassBoth(ts, s1, c.s, body.s, ExprText(g), BlockText(fs));
    PassBoth(ts, s, s1, body.s, [Tok(KW_WHILE)], ExprText(g) + BlockText(fs));
    f := WhileF(g, fs);
  }

  lemma {:induction false} IfSound(ts: C.Input, s: State) returns (f: StmtForm)
    requires At(ts, s) && Cur(ts, s) == KW_IF && ParseIf(ts, Advance(ts, s)).s.errors == 0
    ensures DerivesStmt(ts, s, ParseIf(ts, Advance(ts, s)), f) && f.IfF?
    decreases |ts| - s.pos, 19
  {
    hide Advance, Passed, ParseExpr, ParseBlock, ParseStmt, GoodExpr, ExprText, ExprTree, GoodStmts, StmtsTree,
        BlockText;
    var s1 := Advance(ts, s);
    var c := ParseExpr(ts, s1);
    var thn := ParseBlock(ts, c.s);
    var g := ExprSound(ts, s1);
    var fs := BlockSound(ts, c.s);
    var e: Option<StmtForm>;
    var last := ParseIf(ts, s1).s;
    if Cur(ts, thn.s) == KW_ELSE {
      var h := ElseSound(ts, thn.s);
      e := Some(h);
    } else {
      PassNothing(ts, thn.s);
      e := None;
    }
    var w := if e.None? then [] else [Tok(KW_ELSE)] + StmtText(e.value);
    PassOne(ts, s, Tok(KW_IF));
    PassBoth(ts, c.s, thn.s, last, BlockText(fs), w);
    PassBoth(ts, s1, c.s, last, ExprText(g), BlockText(fs) + w);
    PassBoth(ts, s, s1, last, [Tok(KW_IF)], ExprText(g) + (BlockText(fs) + w));
    f := IfF(g, fs, e);
  }

  /** What follows an `else`. */
  function ElseOf(ts: C.Input, s: State): (r: Res<Stmt>)
    requires At(ts, s)
    ensures Forward(ts, s, r.s)
  {
    if Cur(ts, s) == KW_IF then ParseStmt(ts, s) else ParseBlock(ts, s)
  }

  lemma {:induction false} ElseSound(ts: C.Input, s: State) returns (f: StmtForm)
    requires At(ts, s) && Cur(ts, s) == KW_ELSE && s.errors == 0 && ElseOf(ts, Advance(ts, s)).s.errors == 0
    ensures var r := ElseOf(ts, Advance(ts, s));
            GoodElse(f, false) && StmtTree(f) == r.v && Passed(ts, s, r.s, [Tok(KW_ELSE)] + StmtText(f))
    decreases |ts| - s.pos, 22
  {
    hide Advance, Passed, ParseStmt, ParseBlock, GoodStmt, StmtTree, StmtText;
    var s1 := Advance(ts, s);
    PassOne(ts, s, Tok(KW_ELSE));
    if Cur(ts, s1) == KW_IF {
      f := StmtSound(ts, s1);
    } else {
      f := BlockStmtSound(ts, s1);
    }
    PassBoth(ts, s, s1, ElseOf(ts, s1).s, [Tok(KW_ELSE)], StmtText(f));
  }

  lemma {:induction false} MatchSound(ts: C.Input, s: State) returns (f: StmtForm)
    requires At(ts, s) && Cur(ts, s) == KW_MATCH && ParseMatch(ts, Advance(ts, s)).s.errors == 0
    ensures DerivesStmt(ts, s, ParseMatch(ts, Advance(ts, s)), f)
    decreases |ts| - s.pos, 19
  {
    hide Advance, Passed, ParseExpr, ParseArms, Expect, GoodExpr, ExprText, ExprTree, GoodArms, ArmsTree, ArmsText;
    var s1 := Advance(ts, s);
    var e := ParseExpr(ts, s1);
    var s2 := Expect(ts, e.s, LBRACE);
    var arms := ParseArms(ts, s2);
    var s3 := Expect(ts, arms.s, RBRACE);
    var g := ExprSound(ts, s1);
    PassExpected(ts, e.s, LBRACE);
    var fs := ArmsSound(ts, s2);
    PassOne(ts, s, Tok(KW_MATCH));
    PassExpected(ts, arms.s, RBRACE);
    PassBoth(ts, s2, arms.s, s3, ArmsText(fs), [Tok(RBRACE)]);
    PassBoth(ts, e.s, s2, s3, [Tok(LBRACE)], ArmsText(fs) + [Tok(RBRACE)]);
    PassBoth(ts, s1, e.s, s3, ExprText(g), [Tok(LBRACE)] + (ArmsText(fs) + [Tok(RBRACE)]));
    PassBoth(ts, s, s1, s3, [Tok(KW_MATCH)], ExprText(g) + ([Tok(LBRACE)] + (ArmsText(fs) + [Tok(RBRACE)])));
    f := MatchF(g, fs);
  }

  lemma {:induction false} ArmsSound(ts: C.Input, s: State) returns (fs: seq<ArmForm>)
    requires At(ts, s) && ParseArms(ts, s).s.errors == 0
    ensures var r := ParseArms(ts, s);
            GoodArms(fs, false) && ArmsTree(fs) == r.v && Passed(ts, s, r.s, ArmsText(fs))
    decreases |ts| - s.pos, 24
  {
    hide Passed, ParseLabels, ParseStmt, Expect, GoodStmt, StmtTree, StmtText, LabelsText, LabelsTree, GoodLabels;
    if Cur(ts, s) == RBRACE || Cur(ts, s) == EOF {
      PassNothing(ts, s);
      fs := [];
    } else {
      var labels := ParseLabels(ts, s);
      var s1 := Expect(ts, labels.s, FAT_ARROW);
      var body := ParseStmt(ts, s1);
      var rest := ParseArms(ts, body.s);
      var ls := LabelsSound(ts, s);
      PassExpected(ts, labels.s, FAT_ARROW);
      var b := StmtSound(ts, s1);
      var more := ArmsSound(ts, body.s);
      var f := ArmForm(ls, b);
      PassBoth(ts, labels.s, s1, body.s, [Tok(FAT_ARROW)], StmtText(b));
      PassBoth(ts, s, labels.s, body.s, LabelsText(ls), [Tok(FAT_ARROW)] + StmtText(b));
      PassBoth(ts, s, body.s, rest.s, ArmText(f), ArmsText(more));
      fs := [f] + more;
      assert fs[1..] == more;
    }
  }

  lemma {:induction false} LabelsSound(ts: C.Input, s: State) returns (ls: seq<Option<ExprForm>>)
    requires At(ts, s) && ParseLabels(ts, s).s.errors == 0
    ensures var r := ParseLabels(ts, s);
            GoodLabels(ls, false) && r.v == LabelsTree(ls) && Passed(ts, s, r.s, LabelsText(ls))
    decreases |ts| - s.pos
  {
    hide Advance, Passed, ParseLabel, IsLabel, LabelText, LabelTree, LabelsTree, LabelsText, GoodLabels;
    var l := ParseLabel(ts, s);
    var one := LabelSound(ts, s);
    ls := [one];
    Whole.OneLabel(one, false);
    if Cur(ts, l.s) == COMMA {
      var s1 := Advance(ts, l.s);
      var rest := ParseLabels(ts, s1);
      var more := LabelsSound(ts, s1);
      PassOne(ts, l.s, Tok(COMMA));
      PassBoth(ts, l.s, s1, rest.s, [Tok(COMMA)], LabelsText(more));
      PassBoth(ts, s, l.s, rest.s, LabelText(one), [Tok(COMMA)] + LabelsText(more));
      ls := [one] + more;
      Whole.MoreLabels(one, more, false);
    }
  }

  lemma LabelSound(ts: C.Input, s: State) returns (l: Option<ExprForm>)
    requires At(ts, s) && ParseLabel(ts, s).s.errors == 0
    ensures var r := ParseLabel(ts, s); IsLabel(l, false) && LabelTree(l) == r.v && Passed(ts, s, r.s, LabelText(l))
  {
    hide Advance, ParseExpr, GoodExpr, ExprTree, ExprText;
    if Cur(ts, s) == IDENT && ts[s.pos].text == "_" {
      PassOne(ts, s, Ident("_"));
      l := None;
    } else {
      var f := ExprSound(ts, s);
      Reading.IsTree(f);
      Reading.Begins(f);
      assert Reading.Like(ts[s.pos + 0], ExprText(f)[0]);
      l := Some(f);
    }
  }

  // -------------------------------------------------------------------- items

  lemma {:induction false} ParamsSound(ts: C.Input, s: State)
    requires At(ts, s) && ParseParams(ts, s).s.errors == 0
    ensures var r := ParseParams(ts, s);
            && ProperParams(r.v.params) && (r.v.params != [] || r.v.variadic)
            && Passed(ts, s, r.s, ParamsText(r.v.params, r.v.variadic))
    decreases |ts| - s.pos
  {
    hide Advance, Passed, ParseDeclarator, DeclText, ProperType;
    if Cur(ts, s) == ELLIPSIS {
      PassOne(ts, s, Tok(ELLIPSIS));
    } else {
      var d := ParseDeclarator(ts, s);
      DeclSound(ts, s);
      if Cur(ts, d.s) == COMMA {
        var s1 := Advance(ts, d.s);
        var rest := ParseParams(ts, s1);
        ParamsSound(ts, s1);
        var ps, v := rest.v.params, rest.v.variadic;
        PassOne(ts, d.s, Tok(COMMA));
        PassBoth(ts, d.s, s1, rest.s, [Tok(COMMA)], ParamsText(ps, v));
        PassBoth(ts, s, d.s, rest.s, DeclText(d.v.param), [Tok(COMMA)] + ParamsText(ps, v));
        assert ([d.v.param] + ps)[1..] == ps;
      }
    }
  }

  lemma ParamListSound(ts: C.Input, s: State)
    requires At(ts, s) && ParseParamList(ts, s).s.errors == 0
    ensures var r := ParseParamList(ts, s);
            && ProperParams(r.v.params)
            && Passed(ts, s, r.s, [Tok(LPAREN)] + (ParamsText(r.v.params, r.v.variadic) + [Tok(RPAREN)]))
  {
    hide Advance, Passed, ParseParams, Expect, ProperParams, ParamsText;
    var s1 := Expect(ts, s, LPAREN);
    var params := if Cur(ts, s1) == RPAREN then Res(s1, C.Params([], false)) else ParseParams(ts, s1);
    PassExpected(ts, s, LPAREN);
    if Cur(ts, s1) == RPAREN {
      PassNothing(ts, s1);
      Programs.NoParams();
      Whole.EmptyParams();
    } else {
      ParamsSound(ts, s1);
    }
    var s2 := Expect(ts, params.s, RPAREN);
    var w := ParamsText(params.v.params, params.v.variadic);
    PassExpected(ts, params.s, RPAREN);
    PassBoth(ts, s1, params.s, s2, w, [Tok(RPAREN)]);
    PassBoth(ts, s, s1, s2, [Tok(LPAREN)], w + [Tok(RPAREN)]);
  }

  /** From the `fn` on. */
  lemma FnSound(ts: C.Input, s: State, wantBody: bool) returns (f: FnForm)
    requires At(ts, s) && Cur(ts, s) == KW_FN && ParseFn(ts, Advance(ts, s), wantBody).s.errors == 0
    ensures var r := ParseFn(ts, Advance(ts, s), wantBody);
            GoodFn(f, !wantBody, false) && r.v == FnTree(f) && Passed(ts, s, r.s, FnText(f))
  {
    hide Advance, Passed, ParseParamList, ParseFnRest, ProperParams, ParamsText, GoodStmts, StmtsTree, RetText;
    hide FnEndText, ProperType;
    var s1 := Advance(ts, s);
    var name := ts[s1.pos].text;
    var s2 := Advance(ts, s1);
    var params := ParseParamList(ts, s2);
    var r := ParseFnRest(ts, params.s, name, params.v, wantBody);
    PassOne(ts, s, Tok(KW_FN));
    PassOne(ts, s1, Ident(name));
    ParamListSound(ts, s2);
    f := FnRestSound(ts, params.s, name, params.v, wantBody);
    var w := RetText(f.ret) + FnEndText(f);
    PassBoth(ts, s2, params.s, r.s, ParamListText(f), w);
    PassBoth(ts, s1, s2, r.s, [Ident(name)], ParamListText(f) + w);
    PassBoth(ts, s, s1, r.s, [Tok(KW_FN)], [Ident(name)] + (ParamListText(f) + w));
  }

  lemma RetSound(ts: C.Input, s: State) returns (t: Option<Type>)
    requires At(ts, s) && s.errors == 0 && (Cur(ts, s) == ARROW ==> ParseType(ts, Advance(ts, s)).s.errors == 0)
    ensures var r := if Cur(ts, s) == ARROW then ParseType(ts, Advance(ts, s)) else Res(s, CoreType(KW_VOID));
            && (t.Some? ==> ProperType(t.value)) && r.v == (if t.None? then CoreType(KW_VOID) else t.value)
            && Passed(ts, s, r.s, RetText(t))
  {
    hide Advance, Passed, ParseType, ProperType, TypeText;
    if Cur(ts, s) == ARROW {
      var s1 := Advance(ts, s);
      var r := ParseType(ts, s1);
      PassOne(ts, s, Tok(ARROW));
      TypeSound(ts, s1);
      PassBoth(ts, s, s1, r.s, [Tok(ARROW)], TypeText(r.v));
      t := Some(r.v);
    } else {
      PassNothing(ts, s);
      t := None;
    }
  }

  lemma FnRestSound(ts: C.Input, s: State, name: string, ps: C.Params, wantBody: bool) returns (f: FnForm)
    requires At(ts, s) && ParseFnRest(ts, s, name, ps, wantBody).s.errors == 0 && ProperParams(ps.params)
    ensures var r := ParseFnRest(ts, s, name, ps, wantBody);
            && GoodFn(f, !wantBody, false) && r.v == FnTree(f) && f.name == name && f.params == ps.params
            && f.variadic == ps.variadic && Passed(ts, s, r.s, RetText(f.ret) + FnEndText(f))
  {
    hide Advance, Passed, ParseType, ParseBlock, Expect, ProperParams, GoodStmts, StmtsTree, RetText, BlockText;
    hide ProperType;
    var ret := if Cur(ts, s) == ARROW then ParseType(ts, Advance(ts, s)) else Res(s, CoreType(KW_VOID));
    var t := RetSound(ts, s);
    if wantBody {
      var body := ParseBlock(ts, ret.s);
      var fs := BlockSound(ts, ret.s);
      PassBoth(ts, s, ret.s, body.s, RetText(t), BlockText(fs));
      f := FnForm(name, ps.params, ps.variadic, t, Some(fs));
    } else {
      var s1 := Expect(ts, ret.s, SEMI);
      PassExpected(ts, ret.s, SEMI);
      PassBoth(ts, s, ret.s, s1, RetText(t), [Tok(SEMI)]);
      f := FnForm(name, ps.params, ps.variadic, t, None);
    }
  }

  lemma FieldSoundToo(ts: C.Input, s: State)
    requires At(ts, s) && ParseField(ts, s).s.errors == 0
    ensures var r := ParseField(ts, s);
            ProperType(r.v.ty) && !r.v.isMut && Passed(ts, s, r.s, FieldText(r.v))
  {
    hide Advance, Passed, ParseType, Expect, ProperType, TypeText;
    var t := ParseType(ts, s);
    TypeSound(ts, s);
    var name := Ident(ts[t.s.pos].text);
    var s1 := Advance(ts, t.s);
    var s2 := Expect(ts, s1, SEMI);
    PassOne(ts, t.s, name);
    PassExpected(ts, s1, SEMI);
    PassBoth(ts, t.s, s1, s2, [name], [Tok(SEMI)]);
    PassBoth(ts, s, t.s, s2, TypeText(t.v), [name] + [Tok(SEMI)]);
  }

  lemma {:induction false} FieldsSound(ts: C.Input, s: State)
    requires At(ts, s) && ParseFields(ts, s).s.errors == 0
    ensures var r := ParseFields(ts, s); GoodFields(r.v) && Passed(ts, s, r.s, FieldsText(r.v))
    decreases |ts| - s.pos
  {
    hide Passed, ParseField, ProperType, FieldText;
    if Cur(ts, s) == RBRACE || Cur(ts, s) == EOF {
      PassNothing(ts, s);
    } else {
      var f := ParseField(ts, s);
      var rest := ParseFields(ts, f.s);
      FieldSoundToo(ts, s);
      FieldsSound(ts, f.s);
      PassBoth(ts, s, f.s, rest.s, FieldText(f.v), FieldsText(rest.v));
      assert ([f.v] + rest.v)[1..] == rest.v;
    }
  }

  predicate DerivesItem(ts: C.Input, s: State, r: Res<Option<Item>>, f: ItemForm) {
    GoodItem(f, false) && r.v == Some(ItemTree(f)) && Passed(ts, s, r.s, ItemText(f))
  }

  lemma StructSound(ts: C.Input, s: State) returns (f: ItemForm)
    requires At(ts, s) && Cur(ts, s) == KW_STRUCT && ParseStruct(ts, Advance(ts, s)).s.errors == 0
    ensures DerivesItem(ts, s, ParseStruct(ts, Advance(ts, s)), f)
  {
    hide Advance, Passed, ParseFields, Expect, FieldsText, GoodFields;
    var s1 := Advance(ts, s);
    var name := ts[s1.pos].text;
    var s2 := Advance(ts, s1);
    var s3 := Expect(ts, s2, LBRACE);
    var fields := ParseFields(ts, s3);
    var s4 := Expect(ts, fields.s, RBRACE);
    PassOne(ts, s, Tok(KW_STRUCT));
    PassOne(ts, s1, Ident(name));
    PassExpected(ts, s2, LBRACE);
    FieldsSound(ts, s3);
    PassExpected(ts, fields.s, RBRACE);
    var w := FieldsText(fields.v) + [Tok(RBRACE)];
    PassBoth(ts, s3, fields.s, s4, FieldsText(fields.v), [Tok(RBRACE)]);
    PassBoth(ts, s2, s3, s4, [Tok(LBRACE)], w);
    PassBoth(ts, s1, s2, s4, [Ident(name)], [Tok(LBRACE)] + w);
    PassBoth(ts, s, s1, s4, [Tok(KW_STRUCT)], [Ident(name)] + ([Tok(LBRACE)] + w));
    f := StructF(name, fields.v);
  }

  lemma MemberSound(ts: C.Input, s: State)
    requires At(ts, s) && Cur(ts, s) == IDENT && ParseMemberValue(ts, Advance(ts, s)).s.errors == 0
    ensures var r := ParseMemberValue(ts, Advance(ts, s));
            Passed(ts, s, r.s, MemberText(EnumMember(ts[s.pos].text, r.v)))
  {
    hide Advance, Passed;
    var name := Ident(ts[s.pos].text);
    var s1 := Advance(ts, s);
    PassOne(ts, s, name);
    if Cur(ts, s1) == EQ {
      var s2 := Advance(ts, s1);
      var v := Token(INT, "", ts[s2.pos].value, "", 0);
      var s3 := Advance(ts, s2);
      PassOne(ts, s1, Tok(EQ));
      PassOne(ts, s2, v);
      PassBoth(ts, s1, s2, s3, [Tok(EQ)], [v]);
      assert [Tok(EQ)] + [v] == [Tok(EQ), v];
      PassBoth(ts, s, s1, s3, [name], [Tok(EQ), v]);
    } else {
      Programs.Nothing([name]);
    }
  }

  lemma {:induction false} MembersSound(ts: C.Input, s: State) returns (comma: bool)
    requires At(ts, s) && ParseMembers(ts, s).s.errors == 0
    ensures var r := ParseMembers(ts, s); (comma ==> r.v != []) && Passed(ts, s, r.s, MembersText(r.v, comma))
    decreases |ts| - s.pos
  {
    hide Advance, Passed, ParseMemberValue, MemberText, MembersText;
    Whole.NoMembers();
    if Cur(ts, s) == RBRACE || Cur(ts, s) == EOF {
      PassNothing(ts, s);
      comma := false;
    } else {
      var value := ParseMemberValue(ts, Advance(ts, s));
      var m := EnumMember(ts[s.pos].text, value.v);
      MemberSound(ts, s);
      if Cur(ts, value.s) == COMMA {
        var s1 := Advance(ts, value.s);
        var rest := ParseMembers(ts, s1);
        comma := MembersSound(ts, s1);
        PassOne(ts, value.s, Tok(COMMA));
        PassBoth(ts, value.s, s1, rest.s, [Tok(COMMA)], MembersText(rest.v, comma));
        PassBoth(ts, s, value.s, rest.s, MemberText(m), [Tok(COMMA)] + MembersText(rest.v, comma));
        assert ([m] + rest.v)[1..] == rest.v;
        comma := comma || rest.v == [];
        Programs.LastComma([m] + rest.v, comma);
      } else {
        comma := false;
        Whole.LastMember(m);
        assert [m] + [] == [m];
      }
    }
  }

  lemma EnumSound(ts: C.Input, s: State) returns (f: ItemForm)
    requires At(ts, s) && Cur(ts, s) == KW_ENUM && ParseEnum(ts, Advance(ts, s)).s.errors == 0
    ensures DerivesItem(ts, s, ParseEnum(ts, Advance(ts, s)), f)
  {
    hide Advance, Passed, ParseMembers, Expect, BaseText, MembersText;
    var s1 := Advance(ts, s);
    var name := ts[s1.pos].text;
    var s2 := Advance(ts, s1);
    PassOne(ts, s, Tok(KW_ENUM));
    PassOne(ts, s1, Ident(name));
    var s3, base := BaseSound(ts, s2);
    var s4 := Expect(ts, s3, LBRACE);
    var members := ParseMembers(ts, s4);
    var s5 := Expect(ts, members.s, RBRACE);
    PassExpected(ts, s3, LBRACE);
    var comma := MembersSound(ts, s4);
    PassExpected(ts, members.s, RBRACE);
    var w := MembersText(members.v, comma) + [Tok(RBRACE)];
    PassBoth(ts, s4, members.s, s5, MembersText(members.v, comma), [Tok(RBRACE)]);
    PassBoth(ts, s3, s4, s5, [Tok(LBRACE)], w);
    PassBoth(ts, s2, s3, s5, BaseText(base), [Tok(LBRACE)] + w);
    PassBoth(ts, s1, s2, s5, [Ident(name)], BaseText(base) + ([Tok(LBRACE)] + w));
    PassBoth(ts, s, s1, s5, [Tok(KW_ENUM)], [Ident(name)] + (BaseText(base) + ([Tok(LBRACE)] + w)));
    f := EnumF(name, base, members.v, comma);
  }

  /** Whatever token follows the colon; the end of the file has no brace after it. */
  lemma BaseSound(ts: C.Input, s: State) returns (t: State, base: Option<Token>)
    requires At(ts, s) && s.errors == 0
    requires var colon := Cur(ts, s) == COLON;
             Expect(ts, if colon then Advance(ts, Advance(ts, s)) else s, LBRACE).errors == 0
    ensures t == if Cur(ts, s) == COLON then Advance(ts, Advance(ts, s)) else s
    ensures (Cur(ts, s) == COLON <==> base.Some?) && (base.Some? ==> base.value == ts[Advance(ts, s).pos])
    ensures Passed(ts, s, t, BaseText(base))
  {
    hide Passed;
    if Cur(ts, s) == COLON {
      var s1 := Advance(ts, s);
      t := Advance(ts, s1);
      base := Some(ts[s1.pos]);
      PassOne(ts, s, Tok(COLON));
      PassOne(ts, s1, ts[s1.pos]);
      PassBoth(ts, s, s1, t, [Tok(COLON)], [ts[s1.pos]]);
      assert [Tok(COLON)] + [ts[s1.pos]] == [Tok(COLON), ts[s1.pos]];
    } else {
      t, base := s, None;
      PassNothing(ts, s);
    }
  }

  lemma GlobalSound(ts: C.Input, s: State) returns (f: ItemForm)
    requires At(ts, s) && Cur(ts, s) == KW_LET && ParseGlobal(ts, Advance(ts, s)).s.errors == 0
    ensures DerivesItem(ts, s, ParseGlobal(ts, Advance(ts, s)), f)
  {
    hide Advance, Passed, ParseDeclarator, ParseInit, Expect, DeclText, InitText, InitTree, GoodInit, ProperType;
    var s1 := Advance(ts, s);
    var d := ParseDeclarator(ts, s1);
    DeclSound(ts, s1);
    var i := ParseInit(ts, d.s);
    var s2 := Expect(ts, i.s, SEMI);
    var e := InitSound(ts, d.s);
    PassOne(ts, s, Tok(KW_LET));
    PassExpected(ts, i.s, SEMI);
    var w := InitText(e) + [Tok(SEMI)];
    PassBoth(ts, d.s, i.s, s2, InitText(e), [Tok(SEMI)]);
    PassBoth(ts, s1, d.s, s2, DeclText(d.v.param), w);
    PassBoth(ts, s, s1, s2, [Tok(KW_LET)], DeclText(d.v.param) + w);
    f := GlobalF(d.v.param, e);
  }

  lemma {:induction false} ExternsSound(ts: C.Input, s: State) returns (fs: seq<FnForm>)
    requires At(ts, s) && ParseExternFns(ts, s).s.errors == 0
    ensures var r := ParseExternFns(ts, s);
            GoodExterns(fs, false) && ExternsTree(fs) == r.v && Passed(ts, s, r.s, ExternsText(fs))
    decreases |ts| - s.pos
  {
    hide Advance, Passed, ParseFn, GoodFn, FnTree, FnText;
    if Cur(ts, s) == RBRACE || Cur(ts, s) == EOF {
      PassNothing(ts, s);
      fs := [];
    } else {
      var r := ParseFn(ts, Advance(ts, s), false);
      var rest := ParseExternFns(ts, r.s);
      var f := FnSound(ts, s, false);
      var more := ExternsSound(ts, r.s);
      PassBoth(ts, s, r.s, rest.s, FnText(f), ExternsText(more));
      fs := [f] + more;
      assert fs[1..] == more;
    }
  }

  lemma ExternSound(ts: C.Input, s: State) returns (f: ItemForm)
    requires At(ts, s) && Cur(ts, s) == KW_EXTERN && ParseExtern(ts, Advance(ts, s)).s.errors == 0
    ensures DerivesItem(ts, s, ParseExtern(ts, Advance(ts, s)), f)
  {
    hide Advance, Passed, ParseExternFns, Expect, GoodExterns, ExternsText, ExternsTree;
    var s1 := Advance(ts, s);
    var abi := Token(STRING, "", 0, ts[s1.pos].str, 0);
    var s2 := Advance(ts, s1);
    var s3 := Expect(ts, s2, LBRACE);
    var fns := ParseExternFns(ts, s3);
    var s4 := Expect(ts, fns.s, RBRACE);
    PassOne(ts, s, Tok(KW_EXTERN));
    PassOne(ts, s1, abi);
    PassExpected(ts, s2, LBRACE);
    var fs := ExternsSound(ts, s3);
    PassExpected(ts, fns.s, RBRACE);
    var w := ExternsText(fs) + [Tok(RBRACE)];
    PassBoth(ts, s3, fns.s, s4, ExternsText(fs), [Tok(RBRACE)]);
    PassBoth(ts, s2, s3, s4, [Tok(LBRACE)], w);
    PassBoth(ts, s1, s2, s4, [abi], [Tok(LBRACE)] + w);
    PassBoth(ts, s, s1, s4, [Tok(KW_EXTERN)], [abi] + ([Tok(LBRACE)] + w));
    f := ExternF(abi.str, fs);
  }

  lemma ItemSound(ts: C.Input, s: State) returns (f: ItemForm)
    requires At(ts, s) && ParseItem(ts, s).s.errors == 0
    ensures DerivesItem(ts, s, ParseItem(ts, s), f)
  {
    hide Advance, Passed, ParseFn, ParseStruct, ParseEnum, ParseGlobal, ParseExtern, GoodFn, FnText, FnTree;
    var k := Cur(ts, s);
    if k == KW_FN {
      var g := FnSound(ts, s, true);
      f := FnF(g);
    } else if k == KW_STRUCT {
      f := StructSound(ts, s);
    } else if k == KW_ENUM {
      f := EnumSound(ts, s);
    } else if k == KW_LET {
      f := GlobalSound(ts, s);
    } else {
      f := ExternSound(ts, s);
    }
  }

  lemma {:induction false} ItemsSound(ts: C.Input, s: State) returns (fs: seq<ItemForm>)
    requires At(ts, s) && ParseItems(ts, s).s.errors == 0
    ensures var r := ParseItems(ts, s);
            && GoodItems(fs, false) && TwinParsers.Items(ItemsTree(fs)) == r.v && Passed(ts, s, r.s, ItemsText(fs))
            && Cur(ts, r.s) == EOF
    decreases |ts| - s.pos
  {
    hide Passed, ParseItem, GoodItem, ItemTree, ItemText;
    if Cur(ts, s) == EOF {
      PassNothing(ts, s);
      fs := [];
    } else {
      var r := ParseItem(ts, s);
      var rest := ParseItems(ts, r.s);
      var f := ItemSound(ts, s);
      var more := ItemsSound(ts, r.s);
      PassBoth(ts, s, r.s, rest.s, ItemText(f), ItemsText(more));
      fs := [f] + more;
      assert fs[1..] == more;
      assert ItemsTree(fs)[1..] == ItemsTree(more);
    }
  }

  // ------------------------------------------------------------- the language

  /** The tokens up to the first end of file are what `fs` spells, and `fs` is a program
      of the wider grammar. */
  predicate SpellsLoosely(ts: C.Input, fs: seq<ItemForm>) {
    var w := ItemsText(fs);
    && GoodItems(fs, false) && |w| < |ts| && ts[|w|].kind == EOF
    && forall i :: 0 <= i < |w| ==> Reading.Like(ts[i], w[i])
  }

  /** What the second parser reads without an error is a program of the wider grammar,
      and the tree is that program's. */
  lemma AcceptsLittleMore(ts: C.Input) returns (fs: seq<ItemForm>)
    requires ParseProgram(ts).s.errors == 0
    ensures SpellsLoosely(ts, fs) && ParseProgram(ts).v == TwinParsers.Items(ItemsTree(fs))
  {
    hide ParseItems, GoodItems, ItemsTree, ItemsText, Reading.Like;
    var s := State(0, 0);
    fs := ItemsSound(ts, s);
    var w := ItemsText(fs);
    assert forall i :: 0 <= i < |w| ==> Reading.Like(ts[0 + i], w[i]);
  }

  /** And every program of the grammar within the first parser's nesting limit is
      read, with its tree and without an error. */
  lemma AcceptsTheGrammar(ts: C.Input, fs: seq<ItemForm>)
    requires Whole.Spells(ts, fs)
    ensures ParseProgram(ts).s.errors == 0 && ParseProgram(ts).v == TwinParsers.Items(ItemsTree(fs))
  {
    hide ParseProgram, C.ParseProgram, Whole.Spells, ItemsTree;
    Whole.SpelledReads(ts, fs);
    TwinParsers.ParsersAgree(ts);
  }
}
