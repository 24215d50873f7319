/** The ladder implements the expression grammar: whatever a derivation spells is
    parsed to the tree the derivation stands for, without a report. */
module ParserRoundTrip {
  import opened Words
  import opened Tokens
  import opened Syntax
  import opened Grammar
  import opened Parsing

  /** The table of the grammar is the ladder's. */
  lemma LevelOfIsOp(k: Kind)
    ensures LevelOf(k) < 10 ==> IsOp(LevelOf(k), k)
    ensures forall j :: j < 10 && IsOp(j, k) ==> j == LevelOf(k)
  {
  }

  // ------------------------------------------------------------------ reading

  /** `t` reads like `u`: the same kind, with the same value where the kind has
      one. Spelling and position do not matter. */
  predicate Like(t: Token, u: Token) {
    && t.kind == u.kind
    && (t.kind == INT || t.kind == CHAR ==> t.value == u.value)
    && (t.kind == FLOAT ==> t.float == u.float)
    && (t.kind == STRING ==> t.str == u.str)
    && (t.kind == IDENT ==> t.text == u.text)
  }

  /** At position `p` the input reads `w`, and goes on after it. */
  predicate Reads(ts: Input, p: nat, w: seq<Token>) {
    && p + |w| < |ts|
    && (forall i :: 0 <= i < |w| ==> Like(ts[p + i], w[i]) && w[i].kind != ERROR)
    && ts[p + |w|].kind != ERROR
  }

  lemma ReadsSplit(ts: Input, p: nat, a: seq<Token>, b: seq<Token>)
    requires Reads(ts, p, a + b) && b != []
    ensures Reads(ts, p, a) && Reads(ts, p + |a|, b)
  {
    var w := a + b;
    forall i | 0 <= i < |a| ensures Like(ts[p + i], a[i]) && a[i].kind != ERROR {
      assert w[i] == a[i];
    }
    forall i | 0 <= i < |b| ensures Like(ts[p + |a| + i], b[i]) && b[i].kind != ERROR {
      assert w[|a| + i] == b[i];
      assert Like(ts[p + (|a| + i)], w[|a| + i]);
    }
    assert Like(ts[p + |a|], w[|a|]) && w[|a|].kind != ERROR;
  }

  /** A token of the text is passed by one step. */
  lemma ReadOne(ts: Input, s: State, t: Token)
    requires Reads(ts, s.pos, [t])
    ensures At(ts, s) && Cur(ts, s) == t.kind && Like(ts[s.pos], t)
    ensures Advance(ts, s) == s.(pos := s.pos + 1) && At(ts, Advance(ts, s))
  {
    assert Like(ts[s.pos + 0], [t][0]);
  }

  lemma ReadFirst(ts: Input, s: State, t: Token, w: seq<Token>)
    requires Reads(ts, s.pos, [t] + w)
    ensures At(ts, s) && Cur(ts, s) == t.kind && Like(ts[s.pos], t)
    ensures Advance(ts, s) == s.(pos := s.pos + 1) && At(ts, Advance(ts, s))
    ensures w != [] ==> Reads(ts, s.pos + 1, w)
    ensures w == [] ==> ts[s.pos + 1].kind != ERROR
  {
    if w == [] {
      assert [t] + w == [t];
      ReadOne(ts, s, t);
    } else {
      ReadsSplit(ts, s.pos, [t], w);
      ReadOne(ts, s, t);
    }
  }

  function Moved(s: State, n: nat): State {
    s.(pos := s.pos + n)
  }

  /** Not an operator of a level above `k`, nor the start of a postfix operator. */
  predicate Ends(k: nat, next: Kind) {
    next != LPAREN && next != LBRACKET && next != DOT && forall j :: k < j < 10 ==> !IsOp(j, next)
  }

  // -------------------------------------------------------------------- types

  lemma {:induction false} TypeBegins(t: Type)
    requires ProperType(t)
    ensures TypeText(t) != [] && (IsCoreType(TypeText(t)[0].kind) || TypeText(t)[0].kind == IDENT)
  {
    match t
    case PointerType(e) => TypeBegins(e);
    case ArrayType(e, _) => TypeBegins(e);
    case _ =>
  }

  lemma {:induction false} TypeReads(ts: Input, s: State, t: Type)
    requires ProperType(t) && Reads(ts, s.pos, TypeText(t))
    ensures At(ts, s) && TypeText(t) != [] && ParseType(ts, s) == TypeSuffixes(ts, Moved(s, |TypeText(t)|), t)
    decreases t
  {
    hide SkipErrors, Steady, Clean, ErrorTokens, WholeType, Advance, Reads, IsCoreType;
    IdentIsNoCore();
    match t
    case CoreType(k) => ReadOne(ts, s, Tok(k));
    case NamedType(x) => ReadOne(ts, s, Ident(x));
    case PointerType(e) =>
      ReadsSplit(ts, s.pos, TypeText(e), [Tok(STAR)]);
      TypeReads(ts, s, e);
      ReadOne(ts, Moved(s, |TypeText(e)|), Tok(STAR));
    case ArrayType(e, n) =>
      ReadsSplit(ts, s.pos, TypeText(e), ArrayTail(n));
      TypeReads(ts, s, e);
      ArrayTailReads(ts, Moved(s, |TypeText(e)|), e, n);
  }

  lemma IdentIsNoCore()
    ensures !IsCoreType(IDENT)
  {
  }

  /** `[n]` */
  function ArrayTail(n: nat): seq<Token> {
    [Tok(LBRACKET), Token(INT, "", n, "", 0), Tok(RBRACKET)]
  }

  lemma ArrayTailReads(ts: Input, s: State, e: Type, n: nat)
    requires e != NoType && Reads(ts, s.pos, ArrayTail(n))
    ensures At(ts, s) && At(ts, Moved(s, 3)) && TypeSuffixes(ts, s, e) == TypeSuffixes(ts, Moved(s, 3), ArrayType(e, n))
  {
    hide SkipErrors, Steady, Clean, ErrorTokens, WholeType, Advance, Reads;
    var tail := ArrayTail(n);
    assert tail == [tail[0]] + [tail[1], tail[2]];
    ReadFirst(ts, s, tail[0], [tail[1], tail[2]]);
    assert [tail[1], tail[2]] == [tail[1]] + [tail[2]];
    ReadFirst(ts, Moved(s, 1), tail[1], [tail[2]]);
    ReadOne(ts, Moved(s, 2), tail[2]);
  }

  /** `( Type )` */
  lemma BracketedReads(ts: Input, s: State, t: Type)
    requires ProperType(t) && Reads(ts, s.pos, BracketedText(t))
    ensures At(ts, s) && ParseBracketedType(ts, s) == Res(Moved(s, |BracketedText(t)|), t)
  {
    hide SkipErrors, Steady, Clean, ErrorTokens, WholeType, Advance, Reads, ParseType, ProperType;
    var w := TypeText(t);
    ReadFirst(ts, s, Tok(LPAREN), w + [Tok(RPAREN)]);
    ReadsSplit(ts, s.pos + 1, w, [Tok(RPAREN)]);
    TypeReads(ts, Moved(s, 1), t);
    ReadOne(ts, Moved(s, 1 + |w|), Tok(RPAREN));
  }

  // -------------------------------------------------------------- expressions

  /** What an expression can begin with. */
  predicate StartsExpr(k: Kind) {
    k in {INT, FLOAT, CHAR, STRING, KW_TRUE, KW_FALSE, KW_NULL, IDENT, LPAREN, KW_SIZEOF, MINUS, BANG, TILDE, STAR, AMP}
  }

  lemma {:induction false} Begins(f: ExprForm)
    requires GoodExpr(f)
    ensures ExprText(f) != [] && StartsExpr(ExprText(f)[0].kind)
    ensures Level(f) >= 11 ==> !PrefixOp(ExprText(f)[0].kind) && ExprText(f)[0].kind != KW_SIZEOF
    decreases f
  {
    match f
    case BinaryF(_, l, _) => Begins(l);
    case CallF(c, _) => Begins(c);
    case IndexF(b, _) => Begins(b);
    case FieldF(b, _) => Begins(b);
    case CastF(x, _) => Begins(x);
    case _ =>
  }

  lemma BeginsAt(ts: Input, s: State, f: ExprForm)
    requires GoodExpr(f) && Reads(ts, s.pos, ExprText(f))
    ensures At(ts, s) && StartsExpr(Cur(ts, s)) && At(ts, Moved(s, |ExprText(f)|))
    ensures Level(f) >= 11 ==> !PrefixOp(Cur(ts, s)) && Cur(ts, s) != KW_SIZEOF
  {
    Begins(f);
    assert Like(ts[s.pos + 0], ExprText(f)[0]);
  }

  /** Room for `n` further nested expressions and statements. */
  predicate Room(s: State, n: nat) {
    s.depth + n <= MAX_NESTING
  }

  lemma NoMorePostfix(ts: Input, s: State, e: Expr)
    requires At(ts, s) && e != NoExpr && Ends(9, Cur(ts, s))
    ensures PostfixOps(ts, s, e) == Res(s, e)
  {
  }

  /** Not a token that could continue an expression. */
  predicate EndsExpr(next: Kind) {
    Ends(0, next) && !IsOp(0, next)
  }

  /** What a derivation spells, within the nesting limit and followed by any token that
      cannot continue it, is parsed as its tree, up to exactly that token. */
  lemma {:induction false} ExprReads(ts: Input, s: State, f: ExprForm)
    requires GoodExpr(f) && Reads(ts, s.pos, ExprText(f)) && Room(s, 1 + ExprDepth(f))
    requires EndsExpr(ts[s.pos + |ExprText(f)|].kind)
    ensures At(ts, s) && ParseExpr(ts, s) == Res(Moved(s, |ExprText(f)|), ExprTree(f))
    decreases f, 20
  {
    hide Reads, Like, Steady, Clean, ErrorTokens, WholeExpr, SkipErrors, Advance, IsOp, Ends, ExprText, ExprDepth;
    hide ParseLevel, LevelOps, GoodExpr;
    var s1 := s.(depth := s.depth + 1);
    BeginsAt(ts, s, f);
    LevelReads(ts, s1, f, 0);
    NoMoreOps(ts, Moved(s1, |ExprText(f)|), 0, ExprTree(f));
  }

  /** An operand at level `k`, followed by nothing that binds at this level or
      tighter. */
  lemma {:induction false} OperandReads(ts: Input, s: State, f: ExprForm, k: nat)
    requires 0 < k <= 10 && GoodExpr(f) && Level(f) >= k && Reads(ts, s.pos, ExprText(f)) && Room(s, ExprDepth(f))
    requires Ends(k - 1, ts[s.pos + |ExprText(f)|].kind)
    ensures At(ts, s) && ParseLevel(ts, s, k) == Res(Moved(s, |ExprText(f)|), ExprTree(f))
    decreases f, 13 - k, 1
  {
    hide Reads, Like, Steady, Clean, ErrorTokens, WholeExpr, SkipErrors, Advance, GoodExpr, ExprText, ExprTree,
        ExprDepth;
    BeginsAt(ts, s, f);
    if k == 10 {
      UnaryReads(ts, s, f);
    } else {
      LevelReads(ts, s, f, k);
      NoMoreOps(ts, Moved(s, |ExprText(f)|), k, ExprTree(f));
    }
  }

  /** At level `k`, whatever comes after: the expression is read, and then the
      loop of that level goes on with it as its left operand. */
  lemma {:induction false} LevelReads(ts: Input, s: State, f: ExprForm, k: nat)
    requires k < 10 && GoodExpr(f) && Level(f) >= k && Reads(ts, s.pos, ExprText(f)) && Room(s, ExprDepth(f))
    requires Ends(k, ts[s.pos + |ExprText(f)|].kind)
    ensures At(ts, s) && At(ts, Moved(s, |ExprText(f)|))
    ensures ParseLevel(ts, s, k) == LevelOps(ts, Moved(s, |ExprText(f)|), k, ExprTree(f))
    decreases f, 13 - k, 0
  {
    hide Reads, Like, Steady, Clean, ErrorTokens, WholeExpr, SkipErrors, Advance, ParseLevel, LevelOps;
    hide ExprText, ExprDepth, ExprTree, GoodExpr;
    BeginsAt(ts, s, f);
    if Level(f) == k {
      BinaryReads(ts, s, f, k);
    } else {
      OneLevelDown(ts, s, k);
      OperandReads(ts, s, f, k + 1);
    }
  }

  lemma OpEnds(op: Kind, k: nat)
    requires k < 10 && IsOp(k, op)
    ensures Ends(k, op)
  {
  }

  lemma BinaryParts(f: ExprForm)
    requires f.BinaryF? && GoodExpr(f)
    ensures var k := Level(f);
            && k < 10 && IsOp(k, f.op) && GoodExpr(f.lhs) && GoodExpr(f.rhs) && Level(f.lhs) >= k && Level(f.rhs) > k
            && ExprText(f) == ExprText(f.lhs) + ([Tok(f.op)] + ExprText(f.rhs))
            && ExprTree(f) == Binary(f.op, ExprTree(f.lhs), ExprTree(f.rhs))
            && ExprDepth(f.lhs) <= ExprDepth(f) && ExprDepth(f.rhs) <= ExprDepth(f)
  {
    LevelOfIsOp(f.op);
  }

  lemma {:induction false} BinaryReads(ts: Input, s: State, f: ExprForm, k: nat)
    requires Level(f) == k && k < 10 && GoodExpr(f) && Reads(ts, s.pos, ExprText(f)) && Room(s, ExprDepth(f))
    requires Ends(k, ts[s.pos + |ExprText(f)|].kind)
    ensures At(ts, s) && At(ts, Moved(s, |ExprText(f)|))
    ensures ParseLevel(ts, s, k) == LevelOps(ts, Moved(s, |ExprText(f)|), k, ExprTree(f))
    decreases f, 0
  {
    hide Reads, Like, Steady, Clean, ErrorTokens, WholeExpr, SkipErrors, Advance, LevelOps, ParseLevel, Ends, IsOp;
    hide GoodExpr, ExprText, ExprDepth, ExprTree, LevelOf;
    BinaryParts(f);
    var wl, wr := ExprText(f.lhs), ExprText(f.rhs);
    var op := Tok(f.op);
    ReadsSplit(ts, s.pos, wl, [op] + wr);
    var s1 := Moved(s, |wl|);
    Begins(f.rhs);
    ReadFirst(ts, s1, op, wr);
    OpEnds(f.op, k);
    LevelReads(ts, s, f.lhs, k);
    OneMoreOp(ts, s1, k, ExprTree(f.lhs));
    OperandReads(ts, Moved(s1, 1), f.rhs, k + 1);
  }

  lemma PrefixIsUnaryOp(k: Kind)
    ensures IsUnaryOp(k) <==> PrefixOp(k)
  {
  }

  lemma {:induction false} UnaryReads(ts: Input, s: State, f: ExprForm)
    requires GoodExpr(f) && Level(f) >= 10 && Reads(ts, s.pos, ExprText(f)) && Room(s, ExprDepth(f))
    requires Ends(9, ts[s.pos + |ExprText(f)|].kind)
    ensures At(ts, s) && ParseUnary(ts, s) == Res(Moved(s, |ExprText(f)|), ExprTree(f))
    decreases f, 3, 0
  {
    hide Reads, Like, Steady, Clean, ErrorTokens, WholeExpr, SkipErrors, Advance, ParsePostfix, PostfixOps;
    hide ParseBracketedType, BracketedText, Ends, IsUnaryOp, PrefixOp, ProperType;
    BeginsAt(ts, s, f);
    PrefixIsUnaryOp(Cur(ts, s));
    if f.UnaryF? {
      Begins(f.operand);
      ReadFirst(ts, s, Tok(f.op), ExprText(f.operand));
      UnaryReads(ts, Moved(s, 1), f.operand);
    } else if f.SizeOfF? {
      NotPrefix();
      ReadFirst(ts, s, Tok(KW_SIZEOF), BracketedText(f.ty));
      BracketedReads(ts, Moved(s, 1), f.ty);
    } else {
      PostfixReads(ts, s, f);
      NoMorePostfix(ts, Moved(s, |ExprText(f)|), ExprTree(f));
    }
  }

  lemma NotPrefix()
    ensures !PrefixOp(KW_SIZEOF) && forall t: Type :: BracketedText(t) != []
  {
  }

  /** Whatever comes after: the expression is read, and then the postfix loop
      goes on with it. */
  lemma {:induction false} PostfixReads(ts: Input, s: State, f: ExprForm)
    requires GoodExpr(f) && Level(f) >= 11 && Reads(ts, s.pos, ExprText(f)) && Room(s, ExprDepth(f))
    ensures At(ts, s) && At(ts, Moved(s, |ExprText(f)|)) && ExprTree(f) != NoExpr
    ensures ParsePostfix(ts, s) == PostfixOps(ts, Moved(s, |ExprText(f)|), ExprTree(f))
    decreases f, 2, 0
  {
    hide Reads, Like, Steady, Clean, ErrorTokens, WholeExpr, SkipErrors, Advance, PostfixOps, ParsePrimary;
    hide ExprText, ExprDepth, GoodExpr;
    BeginsAt(ts, s, f);
    match f
    case CallF(_, _) => CallReads(ts, s, f);
    case IndexF(_, _) => IndexReads(ts, s, f);
    case FieldF(_, _) => FieldReads(ts, s, f);
    case CastF(_, _) => CastReads(ts, s, f);
    case ParenF(x) => ParenReads(ts, s, f);
    case AtomF(_) => AtomReads(ts, s, f);
    case _ =>
  }

  /** Closing brackets and commas end an expression. */
  lemma CloserEnds()
    ensures forall k :: k in {RPAREN, RBRACKET, COMMA, SEMI, LBRACE} ==> EndsExpr(k)
  {
  }

  lemma CallParts(f: ExprForm)
    requires f.CallF? && GoodExpr(f)
    ensures GoodExpr(f.callee) && Level(f.callee) >= 11 && GoodArgs(f.args)
    ensures ExprDepth(f.callee) <= ExprDepth(f) && ArgsDepth(f.args) <= ExprDepth(f)
    ensures ExprText(f) == ExprText(f.callee) + ([Tok(LPAREN)] + (ArgsText(f.args) + [Tok(RPAREN)]))
    ensures ExprTree(f) == Call(ExprTree(f.callee), ArgsTree(f.args))
  {
    hide ArgsText, ArgsDepth, GoodArgs, ArgsTree;
  }

  lemma IndexParts(f: ExprForm)
    requires f.IndexF? && GoodExpr(f)
    ensures GoodExpr(f.base) && Level(f.base) >= 11 && GoodExpr(f.index)
    ensures ExprDepth(f.base) <= ExprDepth(f) && 1 + ExprDepth(f.index) <= ExprDepth(f)
    ensures ExprText(f) == ExprText(f.base) + ([Tok(LBRACKET)] + (ExprText(f.index) + [Tok(RBRACKET)]))
    ensures ExprTree(f) == Index(ExprTree(f.base), ExprTree(f.index))
  {
  }

  lemma {:induction false} CallReads(ts: Input, s: State, f: ExprForm)
    requires f.CallF? && GoodExpr(f) && Reads(ts, s.pos, ExprText(f)) && Room(s, ExprDepth(f))
    ensures At(ts, s) && At(ts, Moved(s, |ExprText(f)|)) && ExprTree(f) != NoExpr
    ensures ParsePostfix(ts, s) == PostfixOps(ts, Moved(s, |ExprText(f)|), ExprTree(f))
    decreases f, 0
  {
    hide Reads, Like, Steady, Clean, ErrorTokens, WholeExpr, SkipErrors, Advance, PostfixOps, ParsePostfix;
    hide ParseArgs, ParseArgList, ParseLevel, Ends, ExprText, ExprDepth, GoodExpr, ArgsText, ArgsDepth, GoodArgs,
        ArgsTree;
    hide ExprTree;
    CallParts(f);
    var wc, tail := ExprText(f.callee), ArgsText(f.args) + [Tok(RPAREN)];
    ReadsSplit(ts, s.pos, wc, [Tok(LPAREN)] + tail);
    PostfixReads(ts, s, f.callee);
    var s1 := Moved(s, |wc|);
    ReadFirst(ts, s1, Tok(LPAREN), tail);
    ArgsRead(ts, Moved(s1, 1), f.args);
    OneMorePostfix(ts, s1, ExprTree(f.callee));
  }

  lemma {:induction false} IndexReads(ts: Input, s: State, f: ExprForm)
    requires f.IndexF? && GoodExpr(f) && Reads(ts, s.pos, ExprText(f)) && Room(s, ExprDepth(f))
    ensures At(ts, s) && At(ts, Moved(s, |ExprText(f)|)) && ExprTree(f) != NoExpr
    ensures ParsePostfix(ts, s) == PostfixOps(ts, Moved(s, |ExprText(f)|), ExprTree(f))
    decreases f, 0
  {
    hide Reads, Like, Steady, Clean, ErrorTokens, WholeExpr, SkipErrors, Advance, PostfixOps, ParsePostfix;
    hide ParseExpr, ParseLevel, EndsExpr, IsOp, ExprText, ExprDepth, GoodExpr, ParseArgs, ParseArgList, ExprTree;
    IndexParts(f);
    var wb, wi := ExprText(f.base), ExprText(f.index);
    var tail := wi + [Tok(RBRACKET)];
    ReadsSplit(ts, s.pos, wb, [Tok(LBRACKET)] + tail);
    PostfixReads(ts, s, f.base);
    var s1 := Moved(s, |wb|);
    ReadFirst(ts, s1, Tok(LBRACKET), tail);
    ReadsSplit(ts, s1.pos + 1, wi, [Tok(RBRACKET)]);
    ReadOne(ts, Moved(s1, 1 + |wi|), Tok(RBRACKET));
    CloserEnds();
    ExprReads(ts, Moved(s1, 1), f.index);
    OneMorePostfix(ts, s1, ExprTree(f.base));
  }

  lemma {:induction false} FieldReads(ts: Input, s: State, f: ExprForm)
    requires f.FieldF? && GoodExpr(f) && Reads(ts, s.pos, ExprText(f)) && Room(s, ExprDepth(f))
    ensures At(ts, s) && At(ts, Moved(s, |ExprText(f)|)) && ExprTree(f) != NoExpr
    ensures ParsePostfix(ts, s) == PostfixOps(ts, Moved(s, |ExprText(f)|), ExprTree(f))
    decreases f, 0
  {
    hide Reads, Like, Steady, Clean, ErrorTokens, WholeExpr, SkipErrors, Advance, PostfixOps, ParsePostfix, ParseExpr;
    var wb := ExprText(f.base);
    ReadsSplit(ts, s.pos, wb, [Tok(DOT)] + [Ident(f.field)]);
    PostfixReads(ts, s, f.base);
    var s1 := Moved(s, |wb|);
    ReadFirst(ts, s1, Tok(DOT), [Ident(f.field)]);
    ReadOne(ts, Moved(s1, 1), Ident(f.field));
    OneMorePostfix(ts, s1, ExprTree(f.base));
  }

  lemma {:induction false} CastReads(ts: Input, s: State, f: ExprForm)
    requires f.CastF? && GoodExpr(f) && Reads(ts, s.pos, ExprText(f)) && Room(s, ExprDepth(f))
    ensures At(ts, s) && At(ts, Moved(s, |ExprText(f)|)) && ExprTree(f) != NoExpr
    ensures ParsePostfix(ts, s) == PostfixOps(ts, Moved(s, |ExprText(f)|), ExprTree(f))
    decreases f, 0
  {
    hide Reads, Like, Steady, Clean, ErrorTokens, WholeExpr, SkipErrors, Advance, PostfixOps, ParsePostfix;
    hide ParseExpr, ParseBracketedType, TypeText;
    var wx, tail := ExprText(f.operand), BracketedText(f.ty);
    ReadsSplit(ts, s.pos, wx, [Tok(DOT)] + ([Tok(KW_AS)] + tail));
    PostfixReads(ts, s, f.operand);
    var s1 := Moved(s, |wx|);
    ReadFirst(ts, s1, Tok(DOT), [Tok(KW_AS)] + tail);
    ReadFirst(ts, Moved(s1, 1), Tok(KW_AS), tail);
    BracketedReads(ts, Moved(s1, 2), f.ty);
    OneMorePostfix(ts, s1, ExprTree(f.operand));
  }

  /** The arguments of a call, up to the closing parenthesis, which is passed. */
  lemma {:induction false} ArgsRead(ts: Input, s: State, args: seq<ExprForm>)
    requires GoodArgs(args) && Reads(ts, s.pos, ArgsText(args) + [Tok(RPAREN)]) && Room(s, ArgsDepth(args))
    ensures At(ts, s) && ParseArgs(ts, s) == Res(Moved(s, |ArgsText(args)|), ArgsTree(args))
    ensures var t := Moved(s, |ArgsText(args)|);
            At(ts, t) && Cur(ts, t) == RPAREN && Advance(ts, t) == Moved(t, 1)
    decreases args, 1
  {
    var w := ArgsText(args);
    if args == [] {
      assert w + [Tok(RPAREN)] == [Tok(RPAREN)];
      ReadOne(ts, s, Tok(RPAREN));
    } else {
      ReadsSplit(ts, s.pos, w, [Tok(RPAREN)]);
      ReadOne(ts, Moved(s, |w|), Tok(RPAREN));
      ArgListReads(ts, s, args);
      Begins(args[0]);
      assert w[0] == ExprText(args[0])[0];
      assert Like(ts[s.pos + 0], w[0]);
    }
  }

  lemma {:induction false} ArgListReads(ts: Input, s: State, args: seq<ExprForm>)
    requires args != [] && GoodArgs(args) && Reads(ts, s.pos, ArgsText(args)) && Room(s, ArgsDepth(args))
    requires ts[s.pos + |ArgsText(args)|].kind == RPAREN
    ensures At(ts, s) && ParseArgList(ts, s) == Res(Moved(s, |ArgsText(args)|), ArgsTree(args))
    decreases args, 0
  {
    hide Reads, Like, Steady, Clean, ErrorTokens, WholeExpr, SkipErrors, Advance, ParseExpr, EndsExpr, IsOp, GoodExpr;
    hide ArgsText, ExprText, ExprDepth, ArgsDepth, GoodArgs, ExprTree;
    var w := ExprText(args[0]);
    CloserEnds();
    ArgsParts(args);
    if |args| == 1 {
      OneArgText(args[0]);
      assert args == [args[0]] && ArgsTree(args) == [ExprTree(args[0])];
      ExprReads(ts, s, args[0]);
    } else {
      var rest := ArgsText(args[1..]);
      ArgsTexts(args);
      ArgsNotEmpty(args[1..]);
      ReadsSplit(ts, s.pos, w, [Tok(COMMA)] + rest);
      var s1 := Moved(s, |w|);
      ReadFirst(ts, s1, Tok(COMMA), rest);
      ExprReads(ts, s, args[0]);
      ArgListReads(ts, Moved(s1, 1), args[1..]);
    }
  }

  lemma ArgsParts(args: seq<ExprForm>)
    requires args != [] && GoodArgs(args)
    ensures GoodExpr(args[0]) && GoodArgs(args[1..]) && 1 + ExprDepth(args[0]) <= ArgsDepth(args)
            && ArgsDepth(args[1..]) <= ArgsDepth(args)
  {
    hide ExprDepth, GoodExpr;
  }

  lemma ArgsNotEmpty(args: seq<ExprForm>)
    requires args != [] && GoodArgs(args)
    ensures ArgsText(args) != []
  {
    Begins(args[0]);
  }

  lemma OneArgText(f: ExprForm)
    ensures ArgsText([f]) == ExprText(f)
  {
    hide ExprText;
  }

  lemma ArgsTexts(args: seq<ExprForm>)
    requires |args| > 1
    ensures ArgsText(args) == ExprText(args[0]) + ([Tok(COMMA)] + ArgsText(args[1..]))
  {
    hide ExprText;
  }

  lemma {:induction false} ParenReads(ts: Input, s: State, f: ExprForm)
    requires f.ParenF? && GoodExpr(f) && Reads(ts, s.pos, ExprText(f)) && Room(s, ExprDepth(f))
    ensures At(ts, s) && At(ts, Moved(s, |ExprText(f)|)) && ExprTree(f) != NoExpr
    ensures ParsePrimary(ts, s) == Res(Moved(s, |ExprText(f)|), ExprTree(f))
    decreases f, 0
  {
    hide Reads, Like, Steady, Clean, ErrorTokens, WholeExpr, SkipErrors, Advance, ParseExpr, EndsExpr, IsOp;
    hide ParseLevel;
    var w := ExprText(f.inner);
    CloserEnds();
    ReadFirst(ts, s, Tok(LPAREN), w + [Tok(RPAREN)]);
    ReadsSplit(ts, s.pos + 1, w, [Tok(RPAREN)]);
    ReadOne(ts, Moved(s, 1 + |w|), Tok(RPAREN));
    ExprReads(ts, Moved(s, 1), f.inner);
    IsTree(f.inner);
  }

  lemma {:induction false} IsTree(f: ExprForm)
    requires GoodExpr(f)
    ensures ExprTree(f) != NoExpr
    decreases f
  {
    if f.ParenF? {
      IsTree(f.inner);
    }
  }

  lemma AtomReads(ts: Input, s: State, f: ExprForm)
    requires f.AtomF? && GoodExpr(f) && Reads(ts, s.pos, ExprText(f))
    ensures At(ts, s) && At(ts, Moved(s, |ExprText(f)|)) && ExprTree(f) != NoExpr
    ensures ParsePrimary(ts, s) == Res(Moved(s, |ExprText(f)|), ExprTree(f))
  {
    ReadOne(ts, s, AtomToken(f.atom));
  }
}
