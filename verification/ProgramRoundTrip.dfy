/** The rest of the parser implements the rest of the grammar: whatever a
    derivation of a program spells, within the nesting limit, is parsed to the
    tree it stands for, without a report. */
module ProgramRoundTrip {
  import opened Words
  import opened Tokens
  import opened Syntax
  import opened Grammar
  import opened Parsing
  import opened ParserRoundTrip

  lemma FirstKind(ts: Input, p: nat, w: seq<Token>)
    requires w != [] && Reads(ts, p, w)
    ensures ts[p].kind == w[0].kind && w[0].kind != ERROR
  {
    assert Like(ts[p + 0], w[0]);
  }

  lemma AfterRead(ts: Input, p: nat, w: seq<Token>)
    requires Reads(ts, p, w)
    ensures p + |w| < |ts| && ts[p + |w|].kind != ERROR
  {
  }

  lemma Nothing<T>(w: seq<T>)
    ensures [] + w == w && w + [] == w
  {
  }

  // ------------------------------------------------------------- declarations

  lemma DeclReads(ts: Input, s: State, d: Param)
    requires ProperType(d.ty) && Reads(ts, s.pos, DeclText(d))
    ensures At(ts, s) && ParseDeclarator(ts, s) == Res(Moved(s, |DeclText(d)|), Some(d))
  {
    hide SkipErrors, Steady, Clean, ErrorTokens, WholeType, Advance, Reads, ParseType, TypeText, ProperType, IsCoreType;
    var w := TypeText(d.ty);
    DeclBegins(d);
    FirstKind(ts, s.pos, DeclText(d));
    if d.isMut {
      ReadFirst(ts, s, Tok(KW_MUT), w + [Ident(d.name)]);
    } else {
      Nothing(w + [Ident(d.name)]);
    }
    var s1 := if d.isMut then Moved(s, 1) else s;
    ReadsSplit(ts, s1.pos, w, [Ident(d.name)]);
    TypeReads(ts, s1, d.ty);
    ReadOne(ts, Moved(s1, |w|), Ident(d.name));
  }

  lemma DeclBegins(d: Param)
    requires ProperType(d.ty)
    ensures DeclText(d) != []
    ensures var k := DeclText(d)[0].kind; (k == KW_MUT <==> d.isMut) && k != ELLIPSIS && k != RPAREN
  {
    TypeBegins(d.ty);
  }

  lemma InitReads(ts: Input, s: State, e: Option<ExprForm>)
    requires GoodInit(e) && Reads(ts, s.pos, InitText(e) + [Tok(SEMI)]) && Room(s, InitDepth(e))
    ensures At(ts, s) && ParseInit(ts, s) == Res(Moved(s, |InitText(e)|), InitTree(e))
    ensures var t := Moved(s, |InitText(e)|); Reads(ts, t.pos, [Tok(SEMI)])
  {
    hide SkipErrors, Steady, Clean, ErrorTokens, Advance, Reads, ParseExpr, ExprText, ExprTree, ExprDepth, GoodExpr;
    hide EndsExpr;
    CloserEnds();
    if e.None? {
      Nothing([Tok(SEMI)]);
      ReadOne(ts, s, Tok(SEMI));
    } else {
      var w := ExprText(e.value);
      assert InitText(e) + [Tok(SEMI)] == [Tok(EQ)] + (w + [Tok(SEMI)]);
      ReadFirst(ts, s, Tok(EQ), w + [Tok(SEMI)]);
      ReadsSplit(ts, s.pos + 1, w, [Tok(SEMI)]);
      FirstKind(ts, s.pos + 1 + |w|, [Tok(SEMI)]);
      ExprReads(ts, Moved(s, 1), e.value);
    }
  }

  lemma VarReads(ts: Input, s: State, f: StmtForm)
    requires f.VarF? && GoodStmt(f, true) && Reads(ts, s.pos, StmtText(f)) && Room(s, StmtDepth(f))
    ensures At(ts, s) && Cur(ts, s) == KW_LET && ParseVar(ts, s) == Res(Moved(s, |StmtText(f)|), StmtTree(f))
  {
    hide SkipErrors, Steady, Clean, ErrorTokens, Advance, Reads, ParseDeclarator, ParseInit, DeclText, InitText,
        InitTree;
    hide InitDepth, GoodInit, ProperType;
    var d, i := DeclText(f.decl), InitText(f.init);
    ReadFirst(ts, s, Tok(KW_LET), d + (i + [Tok(SEMI)]));
    ReadsSplit(ts, s.pos + 1, d, i + [Tok(SEMI)]);
    DeclReads(ts, Moved(s, 1), f.decl);
    InitReads(ts, Moved(s, 1 + |d|), f.init);
    ReadOne(ts, Moved(s, 1 + |d| + |i|), Tok(SEMI));
  }

  // --------------------------------------------------------------- statements

  lemma AssignEnds(op: Kind)
    ensures IsAssignOp(op) <==> AssignOp(op)
    ensures AssignOp(op) ==> EndsExpr(op)
  {
  }

  /** A statement never begins with a token that ends a block or continues the
      statement before it. */
  lemma StmtBegins(f: StmtForm)
    requires GoodStmt(f, true)
    ensures StmtText(f) != [] && StmtText(f)[0].kind !in {KW_ELSE, RBRACE, EOF}
    ensures f.BlockF? ==> StmtText(f)[0].kind == LBRACE
    ensures f.IfF? ==> StmtText(f)[0].kind == KW_IF
  {
    match f
    case ExprF(e) => Begins(e);
    case AssignF(t, _, _) => Begins(t);
    case _ =>
  }

  lemma LabelReads(ts: Input, s: State, l: Option<ExprForm>)
    requires IsLabel(l, true) && Reads(ts, s.pos, LabelText(l))
    ensures At(ts, s) && StartsLabel(Cur(ts, s)) && LabelOf(ts[s.pos]) == LabelTree(l)
    ensures |LabelText(l)| == 1 && Advance(ts, s) == Moved(s, 1) && At(ts, Moved(s, 1))
  {
    hide SkipErrors, Steady, Clean, ErrorTokens, Advance, Reads;
    ReadOne(ts, s, LabelText(l)[0]);
  }

  lemma {:induction false} LabelsRead(ts: Input, s: State, ls: seq<Option<ExprForm>>)
    requires GoodLabels(ls, true) && Reads(ts, s.pos, LabelsText(ls)) && ts[s.pos + |LabelsText(ls)|].kind != COMMA
    ensures At(ts, s) && StartsLabel(Cur(ts, s)) && LabelsText(ls) != []
    ensures ParseLabels(ts, s) == Res(Moved(s, |LabelsText(ls)|), Some(LabelsTree(ls)))
    decreases ls
  {
    hide SkipErrors, Steady, Clean, ErrorTokens, Advance, Reads, IsLabel, LabelText, LabelTree, LabelOf, Like;
    hide WholeLabels, StartsLabel;
    var w := LabelText(ls[0]);
    if |ls| == 1 {
      LabelReads(ts, s, ls[0]);
      assert LabelsTree(ls) == [LabelTree(ls[0])];
    } else {
      var rest := LabelsText(ls[1..]);
      assert LabelsTree(ls) == [LabelTree(ls[0])] + LabelsTree(ls[1..]);
      LabelsNotEmpty(ls[1..]);
      ReadsSplit(ts, s.pos, w, [Tok(COMMA)] + rest);
      LabelReads(ts, s, ls[0]);
      ReadFirst(ts, Moved(s, 1), Tok(COMMA), rest);
      LabelsRead(ts, Moved(s, 2), ls[1..]);
    }
  }

  lemma LabelsNotEmpty(ls: seq<Option<ExprForm>>)
    requires GoodLabels(ls, true)
    ensures LabelsText(ls) != [] && LabelsText(ls)[0].kind !in {KW_ELSE, RBRACE, EOF}
  {
    hide GoodLabels;
    assert IsLabel(ls[0], true) by { FirstLabel(ls); }
  }

  lemma FirstLabel(ls: seq<Option<ExprForm>>)
    requires GoodLabels(ls, true)
    ensures ls != [] && IsLabel(ls[0], true)
  {
    hide IsLabel;
  }

  lemma ArmBegins(a: ArmForm)
    requires GoodArm(a, true)
    ensures ArmText(a) != [] && ArmText(a)[0].kind !in {KW_ELSE, RBRACE, EOF}
  {
    LabelsNotEmpty(a.labels);
  }

  /** A statement, followed by anything but an `else`. */
  lemma {:induction false} StmtReads(ts: Input, s: State, f: StmtForm)
    requires GoodStmt(f, true) && Reads(ts, s.pos, StmtText(f)) && Room(s, 1 + StmtDepth(f))
    requires ts[s.pos + |StmtText(f)|].kind != KW_ELSE
    ensures At(ts, s) && ParseStmt(ts, s) == Res(Moved(s, |StmtText(f)|), StmtTree(f))
    decreases f, 3
  {
    hide Reads, GoodStmt, StmtText, StmtDepth, StmtTree, Steady, Clean, WholeStmt, ParseStmtInner;
    InnerReads(ts, s.(depth := s.depth + 1), f);
  }

  lemma {:induction false} InnerReads(ts: Input, s: State, f: StmtForm)
    requires GoodStmt(f, true) && Reads(ts, s.pos, StmtText(f)) && Room(s, StmtDepth(f))
    requires ts[s.pos + |StmtText(f)|].kind != KW_ELSE
    ensures At(ts, s) && ParseStmtInner(ts, s) == Res(Moved(s, |StmtText(f)|), StmtTree(f))
    decreases f, 2
  {
    hide SkipErrors, Steady, Clean, ErrorTokens, Advance, Reads, ParseExpr, ParseBlock, ParseVar, ParseIf, ParseWhile;
    hide ParseMatch, ParseReturn, ParseExprStmt, WholeStmt, WholeStmts;
    match f {
      case BlockF(ss) =>
        BlockReads(ts, s, ss);
      case VarF(_, _) => VarReads(ts, s, f);
      case IfF(_, _, _) => IfReads(ts, s, f);
      case WhileF(_, _) => WhileReads(ts, s, f);
      case MatchF(_, _) => MatchReads(ts, s, f);
      case ReturnF(_) => ReturnReads(ts, s, f);
      case BreakF => KeywordReads(ts, s, KW_BREAK);
      case ContinueF => KeywordReads(ts, s, KW_CONTINUE);
      case ExprF(_) => ExprStmtReads(ts, s, f);
      case AssignF(_, _, _) => AssignReads(ts, s, f);
      case EmptyF => ReadOne(ts, s, Tok(SEMI));
    }
  }

  lemma KeywordReads(ts: Input, s: State, k: Kind)
    requires Reads(ts, s.pos, [Tok(k), Tok(SEMI)])
    ensures At(ts, s) && Cur(ts, s) == k && Expect(ts, Advance(ts, s), SEMI).s == Moved(s, 2)
  {
    hide SkipErrors, Steady, Clean, ErrorTokens, Advance, Reads;
    assert [Tok(k), Tok(SEMI)] == [Tok(k)] + [Tok(SEMI)];
    ReadFirst(ts, s, Tok(k), [Tok(SEMI)]);
    ReadOne(ts, Moved(s, 1), Tok(SEMI));
  }

  lemma ReturnReads(ts: Input, s: State, f: StmtForm)
    requires f.ReturnF? && GoodStmt(f, true) && Reads(ts, s.pos, StmtText(f)) && Room(s, StmtDepth(f))
    ensures At(ts, s) && Cur(ts, s) == KW_RETURN && ParseReturn(ts, s) == Res(Moved(s, |StmtText(f)|), StmtTree(f))
  {
    hide SkipErrors, Steady, Clean, ErrorTokens, Advance, Reads, ParseExpr, ExprText, ExprDepth, ExprTree, GoodExpr;
    hide EndsExpr;
    CloserEnds();
    if f.result.None? {
      Nothing([Tok(SEMI)]);
      ReadFirst(ts, s, Tok(KW_RETURN), [Tok(SEMI)]);
      ReadOne(ts, Moved(s, 1), Tok(SEMI));
    } else {
      var w := ExprText(f.result.value);
      ReadFirst(ts, s, Tok(KW_RETURN), w + [Tok(SEMI)]);
      ReadsSplit(ts, s.pos + 1, w, [Tok(SEMI)]);
      BeginsAt(ts, Moved(s, 1), f.result.value);
      ReadOne(ts, Moved(s, 1 + |w|), Tok(SEMI));
      ExprReads(ts, Moved(s, 1), f.result.value);
    }
  }

  lemma ExprStmtReads(ts: Input, s: State, f: StmtForm)
    requires f.ExprF? && GoodStmt(f, true) && Reads(ts, s.pos, StmtText(f)) && Room(s, StmtDepth(f))
    ensures At(ts, s) && StartsExpr(Cur(ts, s)) && ParseExprStmt(ts, s) == Res(Moved(s, |StmtText(f)|), StmtTree(f))
  {
    hide SkipErrors, Steady, Clean, ErrorTokens, Advance, Reads, ParseExpr, ExprText, ExprDepth, ExprTree, GoodExpr;
    hide EndsExpr, IsAssignOp, AssignOp;
    var w := ExprText(f.expr);
    CloserEnds();
    AssignEnds(SEMI);
    SemiAssignsNot();
    ReadsSplit(ts, s.pos, w, [Tok(SEMI)]);
    BeginsAt(ts, s, f.expr);
    ReadOne(ts, Moved(s, |w|), Tok(SEMI));
    ExprReads(ts, s, f.expr);
    IsTree(f.expr);
  }

  lemma SemiAssignsNot()
    ensures !AssignOp(SEMI)
  {
  }

  lemma AssignReads(ts: Input, s: State, f: StmtForm)
    requires f.AssignF? && GoodStmt(f, true) && Reads(ts, s.pos, StmtText(f)) && Room(s, StmtDepth(f))
    ensures At(ts, s) && StartsExpr(Cur(ts, s)) && ParseExprStmt(ts, s) == Res(Moved(s, |StmtText(f)|), StmtTree(f))
  {
    hide SkipErrors, Steady, Clean, ErrorTokens, Advance, Reads, ParseExpr, ExprText, ExprDepth, ExprTree, GoodExpr;
    hide EndsExpr, IsAssignOp, AssignOp;
    var w, r := ExprText(f.target), ExprText(f.rhs);
    CloserEnds();
    AssignEnds(f.op);
    ReadsSplit(ts, s.pos, w, [Tok(f.op)] + (r + [Tok(SEMI)]));
    var s1 := Moved(s, |w|);
    BeginsAt(ts, s, f.target);
    ReadFirst(ts, s1, Tok(f.op), r + [Tok(SEMI)]);
    ReadsSplit(ts, s1.pos + 1, r, [Tok(SEMI)]);
    ReadOne(ts, Moved(s1, 1 + |r|), Tok(SEMI));
    ExprReads(ts, s, f.target);
    ExprReads(ts, Moved(s1, 1), f.rhs);
    IsTree(f.target);
  }

  /** The head of an `if`, `while` or `match`: its keyword and its expression, up to
      a brace. */
  lemma HeadReads(ts: Input, s: State, k: Kind, e: ExprForm, w: seq<Token>)
    requires GoodExpr(e) && w != [] && w[0].kind == LBRACE && Room(s, 1 + ExprDepth(e))
    requires Reads(ts, s.pos, [Tok(k)] + (ExprText(e) + w))
    ensures At(ts, s) && Cur(ts, s) == k && At(ts, Advance(ts, s))
    ensures var t := Moved(s, 1 + |ExprText(e)|);
            ParseExpr(ts, Advance(ts, s)) == Res(t, ExprTree(e)) && Reads(ts, t.pos, w)
  {
    hide SkipErrors, Steady, Clean, ErrorTokens, Advance, Reads, ParseExpr, ExprText, ExprDepth, ExprTree, GoodExpr;
    hide EndsExpr;
    CloserEnds();
    var c := ExprText(e);
    ReadFirst(ts, s, Tok(k), c + w);
    ReadsSplit(ts, s.pos + 1, c, w);
    FirstKind(ts, s.pos + 1 + |c|, w);
    ExprReads(ts, Moved(s, 1), e);
  }

  lemma {:induction false} WhileReads(ts: Input, s: State, f: StmtForm)
    requires f.WhileF? && GoodStmt(f, true) && Reads(ts, s.pos, StmtText(f)) && Room(s, StmtDepth(f))
    ensures At(ts, s) && Cur(ts, s) == KW_WHILE && ParseWhile(ts, s) == Res(Moved(s, |StmtText(f)|), StmtTree(f))
    decreases f, 1
  {
    hide SkipErrors, Steady, Clean, ErrorTokens, Advance, Reads, ParseExpr, ExprText, ExprDepth, ExprTree, GoodExpr;
    hide ParseBlock, StmtsTree, StmtsDepth, GoodStmts;
    HeadReads(ts, s, KW_WHILE, f.cond, BlockText(f.body));
    BlockReads(ts, Moved(s, 1 + |ExprText(f.cond)|), f.body);
  }

  lemma {:induction false} BlockReads(ts: Input, s: State, fs: seq<StmtForm>)
    requires GoodStmts(fs, true) && Reads(ts, s.pos, BlockText(fs)) && Room(s, StmtsDepth(fs))
    ensures At(ts, s) && Cur(ts, s) == LBRACE && ParseBlock(ts, s) == Res(Moved(s, |BlockText(fs)|), StmtsTree(fs))
    decreases fs, 4
  {
    hide SkipErrors, Steady, Clean, ErrorTokens, Advance, Reads, ParseStmts, StmtsText, StmtsDepth, StmtsTree,
        GoodStmts;
    hide WholeStmts;
    var w := StmtsText(fs);
    ReadFirst(ts, s, Tok(LBRACE), w + [Tok(RBRACE)]);
    StmtsRead(ts, Moved(s, 1), fs);
    ReadOne(ts, Moved(s, 1 + |w|), Tok(RBRACE));
  }

  /** The statements of a block, up to its closing brace. */
  lemma {:induction false} StmtsRead(ts: Input, s: State, fs: seq<StmtForm>)
    requires GoodStmts(fs, true) && Reads(ts, s.pos, StmtsText(fs) + [Tok(RBRACE)]) && Room(s, StmtsDepth(fs))
    ensures At(ts, s) && ParseStmts(ts, s) == Res(Moved(s, |StmtsText(fs)|), StmtsTree(fs))
    ensures Reads(ts, s.pos + |StmtsText(fs)|, [Tok(RBRACE)])
    decreases fs, 3
  {
    hide SkipErrors, Steady, Clean, ErrorTokens, Advance, Reads, ParseStmt, StmtText, StmtDepth, StmtTree, GoodStmt;
    hide WholeStmts, WholeStmt;
    if fs == [] {
      Nothing([Tok(RBRACE)]);
      ReadOne(ts, s, Tok(RBRACE));
    } else {
      var w, rest := StmtText(fs[0]), StmtsText(fs[1..]) + [Tok(RBRACE)];
      assert StmtsText(fs) + [Tok(RBRACE)] == w + rest;
      ReadsSplit(ts, s.pos, w, rest);
      RestBegins(fs[1..]);
      FirstKind(ts, s.pos + |w|, rest);
      StmtBegins(fs[0]);
      FirstKind(ts, s.pos, w);
      StmtReads(ts, s, fs[0]);
      StmtsRead(ts, Moved(s, |w|), fs[1..]);
      IsStmt(fs[0]);
    }
  }

  lemma RestBegins(fs: seq<StmtForm>)
    requires GoodStmts(fs, true)
    ensures (StmtsText(fs) + [Tok(RBRACE)])[0].kind != KW_ELSE
  {
    hide GoodStmt, StmtText;
    if fs != [] {
      StmtBegins(fs[0]);
    }
  }

  lemma IsStmt(f: StmtForm)
    ensures StmtTree(f) != NoStmt
  {
  }

  lemma {:induction false} IfReads(ts: Input, s: State, f: StmtForm)
    requires f.IfF? && GoodStmt(f, true) && Reads(ts, s.pos, StmtText(f)) && Room(s, StmtDepth(f))
    requires ts[s.pos + |StmtText(f)|].kind != KW_ELSE
    ensures At(ts, s) && Cur(ts, s) == KW_IF && ParseIf(ts, s) == Res(Moved(s, |StmtText(f)|), StmtTree(f))
    decreases f, 1
  {
    hide SkipErrors, Steady, Clean, ErrorTokens, Advance, Reads, ParseExpr, ExprText, ExprDepth, ExprTree, GoodExpr;
    hide ParseBlock, ParseElse, StmtsTree, StmtsDepth, GoodStmts, BlockText, WholeStmts;
    var els := if f.els.None? then [] else [Tok(KW_ELSE)] + StmtText(f.els.value);
    var b := BlockText(f.thn);
    BlockBegins(f.thn);
    HeadReads(ts, s, KW_IF, f.cond, b + els);
    var s1 := Moved(s, 1 + |ExprText(f.cond)|);
    if f.els.None? {
      Nothing(b);
      BlockReads(ts, s1, f.thn);
      AfterRead(ts, s1.pos, b);
      NoElse(ts, Moved(s1, |b|));
    } else {
      ReadsSplit(ts, s1.pos, b, els);
      BlockReads(ts, s1, f.thn);
      ElseReads(ts, Moved(s1, |b|), f.els.value);
    }
  }

  lemma BlockBegins(fs: seq<StmtForm>)
    ensures BlockText(fs) != [] && BlockText(fs)[0].kind == LBRACE
  {
  }

  lemma NoElse(ts: Input, s: State)
    requires At(ts, s) && Cur(ts, s) != KW_ELSE
    ensures ParseElse(ts, s) == Res(s, None)
  {
  }

  lemma {:induction false} ElseReads(ts: Input, s: State, f: StmtForm)
    requires GoodElse(f, true) && Reads(ts, s.pos, [Tok(KW_ELSE)] + StmtText(f)) && Room(s, StmtDepth(f))
    requires ts[s.pos + 1 + |StmtText(f)|].kind != KW_ELSE
    ensures At(ts, s) && ParseElse(ts, s) == Res(Moved(s, 1 + |StmtText(f)|), Some(StmtTree(f)))
    decreases f, 2
  {
    hide SkipErrors, Steady, Clean, ErrorTokens, Advance, Reads, ParseBlock, ParseIf, WholeStmts, WholeStmt;
    StmtBegins(f);
    ReadFirst(ts, s, Tok(KW_ELSE), StmtText(f));
    if f.IfF? {
      IfReads(ts, Moved(s, 1), f);
    } else {
      BlockReads(ts, Moved(s, 1), f.stmts);
    }
  }

  lemma {:induction false} MatchReads(ts: Input, s: State, f: StmtForm)
    requires f.MatchF? && GoodStmt(f, true) && Reads(ts, s.pos, StmtText(f)) && Room(s, StmtDepth(f))
    ensures At(ts, s) && Cur(ts, s) == KW_MATCH && ParseMatch(ts, s) == Res(Moved(s, |StmtText(f)|), StmtTree(f))
    decreases f, 1
  {
    hide SkipErrors, Steady, Clean, ErrorTokens, Advance, Reads, ParseExpr, ExprText, ExprDepth, ExprTree, GoodExpr;
    hide ParseArms, ArmsTree, ArmsDepth, GoodArms, ArmsText, WholeArms;
    var w := ArmsText(f.arms);
    HeadReads(ts, s, KW_MATCH, f.scrutinee, [Tok(LBRACE)] + (w + [Tok(RBRACE)]));
    var s1 := Moved(s, 1 + |ExprText(f.scrutinee)|);
    ReadFirst(ts, s1, Tok(LBRACE), w + [Tok(RBRACE)]);
    ArmsRead(ts, Moved(s1, 1), f.arms);
    ReadOne(ts, Moved(s1, 1 + |w|), Tok(RBRACE));
  }

  lemma {:induction false} ArmsRead(ts: Input, s: State, arms: seq<ArmForm>)
    requires GoodArms(arms, true) && Reads(ts, s.pos, ArmsText(arms) + [Tok(RBRACE)]) && Room(s, ArmsDepth(arms))
    ensures At(ts, s) && ParseArms(ts, s) == Res(Moved(s, |ArmsText(arms)|), ArmsTree(arms))
    ensures Reads(ts, s.pos + |ArmsText(arms)|, [Tok(RBRACE)])
    decreases arms, 5
  {
    hide SkipErrors, Steady, Clean, ErrorTokens, Advance, Reads, ParseArm, ArmText, StmtDepth, StmtTree, GoodArm;
    hide WholeArm, WholeArms;
    if arms == [] {
      Nothing([Tok(RBRACE)]);
      ReadOne(ts, s, Tok(RBRACE));
    } else {
      var w, rest := ArmText(arms[0]), ArmsText(arms[1..]) + [Tok(RBRACE)];
      assert ArmsText(arms) + [Tok(RBRACE)] == w + rest;
      ReadsSplit(ts, s.pos, w, rest);
      ArmsBegin(arms[1..]);
      FirstKind(ts, s.pos + |w|, rest);
      ArmBegins(arms[0]);
      FirstKind(ts, s.pos, w);
      ArmReads(ts, s, arms[0]);
      ArmsRead(ts, Moved(s, |w|), arms[1..]);
    }
  }

  lemma ArmsBegin(arms: seq<ArmForm>)
    requires GoodArms(arms, true)
    ensures (ArmsText(arms) + [Tok(RBRACE)])[0].kind != KW_ELSE
  {
    hide GoodArm, ArmText;
    if arms != [] {
      ArmBegins(arms[0]);
    }
  }

  lemma {:induction false} ArmReads(ts: Input, s: State, a: ArmForm)
    requires GoodArm(a, true) && Reads(ts, s.pos, ArmText(a)) && Room(s, 1 + StmtDepth(a.body))
    requires ts[s.pos + |ArmText(a)|].kind != KW_ELSE
    ensures At(ts, s)
    ensures ParseArm(ts, s) == Res(Moved(s, |ArmText(a)|), Some(Arm(LabelsTree(a.labels), StmtTree(a.body))))
    decreases a, 4
  {
    hide SkipErrors, Steady, Clean, ErrorTokens, Advance, Reads, ParseLabels, ParseStmt, StmtText, StmtTree, StmtDepth;
    hide GoodStmt, GoodLabels, LabelsText, LabelsTree, WholeArm, WholeStmt;
    var w, b := LabelsText(a.labels), StmtText(a.body);
    ReadsSplit(ts, s.pos, w, [Tok(FAT_ARROW)] + b);
    StmtBegins(a.body);
    ReadFirst(ts, Moved(s, |w|), Tok(FAT_ARROW), b);
    LabelsRead(ts, s, a.labels);
    StmtReads(ts, Moved(s, |w| + 1), a.body);
    IsStmt(a.body);
  }

  // -------------------------------------------------------------------- items

  lemma {:induction false} ParamsRead(ts: Input, s: State, ps: seq<Param>, variadic: bool, isExtern: bool)
    requires ProperParams(ps) && (variadic ==> isExtern) && (ps != [] || variadic)
    requires Reads(ts, s.pos, ParamsText(ps, variadic)) && ts[s.pos + |ParamsText(ps, variadic)|].kind == RPAREN
    ensures At(ts, s) && Cur(ts, s) != RPAREN
    ensures ParseParams(ts, s, isExtern) == Res(Moved(s, |ParamsText(ps, variadic)|), Some(Params(ps, variadic)))
    decreases ps
  {
    hide SkipErrors, Steady, Clean, ErrorTokens, Advance, Reads, ParseDeclarator, DeclText, ProperType, WholeParams;
    var w := ParamsText(ps, variadic);
    if ps == [] {
      ReadOne(ts, s, Tok(ELLIPSIS));
    } else {
      var d := DeclText(ps[0]);
      DeclBegins(ps[0]);
      if |ps| == 1 && !variadic {
        assert ps == [ps[0]];
        FirstKind(ts, s.pos, d);
        DeclReads(ts, s, ps[0]);
      } else {
        var rest := ParamsText(ps[1..], variadic);
        assert ps == [ps[0]] + ps[1..];
        ReadsSplit(ts, s.pos, d, [Tok(COMMA)] + rest);
        FirstKind(ts, s.pos, d);
        DeclReads(ts, s, ps[0]);
        ParamsNotEmpty(ps[1..], variadic);
        ReadFirst(ts, Moved(s, |d|), Tok(COMMA), rest);
        ParamsRead(ts, Moved(s, |d| + 1), ps[1..], variadic, isExtern);
      }
    }
  }

  lemma ParamsNotEmpty(ps: seq<Param>, variadic: bool)
    requires ProperParams(ps) && (ps != [] || variadic)
    ensures ParamsText(ps, variadic) != []
  {
    if ps != [] {
      DeclBegins(ps[0]);
    }
  }

  lemma ParamListReads(ts: Input, s: State, f: FnForm, isExtern: bool)
    requires GoodFn(f, isExtern, true) && Reads(ts, s.pos, ParamListText(f))
    ensures At(ts, s)
    ensures ParseParamList(ts, s, isExtern) == Res(Moved(s, |ParamListText(f)|), Some(Params(f.params, f.variadic)))
  {
    hide SkipErrors, Steady, Clean, ErrorTokens, Advance, Reads, ParseParams, ParamsText, ProperParams, WholeParams;
    hide GoodStmts, ProperType;
    var w := ParamsText(f.params, f.variadic);
    ReadFirst(ts, s, Tok(LPAREN), w + [Tok(RPAREN)]);
    if f.params == [] && !f.variadic {
      NoParams();
      Nothing([Tok(RPAREN)]);
      ReadOne(ts, Moved(s, 1), Tok(RPAREN));
    } else {
      ReadsSplit(ts, s.pos + 1, w, [Tok(RPAREN)]);
      ReadOne(ts, Moved(s, 1 + |w|), Tok(RPAREN));
      ParamsRead(ts, Moved(s, 1), f.params, f.variadic, isExtern);
    }
  }

  lemma NoParams()
    ensures ParamsText([], false) == []
  {
  }

  /** The return type, before something that is no arrow and no type suffix. */
  lemma RetReads(ts: Input, s: State, ret: Option<Type>, next: seq<Token>)
    requires ret.Some? ==> ProperType(ret.value)
    requires next != [] && next[0].kind in {SEMI, LBRACE} && Reads(ts, s.pos, RetText(ret) + next)
    ensures At(ts, s) && Reads(ts, s.pos + |RetText(ret)|, next)
    ensures ParseRet(ts, s) == Res(Moved(s, |RetText(ret)|), if ret.None? then CoreType(KW_VOID) else ret.value)
  {
    hide SkipErrors, Steady, Clean, ErrorTokens, Advance, Reads, ParseType, TypeText, ProperType, WholeType;
    if ret.None? {
      Nothing(next);
      FirstKind(ts, s.pos, next);
      AfterRead(ts, s.pos, []) by {
        NothingRead(ts, s.pos, next);
      }
    } else {
      var w := TypeText(ret.value);
      assert RetText(ret) + next == [Tok(ARROW)] + (w + next);
      ReadFirst(ts, s, Tok(ARROW), w + next);
      ReadsSplit(ts, s.pos + 1, w, next);
      FirstKind(ts, s.pos + 1 + |w|, next);
      TypeReads(ts, Moved(s, 1), ret.value);
    }
  }

  lemma NothingRead(ts: Input, p: nat, w: seq<Token>)
    requires w != [] && Reads(ts, p, w)
    ensures Reads(ts, p, [])
  {
    FirstKind(ts, p, w);
  }

  lemma FnReads(ts: Input, s: State, f: FnForm, isExtern: bool)
    requires GoodFn(f, isExtern, true) && Reads(ts, s.pos, FnText(f))
    requires f.body.Some? ==> Room(s, StmtsDepth(f.body.value))
    ensures At(ts, s) && Cur(ts, s) == KW_FN
    ensures ParseFnDecl(ts, s, isExtern) == Res(Moved(s, |FnText(f)|), Some(FnTree(f)))
  {
    hide SkipErrors, Steady, Clean, ErrorTokens, Advance, Reads, ParseParamList, ParamListText, RetText, FnEndText;
    hide ParseFnRest, WholeFn, WholeParams, GoodStmts, ProperParams, ProperType, StmtsTree, StmtsDepth;
    var p, r, end := ParamListText(f), RetText(f.ret), FnEndText(f);
    FnEndBegins(f);
    ReadFirst(ts, s, Tok(KW_FN), [Ident(f.name)] + (p + (r + end)));
    ReadFirst(ts, Moved(s, 1), Ident(f.name), p + (r + end));
    ReadsSplit(ts, s.pos + 2, p, r + end);
    ParamListReads(ts, Moved(s, 2), f, isExtern);
    FnRestReads(ts, Moved(s, 2 + |p|), f, isExtern);
  }

  lemma FnEndBegins(f: FnForm)
    ensures FnEndText(f) != [] && FnEndText(f)[0].kind == (if f.body.None? then SEMI else LBRACE)
    ensures ParamListText(f) != []
  {
  }

  lemma FnRestReads(ts: Input, s: State, f: FnForm, isExtern: bool)
    requires GoodFn(f, isExtern, true) && Reads(ts, s.pos, RetText(f.ret) + FnEndText(f))
    requires f.body.Some? ==> Room(s, StmtsDepth(f.body.value))
    ensures At(ts, s)
    ensures ParseFnRest(ts, s, f.name, Params(f.params, f.variadic), isExtern)
            == Res(Moved(s, |RetText(f.ret)| + |FnEndText(f)|), Some(FnTree(f)))
  {
    hide SkipErrors, Steady, Clean, ErrorTokens, Advance, Reads, ParseRet, RetText, ParseBlock, BlockText;
    hide WholeFn, WholeParams, GoodStmts, ProperParams, WholeStmts, StmtsTree, StmtsDepth;
    FnEndBegins(f);
    RetReads(ts, s, f.ret, FnEndText(f));
    var s1 := Moved(s, |RetText(f.ret)|);
    ProperIsType();
    if f.body.None? {
      ReadOne(ts, s1, Tok(SEMI));
    } else {
      BlockReads(ts, s1, f.body.value);
    }
  }

  lemma ProperIsType()
    ensures forall t: Type :: ProperType(t) ==> t != NoType
  {
  }

  lemma FieldReads(ts: Input, s: State, d: Param)
    requires ProperType(d.ty) && !d.isMut && Reads(ts, s.pos, FieldText(d))
    ensures At(ts, s) && Cur(ts, s) !in {RBRACE, EOF}
    ensures ParseField(ts, s) == Res(Moved(s, |FieldText(d)|), Some(d))
  {
    hide SkipErrors, Steady, Clean, ErrorTokens, Advance, Reads, ParseType, TypeText, ProperType, WholeType, IsCoreType;
    var w := TypeText(d.ty);
    TypeBegins(d.ty);
    ProperIsType();
    CoreIsNoBrace();
    ReadsSplit(ts, s.pos, w, [Ident(d.name)] + [Tok(SEMI)]);
    FirstKind(ts, s.pos, w);
    ReadFirst(ts, Moved(s, |w|), Ident(d.name), [Tok(SEMI)]);
    ReadOne(ts, Moved(s, |w| + 1), Tok(SEMI));
    TypeReads(ts, s, d.ty);
  }

  lemma CoreIsNoBrace()
    ensures !IsCoreType(RBRACE) && !IsCoreType(EOF)
  {
  }

  lemma {:induction false} FieldsRead(ts: Input, s: State, ps: seq<Param>)
    requires GoodFields(ps) && Reads(ts, s.pos, FieldsText(ps) + [Tok(RBRACE)])
    ensures At(ts, s) && ParseFields(ts, s) == Res(Moved(s, |FieldsText(ps)|), ps)
    ensures Reads(ts, s.pos + |FieldsText(ps)|, [Tok(RBRACE)])
    decreases ps
  {
    hide SkipErrors, Steady, Clean, ErrorTokens, Advance, Reads, ParseField, FieldText, ProperType, WholeParams;
    if ps == [] {
      Nothing([Tok(RBRACE)]);
      ReadOne(ts, s, Tok(RBRACE));
    } else {
      var w, rest := FieldText(ps[0]), FieldsText(ps[1..]) + [Tok(RBRACE)];
      assert FieldsText(ps) + [Tok(RBRACE)] == w + rest;
      assert ps == [ps[0]] + ps[1..];
      ReadsSplit(ts, s.pos, w, rest);
      FieldReads(ts, s, ps[0]);
      FieldNotEmpty(ps[0]);
      FieldsRead(ts, Moved(s, |w|), ps[1..]);
    }
  }

  lemma FieldNotEmpty(d: Param)
    ensures FieldText(d) != []
  {
  }

  lemma StructReads(ts: Input, s: State, f: ItemForm)
    requires f.StructF? && GoodItem(f, true) && Reads(ts, s.pos, ItemText(f))
    ensures At(ts, s) && Cur(ts, s) == KW_STRUCT
            && ParseStruct(ts, s) == Res(Moved(s, |ItemText(f)|), Some(ItemTree(f)))
  {
    hide SkipErrors, Steady, Clean, ErrorTokens, Advance, Reads, ParseFields, FieldsText, GoodFields, WholeParams;
    var w := FieldsText(f.fields);
    ReadFirst(ts, s, Tok(KW_STRUCT), [Ident(f.name)] + ([Tok(LBRACE)] + (w + [Tok(RBRACE)])));
    ReadFirst(ts, Moved(s, 1), Ident(f.name), [Tok(LBRACE)] + (w + [Tok(RBRACE)]));
    ReadFirst(ts, Moved(s, 2), Tok(LBRACE), w + [Tok(RBRACE)]);
    FieldsRead(ts, Moved(s, 3), f.fields);
    ReadOne(ts, Moved(s, 3 + |w|), Tok(RBRACE));
  }

  lemma MemberReads(ts: Input, s: State, m: EnumMember)
    requires Reads(ts, s.pos, MemberText(m)) && ts[s.pos + |MemberText(m)|].kind != EQ
    ensures At(ts, s) && Cur(ts, s) == IDENT && Advance(ts, s) == Moved(s, 1) && ts[s.pos].text == m.name
    ensures At(ts, Moved(s, 1)) && At(ts, Moved(s, |MemberText(m)|))
    ensures ParseMemberValue(ts, Moved(s, 1)) == Res(Moved(s, |MemberText(m)|), m.value)
  {
    hide SkipErrors, Steady, Clean, ErrorTokens, Advance, Reads;
    AfterRead(ts, s.pos, MemberText(m));
    if m.value.None? {
      Nothing([Ident(m.name)]);
      ReadOne(ts, s, Ident(m.name));
    } else {
      var v := Token(INT, "", m.value.value, "", 0);
      assert [Tok(EQ), v] == [Tok(EQ)] + [v];
      ReadFirst(ts, s, Ident(m.name), [Tok(EQ)] + [v]);
      ReadFirst(ts, Moved(s, 1), Tok(EQ), [v]);
      ReadOne(ts, Moved(s, 2), v);
    }
  }

  lemma {:induction false} MembersRead(ts: Input, s: State, ms: seq<EnumMember>, comma: bool)
    requires (comma ==> ms != []) && Reads(ts, s.pos, MembersText(ms, comma) + [Tok(RBRACE)])
    ensures At(ts, s) && ParseMembers(ts, s) == Res(Moved(s, |MembersText(ms, comma)|), ms)
    ensures Reads(ts, s.pos + |MembersText(ms, comma)|, [Tok(RBRACE)])
    decreases ms
  {
    hide SkipErrors, Steady, Clean, ErrorTokens, Advance, Reads, ParseMemberValue, MemberText;
    if ms == [] {
      Nothing([Tok(RBRACE)]);
      ReadOne(ts, s, Tok(RBRACE));
    } else if |ms| == 1 && !comma {
      var w := MemberText(ms[0]);
      assert ms == [ms[0]];
      ReadsSplit(ts, s.pos, w, [Tok(RBRACE)]);
      FirstKind(ts, s.pos + |w|, [Tok(RBRACE)]);
      MemberReads(ts, s, ms[0]);
    } else {
      var w := MemberText(ms[0]);
      var more := |ms| > 1;
      var rest := MembersText(ms[1..], comma && more) + [Tok(RBRACE)];
      LastComma(ms, comma);
      assert ms == [ms[0]] + ms[1..];
      assert MembersText(ms, comma) + [Tok(RBRACE)] == w + ([Tok(COMMA)] + rest);
      ReadsSplit(ts, s.pos, w, [Tok(COMMA)] + rest);
      ReadFirst(ts, Moved(s, |w|), Tok(COMMA), rest);
      FirstKind(ts, s.pos + |w|, [Tok(COMMA)] + rest);
      MemberReads(ts, s, ms[0]);
      MembersRead(ts, Moved(s, |w| + 1), ms[1..], comma && more);
    }
  }

  lemma LastComma(ms: seq<EnumMember>, comma: bool)
    requires ms != [] && (|ms| > 1 || comma)
    ensures MembersText(ms, comma) == MemberText(ms[0]) + ([Tok(COMMA)] + MembersText(ms[1..], comma && |ms| > 1))
  {
  }

  lemma BaseReads(ts: Input, s: State, base: Option<Token>, next: seq<Token>)
    requires GoodBase(base, true)
    requires next != [] && next[0].kind == LBRACE && Reads(ts, s.pos, BaseText(base) + next)
    ensures At(ts, s) && Reads(ts, s.pos + |BaseText(base)|, next)
    ensures ParseBase(ts, s) == Res(Moved(s, |BaseText(base)|), if base.None? then KW_I32 else base.value.kind)
  {
    hide SkipErrors, Steady, Clean, ErrorTokens, Advance, Reads, IsCoreType;
    if base.None? {
      Nothing(next);
      FirstKind(ts, s.pos, next);
      AfterRead(ts, s.pos, []) by {
        NothingRead(ts, s.pos, next);
      }
    } else {
      assert BaseText(base) + next == [Tok(COLON)] + ([base.value] + next);
      ReadFirst(ts, s, Tok(COLON), [base.value] + next);
      ReadFirst(ts, Moved(s, 1), base.value, next);
    }
  }

  lemma EnumOpens(ts: Input, s: State, f: ItemForm, body: seq<Token>)
    requires f.EnumF? && GoodBase(f.base, true) && body != []
    requires Reads(ts, s.pos, [Tok(KW_ENUM)] + ([Ident(f.name)] + (BaseText(f.base) + ([Tok(LBRACE)] + body))))
    ensures At(ts, s) && Cur(ts, s) == KW_ENUM && Reads(ts, s.pos + 3 + |BaseText(f.base)|, body)
    ensures Steady(ts, s, Moved(s, 3 + |BaseText(f.base)|))
    ensures ParseEnum(ts, s)
         == FinishEnum(ts, s, Moved(s, 3 + |BaseText(f.base)|), f.name,
                       if f.base.None? then KW_I32 else f.base.value.kind)
  {
    hide SkipErrors, Clean, ErrorTokens, Advance, Reads, ParseBase, FinishEnum, BaseText, IsCoreType;
    var b, next := BaseText(f.base), [Tok(LBRACE)] + body;
    ReadFirst(ts, s, Tok(KW_ENUM), [Ident(f.name)] + (b + next));
    ReadFirst(ts, Moved(s, 1), Ident(f.name), b + next);
    BaseReads(ts, Moved(s, 2), f.base, next);
    ReadFirst(ts, Moved(s, 2 + |b|), Tok(LBRACE), body);
  }

  lemma EnumReads(ts: Input, s: State, f: ItemForm)
    requires f.EnumF? && GoodItem(f, true) && Reads(ts, s.pos, ItemText(f))
    ensures At(ts, s) && Cur(ts, s) == KW_ENUM && ParseEnum(ts, s) == Res(Moved(s, |ItemText(f)|), Some(ItemTree(f)))
  {
    hide SkipErrors, Steady, Clean, ErrorTokens, Advance, Reads, ParseEnum, ParseMembers, BaseText, MembersText;
    hide IsCoreType;
    var b, w := BaseText(f.base), MembersText(f.members, f.comma);
    EnumOpens(ts, s, f, w + [Tok(RBRACE)]);
    var s1 := Moved(s, 3 + |b|);
    MembersRead(ts, s1, f.members, f.comma);
    ReadOne(ts, Moved(s1, |w|), Tok(RBRACE));
  }

  lemma LiteralReads(ts: Input, s: State, e: Expr)
    requires IsLiteral(e) && Reads(ts, s.pos, [AtomToken(e)])
    ensures At(ts, s) && ParseLiteral(ts, s) == Res(Moved(s, 1), e)
  {
    hide SkipErrors, Steady, Clean, ErrorTokens, Advance, Reads;
    ReadOne(ts, s, AtomToken(e));
  }

  lemma GlobalReads(ts: Input, s: State, f: ItemForm)
    requires f.GlobalF? && GoodItem(f, true) && Reads(ts, s.pos, ItemText(f))
    ensures At(ts, s) && Cur(ts, s) == KW_LET && ParseGlobal(ts, s) == Res(Moved(s, |ItemText(f)|), Some(ItemTree(f)))
  {
    hide SkipErrors, Steady, Clean, ErrorTokens, Advance, Reads, ParseDeclarator, DeclText, ProperType, ParseLiteral;
    var d, i := DeclText(f.decl), InitText(f.init);
    ReadFirst(ts, s, Tok(KW_LET), d + (i + [Tok(SEMI)]));
    ReadsSplit(ts, s.pos + 1, d, i + [Tok(SEMI)]);
    DeclReads(ts, Moved(s, 1), f.decl);
    var s1 := Moved(s, 1 + |d|);
    if f.init.None? {
      Nothing([Tok(SEMI)]);
      ReadOne(ts, s1, Tok(SEMI));
    } else {
      var v := AtomToken(f.init.value.atom);
      assert i + [Tok(SEMI)] == [Tok(EQ)] + ([v] + [Tok(SEMI)]);
      ReadFirst(ts, s1, Tok(EQ), [v] + [Tok(SEMI)]);
      ReadsSplit(ts, s1.pos + 1, [v], [Tok(SEMI)]);
      LiteralReads(ts, Moved(s1, 1), f.init.value.atom);
      ReadOne(ts, Moved(s1, 2), Tok(SEMI));
    }
  }

  lemma {:induction false} ExternsRead(ts: Input, s: State, fs: seq<FnForm>)
    requires GoodExterns(fs, true) && Reads(ts, s.pos, ExternsText(fs) + [Tok(RBRACE)])
    ensures At(ts, s) && ParseExternFns(ts, s) == Res(Moved(s, |ExternsText(fs)|), ExternsTree(fs))
    ensures Reads(ts, s.pos + |ExternsText(fs)|, [Tok(RBRACE)])
    decreases fs
  {
    hide SkipErrors, Steady, Clean, ErrorTokens, Advance, Reads, ParseFnDecl, FnText, FnTree, WholeFn, WholeExterns;
    if fs == [] {
      Nothing([Tok(RBRACE)]);
      ReadOne(ts, s, Tok(RBRACE));
    } else {
      var w, rest := FnText(fs[0]), ExternsText(fs[1..]) + [Tok(RBRACE)];
      assert ExternsText(fs) + [Tok(RBRACE)] == w + rest;
      ReadsSplit(ts, s.pos, w, rest);
      FnReads(ts, s, fs[0], true);
      FnNotEmpty(fs[0]);
      ExternsRead(ts, Moved(s, |w|), fs[1..]);
    }
  }

  lemma FnNotEmpty(f: FnForm)
    ensures FnText(f) != []
  {
  }

  lemma ExternReads(ts: Input, s: State, f: ItemForm)
    requires f.ExternF? && GoodItem(f, true) && Reads(ts, s.pos, ItemText(f))
    ensures At(ts, s) && Cur(ts, s) == KW_EXTERN
            && ParseExtern(ts, s) == Res(Moved(s, |ItemText(f)|), Some(ItemTree(f)))
  {
    hide SkipErrors, Steady, Clean, ErrorTokens, Advance, Reads, ParseExternFns, ExternsText, ExternsTree, GoodExterns;
    hide WholeExterns;
    var w := ExternsText(f.fns);
    var abi := Token(STRING, "", 0, f.abi, 0);
    ReadFirst(ts, s, Tok(KW_EXTERN), [abi] + ([Tok(LBRACE)] + (w + [Tok(RBRACE)])));
    ReadFirst(ts, Moved(s, 1), abi, [Tok(LBRACE)] + (w + [Tok(RBRACE)]));
    ReadFirst(ts, Moved(s, 2), Tok(LBRACE), w + [Tok(RBRACE)]);
    ExternsRead(ts, Moved(s, 3), f.fns);
    ReadOne(ts, Moved(s, 3 + |w|), Tok(RBRACE));
  }

  lemma ItemReads(ts: Input, s: State, f: ItemForm)
    requires GoodItem(f, true) && Reads(ts, s.pos, ItemText(f)) && Room(s, ItemDepth(f))
    ensures At(ts, s) && Cur(ts, s) != EOF && ItemText(f) != []
    ensures ParseItem(ts, s) == Res(Moved(s, |ItemText(f)|), Some(ItemTree(f)))
  {
    hide SkipErrors, Steady, Clean, ErrorTokens, Advance, Reads, ParseFnDecl, ParseStruct, ParseEnum, ParseGlobal;
    hide ParseExtern, WholeItem, WholeFn;
    match f
    case FnF(fn) => FnReads(ts, s, fn, false);
    case StructF(_, _) => StructReads(ts, s, f);
    case EnumF(_, _, _, _) => EnumReads(ts, s, f);
    case GlobalF(_, _) => GlobalReads(ts, s, f);
    case ExternF(_, _) => ExternReads(ts, s, f);
  }

  lemma {:induction false} ItemsRead(ts: Input, s: State, fs: seq<ItemForm>)
    requires GoodItems(fs, true) && Room(s, ItemsDepth(fs)) && s.pos + |ItemsText(fs)| < |ts|
    requires Reads(ts, s.pos, ItemsText(fs)) && ts[s.pos + |ItemsText(fs)|].kind == EOF
    ensures At(ts, s) && ParseItems(ts, s) == Res(Moved(s, |ItemsText(fs)|), ItemsTree(fs))
    decreases fs
  {
    hide SkipErrors, Steady, Clean, ErrorTokens, Advance, Reads, ParseItem, ItemText, ItemTree, ItemDepth, GoodItem;
    hide WholeItems, WholeItem;
    if fs != [] {
      var w, rest := ItemText(fs[0]), ItemsText(fs[1..]);
      if rest == [] {
        Nothing(w);
        AfterRead(ts, s.pos, w);
        ReadsNothing(ts, s.pos + |w|);
      } else {
        ReadsSplit(ts, s.pos, w, rest);
      }
      ItemReads(ts, s, fs[0]);
      ItemsRead(ts, Moved(s, |w|), fs[1..]);
    } else {
      AfterRead(ts, s.pos, []);
    }
  }

  lemma ReadsNothing(ts: Input, p: nat)
    requires p < |ts| && ts[p].kind != ERROR
    ensures Reads(ts, p, [])
  {
  }

  /** A token stream that reads what a derivation of a program spells, up to an end of
      file, is parsed to the program's tree without a report. */
  lemma ProgramReads(ts: Input, fs: seq<ItemForm>)
    requires GoodItems(fs, true) && ItemsDepth(fs) <= MAX_NESTING
    requires Reads(ts, 0, ItemsText(fs)) && ts[|ItemsText(fs)|].kind == EOF
    ensures ParseProgram(ts) == Res(State(|ItemsText(fs)|, 0, 0, 0), ItemsTree(fs))
  {
    hide GoodItems, ItemsText, ItemsTree, ItemsDepth, ParseItems, Reads, ErrorTokens, WholeItems;
    var s := State(0, 0, 0, 0);
    AfterRead(ts, 0, ItemsText(fs));
    ItemsRead(ts, s, fs);
  }
}
