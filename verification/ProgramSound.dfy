/** The parser accepts nothing but the grammar: a token stream it reports nothing
    of is what some derivation spells, and the tree it returns is that
    derivation's. With ProgramRoundTrip, it accepts exactly the grammar within
    the nesting limit. */
module ProgramSound {
  import opened Words
  import opened Tokens
  import opened Syntax
  import opened Grammar
  import opened Parsing
  import opened ParserRoundTrip
  import opened ProgramRoundTrip
  import opened ParserSound

  // ------------------------------------------------------------- declarations

  lemma PassIdent(ts: Input, s: State)
    requires At(ts, s) && Clean(s, ExpectIdent(ts, s).s)
    ensures var r := ExpectIdent(ts, s); r.v.Some? && Passed(ts, s, r.s, [Ident(r.v.value)])
  {
    hide ErrorTokens, SkipErrors, Advance;
    PassOne(ts, s, Ident(ts[s.pos].text));
  }

  lemma DeclSound(ts: Input, s: State)
    requires At(ts, s) && Clean(s, ParseDeclarator(ts, s).s)
    ensures var r := ParseDeclarator(ts, s);
            r.v.Some? && ProperType(r.v.value.ty) && Passed(ts, s, r.s, DeclText(r.v.value))
  {
    hide ErrorTokens, SkipErrors, Advance, Passed, Reads, ParseType, ProperType, TypeText, ExpectIdent, WholeType;
    var isMut := Cur(ts, s) == KW_MUT;
    var s1 := if isMut then Advance(ts, s) else s;
    var t := ParseType(ts, s1);
    var name := ExpectIdent(ts, t.s);
    TypeSound(ts, s1);
    ProperIsType();
    PassIdent(ts, t.s);
    PassBoth(ts, s1, t.s, name.s, TypeText(t.v), [Ident(name.v.value)]);
    if isMut {
      PassOne(ts, s, Tok(KW_MUT));
      PassBoth(ts, s, s1, name.s, [Tok(KW_MUT)], TypeText(t.v) + [Ident(name.v.value)]);
    } else {
      Nothing(TypeText(t.v) + [Ident(name.v.value)]);
    }
  }

  lemma InitSound(ts: Input, s: State) returns (e: Option<ExprForm>)
    requires At(ts, s) && Clean(s, ParseInit(ts, s).s) && Room(s, 0)
    ensures var r := ParseInit(ts, s);
            GoodInit(e) && InitTree(e) == r.v && Passed(ts, s, r.s, InitText(e)) && Room(s, InitDepth(e))
  {
    hide ErrorTokens, SkipErrors, Advance, Passed, Reads, ParseExpr, WholeExpr, GoodExpr, ExprText, ExprTree, ExprDepth;
    if Cur(ts, s) == EQ {
      var s1 := Advance(ts, s);
      var f := ExprSound(ts, s1);
      PassOne(ts, s, Tok(EQ));
      PassBoth(ts, s, s1, ParseExpr(ts, s1).s, [Tok(EQ)], ExprText(f));
      e := Some(f);
    } else {
      PassNothing(ts, s);
      e := None;
    }
  }

  // --------------------------------------------------------------- statements

  /** What `r` read from `s` on is the statement `f`. */
  predicate DerivesStmt(ts: Input, s: State, r: Res<Stmt>, f: StmtForm) {
    GoodStmt(f, true) && StmtTree(f) == r.v && Passed(ts, s, r.s, StmtText(f)) && Room(s, StmtDepth(f))
  }

  lemma VarSound(ts: Input, s: State) returns (f: StmtForm)
    requires At(ts, s) && Cur(ts, s) == KW_LET && Room(s, 0)
    requires Clean(s, ParseVar(ts, s).s)
    ensures DerivesStmt(ts, s, ParseVar(ts, s), f)
  {
    hide ErrorTokens, SkipErrors, Advance, Passed, Reads, ParseDeclarator, ParseInit, Expect, WholeExpr, WholeType;
    hide GoodInit, InitText, InitTree, InitDepth, DeclText, ProperType;
    var s1 := Advance(ts, s);
    var d := ParseDeclarator(ts, s1);
    DeclSound(ts, s1);
    var i := ParseInit(ts, d.s);
    var s2 := Expect(ts, i.s, SEMI).s;
    var e := InitSound(ts, d.s);
    f := VarF(d.v.value, e);
    PassOne(ts, s, Tok(KW_LET));
    PassExpected(ts, i.s, SEMI);
    PassBoth(ts, d.s, i.s, s2, InitText(e), [Tok(SEMI)]);
    PassBoth(ts, s1, d.s, s2, DeclText(f.decl), InitText(e) + [Tok(SEMI)]);
    PassBoth(ts, s, s1, s2, [Tok(KW_LET)], DeclText(f.decl) + (InitText(e) + [Tok(SEMI)]));
  }

  lemma ReturnSound(ts: Input, s: State) returns (f: StmtForm)
    requires At(ts, s) && Cur(ts, s) == KW_RETURN && Room(s, 0)
    requires Clean(s, ParseReturn(ts, s).s)
    ensures DerivesStmt(ts, s, ParseReturn(ts, s), f)
  {
    hide ErrorTokens, SkipErrors, Advance, Passed, Reads, ParseExpr, Expect, WholeExpr;
    hide GoodExpr, ExprText, ExprTree, ExprDepth;
    var s1 := Advance(ts, s);
    PassOne(ts, s, Tok(KW_RETURN));
    if Cur(ts, s1) == SEMI {
      var s2 := Expect(ts, s1, SEMI).s;
      PassExpected(ts, s1, SEMI);
      PassBoth(ts, s, s1, s2, [Tok(KW_RETURN)], [Tok(SEMI)]);
      Nothing([Tok(SEMI)]);
      f := ReturnF(None);
    } else {
      var e := ParseExpr(ts, s1);
      var s2 := Expect(ts, e.s, SEMI).s;
      var g := ExprSound(ts, s1);
      PassExpected(ts, e.s, SEMI);
      PassBoth(ts, s1, e.s, s2, ExprText(g), [Tok(SEMI)]);
      PassBoth(ts, s, s1, s2, [Tok(KW_RETURN)], ExprText(g) + [Tok(SEMI)]);
      f := ReturnF(Some(g));
    }
  }

  lemma AssignIsPlain(op: Kind)
    requires IsAssignOp(op)
    ensures op > IDENT && op !in {INT, FLOAT, CHAR, STRING} && AssignOp(op)
  {
  }

  lemma ExprStmtSound(ts: Input, s: State) returns (f: StmtForm)
    requires At(ts, s) && Room(s, 0) && Clean(s, ParseExprStmt(ts, s).s)
    ensures DerivesStmt(ts, s, ParseExprStmt(ts, s), f)
  {
    hide ErrorTokens, SkipErrors, Advance, Passed, Reads, ParseExpr, Expect, WholeExpr, IsAssignOp, AssignOp;
    hide GoodExpr, ExprText, ExprTree, ExprDepth;
    var e := ParseExpr(ts, s);
    assert Clean(s, e.s);
    var g := ExprSound(ts, s);
    IsTree(g);
    var op := Cur(ts, e.s);
    if IsAssignOp(op) {
      AssignIsPlain(op);
      var s1 := Advance(ts, e.s);
      var r := ParseExpr(ts, s1);
      var s2 := Expect(ts, r.s, SEMI).s;
      var h := ExprSound(ts, s1);
      PassOne(ts, e.s, Tok(op));
      PassExpected(ts, r.s, SEMI);
      PassBoth(ts, s1, r.s, s2, ExprText(h), [Tok(SEMI)]);
      PassBoth(ts, e.s, s1, s2, [Tok(op)], ExprText(h) + [Tok(SEMI)]);
      PassBoth(ts, s, e.s, s2, ExprText(g), [Tok(op)] + (ExprText(h) + [Tok(SEMI)]));
      f := AssignF(g, op, h);
    } else {
      var s2 := Expect(ts, e.s, SEMI).s;
      PassExpected(ts, e.s, SEMI);
      PassBoth(ts, s, e.s, s2, ExprText(g), [Tok(SEMI)]);
      f := ExprF(g);
    }
  }

  lemma KeywordSound(ts: Input, s: State, k: Kind)
    requires At(ts, s) && Cur(ts, s) == k && k in {KW_BREAK, KW_CONTINUE}
    requires Clean(s, Expect(ts, Advance(ts, s), SEMI).s)
    ensures Passed(ts, s, Expect(ts, Advance(ts, s), SEMI).s, [Tok(k), Tok(SEMI)])
  {
    hide ErrorTokens, SkipErrors, Advance, Passed, Reads, Expect;
    var s1 := Advance(ts, s);
    var s2 := Expect(ts, s1, SEMI).s;
    PassOne(ts, s, Tok(k));
    PassExpected(ts, s1, SEMI);
    PassBoth(ts, s, s1, s2, [Tok(k)], [Tok(SEMI)]);
    assert [Tok(k)] + [Tok(SEMI)] == [Tok(k), Tok(SEMI)];
  }

  lemma {:induction false} StmtSound(ts: Input, s: State) returns (f: StmtForm)
    requires At(ts, s) && Clean(s, ParseStmt(ts, s).s)
    ensures DerivesStmt(ts, s, ParseStmt(ts, s), f) && Room(s, 1 + StmtDepth(f))
    decreases |ts| - s.pos, 20
  {
    hide ErrorTokens, Reads, GoodStmt, StmtText, StmtTree, StmtDepth, ParseStmtInner, WholeStmt;
    f := InnerSound(ts, s.(depth := s.depth + 1));
  }

  lemma {:induction false} InnerSound(ts: Input, s: State) returns (f: StmtForm)
    requires At(ts, s) && Clean(s, ParseStmtInner(ts, s).s) && Room(s, 0)
    ensures DerivesStmt(ts, s, ParseStmtInner(ts, s), f)
    decreases |ts| - s.pos, 19
  {
    hide ErrorTokens, SkipErrors, Advance, Expect, Passed, Reads, ParseBlock, ParseVar, ParseIf, ParseWhile, ParseMatch;
    hide ParseReturn, ParseExprStmt, WholeStmt, WholeStmts, GoodStmts, StmtsTree, StmtsDepth, BlockText;
    var k := Cur(ts, s);
    if k == LBRACE {
      var fs := BlockSound(ts, s);
      f := BlockF(fs);
    } else if k == KW_LET {
      f := VarSound(ts, s);
    } else if k == KW_IF {
      f := IfSound(ts, s);
    } else if k == KW_WHILE {
      f := WhileSound(ts, s);
    } else if k == KW_MATCH {
      f := MatchSound(ts, s);
    } else if k == KW_RETURN {
      f := ReturnSound(ts, s);
    } else if k == KW_BREAK {
      KeywordSound(ts, s, k);
      f := BreakF;
    } else if k == KW_CONTINUE {
      KeywordSound(ts, s, k);
      f := ContinueF;
    } else if k == SEMI {
      PassOne(ts, s, Tok(SEMI));
      f := EmptyF;
    } else {
      f := ExprStmtSound(ts, s);
    }
  }

  predicate DerivesStmts(ts: Input, s: State, r: Res<seq<Stmt>>, fs: seq<StmtForm>, w: seq<Token>) {
    GoodStmts(fs, true) && StmtsTree(fs) == r.v && Passed(ts, s, r.s, w) && Room(s, StmtsDepth(fs))
  }

  lemma {:induction false} BlockSound(ts: Input, s: State) returns (fs: seq<StmtForm>)
    requires At(ts, s) && Clean(s, ParseBlock(ts, s).s) && Room(s, 0)
    ensures DerivesStmts(ts, s, ParseBlock(ts, s), fs, BlockText(fs))
    decreases |ts| - s.pos, 18
  {
    hide ErrorTokens, SkipErrors, Advance, Expect, Passed, Reads, ParseStmts, WholeStmts;
    hide GoodStmts, StmtsTree, StmtsDepth, StmtsText;
    var s1 := Expect(ts, s, LBRACE).s;
    PassExpected(ts, s, LBRACE);
    var r := ParseStmts(ts, s1);
    var s2 := Expect(ts, r.s, RBRACE).s;
    fs := StmtsSound(ts, s1);
    PassExpected(ts, r.s, RBRACE);
    PassBoth(ts, s1, r.s, s2, StmtsText(fs), [Tok(RBRACE)]);
    PassBoth(ts, s, s1, s2, [Tok(LBRACE)], StmtsText(fs) + [Tok(RBRACE)]);
  }

  lemma {:induction false} StmtsSound(ts: Input, s: State) returns (fs: seq<StmtForm>)
    requires At(ts, s) && Clean(s, ParseStmts(ts, s).s) && Room(s, 0)
    ensures DerivesStmts(ts, s, ParseStmts(ts, s), fs, StmtsText(fs))
    decreases |ts| - s.pos, 21
  {
    hide ErrorTokens, SkipErrors, Advance, Passed, Reads, ParseStmt, WholeStmt, WholeStmts, NextStmt;
    hide GoodStmt, StmtTree, StmtDepth, StmtText;
    if Cur(ts, s) == RBRACE || Cur(ts, s) == EOF {
      PassNothing(ts, s);
      fs := [];
    } else {
      var r := ParseStmt(ts, s);
      var rest := ParseStmts(ts, NextStmt(ts, s, r));
      assert Clean(s, NextStmt(ts, s, r)) && Clean(r.s, rest.s);
      var f := StmtSound(ts, s);
      var more := StmtsSound(ts, r.s);
      IsStmt(f);
      PassBoth(ts, s, r.s, rest.s, StmtText(f), StmtsText(more));
      fs := [f] + more;
      assert fs[1..] == more;
    }
  }

  lemma {:induction false} WhileSound(ts: Input, s: State) returns (f: StmtForm)
    requires At(ts, s) && Cur(ts, s) == KW_WHILE && Clean(s, ParseWhile(ts, s).s) && Room(s, 0)
    ensures DerivesStmt(ts, s, ParseWhile(ts, s), f)
    decreases |ts| - s.pos, 17
  {
    hide ErrorTokens, SkipErrors, Advance, Passed, Reads, ParseExpr, ParseBlock, WholeExpr, WholeStmts;
    hide GoodExpr, ExprText, ExprTree, ExprDepth, GoodStmts, StmtsTree, StmtsDepth, BlockText;
    var s1 := Advance(ts, s);
    var c := ParseExpr(ts, s1);
    var body := ParseBlock(ts, c.s);
    var g := ExprSound(ts, s1);
    var fs := BlockSound(ts, c.s);
    PassOne(ts, s, Tok(KW_WHILE));
    PassBoth(ts, s1, c.s, body.s, ExprText(g), BlockText(fs));
    PassBoth(ts, s, s1, body.s, [Tok(KW_WHILE)], ExprText(g) + BlockText(fs));
    f := WhileF(g, fs);
  }

  lemma {:induction false} IfSound(ts: Input, s: State) returns (f: StmtForm)
    requires At(ts, s) && Cur(ts, s) == KW_IF && Clean(s, ParseIf(ts, s).s) && Room(s, 0)
    ensures DerivesStmt(ts, s, ParseIf(ts, s), f) && f.IfF?
    decreases |ts| - s.pos, 17
  {
    hide ErrorTokens, SkipErrors, Advance, Passed, Reads, ParseExpr, ParseBlock, ParseElse, WholeExpr, WholeStmts;
    hide GoodExpr, ExprText, ExprTree, ExprDepth, GoodStmts, StmtsTree, StmtsDepth, BlockText, WholeStmt, GoodElse;
    var s1 := Advance(ts, s);
    var c := ParseExpr(ts, s1);
    var thn := ParseBlock(ts, c.s);
    var els := ParseElse(ts, thn.s);
    var g := ExprSound(ts, s1);
    var fs := BlockSound(ts, c.s);
    var e := ElseSound(ts, thn.s);
    var w := if e.None? then [] else [Tok(KW_ELSE)] + StmtText(e.value);
    PassOne(ts, s, Tok(KW_IF));
    PassBoth(ts, c.s, thn.s, els.s, BlockText(fs), w);
    PassBoth(ts, s1, c.s, els.s, ExprText(g), BlockText(fs) + w);
    PassBoth(ts, s, s1, els.s, [Tok(KW_IF)], ExprText(g) + (BlockText(fs) + w));
    f := IfF(g, fs, e);
  }

  lemma {:induction false} ElseSound(ts: Input, s: State) returns (e: Option<StmtForm>)
    requires At(ts, s) && Clean(s, ParseElse(ts, s).s) && Room(s, 0)
    ensures var r := ParseElse(ts, s);
            && (e.Some? ==> GoodElse(e.value, true) && Room(s, StmtDepth(e.value)))
            && r.v == (if e.None? then None else Some(StmtTree(e.value)))
            && Passed(ts, s, r.s, if e.None? then [] else [Tok(KW_ELSE)] + StmtText(e.value))
    decreases |ts| - s.pos, 22
  {
    hide ErrorTokens, SkipErrors, Advance, Passed, Reads, ParseIf, ParseBlock, WholeStmt, WholeStmts;
    hide GoodStmts, StmtsTree, StmtsDepth, BlockText;
    if Cur(ts, s) == KW_ELSE {
      var s1 := Advance(ts, s);
      PassOne(ts, s, Tok(KW_ELSE));
      var f: StmtForm;
      if Cur(ts, s1) == KW_IF {
        f := IfSound(ts, s1);
      } else {
        var fs := BlockSound(ts, s1);
        f := BlockF(fs);
      }
      PassBoth(ts, s, s1, ParseElse(ts, s).s, [Tok(KW_ELSE)], StmtText(f));
      e := Some(f);
    } else {
      PassNothing(ts, s);
      e := None;
    }
  }

  lemma {:induction false} MatchSound(ts: Input, s: State) returns (f: StmtForm)
    requires At(ts, s) && Cur(ts, s) == KW_MATCH && Clean(s, ParseMatch(ts, s).s) && Room(s, 0)
    ensures DerivesStmt(ts, s, ParseMatch(ts, s), f)
    decreases |ts| - s.pos, 17
  {
    hide ErrorTokens, SkipErrors, Advance, Passed, Reads, ParseExpr, ParseArms, Expect, WholeExpr, WholeArms;
    hide GoodExpr, ExprText, ExprTree, ExprDepth, GoodArms, ArmsTree, ArmsDepth, ArmsText;
    var s1 := Advance(ts, s);
    var e := ParseExpr(ts, s1);
    var s2 := Expect(ts, e.s, LBRACE).s;
    var arms := ParseArms(ts, s2);
    var s3 := Expect(ts, arms.s, RBRACE).s;
    assert Clean(e.s, s2);
    var g := ExprSound(ts, s1);
    PassExpected(ts, e.s, LBRACE);
    var fs := ArmsSound(ts, s2);
    PassOne(ts, s, Tok(KW_MATCH));
    PassExpected(ts, arms.s, RBRACE);
    PassBoth(ts, s2, arms.s, s3, ArmsText(fs), [Tok(RBRACE)]);
    PassBoth(ts, e.s, s2, s3, [Tok(LBRACE)], ArmsText(fs) + [Tok(RBRACE)]);
    PassBoth(ts, s1, e.s, s3, ExprText(g), [Tok(LBRACE)] + (ArmsText(fs) + [Tok(RBRACE)]));
    PassBoth(ts, s, s1, s3, [Tok(KW_MATCH)], ExprText(g) + ([Tok(LBRACE)] + (ArmsText(fs) + [Tok(RBRACE)])));
    f := MatchF(g, fs);
  }

  lemma {:induction false} ArmsSound(ts: Input, s: State) returns (fs: seq<ArmForm>)
    requires At(ts, s) && Clean(s, ParseArms(ts, s).s) && Room(s, 0)
    ensures var r := ParseArms(ts, s);
            GoodArms(fs, true) && ArmsTree(fs) == r.v && Passed(ts, s, r.s, ArmsText(fs)) && Room(s, ArmsDepth(fs))
    decreases |ts| - s.pos, 24
  {
    hide ErrorTokens, SkipErrors, Advance, Passed, Reads, ParseArm, NextArm, WholeArm, WholeArms;
    hide GoodArm, ArmText, StmtTree, StmtDepth;
    if Cur(ts, s) == RBRACE || Cur(ts, s) == EOF {
      PassNothing(ts, s);
      fs := [];
    } else {
      var a := ParseArm(ts, s);
      var rest := ParseArms(ts, NextArm(ts, s, a));
      assert Clean(s, NextArm(ts, s, a)) && Clean(a.s, rest.s);
      var f := ArmSound(ts, s);
      var more := ArmsSound(ts, a.s);
      PassBoth(ts, s, a.s, rest.s, ArmText(f), ArmsText(more));
      fs := [f] + more;
      assert fs[1..] == more;
    }
  }

  lemma {:induction false} ArmSound(ts: Input, s: State) returns (a: ArmForm)
    requires At(ts, s) && Clean(s, ParseArm(ts, s).s)
    ensures var r := ParseArm(ts, s);
            && GoodArm(a, true) && r.v == Some(Arm(LabelsTree(a.labels), StmtTree(a.body)))
            && Passed(ts, s, r.s, ArmText(a)) && Room(s, 1 + StmtDepth(a.body))
    decreases |ts| - s.pos, 23
  {
    hide ErrorTokens, SkipErrors, Advance, Passed, Reads, ParseLabels, ParseStmt, Expect, WholeStmt, WholeLabels;
    hide GoodStmt, StmtText, StmtTree, StmtDepth, GoodLabels, LabelsText, LabelsTree;
    var labels := ParseLabels(ts, s);
    var s1 := Expect(ts, labels.s, FAT_ARROW).s;
    assert Clean(s, labels.s);
    var body := ParseStmt(ts, s1);
    var ls := LabelsSound(ts, s);
    PassExpected(ts, labels.s, FAT_ARROW);
    var f := StmtSound(ts, s1);
    PassBoth(ts, labels.s, s1, body.s, [Tok(FAT_ARROW)], StmtText(f));
    PassBoth(ts, s, labels.s, body.s, LabelsText(ls), [Tok(FAT_ARROW)] + StmtText(f));
    a := ArmForm(ls, f);
  }

  lemma {:induction false} LabelsSound(ts: Input, s: State) returns (ls: seq<Option<ExprForm>>)
    requires At(ts, s) && Clean(s, ParseLabels(ts, s).s)
    ensures var r := ParseLabels(ts, s);
            GoodLabels(ls, true) && r.v == Some(LabelsTree(ls)) && Passed(ts, s, r.s, LabelsText(ls))
    decreases |ts| - s.pos
  {
    hide ErrorTokens, SkipErrors, Advance, Passed, Reads, WholeLabels, IsLabel, LabelText, LabelOf, LabelTree;
    hide LabelsTree, LabelsText, GoodLabels, StartsLabel;
    var s1 := Advance(ts, s);
    var one := LabelSound(ts, s);
    ls := [one];
    OneLabel(one, true);
    if Cur(ts, s1) == COMMA {
      var s2 := Advance(ts, s1);
      var rest := ParseLabels(ts, s2);
      var more := LabelsSound(ts, s2);
      PassOne(ts, s1, Tok(COMMA));
      PassBoth(ts, s1, s2, rest.s, [Tok(COMMA)], LabelsText(more));
      PassBoth(ts, s, s1, rest.s, LabelText(one), [Tok(COMMA)] + LabelsText(more));
      ls := [one] + more;
      MoreLabels(one, more, true);
    }
  }

  lemma OneLabel(l: Option<ExprForm>, strict: bool)
    requires IsLabel(l, strict)
    ensures GoodLabels([l], strict) && LabelsTree([l]) == [LabelTree(l)] && LabelsText([l]) == LabelText(l)
  {
    hide IsLabel, LabelTree, LabelText;
  }

  lemma MoreLabels(l: Option<ExprForm>, more: seq<Option<ExprForm>>, strict: bool)
    requires IsLabel(l, strict) && GoodLabels(more, strict)
    ensures var ls := [l] + more;
            && GoodLabels(ls, strict) && LabelsTree(ls) == [LabelTree(l)] + LabelsTree(more)
            && LabelsText(ls) == LabelText(l) + ([Tok(COMMA)] + LabelsText(more))
  {
    hide IsLabel, LabelTree, LabelText;
    assert ([l] + more)[1..] == more;
  }

  lemma LabelSound(ts: Input, s: State) returns (l: Option<ExprForm>)
    requires At(ts, s) && StartsLabel(Cur(ts, s)) && Clean(s, Advance(ts, s))
    ensures IsLabel(l, true) && LabelTree(l) == LabelOf(ts[s.pos]) && Passed(ts, s, Advance(ts, s), LabelText(l))
  {
    hide ErrorTokens, SkipErrors, Advance, Passed, Reads;
    var e := LabelOf(ts[s.pos]);
    l := if e.None? then None else Some(AtomF(e.value));
    PassOne(ts, s, LabelText(l)[0]);
  }

  // -------------------------------------------------------------------- items

  lemma {:induction false} ParamsSound(ts: Input, s: State, isExtern: bool)
    requires At(ts, s) && Clean(s, ParseParams(ts, s, isExtern).s)
    ensures var r := ParseParams(ts, s, isExtern);
            && r.v.Some?
            && (var ps := r.v.value;
                && ProperParams(ps.params) && (ps.variadic ==> isExtern) && (ps.params != [] || ps.variadic)
                && Passed(ts, s, r.s, ParamsText(ps.params, ps.variadic)))
    decreases |ts| - s.pos
  {
    hide ErrorTokens, SkipErrors, Advance, Passed, Reads, ParseDeclarator, WholeParams, WholeType, DeclText, ProperType;
    if Cur(ts, s) == ELLIPSIS {
      PassOne(ts, s, Tok(ELLIPSIS));
    } else {
      var d := ParseDeclarator(ts, s);
      DeclSound(ts, s);
      if Cur(ts, d.s) == COMMA {
        var s1 := Advance(ts, d.s);
        var rest := ParseParams(ts, s1, isExtern);
        ParamsSound(ts, s1, isExtern);
        var ps, v := rest.v.value.params, rest.v.value.variadic;
        PassOne(ts, d.s, Tok(COMMA));
        PassBoth(ts, d.s, s1, rest.s, [Tok(COMMA)], ParamsText(ps, v));
        PassBoth(ts, s, d.s, rest.s, DeclText(d.v.value), [Tok(COMMA)] + ParamsText(ps, v));
        assert ([d.v.value] + ps)[1..] == ps;
      }
    }
  }

  lemma ParamListSound(ts: Input, s: State, isExtern: bool)
    requires At(ts, s) && Clean(s, ParseParamList(ts, s, isExtern).s)
    ensures var r := ParseParamList(ts, s, isExtern);
            && r.v.Some?
            && (var ps := r.v.value;
                && ProperParams(ps.params) && (ps.variadic ==> isExtern)
                && Passed(ts, s, r.s, [Tok(LPAREN)] + (ParamsText(ps.params, ps.variadic) + [Tok(RPAREN)])))
  {
    hide ErrorTokens, SkipErrors, Advance, Passed, Reads, ParseParams, Expect, WholeParams, ProperParams, ParamsText;
    var s1 := Expect(ts, s, LPAREN).s;
    var params := if Cur(ts, s1) == RPAREN then Res(s1, Some(Params([], false))) else ParseParams(ts, s1, isExtern);
    assert Clean(s, s1);
    PassExpected(ts, s, LPAREN);
    assert Clean(s1, params.s);
    if Cur(ts, s1) == RPAREN {
      PassNothing(ts, s1);
      NoParams();
      EmptyParams();
    } else {
      ParamsSound(ts, s1, isExtern);
    }
    var ps := params.v.value;
    var s2 := Expect(ts, params.s, RPAREN).s;
    PassExpected(ts, params.s, RPAREN);
    PassBoth(ts, s1, params.s, s2, ParamsText(ps.params, ps.variadic), [Tok(RPAREN)]);
    PassBoth(ts, s, s1, s2, [Tok(LPAREN)], ParamsText(ps.params, ps.variadic) + [Tok(RPAREN)]);
  }

  lemma EmptyParams()
    ensures ProperParams([])
  {
  }

  lemma RetSound(ts: Input, s: State) returns (ret: Option<Type>)
    requires At(ts, s) && Clean(s, ParseRet(ts, s).s)
    ensures var r := ParseRet(ts, s);
            && (ret.Some? ==> ProperType(ret.value))
            && r.v == (if ret.None? then CoreType(KW_VOID) else ret.value)
            && Passed(ts, s, r.s, RetText(ret)) && r.v != NoType
  {
    hide ErrorTokens, SkipErrors, Advance, Passed, Reads, ParseType, WholeType, ProperType, TypeText;
    if Cur(ts, s) == ARROW {
      var s1 := Advance(ts, s);
      var t := ParseType(ts, s1);
      PassOne(ts, s, Tok(ARROW));
      TypeSound(ts, s1);
      ProperIsType();
      PassBoth(ts, s, s1, t.s, [Tok(ARROW)], TypeText(t.v));
      ret := Some(t.v);
    } else {
      PassNothing(ts, s);
      ret := None;
    }
  }

  /** What `r` read from `s` on is the function `f`. */
  predicate DerivesFn(ts: Input, s: State, r: Res<Option<FnDecl>>, f: FnForm, isExtern: bool) {
    && GoodFn(f, isExtern, true) && r.v == Some(FnTree(f)) && Passed(ts, s, r.s, FnText(f))
    && (f.body.Some? ==> Room(s, StmtsDepth(f.body.value)))
  }

  lemma FnSound(ts: Input, s: State, isExtern: bool) returns (f: FnForm)
    requires At(ts, s) && Clean(s, ParseFnDecl(ts, s, isExtern).s) && Room(s, 0)
    ensures DerivesFn(ts, s, ParseFnDecl(ts, s, isExtern), f, isExtern)
  {
    hide ErrorTokens, SkipErrors, Advance, Passed, Reads, ParseParamList, ParseFnRest, Expect, ExpectIdent, WholeParams;
    hide WholeFn, ProperParams, ParamsText, GoodStmts, StmtsTree, StmtsDepth, RetText, FnEndText, ProperType;
    var r := ParseFnDecl(ts, s, isExtern);
    var s1 := Expect(ts, s, KW_FN).s;
    assert Clean(s, s1);
    PassExpected(ts, s, KW_FN);
    var name := ExpectIdent(ts, s1);
    assert Clean(s1, name.s);
    PassIdent(ts, s1);
    var params := ParseParamList(ts, name.s, isExtern);
    assert Clean(name.s, params.s);
    ParamListSound(ts, name.s, isExtern);
    f := FnRestSound(ts, params.s, name.v.value, params.v.value, isExtern);
    var w := RetText(f.ret) + FnEndText(f);
    PassBoth(ts, name.s, params.s, r.s, ParamListText(f), w);
    PassBoth(ts, s1, name.s, r.s, [Ident(f.name)], ParamListText(f) + w);
    PassBoth(ts, s, s1, r.s, [Tok(KW_FN)], [Ident(f.name)] + (ParamListText(f) + w));
  }

  lemma FnRestSound(ts: Input, s: State, name: string, ps: Params, isExtern: bool) returns (f: FnForm)
    requires At(ts, s) && Clean(s, ParseFnRest(ts, s, name, ps, isExtern).s) && Room(s, 0)
    requires ProperParams(ps.params) && (ps.variadic ==> isExtern)
    ensures var r := ParseFnRest(ts, s, name, ps, isExtern);
            && GoodFn(f, isExtern, true) && r.v == Some(FnTree(f)) && f.name == name && f.params == ps.params
            && f.variadic == ps.variadic && Passed(ts, s, r.s, RetText(f.ret) + FnEndText(f))
            && (f.body.Some? ==> Room(s, StmtsDepth(f.body.value)))
  {
    hide ErrorTokens, SkipErrors, Advance, Passed, Reads, ParseRet, ParseBlock, Expect, WholeParams, WholeType, WholeFn;
    hide ProperParams, GoodStmts, StmtsTree, StmtsDepth, RetText, BlockText, ProperType, WholeStmts;
    var ret := ParseRet(ts, s);
    assert Clean(s, ret.s);
    var t := RetSound(ts, s);
    if isExtern {
      var s1 := Expect(ts, ret.s, SEMI).s;
      PassExpected(ts, ret.s, SEMI);
      PassBoth(ts, s, ret.s, s1, RetText(t), [Tok(SEMI)]);
      f := FnForm(name, ps.params, ps.variadic, t, None);
    } else {
      var body := ParseBlock(ts, ret.s);
      var fs := BlockSound(ts, ret.s);
      PassBoth(ts, s, ret.s, body.s, RetText(t), BlockText(fs));
      f := FnForm(name, ps.params, ps.variadic, t, Some(fs));
    }
  }

  lemma FieldSound(ts: Input, s: State)
    requires At(ts, s) && Clean(s, ParseField(ts, s).s)
    ensures var r := ParseField(ts, s);
            && r.v.Some? && ProperType(r.v.value.ty) && !r.v.value.isMut && Passed(ts, s, r.s, FieldText(r.v.value))
  {
    hide ErrorTokens, SkipErrors, Advance, Passed, Reads, ParseType, Expect, ExpectIdent, WholeType, ProperType,
        TypeText;
    var t := ParseType(ts, s);
    assert Clean(s, t.s);
    TypeSound(ts, s);
    ProperIsType();
    var name := ExpectIdent(ts, t.s);
    assert Clean(t.s, name.s);
    PassIdent(ts, t.s);
    var s1 := Expect(ts, name.s, SEMI).s;
    PassExpected(ts, name.s, SEMI);
    PassBoth(ts, t.s, name.s, s1, [Ident(name.v.value)], [Tok(SEMI)]);
    PassBoth(ts, s, t.s, s1, TypeText(t.v), [Ident(name.v.value)] + [Tok(SEMI)]);
  }

  lemma {:induction false} FieldsSound(ts: Input, s: State)
    requires At(ts, s) && Clean(s, ParseFields(ts, s).s)
    ensures var r := ParseFields(ts, s); GoodFields(r.v) && Passed(ts, s, r.s, FieldsText(r.v))
    decreases |ts| - s.pos
  {
    hide ErrorTokens, SkipErrors, Advance, Passed, Reads, ParseField, NextMember, WholeParams, WholeType, ProperType;
    hide FieldText;
    if Cur(ts, s) == RBRACE || Cur(ts, s) == EOF {
      PassNothing(ts, s);
    } else {
      var f := ParseField(ts, s);
      var rest := ParseFields(ts, NextMember(ts, s, f.s, f.v.None?));
      assert Clean(s, NextMember(ts, s, f.s, f.v.None?)) && Clean(f.s, rest.s);
      FieldSound(ts, s);
      FieldsSound(ts, f.s);
      PassBoth(ts, s, f.s, rest.s, FieldText(f.v.value), FieldsText(rest.v));
      assert ([f.v.value] + rest.v)[1..] == rest.v;
    }
  }

  /** What `r` read from `s` on is the item `f`. */
  predicate DerivesItem(ts: Input, s: State, r: Res<Option<Item>>, f: ItemForm) {
    GoodItem(f, true) && r.v == Some(ItemTree(f)) && Passed(ts, s, r.s, ItemText(f)) && Room(s, ItemDepth(f))
  }

  lemma StructSound(ts: Input, s: State) returns (f: ItemForm)
    requires At(ts, s) && Cur(ts, s) == KW_STRUCT && Clean(s, ParseStruct(ts, s).s) && Room(s, 0)
    ensures DerivesItem(ts, s, ParseStruct(ts, s), f)
  {
    hide ErrorTokens, SkipErrors, Advance, Passed, Reads, ParseFields, Expect, ExpectIdent, WholeParams, FieldsText;
    hide GoodFields;
    var s1 := Advance(ts, s);
    PassOne(ts, s, Tok(KW_STRUCT));
    var name := ExpectIdent(ts, s1);
    assert Clean(s1, name.s);
    PassIdent(ts, s1);
    var s2 := Expect(ts, name.s, LBRACE).s;
    assert Clean(name.s, s2);
    PassExpected(ts, name.s, LBRACE);
    var fields := ParseFields(ts, s2);
    FieldsSound(ts, s2);
    var s3 := Expect(ts, fields.s, RBRACE).s;
    PassExpected(ts, fields.s, RBRACE);
    var w := FieldsText(fields.v) + [Tok(RBRACE)];
    PassBoth(ts, s2, fields.s, s3, FieldsText(fields.v), [Tok(RBRACE)]);
    PassBoth(ts, name.s, s2, s3, [Tok(LBRACE)], w);
    PassBoth(ts, s1, name.s, s3, [Ident(name.v.value)], [Tok(LBRACE)] + w);
    PassBoth(ts, s, s1, s3, [Tok(KW_STRUCT)], [Ident(name.v.value)] + ([Tok(LBRACE)] + w));
    f := StructF(name.v.value, fields.v);
  }

  lemma MemberSound(ts: Input, s: State)
    requires At(ts, s) && Cur(ts, s) == IDENT && Clean(s, ParseMemberValue(ts, Advance(ts, s)).s)
    ensures var r := ParseMemberValue(ts, Advance(ts, s));
            Passed(ts, s, r.s, MemberText(EnumMember(ts[s.pos].text, r.v)))
  {
    hide ErrorTokens, SkipErrors, Advance, Passed, Reads;
    var name := Ident(ts[s.pos].text);
    var s1 := Advance(ts, s);
    PassOne(ts, s, name);
    if Cur(ts, s1) == EQ {
      var s2 := Advance(ts, s1);
      var v := Token(INT, "", ts[s2.pos].value, "", 0);
      var s3 := Advance(ts, s2);
      PassOne(ts, s1, Tok(EQ));
      PassOne(ts, s2, v);
      PassBoth(ts, s1, s2, s3, [Tok(EQ)], [v]);
      assert [Tok(EQ)] + [v] == [Tok(EQ), v];
      PassBoth(ts, s, s1, s3, [name], [Tok(EQ), v]);
    } else {
      Nothing([name]);
    }
  }

  lemma {:induction false} MembersSound(ts: Input, s: State) returns (comma: bool)
    requires At(ts, s) && Clean(s, ParseMembers(ts, s).s)
    ensures var r := ParseMembers(ts, s); (comma ==> r.v != []) && Passed(ts, s, r.s, MembersText(r.v, comma))
    decreases |ts| - s.pos
  {
    hide ErrorTokens, SkipErrors, Advance, Passed, Reads, ParseMemberValue, MemberText, MembersText;
    if Cur(ts, s) == RBRACE || Cur(ts, s) == EOF {
      PassNothing(ts, s);
      comma := false;
      NoMembers();
    } else {
      var name := ExpectIdent(ts, s);
      assert Clean(s, name.s);
      var value := ParseMemberValue(ts, name.s);
      var m := EnumMember(name.v.value, value.v);
      MemberSound(ts, s);
      if Cur(ts, value.s) == COMMA {
        var s1 := Advance(ts, value.s);
        var rest := ParseMembers(ts, s1);
        comma := MembersSound(ts, s1);
        PassOne(ts, value.s, Tok(COMMA));
        PassBoth(ts, value.s, s1, rest.s, [Tok(COMMA)], MembersText(rest.v, comma));
        PassBoth(ts, s, value.s, rest.s, MemberText(m), [Tok(COMMA)] + MembersText(rest.v, comma));
        NoMembers();
        assert ([m] + rest.v)[1..] == rest.v;
        comma := comma || rest.v == [];
        LastComma([m] + rest.v, comma);
      } else {
        comma := false;
        LastMember(m);
      }
    }
  }

  lemma NoMembers()
    ensures MembersText([], false) == [] && MembersText([], true) == []
  {
  }

  lemma LastMember(m: EnumMember)
    ensures MembersText([m], false) == MemberText(m)
  {
  }

  lemma BaseSound(ts: Input, s: State) returns (base: Option<Token>)
    requires At(ts, s) && Clean(s, ParseBase(ts, s).s)
    ensures var r := ParseBase(ts, s);
            && GoodBase(base, true) && r.v == (if base.None? then KW_I32 else base.value.kind)
            && Passed(ts, s, r.s, BaseText(base))
  {
    hide ErrorTokens, SkipErrors, Advance, Passed, Reads;
    if Cur(ts, s) == COLON {
      var s1 := Advance(ts, s);
      var k := Cur(ts, s1);
      PassOne(ts, s, Tok(COLON));
      PassOne(ts, s1, Tok(k));
      PassBoth(ts, s, s1, Advance(ts, s1), [Tok(COLON)], [Tok(k)]);
      assert [Tok(COLON)] + [Tok(k)] == [Tok(COLON), Tok(k)];
      base := Some(Tok(k));
    } else {
      PassNothing(ts, s);
      base := None;
    }
  }

  lemma EnumSound(ts: Input, s: State) returns (f: ItemForm)
    requires At(ts, s) && Cur(ts, s) == KW_ENUM && Clean(s, ParseEnum(ts, s).s) && Room(s, 0)
    ensures DerivesItem(ts, s, ParseEnum(ts, s), f)
  {
    hide ErrorTokens, SkipErrors, Advance, Passed, Reads, ParseBase, ParseMembers, Expect, ExpectIdent, IsCoreType;
    hide BaseText, MembersText;
    var s1 := Advance(ts, s);
    PassOne(ts, s, Tok(KW_ENUM));
    var name := ExpectIdent(ts, s1);
    assert Clean(s1, name.s);
    PassIdent(ts, s1);
    var base := ParseBase(ts, name.s);
    var s2 := Expect(ts, base.s, LBRACE).s;
    assert Clean(name.s, base.s) && Clean(base.s, s2);
    var b := BaseSound(ts, name.s);
    PassExpected(ts, base.s, LBRACE);
    var members := ParseMembers(ts, s2);
    var s3 := Expect(ts, members.s, RBRACE).s;
    var comma := MembersSound(ts, s2);
    PassExpected(ts, members.s, RBRACE);
    var w := MembersText(members.v, comma) + [Tok(RBRACE)];
    PassBoth(ts, s2, members.s, s3, MembersText(members.v, comma), [Tok(RBRACE)]);
    PassBoth(ts, base.s, s2, s3, [Tok(LBRACE)], w);
    PassBoth(ts, name.s, base.s, s3, BaseText(b), [Tok(LBRACE)] + w);
    PassBoth(ts, s1, name.s, s3, [Ident(name.v.value)], BaseText(b) + ([Tok(LBRACE)] + w));
    PassBoth(ts, s, s1, s3, [Tok(KW_ENUM)], [Ident(name.v.value)] + (BaseText(b) + ([Tok(LBRACE)] + w)));
    f := EnumF(name.v.value, b, members.v, comma);
  }

  lemma LiteralSound(ts: Input, s: State)
    requires At(ts, s) && Clean(s, ParseLiteral(ts, s).s)
    ensures var r := ParseLiteral(ts, s); IsLiteral(r.v) && Passed(ts, s, r.s, [AtomToken(r.v)])
  {
    hide ErrorTokens, SkipErrors, Advance, Passed, Reads, ParseExpr;
    PassOne(ts, s, AtomToken(ParseLiteral(ts, s).v));
  }

  lemma GlobalSound(ts: Input, s: State) returns (f: ItemForm)
    requires At(ts, s) && Cur(ts, s) == KW_LET && Clean(s, ParseGlobal(ts, s).s) && Room(s, 0)
    ensures DerivesItem(ts, s, ParseGlobal(ts, s), f)
  {
    hide ErrorTokens, SkipErrors, Advance, Passed, Reads, ParseDeclarator, ParseGlobalInit, Expect, WholeType,
        WholeExpr;
    hide DeclText, InitText, InitTree, ProperType, GoodGlobalInit;
    var s1 := Advance(ts, s);
    PassOne(ts, s, Tok(KW_LET));
    var d := ParseDeclarator(ts, s1);
    assert Clean(s1, d.s);
    DeclSound(ts, s1);
    var i := ParseGlobalInit(ts, d.s);
    assert Clean(d.s, i.s);
    var e := GlobalInitSound(ts, d.s);
    var s2 := Expect(ts, i.s, SEMI).s;
    PassExpected(ts, i.s, SEMI);
    var w := InitText(e) + [Tok(SEMI)];
    PassBoth(ts, d.s, i.s, s2, InitText(e), [Tok(SEMI)]);
    PassBoth(ts, s1, d.s, s2, DeclText(d.v.value), w);
    PassBoth(ts, s, s1, s2, [Tok(KW_LET)], DeclText(d.v.value) + w);
    f := GlobalF(d.v.value, e);
  }

  lemma GlobalInitSound(ts: Input, s: State) returns (e: Option<ExprForm>)
    requires At(ts, s) && Clean(s, ParseGlobalInit(ts, s).s)
    ensures var r := ParseGlobalInit(ts, s);
            && GoodGlobalInit(e, true) && InitTree(e) == r.v && r.v != Some(NoExpr)
            && Passed(ts, s, r.s, InitText(e))
  {
    hide ErrorTokens, SkipErrors, Advance, Passed, Reads, ParseLiteral, WholeExpr;
    if Cur(ts, s) == EQ {
      var s1 := Advance(ts, s);
      var l := ParseLiteral(ts, s1);
      PassOne(ts, s, Tok(EQ));
      LiteralSound(ts, s1);
      PassBoth(ts, s, s1, l.s, [Tok(EQ)], [AtomToken(l.v)]);
      e := Some(AtomF(l.v));
    } else {
      PassNothing(ts, s);
      e := None;
    }
  }

  lemma {:induction false} ExternsSound(ts: Input, s: State) returns (fs: seq<FnForm>)
    requires At(ts, s) && Clean(s, ParseExternFns(ts, s).s) && Room(s, 0)
    ensures var r := ParseExternFns(ts, s);
            GoodExterns(fs, true) && ExternsTree(fs) == r.v && Passed(ts, s, r.s, ExternsText(fs))
    decreases |ts| - s.pos
  {
    hide ErrorTokens, SkipErrors, Advance, Passed, Reads, ParseFnDecl, NextMember, WholeFn, WholeExterns, GoodFn,
        FnTree;
    hide FnText;
    if Cur(ts, s) == RBRACE || Cur(ts, s) == EOF {
      PassNothing(ts, s);
      fs := [];
    } else {
      var r := ParseFnDecl(ts, s, true);
      var rest := ParseExternFns(ts, NextMember(ts, s, r.s, r.v.None?));
      assert Clean(s, NextMember(ts, s, r.s, r.v.None?)) && Clean(r.s, rest.s);
      var f := FnSound(ts, s, true);
      var more := ExternsSound(ts, r.s);
      PassBoth(ts, s, r.s, rest.s, FnText(f), ExternsText(more));
      fs := [f] + more;
      assert fs[1..] == more;
    }
  }

  lemma ExternSound(ts: Input, s: State) returns (f: ItemForm)
    requires At(ts, s) && Cur(ts, s) == KW_EXTERN && Clean(s, ParseExtern(ts, s).s) && Room(s, 0)
    ensures DerivesItem(ts, s, ParseExtern(ts, s), f)
  {
    hide ErrorTokens, SkipErrors, Advance, Passed, Reads, ParseExternBody, WholeExterns, GoodExterns, ExternsText;
    hide ExternsTree;
    var s1 := Advance(ts, s);
    assert Clean(s, s1) && Cur(ts, s1) == STRING;
    var abi := Token(STRING, "", 0, ts[s1.pos].str, 0);
    var s2 := Advance(ts, s1);
    PassOne(ts, s, Tok(KW_EXTERN));
    PassOne(ts, s1, abi);
    var body := ParseExternBody(ts, s2);
    var fs := ExternBodySound(ts, s2);
    var w := [Tok(LBRACE)] + (ExternsText(fs) + [Tok(RBRACE)]);
    PassBoth(ts, s1, s2, body.s, [abi], w);
    PassBoth(ts, s, s1, body.s, [Tok(KW_EXTERN)], [abi] + w);
    f := ExternF(abi.str, fs);
  }

  lemma ExternBodySound(ts: Input, s: State) returns (fs: seq<FnForm>)
    requires At(ts, s) && Clean(s, ParseExternBody(ts, s).s) && Room(s, 0)
    ensures var r := ParseExternBody(ts, s);
            && GoodExterns(fs, true) && r.v == Some(ExternsTree(fs))
            && Passed(ts, s, r.s, [Tok(LBRACE)] + (ExternsText(fs) + [Tok(RBRACE)]))
  {
    hide ErrorTokens, SkipErrors, Advance, Passed, Reads, ParseExternFns, Expect, WholeExterns, GoodExterns,
        ExternsText;
    hide ExternsTree;
    var s1 := Expect(ts, s, LBRACE).s;
    assert Clean(s, s1);
    PassExpected(ts, s, LBRACE);
    var r := ParseExternFns(ts, s1);
    var s2 := Expect(ts, r.s, RBRACE).s;
    fs := ExternsSound(ts, s1);
    PassExpected(ts, r.s, RBRACE);
    PassBoth(ts, s1, r.s, s2, ExternsText(fs), [Tok(RBRACE)]);
    PassBoth(ts, s, s1, s2, [Tok(LBRACE)], ExternsText(fs) + [Tok(RBRACE)]);
  }

  lemma ItemSound(ts: Input, s: State) returns (f: ItemForm)
    requires At(ts, s) && Clean(s, ParseItem(ts, s).s) && Room(s, 0)
    ensures DerivesItem(ts, s, ParseItem(ts, s), f)
  {
    hide ErrorTokens, SkipErrors, Advance, Passed, Reads, ParseFnDecl, ParseStruct, ParseEnum, ParseGlobal, ParseExtern;
    hide WholeItem, WholeFn, GoodFn, FnText, FnTree, StmtsDepth;
    var k := Cur(ts, s);
    if k == KW_FN {
      var g := FnSound(ts, s, false);
      f := FnF(g);
    } else if k == KW_STRUCT {
      f := StructSound(ts, s);
    } else if k == KW_ENUM {
      f := EnumSound(ts, s);
    } else if k == KW_LET {
      f := GlobalSound(ts, s);
    } else {
      f := ExternSound(ts, s);
    }
  }

  lemma {:induction false} ItemsSound(ts: Input, s: State) returns (fs: seq<ItemForm>)
    requires At(ts, s) && Clean(s, ParseItems(ts, s).s) && Room(s, 0)
    ensures var r := ParseItems(ts, s);
            GoodItems(fs, true) && ItemsTree(fs) == r.v && Passed(ts, s, r.s, ItemsText(fs)) && Room(s, ItemsDepth(fs))
    decreases |ts| - s.pos
  {
    hide ErrorTokens, SkipErrors, Advance, Passed, Reads, ParseItem, NextItem, WholeItem, WholeItems, GoodItem,
        ItemTree;
    hide ItemText, ItemDepth;
    if Cur(ts, s) == EOF {
      PassNothing(ts, s);
      fs := [];
    } else {
      var r := ParseItem(ts, s);
      var rest := ParseItems(ts, NextItem(ts, s, r));
      assert Clean(s, NextItem(ts, s, r)) && Clean(r.s, rest.s);
      var f := ItemSound(ts, s);
      var more := ItemsSound(ts, r.s);
      PassBoth(ts, s, r.s, rest.s, ItemText(f), ItemsText(more));
      fs := [f] + more;
      assert fs[1..] == more;
    }
  }

  // ------------------------------------------------------------- the language

  /** The tokens up to the first end of file are what `fs` spells, and `fs` is a program
      of the grammar within the nesting limit. */
  predicate Spells(ts: Input, fs: seq<ItemForm>) {
    && GoodItems(fs, true) && ItemsDepth(fs) <= MAX_NESTING
    && Reads(ts, 0, ItemsText(fs)) && ts[|ItemsText(fs)|].kind == EOF
  }

  /** The parser reports nothing, and returns these items, exactly when the input is
      what a program of the grammar spells whose tree they are. */
  lemma AcceptsTheGrammar(ts: Input, items: seq<Item>)
    ensures Errors(ParseProgram(ts).s) == 0 && ParseProgram(ts).v == items <==>
              exists fs :: Spells(ts, fs) && ItemsTree(fs) == items
  {
    hide Spells, ItemsTree, ParseProgram, Errors;
    if Errors(ParseProgram(ts).s) == 0 && ParseProgram(ts).v == items {
      var fs := ProgramSound(ts);
      assert Spells(ts, fs) && ItemsTree(fs) == items;
    }
    forall fs | Spells(ts, fs) && ItemsTree(fs) == items
      ensures Errors(ParseProgram(ts).s) == 0 && ParseProgram(ts).v == items
    {
      SpelledReads(ts, fs);
    }
  }

  lemma ProgramSound(ts: Input) returns (fs: seq<ItemForm>)
    requires Errors(ParseProgram(ts).s) == 0
    ensures Spells(ts, fs) && ItemsTree(fs) == ParseProgram(ts).v
  {
    hide ParseItems, GoodItems, ItemsTree, ItemsText, ItemsDepth, Reads, WholeItems, SkipErrors;
    var s := State(0, 0, 0, 0);
    NothingSkipped(ts);
    fs := ItemsSound(ts, s);
  }

  lemma NothingSkipped(ts: Input)
    requires Errors(ParseProgram(ts).s) == 0
    ensures var s := State(0, 0, 0, 0); At(ts, s) && ParseProgram(ts) == ParseItems(ts, s)
  {
    hide ParseItems, WholeItems, ErrorTokens;
  }

  lemma SpelledReads(ts: Input, fs: seq<ItemForm>)
    requires Spells(ts, fs)
    ensures Errors(ParseProgram(ts).s) == 0 && ParseProgram(ts).v == ItemsTree(fs)
  {
    hide ParseProgram, GoodItems, ItemsTree, ItemsText, ItemsDepth, Reads;
    ProgramReads(ts, fs);
  }

  /** No input stands for two trees. */
  lemma Unambiguous(ts: Input, fs: seq<ItemForm>, gs: seq<ItemForm>)
    requires Spells(ts, fs) && Spells(ts, gs)
    ensures ItemsTree(fs) == ItemsTree(gs)
  {
    hide Spells, ItemsTree;
    SpelledReads(ts, fs);
    SpelledReads(ts, gs);
  }
}
