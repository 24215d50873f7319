/** The parser itself: a cursor over the tokens, a nesting counter and the error
    counts, moved by one routine per construct. Each routine is shown to do what
    the functions of Parsing.dfy describe. */
module ParserClass {
  import opened Words
  import opened Tokens
  import opened Syntax
  import Spec = Parsing

  class Parser {
    const toks: Spec.Input
    var pos: nat
    var depth: nat
    var lexical: nat
    var syntax: nat

    ghost predicate Valid()
      reads this
    {
      Spec.At(toks, State())
    }

    ghost function State(): Spec.State
      reads this
    {
      Spec.State(pos, depth, lexical, syntax)
    }

    constructor (toks: Spec.Input)
      ensures Valid() && this.toks == toks && State() == Spec.SkipErrors(toks, Spec.State(0, 0, 0, 0))
    {
      this.toks := toks;
      pos, depth, lexical, syntax := 0, 0, 0, 0;
      new;
      SkipErrorTokens();
    }

    // ---------------------------------------------------------- token access

    function Cur(): Kind
      requires pos < |toks|
      reads this
    {
      toks[pos].kind
    }

    method SkipErrorTokens()
      requires pos < |toks|
      modifies `pos, `lexical
      ensures Valid() && State() == Spec.SkipErrors(toks, old(State()))
    {
      while toks[pos].kind == ERROR && pos + 1 < |toks|
        invariant pos < |toks| && Spec.SkipErrors(toks, State()) == Spec.SkipErrors(toks, old(State()))
        decreases |toks| - pos
      {
        lexical := lexical + 1;
        pos := pos + 1;
      }
    }

    /** To the next token that is no error; the end of file is never left. */
    method Advance() returns (t: Token)
      requires Valid()
      modifies `pos, `lexical
      ensures Valid() && State() == Spec.Advance(toks, old(State())) && t == toks[old(pos)]
    {
      t := toks[pos];
      if pos + 1 < |toks| {
        pos := pos + 1;
        SkipErrorTokens();
      }
    }

    method Accept(kind: Kind) returns (ok: bool)
      requires Valid()
      modifies `pos, `lexical
      ensures Valid() && ok == (old(Cur()) == kind)
      ensures State() == if ok then Spec.Advance(toks, old(State())) else old(State())
    {
      ok := Cur() == kind;
      if ok {
        var _ := Advance();
      }
    }

    method ErrorUnexpected()
      modifies `syntax
      ensures State() == Spec.Report(old(State()))
    {
      syntax := syntax + 1;
    }

    method Expect(kind: Kind) returns (ok: bool)
      requires Valid()
      modifies `pos, `lexical, `syntax
      ensures Valid() && State() == Spec.Expect(toks, old(State()), kind).s
              && ok == Spec.Expect(toks, old(State()), kind).v
    {
      ok := Accept(kind);
      if !ok {
        ErrorUnexpected();
      }
    }

    method ExpectIdent() returns (name: Option<string>)
      requires Valid()
      modifies `pos, `lexical, `syntax
      ensures Valid() && State() == Spec.ExpectIdent(toks, old(State())).s
              && name == Spec.ExpectIdent(toks, old(State())).v
    {
      if Cur() == IDENT {
        var t := Advance();
        return Some(t.text);
      }
      ErrorUnexpected();
      return None;
    }

    // -------------------------------------------------------------- recovery

    method SyncStmt()
      requires Valid()
      modifies `pos, `lexical
      ensures Valid() && State() == Spec.SyncStmt(toks, old(State()))
    {
      while Cur() != EOF
        invariant Valid() && Spec.SyncStmt(toks, State()) == Spec.SyncStmt(toks, old(State()))
        decreases |toks| - pos
      {
        var semi := Accept(SEMI);
        if semi {
          return;
        }
        if Spec.StopsStmt(Cur()) {
          return;
        }
        var _ := Advance();
      }
    }

    method SyncMember()
      requires Valid()
      modifies `pos, `lexical
      ensures Valid() && State() == Spec.SyncMember(toks, old(State()))
    {
      while Cur() != EOF
        invariant Valid() && Spec.SyncMember(toks, State()) == Spec.SyncMember(toks, old(State()))
        decreases |toks| - pos
      {
        if Cur() == SEMI || Cur() == COMMA {
          var _ := Advance();
          return;
        }
        if Cur() == RBRACE {
          return;
        }
        var _ := Advance();
      }
    }

    method SyncItem()
      requires Valid()
      modifies `pos, `lexical
      ensures Valid() && State() == Spec.SyncItem(toks, old(State()))
    {
      while Cur() != EOF && !Spec.StopsItem(Cur())
        invariant Valid() && Spec.SyncItem(toks, State()) == Spec.SyncItem(toks, old(State()))
        decreases |toks| - pos
      {
        var _ := Advance();
      }
    }

    /** One token further if a resynchronisation did not move. */
    method Force(before: nat)
      requires Valid()
      modifies `pos, `lexical
      ensures Valid() && State() == Spec.Forced(toks, before, old(State()))
    {
      if pos == before {
        var _ := Advance();
      }
    }

    // ----------------------------------------------------------------- types

    method ParseType() returns (t: Type)
      requires Valid()
      modifies this
      ensures Valid() && State() == Spec.ParseType(toks, old(State())).s && t == Spec.ParseType(toks, old(State())).v
    {
      if IsCoreType(Cur()) {
        var k := Advance();
        t := CoreType(k.kind);
      } else if Cur() == IDENT {
        var k := Advance();
        t := NamedType(k.text);
      } else {
        ErrorUnexpected();
        return NoType;
      }
      while Cur() == STAR || Cur() == LBRACKET
        invariant Valid() && t != NoType
        invariant Spec.TypeSuffixes(toks, State(), t) == Spec.ParseType(toks, old(State()))
        decreases |toks| - pos
      {
        if Cur() == STAR {
          var _ := Advance();
          t := PointerType(t);
        } else {
          var _ := Advance();
          var n := 0;
          if Cur() == INT {
            var k := Advance();
            n := k.value;
          } else {
            ErrorUnexpected();
          }
          var _ := Expect(RBRACKET);
          t := ArrayType(t, n);
        }
      }
    }

    // ----------------------------------------------------------- expressions

    method ParsePrimary() returns (e: Expr)
      requires Valid()
      modifies this
      ensures Valid() && State() == Spec.ParsePrimary(toks, old(State())).s
              && e == Spec.ParsePrimary(toks, old(State())).v
      decreases |toks| - pos, 0
    {
      var k := Cur();
      if k == INT {
        var t := Advance();
        e := IntLit(t.value);
      } else if k == FLOAT {
        var t := Advance();
        e := FloatLit(t.float);
      } else if k == CHAR {
        var t := Advance();
        e := CharLit(t.value);
      } else if k == STRING {
        var t := Advance();
        e := StringLit(t.str);
      } else if k == KW_TRUE || k == KW_FALSE {
        var t := Advance();
        e := BoolLit(t.kind == KW_TRUE);
      } else if k == KW_NULL {
        var _ := Advance();
        e := NullLit;
      } else if k == IDENT {
        var t := Advance();
        e := Name(t.text);
      } else if k == LPAREN {
        var _ := Advance();
        e := ParseExpr();
        var _ := Expect(RPAREN);
      } else {
        ErrorUnexpected();
        e := NoExpr;
      }
    }

    method ParsePostfix() returns (e: Expr)
      requires Valid()
      modifies this
      ensures Valid() && State() == Spec.ParsePostfix(toks, old(State())).s
              && e == Spec.ParsePostfix(toks, old(State())).v
      decreases |toks| - pos, 2
    {
      e := ParsePrimary();
      if e == NoExpr {
        return; // the caller resynchronises
      }
      while Cur() == LPAREN || Cur() == LBRACKET || Cur() == DOT
        invariant Valid() && e != NoExpr && old(pos) < pos
        invariant Spec.PostfixOps(toks, State(), e) == Spec.ParsePostfix(toks, old(State()))
        decreases |toks| - pos
      {
        e := ParsePostfixOp(e);
      }
    }

    method ParsePostfixOp(base: Expr) returns (e: Expr)
      requires Valid() && base != NoExpr && (Cur() == LPAREN || Cur() == LBRACKET || Cur() == DOT)
      modifies this
      ensures Valid() && State() == Spec.PostfixOp(toks, old(State()), base).s
              && e == Spec.PostfixOp(toks, old(State()), base).v
      ensures e != NoExpr
      decreases |toks| - pos, 0
    {
      var k := Cur();
      var _ := Advance();
      if k == LPAREN {
        var args := ParseArgs();
        var _ := Expect(RPAREN);
        e := Call(base, args);
      } else if k == LBRACKET {
        var index := ParseExpr();
        var _ := Expect(RBRACKET);
        e := Index(base, index);
      } else {
        var cast := Accept(KW_AS);
        if cast {
          var t := ParseBracketedType();
          e := Cast(base, t);
        } else {
          var name := ExpectIdent();
          e := Field(base, name);
        }
      }
    }

    method ParseBracketedType() returns (t: Type)
      requires Valid()
      modifies this
      ensures Valid() && State() == Spec.ParseBracketedType(toks, old(State())).s
              && t == Spec.ParseBracketedType(toks, old(State())).v
    {
      t := NoType;
      var open := Expect(LPAREN);
      if open {
        t := ParseType();
        var _ := Expect(RPAREN);
      }
    }

    method ParseArgs() returns (args: seq<Expr>)
      requires Valid()
      modifies this
      ensures Valid() && State() == Spec.ParseArgs(toks, old(State())).s && args == Spec.ParseArgs(toks, old(State())).v
      decreases |toks| - pos, 17
    {
      hide WholeExprs, WholeExpr, Spec.ParseExpr, Spec.ErrorTokens, Spec.SkipErrors;
      args := [];
      if Cur() == RPAREN {
        return;
      }
      var more := true;
      while more
        invariant Valid() && old(pos) <= pos
        invariant more ==> Spec.ParseArgs(toks, old(State())).s == Spec.ParseArgList(toks, State()).s
        invariant more ==> Spec.ParseArgs(toks, old(State())).v == args + Spec.ParseArgList(toks, State()).v
        invariant !more ==> Spec.ParseArgs(toks, old(State())) == Spec.Res(State(), args)
        decreases more, |toks| - pos
      {
        ghost var before := State();
        ghost var rest := Spec.ParseArgList(toks, before).v;
        var e := ParseExpr();
        ghost var had := args;
        args := args + [e];
        more := Accept(COMMA);
        assert more ==> rest == [e] + Spec.ParseArgList(toks, State()).v;
        assert more ==> had + ([e] + Spec.ParseArgList(toks, State()).v) == args + Spec.ParseArgList(toks, State()).v;
      }
    }

    method ParseUnary() returns (e: Expr)
      requires Valid()
      modifies this
      ensures Valid() && State() == Spec.ParseUnary(toks, old(State())).s && e == Spec.ParseUnary(toks, old(State())).v
      decreases |toks| - pos, 3
    {
      var k := Cur();
      if Spec.IsUnaryOp(k) {
        var _ := Advance();
        var x := ParseUnary();
        e := Unary(k, x);
      } else if k == KW_SIZEOF {
        var _ := Advance();
        var t := ParseBracketedType();
        e := SizeOf(t);
      } else {
        e := ParsePostfix();
      }
    }

    /** One level of the ladder: operands of the next level, joined to the left.
        The ten routines of the ladder differ only in their operators. */
    method ParseLevel(level: nat) returns (lhs: Expr)
      requires Valid() && level <= 10
      modifies this
      ensures Valid() && State() == Spec.ParseLevel(toks, old(State()), level).s
              && lhs == Spec.ParseLevel(toks, old(State()), level).v
      decreases |toks| - pos, 14 - level
    {
      if level == 10 {
        lhs := ParseUnary();
        return;
      }
      hide Spec.IsOp, Spec.ParseLevel, Spec.LevelOps, WholeExpr;
      Spec.OneLevelDown(toks, State(), level);
      lhs := ParseLevel(level + 1);
      lhs := ParseLevelOps(level, lhs);
    }

    /** The loop of a level. */
    method ParseLevelOps(level: nat, first: Expr) returns (lhs: Expr)
      requires Valid() && level < 10
      modifies this
      ensures Valid() && State() == Spec.LevelOps(toks, old(State()), level, first).s
              && lhs == Spec.LevelOps(toks, old(State()), level, first).v
      decreases |toks| - pos, 0
    {
      hide Spec.IsOp, Spec.ParseLevel, Spec.LevelOps, WholeExpr;
      lhs := first;
      while Spec.IsOp(level, Cur())
        invariant Valid() && old(pos) <= pos
        invariant Spec.LevelOps(toks, State(), level, lhs).s == Spec.LevelOps(toks, old(State()), level, first).s
        invariant Spec.LevelOps(toks, State(), level, lhs).v == Spec.LevelOps(toks, old(State()), level, first).v
        decreases |toks| - pos
      {
        Spec.OneMoreOp(toks, State(), level, lhs);
        var op := Advance();
        var rhs := ParseLevel(level + 1);
        lhs := Binary(op.kind, lhs, rhs);
      }
      Spec.NoMoreOps(toks, State(), level, lhs);
    }

    method ParseExpr() returns (e: Expr)
      requires Valid()
      modifies this
      ensures Valid() && State() == Spec.ParseExpr(toks, old(State())).s && e == Spec.ParseExpr(toks, old(State())).v
      decreases |toks| - pos, 15
    {
      if depth >= Spec.MAX_NESTING {
        ErrorUnexpected();
        return NoExpr;
      }
      depth := depth + 1;
      e := ParseLevel(0);
      depth := depth - 1;
    }

    method ParseLiteral() returns (e: Expr)
      requires Valid()
      modifies this
      ensures Valid() && State() == Spec.ParseLiteral(toks, old(State())).s
              && e == Spec.ParseLiteral(toks, old(State())).v
    {
      if Spec.StartsLiteral(Cur()) {
        e := ParsePrimary();
      } else {
        ErrorUnexpected();
        e := NoExpr;
      }
    }

    // ------------------------------------------------------------ statements

    method ParseBlock() returns (stmts: seq<Stmt>)
      requires Valid()
      modifies this
      ensures Valid() && State() == Spec.ParseBlock(toks, old(State())).s
              && stmts == Spec.ParseBlock(toks, old(State())).v
      decreases |toks| - pos, 22
    {
      hide Spec.ParseStmt, Spec.SyncStmt, Spec.Forced, Spec.ErrorTokens, Spec.SkipErrors, Spec.Advance;
      stmts := [];
      var open := Expect(LBRACE);
      if !open {
        return;
      }
      ghost var start := State();
      while Cur() != RBRACE && Cur() != EOF
        invariant Valid() && old(pos) < pos
        invariant Spec.ParseStmts(toks, start).s == Spec.ParseStmts(toks, State()).s
        invariant Spec.ParseStmts(toks, start).v == stmts + Spec.ParseStmts(toks, State()).v
        decreases |toks| - pos
      {
        ghost var before := State();
        ghost var had := stmts;
        ghost var r := Spec.ParseStmt(toks, before);
        ghost var rest := Spec.ParseStmts(toks, before).v;
        var mark := pos;
        var st := ParseStmt();
        if st != NoStmt {
          stmts := stmts + [st];
        } else {
          SyncStmt();
        }
        Force(mark);
        assert State() == Spec.NextStmt(toks, before, r);
        assert rest == (if st == NoStmt then [] else [st]) + Spec.ParseStmts(toks, State()).v;
        assert had + rest == stmts + Spec.ParseStmts(toks, State()).v;
      }
      var _ := Expect(RBRACE);
    }

    method ParseStmt() returns (st: Stmt)
      requires Valid()
      modifies this
      ensures Valid() && State() == Spec.ParseStmt(toks, old(State())).s && st == Spec.ParseStmt(toks, old(State())).v
      decreases |toks| - pos, 24
    {
      hide WholeExpr, WholeExprs, WholeStmt, WholeArm;
      if depth >= Spec.MAX_NESTING {
        ErrorUnexpected();
        return NoStmt;
      }
      depth := depth + 1;
      st := ParseStmtInner();
      depth := depth - 1;
    }

    method ParseStmtInner() returns (st: Stmt)
      requires Valid()
      modifies this
      ensures Valid() && State() == Spec.ParseStmtInner(toks, old(State())).s
              && st == Spec.ParseStmtInner(toks, old(State())).v
      decreases |toks| - pos, 23
    {
      var k := Cur();
      if k == LBRACE {
        var b := ParseBlock();
        st := Block(b);
      } else if k == KW_LET {
        st := ParseVar();
      } else if k == KW_IF {
        st := ParseIf();
      } else if k == KW_WHILE {
        st := ParseWhile();
      } else if k == KW_MATCH {
        st := ParseMatch();
      } else if k == KW_RETURN {
        st := ParseReturn();
      } else if k == KW_BREAK {
        var _ := Advance();
        var _ := Expect(SEMI);
        st := Break;
      } else if k == KW_CONTINUE {
        var _ := Advance();
        var _ := Expect(SEMI);
        st := Continue;
      } else if k == SEMI {
        var _ := Advance();
        st := Empty;
      } else {
        st := ParseExprStmt();
      }
    }

    method ParseDeclarator() returns (d: Option<Param>)
      requires Valid()
      modifies this
      ensures Valid() && State() == Spec.ParseDeclarator(toks, old(State())).s
              && d == Spec.ParseDeclarator(toks, old(State())).v
    {
      var isMut := Accept(KW_MUT);
      var t := ParseType();
      if t == NoType {
        return None;
      }
      var name := ExpectIdent();
      d := if name.None? then None else Some(Param(isMut, t, name.value));
    }

    method ParseVar() returns (st: Stmt)
      requires Valid() && Cur() == KW_LET
      modifies this
      ensures Valid() && State() == Spec.ParseVar(toks, old(State())).s && st == Spec.ParseVar(toks, old(State())).v
    {
      var _ := Advance();
      var d := ParseDeclarator();
      if d.None? {
        return NoStmt;
      }
      var init := None;
      var hasInit := Accept(EQ);
      if hasInit {
        var e := ParseExpr();
        init := Some(e);
      }
      var _ := Expect(SEMI);
      st := Var(d.value.isMut, d.value.ty, d.value.name, init);
    }

    method ParseIf() returns (st: Stmt)
      requires Valid() && Cur() == KW_IF
      modifies this
      ensures Valid() && State() == Spec.ParseIf(toks, old(State())).s && st == Spec.ParseIf(toks, old(State())).v
      decreases |toks| - pos, 17
    {
      var _ := Advance();
      var cond := ParseExpr();
      var thn := ParseBlock();
      var els := ParseElse();
      st := If(cond, thn, els);
    }

    method ParseElse() returns (els: Option<Stmt>)
      requires Valid()
      modifies this
      ensures Valid() && State() == Spec.ParseElse(toks, old(State())).s && els == Spec.ParseElse(toks, old(State())).v
      decreases |toks| - pos, 22
    {
      els := None;
      var more := Accept(KW_ELSE);
      if more {
        if Cur() == KW_IF {
          var st := ParseIf();
          els := Some(st);
        } else if Cur() == LBRACE {
          var b := ParseBlock();
          els := Some(Block(b));
        } else {
          ErrorUnexpected();
        }
      }
    }

    method ParseWhile() returns (st: Stmt)
      requires Valid() && Cur() == KW_WHILE
      modifies this
      ensures Valid() && State() == Spec.ParseWhile(toks, old(State())).s && st == Spec.ParseWhile(toks, old(State())).v
      decreases |toks| - pos, 17
    {
      var _ := Advance();
      var cond := ParseExpr();
      var body := ParseBlock();
      st := While(cond, body);
    }

    method ParseMatch() returns (st: Stmt)
      requires Valid() && Cur() == KW_MATCH
      modifies this
      ensures Valid() && State() == Spec.ParseMatch(toks, old(State())).s && st == Spec.ParseMatch(toks, old(State())).v
      decreases |toks| - pos, 17
    {
      var _ := Advance();
      var scrutinee := ParseExpr();
      var open := Expect(LBRACE);
      if !open {
        return Match(scrutinee, []);
      }
      var arms := ParseArms();
      var _ := Expect(RBRACE);
      st := Match(scrutinee, arms);
    }

    method ParseArms() returns (arms: seq<Arm>)
      requires Valid()
      modifies this
      ensures Valid() && State() == Spec.ParseArms(toks, old(State())).s && arms == Spec.ParseArms(toks, old(State())).v
      decreases |toks| - pos, 26
    {
      hide Spec.ParseArm, Spec.SyncStmt, Spec.Forced, Spec.ErrorTokens, Spec.SkipErrors;
      arms := [];
      while Cur() != RBRACE && Cur() != EOF
        invariant Valid() && old(pos) <= pos
        invariant Spec.ParseArms(toks, old(State())).s == Spec.ParseArms(toks, State()).s
        invariant Spec.ParseArms(toks, old(State())).v == arms + Spec.ParseArms(toks, State()).v
        decreases |toks| - pos
      {
        ghost var before := State();
        ghost var had := arms;
        ghost var r := Spec.ParseArm(toks, before);
        ghost var rest := Spec.ParseArms(toks, before).v;
        var mark := pos;
        var a := ParseArm();
        if a.Some? {
          arms := arms + [a.value];
        } else {
          SyncStmt();
        }
        Force(mark);
        assert State() == Spec.NextArm(toks, before, r);
        assert rest == (if a.None? then [] else [a.value]) + Spec.ParseArms(toks, State()).v;
        assert had + rest == arms + Spec.ParseArms(toks, State()).v;
      }
    }

    method ParseArm() returns (arm: Option<Arm>)
      requires Valid()
      modifies this
      ensures Valid() && State() == Spec.ParseArm(toks, old(State())).s && arm == Spec.ParseArm(toks, old(State())).v
      decreases |toks| - pos, 25
    {
      var labels := ParseLabels();
      if labels.None? {
        return None;
      }
      var arrow := Expect(FAT_ARROW);
      if !arrow {
        return None;
      }
      var body := ParseStmt();
      arm := if body == NoStmt then None else Some(Arm(labels.value, body));
    }

    /** None when a label is missing: the ones read so far are dropped. */
    method ParseLabels() returns (labels: Option<seq<Option<Expr>>>)
      requires Valid()
      modifies this
      ensures Valid() && State() == Spec.ParseLabels(toks, old(State())).s
              && labels == Spec.ParseLabels(toks, old(State())).v
    {
      var read := [];
      var more := true;
      PrefixedByNothing(Spec.ParseLabels(toks, State()).v);
      while more
        invariant Valid()
        invariant more ==> Spec.ParseLabels(toks, old(State())).s == Spec.ParseLabels(toks, State()).s
        invariant more ==> Spec.ParseLabels(toks, old(State())).v == Prefixed(read, Spec.ParseLabels(toks, State()).v)
        invariant !more ==> Spec.ParseLabels(toks, old(State())) == Spec.Res(State(), Some(read))
        decreases more, |toks| - pos
      {
        if !Spec.StartsLabel(Cur()) {
          ErrorUnexpected();
          return None;
        }
        ghost var rest := Spec.ParseLabels(toks, State()).v;
        ghost var had := read;
        var t := Advance();
        read := read + [Spec.LabelOf(t)];
        more := Accept(COMMA);
        if more {
          assert rest == Prefixed([Spec.LabelOf(t)], Spec.ParseLabels(toks, State()).v);
          PrefixedTwice(had, [Spec.LabelOf(t)], Spec.ParseLabels(toks, State()).v);
        }
      }
      labels := Some(read);
    }

    static function Prefixed<T>(a: seq<T>, b: Option<seq<T>>): Option<seq<T>> {
      if b.None? then None else Some(a + b.value)
    }

    static lemma PrefixedByNothing<T>(c: Option<seq<T>>)
      ensures Prefixed([], c) == c
    {
      if c.Some? {
        assert [] + c.value == c.value;
      }
    }

    static lemma PrefixedTwice<T>(a: seq<T>, b: seq<T>, c: Option<seq<T>>)
      ensures Prefixed(a, Prefixed(b, c)) == Prefixed(a + b, c)
    {
      if c.Some? {
        assert a + (b + c.value) == a + b + c.value;
      }
    }

    method ParseReturn() returns (st: Stmt)
      requires Valid() && Cur() == KW_RETURN
      modifies this
      ensures Valid() && State() == Spec.ParseReturn(toks, old(State())).s
              && st == Spec.ParseReturn(toks, old(State())).v
    {
      var _ := Advance();
      var value := None;
      if Cur() != SEMI {
        var e := ParseExpr();
        value := Some(e);
      }
      var _ := Expect(SEMI);
      st := Return(value);
    }

    method ParseExprStmt() returns (st: Stmt)
      requires Valid()
      modifies this
      ensures Valid() && State() == Spec.ParseExprStmt(toks, old(State())).s
              && st == Spec.ParseExprStmt(toks, old(State())).v
    {
      var e := ParseExpr();
      if e == NoExpr {
        return NoStmt;
      }
      if Spec.IsAssignOp(Cur()) {
        var op := Advance();
        var rhs := ParseExpr();
        st := Assign(e, op.kind, rhs);
      } else {
        st := ExprStmt(e);
      }
      var _ := Expect(SEMI);
    }

    // ----------------------------------------------------------------- items

    method ParseFnDecl(isExtern: bool) returns (fn: Option<FnDecl>)
      requires Valid()
      modifies this
      ensures Valid() && State() == Spec.ParseFnDecl(toks, old(State()), isExtern).s
              && fn == Spec.ParseFnDecl(toks, old(State()), isExtern).v
    {
      var ok := Expect(KW_FN);
      if !ok {
        return None;
      }
      var name := ExpectIdent();
      if name.None? {
        return None;
      }
      var params := ParseParamList(isExtern);
      if params.None? {
        return None;
      }
      fn := ParseFnRest(name.value, params.value, isExtern);
    }

    method ParseParamList(isExtern: bool) returns (params: Option<Spec.Params>)
      requires Valid()
      modifies this
      ensures Valid() && State() == Spec.ParseParamList(toks, old(State()), isExtern).s
              && params == Spec.ParseParamList(toks, old(State()), isExtern).v
    {
      var open := Expect(LPAREN);
      if !open {
        return None;
      }
      params := Some(Spec.Params([], false));
      if Cur() != RPAREN {
        params := ParseParams(isExtern);
        if params.None? {
          return;
        }
      }
      var close := Expect(RPAREN);
      if !close {
        return None;
      }
    }

    static function Joined(a: seq<Param>, b: Option<Spec.Params>): Option<Spec.Params> {
      if b.None? then None else Some(Spec.Params(a + b.value.params, b.value.variadic))
    }

    static lemma JoinedToNothing(c: Option<Spec.Params>)
      ensures Joined([], c) == c
    {
      if c.Some? {
        assert [] + c.value.params == c.value.params;
      }
    }

    static lemma JoinedTwice(a: seq<Param>, b: seq<Param>, c: Option<Spec.Params>)
      ensures Joined(a, Joined(b, c)) == Joined(a + b, c)
    {
      if c.Some? {
        assert a + (b + c.value.params) == a + b + c.value.params;
      }
    }

    method ParseParams(isExtern: bool) returns (params: Option<Spec.Params>)
      requires Valid()
      modifies this
      ensures Valid() && State() == Spec.ParseParams(toks, old(State()), isExtern).s
              && params == Spec.ParseParams(toks, old(State()), isExtern).v
    {
      var read := [];
      var more := true;
      JoinedToNothing(Spec.ParseParams(toks, State(), isExtern).v);
      while more
        invariant Valid()
        invariant more ==>
                  Spec.ParseParams(toks, old(State()), isExtern).s
                  == Spec.ParseParams(toks, State(), isExtern).s
        invariant more ==>
                  Spec.ParseParams(toks, old(State()), isExtern).v
                  == Joined(read, Spec.ParseParams(toks, State(), isExtern).v)
        invariant !more ==>
                  Spec.ParseParams(toks, old(State()), isExtern)
                  == Spec.Res(State(), Some(Spec.Params(read, false)))
        decreases more, |toks| - pos
      {
        if Cur() == ELLIPSIS {
          var _ := Advance();
          if !isExtern {
            ErrorUnexpected();
          }
          assert read + [] == read;
          return Some(Spec.Params(read, isExtern));
        }
        ghost var rest := Spec.ParseParams(toks, State(), isExtern).v;
        ghost var had := read;
        var d := ParseDeclarator();
        if d.None? {
          return None;
        }
        read := read + [d.value];
        more := Accept(COMMA);
        if more {
          assert rest == Joined([d.value], Spec.ParseParams(toks, State(), isExtern).v);
          JoinedTwice(had, [d.value], Spec.ParseParams(toks, State(), isExtern).v);
        }
      }
      params := Some(Spec.Params(read, false));
    }

    method ParseFnRest(name: string, params: Spec.Params, isExtern: bool) returns (fn: Option<FnDecl>)
      requires Valid()
      modifies this
      ensures Valid() && State() == Spec.ParseFnRest(toks, old(State()), name, params, isExtern).s
      ensures fn == Spec.ParseFnRest(toks, old(State()), name, params, isExtern).v
    {
      var ret := CoreType(KW_VOID);
      var arrow := Accept(ARROW);
      if arrow {
        ret := ParseType();
        if ret == NoType {
          return None;
        }
      }
      if isExtern {
        var semi := Expect(SEMI);
        return if semi then Some(FnDecl(name, params.params, params.variadic, ret, None)) else None;
      }
      var body := ParseBlock();
      fn := Some(FnDecl(name, params.params, params.variadic, ret, Some(body)));
    }

    method ParseStruct() returns (it: Option<Item>)
      requires Valid() && Cur() == KW_STRUCT
      modifies this
      ensures Valid() && State() == Spec.ParseStruct(toks, old(State())).s
              && it == Spec.ParseStruct(toks, old(State())).v
    {
      var _ := Advance();
      var name := ExpectIdent();
      if name.None? {
        return None;
      }
      var open := Expect(LBRACE);
      if !open {
        return None;
      }
      var fields := ParseFields();
      var _ := Expect(RBRACE);
      it := Some(StructItem(name.value, fields));
    }

    method ParseField() returns (field: Option<Param>)
      requires Valid()
      modifies this
      ensures Valid() && State() == Spec.ParseField(toks, old(State())).s
              && field == Spec.ParseField(toks, old(State())).v
    {
      var t := ParseType();
      if t == NoType {
        return None;
      }
      var name := ExpectIdent();
      if name.None? {
        return None;
      }
      var semi := Expect(SEMI);
      field := if semi then Some(Param(false, t, name.value)) else None;
    }

    method ParseFields() returns (fields: seq<Param>)
      requires Valid()
      modifies this
      ensures Valid() && State() == Spec.ParseFields(toks, old(State())).s
              && fields == Spec.ParseFields(toks, old(State())).v
    {
      fields := [];
      while Cur() != RBRACE && Cur() != EOF
        invariant Valid()
        invariant Spec.ParseFields(toks, old(State())).s == Spec.ParseFields(toks, State()).s
        invariant Spec.ParseFields(toks, old(State())).v == fields + Spec.ParseFields(toks, State()).v
        decreases |toks| - pos
      {
        ghost var before := State();
        ghost var had := fields;
        ghost var r := Spec.ParseField(toks, before);
        ghost var rest := Spec.ParseFields(toks, before).v;
        var mark := pos;
        var f := ParseField();
        if f.Some? {
          fields := fields + [f.value];
        } else {
          SyncMember();
        }
        Force(mark);
        assert State() == Spec.NextMember(toks, before, r.s, r.v.None?);
        assert rest == (if f.None? then [] else [f.value]) + Spec.ParseFields(toks, State()).v;
        assert had + rest == fields + Spec.ParseFields(toks, State()).v;
      }
    }

    method ParseEnum() returns (it: Option<Item>)
      requires Valid() && Cur() == KW_ENUM
      modifies this
      ensures Valid() && State() == Spec.ParseEnum(toks, old(State())).s && it == Spec.ParseEnum(toks, old(State())).v
    {
      var _ := Advance();
      var base := KW_I32;
      var name := ExpectIdent();
      if name.None? {
        return None;
      }
      var colon := Accept(COLON);
      if colon {
        if IsCoreType(Cur()) {
          var t := Advance();
          base := t.kind;
        } else {
          ErrorUnexpected();
        }
      }
      var open := Expect(LBRACE);
      if !open {
        return None;
      }
      var members := ParseMembers();
      var _ := Expect(RBRACE);
      it := Some(EnumItem(name.value, base, members));
    }

    method ParseMembers() returns (members: seq<EnumMember>)
      requires Valid()
      modifies this
      ensures Valid() && State() == Spec.ParseMembers(toks, old(State())).s
              && members == Spec.ParseMembers(toks, old(State())).v
    {
      hide Spec.SyncMember, Spec.ParseMemberValue, Spec.ErrorTokens, Spec.SkipErrors, Spec.Forced, Spec.ExpectIdent,
          Spec.Advance;
      members := [];
      while Cur() != RBRACE && Cur() != EOF
        invariant Valid()
        invariant Spec.ParseMembers(toks, old(State())).s == Spec.ParseMembers(toks, State()).s
        invariant Spec.ParseMembers(toks, old(State())).v == members + Spec.ParseMembers(toks, State()).v
        decreases |toks| - pos
      {
        ghost var had := members;
        ghost var rest := Spec.ParseMembers(toks, State()).v;
        var mark := pos;
        var name := ExpectIdent();
        if name.None? {
          SyncMember();
          Force(mark);
        } else {
          var value := ParseMemberValue();
          var m := EnumMember(name.value, value);
          members := members + [m];
          var comma := Accept(COMMA);
          if !comma {
            return; // the last member may lack its comma
          }
          assert rest == [m] + Spec.ParseMembers(toks, State()).v;
          assert had + rest == members + Spec.ParseMembers(toks, State()).v;
        }
      }
    }

    method ParseMemberValue() returns (value: Option<nat>)
      requires Valid()
      modifies this
      ensures Valid() && State() == Spec.ParseMemberValue(toks, old(State())).s
              && value == Spec.ParseMemberValue(toks, old(State())).v
    {
      value := None;
      var eq := Accept(EQ);
      if eq {
        if Cur() == INT {
          var t := Advance();
          value := Some(t.value);
        } else {
          ErrorUnexpected();
        }
      }
    }

    method ParseGlobal() returns (it: Option<Item>)
      requires Valid() && Cur() == KW_LET
      modifies this
      ensures Valid() && State() == Spec.ParseGlobal(toks, old(State())).s
              && it == Spec.ParseGlobal(toks, old(State())).v
    {
      var _ := Advance();
      var d := ParseDeclarator();
      if d.None? {
        return None;
      }
      var init := None;
      var hasInit := Accept(EQ);
      if hasInit {
        var e := ParseLiteral();
        if e == NoExpr {
          return None;
        }
        init := Some(e);
      }
      var _ := Expect(SEMI);
      it := Some(GlobalItem(d.value.isMut, d.value.ty, d.value.name, init));
    }

    method ParseExtern() returns (it: Option<Item>)
      requires Valid() && Cur() == KW_EXTERN
      modifies this
      ensures Valid() && State() == Spec.ParseExtern(toks, old(State())).s
              && it == Spec.ParseExtern(toks, old(State())).v
    {
      var _ := Advance();
      if Cur() != STRING {
        ErrorUnexpected();
        return None;
      }
      var abi := Advance();
      var open := Expect(LBRACE);
      if !open {
        return None;
      }
      var fns := ParseExternFns();
      var _ := Expect(RBRACE);
      it := Some(ExternItem(abi.str, fns));
    }

    method ParseExternFns() returns (fns: seq<FnDecl>)
      requires Valid()
      modifies this
      ensures Valid() && State() == Spec.ParseExternFns(toks, old(State())).s
              && fns == Spec.ParseExternFns(toks, old(State())).v
    {
      hide WholeExterns, WholeFn, Spec.ParseFnDecl, Spec.SyncMember, Spec.Forced, Spec.ErrorTokens;
      fns := [];
      while Cur() != RBRACE && Cur() != EOF
        invariant Valid()
        invariant Spec.ParseExternFns(toks, old(State())).s == Spec.ParseExternFns(toks, State()).s
        invariant Spec.ParseExternFns(toks, old(State())).v == fns + Spec.ParseExternFns(toks, State()).v
        decreases |toks| - pos
      {
        ghost var before := State();
        ghost var had := fns;
        ghost var r := Spec.ParseFnDecl(toks, before, true);
        ghost var rest := Spec.ParseExternFns(toks, before).v;
        var mark := pos;
        var f := ParseFnDecl(true);
        if f.Some? {
          fns := fns + [f.value];
        } else {
          SyncMember();
        }
        Force(mark);
        assert State() == Spec.NextMember(toks, before, r.s, r.v.None?);
        assert rest == (if f.None? then [] else [f.value]) + Spec.ParseExternFns(toks, State()).v;
        assert had + rest == fns + Spec.ParseExternFns(toks, State()).v;
      }
    }

    method ParseItem() returns (it: Option<Item>)
      requires Valid()
      modifies this
      ensures Valid() && State() == Spec.ParseItem(toks, old(State())).s && it == Spec.ParseItem(toks, old(State())).v
    {
      var k := Cur();
      if k == KW_FN {
        var f := ParseFnDecl(false);
        it := if f.None? then None else Some(FnItem(f.value));
      } else if k == KW_STRUCT {
        it := ParseStruct();
      } else if k == KW_ENUM {
        it := ParseEnum();
      } else if k == KW_LET {
        it := ParseGlobal();
      } else if k == KW_EXTERN {
        it := ParseExtern();
      } else {
        ErrorUnexpected();
        it := None;
      }
    }

    method ParseItems() returns (items: seq<Item>)
      requires Valid()
      modifies this
      ensures Valid() && State() == Spec.ParseItems(toks, old(State())).s
              && items == Spec.ParseItems(toks, old(State())).v
    {
      hide WholeItems, WholeItem, Spec.ParseItem, Spec.SyncItem, Spec.Forced, Spec.ErrorTokens;
      items := [];
      while Cur() != EOF
        invariant Valid()
        invariant Spec.ParseItems(toks, old(State())).s == Spec.ParseItems(toks, State()).s
        invariant Spec.ParseItems(toks, old(State())).v == items + Spec.ParseItems(toks, State()).v
        decreases |toks| - pos
      {
        ghost var before := State();
        ghost var had := items;
        ghost var r := Spec.ParseItem(toks, before);
        ghost var rest := Spec.ParseItems(toks, before).v;
        var mark := pos;
        var it := ParseItem();
        if it.Some? {
          items := items + [it.value];
        } else {
          SyncItem();
        }
        Force(mark);
        assert State() == Spec.NextItem(toks, before, r);
        assert rest == (if it.None? then [] else [it.value]) + Spec.ParseItems(toks, State()).v;
        assert had + rest == items + Spec.ParseItems(toks, State()).v;
      }
    }
  }

  /** Parses a whole program and counts the errors. */
  method ParseProgram(toks: Spec.Input) returns (items: seq<Item>, errors: nat)
    ensures items == Spec.ParseProgram(toks).v && errors == Spec.Errors(Spec.ParseProgram(toks).s)
    ensures errors == 0 ==> WholeItems(items)
  {
    hide WholeItems, WholeItem, Spec.ParseItems, Spec.Steady, Spec.ErrorTokens, Spec.SkipErrors;
    var p := new Parser(toks);
    items := p.ParseItems();
    errors := p.lexical + p.syntax;
  }
}
