/** The second parser's routines, on the cursor and the error count they update.
    Each does what its function in Stage1Parsing.dfy says. */
module Stage1ParserClass {
  import opened Words
  import opened Tokens
  import opened Syntax
  import C = Parsing
  import Spec = Stage1Parsing
  import TwinParsers
  import ParserClass

  class Parser {
    const toks: C.Input
    var pos: nat
    var errors: nat

    ghost predicate Valid()
      reads this
    {
      pos < |toks|
    }

    ghost function State(): Spec.State
      reads this
    {
      Spec.State(pos, errors)
    }

    constructor (toks: C.Input)
      ensures Valid() && this.toks == toks && State() == Spec.State(0, 0)
    {
      this.toks := toks;
      pos, errors := 0, 0;
    }

    // ---------------------------------------------------------- token access

    function Cur(): Token
      requires pos < |toks|
      reads this
    {
      toks[pos]
    }

    predicate At(kind: Kind)
      requires pos < |toks|
      reads this
    {
      Cur().kind == kind
    }

    method Advance()
      requires Valid()
      modifies `pos
      ensures Valid() && State() == Spec.Advance(toks, old(State()))
    {
      if pos + 1 < |toks| {
        pos := pos + 1;
      }
    }

    method ParseError()
      modifies `errors
      ensures State() == Spec.Report(old(State()))
    {
      errors := errors + 1;
    }

    method Accept(kind: Kind) returns (ok: bool)
      requires Valid()
      modifies `pos
      ensures Valid() && ok == old(At(kind))
      ensures State() == if ok then Spec.Advance(toks, old(State())) else old(State())
    {
      ok := At(kind);
      if ok {
        Advance();
      }
    }

    method Expect(kind: Kind) returns (ok: bool)
      requires Valid()
      modifies this
      ensures Valid() && State() == Spec.Expect(toks, old(State()), kind) && ok == old(At(kind))
    {
      ok := Accept(kind);
      if !ok {
        ParseError();
      }
    }

    // ----------------------------------------------------------------- types

    method ParseType() returns (base: Type)
      requires Valid()
      modifies this
      ensures Valid() && State() == Spec.ParseType(toks, old(State())).s && base == Spec.ParseType(toks, old(State())).v
    {
      var t := Cur();
      if IsCoreType(t.kind) {
        base := CoreType(t.kind);
        Advance();
      } else {
        if t.kind == IDENT {
          base := NamedType(t.text);
          Advance();
        } else {
          ParseError();
          return NoType;
        }
      }
      var more := true;
      while more
        invariant Valid()
        invariant more ==> Spec.TypeSuffixes(toks, State(), base) == Spec.ParseType(toks, old(State()))
        invariant !more ==> Spec.Res(State(), base) == Spec.ParseType(toks, old(State()))
        decreases more, |toks| - pos
      {
        if At(STAR) {
          Advance();
          base := PointerType(base);
        } else {
          if At(LBRACKET) {
            Advance();
            if !At(INT) {
              ParseError();
              return NoType;
            }
            base := ArrayType(base, Cur().value);
            Advance();
            var _ := Expect(RBRACKET);
          } else {
            more := false;
          }
        }
      }
    }

    // ----------------------------------------------------------- expressions

    method ParsePrimary() returns (e: Expr)
      requires Valid()
      modifies this
      ensures Valid() && State() == Spec.ParsePrimary(toks, old(State())).s
              && e == Spec.ParsePrimary(toks, old(State())).v
      decreases |toks| - pos, 0
    {
      hide Spec.ParseExpr;
      var t := Cur();
      if t.kind == INT || t.kind == CHAR {
        e := if t.kind == CHAR then CharLit(t.value) else IntLit(t.value);
        Advance();
        return;
      }
      if t.kind == FLOAT {
        e := FloatLit(t.float);
        Advance();
        return;
      }
      if t.kind == KW_TRUE || t.kind == KW_FALSE {
        e := BoolLit(t.kind == KW_TRUE);
        Advance();
        return;
      }
      if t.kind == KW_NULL {
        e := NullLit;
        Advance();
        return;
      }
      if t.kind == STRING {
        e := StringLit(t.str);
        Advance();
        return;
      }
      if t.kind == IDENT {
        e := Name(t.text);
        Advance();
        return;
      }
      if t.kind == LPAREN {
        Advance();
        e := ParseExpr();
        var _ := Expect(RPAREN);
        return;
      }
      ParseError();
      e := NoExpr;
    }

    method ParsePostfix() returns (e: Expr)
      requires Valid()
      modifies this
      ensures Valid() && State() == Spec.ParsePostfix(toks, old(State())).s
              && e == Spec.ParsePostfix(toks, old(State())).v
      decreases |toks| - pos, 2
    {
      hide Spec.ParseExpr, Spec.ParsePrimary, Spec.ParseArgs, Spec.ParseBracketedType;
      e := ParsePrimary();
      if e == NoExpr {
        return;
      }
      var more := true;
      while more
        invariant Valid() && old(pos) <= pos
        invariant more ==> Spec.PostfixOps(toks, State(), e) == Spec.ParsePostfix(toks, old(State()))
        invariant !more ==> Spec.Res(State(), e) == Spec.ParsePostfix(toks, old(State()))
        decreases more, |toks| - pos
      {
        if At(LPAREN) {
          Advance();
          var args := ParseArgs();
          var _ := Expect(RPAREN);
          e := Call(e, args);
        } else {
          if At(LBRACKET) {
            Advance();
            var i := ParseExpr();
            var _ := Expect(RBRACKET);
            e := Index(e, i);
          } else {
            if At(DOT) {
              Advance();
              if At(KW_AS) {
                Advance();
                var t := ParseBracketedType();
                e := Cast(e, t);
              } else {
                if !At(IDENT) {
                  ParseError();
                  return NoExpr;
                }
                e := Field(e, Some(Cur().text));
                Advance();
              }
            } else {
              more := false;
            }
          }
        }
      }
    }

    /** `( Type )`, after `.as` and `sizeof`. */
    method ParseBracketedType() returns (t: Type)
      requires Valid()
      modifies this
      ensures Valid() && State() == Spec.ParseBracketedType(toks, old(State())).s
              && t == Spec.ParseBracketedType(toks, old(State())).v
    {
      var _ := Expect(LPAREN);
      t := ParseType();
      var _ := Expect(RPAREN);
    }

    /** The arguments of a call, up to the closing parenthesis. */
    method ParseArgs() returns (args: seq<Expr>)
      requires Valid()
      modifies this
      ensures Valid() && State() == Spec.ParseArgs(toks, old(State())).s && args == Spec.ParseArgs(toks, old(State())).v
      decreases |toks| - pos, 17
    {
      hide Spec.ParseExpr;
      args := [];
      if At(RPAREN) {
        return;
      }
      var scanning := true;
      while scanning
        invariant Valid() && old(pos) <= pos
        invariant scanning ==> Spec.ParseArgs(toks, old(State())).s == Spec.ParseArgList(toks, State()).s
        invariant scanning ==> Spec.ParseArgs(toks, old(State())).v == args + Spec.ParseArgList(toks, State()).v
        invariant !scanning ==> Spec.ParseArgs(toks, old(State())) == Spec.Res(State(), args)
        decreases scanning, |toks| - pos
      {
        ghost var rest, had := Spec.ParseArgList(toks, State()).v, args;
        var e := ParseExpr();
        args := args + [e];
        scanning := Accept(COMMA);
        assert scanning ==>
               had + ([e] + Spec.ParseArgList(toks, State()).v)
               == args + Spec.ParseArgList(toks, State()).v;
      }
    }

    method ParseUnary() returns (e: Expr)
      requires Valid()
      modifies this
      ensures Valid() && State() == Spec.ParseUnary(toks, old(State())).s && e == Spec.ParseUnary(toks, old(State())).v
      decreases |toks| - pos, 3
    {
      hide Spec.ParsePostfix, Spec.ParseBracketedType;
      var k := Cur().kind;
      if C.IsUnaryOp(k) {
        Advance();
        var operand := ParseUnary();
        return Unary(k, operand);
      }
      if k == KW_SIZEOF {
        Advance();
        var t := ParseBracketedType();
        return SizeOf(t);
      }
      e := ParsePostfix();
    }

    /** One level of the ladder; the ten routines differ only in their operators. */
    method ParseLevel(level: nat) returns (lhs: Expr)
      requires Valid() && level <= 10
      modifies this
      ensures Valid() && State() == Spec.ParseLevel(toks, old(State()), level).s
              && lhs == Spec.ParseLevel(toks, old(State()), level).v
      decreases |toks| - pos, 14 - level
    {
      hide C.IsOp, Spec.ParseUnary;
      if level == 10 {
        lhs := ParseUnary();
        return;
      }
      lhs := ParseLevel(level + 1);
      while C.IsOp(level, Cur().kind)
        invariant Valid() && old(pos) <= pos
        invariant Spec.LevelOps(toks, State(), level, lhs) == Spec.ParseLevel(toks, old(State()), level)
        decreases |toks| - pos
      {
        var op := Cur().kind;
        OpIsToken(level, op);
        Advance();
        var rhs := ParseLevel(level + 1);
        lhs := Binary(op, lhs, rhs);
      }
    }

    method ParseExpr() returns (e: Expr)
      requires Valid()
      modifies this
      ensures Valid() && State() == Spec.ParseExpr(toks, old(State())).s && e == Spec.ParseExpr(toks, old(State())).v
      decreases |toks| - pos, 15
    {
      e := ParseLevel(0);
    }

    // ------------------------------------------------------------ statements

    method ParseBlock() returns (b: Stmt)
      requires Valid()
      modifies this
      ensures Valid() && State() == Spec.ParseBlock(toks, old(State())).s && b == Spec.ParseBlock(toks, old(State())).v
      decreases |toks| - pos, 18
    {
      hide Spec.ParseStmt, Spec.ParseStmts;
      var ok := Expect(LBRACE);
      if !ok {
        return NoStmt;
      }
      var stmts := [];
      ghost var start := State();
      while !At(RBRACE) && !At(EOF) && errors == 0
        invariant Valid() && old(pos) < pos
        invariant Spec.ParseStmts(toks, start).s == Spec.ParseStmts(toks, State()).s
        invariant Spec.ParseStmts(toks, start).v == stmts + Spec.ParseStmts(toks, State()).v
        decreases errors == 0, |toks| - pos
      {
        ghost var had := stmts;
        OneMoreStmt(toks, State());
        var st := ParseStmt();
        stmts := stmts + [st];
        assert had + ([st] + Spec.ParseStmts(toks, State()).v) == stmts + Spec.ParseStmts(toks, State()).v;
      }
      NoMoreStmts(toks, State());
      var _ := Expect(RBRACE);
      b := Block(stmts);
    }

    method ParseDeclarator() returns (d: Spec.Declarator)
      requires Valid()
      modifies this
      ensures Valid() && State() == Spec.ParseDeclarator(toks, old(State())).s
              && d == Spec.ParseDeclarator(toks, old(State())).v
    {
      var isMut := Accept(KW_MUT);
      var t := ParseType();
      if At(IDENT) {
        d := Spec.Declarator(Param(isMut, t, Cur().text), true);
        Advance();
      } else {
        ParseError();
        d := Spec.Declarator(Param(isMut, t, ""), false);
      }
    }

    method ParseInit() returns (init: Option<Expr>)
      requires Valid()
      modifies this
      ensures Valid() && State() == Spec.ParseInit(toks, old(State())).s && init == Spec.ParseInit(toks, old(State())).v
      decreases |toks| - pos, 16
    {
      hide Spec.ParseExpr;
      init := None;
      var eq := Accept(EQ);
      if eq {
        var e := ParseExpr();
        init := Some(e);
      }
    }

    method ParseVar() returns (v: Stmt)
      requires Valid()
      modifies this
      ensures Valid() && State() == Spec.ParseVar(toks, old(State())).s && v == Spec.ParseVar(toks, old(State())).v
      decreases |toks| - pos, 17
    {
      hide Spec.ParseDeclarator, Spec.ParseInit;
      var d := ParseDeclarator();
      if !d.named {
        return Var(d.param.isMut, d.param.ty, d.param.name, None);
      }
      var init := ParseInit();
      var _ := Expect(SEMI);
      v := Var(d.param.isMut, d.param.ty, d.param.name, init);
    }

    method ParseMatch() returns (m: Stmt)
      requires Valid()
      modifies this
      ensures Valid() && State() == Spec.ParseMatch(toks, old(State())).s && m == Spec.ParseMatch(toks, old(State())).v
      decreases |toks| - pos, 25
    {
      hide Spec.ParseExpr, Spec.ParseArms;
      var e := ParseExpr();
      var _ := Expect(LBRACE);
      var arms := ParseArms();
      var _ := Expect(RBRACE);
      m := Match(e, arms);
    }

    method ParseArms() returns (arms: seq<Arm>)
      requires Valid()
      modifies this
      ensures Valid() && State() == Spec.ParseArms(toks, old(State())).s && arms == Spec.ParseArms(toks, old(State())).v
      decreases |toks| - pos, 24
    {
      hide Spec.ParseLabels, Spec.ParseStmt, Spec.ParseArms;
      arms := [];
      while !At(RBRACE) && !At(EOF) && errors == 0
        invariant Valid() && old(pos) <= pos
        invariant Spec.ParseArms(toks, old(State())).s == Spec.ParseArms(toks, State()).s
        invariant Spec.ParseArms(toks, old(State())).v == arms + Spec.ParseArms(toks, State()).v
        decreases errors == 0, |toks| - pos
      {
        ghost var had := arms;
        OneMoreArm(toks, State());
        var labels := ParseLabels();
        var _ := Expect(FAT_ARROW);
        var body := ParseStmt();
        arms := arms + [Arm(labels, body)];
        assert had + ([Arm(labels, body)] + Spec.ParseArms(toks, State()).v) == arms + Spec.ParseArms(toks, State()).v;
      }
      NoMoreArms(toks, State());
    }

    /** An identifier spelled `_` is the wildcard; anything else is an expression. */
    method ParseLabel() returns (l: Option<Expr>)
      requires Valid()
      modifies this
      ensures Valid() && State() == Spec.ParseLabel(toks, old(State())).s && l == Spec.ParseLabel(toks, old(State())).v
      decreases |toks| - pos, 16
    {
      hide Spec.ParseExpr;
      if At(IDENT) && Cur().text == "_" {
        Advance();
        return None;
      }
      var e := ParseExpr();
      l := if e == NoExpr then None else Some(e);
    }

    method ParseLabels() returns (labels: seq<Option<Expr>>)
      requires Valid()
      modifies this
      ensures Valid() && State() == Spec.ParseLabels(toks, old(State())).s
              && labels == Spec.ParseLabels(toks, old(State())).v
      decreases |toks| - pos, 17
    {
      hide Spec.ParseLabel;
      labels := [];
      var scanning := true;
      while scanning
        invariant Valid() && old(pos) <= pos
        invariant scanning ==> Spec.ParseLabels(toks, old(State())).s == Spec.ParseLabels(toks, State()).s
        invariant scanning ==> Spec.ParseLabels(toks, old(State())).v == labels + Spec.ParseLabels(toks, State()).v
        invariant !scanning ==> Spec.ParseLabels(toks, old(State())) == Spec.Res(State(), labels)
        decreases scanning, |toks| - pos
      {
        ghost var had := labels;
        var l := ParseLabel();
        labels := labels + [l];
        scanning := Accept(COMMA);
        assert scanning ==>
               had + ([l] + Spec.ParseLabels(toks, State()).v)
               == labels + Spec.ParseLabels(toks, State()).v;
      }
    }

    method ParseStmt() returns (st: Stmt)
      requires Valid()
      modifies this
      ensures Valid() && State() == Spec.ParseStmt(toks, old(State())).s && st == Spec.ParseStmt(toks, old(State())).v
      decreases |toks| - pos, 20
    {
      hide Spec.ParseBlock, Spec.ParseVar, Spec.ParseMatch, Spec.ParseIf, Spec.ParseExpr, Spec.ParseReturn,
          Spec.ParseExprStmt;
      var k := Cur().kind;
      if k == LBRACE {
        st := ParseBlock();
        return;
      }
      if k == SEMI {
        Advance();
        return Empty;
      }
      if k == KW_LET {
        Advance();
        st := ParseVar();
        return;
      }
      if k == KW_MATCH {
        Advance();
        st := ParseMatch();
        return;
      }
      if k == KW_IF {
        Advance();
        st := ParseIf();
        return;
      }
      if k == KW_WHILE {
        Advance();
        var c := ParseExpr();
        var body := ParseBlock();
        return While(c, Spec.StmtsOf(body));
      }
      if k == KW_RETURN {
        Advance();
        st := ParseReturn();
        return;
      }
      if k == KW_BREAK {
        Advance();
        var _ := Expect(SEMI);
        return Break;
      }
      if k == KW_CONTINUE {
        Advance();
        var _ := Expect(SEMI);
        return Continue;
      }
      st := ParseExprStmt();
    }

    method ParseIf() returns (st: Stmt)
      requires Valid()
      modifies this
      ensures Valid() && State() == Spec.ParseIf(toks, old(State())).s && st == Spec.ParseIf(toks, old(State())).v
      decreases |toks| - pos, 23
    {
      hide Spec.ParseBlock, Spec.ParseStmt, Spec.ParseExpr;
      var c := ParseExpr();
      var thn := ParseBlock();
      var els := None;
      var other := Accept(KW_ELSE);
      if other {
        if At(KW_IF) {
          var e := ParseStmt();
          els := Some(e);
        } else {
          var b := ParseBlock();
          els := Some(b);
        }
      }
      st := If(c, Spec.StmtsOf(thn), els);
    }

    method ParseReturn() returns (st: Stmt)
      requires Valid()
      modifies this
      ensures Valid() && State() == Spec.ParseReturn(toks, old(State())).s
              && st == Spec.ParseReturn(toks, old(State())).v
      decreases |toks| - pos, 16
    {
      hide Spec.ParseExpr;
      var value := None;
      if !At(SEMI) {
        var e := ParseExpr();
        value := Some(e);
      }
      var _ := Expect(SEMI);
      st := Return(value);
    }

    method ParseExprStmt() returns (st: Stmt)
      requires Valid()
      modifies this
      ensures Valid() && State() == Spec.ParseExprStmt(toks, old(State())).s
              && st == Spec.ParseExprStmt(toks, old(State())).v
      decreases |toks| - pos, 16
    {
      hide Spec.ParseExpr, C.IsAssignOp;
      var lhs := ParseExpr();
      var op := Cur().kind;
      if C.IsAssignOp(op) {
        Advance();
        var rhs := ParseExpr();
        var _ := Expect(SEMI);
        return Assign(lhs, op, rhs);
      }
      var _ := Expect(SEMI);
      st := ExprStmt(lhs);
    }

    // ----------------------------------------------------------------- items

    method ParseFn(wantBody: bool) returns (f: FnDecl)
      requires Valid()
      modifies this
      ensures Valid() && State() == Spec.ParseFn(toks, old(State()), wantBody).s
              && f == Spec.ParseFn(toks, old(State()), wantBody).v
    {
      hide Spec.ParseParamList, Spec.ParseFnRest;
      if !At(IDENT) {
        ParseError();
        return FnDecl("", [], false, NoType, None);
      }
      var name := Cur().text;
      Advance();
      var params := ParseParamList();
      f := ParseFnRest(name, params, wantBody);
    }

    method ParseParamList() returns (params: C.Params)
      requires Valid()
      modifies this
      ensures Valid() && State() == Spec.ParseParamList(toks, old(State())).s
              && params == Spec.ParseParamList(toks, old(State())).v
    {
      hide Spec.ParseParams;
      params := C.Params([], false);
      var _ := Expect(LPAREN);
      if !At(RPAREN) {
        params := ParseParams();
      }
      var _ := Expect(RPAREN);
    }

    method ParseParams() returns (params: C.Params)
      requires Valid()
      modifies this
      ensures Valid() && State() == Spec.ParseParams(toks, old(State())).s
              && params == Spec.ParseParams(toks, old(State())).v
    {
      hide Spec.ParseDeclarator;
      var read := [];
      var scanning := true;
      NothingBefore(Spec.ParseParams(toks, State()).v);
      while scanning && errors == 0
        invariant Valid()
        invariant scanning ==> Spec.ParseParams(toks, old(State())).s == Spec.ParseParams(toks, State()).s
        invariant scanning ==> Spec.ParseParams(toks, old(State())).v == Behind(read, Spec.ParseParams(toks, State()).v)
        invariant !scanning ==> Spec.ParseParams(toks, old(State())) == Spec.Res(State(), C.Params(read, false))
        decreases scanning, errors == 0, |toks| - pos
      {
        if At(ELLIPSIS) {
          Advance();
          assert read + [] == read;
          return C.Params(read, true);
        }
        ghost var had, rest := read, Spec.ParseParams(toks, State()).v;
        var d := ParseDeclarator();
        read := read + [d.param];
        scanning := Accept(COMMA);
        if scanning {
          assert rest == Behind([d.param], Spec.ParseParams(toks, State()).v);
          BehindTwice(had, [d.param], Spec.ParseParams(toks, State()).v);
        }
      }
      assert read + [] == read;
      params := C.Params(read, false);
    }

    method ParseFnRest(name: string, params: C.Params, wantBody: bool) returns (f: FnDecl)
      requires Valid()
      modifies this
      ensures Valid() && State() == Spec.ParseFnRest(toks, old(State()), name, params, wantBody).s
              && f == Spec.ParseFnRest(toks, old(State()), name, params, wantBody).v
    {
      hide Spec.ParseBlock, Spec.ParseType;
      var ret := CoreType(KW_VOID);
      var arrow := Accept(ARROW);
      if arrow {
        ret := ParseType();
      }
      var body := None;
      if wantBody {
        var b := ParseBlock();
        body := Some(Spec.StmtsOf(b));
      } else {
        var _ := Expect(SEMI);
      }
      f := FnDecl(name, params.params, params.variadic, ret, body);
    }

    method ParseItem() returns (it: Option<Item>)
      requires Valid()
      modifies this
      ensures Valid() && State() == Spec.ParseItem(toks, old(State())).s && it == Spec.ParseItem(toks, old(State())).v
    {
      hide Spec.ParseFn, Spec.ParseStruct, Spec.ParseEnum, Spec.ParseGlobal, Spec.ParseExtern;
      var k := Cur().kind;
      if k == KW_FN {
        Advance();
        var f := ParseFn(true);
        return Some(FnItem(f));
      }
      if k == KW_STRUCT {
        Advance();
        it := ParseStruct();
        return;
      }
      if k == KW_ENUM {
        Advance();
        it := ParseEnum();
        return;
      }
      if k == KW_LET {
        Advance();
        it := ParseGlobal();
        return;
      }
      if k == KW_EXTERN {
        Advance();
        it := ParseExtern();
        return;
      }
      ParseError();
      it := None;
    }

    method ParseStruct() returns (it: Option<Item>)
      requires Valid()
      modifies this
      ensures Valid() && State() == Spec.ParseStruct(toks, old(State())).s
              && it == Spec.ParseStruct(toks, old(State())).v
    {
      hide Spec.ParseFields;
      if !At(IDENT) {
        ParseError();
        return Some(StructItem("", []));
      }
      var name := Cur().text;
      Advance();
      var _ := Expect(LBRACE);
      var fields := ParseFields();
      var _ := Expect(RBRACE);
      it := Some(StructItem(name, fields));
    }

    method ParseFields() returns (fields: seq<Param>)
      requires Valid()
      modifies this
      ensures Valid() && State() == Spec.ParseFields(toks, old(State())).s
              && fields == Spec.ParseFields(toks, old(State())).v
    {
      hide Spec.ParseField;
      fields := [];
      while !At(RBRACE) && !At(EOF) && errors == 0
        invariant Valid()
        invariant Spec.ParseFields(toks, old(State())).s == Spec.ParseFields(toks, State()).s
        invariant Spec.ParseFields(toks, old(State())).v == fields + Spec.ParseFields(toks, State()).v
        decreases errors == 0, |toks| - pos
      {
        ghost var had := fields;
        var f := ParseField();
        fields := fields + [f];
        assert had + ([f] + Spec.ParseFields(toks, State()).v) == fields + Spec.ParseFields(toks, State()).v;
      }
    }

    method ParseField() returns (f: Param)
      requires Valid()
      modifies this
      ensures Valid() && State() == Spec.ParseField(toks, old(State())).s && f == Spec.ParseField(toks, old(State())).v
    {
      hide Spec.ParseType;
      var t := ParseType();
      f := Param(false, t, "");
      if At(IDENT) {
        f := Param(false, t, Cur().text);
        Advance();
      } else {
        ParseError();
      }
      var _ := Expect(SEMI);
    }

    method ParseEnum() returns (it: Option<Item>)
      requires Valid()
      modifies this
      ensures Valid() && State() == Spec.ParseEnum(toks, old(State())).s && it == Spec.ParseEnum(toks, old(State())).v
    {
      hide Spec.ParseMembers;
      if !At(IDENT) {
        ParseError();
        return Some(EnumItem("", KW_I32, []));
      }
      var name := Cur().text;
      Advance();
      var base := KW_I32;
      var colon := Accept(COLON);
      if colon {
        base := Cur().kind;
        Advance();
      }
      var _ := Expect(LBRACE);
      var members := ParseMembers();
      var _ := Expect(RBRACE);
      it := Some(EnumItem(name, base, members));
    }

    method ParseMembers() returns (members: seq<EnumMember>)
      requires Valid()
      modifies this
      ensures Valid() && State() == Spec.ParseMembers(toks, old(State())).s
              && members == Spec.ParseMembers(toks, old(State())).v
    {
      hide Spec.ParseMemberValue, Spec.ParseMembers;
      members := [];
      while !At(RBRACE) && !At(EOF) && errors == 0
        invariant Valid()
        invariant Spec.ParseMembers(toks, old(State())).s == Spec.ParseMembers(toks, State()).s
        invariant Spec.ParseMembers(toks, old(State())).v == members + Spec.ParseMembers(toks, State()).v
        decreases |toks| - pos
      {
        ghost var had := members;
        OneMoreMember(toks, State());
        if !At(IDENT) {
          ParseError();
        }
        var name := Cur().text;
        Advance();
        var value := ParseMemberValue();
        members := members + [EnumMember(name, value)];
        var comma := Accept(COMMA);
        if !comma {
          if !At(RBRACE) {
            ParseError();
          }
        }
        assert had + ([EnumMember(name, value)] + Spec.ParseMembers(toks, State()).v)
            == members + Spec.ParseMembers(toks, State()).v;
      }
      NoMoreMembers(toks, State());
    }

    method ParseMemberValue() returns (value: Option<nat>)
      requires Valid()
      modifies this
      ensures Valid() && State() == Spec.ParseMemberValue(toks, old(State())).s
              && value == Spec.ParseMemberValue(toks, old(State())).v
    {
      value := None;
      var eq := Accept(EQ);
      if eq {
        if !At(INT) {
          ParseError();
        }
        value := Some(Cur().value);
        Advance();
      }
    }

    method ParseGlobal() returns (it: Option<Item>)
      requires Valid()
      modifies this
      ensures Valid() && State() == Spec.ParseGlobal(toks, old(State())).s
              && it == Spec.ParseGlobal(toks, old(State())).v
    {
      hide Spec.ParseDeclarator, Spec.ParseInit;
      var d := ParseDeclarator();
      if !d.named {
        return Some(GlobalItem(d.param.isMut, d.param.ty, d.param.name, None));
      }
      var init := ParseInit();
      var _ := Expect(SEMI);
      it := Some(GlobalItem(d.param.isMut, d.param.ty, d.param.name, init));
    }

    method ParseExtern() returns (it: Option<Item>)
      requires Valid()
      modifies this
      ensures Valid() && State() == Spec.ParseExtern(toks, old(State())).s
              && it == Spec.ParseExtern(toks, old(State())).v
    {
      hide Spec.ParseExternFns;
      if !At(STRING) {
        ParseError();
        return Some(ExternItem("", []));
      }
      var abi := Cur().str;
      Advance();
      var _ := Expect(LBRACE);
      var fns := ParseExternFns();
      var _ := Expect(RBRACE);
      it := Some(ExternItem(abi, fns));
    }

    method ParseExternFns() returns (fns: seq<FnDecl>)
      requires Valid()
      modifies this
      ensures Valid() && State() == Spec.ParseExternFns(toks, old(State())).s
              && fns == Spec.ParseExternFns(toks, old(State())).v
    {
      hide Spec.ParseFn;
      fns := [];
      while !At(RBRACE) && !At(EOF) && errors == 0
        invariant Valid()
        invariant Spec.ParseExternFns(toks, old(State())).s == Spec.ParseExternFns(toks, State()).s
        invariant Spec.ParseExternFns(toks, old(State())).v == fns + Spec.ParseExternFns(toks, State()).v
        decreases |toks| - pos
      {
        ghost var had := fns;
        if !At(KW_FN) {
          ParseError();
        }
        Advance();
        var f := ParseFn(false);
        fns := fns + [f];
        assert had + ([f] + Spec.ParseExternFns(toks, State()).v) == fns + Spec.ParseExternFns(toks, State()).v;
      }
    }

    method ParseProgram() returns (items: seq<Option<Item>>)
      requires Valid()
      modifies this
      ensures Valid() && State() == Spec.ParseItems(toks, old(State())).s
              && items == Spec.ParseItems(toks, old(State())).v
    {
      hide Spec.ParseItem;
      items := [];
      while !At(EOF) && errors == 0
        invariant Valid()
        invariant Spec.ParseItems(toks, old(State())).s == Spec.ParseItems(toks, State()).s
        invariant Spec.ParseItems(toks, old(State())).v == items + Spec.ParseItems(toks, State()).v
        decreases errors == 0, |toks| - pos
      {
        ghost var had := items;
        var it := ParseItem();
        items := items + [it];
        assert had + ([it] + Spec.ParseItems(toks, State()).v) == items + Spec.ParseItems(toks, State()).v;
      }
    }
  }

  /** The parameters already read, in front of the rest. */
  function Behind(read: seq<Param>, rest: C.Params): C.Params {
    C.Params(read + rest.params, rest.variadic)
  }

  lemma NothingBefore(p: C.Params)
    ensures Behind([], p) == p
  {
  }

  lemma BehindTwice(a: seq<Param>, b: seq<Param>, p: C.Params)
    ensures Behind(a, Behind(b, p)) == Behind(a + b, p)
  {
    assert a + (b + p.params) == a + b + p.params;
  }

  predicate Stops(ts: C.Input, s: Spec.State)
    requires Spec.At(ts, s)
  {
    Spec.Cur(ts, s) == RBRACE || Spec.Cur(ts, s) == EOF || s.errors != 0
  }

  lemma OneMoreStmt(ts: C.Input, s: Spec.State)
    requires Spec.At(ts, s) && !Stops(ts, s)
    ensures var r := Spec.ParseStmt(ts, s);
            && Spec.ParseStmts(ts, s).s == Spec.ParseStmts(ts, r.s).s
            && Spec.ParseStmts(ts, s).v == [r.v] + Spec.ParseStmts(ts, r.s).v
  {
    hide Spec.ParseStmt;
  }

  lemma NoMoreStmts(ts: C.Input, s: Spec.State)
    requires Spec.At(ts, s) && Stops(ts, s)
    ensures Spec.ParseStmts(ts, s).s == s && Spec.ParseStmts(ts, s).v == []
  {
  }

  lemma OneMoreArm(ts: C.Input, s: Spec.State)
    requires Spec.At(ts, s) && !Stops(ts, s)
    ensures var labels := Spec.ParseLabels(ts, s);
            var body := Spec.ParseStmt(ts, Spec.Expect(ts, labels.s, FAT_ARROW));
            && Spec.ParseArms(ts, s).s == Spec.ParseArms(ts, body.s).s
            && Spec.ParseArms(ts, s).v == [Arm(labels.v, body.v)] + Spec.ParseArms(ts, body.s).v
  {
    hide Spec.ParseStmt, Spec.ParseLabels, Spec.Expect;
  }

  lemma NoMoreArms(ts: C.Input, s: Spec.State)
    requires Spec.At(ts, s) && Stops(ts, s)
    ensures Spec.ParseArms(ts, s).s == s && Spec.ParseArms(ts, s).v == []
  {
  }

  /** What follows a member: a comma, the end of the list, or an error. */
  function AfterMember(ts: C.Input, s: Spec.State): (t: Spec.State)
    requires Spec.At(ts, s)
    ensures Spec.At(ts, t)
  {
    if Spec.Cur(ts, s) == COMMA then Spec.Advance(ts, s)
    else if Spec.Cur(ts, s) == RBRACE then s else Spec.Report(s)
  }

  lemma OneMoreMember(ts: C.Input, s: Spec.State)
    requires Spec.At(ts, s) && !Stops(ts, s)
    ensures var s0 := if Spec.Cur(ts, s) == IDENT then s else Spec.Report(s);
            var value := Spec.ParseMemberValue(ts, Spec.Advance(ts, s0));
            var t := AfterMember(ts, value.s);
            && Spec.ParseMembers(ts, s).s == Spec.ParseMembers(ts, t).s
            && Spec.ParseMembers(ts, s).v == [EnumMember(ts[s.pos].text, value.v)] + Spec.ParseMembers(ts, t).v
  {
    hide Spec.ParseMemberValue;
  }

  lemma NoMoreMembers(ts: C.Input, s: Spec.State)
    requires Spec.At(ts, s) && Stops(ts, s)
    ensures Spec.ParseMembers(ts, s).s == s && Spec.ParseMembers(ts, s).v == []
  {
  }

  lemma OpIsToken(level: nat, k: Kind)
    requires level < 10 && C.IsOp(level, k)
    ensures k != EOF
  {
  }

  /** Both parsers on the same tokens: when the first reports nothing, neither does
      the second, and it builds the same tree. */
  method ParseTwice(toks: C.Input) returns (items: seq<Item>, errors: nat, items2: seq<Option<Item>>, errors2: nat)
    ensures items == C.ParseProgram(toks).v && errors == C.Errors(C.ParseProgram(toks).s)
    ensures errors == 0 ==> errors2 == 0 && items2 == TwinParsers.Items(items)
  {
    items, errors := ParserClass.ParseProgram(toks);
    var p := new Parser(toks);
    items2 := p.ParseProgram();
    errors2 := p.errors;
    if errors == 0 {
      TwinParsers.ParsersAgree(toks);
    }
  }
}
