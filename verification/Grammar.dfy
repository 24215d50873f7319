/** The grammar as derivation trees: what each production is spelled like, which
    syntax tree it stands for, and how deep the parser nests while reading it. The
    second parser takes a little more than the grammar has; `strict` tells them
    apart. */
module Grammar {
  import opened Words
  import opened Tokens
  import opened Syntax

  // ------------------------------------------------------------- derivations

  datatype ExprForm =
    | AtomF(atom: Expr)
    | ParenF(inner: ExprForm)
    | UnaryF(op: Kind, operand: ExprForm)
    | SizeOfF(ty: Type)
    | BinaryF(op: Kind, lhs: ExprForm, rhs: ExprForm)
    | CallF(callee: ExprForm, args: seq<ExprForm>)
    | IndexF(base: ExprForm, index: ExprForm)
    | FieldF(base: ExprForm, field: string)
    | CastF(operand: ExprForm, ty: Type)

  datatype StmtForm =
    | BlockF(stmts: seq<StmtForm>)
    | VarF(decl: Param, init: Option<ExprForm>)
    | IfF(cond: ExprForm, thn: seq<StmtForm>, els: Option<StmtForm>)
    | WhileF(cond: ExprForm, body: seq<StmtForm>)
    | MatchF(scrutinee: ExprForm, arms: seq<ArmForm>)
    | ReturnF(result: Option<ExprForm>)
    | BreakF
    | ContinueF
    | ExprF(expr: ExprForm)
    | AssignF(target: ExprForm, op: Kind, rhs: ExprForm)
    | EmptyF

  /** A label; None is `_`. */
  datatype ArmForm = ArmForm(labels: seq<Option<ExprForm>>, body: StmtForm)

  /** The return type may be left out, and an extern function has no body. */
  datatype FnForm =
    FnForm(name: string, params: seq<Param>, variadic: bool, ret: Option<Type>, body: Option<seq<StmtForm>>)

  /** An enum may leave out its base type, and may put a comma after its last member. */
  datatype ItemForm =
    | FnF(fn: FnForm)
    | StructF(name: string, fields: seq<Param>)
    | EnumF(name: string, base: Option<Token>, members: seq<EnumMember>, comma: bool)
    | GlobalF(decl: Param, init: Option<ExprForm>)
    | ExternF(abi: string, fns: seq<FnForm>)

  // ------------------------------------------------------------------- tokens

  function Tok(k: Kind): Token {
    Token(k, "", 0, "", 0)
  }

  function Ident(x: string): Token {
    Token(IDENT, x, 0, "", 0)
  }

  predicate PrefixOp(k: Kind) {
    k == MINUS || k == BANG || k == TILDE || k == STAR || k == AMP
  }

  predicate AssignOp(k: Kind) {
    k in {EQ, PLUS_EQ, MINUS_EQ, STAR_EQ, SLASH_EQ, PERCENT_EQ, AMP_EQ, PIPE_EQ, CARET_EQ, SHL_EQ, SHR_EQ}
  }

  /** How tightly a binary operator binds, loosest first; 10 for what is none. */
  function LevelOf(k: Kind): (l: nat)
    ensures l <= 10
  {
    if k == PIPE_PIPE then 0
    else if k == AMP_AMP then 1
    else if k == EQ_EQ || k == BANG_EQ then 2
    else if k == LT || k == LE || k == GT || k == GE then 3
    else if k == PIPE then 4
    else if k == CARET then 5
    else if k == AMP then 6
    else if k == SHL || k == SHR then 7
    else if k == PLUS || k == MINUS then 8
    else if k == STAR || k == SLASH || k == PERCENT then 9
    else 10
  }

  // -------------------------------------------------------------------- types

  predicate ProperType(t: Type) {
    match t
    case NoType => false
    case CoreType(k) => IsCoreType(k)
    case NamedType(_) => true
    case PointerType(e) => ProperType(e)
    case ArrayType(e, _) => ProperType(e)
  }

  function TypeText(t: Type): seq<Token> {
    match t
    case NoType => []
    case CoreType(k) => [Tok(k)]
    case NamedType(x) => [Ident(x)]
    case PointerType(e) => TypeText(e) + [Tok(STAR)]
    case ArrayType(e, n) => TypeText(e) + [Tok(LBRACKET), Token(INT, "", n, "", 0), Tok(RBRACKET)]
  }

  // -------------------------------------------------------------- expressions

  predicate IsLiteral(e: Expr) {
    e.IntLit? || e.FloatLit? || e.CharLit? || e.StringLit? || e.BoolLit? || e.NullLit?
  }

  predicate IsAtom(e: Expr) {
    IsLiteral(e) || e.Name?
  }

  /** The one token of a literal or a name. */
  function AtomToken(e: Expr): Token
    requires IsAtom(e)
  {
    match e
    case IntLit(n) => Token(INT, "", n, "", 0)
    case FloatLit(x) => Token(FLOAT, "", 0, "", x)
    case CharLit(n) => Token(CHAR, "", n, "", 0)
    case StringLit(s) => Token(STRING, "", 0, s, 0)
    case BoolLit(b) => Tok(if b then KW_TRUE else KW_FALSE)
    case NullLit => Tok(KW_NULL)
    case Name(x) => Ident(x)
  }

  /** The level of the ladder a production belongs to: 0 to 9 for binary operators,
      10 for unary operators and `sizeof`, 11 for postfix operators, 12 for the rest. */
  function Level(f: ExprForm): (l: nat)
    ensures l <= 12
  {
    match f
    case BinaryF(op, _, _) => LevelOf(op)
    case UnaryF(_, _) => 10
    case SizeOfF(_) => 10
    case CallF(_, _) => 11
    case IndexF(_, _) => 11
    case FieldF(_, _) => 11
    case CastF(_, _) => 11
    case _ => 12
  }

  /** Operands bind as tightly as the production asks. */
  predicate GoodExpr(f: ExprForm)
    decreases f
  {
    match f
    case AtomF(e) => IsAtom(e)
    case ParenF(x) => GoodExpr(x)
    case UnaryF(op, x) => PrefixOp(op) && GoodExpr(x) && Level(x) >= 10
    case SizeOfF(t) => ProperType(t)
    case BinaryF(op, l, r) =>
      LevelOf(op) < 10 && GoodExpr(l) && GoodExpr(r) && Level(l) >= LevelOf(op) && Level(r) > LevelOf(op)
    case CallF(c, args) => GoodExpr(c) && Level(c) >= 11 && GoodArgs(args)
    case IndexF(b, i) => GoodExpr(b) && Level(b) >= 11 && GoodExpr(i)
    case FieldF(b, _) => GoodExpr(b) && Level(b) >= 11
    case CastF(x, t) => GoodExpr(x) && Level(x) >= 11 && ProperType(t)
  }

  predicate GoodArgs(args: seq<ExprForm>)
    decreases args
  {
    args == [] || (GoodExpr(args[0]) && GoodArgs(args[1..]))
  }

  function ExprText(f: ExprForm): seq<Token>
    decreases f
  {
    match f
    case AtomF(e) => if IsAtom(e) then [AtomToken(e)] else []
    case ParenF(x) => [Tok(LPAREN)] + (ExprText(x) + [Tok(RPAREN)])
    case UnaryF(op, x) => [Tok(op)] + ExprText(x)
    case SizeOfF(t) => [Tok(KW_SIZEOF)] + BracketedText(t)
    case BinaryF(op, l, r) => ExprText(l) + ([Tok(op)] + ExprText(r))
    case CallF(c, args) => ExprText(c) + ([Tok(LPAREN)] + (ArgsText(args) + [Tok(RPAREN)]))
    case IndexF(b, i) => ExprText(b) + ([Tok(LBRACKET)] + (ExprText(i) + [Tok(RBRACKET)]))
    case FieldF(b, x) => ExprText(b) + ([Tok(DOT)] + [Ident(x)])
    case CastF(x, t) => ExprText(x) + ([Tok(DOT)] + ([Tok(KW_AS)] + BracketedText(t)))
  }

  function BracketedText(t: Type): seq<Token> {
    [Tok(LPAREN)] + (TypeText(t) + [Tok(RPAREN)])
  }

  function ArgsText(args: seq<ExprForm>): seq<Token>
    decreases args
  {
    if args == [] then []
    else if |args| == 1 then ExprText(args[0])
    else ExprText(args[0]) + ([Tok(COMMA)] + ArgsText(args[1..]))
  }

  /** Parentheses leave no trace in the tree. */
  function ExprTree(f: ExprForm): Expr
    decreases f
  {
    match f
    case AtomF(e) => e
    case ParenF(x) => ExprTree(x)
    case UnaryF(op, x) => Unary(op, ExprTree(x))
    case SizeOfF(t) => SizeOf(t)
    case BinaryF(op, l, r) => Binary(op, ExprTree(l), ExprTree(r))
    case CallF(c, args) => Call(ExprTree(c), ArgsTree(args))
    case IndexF(b, i) => Index(ExprTree(b), ExprTree(i))
    case FieldF(b, x) => Field(ExprTree(b), Some(x))
    case CastF(x, t) => Cast(ExprTree(x), t)
  }

  function ArgsTree(args: seq<ExprForm>): seq<Expr>
    decreases args
  {
    if args == [] then [] else [ExprTree(args[0])] + ArgsTree(args[1..])
  }

  function Max(a: nat, b: nat): nat {
    if a > b then a else b
  }

  /** How many further nested expressions the parser enters while reading it. */
  function ExprDepth(f: ExprForm): nat
    decreases f
  {
    match f
    case ParenF(x) => 1 + ExprDepth(x)
    case UnaryF(_, x) => ExprDepth(x)
    case BinaryF(_, l, r) => Max(ExprDepth(l), ExprDepth(r))
    case CallF(c, args) => Max(ExprDepth(c), ArgsDepth(args))
    case IndexF(b, i) => Max(ExprDepth(b), 1 + ExprDepth(i))
    case FieldF(b, _) => ExprDepth(b)
    case CastF(x, _) => ExprDepth(x)
    case _ => 0
  }

  function ArgsDepth(args: seq<ExprForm>): nat
    decreases args
  {
    if args == [] then 0 else Max(1 + ExprDepth(args[0]), ArgsDepth(args[1..]))
  }

  // --------------------------------------------------------------- statements

  /** A label is an integer, a character or a name. The second parser takes any
      expression that does not begin with `_`. */
  predicate IsLabel(l: Option<ExprForm>, strict: bool) {
    l.Some? ==>
      if strict then l.value.AtomF? && IsLabelAtom(l.value.atom)
      else GoodExpr(l.value) && ExprText(l.value) != [] && ExprText(l.value)[0] != Ident("_")
  }

  predicate IsLabelAtom(e: Expr) {
    e.IntLit? || e.CharLit? || (e.Name? && e.name != "_")
  }

  function LabelText(l: Option<ExprForm>): seq<Token> {
    if l.None? then [Ident("_")] else ExprText(l.value)
  }

  function LabelTree(l: Option<ExprForm>): Option<Expr> {
    if l.None? then None else Some(ExprTree(l.value))
  }

  predicate GoodLabels(ls: seq<Option<ExprForm>>, strict: bool) {
    ls != [] && IsLabel(ls[0], strict) && (|ls| > 1 ==> GoodLabels(ls[1..], strict))
  }

  predicate GoodInit(e: Option<ExprForm>) {
    e.Some? ==> GoodExpr(e.value)
  }

  predicate GoodStmt(f: StmtForm, strict: bool)
    decreases f, 0
  {
    match f
    case BlockF(ss) => GoodStmts(ss, strict)
    case VarF(d, init) => ProperType(d.ty) && GoodInit(init)
    case IfF(c, thn, els) => GoodExpr(c) && GoodStmts(thn, strict) && (els.Some? ==> GoodElse(els.value, strict))
    case WhileF(c, body) => GoodExpr(c) && GoodStmts(body, strict)
    case MatchF(e, arms) => GoodExpr(e) && GoodArms(arms, strict)
    case ReturnF(e) => GoodInit(e)
    case ExprF(e) => GoodExpr(e)
    case AssignF(t, op, r) => GoodExpr(t) && AssignOp(op) && GoodExpr(r)
    case _ => true
  }

  /** After `else` comes a block or another `if`. */
  predicate GoodElse(f: StmtForm, strict: bool)
    decreases f, 1
  {
    (f.BlockF? || f.IfF?) && GoodStmt(f, strict)
  }

  predicate GoodStmts(fs: seq<StmtForm>, strict: bool)
    decreases fs, 0
  {
    fs == [] || (GoodStmt(fs[0], strict) && GoodStmts(fs[1..], strict))
  }

  predicate GoodArms(arms: seq<ArmForm>, strict: bool)
    decreases arms, 0
  {
    arms == [] || (GoodArm(arms[0], strict) && GoodArms(arms[1..], strict))
  }

  predicate GoodArm(a: ArmForm, strict: bool)
    decreases a, 0
  {
    GoodLabels(a.labels, strict) && GoodStmt(a.body, strict)
  }

  function DeclText(d: Param): seq<Token> {
    (if d.isMut then [Tok(KW_MUT)] else []) + (TypeText(d.ty) + [Ident(d.name)])
  }

  function InitText(e: Option<ExprForm>): seq<Token> {
    if e.None? then [] else [Tok(EQ)] + ExprText(e.value)
  }

  function StmtText(f: StmtForm): seq<Token>
    decreases f, 0
  {
    match f
    case BlockF(ss) => BlockText(ss)
    case VarF(d, init) => [Tok(KW_LET)] + (DeclText(d) + (InitText(init) + [Tok(SEMI)]))
    case IfF(c, thn, els) =>
      [Tok(KW_IF)] + (ExprText(c) + (BlockText(thn) + (if els.None? then [] else [Tok(KW_ELSE)] + StmtText(els.value))))
    case WhileF(c, body) => [Tok(KW_WHILE)] + (ExprText(c) + BlockText(body))
    case MatchF(e, arms) => [Tok(KW_MATCH)] + (ExprText(e) + ([Tok(LBRACE)] + (ArmsText(arms) + [Tok(RBRACE)])))
    case ReturnF(e) => [Tok(KW_RETURN)] + ((if e.None? then [] else ExprText(e.value)) + [Tok(SEMI)])
    case BreakF => [Tok(KW_BREAK), Tok(SEMI)]
    case ContinueF => [Tok(KW_CONTINUE), Tok(SEMI)]
    case ExprF(e) => ExprText(e) + [Tok(SEMI)]
    case AssignF(t, op, r) => ExprText(t) + ([Tok(op)] + (ExprText(r) + [Tok(SEMI)]))
    case EmptyF => [Tok(SEMI)]
  }

  function BlockText(fs: seq<StmtForm>): seq<Token>
    decreases fs, 1
  {
    [Tok(LBRACE)] + (StmtsText(fs) + [Tok(RBRACE)])
  }

  function StmtsText(fs: seq<StmtForm>): seq<Token>
    decreases fs, 0
  {
    if fs == [] then [] else StmtText(fs[0]) + StmtsText(fs[1..])
  }

  function ArmsText(arms: seq<ArmForm>): seq<Token>
    decreases arms, 0
  {
    if arms == [] then [] else ArmText(arms[0]) + ArmsText(arms[1..])
  }

  function ArmText(a: ArmForm): seq<Token>
    decreases a, 0
  {
    LabelsText(a.labels) + ([Tok(FAT_ARROW)] + StmtText(a.body))
  }

  function LabelsText(ls: seq<Option<ExprForm>>): seq<Token> {
    if ls == [] then []
    else if |ls| == 1 then LabelText(ls[0])
    else LabelText(ls[0]) + ([Tok(COMMA)] + LabelsText(ls[1..]))
  }

  function LabelsTree(ls: seq<Option<ExprForm>>): (r: seq<Option<Expr>>)
    ensures |r| == |ls| && forall i :: 0 <= i < |ls| ==> r[i] == LabelTree(ls[i])
  {
    seq(|ls|, i requires 0 <= i < |ls| => LabelTree(ls[i]))
  }

  function StmtTree(f: StmtForm): Stmt
    decreases f, 0
  {
    match f
    case BlockF(ss) => Block(StmtsTree(ss))
    case VarF(d, init) => Var(d.isMut, d.ty, d.name, InitTree(init))
    case IfF(c, thn, els) =>
      If(ExprTree(c), StmtsTree(thn), if els.None? then None else Some(StmtTree(els.value)))
    case WhileF(c, body) => While(ExprTree(c), StmtsTree(body))
    case MatchF(e, arms) => Match(ExprTree(e), ArmsTree(arms))
    case ReturnF(e) => Return(InitTree(e))
    case BreakF => Break
    case ContinueF => Continue
    case ExprF(e) => ExprStmt(ExprTree(e))
    case AssignF(t, op, r) => Assign(ExprTree(t), op, ExprTree(r))
    case EmptyF => Empty
  }

  function InitTree(e: Option<ExprForm>): Option<Expr> {
    if e.None? then None else Some(ExprTree(e.value))
  }

  function StmtsTree(fs: seq<StmtForm>): seq<Stmt>
    decreases fs, 0
  {
    if fs == [] then [] else [StmtTree(fs[0])] + StmtsTree(fs[1..])
  }

  function ArmsTree(arms: seq<ArmForm>): seq<Arm>
    decreases arms, 0
  {
    if arms == [] then [] else [Arm(LabelsTree(arms[0].labels), StmtTree(arms[0].body))] + ArmsTree(arms[1..])
  }

  /** How many further nested statements and expressions the parser enters once it is
      inside the statement. */
  function StmtDepth(f: StmtForm): nat
    decreases f, 0
  {
    match f
    case BlockF(ss) => StmtsDepth(ss)
    case VarF(_, init) => InitDepth(init)
    case IfF(c, thn, els) =>
      Max(1 + ExprDepth(c), Max(StmtsDepth(thn), if els.None? then 0 else StmtDepth(els.value)))
    case WhileF(c, body) => Max(1 + ExprDepth(c), StmtsDepth(body))
    case MatchF(e, arms) => Max(1 + ExprDepth(e), ArmsDepth(arms))
    case ReturnF(e) => InitDepth(e)
    case ExprF(e) => 1 + ExprDepth(e)
    case AssignF(t, _, r) => Max(1 + ExprDepth(t), 1 + ExprDepth(r))
    case _ => 0
  }

  function InitDepth(e: Option<ExprForm>): nat {
    if e.None? then 0 else 1 + ExprDepth(e.value)
  }

  function StmtsDepth(fs: seq<StmtForm>): nat
    decreases fs, 0
  {
    if fs == [] then 0 else Max(1 + StmtDepth(fs[0]), StmtsDepth(fs[1..]))
  }

  function ArmsDepth(arms: seq<ArmForm>): nat
    decreases arms, 0
  {
    if arms == [] then 0 else Max(1 + StmtDepth(arms[0].body), ArmsDepth(arms[1..]))
  }

  // -------------------------------------------------------------------- items

  predicate ProperParams(ps: seq<Param>) {
    ps == [] || (ProperType(ps[0].ty) && ProperParams(ps[1..]))
  }

  /** Fields are never `mut`. */
  predicate GoodFields(ps: seq<Param>) {
    ps == [] || (ProperType(ps[0].ty) && !ps[0].isMut && GoodFields(ps[1..]))
  }

  /** Only an extern function is variadic, and it has no body. The second parser lets
      any function be variadic. */
  predicate GoodFn(f: FnForm, isExtern: bool, strict: bool) {
    && ProperParams(f.params)
    && (strict && f.variadic ==> isExtern)
    && (f.ret.Some? ==> ProperType(f.ret.value))
    && f.body.None? == isExtern
    && (f.body.Some? ==> GoodStmts(f.body.value, strict))
  }

  predicate GoodExterns(fs: seq<FnForm>, strict: bool) {
    fs == [] || (GoodFn(fs[0], true, strict) && GoodExterns(fs[1..], strict))
  }

  /** An enum is built on a core type. The second parser takes any token. */
  predicate GoodBase(base: Option<Token>, strict: bool) {
    strict && base.Some? ==> IsCoreType(base.value.kind)
  }

  /** A global's first value is a literal. The second parser takes any expression. */
  predicate GoodGlobalInit(init: Option<ExprForm>, strict: bool) {
    GoodInit(init) && (strict && init.Some? ==> init.value.AtomF? && IsLiteral(init.value.atom))
  }

  predicate GoodItem(f: ItemForm, strict: bool) {
    match f
    case FnF(fn) => GoodFn(fn, false, strict)
    case StructF(_, fields) => GoodFields(fields)
    case EnumF(_, base, members, comma) => GoodBase(base, strict) && (comma ==> members != [])
    case GlobalF(d, init) => ProperType(d.ty) && GoodGlobalInit(init, strict)
    case ExternF(_, fns) => GoodExterns(fns, strict)
  }

  predicate GoodItems(fs: seq<ItemForm>, strict: bool) {
    fs == [] || (GoodItem(fs[0], strict) && GoodItems(fs[1..], strict))
  }

  function ParamsText(ps: seq<Param>, variadic: bool): seq<Token> {
    if ps == [] then (if variadic then [Tok(ELLIPSIS)] else [])
    else if |ps| == 1 && !variadic then DeclText(ps[0])
    else DeclText(ps[0]) + ([Tok(COMMA)] + ParamsText(ps[1..], variadic))
  }

  function RetText(t: Option<Type>): seq<Token> {
    if t.None? then [] else [Tok(ARROW)] + TypeText(t.value)
  }

  function FnText(f: FnForm): seq<Token> {
    [Tok(KW_FN)] + ([Ident(f.name)] + (ParamListText(f) + (RetText(f.ret) + FnEndText(f))))
  }

  function ParamListText(f: FnForm): seq<Token> {
    [Tok(LPAREN)] + (ParamsText(f.params, f.variadic) + [Tok(RPAREN)])
  }

  function FnEndText(f: FnForm): seq<Token> {
    if f.body.None? then [Tok(SEMI)] else BlockText(f.body.value)
  }

  function FieldText(d: Param): seq<Token> {
    TypeText(d.ty) + ([Ident(d.name)] + [Tok(SEMI)])
  }

  function FieldsText(ps: seq<Param>): seq<Token> {
    if ps == [] then [] else FieldText(ps[0]) + FieldsText(ps[1..])
  }

  function MemberText(m: EnumMember): seq<Token> {
    [Ident(m.name)] + (if m.value.None? then [] else [Tok(EQ), Token(INT, "", m.value.value, "", 0)])
  }

  function MembersText(ms: seq<EnumMember>, comma: bool): seq<Token> {
    if ms == [] then []
    else if |ms| == 1 && !comma then MemberText(ms[0])
    else MemberText(ms[0]) + ([Tok(COMMA)] + MembersText(ms[1..], comma))
  }

  function BaseText(base: Option<Token>): seq<Token> {
    if base.None? then [] else [Tok(COLON), base.value]
  }

  function ExternsText(fs: seq<FnForm>): seq<Token> {
    if fs == [] then [] else FnText(fs[0]) + ExternsText(fs[1..])
  }

  function ItemText(f: ItemForm): seq<Token> {
    match f
    case FnF(fn) => FnText(fn)
    case StructF(name, fields) =>
      [Tok(KW_STRUCT)] + ([Ident(name)] + ([Tok(LBRACE)] + (FieldsText(fields) + [Tok(RBRACE)])))
    case EnumF(name, base, members, comma) =>
      [Tok(KW_ENUM)] + ([Ident(name)] + (BaseText(base) + ([Tok(LBRACE)] + (MembersText(members,
          comma) + [Tok(RBRACE)]))))
    case GlobalF(d, init) => [Tok(KW_LET)] + (DeclText(d) + (InitText(init) + [Tok(SEMI)]))
    case ExternF(abi, fns) =>
      [Tok(KW_EXTERN)] + ([Token(STRING, "", 0, abi, 0)] + ([Tok(LBRACE)] + (ExternsText(fns) + [Tok(RBRACE)])))
  }

  function ItemsText(fs: seq<ItemForm>): seq<Token> {
    if fs == [] then [] else ItemText(fs[0]) + ItemsText(fs[1..])
  }

  /** A function without a return type returns nothing. */
  function FnTree(f: FnForm): FnDecl {
    FnDecl(f.name, f.params, f.variadic, if f.ret.None? then CoreType(KW_VOID) else f.ret.value,
        if f.body.None? then None else Some(StmtsTree(f.body.value)))
  }

  function ExternsTree(fs: seq<FnForm>): seq<FnDecl> {
    if fs == [] then [] else [FnTree(fs[0])] + ExternsTree(fs[1..])
  }

  /** An enum without a base type is built on i32. */
  function ItemTree(f: ItemForm): Item {
    match f
    case FnF(fn) => FnItem(FnTree(fn))
    case StructF(name, fields) => StructItem(name, fields)
    case EnumF(name, base, members, _) => EnumItem(name, if base.None? then KW_I32 else base.value.kind, members)
    case GlobalF(d, init) => GlobalItem(d.isMut, d.ty, d.name, InitTree(init))
    case ExternF(abi, fns) => ExternItem(abi, ExternsTree(fns))
  }

  function ItemsTree(fs: seq<ItemForm>): seq<Item> {
    if fs == [] then [] else [ItemTree(fs[0])] + ItemsTree(fs[1..])
  }

  function ItemDepth(f: ItemForm): nat {
    if f.FnF? && f.fn.body.Some? then StmtsDepth(f.fn.body.value) else 0
  }

  function ItemsDepth(fs: seq<ItemForm>): nat {
    if fs == [] then 0 else Max(ItemDepth(fs[0]), ItemsDepth(fs[1..]))
  }
}
