/** The tree the parser builds, positions aside. A child the parser could not
    read is NoExpr, NoType or NoStmt, the null pointers of the program. */
module Syntax {
  import opened Words
  import opened Tokens

  datatype Type =
    | NoType
    | CoreType(core: Kind)
    | NamedType(name: string)
    | PointerType(elem: Type)
    | ArrayType(elem: Type, length: nat)

  datatype Expr =
    | NoExpr
    | IntLit(value: nat)
    | FloatLit(float: nat)
    | CharLit(value: nat)
    | StringLit(str: string)
    | BoolLit(flag: bool)
    | NullLit
    | Name(name: string)
    | Unary(op: Kind, operand: Expr)
    | Binary(op: Kind, lhs: Expr, rhs: Expr)
    | Call(callee: Expr, args: seq<Expr>)
    | Index(base: Expr, index: Expr)
    | Field(base: Expr, field: Option<string>)
    | Cast(operand: Expr, ty: Type)
    | SizeOf(ty: Type)

  datatype Stmt =
    | NoStmt
    | Block(stmts: seq<Stmt>)
    | Var(isMut: bool, ty: Type, name: string, init: Option<Expr>)
    | If(cond: Expr, thn: seq<Stmt>, els: Option<Stmt>)
    | While(cond: Expr, body: seq<Stmt>)
    | Match(scrutinee: Expr, arms: seq<Arm>)
    | Return(result: Option<Expr>)
    | Break
    | Continue
    | ExprStmt(expr: Expr)
    | Assign(target: Expr, op: Kind, rhs: Expr)
    | Empty

  /** A label is an integer, a character or a name; None is the wildcard. */
  datatype Arm = Arm(labels: seq<Option<Expr>>, body: Stmt)

  datatype Param = Param(isMut: bool, ty: Type, name: string)

  datatype FnDecl = FnDecl(name: string, params: seq<Param>, variadic: bool, ret: Type, body: Option<seq<Stmt>>)

  datatype EnumMember = EnumMember(name: string, value: Option<nat>)

  datatype Item =
    | FnItem(fn: FnDecl)
    | StructItem(name: string, fields: seq<Param>)
    | EnumItem(name: string, base: Kind, members: seq<EnumMember>)
    | GlobalItem(isMut: bool, ty: Type, name: string, init: Option<Expr>)
    | ExternItem(abi: string, fns: seq<FnDecl>)

  // ------------------------------------------------------------ completeness

  // Every child the grammar requires is there.

  predicate WholeType(t: Type) {
    match t
    case NoType => false
    case PointerType(e) => WholeType(e)
    case ArrayType(e, _) => WholeType(e)
    case _ => true
  }

  predicate WholeExpr(e: Expr)
    decreases e
  {
    match e
    case NoExpr => false
    case Unary(_, x) => WholeExpr(x)
    case Binary(_, l, r) => WholeExpr(l) && WholeExpr(r)
    case Call(c, args) => WholeExpr(c) && WholeExprs(args)
    case Index(b, i) => WholeExpr(b) && WholeExpr(i)
    case Field(b, f) => WholeExpr(b) && f.Some?
    case Cast(x, t) => WholeExpr(x) && WholeType(t)
    case SizeOf(t) => WholeType(t)
    case _ => true
  }

  predicate WholeExprs(es: seq<Expr>)
    decreases es
  {
    es == [] || (WholeExpr(es[0]) && WholeExprs(es[1..]))
  }

  predicate WholeStmt(s: Stmt)
    decreases s
  {
    match s
    case NoStmt => false
    case Block(ss) => WholeStmts(ss)
    case Var(_, t, _, init) => WholeType(t) && (init.Some? ==> WholeExpr(init.value))
    case If(c, thn, els) => WholeExpr(c) && WholeStmts(thn) && (els.Some? ==> WholeStmt(els.value))
    case While(c, body) => WholeExpr(c) && WholeStmts(body)
    case Match(e, arms) => WholeExpr(e) && WholeArms(arms)
    case Return(e) => e.Some? ==> WholeExpr(e.value)
    case ExprStmt(e) => WholeExpr(e)
    case Assign(t, _, r) => WholeExpr(t) && WholeExpr(r)
    case _ => true
  }

  predicate WholeStmts(ss: seq<Stmt>)
    decreases ss
  {
    ss == [] || (WholeStmt(ss[0]) && WholeStmts(ss[1..]))
  }

  predicate WholeArms(arms: seq<Arm>)
    decreases arms
  {
    arms == [] || (WholeArm(arms[0]) && WholeArms(arms[1..]))
  }

  predicate WholeArm(a: Arm)
    decreases a
  {
    WholeLabels(a.labels) && WholeStmt(a.body)
  }

  predicate WholeLabels(labels: seq<Option<Expr>>) {
    labels != [] && WholeLabel(labels[0]) && (|labels| > 1 ==> WholeLabels(labels[1..]))
  }

  predicate WholeLabel(l: Option<Expr>) {
    l.Some? ==> WholeExpr(l.value)
  }

  predicate WholeParams(params: seq<Param>) {
    params == [] || (WholeType(params[0].ty) && WholeParams(params[1..]))
  }

  predicate WholeFn(f: FnDecl) {
    WholeParams(f.params) && WholeType(f.ret) && (f.body.Some? ==> WholeStmts(f.body.value))
  }

  predicate WholeExterns(fns: seq<FnDecl>) {
    fns == [] || (WholeFn(fns[0]) && fns[0].body.None? && WholeExterns(fns[1..]))
  }

  predicate WholeItem(it: Item) {
    match it
    case FnItem(f) => WholeFn(f) && f.body.Some?
    case StructItem(_, fields) => WholeParams(fields)
    case EnumItem(_, base, _) => IsCoreType(base)
    case GlobalItem(_, t, _, init) => WholeType(t) && (init.Some? ==> WholeExpr(init.value))
    case ExternItem(_, fns) => WholeExterns(fns)
  }

  predicate WholeItems(items: seq<Item>) {
    items == [] || (WholeItem(items[0]) && WholeItems(items[1..]))
  }
}
