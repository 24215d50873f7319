/** The checked syntax tree of the scalar fragment, every expression carrying
    the type sema gave it, and its meaning. */
module Tree {
  import opened Words
  import opened Types

  /** A resolved callee. */
  datatype Fn = Fn(name: string, params: seq<Ty>, ret: Ty, variadic: bool)

  datatype UnOp = Neg | BitNot | LogNot

  datatype BinOp =
    | Add | Sub | Mul | Div | Rem
    | And | Or | Xor | Shl | Shr
    | Eq | Ne | Lt | Le | Gt | Ge
    | LogAnd | LogOr

  datatype Expr =
    | Int(value: nat, ty: Ty)
    | Bool(flag: bool, ty: Ty)
    | Name(name: string, ty: Ty)
    | Unary(uop: UnOp, operand: Expr, ty: Ty)
    | Binary(bop: BinOp, lhs: Expr, rhs: Expr, ty: Ty)
    | Call(callee: Fn, args: seq<Expr>, ty: Ty)
    | Conv(operand: Expr, ty: Ty)

  datatype Stmt =
    | Block(stmts: seq<Stmt>)
    | Var(decl: Decl, init: Option<Expr>)
    | If(cond: Expr, thn: seq<Stmt>, els: Option<Stmt>)
    | While(cond: Expr, body: seq<Stmt>)
    | Match(scrutinee: Expr, arms: seq<Arm>)
    | Return(result: Option<Expr>)
    | Break
    | Continue
    | ExprStmt(expr: Expr)
    | Assign(target: Expr, op: Option<BinOp>, rhs: Expr)
    | Empty

  datatype Arm = Arm(labels: seq<Label>, body: Stmt)

  datatype Label = Wildcard | Value(expr: Expr)

  datatype Decl = Decl(name: string, ty: Ty)

  datatype FnDecl = FnDecl(params: seq<Decl>, ret: Ty, body: seq<Stmt>)

  predicate IsComparison(op: BinOp) {
    op.Eq? || op.Ne? || op.Lt? || op.Le? || op.Gt? || op.Ge?
  }

  predicate IsLogical(op: BinOp) {
    op.LogAnd? || op.LogOr?
  }

  predicate IsShift(op: BinOp) {
    op.Shl? || op.Shr?
  }

  // -------------------------------------------------------------- arithmetic

  /** Division truncates toward zero. */
  function TruncDiv(a: int, b: int): int
    requires b != 0
  {
    if a >= 0 then (if b > 0 then a / b else -(a / -b))
    else (if b > 0 then -(-a / b) else -a / -b)
  }

  function TruncRem(a: int, b: int): int
    requires b != 0
  {
    a - TruncDiv(a, b) * b
  }

  /** The quotient and remainder are the truncated ones: the remainder is smaller
      than the divisor and has the sign of the dividend. */
  lemma TruncDivRem(a: int, b: int)
    requires b != 0
    ensures var q, r := TruncDiv(a, b), TruncRem(a, b);
            && a == q * b + r
            && (if b > 0 then -b < r < b else b < r < -b)
            && (a >= 0 ==> r >= 0) && (a <= 0 ==> r <= 0)
  {
    DivRem(if a >= 0 then a else -a, if b > 0 then b else -b);
  }

  lemma DivRem(x: int, y: int)
    requires x >= 0 && y > 0
    ensures 0 <= x - x / y * y < y && (-(x / y)) * y == -(x / y * y) && (x / y) * -y == -(x / y * y)
  {
    assert x == x / y * y + x % y;
  }

  /** The value of an arithmetic operator at type `t`, or None where the
      operation is undefined: division by zero, the one overflowing division,
      and a shift by the width or more. */
  function Arith(op: BinOp, t: Ty, a: int, b: int): Option<int>
    requires !IsComparison(op) && !IsLogical(op)
  {
    match op
    case Add => Some(WrapTy(t, a + b))
    case Sub => Some(WrapTy(t, a - b))
    case Mul => Some(WrapTy(t, a * b))
    case Div => if b == 0 || !InRange(t, TruncDiv(a, b)) then None else Some(TruncDiv(a, b))
    case Rem => if b == 0 || !InRange(t, TruncDiv(a, b)) then None else Some(TruncRem(a, b))
    case And => Some(WrapTy(t, Bitwise(BitAnd, Width(t), a, b)))
    case Or => Some(WrapTy(t, Bitwise(BitOr, Width(t), a, b)))
    case Xor => Some(WrapTy(t, Bitwise(BitXor, Width(t), a, b)))
    case Shl => if 0 <= b < Width(t) then Some(WrapTy(t, a * Pow2(b))) else None
    case Shr => if 0 <= b < Width(t) then Some(a / Pow2(b)) else None
  }

  predicate Compare(op: BinOp, a: int, b: int)
    requires IsComparison(op)
  {
    match op
    case Eq => a == b
    case Ne => a != b
    case Lt => a < b
    case Le => a <= b
    case Gt => a > b
    case Ge => a >= b
  }

  function Truth(b: bool): int {
    if b then 1 else 0
  }

  // -------------------------------------------------------------- evaluation

  /** A local variable: the stack of these is the store of a running body. */
  datatype Local = Local(decl: Decl, value: int)

  /** A call is an observable event; what comes back is up to the environment,
      which may depend on everything called so far. */
  datatype Event = Event(callee: string, args: seq<nat>)

  type Trace = seq<Event>
  type Oracle = (Trace, string, seq<nat>) -> int

  /** A callee answers with a value of its return type. */
  function Answer(orc: Oracle, tr: Trace, f: Fn, args: seq<nat>): int {
    if f.ret.Void? then 0 else WrapTy(f.ret, orc(tr, f.name, args))
  }

  datatype Env = Env(vars: seq<Local>, trace: Trace)

  datatype Outcome = Val(value: int, trace: Trace) | Undefined

  datatype ArgsOutcome = Vals(patterns: seq<nat>, trace: Trace) | UndefinedArgs

  /** The latest declaration of the name. */
  function FindVar(vars: seq<Local>, x: string): (r: Option<nat>)
    ensures r.Some? ==> r.value < |vars| && vars[r.value].decl.name == x
  {
    if vars == [] then None
    else if vars[|vars| - 1].decl.name == x then Some(|vars| - 1)
    else FindVar(vars[..|vars| - 1], x)
  }

  /** The value of an enum member, first spelling first. */
  function FindMember(members: seq<Member>, x: string): Option<nat> {
    if members == [] then None
    else if members[0].name == x then Some(members[0].value)
    else FindMember(members[1..], x)
  }

  function MemberValue(t: Ty, x: string): Option<nat> {
    if t.Enum? then FindMember(t.members, x) else None
  }

  /** Member `i` is the one that `x` names: no earlier member is spelled so. */
  predicate FirstNamed(members: seq<Member>, x: string, i: nat) {
    i < |members| && members[i].name == x && forall j :: 0 <= j < i ==> members[j].name != x
  }

  /** A name has the value of the first member spelled so, and none when no member
      is. */
  lemma {:induction false} MemberIsFirst(members: seq<Member>, x: string)
    ensures forall v :: FindMember(members, x) == Some(v) <==>
              exists i: nat :: FirstNamed(members, x, i) && members[i].value == v
    ensures FindMember(members, x).None? <==> forall i :: 0 <= i < |members| ==> members[i].name != x
  {
    if members == [] {
    } else if members[0].name == x {
      assert FirstNamed(members, x, 0);
    } else {
      var rest := members[1..];
      MemberIsFirst(rest, x);
      assert forall i :: 0 < i < |members| ==> members[i] == rest[i - 1];
      forall i: nat | FirstNamed(rest, x, i) ensures FirstNamed(members, x, i + 1) {
      }
      forall i: nat | FirstNamed(members, x, i) ensures i > 0 && FirstNamed(rest, x, i - 1) {
        assert forall j :: 0 <= j < i - 1 ==> rest[j] == members[j + 1];
      }
    }
  }

  function EvalUnary(op: UnOp, t: Ty, v: int): int {
    match op
    case Neg => WrapTy(t, -v)
    case BitNot => WrapTy(t, -v - 1)
    case LogNot => Truth(v == 0)
  }

  /** A conversion keeps the number when the target can hold it and wraps
      otherwise. */
  function ConvValue(to: Ty, v: int): int {
    WrapTy(to, v)
  }

  /** The type an argument is passed at: the parameter's, or its own when it is
      part of the variadic tail. */
  function PassedAt(f: Fn, i: nat, arg: Expr): Ty {
    if i < |f.params| then f.params[i] else arg.ty
  }

  function Eval(e: Expr, vars: seq<Local>, tr: Trace, orc: Oracle): Outcome
    decreases e, 0
  {
    match e
    case Int(n, t) => Val(n, tr)
    case Bool(b, t) => Val(Truth(b), tr)
    case Name(x, t) => (
      match FindVar(vars, x)
      case Some(i) => Val(vars[i].value, tr)
      case None =>
        match MemberValue(t, x)
        case Some(v) => Val(v, tr)
        case None => Undefined)
    case Unary(op, e1, t) => (
      match Eval(e1, vars, tr, orc)
      case Val(v, tr1) => Val(EvalUnary(op, t, v), tr1)
      case Undefined => Undefined)
    case Conv(e1, t) => (
      match Eval(e1, vars, tr, orc)
      case Val(v, tr1) => Val(ConvValue(t, v), tr1)
      case Undefined => Undefined)
    case Call(f, args, t) => (
      match EvalArgs(f, args, vars, tr, orc)
      case Vals(ps, tr1) => Val(Answer(orc, tr1, f, ps), tr1 + [Event(f.name, ps)])
      case UndefinedArgs => Undefined)
    case Binary(op, l, r, t) =>
      match Eval(l, vars, tr, orc)
      case Undefined => Undefined
      case Val(a, tr1) =>
        // && and || stop at the left operand when it decides
        if op.LogAnd? && a == 0 then Val(0, tr1)
        else if op.LogOr? && a != 0 then Val(a, tr1)
        else
          match Eval(r, vars, tr1, orc)
          case Undefined => Undefined
          case Val(b, tr2) =>
            if IsLogical(op) then Val(b, tr2)
            else if IsComparison(op) then Val(Truth(Compare(op, a, b)), tr2)
            else
              match Arith(op, t, a, b)
              case Some(c) => Val(c, tr2)
              case None => Undefined
  }

  /** Arguments are evaluated left to right. */
  function EvalArgs(f: Fn, args: seq<Expr>, vars: seq<Local>, tr: Trace, orc: Oracle): ArgsOutcome
    decreases args, 0
  {
    if args == [] then Vals([], tr)
    else
      var k := |args| - 1;
      match EvalArgs(f, args[..k], vars, tr, orc)
      case UndefinedArgs => UndefinedArgs
      case Vals(ps, tr1) =>
        match Eval(args[k], vars, tr1, orc)
        case Undefined => UndefinedArgs
        case Val(v, tr2) => Vals(ps + [Enc(Width(PassedAt(f, k, args[k])), v)], tr2)
  }

  // --------------------------------------------------------------- execution

  datatype Result =
    | Normal(env: Env)
    | Broke(env: Env)
    | Continued(env: Env)
    | Returned(value: Option<int>, trace: Trace)
    | Wrong          // an undefined operation
    | OutOfFuel      // more loop iterations than the fuel allows

  /** Leaving a scope drops the variables declared in it. */
  function Leave(r: Result, mark: nat): Result {
    match r
    case Normal(env) => Normal(env.(vars := Cut(env.vars, mark)))
    case Broke(env) => Broke(env.(vars := Cut(env.vars, mark)))
    case Continued(env) => Continued(env.(vars := Cut(env.vars, mark)))
    case _ => r
  }

  function Cut<T>(s: seq<T>, mark: nat): seq<T> {
    if mark <= |s| then s[..mark] else s
  }

  predicate HasWildcard(labels: seq<Label>) {
    exists i :: 0 <= i < |labels| && labels[i].Wildcard?
  }

  /** A match label is a constant: a literal or an enum member. */
  function LabelConst(e: Expr): Option<nat> {
    match e
    case Int(n, _) => Some(n)
    case Name(x, t) => MemberValue(t, x)
    case _ => None
  }

  predicate LabelIs(l: Label, v: int) {
    l.Value? && LabelConst(l.expr).Some? && LabelConst(l.expr).value == v
  }

  /** An arm with `_` among its labels is a wildcard arm and nothing else. */
  predicate Hits(arm: Arm, v: int) {
    !HasWildcard(arm.labels) && exists j :: 0 <= j < |arm.labels| && LabelIs(arm.labels[j], v)
  }

  function FirstHit(arms: seq<Arm>, v: int): (r: Option<nat>)
    ensures r.Some? ==> r.value < |arms| && Hits(arms[r.value], v)
    ensures forall i :: 0 <= i < (if r.Some? then r.value else |arms|) ==> !Hits(arms[i], v)
  {
    if arms == [] then None
    else
      var k := |arms| - 1;
      match FirstHit(arms[..k], v)
      case Some(i) => Some(i)
      case None => if Hits(arms[k], v) then Some(k) else None
  }

  function LastWildcard(arms: seq<Arm>): (r: Option<nat>)
    ensures r.Some? ==> r.value < |arms| && HasWildcard(arms[r.value].labels)
    ensures forall i :: (if r.Some? then r.value + 1 else 0) <= i < |arms| ==> !HasWildcard(arms[i].labels)
  {
    if arms == [] then None
    else if HasWildcard(arms[|arms| - 1].labels) then Some(|arms| - 1)
    else LastWildcard(arms[..|arms| - 1])
  }

  /** What a match promises: the first arm without `_` that lists the value runs;
      when there is none the last arm with `_` does, and otherwise nothing. */
  predicate Selected(arms: seq<Arm>, v: int, r: Option<nat>) {
    match r
    case Some(i) =>
      && i < |arms|
      && (forall k :: 0 <= k < i ==> !Hits(arms[k], v))
      && (!Hits(arms[i], v) ==>
            && HasWildcard(arms[i].labels)
            && (forall k :: 0 <= k < |arms| ==> !Hits(arms[k], v))
            && (forall k :: i < k < |arms| ==> !HasWildcard(arms[k].labels)))
    case None => forall k :: 0 <= k < |arms| ==> !Hits(arms[k], v) && !HasWildcard(arms[k].labels)
  }

  /** The arm a match runs, if any. */
  function SelectArm(arms: seq<Arm>, v: int): (r: Option<nat>)
    ensures r.Some? ==> r.value < |arms|
    ensures Selected(arms, v, r)
  {
    match FirstHit(arms, v)
    case Some(i) => Some(i)
    case None => LastWildcard(arms)
  }

  /** Runs a statement. Every loop iteration costs one unit of fuel. */
  function Exec(st: Stmt, env: Env, orc: Oracle, fuel: nat): Result
    decreases fuel, st, 0
  {
    match st
    case Block(ss) => ExecBlock(ss, env, orc, fuel)
    case Empty => Normal(env)
    case Break => Broke(env)
    case Continue => Continued(env)
    case ExprStmt(e) => (
      match Eval(e, env.vars, env.trace, orc)
      case Val(_, tr) => Normal(env.(trace := tr))
      case Undefined => Wrong)
    case Return(e) => (
      if e.None? then Returned(None, env.trace)
      else
        match Eval(e.value, env.vars, env.trace, orc)
        case Val(v, tr) => Returned(Some(v), tr)
        case Undefined => Wrong)
    case Var(d, init) => (
      if init.None? then Normal(env.(vars := env.vars + [Local(d, 0)]))
      else
        match Eval(init.value, env.vars, env.trace, orc)
        case Val(v, tr) => Normal(Env(env.vars + [Local(d, v)], tr))
        case Undefined => Wrong)
    case Assign(target, op, rhs) => (
      if !target.Name? || FindVar(env.vars, target.name).None? then Wrong
      else
        var i := FindVar(env.vars, target.name).value;
        match Eval(rhs, env.vars, env.trace, orc)
        case Undefined => Wrong
        case Val(v, tr) =>
          if op.None? then Normal(Env(env.vars[i := env.vars[i].(value := v)], tr))
          else if IsComparison(op.value) || IsLogical(op.value) then Wrong
          else
            match Arith(op.value, target.ty, env.vars[i].value, v)
            case None => Wrong
            case Some(w) => Normal(Env(env.vars[i := env.vars[i].(value := w)], tr)))
    case If(c, thn, els) => (
      match Eval(c, env.vars, env.trace, orc)
      case Undefined => Wrong
      case Val(v, tr) =>
        var env1 := env.(trace := tr);
        if v != 0 then ExecBlock(thn, env1, orc, fuel)
        else if els.Some? then Exec(els.value, env1, orc, fuel)
        else Normal(env1))
    case While(c, body) => (
      match Eval(c, env.vars, env.trace, orc)
      case Undefined => Wrong
      case Val(v, tr) =>
        if v == 0 then Normal(env.(trace := tr))
        else if fuel == 0 then OutOfFuel
        else
          match ExecBlock(body, env.(trace := tr), orc, fuel - 1)
          case Normal(env1) => Exec(st, env1, orc, fuel - 1)
          case Continued(env1) => Exec(st, env1, orc, fuel - 1)
          case Broke(env1) => Normal(env1)
          case r => r)
    case Match(scrutinee, arms) =>
      match Eval(scrutinee, env.vars, env.trace, orc)
      case Undefined => Wrong
      case Val(v, tr) =>
        var env1 := env.(trace := tr);
        match SelectArm(arms, v)
        case None => Normal(env1)
        case Some(i) => Leave(Exec(arms[i].body, env1, orc, fuel), |env.vars|)
  }

  function ExecBlock(ss: seq<Stmt>, env: Env, orc: Oracle, fuel: nat): Result
    decreases fuel, ss, 1
  {
    Leave(ExecSeq(ss, env, orc, fuel), |env.vars|)
  }

  function ExecSeq(ss: seq<Stmt>, env: Env, orc: Oracle, fuel: nat): Result
    decreases fuel, ss, 0
  {
    if ss == [] then Normal(env)
    else
      var k := |ss| - 1;
      match ExecSeq(ss[..k], env, orc, fuel)
      case Normal(env1) => Exec(ss[k], env1, orc, fuel)
      case r => r
  }

  /** A function body runs with its parameters as the outermost locals. */
  function Entered(fn: FnDecl, args: seq<int>): Env
    requires |args| == |fn.params|
  {
    Env(seq(|args|, i requires 0 <= i < |args| => Local(fn.params[i], args[i])), [])
  }

  function RunBody(fn: FnDecl, args: seq<int>, orc: Oracle, fuel: nat): Result
    requires |args| == |fn.params|
  {
    ExecBlock(fn.body, Entered(fn, args), orc, fuel)
  }
}
