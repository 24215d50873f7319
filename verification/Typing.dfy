/** What sema has established about a tree it accepted: the facts lowering
    relies on, for the scalar fragment. */
module Typing {
  import opened Words
  import opened Types
  import opened Tree

  type Scope = seq<Decl>

  /** Innermost first. */
  function FindDecl(scope: Scope, x: string): (r: Option<nat>)
    ensures r.Some? ==> r.value < |scope| && scope[r.value].name == x
    ensures r.Some? ==> forall i :: r.value < i < |scope| ==> scope[i].name != x
    ensures r.None? ==> forall i :: 0 <= i < |scope| ==> scope[i].name != x
  {
    if scope == [] then None
    else if scope[|scope| - 1].name == x then Some(|scope| - 1)
    else FindDecl(scope[..|scope| - 1], x)
  }

  predicate TypedName(x: string, t: Ty, scope: Scope) {
    match FindDecl(scope, x)
    case Some(i) => scope[i].ty == t && IsScalar(t)
    case None => IsScalar(t) && MemberValue(t, x).Some? && InRange(t, MemberValue(t, x).value)
  }

  predicate TypedOperands(op: BinOp, l: Ty, r: Ty, t: Ty) {
    if IsLogical(op) then IsBoolLike(l) && IsBoolLike(r) && IsBoolLike(t)
    else if IsComparison(op) then IsIntLike(l) && l == r && IsBoolLike(t)
    else if IsShift(op) then
      // lowering gives an untyped left operand the width of the shift amount
      IsIntLike(l) && IsIntLike(r) && t == l && (IsUntyped(l) ==> Width(l) == Width(r))
    else IsIntLike(l) && l == r && t == l
  }

  predicate TypedExpr(e: Expr, scope: Scope)
    decreases e, 0
  {
    match e
    case Int(n, t) => IsIntLike(t) && InRange(t, n)
    case Bool(_, t) => IsBoolLike(t)
    case Name(x, t) => TypedName(x, t, scope)
    case Unary(op, e1, t) =>
      && TypedExpr(e1, scope)
      && (if op.LogNot? then IsBoolLike(e1.ty) && IsBoolLike(t) else IsIntLike(t) && e1.ty == t)
    case Binary(op, l, r, t) =>
      TypedExpr(l, scope) && TypedExpr(r, scope) && TypedOperands(op, l.ty, r.ty, t)
    case Conv(e1, t) =>
      TypedExpr(e1, scope) && IsScalar(e1.ty) && IsScalar(t) && (IsBoolLike(t) ==> IsBoolLike(e1.ty))
    case Call(f, args, t) =>
      && t == f.ret
      && (t.Void? || IsScalar(t))
      && (|args| == |f.params| || (f.variadic && |args| > |f.params|))
      && TypedArgs(f, args, scope)
  }

  predicate TypedArgs(f: Fn, args: seq<Expr>, scope: Scope)
    decreases args, 0
  {
    args == [] ||
    (var k := |args| - 1;
     && TypedArgs(f, args[..k], scope)
     && TypedExpr(args[k], scope)
     && IsScalar(args[k].ty)
     && (k < |f.params| ==> args[k].ty == f.params[k]))
  }

  predicate TypedCondition(e: Expr, scope: Scope) {
    TypedExpr(e, scope) && IsBool(e.ty)
  }

  /** A label names one value that the scrutinee's type holds: a literal, which takes
      that type, or an enum member, which keeps its own. A member's enum has the
      scrutinee's width (Findings.LabelWidths says what happens otherwise), and no
      local shadows it: sema looks it up among the globals, lowering among the
      locals first. */
  predicate TypedLabel(l: Label, t: Ty, scope: Scope) {
    l.Wildcard? ||
    (match l.expr
     case Int(n, lt) => lt == t && InRange(t, n)
     case Name(x, lt) =>
       && IsIntLike(lt) && Width(lt) == Width(t)
       && FindDecl(scope, x).None? && TypedName(x, lt, scope) && InRange(t, MemberValue(lt, x).value)
     case _ => false)
  }

  /** The declarations visible after a statement. */
  function After(st: Stmt, scope: Scope): Scope {
    if st.Var? then scope + [st.decl] else scope
  }

  function AfterSeq(ss: seq<Stmt>, scope: Scope): Scope {
    if ss == [] then scope
    else After(ss[|ss| - 1], AfterSeq(ss[..|ss| - 1], scope))
  }

  predicate TypedStmt(st: Stmt, scope: Scope, ret: Ty, inLoop: bool)
    decreases st, 0
  {
    match st
    case Block(ss) => TypedSeq(ss, scope, ret, inLoop)
    case Empty => true
    case Break => inLoop
    case Continue => inLoop
    case ExprStmt(e) => TypedExpr(e, scope)
    case Return(e) =>
      if e.None? then ret.Void? else TypedExpr(e.value, scope) && IsScalar(ret) && e.value.ty == ret
    case Var(d, init) =>
      IsScalar(d.ty) && (init.Some? ==> TypedExpr(init.value, scope) && init.value.ty == d.ty)
    case Assign(target, op, rhs) =>
      && target.Name?
      && FindDecl(scope, target.name).Some?
      && TypedExpr(target, scope)
      && TypedExpr(rhs, scope)
      && (op.None? ==> rhs.ty == target.ty)
      && (op.Some? ==>
            && !IsComparison(op.value) && !IsLogical(op.value)
            && TypedOperands(op.value, target.ty, rhs.ty, target.ty))
    case If(c, thn, els) =>
      && TypedCondition(c, scope)
      && TypedSeq(thn, scope, ret, inLoop)
      && (els.Some? ==> (els.value.Block? || els.value.If?) && TypedStmt(els.value, scope, ret, inLoop))
    case While(c, body) =>
      TypedCondition(c, scope) && TypedSeq(body, scope, ret, true)
    case Match(scrutinee, arms) =>
      && TypedExpr(scrutinee, scope)
      && IsIntLike(scrutinee.ty)
      && forall i :: 0 <= i < |arms| ==>
           && TypedStmt(arms[i].body, scope, ret, inLoop)
           && forall j :: 0 <= j < |arms[i].labels| ==> TypedLabel(arms[i].labels[j], scrutinee.ty, scope)
  }

  predicate TypedSeq(ss: seq<Stmt>, scope: Scope, ret: Ty, inLoop: bool)
    decreases ss, 0
  {
    ss == [] ||
    (var k := |ss| - 1;
     TypedSeq(ss[..k], scope, ret, inLoop) && TypedStmt(ss[k], AfterSeq(ss[..k], scope), ret, inLoop))
  }

  predicate TypedFn(fn: FnDecl) {
    && (fn.ret.Void? || IsScalar(fn.ret))
    && (forall i :: 0 <= i < |fn.params| ==> IsScalar(fn.params[i].ty))
    && TypedSeq(fn.body, fn.params, fn.ret, false)
  }
}
