/** The IR type of what an expression lowers to is the type sema gave it. */
module LoweringTypes {
  import opened Types
  import opened Tree
  import opened Typing
  import opened Ir
  import opened Lowering
  import opened LoweringShape

  /** The locals stack holds the declarations in scope. */
  predicate Mirrors(locals: seq<Binding>, scope: Scope) {
    |locals| == |scope| && forall i :: 0 <= i < |locals| ==> locals[i].decl == scope[i]
  }

  lemma {:induction false} LocalsAgree(scope: Scope, locals: seq<Binding>, x: string)
    requires Mirrors(locals, scope)
    ensures FindLocal(locals, x) == FindDecl(scope, x)
  {
    if scope != [] {
      var k := |scope| - 1;
      LocalsAgree(scope[..k], locals[..k], x);
    }
  }

  predicate HasType(v: Operand, t: Ty) {
    v.ty == IrOf(t)
  }

  lemma {:induction false} ExprType(s: Low, e: Expr, scope: Scope)
    requires TypedExpr(e, scope) && Mirrors(s.locals, scope)
    ensures IsScalar(e.ty) || e.ty.Void?
    ensures HasType(LowerExpr(s, e).1, e.ty)
    decreases e
  {
    hide BeginLogical, BranchLogical, LowerArgs, TypedArgs, Within, Shape, FindDecl, IsSigned, IsUntyped, IsBoolLike;
    match e
    case Int(_, _) =>
    case Bool(_, _) =>
    case Name(x, t) => LocalsAgree(scope, s.locals, x);
    case Unary(op, e1, t) =>
      ExprType(s, e1, scope);
      IrOfScalar(t);
    case Conv(e1, t) =>
      ExprType(s, e1, scope);
      IrOfScalar(e1.ty);
      IrOfScalar(t);
    case Call(f, args, t) =>
    case Binary(op, l, r, t) =>
      IrOfScalar(t);
      if !IsLogical(op) {
        ExprShape(s, l);
        ExprType(s, l, scope);
        ExprType(LowerExpr(s, l).0, r, scope);
        IrOfScalar(l.ty);
        IrOfScalar(r.ty);
      }
  }
}
