/** What the checker does where a value meets the type its context wants: an
    untyped tree takes the type itself, anything else gets a conversion node. */
module Coercion {
  import opened Words
  import opened Types
  import opened Tree
  import opened Typing
  import opened Conversions
  import SimWords
  import SimExpr

  /** A rewritten tree and the number of errors found on the way. */
  datatype Rewritten = Rewritten(expr: Expr, errors: nat)

  /** Operators that hand their operands' type to their result. */
  predicate Propagates(op: BinOp) {
    op.Add? || op.Sub? || op.Mul? || op.Div? || op.Rem? || op.And? || op.Or? || op.Xor?
  }

  /** The node with another type on it. */
  function WithType(e: Expr, t: Ty): (r: Expr)
    ensures r.ty == t
  {
    match e
    case Int(n, _) => Int(n, t)
    case Bool(b, _) => Bool(b, t)
    case Name(x, _) => Name(x, t)
    case Unary(op, operand, _) => Unary(op, operand, t)
    case Binary(op, l, r, _) => Binary(op, l, r, t)
    case Call(f, args, _) => Call(f, args, t)
    case Conv(operand, _) => Conv(operand, t)
  }

  /** Pushes a type down an untyped tree as far as its untyped nodes reach. */
  function Retype(e: Expr, target: Ty): (r: Rewritten)
    ensures r.expr.ty == target
  {
    match e
    case Int(n, _) =>
      Rewritten(WithType(e, target), if IsInteger(target) && !IntFits(target, n) then 1 else 0)
    case Unary(op, operand, _) =>
      if op.Neg? || op.BitNot? then
        var r := Retype(operand, target);
        Rewritten(Unary(op, r.expr, target), r.errors)
      else Rewritten(WithType(e, target), 0)
    case Binary(op, l, r, _) =>
      if Propagates(op) then
        var l1, r1 := Retype(l, target), Retype(r, target);
        Rewritten(Binary(op, l1.expr, r1.expr, target), l1.errors + r1.errors)
      else if IsShift(op) then
        var l1 := Retype(l, target);
        Rewritten(Binary(op, l1.expr, r, target), l1.errors)
      else Rewritten(WithType(e, target), 0)
    case _ => Rewritten(WithType(e, target), 0)
  }

  function Coerce(e: Expr, target: Ty): Rewritten {
    if e.ty == target || e.ty.Poison? || target.Poison? then Rewritten(e, 0)
    else if !Assignable(e.ty, target) then Rewritten(WithType(e, Poison), 1)
    else if IsUntyped(e.ty) then Retype(e, target)
    else Rewritten(Conv(e, target), 0)
  }

  /** What does not convert costs one error, and the tree that replaces it has the
      error type; what converts costs nothing, save the literals of an untyped
      tree that do not fit. */
  lemma CoerceRejects(e: Expr, target: Ty)
    requires !e.ty.Poison? && !target.Poison?
    ensures var r := Coerce(e, target);
            if Assignable(e.ty, target) then
              r.expr.ty == target && (r.errors == 0 <==> e.ty == target || !IsUntyped(e.ty)
                                                           || AllFit(Literals(e), target))
            else r.errors == 1 && r.expr.ty.Poison?
  {
    hide Widens, IntFits, AllFit;
    RetypeCounts(e, target);
  }

  /** The literals that take the type of an untyped tree, left to right. */
  function Literals(e: Expr): seq<nat> {
    match e
    case Int(n, _) => [n]
    case Unary(op, operand, _) => if op.LogNot? then [] else Literals(operand)
    case Binary(op, l, r, _) =>
      if Propagates(op) then Literals(l) + Literals(r) else if IsShift(op) then Literals(l) else []
    case _ => []
  }

  predicate AllFit(ns: seq<nat>, target: Ty) {
    IsInteger(target) ==> forall i :: 0 <= i < |ns| ==> IntFits(target, ns[i])
  }

  /** Retyping reports nothing exactly when every literal fits the type. */
  lemma {:induction false} RetypeCounts(e: Expr, target: Ty)
    ensures Retype(e, target).errors == 0 <==> AllFit(Literals(e), target)
    decreases e
  {
    hide IntFits, IsInteger, AllFit, Propagates;
    AllFitParts([], [], target);
    match e {
      case Int(n, _) => OneFits(n, target);
      case Unary(_, operand, _) => RetypeCounts(operand, target);
      case Binary(op, l, r, _) =>
        RetypeCounts(l, target);
        RetypeCounts(r, target);
        AllFitParts(Literals(l), Literals(r), target);
      case _ =>
    }
  }

  lemma OneFits(n: nat, target: Ty)
    ensures AllFit([n], target) <==> IsInteger(target) ==> IntFits(target, n)
  {
    hide IntFits;
    assert [n][0] == n;
  }

  lemma AllFitParts(a: seq<nat>, b: seq<nat>, target: Ty)
    ensures AllFit(a + b, target) <==> AllFit(a, target) && AllFit(b, target)
    ensures AllFit([], target)
  {
    hide IntFits;
    assert forall i :: 0 <= i < |a| ==> (a + b)[i] == a[i];
    assert forall i :: 0 <= i < |b| ==> (a + b)[|a| + i] == b[i];
  }

  // ------------------------------------------------------------------- untyped

  /** An untyped integer tree before it meets a type: literals under operators
      that keep them untyped. The amount of a shift has a type of its own, of any
      width, and is not retyped. */
  predicate UntypedTree(e: Expr, scope: Scope)
    decreases e
  {
    match e
    case Int(n, t) => t.UntypedInt? && InRange(t, n)
    case Unary(op, operand, t) => t.UntypedInt? && (op.Neg? || op.BitNot?) && UntypedTree(operand, scope)
    case Binary(op, l, r, t) =>
      && t.UntypedInt?
      && UntypedTree(l, scope)
      && ((Propagates(op) && UntypedTree(r, scope)) || (IsShift(op) && TypedExpr(r, scope) && IsIntLike(r.ty)))
    case _ => false
  }

  /** Retyping an untyped integer tree without an error gives a well-typed tree of
      the target type: every literal in it fits. */
  lemma {:induction false} RetypeTyped(e: Expr, target: Ty, scope: Scope)
    requires UntypedTree(e, scope) && IsInteger(target)
    requires Retype(e, target).errors == 0
    ensures TypedExpr(Retype(e, target).expr, scope)
    decreases e
  {
    hide IntFits, InRange;
    match e {
      case Int(n, _) => FitsInRange(target, n);
      case Unary(_, operand, _) => RetypeTyped(operand, target, scope);
      case Binary(op, l, r, _) =>
        RetypeTyped(l, target, scope);
        if Propagates(op) {
          RetypeTyped(r, target, scope);
        }
    }
  }

  /** A literal fits exactly when the type holds its number. */
  lemma FitsInRange(t: Ty, n: nat)
    requires IsInteger(t) && InRange(UntypedInt, n)
    ensures IntFits(t, n) <==> InRange(t, n)
  {
    hide Pow2;
    PowersOfTwo();
  }

  /** Untyped truth values only change the type at the root. */
  lemma RetypeBoolTyped(e: Expr, target: Ty, scope: Scope)
    requires TypedExpr(e, scope) && e.ty.UntypedBool? && IsBool(target) && (e.Bool? || e.Unary? || e.Binary?)
    ensures TypedExpr(Retype(e, target).expr, scope) && Retype(e, target).errors == 0
  {
  }

  // --------------------------------------------------------------------- ranges

  predicate VarsInRange(vars: seq<Local>) {
    forall i :: 0 <= i < |vars| ==> InRange(vars[i].decl.ty, vars[i].value)
  }

  /** A well-typed expression's value is one that its type holds. */
  lemma {:induction false} EvalInRange(e: Expr, scope: Scope, vars: seq<Local>, tr: Trace, orc: Oracle)
    requires TypedExpr(e, scope) && SimExpr.SameDecls(scope, vars) && VarsInRange(vars) && IsScalar(e.ty)
    requires Eval(e, vars, tr, orc).Val?
    ensures InRange(e.ty, Eval(e, vars, tr, orc).value)
    decreases e
  {
    hide InRange, WrapTy, Arith, Compare, SimExpr.SameDecls, VarsInRange;
    match e {
      case Int(_, _) =>
      case Bool(b, t) => TruthInRange(t, b);
      case Name(x, t) => NameInRange(x, t, scope, vars, tr, orc);
      case Unary(op, operand, t) =>
        var v := Eval(operand, vars, tr, orc).value;
        if op.LogNot? {
          TruthInRange(t, v == 0);
        } else {
          WrapInRange(t, -v);
          WrapInRange(t, -v - 1);
        }
      case Conv(operand, t) => WrapInRange(t, Eval(operand, vars, tr, orc).value);
      case Call(f, args, t) => CallInRange(f, args, scope, vars, tr, orc);
      case Binary(op, l, r, t) =>
        OperandTypes(op, l.ty, r.ty, t);
        EvalInRange(l, scope, vars, tr, orc);
        BinaryInRange(e, scope, vars, tr, orc);
    }
  }

  lemma {:induction false} BinaryInRange(e: Expr, scope: Scope, vars: seq<Local>, tr: Trace, orc: Oracle)
    requires e.Binary? && TypedExpr(e, scope) && SimExpr.SameDecls(scope, vars) && VarsInRange(vars) && IsScalar(e.ty)
    requires Eval(e, vars, tr, orc).Val? && Eval(e.lhs, vars, tr, orc).Val?
    requires InRange(e.lhs.ty, Eval(e.lhs, vars, tr, orc).value)
    ensures InRange(e.ty, Eval(e, vars, tr, orc).value)
    decreases e, 0
  {
    hide InRange, WrapTy, Arith, Compare, SimExpr.SameDecls, VarsInRange;
    var op, t := e.bop, e.ty;
    OperandTypes(op, e.lhs.ty, e.rhs.ty, t);
    var left := Eval(e.lhs, vars, tr, orc);
    if op.LogAnd? && left.value == 0 {
      TruthInRange(t, false);
    } else if op.LogOr? && left.value != 0 {
      BoolsAlike(e.lhs.ty, t, left.value);
    } else {
      EvalInRange(e.rhs, scope, vars, left.trace, orc);
      var right := Eval(e.rhs, vars, left.trace, orc);
      if IsLogical(op) {
        BoolsAlike(e.rhs.ty, t, right.value);
      } else if IsComparison(op) {
        TruthInRange(t, Compare(op, left.value, right.value));
      } else {
        SimWords.ArithSim(op, t, left.value, right.value);
        assert SimWords.Agrees(op, t, left.value, right.value);
      }
    }
  }

  lemma OperandTypes(op: BinOp, l: Ty, r: Ty, t: Ty)
    requires TypedOperands(op, l, r, t)
    ensures IsScalar(l) && IsScalar(r)
    ensures IsLogical(op) ==> IsBoolLike(l) && IsBoolLike(r) && IsBoolLike(t)
    ensures IsComparison(op) ==> IsBoolLike(t)
    ensures !IsLogical(op) && !IsComparison(op) ==> IsIntLike(t) && l == t && (!IsShift(op) ==> r == t)
  {
  }

  lemma TruthInRange(t: Ty, b: bool)
    requires IsBoolLike(t)
    ensures InRange(t, Truth(b))
  {
  }

  lemma BoolsAlike(a: Ty, b: Ty, v: int)
    requires IsBoolLike(a) && IsBoolLike(b) && InRange(a, v)
    ensures InRange(b, v)
  {
  }

  lemma WrapInRange(t: Ty, n: int)
    requires IsScalar(t)
    ensures InRange(t, WrapTy(t, n))
  {
    if IsIntLike(t) {
      WrapTyFacts(t, n);
    }
  }

  lemma NameInRange(x: string, t: Ty, scope: Scope, vars: seq<Local>, tr: Trace, orc: Oracle)
    requires TypedName(x, t, scope) && SimExpr.SameDecls(scope, vars) && VarsInRange(vars)
    requires Eval(Name(x, t), vars, tr, orc).Val?
    ensures InRange(t, Eval(Name(x, t), vars, tr, orc).value)
  {
    SimExpr.LookupsAgree(scope, vars, x);
  }

  lemma CallInRange(f: Fn, args: seq<Expr>, scope: Scope, vars: seq<Local>, tr: Trace, orc: Oracle)
    requires IsScalar(f.ret) && Eval(Call(f, args, f.ret), vars, tr, orc).Val?
    ensures InRange(f.ret, Eval(Call(f, args, f.ret), vars, tr, orc).value)
  {
    var ps := EvalArgs(f, args, vars, tr, orc);
    WrapInRange(f.ret, orc(ps.trace, f.name, ps.patterns));
  }

  // ----------------------------------------------------------------- the result

  /** A conversion put in by the checker without an error changes the type and not
      the value; an enum's value only when its base type, and so the target, cannot
      hold it. */
  lemma CoerceKeepsValue(e: Expr, target: Ty, scope: Scope, vars: seq<Local>, tr: Trace, orc: Oracle)
    requires TypedExpr(e, scope) && SimExpr.SameDecls(scope, vars) && VarsInRange(vars)
    requires IsValueType(e.ty) && IsValueType(target) && Coerce(e, target).errors == 0
    requires Eval(e, vars, tr, orc).Val?
    ensures var r := Coerce(e, target);
            && Assignable(e.ty, target) && r.expr.ty == target && TypedExpr(r.expr, scope)
            && (Eval(r.expr, vars, tr, orc) == Eval(e, vars, tr, orc) <==>
                InRange(target, Eval(e, vars, tr, orc).value))
            && (!e.ty.Enum? ==> InRange(target, Eval(e, vars, tr, orc).value))
  {
    hide InRange, WrapTy, Assignable, Eval;
    var v := Eval(e, vars, tr, orc).value;
    EvalInRange(e, scope, vars, tr, orc);
    CoerceRejects(e, target);
    if e.ty != target {
      NeverNarrows(e.ty, target);
      ConvEval(e, target, vars, tr, orc);
      WrapIffHeld(target, v);
      if !e.ty.Enum? {
        TargetHolds(e.ty, target, v);
      }
    }
  }

  lemma ConvEval(e: Expr, target: Ty, vars: seq<Local>, tr: Trace, orc: Oracle)
    requires Eval(e, vars, tr, orc).Val?
    ensures Eval(Conv(e, target), vars, tr, orc)
            == Eval(e, vars, tr, orc).(value := WrapTy(target, Eval(e, vars, tr, orc).value))
  {
  }

  lemma WrapIffHeld(t: Ty, v: int)
    requires IsScalar(t)
    ensures WrapTy(t, v) == v <==> InRange(t, v)
  {
    WrapInRange(t, v);
    if InRange(t, v) && !IsBoolLike(t) {
      InRangeDecodes(t, v);
    }
  }

  /** An untyped integer tree that meets a type it converts to either contains a
      literal that does not fit, which is an error, or becomes a tree of that type. */
  lemma CoerceUntyped(e: Expr, target: Ty, scope: Scope)
    requires UntypedTree(e, scope) && IsInteger(target)
    ensures var r := Coerce(e, target); r.errors == 0 ==> TypedExpr(r.expr, scope) && r.expr.ty == target
  {
    if Coerce(e, target).errors == 0 {
      RetypeTyped(e, target, scope);
    }
  }
}
