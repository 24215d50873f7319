/** The scope stack's operations and the checker's walk, on the stacks they push
    and truncate; and that lowering's own list of locals is the one walked in
    Scopes.dfy. */
module ScopesClass {
  import opened Words
  import opened Types
  import opened Tree
  import opened Typing
  import Spec = Scopes
  import Lowering
  import LoweringShape

  class Checker {
    var syms: seq<Decl>
    var marks: seq<nat>
    var errors: nat
    /** The stack at every point where expressions were checked. */
    ghost var log: seq<seq<Decl>>

    constructor ()
      ensures Snap() == Spec.Names([], [], [], 0)
    {
      syms, marks, errors, log := [], [], 0, [];
    }

    ghost function Snap(): Spec.Names
      reads this
    {
      Spec.Names(syms, marks, log, errors)
    }

    ghost predicate Valid()
      reads this
    {
      Spec.CurrentMark(Snap()) <= |syms|
    }

    method ScopePush()
      modifies this
      ensures Snap() == Spec.Push(old(Snap())) && Valid()
    {
      marks := marks + [|syms|];
    }

    method ScopePop()
      requires Valid()
      modifies this
      ensures Snap() == Spec.Pop(old(Snap()))
    {
      if |marks| == 0 {
        return;
      }
      syms := syms[..marks[|marks| - 1]];
      marks := marks[..|marks| - 1];
    }

    /** Innermost first, over all open scopes. */
    method ScopeFind(name: string) returns (r: Option<nat>)
      ensures r == FindDecl(syms, name)
    {
      var i := |syms|;
      assert syms[..i] == syms;
      while i > 0
        invariant 0 <= i <= |syms| && FindDecl(syms, name) == FindDecl(syms[..i], name)
      {
        i := i - 1;
        assert syms[..i + 1][..i] == syms[..i];
        if syms[i].name == name {
          return Some(i);
        }
      }
      r := None;
    }

    /** Only in the scope opened last. */
    method ScopeFindCurrent(name: string) returns (r: Option<nat>)
      requires Valid()
      ensures r.Some? <==> Spec.InCurrent(Snap(), name)
      ensures r.Some? ==> Spec.CurrentMark(Snap()) <= r.value < |syms| && syms[r.value].name == name
    {
      var start := if |marks| == 0 then 0 else marks[|marks| - 1];
      var i := |syms|;
      while i > start
        invariant start <= i <= |syms|
        invariant forall j :: i <= j < |syms| ==> syms[j].name != name
      {
        i := i - 1;
        if syms[i].name == name {
          return Some(i);
        }
      }
      r := None;
    }

    method ScopeDeclare(d: Decl)
      modifies `syms
      ensures syms == old(syms) + [d]
    {
      syms := syms + [d];
    }

    /** Checking an expression leaves the stack alone. */
    ghost method CheckExprs()
      modifies `log
      ensures Snap() == Spec.Note(old(Snap()))
    {
      log := log + [syms];
    }

    /** The name is not in scope in its own initial value. */
    method CheckVarDecl(d: Decl, init: Option<Expr>)
      requires Valid()
      modifies this
      ensures Snap() == Spec.CheckStmt(Var(d, init), old(Snap()))
    {
      if init.Some? {
        CheckExprs();
      }
      var sym := ScopeFindCurrent(d.name);
      if sym.Some? {
        errors := errors + 1;
        return;
      }
      ScopeDeclare(d);
    }

    method CheckStmt(st: Stmt)
      requires Valid()
      modifies this
      ensures Snap() == Spec.CheckStmt(st, old(Snap())) && Valid()
      decreases st, 0
    {
      match st {
        case Block(ss) => CheckBlock(ss);
        case Var(d, init) => CheckVarDecl(d, init);
        case If(_, thn, els) =>
          CheckExprs();
          CheckBlock(thn);
          if els.Some? {
            CheckStmt(els.value);
          }
        case While(_, body) =>
          CheckExprs();
          CheckBlock(body);
        case Match(_, arms) => CheckMatch(arms);
        case Return(e) =>
          if e.Some? {
            CheckExprs();
          }
        case ExprStmt(_) => CheckExprs();
        case Assign(_, _, _) => CheckExprs();
        case Break =>
        case Continue =>
        case Empty =>
      }
    }

    method CheckMatch(arms: seq<Arm>)
      requires Valid()
      modifies this
      ensures Snap() == Spec.CheckArms(arms, Spec.Note(old(Snap()))) && Valid()
      decreases arms, 1
    {
      CheckExprs();
      ghost var s := Snap();
      for i := 0 to |arms|
        invariant Snap() == Spec.CheckArms(arms[..i], s) && Valid()
      {
        assert arms[..i + 1][..i] == arms[..i];
        CheckStmt(arms[i].body);
      }
      assert arms[..|arms|] == arms;
    }

    method CheckBlock(ss: seq<Stmt>)
      requires Valid()
      modifies this
      ensures Snap() == Spec.CheckBlock(ss, old(Snap())) && Valid()
      decreases ss, 1
    {
      ScopePush();
      ghost var s := Snap();
      for i := 0 to |ss|
        invariant Snap() == Spec.CheckSeq(ss[..i], s) && Valid()
      {
        assert ss[..i + 1][..i] == ss[..i];
        CheckStmt(ss[i]);
      }
      assert ss[..|ss|] == ss;
      ScopePop();
    }

    /** Parameters get a scope of their own around the body's. */
    method CheckFn(fn: FnDecl)
      requires Valid()
      modifies this
      ensures Snap() == Spec.CheckFn(fn, old(Snap())) && Valid()
    {
      hide Spec.CheckParams, Spec.CheckBlock;
      ScopePush();
      CheckParams(fn.params);
      CheckBlock(fn.body);
      ScopePop();
    }

    /** The loop over the parameters. */
    method CheckParams(params: seq<Decl>)
      requires Valid()
      modifies this
      ensures Snap() == Spec.CheckParams(params, old(Snap())) && Valid()
    {
      ghost var s := Snap();
      for i := 0 to |params|
        invariant Snap() == Spec.CheckParams(params[..i], s) && Valid()
      {
        assert params[..i + 1][..i] == params[..i];
        var p := ScopeFindCurrent(params[i].name);
        if p.Some? {
          errors := errors + 1;
        } else {
          ScopeDeclare(params[i]);
        }
      }
      assert params[..|params|] == params;
    }
  }

  // --------------------------------------------------------- lowering's locals

  function DeclsOf(locals: seq<Lowering.Binding>): (r: seq<Decl>)
    ensures |r| == |locals| && forall i :: 0 <= i < |locals| ==> r[i] == locals[i].decl
  {
    seq(|locals|, i requires 0 <= i < |locals| => locals[i].decl)
  }

  /** Looking a name up in lowering's locals and in a scope stack with the same
      declarations finds the same one. */
  lemma {:induction false} FindSame(locals: seq<Lowering.Binding>, x: string)
    ensures Lowering.FindLocal(locals, x) == FindDecl(DeclsOf(locals), x)
  {
    if locals != [] {
      var k := |locals| - 1;
      FindSame(locals[..k], x);
      assert DeclsOf(locals)[..k] == DeclsOf(locals[..k]);
    }
  }

  lemma {:induction false} LowKeeps(st: Stmt, l: Spec.Locals)
    requires LoweringShape.ElseOk(st) && !st.Var?
    ensures Spec.LowStmt(st, l).decls == l.decls
    decreases st
  {
    if st.If? && st.els.Some? {
      LowKeeps(st.els.value, Spec.LowBlock(st.thn, Spec.NoteLow(l)));
    }
  }

  /** The walk's list of locals is the one that lowering the statement leaves, and
      the one the statements after it are typed in. */
  lemma LoweringFollows(s: Lowering.Low, st: Stmt, ret: Ty, l: Spec.Locals)
    requires LoweringShape.ElseOk(st) && DeclsOf(s.locals) == l.decls
    ensures DeclsOf(Lowering.LowerStmt(s, st, ret).locals) == Spec.LowStmt(st, l).decls == After(st, l.decls)
  {
    LoweringShape.StmtShapes(s, st, ret);
    hide Lowering.LowerStmt;
    if !st.Var? {
      LowKeeps(st, l);
    } else {
      var t := Lowering.LowerStmt(s, st, ret);
      assert s.locals <= t.locals;
      assert DeclsOf(t.locals) == l.decls + [st.decl];
    }
  }
}
