/** Return reachability: sema's check, its twin in stage1, and what accepting a
    body promises about its runs. */
module Reachability {
  import opened Words
  import opened Types
  import opened Tree
  import opened Typing

  /** Nothing after this statement in its block can run. */
  predicate StmtDiverges(st: Stmt)
    decreases st
  {
    match st
    case Return(_) => true
    case Break => true
    case Continue => true
    case Block(ss) => BlockDiverges(ss)
    case If(_, thn, els) => els.Some? && BlockDiverges(thn) && StmtDiverges(els.value)
    case Match(_, arms) =>
      && (exists i :: 0 <= i < |arms| && HasWildcard(arms[i].labels))
      && forall i :: 0 <= i < |arms| ==> StmtDiverges(arms[i].body)
    case _ => false
  }

  predicate BlockDiverges(ss: seq<Stmt>)
    decreases ss
  {
    exists i :: 0 <= i < |ss| && StmtDiverges(ss[i])
  }

  /** The stage1 compiler's version, which does not count `break` and
      `continue`. */
  predicate AlwaysReturns(st: Stmt)
    decreases st
  {
    match st
    case Return(_) => true
    case Block(ss) => AnyReturns(ss)
    case If(_, thn, els) => els.Some? && AnyReturns(thn) && AlwaysReturns(els.value)
    case Match(_, arms) =>
      && (exists i :: 0 <= i < |arms| && HasWildcard(arms[i].labels))
      && forall i :: 0 <= i < |arms| ==> AlwaysReturns(arms[i].body)
    case _ => false
  }

  predicate AnyReturns(ss: seq<Stmt>)
    decreases ss
  {
    exists i :: 0 <= i < |ss| && AlwaysReturns(ss[i])
  }

  // ----------------------------------------------------------------- the checks

  /** sema's loops. */
  method CheckStmt(st: Stmt) returns (diverges: bool)
    ensures diverges == StmtDiverges(st)
    decreases st
  {
    match st {
      case Return(_) => return true;
      case Break => return true;
      case Continue => return true;
      case Block(ss) => diverges := CheckBlock(ss);
      case If(_, thn, els) =>
        if els.None? {
          return false;
        }
        diverges := CheckBlock(thn);
        if diverges {
          diverges := CheckStmt(els.value);
        }
      case Match(_, arms) =>
        var hasWildcard := false;
        for i := 0 to |arms|
          invariant hasWildcard <==> exists k :: 0 <= k < i && HasWildcard(arms[k].labels)
          invariant forall k :: 0 <= k < i ==> StmtDiverges(arms[k].body)
        {
          var here := LooksForWildcard(arms[i].labels);
          if here {
            hasWildcard := true;
          }
          var body := CheckStmt(arms[i].body);
          if !body {
            return false;
          }
        }
        return hasWildcard;
      case _ => return false;
    }
  }

  method CheckBlock(ss: seq<Stmt>) returns (diverges: bool)
    ensures diverges == BlockDiverges(ss)
    decreases ss
  {
    for i := 0 to |ss|
      invariant forall k :: 0 <= k < i ==> !StmtDiverges(ss[k])
    {
      var here := CheckStmt(ss[i]);
      if here {
        return true;
      }
    }
    return false;
  }

  /** The loop over an arm's labels, in both compilers. */
  method LooksForWildcard(labels: seq<Label>) returns (found: bool)
    ensures found == HasWildcard(labels)
  {
    found := false;
    for j := 0 to |labels|
      invariant found <==> exists k :: 0 <= k < j && labels[k].Wildcard?
    {
      if labels[j].Wildcard? {
        found := true;
      }
    }
  }

  /** stage1's loops, which go on to the last arm whatever they find. */
  method CheckReturns(st: Stmt) returns (always: bool)
    ensures always == AlwaysReturns(st)
    decreases st
  {
    match st {
      case Return(_) => return true;
      case Block(ss) => always := CheckAnyReturns(ss);
      case If(_, thn, els) =>
        if els.None? {
          return false;
        }
        always := CheckAnyReturns(thn);
        if always {
          always := CheckReturns(els.value);
        }
      case Match(_, arms) =>
        var hasWildcard, allReturn := false, true;
        for a := 0 to |arms|
          invariant hasWildcard <==> exists k :: 0 <= k < a && HasWildcard(arms[k].labels)
          invariant allReturn <==> forall k :: 0 <= k < a ==> AlwaysReturns(arms[k].body)
        {
          var here := LooksForWildcard(arms[a].labels);
          if here {
            hasWildcard := true;
          }
          var body := CheckReturns(arms[a].body);
          if !body {
            allReturn := false;
          }
        }
        return hasWildcard && allReturn;
      case _ => return false;
    }
  }

  method CheckAnyReturns(ss: seq<Stmt>) returns (any: bool)
    ensures any == AnyReturns(ss)
    decreases ss
  {
    for i := 0 to |ss|
      invariant forall k :: 0 <= k < i ==> !AlwaysReturns(ss[k])
    {
      var here := CheckReturns(ss[i]);
      if here {
        return true;
      }
    }
    return false;
  }

  /** A `break` or `continue` that is not inside a loop of the statement. */
  predicate HasStrayJump(st: Stmt)
    decreases st
  {
    match st
    case Break => true
    case Continue => true
    case Block(ss) => JumpsOut(ss)
    case If(_, thn, els) => JumpsOut(thn) || (els.Some? && HasStrayJump(els.value))
    case Match(_, arms) => exists i :: 0 <= i < |arms| && HasStrayJump(arms[i].body)
    case _ => false
  }

  predicate JumpsOut(ss: seq<Stmt>)
    decreases ss
  {
    exists i :: 0 <= i < |ss| && HasStrayJump(ss[i])
  }

  lemma JumpsOutSplit(ss: seq<Stmt>)
    requires ss != []
    ensures JumpsOut(ss) <==> JumpsOut(ss[..|ss| - 1]) || HasStrayJump(ss[|ss| - 1])
  {
    hide HasStrayJump;
    var k := |ss| - 1;
    assert forall i :: 0 <= i < k ==> ss[..k][i] == ss[i];
    if JumpsOut(ss) && !HasStrayJump(ss[k]) {
      var i :| 0 <= i < |ss| && HasStrayJump(ss[i]);
      assert HasStrayJump(ss[..k][i]);
    }
    if JumpsOut(ss[..k]) {
      var i :| 0 <= i < k && HasStrayJump(ss[..k][i]);
      assert HasStrayJump(ss[i]);
    }
  }

  /** The two checks give the same verdict on every statement whose jumps are
      all inside loops; a stray jump only ever makes the first say yes. */
  lemma {:induction false} TwinsAgree(st: Stmt)
    ensures AlwaysReturns(st) ==> StmtDiverges(st)
    ensures !HasStrayJump(st) ==> (AlwaysReturns(st) <==> StmtDiverges(st))
    decreases st
  {
    match st
    case Block(ss) => BlockTwinsAgree(ss);
    case If(_, thn, els) =>
      BlockTwinsAgree(thn);
      if els.Some? {
        TwinsAgree(els.value);
      }
    case Match(_, arms) =>
      forall i | 0 <= i < |arms|
        ensures AlwaysReturns(arms[i].body) ==> StmtDiverges(arms[i].body)
        ensures !HasStrayJump(arms[i].body) ==> (AlwaysReturns(arms[i].body) <==> StmtDiverges(arms[i].body))
      {
        TwinsAgree(arms[i].body);
      }
    case _ =>
  }

  lemma {:induction false} BlockTwinsAgree(ss: seq<Stmt>)
    ensures AnyReturns(ss) ==> BlockDiverges(ss)
    ensures !JumpsOut(ss) ==> (AnyReturns(ss) <==> BlockDiverges(ss))
    decreases ss
  {
    forall i | 0 <= i < |ss|
      ensures AlwaysReturns(ss[i]) ==> StmtDiverges(ss[i])
      ensures !HasStrayJump(ss[i]) ==> (AlwaysReturns(ss[i]) <==> StmtDiverges(ss[i]))
    {
      TwinsAgree(ss[i]);
    }
  }

  /** On a stray jump the two do differ: a body that is one `break`. */
  lemma TwinsDifferOnStrayJump()
    ensures BlockDiverges([Break]) && !AnyReturns([Break])
  {
    assert StmtDiverges([Break][0]);
  }

  // ----------------------------------------------------------------- soundness

  /** A statement that diverges never falls through, whatever it computes. */
  lemma {:induction false} DivergesSound(st: Stmt, env: Env, orc: Oracle, fuel: nat)
    requires StmtDiverges(st)
    ensures !Exec(st, env, orc, fuel).Normal?
    decreases st
  {
    match st
    case Return(_) =>
    case Break =>
    case Continue =>
    case Block(ss) => BlockDivergesSound(ss, env, orc, fuel);
    case If(c, thn, els) =>
      var out := Eval(c, env.vars, env.trace, orc);
      if out.Val? {
        BlockDivergesSound(thn, env.(trace := out.trace), orc, fuel);
        DivergesSound(els.value, env.(trace := out.trace), orc, fuel);
      }
    case Match(e, arms) =>
      var out := Eval(e, env.vars, env.trace, orc);
      if out.Val? {
        WildcardSelects(arms, out.value);
        var i := SelectArm(arms, out.value).value;
        DivergesSound(arms[i].body, env.(trace := out.trace), orc, fuel);
      }
  }

  lemma WildcardSelects(arms: seq<Arm>, v: int)
    requires exists i :: 0 <= i < |arms| && HasWildcard(arms[i].labels)
    ensures SelectArm(arms, v).Some?
  {
  }

  lemma {:induction false} BlockDivergesSound(ss: seq<Stmt>, env: Env, orc: Oracle, fuel: nat)
    requires BlockDiverges(ss)
    ensures !ExecSeq(ss, env, orc, fuel).Normal? && !ExecBlock(ss, env, orc, fuel).Normal?
    decreases ss
  {
    var k := |ss| - 1;
    if BlockDiverges(ss[..k]) {
      BlockDivergesSound(ss[..k], env, orc, fuel);
    } else {
      forall i | 0 <= i < k ensures !StmtDiverges(ss[i]) {
        assert ss[..k][i] == ss[i];
      }
      var r := ExecSeq(ss[..k], env, orc, fuel);
      if r.Normal? {
        DivergesSound(ss[k], r.env, orc, fuel);
      }
    }
  }

  /** Where no jump is stray, none leaves the statement. */
  lemma {:induction false} NoStrayResult(st: Stmt, env: Env, orc: Oracle, fuel: nat)
    requires !HasStrayJump(st)
    ensures var r := Exec(st, env, orc, fuel); !r.Broke? && !r.Continued?
    decreases fuel, st
  {
    hide JumpsOut, SelectArm;
    match st
    case Block(ss) => NoStraySeq(ss, env, orc, fuel);
    case If(c, thn, els) =>
      var out := Eval(c, env.vars, env.trace, orc);
      if out.Val? {
        NoStraySeq(thn, env.(trace := out.trace), orc, fuel);
        if els.Some? {
          NoStrayResult(els.value, env.(trace := out.trace), orc, fuel);
        }
      }
    case While(c, body) =>
      var out := Eval(c, env.vars, env.trace, orc);
      if out.Val? && out.value != 0 && fuel > 0 {
        var r := ExecBlock(body, env.(trace := out.trace), orc, fuel - 1);
        if r.Normal? || r.Continued? {
          NoStrayResult(st, r.env, orc, fuel - 1);
        }
      }
    case Match(e, arms) =>
      var out := Eval(e, env.vars, env.trace, orc);
      if out.Val? && SelectArm(arms, out.value).Some? {
        NoStrayResult(arms[SelectArm(arms, out.value).value].body, env.(trace := out.trace), orc, fuel);
      }
    case _ =>
  }

  lemma {:induction false} NoStraySeq(ss: seq<Stmt>, env: Env, orc: Oracle, fuel: nat)
    requires !JumpsOut(ss)
    ensures var r := ExecSeq(ss, env, orc, fuel); !r.Broke? && !r.Continued?
    decreases fuel, ss
  {
    hide JumpsOut;
    if ss != [] {
      var k := |ss| - 1;
      JumpsOutSplit(ss);
      NoStraySeq(ss[..k], env, orc, fuel);
      var r := ExecSeq(ss[..k], env, orc, fuel);
      if r.Normal? {
        NoStrayResult(ss[k], r.env, orc, fuel);
      }
    }
  }

  /** A body without stray jumps that diverges never falls off its end, and no
      run of it ends in a jump. */
  lemma NeverFallsOff(fn: FnDecl, args: seq<int>, orc: Oracle, fuel: nat)
    requires !JumpsOut(fn.body) && |args| == |fn.params|
    ensures var r := RunBody(fn, args, orc, fuel);
            !r.Broke? && !r.Continued? && (BlockDiverges(fn.body) ==> !r.Normal?)
  {
    var env := Entered(fn, args);
    NoStraySeq(fn.body, env, orc, fuel);
    if BlockDiverges(fn.body) {
      BlockDivergesSound(fn.body, env, orc, fuel);
    }
  }

  // ------------------------------------------------------------------- accepted

  /** What check_fn requires of a function: one that returns a value must have a
      body that diverges. */
  predicate Accepted(fn: FnDecl) {
    TypedFn(fn) && (!fn.ret.Void? ==> BlockDiverges(fn.body))
  }

  /** sema rejects stray jumps. */
  lemma {:induction false} NoStrayTyped(st: Stmt, scope: Scope, ret: Ty)
    requires TypedStmt(st, scope, ret, false)
    ensures !HasStrayJump(st)
    decreases st
  {
    match st
    case Block(ss) => NoneOutTyped(ss, scope, ret);
    case If(_, thn, els) =>
      NoneOutTyped(thn, scope, ret);
      if els.Some? {
        NoStrayTyped(els.value, scope, ret);
      }
    case Match(_, arms) =>
      forall i | 0 <= i < |arms| ensures !HasStrayJump(arms[i].body) {
        NoStrayTyped(arms[i].body, scope, ret);
      }
    case _ =>
  }

  lemma {:induction false} NoneOutTyped(ss: seq<Stmt>, scope: Scope, ret: Ty)
    requires TypedSeq(ss, scope, ret, false)
    ensures !JumpsOut(ss)
    decreases ss
  {
    hide HasStrayJump;
    if ss != [] {
      var k := |ss| - 1;
      JumpsOutSplit(ss);
      NoneOutTyped(ss[..k], scope, ret);
      NoStrayTyped(ss[k], AfterSeq(ss[..k], scope), ret);
    }
  }
}
