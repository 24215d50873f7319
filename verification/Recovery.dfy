/** Where the parser picks up again after an error. */
module Recovery {
  import opened Tokens
  import opened Parsing

  predicate NoneIn(ts: Input, p: nat, q: nat, stops: set<Kind>) {
    forall i :: p <= i < q && i < |ts| ==> ts[i].kind !in stops
  }

  /** Where resynchronisation stops: at the first token from `s` on that is in `stops`,
      or, when that one belongs to what is given up, after it. */
  ghost predicate SyncsAt(ts: Input, s: State, t: State, stops: set<Kind>, passed: set<Kind>)
    requires At(ts, s)
  {
    exists u ::
      && Steady(ts, s, u) && Cur(ts, u) in stops
      && NoneIn(ts, s.pos, u.pos, stops)
      && t == if Cur(ts, u) in passed then Advance(ts, u) else u
  }

  const ITEM_STARTS: set<Kind> := {KW_FN, KW_STRUCT, KW_ENUM, KW_LET, KW_EXTERN}

  const STMT_STARTS: set<Kind> :=
    {LBRACE, KW_LET, KW_IF, KW_WHILE, KW_MATCH, KW_RETURN, KW_BREAK, KW_CONTINUE} + ITEM_STARTS

  lemma SyncHere(ts: Input, s: State, stops: set<Kind>, passed: set<Kind>)
    requires At(ts, s) && Cur(ts, s) in stops
    ensures SyncsAt(ts, s, if Cur(ts, s) in passed then Advance(ts, s) else s, stops, passed)
  {
    hide ErrorTokens, Advance;
    assert Steady(ts, s, s);
  }

  lemma SyncLater(ts: Input, s: State, t: State, stops: set<Kind>, passed: set<Kind>)
    requires At(ts, s) && Cur(ts, s) !in stops && ERROR !in stops && SyncsAt(ts, Advance(ts, s), t, stops, passed)
    ensures SyncsAt(ts, s, t, stops, passed)
  {
    hide ErrorTokens, Advance, NoneIn;
    var s1 := Advance(ts, s);
    var u :| Steady(ts, s1, u) && Cur(ts, u) in stops && NoneIn(ts, s1.pos, u.pos, stops)
             && t == if Cur(ts, u) in passed then Advance(ts, u) else u;
    NoneBetween(ts, s, u.pos, stops);
    assert Steady(ts, s, u);
  }

  lemma NoneBetween(ts: Input, s: State, q: nat, stops: set<Kind>)
    requires At(ts, s) && Cur(ts, s) !in stops && ERROR !in stops && NoneIn(ts, Advance(ts, s).pos, q, stops)
    ensures NoneIn(ts, s.pos, q, stops)
  {
    hide ErrorTokens, Advance;
    OnlyErrorsBetween(ts, s);
    var s1 := Advance(ts, s);
    forall i | s.pos <= i < q && i < |ts| ensures ts[i].kind !in stops {
      if i > s.pos && i < s1.pos {
        assert ts[i].kind == ERROR;
      }
    }
  }

  lemma OnlyErrorsBetween(ts: Input, s: State)
    requires At(ts, s)
    ensures forall i :: s.pos < i < Advance(ts, s).pos ==> ts[i].kind == ERROR
  {
    if s.pos + 1 < |ts| {
      SkipsErrors(ts, s.(pos := s.pos + 1));
    }
  }

  lemma {:induction false} SkipsErrors(ts: Input, s: State)
    requires s.pos < |ts|
    ensures forall i :: s.pos <= i < SkipErrors(ts, s).pos ==> ts[i].kind == ERROR
    decreases |ts| - s.pos
  {
    if ts[s.pos].kind == ERROR && s.pos + 1 < |ts| {
      SkipsErrors(ts, s.(pos := s.pos + 1, lexical := s.lexical + 1));
    }
  }

  /** A broken statement is given up at a brace or where a statement or an item
      starts, or after its semicolon. */
  lemma {:induction false} SyncStmtStops(ts: Input, s: State)
    requires At(ts, s)
    ensures SyncsAt(ts, s, SyncStmt(ts, s), STMT_STARTS + {RBRACE, SEMI, EOF}, {SEMI})
    decreases |ts| - s.pos
  {
    hide ErrorTokens, Advance, SyncsAt;
    var stops := STMT_STARTS + {RBRACE, SEMI, EOF};
    if Cur(ts, s) in stops {
      SyncHere(ts, s, stops, {SEMI});
    } else {
      SyncStmtStops(ts, Advance(ts, s));
      SyncLater(ts, s, SyncStmt(ts, s), stops, {SEMI});
    }
  }

  /** A broken member is given up at the closing brace, or after its semicolon or
      comma. */
  lemma {:induction false} SyncMemberStops(ts: Input, s: State)
    requires At(ts, s)
    ensures SyncsAt(ts, s, SyncMember(ts, s), {RBRACE, SEMI, COMMA, EOF}, {SEMI, COMMA})
    decreases |ts| - s.pos
  {
    hide ErrorTokens, Advance, SyncsAt;
    var stops, passed := {RBRACE, SEMI, COMMA, EOF}, {SEMI, COMMA};
    if Cur(ts, s) in stops {
      SyncHere(ts, s, stops, passed);
    } else {
      SyncMemberStops(ts, Advance(ts, s));
      SyncLater(ts, s, SyncMember(ts, s), stops, passed);
    }
  }

  /** A broken item is given up where the next one starts. */
  lemma {:induction false} SyncItemStops(ts: Input, s: State)
    requires At(ts, s)
    ensures SyncsAt(ts, s, SyncItem(ts, s), ITEM_STARTS + {EOF}, {})
    decreases |ts| - s.pos
  {
    hide ErrorTokens, Advance, SyncsAt;
    var stops := ITEM_STARTS + {EOF};
    if Cur(ts, s) in stops {
      SyncHere(ts, s, stops, {});
    } else {
      SyncItemStops(ts, Advance(ts, s));
      SyncLater(ts, s, SyncItem(ts, s), stops, {});
    }
  }
}
