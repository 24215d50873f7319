/** The scanner's second implementation, in the language itself. It walks the
    text by index, fills a token its caller owns, recognises keywords by a chain
    of comparisons and punctuation by a decision tree. Each routine is proved
    against the same function as the first implementation's. */
module Stage1Lexer {
  import opened Words
  import opened Tokens
  import opened Lexing
  import LexerClass

  const NUL: char := '\0'

  // ------------------------------------------------------------------ keywords

  /** Compares a name with a spelling that a NUL ends. */
  method NameIs(s: string, w: string) returns (same: bool)
    requires NUL !in s && NUL !in w
    ensures same <==> s == w
  {
    var kw := w + [NUL];
    var i := 0;
    while i < |s|
      invariant i <= |s| && i <= |w| && s[..i] == w[..i]
    {
      if kw[i] == NUL || s[i] != kw[i] {
        return false;
      }
      i := i + 1;
    }
    assert s[..|s|] == s && w[..|w|] == w;
    return kw[|s|] == NUL;
  }

  /** One link of the chain: the `k`th keyword is spelled `w`. */
  method KeywordIs(text: string, w: string, ghost k: Kind) returns (same: bool)
    requires NUL !in text && KW_LET <= k <= KW_VOID && w == Spelling(k)
    ensures FindKeyword(text, k) == if same then k else FindKeyword(text, k + 1)
  {
    same := NameIs(text, w);
  }

  /** The chain's second half. */
  method CoreTypeKind(text: string) returns (k: Kind)
    requires NUL !in text
    ensures k == FindKeyword(text, KW_I8)
  {
    hide FindKeyword;
    var b: bool;
    b := KeywordIs(text, "i8", KW_I8); if b { return KW_I8; }
    b := KeywordIs(text, "u8", KW_U8); if b { return KW_U8; }
    b := KeywordIs(text, "i32", KW_I32); if b { return KW_I32; }
    b := KeywordIs(text, "u32", KW_U32); if b { return KW_U32; }
    b := KeywordIs(text, "i64", KW_I64); if b { return KW_I64; }
    b := KeywordIs(text, "u64", KW_U64); if b { return KW_U64; }
    b := KeywordIs(text, "f32", KW_F32); if b { return KW_F32; }
    b := KeywordIs(text, "f64", KW_F64); if b { return KW_F64; }
    b := KeywordIs(text, "b8", KW_B8); if b { return KW_B8; }
    b := KeywordIs(text, "b32", KW_B32); if b { return KW_B32; }
    b := KeywordIs(text, "b64", KW_B64); if b { return KW_B64; }
    b := KeywordIs(text, "void", KW_VOID); if b { return KW_VOID; }
    assert FindKeyword(text, KW_VOID + 1) == IDENT;
    return IDENT;
  }

  method KeywordKind(text: string) returns (k: Kind)
    requires NUL !in text
    ensures k == FindKeyword(text, KW_LET)
  {
    hide FindKeyword;
    var b: bool;
    b := KeywordIs(text, "let", KW_LET); if b { return KW_LET; }
    b := KeywordIs(text, "fn", KW_FN); if b { return KW_FN; }
    b := KeywordIs(text, "if", KW_IF); if b { return KW_IF; }
    b := KeywordIs(text, "else", KW_ELSE); if b { return KW_ELSE; }
    b := KeywordIs(text, "while", KW_WHILE); if b { return KW_WHILE; }
    b := KeywordIs(text, "break", KW_BREAK); if b { return KW_BREAK; }
    b := KeywordIs(text, "continue", KW_CONTINUE); if b { return KW_CONTINUE; }
    b := KeywordIs(text, "return", KW_RETURN); if b { return KW_RETURN; }
    b := KeywordIs(text, "struct", KW_STRUCT); if b { return KW_STRUCT; }
    b := KeywordIs(text, "enum", KW_ENUM); if b { return KW_ENUM; }
    b := KeywordIs(text, "extern", KW_EXTERN); if b { return KW_EXTERN; }
    b := KeywordIs(text, "mut", KW_MUT); if b { return KW_MUT; }
    b := KeywordIs(text, "as", KW_AS); if b { return KW_AS; }
    b := KeywordIs(text, "sizeof", KW_SIZEOF); if b { return KW_SIZEOF; }
    b := KeywordIs(text, "match", KW_MATCH); if b { return KW_MATCH; }
    b := KeywordIs(text, "true", KW_TRUE); if b { return KW_TRUE; }
    b := KeywordIs(text, "false", KW_FALSE); if b { return KW_FALSE; }
    b := KeywordIs(text, "null", KW_NULL); if b { return KW_NULL; }
    k := CoreTypeKind(text);
  }

  // --------------------------------------------------------------- punctuation

  /** The byte `off` places on, or NUL past the end. */
  function Peek(src: string, pos: nat, off: nat): char {
    if pos + off >= |src| then NUL else src[pos + off]
  }

  datatype Munch = Munch(kind: Kind, n: nat)

  /** The decision tree on the next three bytes. */
  function PunctTree(c: char, c1: char, c2: char): Munch {
    match c
    case '<' =>
      if c1 == '<' && c2 == '=' then Munch(SHL_EQ, 3) else if c1 == '<' then Munch(SHL, 2)
      else if c1 == '=' then Munch(LE, 2) else Munch(LT, 1)
    case '>' =>
      if c1 == '>' && c2 == '=' then Munch(SHR_EQ, 3) else if c1 == '>' then Munch(SHR, 2)
      else if c1 == '=' then Munch(GE, 2) else Munch(GT, 1)
    case '.' => if c1 == '.' && c2 == '.' then Munch(ELLIPSIS, 3) else Munch(DOT, 1)
    case '&' => if c1 == '&' then Munch(AMP_AMP, 2) else if c1 == '=' then Munch(AMP_EQ, 2) else Munch(AMP, 1)
    case '|' => if c1 == '|' then Munch(PIPE_PIPE, 2) else if c1 == '=' then Munch(PIPE_EQ, 2) else Munch(PIPE, 1)
    case '=' => if c1 == '=' then Munch(EQ_EQ, 2) else if c1 == '>' then Munch(FAT_ARROW, 2) else Munch(EQ, 1)
    case '!' => if c1 == '=' then Munch(BANG_EQ, 2) else Munch(BANG, 1)
    case '-' => if c1 == '>' then Munch(ARROW, 2) else if c1 == '=' then Munch(MINUS_EQ, 2) else Munch(MINUS, 1)
    case '+' => if c1 == '=' then Munch(PLUS_EQ, 2) else Munch(PLUS, 1)
    case '*' => if c1 == '=' then Munch(STAR_EQ, 2) else Munch(STAR, 1)
    case '/' => if c1 == '=' then Munch(SLASH_EQ, 2) else Munch(SLASH, 1)
    case '%' => if c1 == '=' then Munch(PERCENT_EQ, 2) else Munch(PERCENT, 1)
    case '^' => if c1 == '=' then Munch(CARET_EQ, 2) else Munch(CARET, 1)
    case '~' => Munch(TILDE, 1)
    case '(' => Munch(LPAREN, 1)
    case ')' => Munch(RPAREN, 1)
    case '{' => Munch(LBRACE, 1)
    case '}' => Munch(RBRACE, 1)
    case '[' => Munch(LBRACKET, 1)
    case ']' => Munch(RBRACKET, 1)
    case ',' => Munch(COMMA, 1)
    case ';' => Munch(SEMI, 1)
    case ':' => Munch(COLON, 1)
    case _ => Munch(ERROR, 1)
  }

  /** The three bytes begin with `w`. */
  predicate Fits(c: char, c1: char, c2: char, w: string) {
    && 0 < |w| <= 3 && w[0] == c && (|w| > 1 ==> w[1] == c1) && (|w| > 2 ==> w[2] == c2)
  }

  /** What the tree takes fits, and nothing earlier in the table does. */
  predicate Takes(c: char, c1: char, c2: char, j: Kind)
    requires SHL_EQ <= j <= COLON && Fits(c, c1, c2, Spelling(j))
  {
    var m := PunctTree(c, c1, c2);
    SHL_EQ <= m.kind <= j && Fits(c, c1, c2, Spelling(m.kind)) && m.n == |Spelling(m.kind)|
  }

  lemma TakesLong(c: char, c1: char, c2: char, j: Kind)
    requires SHL_EQ <= j <= SHR && Fits(c, c1, c2, Spelling(j))
    ensures Takes(c, c1, c2, j)
  {
  }

  lemma TakesPair(c: char, c1: char, c2: char, j: Kind)
    requires LE <= j <= FAT_ARROW && Fits(c, c1, c2, Spelling(j))
    ensures Takes(c, c1, c2, j)
  {
  }

  lemma TakesOperator(c: char, c1: char, c2: char, j: Kind)
    requires PLUS <= j <= AMP && Fits(c, c1, c2, Spelling(j))
    ensures Takes(c, c1, c2, j)
  {
  }

  lemma TakesOther(c: char, c1: char, c2: char, j: Kind)
    requires PIPE <= j <= EQ && Fits(c, c1, c2, Spelling(j))
    ensures Takes(c, c1, c2, j)
  {
  }

  lemma TakesMark(c: char, c1: char, c2: char, j: Kind)
    requires LPAREN <= j <= COLON && Fits(c, c1, c2, Spelling(j))
    ensures Takes(c, c1, c2, j)
  {
  }

  lemma TreeTakesFirst(c: char, c1: char, c2: char, j: Kind)
    requires SHL_EQ <= j <= COLON && Fits(c, c1, c2, Spelling(j))
    ensures Takes(c, c1, c2, j)
  {
    hide Takes, Fits, Spelling;
    if j <= SHR {
      TakesLong(c, c1, c2, j);
    } else if j <= FAT_ARROW {
      TakesPair(c, c1, c2, j);
    } else if j <= AMP {
      TakesOperator(c, c1, c2, j);
    } else if j <= EQ {
      TakesOther(c, c1, c2, j);
    } else {
      TakesMark(c, c1, c2, j);
    }
  }

  /** It gives up only where nothing fits. */
  lemma TreeErrs(c: char, c1: char, c2: char)
    ensures var m := PunctTree(c, c1, c2);
            (m.kind == ERROR && m.n == 1) || (SHL_EQ <= m.kind <= COLON && Fits(c, c1, c2, Spelling(m.kind)))
  {
    hide PunctTree, Spelling, Fits;
    if HasLong(c) {
      LongErrs(c, c1, c2);
    } else {
      ShortErrs(c, c1, c2);
    }
  }

  /** A mark of three bytes, or two of two bytes, begins with it. */
  predicate HasLong(c: char) {
    c == '<' || c == '>' || c == '.' || c == '&' || c == '|' || c == '=' || c == '-'
  }

  lemma LongErrs(c: char, c1: char, c2: char)
    requires HasLong(c)
    ensures var m := PunctTree(c, c1, c2); SHL_EQ <= m.kind <= COLON && Fits(c, c1, c2, Spelling(m.kind))
  {
  }

  lemma ShortErrs(c: char, c1: char, c2: char)
    requires !HasLong(c)
    ensures var m := PunctTree(c, c1, c2);
            (m.kind == ERROR && m.n == 1) || (SHL_EQ <= m.kind <= COLON && Fits(c, c1, c2, Spelling(m.kind)))
  {
  }

  lemma FitsIsStart(src: string, pos: nat, w: string)
    requires pos < |src| && 0 < |w| <= 3 && NUL !in w
    ensures Fits(src[pos], Peek(src, pos, 1), Peek(src, pos, 2), w) <==> StartsWith(src, pos, w)
  {
    if StartsWith(src, pos, w) {
      var here := src[pos..pos + |w|];
      assert here[0] == w[0] && (|w| > 1 ==> here[1] == w[1]) && (|w| > 2 ==> here[2] == w[2]);
    }
    if Fits(src[pos], Peek(src, pos, 1), Peek(src, pos, 2), w) {
      assert |w| > 1 ==> w[1] in w && pos + 1 < |src|;
      assert |w| > 2 ==> w[2] in w && pos + 2 < |src|;
      assert src[pos..pos + |w|] == w;
    }
  }

  lemma SpellingShape(k: Kind)
    requires SHL_EQ <= k <= COLON
    ensures 0 < |Spelling(k)| <= 3 && NUL !in Spelling(k)
  {
  }

  /** The tree's choice is the table's first entry that fits, which is the
      longest (LexerLaws.MaximalMunch). */
  lemma TreeIsTable(src: string, pos: nat)
    requires pos < |src|
    ensures var m := PunctTree(src[pos], Peek(src, pos, 1), Peek(src, pos, 2));
            m.kind == FindPunct(src, pos, SHL_EQ) && m.n == (if m.kind == ERROR then 1 else |Spelling(m.kind)|)
  {
    hide PunctTree, Fits, Spelling, StartsWith;
    var c, c1, c2 := src[pos], Peek(src, pos, 1), Peek(src, pos, 2);
    var m, r := PunctTree(c, c1, c2), FindPunct(src, pos, SHL_EQ);
    TreeErrs(c, c1, c2);
    if m.kind != ERROR {
      SpellingShape(m.kind);
      FitsIsStart(src, pos, Spelling(m.kind));
    }
    if r != ERROR {
      SpellingShape(r);
      FitsIsStart(src, pos, Spelling(r));
      TreeTakesFirst(c, c1, c2, r);
    }
  }

  // -------------------------------------------------------------------- tokens

  /** A token's fields are all present; its kind says which ones mean something. */
  class Token {
    var kind: Kind
    var ival: nat
    var text: nat
    var len: nat
    var line: nat
    var col: nat
    var sval: string

    constructor ()
    {
      kind, ival, text, len, line, col, sval := EOF, 0, 0, 0, 0, 0, "";
    }

    function Value(): Lexeme
      reads this
    {
      Lexeme(kind, text, len, line, col, ival, sval)
    }
  }

  class Lexer {
    const src: string
    var pos: nat
    var line: nat
    var lineStart: nat
    var errors: nat

    constructor (text: string)
      ensures src == text && Now() == Initial()
    {
      src := text;
      pos, line, lineStart, errors := 0, 1, 0, 0;
    }

    function Now(): State
      reads this
    {
      State(pos, line, lineStart, errors)
    }

    predicate AtEnd()
      reads this
    {
      pos >= |src|
    }

    /** The token starts where the scanner is and is otherwise blank. */
    predicate StartsHere(t: Token)
      reads this, t
    {
      t.text == pos < |src| && t.ival == 0 && t.sval == ""
    }

    method SkipTrivia()
      requires Located(src, Now())
      modifies this
      ensures Now() == Lexing.SkipTrivia(src, old(Now()))
    {
      while !AtEnd()
        invariant Located(src, Now())
        invariant Lexing.SkipTrivia(src, Now()) == Lexing.SkipTrivia(src, old(Now()))
        decreases |src| - pos
      {
        var c := src[pos];
        if c == '\n' {
          pos := pos + 1;
          line := line + 1;
          lineStart := pos;
        } else {
          if c == ' ' || c == '\t' || c == '\r' {
            SameLine(src, pos, pos + 1);
            pos := pos + 1;
          } else {
            if c == '#' {
              SkipComment();
            } else {
              return;
            }
          }
        }
      }
    }

    /** The inner loop of SkipTrivia. */
    method SkipComment()
      requires Located(src, Now()) && pos < |src| && src[pos] == '#'
      modifies `pos
      ensures pos == CommentEnd(src, old(pos)) && pos > old(pos) && Located(src, Now())
    {
      while !AtEnd() && src[pos] != '\n'
        invariant old(pos) <= pos <= |src|
        invariant CommentEnd(src, pos) == CommentEnd(src, old(pos))
        decreases |src| - pos
        modifies `pos
      {
        pos := pos + 1;
      }
      SameLine(src, old(pos), pos);
    }

    method SetError(t: Token)
      requires t.text <= pos
      modifies `errors, t
      ensures errors == old(errors) + 1 && t.Value() == old(t.Value()).(kind := ERROR, len := pos - old(t.text))
    {
      t.kind := ERROR;
      t.len := pos - t.text;
      errors := errors + 1;
    }

    method ScanCharUnit() returns (ok: bool, out: char)
      requires pos <= |src|
      modifies `pos
      ensures var u := ScanUnit(src, old(pos)); pos == u.cur && ok == u.Unit? && (ok ==> out == u.value)
    {
      out := NUL;
      if AtEnd() || src[pos] == '\n' {
        return false, out;
      }
      var c := src[pos];
      pos := pos + 1;
      if c != '\\' {
        return true, c;
      }
      if AtEnd() || src[pos] == '\n' {
        return false, out;
      }
      var e := src[pos];
      pos := pos + 1;
      match e {
        case 'n' => return true, 10 as char;
        case 'r' => return true, 13 as char;
        case 't' => return true, 9 as char;
        case '0' => return true, 0 as char;
        case '\\' => return true, 92 as char;
        case '\'' => return true, 39 as char;
        case '"' => return true, 34 as char;
        case 'x' =>
          if pos + 1 >= |src| || !IsHexDigit(src[pos]) || !IsHexDigit(src[pos + 1]) {
            return false, out;
          }
          out := (HexVal(src[pos]) * 16 + HexVal(src[pos + 1])) as char;
          pos := pos + 2;
          return true, out;
        case _ => return false, out;
      }
    }

    method LexChar(t: Token)
      requires StartsHere(t) && src[pos] == '\''
      modifies `pos, `errors, t
      ensures var f := Lexing.LexChar(src, old(pos));
              && pos == f.cur && t.Value() == LexerClass.Stamp(old(t.Value()), f)
              && errors == old(errors) + LexerClass.ErrorsOf(f)
    {
      pos := pos + 1;
      if !AtEnd() && src[pos] == '\'' {
        pos := pos + 1;
        SetError(t);
        return;
      }
      var ok, value := ScanCharUnit();
      if !ok {
        SetError(t);
        return;
      }
      if AtEnd() || src[pos] != '\'' {
        SetError(t);
        return;
      }
      pos := pos + 1;
      t.kind := CHAR;
      t.ival := value as nat;
      t.len := pos - t.text;
    }

    method LexString(t: Token)
      requires StartsHere(t) && src[pos] == '"'
      modifies `pos, `errors, t
      ensures var f := Lexing.LexString(src, old(pos));
              && pos == f.cur && t.Value() == LexerClass.Stamp(old(t.Value()), f)
              && errors == old(errors) + LexerClass.ErrorsOf(f)
    {
      pos := pos + 1;
      var eol := pos;
      while eol < |src| && src[eol] != '\n'
        invariant pos <= eol <= |src| && NoNewline(src, pos, eol)
      {
        eol := eol + 1;
      }
      var buf := new char[eol - pos + 1];
      var n := 0;
      var done := false;
      ghost var from := pos;
      while !done
        invariant from <= pos <= |src| && (!done ==> pos <= eol && n <= pos - from) && n < buf.Length
        invariant errors == old(errors) && t.Value() == old(t.Value())
        invariant ScanString(src, from, "") ==
          if done then Found(pos, STRING, 0, buf[..n]) else ScanString(src, pos, buf[..n])
        decreases !done, |src| - pos
        modifies `pos, `errors, t, buf
      {
        if AtEnd() || src[pos] == '\n' {
          SetError(t);
          return;
        }
        if src[pos] == '"' {
          pos := pos + 1;
          done := true;
        } else {
          ghost var u, had := ScanUnit(src, pos), buf[..n];
          assert ScanString(src, pos, had) == if u.BadUnit? then Bad(u.cur)
              else ScanString(src, u.cur, had + [u.value]);
          var ok, value := ScanCharUnit();
          if !ok {
            SetError(t);
            return;
          }
          buf[n] := value;
          n := n + 1;
          assert buf[..n] == had + [u.value];
        }
      }
      t.kind := STRING;
      t.sval := buf[..n];
      t.len := pos - t.text;
    }

    /** The digit loops of LexNumber. */
    method Accumulate(base: nat) returns (v: nat, overflow: bool)
      requires pos <= |src| && (base == 10 || base == 16)
      modifies `pos
      ensures Digits(src, old(pos), base, 0, false) == Number(pos, v, overflow)
    {
      v, overflow := 0, false;
      while !AtEnd() && IsDigitOf(base, src[pos])
        invariant pos <= |src| && v < WORD
        invariant Digits(src, pos, base, v, overflow) == Digits(src, old(pos), base, 0, false)
        decreases |src| - pos
        modifies `pos
      {
        var d := DigitVal(base, src[pos]);
        if v > (18446744073709551615 - d) / base {
          overflow := true;
        }
        v := (v * base + d) % WORD;
        pos := pos + 1;
      }
    }

    method SkipDigits()
      requires pos <= |src|
      modifies `pos
      ensures pos == DigitsEnd(src, old(pos))
    {
      while !AtEnd() && IsDigit(src[pos])
        invariant pos <= |src| && DigitsEnd(src, pos) == DigitsEnd(src, old(pos))
        decreases |src| - pos
        modifies `pos
      {
        pos := pos + 1;
      }
    }

    method LexNumber(t: Token)
      requires StartsHere(t) && IsDigit(src[pos])
      modifies `pos, `errors, t
      ensures var f := Lexing.LexNumber(src, old(pos));
              && pos == f.cur && t.Value() == LexerClass.Stamp(old(t.Value()), f)
              && errors == old(errors) + LexerClass.ErrorsOf(f)
    {
      hide Digits, DigitsEnd, FinishFloat, Lexing.FinishInt, IsIdentCont;
      var v: nat, overflow: bool;
      if Peek(src, pos, 0) == '0' && Peek(src, pos, 1) == 'x' {
        pos := pos + 2;
        if AtEnd() || !IsHexDigit(src[pos]) {
          SetError(t);
          return;
        }
        v, overflow := Accumulate(16);
      } else {
        v, overflow := Accumulate(10);
        if !AtEnd() && src[pos] == '.' && IsDigit(Peek(src, pos, 1)) {
          LexFraction(t);
          return;
        }
      }
      FinishInt(t, v, overflow);
    }

    /** The dot and what follows it. */
    method LexFraction(t: Token)
      requires t.text <= pos && pos + 2 <= |src| && t.ival == 0 && t.sval == ""
      modifies `pos, `errors, t
      ensures var f := FinishFloat(src, DigitsEnd(src, old(pos) + 2));
              && pos == f.cur && t.Value() == LexerClass.Stamp(old(t.Value()), f)
              && errors == old(errors) + LexerClass.ErrorsOf(f)
    {
      pos := pos + 2;
      SkipDigits();
      if !AtEnd() && IsIdentCont(src[pos]) {
        pos := pos + 1;
        SetError(t);
        return;
      }
      t.kind := FLOAT;
      t.len := pos - t.text;
    }

    /** The end of an integer: nothing may run on from it. */
    method FinishInt(t: Token, v: nat, overflow: bool)
      requires t.text <= pos <= |src| && t.ival == 0 && t.sval == ""
      modifies `pos, `errors, t
      ensures var f := Lexing.FinishInt(src, Number(old(pos), v, overflow));
              && pos == f.cur && t.Value() == LexerClass.Stamp(old(t.Value()), f)
              && errors == old(errors) + LexerClass.ErrorsOf(f)
    {
      if !AtEnd() && IsIdentCont(src[pos]) {
        pos := pos + 1;
        SetError(t);
        return;
      }
      if overflow {
        SetError(t);
        return;
      }
      t.kind := INT;
      t.ival := v;
      t.len := pos - t.text;
    }

    method LexIdent(t: Token)
      requires StartsHere(t) && IsIdentStart(src[pos])
      modifies `pos, `errors, t
      ensures var f := Lexing.LexIdent(src, old(pos));
              && pos == f.cur && t.Value() == LexerClass.Stamp(old(t.Value()), f)
              && errors == old(errors) + LexerClass.ErrorsOf(f)
    {
      while !AtEnd() && IsIdentCont(src[pos])
        invariant old(pos) <= pos <= |src| && IdentEnd(src, pos) == IdentEnd(src, old(pos))
        invariant forall i :: old(pos) <= i < pos ==> src[i] != NUL
        decreases |src| - pos
        modifies `pos
      {
        pos := pos + 1;
      }
      t.len := pos - t.text;
      var kind := KeywordKind(src[t.text..pos]);
      t.kind := kind;
    }

    method LexPunct(t: Token)
      requires StartsHere(t) && src[pos] != '\n'
      modifies `pos, `errors, t
      ensures var f := Lexing.LexPunct(src, old(pos));
              && pos == f.cur && t.Value() == LexerClass.Stamp(old(t.Value()), f)
              && errors == old(errors) + LexerClass.ErrorsOf(f)
    {
      hide PunctTree, Spelling;
      var m := PunctTree(Peek(src, pos, 0), Peek(src, pos, 1), Peek(src, pos, 2));
      TreeIsTable(src, pos);
      if m.kind == ERROR {
        pos := pos + 1;
        SetError(t);
        return;
      }
      pos := pos + m.n;
      t.kind := m.kind;
      t.len := m.n;
    }

    method Next(t: Token)
      requires Located(src, Now())
      modifies this, t
      ensures var r := Lexing.Next(src, old(Now())); Now() == r.s && t.Value() == r.t
    {
      hide Lexing.SkipTrivia, Lexing.LexIdent, Lexing.LexNumber, Lexing.LexChar, Lexing.LexString, Lexing.LexPunct;
      hide Newlines, LineStart, Trivia;
      SkipTrivia();
      t.kind := EOF;
      t.ival := 0;
      t.text := pos;
      t.len := 0;
      t.line := line;
      t.col := pos - lineStart + 1;
      t.sval := "";
      if AtEnd() {
        return;
      }
      var c := src[pos];
      if IsIdentStart(c) {
        LexIdent(t);
        return;
      }
      if IsDigit(c) {
        LexNumber(t);
        return;
      }
      if c == '\'' {
        LexChar(t);
        return;
      }
      if c == '"' {
        LexString(t);
        return;
      }
      LexPunct(t);
    }

    method LexAll() returns (tokens: seq<Lexeme>)
      requires Located(src, Now())
      modifies this
      ensures tokens == LexFrom(src, old(Now())) && errors == old(errors) + Wrong(tokens)
    {
      hide Newlines, LineStart, Trivia, Lexing.Next, Wrong;
      tokens := [];
      var done := false;
      while !done
        invariant Located(src, Now())
        invariant LexFrom(src, old(Now())) == if done then tokens else tokens + LexFrom(src, Now())
        invariant ErrorsAhead(src, old(Now())) == if done then errors else ErrorsAhead(src, Now())
        decreases !done, |src| - pos
      {
        ghost var was := Now();
        ErrorsStep(src, was);
        var t := new Token();
        Next(t);
        tokens := tokens + [t.Value()];
        if t.kind == EOF {
          done := true;
        } else {
          assert LexFrom(src, was) == [t.Value()] + LexFrom(src, Now());
        }
      }
    }
  }

  /** Both scanners, on any bytes at all: the same tokens, field by field, and
      the same number of errors. */
  method ScanTwice(text: string) returns (first: seq<Lexeme>, second: seq<Lexeme>, wrong: nat, wrongToo: nat)
    ensures first == second == LexFrom(text, Initial()) && wrong == wrongToo
  {
    var one := new LexerClass.Lexer(text);
    var two := new Lexer(text);
    first, wrong := one.LexAll();
    second := two.LexAll();
    wrongToo := two.errors;
  }
}
