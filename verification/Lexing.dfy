/** The scanner, as functions on its state: what each routine returns and where
    it leaves off. LexerClass.dfy has the routines. A source text is a sequence
    of bytes, written as characters. */
module Lexing {
  import opened Words
  import opened Tokens

  // ------------------------------------------------------------------ classes

  predicate IsDigit(c: char) {
    '0' <= c <= '9'
  }

  predicate IsHexDigit(c: char) {
    IsDigit(c) || 'a' <= c <= 'f' || 'A' <= c <= 'F'
  }

  /** `c | 0x20`. */
  function SetBit5(c: char): nat {
    if c as nat / 32 % 2 == 1 then c as nat else c as nat + 32
  }

  function HexVal(c: char): (v: nat)
    requires IsHexDigit(c)
    ensures IsDigit(c) ==> c as nat == '0' as nat + v && v < 10
    ensures 'a' <= c <= 'f' ==> c as nat + 10 == 'a' as nat + v && 10 <= v < 16
    ensures 'A' <= c <= 'F' ==> c as nat + 10 == 'A' as nat + v && 10 <= v < 16
  {
    if IsDigit(c) then (c - '0') as nat else SetBit5(c) - 'a' as nat + 10
  }

  predicate IsIdentStart(c: char) {
    'a' <= c <= 'z' || 'A' <= c <= 'Z' || c == '_'
  }

  predicate IsIdentCont(c: char) {
    IsIdentStart(c) || IsDigit(c)
  }

  // ------------------------------------------------------------------- tables

  /** How the fixed tokens are spelled; the table's order is the kinds' order. */
  function Spelling(k: Kind): string {
    match k
    case 7 => "let" case 8 => "fn" case 9 => "if" case 10 => "else" case 11 => "while" case 12 => "break"
    case 13 => "continue" case 14 => "return" case 15 => "struct" case 16 => "enum" case 17 => "extern"
    case 18 => "mut" case 19 => "as" case 20 => "sizeof" case 21 => "match" case 22 => "true" case 23 => "false"
    case 24 => "null" case 25 => "i8" case 26 => "u8" case 27 => "i32" case 28 => "u32" case 29 => "i64"
    case 30 => "u64" case 31 => "f32" case 32 => "f64" case 33 => "b8" case 34 => "b32" case 35 => "b64"
    case 36 => "void"
    case 37 => "<<=" case 38 => ">>=" case 39 => "..."
    case 40 => "&&" case 41 => "||" case 42 => "<<" case 43 => ">>" case 44 => "<=" case 45 => ">=" case 46 => "=="
    case 47 => "!=" case 48 => "+=" case 49 => "-=" case 50 => "*=" case 51 => "/=" case 52 => "%=" case 53 => "&="
    case 54 => "|=" case 55 => "^=" case 56 => "->" case 57 => "=>"
    case 58 => "+" case 59 => "-" case 60 => "*" case 61 => "/" case 62 => "%" case 63 => "!" case 64 => "&"
    case 65 => "|" case 66 => "^" case 67 => "~" case 68 => "<" case 69 => ">" case 70 => "=" case 71 => "("
    case 72 => ")" case 73 => "{" case 74 => "}" case 75 => "[" case 76 => "]" case 77 => "." case 78 => ","
    case 79 => ";" case 80 => ":"
    case _ => ""
  }

  /** The text at `cur` begins with `w`. */
  predicate StartsWith(src: string, cur: nat, w: string) {
    cur + |w| <= |src| && src[cur..cur + |w|] == w
  }

  /** The first keyword from `k` on that is spelled like this. */
  function FindKeyword(text: string, k: Kind): (r: Kind)
    requires k >= KW_LET
    ensures r == IDENT || (k <= r <= KW_VOID && text == Spelling(r))
    ensures forall j :: k <= j < (if r == IDENT then KW_VOID + 1 else r) ==> text != Spelling(j)
    decreases KW_VOID + 1 - k
  {
    if k > KW_VOID then IDENT else if text == Spelling(k) then k else FindKeyword(text, k + 1)
  }

  /** The first punctuator from `k` on that the text begins with; ERROR if none. */
  function FindPunct(src: string, cur: nat, k: Kind): (r: Kind)
    requires k >= SHL_EQ
    ensures r == ERROR || (k <= r <= COLON && StartsWith(src, cur, Spelling(r)))
    ensures forall j :: k <= j < (if r == ERROR then COLON + 1 else r) ==> !StartsWith(src, cur, Spelling(j))
    decreases COLON + 1 - k
  {
    if k > COLON then ERROR else if StartsWith(src, cur, Spelling(k)) then k else FindPunct(src, cur, k + 1)
  }

  // ---------------------------------------------------------------- positions

  /** How many lines end before position `n`. */
  function Newlines(src: string, n: nat): nat
    requires n <= |src|
  {
    if n == 0 then 0 else Newlines(src, n - 1) + (if src[n - 1] == '\n' then 1 else 0)
  }

  /** Where the line that position `n` is on starts. */
  function LineStart(src: string, n: nat): (r: nat)
    requires n <= |src|
    ensures r <= n
  {
    if n == 0 then 0 else if src[n - 1] == '\n' then n else LineStart(src, n - 1)
  }

  predicate NoNewline(src: string, a: nat, b: nat) {
    b <= |src| && forall i :: a <= i < b ==> src[i] != '\n'
  }

  lemma {:induction false} SameLine(src: string, a: nat, b: nat)
    requires a <= b && NoNewline(src, a, b)
    ensures Newlines(src, b) == Newlines(src, a) && LineStart(src, b) == LineStart(src, a)
    decreases b
  {
    if a < b {
      SameLine(src, a, b - 1);
    }
  }

  datatype State = State(cur: nat, line: nat, lineStart: nat, errors: nat)

  /** The line counters are right. */
  predicate Located(src: string, s: State) {
    s.cur <= |src| && s.line == 1 + Newlines(src, s.cur) && s.lineStart == LineStart(src, s.cur)
  }

  // ------------------------------------------------------------------- trivia

  predicate IsBlank(c: char) {
    c == ' ' || c == '\t' || c == '\r' || c == '\n'
  }

  /** A comment runs up to the next newline or the end. */
  function CommentEnd(src: string, cur: nat): (r: nat)
    requires cur <= |src|
    ensures cur <= r <= |src| && NoNewline(src, cur, r) && (r < |src| ==> src[r] == '\n')
    decreases |src| - cur
  {
    if cur < |src| && src[cur] != '\n' then CommentEnd(src, cur + 1) else cur
  }

  /** From `a` to `b` there are only blanks and whole comments. */
  predicate Trivia(src: string, a: nat, b: nat)
    requires a <= b <= |src|
    decreases b - a
  {
    a == b
    || (IsBlank(src[a]) && Trivia(src, a + 1, b))
    || (src[a] == '#' && a < CommentEnd(src, a) <= b && Trivia(src, CommentEnd(src, a), b))
  }

  function SkipTrivia(src: string, s: State): (t: State)
    requires Located(src, s)
    ensures Located(src, t) && s.cur <= t.cur && t.errors == s.errors && Trivia(src, s.cur, t.cur)
    ensures t.cur < |src| ==> !IsBlank(src[t.cur]) && src[t.cur] != '#'
    decreases |src| - s.cur
  {
    if s.cur == |src| then s
    else
      var c := src[s.cur];
      if c == '\n' then SkipTrivia(src, s.(cur := s.cur + 1, line := s.line + 1, lineStart := s.cur + 1))
      else if c == ' ' || c == '\t' || c == '\r' then
        SameLine(src, s.cur, s.cur + 1);
        SkipTrivia(src, s.(cur := s.cur + 1))
      else if c == '#' then
        SameLine(src, s.cur, CommentEnd(src, s.cur));
        SkipTrivia(src, s.(cur := CommentEnd(src, s.cur)))
      else s
  }

  // ----------------------------------------------------------------- literals

  /** One element of a character or string literal. */
  datatype Unit = Unit(cur: nat, value: char) | BadUnit(cur: nat)

  /** A step that stays on the line and within the text. */
  predicate Onward(src: string, a: nat, b: nat) {
    a <= b && NoNewline(src, a, b)
  }

  function Escape(e: char): Option<char> {
    match e
    case 'n' => Some('\n')
    case 'r' => Some('\r')
    case 't' => Some('\t')
    case '0' => Some('\0')
    case '\\' => Some('\\')
    case '\'' => Some('\'')
    case '"' => Some('"')
    case _ => None
  }

  function ScanUnit(src: string, cur: nat): (r: Unit)
    requires cur <= |src|
    ensures Onward(src, cur, r.cur) && (r.Unit? ==> r.cur > cur)
  {
    if cur == |src| || src[cur] == '\n' then BadUnit(cur)
    else if src[cur] != '\\' then Unit(cur + 1, src[cur])
    else if cur + 1 == |src| || src[cur + 1] == '\n' then BadUnit(cur + 1)
    else if Escape(src[cur + 1]).Some? then Unit(cur + 2, Escape(src[cur + 1]).value)
    else if src[cur + 1] != 'x' then BadUnit(cur + 2)
    else if |src| - (cur + 2) < 2 || !IsHexDigit(src[cur + 2]) || !IsHexDigit(src[cur + 3]) then BadUnit(cur + 2)
    else Unit(cur + 4, (HexVal(src[cur + 2]) * 16 + HexVal(src[cur + 3])) as char)
  }

  /** What a scanning routine found: up to where, and as what. */
  datatype Found = Found(cur: nat, kind: Kind, value: nat, str: string)

  predicate Finds(src: string, cur: nat, f: Found) {
    Onward(src, cur, f.cur) && f.cur > cur && f.kind != EOF
  }

  function Bad(cur: nat): Found {
    Found(cur, ERROR, 0, "")
  }

  function LexChar(src: string, cur: nat): (f: Found)
    requires cur < |src| && src[cur] == '\''
    ensures Finds(src, cur, f)
  {
    if cur + 1 < |src| && src[cur + 1] == '\'' then Bad(cur + 2)
    else
      var u := ScanUnit(src, cur + 1);
      if u.BadUnit? then Bad(u.cur)
      else if u.cur == |src| || src[u.cur] != '\'' then Bad(u.cur)
      else Found(u.cur + 1, CHAR, u.value as nat, "")
  }

  function LexString(src: string, cur: nat): (f: Found)
    requires cur < |src| && src[cur] == '"'
    ensures Finds(src, cur, f)
  {
    ScanString(src, cur + 1, "")
  }

  /** The rest of a string of which `had` has been decoded. */
  function ScanString(src: string, cur: nat, had: string): (f: Found)
    requires cur <= |src|
    ensures Onward(src, cur, f.cur) && f.kind != EOF
    decreases |src| - cur
  {
    if cur == |src| || src[cur] == '\n' then Bad(cur)
    else if src[cur] == '"' then Found(cur + 1, STRING, 0, had)
    else
      var u := ScanUnit(src, cur);
      if u.BadUnit? then Bad(u.cur) else ScanString(src, u.cur, had + [u.value])
  }

  const WORD: nat := 0x1_0000_0000_0000_0000

  predicate IsDigitOf(base: nat, c: char) {
    if base == 16 then IsHexDigit(c) else IsDigit(c)
  }

  function DigitVal(base: nat, c: char): (d: nat)
    requires IsDigitOf(base, c)
    ensures d < 16 && (base != 16 ==> d < 10)
  {
    HexVal(c)
  }

  datatype Number = Number(cur: nat, value: nat, overflow: bool)

  /** A run of digits, accumulated in 64 bits. */
  function Digits(src: string, cur: nat, base: nat, v: nat, overflow: bool): (r: Number)
    requires cur <= |src| && (base == 10 || base == 16) && v < WORD
    ensures Onward(src, cur, r.cur) && r.value < WORD
    ensures r.cur < |src| ==> !IsDigitOf(base, src[r.cur])
    ensures forall i :: cur <= i < r.cur ==> IsDigitOf(base, src[i])
    decreases |src| - cur
  {
    if cur < |src| && IsDigitOf(base, src[cur]) then
      var d := DigitVal(base, src[cur]);
      Digits(src, cur + 1, base, (v * base + d) % WORD, overflow || v > (WORD - 1 - d) / base)
    else Number(cur, v, overflow)
  }

  /** The end of a run of decimal digits. */
  function DigitsEnd(src: string, cur: nat): (r: nat)
    requires cur <= |src|
    ensures Onward(src, cur, r) && (r < |src| ==> !IsDigit(src[r]))
    ensures forall i :: cur <= i < r ==> IsDigit(src[i])
    decreases |src| - cur
  {
    if cur < |src| && IsDigit(src[cur]) then DigitsEnd(src, cur + 1) else cur
  }

  function LexNumber(src: string, cur: nat): (f: Found)
    requires cur < |src| && IsDigit(src[cur])
    ensures Finds(src, cur, f)
  {
    if cur + 1 < |src| && src[cur] == '0' && src[cur + 1] == 'x' then
      if cur + 2 == |src| || !IsHexDigit(src[cur + 2]) then Bad(cur + 2)
      else FinishInt(src, Digits(src, cur + 2, 16, 0, false))
    else
      var n := Digits(src, cur, 10, 0, false);
      // `1.as(...)` is an integer and then a postfix operator
      if n.cur + 1 < |src| && src[n.cur] == '.' && IsDigit(src[n.cur + 1]) then
        FinishFloat(src, DigitsEnd(src, n.cur + 2))
      else FinishInt(src, n)
  }

  function FinishInt(src: string, n: Number): (f: Found)
    requires n.cur <= |src|
    ensures Onward(src, n.cur, f.cur) && f.kind != EOF
  {
    if n.cur < |src| && IsIdentCont(src[n.cur]) then Bad(n.cur + 1)
    else if n.overflow then Bad(n.cur)
    else Found(n.cur, INT, n.value, "")
  }

  function FinishFloat(src: string, cur: nat): (f: Found)
    requires cur <= |src|
    ensures Onward(src, cur, f.cur) && f.kind != EOF
  {
    if cur < |src| && IsIdentCont(src[cur]) then Bad(cur + 1) else Found(cur, FLOAT, 0, "")
  }

  /** The end of a run of identifier characters. */
  function IdentEnd(src: string, cur: nat): (r: nat)
    requires cur <= |src|
    ensures Onward(src, cur, r) && (r < |src| ==> !IsIdentCont(src[r]))
    ensures forall i :: cur <= i < r ==> IsIdentCont(src[i])
    decreases |src| - cur
  {
    if cur < |src| && IsIdentCont(src[cur]) then IdentEnd(src, cur + 1) else cur
  }

  function LexIdent(src: string, cur: nat): (f: Found)
    requires cur < |src| && IsIdentStart(src[cur])
    ensures Finds(src, cur, f)
  {
    var end := IdentEnd(src, cur);
    Found(end, FindKeyword(src[cur..end], KW_LET), 0, "")
  }

  function LexPunct(src: string, cur: nat): (f: Found)
    requires cur < |src| && src[cur] != '\n'
    ensures Finds(src, cur, f)
  {
    var k := FindPunct(src, cur, SHL_EQ);
    if k == ERROR then Bad(cur + 1)
    else
      PunctOnward(src, cur, k);
      Found(cur + |Spelling(k)|, k, 0, "")
  }

  lemma PunctOnward(src: string, cur: nat, k: Kind)
    requires SHL_EQ <= k <= COLON && StartsWith(src, cur, Spelling(k))
    ensures |Spelling(k)| > 0 && Onward(src, cur, cur + |Spelling(k)|)
  {
    var w := Spelling(k);
    assert |w| <= 3 && forall i :: 0 <= i < |w| ==> w[i] != '\n';
    forall i | cur <= i < cur + |w| ensures src[i] != '\n' {
      assert src[i] == src[cur..cur + |w|][i - cur];
    }
  }

  // --------------------------------------------------------------------- next

  /** A token: its place in the text, its line and column counted from 1, and
      its value. The value of a floating-point literal and the wording of an
      error are left out. */
  datatype Lexeme = Lexeme(kind: Kind, start: nat, len: nat, line: nat, col: nat, value: nat, str: string)

  datatype Scanned = Scanned(s: State, t: Lexeme)

  function Scan(src: string, cur: nat): (f: Found)
    requires cur < |src| && !IsBlank(src[cur])
    ensures Finds(src, cur, f)
  {
    var c := src[cur];
    if IsIdentStart(c) then LexIdent(src, cur)
    else if IsDigit(c) then LexNumber(src, cur)
    else if c == '\'' then LexChar(src, cur)
    else if c == '"' then LexString(src, cur)
    else LexPunct(src, cur)
  }

  /** The next token. It starts where the blanks and comments end, covers the
      text up to where the scanner stops, and carries the line and column of its
      first byte. */
  function Next(src: string, s: State): (r: Scanned)
    requires Located(src, s)
    ensures Located(src, r.s) && s.cur <= r.t.start && r.s.cur == r.t.start + r.t.len
    ensures Trivia(src, s.cur, r.t.start)
    ensures r.t.line == 1 + Newlines(src, r.t.start) && r.t.col == 1 + r.t.start - LineStart(src, r.t.start)
    ensures r.t.kind == EOF <==> r.t.start == |src|
    ensures r.t.kind == EOF ==> r.t.len == 0
    ensures r.t.kind != EOF ==> r.t.len > 0
    ensures r.s.errors == s.errors + (if r.t.kind == ERROR then 1 else 0)
  {
    var s1 := SkipTrivia(src, s);
    var col := s1.cur - s1.lineStart + 1;
    if s1.cur == |src| then Scanned(s1, Lexeme(EOF, s1.cur, 0, s1.line, col, 0, ""))
    else
      var f := Scan(src, s1.cur);
      SameLine(src, s1.cur, f.cur);
      Scanned(s1.(cur := f.cur, errors := s1.errors + (if f.kind == ERROR then 1 else 0)),
              Lexeme(f.kind, s1.cur, f.cur - s1.cur, s1.line, col, f.value, f.str))
  }

  function Initial(): State {
    State(0, 1, 0, 0)
  }

  /** Everything, up to and including the end-of-file token. */
  function LexFrom(src: string, s: State): (ts: seq<Lexeme>)
    requires Located(src, s)
    ensures ts != [] && ts[|ts| - 1].kind == EOF && forall i :: 0 <= i < |ts| - 1 ==> ts[i].kind != EOF
    decreases |src| - s.cur
  {
    var r := Next(src, s);
    if r.t.kind == EOF then [r.t] else [r.t] + LexFrom(src, r.s)
  }

  function LexAll(src: string): seq<Lexeme> {
    LexFrom(src, Initial())
  }

  /** How many tokens are errors. */
  function Wrong(ts: seq<Lexeme>): nat {
    if ts == [] then 0 else (if ts[0].kind == ERROR then 1 else 0) + Wrong(ts[1..])
  }

  /** The error count, from here to the end of the text. */
  function ErrorsAhead(src: string, s: State): nat
    requires Located(src, s)
  {
    s.errors + Wrong(LexFrom(src, s))
  }

  lemma ErrorsStep(src: string, s: State)
    requires Located(src, s)
    ensures var r := Next(src, s);
            ErrorsAhead(src, s) == if r.t.kind == EOF then r.s.errors else ErrorsAhead(src, r.s)
  {
    hide Next, Newlines, LineStart, Trivia;
    var r := Next(src, s);
    if r.t.kind == EOF {
      assert LexFrom(src, s) == [r.t] && [r.t][1..] == [];
      assert Wrong([r.t]) == 0;
    } else {
      assert ([r.t] + LexFrom(src, r.s))[1..] == LexFrom(src, r.s);
    }
  }
}
