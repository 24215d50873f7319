/** What the scanner's tokens mean: they tile the text, punctuation is the
    longest that fits, and integers carry their exact value. */
module LexerLaws {
  import opened Words
  import opened Tokens
  import opened Lexing

  // ------------------------------------------------------------------- tiling

  /** The text from `from` on, put together from the trivia and the tokens. */
  function Glued(src: string, from: nat, ts: seq<Lexeme>): string
    decreases |ts|
  {
    if ts == [] then []
    else
      var t := ts[0];
      if from <= t.start && t.start + t.len <= |src| then
        src[from..t.start] + src[t.start..t.start + t.len] + Glued(src, t.start + t.len, ts[1..])
      else []
  }

  /** Each token starts where the trivia after the one before ends, at the line
      and column it says. */
  predicate Tiles(src: string, from: nat, ts: seq<Lexeme>)
    requires from <= |src|
    decreases |ts|
  {
    ts == [] ||
    (var t := ts[0];
     && from <= t.start && t.start + t.len <= |src| && Trivia(src, from, t.start)
     && t.line == 1 + Newlines(src, t.start) && t.col == 1 + t.start - LineStart(src, t.start)
     && (t.kind == EOF <==> t.start == |src|)
     && Tiles(src, t.start + t.len, ts[1..]))
  }

  lemma Cut(src: string, a: nat, b: nat, c: nat)
    requires a <= b <= c <= |src|
    ensures src[a..] == src[a..b] + src[b..c] + src[c..]
  {
  }

  lemma GlueOne(src: string, from: nat, t: Lexeme, ts: seq<Lexeme>)
    requires from <= t.start && t.start + t.len <= |src| && Glued(src, t.start + t.len, ts) == src[t.start + t.len..]
    ensures Glued(src, from, [t] + ts) == src[from..]
  {
    assert ([t] + ts)[1..] == ts;
    Cut(src, from, t.start, t.start + t.len);
  }

  lemma TileOne(src: string, s: State, ts: seq<Lexeme>)
    requires Located(src, s)
    requires var r := Next(src, s); Tiles(src, r.s.cur, ts)
    ensures Tiles(src, s.cur, [Next(src, s).t] + ts)
  {
    hide Trivia, Newlines, LineStart;
    assert ([Next(src, s).t] + ts)[1..] == ts;
  }

  lemma NothingLeft(src: string)
    ensures Tiles(src, |src|, []) && Glued(src, |src|, []) == src[|src|..]
  {
  }

  /** The tokens and the trivia between them are the whole text, and every token
      is where it says it is. */
  lemma {:induction false} TokensTile(src: string, s: State)
    requires Located(src, s)
    ensures Tiles(src, s.cur, LexFrom(src, s)) && Glued(src, s.cur, LexFrom(src, s)) == src[s.cur..]
    decreases |src| - s.cur
  {
    hide Next, Trivia, Newlines, LineStart, Tiles, Glued;
    var r := Next(src, s);
    var rest: seq<Lexeme> := if r.t.kind == EOF then [] else LexFrom(src, r.s);
    if r.t.kind == EOF {
      NothingLeft(src);
      assert LexFrom(src, s) == [r.t] + rest;
    } else {
      TokensTile(src, r.s);
    }
    TileOne(src, s, rest);
    GlueOne(src, s.cur, r.t, rest);
  }

  lemma LexerTiles(src: string)
    ensures Tiles(src, 0, LexAll(src)) && Glued(src, 0, LexAll(src)) == src
  {
    TokensTile(src, Initial());
    assert src[0..] == src;
  }

  // -------------------------------------------------------------- maximal munch

  /** The table is ordered by length, longest first. */
  lemma LongestFirst(j: Kind, k: Kind)
    requires SHL_EQ <= j <= k <= COLON
    ensures |Spelling(j)| >= |Spelling(k)| > 0
  {
    TableLength(j);
    TableLength(k);
  }

  lemma TableLength(k: Kind)
    requires SHL_EQ <= k <= COLON
    ensures |Spelling(k)| == (if k <= ELLIPSIS then 3 else if k <= FAT_ARROW then 2 else 1)
  {
  }

  /** A punctuation token is the longest entry of the table that the text begins
      with; there is an error token only if it begins with none. */
  lemma MaximalMunch(src: string, cur: nat, k: Kind)
    requires cur < |src| && src[cur] != '\n' && SHL_EQ <= k <= COLON && StartsWith(src, cur, Spelling(k))
    ensures var f := LexPunct(src, cur);
            && SHL_EQ <= f.kind <= COLON && StartsWith(src, cur, Spelling(f.kind))
            && f.cur == cur + |Spelling(f.kind)| && |Spelling(k)| <= |Spelling(f.kind)|
  {
    var r := FindPunct(src, cur, SHL_EQ);
    assert r != ERROR && r <= k;
    LongestFirst(r, k);
  }

  // --------------------------------------------------------------- exact values

  /** The number the digits from `from` to `end` spell, after `acc`. */
  function Exact(src: string, from: nat, end: nat, base: nat, acc: nat): nat
    requires from <= end <= |src| && (forall i :: from <= i < end ==> IsDigitOf(base, src[i]))
    decreases end - from
  {
    if from == end then acc else Exact(src, from + 1, end, base, acc * base + DigitVal(base, src[from]))
  }

  /** One digit more: the 64-bit accumulator stays the remainder, and the test
      before the multiplication fires exactly when the number leaves 64 bits. */
  lemma OneDigit(v: nat, d: nat, base: nat, exact: nat, overflow: bool)
    requires (base == 10 || base == 16) && d < base && v == exact % WORD && (overflow <==> exact >= WORD)
    ensures (v * base + d) % WORD == (exact * base + d) % WORD
    ensures (overflow || v > (WORD - 1 - d) / base) <==> exact * base + d >= WORD
  {
    var q := exact / WORD;
    assert exact * base + d == (v * base + d) + (q * base) * WORD;
    ModShift(v * base + d, q * base, WORD);
    if !overflow {
      DivModUnique(exact, WORD, 0, exact);
      var lim := (WORD - 1 - d) / base;
      assert lim * base <= WORD - 1 - d < (lim + 1) * base;
    }
  }

  lemma {:induction false} DigitsExact(src: string, cur: nat, base: nat, v: nat, overflow: bool, acc: nat)
    requires cur <= |src| && (base == 10 || base == 16) && v < WORD && v == acc % WORD && (overflow <==> acc >= WORD)
    ensures var r := Digits(src, cur, base, v, overflow);
            var exact := Exact(src, cur, r.cur, base, acc);
            r.value == exact % WORD && (r.overflow <==> exact >= WORD)
    decreases |src| - cur
  {
    hide HexVal;
    if cur < |src| && IsDigitOf(base, src[cur]) {
      var d := DigitVal(base, src[cur]);
      OneDigit(v, d, base, acc, overflow);
      DigitsExact(src, cur + 1, base, (v * base + d) % WORD, overflow || v > (WORD - 1 - d) / base, acc * base + d);
    }
  }

  predicate IsHexLiteral(src: string, cur: nat) {
    cur + 2 < |src| && src[cur] == '0' && src[cur + 1] == 'x' && IsHexDigit(src[cur + 2])
  }

  /** Where the digits of an integer literal end. */
  function LiteralEnd(src: string, cur: nat): (e: nat)
    requires cur < |src|
    ensures cur <= e <= |src|
    ensures IsHexLiteral(src, cur) ==> cur + 2 <= e && forall i :: cur + 2 <= i < e ==> IsDigitOf(16, src[i])
    ensures !IsHexLiteral(src, cur) ==> forall i :: cur <= i < e ==> IsDigitOf(10, src[i])
  {
    if IsHexLiteral(src, cur) then Digits(src, cur + 2, 16, 0, false).cur else Digits(src, cur, 10, 0, false).cur
  }

  /** The number an integer literal spells. */
  function LiteralValue(src: string, cur: nat): nat
    requires cur < |src|
  {
    if IsHexLiteral(src, cur) then Exact(src, cur + 2, LiteralEnd(src, cur), 16, 0)
    else Exact(src, cur, LiteralEnd(src, cur), 10, 0)
  }

  /** An integer token carries exactly the number it spells, and that number is
      below 2^64. */
  lemma IntegersAreExact(src: string, cur: nat)
    requires cur < |src| && IsDigit(src[cur]) && LexNumber(src, cur).kind == INT
    ensures var f := LexNumber(src, cur);
            f.value == LiteralValue(src, cur) < WORD && f.cur == LiteralEnd(src, cur)
  {
    hide Exact, Digits;
    DigitsExact(src, cur, 10, 0, false, 0);
    if IsHexLiteral(src, cur) {
      DigitsExact(src, cur + 2, 16, 0, false, 0);
    }
  }

  /** After decimal digits a dot starts a fraction only when a digit follows it. */
  predicate HasFraction(src: string, cur: nat)
    requires cur < |src|
  {
    var e := LiteralEnd(src, cur);
    !IsHexLiteral(src, cur) && e + 1 < |src| && src[e] == '.' && IsDigit(src[e + 1])
  }

  /** An integer literal that nothing runs on from is rejected exactly when the
      number is 2^64 or more. */
  lemma OverflowIsExact(src: string, cur: nat)
    requires cur < |src| && IsDigit(src[cur])
    requires cur + 1 < |src| && src[cur] == '0' && src[cur + 1] == 'x' ==> IsHexLiteral(src, cur)
    requires var e := LiteralEnd(src, cur); e == |src| || !IsIdentCont(src[e])
    requires !HasFraction(src, cur)
    ensures LexNumber(src, cur).kind == ERROR <==> LiteralValue(src, cur) >= WORD
  {
    DigitsExact(src, cur, 10, 0, false, 0);
    if IsHexLiteral(src, cur) {
      DigitsExact(src, cur + 2, 16, 0, false, 0);
    }
  }

  /** Digits, then a dot and digits, that nothing runs on from is a floating-point
      literal; `0x` without a hexadecimal digit is an error, and so is an identifier
      character after any number. Everything else that begins with a digit is an
      integer, unless it does not fit. */
  lemma NumberKinds(src: string, cur: nat)
    requires cur < |src| && IsDigit(src[cur])
    ensures var f, e := LexNumber(src, cur), LiteralEnd(src, cur);
            if cur + 1 < |src| && src[cur] == '0' && src[cur + 1] == 'x' && !IsHexLiteral(src, cur) then f.kind == ERROR
            else if HasFraction(src, cur) then
              var end := DigitsEnd(src, e + 1);
              if end < |src| && IsIdentCont(src[end]) then f.kind == ERROR else f == Found(end, FLOAT, 0, "")
            else if (e < |src| && IsIdentCont(src[e])) || LiteralValue(src, cur) >= WORD then f.kind == ERROR
            else f == Found(e, INT, LiteralValue(src, cur), "")
  {
    hide Exact, Digits;
    DigitsExact(src, cur, 10, 0, false, 0);
    if IsHexLiteral(src, cur) {
      DigitsExact(src, cur + 2, 16, 0, false, 0);
    }
    DigitsEndOn(src, LiteralEnd(src, cur) + 1);
  }

  lemma DigitsEndOn(src: string, cur: nat)
    ensures cur < |src| && IsDigit(src[cur]) ==> DigitsEnd(src, cur) == DigitsEnd(src, cur + 1)
  {
  }

  /** The classes of characters, by their codes. */
  lemma CharClasses(c: char)
    ensures IsIdentStart(c) <==> 65 <= c as int <= 90 || 97 <= c as int <= 122 || c as int == 95
    ensures IsDigit(c) <==> 48 <= c as int <= 57
    ensures IsIdentCont(c) <==> IsIdentStart(c) || IsDigit(c)
    ensures IsBlank(c) <==> c as int in {9, 10, 13, 32}
  {
    assert ' ' as int == 32 && '\t' as int == 9 && '\r' as int == 13 && '\n' as int == 10;
  }

  /** An identifier takes every identifier character there is, and is a keyword
      exactly when its whole text is one. */
  lemma IdentIsExact(src: string, cur: nat, e: nat)
    requires cur < e <= |src| && IsIdentStart(src[cur])
    ensures LexIdent(src, cur).cur == e <==>
              (forall i :: cur <= i < e ==> IsIdentCont(src[i])) && (e == |src| || !IsIdentCont(src[e]))
    ensures var f := LexIdent(src, cur);
            f.kind == IDENT || (KW_LET <= f.kind <= KW_VOID && src[cur..f.cur] == Spelling(f.kind))
    ensures var f := LexIdent(src, cur);
            (exists k :: KW_LET <= k <= KW_VOID && src[cur..f.cur] == Spelling(k)) <==> f.kind != IDENT
  {
    hide Spelling, IsIdentCont;
    assert IdentEnd(src, cur) < e ==> !IsIdentCont(src[IdentEnd(src, cur)]);
  }

  // ------------------------------------------------------------------- escapes

  function Hex(d: nat): char
    requires d < 16
  {
    "0123456789ABCDEF"[d]
  }

  /** One byte of a string the way the tree dump writes it. */
  function Quoted(c: char): string
    requires c as int < 256
  {
    if c == '\n' then "\\n"
    else if c == '\r' then "\\r"
    else if c == '\t' then "\\t"
    else if c == '"' then "\\\""
    else if c == '\\' then "\\\\"
    else if ' ' <= c <= '~' then [c]
    else ['\\', 'x', Hex(c as nat / 16), Hex(c as nat % 16)]
  }

  function QuotedAll(bytes: string): string
    requires forall i :: 0 <= i < |bytes| ==> bytes[i] as int < 256
  {
    if bytes == [] then [] else Quoted(bytes[0]) + QuotedAll(bytes[1..])
  }

  lemma HexReads(d: nat)
    requires d < 16
    ensures IsHexDigit(Hex(d)) && HexVal(Hex(d)) == d
  {
  }

  /** The scanner reads back one quoted byte. */
  lemma UnitReads(src: string, cur: nat, c: char)
    requires c as int < 256 && StartsWith(src, cur, Quoted(c))
    ensures ScanUnit(src, cur) == Unit(cur + |Quoted(c)|, c) && src[cur] != '"' && src[cur] != '\n'
  {
    var w := Quoted(c);
    forall i | 0 <= i < |w| ensures src[cur + i] == w[i] {
      assert src[cur..cur + |w|][i] == w[i];
    }
    HexReads(c as nat / 16);
    HexReads(c as nat % 16);
    assert |w| > 0 && src[cur + 0] == w[0];
    if |w| > 1 {
      assert src[cur + 1] == w[1];
    }
    if |w| == 4 {
      assert src[cur + 2] == w[2] && src[cur + 3] == w[3];
    }
  }

  lemma StartsSplit(src: string, cur: nat, a: string, b: string)
    requires StartsWith(src, cur, a + b)
    ensures StartsWith(src, cur, a) && StartsWith(src, cur + |a|, b)
  {
    assert (a + b)[..|a|] == a && (a + b)[|a|..] == b;
    assert src[cur..cur + |a|] == src[cur..cur + |a + b|][..|a|];
    assert src[cur + |a|..cur + |a + b|] == src[cur..cur + |a + b|][|a|..];
  }

  lemma ScanOne(src: string, cur: nat, c: char, had: string)
    requires c as int < 256 && StartsWith(src, cur, Quoted(c))
    ensures ScanString(src, cur, had) == ScanString(src, cur + |Quoted(c)|, had + [c])
  {
    UnitReads(src, cur, c);
    hide Quoted, ScanUnit, StartsWith;
  }

  lemma QuotedSplit(bytes: string)
    requires forall i :: 0 <= i < |bytes| ==> bytes[i] as int < 256
    requires bytes != []
    ensures QuotedAll(bytes) + "\"" == Quoted(bytes[0]) + (QuotedAll(bytes[1..]) + "\"")
    ensures |QuotedAll(bytes)| == |Quoted(bytes[0])| + |QuotedAll(bytes[1..])|
  {
  }

  lemma QuoteEnds(src: string, cur: nat, had: string)
    requires StartsWith(src, cur, "\"")
    ensures ScanString(src, cur, had) == Found(cur + 1, STRING, 0, had)
  {
    assert src[cur..cur + 1][0] == '"';
  }

  lemma {:induction false} QuotedReads(src: string, cur: nat, bytes: string, had: string)
    requires forall i :: 0 <= i < |bytes| ==> bytes[i] as int < 256
    requires StartsWith(src, cur, QuotedAll(bytes) + "\"")
    ensures ScanString(src, cur, had) == Found(cur + |QuotedAll(bytes)| + 1, STRING, 0, had + bytes)
    decreases |bytes|
  {
    hide Quoted, ScanString, StartsWith;
    if bytes == [] {
      assert QuotedAll(bytes) + "\"" == "\"" && had + bytes == had;
      QuoteEnds(src, cur, had);
    } else {
      QuotedSplit(bytes);
      StartsSplit(src, cur, Quoted(bytes[0]), QuotedAll(bytes[1..]) + "\"");
      ScanOne(src, cur, bytes[0], had);
      QuotedReads(src, cur + |Quoted(bytes[0])|, bytes[1..], had + [bytes[0]]);
      assert had + [bytes[0]] + bytes[1..] == had + bytes;
    }
  }

  /** Scanning the text the tree dump writes for a byte string consumes all of it
      and gives exactly those bytes back. */
  lemma EscapesRoundTrip(bytes: string)
    requires forall i :: 0 <= i < |bytes| ==> bytes[i] as int < 256
    ensures var src := "\"" + QuotedAll(bytes) + "\""; LexString(src, 0) == Found(|src|, STRING, 0, bytes)
  {
    var src := "\"" + QuotedAll(bytes) + "\"";
    assert src == "\"" + (QuotedAll(bytes) + "\"");
    assert src[0..|src|] == src;
    StartsSplit(src, 0, "\"", QuotedAll(bytes) + "\"");
    QuotedReads(src, 1, bytes, "");
    assert "" + bytes == bytes;
  }

  // ------------------------------------------------------ characters and strings

  /** The value of a hexadecimal digit, upper or lower case. */
  predicate HexDigitOf(c: char, d: nat) {
    d < 16 && (c == "0123456789ABCDEF"[d] || c == "0123456789abcdef"[d])
  }

  /** How one byte may be written in a literal: as itself, by a short escape, or in
      hexadecimal. */
  ghost predicate Denotes(w: string, c: char) {
    || (|w| == 1 && w[0] == c && c != '\\' && c != '\n')
    || (w == "\\n" && c == '\n') || (w == "\\r" && c == '\r') || (w == "\\t" && c == '\t')
    || (w == "\\0" && c == '\0') || (w == "\\\\" && c == '\\') || (w == "\\'" && c == '\'')
    || (w == "\\\"" && c == '"')
    || (|w| == 4 && w[0] == '\\' && w[1] == 'x'
        && exists h: nat, l: nat :: HexDigitOf(w[2], h) && HexDigitOf(w[3], l) && c as int == 16 * h + l)
  }

  lemma HexDigits(c: char, d: nat)
    ensures HexDigitOf(c, d) <==> IsHexDigit(c) && d == HexVal(c)
  {
  }

  /** The scanner finds a byte exactly where one is written, and the byte that is. */
  lemma UnitIsExact(src: string, cur: nat)
    requires cur <= |src|
    ensures var u := ScanUnit(src, cur); u.Unit? ==> u.cur <= |src| && Denotes(src[cur..u.cur], u.value)
    ensures forall e: nat, c :: cur <= e <= |src| && Denotes(src[cur..e], c) ==> ScanUnit(src, cur) == Unit(e, c)
  {
    var u := ScanUnit(src, cur);
    if u.Unit? {
      UnitDenotes(src, cur);
    }
    forall e: nat, c | cur <= e <= |src| && Denotes(src[cur..e], c) ensures u == Unit(e, c) {
      DenotedIsFound(src, cur, e, c);
    }
  }

  lemma UnitDenotes(src: string, cur: nat)
    requires cur <= |src| && ScanUnit(src, cur).Unit?
    ensures var u := ScanUnit(src, cur); u.cur <= |src| && Denotes(src[cur..u.cur], u.value)
  {
    hide HexDigitOf;
    var u := ScanUnit(src, cur);
    var w := src[cur..u.cur];
    if |w| == 4 {
      HexDigits(w[2], HexVal(w[2]));
      HexDigits(w[3], HexVal(w[3]));
    }
  }

  lemma DenotedIsFound(src: string, cur: nat, e: nat, c: char)
    requires cur <= e <= |src| && Denotes(src[cur..e], c)
    ensures ScanUnit(src, cur) == Unit(e, c)
  {
    hide HexDigitOf;
    var w := src[cur..e];
    assert forall i :: 0 <= i < |w| ==> w[i] == src[cur + i];
    if |w| == 4 {
      var h: nat, l: nat :| HexDigitOf(w[2], h) && HexDigitOf(w[3], l) && c as int == 16 * h + l;
      HexDigits(w[2], h);
      HexDigits(w[3], l);
    }
  }

  /** A character literal is one byte between quotes, with that byte's value; anything
      else after a quote is an error. */
  lemma CharIsExact(src: string, cur: nat, e: nat, c: char)
    requires cur < |src| && src[cur] == '\''
    ensures LexChar(src, cur).kind in {CHAR, ERROR}
    ensures LexChar(src, cur) == Found(e + 1, CHAR, c as nat, "") <==>
              cur + 1 <= e < |src| && src[e] == '\'' && src[cur + 1] != '\'' && Denotes(src[cur + 1..e], c)
  {
    hide Denotes, ScanUnit;
    UnitIsExact(src, cur + 1);
  }

  /** The text of a string literal between its quotes: bytes, none of them a quote
      written as itself. */
  ghost predicate Spelled(w: string, bytes: string)
    decreases |bytes|
  {
    if bytes == [] then w == []
    else exists k: nat :: 0 < k <= |w| && w[0] != '"' && Denotes(w[..k], bytes[0]) && Spelled(w[k..], bytes[1..])
  }

  /** A string literal is what its text spells, up to the first quote that is not
      escaped; anything else after a quote is an error. */
  lemma StringIsExact(src: string, cur: nat, e: nat, bytes: string)
    requires cur < |src| && src[cur] == '"'
    ensures LexString(src, cur).kind in {STRING, ERROR}
    ensures LexString(src, cur) == Found(e + 1, STRING, 0, bytes) <==>
              cur + 1 <= e < |src| && src[e] == '"' && Spelled(src[cur + 1..e], bytes)
  {
    hide Spelled;
    assert "" + bytes == bytes;
    if cur + 1 <= e < |src| && src[e] == '"' && Spelled(src[cur + 1..e], bytes) {
      SpelledScans(src, cur + 1, e, bytes, "");
    }
    var end, found := ScansSpelled(src, cur + 1, "");
    assert "" + found == found;
  }

  lemma {:induction false} SpelledScans(src: string, cur: nat, e: nat, bytes: string, had: string)
    requires cur <= e < |src| && src[e] == '"' && Spelled(src[cur..e], bytes)
    ensures ScanString(src, cur, had) == Found(e + 1, STRING, 0, had + bytes)
    decreases |bytes|
  {
    hide Denotes, ScanUnit, ScanString, Spelled;
    if bytes == [] {
      NothingSpelled(src[cur..e]);
      assert had + bytes == had;
      ScanQuote(src, cur, had);
    } else {
      var w := src[cur..e];
      var k := FirstSpelled(w, bytes);
      assert w[..k] == src[cur..cur + k] && w[k..] == src[cur + k..e];
      UnitIsExact(src, cur);
      NoNewlineIn(w[..k], bytes[0]);
      assert w[..k][0] == src[cur];
      ScanStep(src, cur, had);
      SpelledScans(src, cur + k, e, bytes[1..], had + [bytes[0]]);
      assert had + [bytes[0]] + bytes[1..] == had + bytes;
    }
  }

  lemma NoNewlineIn(w: string, c: char)
    requires Denotes(w, c)
    ensures w != [] && w[0] != '\n'
  {
  }

  lemma NothingSpelled(w: string)
    ensures Spelled(w, []) <==> w == []
  {
  }

  lemma FirstSpelled(w: string, bytes: string) returns (k: nat)
    requires bytes != [] && Spelled(w, bytes)
    ensures 0 < k <= |w| && w[0] != '"' && Denotes(w[..k], bytes[0]) && Spelled(w[k..], bytes[1..])
  {
    hide Denotes;
    k :| 0 < k <= |w| && w[0] != '"' && Denotes(w[..k], bytes[0]) && Spelled(w[k..], bytes[1..]);
  }

  lemma MoreSpelled(w: string, k: nat, c: char, bytes: string)
    requires 0 < k <= |w| && w[0] != '"' && Denotes(w[..k], c) && Spelled(w[k..], bytes)
    ensures Spelled(w, [c] + bytes)
  {
    hide Denotes;
    var all := [c] + bytes;
    assert all[0] == c && all[1..] == bytes;
  }

  lemma ScanQuote(src: string, cur: nat, had: string)
    requires cur < |src| && src[cur] == '"'
    ensures ScanString(src, cur, had) == Found(cur + 1, STRING, 0, had)
  {
  }

  lemma ScanStep(src: string, cur: nat, had: string)
    requires cur < |src| && src[cur] != '"' && src[cur] != '\n'
    ensures var u := ScanUnit(src, cur);
            if u.Unit? then ScanString(src, cur, had) == ScanString(src, u.cur, had + [u.value])
            else ScanString(src, cur, had).kind == ERROR
  {
    hide ScanUnit;
  }

  lemma ScanNothing(src: string, cur: nat, had: string)
    requires cur <= |src| && (cur == |src| || src[cur] == '\n')
    ensures ScanString(src, cur, had).kind == ERROR
  {
  }

  lemma {:induction false} ScansSpelled(src: string, cur: nat, had: string) returns (e: nat, bytes: string)
    requires cur <= |src|
    ensures var f := ScanString(src, cur, had);
            if f.kind == STRING then
              cur <= e < |src| && src[e] == '"' && Spelled(src[cur..e], bytes)
              && f == Found(e + 1, STRING, 0, had + bytes)
            else f.kind == ERROR
    decreases |src| - cur
  {
    hide Denotes, ScanUnit, ScanString, Spelled;
    e, bytes := cur, [];
    if cur == |src| || src[cur] == '\n' {
      ScanNothing(src, cur, had);
    } else if src[cur] == '"' {
      ScanQuote(src, cur, had);
      NothingSpelled(src[cur..cur]);
      assert had + [] == had;
    } else {
      ScanStep(src, cur, had);
      var u := ScanUnit(src, cur);
      if u.Unit? {
        UnitIsExact(src, cur);
        e, bytes := ScansSpelled(src, u.cur, had + [u.value]);
        if ScanString(src, cur, had).kind == STRING {
          var w, k := src[cur..e], u.cur - cur;
          assert w[..k] == src[cur..u.cur] && w[k..] == src[u.cur..e] && w[0] == src[cur];
          MoreSpelled(w, k, u.value, bytes);
          assert had + [u.value] + bytes == had + ([u.value] + bytes);
          bytes := [u.value] + bytes;
        }
      }
    }
  }
}
