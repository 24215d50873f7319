/** The scanner's routines, on the position, the line counters and the error
    count they update. Each does what its function in Lexing.dfy says. */
module LexerClass {
  import opened Words
  import opened Tokens
  import opened Lexing

  /** The token `t`, ended as `f` says. */
  function Stamp(t: Lexeme, f: Found): Lexeme
    requires t.start <= f.cur
  {
    t.(kind := f.kind, len := f.cur - t.start, value := f.value, str := f.str)
  }

  function ErrorsOf(f: Found): nat {
    if f.kind == ERROR then 1 else 0
  }

  class Lexer {
    const src: string
    var cur: nat
    var line: nat
    var lineStart: nat
    var errors: nat

    constructor (text: string)
      ensures src == text && Now() == Initial()
    {
      src := text;
      cur, line, lineStart, errors := 0, 1, 0, 0;
    }

    /** The scanner's state as a value. */
    function Now(): State
      reads this
    {
      State(cur, line, lineStart, errors)
    }

    /** A token that starts where the scanner is. */
    predicate StartsHere(t: Lexeme)
      reads this
    {
      t.start == cur < |src| && t.value == 0 && t.str == ""
    }

    method SkipTrivia()
      requires Located(src, Now())
      modifies this
      ensures Now() == Lexing.SkipTrivia(src, old(Now()))
    {
      while cur != |src|
        invariant Located(src, Now())
        invariant Lexing.SkipTrivia(src, Now()) == Lexing.SkipTrivia(src, old(Now()))
        decreases |src| - cur
      {
        var c := src[cur];
        if c == '\n' {
          cur := cur + 1;
          line := line + 1;
          lineStart := cur;
        } else if c == ' ' || c == '\t' || c == '\r' {
          SameLine(src, cur, cur + 1);
          cur := cur + 1;
        } else if c == '#' {
          SkipComment();
        } else {
          return;
        }
      }
    }

    /** The inner loop of SkipTrivia. */
    method SkipComment()
      requires Located(src, Now()) && cur < |src| && src[cur] == '#'
      modifies `cur
      ensures cur == CommentEnd(src, old(cur)) && cur > old(cur) && Located(src, Now())
    {
      while cur != |src| && src[cur] != '\n'
        invariant old(cur) <= cur <= |src|
        invariant CommentEnd(src, cur) == CommentEnd(src, old(cur))
        decreases |src| - cur
        modifies `cur
      {
        cur := cur + 1;
      }
      SameLine(src, old(cur), cur);
    }

    method Finish(t: Lexeme, kind: Kind) returns (r: Lexeme)
      requires t.start <= cur
      ensures r == t.(kind := kind, len := cur - t.start)
    {
      r := t.(kind := kind, len := cur - t.start);
    }

    method ErrorAt(t: Lexeme) returns (r: Lexeme)
      requires t.start <= cur
      modifies `errors
      ensures errors == old(errors) + 1 && r == t.(kind := ERROR, len := cur - t.start)
    {
      errors := errors + 1;
      r := Finish(t, ERROR);
    }

    method ScanCharUnit() returns (ok: bool, ch: char)
      requires cur <= |src|
      modifies `cur
      ensures var u := ScanUnit(src, old(cur)); cur == u.cur && ok == u.Unit? && (ok ==> ch == u.value)
    {
      ch := '\0';
      if cur == |src| || src[cur] == '\n' {
        return false, ch;
      }
      var c := src[cur];
      cur := cur + 1;
      if c != '\\' {
        return true, c;
      }
      if cur == |src| || src[cur] == '\n' {
        return false, ch;
      }
      var e := src[cur];
      cur := cur + 1;
      var plain := Escape(e);
      if plain.Some? {
        return true, plain.value;
      }
      if e != 'x' || |src| - cur < 2 || !IsHexDigit(src[cur]) || !IsHexDigit(src[cur + 1]) {
        return false, ch;
      }
      ch := (HexVal(src[cur]) * 16 + HexVal(src[cur + 1])) as char;
      cur := cur + 2;
      ok := true;
    }

    method LexChar(t: Lexeme) returns (r: Lexeme)
      requires StartsHere(t) && src[cur] == '\''
      modifies `cur, `errors
      ensures var f := Lexing.LexChar(src, old(cur));
              cur == f.cur && r == Stamp(t, f) && errors == old(errors) + ErrorsOf(f)
    {
      cur := cur + 1;
      if cur != |src| && src[cur] == '\'' {
        cur := cur + 1;
        r := ErrorAt(t);
        return;
      }
      var ok, ch := ScanCharUnit();
      if !ok {
        r := ErrorAt(t);
        return;
      }
      if cur == |src| || src[cur] != '\'' {
        r := ErrorAt(t);
        return;
      }
      cur := cur + 1;
      r := Finish(t, CHAR);
      r := r.(value := ch as nat);
    }

    /** The decoded bytes go to a buffer sized by the distance to the newline; no
        literal outgrows it. */
    method LexString(t: Lexeme) returns (r: Lexeme)
      requires StartsHere(t) && src[cur] == '"'
      modifies `cur, `errors
      ensures var f := Lexing.LexString(src, old(cur));
              cur == f.cur && r == Stamp(t, f) && errors == old(errors) + ErrorsOf(f)
    {
      cur := cur + 1;
      var eol := cur;
      while eol != |src| && src[eol] != '\n'
        invariant cur <= eol <= |src| && NoNewline(src, cur, eol)
        decreases |src| - eol
      {
        eol := eol + 1;
      }
      var buf := new char[eol - cur + 1];
      var n := 0;
      ghost var from := cur;
      while true
        invariant from <= cur <= eol && n <= cur - from && errors == old(errors)
        invariant ScanString(src, cur, buf[..n]) == ScanString(src, from, "")
        decreases |src| - cur
        modifies `cur, `errors, buf
      {
        if cur == |src| || src[cur] == '\n' {
          r := ErrorAt(t);
          return;
        }
        if src[cur] == '"' {
          cur := cur + 1;
          break;
        }
        ghost var u, had := ScanUnit(src, cur), buf[..n];
        assert ScanString(src, cur, had) == if u.BadUnit? then Bad(u.cur) else ScanString(src, u.cur, had + [u.value]);
        var ok, ch := ScanCharUnit();
        if !ok {
          r := ErrorAt(t);
          return;
        }
        buf[n] := ch;
        n := n + 1;
        assert buf[..n] == had + [u.value];
      }
      r := Finish(t, STRING);
      r := r.(str := buf[..n]);
    }

    /** The digit loops of LexNumber. */
    method Accumulate(base: nat) returns (v: nat, overflow: bool)
      requires cur <= |src| && (base == 10 || base == 16)
      modifies `cur
      ensures Digits(src, old(cur), base, 0, false) == Number(cur, v, overflow)
    {
      v, overflow := 0, false;
      while cur != |src| && IsDigitOf(base, src[cur])
        invariant cur <= |src| && v < WORD
        invariant Digits(src, cur, base, v, overflow) == Digits(src, old(cur), base, 0, false)
        decreases |src| - cur
        modifies `cur
      {
        var d := DigitVal(base, src[cur]);
        cur := cur + 1;
        if v > (WORD - 1 - d) / base {
          overflow := true;
        }
        v := (v * base + d) % WORD;
      }
    }

    method LexNumber(t: Lexeme) returns (r: Lexeme)
      requires StartsHere(t) && IsDigit(src[cur])
      modifies `cur, `errors
      ensures var f := Lexing.LexNumber(src, old(cur));
              cur == f.cur && r == Stamp(t, f) && errors == old(errors) + ErrorsOf(f)
    {
      hide Digits, DigitsEnd, FinishFloat, Lexing.FinishInt, IsIdentCont;
      var v: nat, overflow: bool;
      if |src| - cur >= 2 && src[cur] == '0' && src[cur + 1] == 'x' {
        cur := cur + 2;
        if cur == |src| || !IsHexDigit(src[cur]) {
          r := ErrorAt(t);
          return;
        }
        v, overflow := Accumulate(16);
      } else {
        v, overflow := Accumulate(10);
        if |src| - cur >= 2 && src[cur] == '.' && IsDigit(src[cur + 1]) {
          r := LexFraction(t);
          return;
        }
      }
      r := FinishInt(t, v, overflow);
    }

    /** The dot and what follows it. */
    method LexFraction(t: Lexeme) returns (r: Lexeme)
      requires t.start <= cur && cur + 2 <= |src| && t.value == 0 && t.str == ""
      modifies `cur, `errors
      ensures var f := FinishFloat(src, DigitsEnd(src, old(cur) + 2));
              cur == f.cur && r == Stamp(t, f) && errors == old(errors) + ErrorsOf(f)
    {
      cur := cur + 2;
      SkipDigits();
      if cur != |src| && IsIdentCont(src[cur]) {
        cur := cur + 1;
        r := ErrorAt(t);
        return;
      }
      r := Finish(t, FLOAT);
    }

    /** The end of an integer: nothing may run on from it. */
    method FinishInt(t: Lexeme, v: nat, overflow: bool) returns (r: Lexeme)
      requires t.start <= cur <= |src| && t.value == 0 && t.str == ""
      modifies `cur, `errors
      ensures var f := Lexing.FinishInt(src, Number(old(cur), v, overflow));
              cur == f.cur && r == Stamp(t, f) && errors == old(errors) + ErrorsOf(f)
    {
      if cur != |src| && IsIdentCont(src[cur]) {
        cur := cur + 1;
        r := ErrorAt(t);
        return;
      }
      if overflow {
        r := ErrorAt(t);
        return;
      }
      r := Finish(t, INT);
      r := r.(value := v);
    }

    method SkipDigits()
      requires cur <= |src|
      modifies `cur
      ensures cur == DigitsEnd(src, old(cur))
    {
      while cur != |src| && IsDigit(src[cur])
        invariant cur <= |src| && DigitsEnd(src, cur) == DigitsEnd(src, old(cur))
        decreases |src| - cur
        modifies `cur
      {
        cur := cur + 1;
      }
    }

    method LexIdent(t: Lexeme) returns (r: Lexeme)
      requires StartsHere(t) && IsIdentStart(src[cur])
      modifies `cur, `errors
      ensures var f := Lexing.LexIdent(src, old(cur));
              cur == f.cur && r == Stamp(t, f) && errors == old(errors) + ErrorsOf(f)
    {
      hide Spelling;
      while cur != |src| && IsIdentCont(src[cur])
        invariant old(cur) <= cur <= |src| && IdentEnd(src, cur) == IdentEnd(src, old(cur))
        decreases |src| - cur
        modifies `cur
      {
        cur := cur + 1;
      }
      var text := src[t.start..cur];
      for i := KW_LET to KW_VOID + 1
        invariant FindKeyword(text, i) == FindKeyword(text, KW_LET)
      {
        if Spelling(i) == text {
          r := Finish(t, i);
          return;
        }
      }
      r := Finish(t, IDENT);
    }

    method LexPunct(t: Lexeme) returns (r: Lexeme)
      requires StartsHere(t) && src[cur] != '\n'
      modifies `cur, `errors
      ensures var f := Lexing.LexPunct(src, old(cur));
              cur == f.cur && r == Stamp(t, f) && errors == old(errors) + ErrorsOf(f)
    {
      hide Spelling;
      for i := SHL_EQ to COLON + 1
        invariant cur == old(cur) && errors == old(errors)
        invariant FindPunct(src, cur, i) == FindPunct(src, cur, SHL_EQ)
      {
        if StartsWith(src, cur, Spelling(i)) {
          cur := cur + |Spelling(i)|;
          r := Finish(t, i);
          return;
        }
      }
      cur := cur + 1;
      r := ErrorAt(t);
    }

    method Next() returns (t: Lexeme)
      requires Located(src, Now())
      modifies this
      ensures var r := Lexing.Next(src, old(Now())); Now() == r.s && t == r.t
    {
      hide Lexing.SkipTrivia, Lexing.LexIdent, Lexing.LexNumber, Lexing.LexChar, Lexing.LexString, Lexing.LexPunct;
      hide Newlines, LineStart, Trivia;
      SkipTrivia();
      t := Lexeme(EOF, cur, 0, line, cur - lineStart + 1, 0, "");
      if cur == |src| {
        return;
      }
      var c := src[cur];
      if IsIdentStart(c) {
        t := LexIdent(t);
      } else if IsDigit(c) {
        t := LexNumber(t);
      } else if c == '\'' {
        t := LexChar(t);
      } else if c == '"' {
        t := LexString(t);
      } else {
        t := LexPunct(t);
      }
    }

    /** Everything, and how many tokens are wrong. */
    method LexAll() returns (tokens: seq<Lexeme>, wrong: nat)
      requires Located(src, Now())
      modifies this
      ensures tokens == LexFrom(src, old(Now())) && wrong == old(errors) + Wrong(tokens)
    {
      hide Newlines, LineStart, Trivia, Lexing.Next, Wrong;
      tokens := [];
      while true
        invariant Located(src, Now())
        invariant tokens + LexFrom(src, Now()) == LexFrom(src, old(Now()))
        invariant ErrorsAhead(src, Now()) == ErrorsAhead(src, old(Now()))
        decreases |src| - cur
      {
        ghost var was := Now();
        ErrorsStep(src, was);
        var t := Next();
        tokens := tokens + [t];
        if t.kind == EOF {
          break;
        }
        assert LexFrom(src, was) == [t] + LexFrom(src, Now());
      }
      wrong := errors;
    }
  }
}
