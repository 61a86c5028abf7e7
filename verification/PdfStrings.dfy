/**
 * Literal strings of the page content: the three-pass escaper against a scanner for
 * section 7.3.4.2 of ISO 32000-1.
 */
module PdfStrings {

  /** strings.ReplaceAll: leftmost, non-overlapping. */
  function ReplaceAll(s: string, target: string, replacement: string): (r: string)
    requires target != ""
  {
    if s == "" then ""
    else if target <= s then replacement + ReplaceAll(s[|target|..], target, replacement)
    else [s[0]] + ReplaceAll(s[1..], target, replacement)
  }

  /** One pass: a backslash in front of every c. */
  function Quote(s: string, c: char): (r: string) {
    ReplaceAll(s, [c], ['\\', c])
  }

  /** escapePDF: backslashes first, so that the later passes' own backslashes survive. */
  function Escape(s: string): (r: string) {
    Quote(Quote(Quote(s, '\\'), '('), ')')
  }

  predicate Special(c: char) {
    c == '\\' || c == '(' || c == ')'
  }

  function EscapeChar(c: char): (r: string) {
    if Special(c) then ['\\', c] else [c]
  }

  /** The one-pass form: each special character behind a backslash. */
  function EscapeEach(s: string): (r: string) {
    if s == "" then "" else EscapeChar(s[0]) + EscapeEach(s[1..])
  }

  lemma {:induction false} QuoteHead(x: char, rest: string, c: char)
    ensures Quote([x] + rest, c) == (if x == c then ['\\', c] else [x]) + Quote(rest, c)
  {
    var s := [x] + rest;
    assert s[1..] == rest;
    assert [c] <= s <==> s[0] == c;
  }

  lemma {:induction false} QuotePair(y: char, rest: string, c: char)
    requires c != '\\' && y != c
    ensures Quote(['\\', y] + rest, c) == ['\\', y] + Quote(rest, c)
  {
    hide Quote;
    assert ['\\', y] + rest == ['\\'] + ([y] + rest);
    QuoteHead('\\', [y] + rest, c);
    QuoteHead(y, rest, c);
  }

  lemma {:induction false} EscapeHead(x: char, rest: string)
    ensures Escape([x] + rest) == EscapeChar(x) + Escape(rest)
  {
    hide Quote;
    var t := Quote(rest, '\\');
    var u := Quote(t, '(');
    QuoteHead(x, rest, '\\');
    if x == '\\' {
      QuotePair('\\', t, '(');
      QuotePair('\\', u, ')');
    } else if x == '(' {
      QuoteHead('(', t, '(');
      QuotePair('(', u, ')');
    } else {
      QuoteHead(x, t, '(');
      QuoteHead(x, u, ')');
    }
  }

  /** Three passes over the string do what one pass per character does. */
  lemma {:induction false} EscapeIsPerCharacter(s: string)
    ensures Escape(s) == EscapeEach(s)
  {
    if s != "" {
      EscapeIsPerCharacter(s[1..]);
      EscapeHead(s[0], s[1..]);
      assert s == [s[0]] + s[1..];
    }
  }

  /** Each parenthesis and backslash gains one backslash, nothing else gains anything. */
  lemma {:induction false} EscapeLength(s: string)
    ensures |Escape(s)| == |s| + multiset(s)['('] + multiset(s)[')'] + multiset(s)['\\']
    ensures '(' !in s && ')' !in s && '\\' !in s ==> Escape(s) == s
  {
    EscapeIsPerCharacter(s);
    EachLength(s);
  }

  lemma {:induction false} EachLength(s: string)
    ensures |EscapeEach(s)| == |s| + multiset(s)['('] + multiset(s)[')'] + multiset(s)['\\']
    ensures '(' !in s && ')' !in s && '\\' !in s ==> EscapeEach(s) == s
  {
    if s != "" {
      EachLength(s[1..]);
      assert s == [s[0]] + s[1..];
      assert EscapeEach(s) == EscapeChar(s[0]) + EscapeEach(s[1..]);
    }
  }

  // ---- The scanner ----

  datatype Scanned = Unterminated | Literal(value: string, rest: string)

  function Prepend(c: char, r: Scanned): Scanned {
    match r
    case Unterminated => Unterminated
    case Literal(value, rest) => Literal([c] + value, rest)
  }

  predicate IsOctal(c: char) {
    '0' <= c <= '7'
  }

  function OctalDigits(s: string): (n: nat)
    ensures n <= 3 && n <= |s|
  {
    if |s| >= 1 && IsOctal(s[0]) then
      if |s| >= 2 && IsOctal(s[1]) then
        if |s| >= 3 && IsOctal(s[2]) then 3 else 2
      else 1
    else 0
  }

  function OctalValue(s: string): (n: int) {
    if s == "" then 0 else OctalValue(s[..|s| - 1]) * 8 + (s[|s| - 1] as int - '0' as int)
  }

  /** The control characters of table 3. */
  function Control(e: char): (c: char) {
    if e == 'n' then '\n' else if e == 'r' then '\r' else if e == 't' then '\t'
    else if e == 'b' then 8 as char else 12 as char
  }

  /**
   * The text after an opening parenthesis, with depth parentheses open. An end-of-line
   * marker reads as a line feed, a backslash before one continues the line, an unknown
   * escape loses its backslash.
   */
  function Scan(s: string, depth: nat): (r: Scanned)
    requires depth >= 1
    decreases |s|
  {
    if s == "" then Unterminated
    else if s[0] == '(' then Prepend('(', Scan(s[1..], depth + 1))
    else if s[0] == ')' then
      if depth == 1 then Literal("", s[1..]) else Prepend(')', Scan(s[1..], depth - 1))
    else if s[0] == '\r' then Prepend('\n', Scan(if "\r\n" <= s then s[2..] else s[1..], depth))
    else if s[0] != '\\' then Prepend(s[0], Scan(s[1..], depth))
    else if |s| == 1 then Unterminated
    else if Special(s[1]) then Prepend(s[1], Scan(s[2..], depth))
    else if s[1] in "nrtbf" then Prepend(Control(s[1]), Scan(s[2..], depth))
    else if s[1] == '\n' then Scan(s[2..], depth)
    else if s[1] == '\r' then Scan(if "\r\n" <= s[1..] then s[3..] else s[2..], depth)
    else
      var n := OctalDigits(s[1..]);
      if n > 0 then Prepend((OctalValue(s[1..n + 1]) % 256) as char, Scan(s[n + 1..], depth))
      else Scan(s[1..], depth)
  }

  function ReadLiteral(s: string): (r: Scanned) {
    if "(" <= s then Scan(s[1..], 1) else Unterminated
  }

  /** End-of-line markers as a reader sees them. */
  function NormalizeEol(s: string): (r: string)
    ensures '\r' !in r
    decreases |s|
  {
    if s == "" then ""
    else if s[0] == '\r' then "\n" + NormalizeEol(if "\r\n" <= s then s[2..] else s[1..])
    else [s[0]] + NormalizeEol(s[1..])
  }

  lemma {:induction false} NormalizeNothing(s: string)
    requires '\r' !in s
    ensures NormalizeEol(s) == s
  {
    if s != "" {
      assert s[0] in s;
      NormalizeNothing(s[1..]);
    }
  }

  lemma {:induction false} ScanEscapedChar(c: char, tail: string)
    requires c == '\r' && tail != "" ==> tail[0] != '\n'
    ensures Scan(EscapeChar(c) + tail, 1) == Prepend(if c == '\r' then '\n' else c, Scan(tail, 1))
  {
    var text := EscapeChar(c) + tail;
    if Special(c) {
      assert text[2..] == tail;
    } else {
      assert text[1..] == tail;
    }
  }

  lemma {:induction false} ScanCrLf(tail: string)
    ensures Scan(['\r', '\n'] + tail, 1) == Prepend('\n', Scan(tail, 1))
  {
    var text := ['\r', '\n'] + tail;
    assert text[2..] == tail;
    assert "\r\n" <= text;
  }

  /** A carriage return is never followed by an escaped line feed unless one followed it before. */
  lemma {:induction false} NoStrayLineFeed(s: string, end: string)
    requires s != "" && !("\r\n" <= s) && end != "" && end[0] != '\n'
    ensures s[0] == '\r' ==> (EscapeEach(s[1..]) + end)[0] != '\n'
  {
    if s[0] == '\r' {
      if |s| > 1 {
        assert EscapeEach(s[1..])[0] == EscapeChar(s[1])[0];
        assert s[1] != '\n';
      } else {
        assert EscapeEach(s[1..]) == "";
      }
    }
  }

  lemma {:induction false} EachHead(s: string)
    requires s != ""
    ensures EscapeEach(s) == EscapeChar(s[0]) + EscapeEach(s[1..])
    ensures !("\r\n" <= s) ==> NormalizeEol(s) == [if s[0] == '\r' then '\n' else s[0]] + NormalizeEol(s[1..])
  {
  }

  lemma {:induction false} EachCrLf(s: string)
    requires "\r\n" <= s
    ensures EscapeEach(s) == ['\r', '\n'] + EscapeEach(s[2..])
  {
    assert s[1..][0] == '\n' && s[1..][1..] == s[2..];
    assert EscapeEach(s[1..]) == ['\n'] + EscapeEach(s[2..]);
  }

  lemma {:induction false} ScanEnd(rest: string)
    ensures Scan(EscapeEach("") + (")" + rest), 1) == Literal(NormalizeEol(""), rest)
  {
    var end := ")" + rest;
    assert end[1..] == rest && EscapeEach("") + end == end;
  }

  lemma {:induction false} ScanEscaped(s: string, rest: string)
    ensures Scan(EscapeEach(s) + (")" + rest), 1) == Literal(NormalizeEol(s), rest)
    decreases |s|
  {
    hide Scan, EscapeEach, EscapeChar;
    var end := ")" + rest;
    if s == "" {
      ScanEnd(rest);
    } else if "\r\n" <= s {
      ScanEscaped(s[2..], rest);
      ScanCrLf(EscapeEach(s[2..]) + end);
      EachCrLf(s);
      assert EscapeEach(s) + end == ['\r', '\n'] + (EscapeEach(s[2..]) + end);
    } else {
      hide NormalizeEol;
      ScanEscaped(s[1..], rest);
      var tail := EscapeEach(s[1..]) + end;
      EachHead(s);
      assert EscapeEach(s) + end == EscapeChar(s[0]) + tail;
      NoStrayLineFeed(s, end);
      ScanEscapedChar(s[0], tail);
    }
  }

  /**
   * The scanner stops exactly at the closing parenthesis the writer put there, whatever the
   * text and whatever follows, and sees the text with its end-of-line markers normalised.
   */
  lemma {:induction false} EscapeScans(s: string, rest: string)
    ensures ReadLiteral("(" + Escape(s) + ")" + rest) == Literal(NormalizeEol(s), rest)
  {
    EscapeIsPerCharacter(s);
    ScanEscaped(s, rest);
    var text := "(" + Escape(s) + ")" + rest;
    assert text[1..] == EscapeEach(s) + (")" + rest);
  }

  /** The text comes back unchanged exactly when it has no carriage return. */
  lemma {:induction false} EscapeRoundTrip(s: string, rest: string)
    ensures ReadLiteral("(" + Escape(s) + ")" + rest) == Literal(s, rest) <==> '\r' !in s
  {
    EscapeScans(s, rest);
    if '\r' !in s {
      NormalizeNothing(s);
    }
  }
}
