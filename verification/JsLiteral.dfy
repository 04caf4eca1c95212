/** The string-literal printer of packages/core/src/from-curl.ts and the reader the JavaScript
    grammar prescribes for what it prints (section 12.9.4 of ECMA-262). */
module JsLiteral {
  import opened Optional
  import opened Text

  const LS: char := '\U{2028}'
  const PS: char := '\U{2029}'

  /** `s.replace(/c/g, by)` */
  function Replace(s: string, c: char, with: string): string {
    if s == "" then "" else (if s[0] == c then with else [s[0]]) + Replace(s[1..], c, with)
  }

  /** The six replacements of `quote`, in its order. */
  function Body(s: string): string {
    Replace(Replace(Replace(Replace(Replace(Replace(s,
      '\\', "\\\\"), '\'', "\\'"), '\n', "\\n"), '\r', "\\r"), LS, "\\u2028"), PS, "\\u2029")
  }

  function Quote(s: string): string {
    "'" + Body(s) + "'"
  }

  /** What the six do to one character. */
  function Escape(c: char): string {
    if c == '\\' then "\\\\"
    else if c == '\'' then "\\'"
    else if c == '\n' then "\\n"
    else if c == '\r' then "\\r"
    else if c == LS then "\\u2028"
    else if c == PS then "\\u2029"
    else [c]
  }

  function EscapeAll(s: string): string {
    if s == "" then "" else Escape(s[0]) + EscapeAll(s[1..])
  }

  lemma {:induction false} ReplaceAppend(x: string, y: string, c: char, with: string)
    ensures Replace(x + y, c, with) == Replace(x, c, with) + Replace(y, c, with)
  {
    if x == "" {
      assert x + y == y;
    } else {
      ReplaceAppend(x[1..], y, c, with);
      assert (x + y)[1..] == x[1..] + y && (x + y)[0] == x[0];
      Assoc(if x[0] == c then with else [x[0]], Replace(x[1..], c, with), Replace(y, c, with));
    }
  }

  lemma ReplaceOne(d: char, c: char, with: string)
    ensures Replace([d], c, with) == if d == c then with else [d]
  {
    assert Replace([d][1..], c, with) == "";
  }

  lemma BodyAppend(x: string, y: string)
    ensures Body(x + y) == Body(x) + Body(y)
  {
    ReplaceAppend(x, y, '\\', "\\\\");
    var x1, y1 := Replace(x, '\\', "\\\\"), Replace(y, '\\', "\\\\");
    ReplaceAppend(x1, y1, '\'', "\\'");
    var x2, y2 := Replace(x1, '\'', "\\'"), Replace(y1, '\'', "\\'");
    ReplaceAppend(x2, y2, '\n', "\\n");
    var x3, y3 := Replace(x2, '\n', "\\n"), Replace(y2, '\n', "\\n");
    ReplaceAppend(x3, y3, '\r', "\\r");
    var x4, y4 := Replace(x3, '\r', "\\r"), Replace(y3, '\r', "\\r");
    ReplaceAppend(x4, y4, LS, "\\u2028");
    ReplaceAppend(Replace(x4, LS, "\\u2028"), Replace(y4, LS, "\\u2028"), PS, "\\u2029");
  }

  /** A replacement leaves text alone that does not hold its character. */
  lemma {:induction false} ReplaceSkips(s: string, c: char, with: string)
    requires c !in s
    ensures Replace(s, c, with) == s
  {
    if s == "" {
    } else {
      ReplaceSkips(s[1..], c, with);
    }
  }

  lemma BodyOne(c: char)
    ensures Body([c]) == Escape(c)
  {
    ReplaceOne(c, '\\', "\\\\");
    ReplaceOne(c, '\'', "\\'");
    ReplaceOne(c, '\n', "\\n");
    ReplaceOne(c, '\r', "\\r");
    ReplaceOne(c, LS, "\\u2028");
    ReplaceOne(c, PS, "\\u2029");
    var e := Escape(c);
    if c == '\\' { ReplaceSkips(e, '\'', "\\'"); }
    if c == '\\' || c == '\'' { ReplaceSkips(e, '\n', "\\n"); }
    if c == '\\' || c == '\'' || c == '\n' { ReplaceSkips(e, '\r', "\\r"); }
    if c == '\\' || c == '\'' || c == '\n' || c == '\r' { ReplaceSkips(e, LS, "\\u2028"); }
    if c == '\\' || c == '\'' || c == '\n' || c == '\r' || c == LS { ReplaceSkips(e, PS, "\\u2029"); }
  }

  /** The six sequential replacements are one per-character escape. */
  lemma {:induction false} SequentialEqualsPerCharacter(s: string)
    ensures Body(s) == EscapeAll(s)
  {
    if s == "" {
    } else {
      SequentialEqualsPerCharacter(s[1..]);
      BodyOne(s[0]);
      BodyAppend([s[0]], s[1..]);
      assert [s[0]] + s[1..] == s;
    }
  }

  // ---- reading the literal back --------------------------------------------------

  predicate LineTerminator(c: char) {
    c == '\n' || c == '\r' || c == LS || c == PS
  }

  function HexValue(c: char): int {
    if '0' <= c <= '9' then c as int - 48
    else if 'a' <= c <= 'f' then c as int - 87
    else if 'A' <= c <= 'F' then c as int - 55
    else -1
  }

  function Unit(n: int): Option<char> {
    if 0 <= n < 0xD800 || 0xE000 <= n < 0x1_0000 then Some(n as char) else None
  }

  /** The value of `n` hex digits at the start of `s`. */
  function HexRun(s: string, n: nat): Option<int> {
    if n == 0 then Some(0)
    else if |s| < n || HexValue(s[n - 1]) < 0 then None
    else match HexRun(s[..n - 1], n - 1)
      case None => None
      case Some(v) => Some(16 * v + HexValue(s[n - 1]))
  }

  function SingleEscape(c: char): char {
    if c == 'n' then '\n' else if c == 'r' then '\r' else if c == 't' then '\t'
    else if c == 'b' then '\U{8}' else if c == 'v' then '\U{B}' else if c == 'f' then '\U{C}' else c
  }

  /** The characters of a single-quoted literal, after its opening quote, up to the closing
      quote that must end the input. `None` is a syntax error. */
  function ReadChars(s: string): Option<string>
    decreases |s|
  {
    if s == "" then None
    else if s[0] == '\'' then (if |s| == 1 then Some("") else None)
    else if s[0] == '\n' || s[0] == '\r' then None
    else if s[0] != '\\' then Cons(Some(s[0]), ReadChars(s[1..]))
    else if |s| == 1 then None
    else if s[1] == 'u' then
      (match HexRun(s[2..], 4)
       case None => None
       case Some(v) => Cons(Unit(v), ReadChars(s[6..])))
    else if s[1] == 'x' then
      (match HexRun(s[2..], 2)
       case None => None
       case Some(v) => Cons(Unit(v), ReadChars(s[4..])))
    else if s[1] == '\r' && |s| > 2 && s[2] == '\n' then ReadChars(s[3..])
    else if LineTerminator(s[1]) then ReadChars(s[2..])
    else if '1' <= s[1] <= '9' then None
    else if s[1] == '0' then
      (if |s| > 2 && '0' <= s[2] <= '9' then None else Cons(Some('\0'), ReadChars(s[2..])))
    else Cons(Some(SingleEscape(s[1])), ReadChars(s[2..]))
  }

  function Cons(c: Option<char>, rest: Option<string>): Option<string> {
    if c.Some? && rest.Some? then Some([c.value] + rest.value) else None
  }

  function ReadLiteral(s: string): Option<string> {
    if s != "" && s[0] == '\'' then ReadChars(s[1..]) else None
  }

  lemma HexRun4(s: string)
    requires |s| >= 4 && forall i :: 0 <= i < 4 ==> HexValue(s[i]) >= 0
    ensures HexRun(s, 4)
         == Some(4096 * HexValue(s[0]) + 256 * HexValue(s[1]) + 16 * HexValue(s[2]) + HexValue(s[3]))
  {
    var a, b, c := s[..3], s[..3][..2], s[..3][..2][..1];
    assert HexRun(c[..0], 0) == Some(0);
    assert HexRun(c, 1) == Some(HexValue(s[0]));
    assert HexRun(b, 2) == Some(16 * HexValue(s[0]) + HexValue(s[1]));
    assert HexRun(a, 3) == Some(256 * HexValue(s[0]) + 16 * HexValue(s[1]) + HexValue(s[2]));
  }

  lemma UnicodeReadsBack(d: char, rest: string)
    requires '8' <= d <= '9' && ReadChars(rest).Some?
    ensures ReadChars("\\u202" + [d] + rest)
         == Some([if d == '8' then LS else PS] + ReadChars(rest).value)
  {
    var s := "\\u202" + [d] + rest;
    assert s[0] == '\\' && s[1] == 'u' && s[6..] == rest;
    HexRunPrefix(s[2..], "202" + [d], 4);
    HexRun4("202" + [d]);
  }

  lemma HexRunPrefix(s: string, p: string, n: nat)
    requires |s| >= n && |p| == n && s[..n] == p
    ensures HexRun(s, n) == HexRun(p, n)
  {
    if n > 0 { assert s[n - 1] == p[n - 1] && s[..n - 1] == p[..n - 1]; }
  }

  lemma PairReadsBack(c: char, rest: string)
    requires c == '\\' || c == '\'' || c == '\n' || c == '\r'
    requires ReadChars(rest).Some?
    ensures ReadChars(Escape(c) + rest) == Some([c] + ReadChars(rest).value)
  {
    var s := Escape(c) + rest;
    assert s[0] == '\\' && s[1] == Escape(c)[1] && s[2..] == rest;
    assert SingleEscape(s[1]) == c;
  }

  lemma EscapeReadsBack(c: char, rest: string)
    requires ReadChars(rest).Some?
    ensures ReadChars(Escape(c) + rest) == Some([c] + ReadChars(rest).value)
  {
    var s := Escape(c) + rest;
    if c == LS || c == PS {
      var d := if c == LS then '8' else '9';
      UnicodeReadsBack(d, rest);
      assert Escape(c) == "\\u202" + [d];
    } else if c == '\\' || c == '\'' || c == '\n' || c == '\r' {
      PairReadsBack(c, rest);
    } else {
      assert s[0] == c && s[1..] == rest;
    }
  }

  lemma {:induction false} BodyReadsBack(s: string)
    ensures ReadChars(EscapeAll(s) + "'") == Some(s)
  {
    if s == "" {
      assert EscapeAll(s) + "'" == "'";
    } else {
      BodyReadsBack(s[1..]);
      EscapeReadsBack(s[0], EscapeAll(s[1..]) + "'");
      assert EscapeAll(s) + "'" == Escape(s[0]) + (EscapeAll(s[1..]) + "'");
      assert [s[0]] + s[1..] == s;
    }
  }

  /** Reading a printed literal gives the string that was printed. */
  lemma QuoteReadsBack(s: string)
    ensures ReadLiteral(Quote(s)) == Some(s)
  {
    SequentialEqualsPerCharacter(s);
    BodyReadsBack(s);
    assert Quote(s) == ['\''] + (EscapeAll(s) + "'");
    assert Quote(s)[1..] == EscapeAll(s) + "'";
  }

  /** No line terminator occurs in the body, and no quote that is not escaped. */
  predicate Enclosed(s: string) {
    if s == "" then true
    else if s[0] == '\\' then |s| > 1 && !LineTerminator(s[1]) && Enclosed(s[2..])
    else s[0] != '\'' && !LineTerminator(s[0]) && Enclosed(s[1..])
  }

  lemma PlainEnclosed(p: string, rest: string)
    requires Enclosed(rest) && forall i :: 0 <= i < |p| ==> p[i] != '\\' && p[i] != '\'' && !LineTerminator(p[i])
    ensures Enclosed(p + rest)
  {
    if p == "" {
      assert p + rest == rest;
    } else {
      PlainEnclosed(p[1..], rest);
      assert (p + rest)[1..] == p[1..] + rest;
    }
  }

  lemma EscapeEnclosed(c: char, rest: string)
    requires Enclosed(rest)
    ensures Enclosed(Escape(c) + rest)
  {
    var e, s := Escape(c), Escape(c) + rest;
    if |e| >= 2 {
      PlainEnclosed(e[2..], rest);
      assert s[0] == e[0] && s[1] == e[1] && s[2..] == e[2..] + rest;
    } else {
      assert s[0] == c && s[1..] == rest;
    }
  }

  lemma {:induction false} BodyIsEnclosed(s: string)
    ensures Enclosed(Body(s))
  {
    SequentialEqualsPerCharacter(s);
    if s == "" {
    } else {
      BodyIsEnclosed(s[1..]);
      SequentialEqualsPerCharacter(s[1..]);
      EscapeEnclosed(s[0], EscapeAll(s[1..]));
    }
  }
}
