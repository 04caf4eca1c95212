/** Two independently written lexers: `neutralizeCommentsAndStrings` blanks comments and
    literals in place (docs/sandbox/runtime/transpile.ts); `stripCommentsAndStrings` drops them
    (docs/sandbox/contracts/scan-surface.ts). */
module Lexers {
  import opened Text

  datatype Mode = Code | Line | Block | SQuote | DQuote | Template

  function Blank(ch: char): char {
    if ch == '\n' then '\n' else ' '
  }

  function QuoteOf(mode: Mode): char {
    match mode case SQuote => '\'' case DQuote => '"' case _ => '`'
  }

  // ---- neutralizeCommentsAndStrings ------------------------------------------------

  function Neutral(s: string, mode: Mode): string
    decreases |s|
  {
    if s == "" then ""
    else
      var ch := s[0];
      var next := if |s| > 1 then s[1..2] else "";
      match mode
      case Code =>
        if ch == '/' && next == "/" then "  " + Neutral(s[2..], Line)
        else if ch == '/' && next == "*" then "  " + Neutral(s[2..], Block)
        else if ch == '\'' then " " + Neutral(s[1..], SQuote)
        else if ch == '"' then " " + Neutral(s[1..], DQuote)
        else if ch == '`' then " " + Neutral(s[1..], Template)
        else [ch] + Neutral(s[1..], Code)
      case Line =>
        if ch == '\n' then "\n" + Neutral(s[1..], Code) else " " + Neutral(s[1..], Line)
      case Block =>
        if ch == '*' && next == "/" then "  " + Neutral(s[2..], Code)
        else [Blank(ch)] + Neutral(s[1..], Block)
      case _ =>
        if ch == '\\' then
          if next == "" then " " else [' ', Blank(s[1])] + Neutral(s[2..], mode)
        else if ch == QuoteOf(mode) then " " + Neutral(s[1..], Code)
        else [Blank(ch)] + Neutral(s[1..], mode)
  }

  method NeutralizeCommentsAndStrings(src: string) returns (out: string)
    ensures out == Neutral(src, Code)
  {
    out := "";
    var i := 0;
    var n := |src|;
    var mode := Code;
    ghost var whole := Neutral(src, Code);
    while i < n
      invariant 0 <= i <= n
      invariant out + Neutral(src[i..], mode) == whole
    {
      ghost var was := out + Neutral(src[i..], mode);
      var piece;
      piece, i, mode := NeutralTurn(src, i, mode);
      assert was == out + (piece + Neutral(src[i..], mode));
      out := out + piece;
    }
    assert out + "" == out;
  }

  /** One turn of the loop: what it appends, where it goes on, and in which mode. */
  method NeutralTurn(src: string, i: nat, mode: Mode) returns (piece: string, j: nat, m: Mode)
    requires i < |src|
    ensures i < j <= |src| && Neutral(src[i..], mode) == piece + Neutral(src[j..], m)
  {
    var ch := src[i];
    var next := if i + 1 < |src| then [src[i + 1]] else "";
    piece, j, m := " ", i + 1, mode;
    NeutralStep(src, i, mode);
    if mode == Code {
      if ch == '/' && next == "/" {
        piece, j, m := "  ", i + 2, Line;
      } else if ch == '/' && next == "*" {
        piece, j, m := "  ", i + 2, Block;
      } else if ch == '\'' {
        m := SQuote;
      } else if ch == '"' {
        m := DQuote;
      } else if ch == '`' {
        m := Template;
      } else {
        piece := [ch];
      }
    } else if mode == Line {
      if ch == '\n' {
        piece, m := "\n", Code;
      }
    } else if mode == Block {
      if ch == '*' && next == "/" {
        piece, j, m := "  ", i + 2, Code;
      } else {
        piece := [Blank(ch)];
      }
    } else if ch == '\\' {
      if next != "" {
        piece, j := [' ', Blank(src[i + 1])], i + 2;
      }
    } else if ch == QuoteOf(mode) {
      m := Code;
    } else {
      piece := [Blank(ch)];
    }
  }

  lemma NeutralStep(src: string, i: nat, mode: Mode)
    requires i < |src|
    ensures src[i..][1..] == src[i + 1..]
    ensures i + 1 < |src| ==> src[i..][1..2] == [src[i + 1]] && src[i..][2..] == src[i + 2..]
  {
  }

  // ---- stripCommentsAndStrings -----------------------------------------------------

  function Strip(s: string, mode: Mode): string
    decreases |s|
  {
    if s == "" then ""
    else
      var c := s[0];
      var c2 := if |s| > 1 then s[1..2] else "";
      match mode
      case Code =>
        if c == '/' && c2 == "/" then Strip(s[2..], Line)
        else if c == '/' && c2 == "*" then Strip(s[2..], Block)
        else if c == '\'' then " " + Strip(s[1..], SQuote)
        else if c == '"' then " " + Strip(s[1..], DQuote)
        else if c == '`' then " " + Strip(s[1..], Template)
        else [c] + Strip(s[1..], Code)
      case Line =>
        if c == '\n' then [c] + Strip(s[1..], Code) else Strip(s[1..], Line)
      case Block =>
        if c == '*' && c2 == "/" then Strip(s[2..], Code) else Strip(s[1..], Block)
      case _ =>
        if c == '\\' then (if |s| > 1 then Strip(s[2..], mode) else "")
        else if c == QuoteOf(mode) then Strip(s[1..], Code)
        else Strip(s[1..], mode)
  }

  method StripCommentsAndStrings(src: string) returns (out: string)
    ensures out == Strip(src, Code)
  {
    out := "";
    var i := 0;
    var mode := Code;
    assert src[0..] == src;
    while i < |src|
      invariant 0 <= i <= |src|
      invariant out + Strip(src[i..], mode) == Strip(src, Code)
    {
      var piece, j, m := StripTurn(src, i, mode);
      Assoc(out, piece, Strip(src[j..], m));
      out, i, mode := out + piece, j, m;
    }
    assert out + "" == out;
  }

  /** One turn of the loop: what it appends, where it goes on, and in which mode. */
  method StripTurn(src: string, i: nat, mode: Mode) returns (piece: string, j: nat, m: Mode)
    requires i < |src|
    ensures i < j <= |src| && Strip(src[i..], mode) == piece + Strip(src[j..], m)
  {
    var c := src[i];
    var c2 := if i + 1 < |src| then [src[i + 1]] else "";
    NeutralStep(src, i, mode);
    piece, j, m := "", i + 1, mode;
    match mode {
      case Code =>
        if c == '/' && c2 == "/" {
          j, m := i + 2, Line;
        } else if c == '/' && c2 == "*" {
          j, m := i + 2, Block;
        } else if c == '\'' {
          piece, m := " ", SQuote;
        } else if c == '"' {
          piece, m := " ", DQuote;
        } else if c == '`' {
          piece, m := " ", Template;
        } else {
          piece := [c];
        }
      case Line =>
        if c == '\n' {
          piece, m := [c], Code;
        }
      case Block =>
        if c == '*' && c2 == "/" {
          j, m := i + 2, Code;
        }
      case _ =>
        if c == '\\' {
          // past the end of the source there is nothing left to skip
          j := if i + 2 <= |src| then i + 2 else i + 1;
        } else if c == QuoteOf(mode) {
          m := Code;
        }
    }
  }

  // ---- properties ------------------------------------------------------------------

  /** What blanking may do to a string: same length, newlines exactly where they were, and
      every other character kept or turned into a space. */
  ghost predicate SameLayout(s: string, o: string) {
    && |o| == |s|
    && (forall i :: 0 <= i < |s| ==> o[i] == s[i] || o[i] == ' ')
    && (forall i :: 0 <= i < |s| ==> (o[i] == '\n' <==> s[i] == '\n'))
  }

  lemma LayoutAppend(s: string, o: string, t: string, p: string)
    requires SameLayout(s, o) && SameLayout(t, p)
    ensures SameLayout(s + t, o + p)
  {
  }

  lemma {:induction false} NeutralKeepsLayout(s: string, mode: Mode)
    ensures SameLayout(s, Neutral(s, mode))
    decreases |s|
  {
    if s == "" {
    } else {
      if mode == Code && !Opens(s) {
        NeutralKeepsLayout(s[1..], Code);
        LayoutAppend([s[0]], [s[0]], s[1..], Neutral(s[1..], Code));
        assert s == [s[0]] + s[1..];
      } else {
        var b, t, m := NeutralSplit(s, mode);
        NeutralKeepsLayout(t, m);
        LayoutAppend(s[..|b|], b, t, Neutral(t, m));
        assert s == s[..|b|] + t;
      }
    }
  }

  predicate Opens(s: string) {
    s != "" && (s[0] == '\'' || s[0] == '"' || s[0] == '`'
                || (s[0] == '/' && |s| > 1 && (s[1] == '/' || s[1] == '*')))
  }

  lemma PlainTurn(c: char, t: string)
    requires !Opens([c] + t)
    ensures Neutral([c] + t, Code) == [c] + Neutral(t, Code)
  {
    assert ([c] + t)[1..] == t;
    assert t != "" ==> ([c] + t)[1..2] == [t[0]] && ([c] + t)[1] == t[0];
  }

  lemma BlankTurn(c: char, t: string)
    requires (c == ' ' || c == '\n') && Neutral(t, Code) == t
    ensures Neutral([c] + t, Code) == [c] + t
  {
    PlainTurn(c, t);
  }

  lemma PrefixByOne(b: string, t: string)
    requires 0 < |b| <= 2
    ensures b + t == if |b| == 1 then [b[0]] + t else [b[0]] + ([b[1]] + t)
  {
  }

  lemma BlankThenNeutral(b: string, t: string)
    requires 0 < |b| <= 2 && forall i :: 0 <= i < |b| ==> b[i] == ' ' || b[i] == '\n'
    requires Neutral(t, Code) == t
    ensures Neutral(b + t, Code) == b + t
  {
    PrefixByOne(b, t);
    if |b| == 1 {
      BlankTurn(b[0], t);
    } else {
      BlankTurn(b[1], t);
      BlankTurn(b[0], [b[1]] + t);
    }
  }

  /** What has been blanked needs no more blanking. */
  lemma {:induction false} NeutralIsIdempotent(s: string, mode: Mode)
    ensures Neutral(Neutral(s, mode), Code) == Neutral(s, mode)
    decreases |s|
  {
    if s == "" {
    } else {
      var o := Neutral(s, mode);
      if mode == Code && !Opens(s) {
        NeutralIsIdempotent(s[1..], Code);
        var t := Neutral(s[1..], Code);
        NeutralKeepsLayout(s[1..], Code);
        PlainTurn(s[0], s[1..]);
        assert [s[0]] + s[1..] == s;
        assert |s| > 1 ==> t[0] == s[1] || t[0] == ' ';
        PlainTurn(s[0], t);
      } else {
        var b, t, m := NeutralSplit(s, mode);
        NeutralIsIdempotent(t, m);
        BlankThenNeutral(b, Neutral(t, m));
      }
    }
  }

  /** One turn outside plain code blanks a stretch of the source. */
  lemma NeutralSplit(s: string, mode: Mode) returns (b: string, t: string, m: Mode)
    requires s != "" && (mode != Code || Opens(s))
    ensures 0 < |b| <= 2 && |b| <= |s| && t == s[|b|..] && Neutral(s, mode) == b + Neutral(t, m)
    ensures forall i :: 0 <= i < |b| ==> b[i] == Blank(s[i])
    ensures exists c :: Strip(s, mode) == c + Strip(t, m) && Squash(c) == ""
  {
    var ch, two := s[0], |s| > 1;
    ghost var c := "";
    match mode {
      case Code =>
        if ch == '/' {
          b, t, m := "  ", s[2..], if s[1] == '/' then Line else Block;
        } else {
          b, t, m, c := " ", s[1..], (if ch == '\'' then SQuote else if ch == '"' then DQuote else Template), " ";
        }
      case Line =>
        b, t, m, c := [Blank(ch)], s[1..], (if ch == '\n' then Code else Line), (if ch == '\n' then "\n" else "");
      case Block =>
        b, t, m := [Blank(ch)], s[1..], Block;
        if ch == '*' && two && s[1] == '/' { b, t, m := "  ", s[2..], Code; }
      case _ =>
        b, t, m := [Blank(ch)], s[1..], if ch == QuoteOf(mode) then Code else mode;
        if ch == '\\' && two { b, t := [' ', Blank(s[1])], s[2..]; }
    }
    assert Squash(c) == "" by { assert c == "" || c[1..] == ""; }
    assert Strip(s, mode) == c + Strip(t, m) && Squash(c) == "";
  }

  function SquashChar(c: char): string {
    if c == ' ' || c == '\n' then "" else [c]
  }

  /** The text with spaces and newlines removed. */
  function Squash(s: string): string {
    if s == "" then "" else SquashChar(s[0]) + Squash(s[1..])
  }

  lemma {:induction false} SquashAppend(x: string, y: string)
    ensures Squash(x + y) == Squash(x) + Squash(y)
  {
    if x == "" {
      assert x + y == y;
    } else {
      SquashAppend(x[1..], y);
      assert (x + y)[1..] == x[1..] + y && (x + y)[0] == x[0];
      Assoc(SquashChar(x[0]), Squash(x[1..]), Squash(y));
    }
  }

  lemma {:induction false} SquashBlank(b: string)
    requires forall i :: 0 <= i < |b| ==> b[i] == ' ' || b[i] == '\n'
    ensures Squash(b) == ""
  {
    if b == "" {
    } else {
      SquashBlank(b[1..]);
    }
  }

  /** On every source the two lexers leave the same code behind. */
  lemma {:induction false} LexersAgree(s: string, mode: Mode)
    ensures Squash(Neutral(s, mode)) == Squash(Strip(s, mode))
    decreases |s|
  {
    if s == "" {
    } else {
      if mode == Code && !Opens(s) {
        LexersAgree(s[1..], Code);
        SquashAppend([s[0]], Neutral(s[1..], Code));
        SquashAppend([s[0]], Strip(s[1..], Code));
      } else {
        var b, t, m := NeutralSplit(s, mode);
        var c :| Strip(s, mode) == c + Strip(t, m) && Squash(c) == "";
        LexersAgree(t, m);
        SquashAppend(b, Neutral(t, m));
        SquashAppend(c, Strip(t, m));
        SquashBlank(b);
      }
    }
  }

  // ---- what is code and what is not --------------------------------------------------

  /** Blanks of that length, newlines kept. */
  function Blanks(s: string): string {
    if s == "" then "" else [Blank(s[0])] + Blanks(s[1..])
  }

  /** Text without quotes and slashes is code, and code stays. */
  lemma {:induction false} PlainCodeStays(code: string, rest: string)
    requires forall i :: 0 <= i < |code| ==> code[i] != '\'' && code[i] != '"' && code[i] != '`' && code[i] != '/'
    ensures Neutral(code + rest, Code) == code + Neutral(rest, Code)
    ensures Strip(code + rest, Code) == code + Strip(rest, Code)
  {
    if code == "" {
      assert code + rest == rest;
      assert code + Neutral(rest, Code) == Neutral(rest, Code) && code + Strip(rest, Code) == Strip(rest, Code);
    } else {
      var s := code + rest;
      PlainCodeStays(code[1..], rest);
      assert s[0] == code[0] && s[1..] == code[1..] + rest;
      assert code == [code[0]] + code[1..];
      Assoc([code[0]], code[1..], Neutral(rest, Code));
      Assoc([code[0]], code[1..], Strip(rest, Code));
    }
  }

  /** Two slashes open a comment that ends before the next newline. */
  lemma LineCommentGoes(text: string, rest: string)
    requires '\n' !in text
    ensures Neutral("//" + text + "\n" + rest, Code) == Blanks("//" + text) + "\n" + Neutral(rest, Code)
    ensures Strip("//" + text + "\n" + rest, Code) == "\n" + Strip(rest, Code)
  {
    var s := "//" + text + "\n" + rest;
    assert s[2..] == text + "\n" + rest && s[1..2] == "/";
    InLine(text, rest);
    assert ("//" + text)[1..] == "/" + text && ("/" + text)[1..] == text;
    assert Blanks("//" + text) == "  " + Blanks(text);
  }

  lemma {:induction false} InLine(text: string, rest: string)
    requires '\n' !in text
    ensures Neutral(text + "\n" + rest, Line) == Blanks(text) + "\n" + Neutral(rest, Code)
    ensures Strip(text + "\n" + rest, Line) == "\n" + Strip(rest, Code)
  {
    var s := text + "\n" + rest;
    if text == "" {
      assert s[0] == '\n' && s[1..] == rest;
    } else {
      InLine(text[1..], rest);
      assert s[0] == text[0] && s[1..] == text[1..] + "\n" + rest;
    }
  }

  /** No `*` is followed by a `/`, here or where the text ends. */
  predicate NoEnd(text: string) {
    forall i :: 0 <= i < |text| && text[i] == '*' ==> i + 1 < |text| && text[i + 1] != '/'
  }

  /** A slash and a star open a comment that the next star and slash close. */
  lemma BlockCommentGoes(text: string, rest: string)
    requires NoEnd(text)
    ensures Neutral("/*" + text + "*/" + rest, Code) == Blanks("/*" + text + "*/") + Neutral(rest, Code)
    ensures Strip("/*" + text + "*/" + rest, Code) == Strip(rest, Code)
  {
    var s := "/*" + text + "*/" + rest;
    assert s[2..] == text + "*/" + rest && s[1..2] == "*";
    InBlock(text, rest);
    assert ("/*" + text + "*/")[1..] == "*" + text + "*/" && ("*" + text + "*/")[1..] == text + "*/";
    assert Blanks("/*" + text + "*/") == "  " + Blanks(text + "*/");
  }

  lemma {:induction false} InBlock(text: string, rest: string)
    requires NoEnd(text)
    ensures Neutral(text + "*/" + rest, Block) == Blanks(text + "*/") + Neutral(rest, Code)
    ensures Strip(text + "*/" + rest, Block) == Strip(rest, Code)
  {
    if text == "" {
      var s := "*/" + rest;
      assert text + "*/" + rest == s && s[1..2] == "/" && s[2..] == rest && "*/"[1..] == "/" && "/"[1..] == "";
    } else {
      var c, t := text[0], text[1..];
      assert NoEnd(t) by { assert forall i :: 0 <= i < |t| ==> t[i] == text[i + 1]; }
      InBlock(t, rest);
      assert text == [c] + t;
      OneMoreInBlock(c, t + "*/", rest);
      assert [c] + (t + "*/") + rest == text + "*/" + rest && [c] + (t + "*/") == text + "*/";
    }
  }

  lemma OneMoreInBlock(c: char, t: string, rest: string)
    requires t != "" && (c == '*' ==> t[0] != '/')
    ensures Neutral([c] + t + rest, Block) == [Blank(c)] + Neutral(t + rest, Block)
    ensures Strip([c] + t + rest, Block) == Strip(t + rest, Block)
    ensures Blanks([c] + t) == [Blank(c)] + Blanks(t)
  {
    var s := [c] + t + rest;
    assert s[0] == c && s[1] == t[0] && s[1..] == t + rest && s[1..2] == [t[0]] && ([c] + t)[1..] == t;
  }

  /** A quote opens a literal that the same quote closes, whatever other quotes stand inside. */
  lemma LiteralGoes(quote: char, text: string, rest: string)
    requires quote == '\'' || quote == '"' || quote == '`'
    requires quote !in text && '\\' !in text
    ensures Neutral([quote] + text + [quote] + rest, Code) == Blanks([quote] + text + [quote]) + Neutral(rest, Code)
    ensures Strip([quote] + text + [quote] + rest, Code) == " " + Strip(rest, Code)
  {
    var mode := if quote == '\'' then SQuote else if quote == '"' then DQuote else Template;
    var s := [quote] + text + [quote] + rest;
    assert s[0] == quote && s[1..] == text + [quote] + rest;
    InLiteral(quote, mode, text, rest);
    assert ([quote] + text + [quote])[1..] == text + [quote];
  }

  lemma {:induction false} InLiteral(quote: char, mode: Mode, text: string, rest: string)
    requires (quote == '\'' && mode == SQuote) || (quote == '"' && mode == DQuote) || (quote == '`' && mode == Template)
    requires quote !in text && '\\' !in text
    ensures Neutral(text + [quote] + rest, mode) == Blanks(text + [quote]) + Neutral(rest, Code)
    ensures Strip(text + [quote] + rest, mode) == Strip(rest, Code)
  {
    if text == "" {
      assert text + [quote] == [quote] && [quote][1..] == "";
      LiteralStep(quote, mode, rest);
    } else {
      InLiteral(quote, mode, text[1..], rest);
      LiteralStep(text[0], mode, text[1..] + [quote] + rest);
      assert text + [quote] + rest == [text[0]] + (text[1..] + [quote] + rest);
      assert (text + [quote])[1..] == text[1..] + [quote];
      Assoc([Blank(text[0])], Blanks(text[1..] + [quote]), Neutral(rest, Code));
    }
  }

  lemma LiteralStep(ch: char, mode: Mode, rest: string)
    requires mode == SQuote || mode == DQuote || mode == Template
    requires ch != '\\'
    ensures Neutral([ch] + rest, mode) == [Blank(ch)] + Neutral(rest, if ch == QuoteOf(mode) then Code else mode)
    ensures Strip([ch] + rest, mode) == Strip(rest, if ch == QuoteOf(mode) then Code else mode)
  {
    assert ([ch] + rest)[1..] == rest && [Blank(' ')] == " ";
  }

  /** A backslash takes the next character with it, be it the quote that would close the literal. */
  lemma EscapedInLiteral(c: char, mode: Mode, rest: string)
    requires mode == SQuote || mode == DQuote || mode == Template
    ensures Neutral(['\\', c] + rest, mode) == [' ', Blank(c)] + Neutral(rest, mode)
    ensures Strip(['\\', c] + rest, mode) == Strip(rest, mode)
  {
    var s := ['\\', c] + rest;
    assert s[1..2] == [c] && s[1] == c && s[2..] == rest;
  }
}
