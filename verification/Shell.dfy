/** The curl tokenizer (packages/core/src/from-curl.ts) and the shell quoter
    (packages/core/src/cli.ts), and the proof that they undo each other. */
module Shell {
  import opened Optional
  import opened Text

  // ---- the quoter ------------------------------------------------------------

  /** `[\w@%+=:,./-]` */
  predicate SafeChar(c: char) {
    'A' <= c <= 'Z' || 'a' <= c <= 'z' || '0' <= c <= '9' || c in "_@%+=:,./-"
  }

  predicate Safe(arg: string) {
    arg != "" && forall i :: 0 <= i < |arg| ==> SafeChar(arg[i])
  }

  /** `arg.replace(/'/g, "'\\''")` */
  function EscapeQuotes(arg: string): string {
    if arg == "" then ""
    else (if arg[0] == '\'' then "'\\''" else [arg[0]]) + EscapeQuotes(arg[1..])
  }

  function ShellArg(arg: string): string {
    if Safe(arg) then arg else "'" + EscapeQuotes(arg) + "'"
  }

  function QuoteAll(args: seq<string>): (r: seq<string>)
    ensures |r| == |args| && forall i :: 0 <= i < |args| ==> r[i] == ShellArg(args[i])
  {
    seq(|args|, i requires 0 <= i < |args| => ShellArg(args[i]))
  }

  // ---- the tokenizer -----------------------------------------------------------

  datatype Quote = Bare | Single | Double

  predicate Blank(c: char) {
    c == ' ' || c == '\t' || c == '\n' || c == '\r'
  }

  /** The tokens still to come, given the unread input and the token being built. */
  function Lex(s: string, cur: string, has: bool, q: Quote): seq<string>
    decreases |s|
  {
    if s == "" then (if has then [cur] else [])
    else
      var ch := s[0];
      match q
      case Single =>
        if ch == '\'' then Lex(s[1..], cur, has, Bare) else Lex(s[1..], cur + [ch], has, Single)
      case Double =>
        if ch == '"' then Lex(s[1..], cur, has, Bare)
        else if ch == '\\' && |s| > 1 then Lex(s[2..], cur + [s[1]], has, Double)
        else Lex(s[1..], cur + [ch], has, Double)
      case Bare =>
        if ch == '"' then Lex(s[1..], cur, true, Double)
        else if ch == '\'' then Lex(s[1..], cur, true, Single)
        else if ch == '\\' then
          if |s| == 1 then Lex(s[1..], cur, has, Bare)
          else if s[1] == '\r' && |s| > 2 && s[2] == '\n' then Lex(s[3..], cur, has, Bare)
          else if s[1] == '\n' || s[1] == '\r' then Lex(s[2..], cur, has, Bare)
          else Lex(s[2..], cur + [s[1]], true, Bare)
        else if Blank(ch) then
          (if has then [cur] + Lex(s[1..], "", false, Bare) else Lex(s[1..], cur, false, Bare))
        else Lex(s[1..], cur + [ch], true, Bare)
  }

  lemma QuotedStep(line: string, i: nat, cur: string, has: bool, q: Quote)
    requires i < |line| && q != Bare
    ensures Lex(line[i..], cur, has, q) ==
      if line[i] == (if q == Double then '"' else '\'') then Lex(line[i + 1..], cur, has, Bare)
      else if q == Double && line[i] == '\\' && i + 1 < |line| then Lex(line[i + 2..], cur + [line[i + 1]], has, q)
      else Lex(line[i + 1..], cur + [line[i]], has, q)
  {
    var rest := line[i..];
    assert rest[1..] == line[i + 1..];
    assert |rest| > 1 ==> rest[2..] == line[i + 2..] && rest[1] == line[i + 1];
  }

  lemma EscapeStep(line: string, i: nat, cur: string, has: bool)
    requires i < |line| && line[i] == '\\'
    ensures Lex(line[i..], cur, has, Bare) ==
      if i + 1 == |line| then Lex(line[i + 1..], cur, has, Bare)
      else if line[i + 1] == '\r' && i + 2 < |line| && line[i + 2] == '\n' then Lex(line[i + 3..], cur, has, Bare)
      else if line[i + 1] == '\n' || line[i + 1] == '\r' then Lex(line[i + 2..], cur, has, Bare)
      else Lex(line[i + 2..], cur + [line[i + 1]], true, Bare)
  {
    var rest := line[i..];
    assert rest[1..] == line[i + 1..];
    assert |rest| > 1 ==> rest[2..] == line[i + 2..] && rest[1] == line[i + 1];
    assert |rest| > 2 ==> rest[3..] == line[i + 3..] && rest[2] == line[i + 2];
  }

  lemma BareStep(line: string, i: nat, cur: string, has: bool)
    requires i < |line| && line[i] != '\\'
    ensures var ch := line[i];
      Lex(line[i..], cur, has, Bare) ==
      if ch == '"' || ch == '\'' then Lex(line[i + 1..], cur, true, if ch == '"' then Double else Single)
      else if Blank(ch) then
        (if has then [cur] + Lex(line[i + 1..], "", false, Bare) else Lex(line[i + 1..], cur, false, Bare))
      else Lex(line[i + 1..], cur + [ch], true, Bare)
  {
    assert line[i..][1..] == line[i + 1..];
  }

  method Tokenize(line: string) returns (tokens: seq<string>)
    ensures tokens == Lex(line, "", false, Bare)
  {
    tokens := [];
    var cur := "";
    var has := false;
    var quote := Bare;
    var i := 0;
    while i < |line|
      invariant 0 <= i <= |line|
      invariant tokens + Lex(line[i..], cur, has, quote) == Lex(line, "", false, Bare)
    {
      var ch := line[i];
      if quote != Bare {
        QuotedStep(line, i, cur, has, quote);
        if (quote == Double && ch == '"') || (quote == Single && ch == '\'') {
          quote := Bare;
        } else if quote == Double && ch == '\\' && i + 1 < |line| {
          i := i + 1;
          cur := cur + [line[i]];
        } else {
          cur := cur + [ch];
        }
      } else if ch == '"' || ch == '\'' {
        BareStep(line, i, cur, has);
        quote := if ch == '"' then Double else Single;
        has := true;
      } else if ch == '\\' {
        EscapeStep(line, i, cur, has);
        if i + 1 < |line| {
          var next := line[i + 1];
          i := i + 1;
          if next == '\n' || next == '\r' {
            if next == '\r' && i + 1 < |line| && line[i + 1] == '\n' {
              i := i + 1;
            }
          } else {
            cur := cur + [next];
            has := true;
          }
        }
      } else if Blank(ch) {
        BareStep(line, i, cur, has);
        if has {
          Assoc(tokens, [cur], Lex(line[i + 1..], "", false, Bare));
          tokens := tokens + [cur];
          cur := "";
          has := false;
        }
      } else {
        BareStep(line, i, cur, has);
        cur := cur + [ch];
        has := true;
      }
      i := i + 1;
    }
    assert line[i..] == "";
    if has {
      tokens := tokens + [cur];
    }
  }

  // ---- they undo each other ------------------------------------------------------

  /** Closing the quotes, an escaped quote, and opening them again adds one quote character. */
  lemma ReopenedQuote(rest: string, cur: string)
    ensures Lex("'\\''" + rest, cur, true, Single) == Lex(rest, cur + "'", true, Single)
  {
    var s := "'\\''" + rest;
    var s1, s2 := "\\''" + rest, "'" + rest;
    assert s[1..] == s1 && s1[1] == '\'' && s1[2..] == s2 && s2[1..] == rest;
    assert Lex(s, cur, true, Single) == Lex(s1, cur, true, Bare);
    assert Lex(s1, cur, true, Bare) == Lex(s2, cur + "'", true, Bare);
  }

  /** Inside single quotes the escaped text is read back verbatim. */
  lemma {:induction false} QuotedReadsBack(arg: string, rest: string, cur: string)
    ensures Lex(EscapeQuotes(arg) + "'" + rest, cur, true, Single) == Lex(rest, cur + arg, true, Bare)
    decreases |arg|
  {
    var s := EscapeQuotes(arg) + "'" + rest;
    if arg == "" {
      assert s == ['\''] + rest && s[1..] == rest && cur + arg == cur;
    } else {
      var s' := EscapeQuotes(arg[1..]) + "'" + rest;
      QuotedReadsBack(arg[1..], rest, cur + [arg[0]]);
      assert cur + [arg[0]] + arg[1..] == cur + arg;
      if arg[0] == '\'' {
        assert s == "'\\''" + s';
        ReopenedQuote(s', cur);
      } else {
        assert s == [arg[0]] + s' && s[1..] == s';
      }
    }
  }

  lemma {:induction false} SafeReadsBack(arg: string, rest: string, cur: string, has: bool)
    requires forall i :: 0 <= i < |arg| ==> SafeChar(arg[i])
    ensures Lex(arg + rest, cur, has, Bare) == Lex(rest, cur + arg, has || arg != "", Bare)
    decreases |arg|
  {
    if arg == "" {
      assert arg + rest == rest && cur + arg == cur;
    } else {
      SafeReadsBack(arg[1..], rest, cur + [arg[0]], true);
      assert (arg + rest)[1..] == arg[1..] + rest;
      assert cur + [arg[0]] + arg[1..] == cur + arg;
      assert SafeChar(arg[0]);
    }
  }

  lemma ArgReadsBack(arg: string, rest: string)
    ensures Lex(ShellArg(arg) + rest, "", false, Bare) == Lex(rest, arg, true, Bare)
  {
    assert "" + arg == arg;
    if Safe(arg) {
      SafeReadsBack(arg, rest, "", false);
    } else {
      QuotedReadsBack(arg, rest, "");
      var s := ShellArg(arg) + rest;
      assert s == ['\''] + (EscapeQuotes(arg) + "'" + rest);
      assert s[1..] == EscapeQuotes(arg) + "'" + rest;
    }
  }

  /** Tokenizing quoted items joined by spaces gives the items back: empty strings, quotes,
      backslashes, blanks and newlines included. */
  lemma {:induction false} TokenizeUndoesQuoting(args: seq<string>)
    ensures Lex(Join(QuoteAll(args), " "), "", false, Bare) == args
  {
    var q := QuoteAll(args);
    if |args| == 1 {
      ArgReadsBack(args[0], "");
      assert q[0] + "" == q[0];
    } else if |args| > 1 {
      TokenizeUndoesQuoting(args[1..]);
      assert q[1..] == QuoteAll(args[1..]);
      NextArgReadsBack(args[0], Join(q[1..], " "));
      assert args == [args[0]] + args[1..];
    }
  }

  lemma NextArgReadsBack(arg: string, tail: string)
    ensures Lex(ShellArg(arg) + " " + tail, "", false, Bare) == [arg] + Lex(tail, "", false, Bare)
  {
    var rest := " " + tail;
    ArgReadsBack(arg, rest);
    assert ShellArg(arg) + " " + tail == ShellArg(arg) + rest;
    assert rest[0] == ' ' && rest[1..] == tail;
  }

  // ---- what else a copied command holds ------------------------------------------

  /** Inside double quotes everything stands for itself but the quote that closes them and the
      backslash; both can be had behind a backslash. */
  lemma {:induction false} DoubleQuotedIsRead(text: string, rest: string, cur: string, has: bool)
    requires '"' !in text && '\\' !in text
    ensures Lex(text + "\"" + rest, cur, has, Double) == Lex(rest, cur + text, has, Bare)
    decreases |text|
  {
    var s := text + "\"" + rest;
    if text == "" {
      assert s[0] == '"' && s[1..] == rest && cur + text == cur;
    } else {
      DoubleQuotedIsRead(text[1..], rest, cur + [text[0]], has);
      assert s[0] == text[0] && s[1..] == text[1..] + "\"" + rest && cur + [text[0]] + text[1..] == cur + text;
    }
  }

  lemma OpeningQuotes(rest: string, cur: string, has: bool)
    ensures Lex("\"" + rest, cur, has, Bare) == Lex(rest, cur, true, Double)
    ensures Lex("'" + rest, cur, has, Bare) == Lex(rest, cur, true, Single)
  {
    assert ("\"" + rest)[1..] == rest && ("'" + rest)[1..] == rest;
  }

  /** A backslash takes the next character as it is, in double quotes and, but for a line's end, outside. */
  lemma BackslashIsRead(c: char, rest: string, cur: string, has: bool)
    ensures Lex(['\\', c] + rest, cur, has, Double) == Lex(rest, cur + [c], has, Double)
    ensures c != '\n' && c != '\r' ==> Lex(['\\', c] + rest, cur, has, Bare) == Lex(rest, cur + [c], true, Bare)
    ensures Lex(['\\', c] + rest, cur, has, Single) == Lex([c] + rest, cur + ['\\'], has, Single)
  {
    var s := ['\\', c] + rest;
    assert s[0] == '\\' && s[1] == c && s[2..] == rest && s[1..] == [c] + rest;
  }

  /** A backslash at a line's end goes on with the next line as if neither stood there. */
  lemma ContinuedLine(rest: string, cur: string, has: bool)
    ensures Lex("\\\n" + rest, cur, has, Bare) == Lex(rest, cur, has, Bare)
    ensures Lex("\\\r\n" + rest, cur, has, Bare) == Lex(rest, cur, has, Bare)
  {
    var s, t := "\\\n" + rest, "\\\r\n" + rest;
    assert s[0] == '\\' && s[1] == '\n' && s[2..] == rest;
    assert t[0] == '\\' && t[1] == '\r' && t[2] == '\n' && t[3..] == rest;
  }

  /** Blanks end a token, and more of them make no more tokens. */
  lemma {:induction false} BlanksSeparate(gap: string, rest: string, cur: string)
    requires gap != "" && forall i :: 0 <= i < |gap| ==> gap[i] == ' ' || gap[i] == '\t' || gap[i] == '\n' || gap[i] == '\r'
    ensures Lex(gap + rest, cur, true, Bare) == [cur] + Lex(rest, "", false, Bare)
    ensures Lex(gap + rest, "", false, Bare) == Lex(rest, "", false, Bare)
  {
    var s := gap + rest;
    assert s[0] == gap[0] && s[1..] == gap[1..] + rest;
    if |gap| == 1 {
      assert gap[1..] + rest == rest;
    } else {
      BlanksSeparate(gap[1..], rest, "");
    }
  }

  // ---- the command `--check` prints ------------------------------------------------

  datatype RuleTarget = Agents | Cursor | Claude | Copilot | Windsurf | Cline | Aider

  function TargetId(t: RuleTarget): string {
    match t
    case Agents => "agents"
    case Cursor => "cursor"
    case Claude => "claude"
    case Copilot => "copilot"
    case Windsurf => "windsurf"
    case Cline => "cline"
    case Aider => "aider"
  }

  function TargetIds(ts: seq<RuleTarget>): (r: seq<string>)
    ensures |r| == |ts| && forall i :: 0 <= i < |ts| ==> r[i] == TargetId(ts[i])
  {
    seq(|ts|, i requires 0 <= i < |ts| => TargetId(ts[i]))
  }

  function Head(stale: seq<RuleTarget>): seq<string> {
    ["stitch", "init", "--format", Join(TargetIds(stale), ",")]
  }

  function RefreshArgv(stale: seq<RuleTarget>, project: bool, modulePath: Option<string>): seq<string> {
    Head(stale)
    + (if project then ["--project"] else [])
    + (match modulePath case None => [] case Some(path) => ["--module", path])
    + ["--force"]
  }

  /** `refreshCommand`: whatever the module path, the printed line is read back as this argv. */
  method RefreshCommand(stale: seq<RuleTarget>, project: bool, modulePath: Option<string>) returns (line: string)
    requires stale != []
    ensures Lex(line, "", false, Bare) == RefreshArgv(stale, project, modulePath)
  {
    var parts := Head(stale);
    ghost var argv := Head(stale);
    HeadIsPlain(stale);
    if project {
      parts := parts + ["--project"];
      argv := PlainWordAdded(argv, "--project");
    }
    if modulePath.Some? {
      parts := parts + ["--module", ShellArg(modulePath.value)];
      argv := ModuleAdded(argv, modulePath.value);
    }
    parts := parts + ["--force"];
    argv := PlainWordAdded(argv, "--force");
    line := Join(parts, " ");
    TokenizeUndoesQuoting(argv);
  }

  /** A word that needs no quotes. */
  predicate PlainWord(w: string) {
    w != "" && forall i :: 0 <= i < |w| ==> 'a' <= w[i] <= 'z' || w[i] == '-'
  }

  lemma WordIsSafe(w: string)
    requires PlainWord(w)
    ensures ShellArg(w) == w
  {
    assert '-' == "_@%+=:,./-"[9];
  }

  lemma PlainWordAdded(argv: seq<string>, w: string) returns (r: seq<string>)
    requires PlainWord(w)
    ensures r == argv + [w] && QuoteAll(r) == QuoteAll(argv) + [w]
  {
    r := argv + [w];
    WordIsSafe(w);
  }

  lemma ModuleAdded(argv: seq<string>, path: string) returns (r: seq<string>)
    ensures r == argv + ["--module", path] && QuoteAll(r) == QuoteAll(argv) + ["--module", ShellArg(path)]
  {
    r := argv + ["--module", path];
    WordIsSafe("--module");
  }

  lemma HeadIsPlain(stale: seq<RuleTarget>)
    requires stale != []
    ensures QuoteAll(Head(stale)) == Head(stale)
  {
    HeadWordsAreSafe();
    FormatIsSafe(stale);
    FourStand("stitch", "init", "--format", Join(TargetIds(stale), ","));
  }

  lemma FourStand(a: string, b: string, c: string, d: string)
    requires ShellArg(a) == a && ShellArg(b) == b && ShellArg(c) == c && ShellArg(d) == d
    ensures QuoteAll([a, b, c, d]) == [a, b, c, d]
  {
  }

  lemma FormatIsSafe(stale: seq<RuleTarget>)
    requires stale != []
    ensures Safe(Join(TargetIds(stale), ","))
  {
    forall i | 0 <= i < |stale| ensures Safe(TargetIds(stale)[i]) { TargetIdIsSafe(stale[i]); }
    JoinedIdsAreSafe(TargetIds(stale));
  }

  lemma HeadWordsAreSafe()
    ensures ShellArg("stitch") == "stitch" && ShellArg("init") == "init" && ShellArg("--format") == "--format"
  {
    WordIsSafe("stitch");
    WordIsSafe("init");
    WordIsSafe("--format");
  }

  lemma TargetIdIsSafe(t: RuleTarget)
    ensures Safe(TargetId(t))
  {
    assert PlainWord(TargetId(t));
    WordIsSafe(TargetId(t));
  }

  lemma {:induction false} JoinedIdsAreSafe(ids: seq<string>)
    requires ids != [] && forall i :: 0 <= i < |ids| ==> Safe(ids[i])
    ensures Safe(Join(ids, ","))
  {
    if |ids| > 1 { JoinedIdsAreSafe(ids[1..]); }
  }
}
