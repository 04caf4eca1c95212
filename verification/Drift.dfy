/** The soft-drift summariser of packages/core/src/drift.ts: diffs are grouped by change and
    rendered path, then each group is reported with a count and a sample coordinate. */
module Drift {
  import opened Optional
  import opened Text
  import opened Diff

  // ---- the path grammar ----------------------------------------------------

  /** `renderPath` (indices erased to `[]`) and `renderConcretePath` (indices kept). */
  function Render(path: Path, concrete: bool): string {
    if path == [] then ""
    else
      Extend(Render(path[..|path| - 1], concrete), path[|path| - 1], concrete)
  }

  function Extend(out: string, seg: Seg, concrete: bool): string {
    match seg
    case Index(i) => out + "[" + (if concrete then Decimal(i) else "") + "]"
    case Key(k) => if out != "" then out + "." + k else k
  }

  method RenderPath(path: Path) returns (out: string)
    ensures out == Render(path, false)
  {
    out := "";
    for n := 0 to |path|
      invariant out == Render(path[..n], false)
    {
      var seg := path[n];
      assert path[..n + 1][..n] == path[..n];
      if seg.Index? {
        out := out + "[]";
      } else {
        out := out + (if out != "" then "." + seg.k else seg.k);
      }
    }
    assert path[..|path|] == path;
  }

  method RenderConcretePath(path: Path) returns (out: string)
    ensures out == Render(path, true)
  {
    out := "";
    for n := 0 to |path|
      invariant out == Render(path[..n], true)
    {
      var seg := path[n];
      assert path[..n + 1][..n] == path[..n];
      if seg.Index? {
        out := out + "[" + Decimal(seg.i) + "]";
      } else {
        out := out + (if out != "" then "." + seg.k else seg.k);
      }
    }
    assert path[..|path|] == path;
  }

  /** A key that cannot be mistaken for path syntax. */
  predicate CleanKey(k: string) {
    k != "" && '.' !in k && '[' !in k && ']' !in k
  }

  predicate CleanPath(p: Path) {
    forall i :: 0 <= i < |p| && p[i].Key? ==> CleanKey(p[i].k)
  }

  /** What a rendering keeps of a path: everything, or everything but the index values. */
  function Erase(p: Path, concrete: bool): Path {
    if concrete then p else seq(|p|, i requires 0 <= i < |p| => if p[i].Index? then Index(0) else p[i])
  }

  lemma {:induction false} SplitAtLast(x: string, c: char, a: string, y: string, b: string)
    requires c !in a && c !in b && x + [c] + a == y + [c] + b
    ensures x == y && a == b
  {
    var s, t := x + [c] + a, y + [c] + b;
    assert a != [] ==> s[|s| - 1] == a[|a| - 1] && s[..|s| - 1] == x + [c] + a[..|a| - 1];
    assert b != [] ==> t[|t| - 1] == b[|b| - 1] && t[..|t| - 1] == y + [c] + b[..|b| - 1];
    if a != [] && b != [] {
      SplitAtLast(x, c, a[..|a| - 1], y, b[..|b| - 1]);
      assert a == a[..|a| - 1] + [a[|a| - 1]] && b == b[..|b| - 1] + [b[|b| - 1]];
    } else {
      assert a == [] ==> s == x + [c] && s[|s| - 1] == c;
      assert b == [] ==> t == y + [c] && t[|t| - 1] == c;
      assert a == b;
      assert x == s[..|s| - 1] && y == t[..|t| - 1];
    }
  }

  predicate CleanSeg(s: Seg) {
    s.Key? ==> CleanKey(s.k)
  }

  lemma ExtendedEnd(out: string, seg: Seg, concrete: bool)
    requires CleanSeg(seg)
    ensures var r := Extend(out, seg, concrete); r != "" && (r[|r| - 1] == ']' <==> seg.Index?)
  {
  }

  lemma ExtendInjective(r: string, x: Seg, s: string, y: Seg, concrete: bool)
    requires CleanSeg(x) && CleanSeg(y)
    requires Extend(r, x, concrete) == Extend(s, y, concrete)
    ensures r == s && Erase([x], concrete) == Erase([y], concrete)
  {
    ExtendedEnd(r, x, concrete);
    ExtendedEnd(s, y, concrete);
    var e := Extend(r, x, concrete);
    match x {
      case Index(i) =>
        var di, dj := if concrete then Decimal(i) else "", if concrete then Decimal(y.i) else "";
        assert r + "[" + di == e[..|e| - 1] == s + "[" + dj;
        SplitAtLast(r, '[', di, s, dj);
        if concrete { DecimalInjective(i, y.i); }
      case Key(k) =>
        assert r != "" ==> e[|r|] == '.';
        assert s != "" ==> e[|s|] == '.';
        if r != "" && s != "" { SplitAtLast(r, '.', k, s, y.k); }
    }
  }

  /** Rendering forgets index values (or nothing) and no more, when keys are clean. */
  lemma {:induction false} RenderInjective(p: Path, q: Path, concrete: bool)
    requires CleanPath(p) && CleanPath(q)
    ensures Render(p, concrete) == Render(q, concrete) <==> Erase(p, concrete) == Erase(q, concrete)
  {
    assert |Erase(p, concrete)| == |p| && |Erase(q, concrete)| == |q|;
    if p != [] && q != [] {
      var p', x, q', y := p[..|p| - 1], p[|p| - 1], q[..|q| - 1], q[|q| - 1];
      RenderInjective(p', q', concrete);
      EraseLast(p, concrete);
      EraseLast(q, concrete);
      if Render(p, concrete) == Render(q, concrete) {
        ExtendInjective(Render(p', concrete), x, Render(q', concrete), y, concrete);
      }
      if Erase(p, concrete) == Erase(q, concrete) {
        SplitSuffix(Erase(p', concrete), Erase([x], concrete), Erase(q', concrete), Erase([y], concrete));
        assert Erase([x], concrete)[0] == Erase([y], concrete)[0];
      }
    } else {
      if p != [] { ExtendedEnd(Render(p[..|p| - 1], concrete), p[|p| - 1], concrete); }
      if q != [] { ExtendedEnd(Render(q[..|q| - 1], concrete), q[|q| - 1], concrete); }
    }
  }

  lemma EraseLast(p: Path, concrete: bool)
    requires p != []
    ensures Erase(p, concrete) == Erase(p[..|p| - 1], concrete) + Erase([p[|p| - 1]], concrete)
  {
  }

  /** Why the keys must be clean. */
  lemma UncleanPathsCollide()
    ensures Render([Key("a"), Key("b")], true) == Render([Key("a.b")], true)
    ensures Render([Key("a"), Index(0)], true) == Render([Key("a[0]")], true)
    ensures Render([Key(""), Key("a")], true) == Render([Key("a")], true)
  {
    assert [Key("a"), Key("b")][..1] == [Key("a")] && [Key("a"), Index(0)][..1] == [Key("a")];
    assert [Key(""), Key("a")][..1] == [Key("")];
  }

  predicate HasBrackets(s: string) {
    exists i :: 0 <= i < |s| - 1 && s[i] == '[' && s[i + 1] == ']'
  }

  predicate HasIndex(p: Path) {
    exists i :: 0 <= i < |p| && p[i].Index?
  }

  /** `path.includes('[]')` asks whether the path crosses an array. */
  lemma {:induction false} BracketsIffIndex(p: Path)
    requires CleanPath(p)
    ensures HasBrackets(Render(p, false)) <==> HasIndex(p)
    ensures !HasIndex(p) ==> '[' !in Render(p, false)
  {
    if p == [] {
    } else {
      var p', r := p[..|p| - 1], Render(p[..|p| - 1], false);
      BracketsIffIndex(p');
      var s := Render(p, false);
      match p[|p| - 1]
      case Index(i) =>
        assert s[|r|] == '[' && s[|r| + 1] == ']';
        assert p[|p| - 1].Index?;
      case Key(k) =>
        assert CleanKey(k);
        assert forall i :: 0 <= i < |p'| ==> p'[i] == p[i];
        if HasIndex(p') {
          var i :| 0 <= i < |r| - 1 && r[i] == '[' && r[i + 1] == ']';
          assert s[i] == '[' && s[i + 1] == ']';
        }
    }
  }

  // ---- levels and details --------------------------------------------------

  datatype Kind = Undeclared | Coerced | Defaulted
  datatype Level = Info | Warn | Verbose
  datatype LevelOption = Unset | One(level: Level) | Many(levels: seq<Level>) | ByKind(kinds: map<Kind, Level>)
  datatype Options = Options(ignored: string -> bool, level: LevelOption)

  datatype Finding = Finding(level: Level, path: string, change: Kind, detail: string, sample: Option<string>)

  function KindOfOp(d: Diff): Kind {
    match d
    case Remove(_, _) => Undeclared
    case Change(_, _, _) => Coerced
    case Create(_, _) => Defaulted
  }

  function KindName(k: Kind): (s: string)
    ensures '|' !in s
  {
    match k
    case Undeclared => "undeclared"
    case Coerced => "coerced"
    case Defaulted => "defaulted"
  }

  function DefaultLevel(k: Kind): Level {
    match k
    case Undeclared => Info
    case Coerced => Warn
    case Defaulted => Verbose
  }

  function LevelOf(o: LevelOption, k: Kind): Level {
    if o.ByKind? && k in o.kinds then o.kinds[k] else DefaultLevel(k)
  }

  predicate Allowed(o: LevelOption, l: Level) {
    match o
    case One(only) => l == only
    case Many(some) => l in some
    case _ => true
  }

  function TypeName(v: Json): string {
    match v
    case Null => "null"
    case Arr(_) => "array"
    case Obj(_, _) => "object"
    case Leaf(p) =>
      match p
      case Undefined => "undefined"
      case Bool(_) => "boolean"
      case Str(_) => "string"
      case BigInt(_) => "bigint"
      case Func(_) => "function"
      case Symbol(_) => "symbol"
      case _ => "number"
  }

  function DetailFor(d: Diff): string {
    match d
    case Change(_, o, v) => TypeName(o) + " -> " + TypeName(v)
    case Remove(_, o) => "undeclared field (" + TypeName(o) + ")"
    case Create(_, _) => "default applied"
  }

  function GroupKey(d: Diff): string {
    KindName(KindOfOp(d)) + "|" + Render(d.path, false)
  }

  lemma GroupKeyInjective(d: Diff, e: Diff)
    ensures GroupKey(d) == GroupKey(e)
       <==> KindOfOp(d) == KindOfOp(e) && Render(d.path, false) == Render(e.path, false)
  {
    if GroupKey(d) == GroupKey(e) {
      SplitAt(KindName(KindOfOp(d)), '|', Render(d.path, false), KindName(KindOfOp(e)), Render(e.path, false));
    }
  }

  // ---- insertion-ordered grouping (a JS `Map` of lists) -----------------------

  datatype Bucket = Bucket(key: string, diffs: seq<Diff>)

  function Find(bs: seq<Bucket>, key: string): (i: nat)
    ensures i <= |bs| && (i < |bs| ==> bs[i].key == key)
    ensures forall j :: 0 <= j < i ==> bs[j].key != key
  {
    if bs == [] || bs[0].key == key then 0 else 1 + Find(bs[1..], key)
  }

  function Put(bs: seq<Bucket>, key: string, d: Diff): seq<Bucket> {
    var i := Find(bs, key);
    if i < |bs| then bs[i := Bucket(key, bs[i].diffs + [d])] else bs + [Bucket(key, [d])]
  }

  function GroupBy(ds: seq<Diff>, f: Diff -> string): seq<Bucket> {
    if ds == [] then []
    else Put(GroupBy(ds[..|ds| - 1], f), f(ds[|ds| - 1]), ds[|ds| - 1])
  }

  /** The sub-list of diffs with a given key, in order. */
  function Select(ds: seq<Diff>, f: Diff -> string, key: string): (r: seq<Diff>)
    ensures forall d :: d in r <==> d in ds && f(d) == key
  {
    if ds == [] then []
    else
      var rest := Select(ds[..|ds| - 1], f, key);
      assert ds == ds[..|ds| - 1] + [ds[|ds| - 1]];
      if f(ds[|ds| - 1]) == key then rest + [ds[|ds| - 1]] else rest
  }

  ghost predicate Grouped(bs: seq<Bucket>, ds: seq<Diff>, f: Diff -> string) {
    && (forall i, j :: 0 <= i < j < |bs| ==> bs[i].key != bs[j].key)
    && (forall i :: 0 <= i < |bs| ==> bs[i].diffs != [] && bs[i].diffs == Select(ds, f, bs[i].key))
    && (forall d :: d in ds ==> exists i :: 0 <= i < |bs| && bs[i].key == f(d))
  }

  /** Grouping puts every diff in the one bucket of its key, first-seen order kept. */
  lemma {:induction false} GroupByIsGrouped(ds: seq<Diff>, f: Diff -> string)
    ensures Grouped(GroupBy(ds, f), ds, f)
  {
    if ds == [] {
    } else {
      var init, d := ds[..|ds| - 1], ds[|ds| - 1];
      GroupByIsGrouped(init, f);
      assert ds == init + [d];
      PutSelects(GroupBy(init, f), init, f, d);
      PutCovers(GroupBy(init, f), init, f, d);
    }
  }

  lemma SelectSnoc(ds: seq<Diff>, d: Diff, f: Diff -> string, key: string)
    ensures Select(ds + [d], f, key) == Select(ds, f, key) + (if f(d) == key then [d] else [])
  {
    assert (ds + [d])[..|ds|] == ds;
  }

  lemma PutSelects(bs: seq<Bucket>, ds: seq<Diff>, f: Diff -> string, d: Diff)
    requires Grouped(bs, ds, f)
    ensures var r := Put(bs, f(d), d);
      && (forall i, j :: 0 <= i < j < |r| ==> r[i].key != r[j].key)
      && (forall i :: 0 <= i < |r| ==> r[i].diffs != [] && r[i].diffs == Select(ds + [d], f, r[i].key))
  {
    var r := Put(bs, f(d), d);
    forall i | 0 <= i < |r| ensures r[i].diffs != [] && r[i].diffs == Select(ds + [d], f, r[i].key) {
      SelectSnoc(ds, d, f, r[i].key);
      if i == |bs| { NothingSelected(ds, f, f(d)); }
    }
  }

  lemma PutCovers(bs: seq<Bucket>, ds: seq<Diff>, f: Diff -> string, d: Diff)
    requires Grouped(bs, ds, f)
    ensures forall e :: e in ds + [d] ==> exists i :: 0 <= i < |Put(bs, f(d), d)| && Put(bs, f(d), d)[i].key == f(e)
  {
    var r := Put(bs, f(d), d);
    assert r[Find(bs, f(d))].key == f(d);
    forall e | e in ds + [d] ensures exists i :: 0 <= i < |r| && r[i].key == f(e) {
      if e in ds { PutKeepsKeys(bs, f(d), d, f(e)); }
    }
  }

  lemma PutKeepsKeys(bs: seq<Bucket>, key: string, d: Diff, other: string)
    requires exists i :: 0 <= i < |bs| && bs[i].key == other
    ensures exists i :: 0 <= i < |Put(bs, key, d)| && Put(bs, key, d)[i].key == other
  {
    var i :| 0 <= i < |bs| && bs[i].key == other;
    assert Put(bs, key, d)[i].key == other;
  }

  lemma NothingSelected(ds: seq<Diff>, f: Diff -> string, key: string)
    requires forall d :: d in ds ==> f(d) != key
    ensures Select(ds, f, key) == []
  {
    var r := Select(ds, f, key);
    assert forall i :: 0 <= i < |r| ==> r[i] in r;
  }

  // ---- the summary -----------------------------------------------------------

  /** A finding together with the diffs it stands for. */
  datatype Summary = Summary(finding: Finding, members: seq<Diff>)

  function Plural(n: nat): string {
    if n == 1 then "" else "s"
  }

  function Label(homogeneous: bool, n: nat): string {
    if homogeneous then "all " + Decimal(n) + " elements" else Decimal(n) + " element" + Plural(n)
  }

  function VariantSummary(level: Level, path: string, change: Kind, homogeneous: bool, b: Bucket): Summary
    requires b.diffs != []
  {
    Summary(Finding(level, path, change, Label(homogeneous, |b.diffs|) + ": " + b.key,
                    Some(Render(b.diffs[0].path, true))), b.diffs)
  }

  function Variants(level: Level, path: string, change: Kind, homogeneous: bool, bs: seq<Bucket>): (r: seq<Summary>)
    requires forall i :: 0 <= i < |bs| ==> bs[i].diffs != []
    ensures |r| == |bs|
    ensures forall i :: 0 <= i < |bs| ==> r[i] == VariantSummary(level, path, change, homogeneous, bs[i])
  {
    seq(|bs|, i requires 0 <= i < |bs| => VariantSummary(level, path, change, homogeneous, bs[i]))
  }

  function LoneSummary(level: Level, path: string, change: Kind, d: Diff): Summary {
    Summary(Finding(level, path, change, "1 element: " + DetailFor(d), Some(Render(d.path, true))), [d])
  }

  predicate Survives(d: Diff, o: Options) {
    !o.ignored(Render(d.path, false)) && Allowed(o.level, LevelOf(o.level, KindOfOp(d)))
  }

  function GroupSummaries(ds: seq<Diff>, o: Options): seq<Summary>
    requires ds != []
  {
    var d := ds[0];
    var change, path := KindOfOp(d), Render(d.path, false);
    var level := LevelOf(o.level, change);
    if !Survives(d, o) then []
    else if !HasBrackets(path) then
      [Summary(Finding(level, path, change, DetailFor(d), None), ds)]
    else if |ds| == 1 then
      [LoneSummary(level, path, change, d)]
    else
      GroupByIsGrouped(ds, DetailFor);
      var bs := GroupBy(ds, DetailFor);
      Variants(level, path, change, |bs| == 1, bs)
  }

  function SummariesOf(bs: seq<Bucket>, o: Options): seq<Summary>
    requires forall i :: 0 <= i < |bs| ==> bs[i].diffs != []
  {
    if bs == [] then [] else GroupSummaries(bs[0].diffs, o) + SummariesOf(bs[1..], o)
  }

  function Summaries(ds: seq<Diff>, o: Options): seq<Summary> {
    GroupByIsGrouped(ds, GroupKey);
    SummariesOf(GroupBy(ds, GroupKey), o)
  }

  function Findings(ss: seq<Summary>): (r: seq<Finding>)
    ensures |r| == |ss| && forall i :: 0 <= i < |ss| ==> r[i] == ss[i].finding
  {
    seq(|ss|, i requires 0 <= i < |ss| => ss[i].finding)
  }

  // ---- classifyDiff ----------------------------------------------------------

  method GroupInto(ds: seq<Diff>, f: Diff -> string) returns (groups: seq<Bucket>)
    ensures groups == GroupBy(ds, f) && Grouped(groups, ds, f)
  {
    groups := [];
    for n := 0 to |ds|
      invariant groups == GroupBy(ds[..n], f)
    {
      assert ds[..n + 1][..n] == ds[..n];
      var key := f(ds[n]);
      var i := Find(groups, key);
      if i == |groups| {
        groups := groups + [Bucket(key, [ds[n]])];
      } else {
        groups := groups[i := Bucket(key, groups[i].diffs + [ds[n]])];
      }
    }
    assert ds[..|ds|] == ds;
    GroupByIsGrouped(ds, f);
  }

  method ClassifyGroup(diffs: seq<Diff>, o: Options) returns (findings: seq<Finding>)
    requires diffs != []
    ensures findings == Findings(GroupSummaries(diffs, o))
  {
    findings := [];
    var change := KindOfOp(diffs[0]);
    var path := RenderPath(diffs[0].path);
    if o.ignored(path) {
      return;
    }
    var level := LevelOf(o.level, change);
    if !Allowed(o.level, level) {
      return;
    }
    var isArrayPath := HasBrackets(path);
    if !isArrayPath || |diffs| == 1 {
      var d := diffs[0];
      var detail := DetailFor(d);
      if isArrayPath {
        var sample := RenderConcretePath(d.path);
        findings := [Finding(level, path, change, "1 element: " + detail, Some(sample))];
      } else {
        findings := [Finding(level, path, change, detail, None)];
      }
      return;
    }
    findings := ClassifyVariants(diffs, level, path, change);
  }

  /** Several diffs on an array path: one finding per distinct detail. */
  method ClassifyVariants(diffs: seq<Diff>, level: Level, path: string, change: Kind)
    returns (findings: seq<Finding>)
    ensures Grouped(GroupBy(diffs, DetailFor), diffs, DetailFor)
    ensures var bs := GroupBy(diffs, DetailFor);
      findings == Findings(Variants(level, path, change, |bs| == 1, bs))
  {
    var byDetail := GroupInto(diffs, DetailFor);
    findings := ClassifyByDetail(byDetail, level, path, change);
  }

  method ClassifyByDetail(byDetail: seq<Bucket>, level: Level, path: string, change: Kind)
    returns (findings: seq<Finding>)
    requires forall i :: 0 <= i < |byDetail| ==> byDetail[i].diffs != []
    ensures findings == Findings(Variants(level, path, change, |byDetail| == 1, byDetail))
  {
    findings := [];
    var homogeneous := |byDetail| == 1;
    ghost var vs := Variants(level, path, change, homogeneous, byDetail);
    for n := 0 to |byDetail|
      invariant |findings| == n
      invariant forall i :: 0 <= i < n ==> findings[i] == vs[i].finding
    {
      var found := ClassifyVariant(byDetail[n], level, path, change, homogeneous);
      findings := findings + [found];
    }
    assert findings == Findings(vs);
  }

  method ClassifyVariant(grp: Bucket, level: Level, path: string, change: Kind, homogeneous: bool)
    returns (found: Finding)
    requires grp.diffs != []
    ensures found == VariantSummary(level, path, change, homogeneous, grp).finding
  {
    var sample := RenderConcretePath(grp.diffs[0].path);
    found := Finding(level, path, change, Label(homogeneous, |grp.diffs|) + ": " + grp.key, Some(sample));
  }

  method ClassifyGroups(groups: seq<Bucket>, o: Options) returns (findings: seq<Finding>)
    requires forall i :: 0 <= i < |groups| ==> groups[i].diffs != []
    ensures findings == Findings(SummariesOf(groups, o))
  {
    findings := [];
    ghost var all := Findings(SummariesOf(groups, o));
    assert groups[0..] == groups;
    for n := 0 to |groups|
      invariant all == findings + Findings(SummariesOf(groups[n..], o))
    {
      SummariesStep(groups, n, o);
      var found := ClassifyGroup(groups[n].diffs, o);
      Assoc(findings, found, Findings(SummariesOf(groups[n + 1..], o)));
      findings := findings + found;
    }
    NoMoreSummaries(groups, o);
  }

  method ClassifyDiff(raw: Json, validated: Json, o: Options) returns (findings: seq<Finding>)
    requires WellFormed(raw) && WellFormed(validated)
    ensures findings == Findings(Summaries(DiffOf(raw, validated), o))
  {
    var ds := Compare(raw, validated);
    var groups := GroupInto(ds, GroupKey);
    findings := ClassifyGroups(groups, o);
  }

  lemma NoMoreSummaries(bs: seq<Bucket>, o: Options)
    requires forall i :: 0 <= i < |bs| ==> bs[i].diffs != []
    ensures Findings(SummariesOf(bs[|bs|..], o)) == []
  {
    assert bs[|bs|..] == [];
  }

  lemma SummariesStep(bs: seq<Bucket>, n: nat, o: Options)
    requires n < |bs| && forall i :: 0 <= i < |bs| ==> bs[i].diffs != []
    ensures Findings(SummariesOf(bs[n..], o))
         == Findings(GroupSummaries(bs[n].diffs, o)) + Findings(SummariesOf(bs[n + 1..], o))
  {
    var rest := bs[n..];
    assert rest[0] == bs[n] && rest[1..] == bs[n + 1..];
    FindingsAppend(GroupSummaries(bs[n].diffs, o), SummariesOf(bs[n + 1..], o));
  }

  lemma FindingsAppend(x: seq<Summary>, y: seq<Summary>)
    ensures Findings(x + y) == Findings(x) + Findings(y)
  {
  }

  // ---- what the findings account for ------------------------------------------

  function MembersOf(ss: seq<Summary>): seq<Diff> {
    if ss == [] then [] else ss[0].members + MembersOf(ss[1..])
  }

  lemma {:induction false} MembersAppend(x: seq<Summary>, y: seq<Summary>)
    ensures MembersOf(x + y) == MembersOf(x) + MembersOf(y)
  {
    if x == [] {
      assert x + y == y;
    } else {
      MembersAppend(x[1..], y);
      assert (x + y)[1..] == x[1..] + y && (x + y)[0] == x[0];
      Assoc(x[0].members, MembersOf(x[1..]), MembersOf(y));
    }
  }

  function DiffsOf(bs: seq<Bucket>): seq<Diff> {
    if bs == [] then [] else bs[0].diffs + DiffsOf(bs[1..])
  }

  lemma {:induction false} GroupByKeepsAll(ds: seq<Diff>, f: Diff -> string)
    ensures multiset(DiffsOf(GroupBy(ds, f))) == multiset(ds)
  {
    if ds == [] {
    } else {
      var init, d := ds[..|ds| - 1], ds[|ds| - 1];
      GroupByKeepsAll(init, f);
      PutAddsOne(GroupBy(init, f), f(d), d);
      assert ds == init + [d];
    }
  }

  lemma {:induction false} PutAddsOne(bs: seq<Bucket>, key: string, d: Diff)
    ensures multiset(DiffsOf(Put(bs, key, d))) == multiset(DiffsOf(bs)) + multiset{d}
  {
    var r := Put(bs, key, d);
    if bs == [] {
      assert r[1..] == [];
    } else if bs[0].key == key {
      assert r[1..] == bs[1..] && r[0].diffs == bs[0].diffs + [d];
      assert DiffsOf(r) == bs[0].diffs + [d] + DiffsOf(bs[1..]);
    } else {
      PutAddsOne(bs[1..], key, d);
      PutRest(bs, key, d);
      assert DiffsOf(r) == bs[0].diffs + DiffsOf(Put(bs[1..], key, d));
    }
  }

  lemma PutRest(bs: seq<Bucket>, key: string, d: Diff)
    requires bs != [] && bs[0].key != key
    ensures Put(bs, key, d) == [bs[0]] + Put(bs[1..], key, d)
  {
  }

  function Surviving(ds: seq<Diff>, o: Options): seq<Diff> {
    if ds == [] then []
    else (if Survives(ds[0], o) then [ds[0]] else []) + Surviving(ds[1..], o)
  }

  lemma {:induction false} SurvivingCount(ds: seq<Diff>, o: Options, d: Diff)
    ensures multiset(Surviving(ds, o))[d] == if Survives(d, o) then multiset(ds)[d] else 0
  {
    if ds == [] {
    } else {
      SurvivingCount(ds[1..], o, d);
      assert ds == [ds[0]] + ds[1..];
    }
  }

  lemma {:induction false} AllOrNone(ds: seq<Diff>, o: Options, keep: bool)
    requires forall d :: d in ds ==> Survives(d, o) == keep
    ensures Surviving(ds, o) == if keep then ds else []
  {
    if ds == [] {
    } else {
      AllOrNone(ds[1..], o, keep);
    }
  }

  lemma {:induction false} SurvivingAppend(x: seq<Diff>, y: seq<Diff>, o: Options)
    ensures Surviving(x + y, o) == Surviving(x, o) + Surviving(y, o)
    decreases |x|
  {
    if x == [] {
      assert x + y == y;
    } else {
      SurvivingAppend(x[1..], y, o);
      assert (x + y)[1..] == x[1..] + y && (x + y)[0] == x[0];
    }
  }

  lemma {:induction false} VariantMembers(level: Level, path: string, change: Kind, h: bool, bs: seq<Bucket>)
    requires forall i :: 0 <= i < |bs| ==> bs[i].diffs != []
    ensures MembersOf(Variants(level, path, change, h, bs)) == DiffsOf(bs)
  {
    if bs == [] {
    } else {
      VariantMembers(level, path, change, h, bs[1..]);
      assert Variants(level, path, change, h, bs)[1..] == Variants(level, path, change, h, bs[1..]);
    }
  }

  /** All diffs of a group carry its change and path. */
  ghost predicate Uniform(ds: seq<Diff>) {
    forall d :: d in ds ==> KindOfOp(d) == KindOfOp(ds[0]) && Render(d.path, false) == Render(ds[0].path, false)
  }

  lemma GroupAccountsForItsDiffs(ds: seq<Diff>, o: Options)
    requires ds != [] && Uniform(ds)
    ensures multiset(MembersOf(GroupSummaries(ds, o))) == multiset(Surviving(ds, o))
  {
    AllOrNone(ds, o, Survives(ds[0], o));
    var path := Render(ds[0].path, false);
    if Survives(ds[0], o) {
      if HasBrackets(path) && |ds| > 1 {
        GroupByIsGrouped(ds, DetailFor);
        GroupByKeepsAll(ds, DetailFor);
        var bs := GroupBy(ds, DetailFor);
        var change := KindOfOp(ds[0]);
        VariantMembers(LevelOf(o.level, change), path, change, |bs| == 1, bs);
      } else {
        var s := GroupSummaries(ds, o);
        assert MembersOf(s[1..]) == [];
        assert MembersOf(s) == ds;
      }
    }
  }

  lemma {:induction false} GroupsAccountForTheirDiffs(bs: seq<Bucket>, o: Options)
    requires forall i :: 0 <= i < |bs| ==> bs[i].diffs != [] && Uniform(bs[i].diffs)
    ensures multiset(MembersOf(SummariesOf(bs, o))) == multiset(Surviving(DiffsOf(bs), o))
  {
    if bs == [] {
    } else {
      GroupsAccountForTheirDiffs(bs[1..], o);
      GroupAccountsForItsDiffs(bs[0].diffs, o);
      MembersAppend(GroupSummaries(bs[0].diffs, o), SummariesOf(bs[1..], o));
      SurvivingAppend(bs[0].diffs, DiffsOf(bs[1..]), o);
    }
  }

  lemma GroupIsUniform(ds: seq<Diff>, j: nat)
    requires j < |GroupBy(ds, GroupKey)|
    ensures var g := GroupBy(ds, GroupKey)[j].diffs; g != [] && Uniform(g)
  {
    GroupByIsGrouped(ds, GroupKey);
    var g := GroupBy(ds, GroupKey)[j];
    forall d | d in g.diffs
      ensures KindOfOp(d) == KindOfOp(g.diffs[0]) && Render(d.path, false) == Render(g.diffs[0].path, false)
    {
      assert d in Select(ds, GroupKey, g.key) && g.diffs[0] in Select(ds, GroupKey, g.key);
      GroupKeyInjective(d, g.diffs[0]);
    }
  }

  /** The findings' members are the surviving diffs, each exactly as often as it occurs. */
  lemma FindingsPartitionTheDiff(ds: seq<Diff>, o: Options)
    ensures multiset(MembersOf(Summaries(ds, o))) == multiset(Surviving(ds, o))
  {
    var bs := GroupBy(ds, GroupKey);
    forall i | 0 <= i < |bs| ensures bs[i].diffs != [] && Uniform(bs[i].diffs) { GroupIsUniform(ds, i); }
    GroupsAccountForTheirDiffs(bs, o);
    GroupByKeepsAll(ds, GroupKey);
    forall d ensures multiset(Surviving(DiffsOf(bs), o))[d] == multiset(Surviving(ds, o))[d] {
      SurvivingCount(ds, o, d);
      SurvivingCount(DiffsOf(bs), o, d);
    }
  }

  lemma {:induction false} MemberOfSome(ss: seq<Summary>, d: Diff)
    requires multiset(MembersOf(ss))[d] == 1
    ensures exists i :: 0 <= i < |ss| && d in ss[i].members
    ensures forall i, j :: 0 <= i < |ss| && 0 <= j < |ss| && d in ss[i].members && d in ss[j].members ==> i == j
  {
    var rest := ss[1..];
    if d in ss[0].members {
      assert multiset(ss[0].members)[d] >= 1;
      forall j | 0 < j < |ss| ensures d !in ss[j].members {
        if d in ss[j].members { InMembersOf(rest, j - 1, d); }
      }
    } else {
      MemberOfSome(rest, d);
      var i :| 0 <= i < |rest| && d in rest[i].members;
      assert d in ss[i + 1].members;
      assert forall k :: 0 < k < |ss| ==> ss[k] == rest[k - 1];
    }
  }

  lemma {:induction false} InMembersOf(ss: seq<Summary>, i: nat, d: Diff)
    requires i < |ss| && d in ss[i].members
    ensures d in MembersOf(ss)
  {
    if i == 0 {
    } else {
      InMembersOf(ss[1..], i - 1, d);
    }
  }

  /** In a real diff, every surviving entry is counted in exactly one finding. */
  lemma ExactlyOneFinding(raw: Json, validated: Json, o: Options, d: Diff)
    requires WellFormed(raw) && WellFormed(validated)
    requires d in DiffOf(raw, validated) && Survives(d, o)
    ensures var ss := Summaries(DiffOf(raw, validated), o);
      && (exists i :: 0 <= i < |ss| && d in ss[i].members)
      && (forall i, j :: 0 <= i < |ss| && 0 <= j < |ss| && d in ss[i].members && d in ss[j].members ==> i == j)
  {
    var ds := DiffOf(raw, validated);
    NoDiffRepeats(raw, validated);
    DistinctCount(ds, d);
    SurvivingCount(ds, o, d);
    FindingsPartitionTheDiff(ds, o);
    MemberOfSome(Summaries(ds, o), d);
  }

  // ---- what each finding says about its members ---------------------------------

  /** No diff of this change and path, in the whole report, has another detail. */
  ghost predicate OneDetail(s: Summary, ds: seq<Diff>)
    requires s.members != []
  {
    forall d :: d in ds && KindOfOp(d) == s.finding.change && Render(d.path, false) == s.finding.path ==>
      DetailFor(d) == DetailFor(s.members[0])
  }

  ghost predicate Faithful(s: Summary, ds: seq<Diff>, o: Options) {
    && s.members != []
    && (forall d :: d in s.members ==>
          && d in ds
          && s.finding.change == KindOfOp(d)
          && s.finding.path == Render(d.path, false)
          && s.finding.level == LevelOf(o.level, KindOfOp(d)))
    && (if HasBrackets(s.finding.path) then
          && (forall d :: d in s.members ==> DetailFor(d) == DetailFor(s.members[0]))
          && s.finding.detail
             == Label(|s.members| > 1 && OneDetail(s, ds), |s.members|) + ": " + DetailFor(s.members[0])
          && s.finding.sample == Some(Render(s.members[0].path, true))
        else
          && s.finding.detail == DetailFor(s.members[0])
          && s.finding.sample == None)
  }

  ghost predicate AllHave(ds: seq<Diff>, f: Diff -> string, key: string) {
    forall d :: d in ds ==> f(d) == key
  }

  lemma OneDetailInGroup(s: Summary, ds: seq<Diff>)
    requires s.members != [] && ds != [] && Uniform(ds)
    requires s.finding.change == KindOfOp(ds[0]) && s.finding.path == Render(ds[0].path, false)
    ensures OneDetail(s, ds) <==> AllHave(ds, DetailFor, DetailFor(s.members[0]))
  {
  }

  lemma VariantIsFaithful(ds: seq<Diff>, o: Options, b: Bucket, h: bool)
    requires ds != [] && Uniform(ds) && HasBrackets(Render(ds[0].path, false))
    requires b.diffs != [] && b.diffs == Select(ds, DetailFor, b.key)
    requires h <==> |b.diffs| > 1 && AllHave(ds, DetailFor, b.key)
    ensures var change := KindOfOp(ds[0]);
      Faithful(VariantSummary(LevelOf(o.level, change), Render(ds[0].path, false), change, h, b), ds, o)
  {
    var change := KindOfOp(ds[0]);
    var s := VariantSummary(LevelOf(o.level, change), Render(ds[0].path, false), change, h, b);
    assert s.members[0] in b.diffs;
    OneDetailInGroup(s, ds);
    assert h == (|s.members| > 1 && OneDetail(s, ds));
  }

  /** All diffs have one key exactly when grouping makes one bucket, and then it holds them all. */
  lemma OneBucketIffOneKey(ds: seq<Diff>, f: Diff -> string, i: nat)
    requires |ds| > 1 && i < |GroupBy(ds, f)|
    ensures var bs := GroupBy(ds, f); |bs| == 1 <==> |bs[i].diffs| > 1 && AllHave(ds, f, bs[i].key)
  {
    GroupByIsGrouped(ds, f);
    var bs := GroupBy(ds, f);
    forall j | 0 <= j < |bs| ensures bs[j].diffs[0] in ds && f(bs[j].diffs[0]) == bs[j].key {
      assert bs[j].diffs[0] in Select(ds, f, bs[j].key);
    }
    if |bs| == 1 {
      assert AllHave(ds, f, bs[i].key);
      SelectsAll(ds, f, bs[i].key);
    } else {
      assert bs[0].key != bs[1].key;
    }
  }

  lemma {:induction false} SelectsAll(ds: seq<Diff>, f: Diff -> string, key: string)
    requires AllHave(ds, f, key)
    ensures Select(ds, f, key) == ds
  {
    if ds == [] {
    } else {
      var init, d := ds[..|ds| - 1], ds[|ds| - 1];
      assert AllHave(init, f, key);
      SelectsAll(init, f, key);
      assert d in ds && ds == init + [d];
    }
  }

  lemma GroupIsFaithful(ds: seq<Diff>, o: Options, i: nat)
    requires ds != [] && Uniform(ds) && i < |GroupSummaries(ds, o)|
    ensures Faithful(GroupSummaries(ds, o)[i], ds, o)
  {
    if HasBrackets(Render(ds[0].path, false)) {
      if |ds| > 1 {
        GroupByIsGrouped(ds, DetailFor);
        var bs := GroupBy(ds, DetailFor);
        OneBucketIffOneKey(ds, DetailFor, i);
        VariantIsFaithful(ds, o, bs[i], |bs| == 1);
      } else {
        assert ds == [ds[0]];
        LoneElementIsFaithful(ds[0], o);
      }
    }
  }

  lemma LoneLabel(detail: string)
    ensures "1 element: " + detail == Label(false, 1) + ": " + detail
  {
    assert Label(false, 1) == "1 element";
    assert "1 element: " == "1 element" + ": ";
    Assoc("1 element", ": ", detail);
  }

  lemma LoneElementIsFaithful(d: Diff, o: Options)
    requires HasBrackets(Render(d.path, false))
    ensures var change := KindOfOp(d);
      Faithful(LoneSummary(LevelOf(o.level, change), Render(d.path, false), change, d), [d], o)
  {
    var change := KindOfOp(d);
    var s := LoneSummary(LevelOf(o.level, change), Render(d.path, false), change, d);
    assert |s.members| == 1 && s.members[0] == d;
    LoneLabel(DetailFor(d));
  }

  /** Count, change, path, level, detail and sample of every finding describe its members. */
  lemma FindingsAreFaithful(ds: seq<Diff>, o: Options, s: Summary)
    requires s in Summaries(ds, o)
    ensures Faithful(s, ds, o)
  {
    var g, i := GroupOf(ds, o, s);
    GroupIsFaithful(g, o, i);
    forall d | d in ds && KindOfOp(d) == s.finding.change && Render(d.path, false) == s.finding.path ensures d in g {
      assert s.members[0] in s.members;
      GroupKeyInjective(d, g[0]);
    }
    FaithfulInWhole(s, g, ds, o);
  }

  lemma FaithfulInWhole(s: Summary, part: seq<Diff>, ds: seq<Diff>, o: Options)
    requires Faithful(s, part, o) && forall d :: d in part ==> d in ds
    requires forall d :: d in ds && KindOfOp(d) == s.finding.change && Render(d.path, false) == s.finding.path ==> d in part
    ensures Faithful(s, ds, o)
  {
  }

  /** The group a summary was made from. */
  lemma GroupOf(ds: seq<Diff>, o: Options, s: Summary) returns (g: seq<Diff>, i: nat)
    requires s in Summaries(ds, o)
    ensures g != [] && Uniform(g)
    ensures i < |GroupSummaries(g, o)| && GroupSummaries(g, o)[i] == s
    ensures (forall d :: d in g ==> d in ds) && (Distinct(ds) ==> Distinct(g))
    ensures forall d :: d in ds && GroupKey(d) == GroupKey(g[0]) ==> d in g
  {
    var bs := GroupBy(ds, GroupKey);
    assert forall i :: 0 <= i < |bs| ==> bs[i].diffs != [] by { GroupByIsGrouped(ds, GroupKey); }
    var j;
    j, i := FromGroup(bs, o, s);
    g := bs[j].diffs;
    GroupIsUniform(ds, j);
    assert g == Select(ds, GroupKey, bs[j].key) by { GroupByIsGrouped(ds, GroupKey); }
    SelectedFrom(ds, GroupKey, bs[j].key, g);
    assert g[0] in g;
  }

  lemma SelectedFrom(ds: seq<Diff>, f: Diff -> string, key: string, g: seq<Diff>)
    requires g == Select(ds, f, key)
    ensures (forall d :: d in g ==> d in ds) && (Distinct(ds) ==> Distinct(g))
  {
    if Distinct(ds) { SelectDistinct(ds, f, key); }
  }

  lemma {:induction false} FromGroup(bs: seq<Bucket>, o: Options, s: Summary) returns (j: nat, i: nat)
    requires forall i :: 0 <= i < |bs| ==> bs[i].diffs != []
    requires s in SummariesOf(bs, o)
    ensures j < |bs| && i < |GroupSummaries(bs[j].diffs, o)| && GroupSummaries(bs[j].diffs, o)[i] == s
  {
    if s in GroupSummaries(bs[0].diffs, o) {
      j := 0;
      i :| 0 <= i < |GroupSummaries(bs[0].diffs, o)| && GroupSummaries(bs[0].diffs, o)[i] == s;
    } else {
      j, i := FromGroup(bs[1..], o, s);
      j := j + 1;
    }
  }

  // ---- clean keys: samples decode, nothing goes uncounted --------------------------

  ghost predicate CleanTree(v: Json) {
    match v
    case Arr(es) => forall i :: 0 <= i < |es| ==> CleanTree(es[i])
    case Obj(_, fs) => forall k :: k in fs ==> CleanKey(k) && CleanTree(fs[k])
    case _ => true
  }

  lemma {:induction false} ReportedPathsAreClean(b: Json, a: Json, d: Diff)
    requires CleanTree(b) && CleanTree(a) && Reports(b, a, d)
    ensures CleanPath(d.path)
    decreases b
  {
    if d.path == [] {
    } else {
      match d.path[0]
      case Key(k) =>
        if k in b.fields && k in a.fields { ReportedPathsAreClean(b.fields[k], a.fields[k], Tail(d)); }
      case Index(i) =>
        if i < |b.elems| && i < |a.elems| { ReportedPathsAreClean(b.elems[i], a.elems[i], Tail(d)); }
      assert d.path == [d.path[0]] + d.path[1..];
      assert CleanSeg(d.path[0]) && (|d.path| > 1 ==> CleanPath(Tail(d).path));
    }
  }

  /** A sample names one diff of the whole report, and it is the finding's own first member. */
  lemma SampleDecodes(raw: Json, validated: Json, o: Options, s: Summary, d: Diff)
    requires WellFormed(raw) && WellFormed(validated) && CleanTree(raw) && CleanTree(validated)
    requires s in Summaries(DiffOf(raw, validated), o) && s.finding.sample.Some?
    requires d in DiffOf(raw, validated) && s.finding.sample.value == Render(d.path, true)
    ensures s.members != [] && d == s.members[0]
  {
    var ds := DiffOf(raw, validated);
    FindingsAreFaithful(ds, o, s);
    var e := s.members[0];
    assert e in s.members;
    ListedIffReported(raw, validated, d);
    ListedIffReported(raw, validated, e);
    ReportedPathsAreClean(raw, validated, d);
    ReportedPathsAreClean(raw, validated, e);
    RenderInjective(d.path, e.path, true);
    ReportedPathsAreApart(raw, validated, d, e);
  }

  /** A path that crosses no array is rendered for one diff only. */
  lemma ScalarPathIsUnique(raw: Json, validated: Json, d: Diff, e: Diff)
    requires WellFormed(raw) && WellFormed(validated) && CleanTree(raw) && CleanTree(validated)
    requires d in DiffOf(raw, validated) && e in DiffOf(raw, validated)
    requires Render(d.path, false) == Render(e.path, false) && !HasBrackets(Render(d.path, false))
    ensures d == e
  {
    ListedIffReported(raw, validated, d);
    ListedIffReported(raw, validated, e);
    ReportedPathsAreClean(raw, validated, d);
    ReportedPathsAreClean(raw, validated, e);
    BracketsIffIndex(d.path);
    BracketsIffIndex(e.path);
    RenderInjective(d.path, e.path, false);
    assert d.path == Erase(d.path, false) == Erase(e.path, false) == e.path;
    ReportedPathsAreApart(raw, validated, d, e);
  }

  lemma UncountedGroup(ds: seq<Diff>, o: Options, i: nat)
    requires ds != [] && i < |GroupSummaries(ds, o)| && GroupSummaries(ds, o)[i].finding.sample == None
    ensures GroupSummaries(ds, o)[i].members == ds && !HasBrackets(Render(ds[0].path, false))
  {
    if HasBrackets(Render(ds[0].path, false)) && |ds| > 1 { GroupByIsGrouped(ds, DetailFor); }
  }

  /** A finding without a count stands for exactly one diff. */
  lemma UncountedMeansOne(raw: Json, validated: Json, o: Options, s: Summary)
    requires WellFormed(raw) && WellFormed(validated) && CleanTree(raw) && CleanTree(validated)
    requires s in Summaries(DiffOf(raw, validated), o) && s.finding.sample == None
    ensures |s.members| == 1
  {
    var ds := DiffOf(raw, validated);
    NoDiffRepeats(raw, validated);
    var m, i := GroupOf(ds, o, s);
    UncountedGroup(m, o, i);
    if |m| > 1 {
      assert m[0] in m && m[1] in m;
      ScalarPathIsUnique(raw, validated, m[0], m[1]);
    }
  }

  lemma {:induction false} SelectDistinct(ds: seq<Diff>, f: Diff -> string, key: string)
    requires Distinct(ds)
    ensures Distinct(Select(ds, f, key))
  {
    if ds == [] {
    } else {
      var init := ds[..|ds| - 1];
      SelectDistinct(init, f, key);
      assert forall i :: 0 <= i < |Select(init, f, key)| ==> Select(init, f, key)[i] in init;
    }
  }

  /** A raw value with a `.` inside a key, cut down to these two removals. */
  lemma DottedKeyDiff(v: Json)
    ensures var raw := Obj(["a.b", "a"], map["a.b" := v, "a" := Obj(["b"], map["b" := v])]);
      var cut := Obj(["a"], map["a" := Obj([], map[])]);
      DiffOf(raw, cut) == [Remove([Key("a.b")], v), Remove([Key("a"), Key("b")], v)]
  {
    var b, a := Obj(["b"], map["b" := v]), Obj([], map[]);
    var raw, cut := Obj(["a.b", "a"], map["a.b" := v, "a" := b]), Obj(["a"], map["a" := a]);
    assert ["a.b", "a"][1..] == ["a"] && ["a"][1..] == [] && ["b"][1..] == [];
    assert KeyDiffs([], b, a) == [] && NewKeys([], b, a) == [];
    assert KeyDiff("b", b, a) == [Remove([Key("b")], v)];
    assert DiffOf(b, a) == [Remove([Key("b")], v)];
    assert KeyDiffs([], raw, cut) == [] && NewKeys([], raw, cut) == [] && NewKeys(["a"], raw, cut) == [];
    assert KeyDiff("a.b", raw, cut) == [Remove([Key("a.b")], v)];
    assert At([Key("a")], Remove([Key("b")], v)) == Remove([Key("a"), Key("b")], v);
    assert KeyDiff("a", raw, cut) == Under([Key("a")], DiffOf(b, a));
    assert KeyDiff("a", raw, cut) == [Remove([Key("a"), Key("b")], v)];
    assert KeyDiffs(["a"], raw, cut) == [Remove([Key("a"), Key("b")], v)];
  }

  lemma TwoInOneGroup(v: Json, o: Options)
    ensures var ds := [Remove([Key("a.b")], v), Remove([Key("a"), Key("b")], v)];
      var only := Summary(Finding(LevelOf(o.level, Undeclared), "a.b", Undeclared, DetailFor(ds[0]), None), ds);
      Survives(ds[0], o) ==> GroupSummaries(ds, o) == [only]
  {
    UncleanPathsCollide();
  }

  lemma OneBucketOfTwo(d: Diff, e: Diff)
    requires GroupKey(d) == GroupKey(e)
    ensures GroupBy([d, e], GroupKey) == [Bucket(GroupKey(d), [d, e])]
  {
    assert [d, e][..1] == [d] && [d][..0] == [];
    assert GroupBy([d], GroupKey) == [Bucket(GroupKey(d), [d])];
    assert [d] + [e] == [d, e];
  }

  /** With a `.` inside a key the whole report of two removals is one uncounted finding that shows
      only the first. */
  lemma UncleanKeysHideADiff(v: Json, o: Options)
    ensures var raw := Obj(["a.b", "a"], map["a.b" := v, "a" := Obj(["b"], map["b" := v])]);
      var cut := Obj(["a"], map["a" := Obj([], map[])]);
      var d, e := Remove([Key("a.b")], v), Remove([Key("a"), Key("b")], v);
      var only := Finding(LevelOf(o.level, Undeclared), "a.b", Undeclared, DetailFor(d), None);
      Survives(d, o) ==> Summaries(DiffOf(raw, cut), o) == [Summary(only, [d, e])]
  {
    var d, e := Remove([Key("a.b")], v), Remove([Key("a"), Key("b")], v);
    DottedKeyDiff(v);
    UncleanPathsCollide();
    GroupKeyInjective(d, e);
    OneBucketOfTwo(d, e);
    TwoInOneGroup(v, o);
    if Survives(d, o) { OneGroupReport([d, e], Bucket(GroupKey(d), [d, e]), o); }
  }

  lemma OneGroupReport(ds: seq<Diff>, b: Bucket, o: Options)
    requires b.diffs != [] && GroupBy(ds, GroupKey) == [b]
    ensures Summaries(ds, o) == GroupSummaries(b.diffs, o)
  {
    assert [b][1..] == [];
    assert SummariesOf([b], o) == GroupSummaries(b.diffs, o) + SummariesOf([], o);
  }
}
