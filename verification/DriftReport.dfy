/** How the drift report of packages/core/src/drift.ts reads: the words and levels of each finding,
    taken from the diffs it stands for, and the order the findings come in. */
module DriftReport {
  import opened Optional
  import opened Diff
  import opened Drift
  import Text

  // ---- paths ------------------------------------------------------------------------------

  /** Keys are joined by dots, a position follows its array in brackets, with its number where that is
      asked for. */
  lemma PathsLookLike(p: Path, k: string, i: nat, concrete: bool)
    ensures Render([Key(k)], concrete) == k
    ensures Render(p, concrete) != "" ==> Render(p + [Key(k)], concrete) == Render(p, concrete) + "." + k
    ensures Render(p + [Index(i)], true) == Render(p, true) + "[" + Text.Decimal(i) + "]"
    ensures Render(p + [Index(i)], false) == Render(p, false) + "[]"
  {
    assert (p + [Key(k)])[..|p|] == p && (p + [Index(i)])[..|p|] == p && [Key(k)][..0] == [];
    assert Render(p, false) + "[" + "" + "]" == Render(p, false) + "[]";
  }

  // ---- words and levels ---------------------------------------------------------------------

  /** A stripped field is undeclared, a changed value coerced, an added one defaulted; at the levels
      these have unless the options give that kind another. */
  lemma FindingsSayWhatHappened(ds: seq<Diff>, o: Options, s: Summary, d: Diff)
    requires s in Summaries(ds, o) && d in s.members
    ensures d.Remove? ==> s.finding.change == Undeclared
    ensures d.Change? ==> s.finding.change == Coerced
    ensures d.Create? ==> s.finding.change == Defaulted
    ensures o.level.ByKind? && s.finding.change in o.level.kinds ==> s.finding.level == o.level.kinds[s.finding.change]
    ensures !(o.level.ByKind? && s.finding.change in o.level.kinds) ==>
              s.finding.level == match s.finding.change case Undeclared => Info case Coerced => Warn case Defaulted => Verbose
    ensures !o.ignored(s.finding.path)
    ensures o.level.One? ==> s.finding.level == o.level.level
    ensures o.level.Many? ==> s.finding.level in o.level.levels
  {
    FindingsAreFaithful(ds, o, s);
    OnlySurvivorsAreTold(ds, o, s);
  }

  lemma OnlySurvivorsAreTold(ds: seq<Diff>, o: Options, s: Summary)
    requires s in Summaries(ds, o)
    ensures s.members != [] && Survives(s.members[0], o)
  {
    FindingsAreFaithful(ds, o, s);
    var g, i := GroupOf(ds, o, s);
    var e := s.members[0];
    assert e in s.members && Survives(g[0], o);
    FindingPath(g, o, i);
  }

  lemma FindingPath(g: seq<Diff>, o: Options, i: nat)
    requires g != [] && i < |GroupSummaries(g, o)|
    ensures var s := GroupSummaries(g, o)[i];
      s.finding.path == Render(g[0].path, false) && s.finding.change == KindOfOp(g[0])
  {
    if HasBrackets(Render(g[0].path, false)) && |g| > 1 { GroupByIsGrouped(g, DetailFor); }
  }

  /** A difference is left out exactly if its path is ignored or its level not asked for. */
  lemma LeftOutIff(d: Diff, o: Options)
    ensures Survives(d, o) <==>
              && !o.ignored(Render(d.path, false))
              && var change := if d.Remove? then Undeclared else if d.Change? then Coerced else Defaulted;
                 match o.level
                 case One(only) => only == (match change case Undeclared => Info case Coerced => Warn case Defaulted => Verbose)
                 case Many(some) => (match change case Undeclared => Info case Coerced => Warn case Defaulted => Verbose) in some
                 case _ => true
  {
  }

  /** The words for one difference. */
  ghost predicate Words(d: Diff, words: string) {
    match d
    case Change(_, was, now) =>
      exists a, b :: NameOf(was, a) && NameOf(now, b) && words == a + " -> " + b
    case Remove(_, was) => exists a :: NameOf(was, a) && words == "undeclared field (" + a + ")"
    case Create(_, _) => words == "default applied"
  }

  /** `typeof`, with arrays and `null` told apart from objects. */
  predicate NameOf(v: Json, name: string) {
    || (name == "null" && v == Null)
    || (name == "array" && v.Arr?)
    || (name == "object" && v.Obj?)
    || (name == "undefined" && v == Leaf(Undefined))
    || (name == "boolean" && v.Leaf? && v.p.Bool?)
    || (name == "number" && v.Leaf? && (v.p.Num? || v.p.NegZero? || v.p.NaN?))
    || (name == "string" && v.Leaf? && v.p.Str?)
    || (name == "bigint" && v.Leaf? && v.p.BigInt?)
    || (name == "function" && v.Leaf? && v.p.Func?)
    || (name == "symbol" && v.Leaf? && v.p.Symbol?)
  }

  lemma NamesItsKind(v: Json)
    ensures NameOf(v, TypeName(v))
  {
  }

  lemma WordsFor(d: Diff)
    ensures Words(d, DetailFor(d))
  {
    match d
    case Change(_, was, now) =>
      NamesItsKind(was);
      NamesItsKind(now);
    case Remove(_, was) => NamesItsKind(was);
    case Create(_, _) =>
  }

  /** On a path without an array a finding speaks of its first member; behind one it counts its
      members, all of which it describes, and points at the first. */
  lemma FindingsUseTheseWords(ds: seq<Diff>, o: Options, s: Summary)
    requires s in Summaries(ds, o)
    ensures s.members != []
    ensures s.finding.sample == None ==> Words(s.members[0], s.finding.detail)
    ensures s.finding.sample.Some? ==>
              && s.finding.sample == Some(Render(s.members[0].path, true))
              && exists words :: CountsAndTells(s, words)
  {
    FindingsAreFaithful(ds, o, s);
    WordsFor(s.members[0]);
    if s.finding.sample.Some? { CountedWords(ds, o, s); }
  }

  ghost predicate CountsAndTells(s: Summary, words: string) {
    && (forall d :: d in s.members ==> Words(d, words))
    && exists count :: Counts(count, |s.members|) && s.finding.detail == count + ": " + words
  }

  predicate Counts(count: string, n: nat) {
    || (n == 1 && count == "1 element")
    || (n != 1 && count == Text.Decimal(n) + " elements")
    || count == "all " + Text.Decimal(n) + " elements"
  }

  lemma LabelCounts(homogeneous: bool, n: nat)
    ensures Counts(Label(homogeneous, n), n)
  {
    assert Text.Decimal(1) == "1";
    assert "1" + " element" + "" == "1 element";
  }

  lemma CountedWords(ds: seq<Diff>, o: Options, s: Summary)
    requires s in Summaries(ds, o) && Faithful(s, ds, o) && s.finding.sample.Some?
    ensures CountsAndTells(s, DetailFor(s.members[0]))
  {
    var words := DetailFor(s.members[0]);
    forall d | d in s.members ensures Words(d, words) { WordsFor(d); }
    LabelCounts(|s.members| > 1 && OneDetail(s, ds), |s.members|);
  }

  /** Every difference of the finding's change and path reads alike. */
  ghost predicate AllAlike(ds: seq<Diff>, s: Summary) {
    && s.members != []
    && forall d :: d in ds && KindOfOp(d) == s.finding.change && Render(d.path, false) == s.finding.path ==>
         DetailFor(d) == DetailFor(s.members[0])
  }

  lemma LabelReads(homogeneous: bool, n: nat)
    ensures Label(homogeneous, n) == if homogeneous then "all " + Text.Decimal(n) + " elements"
                                     else if n == 1 then "1 element" else Text.Decimal(n) + " elements"
  {
    LabelCounts(homogeneous, n);
    assert " element" + "s" == " elements";
    Text.Assoc(Text.Decimal(n), " element", "s");
  }

  /** Behind an array a finding says "all" exactly if it stands for several differences and there are no
      others of its change and path that read differently. */
  lemma AllMeansAll(ds: seq<Diff>, o: Options, s: Summary)
    requires s in Summaries(ds, o) && s.finding.sample.Some?
    ensures s.members != []
    ensures var n, words := |s.members|, DetailFor(s.members[0]);
      var count := if n > 1 && AllAlike(ds, s) then "all " + Text.Decimal(n) + " elements"
                   else if n == 1 then "1 element"
                   else Text.Decimal(n) + " elements";
      s.finding.detail == count + ": " + words
  {
    FindingsAreFaithful(ds, o, s);
    LabelReads(|s.members| > 1 && OneDetail(s, ds), |s.members|);
  }

  // ---- order ----------------------------------------------------------------------------------

  /** Where a key occurs first. */
  function FirstAt(ds: seq<Diff>, f: Diff -> string, key: string): (i: nat)
    ensures i <= |ds| && (i < |ds| ==> f(ds[i]) == key)
    ensures forall j :: 0 <= j < i ==> f(ds[j]) != key
  {
    if ds == [] || f(ds[0]) == key then 0 else 1 + FirstAt(ds[1..], f, key)
  }

  lemma FirstAtAppend(ds: seq<Diff>, d: Diff, f: Diff -> string, key: string)
    ensures FirstAt(ds, f, key) < |ds| ==> FirstAt(ds + [d], f, key) == FirstAt(ds, f, key)
    ensures FirstAt(ds, f, key) == |ds| && f(d) == key ==> FirstAt(ds + [d], f, key) == |ds|
  {
    assert forall k :: 0 <= k < |ds| ==> (ds + [d])[k] == ds[k];
    assert (ds + [d])[|ds|] == d;
  }

  /** Buckets come in the order in which their keys first occur. */
  lemma {:induction false} BucketsInOrder(ds: seq<Diff>, f: Diff -> string, i: nat, j: nat)
    requires i < j < |GroupBy(ds, f)|
    ensures FirstAt(ds, f, GroupBy(ds, f)[i].key) < FirstAt(ds, f, GroupBy(ds, f)[j].key) < |ds|
  {
    if ds == [] {
    } else {
      var init, d := ds[..|ds| - 1], ds[|ds| - 1];
      var bs, all := GroupBy(init, f), GroupBy(ds, f);
      assert ds == init + [d];
      PutKeys(bs, f(d), d);
      GroupByIsGrouped(init, f);
      KeysOccur(init, f, i);
      if j < |bs| {
        KeysOccur(init, f, j);
        BucketsInOrder(init, f, i, j);
        FirstAtAppend(init, d, f, bs[j].key);
      } else {
        NewKeyIsLast(init, d, f);
      }
      FirstAtAppend(init, d, f, bs[i].key);
    }
  }

  /** A bucket's key occurs, and so does a bucket for it. */
  lemma KeysOccur(ds: seq<Diff>, f: Diff -> string, i: nat)
    ensures i < |GroupBy(ds, f)| ==> FirstAt(ds, f, GroupBy(ds, f)[i].key) < |ds|
  {
    if i < |GroupBy(ds, f)| {
      GroupByIsGrouped(ds, f);
      var b := GroupBy(ds, f)[i];
      var d := b.diffs[0];
      assert d in Select(ds, f, b.key);
      var k :| 0 <= k < |ds| && ds[k] == d;
    }
  }

  lemma {:induction false} PutKeys(bs: seq<Bucket>, key: string, d: Diff)
    ensures |bs| <= |Put(bs, key, d)| <= |bs| + 1
    ensures forall i :: 0 <= i < |bs| ==> Put(bs, key, d)[i].key == bs[i].key
    ensures |Put(bs, key, d)| == |bs| + 1 ==> Put(bs, key, d)[|bs|].key == key && forall i :: 0 <= i < |bs| ==> bs[i].key != key
  {
  }

  lemma NewKeyIsLast(ds: seq<Diff>, d: Diff, f: Diff -> string)
    requires |GroupBy(ds + [d], f)| == |GroupBy(ds, f)| + 1
    ensures FirstAt(ds + [d], f, f(d)) == |ds| && GroupBy(ds + [d], f)[|GroupBy(ds, f)|].key == f(d)
  {
    assert (ds + [d])[..|ds|] == ds;
    PutKeys(GroupBy(ds, f), f(d), d);
    GroupByIsGrouped(ds, f);
    assert forall k :: 0 <= k < |ds| ==> ds[k] in ds;
    FirstAtAppend(ds, d, f, f(d));
  }

  /** The first of the differences with a key heads its list, so a sample is the first occurrence. */
  lemma {:induction false} FirstIsSelectedFirst(ds: seq<Diff>, f: Diff -> string, key: string)
    requires FirstAt(ds, f, key) < |ds|
    ensures Select(ds, f, key) != [] && Select(ds, f, key)[0] == ds[FirstAt(ds, f, key)]
  {
    var init, d := ds[..|ds| - 1], ds[|ds| - 1];
    assert ds == init + [d];
    FirstAtAppend(init, d, f, key);
    SelectSnoc(init, d, f, key);
    if FirstAt(init, f, key) < |init| {
      FirstIsSelectedFirst(init, f, key);
    } else {
      NothingSelected(init, f, key);
    }
  }

  function Flat<T>(parts: seq<seq<T>>): seq<T> {
    if parts == [] then [] else parts[0] + Flat(parts[1..])
  }

  /** The part that holds position `i`. */
  function PartAt<T>(parts: seq<seq<T>>, i: nat): (b: nat)
    requires i < |Flat(parts)|
    ensures b < |parts|
  {
    if i < |parts[0]| then 0 else 1 + PartAt(parts[1..], i - |parts[0]|)
  }

  lemma {:induction false} PartsAdvance<T>(parts: seq<seq<T>>, i: nat, j: nat)
    requires i < j < |Flat(parts)|
    ensures PartAt(parts, i) <= PartAt(parts, j)
  {
    if i >= |parts[0]| {
      PartsAdvance(parts[1..], i - |parts[0]|, j - |parts[0]|);
    }
  }

  lemma {:induction false} PartHolds<T>(parts: seq<seq<T>>, i: nat)
    requires i < |Flat(parts)|
    ensures Flat(parts)[i] in parts[PartAt(parts, i)]
  {
    if i >= |parts[0]| {
      PartHolds(parts[1..], i - |parts[0]|);
      assert Flat(parts)[i] == Flat(parts[1..])[i - |parts[0]|];
    }
  }

  /** The findings of each bucket. */
  function Reports(bs: seq<Bucket>, o: Options): (r: seq<seq<Summary>>)
    requires forall n :: 0 <= n < |bs| ==> bs[n].diffs != []
    ensures |r| == |bs| && forall n :: 0 <= n < |bs| ==> r[n] == GroupSummaries(bs[n].diffs, o)
  {
    seq(|bs|, n requires 0 <= n < |bs| => GroupSummaries(bs[n].diffs, o))
  }

  lemma {:induction false} ReportsInOrder(bs: seq<Bucket>, o: Options)
    requires forall n :: 0 <= n < |bs| ==> bs[n].diffs != []
    ensures SummariesOf(bs, o) == Flat(Reports(bs, o))
  {
    if bs == [] {
    } else {
      ReportsInOrder(bs[1..], o);
      assert Reports(bs, o)[1..] == Reports(bs[1..], o);
    }
  }

  /** The key of the differences a finding is about. */
  function KeyOf(s: Summary): string {
    KindName(s.finding.change) + "|" + s.finding.path
  }

  function PartsOf(ds: seq<Diff>, o: Options): (r: seq<seq<Summary>>)
    ensures |r| == |GroupBy(ds, GroupKey)| && Flat(r) == Summaries(ds, o)
  {
    GroupByIsGrouped(ds, GroupKey);
    ReportsInOrder(GroupBy(ds, GroupKey), o);
    Reports(GroupBy(ds, GroupKey), o)
  }

  /** Findings come in the order in which their change and path first occur in the diff. */
  lemma FindingsInOrder(ds: seq<Diff>, o: Options, i: nat, j: nat)
    requires i < j < |Summaries(ds, o)|
    requires KeyOf(Summaries(ds, o)[i]) != KeyOf(Summaries(ds, o)[j])
    ensures FirstAt(ds, GroupKey, KeyOf(Summaries(ds, o)[i])) < FirstAt(ds, GroupKey, KeyOf(Summaries(ds, o)[j])) < |ds|
  {
    var a, b := BucketsBehind(ds, o, i, j);
    KeysInOrder(ds, a, b, KeyOf(Summaries(ds, o)[i]), KeyOf(Summaries(ds, o)[j]));
  }

  lemma KeysInOrder(ds: seq<Diff>, a: nat, b: nat, k: string, l: string)
    requires a <= b < |GroupBy(ds, GroupKey)| && k == GroupBy(ds, GroupKey)[a].key && l == GroupBy(ds, GroupKey)[b].key && k != l
    ensures FirstAt(ds, GroupKey, k) < FirstAt(ds, GroupKey, l) < |ds|
  {
    BucketsInOrder(ds, GroupKey, a, b);
  }

  lemma BucketsBehind(ds: seq<Diff>, o: Options, i: nat, j: nat) returns (a: nat, b: nat)
    requires i < j < |Summaries(ds, o)|
    ensures a <= b < |GroupBy(ds, GroupKey)|
    ensures KeyOf(Summaries(ds, o)[i]) == GroupBy(ds, GroupKey)[a].key && KeyOf(Summaries(ds, o)[j]) == GroupBy(ds, GroupKey)[b].key
  {
    a, b := PartAt(PartsOf(ds, o), i), PartAt(PartsOf(ds, o), j);
    PartsAdvance(PartsOf(ds, o), i, j);
    BucketBehind(ds, o, i);
    BucketBehind(ds, o, j);
  }

  lemma BucketBehind(ds: seq<Diff>, o: Options, i: nat)
    requires i < |Summaries(ds, o)|
    ensures KeyOf(Summaries(ds, o)[i]) == GroupBy(ds, GroupKey)[PartAt(PartsOf(ds, o), i)].key
  {
    var b := PartAt(PartsOf(ds, o), i);
    GroupByIsGrouped(ds, GroupKey);
    PartHolds(PartsOf(ds, o), i);
    KeyOfBucket(ds, o, b, Summaries(ds, o)[i]);
  }

  lemma KeyOfBucket(ds: seq<Diff>, o: Options, b: nat, s: Summary)
    requires b < |GroupBy(ds, GroupKey)| && GroupBy(ds, GroupKey)[b].diffs != []
    requires s in GroupSummaries(GroupBy(ds, GroupKey)[b].diffs, o)
    ensures KeyOf(s) == GroupBy(ds, GroupKey)[b].key
  {
    GroupByIsGrouped(ds, GroupKey);
    var g := GroupBy(ds, GroupKey)[b];
    var k :| 0 <= k < |GroupSummaries(g.diffs, o)| && GroupSummaries(g.diffs, o)[k] == s;
    FindingPath(g.diffs, o, k);
    assert g.diffs[0] in Select(ds, GroupKey, g.key);
  }
}
