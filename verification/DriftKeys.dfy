/** Which sets of object keys keep the drift report of packages/core/src/drift.ts unambiguous: an
    exact condition on the keys alone, over all values built from them. */
module DriftKeys {
  import opened Optional
  import opened Diff
  import opened Drift

  /** All object keys of the value are in the set. */
  ghost predicate KeyedIn(v: Json, keys: iset<string>) {
    match v
    case Arr(es) => forall i :: 0 <= i < |es| ==> KeyedIn(es[i], keys)
    case Obj(_, fs) => forall k :: k in fs ==> k in keys && KeyedIn(fs[k], keys)
    case _ => true
  }

  /** A path through objects only, by keys of the set. */
  ghost predicate KeyPath(p: Path, keys: iset<string>) {
    forall i :: 0 <= i < |p| ==> p[i].Key? && p[i].k in keys
  }

  /** Neither path leads through the other. */
  predicate Apart(p: Path, q: Path) {
    !(p <= q) && !(q <= p)
  }

  /** No two paths that part ways are rendered alike, but for renderings that look like an array's. */
  ghost predicate Unambiguous(keys: iset<string>) {
    forall p, q :: KeyPath(p, keys) && KeyPath(q, keys) && Apart(p, q) && Render(p, false) == Render(q, false) ==>
      HasBrackets(Render(p, false))
  }

  /** Every finding without a count, in every report on values over these keys, stands for one diff. */
  ghost predicate UncountedAreSingle(keys: iset<string>) {
    forall raw, validated, o, s ::
      Reported(keys, raw, validated, o, s) && s.finding.sample == None ==> |s.members| == 1
  }

  ghost predicate Reported(keys: iset<string>, raw: Json, validated: Json, o: Options, s: Summary) {
    && WellFormed(raw) && WellFormed(validated) && KeyedIn(raw, keys) && KeyedIn(validated, keys)
    && s in Summaries(DiffOf(raw, validated), o)
  }

  // ---- unambiguous keys hide nothing -------------------------------------------------------

  /** A path that crosses an array shows it, whatever its keys are. */
  lemma {:induction false} IndexShowsBrackets(p: Path)
    requires HasIndex(p)
    ensures HasBrackets(Render(p, false))
  {
    var p', last := p[..|p| - 1], p[|p| - 1];
    var r, s := Render(p', false), Render(p, false);
    if last.Index? {
      assert s[|r|] == '[' && s[|r| + 1] == ']';
    } else {
      var i :| 0 <= i < |p| && p[i].Index?;
      assert p'[i] == p[i];
      IndexShowsBrackets(p');
      var j :| 0 <= j < |r| - 1 && r[j] == '[' && r[j + 1] == ']';
      assert s[j] == '[' && s[j + 1] == ']';
    }
  }

  lemma {:induction false} ReportedKeysAreIn(b: Json, a: Json, d: Diff, keys: iset<string>)
    requires KeyedIn(b, keys) && KeyedIn(a, keys) && Reports(b, a, d)
    ensures forall i :: 0 <= i < |d.path| && d.path[i].Key? ==> d.path[i].k in keys
    decreases b
  {
    if d.path == [] {
    } else {
      match d.path[0]
      case Key(k) =>
        if k in b.fields && k in a.fields { ReportedKeysAreIn(b.fields[k], a.fields[k], Tail(d), keys); }
      case Index(i) =>
        if i < |b.elems| && i < |a.elems| { ReportedKeysAreIn(b.elems[i], a.elems[i], Tail(d), keys); }
      assert forall i :: 1 <= i < |d.path| ==> d.path[i] == Tail(d).path[i - 1];
    }
  }

  lemma UncountedPathIsKeyPath(raw: Json, validated: Json, d: Diff, keys: iset<string>)
    requires WellFormed(raw) && WellFormed(validated) && KeyedIn(raw, keys) && KeyedIn(validated, keys)
    requires d in DiffOf(raw, validated) && !HasBrackets(Render(d.path, false))
    ensures KeyPath(d.path, keys)
  {
    ListedIffReported(raw, validated, d);
    ReportedKeysAreIn(raw, validated, d, keys);
    if HasIndex(d.path) { IndexShowsBrackets(d.path); }
  }

  lemma UnambiguousKeysCount(keys: iset<string>, raw: Json, validated: Json, o: Options, s: Summary)
    requires Unambiguous(keys) && Reported(keys, raw, validated, o, s) && s.finding.sample == None
    ensures |s.members| == 1
  {
    var ds := DiffOf(raw, validated);
    NoDiffRepeats(raw, validated);
    var m, i := GroupOf(ds, o, s);
    UncountedGroup(m, o, i);
    if |m| > 1 {
      var d, e := m[0], m[1];
      assert d in m && e in m;
      UncountedPathIsKeyPath(raw, validated, d, keys);
      UncountedPathIsKeyPath(raw, validated, e, keys);
      ListedPathsAreApart(raw, validated, d, e);
    }
  }

  lemma ListedPathsAreApart(raw: Json, validated: Json, d: Diff, e: Diff)
    requires WellFormed(raw) && WellFormed(validated)
    requires d in DiffOf(raw, validated) && e in DiffOf(raw, validated) && d != e
    ensures Apart(d.path, e.path)
  {
    ListedIffReported(raw, validated, d);
    ListedIffReported(raw, validated, e);
    if d.path <= e.path { ReportedPathsAreApart(raw, validated, d, e); }
    if e.path <= d.path { ReportedPathsAreApart(raw, validated, e, d); }
  }

  // ---- ambiguous keys hide a diff ------------------------------------------------------------

  /** The value that holds `v` at the end of the path, and nothing else. */
  function Nest(p: Path, v: Json): Json
    requires forall i :: 0 <= i < |p| ==> p[i].Key?
  {
    if p == [] then v else Obj([p[0].k], map[p[0].k := Nest(p[1..], v)])
  }

  lemma {:induction false} NestIsProper(p: Path, v: Json, keys: iset<string>)
    requires KeyPath(p, keys) && WellFormed(v) && KeyedIn(v, keys)
    ensures WellFormed(Nest(p, v)) && KeyedIn(Nest(p, v), keys)
  {
    if p == [] {
    } else {
      NestIsProper(p[1..], v, keys);
    }
  }

  lemma {:induction false} NestedDiff(p: Path, b: Json, a: Json)
    requires forall i :: 0 <= i < |p| ==> p[i].Key?
    ensures DiffOf(Nest(p, b), Nest(p, a)) == Under(p, DiffOf(b, a))
  {
    if p == [] {
      UnderNothing(DiffOf(b, a));
    } else {
      var k, x, y := p[0].k, Nest(p, b), Nest(p, a);
      NestedDiff(p[1..], b, a);
      assert [k][1..] == [];
      assert KeyDiffs([], x, y) == [] && NewKeys([], x, y) == [];
      assert DiffOf(x, y) == KeyDiff(k, x, y) == Under([p[0]], Under(p[1..], DiffOf(b, a)));
      assert p == [p[0]] + p[1..];
      UnderTwice([p[0]], p[1..], DiffOf(b, a));
    }
  }

  lemma UnderNothing(ds: seq<Diff>)
    ensures Under([], ds) == ds
  {
    assert forall d: Diff :: [] + d.path == d.path;
  }

  lemma UnderTwice(p: Path, q: Path, ds: seq<Diff>)
    ensures Under(p, Under(q, ds)) == Under(p + q, ds)
  {
    assert forall d: Diff :: p + (q + d.path) == (p + q) + d.path;
  }

  /** Where two paths part: behind what they share, by different steps. */
  lemma {:induction false} Parting(p: Path, q: Path) returns (n: nat)
    requires Apart(p, q)
    ensures n < |p| && n < |q| && p[..n] == q[..n] && p[n] != q[n]
  {
    assert p != [] && q != [];
    if p[0] != q[0] {
      n := 0;
    } else {
      var p', q' := p[1..], q[1..];
      assert p == [p[0]] + p' && q == [p[0]] + q';
      n := Parting(p', q');
      assert p[..n + 1] == [p[0]] + p'[..n] && q[..n + 1] == [p[0]] + q'[..n];
      n := n + 1;
    }
  }

  /** Two leaves at the ends of paths whose first steps differ. */
  function Fork(p: Path, q: Path, v: Json): Json
    requires p != [] && q != [] && forall i :: 0 <= i < |p| ==> p[i].Key?
    requires forall i :: 0 <= i < |q| ==> q[i].Key?
  {
    Obj([p[0].k, q[0].k], map[p[0].k := Nest(p[1..], v), q[0].k := Nest(q[1..], v)])
  }

  const OLD := Leaf(Bool(false))
  const NEW := Leaf(Bool(true))

  lemma ForkedDiff(p: Path, q: Path, keys: iset<string>)
    requires KeyPath(p, keys) && KeyPath(q, keys) && p != [] && q != [] && p[0] != q[0]
    ensures DiffOf(Fork(p, q, OLD), Fork(p, q, NEW)) == [Change(p, OLD, NEW), Change(q, OLD, NEW)]
  {
    var b, a, k, l := Fork(p, q, OLD), Fork(p, q, NEW), p[0].k, q[0].k;
    assert [k, l][1..] == [l] && [l][1..] == [];
    assert KeyDiffs([], b, a) == [] && NewKeys([], b, a) == [] && NewKeys([l], b, a) == [];
    ForkArm(p, b, a);
    ForkArm(q, b, a);
    assert KeyDiffs([l], b, a) == [Change(q, OLD, NEW)];
  }

  lemma ForkArm(p: Path, b: Json, a: Json)
    requires p != [] && (forall i :: 0 <= i < |p| ==> p[i].Key?) && b.Obj? && a.Obj?
    requires p[0].k in b.fields && b.fields[p[0].k] == Nest(p[1..], OLD)
    requires p[0].k in a.fields && a.fields[p[0].k] == Nest(p[1..], NEW)
    ensures KeyDiff(p[0].k, b, a) == [Change(p, OLD, NEW)]
  {
    NestedDiff(p[1..], OLD, NEW);
    assert DiffOf(OLD, NEW) == [Change([], OLD, NEW)];
    UnderTwice([p[0]], p[1..], DiffOf(OLD, NEW));
    assert [p[0]] + p[1..] == p;
    ChangeUnder(p, OLD, NEW);
  }

  /** From two paths that are rendered alike, a report that shows one of two changes. */
  lemma AmbiguousKeysHide(keys: iset<string>, p: Path, q: Path) returns (raw: Json, validated: Json, o: Options, s: Summary)
    requires KeyPath(p, keys) && KeyPath(q, keys) && Apart(p, q)
    requires Render(p, false) == Render(q, false) && !HasBrackets(Render(p, false))
    ensures Reported(keys, raw, validated, o, s)
    ensures s.finding.sample == None && s.members == [Change(p, OLD, NEW), Change(q, OLD, NEW)]
  {
    var n := Parting(p, q);
    raw, validated, o := Nest(p[..n], Fork(p[n..], q[n..], OLD)), Nest(p[..n], Fork(p[n..], q[n..], NEW)), Options(_ => false, Unset);
    assert p == p[..n] + p[n..] && q == p[..n] + q[n..];
    NestedForkIsProper(p[..n], p[n..], q[n..], OLD, keys);
    NestedForkIsProper(p[..n], p[n..], q[n..], NEW, keys);
    NestedForkDiff(p[..n], p[n..], q[n..], keys);
    s := OneUncounted(Change(p, OLD, NEW), Change(q, OLD, NEW), o);
  }

  lemma NestedForkDiff(r: Path, p: Path, q: Path, keys: iset<string>)
    requires KeyPath(r, keys) && KeyPath(p, keys) && KeyPath(q, keys) && p != [] && q != [] && p[0] != q[0]
    ensures DiffOf(Nest(r, Fork(p, q, OLD)), Nest(r, Fork(p, q, NEW))) == [Change(r + p, OLD, NEW), Change(r + q, OLD, NEW)]
  {
    NestedDiff(r, Fork(p, q, OLD), Fork(p, q, NEW));
    ForkedDiff(p, q, keys);
    var ds := [Change(p, OLD, NEW), Change(q, OLD, NEW)];
    assert Under(r, ds) == [At(r, ds[0]), At(r, ds[1])];
  }

  lemma NestedForkIsProper(r: Path, p: Path, q: Path, v: Json, keys: iset<string>)
    requires KeyPath(r, keys) && KeyPath(p, keys) && KeyPath(q, keys) && p != [] && q != [] && p[0] != q[0]
    requires v == OLD || v == NEW
    ensures WellFormed(Nest(r, Fork(p, q, v))) && KeyedIn(Nest(r, Fork(p, q, v)), keys)
  {
    ForkIsProper(p, q, v, keys);
    NestIsProper(r, Fork(p, q, v), keys);
  }

  lemma ForkIsProper(p: Path, q: Path, v: Json, keys: iset<string>)
    requires KeyPath(p, keys) && KeyPath(q, keys) && p != [] && q != [] && p[0] != q[0]
    requires v == OLD || v == NEW
    ensures WellFormed(Fork(p, q, v)) && KeyedIn(Fork(p, q, v), keys)
  {
    NestIsProper(p[1..], v, keys);
    NestIsProper(q[1..], v, keys);
  }

  lemma OneUncounted(d: Diff, e: Diff, o: Options) returns (s: Summary)
    requires d.Change? && e.Change? && Render(d.path, false) == Render(e.path, false) && !HasBrackets(Render(d.path, false))
    requires Survives(d, o)
    ensures s in Summaries([d, e], o) && s.finding.sample == None && s.members == [d, e]
  {
    GroupKeyInjective(d, e);
    OneBucketOfTwo(d, e);
    OneGroupReport([d, e], Bucket(GroupKey(d), [d, e]), o);
    s := GroupSummaries([d, e], o)[0];
  }

  /** The exact condition on a set of keys: no two paths over it that part ways may be rendered alike. */
  lemma UncountedAreSingleIff(keys: iset<string>)
    ensures UncountedAreSingle(keys) <==> Unambiguous(keys)
  {
    if Unambiguous(keys) {
      forall raw, validated, o, s | Reported(keys, raw, validated, o, s) && s.finding.sample == None ensures |s.members| == 1 {
        UnambiguousKeysCount(keys, raw, validated, o, s);
      }
    } else {
      var p, q :| KeyPath(p, keys) && KeyPath(q, keys) && Apart(p, q) && Render(p, false) == Render(q, false)
                  && !HasBrackets(Render(p, false));
      var raw, validated, o, s := AmbiguousKeysHide(keys, p, q);
      assert |s.members| == 2;
    }
  }

  /** Clean keys meet it. */
  lemma CleanKeysAreUnambiguous()
    ensures Unambiguous(iset k | CleanKey(k))
  {
    var keys := iset k | CleanKey(k);
    forall p, q | KeyPath(p, keys) && KeyPath(q, keys) ensures Render(p, false) == Render(q, false) ==> p == q {
      RenderInjective(p, q, false);
      assert Erase(p, false) == p && Erase(q, false) == q;
    }
  }
}
