/** What packages/core/src/diff.ts reports, said of the two values alone: which differences at which
    paths, and in which order. */
module DiffPaths {
  import opened Optional
  import opened Diff

  /** What stands at the end of a path. */
  function Lookup(v: Json, p: Path): Option<Json>
    decreases |p|
  {
    if p == [] then Some(v)
    else match p[0]
      case Key(k) => if v.Obj? && k in v.fields then Lookup(v.fields[k], p[1..]) else None
      case Index(i) => if v.Arr? && i < |v.elems| then Lookup(v.elems[i], p[1..]) else None
  }

  /** Something of the kind the segment steps into. */
  predicate Container(v: Option<Json>, s: Seg) {
    v.Some? && match s case Key(_) => v.value.Obj? case Index(_) => v.value.Arr?
  }

  /** `v` ends at the path, `w` has the container but nothing there. */
  predicate OnlyIn(v: Json, w: Json, p: Path, value: Json) {
    p != [] && Lookup(v, p) == Some(value) && Lookup(w, p) == None && Container(Lookup(w, p[..|p| - 1]), p[|p| - 1])
  }

  predicate Differs(b: Json, a: Json, d: Diff) {
    match d
    case Change(p, was, now) =>
      && Lookup(b, p) == Some(was) && Lookup(a, p) == Some(now)
      && was != now && !(was.Obj? && now.Obj?) && !(was.Arr? && now.Arr?)
    case Remove(p, was) => OnlyIn(b, a, p, was)
    case Create(p, now) => OnlyIn(a, b, p, now)
  }

  /** An entry is listed exactly if it says how the two values differ at its path: both hold
      something there that is unequal and not two objects or two arrays; or only one does, the other
      having the same kind of container. */
  lemma ListedIffDiffers(b: Json, a: Json, d: Diff)
    requires WellFormed(b) && WellFormed(a)
    ensures d in DiffOf(b, a) <==> Differs(b, a, d)
  {
    ListedIffReported(b, a, d);
    ReportedIffDiffers(b, a, d);
  }

  lemma {:induction false} ReportedIffDiffers(b: Json, a: Json, d: Diff)
    ensures Reports(b, a, d) <==> Differs(b, a, d)
    decreases |d.path|
  {
    if d.path == [] {
    } else {
      var s, p := d.path[0], d.path;
      if HasChild(b, s) && HasChild(a, s) {
        ReportedIffDiffers(ChildOf(b, s), ChildOf(a, s), Tail(d));
        DiffersBelow(b, a, d);
      } else {
        DiffersHere(b, a, d);
      }
    }
  }

  predicate HasChild(v: Json, s: Seg) {
    match s case Key(k) => v.Obj? && k in v.fields case Index(i) => v.Arr? && i < |v.elems|
  }

  function ChildOf(v: Json, s: Seg): Json
    requires HasChild(v, s)
  {
    match s case Key(k) => v.fields[k] case Index(i) => v.elems[i]
  }

  lemma LookupFirst(v: Json, p: Path)
    requires p != []
    ensures Lookup(v, p) == if HasChild(v, p[0]) then Lookup(ChildOf(v, p[0]), p[1..]) else None
    ensures |p| > 1 ==>
              Lookup(v, p[..|p| - 1]) == if HasChild(v, p[0]) then Lookup(ChildOf(v, p[0]), p[1..][..|p| - 2]) else None
    ensures |p| > 1 ==> p[1..][|p| - 2] == p[|p| - 1]
    ensures |p| == 1 ==> p[1..] == [] && p[..0] == []
  {
    if |p| > 1 {
      assert p[..|p| - 1][0] == p[0] && p[..|p| - 1][1..] == p[1..][..|p| - 2];
    }
  }

  lemma DiffersBelow(b: Json, a: Json, d: Diff)
    requires d.path != [] && HasChild(b, d.path[0]) && HasChild(a, d.path[0])
    ensures Differs(b, a, d) <==> Differs(ChildOf(b, d.path[0]), ChildOf(a, d.path[0]), Tail(d))
  {
    LookupFirst(b, d.path);
    LookupFirst(a, d.path);
  }

  lemma DiffersHere(b: Json, a: Json, d: Diff)
    requires d.path != [] && !(HasChild(b, d.path[0]) && HasChild(a, d.path[0]))
    ensures Differs(b, a, d) <==> Reports(b, a, d)
  {
    LookupFirst(b, d.path);
    LookupFirst(a, d.path);
    if |d.path| == 1 { assert d.path == [d.path[0]]; }
  }

  // ---- order ------------------------------------------------------------------------------------

  function IndexIn(ks: seq<string>, k: string): (i: nat)
    ensures i <= |ks| && (k in ks ==> i < |ks| && ks[i] == k)
  {
    if ks == [] || ks[0] == k then 0 else 1 + IndexIn(ks[1..], k)
  }

  /** The turn at which the walk comes to a child: the old keys as they stand, then the new ones;
      positions count up. */
  function TurnOf(b: Json, a: Json, s: Seg): nat {
    match s
    case Index(i) => i
    case Key(k) =>
      if b.Obj? && k in b.fields then IndexIn(b.keys, k)
      else (if b.Obj? then |b.keys| else 0) + (if a.Obj? then IndexIn(a.keys, k) else 0)
  }

  /** The walk comes to `p` before it comes to `q`. */
  predicate Earlier(b: Json, a: Json, p: Path, q: Path)
    decreases |p|
  {
    && p != [] && q != []
    && if p[0] != q[0] then TurnOf(b, a, p[0]) < TurnOf(b, a, q[0])
       else
         && HasChild(b, p[0]) && HasChild(a, p[0])
         && Earlier(ChildOf(b, p[0]), ChildOf(a, p[0]), p[1..], q[1..])
  }

  ghost predicate Ordered(b: Json, a: Json, ds: seq<Diff>) {
    forall i, j :: 0 <= i < j < |ds| ==> Earlier(b, a, ds[i].path, ds[j].path)
  }

  /** The entries come in the order of the walk, at every depth. */
  lemma {:induction false} DiffsAreOrdered(b: Json, a: Json)
    requires WellFormed(b) && WellFormed(a)
    ensures Ordered(b, a, DiffOf(b, a))
    decreases b, 1, 0
  {
    if b.Obj? && a.Obj? {
      KeyDiffsAreOrdered(0, b, a);
      NewKeysAreOrdered(0, b, a);
      assert b.keys[0..] == b.keys && a.keys[0..] == a.keys;
      var gone, added := KeyDiffs(b.keys, b, a), NewKeys(a.keys, b, a);
      forall i, j | 0 <= i < |gone| && 0 <= j < |added| ensures Earlier(b, a, gone[i].path, added[j].path) {
        assert gone[i] in gone && added[j] in added;
        InKeyDiffs(b.keys, b, a, gone[i]);
        InNewKeys(a.keys, b, a, added[j]);
      }
      OrderedAppend(b, a, gone, added);
    } else if b.Arr? && a.Arr? {
      ElemDiffsAreOrdered(0, b, a);
    }
  }

  lemma OrderedAppend(b: Json, a: Json, x: seq<Diff>, y: seq<Diff>)
    requires Ordered(b, a, x) && Ordered(b, a, y)
    requires forall i, j :: 0 <= i < |x| && 0 <= j < |y| ==> Earlier(b, a, x[i].path, y[j].path)
    ensures Ordered(b, a, x + y)
  {
  }

  /** What is found under one child keeps its order. */
  lemma OrderedUnder(b: Json, a: Json, s: Seg, ds: seq<Diff>)
    requires HasChild(b, s) && HasChild(a, s) && Ordered(ChildOf(b, s), ChildOf(a, s), ds)
    ensures Ordered(b, a, Under([s], ds))
  {
    var us := Under([s], ds);
    forall i, j | 0 <= i < j < |us| ensures Earlier(b, a, us[i].path, us[j].path) {
      assert us[i].path[1..] == ds[i].path && us[j].path[1..] == ds[j].path;
    }
  }

  lemma {:induction false} IndexInSuffix(ks: seq<string>, n: nat)
    requires Distinct(ks) && n < |ks|
    ensures IndexIn(ks, ks[n]) == n
  {
    if n == 0 {
    } else {
      assert Distinct(ks[1..]) && ks[0] != ks[n];
      IndexInSuffix(ks[1..], n - 1);
    }
  }

  lemma {:induction false} KeyDiffsAreOrdered(n: nat, b: Json, a: Json)
    requires b.Obj? && a.Obj? && WellFormed(b) && WellFormed(a) && n <= |b.keys|
    ensures Ordered(b, a, KeyDiffs(b.keys[n..], b, a))
    decreases b, 0, |b.keys| - n + 1
  {
    if n == |b.keys| {
    } else {
      var k, rest := b.keys[n], b.keys[n + 1..];
      assert b.keys[n..][0] == k && b.keys[n..][1..] == rest;
      assert k in b.keys;
      var first, later := KeyDiff(k, b, a), KeyDiffs(rest, b, a);
      KeyDiffIsOrdered(k, b, a);
      KeyDiffsAreOrdered(n + 1, b, a);
      forall i, j | 0 <= i < |first| && 0 <= j < |later| ensures Earlier(b, a, first[i].path, later[j].path) {
        assert later[j] in later;
        InKeyDiffs(rest, b, a, later[j]);
        LaterKey(b.keys, n, later[j].path[0].k);
        assert first[i].path[0] == Key(k);
      }
      OrderedAppend(b, a, first, later);
    }
  }

  lemma LaterKey(ks: seq<string>, n: nat, k: string)
    requires Distinct(ks) && n < |ks| && k in ks[n + 1..]
    ensures IndexIn(ks, ks[n]) == n < IndexIn(ks, k) && k != ks[n]
  {
    IndexInSuffix(ks, n);
    var m :| 0 <= m < |ks[n + 1..]| && ks[n + 1..][m] == k;
    assert ks[n + 1 + m] == k;
    IndexInSuffix(ks, n + 1 + m);
  }

  lemma {:induction false} KeyDiffIsOrdered(k: string, b: Json, a: Json)
    requires b.Obj? && a.Obj? && WellFormed(b) && WellFormed(a) && k in b.fields
    ensures Ordered(b, a, KeyDiff(k, b, a))
    ensures forall i :: 0 <= i < |KeyDiff(k, b, a)| ==> KeyDiff(k, b, a)[i].path != [] && KeyDiff(k, b, a)[i].path[0] == Key(k)
    decreases b, 0, 0
  {
    if k in a.fields {
      DiffsAreOrdered(b.fields[k], a.fields[k]);
      OrderedUnder(b, a, Key(k), DiffOf(b.fields[k], a.fields[k]));
    }
  }

  lemma {:induction false} NewKeysAreOrdered(n: nat, b: Json, a: Json)
    requires b.Obj? && a.Obj? && WellFormed(b) && WellFormed(a) && n <= |a.keys|
    ensures Ordered(b, a, NewKeys(a.keys[n..], b, a))
    decreases |a.keys| - n
  {
    if n == |a.keys| {
    } else {
      var k, rest := a.keys[n], a.keys[n + 1..];
      assert a.keys[n..][0] == k && a.keys[n..][1..] == rest;
      NewKeysAreOrdered(n + 1, b, a);
      var later := NewKeys(rest, b, a);
      if k in a.fields && k !in b.fields {
        var first := [Create([Key(k)], a.fields[k])];
        forall j | 0 <= j < |later| ensures Earlier(b, a, first[0].path, later[j].path) {
          assert later[j] in later;
          InNewKeys(rest, b, a, later[j]);
          LaterKey(a.keys, n, later[j].path[0].k);
        }
        OrderedAppend(b, a, first, later);
      } else {
        assert [] + later == later;
      }
    }
  }

  lemma {:induction false} ElemDiffsAreOrdered(i: nat, b: Json, a: Json)
    requires b.Arr? && a.Arr? && WellFormed(b) && WellFormed(a) && i <= MaxLen(b, a)
    ensures Ordered(b, a, ElemDiffs(i, b, a))
    decreases b, 0, MaxLen(b, a) - i + 1
  {
    if i == MaxLen(b, a) {
    } else {
      var first, later := ElemDiff(i, b, a), ElemDiffs(i + 1, b, a);
      ElemDiffIsOrdered(i, b, a);
      ElemDiffsAreOrdered(i + 1, b, a);
      forall x, y | 0 <= x < |first| && 0 <= y < |later| ensures Earlier(b, a, first[x].path, later[y].path) {
        assert later[y] in later;
        InElemDiffs(i + 1, b, a, later[y]);
      }
      OrderedAppend(b, a, first, later);
    }
  }

  lemma {:induction false} ElemDiffIsOrdered(i: nat, b: Json, a: Json)
    requires b.Arr? && a.Arr? && WellFormed(b) && WellFormed(a) && i < MaxLen(b, a)
    ensures Ordered(b, a, ElemDiff(i, b, a))
    ensures forall x :: 0 <= x < |ElemDiff(i, b, a)| ==> ElemDiff(i, b, a)[x].path != [] && ElemDiff(i, b, a)[x].path[0] == Index(i)
    decreases b, 0, 0
  {
    if i < |b.elems| && i < |a.elems| {
      DiffsAreOrdered(b.elems[i], a.elems[i]);
      OrderedUnder(b, a, Index(i), DiffOf(b.elems[i], a.elems[i]));
    }
  }
}
