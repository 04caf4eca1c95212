/** The structural diff of packages/core/src/diff.ts: `walk` pushing onto a shared list,
    and the proof that the list is a correct, minimal, reversible patch. */
module Diff {
  import opened Optional
  import opened Text

  /** Everything `kindOf` calls a primitive. `Object.is` is equality on this type. */
  datatype Prim =
    | Undefined | Bool(b: bool) | Num(n: int) | NegZero | NaN
    | Str(s: string) | BigInt(n: int) | Func(id: nat) | Symbol(id: nat)

  /** A value as `diff` sees it; `keys` is `Object.keys`, in enumeration order. */
  datatype Json =
    | Null
    | Leaf(p: Prim)
    | Arr(elems: seq<Json>)
    | Obj(keys: seq<string>, fields: map<string, Json>)

  predicate Distinct<T(==)>(s: seq<T>) {
    forall i, j :: 0 <= i < j < |s| ==> s[i] != s[j]
  }

  ghost predicate WellFormed(v: Json) {
    match v
    case Null => true
    case Leaf(_) => true
    case Arr(es) => forall i :: 0 <= i < |es| ==> WellFormed(es[i])
    case Obj(ks, fs) =>
      && Distinct(ks)
      && (forall k :: k in ks <==> k in fs)
      && (forall k :: k in fs ==> WellFormed(fs[k]))
  }

  /** The same value with key order forgotten: what two trees must share to be equal. */
  datatype Tree = TNull | TLeaf(p: Prim) | TArr(elems: seq<Tree>) | TObj(fields: map<string, Tree>)

  function Shape(v: Json): Tree {
    match v
    case Null => TNull
    case Leaf(p) => TLeaf(p)
    case Arr(es) => TArr(seq(|es|, i requires 0 <= i < |es| => Shape(es[i])))
    case Obj(_, fs) => TObj(map k | k in fs :: Shape(fs[k]))
  }

  datatype Seg = Key(k: string) | Index(i: nat)
  type Path = seq<Seg>

  datatype Diff =
    | Create(path: Path, value: Json)
    | Remove(path: Path, oldValue: Json)
    | Change(path: Path, oldValue: Json, value: Json)

  function At(p: Path, d: Diff): Diff {
    d.(path := p + d.path)
  }

  function Under(p: Path, ds: seq<Diff>): (r: seq<Diff>)
    ensures |r| == |ds| && forall i :: 0 <= i < |ds| ==> r[i] == At(p, ds[i])
  {
    seq(|ds|, i requires 0 <= i < |ds| => At(p, ds[i]))
  }

  // ---- the list `walk` emits, paths relative to the node --------------------

  /** Two values `walk` reports as one change: unequal primitives or unlike kinds. */
  predicate Clash(b: Json, a: Json) {
    match (b, a)
    case (Obj(_, _), Obj(_, _)) => false
    case (Arr(_), Arr(_)) => false
    case (Leaf(p), Leaf(q)) => p != q
    case (Null, Null) => false
    case _ => true
  }

  function DiffOf(b: Json, a: Json): seq<Diff>
    decreases b, 1, 0
  {
    if b.Obj? && a.Obj? then KeyDiffs(b.keys, b, a) + NewKeys(a.keys, b, a)
    else if b.Arr? && a.Arr? then ElemDiffs(0, b, a)
    else if Clash(b, a) then [Change([], b, a)]
    else []
  }

  function KeyDiff(k: string, b: Json, a: Json): seq<Diff>
    requires b.Obj? && a.Obj?
    decreases b, 0, 0
  {
    if k !in b.fields then []
    else if k !in a.fields then [Remove([Key(k)], b.fields[k])]
    else Under([Key(k)], DiffOf(b.fields[k], a.fields[k]))
  }

  function KeyDiffs(ks: seq<string>, b: Json, a: Json): seq<Diff>
    requires b.Obj? && a.Obj?
    decreases b, 0, |ks| + 1
  {
    if ks == [] then [] else KeyDiff(ks[0], b, a) + KeyDiffs(ks[1..], b, a)
  }

  function NewKeys(ks: seq<string>, b: Json, a: Json): seq<Diff>
    requires b.Obj? && a.Obj?
  {
    if ks == [] then []
    else (if ks[0] in a.fields && ks[0] !in b.fields then [Create([Key(ks[0])], a.fields[ks[0]])] else [])
         + NewKeys(ks[1..], b, a)
  }

  function ElemDiff(i: nat, b: Json, a: Json): seq<Diff>
    requires b.Arr? && a.Arr?
    requires i < |b.elems| || i < |a.elems|
    decreases b, 0, 0
  {
    if i >= |b.elems| then [Create([Index(i)], a.elems[i])]
    else if i >= |a.elems| then [Remove([Index(i)], b.elems[i])]
    else Under([Index(i)], DiffOf(b.elems[i], a.elems[i]))
  }

  function MaxLen(b: Json, a: Json): nat
    requires b.Arr? && a.Arr?
  {
    if |b.elems| > |a.elems| then |b.elems| else |a.elems|
  }

  function ElemDiffs(i: nat, b: Json, a: Json): seq<Diff>
    requires b.Arr? && a.Arr?
    requires i <= MaxLen(b, a)
    decreases b, 0, MaxLen(b, a) - i + 1
  {
    if i == MaxLen(b, a) then [] else ElemDiff(i, b, a) + ElemDiffs(i + 1, b, a)
  }

  // ---- `walk` itself -------------------------------------------------------

  /** The `out` array every recursive call pushes onto. */
  class Out {
    var items: seq<Diff>

    constructor ()
      ensures items == []
    {
      items := [];
    }

    method Push(d: Diff)
      modifies this
      ensures items == old(items) + [d]
    {
      items := items + [d];
    }
  }

  method Walk(before: Json, after: Json, path: Path, out: Out)
    requires WellFormed(before) && WellFormed(after)
    modifies out
    ensures out.items == old(out.items) + Under(path, DiffOf(before, after))
    decreases before, 1
  {
    if before.Obj? && after.Obj? {
      ghost var was := out.items;
      WalkKeys(before, after, path, out);
      WalkNewKeys(before, after, path, out);
      UnderAppend(path, KeyDiffs(before.keys, before, after), NewKeys(after.keys, before, after));
      Assoc(was, Under(path, KeyDiffs(before.keys, before, after)), Under(path, NewKeys(after.keys, before, after)));
      return;
    }
    if before.Arr? && after.Arr? {
      WalkElems(before, after, path, out);
      return;
    }
    ChangeUnder(path, before, after);
    if before.Leaf? && after.Leaf? {
      if before.p != after.p {
        out.Push(Change(path, before, after));
      }
      return;
    }
    if before.Null? && after.Null? {
      return;
    }
    out.Push(Change(path, before, after));
  }

  lemma ChangeUnder(path: Path, b: Json, a: Json)
    ensures Under(path, []) == [] && Under(path, [Change([], b, a)]) == [Change(path, b, a)]
  {
    assert path + [] == path;
  }

  /** The loop over the keys of `before`. */
  method WalkKeys(before: Json, after: Json, path: Path, out: Out)
    requires before.Obj? && after.Obj? && WellFormed(before) && WellFormed(after)
    modifies out
    ensures out.items == old(out.items) + Under(path, KeyDiffs(before.keys, before, after))
    decreases before, 0, 1
  {
    var bKeys := before.keys;
    ghost var target := out.items + Under(path, KeyDiffs(bKeys, before, after));
    for n := 0 to |bKeys|
      invariant out.items + Under(path, KeyDiffs(bKeys[n..], before, after)) == target
    {
      ghost var was := out.items;
      WalkKey(bKeys[n], before, after, path, out);
      KeyStep(path, bKeys, n, before, after);
      Assoc(was, Under(path, KeyDiff(bKeys[n], before, after)), Under(path, KeyDiffs(bKeys[n + 1..], before, after)));
    }
  }

  /** One key of `before`. */
  method WalkKey(key: string, before: Json, after: Json, path: Path, out: Out)
    requires before.Obj? && after.Obj? && WellFormed(before) && WellFormed(after) && key in before.fields
    modifies out
    ensures out.items == old(out.items) + Under(path, KeyDiff(key, before, after))
    decreases before, 0, 0
  {
    var nextPath := path + [Key(key)];
    if key !in after.fields {
      out.Push(Remove(nextPath, before.fields[key]));
    } else {
      Walk(before.fields[key], after.fields[key], nextPath, out);
      UnderUnder(path, Key(key), DiffOf(before.fields[key], after.fields[key]));
    }
  }

  /** The loop over the keys of `after` that `before` lacks. */
  method WalkNewKeys(before: Json, after: Json, path: Path, out: Out)
    requires before.Obj? && after.Obj? && WellFormed(before) && WellFormed(after)
    modifies out
    ensures out.items == old(out.items) + Under(path, NewKeys(after.keys, before, after))
  {
    var aKeys := after.keys;
    ghost var target := out.items + Under(path, NewKeys(aKeys, before, after));
    for n := 0 to |aKeys|
      invariant out.items + Under(path, NewKeys(aKeys[n..], before, after)) == target
    {
      var key := aKeys[n];
      NewKeyStep(path, aKeys, n, before, after);
      if key !in before.fields {
        var d := Create(path + [Key(key)], after.fields[key]);
        Assoc(out.items, [d], Under(path, NewKeys(aKeys[n + 1..], before, after)));
        out.Push(d);
      }
    }
  }

  /** The loop over array positions. */
  method WalkElems(before: Json, after: Json, path: Path, out: Out)
    requires before.Arr? && after.Arr? && WellFormed(before) && WellFormed(after)
    modifies out
    ensures out.items == old(out.items) + Under(path, ElemDiffs(0, before, after))
    decreases before, 0, 1
  {
    var maxLen := MaxLen(before, after);
    ghost var target := out.items + Under(path, ElemDiffs(0, before, after));
    for i := 0 to maxLen
      invariant out.items + Under(path, ElemDiffs(i, before, after)) == target
    {
      ghost var was := out.items;
      WalkElem(i, before, after, path, out);
      ElemStep(path, i, before, after);
      Assoc(was, Under(path, ElemDiff(i, before, after)), Under(path, ElemDiffs(i + 1, before, after)));
    }
  }

  /** One array position. */
  method WalkElem(i: nat, before: Json, after: Json, path: Path, out: Out)
    requires before.Arr? && after.Arr? && WellFormed(before) && WellFormed(after) && i < MaxLen(before, after)
    modifies out
    ensures out.items == old(out.items) + Under(path, ElemDiff(i, before, after))
    decreases before, 0, 0
  {
    var bArr, aArr := before.elems, after.elems;
    var nextPath := path + [Index(i)];
    if i >= |bArr| {
      out.Push(Create(nextPath, aArr[i]));
    } else if i >= |aArr| {
      out.Push(Remove(nextPath, bArr[i]));
    } else {
      Walk(bArr[i], aArr[i], nextPath, out);
      UnderUnder(path, Index(i), DiffOf(bArr[i], aArr[i]));
    }
  }

  method Compare(before: Json, after: Json) returns (ds: seq<Diff>)
    requires WellFormed(before) && WellFormed(after)
    ensures ds == DiffOf(before, after)
    ensures Patch(Shape(before), ds) == Some(Shape(after))
  {
    var out := new Out();
    Walk(before, after, [], out);
    ds := out.items;
    assert forall d: Diff :: At([], d) == d;
    assert ds == DiffOf(before, after);
    DiffIsAPatch(before, after);
  }

  // One turn of each loop of `walk`.

  lemma KeyStep(path: Path, ks: seq<string>, n: nat, b: Json, a: Json)
    requires b.Obj? && a.Obj? && n < |ks|
    ensures Under(path, KeyDiffs(ks[n..], b, a))
         == Under(path, KeyDiff(ks[n], b, a)) + Under(path, KeyDiffs(ks[n + 1..], b, a))
  {
    assert ks[n..][1..] == ks[n + 1..];
    UnderAppend(path, KeyDiff(ks[n], b, a), KeyDiffs(ks[n + 1..], b, a));
  }

  lemma NewKeyStep(path: Path, ks: seq<string>, n: nat, b: Json, a: Json)
    requires b.Obj? && a.Obj? && n < |ks| && ks[n] in a.fields
    ensures ks[n] !in b.fields ==>
              Under(path, NewKeys(ks[n..], b, a))
              == [Create(path + [Key(ks[n])], a.fields[ks[n]])] + Under(path, NewKeys(ks[n + 1..], b, a))
    ensures ks[n] in b.fields ==> NewKeys(ks[n..], b, a) == NewKeys(ks[n + 1..], b, a)
  {
    var k := ks[n];
    assert ks[n..][1..] == ks[n + 1..];
    if k !in b.fields {
      UnderAppend(path, [Create([Key(k)], a.fields[k])], NewKeys(ks[n + 1..], b, a));
    }
  }

  lemma ElemStep(path: Path, i: nat, b: Json, a: Json)
    requires b.Arr? && a.Arr? && i < MaxLen(b, a)
    ensures Under(path, ElemDiffs(i, b, a)) == Under(path, ElemDiff(i, b, a)) + Under(path, ElemDiffs(i + 1, b, a))
  {
    UnderAppend(path, ElemDiff(i, b, a), ElemDiffs(i + 1, b, a));
  }

  lemma UnderAppend(p: Path, x: seq<Diff>, y: seq<Diff>)
    ensures Under(p, x + y) == Under(p, x) + Under(p, y)
  {
  }

  lemma UnderUnder(p: Path, s: Seg, ds: seq<Diff>)
    ensures Under(p, Under([s], ds)) == Under(p + [s], ds)
  {
    assert forall d: Diff :: p + ([s] + d.path) == (p + [s]) + d.path;
  }

  // ---- which diffs are reported --------------------------------------------

  /** `d` with the first path segment taken off. */
  function Tail(d: Diff): Diff
    requires d.path != []
  {
    d.(path := d.path[1..])
  }

  /** A declarative reading of the diff, with no list and no order in it. */
  ghost predicate Reports(b: Json, a: Json, d: Diff)
    decreases b
  {
    if d.path == [] then
      Clash(b, a) && d == Change([], b, a)
    else if b.Obj? && a.Obj? && d.path[0].Key? then
      var k := d.path[0].k;
      || (k in b.fields && k in a.fields && Reports(b.fields[k], a.fields[k], Tail(d)))
      || (k in b.fields && k !in a.fields && d == Remove([Key(k)], b.fields[k]))
      || (k !in b.fields && k in a.fields && d == Create([Key(k)], a.fields[k]))
    else if b.Arr? && a.Arr? && d.path[0].Index? then
      var i := d.path[0].i;
      || (i < |b.elems| && i < |a.elems| && Reports(b.elems[i], a.elems[i], Tail(d)))
      || (|a.elems| <= i < |b.elems| && d == Remove([Index(i)], b.elems[i]))
      || (|b.elems| <= i < |a.elems| && d == Create([Index(i)], a.elems[i]))
    else false
  }

  lemma InUnder(s: Seg, ds: seq<Diff>, d: Diff)
    ensures d in Under([s], ds) <==> d.path != [] && d.path[0] == s && Tail(d) in ds
  {
    if d in Under([s], ds) {
      var i :| 0 <= i < |ds| && Under([s], ds)[i] == d;
      assert Tail(d) == ds[i];
    }
    if d.path != [] && d.path[0] == s && Tail(d) in ds {
      var i :| 0 <= i < |ds| && ds[i] == Tail(d);
      assert Under([s], ds)[i] == d by { assert [s] + d.path[1..] == d.path; }
    }
  }

  /** The list holds exactly the reported differences. */
  lemma {:induction false} ListedIffReported(b: Json, a: Json, d: Diff)
    requires WellFormed(b) && WellFormed(a)
    ensures d in DiffOf(b, a) <==> Reports(b, a, d)
    decreases b
  {
    if b.Obj? && a.Obj? {
      InKeyDiffs(b.keys, b, a, d);
      InNewKeys(a.keys, b, a, d);
      if d.path != [] && d.path[0].Key? {
        var k := d.path[0].k;
        if k in b.fields && k in a.fields {
          InUnder(Key(k), DiffOf(b.fields[k], a.fields[k]), d);
          ListedIffReported(b.fields[k], a.fields[k], Tail(d));
        }
      }
    } else if b.Arr? && a.Arr? {
      InElemDiffs(0, b, a, d);
      if d.path != [] && d.path[0].Index? && d.path[0].i < |b.elems| && d.path[0].i < |a.elems| {
        var i := d.path[0].i;
        InUnder(Index(i), DiffOf(b.elems[i], a.elems[i]), d);
        ListedIffReported(b.elems[i], a.elems[i], Tail(d));
      }
    }
  }

  lemma {:induction false} InKeyDiffs(ks: seq<string>, b: Json, a: Json, d: Diff)
    requires b.Obj? && a.Obj?
    ensures d in KeyDiffs(ks, b, a)
       <==> d.path != [] && d.path[0].Key? && d.path[0].k in ks && d in KeyDiff(d.path[0].k, b, a)
  {
    if ks == [] {
    } else {
      InKeyDiffs(ks[1..], b, a, d);
      var k := ks[0];
      if k in b.fields && k in a.fields { InUnder(Key(k), DiffOf(b.fields[k], a.fields[k]), d); }
    }
  }

  lemma {:induction false} InNewKeys(ks: seq<string>, b: Json, a: Json, d: Diff)
    requires b.Obj? && a.Obj?
    ensures d in NewKeys(ks, b, a)
       <==> exists k :: k in ks && k in a.fields && k !in b.fields && d == Create([Key(k)], a.fields[k])
  {
    if ks == [] {
    } else {
      InNewKeys(ks[1..], b, a, d);
    }
  }

  lemma {:induction false} InElemDiffs(i: nat, b: Json, a: Json, d: Diff)
    requires b.Arr? && a.Arr? && i <= MaxLen(b, a)
    ensures d in ElemDiffs(i, b, a)
       <==> d.path != [] && d.path[0].Index? && i <= d.path[0].i < MaxLen(b, a)
            && d in ElemDiff(d.path[0].i, b, a)
    decreases MaxLen(b, a) - i
  {
    if i < MaxLen(b, a) {
      InElemDiffs(i + 1, b, a, d);
      if i < |b.elems| && i < |a.elems| { InUnder(Index(i), DiffOf(b.elems[i], a.elems[i]), d); }
    }
  }

  // ---- no path is reported twice, nor inside another -------------------------

  lemma {:induction false} ReportedPathsAreApart(b: Json, a: Json, d: Diff, e: Diff)
    requires Reports(b, a, d) && Reports(b, a, e) && d.path <= e.path
    ensures d == e
    decreases b
  {
    if d.path == [] {
    } else {
      assert e.path[0] == d.path[0];
      assert d.path[1..] <= e.path[1..];
      if d.path[0].Key? && b.Obj? && a.Obj? {
        var k := d.path[0].k;
        if k in b.fields && k in a.fields {
          ReportedPathsAreApart(b.fields[k], a.fields[k], Tail(d), Tail(e));
          assert [d.path[0]] + d.path[1..] == d.path && [d.path[0]] + e.path[1..] == e.path;
          assert d == At([d.path[0]], Tail(d)) && e == At([d.path[0]], Tail(e));
        }
      } else {
        var i := d.path[0].i;
        if i < |b.elems| && i < |a.elems| {
          ReportedPathsAreApart(b.elems[i], a.elems[i], Tail(d), Tail(e));
          assert [d.path[0]] + d.path[1..] == d.path && [d.path[0]] + e.path[1..] == e.path;
          assert d == At([d.path[0]], Tail(d)) && e == At([d.path[0]], Tail(e));
        }
      }
    }
  }

  ghost predicate PrefixFree(ds: seq<Diff>) {
    forall i, j :: 0 <= i < |ds| && 0 <= j < |ds| && ds[i].path <= ds[j].path ==> i == j
  }

  /** Emitted paths are pairwise distinct and none is a prefix of another. */
  lemma PathsArePrefixFree(b: Json, a: Json)
    requires WellFormed(b) && WellFormed(a)
    ensures PrefixFree(DiffOf(b, a))
  {
    var ds := DiffOf(b, a);
    NoDiffRepeats(b, a);
    forall i, j | 0 <= i < |ds| && 0 <= j < |ds| && ds[i].path <= ds[j].path ensures i == j {
      ListedIffReported(b, a, ds[i]);
      ListedIffReported(b, a, ds[j]);
      ReportedPathsAreApart(b, a, ds[i], ds[j]);
    }
  }

  lemma {:induction false} NoDiffRepeats(b: Json, a: Json)
    requires WellFormed(b) && WellFormed(a)
    ensures Distinct(DiffOf(b, a))
    decreases b, 1, 0
  {
    if b.Obj? && a.Obj? {
      NoKeyRepeats(b.keys, b, a);
      NoNewKeyRepeats(a.keys, b, a);
      var x, y := KeyDiffs(b.keys, b, a), NewKeys(a.keys, b, a);
      forall d | d in x && d in y ensures false {
        InKeyDiffs(b.keys, b, a, d);
        InNewKeys(a.keys, b, a, d);
      }
      DistinctAppend(x, y);
    } else if b.Arr? && a.Arr? {
      NoElemRepeats(0, b, a);
    }
  }

  lemma DistinctAppend<T>(x: seq<T>, y: seq<T>)
    requires Distinct(x) && Distinct(y) && forall e :: e in x ==> e !in y
    ensures Distinct(x + y)
  {
    forall i, j | 0 <= i < j < |x + y| ensures (x + y)[i] != (x + y)[j] {
      if i < |x| <= j { assert (x + y)[i] in x && (x + y)[j] in y; }
    }
  }

  lemma DistinctUnder(s: Seg, ds: seq<Diff>)
    requires Distinct(ds)
    ensures Distinct(Under([s], ds))
  {
    var u := Under([s], ds);
    assert forall i :: 0 <= i < |u| ==> u[i].path[1..] == ds[i].path && Tail(u[i]) == ds[i];
  }

  lemma {:induction false} NoKeyRepeats(ks: seq<string>, b: Json, a: Json)
    requires b.Obj? && a.Obj? && WellFormed(b) && WellFormed(a) && Distinct(ks)
    ensures Distinct(KeyDiffs(ks, b, a))
    decreases b, 0, |ks|
  {
    if ks == [] {
    } else {
      var k := ks[0];
      NoKeyRepeats(ks[1..], b, a);
      if k in b.fields && k in a.fields {
        NoDiffRepeats(b.fields[k], a.fields[k]);
        DistinctUnder(Key(k), DiffOf(b.fields[k], a.fields[k]));
      }
      forall d | d in KeyDiff(k, b, a) ensures d !in KeyDiffs(ks[1..], b, a) {
        InKeyDiffs(ks[1..], b, a, d);
        assert d.path[0] == Key(k);
      }
      DistinctAppend(KeyDiff(k, b, a), KeyDiffs(ks[1..], b, a));
    }
  }

  lemma {:induction false} NoNewKeyRepeats(ks: seq<string>, b: Json, a: Json)
    requires b.Obj? && a.Obj? && Distinct(ks)
    ensures Distinct(NewKeys(ks, b, a))
  {
    if ks == [] {
    } else {
      NoNewKeyRepeats(ks[1..], b, a);
      if ks[0] in a.fields {
        InNewKeys(ks[1..], b, a, Create([Key(ks[0])], a.fields[ks[0]]));
      }
    }
  }

  lemma {:induction false} NoElemRepeats(i: nat, b: Json, a: Json)
    requires b.Arr? && a.Arr? && WellFormed(b) && WellFormed(a) && i <= MaxLen(b, a)
    ensures Distinct(ElemDiffs(i, b, a))
    decreases b, 0, MaxLen(b, a) - i
  {
    if i < MaxLen(b, a) {
      NoElemRepeats(i + 1, b, a);
      if i < |b.elems| && i < |a.elems| {
        NoDiffRepeats(b.elems[i], a.elems[i]);
        DistinctUnder(Index(i), DiffOf(b.elems[i], a.elems[i]));
      }
      forall d | d in ElemDiff(i, b, a) ensures d !in ElemDiffs(i + 1, b, a) {
        InElemDiffs(i + 1, b, a, d);
        assert d.path[0] == Index(i);
      }
      DistinctAppend(ElemDiff(i, b, a), ElemDiffs(i + 1, b, a));
    }
  }

  // ---- the two directions mirror each other ----------------------------------

  function Mirror(d: Diff): Diff {
    match d
    case Create(p, v) => Remove(p, v)
    case Remove(p, v) => Create(p, v)
    case Change(p, o, v) => Change(p, v, o)
  }

  function MirrorAll(ds: seq<Diff>): seq<Diff> {
    seq(|ds|, i requires 0 <= i < |ds| => Mirror(ds[i]))
  }

  lemma {:induction false} MirrorReported(b: Json, a: Json, d: Diff)
    requires Reports(b, a, d)
    ensures Reports(a, b, Mirror(d))
    decreases b
  {
    if d.path == [] {
    } else {
      assert Tail(Mirror(d)) == Mirror(Tail(d));
      if d.path[0].Key? {
        var k := d.path[0].k;
        if k in b.fields && k in a.fields { MirrorReported(b.fields[k], a.fields[k], Tail(d)); }
      } else {
        var i := d.path[0].i;
        if i < |b.elems| && i < |a.elems| { MirrorReported(b.elems[i], a.elems[i], Tail(d)); }
      }
    }
  }

  lemma {:induction false} SameElements<T>(x: seq<T>, y: seq<T>)
    requires Distinct(x) && Distinct(y)
    requires forall e :: e in x <==> e in y
    ensures multiset(x) == multiset(y)
  {
    forall e ensures multiset(x)[e] == multiset(y)[e] {
      DistinctCount(x, e);
      DistinctCount(y, e);
    }
  }

  lemma {:induction false} DistinctCount<T>(x: seq<T>, e: T)
    requires Distinct(x)
    ensures multiset(x)[e] == if e in x then 1 else 0
  {
    if x == [] {
    } else {
      DistinctCount(x[1..], e);
      assert x == [x[0]] + x[1..];
    }
  }

  /** `diff(b, a)` is `diff(a, b)` with create/remove and old/new swapped. */
  lemma DiffMirrors(b: Json, a: Json)
    requires WellFormed(b) && WellFormed(a)
    ensures multiset(DiffOf(a, b)) == multiset(MirrorAll(DiffOf(b, a)))
  {
    var x, y := DiffOf(b, a), DiffOf(a, b);
    var m := MirrorAll(x);
    NoDiffRepeats(b, a);
    NoDiffRepeats(a, b);
    forall i, j | 0 <= i < j < |m| ensures m[i] != m[j] {
      MirrorTwice(x[i]);
      MirrorTwice(x[j]);
    }
    forall d ensures d in y <==> d in m { MirroredListed(b, a, d); }
    SameElements(y, m);
  }

  lemma MirrorTwice(d: Diff)
    ensures Mirror(Mirror(d)) == d
  {
  }

  lemma InMirror(x: seq<Diff>, d: Diff)
    ensures d in MirrorAll(x) <==> Mirror(d) in x
  {
    MirrorTwice(d);
    if d in MirrorAll(x) {
      var i :| 0 <= i < |x| && MirrorAll(x)[i] == d;
      MirrorTwice(x[i]);
    }
    if Mirror(d) in x {
      var i :| 0 <= i < |x| && x[i] == Mirror(d);
      assert MirrorAll(x)[i] == d;
    }
  }

  lemma MirroredListed(b: Json, a: Json, d: Diff)
    requires WellFormed(b) && WellFormed(a)
    ensures d in DiffOf(a, b) <==> d in MirrorAll(DiffOf(b, a))
  {
    ListedIffReported(a, b, d);
    ListedIffReported(b, a, Mirror(d));
    InMirror(DiffOf(b, a), d);
    MirrorTwice(d);
    if Reports(a, b, d) { MirrorReported(a, b, d); }
    if Reports(b, a, Mirror(d)) { MirrorReported(b, a, Mirror(d)); }
  }

  // ---- replaying the list ----------------------------------------------------

  /** One entry applied to a tree. It is refused (`None`) when the tree does not hold what
      the entry says it replaces; an array loses the element at the index, later ones close up. */
  function Apply(t: Tree, d: Diff): Option<Tree>
    decreases |d.path|
  {
    if d.path == [] then
      if d.Change? && Shape(d.oldValue) == t then Some(Shape(d.value)) else None
    else
      match (t, d.path[0])
      case (TObj(fs), Key(k)) =>
        if |d.path| == 1 && d.Create? then
          if k in fs then None else Some(TObj(fs[k := Shape(d.value)]))
        else if k !in fs then None
        else if |d.path| == 1 && d.Remove? then
          if fs[k] == Shape(d.oldValue) then Some(TObj(fs - {k})) else None
        else (match Apply(fs[k], Tail(d)) case None => None case Some(c) => Some(TObj(fs[k := c])))
      case (TArr(es), Index(i)) =>
        if |d.path| == 1 && d.Create? then
          if i != |es| then None else Some(TArr(es + [Shape(d.value)]))
        else if i >= |es| then None
        else if |d.path| == 1 && d.Remove? then
          if es[i] == Shape(d.oldValue) then Some(TArr(es[..i] + es[i + 1..])) else None
        else (match Apply(es[i], Tail(d)) case None => None case Some(c) => Some(TArr(es[i := c])))
      case _ => None
  }

  /** Removals, last entry first (indices name positions in the tree before any removal). */
  function Cut(t: Tree, ds: seq<Diff>): Option<Tree> {
    if ds == [] then Some(t)
    else match Cut(t, ds[1..])
      case None => None
      case Some(u) => if ds[0].Remove? then Apply(u, ds[0]) else Some(u)
  }

  /** Creations and changes, first entry first. */
  function Fill(t: Tree, ds: seq<Diff>): Option<Tree>
    decreases |ds|
  {
    if ds == [] then Some(t)
    else if ds[0].Remove? then Fill(t, ds[1..])
    else match Apply(t, ds[0])
      case None => None
      case Some(u) => Fill(u, ds[1..])
  }

  function Patch(t: Tree, ds: seq<Diff>): Option<Tree> {
    match Cut(t, ds) case None => None case Some(u) => Fill(u, ds)
  }

  function Then(t: Option<Tree>, f: Tree -> Option<Tree>): Option<Tree> {
    match t case None => None case Some(u) => f(u)
  }

  lemma {:induction false} CutAppend(t: Tree, x: seq<Diff>, y: seq<Diff>)
    ensures Cut(t, x + y) == Then(Cut(t, y), u => Cut(u, x))
  {
    if x == [] {
      assert x + y == y;
    } else {
      CutAppend(t, x[1..], y);
      assert (x + y)[1..] == x[1..] + y;
    }
  }

  lemma {:induction false} FillAppend(t: Tree, x: seq<Diff>, y: seq<Diff>)
    ensures Fill(t, x + y) == Then(Fill(t, x), u => Fill(u, y))
    decreases |x|
  {
    if x == [] {
      assert x + y == y;
    } else {
      assert (x + y)[1..] == x[1..] + y;
      if x[0].Remove? {
        FillAppend(t, x[1..], y);
      } else if Apply(t, x[0]).Some? {
        FillAppend(Apply(t, x[0]).value, x[1..], y);
      }
    }
  }

  /** The child a segment leads to, and the tree with that child replaced. */
  predicate Has(t: Tree, s: Seg) {
    || (t.TObj? && s.Key? && s.k in t.fields)
    || (t.TArr? && s.Index? && s.i < |t.elems|)
  }

  function Child(t: Tree, s: Seg): Tree
    requires Has(t, s)
  {
    if t.TObj? then t.fields[s.k] else t.elems[s.i]
  }

  function With(t: Tree, s: Seg, c: Tree): (r: Tree)
    requires Has(t, s)
    ensures Has(r, s) && Child(r, s) == c
  {
    if t.TObj? then TObj(t.fields[s.k := c]) else TArr(t.elems[s.i := c])
  }

  /** Entries at the node itself are changes only, so a child's list can be re-rooted. */
  ghost predicate Rooted(ds: seq<Diff>) {
    forall i :: 0 <= i < |ds| && ds[i].path == [] ==> ds[i].Change?
  }

  lemma DiffsAreRooted(b: Json, a: Json)
    requires WellFormed(b) && WellFormed(a)
    ensures Rooted(DiffOf(b, a))
  {
    forall d | d in DiffOf(b, a) && d.path == [] ensures d.Change? { ListedIffReported(b, a, d); }
  }

  lemma ApplyUnder(t: Tree, s: Seg, d: Diff)
    requires Has(t, s) && (d.path == [] ==> d.Change?)
    ensures Apply(t, At([s], d))
         == match Apply(Child(t, s), d) case None => None case Some(c) => Some(With(t, s, c))
  {
    assert Tail(At([s], d)) == d by { assert ([s] + d.path)[1..] == d.path; }
  }

  lemma {:induction false} CutUnder(t: Tree, s: Seg, ds: seq<Diff>)
    requires Has(t, s) && Rooted(ds) && Cut(Child(t, s), ds).Some?
    ensures Cut(t, Under([s], ds)) == Some(With(t, s, Cut(Child(t, s), ds).value))
  {
    if ds == [] {
      assert With(t, s, Child(t, s)) == t;
    } else {
      CutUnder(t, s, ds[1..]);
      assert Under([s], ds)[1..] == Under([s], ds[1..]);
      var u := Cut(Child(t, s), ds[1..]).value;
      ApplyUnder(With(t, s, u), s, ds[0]);
      if ds[0].Remove? { WithWith(t, s, u, Apply(u, ds[0]).value); }
    }
  }

  lemma WithWith(t: Tree, s: Seg, u: Tree, v: Tree)
    requires Has(t, s)
    ensures With(With(t, s, u), s, v) == With(t, s, v)
  {
  }

  lemma {:induction false} FillUnder(t: Tree, s: Seg, ds: seq<Diff>)
    requires Has(t, s) && Rooted(ds) && Fill(Child(t, s), ds).Some?
    ensures Fill(t, Under([s], ds)) == Some(With(t, s, Fill(Child(t, s), ds).value))
    decreases |ds|
  {
    if ds == [] {
      assert With(t, s, Child(t, s)) == t;
    } else {
      assert Under([s], ds)[1..] == Under([s], ds[1..]);
      if ds[0].Remove? {
        FillUnder(t, s, ds[1..]);
      } else {
        ApplyUnder(t, s, ds[0]);
        var u := Apply(Child(t, s), ds[0]).value;
        FillUnder(With(t, s, u), s, ds[1..]);
        WithWith(t, s, u, Fill(u, ds[1..]).value);
      }
    }
  }

  /** The tree between the two passes: `b` without what `a` lacks. */
  function Common(b: Json, a: Json): Tree
    decreases b
  {
    if b.Obj? && a.Obj? then
      TObj(map k | k in b.fields && k in a.fields :: Common(b.fields[k], a.fields[k]))
    else if b.Arr? && a.Arr? then
      var n := if |b.elems| < |a.elems| then |b.elems| else |a.elems|;
      TArr(seq(n, i requires 0 <= i < n => Common(b.elems[i], a.elems[i])))
    else Shape(b)
  }

  /** `b` with the keys in `done` already cut down. */
  function CutKeys(done: seq<string>, b: Json, a: Json): Tree
    requires b.Obj? && a.Obj?
  {
    TObj(map k | k in b.fields && (k in done ==> k in a.fields) ::
           if k in done then Common(b.fields[k], a.fields[k]) else Shape(b.fields[k]))
  }

  lemma {:induction false} CutKeyDiffs(ks: seq<string>, b: Json, a: Json)
    requires b.Obj? && a.Obj? && WellFormed(b) && WellFormed(a) && Distinct(ks)
    requires forall k :: k in ks ==> k in b.fields
    ensures Cut(Shape(b), KeyDiffs(ks, b, a)) == Some(CutKeys(ks, b, a))
    decreases b, 0, |ks|
  {
    if ks == [] {
      assert CutKeys(ks, b, a) == Shape(b);
    } else {
      var k, rest := ks[0], ks[1..];
      CutKeyDiffs(rest, b, a);
      CutAppend(Shape(b), KeyDiff(k, b, a), KeyDiffs(rest, b, a));
      var t := CutKeys(rest, b, a);
      assert k !in rest;
      if k in a.fields {
        CutGivesCommon(b.fields[k], a.fields[k]);
        DiffsAreRooted(b.fields[k], a.fields[k]);
        CutUnder(t, Key(k), DiffOf(b.fields[k], a.fields[k]));
      } else {
        CutOne(t, Remove([Key(k)], b.fields[k]));
      }
      CutKeysStep(ks, b, a);
    }
  }

  lemma CutOne(t: Tree, d: Diff)
    requires d.Remove?
    ensures Cut(t, [d]) == Apply(t, d)
  {
    assert Cut(t, [d][1..]) == Some(t);
  }

  lemma CutKeysStep(ks: seq<string>, b: Json, a: Json)
    requires b.Obj? && a.Obj? && ks != [] && ks[0] in b.fields && ks[0] !in ks[1..]
    ensures var t := CutKeys(ks[1..], b, a);
            && Has(t, Key(ks[0])) && Child(t, Key(ks[0])) == Shape(b.fields[ks[0]])
            && CutKeys(ks, b, a)
            == if ks[0] in a.fields then With(t, Key(ks[0]), Common(b.fields[ks[0]], a.fields[ks[0]]))
               else TObj(t.fields - {ks[0]})
  {
  }

  lemma {:induction false} CutSkips(t: Tree, ds: seq<Diff>)
    requires forall i :: 0 <= i < |ds| ==> !ds[i].Remove?
    ensures Cut(t, ds) == Some(t)
  {
    if ds == [] {
    } else {
      CutSkips(t, ds[1..]);
    }
  }

  /** `b` with the elements from `i` on already cut down. */
  function CutElems(i: nat, b: Json, a: Json): Tree
    requires b.Arr? && a.Arr?
  {
    var n := if |b.elems| <= |a.elems| || i >= |b.elems| then |b.elems|
             else if i <= |a.elems| then |a.elems| else i;
    TArr(seq(n, j requires 0 <= j < n =>
           if j < i then Shape(b.elems[j]) else Common(b.elems[j], a.elems[j])))
  }

  lemma {:induction false} CutElemDiffs(i: nat, b: Json, a: Json)
    requires b.Arr? && a.Arr? && WellFormed(b) && WellFormed(a) && i <= MaxLen(b, a)
    ensures Cut(Shape(b), ElemDiffs(i, b, a)) == Some(CutElems(i, b, a))
    decreases b, 0, MaxLen(b, a) - i
  {
    if i == MaxLen(b, a) {
      assert CutElems(i, b, a) == Shape(b);
    } else {
      CutElemDiffs(i + 1, b, a);
      CutAppend(Shape(b), ElemDiff(i, b, a), ElemDiffs(i + 1, b, a));
      var t := CutElems(i + 1, b, a);
      if i >= |b.elems| {
        assert t == CutElems(i, b, a);
      } else if i >= |a.elems| {
        assert t.elems[..i] + t.elems[i + 1..] == CutElems(i, b, a).elems;
      } else {
        CutGivesCommon(b.elems[i], a.elems[i]);
        DiffsAreRooted(b.elems[i], a.elems[i]);
        CutUnder(t, Index(i), DiffOf(b.elems[i], a.elems[i]));
        assert With(t, Index(i), Common(b.elems[i], a.elems[i])) == CutElems(i, b, a);
      }
    }
  }

  lemma NewKeysCutNothing(b: Json, a: Json)
    requires b.Obj? && a.Obj?
    ensures Cut(Shape(b), DiffOf(b, a)) == Cut(Shape(b), KeyDiffs(b.keys, b, a))
  {
    CutAppend(Shape(b), KeyDiffs(b.keys, b, a), NewKeys(a.keys, b, a));
    forall d | d in NewKeys(a.keys, b, a) ensures !d.Remove? { InNewKeys(a.keys, b, a, d); }
    CutSkips(Shape(b), NewKeys(a.keys, b, a));
  }

  lemma CutKeysIsCommon(b: Json, a: Json)
    requires b.Obj? && a.Obj? && WellFormed(b)
    ensures CutKeys(b.keys, b, a) == Common(b, a)
  {
  }

  lemma {:induction false} CutGivesCommon(b: Json, a: Json)
    requires WellFormed(b) && WellFormed(a)
    ensures Cut(Shape(b), DiffOf(b, a)) == Some(Common(b, a))
    decreases b, 1, 0
  {
    if b.Obj? && a.Obj? {
      CutKeyDiffs(b.keys, b, a);
      NewKeysCutNothing(b, a);
      CutKeysIsCommon(b, a);
    } else if b.Arr? && a.Arr? {
      CutElemDiffs(0, b, a);
      assert CutElems(0, b, a) == Common(b, a);
    }
  }

  /** The common part with the keys in `done` already filled in from `a`. */
  function FillKeys(done: seq<string>, b: Json, a: Json): Tree
    requires b.Obj? && a.Obj?
  {
    TObj(map k | k in a.fields && (k in b.fields || k in done) ::
           if k in done then Shape(a.fields[k]) else Common(b.fields[k], a.fields[k]))
  }

  lemma {:induction false} FillKeyDiffs(done: seq<string>, ks: seq<string>, b: Json, a: Json)
    requires b.Obj? && a.Obj? && WellFormed(b) && WellFormed(a) && Distinct(done + ks)
    requires forall k :: k in done + ks ==> k in b.fields
    ensures Fill(FillKeys(done, b, a), KeyDiffs(ks, b, a)) == Some(FillKeys(done + ks, b, a))
    decreases b, 0, |ks|
  {
    var t := FillKeys(done, b, a);
    if ks == [] {
      assert done + ks == done;
    } else {
      var k, rest := ks[0], ks[1..];
      assert (done + ks)[|done|] == k && k !in done by {
        assert forall i :: 0 <= i < |done| ==> (done + ks)[i] == done[i];
      }
      assert done + ks == done + [k] + rest;
      FillKeysStep(done, k, b, a);
      FillKeyDiffs(done + [k], rest, b, a);
      FillAppend(t, KeyDiff(k, b, a), KeyDiffs(rest, b, a));
      if k in a.fields {
        FillGivesShape(b.fields[k], a.fields[k]);
        DiffsAreRooted(b.fields[k], a.fields[k]);
        FillUnder(t, Key(k), DiffOf(b.fields[k], a.fields[k]));
      }
    }
  }

  lemma FillKeysStep(done: seq<string>, k: string, b: Json, a: Json)
    requires b.Obj? && a.Obj? && k !in done
    ensures var t := FillKeys(done, b, a);
            && (k in b.fields && k in a.fields ==>
                  && Has(t, Key(k)) && Child(t, Key(k)) == Common(b.fields[k], a.fields[k])
                  && FillKeys(done + [k], b, a) == With(t, Key(k), Shape(a.fields[k])))
            && (k !in b.fields && k in a.fields ==>
                  && k !in t.fields
                  && FillKeys(done + [k], b, a) == TObj(t.fields[k := Shape(a.fields[k])]))
            && (k !in a.fields ==> FillKeys(done + [k], b, a) == t)
  {
    assert forall x :: x in done + [k] <==> x in done || x == k;
  }

  lemma {:induction false} FillNewKeys(done: seq<string>, ks: seq<string>, b: Json, a: Json)
    requires b.Obj? && a.Obj? && Distinct(ks)
    requires forall k :: k in b.fields ==> k in done
    requires forall k :: k in ks && k !in b.fields ==> k !in done
    ensures Fill(FillKeys(done, b, a), NewKeys(ks, b, a)) == Some(FillKeys(done + ks, b, a))
    decreases |ks|
  {
    var t := FillKeys(done, b, a);
    if ks == [] {
      assert done + ks == done;
    } else {
      var k, rest := ks[0], ks[1..];
      assert done + ks == done + [k] + rest;
      FillNewKeys(done + [k], rest, b, a);
      if k in b.fields {
        assert NewKeys(ks, b, a) == NewKeys(rest, b, a);
        FillKeysAgain(done, k, b, a);
      } else {
        FillKeysStep(done, k, b, a);
        if k in a.fields {
          FillFirst(t, Create([Key(k)], a.fields[k]), NewKeys(rest, b, a));
        } else {
          assert NewKeys(ks, b, a) == NewKeys(rest, b, a);
        }
      }
    }
  }

  lemma FillFirst(t: Tree, d: Diff, ds: seq<Diff>)
    requires !d.Remove? && Apply(t, d).Some?
    ensures Fill(t, [d] + ds) == Fill(Apply(t, d).value, ds)
  {
    assert ([d] + ds)[1..] == ds;
  }

  lemma FillKeysAgain(done: seq<string>, k: string, b: Json, a: Json)
    requires b.Obj? && a.Obj? && k in done
    ensures FillKeys(done + [k], b, a) == FillKeys(done, b, a)
  {
    assert forall x :: x in done + [k] <==> x in done;
  }

  lemma FillKeysEnds(b: Json, a: Json)
    requires b.Obj? && a.Obj? && WellFormed(b) && WellFormed(a)
    ensures FillKeys([], b, a) == Common(b, a)
    ensures FillKeys(b.keys + a.keys, b, a) == Shape(a)
  {
  }

  function FillElems(i: nat, b: Json, a: Json): Tree
    requires b.Arr? && a.Arr?
  {
    var n := if |a.elems| <= |b.elems| || i >= |a.elems| then |a.elems|
             else if i <= |b.elems| then |b.elems| else i;
    TArr(seq(n, j requires 0 <= j < n =>
           if j < i then Shape(a.elems[j]) else Common(b.elems[j], a.elems[j])))
  }

  lemma {:induction false} FillElemDiffs(i: nat, b: Json, a: Json)
    requires b.Arr? && a.Arr? && WellFormed(b) && WellFormed(a) && i <= MaxLen(b, a)
    ensures Fill(FillElems(i, b, a), ElemDiffs(i, b, a)) == Some(Shape(a))
    decreases b, 0, MaxLen(b, a) - i
  {
    var t := FillElems(i, b, a);
    if i == MaxLen(b, a) {
      assert t == Shape(a);
    } else {
      FillElemDiffs(i + 1, b, a);
      FillAppend(t, ElemDiff(i, b, a), ElemDiffs(i + 1, b, a));
      if i >= |b.elems| {
        assert t.elems + [Shape(a.elems[i])] == FillElems(i + 1, b, a).elems;
        assert Fill(t, ElemDiff(i, b, a)) == Some(FillElems(i + 1, b, a));
      } else if i >= |a.elems| {
        assert t == FillElems(i + 1, b, a);
        assert Fill(t, ElemDiff(i, b, a)) == Some(t);
      } else {
        FillGivesShape(b.elems[i], a.elems[i]);
        FillSharedElem(i, b, a);
      }
    }
  }

  lemma FillSharedElem(i: nat, b: Json, a: Json)
    requires b.Arr? && a.Arr? && WellFormed(b) && WellFormed(a) && i < |b.elems| && i < |a.elems|
    requires Fill(Common(b.elems[i], a.elems[i]), DiffOf(b.elems[i], a.elems[i])) == Some(Shape(a.elems[i]))
    ensures Fill(FillElems(i, b, a), ElemDiff(i, b, a)) == Some(FillElems(i + 1, b, a))
  {
    var t := FillElems(i, b, a);
    DiffsAreRooted(b.elems[i], a.elems[i]);
    FillUnder(t, Index(i), DiffOf(b.elems[i], a.elems[i]));
    assert With(t, Index(i), Shape(a.elems[i])) == FillElems(i + 1, b, a);
  }

  lemma {:induction false} FillGivesShape(b: Json, a: Json)
    requires WellFormed(b) && WellFormed(a)
    ensures Fill(Common(b, a), DiffOf(b, a)) == Some(Shape(a))
    decreases b, 1, 0
  {
    if b.Obj? && a.Obj? {
      assert [] + b.keys == b.keys;
      FillKeyDiffs([], b.keys, b, a);
      FillAppend(Common(b, a), KeyDiffs(b.keys, b, a), NewKeys(a.keys, b, a));
      FillNewKeys(b.keys, a.keys, b, a);
      FillKeysEnds(b, a);
    } else if b.Arr? && a.Arr? {
      assert FillElems(0, b, a) == Common(b, a);
      FillElemDiffs(0, b, a);
    } else if Clash(b, a) {
      assert DiffOf(b, a)[1..] == [];
    }
  }

  /** Replaying `diff(b, a)` on `b` gives `a`, and every entry is accepted on the way. */
  lemma DiffIsAPatch(b: Json, a: Json)
    requires WellFormed(b) && WellFormed(a)
    ensures Patch(Shape(b), DiffOf(b, a)) == Some(Shape(a))
  {
    CutGivesCommon(b, a);
    FillGivesShape(b, a);
  }

  /** Nothing is reported exactly when the trees are equal up to key order. */
  lemma {:induction false} EmptyIffEqual(b: Json, a: Json)
    requires WellFormed(b) && WellFormed(a)
    ensures DiffOf(b, a) == [] <==> Shape(b) == Shape(a)
    decreases b
  {
    DiffIsAPatch(b, a);
    if Shape(b) == Shape(a) && DiffOf(b, a) != [] {
      var d := DiffOf(b, a)[0];
      ListedIffReported(b, a, d);
      EqualReportsNothing(b, a, d);
    }
  }

  lemma {:induction false} EqualReportsNothing(b: Json, a: Json, d: Diff)
    requires Shape(b) == Shape(a)
    ensures !Reports(b, a, d)
    decreases b
  {
    if d.path == [] {
    } else {
      if b.Obj? && d.path[0].Key? && d.path[0].k in b.fields {
        var k := d.path[0].k;
        assert k in Shape(b).fields && k in Shape(a).fields;
        assert Shape(b.fields[k]) == Shape(b).fields[k] == Shape(a).fields[k] == Shape(a.fields[k]);
        EqualReportsNothing(b.fields[k], a.fields[k], Tail(d));
      } else if b.Obj? && d.path[0].Key? {
        assert d.path[0].k !in Shape(b).fields;
      } else if b.Arr? && d.path[0].Index? && d.path[0].i < |b.elems| {
        var i := d.path[0].i;
        assert |Shape(b).elems| == |b.elems| && |Shape(a).elems| == |a.elems|;
        assert Shape(b.elems[i]) == Shape(b).elems[i] == Shape(a).elems[i] == Shape(a.elems[i]);
        EqualReportsNothing(b.elems[i], a.elems[i], Tail(d));
      } else if b.Arr? {
        assert |Shape(b).elems| == |b.elems| && |Shape(a).elems| == |a.elems|;
      }
    }
  }
}
