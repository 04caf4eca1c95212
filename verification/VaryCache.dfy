/** The read-through cache controller of packages/core/src/cache.ts: learned-`Vary` entries
    (section 12.5.5 of RFC 9110), the least-recently-used cap, and one operation's get, set and
    delete on a shared store. */
module VaryCache {
  import opened Text
  import opened Optional
  import opened Canonical
  import opened RequestKey
  import opened StoreKeys

  type Value = int

  /** `{ v, s, vary }`; a pointer has no value. */
  datatype Entry = Entry(v: Option<Value>, s: Option<nat>, vary: seq<string>)

  datatype Hit = Hit(data: Value, status: nat)

  datatype Config = Config(maxEntries: int, explicitVary: bool, digest: string -> string)

  /** One opened operation: its bucket, its base key and the request's headers. */
  datatype Op = Op(bucket: Bucket, fp: string, baseKey: string, headers: Headers)

  datatype State = State(store: map<string, Entry>, lru: seq<string>)

  ghost predicate ProperOp(o: Op) {
    IsToken(o.fp) && IsHex32(o.baseKey)
  }

  ghost predicate Digests(c: Config) {
    forall s :: IsHex32(c.digest(s))
  }

  // ---- keys ------------------------------------------------------------------------

  function VaryText(hs: Headers, names: seq<string>): string {
    match Stable(VaryObject(hs, names)) case Text(s) => s case _ => ""
  }

  function BaseKey(o: Op): string {
    ValueKey(o.bucket, o.fp, o.baseKey, "")
  }

  function SecondaryKey(c: Config, o: Op, names: seq<string>): string {
    ValueKey(o.bucket, o.fp, o.baseKey, ":h" + c.digest(VaryText(o.headers, names)))
  }

  function TrimLower(parts: seq<string>): seq<string> {
    if parts == [] then []
    else
      var p := Lower(Trim(parts[0]));
      (if p == "" then [] else [p]) + TrimLower(parts[1..])
  }

  function DropNeverVary(parts: seq<string>): seq<string> {
    if parts == [] then []
    else (if parts[0] in NEVER_VARY then [] else [parts[0]]) + DropNeverVary(parts[1..])
  }

  /** The names a `Vary` response header lists; `["*"]` when nothing may be stored. */
  function VaryNames(header: Option<string>): seq<string> {
    if header == None || header.value == "" then []
    else
      var parts := TrimLower(Split(header.value, ','));
      if "*" in parts then ["*"] else DropNeverVary(parts)
  }

  lemma {:induction false} InTrimLower(parts: seq<string>, h: string)
    ensures h in TrimLower(parts) <==> h != "" && exists p :: p in parts && Lower(Trim(p)) == h
  {
    if parts == [] {
    } else {
      InTrimLower(parts[1..], h);
      assert parts == [parts[0]] + parts[1..];
    }
  }

  lemma {:induction false} InDropNeverVary(parts: seq<string>, h: string)
    ensures h in DropNeverVary(parts) <==> h in parts && h !in NEVER_VARY
  {
    if parts == [] {
    } else {
      InDropNeverVary(parts[1..], h);
      assert parts == [parts[0]] + parts[1..];
    }
  }

  /** A header that lists these parts, one comma between each two. */
  function Listing(parts: seq<string>): Option<string> {
    Some(Join(parts, ","))
  }

  ghost predicate NoCommas(parts: seq<string>) {
    forall p :: p in parts ==> ',' !in p
  }

  /** One of the parts is the star, whatever blanks surround it. */
  ghost predicate HasStar(parts: seq<string>) {
    exists p :: p in parts && Lower(Trim(p)) == "*"
  }

  /** What a `Vary` header says: the star if any part is one; otherwise every part that is not
      blank, trimmed and in lower case, but for the names that never vary. */
  lemma VaryNamesMeans(parts: seq<string>, h: string)
    requires NoCommas(parts)
    ensures VaryNames(Listing(parts)) == ["*"] <==> HasStar(parts)
    ensures !HasStar(parts) ==>
              (h in VaryNames(Listing(parts)) <==> h != "" && h !in NEVER_VARY && exists p :: p in parts && Lower(Trim(p)) == h)
  {
    if parts != [] {
      SplitJoin(parts, ',');
      if Join(parts, ",") == "" { NothingListed(parts, h); }
      InTrimLower(parts, "*");
      InTrimLower(parts, h);
      InDropNeverVary(TrimLower(parts), h);
      InDropNeverVary(TrimLower(parts), "*");
    }
  }

  lemma NothingListed(parts: seq<string>, h: string)
    requires parts != [] && NoCommas(parts) && Join(parts, ",") == ""
    ensures parts == [""] && TrimLower(parts) == []
  {
    SplitJoin(parts, ',');
  }

  /** Every header text lists its parts. */
  lemma EveryHeaderLists(header: string) returns (parts: seq<string>)
    ensures NoCommas(parts) && Listing(parts) == Some(header)
  {
    JoinSplit(header, ',');
    parts := Split(header, ',');
  }

  // ---- the recency list ------------------------------------------------------------

  function Without(l: seq<string>, k: string): (r: seq<string>)
    ensures forall x :: x in r <==> x in l && x != k
    ensures |r| <= |l| && (k in l ==> |r| < |l|)
  {
    if l == [] then []
    else if l[0] == k then Without(l[1..], k)
    else [l[0]] + Without(l[1..], k)
  }

  function Excess(l: seq<string>, max: int): (n: nat)
    ensures n <= |l|
  {
    if max <= 0 then |l| else if |l| > max then |l| - max else 0
  }

  /** Drop the key, append it, keep the last `max`. */
  function Touch(l: seq<string>, k: string, max: int): seq<string> {
    var all := Without(l, k) + [k];
    all[Excess(all, max)..]
  }

  /** What that pushes out. */
  function Evicted(l: seq<string>, k: string, max: int): set<string> {
    var all := Without(l, k) + [k];
    set x | x in all[..Excess(all, max)]
  }

  function AfterRemember(c: Config, s: State, k: string): State {
    State(s.store - Evicted(s.lru, k, c.maxEntries), Touch(s.lru, k, c.maxEntries))
  }

  // ---- get, set, delete --------------------------------------------------------------

  function Found(c: Config, s: State, k: string): (State, Option<Hit>) {
    if k !in s.store || s.store[k].v == None then (s, None)
    else (AfterRemember(c, s, k), Some(Hit(s.store[k].v.value, if s.store[k].s == None then 200 else s.store[k].s.value)))
  }

  /** The key a read of `o` ends at, if there is anything to read. */
  function ReadKey(c: Config, s: State, o: Op): Option<string> {
    if BaseKey(o) !in s.store then None
    else if c.explicitVary || s.store[BaseKey(o)].vary == [] then Some(BaseKey(o))
    else Some(SecondaryKey(c, o, s.store[BaseKey(o)].vary))
  }

  function AfterGet(c: Config, s: State, o: Op): (State, Option<Hit>) {
    match ReadKey(c, s, o) case None => (s, None) case Some(k) => Found(c, s, k)
  }

  function NamesFor(c: Config, varyHeader: Option<string>): seq<string> {
    if c.explicitVary then [] else VaryNames(varyHeader)
  }

  function WriteKey(c: Config, o: Op, names: seq<string>): string {
    if names == [] then BaseKey(o) else SecondaryKey(c, o, names)
  }

  function AfterSet(c: Config, s: State, o: Op, value: Option<Value>, status: nat, varyHeader: Option<string>): State {
    var names := NamesFor(c, varyHeader);
    if "*" in names then s
    else
      var pointed := if names == [] then s.store else s.store[BaseKey(o) := Entry(None, None, names)];
      var k := WriteKey(c, o, names);
      AfterRemember(c, State(pointed[k := Entry(value, Some(status), names)], s.lru), k)
  }

  function AfterDelete(c: Config, s: State, o: Op): State {
    var gone := if !c.explicitVary && BaseKey(o) in s.store && s.store[BaseKey(o)].vary != []
                then {SecondaryKey(c, o, s.store[BaseKey(o)].vary)} else {};
    State(s.store - gone - {BaseKey(o)}, Without(s.lru, BaseKey(o)))
  }

  // ---- the controller ------------------------------------------------------------------

  class Controller {
    const config: Config
    var store: map<string, Entry>
    var lru: seq<string>

    function Now(): State
      reads this
    {
      State(store, lru)
    }

    constructor (c: Config, shared: map<string, Entry>)
      ensures config == c && Now() == State(shared, [])
    {
      config := c;
      store := shared;
      lru := [];
    }

    method Remember(k: string)
      modifies this
      ensures Now() == AfterRemember(config, old(Now()), k)
    {
      if k in lru {
        lru := Without(lru, k);
      } else {
        WithoutAbsent(lru, k);
      }
      lru := lru + [k];
      ghost var all, shared := lru, store;
      ghost var cut := 0;
      while |lru| > config.maxEntries
        invariant 0 <= cut <= Excess(all, config.maxEntries) && lru == all[cut..]
        invariant store == shared - (set x | x in all[..cut])
        decreases |lru|
      {
        if lru == [] {
          break;
        }
        var oldest := lru[0];
        lru := lru[1..];
        store := store - {oldest};
        assert all[..cut + 1] == all[..cut] + [oldest];
        cut := cut + 1;
      }
      assert cut == Excess(all, config.maxEntries);
    }

    method HitFrom(k: string) returns (hit: Option<Hit>)
      modifies this
      ensures (Now(), hit) == Found(config, old(Now()), k)
    {
      if k !in store {
        return None;
      }
      var entry := store[k];
      if entry.v == None {
        return None;
      }
      Remember(k);
      hit := Some(Hit(entry.v.value, if entry.s == None then 200 else entry.s.value));
    }

    method Get(o: Op) returns (hit: Option<Hit>)
      modifies this
      ensures (Now(), hit) == AfterGet(config, old(Now()), o)
    {
      if BaseKey(o) !in store {
        return None;
      }
      var entry := store[BaseKey(o)];
      if config.explicitVary {
        hit := HitFrom(BaseKey(o));
        return;
      }
      if entry.vary == [] {
        hit := HitFrom(BaseKey(o));
        return;
      }
      var sk := SecondaryKey(config, o, entry.vary);
      hit := HitFrom(sk);
    }

    method Set(o: Op, value: Option<Value>, status: nat, varyHeader: Option<string>)
      modifies this
      ensures Now() == AfterSet(config, old(Now()), o, value, status, varyHeader)
    {
      var names := if config.explicitVary then [] else VaryNames(varyHeader);
      if "*" in names {
        return;
      }
      if config.explicitVary || names == [] {
        var k := BaseKey(o);
        store := store[k := Entry(value, Some(status), [])];
        Remember(k);
        return;
      }
      store := store[BaseKey(o) := Entry(None, None, names)];
      var sk := SecondaryKey(config, o, names);
      store := store[sk := Entry(value, Some(status), names)];
      Remember(sk);
    }

    method Delete(o: Op)
      modifies this
      ensures Now() == AfterDelete(config, old(Now()), o)
    {
      if !config.explicitVary {
        if BaseKey(o) in store && store[BaseKey(o)].vary != [] {
          store := store - {SecondaryKey(config, o, store[BaseKey(o)].vary)};
        }
      }
      store := store - {BaseKey(o)};
      lru := Without(lru, BaseKey(o));
    }
  }

  lemma {:induction false} WithoutAbsent(l: seq<string>, k: string)
    requires k !in l
    ensures Without(l, k) == l
  {
    if l == [] {
    } else {
      WithoutAbsent(l[1..], k);
    }
  }

  // ---- runs ------------------------------------------------------------------------------

  datatype Action =
    | DoGet(o: Op)
    | DoSet(o: Op, value: Option<Value>, status: nat, varyHeader: Option<string>)
    | DoDelete(o: Op)
    | Expire(k: string)

  function Step(c: Config, s: State, a: Action): State {
    match a
    case DoGet(o) => AfterGet(c, s, o).0
    case DoSet(o, v, st, h) => AfterSet(c, s, o, v, st, h)
    case DoDelete(o) => AfterDelete(c, s, o)
    case Expire(k) => s.(store := s.store - {k})
  }

  function Run(c: Config, acts: seq<Action>): State {
    if acts == [] then State(map[], []) else Step(c, Run(c, acts[..|acts| - 1]), acts[|acts| - 1])
  }

  /** The write behind each stored value. */
  datatype Write = Write(o: Op, names: seq<string>, hit: Hit)

  function Recorded(c: Config, w: map<string, Write>, a: Action): map<string, Write> {
    if a.DoSet? && a.value.Some? && "*" !in NamesFor(c, a.varyHeader) then
      var names := NamesFor(c, a.varyHeader);
      w[WriteKey(c, a.o, names) := Write(a.o, names, Hit(a.value.value, a.status))]
    else w
  }

  function Writes(c: Config, acts: seq<Action>): map<string, Write> {
    if acts == [] then map[] else Recorded(c, Writes(c, acts[..|acts| - 1]), acts[|acts| - 1])
  }

  ghost predicate ProperRun(acts: seq<Action>) {
    forall i :: 0 <= i < |acts| && !acts[i].Expire? ==> ProperOp(acts[i].o)
  }

  /** What every reachable state keeps. */
  ghost predicate Inv(c: Config, s: State, w: map<string, Write>) {
    && Unique(s.lru)
    && |s.lru| <= (if c.maxEntries <= 0 then 0 else c.maxEntries)
    && (forall k :: k in s.store && s.store[k].v.Some? ==> k in s.lru && k in w && Explains(c, s.store[k], w[k], k))
  }

  ghost predicate Explains(c: Config, e: Entry, w: Write, k: string) {
    && ProperOp(w.o) && k == WriteKey(c, w.o, w.names)
    && e == Entry(Some(w.hit.data), Some(w.hit.status), w.names)
  }

  predicate Unique(l: seq<string>) {
    forall i, j :: 0 <= i < j < |l| ==> l[i] != l[j]
  }

  lemma {:induction false} WithoutUnique(l: seq<string>, k: string)
    requires Unique(l)
    ensures Unique(Without(l, k) + [k])
  {
    if l == [] {
    } else {
      assert Unique(l[1..]);
      WithoutUnique(l[1..], k);
      var r := Without(l[1..], k) + [k];
      if l[0] != k {
        assert l[0] !in r by { assert forall i :: 0 < i < |l| ==> l[i] != l[0]; }
        assert Without(l, k) + [k] == [l[0]] + r;
      }
    }
  }

  lemma TouchFacts(l: seq<string>, k: string, max: int)
    requires Unique(l)
    ensures Unique(Touch(l, k, max)) && |Touch(l, k, max)| <= (if max <= 0 then 0 else max)
    ensures forall x :: x in l || x == k ==> (x in Touch(l, k, max) <==> x !in Evicted(l, k, max))
    ensures k in Evicted(l, k, max) <==> max <= 0
  {
    WithoutUnique(l, k);
    var all := Without(l, k) + [k];
    var n := Excess(all, max);
    assert all == all[..n] + all[n..];
    forall x | x in all[..n] ensures x !in all[n..] { NotTwice(all, n, x); }
    forall x | x in l || x == k ensures x in all[n..] <==> x !in all[..n] {
      assert x in all;
    }
    assert all[|all| - 1] == k;
    if max > 0 { assert k in all[n..] by { assert all[n..][|all| - n - 1] == k; } }
  }

  lemma RememberKeepsInv(c: Config, s: State, w: map<string, Write>, k: string)
    requires Unique(s.lru)
    requires forall x :: x in s.store && s.store[x].v.Some? ==>
               (x in s.lru || x == k) && x in w && Explains(c, s.store[x], w[x], x)
    ensures Inv(c, AfterRemember(c, s, k), w)
  {
    TouchFacts(s.lru, k, c.maxEntries);
  }

  lemma SetKeepsInv(c: Config, s: State, w: map<string, Write>, a: Action)
    requires Inv(c, s, w) && a.DoSet? && ProperOp(a.o)
    ensures Inv(c, Step(c, s, a), Recorded(c, w, a))
  {
    var names := NamesFor(c, a.varyHeader);
    if "*" !in names {
      var pointed := if names == [] then s.store else s.store[BaseKey(a.o) := Entry(None, None, names)];
      var k := WriteKey(c, a.o, names);
      RememberKeepsInv(c, State(pointed[k := Entry(a.value, Some(a.status), names)], s.lru), Recorded(c, w, a), k);
    }
  }

  lemma StepKeepsInv(c: Config, s: State, w: map<string, Write>, a: Action)
    requires Inv(c, s, w) && (a.Expire? || ProperOp(a.o))
    ensures Inv(c, Step(c, s, a), Recorded(c, w, a))
  {
    match a
    case DoGet(o) =>
      var k := ReadKey(c, s, o);
      if k.Some? { RememberKeepsInv(c, s, w, k.value); }
    case DoSet(o, v, st, h) =>
      SetKeepsInv(c, s, w, a);
    case DoDelete(o) => UniqueWithout(s.lru, BaseKey(o));
    case Expire(k) =>
  }

  lemma {:induction false} UniqueWithout(l: seq<string>, k: string)
    requires Unique(l)
    ensures Unique(Without(l, k))
  {
    WithoutUnique(l, k);
    var r := Without(l, k) + [k];
    assert forall i :: 0 <= i < |Without(l, k)| ==> Without(l, k)[i] == r[i];
  }

  lemma {:induction false} RunKeepsInv(c: Config, acts: seq<Action>)
    requires ProperRun(acts)
    ensures Inv(c, Run(c, acts), Writes(c, acts))
  {
    if acts == [] {
    } else {
      RunKeepsInv(c, acts[..|acts| - 1]);
      StepKeepsInv(c, Run(c, acts[..|acts| - 1]), Writes(c, acts[..|acts| - 1]), acts[|acts| - 1]);
    }
  }

  /** Every value still stored is in the recency list, and the list never outgrows its cap. */
  lemma StoredValuesAreRemembered(c: Config, acts: seq<Action>, k: string)
    requires ProperRun(acts)
    ensures |Run(c, acts).lru| <= (if c.maxEntries <= 0 then 0 else c.maxEntries)
    ensures k in Run(c, acts).store && Run(c, acts).store[k].v.Some? ==> k in Run(c, acts).lru
  {
    RunKeepsInv(c, acts);
  }

  // ---- learned-Vary soundness ----------------------------------------------------------

  /** Writer and reader send the same value, or both none, for a header. */
  predicate Agree(w: Headers, r: Headers, h: string) {
    FindHeader(w, h) == FindHeader(r, h)
  }

  /** Two different texts with one digest. */
  predicate Collide(digest: string -> string, s: string, t: string) {
    s != t && digest(s) == digest(t)
  }

  lemma VaryTextInjective(h1: Headers, n1: seq<string>, h2: Headers, n2: seq<string>)
    requires VaryText(h1, n1) == VaryText(h2, n2)
    ensures VaryObject(h1, n1).fields == VaryObject(h2, n2).fields
  {
    VaryObjectHolds(h1, n1);
    VaryObjectHolds(h2, n2);
    TextIffHashable(VaryObject(h1, n1));
    TextIffHashable(VaryObject(h2, n2));
    EqualTextsSameNormal(VaryObject(h1, n1), VaryObject(h2, n2));
    EmptyTogether(h1, n1, h2, n2);
    SameVaryFields(h1, n1, h2, n2);
  }

  lemma EmptyTogether(h1: Headers, n1: seq<string>, h2: Headers, n2: seq<string>)
    requires Normal(VaryObject(h1, n1)) == Normal(VaryObject(h2, n2))
    ensures VaryObject(h1, n1).keys == [] <==> VaryObject(h2, n2).keys == []
  {
    var v, w := VaryObject(h1, n1), VaryObject(h2, n2);
    VaryObjectHolds(h1, n1);
    VaryObjectHolds(h2, n2);
    if v.keys != [] { SameVaryField(h1, n1, h2, n2, v.keys[0]); }
    if w.keys != [] { SameVaryField(h2, n2, h1, n1, w.keys[0]); }
  }

  lemma SameFieldsAgree(h1: Headers, n1: seq<string>, h2: Headers, n2: seq<string>, h: string)
    requires VaryObject(h1, n1).fields == VaryObject(h2, n2).fields
    requires h in Lowers(n1) && h in Lowers(n2) && h !in NEVER_VARY
    ensures Agree(h1, h2, h)
  {
    VaryObjectHolds(h1, n1);
    VaryObjectHolds(h2, n2);
    var f := VaryObject(h1, n1).fields;
    assert h in f <==> FindHeader(h1, h).Some?;
    assert h in f <==> FindHeader(h2, h).Some?;
  }

  lemma KeysOfOneWrite(c: Config, w: Op, names: seq<string>, o: Op, vary: seq<string>)
    requires Digests(c) && ProperOp(w) && ProperOp(o)
    requires WriteKey(c, w, names) == WriteKey(c, o, vary)
    ensures w.bucket == o.bucket && w.fp == o.fp && w.baseKey == o.baseKey && (names == [] <==> vary == [])
    ensures names != [] ==> c.digest(VaryText(w.headers, names)) == c.digest(VaryText(o.headers, vary))
  {
    var s1 := if names == [] then "" else ":h" + c.digest(VaryText(w.headers, names));
    var s2 := if vary == [] then "" else ":h" + c.digest(VaryText(o.headers, vary));
    ProperSuffix(c, VaryText(w.headers, names));
    ProperSuffix(c, VaryText(o.headers, vary));
    ValueKeyInjective(w.bucket, w.fp, w.baseKey, s1, o.bucket, o.fp, o.baseKey, s2);
    if names != [] {
      SplitLength(":h", c.digest(VaryText(w.headers, names)), ":h", c.digest(VaryText(o.headers, vary)));
    }
  }

  lemma ProperSuffix(c: Config, text: string)
    requires Digests(c)
    ensures IsSuffix(":h" + c.digest(text))
  {
    var s := ":h" + c.digest(text);
    assert s[..2] == ":h" && s[2..] == c.digest(text);
  }

  /** In every reachable state a hit was written under the same base key, with this value and
      status; when it was stored under a `Vary` list, its writer and its reader agree on each
      header that list shares with the pointer in force — unless two header texts collide. */
  lemma HitsAreSound(c: Config, acts: seq<Action>, o: Op, h: string)
    requires Digests(c) && ProperRun(acts) && ProperOp(o)
    requires AfterGet(c, Run(c, acts), o).1.Some?
    ensures var s, w := Run(c, acts), Writes(c, acts);
      var k := ReadKey(c, s, o).value;
      var vary := if c.explicitVary then [] else s.store[BaseKey(o)].vary;
      && k in w && w[k].hit == AfterGet(c, s, o).1.value
      && w[k].o.bucket == o.bucket && w[k].o.fp == o.fp && w[k].o.baseKey == o.baseKey
      && (w[k].names == [] <==> vary == [])
      && (h in Lowers(w[k].names) && h in Lowers(vary) && h !in NEVER_VARY ==>
            || Agree(w[k].o.headers, o.headers, h)
            || Collide(c.digest, VaryText(w[k].o.headers, w[k].names), VaryText(o.headers, vary)))
  {
    RunKeepsInv(c, acts);
    var s, w := Run(c, acts), Writes(c, acts);
    var k := ReadKey(c, s, o).value;
    var vary := if c.explicitVary then [] else s.store[BaseKey(o)].vary;
    assert k == WriteKey(c, o, vary);
    KeysOfOneWrite(c, w[k].o, w[k].names, o, vary);
    if h in Lowers(w[k].names) && h in Lowers(vary) && h !in NEVER_VARY
       && VaryText(w[k].o.headers, w[k].names) == VaryText(o.headers, vary) {
      VaryTextInjective(w[k].o.headers, w[k].names, o.headers, vary);
      SameFieldsAgree(w[k].o.headers, w[k].names, o.headers, vary, h);
    }
  }

  ghost predicate AlwaysVaries(c: Config, acts: seq<Action>, names: seq<string>) {
    forall i :: 0 <= i < |acts| && acts[i].DoSet? ==> NamesFor(c, acts[i].varyHeader) == names
  }

  lemma {:induction false} ConstantVaryIsStored(c: Config, acts: seq<Action>, names: seq<string>, k: string)
    requires AlwaysVaries(c, acts, names)
    ensures k in Run(c, acts).store ==> Run(c, acts).store[k].vary == names
    ensures k in Writes(c, acts) ==> Writes(c, acts)[k].names == names
  {
    if acts == [] {
    } else {
      ConstantVaryIsStored(c, acts[..|acts| - 1], names, k);
      assert NamesFor(c, None) == [];
    }
  }

  /** When the server always names the same headers, a hit agrees with its writer on all of them. */
  lemma ConstantVaryIsExact(c: Config, acts: seq<Action>, o: Op, names: seq<string>, h: string)
    requires Digests(c) && ProperRun(acts) && ProperOp(o) && !c.explicitVary && AlwaysVaries(c, acts, names)
    requires AfterGet(c, Run(c, acts), o).1.Some? && h in Lowers(names) && h !in NEVER_VARY
    ensures var s, w := Run(c, acts), Writes(c, acts);
      var k := ReadKey(c, s, o).value;
      && k in w
      && (|| Agree(w[k].o.headers, o.headers, h)
          || Collide(c.digest, VaryText(w[k].o.headers, names), VaryText(o.headers, names)))
  {
    HitsAreSound(c, acts, o, h);
    ConstantVaryIsStored(c, acts, names, BaseKey(o));
    ConstantVaryIsStored(c, acts, names, ReadKey(c, Run(c, acts), o).value);
  }

  /** So a hit agrees with its writer on every header the response named, in whatever case, with
      whatever blanks around it, and wherever in the list. */
  lemma EveryNamedHeaderAgrees(c: Config, acts: seq<Action>, o: Op, parts: seq<string>, part: string)
    requires Digests(c) && ProperRun(acts) && ProperOp(o) && !c.explicitVary
    requires NoCommas(parts) && forall i :: 0 <= i < |acts| && acts[i].DoSet? ==> acts[i].varyHeader == Listing(parts)
    requires AfterGet(c, Run(c, acts), o).1.Some?
    requires part in parts && Lower(Trim(part)) != "" && Lower(Trim(part)) !in NEVER_VARY
    ensures !HasStar(parts)
    ensures var k := ReadKey(c, Run(c, acts), o).value;
      var w := Writes(c, acts);
      && k in w
      && (|| Agree(w[k].o.headers, o.headers, Lower(Trim(part)))
          || Collide(c.digest, VaryText(w[k].o.headers, VaryNames(Listing(parts))), VaryText(o.headers, VaryNames(Listing(parts)))))
  {
    var names, h := VaryNames(Listing(parts)), Lower(Trim(part));
    VaryNamesMeans(parts, h);
    assert AlwaysVaries(c, acts, names);
    HitsAreSound(c, acts, o, h);
    if HasStar(parts) { NothingIsEverWritten(c, acts, ReadKey(c, Run(c, acts), o).value); }
    LowerAgain(Trim(part));
    InLowers(names, h);
    ConstantVaryIsExact(c, acts, o, names, h);
  }

  /** Under a star nothing is stored. */
  lemma {:induction false} NothingIsEverWritten(c: Config, acts: seq<Action>, k: string)
    requires !c.explicitVary && AlwaysVaries(c, acts, ["*"])
    ensures k !in Writes(c, acts)
  {
    if acts == [] {
    } else {
      NothingIsEverWritten(c, acts[..|acts| - 1], k);
    }
  }

  lemma LowerAgain(s: string)
    ensures Lower(Lower(s)) == Lower(s)
  {
  }

  lemma {:induction false} InLowers(names: seq<string>, h: string)
    requires h in names && Lower(h) == h
    ensures h in Lowers(names)
  {
    var last := names[|names| - 1];
    if h != last {
      assert names == names[..|names| - 1] + [last];
      InLowers(names[..|names| - 1], h);
    }
  }

  /** A response whose `Vary` has a star anywhere changes nothing. */
  lemma StarStoresNothing(c: Config, s: State, o: Op, value: Option<Value>, status: nat, parts: seq<string>)
    requires !c.explicitVary && NoCommas(parts) && HasStar(parts)
    ensures AfterSet(c, s, o, value, status, Listing(parts)) == s
  {
    VaryNamesMeans(parts, "*");
  }

  // ---- what no operation touches ---------------------------------------------------------

  /** A write or a delete leaves every entry alone that is not its own, nor pushed out by it. */
  lemma OthersAreLeftAlone(c: Config, s: State, o: Op, value: Option<Value>, status: nat, varyHeader: Option<string>, k: string)
    requires k != BaseKey(o)
    ensures k !in AfterSet(c, s, o, value, status, varyHeader).store && k in s.store ==> |s.lru| + 1 > c.maxEntries
    ensures k in AfterSet(c, s, o, value, status, varyHeader).store && k != WriteKey(c, o, NamesFor(c, varyHeader)) ==>
              k in s.store && AfterSet(c, s, o, value, status, varyHeader).store[k] == s.store[k]
    ensures (BaseKey(o) !in s.store || k != SecondaryKey(c, o, s.store[BaseKey(o)].vary)) ==>
              (k in s.store <==> k in AfterDelete(c, s, o).store)
    ensures k in AfterDelete(c, s, o).store ==> k in s.store && AfterDelete(c, s, o).store[k] == s.store[k]
  {
    if |s.lru| < c.maxEntries { RoomMeansNoEviction(s.lru, WriteKey(c, o, NamesFor(c, varyHeader)), c.maxEntries); }
  }

  /** A read gives what is stored, with status 200 where the store names none. */
  lemma WhatIsServed(c: Config, s: State, o: Op, k: string)
    requires BaseKey(o) in s.store && k in s.store
    requires k == if c.explicitVary || s.store[BaseKey(o)].vary == [] then BaseKey(o) else SecondaryKey(c, o, s.store[BaseKey(o)].vary)
    ensures AfterGet(c, s, o).1 ==
      match s.store[k].v
      case None => None
      case Some(data) => Some(Hit(data, match s.store[k].s case None => 200 case Some(status) => status))
  {
  }

  /** A read changes no entry, and forgets one only when the list is over its cap. */
  lemma ReadsOnlyEvict(c: Config, s: State, o: Op, k: string)
    ensures k in AfterGet(c, s, o).0.store ==> k in s.store && AfterGet(c, s, o).0.store[k] == s.store[k]
    ensures k in s.store && k !in AfterGet(c, s, o).0.store ==> |s.lru| + 1 > c.maxEntries
  {
    var r := ReadKey(c, s, o);
    if r.Some? && |s.lru| < c.maxEntries { RoomMeansNoEviction(s.lru, r.value, c.maxEntries); }
  }

  // ---- what one call leaves for the next --------------------------------------------------

  /** After a delete the same operation misses. */
  lemma DeleteThenGetMisses(c: Config, s: State, o: Op)
    ensures AfterGet(c, AfterDelete(c, s, o), o).1 == None
  {
  }

  /** A value that was just set is read back exactly when the cache keeps anything at all and,
      for a learned `Vary`, this very write did not push out the pointer at the base key (which
      an earlier direct value may have put in the recency list). */
  lemma SetThenGet(c: Config, s: State, o: Op, value: Value, status: nat, varyHeader: Option<string>)
    requires Digests(c) && ProperOp(o) && Unique(s.lru) && "*" !in NamesFor(c, varyHeader)
    ensures var names := NamesFor(c, varyHeader);
      var k := WriteKey(c, o, names);
      AfterGet(c, AfterSet(c, s, o, Some(value), status, varyHeader), o).1
      == if c.maxEntries > 0 && (names == [] || BaseKey(o) !in Evicted(s.lru, k, c.maxEntries))
         then Some(Hit(value, status)) else None
  {
    var names := NamesFor(c, varyHeader);
    TouchFacts(s.lru, WriteKey(c, o, names), c.maxEntries);
    if names != [] { SetThenGetVaried(c, s, o, value, status, varyHeader); }
  }

  lemma SetThenGetVaried(c: Config, s: State, o: Op, value: Value, status: nat, varyHeader: Option<string>)
    requires Digests(c) && ProperOp(o) && Unique(s.lru) && "*" !in NamesFor(c, varyHeader) && NamesFor(c, varyHeader) != []
    ensures var k := WriteKey(c, o, NamesFor(c, varyHeader));
      AfterGet(c, AfterSet(c, s, o, Some(value), status, varyHeader), o).1
      == if c.maxEntries > 0 && BaseKey(o) !in Evicted(s.lru, k, c.maxEntries) then Some(Hit(value, status)) else None
  {
    var names := NamesFor(c, varyHeader);
    var k := WriteKey(c, o, names);
    TouchFacts(s.lru, k, c.maxEntries);
    if k == BaseKey(o) { KeysOfOneWrite(c, o, names, o, []); }
    if c.maxEntries <= 0 { NothingKept(s.lru, k, c.maxEntries); }
  }

  /** The failing half is reachable: room for one entry, a direct value for a request, and then a
      varied one for the same request pushes out its own pointer and is not read back. */
  lemma OwnPointerLost(c: Config, o: Op, was: Value, before: Option<string>, value: Value, status: nat, varyHeader: Option<string>)
    requires Digests(c) && ProperOp(o) && c.maxEntries == 1
    requires NamesFor(c, before) == [] && NamesFor(c, varyHeader) != [] && "*" !in NamesFor(c, varyHeader)
    ensures var s := Run(c, [DoSet(o, Some(was), 200, before)]);
      AfterGet(c, AfterSet(c, s, o, Some(value), status, varyHeader), o).1 == None
  {
    var acts := [DoSet(o, Some(was), 200, before)];
    assert acts[..0] == [];
    var s, base := Run(c, acts), BaseKey(o);
    assert s.lru == [base] by { assert Touch([], base, 1) == [base]; }
    var names := NamesFor(c, varyHeader);
    var k := WriteKey(c, o, names);
    if k == base { KeysOfOneWrite(c, o, names, o, []); }
    assert Without([base], k) + [k] == [base, k] && [base, k][..1] == [base];
    SetThenGet(c, s, o, value, status, varyHeader);
  }

  lemma NothingKept(l: seq<string>, k: string, max: int)
    requires max <= 0
    ensures forall x :: x in l || x == k ==> x in Evicted(l, k, max)
  {
    var all := Without(l, k) + [k];
    assert all[..|all|] == all;
  }

  /** With room to spare nothing is pushed out. */
  lemma RoomMeansNoEviction(l: seq<string>, k: string, max: int)
    requires |l| < max
    ensures Evicted(l, k, max) == {}
  {
  }

  /** So in any reachable state with room to spare a value just set is read back. */
  lemma SetThenGetWithRoom(c: Config, acts: seq<Action>, o: Op, value: Value, status: nat, varyHeader: Option<string>)
    requires Digests(c) && ProperRun(acts) && ProperOp(o) && "*" !in NamesFor(c, varyHeader)
    requires |Run(c, acts).lru| < c.maxEntries
    ensures AfterGet(c, AfterSet(c, Run(c, acts), o, Some(value), status, varyHeader), o).1 == Some(Hit(value, status))
  {
    var s := Run(c, acts);
    RunKeepsInv(c, acts);
    SetThenGet(c, s, o, value, status, varyHeader);
    RoomMeansNoEviction(s.lru, WriteKey(c, o, NamesFor(c, varyHeader)), c.maxEntries);
  }

  /** An undefined value is stored but never served. */
  lemma UndefinedNeverHits(c: Config, s: State, o: Op, status: nat, varyHeader: Option<string>)
    requires Digests(c) && ProperOp(o) && Unique(s.lru) && "*" !in NamesFor(c, varyHeader)
    ensures AfterGet(c, AfterSet(c, s, o, None, status, varyHeader), o).1 == None
  {
    TouchFacts(s.lru, WriteKey(c, o, NamesFor(c, varyHeader)), c.maxEntries);
  }

  // ---- what the recency list means ---------------------------------------------------------

  function Touches(ks: seq<string>, max: int): seq<string> {
    if ks == [] then [] else Touch(Touches(ks[..|ks| - 1], max), ks[|ks| - 1], max)
  }

  /** All keys ever touched, each once, in the order of their last touch. */
  function LastTouched(ks: seq<string>): seq<string> {
    if ks == [] then [] else Without(LastTouched(ks[..|ks| - 1]), ks[|ks| - 1]) + [ks[|ks| - 1]]
  }

  function Last(l: seq<string>, max: int): seq<string> {
    l[Excess(l, max)..]
  }

  lemma {:induction false} WithoutAppend(x: seq<string>, y: seq<string>, k: string)
    ensures Without(x + y, k) == Without(x, k) + Without(y, k)
  {
    if x == [] {
      assert x + y == y;
    } else {
      WithoutAppend(x[1..], y, k);
      assert (x + y)[1..] == x[1..] + y && (x + y)[0] == x[0];
    }
  }

  lemma {:induction false} WithoutLength(l: seq<string>, k: string)
    requires Unique(l)
    ensures |Without(l, k)| == if k in l then |l| - 1 else |l|
  {
    if l == [] {
    } else {
      assert Unique(l[1..]);
      if l[0] == k {
        assert k !in l[1..] by { assert forall i :: 0 < i < |l| ==> l[i] != l[0]; }
        WithoutAbsent(l[1..], k);
      } else {
        WithoutLength(l[1..], k);
      }
    }
  }

  lemma {:induction false} LastTouchedUnique(ks: seq<string>)
    ensures Unique(LastTouched(ks))
  {
    if ks == [] {
    } else {
      LastTouchedUnique(ks[..|ks| - 1]);
      WithoutUnique(LastTouched(ks[..|ks| - 1]), ks[|ks| - 1]);
    }
  }

  lemma LastOfAppend(a: seq<string>, b: seq<string>, max: int)
    requires max > 0 && (a == [] || |b| >= max)
    ensures Last(a + b, max) == Last(b, max)
  {
  }

  lemma TouchLast(l: seq<string>, k: string, max: int)
    requires Unique(l) && max > 0
    ensures Touch(Last(l, max), k, max) == Last(Without(l, k) + [k], max)
  {
    var n := Excess(l, max);
    var x, y := l[..n], l[n..];
    assert l == x + y;
    assert Unique(y);
    WithoutAppend(x, y, k);
    WithoutLength(y, k);
    var b := Without(y, k) + [k];
    Assoc(Without(x, k), Without(y, k), [k]);
    LastOfAppend(Without(x, k), b, max);
  }

  /** After any history of touches the list is the `max` most recently touched distinct keys. */
  lemma {:induction false} RecencyListIsTheMostRecent(ks: seq<string>, max: int)
    requires max > 0
    ensures Touches(ks, max) == Last(LastTouched(ks), max)
  {
    if ks == [] {
    } else {
      var init, k := ks[..|ks| - 1], ks[|ks| - 1];
      RecencyListIsTheMostRecent(init, max);
      LastTouchedUnique(init);
      TouchLast(LastTouched(init), k, max);
    }
  }

  /** Where a key was touched last. */
  function LastAt(ks: seq<string>, k: string): (i: int)
    ensures -1 <= i < |ks| && (i >= 0 ==> ks[i] == k)
    ensures forall j :: i < j < |ks| ==> ks[j] != k
  {
    if ks == [] then -1 else if ks[|ks| - 1] == k then |ks| - 1 else LastAt(ks[..|ks| - 1], k)
  }

  ghost predicate ByLastTouch(ks: seq<string>, l: seq<string>) {
    forall i, j :: 0 <= i < j < |l| ==> LastAt(ks, l[i]) < LastAt(ks, l[j])
  }

  /** No key of the list was touched before this one. */
  ghost predicate OlderThanAll(ks: seq<string>, k: string, l: seq<string>) {
    forall i :: 0 <= i < |l| ==> LastAt(ks, k) < LastAt(ks, l[i])
  }

  /** The list holds as many of the keys ever touched as there is room for, each once, in the order of
      their last touch, and none that is left out was touched later than one that is in. */
  lemma RecentlyTouchedAreKept(ks: seq<string>, max: int, k: string)
    requires max > 0
    ensures ByLastTouch(ks, Touches(ks, max)) && |Touches(ks, max)| <= max
    ensures k in Touches(ks, max) ==> k in ks
    ensures k in ks && k !in Touches(ks, max) ==> |Touches(ks, max)| == max && OlderThanAll(ks, k, Touches(ks, max))
  {
    RecencyListIsTheMostRecent(ks, max);
    LastTouchedInOrder(ks);
    LastTouchedHolds(ks, k);
    SuffixInOrder(ks, LastTouched(ks), Excess(LastTouched(ks), max), k);
  }

  lemma SuffixInOrder(ks: seq<string>, all: seq<string>, n: nat, k: string)
    requires ByLastTouch(ks, all) && n <= |all|
    ensures ByLastTouch(ks, all[n..]) && (k in all[n..] ==> k in all)
    ensures k in all && k !in all[n..] ==> n > 0 && OlderThanAll(ks, k, all[n..])
  {
    var l := all[n..];
    assert forall i :: 0 <= i < |l| ==> l[i] == all[n + i];
    forall m | n <= m < |all| ensures all[m] in l { assert l[m - n] == all[m]; }
  }

  lemma LastAtSnoc(ks: seq<string>, k: string, x: string)
    ensures LastAt(ks + [k], x) == if x == k then |ks| else LastAt(ks, x)
  {
    assert (ks + [k])[..|ks|] == ks;
  }

  lemma {:induction false} LastTouchedHolds(ks: seq<string>, k: string)
    ensures k in LastTouched(ks) <==> k in ks
  {
    if ks == [] {
    } else {
      LastTouchedHolds(ks[..|ks| - 1], k);
      assert ks == ks[..|ks| - 1] + [ks[|ks| - 1]];
    }
  }

  lemma {:induction false} LastTouchedInOrder(ks: seq<string>)
    ensures ByLastTouch(ks, LastTouched(ks))
  {
    if ks == [] {
    } else {
      var init, k := ks[..|ks| - 1], ks[|ks| - 1];
      LastTouchedInOrder(init);
      WithoutKeepsOrder(LastTouched(init), k, init);
      TouchedLastIsLast(init, k, Without(LastTouched(init), k));
      assert ks == init + [k];
    }
  }

  lemma TouchedLastIsLast(ks: seq<string>, k: string, l: seq<string>)
    requires ByLastTouch(ks, l) && k !in l
    ensures ByLastTouch(ks + [k], l + [k])
  {
    var all := l + [k];
    forall i, j | 0 <= i < j < |all| ensures LastAt(ks + [k], all[i]) < LastAt(ks + [k], all[j]) {
      assert all[i] == l[i] && l[i] in l;
      LastAtSnoc(ks, k, all[i]);
      LastAtSnoc(ks, k, all[j]);
      if j < |l| { assert all[j] == l[j] && l[j] in l; }
    }
  }

  lemma {:induction false} WithoutKeepsOrder(l: seq<string>, k: string, ks: seq<string>)
    requires ByLastTouch(ks, l)
    ensures ByLastTouch(ks, Without(l, k))
  {
    if l == [] {
    } else {
      var rest := l[1..];
      assert forall i :: 0 <= i < |rest| ==> rest[i] == l[i + 1];
      WithoutKeepsOrder(rest, k, ks);
      if l[0] != k {
        var w := Without(rest, k);
        forall j | 0 <= j < |w| ensures LastAt(ks, l[0]) < LastAt(ks, w[j]) {
          assert w[j] in w;
          var m :| 0 <= m < |rest| && rest[m] == w[j];
          assert l[m + 1] == w[j];
        }
        assert Without(l, k) == [l[0]] + w;
      }
    }
  }

  /** A hit and a write touch the key they end at; a miss touches nothing. */
  lemma WhatIsTouched(c: Config, s: State, o: Op, value: Option<Value>, status: nat, varyHeader: Option<string>)
    requires c.maxEntries > 0
    ensures AfterGet(c, s, o).1 == None ==> AfterGet(c, s, o).0 == s
    ensures AfterGet(c, s, o).1.Some? ==>
              ReadKey(c, s, o).Some? && AfterGet(c, s, o).0.lru == Touch(s.lru, ReadKey(c, s, o).value, c.maxEntries)
    ensures "*" !in NamesFor(c, varyHeader) ==>
              var lru := AfterSet(c, s, o, value, status, varyHeader).lru;
              lru != [] && lru[|lru| - 1] == WriteKey(c, o, NamesFor(c, varyHeader))
    ensures AfterGet(c, s, o).1.Some? ==>
              var lru := AfterGet(c, s, o).0.lru; lru != [] && lru[|lru| - 1] == ReadKey(c, s, o).value
  {
  }

  lemma NotTwice(l: seq<string>, n: nat, k: string)
    requires Unique(l) && n <= |l| && k in l[..n]
    ensures k !in l[n..]
  {
    var i :| 0 <= i < n && l[i] == k;
    assert forall j :: n <= j < |l| ==> l[j] != l[i];
  }
}
