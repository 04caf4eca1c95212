/** The cache key of a request: which parts of it the hashed seed tells apart, and which it
    must ignore (packages/core/src/cache.ts). */
module RequestKey {
  import opened Optional
  import opened Text
  import opened Canonical

  type Headers = seq<(string, string)>

  /** An absent body is `Undef`; a stitch scoped to the whole app has no principal. */
  datatype Descriptor = Descriptor(verb: string, url: string, body: JsVal, headers: Headers, principal: Option<string>)

  const NEVER_VARY: set<string> := {
    "authorization", "proxy-authorization", "cookie", "set-cookie", "x-api-key",
    "traceparent", "tracestate", "x-request-id", "x-correlation-id", "date"
  }

  const KEY_VERSION: string := "k2"

  function FindHeader(hs: Headers, lowerName: string): Option<string> {
    if hs == [] then None
    else if Lower(hs[0].0) == lowerName then Some(hs[0].1)
    else FindHeader(hs[1..], lowerName)
  }

  /** The first header of that name counts, in whatever case it is written. */
  lemma {:induction false} FindHeaderMeans(hs: Headers, h: string, i: nat)
    requires i < |hs| && Lower(hs[i].0) == h && forall j :: 0 <= j < i ==> Lower(hs[j].0) != h
    ensures FindHeader(hs, h) == Some(hs[i].1)
  {
    if i == 0 {
    } else {
      FindHeaderMeans(hs[1..], h, i - 1);
    }
  }

  lemma {:induction false} NoSuchHeader(hs: Headers, h: string)
    ensures FindHeader(hs, h) == None <==> forall j :: 0 <= j < |hs| ==> Lower(hs[j].0) != h
  {
    if hs == [] {
    } else {
      NoSuchHeader(hs[1..], h);
      assert forall j :: 1 <= j < |hs| ==> hs[j] == hs[1..][j - 1];
    }
  }

  /** Credentials, trace ids and the clock are what never varies a key. */
  lemma WhatNeverVaries(h: string)
    ensures h in NEVER_VARY <==>
              || h == "authorization" || h == "proxy-authorization" || h == "cookie" || h == "set-cookie" || h == "x-api-key"
              || h == "traceparent" || h == "tracestate" || h == "x-request-id" || h == "x-correlation-id" || h == "date"
  {
  }

  /** `obj[k] = v` on an insertion-ordered object. */
  function Assign(o: JsVal, k: string, v: JsVal): (r: JsVal)
    requires o.Obj?
    ensures r.Obj? && r.fields == o.fields[k := v]
  {
    Obj(if k in o.fields then o.keys else o.keys + [k], o.fields[k := v])
  }

  function VaryObject(hs: Headers, names: seq<string>): (r: JsVal)
    ensures r.Obj?
  {
    if names == [] then Obj([], map[])
    else
      var out := VaryObject(hs, names[..|names| - 1]);
      var lc := Lower(names[|names| - 1]);
      var val := FindHeader(hs, lc);
      if lc in NEVER_VARY || val == None then out else Assign(out, lc, Str(val.value))
  }

  method VaryHeaderObject(hs: Headers, names: seq<string>) returns (out: JsVal)
    ensures out == VaryObject(hs, names)
    ensures forall k :: k in out.fields <==> k in Lowers(names) && Varies(hs, k)
    ensures forall k :: k in out.fields ==> Some(out.fields[k]) == HeaderStr(hs, k)
  {
    out := Obj([], map[]);
    for n := 0 to |names|
      invariant out == VaryObject(hs, names[..n])
    {
      assert names[..n + 1][..n] == names[..n];
      var lc := Lower(names[n]);
      if lc in NEVER_VARY {
        continue;
      }
      var val := FindHeader(hs, lc);
      if val != None {
        out := Assign(out, lc, Str(val.value));
      }
    }
    assert names[..|names|] == names;
    VaryObjectHolds(hs, names);
  }

  function Lowers(names: seq<string>): seq<string> {
    if names == [] then [] else Lowers(names[..|names| - 1]) + [Lower(names[|names| - 1])]
  }

  function HeaderStr(hs: Headers, lc: string): Option<JsVal> {
    match FindHeader(hs, lc) case None => None case Some(v) => Some(Str(v))
  }

  predicate Varies(hs: Headers, lc: string) {
    lc !in NEVER_VARY && FindHeader(hs, lc) != None
  }

  /** The object holds exactly the named, present, allowed headers. */
  lemma {:induction false} VaryObjectHolds(hs: Headers, names: seq<string>)
    ensures var o := VaryObject(hs, names);
      && WellFormed(o) && Hashable(o)
      && (forall k :: k in o.fields <==> k in Lowers(names) && Varies(hs, k))
      && (forall k :: k in o.fields ==> Some(o.fields[k]) == HeaderStr(hs, k))
  {
    if names == [] {
    } else {
      var init := names[..|names| - 1];
      VaryObjectHolds(hs, init);
      AssignKeeps(VaryObject(hs, init), Lower(names[|names| - 1]));
    }
  }

  lemma AssignKeeps(o: JsVal, k: string)
    requires o.Obj? && WellFormed(o)
    ensures forall v :: v != Hole && WellFormed(v) ==> WellFormed(Assign(o, k, v))
  {
    if k !in o.fields { NoRepeatsSnoc(o.keys, k); }
  }

  lemma {:induction false} NoRepeatsSnoc(ks: seq<string>, k: string)
    requires NoRepeats(ks) && k !in ks
    ensures NoRepeats(ks + [k])
  {
    if ks == [] {
    } else {
      NoRepeatsSnoc(ks[1..], k);
      assert (ks + [k])[1..] == ks[1..] + [k];
    }
  }

  // ---- the seed ------------------------------------------------------------------

  function OptStr(o: Option<string>): JsVal {
    match o case None => Undef case Some(s) => Str(s)
  }

  function AssignIf(o: JsVal, cond: bool, k: string, v: JsVal): (r: JsVal)
    requires o.Obj?
    ensures r.Obj?
  {
    if cond then Assign(o, k, v) else o
  }

  /** The object `canonicalRequest` builds; `normalizeUrl` is the platform's URL parser. */
  function RequestParts(d: Descriptor, varyNames: seq<string>, normalizeUrl: string -> string): (r: JsVal)
    ensures r.Obj?
  {
    var parts := Obj(["x", "m", "u"],
      map["x" := Str(KEY_VERSION), "m" := Str(Upper(d.verb)), "u" := Str(normalizeUrl(d.url))]);
    var withBody := AssignIf(parts, d.body != Undef, "b", d.body);
    var h := VaryObject(d.headers, varyNames);
    var withVary := AssignIf(withBody, varyNames != [] && h.keys != [], "h", h);
    AssignIf(withVary, d.principal.Some?, "p", OptStr(d.principal))
  }

  /** What `deriveCacheKey` hashes: the request, or the caller's own key in its place. */
  function Seed(d: Descriptor, varyNames: seq<string>, userKey: Option<string>, normalizeUrl: string -> string): (r: JsVal)
    ensures r.Obj?
  {
    match userKey
    case Some(k) => Obj(["x", "k", "p"], map["x" := Str(KEY_VERSION), "k" := Str(k), "p" := OptStr(d.principal)])
    case None => RequestParts(d, varyNames, normalizeUrl)
  }

  datatype Derived = Key(k: string) | NotHashable | Throws

  function DeriveCacheKey(d: Descriptor, varyNames: seq<string>, userKey: Option<string>,
                          normalizeUrl: string -> string, xxh128: string -> string): Derived
  {
    match Stable(Seed(d, varyNames, userKey, normalizeUrl))
    case Text(seed) => Key(xxh128(seed))
    case Unhashable => NotHashable
    case RangeError => Throws
  }

  ghost predicate Proper(d: Descriptor) {
    WellFormed(d.body) && d.body != Hole
  }

  // ---- reading a seed's normal form ------------------------------------------------

  function Lookup(ms: seq<Member>, k: string): Option<Norm> {
    if ms == [] then None else if ms[0].key == k then Some(ms[0].value) else Lookup(ms[1..], k)
  }

  /** A member that `stable` prints. */
  function FieldOf(v: JsVal, k: string): Option<JsVal>
    requires v.Obj?
  {
    if k in v.fields && v.fields[k] != Undef then Some(v.fields[k]) else None
  }

  predicate SameMeaning(a: Option<JsVal>, b: Option<JsVal>) {
    a.Some? == b.Some? && (a.Some? ==> Normal(a.value) == Normal(b.value))
  }

  lemma {:induction false} LookupMembers(ks: seq<string>, v: JsVal, k: string)
    requires v.Obj? && forall x :: x in ks ==> x in v.fields
    ensures Lookup(Members(ks, v), k) == if k in ks then Some(Normal(v.fields[k])) else None
  {
    if ks == [] {
    } else {
      LookupMembers(ks[1..], v, k);
      assert Members(ks, v)[1..] == Members(ks[1..], v);
    }
  }

  lemma FieldsAgree(v: JsVal, w: JsVal, k: string)
    requires v.Obj? && w.Obj? && WellFormed(v) && WellFormed(w) && Normal(v) == Normal(w)
    ensures SameMeaning(FieldOf(v, k), FieldOf(w, k))
  {
    LookupMembers(SortKeys(Defined(v.keys, v.fields)), v, k);
    LookupMembers(SortKeys(Defined(w.keys, w.fields)), w, k);
  }

  lemma AssignIfKeeps(o: JsVal, cond: bool, k: string, v: JsVal)
    requires o.Obj? && WellFormed(o) && (cond ==> WellFormed(v) && v != Hole)
    ensures var r := AssignIf(o, cond, k, v);
      WellFormed(r) && (Hashable(o) && (cond ==> Hashable(v)) ==> Hashable(r))
  {
    AssignKeeps(o, k);
  }

  lemma BaseIsProper(x: string, m: string, u: string)
    ensures var o := Obj(["x", "m", "u"], map["x" := Str(x), "m" := Str(m), "u" := Str(u)]);
      WellFormed(o) && Hashable(o)
  {
    assert ["x", "m", "u"][1..] == ["m", "u"] && ["m", "u"][1..] == ["u"] && ["u"][1..] == [];
  }

  lemma SeedIsProper(d: Descriptor, names: seq<string>, userKey: Option<string>, url: string -> string)
    requires Proper(d)
    ensures var s := Seed(d, names, userKey, url);
      WellFormed(s) && (Hashable(d.body) || userKey.Some? ==> Hashable(s))
  {
    match userKey
    case None => RequestIsProper(d, names, url);
    case Some(k) => UserKeyIsProper(KEY_VERSION, k, OptStr(d.principal));
  }

  lemma UserKeyIsProper(version: string, k: string, p: JsVal)
    requires p.Str? || p == Undef
    ensures var o := Obj(["x", "k", "p"], map["x" := Str(version), "k" := Str(k), "p" := p]);
      WellFormed(o) && Hashable(o)
  {
    assert ["x", "k", "p"][1..] == ["k", "p"] && ["k", "p"][1..] == ["p"] && ["p"][1..] == [];
  }

  lemma RequestIsProper(d: Descriptor, names: seq<string>, url: string -> string)
    requires Proper(d)
    ensures var s := RequestParts(d, names, url); WellFormed(s) && (Hashable(d.body) ==> Hashable(s))
  {
    var h := VaryObject(d.headers, names);
    VaryObjectHolds(d.headers, names);
    var parts := Obj(["x", "m", "u"],
      map["x" := Str(KEY_VERSION), "m" := Str(Upper(d.verb)), "u" := Str(url(d.url))]);
    BaseIsProper(KEY_VERSION, Upper(d.verb), url(d.url));
    AssignIfKeeps(parts, d.body != Undef, "b", d.body);
    var withBody := AssignIf(parts, d.body != Undef, "b", d.body);
    AssignIfKeeps(withBody, names != [] && h.keys != [], "h", h);
    var withVary := AssignIf(withBody, names != [] && h.keys != [], "h", h);
    AssignIfKeeps(withVary, d.principal.Some?, "p", OptStr(d.principal));
  }

  lemma FieldOfAssignIf(o: JsVal, cond: bool, k: string, v: JsVal, x: string)
    requires o.Obj?
    ensures FieldOf(AssignIf(o, cond, k, v), x)
         == if cond && x == k then (if v == Undef then None else Some(v)) else FieldOf(o, x)
  {
  }

  /** What a request's seed holds under each of its keys. */
  function PartOf(d: Descriptor, names: seq<string>, url: string -> string, x: string): Option<JsVal> {
    var h := VaryObject(d.headers, names);
    if x == "x" then Some(Str(KEY_VERSION))
    else if x == "m" then Some(Str(Upper(d.verb)))
    else if x == "u" then Some(Str(url(d.url)))
    else if x == "b" then (if d.body == Undef then None else Some(d.body))
    else if x == "h" then (if h.keys == [] then None else Some(h))
    else if x == "p" then (match d.principal case None => None case Some(p) => Some(Str(p)))
    else None
  }

  lemma BaseField(version: string, m: string, u: string, k: string)
    ensures FieldOf(Obj(["x", "m", "u"], map["x" := Str(version), "m" := Str(m), "u" := Str(u)]), k)
         == if k == "x" then Some(Str(version)) else if k == "m" then Some(Str(m))
            else if k == "u" then Some(Str(u)) else None
  {
  }

  lemma RequestField(d: Descriptor, names: seq<string>, url: string -> string, x: string)
    ensures FieldOf(RequestParts(d, names, url), x) == PartOf(d, names, url, x)
  {
    var h := VaryObject(d.headers, names);
    if names == [] { assert h.keys == []; }
    var parts := Obj(["x", "m", "u"],
      map["x" := Str(KEY_VERSION), "m" := Str(Upper(d.verb)), "u" := Str(url(d.url))]);
    BaseField(KEY_VERSION, Upper(d.verb), url(d.url), x);
    FieldOfAssignIf(parts, d.body != Undef, "b", d.body, x);
    var withBody := AssignIf(parts, d.body != Undef, "b", d.body);
    FieldOfAssignIf(withBody, names != [] && h.keys != [], "h", h, x);
    var withVary := AssignIf(withBody, names != [] && h.keys != [], "h", h);
    FieldOfAssignIf(withVary, d.principal.Some?, "p", OptStr(d.principal), x);
  }

  /** What any seed says about its principal and its key mode. */
  lemma SeedModeFields(d: Descriptor, names: seq<string>, userKey: Option<string>, url: string -> string)
    ensures var s := Seed(d, names, userKey, url);
      && FieldOf(s, "p") == (match d.principal case None => None case Some(p) => Some(Str(p)))
      && FieldOf(s, "k") == (match userKey case None => None case Some(k) => Some(Str(k)))
  {
    RequestField(d, names, url, "p");
    RequestField(d, names, url, "k");
  }

  /** All a seed says, under each of its keys. */
  ghost predicate Says(s: JsVal, d: Descriptor, names: seq<string>, userKey: Option<string>, url: string -> string) {
    && s.Obj? && WellFormed(s)
    && FieldOf(s, "p") == (match d.principal case None => None case Some(p) => Some(Str(p)))
    && FieldOf(s, "k") == (match userKey case None => None case Some(k) => Some(Str(k)))
    && (userKey == None ==>
          && FieldOf(s, "m") == Some(Str(Upper(d.verb)))
          && FieldOf(s, "u") == Some(Str(url(d.url)))
          && FieldOf(s, "b") == (if d.body == Undef then None else Some(d.body))
          && FieldOf(s, "h") == (if VaryObject(d.headers, names).keys == [] then None
                                 else Some(VaryObject(d.headers, names))))
  }

  lemma SeedSays(d: Descriptor, names: seq<string>, userKey: Option<string>, url: string -> string)
    requires Proper(d)
    ensures Says(Seed(d, names, userKey, url), d, names, userKey, url)
  {
    SeedIsProper(d, names, userKey, url);
    SeedModeFields(d, names, userKey, url);
    if userKey == None { RequestSays(d, names, url); }
  }

  lemma RequestSays(d: Descriptor, names: seq<string>, url: string -> string)
    ensures var s := RequestParts(d, names, url);
      && FieldOf(s, "m") == Some(Str(Upper(d.verb)))
      && FieldOf(s, "u") == Some(Str(url(d.url)))
      && FieldOf(s, "b") == (if d.body == Undef then None else Some(d.body))
      && FieldOf(s, "h") == (if VaryObject(d.headers, names).keys == [] then None
                             else Some(VaryObject(d.headers, names)))
  {
    RequestField(d, names, url, "m");
    RequestField(d, names, url, "u");
    RequestField(d, names, url, "b");
    RequestField(d, names, url, "h");
  }

  lemma EqualTextsSameNormal(s: JsVal, t: JsVal)
    requires WellFormed(s) && WellFormed(t) && s.Obj? && t.Obj? && Stable(s).Text? && Stable(s) == Stable(t)
    ensures Normal(s) == Normal(t)
  {
    TextIffHashable(s);
    TextIffHashable(t);
    StableIffSameNormalForm(s, t);
  }

  // ---- when key derivation throws --------------------------------------------------

  lemma {:induction false} OneBadField(ks: seq<string>, v: JsVal, k: string)
    requires v.Obj? && WellFormed(v) && k in ks && forall x :: x in ks ==> x in v.fields && (x == k || Hashable(v.fields[x]))
    requires !Stable(v.fields[k]).Text?
    ensures StableFields(ks, v) == Fails(Stable(v.fields[k]))
  {
    if ks[0] == k {
    } else {
      TextIffHashable(v.fields[ks[0]]);
      OneBadField(ks[1..], v, k);
    }
  }

  lemma OtherPartsAreHashable(d: Descriptor, names: seq<string>, url: string -> string, x: string)
    requires x in RequestParts(d, names, url).fields && RequestParts(d, names, url).fields[x] != Undef && x != "b"
    ensures Hashable(RequestParts(d, names, url).fields[x])
  {
    RequestField(d, names, url, x);
    VaryObjectHolds(d.headers, names);
  }

  lemma BadBodyDecides(d: Descriptor, names: seq<string>, url: string -> string)
    requires Proper(d) && !Stable(d.body).Text?
    ensures Stable(RequestParts(d, names, url)) == Stable(d.body)
  {
    RequestIsProper(d, names, url);
    BodyIsAPart(d, names, url);
    OthersAreHashable(d, names, url);
    BadFieldDecides(RequestParts(d, names, url), "b");
  }

  lemma BodyIsAPart(d: Descriptor, names: seq<string>, url: string -> string)
    requires d.body != Undef
    ensures var s := RequestParts(d, names, url); "b" in s.fields && s.fields["b"] == d.body
  {
    RequestField(d, names, url, "b");
  }

  lemma OthersAreHashable(d: Descriptor, names: seq<string>, url: string -> string)
    ensures var s := RequestParts(d, names, url);
      forall x :: x in s.fields && s.fields[x] != Undef && x != "b" ==> Hashable(s.fields[x])
  {
    var s := RequestParts(d, names, url);
    forall x | x in s.fields && s.fields[x] != Undef && x != "b" ensures Hashable(s.fields[x]) {
      OtherPartsAreHashable(d, names, url, x);
    }
  }

  lemma BadFieldDecides(v: JsVal, k: string)
    requires v.Obj? && WellFormed(v) && k in v.fields && v.fields[k] != Undef && !Stable(v.fields[k]).Text?
    requires forall x :: x in v.fields && v.fields[x] != Undef && x != k ==> Hashable(v.fields[x])
    ensures Stable(v) == Stable(v.fields[k])
  {
    OneBadField(SortKeys(Defined(v.keys, v.fields)), v, k);
  }

  /** The derivation throws exactly when no user key stands in for the body and serialising the
      body meets an invalid date before anything unhashable. */
  lemma KeyThrowsIff(d: Descriptor, names: seq<string>, userKey: Option<string>, url: string -> string, xxh128: string -> string)
    requires Proper(d)
    ensures DeriveCacheKey(d, names, userKey, url, xxh128) == Throws <==> userKey == None && Stable(d.body) == RangeError
  {
    SeedIsProper(d, names, userKey, url);
    TextIffHashable(Seed(d, names, userKey, url));
    TextIffHashable(d.body);
    if userKey == None && !Stable(d.body).Text? { BadBodyDecides(d, names, url); }
  }

  /** In terms of the body: the derivation throws only for an invalid date inside it, and for a body
      without functions, symbols and foreign objects exactly for one. */
  lemma KeyThrowsIffDateInside(d: Descriptor, names: seq<string>, userKey: Option<string>,
                               url: string -> string, xxh128: string -> string)
    requires Proper(d)
    ensures DeriveCacheKey(d, names, userKey, url, xxh128) == Throws ==> userKey == None && HoldsBadDate(d.body)
    ensures NoOpaque(d.body) ==>
              (DeriveCacheKey(d, names, userKey, url, xxh128) == Throws <==> userKey == None && HoldsBadDate(d.body))
  {
    KeyThrowsIff(d, names, userKey, url, xxh128);
    RangeErrorMeansBadDate(d.body);
  }

  /** A request has a key exactly if its body can be hashed, or the caller's own key stands in for it. */
  lemma KeyIffHashable(d: Descriptor, names: seq<string>, userKey: Option<string>, url: string -> string, xxh128: string -> string)
    requires Proper(d)
    ensures DeriveCacheKey(d, names, userKey, url, xxh128).Key? <==> userKey.Some? || Hashable(d.body)
  {
    SeedIsProper(d, names, userKey, url);
    TextIffHashable(Seed(d, names, userKey, url));
    TextIffHashable(d.body);
    if userKey == None && !Hashable(d.body) { BadBodyDecides(d, names, url); }
  }

  /** Equal seeds mean the same principal and the same key mode; with a user key, the same
      user key; without, the same method, URL, body and varied headers. */
  lemma EqualSeedsMeanSameRequest(d: Descriptor, n1: seq<string>, k1: Option<string>,
                                  e: Descriptor, n2: seq<string>, k2: Option<string>, url: string -> string)
    requires Proper(d) && Proper(e)
    ensures Stable(Seed(d, n1, k1, url)).Text? && Stable(Seed(d, n1, k1, url)) == Stable(Seed(e, n2, k2, url)) ==>
              d.principal == e.principal && k1 == k2 && (k1 == None ==> SameRequest(d, n1, e, n2, url))
  {
    var s, t := Seed(d, n1, k1, url), Seed(e, n2, k2, url);
    SeedSays(d, n1, k1, url);
    SeedSays(e, n2, k2, url);
    if Stable(s).Text? && Stable(s) == Stable(t) {
      EqualTextsSameNormal(s, t);
      SameSayings(s, d, n1, k1, t, e, n2, k2, url);
    }
  }

  ghost predicate SameRequest(d: Descriptor, n1: seq<string>, e: Descriptor, n2: seq<string>, url: string -> string) {
    && Upper(d.verb) == Upper(e.verb) && url(d.url) == url(e.url)
    && (d.body == Undef <==> e.body == Undef) && Normal(d.body) == Normal(e.body)
    && VaryObject(d.headers, n1).fields == VaryObject(e.headers, n2).fields
  }

  lemma SameSayings(s: JsVal, d: Descriptor, n1: seq<string>, k1: Option<string>,
                    t: JsVal, e: Descriptor, n2: seq<string>, k2: Option<string>, url: string -> string)
    requires Says(s, d, n1, k1, url) && Says(t, e, n2, k2, url) && Normal(s) == Normal(t)
    ensures d.principal == e.principal && k1 == k2
    ensures k1 == None ==> SameRequest(d, n1, e, n2, url)
  {
    SameOptionalText(s, t, "p", d.principal, e.principal);
    SameOptionalText(s, t, "k", k1, k2);
    if k1 == None {
      SameText(s, t, "m", Upper(d.verb), Upper(e.verb));
      SameText(s, t, "u", url(d.url), url(e.url));
      SameValue(s, t, "b", d.body, e.body, d.body == Undef, e.body == Undef);
      var v, w := VaryObject(d.headers, n1), VaryObject(e.headers, n2);
      SameValue(s, t, "h", v, w, v.keys == [], w.keys == []);
      SameVaryFields(d.headers, n1, e.headers, n2);
    }
  }

  lemma SameText(s: JsVal, t: JsVal, k: string, x: string, y: string)
    requires s.Obj? && t.Obj? && WellFormed(s) && WellFormed(t) && Normal(s) == Normal(t)
    requires FieldOf(s, k) == Some(Str(x)) && FieldOf(t, k) == Some(Str(y))
    ensures x == y
  {
    FieldsAgree(s, t, k);
    SameStr(x, y);
  }

  lemma SameStr(x: string, y: string)
    requires Normal(Str(x)) == Normal(Str(y))
    ensures x == y
  {
  }

  lemma SameOptionalText(s: JsVal, t: JsVal, k: string, x: Option<string>, y: Option<string>)
    requires s.Obj? && t.Obj? && WellFormed(s) && WellFormed(t) && Normal(s) == Normal(t)
    requires FieldOf(s, k) == (match x case None => None case Some(z) => Some(Str(z)))
    requires FieldOf(t, k) == (match y case None => None case Some(z) => Some(Str(z)))
    ensures x == y
  {
    FieldsAgree(s, t, k);
    if x.Some? && y.Some? { SameStr(x.value, y.value); }
  }

  lemma SameValue(s: JsVal, t: JsVal, k: string, v: JsVal, w: JsVal, noV: bool, noW: bool)
    requires s.Obj? && t.Obj? && WellFormed(s) && WellFormed(t) && Normal(s) == Normal(t)
    requires FieldOf(s, k) == (if noV then None else Some(v)) && FieldOf(t, k) == (if noW then None else Some(w))
    ensures noV == noW && (noV || Normal(v) == Normal(w))
  {
    FieldsAgree(s, t, k);
  }

  lemma SameVaryField(h1: Headers, n1: seq<string>, h2: Headers, n2: seq<string>, k: string)
    requires Normal(VaryObject(h1, n1)) == Normal(VaryObject(h2, n2)) && k in VaryObject(h1, n1).fields
    ensures k in VaryObject(h2, n2).fields && VaryObject(h1, n1).fields[k] == VaryObject(h2, n2).fields[k]
  {
    var v, w := VaryObject(h1, n1), VaryObject(h2, n2);
    var x := VaryFieldIsText(h1, n1, k);
    VaryObjectHolds(h2, n2);
    FieldsAgree(v, w, k);
    var y := VaryFieldIsText(h2, n2, k);
    SameStr(x, y);
  }

  lemma VaryFieldIsText(hs: Headers, names: seq<string>, k: string) returns (s: string)
    requires k in VaryObject(hs, names).fields
    ensures WellFormed(VaryObject(hs, names)) && VaryObject(hs, names).fields[k] == Str(s)
  {
    VaryObjectHolds(hs, names);
    s := FindHeader(hs, k).value;
  }

  lemma SameVaryFields(h1: Headers, n1: seq<string>, h2: Headers, n2: seq<string>)
    requires var v, w := VaryObject(h1, n1), VaryObject(h2, n2);
      (v.keys == [] && w.keys == []) || (v.keys != [] && w.keys != [] && Normal(v) == Normal(w))
    ensures VaryObject(h1, n1).fields == VaryObject(h2, n2).fields
  {
    var v, w := VaryObject(h1, n1), VaryObject(h2, n2);
    if v.keys != [] {
      forall k | k in v.fields ensures k in w.fields && v.fields[k] == w.fields[k] { SameVaryField(h1, n1, h2, n2, k); }
      forall k | k in w.fields ensures k in v.fields { SameVaryField(h2, n2, h1, n1, k); }
    } else {
      VaryObjectHolds(h1, n1);
      VaryObjectHolds(h2, n2);
    }
  }

  // ---- and only that ---------------------------------------------------------------

  lemma NoUndefinedPart(d: Descriptor, names: seq<string>, url: string -> string, k: string)
    requires k in RequestParts(d, names, url).fields
    ensures RequestParts(d, names, url).fields[k] != Undef
  {
  }

  lemma PartsMatch(d: Descriptor, n1: seq<string>, e: Descriptor, n2: seq<string>, url: string -> string, k: string)
    requires d.principal == e.principal && SameRequest(d, n1, e, n2, url)
    ensures SameMeaning(PartOf(d, n1, url, k), PartOf(e, n2, url, k))
  {
    if k == "h" { VaryObjectsMatch(d.headers, n1, e.headers, n2); }
  }

  lemma VaryObjectsMatch(h1: Headers, n1: seq<string>, h2: Headers, n2: seq<string>)
    requires VaryObject(h1, n1).fields == VaryObject(h2, n2).fields
    ensures VaryObject(h1, n1).keys == [] <==> VaryObject(h2, n2).keys == []
    ensures Normal(VaryObject(h1, n1)) == Normal(VaryObject(h2, n2))
  {
    var v, w := VaryObject(h1, n1), VaryObject(h2, n2);
    VaryObjectHolds(h1, n1);
    VaryObjectHolds(h2, n2);
    assert v.keys != [] ==> v.keys[0] in w.keys;
    assert w.keys != [] ==> w.keys[0] in v.keys;
    SameObject(v, w);
  }

  lemma HasPart(d: Descriptor, names: seq<string>, url: string -> string, k: string)
    ensures k in RequestParts(d, names, url).fields <==> PartOf(d, names, url, k).Some?
    ensures k in RequestParts(d, names, url).fields ==>
              Some(RequestParts(d, names, url).fields[k]) == PartOf(d, names, url, k)
  {
    RequestField(d, names, url, k);
    if k in RequestParts(d, names, url).fields { NoUndefinedPart(d, names, url, k); }
  }

  lemma SameRequestSameNormal(d: Descriptor, n1: seq<string>, e: Descriptor, n2: seq<string>, url: string -> string)
    requires Proper(d) && Proper(e) && d.principal == e.principal && SameRequest(d, n1, e, n2, url)
    ensures Normal(RequestParts(d, n1, url)) == Normal(RequestParts(e, n2, url))
  {
    var v, w := RequestParts(d, n1, url), RequestParts(e, n2, url);
    RequestIsProper(d, n1, url);
    RequestIsProper(e, n2, url);
    forall k
      ensures k in v.fields <==> k in w.fields
      ensures k in v.fields ==> Normal(v.fields[k]) == Normal(w.fields[k]) && (v.fields[k] == Undef <==> w.fields[k] == Undef)
    {
      HasPart(d, n1, url, k);
      HasPart(e, n2, url, k);
      PartsMatch(d, n1, e, n2, url, k);
      if k in v.fields { NoUndefinedPart(d, n1, url, k); NoUndefinedPart(e, n2, url, k); }
    }
    assert v.fields.Keys == w.fields.Keys;
    SameObject(v, w);
  }

  /** For bodies that can be hashed, seeds are equal exactly when principal, key mode and what they
      stand for are: nothing else about a request enters its key. */
  lemma SeedsAgreeIff(d: Descriptor, n1: seq<string>, k1: Option<string>,
                      e: Descriptor, n2: seq<string>, k2: Option<string>, url: string -> string)
    requires Proper(d) && Proper(e) && Hashable(d.body) && Hashable(e.body)
    ensures Stable(Seed(d, n1, k1, url)) == Stable(Seed(e, n2, k2, url)) <==>
              d.principal == e.principal && k1 == k2 && (k1 == None ==> SameRequest(d, n1, e, n2, url))
  {
    var s, t := Seed(d, n1, k1, url), Seed(e, n2, k2, url);
    SeedIsProper(d, n1, k1, url);
    SeedIsProper(e, n2, k2, url);
    TextIffHashable(s);
    TextIffHashable(t);
    EqualSeedsMeanSameRequest(d, n1, k1, e, n2, k2, url);
    if d.principal == e.principal && k1 == None && k2 == None && SameRequest(d, n1, e, n2, url) {
      SameRequestSameNormal(d, n1, e, n2, url);
      StableIffSameNormalForm(s, t);
    }
  }

  /** Two header lists that agree on every configured name, whatever else they hold. */
  ghost predicate AgreeOn(hs: Headers, gs: Headers, names: seq<string>) {
    forall n :: n in names ==> FindHeader(hs, Lower(n)) == FindHeader(gs, Lower(n))
  }

  lemma {:induction false} AgreeingHeadersOneObject(hs: Headers, gs: Headers, names: seq<string>)
    requires AgreeOn(hs, gs, names)
    ensures VaryObject(hs, names) == VaryObject(gs, names)
  {
    if names == [] {
    } else {
      assert names[|names| - 1] in names;
      AgreeingHeadersOneObject(hs, gs, names[..|names| - 1]);
    }
  }

  /** No header outside the configured list enters the key, whatever the response varies by. */
  lemma UnlistedHeadersNeverMatter(d: Descriptor, hs: Headers, names: seq<string>, k: Option<string>,
                                   url: string -> string, xxh128: string -> string)
    requires AgreeOn(d.headers, hs, names)
    ensures DeriveCacheKey(d, names, k, url, xxh128) == DeriveCacheKey(d.(headers := hs), names, k, url, xxh128)
  {
    AgreeingHeadersOneObject(d.headers, hs, names);
  }

  /** Two different seed texts with one digest. */
  predicate SeedsCollide(d: Descriptor, n1: seq<string>, k1: Option<string>,
                         e: Descriptor, n2: seq<string>, k2: Option<string>, url: string -> string, xxh128: string -> string)
  {
    var s, t := Stable(Seed(d, n1, k1, url)), Stable(Seed(e, n2, k2, url));
    s.Text? && t.Text? && s != t && xxh128(s.s) == xxh128(t.s)
  }

  /** Requests that share a key have one principal and one key mode — unless two different
      seeds have the same digest. */
  lemma KeysIsolatePrincipals(d: Descriptor, n1: seq<string>, k1: Option<string>,
                              e: Descriptor, n2: seq<string>, k2: Option<string>,
                              url: string -> string, xxh128: string -> string)
    requires Proper(d) && Proper(e)
    ensures var key := DeriveCacheKey(d, n1, k1, url, xxh128);
      key.Key? && key == DeriveCacheKey(e, n2, k2, url, xxh128) ==>
            || (d.principal == e.principal && k1 == k2 && (k1 == None ==> SameRequest(d, n1, e, n2, url)))
            || SeedsCollide(d, n1, k1, e, n2, k2, url, xxh128)
  {
    EqualSeedsMeanSameRequest(d, n1, k1, e, n2, k2, url);
  }

  /** Headers that must never enter a key can take any value without changing it. */
  lemma {:induction false} NeverVaryHeadersAreIgnored(hs: Headers, gs: Headers, names: seq<string>)
    requires forall lc :: lc !in NEVER_VARY ==> FindHeader(hs, lc) == FindHeader(gs, lc)
    ensures VaryObject(hs, names) == VaryObject(gs, names)
  {
    if names == [] {
    } else {
      NeverVaryHeadersAreIgnored(hs, gs, names[..|names| - 1]);
    }
  }

  lemma SecretsNeverAffectTheSeed(d: Descriptor, gs: Headers, names: seq<string>, k: Option<string>, url: string -> string)
    requires forall lc :: lc !in NEVER_VARY ==> FindHeader(d.headers, lc) == FindHeader(gs, lc)
    ensures Seed(d, names, k, url) == Seed(d.(headers := gs), names, k, url)
  {
    NeverVaryHeadersAreIgnored(d.headers, gs, names);
  }
}
