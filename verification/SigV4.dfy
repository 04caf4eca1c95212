/** AWS SigV4 canonicalisation of packages/aws-sigv4/src/index.ts: percent-encoding, the
    canonical path and query, and the canonical request they are assembled into. */
module SigV4 {
  import opened Optional
  import opened Text

  // ---- UTF-8 (section 3 of RFC 3629) and its left inverse ---------------------

  type Byte = b: int | 0 <= b < 256

  function Utf8(c: char): (r: seq<Byte>)
    ensures |r| > 0
  {
    var n := c as int;
    if n < 0x80 then [n]
    else if n < 0x800 then [0xC0 + n / 64, 0x80 + n % 64]
    else if n < 0x10000 then [0xE0 + n / 4096, 0x80 + n / 64 % 64, 0x80 + n % 64]
    else [0xF0 + n / 262144, 0x80 + n / 4096 % 64, 0x80 + n / 64 % 64, 0x80 + n % 64]
  }

  function Utf8All(s: string): seq<Byte> {
    if s == "" then [] else Utf8(s[0]) + Utf8All(s[1..])
  }

  function Scalar(n: int): Option<char> {
    if 0 <= n < 0xD800 || 0xE000 <= n < 0x110000 then Some(n as char) else None
  }

  /** The payload of a continuation byte. */
  function Tail(b: int): int {
    b - 0x80
  }

  /** The first character of a byte string, and how many bytes it took. */
  function FirstChar(bs: seq<Byte>): Option<(char, nat)>
    requires bs != []
    ensures FirstChar(bs).Some? ==> 0 < FirstChar(bs).value.1 <= |bs|
  {
    var need := if bs[0] < 0x80 then 1 else if bs[0] < 0xE0 then 2 else if bs[0] < 0xF0 then 3 else 4;
    if |bs| < need then None
    else
      var lead: int := bs[0];
      var n :=
        if need == 1 then lead
        else if need == 2 then (lead - 0xC0) * 64 + Tail(bs[1])
        else if need == 3 then (lead - 0xE0) * 4096 + Tail(bs[1]) * 64 + Tail(bs[2])
        else (lead - 0xF0) * 262144 + Tail(bs[1]) * 4096 + Tail(bs[2]) * 64 + Tail(bs[3]);
      match Scalar(n) case None => None case Some(c) => Some((c, need))
  }

  function Utf8Decode(bs: seq<Byte>): Option<string> {
    if bs == [] then Some("")
    else match FirstChar(bs)
      case None => None
      case Some((c, n)) =>
        match Utf8Decode(bs[n..]) case None => None case Some(s) => Some([c] + s)
  }

  lemma FirstCharReadsBack(c: char, rest: seq<Byte>)
    ensures FirstChar(Utf8(c) + rest) == Some((c, |Utf8(c)|))
  {
    var n, bs := c as int, Utf8(c) + rest;
    assert forall i :: 0 <= i < |Utf8(c)| ==> bs[i] == Utf8(c)[i];
    SixBitGroups(n);
  }

  lemma SixBitGroups(n: nat)
    ensures n == n / 64 * 64 + n % 64
    ensures n == n / 4096 * 4096 + n / 64 % 64 * 64 + n % 64
    ensures n == n / 262144 * 262144 + n / 4096 % 64 * 4096 + n / 64 % 64 * 64 + n % 64
  {
    var a := n / 64;
    var b := a / 64;
    assert n == a * 64 + n % 64;
    assert a == b * 64 + a % 64;
    assert b == b / 64 * 64 + b % 64;
    assert n / 4096 == b;
    assert n / 262144 == b / 64;
  }

  lemma {:induction false} Utf8RoundTrip(s: string)
    ensures Utf8Decode(Utf8All(s)) == Some(s)
  {
    if s == "" {
    } else {
      Utf8RoundTrip(s[1..]);
      FirstCharReadsBack(s[0], Utf8All(s[1..]));
      assert (Utf8(s[0]) + Utf8All(s[1..]))[|Utf8(s[0])|..] == Utf8All(s[1..]);
      assert s == [s[0]] + s[1..];
    }
  }

  // ---- percent-encoding (section 2.1 of RFC 3986, AWS-strict) ------------------

  predicate Unreserved(c: char) {
    'A' <= c <= 'Z' || 'a' <= c <= 'z' || '0' <= c <= '9' || c == '-' || c == '_' || c == '.' || c == '~'
  }

  function HexDigit(n: int): char
    requires 0 <= n < 16
  {
    if n < 10 then (48 + n) as char else (55 + n) as char
  }

  function HexValue(c: char): int {
    if '0' <= c <= '9' then c as int - 48 else if 'A' <= c <= 'F' then c as int - 55 else -1
  }

  function Percent(bs: seq<Byte>): string {
    if bs == [] then "" else ['%', HexDigit(bs[0] / 16), HexDigit(bs[0] % 16)] + Percent(bs[1..])
  }

  function EncodeChar(c: char, encodeSlash: bool): string {
    if Unreserved(c) || (c == '/' && !encodeSlash) then [c] else Percent(Utf8(c))
  }

  function Encoded(value: string, encodeSlash: bool): string {
    if value == "" then "" else EncodeChar(value[0], encodeSlash) + Encoded(value[1..], encodeSlash)
  }

  method UriEncode(value: string, encodeSlash: bool) returns (out: string)
    ensures out == Encoded(value, encodeSlash)
    ensures Decode(out) == Some(value)
  {
    out := "";
    assert value[0..] == value;
    for i := 0 to |value|
      invariant out + Encoded(value[i..], encodeSlash) == Encoded(value, encodeSlash)
    {
      EncodedStep(out, value, i, encodeSlash);
      out := AppendChar(out, value[i], encodeSlash);
    }
    assert value[|value|..] == "";
    UriEncodeRoundTrip(value, encodeSlash);
  }

  /** The branches of the loop body. */
  method AppendChar(was: string, ch: char, encodeSlash: bool) returns (out: string)
    ensures out == was + EncodeChar(ch, encodeSlash)
  {
    if Unreserved(ch) {
      out := was + [ch];
    } else if ch == '/' && !encodeSlash {
      out := was + [ch];
    } else {
      out := AppendPercent(was, Utf8(ch));
    }
  }

  lemma EncodedStep(out: string, value: string, i: nat, encodeSlash: bool)
    requires i < |value|
    ensures out + Encoded(value[i..], encodeSlash)
         == out + EncodeChar(value[i], encodeSlash) + Encoded(value[i + 1..], encodeSlash)
  {
    assert value[i..][1..] == value[i + 1..];
    Assoc(out, EncodeChar(value[i], encodeSlash), Encoded(value[i + 1..], encodeSlash));
  }

  /** The inner loop over the bytes of one character. */
  method AppendPercent(was: string, bs: seq<Byte>) returns (out: string)
    ensures out == was + Percent(bs)
  {
    out := was;
    for i := 0 to |bs|
      invariant out + Percent(bs[i..]) == was + Percent(bs)
    {
      assert bs[i..][1..] == bs[i + 1..];
      out := out + ['%', HexDigit(bs[i] / 16), HexDigit(bs[i] % 16)];
    }
  }

  /** Percent-decoding, to bytes. */
  function PercentDecode(s: string): Option<seq<Byte>> {
    if s == "" then Some([])
    else if s[0] == '%' then
      if |s| < 3 || HexValue(s[1]) < 0 || HexValue(s[2]) < 0 then None
      else match PercentDecode(s[3..])
        case None => None
        case Some(bs) => Some([16 * HexValue(s[1]) + HexValue(s[2])] + bs)
    else match PercentDecode(s[1..])
      case None => None
      case Some(bs) => Some(Utf8(s[0]) + bs)
  }

  function Decode(s: string): Option<string> {
    match PercentDecode(s) case None => None case Some(bs) => Utf8Decode(bs)
  }

  lemma HexReadsBack(b: Byte)
    ensures 16 * HexValue(HexDigit(b / 16)) + HexValue(HexDigit(b % 16)) == b
  {
  }

  lemma TripleReadsBack(b: Byte, rest: string)
    requires PercentDecode(rest).Some?
    ensures PercentDecode(['%', HexDigit(b / 16), HexDigit(b % 16)] + rest) == Some([b] + PercentDecode(rest).value)
  {
    var s := ['%', HexDigit(b / 16), HexDigit(b % 16)] + rest;
    assert s[3..] == rest;
    HexReadsBack(b);
  }

  lemma {:induction false} PercentReadsBack(bs: seq<Byte>, rest: string)
    requires PercentDecode(rest).Some?
    ensures PercentDecode(Percent(bs) + rest) == Some(bs + PercentDecode(rest).value)
  {
    var was := PercentDecode(rest).value;
    if bs == [] {
      assert Percent(bs) + rest == rest && bs + was == was;
    } else {
      PercentReadsBack(bs[1..], rest);
      var triple := ['%', HexDigit(bs[0] / 16), HexDigit(bs[0] % 16)];
      Assoc(triple, Percent(bs[1..]), rest);
      TripleReadsBack(bs[0], Percent(bs[1..]) + rest);
      Assoc([bs[0]], bs[1..], was);
      assert bs == [bs[0]] + bs[1..];
    }
  }

  lemma {:induction false} PercentRoundTrip(s: string, encodeSlash: bool)
    ensures PercentDecode(Encoded(s, encodeSlash)) == Some(Utf8All(s))
  {
    if s == "" {
    } else {
      PercentRoundTrip(s[1..], encodeSlash);
      var rest := Encoded(s[1..], encodeSlash);
      if Unreserved(s[0]) || (s[0] == '/' && !encodeSlash) {
        assert ([s[0]] + rest)[1..] == rest;
      } else {
        PercentReadsBack(Utf8(s[0]), rest);
      }
    }
  }

  /** `uriEncode` is undone by percent-decoding, with or without slashes encoded. */
  lemma UriEncodeRoundTrip(s: string, encodeSlash: bool)
    ensures Decode(Encoded(s, encodeSlash)) == Some(s)
  {
    PercentRoundTrip(s, encodeSlash);
    Utf8RoundTrip(s);
  }

  /** Only unreserved characters, `%XX` triples and (when kept) slashes. */
  predicate Strict(s: string, slash: bool) {
    if s == "" then true
    else if s[0] == '%' then
      |s| >= 3 && HexValue(s[1]) >= 0 && HexValue(s[2]) >= 0 && Strict(s[3..], slash)
    else (Unreserved(s[0]) || (slash && s[0] == '/')) && Strict(s[1..], slash)
  }

  lemma {:induction false} PercentIsStrict(bs: seq<Byte>, rest: string, slash: bool)
    requires Strict(rest, slash)
    ensures Strict(Percent(bs) + rest, slash)
  {
    if bs == [] {
      assert Percent(bs) + rest == rest;
    } else {
      PercentIsStrict(bs[1..], rest, slash);
      assert (Percent(bs) + rest)[3..] == Percent(bs[1..]) + rest;
    }
  }

  lemma {:induction false} EncodedIsStrict(s: string, encodeSlash: bool)
    ensures Strict(Encoded(s, encodeSlash), !encodeSlash)
  {
    if s == "" {
    } else {
      EncodedIsStrict(s[1..], encodeSlash);
      PercentIsStrict(Utf8(s[0]), Encoded(s[1..], encodeSlash), !encodeSlash);
      assert ([s[0]] + Encoded(s[1..], encodeSlash))[1..] == Encoded(s[1..], encodeSlash);
    }
  }

  lemma {:induction false} StrictChars(s: string, slash: bool, c: char)
    requires Strict(s, slash) && c in s
    ensures Unreserved(c) || c == '%' || (slash && c == '/')
  {
    if s[0] == '%' {
      assert s == s[..3] + s[3..];
      if c in s[3..] { StrictChars(s[3..], slash, c); }
    } else if c != s[0] {
      StrictChars(s[1..], slash, c);
    }
  }

  lemma EncodedOmits(s: string, c: char)
    requires !Unreserved(c) && c != '%'
    ensures c !in Encoded(s, true)
  {
    EncodedIsStrict(s, true);
    if c in Encoded(s, true) { StrictChars(Encoded(s, true), false, c); }
  }

  // ---- the canonical path --------------------------------------------------

  function EncodeAll(segs: seq<string>): (r: seq<string>)
    ensures |r| == |segs| && forall i :: 0 <= i < |segs| ==> r[i] == Encoded(segs[i], true)
  {
    seq(|segs|, i requires 0 <= i < |segs| => Encoded(segs[i], true))
  }

  function CanonicalUri(pathname: string): string {
    if pathname == "" then "/" else Join(EncodeAll(Split(pathname, '/')), "/")
  }

  lemma JoinHead(a: string, e: seq<string>, sep: string)
    requires e != []
    ensures Join([a + e[0]] + e[1..], sep) == a + Join(e, sep)
  {
    assert ([a + e[0]] + e[1..])[1..] == e[1..];
    if |e| > 1 { assert a + e[0] + sep + Join(e[1..], sep) == a + (e[0] + sep + Join(e[1..], sep)); }
  }

  lemma EncodeAllHead(seg: string, segs: seq<string>)
    ensures EncodeAll([seg] + segs) == [Encoded(seg, true)] + EncodeAll(segs)
  {
  }

  /** A slash starts a new segment, so it is kept. */
  lemma SlashKept(segs: seq<string>)
    requires segs != []
    ensures Join(EncodeAll([""] + segs), "/") == "/" + Join(EncodeAll(segs), "/")
  {
    EncodeAllHead("", segs);
    var e := EncodeAll(segs);
    assert ([""] + e)[1..] == e;
  }

  /** Any other character joins the first segment, and is encoded with it. */
  lemma OtherEncoded(c: char, segs: seq<string>)
    requires segs != []
    ensures Join(EncodeAll([[c] + segs[0]] + segs[1..]), "/") == EncodeChar(c, true) + Join(EncodeAll(segs), "/")
  {
    EncodeAllHead([c] + segs[0], segs[1..]);
    EncodeAllHead(segs[0], segs[1..]);
    assert segs == [segs[0]] + segs[1..];
    assert ([c] + segs[0])[1..] == segs[0];
    JoinHead(EncodeChar(c, true), EncodeAll(segs), "/");
  }

  /** Splitting, encoding and rejoining encodes everything but the slashes. */
  lemma {:induction false} SplitEncodeJoin(s: string)
    ensures Join(EncodeAll(Split(s, '/')), "/") == Encoded(s, false)
  {
    if s == "" {
      assert EncodeAll([""]) == [""];
    } else {
      SplitEncodeJoin(s[1..]);
      var r := Split(s[1..], '/');
      if s[0] == '/' { SlashKept(r); } else { OtherEncoded(s[0], r); }
    }
  }

  /** The canonical path determines the path, up to empty and "/" meaning the same. */
  lemma CanonicalUriDecodes(pathname: string)
    ensures Decode(CanonicalUri(pathname)) == Some(if pathname == "" then "/" else pathname)
  {
    SplitEncodeJoin(pathname);
    UriEncodeRoundTrip(pathname, false);
    if pathname == "" {
      assert "/" == Encoded("/", false);
      UriEncodeRoundTrip("/", false);
    }
  }

  // ---- the canonical query -------------------------------------------------

  type Pair = (string, string)

  function Compare(a: Pair, b: Pair): int {
    if Less(a.0, b.0) then -1 else if Less(b.0, a.0) then 1
    else if Less(a.1, b.1) then -1 else if Less(b.1, a.1) then 1 else 0
  }

  lemma CompareTotal(a: Pair, b: Pair)
    ensures Compare(a, b) == 0 <==> a == b
    ensures Compare(a, b) == -Compare(b, a)
  {
    LessTotal(a.0, b.0);
    LessTotal(a.1, b.1);
  }

  lemma CompareTransitive(a: Pair, b: Pair, c: Pair)
    requires Compare(a, b) <= 0 && Compare(b, c) <= 0
    ensures Compare(a, c) <= 0
  {
    LessTotal(a.0, b.0);
    LessTotal(b.0, c.0);
    LessTotal(a.0, c.0);
    LessTotal(a.1, b.1);
    LessTotal(b.1, c.1);
    LessTotal(a.1, c.1);
    if Less(a.0, b.0) && Less(b.0, c.0) { LessTransitive(a.0, b.0, c.0); }
    if Less(a.1, b.1) && Less(b.1, c.1) { LessTransitive(a.1, b.1, c.1); }
  }

  ghost predicate Sorted(ps: seq<Pair>) {
    ps == [] || (Sorted(ps[1..]) && forall p :: p in ps[1..] ==> Compare(ps[0], p) <= 0)
  }

  function Insert(p: Pair, ps: seq<Pair>): seq<Pair> {
    if ps == [] || Compare(p, ps[0]) <= 0 then [p] + ps else [ps[0]] + Insert(p, ps[1..])
  }

  /** `pairs.sort(compare)` */
  function Sort(ps: seq<Pair>): seq<Pair> {
    if ps == [] then [] else Insert(ps[0], Sort(ps[1..]))
  }

  lemma {:induction false} InsertKeeps(p: Pair, ps: seq<Pair>)
    ensures multiset(Insert(p, ps)) == multiset{p} + multiset(ps)
    ensures forall q :: q in Insert(p, ps) <==> q == p || q in ps
  {
    if ps != [] && Compare(p, ps[0]) > 0 {
      InsertKeeps(p, ps[1..]);
      assert ps == [ps[0]] + ps[1..];
    }
  }

  lemma {:induction false} InsertSorts(p: Pair, ps: seq<Pair>)
    requires Sorted(ps)
    ensures Sorted(Insert(p, ps))
  {
    if ps == [] {
    } else {
      if Compare(p, ps[0]) <= 0 {
        assert ([p] + ps)[1..] == ps;
        forall q | q in ps ensures Compare(p, q) <= 0 {
          if q != ps[0] { assert q in ps[1..]; CompareTransitive(p, ps[0], q); }
        }
      } else {
        InsertSorts(p, ps[1..]);
        InsertKeeps(p, ps[1..]);
        CompareTotal(p, ps[0]);
        assert Insert(p, ps)[1..] == Insert(p, ps[1..]);
      }
    }
  }

  lemma {:induction false} SortSorts(ps: seq<Pair>)
    ensures Sorted(Sort(ps)) && multiset(Sort(ps)) == multiset(ps)
  {
    if ps == [] {
    } else {
      SortSorts(ps[1..]);
      InsertSorts(ps[0], Sort(ps[1..]));
      InsertKeeps(ps[0], Sort(ps[1..]));
      assert ps == [ps[0]] + ps[1..];
    }
  }

  lemma HeadIsLeast(ps: seq<Pair>, p: Pair)
    requires Sorted(ps) && p in ps
    ensures Compare(ps[0], p) <= 0
  {
    CompareTotal(p, p);
    if p != ps[0] { assert p in ps[1..]; }
  }

  lemma TailMultiset<T>(s: seq<T>)
    requires s != []
    ensures multiset(s[1..]) == multiset(s) - multiset{s[0]}
  {
    assert s == [s[0]] + s[1..];
  }

  lemma {:induction false} SortedUnique(x: seq<Pair>, y: seq<Pair>)
    requires Sorted(x) && Sorted(y) && multiset(x) == multiset(y)
    ensures x == y
  {
    assert |x| == |multiset(x)| == |multiset(y)| == |y|;
    if x == [] {
    } else {
      assert x[0] in multiset(y) && y[0] in multiset(x);
      HeadIsLeast(x, y[0]);
      HeadIsLeast(y, x[0]);
      CompareTotal(x[0], y[0]);
      TailMultiset(x);
      TailMultiset(y);
      SortedUnique(x[1..], y[1..]);
      assert x == [x[0]] + x[1..] && y == [y[0]] + y[1..];
    }
  }

  function MapSeq<A, B>(f: A -> B, s: seq<A>): (r: seq<B>)
    ensures |r| == |s| && forall i :: 0 <= i < |s| ==> r[i] == f(s[i])
  {
    seq(|s|, i requires 0 <= i < |s| => f(s[i]))
  }

  /** Moving an element to the front does not change the mapped multiset. */
  lemma MapRotate<A, B>(f: A -> B, q: seq<A>, i: nat)
    requires i < |q|
    ensures multiset(q[..i] + q[i + 1..]) == multiset(q) - multiset{q[i]}
    ensures multiset(MapSeq(f, q)) == multiset{f(q[i])} + multiset(MapSeq(f, q[..i] + q[i + 1..]))
  {
    assert q == q[..i] + [q[i]] + q[i + 1..];
    var l, r := MapSeq(f, q[..i]), MapSeq(f, q[i + 1..]);
    assert MapSeq(f, q) == l + [f(q[i])] + r;
    assert MapSeq(f, q[..i] + q[i + 1..]) == l + r;
  }

  lemma {:induction false} MapMultiset<A, B>(f: A -> B, p: seq<A>, q: seq<A>)
    requires multiset(p) == multiset(q)
    ensures multiset(MapSeq(f, p)) == multiset(MapSeq(f, q))
  {
    assert |p| == |multiset(p)| == |multiset(q)| == |q|;
    if p == [] {
    } else {
      assert p[0] in multiset(q);
      var i :| 0 <= i < |q| && q[i] == p[0];
      var p', q' := p[..0] + p[1..], q[..i] + q[i + 1..];
      MapRotate(f, p, 0);
      MapRotate(f, q, i);
      assert multiset(p') == multiset(q');
      MapMultiset(f, p', q');
    }
  }

  function EncodePair(p: Pair): Pair {
    (Encoded(p.0, true), Encoded(p.1, true))
  }

  function DecodePair(p: Pair): Pair {
    (if Decode(p.0).Some? then Decode(p.0).value else "", if Decode(p.1).Some? then Decode(p.1).value else "")
  }

  function PairText(p: Pair): string {
    p.0 + "=" + p.1
  }

  function CanonicalQuery(params: seq<Pair>): string {
    Join(MapSeq(PairText, Sort(MapSeq(EncodePair, params))), "&")
  }

  lemma MapSnoc<A, B>(f: A -> B, s: seq<A>, i: nat)
    requires i < |s|
    ensures MapSeq(f, s[..i + 1]) == MapSeq(f, s[..i]) + [f(s[i])]
  {
  }

  method BuildCanonicalQuery(params: seq<Pair>) returns (out: string)
    ensures out == CanonicalQuery(params)
  {
    var pairs: seq<Pair> := [];
    for i := 0 to |params|
      invariant pairs == MapSeq(EncodePair, params[..i])
    {
      var k := UriEncode(params[i].0, true);
      var v := UriEncode(params[i].1, true);
      MapSnoc(EncodePair, params, i);
      pairs := pairs + [(k, v)];
    }
    assert params[..|params|] == params;
    pairs := Sort(pairs);
    out := Join(MapSeq(PairText, pairs), "&");
  }

  /** Encoded text: neither delimiter of the query occurs in it. */
  ghost predicate Plain(p: Pair) {
    '=' !in p.0 && '=' !in p.1 && '&' !in p.0 && '&' !in p.1
  }

  lemma {:induction false} QueryTextInjective(x: seq<Pair>, y: seq<Pair>)
    requires forall i :: 0 <= i < |x| ==> Plain(x[i])
    requires forall i :: 0 <= i < |y| ==> Plain(y[i])
    requires Join(MapSeq(PairText, x), "&") == Join(MapSeq(PairText, y), "&")
    ensures x == y
  {
    var tx, ty := MapSeq(PairText, x), MapSeq(PairText, y);
    assert x != [] ==> Plain(x[0]) && '&' !in tx[0] && '=' in tx[0];
    assert y != [] ==> Plain(y[0]) && '&' !in ty[0] && '=' in ty[0];
    if x != [] && y != [] {
      assert tx[1..] == MapSeq(PairText, x[1..]) && ty[1..] == MapSeq(PairText, y[1..]);
      if |x| > 1 && |y| > 1 {
        SplitAt(tx[0], '&', Join(tx[1..], "&"), ty[0], Join(ty[1..], "&"));
        QueryTextInjective(x[1..], y[1..]);
      } else {
        assert |x| > 1 ==> '&' in Join(tx, "&");
        assert |y| > 1 ==> '&' in Join(ty, "&");
      }
      SplitAt(x[0].0, '=', x[0].1, y[0].0, y[0].1);
      assert x == [x[0]] + x[1..] && y == [y[0]] + y[1..];
    } else {
      assert x != [] ==> '=' in Join(tx, "&");
      assert y != [] ==> '=' in Join(ty, "&");
    }
  }

  lemma SortedPlain(params: seq<Pair>)
    ensures forall i :: 0 <= i < |Sort(MapSeq(EncodePair, params))| ==> Plain(Sort(MapSeq(EncodePair, params))[i])
  {
    var e := MapSeq(EncodePair, params);
    SortSorts(e);
    forall i | 0 <= i < |Sort(e)| ensures Plain(Sort(e)[i]) {
      assert Sort(e)[i] in multiset(e);
      var j :| 0 <= j < |e| && e[j] == Sort(e)[i];
      EncodedOmits(params[j].0, '=');
      EncodedOmits(params[j].1, '=');
      EncodedOmits(params[j].0, '&');
      EncodedOmits(params[j].1, '&');
    }
  }

  /** Two queries have one canonical form exactly when they hold the same pairs,
      each as often, in whatever order. */
  lemma CanonicalQueryIffSameParams(p: seq<Pair>, q: seq<Pair>)
    ensures CanonicalQuery(p) == CanonicalQuery(q) <==> multiset(p) == multiset(q)
  {
    var ep, eq := MapSeq(EncodePair, p), MapSeq(EncodePair, q);
    SortSorts(ep);
    SortSorts(eq);
    if multiset(p) == multiset(q) {
      MapMultiset(EncodePair, p, q);
      SortedUnique(Sort(ep), Sort(eq));
    }
    if CanonicalQuery(p) == CanonicalQuery(q) {
      SortedPlain(p);
      SortedPlain(q);
      QueryTextInjective(Sort(ep), Sort(eq));
      MapMultiset(DecodePair, ep, eq);
      DecodesAll(p);
      DecodesAll(q);
    }
  }

  lemma DecodesAll(p: seq<Pair>)
    ensures MapSeq(DecodePair, MapSeq(EncodePair, p)) == p
  {
    forall i | 0 <= i < |p| ensures DecodePair(EncodePair(p[i])) == p[i] {
      UriEncodeRoundTrip(p[i].0, true);
      UriEncodeRoundTrip(p[i].1, true);
    }
  }

  // ---- the canonical request ---------------------------------------------------

  /** `replace(/\s+/g, ' ')` */
  function Squeeze(s: string): (r: string)
    ensures '\n' !in r
    decreases |s|
  {
    if s == "" then ""
    else if IsSpace(s[0]) then TrimmedShorter(s[1..]); " " + Squeeze(TrimStart(s[1..]))
    else [s[0]] + Squeeze(s[1..])
  }

  lemma TrimmedShorter(s: string)
    ensures |TrimStart(s)| <= |s|
  {
  }

  function HeaderValue(v: string): string {
    Squeeze(TrimEnd(TrimStart(v)))
  }

  /** `headers[k] = v` on an insertion-ordered object. */
  function SetHeader(hs: seq<Pair>, k: string, v: string): seq<Pair> {
    if hs == [] then [(k, v)]
    else if hs[0].0 == k then [(k, v)] + hs[1..]
    else [hs[0]] + SetHeader(hs[1..], k, v)
  }

  function GetHeader(hs: seq<Pair>, k: string): string {
    if hs == [] then "" else if hs[0].0 == k then hs[0].1 else GetHeader(hs[1..], k)
  }

  function Collected(entries: seq<Pair>): seq<Pair> {
    if entries == [] then []
    else
      var last := entries[|entries| - 1];
      SetHeader(Collected(entries[..|entries| - 1]), Lower(last.0), HeaderValue(last.1))
  }

  function SignedHeaders(entries: seq<Pair>, host: string): seq<Pair> {
    var hs := Collected(entries);
    Sort(if GetHeader(hs, "host") == "" then SetHeader(hs, "host", host) else hs)
  }

  function HeaderText(hs: seq<Pair>): string {
    if hs == [] then "" else hs[0].0 + ":" + hs[0].1 + "\n" + HeaderText(hs[1..])
  }

  function Names(hs: seq<Pair>): seq<string> {
    if hs == [] then [] else [hs[0].0] + Names(hs[1..])
  }

  datatype Request = Request(verb: string, path: string, params: seq<Pair>, headers: seq<Pair>, payloadHash: string)

  /** The assembled text; `r.headers` are the collected, sorted headers. */
  function CanonicalRequest(r: Request): string {
    r.verb + "\n" + (CanonicalUri(r.path) + "\n" + (CanonicalQuery(r.params) + "\n"
      + (HeaderText(r.headers) + "\n" + (Join(Names(r.headers), ";") + "\n" + r.payloadHash))))
  }

  method AssembleRequest(verb: string, path: string, params: seq<Pair>, entries: seq<Pair>, host: string,
                         payloadHash: string) returns (out: string)
    ensures out == CanonicalRequest(Request(Upper(verb), path, params, SignedHeaders(entries, host), payloadHash))
  {
    var headers: seq<Pair> := [];
    for i := 0 to |entries|
      invariant headers == Collected(entries[..i])
    {
      assert entries[..i + 1][..i] == entries[..i];
      headers := SetHeader(headers, Lower(entries[i].0), HeaderValue(entries[i].1));
    }
    assert entries[..|entries|] == entries;
    if GetHeader(headers, "host") == "" {
      headers := SetHeader(headers, "host", host);
    }
    headers := Sort(headers);
    var query := BuildCanonicalQuery(params);
    var tail := Join(Names(headers), ";") + "\n" + payloadHash;
    out := Upper(verb) + "\n" + (CanonicalUri(path) + "\n" + (query + "\n" + (HeaderText(headers) + "\n" + tail)));
  }

  /** What HTTP already guarantees of a header: a token for a name, a value on one line. */
  predicate ProperHeaders(hs: seq<Pair>) {
    forall i :: 0 <= i < |hs| ==> ':' !in hs[i].0 && '\n' !in hs[i].0 && '\n' !in hs[i].1
  }

  lemma {:induction false} HeaderBlockSplits(x: seq<Pair>, r: string, y: seq<Pair>, s: string)
    requires ProperHeaders(x) && ProperHeaders(y)
    requires HeaderText(x) + "\n" + r == HeaderText(y) + "\n" + s
    ensures x == y && r == s
    decreases |x|
  {
    HeaderFirst(x, r);
    HeaderFirst(y, s);
    if x != [] && y != [] {
      HeaderAssoc(x, r);
      HeaderAssoc(y, s);
      SplitAt(x[0].0, ':', x[0].1 + "\n" + (HeaderText(x[1..]) + "\n" + r),
              y[0].0, y[0].1 + "\n" + (HeaderText(y[1..]) + "\n" + s));
      SplitAt(x[0].1, '\n', HeaderText(x[1..]) + "\n" + r, y[0].1, HeaderText(y[1..]) + "\n" + s);
      HeaderBlockSplits(x[1..], r, y[1..], s);
      assert x == [x[0]] + x[1..] && y == [y[0]] + y[1..];
    } else if x == [] && y == [] {
      assert "\n" + r == HeaderText(x) + "\n" + r && "\n" + s == HeaderText(y) + "\n" + s;
      assert r == ("\n" + r)[1..] && s == ("\n" + s)[1..];
    }
  }

  lemma HeaderFirst(x: seq<Pair>, r: string)
    requires ProperHeaders(x)
    ensures (HeaderText(x) + "\n" + r)[0] == '\n' <==> x == []
  {
    if x != [] { assert (x[0].0 + ":" + x[0].1)[0] != '\n'; }
  }

  lemma HeaderAssoc(x: seq<Pair>, r: string)
    requires x != []
    ensures HeaderText(x) + "\n" + r
         == x[0].0 + [':'] + (x[0].1 + "\n" + (HeaderText(x[1..]) + "\n" + r))
  {
  }

  lemma CanonicalUriOneLine(p: string)
    ensures '\n' !in CanonicalUri(p)
  {
    SplitEncodeJoin(p);
    EncodedIsStrict(p, false);
    if p != "" && '\n' in CanonicalUri(p) { StrictChars(Encoded(p, false), true, '\n'); }
  }

  lemma {:induction false} JoinOneLine(ts: seq<string>, sep: string)
    requires '\n' !in sep && forall i :: 0 <= i < |ts| ==> '\n' !in ts[i]
    ensures '\n' !in Join(ts, sep)
  {
    if |ts| > 1 { JoinOneLine(ts[1..], sep); }
  }

  lemma CanonicalQueryOneLine(params: seq<Pair>)
    ensures '\n' !in CanonicalQuery(params)
  {
    var e := MapSeq(EncodePair, params);
    SortSorts(e);
    var ts := MapSeq(PairText, Sort(e));
    forall i | 0 <= i < |ts| ensures '\n' !in ts[i] {
      assert Sort(e)[i] in multiset(e);
      var j :| 0 <= j < |e| && e[j] == Sort(e)[i];
      EncodedOmits(params[j].0, '\n');
      EncodedOmits(params[j].1, '\n');
    }
    JoinOneLine(ts, "&");
  }

  lemma {:induction false} NamesOneLine(hs: seq<Pair>)
    requires ProperHeaders(hs)
    ensures '\n' !in Join(Names(hs), ";")
  {
    NamesAreProper(hs);
    JoinOneLine(Names(hs), ";");
  }

  lemma {:induction false} NamesAreProper(hs: seq<Pair>)
    requires ProperHeaders(hs)
    ensures forall i :: 0 <= i < |Names(hs)| ==> '\n' !in Names(hs)[i]
  {
    if hs == [] {
    } else {
      NamesAreProper(hs[1..]);
    }
  }

  /** The canonical request determines everything that is signed: the verb, the path, the
      query as a multiset, every header, and the payload hash. */
  lemma CanonicalRequestBinds(a: Request, b: Request)
    requires '\n' !in a.verb && '\n' !in b.verb
    requires ProperHeaders(a.headers) && ProperHeaders(b.headers)
    requires CanonicalRequest(a) == CanonicalRequest(b)
    ensures a.verb == b.verb && a.headers == b.headers && a.payloadHash == b.payloadHash
    ensures a.path == b.path || {a.path, b.path} == {"", "/"}
    ensures multiset(a.params) == multiset(b.params)
  {
    var ta, tb := Join(Names(a.headers), ";") + "\n" + a.payloadHash, Join(Names(b.headers), ";") + "\n" + b.payloadHash;
    var ha, hb := HeaderText(a.headers) + "\n" + ta, HeaderText(b.headers) + "\n" + tb;
    var qa, qb := CanonicalQuery(a.params) + "\n" + ha, CanonicalQuery(b.params) + "\n" + hb;
    SplitAt(a.verb, '\n', CanonicalUri(a.path) + "\n" + qa, b.verb, CanonicalUri(b.path) + "\n" + qb);
    CanonicalUriOneLine(a.path);
    CanonicalUriOneLine(b.path);
    SplitAt(CanonicalUri(a.path), '\n', qa, CanonicalUri(b.path), qb);
    CanonicalUriDecodes(a.path);
    CanonicalUriDecodes(b.path);
    CanonicalQueryOneLine(a.params);
    CanonicalQueryOneLine(b.params);
    SplitAt(CanonicalQuery(a.params), '\n', ha, CanonicalQuery(b.params), hb);
    CanonicalQueryIffSameParams(a.params, b.params);
    HeaderBlockSplits(a.headers, ta, b.headers, tb);
    NamesOneLine(a.headers);
    SplitAt(Join(Names(a.headers), ";"), '\n', a.payloadHash, Join(Names(b.headers), ";"), b.payloadHash);
  }
}
