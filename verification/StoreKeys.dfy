/** The namespaced store keys of packages/core/src/cache.ts: value keys are uniquely decodable
    whatever the stitch id, and a generation bump strands every earlier entry of its scope. */
module StoreKeys {
  import opened Text
  import opened Optional

  const CACHE_GEN_KEY: string := "cache:gen"

  function StitchGenKey(id: string): string {
    "cache:gen:" + id
  }

  /** The live generations and the stitch they are read for. */
  datatype Bucket = Bucket(cacheGen: nat, stitchGen: nat, stitchId: string)

  function GenPrefix(b: Bucket): string {
    "g" + Decimal(b.cacheGen) + "." + Decimal(b.stitchGen) + "." + b.stitchId + "."
  }

  /** The fingerprint token: empty, or a digest. */
  predicate IsToken(fp: string) {
    fp == "" || IsHex32(fp)
  }

  /** The suffix of a direct entry, or of a learned-Vary one. */
  predicate IsSuffix(s: string) {
    s == "" || (|s| == 34 && s[..2] == ":h" && IsHex32(s[2..]))
  }

  function ValueKey(b: Bucket, fp: string, baseKey: string, suffix: string): string {
    "cache:" + "k2" + ":" + GenPrefix(b) + ("f" + fp + ":") + baseKey + suffix
  }

  // ---- unique decodability ---------------------------------------------------------

  lemma GenPrefixInjective(a: Bucket, b: Bucket)
    requires GenPrefix(a) == GenPrefix(b)
    ensures a == b
  {
    var a2, b2 := Decimal(a.stitchGen) + ("." + a.stitchId + "."), Decimal(b.stitchGen) + ("." + b.stitchId + ".");
    assert GenPrefix(a) == "g" + (Decimal(a.cacheGen) + ("." + a2));
    assert GenPrefix(b) == "g" + (Decimal(b.cacheGen) + ("." + b2));
    SplitLength("g", Decimal(a.cacheGen) + ("." + a2), "g", Decimal(b.cacheGen) + ("." + b2));
    SplitDigits(Decimal(a.cacheGen), "." + a2, Decimal(b.cacheGen), "." + b2);
    DecimalInjective(a.cacheGen, b.cacheGen);
    SplitLength(".", a2, ".", b2);
    SplitDigits(Decimal(a.stitchGen), "." + a.stitchId + ".", Decimal(b.stitchGen), "." + b.stitchId + ".");
    DecimalInjective(a.stitchGen, b.stitchGen);
    Assoc(".", a.stitchId, ".");
    Assoc(".", b.stitchId, ".");
    SplitLength(".", a.stitchId + ".", ".", b.stitchId + ".");
    SplitSuffix(a.stitchId, ".", b.stitchId, ".");
  }

  /** Whether a key has a suffix shows at its 33rd character from the end. */
  lemma SuffixShows(front: string, base: string, suffix: string)
    requires IsHex32(base) && IsSuffix(suffix)
    ensures var k := front + ":" + base + suffix; k[|k| - 33] == (if suffix == "" then ':' else 'h')
  {
    var k := front + ":" + base + suffix;
    if suffix == "" {
      assert k[|front|] == ':';
    } else {
      assert k[|k| - 33] == suffix[1] == suffix[..2][1];
    }
  }

  /** Whether there is a token shows at the third character from the end: a `.` or a digit. */
  lemma TokenShows(front: string, fp: string)
    requires IsToken(fp)
    ensures var k := front + "." + "f" + fp + ":"; (k[|k| - 3] == '.' <==> fp == "")
  {
    var k := front + "." + "f" + fp + ":";
    if fp == "" {
      assert k[|front|] == '.';
    } else {
      assert k[|k| - 3] == fp[30];
    }
  }

  function Front(b: Bucket): string {
    "cache:k2:" + ("g" + Decimal(b.cacheGen) + "." + Decimal(b.stitchGen) + "." + b.stitchId)
  }

  lemma KeyShape(b: Bucket, fp: string, base: string, suffix: string)
    ensures ValueKey(b, fp, base, suffix) == Front(b) + "." + "f" + fp + ":" + base + suffix
  {
  }

  /** Two value keys are equal only if every part they were made of is. */
  lemma ValueKeyInjective(a: Bucket, fa: string, ka: string, sa: string,
                          b: Bucket, fb: string, kb: string, sb: string)
    requires IsToken(fa) && IsToken(fb) && IsHex32(ka) && IsHex32(kb) && IsSuffix(sa) && IsSuffix(sb)
    requires ValueKey(a, fa, ka, sa) == ValueKey(b, fb, kb, sb)
    ensures a == b && fa == fb && ka == kb && sa == sb
  {
    KeyShape(a, fa, ka, sa);
    KeyShape(b, fb, kb, sb);
    var la, lb := Front(a) + "." + "f" + fa, Front(b) + "." + "f" + fb;
    SuffixShows(la, ka, sa);
    SuffixShows(lb, kb, sb);
    SplitSuffix(la + ":" + ka, sa, lb + ":" + kb, sb);
    SplitSuffix(la + ":", ka, lb + ":", kb);
    TokenShows(Front(a), fa);
    TokenShows(Front(b), fb);
    SplitSuffix(la, ":", lb, ":");
    SplitSuffix(Front(a) + "." + "f", fa, Front(b) + "." + "f", fb);
    assert Front(a) + "." + "f" == Front(a) + ".f" && Front(b) + "." + "f" == Front(b) + ".f";
    SplitSuffix(Front(a), ".f", Front(b), ".f");
    assert "cache:k2:" + GenPrefix(a) == Front(a) + "." && "cache:k2:" + GenPrefix(b) == Front(b) + ".";
    SplitLength("cache:k2:", GenPrefix(a), "cache:k2:", GenPrefix(b));
    GenPrefixInjective(a, b);
  }

  /** No value key is a generation key, and the two kinds of generation key differ. */
  lemma GenerationKeysAreApart(b: Bucket, fp: string, base: string, suffix: string, id: string)
    ensures ValueKey(b, fp, base, suffix) != CACHE_GEN_KEY
    ensures ValueKey(b, fp, base, suffix) != StitchGenKey(id)
    ensures StitchGenKey(id) != CACHE_GEN_KEY
  {
    var k := ValueKey(b, fp, base, suffix);
    assert k[6] == 'k';
    assert CACHE_GEN_KEY[6] == 'g' && StitchGenKey(id)[6] == 'g';
    assert |StitchGenKey(id)| > |CACHE_GEN_KEY|;
  }

  // ---- bulk invalidation -------------------------------------------------------------

  datatype Stored = Number(n: nat) | Other

  type Store = map<string, Stored>

  /** `asNum(await store.get(key))` */
  function AsNum(st: Store, key: string): nat {
    if key in st && st[key].Number? then st[key].n else 0
  }

  function Live(st: Store, id: string): Bucket {
    Bucket(AsNum(st, CACHE_GEN_KEY), AsNum(st, StitchGenKey(id)), id)
  }

  /** `stitchId ? stitchGenKey(stitchId) : cacheGenKey` — the empty id is falsy. */
  function BumpedKey(stitchId: Option<string>): string {
    match stitchId
    case Some(id) => if id != "" then StitchGenKey(id) else CACHE_GEN_KEY
    case None => CACHE_GEN_KEY
  }

  function Bump(st: Store, stitchId: Option<string>, draw: nat): Store {
    st[BumpedKey(stitchId) := Number(draw)]
  }

  datatype BumpEvent = BumpEvent(stitchId: Option<string>, draw: nat)

  function After(st: Store, bumps: seq<BumpEvent>): Store {
    if bumps == [] then st
    else Bump(After(st, bumps[..|bumps| - 1]), bumps[|bumps| - 1].stitchId, bumps[|bumps| - 1].draw)
  }

  predicate InScope(e: BumpEvent, id: string) {
    BumpedKey(e.stitchId) == CACHE_GEN_KEY || BumpedKey(e.stitchId) == StitchGenKey(id)
  }

  /** No draw repeats, and none repeats what the store held at first. */
  ghost predicate FreshDraws(st: Store, bumps: seq<BumpEvent>) {
    && (forall i, j :: 0 <= i < j < |bumps| ==> bumps[i].draw != bumps[j].draw)
    && (forall i, key :: 0 <= i < |bumps| && key in st ==> st[key] != Number(bumps[i].draw))
    && (forall i :: 0 <= i < |bumps| ==> bumps[i].draw >= 1)
  }

  /** The number under a generation key is the draw of the last bump of that key, or the first one. */
  lemma {:induction false} GenerationOrigin(st: Store, bumps: seq<BumpEvent>, key: string) returns (i: int)
    ensures -1 <= i < |bumps|
    ensures forall j :: i < j < |bumps| ==> BumpedKey(bumps[j].stitchId) != key
    ensures i == -1 ==> AsNum(After(st, bumps), key) == AsNum(st, key)
    ensures i >= 0 ==> BumpedKey(bumps[i].stitchId) == key && AsNum(After(st, bumps), key) == bumps[i].draw
  {
    i := -1;
    if bumps == [] {
    } else {
      var init, last := bumps[..|bumps| - 1], |bumps| - 1;
      if BumpedKey(bumps[last].stitchId) == key {
        i := last;
      } else {
        i := GenerationOrigin(st, init, key);
        assert forall x :: 0 <= x < last ==> init[x] == bumps[x];
      }
    }
  }

  lemma KeyMoves(st: Store, bumps: seq<BumpEvent>, i: nat, m: nat, j: nat, key: string)
    requires FreshDraws(st, bumps) && i <= m < j <= |bumps| && BumpedKey(bumps[m].stitchId) == key
    ensures AsNum(After(st, bumps[..i]), key) != AsNum(After(st, bumps[..j]), key)
  {
    var x := GenerationOrigin(st, bumps[..i], key);
    var y := GenerationOrigin(st, bumps[..j], key);
    assert bumps[..j][m] == bumps[m];
    assert x >= 0 ==> bumps[..i][x] == bumps[x];
    assert y >= m && bumps[..j][y] == bumps[y];
  }

  /** Whatever was written for a stitch before a bump in its scope, no operation opened at any
      time after the bump addresses it. */
  lemma BumpStrandsEarlierEntries(st: Store, bumps: seq<BumpEvent>, i: nat, m: nat, j: nat, id: string, id': string,
                                  fp: string, base: string, suffix: string,
                                  fp': string, base': string, suffix': string)
    requires FreshDraws(st, bumps) && i <= m < j <= |bumps| && InScope(bumps[m], id)
    requires IsToken(fp) && IsToken(fp') && IsHex32(base) && IsHex32(base') && IsSuffix(suffix) && IsSuffix(suffix')
    ensures ValueKey(Live(After(st, bumps[..i]), id), fp, base, suffix)
         != ValueKey(Live(After(st, bumps[..j]), id'), fp', base', suffix')
  {
    var a, b := Live(After(st, bumps[..i]), id), Live(After(st, bumps[..j]), id');
    if ValueKey(a, fp, base, suffix) == ValueKey(b, fp', base', suffix') {
      ValueKeyInjective(a, fp, base, suffix, b, fp', base', suffix');
      KeyMoves(st, bumps, i, m, j, BumpedKey(bumps[m].stitchId));
    }
  }

  /** Bumping one stitch leaves every other stitch's bucket alone, unless its id is empty: then
      the cache-wide generation moves instead. */
  lemma BumpIsolatesIffNamed(id: string)
    ensures id != "" <==>
      forall st: Store, draw: nat, other: string :: other != id ==> Live(Bump(st, Some(id), draw), other) == Live(st, other)
  {
    if id != "" {
      forall st: Store, draw: nat, other: string | other != id
        ensures Live(Bump(st, Some(id), draw), other) == Live(st, other)
      {
        assert StitchGenKey(id) != StitchGenKey(other) by {
          if StitchGenKey(id) == StitchGenKey(other) { SplitLength("cache:gen:", id, "cache:gen:", other); }
        }
        assert |StitchGenKey(id)| > |CACHE_GEN_KEY|;
      }
    } else {
      var st: Store := map[];
      assert Live(Bump(st, Some(id), 1), "other") != Live(st, "other");
    }
  }
}
