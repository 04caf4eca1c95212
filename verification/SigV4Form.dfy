/** What the canonicalisation of packages/aws-sigv4/src/index.ts emits, in terms of characters, order
    and lines: the form the service computes for itself and compares. */
module SigV4Form {
  import opened Optional
  import opened Text
  import opened SigV4

  // ---- characters ---------------------------------------------------------------------------

  /** Letters, digits and `-_.~` stay as they are, and nothing else does. */
  lemma StaysIff(c: char)
    ensures Encoded([c], true) == [c] <==>
              'A' <= c <= 'Z' || 'a' <= c <= 'z' || '0' <= c <= '9' || c == '-' || c == '_' || c == '.' || c == '~'
  {
    assert [c][1..] == "";
    assert EncodeChar(c, true) + "" == EncodeChar(c, true);
    if !Unreserved(c) { assert |Percent(Utf8(c))| >= 3; }
  }

  /** Encoding goes character by character. */
  lemma {:induction false} EncodedAppend(x: string, y: string, encodeSlash: bool)
    ensures Encoded(x + y, encodeSlash) == Encoded(x, encodeSlash) + Encoded(y, encodeSlash)
  {
    if x == "" {
      assert x + y == y && "" + Encoded(y, encodeSlash) == Encoded(y, encodeSlash);
    } else {
      EncodedAppend(x[1..], y, encodeSlash);
      OneMoreEncoded(x[0], x[1..], y, encodeSlash);
      assert [x[0]] + x[1..] == x;
    }
  }

  lemma OneMoreEncoded(c: char, t: string, y: string, encodeSlash: bool)
    requires Encoded(t + y, encodeSlash) == Encoded(t, encodeSlash) + Encoded(y, encodeSlash)
    ensures Encoded([c] + t + y, encodeSlash) == Encoded([c] + t, encodeSlash) + Encoded(y, encodeSlash)
  {
    Assoc([c], t, y);
    EncodedCons(c, t + y, encodeSlash);
    EncodedCons(c, t, encodeSlash);
    Assoc(EncodeChar(c, encodeSlash), Encoded(t, encodeSlash), Encoded(y, encodeSlash));
  }

  lemma EncodedCons(c: char, t: string, encodeSlash: bool)
    ensures Encoded([c] + t, encodeSlash) == EncodeChar(c, encodeSlash) + Encoded(t, encodeSlash)
  {
    assert ([c] + t)[1..] == t;
  }

  /** An escaped byte is a percent sign and two upper-case hex digits, the high one first. */
  lemma EscapeLooksLike(c: char)
    requires c as int < 0x80 && !Unreserved(c)
    ensures var e := Encoded([c], true);
      && |e| == 3 && e[0] == '%' && IsHexOf(e[1], c as int / 16) && IsHexOf(e[2], c as int % 16)
  {
    assert [c][1..] == "" && Utf8(c) == [c as int];
    assert Percent([c as int]) == ['%', HexDigit(c as int / 16), HexDigit(c as int % 16)] + Percent([c as int][1..]);
    assert EncodeChar(c, true) + "" == EncodeChar(c, true);
  }

  predicate IsHexOf(h: char, n: int) {
    if n < 10 then h as int == '0' as int + n else h as int == 'A' as int + (n - 10)
  }

  /** The four lengths of a character's bytes, by the examples of section 7 of RFC 3629. */
  lemma Utf8Examples()
    ensures Utf8('A') == [0x41] && Utf8('\U{391}') == [0xCE, 0x91]
    ensures Utf8('\U{2262}') == [0xE2, 0x89, 0xA2] && Utf8('\U{233B4}') == [0xF0, 0xA3, 0x8E, 0xB4]
  {
  }

  // ---- order ----------------------------------------------------------------------------------

  /** Pairs are in ascending order of their encoded names, and of their values where names are one. */
  lemma SortAscending(ps: seq<Pair>, i: nat, j: nat)
    requires i < j < |ps|
    ensures |Sort(ps)| == |ps|
    ensures var x, y := Sort(ps)[i], Sort(ps)[j]; Less(x.0, y.0) || (x.0 == y.0 && (Less(x.1, y.1) || x.1 == y.1))
  {
    SortSorts(ps);
    assert |Sort(ps)| == |multiset(Sort(ps))| == |multiset(ps)| == |ps|;
    SortedAt(Sort(ps), i, j);
    LessTotal(Sort(ps)[i].0, Sort(ps)[j].0);
    LessTotal(Sort(ps)[i].1, Sort(ps)[j].1);
  }

  lemma {:induction false} SortedAt(ps: seq<Pair>, i: nat, j: nat)
    requires Sorted(ps) && i < j < |ps|
    ensures Compare(ps[i], ps[j]) <= 0
  {
    if i == 0 {
      assert ps[j] == ps[1..][j - 1];
    } else {
      SortedAt(ps[1..], i - 1, j - 1);
    }
  }

  /** The query: name, `=`, value for each sorted pair, `&` between. */
  lemma QueryLooksLike(params: seq<Pair>, sorted: seq<Pair>, texts: seq<string>)
    requires sorted == Sort(MapSeq(EncodePair, params)) && |texts| == |sorted|
    requires forall i :: 0 <= i < |sorted| ==> texts[i] == sorted[i].0 + "=" + sorted[i].1
    ensures CanonicalQuery(params) == Join(texts, "&")
    ensures forall p :: p in params ==> (Encoded(p.0, true), Encoded(p.1, true)) in sorted
  {
    assert MapSeq(PairText, sorted) == texts;
    SortSorts(MapSeq(EncodePair, params));
    forall p | p in params ensures (Encoded(p.0, true), Encoded(p.1, true)) in sorted {
      var i :| 0 <= i < |params| && params[i] == p;
      assert MapSeq(EncodePair, params)[i] == EncodePair(p);
      assert EncodePair(p) in multiset(MapSeq(EncodePair, params));
    }
  }

  // ---- headers ----------------------------------------------------------------------------------

  /** A header's value loses the blanks around it, and a run of them inside becomes one space. */
  lemma ValueTrimmed(a: string, s: string, b: string)
    requires (forall i :: 0 <= i < |a| ==> IsSpace(a[i])) && (forall i :: 0 <= i < |b| ==> IsSpace(b[i]))
    requires s != "" && !IsSpace(s[0]) && !IsSpace(s[|s| - 1])
    ensures HeaderValue(a + s + b) == Squeeze(s)
  {
    TrimMeans(a, s, b);
  }

  lemma {:induction false} WordsSqueezed(word: string, gap: string, rest: string)
    requires (forall i :: 0 <= i < |word| ==> !IsSpace(word[i])) && (forall i :: 0 <= i < |gap| ==> IsSpace(gap[i]))
    requires gap != "" && rest != "" && !IsSpace(rest[0])
    ensures Squeeze(word + (gap + rest)) == word + (" " + Squeeze(rest))
    decreases |word|
  {
    if word == "" {
      GapSqueezed(gap[0], gap[1..], rest);
      assert [gap[0]] + gap[1..] == gap;
      assert "" + (gap + rest) == gap + rest && "" + (" " + Squeeze(rest)) == " " + Squeeze(rest);
    } else {
      WordsSqueezed(word[1..], gap, rest);
      OneMoreLetter(word[0], word[1..], gap + rest, " " + Squeeze(rest));
      assert [word[0]] + word[1..] == word;
    }
  }

  /** A word alone is left as it is. */
  lemma {:induction false} WordKept(word: string)
    requires forall i :: 0 <= i < |word| ==> !IsSpace(word[i])
    ensures Squeeze(word) == word
  {
    if word == "" {
    } else {
      WordKept(word[1..]);
      assert [word[0]] + word[1..] == word;
    }
  }

  lemma OneMoreLetter(c: char, t: string, more: string, squeezed: string)
    requires !IsSpace(c) && Squeeze(t + more) == t + squeezed
    ensures Squeeze([c] + t + more) == [c] + t + squeezed
  {
    Assoc([c], t, more);
    LetterKept(c, t + more);
    Assoc([c], t, squeezed);
  }

  lemma GapSqueezed(c: char, t: string, rest: string)
    requires IsSpace(c) && (forall i :: 0 <= i < |t| ==> IsSpace(t[i])) && rest != "" && !IsSpace(rest[0])
    ensures Squeeze([c] + t + rest) == " " + Squeeze(rest)
  {
    GapSkipped(t, rest);
    SpaceSqueezed(c, t + rest);
    Assoc([c], t, rest);
  }

  lemma LetterKept(c: char, t: string)
    requires !IsSpace(c)
    ensures Squeeze([c] + t) == [c] + Squeeze(t)
  {
    assert ([c] + t)[1..] == t;
  }

  lemma SpaceSqueezed(c: char, t: string)
    requires IsSpace(c)
    ensures Squeeze([c] + t) == " " + Squeeze(TrimStart(t))
  {
    assert ([c] + t)[1..] == t;
  }

  lemma {:induction false} GapSkipped(gap: string, rest: string)
    requires (forall i :: 0 <= i < |gap| ==> IsSpace(gap[i])) && rest != "" && !IsSpace(rest[0])
    ensures TrimStart(gap + rest) == rest
  {
    if gap == "" {
      assert gap + rest == rest;
    } else {
      GapSkipped(gap[1..], rest);
      assert (gap + rest)[1..] == gap[1..] + rest;
    }
  }

  /** The last header given under a name, in whatever case, is the one collected. */
  ghost predicate LastOf(entries: seq<Pair>, i: int) {
    0 <= i < |entries| && forall j :: i < j < |entries| ==> Lower(entries[j].0) != Lower(entries[i].0)
  }

  ghost predicate UniqueNames(hs: seq<Pair>) {
    forall i, j :: 0 <= i < j < |hs| ==> hs[i].0 != hs[j].0
  }

  lemma {:induction false} SetHeaderMeans(hs: seq<Pair>, k: string, v: string)
    requires UniqueNames(hs)
    ensures UniqueNames(SetHeader(hs, k, v))
    ensures forall p :: p in SetHeader(hs, k, v) <==> p == (k, v) || (p in hs && p.0 != k)
  {
    if hs == [] {
    } else {
      var h, rest := hs[0], hs[1..];
      assert hs == [h] + rest;
      UniqueCons(h, rest);
      if h.0 == k {
        UniqueConsBack((k, v), rest);
      } else {
        SetHeaderMeans(rest, k, v);
        UniqueConsBack(h, SetHeader(rest, k, v));
      }
    }
  }

  lemma UniqueCons(h: Pair, rest: seq<Pair>)
    requires UniqueNames([h] + rest)
    ensures UniqueNames(rest) && forall p :: p in rest ==> p.0 != h.0
  {
    var hs := [h] + rest;
    forall i | 0 <= i < |rest| ensures rest[i].0 != h.0 { assert hs[0] == h && hs[i + 1] == rest[i]; }
    forall i, j | 0 <= i < j < |rest| ensures rest[i].0 != rest[j].0 { assert hs[i + 1] == rest[i] && hs[j + 1] == rest[j]; }
  }

  lemma UniqueConsBack(h: Pair, rest: seq<Pair>)
    requires UniqueNames(rest) && forall p :: p in rest ==> p.0 != h.0
    ensures UniqueNames([h] + rest)
  {
    assert forall i :: 0 <= i < |rest| ==> rest[i] in rest;
  }

  /** The entry was given last under its name. */
  ghost predicate GivenLast(entries: seq<Pair>, p: Pair) {
    exists i :: LastOf(entries, i) && p == (Lower(entries[i].0), HeaderValue(entries[i].1))
  }

  /** Each name once, in lower case, with the trimmed value it was given last. */
  lemma {:induction false} CollectedMeans(entries: seq<Pair>, p: Pair)
    ensures UniqueNames(Collected(entries))
    ensures p in Collected(entries) <==> GivenLast(entries, p)
  {
    if entries == [] {
    } else {
      var init, last := entries[..|entries| - 1], entries[|entries| - 1];
      CollectedMeans(init, p);
      SetHeaderMeans(Collected(init), Lower(last.0), HeaderValue(last.1));
      assert entries == init + [last];
      GivenLastSnoc(init, last, p);
    }
  }

  lemma GivenLastSnoc(init: seq<Pair>, last: Pair, p: Pair)
    ensures GivenLast(init + [last], p) <==>
              p == (Lower(last.0), HeaderValue(last.1)) || (GivenLast(init, p) && p.0 != Lower(last.0))
  {
    var entries := init + [last];
    LastOfSnoc(init, last);
    if GivenLast(entries, p) {
      var i :| LastOf(entries, i) && p == (Lower(entries[i].0), HeaderValue(entries[i].1));
      if i < |init| { assert entries[i] == init[i] && LastOf(init, i); }
    }
    if GivenLast(init, p) && p.0 != Lower(last.0) {
      var i :| LastOf(init, i) && p == (Lower(init[i].0), HeaderValue(init[i].1));
      assert entries[i] == init[i] && LastOf(entries, i);
    }
    assert LastOf(entries, |init|) && entries[|init|] == last;
  }

  lemma LastOfSnoc(init: seq<Pair>, last: Pair)
    ensures LastOf(init + [last], |init|)
    ensures forall i :: 0 <= i < |init| ==>
              (LastOf(init + [last], i) <==> LastOf(init, i) && Lower(last.0) != Lower(init[i].0))
  {
    var entries := init + [last];
    assert forall j :: 0 <= j < |init| ==> entries[j] == init[j];
    forall i | 0 <= i < |init| && LastOf(init, i) && Lower(last.0) != Lower(init[i].0) ensures LastOf(entries, i) {
      assert forall j :: i < j < |entries| ==> Lower(entries[j].0) != Lower(entries[i].0);
    }
    forall i | 0 <= i < |init| && LastOf(entries, i) ensures LastOf(init, i) && Lower(last.0) != Lower(init[i].0) {
      assert forall j :: i < j < |init| ==> Lower(init[j].0) != Lower(init[i].0) by {
        assert forall j :: i < j < |init| ==> entries[j] == init[j];
      }
      assert entries[|init|] == last;
    }
  }

  /** What is signed: the collected headers, sorted; and the host of the URL, if none was given. */
  lemma SignedMeans(entries: seq<Pair>, host: string, p: Pair)
    ensures (exists v :: v != "" && ("host", v) in Collected(entries)) ==>
              (p in SignedHeaders(entries, host) <==> p in Collected(entries))
    ensures !(exists v :: v != "" && ("host", v) in Collected(entries)) ==>
              (p in SignedHeaders(entries, host) <==> p == ("host", host) || (p in Collected(entries) && p.0 != "host"))
  {
    var hs := Collected(entries);
    CollectedMeans(entries, p);
    var all := if GetHeader(hs, "host") == "" then SetHeader(hs, "host", host) else hs;
    SetHeaderMeans(hs, "host", host);
    GetHeaderMeans(hs, "host");
    SortSorts(all);
    assert p in Sort(all) <==> p in multiset(all);
  }

  lemma {:induction false} GetHeaderMeans(hs: seq<Pair>, k: string)
    requires UniqueNames(hs)
    ensures GetHeader(hs, k) != "" <==> exists v :: v != "" && (k, v) in hs
  {
    if hs == [] {
    } else {
      var rest := hs[1..];
      assert forall i :: 0 <= i < |rest| ==> rest[i] == hs[i + 1];
      GetHeaderMeans(rest, k);
      assert hs == [hs[0]] + rest;
      if hs[0].0 == k { assert forall p :: p in rest ==> p.0 != k; }
    }
  }

  // ---- lines ------------------------------------------------------------------------------------

  function Lines(hs: seq<Pair>): (r: seq<string>)
    ensures |r| == |hs| && forall i :: 0 <= i < |hs| ==> r[i] == hs[i].0 + ":" + hs[i].1
  {
    seq(|hs|, i requires 0 <= i < |hs| => hs[i].0 + ":" + hs[i].1)
  }

  /** The request, line by line: verb, path, query, each header, an empty line, the signed names, the
      payload's hash. */
  lemma RequestLines(r: Request)
    ensures CanonicalRequest(r) ==
      Join([r.verb, CanonicalUri(r.path), CanonicalQuery(r.params)] + (Lines(r.headers)
           + ["", Join(Names(r.headers), ";"), r.payloadHash]), "\n")
  {
    var tail := ["", Join(Names(r.headers), ";"), r.payloadHash];
    HeaderLines(r.headers, tail);
    TailLines(Join(Names(r.headers), ";"), r.payloadHash);
    ThreeLines(r.verb, CanonicalUri(r.path), CanonicalQuery(r.params), Lines(r.headers) + tail);
    Assoc(HeaderText(r.headers), "\n", Join(Names(r.headers), ";") + "\n" + r.payloadHash);
  }

  lemma ThreeLines(a: string, b: string, c: string, rest: seq<string>)
    requires rest != []
    ensures Join([a, b, c] + rest, "\n") == a + "\n" + (b + "\n" + (c + "\n" + Join(rest, "\n")))
  {
    assert [a, b, c] + rest == [a] + ([b] + ([c] + rest));
    JoinMore(c, rest);
    JoinMore(b, [c] + rest);
    JoinMore(a, [b] + ([c] + rest));
  }

  lemma JoinMore(line: string, rest: seq<string>)
    requires rest != []
    ensures Join([line] + rest, "\n") == line + "\n" + Join(rest, "\n")
  {
    assert ([line] + rest)[1..] == rest;
  }

  lemma TailLines(names: string, hash: string)
    ensures Join(["", names, hash], "\n") == "\n" + (names + "\n" + hash)
  {
    assert ["", names, hash][1..] == [names, hash] && [names, hash][1..] == [hash];
    assert Join([names, hash], "\n") == names + "\n" + hash;
    assert "" + "\n" + (names + "\n" + hash) == "\n" + (names + "\n" + hash);
  }

  lemma {:induction false} HeaderLines(hs: seq<Pair>, tail: seq<string>)
    requires tail != []
    ensures Join(Lines(hs) + tail, "\n") == HeaderText(hs) + Join(tail, "\n")
  {
    if hs == [] {
      assert Lines(hs) + tail == tail && "" + Join(tail, "\n") == Join(tail, "\n");
    } else {
      HeaderLines(hs[1..], tail);
      assert Lines(hs) + tail == [hs[0].0 + ":" + hs[0].1] + (Lines(hs[1..]) + tail);
      JoinMore(hs[0].0 + ":" + hs[0].1, Lines(hs[1..]) + tail);
      assert HeaderText(hs) == hs[0].0 + ":" + hs[0].1 + "\n" + HeaderText(hs[1..]);
      Assoc(hs[0].0 + ":" + hs[0].1 + "\n", HeaderText(hs[1..]), Join(tail, "\n"));
    }
  }

  /** The signed names are those of the headers, in their order. */
  lemma {:induction false} NamesMean(hs: seq<Pair>, i: nat)
    requires i < |hs|
    ensures |Names(hs)| == |hs| && Names(hs)[i] == hs[i].0
  {
    if |hs| > 1 { NamesMean(hs[1..], if i == 0 then 0 else i - 1); }
  }

  /** The path: its segments, encoded, with the slashes between them kept. */
  lemma PathLooksLike(segments: seq<string>, encoded: seq<string>)
    requires segments != [] && (forall s :: s in segments ==> '/' !in s) && Join(segments, "/") != ""
    requires |encoded| == |segments| && forall i :: 0 <= i < |segments| ==> encoded[i] == Encoded(segments[i], true)
    ensures CanonicalUri(Join(segments, "/")) == Join(encoded, "/")
    ensures CanonicalUri("") == "/"
  {
    SplitJoin(segments, '/');
    assert EncodeAll(segments) == encoded;
  }
}
