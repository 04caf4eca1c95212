/** Which JavaScript values the canonical serialiser of packages/core/src/cache.ts takes for the same,
    said of the values themselves: the exact condition under which two bodies share a key's seed. */
module KeyEquality {
  import opened Optional
  import opened Text
  import opened Canonical
  import RequestKey

  /** JSON has no other way to write these than `null`. */
  predicate NoValue(v: JsVal) {
    v == Null || v == Undef || v == NonFinite
  }

  predicate Zero(v: JsVal) {
    v == Num(0) || v == NegZero
  }

  /** A date is written as the text of its instant. */
  predicate SameWords(v: JsVal, w: JsVal) {
    || (v.DateV? && w.DateV? && v.iso == w.iso)
    || (v.DateV? && w.Str? && v.iso == w.s)
    || (v.Str? && w.DateV? && v.s == w.iso)
  }

  predicate SameAtom(v: JsVal, w: JsVal) {
    v == w || (NoValue(v) && NoValue(w)) || (Zero(v) && Zero(w)) || SameWords(v, w)
  }

  /** A lone hole is no element at all. */
  function Elements(v: JsVal): (es: seq<JsVal>)
    requires v.Arr?
    ensures forall i :: 0 <= i < |es| ==> es[i] < v
  {
    if v.elems == [Hole] then [] else v.elems
  }

  predicate HasMember(v: JsVal, k: string)
    requires v.Obj?
  {
    k in v.fields && v.fields[k] != Undef
  }

  /** The same value but for key order, undefined members, and what JSON cannot write apart. */
  ghost predicate Alike(v: JsVal, w: JsVal)
    decreases v
  {
    match v
    case Arr(_) =>
      && w.Arr? && |Elements(v)| == |Elements(w)|
      && forall i :: 0 <= i < |Elements(v)| ==> Alike(Elements(v)[i], Elements(w)[i])
    case Obj(_, _) =>
      && w.Obj? && (forall k :: HasMember(v, k) <==> HasMember(w, k))
      && forall k :: k in v.fields && HasMember(v, k) ==> Alike(v.fields[k], w.fields[k])
    case _ => !w.Arr? && !w.Obj? && SameAtom(v, w)
  }

  lemma {:induction false} AlikeIffSameNormalForm(v: JsVal, w: JsVal)
    requires WellFormed(v) && WellFormed(w) && Hashable(v) && Hashable(w)
    ensures Alike(v, w) <==> Normal(v) == Normal(w)
    decreases v
  {
    if v.Arr? && w.Arr? {
      ArraysAlikeIff(v, w);
    } else if v.Obj? && w.Obj? {
      ObjectsAlikeIff(v, w);
    } else if !v.Arr? && !v.Obj? && !w.Arr? && !w.Obj? {
      AtomsAlikeIff(v, w);
    }
  }

  lemma AtomsAlikeIff(v: JsVal, w: JsVal)
    requires !v.Arr? && !v.Obj? && !w.Arr? && !w.Obj? && Hashable(v) && Hashable(w)
    ensures Alike(v, w) <==> Normal(v) == Normal(w)
  {
  }

  lemma {:induction false} ArraysAlikeIff(v: JsVal, w: JsVal)
    requires v.Arr? && w.Arr? && WellFormed(v) && WellFormed(w) && Hashable(v) && Hashable(w)
    ensures Alike(v, w) <==> Normal(v) == Normal(w)
    decreases v, 0
  {
    var xs, ys := Elements(v), Elements(w);
    assert Normal(v) == NArr(NormalElems(xs)) && Normal(w) == NArr(NormalElems(ys));
    if |xs| == |ys| {
      forall i | 0 <= i < |xs| ensures Alike(xs[i], ys[i]) <==> NormalElems(xs)[i] == NormalElems(ys)[i] {
        AlikeIffSameNormalForm(xs[i], ys[i]);
      }
      if Normal(v) == Normal(w) {
        assert Alike(v, w);
      } else {
        var i :| 0 <= i < |xs| && NormalElems(xs)[i] != NormalElems(ys)[i];
      }
    }
  }

  lemma {:induction false} ObjectsAlikeIff(v: JsVal, w: JsVal)
    requires v.Obj? && w.Obj? && WellFormed(v) && WellFormed(w) && Hashable(v) && Hashable(w)
    ensures Alike(v, w) <==> Normal(v) == Normal(w)
    decreases v, 0
  {
    forall k | k in v.fields && k in w.fields ensures SameVerdict(v, w, k) {
      AlikeIffSameNormalForm(v.fields[k], w.fields[k]);
    }
    if Normal(v) == Normal(w) { SameNormalAlike(v, w); }
    if Alike(v, w) { AlikeSameNormal(v, w); }
  }

  ghost predicate SameVerdict(v: JsVal, w: JsVal, k: string)
    requires v.Obj? && w.Obj? && k in v.fields && k in w.fields
  {
    Alike(v.fields[k], w.fields[k]) <==> Normal(v.fields[k]) == Normal(w.fields[k])
  }

  lemma SameNormalAlike(v: JsVal, w: JsVal)
    requires v.Obj? && w.Obj? && WellFormed(v) && WellFormed(w) && Normal(v) == Normal(w)
    requires forall k :: k in v.fields && k in w.fields ==> SameVerdict(v, w, k)
    ensures Alike(v, w)
  {
    SameObjectSameMembers(v, w);
    forall k | k in v.fields && HasMember(v, k) ensures Alike(v.fields[k], w.fields[k]) {
      assert HasMember(w, k) && SameVerdict(v, w, k);
    }
  }

  lemma AlikeSameNormal(v: JsVal, w: JsVal)
    requires v.Obj? && w.Obj? && WellFormed(v) && WellFormed(w) && Alike(v, w)
    requires forall k :: k in v.fields && k in w.fields ==> SameVerdict(v, w, k)
    ensures Normal(v) == Normal(w)
  {
    forall k | k in v.fields && k in w.fields && HasMember(v, k) ensures Normal(v.fields[k]) == Normal(w.fields[k]) {
      assert SameVerdict(v, w, k);
    }
    SameMembersSameObject(v, w);
  }

  lemma SameObjectSameMembers(v: JsVal, w: JsVal)
    requires v.Obj? && w.Obj? && WellFormed(v) && WellFormed(w) && Normal(v) == Normal(w)
    ensures forall k :: HasMember(v, k) <==> HasMember(w, k)
    ensures forall k :: k in v.fields && k in w.fields && HasMember(v, k) ==> Normal(v.fields[k]) == Normal(w.fields[k])
  {
    forall k ensures HasMember(v, k) <==> HasMember(w, k) { RequestKey.FieldsAgree(v, w, k); }
    forall k | k in v.fields && k in w.fields && HasMember(v, k) ensures Normal(v.fields[k]) == Normal(w.fields[k]) {
      RequestKey.FieldsAgree(v, w, k);
    }
  }

  lemma SameMembersSameObject(v: JsVal, w: JsVal)
    requires v.Obj? && w.Obj? && WellFormed(v) && WellFormed(w)
    requires forall k :: HasMember(v, k) <==> HasMember(w, k)
    requires forall k :: k in v.fields && k in w.fields && HasMember(v, k) ==> Normal(v.fields[k]) == Normal(w.fields[k])
    ensures Normal(v) == Normal(w)
  {
    var kv, kw := Defined(v.keys, v.fields), Defined(w.keys, w.fields);
    DefinedDistinct(v.keys, v.fields);
    DefinedDistinct(w.keys, w.fields);
    SortAscends(kv);
    SortAscends(kw);
    forall k ensures k in SortKeys(kv) <==> k in SortKeys(kw) {
      assert k in kv <==> HasMember(v, k);
      assert k in kw <==> HasMember(w, k);
    }
    AscendingUnique(SortKeys(kv), SortKeys(kw));
    SameMembers(SortKeys(kv), v, w);
  }

  /** Two values have one text exactly when they are alike. */
  lemma SameTextIffAlike(v: JsVal, w: JsVal)
    requires WellFormed(v) && WellFormed(w) && Hashable(v) && Hashable(w) && v != Hole && w != Hole
    ensures Stable(v) == Stable(w) <==> Alike(v, w)
  {
    StableIffSameNormalForm(v, w);
    AlikeIffSameNormalForm(v, w);
  }

  /** Two requests without a key of their own share a seed exactly when principal, method, URL and the
      varied headers are the same and their bodies are alike. */
  lemma SameSeedIff(d: RequestKey.Descriptor, n1: seq<string>, e: RequestKey.Descriptor, n2: seq<string>, url: string -> string)
    requires RequestKey.Proper(d) && RequestKey.Proper(e) && Hashable(d.body) && Hashable(e.body)
    ensures Stable(RequestKey.Seed(d, n1, None, url)) == Stable(RequestKey.Seed(e, n2, None, url)) <==>
              && d.principal == e.principal && Upper(d.verb) == Upper(e.verb) && url(d.url) == url(e.url)
              && (d.body == Undef <==> e.body == Undef) && Alike(d.body, e.body)
              && RequestKey.VaryObject(d.headers, n1).fields == RequestKey.VaryObject(e.headers, n2).fields
  {
    RequestKey.SeedsAgreeIff(d, n1, None, e, n2, None, url);
    AlikeIffSameNormalForm(d.body, e.body);
  }

  // ---- what the texts look like ---------------------------------------------------------------

  /** Atoms: numbers in decimal, a bigint with its tag, what JSON cannot write as `null`. */
  lemma AtomText(n: nat, m: int, s: string)
    ensures Stable(Num(n)) == Text(Decimal(n)) && (m < 0 ==> Stable(Num(m)) == Text("-" + Decimal(-m)))
    ensures Stable(BigInt(n)) == Text("bigint:" + Decimal(n)) && Stable(NegZero) == Text("0")
    ensures Stable(Bool(true)) == Text("true") && Stable(Bool(false)) == Text("false")
    ensures Stable(Undef) == Stable(Null) == Stable(NonFinite) == Text("null")
    ensures Stable(DateV(s)) == Stable(Str(s))
  {
  }

  /** Text without quotes, backslashes and control characters stands between quotes as it is. */
  lemma {:induction false} PlainText(s: string)
    requires forall i :: 0 <= i < |s| ==> s[i] >= ' ' && s[i] != '"' && s[i] != '\\'
    ensures Stable(Str(s)) == Text("\"" + s + "\"")
  {
    if s == "" {
    } else {
      PlainText(s[1..]);
      assert s == [s[0]] + s[1..];
      assert ("\"" + EscapeAll(s[1..]) + "\"")[1..|EscapeAll(s[1..])| + 1] == EscapeAll(s[1..]);
      assert ("\"" + s[1..] + "\"")[1..|s[1..]| + 1] == s[1..];
    }
  }

  /** The others are escaped as JSON prescribes (section 7 of RFC 8259). */
  lemma EscapedText()
    ensures Stable(Str("\"")) == Text("\"\\\"\"") && Stable(Str("\\")) == Text("\"\\\\\"")
    ensures Stable(Str("\n")) == Text("\"\\n\"") && Stable(Str("\r")) == Text("\"\\r\"") && Stable(Str("\t")) == Text("\"\\t\"")
    ensures Stable(Str("\U{8}")) == Text("\"\\b\"") && Stable(Str("\U{C}")) == Text("\"\\f\"")
  {
    OneEscaped('"', "\\\"");
    OneEscaped('\\', "\\\\");
    OneEscaped('\n', "\\n");
    OneEscaped('\r', "\\r");
    OneEscaped('\t', "\\t");
    OneEscaped('\U{8}', "\\b");
    OneEscaped('\U{C}', "\\f");
  }

  lemma ControlText()
    ensures Stable(Str("\U{1F}")) == Text("\"\\u001f\"")
  {
    assert [LowHex(1), LowHex(15)] == "1f";
    OneEscaped('\U{1F}', "\\u001f");
  }

  lemma OneEscaped(c: char, escaped: string)
    requires EscapeChar(c) == escaped
    ensures Stable(Str([c])) == Text("\"" + escaped + "\"")
  {
    assert EscapeAll([c]) == EscapeChar(c) + EscapeAll("") == escaped;
  }

  /** An array: its elements' texts, in order, holes empty, commas between, in brackets. */
  lemma ArrayText(es: seq<JsVal>, ts: seq<string>)
    requires |es| == |ts| && forall i :: 0 <= i < |es| ==> if es[i] == Hole then ts[i] == "" else Stable(es[i]) == Text(ts[i])
    ensures Stable(Arr(es)) == Text("[" + Join(ts, ",") + "]")
  {
    ElementTexts(es, ts);
  }

  lemma {:induction false} ElementTexts(es: seq<JsVal>, ts: seq<string>)
    requires |es| == |ts| && forall i :: 0 <= i < |es| ==> if es[i] == Hole then ts[i] == "" else Stable(es[i]) == Text(ts[i])
    ensures StableElems(es) == Pieces(ts)
  {
    if es == [] {
    } else {
      ElementTexts(es[1..], ts[1..]);
      assert ts == [ts[0]] + ts[1..] && "" + ts[0] == ts[0];
    }
  }

  /** An object: its defined keys in ascending order, each with its member's text, in braces. */
  lemma ObjectText(v: JsVal, ks: seq<string>, ts: seq<string>, pieces: seq<string>)
    requires v.Obj? && WellFormed(v) && Ascending(ks) && (forall k :: k in ks <==> HasMember(v, k))
    requires |ks| == |ts| == |pieces|
    requires forall i :: 0 <= i < |ks| ==> ks[i] in v.fields && Stable(v.fields[ks[i]]) == Text(ts[i])
    requires forall i :: 0 <= i < |ks| ==> Stable(Str(ks[i])).Text? && pieces[i] == Stable(Str(ks[i])).s + ":" + ts[i]
    ensures Stable(v) == Text("{" + Join(pieces, ",") + "}")
  {
    KeysAscend(v, ks);
    forall i | 0 <= i < |ks| ensures pieces[i] == JsonQuote(ks[i]) + ":" + ts[i] { assert Stable(Str(ks[i])).s == JsonQuote(ks[i]); }
    MemberTexts(v, ks, ts, pieces);
    ObjectOfPieces(v, ks, pieces);
  }

  lemma ObjectOfPieces(v: JsVal, ks: seq<string>, pieces: seq<string>)
    requires v.Obj? && SortKeys(Defined(v.keys, v.fields)) == ks && (forall k :: k in ks ==> k in v.fields)
    requires StableFields(ks, v) == Pieces(pieces)
    ensures Stable(v) == Text("{" + Join(pieces, ",") + "}")
  {
  }

  lemma KeysAscend(v: JsVal, ks: seq<string>)
    requires v.Obj? && WellFormed(v) && Ascending(ks) && (forall k :: k in ks <==> HasMember(v, k))
    ensures SortKeys(Defined(v.keys, v.fields)) == ks
  {
    var defined := Defined(v.keys, v.fields);
    DefinedDistinct(v.keys, v.fields);
    SortAscends(defined);
    forall k ensures k in SortKeys(defined) <==> k in ks {
      assert k in defined <==> HasMember(v, k);
      assert k in ks <==> HasMember(v, k);
    }
    AscendingUnique(SortKeys(defined), ks);
  }

  lemma {:induction false} MemberTexts(v: JsVal, ks: seq<string>, ts: seq<string>, pieces: seq<string>)
    requires v.Obj? && |ks| == |ts| == |pieces| && forall k :: k in ks ==> k in v.fields
    requires forall i :: 0 <= i < |ks| ==> Stable(v.fields[ks[i]]) == Text(ts[i]) && pieces[i] == JsonQuote(ks[i]) + ":" + ts[i]
    ensures StableFields(ks, v) == Pieces(pieces)
  {
    if ks == [] {
    } else {
      MemberTexts(v, ks[1..], ts[1..], pieces[1..]);
      assert pieces == [pieces[0]] + pieces[1..];
    }
  }
}
