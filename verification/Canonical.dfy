/** The canonical serialiser of packages/core/src/cache.ts and the request seeds built on it. */
module Canonical {
  import opened Optional
  import opened Text

  /** A JavaScript value as `stable` distinguishes it. `Hole` occurs as an array element only;
      numbers are integers, NaN and the infinities are `NonFinite`; `Opaque` is a function, a
      symbol or an object with a class of its own. */
  datatype JsVal =
    | Null | Undef | Hole | Bool(b: bool) | Num(n: int) | NegZero | NonFinite | BigInt(n: int)
    | Str(s: string) | DateV(iso: string) | BadDate | Opaque
    | Arr(elems: seq<JsVal>)
    | Obj(keys: seq<string>, fields: map<string, JsVal>)

  ghost predicate WellFormed(v: JsVal) {
    match v
    case Arr(es) => forall i :: 0 <= i < |es| ==> WellFormed(es[i])
    case Obj(ks, fs) =>
      && NoRepeats(ks)
      && (forall k :: k in ks <==> k in fs)
      && (forall k :: k in fs ==> fs[k] != Hole && WellFormed(fs[k]))
    case _ => true
  }

  datatype Outcome = Text(s: string) | Unhashable | RangeError

  // ---- JSON string quoting (section 7 of RFC 8259) ---------------------------------

  function LowHex(n: int): char
    requires 0 <= n < 16
  {
    if n < 10 then (48 + n) as char else (87 + n) as char
  }

  function EscapeChar(c: char): string {
    if c == '"' then "\\\""
    else if c == '\\' then "\\\\"
    else if c == '\U{8}' then "\\b"
    else if c == '\t' then "\\t"
    else if c == '\n' then "\\n"
    else if c == '\U{C}' then "\\f"
    else if c == '\r' then "\\r"
    else if c as int < 32 then "\\u00" + [LowHex(c as int / 16), LowHex(c as int % 16)]
    else [c]
  }

  function EscapeAll(s: string): string {
    if s == "" then "" else EscapeChar(s[0]) + EscapeAll(s[1..])
  }

  function JsonQuote(s: string): string {
    "\"" + EscapeAll(s) + "\""
  }

  // ---- stable ----------------------------------------------------------------------

  /** `keys.filter(k => obj[k] !== undefined)` */
  function Defined(ks: seq<string>, fs: map<string, JsVal>): (r: seq<string>)
    ensures forall k :: k in r <==> k in ks && k in fs && fs[k] != Undef
  {
    if ks == [] then []
    else (if ks[0] in fs && fs[ks[0]] != Undef then [ks[0]] else []) + Defined(ks[1..], fs)
  }

  function Stable(v: JsVal): Outcome
    decreases v, 0
  {
    match v
    case Null => Text("null")
    case Str(s) => Text(JsonQuote(s))
    case Num(n) => Text(DecimalInt(n))
    case NegZero => Text("0")
    case NonFinite => Text("null")
    case Bool(b) => Text(if b then "true" else "false")
    case BigInt(n) => Text("bigint:" + DecimalInt(n))
    case Undef => Text("null")
    case Hole => Text("null")
    case DateV(iso) => Text(JsonQuote(iso))
    case BadDate => RangeError
    case Opaque => Unhashable
    case Arr(es) => Wrapped("[", StableElems(es), "]")
    case Obj(ks, fs) => Wrapped("{", StableFields(SortKeys(Defined(ks, fs)), v), "}")
  }

  datatype Pieces = Pieces(ps: seq<string>) | Fails(how: Outcome)

  function Wrapped(open: string, ps: Pieces, close: string): Outcome {
    match ps case Fails(how) => how case Pieces(texts) => Text(open + Join(texts, ",") + close)
  }

  function Prepend(o: Outcome, prefix: string, rest: Pieces): Pieces {
    match o
    case Text(s) => (match rest case Pieces(ps) => Pieces([prefix + s] + ps) case Fails(how) => rest)
    case _ => Fails(o)
  }

  /** `value.map(...)` skips holes and `join` prints them as nothing. */
  function StableElems(es: seq<JsVal>): Pieces
    decreases es, 1
  {
    if es == [] then Pieces([])
    else
      var first := if es[0] == Hole then Text("") else if es[0] == Undef then Text("null") else Stable(es[0]);
      Prepend(first, "", StableElems(es[1..]))
  }

  function StableFields(ks: seq<string>, v: JsVal): Pieces
    requires v.Obj? && forall k :: k in ks ==> k in v.fields
    decreases v, 0, |ks|
  {
    if ks == [] then Pieces([])
    else Prepend(Stable(v.fields[ks[0]]), JsonQuote(ks[0]) + ":", StableFields(ks[1..], v))
  }

  // ---- the normal form ---------------------------------------------------------------

  /** What the text of a value means: keys sorted, `undefined` members gone, holes kept apart. */
  datatype Norm =
    | NNull | NHole | NBool(b: bool) | NNum(n: int) | NBig(n: int) | NStr(s: string)
    | NArr(elems: seq<Norm>)
    | NObj(members: seq<Member>)

  datatype Member = Member(key: string, value: Norm)

  /** No function, symbol, foreign object or invalid date where `stable` would reach it. */
  ghost predicate Hashable(v: JsVal) {
    match v
    case Opaque => false
    case BadDate => false
    case Arr(es) => forall i :: 0 <= i < |es| ==> Hashable(es[i])
    case Obj(ks, fs) => forall k :: k in fs ==> Hashable(fs[k])
    case _ => true
  }

  function Normal(v: JsVal): Norm
    decreases v, 0
  {
    match v
    case Null => NNull
    case Undef => NNull
    case NonFinite => NNull
    case Hole => NHole
    case Bool(b) => NBool(b)
    case Num(n) => NNum(n)
    case NegZero => NNum(0)
    case BigInt(n) => NBig(n)
    case Str(s) => NStr(s)
    case DateV(iso) => NStr(iso)
    case BadDate => NNull
    case Opaque => NNull
    case Arr(es) => NArr(if es == [Hole] then [] else NormalElems(es))
    case Obj(ks, fs) => NObj(Members(SortKeys(Defined(ks, fs)), v))
  }

  function NormalElems(es: seq<JsVal>): (r: seq<Norm>)
    ensures |r| == |es| && forall i :: 0 <= i < |es| ==> r[i] == Normal(es[i])
    decreases es, 1
  {
    if es == [] then [] else [Normal(es[0])] + NormalElems(es[1..])
  }

  function Members(ks: seq<string>, v: JsVal): (r: seq<Member>)
    requires v.Obj? && forall k :: k in ks ==> k in v.fields
    ensures |r| == |ks| && forall i :: 0 <= i < |ks| ==> r[i] == Member(ks[i], Normal(v.fields[ks[i]]))
    decreases v, 0, |ks|
  {
    if ks == [] then [] else [Member(ks[0], Normal(v.fields[ks[0]]))] + Members(ks[1..], v)
  }

  function Print(n: Norm): string
    decreases n, 0
  {
    match n
    case NNull => "null"
    case NHole => ""
    case NBool(b) => if b then "true" else "false"
    case NNum(i) => DecimalInt(i)
    case NBig(i) => "bigint:" + DecimalInt(i)
    case NStr(s) => JsonQuote(s)
    case NArr(es) => "[" + Join(PrintElems(es), ",") + "]"
    case NObj(ms) => "{" + Join(PrintMembers(ms), ",") + "}"
  }

  function PrintElems(es: seq<Norm>): (r: seq<string>)
    ensures |r| == |es| && forall i :: 0 <= i < |es| ==> r[i] == Print(es[i])
    decreases es, 1
  {
    if es == [] then [] else [Print(es[0])] + PrintElems(es[1..])
  }

  function PrintMembers(ms: seq<Member>): (r: seq<string>)
    ensures |r| == |ms| && forall i :: 0 <= i < |ms| ==> r[i] == JsonQuote(ms[i].key) + ":" + Print(ms[i].value)
    decreases ms, 1
  {
    if ms == [] then []
    else [JsonQuote(ms[0].key) + ":" + Print(ms[0].value)] + PrintMembers(ms[1..])
  }

  /** `stable` prints the normal form. */
  lemma {:induction false} StablePrintsNormal(v: JsVal)
    requires WellFormed(v) && Hashable(v) && v != Hole
    ensures Stable(v) == Text(Print(Normal(v)))
    decreases v, 2
  {
    if v.Arr? {
      StableArrayPrints(v.elems);
    } else if v.Obj? {
      StableObjectPrints(v);
    } else {
      StableAtomPrints(v);
    }
  }

  lemma StableAtomPrints(v: JsVal)
    requires !v.Arr? && !v.Obj? && Hashable(v) && v != Hole
    ensures Stable(v) == Text(Print(Normal(v)))
  {
  }

  lemma {:induction false} StableObjectPrints(v: JsVal)
    requires v.Obj? && WellFormed(v) && Hashable(v)
    ensures Stable(v) == Text(Print(Normal(v)))
    decreases v, 1
  {
    var ks := SortKeys(Defined(v.keys, v.fields));
    StableFieldsPrint(ks, v);
    assert Stable(v) == Wrapped("{", StableFields(ks, v), "}");
    NObjPrints(Members(ks, v));
    assert Normal(v) == NObj(Members(ks, v));
  }

  lemma NObjPrints(ms: seq<Member>)
    ensures Wrapped("{", Pieces(PrintMembers(ms)), "}") == Text(Print(NObj(ms)))
  {
  }

  lemma {:induction false} StableArrayPrints(es: seq<JsVal>)
    requires forall i :: 0 <= i < |es| ==> WellFormed(es[i]) && Hashable(es[i])
    ensures Stable(Arr(es)) == Text(Print(Normal(Arr(es))))
    decreases es, 2
  {
    StableElemsPrint(es);
    if es == [Hole] { LoneHole(); }
  }

  lemma LoneHole()
    ensures NormalElems([Hole]) == [NHole] && Join(PrintElems([NHole]), ",") == "" == Join(PrintElems([]), ",")
  {
    assert PrintElems([NHole]) == [""];
  }

  lemma {:induction false} StableElemsPrint(es: seq<JsVal>)
    requires forall i :: 0 <= i < |es| ==> WellFormed(es[i]) && Hashable(es[i])
    ensures StableElems(es) == Pieces(PrintElems(NormalElems(es)))
    decreases es, 1
  {
    if es == [] {
    } else {
      if es[0] != Hole { StablePrintsNormal(es[0]); }
      StableElemsPrint(es[1..]);
      assert NormalElems(es)[1..] == NormalElems(es[1..]);
      assert "" + Print(Normal(es[0])) == Print(Normal(es[0]));
    }
  }

  lemma {:induction false} StableFieldsPrint(ks: seq<string>, v: JsVal)
    requires v.Obj? && (forall k :: k in ks ==> k in v.fields) && WellFormed(v) && Hashable(v)
    ensures StableFields(ks, v) == Pieces(PrintMembers(Members(ks, v)))
    decreases v, 0, |ks|
  {
    if ks == [] {
    } else {
      StablePrintsNormal(v.fields[ks[0]]);
      StableFieldsPrint(ks[1..], v);
      assert Members(ks, v)[1..] == Members(ks[1..], v);
    }
  }

  /** `stable` gives a text exactly for the hashable values, and throws for all others. */
  lemma {:induction false} TextIffHashable(v: JsVal)
    requires WellFormed(v)
    ensures Stable(v).Text? <==> Hashable(v)
    decreases v, 2
  {
    match v
    case Arr(es) => ElemsIffHashable(es);
    case Obj(ks, fs) => FieldsIffHashable(v);
    case _ =>
  }

  lemma {:induction false} ElemsIffHashable(es: seq<JsVal>)
    requires forall i :: 0 <= i < |es| ==> WellFormed(es[i])
    ensures StableElems(es).Pieces? <==> forall i :: 0 <= i < |es| ==> Hashable(es[i])
    ensures StableElems(es).Fails? ==> !StableElems(es).how.Text?
    decreases es, 1
  {
    if es == [] {
    } else {
      TextIffHashable(es[0]);
      ElemsIffHashable(es[1..]);
      assert forall i :: 0 < i < |es| ==> es[i] == es[1..][i - 1];
    }
  }

  lemma {:induction false} FieldsIffHashable(v: JsVal)
    requires v.Obj? && WellFormed(v)
    ensures Stable(v).Text? <==> Hashable(v)
    decreases v, 1
  {
    var ks := SortKeys(Defined(v.keys, v.fields));
    KeysIffHashable(ks, v);
    forall k | k in v.fields ensures k in ks || Hashable(v.fields[k]) {}
  }

  lemma {:induction false} KeysIffHashable(ks: seq<string>, v: JsVal)
    requires v.Obj? && WellFormed(v) && forall k :: k in ks ==> k in v.fields
    ensures StableFields(ks, v).Pieces? <==> forall k :: k in ks ==> Hashable(v.fields[k])
    ensures StableFields(ks, v).Fails? ==> !StableFields(ks, v).how.Text?
    decreases v, 0, |ks|
  {
    if ks == [] {
    } else {
      TextIffHashable(v.fields[ks[0]]);
      KeysIffHashable(ks[1..], v);
    }
  }

  // ---- which failure it is -----------------------------------------------------------

  /** No function, symbol or object with a class of its own, at any depth. */
  ghost predicate NoOpaque(v: JsVal) {
    match v
    case Opaque => false
    case Arr(es) => forall i :: 0 <= i < |es| ==> NoOpaque(es[i])
    case Obj(ks, fs) => forall k :: k in fs ==> NoOpaque(fs[k])
    case _ => true
  }

  /** An invalid date, at any depth. */
  ghost predicate HoldsBadDate(v: JsVal) {
    match v
    case BadDate => true
    case Arr(es) => exists i :: 0 <= i < |es| && HoldsBadDate(es[i])
    case Obj(ks, fs) => exists k :: k in fs && HoldsBadDate(fs[k])
    case _ => false
  }

  lemma {:induction false} HashableMeans(v: JsVal)
    ensures Hashable(v) <==> NoOpaque(v) && !HoldsBadDate(v)
  {
    match v
    case Arr(es) => forall i | 0 <= i < |es| ensures Hashable(es[i]) <==> NoOpaque(es[i]) && !HoldsBadDate(es[i]) {
      HashableMeans(es[i]);
    }
    case Obj(ks, fs) => forall k | k in fs ensures Hashable(fs[k]) <==> NoOpaque(fs[k]) && !HoldsBadDate(fs[k]) {
      HashableMeans(fs[k]);
    }
    case _ =>
  }

  /** A failure of either kind has a part of that kind behind it. */
  ghost predicate Blames(how: Outcome, v: JsVal) {
    (how == RangeError ==> HoldsBadDate(v)) && (how == Unhashable ==> !NoOpaque(v))
  }

  lemma {:induction false} FailureHasACause(v: JsVal)
    requires WellFormed(v)
    ensures Blames(Stable(v), v)
    decreases v, 1
  {
    match v
    case Arr(es) =>
      ElemFailureHasACause(es);
      if StableElems(es).Fails? {
        var i :| 0 <= i < |es| && Blames(StableElems(es).how, es[i]);
      }
    case Obj(ks, fs) =>
      var sorted := SortKeys(Defined(ks, fs));
      FieldFailureHasACause(sorted, v);
      if StableFields(sorted, v).Fails? {
        var k :| k in sorted && Blames(StableFields(sorted, v).how, fs[k]);
      }
    case _ =>
  }

  lemma {:induction false} ElemFailureHasACause(es: seq<JsVal>)
    requires forall i :: 0 <= i < |es| ==> WellFormed(es[i])
    ensures StableElems(es).Fails? ==> exists i :: 0 <= i < |es| && Blames(StableElems(es).how, es[i])
    decreases es, 0
  {
    if es == [] {
    } else {
      FailureHasACause(es[0]);
      ElemFailureHasACause(es[1..]);
      assert forall i :: 0 < i < |es| ==> es[i] == es[1..][i - 1];
    }
  }

  lemma {:induction false} FieldFailureHasACause(ks: seq<string>, v: JsVal)
    requires v.Obj? && WellFormed(v) && forall k :: k in ks ==> k in v.fields
    ensures StableFields(ks, v).Fails? ==> exists k :: k in ks && Blames(StableFields(ks, v).how, v.fields[k])
    decreases v, 0, |ks|
  {
    if ks == [] {
    } else {
      FailureHasACause(v.fields[ks[0]]);
      FieldFailureHasACause(ks[1..], v);
    }
  }

  /** A range error always comes from an invalid date inside; and where nothing unhashable could
      be met first, an invalid date inside always makes one. */
  lemma RangeErrorMeansBadDate(v: JsVal)
    requires WellFormed(v)
    ensures Stable(v) == RangeError ==> HoldsBadDate(v)
    ensures NoOpaque(v) ==> (Stable(v) == RangeError <==> HoldsBadDate(v))
  {
    FailureHasACause(v);
    TextIffHashable(v);
    HashableMeans(v);
  }

  // ---- unique readability --------------------------------------------------------------

  predicate Ends(x: string) {
    x == "" || x[0] == ',' || x[0] == ']' || x[0] == '}'
  }

  /** The one array text that could be read two ways is ruled out by the normal form. */
  predicate Valid(n: Norm) {
    match n
    case NArr(es) => es != [NHole] && forall i :: 0 <= i < |es| ==> Valid(es[i])
    case NObj(ms) => forall i :: 0 <= i < |ms| ==> ms[i].value != NHole && Valid(ms[i].value)
    case _ => true
  }

  lemma EscapeSplits(c: char, x: string, d: char, y: string)
    requires EscapeChar(c) + x == EscapeChar(d) + y
    ensures c == d && x == y
  {
    var s, t := EscapeChar(c) + x, EscapeChar(d) + y;
    assert s[0] == EscapeChar(c)[0] && t[0] == EscapeChar(d)[0];
    if |EscapeChar(c)| > 1 && |EscapeChar(d)| > 1 {
      assert s[1] == EscapeChar(c)[1] && t[1] == EscapeChar(d)[1];
      if |EscapeChar(c)| == 6 {
        assert s[4] == EscapeChar(c)[4] && t[4] == EscapeChar(d)[4];
        assert s[5] == EscapeChar(c)[5] && t[5] == EscapeChar(d)[5];
        assert c as int == c as int / 16 * 16 + c as int % 16;
        assert d as int == d as int / 16 * 16 + d as int % 16;
      }
    }
    assert c == d;
    SplitLength(EscapeChar(c), x, EscapeChar(d), y);
  }

  lemma EscapeNotQuote(c: char, x: string)
    ensures EscapeChar(c) + x != "" && (EscapeChar(c) + x)[0] != '"'
  {
  }

  lemma {:induction false} EscapedSplits(s: string, x: string, t: string, y: string)
    requires EscapeAll(s) + "\"" + x == EscapeAll(t) + "\"" + y
    ensures s == t && x == y
    decreases |s|
  {
    EscapedHead(s, x);
    EscapedHead(t, y);
    if s != "" && t != "" {
      EscapeSplits(s[0], EscapeAll(s[1..]) + "\"" + x, t[0], EscapeAll(t[1..]) + "\"" + y);
      EscapedSplits(s[1..], x, t[1..], y);
      assert s == [s[0]] + s[1..] && t == [t[0]] + t[1..];
    } else if s == "" && t == "" {
      assert x == ("\"" + x)[1..] && y == ("\"" + y)[1..];
    }
  }

  lemma EscapedHead(s: string, x: string)
    ensures var e := EscapeAll(s) + "\"" + x;
      && e != "" && (e[0] == '"' <==> s == "")
      && (s == "" ==> e == "\"" + x)
      && (s != "" ==> e == EscapeChar(s[0]) + (EscapeAll(s[1..]) + "\"" + x))
  {
    if s != "" {
      EscapeNotQuote(s[0], EscapeAll(s[1..]) + "\"" + x);
      Assoc(EscapeChar(s[0]), EscapeAll(s[1..]), "\"");
      Assoc(EscapeChar(s[0]), EscapeAll(s[1..]) + "\"", x);
    }
  }

  lemma QuoteSplits(s: string, x: string, t: string, y: string)
    requires JsonQuote(s) + x == JsonQuote(t) + y
    ensures s == t && x == y
  {
    Bracketed("\"", EscapeAll(s), "\"", x);
    Bracketed("\"", EscapeAll(t), "\"", y);
    SplitLength("\"", EscapeAll(s) + "\"" + x, "\"", EscapeAll(t) + "\"" + y);
    EscapedSplits(s, x, t, y);
  }

  lemma NumberSplits(m: int, x: string, n: int, y: string)
    requires Ends(x) && Ends(y) && DecimalInt(m) + x == DecimalInt(n) + y
    ensures m == n && x == y
  {
    SignFirst(m, x);
    SignFirst(n, y);
    if m < 0 {
      DecimalSplits(-m, x, -n, y);
    } else {
      assert DecimalInt(m) == Decimal(m) && DecimalInt(n) == Decimal(n);
      DecimalSplits(m, x, n, y);
    }
  }

  lemma SignFirst(m: int, x: string)
    ensures var s := DecimalInt(m) + x; s != "" && (s[0] == '-' <==> m < 0)
    ensures m < 0 ==> (DecimalInt(m) + x)[1..] == Decimal(-m) + x
  {
  }

  lemma DecimalSplits(m: nat, x: string, n: nat, y: string)
    requires Ends(x) && Ends(y) && Decimal(m) + x == Decimal(n) + y
    ensures m == n && x == y
  {
    SplitDigits(Decimal(m), x, Decimal(n), y);
    DecimalInjective(m, n);
  }

  /** The first character tells the kind of value; a hole prints nothing at all. */
  function Lead(n: Norm): string {
    match n
    case NHole => ",]}"
    case NNull => "n"
    case NBool(b) => if b then "t" else "f"
    case NNum(_) => "-0123456789"
    case NBig(_) => "b"
    case NStr(_) => "\""
    case NArr(_) => "["
    case NObj(_) => "{"
  }

  lemma LeadingChar(n: Norm, x: string)
    requires Ends(x)
    ensures Print(n) + x == "" ==> n == NHole
    ensures Print(n) + x != "" ==> (Print(n) + x)[0] in Lead(n)
  {
    match n
    case NHole =>
      assert Print(n) + x == x;
      assert x != "" ==> x[0] in ",]}" by { assert ",]}"[0] == ',' && ",]}"[1] == ']' && ",]}"[2] == '}'; }
    case NNum(i) => NumberLead(i, x);
    case _ =>
  }

  lemma NumberLead(i: int, x: string)
    ensures DecimalInt(i) + x != "" && (DecimalInt(i) + x)[0] in "-0123456789"
  {
    var c := (DecimalInt(i) + x)[0];
    assert c == DecimalInt(i)[0];
    if i < 0 {
      assert c == '-' == "-0123456789"[0];
    } else {
      assert IsDigit(c) && c == "-0123456789"[c as int - 47];
    }
  }

  lemma LeadsDiffer(a: Norm, b: Norm, c: char)
    requires c in Lead(a) && c in Lead(b)
    ensures match a
      case NHole => b == NHole case NNull => b == NNull case NBool(v) => b == NBool(v)
      case NNum(_) => b.NNum? case NBig(_) => b.NBig? case NStr(_) => b.NStr?
      case NArr(_) => b.NArr? case NObj(_) => b.NObj?
  {
  }

  lemma {:induction false} PrintSplits(a: Norm, x: string, b: Norm, y: string)
    requires Valid(a) && Valid(b) && Ends(x) && Ends(y)
    requires Print(a) + x == Print(b) + y
    ensures a == b && x == y
    decreases a, 0
  {
    SameKind(a, x, b, y);
    match a
    case NArr(es) => ArraySplits(es, x, b.elems, y);
    case NObj(ms) => ObjectSplits(ms, x, b.members, y);
    case _ => AtomSplits(a, x, b, y);
  }

  ghost predicate Alike(a: Norm, b: Norm) {
    match a
    case NHole => b == NHole
    case NNull => b == NNull
    case NBool(v) => b == NBool(v)
    case NNum(_) => b.NNum?
    case NBig(_) => b.NBig?
    case NStr(_) => b.NStr?
    case NArr(_) => b.NArr?
    case NObj(_) => b.NObj?
  }

  lemma SameKind(a: Norm, x: string, b: Norm, y: string)
    requires Ends(x) && Ends(y) && Print(a) + x == Print(b) + y
    ensures Alike(a, b)
  {
    LeadingChar(a, x);
    LeadingChar(b, y);
    if Print(a) + x != "" { LeadsDiffer(a, b, (Print(a) + x)[0]); }
  }

  lemma AtomSplits(a: Norm, x: string, b: Norm, y: string)
    requires Alike(a, b) && !a.NArr? && !a.NObj? && Ends(x) && Ends(y) && Print(a) + x == Print(b) + y
    ensures a == b && x == y
  {
    match a
    case NNum(i) => NumberSplits(i, x, b.n, y);
    case NBig(i) =>
      Assoc("bigint:", DecimalInt(i), x);
      Assoc("bigint:", DecimalInt(b.n), y);
      SplitLength("bigint:", DecimalInt(i) + x, "bigint:", DecimalInt(b.n) + y);
      NumberSplits(i, x, b.n, y);
    case NStr(s) => QuoteSplits(s, x, b.s, y);
    case _ => SplitLength(Print(a), x, Print(b), y);
  }

  lemma {:induction false} ArraySplits(a: seq<Norm>, x: string, b: seq<Norm>, y: string)
    requires Valid(NArr(a)) && Valid(NArr(b)) && Ends(x) && Ends(y)
    requires Print(NArr(a)) + x == Print(NArr(b)) + y
    ensures a == b && x == y
    decreases a, 2
  {
    ElemsTail(a, x);
    ElemsTail(b, y);
    Bracketed("[", Join(PrintElems(a), ","), "]", x);
    Bracketed("[", Join(PrintElems(b), ","), "]", y);
    SplitLength("[", ElemText(a, x), "[", ElemText(b, y));
    EmptyOrNot(a, x, b, y);
    if a != [] { ElemsSplit(a, x, b, y); }
  }

  lemma {:induction false} ObjectSplits(a: seq<Member>, x: string, b: seq<Member>, y: string)
    requires Valid(NObj(a)) && Valid(NObj(b)) && Ends(x) && Ends(y)
    requires Print(NObj(a)) + x == Print(NObj(b)) + y
    ensures a == b && x == y
    decreases a, 2
  {
    MembersTail(a, x);
    MembersTail(b, y);
    Bracketed("{", Join(PrintMembers(a), ","), "}", x);
    Bracketed("{", Join(PrintMembers(b), ","), "}", y);
    SplitLength("{", MemberText(a, x), "{", MemberText(b, y));
    MembersSplit(a, x, b, y);
  }

  lemma Bracketed(o: string, t: string, c: string, x: string)
    ensures o + t + c + x == o + (t + c + x)
  {
  }

  /** The rest of an array's text after its opening bracket. */
  function ElemText(es: seq<Norm>, x: string): string {
    if es == [] then "]" + x
    else Print(es[0]) + (if |es| == 1 then "]" + x else "," + ElemText(es[1..], x))
  }

  lemma Listed(p: string, t: string, c: string, x: string)
    ensures p + "," + t + c + x == p + ("," + (t + c + x))
  {
  }

  lemma {:induction false} ElemsTail(es: seq<Norm>, x: string)
    ensures Join(PrintElems(es), ",") + "]" + x == ElemText(es, x)
  {
    if |es| == 1 {
      assert Join(PrintElems(es), ",") == Print(es[0]);
      Assoc(Print(es[0]), "]", x);
    } else if es != [] {
      ElemsTail(es[1..], x);
      assert PrintElems(es)[1..] == PrintElems(es[1..]);
      Listed(Print(es[0]), Join(PrintElems(es[1..]), ","), "]", x);
    }
  }

  lemma EmptyOrNot(a: seq<Norm>, x: string, b: seq<Norm>, y: string)
    requires a != [NHole] && b != [NHole] && ElemText(a, x) == ElemText(b, y)
    ensures a == [] <==> b == []
    ensures a == [] ==> x == y
  {
    if a == [] && b == [] {
      assert x == ("]" + x)[1..] && y == ("]" + y)[1..];
    }
    NonEmptyText(a, x);
    NonEmptyText(b, y);
  }

  lemma NonEmptyText(a: seq<Norm>, x: string)
    requires a != [NHole]
    ensures ElemText(a, x) != "" && (ElemText(a, x)[0] == ']' <==> a == [])
  {
    if a != [] {
      var rest := if |a| == 1 then "]" + x else "," + ElemText(a[1..], x);
      LeadingChar(a[0], rest);
      assert a[0] == NHole ==> Print(a[0]) + rest == rest;
    }
  }

  lemma {:induction false} ElemsSplit(a: seq<Norm>, x: string, b: seq<Norm>, y: string)
    requires a != [] && b != [] && ElemText(a, x) == ElemText(b, y)
    requires forall i :: 0 <= i < |a| ==> Valid(a[i])
    requires forall i :: 0 <= i < |b| ==> Valid(b[i])
    ensures a == b && x == y
    decreases a, 1
  {
    PrintSplits(a[0], ElemRest(a, x), b[0], ElemRest(b, y));
    RestsSplit(a, x, b, y);
    if |a| > 1 { ElemsSplit(a[1..], x, b[1..], y); }
    assert a == [a[0]] + a[1..] && b == [b[0]] + b[1..];
  }

  function ElemRest(es: seq<Norm>, x: string): string
    requires es != []
  {
    if |es| == 1 then "]" + x else "," + ElemText(es[1..], x)
  }

  lemma RestsSplit(a: seq<Norm>, x: string, b: seq<Norm>, y: string)
    requires a != [] && b != [] && ElemRest(a, x) == ElemRest(b, y)
    ensures |a| == 1 <==> |b| == 1
    ensures if |a| == 1 then x == y else ElemText(a[1..], x) == ElemText(b[1..], y)
  {
    var ra, rb := ElemRest(a, x), ElemRest(b, y);
    assert ra[0] == (if |a| == 1 then ']' else ',') && rb[0] == (if |b| == 1 then ']' else ',');
    assert ra[1..] == if |a| == 1 then x else ElemText(a[1..], x);
    assert rb[1..] == if |b| == 1 then y else ElemText(b[1..], y);
  }

  function MemberText(ms: seq<Member>, x: string): string {
    if ms == [] then "}" + x
    else JsonQuote(ms[0].key) + (":" + (Print(ms[0].value)
           + (if |ms| == 1 then "}" + x else "," + MemberText(ms[1..], x))))
  }

  function MemberRest(ms: seq<Member>, x: string): string
    requires ms != []
  {
    if |ms| == 1 then "}" + x else "," + MemberText(ms[1..], x)
  }

  lemma {:induction false} MembersTail(ms: seq<Member>, x: string)
    ensures Join(PrintMembers(ms), ",") + "}" + x == MemberText(ms, x)
  {
    if ms == [] {
    } else {
      var q, p := JsonQuote(ms[0].key), Print(ms[0].value);
      if |ms| == 1 {
        assert Join(PrintMembers(ms), ",") == q + ":" + p;
        Paired(q, p, "}", x);
      } else {
        MembersTail(ms[1..], x);
        assert PrintMembers(ms)[1..] == PrintMembers(ms[1..]);
        Listed(q + ":" + p, Join(PrintMembers(ms[1..]), ","), "}", x);
        Paired(q, p, ",", MemberText(ms[1..], x));
        Assoc(q + ":" + p, ",", MemberText(ms[1..], x));
      }
    }
  }

  lemma Paired(q: string, p: string, c: string, x: string)
    ensures q + ":" + p + c + x == q + (":" + (p + (c + x)))
  {
  }

  lemma MemberRestsSplit(a: seq<Member>, x: string, b: seq<Member>, y: string)
    requires a != [] && b != [] && MemberRest(a, x) == MemberRest(b, y)
    ensures |a| == 1 <==> |b| == 1
    ensures if |a| == 1 then x == y else MemberText(a[1..], x) == MemberText(b[1..], y)
  {
    var ra, rb := MemberRest(a, x), MemberRest(b, y);
    assert ra[0] == (if |a| == 1 then '}' else ',') && rb[0] == (if |b| == 1 then '}' else ',');
    assert ra[1..] == if |a| == 1 then x else MemberText(a[1..], x);
    assert rb[1..] == if |b| == 1 then y else MemberText(b[1..], y);
  }

  lemma MemberEmptyOrNot(a: seq<Member>, x: string, b: seq<Member>, y: string)
    requires MemberText(a, x) == MemberText(b, y)
    ensures a == [] <==> b == []
    ensures a == [] ==> x == y
  {
    assert MemberText(a, x)[0] == (if a == [] then '}' else '"');
    assert MemberText(b, y)[0] == (if b == [] then '}' else '"');
    if a == [] && b == [] {
      assert x == ("}" + x)[1..] && y == ("}" + y)[1..];
    }
  }

  lemma MemberHeadsSplit(p: Member, ra: string, q: Member, rb: string)
    requires JsonQuote(p.key) + (":" + (Print(p.value) + ra)) == JsonQuote(q.key) + (":" + (Print(q.value) + rb))
    ensures p.key == q.key && Print(p.value) + ra == Print(q.value) + rb
  {
    QuoteSplits(p.key, ":" + (Print(p.value) + ra), q.key, ":" + (Print(q.value) + rb));
    SplitLength(":", Print(p.value) + ra, ":", Print(q.value) + rb);
  }

  lemma {:induction false} MembersSplit(a: seq<Member>, x: string, b: seq<Member>, y: string)
    requires MemberText(a, x) == MemberText(b, y)
    requires forall i :: 0 <= i < |a| ==> Valid(a[i].value)
    requires forall i :: 0 <= i < |b| ==> Valid(b[i].value)
    ensures a == b && x == y
    decreases a, 1
  {
    MemberEmptyOrNot(a, x, b, y);
    if a != [] {
      MemberHeadsSplit(a[0], MemberRest(a, x), b[0], MemberRest(b, y));
      PrintSplits(a[0].value, MemberRest(a, x), b[0].value, MemberRest(b, y));
      MemberRestsSplit(a, x, b, y);
      if |a| > 1 { MembersSplit(a[1..], x, b[1..], y); }
      assert a == [a[0]] + a[1..] && b == [b[0]] + b[1..];
    }
  }

  lemma {:induction false} NormalIsValid(v: JsVal)
    requires WellFormed(v)
    ensures Valid(Normal(v)) && (Normal(v) == NHole <==> v == Hole)
    decreases v, 0
  {
    match v
    case Arr(es) =>
      forall i | 0 <= i < |es| ensures Valid(Normal(es[i])) { NormalIsValid(es[i]); }
    case Obj(ks, fs) =>
      forall k | k in fs ensures Valid(Normal(fs[k])) && Normal(fs[k]) != NHole { NormalIsValid(fs[k]); }
    case _ =>
  }

  /** Two values have the same text exactly when they have the same normal form. */
  lemma StableIffSameNormalForm(v: JsVal, w: JsVal)
    requires WellFormed(v) && WellFormed(w) && Hashable(v) && Hashable(w) && v != Hole && w != Hole
    ensures Stable(v) == Stable(w) <==> Normal(v) == Normal(w)
  {
    StablePrintsNormal(v);
    StablePrintsNormal(w);
    NormalIsValid(v);
    NormalIsValid(w);
    if Stable(v) == Stable(w) {
      assert Print(Normal(v)) + "" == Print(Normal(w)) + "";
      PrintSplits(Normal(v), "", Normal(w), "");
    }
  }

  /** A sparse array prints a hole as nothing, not as `null`: one hole alone reads as no element. */
  lemma HoleIsNotNull()
    ensures Stable(Arr([Hole])) == Stable(Arr([])) && Stable(Arr([Hole])) != Stable(Arr([Undef]))
  {
    StableIffSameNormalForm(Arr([Hole]), Arr([]));
    StableIffSameNormalForm(Arr([Hole]), Arr([Undef]));
    assert NormalElems([Undef])[0] == NNull;
  }

  /** Equal but for the insertion order of object keys, at any depth. */
  ghost predicate SameButOrder(v: JsVal, w: JsVal) {
    if v.Obj? && w.Obj? then
      v.fields.Keys == w.fields.Keys && forall k :: k in v.fields ==> SameButOrder(v.fields[k], w.fields[k])
    else if v.Arr? && w.Arr? then
      |v.elems| == |w.elems| && forall i :: 0 <= i < |v.elems| ==> SameButOrder(v.elems[i], w.elems[i])
    else v == w
  }

  lemma {:induction false} InsertionOrderNeverMatters(v: JsVal, w: JsVal)
    requires WellFormed(v) && WellFormed(w) && SameButOrder(v, w)
    ensures Normal(v) == Normal(w)
    decreases v
  {
    if v.Obj? && w.Obj? {
      forall k | k in v.fields
        ensures Normal(v.fields[k]) == Normal(w.fields[k]) && (v.fields[k] == Undef <==> w.fields[k] == Undef)
      {
        InsertionOrderNeverMatters(v.fields[k], w.fields[k]);
      }
      SameObject(v, w);
    } else if v.Arr? && w.Arr? {
      forall i | 0 <= i < |v.elems|
        ensures Normal(v.elems[i]) == Normal(w.elems[i]) && (v.elems[i] == Hole <==> w.elems[i] == Hole)
      {
        InsertionOrderNeverMatters(v.elems[i], w.elems[i]);
      }
      assert NormalElems(v.elems) == NormalElems(w.elems);
    }
  }

  lemma SameObject(v: JsVal, w: JsVal)
    requires v.Obj? && w.Obj? && WellFormed(v) && WellFormed(w) && v.fields.Keys == w.fields.Keys
    requires forall k :: k in v.fields ==>
               Normal(v.fields[k]) == Normal(w.fields[k]) && (v.fields[k] == Undef <==> w.fields[k] == Undef)
    ensures Normal(v) == Normal(w)
  {
    var kv, kw := Defined(v.keys, v.fields), Defined(w.keys, w.fields);
    DefinedDistinct(v.keys, v.fields);
    DefinedDistinct(w.keys, w.fields);
    SortAscends(kv);
    SortAscends(kw);
    assert forall k :: k in SortKeys(kv) <==> k in SortKeys(kw);
    AscendingUnique(SortKeys(kv), SortKeys(kw));
    SameMembers(SortKeys(kv), v, w);
  }

  lemma {:induction false} SameMembers(ks: seq<string>, v: JsVal, w: JsVal)
    requires v.Obj? && w.Obj? && forall k :: k in ks ==> k in v.fields && k in w.fields
    requires forall k :: k in ks ==> Normal(v.fields[k]) == Normal(w.fields[k])
    ensures Members(ks, v) == Members(ks, w)
  {
    if ks == [] {
    } else {
      SameMembers(ks[1..], v, w);
    }
  }

  lemma {:induction false} DefinedDistinct(ks: seq<string>, fs: map<string, JsVal>)
    requires NoRepeats(ks)
    ensures NoRepeats(Defined(ks, fs))
  {
    if ks == [] {
    } else {
      DefinedDistinct(ks[1..], fs);
      var rest := Defined(ks[1..], fs);
      assert ks[0] !in rest;
      assert Defined(ks, fs) == [ks[0]] + rest || Defined(ks, fs) == rest;
    }
  }
}
