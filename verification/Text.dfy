/** String helpers shared by the encoders: joining, decimal printing, and the
    unique-split lemmas every decodability proof rests on. */
module Text {

  /** `parts.join(sep)` */
  function Join(parts: seq<string>, sep: string): string {
    if |parts| == 0 then ""
    else if |parts| == 1 then parts[0]
    else parts[0] + sep + Join(parts[1..], sep)
  }

  predicate IsDigit(c: char) {
    '0' <= c <= '9'
  }

  predicate IsHex(c: char) {
    IsDigit(c) || 'a' <= c <= 'f'
  }

  /** The digest format of `xxh128`: 32 lower-case hex digits. */
  predicate IsHex32(s: string) {
    |s| == 32 && forall i :: 0 <= i < |s| ==> IsHex(s[i])
  }

  function LowerChar(c: char): char {
    if 'A' <= c <= 'Z' then (c as int + 32) as char else c
  }

  /** `toLowerCase` on the ASCII letters header names are made of. */
  function Lower(s: string): (r: string)
    ensures |r| == |s| && forall i :: 0 <= i < |s| ==> r[i] == LowerChar(s[i])
  {
    if s == "" then "" else [LowerChar(s[0])] + Lower(s[1..])
  }

  function UpperChar(c: char): char {
    if 'a' <= c <= 'z' then (c as int - 32) as char else c
  }

  /** `toUpperCase` on the ASCII letters method names are made of. */
  function Upper(s: string): string {
    if s == "" then "" else [UpperChar(s[0])] + Upper(s[1..])
  }

  /** `s.split(c)` */
  function Split(s: string, c: char): (r: seq<string>)
    ensures |r| > 0
  {
    if s == "" then [""]
    else
      var r := Split(s[1..], c);
      if s[0] == c then [""] + r else [[s[0]] + r[0]] + r[1..]
  }

  predicate IsSpace(c: char) {
    c == ' ' || '\t' <= c <= '\r' || c == '\U{A0}' || c == '\U{FEFF}' || c == '\U{1680}'
    || '\U{2000}' <= c <= '\U{200A}' || c == '\U{2028}' || c == '\U{2029}' || c == '\U{202F}'
    || c == '\U{205F}' || c == '\U{3000}'
  }

  function TrimStart(s: string): string {
    if s != "" && IsSpace(s[0]) then TrimStart(s[1..]) else s
  }

  function TrimEnd(s: string): string {
    if s != "" && IsSpace(s[|s| - 1]) then TrimEnd(s[..|s| - 1]) else s
  }

  function Decimal(n: nat): (s: string)
    ensures |s| > 0
    ensures forall i :: 0 <= i < |s| ==> IsDigit(s[i])
  {
    if n < 10 then [(48 + n) as char] else Decimal(n / 10) + [(48 + n % 10) as char]
  }

  function DecimalInt(n: int): string {
    if n < 0 then "-" + Decimal(-n) else Decimal(n)
  }

  function DecimalValue(s: string): int {
    if s == [] then 0 else 10 * DecimalValue(s[..|s| - 1]) + (s[|s| - 1] as int - 48)
  }

  lemma {:induction false} DecimalReadsBack(n: nat)
    ensures DecimalValue(Decimal(n)) == n
  {
    if n < 10 {
      assert Decimal(n)[..0] == [];
    } else {
      DecimalReadsBack(n / 10);
      assert Decimal(n)[..|Decimal(n)| - 1] == Decimal(n / 10);
    }
  }

  /** Digits as one writes them, the last one standing for the units. */
  lemma DecimalLooksLike(q: nat, d: nat)
    requires d < 10
    ensures Decimal(d) == ["0123456789"[d]]
    ensures q > 0 ==> Decimal(10 * q + d) == Decimal(q) + ["0123456789"[d]]
  {
    assert "0123456789"[d] == (48 + d) as char;
    if q > 0 { assert (10 * q + d) / 10 == q && (10 * q + d) % 10 == d; }
  }

  lemma DecimalInjective(m: nat, n: nat)
    requires Decimal(m) == Decimal(n)
    ensures m == n
  {
    DecimalReadsBack(m);
    DecimalReadsBack(n);
  }

  /** A delimiter that occurs in neither prefix splits a string in one way only. */
  lemma {:induction false} SplitAt<T>(a: seq<T>, c: T, x: seq<T>, b: seq<T>, y: seq<T>)
    requires c !in a && c !in b
    requires a + [c] + x == b + [c] + y
    ensures a == b && x == y
  {
    var s, t := a + [c] + x, b + [c] + y;
    assert s[0] == (a + [c])[0] && t[0] == (b + [c])[0];
    assert s[1..] == (a + [c])[1..] + x && t[1..] == (b + [c])[1..] + y;
    if a != [] && b != [] {
      assert (a + [c])[1..] == a[1..] + [c] && (b + [c])[1..] == b[1..] + [c];
      SplitAt(a[1..], c, x, b[1..], y);
      assert a == [a[0]] + a[1..] && b == [b[0]] + b[1..];
    }
  }

  /** Two runs of digits, each followed by something that is not a digit. */
  lemma {:induction false} SplitDigits(a: string, x: string, b: string, y: string)
    requires forall i :: 0 <= i < |a| ==> IsDigit(a[i])
    requires forall i :: 0 <= i < |b| ==> IsDigit(b[i])
    requires x == [] || !IsDigit(x[0])
    requires y == [] || !IsDigit(y[0])
    requires a + x == b + y
    ensures a == b && x == y
  {
    assert [] + x == x && [] + y == y;
    if a != [] && b != [] {
      assert a[0] == (a + x)[0] == (b + y)[0] == b[0];
      assert (a + x)[1..] == a[1..] + x && (b + y)[1..] == b[1..] + y;
      SplitDigits(a[1..], x, b[1..], y);
      assert a == [a[0]] + a[1..] && b == [b[0]] + b[1..];
    }
  }

  lemma Assoc<T>(a: seq<T>, b: seq<T>, c: seq<T>)
    ensures a + b + c == a + (b + c)
  {
  }

  /** Equal-length prefixes of equal strings are equal. */
  lemma SplitLength<T>(a: seq<T>, x: seq<T>, b: seq<T>, y: seq<T>)
    requires |a| == |b| && a + x == b + y
    ensures a == b && x == y
  {
    assert a == (a + x)[..|a|] == b;
    assert x == (a + x)[|a|..] == y;
  }

  lemma SplitSuffix<T>(a: seq<T>, x: seq<T>, b: seq<T>, y: seq<T>)
    requires |x| == |y| && a + x == b + y
    ensures a == b && x == y
  {
    SplitLength(a, x, b, y);
  }

  // ---- the order of `sort()` on strings ----------------------------------------

  /** JS `<` on strings. */
  predicate Less(a: string, b: string) {
    b != "" && (a == "" || a[0] < b[0] || (a[0] == b[0] && Less(a[1..], b[1..])))
  }

  lemma {:induction false} LessTotal(a: string, b: string)
    ensures a == b || Less(a, b) || Less(b, a)
    ensures !(Less(a, b) && Less(b, a)) && !Less(a, a)
  {
    if a != "" && b != "" {
      LessTotal(a[1..], b[1..]);
      assert a == [a[0]] + a[1..] && b == [b[0]] + b[1..];
    }
    if a == "" {
    } else {
      LessTotal(a[1..], a[1..]);
    }
  }

  lemma {:induction false} LessTransitive(a: string, b: string, c: string)
    requires Less(a, b) && Less(b, c)
    ensures Less(a, c)
  {
    if a != "" && a[0] == b[0] && b[0] == c[0] { LessTransitive(a[1..], b[1..], c[1..]); }
  }

  ghost predicate Ascending(ks: seq<string>) {
    ks == [] || (Ascending(ks[1..]) && forall k :: k in ks[1..] ==> Less(ks[0], k))
  }

  predicate NoRepeats(ks: seq<string>) {
    ks == [] || (ks[0] !in ks[1..] && NoRepeats(ks[1..]))
  }

  function InsertKey(k: string, ks: seq<string>): (r: seq<string>)
    ensures forall x :: x in r <==> x == k || x in ks
  {
    if ks == [] || Less(k, ks[0]) then [k] + ks else [ks[0]] + InsertKey(k, ks[1..])
  }

  /** `keys.sort()` */
  function SortKeys(ks: seq<string>): (r: seq<string>)
    ensures forall x :: x in r <==> x in ks
  {
    if ks == [] then [] else InsertKey(ks[0], SortKeys(ks[1..]))
  }

  lemma {:induction false} InsertAscends(k: string, ks: seq<string>)
    requires Ascending(ks) && k !in ks
    ensures Ascending(InsertKey(k, ks))
  {
    if ks == [] {
    } else {
      LessTotal(k, ks[0]);
      if Less(k, ks[0]) {
        assert ([k] + ks)[1..] == ks;
        forall x | x in ks ensures Less(k, x) {
          if x != ks[0] { assert x in ks[1..]; LessTransitive(k, ks[0], x); }
        }
      } else {
        InsertAscends(k, ks[1..]);
        assert InsertKey(k, ks)[1..] == InsertKey(k, ks[1..]);
      }
    }
  }

  lemma {:induction false} SortAscends(ks: seq<string>)
    requires NoRepeats(ks)
    ensures Ascending(SortKeys(ks))
  {
    if ks == [] {
    } else {
      SortAscends(ks[1..]);
      InsertAscends(ks[0], SortKeys(ks[1..]));
    }
  }

  /** A set of keys has one ascending order. */
  lemma {:induction false} AscendingUnique(x: seq<string>, y: seq<string>)
    requires Ascending(x) && Ascending(y) && forall k :: k in x <==> k in y
    ensures x == y
  {
    if x == [] {
      assert forall i :: 0 <= i < |y| ==> y[i] in y;
    } else {
      assert x[0] in y;
      assert y[0] in x;
      LessTotal(x[0], y[0]);
      assert x[0] == y[0];
      forall k ensures k in x[1..] <==> k in y[1..] {
        LessTotal(k, k);
        assert k in x <==> k == x[0] || k in x[1..];
        assert k in y <==> k == y[0] || k in y[1..];
      }
      AscendingUnique(x[1..], y[1..]);
      assert x == [x[0]] + x[1..] && y == [y[0]] + y[1..];
    }
  }

  /** Joining goes from left to right. */
  lemma {:induction false} JoinSnoc(parts: seq<string>, p: string, sep: string)
    requires parts != []
    ensures Join(parts + [p], sep) == Join(parts, sep) + sep + p
  {
    var all := parts + [p];
    if |parts| == 1 {
      assert all[1..] == [p];
    } else {
      JoinSnoc(parts[1..], p, sep);
      assert all[1..] == parts[1..] + [p];
      assert parts[0] + sep + (Join(parts[1..], sep) + sep + p) == parts[0] + sep + Join(parts[1..], sep) + sep + p;
    }
  }

  // ---- what these helpers do, in terms of characters and positions ---------------------------

  /** An ASCII capital becomes the small letter at its place in the alphabet; nothing else moves. */
  lemma LowerMeans(s: string, i: nat)
    requires i < |s|
    ensures 'A' <= s[i] <= 'Z' ==>
              'a' <= Lower(s)[i] <= 'z' && Lower(s)[i] as int - 'a' as int == s[i] as int - 'A' as int
    ensures !('A' <= s[i] <= 'Z') ==> Lower(s)[i] == s[i]
  {
  }

  lemma {:induction false} UpperMeans(s: string, i: nat)
    requires i < |s|
    ensures |Upper(s)| == |s|
    ensures 'a' <= s[i] <= 'z' ==>
              'A' <= Upper(s)[i] <= 'Z' && Upper(s)[i] as int - 'A' as int == s[i] as int - 'a' as int
    ensures !('a' <= s[i] <= 'z') ==> Upper(s)[i] == s[i]
  {
    UpperLength(s);
    if i == 0 {
    } else {
      UpperMeans(s[1..], i - 1);
    }
  }

  lemma {:induction false} UpperLength(s: string)
    ensures |Upper(s)| == |s|
  {
    if s == "" {
    } else {
      UpperLength(s[1..]);
    }
  }

  function Trim(s: string): string {
    TrimEnd(TrimStart(s))
  }

  /** Blanks around a text that itself begins and ends otherwise are what trimming takes off. */
  lemma {:induction false} TrimMeans(a: string, s: string, b: string)
    requires (forall i :: 0 <= i < |a| ==> IsSpace(a[i])) && (forall i :: 0 <= i < |b| ==> IsSpace(b[i]))
    requires s != "" && !IsSpace(s[0]) && !IsSpace(s[|s| - 1])
    ensures Trim(a + s + b) == s
    decreases |a|
  {
    if a == "" {
      assert a + s + b == s + b;
      TrimEndMeans(s, b);
    } else {
      TrimMeans(a[1..], s, b);
      assert (a + s + b)[1..] == a[1..] + s + b;
    }
  }

  lemma {:induction false} TrimEndMeans(s: string, b: string)
    requires (forall i :: 0 <= i < |b| ==> IsSpace(b[i])) && (s == "" || !IsSpace(s[|s| - 1]))
    ensures TrimEnd(s + b) == s
    decreases |b|
  {
    if b == "" {
      assert s + b == s;
    } else {
      TrimEndMeans(s, b[..|b| - 1]);
      assert (s + b)[..|s + b| - 1] == s + b[..|b| - 1];
    }
  }

  lemma {:induction false} TrimOfBlanks(b: string)
    requires forall i :: 0 <= i < |b| ==> IsSpace(b[i])
    ensures Trim(b) == ""
  {
    if b == "" {
    } else {
      TrimOfBlanks(b[1..]);
    }
  }

  /** Splitting undoes joining, for parts without the separator. */
  lemma {:induction false} SplitJoin(parts: seq<string>, c: char)
    requires parts != [] && forall p :: p in parts ==> c !in p
    ensures Split(Join(parts, [c]), c) == parts
  {
    if |parts| == 1 {
      SplitWord(parts[0], c);
    } else {
      SplitJoin(parts[1..], c);
      SplitFirst(parts[0], c, Join(parts[1..], [c]));
      assert Join(parts, [c]) == parts[0] + [c] + Join(parts[1..], [c]);
    }
  }

  lemma {:induction false} SplitWord(p: string, c: char)
    requires c !in p
    ensures Split(p, c) == [p]
  {
    if p == "" {
    } else {
      SplitWord(p[1..], c);
      assert p == [p[0]] + p[1..];
    }
  }

  lemma {:induction false} SplitFirst(p: string, c: char, rest: string)
    requires c !in p
    ensures Split(p + [c] + rest, c) == [p] + Split(rest, c)
  {
    var s := p + [c] + rest;
    if p == "" {
      assert s[0] == c && s[1..] == rest;
    } else {
      SplitFirst(p[1..], c, rest);
      assert s[0] == p[0] && s[1..] == p[1..] + [c] + rest;
      assert p == [p[0]] + p[1..];
    }
  }

  /** Every text is the join of the parts it splits into. */
  lemma {:induction false} JoinSplit(s: string, c: char)
    ensures Join(Split(s, c), [c]) == s && forall p :: p in Split(s, c) ==> c !in p
  {
    if s == "" {
    } else {
      JoinSplit(s[1..], c);
      var r := Split(s[1..], c);
      if s[0] == c {
        assert ([""] + r)[1..] == r;
      } else {
        var first := [[s[0]] + r[0]] + r[1..];
        assert first[1..] == r[1..];
        if |r| > 1 { assert [s[0]] + r[0] + [c] + Join(r[1..], [c]) == [s[0]] + (r[0] + [c] + Join(r[1..], [c])); }
        forall p | p in first ensures c !in p {
          assert r[0] in r;
          if p != first[0] { assert p in r; }
        }
      }
    }
  }

  /** JS `<`: the first is a proper prefix, or smaller where the two first differ. */
  lemma {:induction false} LessMeans(a: string, b: string, n: nat)
    requires n <= |a| && n <= |b| && a[..n] == b[..n]
    requires (n == |a| && n == |b|) || n == |a| || n == |b| || a[n] != b[n]
    ensures Less(a, b) <==> n < |b| && (n == |a| || a[n] < b[n])
  {
    if n == 0 {
      if |a| > 0 && a == b { assert false; }
    } else {
      assert a[0] == a[..n][0] == b[..n][0] == b[0];
      assert a[1..][..n - 1] == a[..n][1..] == b[..n][1..] == b[1..][..n - 1];
      LessMeans(a[1..], b[1..], n - 1);
    }
  }

  // ---- pieces in order ------------------------------------------------------------------------

  /** How much the first `n` pieces hold together. */
  function Total<T>(parts: nat -> seq<T>, n: nat): nat {
    if n == 0 then 0 else Total(parts, n - 1) + |parts(n - 1)|
  }

  /** Piece `i` stands behind all of the pieces before it. */
  ghost predicate InPlace<T>(whole: seq<T>, parts: nat -> seq<T>, i: nat) {
    && Total(parts, i) + |parts(i)| <= |whole|
    && forall k :: 0 <= k < |parts(i)| ==> whole[Total(parts, i) + k] == parts(i)[k]
  }

  /** The first `n` pieces stand one behind the other, and nothing else. */
  ghost predicate InOrder<T>(whole: seq<T>, parts: nat -> seq<T>, n: nat) {
    |whole| == Total(parts, n) && forall i: nat :: i < n ==> InPlace(whole, parts, i)
  }

  lemma InOrderSnoc<T>(whole: seq<T>, parts: nat -> seq<T>, n: nat)
    requires InOrder(whole, parts, n)
    ensures InOrder(whole + parts(n), parts, n + 1)
  {
    forall i: nat | i < n + 1 ensures InPlace(whole + parts(n), parts, i) {
      if i < n { StaysInPlace(whole, parts(n), parts, i); }
    }
  }

  lemma StaysInPlace<T>(whole: seq<T>, more: seq<T>, parts: nat -> seq<T>, i: nat)
    requires InPlace(whole, parts, i)
    ensures InPlace(whole + more, parts, i)
  {
  }
}
