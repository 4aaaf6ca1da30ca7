/**
 The canonical forms that AWS request signatures are computed over
 (pkg/gateway/aws_sigv4.go).
 */
module SigV4 {
  import opened Options
  import opened Bytes
  import opened Sorting

  const PERCENT: byte := 37
  const SLASH: byte := 47
  const AMPERSAND: byte := 38
  const EQUALS: byte := 61

  /** The unreserved characters of section 2.3 of RFC 3986. */
  predicate Unreserved(c: byte) {
    97 <= c <= 122 || 65 <= c <= 90 || 48 <= c <= 57 || c == 45 || c == 46 || c == 95 || c == 126
  }

  function HexDigit(n: nat): byte
    requires n < 16
  {
    if n < 10 then (48 + n) as byte else (55 + n) as byte
  }

  function EncodeByte(c: byte, preserveSlash: bool): bytes {
    if Unreserved(c) || (c == SLASH && preserveSlash) then [c]
    else [PERCENT, HexDigit(c as int / 16), HexDigit(c as int % 16)]
  }

  function Encode(value: bytes, preserveSlash: bool): bytes {
    if value == [] then []
    else Encode(value[..|value| - 1], preserveSlash) + EncodeByte(value[|value| - 1], preserveSlash)
  }

  method UriEncode(value: bytes, preserveSlash: bool) returns (encoded: bytes)
    ensures encoded == Encode(value, preserveSlash)
  {
    encoded := [];
    for index := 0 to |value|
      invariant encoded == Encode(value[..index], preserveSlash)
    {
      assert value[..index + 1][..index] == value[..index];
      var c := value[index];
      if Unreserved(c) || (c == SLASH && preserveSlash) {
        encoded := encoded + [c];
        continue;
      }
      encoded := encoded + [PERCENT, HexDigit(c as int / 16), HexDigit(c as int % 16)];
    }
    assert value[..|value|] == value;
  }

  // -------------------------------------------------------------------------
  // Percent-decoding

  function HexValue(c: byte): Option<nat> {
    if 48 <= c <= 57 then Some(c as int - 48) else if 65 <= c <= 70 then Some(c as int - 55) else None
  }

  /** Decoding per section 2.1 of RFC 3986, with upper-case digits. */
  function Decode(s: bytes): Option<bytes> {
    if s == [] then Some([])
    else if s[0] == PERCENT then
      if |s| < 3 || HexValue(s[1]).None? || HexValue(s[2]).None? || HexValue(s[1]).value * 16 + HexValue(s[2]).value > 255
      then None
      else match Decode(s[3..])
        case Some(rest) => Some([(HexValue(s[1]).value * 16 + HexValue(s[2]).value) as byte] + rest)
        case None => None
    else match Decode(s[1..])
      case Some(rest) => Some([s[0]] + rest)
      case None => None
  }

  lemma DecodeEncodedByte(c: byte, preserveSlash: bool, rest: bytes)
    requires Decode(rest).Some?
    ensures Decode(EncodeByte(c, preserveSlash) + rest) == Some([c] + Decode(rest).value)
  {
    var s := EncodeByte(c, preserveSlash) + rest;
    if Unreserved(c) || (c == SLASH && preserveSlash) {
      assert s[1..] == rest;
    } else {
      var h, l := c as int / 16, c as int % 16;
      assert HexValue(s[1]) == Some(h) && HexValue(s[2]) == Some(l) && h * 16 + l == c as int;
      assert s[3..] == rest;
    }
  }

  lemma {:induction false} DecodeEncoded(value: bytes, preserveSlash: bool, rest: bytes)
    requires Decode(rest).Some?
    ensures Decode(Encode(value, preserveSlash) + rest) == Some(value + Decode(rest).value)
  {
    if value == [] {
      assert [] + rest == rest && [] + Decode(rest).value == Decode(rest).value;
    } else {
      var init, c := value[..|value| - 1], value[|value| - 1];
      var byte' := EncodeByte(c, preserveSlash);
      DecodeEncodedByte(c, preserveSlash, rest);
      DecodeEncoded(init, preserveSlash, byte' + rest);
      Associate(Encode(init, preserveSlash), byte', rest);
      Associate(init, [c], Decode(rest).value);
      assert value == init + [c];
    }
  }

  lemma Associate(a: bytes, b: bytes, c: bytes)
    ensures (a + b) + c == a + (b + c)
  {}

  /** Decoding gives back every byte string that was encoded. */
  lemma UriRoundTrip(value: bytes, preserveSlash: bool)
    ensures Decode(Encode(value, preserveSlash)) == Some(value)
  {
    DecodeEncoded(value, preserveSlash, []);
    assert Encode(value, preserveSlash) + [] == Encode(value, preserveSlash) && value + [] == value;
  }

  lemma EncodeInjective(a: bytes, b: bytes, preserveSlash: bool)
    requires Encode(a, preserveSlash) == Encode(b, preserveSlash)
    ensures a == b
  {
    UriRoundTrip(a, preserveSlash);
    UriRoundTrip(b, preserveSlash);
  }

  /** The path to be signed: the escaped path, escaped once more. */
  function CanonicalUri(escapedPath: bytes): bytes {
    if escapedPath == [] then [SLASH] else Encode(escapedPath, true)
  }

  /** Different paths have different canonical forms, but for the empty path and "/". */
  lemma CanonicalUriInjective(a: bytes, b: bytes)
    ensures CanonicalUri(a) == CanonicalUri(b) <==> a == b || (a in {[], [SLASH]} && b in {[], [SLASH]})
  {
    assert [SLASH][..0] == [];
    assert Encode([SLASH], true) == [] + [SLASH] == [SLASH];
    if CanonicalUri(a) == CanonicalUri(b) {
      EncodeInjective(if a == [] then [SLASH] else a, if b == [] then [SLASH] else b, true);
    }
  }

  // -------------------------------------------------------------------------
  // The canonical query

  datatype Pair = Pair(key: bytes, value: bytes)

  predicate PairLess(a: Pair, b: Pair) {
    if a.key == b.key then Less(a.value, b.value) else Less(a.key, b.key)
  }

  lemma PairOrder()
    ensures StrictTotal(PairLess)
  {
    forall x: Pair, y: Pair ensures !PairLess(x, x) && (PairLess(x, y) || x == y || PairLess(y, x)) {
      LessTrichotomy(x.key, y.key);
      LessTrichotomy(x.value, y.value);
    }
    forall x: Pair, y: Pair, z: Pair | PairLess(x, y) && PairLess(y, z) ensures PairLess(x, z) {
      PairTransitive(x, y, z);
    }
    forall x: Pair, y: Pair, z: Pair | PairLess(x, y) ensures PairLess(x, z) || PairLess(z, y) {
      assert PairLess(x, z) || x == z || PairLess(z, x);
      if PairLess(z, x) { PairTransitive(z, x, y); }
    }
  }

  lemma PairTransitive(x: Pair, y: Pair, z: Pair)
    requires PairLess(x, y) && PairLess(y, z)
    ensures PairLess(x, z)
  {
    if x.key == y.key == z.key {
      LessTransitive(x.value, y.value, z.value);
    } else {
      if x.key != y.key && y.key != z.key { LessTransitive(x.key, y.key, z.key); }
      LessTrichotomy(x.key, y.key);
    }
  }

  function EncodePair(p: Pair): Pair {
    Pair(Encode(p.key, false), Encode(p.value, false))
  }

  function EncodePairs(pairs: seq<Pair>): (r: seq<Pair>)
    ensures |r| == |pairs|
  {
    if pairs == [] then [] else EncodePairs(pairs[..|pairs| - 1]) + [EncodePair(pairs[|pairs| - 1])]
  }

  function PairText(p: Pair): bytes {
    p.key + [EQUALS] + p.value
  }

  function JoinPairs(pairs: seq<Pair>): bytes {
    if pairs == [] then []
    else
      var init, last := pairs[..|pairs| - 1], pairs[|pairs| - 1];
      JoinPairs(init) + (if init == [] then [] else [AMPERSAND]) + PairText(last)
  }

  /** The text is the canonical query of the pairs. */
  ghost predicate IsCanonical(pairs: seq<Pair>, text: bytes) {
    exists sorted ::
      Sorted(sorted, PairLess) && multiset(sorted) == multiset(EncodePairs(pairs)) && text == JoinPairs(sorted)
  }

  /** Encodes the pairs, whatever order they come in, sorts and joins them. */
  method CanonicalQuery(pairs: seq<Pair>) returns (text: bytes)
    ensures IsCanonical(pairs, text)
  {
    var encoded: seq<Pair> := [];
    for i := 0 to |pairs|
      invariant encoded == EncodePairs(pairs[..i])
    {
      assert pairs[..i + 1][..i] == pairs[..i];
      var key := UriEncode(pairs[i].key, false);
      var value := UriEncode(pairs[i].value, false);
      encoded := encoded + [Pair(key, value)];
    }
    assert pairs[..|pairs|] == pairs;
    PairOrder();
    var sorted := Sort(encoded, PairLess);
    text := WritePairs(sorted);
  }

  method WritePairs(pairs: seq<Pair>) returns (text: bytes)
    ensures text == JoinPairs(pairs)
  {
    text := [];
    for i := 0 to |pairs|
      invariant text == JoinPairs(pairs[..i])
    {
      assert pairs[..i + 1][..i] == pairs[..i];
      if i != 0 { text := text + [AMPERSAND]; }
      text := text + pairs[i].key + [EQUALS] + pairs[i].value;
      assert text == JoinPairs(pairs[..i]) + (if i == 0 then [] else [AMPERSAND]) + PairText(pairs[i]);
    }
    assert pairs[..|pairs|] == pairs;
  }

  // -------------------------------------------------------------------------
  // Invariant under order, and injective

  /** Encoding keeps how often each pair occurs. */
  lemma {:induction false} EncodedCount(pairs: seq<Pair>, p: Pair)
    ensures multiset(EncodePairs(pairs))[EncodePair(p)] == multiset(pairs)[p]
  {
    if pairs != [] {
      var init, last := pairs[..|pairs| - 1], pairs[|pairs| - 1];
      EncodedCount(init, p);
      assert pairs == init + [last];
      if EncodePair(last) == EncodePair(p) {
        EncodeInjective(last.key, p.key, false);
        EncodeInjective(last.value, p.value, false);
      }
    }
  }

  lemma {:induction false} EncodedOnly(pairs: seq<Pair>, e: Pair)
    requires e in multiset(EncodePairs(pairs))
    ensures exists p :: p in pairs && e == EncodePair(p)
  {
    var init, last := pairs[..|pairs| - 1], pairs[|pairs| - 1];
    if e == EncodePair(last) {
      assert last in pairs;
    } else {
      EncodedOnly(init, e);
      var p :| p in init && e == EncodePair(p);
      assert p in pairs;
    }
  }

  lemma EncodedSame(a: seq<Pair>, b: seq<Pair>)
    requires multiset(a) == multiset(b)
    ensures multiset(EncodePairs(a)) == multiset(EncodePairs(b))
  {
    forall e: Pair ensures multiset(EncodePairs(a))[e] == multiset(EncodePairs(b))[e] {
      if e in multiset(EncodePairs(a)) {
        EncodedOnly(a, e);
        var p :| p in a && e == EncodePair(p);
        EncodedCount(a, p);
        EncodedCount(b, p);
      } else if e in multiset(EncodePairs(b)) {
        EncodedOnly(b, e);
        var p :| p in b && e == EncodePair(p);
        EncodedCount(a, p);
        EncodedCount(b, p);
      }
    }
  }

  lemma EncodedReflects(a: seq<Pair>, b: seq<Pair>)
    requires multiset(EncodePairs(a)) == multiset(EncodePairs(b))
    ensures multiset(a) == multiset(b)
  {
    forall p: Pair ensures multiset(a)[p] == multiset(b)[p] {
      EncodedCount(a, p);
      EncodedCount(b, p);
    }
  }

  predicate Clean(text: bytes) {
    EQUALS !in text && AMPERSAND !in text
  }

  lemma {:induction false} EncodedClean(value: bytes)
    ensures Clean(Encode(value, false))
  {
    if value != [] { EncodedClean(value[..|value| - 1]); }
  }

  lemma {:induction false} EncodedPairsClean(pairs: seq<Pair>, e: Pair)
    requires e in multiset(EncodePairs(pairs))
    ensures Clean(e.key) && Clean(e.value)
  {
    EncodedOnly(pairs, e);
    var p :| p in pairs && e == EncodePair(p);
    EncodedClean(p.key);
    EncodedClean(p.value);
  }

  /** The text before the first separator is determined, and so is the rest. */
  lemma {:induction false} CutAt(x: bytes, r: bytes, y: bytes, s: bytes, separator: byte)
    requires separator !in x && separator !in y && x + [separator] + r == y + [separator] + s
    ensures x == y && r == s
  {
    var l := x + [separator] + r;
    if x == [] || y == [] {
      assert l[0] == separator;
      assert x == [] && y == [];
      assert l[1..] == r && l[1..] == s;
    } else {
      assert l[0] == x[0] && l[0] == y[0];
      assert l[1..] == x[1..] + [separator] + r && l[1..] == y[1..] + [separator] + s;
      CutAt(x[1..], r, y[1..], s, separator);
      assert x == [x[0]] + x[1..] && y == [y[0]] + y[1..];
    }
  }

  predicate AllClean(pairs: seq<Pair>) {
    forall i :: 0 <= i < |pairs| ==> Clean(pairs[i].key) && Clean(pairs[i].value)
  }

  /** What follows the first key and its equals sign. */
  function AfterKey(pairs: seq<Pair>): bytes
    requires pairs != []
  {
    pairs[0].value + if |pairs| == 1 then [] else [AMPERSAND] + JoinPairs(pairs[1..])
  }

  lemma {:induction false} JoinShape(pairs: seq<Pair>)
    requires pairs != []
    ensures JoinPairs(pairs) == pairs[0].key + [EQUALS] + AfterKey(pairs)
  {
    var init, last := pairs[..|pairs| - 1], pairs[|pairs| - 1];
    if |pairs| == 1 {
      assert JoinPairs(pairs) == PairText(pairs[0]);
    } else {
      JoinShape(init);
      AfterKeyLast(pairs);
      Regroup(pairs[0].key, [EQUALS], AfterKey(init), [AMPERSAND], PairText(last));
    }
  }

  lemma Regroup(a: bytes, b: bytes, c: bytes, d: bytes, e: bytes)
    ensures (a + b + c) + d + e == a + b + (c + d + e)
  {}

  lemma AfterKeyLast(pairs: seq<Pair>)
    requires |pairs| > 1
    ensures AfterKey(pairs) == AfterKey(pairs[..|pairs| - 1]) + [AMPERSAND] + PairText(pairs[|pairs| - 1])
  {
    var init, tail, last := pairs[..|pairs| - 1], pairs[1..], pairs[|pairs| - 1];
    assert tail[..|tail| - 1] == init[1..];
    if |pairs| == 2 {
      assert init[1..] == [] && JoinPairs(tail) == PairText(last);
    } else {
      assert JoinPairs(tail) == JoinPairs(init[1..]) + [AMPERSAND] + PairText(last);
    }
  }

  /** A single pair is told apart by the missing ampersand. */
  lemma AmpersandFollows(pairs: seq<Pair>)
    requires pairs != [] && AllClean(pairs)
    ensures AMPERSAND in AfterKey(pairs) <==> |pairs| > 1
  {
    if |pairs| > 1 { assert AfterKey(pairs)[|pairs[0].value|] == AMPERSAND; }
  }

  lemma {:induction false} JoinInjective(a: seq<Pair>, b: seq<Pair>)
    requires AllClean(a) && AllClean(b) && JoinPairs(a) == JoinPairs(b)
    ensures a == b
    decreases |a|
  {
    if a != [] { JoinShape(a); }
    if b != [] { JoinShape(b); }
    if a != [] && b != [] {
      CutAt(a[0].key, AfterKey(a), b[0].key, AfterKey(b), EQUALS);
      AmpersandFollows(a);
      AmpersandFollows(b);
      if |a| == 1 {
        assert AfterKey(a) == a[0].value && AfterKey(b) == b[0].value;
        assert a == [a[0]] && b == [b[0]];
      } else {
        assert AfterKey(a) == a[0].value + [AMPERSAND] + JoinPairs(a[1..]);
        assert AfterKey(b) == b[0].value + [AMPERSAND] + JoinPairs(b[1..]);
        CutAt(a[0].value, JoinPairs(a[1..]), b[0].value, JoinPairs(b[1..]), AMPERSAND);
        JoinInjective(a[1..], b[1..]);
        assert a == [a[0]] + a[1..] && b == [b[0]] + b[1..];
      }
    }
  }

  /** Two queries have the same canonical text exactly when they have the same
      pairs, each as often, in whatever order. */
  lemma CanonicalQueryDecides(a: seq<Pair>, b: seq<Pair>, textA: bytes, textB: bytes)
    requires IsCanonical(a, textA) && IsCanonical(b, textB)
    ensures textA == textB <==> multiset(a) == multiset(b)
  {
    var sa: seq<Pair> :| Sorted(sa, PairLess) && multiset(sa) == multiset(EncodePairs(a)) && textA == JoinPairs(sa);
    var sb: seq<Pair> :| Sorted(sb, PairLess) && multiset(sb) == multiset(EncodePairs(b)) && textB == JoinPairs(sb);
    if multiset(a) == multiset(b) {
      EncodedSame(a, b);
      PairOrder();
      SortedUnique(sa, sb, PairLess);
    }
    if textA == textB {
      forall i | 0 <= i < |sa| ensures Clean(sa[i].key) && Clean(sa[i].value) {
        assert sa[i] in multiset(sa);
        EncodedPairsClean(a, sa[i]);
      }
      forall i | 0 <= i < |sb| ensures Clean(sb[i].key) && Clean(sb[i].value) {
        assert sb[i] in multiset(sb);
        EncodedPairsClean(b, sb[i]);
      }
      JoinInjective(sa, sb);
      EncodedReflects(a, b);
    }
  }
}
