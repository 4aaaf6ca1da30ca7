/** The cursor of a page of endpoints: base64url, unpadded, of a small JSON object (pkg/endpointregistry/registry.go). */
module EndpointCursors {
  import opened Options
  import opened Bytes
  import opened EndpointRegistry

  type Sextet = x: int | 0 <= x < 64

  /** The URL-safe alphabet of section 5 of RFC 4648. */
  function Letter(x: Sextet): byte {
    if x < 26 then (65 + x) as byte
    else if x < 52 then (71 + x) as byte
    else if x < 62 then (x - 4) as byte
    else if x == 62 then 45
    else 95
  }

  function Unletter(b: byte): Option<Sextet> {
    if 65 <= b <= 90 then Some(b as int - 65)
    else if 97 <= b <= 122 then Some(b as int - 71)
    else if 48 <= b <= 57 then Some(b as int + 4)
    else if b == 45 then Some(62)
    else if b == 95 then Some(63)
    else None
  }

  /** Three bytes become four letters; a tail of one or two bytes becomes two or three. */
  function Encode64(s: bytes): (r: bytes)
    ensures |r| == (4 * |s| + 2) / 3
  {
    if s == [] then []
    else if |s| == 1 then
      var a := s[0] as int;
      [Letter(a / 4), Letter(a % 4 * 16)]
    else if |s| == 2 then
      var a, b := s[0] as int, s[1] as int;
      [Letter(a / 4), Letter(a % 4 * 16 + b / 16), Letter(b % 16 * 4)]
    else
      var a, b, c := s[0] as int, s[1] as int, s[2] as int;
      [Letter(a / 4), Letter(a % 4 * 16 + b / 16), Letter(b % 16 * 4 + c / 64), Letter(c % 64)] + Encode64(s[3..])
  }

  /** The lenient decoder: left-over bits of a tail are dropped. */
  function Decode64(s: bytes): Option<bytes> {
    if s == [] then Some([])
    else if |s| == 1 then None
    else
      var x, y := Unletter(s[0]), Unletter(s[1]);
      if x.None? || y.None? then None
      else
        var first := (x.value * 4 + y.value / 16) as byte;
        if |s| == 2 then Some([first])
        else
          var z := Unletter(s[2]);
          if z.None? then None
          else
            var second := (y.value % 16 * 16 + z.value / 4) as byte;
            if |s| == 3 then Some([first, second])
            else
              var w := Unletter(s[3]);
              var rest := Decode64(s[4..]);
              if w.None? || rest.None? then None
              else Some([first, second, (z.value % 4 * 64 + w.value) as byte] + rest.value)
  }

  lemma LetterRoundTrip(x: Sextet)
    ensures Unletter(Letter(x)) == Some(x)
  {
  }

  lemma Bits(a: int, b: int, c: int)
    requires 0 <= a < 256 && 0 <= b < 256 && 0 <= c < 256
    ensures a / 4 * 4 + (a % 4 * 16 + b / 16) / 16 == a
    ensures (a % 4 * 16 + b / 16) % 16 * 16 + (b % 16 * 4 + c / 64) / 4 == b
    ensures (b % 16 * 4 + c / 64) % 4 * 64 + c % 64 == c
  {
    assert b / 16 < 16 && c / 64 < 4;
    assert (a % 4 * 16 + b / 16) / 16 == a % 4 && (a % 4 * 16 + b / 16) % 16 == b / 16;
    assert (b % 16 * 4 + c / 64) / 4 == b % 16 && (b % 16 * 4 + c / 64) % 4 == c / 64;
  }

  lemma GroupRoundTrip(a: byte, b: byte, c: byte, rest: bytes)
    ensures var i, j, k := a as int, b as int, c as int;
      Decode64([Letter(i / 4), Letter(i % 4 * 16 + j / 16), Letter(j % 16 * 4 + k / 64), Letter(k % 64)] + rest) ==
      match Decode64(rest) case Some(r) => Some([a, b, c] + r) case None => None
  {
    var i, j, k := a as int, b as int, c as int;
    var group := [Letter(i / 4), Letter(i % 4 * 16 + j / 16), Letter(j % 16 * 4 + k / 64), Letter(k % 64)];
    LetterRoundTrip(i / 4);
    LetterRoundTrip(i % 4 * 16 + j / 16);
    LetterRoundTrip(j % 16 * 4 + k / 64);
    LetterRoundTrip(k % 64);
    Bits(i, j, k);
    assert (group + rest)[4..] == rest;
  }

  lemma TailRoundTrip(a: byte, b: byte)
    ensures Decode64(Encode64([a])) == Some([a])
    ensures Decode64(Encode64([a, b])) == Some([a, b])
  {
    var i, j := a as int, b as int;
    LetterRoundTrip(i / 4);
    LetterRoundTrip(i % 4 * 16);
    LetterRoundTrip(i % 4 * 16 + j / 16);
    LetterRoundTrip(j % 16 * 4);
    assert i / 4 * 4 + (i % 4 * 16) / 16 == i;
    assert i / 4 * 4 + (i % 4 * 16 + j / 16) / 16 == i;
    assert (i % 4 * 16 + j / 16) % 16 * 16 + (j % 16 * 4) / 4 == j;
  }

  lemma {:induction false} Base64RoundTrip(s: bytes)
    ensures Decode64(Encode64(s)) == Some(s)
  {
    if |s| == 1 {
      TailRoundTrip(s[0], 0);
      assert s == [s[0]];
    } else if |s| == 2 {
      TailRoundTrip(s[0], s[1]);
      assert s == [s[0], s[1]];
    } else if |s| > 2 {
      Base64RoundTrip(s[3..]);
      GroupRoundTrip(s[0], s[1], s[2], Encode64(s[3..]));
      assert [s[0], s[1], s[2]] + s[3..] == s;
    }
  }

  function Hex(x: int): byte
    requires 0 <= x < 16
  {
    if x < 10 then (48 + x) as byte else (87 + x) as byte
  }

  /** How Go's JSON encoder writes one byte of a string: quotes, control characters and `<`, `>`, `&` are escaped. */
  function EscapeByte(b: byte): bytes {
    if b == 34 || b == 92 then [92, b]
    else if b == 8 then [92, 98]
    else if b == 12 then [92, 102]
    else if b == 10 then [92, 110]
    else if b == 13 then [92, 114]
    else if b == 9 then [92, 116]
    else if b < 32 || b == 60 || b == 62 || b == 38 then [92, 117, 48, 48, Hex(b as int / 16), Hex(b as int % 16)]
    else [b]
  }

  // -------------------------------------------------------------------------
  // UTF-8

  predicate Continues(b: byte) { 0x80 <= b <= 0xBF }

  /** The length of the UTF-8 sequence (section 4 of RFC 3629) at the start of the text; 0 if there is none. */
  function RuneLength(s: bytes): (n: nat)
    ensures n <= 4 && n <= |s|
  {
    if s == [] then 0
    else if s[0] < 0x80 then 1
    else if |s| < 2 then 0
    else if 0xC2 <= s[0] <= 0xDF then (if Continues(s[1]) then 2 else 0)
    else if |s| < 3 then 0
    else if 0xE0 <= s[0] <= 0xEF then
      var low: byte := if s[0] == 0xE0 then 0xA0 else 0x80;
      var high: byte := if s[0] == 0xED then 0x9F else 0xBF;
      if low <= s[1] <= high && Continues(s[2]) then 3 else 0
    else if |s| < 4 then 0
    else if 0xF0 <= s[0] <= 0xF4 then
      var low: byte := if s[0] == 0xF0 then 0x90 else 0x80;
      var high: byte := if s[0] == 0xF4 then 0x8F else 0xBF;
      if low <= s[1] <= high && Continues(s[2]) && Continues(s[3]) then 4 else 0
    else 0
  }

  predicate ValidUtf8(s: bytes) {
    s == [] || (RuneLength(s) > 0 && ValidUtf8(s[RuneLength(s)..]))
  }

  /** U+FFFD in UTF-8. */
  const REPLACEMENT: bytes := [0xEF, 0xBF, 0xBD]

  /** Every byte that begins no sequence is replaced. */
  function Sanitised(s: bytes): bytes {
    if s == [] then []
    else if RuneLength(s) == 0 then REPLACEMENT + Sanitised(s[1..])
    else s[..RuneLength(s)] + Sanitised(s[RuneLength(s)..])
  }

  lemma {:induction false} SanitisedLength(s: bytes)
    ensures |Sanitised(s)| >= |s|
    ensures ValidUtf8(s) <==> |Sanitised(s)| == |s|
  {
    if s != [] {
      if RuneLength(s) == 0 { SanitisedLength(s[1..]); } else { SanitisedLength(s[RuneLength(s)..]); }
    }
  }

  /** Only valid text is left as it is. */
  lemma {:induction false} SanitisedSame(s: bytes)
    ensures Sanitised(s) == s <==> ValidUtf8(s)
  {
    if ValidUtf8(s) {
      if s != [] {
        SanitisedSame(s[RuneLength(s)..]);
        assert s == s[..RuneLength(s)] + s[RuneLength(s)..];
      }
    } else {
      SanitisedLength(s);
    }
  }

  /** A sequence is recognised by its own bytes. */
  lemma RunePrefix(s: bytes, rest: bytes)
    requires RuneLength(s) > 0
    ensures RuneLength(s[..RuneLength(s)] + rest) == RuneLength(s)
  {}

  // -------------------------------------------------------------------------
  // JSON strings

  /** U+2028 and U+2029, which are escaped as well. */
  predicate Separator(s: bytes) {
    |s| >= 3 && s[0] == 0xE2 && s[1] == 0x80 && (s[2] == 0xA8 || s[2] == 0xA9)
  }

  /** How Go's encoder writes the start of a string, and how many bytes it has then consumed. */
  function EscapeRune(s: bytes): (r: (bytes, nat))
    requires s != []
    ensures 0 < r.1 <= |s|
  {
    if RuneLength(s) == 0 then ([92, 117, 102, 102, 102, 100], 1)
    else if RuneLength(s) == 1 then (EscapeByte(s[0]), 1)
    else if Separator(s) then ([92, 117, 50, 48, 50, if s[2] == 0xA8 then 56 else 57], 3)
    else (s[..RuneLength(s)], RuneLength(s))
  }

  function Escape(id: bytes): bytes {
    if id == [] then [] else EscapeRune(id).0 + Escape(id[EscapeRune(id).1..])
  }

  function HexValue(b: byte): Option<int> {
    if 48 <= b <= 57 then Some(b as int - 48)
    else if 97 <= b <= 102 then Some(b as int - 87)
    else if 65 <= b <= 70 then Some(b as int - 55)
    else None
  }

  /** The character of a four-digit escape in UTF-8; surrogates are not read here. */
  function FromHex(a: byte, b: byte, c: byte, d: byte): Option<bytes> {
    match (HexValue(a), HexValue(b), HexValue(c), HexValue(d))
    case (Some(w), Some(x), Some(y), Some(z)) =>
      var code := ((w * 16 + x) * 16 + y) * 16 + z;
      if code < 0x80 then Some([code as byte])
      else if code < 0x800 then Some([(0xC0 + code / 64) as byte, (0x80 + code % 64) as byte])
      else if 0xD800 <= code < 0xE000 then None
      else Some([(0xE0 + code / 4096) as byte, (0x80 + code / 64 % 64) as byte, (0x80 + code % 64) as byte])
    case _ => None
  }

  function Unescaped(b: byte): Option<byte> {
    if b == 34 || b == 92 || b == 47 then Some(b)
    else if b == 98 then Some(8)
    else if b == 102 then Some(12)
    else if b == 110 then Some(10)
    else if b == 114 then Some(13)
    else if b == 116 then Some(9)
    else None
  }

  /** The first character of the text of a JSON string, and how many bytes it takes. */
  function UnescapeOne(s: bytes): (r: Option<(bytes, nat)>)
    requires s != []
    ensures r.Some? ==> 0 < r.value.1 <= |s|
  {
    if s[0] == 92 then
      if |s| >= 6 && s[1] == 117 then
        match FromHex(s[2], s[3], s[4], s[5])
        case Some(rune) => Some((rune, 6))
        case None => None
      else if |s| >= 2 then
        match Unescaped(s[1])
        case Some(b) => Some(([b], 2))
        case None => None
      else None
    else if s[0] < 32 || s[0] == 34 || RuneLength(s) == 0 then None
    else Some((s[..RuneLength(s)], RuneLength(s)))
  }

  /** The text of a JSON string, decoded; `None` for text that is not read here. */
  function Unescape(s: bytes): Option<bytes> {
    if s == [] then Some([])
    else match UnescapeOne(s)
      case None => None
      case Some((rune, n)) =>
        match Unescape(s[n..])
        case Some(rest) => Some(rune + rest)
        case None => None
  }

  /** What is read back for the start of a string. */
  function SanitisedRune(s: bytes): bytes
    requires s != []
  {
    if RuneLength(s) == 0 then REPLACEMENT else s[..RuneLength(s)]
  }

  lemma EscapedByteReads(b: byte, rest: bytes)
    requires b < 0x80
    ensures UnescapeOne(EscapeByte(b) + rest) == Some(([b], |EscapeByte(b)|))
  {
    var text := EscapeByte(b) + rest;
    if b < 32 || b == 60 || b == 62 || b == 38 {
      var high, low := b as int / 16, b as int % 16;
      assert HexValue(Hex(high)) == Some(high) && HexValue(Hex(low)) == Some(low);
      assert HexValue(48) == Some(0);
    }
    if |EscapeByte(b)| == 1 { assert text[..1] == [b]; }
  }

  /** An escaped character reads back as itself, or as the replacement of a byte that was no character. */
  lemma EscapedRuneReads(s: bytes, rest: bytes)
    requires s != []
    ensures UnescapeOne(EscapeRune(s).0 + rest) == Some((SanitisedRune(s), |EscapeRune(s).0|))
    ensures EscapeRune(s).1 == if RuneLength(s) == 0 then 1 else RuneLength(s)
  {
    var text := EscapeRune(s).0 + rest;
    if RuneLength(s) == 0 {
      assert FromHex(102, 102, 102, 100) == Some(REPLACEMENT);
    } else if RuneLength(s) == 1 {
      EscapedByteReads(s[0], rest);
      assert s[..1] == [s[0]];
    } else if Separator(s) {
      assert FromHex(50, 48, 50, 56) == Some([0xE2, 0x80, 0xA8]) && FromHex(50, 48, 50, 57) == Some([0xE2, 0x80, 0xA9]);
      assert s[..3] == [s[0], s[1], s[2]];
    } else {
      RunePrefix(s, rest);
      assert text[..RuneLength(s)] == s[..RuneLength(s)];
    }
  }

  /** Decoding an encoded string gives the string with its invalid bytes replaced. */
  lemma {:induction false} EscapeReadsBack(s: bytes)
    ensures Unescape(Escape(s)) == Some(Sanitised(s))
  {
    if s != [] {
      var (text, n) := EscapeRune(s);
      var rest := Escape(s[n..]);
      EscapedRuneReads(s, rest);
      EscapeReadsBack(s[n..]);
      assert (text + rest)[|text|..] == rest;
    }
  }

  // -------------------------------------------------------------------------
  // Cursors

  /** The object's text up to and after the id: `{"v":1,"after_id":"` and `"}`. */
  const HEAD: bytes := [123, 34, 118, 34, 58, 49, 44, 34, 97, 102, 116, 101, 114, 95, 105, 100, 34, 58, 34]
  const TAIL: bytes := [34, 125]

  function Payload(id: Id): (r: bytes)
    ensures |r| == |Escape(id)| + 21
  {
    HEAD + Escape(id) + TAIL
  }

  function CursorText(id: Id): bytes {
    Encode64(Payload(id))
  }

  /** The id of an object written like that; any other text is left to `other`. */
  function ReadPayload(other: bytes -> Option<Id>, raw: bytes): Option<Id> {
    if |raw| >= 21 && raw[..19] == HEAD && raw[|raw| - 2..] == TAIL && Unescape(raw[19..|raw| - 2]).Some?
    then Unescape(raw[19..|raw| - 2]) else other(raw)
  }

  function ReadCursor(other: bytes -> Option<Id>, s: bytes): Option<Id> {
    match Decode64(s)
    case Some(raw) => ReadPayload(other, raw)
    case None => None
  }

  /** `other` decodes JSON objects that are not written as the registry writes them. */
  function JsonCursors(other: bytes -> Option<Id>): CursorCodec {
    CursorCodec(CursorText, (s: bytes) => ReadCursor(other, s))
  }

  lemma CursorSize(id: Id)
    ensures |CursorText(id)| <= MAX_CURSOR <==> |Escape(id)| <= 1515
    ensures CursorText(id) != []
  {
    var n := |Escape(id)| + 21;
    assert |CursorText(id)| == (4 * n + 2) / 3;
  }

  lemma PayloadReads(other: bytes -> Option<Id>, id: Id)
    ensures ReadPayload(other, Payload(id)) == Some(Sanitised(id))
  {
    var raw := Payload(id);
    EscapeReadsBack(id);
    assert raw[..19] == HEAD;
    assert raw[|raw| - 2..] == TAIL;
    assert raw[19..|raw| - 2] == Escape(id);
  }

  /** A cursor reads back as its id with invalid bytes replaced. */
  lemma CursorReads(other: bytes -> Option<Id>, id: Id)
    ensures JsonCursors(other).decode(JsonCursors(other).encode(id)) == Some(Sanitised(id))
  {
    Base64RoundTrip(Payload(id));
    PayloadReads(other, id);
  }

  /** A registrable id's cursor leads back to it if and only if it is valid UTF-8 and its
      escaped form has at most 1515 bytes. */
  lemma CursorFitsExactly(other: bytes -> Option<Id>, id: Id)
    requires id != [] && |id| <= 1024
    ensures Fits(JsonCursors(other), id) <==> ValidUtf8(id) && |Escape(id)| <= 1515
  {
    CursorReads(other, id);
    CursorSize(id);
    SanitisedSame(id);
  }

  lemma {:induction false} PlainEscape(id: Id)
    requires forall i :: 0 <= i < |id| ==> |EscapeByte(id[i])| == 1 && id[i] < 0x80
    ensures Escape(id) == id && ValidUtf8(id)
  {
    if id != [] {
      PlainEscape(id[1..]);
      assert id == [id[0]] + id[1..];
    }
  }

  /** Every registrable id of plain characters has a cursor that leads back to it. */
  lemma PlainIdsFit(other: bytes -> Option<Id>, id: Id)
    requires id != [] && |id| <= 1024
    requires forall i :: 0 <= i < |id| ==> |EscapeByte(id[i])| == 1 && id[i] < 0x80
    ensures Fits(JsonCursors(other), id)
  {
    PlainEscape(id);
    CursorFitsExactly(other, id);
  }
}
