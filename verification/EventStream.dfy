/**
 Amazon event-stream framing, application/vnd.amazon.eventstream
 (pkg/gateway/aws_eventstream.go).  The checksum and the lower-casing of header
 names are parameters.
 */
module EventStream {
  import opened Options
  import opened Bytes

  type uint32 = x: int | 0 <= x < 0x1_0000_0000

  const PRELUDE := 12
  const OVERHEAD := 16
  const MAX_PAYLOAD := 16 * 1024 * 1024
  const MAX_HEADERS := 128 * 1024
  const MAX_MESSAGE := MAX_PAYLOAD + MAX_HEADERS + OVERHEAD

  datatype Functions = Functions(crc: bytes -> uint32, lower: bytes -> bytes)

  // -------------------------------------------------------------------------
  // Big-endian integers

  function U16(b: bytes): (n: nat)
    requires |b| == 2
    ensures n < 0x1_0000
  {
    b[0] as int * 256 + b[1] as int
  }

  function U32(b: bytes): (n: uint32)
    requires |b| == 4
  {
    b[0] as int * 0x100_0000 + b[1] as int * 0x1_0000 + b[2] as int * 0x100 + b[3] as int
  }

  function PutU32(n: uint32): (b: bytes)
    ensures |b| == 4
  {
    [(n / 0x100_0000) as byte, (n / 0x1_0000 % 0x100) as byte, (n / 0x100 % 0x100) as byte, (n % 0x100) as byte]
  }

  lemma U32RoundTrip(n: uint32)
    ensures U32(PutU32(n)) == n
  {
    var h := n / 0x1_0000;
    assert n == h * 0x1_0000 + n % 0x1_0000;
    assert n / 0x100_0000 == h / 0x100;
    assert n / 0x100 % 0x100 == n % 0x1_0000 / 0x100;
  }

  lemma U32Injective(a: bytes, b: bytes)
    requires |a| == 4 && |b| == 4 && U32(a) == U32(b)
    ensures a == b
  {
    var x, y := a[0] as int * 256 + a[1] as int, b[0] as int * 256 + b[1] as int;
    var u, v := a[2] as int * 256 + a[3] as int, b[2] as int * 256 + b[3] as int;
    assert U32(a) == x * 0x1_0000 + u && U32(b) == y * 0x1_0000 + v;
    assert x == y && u == v;
  }

  // -------------------------------------------------------------------------
  // Headers

  datatype HeaderValue = HeaderValue(value: bytes, consumed: nat)

  const TRUE: bytes := [116, 114, 117, 101]
  const FALSE: bytes := [102, 97, 108, 115, 101]

  /** How many bytes a value of fixed size takes; `None` for the others. */
  function FixedSize(kind: byte): Option<nat> {
    if kind == 2 then Some(1)
    else if kind == 3 then Some(2)
    else if kind == 4 then Some(4)
    else if kind == 5 || kind == 8 then Some(8)
    else if kind == 9 then Some(16)
    else None
  }

  function DecodeValue(kind: byte, raw: bytes): (r: Option<HeaderValue>)
    ensures r.Some? ==> r.value.consumed <= |raw|
  {
    if kind == 0 then Some(HeaderValue(TRUE, 0))
    else if kind == 1 then Some(HeaderValue(FALSE, 0))
    else if FixedSize(kind).Some? then
      if |raw| < FixedSize(kind).value then None else Some(HeaderValue([], FixedSize(kind).value))
    else if kind == 6 || kind == 7 then
      if |raw| < 2 || |raw| < 2 + U16(raw[..2]) then None
      else
        var n := 2 + U16(raw[..2]);
        Some(HeaderValue(if kind == 7 then raw[2..n] else [], n))
    else None
  }

  datatype Header = Header(name: bytes, value: bytes, length: nat)

  /** The first header of a header block. */
  function DecodeHeader(f: Functions, raw: bytes): (r: Option<Header>)
    requires raw != []
    ensures r.Some? ==> 0 < r.value.length <= |raw|
  {
    var n := raw[0] as int;
    if n == 0 || |raw| < n + 2 then None
    else match DecodeValue(raw[n + 1], raw[n + 2..])
      case Some(v) => Some(Header(f.lower(raw[1..n + 1]), v.value, n + 2 + v.consumed))
      case None => None
  }

  function DecodeHeaders(f: Functions, raw: bytes, headers: map<bytes, bytes>): Option<map<bytes, bytes>>
    decreases |raw|
  {
    if raw == [] then Some(headers)
    else match DecodeHeader(f, raw)
      case Some(h) =>
        if h.name in headers then None
        else DecodeHeaders(f, raw[h.length..], headers[h.name := h.value])
      case None => None
  }

  /** The decoder's loop, consuming the block header by header. */
  method ReadHeaders(f: Functions, block: bytes) returns (r: Option<map<bytes, bytes>>)
    ensures r == DecodeHeaders(f, block, map[])
  {
    var raw := block;
    var headers: map<bytes, bytes> := map[];
    while raw != []
      invariant DecodeHeaders(f, block, map[]) == DecodeHeaders(f, raw, headers)
      decreases |raw|
    {
      ghost var start := raw;
      var nameLength := raw[0] as int;
      raw := raw[1..];
      if nameLength == 0 || |raw| < nameLength + 1 { return None; }
      var name := f.lower(raw[..nameLength]);
      raw := raw[nameLength..];
      var kind := raw[0];
      raw := raw[1..];
      assert start[1..nameLength + 1] == start[1..][..nameLength];
      assert start[nameLength + 1] == kind && start[nameLength + 2..] == raw;
      var value := DecodeValue(kind, raw);
      if value.None? { return None; }
      raw := raw[value.value.consumed..];
      assert raw == start[DecodeHeader(f, start).value.length..];
      if name in headers { return None; }
      headers := headers[name := value.value.value];
    }
    r := Some(headers);
  }

  // -------------------------------------------------------------------------
  // Messages

  datatype Message = Message(raw: bytes, headers: map<bytes, bytes>, payload: bytes)

  datatype ReadResult = EndOfStream | UnexpectedEnd | Invalid | Read(message: Message, rest: bytes)

  /** The lengths of a prelude are acceptable. */
  predicate LengthsValid(total: int, headers: int) {
    && OVERHEAD <= total <= MAX_MESSAGE
    && headers <= MAX_HEADERS && headers <= total - OVERHEAD
    && total - OVERHEAD - headers <= MAX_PAYLOAD
  }

  function ReadMessage(f: Functions, source: bytes): ReadResult {
    if source == [] then EndOfStream
    else if |source| < PRELUDE then UnexpectedEnd
    else
      var total, headersLength := U32(source[0..4]), U32(source[4..8]);
      if !LengthsValid(total, headersLength) || f.crc(source[..8]) != U32(source[8..12]) then Invalid
      else if |source| < total then UnexpectedEnd
      else
        var raw := source[..total];
        if f.crc(raw[..total - 4]) != U32(raw[total - 4..]) then Invalid
        else match DecodeHeaders(f, raw[PRELUDE..PRELUDE + headersLength], map[])
          case Some(headers) =>
            Read(Message(raw, headers, raw[PRELUDE + headersLength..total - 4]), source[total..])
          case None => Invalid
  }

  function Frame(f: Functions, headerBlock: bytes, payload: bytes): bytes
    requires OVERHEAD + |headerBlock| + |payload| <= MAX_MESSAGE
  {
    var prelude := PutU32(OVERHEAD + |headerBlock| + |payload|) + PutU32(|headerBlock|);
    var body := prelude + PutU32(f.crc(prelude)) + headerBlock + payload;
    body + PutU32(f.crc(body))
  }

  function HeaderBlock(m: Message): bytes
    requires |m.raw| >= PRELUDE && U32(m.raw[4..8]) <= |m.raw| - PRELUDE
  {
    m.raw[PRELUDE..PRELUDE + U32(m.raw[4..8])]
  }

  lemma ReadMessageShape(f: Functions, source: bytes)
    requires ReadMessage(f, source).Read?
    ensures var m := ReadMessage(f, source).message;
      && OVERHEAD <= |m.raw| && U32(m.raw[4..8]) <= |m.raw| - OVERHEAD && U32(m.raw[4..8]) <= MAX_HEADERS
      && source == m.raw + ReadMessage(f, source).rest
      && U32(m.raw[0..4]) == |m.raw|
      && f.crc(m.raw[..8]) == U32(m.raw[8..12])
      && f.crc(m.raw[..|m.raw| - 4]) == U32(m.raw[|m.raw| - 4..])
      && DecodeHeaders(f, HeaderBlock(m), map[]) == Some(m.headers)
      && m.payload == m.raw[PRELUDE + U32(m.raw[4..8])..|m.raw| - 4]
      && |m.payload| <= MAX_PAYLOAD
  {
    var total := U32(source[0..4]);
    var raw := source[..total];
    assert raw[0..4] == source[0..4] && raw[4..8] == source[4..8] && raw[8..12] == source[8..12];
    assert raw[..8] == source[..8];
  }

  /** The fields of a frame sit where the reader looks for them. */
  lemma FrameFields(f: Functions, block: bytes, payload: bytes)
    requires OVERHEAD + |block| + |payload| <= MAX_MESSAGE
    ensures var frame := Frame(f, block, payload);
      var n := |frame|;
      && n == OVERHEAD + |block| + |payload|
      && U32(frame[0..4]) == n && U32(frame[4..8]) == |block|
      && U32(frame[8..12]) == f.crc(frame[..8])
      && frame[PRELUDE..PRELUDE + |block|] == block
      && frame[PRELUDE + |block|..n - 4] == payload
      && U32(frame[n - 4..]) == f.crc(frame[..n - 4])
  {
    var frame, n := Frame(f, block, payload), OVERHEAD + |block| + |payload|;
    var prelude := PutU32(n) + PutU32(|block|);
    var body := prelude + PutU32(f.crc(prelude)) + block + payload;
    assert frame[..8] == prelude && frame[0..4] == PutU32(n) && frame[4..8] == PutU32(|block|);
    assert frame[8..12] == PutU32(f.crc(prelude));
    assert frame[..n - 4] == body && frame[n - 4..] == PutU32(f.crc(body));
    U32RoundTrip(n);
    U32RoundTrip(|block|);
    U32RoundTrip(f.crc(prelude));
    U32RoundTrip(f.crc(body));
  }

  /** Reading a frame, whatever follows it, gives back its headers and payload. */
  lemma FrameReads(f: Functions, block: bytes, payload: bytes, tail: bytes)
    requires |block| <= MAX_HEADERS && |payload| <= MAX_PAYLOAD
    requires DecodeHeaders(f, block, map[]).Some?
    ensures ReadMessage(f, Frame(f, block, payload) + tail)
            == Read(Message(Frame(f, block, payload), DecodeHeaders(f, block, map[]).value, payload), tail)
  {
    var frame := Frame(f, block, payload);
    var source, n := frame + tail, |frame|;
    FrameFields(f, block, payload);
    assert source[..n] == frame && source[n..] == tail;
    assert source[0..4] == frame[0..4] && source[4..8] == frame[4..8] && source[8..12] == frame[8..12];
    assert source[..8] == frame[..8];
  }

  /** A message read from a stream is the frame of its headers and payload. */
  lemma ReadIsFrame(f: Functions, source: bytes)
    requires ReadMessage(f, source).Read?
    ensures var m := ReadMessage(f, source).message;
      && PRELUDE <= |m.raw| && U32(m.raw[4..8]) <= |m.raw| - OVERHEAD
      && OVERHEAD + |HeaderBlock(m)| + |m.payload| <= MAX_MESSAGE
      && m.raw == Frame(f, HeaderBlock(m), m.payload)
  {
    ReadMessageShape(f, source);
    var m := ReadMessage(f, source).message;
    FrameFields(f, HeaderBlock(m), m.payload);
    SameFrame(f, m.raw, Frame(f, HeaderBlock(m), m.payload), PRELUDE + |HeaderBlock(m)|);
  }

  /** Frames with the same lengths, headers and payload are equal: the checksums follow. */
  lemma SameFrame(f: Functions, a: bytes, b: bytes, p: nat)
    requires |a| == |b| && PRELUDE <= p <= |a| - 4
    requires U32(a[0..4]) == U32(b[0..4]) && U32(a[4..8]) == U32(b[4..8])
    requires U32(a[8..12]) == f.crc(a[..8]) && U32(b[8..12]) == f.crc(b[..8])
    requires a[PRELUDE..p] == b[PRELUDE..p] && a[p..|a| - 4] == b[p..|a| - 4]
    requires U32(a[|a| - 4..]) == f.crc(a[..|a| - 4]) && U32(b[|a| - 4..]) == f.crc(b[..|a| - 4])
    ensures a == b
  {
    var n := |a|;
    U32Injective(a[0..4], b[0..4]);
    U32Injective(a[4..8], b[4..8]);
    assert a[..8] == a[0..4] + a[4..8] && b[..8] == b[0..4] + b[4..8];
    U32Injective(a[8..12], b[8..12]);
    assert a[..n - 4] == a[..8] + a[8..12] + a[12..p] + a[p..n - 4];
    assert b[..n - 4] == b[..8] + b[8..12] + b[12..p] + b[p..n - 4];
    U32Injective(a[n - 4..], b[n - 4..]);
    assert a == a[..n - 4] + a[n - 4..] && b == b[..n - 4] + b[n - 4..];
  }

  // -------------------------------------------------------------------------
  // Replacing a payload

  /** Replacing the payload of a message that was read fails only for an oversized
      payload; the result reads back, in any stream, as the same headers with the
      new payload. */
  lemma ReplaceReadsBack(f: Functions, source: bytes, payload: bytes, tail: bytes)
    requires ReadMessage(f, source).Read?
    ensures var m := ReadMessage(f, source).message;
      && |m.raw| >= OVERHEAD && U32(m.raw[4..8]) <= |m.raw| - OVERHEAD
      && (Replaced(f, m, payload).Some? <==> |payload| <= MAX_PAYLOAD)
      && (|payload| <= MAX_PAYLOAD ==>
            ReadMessage(f, Replaced(f, m, payload).value + tail)
            == Read(Message(Replaced(f, m, payload).value, m.headers, payload), tail))
  {
    ReadMessageShape(f, source);
    var m := ReadMessage(f, source).message;
    if |payload| <= MAX_PAYLOAD { FrameReads(f, HeaderBlock(m), payload, tail); }
  }

  /** Replacing a payload by itself changes no byte. */
  lemma ReplaceIdentity(f: Functions, source: bytes)
    requires ReadMessage(f, source).Read?
    ensures var m := ReadMessage(f, source).message;
      && |m.raw| >= OVERHEAD && U32(m.raw[4..8]) <= |m.raw| - OVERHEAD
      && Replaced(f, m, m.payload) == Some(m.raw)
  {
    ReadMessageShape(f, source);
    ReadIsFrame(f, source);
  }

  function Replaced(f: Functions, m: Message, payload: bytes): Option<bytes>
    requires |m.raw| >= OVERHEAD && U32(m.raw[4..8]) <= |m.raw| - OVERHEAD
  {
    if |payload| > MAX_PAYLOAD || OVERHEAD + |HeaderBlock(m)| + |payload| > MAX_MESSAGE then None
    else Some(Frame(f, HeaderBlock(m), payload))
  }

  method Put(target: array<byte>, at: nat, source: bytes)
    requires at + |source| <= target.Length
    modifies target
    ensures target[..] == old(target[..at]) + source + old(target[at + |source|..])
  {
    for i := 0 to |source|
      invariant target[..at] == old(target[..at])
      invariant target[at..at + i] == source[..i]
      invariant target[at + i..] == old(target[at + i..])
    {
      target[at + i] := source[i];
      assert target[at..at + i + 1] == target[at..at + i] + [source[i]];
    }
    assert target[..] == target[..at] + target[at..at + |source|] + target[at + |source|..];
  }

  /** Builds the new frame in place. */
  method ReplacePayload(f: Functions, m: Message, payload: bytes) returns (r: Option<array<byte>>)
    requires |m.raw| >= OVERHEAD && U32(m.raw[4..8]) <= |m.raw| - OVERHEAD
    ensures r.Some? <==> Replaced(f, m, payload).Some?
    ensures r.Some? ==> fresh(r.value) && r.value[..] == Replaced(f, m, payload).value
  {
    if |payload| > MAX_PAYLOAD { return None; }
    var headersLength := U32(m.raw[4..8]);
    var total := OVERHEAD + headersLength + |payload|;
    if total > MAX_MESSAGE { return None; }
    var block := m.raw[PRELUDE..PRELUDE + headersLength];
    var result := new byte[total];
    Put(result, 0, PutU32(total));
    Put(result, 4, PutU32(headersLength));
    ghost var prelude := PutU32(total) + PutU32(headersLength);
    assert result[..8] == prelude;
    Put(result, 8, PutU32(f.crc(result[..8])));
    Put(result, PRELUDE, block);
    Put(result, PRELUDE + headersLength, payload);
    assert result[..total - 4] == prelude + PutU32(f.crc(prelude)) + block + payload;
    Put(result, total - 4, PutU32(f.crc(result[..total - 4])));
    r := Some(result);
  }

  // -------------------------------------------------------------------------
  // The proxy

  datatype Proxied = Proxied(written: bytes, clean: bool)

  /** What the proxy writes: frames, up to the first that is invalid or refused by
      the observer. */
  function ProxyFrames(f: Functions, observe: Message -> bool, source: bytes): Proxied
    decreases |source|
  {
    match ReadMessage(f, source)
    case EndOfStream => Proxied([], true)
    case Read(m, rest) =>
      ReadMessageShape(f, source);
      if !observe(m) then Proxied([], false)
      else
        var after := ProxyFrames(f, observe, rest);
        after.(written := m.raw + after.written)
    case _ => Proxied([], false)
  }

  /** The frames of a byte string, if it consists of frames only. */
  ghost predicate FramesOnly(f: Functions, data: bytes)
    decreases |data|
  {
    data == [] || (ReadMessage(f, data).Read? && |ReadMessage(f, data).rest| < |data|
                   && FramesOnly(f, ReadMessage(f, data).rest))
  }

  /** The output is a prefix of the source that ends on a frame boundary, and the
      whole source when the stream ends cleanly. */
  lemma {:induction false} ProxyWritesFrames(f: Functions, observe: Message -> bool, source: bytes)
    ensures var p := ProxyFrames(f, observe, source);
      && p.written <= source && FramesOnly(f, p.written)
      && (p.clean ==> p.written == source)
    decreases |source|
  {
    if ReadMessage(f, source).Read? {
      ReadMessageShape(f, source);
      var m, rest := ReadMessage(f, source).message, ReadMessage(f, source).rest;
      if observe(m) {
        ProxyWritesFrames(f, observe, rest);
        var after := ProxyFrames(f, observe, rest);
        ReadIsFrame(f, source);
        FrameReads(f, HeaderBlock(m), m.payload, after.written);
      }
    }
  }

  method Proxy(f: Functions, observe: Message -> bool, source: bytes) returns (destination: bytes, clean: bool)
    ensures Proxied(destination, clean) == ProxyFrames(f, observe, source)
  {
    destination := [];
    var left := source;
    while true
      invariant ProxyFrames(f, observe, source).clean == ProxyFrames(f, observe, left).clean
      invariant ProxyFrames(f, observe, source).written == destination + ProxyFrames(f, observe, left).written
      decreases |left|
    {
      var r := ReadMessage(f, left);
      match r {
        case EndOfStream => return destination, true;
        case Read(m, rest) =>
          if !observe(m) { return destination, false; }
          ReadMessageShape(f, left);
          destination := destination + m.raw;
          left := rest;
        case _ => return destination, false;
      }
    }
  }
}
