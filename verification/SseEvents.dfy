/**
 Server-sent events (pkg/gateway/response.go): the proxy cuts the byte stream
 into events at blank lines while the bytes arrive in arbitrary reads.
 */
module SseEvents {
  import opened Options
  import opened Bytes

  const CR: byte := 13
  const LF: byte := 10

  predicate Newline(b: byte) { b == CR || b == LF }

  /** The length of the line ending at i: CR LF counts as one ending. */
  function EndingLength(data: bytes, i: nat): nat
    requires i < |data| && Newline(data[i])
  {
    if data[i] == CR && i + 1 < |data| && data[i + 1] == LF then 2 else 1
  }

  /** Where the first blank line at or after i ends, the current line having
      begun at `lineStart`. */
  function BlankEnd(data: bytes, i: nat, lineStart: nat): (r: Option<nat>)
    requires i <= |data|
    ensures r.Some? ==> i < r.value <= |data|
    decreases |data| - i
  {
    if i == |data| then None
    else if !Newline(data[i]) then BlankEnd(data, i + 1, lineStart)
    else
      var next := i + EndingLength(data, i);
      if i == lineStart then Some(next) else BlankEnd(data, next, next)
  }

  /** Where the first event of the data ends. */
  function EventEnd(data: bytes): (r: Option<nat>)
    ensures r.Some? ==> 0 < r.value <= |data|
  {
    BlankEnd(data, 0, 0)
  }

  datatype Delivery = Delivery(events: seq<bytes>, ok: bool)

  function Prepend(events: seq<bytes>, d: Delivery): Delivery {
    d.(events := events + d.events)
  }

  /** What the proxy delivers of a whole stream: its events in order, the last one
      possibly without its blank line, up to the first event over the limit. */
  function Deliver(data: bytes, limit: nat): Delivery {
    match EventEnd(data)
    case Some(n) =>
      if n > limit then Delivery([], false) else Prepend([data[..n]], Deliver(data[n..], limit))
    case None =>
      if data == [] then Delivery([], true)
      else if |data| > limit then Delivery([], false)
      else Delivery([data], true)
  }

  /** Nothing is lost, added or reordered: without an oversized event the delivered
      events are the stream, and otherwise a prefix of it; every event but the
      last ends at its own first blank line. */
  lemma {:induction false} DeliverPartitions(data: bytes, limit: nat)
    ensures var d := Deliver(data, limit);
      && (d.ok ==> Join(d.events) == data)
      && Join(d.events) <= data
      && (forall i :: 0 <= i < |d.events| ==> 0 < |d.events[i]| <= limit)
      && (forall i :: 0 <= i < |d.events| - 1 ==> EventEnd(d.events[i]) == Some(|d.events[i]|))
    decreases |data|
  {
    match EventEnd(data) {
      case Some(n) =>
        if n <= limit {
          DeliverPartitions(data[n..], limit);
          var d, rest := Deliver(data, limit), Deliver(data[n..], limit);
          assert d.events == [data[..n]] + rest.events;
          assert d.events[1..] == rest.events;
          assert data == data[..n] + data[n..];
          PrefixEvent(data, 0, 0, n);
        }
      case None =>
        assert data == data + [];
        assert [data][1..] == [];
    }
  }

  /** An event is recognised by its own bytes alone. */
  lemma {:induction false} PrefixEvent(data: bytes, i: nat, lineStart: nat, n: nat)
    requires i <= |data| && BlankEnd(data, i, lineStart) == Some(n)
    ensures BlankEnd(data[..n], i, lineStart) == Some(n)
    decreases |data| - i
  {
    if !Newline(data[i]) {
      PrefixEvent(data, i + 1, lineStart, n);
    } else if i != lineStart {
      var next := i + EndingLength(data, i);
      PrefixEvent(data, next, next, n);
    }
  }

  // -------------------------------------------------------------------------
  // The incremental scanner

  /** Scanning the buffer followed by what is still to come may resume at `scan`. */
  predicate Resumes(buffer: bytes, scan: nat, lineStart: nat, coming: bytes) {
    scan <= |buffer| && EventEnd(buffer + coming) == BlankEnd(buffer + coming, scan, lineStart)
  }

  lemma PrependPrepend(a: seq<bytes>, b: seq<bytes>, d: Delivery)
    ensures Prepend(a, Prepend(b, d)) == Prepend(a + b, d) && Prepend([], d) == d
  {
    assert a + (b + d.events) == a + b + d.events && [] + d.events == d.events;
  }

  /** A byte that ends no line. */
  lemma SkipByte(rest: bytes, scan: nat, lineStart: nat, coming: bytes)
    requires Resumes(rest, scan, lineStart, coming) && scan < |rest| && !Newline(rest[scan])
    ensures Resumes(rest, scan + 1, lineStart, coming)
  {
    assert (rest + coming)[scan] == rest[scan];
  }

  /** A line ending whose extent does not depend on what is still to come. */
  lemma SkipLine(rest: bytes, scan: nat, lineStart: nat, coming: bytes)
    requires Resumes(rest, scan, lineStart, coming) && scan < |rest| && Newline(rest[scan])
    requires scan + 1 < |rest| || rest[scan] == LF || coming == []
    ensures var next := scan + EndingLength(rest, scan);
      if scan == lineStart then EventEnd(rest + coming) == Some(next) else Resumes(rest, next, next, coming)
  {
    var all := rest + coming;
    assert all[scan] == rest[scan];
    if scan + 1 < |rest| { assert all[scan + 1] == rest[scan + 1]; }
  }

  lemma CutEvent(events: seq<bytes>, rest: bytes, n: nat, coming: bytes, limit: nat)
    requires EventEnd(rest + coming) == Some(n) && n <= |rest|
    ensures Prepend(events, Deliver(rest + coming, limit)) ==
      if n > limit then Delivery(events, false)
      else Prepend(events + [rest[..n]], Deliver(rest[n..] + coming, limit))
  {
    var all := rest + coming;
    assert all[..n] == rest[..n] && all[n..] == rest[n..] + coming;
    if n <= limit {
      PrependPrepend(events, [rest[..n]], Deliver(all[n..], limit));
    } else {
      assert events + [] == events;
    }
  }

  /** Cuts complete events off the buffer.  Before the end of the stream a CR in
      last place is left alone, as an LF may follow. */
  method WriteCompleteEvents(buffer: bytes, from: nat, fromLine: nat, eof: bool, limit: nat, ghost coming: bytes)
    returns (events: seq<bytes>, rest: bytes, scan: nat, lineStart: nat, ok: bool)
    requires Resumes(buffer, from, fromLine, coming)
    requires eof ==> coming == []
    ensures ok ==> Deliver(buffer + coming, limit) == Prepend(events, Deliver(rest + coming, limit))
    ensures !ok ==> Deliver(buffer + coming, limit) == Delivery(events, false)
    ensures ok ==> Resumes(rest, scan, lineStart, coming) && |rest| <= |buffer|
    ensures ok ==> match EventEnd(rest + coming) case Some(n) => !eof && n >= |rest| case None => true
  {
    events, rest, scan, lineStart := [], buffer, from, fromLine;
    PrependPrepend([], [], Deliver(buffer + coming, limit));
    while scan < |rest|
      invariant Deliver(buffer + coming, limit) == Prepend(events, Deliver(rest + coming, limit))
      invariant Resumes(rest, scan, lineStart, coming)
      invariant |rest| <= |buffer|
      decreases |rest|, |rest| - scan
    {
      if !Newline(rest[scan]) {
        SkipByte(rest, scan, lineStart, coming);
        scan := scan + 1;
        continue;
      }
      var ending := 1;
      if rest[scan] == CR {
        if scan + 1 == |rest| && !eof { break; }
        if scan + 1 < |rest| && rest[scan + 1] == LF { ending := 2; }
      }
      SkipLine(rest, scan, lineStart, coming);
      var blank := scan == lineStart;
      scan := scan + ending;
      lineStart := scan;
      if !blank { continue; }
      CutEvent(events, rest, scan, coming, limit);
      if scan > limit { return events, rest, scan, lineStart, false; }
      events := events + [rest[..scan]];
      rest, lineStart, scan := rest[scan..], 0, 0;
    }
    ok := true;
  }

  datatype Result = Complete | TooLarge | NoProgress

  /** The proxy over a sequence of reads: however the stream is cut into reads,
      what is delivered depends on its bytes alone. */
  method Proxy(chunks: seq<bytes>, limit: nat) returns (events: seq<bytes>, result: Result)
    ensures !result.NoProgress? ==> Delivery(events, result.Complete?) == Deliver(Join(chunks), limit)
    ensures result.NoProgress? ==> [] in chunks
  {
    events := [];
    var buffer: bytes, scan, lineStart := [], 0, 0;
    assert chunks[0..] == chunks && [] + Join(chunks) == Join(chunks);
    PrependPrepend([], [], Deliver(Join(chunks), limit));
    for k := 0 to |chunks|
      invariant Deliver(Join(chunks), limit) == Prepend(events, Deliver(buffer + Join(chunks[k..]), limit))
      invariant Resumes(buffer, scan, lineStart, Join(chunks[k..]))
      invariant |buffer| <= limit
    {
      if chunks[k] == [] { return events, NoProgress; }
      ghost var coming := Join(chunks[k + 1..]);
      NextRead(chunks, k, buffer, scan, lineStart);
      buffer := buffer + chunks[k];
      var more, ok;
      more, buffer, scan, lineStart, ok := WriteCompleteEvents(buffer, scan, lineStart, false, limit, coming);
      PrependPrepend(events, more, Deliver(buffer + coming, limit));
      events := events + more;
      if !ok { return events, TooLarge; }
      if |buffer| > limit {
        Oversized(buffer, coming, limit);
        assert events + [] == events;
        return events, TooLarge;
      }
    }
    assert chunks[|chunks|..] == [];
    var more, ok;
    more, buffer, scan, lineStart, ok := WriteCompleteEvents(buffer, scan, lineStart, true, limit, []);
    PrependPrepend(events, more, Deliver(buffer + [], limit));
    events := events + more;
    if !ok { return events, TooLarge; }
    assert buffer + [] == buffer && events + [] == events;
    if buffer != [] { events := events + [buffer]; }
    result := Complete;
  }

  lemma NextRead(chunks: seq<bytes>, k: nat, buffer: bytes, scan: nat, lineStart: nat)
    requires k < |chunks| && Resumes(buffer, scan, lineStart, Join(chunks[k..]))
    ensures buffer + Join(chunks[k..]) == buffer + chunks[k] + Join(chunks[k + 1..])
    ensures Resumes(buffer + chunks[k], scan, lineStart, Join(chunks[k + 1..]))
  {
    assert chunks[k..][1..] == chunks[k + 1..];
    assert buffer + (chunks[k] + Join(chunks[k + 1..])) == buffer + chunks[k] + Join(chunks[k + 1..]);
  }

  /** A buffer over the limit without an event end in it cannot be delivered. */
  lemma Oversized(buffer: bytes, coming: bytes, limit: nat)
    requires |buffer| > limit
    requires EventEnd(buffer + coming).Some? ==> EventEnd(buffer + coming).value >= |buffer|
    ensures Deliver(buffer + coming, limit) == Delivery([], false)
  {}
}
