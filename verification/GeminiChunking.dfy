/**
 Chunking invariance: however the parts of one Gemini candidate are spread over
 stream events, the stream translator accepts exactly when the buffered one
 accepts the whole candidate, and the caller assembles the same message.
 */
module GeminiChunking {
  import opened Options
  import opened JsonValues
  import opened ChatChunks
  import opened GeminiResponse
  import opened GeminiStream

  function Flatten(pieces: seq<seq<Json>>): seq<Json> {
    if pieces == [] then [] else Flatten(pieces[..|pieces| - 1]) + pieces[|pieces| - 1]
  }

  // -------------------------------------------------------------------------
  // Parsing a concatenation

  predicate Distinct(calls: seq<ToolCall>) {
    forall i, j :: 0 <= i < j < |calls| ==> calls[i].id != calls[j].id
  }

  function Combine(a: Option<Candidate>, b: Option<Candidate>): Option<Candidate> {
    match (a, b)
    case (Some(x), Some(y)) =>
      if Ids(x.calls) !! Ids(y.calls) then Some(Candidate(x.text + y.text, x.calls + y.calls)) else None
    case _ => None
  }

  lemma CombineItem(x: Candidate, y: Candidate, item: Item)
    ensures (match Combine(Some(x), Some(y)) case Some(c) => AddItem(c, item) case None => None)
            == Combine(Some(x), AddItem(y, item))
  {
    match item {
      case TextItem(text) => assert x.text + y.text + text == x.text + (y.text + text);
      case CallItem(call) =>
        IdsAppend(y.calls, call);
        IdsConcat(x.calls, y.calls);
        assert x.calls + y.calls + [call] == x.calls + (y.calls + [call]);
    }
  }

  lemma IdsConcat(a: seq<ToolCall>, b: seq<ToolCall>)
    ensures Ids(a + b) == Ids(a) + Ids(b)
  {
    forall i | 0 <= i < |a| ensures a[i].id in Ids(a + b) { assert (a + b)[i] == a[i]; }
    forall i | 0 <= i < |b| ensures b[i].id in Ids(a + b) { assert (a + b)[|a| + i] == b[i]; }
  }

  /** Parsing a concatenation combines the parses; it fails on a repeated id. */
  lemma {:induction false} ParseConcat(g: GeminiCodec, a: seq<Json>, b: seq<Json>)
    ensures ParseParts(g, a + b) == Combine(ParseParts(g, a), ParseParts(g, b))
  {
    if b == [] {
      assert a + b == a;
      var x := ParseParts(g, a);
      assert x.Some? ==> x.value.text + "" == x.value.text && x.value.calls + [] == x.value.calls;
    } else {
      var b', last := b[..|b| - 1], b[|b| - 1];
      assert (a + b)[..|a + b| - 1] == a + b';
      ParseConcat(g, a, b');
      var x, y, item := ParseParts(g, a), ParseParts(g, b'), ParsePart(g, last);
      if x.Some? && y.Some? && item.Some? {
        CombineItem(x.value, y.value, item.value);
      }
    }
  }

  lemma {:induction false} ParseDistinct(g: GeminiCodec, parts: seq<Json>)
    ensures ParseParts(g, parts).Some? ==> Distinct(ParseParts(g, parts).value.calls)
  {
    if parts != [] { ParseDistinct(g, parts[..|parts| - 1]); }
  }

  // -------------------------------------------------------------------------
  // Announcing calls

  /** Calls are announced iff none repeats an id. */
  lemma {:induction false} AnnounceIds(s: State, calls: seq<ToolCall>)
    requires Distinct(calls)
    ensures var r := Announce(s, calls);
      && (r.ok <==> Ids(calls) !! s.toolIds)
      && (r.ok ==> r.next == s.(toolIds := s.toolIds + Ids(calls), nextTool := s.nextTool + |calls|))
  {
    if calls != [] {
      var init, call := calls[..|calls| - 1], calls[|calls| - 1];
      AnnounceIds(s, init);
      assert calls == init + [call];
      IdsAppend(init, call);
      assert call.id !in Ids(init);
    }
  }

  lemma ToolAssembled(out: seq<Chunk>, m: Message, calls: seq<ToolCall>, index: nat, call: ToolCall)
    requires Assemble(out) == m.(calls := m.calls + calls)
    ensures Assemble(out + [ToolStart(index, call.id, call.name, call.arguments)])
            == m.(calls := m.calls + (calls + [call]))
  {
    AssembleOne(out, ToolStart(index, call.id, call.name, call.arguments));
    assert (m.calls + calls) + [call] == m.calls + (calls + [call]);
  }

  /** Announced calls are what the caller assembles. */
  lemma {:induction false} AnnounceAssembled(s: State, calls: seq<ToolCall>, out: seq<Chunk>)
    requires Announce(s, calls).ok
    ensures Assemble(out + Announce(s, calls).out) == Assemble(out).(calls := Assemble(out).calls + calls)
  {
    if calls == [] {
      assert out + [] == out;
      assert Assemble(out).calls + [] == Assemble(out).calls;
    } else {
      var init, call := calls[..|calls| - 1], calls[|calls| - 1];
      AnnounceAssembled(s, init, out);
      var before := Announce(s, init);
      ToolAssembled(out + before.out, Assemble(out), init, before.next.nextTool, call);
      assert calls == init + [call];
      assert out + Announce(s, calls).out
             == out + before.out + [ToolStart(before.next.nextTool, call.id, call.name, call.arguments)];
    }
  }

  lemma OpeningAssembled(s: State, text: string, out: seq<Chunk>)
    ensures Assemble(out + Opening(s, text)) == Assemble(out).(text := Assemble(out).text + text)
  {
    var begun := out + if s.started then [] else [Role];
    assert s.started ==> begun == out;
    AssembleOne(out, Role);
    assert Assemble(begun) == Assemble(out);
    if text == "" {
      assert out + Opening(s, text) == begun;
      assert Assemble(out).text + text == Assemble(out).text;
    } else {
      assert out + Opening(s, text) == begun + [Content(text)];
      AssembleOne(begun, Content(text));
    }
  }

  // -------------------------------------------------------------------------
  // Runs over pieces

  function Piece(parts: seq<Json>, usage: Option<TokenUsage>, finish: string): Option<Event> {
    Some(Data(Some(RawCandidate(parts, finish)), usage))
  }

  /** One unfinished event for each piece. */
  function Unfinished(pieces: seq<seq<Json>>, usages: seq<Option<TokenUsage>>): seq<Option<Event>>
    requires |pieces| == |usages|
  {
    seq(|pieces|, i requires 0 <= i < |pieces| => Piece(pieces[i], usages[i], ""))
  }

  /** One event for each piece, the finish reason on the last. */
  function Split(pieces: seq<seq<Json>>, usages: seq<Option<TokenUsage>>, finish: string): seq<Option<Event>>
    requires |pieces| == |usages| && |pieces| > 0
  {
    var n := |pieces| - 1;
    Unfinished(pieces[..n], usages[..n]) + [Piece(pieces[n], usages[n], finish)]
  }

  function Reported(usage: TokenUsage, next: Option<TokenUsage>): TokenUsage {
    if next.Some? then MergeUsage(usage, next.value) else usage
  }

  function MergeAll(usages: seq<Option<TokenUsage>>): TokenUsage {
    if usages == [] then MISSING else Reported(MergeAll(usages[..|usages| - 1]), usages[|usages| - 1])
  }

  /** The stream has consumed the parts parsed as c, and nothing more. */
  predicate Consumed(r: Reply, c: Candidate, usage: TokenUsage) {
    && r.ok && !r.next.finished && !r.next.failed
    && r.next.toolIds == Ids(c.calls) && r.next.nextTool == |c.calls| && r.next.usage == usage
    && Assemble(r.out) == Message(c.text, c.calls, None, None)
  }

  /** The content of one more event, appended to what was consumed. */
  lemma ContentConsumed(g: GeminiCodec, before: Reply, c: Candidate, usage: TokenUsage, parts: seq<Json>)
    requires Consumed(before, c, usage) && ParseParts(g, parts).Some?
    ensures var r := OnContent(before.next, ParseParts(g, parts).value);
      match Combine(Some(c), ParseParts(g, parts))
      case None => !r.ok
      case Some(c') => Consumed(Reply(r.next, before.out + r.out, r.ok), c', usage) && r.next.started
  {
    var d := ParseParts(g, parts).value;
    ParseDistinct(g, parts);
    var s, opening := before.next, Opening(before.next, d.text);
    OpeningAssembled(s, d.text, before.out);
    AnnounceIds(s.(started := true), d.calls);
    IdsConcat(c.calls, d.calls);
    var a := Announce(s.(started := true), d.calls);
    if a.ok { AnnounceAssembled(s.(started := true), d.calls, before.out + opening); }
    assert before.out + (opening + a.out) == before.out + opening + a.out;
  }

  lemma {:induction false} UnfinishedRun(g: GeminiCodec, pieces: seq<seq<Json>>, usages: seq<Option<TokenUsage>>)
    requires |pieces| == |usages|
    ensures var r := Run(g, Unfinished(pieces, usages));
      match ParseParts(g, Flatten(pieces))
      case None => !r.ok
      case Some(c) => Consumed(r, c, MergeAll(usages))
  {
    if pieces != [] {
      var n := |pieces| - 1;
      UnfinishedRun(g, pieces[..n], usages[..n]);
      var events := Unfinished(pieces, usages);
      assert events[..n] == Unfinished(pieces[..n], usages[..n]);
      ParseConcat(g, Flatten(pieces[..n]), pieces[n]);
      var before, c := Run(g, events[..n]), ParseParts(g, Flatten(pieces[..n]));
      if c.Some? && ParseParts(g, pieces[n]).Some? {
        UsageOnly(before, c.value, MergeAll(usages[..n]), usages[n]);
        var s' := before.next.(usage := MergeAll(usages));
        ContentConsumed(g, before.(next := s'), c.value, MergeAll(usages), pieces[n]);
        assert Handle(g, before.next, events[n].value) == OnContent(s', ParseParts(g, pieces[n]).value);
      }
    }
  }

  lemma UsageOnly(before: Reply, c: Candidate, usage: TokenUsage, next: Option<TokenUsage>)
    requires Consumed(before, c, usage)
    ensures Consumed(before.(next := before.next.(usage := Reported(usage, next))), c, Reported(usage, next))
  {}

  /** The stream has consumed the whole candidate and written the finish reason. */
  predicate Completed(r: Reply, whole: Candidate, reason: Option<string>, usage: TokenUsage) {
    if reason.None? then !r.ok
    else
      && r.ok && r.next.started && r.next.finished && !r.next.failed && r.next.usage == usage
      && Assemble(r.out) == Message(whole.text, whole.calls, reason, None)
  }

  lemma FinishCompletes(before: Reply, r: Reply, c: Candidate, usage: TokenUsage, finish: string)
    requires r.ok && r.next.started && Consumed(Reply(r.next, before.out + r.out, r.ok), c, usage)
    ensures var r' := OnFinish(r, finish);
      Completed(Reply(r'.next, before.out + r'.out, r'.ok), c, FinishReason(finish, c.calls != []), usage)
  {
    var reason := FinishReason(finish, r.next.nextTool != 0);
    if reason.Some? {
      AssembleOne(before.out + r.out, Finish(reason.value));
      assert before.out + (r.out + [Finish(reason.value)]) == before.out + r.out + [Finish(reason.value)];
    }
  }

  /** The last event: the stream completes iff the whole candidate translates. */
  lemma FinalEvent(g: GeminiCodec, before: Reply, c: Candidate, usage: TokenUsage, parts: seq<Json>, finish: string)
    requires Consumed(before, c, usage) && finish != "" && ParseParts(g, parts).Some?
    ensures var r := OnCandidate(before.next, ParseParts(g, parts).value, finish);
      match Combine(Some(c), ParseParts(g, parts))
      case None => !r.ok
      case Some(whole) =>
        Completed(Reply(r.next, before.out + r.out, r.ok), whole, FinishReason(finish, whole.calls != []), usage)
  {
    ContentConsumed(g, before, c, usage, parts);
    var r := OnContent(before.next, ParseParts(g, parts).value);
    var whole := Combine(Some(c), ParseParts(g, parts));
    if whole.Some? {
      FinishCompletes(before, r, whole.value, usage, finish);
    }
  }

  function NonEmpty(text: string): Option<string> {
    if text == "" then None else Some(text)
  }

  /** The caller's message is the completion. */
  predicate Same(m: Message, c: Completion, includeUsage: bool) {
    && NonEmpty(m.text) == c.content && m.calls == c.calls && m.finish == Some(c.finish)
    && m.usage == if includeUsage then Some(c.usage) else None
  }

  lemma SplitRun(g: GeminiCodec, pieces: seq<seq<Json>>, usages: seq<Option<TokenUsage>>, finish: string)
    requires |pieces| == |usages| && |pieces| > 0 && finish != ""
    ensures var r := Run(g, Split(pieces, usages, finish));
      match ParseParts(g, Flatten(pieces))
      case None => !r.ok
      case Some(c) => Completed(r, c, FinishReason(finish, c.calls != []), MergeAll(usages))
  {
    var n, events := |pieces| - 1, Split(pieces, usages, finish);
    UnfinishedRun(g, pieces[..n], usages[..n]);
    assert events[..n] == Unfinished(pieces[..n], usages[..n]);
    ParseConcat(g, Flatten(pieces[..n]), pieces[n]);
    var before, c := Run(g, events[..n]), ParseParts(g, Flatten(pieces[..n]));
    if c.Some? && ParseParts(g, pieces[n]).Some? {
      UsageOnly(before, c.value, MergeAll(usages[..n]), usages[n]);
      var s' := before.next.(usage := MergeAll(usages));
      FinalEvent(g, before.(next := s'), c.value, MergeAll(usages), pieces[n], finish);
      assert Handle(g, before.next, events[n].value) == OnCandidate(s', ParseParts(g, pieces[n]).value, finish);
    }
  }

  /** The trailing usage chunk and `[DONE]` add the usage and nothing else. */
  lemma OutputAssembled(r: Reply, includeUsage: bool)
    requires ProxyOutcome(r).Success?
    ensures Assemble(ProxyOutput(r, includeUsage))
            == if includeUsage then Assemble(r.out).(usage := Some(ToChat(r.next.usage))) else Assemble(r.out)
  {
    if includeUsage {
      var usage := Usage(ToChat(r.next.usage));
      AssembleOne(r.out, usage);
      AssembleOne(r.out + [usage], Done);
    } else {
      AssembleOne(r.out, Done);
      assert r.out + [] == r.out;
    }
  }

  /** Chunking invariance, for every split and every distribution of usage reports. */
  lemma ChunkingInvariance(
    g: GeminiCodec, pieces: seq<seq<Json>>, usages: seq<Option<TokenUsage>>, finish: string, includeUsage: bool)
    requires |pieces| == |usages| && |pieces| > 0 && finish != ""
    ensures var r := Run(g, Split(pieces, usages, finish));
      var whole := TranslateData(g, RawCandidate(Flatten(pieces), finish), MergeAll(usages));
      && (ProxyOutcome(r).Success? <==> whole.Some?)
      && (whole.Some? ==> Same(Assemble(ProxyOutput(r, includeUsage)), whole.value, includeUsage))
  {
    SplitRun(g, pieces, usages, finish);
    var r := Run(g, Split(pieces, usages, finish));
    if ProxyOutcome(r).Success? { OutputAssembled(r, includeUsage); }
  }

  // -------------------------------------------------------------------------
  // The same on JSON payloads

  function ContentJson(parts: seq<Json>): Object {
    map["role" := Str("model"), "parts" := Arr(parts)]
  }

  function CandidateJson(parts: seq<Json>, finish: string): Object {
    if finish == "" then map["content" := Obj(ContentJson(parts))]
    else map["content" := Obj(ContentJson(parts)), "finishReason" := Str(finish)]
  }

  function PayloadJson(parts: seq<Json>, finish: string, usage: Option<Json>): Json {
    var candidates := Arr([Obj(CandidateJson(parts, finish))]);
    Obj(if usage.None? then map["candidates" := candidates]
        else map["candidates" := candidates, "usageMetadata" := usage.value])
  }

  predicate Objects(parts: seq<Json>) {
    forall i :: 0 <= i < |parts| ==> parts[i].Obj? || parts[i].Null?
  }

  function DecodeReport(g: GeminiCodec, usage: Option<Json>): Option<TokenUsage> {
    if usage.None? || usage.value.Null? then None else g.decodeUsage(usage.value)
  }

  lemma DecodeContentJson(parts: seq<Json>)
    ensures DecodeParts(ContentJson(parts)) == if Objects(parts) then Some(parts) else None
  {
    var c := ContentJson(parts);
    assert OnlyFields(c, {"role", "parts"}) && c["parts"] == Arr(parts) && c["role"] == Str("model");
  }

  lemma DecodeCandidateJson(parts: seq<Json>, finish: string)
    ensures DecodeCandidate(CandidateJson(parts, finish))
            == if Objects(parts) then Some(RawCandidate(parts, finish)) else None
  {
    DecodeContentJson(parts);
    var c := CandidateJson(parts, finish);
    assert c.Keys <= {"content", "finishReason"};
    assert ObjectField(c, "content") == Some(ContentJson(parts));
  }

  lemma DecodePayloadJson(g: GeminiCodec, parts: seq<Json>, finish: string, usage: Option<Json>)
    ensures Decode(g, PayloadJson(parts, finish, usage))
            == if Objects(parts) then Piece(parts, DecodeReport(g, usage), finish) else None
  {
    DecodeCandidateJson(parts, finish);
    var e := PayloadJson(parts, finish, usage).fields;
    assert e.Keys <= {"candidates", "usageMetadata"};
    assert DecodeCandidates(e) == Some([Obj(CandidateJson(parts, finish))]);
  }

  /** The payloads of a stream that carries one candidate in pieces, each with a usage report or none. */
  function SplitJson(pieces: seq<seq<Json>>, usages: seq<Option<Json>>, finish: string): seq<Json>
    requires |pieces| == |usages| && |pieces| > 0
  {
    seq(|pieces|, i requires 0 <= i < |pieces| =>
      PayloadJson(pieces[i], if i < |pieces| - 1 then "" else finish, usages[i]))
  }

  function Reports(g: GeminiCodec, usages: seq<Option<Json>>): seq<Option<TokenUsage>> {
    seq(|usages|, i requires 0 <= i < |usages| => DecodeReport(g, usages[i]))
  }

  function DecodeAll(g: GeminiCodec, payloads: seq<Json>): seq<Option<Event>> {
    seq(|payloads|, i requires 0 <= i < |payloads| => Decode(g, payloads[i]))
  }

  lemma ObjectsConcat(a: seq<Json>, b: seq<Json>)
    ensures Objects(a + b) <==> Objects(a) && Objects(b)
  {
    assert forall i :: 0 <= i < |a| ==> (a + b)[i] == a[i];
    assert forall i :: 0 <= i < |b| ==> (a + b)[|a| + i] == b[i];
  }

  lemma {:induction false} FlattenObjects(pieces: seq<seq<Json>>)
    ensures Objects(Flatten(pieces)) <==> forall i :: 0 <= i < |pieces| ==> Objects(pieces[i])
  {
    if pieces != [] {
      var n := |pieces| - 1;
      FlattenObjects(pieces[..n]);
      ObjectsConcat(Flatten(pieces[..n]), pieces[n]);
      assert forall i :: 0 <= i < n ==> pieces[..n][i] == pieces[i];
    }
  }

  /** A payload that does not decode ends the run with an error. */
  lemma {:induction false} UndecodedFails(g: GeminiCodec, events: seq<Option<Event>>, i: nat)
    requires i < |events| && events[i].None?
    ensures !Run(g, events).ok
  {
    if i < |events| - 1 { UndecodedFails(g, events[..|events| - 1], i); }
  }

  lemma SplitDecodesAt(g: GeminiCodec, pieces: seq<seq<Json>>, usages: seq<Option<Json>>, finish: string, i: nat)
    requires |pieces| == |usages| && i < |pieces|
    ensures DecodeAll(g, SplitJson(pieces, usages, finish))[i] ==
      if !Objects(pieces[i]) then None
      else Piece(pieces[i], DecodeReport(g, usages[i]), if i < |pieces| - 1 then "" else finish)
  {
    DecodePayloadJson(g, pieces[i], if i < |pieces| - 1 then "" else finish, usages[i]);
  }

  lemma SplitAt(pieces: seq<seq<Json>>, reports: seq<Option<TokenUsage>>, finish: string, i: nat)
    requires |pieces| == |reports| && i < |pieces|
    ensures |Split(pieces, reports, finish)| == |pieces|
    ensures Split(pieces, reports, finish)[i] == Piece(pieces[i], reports[i], if i < |pieces| - 1 then "" else finish)
  {}

  /** Decoding the payloads of a split gives the events of the split. */
  lemma SplitDecodes(g: GeminiCodec, pieces: seq<seq<Json>>, usages: seq<Option<Json>>, finish: string)
    requires |pieces| == |usages| && |pieces| > 0
    requires forall i :: 0 <= i < |pieces| ==> Objects(pieces[i])
    ensures DecodeAll(g, SplitJson(pieces, usages, finish)) == Split(pieces, Reports(g, usages), finish)
  {
    var a, b := DecodeAll(g, SplitJson(pieces, usages, finish)), Split(pieces, Reports(g, usages), finish);
    SplitAt(pieces, Reports(g, usages), finish, 0);
    forall i | 0 <= i < |pieces| ensures a[i] == b[i] {
      SplitDecodesAt(g, pieces, usages, finish, i);
      SplitAt(pieces, Reports(g, usages), finish, i);
    }
  }

  /** A part that is no object makes the stream fail. */
  lemma SplitFails(g: GeminiCodec, pieces: seq<seq<Json>>, usages: seq<Option<Json>>, finish: string, i: nat)
    requires |pieces| == |usages| && i < |pieces| && !Objects(pieces[i])
    ensures !Run(g, DecodeAll(g, SplitJson(pieces, usages, finish))).ok
  {
    SplitDecodesAt(g, pieces, usages, finish, i);
    UndecodedFails(g, DecodeAll(g, SplitJson(pieces, usages, finish)), i);
  }

  /** Translating a whole body: its parts, and its usage as the only report. */
  lemma WholeTranslates(g: GeminiCodec, parts: seq<Json>, finish: string, usage: Option<Json>)
    ensures Translate(g, PayloadJson(parts, finish, usage)) ==
      if Objects(parts) then TranslateData(g, RawCandidate(parts, finish), Reported(MISSING, DecodeReport(g, usage)))
      else None
  {
    DecodePayloadJson(g, parts, finish, usage);
  }

  /** Chunking invariance on JSON: a stream of payloads that spreads one candidate and its usage
      reports over events, against the whole response body, whose usage is the merge of the reports. */
  lemma ChunkingInvarianceJson(
    g: GeminiCodec, pieces: seq<seq<Json>>, usages: seq<Option<Json>>, finish: string, usage: Option<Json>, includeUsage: bool)
    requires |pieces| == |usages| && |pieces| > 0 && finish != ""
    requires Reported(MISSING, DecodeReport(g, usage)) == MergeAll(Reports(g, usages))
    ensures var r := Run(g, DecodeAll(g, SplitJson(pieces, usages, finish)));
      var whole := Translate(g, PayloadJson(Flatten(pieces), finish, usage));
      && (ProxyOutcome(r).Success? <==> whole.Some?)
      && (whole.Some? ==> Same(Assemble(ProxyOutput(r, includeUsage)), whole.value, includeUsage))
  {
    FlattenObjects(pieces);
    WholeTranslates(g, Flatten(pieces), finish, usage);
    if i :| 0 <= i < |pieces| && !Objects(pieces[i]) {
      SplitFails(g, pieces, usages, finish, i);
    } else {
      SplitDecodes(g, pieces, usages, finish);
      ChunkingInvariance(g, pieces, Reports(g, usages), finish, includeUsage);
    }
  }
}
