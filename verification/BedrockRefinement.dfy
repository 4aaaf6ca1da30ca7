/**
 The Bedrock stream against the buffered translator: what a client assembles, and
 what the response that the same events describe is translated to.
 */
module BedrockRefinement {
  import opened Options
  import opened JsonValues
  import opened ChatChunks
  import opened BedrockStream
  import opened BedrockResponse

  // -------------------------------------------------------------------------
  // The response that a sequence of events describes

  datatype Slot =
    | TextSlot(index: int, text: string)
    | ToolSlot(index: int, id: string, name: string, input: string)

  datatype Described = Described(slots: seq<Slot>, stop: string, report: Option<(Json, ChatUsage)>)

  function ExtendText(slots: seq<Slot>, i: int, text: string): seq<Slot> {
    seq(|slots|, p requires 0 <= p < |slots| =>
      if slots[p].TextSlot? && slots[p].index == i then TextSlot(i, slots[p].text + text) else slots[p])
  }

  function ExtendTool(slots: seq<Slot>, i: int, input: string): seq<Slot> {
    seq(|slots|, p requires 0 <= p < |slots| =>
      if slots[p].ToolSlot? && slots[p].index == i
      then ToolSlot(i, slots[p].id, slots[p].name, slots[p].input + input) else slots[p])
  }

  predicate HasText(slots: seq<Slot>, i: int) {
    exists p :: 0 <= p < |slots| && slots[p].TextSlot? && slots[p].index == i
  }

  /** A text block begins with its first delta, a tool block with its start. */
  function Build(d: Described, e: Event): Described {
    match e
    case ToolBlockStart(i, id, name) => d.(slots := d.slots + [ToolSlot(i, id, name, "")])
    case TextDelta(i, text) =>
      d.(slots := if HasText(d.slots, i) then ExtendText(d.slots, i, text) else d.slots + [TextSlot(i, text)])
    case ToolDelta(i, input) => d.(slots := ExtendTool(d.slots, i, input))
    case MessageStop(reason) => d.(stop := reason)
    case Metadata(report, usage) => d.(report := Some((report, usage)))
    case _ => d
  }

  function BuildAll(events: seq<Option<Event>>): Described {
    if events == [] then Described([], "", None)
    else
      var before := BuildAll(events[..|events| - 1]);
      match events[|events| - 1]
      case Some(e) => Build(before, e)
      case None => before
  }

  // Tool calls and their block indexes, in order.

  function CallsOf(slots: seq<Slot>): seq<ToolCall> {
    if slots == [] then []
    else
      var before, last := CallsOf(slots[..|slots| - 1]), slots[|slots| - 1];
      if last.ToolSlot? then before + [ToolCall(last.id, last.name, last.input)] else before
  }

  function IndexesOf(slots: seq<Slot>): (r: seq<int>)
    ensures |r| == |CallsOf(slots)|
  {
    if slots == [] then []
    else
      var before, last := IndexesOf(slots[..|slots| - 1]), slots[|slots| - 1];
      if last.ToolSlot? then before + [last.index] else before
  }

  function TextOf(slots: seq<Slot>): string {
    if slots == [] then ""
    else
      var before, last := TextOf(slots[..|slots| - 1]), slots[|slots| - 1];
      if last.TextSlot? then before + last.text else before
  }

  lemma {:induction false} Appended(slots: seq<Slot>, slot: Slot)
    ensures CallsOf(slots + [slot]) ==
      if slot.ToolSlot? then CallsOf(slots) + [ToolCall(slot.id, slot.name, slot.input)] else CallsOf(slots)
    ensures IndexesOf(slots + [slot]) == if slot.ToolSlot? then IndexesOf(slots) + [slot.index] else IndexesOf(slots)
    ensures TextOf(slots + [slot]) == if slot.TextSlot? then TextOf(slots) + slot.text else TextOf(slots)
  {
    assert (slots + [slot])[..|slots|] == slots;
  }

  lemma {:induction false} TextExtended(slots: seq<Slot>, i: int, text: string)
    ensures CallsOf(ExtendText(slots, i, text)) == CallsOf(slots)
    ensures IndexesOf(ExtendText(slots, i, text)) == IndexesOf(slots)
  {
    if slots != [] {
      var n := |slots| - 1;
      TextExtended(slots[..n], i, text);
      assert ExtendText(slots, i, text)[..n] == ExtendText(slots[..n], i, text);
    }
  }

  /** Tool input goes to the calls of that index, and changes nothing else. */
  lemma {:induction false} ToolExtended(slots: seq<Slot>, i: int, input: string)
    ensures IndexesOf(ExtendTool(slots, i, input)) == IndexesOf(slots)
    ensures TextOf(ExtendTool(slots, i, input)) == TextOf(slots)
    ensures forall k :: 0 <= k < |CallsOf(slots)| ==>
      CallsOf(ExtendTool(slots, i, input))[k] ==
      if IndexesOf(slots)[k] == i then CallsOf(slots)[k].(arguments := CallsOf(slots)[k].arguments + input) else CallsOf(slots)[k]
  {
    if slots != [] {
      var n := |slots| - 1;
      ToolExtended(slots[..n], i, input);
      assert ExtendTool(slots, i, input)[..n] == ExtendTool(slots[..n], i, input);
    }
  }

  // -------------------------------------------------------------------------
  // What links the stream state, the chunks and the described response

  /** The tools announced are the tool blocks, in order. */
  ghost predicate ToolsLinked(s: State, d: Described) {
    && |IndexesOf(d.slots)| == s.nextTool
    && (forall k :: 0 <= k < s.nextTool ==> IndexesOf(d.slots)[k] in s.toolIndexes && s.toolIndexes[IndexesOf(d.slots)[k]] == k)
    && (forall i :: i in s.toolIndexes ==> s.toolIndexes[i] < s.nextTool && IndexesOf(d.slots)[s.toolIndexes[i]] == i)
  }

  ghost predicate EnvelopeLinked(s: State, d: Described, m: Message, includeUsage: bool) {
    && (if s.stopped then m.finish.Some? && FinishReason(d.stop) == m.finish else m.finish.None?)
    && s.sawUsage == d.report.Some?
    && m.usage == if includeUsage && s.sawUsage then Some(d.report.value.1) else None
  }

  ghost predicate Linked(s: State, out: seq<Chunk>, d: Described, includeUsage: bool) {
    && ToolsLinked(s, d)
    && Assemble(out).calls == CallsOf(d.slots)
    && EnvelopeLinked(s, d, Assemble(out), includeUsage)
  }

  lemma ToolStartLinks(s: State, d: Described, i: int, id: string, name: string)
    requires ToolsLinked(s, d) && i !in s.toolIndexes
    ensures ToolsLinked(s.(toolIndexes := s.toolIndexes[i := s.nextTool], nextTool := s.nextTool + 1),
                        Build(d, ToolBlockStart(i, id, name)))
  {
    Appended(d.slots, ToolSlot(i, id, name, ""));
  }

  lemma TextLinks(s: State, d: Described, i: int, text: string)
    requires ToolsLinked(s, d)
    ensures ToolsLinked(s, Build(d, TextDelta(i, text)))
    ensures CallsOf(Build(d, TextDelta(i, text)).slots) == CallsOf(d.slots)
  {
    TextExtended(d.slots, i, text);
    Appended(d.slots, TextSlot(i, text));
  }

  lemma ToolDeltaLinks(s: State, d: Described, i: int, input: string)
    requires ToolsLinked(s, d) && i in s.toolIndexes
    ensures ToolsLinked(s, Build(d, ToolDelta(i, input)))
    ensures var k, calls := s.toolIndexes[i], CallsOf(d.slots);
      CallsOf(Build(d, ToolDelta(i, input)).slots) == calls[k := calls[k].(arguments := calls[k].arguments + input)]
  {
    ToolExtended(d.slots, i, input);
    var k, calls := s.toolIndexes[i], CallsOf(d.slots);
    var calls' := CallsOf(ExtendTool(d.slots, i, input));
    forall j | 0 <= j < |calls| ensures calls'[j] == if j == k then calls[k].(arguments := calls[k].arguments + input) else calls[j] {
      assert IndexesOf(d.slots)[j] == i <==> j == k;
    }
  }

  /** A handler that goes on writes at most one chunk. */
  lemma HandleOutput(s: State, e: Event, includeUsage: bool)
    requires Handle(s, e, includeUsage).status.Reading?
    ensures var out := Handle(s, e, includeUsage).out;
      match e
      case MessageStart => out == [Role]
      case ToolBlockStart(_, id, name) => out == [ToolStart(s.nextTool, id, name, "")]
      case TextDelta(_, text) => out == [Content(text)]
      case ToolDelta(i, input) => i in s.toolIndexes && out == [ToolArguments(s.toolIndexes[i], input)]
      case MessageStop(reason) => FinishReason(reason).Some? && out == [Finish(FinishReason(reason).value)]
      case Metadata(_, usage) => out == if includeUsage then [Usage(usage)] else []
      case _ => out == []
  {}

  lemma AssembleOut(out: seq<Chunk>, more: seq<Chunk>)
    requires |more| <= 1
    ensures Assemble(out + more) == if more == [] then Assemble(out) else Absorb(Assemble(out), more[0])
  {
    if more == [] {
      assert out + more == out;
    } else {
      assert more == [more[0]];
      AssembleOne(out, more[0]);
    }
  }

  lemma HandleToolLinks(s: State, m: Message, d: Described, e: Event, includeUsage: bool)
    requires ToolsLinked(s, d) && m.calls == CallsOf(d.slots) && Handle(s, e, includeUsage).status.Reading?
    ensures var r := Handle(s, e, includeUsage);
      && ToolsLinked(r.next, Build(d, e))
      && (r.out == [] ==> CallsOf(Build(d, e).slots) == m.calls)
      && (r.out != [] ==> CallsOf(Build(d, e).slots) == Absorb(m, r.out[0]).calls)
  {
    HandleOutput(s, e, includeUsage);
    match e
    case ToolBlockStart(i, id, name) =>
      ToolStartLinks(s, d, i, id, name);
      Appended(d.slots, ToolSlot(i, id, name, ""));
    case TextDelta(i, text) => TextLinks(s, d, i, text);
    case ToolDelta(i, input) => ToolDeltaLinks(s, d, i, input);
    case _ =>
  }

  lemma HandleEnvelopeLinks(s: State, m: Message, d: Described, e: Event, includeUsage: bool)
    requires EnvelopeLinked(s, d, m, includeUsage) && Handle(s, e, includeUsage).status.Reading?
    ensures var r := Handle(s, e, includeUsage);
      EnvelopeLinked(r.next, Build(d, e), if r.out == [] then m else Absorb(m, r.out[0]), includeUsage)
  {
    HandleOutput(s, e, includeUsage);
  }

  lemma HandleLinks(s: State, out: seq<Chunk>, d: Described, e: Event, includeUsage: bool)
    requires Linked(s, out, d, includeUsage) && Handle(s, e, includeUsage).status.Reading?
    ensures var r := Handle(s, e, includeUsage); Linked(r.next, out + r.out, Build(d, e), includeUsage)
  {
    var more := Handle(s, e, includeUsage).out;
    HandleOutput(s, e, includeUsage);
    assert |more| <= 1;
    AssembleOut(out, more);
    HandleToolLinks(s, Assemble(out), d, e, includeUsage);
    HandleEnvelopeLinks(s, Assemble(out), d, e, includeUsage);
  }

  lemma {:induction false} RunLinks(events: seq<Option<Event>>, includeUsage: bool)
    ensures var r := Run(events, includeUsage);
      r.status.Reading? ==> Linked(r.next, r.out, BuildAll(events), includeUsage)
  {
    if events != [] {
      var init, last := events[..|events| - 1], events[|events| - 1];
      RunLinks(init, includeUsage);
      var before := Run(init, includeUsage);
      if Run(events, includeUsage).status.Reading? {
        HandleLinks(before.next, before.out, BuildAll(init), last.value, includeUsage);
      }
    }
  }

  // -------------------------------------------------------------------------
  // Text

  function DeltaText(events: seq<Option<Event>>): string {
    if events == [] then ""
    else
      DeltaText(events[..|events| - 1])
      + match events[|events| - 1] { case Some(TextDelta(_, text)) => text case _ => "" }
  }

  lemma HandleText(s: State, out: seq<Chunk>, e: Event, includeUsage: bool)
    requires Handle(s, e, includeUsage).status.Reading?
    ensures Assemble(out + Handle(s, e, includeUsage).out).text
            == Assemble(out).text + match e { case TextDelta(_, text) => text case _ => "" }
  {
    HandleOutput(s, e, includeUsage);
    AssembleOut(out, Handle(s, e, includeUsage).out);
    assert Assemble(out).text + "" == Assemble(out).text;
  }

  /** The client reads the text deltas in the order they came. */
  lemma {:induction false} RunText(events: seq<Option<Event>>, includeUsage: bool)
    ensures Run(events, includeUsage).status.Reading? ==> Assemble(Run(events, includeUsage).out).text == DeltaText(events)
  {
    if events != [] {
      var init, last := events[..|events| - 1], events[|events| - 1];
      RunText(init, includeUsage);
      var before := Run(init, includeUsage);
      if Run(events, includeUsage).status.Reading? {
        HandleText(before.next, before.out, last.value, includeUsage);
      }
    }
  }

  // -------------------------------------------------------------------------
  // Text in the order of blocks

  /** No text block after position p has text. */
  predicate NoTextAfter(slots: seq<Slot>, p: int) {
    forall q :: p < q < |slots| && 0 <= q && slots[q].TextSlot? ==> slots[q].text == ""
  }

  /** A delta that says something is for a text block after which no block has text. */
  predicate DeltaInOrder(slots: seq<Slot>, e: Event) {
    e.TextDelta? && e.text != "" ==>
      forall p :: 0 <= p < |slots| && slots[p].TextSlot? && slots[p].index == e.index ==> NoTextAfter(slots, p)
  }

  predicate TextInOrder(events: seq<Option<Event>>) {
    events == [] ||
    (var init, last := events[..|events| - 1], events[|events| - 1];
     TextInOrder(init) && (last.Some? ==> DeltaInOrder(BuildAll(init).slots, last.value)))
  }

  /** One text block per index. */
  predicate UniqueTexts(slots: seq<Slot>) {
    forall p, q :: 0 <= p < q < |slots| && slots[p].TextSlot? && slots[q].TextSlot? ==> slots[p].index != slots[q].index
  }

  lemma BuildUnique(d: Described, e: Event)
    requires UniqueTexts(d.slots)
    ensures UniqueTexts(Build(d, e).slots)
  {}

  lemma {:induction false} TextsUnique(events: seq<Option<Event>>)
    ensures UniqueTexts(BuildAll(events).slots)
  {
    if events != [] {
      var init, last := events[..|events| - 1], events[|events| - 1];
      TextsUnique(init);
      if last.Some? { BuildUnique(BuildAll(init), last.value); }
    }
  }

  lemma NothingExtended(slots: seq<Slot>, i: int, text: string)
    requires text == "" || !HasText(slots, i)
    ensures ExtendText(slots, i, text) == slots
  {
    forall p | 0 <= p < |slots| ensures ExtendText(slots, i, text)[p] == slots[p] {
      if slots[p].TextSlot? && slots[p].index == i { assert slots[p].text + "" == slots[p].text; }
    }
  }

  /** Text added to the last block that has text is text added at the end. */
  lemma {:induction false} TextGrows(slots: seq<Slot>, p: nat, text: string)
    requires p < |slots| && slots[p].TextSlot? && UniqueTexts(slots) && NoTextAfter(slots, p)
    ensures TextOf(ExtendText(slots, slots[p].index, text)) == TextOf(slots) + text
  {
    var n, i := |slots| - 1, slots[p].index;
    var extended := ExtendText(slots, i, text);
    assert extended[..n] == ExtendText(slots[..n], i, text);
    if p == n {
      NothingExtended(slots[..n], i, text);
      assert TextOf(slots[..n]) + (slots[n].text + text) == (TextOf(slots[..n]) + slots[n].text) + text;
    } else {
      TextGrows(slots[..n], p, text);
      assert extended[n] == slots[n];
      if slots[n].TextSlot? {
        assert TextOf(slots[..n]) + "" == TextOf(slots[..n]) && TextOf(extended[..n]) + "" == TextOf(extended[..n]);
      }
    }
  }

  lemma BuildText(d: Described, e: Event)
    requires UniqueTexts(d.slots) && DeltaInOrder(d.slots, e)
    ensures TextOf(Build(d, e).slots) == TextOf(d.slots) + match e { case TextDelta(_, text) => text case _ => "" }
  {
    assert TextOf(d.slots) + "" == TextOf(d.slots);
    match e
    case ToolBlockStart(i, id, name) => Appended(d.slots, ToolSlot(i, id, name, ""));
    case ToolDelta(i, input) => ToolExtended(d.slots, i, input);
    case TextDelta(i, text) =>
      if !HasText(d.slots, i) {
        Appended(d.slots, TextSlot(i, text));
      } else if text == "" {
        NothingExtended(d.slots, i, text);
      } else {
        var p :| 0 <= p < |d.slots| && d.slots[p].TextSlot? && d.slots[p].index == i;
        TextGrows(d.slots, p, text);
      }
    case _ =>
  }

  /** Deltas in order give the response's text. */
  lemma {:induction false} OrderedText(events: seq<Option<Event>>)
    requires TextInOrder(events)
    ensures TextOf(BuildAll(events).slots) == DeltaText(events)
  {
    if events != [] {
      var init, last := events[..|events| - 1], events[|events| - 1];
      OrderedText(init);
      TextsUnique(init);
      if last.Some? { BuildText(BuildAll(init), last.value); }
    }
  }

  // -------------------------------------------------------------------------
  // The buffered translator on the described response

  predicate IsObject(codec: Codec, input: string) {
    codec.parse(input).Some? && codec.parse(input).value.Obj?
  }

  function FinalSlot(codec: Codec, slot: Slot): Json {
    match slot
    case TextSlot(_, text) => Obj(map["text" := Str(text)])
    case ToolSlot(_, id, name, input) =>
      Obj(map["toolUse" := Obj(map["toolUseId" := Str(id), "name" := Str(name),
                                   "input" := match codec.parse(input) { case Some(v) => v case None => Null }])])
  }

  function FinalContent(codec: Codec, slots: seq<Slot>): seq<Json> {
    seq(|slots|, p requires 0 <= p < |slots| => FinalSlot(codec, slots[p]))
  }

  /** The complete Converse response. */
  function FinalBody(codec: Codec, d: Described): Json {
    var message := Obj(map["role" := Str("assistant"), "content" := Arr(FinalContent(codec, d.slots))]);
    Obj(map["output" := Obj(map["message" := message]), "stopReason" := Str(d.stop),
            "usage" := match d.report { case Some((report, _)) => report case None => Null }])
  }

  /** Tool blocks have an identity. */
  predicate Named(slot: Slot) {
    slot.ToolSlot? ==> slot.id != "" && slot.name != ""
  }

  lemma FinalSlotTranslates(codec: Codec, slot: Slot)
    requires Named(slot)
    ensures TranslateBlock(codec, FinalSlot(codec, slot)) ==
      match slot
      case TextSlot(_, text) => Some(TextPart(text))
      case ToolSlot(_, id, name, input) =>
        if IsObject(codec, input) then Some(CallPart(ToolCall(id, name, codec.marshal(codec.parse(input).value)))) else None
  {
    var block := FinalSlot(codec, slot).fields;
    match slot
    case TextSlot(_, _) => assert ActiveFields(block) == {"text"};
    case ToolSlot(_, id, name, input) =>
      assert ActiveFields(block) == {"toolUse"} && "text" !in block;
      var tool := block["toolUse"].fields;
      assert StructString(tool, "toolUseId") == Some(id) && StructString(tool, "name") == Some(name);
  }

  /** The same calls, with the arguments equal as JSON values. */
  predicate SameCalls(codec: Codec, streamed: seq<ToolCall>, buffered: seq<ToolCall>) {
    && |streamed| == |buffered|
    && forall k :: 0 <= k < |streamed| ==>
         && streamed[k].id == buffered[k].id && streamed[k].name == buffered[k].name
         && codec.parse(streamed[k].arguments).Some?
         && buffered[k].arguments == codec.marshal(codec.parse(streamed[k].arguments).value)
  }

  predicate InputsAreObjects(codec: Codec, slots: seq<Slot>) {
    forall p :: 0 <= p < |slots| && slots[p].ToolSlot? ==> IsObject(codec, slots[p].input)
  }

  lemma {:induction false} CollectFinal(codec: Codec, slots: seq<Slot>)
    requires forall p :: 0 <= p < |slots| ==> Named(slots[p])
    ensures var c := Collect(codec, FinalContent(codec, slots));
      && (c.Some? <==> InputsAreObjects(codec, slots))
      && (c.Some? ==> c.value.text == TextOf(slots) && SameCalls(codec, CallsOf(slots), c.value.calls))
  {
    if slots != [] {
      var n := |slots| - 1;
      CollectFinal(codec, slots[..n]);
      FinalSlotTranslates(codec, slots[n]);
      assert FinalContent(codec, slots)[..n] == FinalContent(codec, slots[..n]);
      assert InputsAreObjects(codec, slots) <==>
        InputsAreObjects(codec, slots[..n]) && (slots[n].ToolSlot? ==> IsObject(codec, slots[n].input)) by {
        assert forall p :: 0 <= p < n ==> slots[..n][p] == slots[p];
      }
    }
  }

  // -------------------------------------------------------------------------
  // Refinement

  /** What decoding guarantees of an event. */
  predicate Valid(decodeUsage: Json -> Option<ChatUsage>, e: Event) {
    match e
    case ToolBlockStart(_, id, name) => id != "" && name != ""
    case Metadata(report, usage) => !report.Null? && decodeUsage(report) == Some(usage)
    case _ => true
  }

  lemma DecodeValid(decodeUsage: Json -> Option<ChatUsage>, m: StreamMessage)
    ensures Decode(decodeUsage, m).Some? ==> Valid(decodeUsage, Decode(decodeUsage, m).value)
  {}

  predicate AllValid(decodeUsage: Json -> Option<ChatUsage>, events: seq<Option<Event>>) {
    forall i :: 0 <= i < |events| && events[i].Some? ==> Valid(decodeUsage, events[i].value)
  }

  predicate DescribedWell(decodeUsage: Json -> Option<ChatUsage>, d: Described) {
    && (forall p :: 0 <= p < |d.slots| ==> Named(d.slots[p]))
    && (d.report.Some? ==> !d.report.value.0.Null? && decodeUsage(d.report.value.0) == Some(d.report.value.1))
  }

  lemma {:induction false} BuildWell(decodeUsage: Json -> Option<ChatUsage>, events: seq<Option<Event>>)
    requires AllValid(decodeUsage, events)
    ensures DescribedWell(decodeUsage, BuildAll(events))
  {
    if events != [] {
      var init := events[..|events| - 1];
      BuildWell(decodeUsage, init);
      var d, last := BuildAll(init), events[|events| - 1];
      if last.Some? {
        var d' := Build(d, last.value);
        assert Valid(decodeUsage, last.value);
        forall p | 0 <= p < |d'.slots| ensures Named(d'.slots[p]) {
          if p < |d.slots| { assert Named(d.slots[p]); }
        }
      }
    }
  }

  function NonEmpty(text: string): Option<string> {
    if text == "" then None else Some(text)
  }

  /** A described response is accepted exactly when it has usage and every tool input is an object. */
  lemma FinalTranslates(codec: Codec, decodeUsage: Json -> Option<ChatUsage>, d: Described)
    requires DescribedWell(decodeUsage, d) && FinishReason(d.stop).Some?
    ensures var r := Translate(codec, decodeUsage, FinalBody(codec, d));
      && (r.Some? <==> d.report.Some? && InputsAreObjects(codec, d.slots))
      && (r.Some? ==>
            && r.value.content == NonEmpty(TextOf(d.slots)) && SameCalls(codec, CallsOf(d.slots), r.value.calls)
            && Some(r.value.finish) == FinishReason(d.stop) && r.value.usage == d.report.value.1)
  {
    CollectFinal(codec, d.slots);
    var body := FinalBody(codec, d).fields;
    FinalFields(codec, d);
  }

  lemma FinalFields(codec: Codec, d: Described)
    ensures var body := FinalBody(codec, d).fields;
      && OutputContent(body) == Some(FinalContent(codec, d.slots))
      && StructString(body, "stopReason") == Some(d.stop)
      && "usage" in body && body["usage"] == match d.report { case Some((report, _)) => report case None => Null }
  {
    var body := FinalBody(codec, d).fields;
    var message := body["output"].fields["message"].fields;
    assert StructString(message, "role") == Some("assistant");
    assert message["content"] == Arr(FinalContent(codec, d.slots));
  }

  lemma DoneAssembled(r: Reply, includeUsage: bool)
    requires Succeeds(r, includeUsage)
    ensures Assemble(ProxyOutput(r, includeUsage)) == Assemble(r.out)
  {
    AssembleOne(r.out, Done);
  }

  /** What the client has assembled when a stream succeeds. */
  lemma SuccessLinks(events: seq<Option<Event>>, includeUsage: bool)
    requires Succeeds(Run(events, includeUsage), includeUsage)
    ensures var d, streamed := BuildAll(events), Assemble(ProxyOutput(Run(events, includeUsage), includeUsage));
      && streamed.text == DeltaText(events) && streamed.calls == CallsOf(d.slots)
      && streamed.finish.Some? && streamed.finish == FinishReason(d.stop)
      && Run(events, includeUsage).next.sawUsage == d.report.Some?
      && streamed.usage == if includeUsage && d.report.Some? then Some(d.report.value.1) else None
  {
    var r := Run(events, includeUsage);
    RunLinks(events, includeUsage);
    RunText(events, includeUsage);
    DoneAssembled(r, includeUsage);
  }

  /** Some event reports usage. */
  predicate ReportsUsage(events: seq<Option<Event>>) {
    exists k :: 0 <= k < |events| && events[k].Some? && events[k].value.Metadata?
  }

  lemma {:induction false} ReportBuilt(events: seq<Option<Event>>)
    ensures BuildAll(events).report.Some? <==> ReportsUsage(events)
  {
    if events != [] {
      var init := events[..|events| - 1];
      ReportBuilt(init);
      var last := events[|events| - 1];
      assert ReportsUsage(events) <==> ReportsUsage(init) || (last.Some? && last.value.Metadata?) by {
        assert forall k :: 0 <= k < |init| ==> events[k] == init[k];
      }
    }
  }

  /** On every successful stream the buffered translator accepts the described response if and only if
      usage was reported and every tool's input is a JSON object, neither of which the stream checks;
      and then it has the calls, finish reason and usage that the client assembled, and its text
      if no delta is for a text block before one that already has text. */
  ghost predicate Agrees(codec: Codec, decodeUsage: Json -> Option<ChatUsage>, events: seq<Option<Event>>, includeUsage: bool) {
    var d, streamed := BuildAll(events), Assemble(ProxyOutput(Run(events, includeUsage), includeUsage));
    var buffered := Translate(codec, decodeUsage, FinalBody(codec, d));
    && (buffered.Some? <==> ReportsUsage(events) && InputsAreObjects(codec, d.slots))
    && streamed.text == DeltaText(events)
    && (TextInOrder(events) ==> streamed.text == TextOf(d.slots))
    && (buffered.Some? ==>
          && buffered.value.content == NonEmpty(TextOf(d.slots))
          && SameCalls(codec, streamed.calls, buffered.value.calls)
          && streamed.finish == Some(buffered.value.finish)
          && streamed.usage == if includeUsage then Some(buffered.value.usage) else None)
  }

  lemma StreamAgainstBuffered(codec: Codec, decodeUsage: Json -> Option<ChatUsage>, messages: seq<StreamMessage>, includeUsage: bool)
    ensures var events := DecodeAll(BedrockDecoder(decodeUsage), messages);
      Succeeds(Run(events, includeUsage), includeUsage) ==> Agrees(codec, decodeUsage, events, includeUsage)
  {
    var events := DecodeAll(BedrockDecoder(decodeUsage), messages);
    forall i | 0 <= i < |events| && events[i].Some? ensures Valid(decodeUsage, events[i].value) {
      DecodeValid(decodeUsage, messages[i]);
    }
    EventsAgainstBuffered(codec, decodeUsage, events, includeUsage);
  }

  lemma EventsAgainstBuffered(codec: Codec, decodeUsage: Json -> Option<ChatUsage>, events: seq<Option<Event>>, includeUsage: bool)
    requires AllValid(decodeUsage, events)
    ensures Succeeds(Run(events, includeUsage), includeUsage) ==> Agrees(codec, decodeUsage, events, includeUsage)
  {
    if Succeeds(Run(events, includeUsage), includeUsage) {
      SuccessLinks(events, includeUsage);
      BuildWell(decodeUsage, events);
      FinalTranslates(codec, decodeUsage, BuildAll(events));
      ReportBuilt(events);
      if TextInOrder(events) { OrderedText(events); }
    }
  }
}
