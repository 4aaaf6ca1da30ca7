/** Bedrock streams on which the two translators differ. */
module BedrockCrossing {
  import opened Options
  import opened JsonValues
  import opened ChatChunks
  import opened BedrockStream
  import opened BedrockResponse
  import opened BedrockRefinement

  /** What a run over some events has led to. */
  datatype Progress = Progress(s: State, d: Described, text: string)

  ghost predicate Reached(events: seq<Option<Event>>, includeUsage: bool, p: Progress) {
    var r := Run(events, includeUsage);
    r.status.Reading? && r.next == p.s && BuildAll(events) == p.d && DeltaText(events) == p.text
  }

  lemma Advance(events: seq<Option<Event>>, includeUsage: bool, p: Progress, e: Event) returns (p': Progress)
    requires Reached(events, includeUsage, p) && Handle(p.s, e, includeUsage).status.Reading?
    ensures Reached(events + [Some(e)], includeUsage, p')
    ensures p' == Progress(Handle(p.s, e, includeUsage).next, Build(p.d, e), p.text + if e.TextDelta? then e.text else "")
  {
    var more := events + [Some(e)];
    assert more[..|more| - 1] == events && more[|more| - 1] == Some(e);
    p' := Progress(Handle(p.s, e, includeUsage).next, Build(p.d, e), p.text + if e.TextDelta? then e.text else "");
  }

  // -------------------------------------------------------------------------
  // Crossing deltas

  function Opened(first: string, second: string, third: string): seq<Option<Event>> {
    [] + [Some(MessageStart)] + [Some(TextDelta(0, first))] + [Some(TextDelta(1, second))] + [Some(TextDelta(0, third))]
  }

  /** Two text blocks, the first of which goes on after the second has begun. */
  function Crossing(first: string, second: string, third: string, report: Json, usage: ChatUsage): seq<Option<Event>> {
    Opened(first, second, third) + [Some(MessageStop("end_turn"))] + [Some(Metadata(report, usage))]
  }

  lemma OpenedRun(first: string, second: string, third: string, includeUsage: bool) returns (p: Progress)
    ensures Reached(Opened(first, second, third), includeUsage, p)
    ensures p.s == INITIAL.(started := true)
    ensures p.d == Described([TextSlot(0, first + third), TextSlot(1, second)], "", None)
    ensures p.text == first + second + third
  {
    p := Progress(INITIAL, Described([], "", None), "");
    var events := [];
    p := Advance(events, includeUsage, p, MessageStart);
    events := [] + [Some(MessageStart)];
    p := Advance(events, includeUsage, p, TextDelta(0, first));
    assert "" + "" + first == first && p.d.slots == [TextSlot(0, first)];
    events := events + [Some(TextDelta(0, first))];
    p := Advance(events, includeUsage, p, TextDelta(1, second));
    assert p.d.slots == [TextSlot(0, first), TextSlot(1, second)];
    events := events + [Some(TextDelta(1, second))];
    p := Advance(events, includeUsage, p, TextDelta(0, third));
    assert HasText([TextSlot(0, first), TextSlot(1, second)], 0) by {
      assert [TextSlot(0, first), TextSlot(1, second)][0].TextSlot?;
    }
    assert p.d.slots == [TextSlot(0, first + third), TextSlot(1, second)];
  }

  lemma CrossingRun(first: string, second: string, third: string, report: Json, usage: ChatUsage, includeUsage: bool)
    ensures var events := Crossing(first, second, third, report, usage);
      && Succeeds(Run(events, includeUsage), includeUsage)
      && BuildAll(events) == Described([TextSlot(0, first + third), TextSlot(1, second)], "end_turn", Some((report, usage)))
      && DeltaText(events) == first + second + third
  {
    var p := OpenedRun(first, second, third, includeUsage);
    var events := Opened(first, second, third);
    p := Advance(events, includeUsage, p, MessageStop("end_turn"));
    events := events + [Some(MessageStop("end_turn"))];
    p := Advance(events, includeUsage, p, Metadata(report, usage));
    assert p.text == first + second + third;
  }

  lemma CrossingValid(decodeUsage: Json -> Option<ChatUsage>, first: string, second: string, third: string, report: Json, usage: ChatUsage)
    requires !report.Null? && decodeUsage(report) == Some(usage)
    ensures AllValid(decodeUsage, Crossing(first, second, third, report, usage))
  {
    var events := Crossing(first, second, third, report, usage);
    assert |events| == 6 && events[5] == Some(Metadata(report, usage));
  }

  /** The client reads the deltas as they came, the buffered translator returns them block by block. */
  lemma CrossingDeltasDiffer(codec: Codec, decodeUsage: Json -> Option<ChatUsage>, first: string, second: string, third: string,
                             report: Json, usage: ChatUsage, includeUsage: bool)
    requires !report.Null? && decodeUsage(report) == Some(usage)
    ensures var events := Crossing(first, second, third, report, usage);
      && AllValid(decodeUsage, events) && Succeeds(Run(events, includeUsage), includeUsage)
      && Assemble(ProxyOutput(Run(events, includeUsage), includeUsage)).text == first + second + third
      && var buffered := Translate(codec, decodeUsage, FinalBody(codec, BuildAll(events)));
         buffered.Some? && buffered.value.content == NonEmpty(first + third + second)
    ensures second + third != third + second ==> NonEmpty(first + second + third) != NonEmpty(first + third + second)
  {
    assert (first + second + third)[|first|..] == second + third && (first + third + second)[|first|..] == third + second;
    var events := Crossing(first, second, third, report, usage);
    CrossingRun(first, second, third, report, usage, includeUsage);
    CrossingValid(decodeUsage, first, second, third, report, usage);
    EventsAgainstBuffered(codec, decodeUsage, events, includeUsage);
    ReportBuilt(events);
    var slots := BuildAll(events).slots;
    assert slots[..1] == [TextSlot(0, first + third)] && slots[..1][..0] == [];
    assert TextOf(slots[..1]) == "" + (first + third) && "" + (first + third) == first + third;
  }

  // -------------------------------------------------------------------------
  // Streams whose response is rejected

  const UNREPORTED: seq<Option<Event>> := [] + [Some(MessageStart)] + [Some(MessageStop("end_turn"))]

  /** A stream without usage succeeds if usage was not asked for; the response is rejected. */
  lemma UsageCanBeMissing(codec: Codec, decodeUsage: Json -> Option<ChatUsage>)
    ensures AllValid(decodeUsage, UNREPORTED) && Succeeds(Run(UNREPORTED, false), false)
    ensures Translate(codec, decodeUsage, FinalBody(codec, BuildAll(UNREPORTED))).None?
  {
    var p := Progress(INITIAL, Described([], "", None), "");
    p := Advance([], false, p, MessageStart);
    p := Advance([] + [Some(MessageStart)], false, p, MessageStop("end_turn"));
    EventsAgainstBuffered(codec, decodeUsage, UNREPORTED, false);
    ReportBuilt(UNREPORTED);
  }

  /** A tool is announced and gets no input. */
  function Inputless(id: string, name: string, report: Json, usage: ChatUsage): seq<Option<Event>> {
    [] + [Some(MessageStart)] + [Some(ToolBlockStart(0, id, name))] + [Some(MessageStop("tool_use"))] + [Some(Metadata(report, usage))]
  }

  lemma InputlessRun(id: string, name: string, report: Json, usage: ChatUsage, includeUsage: bool)
    ensures var events := Inputless(id, name, report, usage);
      && Succeeds(Run(events, includeUsage), includeUsage)
      && BuildAll(events) == Described([ToolSlot(0, id, name, "")], "tool_use", Some((report, usage)))
  {
    var p := Progress(INITIAL, Described([], "", None), "");
    var events := [];
    p := Advance(events, includeUsage, p, MessageStart);
    events := events + [Some(MessageStart)];
    p := Advance(events, includeUsage, p, ToolBlockStart(0, id, name));
    assert p.d.slots == [ToolSlot(0, id, name, "")];
    events := events + [Some(ToolBlockStart(0, id, name))];
    p := Advance(events, includeUsage, p, MessageStop("tool_use"));
    events := events + [Some(MessageStop("tool_use"))];
    p := Advance(events, includeUsage, p, Metadata(report, usage));
  }

  /** A tool without input succeeds in a stream; the response is rejected, the empty text being no object. */
  lemma InputCanBeMissing(codec: Codec, decodeUsage: Json -> Option<ChatUsage>, id: string, name: string,
                          report: Json, usage: ChatUsage, includeUsage: bool)
    requires id != "" && name != "" && !report.Null? && decodeUsage(report) == Some(usage) && codec.parse("").None?
    ensures var events := Inputless(id, name, report, usage);
      && AllValid(decodeUsage, events) && Succeeds(Run(events, includeUsage), includeUsage)
      && Translate(codec, decodeUsage, FinalBody(codec, BuildAll(events))).None?
  {
    var events := Inputless(id, name, report, usage);
    InputlessRun(id, name, report, usage, includeUsage);
    EventsAgainstBuffered(codec, decodeUsage, events, includeUsage);
    assert BuildAll(events).slots[0].ToolSlot?;
  }
}
