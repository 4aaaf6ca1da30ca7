/**
 Text blocks that overlap: a family of successful runs on which the caller's
 text is not the text of the message the events describe.
 */
module AnthropicCrossing {
  import opened Options
  import opened JsonValues
  import opened ChatChunks
  import opened AnthropicUsage
  import opened AnthropicResponse
  import opened AnthropicStream
  import opened AnthropicRefinement

  /** Run and described message after some events. */
  datatype Progress = Progress(s: State, out: seq<Chunk>, b: Builder)

  ghost predicate Reached(codec: Codec, events: seq<Option<Event>>, p: Progress) {
    Run(codec, false, events) == Reply(p.s, p.out, true) && BuildAll(events) == p.b
  }

  lemma Advance(codec: Codec, events: seq<Option<Event>>, p: Progress, e: Event) returns (p': Progress)
    requires Reached(codec, events, p) && Handle(codec, false, p.s, e).ok
    ensures var r := Handle(codec, false, p.s, e);
      p' == Progress(r.next, p.out + r.out, Build(p.b, e)) && Reached(codec, events + [Some(e)], p')
  {
    assert (events + [Some(e)])[..|events|] == events;
    var r := Handle(codec, false, p.s, e);
    p' := Progress(r.next, p.out + r.out, Build(p.b, e));
  }

  /** Two text blocks, open at the same time, whose deltas cross. */
  function Opened(m: Object, u: Object, t: Object, first: string, second: string): seq<Option<Event>>
    requires Decodes(u)
  {
    Started(m, u, t) + [Some(TextDelta(1, second))] + [Some(TextDelta(0, first))]
  }

  function Crossing(m: Object, u: Object, t: Object, first: string, second: string): seq<Option<Event>>
    requires Decodes(u)
  {
    Opened(m, u, t, first, second)
    + [Some(BlockStop(0))] + [Some(BlockStop(1))]
    + [Some(MessageDelta(Some("end_turn"), u, Parse(u)))] + [Some(MessageStop)]
  }

  function Started(m: Object, u: Object, t: Object): seq<Option<Event>>
    requires Decodes(u)
  {
    [] + [Some(MessageStart(m, u, Parse(u)))] + [Some(BlockStart(0, OpensText, t))] + [Some(BlockStart(1, OpensText, t))]
  }

  function Prose(usage: TokenUsage, stopped: set<int>): State {
    INITIAL.(started := true, blocks := map[0 := TextBlock, 1 := TextBlock], stopped := stopped, usage := usage)
  }

  lemma StartedRun(codec: Codec, m: Object, u: Object, t: Object) returns (p: Progress)
    requires Decodes(u)
    ensures Reached(codec, Started(m, u, t), p)
    ensures p.s == Prose(Parse(u), {}) && p.out == [Role]
    ensures p.b.blocks == [Block(0, OpensText, t, ""), Block(1, OpensText, t, "")] && p.b.position == map[0 := 0, 1 := 1]
  {
    FirstReport(u);
    p := Progress(INITIAL, [], NOTHING);
    p := Advance(codec, [], p, MessageStart(m, u, Parse(u)));
    var es := [] + [Some(MessageStart(m, u, Parse(u)))];
    p := Advance(codec, es, p, BlockStart(0, OpensText, t));
    es := es + [Some(BlockStart(0, OpensText, t))];
    p := Advance(codec, es, p, BlockStart(1, OpensText, t));
  }

  lemma OpenedRun(codec: Codec, m: Object, u: Object, t: Object, first: string, second: string) returns (p: Progress)
    requires Decodes(u)
    ensures Reached(codec, Opened(m, u, t, first, second), p)
    ensures p.s == Prose(Parse(u), {}) && p.out == [Role] + [Content(second)] + [Content(first)]
    ensures p.b.blocks == [Block(0, OpensText, t, first), Block(1, OpensText, t, second)] && p.b.position == map[0 := 0, 1 := 1]
  {
    assert "" + first == first && "" + second == second;
    p := StartedRun(codec, m, u, t);
    var es := Started(m, u, t);
    p := Advance(codec, es, p, TextDelta(1, second));
    es := es + [Some(TextDelta(1, second))];
    p := Advance(codec, es, p, TextDelta(0, first));
  }

  lemma StoppedRun(codec: Codec, m: Object, u: Object, t: Object, first: string, second: string) returns (p: Progress)
    requires Decodes(u)
    ensures Reached(codec, Opened(m, u, t, first, second) + [Some(BlockStop(0))] + [Some(BlockStop(1))], p)
    ensures p.s == Prose(Parse(u), {0, 1}) && p.out == [Role] + [Content(second)] + [Content(first)]
    ensures p.b.blocks == [Block(0, OpensText, t, first), Block(1, OpensText, t, second)]
  {
    p := OpenedRun(codec, m, u, t, first, second);
    var es := Opened(m, u, t, first, second);
    p := Advance(codec, es, p, BlockStop(0));
    assert {} + {0} == {0} && p.s == Prose(Parse(u), {0});
    es := es + [Some(BlockStop(0))];
    p := Advance(codec, es, p, BlockStop(1));
    assert {0} + {1} == {0, 1};
  }

  lemma ClosedRun(codec: Codec, m: Object, u: Object, t: Object, first: string, second: string) returns (p: Progress)
    requires Decodes(u) && Parse(u).completeness.Complete?
    ensures Reached(codec, Crossing(m, u, t, first, second), p) && ProxyOutcome(Reply(p.s, p.out, true)).Success?
    ensures p.out == [Role] + [Content(second)] + [Content(first)] + [Finish("stop")] + [Done]
    ensures p.b.blocks == [Block(0, OpensText, t, first), Block(1, OpensText, t, second)]
  {
    assert FinishReason("end_turn") == Some("stop") && Consistent("stop", 0);
    p := StoppedRun(codec, m, u, t, first, second);
    var es := Opened(m, u, t, first, second) + [Some(BlockStop(0))] + [Some(BlockStop(1))];
    p := Advance(codec, es, p, MessageDelta(Some("end_turn"), u, Parse(u)));
    es := es + [Some(MessageDelta(Some("end_turn"), u, Parse(u)))];
    p := Advance(codec, es, p, MessageStop);
  }

  lemma CrossingValid(m: Object, u: Object, t: Object, first: string, second: string)
    requires Decodes(u) && OpensMessage(m) && Opens(t, OpensText)
    ensures AllValid(Crossing(m, u, t, first, second))
  {
    var events := Crossing(m, u, t, first, second);
    assert |events| == 9;
    forall i | 0 <= i < 9 ensures events[i].Some? && Valid(events[i].value) {
      assert events[0] == Some(MessageStart(m, u, Parse(u))) && events[1] == Some(BlockStart(0, OpensText, t));
      assert events[2] == Some(BlockStart(1, OpensText, t)) && events[3] == Some(TextDelta(1, second));
      assert events[4] == Some(TextDelta(0, first)) && events[5] == Some(BlockStop(0)) && events[6] == Some(BlockStop(1));
      assert events[7] == Some(MessageDelta(Some("end_turn"), u, Parse(u))) && events[8] == Some(MessageStop);
    }
  }

  /** The caller gets the deltas in the order they came, the buffered translator returns them in
      block order. */
  lemma CrossingDeltasDiffer(codec: Codec, m: Object, u: Object, t: Object, first: string, second: string)
    requires Decodes(u) && Parse(u).completeness.Complete? && OpensMessage(m) && Opens(t, OpensText)
    ensures AllValid(Crossing(m, u, t, first, second))
    ensures var run := Run(codec, false, Crossing(m, u, t, first, second));
      && ProxyOutcome(run).Success?
      && Assemble(run.out).text == second + first
    ensures var buffered := Translate(codec, FinalMessage(codec, BuildAll(Crossing(m, u, t, first, second))));
      buffered.Some? && buffered.value.content == NonEmpty(first + second)
  {
    CrossingValid(m, u, t, first, second);
    var p := ClosedRun(codec, m, u, t, first, second);
    assert TextUpTo(p.b.blocks, 1) == TextUpTo(p.b.blocks, 0) + first;
    assert "" + first == first;
    RefinesBuffered(codec, false, Crossing(m, u, t, first, second));
    CrossingText(second, first);
  }

  lemma CrossingText(second: string, first: string)
    ensures Assemble([Role] + [Content(second)] + [Content(first)] + [Finish("stop")] + [Done]).text == second + first
  {
    var body := [Role] + [Content(second)] + [Content(first)];
    AssembleOne(body + [Finish("stop")], Done);
    AssembleOne(body, Finish("stop"));
    AssembleOne([Role] + [Content(second)], Content(first));
    AssembleOne([Role], Content(second));
    AssembleOne([], Role);
    assert [] + [Role] == [Role] && "" + second == second;
  }
}
