/**
 The stream translator refines the buffered one: the message a caller assembles
 from the chunks is what the buffered translator returns for the message that
 the same events describe.
 */
module AnthropicRefinement {
  import opened Options
  import opened JsonValues
  import opened ChatChunks
  import opened AnthropicUsage
  import opened AnthropicResponse
  import opened AnthropicStream

  // -------------------------------------------------------------------------
  // The message that a sequence of events describes

  /** A content block: its start, and the deltas received so far. */
  datatype Block = Block(index: int, opening: Opening, start: Object, data: string)

  datatype Builder = Builder(
    message: Object, usage: Object, stop: string, blocks: seq<Block>, position: map<int, nat>)
  {
    predicate Knows(i: int) { i in position && position[i] < |blocks| }
  }

  const NOTHING := Builder(map[], map[], "", [], map[])

  function Extended(b: Builder, i: int, data: string): Builder
    requires b.Knows(i)
  {
    var p := b.position[i];
    b.(blocks := b.blocks[p := b.blocks[p].(data := b.blocks[p].data + data)])
  }

  function Build(b: Builder, e: Event): Builder {
    match e
    case MessageStart(m, u, _) => b.(message := m, usage := u)
    case BlockStart(i, opening, start) =>
      b.(blocks := b.blocks + [Block(i, opening, start, "")], position := b.position[i := |b.blocks|])
    case TextDelta(i, text) => if b.Knows(i) then Extended(b, i, text) else b
    case JsonDelta(i, partial) => if b.Knows(i) then Extended(b, i, partial) else b
    case BlockStop(i) =>
      // a tool without input deltas has the empty object as input
      if b.Knows(i) && !b.blocks[b.position[i]].opening.OpensText? && b.blocks[b.position[i]].data == ""
      then Extended(b, i, "{}") else b
    case MessageDelta(stop, u, _) =>
      b.(usage := Overlay(b.usage, u), stop := if stop.Some? then stop.value else b.stop)
    case _ => b
  }

  function BuildAll(events: seq<Option<Event>>): Builder {
    if events == [] then NOTHING
    else
      var before := BuildAll(events[..|events| - 1]);
      match events[|events| - 1]
      case Some(e) => Build(before, e)
      case None => before
  }

  function FinalBlock(codec: Codec, b: Block): Json {
    if b.opening.OpensText? then Obj(b.start["text" := Str(b.data)])
    else Obj(b.start["input" := match codec.parse(b.data) { case Some(v) => v case None => Null }])
  }

  function FinalContent(codec: Codec, blocks: seq<Block>): seq<Json> {
    seq(|blocks|, p requires 0 <= p < |blocks| => FinalBlock(codec, blocks[p]))
  }

  /** The complete Anthropic message. */
  function FinalMessage(codec: Codec, b: Builder): Json {
    Obj(b.message["content" := Arr(FinalContent(codec, b.blocks))]
                 ["stop_reason" := Str(b.stop)]["usage" := Obj(b.usage)])
  }

  // -------------------------------------------------------------------------
  // Text and calls of the first n blocks

  function TextUpTo(blocks: seq<Block>, n: nat): string
    requires n <= |blocks|
  {
    if n == 0 then ""
    else TextUpTo(blocks, n - 1) + if blocks[n - 1].opening.OpensText? then blocks[n - 1].data else ""
  }

  function ToolsUpTo(blocks: seq<Block>, n: nat): nat
    requires n <= |blocks|
  {
    if n == 0 then 0 else ToolsUpTo(blocks, n - 1) + if blocks[n - 1].opening.OpensText? then 0 else 1
  }

  function CallOf(b: Block): ToolCall {
    match b.opening
    case OpensTool(id, name) => ToolCall(id, name, b.data)
    case OpensText => ToolCall("", "", b.data)
  }

  function CallsUpTo(blocks: seq<Block>, n: nat): (calls: seq<ToolCall>)
    requires n <= |blocks|
    ensures |calls| == ToolsUpTo(blocks, n)
  {
    if n == 0 then []
    else CallsUpTo(blocks, n - 1) + if blocks[n - 1].opening.OpensText? then [] else [CallOf(blocks[n - 1])]
  }

  lemma {:induction false} Appended(blocks: seq<Block>, b: Block, n: nat)
    requires n <= |blocks|
    ensures TextUpTo(blocks + [b], n) == TextUpTo(blocks, n)
    ensures ToolsUpTo(blocks + [b], n) == ToolsUpTo(blocks, n)
    ensures CallsUpTo(blocks + [b], n) == CallsUpTo(blocks, n)
  {
    if n > 0 { Appended(blocks, b, n - 1); }
  }

  /** Changing the data of block p changes no count and at most the call of p. */
  lemma {:induction false} CallsUpdated(blocks: seq<Block>, p: nat, data: string, n: nat)
    requires p < |blocks| && n <= |blocks|
    ensures var blocks' := blocks[p := blocks[p].(data := data)];
      && ToolsUpTo(blocks', n) == ToolsUpTo(blocks, n)
      && (p < n && !blocks[p].opening.OpensText? ==> ToolsUpTo(blocks, p) < ToolsUpTo(blocks, n))
      && CallsUpTo(blocks', n) ==
           if p < n && !blocks[p].opening.OpensText?
           then CallsUpTo(blocks, n)[ToolsUpTo(blocks, p) := CallOf(blocks'[p])]
           else CallsUpTo(blocks, n)
  {
    if n > 0 { CallsUpdated(blocks, p, data, n - 1); }
  }

  /** Changing a tool block leaves the text; extending the last text block that has text extends it. */
  lemma {:induction false} TextUpdated(blocks: seq<Block>, p: nat, data: string, n: nat)
    requires p < |blocks| && n <= |blocks|
    requires blocks[p].opening.OpensText? ==>
      forall q :: p < q < n && blocks[q].opening.OpensText? ==> blocks[q].data == ""
    ensures TextUpTo(blocks[p := blocks[p].(data := blocks[p].data + data)], n)
            == TextUpTo(blocks, n) + if p < n && blocks[p].opening.OpensText? then data else ""
  {
    if n > 0 {
      TextUpdated(blocks, p, data, n - 1);
      if p == n - 1 {
        TextPrefix(blocks, p, data, n - 1);
      } else if p < n - 1 && blocks[p].opening.OpensText? {
        assert TextUpTo(blocks, n) == TextUpTo(blocks, n - 1) + "";
      }
    }
  }

  lemma {:induction false} TextPrefix(blocks: seq<Block>, p: nat, data: string, n: nat)
    requires n <= p < |blocks|
    ensures TextUpTo(blocks[p := blocks[p].(data := blocks[p].data + data)], n) == TextUpTo(blocks, n)
  {
    if n > 0 { TextPrefix(blocks, p, data, n - 1); }
  }

  // -------------------------------------------------------------------------
  // What links the stream state, the chunks and the described message

  /** Block p of the message is the stream's block of the same index. */
  ghost predicate BlockLinked(codec: Codec, s: State, b: Builder, p: nat)
    requires p < |b.blocks|
  {
    var k := b.blocks[p];
    && k.index in b.position && b.position[k.index] == p
    && k.index in s.blocks && s.blocks[k.index] == Kind(k.opening)
    && (k.opening.OpensTool? ==>
        && k.index in s.toolIndexes && s.toolIndexes[k.index] == ToolsUpTo(b.blocks, p)
        && k.index in s.toolJson
        && if k.index in s.stopped
           then codec.parse(k.data).Some? && codec.parse(k.data).value.Obj?
           else s.toolJson[k.index] == k.data)
  }

  ghost predicate BlocksLinked(codec: Codec, s: State, b: Builder) {
    && b.position.Keys == s.blocks.Keys && s.stopped <= s.blocks.Keys
    && (forall i :: i in b.position ==> b.Knows(i) && b.blocks[b.position[i]].index == i)
    && (forall p :: 0 <= p < |b.blocks| ==> BlockLinked(codec, s, b, p))
    && ToolsUpTo(b.blocks, |b.blocks|) == s.nextTool
  }

  /** The caller's text is the message's when the text deltas came in order. */
  ghost predicate ContentLinked(b: Builder, out: seq<Chunk>, ordered: bool) {
    && (ordered ==> Assemble(out).text == TextUpTo(b.blocks, |b.blocks|))
    && Assemble(out).calls == CallsUpTo(b.blocks, |b.blocks|)
  }

  /** The described message and usage are valid, and decode to the stream's usage. */
  ghost predicate MessageLinked(s: State, b: Builder) {
    if s.started
    then OpensMessage(b.message) && Decodes(b.usage) && Parse(b.usage) == s.usage
    else s.usage == MISSING
  }

  predicate BlocksOpened(b: Builder) {
    forall p :: 0 <= p < |b.blocks| ==> Opens(b.blocks[p].start, b.blocks[p].opening)
  }

  ghost predicate EnvelopeLinked(s: State, b: Builder, out: seq<Chunk>, includeUsage: bool) {
    && (if s.finished
        then FinishReason(b.stop) == Assemble(out).finish && FinishReason(b.stop).Some?
             && Consistent(FinishReason(b.stop).value, s.nextTool) && AllStopped(s)
        else Assemble(out).finish.None?)
    && Assemble(out).usage == if s.terminal && includeUsage then Some(ToChat(s.usage)) else None
  }

  ghost predicate Linked(
    codec: Codec, includeUsage: bool, s: State, b: Builder, out: seq<Chunk>, ordered: bool)
  {
    && BlocksLinked(codec, s, b)
    && ContentLinked(b, out, ordered)
    && EnvelopeLinked(s, b, out, includeUsage)
  }

  /** No text block that started after this delta's has text yet (or the delta is empty). */
  predicate DeltaInOrder(b: Builder, e: Event) {
    e.TextDelta? && e.text != "" ==> b.Knows(e.index) && NoTextAfter(b, b.position[e.index])
  }

  predicate NoTextAfter(b: Builder, p: nat) {
    forall q :: p < q < |b.blocks| && b.blocks[q].opening.OpensText? ==> b.blocks[q].data == ""
  }

  predicate TextInOrder(events: seq<Option<Event>>) {
    events == [] ||
    (var init := events[..|events| - 1];
     && TextInOrder(init)
     && match events[|events| - 1]
        case Some(e) => DeltaInOrder(BuildAll(init), e)
        case None => true)
  }

  lemma BlockStartLinks(codec: Codec, s: State, b: Builder, i: int, opening: Opening, start: Object)
    requires BlocksLinked(codec, s, b) && OnBlockStart(s, i, opening).ok
    ensures BlocksLinked(codec, OnBlockStart(s, i, opening).next, Build(b, BlockStart(i, opening, start)))
  {
    var s', b' := OnBlockStart(s, i, opening).next, Build(b, BlockStart(i, opening, start));
    var n := |b.blocks|;
    forall p | 0 <= p < |b'.blocks| ensures BlockLinked(codec, s', b', p) {
      Appended(b.blocks, b'.blocks[n], p);
      if p < n { assert BlockLinked(codec, s, b, p); }
    }
    Appended(b.blocks, b'.blocks[n], n);
  }

  lemma BlockStartContent(s: State, b: Builder, out: seq<Chunk>, ordered: bool,
                          i: int, opening: Opening, start: Object)
    requires ContentLinked(b, out, ordered) && OnBlockStart(s, i, opening).ok
    ensures ContentLinked(Build(b, BlockStart(i, opening, start)), out + OnBlockStart(s, i, opening).out, ordered)
  {
    var r, b' := OnBlockStart(s, i, opening), Build(b, BlockStart(i, opening, start));
    Appended(b.blocks, b'.blocks[|b.blocks|], |b.blocks|);
    if opening.OpensText? {
      assert out + r.out == out;
    } else {
      AssembleOne(out, r.out[0]);
    }
  }

  /** Extending the data of block p keeps every other block linked. */
  lemma ExtendedLinks(codec: Codec, s: State, s': State, b: Builder, i: int, data: string)
    requires BlocksLinked(codec, s, b) && b.Knows(i)
    requires s'.blocks == s.blocks && s'.nextTool == s.nextTool && s'.toolIndexes == s.toolIndexes
    requires s'.toolJson.Keys == s.toolJson.Keys
    requires forall j :: j in s.toolJson && j != i ==> s'.toolJson[j] == s.toolJson[j]
    requires s'.stopped == s.stopped || s'.stopped == s.stopped + {i}
    requires BlockLinked(codec, s', Extended(b, i, data), b.position[i])
    ensures BlocksLinked(codec, s', Extended(b, i, data))
  {
    var b', at := Extended(b, i, data), b.position[i];
    var data' := b'.blocks[at].data;
    forall p | 0 <= p < |b'.blocks| ensures BlockLinked(codec, s', b', p) {
      CallsUpdated(b.blocks, at, data', p);
      assert BlockLinked(codec, s, b, p);
    }
    CallsUpdated(b.blocks, at, data', |b.blocks|);
  }

  lemma TextDeltaLinks(codec: Codec, s: State, b: Builder, i: int, text: string)
    requires BlocksLinked(codec, s, b) && OnTextDelta(s, i, text).ok
    ensures BlocksLinked(codec, s, Build(b, TextDelta(i, text)))
  {
    assert b.Knows(i) && BlockLinked(codec, s, b, b.position[i]);
    ExtendedLinks(codec, s, s, b, i, text);
  }

  lemma TextExtended(b: Builder, out: seq<Chunk>, ordered: bool, i: int, text: string)
    requires ContentLinked(b, out, ordered) && b.Knows(i) && b.blocks[b.position[i]].opening.OpensText?
    requires ordered ==> DeltaInOrder(b, TextDelta(i, text))
    ensures ContentLinked(Extended(b, i, text), out + [Content(text)], ordered)
  {
    var p := b.position[i];
    AssembleOne(out, Content(text));
    CallsUpdated(b.blocks, p, b.blocks[p].data + text, |b.blocks|);
    if text == "" {
      assert b.blocks[p].data + text == b.blocks[p].data;
      assert Extended(b, i, text).blocks == b.blocks;
      assert Assemble(out).text + text == Assemble(out).text;
    } else if ordered {
      TextUpdated(b.blocks, p, text, |b.blocks|);
    }
  }

  lemma TextDeltaContent(codec: Codec, s: State, b: Builder, out: seq<Chunk>, ordered: bool, i: int, text: string)
    requires BlocksLinked(codec, s, b) && ContentLinked(b, out, ordered)
    requires OnTextDelta(s, i, text).ok && (ordered ==> DeltaInOrder(b, TextDelta(i, text)))
    ensures ContentLinked(Build(b, TextDelta(i, text)), out + [Content(text)], ordered)
  {
    assert b.Knows(i) && BlockLinked(codec, s, b, b.position[i]);
    TextExtended(b, out, ordered, i, text);
  }

  lemma JsonDeltaLinks(codec: Codec, s: State, b: Builder, i: int, partial: string)
    requires BlocksLinked(codec, s, b) && OnJsonDelta(s, i, partial).ok
    ensures BlocksLinked(codec, OnJsonDelta(s, i, partial).next, Build(b, JsonDelta(i, partial)))
  {
    var s', p := OnJsonDelta(s, i, partial).next, b.position[i];
    assert b.Knows(i) && BlockLinked(codec, s, b, p);
    CallsUpdated(b.blocks, p, b.blocks[p].data + partial, p);
    ExtendedLinks(codec, s, s', b, i, partial);
  }

  /** Extending the data of tool block i is one more arguments chunk for its call. */
  lemma ToolContent(codec: Codec, s: State, b: Builder, out: seq<Chunk>, ordered: bool, i: int, data: string)
    requires BlocksLinked(codec, s, b) && ContentLinked(b, out, ordered)
    requires b.Knows(i) && i in s.toolIndexes && !b.blocks[b.position[i]].opening.OpensText?
    ensures ContentLinked(Extended(b, i, data), out + [ToolArguments(s.toolIndexes[i], data)], ordered)
  {
    var p := b.position[i];
    assert BlockLinked(codec, s, b, p);
    AssembleOne(out, ToolArguments(s.toolIndexes[i], data));
    CallsUpdated(b.blocks, p, b.blocks[p].data + data, |b.blocks|);
    TextUpdated(b.blocks, p, data, |b.blocks|);
    CallAt(b.blocks, p, |b.blocks|);
  }

  lemma {:induction false} CallAt(blocks: seq<Block>, p: nat, n: nat)
    requires p < n <= |blocks| && !blocks[p].opening.OpensText?
    ensures ToolsUpTo(blocks, p) < ToolsUpTo(blocks, n)
    ensures CallsUpTo(blocks, n)[ToolsUpTo(blocks, p)] == CallOf(blocks[p])
  {
    if p < n - 1 { CallAt(blocks, p, n - 1); }
  }

  lemma BlockStopLinks(codec: Codec, s: State, b: Builder, i: int)
    requires BlocksLinked(codec, s, b) && OnBlockStop(codec, s, i).ok
    ensures BlocksLinked(codec, OnBlockStop(codec, s, i).next, Build(b, BlockStop(i)))
  {
    var s', p := OnBlockStop(codec, s, i).next, b.position[i];
    assert b.Knows(i) && BlockLinked(codec, s, b, p);
    if b.blocks[p].opening.OpensTool? && b.blocks[p].data == "" {
      assert "" + "{}" == "{}";
      CallsUpdated(b.blocks, p, "{}", p);
      ExtendedLinks(codec, s, s', b, i, "{}");
    } else {
      StoppedLinks(codec, s, b, i);
    }
  }

  /** Stopping a block that already has all its data. */
  lemma StoppedLinks(codec: Codec, s: State, b: Builder, i: int)
    requires BlocksLinked(codec, s, b) && b.Knows(i)
    requires var k := b.blocks[b.position[i]];
      k.opening.OpensTool? ==> codec.parse(k.data).Some? && codec.parse(k.data).value.Obj?
    ensures BlocksLinked(codec, s.(stopped := s.stopped + {i}), b)
  {
    forall q | 0 <= q < |b.blocks| ensures BlockLinked(codec, s.(stopped := s.stopped + {i}), b, q) {
      assert BlockLinked(codec, s, b, q);
    }
  }

  lemma BlockStopContent(codec: Codec, s: State, b: Builder, out: seq<Chunk>, ordered: bool, i: int)
    requires BlocksLinked(codec, s, b) && ContentLinked(b, out, ordered) && OnBlockStop(codec, s, i).ok
    ensures ContentLinked(Build(b, BlockStop(i)), out + OnBlockStop(codec, s, i).out, ordered)
  {
    assert b.Knows(i) && BlockLinked(codec, s, b, b.position[i]);
    if OnBlockStop(codec, s, i).out == [] {
      assert out + [] == out;
    } else {
      ToolContent(codec, s, b, out, ordered, i, "{}");
    }
  }

  /** Chunks other than finish and usage leave the caller's envelope alone. */
  lemma ContentKeepsEnvelope(out: seq<Chunk>, c: Chunk)
    requires !c.Finish? && !c.Usage?
    ensures Assemble(out + [c]).finish == Assemble(out).finish
    ensures Assemble(out + [c]).usage == Assemble(out).usage
  {
    AssembleOne(out, c);
  }

  lemma MessageDeltaEnvelope(s: State, b: Builder, out: seq<Chunk>, e: Event, includeUsage: bool)
    requires EnvelopeLinked(s, b, out, includeUsage) && !s.terminal
    requires e.MessageDelta? && OnMessageDelta(s, e.stop, e.usage).ok
    ensures var r := OnMessageDelta(s, e.stop, e.usage);
      EnvelopeLinked(r.next, Build(b, e), out + r.out, includeUsage)
  {
    var r := OnMessageDelta(s, e.stop, e.usage);
    if r.out == [] {
      assert out + r.out == out;
    } else {
      AssembleOne(out, r.out[0]);
    }
  }

  lemma MessageStopEnvelope(s: State, b: Builder, out: seq<Chunk>, includeUsage: bool)
    requires EnvelopeLinked(s, b, out, includeUsage) && !s.terminal && OnMessageStop(s, includeUsage).ok
    ensures var r := OnMessageStop(s, includeUsage); EnvelopeLinked(r.next, b, out + r.out, includeUsage)
  {
    if includeUsage {
      var usage := Usage(ToChat(s.usage));
      AssembleOne(out, usage);
      AssembleOne(out + [usage], Done);
      assert out + OnMessageStop(s, includeUsage).out == out + [usage] + [Done];
    } else {
      AssembleOne(out, Done);
      assert out + OnMessageStop(s, includeUsage).out == out + [Done];
    }
  }

  lemma EnvelopeKept(s: State, s': State, b: Builder, b': Builder, out: seq<Chunk>, more: seq<Chunk>, includeUsage: bool)
    requires EnvelopeLinked(s, b, out, includeUsage) && !s.finished
    requires !s'.finished && s'.terminal == s.terminal && s'.usage == s.usage && b'.stop == b.stop
    requires |more| <= 1 && forall c :: c in more ==> !c.Finish? && !c.Usage?
    ensures EnvelopeLinked(s', b', out + more, includeUsage)
  {
    if more == [] {
      assert out + more == out;
    } else {
      assert more == [more[0]];
      ContentKeepsEnvelope(out, more[0]);
    }
  }

  predicate ContentEvent(e: Event) {
    e.BlockStart? || e.TextDelta? || e.JsonDelta? || e.BlockStop?
  }

  lemma ContentEventBlocks(codec: Codec, includeUsage: bool, s: State, b: Builder, e: Event)
    requires ContentEvent(e) && BlocksLinked(codec, s, b)
    requires Handle(codec, includeUsage, s, e).ok
    ensures BlocksLinked(codec, Handle(codec, includeUsage, s, e).next, Build(b, e))
  {
    match e {
      case BlockStart(i, opening, start) => BlockStartLinks(codec, s, b, i, opening, start);
      case TextDelta(i, text) => TextDeltaLinks(codec, s, b, i, text);
      case JsonDelta(i, partial) => JsonDeltaLinks(codec, s, b, i, partial);
      case BlockStop(i) => BlockStopLinks(codec, s, b, i);
    }
  }

  lemma ContentEventContent(
    codec: Codec, includeUsage: bool, s: State, b: Builder, out: seq<Chunk>, ordered: bool, e: Event)
    requires ContentEvent(e) && (ordered ==> DeltaInOrder(b, e))
    requires BlocksLinked(codec, s, b) && ContentLinked(b, out, ordered)
    requires Handle(codec, includeUsage, s, e).ok
    ensures ContentLinked(Build(b, e), out + Handle(codec, includeUsage, s, e).out, ordered)
  {
    match e {
      case BlockStart(i, opening, start) => BlockStartContent(s, b, out, ordered, i, opening, start);
      case TextDelta(i, text) => TextDeltaContent(codec, s, b, out, ordered, i, text);
      case JsonDelta(i, partial) =>
        assert b.Knows(i) && BlockLinked(codec, s, b, b.position[i]);
        ToolContent(codec, s, b, out, ordered, i, partial);
      case BlockStop(i) => BlockStopContent(codec, s, b, out, ordered, i);
    }
  }

  lemma ContentEventEnvelope(codec: Codec, includeUsage: bool, s: State, b: Builder, out: seq<Chunk>, e: Event)
    requires ContentEvent(e) && EnvelopeLinked(s, b, out, includeUsage)
    requires Handle(codec, includeUsage, s, e).ok
    ensures var r := Handle(codec, includeUsage, s, e);
      EnvelopeLinked(r.next, Build(b, e), out + r.out, includeUsage)
  {
    var r := Handle(codec, includeUsage, s, e);
    EnvelopeKept(s, r.next, b, Build(b, e), out, r.out, includeUsage);
  }

  /** Events that open, finish or close the message. */
  predicate EnvelopeEvent(e: Event) {
    e.MessageStart? || e.MessageDelta? || e.MessageStop?
  }

  lemma EnvelopeEventBlocks(codec: Codec, includeUsage: bool, s: State, b: Builder, e: Event)
    requires EnvelopeEvent(e) && BlocksLinked(codec, s, b)
    ensures BlocksLinked(codec, Handle(codec, includeUsage, s, e).next, Build(b, e))
  {
    EnvelopeEventFrame(codec, includeUsage, s, e);
    SameBlocks(codec, s, Handle(codec, includeUsage, s, e).next, b, Build(b, e));
  }

  lemma EnvelopeEventFrame(codec: Codec, includeUsage: bool, s: State, e: Event)
    requires EnvelopeEvent(e)
    ensures var s' := Handle(codec, includeUsage, s, e).next;
      && s'.blocks == s.blocks && s'.stopped == s.stopped && s'.toolIndexes == s.toolIndexes
      && s'.toolJson == s.toolJson && s'.nextTool == s.nextTool
  {}

  /** Chunks that carry neither text nor calls. */
  predicate Quiet(c: Chunk) {
    c.Role? || c.Finish? || c.Usage? || c.Done?
  }

  lemma {:induction false} QuietAssembled(out: seq<Chunk>, more: seq<Chunk>)
    requires forall i :: 0 <= i < |more| ==> Quiet(more[i])
    ensures Assemble(out + more).text == Assemble(out).text && Assemble(out + more).calls == Assemble(out).calls
  {
    if more == [] {
      assert out + more == out;
    } else {
      var before, last := more[..|more| - 1], more[|more| - 1];
      assert out + more == (out + before) + [last] by { assert more == before + [last]; }
      QuietAssembled(out, before);
      AssembleOne(out + before, last);
      assert Quiet(last);
    }
  }

  lemma EnvelopeEventOutput(codec: Codec, includeUsage: bool, s: State, e: Event)
    requires EnvelopeEvent(e) && Handle(codec, includeUsage, s, e).ok
    ensures var out := Handle(codec, includeUsage, s, e).out; forall i :: 0 <= i < |out| ==> Quiet(out[i])
  {}

  lemma EnvelopeEventContent(codec: Codec, includeUsage: bool, s: State, out: seq<Chunk>, e: Event)
    requires EnvelopeEvent(e) && Handle(codec, includeUsage, s, e).ok
    ensures var out' := out + Handle(codec, includeUsage, s, e).out;
      Assemble(out').text == Assemble(out).text && Assemble(out').calls == Assemble(out).calls
  {
    EnvelopeEventOutput(codec, includeUsage, s, e);
    QuietAssembled(out, Handle(codec, includeUsage, s, e).out);
  }

  lemma EnvelopeEventEnvelope(codec: Codec, includeUsage: bool, s: State, b: Builder, out: seq<Chunk>, e: Event)
    requires EnvelopeEvent(e) && EnvelopeLinked(s, b, out, includeUsage)
    requires (!s.started ==> !s.finished) && Handle(codec, includeUsage, s, e).ok
    ensures var r := Handle(codec, includeUsage, s, e);
      EnvelopeLinked(r.next, Build(b, e), out + r.out, includeUsage)
  {
    match e {
      case MessageStart(_, _, _) => ContentKeepsEnvelope(out, Role);
      case MessageDelta(_, _, _) => MessageDeltaEnvelope(s, b, out, e, includeUsage);
      case MessageStop => MessageStopEnvelope(s, b, out, includeUsage);
    }
  }

  lemma HandleLinks(
    codec: Codec, includeUsage: bool, s: State, b: Builder, out: seq<Chunk>, ordered: bool, e: Event)
    requires !e.Failure? && Linked(codec, includeUsage, s, b, out, ordered) && (ordered ==> DeltaInOrder(b, e))
    requires (!s.started ==> !s.finished) && Handle(codec, includeUsage, s, e).ok
    ensures var r := Handle(codec, includeUsage, s, e);
      Linked(codec, includeUsage, r.next, Build(b, e), out + r.out, ordered)
  {
    if e.Ping? {
      assert out + [] == out;
    } else if EnvelopeEvent(e) {
      EnvelopeEventBlocks(codec, includeUsage, s, b, e);
      EnvelopeEventContent(codec, includeUsage, s, out, e);
      EnvelopeEventEnvelope(codec, includeUsage, s, b, out, e);
    } else {
      ContentEventBlocks(codec, includeUsage, s, b, e);
      ContentEventContent(codec, includeUsage, s, b, out, ordered, e);
      ContentEventEnvelope(codec, includeUsage, s, b, out, e);
    }
  }

  lemma SameBlocks(codec: Codec, s: State, s': State, b: Builder, b': Builder)
    requires BlocksLinked(codec, s, b)
    requires s'.blocks == s.blocks && s'.stopped == s.stopped && s'.toolIndexes == s.toolIndexes
    requires s'.toolJson == s.toolJson && s'.nextTool == s.nextTool
    requires b'.blocks == b.blocks && b'.position == b.position
    ensures BlocksLinked(codec, s', b')
  {
    forall p | 0 <= p < |b'.blocks| ensures BlockLinked(codec, s', b', p) {
      assert BlockLinked(codec, s, b, p);
    }
  }

  lemma Weaken(codec: Codec, includeUsage: bool, s: State, b: Builder, out: seq<Chunk>, ordered: bool, ordered': bool)
    requires Linked(codec, includeUsage, s, b, out, ordered) && (ordered' ==> ordered)
    ensures Linked(codec, includeUsage, s, b, out, ordered')
  {}

  lemma HandleMessageLinks(codec: Codec, includeUsage: bool, s: State, b: Builder, e: Event)
    requires Valid(e) && MessageLinked(s, b) && Handle(codec, includeUsage, s, e).ok
    ensures MessageLinked(Handle(codec, includeUsage, s, e).next, Build(b, e))
  {
    var r := Handle(codec, includeUsage, s, e);
    match e {
      case MessageStart(_, u, _) => FirstReport(u);
      case MessageDelta(_, u, _) => MergeIsOverlay(b.usage, u);
      case _ =>
        assert r.next.started == s.started && r.next.usage == s.usage;
        assert Build(b, e).message == b.message && Build(b, e).usage == b.usage;
    }
  }

  lemma {:induction false} RunLinks(codec: Codec, includeUsage: bool, events: seq<Option<Event>>)
    ensures var r := Run(codec, includeUsage, events);
      r.ok && !r.next.failed ==>
        Linked(codec, includeUsage, r.next, BuildAll(events), r.out, TextInOrder(events))
  {
    if events != [] {
      var init, last := events[..|events| - 1], events[|events| - 1];
      RunLinks(codec, includeUsage, init);
      RunPhase(codec, includeUsage, init);
      var r, before := Run(codec, includeUsage, events), Run(codec, includeUsage, init);
      if r.ok && !r.next.failed {
        var b, ordered, e := BuildAll(init), TextInOrder(events), last.value;
        Weaken(codec, includeUsage, before.next, b, before.out, TextInOrder(init), ordered);
        HandleLinks(codec, includeUsage, before.next, b, before.out, ordered, e);
      }
    }
  }

  predicate AllValid(events: seq<Option<Event>>) {
    forall i :: 0 <= i < |events| && events[i].Some? ==> Valid(events[i].value)
  }

  lemma HandleBlocksOpened(b: Builder, e: Event)
    requires Valid(e) && BlocksOpened(b)
    ensures BlocksOpened(Build(b, e))
  {
    var b' := Build(b, e);
    forall p | 0 <= p < |b.blocks| ensures b'.blocks[p].start == b.blocks[p].start && b'.blocks[p].opening == b.blocks[p].opening {}
  }

  lemma {:induction false} RunMessageLinks(codec: Codec, includeUsage: bool, events: seq<Option<Event>>)
    requires Run(codec, includeUsage, events).ok && AllValid(events)
    ensures MessageLinked(Run(codec, includeUsage, events).next, BuildAll(events))
    ensures BlocksOpened(BuildAll(events))
  {
    if events != [] {
      var init, last := events[..|events| - 1], events[|events| - 1];
      RunMessageLinks(codec, includeUsage, init);
      var s, b, e := Run(codec, includeUsage, init).next, BuildAll(init), last.value;
      HandleMessageLinks(codec, includeUsage, s, b, e);
      HandleBlocksOpened(b, e);
    }
  }

  // -------------------------------------------------------------------------
  // The buffered translator on the described message

  /** The same calls, with the arguments equal as JSON values. */
  predicate SameCalls(codec: Codec, streamed: seq<ToolCall>, buffered: seq<ToolCall>) {
    && |streamed| == |buffered|
    && forall k :: 0 <= k < |streamed| ==>
         && streamed[k].id == buffered[k].id && streamed[k].name == buffered[k].name
         && codec.parse(streamed[k].arguments).Some?
         && buffered[k].arguments == codec.marshal(codec.parse(streamed[k].arguments).value)
  }

  function MessageText(b: Builder): string {
    TextUpTo(b.blocks, |b.blocks|)
  }

  function NonEmpty(text: string): Option<string> {
    if text == "" then None else Some(text)
  }

  predicate Ready(codec: Codec, b: Block) {
    && Opens(b.start, b.opening)
    && (b.opening.OpensTool? ==> codec.parse(b.data).Some? && codec.parse(b.data).value.Obj?)
  }

  lemma TranslateFinalBlock(codec: Codec, b: Block)
    requires Ready(codec, b)
    ensures TranslateBlock(codec, FinalBlock(codec, b)) == Some(
      if b.opening.OpensText? then TextPart(b.data)
      else CallPart(CallOf(b).(arguments := codec.marshal(codec.parse(b.data).value))))
  {
    var block := FinalBlock(codec, b).fields;
    if b.opening.OpensText? {
      assert IsText(block);
    } else {
      assert IsTool(block);
      assert StringField(block, "type") == Some("tool_use");
      assert !IsText(block);
    }
  }

  lemma {:induction false} CollectOne(codec: Codec, items: seq<Json>, n: nat)
    requires 0 < n <= |items| && Collect(codec, items[..n - 1]).Some? && TranslateBlock(codec, items[n - 1]).Some?
    ensures Collect(codec, items[..n]) ==
      Some(Add(Collect(codec, items[..n - 1]).value, TranslateBlock(codec, items[n - 1]).value))
  {
    assert items[..n][..n - 1] == items[..n - 1];
  }

  /** Collecting one more finished block keeps text and calls the same. */
  lemma {:induction false} AddFinal(codec: Codec, blocks: seq<Block>, n: nat, c: Collected, part: Part)
    requires 0 < n <= |blocks| && Ready(codec, blocks[n - 1])
    requires part == if blocks[n - 1].opening.OpensText? then TextPart(blocks[n - 1].data)
      else CallPart(CallOf(blocks[n - 1]).(arguments := codec.marshal(codec.parse(blocks[n - 1].data).value)))
    requires c.text == TextUpTo(blocks, n - 1) && SameCalls(codec, CallsUpTo(blocks, n - 1), c.calls)
    ensures Add(c, part).text == TextUpTo(blocks, n)
    ensures SameCalls(codec, CallsUpTo(blocks, n), Add(c, part).calls)
  {
    var b := blocks[n - 1];
    if b.opening.OpensText? {
      assert CallsUpTo(blocks, n) == CallsUpTo(blocks, n - 1);
    } else {
      assert TextUpTo(blocks, n) == TextUpTo(blocks, n - 1);
      assert CallsUpTo(blocks, n) == CallsUpTo(blocks, n - 1) + [CallOf(b)];
    }
  }

  lemma {:induction false} CollectFinal(codec: Codec, blocks: seq<Block>, n: nat)
    requires n <= |blocks| && forall p :: 0 <= p < n ==> Ready(codec, blocks[p])
    ensures var c := Collect(codec, FinalContent(codec, blocks)[..n]);
      && c.Some? && c.value.text == TextUpTo(blocks, n)
      && SameCalls(codec, CallsUpTo(blocks, n), c.value.calls)
  {
    if n > 0 {
      CollectFinal(codec, blocks, n - 1);
      TranslateFinalBlock(codec, blocks[n - 1]);
      CollectOne(codec, FinalContent(codec, blocks), n);
      AddFinal(codec, blocks, n, Collect(codec, FinalContent(codec, blocks)[..n - 1]).value,
               TranslateBlock(codec, FinalBlock(codec, blocks[n - 1])).value);
    }
  }

  lemma FinalIsMessage(codec: Codec, b: Builder)
    requires OpensMessage(b.message) && Decodes(b.usage) && Parse(b.usage).completeness.Complete?
    ensures var m := FinalMessage(codec, b).fields;
      && IsMessage(m) && Extract(m) == Some(b.usage)
      && ContentItems(m) == Some(FinalContent(codec, b.blocks))
      && StructString(m, "stop_reason") == Some(b.stop)
  {
    var m := FinalMessage(codec, b).fields;
    assert UsageObject(m) == Some(Obj(b.usage));
  }

  /** A described message that has all it needs. */
  ghost predicate Whole(codec: Codec, b: Builder) {
    && OpensMessage(b.message) && Decodes(b.usage) && Parse(b.usage).completeness.Complete?
    && (forall p :: 0 <= p < |b.blocks| ==> Ready(codec, b.blocks[p]))
    && FinishReason(b.stop).Some? && Consistent(FinishReason(b.stop).value, ToolsUpTo(b.blocks, |b.blocks|))
  }

  /** The completion says what the described message does. */
  ghost predicate Presents(codec: Codec, b: Builder, r: Option<Completion>) {
    && r.Some? && r.value.content == NonEmpty(MessageText(b))
    && SameCalls(codec, CallsUpTo(b.blocks, |b.blocks|), r.value.calls)
    && FinishReason(b.stop) == Some(r.value.finish) && Decodes(b.usage) && r.value.usage == ToChat(Parse(b.usage))
  }

  /** What the buffered translator makes of the described message. */
  lemma FinalTranslates(codec: Codec, b: Builder)
    requires Whole(codec, b)
    ensures Presents(codec, b, Translate(codec, FinalMessage(codec, b)))
  {
    FinalIsMessage(codec, b);
    CollectFinal(codec, b.blocks, |b.blocks|);
    var content := FinalContent(codec, b.blocks);
    assert content[..|b.blocks|] == content;
  }

  /** The text of all text deltas, in the order they came. */
  function DeltaText(events: seq<Option<Event>>): string {
    if events == [] then ""
    else
      DeltaText(events[..|events| - 1])
      + match events[|events| - 1] { case Some(TextDelta(_, text)) => text case _ => "" }
  }

  lemma HandleText(codec: Codec, includeUsage: bool, s: State, out: seq<Chunk>, e: Event)
    requires Handle(codec, includeUsage, s, e).ok
    ensures Assemble(out + Handle(codec, includeUsage, s, e).out).text
            == Assemble(out).text + match e { case TextDelta(_, text) => text case _ => "" }
  {
    if EnvelopeEvent(e) {
      EnvelopeEventContent(codec, includeUsage, s, out, e);
    } else {
      OtherText(codec, includeUsage, s, out, e);
    }
  }

  /** Content events write at most one chunk, and text only for a text delta. */
  lemma ContentEventOutput(codec: Codec, includeUsage: bool, s: State, e: Event)
    requires !EnvelopeEvent(e) && Handle(codec, includeUsage, s, e).ok
    ensures var out := Handle(codec, includeUsage, s, e).out;
      if e.TextDelta? then out == [Content(e.text)]
      else out == [] || (|out| == 1 && !out[0].Content?)
  {
  }

  lemma OtherText(codec: Codec, includeUsage: bool, s: State, out: seq<Chunk>, e: Event)
    requires !EnvelopeEvent(e) && Handle(codec, includeUsage, s, e).ok
    ensures Assemble(out + Handle(codec, includeUsage, s, e).out).text
            == Assemble(out).text + match e { case TextDelta(_, text) => text case _ => "" }
  {
    ContentEventOutput(codec, includeUsage, s, e);
    var written := Handle(codec, includeUsage, s, e).out;
    assert Assemble(out).text + "" == Assemble(out).text;
    if written == [] {
      assert out + written == out;
    } else {
      assert written == [written[0]];
      AssembleOne(out, written[0]);
    }
  }

  lemma {:induction false} RunText(codec: Codec, includeUsage: bool, events: seq<Option<Event>>)
    requires Run(codec, includeUsage, events).ok
    ensures Assemble(Run(codec, includeUsage, events).out).text == DeltaText(events)
  {
    if events != [] {
      var init, last := events[..|events| - 1], events[|events| - 1];
      RunText(codec, includeUsage, init);
      var before := Run(codec, includeUsage, init);
      HandleText(codec, includeUsage, before.next, before.out, last.value);
    }
  }

  /** What the client has assembled when a stream succeeds. */
  ghost predicate Assembled(includeUsage: bool, events: seq<Option<Event>>, streamed: Message) {
    var b := BuildAll(events);
    && streamed.text == DeltaText(events) && (TextInOrder(events) ==> streamed.text == MessageText(b))
    && streamed.calls == CallsUpTo(b.blocks, |b.blocks|) && streamed.finish == FinishReason(b.stop)
    && Decodes(b.usage) && streamed.usage == (if includeUsage then Some(ToChat(Parse(b.usage))) else None)
    && AddsUp(ToChat(Parse(b.usage)))
  }

  predicate AddsUp(usage: ChatUsage) {
    usage.prompt + usage.completion == usage.total
  }

  lemma SuccessDescribes(codec: Codec, includeUsage: bool, events: seq<Option<Event>>)
    ensures AllValid(events) && ProxyOutcome(Run(codec, includeUsage, events)).Success? ==>
      Whole(codec, BuildAll(events)) && Assembled(includeUsage, events, Assemble(Run(codec, includeUsage, events).out))
  {
    if !AllValid(events) || !ProxyOutcome(Run(codec, includeUsage, events)).Success? { return; }
    RunLinks(codec, includeUsage, events);
    RunMessageLinks(codec, includeUsage, events);
    RunPhase(codec, includeUsage, events);
    RunText(codec, includeUsage, events);
    var r, b := Run(codec, includeUsage, events), BuildAll(events);
    forall p | 0 <= p < |b.blocks| ensures Ready(codec, b.blocks[p]) {
      assert BlockLinked(codec, r.next, b, p);
    }
    ChatUsageAddsUp(r.next.usage);
  }

  lemma RefinesBuffered(codec: Codec, includeUsage: bool, events: seq<Option<Event>>)
    ensures AllValid(events) && ProxyOutcome(Run(codec, includeUsage, events)).Success? ==>
      Refines(codec, includeUsage, events)
  {
    if !AllValid(events) || !ProxyOutcome(Run(codec, includeUsage, events)).Success? { return; }
    SuccessDescribes(codec, includeUsage, events);
    FinalTranslates(codec, BuildAll(events));
    var message := FinalMessage(codec, BuildAll(events));
    AssembledAgainst(codec, includeUsage, events, Assemble(Run(codec, includeUsage, events).out), Translate(codec, message));
  }

  lemma AssembledAgainst(codec: Codec, includeUsage: bool, events: seq<Option<Event>>, streamed: Message, buffered: Option<Completion>)
    requires Assembled(includeUsage, events, streamed) && Presents(codec, BuildAll(events), buffered)
    ensures Matches(codec, includeUsage, events, streamed, buffered)
  {
  }

  /** The buffered translator accepts the described message, with the same tool
      calls, finish reason and usage as the caller assembled.  The caller's text is
      the deltas in the order they came, the message's is the deltas block by
      block; they agree if no delta is for a block before one that already has text. */
  ghost predicate Refines(codec: Codec, includeUsage: bool, events: seq<Option<Event>>) {
    RefinesMessage(codec, includeUsage, events, FinalMessage(codec, BuildAll(events)))
  }

  ghost predicate RefinesMessage(codec: Codec, includeUsage: bool, events: seq<Option<Event>>, message: Json) {
    Matches(codec, includeUsage, events, Assemble(Run(codec, includeUsage, events).out), Translate(codec, message))
  }

  ghost predicate Matches(codec: Codec, includeUsage: bool, events: seq<Option<Event>>, streamed: Message, buffered: Option<Completion>) {
    && buffered.Some?
    && buffered.value.content == NonEmpty(MessageText(BuildAll(events)))
    && streamed.text == DeltaText(events)
    && (TextInOrder(events) ==> streamed.text == MessageText(BuildAll(events)))
    && SameCalls(codec, streamed.calls, buffered.value.calls)
    && streamed.finish == Some(buffered.value.finish)
    && streamed.usage == (if includeUsage then Some(buffered.value.usage) else None)
    && AddsUp(buffered.value.usage)
  }

  /** Streaming refines buffering, on every successful run over every payloads. */
  lemma StreamRefinesBuffered(codec: Codec, includeUsage: bool, payloads: seq<string>)
    ensures ProxyOutcome(Run(codec, includeUsage, DecodeAll(AnthropicDecoder(codec), payloads))).Success? ==>
      Refines(codec, includeUsage, DecodeAll(AnthropicDecoder(codec), payloads))
  {
    forall i | 0 <= i < |payloads| { DecodeValid(codec, payloads[i]); }
    RefinesBuffered(codec, includeUsage, DecodeAll(AnthropicDecoder(codec), payloads));
  }

  // -------------------------------------------------------------------------
  // Blocks that do not overlap are in order; overlapping ones need not be

  /** Every block start finds all earlier blocks stopped. */
  predicate NonOverlapping(codec: Codec, includeUsage: bool, events: seq<Option<Event>>) {
    events == [] ||
    (var init := events[..|events| - 1];
     && NonOverlapping(codec, includeUsage, init)
     && match events[|events| - 1]
        case Some(BlockStart(_, _, _)) => AllStopped(Run(codec, includeUsage, init).next)
        case _ => true)
  }

  /** All blocks but the last have stopped. */
  ghost predicate OneOpen(s: State, b: Builder) {
    && (forall p :: 0 <= p < |b.blocks| - 1 ==> b.blocks[p].index in s.stopped)
    && (forall p :: 0 <= p < |b.blocks| ==> b.blocks[p].index in s.blocks)
    && (forall i :: i in s.blocks ==> b.Knows(i) && b.blocks[b.position[i]].index == i)
  }

  lemma {:induction false} NonOverlappingInOrder(codec: Codec, includeUsage: bool, events: seq<Option<Event>>)
    requires Run(codec, includeUsage, events).ok && NonOverlapping(codec, includeUsage, events)
    ensures TextInOrder(events)
    ensures OneOpen(Run(codec, includeUsage, events).next, BuildAll(events))
  {
    if events != [] {
      var init, last := events[..|events| - 1], events[|events| - 1];
      NonOverlappingInOrder(codec, includeUsage, init);
      var s, b, e := Run(codec, includeUsage, init).next, BuildAll(init), last.value;
      OneOpenKept(codec, includeUsage, s, b, e);
    }
  }

  lemma OneOpenSame(s: State, s': State, b: Builder, b': Builder)
    requires OneOpen(s, b) && s'.blocks == s.blocks && s.stopped <= s'.stopped
    requires b'.position == b.position && |b'.blocks| == |b.blocks|
    requires forall p :: 0 <= p < |b.blocks| ==> b'.blocks[p].index == b.blocks[p].index
    ensures OneOpen(s', b')
  {}

  lemma OneOpenStart(s: State, b: Builder, i: int, opening: Opening, start: Object)
    requires OneOpen(s, b) && AllStopped(s) && OnBlockStart(s, i, opening).ok
    ensures OneOpen(OnBlockStart(s, i, opening).next, Build(b, BlockStart(i, opening, start)))
  {
    var s', b' := OnBlockStart(s, i, opening).next, Build(b, BlockStart(i, opening, start));
    assert s'.stopped == s.stopped && s'.blocks.Keys == s.blocks.Keys + {i};
  }

  lemma OneOpenKept(codec: Codec, includeUsage: bool, s: State, b: Builder, e: Event)
    requires OneOpen(s, b) && Handle(codec, includeUsage, s, e).ok
    requires e.BlockStart? ==> AllStopped(s)
    ensures DeltaInOrder(b, e) && OneOpen(Handle(codec, includeUsage, s, e).next, Build(b, e))
  {
    match e {
      case BlockStart(i, opening, start) => OneOpenStart(s, b, i, opening, start);
      case _ => OneOpenSame(s, Handle(codec, includeUsage, s, e).next, b, Build(b, e));
    }
  }
}
