/**
 The stream translator from Anthropic Messages events to Chat Completions
 chunks (pkg/gateway/chat_anthropic_translation.go).
 */
module AnthropicStream {
  import opened Options
  import opened JsonValues
  import opened ChatChunks
  import opened AnthropicUsage
  import opened AnthropicResponse

  // -------------------------------------------------------------------------
  // Events

  /** What a content block opens: text, or a tool call. */
  datatype Opening = OpensText | OpensTool(id: string, name: string)

  /** An event that is valid on its own; whether it is in order depends on the
      state.  Usage is kept both as reported and decoded. */
  datatype Event =
    | Ping
    | MessageStart(message: Object, reported: Object, usage: TokenUsage)
    | BlockStart(index: int, opening: Opening, block: Object)
    | TextDelta(index: int, text: string)
    | JsonDelta(index: int, partial: string)
    | BlockStop(index: int)
    | MessageDelta(stop: Option<string>, reported: Object, usage: TokenUsage)
    | MessageStop
    | Failure(error: string)

  function EventFields(kind: string): Option<set<string>> {
    if kind == "ping" || kind == "message_stop" then Some({"type"})
    else if kind == "message_start" then Some({"type", "message"})
    else if kind == "content_block_start" then Some({"type", "index", "content_block"})
    else if kind == "content_block_delta" then Some({"type", "index", "delta"})
    else if kind == "content_block_stop" then Some({"type", "index"})
    else if kind == "message_delta" then Some({"type", "delta", "usage"})
    else if kind == "error" then Some({"type", "error", "request_id"})
    else None
  }

  /** The message of a message_start: an assistant message with no content and no stop reason yet. */
  predicate OpensMessage(m: Object) {
    && OnlyFields(m, MESSAGE_FIELDS)
    && StructString(m, "id").Some? && StructString(m, "id").value != ""
    && StructString(m, "type") == Some("message")
    && StructString(m, "role") == Some("assistant")
    && StructString(m, "model").Some? && StructString(m, "model").value != ""
    && (NonNull(m, "content") ==> m["content"] == Arr([]))
    && !NonNull(m, "stop_reason")
  }

  /** The block of a content_block_start: empty text, or a tool with empty input. */
  predicate Opens(b: Object, opening: Opening) {
    match opening
    case OpensText => IsText(b) && StringField(b, "text") == Some("")
    case OpensTool(id, name) =>
      && IsTool(b) && ObjectField(b, "input") == Some(map[])
      && StringField(b, "id") == Some(id) && StringField(b, "name") == Some(name)
  }

  function OpeningOf(b: Object): Option<Opening> {
    if Opens(b, OpensText) then Some(OpensText)
    else match (StringField(b, "id"), StringField(b, "name"))
      case (Some(id), Some(name)) =>
        if Opens(b, OpensTool(id, name)) then Some(OpensTool(id, name)) else None
      case _ => None
  }

  function Index(ev: Object): Option<int> {
    match IntField(ev, "index")
    case Some(i) => if i < 0 then None else Some(i)
    case None => None
  }

  function DecodeMessageStart(ev: Object): Option<Event> {
    match (ObjectField(ev, "message"), Extract(ev))
    case (Some(m), Some(u)) => if OpensMessage(m) then Some(MessageStart(m, u, Parse(u))) else None
    case _ => None
  }

  function DecodeBlockStart(ev: Object): Option<Event> {
    match (Index(ev), ObjectField(ev, "content_block"))
    case (Some(i), Some(b)) =>
      (match OpeningOf(b)
       case Some(opening) => Some(BlockStart(i, opening, b))
       case None => None)
    case _ => None
  }

  function DecodeBlockDelta(ev: Object): Option<Event> {
    match (Index(ev), ObjectField(ev, "delta"))
    case (Some(i), Some(d)) =>
      var kind := StringField(d, "type");
      if kind == Some("text_delta") && OnlyFields(d, {"type", "text"}) && StringField(d, "text").Some?
      then Some(TextDelta(i, StringField(d, "text").value))
      else if kind == Some("input_json_delta") && OnlyFields(d, {"type", "partial_json"})
              && StringField(d, "partial_json").Some?
      then Some(JsonDelta(i, StringField(d, "partial_json").value))
      else None
    case _ => None
  }

  function DecodeMessageDelta(ev: Object): Option<Event> {
    match (ObjectField(ev, "delta"), Extract(ev))
    case (Some(d), Some(u)) =>
      if !OnlyFields(d, {"stop_reason", "stop_sequence"}) then None
      else if !NonNull(d, "stop_reason") then Some(MessageDelta(None, u, Parse(u)))
      else
        (match d["stop_reason"]
         case Str(reason) => if reason == "" then None else Some(MessageDelta(Some(reason), u, Parse(u)))
         case _ => None)
    case _ => None
  }

  /** The message of an error event, when it has one; trimming is not modelled. */
  function ErrorMessage(ev: Object): string {
    match ObjectField(ev, "error")
    case Some(e) =>
      (match StringField(e, "message")
       case Some(m) => if m == "" then "the upstream Anthropic stream failed" else m
       case None => "the upstream Anthropic stream failed")
    case None => "the upstream Anthropic stream failed"
  }

  function DecodeKind(kind: string, ev: Object): Option<Event> {
    if kind == "ping" then Some(Ping)
    else if kind == "message_start" then DecodeMessageStart(ev)
    else if kind == "content_block_start" then DecodeBlockStart(ev)
    else if kind == "content_block_delta" then DecodeBlockDelta(ev)
    else if kind == "content_block_stop" then
      (match Index(ev) case Some(i) => Some(BlockStop(i)) case None => None)
    else if kind == "message_delta" then DecodeMessageDelta(ev)
    else if kind == "message_stop" then Some(MessageStop)
    else Some(Failure(ErrorMessage(ev)))
  }

  function Decode(codec: Codec, payload: string): Option<Event> {
    match codec.parse(payload)
    case Some(Obj(ev)) =>
      (match StringField(ev, "type")
       case Some(kind) =>
         (match EventFields(kind)
          case Some(allowed) => if OnlyFields(ev, allowed) then DecodeKind(kind, ev) else None
          case None => None)
       case None => None)
    case _ => None
  }

  /** What decoding has established about an event. */
  predicate Valid(e: Event) {
    match e
    case MessageStart(m, u, usage) => OpensMessage(m) && Decodes(u) && usage == Parse(u)
    case BlockStart(i, opening, b) => 0 <= i && Opens(b, opening)
    case TextDelta(i, _) => 0 <= i
    case JsonDelta(i, _) => 0 <= i
    case BlockStop(i) => 0 <= i
    case MessageDelta(_, u, usage) => Decodes(u) && usage == Parse(u)
    case _ => true
  }

  lemma DecodeValid(codec: Codec, payload: string)
    ensures Decode(codec, payload).Some? ==> Valid(Decode(codec, payload).value)
  {}

  // -------------------------------------------------------------------------
  // State and transitions

  datatype BlockKind = TextBlock | ToolBlock

  datatype State = State(
    started: bool, finished: bool, terminal: bool, failed: bool,
    blocks: map<int, BlockKind>, stopped: set<int>,
    toolIndexes: map<int, nat>, toolJson: map<int, string>, nextTool: nat,
    usage: TokenUsage)

  const INITIAL := State(false, false, false, false, map[], {}, map[], map[], 0, MISSING)

  /** The outcome of one event: chunks are written even when the handler then fails. */
  datatype Reply = Reply(next: State, out: seq<Chunk>, ok: bool)

  function Fail(s: State): Reply { Reply(s, [], false) }

  function Kind(opening: Opening): BlockKind {
    if opening.OpensText? then TextBlock else ToolBlock
  }

  predicate InContent(s: State) { s.started && !s.finished }

  predicate AllStopped(s: State) { s.blocks.Keys <= s.stopped }

  function OnBlockStart(s: State, index: int, opening: Opening): Reply {
    if !InContent(s) || index in s.blocks then Fail(s)
    else
      var s' := s.(blocks := s.blocks[index := Kind(opening)]);
      match opening
      case OpensText => Reply(s', [], true)
      case OpensTool(id, name) =>
        Reply(s'.(toolIndexes := s.toolIndexes[index := s.nextTool],
                  toolJson := s.toolJson[index := ""], nextTool := s.nextTool + 1),
              [ToolStart(s.nextTool, id, name, "")], true)
  }

  function OnTextDelta(s: State, index: int, text: string): Reply {
    if !InContent(s) || index in s.stopped || index !in s.blocks || s.blocks[index] != TextBlock
    then Fail(s)
    else Reply(s, [Content(text)], true)
  }

  function OnJsonDelta(s: State, index: int, partial: string): Reply {
    if !InContent(s) || index in s.stopped || index !in s.blocks || s.blocks[index] != ToolBlock
       || index !in s.toolIndexes || index !in s.toolJson
    then Fail(s)
    else
      Reply(s.(toolJson := s.toolJson[index := s.toolJson[index] + partial]),
            [ToolArguments(s.toolIndexes[index], partial)], true)
  }

  function OnBlockStop(codec: Codec, s: State, index: int): Reply {
    if !InContent(s) || index !in s.blocks || index in s.stopped then Fail(s)
    else
      var s' := s.(stopped := s.stopped + {index});
      if s.blocks[index] == TextBlock then Reply(s', [], true)
      else
        var json := if index in s.toolJson then s.toolJson[index] else "";
        var tool := if index in s.toolIndexes then s.toolIndexes[index] else 0;
        var arguments := if json == "" then "{}" else json;
        var out := if json == "" then [ToolArguments(tool, "{}")] else [];
        match codec.parse(arguments)
        case Some(Obj(_)) => Reply(s', out, true)
        case _ => Reply(s, out, false)
  }

  function OnMessageDelta(s: State, stop: Option<string>, usage: TokenUsage): Reply {
    if !InContent(s) || !AllStopped(s) then Fail(s)
    else
      var s' := s.(usage := Merge(s.usage, usage));
      match stop
      case None => Reply(s', [], true)
      case Some(reason) =>
        match FinishReason(reason)
        case Some(finish) =>
          if Consistent(finish, s.nextTool) then Reply(s'.(finished := true), [Finish(finish)], true)
          else Fail(s)
        case None => Fail(s)
  }

  function OnMessageStop(s: State, includeUsage: bool): Reply {
    if !s.started || !s.finished || !AllStopped(s) || !s.usage.completeness.Complete? then Fail(s)
    else
      Reply(s.(terminal := true),
            (if includeUsage then [Usage(ToChat(s.usage))] else []) + [Done], true)
  }

  function Handle(codec: Codec, includeUsage: bool, s: State, e: Event): Reply {
    if s.terminal then Fail(s)
    else match e
      case Ping => Reply(s, [], true)
      case MessageStart(_, _, usage) =>
        if s.started then Fail(s)
        else Reply(s.(started := true, usage := Merge(s.usage, usage)), [Role], true)
      case BlockStart(i, opening, _) => OnBlockStart(s, i, opening)
      case TextDelta(i, text) => OnTextDelta(s, i, text)
      case JsonDelta(i, partial) => OnJsonDelta(s, i, partial)
      case BlockStop(i) => OnBlockStop(codec, s, i)
      case MessageDelta(stop, _, usage) => OnMessageDelta(s, stop, usage)
      case MessageStop => OnMessageStop(s, includeUsage)
      case Failure(m) => Reply(s.(failed := true, terminal := true), [Error(m)], true)
  }

  /** The events of a stream, in order; `None` is a payload that does not decode. */
  function DecodeAll(decode: Decoder, payloads: seq<string>): seq<Option<Event>> {
    seq(|payloads|, i requires 0 <= i < |payloads| => decode(payloads[i]))
  }

  type Decoder = string -> Option<Event>

  function AnthropicDecoder(codec: Codec): Decoder {
    payload => Decode(codec, payload)
  }

  /** Handling events one by one until the first error. */
  function Run(codec: Codec, includeUsage: bool, events: seq<Option<Event>>): Reply {
    if events == [] then Reply(INITIAL, [], true)
    else
      var before := Run(codec, includeUsage, events[..|events| - 1]);
      if !before.ok then before
      else
        match events[|events| - 1]
        case None => before.(ok := false)
        case Some(e) =>
          var r := Handle(codec, includeUsage, before.next, e);
          Reply(r.next, before.out + r.out, r.ok)
  }

  // -------------------------------------------------------------------------
  // The output language

  /** The output so far, by phase of the stream. */
  ghost predicate Phase(s: State, out: seq<Chunk>, includeUsage: bool) {
    if s.failed then s.terminal && Done !in out
    else if !s.started then !s.finished && !s.terminal && out == [] && s.nextTool == 0
    else if !s.finished then !s.terminal && Done !in out && Open(out, s.nextTool)
    else if !s.terminal then Done !in out && Finished(out, s.nextTool)
    else s.usage.completeness.Complete? && Done in out && InLanguage(out, includeUsage)
  }

  /** The maps agree on which blocks are tools, and tool indexes are in range. */
  ghost predicate Coherent(s: State) {
    && (forall i :: i in s.toolIndexes <==> i in s.blocks && s.blocks[i].ToolBlock?)
    && s.toolJson.Keys == s.toolIndexes.Keys
    && (forall i :: i in s.toolIndexes ==> s.toolIndexes[i] < s.nextTool)
    && Balanced(s.usage)
  }

  lemma BlockStartCoherent(s: State, index: int, opening: Opening)
    requires Coherent(s)
    ensures Coherent(OnBlockStart(s, index, opening).next)
  {}

  lemma HandleCoherent(codec: Codec, includeUsage: bool, s: State, e: Event)
    requires Coherent(s)
    ensures Coherent(Handle(codec, includeUsage, s, e).next)
  {
    match e {
      case MessageStart(_, _, usage) => MergeBalanced(s.usage, usage);
      case MessageDelta(_, _, usage) => MergeBalanced(s.usage, usage);
      case BlockStart(i, opening, _) => BlockStartCoherent(s, i, opening);
      case JsonDelta(i, partial) => assert OnJsonDelta(s, i, partial).next.toolJson.Keys == s.toolJson.Keys;
      case _ =>
    }
  }

  lemma MessageStopPhase(s: State, out: seq<Chunk>, includeUsage: bool)
    requires Phase(s, out, includeUsage) && !s.terminal && OnMessageStop(s, includeUsage).ok
    ensures var r := OnMessageStop(s, includeUsage); Phase(r.next, out + r.out, includeUsage)
  {
    var accounted := out + if includeUsage then [Usage(ToChat(s.usage))] else [];
    assert includeUsage ==> accounted[..|out|] == out;
    assert !includeUsage ==> accounted == out;
    DoneInLanguage(accounted, s.nextTool, includeUsage);
    assert out + OnMessageStop(s, includeUsage).out == accounted + [Done];
  }

  lemma BlockStopPhase(codec: Codec, s: State, out: seq<Chunk>, includeUsage: bool, i: int)
    requires Coherent(s) && Phase(s, out, includeUsage) && !s.terminal && OnBlockStop(codec, s, i).ok
    ensures var r := OnBlockStop(codec, s, i); Phase(r.next, out + r.out, includeUsage)
  {
    if OnBlockStop(codec, s, i).out == [] {
      assert out + [] == out;
    } else {
      OpenArguments(out, s.nextTool, s.toolIndexes[i], "{}");
    }
  }

  lemma HandlePhase(codec: Codec, includeUsage: bool, s: State, out: seq<Chunk>, e: Event)
    requires Coherent(s) && Phase(s, out, includeUsage)
    requires Handle(codec, includeUsage, s, e).ok
    ensures var r := Handle(codec, includeUsage, s, e); Phase(r.next, out + r.out, includeUsage)
  {
    var r := Handle(codec, includeUsage, s, e);
    match e {
      case TextDelta(_, text) => OpenContent(out, s.nextTool, text);
      case JsonDelta(i, partial) => OpenArguments(out, s.nextTool, s.toolIndexes[i], partial);
      case BlockStart(i, OpensText, _) => assert out + [] == out;
      case BlockStart(i, OpensTool(id, name), _) => OpenTool(out, s.nextTool, id, name, "");
      case BlockStop(i) => BlockStopPhase(codec, s, out, includeUsage, i);
      case MessageDelta(_, _, _) =>
        if r.out == [] { assert out + [] == out; }
        else { assert (out + r.out)[..|out|] == out; }
      case MessageStop => MessageStopPhase(s, out, includeUsage);
      case MessageStart(_, _, _) => assert out + r.out == [Role];
      case Ping => assert out + [] == out;
      case Failure(_) =>
    }
  }

  lemma {:induction false} RunPhase(codec: Codec, includeUsage: bool, events: seq<Option<Event>>)
    ensures var r := Run(codec, includeUsage, events);
      r.ok ==> Coherent(r.next) && Phase(r.next, r.out, includeUsage)
  {
    if events != [] {
      var init, last := events[..|events| - 1], events[|events| - 1];
      RunPhase(codec, includeUsage, init);
      var before := Run(codec, includeUsage, init);
      if Run(codec, includeUsage, events).ok {
        var e := last.value;
        HandleCoherent(codec, includeUsage, before.next, e);
        HandlePhase(codec, includeUsage, before.next, before.out, e);
      }
    }
  }

  /** How the proxy returns once the source ends. */
  datatype Outcome =
    | HandlerError | NoTerminalEvent | UpstreamFailure | NoFinalDelta | IncompleteUsage | Success

  function ProxyOutcome(r: Reply): Outcome {
    if !r.ok then HandlerError
    else if !r.next.terminal then NoTerminalEvent
    else if r.next.failed then UpstreamFailure
    else if !r.next.started || !r.next.finished then NoFinalDelta
    else if !r.next.usage.completeness.Complete? then IncompleteUsage
    else Success
  }

  lemma HandleDone(codec: Codec, includeUsage: bool, s: State, e: Event)
    requires s.failed ==> s.terminal
    ensures var r := Handle(codec, includeUsage, s, e);
      && (Done in r.out ==> r.ok)
      && ((Done in r.out || (s.terminal && !s.failed)) <==> (r.next.terminal && !r.next.failed))
  {}

  /** Over every run, rejected ones included, `[DONE]` is written exactly when the message ended
      without an upstream error. */
  lemma {:induction false} DoneExactly(codec: Codec, includeUsage: bool, events: seq<Option<Event>>)
    ensures var r := Run(codec, includeUsage, events);
      Done in r.out <==> r.next.terminal && !r.next.failed
  {
    if events != [] {
      var init, last := events[..|events| - 1], events[|events| - 1];
      DoneExactly(codec, includeUsage, init);
      var before := Run(codec, includeUsage, init);
      if before.ok && last.Some? {
        FailedIsTerminal(codec, includeUsage, init);
        HandleDone(codec, includeUsage, before.next, last.value);
      }
    }
  }

  lemma FailedIsTerminal(codec: Codec, includeUsage: bool, events: seq<Option<Event>>)
    requires Run(codec, includeUsage, events).ok
    ensures Run(codec, includeUsage, events).next.failed ==> Run(codec, includeUsage, events).next.terminal
  {
    RunPhase(codec, includeUsage, events);
  }

  /** Every successful stream is a word of the chunk language; `[DONE]` is written exactly when
      the message ended without an upstream error, so by no stream that failed upstream or never
      ended; the last two end-of-stream checks never fire. */
  lemma StreamLanguage(codec: Codec, includeUsage: bool, events: seq<Option<Event>>)
    ensures var r := Run(codec, includeUsage, events);
      && (ProxyOutcome(r).Success? ==> InLanguage(r.out, includeUsage))
      && (Done in r.out <==> r.next.terminal && !r.next.failed)
      && (ProxyOutcome(r).UpstreamFailure? || ProxyOutcome(r).NoTerminalEvent? ==> Done !in r.out)
      && !ProxyOutcome(r).NoFinalDelta? && !ProxyOutcome(r).IncompleteUsage?
  {
    RunPhase(codec, includeUsage, events);
    DoneExactly(codec, includeUsage, events);
  }

  /** A successful stream that goes on is rejected, with `[DONE]` already written. */
  lemma {:induction false} DoneThenRejected(codec: Codec, includeUsage: bool, events: seq<Option<Event>>, e: Option<Event>)
    requires ProxyOutcome(Run(codec, includeUsage, events)).Success?
    ensures ProxyOutcome(Run(codec, includeUsage, events + [e])).HandlerError?
    ensures Run(codec, includeUsage, events + [e]).out == Run(codec, includeUsage, events).out
    ensures Done in Run(codec, includeUsage, events + [e]).out
  {
    assert (events + [e])[..|events|] == events;
    StreamLanguage(codec, includeUsage, events);
    var out := Run(codec, includeUsage, events).out;
    assert out + [] == out;
  }

  predicate SucceedsBy(codec: Codec, includeUsage: bool, events: seq<Option<Event>>, n: nat)
    requires n <= |events|
  {
    ProxyOutcome(Run(codec, includeUsage, events[..n])).Success?
  }

  /** What was written stays written, and a rejected stream writes no `[DONE]` of its own. */
  lemma {:induction false} RunStops(codec: Codec, includeUsage: bool, events: seq<Option<Event>>)
    requires events != []
    ensures var before, r := Run(codec, includeUsage, events[..|events| - 1]), Run(codec, includeUsage, events);
      && (Done in before.out ==> Done in r.out)
      && (Done in r.out ==> Done in before.out || ProxyOutcome(r).Success?)
  {
    var init, last := events[..|events| - 1], events[|events| - 1];
    StreamLanguage(codec, includeUsage, events);
    var before := Run(codec, includeUsage, init);
    if before.ok && last.Some? {
      FailedIsTerminal(codec, includeUsage, init);
      HandleDone(codec, includeUsage, before.next, last.value);
    }
  }

  lemma {:induction false} SuccessStays(codec: Codec, includeUsage: bool, events: seq<Option<Event>>, n: nat)
    requires n <= |events| && SucceedsBy(codec, includeUsage, events, n)
    ensures Done in Run(codec, includeUsage, events).out
  {
    if n == |events| {
      assert events[..n] == events;
      DoneExactly(codec, includeUsage, events);
    } else {
      assert events[..|events| - 1][..n] == events[..n];
      SuccessStays(codec, includeUsage, events[..|events| - 1], n);
      RunStops(codec, includeUsage, events);
    }
  }

  lemma {:induction false} DoneHasSuccess(codec: Codec, includeUsage: bool, events: seq<Option<Event>>) returns (n: nat)
    requires Done in Run(codec, includeUsage, events).out
    ensures n <= |events| && SucceedsBy(codec, includeUsage, events, n)
  {
    assert events != [];
    RunStops(codec, includeUsage, events);
    var init := events[..|events| - 1];
    if Done in Run(codec, includeUsage, init).out {
      n := DoneHasSuccess(codec, includeUsage, init);
      assert init[..n] == events[..n];
    } else {
      n := |events|;
      assert events[..n] == events;
    }
  }

  /** `[DONE]` is written if and only if some beginning of the stream is successful by itself. */
  lemma DoneAfterSuccess(codec: Codec, includeUsage: bool, events: seq<Option<Event>>)
    ensures Done in Run(codec, includeUsage, events).out <==>
      exists n :: 0 <= n <= |events| && SucceedsBy(codec, includeUsage, events, n)
  {
    if Done in Run(codec, includeUsage, events).out {
      var n := DoneHasSuccess(codec, includeUsage, events);
    }
    if n :| 0 <= n <= |events| && SucceedsBy(codec, includeUsage, events, n) {
      SuccessStays(codec, includeUsage, events, n);
    }
  }
}
