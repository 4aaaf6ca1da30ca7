/**
 The stream translator from Bedrock ConverseStream messages to Chat Completions
 chunks (pkg/gateway/chat_bedrock_translation.go).
 */
module BedrockStream {
  import opened Options
  import opened JsonValues
  import opened ChatChunks

  /** An event-stream message: two of its headers, and its payload if that is valid JSON. */
  datatype StreamMessage = StreamMessage(messageType: string, eventType: string, payload: Option<Json>)

  datatype Event =
    | Exception(message: string)
    | MessageStart
    | ToolBlockStart(index: int, id: string, name: string)
    | TextDelta(index: int, text: string)
    | ToolDelta(index: int, input: string)
    | BlockStop
    | MessageStop(reason: string)
    | Metadata(report: Json, usage: ChatUsage)

  /** A struct decodes from an object or from `null`, which sets no field. */
  function StructFields(payload: Json): Option<Object> {
    match payload
    case Obj(o) => Some(o)
    case Null => Some(map[])
    case _ => None
  }

  /** `contentBlockIndex` defaults to zero and must not be negative. */
  function BlockIndex(o: Object): Option<int> {
    if "contentBlockIndex" !in o then Some(0)
    else match IntField(o, "contentBlockIndex")
      case Some(i) => if i < 0 then None else Some(i)
      case None => None
  }

  /** A nested struct field: absent and `null` leave it empty. */
  function Nested(o: Object, key: string): Option<Object> {
    if !NonNull(o, key) then Some(map[]) else ObjectField(o, key)
  }

  function DecodeBlockStart(o: Object): Option<Event> {
    match (BlockIndex(o), Nested(o, "start"))
    case (Some(index), Some(start)) =>
      (match ObjectField(start, "toolUse")
       case Some(tool) =>
         (match (StructString(tool, "toolUseId"), StructString(tool, "name"))
          case (Some(id), Some(name)) =>
            if id == "" || name == "" then None else Some(ToolBlockStart(index, id, name))
          case _ => None)
       case None => None)
    case _ => None
  }

  /** A delta carries either text or tool input, not both. */
  function DecodeBlockDelta(o: Object): Option<Event> {
    match (BlockIndex(o), Nested(o, "delta"))
    case (Some(index), Some(delta)) =>
      if NonNull(delta, "text") == NonNull(delta, "toolUse") then None
      else if NonNull(delta, "text") then
        (match delta["text"]
         case Str(text) => Some(TextDelta(index, text))
         case _ => None)
      else
        (match delta["toolUse"]
         case Obj(tool) =>
           (match StructString(tool, "input")
            case Some(input) => Some(ToolDelta(index, input))
            case None => None)
         case _ => None)
    case _ => None
  }

  function ExceptionMessage(payload: Option<Json>): string {
    match payload
    case Some(Obj(o)) =>
      (match StringField(o, "message")
       case Some(m) => if m == "" then "the upstream Bedrock stream failed" else m
       case None => "the upstream Bedrock stream failed")
    case _ => "the upstream Bedrock stream failed"
  }

  /** The usage object of a payload, if there is one that `decodeUsage` accepts. */
  function UsageOf(decodeUsage: Json -> Option<ChatUsage>, payload: Json): Option<(Json, ChatUsage)> {
    if !payload.Obj? || !NonNull(payload.fields, "usage") then None
    else match decodeUsage(payload.fields["usage"])
      case Some(usage) => Some((payload.fields["usage"], usage))
      case None => None
  }

  function DecodeEvent(decodeUsage: Json -> Option<ChatUsage>, kind: string, payload: Json): Option<Event> {
    if kind == "metadata" then
      (match UsageOf(decodeUsage, payload)
       case Some((report, usage)) => Some(Metadata(report, usage))
       case None => None)
    else match StructFields(payload)
      case None => None
      case Some(o) =>
        if kind == "messageStart" then
          if StructString(o, "role") == Some("assistant") then Some(MessageStart) else None
        else if kind == "contentBlockStart" then DecodeBlockStart(o)
        else if kind == "contentBlockDelta" then DecodeBlockDelta(o)
        else if kind == "contentBlockStop" then (if BlockIndex(o).Some? then Some(BlockStop) else None)
        else if kind == "messageStop" then
          (match StructString(o, "stopReason") case Some(r) => Some(MessageStop(r)) case None => None)
        else None
  }

  function Decode(decodeUsage: Json -> Option<ChatUsage>, m: StreamMessage): Option<Event> {
    if m.messageType == "exception" then Some(Exception(ExceptionMessage(m.payload)))
    else if m.messageType != "" && m.messageType != "event" then None
    else match m.payload
      case Some(payload) => DecodeEvent(decodeUsage, m.eventType, payload)
      case None => None
  }

  function FinishReason(reason: string): Option<string> {
    if reason == "end_turn" || reason == "stop_sequence" then Some("stop")
    else if reason == "max_tokens" || reason == "model_context_window_exceeded" then Some("length")
    else if reason == "tool_use" then Some("tool_calls")
    else if reason == "content_filtered" || reason == "guardrail_intervened" then Some("content_filter")
    else None
  }

  // -------------------------------------------------------------------------
  // State and transitions

  datatype State = State(
    started: bool, stopped: bool, sawUsage: bool, toolIndexes: map<int, nat>, nextTool: nat)

  const INITIAL := State(false, false, false, map[], 0)

  datatype Status = Reading | Excepted | Rejected

  datatype Reply = Reply(next: State, out: seq<Chunk>, status: Status)

  function Reject(s: State): Reply { Reply(s, [], Rejected) }

  function Handle(s: State, e: Event, includeUsage: bool): Reply {
    match e
    case Exception(m) => Reply(s, [Error(m)], Excepted)
    case MessageStart =>
      if s.started || s.stopped then Reject(s) else Reply(s.(started := true), [Role], Reading)
    case ToolBlockStart(index, id, name) =>
      if !s.started || s.stopped || index in s.toolIndexes then Reject(s)
      else
        Reply(s.(toolIndexes := s.toolIndexes[index := s.nextTool], nextTool := s.nextTool + 1),
              [ToolStart(s.nextTool, id, name, "")], Reading)
    case TextDelta(_, text) =>
      if !s.started || s.stopped then Reject(s) else Reply(s, [Content(text)], Reading)
    case ToolDelta(index, input) =>
      if !s.started || s.stopped || index !in s.toolIndexes then Reject(s)
      else Reply(s, [ToolArguments(s.toolIndexes[index], input)], Reading)
    case BlockStop => if !s.started || s.stopped then Reject(s) else Reply(s, [], Reading)
    case MessageStop(reason) =>
      if !s.started || s.stopped then Reject(s)
      else
        (match FinishReason(reason)
         case Some(finish) => Reply(s.(stopped := true), [Finish(finish)], Reading)
         case None => Reject(s))
    case Metadata(_, usage) =>
      if !s.stopped || s.sawUsage then Reject(s)
      else Reply(s.(sawUsage := true), if includeUsage then [Usage(usage)] else [], Reading)
  }

  function Run(events: seq<Option<Event>>, includeUsage: bool): Reply {
    if events == [] then Reply(INITIAL, [], Reading)
    else
      var before := Run(events[..|events| - 1], includeUsage);
      if !before.status.Reading? then before
      else match events[|events| - 1]
        case None => before.(status := Rejected)
        case Some(e) =>
          var r := Handle(before.next, e, includeUsage);
          Reply(r.next, before.out + r.out, r.status)
  }

  predicate Succeeds(r: Reply, includeUsage: bool) {
    r.status.Reading? && r.next.stopped && (includeUsage ==> r.next.sawUsage)
  }

  function ProxyOutput(r: Reply, includeUsage: bool): seq<Chunk> {
    if Succeeds(r, includeUsage) then r.out + [Done] else r.out
  }

  // -------------------------------------------------------------------------
  // The output language

  predicate Phase(s: State, out: seq<Chunk>, includeUsage: bool) {
    && (forall i :: i in s.toolIndexes ==> s.toolIndexes[i] < s.nextTool)
    && if !s.started then !s.stopped && !s.sawUsage && out == [] && s.nextTool == 0
       else if !s.stopped then !s.sawUsage && Open(out, s.nextTool)
       else if includeUsage && s.sawUsage then Accounted(out, s.nextTool, true)
       else Finished(out, s.nextTool)
  }

  lemma HandlePhase(s: State, out: seq<Chunk>, e: Event, includeUsage: bool)
    requires Phase(s, out, includeUsage) && Handle(s, e, includeUsage).status.Reading?
    ensures var r := Handle(s, e, includeUsage); Phase(r.next, out + r.out, includeUsage)
  {
    var r := Handle(s, e, includeUsage);
    match e {
      case MessageStart => assert out + r.out == [Role];
      case ToolBlockStart(_, id, name) => OpenTool(out, s.nextTool, id, name, "");
      case TextDelta(_, text) => OpenContent(out, s.nextTool, text);
      case ToolDelta(i, input) => OpenArguments(out, s.nextTool, s.toolIndexes[i], input);
      case BlockStop => assert out + r.out == out;
      case MessageStop(reason) => OpenFinish(out, s.nextTool, FinishReason(reason).value);
      case Metadata(_, usage) =>
        if includeUsage { assert (out + r.out)[..|out|] == out; } else { assert out + r.out == out; }
    }
  }

  lemma HandlersWriteNoDone(s: State, e: Event, includeUsage: bool)
    ensures Done !in Handle(s, e, includeUsage).out
  {}

  lemma {:induction false} RunPhase(events: seq<Option<Event>>, includeUsage: bool)
    ensures var r := Run(events, includeUsage);
      Done !in r.out && (r.status.Reading? ==> Phase(r.next, r.out, includeUsage))
  {
    if events != [] {
      RunPhase(events[..|events| - 1], includeUsage);
      var before, last := Run(events[..|events| - 1], includeUsage), events[|events| - 1];
      if last.Some? { HandlersWriteNoDone(before.next, last.value, includeUsage); }
      if Run(events, includeUsage).status.Reading? {
        HandlePhase(before.next, before.out, last.value, includeUsage);
      }
    }
  }

  /** Every successful stream is a word of the chunk language, and no other
      stream writes `[DONE]`. */
  lemma StreamLanguage(events: seq<Option<Event>>, includeUsage: bool)
    ensures var r := Run(events, includeUsage);
      if Succeeds(r, includeUsage) then InLanguage(ProxyOutput(r, includeUsage), includeUsage)
      else Done !in ProxyOutput(r, includeUsage)
  {
    RunPhase(events, includeUsage);
    var r := Run(events, includeUsage);
    if Succeeds(r, includeUsage) { DoneInLanguage(r.out, r.next.nextTool, includeUsage); }
  }

  // -------------------------------------------------------------------------
  // The loop

  lemma {:induction false} RunStuck(events: seq<Option<Event>>, includeUsage: bool, n: nat)
    requires n <= |events| && !Run(events[..n], includeUsage).status.Reading?
    ensures Run(events, includeUsage) == Run(events[..n], includeUsage)
    decreases |events|
  {
    if n == |events| {
      assert events[..n] == events;
    } else {
      assert events[..|events| - 1][..n] == events[..n];
      RunStuck(events[..|events| - 1], includeUsage, n);
    }
  }

  type Decoder = StreamMessage -> Option<Event>

  function BedrockDecoder(decodeUsage: Json -> Option<ChatUsage>): Decoder {
    message => Decode(decodeUsage, message)
  }

  function DecodeAll(decode: Decoder, messages: seq<StreamMessage>): seq<Option<Event>> {
    seq(|messages|, i requires 0 <= i < |messages| => decode(messages[i]))
  }

  class Translator {
    const includeUsage: bool
    const decode: Decoder
    var started: bool
    var stopped: bool
    var sawUsage: bool
    var toolIndexes: map<int, nat>
    var nextTool: nat
    var destination: seq<Chunk>

    function View(): State
      reads this
    {
      State(started, stopped, sawUsage, toolIndexes, nextTool)
    }

    constructor (includeUsage: bool, decodeUsage: Json -> Option<ChatUsage>)
      ensures View() == INITIAL && destination == []
      ensures this.includeUsage == includeUsage && decode == BedrockDecoder(decodeUsage)
    {
      this.includeUsage := includeUsage;
      decode := BedrockDecoder(decodeUsage);
      started, stopped, sawUsage := false, false, false;
      toolIndexes, nextTool := map[], 0;
      destination := [];
    }

    method WriteChunk(c: Chunk)
      modifies this`destination
      ensures destination == old(destination) + [c]
    {
      destination := destination + [c];
    }

    /** Announces a tool under the next index; a block index is announced once. */
    method HandleToolStart(index: int, id: string, name: string) returns (ok: bool)
      modifies this`toolIndexes, this`nextTool, this`destination
      ensures var r := Handle(old(View()), ToolBlockStart(index, id, name), includeUsage);
        View() == r.next && destination == old(destination) + r.out && ok == r.status.Reading?
    {
      if !started || stopped || index in toolIndexes { return false; }
      WriteChunk(ToolStart(nextTool, id, name, ""));
      toolIndexes := toolIndexes[index := nextTool];
      nextTool := nextTool + 1;
      return true;
    }

    method HandleEvent(e: Event) returns (status: Status)
      modifies this`started, this`stopped, this`sawUsage, this`toolIndexes, this`nextTool, this`destination
      ensures var r := Handle(old(View()), e, includeUsage);
        View() == r.next && destination == old(destination) + r.out && status == r.status
    {
      match e {
        case Exception(message) =>
          WriteChunk(Error(message));
          return Excepted;
        case MessageStart =>
          if started || stopped { return Rejected; }
          started := true;
          WriteChunk(Role);
        case ToolBlockStart(index, id, name) =>
          var ok := HandleToolStart(index, id, name);
          if !ok { return Rejected; }
        case TextDelta(_, text) =>
          if !started || stopped { return Rejected; }
          WriteChunk(Content(text));
        case ToolDelta(index, input) =>
          if !started || stopped || index !in toolIndexes { return Rejected; }
          WriteChunk(ToolArguments(toolIndexes[index], input));
        case BlockStop =>
          if !started || stopped { return Rejected; }
        case MessageStop(reason) =>
          var finish := FinishReason(reason);
          if !started || stopped || finish.None? { return Rejected; }
          stopped := true;
          WriteChunk(Finish(finish.value));
        case Metadata(_, usage) =>
          if !stopped || sawUsage { return Rejected; }
          sawUsage := true;
          if includeUsage { WriteChunk(Usage(usage)); }
      }
      return Reading;
    }

    /** Translates a whole stream; exactly the successful ones end in `[DONE]`. */
    method Proxy(messages: seq<StreamMessage>) returns (ok: bool)
      requires View() == INITIAL && destination == []
      modifies this
      ensures var r := Run(DecodeAll(decode, messages), includeUsage);
        && destination == ProxyOutput(r, includeUsage)
        && (ok <==> r.status.Excepted? || Succeeds(r, includeUsage))
        && (if Succeeds(r, includeUsage) then InLanguage(destination, includeUsage) else Done !in destination)
    {
      ghost var events := DecodeAll(decode, messages);
      StreamLanguage(events, includeUsage);
      for i := 0 to |messages|
        invariant Run(events[..i], includeUsage) == Reply(View(), destination, Reading)
      {
        assert events[..i + 1][..i] == events[..i];
        var event := decode(messages[i]);
        if event.None? {
          RunStuck(events, includeUsage, i + 1);
          return false;
        }
        var status := HandleEvent(event.value);
        if !status.Reading? {
          RunStuck(events, includeUsage, i + 1);
          return status.Excepted?;
        }
      }
      assert events[..|events|] == events;
      if !stopped || (includeUsage && !sawUsage) { return false; }
      WriteChunk(Done);
      return true;
    }
  }
}
