/**
 Reading chat messages and translating them to Anthropic Messages or Bedrock
 Converse (pkg/gateway/chat_anthropic_translation.go,
 pkg/gateway/chat_bedrock_translation.go).
 */
module ChatMessages {
  import opened Options
  import opened JsonValues
  import opened ChatTurns

  /** What a target accepts: image types, and whether a tool result must be the text of a JSON object. */
  datatype Reader = Reader(
    json: Codec, dataUrl: string -> Option<(string, string)>, mediaTypes: set<string>, objectResults: bool)

  function AnthropicReader(json: Codec, dataUrl: string -> Option<(string, string)>): Reader {
    Reader(json, dataUrl, {"image/jpeg", "image/png", "image/gif", "image/webp"}, false)
  }

  function GeminiReader(json: Codec, dataUrl: string -> Option<(string, string)>): Reader {
    Reader(json, dataUrl, {"image/jpeg", "image/png", "image/webp"}, true)
  }

  function Nonempty(value: Option<string>): Option<string> {
    if value == Some("") then None else value
  }

  function ReadImage(reader: Reader, part: Object): Option<Block> {
    match ObjectField(part, "image_url")
    case None => None
    case Some(image) =>
      if !OnlyFields(part, {"type", "image_url"}) || !OnlyFields(image, {"url"}) then None
      else match Nonempty(StringField(image, "url"))
        case None => None
        case Some(url) =>
          match reader.dataUrl(url)
          case None => None
          case Some((mediaType, data)) =>
            if mediaType !in reader.mediaTypes || data == "" then None else Some(Image(mediaType, data))
  }

  function ReadPart(reader: Reader, part: Json, images: bool): (r: Option<Block>)
    ensures r.Some? ==> IsSpoken(r.value, images)
  {
    if !part.Obj? then None
    else match StringField(part.fields, "type")
      case None => None
      case Some(kind) =>
        if kind == "text" && OnlyFields(part.fields, {"type", "text"}) then
          match Nonempty(StringField(part.fields, "text"))
          case Some(text) => Some(Text(text))
          case None => None
        else if kind == "image_url" && images then
          match ReadImage(reader, part.fields)
          case Some(block) => if block.Image? then Some(block) else None
          case None => None
        else None
  }

  /** A non-empty text, or where they are allowed an image. */
  predicate IsSpoken(b: Block, images: bool) {
    (b.Text? && b.text != "") || (images && b.Image?)
  }

  function ReadParts(reader: Reader, parts: seq<Json>, images: bool): (r: Option<seq<Block>>)
    ensures r.Some? ==> |r.value| == |parts|
    ensures r.Some? ==> forall i :: 0 <= i < |r.value| ==> IsSpoken(r.value[i], images)
  {
    if parts == [] then Some([])
    else match (ReadParts(reader, parts[..|parts| - 1], images), ReadPart(reader, parts[|parts| - 1], images))
      case (Some(blocks), Some(block)) => Some(blocks + [block])
      case _ => None
  }

  /** A string or a non-empty array of parts; only an assistant message may leave its content out. */
  function ReadContent(reader: Reader, message: Object, images: bool, optional: bool): (r: Option<seq<Block>>)
    ensures r.Some? && !optional ==> r.value != []
    ensures r.Some? ==> forall i :: 0 <= i < |r.value| ==> IsSpoken(r.value[i], images)
  {
    if !NonNull(message, "content") then (if optional then Some([]) else None)
    else match message["content"]
      case Str(text) => if text == "" then None else Some([Text(text)])
      case Arr(parts) => if parts == [] then None else ReadParts(reader, parts, images)
      case _ => None
  }

  function ReadCall(reader: Reader, call: Json): (r: Option<Block>)
    ensures r.Some? ==> PlainCall(reader, r.value)
  {
    if !call.Obj? || !OnlyFields(call.fields, {"id", "type", "function"}) then None
    else match (Nonempty(StringField(call.fields, "id")), StringField(call.fields, "type"), ObjectField(call.fields, "function"))
      case (Some(id), Some(kind), Some(function')) =>
        if kind != "function" || !OnlyFields(function', {"name", "arguments"}) then None
        else
          (match (Nonempty(StringField(function', "name")), StringField(function', "arguments"))
           case (Some(name), Some(arguments)) =>
             if EncodesObject(reader.json, arguments) then Some(Call(id, name, arguments, "")) else None
           case _ => None)
      case _ => None
  }

  /** A call as chat has it: with an id and a name, and arguments that are the text of an object. */
  predicate PlainCall(reader: Reader, b: Block) {
    b.Call? && b.id != "" && b.name != "" && b.signature == "" && EncodesObject(reader.json, b.arguments)
  }

  predicate EncodesObject(json: Codec, text: string) {
    json.parse(text).Some? && json.parse(text).value.Obj?
  }

  function ReadCalls(reader: Reader, calls: seq<Json>): (r: Option<seq<Block>>)
    ensures r.Some? ==> |r.value| == |calls| && forall i :: 0 <= i < |r.value| ==> PlainCall(reader, r.value[i])
  {
    if calls == [] then Some([])
    else match (ReadCalls(reader, calls[..|calls| - 1]), ReadCall(reader, calls[|calls| - 1]))
      case (Some(blocks), Some(block)) => Some(blocks + [block])
      case _ => None
  }

  function ReadAssistant(reader: Reader, message: Object): (r: Option<Turn>)
    ensures r.Some? ==> r.value.Assistant? && Good(r.value)
  {
    if !OnlyFields(message, {"role", "content", "tool_calls"}) then None
    else match ReadContent(reader, message, false, true)
      case None => None
      case Some(blocks) =>
        if !NonNull(message, "tool_calls") then (if blocks == [] then None else Some(Assistant(blocks)))
        else match message["tool_calls"]
          case Arr(calls) =>
            (match ReadCalls(reader, calls)
             case Some(more) => if more == [] then None else Some(Assistant(blocks + more))
             case None => None)
          case _ => None
  }

  function Texts(blocks: seq<Block>): seq<string>
    requires forall i :: 0 <= i < |blocks| ==> blocks[i].Text?
  {
    seq(|blocks|, i requires 0 <= i < |blocks| => blocks[i].text)
  }

  function ReadTool(reader: Reader, message: Object): (r: Option<Turn>)
    ensures r.Some? ==> r.value.Tool? && Good(r.value)
  {
    if !OnlyFields(message, {"role", "tool_call_id", "content"}) then None
    else match Nonempty(StringField(message, "tool_call_id"))
      case None => None
      case Some(id) =>
        if reader.objectResults then
          match StringField(message, "content")
          case Some(content) => if EncodesObject(reader.json, content) then Some(Tool(Result(id, "", [content]))) else None
          case None => None
        else
          match ReadContent(reader, message, false, false)
          case Some(blocks) => Some(Tool(Result(id, "", Texts(blocks))))
          case None => None
  }

  /** One chat message; `None` when it is malformed or has no counterpart in the target. */
  function ReadMessage(reader: Reader, message: Json): (r: Option<Turn>)
    ensures r.Some? ==> Good(r.value)
  {
    if !message.Obj? then None
    else match StringField(message.fields, "role")
      case None => None
      case Some(role) =>
        if role == "assistant" then ReadAssistant(reader, message.fields)
        else if role == "tool" then ReadTool(reader, message.fields)
        else if (role != "system" && role != "user") || !OnlyFields(message.fields, {"role", "content"}) then None
        else
          match ReadContent(reader, message.fields, role == "user", false)
          case Some(blocks) => Some(if role == "user" then User(blocks) else System(blocks))
          case None => None
  }

  /** How one message is read: any target's reader that only produces turns with content in their place. */
  type MessageReader = Json -> Option<Turn>

  ghost predicate Sound(read: MessageReader) {
    forall message :: read(message).Some? ==> Good(read(message).value)
  }

  function ReadWith(reader: Reader): MessageReader {
    message => ReadMessage(reader, message)
  }

  lemma ReaderIsSound(reader: Reader)
    ensures Sound(ReadWith(reader))
  {}

  function ReadAll(read: MessageReader, source: seq<Json>): (r: Option<seq<Turn>>)
    ensures r.Some? ==> |r.value| == |source|
  {
    if source == [] then Some([])
    else match (ReadAll(read, source[..|source| - 1]), read(source[|source| - 1]))
      case (Some(turns), Some(turn)) => Some(turns + [turn])
      case _ => None
  }

  /** The system text and messages sent upstream; `None` for a rejected request. */
  function Translate(read: MessageReader, source: seq<Json>): Option<Request> {
    match ReadAll(read, source)
    case Some(turns) => Arrange(turns)
    case None => None
  }

  lemma {:induction false} AllGood(read: MessageReader, source: seq<Json>)
    requires Sound(read) && ReadAll(read, source).Some?
    ensures forall i :: 0 <= i < |source| ==> Good(ReadAll(read, source).value[i])
  {
    if source != [] {
      AllGood(read, source[..|source| - 1]);
    }
  }

  lemma {:induction false} ReadStuck(read: MessageReader, source: seq<Json>, n: nat)
    requires n <= |source| && ReadAll(read, source[..n]).None?
    ensures ReadAll(read, source).None?
    decreases |source| - n
  {
    if n == |source| {
      assert source[..n] == source;
    } else {
      assert source[..n + 1][..n] == source[..n];
      ReadStuck(read, source, n + 1);
    }
  }

  /** A rejected beginning rejects the request. */
  lemma {:induction false} RunStuck(read: MessageReader, source: seq<Json>, n: nat)
    requires n <= |source| && ReadAll(read, source[..n]).Some? && Run(ReadAll(read, source[..n]).value).None?
    ensures Translate(read, source).None?
    decreases |source| - n
  {
    if n == |source| {
      assert source[..n] == source;
    } else {
      assert source[..n + 1][..n] == source[..n];
      if ReadAll(read, source[..n + 1]).Some? {
        var turns, next := ReadAll(read, source[..n]).value, read(source[n]).value;
        RunAppend(turns, next);
        RunStuck(read, source, n + 1);
      } else {
        ReadStuck(read, source, n + 1);
      }
    }
  }

  /** One message's branch of the loop.  The message is placed exactly when it may follow the
      one before it, and then the result says what it said before and this message. */
  method AddTurn(s: State, turn: Turn) returns (r: Option<State>)
    requires Remembers(s) && Alternating(s.messages) && Good(turn)
    ensures r == Step(s, turn)
    ensures r.Some? <==> if s.previous.None? then !turn.Tool? else Follows(s.previous.value, turn)
    ensures r.Some? ==> Remembers(r.value) && Alternating(r.value.messages)
    ensures r.Some? ==>
      Rebuild(r.value.messages) == if turn.System? then Rebuild(s.messages) else Rebuild(s.messages) + [turn]
  {
    StepAccepts(s, turn);
    if Step(s, turn).Some? { StepKeeps(s, turn); }
    var messages := s.messages;
    match turn {
      case System(texts) =>
        if s.conversing { return None; }
        return Some(State(s.system + texts, messages, false, Some(turn)));
      case User(parts) =>
        if messages != [] && messages[|messages| - 1].role == UserRole { return None; }
        messages := messages + [Message(UserRole, parts)];
      case Assistant(blocks) =>
        if messages != [] && messages[|messages| - 1].role == AssistantRole { return None; }
        messages := messages + [Message(AssistantRole, blocks)];
      case Tool(result) =>
        if s.previous.None? || !(s.previous.value.Assistant? || s.previous.value.Tool?) { return None; }
        if s.previous.value.Tool? {
          messages := AppendToLast(messages, result);
        } else {
          messages := messages + [Message(UserRole, [result])];
        }
    }
    return Some(State(s.system, messages, true, Some(turn)));
  }

  /** The translation loop over the messages of a request. */
  method TranslateMessages(read: MessageReader, source: seq<Json>) returns (r: Option<Request>)
    requires Sound(read)
    ensures r == Translate(read, source)
  {
    var s := START;
    ghost var turns: seq<Turn> := [];
    for i := 0 to |source|
      invariant ReadAll(read, source[..i]) == Some(turns) && Run(turns) == Some(s)
      invariant Remembers(s) && Alternating(s.messages)
    {
      assert source[..i + 1][..i] == source[..i];
      var turn := read(source[i]);
      if turn.None? {
        ReadStuck(read, source, i + 1);
        return None;
      }
      RunAppend(turns, turn.value);
      turns := turns + [turn.value];
      var next := AddTurn(s, turn.value);
      if next.None? {
        RunStuck(read, source, i + 1);
        return None;
      }
      s := next.value;
    }
    assert source[..|source|] == source;
    if s.messages == [] { return None; }
    return Some(Request(s.system, s.messages));
  }

  /** A request is accepted exactly when its messages can be read and each may follow the one before. */
  lemma AcceptedMessages(read: MessageReader, source: seq<Json>)
    requires Sound(read)
    ensures Translate(read, source).Some? <==>
      var turns := ReadAll(read, source);
      turns.Some? && source != [] && InOrder(turns.value) && !turns.value[|source| - 1].System?
  {
    if ReadAll(read, source).Some? {
      AllGood(read, source);
      AcceptedExactly(ReadAll(read, source).value);
    }
  }

  /** Two requests with one translation hold the same system text and the same conversation. */
  lemma NoTwoConversationsCollapse(read: MessageReader, a: seq<Json>, b: seq<Json>)
    requires Sound(read) && Translate(read, a).Some? && Translate(read, a) == Translate(read, b)
    ensures var turns, turns' := ReadAll(read, a).value, ReadAll(read, b).value;
      SystemText(turns) == SystemText(turns') && Conversation(turns) == Conversation(turns')
  {
    AllGood(read, a);
    AllGood(read, b);
    ReadsBack(ReadAll(read, a).value);
    ReadsBack(ReadAll(read, b).value);
  }
}
