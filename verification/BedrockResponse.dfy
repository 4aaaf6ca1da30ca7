/**
 The buffered translator from a Bedrock Converse response to a Chat Completions
 response (pkg/gateway/chat_bedrock_translation.go).
 */
module BedrockResponse {
  import opened Options
  import opened JsonValues
  import opened ChatChunks
  import opened BedrockStream

  datatype Part = TextPart(text: string) | CallPart(call: ToolCall)

  datatype Collected = Collected(text: string, calls: seq<ToolCall>)

  function ActiveFields(block: Object): set<string> {
    set k | k in block && !block[k].Null?
  }

  /** A tool use with an identity and an object as input; the arguments are the text of that object. */
  function TranslateTool(codec: Codec, tool: Object): Option<Part> {
    match (StructString(tool, "toolUseId"), StructString(tool, "name"), ObjectField(tool, "input"))
    case (Some(id), Some(name), Some(input)) =>
      if id == "" || name == "" then None else Some(CallPart(ToolCall(id, name, codec.marshal(Obj(input)))))
    case _ => None
  }

  /** A block holds exactly one of text and tool use. */
  function TranslateBlock(codec: Codec, block: Json): Option<Part> {
    if !block.Obj? then None
    else if ActiveFields(block.fields) == {"text"} && "text" in block.fields then
      (match block.fields["text"]
       case Str(text) => Some(TextPart(text))
       case _ => None)
    else if ActiveFields(block.fields) == {"toolUse"} && "toolUse" in block.fields then
      (match block.fields["toolUse"]
       case Obj(tool) => TranslateTool(codec, tool)
       case _ => None)
    else None
  }

  function Add(c: Collected, p: Part): Collected {
    match p
    case TextPart(text) => c.(text := c.text + text)
    case CallPart(call) => c.(calls := c.calls + [call])
  }

  function Collect(codec: Codec, blocks: seq<Json>): Option<Collected> {
    if blocks == [] then Some(Collected("", []))
    else
      match (Collect(codec, blocks[..|blocks| - 1]), TranslateBlock(codec, blocks[|blocks| - 1]))
      case (Some(c), Some(p)) => Some(Add(c, p))
      case _ => None
  }

  /** `content` decoded as an array of objects; `null` items survive decoding. */
  function ContentItems(message: Object): Option<seq<Json>> {
    if !NonNull(message, "content") then Some([])
    else match message["content"]
      case Arr(items) =>
        if forall i :: 0 <= i < |items| ==> items[i].Obj? || items[i].Null? then Some(items) else None
      case _ => None
  }

  /** The output message of a response, if it decodes. */
  function OutputMessage(body: Object): Option<Object> {
    match Nested(body, "output")
    case Some(output) => Nested(output, "message")
    case None => None
  }

  /** The content of an assistant's output message. */
  function OutputContent(body: Object): Option<seq<Json>> {
    match OutputMessage(body)
    case None => None
    case Some(message) =>
      if StructString(message, "role") != Some("assistant") then None else ContentItems(message)
  }

  function Translate(codec: Codec, decodeUsage: Json -> Option<ChatUsage>, body: Json): Option<Completion> {
    match UsageOf(decodeUsage, body)
    case None => None
    case Some((_, usage)) =>
      match (OutputContent(body.fields), StructString(body.fields, "stopReason"))
      case (Some(items), Some(reason)) =>
        (match (Collect(codec, items), FinishReason(reason))
         case (Some(c), Some(finish)) =>
           Some(Completion(if c.text == "" then None else Some(c.text), c.calls, finish, usage))
         case _ => None)
      case _ => None
  }

  lemma {:induction false} CollectPrefix(codec: Codec, blocks: seq<Json>, n: nat)
    requires n <= |blocks| && Collect(codec, blocks[..n]).None?
    ensures Collect(codec, blocks).None?
  {
    if n == |blocks| {
      assert blocks[..n] == blocks;
    } else {
      assert blocks[..|blocks| - 1][..n] == blocks[..n];
      CollectPrefix(codec, blocks[..|blocks| - 1], n);
    }
  }

  /** The translator's loop over the content blocks. */
  method TranslateResponse(codec: Codec, decodeUsage: Json -> Option<ChatUsage>, body: Json) returns (r: Option<Completion>)
    ensures r == Translate(codec, decodeUsage, body)
  {
    var usage := UsageOf(decodeUsage, body);
    if usage.None? { return None; }
    var items, reason := OutputContent(body.fields), StructString(body.fields, "stopReason");
    if items.None? || reason.None? { return None; }
    var content: string, calls: seq<ToolCall> := "", [];
    var source := items.value;
    for i := 0 to |source|
      invariant Collect(codec, source[..i]) == Some(Collected(content, calls))
    {
      assert source[..i + 1][..i] == source[..i];
      var part := TranslateBlock(codec, source[i]);
      if part.None? {
        CollectPrefix(codec, source, i + 1);
        return None;
      }
      match part.value {
        case TextPart(text) => content := content + text;
        case CallPart(call) => calls := calls + [call];
      }
    }
    assert source[..|source|] == source;
    var finish := FinishReason(reason.value);
    if finish.None? { return None; }
    return Some(Completion(if content == "" then None else Some(content), calls, finish.value, usage.value.1));
  }
}
