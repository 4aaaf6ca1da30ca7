/**
 The buffered translator from an Anthropic message to a Chat Completions
 response (pkg/gateway/chat_anthropic_translation.go).  Error texts are not
 modelled: `None` stands for every rejected response.
 */
module AnthropicResponse {
  import opened Options
  import opened JsonValues
  import opened ChatChunks
  import AnthropicUsage

  const MESSAGE_FIELDS := {"id", "type", "role", "model", "content", "stop_reason", "stop_sequence", "usage"}
  const TEXT_FIELDS := {"type", "text", "citations"}
  const TOOL_FIELDS := {"type", "id", "name", "input"}

  function FinishReason(reason: string): Option<string> {
    if reason == "end_turn" || reason == "stop_sequence" then Some("stop")
    else if reason == "max_tokens" || reason == "model_context_window_exceeded" then Some("length")
    else if reason == "tool_use" then Some("tool_calls")
    else if reason == "refusal" then Some("content_filter")
    else None
  }

  /** Tool calls are present exactly when the finish reason says so. */
  predicate Consistent(finish: string, calls: nat) {
    finish == "tool_calls" <==> calls != 0
  }

  /** A text block that carries no citations. */
  predicate IsText(block: Object) {
    && StringField(block, "type") == Some("text")
    && OnlyFields(block, TEXT_FIELDS)
    && !Active(block, "citations")
  }

  /** A tool_use block with a complete identity. */
  predicate IsTool(block: Object) {
    && StringField(block, "type") == Some("tool_use")
    && OnlyFields(block, TOOL_FIELDS)
    && StringField(block, "id").Some? && StringField(block, "id").value != ""
    && StringField(block, "name").Some? && StringField(block, "name").value != ""
  }

  datatype Part = TextPart(text: string) | CallPart(call: ToolCall)

  function TranslateBlock(codec: Codec, block: Json): Option<Part> {
    if !block.Obj? then None
    else
      var b := block.fields;
      if IsText(b) then
        match StringField(b, "text")
        case Some(text) => Some(TextPart(text))
        case None => None
      else if IsTool(b) then
        match ObjectField(b, "input")
        case Some(input) =>
          Some(CallPart(ToolCall(StringField(b, "id").value, StringField(b, "name").value,
                                 codec.marshal(Obj(input)))))
        case None => None
      else None
  }

  datatype Collected = Collected(text: string, calls: seq<ToolCall>)

  function Add(c: Collected, p: Part): Collected {
    match p
    case TextPart(text) => c.(text := c.text + text)
    case CallPart(call) => c.(calls := c.calls + [call])
  }

  /** The text and tool calls of a content array, in array order. */
  function Collect(codec: Codec, blocks: seq<Json>): Option<Collected> {
    if blocks == [] then Some(Collected("", []))
    else
      match (Collect(codec, blocks[..|blocks| - 1]), TranslateBlock(codec, blocks[|blocks| - 1]))
      case (Some(c), Some(p)) => Some(Add(c, p))
      case _ => None
  }

  /** `content` decoded as an array of objects; `null` items survive decoding. */
  function ContentItems(envelope: Object): Option<seq<Json>> {
    if !NonNull(envelope, "content") then Some([])
    else match envelope["content"]
      case Arr(items) =>
        if forall i :: 0 <= i < |items| ==> items[i].Obj? || items[i].Null? then Some(items) else None
      case _ => None
  }

  /** The envelope is an assistant message with complete usage. */
  predicate IsMessage(envelope: Object) {
    && OnlyFields(envelope, MESSAGE_FIELDS)
    && StructString(envelope, "id").Some? && StructString(envelope, "id").value != ""
    && StructString(envelope, "type") == Some("message")
    && StructString(envelope, "role") == Some("assistant")
    && StructString(envelope, "model").Some? && StructString(envelope, "model").value != ""
    && StructString(envelope, "stop_reason").Some?
    && AnthropicUsage.Extract(envelope).Some?
    && AnthropicUsage.Parse(AnthropicUsage.Extract(envelope).value).completeness.Complete?
  }

  function Present(c: Collected, finish: string, usage: AnthropicUsage.TokenUsage): Completion {
    Completion(if c.text == "" then None else Some(c.text), c.calls, finish, AnthropicUsage.ToChat(usage))
  }

  function Translate(codec: Codec, body: Json): Option<Completion> {
    if !body.Obj? || !IsMessage(body.fields) || ContentItems(body.fields).None? then None
    else
      var envelope := body.fields;
      var usage := AnthropicUsage.Parse(AnthropicUsage.Extract(envelope).value);
      match (Collect(codec, ContentItems(envelope).value), FinishReason(StructString(envelope, "stop_reason").value))
      case (Some(c), Some(finish)) =>
        if Consistent(finish, |c.calls|) then Some(Present(c, finish, usage)) else None
      case _ => None
  }

  /** The translator's loop over the content blocks. */
  method TranslateResponse(codec: Codec, body: Json) returns (r: Option<Completion>)
    ensures r == Translate(codec, body)
  {
    if !body.Obj? { return None; }
    var envelope := body.fields;
    if !IsMessage(envelope) { return None; }
    var source := ContentItems(envelope);
    if source.None? { return None; }
    var text := "";
    var calls: seq<ToolCall> := [];
    var blocks := source.value;
    for i := 0 to |blocks|
      invariant Collect(codec, blocks[..i]) == Some(Collected(text, calls))
    {
      assert blocks[..i + 1][..i] == blocks[..i];
      var part := TranslateBlock(codec, blocks[i]);
      match part {
        case None =>
          CollectPrefix(codec, blocks, i + 1);
          return None;
        case Some(TextPart(t)) => text := text + t;
        case Some(CallPart(call)) => calls := calls + [call];
      }
    }
    assert blocks[..|blocks|] == blocks;
    var finish := FinishReason(StructString(envelope, "stop_reason").value);
    if finish.None? { return None; }
    if !Consistent(finish.value, |calls|) { return None; }
    return Some(Completion(
        if text == "" then None else Some(text), calls, finish.value,
        AnthropicUsage.ToChat(AnthropicUsage.Parse(AnthropicUsage.Extract(envelope).value))));
  }

  /** A content array is rejected as soon as one of its prefixes is. */
  lemma {:induction false} CollectPrefix(codec: Codec, blocks: seq<Json>, n: nat)
    requires n <= |blocks| && Collect(codec, blocks[..n]).None?
    ensures Collect(codec, blocks).None?
    decreases |blocks|
  {
    if n == |blocks| {
      assert blocks[..n] == blocks;
    } else {
      assert blocks[..|blocks| - 1][..n] == blocks[..n];
      CollectPrefix(codec, blocks[..|blocks| - 1], n);
    }
  }
}
