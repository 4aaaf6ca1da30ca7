/**
 Gemini GenerateContent responses: payload decoding, candidate parsing and the
 buffered translator (pkg/gateway/chat_gemini_translation.go).
 */
module GeminiResponse {
  import opened Options
  import opened JsonValues
  import opened ChatChunks

  datatype TokenUsage = TokenUsage(
    input: Option<int>, output: Option<int>, total: Option<int>,
    cached: Option<int>, reasoning: Option<int>, toolUse: Option<int>)
  {
    predicate Complete() { input.Some? && output.Some? && total.Some? }
  }

  const MISSING := TokenUsage(None, None, None, None, None, None)

  function Later(current: Option<int>, next: Option<int>): Option<int> {
    if next.Some? then next else current
  }

  function MergeUsage(current: TokenUsage, next: TokenUsage): TokenUsage {
    TokenUsage(
      Later(current.input, next.input), Later(current.output, next.output), Later(current.total, next.total),
      Later(current.cached, next.cached), Later(current.reasoning, next.reasoning),
      Later(current.toolUse, next.toolUse))
  }

  function Tokens(value: Option<int>): int {
    if value.Some? then value.value else 0
  }

  function ToChat(u: TokenUsage): ChatUsage {
    ChatUsage(Tokens(u.input), Tokens(u.output), Tokens(u.total), u.cached, u.reasoning)
  }

  /** JSON text, the signed tool-call id encoding, and the decoding of `usageMetadata`. */
  datatype GeminiCodec = GeminiCodec(
    json: Codec, encodeId: (string, string) -> string, decodeUsage: Json -> Option<TokenUsage>)

  // -------------------------------------------------------------------------
  // Parts

  datatype Item = TextItem(text: string) | CallItem(call: ToolCall)

  const PART_FIELDS := {
    "text", "inlineData", "functionCall", "functionResponse", "fileData", "executableCode",
    "codeExecutionResult", "thought", "thoughtSignature", "videoMetadata"}
  const UNREPRESENTABLE := {
    "inlineData", "functionResponse", "fileData", "executableCode", "codeExecutionResult", "videoMetadata"}

  /** A function call with a complete identity and an object of arguments. */
  function ParseCall(g: GeminiCodec, call: Object, signature: string): Option<ToolCall> {
    if !OnlyFields(call, {"id", "name", "args"}) then None
    else match (StringField(call, "id"), StringField(call, "name"), ObjectField(call, "args"))
      case (Some(id), Some(name), Some(args)) =>
        if id == "" || name == "" then None
        else Some(ToolCall(if signature == "" then id else g.encodeId(id, signature), name,
                           g.json.marshal(Obj(args))))
      case _ => None
  }

  /** The thought signature of a part: "" when absent, `None` when unusable. */
  function Signature(part: Object): Option<string> {
    if !NonNull(part, "thoughtSignature") then Some("")
    else match part["thoughtSignature"]
      case Str(s) => if s == "" || !NonNull(part, "functionCall") then None else Some(s)
      case _ => None
  }

  /** A part holds exactly one of text and function call. */
  function ParsePart(g: GeminiCodec, part: Json): Option<Item> {
    if !part.Obj? then None
    else
      var p := part.fields;
      if !OnlyFields(p, PART_FIELDS) || ("thought" in p && p["thought"] == Bool(true)) || Signature(p).None?
         || (exists f :: f in UNREPRESENTABLE && NonNull(p, f))
         || NonNull(p, "text") == NonNull(p, "functionCall")
      then None
      else if NonNull(p, "text") then
        (match p["text"]
         case Str(text) => Some(TextItem(text))
         case _ => None)
      else
        match p["functionCall"]
        case Obj(call) =>
          (match ParseCall(g, call, Signature(p).value)
           case Some(c) => Some(CallItem(c))
           case None => None)
        case _ => None
  }

  /** Text and tool calls of a candidate; call ids are distinct. */
  datatype Candidate = Candidate(text: string, calls: seq<ToolCall>)

  function Ids(calls: seq<ToolCall>): set<string> {
    set i | 0 <= i < |calls| :: calls[i].id
  }

  function AddItem(c: Candidate, item: Item): Option<Candidate> {
    match item
    case TextItem(text) => Some(c.(text := c.text + text))
    case CallItem(call) => if call.id in Ids(c.calls) then None else Some(c.(calls := c.calls + [call]))
  }

  function ParseParts(g: GeminiCodec, parts: seq<Json>): Option<Candidate> {
    if parts == [] then Some(Candidate("", []))
    else
      match (ParseParts(g, parts[..|parts| - 1]), ParsePart(g, parts[|parts| - 1]))
      case (Some(c), Some(item)) => AddItem(c, item)
      case _ => None
  }

  /** The parser's loop over the parts, with its set of ids seen so far. */
  method ParseCandidate(g: GeminiCodec, parts: seq<Json>) returns (r: Option<Candidate>)
    ensures r == ParseParts(g, parts)
  {
    var seenIds: set<string> := {};
    var text := "";
    var calls: seq<ToolCall> := [];
    for i := 0 to |parts|
      invariant ParseParts(g, parts[..i]) == Some(Candidate(text, calls))
      invariant seenIds == Ids(calls)
    {
      assert parts[..i + 1][..i] == parts[..i];
      var item := ParsePart(g, parts[i]);
      match item {
        case None =>
          PrefixRejected(g, parts, i + 1);
          return None;
        case Some(TextItem(t)) => text := text + t;
        case Some(CallItem(call)) =>
          if call.id in seenIds {
            PrefixRejected(g, parts, i + 1);
            return None;
          }
          IdsAppend(calls, call);
          seenIds := seenIds + {call.id};
          calls := calls + [call];
      }
    }
    assert parts[..|parts|] == parts;
    r := Some(Candidate(text, calls));
  }

  lemma {:induction false} PrefixRejected(g: GeminiCodec, parts: seq<Json>, n: nat)
    requires n <= |parts| && ParseParts(g, parts[..n]).None?
    ensures ParseParts(g, parts).None?
    decreases |parts|
  {
    if n == |parts| {
      assert parts[..n] == parts;
    } else {
      assert parts[..|parts| - 1][..n] == parts[..n];
      PrefixRejected(g, parts[..|parts| - 1], n);
    }
  }

  lemma IdsAppend(calls: seq<ToolCall>, call: ToolCall)
    ensures Ids(calls + [call]) == Ids(calls) + {call.id}
  {
    forall i | 0 <= i < |calls| ensures calls[i].id in Ids(calls + [call]) {
      assert (calls + [call])[i] == calls[i];
    }
    assert (calls + [call])[|calls|] == call;
  }

  // -------------------------------------------------------------------------
  // Payloads

  /** A candidate before its parts are parsed; `finish` is "" until it finishes. */
  datatype RawCandidate = RawCandidate(parts: seq<Json>, finish: string)

  datatype Event =
    | Failure(error: string)
    | Data(candidate: Option<RawCandidate>, usage: Option<TokenUsage>)

  const ENVELOPE_FIELDS := {
    "candidates", "promptFeedback", "usageMetadata", "modelVersion", "responseId", "modelStatus", "error"}
  const CANDIDATE_FIELDS := {
    "content", "finishReason", "safetyRatings", "citationMetadata", "tokenCount", "groundingAttributions",
    "groundingMetadata", "avgLogprobs", "logprobsResult", "urlContextMetadata", "index", "finishMessage"}
  const INACTIVE_FIELDS := {
    "citationMetadata", "groundingAttributions", "groundingMetadata", "avgLogprobs", "logprobsResult",
    "urlContextMetadata"}

  predicate StringOrNull(o: Object, key: string) {
    NonNull(o, key) ==> o[key].Str?
  }

  /** The prompt was blocked; `None` for feedback that cannot be represented. */
  function Blocked(envelope: Object): Option<bool> {
    if !NonNull(envelope, "promptFeedback") then Some(false)
    else match ObjectField(envelope, "promptFeedback")
      case None => None
      case Some(feedback) =>
        if !OnlyFields(feedback, {"blockReason", "safetyRatings"}) then None
        else if !NonNull(feedback, "blockReason") then Some(false)
        else match feedback["blockReason"]
          case Str(reason) =>
            if reason in {"SAFETY", "BLOCKLIST", "PROHIBITED_CONTENT", "IMAGE_SAFETY"} then Some(true) else None
          case _ => None
  }

  function DecodeParts(content: Object): Option<seq<Json>> {
    if !OnlyFields(content, {"role", "parts"}) || StringField(content, "role") != Some("model") then None
    else if !NonNull(content, "parts") then Some([])
    else match content["parts"]
      case Arr(items) =>
        if forall i :: 0 <= i < |items| ==> items[i].Obj? || items[i].Null? then Some(items) else None
      case _ => None
  }

  function DecodeCandidate(c: Object): Option<RawCandidate> {
    if !OnlyFields(c, CANDIDATE_FIELDS) || (exists f :: f in INACTIVE_FIELDS && Active(c, f))
       || (NonNull(c, "index") && IntField(c, "index") != Some(0))
       || (NonNull(c, "finishReason") && (!c["finishReason"].Str? || c["finishReason"].s == ""))
    then None
    else
      var finish := if NonNull(c, "finishReason") then c["finishReason"].s else "";
      if !NonNull(c, "content") then Some(RawCandidate([], finish))
      else match ObjectField(c, "content")
        case None => None
        case Some(content) =>
          match DecodeParts(content)
          case Some(parts) => Some(RawCandidate(parts, finish))
          case None => None
  }

  function DecodeCandidates(envelope: Object): Option<seq<Json>> {
    if !NonNull(envelope, "candidates") then Some([])
    else match envelope["candidates"]
      case Arr(items) =>
        if |items| > 1 || (exists i :: 0 <= i < |items| && !items[i].Obj?) then None else Some(items)
      case _ => None
  }

  function ErrorMessage(error: Json): string {
    match error
    case Obj(e) =>
      (match StringField(e, "message")
       case Some(m) => if m == "" then "the upstream Gemini stream failed" else m
       case None => "the upstream Gemini stream failed")
    case _ => "the upstream Gemini stream failed"
  }

  function Decode(g: GeminiCodec, payload: Json): Option<Event> {
    if !payload.Obj? then None
    else
      var envelope := payload.fields;
      if NonNull(envelope, "error") then Some(Failure(ErrorMessage(envelope["error"])))
      else if !OnlyFields(envelope, ENVELOPE_FIELDS)
              || !StringOrNull(envelope, "modelVersion") || !StringOrNull(envelope, "responseId") then None
      else
        var usage := if NonNull(envelope, "usageMetadata") then g.decodeUsage(envelope["usageMetadata"]) else None;
        match (Blocked(envelope), DecodeCandidates(envelope))
        case (Some(blocked), Some(candidates)) =>
          if blocked then
            if candidates == [] then Some(Data(Some(RawCandidate([], "SAFETY")), usage)) else None
          else if candidates == [] then Some(Data(None, usage))
          else
            (match DecodeCandidate(candidates[0].fields)
             case Some(c) => Some(Data(Some(c), usage))
             case None => None)
        case _ => None
  }

  // -------------------------------------------------------------------------
  // The buffered translator

  const FILTERED := {
    "SAFETY", "RECITATION", "BLOCKLIST", "PROHIBITED_CONTENT", "SPII", "IMAGE_SAFETY",
    "IMAGE_PROHIBITED_CONTENT", "IMAGE_RECITATION", "ESCALATION"}

  function FinishReason(reason: string, hasToolCalls: bool): Option<string> {
    if reason == "STOP" then Some(if hasToolCalls then "tool_calls" else "stop")
    else if hasToolCalls then None
    else if reason == "MAX_TOKENS" then Some("length")
    else if reason in FILTERED then Some("content_filter")
    else None
  }

  function TranslateData(g: GeminiCodec, raw: RawCandidate, usage: TokenUsage): Option<Completion> {
    match ParseParts(g, raw.parts)
    case None => None
    case Some(c) =>
      if raw.finish == "" || !usage.Complete() then None
      else match FinishReason(raw.finish, c.calls != [])
        case Some(finish) =>
          Some(Completion(if c.text == "" then None else Some(c.text), c.calls, finish, ToChat(usage)))
        case None => None
  }

  /** The translator on a whole response body. */
  function Translate(g: GeminiCodec, body: Json): Option<Completion> {
    match Decode(g, body)
    case Some(Data(Some(raw), Some(usage))) => TranslateData(g, raw, usage)
    case _ => None
  }
}
