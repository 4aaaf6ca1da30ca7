/** Chat messages written out as a client sends them, and read back. */
module ChatWriting {
  import opened Options
  import opened JsonValues
  import opened ChatTurns
  import opened ChatMessages

  /** `url` writes an image as a data URL. */
  type UrlWriter = (string, string) -> string

  function WriteImage(url: UrlWriter, b: Block): Json
    requires b.Image?
  {
    Obj(map["type" := Str("image_url"), "image_url" := Obj(map["url" := Str(url(b.mediaType, b.data))])])
  }

  function WritePart(url: UrlWriter, b: Block): Json {
    match b
    case Text(text) => Obj(map["type" := Str("text"), "text" := Str(text)])
    case Image(_, _) => WriteImage(url, b)
    case _ => Null
  }

  function WriteCall(id: string, name: string, arguments: string): Json {
    Obj(map["id" := Str(id), "type" := Str("function"),
            "function" := Obj(map["name" := Str(name), "arguments" := Str(arguments)])])
  }

  function WriteParts(url: UrlWriter, blocks: seq<Block>): seq<Json> {
    seq(|blocks|, i requires 0 <= i < |blocks| => WritePart(url, blocks[i]))
  }

  function WriteCalls(blocks: seq<Block>): seq<Json> {
    seq(|blocks|, i requires 0 <= i < |blocks| =>
      if blocks[i].Call? then WriteCall(blocks[i].id, blocks[i].name, blocks[i].arguments) else Null)
  }

  // -------------------------------------------------------------------------
  // What can be written

  /** A text, or an image of an accepted type whose data URL reads back. */
  predicate Part(reader: Reader, url: UrlWriter, b: Block, images: bool) {
    match b
    case Text(text) => text != ""
    case Image(mediaType, data) =>
      && images && mediaType in reader.mediaTypes && data != ""
      && url(mediaType, data) != "" && reader.dataUrl(url(mediaType, data)) == Some((mediaType, data))
    case _ => false
  }

  predicate Parts(reader: Reader, url: UrlWriter, blocks: seq<Block>, images: bool) {
    forall i :: 0 <= i < |blocks| ==> Part(reader, url, blocks[i], images)
  }

  /** An assistant message speaks first and calls afterwards. */
  predicate SpeaksThenCalls(reader: Reader, url: UrlWriter, blocks: seq<Block>, n: nat) {
    && n <= |blocks| && blocks != []
    && Parts(reader, url, blocks[..n], false)
    && forall i :: n <= i < |blocks| ==> PlainCall(reader, blocks[i])
  }

  function WriteAssistant(url: UrlWriter, texts: seq<Block>, calls: seq<Block>): Json {
    Obj(map["role" := Str("assistant"),
            "content" := if texts == [] then Null else Arr(WriteParts(url, texts)),
            "tool_calls" := if calls == [] then Null else Arr(WriteCalls(calls))])
  }

  function WriteSpoken(url: UrlWriter, role: string, blocks: seq<Block>): Json {
    Obj(map["role" := Str(role), "content" := Arr(WriteParts(url, blocks))])
  }

  // -------------------------------------------------------------------------
  // Reading back

  lemma PartReads(reader: Reader, url: UrlWriter, b: Block, images: bool)
    requires Part(reader, url, b, images)
    ensures ReadPart(reader, WritePart(url, b), images) == Some(b)
  {
    if b.Image? {
      var part := WriteImage(url, b).fields;
      var image := part["image_url"].fields;
      assert image == map["url" := Str(url(b.mediaType, b.data))];
      assert ReadImage(reader, part) == Some(b);
    }
  }

  lemma {:induction false} PartsRead(reader: Reader, url: UrlWriter, blocks: seq<Block>, images: bool)
    requires Parts(reader, url, blocks, images)
    ensures ReadParts(reader, WriteParts(url, blocks), images) == Some(blocks)
  {
    if blocks != [] {
      var n := |blocks| - 1;
      PartsRead(reader, url, blocks[..n], images);
      PartReads(reader, url, blocks[n], images);
      assert WriteParts(url, blocks)[..n] == WriteParts(url, blocks[..n]);
      assert blocks == blocks[..n] + [blocks[n]];
    }
  }

  lemma CallReads(reader: Reader, b: Block)
    requires PlainCall(reader, b)
    ensures ReadCall(reader, WriteCall(b.id, b.name, b.arguments)) == Some(b)
  {
    assert b == Call(b.id, b.name, b.arguments, "");
  }

  lemma {:induction false} CallsRead(reader: Reader, blocks: seq<Block>)
    requires forall i :: 0 <= i < |blocks| ==> PlainCall(reader, blocks[i])
    ensures ReadCalls(reader, WriteCalls(blocks)) == Some(blocks)
  {
    if blocks != [] {
      var n := |blocks| - 1;
      CallsRead(reader, blocks[..n]);
      CallReads(reader, blocks[n]);
      assert WriteCalls(blocks)[..n] == WriteCalls(blocks[..n]);
      assert blocks == blocks[..n] + [blocks[n]];
    }
  }

  /** A user or system message reads back with its parts in order. */
  lemma SpokenReads(reader: Reader, url: UrlWriter, role: string, blocks: seq<Block>)
    requires (role == "user" || role == "system") && blocks != [] && Parts(reader, url, blocks, role == "user")
    ensures ReadMessage(reader, WriteSpoken(url, role, blocks)) ==
      Some(if role == "user" then User(blocks) else System(blocks))
  {
    PartsRead(reader, url, blocks, role == "user");
    assert ReadContent(reader, WriteSpoken(url, role, blocks).fields, role == "user", false) == Some(blocks);
  }

  lemma AssistantContent(reader: Reader, url: UrlWriter, texts: seq<Block>, calls: seq<Block>)
    requires Parts(reader, url, texts, false)
    ensures ReadContent(reader, WriteAssistant(url, texts, calls).fields, false, true) == Some(texts)
  {
    PartsRead(reader, url, texts, false);
  }

  lemma AssistantFields(url: UrlWriter, texts: seq<Block>, calls: seq<Block>)
    ensures var fields := WriteAssistant(url, texts, calls).fields;
      && OnlyFields(fields, {"role", "content", "tool_calls"})
      && StringField(fields, "role") == Some("assistant")
      && (NonNull(fields, "tool_calls") <==> calls != [])
      && (calls != [] ==> fields["tool_calls"] == Arr(WriteCalls(calls)))
  {
  }

  /** Without calls the texts are all there is; otherwise the calls come after them. */
  lemma AssistantJoins(reader: Reader, message: Object, texts: seq<Block>, calls: seq<Block>)
    requires OnlyFields(message, {"role", "content", "tool_calls"})
    requires ReadContent(reader, message, false, true) == Some(texts) && texts + calls != []
    requires NonNull(message, "tool_calls") <==> calls != []
    requires calls != [] ==> message["tool_calls"].Arr? && ReadCalls(reader, message["tool_calls"].items) == Some(calls)
    ensures ReadAssistant(reader, message) == Some(Assistant(texts + calls))
  {
    if calls == [] { assert texts + calls == texts; }
  }

  /** An assistant message reads back as what it says followed by what it calls. */
  lemma AssistantReads(reader: Reader, url: UrlWriter, blocks: seq<Block>, n: nat)
    requires SpeaksThenCalls(reader, url, blocks, n)
    ensures ReadMessage(reader, WriteAssistant(url, blocks[..n], blocks[n..])) == Some(Assistant(blocks))
  {
    var texts, calls := blocks[..n], blocks[n..];
    AssistantContent(reader, url, texts, calls);
    AssistantFields(url, texts, calls);
    CallsRead(reader, calls);
    assert blocks == texts + calls;
    AssistantJoins(reader, WriteAssistant(url, texts, calls).fields, texts, calls);
  }

  function WriteTool(id: string, content: Json): Json {
    Obj(map["role" := Str("tool"), "tool_call_id" := Str(id), "content" := content])
  }

  function TextBlocks(texts: seq<string>): seq<Block> {
    seq(|texts|, i requires 0 <= i < |texts| => Text(texts[i]))
  }

  /** A tool result reads back with its id and texts. */
  lemma TextResultReads(reader: Reader, url: UrlWriter, id: string, texts: seq<string>)
    requires !reader.objectResults && id != "" && texts != [] && forall i :: 0 <= i < |texts| ==> texts[i] != ""
    ensures ReadMessage(reader, WriteTool(id, Arr(WriteParts(url, TextBlocks(texts))))) == Some(Tool(Result(id, "", texts)))
  {
    var blocks := TextBlocks(texts);
    var message := WriteTool(id, Arr(WriteParts(url, blocks))).fields;
    PartsRead(reader, url, blocks, false);
    assert ReadContent(reader, message, false, false) == Some(blocks);
    assert Texts(blocks) == texts;
  }

  /** For Gemini, a tool result reads back as the text of one object. */
  lemma ObjectResultReads(reader: Reader, id: string, text: string)
    requires reader.objectResults && id != "" && EncodesObject(reader.json, text)
    ensures ReadMessage(reader, WriteTool(id, Str(text))) == Some(Tool(Result(id, "", [text])))
  {
    assert StringField(WriteTool(id, Str(text)).fields, "content") == Some(text);
  }

  // -------------------------------------------------------------------------
  // Whole requests

  ghost predicate Writable(reader: Reader, url: UrlWriter, t: Turn) {
    match t
    case System(blocks) => blocks != [] && Parts(reader, url, blocks, false)
    case User(blocks) => blocks != [] && Parts(reader, url, blocks, true)
    case Assistant(blocks) => exists n :: SpeaksThenCalls(reader, url, blocks, n)
    case Tool(result) =>
      && result.Result? && result.id != "" && result.name == "" && result.content != []
      && if reader.objectResults then |result.content| == 1 && EncodesObject(reader.json, result.content[0])
         else forall i :: 0 <= i < |result.content| ==> result.content[i] != ""
  }

  lemma AssistantWritable(reader: Reader, url: UrlWriter, message: Object)
    requires ReadAssistant(reader, message).Some?
    ensures Writable(reader, url, ReadAssistant(reader, message).value)
  {
    var texts := ReadContent(reader, message, false, true).value;
    var blocks := ReadAssistant(reader, message).value.blocks;
    assert blocks[..|texts|] == texts;
    assert SpeaksThenCalls(reader, url, blocks, |texts|);
  }

  /** Whatever was read as an assistant or tool message can be written again. */
  lemma ReadIsWritable(reader: Reader, url: UrlWriter, message: Json)
    requires ReadMessage(reader, message).Some?
    ensures var t := ReadMessage(reader, message).value; t.Assistant? || t.Tool? ==> Writable(reader, url, t)
  {
    var t := ReadMessage(reader, message).value;
    if t.Assistant? { AssistantWritable(reader, url, message.fields); }
  }

  lemma WriteTurn(reader: Reader, url: UrlWriter, t: Turn) returns (message: Json)
    requires Writable(reader, url, t)
    ensures ReadMessage(reader, message) == Some(t)
  {
    match t
    case System(blocks) =>
      SpokenReads(reader, url, "system", blocks);
      message := WriteSpoken(url, "system", blocks);
    case User(blocks) =>
      SpokenReads(reader, url, "user", blocks);
      message := WriteSpoken(url, "user", blocks);
    case Assistant(blocks) =>
      var n: nat :| SpeaksThenCalls(reader, url, blocks, n);
      AssistantReads(reader, url, blocks, n);
      message := WriteAssistant(url, blocks[..n], blocks[n..]);
    case Tool(result) =>
      if reader.objectResults {
        ObjectResultReads(reader, result.id, result.content[0]);
        assert result.content == [result.content[0]];
        message := WriteTool(result.id, Str(result.content[0]));
      } else {
        TextResultReads(reader, url, result.id, result.content);
        message := WriteTool(result.id, Arr(WriteParts(url, TextBlocks(result.content))));
      }
  }

  lemma {:induction false} WriteTurns(reader: Reader, url: UrlWriter, turns: seq<Turn>) returns (source: seq<Json>)
    requires forall i :: 0 <= i < |turns| ==> Writable(reader, url, turns[i])
    ensures ReadAll(ReadWith(reader), source) == Some(turns)
  {
    source := [];
    if turns != [] {
      var n := |turns| - 1;
      var before := WriteTurns(reader, url, turns[..n]);
      var last := WriteTurn(reader, url, turns[n]);
      source := before + [last];
      assert source[..|before|] == before;
      assert turns == turns[..n] + [turns[n]];
    }
  }

  /** Every well-formed request with writable content is the translation of some chat request. */
  lemma EveryRequestHasAChat(reader: Reader, url: UrlWriter, r: Request) returns (source: seq<Json>)
    requires WellFormed(r.messages) && r.messages != []
    requires forall i :: 0 <= i < |RebuildRequest(r)| ==> Writable(reader, url, RebuildRequest(r)[i])
    ensures Translate(ReadWith(reader), source) == Some(r)
  {
    source := WriteTurns(reader, url, RebuildRequest(r));
    EveryRequestIsReached(r);
  }
}
