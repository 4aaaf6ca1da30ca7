/** The readers of two targets side by side: what a request loses when it moves from one to the other. */
module ChatTargets {
  import opened Options
  import opened JsonValues
  import opened ChatTurns
  import opened ChatMessages
  import opened GeminiMessages

  type DataUrl = string -> Option<(string, string)>

  lemma PartReads(json: Codec, dataUrl: DataUrl, part: Json, images: bool)
    ensures ReadPart(GeminiReader(json, dataUrl), part, images).Some? ==>
      ReadPart(AnthropicReader(json, dataUrl), part, images) == ReadPart(GeminiReader(json, dataUrl), part, images)
  {}

  lemma {:induction false} PartsRead(json: Codec, dataUrl: DataUrl, parts: seq<Json>, images: bool)
    ensures ReadParts(GeminiReader(json, dataUrl), parts, images).Some? ==>
      ReadParts(AnthropicReader(json, dataUrl), parts, images) == ReadParts(GeminiReader(json, dataUrl), parts, images)
  {
    if parts != [] {
      PartsRead(json, dataUrl, parts[..|parts| - 1], images);
      PartReads(json, dataUrl, parts[|parts| - 1], images);
    }
  }

  lemma ContentReads(json: Codec, dataUrl: DataUrl, message: Object, images: bool, optional: bool)
    ensures ReadContent(GeminiReader(json, dataUrl), message, images, optional).Some? ==>
      ReadContent(AnthropicReader(json, dataUrl), message, images, optional) ==
      ReadContent(GeminiReader(json, dataUrl), message, images, optional)
  {
    if NonNull(message, "content") && message["content"].Arr? {
      PartsRead(json, dataUrl, message["content"].items, images);
    }
  }

  lemma {:induction false} CallsRead(json: Codec, dataUrl: DataUrl, calls: seq<Json>)
    ensures ReadCalls(AnthropicReader(json, dataUrl), calls) == ReadCalls(GeminiReader(json, dataUrl), calls)
  {
    if calls != [] { CallsRead(json, dataUrl, calls[..|calls| - 1]); }
  }

  lemma AssistantReads(json: Codec, dataUrl: DataUrl, message: Object)
    ensures ReadAssistant(GeminiReader(json, dataUrl), message).Some? ==>
      ReadAssistant(AnthropicReader(json, dataUrl), message) == ReadAssistant(GeminiReader(json, dataUrl), message)
  {
    ContentReads(json, dataUrl, message, false, true);
    if NonNull(message, "tool_calls") && message["tool_calls"].Arr? {
      CallsRead(json, dataUrl, message["tool_calls"].items);
    }
  }

  /** The text of an object is not empty, so it is content for Anthropic too. */
  lemma ToolReads(json: Codec, dataUrl: DataUrl, message: Object)
    requires json.parse("").None?
    ensures ReadTool(GeminiReader(json, dataUrl), message).Some? ==>
      ReadTool(AnthropicReader(json, dataUrl), message) == ReadTool(GeminiReader(json, dataUrl), message)
  {
    if ReadTool(GeminiReader(json, dataUrl), message).Some? {
      var content := StringField(message, "content").value;
      assert ReadContent(AnthropicReader(json, dataUrl), message, false, false) == Some([Text(content)]);
      assert Texts([Text(content)]) == [content];
    }
  }

  lemma MessageReads(json: Codec, dataUrl: DataUrl, message: Json)
    requires json.parse("").None?
    ensures ReadMessage(GeminiReader(json, dataUrl), message).Some? ==>
      ReadMessage(AnthropicReader(json, dataUrl), message) == ReadMessage(GeminiReader(json, dataUrl), message)
  {
    if message.Obj? {
      AssistantReads(json, dataUrl, message.fields);
      ToolReads(json, dataUrl, message.fields);
      ContentReads(json, dataUrl, message.fields, true, false);
      ContentReads(json, dataUrl, message.fields, false, false);
    }
  }

  lemma {:induction false} MessagesRead(json: Codec, dataUrl: DataUrl, source: seq<Json>)
    requires json.parse("").None?
    ensures ReadAll(ReadWith(GeminiReader(json, dataUrl)), source).Some? ==>
      ReadAll(ReadWith(AnthropicReader(json, dataUrl)), source) == ReadAll(ReadWith(GeminiReader(json, dataUrl)), source)
  {
    if source != [] {
      MessagesRead(json, dataUrl, source[..|source| - 1]);
      MessageReads(json, dataUrl, source[|source| - 1]);
    }
  }

  predicate SameKind(t: Turn, t': Turn) {
    t'.System? == t.System? && t'.User? == t.User? && t'.Assistant? == t.Assistant? && t'.Tool? == t.Tool?
  }

  lemma {:induction false} ResolvedKinds(ids: Ids, turns: seq<Turn>)
    requires ResolveAll(ids, turns).Some?
    ensures forall i :: 0 <= i < |turns| ==> SameKind(turns[i], ResolveAll(ids, turns).value.turns[i])
  {
    if turns != [] { ResolvedKinds(ids, turns[..|turns| - 1]); }
  }

  /** What can be arranged once its ids are resolved can be arranged as it is. */
  lemma ResolvedArranges(ids: Ids, turns: seq<Turn>)
    requires ResolveAll(ids, turns).Some? && Arrange(ResolveAll(ids, turns).value.turns).Some?
    requires forall i :: 0 <= i < |turns| ==> Good(turns[i])
    ensures Arrange(turns).Some?
  {
    var resolved := ResolveAll(ids, turns).value.turns;
    ResolvedKinds(ids, turns);
    AcceptedExactly(turns);
    AcceptedExactly(resolved);
    forall i | 0 < i < |turns| ensures Follows(turns[i - 1], turns[i]) {
      assert Follows(resolved[i - 1], resolved[i]) && SameKind(turns[i - 1], resolved[i - 1]) && SameKind(turns[i], resolved[i]);
    }
  }

  /** Messages that Gemini takes, Anthropic takes too, and reads as the same turns: they can move to an
      Anthropic target, whose request holds their system text and conversation. */
  lemma GeminiMessagesFitAnthropic(ids: Ids, json: Codec, dataUrl: DataUrl, source: seq<Json>)
    requires json.parse("").None?
    ensures var gemini, anthropic := ReadWith(GeminiReader(json, dataUrl)), ReadWith(AnthropicReader(json, dataUrl));
      TranslateGemini(ids, gemini, source).Some? ==>
        && ReadAll(anthropic, source) == ReadAll(gemini, source) && ReadAll(gemini, source).Some?
        && Translate(anthropic, source).Some?
        && Rebuild(Translate(anthropic, source).value.messages) == Conversation(ReadAll(gemini, source).value)
  {
    var gemini, anthropic := ReadWith(GeminiReader(json, dataUrl)), ReadWith(AnthropicReader(json, dataUrl));
    if TranslateGemini(ids, gemini, source).Some? {
      MessagesRead(json, dataUrl, source);
      ReaderIsSound(GeminiReader(json, dataUrl));
      AllGood(gemini, source);
      var turns := ReadAll(gemini, source).value;
      assert ResolveAll(ids, turns).Some?;
      ResolvedArranges(ids, turns);
      ReadsBack(turns);
    }
  }

  function ImagePart(url: string): Json {
    Obj(map["type" := Str("image_url"), "image_url" := Obj(map["url" := Str(url)])])
  }

  /** A user message with one image. */
  function Picture(url: string): Json {
    Obj(map["role" := Str("user"), "content" := Arr([ImagePart(url)])])
  }

  lemma GifPart(json: Codec, dataUrl: DataUrl, url: string, data: string)
    requires url != "" && data != "" && dataUrl(url) == Some(("image/gif", data))
    ensures ReadPart(AnthropicReader(json, dataUrl), ImagePart(url), true) == Some(Image("image/gif", data))
    ensures ReadPart(GeminiReader(json, dataUrl), ImagePart(url), true).None?
  {
    var part := ImagePart(url).fields;
    assert StringField(part, "type") == Some("image_url") && ObjectField(part, "image_url").Some?;
    assert StringField(part["image_url"].fields, "url") == Some(url);
  }

  lemma OnePart(reader: Reader, part: Json)
    ensures ReadParts(reader, [part], true) ==
      match ReadPart(reader, part, true) { case Some(block) => Some([block]) case None => None }
  {
    assert [part][..0] == [];
    assert ReadParts(reader, [], true) == Some([]);
    var r := ReadPart(reader, part, true);
    if r.Some? { assert [] + [r.value] == [r.value]; }
  }

  /** The other way fails on a GIF. */
  lemma GifFitsAnthropicOnly(json: Codec, dataUrl: DataUrl, url: string, data: string)
    requires url != "" && data != "" && dataUrl(url) == Some(("image/gif", data))
    ensures ReadMessage(AnthropicReader(json, dataUrl), Picture(url)) == Some(User([Image("image/gif", data)]))
    ensures ReadMessage(GeminiReader(json, dataUrl), Picture(url)).None?
  {
    GifPart(json, dataUrl, url, data);
    OnePart(AnthropicReader(json, dataUrl), ImagePart(url));
    OnePart(GeminiReader(json, dataUrl), ImagePart(url));
    assert StringField(Picture(url).fields, "role") == Some("user");
  }
}
