/** Conversations that share a request, and calls sent back to the provider that made them. */
module GeminiEchoes {
  import opened Options
  import opened JsonValues
  import opened ChatTurns
  import opened ChatMessages
  import opened ChatWriting
  import opened GeminiMessages
  import opened GeminiRecovery
  import ChatChunks
  import GeminiResponse

  // -------------------------------------------------------------------------
  // Two sources, one request

  /** One request and different conversations. */
  ghost predicate Collide(ids: Ids, reader: Reader, first: seq<Json>, second: seq<Json>) {
    && TranslateGemini(ids, ReadWith(reader), first).Some?
    && TranslateGemini(ids, ReadWith(reader), first) == TranslateGemini(ids, ReadWith(reader), second)
    && ConversationOf(reader, first) != ConversationOf(reader, second)
  }

  /** Two lists of messages that can be written and resolve alike. */
  ghost predicate WouldCollide(ids: Ids, reader: Reader, url: UrlWriter, a: seq<Turn>, b: seq<Turn>) {
    && (forall i :: 0 <= i < |a| ==> Writable(reader, url, a[i]))
    && (forall i :: 0 <= i < |b| ==> Writable(reader, url, b[i]))
    && ResolveAll(ids, a).Some? && ResolveAll(ids, b).Some?
    && ResolveAll(ids, a).value.turns == ResolveAll(ids, b).value.turns
    && Arrange(ResolveAll(ids, a).value.turns).Some? && Conversation(a) != Conversation(b)
  }

  lemma TurnsCollide(ids: Ids, reader: Reader, url: UrlWriter, a: seq<Turn>, b: seq<Turn>)
    returns (first: seq<Json>, second: seq<Json>)
    ensures WouldCollide(ids, reader, url, a, b) ==>
      && ReadAll(ReadWith(reader), first) == Some(a) && ReadAll(ReadWith(reader), second) == Some(b)
      && Collide(ids, reader, first, second)
  {
    first, second := [], [];
    if WouldCollide(ids, reader, url, a, b) {
      first := WriteTurns(reader, url, a);
      second := WriteTurns(reader, url, b);
      TranslatesTurns(ids, ReadWith(reader), first);
      TranslatesTurns(ids, ReadWith(reader), second);
    }
  }

  lemma TwoBlocks(ids: Ids, names: Names, first: Block, second: Block)
    ensures ResolveBlocks(ids, names, [first, second]) ==
      match ResolveBlock(ids, names, first)
      case None => None
      case Some(r) =>
        match ResolveBlock(ids, r.names, second)
        case None => None
        case Some(r') => Some(ResolvedBlocks(r'.names, r.blocks + r'.blocks))
  {
    assert [first, second][..1] == [first] && [first][..0] == [];
    assert ResolveBlocks(ids, names, []) == Some(ResolvedBlocks(names, []));
    if ResolveBlock(ids, names, first).Some? {
      var r := ResolveBlock(ids, names, first).value;
      assert [] + r.blocks == r.blocks;
      assert ResolveBlocks(ids, names, [first]) == Some(r);
    }
  }

  /** A question and an answer that makes calls. */
  function Exchange(question: string, calls: seq<Block>): seq<Turn> {
    [User([Text(question)]), Assistant(calls)]
  }

  lemma ExchangeWritable(reader: Reader, url: UrlWriter, question: string, calls: seq<Block>)
    requires question != "" && calls != [] && forall i :: 0 <= i < |calls| ==> PlainCall(reader, calls[i])
    ensures forall i :: 0 <= i < 2 ==> Writable(reader, url, Exchange(question, calls)[i])
  {
    assert Part(reader, url, [Text(question)][0], true);
    assert SpeaksThenCalls(reader, url, calls, 0);
  }

  lemma ExchangeResolves(ids: Ids, question: string, calls: seq<Block>)
    requires ResolveBlocks(ids, map[], calls).Some?
    ensures var r := ResolveBlocks(ids, map[], calls).value;
      ResolveAll(ids, Exchange(question, calls)) == Some(Resolved(r.names, Exchange(question, r.blocks)))
  {
    var turns := Exchange(question, calls);
    assert turns == [turns[0]] + [turns[1]] && [turns[0]] == [] + [turns[0]];
    ResolveAppend(ids, [], turns[0]);
    assert ResolveAll(ids, [turns[0]]) == Some(Resolved(map[], [turns[0]]));
    ResolveAppend(ids, [turns[0]], turns[1]);
    var resolved := Assistant(ResolveBlocks(ids, map[], calls).value.blocks);
    assert [turns[0]] + [resolved] == [turns[0], resolved];
  }

  lemma ExchangeArranges(question: string, calls: seq<Block>, results: seq<Turn>)
    requires calls != [] && |results| <= 1 && forall i :: 0 <= i < |results| ==> results[i].Tool? && Good(results[i])
    ensures Arrange(Exchange(question, calls) + results).Some?
    ensures Conversation(Exchange(question, calls) + results) == Exchange(question, calls) + results
  {
    var turns := Exchange(question, calls) + results;
    assert turns[0] == User([Text(question)]) && turns[1] == Assistant(calls) && forall i :: 2 <= i < |turns| ==> turns[i] == results[i - 2];
    assert Good(turns[0]) && Good(turns[1]);
    AcceptedExactly(turns);
    NoSystem(turns);
  }

  lemma {:induction false} NoSystem(turns: seq<Turn>)
    requires forall i :: 0 <= i < |turns| ==> !turns[i].System?
    ensures Conversation(turns) == turns
  {
    if turns != [] {
      NoSystem(turns[..|turns| - 1]);
      assert turns == turns[..|turns| - 1] + [turns[|turns| - 1]];
    }
  }

  lemma SpellingResolves(ids: Ids, question: string, text: string, id: string, signature: string, name: string, arguments: string)
    requires id != "" && signature != "" && ids.decodeBody(text) == Some((id, signature))
    ensures var r := ResolveAll(ids, Exchange(question, [Call(PREFIX + text, name, arguments, "")]));
      r.Some? && r.value.turns == Exchange(question, [Call(id, name, arguments, signature)])
  {
    var x := Call(PREFIX + text, name, arguments, "");
    assert (PREFIX + text)[|PREFIX|..] == text;
    OneBlock(ids, x);
    ExchangeResolves(ids, question, [x]);
  }

  lemma OneExchange(question: string, call: Block)
    ensures Arrange(Exchange(question, [call])).Some? && Conversation(Exchange(question, [call])) == Exchange(question, [call])
  {
    ExchangeArranges(question, [call], []);
    assert Exchange(question, [call]) + [] == Exchange(question, [call]);
  }

  /** Two wrapped ids whose texts decode to the same id and signature, say with other spacing:
      two conversations with one request. */
  lemma TwoSpellings(ids: Ids, reader: Reader, url: UrlWriter, question: string, first: string, second: string,
                     id: string, signature: string, name: string, arguments: string)
    returns (a: seq<Json>, b: seq<Json>)
    requires first != second && id != "" && signature != "" && question != "" && name != ""
    requires ids.decodeBody(first) == Some((id, signature)) && ids.decodeBody(second) == Some((id, signature))
    requires EncodesObject(reader.json, arguments)
    ensures ConversationOf(reader, a) == Exchange(question, [Call(PREFIX + first, name, arguments, "")])
    ensures ConversationOf(reader, b) == Exchange(question, [Call(PREFIX + second, name, arguments, "")])
    ensures Collide(ids, reader, a, b)
  {
    var x, y := Call(PREFIX + first, name, arguments, ""), Call(PREFIX + second, name, arguments, "");
    SpellingResolves(ids, question, first, id, signature, name, arguments);
    SpellingResolves(ids, question, second, id, signature, name, arguments);
    ExchangeWritable(reader, url, question, [x]);
    ExchangeWritable(reader, url, question, [y]);
    OneExchange(question, x);
    OneExchange(question, y);
    OneExchange(question, Call(id, name, arguments, signature));
    assert Exchange(question, [x])[1].blocks[0].id != Exchange(question, [y])[1].blocks[0].id by {
      assert x.id[|PREFIX|..] == first && y.id[|PREFIX|..] == second;
    }
    a, b := TurnsCollide(ids, reader, url, Exchange(question, [x]), Exchange(question, [y]));
  }

  lemma OneBlock(ids: Ids, b: Block)
    requires b.Call? && ResolveCall(ids, b).Some?
    ensures ResolveBlocks(ids, map[], [b]) ==
      Some(ResolvedBlocks(map[b.id := IdentityOf(ResolveCall(ids, b).value)], [ResolveCall(ids, b).value]))
  {
    assert [b][..0] == [];
    assert ResolveBlocks(ids, map[], []) == Some(ResolvedBlocks(map[], []));
    var call := ResolveCall(ids, b).value;
    assert [] + [call] == [call];
  }

  /** One function called under a plain id and under the wrapped form of the same id. */
  lemma SharedByBlocks(ids: Ids, id: string, signature: string, name: string, arguments: string)
    requires id != "" && signature != "" && !(PREFIX <= id)
    requires ids.decodeBody(ids.encodeBody(id, signature)) == Some((id, signature))
    ensures var wrapped := Wrap(ids, id, signature);
      var r := ResolveBlocks(ids, map[], [Call(id, name, arguments, ""), Call(wrapped, name, arguments, "")]);
      && id != wrapped && r.Some? && r.value.names == map[id := Identity(id, name), wrapped := Identity(id, name)]
      && r.value.blocks == [Call(id, name, arguments, ""), Call(id, name, arguments, signature)]
  {
    var wrapped := Wrap(ids, id, signature);
    assert PREFIX <= wrapped && wrapped[|PREFIX|..] == ids.encodeBody(id, signature);
    TwoBlocks(ids, map[], Call(id, name, arguments, ""), Call(wrapped, name, arguments, ""));
  }

  lemma AnsweredExchange(ids: Ids, question: string, calls: seq<Block>, id: string, answer: string)
    requires ResolveBlocks(ids, map[], calls).Some? && id in ResolveBlocks(ids, map[], calls).value.names
    ensures var r := ResolveBlocks(ids, map[], calls).value;
      ResolveAll(ids, Exchange(question, calls) + [Tool(Result(id, "", [answer]))]) ==
      Some(Resolved(r.names, Exchange(question, r.blocks) + [Tool(Result(r.names[id].id, r.names[id].name, [answer]))]))
  {
    ExchangeResolves(ids, question, calls);
    ResolveAppend(ids, Exchange(question, calls), Tool(Result(id, "", [answer])));
  }

  lemma AnsweredWritable(reader: Reader, url: UrlWriter, question: string, calls: seq<Block>, id: string, answer: string)
    requires question != "" && calls != [] && forall i :: 0 <= i < |calls| ==> PlainCall(reader, calls[i])
    requires id != "" && answer != "" && EncodesObject(reader.json, answer)
    ensures var turns := Exchange(question, calls) + [Tool(Result(id, "", [answer]))];
      forall i :: 0 <= i < |turns| ==> Writable(reader, url, turns[i])
  {
    ExchangeWritable(reader, url, question, calls);
  }

  lemma SharedResolves(ids: Ids, question: string, id: string, signature: string, name: string, arguments: string, answer: string)
    requires id != "" && signature != "" && !(PREFIX <= id)
    requires ids.decodeBody(ids.encodeBody(id, signature)) == Some((id, signature))
    ensures var wrapped := Wrap(ids, id, signature);
      var turns := Exchange(question, [Call(id, name, arguments, ""), Call(wrapped, name, arguments, "")]);
      && id != wrapped
      && ResolveAll(ids, turns + [Tool(Result(id, "", [answer]))]).Some?
      && ResolveAll(ids, turns + [Tool(Result(id, "", [answer]))]) == ResolveAll(ids, turns + [Tool(Result(wrapped, "", [answer]))])
      && Arrange(ResolveAll(ids, turns + [Tool(Result(id, "", [answer]))]).value.turns).Some?
  {
    var wrapped := Wrap(ids, id, signature);
    var calls := [Call(id, name, arguments, ""), Call(wrapped, name, arguments, "")];
    SharedByBlocks(ids, id, signature, name, arguments);
    AnsweredExchange(ids, question, calls, id, answer);
    AnsweredExchange(ids, question, calls, wrapped, answer);
    ExchangeArranges(question, ResolveBlocks(ids, map[], calls).value.blocks, [Tool(Result(id, name, [answer]))]);
  }

  /** A question, one function called under a plain id and under its wrapped form, and an answer to
      one of the two: two conversations, of ids as the gateway issues them, with one request. */
  lemma SharedIdentity(ids: Ids, reader: Reader, url: UrlWriter, question: string, id: string, signature: string,
                       name: string, arguments: string, answer: string)
    returns (a: seq<Json>, b: seq<Json>)
    requires id != "" && signature != "" && !(PREFIX <= id) && question != "" && name != "" && answer != ""
    requires ids.decodeBody(ids.encodeBody(id, signature)) == Some((id, signature))
    requires EncodesObject(reader.json, arguments) && EncodesObject(reader.json, answer)
    ensures var wrapped := Wrap(ids, id, signature);
      var calls := Exchange(question, [Call(id, name, arguments, ""), Call(wrapped, name, arguments, "")]);
      && ConversationOf(reader, a) == calls + [Tool(Result(id, "", [answer]))]
      && ConversationOf(reader, b) == calls + [Tool(Result(wrapped, "", [answer]))]
    ensures Collide(ids, reader, a, b)
  {
    var wrapped := Wrap(ids, id, signature);
    var calls := [Call(id, name, arguments, ""), Call(wrapped, name, arguments, "")];
    var x, y := Tool(Result(id, "", [answer])), Tool(Result(wrapped, "", [answer]));
    SharedResolves(ids, question, id, signature, name, arguments, answer);
    ExchangeArranges(question, calls, [x]);
    ExchangeArranges(question, calls, [y]);
    assert PlainCall(reader, calls[0]) && PlainCall(reader, calls[1]);
    AnsweredWritable(reader, url, question, calls, id, answer);
    AnsweredWritable(reader, url, question, calls, wrapped, answer);
    var first, second := Exchange(question, calls) + [x], Exchange(question, calls) + [y];
    assert first[2] != second[2];
    a, b := TurnsCollide(ids, reader, url, first, second);
  }

  // -------------------------------------------------------------------------
  // A call sent back to the provider that made it

  /** The chat tool call as a client repeats it in its next request. */
  function Echo(call: ChatChunks.ToolCall): Json {
    WriteCall(call.id, call.name, call.arguments)
  }

  /** The response and request sides use the same JSON text and the same, lossless, wrapped ids. */
  ghost predicate Agree(g: GeminiResponse.GeminiCodec, reader: Reader, ids: Ids) {
    && g.json == reader.json
    && (forall id, signature :: g.encodeId(id, signature) == Wrap(ids, id, signature))
    && (forall id, signature :: ids.decodeBody(ids.encodeBody(id, signature)) == Some((id, signature)))
  }

  /**
   A function call translated for the client and sent back comes out with the
   provider's own id, name, arguments and signature, exactly when it was signed
   or its id does not itself start like a wrapped one.
   */
  lemma EchoedCall(g: GeminiResponse.GeminiCodec, reader: Reader, ids: Ids, call: Object, signature: string)
    requires Agree(g, reader, ids) && GeminiResponse.ParseCall(g, call, signature).Some?
    requires g.json.parse(g.json.marshal(Obj(call["args"].fields))) == Some(Obj(call["args"].fields))
    ensures var chat := GeminiResponse.ParseCall(g, call, signature).value;
      && ReadCall(reader, Echo(chat)) == Some(Call(chat.id, chat.name, chat.arguments, ""))
      && "id" in call && call["id"].Str? && ObjectField(call, "args").Some?
      && g.json.parse(chat.arguments) == Some(Obj(ObjectField(call, "args").value))
      && (ResolveCall(ids, Call(chat.id, chat.name, chat.arguments, "")) ==
            Some(Call(call["id"].s, chat.name, chat.arguments, signature)) <==>
          signature != "" || !(PREFIX <= call["id"].s))
  {
    var chat := GeminiResponse.ParseCall(g, call, signature).value;
    var id := call["id"].s;
    if signature != "" {
      assert chat.id == Wrap(ids, id, signature);
      assert chat.id[|PREFIX|..] == ids.encodeBody(id, signature);
    }
    assert EncodesObject(reader.json, chat.arguments);
    CallReads(reader, Call(chat.id, chat.name, chat.arguments, ""));
  }

  /** An unsigned call whose own id looks like a wrapped one. */
  function Posing(ids: Ids, id: string, signature: string, name: string): Object {
    map["id" := Str(Wrap(ids, id, signature)), "name" := Str(name), "args" := Obj(map[])]
  }

  /** It reaches the client, and comes back with another id and with a signature. */
  lemma PosingCall(g: GeminiResponse.GeminiCodec, reader: Reader, ids: Ids, id: string, signature: string, name: string)
    requires Agree(g, reader, ids) && id != "" && signature != "" && name != ""
    requires g.json.parse(g.json.marshal(Obj(map[]))) == Some(Obj(map[]))
    ensures var call := Posing(ids, id, signature, name);
      && GeminiResponse.ParseCall(g, call, "").Some?
      && var chat := GeminiResponse.ParseCall(g, call, "").value;
         && ReadCall(reader, Echo(chat)) == Some(Call(call["id"].s, name, chat.arguments, ""))
         && ResolveCall(ids, Call(chat.id, chat.name, chat.arguments, "")) == Some(Call(id, name, chat.arguments, signature))
         && Call(id, name, chat.arguments, signature) != Call(call["id"].s, name, chat.arguments, "")
  {
    var call := Posing(ids, id, signature, name);
    assert OnlyFields(call, {"id", "name", "args"});
    EchoedCall(g, reader, ids, call, "");
    assert Wrap(ids, id, signature)[|PREFIX|..] == ids.encodeBody(id, signature);
  }
}
