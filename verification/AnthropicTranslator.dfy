/**
 The stream translator as the gateway runs it: an object whose handlers update
 its fields and append chunks to the destination.
 */
module AnthropicTranslator {
  import opened Options
  import opened JsonValues
  import opened ChatChunks
  import opened AnthropicUsage
  import opened AnthropicResponse
  import opened AnthropicStream

  class Translator {
    const codec: Codec
    const includeUsage: bool
    const decode: Decoder
    var started: bool
    var finished: bool
    var terminal: bool
    var failed: bool
    var blocks: map<int, BlockKind>
    var stopped: set<int>
    var toolIndexes: map<int, nat>
    var toolJson: map<int, string>
    var nextTool: nat
    var usage: TokenUsage
    var destination: seq<Chunk>

    function View(): State
      reads this
    {
      State(started, finished, terminal, failed, blocks, stopped, toolIndexes, toolJson, nextTool, usage)
    }

    /** The handler did what reply r says; after a failure only the output matters. */
    twostate predicate Did(r: Reply, ok: bool)
      reads this
    {
      ok == r.ok && destination == old(destination) + r.out && (ok ==> View() == r.next)
    }

    constructor (codec: Codec, includeUsage: bool)
      ensures View() == INITIAL && destination == []
      ensures this.codec == codec && this.includeUsage == includeUsage && decode == AnthropicDecoder(codec)
    {
      this.codec, this.includeUsage, decode := codec, includeUsage, AnthropicDecoder(codec);
      started, finished, terminal, failed := false, false, false, false;
      blocks, stopped, toolIndexes, toolJson, nextTool := map[], {}, map[], map[], 0;
      usage, destination := MISSING, [];
    }

    method WriteChunk(c: Chunk)
      modifies this`destination
      ensures destination == old(destination) + [c]
    {
      destination := destination + [c];
    }

    method HandleBlockStart(index: int, opening: Opening) returns (ok: bool)
      modifies this
      ensures Did(OnBlockStart(old(View()), index, opening), ok)
    {
      if !started || finished || index in blocks { return false; }
      blocks := blocks[index := Kind(opening)];
      if opening.OpensText? { return true; }
      var toolIndex := nextTool;
      nextTool := nextTool + 1;
      toolIndexes := toolIndexes[index := toolIndex];
      toolJson := toolJson[index := ""];
      WriteChunk(ToolStart(toolIndex, opening.id, opening.name, ""));
      return true;
    }

    method HandleTextDelta(index: int, text: string) returns (ok: bool)
      modifies this
      ensures Did(OnTextDelta(old(View()), index, text), ok)
    {
      if !started || finished || index in stopped { return false; }
      if index !in blocks || blocks[index] != TextBlock { return false; }
      WriteChunk(Content(text));
      return true;
    }

    method HandleJsonDelta(index: int, partial: string) returns (ok: bool)
      modifies this
      ensures Did(OnJsonDelta(old(View()), index, partial), ok)
    {
      if !started || finished || index in stopped { return false; }
      if index !in blocks || blocks[index] != ToolBlock { return false; }
      if index !in toolIndexes || index !in toolJson { return false; }
      toolJson := toolJson[index := toolJson[index] + partial];
      WriteChunk(ToolArguments(toolIndexes[index], partial));
      return true;
    }

    method HandleBlockStop(index: int) returns (ok: bool)
      modifies this
      ensures Did(OnBlockStop(codec, old(View()), index), ok)
    {
      if !started || finished || index !in blocks || index in stopped { return false; }
      if blocks[index] == ToolBlock {
        var arguments := if index in toolJson then toolJson[index] else "";
        if arguments == "" {
          arguments := "{}";
          WriteChunk(ToolArguments(if index in toolIndexes then toolIndexes[index] else 0, arguments));
        }
        var input := codec.parse(arguments);
        if input.None? || !input.value.Obj? { return false; }
      }
      stopped := stopped + {index};
      return true;
    }

    method HandleMessageDelta(stop: Option<string>, report: TokenUsage) returns (ok: bool)
      modifies this
      ensures Did(OnMessageDelta(old(View()), stop, report), ok)
    {
      if !started || finished || !(blocks.Keys <= stopped) { return false; }
      usage := Merge(usage, report);
      if stop.None? { return true; }
      var finish := FinishReason(stop.value);
      if finish.None? || !Consistent(finish.value, nextTool) { return false; }
      finished := true;
      WriteChunk(Finish(finish.value));
      return true;
    }

    method HandleMessageStop() returns (ok: bool)
      modifies this
      ensures Did(OnMessageStop(old(View()), includeUsage), ok)
    {
      if !started || !finished || !(blocks.Keys <= stopped) { return false; }
      if !usage.completeness.Complete? { return false; }
      terminal := true;
      if includeUsage { WriteChunk(Usage(ToChat(usage))); }
      WriteChunk(Done);
      return true;
    }

    method Handle(payload: string) returns (ok: bool)
      modifies this
      ensures match decode(payload)
        case None => !ok && destination == old(destination)
        case Some(e) => Did(AnthropicStream.Handle(codec, includeUsage, old(View()), e), ok)
    {
      var event := decode(payload);
      if event.None? || terminal { return false; }
      match event.value {
        case Ping => ok := true;
        case MessageStart(_, _, report) =>
          if started { return false; }
          usage := Merge(usage, report);
          started := true;
          WriteChunk(Role);
          ok := true;
        case BlockStart(i, opening, _) => ok := HandleBlockStart(i, opening);
        case TextDelta(i, text) => ok := HandleTextDelta(i, text);
        case JsonDelta(i, partial) => ok := HandleJsonDelta(i, partial);
        case BlockStop(i) => ok := HandleBlockStop(i);
        case MessageDelta(stop, _, report) => ok := HandleMessageDelta(stop, report);
        case MessageStop => ok := HandleMessageStop();
        case Failure(message) =>
          WriteChunk(Error(message));
          failed, terminal := true, true;
          ok := true;
      }
    }

    /** Translates a whole stream.  On success the output is a word of the chunk
        language; after an upstream error it lacks `[DONE]`. */
    method Proxy(payloads: seq<string>) returns (outcome: Outcome)
      requires View() == INITIAL && destination == []
      modifies this
      ensures destination == Run(codec, includeUsage, DecodeAll(decode, payloads)).out
      ensures outcome == ProxyOutcome(Run(codec, includeUsage, DecodeAll(decode, payloads)))
      ensures outcome.Success? ==> InLanguage(destination, includeUsage)
      ensures outcome.UpstreamFailure? || outcome.NoTerminalEvent? ==> Done !in destination
      ensures !outcome.NoFinalDelta? && !outcome.IncompleteUsage?
    {
      ghost var events := DecodeAll(decode, payloads);
      for i := 0 to |payloads|
        invariant Run(codec, includeUsage, events[..i]) == Reply(View(), destination, true)
      {
        RunNext(codec, includeUsage, events, i);
        var ok := Handle(payloads[i]);
        if !ok {
          RunStuck(codec, includeUsage, events, i + 1);
          return HandlerError;
        }
      }
      assert events[..|payloads|] == events;
      StreamLanguage(codec, includeUsage, events);
      if !terminal { return NoTerminalEvent; }
      if failed { return UpstreamFailure; }
      if !started || !finished { return NoFinalDelta; }
      if !usage.completeness.Complete? { return IncompleteUsage; }
      return Success;
    }
  }

  lemma {:induction false} RunNext(codec: Codec, includeUsage: bool, events: seq<Option<Event>>, i: nat)
    requires i < |events| && Run(codec, includeUsage, events[..i]).ok
    ensures var before := Run(codec, includeUsage, events[..i]);
      Run(codec, includeUsage, events[..i + 1]) ==
      match events[i]
      case None => before.(ok := false)
      case Some(e) =>
        var r := AnthropicStream.Handle(codec, includeUsage, before.next, e);
        Reply(r.next, before.out + r.out, r.ok)
  {
    assert events[..i + 1][..i] == events[..i];
  }

  /** Nothing is read after the first error. */
  lemma {:induction false} RunStuck(codec: Codec, includeUsage: bool, events: seq<Option<Event>>, n: nat)
    requires n <= |events| && !Run(codec, includeUsage, events[..n]).ok
    ensures Run(codec, includeUsage, events) == Run(codec, includeUsage, events[..n])
    decreases |events|
  {
    if n == |events| {
      assert events[..n] == events;
    } else {
      var init := events[..|events| - 1];
      assert init[..n] == events[..n];
      RunStuck(codec, includeUsage, init, n);
    }
  }
}
