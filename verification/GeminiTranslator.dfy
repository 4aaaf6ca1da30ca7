/** The Gemini stream translator as an object that handles one event at a time. */
module GeminiTranslator {
  import opened Options
  import opened ChatChunks
  import opened GeminiResponse
  import opened GeminiStream

  class Translator {
    const codec: GeminiCodec
    const includeUsage: bool
    var started: bool
    var finished: bool
    var failed: bool
    var nextTool: nat
    var toolIds: set<string>
    var usage: TokenUsage
    var destination: seq<Chunk>

    function View(): State
      reads this
    {
      State(started, finished, failed, nextTool, toolIds, usage)
    }

    /** The handler did what reply r says; after a failure only the output matters. */
    twostate predicate Did(r: Reply, ok: bool)
      reads this
    {
      ok == r.ok && destination == old(destination) + r.out && (ok ==> View() == r.next)
    }

    constructor (codec: GeminiCodec, includeUsage: bool)
      ensures View() == INITIAL && destination == []
      ensures this.codec == codec && this.includeUsage == includeUsage
    {
      this.codec, this.includeUsage := codec, includeUsage;
      started, finished, failed, nextTool, toolIds, usage := false, false, false, 0, {}, MISSING;
      destination := [];
    }

    method WriteChunk(c: Chunk)
      modifies this`destination
      ensures destination == old(destination) + [c]
    {
      destination := destination + [c];
    }

    /** Announces the calls of one candidate, up to the first repeated id. */
    method WriteCalls(calls: seq<ToolCall>) returns (ok: bool)
      modifies this`destination, this`nextTool, this`toolIds
      ensures Did(Announce(old(View()), calls), ok)
    {
      for i := 0 to |calls|
        invariant var r := Announce(old(View()), calls[..i]);
          r.ok && View() == r.next && destination == old(destination) + r.out
      {
        assert calls[..i + 1][..i] == calls[..i];
        var call := calls[i];
        if call.id in toolIds {
          RepeatedId(old(View()), calls, i + 1);
          return false;
        }
        toolIds := toolIds + {call.id};
        WriteChunk(ToolStart(nextTool, call.id, call.name, call.arguments));
        nextTool := nextTool + 1;
      }
      assert calls[..|calls|] == calls;
      ok := true;
    }

    /** Role, text and calls of one candidate. */
    method HandleContent(c: Candidate) returns (ok: bool)
      modifies this`started, this`destination, this`nextTool, this`toolIds
      ensures Did(OnContent(old(View()), c), ok)
    {
      if !started {
        started := true;
        WriteChunk(Role);
      }
      if c.text != "" { WriteChunk(Content(c.text)); }
      assert destination == old(destination) + Opening(old(View()), c.text);
      ok := WriteCalls(c.calls);
    }

    method HandleCandidate(c: Candidate, finish: string) returns (ok: bool)
      modifies this
      ensures Did(OnCandidate(old(View()), c, finish), ok)
    {
      if finished { return false; }
      ok := HandleContent(c);
      if !ok || finish == "" { return; }
      var reason := FinishReason(finish, nextTool != 0);
      if reason.None? { return false; }
      finished := true;
      WriteChunk(Finish(reason.value));
    }

    method HandleEvent(event: Event) returns (ok: bool)
      modifies this
      ensures Did(Handle(codec, old(View()), event), ok)
    {
      match event {
        case Failure(message) =>
          if failed || finished { return false; }
          WriteChunk(Error(message));
          failed := true;
          ok := true;
        case Data(candidate, report) =>
          if failed { return false; }
          if candidate.None? {
            if report.None? { return false; }
            usage := MergeUsage(usage, report.value);
            return true;
          }
          var parsed := ParseCandidate(codec, candidate.value.parts);
          if parsed.None? { return false; }
          if report.Some? { usage := MergeUsage(usage, report.value); }
          ok := HandleCandidate(parsed.value, candidate.value.finish);
      }
    }

    /** Translates a whole stream; exactly the successful ones end in `[DONE]`. */
    method Proxy(events: seq<Option<Event>>) returns (outcome: Outcome)
      requires View() == INITIAL && destination == []
      modifies this
      ensures outcome == ProxyOutcome(Run(codec, events))
      ensures destination == ProxyOutput(Run(codec, events), includeUsage)
      ensures outcome.Success? ==> InLanguage(destination, includeUsage)
      ensures !outcome.Success? ==> Done !in destination
    {
      StreamLanguage(codec, events, includeUsage);
      for i := 0 to |events|
        invariant Run(codec, events[..i]) == Reply(View(), destination, true)
      {
        assert events[..i + 1][..i] == events[..i];
        var ok := false;
        if events[i].Some? { ok := HandleEvent(events[i].value); }
        if !ok {
          RunStuck(codec, events, i + 1);
          return HandlerError;
        }
      }
      assert events[..|events|] == events;
      if failed { return UpstreamFailure; }
      if !started || !finished { return Unfinished; }
      if !usage.Complete() { return IncompleteUsage; }
      if includeUsage { WriteChunk(Usage(ToChat(usage))); }
      WriteChunk(Done);
      return Success;
    }
  }

  lemma {:induction false} RepeatedId(s: State, calls: seq<ToolCall>, n: nat)
    requires n <= |calls| && !Announce(s, calls[..n]).ok
    ensures Announce(s, calls) == Announce(s, calls[..n])
    decreases |calls|
  {
    if n == |calls| {
      assert calls[..n] == calls;
    } else {
      assert calls[..|calls| - 1][..n] == calls[..n];
      RepeatedId(s, calls[..|calls| - 1], n);
    }
  }

  lemma {:induction false} RunStuck(g: GeminiCodec, events: seq<Option<Event>>, n: nat)
    requires n <= |events| && !Run(g, events[..n]).ok
    ensures Run(g, events) == Run(g, events[..n])
    decreases |events|
  {
    if n == |events| {
      assert events[..n] == events;
    } else {
      assert events[..|events| - 1][..n] == events[..n];
      RunStuck(g, events[..|events| - 1], n);
    }
  }
}
