/**
 The stream translator from Gemini GenerateContent events to Chat Completions
 chunks (pkg/gateway/chat_gemini_translation.go).
 */
module GeminiStream {
  import opened Options
  import opened ChatChunks
  import opened GeminiResponse

  datatype State = State(
    started: bool, finished: bool, failed: bool, nextTool: nat, toolIds: set<string>, usage: TokenUsage)

  const INITIAL := State(false, false, false, 0, {}, MISSING)

  datatype Reply = Reply(next: State, out: seq<Chunk>, ok: bool)

  /** Announcing tool calls, up to the first id that was announced before. */
  function Announce(s: State, calls: seq<ToolCall>): Reply {
    if calls == [] then Reply(s, [], true)
    else
      var before := Announce(s, calls[..|calls| - 1]);
      var call := calls[|calls| - 1];
      if !before.ok then before
      else if call.id in before.next.toolIds then before.(ok := false)
      else
        Reply(before.next.(toolIds := before.next.toolIds + {call.id}, nextTool := before.next.nextTool + 1),
              before.out + [ToolStart(before.next.nextTool, call.id, call.name, call.arguments)], true)
  }

  function Opening(s: State, text: string): seq<Chunk> {
    (if s.started then [] else [Role]) + (if text == "" then [] else [Content(text)])
  }

  /** The chunks of a candidate before its finish reason is looked at. */
  function OnContent(s: State, c: Candidate): Reply {
    var r := Announce(s.(started := true), c.calls);
    r.(out := Opening(s, c.text) + r.out)
  }

  function OnFinish(r: Reply, finish: string): Reply {
    match FinishReason(finish, r.next.nextTool != 0)
    case Some(reason) => Reply(r.next.(finished := true), r.out + [Finish(reason)], true)
    case None => r.(ok := false)
  }

  function OnCandidate(s: State, c: Candidate, finish: string): Reply {
    if s.finished then Reply(s, [], false)
    else
      var r := OnContent(s, c);
      if !r.ok || finish == "" then r else OnFinish(r, finish)
  }

  function Handle(g: GeminiCodec, s: State, e: Event): Reply {
    match e
    case Failure(m) =>
      if s.failed || s.finished then Reply(s, [], false)
      else Reply(s.(failed := true), [Error(m)], true)
    case Data(candidate, usage) =>
      if s.failed then Reply(s, [], false)
      else
        var s' := if usage.Some? then s.(usage := MergeUsage(s.usage, usage.value)) else s;
        match candidate
        case None => Reply(s', [], usage.Some?)
        case Some(raw) =>
          match ParseParts(g, raw.parts)
          case None => Reply(s, [], false)
          case Some(c) => OnCandidate(s', c, raw.finish)
  }

  function Run(g: GeminiCodec, events: seq<Option<Event>>): Reply {
    if events == [] then Reply(INITIAL, [], true)
    else
      var before := Run(g, events[..|events| - 1]);
      if !before.ok then before
      else match events[|events| - 1]
        case None => before.(ok := false)
        case Some(e) =>
          var r := Handle(g, before.next, e);
          Reply(r.next, before.out + r.out, r.ok)
  }

  datatype Outcome = HandlerError | UpstreamFailure | Unfinished | IncompleteUsage | Success

  function ProxyOutcome(r: Reply): Outcome {
    if !r.ok then HandlerError
    else if r.next.failed then UpstreamFailure
    else if !r.next.started || !r.next.finished then Unfinished
    else if !r.next.usage.Complete() then IncompleteUsage
    else Success
  }

  /** Everything the proxy writes: on success the usage chunk and `[DONE]` follow. */
  function ProxyOutput(r: Reply, includeUsage: bool): seq<Chunk> {
    if ProxyOutcome(r).Success?
    then r.out + (if includeUsage then [Usage(ToChat(r.next.usage))] else []) + [Done]
    else r.out
  }

  // -------------------------------------------------------------------------
  // The output language

  predicate Phase(s: State, out: seq<Chunk>) {
    if s.failed then Done !in out
    else if !s.started then !s.finished && out == [] && s.nextTool == 0
    else if !s.finished then Done !in out && Open(out, s.nextTool)
    else Done !in out && Finished(out, s.nextTool)
  }

  lemma {:induction false} AnnounceOpen(s: State, calls: seq<ToolCall>, out: seq<Chunk>)
    requires Open(out, s.nextTool) && Done !in out
    ensures var r := Announce(s, calls);
      && Open(out + r.out, r.next.nextTool) && Done !in out + r.out
      && r.next == s.(nextTool := r.next.nextTool, toolIds := r.next.toolIds)
  {
    if calls == [] {
      assert out + [] == out;
    } else {
      var before, call := Announce(s, calls[..|calls| - 1]), calls[|calls| - 1];
      AnnounceOpen(s, calls[..|calls| - 1], out);
      if before.ok && call.id !in before.next.toolIds {
        var c := ToolStart(before.next.nextTool, call.id, call.name, call.arguments);
        OpenTool(out + before.out, before.next.nextTool, call.id, call.name, call.arguments);
        assert out + (before.out + [c]) == out + before.out + [c];
      }
    }
  }

  lemma OpeningOpen(s: State, text: string, out: seq<Chunk>)
    requires Phase(s, out) && !s.finished && !s.failed
    ensures Open(out + Opening(s, text), s.nextTool) && Done !in out + Opening(s, text)
  {
    var begun := out + if s.started then [] else [Role];
    assert s.started ==> begun == out;
    assert !s.started ==> begun == [Role];
    if text == "" {
      assert out + Opening(s, text) == begun;
    } else {
      OpenContent(begun, s.nextTool, text);
      assert out + Opening(s, text) == begun + [Content(text)];
    }
  }

  lemma ContentOpen(s: State, out: seq<Chunk>, c: Candidate)
    requires Phase(s, out) && !s.finished && !s.failed
    ensures var r := OnContent(s, c);
      && Open(out + r.out, r.next.nextTool) && Done !in out + r.out
      && r.next == s.(started := true, nextTool := r.next.nextTool, toolIds := r.next.toolIds)
  {
    OpeningOpen(s, c.text, out);
    AnnounceOpen(s.(started := true), c.calls, out + Opening(s, c.text));
    var r := Announce(s.(started := true), c.calls);
    assert out + (Opening(s, c.text) + r.out) == out + Opening(s, c.text) + r.out;
  }

  lemma CandidatePhase(s: State, out: seq<Chunk>, c: Candidate, finish: string)
    requires Phase(s, out) && !s.failed && OnCandidate(s, c, finish).ok
    ensures var r := OnCandidate(s, c, finish); Phase(r.next, out + r.out)
  {
    ContentOpen(s, out, c);
    var r := OnContent(s, c);
    if finish != "" {
      var reason := FinishReason(finish, r.next.nextTool != 0).value;
      OpenFinish(out + r.out, r.next.nextTool, reason);
      assert out + (r.out + [Finish(reason)]) == out + r.out + [Finish(reason)];
    }
  }

  lemma {:induction false} RunPhase(g: GeminiCodec, events: seq<Option<Event>>)
    ensures Run(g, events).ok ==> Phase(Run(g, events).next, Run(g, events).out)
  {
    if events != [] {
      RunPhase(g, events[..|events| - 1]);
      var before, last := Run(g, events[..|events| - 1]), events[|events| - 1];
      if Run(g, events).ok {
        match last.value {
          case Failure(m) =>
          case Data(None, _) => assert before.out + [] == before.out;
          case Data(Some(raw), usage) =>
            var s' := if usage.Some? then before.next.(usage := MergeUsage(before.next.usage, usage.value)) else before.next;
            CandidatePhase(s', before.out, ParseParts(g, raw.parts).value, raw.finish);
        }
      }
    }
  }

  lemma {:induction false} AnnounceWritesTools(s: State, calls: seq<ToolCall>, c: Chunk)
    requires c in Announce(s, calls).out
    ensures c.ToolStart?
  {
    if calls != [] && c in Announce(s, calls[..|calls| - 1]).out {
      AnnounceWritesTools(s, calls[..|calls| - 1], c);
    }
  }

  lemma {:induction false} HandlersWriteNoDone(g: GeminiCodec, events: seq<Option<Event>>)
    ensures Done !in Run(g, events).out
  {
    if events != [] {
      HandlersWriteNoDone(g, events[..|events| - 1]);
      var before, last := Run(g, events[..|events| - 1]), events[|events| - 1];
      if before.ok && last.Some? && last.value.Data? && last.value.candidate.Some? {
        var s, raw := before.next, last.value.candidate.value;
        var s' := if last.value.usage.Some? then s.(usage := MergeUsage(s.usage, last.value.usage.value)) else s;
        var parsed := ParseParts(g, raw.parts);
        if parsed.Some? && Done in Announce(s'.(started := true), parsed.value.calls).out {
          AnnounceWritesTools(s'.(started := true), parsed.value.calls, Done);
        }
      }
    }
  }

  /** Every successful stream is a word of the chunk language, and no other
      stream writes `[DONE]`. */
  lemma StreamLanguage(g: GeminiCodec, events: seq<Option<Event>>, includeUsage: bool)
    ensures var r := Run(g, events);
      && (ProxyOutcome(r).Success? ==> InLanguage(ProxyOutput(r, includeUsage), includeUsage))
      && (!ProxyOutcome(r).Success? ==> Done !in ProxyOutput(r, includeUsage))
  {
    RunPhase(g, events);
    HandlersWriteNoDone(g, events);
    var r := Run(g, events);
    if ProxyOutcome(r).Success? {
      var accounted := r.out + if includeUsage then [Usage(ToChat(r.next.usage))] else [];
      assert includeUsage ==> accounted[..|r.out|] == r.out;
      assert !includeUsage ==> accounted == r.out;
      DoneInLanguage(accounted, r.next.nextTool, includeUsage);
    }
  }
}
