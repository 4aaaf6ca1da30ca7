/**
 The Chat Completions side of the stream translators: the chunks written to the
 caller, the language every successful stream belongs to, and the message a
 caller assembles from the chunks.
 */
module ChatChunks {
  import opened Options

  /** The `usage` object of a Chat Completions response. */
  datatype ChatUsage = ChatUsage(
    prompt: int, completion: int, total: int, cached: Option<int>, reasoning: Option<int>)

  datatype Chunk =
    | Role
    | Content(text: string)
    | ToolStart(index: nat, id: string, name: string, arguments: string)
    | ToolArguments(index: nat, arguments: string)
    | Finish(reason: string)
    | Usage(usage: ChatUsage)
    | Error(message: string)
    | Done

  // -------------------------------------------------------------------------
  // The language  Role (Content | Tool)* Finish Usage? Done

  function Tools(body: seq<Chunk>): nat {
    if body == [] then 0
    else Tools(body[..|body| - 1]) + if body[|body| - 1].ToolStart? then 1 else 0
  }

  /** Content and tool chunks; tool indexes are dense and announced before use. */
  predicate WellFormedBody(body: seq<Chunk>) {
    body == [] ||
    (var prefix, last := body[..|body| - 1], body[|body| - 1];
     && WellFormedBody(prefix)
     && match last
        case Content(_) => true
        case ToolStart(i, _, _, _) => i == Tools(prefix)
        case ToolArguments(i, _) => i < Tools(prefix)
        case _ => false)
  }

  /** A stream after its role chunk and before its finish chunk. */
  predicate Open(out: seq<Chunk>, tools: nat) {
    out != [] && out[0] == Role && WellFormedBody(out[1..]) && Tools(out[1..]) == tools
  }

  predicate Finished(out: seq<Chunk>, tools: nat) {
    out != [] && out[|out| - 1].Finish? && Open(out[..|out| - 1], tools)
  }

  /** A stream after its finish chunk and, when asked for, its usage chunk. */
  predicate Accounted(out: seq<Chunk>, tools: nat, includeUsage: bool) {
    if includeUsage
    then out != [] && out[|out| - 1].Usage? && Finished(out[..|out| - 1], tools)
    else Finished(out, tools)
  }

  function Word(body: seq<Chunk>, reason: string, usage: ChatUsage, includeUsage: bool): seq<Chunk> {
    [Role] + body + [Finish(reason)] + (if includeUsage then [Usage(usage)] else []) + [Done]
  }

  ghost predicate InLanguage(out: seq<Chunk>, includeUsage: bool) {
    exists body, reason, usage :: WellFormedBody(body) && out == Word(body, reason, usage, includeUsage)
  }

  lemma OpenContent(out: seq<Chunk>, tools: nat, text: string)
    requires Open(out, tools)
    ensures Open(out + [Content(text)], tools)
  {
    assert (out + [Content(text)])[1..] == out[1..] + [Content(text)];
  }

  lemma OpenTool(out: seq<Chunk>, tools: nat, id: string, name: string, arguments: string)
    requires Open(out, tools)
    ensures Open(out + [ToolStart(tools, id, name, arguments)], tools + 1)
  {
    var c := ToolStart(tools, id, name, arguments);
    assert (out + [c])[1..] == out[1..] + [c];
  }

  lemma OpenArguments(out: seq<Chunk>, tools: nat, index: nat, arguments: string)
    requires Open(out, tools) && index < tools
    ensures Open(out + [ToolArguments(index, arguments)], tools)
  {
    var c := ToolArguments(index, arguments);
    assert (out + [c])[1..] == out[1..] + [c];
  }

  lemma OpenFinish(out: seq<Chunk>, tools: nat, reason: string)
    requires Open(out, tools)
    ensures Finished(out + [Finish(reason)], tools)
  {
    assert (out + [Finish(reason)])[..|out|] == out;
  }

  /** Closing an accounted stream with `[DONE]` yields a word of the language. */
  lemma DoneInLanguage(out: seq<Chunk>, tools: nat, includeUsage: bool)
    requires Accounted(out, tools, includeUsage)
    ensures InLanguage(out + [Done], includeUsage)
  {
    var finished := if includeUsage then out[..|out| - 1] else out;
    var body := finished[1..|finished| - 1];
    assert finished[..|finished| - 1][1..] == body;
    var reason := finished[|finished| - 1].reason;
    assert finished == [Role] + body + [Finish(reason)];
    var usage := if includeUsage then out[|out| - 1].usage else ChatUsage(0, 0, 0, None, None);
    assert out == finished + if includeUsage then [Usage(usage)] else [];
    assert out + [Done] == Word(body, reason, usage, includeUsage);
  }

  // -------------------------------------------------------------------------
  // The caller's view

  datatype ToolCall = ToolCall(id: string, name: string, arguments: string)

  /** What a Chat Completions response says: the fields that depend on the message. */
  datatype Completion = Completion(
    content: Option<string>, calls: seq<ToolCall>, finish: string, usage: ChatUsage)

  datatype Message = Message(
    text: string, calls: seq<ToolCall>, finish: Option<string>, usage: Option<ChatUsage>)

  const EMPTY := Message("", [], None, None)

  function Absorb(m: Message, c: Chunk): Message {
    match c
    case Content(text) => m.(text := m.text + text)
    case ToolStart(_, id, name, arguments) => m.(calls := m.calls + [ToolCall(id, name, arguments)])
    case ToolArguments(i, arguments) =>
      if i < |m.calls|
      then m.(calls := m.calls[i := m.calls[i].(arguments := m.calls[i].arguments + arguments)])
      else m
    case Finish(reason) => m.(finish := Some(reason))
    case Usage(usage) => m.(usage := Some(usage))
    case _ => m
  }

  function Assemble(out: seq<Chunk>): Message {
    if out == [] then EMPTY else Absorb(Assemble(out[..|out| - 1]), out[|out| - 1])
  }

  lemma AssembleOne(out: seq<Chunk>, c: Chunk)
    ensures Assemble(out + [c]) == Absorb(Assemble(out), c)
  {
    assert (out + [c])[..|out|] == out;
  }
}
