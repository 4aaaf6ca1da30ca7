/**
 Chat messages sent to Gemini: tool-call ids are unwrapped, and tool results
 are matched with the calls they answer (pkg/gateway/chat_gemini_translation.go).
 */
module GeminiMessages {
  import opened Options
  import opened JsonValues
  import opened ChatTurns
  import opened ChatMessages

  const PREFIX := "call_gemini_sig_"

  /** The text after the prefix: base64url of a JSON object holding the provider id and the signature. */
  datatype Ids = Ids(encodeBody: (string, string) -> string, decodeBody: string -> Option<(string, string)>)

  datatype Unwrapped = Plain | Signed(id: string, signature: string) | Malformed

  function Wrap(ids: Ids, id: string, signature: string): string {
    PREFIX + ids.encodeBody(id, signature)
  }

  function Unwrap(ids: Ids, value: string): Unwrapped {
    if !(PREFIX <= value) then Plain
    else match ids.decodeBody(value[|PREFIX|..])
      case Some((id, signature)) => if id == "" || signature == "" then Malformed else Signed(id, signature)
      case None => Malformed
  }

  /** What a tool result carries of the call it answers. */
  datatype Identity = Identity(id: string, name: string)

  type Names = map<string, Identity>

  function ResolveCall(ids: Ids, call: Block): (r: Option<Block>)
    requires call.Call?
    ensures r.Some? ==> r.value.Call? && r.value.name == call.name && r.value.arguments == call.arguments
  {
    match Unwrap(ids, call.id)
    case Plain => Some(call)
    case Signed(id, signature) => Some(Call(id, call.name, call.arguments, signature))
    case Malformed => None
  }

  function IdentityOf(call: Block): Identity
    requires call.Call?
  {
    Identity(call.id, call.name)
  }

  datatype ResolvedBlocks = ResolvedBlocks(names: Names, blocks: seq<Block>)

  function ResolveBlock(ids: Ids, names: Names, b: Block): Option<ResolvedBlocks> {
    if !b.Call? then Some(ResolvedBlocks(names, [b]))
    else if b.id in names then None
    else match ResolveCall(ids, b)
      case Some(call) => Some(ResolvedBlocks(names[b.id := IdentityOf(call)], [call]))
      case None => None
  }

  /** The calls of a message under new names: an id may be used by one call only. */
  function ResolveBlocks(ids: Ids, names: Names, blocks: seq<Block>): (r: Option<ResolvedBlocks>)
    ensures r.Some? ==> |r.value.blocks| == |blocks|
  {
    if blocks == [] then Some(ResolvedBlocks(names, []))
    else match ResolveBlocks(ids, names, blocks[..|blocks| - 1])
      case None => None
      case Some(before) =>
        match ResolveBlock(ids, before.names, blocks[|blocks| - 1])
        case Some(last) => Some(ResolvedBlocks(last.names, before.blocks + last.blocks))
        case None => None
  }

  datatype Resolved = Resolved(names: Names, turns: seq<Turn>)

  function ResolveTurn(ids: Ids, names: Names, t: Turn): (r: Option<Resolved>)
    ensures r.Some? ==> |r.value.turns| == 1 && (Good(t) ==> Good(r.value.turns[0]))
  {
    match t
    case System(_) => Some(Resolved(names, [t]))
    case User(_) => Some(Resolved(names, [t]))
    case Assistant(blocks) =>
      (match ResolveBlocks(ids, names, blocks)
       case Some(r) => Some(Resolved(r.names, [Assistant(r.blocks)]))
       case None => None)
    case Tool(result) =>
      if result.Result? && result.id in names then
        var answered := names[result.id];
        Some(Resolved(names, [Tool(Result(answered.id, answered.name, result.content))]))
      else None
  }

  function ResolveAll(ids: Ids, turns: seq<Turn>): (r: Option<Resolved>)
    ensures r.Some? ==> |r.value.turns| == |turns|
    ensures r.Some? ==> forall i :: 0 <= i < |turns| ==> Good(turns[i]) ==> Good(r.value.turns[i])
  {
    if turns == [] then Some(Resolved(map[], []))
    else match ResolveAll(ids, turns[..|turns| - 1])
      case None => None
      case Some(before) =>
        match ResolveTurn(ids, before.names, turns[|turns| - 1])
        case Some(last) => Some(Resolved(last.names, before.turns + last.turns))
        case None => None
  }

  // -------------------------------------------------------------------------
  // The translation loop

  datatype Progress = Progress(turns: seq<Turn>, resolved: Resolved, state: State)

  /** Reading, resolving and arranging the messages so far; `None` once one is rejected. */
  function Advance(ids: Ids, read: MessageReader, source: seq<Json>): Option<Progress> {
    match ReadAll(read, source)
    case None => None
    case Some(turns) =>
      match ResolveAll(ids, turns)
      case None => None
      case Some(resolved) =>
        match Run(resolved.turns)
        case None => None
        case Some(state) => Some(Progress(turns, resolved, state))
  }

  function TranslateGemini(ids: Ids, read: MessageReader, source: seq<Json>): Option<Request> {
    match Advance(ids, read, source)
    case Some(p) => if p.state.messages == [] then None else Some(Request(p.state.system, p.state.messages))
    case None => None
  }

  lemma {:induction false} ResolveAppend(ids: Ids, turns: seq<Turn>, t: Turn)
    ensures ResolveAll(ids, turns + [t]) ==
      match ResolveAll(ids, turns)
      case None => None
      case Some(before) =>
        match ResolveTurn(ids, before.names, t)
        case Some(last) => Some(Resolved(last.names, before.turns + last.turns))
        case None => None
  {
    assert (turns + [t])[..|turns|] == turns;
  }

  /** The next message extends the progress by its own turn, or ends it. */
  lemma {:induction false} AdvanceOne(ids: Ids, read: MessageReader, source: seq<Json>, message: Json)
    ensures Advance(ids, read, source).None? ==> Advance(ids, read, source + [message]).None?
    ensures Advance(ids, read, source).Some? ==>
      var p := Advance(ids, read, source).value;
      Advance(ids, read, source + [message]) ==
      if read(message).None? || ResolveTurn(ids, p.resolved.names, read(message).value).None? then None
      else
        var turn := ResolveTurn(ids, p.resolved.names, read(message).value).value;
        match Step(p.state, turn.turns[0])
        case None => None
        case Some(s) =>
          Some(Progress(p.turns + [read(message).value], Resolved(turn.names, p.resolved.turns + turn.turns), s))
  {
    assert (source + [message])[..|source|] == source;
    if ReadAll(read, source).Some? && read(message).Some? {
      var turns, t := ReadAll(read, source).value, read(message).value;
      ResolveAppend(ids, turns, t);
      if ResolveAll(ids, turns).Some? && ResolveAll(ids, turns + [t]).Some? {
        var before := ResolveAll(ids, turns).value;
        var last := ResolveTurn(ids, before.names, t).value;
        assert last.turns == [last.turns[0]];
        RunAppend(before.turns, last.turns[0]);
      }
    }
  }

  lemma {:induction false} AdvanceStuck(ids: Ids, read: MessageReader, source: seq<Json>, n: nat)
    requires n <= |source| && Advance(ids, read, source[..n]).None?
    ensures Advance(ids, read, source).None?
    decreases |source| - n
  {
    if n == |source| {
      assert source[..n] == source;
    } else {
      assert source[..n + 1] == source[..n] + [source[n]];
      AdvanceOne(ids, read, source[..n], source[n]);
      AdvanceStuck(ids, read, source, n + 1);
    }
  }

  /** The calls of one assistant message, in a loop that records each id. */
  method ResolveCalls(ids: Ids, names: Names, blocks: seq<Block>) returns (r: Option<ResolvedBlocks>)
    ensures r == ResolveBlocks(ids, names, blocks)
  {
    var known, parts := names, [];
    for i := 0 to |blocks|
      invariant ResolveBlocks(ids, names, blocks[..i]) == Some(ResolvedBlocks(known, parts))
    {
      assert blocks[..i + 1][..i] == blocks[..i];
      var block := blocks[i];
      if block.Call? {
        var call := ResolveCall(ids, block);
        if block.id in known || call.None? {
          BlocksStuck(ids, names, blocks, i + 1);
          return None;
        }
        known := known[block.id := Identity(call.value.id, call.value.name)];
        block := call.value;
      }
      parts := parts + [block];
    }
    assert blocks[..|blocks|] == blocks;
    return Some(ResolvedBlocks(known, parts));
  }

  lemma {:induction false} BlocksStuck(ids: Ids, names: Names, blocks: seq<Block>, n: nat)
    requires n <= |blocks| && ResolveBlocks(ids, names, blocks[..n]).None?
    ensures ResolveBlocks(ids, names, blocks).None?
    decreases |blocks| - n
  {
    if n == |blocks| {
      assert blocks[..n] == blocks;
    } else {
      assert blocks[..n + 1][..n] == blocks[..n];
      BlocksStuck(ids, names, blocks, n + 1);
    }
  }

  method TranslateGeminiMessages(ids: Ids, read: MessageReader, source: seq<Json>) returns (r: Option<Request>)
    requires Sound(read)
    ensures r == TranslateGemini(ids, read, source)
  {
    var names: Names, s := map[], START;
    ghost var p := Progress([], Resolved(map[], []), START);
    for i := 0 to |source|
      invariant Advance(ids, read, source[..i]) == Some(p) && p.resolved.names == names && p.state == s
      invariant Remembers(s) && Alternating(s.messages)
    {
      assert source[..i + 1] == source[..i] + [source[i]];
      AdvanceOne(ids, read, source[..i], source[i]);
      var next := Translated(ids, names, s, read(source[i]));
      if next.None? {
        AdvanceStuck(ids, read, source, i + 1);
        return None;
      }
      names, s := next.value.0, next.value.1;
      p := Advance(ids, read, source[..i + 1]).value;
    }
    assert source[..|source|] == source;
    if s.messages == [] { return None; }
    return Some(Request(s.system, s.messages));
  }

  /** The body of the loop: names are recorded before the message is placed. */
  method Translated(ids: Ids, names: Names, s: State, turn: Option<Turn>) returns (r: Option<(Names, State)>)
    requires Remembers(s) && Alternating(s.messages) && (turn.Some? ==> Good(turn.value))
    ensures r.Some? <==>
      && turn.Some? && ResolveTurn(ids, names, turn.value).Some?
      && Step(s, ResolveTurn(ids, names, turn.value).value.turns[0]).Some?
    ensures r.Some? ==>
      var resolved := ResolveTurn(ids, names, turn.value).value;
      && r.value == (resolved.names, Step(s, resolved.turns[0]).value)
      && Remembers(r.value.1) && Alternating(r.value.1.messages)
  {
    if turn.None? { return None; }
    var known, t := names, turn.value;
    match turn.value {
      case Assistant(blocks) =>
        var calls := ResolveCalls(ids, names, blocks);
        if calls.None? { return None; }
        known, t := calls.value.names, Assistant(calls.value.blocks);
      case Tool(result) =>
        if !result.Result? || result.id !in names { return None; }
        t := Tool(Result(names[result.id].id, names[result.id].name, result.content));
      case _ =>
    }
    var next := AddTurn(s, t);
    if next.None? { return None; }
    return Some((known, next.value));
  }

  lemma {:induction false} AdvanceRemembers(ids: Ids, read: MessageReader, source: seq<Json>)
    requires Sound(read) && Advance(ids, read, source).Some?
    ensures var p := Advance(ids, read, source).value;
      Remembers(p.state) && forall i :: 0 <= i < |p.resolved.turns| ==> Good(p.resolved.turns[i])
  {
    AllGood(read, source);
    RunKeeps(Advance(ids, read, source).value.resolved.turns);
  }
}
