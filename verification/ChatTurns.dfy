/**
 How a list of chat messages becomes a conversation whose roles alternate
 (pkg/gateway/chat_anthropic_translation.go, chat_bedrock_translation.go and
 chat_gemini_translation.go share this rule).
 */
module ChatTurns {
  import opened Options

  /** `signature` is used by Gemini only, `name` in a result too; both are "" elsewhere. */
  datatype Block =
    | Text(text: string)
    | Image(mediaType: string, data: string)
    | Call(id: string, name: string, arguments: string, signature: string)
    | Result(id: string, name: string, content: seq<string>)

  /** A chat message after its own fields have been read. */
  datatype Turn =
    | System(texts: seq<Block>)
    | User(parts: seq<Block>)
    | Assistant(blocks: seq<Block>)
    | Tool(result: Block)

  datatype Role = UserRole | AssistantRole

  datatype Message = Message(role: Role, content: seq<Block>)

  /** What reading a message guarantees: no empty content, and results only in tool messages. */
  predicate Good(t: Turn) {
    match t
    case System(_) => true
    case User(parts) => parts != [] && forall i :: 0 <= i < |parts| ==> !parts[i].Result?
    case Assistant(blocks) => blocks != []
    case Tool(result) => result.Result?
  }

  datatype State = State(system: seq<Block>, messages: seq<Message>, conversing: bool, previous: Option<Turn>)

  const START := State([], [], false, None)

  predicate EndsWith(messages: seq<Message>, role: Role) {
    messages != [] && messages[|messages| - 1].role == role
  }

  function AppendToLast(messages: seq<Message>, b: Block): seq<Message>
    requires messages != []
  {
    var n := |messages| - 1;
    messages[..n] + [Message(messages[n].role, messages[n].content + [b])]
  }

  function Step(s: State, t: Turn): Option<State> {
    match t
    case System(texts) =>
      if s.conversing then None else Some(s.(system := s.system + texts, previous := Some(t)))
    case User(parts) =>
      if EndsWith(s.messages, UserRole) then None
      else Some(State(s.system, s.messages + [Message(UserRole, parts)], true, Some(t)))
    case Assistant(blocks) =>
      if EndsWith(s.messages, AssistantRole) then None
      else Some(State(s.system, s.messages + [Message(AssistantRole, blocks)], true, Some(t)))
    case Tool(result) =>
      if s.previous.None? || s.previous.value.System? || s.previous.value.User? then None
      else if s.previous.value.Tool? && s.messages != [] then
        Some(State(s.system, AppendToLast(s.messages, result), true, Some(t)))
      else Some(State(s.system, s.messages + [Message(UserRole, [result])], true, Some(t)))
  }

  function Run(turns: seq<Turn>): Option<State> {
    if turns == [] then Some(START)
    else match Run(turns[..|turns| - 1])
      case Some(s) => Step(s, turns[|turns| - 1])
      case None => None
  }

  datatype Request = Request(system: seq<Block>, messages: seq<Message>)

  function Arrange(turns: seq<Turn>): Option<Request> {
    match Run(turns)
    case Some(s) => if s.messages == [] then None else Some(Request(s.system, s.messages))
    case None => None
  }

  // -------------------------------------------------------------------------
  // What is accepted, and what it can be read back as

  /** Which message may come right after which. */
  predicate Follows(before: Turn, t: Turn) {
    match t
    case System(_) => before.System?
    case User(_) => before.System? || before.Assistant?
    case Assistant(_) => !before.Assistant?
    case Tool(_) => before.Assistant? || before.Tool?
  }

  predicate InOrder(turns: seq<Turn>) {
    && (turns != [] ==> !turns[0].Tool?)
    && forall i :: 0 < i < |turns| ==> Follows(turns[i - 1], turns[i])
  }

  predicate Alternating(messages: seq<Message>) {
    forall i :: 0 < i < |messages| ==> messages[i - 1].role != messages[i].role
  }

  function SystemText(turns: seq<Turn>): seq<Block> {
    if turns == [] then []
    else
      var t := turns[|turns| - 1];
      if t.System? then SystemText(turns[..|turns| - 1]) + t.texts else SystemText(turns[..|turns| - 1])
  }

  function Conversation(turns: seq<Turn>): seq<Turn> {
    if turns == [] then []
    else
      var t := turns[|turns| - 1];
      if t.System? then Conversation(turns[..|turns| - 1]) else Conversation(turns[..|turns| - 1]) + [t]
  }

  function ToolTurns(results: seq<Block>): seq<Turn> {
    if results == [] then [] else ToolTurns(results[..|results| - 1]) + [Tool(results[|results| - 1])]
  }

  predicate IsToolGroup(m: Message) {
    m.role == UserRole && m.content != [] && m.content[0].Result?
  }

  function Turns(m: Message): seq<Turn> {
    if IsToolGroup(m) then ToolTurns(m.content)
    else if m.role == UserRole then [User(m.content)]
    else [Assistant(m.content)]
  }

  /** Reading a conversation back from the translated messages. */
  function Rebuild(messages: seq<Message>): seq<Turn> {
    if messages == [] then [] else Rebuild(messages[..|messages| - 1]) + Turns(messages[|messages| - 1])
  }

  /** How the last turn shows in the messages. */
  predicate Remembers(s: State) {
    match s.previous
    case None => s.messages == [] && !s.conversing
    case Some(t) =>
      match t
      case System(_) => s.messages == [] && !s.conversing
      case User(_) => s.conversing && EndsWith(s.messages, UserRole)
      case Assistant(_) => s.conversing && EndsWith(s.messages, AssistantRole)
      case Tool(_) => s.conversing && s.messages != [] && IsToolGroup(s.messages[|s.messages| - 1])
  }

  lemma {:induction false} AppendRebuild(messages: seq<Message>, m: Message)
    ensures Rebuild(messages + [m]) == Rebuild(messages) + Turns(m)
  {
    assert (messages + [m])[..|messages|] == messages;
  }

  lemma {:induction false} AppendTurn(results: seq<Block>, b: Block)
    ensures ToolTurns(results + [b]) == ToolTurns(results) + [Tool(b)]
  {
    assert (results + [b])[..|results|] == results;
  }

  lemma {:induction false} AppendToGroup(before: seq<Message>, group: Message, b: Block)
    requires IsToolGroup(group)
    ensures AppendToLast(before + [group], b) == before + [Message(UserRole, group.content + [b])]
    ensures IsToolGroup(Message(UserRole, group.content + [b]))
    ensures Rebuild(AppendToLast(before + [group], b)) == Rebuild(before + [group]) + [Tool(b)]
  {
    var extended := Message(UserRole, group.content + [b]);
    assert (before + [group])[..|before|] == before;
    AppendTurn(group.content, b);
    AppendRebuild(before, group);
    AppendRebuild(before, extended);
  }

  lemma {:induction false} AppendAlternates(messages: seq<Message>, m: Message)
    requires Alternating(messages) && !EndsWith(messages, m.role)
    ensures Alternating(messages + [m])
  {
  }

  /** A tool result joins the group before it, or opens one after an assistant message. */
  lemma {:induction false} ToolKeeps(s: State, t: Turn)
    requires Remembers(s) && Alternating(s.messages) && t.Tool? && Good(t) && Step(s, t).Some?
    ensures Remembers(Step(s, t).value) && Alternating(Step(s, t).value.messages)
    ensures Rebuild(Step(s, t).value.messages) == Rebuild(s.messages) + [t]
  {
    if s.previous.value.Tool? {
      var n := |s.messages| - 1;
      assert s.messages == s.messages[..n] + [s.messages[n]];
      AppendToGroup(s.messages[..n], s.messages[n], t.result);
    } else {
      AppendAlternates(s.messages, Message(UserRole, [t.result]));
      AppendRebuild(s.messages, Message(UserRole, [t.result]));
      AppendTurn([], t.result);
      assert [] + [t.result] == [t.result];
    }
  }

  lemma {:induction false} MessageKeeps(s: State, t: Turn, m: Message)
    requires Remembers(s) && Alternating(s.messages) && Good(t) && Step(s, t).Some?
    requires (t.User? && m == Message(UserRole, t.parts)) || (t.Assistant? && m == Message(AssistantRole, t.blocks))
    ensures Remembers(Step(s, t).value) && Alternating(Step(s, t).value.messages)
    ensures Rebuild(Step(s, t).value.messages) == Rebuild(s.messages) + [t]
  {
    AppendAlternates(s.messages, m);
    AppendRebuild(s.messages, m);
    assert Turns(m) == [t];
  }

  /** One step keeps the shape of the messages and adds its turn, and only its turn, to what they say. */
  lemma {:induction false} StepKeeps(s: State, t: Turn)
    requires Remembers(s) && Alternating(s.messages) && Good(t) && Step(s, t).Some?
    ensures Remembers(Step(s, t).value) && Alternating(Step(s, t).value.messages)
    ensures Rebuild(Step(s, t).value.messages) == if t.System? then Rebuild(s.messages) else Rebuild(s.messages) + [t]
    ensures Step(s, t).value.system == if t.System? then s.system + t.texts else s.system
  {
    match t
    case System(_) =>
    case User(_) => MessageKeeps(s, t, Message(UserRole, t.parts));
    case Assistant(_) => MessageKeeps(s, t, Message(AssistantRole, t.blocks));
    case Tool(_) => ToolKeeps(s, t);
  }

  lemma {:induction false} StepAccepts(s: State, t: Turn)
    requires Remembers(s)
    ensures Step(s, t).Some? <==>
      (if s.previous.None? then !t.Tool? else Follows(s.previous.value, t))
  {
  }

  /** Accepted messages alternate in role and read back as the conversation they came from. */
  lemma {:induction false} RunKeeps(turns: seq<Turn>)
    requires Run(turns).Some? && forall i :: 0 <= i < |turns| ==> Good(turns[i])
    ensures Remembers(Run(turns).value) && Alternating(Run(turns).value.messages)
    ensures Run(turns).value.previous == if turns == [] then None else Some(turns[|turns| - 1])
    ensures Rebuild(Run(turns).value.messages) == Conversation(turns)
    ensures Run(turns).value.system == SystemText(turns)
  {
    if turns != [] {
      var n := |turns| - 1;
      RunKeeps(turns[..n]);
      StepKeeps(Run(turns[..n]).value, turns[n]);
    }
  }

  lemma {:induction false} ExtendOrder(turns: seq<Turn>)
    requires turns != []
    ensures InOrder(turns) <==>
      var n := |turns| - 1;
      InOrder(turns[..n]) && if n == 0 then !turns[0].Tool? else Follows(turns[n - 1], turns[n])
  {
    var n := |turns| - 1;
    assert forall i :: 0 <= i < n ==> turns[..n][i] == turns[i];
    if InOrder(turns) && n > 0 {
      assert turns[..n][0] == turns[0];
    }
  }

  lemma {:induction false} RunsInOrder(turns: seq<Turn>)
    requires forall i :: 0 <= i < |turns| ==> Good(turns[i])
    ensures Run(turns).Some? <==> InOrder(turns)
  {
    if turns != [] {
      var n := |turns| - 1;
      RunsInOrder(turns[..n]);
      ExtendOrder(turns);
      if Run(turns[..n]).Some? {
        RunKeeps(turns[..n]);
        StepAccepts(Run(turns[..n]).value, turns[n]);
      }
    }
  }

  /** Messages are accepted if and only if each may follow the one before and the last is not a system message. */
  lemma {:induction false} AcceptedExactly(turns: seq<Turn>)
    requires forall i :: 0 <= i < |turns| ==> Good(turns[i])
    ensures Arrange(turns).Some? <==> turns != [] && InOrder(turns) && !turns[|turns| - 1].System?
  {
    RunsInOrder(turns);
    if Run(turns).Some? {
      RunKeeps(turns);
    }
  }

  /** Nothing is lost or moved: the request holds the system text and the conversation, with its boundaries. */
  lemma {:induction false} ReadsBack(turns: seq<Turn>)
    requires Arrange(turns).Some? && forall i :: 0 <= i < |turns| ==> Good(turns[i])
    ensures Alternating(Arrange(turns).value.messages)
    ensures Rebuild(Arrange(turns).value.messages) == Conversation(turns)
    ensures Arrange(turns).value.system == SystemText(turns)
  {
    RunKeeps(turns);
  }

  // -------------------------------------------------------------------------
  // Every well-formed request is reached

  /** Each message is a tool group after an assistant message, or holds no result. */
  predicate WellFormed(messages: seq<Message>) {
    && Alternating(messages)
    && forall i :: 0 <= i < |messages| ==>
      && messages[i].content != []
      && (IsToolGroup(messages[i]) ==> i > 0)
      && (messages[i].role == UserRole ==>
            forall k :: 0 <= k < |messages[i].content| ==> messages[i].content[k].Result? == IsToolGroup(messages[i]))
  }

  lemma {:induction false} RunAppend(turns: seq<Turn>, t: Turn)
    ensures Run(turns + [t]) == match Run(turns) case Some(s) => Step(s, t) case None => None
  {
    assert (turns + [t])[..|turns|] == turns;
  }

  ghost predicate Reaches(turns: seq<Turn>, messages: seq<Message>) {
    && Run(turns).Some? && Remembers(Run(turns).value)
    && Run(turns).value.messages == messages && Run(turns).value.system == []
  }

  /** The turns end with a tool result. */
  ghost predicate InGroup(turns: seq<Turn>, messages: seq<Message>) {
    Reaches(turns, messages) && Run(turns).value.previous.Some? && Run(turns).value.previous.value.Tool?
  }

  lemma {:induction false} GroupOpens(turns: seq<Turn>, messages: seq<Message>, b: Block)
    requires b.Result? && Reaches(turns, messages) && EndsWith(messages, AssistantRole)
    ensures InGroup(turns + [Tool(b)], messages + [Message(UserRole, [b])])
  {
    RunAppend(turns, Tool(b));
  }

  lemma {:induction false} GroupGrows(turns: seq<Turn>, messages: seq<Message>, results: seq<Block>, b: Block)
    requires b.Result? && results != [] && InGroup(turns, messages + [Message(UserRole, results)])
    ensures InGroup(turns + [Tool(b)], messages + [Message(UserRole, results + [b])])
  {
    RunAppend(turns, Tool(b));
    AppendToGroup(messages, Message(UserRole, results), b);
  }

  lemma {:induction false} GroupReached(turns: seq<Turn>, messages: seq<Message>, results: seq<Block>)
    requires Reaches(turns, messages) && EndsWith(messages, AssistantRole) && results != []
    requires forall k :: 0 <= k < |results| ==> results[k].Result?
    ensures InGroup(turns + ToolTurns(results), messages + [Message(UserRole, results)])
  {
    var n := |results| - 1;
    var before, last := results[..n], results[n];
    assert results == before + [last];
    AppendTurn(before, last);
    assert turns + ToolTurns(results) == turns + ToolTurns(before) + [Tool(last)];
    if n > 0 {
      GroupReached(turns, messages, before);
      GroupGrows(turns + ToolTurns(before), messages, before, last);
    } else {
      assert turns + ToolTurns(before) == turns && before + [last] == [last];
      GroupOpens(turns, messages, last);
    }
  }

  lemma {:induction false} MessageReached(turns: seq<Turn>, messages: seq<Message>, m: Message)
    requires Reaches(turns, messages) && !IsToolGroup(m) && !EndsWith(messages, m.role)
    ensures Reaches(turns + Turns(m), messages + [m])
  {
    var t := if m.role == UserRole then User(m.content) else Assistant(m.content);
    assert Turns(m) == [t];
    RunAppend(turns, t);
    assert Step(Run(turns).value, t).value.messages == messages + [m];
  }

  lemma {:induction false} MessagesReached(messages: seq<Message>)
    requires WellFormed(messages)
    ensures Reaches(Rebuild(messages), messages)
  {
    if messages != [] {
      var n := |messages| - 1;
      var m := messages[n];
      assert WellFormed(messages[..n]) by {
        forall i | 0 <= i < n ensures messages[..n][i] == messages[i] { }
      }
      MessagesReached(messages[..n]);
      assert messages == messages[..n] + [m];
      if IsToolGroup(m) {
        GroupReached(Rebuild(messages[..n]), messages[..n], m.content);
      } else {
        MessageReached(Rebuild(messages[..n]), messages[..n], m);
      }
    }
  }

  /** A request as messages: its system text first, if there is any. */
  function RebuildRequest(r: Request): seq<Turn> {
    (if r.system == [] then [] else [System(r.system)]) + Rebuild(r.messages)
  }

  /** System text in front of a conversation is kept apart from it. */
  lemma {:induction false} SystemFirst(texts: seq<Block>, turns: seq<Turn>)
    requires turns != [] && Run(turns).Some? && !turns[0].System? && Run(turns).value.system == []
    ensures Run([System(texts)] + turns) == Some(Run(turns).value.(system := texts))
  {
    var n := |turns| - 1;
    var all := [System(texts)] + turns;
    assert all[..|all| - 1] == [System(texts)] + turns[..n];
    if n == 0 {
      assert all[..1] == [System(texts)] && [System(texts)][..0] == [] && turns[..0] == [];
      assert Run([System(texts)]) == Some(State(texts, [], false, Some(System(texts)))) by {
        assert [] + texts == texts;
      }
    } else {
      SystemEmpty(turns);
      SystemFirst(texts, turns[..n]);
    }
  }

  /** Once a conversation has begun no system text is added. */
  lemma {:induction false} SystemEmpty(turns: seq<Turn>)
    requires |turns| > 1 && Run(turns).Some? && !turns[0].System? && Run(turns).value.system == []
    ensures Run(turns[..|turns| - 1]).value.system == [] && Run(turns[..|turns| - 1]).value.conversing
  {
    var before := turns[..|turns| - 1];
    assert before[0] == turns[0];
    Conversing(before);
  }

  lemma {:induction false} Conversing(turns: seq<Turn>)
    requires turns != [] && Run(turns).Some? && !turns[0].System?
    ensures Run(turns).value.conversing
  {
    if |turns| > 1 {
      assert turns[..|turns| - 1][0] == turns[0];
      Conversing(turns[..|turns| - 1]);
    } else {
      assert turns[..0] == [];
    }
  }

  /** The other direction: a well-formed request is the translation of what it reads back as. */
  lemma {:induction false} EveryRequestIsReached(r: Request)
    requires WellFormed(r.messages) && r.messages != []
    ensures Arrange(RebuildRequest(r)) == Some(r)
  {
    MessagesReached(r.messages);
    if r.system == [] {
      assert RebuildRequest(r) == Rebuild(r.messages);
    } else {
      RebuildStarts(r.messages);
      SystemFirst(r.system, Rebuild(r.messages));
    }
  }

  lemma {:induction false} RebuildStarts(messages: seq<Message>)
    requires messages != []
    ensures Rebuild(messages) != [] && !Rebuild(messages)[0].System?
  {
    var n := |messages| - 1;
    TurnsStart(messages[n]);
    if n > 0 {
      RebuildStarts(messages[..n]);
    } else {
      assert messages[..n] == [];
    }
  }

  lemma {:induction false} TurnsStart(m: Message)
    ensures Turns(m) != [] && !Turns(m)[0].System?
  {
    if IsToolGroup(m) { GroupStart(m.content); }
  }

  lemma {:induction false} GroupStart(results: seq<Block>)
    requires results != []
    ensures ToolTurns(results) != [] && ToolTurns(results)[0].Tool?
  {
    if |results| > 1 {
      GroupStart(results[..|results| - 1]);
    } else {
      assert results[..0] == [];
    }
  }
}
