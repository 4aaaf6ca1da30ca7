/** What Gemini's tool-call identities keep of the chat ids they replace. */
module GeminiIdentities {
  import opened JsonValues
  import opened ChatTurns
  import opened ChatMessages
  import opened GeminiMessages

  // -------------------------------------------------------------------------
  // Every result answers an earlier call

  predicate CallOf(b: Block, identity: Identity) {
    b.Call? && b.id == identity.id && b.name == identity.name
  }

  predicate CallsIn(m: Message, identity: Identity) {
    m.role == AssistantRole && exists b :: b in m.content && CallOf(b, identity)
  }

  /** An assistant message among these makes the call. */
  predicate Called(messages: seq<Message>, identity: Identity) {
    exists j :: 0 <= j < |messages| && CallsIn(messages[j], identity)
  }

  predicate AnswersIn(m: Message, before: seq<Message>) {
    m.role == UserRole ==>
      forall b :: b in m.content && b.Result? ==> Called(before, Identity(b.id, b.name))
  }

  /** Each result carries the id and name of a call made in an earlier message. */
  predicate Answered(messages: seq<Message>) {
    forall i :: 0 <= i < |messages| ==> AnswersIn(messages[i], messages[..i])
  }

  predicate AllCalled(names: Names, messages: seq<Message>) {
    forall id :: id in names ==> Called(messages, names[id])
  }

  lemma CalledGrows(messages: seq<Message>, more: seq<Message>, identity: Identity)
    requires Called(messages, identity)
    ensures Called(messages + more, identity)
  {
    var j :| 0 <= j < |messages| && CallsIn(messages[j], identity);
    assert (messages + more)[j] == messages[j];
  }

  lemma AnsweredAppend(messages: seq<Message>, m: Message)
    requires Answered(messages) && AnswersIn(m, messages)
    ensures Answered(messages + [m])
  {
    var all := messages + [m];
    forall i | 0 <= i < |all| ensures AnswersIn(all[i], all[..i]) {
      assert all[..i] == messages[..i];
      if i == |messages| { assert messages[..i] == messages; }
    }
  }

  lemma {:induction false} BlocksCalled(ids: Ids, names: Names, blocks: seq<Block>, messages: seq<Message>)
    requires ResolveBlocks(ids, names, blocks).Some? && AllCalled(names, messages)
    ensures var r := ResolveBlocks(ids, names, blocks).value;
      forall id :: id in r.names ==> Called(messages, r.names[id]) || exists b :: b in r.blocks && CallOf(b, r.names[id])
  {
    if blocks != [] {
      var n := |blocks| - 1;
      BlocksCalled(ids, names, blocks[..n], messages);
      var before := ResolveBlocks(ids, names, blocks[..n]).value;
      var last := ResolveBlock(ids, before.names, blocks[n]).value;
      var r := ResolveBlocks(ids, names, blocks).value;
      forall id | id in r.names ensures Called(messages, r.names[id]) || exists b :: b in r.blocks && CallOf(b, r.names[id]) {
        if id in before.names && r.names[id] == before.names[id] {
          if !Called(messages, r.names[id]) {
            var b :| b in before.blocks && CallOf(b, r.names[id]);
            assert b in r.blocks;
          }
        } else {
          assert CallOf(last.blocks[0], r.names[id]) && last.blocks[0] in r.blocks;
        }
      }
    }
  }

  /** An assistant message makes the calls that it adds to the names. */
  lemma AssistantStep(ids: Ids, names: Names, s: State, t: Turn)
    requires t.Assistant? && AllCalled(names, s.messages) && Answered(s.messages)
    requires ResolveTurn(ids, names, t).Some?
    requires Step(s, ResolveTurn(ids, names, t).value.turns[0]).Some?
    ensures var r := ResolveTurn(ids, names, t).value;
      AllCalled(r.names, Step(s, r.turns[0]).value.messages) && Answered(Step(s, r.turns[0]).value.messages)
  {
    var r := ResolveBlocks(ids, names, t.blocks).value;
    var m := Message(AssistantRole, r.blocks);
    BlocksCalled(ids, names, t.blocks, s.messages);
    AnsweredAppend(s.messages, m);
    forall id | id in r.names ensures Called(s.messages + [m], r.names[id]) {
      if Called(s.messages, r.names[id]) {
        CalledGrows(s.messages, [m], r.names[id]);
      } else {
        assert CallsIn((s.messages + [m])[|s.messages|], r.names[id]);
      }
    }
  }

  lemma AllCalledGrows(names: Names, messages: seq<Message>, more: seq<Message>)
    requires AllCalled(names, messages)
    ensures AllCalled(names, messages + more)
  {
    forall id | id in names ensures Called(messages + more, names[id]) {
      CalledGrows(messages, more, names[id]);
    }
  }

  /** A call is made by an assistant message, so not by the tool group that ends the messages. */
  lemma CalledBeforeGroup(before: seq<Message>, group: Message, identity: Identity)
    requires Called(before + [group], identity) && group.role == UserRole
    ensures Called(before, identity)
  {
    var j :| 0 <= j < |before + [group]| && CallsIn((before + [group])[j], identity);
    assert j < |before|;
  }

  /** A result takes its identity from the names, and so from an earlier call. */
  lemma GroupStep(names: Names, before: seq<Message>, group: Message, b: Block)
    requires AllCalled(names, before + [group]) && Answered(before + [group]) && IsToolGroup(group)
    requires b.Result? && Called(before + [group], Identity(b.id, b.name))
    ensures var extended := before + [Message(UserRole, group.content + [b])];
      AllCalled(names, extended) && Answered(extended)
  {
    var m := Message(UserRole, group.content + [b]);
    CalledBeforeGroup(before, group, Identity(b.id, b.name));
    assert AnswersIn(group, before) by {
      assert (before + [group])[|before|] == group && (before + [group])[..|before|] == before;
    }
    assert Answered(before) by {
      forall i | 0 <= i < |before| ensures AnswersIn(before[i], before[..i]) {
        assert (before + [group])[i] == before[i] && (before + [group])[..i] == before[..i];
      }
    }
    AnsweredAppend(before, m);
    forall id | id in names ensures Called(before + [m], names[id]) {
      CalledBeforeGroup(before, group, names[id]);
      CalledGrows(before, [m], names[id]);
    }
  }

  lemma ToolStep(ids: Ids, names: Names, s: State, t: Turn)
    requires t.Tool? && AllCalled(names, s.messages) && Answered(s.messages) && Remembers(s)
    requires ResolveTurn(ids, names, t).Some?
    requires Step(s, ResolveTurn(ids, names, t).value.turns[0]).Some?
    ensures var r := ResolveTurn(ids, names, t).value;
      AllCalled(r.names, Step(s, r.turns[0]).value.messages) && Answered(Step(s, r.turns[0]).value.messages)
  {
    var b := ResolveTurn(ids, names, t).value.turns[0].result;
    assert Called(s.messages, Identity(b.id, b.name));
    if s.previous.value.Tool? {
      var n := |s.messages| - 1;
      assert s.messages == s.messages[..n] + [s.messages[n]];
      GroupStep(names, s.messages[..n], s.messages[n], b);
    } else {
      AnsweredAppend(s.messages, Message(UserRole, [b]));
      AllCalledGrows(names, s.messages, [Message(UserRole, [b])]);
    }
  }

  lemma PlainStep(ids: Ids, names: Names, s: State, t: Turn)
    requires (t.System? || t.User?) && Good(t) && AllCalled(names, s.messages) && Answered(s.messages) && Step(s, t).Some?
    ensures AllCalled(names, Step(s, t).value.messages) && Answered(Step(s, t).value.messages)
  {
    if t.User? {
      AnsweredAppend(s.messages, Message(UserRole, t.parts));
      AllCalledGrows(names, s.messages, [Message(UserRole, t.parts)]);
    }
  }

  /** In every translated request each function response has the id and name of an earlier function call. */
  lemma {:induction false} ResponsesAnswerCalls(ids: Ids, read: MessageReader, source: seq<Json>)
    requires Sound(read) && Advance(ids, read, source).Some?
    ensures AllCalled(Advance(ids, read, source).value.resolved.names, Advance(ids, read, source).value.state.messages)
    ensures Answered(Advance(ids, read, source).value.state.messages)
  {
    if source != [] {
      var n := |source| - 1;
      assert source == source[..n] + [source[n]];
      AdvanceOne(ids, read, source[..n], source[n]);
      ResponsesAnswerCalls(ids, read, source[..n]);
      AdvanceRemembers(ids, read, source[..n]);
      var p, t := Advance(ids, read, source[..n]).value, read(source[n]).value;
      match t
      case Assistant(_) => AssistantStep(ids, p.resolved.names, p.state, t);
      case Tool(_) => ToolStep(ids, p.resolved.names, p.state, t);
      case _ => PlainStep(ids, p.resolved.names, p.state, t);
    }
  }
}
