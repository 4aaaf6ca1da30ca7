/** When a Gemini request determines the chat conversation it was translated from. */
module GeminiRecovery {
  import opened Options
  import opened JsonValues
  import opened ChatTurns
  import opened ChatMessages
  import opened ChatWriting
  import opened GeminiMessages

  /** The translation of messages that have been read. */
  function TranslateTurns(ids: Ids, turns: seq<Turn>): Option<Request> {
    match ResolveAll(ids, turns)
    case Some(r) => Arrange(r.turns)
    case None => None
  }

  lemma {:induction false} TranslatesTurns(ids: Ids, read: MessageReader, source: seq<Json>)
    requires ReadAll(read, source).Some?
    ensures TranslateGemini(ids, read, source) == TranslateTurns(ids, ReadAll(read, source).value)
  {}

  // -------------------------------------------------------------------------
  // Ambiguity

  /** The provider id and signature that a chat id stands for; `None` for a malformed one. */
  function Meaning(ids: Ids, id: string): Option<(string, string)> {
    match Unwrap(ids, id)
    case Plain => Some((id, ""))
    case Signed(provider, signature) => Some((provider, signature))
    case Malformed => None
  }

  /** Some class of chat ids, such as all of them or those that the gateway issues. */
  type IdClass = string -> bool

  predicate AnyId(id: string) { true }

  /** No other id of the class stands for the same. */
  ghost predicate UniqueId(ids: Ids, allowed: IdClass, id: string) {
    forall other :: allowed(other) && Meaning(ids, other) == Meaning(ids, id) ==> other == id
  }

  /** No other known call has the identity of this one. */
  predicate UniqueAnswer(names: Names, id: string) {
    id in names ==> forall other :: other in names && names[other] == names[id] ==> other == id
  }

  ghost predicate UniqueCall(ids: Ids, allowed: IdClass, b: Block) {
    b.Call? ==> UniqueId(ids, allowed, b.id)
  }

  ghost predicate UniqueTurn(ids: Ids, allowed: IdClass, names: Names, t: Turn) {
    match t
    case Assistant(blocks) => forall i :: 0 <= i < |blocks| ==> UniqueCall(ids, allowed, blocks[i])
    case Tool(result) => result.Result? ==> UniqueAnswer(names, result.id)
    case _ => true
  }

  /** Every call's id is the only one of its meaning, and every result answers the only call so far
      with its identity. */
  ghost predicate Unambiguous(ids: Ids, allowed: IdClass, turns: seq<Turn>) {
    turns == [] ||
    (var before := turns[..|turns| - 1];
     && Unambiguous(ids, allowed, before)
     && (ResolveAll(ids, before).Some? ==>
           UniqueTurn(ids, allowed, ResolveAll(ids, before).value.names, turns[|turns| - 1])))
  }

  predicate UsesOnlyBlock(allowed: IdClass, b: Block) {
    b.Call? ==> b.signature == "" && b.id != "" && allowed(b.id)
  }

  /** Calls and results as read from chat, with call ids of the class. */
  predicate UsesOnly(allowed: IdClass, t: Turn) {
    match t
    case Assistant(blocks) => forall i :: 0 <= i < |blocks| ==> UsesOnlyBlock(allowed, blocks[i])
    case Tool(result) => result.Result? ==> result.name == ""
    case _ => true
  }

  predicate AllUseOnly(allowed: IdClass, turns: seq<Turn>) {
    forall i :: 0 <= i < |turns| ==> UsesOnly(allowed, turns[i])
  }

  // -------------------------------------------------------------------------
  // Without ambiguity the conversation is determined

  lemma CallDetermined(ids: Ids, allowed: IdClass, a: Block, b: Block)
    requires a.Call? && b.Call? && UsesOnlyBlock(allowed, a) && UsesOnlyBlock(allowed, b) && UniqueId(ids, allowed, a.id)
    requires ResolveCall(ids, a).Some? && ResolveCall(ids, a) == ResolveCall(ids, b)
    ensures a == b
  {
    assert Meaning(ids, a.id) == Meaning(ids, b.id);
  }

  lemma BlockDetermined(ids: Ids, allowed: IdClass, names: Names, names': Names, a: Block, b: Block)
    requires UsesOnlyBlock(allowed, a) && UniqueCall(ids, allowed, a) && UsesOnlyBlock(allowed, b)
    requires ResolveBlock(ids, names, a).Some? && ResolveBlock(ids, names', b).Some?
    requires ResolveBlock(ids, names, a).value.blocks[0] == ResolveBlock(ids, names', b).value.blocks[0]
    ensures a == b
  {
    if a.Call? && b.Call? { CallDetermined(ids, allowed, a, b); }
  }

  /** The blocks of a message resolve one by one. */
  lemma {:induction false} ResolvedParts(ids: Ids, names: Names, blocks: seq<Block>)
    requires blocks != [] && ResolveBlocks(ids, names, blocks).Some?
    ensures var n := |blocks| - 1;
      var r, before := ResolveBlocks(ids, names, blocks).value, ResolveBlocks(ids, names, blocks[..n]);
      && before.Some? && ResolveBlock(ids, before.value.names, blocks[n]).Some?
      && before.value.blocks == r.blocks[..n]
      && ResolveBlock(ids, before.value.names, blocks[n]).value.blocks[0] == r.blocks[n]
      && ResolveBlock(ids, before.value.names, blocks[n]).value.names == r.names
  {}

  lemma {:induction false} BlocksDetermined(ids: Ids, allowed: IdClass, names: Names, a: seq<Block>, b: seq<Block>)
    requires forall i :: 0 <= i < |a| ==> UsesOnlyBlock(allowed, a[i]) && UniqueCall(ids, allowed, a[i])
    requires forall i :: 0 <= i < |b| ==> UsesOnlyBlock(allowed, b[i])
    requires ResolveBlocks(ids, names, a).Some? && ResolveBlocks(ids, names, b).Some?
    requires ResolveBlocks(ids, names, a).value.blocks == ResolveBlocks(ids, names, b).value.blocks
    ensures a == b
  {
    var n := |a| - 1;
    assert |a| == |b|;
    if a != [] {
      ResolvedParts(ids, names, a);
      ResolvedParts(ids, names, b);
      BlocksDetermined(ids, allowed, names, a[..n], b[..n]);
      BlockDetermined(ids, allowed, ResolveBlocks(ids, names, a[..n]).value.names,
                      ResolveBlocks(ids, names, b[..n]).value.names, a[n], b[n]);
      assert a == a[..n] + [a[n]] && b == b[..n] + [b[n]];
    }
  }

  lemma {:induction false} TurnDetermined(ids: Ids, allowed: IdClass, names: Names, a: Turn, b: Turn)
    requires UsesOnly(allowed, a) && UsesOnly(allowed, b) && UniqueTurn(ids, allowed, names, a)
    requires ResolveTurn(ids, names, a).Some? && ResolveTurn(ids, names, b).Some?
    requires ResolveTurn(ids, names, a).value.turns == ResolveTurn(ids, names, b).value.turns
    ensures a == b
  {
    var r := ResolveTurn(ids, names, a).value.turns[0];
    if a.Assistant? && b.Assistant? {
      BlocksDetermined(ids, allowed, names, a.blocks, b.blocks);
    }
    if a.Tool? && b.Tool? {
      assert names[a.result.id] == names[b.result.id];
    }
  }

  /** Turns that resolve alike are alike, if one of them is unambiguous. */
  lemma {:induction false} TurnsDetermined(ids: Ids, allowed: IdClass, a: seq<Turn>, b: seq<Turn>)
    requires AllUseOnly(allowed, a) && AllUseOnly(allowed, b) && Unambiguous(ids, allowed, a)
    requires ResolveAll(ids, a).Some? && ResolveAll(ids, b).Some?
    requires ResolveAll(ids, a).value.turns == ResolveAll(ids, b).value.turns
    ensures a == b
  {
    assert |a| == |b|;
    if a != [] {
      var n := |a| - 1;
      var r := ResolveAll(ids, a).value.turns;
      assert ResolveAll(ids, a[..n]).value.turns == r[..n] && ResolveAll(ids, b[..n]).value.turns == r[..n];
      TurnsDetermined(ids, allowed, a[..n], b[..n]);
      var names := ResolveAll(ids, a[..n]).value.names;
      var x, y := ResolveTurn(ids, names, a[n]).value.turns, ResolveTurn(ids, names, b[n]).value.turns;
      assert x == [r[n]] && y == [r[n]];
      TurnDetermined(ids, allowed, names, a[n], b[n]);
      assert a == a[..n] + [a[n]] && b == b[..n] + [b[n]];
    }
  }

  // -------------------------------------------------------------------------
  // Ambiguity gives a second conversation

  /** The first message at which the turns are ambiguous. */
  lemma {:induction false} FirstAmbiguity(ids: Ids, allowed: IdClass, turns: seq<Turn>) returns (t: nat)
    requires ResolveAll(ids, turns).Some? && !Unambiguous(ids, allowed, turns)
    ensures t < |turns| && ResolveAll(ids, turns[..t]).Some?
    ensures !UniqueTurn(ids, allowed, ResolveAll(ids, turns[..t]).value.names, turns[t])
  {
    var n := |turns| - 1;
    if !Unambiguous(ids, allowed, turns[..n]) {
      t := FirstAmbiguity(ids, allowed, turns[..n]);
      assert turns[..n][..t] == turns[..t];
    } else {
      t := n;
    }
  }

  lemma {:induction false} AppendAlike(ids: Ids, a: seq<Turn>, b: seq<Turn>, x: Turn, y: Turn)
    requires ResolveAll(ids, a) == ResolveAll(ids, b)
    requires ResolveAll(ids, a).Some? ==>
      ResolveTurn(ids, ResolveAll(ids, a).value.names, x) == ResolveTurn(ids, ResolveAll(ids, a).value.names, y)
    ensures ResolveAll(ids, a + [x]) == ResolveAll(ids, b + [y])
  {
    ResolveAppend(ids, a, x);
    ResolveAppend(ids, b, y);
  }

  /** Turns that resolve alike go on to resolve alike. */
  lemma {:induction false} ResolveAlike(ids: Ids, a: seq<Turn>, b: seq<Turn>, rest: seq<Turn>)
    requires ResolveAll(ids, a) == ResolveAll(ids, b)
    ensures ResolveAll(ids, a + rest) == ResolveAll(ids, b + rest)
  {
    if rest == [] {
      assert a + rest == a && b + rest == b;
    } else {
      var init, last := rest[..|rest| - 1], rest[|rest| - 1];
      ResolveAlike(ids, a, b, init);
      AppendAlike(ids, a + init, b + init, last, last);
      assert a + rest == (a + init) + [last] && b + rest == (b + init) + [last];
    }
  }

  /** Answering another call of the same identity resolves to the same. */
  lemma {:induction false} AnswerReplaced(ids: Ids, turns: seq<Turn>, t: nat, u: Turn)
    requires t < |turns| && ResolveAll(ids, turns[..t]).Some?
    requires ResolveTurn(ids, ResolveAll(ids, turns[..t]).value.names, u) ==
      ResolveTurn(ids, ResolveAll(ids, turns[..t]).value.names, turns[t])
    ensures ResolveAll(ids, turns[t := u]) == ResolveAll(ids, turns)
  {
    var before, rest := turns[..t], turns[t + 1..];
    var a, b := before + [turns[t]], before + [u];
    assert a + rest == turns;
    assert b + rest == turns[t := u];
    AppendAlike(ids, before, before, turns[t], u);
    ResolveAlike(ids, a, b, rest);
  }

  function Swap(c: string, d: string, id: string): string {
    if id == c then d else if id == d then c else id
  }

  function SwapBlock(c: string, d: string, b: Block): Block {
    if b.Call? then Call(Swap(c, d, b.id), b.name, b.arguments, b.signature) else b
  }

  function SwapBlocks(c: string, d: string, blocks: seq<Block>): seq<Block> {
    seq(|blocks|, i requires 0 <= i < |blocks| => SwapBlock(c, d, blocks[i]))
  }

  function SwapTurn(c: string, d: string, t: Turn): Turn {
    match t
    case Assistant(blocks) => Assistant(SwapBlocks(c, d, blocks))
    case Tool(result) =>
      if result.Result? then Tool(Result(Swap(c, d, result.id), result.name, result.content)) else t
    case _ => t
  }

  function SwapTurns(c: string, d: string, turns: seq<Turn>): seq<Turn> {
    seq(|turns|, i requires 0 <= i < |turns| => SwapTurn(c, d, turns[i]))
  }

  predicate SwappedAt(c: string, d: string, names: Names, names': Names, id: string) {
    (id in names' <==> Swap(c, d, id) in names) && (id in names' ==> names'[id] == names[Swap(c, d, id)])
  }

  ghost predicate Swapped(c: string, d: string, names: Names, names': Names) {
    forall id :: SwappedAt(c, d, names, names', id)
  }

  lemma SwapResolvesCall(ids: Ids, c: string, d: string, b: Block)
    requires Meaning(ids, c) == Meaning(ids, d) && Meaning(ids, c).Some? && b.Call? && b.signature == ""
    ensures ResolveCall(ids, SwapBlock(c, d, b)) == ResolveCall(ids, b)
  {
    if c != d { assert Unwrap(ids, c).Signed? && Unwrap(ids, d).Signed?; }
  }

  lemma SwappedUpdate(c: string, d: string, names: Names, names': Names, id: string, identity: Identity)
    requires Swapped(c, d, names, names')
    ensures id in names <==> Swap(c, d, id) in names'
    ensures Swapped(c, d, names[id := identity], names'[Swap(c, d, id) := identity])
  {
    assert SwappedAt(c, d, names, names', Swap(c, d, id)) && Swap(c, d, Swap(c, d, id)) == id;
    var updated, updated' := names[id := identity], names'[Swap(c, d, id) := identity];
    forall x ensures SwappedAt(c, d, updated, updated', x) {
      assert SwappedAt(c, d, names, names', x);
      assert x == Swap(c, d, id) <==> Swap(c, d, x) == id;
    }
  }

  lemma SwapResolvesBlock(ids: Ids, c: string, d: string, names: Names, names': Names, b: Block)
    requires Meaning(ids, c) == Meaning(ids, d) && Meaning(ids, c).Some? && Swapped(c, d, names, names')
    requires b.Call? ==> b.signature == ""
    requires ResolveBlock(ids, names, b).Some?
    ensures var r, r' := ResolveBlock(ids, names, b).value, ResolveBlock(ids, names', SwapBlock(c, d, b));
      r'.Some? && r'.value.blocks == r.blocks && Swapped(c, d, r.names, r'.value.names)
  {
    if b.Call? {
      SwapResolvesCall(ids, c, d, b);
      SwappedUpdate(c, d, names, names', b.id, IdentityOf(ResolveCall(ids, b).value));
    }
  }

  lemma {:induction false} SwapResolvesBlocks(ids: Ids, c: string, d: string, names: Names, names': Names, blocks: seq<Block>)
    requires Meaning(ids, c) == Meaning(ids, d) && Meaning(ids, c).Some? && Swapped(c, d, names, names')
    requires forall i :: 0 <= i < |blocks| ==> blocks[i].Call? ==> blocks[i].signature == ""
    requires ResolveBlocks(ids, names, blocks).Some?
    ensures var r, r' := ResolveBlocks(ids, names, blocks).value, ResolveBlocks(ids, names', SwapBlocks(c, d, blocks));
      r'.Some? && r'.value.blocks == r.blocks && Swapped(c, d, r.names, r'.value.names)
  {
    if blocks != [] {
      var n := |blocks| - 1;
      SwapResolvesBlocks(ids, c, d, names, names', blocks[..n]);
      assert SwapBlocks(c, d, blocks)[..n] == SwapBlocks(c, d, blocks[..n]);
      var before := ResolveBlocks(ids, names, blocks[..n]).value;
      var before' := ResolveBlocks(ids, names', SwapBlocks(c, d, blocks[..n])).value;
      SwapResolvesBlock(ids, c, d, before.names, before'.names, blocks[n]);
    }
  }

  lemma {:induction false} SwapResolvesTurn(ids: Ids, c: string, d: string, names: Names, names': Names, t: Turn)
    requires Meaning(ids, c) == Meaning(ids, d) && Meaning(ids, c).Some? && Swapped(c, d, names, names')
    requires UsesOnly(AnyId, t) && ResolveTurn(ids, names, t).Some?
    ensures var r, r' := ResolveTurn(ids, names, t).value, ResolveTurn(ids, names', SwapTurn(c, d, t));
      r'.Some? && r'.value.turns == r.turns && Swapped(c, d, r.names, r'.value.names)
  {
    match t
    case Assistant(blocks) =>
      assert forall i :: 0 <= i < |blocks| ==> UsesOnlyBlock(AnyId, blocks[i]);
      SwapResolvesBlocks(ids, c, d, names, names', blocks);
    case Tool(result) =>
      assert SwappedAt(c, d, names, names', Swap(c, d, result.id)) && Swap(c, d, Swap(c, d, result.id)) == result.id;
    case _ =>
  }

  /** Exchanging two ids that stand for the same, throughout, resolves to the same. */
  lemma {:induction false} SwapResolves(ids: Ids, c: string, d: string, turns: seq<Turn>)
    requires Meaning(ids, c) == Meaning(ids, d) && Meaning(ids, c).Some?
    requires AllUseOnly(AnyId, turns) && ResolveAll(ids, turns).Some?
    ensures var r, r' := ResolveAll(ids, turns).value, ResolveAll(ids, SwapTurns(c, d, turns));
      r'.Some? && r'.value.turns == r.turns && Swapped(c, d, r.names, r'.value.names)
  {
    if turns != [] {
      var n := |turns| - 1;
      SwapResolves(ids, c, d, turns[..n]);
      assert SwapTurns(c, d, turns)[..n] == SwapTurns(c, d, turns[..n]);
      SwapResolvesTurn(ids, c, d, ResolveAll(ids, turns[..n]).value.names,
                       ResolveAll(ids, SwapTurns(c, d, turns[..n])).value.names, turns[n]);
    }
  }

  lemma {:induction false} CallsHaveMeaning(ids: Ids, names: Names, blocks: seq<Block>, i: nat)
    requires ResolveBlocks(ids, names, blocks).Some? && i < |blocks| && blocks[i].Call?
    ensures Meaning(ids, blocks[i].id).Some?
  {
    ResolvedParts(ids, names, blocks);
    if i < |blocks| - 1 { CallsHaveMeaning(ids, names, blocks[..|blocks| - 1], i); }
  }

  lemma {:induction false} NamesOfBlocks(ids: Ids, allowed: IdClass, names: Names, blocks: seq<Block>)
    requires ResolveBlocks(ids, names, blocks).Some? && "" !in names
    requires forall i :: 0 <= i < |blocks| ==> UsesOnlyBlock(allowed, blocks[i])
    ensures "" !in ResolveBlocks(ids, names, blocks).value.names
  {
    if blocks != [] {
      ResolvedParts(ids, names, blocks);
      NamesOfBlocks(ids, allowed, names, blocks[..|blocks| - 1]);
    }
  }

  lemma {:induction false} NamesOfTurns(ids: Ids, allowed: IdClass, turns: seq<Turn>)
    requires ResolveAll(ids, turns).Some? && AllUseOnly(allowed, turns)
    ensures "" !in ResolveAll(ids, turns).value.names
  {
    if turns != [] {
      var n := |turns| - 1;
      NamesOfTurns(ids, allowed, turns[..n]);
      if turns[n].Assistant? {
        NamesOfBlocks(ids, allowed, ResolveAll(ids, turns[..n]).value.names, turns[n].blocks);
      }
    }
  }

  /** The second conversation: it differs in one message that is not a system message, and only in
      ids of assistant and tool messages. */
  ghost predicate Alternative(ids: Ids, allowed: IdClass, turns: seq<Turn>, turns': seq<Turn>) {
    && |turns'| == |turns| && AllUseOnly(allowed, turns')
    && ResolveAll(ids, turns).Some? && ResolveAll(ids, turns').Some?
    && ResolveAll(ids, turns').value.turns == ResolveAll(ids, turns).value.turns
    && AllRenamed(turns, turns')
    && exists i :: 0 <= i < |turns| && turns'[i] != turns[i]
  }

  predicate RenamedCall(b: Block, b': Block)
    requires b.Call?
  {
    b'.Call? && b'.id != "" && b' == Call(b'.id, b.name, b.arguments, b.signature)
  }

  /** Only ids differ, and those of the second turn are not empty. */
  predicate Renamed(t: Turn, t': Turn) {
    match t
    case Assistant(blocks) =>
      && t'.Assistant? && |t'.blocks| == |blocks|
      && forall i :: 0 <= i < |blocks| ==>
        if blocks[i].Call?
        then RenamedCall(blocks[i], t'.blocks[i])
        else t'.blocks[i] == blocks[i]
    case Tool(result) =>
      && result.Result? && t'.Tool? && t'.result.Result? && t'.result.id != ""
      && t'.result == Result(t'.result.id, result.name, result.content)
    case _ => false
  }

  predicate AllRenamed(turns: seq<Turn>, turns': seq<Turn>) {
    |turns'| == |turns| && forall i :: 0 <= i < |turns| ==> turns'[i] == turns[i] || Renamed(turns[i], turns'[i])
  }

  lemma {:induction false} AnotherAnswer(ids: Ids, allowed: IdClass, turns: seq<Turn>, t: nat, other: string) returns (turns': seq<Turn>)
    requires ResolveAll(ids, turns).Some? && AllUseOnly(allowed, turns) && t < |turns| && ResolveAll(ids, turns[..t]).Some?
    requires turns[t].Tool? && turns[t].result.Result?
    requires var names := ResolveAll(ids, turns[..t]).value.names;
      && turns[t].result.id in names && other in names
      && names[other] == names[turns[t].result.id] && other != turns[t].result.id
    ensures Alternative(ids, allowed, turns, turns')
  {
    var u := Tool(Result(other, "", turns[t].result.content));
    assert UsesOnly(allowed, turns[t]);
    assert AllUseOnly(allowed, turns[..t]);
    NamesOfTurns(ids, allowed, turns[..t]);
    turns' := turns[t := u];
    AnswerReplaced(ids, turns, t, u);
    assert turns'[t] != turns[t];
  }

  lemma {:induction false} AnotherSpelling(ids: Ids, allowed: IdClass, turns: seq<Turn>, t: nat, i: nat, other: string) returns (turns': seq<Turn>)
    requires ResolveAll(ids, turns).Some? && AllUseOnly(allowed, turns) && t < |turns|
    requires turns[t].Assistant? && i < |turns[t].blocks| && turns[t].blocks[i].Call?
    requires var c := turns[t].blocks[i].id;
      allowed(other) && other != c && Meaning(ids, other) == Meaning(ids, c) && Meaning(ids, c).Some?
    ensures Alternative(ids, allowed, turns, turns')
  {
    var c := turns[t].blocks[i].id;
    turns' := SwapTurns(c, other, turns);
    assert UsesOnlyBlock(allowed, turns[t].blocks[i]);
    assert Unwrap(ids, c).Signed? && Unwrap(ids, other).Signed? && other != "";
    forall k | 0 <= k < |turns| ensures UsesOnly(AnyId, turns[k]) {
      LooserClass(allowed, turns[k]);
    }
    SwapResolves(ids, c, other, turns);
    forall k | 0 <= k < |turns|
      ensures UsesOnly(allowed, turns'[k]) && (turns'[k] == turns[k] || Renamed(turns[k], turns'[k]))
    {
      SwappedTurn(allowed, c, other, turns[k]);
    }
    assert turns'[t].blocks[i].id == other;
  }

  lemma LooserClass(allowed: IdClass, t: Turn)
    requires UsesOnly(allowed, t)
    ensures UsesOnly(AnyId, t)
  {
    if t.Assistant? {
      forall i | 0 <= i < |t.blocks| ensures UsesOnlyBlock(AnyId, t.blocks[i]) {
        assert UsesOnlyBlock(allowed, t.blocks[i]);
      }
    }
  }

  lemma SwappedTurn(allowed: IdClass, c: string, d: string, t: Turn)
    requires UsesOnly(allowed, t) && allowed(c) && allowed(d) && c != "" && d != ""
    ensures UsesOnly(allowed, SwapTurn(c, d, t))
    ensures SwapTurn(c, d, t) == t || Renamed(t, SwapTurn(c, d, t))
  {
    if t.Assistant? {
      forall i | 0 <= i < |t.blocks| ensures UsesOnlyBlock(allowed, SwapBlocks(c, d, t.blocks)[i]) {
        assert UsesOnlyBlock(allowed, t.blocks[i]);
      }
      assert forall i :: 0 <= i < |t.blocks| ==> UsesOnlyBlock(allowed, t.blocks[i]);
    }
  }

  /** Wherever the turns are ambiguous there is a second conversation that resolves alike. */
  lemma {:induction false} SecondConversation(ids: Ids, allowed: IdClass, turns: seq<Turn>) returns (turns': seq<Turn>)
    requires ResolveAll(ids, turns).Some? && AllUseOnly(allowed, turns) && !Unambiguous(ids, allowed, turns)
    ensures Alternative(ids, allowed, turns, turns')
  {
    var t := FirstAmbiguity(ids, allowed, turns);
    var names := ResolveAll(ids, turns[..t]).value.names;
    ResolvesAt(ids, turns, t);
    if turns[t].Tool? {
      var x := turns[t].result.id;
      var other :| other in names && names[other] == names[x] && other != x;
      turns' := AnotherAnswer(ids, allowed, turns, t, other);
    } else {
      var i :| 0 <= i < |turns[t].blocks| && !UniqueCall(ids, allowed, turns[t].blocks[i]);
      var c := turns[t].blocks[i].id;
      var other :| allowed(other) && Meaning(ids, other) == Meaning(ids, c) && other != c;
      CallsHaveMeaning(ids, names, turns[t].blocks, i);
      turns' := AnotherSpelling(ids, allowed, turns, t, i, other);
    }
  }

  lemma {:induction false} ResolvesAt(ids: Ids, turns: seq<Turn>, t: nat)
    requires ResolveAll(ids, turns).Some? && t < |turns|
    ensures ResolveAll(ids, turns[..t]).Some?
    ensures ResolveTurn(ids, ResolveAll(ids, turns[..t]).value.names, turns[t]).Some?
  {
    var n := |turns| - 1;
    if t < n {
      ResolvesAt(ids, turns[..n], t);
      assert turns[..n][..t] == turns[..t];
    }
  }

  // -------------------------------------------------------------------------
  // On sources

  lemma {:induction false} ConversationAppend(turns: seq<Turn>, t: Turn)
    ensures Conversation(turns + [t]) == if t.System? then Conversation(turns) else Conversation(turns) + [t]
  {
    assert (turns + [t])[..|turns|] == turns;
  }

  /** The conversation resolves to the conversation of what the turns resolve to. */
  ghost predicate ConversationAgrees(ids: Ids, turns: seq<Turn>) {
    && ResolveAll(ids, turns).Some?
    && ResolveAll(ids, Conversation(turns)) ==
         Some(Resolved(ResolveAll(ids, turns).value.names, Conversation(ResolveAll(ids, turns).value.turns)))
  }

  lemma {:induction false} SystemStep(ids: Ids, turns: seq<Turn>, t: Turn)
    requires ConversationAgrees(ids, turns) && t.System?
    ensures ConversationAgrees(ids, turns + [t])
  {
    ResolveAppend(ids, turns, t);
    ConversationAppend(turns, t);
    ConversationAppend(ResolveAll(ids, turns).value.turns, t);
  }

  lemma {:induction false} SpokenStep(ids: Ids, turns: seq<Turn>, t: Turn)
    requires ConversationAgrees(ids, turns) && !t.System?
    requires ResolveTurn(ids, ResolveAll(ids, turns).value.names, t).Some?
    ensures ConversationAgrees(ids, turns + [t])
  {
    var last := ResolveTurn(ids, ResolveAll(ids, turns).value.names, t).value;
    ResolveAppend(ids, turns, t);
    ResolveAppend(ids, Conversation(turns), t);
    ConversationAppend(turns, t);
    assert last.turns == [last.turns[0]] && !last.turns[0].System?;
    ConversationAppend(ResolveAll(ids, turns).value.turns, last.turns[0]);
  }

  lemma {:induction false} AnyStep(ids: Ids, turns: seq<Turn>, t: Turn)
    requires ConversationAgrees(ids, turns)
    requires ResolveTurn(ids, ResolveAll(ids, turns).value.names, t).Some?
    ensures ConversationAgrees(ids, turns + [t])
  {
    if t.System? { SystemStep(ids, turns, t); } else { SpokenStep(ids, turns, t); }
  }

  lemma {:induction false} ConversationResolves(ids: Ids, turns: seq<Turn>)
    requires ResolveAll(ids, turns).Some?
    ensures ConversationAgrees(ids, turns)
  {
    if turns != [] {
      var n := |turns| - 1;
      assert turns[..n] + [turns[n]] == turns;
      ResolvesAt(ids, turns, n);
      ConversationResolves(ids, turns[..n]);
      AnyStep(ids, turns[..n], turns[n]);
    }
  }

  lemma {:induction false} ConversationUnambiguous(ids: Ids, allowed: IdClass, turns: seq<Turn>)
    requires ResolveAll(ids, turns).Some? && Unambiguous(ids, allowed, turns)
    ensures Unambiguous(ids, allowed, Conversation(turns))
  {
    if turns != [] {
      var n := |turns| - 1;
      ConversationUnambiguous(ids, allowed, turns[..n]);
      ConversationResolves(ids, turns[..n]);
      if !turns[n].System? {
        assert Conversation(turns)[..|Conversation(turns)| - 1] == Conversation(turns[..n]);
      }
    }
  }

  lemma {:induction false} ConversationUses(allowed: IdClass, turns: seq<Turn>)
    requires AllUseOnly(allowed, turns)
    ensures AllUseOnly(allowed, Conversation(turns))
  {
    if turns != [] { ConversationUses(allowed, turns[..|turns| - 1]); }
  }

  /** Conversations that agree, in turns of the same kinds, agree message by message. */
  lemma {:induction false} ConversationParts(a: seq<Turn>, b: seq<Turn>, i: nat)
    requires |a| == |b| && i < |a| && !a[i].System?
    requires forall k :: 0 <= k < |a| ==> a[k].System? == b[k].System?
    requires Conversation(a) == Conversation(b)
    ensures a[i] == b[i]
  {
    var n := |a| - 1;
    if !a[n].System? {
      var x, y := Conversation(a), Conversation(b);
      assert x[..|x| - 1] == Conversation(a[..n]) && y[..|y| - 1] == Conversation(b[..n]);
      assert x[|x| - 1] == a[n] && y[|y| - 1] == b[n];
    }
    if i < n { ConversationParts(a[..n], b[..n], i); }
  }

  /** Equal requests come from conversations that resolve alike. */
  lemma {:induction false} SameRequest(ids: Ids, a: seq<Turn>, b: seq<Turn>)
    requires forall i :: 0 <= i < |a| ==> Good(a[i])
    requires forall i :: 0 <= i < |b| ==> Good(b[i])
    requires TranslateTurns(ids, a).Some? && TranslateTurns(ids, a) == TranslateTurns(ids, b)
    ensures Conversation(ResolveAll(ids, a).value.turns) == Conversation(ResolveAll(ids, b).value.turns)
  {
    ReadsBack(ResolveAll(ids, a).value.turns);
    ReadsBack(ResolveAll(ids, b).value.turns);
  }

  /** The source is accepted, and its calls have ids of the class. */
  ghost predicate Accepted(ids: Ids, reader: Reader, allowed: IdClass, source: seq<Json>) {
    && TranslateGemini(ids, ReadWith(reader), source).Some?
    && AllUseOnly(allowed, ReadAll(ReadWith(reader), source).value)
  }

  function ConversationOf(reader: Reader, source: seq<Json>): seq<Turn> {
    match ReadAll(ReadWith(reader), source)
    case Some(turns) => Conversation(turns)
    case None => []
  }

  /** Every accepted source with this request holds the same conversation, tool-call ids included. */
  ghost predicate Determined(ids: Ids, reader: Reader, allowed: IdClass, source: seq<Json>) {
    forall other ::
      && Accepted(ids, reader, allowed, other)
      && TranslateGemini(ids, ReadWith(reader), other) == TranslateGemini(ids, ReadWith(reader), source)
      ==> ConversationOf(reader, other) == ConversationOf(reader, source)
  }

  lemma {:induction false} UnambiguousDetermines(ids: Ids, reader: Reader, allowed: IdClass, source: seq<Json>, other: seq<Json>)
    ensures
      && Accepted(ids, reader, allowed, source) && Accepted(ids, reader, allowed, other)
      && Unambiguous(ids, allowed, ReadAll(ReadWith(reader), source).value)
      && TranslateGemini(ids, ReadWith(reader), other) == TranslateGemini(ids, ReadWith(reader), source)
      ==> ConversationOf(reader, other) == ConversationOf(reader, source)
  {
    var read := ReadWith(reader);
    if && Accepted(ids, reader, allowed, source) && Accepted(ids, reader, allowed, other)
       && Unambiguous(ids, allowed, ReadAll(read, source).value)
       && TranslateGemini(ids, read, other) == TranslateGemini(ids, read, source)
    {
      var a, b := ReadAll(read, source).value, ReadAll(read, other).value;
      TranslatesTurns(ids, read, source);
      TranslatesTurns(ids, read, other);
      ReaderIsSound(reader);
      AllGood(read, source);
      AllGood(read, other);
      SameRequest(ids, a, b);
      ConversationResolves(ids, a);
      ConversationResolves(ids, b);
      ConversationUnambiguous(ids, allowed, a);
      ConversationUses(allowed, a);
      ConversationUses(allowed, b);
      TurnsDetermined(ids, allowed, Conversation(a), Conversation(b));
    }
  }

  // -------------------------------------------------------------------------
  // A second source

  lemma RenamedWritable(reader: Reader, url: UrlWriter, t: Turn, t': Turn)
    requires Writable(reader, url, t) && Renamed(t, t')
    ensures Writable(reader, url, t')
  {
    if t.Assistant? {
      var n: nat :| SpeaksThenCalls(reader, url, t.blocks, n);
      forall i | 0 <= i < n ensures t'.blocks[..n][i] == t.blocks[..n][i] {
        assert Part(reader, url, t.blocks[..n][i], false);
      }
      assert t'.blocks[..n] == t.blocks[..n];
      assert SpeaksThenCalls(reader, url, t'.blocks, n);
    }
  }

  lemma WriteRenamed(reader: Reader, url: UrlWriter, message: Json, t': Turn) returns (message': Json)
    requires ReadWith(reader)(message).Some?
    requires t' == ReadWith(reader)(message).value || Renamed(ReadWith(reader)(message).value, t')
    ensures ReadWith(reader)(message') == Some(t')
  {
    var t := ReadMessage(reader, message).value;
    if t' == t { return message; }
    ReadIsWritable(reader, url, message);
    RenamedWritable(reader, url, t, t');
    message' := WriteTurn(reader, url, t');
  }

  lemma {:induction false} ReadAllSplit(read: MessageReader, source: seq<Json>)
    requires source != [] && ReadAll(read, source).Some?
    ensures var n := |source| - 1;
      var turns := ReadAll(read, source).value;
      && ReadAll(read, source[..n]) == Some(turns[..n]) && read(source[n]) == Some(turns[n])
  {}

  lemma {:induction false} ReadAllAppend(read: MessageReader, source: seq<Json>, message: Json)
    requires ReadAll(read, source).Some? && read(message).Some?
    ensures ReadAll(read, source + [message]) == Some(ReadAll(read, source).value + [read(message).value])
  {
    assert (source + [message])[..|source|] == source;
  }

  lemma {:induction false} RewriteLast(read: MessageReader, source: seq<Json>, message: Json, turns': seq<Turn>)
    requires turns' != [] && ReadAll(read, source) == Some(turns'[..|turns'| - 1]) && read(message) == Some(turns'[|turns'| - 1])
    ensures ReadAll(read, source + [message]) == Some(turns')
  {
    ReadAllAppend(read, source, message);
    assert turns' == turns'[..|turns'| - 1] + [turns'[|turns'| - 1]];
  }

  /** The source with the renamed messages written anew, and all others left as they are. */
  lemma {:induction false} Rewrite(reader: Reader, url: UrlWriter, source: seq<Json>, turns': seq<Turn>) returns (other: seq<Json>)
    requires ReadAll(ReadWith(reader), source).Some? && AllRenamed(ReadAll(ReadWith(reader), source).value, turns')
    ensures ReadAll(ReadWith(reader), other) == Some(turns')
  {
    other := [];
    if source != [] {
      var n, read := |source| - 1, ReadWith(reader);
      ReadAllSplit(read, source);
      var turns := ReadAll(read, source).value;
      assert AllRenamed(turns[..n], turns'[..n]);
      var before := Rewrite(reader, url, source[..n], turns'[..n]);
      var last := WriteRenamed(reader, url, source[n], turns'[n]);
      RewriteLast(read, before, last, turns');
      other := before + [last];
    }
  }

  lemma {:induction false} AlternativeDiffers(ids: Ids, allowed: IdClass, turns: seq<Turn>, turns': seq<Turn>)
    requires Alternative(ids, allowed, turns, turns')
    ensures Conversation(turns') != Conversation(turns)
  {
    var i :| 0 <= i < |turns| && turns'[i] != turns[i];
    assert Renamed(turns[i], turns'[i]);
    if Conversation(turns') == Conversation(turns) {
      ConversationParts(turns, turns', i);
    }
  }

  /** An ambiguous source shares its request with a source of another conversation. */
  lemma {:induction false} AmbiguousIsNotDetermined(ids: Ids, reader: Reader, url: UrlWriter, allowed: IdClass, source: seq<Json>)
    returns (other: seq<Json>)
    requires Accepted(ids, reader, allowed, source)
    requires !Unambiguous(ids, allowed, ReadAll(ReadWith(reader), source).value)
    ensures Accepted(ids, reader, allowed, other)
    ensures TranslateGemini(ids, ReadWith(reader), other) == TranslateGemini(ids, ReadWith(reader), source)
    ensures ConversationOf(reader, other) != ConversationOf(reader, source)
  {
    var read := ReadWith(reader);
    var turns := ReadAll(read, source).value;
    var turns' := SecondConversation(ids, allowed, turns);
    other := Rewrite(reader, url, source, turns');
    TranslatesTurns(ids, read, source);
    TranslatesTurns(ids, read, other);
    AlternativeDiffers(ids, allowed, turns, turns');
  }

  /** The request determines the conversation if and only if the conversation is unambiguous:
      no other id of the class stands for the same as a call's, and no result answers one of
      several calls with the same provider id and name. */
  lemma {:induction false} RequestDetermines(ids: Ids, reader: Reader, allowed: IdClass, source: seq<Json>)
    requires Accepted(ids, reader, allowed, source)
    ensures Determined(ids, reader, allowed, source) <==>
      Unambiguous(ids, allowed, ReadAll(ReadWith(reader), source).value)
  {
    if Unambiguous(ids, allowed, ReadAll(ReadWith(reader), source).value) {
      forall other |
        && Accepted(ids, reader, allowed, other)
        && TranslateGemini(ids, ReadWith(reader), other) == TranslateGemini(ids, ReadWith(reader), source)
        ensures ConversationOf(reader, other) == ConversationOf(reader, source)
      {
        UnambiguousDetermines(ids, reader, allowed, source, other);
      }
    } else {
      var other := AmbiguousIsNotDetermined(ids, reader, (_, _) => "", allowed, source);
    }
  }

  // -------------------------------------------------------------------------
  // Ids as the gateway issues them

  /** A plain id, or exactly what wrapping produces. */
  predicate CanonicalId(ids: Ids, id: string) {
    var u := Unwrap(ids, id); u.Signed? ==> Wrap(ids, u.id, u.signature) == id
  }

  function CanonicalIds(ids: Ids): IdClass {
    id => CanonicalId(ids, id)
  }

  lemma CanonicalIsUnique(ids: Ids, id: string)
    requires CanonicalId(ids, id) && Meaning(ids, id).Some?
    ensures UniqueId(ids, CanonicalIds(ids), id)
  {
    forall other | CanonicalId(ids, other) && Meaning(ids, other) == Meaning(ids, id) ensures other == id { }
  }

  /** Every result answers the only call so far with its identity. */
  ghost predicate AnswersUnique(ids: Ids, turns: seq<Turn>) {
    turns == [] ||
    (var before, t := turns[..|turns| - 1], turns[|turns| - 1];
     && AnswersUnique(ids, before)
     && (t.Tool? && t.result.Result? && ResolveAll(ids, before).Some? ==>
           UniqueAnswer(ResolveAll(ids, before).value.names, t.result.id)))
  }

  lemma {:induction false} CanonicalTurn(ids: Ids, names: Names, t: Turn)
    requires t.Assistant? && UsesOnly(CanonicalIds(ids), t) && ResolveTurn(ids, names, t).Some?
    ensures UniqueTurn(ids, CanonicalIds(ids), names, t)
  {
    forall i | 0 <= i < |t.blocks| ensures UniqueCall(ids, CanonicalIds(ids), t.blocks[i]) {
      if t.blocks[i].Call? {
        assert UsesOnlyBlock(CanonicalIds(ids), t.blocks[i]);
        CallsHaveMeaning(ids, names, t.blocks, i);
        CanonicalIsUnique(ids, t.blocks[i].id);
      }
    }
  }

  lemma {:induction false} CanonicalUnambiguous(ids: Ids, turns: seq<Turn>)
    requires AllUseOnly(CanonicalIds(ids), turns) && ResolveAll(ids, turns).Some?
    ensures Unambiguous(ids, CanonicalIds(ids), turns) <==> AnswersUnique(ids, turns)
  {
    if turns != [] {
      var n := |turns| - 1;
      CanonicalUnambiguous(ids, turns[..n]);
      if turns[n].Assistant? { CanonicalTurn(ids, ResolveAll(ids, turns[..n]).value.names, turns[n]); }
    }
  }

  /** Among sources whose ids are canonical, the request determines the conversation if and only
      if no result answers one of several calls with the same provider id and name. */
  lemma {:induction false} CanonicalDetermines(ids: Ids, reader: Reader, source: seq<Json>)
    requires Accepted(ids, reader, CanonicalIds(ids), source)
    ensures Determined(ids, reader, CanonicalIds(ids), source) <==>
      AnswersUnique(ids, ReadAll(ReadWith(reader), source).value)
  {
    RequestDetermines(ids, reader, CanonicalIds(ids), source);
    CanonicalUnambiguous(ids, ReadAll(ReadWith(reader), source).value);
  }
}
