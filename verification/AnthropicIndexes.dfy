/** The described message with its blocks placed by index, as the protocol numbers them. */
module AnthropicIndexes {
  import opened Options
  import opened JsonValues
  import opened ChatChunks
  import opened LetterOrder
  import opened Placement
  import opened Pieces
  import opened AnthropicResponse
  import opened AnthropicStream
  import opened AnthropicRefinement
  import opened AnthropicOrder

  function BlockIndex(b: Block): int { b.index }

  predicate Speaks(b: Block) { b.opening.OpensText? }

  predicate Calls(b: Block) { !b.opening.OpensText? }

  function ToolBlocks(blocks: seq<Block>): seq<Block> { Kept(blocks, Calls) }

  function TextBlocks(blocks: seq<Block>): seq<Block> { Kept(blocks, Speaks) }

  function CallsOf(blocks: seq<Block>): seq<ToolCall> { Mapped(blocks, CallOf) }

  function PieceOf(b: Block): Piece { Piece(b.index, b.data) }

  function TextPieces(blocks: seq<Block>): seq<Piece> { Mapped(TextBlocks(blocks), PieceOf) }

  lemma {:induction false} ToolCalls(blocks: seq<Block>, n: nat)
    requires n <= |blocks|
    ensures CallsUpTo(blocks, n) == CallsOf(ToolBlocks(blocks[..n]))
  {
    if n > 0 {
      var before, last := blocks[..n - 1], blocks[n - 1];
      assert blocks[..n] == before + [last];
      ToolCalls(blocks, n - 1);
      KeptAppend(before, Calls, last);
    }
  }

  lemma OnePiece(blocks: seq<Block>, b: Block)
    ensures TextPieces(blocks + [b]) == TextPieces(blocks) + if Speaks(b) then [PieceOf(b)] else []
  {
    KeptAppend(blocks, Speaks, b);
  }

  lemma {:induction false} PiecesText(blocks: seq<Block>, n: nat)
    requires n <= |blocks|
    ensures TextUpTo(blocks, n) == Concat(TextPieces(blocks[..n]))
  {
    if n > 0 {
      var before, last := blocks[..n - 1], blocks[n - 1];
      assert blocks[..n] == before + [last];
      PiecesText(blocks, n - 1);
      OnePiece(before, last);
      if Speaks(last) {
        ConcatOne(TextPieces(before), PieceOf(last));
      } else {
        assert TextPieces(before) + [] == TextPieces(before);
        assert TextUpTo(blocks, n - 1) + "" == TextUpTo(blocks, n - 1);
      }
    }
  }

  // -------------------------------------------------------------------------
  // What each block says

  /** The text deltas that say something, in the order they came. */
  function Deltas(events: seq<Option<Event>>): seq<Piece> {
    if events == [] then []
    else
      Deltas(events[..|events| - 1])
      + match events[|events| - 1] { case Some(TextDelta(i, text)) => if text == "" then [] else [Piece(i, text)] case _ => [] }
  }

  lemma {:induction false} DeltasText(events: seq<Option<Event>>)
    ensures Concat(Deltas(events)) == DeltaText(events)
  {
    if events != [] {
      var init, last := events[..|events| - 1], events[|events| - 1];
      DeltasText(init);
      if last.Some? && last.value.TextDelta? && last.value.text != "" {
        ConcatOne(Deltas(init), Piece(last.value.index, last.value.text));
      } else {
        assert Deltas(init) + [] == Deltas(init) && DeltaText(init) + "" == DeltaText(init);
      }
    }
  }

  /** What the text blocks with index i say. */
  function Says(blocks: seq<Block>, i: int): string {
    if blocks == [] then ""
    else
      var before, last := Says(blocks[..|blocks| - 1], i), blocks[|blocks| - 1];
      if Speaks(last) && last.index == i then before + last.data else before
  }

  lemma {:induction false} SaysPieces(blocks: seq<Block>, i: int)
    ensures Says(blocks, i) == SaidAt(TextPieces(blocks), i)
  {
    if blocks != [] {
      var before, last := blocks[..|blocks| - 1], blocks[|blocks| - 1];
      SaysPieces(before, i);
      assert blocks == before + [last];
      OnePiece(before, last);
      if Speaks(last) {
        SaidOne(TextPieces(before), PieceOf(last), i);
        assert Says(before, i) + "" == Says(before, i);
      } else {
        assert TextPieces(before) + [] == TextPieces(before);
      }
    }
  }

  /** One block per index. */
  predicate UniqueBlocks(blocks: seq<Block>) {
    forall p, q :: 0 <= p < q < |blocks| ==> blocks[p].index != blocks[q].index
  }

  lemma {:induction false} SaysExtended(blocks: seq<Block>, p: nat, data: string, i: int)
    requires p < |blocks| && UniqueBlocks(blocks)
    ensures Says(blocks[p := blocks[p].(data := blocks[p].data + data)], i) ==
      Says(blocks, i) + if Speaks(blocks[p]) && i == blocks[p].index then data else ""
  {
    var n := |blocks| - 1;
    var extended := blocks[p := blocks[p].(data := blocks[p].data + data)];
    var said := Says(blocks[..n], i);
    if p == n {
      assert extended[..n] == blocks[..n];
      assert said + (blocks[n].data + data) == (said + blocks[n].data) + data && said + "" == said;
    } else {
      assert extended[..n] == blocks[..n][p := blocks[p].(data := blocks[p].data + data)] && extended[n] == blocks[n];
      SaysExtended(blocks[..n], p, data, i);
    }
  }

  lemma SaysBuilt(b: Builder, e: Event, i: int)
    requires UniqueBlocks(b.blocks) && Fitting(b, e)
    requires forall k :: b.Knows(k) ==> b.blocks[b.position[k]].index == k
    ensures Says(Build(b, e).blocks, i) == Says(b.blocks, i) + if e.TextDelta? && e.index == i then e.text else ""
  {
    assert Says(b.blocks, i) + "" == Says(b.blocks, i);
    match e
    case BlockStart(k, opening, start) =>
      var block := Block(k, opening, start, "");
      assert (b.blocks + [block])[..|b.blocks|] == b.blocks;
    case TextDelta(k, text) => SaysExtended(b.blocks, b.position[k], text, i);
    case JsonDelta(k, partial) => SaysExtended(b.blocks, b.position[k], partial, i);
    case BlockStop(k) => SaysExtended(b.blocks, b.position[k], "{}", i);
    case _ =>
  }

  lemma LinkedUnique(codec: Codec, s: State, b: Builder)
    requires BlocksLinked(codec, s, b)
    ensures UniqueBlocks(b.blocks) && forall k :: b.Knows(k) ==> b.blocks[b.position[k]].index == k
  {
    forall p | 0 <= p < |b.blocks| ensures b.blocks[p].index in b.position && b.position[b.blocks[p].index] == p {
      assert BlockLinked(codec, s, b, p);
    }
  }

  /** Each block of an accepted stream says what its deltas said. */
  lemma {:induction false} SaidByDeltas(codec: Codec, includeUsage: bool, events: seq<Option<Event>>, i: int)
    requires Run(codec, includeUsage, events).ok && !Run(codec, includeUsage, events).next.failed
    ensures Says(BuildAll(events).blocks, i) == SaidAt(Deltas(events), i)
  {
    if events != [] {
      var init, last := events[..|events| - 1], events[|events| - 1];
      EventFits(codec, includeUsage, events);
      SaidByDeltas(codec, includeUsage, init, i);
      RunLinks(codec, includeUsage, init);
      LinkedUnique(codec, Run(codec, includeUsage, init).next, BuildAll(init));
      SaysBuilt(BuildAll(init), last.value, i);
      DeltasSaid(events, i);
    }
  }

  lemma DeltasSaid(events: seq<Option<Event>>, i: int)
    requires events != [] && events[|events| - 1].Some?
    ensures var e := events[|events| - 1].value;
      SaidAt(Deltas(events), i) == SaidAt(Deltas(events[..|events| - 1]), i) + if e.TextDelta? && e.index == i then e.text else ""
  {
    var before, e := Deltas(events[..|events| - 1]), events[|events| - 1].value;
    if e.TextDelta? && e.text != "" {
      SaidOne(before, Piece(e.index, e.text), i);
    } else {
      assert before + [] == before && SaidAt(before, i) + "" == SaidAt(before, i);
    }
  }

  // -------------------------------------------------------------------------
  // The message in order of index

  function Indexed(b: Builder): Builder {
    b.(blocks := Placed(b.blocks, BlockIndex))
  }

  /** Its text is the deltas, block by block. */
  lemma IndexedText(codec: Codec, includeUsage: bool, events: seq<Option<Event>>)
    requires Run(codec, includeUsage, events).ok && !Run(codec, includeUsage, events).next.failed
    ensures MessageText(Indexed(BuildAll(events))) == ByBlock(Deltas(events))
  {
    var blocks := BuildAll(events).blocks;
    var placed := Placed(blocks, BlockIndex);
    PiecesText(placed, |placed|);
    assert placed[..|placed|] == placed;
    KeptPlaced(blocks, BlockIndex, Speaks);
    MappedPlaced(TextBlocks(blocks), BlockIndex, PieceOf, IndexOf);
    forall i ensures SaidAt(TextPieces(blocks), i) == SaidAt(Deltas(events), i) {
      SaysPieces(blocks, i);
      SaidByDeltas(codec, includeUsage, events, i);
    }
    Determined(TextPieces(blocks), Deltas(events));
  }

  /** Its calls are the client's, in order of index. */
  lemma IndexedCalls(b: Builder)
    ensures CallsUpTo(b.blocks, |b.blocks|) == CallsOf(ToolBlocks(b.blocks))
    ensures var placed := Indexed(b).blocks;
      && CallsUpTo(placed, |placed|) == CallsOf(Placed(ToolBlocks(b.blocks), BlockIndex))
      && ToolsUpTo(placed, |placed|) == ToolsUpTo(b.blocks, |b.blocks|)
  {
    var blocks, placed := b.blocks, Indexed(b).blocks;
    assert blocks[..|blocks|] == blocks && placed[..|placed|] == placed;
    ToolCalls(blocks, |blocks|);
    ToolCalls(placed, |placed|);
    KeptPlaced(blocks, BlockIndex, Calls);
    PlacedSorts(ToolBlocks(blocks), BlockIndex);
    assert |multiset(Placed(ToolBlocks(blocks), BlockIndex))| == |multiset(ToolBlocks(blocks))|;
  }

  lemma IndexedWhole(codec: Codec, b: Builder)
    requires Whole(codec, b)
    ensures Whole(codec, Indexed(b))
  {
    IndexedCalls(b);
    PlacedSorts(b.blocks, BlockIndex);
    var blocks := Indexed(b).blocks;
    forall p | 0 <= p < |blocks| ensures Ready(codec, blocks[p]) {
      assert blocks[p] in multiset(blocks) && blocks[p] in b.blocks;
    }
  }

  /** The buffered translator accepts the message with its content in order of index.  It has the finish reason and
      usage that the client assembled, the client's calls rearranged into the order of index, and
      the text of the deltas block by block. */
  ghost predicate IndexedAgrees(codec: Codec, includeUsage: bool, events: seq<Option<Event>>) {
    var b, streamed := BuildAll(events), Assemble(Run(codec, includeUsage, events).out);
    var buffered := Translate(codec, FinalMessage(codec, Indexed(b)));
    && buffered.Some?
    && streamed.text == Concat(Deltas(events))
    && streamed.calls == CallsOf(ToolBlocks(b.blocks))
    && buffered.value.content == NonEmpty(ByBlock(Deltas(events)))
    && SameCalls(codec, CallsOf(Placed(ToolBlocks(b.blocks), BlockIndex)), buffered.value.calls)
    && streamed.finish == Some(buffered.value.finish)
    && streamed.usage == (if includeUsage then Some(buffered.value.usage) else None)
  }

  lemma IndexedContent(codec: Codec, includeUsage: bool, events: seq<Option<Event>>)
    ensures AllValid(events) && ProxyOutcome(Run(codec, includeUsage, events)).Success? ==>
      IndexedAgrees(codec, includeUsage, events)
  {
    if !AllValid(events) || !ProxyOutcome(Run(codec, includeUsage, events)).Success? { return; }
    SuccessDescribes(codec, includeUsage, events);
    var b := BuildAll(events);
    IndexedWhole(codec, b);
    IndexedCalls(b);
    IndexedText(codec, includeUsage, events);
    DeltasText(events);
    FinalTranslates(codec, Indexed(b));
  }

  /** Every block starts with a larger index than all blocks before it. */
  predicate StartsIncrease(events: seq<Option<Event>>) {
    events == [] ||
    (var init := events[..|events| - 1];
     && StartsIncrease(init)
     && match events[|events| - 1]
        case Some(BlockStart(i, _, _)) => forall p :: 0 <= p < |BuildAll(init).blocks| ==> BuildAll(init).blocks[p].index < i
        case _ => true)
  }

  lemma BuildIndexes(b: Builder, e: Event)
    ensures !e.BlockStart? ==>
      |Build(b, e).blocks| == |b.blocks| && forall p :: 0 <= p < |b.blocks| ==> Build(b, e).blocks[p].index == b.blocks[p].index
  {}

  lemma {:induction false} StartsInOrder(events: seq<Option<Event>>)
    requires StartsIncrease(events)
    ensures InOrder(BuildAll(events).blocks, BlockIndex)
  {
    if events != [] {
      var init, last := events[..|events| - 1], events[|events| - 1];
      StartsInOrder(init);
      if last.Some? { BuildIndexes(BuildAll(init), last.value); }
    }
  }

  /** On every successful stream; the calls keep the client's order exactly when the tool blocks start in
      order of index; and if all blocks do, everything is as in the order they started. */
  lemma IndexedRefinement(codec: Codec, includeUsage: bool, events: seq<Option<Event>>)
    ensures AllValid(events) && ProxyOutcome(Run(codec, includeUsage, events)).Success? ==>
      && IndexedAgrees(codec, includeUsage, events)
      && (StartsIncrease(events) ==> RefinesMessage(codec, includeUsage, events, FinalMessage(codec, Indexed(BuildAll(events)))))
    ensures var tools := ToolBlocks(BuildAll(events).blocks); Placed(tools, BlockIndex) == tools <==> InOrder(tools, BlockIndex)
  {
    IndexedContent(codec, includeUsage, events);
    RefinesBuffered(codec, includeUsage, events);
    PlacedSameExactly(ToolBlocks(BuildAll(events).blocks), BlockIndex);
    if StartsIncrease(events) {
      StartsInOrder(events);
      PlacedSame(BuildAll(events).blocks, BlockIndex);
    }
  }

  // -------------------------------------------------------------------------
  // When the texts agree

  lemma {:induction false} SameIndexes(events: seq<Option<Event>>, text: nat -> string)
    requires SaysSomething(text)
    ensures var a, b := Deltas(events), Deltas(Relabelled(events, text));
      |b| == |a| && forall p :: 0 <= p < |a| ==> b[p].index == a[p].index
  {
    if events != [] {
      var n := |events| - 1;
      SameIndexes(events[..n], text);
      RelabelledPrefix(events, text, n);
    }
  }

  /** The letter of its block for every delta. */
  function BlockLetters(events: seq<Option<Event>>, m: int): nat -> string {
    (k: nat) => LetterUpTo(m, if k < |events| && events[k].Some? && events[k].value.TextDelta? then events[k].value.index else m)
  }

  lemma LettersSay(events: seq<Option<Event>>, m: int)
    ensures SaysSomething(BlockLetters(events, m))
  {
    forall k: nat ensures BlockLetters(events, m)(k) != "" {
      assert |LetterUpTo(m, if k < |events| && events[k].Some? && events[k].value.TextDelta? then events[k].value.index else m)| == 1;
    }
  }

  lemma {:induction false} DeltasLettered(events: seq<Option<Event>>, m: int, n: nat)
    requires n <= |events|
    ensures Pieces.Lettered(Deltas(Relabelled(events, BlockLetters(events, m))[..n]), m)
  {
    if n > 0 {
      var relabelled := Relabelled(events, BlockLetters(events, m));
      DeltasLettered(events, m, n - 1);
      assert relabelled[..n][..n - 1] == relabelled[..n - 1];
      assert relabelled[n - 1] == RelabelledEvent(events[n - 1], BlockLetters(events, m)(n - 1));
    }
  }

  /** Deltas that are not in order of index can be made to say something else than the message. */
  lemma UnorderedDeltasDiffer(events: seq<Option<Event>>) returns (text: nat -> string)
    requires !InOrder(Deltas(events), IndexOf)
    ensures SaysSomething(text) && Concat(Deltas(Relabelled(events, text))) != ByBlock(Deltas(Relabelled(events, text)))
  {
    var deltas := Deltas(events);
    var j, k :| 0 <= j < k < |deltas| && deltas[j].index > deltas[k].index;
    text := BlockLetters(events, deltas[k].index);
    var relabelled := Relabelled(events, text);
    LettersSay(events, deltas[k].index);
    SameIndexes(events, text);
    DeltasLettered(events, deltas[k].index, |events|);
    assert relabelled[..|events|] == relabelled;
    LettersTell(Deltas(relabelled), j, k);
  }

  /** The client's text is that of the buffered completion of the message in order of index. */
  ghost predicate IndexedTextsAgree(codec: Codec, includeUsage: bool, events: seq<Option<Event>>) {
    var buffered := Translate(codec, FinalMessage(codec, Indexed(BuildAll(events))));
    buffered.Some? && buffered.value.content == NonEmpty(Assemble(Run(codec, includeUsage, events).out).text)
  }

  lemma IndexedAgreement(codec: Codec, includeUsage: bool, events: seq<Option<Event>>)
    ensures AllValid(events) && ProxyOutcome(Run(codec, includeUsage, events)).Success? ==>
      (IndexedTextsAgree(codec, includeUsage, events) <==> Concat(Deltas(events)) == ByBlock(Deltas(events)))
  {
    IndexedContent(codec, includeUsage, events);
  }

  /** Whatever the text deltas of a successful stream say, the streamed text is the buffered text of the message in
      order of index, if and only if the deltas that say something come in order of index. */
  lemma IndexOrderExactly(codec: Codec, includeUsage: bool, events: seq<Option<Event>>)
    ensures AllValid(events) && ProxyOutcome(Run(codec, includeUsage, events)).Success? ==>
      ((forall text: nat -> string :: SaysSomething(text) ==>
          IndexedTextsAgree(codec, includeUsage, Relabelled(events, text))) <==> InOrder(Deltas(events), IndexOf))
  {
    if !AllValid(events) || !ProxyOutcome(Run(codec, includeUsage, events)).Success? { return; }
    if InOrder(Deltas(events), IndexOf) {
      forall text: nat -> string | SaysSomething(text)
        ensures IndexedTextsAgree(codec, includeUsage, Relabelled(events, text))
      {
        RelabelledSucceeds(codec, includeUsage, events, text);
        IndexedAgreement(codec, includeUsage, Relabelled(events, text));
        SameIndexes(events, text);
        InOrderText(Deltas(Relabelled(events, text)));
      }
    } else {
      var text := UnorderedDeltasDiffer(events);
      RelabelledSucceeds(codec, includeUsage, events, text);
      IndexedAgreement(codec, includeUsage, Relabelled(events, text));
    }
  }
}
