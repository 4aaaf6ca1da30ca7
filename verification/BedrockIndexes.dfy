/** The described response with its blocks placed by index, as the protocol numbers them. */
module BedrockIndexes {
  import opened Options
  import opened JsonValues
  import opened ChatChunks
  import opened LetterOrder
  import opened Placement
  import opened Pieces
  import opened BedrockStream
  import opened BedrockResponse
  import opened BedrockRefinement
  import opened BedrockOrder

  function SlotIndex(slot: Slot): int { slot.index }

  predicate Speaks(slot: Slot) { slot.TextSlot? }

  predicate Calls(slot: Slot) { slot.ToolSlot? }

  function ToolSlots(slots: seq<Slot>): seq<Slot> { Kept(slots, Calls) }

  function TextSlots(slots: seq<Slot>): seq<Slot> { Kept(slots, Speaks) }

  function PieceOf(slot: Slot): Piece {
    Piece(slot.index, if slot.TextSlot? then slot.text else "")
  }

  function TextPieces(slots: seq<Slot>): seq<Piece> {
    Mapped(TextSlots(slots), PieceOf)
  }

  lemma OnePiece(slots: seq<Slot>, slot: Slot)
    ensures TextPieces(slots + [slot]) == TextPieces(slots) + if slot.TextSlot? then [PieceOf(slot)] else []
  {
    KeptAppend(slots, Speaks, slot);
  }

  lemma {:induction false} PiecesText(slots: seq<Slot>)
    ensures TextOf(slots) == Concat(TextPieces(slots))
  {
    if slots != [] {
      var before, last := slots[..|slots| - 1], slots[|slots| - 1];
      PiecesText(before);
      assert slots == before + [last];
      OnePiece(before, last);
      if last.TextSlot? { ConcatOne(TextPieces(before), PieceOf(last)); } else { assert TextPieces(before) + [] == TextPieces(before); }
    }
  }

  lemma {:induction false} ToolCalls(slots: seq<Slot>)
    ensures CallsOf(slots) == CallsOf(ToolSlots(slots))
  {
    if slots != [] {
      var before, last := slots[..|slots| - 1], slots[|slots| - 1];
      ToolCalls(before);
      var tools := ToolSlots(before);
      if last.ToolSlot? { assert (tools + [last])[..|tools|] == tools; } else { assert tools + [] == tools; }
    }
  }

  // -------------------------------------------------------------------------
  // What each block says

  /** The text deltas that say something, in the order they came. */
  function Deltas(events: seq<Option<Event>>): seq<Piece> {
    if events == [] then []
    else
      Deltas(events[..|events| - 1])
      + match events[|events| - 1] { case Some(TextDelta(i, text)) => if text == "" then [] else [Piece(i, text)] case _ => [] }
  }

  lemma {:induction false} DeltasText(events: seq<Option<Event>>)
    ensures Concat(Deltas(events)) == DeltaText(events)
  {
    if events != [] {
      var init, last := events[..|events| - 1], events[|events| - 1];
      DeltasText(init);
      if last.Some? && last.value.TextDelta? && last.value.text != "" {
        ConcatOne(Deltas(init), Piece(last.value.index, last.value.text));
      } else {
        assert Deltas(init) + [] == Deltas(init) && DeltaText(init) + "" == DeltaText(init);
      }
    }
  }

  /** What the text blocks with index i say. */
  function Says(slots: seq<Slot>, i: int): string {
    if slots == [] then ""
    else
      var before, last := Says(slots[..|slots| - 1], i), slots[|slots| - 1];
      if last.TextSlot? && last.index == i then before + last.text else before
  }

  lemma {:induction false} SaysPieces(slots: seq<Slot>, i: int)
    ensures Says(slots, i) == SaidAt(TextPieces(slots), i)
  {
    if slots != [] {
      var before, last := slots[..|slots| - 1], slots[|slots| - 1];
      SaysPieces(before, i);
      assert slots == before + [last];
      OnePiece(before, last);
      if last.TextSlot? {
        SaidOne(TextPieces(before), PieceOf(last), i);
        assert Says(before, i) + "" == Says(before, i);
      } else {
        assert TextPieces(before) + [] == TextPieces(before);
      }
    }
  }

  lemma SaysOne(slots: seq<Slot>, slot: Slot, i: int)
    ensures Says(slots + [slot], i) == if slot.TextSlot? && slot.index == i then Says(slots, i) + slot.text else Says(slots, i)
  {
    assert (slots + [slot])[..|slots|] == slots;
  }

  lemma {:induction false} SaysExtended(slots: seq<Slot>, p: nat, text: string, i: int)
    requires UniqueTexts(slots) && p < |slots| && slots[p].TextSlot?
    ensures Says(ExtendText(slots, slots[p].index, text), i) == Says(slots, i) + if i == slots[p].index then text else ""
  {
    var n, k := |slots| - 1, slots[p].index;
    var extended := ExtendText(slots, k, text);
    assert extended[..n] == ExtendText(slots[..n], k, text);
    var said := Says(slots[..n], i);
    if p == n {
      NothingExtended(slots[..n], k, text);
      assert said + (slots[n].text + text) == (said + slots[n].text) + text && said + "" == said;
    } else {
      SaysExtended(slots[..n], p, text, i);
      assert extended[n] == slots[n];
    }
  }

  lemma {:induction false} ToolKeepsSaid(slots: seq<Slot>, k: int, input: string, i: int)
    ensures Says(ExtendTool(slots, k, input), i) == Says(slots, i)
  {
    if slots != [] {
      var n := |slots| - 1;
      ToolKeepsSaid(slots[..n], k, input, i);
      assert ExtendTool(slots, k, input)[..n] == ExtendTool(slots[..n], k, input);
    }
  }

  lemma SaysBuilt(d: Described, e: Event, i: int)
    requires UniqueTexts(d.slots)
    ensures Says(Build(d, e).slots, i) == Says(d.slots, i) + if e.TextDelta? && e.index == i then e.text else ""
  {
    assert Says(d.slots, i) + "" == Says(d.slots, i);
    match e
    case ToolBlockStart(k, id, name) => SaysOne(d.slots, ToolSlot(k, id, name, ""), i);
    case ToolDelta(k, input) => ToolKeepsSaid(d.slots, k, input, i);
    case TextDelta(k, text) =>
      if HasText(d.slots, k) {
        var p :| 0 <= p < |d.slots| && d.slots[p].TextSlot? && d.slots[p].index == k;
        SaysExtended(d.slots, p, text, i);
      } else {
        SaysOne(d.slots, TextSlot(k, text), i);
      }
    case _ =>
  }

  /** Each block says what its deltas said. */
  lemma {:induction false} SaidByDeltas(events: seq<Option<Event>>, i: int)
    ensures Says(BuildAll(events).slots, i) == SaidAt(Deltas(events), i)
  {
    if events != [] {
      var init, last := events[..|events| - 1], events[|events| - 1];
      SaidByDeltas(init, i);
      TextsUnique(init);
      if last.Some? { SaysBuilt(BuildAll(init), last.value, i); }
      if last.Some? && last.value.TextDelta? && last.value.text != "" {
        SaidOne(Deltas(init), Piece(last.value.index, last.value.text), i);
      } else {
        assert Deltas(init) + [] == Deltas(init) && SaidAt(Deltas(init), i) + "" == SaidAt(Deltas(init), i);
      }
    }
  }

  // -------------------------------------------------------------------------
  // The response in order of index

  function Indexed(d: Described): Described {
    d.(slots := Placed(d.slots, SlotIndex))
  }

  /** Its text is the deltas, block by block. */
  lemma IndexedText(events: seq<Option<Event>>)
    ensures TextOf(Indexed(BuildAll(events)).slots) == ByBlock(Deltas(events))
  {
    var slots := BuildAll(events).slots;
    PiecesText(Placed(slots, SlotIndex));
    KeptPlaced(slots, SlotIndex, Speaks);
    MappedPlaced(TextSlots(slots), SlotIndex, PieceOf, IndexOf);
    forall i ensures SaidAt(TextPieces(slots), i) == SaidAt(Deltas(events), i) {
      SaysPieces(slots, i);
      SaidByDeltas(events, i);
    }
    Determined(TextPieces(slots), Deltas(events));
  }

  /** Its calls are the client's, in order of index. */
  lemma IndexedCalls(d: Described)
    ensures CallsOf(d.slots) == CallsOf(ToolSlots(d.slots))
    ensures CallsOf(Indexed(d).slots) == CallsOf(Placed(ToolSlots(d.slots), SlotIndex))
  {
    ToolCalls(d.slots);
    ToolCalls(Indexed(d).slots);
    KeptPlaced(d.slots, SlotIndex, Calls);
  }

  lemma IndexedWell(codec: Codec, decodeUsage: Json -> Option<ChatUsage>, d: Described)
    requires DescribedWell(decodeUsage, d)
    ensures DescribedWell(decodeUsage, Indexed(d))
    ensures InputsAreObjects(codec, Indexed(d).slots) <==> InputsAreObjects(codec, d.slots)
  {
    PlacedSorts(d.slots, SlotIndex);
    var slots, placed := d.slots, Indexed(d).slots;
    forall p | 0 <= p < |placed| ensures placed[p] in slots { assert placed[p] in multiset(placed); }
    forall p | 0 <= p < |slots| ensures slots[p] in placed { assert slots[p] in multiset(slots); }
  }

  /** The buffered translator on the response with its content in order of index: it accepts as before, has the
      finish reason and usage that the client assembled, the client's calls rearranged into the
      order of index, and the text of the deltas block by block. */
  ghost predicate IndexedAgrees(codec: Codec, decodeUsage: Json -> Option<ChatUsage>, events: seq<Option<Event>>, includeUsage: bool) {
    var d, streamed := BuildAll(events), Assemble(ProxyOutput(Run(events, includeUsage), includeUsage));
    var buffered := Translate(codec, decodeUsage, FinalBody(codec, Indexed(d)));
    && (buffered.Some? <==> ReportsUsage(events) && InputsAreObjects(codec, d.slots))
    && streamed.text == Concat(Deltas(events))
    && streamed.calls == CallsOf(ToolSlots(d.slots))
    && (buffered.Some? ==>
          && buffered.value.content == NonEmpty(ByBlock(Deltas(events)))
          && SameCalls(codec, CallsOf(Placed(ToolSlots(d.slots), SlotIndex)), buffered.value.calls)
          && streamed.finish == Some(buffered.value.finish)
          && streamed.usage == if includeUsage then Some(buffered.value.usage) else None)
  }

  /** On every successful stream; and the calls keep the client's order exactly when the tool blocks
      start in order of index. */
  lemma IndexedRefinement(codec: Codec, decodeUsage: Json -> Option<ChatUsage>, events: seq<Option<Event>>, includeUsage: bool)
    ensures AllValid(decodeUsage, events) && Succeeds(Run(events, includeUsage), includeUsage) ==>
      IndexedAgrees(codec, decodeUsage, events, includeUsage)
    ensures var tools := ToolSlots(BuildAll(events).slots); Placed(tools, SlotIndex) == tools <==> InOrder(tools, SlotIndex)
  {
    PlacedSameExactly(ToolSlots(BuildAll(events).slots), SlotIndex);
    if AllValid(decodeUsage, events) && Succeeds(Run(events, includeUsage), includeUsage) {
      SuccessLinks(events, includeUsage);
      BuildWell(decodeUsage, events);
      ReportBuilt(events);
      DeltasText(events);
      IndexedText(events);
      IndexedCalls(BuildAll(events));
      IndexedWell(codec, decodeUsage, BuildAll(events));
      FinalTranslates(codec, decodeUsage, Indexed(BuildAll(events)));
    }
  }

  // -------------------------------------------------------------------------
  // When the texts agree

  lemma {:induction false} SameIndexes(events: seq<Option<Event>>, text: nat -> string)
    requires SaysSomething(text)
    ensures var a, b := Deltas(events), Deltas(Relabelled(events, text));
      |b| == |a| && forall p :: 0 <= p < |a| ==> b[p].index == a[p].index
  {
    if events != [] {
      var n := |events| - 1;
      SameIndexes(events[..n], text);
      RelabelledPrefix(events, text, n);
    }
  }

  /** The letter of its block for every delta. */
  function BlockLetters(events: seq<Option<Event>>, m: int): nat -> string {
    (k: nat) => LetterUpTo(m, if k < |events| && events[k].Some? && events[k].value.TextDelta? then events[k].value.index else m)
  }

  lemma LettersSay(events: seq<Option<Event>>, m: int)
    ensures SaysSomething(BlockLetters(events, m))
  {
    forall k: nat ensures BlockLetters(events, m)(k) != "" {
      assert |LetterUpTo(m, if k < |events| && events[k].Some? && events[k].value.TextDelta? then events[k].value.index else m)| == 1;
    }
  }

  lemma {:induction false} DeltasLettered(events: seq<Option<Event>>, m: int, n: nat)
    requires n <= |events|
    ensures Lettered(Deltas(Relabelled(events, BlockLetters(events, m))[..n]), m)
  {
    if n > 0 {
      var relabelled := Relabelled(events, BlockLetters(events, m));
      DeltasLettered(events, m, n - 1);
      assert relabelled[..n][..n - 1] == relabelled[..n - 1];
      assert relabelled[n - 1] == RelabelledEvent(events[n - 1], BlockLetters(events, m)(n - 1));
    }
  }

  /** Deltas that are not in order of index can be made to say something else than the response. */
  lemma UnorderedDeltasDiffer(events: seq<Option<Event>>) returns (text: nat -> string)
    requires !InOrder(Deltas(events), IndexOf)
    ensures SaysSomething(text) && Concat(Deltas(Relabelled(events, text))) != ByBlock(Deltas(Relabelled(events, text)))
  {
    var deltas := Deltas(events);
    var j, k :| 0 <= j < k < |deltas| && deltas[j].index > deltas[k].index;
    text := BlockLetters(events, deltas[k].index);
    var relabelled := Relabelled(events, text);
    LettersSay(events, deltas[k].index);
    SameIndexes(events, text);
    DeltasLettered(events, deltas[k].index, |events|);
    assert relabelled[..|events|] == relabelled;
    LettersTell(Deltas(relabelled), j, k);
  }

  /** The client's text is that of the buffered completion of the response in order of index. */
  ghost predicate IndexedTextsAgree(codec: Codec, decodeUsage: Json -> Option<ChatUsage>, events: seq<Option<Event>>, includeUsage: bool) {
    var buffered := Translate(codec, decodeUsage, FinalBody(codec, Indexed(BuildAll(events))));
    buffered.Some? && buffered.value.content == NonEmpty(Assemble(ProxyOutput(Run(events, includeUsage), includeUsage)).text)
  }

  lemma IndexedAgreement(codec: Codec, decodeUsage: Json -> Option<ChatUsage>, events: seq<Option<Event>>, includeUsage: bool)
    ensures BothAccept(codec, decodeUsage, events, includeUsage) ==>
      (IndexedTextsAgree(codec, decodeUsage, events, includeUsage) <==> Concat(Deltas(events)) == ByBlock(Deltas(events)))
  {
    IndexedRefinement(codec, decodeUsage, events, includeUsage);
  }

  /** Whatever the text deltas of a stream that both translators accept say, the streamed text is the buffered
      text of the response in order of index, if and only if the deltas that say something come in
      order of index. */
  lemma IndexOrderExactly(codec: Codec, decodeUsage: Json -> Option<ChatUsage>, events: seq<Option<Event>>, includeUsage: bool)
    ensures BothAccept(codec, decodeUsage, events, includeUsage) ==>
      ((forall text: nat -> string :: SaysSomething(text) ==>
          IndexedTextsAgree(codec, decodeUsage, Relabelled(events, text), includeUsage)) <==> InOrder(Deltas(events), IndexOf))
  {
    if !BothAccept(codec, decodeUsage, events, includeUsage) { return; }
    if InOrder(Deltas(events), IndexOf) {
      forall text: nat -> string | SaysSomething(text)
        ensures IndexedTextsAgree(codec, decodeUsage, Relabelled(events, text), includeUsage)
      {
        RelabelledAccepted(codec, decodeUsage, events, includeUsage, text);
        IndexedAgreement(codec, decodeUsage, Relabelled(events, text), includeUsage);
        SameIndexes(events, text);
        InOrderText(Deltas(Relabelled(events, text)));
      }
    } else {
      var text := UnorderedDeltasDiffer(events);
      RelabelledAccepted(codec, decodeUsage, events, includeUsage, text);
      IndexedAgreement(codec, decodeUsage, Relabelled(events, text), includeUsage);
    }
  }
}
