/**
 When the streamed text of a Bedrock message is the buffered one: exactly which
 orders of text deltas make them agree whatever the deltas say, and where they
 do not.
 */
module BedrockOrder {
  import opened Options
  import opened JsonValues
  import opened ChatChunks
  import opened LetterOrder
  import opened BedrockStream
  import opened BedrockResponse
  import opened BedrockRefinement

  // -------------------------------------------------------------------------
  // The same events with other texts

  function RelabelledEvent(e: Option<Event>, text: string): Option<Event> {
    match e
    case Some(TextDelta(i, t)) => if t == "" then e else Some(TextDelta(i, text))
    case _ => e
  }

  /** Every non-empty text delta says something else: the k-th event text(k). */
  function Relabelled(events: seq<Option<Event>>, text: nat -> string): (r: seq<Option<Event>>)
    ensures |r| == |events|
    ensures forall k :: 0 <= k < |events| ==> r[k] == RelabelledEvent(events[k], text(k))
  {
    seq(|events|, k requires 0 <= k < |events| => RelabelledEvent(events[k], text(k)))
  }

  lemma RelabelledPrefix(events: seq<Option<Event>>, text: nat -> string, n: nat)
    requires n <= |events|
    ensures Relabelled(events, text)[..n] == Relabelled(events[..n], text)
  {}

  /** Blocks that differ at most in what their texts say. */
  predicate SameSlot(slot: Slot, slot': Slot) {
    match slot
    case TextSlot(i, text) => slot'.TextSlot? && slot'.index == i && (slot'.text == "" <==> text == "")
    case ToolSlot(_, _, _, _) => slot' == slot
  }

  predicate SameShape(d: Described, d': Described) {
    && d'.stop == d.stop && d'.report == d.report && |d'.slots| == |d.slots|
    && forall p :: 0 <= p < |d.slots| ==> SameSlot(d.slots[p], d'.slots[p])
  }

  predicate SameEvent(e: Event, e': Event) {
    if e.TextDelta? then e'.TextDelta? && e'.index == e.index && (e.text == "" <==> e'.text == "") else e' == e
  }

  lemma SameHasText(d: Described, d': Described, i: int)
    requires SameShape(d, d')
    ensures HasText(d.slots, i) <==> HasText(d'.slots, i)
  {
    forall p | 0 <= p < |d.slots| ensures SameSlot(d.slots[p], d'.slots[p]) {}
  }

  lemma ExtendedSlot(slot: Slot, slot': Slot, text: string, text': string)
    requires slot.TextSlot? && SameSlot(slot, slot') && (text == "" <==> text' == "")
    ensures SameSlot(TextSlot(slot.index, slot.text + text), TextSlot(slot.index, slot'.text + text'))
  {
    assert |slot.text + text| == |slot.text| + |text| && |slot'.text + text'| == |slot'.text| + |text'|;
  }

  lemma BuildSameShape(d: Described, d': Described, e: Event, e': Event)
    requires SameShape(d, d') && SameEvent(e, e')
    ensures SameShape(Build(d, e), Build(d', e'))
  {
    var b, b' := Build(d, e), Build(d', e');
    if e.TextDelta? { SameHasText(d, d', e.index); }
    forall p | 0 <= p < |b.slots| ensures p < |b'.slots| && SameSlot(b.slots[p], b'.slots[p]) {
      if p < |d.slots| {
        assert SameSlot(d.slots[p], d'.slots[p]);
        if e.TextDelta? && d.slots[p].TextSlot? { ExtendedSlot(d.slots[p], d'.slots[p], e.text, e'.text); }
      }
    }
  }

  lemma SameOrder(d: Described, d': Described, e: Event, e': Event)
    requires SameShape(d, d') && SameEvent(e, e')
    ensures DeltaInOrder(d.slots, e) <==> DeltaInOrder(d'.slots, e')
  {
    forall p ensures NoTextAfter(d.slots, p) <==> NoTextAfter(d'.slots, p) {
      forall q | 0 <= q < |d.slots| ensures SameSlot(d.slots[q], d'.slots[q]) {}
    }
    forall q | 0 <= q < |d.slots| ensures SameSlot(d.slots[q], d'.slots[q]) {}
  }

  lemma {:induction false} RelabelledShape(events: seq<Option<Event>>, text: nat -> string)
    requires SaysSomething(text)
    ensures SameShape(BuildAll(events), BuildAll(Relabelled(events, text)))
    ensures TextInOrder(events) <==> TextInOrder(Relabelled(events, text))
  {
    if events != [] {
      var n := |events| - 1;
      RelabelledShape(events[..n], text);
      RelabelledPrefix(events, text, n);
      if events[n].Some? {
        var d, d' := BuildAll(events[..n]), BuildAll(Relabelled(events[..n], text));
        var e, e' := events[n].value, RelabelledEvent(events[n], text(n)).value;
        BuildSameShape(d, d', e, e');
        SameOrder(d, d', e, e');
      }
    }
  }

  predicate SameReply(r: Reply, r': Reply) {
    r'.status == r.status && r'.next == r.next
  }

  lemma RunLast(events: seq<Option<Event>>, includeUsage: bool)
    requires events != []
    ensures var before, last := Run(events[..|events| - 1], includeUsage), events[|events| - 1];
      if !before.status.Reading? then SameReply(Run(events, includeUsage), before)
      else if last.None? then SameReply(Run(events, includeUsage), before.(status := Rejected))
      else SameReply(Run(events, includeUsage), Handle(before.next, last.value, includeUsage))
  {}

  /** What deltas say has no effect on whether a stream is accepted, nor on the stream's state. */
  lemma {:induction false} RelabelledRuns(events: seq<Option<Event>>, text: nat -> string, includeUsage: bool)
    ensures SameReply(Run(events, includeUsage), Run(Relabelled(events, text), includeUsage))
  {
    if events != [] {
      var n := |events| - 1;
      RelabelledRuns(events[..n], text, includeUsage);
      RelabelledPrefix(events, text, n);
      RunLast(events, includeUsage);
      RunLast(Relabelled(events, text), includeUsage);
      assert Relabelled(events, text)[n] == RelabelledEvent(events[n], text(n));
    }
  }

  // -------------------------------------------------------------------------
  // Out of order

  /** The letter a for the early blocks, and b for the others. */
  function Letter(early: set<int>, i: int): char {
    if i in early then 'a' else 'b'
  }

  function Letters(events: seq<Option<Event>>, early: set<int>): nat -> string {
    (k: nat) => if k < |events| && events[k].Some? && events[k].value.TextDelta? then [Letter(early, events[k].value.index)] else "b"
  }

  predicate LetteredEvent(e: Option<Event>, early: set<int>) {
    e.Some? && e.value.TextDelta? ==> Only(e.value.text, Letter(early, e.value.index))
  }

  predicate LetteredSlot(slot: Slot, early: set<int>) {
    slot.TextSlot? ==> Only(slot.text, Letter(early, slot.index))
  }

  lemma BuildLettered(d: Described, e: Event, early: set<int>)
    requires LetteredEvent(Some(e), early) && forall p :: 0 <= p < |d.slots| ==> LetteredSlot(d.slots[p], early)
    ensures forall p :: 0 <= p < |Build(d, e).slots| ==> LetteredSlot(Build(d, e).slots[p], early)
  {
    var slots := Build(d, e).slots;
    forall p | 0 <= p < |slots| ensures LetteredSlot(slots[p], early) {
      if p < |d.slots| { assert LetteredSlot(d.slots[p], early); }
    }
  }

  /** Deltas with their block's letter give blocks with that letter only. */
  lemma {:induction false} SlotsLettered(events: seq<Option<Event>>, early: set<int>)
    requires forall k :: 0 <= k < |events| ==> LetteredEvent(events[k], early)
    ensures forall p :: 0 <= p < |BuildAll(events).slots| ==> LetteredSlot(BuildAll(events).slots[p], early)
  {
    if events != [] {
      var init, last := events[..|events| - 1], events[|events| - 1];
      SlotsLettered(init, early);
      assert LetteredEvent(last, early);
      if last.Some? { BuildLettered(BuildAll(init), last.value, early); }
    }
  }

  lemma RelabelledLetters(events: seq<Option<Event>>, early: set<int>, k: nat)
    requires k < |events|
    ensures LetteredEvent(Relabelled(events, Letters(events, early))[k], early)
  {}

  /** The early blocks are there, before all others. */
  predicate EarlyFirst(slots: seq<Slot>, early: set<int>) {
    && (forall i :: i in early ==> HasText(slots, i))
    && (forall p, q :: 0 <= p < q < |slots| && slots[p].TextSlot? && slots[q].TextSlot? && slots[q].index in early ==>
          slots[p].index in early)
  }

  lemma HasTextStays(d: Described, e: Event, i: int)
    requires HasText(d.slots, i)
    ensures HasText(Build(d, e).slots, i)
  {
    var p :| 0 <= p < |d.slots| && d.slots[p].TextSlot? && d.slots[p].index == i;
    var slot := Build(d, e).slots[p];
    assert slot.TextSlot? && slot.index == i;
  }

  lemma EarlyStays(d: Described, e: Event, early: set<int>)
    requires EarlyFirst(d.slots, early)
    ensures EarlyFirst(Build(d, e).slots, early)
  {
    forall i | i in early ensures HasText(Build(d, e).slots, i) { HasTextStays(d, e, i); }
  }

  lemma {:induction false} EarlyToTheEnd(events: seq<Option<Event>>, n: nat, early: set<int>)
    requires n <= |events| && EarlyFirst(BuildAll(events[..n]).slots, early)
    ensures EarlyFirst(BuildAll(events).slots, early)
  {
    if n == |events| {
      assert events[..n] == events;
    } else {
      var init, last := events[..|events| - 1], events[|events| - 1];
      assert init[..n] == events[..n];
      EarlyToTheEnd(init, n, early);
      if last.Some? { EarlyStays(BuildAll(init), last.value, early); }
    }
  }

  /** The text of the response, which goes block by block, has its a's first. */
  lemma {:induction false} TextSorted(slots: seq<Slot>, early: set<int>)
    requires forall p :: 0 <= p < |slots| ==> LetteredSlot(slots[p], early)
    requires forall p, q :: 0 <= p < q < |slots| && slots[p].TextSlot? && slots[q].TextSlot? && slots[q].index in early ==>
      slots[p].index in early
    ensures Sorted(TextOf(slots))
    ensures (forall p :: 0 <= p < |slots| && slots[p].TextSlot? ==> slots[p].index in early) ==> Only(TextOf(slots), 'a')
  {
    if slots != [] {
      var n := |slots| - 1;
      TextSorted(slots[..n], early);
      assert LetteredSlot(slots[n], early);
      if slots[n].TextSlot? {
        assert TextOf(slots) == TextOf(slots[..n]) + slots[n].text;
        if slots[n].index in early { assert Only(TextOf(slots[..n]), 'a'); }
      }
    }
  }

  /** Every character of a text block came in some delta. */
  lemma {:induction false} DataWasSent(events: seq<Option<Event>>, q: nat, c: char)
    requires q < |BuildAll(events).slots| && BuildAll(events).slots[q].TextSlot? && c in BuildAll(events).slots[q].text
    ensures c in DeltaText(events)
  {
    var n := |events| - 1;
    var d := BuildAll(events[..n]);
    if q < |d.slots| && d.slots[q].TextSlot? && c in d.slots[q].text {
      DataWasSent(events[..n], q, c);
    } else {
      assert events[n].Some? && events[n].value.TextDelta? && c in events[n].value.text;
    }
  }

  lemma {:induction false} DeltaPrefix(events: seq<Option<Event>>, n: nat)
    requires n <= |events|
    ensures DeltaText(events[..n]) <= DeltaText(events)
  {
    if n < |events| {
      assert events[..|events| - 1][..n] == events[..n];
      DeltaPrefix(events[..|events| - 1], n);
    } else {
      assert events[..n] == events;
    }
  }

  lemma {:induction false} DeltaLast(events: seq<Option<Event>>, j: nat)
    requires j < |events| && events[j].Some? && events[j].value.TextDelta?
    ensures DeltaText(events[..j + 1]) == DeltaText(events[..j]) + events[j].value.text
  {
    assert events[..j + 1][..j] == events[..j];
  }

  /** Event j says something for text block p, and the later text block q already has text. */
  ghost predicate CrossesAt(events: seq<Option<Event>>, j: nat, p: nat, q: nat) {
    && j < |events| && events[j].Some? && events[j].value.TextDelta? && events[j].value.text != ""
    && var slots := BuildAll(events[..j]).slots;
       && p < q < |slots| && slots[p].TextSlot? && slots[p].index == events[j].value.index
       && slots[q].TextSlot? && slots[q].text != ""
  }

  lemma {:induction false} FirstOutOfOrder(events: seq<Option<Event>>) returns (j: nat, p: nat, q: nat)
    requires !TextInOrder(events)
    ensures CrossesAt(events, j, p, q)
  {
    var n := |events| - 1;
    if TextInOrder(events[..n]) {
      j := n;
      var slots := BuildAll(events[..n]).slots;
      p :| 0 <= p < |slots| && slots[p].TextSlot? && slots[p].index == events[n].value.index && !NoTextAfter(slots, p);
      q :| p < q < |slots| && slots[q].TextSlot? && slots[q].text != "";
    } else {
      j, p, q := FirstOutOfOrder(events[..n]);
      assert events[..n][..j] == events[..j];
    }
  }

  /** The indexes of the text blocks up to position p. */
  function EarlyIndexes(slots: seq<Slot>, p: nat): set<int> {
    set r | 0 <= r <= p && r < |slots| && slots[r].TextSlot? :: slots[r].index
  }

  lemma EarlyBlocks(slots: seq<Slot>, p: nat)
    requires p < |slots| && UniqueTexts(slots)
    ensures EarlyFirst(slots, EarlyIndexes(slots, p))
    ensures forall q :: p < q < |slots| && slots[q].TextSlot? ==> slots[q].index !in EarlyIndexes(slots, p)
  {
    var early := EarlyIndexes(slots, p);
    forall s, q | 0 <= s < q < |slots| && slots[s].TextSlot? && slots[q].TextSlot? && slots[q].index in early
      ensures slots[s].index in early
    {
      var r :| 0 <= r <= p && slots[r].TextSlot? && slots[r].index == slots[q].index;
      assert r == q;
    }
  }

  /** With letters, the client reads a b before an a. */
  lemma LettersCross(events: seq<Option<Event>>, j: nat, p: nat, q: nat)
    requires CrossesAt(events, j, p, q)
    ensures var early := EarlyIndexes(BuildAll(events[..j]).slots, p);
      !Sorted(DeltaText(Relabelled(events, Letters(events, early))))
  {
    var slots := BuildAll(events[..j]).slots;
    var early := EarlyIndexes(slots, p);
    var text := Letters(events, early);
    var relabelled := Relabelled(events, text);
    TextsUnique(events[..j]);
    EarlyBlocks(slots, p);
    LaterLetter(events, early, j, q);
    assert relabelled[j] == Some(TextDelta(events[j].value.index, "a"));
    DeltaLast(relabelled, j);
    DeltaPrefix(relabelled, j + 1);
    NotSorted(DeltaText(relabelled[..j]), DeltaText(relabelled));
  }

  /** A block that has text and is not early has been sent a b. */
  lemma LaterLetter(events: seq<Option<Event>>, early: set<int>, j: nat, q: nat)
    requires j <= |events| && q < |BuildAll(events[..j]).slots|
    requires var slot := BuildAll(events[..j]).slots[q]; slot.TextSlot? && slot.text != "" && slot.index !in early
    ensures 'b' in DeltaText(Relabelled(events, Letters(events, early))[..j])
  {
    var text := Letters(events, early);
    var sent := Relabelled(events[..j], text);
    RelabelledPrefix(events, text, j);
    RelabelledShape(events[..j], text);
    forall k | 0 <= k < |sent| ensures LetteredEvent(sent[k], early) {
      RelabelledLetters(events, early, k);
    }
    SlotsLettered(sent, early);
    var slot := BuildAll(sent).slots[q];
    assert SameSlot(BuildAll(events[..j]).slots[q], slot) && LetteredSlot(slot, early);
    assert slot.text[0] == 'b';
    DataWasSent(sent, q, 'b');
  }

  /** Deltas out of order can be made to say something that the response says differently. */
  lemma UnorderedTextsDiffer(events: seq<Option<Event>>) returns (text: nat -> string)
    requires !TextInOrder(events)
    ensures SaysSomething(text)
    ensures DeltaText(Relabelled(events, text)) != TextOf(BuildAll(Relabelled(events, text)).slots)
  {
    var j, p, q := FirstOutOfOrder(events);
    var slots := BuildAll(events[..j]).slots;
    var early := EarlyIndexes(slots, p);
    text := Letters(events, early);
    LettersCross(events, j, p, q);
    TextsUnique(events[..j]);
    EarlyBlocks(slots, p);
    RelabelledTextSorted(events, early, j);
  }

  lemma RelabelledTextSorted(events: seq<Option<Event>>, early: set<int>, j: nat)
    requires j <= |events| && EarlyFirst(BuildAll(events[..j]).slots, early)
    ensures Sorted(TextOf(BuildAll(Relabelled(events, Letters(events, early))).slots))
  {
    var relabelled := Relabelled(events, Letters(events, early));
    EarlyToTheEnd(events, j, early);
    RelabelledShape(events, Letters(events, early));
    forall k | 0 <= k < |events| ensures LetteredEvent(relabelled[k], early) {
      RelabelledLetters(events, early, k);
    }
    SlotsLettered(relabelled, early);
    var slots, slots' := BuildAll(events).slots, BuildAll(relabelled).slots;
    forall p | 0 <= p < |slots| ensures SameSlot(slots[p], slots'[p]) {}
    TextSorted(slots', early);
  }

  // -------------------------------------------------------------------------
  // A simple case

  /** Text deltas come in order of their blocks' indexes. */
  predicate Ascending(events: seq<Option<Event>>) {
    forall j, k :: 0 <= j < k < |events| && events[j].Some? && events[k].Some? && events[j].value.TextDelta? && events[k].value.TextDelta? ==>
      events[j].value.index <= events[k].value.index
  }

  predicate TextsAscend(slots: seq<Slot>) {
    forall p, q :: 0 <= p < q < |slots| && slots[p].TextSlot? && slots[q].TextSlot? ==> slots[p].index < slots[q].index
  }

  predicate TextsUpTo(slots: seq<Slot>, i: int) {
    forall p :: 0 <= p < |slots| && slots[p].TextSlot? ==> slots[p].index <= i
  }

  lemma BuildAscends(d: Described, e: Event, i: int)
    requires TextsAscend(d.slots) && TextsUpTo(d.slots, i) && (e.TextDelta? ==> e.index == i)
    ensures TextsAscend(Build(d, e).slots) && TextsUpTo(Build(d, e).slots, i) && DeltaInOrder(d.slots, e)
  {}

  lemma {:induction false} AscendingSlots(events: seq<Option<Event>>, i: int)
    requires Ascending(events)
    requires forall k :: 0 <= k < |events| && events[k].Some? && events[k].value.TextDelta? ==> events[k].value.index <= i
    ensures TextsAscend(BuildAll(events).slots) && TextsUpTo(BuildAll(events).slots, i) && TextInOrder(events)
  {
    if events != [] {
      var n := |events| - 1;
      var j := if events[n].Some? && events[n].value.TextDelta? then events[n].value.index else i;
      AscendingSlots(events[..n], j);
      if events[n].Some? { BuildAscends(BuildAll(events[..n]), events[n].value, j); }
    }
  }

  lemma {:induction false} IndexBound(events: seq<Option<Event>>) returns (i: int)
    ensures forall k :: 0 <= k < |events| && events[k].Some? && events[k].value.TextDelta? ==> events[k].value.index <= i
  {
    i := 0;
    if events != [] {
      var n := |events| - 1;
      i := IndexBound(events[..n]);
      assert forall k :: 0 <= k < n ==> events[..n][k] == events[k];
      if events[n].Some? && events[n].value.TextDelta? && i < events[n].value.index { i := events[n].value.index; }
    }
  }

  /** Deltas in order of index, as when one block ends before the next begins, are in order. */
  lemma AscendingInOrder(events: seq<Option<Event>>)
    ensures Ascending(events) ==> TextInOrder(events)
  {
    if Ascending(events) {
      var i := IndexBound(events);
      AscendingSlots(events, i);
    }
  }

  // -------------------------------------------------------------------------
  // Streamed and buffered text

  /** Whatever the text deltas say, the order they came in gives the response's text, if and only if
      no delta is for a text block before one that already has text. */
  lemma DeltaOrderExactly(events: seq<Option<Event>>)
    ensures (forall text: nat -> string :: SaysSomething(text) ==>
               DeltaText(Relabelled(events, text)) == TextOf(BuildAll(Relabelled(events, text)).slots))
            <==> TextInOrder(events)
  {
    if TextInOrder(events) {
      forall text: nat -> string | SaysSomething(text)
        ensures DeltaText(Relabelled(events, text)) == TextOf(BuildAll(Relabelled(events, text)).slots)
      {
        RelabelledShape(events, text);
        OrderedText(Relabelled(events, text));
      }
    } else {
      var text := UnorderedTextsDiffer(events);
    }
  }

  /** The client's text is the text of the buffered completion. */
  ghost predicate TextsAgree(codec: Codec, decodeUsage: Json -> Option<ChatUsage>, events: seq<Option<Event>>, includeUsage: bool) {
    var buffered := Translate(codec, decodeUsage, FinalBody(codec, BuildAll(events)));
    buffered.Some? && buffered.value.content == NonEmpty(Assemble(ProxyOutput(Run(events, includeUsage), includeUsage)).text)
  }

  /** The stream succeeds, and the buffered translator accepts what it describes. */
  ghost predicate BothAccept(codec: Codec, decodeUsage: Json -> Option<ChatUsage>, events: seq<Option<Event>>, includeUsage: bool) {
    && AllValid(decodeUsage, events) && Succeeds(Run(events, includeUsage), includeUsage)
    && ReportsUsage(events) && InputsAreObjects(codec, BuildAll(events).slots)
  }

  lemma AgreementIsOfTexts(codec: Codec, decodeUsage: Json -> Option<ChatUsage>, events: seq<Option<Event>>, includeUsage: bool)
    ensures BothAccept(codec, decodeUsage, events, includeUsage) ==>
      (TextsAgree(codec, decodeUsage, events, includeUsage) <==> DeltaText(events) == TextOf(BuildAll(events).slots))
  {
    if BothAccept(codec, decodeUsage, events, includeUsage) {
      EventsAgainstBuffered(codec, decodeUsage, events, includeUsage);
    }
  }

  lemma RelabelledAccepted(codec: Codec, decodeUsage: Json -> Option<ChatUsage>, events: seq<Option<Event>>, includeUsage: bool, text: nat -> string)
    ensures BothAccept(codec, decodeUsage, events, includeUsage) && SaysSomething(text) ==>
      BothAccept(codec, decodeUsage, Relabelled(events, text), includeUsage)
  {
    if !BothAccept(codec, decodeUsage, events, includeUsage) || !SaysSomething(text) { return; }
    var relabelled := Relabelled(events, text);
    RelabelledRuns(events, text, includeUsage);
    RelabelledShape(events, text);
    ReportBuilt(events);
    ReportBuilt(relabelled);
    forall k | 0 <= k < |events| && relabelled[k].Some? ensures Valid(decodeUsage, relabelled[k].value) {
      assert events[k].Some? && Valid(decodeUsage, events[k].value);
    }
    var slots, slots' := BuildAll(events).slots, BuildAll(relabelled).slots;
    forall p | 0 <= p < |slots'| && slots'[p].ToolSlot? ensures IsObject(codec, slots'[p].input) {
      assert SameSlot(slots[p], slots'[p]);
    }
  }

  /** Whatever the text deltas of a stream that both translators accept say, streamed and buffered
      text agree, if and only if no delta is for a text block before one that already has text. */
  lemma TextOrderExactly(codec: Codec, decodeUsage: Json -> Option<ChatUsage>, events: seq<Option<Event>>, includeUsage: bool)
    ensures BothAccept(codec, decodeUsage, events, includeUsage) ==>
      ((forall text: nat -> string :: SaysSomething(text) ==>
          TextsAgree(codec, decodeUsage, Relabelled(events, text), includeUsage)) <==> TextInOrder(events))
  {
    if !BothAccept(codec, decodeUsage, events, includeUsage) { return; }
    forall text: nat -> string | SaysSomething(text)
      ensures TextsAgree(codec, decodeUsage, Relabelled(events, text), includeUsage) <==>
              DeltaText(Relabelled(events, text)) == TextOf(BuildAll(Relabelled(events, text)).slots)
    {
      RelabelledAccepted(codec, decodeUsage, events, includeUsage, text);
      AgreementIsOfTexts(codec, decodeUsage, Relabelled(events, text), includeUsage);
    }
    DeltaOrderExactly(events);
  }
}
