/**
 When the streamed text is the buffered one: exactly which orders of text deltas
 make them agree whatever the deltas say.
 */
module AnthropicOrder {
  import opened Options
  import opened JsonValues
  import opened ChatChunks
  import opened LetterOrder
  import opened AnthropicResponse
  import opened AnthropicStream
  import opened AnthropicRefinement

  // -------------------------------------------------------------------------
  // The same events with other texts

  function RelabelledEvent(e: Option<Event>, text: string): Option<Event> {
    match e
    case Some(TextDelta(i, t)) => if t == "" then e else Some(TextDelta(i, text))
    case _ => e
  }

  /** Every non-empty text delta says something else: the k-th event text(k). */
  function Relabelled(events: seq<Option<Event>>, text: nat -> string): (r: seq<Option<Event>>)
    ensures |r| == |events|
    ensures forall k :: 0 <= k < |events| ==> r[k] == RelabelledEvent(events[k], text(k))
  {
    seq(|events|, k requires 0 <= k < |events| => RelabelledEvent(events[k], text(k)))
  }

  lemma RelabelledPrefix(events: seq<Option<Event>>, text: nat -> string, n: nat)
    requires n <= |events|
    ensures Relabelled(events, text)[..n] == Relabelled(events[..n], text)
  {}

  /** Blocks that differ at most in what their texts say. */
  predicate SameBlock(k: Block, k': Block) {
    && k'.index == k.index && k'.opening == k.opening && k'.start == k.start
    && if k.opening.OpensText? then k.data == "" <==> k'.data == "" else k'.data == k.data
  }

  predicate SameShape(b: Builder, b': Builder) {
    && b'.message == b.message && b'.usage == b.usage && b'.stop == b.stop && b'.position == b.position
    && |b'.blocks| == |b.blocks|
    && forall p :: 0 <= p < |b.blocks| ==> SameBlock(b.blocks[p], b'.blocks[p])
  }

  /** A text delta for a text block, in both builders. */
  lemma TextSameShape(b: Builder, b': Builder, i: int, t: string, t': string)
    requires SameShape(b, b') && (t == "" <==> t' == "") && b.Knows(i) && b.blocks[b.position[i]].opening.OpensText?
    ensures SameShape(Extended(b, i, t), Extended(b', i, t'))
  {
    var p := b.position[i];
    assert SameBlock(b.blocks[p], b'.blocks[p]);
    assert |b.blocks[p].data + t| == |b.blocks[p].data| + |t|;
    assert |b'.blocks[p].data + t'| == |b'.blocks[p].data| + |t'|;
  }

  lemma DataSameShape(b: Builder, b': Builder, i: int, data: string)
    requires SameShape(b, b') && b.Knows(i) && !b.blocks[b.position[i]].opening.OpensText?
    ensures SameShape(Extended(b, i, data), Extended(b', i, data))
  {
    assert SameBlock(b.blocks[b.position[i]], b'.blocks[b.position[i]]);
  }

  /** The event is for a block of the right kind, as in every accepted stream. */
  predicate Fitting(b: Builder, e: Event) {
    match e
    case TextDelta(i, _) => b.Knows(i) && b.blocks[b.position[i]].opening.OpensText?
    case JsonDelta(i, _) => b.Knows(i) && !b.blocks[b.position[i]].opening.OpensText?
    case BlockStop(i) => b.Knows(i)
    case _ => true
  }

  lemma BuildSameShape(b: Builder, b': Builder, e: Event, e': Event)
    requires SameShape(b, b') && Fitting(b, e)
    requires if e.TextDelta? then e'.TextDelta? && e'.index == e.index && (e.text == "" <==> e'.text == "") else e' == e
    ensures SameShape(Build(b, e), Build(b', e'))
  {
    match e
    case TextDelta(i, t) => TextSameShape(b, b', i, t, e'.text);
    case JsonDelta(i, partial) => DataSameShape(b, b', i, partial);
    case BlockStop(i) =>
      assert SameBlock(b.blocks[b.position[i]], b'.blocks[b.position[i]]);
      if !b.blocks[b.position[i]].opening.OpensText? { DataSameShape(b, b', i, "{}"); }
    case _ =>
  }

  lemma AcceptedFits(codec: Codec, includeUsage: bool, s: State, b: Builder, e: Event)
    requires BlocksLinked(codec, s, b) && Handle(codec, includeUsage, s, e).ok
    ensures Fitting(b, e)
  {
    match e
    case TextDelta(i, _) => assert i in b.position && BlockLinked(codec, s, b, b.position[i]);
    case JsonDelta(i, _) => assert i in b.position && BlockLinked(codec, s, b, b.position[i]);
    case BlockStop(i) => assert i in b.position;
    case _ =>
  }

  predicate SameReply(r: Reply, r': Reply) {
    r'.ok == r.ok && r'.next == r.next
  }

  lemma HandleRelabelled(codec: Codec, includeUsage: bool, s: State, e: Event, text: string)
    ensures RelabelledEvent(Some(e), text).Some?
    ensures SameReply(Handle(codec, includeUsage, s, e), Handle(codec, includeUsage, s, RelabelledEvent(Some(e), text).value))
  {}

  lemma RunLast(codec: Codec, includeUsage: bool, events: seq<Option<Event>>)
    requires events != []
    ensures var before, last := Run(codec, includeUsage, events[..|events| - 1]), events[|events| - 1];
      if !before.ok then SameReply(Run(codec, includeUsage, events), before)
      else if last.None? then Run(codec, includeUsage, events) == before.(ok := false)
      else SameReply(Run(codec, includeUsage, events), Handle(codec, includeUsage, before.next, last.value))
  {}

  /** What deltas say has no effect on whether a stream is accepted, nor on the stream's state. */
  lemma {:induction false} RelabelledRuns(codec: Codec, includeUsage: bool, events: seq<Option<Event>>, text: nat -> string)
    ensures SameReply(Run(codec, includeUsage, events), Run(codec, includeUsage, Relabelled(events, text)))
  {
    if events != [] {
      var n := |events| - 1;
      RelabelledRuns(codec, includeUsage, events[..n], text);
      RelabelledPrefix(events, text, n);
      RunLast(codec, includeUsage, events);
      RunLast(codec, includeUsage, Relabelled(events, text));
      assert Relabelled(events, text)[n] == RelabelledEvent(events[n], text(n));
      if events[n].Some? {
        HandleRelabelled(codec, includeUsage, Run(codec, includeUsage, events[..n]).next, events[n].value, text(n));
      }
    }
  }

  /** In an accepted stream every event fits the message described before it. */
  lemma EventFits(codec: Codec, includeUsage: bool, events: seq<Option<Event>>)
    requires events != [] && Run(codec, includeUsage, events).ok && !Run(codec, includeUsage, events).next.failed
    ensures var n := |events| - 1;
      && Run(codec, includeUsage, events[..n]).ok && !Run(codec, includeUsage, events[..n]).next.failed
      && events[n].Some? && Fitting(BuildAll(events[..n]), events[n].value)
  {
    var n := |events| - 1;
    FailedStays(codec, includeUsage, events);
    RunLinks(codec, includeUsage, events[..n]);
    AcceptedFits(codec, includeUsage, Run(codec, includeUsage, events[..n]).next, BuildAll(events[..n]), events[n].value);
  }

  lemma FailedStays(codec: Codec, includeUsage: bool, events: seq<Option<Event>>)
    requires events != [] && Run(codec, includeUsage, events).ok && !Run(codec, includeUsage, events).next.failed
    ensures var n := |events| - 1;
      Run(codec, includeUsage, events[..n]).ok && !Run(codec, includeUsage, events[..n]).next.failed
  {
    FailedIsTerminal(codec, includeUsage, events[..|events| - 1]);
  }

  lemma {:induction false} RelabelledShape(codec: Codec, includeUsage: bool, events: seq<Option<Event>>, text: nat -> string)
    requires Run(codec, includeUsage, events).ok && !Run(codec, includeUsage, events).next.failed && SaysSomething(text)
    ensures SameShape(BuildAll(events), BuildAll(Relabelled(events, text)))
    ensures TextInOrder(events) <==> TextInOrder(Relabelled(events, text))
  {
    if events != [] {
      var n := |events| - 1;
      EventFits(codec, includeUsage, events);
      RelabelledShape(codec, includeUsage, events[..n], text);
      RelabelledPrefix(events, text, n);
      var b, b' := BuildAll(events[..n]), BuildAll(Relabelled(events[..n], text));
      var e, e' := events[n].value, RelabelledEvent(events[n], text(n)).value;
      BuildSameShape(b, b', e, e');
      SameOrder(b, b', e, e');
    }
  }

  lemma SameOrder(b: Builder, b': Builder, e: Event, e': Event)
    requires SameShape(b, b')
    requires if e.TextDelta? then e'.TextDelta? && e'.index == e.index && (e.text == "" <==> e'.text == "") else e' == e
    ensures DeltaInOrder(b, e) <==> DeltaInOrder(b', e')
  {
    if e.TextDelta? && b.Knows(e.index) {
      var p := b.position[e.index];
      forall q | p < q < |b.blocks| ensures SameBlock(b.blocks[q], b'.blocks[q]) {}
    }
  }

  // -------------------------------------------------------------------------
  // In order

  /** Deltas in order give equal texts, whatever they say. */
  lemma OrderedTextsAgree(codec: Codec, includeUsage: bool, events: seq<Option<Event>>, text: nat -> string)
    requires Run(codec, includeUsage, events).ok && !Run(codec, includeUsage, events).next.failed
    requires TextInOrder(events) && SaysSomething(text)
    ensures DeltaText(Relabelled(events, text)) == MessageText(BuildAll(Relabelled(events, text)))
  {
    RelabelledShape(codec, includeUsage, events, text);
    RelabelledRuns(codec, includeUsage, events, text);
    RunLinks(codec, includeUsage, Relabelled(events, text));
    RunText(codec, includeUsage, Relabelled(events, text));
  }

  // -------------------------------------------------------------------------
  // Out of order

  /** The block that the k-th event is for, by order of start. */
  function Target(events: seq<Option<Event>>, k: nat): nat {
    if k < |events| && events[k].Some? && events[k].value.TextDelta? && BuildAll(events[..k]).Knows(events[k].value.index)
    then BuildAll(events[..k]).position[events[k].value.index] else 0
  }

  /** The letter a for blocks up to p, and b for those after it. */
  function Letters(events: seq<Option<Event>>, p: nat): nat -> string {
    (k: nat) => if Target(events, k) <= p then "a" else "b"
  }

  predicate LetteredBlock(k: Block, r: nat, p: nat) {
    k.opening.OpensText? ==> Only(k.data, if r <= p then 'a' else 'b')
  }

  predicate Lettered(b: Builder, p: nat) {
    forall r :: 0 <= r < |b.blocks| ==> LetteredBlock(b.blocks[r], r, p)
  }

  lemma BuildLettered(b: Builder, e: Event, p: nat)
    requires Lettered(b, p) && Fitting(b, e)
    requires e.TextDelta? && e.text != "" ==> e.text == if b.position[e.index] <= p then "a" else "b"
    ensures Lettered(Build(b, e), p)
  {
    var b' := Build(b, e);
    forall r | 0 <= r < |b'.blocks| ensures LetteredBlock(b'.blocks[r], r, p) {
      if r < |b.blocks| { assert LetteredBlock(b.blocks[r], r, p); }
    }
  }

  /** One more relabelled event keeps each block to its letter. */
  lemma LetterStep(events: seq<Option<Event>>, p: nat, k: nat, b: Builder, b': Builder)
    requires k < |events| && events[k].Some? && b == BuildAll(events[..k])
    requires SameShape(b, b') && Fitting(b, events[k].value) && Lettered(b', p)
    ensures var e' := RelabelledEvent(events[k], Letters(events, p)(k)); e'.Some? && Lettered(Build(b', e'.value), p)
  {
    var e' := RelabelledEvent(events[k], Letters(events, p)(k)).value;
    SameFits(b, b', events[k].value, e');
    BuildLettered(b', e', p);
  }

  lemma {:induction false} BuildLast(events: seq<Option<Event>>, n: nat)
    requires 0 < n <= |events| && events[n - 1].Some?
    ensures BuildAll(events[..n]) == Build(BuildAll(events[..n - 1]), events[n - 1].value)
  {
    assert events[..n][..n - 1] == events[..n - 1];
  }

  /** Relabelled with letters, each block has its own letter only. */
  lemma {:induction false} BlocksLettered(codec: Codec, includeUsage: bool, events: seq<Option<Event>>, p: nat, n: nat)
    requires Run(codec, includeUsage, events).ok && !Run(codec, includeUsage, events).next.failed && n <= |events|
    ensures Lettered(BuildAll(Relabelled(events, Letters(events, p))[..n]), p)
  {
    if n > 0 {
      var text := Letters(events, p);
      BlocksLettered(codec, includeUsage, events, p, n - 1);
      PrefixFits(codec, includeUsage, events, n);
      RelabelledShape(codec, includeUsage, events[..n - 1], text);
      RelabelledPrefix(events, text, n - 1);
      LetterStep(events, p, n - 1, BuildAll(events[..n - 1]), BuildAll(Relabelled(events, text)[..n - 1]));
      BuildLast(Relabelled(events, text), n);
    }
  }

  lemma PrefixFits(codec: Codec, includeUsage: bool, events: seq<Option<Event>>, n: nat)
    requires Run(codec, includeUsage, events).ok && !Run(codec, includeUsage, events).next.failed && 0 < n <= |events|
    ensures Run(codec, includeUsage, events[..n - 1]).ok && !Run(codec, includeUsage, events[..n - 1]).next.failed
    ensures events[n - 1].Some? && Fitting(BuildAll(events[..n - 1]), events[n - 1].value)
  {
    PrefixAccepted(codec, includeUsage, events, n);
    EventFits(codec, includeUsage, events[..n]);
    assert events[..n][..n - 1] == events[..n - 1];
  }

  lemma SameFits(b: Builder, b': Builder, e: Event, e': Event)
    requires SameShape(b, b') && Fitting(b, e)
    requires if e.TextDelta? then e'.TextDelta? && e'.index == e.index else e' == e
    ensures Fitting(b', e')
  {
    if e.TextDelta? || e.JsonDelta? {
      assert SameBlock(b.blocks[b.position[e.index]], b'.blocks[b.position[e.index]]);
    }
  }

  lemma {:induction false} PrefixAccepted(codec: Codec, includeUsage: bool, events: seq<Option<Event>>, n: nat)
    requires Run(codec, includeUsage, events).ok && !Run(codec, includeUsage, events).next.failed && n <= |events|
    ensures Run(codec, includeUsage, events[..n]).ok && !Run(codec, includeUsage, events[..n]).next.failed
  {
    if n < |events| {
      FailedStays(codec, includeUsage, events);
      assert events[..|events| - 1][..n] == events[..n];
      PrefixAccepted(codec, includeUsage, events[..|events| - 1], n);
    } else {
      assert events[..n] == events;
    }
  }

  /** So the message's text, which goes block by block, has its a's first. */
  lemma {:induction false} MessageSorted(blocks: seq<Block>, p: nat, n: nat)
    requires n <= |blocks| && forall r :: 0 <= r < |blocks| ==> LetteredBlock(blocks[r], r, p)
    ensures Sorted(TextUpTo(blocks, n))
    ensures n <= p + 1 ==> Only(TextUpTo(blocks, n), 'a')
  {
    if n > 0 {
      MessageSorted(blocks, p, n - 1);
      assert LetteredBlock(blocks[n - 1], n - 1, p);
      var before := TextUpTo(blocks, n - 1);
      var more := if blocks[n - 1].opening.OpensText? then blocks[n - 1].data else "";
      assert TextUpTo(blocks, n) == before + more;
    }
  }

  /** Every character of a text block came in some delta. */
  lemma {:induction false} DataWasSent(codec: Codec, includeUsage: bool, events: seq<Option<Event>>, r: nat, c: char)
    requires Run(codec, includeUsage, events).ok && !Run(codec, includeUsage, events).next.failed
    requires r < |BuildAll(events).blocks| && BuildAll(events).blocks[r].opening.OpensText? && c in BuildAll(events).blocks[r].data
    ensures c in DeltaText(events)
  {
    var n := |events| - 1;
    EventFits(codec, includeUsage, events);
    var b, e := BuildAll(events[..n]), events[n].value;
    if r < |b.blocks| && b.blocks[r].opening.OpensText? && c in b.blocks[r].data {
      DataWasSent(codec, includeUsage, events[..n], r, c);
    } else {
      assert e.TextDelta? && c in e.text;
    }
  }

  lemma {:induction false} DeltaPrefix(events: seq<Option<Event>>, n: nat)
    requires n <= |events|
    ensures DeltaText(events[..n]) <= DeltaText(events)
  {
    if n < |events| {
      assert events[..|events| - 1][..n] == events[..n];
      DeltaPrefix(events[..|events| - 1], n);
    } else {
      assert events[..n] == events;
    }
  }

  /** The first delta that is for a block before one that already has text. */
  lemma {:induction false} FirstOutOfOrder(events: seq<Option<Event>>) returns (j: nat)
    requires !TextInOrder(events)
    ensures j < |events| && events[j].Some? && !DeltaInOrder(BuildAll(events[..j]), events[j].value)
  {
    var n := |events| - 1;
    if TextInOrder(events[..n]) {
      j := n;
    } else {
      j := FirstOutOfOrder(events[..n]);
      assert events[..n][..j] == events[..j];
    }
  }

  /** Block q is a text block that has text before event j. */
  ghost predicate HasTextBefore(events: seq<Option<Event>>, j: nat, q: nat) {
    && j <= |events| && q < |BuildAll(events[..j]).blocks|
    && BuildAll(events[..j]).blocks[q].opening.OpensText? && BuildAll(events[..j]).blocks[q].data != ""
  }

  /** A later block that has text has been sent a b. */
  lemma LaterLetter(codec: Codec, includeUsage: bool, events: seq<Option<Event>>, p: nat, j: nat, q: nat)
    ensures Run(codec, includeUsage, events).ok && !Run(codec, includeUsage, events).next.failed && p < q && HasTextBefore(events, j, q) ==>
      'b' in DeltaText(Relabelled(events, Letters(events, p))[..j])
  {
    if Run(codec, includeUsage, events).ok && !Run(codec, includeUsage, events).next.failed && p < q && HasTextBefore(events, j, q) {
      var text := Letters(events, p);
      PrefixAccepted(codec, includeUsage, events, j);
      RelabelledPrefix(events, text, j);
      RelabelledShape(codec, includeUsage, events[..j], text);
      BlocksLettered(codec, includeUsage, events, p, j);
      RelabelledRuns(codec, includeUsage, events[..j], text);
      var relabelled := Relabelled(events[..j], text);
      var k := BuildAll(relabelled).blocks[q];
      assert SameBlock(BuildAll(events[..j]).blocks[q], k) && LetteredBlock(k, q, p);
      assert k.data[0] == 'b';
      DataWasSent(codec, includeUsage, relabelled, q, 'b');
    }
  }

  lemma {:induction false} DeltaLast(events: seq<Option<Event>>, j: nat)
    requires j < |events| && events[j].Some? && events[j].value.TextDelta?
    ensures DeltaText(events[..j + 1]) == DeltaText(events[..j]) + events[j].value.text
  {
    assert events[..j + 1][..j] == events[..j];
  }

  lemma TargetLetter(events: seq<Option<Event>>, j: nat)
    requires j < |events| && events[j].Some? && events[j].value.TextDelta? && events[j].value.text != ""
    ensures Relabelled(events, Letters(events, Target(events, j)))[j] == Some(TextDelta(events[j].value.index, "a"))
  {}

  /** With letters, the client reads a b before an a. */
  lemma LettersCross(codec: Codec, includeUsage: bool, events: seq<Option<Event>>, j: nat, q: nat)
    requires j < |events| && events[j].Some? && events[j].value.TextDelta? && events[j].value.text != ""
    requires Target(events, j) < q
    ensures Run(codec, includeUsage, events).ok && !Run(codec, includeUsage, events).next.failed && HasTextBefore(events, j, q) ==>
      !Sorted(DeltaText(Relabelled(events, Letters(events, Target(events, j)))))
  {
    if Run(codec, includeUsage, events).ok && !Run(codec, includeUsage, events).next.failed && HasTextBefore(events, j, q) {
      var p := Target(events, j);
      var relabelled := Relabelled(events, Letters(events, p));
      LaterLetter(codec, includeUsage, events, p, j, q);
      TargetLetter(events, j);
      DeltaLast(relabelled, j);
      DeltaPrefix(relabelled, j + 1);
      NotSorted(DeltaText(relabelled[..j]), DeltaText(relabelled));
    }
  }

  /** Deltas out of order can be made to say something that the message says differently. */
  lemma UnorderedTextsDiffer(codec: Codec, includeUsage: bool, events: seq<Option<Event>>) returns (text: nat -> string)
    requires Run(codec, includeUsage, events).ok && !Run(codec, includeUsage, events).next.failed && !TextInOrder(events)
    ensures SaysSomething(text)
    ensures DeltaText(Relabelled(events, text)) != MessageText(BuildAll(Relabelled(events, text)))
  {
    var j := FirstOutOfOrder(events);
    PrefixAccepted(codec, includeUsage, events, j + 1);
    EventFits(codec, includeUsage, events[..j + 1]);
    assert events[..j + 1][..j] == events[..j];
    var b, e := BuildAll(events[..j]), events[j].value;
    var q :| b.position[e.index] < q < |b.blocks| && b.blocks[q].opening.OpensText? && b.blocks[q].data != "";
    var p := Target(events, j);
    text := Letters(events, p);
    LettersCross(codec, includeUsage, events, j, q);
    BlocksLettered(codec, includeUsage, events, p, |events|);
    var relabelled := Relabelled(events, text);
    assert relabelled[..|events|] == relabelled;
    MessageSorted(BuildAll(relabelled).blocks, p, |BuildAll(relabelled).blocks|);
  }

  // -------------------------------------------------------------------------
  // Streamed and buffered text

  /** The client's text is the text of the buffered completion. */
  ghost predicate TextsAgree(codec: Codec, includeUsage: bool, events: seq<Option<Event>>) {
    var buffered := Translate(codec, FinalMessage(codec, BuildAll(events)));
    buffered.Some? && buffered.value.content == NonEmpty(Assemble(Run(codec, includeUsage, events).out).text)
  }

  lemma AgreementIsOfTexts(codec: Codec, includeUsage: bool, events: seq<Option<Event>>)
    ensures AllValid(events) && ProxyOutcome(Run(codec, includeUsage, events)).Success? ==>
      (TextsAgree(codec, includeUsage, events) <==> DeltaText(events) == MessageText(BuildAll(events)))
  {
    RefinesBuffered(codec, includeUsage, events);
  }

  lemma RelabelledValid(e: Event, text: string)
    requires Valid(e)
    ensures RelabelledEvent(Some(e), text).Some? && Valid(RelabelledEvent(Some(e), text).value)
  {}

  lemma AllRelabelledValid(events: seq<Option<Event>>, text: nat -> string)
    requires AllValid(events)
    ensures AllValid(Relabelled(events, text))
  {
    forall k | 0 <= k < |events| && Relabelled(events, text)[k].Some? ensures Valid(Relabelled(events, text)[k].value) {
      assert Relabelled(events, text)[k] == RelabelledEvent(events[k], text(k)) && events[k].Some?;
      RelabelledValid(events[k].value, text(k));
    }
  }

  lemma RelabelledSucceeds(codec: Codec, includeUsage: bool, events: seq<Option<Event>>, text: nat -> string)
    ensures AllValid(events) ==> AllValid(Relabelled(events, text))
    ensures ProxyOutcome(Run(codec, includeUsage, Relabelled(events, text))) == ProxyOutcome(Run(codec, includeUsage, events))
  {
    if AllValid(events) { AllRelabelledValid(events, text); }
    RelabelledRuns(codec, includeUsage, events, text);
  }

  /** Whatever the text deltas of a successful stream say, streamed and buffered text agree, if and
      only if no delta is for a text block before one that already has text. */
  lemma TextOrderExactly(codec: Codec, includeUsage: bool, events: seq<Option<Event>>)
    ensures AllValid(events) && ProxyOutcome(Run(codec, includeUsage, events)).Success? ==>
      ((forall text: nat -> string :: SaysSomething(text) ==>
          TextsAgree(codec, includeUsage, Relabelled(events, text))) <==> TextInOrder(events))
  {
    if !AllValid(events) || !ProxyOutcome(Run(codec, includeUsage, events)).Success? { return; }
    if TextInOrder(events) {
      forall text: nat -> string | SaysSomething(text)
        ensures TextsAgree(codec, includeUsage, Relabelled(events, text))
      {
        RelabelledSucceeds(codec, includeUsage, events, text);
        AgreementIsOfTexts(codec, includeUsage, Relabelled(events, text));
        OrderedTextsAgree(codec, includeUsage, events, text);
      }
    } else {
      var text := UnorderedTextsDiffer(codec, includeUsage, events);
      RelabelledSucceeds(codec, includeUsage, events, text);
      AgreementIsOfTexts(codec, includeUsage, Relabelled(events, text));
    }
  }
}
