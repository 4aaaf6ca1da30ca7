/** Texts in pieces, each for a numbered block: what they say in the order they came, and block by block. */
module Pieces {
  import opened LetterOrder
  import opened Placement

  datatype Piece = Piece(index: int, text: string)

  function IndexOf(p: Piece): int { p.index }

  function Concat(pieces: seq<Piece>): string {
    if pieces == [] then "" else Concat(pieces[..|pieces| - 1]) + pieces[|pieces| - 1].text
  }

  /** The text block by block, in order of index. */
  function ByBlock(pieces: seq<Piece>): string {
    Concat(Placed(pieces, IndexOf))
  }

  function At(i: int): Piece -> bool { (p: Piece) => p.index == i }

  function Below(i: int): Piece -> bool { (p: Piece) => p.index < i }

  /** What the pieces for one block say. */
  function SaidAt(pieces: seq<Piece>, i: int): string {
    Concat(Kept(pieces, At(i)))
  }

  predicate UpTo(pieces: seq<Piece>, i: int) {
    forall p :: 0 <= p < |pieces| ==> pieces[p].index <= i
  }

  lemma {:induction false} ConcatBoth(a: seq<Piece>, b: seq<Piece>)
    ensures Concat(a + b) == Concat(a) + Concat(b)
  {
    if b == [] {
      assert a + b == a;
    } else {
      assert (a + b)[..|a + b| - 1] == a + b[..|b| - 1];
      ConcatBoth(a, b[..|b| - 1]);
    }
  }

  lemma ConcatOne(pieces: seq<Piece>, p: Piece)
    ensures Concat(pieces + [p]) == Concat(pieces) + p.text
  {
    assert (pieces + [p])[..|pieces|] == pieces;
  }

  lemma InOrderText(pieces: seq<Piece>)
    requires InOrder(pieces, IndexOf)
    ensures ByBlock(pieces) == Concat(pieces)
  {
    PlacedSame(pieces, IndexOf);
  }

  lemma SaidOne(pieces: seq<Piece>, p: Piece, i: int)
    ensures SaidAt(pieces + [p], i) == SaidAt(pieces, i) + if p.index == i then p.text else ""
  {
    KeptAppend(pieces, At(i), p);
    ConcatBoth(Kept(pieces, At(i)), if p.index == i then [p] else []);
    assert [p][..0] == [] && "" + p.text == p.text;
  }

  /** The block with the largest index says the last part. */
  lemma TopLast(pieces: seq<Piece>, m: int)
    requires UpTo(pieces, m)
    ensures ByBlock(pieces) == ByBlock(Kept(pieces, Below(m))) + SaidAt(pieces, m)
  {
    var placed := Placed(pieces, IndexOf);
    PlacedSorts(pieces, IndexOf);
    forall p | 0 <= p < |placed| ensures placed[p].index <= m { assert placed[p] in multiset(placed) && placed[p] in pieces; }
    SortedSplits(placed, Below(m), At(m));
    KeptPlaced(pieces, IndexOf, Below(m));
    KeptPlaced(pieces, IndexOf, At(m));
    SameBlock(pieces, m);
    ConcatBoth(Kept(placed, Below(m)), Kept(placed, At(m)));
  }

  lemma SameBlock(pieces: seq<Piece>, m: int)
    ensures Placed(Kept(pieces, At(m)), IndexOf) == Kept(pieces, At(m))
  {
    var kept := Kept(pieces, At(m));
    forall p | 0 <= p < |kept| ensures kept[p].index == m { KeptSome(pieces, At(m), p); }
    PlacedSame(kept, IndexOf);
  }

  lemma {:induction false} SaidBelow(pieces: seq<Piece>, m: int, i: int)
    ensures SaidAt(Kept(pieces, Below(m)), i) == if i < m then SaidAt(pieces, i) else ""
  {
    if pieces != [] {
      var before, last := pieces[..|pieces| - 1], pieces[|pieces| - 1];
      assert pieces == before + [last];
      SaidBelow(before, m, i);
      KeptAppend(before, Below(m), last);
      SaidOne(before, last, i);
      var kept := Kept(before, Below(m));
      if last.index < m { SaidOne(kept, last, i); } else { assert kept + [] == kept; }
    }
  }

  lemma {:induction false} Largest(pieces: seq<Piece>) returns (m: int)
    requires pieces != []
    ensures UpTo(pieces, m) && exists p :: 0 <= p < |pieces| && pieces[p].index == m
  {
    var n := |pieces| - 1;
    m := pieces[n].index;
    if n > 0 {
      var before := Largest(pieces[..n]);
      var p :| 0 <= p < n && pieces[..n][p].index == before;
      assert forall q :: 0 <= q < n ==> pieces[..n][q] == pieces[q];
      if before > m { m := before; }
    }
  }

  lemma {:induction false} KeptFewer(pieces: seq<Piece>, keep: Piece -> bool)
    ensures |Kept(pieces, keep)| <= |pieces|
    ensures (exists p :: 0 <= p < |pieces| && !keep(pieces[p])) ==> |Kept(pieces, keep)| < |pieces|
  {
    if pieces != [] {
      var n := |pieces| - 1;
      KeptFewer(pieces[..n], keep);
      assert forall q :: 0 <= q < n ==> pieces[..n][q] == pieces[q];
    }
  }

  /** The text block by block depends only on what each block says. */
  lemma {:induction false} Determined(a: seq<Piece>, b: seq<Piece>)
    requires forall i :: SaidAt(a, i) == SaidAt(b, i)
    ensures ByBlock(a) == ByBlock(b)
    decreases |a| + |b|
  {
    if a + b != [] {
      var m := Largest(a + b);
      forall p | 0 <= p < |a| ensures a[p].index <= m { assert (a + b)[p] == a[p]; }
      forall p | 0 <= p < |b| ensures b[p].index <= m { assert (a + b)[|a| + p] == b[p]; }
      TopLast(a, m);
      TopLast(b, m);
      assert SaidAt(a, m) == SaidAt(b, m);
      var a', b' := Kept(a, Below(m)), Kept(b, Below(m));
      forall i ensures SaidAt(a', i) == SaidAt(b', i) {
        SaidBelow(a, m, i);
        SaidBelow(b, m, i);
        assert SaidAt(a, i) == SaidAt(b, i);
      }
      KeptFewer(a, Below(m));
      KeptFewer(b, Below(m));
      assert |a'| + |b'| < |a| + |b| by {
        var p :| 0 <= p < |a + b| && (a + b)[p].index == m;
        if p < |a| { assert !Below(m)(a[p]); } else { assert !Below(m)(b[p - |a|]); }
      }
      Determined(a', b');
    }
  }

  // -------------------------------------------------------------------------
  // Pieces that are not in order of index

  /** The letter a for blocks up to m, and b for those after it. */
  function LetterUpTo(m: int, i: int): string {
    if i <= m then "a" else "b"
  }

  predicate Lettered(pieces: seq<Piece>, m: int) {
    forall p :: 0 <= p < |pieces| ==> pieces[p].text == LetterUpTo(m, pieces[p].index)
  }

  lemma {:induction false} LetteredSorted(pieces: seq<Piece>, m: int)
    requires Lettered(pieces, m) && InOrder(pieces, IndexOf)
    ensures Sorted(Concat(pieces)) && (UpTo(pieces, m) ==> Only(Concat(pieces), 'a'))
  {
    if pieces != [] {
      var n := |pieces| - 1;
      LetteredSorted(pieces[..n], m);
      if pieces[n].index <= m { assert UpTo(pieces[..n], m); }
    }
  }

  lemma {:induction false} LetterSaid(pieces: seq<Piece>, m: int, j: nat)
    requires Lettered(pieces, m) && j < |pieces| && pieces[j].index > m
    ensures 'b' in Concat(pieces)
  {
    var n := |pieces| - 1;
    if j < n { LetterSaid(pieces[..n], m, j); } else { assert Concat(pieces)[|Concat(pieces)| - 1] == 'b'; }
  }

  lemma {:induction false} ConcatPrefix(pieces: seq<Piece>, n: nat)
    requires n <= |pieces|
    ensures Concat(pieces[..n]) <= Concat(pieces)
  {
    assert pieces == pieces[..n] + pieces[n..];
    ConcatBoth(pieces[..n], pieces[n..]);
  }

  lemma CrossingUnsorted(pieces: seq<Piece>, j: nat, k: nat)
    requires j < k < |pieces| && pieces[j].index > pieces[k].index && Lettered(pieces, pieces[k].index)
    ensures !Sorted(Concat(pieces))
  {
    LetterSaid(pieces[..k], pieces[k].index, j);
    assert pieces[..k + 1] == pieces[..k] + [pieces[k]];
    ConcatOne(pieces[..k], pieces[k]);
    ConcatPrefix(pieces, k + 1);
    NotSorted(Concat(pieces[..k]), Concat(pieces));
  }

  lemma PlacedLettered(pieces: seq<Piece>, m: int)
    requires Lettered(pieces, m)
    ensures Sorted(ByBlock(pieces))
  {
    var placed := Placed(pieces, IndexOf);
    PlacedSorts(pieces, IndexOf);
    forall p | 0 <= p < |placed| ensures placed[p].text == LetterUpTo(m, placed[p].index) {
      assert placed[p] in multiset(placed) && placed[p] in pieces;
    }
    LetteredSorted(placed, m);
  }

  /** Lettered pieces, the k-th for a block before that of the j-th, say one thing as they came
      and another block by block. */
  lemma LettersTell(pieces: seq<Piece>, j: nat, k: nat)
    requires j < k < |pieces| && pieces[j].index > pieces[k].index && Lettered(pieces, pieces[k].index)
    ensures Concat(pieces) != ByBlock(pieces)
  {
    CrossingUnsorted(pieces, j, k);
    PlacedLettered(pieces, pieces[k].index);
  }
}
