/** Items placed by an index, as an insertion from the end does it. */
module Placement {

  function Place<T>(items: seq<T>, index: T -> int, x: T): seq<T> {
    if items == [] || index(items[|items| - 1]) <= index(x) then items + [x]
    else Place(items[..|items| - 1], index, x) + [items[|items| - 1]]
  }

  /** The items in order of index; those with one index stay in the order they came. */
  function Placed<T>(items: seq<T>, index: T -> int): seq<T> {
    if items == [] then [] else Place(Placed(items[..|items| - 1], index), index, items[|items| - 1])
  }

  predicate InOrder<T>(items: seq<T>, index: T -> int) {
    forall p, q :: 0 <= p < q < |items| ==> index(items[p]) <= index(items[q])
  }

  lemma {:induction false} PlaceBefore<T>(items: seq<T>, index: T -> int, x: T, last: T)
    requires index(last) > index(x)
    ensures Place(items + [last], index, x) == Place(items, index, x) + [last]
  {
    assert (items + [last])[..|items|] == items;
  }

  lemma {:induction false} PlacedAppend<T>(items: seq<T>, index: T -> int, x: T)
    ensures Placed(items + [x], index) == Place(Placed(items, index), index, x)
  {
    assert (items + [x])[..|items|] == items;
  }

  lemma {:induction false} AppendKeeps<T>(items: seq<T>, index: T -> int, x: T)
    requires InOrder(items, index) && forall y :: y in multiset(items) ==> index(y) <= index(x)
    ensures InOrder(items + [x], index)
  {
    forall p | 0 <= p < |items| ensures index(items[p]) <= index(x) {
      assert items[p] in multiset(items);
    }
  }

  lemma {:induction false} PlaceItems<T>(items: seq<T>, index: T -> int, x: T)
    ensures multiset(Place(items, index, x)) == multiset(items) + multiset{x}
  {
    if items != [] && index(items[|items| - 1]) > index(x) {
      var before, last := items[..|items| - 1], items[|items| - 1];
      assert items == before + [last];
      PlaceItems(before, index, x);
    }
  }

  lemma {:induction false} PlaceKeeps<T>(items: seq<T>, index: T -> int, x: T)
    requires InOrder(items, index)
    ensures InOrder(Place(items, index, x), index)
  {
    if items != [] && index(items[|items| - 1]) > index(x) {
      var before, last := items[..|items| - 1], items[|items| - 1];
      PlaceKeeps(before, index, x);
      PlaceItems(before, index, x);
      forall y | y in multiset(Place(before, index, x)) ensures index(y) <= index(last) {
        assert y in multiset(before) || y == x;
      }
      AppendKeeps(Place(before, index, x), index, last);
    }
  }

  /** Placing rearranges the items into the order of their indexes. */
  lemma {:induction false} PlacedSorts<T>(items: seq<T>, index: T -> int)
    ensures InOrder(Placed(items, index), index) && multiset(Placed(items, index)) == multiset(items)
  {
    if items != [] {
      var before, last := items[..|items| - 1], items[|items| - 1];
      PlacedSorts(before, index);
      PlaceKeeps(Placed(before, index), index, last);
      PlaceItems(Placed(before, index), index, last);
      assert items == before + [last];
    }
  }

  lemma {:induction false} PlacedSame<T>(items: seq<T>, index: T -> int)
    requires InOrder(items, index)
    ensures Placed(items, index) == items
  {
    if items != [] {
      PlacedSame(items[..|items| - 1], index);
      assert items == items[..|items| - 1] + [items[|items| - 1]];
    }
  }

  /** Items are where placing puts them exactly when they came in order. */
  lemma PlacedSameExactly<T>(items: seq<T>, index: T -> int)
    ensures Placed(items, index) == items <==> InOrder(items, index)
  {
    PlacedSorts(items, index);
    if InOrder(items, index) { PlacedSame(items, index); }
  }

  function Kept<T>(items: seq<T>, keep: T -> bool): seq<T> {
    if items == [] then []
    else Kept(items[..|items| - 1], keep) + if keep(items[|items| - 1]) then [items[|items| - 1]] else []
  }

  lemma {:induction false} KeptAppend<T>(items: seq<T>, keep: T -> bool, x: T)
    ensures Kept(items + [x], keep) == Kept(items, keep) + if keep(x) then [x] else []
  {
    assert (items + [x])[..|items|] == items;
  }

  lemma {:induction false} KeptFrom<T>(items: seq<T>, keep: T -> bool, x: T)
    requires x in Kept(items, keep)
    ensures x in items
  {
    var before := items[..|items| - 1];
    if x in Kept(before, keep) { KeptFrom(before, keep, x); }
  }

  lemma {:induction false} KeptPlaceLast<T>(items: seq<T>, index: T -> int, keep: T -> bool, x: T)
    requires InOrder(items, index) && (items == [] || index(items[|items| - 1]) <= index(x))
    ensures Place(Kept(items, keep), index, x) == Kept(items, keep) + [x]
  {
    var kept := Kept(items, keep);
    if kept != [] {
      KeptFrom(items, keep, kept[|kept| - 1]);
    }
  }

  lemma {:induction false} KeptPlace<T>(items: seq<T>, index: T -> int, keep: T -> bool, x: T)
    requires InOrder(items, index)
    ensures Kept(Place(items, index, x), keep) ==
      if keep(x) then Place(Kept(items, keep), index, x) else Kept(items, keep)
  {
    if items == [] || index(items[|items| - 1]) <= index(x) {
      KeptAppend(items, keep, x);
      KeptPlaceLast(items, index, keep, x);
    } else {
      var before, last := items[..|items| - 1], items[|items| - 1];
      assert items == before + [last];
      KeptAppend(before, keep, last);
      KeptPlace(before, index, keep, x);
      var placed := Place(before, index, x);
      KeptAppend(placed, keep, last);
      assert Place(items, index, x) == placed + [last];
      if keep(x) && keep(last) {
        PlaceBefore(Kept(before, keep), index, x, last);
      } else if keep(x) {
        assert Kept(items, keep) == Kept(before, keep);
      }
    }
  }

  /** Placing some of the items is the same before and after the others are left out. */
  lemma {:induction false} KeptPlaced<T>(items: seq<T>, index: T -> int, keep: T -> bool)
    ensures Kept(Placed(items, index), keep) == Placed(Kept(items, keep), index)
  {
    if items != [] {
      var before, last := items[..|items| - 1], items[|items| - 1];
      assert items == before + [last];
      KeptPlaced(before, index, keep);
      PlacedSorts(before, index);
      KeptPlace(Placed(before, index), index, keep, last);
      KeptAppend(before, keep, last);
      assert Placed(items, index) == Place(Placed(before, index), index, last);
      if keep(last) {
        PlacedAppend(Kept(before, keep), index, last);
      } else {
        assert Kept(items, keep) == Kept(before, keep);
      }
    }
  }

  lemma {:induction false} KeptNone<T>(items: seq<T>, keep: T -> bool)
    requires forall p :: 0 <= p < |items| ==> !keep(items[p])
    ensures Kept(items, keep) == []
  {
    if items != [] { KeptNone(items[..|items| - 1], keep); }
  }

  lemma {:induction false} KeptSome<T>(items: seq<T>, keep: T -> bool, p: nat)
    requires p < |Kept(items, keep)|
    ensures keep(Kept(items, keep)[p])
  {
    if p < |Kept(items[..|items| - 1], keep)| { KeptSome(items[..|items| - 1], keep, p); }
  }

  /** Where all that is left out comes last, the items are those kept and those left out. */
  lemma {:induction false} SortedSplits<T>(items: seq<T>, keep: T -> bool, others: T -> bool)
    requires forall p :: 0 <= p < |items| ==> (others(items[p]) <==> !keep(items[p]))
    requires forall p, q :: 0 <= p < q < |items| && keep(items[q]) ==> keep(items[p])
    ensures items == Kept(items, keep) + Kept(items, others)
  {
    if items != [] {
      var n := |items| - 1;
      SortedSplits(items[..n], keep, others);
      assert items == items[..n] + [items[n]];
      if keep(items[n]) { KeptNone(items[..n], others); }
    }
  }

  function Mapped<T, U>(items: seq<T>, f: T -> U): seq<U> {
    seq(|items|, p requires 0 <= p < |items| => f(items[p]))
  }

  lemma {:induction false} MappedPlace<T(!new), U>(items: seq<T>, index: T -> int, f: T -> U, index': U -> int, x: T)
    requires forall y :: index'(f(y)) == index(y)
    ensures Mapped(Place(items, index, x), f) == Place(Mapped(items, f), index', f(x))
  {
    if items != [] && index(items[|items| - 1]) > index(x) {
      var before := items[..|items| - 1];
      MappedPlace(before, index, f, index', x);
      assert Mapped(items, f)[..|items| - 1] == Mapped(before, f);
    }
  }

  /** Placing may come before or after a change that leaves the indexes. */
  lemma {:induction false} MappedPlaced<T(!new), U>(items: seq<T>, index: T -> int, f: T -> U, index': U -> int)
    requires forall y :: index'(f(y)) == index(y)
    ensures Mapped(Placed(items, index), f) == Placed(Mapped(items, f), index')
  {
    if items != [] {
      var before, last := items[..|items| - 1], items[|items| - 1];
      MappedPlaced(before, index, f, index');
      MappedPlace(Placed(before, index), index, f, index', last);
      assert Mapped(items, f)[..|items| - 1] == Mapped(before, f);
    }
  }
}
