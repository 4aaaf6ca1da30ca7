/** Walks that go wrong: ids whose cursors do not lead back to them (pkg/endpointregistry/registry.go). */
module EndpointWalks {
  import opened Options
  import opened Bytes
  import opened Sorting
  import opened EndpointRegistry
  import opened EndpointCursors

  /** The next page of a walk starts after the last id with its invalid bytes replaced, and is
      refused when that id is too long once escaped. */
  lemma NextStart(other: bytes -> Option<Id>, q: Query, tables: seq<Table>, pages: seq<Page>)
    ensures IsWalk(JsonCursors(other), q, tables, pages) && pages != [] && Unfinished(pages) ==>
      pages[|pages| - 1].endpoints != [] && GoesOnAfter(other, q, pages, LastId(pages[|pages| - 1].endpoints))
  {
    if IsWalk(JsonCursors(other), q, tables, pages) && pages != [] && Unfinished(pages) {
      var codec := JsonCursors(other);
      LastPage(codec, q, tables, pages);
      var last := LastId(pages[|pages| - 1].endpoints);
      CursorSize(last);
      CursorReads(other, last);
      WalkGoesOn(codec, q, tables, pages);
    }
  }

  ghost predicate GoesOnAfter(other: bytes -> Option<Id>, q: Query, pages: seq<Page>, last: Id)
    requires Unfinished(pages)
  {
    var next := Validate(JsonCursors(other), NextQuery(q, pages));
    && (|Escape(last)| > 1515 ==> next.None?)
    && (|Escape(last)| <= 1515 && 0 < |Sanitised(last)| <= 1024 ==> next.Some? && next.value.after == Sanitised(last))
  }

  /** An endpoint with nothing but an id and a target. */
  function Row(id: Id): Endpoint {
    Endpoint(id, [116], [], [], 0, Some(Ready), None, true)
  }

  const ONE_BY_ONE := Query([], [], None, 1, [])

  /** A registry to which two endpoints were registered. */
  function Two(a: Id, b: Id): Table
    requires a != [] && b != []
  {
    map[a := Row(a), b := Row(b)]
  }

  lemma TwoAreRegistrable(a: Id, b: Id)
    requires a != [] && b != [] && a != b && |a| <= 1024 && |b| <= 1024
    ensures Valid(Row(a)) && Valid(Row(b))
    ensures ApplyAll(map[], [Register(Row(a)), Register(Row(b))]) == Two(a, b)
  {
    var ops := [Register(Row(a)), Register(Row(b))];
    assert ops[..1] == [ops[0]] && ops[..1][..0] == [];
    assert ApplyAll(map[], [ops[0]]) == map[a := Row(a)];
  }

  /** As long as the walk starts before both, its page is the first endpoint and a cursor. */
  function FirstOnly(codec: CursorCodec, a: Id): Page {
    Page([Row(a)], Some(codec.encode(a)))
  }

  lemma PageOfTwo(codec: CursorCodec, a: Id, b: Id, after: Id, page: Page)
    requires a != [] && b != [] && Less(a, b) && Less(after, a)
    ensures IsPage(codec, Two(a, b), ONE_BY_ONE, Start(1, after), page) <==> page == FirstOnly(codec, a)
  {
    var t, q, start := Two(a, b), ONE_BY_ONE, Start(1, after);
    LessTrichotomy(a, b);
    LessTransitive(after, a, b);
    assert Pending(t, q, after, a) && Pending(t, q, after, b);
    assert forall id :: Pending(t, q, after, id) ==> id == a || id == b;
    if IsPage(codec, t, q, start, page) {
      assert page.endpoints != [];
      assert page.endpoints == [page.endpoints[0]];
      assert page.endpoints[0] in page.endpoints;
    }
    if page == FirstOnly(codec, a) {
      assert t[b] !in page.endpoints;
    }
  }

  // -------------------------------------------------------------------------
  // A page that repeats for ever

  /** The cursor of a is accepted but leads to an id r before a. */
  predicate LeadsBack(codec: CursorCodec, a: Id, r: Id) {
    codec.encode(a) != [] && DecodeCursor(codec, codec.encode(a)) == Some(r) && Less(r, a)
  }

  /** After any number of such pages the next one starts before a again. */
  lemma RepeatStart(codec: CursorCodec, a: Id, r: Id, pages: seq<Page>)
    requires LeadsBack(codec, a, r)
    requires pages != [] ==> pages[|pages| - 1] == FirstOnly(codec, a)
    ensures Validate(codec, NextQuery(ONE_BY_ONE, pages)) == Some(Start(1, if pages == [] then [] else r))
  {}

  /** If the cursor of the first of two ids leads back, every page of every walk by ones is the first page. */
  lemma {:induction false} WalkRepeats(
    codec: CursorCodec, a: Id, b: Id, r: Id, tables: seq<Table>, pages: seq<Page>, k: nat)
    requires a != [] && Less(a, b) && LeadsBack(codec, a, r)
    requires IsWalk(codec, ONE_BY_ONE, tables, pages) && k < |pages|
    requires forall i :: 0 <= i < |tables| ==> tables[i] == Two(a, b)
    ensures pages[k] == FirstOnly(codec, a)
    decreases |pages|
  {
    var n := |pages| - 1;
    if k < n {
      WalkRepeats(codec, a, b, r, tables[..n], pages[..n], k);
    } else {
      if n > 0 { WalkRepeats(codec, a, b, r, tables[..n], pages[..n], n - 1); }
      RepeatStart(codec, a, r, pages[..n]);
      PageOfTwo(codec, a, b, if n == 0 then [] else r, pages[n]);
    }
  }

  /** And a walk of any length exists: it never finishes, and b is never listed. */
  lemma {:induction false} WalkNeverFinishes(codec: CursorCodec, a: Id, b: Id, r: Id, n: nat)
    requires a != [] && Less(a, b) && LeadsBack(codec, a, r)
    ensures var pages := seq(n, _ => FirstOnly(codec, a));
      && IsWalk(codec, ONE_BY_ONE, seq(n, _ => Two(a, b)), pages) && Unfinished(pages)
      && !Has(Listed(pages), b)
  {
    var pages := seq(n, _ => FirstOnly(codec, a));
    var tables: seq<Table> := seq(n, _ => Two(a, b));
    if n > 0 {
      WalkNeverFinishes(codec, a, b, r, n - 1);
      assert pages[..n - 1] == seq(n - 1, _ => FirstOnly(codec, a));
      assert tables[..n - 1] == seq(n - 1, _ => Two(a, b));
      RepeatStart(codec, a, r, pages[..n - 1]);
      PageOfTwo(codec, a, b, if n == 1 then [] else r, FirstOnly(codec, a));
      LessTrichotomy(a, b);
    }
  }

  const FE: Id := [0xFE]
  const FF: Id := [0xFF]

  /** The ids FE and FF may be registered, and FE is such an id: its cursor leads to U+FFFD. */
  lemma FeLeadsBack(other: bytes -> Option<Id>)
    ensures ApplyAll(map[], [Register(Row(FE)), Register(Row(FF))]) == Two(FE, FF)
    ensures Less(FE, FF) && LeadsBack(JsonCursors(other), FE, REPLACEMENT)
  {
    TwoAreRegistrable(FE, FF);
    assert FE[1..] == [];
    assert REPLACEMENT + [] == REPLACEMENT;
    CursorReads(other, FE);
    CursorSize(FE);
  }

  // -------------------------------------------------------------------------
  // A cursor that is refused

  /** An id of n angle brackets, each of which is escaped to six bytes. */
  function Brackets(n: nat): Id {
    seq(n, _ => 60)
  }

  lemma {:induction false} BracketsEscape(n: nat)
    ensures |Escape(Brackets(n))| == 6 * n && ValidUtf8(Brackets(n))
  {
    if n > 0 {
      assert Brackets(n)[1..] == Brackets(n - 1);
      BracketsEscape(n - 1);
    }
  }

  lemma BracketsFirst()
    ensures Less([], Brackets(253)) && Less(Brackets(253), [126])
  {
    assert Brackets(253)[0] == 60;
  }

  /** The first page of a walk by ones over two endpoints. */
  lemma OnePageWalk(codec: CursorCodec, a: Id, b: Id)
    requires a != [] && Less(a, b)
    ensures IsWalk(codec, ONE_BY_ONE, [Two(a, b)], [FirstOnly(codec, a)])
  {
    var pages, tables := [FirstOnly(codec, a)], [Two(a, b)];
    assert pages[..0] == [] && tables[..0] == [];
    assert Validate(codec, NextQuery(ONE_BY_ONE, [])) == Some(Start(1, []));
    PageOfTwo(codec, a, b, [], pages[0]);
  }

  /** If the first of two ids is too long once escaped, a walk by ones stops after it. */
  lemma StopsAfter(other: bytes -> Option<Id>, a: Id, b: Id)
    requires a != [] && Less(a, b) && |Escape(a)| > 1515
    ensures var pages := [FirstOnly(JsonCursors(other), a)];
      && IsWalk(JsonCursors(other), ONE_BY_ONE, [Two(a, b)], pages) && Unfinished(pages)
      && Validate(JsonCursors(other), NextQuery(ONE_BY_ONE, pages)).None?
  {
    OnePageWalk(JsonCursors(other), a, b);
    NextStart(other, ONE_BY_ONE, [Two(a, b)], [FirstOnly(JsonCursors(other), a)]);
  }

  /** An id of 253 brackets may be registered, and a walk that ends a page with it cannot go on. */
  lemma WalkStops(other: bytes -> Option<Id>)
    ensures Valid(Row(Brackets(253)))
    ensures ApplyAll(map[], [Register(Row(Brackets(253))), Register(Row([126]))]) == Two(Brackets(253), [126])
    ensures var pages := [FirstOnly(JsonCursors(other), Brackets(253))];
      && IsWalk(JsonCursors(other), ONE_BY_ONE, [Two(Brackets(253), [126])], pages) && Unfinished(pages)
      && Validate(JsonCursors(other), NextQuery(ONE_BY_ONE, pages)).None?
  {
    BracketsFirst();
    BracketsEscape(253);
    TwoAreRegistrable(Brackets(253), [126]);
    StopsAfter(other, Brackets(253), [126]);
  }
}
