/** The in-memory endpoint registry and its paging (pkg/endpointregistry/registry.go). */
module EndpointRegistry {
  import opened Options
  import opened Bytes
  import opened Sorting

  type Id = bytes

  datatype Lifecycle = Offline | Activating | Ready | Draining | Deactivating | Failed | Unknown

  /** `wellFormed` stands for the validations of fields that are not modelled. */
  datatype Endpoint = Endpoint(
    id: Id, target: bytes, controller: bytes, binding: bytes, fencing: int,
    state: Option<Lifecycle>, expires: Option<int>, wellFormed: bool)

  type Table = t: map<Id, Endpoint> | forall id :: id in t ==> t[id].id == id && id != [] witness map[]

  predicate Valid(e: Endpoint) {
    && e.id != [] && e.target != [] && |e.id| <= 1024 && |e.target| <= 1024 && |e.controller| <= 1024 && |e.binding| <= 1024
    && e.fencing >= 0 && (e.fencing > 0 ==> e.controller != [] && e.binding != [])
    && e.wellFormed
  }

  // -------------------------------------------------------------------------
  // Registration

  /** A registration that is valid and not fenced off replaces the current one. */
  predicate Accepts(t: Table, e: Endpoint) {
    Valid(e) && (e.id in t ==> t[e.id].fencing <= e.fencing)
  }

  function Stored(e: Endpoint): Endpoint {
    if e.state.None? then e.(state := Some(Unknown)) else e
  }

  datatype Operation = Register(endpoint: Endpoint) | Remove(id: Id)

  function Apply(t: Table, op: Operation): Table {
    match op
    case Register(e) => if Accepts(t, e) then t[e.id := Stored(e)] else t
    case Remove(id) => t - {id}
  }

  function ApplyAll(t: Table, ops: seq<Operation>): Table {
    if ops == [] then t else Apply(ApplyAll(t, ops[..|ops| - 1]), ops[|ops| - 1])
  }

  /** Until an endpoint is removed it stays registered and its fencing token never decreases. */
  lemma {:induction false} FencingNeverDecreases(t: Table, ops: seq<Operation>, id: Id)
    requires id in t && Remove(id) !in ops
    ensures id in ApplyAll(t, ops) && t[id].fencing <= ApplyAll(t, ops)[id].fencing
  {
    if ops != [] {
      assert Remove(id) !in ops[..|ops| - 1];
      FencingNeverDecreases(t, ops[..|ops| - 1], id);
    }
  }

  // -------------------------------------------------------------------------
  // Queries and pages

  const DEFAULT_PAGE := 100
  const MAX_PAGE := 500
  const MAX_CURSOR := 2048

  /** How cursors are written and read back, before their own checks. */
  datatype CursorCodec = CursorCodec(encode: Id -> bytes, decode: bytes -> Option<Id>)

  datatype Query = Query(target: bytes, controller: bytes, state: Option<Lifecycle>, limit: int, cursor: bytes)

  predicate Matches(q: Query, e: Endpoint) {
    && (q.target != [] ==> e.target == q.target)
    && (q.controller != [] ==> e.controller == q.controller)
    && (q.state.Some? ==> e.state == q.state)
  }

  function DecodeCursor(codec: CursorCodec, cursor: bytes): Option<Id> {
    if |cursor| > MAX_CURSOR then None
    else match codec.decode(cursor)
      case Some(id) => if id == [] || |id| > 1024 then None else Some(id)
      case None => None
  }

  /** The cursor of this id is accepted and leads back to it. */
  predicate Fits(codec: CursorCodec, id: Id) {
    DecodeCursor(codec, codec.encode(id)) == Some(id) && codec.encode(id) != []
  }

  datatype Start = Start(limit: nat, after: Id)

  /** The page size and starting point of a query; `None` for an invalid query. */
  function Validate(codec: CursorCodec, q: Query): (r: Option<Start>)
    ensures r.Some? ==> 1 <= r.value.limit <= MAX_PAGE
  {
    if |q.target| > 1024 || |q.controller| > 1024 || q.limit < 0 || q.limit > MAX_PAGE then None
    else
      var limit := if q.limit == 0 then DEFAULT_PAGE else q.limit;
      if q.cursor == [] then Some(Start(limit, []))
      else match DecodeCursor(codec, q.cursor)
        case Some(after) => Some(Start(limit, after))
        case None => None
  }

  datatype Page = Page(endpoints: seq<Endpoint>, next: Option<bytes>)

  ghost predicate Increasing(s: seq<Endpoint>) {
    forall i, j :: 0 <= i < j < |s| ==> Less(s[i].id, s[j].id)
  }

  /** The endpoint is a match that a walk past `after` has yet to see. */
  predicate Pending(t: Table, q: Query, after: Id, id: Id) {
    id in t && Matches(q, t[id]) && Less(after, id)
  }

  function LastId(endpoints: seq<Endpoint>): Id
    requires endpoints != []
  {
    endpoints[|endpoints| - 1].id
  }

  /** A page: the next matches in id order, all of them unless more than a page remain. */
  ghost predicate IsPage(codec: CursorCodec, t: Table, q: Query, start: Start, page: Page) {
    && Increasing(page.endpoints)
    && (forall e :: e in page.endpoints ==> Pending(t, q, start.after, e.id) && e == t[e.id])
    && (forall id :: Pending(t, q, start.after, id) && t[id] !in page.endpoints ==>
          page.next.Some? && page.endpoints != [] && Less(LastId(page.endpoints), id))
    && (page.next.Some? ==>
          && |page.endpoints| == start.limit && page.endpoints != []
          && page.next.value == codec.encode(LastId(page.endpoints))
          && exists id :: Pending(t, q, start.after, id) && t[id] !in page.endpoints)
    && |page.endpoints| <= start.limit
  }

  predicate IdLess(a: Endpoint, b: Endpoint) {
    Less(a.id, b.id)
  }

  lemma IdOrder()
    ensures StrictWeak(IdLess)
  {
    forall x: Endpoint ensures !IdLess(x, x) { LessTrichotomy(x.id, x.id); }
    forall x: Endpoint, y: Endpoint, z: Endpoint | IdLess(x, y) && IdLess(y, z) ensures IdLess(x, z) {
      LessTransitive(x.id, y.id, z.id);
    }
    forall x: Endpoint, y: Endpoint, z: Endpoint | IdLess(x, y) ensures IdLess(x, z) || IdLess(z, y) {
      LessTrichotomy(x.id, z.id);
      if Less(z.id, x.id) { LessTransitive(z.id, x.id, y.id); }
    }
  }

  lemma {:induction false} DistinctCount(s: seq<Endpoint>, e: Endpoint)
    requires forall i, j :: 0 <= i < j < |s| ==> s[i].id != s[j].id
    ensures multiset(s)[e] <= 1
  {
    if s != [] {
      var rest := s[..|s| - 1];
      DistinctCount(rest, e);
      assert s == rest + [s[|s| - 1]];
      if e == s[|s| - 1] {
        assert e !in rest;
      }
    }
  }

  lemma RepeatedCount(s: seq<Endpoint>, i: nat, j: nat)
    requires i < j < |s| && s[i] == s[j]
    ensures multiset(s)[s[i]] >= 2
  {
    assert s == s[..i] + [s[i]] + s[i + 1..j] + [s[j]] + s[j + 1..];
  }

  /** A sorted rearrangement of endpoints with different ids is strictly increasing. */
  lemma SortedIncreasing(found: seq<Endpoint>, sorted: seq<Endpoint>)
    requires Sorted(sorted, IdLess) && multiset(sorted) == multiset(found)
    requires forall i, j :: 0 <= i < j < |found| ==> found[i].id != found[j].id
    ensures Increasing(sorted)
  {
    forall i, j | 0 <= i < j < |sorted| ensures Less(sorted[i].id, sorted[j].id) {
      assert !IdLess(sorted[j], sorted[i]);
      LessTrichotomy(sorted[i].id, sorted[j].id);
      if sorted[i].id == sorted[j].id {
        assert sorted[i] in multiset(found) && sorted[j] in multiset(found);
        assert sorted[i] in found && sorted[j] in found;
        RepeatedCount(sorted, i, j);
        DistinctCount(found, sorted[i]);
      }
    }
  }

  /** Cutting a full page off the pending matches leaves a page, and a cursor when some remain. */
  lemma CutPage(codec: CursorCodec, t: Table, q: Query, start: Start, rest: seq<Endpoint>)
    requires start.limit >= 1 && Increasing(rest)
    requires forall e :: e in rest <==> Pending(t, q, start.after, e.id) && e == t[e.id]
    ensures |rest| <= start.limit ==> IsPage(codec, t, q, start, Page(rest, None))
    ensures |rest| > start.limit ==>
      IsPage(codec, t, q, start, Page(rest[..start.limit], Some(codec.encode(rest[start.limit - 1].id))))
  {
    forall id | Pending(t, q, start.after, id) ensures t[id] in rest { }
    if |rest| > start.limit {
      var page := rest[..start.limit];
      forall k | 0 <= k < start.limit ensures rest[k] in page {
        assert page[k] == rest[k];
      }
      forall id | Pending(t, q, start.after, id) && t[id] !in page ensures Less(LastId(page), id) {
        var k :| 0 <= k < |rest| && rest[k] == t[id];
      }
      var extra := rest[start.limit];
      assert extra !in page by {
        LessTrichotomy(extra.id, extra.id);
      }
      assert Pending(t, q, start.after, extra.id) && t[extra.id] !in page;
    }
  }

  class Memory {
    var endpoints: Table
    const codec: CursorCodec

    constructor (codec: CursorCodec)
      ensures endpoints == map[] && this.codec == codec
    {
      endpoints := map[];
      this.codec := codec;
    }

    method RegisterEndpoint(endpoint: Endpoint) returns (ok: bool)
      modifies this`endpoints
      ensures endpoints == Apply(old(endpoints), Register(endpoint))
      ensures ok == Accepts(old(endpoints), endpoint)
    {
      if !Valid(endpoint) { return false; }
      var e := endpoint;
      if e.state.None? { e := e.(state := Some(Unknown)); }
      if e.id in endpoints && endpoints[e.id].fencing > e.fencing { return false; }
      endpoints := endpoints[e.id := e];
      return true;
    }

    method RemoveEndpoint(id: Id)
      modifies this`endpoints
      ensures endpoints == Apply(old(endpoints), Remove(id))
    {
      endpoints := endpoints - {id};
    }

    /** The matching endpoints, in whatever order the table is traversed, each once. */
    method Collect(accept: Endpoint -> bool) returns (found: seq<Endpoint>)
      ensures forall e :: e in found <==> e.id in endpoints && e == endpoints[e.id] && accept(e)
      ensures forall i, j :: 0 <= i < j < |found| ==> found[i].id != found[j].id
    {
      found := [];
      var left := endpoints.Keys;
      while left != {}
        invariant left <= endpoints.Keys
        invariant forall e :: e in found <==> e.id in endpoints && e == endpoints[e.id] && accept(e) && e.id !in left
        invariant forall i, j :: 0 <= i < j < |found| ==> found[i].id != found[j].id
      {
        var id :| id in left;
        left := left - {id};
        if accept(endpoints[id]) { found := found + [endpoints[id]]; }
      }
    }

    /** The endpoints ready for a target at time `now`, in id order. */
    method ReadyEndpoints(target: bytes, now: int) returns (ready: seq<Endpoint>)
      ensures Increasing(ready)
      ensures forall e :: e in ready <==>
        && e.id in endpoints && e == endpoints[e.id]
        && e.target == target && e.state == Some(Ready) && (e.expires.Some? ==> e.expires.value > now)
    {
      var found := Collect((e: Endpoint) => e.target == target && e.state == Some(Ready) && (e.expires.Some? ==> e.expires.value > now));
      ready := SortById(found);
    }

    method List(q: Query) returns (r: Option<Page>)
      ensures r.Some? <==> Validate(codec, q).Some?
      ensures r.Some? ==> IsPage(codec, endpoints, q, Validate(codec, q).value, r.value)
    {
      var start := Validate(codec, q);
      if start.None? { return None; }
      var found := Collect((e: Endpoint) => Matches(q, e));
      var sorted := SortById(found);
      var index := 0;
      if start.value.after != [] { index := SearchAfter(sorted, start.value.after); }
      var rest := sorted[index..];
      forall k | index <= k < |sorted| ensures sorted[k] in rest {
        assert rest[k - index] == sorted[k];
      }
      CutPage(codec, endpoints, q, start.value, rest);
      if |rest| > start.value.limit {
        return Some(Page(rest[..start.value.limit], Some(codec.encode(rest[start.value.limit - 1].id))));
      }
      return Some(Page(rest, None));
    }
  }

  method SortById(found: seq<Endpoint>) returns (sorted: seq<Endpoint>)
    requires forall i, j :: 0 <= i < j < |found| ==> found[i].id != found[j].id
    ensures Increasing(sorted) && forall e :: e in sorted <==> e in found
  {
    IdOrder();
    sorted := Sort(found, IdLess);
    SortedIncreasing(found, sorted);
    forall e ensures e in sorted <==> e in found {
      assert e in sorted <==> e in multiset(sorted);
      assert e in found <==> e in multiset(found);
    }
  }

  /** `sort.Search`: the first position whose id is after the given one. */
  method SearchAfter(sorted: seq<Endpoint>, after: Id) returns (index: nat)
    requires Increasing(sorted)
    ensures index <= |sorted|
    ensures forall i :: 0 <= i < index ==> !Less(after, sorted[i].id)
    ensures forall i :: index <= i < |sorted| ==> Less(after, sorted[i].id)
  {
    var low, high := 0, |sorted|;
    while low < high
      invariant 0 <= low <= high <= |sorted|
      invariant forall i :: 0 <= i < low ==> !Less(after, sorted[i].id)
      invariant forall i :: high <= i < |sorted| ==> Less(after, sorted[i].id)
    {
      var middle := (low + high) / 2;
      if !Less(after, sorted[middle].id) {
        forall i | 0 <= i < middle ensures !Less(after, sorted[i].id) {
          if Less(after, sorted[i].id) { LessTransitive(after, sorted[i].id, sorted[middle].id); }
        }
        low := middle + 1;
      } else {
        forall i | middle < i < |sorted| ensures Less(after, sorted[i].id) {
          LessTransitive(after, sorted[middle].id, sorted[i].id);
        }
        high := middle;
      }
    }
    index := low;
  }

  // -------------------------------------------------------------------------
  // Walking the pages while the table changes

  /** The endpoints of a run of pages, in the order they were served. */
  function Listed(pages: seq<Page>): seq<Endpoint> {
    if pages == [] then [] else Listed(pages[..|pages| - 1]) + pages[|pages| - 1].endpoints
  }

  predicate Unfinished(pages: seq<Page>) {
    pages != [] ==> pages[|pages| - 1].next.Some?
  }

  /** The query for the page after these: the first has no cursor, the others the last page's. */
  function NextQuery(q: Query, pages: seq<Page>): Query
    requires Unfinished(pages)
  {
    q.(cursor := if pages == [] then [] else pages[|pages| - 1].next.value)
  }

  /** Page k was listed from `tables[k]`; the table may change between two pages. */
  ghost predicate IsWalk(codec: CursorCodec, q: Query, tables: seq<Table>, pages: seq<Page>) {
    && |tables| == |pages|
    && (pages != [] ==>
          var n := |pages| - 1;
          && IsWalk(codec, q, tables[..n], pages[..n])
          && Unfinished(pages[..n])
          && Validate(codec, NextQuery(q, pages[..n])).Some?
          && IsPage(codec, tables[n], q, Validate(codec, NextQuery(q, pages[..n])).value, pages[n]))
  }

  ghost predicate CursorsFit(codec: CursorCodec, pages: seq<Page>) {
    forall k :: 0 <= k < |pages| && pages[k].next.Some? && pages[k].endpoints != [] ==>
      Fits(codec, LastId(pages[k].endpoints))
  }

  /** Registered and matching in every table the walk saw. */
  ghost predicate Steady(q: Query, tables: seq<Table>, id: Id) {
    forall k :: 0 <= k < |tables| ==> id in tables[k] && Matches(q, tables[k][id])
  }

  ghost predicate Has(endpoints: seq<Endpoint>, id: Id) {
    exists e :: e in endpoints && e.id == id
  }

  ghost predicate ListedOnce(endpoints: seq<Endpoint>, id: Id) {
    && Has(endpoints, id)
    && forall i, j :: 0 <= i < j < |endpoints| ==> endpoints[i].id != id || endpoints[j].id != id
  }

  lemma IncreasingConcat(a: seq<Endpoint>, b: seq<Endpoint>)
    requires Increasing(a) && Increasing(b)
    requires a != [] ==> forall e :: e in b ==> Less(LastId(a), e.id)
    ensures Increasing(a + b)
  {
    var s := a + b;
    forall i, j | 0 <= i < j < |s| ensures Less(s[i].id, s[j].id) {
      if i < |a| <= j {
        assert s[j] in b;
        if i < |a| - 1 { LessTransitive(s[i].id, LastId(a), s[j].id); }
      }
    }
  }

  lemma LastPage(codec: CursorCodec, q: Query, tables: seq<Table>, pages: seq<Page>)
    requires IsWalk(codec, q, tables, pages) && Unfinished(pages) && pages != []
    ensures pages[|pages| - 1].endpoints != []
    ensures pages[|pages| - 1].next == Some(codec.encode(LastId(pages[|pages| - 1].endpoints)))
  {
  }

  lemma {:induction false} ListedEnd(pages: seq<Page>)
    requires pages != [] && pages[|pages| - 1].endpoints != []
    ensures Listed(pages) != [] && LastId(Listed(pages)) == LastId(pages[|pages| - 1].endpoints)
  {
    var page := pages[|pages| - 1].endpoints;
    assert Listed(pages) == Listed(pages[..|pages| - 1]) + page;
  }

  lemma {:induction false} HasEither(pages: seq<Page>, id: Id)
    requires pages != [] && (Has(Listed(pages[..|pages| - 1]), id) || Has(pages[|pages| - 1].endpoints, id))
    ensures Has(Listed(pages), id)
  {
    var e :| (e in Listed(pages[..|pages| - 1]) || e in pages[|pages| - 1].endpoints) && e.id == id;
    assert e in Listed(pages);
  }

  /** What a walk has listed ends where its next page starts. */
  lemma StartsAfter(codec: CursorCodec, q: Query, tables: seq<Table>, pages: seq<Page>)
    requires IsWalk(codec, q, tables, pages) && CursorsFit(codec, pages) && Unfinished(pages)
    requires Validate(codec, NextQuery(q, pages)).Some?
    ensures pages == [] ==> Validate(codec, NextQuery(q, pages)).value.after == []
    ensures pages != [] ==>
      && pages[|pages| - 1].endpoints != [] && Listed(pages) != []
      && LastId(Listed(pages)) == LastId(pages[|pages| - 1].endpoints)
      && Validate(codec, NextQuery(q, pages)).value.after == LastId(Listed(pages))
  {
    if pages != [] {
      LastPage(codec, q, tables, pages);
      assert Fits(codec, LastId(pages[|pages| - 1].endpoints));
      ListedEnd(pages);
    }
  }

  /** No walk lists an id twice, however the table changes: ids only ever increase. */
  lemma {:induction false} WalkIncreases(codec: CursorCodec, q: Query, tables: seq<Table>, pages: seq<Page>)
    requires IsWalk(codec, q, tables, pages) && CursorsFit(codec, pages)
    ensures Increasing(Listed(pages))
  {
    if pages != [] {
      var n := |pages| - 1;
      WalkIncreases(codec, q, tables[..n], pages[..n]);
      StartsAfter(codec, q, tables[..n], pages[..n]);
      IncreasingConcat(Listed(pages[..n]), pages[n].endpoints);
    }
  }

  /** An id that matches throughout is listed by the time the walk has passed it. */
  lemma {:induction false} SteadyIsReached(codec: CursorCodec, q: Query, tables: seq<Table>, pages: seq<Page>, id: Id)
    requires IsWalk(codec, q, tables, pages) && CursorsFit(codec, pages) && Steady(q, tables, id) && pages != []
    ensures Has(Listed(pages), id) ||
      (pages[|pages| - 1].next.Some? && pages[|pages| - 1].endpoints != [] && Less(LastId(pages[|pages| - 1].endpoints), id))
  {
    var n := |pages| - 1;
    StartsAfter(codec, q, tables[..n], pages[..n]);
    if n > 0 {
      SteadyIsReached(codec, q, tables[..n], pages[..n], id);
    }
    if Has(Listed(pages[..n]), id) || Has(pages[n].endpoints, id) {
      HasEither(pages, id);
    } else {
      assert id in tables[n] && Matches(q, tables[n][id]);
      assert Pending(tables[n], q, Validate(codec, NextQuery(q, pages[..n])).value.after, id);
    }
  }

  /** A finished walk lists every id that matched throughout, exactly once. */
  lemma FinishedWalkIsComplete(codec: CursorCodec, q: Query, tables: seq<Table>, pages: seq<Page>, id: Id)
    requires IsWalk(codec, q, tables, pages) && CursorsFit(codec, pages) && Steady(q, tables, id)
    requires !Unfinished(pages)
    ensures ListedOnce(Listed(pages), id)
  {
    SteadyIsReached(codec, q, tables, pages, id);
    WalkIncreases(codec, q, tables, pages);
    LessTrichotomy(id, id);
  }

  /** Everything listed was registered and matching when its page was served. */
  lemma {:induction false} ListedWasThere(codec: CursorCodec, q: Query, tables: seq<Table>, pages: seq<Page>, e: Endpoint)
    requires IsWalk(codec, q, tables, pages) && e in Listed(pages)
    ensures exists k :: 0 <= k < |tables| && e.id in tables[k] && tables[k][e.id] == e && Matches(q, e)
  {
    var n := |pages| - 1;
    if e in pages[n].endpoints {
      assert e.id in tables[n];
    } else {
      ListedWasThere(codec, q, tables[..n], pages[..n], e);
      var k :| 0 <= k < n && e.id in tables[..n][k] && tables[..n][k][e.id] == e && Matches(q, e);
      assert e.id in tables[k];
    }
  }

  lemma {:induction false} DistinctBounded(s: seq<Endpoint>, ids: set<Id>)
    requires Increasing(s) && forall e :: e in s ==> e.id in ids
    ensures |s| <= |ids|
  {
    if s != [] {
      var last := s[|s| - 1];
      forall e | e in s[..|s| - 1] ensures e.id in ids - {last.id} {
        LessTrichotomy(last.id, last.id);
      }
      DistinctBounded(s[..|s| - 1], ids - {last.id});
    }
  }

  /** Every page but the last of a walk is full. */
  lemma {:induction false} FullPages(codec: CursorCodec, q: Query, tables: seq<Table>, pages: seq<Page>)
    requires IsWalk(codec, q, tables, pages) && pages != []
    ensures Validate(codec, q.(cursor := [])).Some?
    ensures |Listed(pages)| ==
      (|pages| - 1) * Validate(codec, q.(cursor := [])).value.limit + |pages[|pages| - 1].endpoints|
  {
    var n := |pages| - 1;
    if n > 0 {
      FullPages(codec, q, tables[..n], pages[..n]);
      var limit := Validate(codec, q.(cursor := [])).value.limit;
      assert |pages[n - 1].endpoints| == limit by {
        assert pages[..n][n - 1].next.Some?;
      }
      assert pages[..n][n - 1] == pages[n - 1];
      assert (n - 1) * limit + limit == n * limit;
    }
  }

  /** On a table that does not change, a finished walk lists exactly the matches, in id order, in as few pages as they fill. */
  lemma UnchangedWalk(codec: CursorCodec, q: Query, t: Table, pages: seq<Page>)
    requires IsWalk(codec, q, seq(|pages|, _ => t), pages) && CursorsFit(codec, pages) && pages != []
    ensures Increasing(Listed(pages))
    ensures !Unfinished(pages) ==> forall e :: e in Listed(pages) <==> e.id in t && e == t[e.id] && Matches(q, e)
    ensures Validate(codec, q.(cursor := [])).Some?
    ensures (|pages| - 1) * Validate(codec, q.(cursor := [])).value.limit <= |t|
  {
    var tables := seq(|pages|, _ => t);
    WalkIncreases(codec, q, tables, pages);
    forall e | e in Listed(pages) ensures e.id in t && e == t[e.id] && Matches(q, e) {
      ListedWasThere(codec, q, tables, pages, e);
    }
    DistinctBounded(Listed(pages), t.Keys);
    FullPages(codec, q, tables, pages);
    if !Unfinished(pages) {
      forall e: Endpoint | e.id in t && e == t[e.id] && Matches(q, e) ensures e in Listed(pages) {
        SteadyIsReached(codec, q, tables, pages, e.id);
        var f :| f in Listed(pages) && f.id == e.id;
      }
    }
  }

  /** An unfinished walk can go on if and only if its last page ends with an id whose cursor decodes. */
  lemma WalkGoesOn(codec: CursorCodec, q: Query, tables: seq<Table>, pages: seq<Page>)
    requires IsWalk(codec, q, tables, pages) && pages != [] && Unfinished(pages)
    requires codec.encode(LastId(pages[|pages| - 1].endpoints)) != []
    ensures Validate(codec, NextQuery(q, pages)).Some? <==>
      DecodeCursor(codec, codec.encode(LastId(pages[|pages| - 1].endpoints))).Some?
  {
    FullPages(codec, q, tables, pages);
  }
}
