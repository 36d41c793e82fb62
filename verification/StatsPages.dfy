/** Cursor pagination over rolled-up intervals, with a horizon frozen by the first page. */
module StatsPages {
  import opened Prelude
  import opened StatsBuckets
  import opened StatsCalendar

  // ------------------------------------------------- pages over any ordered keys

  datatype Page<K> = Page(items: seq<K>, more: bool)

  type Order<!K> = (K, K) -> bool

  ghost predicate StrictTotal<K(!new)>(lt: Order<K>) {
    && (forall a :: !lt(a, a))
    && (forall a, b :: lt(a, b) || a == b || lt(b, a))
    && (forall a, b, c :: lt(a, b) && lt(b, c) ==> lt(a, c))
  }

  ghost predicate Increasing<K>(lt: Order<K>, items: seq<K>) {
    forall i, j | 0 <= i < j < |items| :: lt(items[i], items[j])
  }

  /** What is left to serve: kept keys strictly beyond the last one served. */
  ghost predicate Candidate<K>(lt: Order<K>, keep: K -> bool, snapshot: set<K>, after: Option<K>, x: K) {
    x in snapshot && keep(x) && (after.None? || lt(after.value, x))
  }

  /** The first `limit` candidates in order, and whether any remain. */
  ghost predicate IsPage<K(!new)>(
    lt: Order<K>, keep: K -> bool, snapshot: set<K>, after: Option<K>, limit: nat, page: Page<K>)
  {
    && Increasing(lt, page.items)
    && |page.items| <= limit
    && (forall i | 0 <= i < |page.items| :: Candidate(lt, keep, snapshot, after, page.items[i]))
    && (page.more ==> |page.items| == limit && limit > 0)
    && (forall x | Candidate(lt, keep, snapshot, after, x) ::
          x in page.items || (page.more && lt(page.items[|page.items| - 1], x)))
    && (page.more ==> exists x :: Candidate(lt, keep, snapshot, after, x) && x !in page.items)
  }

  function After<K>(page: Page<K>): Option<K> {
    if page.items == [] then None else Some(page.items[|page.items| - 1])
  }

  function Seen<K>(pages: seq<Page<K>>): seq<K> {
    if pages == [] then [] else Seen(pages[..|pages| - 1]) + pages[|pages| - 1].items
  }

  /** Page `i` continues where page `i - 1` ended. */
  ghost predicate PageAt<K(!new)>(
    lt: Order<K>, keep: K -> bool, snapshot: set<K>, limit: nat, pages: seq<Page<K>>, i: nat)
    requires i < |pages|
  {
    IsPage(lt, keep, snapshot, if i == 0 then None else After(pages[i - 1]), limit, pages[i])
  }

  /** A client following cursors while keys may be added, but not removed, between pages. */
  ghost predicate Walk<K(!new)>(
    lt: Order<K>, keep: K -> bool, snapshots: seq<set<K>>, limits: seq<nat>, pages: seq<Page<K>>)
  {
    && 0 < |pages| == |snapshots| == |limits|
    && (forall i, j | 0 <= i < j < |snapshots| :: snapshots[i] <= snapshots[j])
    && (forall i | 0 <= i < |limits| :: limits[i] >= 1)
    && (forall i | 0 <= i < |pages| :: PageAt(lt, keep, snapshots[i], limits[i], pages, i))
    && (forall i | 0 <= i < |pages| - 1 :: pages[i].more)
  }

  lemma WalkPrefix<K(!new)>(
    lt: Order<K>, keep: K -> bool, snapshots: seq<set<K>>, limits: seq<nat>, pages: seq<Page<K>>)
    requires Walk(lt, keep, snapshots, limits, pages) && |pages| > 1
    ensures Walk(lt, keep, snapshots[..|pages| - 1], limits[..|pages| - 1], pages[..|pages| - 1])
  {
    var n := |pages| - 1;
    forall i | 0 <= i < n ensures PageAt(lt, keep, snapshots[..n][i], limits[..n][i], pages[..n], i) {
      assert PageAt(lt, keep, snapshots[i], limits[i], pages, i);
    }
  }

  /** In order, ending at the cursor, and owing only keys beyond it. */
  ghost predicate Progressed<K(!new)>(
    lt: Order<K>, keep: K -> bool, first: set<K>, latest: set<K>, seen: seq<K>, last: Page<K>, count: nat)
  {
    && Increasing(lt, seen)
    && (forall i | 0 <= i < |seen| :: seen[i] in latest && keep(seen[i]))
    && (last.more ==> seen != [] && last.items != [] && seen[|seen| - 1] == last.items[|last.items| - 1])
    && (forall x | x in first && keep(x) :: x in seen || (last.more && lt(seen[|seen| - 1], x)))
    && |seen| + 1 >= count + (if last.more then 1 else 0)
  }

  /** The walk so far. */
  ghost predicate Progress<K(!new)>(lt: Order<K>, keep: K -> bool, snapshots: seq<set<K>>, pages: seq<Page<K>>)
    requires 0 < |pages| == |snapshots|
  {
    Progressed(lt, keep, snapshots[0], snapshots[|pages| - 1], Seen(pages), pages[|pages| - 1], |pages|)
  }

  lemma OnePageProgress<K(!new)>(lt: Order<K>, keep: K -> bool, snapshot: set<K>, limit: nat, page: Page<K>)
    requires IsPage(lt, keep, snapshot, None, limit, page) && limit >= 1
    ensures Progressed(lt, keep, snapshot, snapshot, page.items, page, 1)
  {
    forall x | x in snapshot && keep(x) ensures x in page.items || (page.more && lt(page.items[|page.items| - 1], x)) {
      assert Candidate(lt, keep, snapshot, None, x);
    }
    forall i | 0 <= i < |page.items| ensures page.items[i] in snapshot && keep(page.items[i]) {
      assert Candidate(lt, keep, snapshot, None, page.items[i]);
    }
  }

  lemma FirstPageProgress<K(!new)>(
    lt: Order<K>, keep: K -> bool, snapshots: seq<set<K>>, limits: seq<nat>, pages: seq<Page<K>>)
    requires Walk(lt, keep, snapshots, limits, pages) && |pages| == 1
    ensures Progress(lt, keep, snapshots, pages)
  {
    assert PageAt(lt, keep, snapshots[0], limits[0], pages, 0);
    OnePageProgress(lt, keep, snapshots[0], limits[0], pages[0]);
    assert pages[..0] == [] && Seen(pages) == pages[0].items;
  }

  lemma NextPageProgress<K(!new)>(
    lt: Order<K>, keep: K -> bool, snapshots: seq<set<K>>, limits: seq<nat>, pages: seq<Page<K>>)
    requires StrictTotal(lt) && Walk(lt, keep, snapshots, limits, pages) && |pages| > 1
    requires Progress(lt, keep, snapshots[..|pages| - 1], pages[..|pages| - 1])
    ensures Progress(lt, keep, snapshots, pages)
  {
    var n := |pages| - 1;
    var before, page := Seen(pages[..n]), pages[n];
    var seen := before + page.items;
    var after := before[|before| - 1];
    assert pages[n - 1].more;
    assert PageAt(lt, keep, snapshots[n], limits[n], pages, n);
    forall i, j | 0 <= i < j < |seen| ensures lt(seen[i], seen[j]) {
      if i < |before| <= j {
        assert Candidate(lt, keep, snapshots[n], Some(after), page.items[j - |before|]);
        if i < |before| - 1 { assert lt(before[i], after); }
      }
    }
    forall i | 0 <= i < |seen| ensures seen[i] in snapshots[n] && keep(seen[i]) {
      if i < |before| {
        assert before[i] in snapshots[..n][n - 1] && snapshots[n - 1] <= snapshots[n];
      } else {
        assert Candidate(lt, keep, snapshots[n], Some(after), page.items[i - |before|]);
      }
    }
    forall x | x in snapshots[0] && keep(x)
      ensures x in seen || (page.more && lt(seen[|seen| - 1], x))
    {
      assert x in snapshots[..n][0];
      if x !in before {
        assert snapshots[0] <= snapshots[n];
        assert Candidate(lt, keep, snapshots[n], Some(after), x);
      }
    }
  }

  lemma {:induction false} WalkProgress<K(!new)>(
    lt: Order<K>, keep: K -> bool, snapshots: seq<set<K>>, limits: seq<nat>, pages: seq<Page<K>>)
    requires StrictTotal(lt) && Walk(lt, keep, snapshots, limits, pages)
    ensures Progress(lt, keep, snapshots, pages)
    decreases |pages|
  {
    if |pages| == 1 {
      FirstPageProgress(lt, keep, snapshots, limits, pages);
    } else {
      var n := |pages| - 1;
      WalkPrefix(lt, keep, snapshots, limits, pages);
      WalkProgress(lt, keep, snapshots[..n], limits[..n], pages[..n]);
      NextPageProgress(lt, keep, snapshots, limits, pages);
    }
  }

  /**
   Following cursors serves strictly ordered keys without repeats; once the last page says
   there is no more, every kept key of the first snapshot has been served; and the number of
   pages is bounded by the number of keys, so the walk ends.
   */
  lemma WalkServesEverythingOnce<K(!new)>(
    lt: Order<K>, keep: K -> bool, snapshots: seq<set<K>>, limits: seq<nat>, pages: seq<Page<K>>)
    requires StrictTotal(lt) && Walk(lt, keep, snapshots, limits, pages)
    ensures Increasing(lt, Seen(pages))
    ensures forall i | 0 <= i < |Seen(pages)| :: Seen(pages)[i] in snapshots[|pages| - 1] && keep(Seen(pages)[i])
    ensures !pages[|pages| - 1].more ==> forall x | x in snapshots[0] && keep(x) :: x in Seen(pages)
    ensures |pages| <= |snapshots[|pages| - 1]| + 1
  {
    WalkProgress(lt, keep, snapshots, limits, pages);
    var seen := Seen(pages);
    forall i, j | 0 <= i < j < |seen| ensures seen[i] != seen[j] { assert lt(seen[i], seen[j]); }
    NoDuplicatesFit(seen, snapshots[|pages| - 1]);
  }

  // --------------------------------------------------------------- the query

  datatype Direction = Backwards | Forwards

  /** A parsed query; the page limit travels separately because a client may change it. */
  datatype Query<K> = Query(unit: Unit, direction: Direction, start: Option<K>, end: Option<K>)

  datatype Cursor<K> = Cursor(
    version: nat, appId: string, unit: Unit, direction: Direction,
    start: Option<K>, end: Option<K>, horizon: K, after: K)

  const CURSOR_VERSION: nat := 1

  function ParseLimit(limit: Option<nat>): (r: nat)
    ensures 1 <= r <= 1000
    ensures limit.Some? && 1 <= limit.value <= 1000 ==> r == limit.value
    ensures limit.None? ==> r == 100
  {
    match limit
    case None => 100
    case Some(n) => if n < 1 then 1 else if n > 1000 then 1000 else n
  }

  /** Intervals oldest first, or newest first. */
  function ByTime<K>(lt: Order<K>, d: Direction): Order<K> {
    match d
    case Forwards => lt
    case Backwards => (a: K, b: K) => lt(b, a)
  }

  predicate WithinQuery<K(==)>(lt: Order<K>, q: Query<K>, id: K) {
    && (q.start.None? || q.start.value == id || lt(q.start.value, id))
    && (q.end.None? || id == q.end.value || lt(id, q.end.value))
  }

  /** Inside the bounds and not beyond the horizon (`nil`, the empty string, means no horizon). */
  function Kept<K(==)>(lt: Order<K>, nil: K, q: Query<K>, horizon: K): K -> bool {
    (id: K) => WithinQuery(lt, q, id) && (horizon == nil || id == horizon || lt(id, horizon))
  }

  predicate CursorMatches<K(==)>(c: Cursor<K>, appId: string, q: Query<K>) {
    c.version == CURSOR_VERSION && c.appId == appId && c.unit == q.unit && c.direction == q.direction &&
    c.start == q.start && c.end == q.end
  }

  /** A cursor belongs to one query of one application, and to none else. */
  lemma CursorBelongs<K>(c: Cursor<K>, appId: string, q: Query<K>, appId': string, q': Query<K>)
    requires CursorMatches(c, appId, q)
    ensures c.version == 1
    ensures CursorMatches(c, appId', q') <==> appId' == appId && q' == q
  {}

  datatype StatsPage<K> = StatsPage(items: seq<(K, Entries)>, next: Option<Cursor<K>>)

  function IdsOf<K>(items: seq<(K, Entries)>): seq<K> {
    seq(|items|, i requires 0 <= i < |items| => items[i].0)
  }

  function AfterOf<K>(cursor: Option<Cursor<K>>): Option<K> {
    match cursor
    case Some(c) => Some(c.after)
    case None => None
  }

  /** What a served page promises: the right ids with their stored buckets, and a faithful cursor. */
  ghost predicate Serves<K(!new)>(
    lt: Order<K>, nil: K, appId: string, rollups: map<K, Entries>, q: Query<K>, limit: nat, horizon: K,
    after: Option<K>, page: StatsPage<K>)
  {
    var ids := IdsOf(page.items);
    && (forall i | 0 <= i < |page.items| :: ids[i] in rollups && page.items[i].1 == rollups[ids[i]])
    && IsPage(ByTime(lt, q.direction), Kept(lt, nil, q, horizon),
         rollups.Keys, after, limit, Page(ids, page.next.Some?))
    && (page.next.Some? ==>
          && CursorMatches(page.next.value, appId, q)
          && page.next.value.horizon == horizon
          && Some(page.next.value.after) == After(Page(ids, true)))
  }

  /** Truncates the ordered candidates and names the rest by a cursor. */
  function MakePage<K(==)>(
    appId: string, rollups: map<K, Entries>, q: Query<K>, limit: nat, horizon: K, kept: seq<K>): StatsPage<K>
    requires limit >= 1 && forall i | 0 <= i < |kept| :: kept[i] in rollups
  {
    var page := if |kept| > limit then kept[..limit] else kept;
    StatsPage(
      seq(|page|, i requires 0 <= i < |page| && page[i] in rollups => (page[i], rollups[page[i]])),
      if |kept| > limit
      then Some(Cursor(CURSOR_VERSION, appId, q.unit, q.direction, q.start, q.end, horizon, page[|page| - 1]))
      else None)
  }

  lemma MakePageServes<K(!new)>(
    lt: Order<K>, nil: K, appId: string, rollups: map<K, Entries>, q: Query<K>, limit: nat, horizon: K,
    after: Option<K>, kept: seq<K>)
    requires limit >= 1 && StrictTotal(lt) && Increasing(ByTime(lt, q.direction), kept)
    requires forall x :: x in kept <==>
               Candidate(ByTime(lt, q.direction), Kept(lt, nil, q, horizon), rollups.Keys, after, x)
    ensures forall i | 0 <= i < |kept| :: kept[i] in rollups
    ensures Serves(lt, nil, appId, rollups, q, limit, horizon, after, MakePage(appId, rollups, q, limit, horizon, kept))
  {
    forall i | 0 <= i < |kept| ensures kept[i] in rollups { assert kept[i] in kept; }
    var made := MakePage(appId, rollups, q, limit, horizon, kept);
    DirectionIsTotal(lt, q.direction);
    TruncateIsPage(ByTime(lt, q.direction), Kept(lt, nil, q, horizon), rollups.Keys, after, limit, kept);
    assert IdsOf(made.items) == if |kept| > limit then kept[..limit] else kept;
  }

  lemma TruncateIsPage<K(!new)>(
    lt: Order<K>, keep: K -> bool, snapshot: set<K>, after: Option<K>, limit: nat, kept: seq<K>)
    requires limit >= 1 && Increasing(lt, kept) && StrictTotal(lt)
    requires forall x :: x in kept <==> Candidate(lt, keep, snapshot, after, x)
    ensures IsPage(lt, keep, snapshot, after, limit,
                   Page(if |kept| > limit then kept[..limit] else kept, |kept| > limit))
  {
    var more := |kept| > limit;
    var items := if more then kept[..limit] else kept;
    forall i | 0 <= i < |items| ensures Candidate(lt, keep, snapshot, after, items[i]) {
      assert items[i] == kept[i] && kept[i] in kept;
    }
    forall x | Candidate(lt, keep, snapshot, after, x)
      ensures x in items || (more && lt(items[|items| - 1], x))
    {
      var k :| 0 <= k < |kept| && kept[k] == x;
      if k < |items| { assert items[k] == x; } else { assert lt(kept[limit - 1], kept[k]); }
    }
    if more {
      var x := kept[limit];
      assert x in kept;
      forall i | 0 <= i < |items| ensures items[i] != x { assert lt(kept[i], kept[limit]); }
    }
  }

  lemma DirectionIsTotal<K(!new)>(lt: Order<K>, d: Direction)
    requires StrictTotal(lt)
    ensures StrictTotal(ByTime(lt, d))
  {}

  // -------------------------------------------------- the query over interval ids

  function TimeOrder(): Order<string> {
    (a: string, b: string) => StrLt(a, b)
  }

  lemma TimeOrderIsTotal()
    ensures StrictTotal(TimeOrder())
  {
    StrOrder();
  }

  /** The newest interval known when the first page was served. */
  function Horizon(ids: set<string>, cursor: Option<Cursor<string>>): string {
    match cursor
    case Some(c) => c.horizon
    case None =>
      var sorted := SortedKeys(ids);
      if sorted == [] then "" else sorted[|sorted| - 1]
  }

  /**
   One page of a query: filter by bounds and horizon, order by direction, drop what the
   cursor already served, cut to the limit. A cursor for a different query is refused.
   */
  method QueryPage(
    appId: string, rollups: map<string, Entries>, q: Query<string>, limit: nat, cursor: Option<Cursor<string>>)
    returns (r: Option<StatsPage<string>>)
    requires limit >= 1
    ensures r.None? <==> cursor.Some? && !CursorMatches(cursor.value, appId, q)
    ensures r.Some? ==>
              Serves(TimeOrder(), "", appId, rollups, q, limit, Horizon(rollups.Keys, cursor), AfterOf(cursor), r.value)
  {
    if cursor.Some? && !CursorMatches(cursor.value, appId, q) {
      return None;
    }
    var horizon := Horizon(rollups.Keys, cursor);
    var kept := CandidatesInOrder(rollups.Keys, q, horizon, AfterOf(cursor));
    TimeOrderIsTotal();
    MakePageServes(TimeOrder(), "", appId, rollups, q, limit, horizon, AfterOf(cursor), kept);
    r := Some(MakePage(appId, rollups, q, limit, horizon, kept));
  }

  /** Filter, reverse if needed, then drop everything up to the cursor. */
  method CandidatesInOrder(ids: set<string>, q: Query<string>, horizon: string, after: Option<string>)
    returns (kept: seq<string>)
    ensures Increasing(ByTime(TimeOrder(), q.direction), kept)
    ensures forall x :: x in kept <==>
              Candidate(ByTime(TimeOrder(), q.direction), Kept(TimeOrder(), "", q, horizon), ids, after, x)
  {
    var sorted := SortedKeys(ids);
    kept := Retain(sorted, Kept(TimeOrder(), "", q, horizon), TimeOrder());
    if q.direction == Backwards {
      ReverseOrder(TimeOrder(), kept);
      kept := Reverse(kept);
    }
    if after.Some? {
      var lt := ByTime(TimeOrder(), q.direction);
      kept := Retain(kept, (x: string) => lt(after.value, x), lt);
    }
  }

  method Retain<K(==)>(xs: seq<K>, p: K -> bool, ghost lt: Order<K>) returns (ys: seq<K>)
    requires Increasing(lt, xs)
    ensures Increasing(lt, ys)
    ensures forall y :: y in ys <==> y in xs && p(y)
  {
    ys := [];
    for i := 0 to |xs|
      invariant Increasing(lt, ys)
      invariant forall y :: y in ys <==> y in xs[..i] && p(y)
    {
      assert xs[..i + 1] == xs[..i] + [xs[i]];
      if p(xs[i]) {
        forall a | 0 <= a < |ys| ensures lt(ys[a], xs[i]) {
          assert ys[a] in xs[..i];
        }
        ys := ys + [xs[i]];
      }
    }
    assert xs[..|xs|] == xs;
  }

  function Reverse<K>(xs: seq<K>): seq<K> {
    seq(|xs|, i requires 0 <= i < |xs| => xs[|xs| - 1 - i])
  }

  lemma ReverseOrder<K>(lt: Order<K>, xs: seq<K>)
    requires Increasing(lt, xs)
    ensures Increasing(ByTime(lt, Backwards), Reverse(xs))
    ensures forall x :: x in Reverse(xs) <==> x in xs
  {
    var ys := Reverse(xs);
    forall x | x in xs ensures x in ys {
      var i :| 0 <= i < |xs| && xs[i] == x;
      assert ys[|xs| - 1 - i] == x;
    }
    forall i, j | 0 <= i < j < |ys| ensures ByTime(lt, Backwards)(ys[i], ys[j]) {
      assert lt(xs[|xs| - 1 - j], xs[|xs| - 1 - i]);
    }
  }

  // ---------------------------------------------------------- main theorem

  /** The horizon in force for page `i`: the first page's, then whatever the cursor carries. */
  ghost function HorizonAt<K>(first: K, served: seq<StatsPage<K>>, i: nat): K
    requires i <= |served|
  {
    if i > 0 && served[i - 1].next.Some? then served[i - 1].next.value.horizon else first
  }

  ghost predicate ServesAt<K(!new)>(
    lt: Order<K>, nil: K, appId: string, q: Query<K>, first: K, rollups: map<K, Entries>, limit: nat,
    served: seq<StatsPage<K>>, i: nat)
    requires i < |served|
  {
    Serves(lt, nil, appId, rollups, q, limit, HorizonAt(first, served, i),
           if i == 0 then None else AfterOf(served[i - 1].next), served[i])
  }

  ghost predicate Newest<K>(lt: Order<K>, ids: set<K>, nil: K, h: K) {
    if ids == {} then h == nil else h in ids && forall x | x in ids :: x == h || lt(x, h)
  }

  /** The same query followed cursor by cursor; only the page limit may change on the way. */
  ghost predicate ClientWalk<K(!new)>(
    lt: Order<K>, nil: K, appId: string, q: Query<K>, first: K,
    rollups: seq<map<K, Entries>>, limits: seq<nat>, served: seq<StatsPage<K>>)
  {
    && 0 < |served| == |rollups| == |limits|
    && nil !in rollups[0] && Newest(lt, rollups[0].Keys, nil, first)
    && (forall i, j | 0 <= i < j < |rollups| :: rollups[i].Keys <= rollups[j].Keys)
    && (forall i | 0 <= i < |limits| :: limits[i] >= 1)
    && (forall i | 0 <= i < |served| - 1 :: served[i].next.Some?)
    && (forall i | 0 <= i < |served| :: ServesAt(lt, nil, appId, q, first, rollups[i], limits[i], served, i))
  }

  ghost function PagesOf<K>(served: seq<StatsPage<K>>): seq<Page<K>> {
    seq(|served|, i requires 0 <= i < |served| => Page(IdsOf(served[i].items), served[i].next.Some?))
  }

  lemma {:induction false} HorizonIsFrozen<K(!new)>(
    lt: Order<K>, nil: K, appId: string, q: Query<K>, first: K,
    rollups: seq<map<K, Entries>>, limits: seq<nat>, served: seq<StatsPage<K>>, i: nat)
    requires ClientWalk(lt, nil, appId, q, first, rollups, limits, served) && i < |served|
    ensures HorizonAt(first, served, i) == first
  {
    if i > 0 {
      HorizonIsFrozen(lt, nil, appId, q, first, rollups, limits, served, i - 1);
      assert ServesAt(lt, nil, appId, q, first, rollups[i - 1], limits[i - 1], served, i - 1);
    }
  }

  lemma ClientWalkIsWalk<K(!new)>(
    lt: Order<K>, nil: K, appId: string, q: Query<K>, first: K,
    rollups: seq<map<K, Entries>>, limits: seq<nat>, served: seq<StatsPage<K>>, snapshots: seq<set<K>>)
    requires ClientWalk(lt, nil, appId, q, first, rollups, limits, served)
    requires |snapshots| == |rollups| && forall i | 0 <= i < |rollups| :: snapshots[i] == rollups[i].Keys
    ensures Walk(ByTime(lt, q.direction), Kept(lt, nil, q, first), snapshots, limits, PagesOf(served))
  {
    var pages := PagesOf(served);
    forall i | 0 <= i < |pages|
      ensures PageAt(ByTime(lt, q.direction), Kept(lt, nil, q, first), snapshots[i], limits[i], pages, i)
    {
      assert ServesAt(lt, nil, appId, q, first, rollups[i], limits[i], served, i);
      HorizonIsFrozen(lt, nil, appId, q, first, rollups, limits, served, i);
      if i > 0 {
        assert ServesAt(lt, nil, appId, q, first, rollups[i - 1], limits[i - 1], served, i - 1);
        assert AfterOf(served[i - 1].next) == After(pages[i - 1]);
      }
    }
  }

  /**
   Following `next` from a first page while intervals are added but none removed: ids come
   strictly in the chosen direction, never beyond the newest interval of the first page; when
   no cursor is left, every interval of the first page's store inside the bounds was served
   exactly once; and there are at most as many pages as intervals, plus one.
   */
  lemma ClientSeesEverythingOnce<K(!new)>(
    lt: Order<K>, nil: K, appId: string, q: Query<K>, first: K,
    rollups: seq<map<K, Entries>>, limits: seq<nat>, served: seq<StatsPage<K>>)
    requires StrictTotal(lt) && ClientWalk(lt, nil, appId, q, first, rollups, limits, served)
    ensures
      var ids, last := Seen(PagesOf(served)), |served| - 1;
      && Increasing(ByTime(lt, q.direction), ids)
      && (forall x | x in ids ::
            x in rollups[last] && WithinQuery(lt, q, x) && exists y :: y in rollups[0] && (x == y || lt(x, y)))
      && (served[last].next.None? ==> forall x | x in rollups[0] && WithinQuery(lt, q, x) :: x in ids)
      && |served| <= |rollups[last]| + 1
  {
    var last, ids := |served| - 1, Seen(PagesOf(served));
    ClientWalkIsWalk(lt, nil, appId, q, first, rollups, limits, served, KeySets(rollups));
    DirectionIsTotal(lt, q.direction);
    WalkInTerms(ByTime(lt, q.direction), Kept(lt, nil, q, first), KeySets(rollups), limits, PagesOf(served));
    EndsOf(rollups, served);
    StartOfWalk(lt, nil, appId, q, first, rollups, limits, served);
    WalkInBounds(lt, nil, q, first, rollups[0], rollups[last], served[last].next.None?, ids);
  }

  /** What a walk has shown: ids in order, all kept, and once finished all those there at first. */
  ghost predicate Shows<K>(lt: Order<K>, keep: K -> bool, first: set<K>, last: set<K>, finished: bool, ids: seq<K>) {
    && Increasing(lt, ids)
    && (forall x | x in ids :: x in last && keep(x))
    && (finished ==> forall x | x in first && keep(x) :: x in ids)
  }

  /** `first` is the newest of the ids there at first; if there are none, nothing is ever shown. */
  ghost predicate StartsAt<K>(lt: Order<K>, nil: K, first: K, before: set<K>, ids: seq<K>) {
    nil !in before && Newest(lt, before, nil, first) && (before == {} ==> ids == [])
  }

  lemma StartOfWalk<K(!new)>(
    lt: Order<K>, nil: K, appId: string, q: Query<K>, first: K,
    rollups: seq<map<K, Entries>>, limits: seq<nat>, served: seq<StatsPage<K>>)
    requires ClientWalk(lt, nil, appId, q, first, rollups, limits, served)
    ensures StartsAt(lt, nil, first, rollups[0].Keys, Seen(PagesOf(served)))
  {
    if rollups[0].Keys == {} { NothingToSee(lt, nil, appId, q, first, rollups, limits, served); }
  }

  lemma EndsOf<K>(rollups: seq<map<K, Entries>>, served: seq<StatsPage<K>>)
    requires 0 < |served| == |rollups|
    ensures
      var sets, pages, last := KeySets(rollups), PagesOf(served), |served| - 1;
      && |sets| == |pages| == |served| && sets[0] == rollups[0].Keys && sets[last] == rollups[last].Keys
      && |sets[last]| == |rollups[last]| && pages[last].more == served[last].next.Some?
  {
    assert |rollups[|served| - 1].Keys| == |rollups[|served| - 1]|;
  }

  /** The ids shown are inside the bounds and no later than the newest at first; once finished, all of those. */
  ghost predicate InBounds<K>(
    lt: Order<K>, q: Query<K>, before: map<K, Entries>, after: map<K, Entries>, finished: bool, ids: seq<K>)
  {
    && (forall x | x in ids :: x in after && WithinQuery(lt, q, x) && exists y :: y in before && (x == y || lt(x, y)))
    && (finished ==> forall x | x in before && WithinQuery(lt, q, x) :: x in ids)
  }

  lemma WalkInBounds<K(!new)>(
    lt: Order<K>, nil: K, q: Query<K>, first: K, before: map<K, Entries>, after: map<K, Entries>, finished: bool,
    ids: seq<K>)
    ensures Shows(ByTime(lt, q.direction), Kept(lt, nil, q, first), before.Keys, after.Keys, finished, ids) &&
            StartsAt(lt, nil, first, before.Keys, ids) ==>
              InBounds(lt, q, before, after, finished, ids)
  {
    if Shows(ByTime(lt, q.direction), Kept(lt, nil, q, first), before.Keys, after.Keys, finished, ids) &&
       StartsAt(lt, nil, first, before.Keys, ids)
    {
      forall x | x in ids
        ensures x in after && WithinQuery(lt, q, x) && exists y :: y in before && (x == y || lt(x, y))
      {
        assert Kept(lt, nil, q, first)(x) && first in before && first != nil;
      }
      forall x | x in before && WithinQuery(lt, q, x) ensures finished ==> x in ids {
        FirstPageIsWithinHorizon(lt, nil, q, first, before.Keys, x);
      }
    }
  }

  lemma PageIsStored<K(!new)>(
    lt: Order<K>, keep: K -> bool, snapshot: set<K>, after: Option<K>, limit: nat, page: Page<K>)
    requires IsPage(lt, keep, snapshot, after, limit, page)
    ensures forall x | x in page.items :: x in snapshot
  {}

  /** A query that finds nothing at first is over after one empty page. */
  lemma NothingToSee<K(!new)>(
    lt: Order<K>, nil: K, appId: string, q: Query<K>, first: K,
    rollups: seq<map<K, Entries>>, limits: seq<nat>, served: seq<StatsPage<K>>)
    requires ClientWalk(lt, nil, appId, q, first, rollups, limits, served) && rollups[0].Keys == {}
    ensures Seen(PagesOf(served)) == []
  {
    assert ServesAt(lt, nil, appId, q, first, rollups[0], limits[0], served, 0);
    var ids := IdsOf(served[0].items);
    var order, keep := ByTime(lt, q.direction), Kept(lt, nil, q, first);
    PageIsStored(order, keep, rollups[0].Keys, None, limits[0], PagesOf(served)[0]);
    NothingIn(ids);
    assert ids == [] && served[0].next.None? && |served| == 1;
    assert PagesOf(served)[..0] == [];
  }

  /** The same, by membership instead of by position. */
  lemma WalkInTerms<K(!new)>(
    lt: Order<K>, keep: K -> bool, snapshots: seq<set<K>>, limits: seq<nat>, pages: seq<Page<K>>)
    ensures StrictTotal(lt) && Walk(lt, keep, snapshots, limits, pages) ==>
              var last := |pages| - 1;
              && Shows(lt, keep, snapshots[0], snapshots[last], !pages[last].more, Seen(pages))
              && |pages| <= |snapshots[last]| + 1
  {
    if StrictTotal(lt) && Walk(lt, keep, snapshots, limits, pages) {
      WalkServesEverythingOnce(lt, keep, snapshots, limits, pages);
    }
  }

  ghost function KeySets<K>(rollups: seq<map<K, Entries>>): seq<set<K>> {
    seq(|rollups|, i requires 0 <= i < |rollups| => rollups[i].Keys)
  }

  lemma FirstPageIsWithinHorizon<K>(lt: Order<K>, nil: K, q: Query<K>, first: K, ids: set<K>, x: K)
    requires Newest(lt, ids, nil, first) && x in ids && WithinQuery(lt, q, x)
    ensures Kept(lt, nil, q, first)(x)
  {}

  /** The query's horizon is the newest id, so real pages form such a walk. */
  lemma HorizonIsNewest(ids: set<string>)
    ensures Newest(TimeOrder(), ids, "", Horizon(ids, None))
  {
    var sorted := SortedKeys(ids);
    if sorted == [] {
      assert forall x :: x !in sorted;
    } else {
      assert sorted[|sorted| - 1] in sorted;
      forall x | x in ids ensures x == Horizon(ids, None) || TimeOrder()(x, Horizon(ids, None)) {
        var i :| 0 <= i < |sorted| && sorted[i] == x;
      }
    }
  }
}
