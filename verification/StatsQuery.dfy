/**
 The whole read path: list one application's minutes, roll them up, serve a page; and what
 a client that follows cursors gets to see of what was recorded before a flush.
 */
module StatsQuery {
  import opened Prelude
  import opened StatsBuckets
  import opened StatsCalendar
  import opened StatsCas
  import opened StatsKeys
  import opened StatsRollups
  import opened StatsPages
  import W = StatsWorker

  // ---------------------------------------------- the store as the listing sees it

  function NameOf(k: Key): string {
    BucketKey(k.appId, k.intervalId)
  }

  lemma NamesDistinct()
    ensures forall j: Key, k: Key :: NameOf(j) == NameOf(k) ==> j == k
  {
    forall j: Key, k: Key | NameOf(j) == NameOf(k) ensures j == k {
      KeyInjective(j.appId, j.intervalId, k.appId, k.intervalId);
    }
  }

  /** The cache contents: every bucket under its key. */
  function CacheOf(store: map<Key, Entries>): map<string, StoredBucket> {
    NamesDistinct();
    map k | k in store :: NameOf(k) := StoredBucket(k.appId, k.intervalId, store[k])
  }

  lemma CacheHolds(store: map<Key, Entries>, b: StoredBucket)
    ensures Holds(CacheOf(store), b) <==> Lookup(store, Key(b.appId, b.intervalId)) == Some(b.entries)
  {
    NamesDistinct();
    assert NameOf(Key(b.appId, b.intervalId)) == BucketKey(b.appId, b.intervalId);
  }

  lemma CacheConsistent(store: map<Key, Entries>)
    ensures Consistent(CacheOf(store))
  {
    NamesDistinct();
  }

  lemma SortedInCache(keys: set<string>, matching: set<string>)
    requires matching <= keys
    ensures forall i | 0 <= i < |SortedKeys(matching)| :: SortedKeys(matching)[i] in keys
  {
    var sorted := SortedKeys(matching);
    forall i | 0 <= i < |sorted| ensures sorted[i] in keys { assert sorted[i] in sorted; }
  }

  /** One application's stored buckets, in key order. */
  function AppListing(cache: map<string, StoredBucket>, appId: string): seq<StoredBucket> {
    var keys := SortedKeys(Matching(cache.Keys, appId));
    SortedInCache(cache.Keys, Matching(cache.Keys, appId));
    seq(|keys|, i requires 0 <= i < |keys| => cache[keys[i]])
  }

  function ToBuckets(listed: seq<StoredBucket>): seq<Bucket<string>> {
    seq(|listed|, i requires 0 <= i < |listed| => Bucket(listed[i].intervalId, listed[i].entries))
  }

  /** What the query rolls up. */
  function AppBuckets(cache: map<string, StoredBucket>, appId: string): seq<Bucket<string>> {
    ToBuckets(AppListing(cache, appId))
  }

  function RollupOf<K(==)>(buckets: seq<Bucket<K>>, roll: Roll<K>): map<K, Entries> {
    map id | id in RollupIds(buckets, roll) :: MergeAll(PartsIn(buckets, roll, id))
  }

  lemma RollupIsUnique<K>(buckets: seq<Bucket<K>>, roll: Roll<K>, rollups: map<K, Entries>)
    ensures IsRollup(buckets, roll, rollups) <==> rollups == RollupOf(buckets, roll)
  {}

  /** The rolled-up intervals of an application, as a query of that unit finds them. */
  function RollupsOf(cache: map<string, StoredBucket>, appId: string, u: Unit): map<string, Entries> {
    RollupOf(AppBuckets(cache, appId), ToUnit(u))
  }

  // ------------------------------------------------------------------- one query

  datatype Answer = Served(page: StatsPage<string>) | ScanRefused | BadInterval | CursorRefused

  predicate Accepts<K(==)>(cursor: Option<Cursor<K>>, appId: string, q: Query<K>) {
    cursor.Some? ==> CursorMatches(cursor.value, appId, q)
  }

  /** What the query needs of the cache: buckets under their own keys, and a scan that finds each key once. */
  ghost predicate ScansApp<C(!new)>(scan: Scan<string, C>, cache: map<string, StoredBucket>, appId: string) {
    Consistent(cache) && Covers(scan, Matching(cache.Keys, appId)) && NeverRepeats(scan)
  }

  lemma AppListingIs(cache: map<string, StoredBucket>, appId: string)
    requires Consistent(cache)
    ensures StrictlyAscending(AppListing(cache, appId)) && |AppListing(cache, appId)| == |Matching(cache.Keys, appId)|
    ensures forall b :: b in AppListing(cache, appId) <==> b.appId == appId && Holds(cache, b)
  {
    var matching := Matching(cache.Keys, appId);
    SortedInCache(cache.Keys, matching);
    KeyOrderLists(cache, appId, AppListing(cache, appId));
    SortedSize(matching);
  }

  /** Whatever the scan's order and pages, the sorted listing is the application's buckets in key order. */
  lemma AnyScanListsAlike(cache: map<string, StoredBucket>, appId: string, listed: seq<StoredBucket>)
    requires Consistent(cache) && IsListing(cache, appId, listed) && StrictlyAscending(listed)
    ensures listed == AppListing(cache, appId)
  {
    AppListingIs(cache, appId);
    ListingIsUnique(listed, AppListing(cache, appId));
  }

  /** One page of one application's statistics, after the flush. */
  method QueryStore<C(!new)>(
    cache: map<string, StoredBucket>, scan: Scan<string, C>, appId: string, q: Query<string>, limit: nat,
    cursor: Option<Cursor<string>>, maxScanEntries: nat)
    returns (r: Answer)
    requires limit >= 1 && ScansApp(scan, cache, appId)
    ensures r.ScanRefused? <==> |AppBuckets(cache, appId)| > maxScanEntries
    ensures !r.ScanRefused? ==> (r.BadInterval? <==> !AllRoll(AppBuckets(cache, appId), ToUnit(q.unit)))
    ensures !r.ScanRefused? && !r.BadInterval? ==> (r.CursorRefused? <==> !Accepts(cursor, appId, q))
    ensures r.Served? ==>
              var rollups := RollupsOf(cache, appId, q.unit);
              Serves(TimeOrder(), "", appId, rollups, q, limit, Horizon(rollups.Keys, cursor), AfterOf(cursor), r.page)
  {
    var listed := List(cache, scan, appId, maxScanEntries);
    AppListingIs(cache, appId);
    if listed.None? {
      return ScanRefused;
    }
    AnyScanListsAlike(cache, appId, listed.value);
    var buckets := ToBuckets(listed.value);
    var rollups := RollUp(buckets, ToUnit(q.unit));
    if rollups.None? {
      return BadInterval;
    }
    RollupIsUnique(buckets, ToUnit(q.unit), rollups.value);
    var page := QueryPage(appId, rollups.value, q, limit, cursor);
    if page.None? {
      return CursorRefused;
    }
    r := Served(page.value);
  }

  // ------------------------------------- what the store holds, by application

  ghost predicate Lists(store: map<Key, Entries>, appId: string, buckets: seq<Bucket<string>>) {
    && (forall i | 0 <= i < |buckets| :: Lookup(store, Key(appId, buckets[i].intervalId)) == Some(buckets[i].entries))
    && (forall id: string :: Key(appId, id) in store ==> id in IntervalIds(buckets))
    && NoDuplicates(IntervalIds(buckets))
  }

  function IntervalIds<K>(buckets: seq<Bucket<K>>): seq<K> {
    seq(|buckets|, i requires 0 <= i < |buckets| => buckets[i].intervalId)
  }

  /** The listing has exactly the application's minutes, each once, with what is stored for it. */
  lemma ListingIsOfApp(store: map<Key, Entries>, appId: string)
    ensures Lists(store, appId, AppBuckets(CacheOf(store), appId))
  {
    var cache := CacheOf(store);
    var listed := AppListing(cache, appId);
    CacheConsistent(store);
    AppListingIs(cache, appId);
    ListedBuckets(store, appId, listed);
  }

  lemma ListedBuckets(store: map<Key, Entries>, appId: string, listed: seq<StoredBucket>)
    requires forall b: StoredBucket :: b in listed <==> b.appId == appId && Holds(CacheOf(store), b)
    requires StrictlyAscending(listed)
    ensures Lists(store, appId, ToBuckets(listed))
  {
    var buckets := ToBuckets(listed);
    forall i | 0 <= i < |buckets| ensures Lookup(store, Key(appId, buckets[i].intervalId)) == Some(buckets[i].entries) {
      assert listed[i] in listed;
      CacheHolds(store, listed[i]);
    }
    forall id: string | Key(appId, id) in store ensures id in IntervalIds(buckets) {
      var b := StoredBucket(appId, id, store[Key(appId, id)]);
      CacheHolds(store, b);
      var i :| 0 <= i < |listed| && listed[i] == b;
      assert IntervalIds(buckets)[i] == id;
    }
    forall i, j | 0 <= i < j < |listed| ensures listed[i].intervalId != listed[j].intervalId {
      StrLtIrreflexive(listed[i].intervalId);
    }
  }

  // ---------------------------------------- a rollup is the merge of what was recorded

  /** One application's contributions, in the order they were stored. */
  function AppPieces(log: seq<W.Piece>, appId: string): seq<Bucket<string>> {
    if log == [] then [] else
      var last := log[|log| - 1];
      AppPieces(log[..|log| - 1], appId) +
      if last.key.appId == appId then [Bucket(last.key.intervalId, last.part)] else []
  }

  /** Grouping by the stored minute itself. */
  function Same(): Roll<string> {
    id => Some(id)
  }

  lemma {:induction false} PiecesOnMinute(log: seq<W.Piece>, appId: string, id: string)
    ensures W.PiecesOn(log, Key(appId, id)) == PartsIn(AppPieces(log, appId), Same(), id)
  {
    if log != [] {
      var front, last := log[..|log| - 1], log[|log| - 1];
      PiecesOnMinute(front, appId, id);
      PartsInExtend(AppPieces(front, appId), Bucket(last.key.intervalId, last.part), Same(), id);
      assert AppPieces(front, appId) + [] == AppPieces(front, appId);
    }
  }

  lemma {:induction false} AppPiecesCanonical(log: seq<W.Piece>, appId: string)
    requires forall j | 0 <= j < |log| :: Canonical(log[j].part)
    ensures CanonicalBuckets(AppPieces(log, appId))
  {
    if log != [] { AppPiecesCanonical(log[..|log| - 1], appId); }
  }

  lemma {:induction false} PieceListed(log: seq<W.Piece>, appId: string, j: nat)
    requires j < |log| && log[j].key.appId == appId
    ensures Bucket(log[j].key.intervalId, log[j].part) in AppPieces(log, appId)
  {
    if j < |log| - 1 { PieceListed(log[..|log| - 1], appId, j); }
  }

  /** One application's part of the store, by minute. */
  function AppStore(store: map<Key, Entries>, appId: string): map<string, Entries> {
    map k | k in store && k.appId == appId :: k.intervalId := store[k]
  }

  lemma AppStoreAt(store: map<Key, Entries>, appId: string, id: string)
    ensures id in AppStore(store, appId) <==> Key(appId, id) in store
    ensures id in AppStore(store, appId) ==> AppStore(store, appId)[id] == store[Key(appId, id)]
  {
    if Key(appId, id) in store { assert Key(appId, id).intervalId == id; }
  }

  /** The store groups the contributions by minute. */
  lemma StoreIsRollup(s: W.Recorder, appId: string)
    requires W.StoreInv(s)
    ensures IsRollup(AppPieces(s.log, appId), Same(), AppStore(s.store, appId))
  {
    var pieces, store := AppPieces(s.log, appId), AppStore(s.store, appId);
    forall id
      ensures id in store <==> id in RollupIds(pieces, Same())
      ensures id in store ==> store[id] == MergeAll(PartsIn(pieces, Same(), id))
    {
      AppStoreAt(s.store, appId, id);
      PiecesOnMinute(s.log, appId, id);
      PartsInEmpty(pieces, Same(), id);
      assert Lookup(s.store, Key(appId, id)) == StoredAs(W.PiecesOn(s.log, Key(appId, id)));
    }
  }

  lemma ListedStore(store: map<Key, Entries>, appId: string, buckets: seq<Bucket<string>>)
    requires Lists(store, appId, buckets)
    ensures forall k :: k in IntervalIds(buckets) <==> k in AppStore(store, appId)
    ensures buckets == Listed(AppStore(store, appId), IntervalIds(buckets))
  {
    forall k ensures k in IntervalIds(buckets) <==> k in AppStore(store, appId) {
      AppStoreAt(store, appId, k);
      if k in IntervalIds(buckets) {
        var i :| 0 <= i < |buckets| && buckets[i].intervalId == k;
      }
    }
    forall i | 0 <= i < |buckets| ensures buckets[i] == Listed(AppStore(store, appId), IntervalIds(buckets))[i] {
      assert IntervalIds(buckets)[i] in IntervalIds(buckets);
      AppStoreAt(store, appId, buckets[i].intervalId);
    }
  }

  /** Rolling up what is listed is rolling up every single contribution. */
  lemma ListingRollsUpPieces(s: W.Recorder, appId: string, buckets: seq<Bucket<string>>, u: Unit, id: string)
    requires W.StoreInv(s) && Lists(s.store, appId, buckets)
    ensures MergeAll(PartsIn(buckets, ToUnit(u), id)) == MergeAll(PartsIn(AppPieces(s.log, appId), ToUnit(u), id))
  {
    var pieces := AppPieces(s.log, appId);
    AppPiecesCanonical(s.log, appId);
    StoreIsRollup(s, appId);
    ListedStore(s.store, appId, buckets);
    Regrouped(pieces, Same(), ToUnit(u), AppStore(s.store, appId), IntervalIds(buckets), id);
  }

  /** Every id of the one list is an id of the other. */
  ghost predicate IdsWithin<K>(xs: seq<Bucket<K>>, ys: seq<Bucket<K>>) {
    forall i | 0 <= i < |xs| :: xs[i].intervalId in IntervalIds(ys)
  }

  lemma SameIdsRollAlike<K>(xs: seq<Bucket<K>>, ys: seq<Bucket<K>>, roll: Roll<K>)
    requires IdsWithin(xs, ys)
    ensures RollupIds(xs, roll) <= RollupIds(ys, roll)
  {
    forall id | id in RollupIds(xs, roll) ensures id in RollupIds(ys, roll) {
      var i :| 0 <= i < |xs| && roll(xs[i].intervalId) == Some(id);
      var j :| 0 <= j < |ys| && IntervalIds(ys)[j] == xs[i].intervalId;
    }
  }

  /** The minutes contributed to are the minutes listed. */
  lemma ListedIffContributed(s: W.Recorder, appId: string, buckets: seq<Bucket<string>>)
    requires W.StoreInv(s) && Lists(s.store, appId, buckets)
    ensures IdsWithin(buckets, AppPieces(s.log, appId)) && IdsWithin(AppPieces(s.log, appId), buckets)
  {
    var pieces := AppPieces(s.log, appId);
    StoreIsRollup(s, appId);
    ListedStore(s.store, appId, buckets);
    forall i | 0 <= i < |buckets| ensures buckets[i].intervalId in IntervalIds(pieces) {
      assert IntervalIds(buckets)[i] in RollupIds(pieces, Same());
      var j :| 0 <= j < |pieces| && Same()(pieces[j].intervalId) == Some(buckets[i].intervalId);
      assert IntervalIds(pieces)[j] == buckets[i].intervalId;
    }
    forall j | 0 <= j < |pieces| ensures pieces[j].intervalId in IntervalIds(buckets) {
      assert Same()(pieces[j].intervalId).value in RollupIds(pieces, Same());
    }
  }

  /** Every observation, here and elsewhere, is made for a minute, as the code's constructor does. */
  ghost function MinuteKey(): Key -> bool {
    (k: Key) => IsMinuteId(k.intervalId)
  }

  lemma {:induction false} PiecesAreMinutes(log: seq<W.Piece>, appId: string)
    requires forall j | 0 <= j < |log| :: MinuteKey()(log[j].key)
    ensures MinuteIds(AppPieces(log, appId))
  {
    if log != [] { PiecesAreMinutes(log[..|log| - 1], appId); }
  }

  lemma ListingIsMinutes(s: W.Recorder, appId: string, buckets: seq<Bucket<string>>)
    requires W.StoreInv(s) && Lists(s.store, appId, buckets) && MinuteIds(AppPieces(s.log, appId))
    ensures MinuteIds(buckets)
  {
    var pieces := AppPieces(s.log, appId);
    ListedIffContributed(s, appId, buckets);
    forall i | 0 <= i < |buckets| ensures IsMinuteId(buckets[i].intervalId) {
      assert buckets[i].intervalId in IntervalIds(pieces);
      var j :| 0 <= j < |pieces| && IntervalIds(pieces)[j] == buckets[i].intervalId;
      assert IsMinuteId(pieces[j].intervalId);
    }
  }

  /** What was contributed to an application's minutes inside an interval. */
  function RecordedIn(log: seq<W.Piece>, appId: string, u: Unit, c: Civil): seq<Entries> {
    MinutesIn(AppPieces(log, appId), u, c)
  }

  lemma ListingShowsPieces(s: W.Recorder, appId: string, buckets: seq<Bucket<string>>, u: Unit, c: Civil)
    requires W.StoreInv(s) && Lists(s.store, appId, buckets) && MinuteIds(AppPieces(s.log, appId)) && Valid(c)
    ensures
      var rollups, recorded := RollupOf(buckets, ToUnit(u)), RecordedIn(s.log, appId, u, c);
      && (Format(u, c) in rollups <==> recorded != [])
      && (Format(u, c) in rollups ==> rollups[Format(u, c)] == MergeAll(recorded))
  {
    var pieces, id := AppPieces(s.log, appId), Format(u, c);
    ListedIffContributed(s, appId, buckets);
    SameIdsRollAlike(buckets, pieces, ToUnit(u));
    SameIdsRollAlike(pieces, buckets, ToUnit(u));
    PartsInEmpty(pieces, ToUnit(u), id);
    PartsAreMinutes(pieces, u, c);
    ListingRollsUpPieces(s, appId, buckets, u, id);
  }

  /**
   In every state of every run, for every unit: a query shows the interval around a minute
   iff something was contributed to a minute in it, and what it shows is the merge of all
   those contributions, from this node and the others, each once. No stored id fails a query.
   */
  lemma ShownIsRecorded(
    trace: seq<W.Recorder>, actions: seq<W.Action>, limits: W.Limits, t: nat, appId: string, u: Unit, c: Civil)
    requires W.Run(trace, actions, limits) && W.OnlyKeys(actions, MinuteKey()) && t < |trace| && Valid(c)
    ensures
      var s := trace[t];
      var buckets, rollups := AppBuckets(CacheOf(s.store), appId), RollupsOf(CacheOf(s.store), appId, u);
      var recorded := RecordedIn(s.log, appId, u, c);
      && MinuteIds(buckets) && AllRoll(buckets, ToUnit(u))
      && (Format(u, c) in rollups <==> recorded != [])
      && (Format(u, c) in rollups ==> rollups[Format(u, c)] == MergeAll(recorded))
  {
    var s := trace[t];
    var buckets := AppBuckets(CacheOf(s.store), appId);
    W.RunInvariant(trace, actions, limits, t);
    W.StoredKeysWereObserved(trace, actions, limits, t, MinuteKey());
    PiecesAreMinutes(s.log, appId);
    ListingIsOfApp(s.store, appId);
    ListingIsMinutes(s, appId, buckets);
    ListingShowsPieces(s, appId, buckets, u, c);
    MinutesRoll(buckets, u, c);
  }

  lemma MinutesRoll(buckets: seq<Bucket<string>>, u: Unit, c: Civil)
    requires MinuteIds(buckets) && Valid(c)
    ensures AllRoll(buckets, ToUnit(u))
  {
    forall i | 0 <= i < |buckets| ensures ToUnit(u)(buckets[i].intervalId).Some? {
      assert IsMinuteId(buckets[i].intervalId);
      RollsToItsInterval(buckets[i].intervalId, u, c);
    }
  }

  lemma {:induction false} MinuteIncluded(buckets: seq<Bucket<string>>, u: Unit, c: Civil, j: nat)
    requires j < |buckets| && InInterval(u, c, buckets[j].intervalId)
    ensures buckets[j].entries in MinutesIn(buckets, u, c)
  {
    if j < |buckets| - 1 { MinuteIncluded(buckets[..|buckets| - 1], u, c, j); }
  }

  /** An observation made for minute `c` counts towards the interval around `c`. */
  lemma PieceIsRecorded(log: seq<W.Piece>, o: W.Obs, appId: string, u: Unit, c: Civil)
    requires W.HasPiece(log, o) && o.key == Key(appId, Format(Minute, c)) && Valid(c)
    ensures o.part in RecordedIn(log, appId, u, c)
  {
    var j :| 0 <= j < |log| && log[j] == W.Piece(Some(o.id), o.key, o.part);
    var pieces := AppPieces(log, appId);
    PieceListed(log, appId, j);
    var k :| 0 <= k < |pieces| && pieces[k] == Bucket(o.key.intervalId, o.part);
    ParseFormat(Minute, c);
    MinuteIncluded(pieces, u, c, k);
  }

  /**
   With a store that never fails, a query made after a flush was answered sees every
   observation enqueued before that flush: its interval is shown, with the merge of all
   contributions to the interval, this observation's counters among them.
   */
  lemma QuerySeesAccepted(
    trace: seq<W.Recorder>, actions: seq<W.Action>, limits: W.Limits, t: nat, f: nat, i: nat, u: Unit, c: Civil)
    requires W.Run(trace, actions, limits) && W.NeverFails(actions) && W.OnlyKeys(actions, MinuteKey()) && t < |trace|
    requires i < f && W.FlushAnswered(trace[t], f) && trace[t].accepted[i].Observe?
    requires Valid(c) && trace[t].accepted[i].obs.key.intervalId == Format(Minute, c)
    ensures
      var s, o := trace[t], trace[t].accepted[i].obs;
      var rollups, recorded := RollupsOf(CacheOf(s.store), o.key.appId, u), RecordedIn(s.log, o.key.appId, u, c);
      && Format(u, c) in rollups
      && rollups[Format(u, c)] == MergeAll(recorded)
      && o.part in recorded
  {
    var s, o := trace[t], trace[t].accepted[i].obs;
    W.FlushStoresEverything(trace, actions, limits, t, f, i);
    PieceIsRecorded(s.log, o, o.key.appId, u, c);
    ShownIsRecorded(trace, actions, limits, t, o.key.appId, u, c);
  }

  // ------------------------------------------------------- following the cursors

  /** The rollups each of the client's requests finds. */
  function Shown(caches: seq<map<string, StoredBucket>>, appId: string, u: Unit): seq<map<string, Entries>> {
    seq(|caches|, i requires 0 <= i < |caches| => RollupsOf(caches[i], appId, u))
  }

  /** Intervals may be added between requests, none is removed, and none is nameless. */
  ghost predicate Growing<K>(nil: K, rollups: seq<map<K, Entries>>) {
    && 0 < |rollups| && nil !in rollups[0]
    && forall i, j | 0 <= i < j < |rollups| :: rollups[i].Keys <= rollups[j].Keys
  }

  ghost predicate RightPage<K(!new)>(
    lt: Order<K>, nil: K, appId: string, q: Query<K>, first: K, rollups: seq<map<K, Entries>>, limits: seq<nat>,
    served: seq<StatsPage<K>>, i: nat)
    requires i < |served| <= |rollups| == |limits|
  {
    ServesAt(lt, nil, appId, q, first, rollups[i], limits[i], served, i)
  }

  /** The pages served so far are what the same query gives, cursor by cursor. */
  ghost predicate Following<K(!new)>(
    lt: Order<K>, nil: K, appId: string, q: Query<K>, first: K, rollups: seq<map<K, Entries>>, limits: seq<nat>,
    served: seq<StatsPage<K>>)
  {
    && |served| <= |rollups| == |limits|
    && (forall i | 0 <= i < |served| - 1 :: served[i].next.Some?)
    && (forall i | 0 <= i < |served| :: RightPage(lt, nil, appId, q, first, rollups, limits, served, i))
  }

  lemma FollowOn<K(!new)>(
    lt: Order<K>, nil: K, appId: string, q: Query<K>, first: K, rollups: seq<map<K, Entries>>, limits: seq<nat>,
    served: seq<StatsPage<K>>, page: StatsPage<K>)
    requires Following(lt, nil, appId, q, first, rollups, limits, served) && |served| < |rollups|
    requires served != [] ==> served[|served| - 1].next.Some?
    requires Serves(lt, nil, appId, rollups[|served|], q, limits[|served|], HorizonAt(first, served, |served|),
                    if served == [] then None else AfterOf(served[|served| - 1].next), page)
    ensures Following(lt, nil, appId, q, first, rollups, limits, served + [page])
  {
    var more := served + [page];
    forall i | 0 <= i < |more| ensures RightPage(lt, nil, appId, q, first, rollups, limits, more, i) {
      if i < |served| { assert RightPage(lt, nil, appId, q, first, rollups, limits, served, i); }
    }
  }

  lemma FollowingIsWalk<K(!new)>(
    lt: Order<K>, nil: K, appId: string, q: Query<K>, first: K, rollups: seq<map<K, Entries>>, limits: seq<nat>,
    served: seq<StatsPage<K>>)
    requires Following(lt, nil, appId, q, first, rollups, limits, served) && 0 < |served| == |rollups|
    requires Growing(nil, rollups) && Newest(lt, rollups[0].Keys, nil, first)
    requires forall i | 0 <= i < |limits| :: limits[i] >= 1
    ensures ClientWalk(lt, nil, appId, q, first, rollups, limits, served)
  {
    forall i | 0 <= i < |served| ensures ServesAt(lt, nil, appId, q, first, rollups[i], limits[i], served, i) {
      assert RightPage(lt, nil, appId, q, first, rollups, limits, served, i);
    }
  }

  /** The newest interval the first request finds. */
  function FirstHorizon(caches: seq<map<string, StoredBucket>>, appId: string, u: Unit): string
    requires caches != []
  {
    Horizon(RollupsOf(caches[0], appId, u).Keys, None)
  }

  /** Few enough minutes to scan, all with ids that parse. */
  ghost predicate Answerable(cache: map<string, StoredBucket>, appId: string, u: Unit, maxScanEntries: nat) {
    |AppBuckets(cache, appId)| <= maxScanEntries && AllRoll(AppBuckets(cache, appId), ToUnit(u))
  }

  ghost predicate AnswerableAt(
    caches: seq<map<string, StoredBucket>>, appId: string, u: Unit, maxScanEntries: nat, i: nat)
    requires i < |caches|
  {
    Answerable(caches[i], appId, u, maxScanEntries)
  }

  /** Request `i` finds a cache that can be scanned. */
  ghost predicate ScansAt<C(!new)>(
    scans: seq<Scan<string, C>>, caches: seq<map<string, StoredBucket>>, appId: string, i: nat)
    requires i < |caches| == |scans|
  {
    ScansApp(scans[i], caches[i], appId)
  }

  /** The pages so far, and the cursor of the last one. */
  ghost predicate Carrying<K(!new)>(
    lt: Order<K>, nil: K, appId: string, q: Query<K>, first: K, rollups: seq<map<K, Entries>>, limits: seq<nat>,
    served: seq<StatsPage<K>>, cursor: Option<Cursor<K>>)
  {
    && Following(lt, nil, appId, q, first, rollups, limits, served)
    && cursor == (if served == [] then None else served[|served| - 1].next) && Accepts(cursor, appId, q)
  }

  lemma CarryOn<K(!new)>(
    lt: Order<K>, nil: K, appId: string, q: Query<K>, first: K, rollups: seq<map<K, Entries>>, limits: seq<nat>,
    served: seq<StatsPage<K>>, cursor: Option<Cursor<K>>, page: StatsPage<K>)
    requires Carrying(lt, nil, appId, q, first, rollups, limits, served, cursor) && |served| < |rollups|
    requires served != [] ==> cursor.Some?
    requires Serves(lt, nil, appId, rollups[|served|], q, limits[|served|], HorizonAt(first, served, |served|),
                    AfterOf(cursor), page)
    ensures Carrying(lt, nil, appId, q, first, rollups, limits, served + [page], page.next)
  {
    FollowOn(lt, nil, appId, q, first, rollups, limits, served, page);
  }

  /** Where a client is after the pages `served`: the last store could be scanned, and its cursor comes next. */
  ghost predicate Asking(
    caches: seq<map<string, StoredBucket>>, appId: string, q: Query<string>, limits: seq<nat>, maxScanEntries: nat,
    served: seq<StatsPage<string>>, cursor: Option<Cursor<string>>)
    requires 0 < |caches| == |limits|
  {
    var first, rollups := FirstHorizon(caches, appId, q.unit), Shown(caches, appId, q.unit);
    && Carrying(TimeOrder(), "", appId, q, first, rollups, limits, served, cursor)
    && (served != [] ==> AnswerableAt(caches, appId, q.unit, maxScanEntries, |served| - 1))
  }

  lemma HorizonCarried(
    caches: seq<map<string, StoredBucket>>, appId: string, u: Unit, served: seq<StatsPage<string>>,
    cursor: Option<Cursor<string>>)
    requires |served| < |caches| && (served != [] ==> cursor.Some?)
    requires cursor == if served == [] then None else served[|served| - 1].next
    ensures Horizon(RollupsOf(caches[|served|], appId, u).Keys, cursor) ==
            HorizonAt(FirstHorizon(caches, appId, u), served, |served|)
  {}

  /** The client's next request, with the cursor of the page before. */
  method NextPage<C(!new)>(
    caches: seq<map<string, StoredBucket>>, scans: seq<Scan<string, C>>, appId: string, q: Query<string>,
    limits: seq<nat>, maxScanEntries: nat, served: seq<StatsPage<string>>, cursor: Option<Cursor<string>>)
    returns (page: Option<StatsPage<string>>)
    requires |served| < |caches| == |limits| == |scans| && limits[|served|] >= 1
    requires ScansAt(scans, caches, appId, |served|)
    requires Asking(caches, appId, q, limits, maxScanEntries, served, cursor) && (served != [] ==> cursor.Some?)
    ensures page.None? <==> !AnswerableAt(caches, appId, q.unit, maxScanEntries, |served|)
    ensures page.Some? ==> Asking(caches, appId, q, limits, maxScanEntries, served + [page.value], page.value.next)
  {
    var answer := QueryStore(caches[|served|], scans[|served|], appId, q, limits[|served|], cursor, maxScanEntries);
    if !answer.Served? {
      return None;
    }
    ghost var rollups, first := Shown(caches, appId, q.unit), FirstHorizon(caches, appId, q.unit);
    HorizonCarried(caches, appId, q.unit, served, cursor);
    CarryOn(TimeOrder(), "", appId, q, first, rollups, limits, served, cursor, answer.page);
    page := Some(answer.page);
  }

  /**
   A client asks for page after page, passing back each cursor: its own cursors are never
   refused, so it is served until no cursor is left, or a store is met that cannot be scanned.
   */
  method FollowCursors<C(!new)>(
    caches: seq<map<string, StoredBucket>>, scans: seq<Scan<string, C>>, appId: string, q: Query<string>,
    limits: seq<nat>, maxScanEntries: nat)
    returns (ok: bool, served: seq<StatsPage<string>>, next: Option<Cursor<string>>)
    requires 0 < |caches| == |limits| == |scans| && (forall i | 0 <= i < |limits| :: limits[i] >= 1)
    requires forall i | 0 <= i < |caches| :: ScansAt(scans, caches, appId, i)
    ensures !ok ==> exists i | 0 <= i < |caches| :: !AnswerableAt(caches, appId, q.unit, maxScanEntries, i)
    ensures ok ==> 0 < |served| <= |caches| && (next.None? || |served| == |caches|)
    ensures ok ==> Asking(caches, appId, q, limits, maxScanEntries, served, next)
  {
    ok, served, next := true, [], None;
    while |served| < |caches| && (served == [] || next.Some?)
      invariant |served| <= |caches| && Asking(caches, appId, q, limits, maxScanEntries, served, next)
      decreases |caches| - |served|
    {
      var page := NextPage(caches, scans, appId, q, limits, maxScanEntries, served, next);
      if page.None? {
        assert !AnswerableAt(caches, appId, q.unit, maxScanEntries, |served|);
        ok := false;
        return;
      }
      served, next := served + [page.value], page.value.next;
    }
  }

  /** There are no more intervals than minutes. */
  lemma {:induction false} RollupFits<K>(buckets: seq<Bucket<K>>, roll: Roll<K>)
    ensures |RollupIds(buckets, roll)| <= |buckets|
  {
    if buckets != [] {
      var front, last := buckets[..|buckets| - 1], buckets[|buckets| - 1];
      RollupFits(front, roll);
      assert buckets == front + [last];
      RollupIdsExtend(front, last, roll);
    }
  }

  /** At or after the start, and at or before the end, where these are given. */
  predicate Between(start: Option<string>, end: Option<string>, id: string) {
    (start.Some? ==> StrLe(start.value, id)) && (end.Some? ==> StrLe(id, end.value))
  }

  lemma WithinIsBetween(q: Query<string>, id: string)
    ensures WithinQuery(TimeOrder(), q, id) <==> Between(q.start, q.end, id)
  {}

  /** The bounds of a parsed query select exactly what its textual bounds select. */
  lemma WithinIffSelected(u: Unit, d: Direction, start: string, end: string, lo: string, hi: string, c: Civil)
    requires Valid(c) && NormalizeBound(start, u, false) == Some(lo) && NormalizeBound(end, u, true) == Some(hi)
    ensures WithinQuery(TimeOrder(), Query(u, d, Some(lo), Some(hi)), Format(u, c)) <==>
            Selects(u, start, end, Format(Minute, c))
  {
    WithinIsBetween(Query(u, d, Some(lo), Some(hi)), Format(u, c));
    RollupTwice(u, u, c);
  }

  /** A query bounded on both sides by one interval of unit `v` keeps exactly the intervals inside it or around it. */
  lemma BoundedQuery(u: Unit, d: Direction, v: Unit, c: Civil, m: Civil, lo: string, hi: string)
    requires Valid(c) && Valid(m)
    requires NormalizeBound(Format(v, c), u, false) == Some(lo) && NormalizeBound(Format(v, c), u, true) == Some(hi)
    ensures WithinQuery(TimeOrder(), Query(u, d, Some(lo), Some(hi)), Format(u, m)) <==>
            Truncate(Coarser(u, v), m) == Truncate(Coarser(u, v), c)
  {
    WithinIffSelected(u, d, Format(v, c), Format(v, c), lo, hi, m);
    BoundsSelectInterval(u, v, c, m);
  }

  // ------------------------------------------- what a client sees of what was recorded

  /** The moments at which the client's requests read the store. */
  ghost predicate Moments(trace: seq<W.Recorder>, times: seq<nat>) {
    0 < |times| && (forall k | 0 <= k < |times| :: times[k] < |trace|) &&
    forall j, k | 0 <= j < k < |times| :: times[j] <= times[k]
  }

  function CachesAt(trace: seq<W.Recorder>, times: seq<nat>): seq<map<string, StoredBucket>>
    requires forall k | 0 <= k < |times| :: times[k] < |trace|
  {
    seq(|times|, k requires 0 <= k < |times| => CacheOf(trace[times[k]].store))
  }

  lemma RollupsGrow(before: map<Key, Entries>, after: map<Key, Entries>, appId: string, u: Unit)
    requires before.Keys <= after.Keys
    ensures RollupsOf(CacheOf(before), appId, u).Keys <= RollupsOf(CacheOf(after), appId, u).Keys
  {
    var xs, ys := AppBuckets(CacheOf(before), appId), AppBuckets(CacheOf(after), appId);
    ListingIsOfApp(before, appId);
    ListingIsOfApp(after, appId);
    forall i | 0 <= i < |xs| ensures xs[i].intervalId in IntervalIds(ys) {
      assert Key(appId, xs[i].intervalId) in before.Keys;
    }
    SameIdsRollAlike(xs, ys, ToUnit(u));
  }

  lemma NotNameless(u: Unit, c: Civil)
    requires Valid(c)
    ensures Format(u, c) != ""
  {
    ParseFormat(u, c);
    assert ParseIntervalStart("").None?;
  }

  lemma NamedIntervals(buckets: seq<Bucket<string>>, u: Unit)
    requires MinuteIds(buckets)
    ensures "" !in RollupOf(buckets, ToUnit(u))
  {
    forall id | id in RollupOf(buckets, ToUnit(u)) ensures id != "" {
      var c := RollupsAreIntervals(buckets, u, RollupOf(buckets, ToUnit(u)), id);
      NotNameless(u, c);
    }
  }

  lemma MomentsGrow(
    trace: seq<W.Recorder>, actions: seq<W.Action>, limits: W.Limits, times: seq<nat>, appId: string, u: Unit, c: Civil)
    requires W.Run(trace, actions, limits) && W.OnlyKeys(actions, MinuteKey()) && Moments(trace, times) && Valid(c)
    ensures Growing("", Shown(CachesAt(trace, times), appId, u))
  {
    var rollups := Shown(CachesAt(trace, times), appId, u);
    ShownIsRecorded(trace, actions, limits, times[0], appId, u, c);
    NamedIntervals(AppBuckets(CacheOf(trace[times[0]].store), appId), u);
    forall i, j | 0 <= i < j < |rollups| ensures rollups[i].Keys <= rollups[j].Keys {
      W.StoreGrows(trace, actions, limits, times[i], times[j]);
      RollupsGrow(trace[times[i]].store, trace[times[j]].store, appId, u);
    }
  }

  lemma {:induction false} SeenOnSomePage<K>(pages: seq<Page<K>>, x: K)
    requires x in Seen(pages)
    ensures exists k | 0 <= k < |pages| :: x in pages[k].items
  {
    var n := |pages| - 1;
    if x !in pages[n].items {
      SeenOnSomePage(pages[..n], x);
      var k :| 0 <= k < n && x in pages[..n][k].items;
      assert x in pages[k].items;
    }
  }

  /** Item `m` of page `k` is interval `id`, with the bucket the store had for it then. */
  ghost predicate Shows<K>(rollups: seq<map<K, Entries>>, served: seq<StatsPage<K>>, id: K, k: nat, m: nat) {
    k < |served| <= |rollups| && m < |served[k].items| && id in rollups[k] && served[k].items[m] == (id, rollups[k][id])
  }

  lemma SeenIsShown<K(!new)>(
    lt: Order<K>, nil: K, appId: string, q: Query<K>, first: K, rollups: seq<map<K, Entries>>, limits: seq<nat>,
    served: seq<StatsPage<K>>, id: K)
    requires ClientWalk(lt, nil, appId, q, first, rollups, limits, served) && id in Seen(PagesOf(served))
    ensures exists k: nat, m: nat :: Shows(rollups, served, id, k, m)
  {
    SeenOnSomePage(PagesOf(served), id);
    var k :| 0 <= k < |served| && id in PagesOf(served)[k].items;
    assert ServesAt(lt, nil, appId, q, first, rollups[k], limits[k], served, k);
    var m :| 0 <= m < |served[k].items| && IdsOf(served[k].items)[m] == id;
    assert Shows(rollups, served, id, k, m);
  }

  /** The pages a client got, request by request, until no cursor was left. */
  ghost predicate Finished(
    trace: seq<W.Recorder>, times: seq<nat>, appId: string, q: Query<string>, pageLimits: seq<nat>,
    served: seq<StatsPage<string>>)
  {
    && Moments(trace, times) && |times| == |pageLimits| == |served|
    && (forall i | 0 <= i < |pageLimits| :: pageLimits[i] >= 1)
    && Following(TimeOrder(), "", appId, q, FirstHorizon(CachesAt(trace, times), appId, q.unit),
                 Shown(CachesAt(trace, times), appId, q.unit), pageLimits, served)
    && served[|served| - 1].next.None?
  }

  lemma WalkOfCaches(
    caches: seq<map<string, StoredBucket>>, appId: string, q: Query<string>, limits: seq<nat>,
    served: seq<StatsPage<string>>)
    requires 0 < |caches| == |served| == |limits| && (forall i | 0 <= i < |limits| :: limits[i] >= 1)
    requires Growing("", Shown(caches, appId, q.unit))
    requires Following(TimeOrder(), "", appId, q, FirstHorizon(caches, appId, q.unit),
               Shown(caches, appId, q.unit), limits, served)
    ensures ClientWalk(TimeOrder(), "", appId, q, FirstHorizon(caches, appId, q.unit),
              Shown(caches, appId, q.unit), limits, served)
  {
    var rollups := Shown(caches, appId, q.unit);
    HorizonIsNewest(rollups[0].Keys);
    FollowingIsWalk(TimeOrder(), "", appId, q, FirstHorizon(caches, appId, q.unit), rollups, limits, served);
  }

  lemma FinishedIsWalk(
    trace: seq<W.Recorder>, actions: seq<W.Action>, limits: W.Limits, times: seq<nat>, appId: string, q: Query<string>,
    pageLimits: seq<nat>, served: seq<StatsPage<string>>, c: Civil)
    requires W.Run(trace, actions, limits) && W.OnlyKeys(actions, MinuteKey()) && Valid(c)
    requires Finished(trace, times, appId, q, pageLimits, served)
    ensures
      var caches := CachesAt(trace, times);
      ClientWalk(TimeOrder(), "", appId, q, FirstHorizon(caches, appId, q.unit),
        Shown(caches, appId, q.unit), pageLimits, served)
  {
    MomentsGrow(trace, actions, limits, times, appId, q.unit, c);
    WalkOfCaches(CachesAt(trace, times), appId, q, pageLimits, served);
  }

  lemma WalkInOrder(
    appId: string, q: Query<string>, first: string, rollups: seq<map<string, Entries>>, limits: seq<nat>,
    served: seq<StatsPage<string>>, id: string)
    requires ClientWalk(TimeOrder(), "", appId, q, first, rollups, limits, served) && served[|served| - 1].next.None?
    ensures Increasing(ByTime(TimeOrder(), q.direction), Seen(PagesOf(served)))
    ensures |served| <= |rollups[|served| - 1]| + 1
    ensures forall k | 0 <= k < |served| ::
              |served[k].items| <= limits[k] && (k < |served| - 1 ==> |served[k].items| == limits[k])
    ensures id in rollups[0] ==> (id in Seen(PagesOf(served)) <==> Between(q.start, q.end, id))
    ensures id in Seen(PagesOf(served)) ==>
              id in rollups[|served| - 1] && Between(q.start, q.end, id) && NotBeyond(rollups[0].Keys, id)
  {
    TimeOrderIsTotal();
    ClientSeesEverythingOnce(TimeOrder(), "", appId, q, first, rollups, limits, served);
    WithinIsBetween(q, id);
    forall k | 0 <= k < |served|
      ensures |served[k].items| <= limits[k] && (k < |served| - 1 ==> |served[k].items| == limits[k])
    {
      assert ServesAt(TimeOrder(), "", appId, q, first, rollups[k], limits[k], served, k);
    }
  }

  ghost predicate NotBeyond(ids: set<string>, id: string) {
    exists y :: y in ids && StrLe(id, y)
  }

  lemma FinishedInOrder(
    trace: seq<W.Recorder>, actions: seq<W.Action>, limits: W.Limits, times: seq<nat>, appId: string, q: Query<string>,
    pageLimits: seq<nat>, served: seq<StatsPage<string>>, c: Civil)
    requires W.Run(trace, actions, limits) && W.OnlyKeys(actions, MinuteKey()) && Valid(c)
    requires Finished(trace, times, appId, q, pageLimits, served)
    ensures Increasing(ByTime(TimeOrder(), q.direction), Seen(PagesOf(served)))
    ensures |served| <= |Shown(CachesAt(trace, times), appId, q.unit)[|times| - 1]| + 1
    ensures forall k | 0 <= k < |served| ::
              |served[k].items| <= pageLimits[k] && (k < |served| - 1 ==> |served[k].items| == pageLimits[k])
    ensures
      var id, rollups := Format(q.unit, c), Shown(CachesAt(trace, times), appId, q.unit);
      && (id in rollups[0] ==> (id in Seen(PagesOf(served)) <==> Between(q.start, q.end, id)))
      && (id in Seen(PagesOf(served)) ==>
            id in rollups[|times| - 1] && Between(q.start, q.end, id) && NotBeyond(rollups[0].Keys, id))
  {
    var caches := CachesAt(trace, times);
    var rollups, first := Shown(caches, appId, q.unit), FirstHorizon(caches, appId, q.unit);
    FinishedIsWalk(trace, actions, limits, times, appId, q, pageLimits, served, c);
    WalkInOrder(appId, q, first, rollups, pageLimits, served, Format(q.unit, c));
  }

  lemma ShownAt(trace: seq<W.Recorder>, times: seq<nat>, appId: string, u: Unit, k: nat)
    requires Moments(trace, times) && k < |times|
    ensures Shown(CachesAt(trace, times), appId, u)[k] == RollupsOf(CacheOf(trace[times[k]].store), appId, u)
  {}

  lemma FewIntervals(cache: map<string, StoredBucket>, appId: string, u: Unit, maxScanEntries: nat)
    requires Answerable(cache, appId, u, maxScanEntries)
    ensures |RollupsOf(cache, appId, u)| <= maxScanEntries
  {
    var rollups := RollupsOf(cache, appId, u);
    RollupFits(AppBuckets(cache, appId), ToUnit(u));
    assert rollups.Keys == RollupIds(AppBuckets(cache, appId), ToUnit(u));
    assert |rollups| == |rollups.Keys|;
  }

  lemma FewShown(trace: seq<W.Recorder>, times: seq<nat>, appId: string, u: Unit, maxScanEntries: nat)
    requires Moments(trace, times) && Answerable(CacheOf(trace[times[|times| - 1]].store), appId, u, maxScanEntries)
    ensures |Shown(CachesAt(trace, times), appId, u)[|times| - 1]| <= maxScanEntries
  {
    ShownAt(trace, times, appId, u, |times| - 1);
    FewIntervals(CacheOf(trace[times[|times| - 1]].store), appId, u, maxScanEntries);
  }

  /**
   A client that follows the cursors of one query to the end, while recording goes on, gets
   every interval at most once and in order, in at most one page more than the listing's
   bound. Of the intervals with a contribution at the first request it gets exactly those
   between the bounds, all of them when no bound is given.
   */
  lemma ClientSeesRecorded(
    trace: seq<W.Recorder>, actions: seq<W.Action>, limits: W.Limits, times: seq<nat>, appId: string, q: Query<string>,
    pageLimits: seq<nat>, served: seq<StatsPage<string>>, maxScanEntries: nat, c: Civil)
    requires W.Run(trace, actions, limits) && W.OnlyKeys(actions, MinuteKey()) && Valid(c)
    requires Finished(trace, times, appId, q, pageLimits, served)
    requires Answerable(CacheOf(trace[times[|times| - 1]].store), appId, q.unit, maxScanEntries)
    ensures
      var ids := Seen(PagesOf(served));
      forall i, j | 0 <= i < j < |ids| ::
        if q.direction == Forwards then StrLt(ids[i], ids[j]) else StrLt(ids[j], ids[i])
    ensures |served| <= maxScanEntries + 1
    ensures forall k | 0 <= k < |served| ::
              |served[k].items| <= pageLimits[k] && (k < |served| - 1 ==> |served[k].items| == pageLimits[k])
    ensures RecordedIn(trace[times[0]].log, appId, q.unit, c) != [] ==>
              (Format(q.unit, c) in Seen(PagesOf(served)) <==> Between(q.start, q.end, Format(q.unit, c)))
  {
    FinishedInOrder(trace, actions, limits, times, appId, q, pageLimits, served, c);
    ShownAt(trace, times, appId, q.unit, 0);
    FewShown(trace, times, appId, q.unit, maxScanEntries);
    ShownIsRecorded(trace, actions, limits, times[0], appId, q.unit, c);
  }

  /** A bound as a client writes it: an interval of some unit. */
  type Mark = b: (Unit, Civil) | Valid(b.1) witness (Minute, Civil(1970, 1, 1, 0, 0))

  /** The query asks from the start of `from` to the end of `to`; either may be missing. */
  predicate AsksFor(q: Query<string>, from: Option<Mark>, to: Option<Mark>) {
    && q.start == (match from case None => None case Some(b) => NormalizeBound(Format(b.0, b.1), q.unit, false))
    && q.end == (match to case None => None case Some(b) => NormalizeBound(Format(b.0, b.1), q.unit, true))
  }

  /** The interval around `c` neither ends before `from` starts nor starts after `to` ends. */
  predicate Overlaps(u: Unit, from: Option<Mark>, to: Option<Mark>, c: Civil)
    requires Valid(c)
  {
    && (from.Some? ==> !Before(Truncate(u, c), Truncate(u, Truncate(from.value.0, from.value.1))))
    && (to.Some? ==> !Before(Truncate(u, LastMinute(to.value.0, to.value.1)), Truncate(u, c)))
  }

  lemma BetweenIsOverlap(q: Query<string>, from: Option<Mark>, to: Option<Mark>, c: Civil)
    requires Valid(c) && AsksFor(q, from, to)
    ensures Between(q.start, q.end, Format(q.unit, c)) <==> Overlaps(q.unit, from, to, c)
  {
    if from.Some? {
      BoundsOf(from.value.0, q.unit, from.value.1);
      TruncateValid(from.value.0, from.value.1);
      IdLe(q.unit, Truncate(from.value.0, from.value.1), c);
    }
    if to.Some? {
      BoundsOf(to.value.0, q.unit, to.value.1);
      IdLe(q.unit, c, LastMinute(to.value.0, to.value.1));
    }
  }

  /** Something was recorded, by the first request, for an interval no earlier than the one around `c`. */
  ghost predicate KnownAtFirst(log: seq<W.Piece>, appId: string, u: Unit, c: Civil)
    requires Valid(c)
  {
    exists d: Civil :: Valid(d) && RecordedIn(log, appId, u, d) != [] && !Before(Truncate(u, d), Truncate(u, c))
  }

  lemma ShownInterval(
    trace: seq<W.Recorder>, actions: seq<W.Action>, limits: W.Limits, t: nat, appId: string, u: Unit, c: Civil,
    id: string)
    returns (d: Civil)
    requires W.Run(trace, actions, limits) && W.OnlyKeys(actions, MinuteKey()) && t < |trace| && Valid(c)
    requires id in RollupsOf(CacheOf(trace[t].store), appId, u)
    ensures Valid(d) && id == Format(u, d) && RecordedIn(trace[t].log, appId, u, d) != []
  {
    assert MinuteIds(AppBuckets(CacheOf(trace[t].store), appId)) by {
      ShownIsRecorded(trace, actions, limits, t, appId, u, c);
    }
    d := RolledInterval(AppBuckets(CacheOf(trace[t].store), appId), u, id);
    ShownIsRecorded(trace, actions, limits, t, appId, u, d);
  }

  lemma RolledInterval(buckets: seq<Bucket<string>>, u: Unit, id: string) returns (d: Civil)
    requires MinuteIds(buckets) && id in RollupOf(buckets, ToUnit(u))
    ensures Valid(d) && id == Format(u, d)
  {
    d := RollupsAreIntervals(buckets, u, RollupOf(buckets, ToUnit(u)), id);
  }

  lemma NotBeyondKnown(
    trace: seq<W.Recorder>, actions: seq<W.Action>, limits: W.Limits, t: nat, appId: string, u: Unit, c: Civil)
    requires W.Run(trace, actions, limits) && W.OnlyKeys(actions, MinuteKey()) && t < |trace| && Valid(c)
    requires NotBeyond(RollupsOf(CacheOf(trace[t].store), appId, u).Keys, Format(u, c))
    ensures KnownAtFirst(trace[t].log, appId, u, c)
  {
    var y :| y in RollupsOf(CacheOf(trace[t].store), appId, u).Keys && StrLe(Format(u, c), y);
    var d := ShownInterval(trace, actions, limits, t, appId, u, c, y);
    IdLe(u, c, d);
  }

  /**
   The same in calendar terms, for every choice of bounds: of the intervals recorded at the
   first request the client gets exactly those that reach from the start of the one bound to
   the end of the other; a missing bound leaves its side open. Whatever else it gets was
   recorded meanwhile, inside the bounds and no later than the newest interval then known.
   */
  lemma ClientSeesSelected(
    trace: seq<W.Recorder>, actions: seq<W.Action>, limits: W.Limits, times: seq<nat>, appId: string, q: Query<string>,
    pageLimits: seq<nat>, served: seq<StatsPage<string>>, from: Option<Mark>, to: Option<Mark>, c: Civil)
    requires W.Run(trace, actions, limits) && W.OnlyKeys(actions, MinuteKey()) && Valid(c) && AsksFor(q, from, to)
    requires Finished(trace, times, appId, q, pageLimits, served)
    ensures RecordedIn(trace[times[0]].log, appId, q.unit, c) != [] ==>
              (Format(q.unit, c) in Seen(PagesOf(served)) <==> Overlaps(q.unit, from, to, c))
    ensures Format(q.unit, c) in Seen(PagesOf(served)) ==>
              && RecordedIn(trace[times[|times| - 1]].log, appId, q.unit, c) != []
              && Overlaps(q.unit, from, to, c) && KnownAtFirst(trace[times[0]].log, appId, q.unit, c)
  {
    var last := |times| - 1;
    FinishedInOrder(trace, actions, limits, times, appId, q, pageLimits, served, c);
    BetweenIsOverlap(q, from, to, c);
    ShownAt(trace, times, appId, q.unit, 0);
    ShownAt(trace, times, appId, q.unit, last);
    ShownIsRecorded(trace, actions, limits, times[0], appId, q.unit, c);
    ShownIsRecorded(trace, actions, limits, times[last], appId, q.unit, c);
    if Format(q.unit, c) in Seen(PagesOf(served)) {
      NotBeyondKnown(trace, actions, limits, times[0], appId, q.unit, c);
    }
  }

  /** Page `k` shows interval `id` with the merge of everything recorded for it by then, `part` included. */
  ghost predicate ShowsMerge(
    trace: seq<W.Recorder>, times: seq<nat>, appId: string, u: Unit, c: Civil, part: Entries,
    served: seq<StatsPage<string>>, k: nat)
  {
    k < |served| <= |times| && times[k] < |trace| &&
    var recorded := RecordedIn(trace[times[k]].log, appId, u, c);
    part in recorded && (Format(u, c), MergeAll(recorded)) in served[k].items
  }

  /**
   With a store that never fails: a client whose first request reads the store after a flush
   was answered is shown, on one of its pages, the interval of every observation enqueued
   before that flush and selected by the bounds, with the merge of all contributions to that
   interval, this observation's counters among them.
   */
  lemma ClientSeesAccepted(
    trace: seq<W.Recorder>, actions: seq<W.Action>, limits: W.Limits, times: seq<nat>, q: Query<string>,
    pageLimits: seq<nat>, served: seq<StatsPage<string>>, maxScanEntries: nat, f: nat, i: nat, c: Civil, o: W.Obs)
    requires W.Run(trace, actions, limits) && W.NeverFails(actions) && W.OnlyKeys(actions, MinuteKey())
    requires Finished(trace, times, o.key.appId, q, pageLimits, served)
    requires Answerable(CacheOf(trace[times[|times| - 1]].store), o.key.appId, q.unit, maxScanEntries)
    requires W.FlushAnswered(trace[times[0]], f) && i < f && trace[times[0]].accepted[i].Observe?
    requires trace[times[0]].accepted[i].obs == o && Valid(c) && o.key.intervalId == Format(Minute, c)
    requires Between(q.start, q.end, Format(q.unit, c))
    ensures exists k: nat :: ShowsMerge(trace, times, o.key.appId, q.unit, c, o.part, served, k)
  {
    var appId := o.key.appId;
    W.FlushStoresEverything(trace, actions, limits, times[0], f, i);
    PieceIsRecorded(trace[times[0]].log, o, appId, q.unit, c);
    ClientSeesRecorded(trace, actions, limits, times, appId, q, pageLimits, served, maxScanEntries, c);
    var k, m := ShownOnPage(trace, actions, limits, times, appId, q, pageLimits, served, c);
    StillRecorded(trace, actions, limits, times, k, o, q.unit, c);
    ShownMerge(trace, actions, limits, times, q.unit, c, o, served, k, m);
  }

  lemma ShownOnPage(
    trace: seq<W.Recorder>, actions: seq<W.Action>, limits: W.Limits, times: seq<nat>, appId: string, q: Query<string>,
    pageLimits: seq<nat>, served: seq<StatsPage<string>>, c: Civil)
    returns (k: nat, m: nat)
    requires W.Run(trace, actions, limits) && W.OnlyKeys(actions, MinuteKey()) && Valid(c)
    requires Finished(trace, times, appId, q, pageLimits, served) && Format(q.unit, c) in Seen(PagesOf(served))
    ensures Shows(Shown(CachesAt(trace, times), appId, q.unit), served, Format(q.unit, c), k, m)
  {
    var caches := CachesAt(trace, times);
    var first, rollups := FirstHorizon(caches, appId, q.unit), Shown(caches, appId, q.unit);
    FinishedIsWalk(trace, actions, limits, times, appId, q, pageLimits, served, c);
    SeenIsShown(TimeOrder(), "", appId, q, first, rollups, pageLimits, served, Format(q.unit, c));
    k, m :| Shows(rollups, served, Format(q.unit, c), k, m);
  }

  lemma ShownMerge(
    trace: seq<W.Recorder>, actions: seq<W.Action>, limits: W.Limits, times: seq<nat>, u: Unit, c: Civil, o: W.Obs,
    served: seq<StatsPage<string>>, k: nat, m: nat)
    requires W.Run(trace, actions, limits) && W.OnlyKeys(actions, MinuteKey()) && Valid(c) && Moments(trace, times)
    requires |served| == |times| && Shows(Shown(CachesAt(trace, times), o.key.appId, u), served, Format(u, c), k, m)
    requires o.part in RecordedIn(trace[times[k]].log, o.key.appId, u, c)
    ensures ShowsMerge(trace, times, o.key.appId, u, c, o.part, served, k)
  {
    ShownAt(trace, times, o.key.appId, u, k);
    ShownIsRecorded(trace, actions, limits, times[k], o.key.appId, u, c);
    assert served[k].items[m] in served[k].items;
  }

  lemma StillRecorded(
    trace: seq<W.Recorder>, actions: seq<W.Action>, limits: W.Limits, times: seq<nat>, k: nat, o: W.Obs, u: Unit,
    c: Civil)
    requires W.Run(trace, actions, limits) && Moments(trace, times) && k < |times|
    requires W.HasPiece(trace[times[0]].log, o) && Valid(c) && o.key.intervalId == Format(Minute, c)
    ensures o.part in RecordedIn(trace[times[k]].log, o.key.appId, u, c)
  {
    var before, after := trace[times[0]].log, trace[times[k]].log;
    assert times[0] <= times[k];
    W.StoreGrows(trace, actions, limits, times[0], times[k]);
    var j :| 0 <= j < |before| && before[j] == W.Piece(Some(o.id), o.key, o.part);
    assert after[j] == before[j];
    PieceIsRecorded(after, o, o.key.appId, u, c);
  }
}
