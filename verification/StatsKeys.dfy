/** Cache keys of statistics buckets, and the bounded listing of one application's buckets. */
module StatsKeys {
  import opened Prelude
  import opened StatsBuckets
  import Utf8
  import Base64

  const KEY_VERSION: string := "stats:v1:"

  /** The application id, base64url so that it cannot contain the `:` that ends it. */
  function Encoded(appId: string): string {
    Base64.Encode(Base64.UrlSafeNoPad, Utf8.Encode(appId))
  }

  function AppPrefix(appId: string): string {
    KEY_VERSION + Encoded(appId) + ":"
  }

  function BucketKey(appId: string, intervalId: string): string {
    AppPrefix(appId) + intervalId
  }

  lemma NoColon(appId: string)
    ensures forall i | 0 <= i < |Encoded(appId)| :: Encoded(appId)[i] != ':'
  {
    Base64.EncodedText(Base64.UrlSafeNoPad, Utf8.Encode(appId));
    assert !Base64.IsText(Base64.UrlSafeNoPad, ':');
  }

  lemma EncodedInjective(a: string, b: string)
    requires Encoded(a) == Encoded(b)
    ensures a == b
  {
    Base64.RoundTrip(Base64.UrlSafeNoPad, Utf8.Encode(a));
    Base64.RoundTrip(Base64.UrlSafeNoPad, Utf8.Encode(b));
    Utf8.Injective(a, b);
  }

  /** The first `:` after the version decides whose key it is. */
  lemma FirstColon(version: string, x: string, y: string, rest: string)
    requires version + x + ":" <= version + y + ":" + rest
    requires (forall i | 0 <= i < |x| :: x[i] != ':') && (forall i | 0 <= i < |y| :: y[i] != ':')
    ensures x == y
  {
    var n, p, s := |version|, version + x + ":", version + y + ":" + rest;
    assert p[n + |x|] == ':' && s[n + |y|] == ':';
    assert forall i | 0 <= i < |x| :: x[i] == p[n + i] == s[n + i];
    assert forall i | 0 <= i < |y| :: y[i] == s[n + i];
  }

  /** One application's prefix is a prefix of another's key only if they are the same application. */
  lemma PrefixNamesOneApp(a: string, b: string, intervalId: string)
    ensures AppPrefix(a) <= BucketKey(b, intervalId) <==> a == b
  {
    if AppPrefix(a) <= BucketKey(b, intervalId) {
      NoColon(a);
      NoColon(b);
      FirstColon(KEY_VERSION, Encoded(a), Encoded(b), intervalId);
      EncodedInjective(a, b);
    }
  }

  lemma KeyInjective(a: string, i: string, b: string, j: string)
    requires BucketKey(a, i) == BucketKey(b, j)
    ensures a == b && i == j
  {
    assert AppPrefix(a) <= BucketKey(b, j);
    PrefixNamesOneApp(a, b, j);
    assert i == BucketKey(a, i)[|AppPrefix(a)|..] && j == BucketKey(b, j)[|AppPrefix(b)|..];
  }

  /** Under one prefix, key order is interval order. */
  lemma KeyOrder(a: string, i: string, j: string)
    ensures StrLt(BucketKey(a, i), BucketKey(a, j)) <==> StrLt(i, j)
  {
    StrLtConcat(AppPrefix(a), AppPrefix(a), i, j);
    StrLtIrreflexive(AppPrefix(a));
  }

  // ---------------------------------------------------------------- the scan

  datatype StoredBucket = StoredBucket(appId: string, intervalId: string, entries: Entries)

  /** Every statistics key holds the bucket it is named after. */
  ghost predicate Consistent(cache: map<string, StoredBucket>) {
    forall k | k in cache :: k == BucketKey(cache[k].appId, cache[k].intervalId)
  }

  predicate Holds(cache: map<string, StoredBucket>, b: StoredBucket) {
    var key := BucketKey(b.appId, b.intervalId);
    key in cache && cache[key] == b
  }

  // Any cache's prefix scan: pages of any size and order, resumed by cursors that mean nothing to the caller.

  datatype ScanPage<K, C> = ScanPage(keys: seq<K>, next: Option<C>)

  /** The answer to the n-th request, given a cursor and a limit. */
  type Scan<!K, !C> = (nat, Option<C>, nat) -> ScanPage<K, C>

  function CursorFor<K, C>(pages: seq<ScanPage<K, C>>): Option<C> {
    if pages == [] then None else pages[|pages| - 1].next
  }

  /** Page after page, each requested with some positive limit and the cursor of the one before. */
  ghost predicate Exchange<K, C>(scan: Scan<K, C>, limits: seq<nat>, pages: seq<ScanPage<K, C>>) {
    |limits| == |pages| &&
    (pages != [] ==>
       var n := |pages| - 1;
       && Exchange(scan, limits[..n], pages[..n])
       && (n > 0 ==> CursorFor(pages[..n]).Some?)
       && limits[n] > 0 && pages[n] == scan(n, CursorFor(pages[..n]), limits[n]))
  }

  function KeysOn<K, C>(pages: seq<ScanPage<K, C>>): seq<K> {
    if pages == [] then [] else KeysOn(pages[..|pages| - 1]) + pages[|pages| - 1].keys
  }

  predicate Ended<K, C>(pages: seq<ScanPage<K, C>>) {
    pages != [] && CursorFor(pages).None?
  }

  /** Only matching keys, and all of them once there is no cursor left. */
  ghost predicate Finds<K, C>(pages: seq<ScanPage<K, C>>, matching: set<K>) {
    && (forall k | k in KeysOn(pages) :: k in matching)
    && (Ended(pages) ==> forall k | k in matching :: k in KeysOn(pages))
  }

  ghost predicate EndsWithin<K(!new), C(!new)>(scan: Scan<K, C>, bound: nat) {
    forall limits, pages | Exchange(scan, limits, pages) :: |pages| <= bound
  }

  /** What a scan of unchanging contents promises: it ends, and it has found every matching key and nothing else. */
  ghost predicate Covers<K(!new), C(!new)>(scan: Scan<K, C>, matching: set<K>) {
    && (exists bound: nat :: EndsWithin(scan, bound))
    && forall limits, pages | Exchange(scan, limits, pages) :: Finds(pages, matching)
  }

  /** No key is returned twice. */
  ghost predicate NeverRepeats<K(!new), C(!new)>(scan: Scan<K, C>) {
    forall limits, pages | Exchange(scan, limits, pages) :: NoDuplicates(KeysOn(pages))
  }

  /** The values under the given keys, in that order. */
  ghost predicate ReadsAll<K, V>(cache: map<K, V>, keys: seq<K>, listed: seq<V>) {
    |listed| == |keys| && forall i | 0 <= i < |keys| :: keys[i] in cache && listed[i] == cache[keys[i]]
  }

  lemma ExchangeOn<K, C>(scan: Scan<K, C>, limits: seq<nat>, pages: seq<ScanPage<K, C>>, limit: nat)
    requires Exchange(scan, limits, pages) && limit > 0 && (pages != [] ==> CursorFor(pages).Some?)
    ensures
      var page := scan(|pages|, CursorFor(pages), limit);
      Exchange(scan, limits + [limit], pages + [page]) && KeysOn(pages + [page]) == KeysOn(pages) + page.keys
  {
    var page := scan(|pages|, CursorFor(pages), limit);
    assert (limits + [limit])[..|pages|] == limits && (pages + [page])[..|pages|] == pages;
  }

  /** Reads the entries of one page, stopping as soon as there are too many. */
  method ReadPage<K, V>(
    cache: map<K, V>, keys: seq<K>, ghost before: seq<K>, read: seq<V>, maxScanEntries: nat)
    returns (values: seq<V>)
    requires ReadsAll(cache, before, read) && |read| <= maxScanEntries && forall k | k in keys :: k in cache
    ensures |values| > maxScanEntries <==> |before| + |keys| > maxScanEntries
    ensures |values| <= maxScanEntries ==> ReadsAll(cache, before + keys, values)
  {
    values := read;
    for i := 0 to |keys|
      invariant |values| <= maxScanEntries && ReadsAll(cache, before + keys[..i], values)
    {
      assert before + keys[..i + 1] == before + keys[..i] + [keys[i]];
      values := values + [cache[keys[i]]];
      if |values| > maxScanEntries {
        return;
      }
    }
    assert keys[..|keys|] == keys;
  }

  /** How many entries a listing reads, compared with how many keys match. */
  lemma EntriesRead<K(!new), C(!new)>(
    scan: Scan<K, C>, matching: set<K>, limits: seq<nat>, pages: seq<ScanPage<K, C>>)
    requires Covers(scan, matching) && Exchange(scan, limits, pages)
    ensures Ended(pages) ==> |matching| <= |KeysOn(pages)|
    ensures NeverRepeats(scan) ==> NoDuplicates(KeysOn(pages)) && |KeysOn(pages)| <= |matching|
  {
    assert Finds(pages, matching);
    var keys := KeysOn(pages);
    if Ended(pages) { CoversSize(keys, matching); }
    if NeverRepeats(scan) {
      forall i | 0 <= i < |keys| ensures keys[i] in matching { assert keys[i] in keys; }
      NoDuplicatesFit(keys, matching);
    }
  }

  lemma EveryKeyRead<K, V>(cache: map<K, V>, keys: seq<K>, values: seq<V>)
    requires ReadsAll(cache, keys, values)
    ensures forall k | k in keys :: k in cache && cache[k] in values
  {
    forall k | k in keys ensures k in cache && cache[k] in values {
      var i :| 0 <= i < |keys| && keys[i] == k;
      assert values[i] == cache[k];
    }
  }

  /**
   The reading loop. Every entry returned counts towards the maximum; beyond it the listing is
   refused, otherwise it goes on until no cursor is left and has read every entry returned.
   */
  method ReadPages<K(!new), C(!new), V>(
    cache: map<K, V>, scan: Scan<K, C>, ghost matching: set<K>, maxScanEntries: nat)
    returns (r: Option<seq<V>>, ghost limits: seq<nat>, ghost pages: seq<ScanPage<K, C>>)
    requires Covers(scan, matching) && matching <= cache.Keys
    ensures Exchange(scan, limits, pages)
    ensures r.None? <==> |KeysOn(pages)| > maxScanEntries
    ensures r.Some? ==> Ended(pages) && ReadsAll(cache, KeysOn(pages), r.value)
    ensures |matching| > maxScanEntries ==> r.None?
    ensures r.Some? ==> forall k | k in matching :: cache[k] in r.value
  {
    ghost var bound: nat :| EndsWithin(scan, bound);
    limits, pages := [], [];
    var cursor: Option<C>, values: seq<V>, requests := None, [], 0;
    while true
      invariant Exchange(scan, limits, pages) && requests == |pages| && cursor == CursorFor(pages)
      invariant pages != [] ==> cursor.Some?
      invariant |values| <= maxScanEntries && ReadsAll(cache, KeysOn(pages), values)
      decreases bound - |pages|
    {
      var limit := Min(maxScanEntries + 1 - |values|, 1000);
      var page := scan(requests, cursor, limit);
      ghost var before := KeysOn(pages);
      ExchangeOn(scan, limits, pages, limit);
      limits, pages, requests := limits + [limit], pages + [page], requests + 1;
      assert Finds(pages, matching) && |pages| <= bound;
      assert forall k | k in page.keys :: k in before + page.keys;
      values := ReadPage(cache, page.keys, before, values, maxScanEntries);
      if |values| > maxScanEntries {
        return None, limits, pages;
      }
      cursor := page.next;
      if cursor.None? {
        EntriesRead(scan, matching, limits, pages);
        EveryKeyRead(cache, KeysOn(pages), values);
        return Some(values), limits, pages;
      }
    }
  }

  // ---------------------------------------------------------------- the listing

  function Matching(keys: set<string>, appId: string): set<string> {
    set k | k in keys && AppPrefix(appId) <= k
  }

  function ByInterval(): StoredBucket -> string {
    (b: StoredBucket) => b.intervalId
  }

  /** Exactly the application's buckets, ordered by interval. */
  ghost predicate IsListing(cache: map<string, StoredBucket>, appId: string, listed: seq<StoredBucket>) {
    && SortedBy(listed, ByInterval())
    && forall b: StoredBucket :: b in listed <==> b.appId == appId && Holds(cache, b)
  }

  ghost predicate StrictlyAscending(listed: seq<StoredBucket>) {
    forall i, j | 0 <= i < j < |listed| :: StrLt(listed[i].intervalId, listed[j].intervalId)
  }

  lemma MatchingIsOfApp(cache: map<string, StoredBucket>, appId: string, k: string)
    requires Consistent(cache) && k in cache
    ensures k in Matching(cache.Keys, appId) <==> cache[k].appId == appId
  {
    PrefixNamesOneApp(appId, cache[k].appId, cache[k].intervalId);
  }

  /** Reading keys that include every matching one and no other reads the application's buckets. */
  lemma ReadIsOfApp(cache: map<string, StoredBucket>, appId: string, keys: seq<string>, values: seq<StoredBucket>)
    requires Consistent(cache) && ReadsAll(cache, keys, values)
    requires forall k :: k in keys <==> k in Matching(cache.Keys, appId)
    ensures forall b: StoredBucket :: b in values <==> b.appId == appId && Holds(cache, b)
    ensures NoDuplicates(keys) ==> NoDuplicates(values)
  {
    forall b: StoredBucket | b.appId == appId && Holds(cache, b) ensures b in values {
      var k := BucketKey(b.appId, b.intervalId);
      MatchingIsOfApp(cache, appId, k);
      var i :| 0 <= i < |keys| && keys[i] == k;
      assert values[i] == b;
    }
    forall i | 0 <= i < |values|
      ensures values[i].appId == appId && keys[i] == BucketKey(values[i].appId, values[i].intervalId)
    {
      assert keys[i] in keys;
      MatchingIsOfApp(cache, appId, keys[i]);
    }
  }

  /** The sort by interval: a listing, and strictly ascending exactly because no key was read twice. */
  lemma SortedIsListing(cache: map<string, StoredBucket>, appId: string, keys: seq<string>, values: seq<StoredBucket>)
    requires Consistent(cache) && ReadsAll(cache, keys, values)
    requires forall k :: k in keys <==> k in Matching(cache.Keys, appId)
    ensures IsListing(cache, appId, SortBy(values, ByInterval()))
    ensures NoDuplicates(keys) ==> StrictlyAscending(SortBy(values, ByInterval()))
  {
    var sorted := SortBy(values, ByInterval());
    ReadIsOfApp(cache, appId, keys, values);
    SortBySorts(values, ByInterval());
    if NoDuplicates(keys) {
      SortByPermutes(values, ByInterval());
      PermutedDistinct(values, sorted);
      forall i, j | 0 <= i < j < |sorted| ensures StrLt(sorted[i].intervalId, sorted[j].intervalId) {
        assert sorted[i] in sorted && sorted[j] in sorted;
        assert StrLe(ByInterval()(sorted[i]), ByInterval()(sorted[j]));
      }
    }
  }

  /** Dropping the greatest interval drops its bucket and no other. */
  lemma WithoutLast(listed: seq<StoredBucket>, b: StoredBucket)
    requires StrictlyAscending(listed) && listed != []
    ensures b in listed[..|listed| - 1] <==> b in listed && b != listed[|listed| - 1]
  {
    var n := |listed| - 1;
    StrLtIrreflexive(listed[n].intervalId);
    if b in listed && b != listed[n] {
      var i :| 0 <= i < |listed| && listed[i] == b;
      assert listed[..n][i] == b;
    }
    if b in listed[..n] {
      var i :| 0 <= i < n && listed[..n][i] == b;
      assert StrLt(listed[i].intervalId, listed[n].intervalId);
    }
  }

  lemma LastIsGreatest(listed: seq<StoredBucket>, b: StoredBucket)
    requires StrictlyAscending(listed) && b in listed
    ensures b == listed[|listed| - 1] || StrLt(b.intervalId, listed[|listed| - 1].intervalId)
  {
    var i :| 0 <= i < |listed| && listed[i] == b;
  }

  /** There is only one strictly ascending listing of given buckets. */
  lemma {:induction false} ListingIsUnique(a: seq<StoredBucket>, b: seq<StoredBucket>)
    requires StrictlyAscending(a) && StrictlyAscending(b) && forall x :: x in a <==> x in b
    ensures a == b
    decreases |a|
  {
    if a == [] {
      NothingIn(b);
    } else {
      var x := a[|a| - 1];
      assert x in b;
      var y := b[|b| - 1];
      assert y in b;
      LastIsGreatest(b, x);
      LastIsGreatest(a, y);
      assert x == y by {
        if x != y {
          StrLtTransitive(x.intervalId, y.intervalId, x.intervalId);
          StrLtIrreflexive(x.intervalId);
        }
      }
      var front, rest := a[..|a| - 1], b[..|b| - 1];
      forall z ensures z in front <==> z in rest {
        WithoutLast(a, z);
        WithoutLast(b, z);
      }
      ListingIsUnique(front, rest);
      assert a == front + [x] && b == rest + [y];
    }
  }

  /** Read in key order, an application's buckets are a strictly ascending listing. */
  lemma KeyOrderLists(cache: map<string, StoredBucket>, appId: string, listed: seq<StoredBucket>)
    requires Consistent(cache) && ReadsAll(cache, SortedKeys(Matching(cache.Keys, appId)), listed)
    ensures StrictlyAscending(listed) && forall b: StoredBucket :: b in listed <==> b.appId == appId && Holds(cache, b)
  {
    var keys := SortedKeys(Matching(cache.Keys, appId));
    ReadIsOfApp(cache, appId, keys, listed);
    forall i, j | 0 <= i < j < |listed| ensures StrLt(listed[i].intervalId, listed[j].intervalId) {
      assert keys[i] in keys && keys[j] in keys;
      MatchingIsOfApp(cache, appId, keys[i]);
      MatchingIsOfApp(cache, appId, keys[j]);
      KeyOrder(appId, listed[i].intervalId, listed[j].intervalId);
    }
  }

  /**
   Lists one application's buckets through any scan: refused if there are more than the
   maximum, and only then if no key is returned twice; otherwise exactly the application's
   buckets in interval order, each once if no key is returned twice. Never cut short.
   */
  method List<C(!new)>(cache: map<string, StoredBucket>, scan: Scan<string, C>, appId: string, maxScanEntries: nat)
    returns (r: Option<seq<StoredBucket>>)
    requires Covers(scan, Matching(cache.Keys, appId))
    ensures |Matching(cache.Keys, appId)| > maxScanEntries ==> r.None?
    ensures r.None? && NeverRepeats(scan) ==> |Matching(cache.Keys, appId)| > maxScanEntries
    ensures r.Some? && Consistent(cache) ==> IsListing(cache, appId, r.value)
    ensures r.Some? && Consistent(cache) && NeverRepeats(scan) ==> StrictlyAscending(r.value)
  {
    ghost var matching := Matching(cache.Keys, appId);
    var values, limits, pages := ReadPages(cache, scan, matching, maxScanEntries);
    EntriesRead(scan, matching, limits, pages);
    if values.None? {
      return None;
    }
    assert Finds(pages, matching);
    if Consistent(cache) { SortedIsListing(cache, appId, KeysOn(pages), values.value); }
    r := Some(SortBy(values.value, ByInterval()));
  }

  // -------------------------------------------------------- scans that promise this

  function Flatten<K>(rows: seq<seq<K>>): seq<K> {
    if rows == [] then [] else Flatten(rows[..|rows| - 1]) + rows[|rows| - 1]
  }

  /** The page holds the rows from `start` to some later one, where its cursor resumes. */
  ghost predicate PageFrom<K, C>(page: ScanPage<K, C>, rows: seq<seq<K>>, at: Option<C> -> nat, start: nat, end: nat) {
    && start <= end <= |rows| && page.keys == Flatten(rows[start..end])
    && (page.next.None? <==> end == |rows|)
    && (page.next.Some? ==> start < end && at(page.next) == end)
  }

  ghost predicate WalksFrom<K, C>(
    scan: Scan<K, C>, rows: seq<seq<K>>, at: Option<C> -> nat, n: nat, cursor: Option<C>, limit: nat)
  {
    exists end: nat :: PageFrom(scan(n, cursor, limit), rows, at, at(cursor), end)
  }

  /** A walk over a fixed arrangement of the keys in rows of any size, a cursor standing for a position. */
  ghost predicate WalksRows<K, C(!new)>(scan: Scan<K, C>, rows: seq<seq<K>>, at: Option<C> -> nat) {
    && at(None) == 0
    && forall n: nat, cursor: Option<C>, limit: nat | limit > 0 && (cursor.Some? ==> at(cursor) < |rows|) ::
         WalksFrom(scan, rows, at, n, cursor, limit)
  }

  lemma FlattenSnoc<K>(rows: seq<seq<K>>, row: seq<K>)
    ensures Flatten(rows + [row]) == Flatten(rows) + row
  {
    assert (rows + [row])[..|rows|] == rows;
  }

  lemma {:induction false} FlattenConcat<K>(a: seq<seq<K>>, b: seq<seq<K>>)
    ensures Flatten(a + b) == Flatten(a) + Flatten(b)
  {
    if b == [] {
      assert a + b == a;
    } else {
      var front, last := b[..|b| - 1], b[|b| - 1];
      FlattenConcat(a, front);
      FlattenSnoc(a + front, last);
      FlattenSnoc(front, last);
      assert a + b == a + front + [last] && b == front + [last];
    }
  }

  /** How far an exchange has come. */
  lemma {:induction false} RowsServed<K, C(!new)>(
    scan: Scan<K, C>, rows: seq<seq<K>>, at: Option<C> -> nat, limits: seq<nat>, pages: seq<ScanPage<K, C>>)
    returns (end: nat)
    requires WalksRows(scan, rows, at) && Exchange(scan, limits, pages)
    ensures end <= |rows| && KeysOn(pages) == Flatten(rows[..end]) && |pages| <= end + 1
    ensures Ended(pages) ==> end == |rows|
    ensures !Ended(pages) ==> |pages| <= end && at(CursorFor(pages)) == end && (pages != [] ==> end < |rows|)
    decreases |pages|
  {
    if pages == [] {
      end := 0;
    } else {
      var n := |pages| - 1;
      var start := RowsServed(scan, rows, at, limits[..n], pages[..n]);
      assert WalksFrom(scan, rows, at, n, CursorFor(pages[..n]), limits[n]);
      end :| PageFrom(pages[n], rows, at, start, end);
      FlattenConcat(rows[..start], rows[start..end]);
      assert rows[..end] == rows[..start] + rows[start..end];
    }
  }

  lemma FlattenPrefix<K>(rows: seq<seq<K>>, end: nat)
    requires end <= |rows|
    ensures Flatten(rows[..end]) <= Flatten(rows)
  {
    assert rows == rows[..end] + rows[end..];
    FlattenConcat(rows[..end], rows[end..]);
  }

  lemma RowsServedFind<K, C(!new)>(
    scan: Scan<K, C>, rows: seq<seq<K>>, at: Option<C> -> nat, limits: seq<nat>, pages: seq<ScanPage<K, C>>)
    requires WalksRows(scan, rows, at) && Exchange(scan, limits, pages)
    ensures |pages| <= |rows| + 1 && KeysOn(pages) <= Flatten(rows) && (Ended(pages) ==> KeysOn(pages) == Flatten(rows))
  {
    var end := RowsServed(scan, rows, at, limits, pages);
    FlattenPrefix(rows, end);
    assert rows[..|rows|] == rows;
  }

  /** Such a walk finds everything, and repeats no key if no row does. */
  lemma RowWalkCovers<K(!new), C(!new)>(scan: Scan<K, C>, rows: seq<seq<K>>, at: Option<C> -> nat, matching: set<K>)
    requires WalksRows(scan, rows, at) && forall k :: k in matching <==> k in Flatten(rows)
    ensures Covers(scan, matching)
    ensures NoDuplicates(Flatten(rows)) ==> NeverRepeats(scan)
  {
    forall limits, pages | Exchange(scan, limits, pages)
      ensures |pages| <= |rows| + 1 && Finds(pages, matching) && KeysOn(pages) <= Flatten(rows)
    {
      RowsServedFind(scan, rows, at, limits, pages);
    }
    assert EndsWithin(scan, |rows| + 1);
  }

  // The in-memory cache: the sorted matching keys, a cursor being the last key served.

  /** Index of the first key beyond the cursor; like the cache, it restarts at 0 if there is none. */
  function FirstBeyond(matching: seq<string>, c: string, from: nat): (start: nat)
    requires from <= |matching|
    ensures start <= |matching|
    decreases |matching| - from
  {
    if from == |matching| then 0 else if StrLt(c, matching[from]) then from else FirstBeyond(matching, c, from + 1)
  }

  function PositionOf(matching: seq<string>): (at: Option<string> -> nat)
    ensures forall cursor :: at(cursor) <= |matching|
  {
    (cursor: Option<string>) => match cursor case None => 0 case Some(c) => FirstBeyond(matching, c, 0)
  }

  /** One page of the ordered prefix scan over the sorted matching keys. */
  function MemoryPage(matching: seq<string>, start: nat, limit: nat): ScanPage<string, string>
    requires start <= |matching|
  {
    if limit == 0 then ScanPage([], None)
    else
      var end := Min(start + limit, |matching|);
      ScanPage(matching[start..end], if end < |matching| then Some(matching[end - 1]) else None)
  }

  function MemoryScan(matching: seq<string>): Scan<string, string> {
    (n: nat, cursor: Option<string>, limit: nat) => MemoryPage(matching, PositionOf(matching)(cursor), limit)
  }

  lemma {:induction false} FirstBeyondIs(matching: seq<string>, k: nat, from: nat)
    requires Ascending(matching) && 0 < k < |matching| && from <= k
    ensures FirstBeyond(matching, matching[k - 1], from) == k
    decreases k - from
  {
    if from < k {
      StrLtTotal(matching[k - 1], matching[from]);
      if from < k - 1 { assert StrLt(matching[from], matching[k - 1]); }
      FirstBeyondIs(matching, k, from + 1);
    } else {
      assert StrLt(matching[k - 1], matching[k]);
    }
  }

  function Singles<K>(keys: seq<K>): seq<seq<K>> {
    seq(|keys|, i requires 0 <= i < |keys| => [keys[i]])
  }

  lemma {:induction false} FlattenSingles<K>(keys: seq<K>)
    ensures Flatten(Singles(keys)) == keys
  {
    if keys != [] {
      var n := |keys| - 1;
      FlattenSingles(keys[..n]);
      assert Singles(keys)[..n] == Singles(keys[..n]);
      assert keys == keys[..n] + [keys[n]];
    }
  }

  lemma MemoryPageFrom(matching: seq<string>, at: Option<string> -> nat, start: nat, limit: nat)
    requires start <= |matching| && limit > 0
    requires forall k | 0 <= k < |matching| - 1 :: at(Some(matching[k])) == k + 1
    ensures PageFrom(MemoryPage(matching, start, limit), Singles(matching), at, start, Min(start + limit, |matching|))
  {
    var end := Min(start + limit, |matching|);
    FlattenSingles(matching[start..end]);
    assert Singles(matching)[start..end] == Singles(matching[start..end]);
  }

  lemma CursorsAreLast(matching: seq<string>)
    requires Ascending(matching)
    ensures forall k | 0 <= k < |matching| - 1 :: PositionOf(matching)(Some(matching[k])) == k + 1
  {
    forall k | 0 <= k < |matching| - 1 ensures PositionOf(matching)(Some(matching[k])) == k + 1 {
      FirstBeyondIs(matching, k + 1, 0);
    }
  }

  lemma MemoryWalksRows(matching: seq<string>)
    requires Ascending(matching)
    ensures WalksRows(MemoryScan(matching), Singles(matching), PositionOf(matching))
  {
    var scan, rows, at := MemoryScan(matching), Singles(matching), PositionOf(matching);
    CursorsAreLast(matching);
    forall n: nat, cursor: Option<string>, limit: nat | limit > 0 ensures WalksFrom(scan, rows, at, n, cursor, limit) {
      MemoryPageFrom(matching, at, at(cursor), limit);
      assert PageFrom(scan(n, cursor, limit), rows, at, at(cursor), Min(at(cursor) + limit, |matching|));
    }
  }

  /** The in-memory scan finds every matching key once. */
  lemma MemoryScanCovers(keys: set<string>, appId: string)
    ensures
      var scan := MemoryScan(SortedKeys(Matching(keys, appId)));
      Covers(scan, Matching(keys, appId)) && NeverRepeats(scan)
  {
    var matching := SortedKeys(Matching(keys, appId));
    MemoryWalksRows(matching);
    FlattenSingles(matching);
    forall i, j | 0 <= i < j < |matching| ensures matching[i] != matching[j] { StrLtIrreflexive(matching[i]); }
    RowWalkCovers(MemoryScan(matching), Singles(matching), PositionOf(matching), Matching(keys, appId));
  }

  // A shared cache: a table walked slot by slot, whatever order and number of keys its slots hold.

  function SlotPosition(): Option<nat> -> nat {
    (cursor: Option<nat>) => match cursor case None => 0 case Some(c) => c
  }

  /** `SCAN` with a slot count: the next slots' keys; cursor 0, here `None`, says that the walk is complete. */
  function SlotPage<K>(slots: seq<seq<K>>, start: nat, limit: nat): ScanPage<K, nat> {
    if limit == 0 || start > |slots| then ScanPage([], None)
    else
      var end: nat := Min(start + limit, |slots|);
      ScanPage(Flatten(slots[start..end]), if end < |slots| then Some(end) else None)
  }

  function SlotScan<K>(slots: seq<seq<K>>): Scan<K, nat> {
    (n: nat, cursor: Option<nat>, limit: nat) => SlotPage(slots, SlotPosition()(cursor), limit)
  }

  /** Such a scan finds every key in the table, in no particular order and in pages of any size. */
  lemma SlotScanCovers<K(!new)>(slots: seq<seq<K>>, matching: set<K>)
    requires forall k :: k in matching <==> k in Flatten(slots)
    ensures Covers(SlotScan(slots), matching)
    ensures NoDuplicates(Flatten(slots)) ==> NeverRepeats(SlotScan(slots))
  {
    var scan, at := SlotScan(slots), SlotPosition();
    forall n: nat, cursor: Option<nat>, limit: nat | limit > 0 && (cursor.Some? ==> at(cursor) < |slots|)
      ensures WalksFrom(scan, slots, at, n, cursor, limit)
    {
      assert PageFrom(scan(n, cursor, limit), slots, at, at(cursor), Min(at(cursor) + limit, |slots|));
    }
    RowWalkCovers(scan, slots, at, matching);
  }
}
