/** Read-time rollups: minute buckets regrouped by hour, day or month. */
module StatsRollups {
  import opened Prelude
  import opened StatsBuckets
  import opened StatsCalendar

  datatype Bucket<K> = Bucket(intervalId: K, entries: Entries)

  /** Names the interval of some unit that contains a stored id. */
  type Roll<!K> = K -> Option<K>

  function ToUnit(u: Unit): Roll<string> {
    id => RollupId(u, id)
  }

  /** The buckets, in list order, that roll up to `id`. */
  function PartsIn<K(==)>(buckets: seq<Bucket<K>>, roll: Roll<K>, id: K): seq<Entries> {
    if buckets == [] then [] else
      var last := buckets[|buckets| - 1];
      PartsIn(buckets[..|buckets| - 1], roll, id) + if roll(last.intervalId) == Some(id) then [last.entries] else []
  }

  function RollupIds<K>(buckets: seq<Bucket<K>>, roll: Roll<K>): set<K> {
    set i | 0 <= i < |buckets| && roll(buckets[i].intervalId).Some? :: roll(buckets[i].intervalId).value
  }

  /** The rollup of a list: every interval id with the merge of exactly its buckets. */
  ghost predicate IsRollup<K>(buckets: seq<Bucket<K>>, roll: Roll<K>, rollups: map<K, Entries>) {
    rollups.Keys == RollupIds(buckets, roll) &&
    forall id | id in rollups :: rollups[id] == MergeAll(PartsIn(buckets, roll, id))
  }

  lemma RollupIdsExtend<K>(buckets: seq<Bucket<K>>, b: Bucket<K>, roll: Roll<K>)
    ensures RollupIds(buckets + [b], roll) == RollupIds(buckets, roll) +
              match roll(b.intervalId) case Some(id) => {id} case None => {}
  {
    var all := buckets + [b];
    assert all[|buckets|] == b;
    forall id | id in RollupIds(buckets, roll) ensures id in RollupIds(all, roll) {
      var i :| 0 <= i < |buckets| && roll(buckets[i].intervalId) == Some(id);
      assert all[i] == buckets[i];
    }
    forall id | id in RollupIds(all, roll) ensures id in RollupIds(buckets, roll) || roll(b.intervalId) == Some(id) {
      var i :| 0 <= i < |all| && roll(all[i].intervalId) == Some(id);
      assert i < |buckets| ==> buckets[i] == all[i];
    }
  }

  lemma PartsInExtend<K>(buckets: seq<Bucket<K>>, b: Bucket<K>, roll: Roll<K>, id: K)
    ensures PartsIn(buckets + [b], roll, id) ==
            if roll(b.intervalId) == Some(id) then PartsIn(buckets, roll, id) + [b.entries]
            else PartsIn(buckets, roll, id)
  {
    assert (buckets + [b])[..|buckets|] == buckets;
    assert PartsIn(buckets, roll, id) + [] == PartsIn(buckets, roll, id);
  }

  lemma {:induction false} PartsInEmpty<K>(buckets: seq<Bucket<K>>, roll: Roll<K>, id: K)
    ensures PartsIn(buckets, roll, id) == [] <==> id !in RollupIds(buckets, roll)
  {
    if buckets != [] {
      var front, last := buckets[..|buckets| - 1], buckets[|buckets| - 1];
      PartsInEmpty(front, roll, id);
      assert buckets == front + [last];
      RollupIdsExtend(front, last, roll);
    }
  }

  function Grown<K>(rollups: map<K, Entries>, id: K, part: Entries): map<K, Entries> {
    rollups[id := MergeEntries(if id in rollups then rollups[id] else map[], part)]
  }

  lemma GrownAt<K>(buckets: seq<Bucket<K>>, b: Bucket<K>, roll: Roll<K>, rollups: map<K, Entries>, id: K, other: K)
    requires IsRollup(buckets, roll, rollups) && roll(b.intervalId) == Some(id)
    requires other in Grown(rollups, id, b.entries)
    ensures Grown(rollups, id, b.entries)[other] == MergeAll(PartsIn(buckets + [b], roll, other))
  {
    PartsInExtend(buckets, b, roll, other);
    if other == id {
      PartsInEmpty(buckets, roll, id);
      var parts := PartsIn(buckets, roll, id);
      assert (parts + [b.entries])[..|parts|] == parts;
    }
  }

  lemma RollupExtend<K>(buckets: seq<Bucket<K>>, b: Bucket<K>, roll: Roll<K>, rollups: map<K, Entries>, id: K)
    requires IsRollup(buckets, roll, rollups) && roll(b.intervalId) == Some(id)
    ensures IsRollup(buckets + [b], roll, Grown(rollups, id, b.entries))
  {
    RollupIdsExtend(buckets, b, roll);
    var after := Grown(rollups, id, b.entries);
    assert after.Keys == rollups.Keys + {id};
    forall other | other in after ensures after[other] == MergeAll(PartsIn(buckets + [b], roll, other)) {
      GrownAt(buckets, b, roll, rollups, id, other);
    }
  }

  ghost predicate AllRoll<K>(buckets: seq<Bucket<K>>, roll: Roll<K>) {
    forall i | 0 <= i < |buckets| :: roll(buckets[i].intervalId).Some?
  }

  /** The query's grouping loop; a stored id that does not parse fails the query. */
  method RollUp<K>(buckets: seq<Bucket<K>>, roll: Roll<K>) returns (r: Option<map<K, Entries>>)
    ensures r.Some? <==> AllRoll(buckets, roll)
    ensures r.Some? ==> IsRollup(buckets, roll, r.value)
  {
    var rollups: map<K, Entries> := map[];
    for i := 0 to |buckets|
      invariant AllRoll(buckets[..i], roll) && IsRollup(buckets[..i], roll, rollups)
    {
      var bucket := buckets[i];
      var interval := roll(bucket.intervalId);
      if interval.None? {
        return None;
      }
      var current := if interval.value in rollups then rollups[interval.value] else map[];
      RollupExtend(buckets[..i], bucket, roll, rollups, interval.value);
      rollups := rollups[interval.value := MergeEntries(current, bucket.entries)];
      assert buckets[..i + 1] == buckets[..i] + [bucket];
    }
    assert buckets[..|buckets|] == buckets;
    r := Some(rollups);
  }

  ghost predicate CanonicalBuckets<K>(buckets: seq<Bucket<K>>) {
    forall i | 0 <= i < |buckets| :: Canonical(buckets[i].entries)
  }

  lemma {:induction false} PartsInCanonical<K>(buckets: seq<Bucket<K>>, roll: Roll<K>, id: K)
    requires CanonicalBuckets(buckets)
    ensures AllCanonical(PartsIn(buckets, roll, id))
  {
    if buckets != [] { PartsInCanonical(buckets[..|buckets| - 1], roll, id); }
  }

  /** A grouped field is the maximum (peaks) or the saturated true sum over exactly the buckets of its group. */
  lemma GroupMeaning<K>(buckets: seq<Bucket<K>>, roll: Roll<K>, rollups: map<K, Entries>, id: K, name: string)
    requires CanonicalBuckets(buckets) && IsRollup(buckets, roll, rollups) && id in rollups
    ensures name in rollups[id] <==> Mentions(PartsIn(buckets, roll, id), name)
    ensures name in rollups[id] ==> rollups[id][name].value == FieldMeaning(PartsIn(buckets, roll, id), name)
  {
    PartsInCanonical(buckets, roll, id);
    MergeAllMeaning(PartsIn(buckets, roll, id), name);
  }

  // --------------------------------------------------------- a bucket listed twice

  /** Merging `e` again changes nothing: its sums are zero or already cut off. */
  ghost predicate Absorbed(total: Entries, e: Entries) {
    forall name | name in e && KindOf(name) == Sum ::
      e[name].value == 0 || (name in total && total[name].value == U64_MAX)
  }

  lemma MergedAgain(total: Entries, e: Entries)
    requires Canonical(total) && Canonical(e) && forall name | name in e :: name in total
    requires forall name | name in e && KindOf(name) == Peak :: e[name].value <= total[name].value
    ensures MergeEntries(total, e) == total <==> Absorbed(total, e)
  {
    if Absorbed(total, e) {
      forall name | name in total ensures MergeAt(total, e, name) == total[name] {}
      assert MergeEntries(total, e).Keys == total.Keys;
    } else {
      var name :| name in e && KindOf(name) == Sum && e[name].value != 0 && total[name].value != U64_MAX;
      assert MergeEntries(total, e)[name] == MergeAt(total, e, name) != total[name];
    }
  }

  lemma {:induction false} PeakIsBelow(parts: seq<Entries>, i: nat, name: string)
    requires i < |parts| && name in parts[i]
    ensures parts[i][name].value <= FieldMax(parts, name)
  {
    if i < |parts| - 1 { PeakIsBelow(parts[..|parts| - 1], i, name); }
  }

  /**
   A scan that returned a key twice would have the bucket rolled up twice. That leaves its
   interval as it was if and only if every sum in the bucket is zero or already cut off.
   */
  lemma ListedTwice<K>(buckets: seq<Bucket<K>>, roll: Roll<K>, id: K, i: nat)
    requires CanonicalBuckets(buckets) && i < |buckets| && roll(buckets[i].intervalId) == Some(id)
    ensures
      var once := MergeAll(PartsIn(buckets, roll, id));
      MergeAll(PartsIn(buckets + [buckets[i]], roll, id)) == once <==> Absorbed(once, buckets[i].entries)
  {
    var parts, e := PartsIn(buckets, roll, id), buckets[i].entries;
    PartsInCanonical(buckets, roll, id);
    PartsInExtend(buckets, buckets[i], roll, id);
    assert (parts + [e])[..|parts|] == parts;
    var k := PartAt(buckets, roll, id, i);
    MergeAllCanonical(parts);
    forall name | name in e
      ensures name in MergeAll(parts) && (KindOf(name) == Peak ==> e[name].value <= MergeAll(parts)[name].value)
    {
      assert name in parts[k];
      MergeAllMeaning(parts, name);
      PeakIsBelow(parts, k, name);
    }
    MergedAgain(MergeAll(parts), e);
  }

  lemma {:induction false} PartAt<K>(buckets: seq<Bucket<K>>, roll: Roll<K>, id: K, i: nat) returns (k: nat)
    requires i < |buckets| && roll(buckets[i].intervalId) == Some(id)
    ensures k < |PartsIn(buckets, roll, id)| && PartsIn(buckets, roll, id)[k] == buckets[i].entries
  {
    if i == |buckets| - 1 {
      k := |PartsIn(buckets[..i], roll, id)|;
    } else {
      k := PartAt(buckets[..|buckets| - 1], roll, id, i);
    }
  }

  // ------------------------------------------------------ the calendar's rollup

  /** Ids as the code stores them: formatted civil minutes. */
  ghost predicate MinuteIds(buckets: seq<Bucket<string>>) {
    forall i | 0 <= i < |buckets| :: IsMinuteId(buckets[i].intervalId)
  }

  ghost predicate IsMinuteId(id: string) {
    exists c :: Valid(c) && id == Format(Minute, c)
  }

  /** The id names a minute of the unit-`u` interval that contains `c`. */
  predicate InInterval(u: Unit, c: Civil, id: string) {
    match ParseIntervalStart(id)
    case Some(m) => Truncate(u, m) == Truncate(u, c)
    case None => false
  }

  /** The buckets of the minutes of that interval, in list order. */
  function MinutesIn(buckets: seq<Bucket<string>>, u: Unit, c: Civil): seq<Entries> {
    if buckets == [] then [] else
      var last := buckets[|buckets| - 1];
      MinutesIn(buckets[..|buckets| - 1], u, c) + if InInterval(u, c, last.intervalId) then [last.entries] else []
  }

  lemma RollsToItsInterval(id: string, u: Unit, c: Civil)
    requires IsMinuteId(id) && Valid(c)
    ensures ToUnit(u)(id).Some?
    ensures ToUnit(u)(id) == Some(Format(u, c)) <==> InInterval(u, c, id)
  {
    var m :| Valid(m) && id == Format(Minute, m);
    RollupTwice(u, u, m);
    ParseFormat(Minute, m);
    IdOrder(u, m, c);
  }

  lemma {:induction false} PartsAreMinutes(buckets: seq<Bucket<string>>, u: Unit, c: Civil)
    requires MinuteIds(buckets) && Valid(c)
    ensures PartsIn(buckets, ToUnit(u), Format(u, c)) == MinutesIn(buckets, u, c)
  {
    if buckets != [] {
      var n := |buckets| - 1;
      assert IsMinuteId(buckets[n].intervalId);
      PartsAreMinutes(buckets[..n], u, c);
      RollsToItsInterval(buckets[n].intervalId, u, c);
    }
  }

  /**
   A query's rollup of stored minutes, against the calendar: the interval of unit `u` around
   any minute `c` is present iff a stored minute lies in it, and each of its fields is the
   maximum (peaks) or the 64-bit saturated true sum over exactly the stored minutes that
   fall into it.
   */
  lemma RollupMeaning(buckets: seq<Bucket<string>>, u: Unit, rollups: map<string, Entries>, c: Civil, name: string)
    requires CanonicalBuckets(buckets) && MinuteIds(buckets) && Valid(c) && IsRollup(buckets, ToUnit(u), rollups)
    ensures Format(u, c) in rollups <==> MinutesIn(buckets, u, c) != []
    ensures Format(u, c) in rollups ==>
              var rolled, minutes := rollups[Format(u, c)], MinutesIn(buckets, u, c);
              && (name in rolled <==> Mentions(minutes, name))
              && (name in rolled ==> rolled[name].value == FieldMeaning(minutes, name))
  {
    PartsAreMinutes(buckets, u, c);
    PartsInEmpty(buckets, ToUnit(u), Format(u, c));
    if Format(u, c) in rollups { GroupMeaning(buckets, ToUnit(u), rollups, Format(u, c), name); }
  }

  /** Nothing else is in the rollup. */
  lemma RollupsAreIntervals(buckets: seq<Bucket<string>>, u: Unit, rollups: map<string, Entries>, id: string)
    returns (c: Civil)
    requires MinuteIds(buckets) && IsRollup(buckets, ToUnit(u), rollups) && id in rollups
    ensures Valid(c) && id == Format(u, c)
  {
    var i :| 0 <= i < |buckets| && ToUnit(u)(buckets[i].intervalId) == Some(id);
    assert IsMinuteId(buckets[i].intervalId);
    c :| Valid(c) && buckets[i].intervalId == Format(Minute, c);
    RollupTwice(u, u, c);
  }

  // ------------------------------------------------------------- two hops

  /** Rollups read back as a list of buckets. */
  function Listed<K>(rollups: map<K, Entries>, ids: seq<K>): seq<Bucket<K>>
    requires forall i | 0 <= i < |ids| :: ids[i] in rollups
  {
    seq(|ids|, i requires 0 <= i < |ids| => Bucket(ids[i], rollups[ids[i]]))
  }

  /** The minutes below the fine intervals `ids` that lie in the coarse interval `id`. */
  function Flat<K(==)>(buckets: seq<Bucket<K>>, fine: Roll<K>, coarse: Roll<K>, id: K, ids: seq<K>): seq<Entries> {
    if ids == [] then [] else
      var last := ids[|ids| - 1];
      Flat(buckets, fine, coarse, id, ids[..|ids| - 1]) +
      if coarse(last) == Some(id) then PartsIn(buckets, fine, last) else []
  }

  /** Where a new minute shows up in the flattened list: once, if its interval is listed. */
  function FlatGain<K(==)>(b: Bucket<K>, fine: Roll<K>, coarse: Roll<K>, id: K, ids: seq<K>): multiset<Entries> {
    match fine(b.intervalId)
    case Some(f) => if f in ids && coarse(f) == Some(id) then multiset{b.entries} else multiset{}
    case None => multiset{}
  }

  lemma GainSplits<K>(b: Bucket<K>, fine: Roll<K>, coarse: Roll<K>, id: K, front: seq<K>, last: K)
    requires last !in front
    ensures FlatGain(b, fine, coarse, id, front + [last]) ==
            if fine(b.intervalId) == Some(last) && coarse(last) == Some(id) then multiset{b.entries}
            else FlatGain(b, fine, coarse, id, front)
    ensures fine(b.intervalId) == Some(last) ==> FlatGain(b, fine, coarse, id, front) == multiset{}
  {}

  lemma FlatSnoc<K>(buckets: seq<Bucket<K>>, fine: Roll<K>, coarse: Roll<K>, id: K, ids: seq<K>, last: K)
    ensures multiset(Flat(buckets, fine, coarse, id, ids + [last])) ==
            multiset(Flat(buckets, fine, coarse, id, ids)) +
            if coarse(last) == Some(id) then multiset(PartsIn(buckets, fine, last)) else multiset{}
  {
    assert (ids + [last])[..|ids|] == ids;
  }

  /** One more fine interval in the list. */
  lemma FlatExtendLast<K>(
    buckets: seq<Bucket<K>>, b: Bucket<K>, fine: Roll<K>, coarse: Roll<K>, id: K, front: seq<K>, last: K)
    requires last !in front
    requires multiset(Flat(buckets + [b], fine, coarse, id, front)) ==
             multiset(Flat(buckets, fine, coarse, id, front)) + FlatGain(b, fine, coarse, id, front)
    ensures multiset(Flat(buckets + [b], fine, coarse, id, front + [last])) ==
            multiset(Flat(buckets, fine, coarse, id, front + [last])) + FlatGain(b, fine, coarse, id, front + [last])
  {
    FlatSnoc(buckets, fine, coarse, id, front, last);
    FlatSnoc(buckets + [b], fine, coarse, id, front, last);
    PartsInExtend(buckets, b, fine, last);
    GainSplits(b, fine, coarse, id, front, last);
    if coarse(last) == Some(id) && fine(b.intervalId) == Some(last) {
      assert multiset(PartsIn(buckets + [b], fine, last)) ==
               multiset(PartsIn(buckets, fine, last)) + multiset{b.entries};
    }
  }

  lemma {:induction false} FlatExtend<K>(
    buckets: seq<Bucket<K>>, b: Bucket<K>, fine: Roll<K>, coarse: Roll<K>, id: K, ids: seq<K>)
    requires NoDuplicates(ids)
    ensures multiset(Flat(buckets + [b], fine, coarse, id, ids)) ==
            multiset(Flat(buckets, fine, coarse, id, ids)) + FlatGain(b, fine, coarse, id, ids)
    decreases |ids|
  {
    if ids != [] {
      var front, last := ids[..|ids| - 1], ids[|ids| - 1];
      FlatExtend(buckets, b, fine, coarse, id, front);
      assert ids == front + [last] && last !in front;
      FlatExtendLast(buckets, b, fine, coarse, id, front, last);
    }
  }

  lemma {:induction false} FlatNothing<K>(fine: Roll<K>, coarse: Roll<K>, id: K, ids: seq<K>)
    ensures Flat([], fine, coarse, id, ids) == []
  {
    if ids != [] { FlatNothing(fine, coarse, id, ids[..|ids| - 1]); }
  }

  /** Going through the fine unit reaches the same coarse interval. */
  ghost predicate Refines<K>(buckets: seq<Bucket<K>>, fine: Roll<K>, coarse: Roll<K>) {
    forall i | 0 <= i < |buckets| ::
      fine(buckets[i].intervalId).Some? &&
      coarse(fine(buckets[i].intervalId).value) == coarse(buckets[i].intervalId)
  }

  lemma {:induction false} FlatIsPartsIn<K>(buckets: seq<Bucket<K>>, fine: Roll<K>, coarse: Roll<K>, id: K, ids: seq<K>)
    requires NoDuplicates(ids) && Refines(buckets, fine, coarse)
    requires forall f | f in RollupIds(buckets, fine) :: f in ids
    ensures multiset(Flat(buckets, fine, coarse, id, ids)) == multiset(PartsIn(buckets, coarse, id))
  {
    if buckets == [] {
      FlatNothing(fine, coarse, id, ids);
    } else {
      var front, last := buckets[..|buckets| - 1], buckets[|buckets| - 1];
      assert buckets == front + [last];
      assert Refines(front, fine, coarse);
      RollupIdsExtend(front, last, fine);
      FlatIsPartsIn(front, fine, coarse, id, ids);
      FlatExtend(front, last, fine, coarse, id, ids);
      PartsInExtend(front, last, coarse, id);
    }
  }

  lemma {:induction false} ListedMerge<K>(
    buckets: seq<Bucket<K>>, fine: Roll<K>, coarse: Roll<K>, id: K, rollups: map<K, Entries>, ids: seq<K>)
    requires CanonicalBuckets(buckets) && IsRollup(buckets, fine, rollups)
    requires forall i | 0 <= i < |ids| :: ids[i] in rollups
    ensures AllCanonical(PartsIn(Listed(rollups, ids), coarse, id)) &&
            AllCanonical(Flat(buckets, fine, coarse, id, ids))
    ensures MergeAll(PartsIn(Listed(rollups, ids), coarse, id)) == MergeAll(Flat(buckets, fine, coarse, id, ids))
    decreases |ids|
  {
    if ids != [] {
      var front, last := ids[..|ids| - 1], ids[|ids| - 1];
      ListedMerge(buckets, fine, coarse, id, rollups, front);
      ListedSnoc(rollups, ids, coarse, id);
      var done, flat := PartsIn(Listed(rollups, front), coarse, id), Flat(buckets, fine, coarse, id, front);
      var parts := PartsIn(buckets, fine, last);
      assert rollups[last] == MergeAll(parts);
      if coarse(last) == Some(id) {
        PartsInCanonical(buckets, fine, last);
        MergeLast(done, flat, parts);
        assert Flat(buckets, fine, coarse, id, ids) == flat + parts;
      } else {
        assert Flat(buckets, fine, coarse, id, ids) == flat + [] == flat;
      }
    }
  }

  lemma ListedSnoc<K>(rollups: map<K, Entries>, ids: seq<K>, coarse: Roll<K>, id: K)
    requires ids != [] && forall i | 0 <= i < |ids| :: ids[i] in rollups
    ensures
      var front, last := ids[..|ids| - 1], ids[|ids| - 1];
      PartsIn(Listed(rollups, ids), coarse, id) ==
      if coarse(last) == Some(id) then PartsIn(Listed(rollups, front), coarse, id) + [rollups[last]]
      else PartsIn(Listed(rollups, front), coarse, id)
  {
    var front, last := ids[..|ids| - 1], ids[|ids| - 1];
    assert Listed(rollups, ids) == Listed(rollups, front) + [Bucket(last, rollups[last])];
    PartsInExtend(Listed(rollups, front), Bucket(last, rollups[last]), coarse, id);
  }

  lemma MergeLast(done: seq<Entries>, flat: seq<Entries>, parts: seq<Entries>)
    requires AllCanonical(done) && AllCanonical(flat) && AllCanonical(parts) && MergeAll(done) == MergeAll(flat)
    ensures AllCanonical(done + [MergeAll(parts)]) && AllCanonical(flat + parts)
    ensures MergeAll(done + [MergeAll(parts)]) == MergeAll(flat + parts)
  {
    MergeAllCanonical(parts);
    MergeAllConcat(done, [MergeAll(parts)]);
    MergeAllSingle(MergeAll(parts));
    MergeAllConcat(flat, parts);
  }

  lemma UnitsRefine(buckets: seq<Bucket<string>>, u: Unit, v: Unit)
    requires MinuteIds(buckets) && Rank(u) <= Rank(v)
    ensures Refines(buckets, ToUnit(u), ToUnit(v))
  {
    forall i | 0 <= i < |buckets|
      ensures ToUnit(u)(buckets[i].intervalId).Some?
      ensures ToUnit(v)(ToUnit(u)(buckets[i].intervalId).value) == ToUnit(v)(buckets[i].intervalId)
    {
      assert IsMinuteId(buckets[i].intervalId);
      var c :| Valid(c) && buckets[i].intervalId == Format(Minute, c);
      RollupTwice(u, v, c);
    }
  }

  /** Regrouping the groups is grouping directly, when the fine grouping refines the coarse one. */
  lemma Regrouped<K(!new)>(
    buckets: seq<Bucket<K>>, fine: Roll<K>, coarse: Roll<K>, rollups: map<K, Entries>, ids: seq<K>, id: K)
    requires CanonicalBuckets(buckets) && IsRollup(buckets, fine, rollups) && Refines(buckets, fine, coarse)
    requires NoDuplicates(ids) && (forall k :: k in ids <==> k in rollups)
    ensures MergeAll(PartsIn(Listed(rollups, ids), coarse, id)) == MergeAll(PartsIn(buckets, coarse, id))
  {
    ListedMerge(buckets, fine, coarse, id, rollups, ids);
    FlatIsPartsIn(buckets, fine, coarse, id, ids);
    MergeAllPermutation(Flat(buckets, fine, coarse, id, ids), PartsIn(buckets, coarse, id));
  }

  /**
   Rolling minutes up to a unit and that result up again gives the same bucket as rolling
   the minutes up directly, for every interval of the coarser unit.
   */
  lemma RollupInTwoHops(
    buckets: seq<Bucket<string>>, u: Unit, v: Unit, rollups: map<string, Entries>, ids: seq<string>, id: string)
    requires CanonicalBuckets(buckets) && MinuteIds(buckets) && Rank(u) <= Rank(v)
    requires IsRollup(buckets, ToUnit(u), rollups)
    requires NoDuplicates(ids) && (forall k :: k in ids <==> k in rollups)
    ensures MergeAll(PartsIn(Listed(rollups, ids), ToUnit(v), id)) == MergeAll(PartsIn(buckets, ToUnit(v), id))
  {
    UnitsRefine(buckets, u, v);
    Regrouped(buckets, ToUnit(u), ToUnit(v), rollups, ids, id);
  }
}
