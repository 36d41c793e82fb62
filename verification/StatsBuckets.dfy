/**
 The per-minute bucket algebra of the statistics engine: named counters that are
 either summed with 64-bit saturation or kept as a peak.
 */
module StatsBuckets {
  import opened Prelude

  datatype Aggregation = Sum | Peak

  datatype FieldValue = FieldValue(value: U64, aggregation: Aggregation)

  type Entries = map<string, FieldValue>

  /** The receiver's aggregation decides, whatever the other side says. */
  function MergeField(current: FieldValue, incoming: FieldValue): FieldValue {
    match current.aggregation
    case Sum => current.(value := SaturatingAdd(current.value, incoming.value))
    case Peak => current.(value := Max(current.value, incoming.value))
  }

  function MergeAt(a: Entries, b: Entries, name: string): FieldValue
    requires name in a || name in b
  {
    if name !in b then a[name] else if name !in a then b[name] else MergeField(a[name], b[name])
  }

  function MergeEntries(a: Entries, b: Entries): Entries {
    map name | name in a.Keys + b.Keys :: MergeAt(a, b, name)
  }

  /** A bucket with a single counter. */
  function OneField(name: string, value: U64, aggregation: Aggregation): Entries {
    map[name := FieldValue(value, aggregation)]
  }

  /** Left fold of `MergeEntries`, as every consumer of the store performs it. */
  function MergeAll(parts: seq<Entries>): Entries {
    if parts == [] then map[] else MergeEntries(MergeAll(parts[..|parts| - 1]), parts[|parts| - 1])
  }

  predicate EndsWith(s: string, suffix: string) {
    |suffix| <= |s| && s[|s| - |suffix|..] == suffix
  }

  /** The aggregation that the name alone determines. */
  function KindOf(name: string): Aggregation {
    if EndsWith(name, ".peak") then Peak else Sum
  }

  ghost predicate Canonical(e: Entries) {
    forall name | name in e :: e[name].aggregation == KindOf(name)
  }

  ghost predicate AllCanonical(parts: seq<Entries>) {
    forall i | 0 <= i < |parts| :: Canonical(parts[i])
  }

  // ---------------------------------------------------------------- algebra

  lemma MergeIdentity(a: Entries)
    ensures MergeEntries(map[], a) == a == MergeEntries(a, map[])
  {}

  lemma MergeCanonical(a: Entries, b: Entries)
    requires Canonical(a) && Canonical(b)
    ensures Canonical(MergeEntries(a, b))
  {}

  /** Merge commutes exactly when the two sides agree on the kind of every shared field. */
  lemma MergeCommutesIff(a: Entries, b: Entries)
    ensures MergeEntries(a, b) == MergeEntries(b, a) <==>
            forall name | name in a && name in b :: a[name].aggregation == b[name].aggregation
  {
    var ab, ba := MergeEntries(a, b), MergeEntries(b, a);
    if ab == ba {
      forall name | name in a && name in b ensures a[name].aggregation == b[name].aggregation {
        assert ab[name] == MergeField(a[name], b[name]) && ba[name] == MergeField(b[name], a[name]);
      }
    }
    if forall name | name in a && name in b :: a[name].aggregation == b[name].aggregation {
      assert ab.Keys == ba.Keys;
      forall name | name in ab ensures ab[name] == ba[name] {
        assert name in a && name in b ==> a[name].aggregation == b[name].aggregation;
      }
    }
  }

  lemma MergeCommutative(a: Entries, b: Entries)
    requires Canonical(a) && Canonical(b)
    ensures MergeEntries(a, b) == MergeEntries(b, a)
  {
    MergeCommutesIff(a, b);
  }

  lemma MergeAssociative(a: Entries, b: Entries, c: Entries)
    requires Canonical(a) && Canonical(b) && Canonical(c)
    ensures MergeEntries(MergeEntries(a, b), c) == MergeEntries(a, MergeEntries(b, c))
  {
    var l, r := MergeEntries(MergeEntries(a, b), c), MergeEntries(a, MergeEntries(b, c));
    assert l.Keys == r.Keys;
    forall name | name in l ensures l[name] == r[name] {
      assert MergeEntries(a, b).Keys == a.Keys + b.Keys;
      assert MergeEntries(b, c).Keys == b.Keys + c.Keys;
    }
  }

  /** Kinds that disagree really break the algebra, so `Canonical` is needed. */
  lemma MixedKindsDoNotCommute()
    ensures exists a: Entries, b: Entries :: MergeEntries(a, b) != MergeEntries(b, a)
  {
    var a: Entries := OneField("x", 1, Sum);
    var b: Entries := OneField("x", 1, Peak);
    MergeCommutesIff(a, b);
    assert "x" in a && "x" in b && a["x"].aggregation != b["x"].aggregation;
    assert MergeEntries(a, b) != MergeEntries(b, a);
  }

  lemma {:induction false} MergeAllCanonical(parts: seq<Entries>)
    requires AllCanonical(parts)
    ensures Canonical(MergeAll(parts))
  {
    if parts != [] {
      MergeAllCanonical(parts[..|parts| - 1]);
      MergeCanonical(MergeAll(parts[..|parts| - 1]), parts[|parts| - 1]);
    }
  }

  /** Batch boundaries do not matter: merging two batches is merging their concatenation. */
  lemma {:induction false} MergeAllConcat(xs: seq<Entries>, ys: seq<Entries>)
    requires AllCanonical(xs) && AllCanonical(ys)
    ensures MergeAll(xs + ys) == MergeEntries(MergeAll(xs), MergeAll(ys))
    decreases |ys|
  {
    if ys == [] {
      assert xs + ys == xs;
      MergeIdentity(MergeAll(xs));
    } else {
      var front, last := ys[..|ys| - 1], ys[|ys| - 1];
      assert (xs + ys)[..|xs + ys| - 1] == xs + front;
      MergeAllConcat(xs, front);
      MergeAllCanonical(xs);
      MergeAllCanonical(front);
      MergeAssociative(MergeAll(xs), MergeAll(front), last);
    }
  }

  lemma MergeAllSingle(e: Entries)
    ensures MergeAll([e]) == e
  {
    assert [e][..0] == [];
    MergeIdentity(e);
  }

  /** Any one part can be moved to the end of the fold. */
  lemma MergeAllMoveLast(parts: seq<Entries>, i: nat)
    requires i < |parts| && AllCanonical(parts)
    ensures MergeAll(parts) == MergeEntries(MergeAll(parts[..i] + parts[i + 1..]), parts[i])
  {
    var pre, x, post := parts[..i], parts[i], parts[i + 1..];
    assert parts == (pre + [x]) + post;
    MergeAllCanonical(pre);
    MergeAllCanonical(post);
    calc {
      MergeAll(parts);
    == { MergeAllConcat(pre + [x], post); }
      MergeEntries(MergeAll(pre + [x]), MergeAll(post));
    == { MergeAllConcat(pre, [x]); MergeAllSingle(x); }
      MergeEntries(MergeEntries(MergeAll(pre), x), MergeAll(post));
    == { MergeAssociative(MergeAll(pre), x, MergeAll(post)); }
      MergeEntries(MergeAll(pre), MergeEntries(x, MergeAll(post)));
    == { MergeCommutative(x, MergeAll(post)); }
      MergeEntries(MergeAll(pre), MergeEntries(MergeAll(post), x));
    == { MergeAssociative(MergeAll(pre), MergeAll(post), x); }
      MergeEntries(MergeEntries(MergeAll(pre), MergeAll(post)), x);
    == { MergeAllConcat(pre, post); }
      MergeEntries(MergeAll(pre + post), x);
    }
  }

  /** Finds, in a permutation of `ys`, the part at index `j` of `ys`. */
  lemma SamePart(xs: seq<Entries>, ys: seq<Entries>, j: nat) returns (i: nat)
    requires multiset(xs) == multiset(ys) && j < |ys|
    ensures i < |xs| && xs[i] == ys[j]
  {
    assert ys[j] in multiset(ys);
    assert ys[j] in xs;
    i :| 0 <= i < |xs| && xs[i] == ys[j];
  }

  lemma PermutationCanonical(xs: seq<Entries>, ys: seq<Entries>)
    requires AllCanonical(xs) && multiset(xs) == multiset(ys)
    ensures AllCanonical(ys)
  {
    forall i | 0 <= i < |ys| ensures Canonical(ys[i]) {
      var _ := SamePart(xs, ys, i);
    }
  }

  /** Arrival order does not matter: the fold depends only on the multiset of parts. */
  lemma {:induction false} MergeAllPermutation(xs: seq<Entries>, ys: seq<Entries>)
    requires AllCanonical(xs) && multiset(xs) == multiset(ys)
    ensures AllCanonical(ys) && MergeAll(xs) == MergeAll(ys)
    decreases |ys|
  {
    PermutationCanonical(xs, ys);
    if ys == [] {
      assert |multiset(xs)| == |xs|;
    } else {
      var last := |ys| - 1;
      var i := SamePart(xs, ys, last);
      RestIsPermutation(xs, ys, i);
      MergeAllPermutation(xs[..i] + xs[i + 1..], ys[..last]);
      MergeAllMoveLast(xs, i);
    }
  }

  lemma RestIsPermutation(xs: seq<Entries>, ys: seq<Entries>, i: nat)
    requires multiset(xs) == multiset(ys) && ys != [] && i < |xs| && xs[i] == ys[|ys| - 1]
    ensures multiset(xs[..i] + xs[i + 1..]) == multiset(ys[..|ys| - 1])
  {
    RemoveAt(xs, i);
    RemoveAt(ys, |ys| - 1);
    assert ys[..|ys| - 1] + ys[|ys| - 1 + 1..] == ys[..|ys| - 1];
  }

  // ------------------------------------------------- what the fold means

  /** The unbounded sum of one field over all parts. */
  function FieldSum(parts: seq<Entries>, name: string): nat {
    if parts == [] then 0 else
      var last := parts[|parts| - 1];
      FieldSum(parts[..|parts| - 1], name) + if name in last then last[name].value else 0
  }

  /** The largest value of one field over all parts. */
  function FieldMax(parts: seq<Entries>, name: string): nat {
    if parts == [] then 0 else
      var last := parts[|parts| - 1];
      Max(FieldMax(parts[..|parts| - 1], name), if name in last then last[name].value else 0)
  }

  predicate Mentions(parts: seq<Entries>, name: string) {
    exists i | 0 <= i < |parts| :: name in parts[i]
  }

  /** The value a field must show: a true maximum, or the true sum cut off at 64 bits once. */
  function FieldMeaning(parts: seq<Entries>, name: string): nat {
    match KindOf(name)
    case Peak => FieldMax(parts, name)
    case Sum => Min(U64_MAX, FieldSum(parts, name))
  }

  /**
   The fold computes exactly the reference meaning: a field is present iff some part
   mentions it, a peak is the maximum, and step-wise saturation equals saturating the
   unbounded sum once.
   */
  lemma {:induction false} MergeAllMeaning(parts: seq<Entries>, name: string)
    requires AllCanonical(parts)
    ensures name in MergeAll(parts) <==> Mentions(parts, name)
    ensures name !in MergeAll(parts) ==> FieldSum(parts, name) == FieldMax(parts, name) == 0
    ensures name in MergeAll(parts) ==>
              MergeAll(parts)[name].aggregation == KindOf(name) &&
              MergeAll(parts)[name].value == FieldMeaning(parts, name)
  {
    if parts != [] {
      var front, last := parts[..|parts| - 1], parts[|parts| - 1];
      MergeAllMeaning(front, name);
      assert Mentions(parts, name) <==> Mentions(front, name) || name in last by {
        if name in last { assert name in parts[|parts| - 1]; }
        if Mentions(front, name) {
          var i :| 0 <= i < |front| && name in front[i];
          assert name in parts[i];
        }
      }
      assert name in last ==> last[name].aggregation == KindOf(name) by {
        assert Canonical(parts[|parts| - 1]);
      }
    }
  }

  /** One more field of the other bucket. */
  lemma MergeOneMore(before: Entries, done: Entries, name: string, value: FieldValue)
    requires name !in done
    ensures
      var merged := MergeEntries(before, done);
      MergeEntries(before, done[name := value]) ==
      if name in merged then merged[name := MergeField(merged[name], value)] else merged[name := value]
  {}

  // ------------------------------------------------------------ the object

  /** A bucket as the code holds it: counters updated in place. */
  class StatsBucket {
    const appId: string
    const intervalId: string
    var entries: Entries

    constructor (appId: string, intervalId: string)
      ensures this.appId == appId && this.intervalId == intervalId && entries == map[]
    {
      this.appId := appId;
      this.intervalId := intervalId;
      entries := map[];
    }

    /** Adding a value is merging a one-field bucket. */
    method Add(name: string, value: U64, aggregation: Aggregation)
      modifies this
      ensures entries == MergeEntries(old(entries), OneField(name, value, aggregation))
    {
      var incoming := FieldValue(value, aggregation);
      if name in entries {
        entries := entries[name := MergeField(entries[name], incoming)];
      } else {
        entries := entries[name := incoming];
      }
      assert entries == MergeEntries(old(entries), map[name := incoming]);
    }

    /** Merges another bucket field by field; the other bucket is only read. */
    method Merge(other: StatsBucket)
      requires other != this
      modifies this
      ensures entries == MergeEntries(old(entries), other.entries)
    {
      var pending := other.entries.Keys;
      ghost var before, done: Entries := entries, map[];
      MergeIdentity(before);
      while pending != {}
        invariant pending <= other.entries.Keys && other.entries == old(other.entries)
        invariant done.Keys == other.entries.Keys - pending && forall n | n in done :: done[n] == other.entries[n]
        invariant entries == MergeEntries(before, done)
        decreases |pending|
      {
        var name :| name in pending;
        var value := other.entries[name];
        MergeOneMore(before, done, name, value);
        if name in entries {
          entries := entries[name := MergeField(entries[name], value)];
        } else {
          entries := entries[name := value];
        }
        pending := pending - {name};
        done := done[name := value];
      }
      assert done == other.entries;
    }
  }
}
