/**
 Statistics fixtures: nested objects flattened into dotted counters, with limits on names,
 fields and depth, and a total over all transports added where the fixture gives none.
 */
module StatsFixtures {
  import opened Prelude
  import opened StatsBuckets
  import opened LegacyStats
  import opened StatsCalendar
  import Utf8

  const MAX_FIELDS: nat := 2048
  const MAX_NAME_BYTES: nat := 256
  const MAX_DEPTH: nat := 16

  datatype FixtureError = NotAnObject | NoIntervalId | BadInterval | NameTooLong | TooManyFields | TooDeep

  type Value = Json<string>

  /** The dotted name of a path. */
  function Name(path: seq<string>): string {
    if path == [] then "" else Join(path)
  }

  lemma {:induction false} NameAppend(path: seq<string>, key: string)
    requires path != []
    ensures Name(path + [key]) == Name(path) + "." + key
  {
    if |path| == 1 {
      assert (path + [key])[1..] == [key] && Join([key]) == key;
    } else {
      NameAppend(path[1..], key);
      assert (path + [key])[1..] == path[1..] + [key];
    }
  }

  // ------------------------------------------------------- what a value contributes

  /** Every unsigned number below a value, with its path, in the order it is visited. */
  function Leaves(path: seq<string>, v: Value): seq<Leaf<string>>
    decreases v
  {
    match v
    case Number(n) => [Leaf(path, n)]
    case Object(fields) => FieldLeaves(path, v, SortedKeys(fields.Keys))
    case _ => []
  }

  function FieldLeaves(path: seq<string>, v: Value, keys: seq<string>): seq<Leaf<string>>
    requires v.Object? && forall k | k in keys :: k in v.fields
    decreases v, keys
  {
    if keys == [] then [] else Leaves(path + [keys[0]], v.fields[keys[0]]) + FieldLeaves(path, v, keys[1..])
  }

  /** Names short enough, objects not too deep. */
  predicate Within(path: seq<string>, v: Value, depth: nat)
    decreases v
  {
    Utf8.Length(Name(path)) <= 256 &&
    (v.Object? ==> depth < 16 && forall k | k in v.fields :: Within(path + [k], v.fields[k], depth + 1))
  }

  function LeafEntry(c: Leaf<string>): Entries {
    OneField(Name(c.path), c.value, KindOf(Name(c.path)))
  }

  function LeafEntries(cs: seq<Leaf<string>>): seq<Entries> {
    seq(|cs|, i requires 0 <= i < |cs| => LeafEntry(cs[i]))
  }

  function AddAll(e: Entries, cs: seq<Leaf<string>>): Entries {
    if cs == [] then e else MergeEntries(AddAll(e, cs[..|cs| - 1]), LeafEntry(cs[|cs| - 1]))
  }

  lemma {:induction false} AddAllConcat(e: Entries, a: seq<Leaf<string>>, b: seq<Leaf<string>>)
    ensures AddAll(e, a + b) == AddAll(AddAll(e, a), b)
  {
    if b == [] {
      assert a + b == a;
    } else {
      AddAllConcat(e, a, b[..|b| - 1]);
      assert (a + b)[..|a + b| - 1] == a + b[..|b| - 1];
    }
  }

  lemma {:induction false} AddAllGrows(e: Entries, cs: seq<Leaf<string>>)
    ensures e.Keys <= AddAll(e, cs).Keys && |e| <= |AddAll(e, cs)|
  {
    if cs != [] { AddAllGrows(e, cs[..|cs| - 1]); }
    KeysFit(e, AddAll(e, cs));
  }

  lemma {:induction false} AddAllIsMergeAll(cs: seq<Leaf<string>>)
    ensures AddAll(map[], cs) == MergeAll(LeafEntries(cs))
  {
    if cs != [] {
      AddAllIsMergeAll(cs[..|cs| - 1]);
      assert LeafEntries(cs)[..|cs| - 1] == LeafEntries(cs[..|cs| - 1]);
    }
  }

  // ---------------------------------------------------------------- collection

  function Collect(path: seq<string>, v: Value, e: Entries, depth: nat): Result<Entries, FixtureError>
    decreases v
  {
    var name := Name(path);
    if Utf8.Length(name) > MAX_NAME_BYTES then Err(NameTooLong)
    else
      match v
      case Number(n) =>
        if name !in e && |e| >= MAX_FIELDS then Err(TooManyFields) else Ok(MergeEntries(e, LeafEntry(Leaf(path, n))))
      case Object(fields) =>
        if depth >= MAX_DEPTH then Err(TooDeep) else CollectFields(path, v, SortedKeys(fields.Keys), e, depth)
      case _ => Ok(e)
  }

  function CollectFields(
    path: seq<string>, v: Value, keys: seq<string>, e: Entries, depth: nat): Result<Entries, FixtureError>
    requires v.Object? && forall k | k in keys :: k in v.fields
    decreases v, keys
  {
    if keys == [] then Ok(e)
    else
      match Collect(path + [keys[0]], v.fields[keys[0]], e, depth + 1)
      case Err(error) => Err(error)
      case Ok(more) => CollectFields(path, v, keys[1..], more, depth)
  }

  /** What collecting a list of counters into `e` must give. */
  ghost predicate Collects(r: Result<Entries, FixtureError>, e: Entries, cs: seq<Leaf<string>>, within: bool) {
    if within && |AddAll(e, cs)| <= MAX_FIELDS then r == Ok(AddAll(e, cs)) else r.Err?
  }

  /** Collection adds exactly the leaves, or fails exactly when a limit is exceeded. */
  lemma {:induction false} CollectMeaning(path: seq<string>, v: Value, e: Entries, depth: nat)
    requires |e| <= MAX_FIELDS
    ensures Collects(Collect(path, v, e, depth), e, Leaves(path, v), Within(path, v, depth))
    decreases v
  {
    if v.Object? {
      if Utf8.Length(Name(path)) <= MAX_NAME_BYTES && depth < MAX_DEPTH {
        FieldsMeaning(path, v, SortedKeys(v.fields.Keys), e, depth);
      }
    } else if v.Number? {
      OneLeaf(path, v.n, e);
    }
  }

  lemma OneLeaf(path: seq<string>, n: U64, e: Entries)
    requires |e| <= MAX_FIELDS
    ensures AddAll(e, [Leaf(path, n)]) == MergeEntries(e, LeafEntry(Leaf(path, n)))
    ensures |AddAll(e, [Leaf(path, n)])| <= MAX_FIELDS <==> Name(path) in e || |e| < MAX_FIELDS
  {
    var c := Leaf(path, n);
    assert AddAll(e, [c][..0]) == e;
    MergeSize(e, LeafEntry(c), Name(path));
  }

  lemma MergeSize(e: Entries, one: Entries, name: string)
    requires one.Keys == {name}
    ensures |MergeEntries(e, one)| == if name in e then |e| else |e| + 1
  {
    assert MergeEntries(e, one).Keys == e.Keys + {name};
    OneMoreKey(e, MergeEntries(e, one), name);
  }

  lemma OneMoreKey<K, V>(a: map<K, V>, b: map<K, V>, k: K)
    requires b.Keys == a.Keys + {k}
    ensures |b| == if k in a then |a| else |a| + 1
  {
    assert |a.Keys| == |a| && |b.Keys| == |b|;
    if k in a { assert b.Keys == a.Keys; }
  }

  ghost predicate FieldsWithin(path: seq<string>, v: Value, keys: seq<string>, depth: nat)
    requires v.Object? && forall k | k in keys :: k in v.fields
  {
    forall k | k in keys :: Within(path + [k], v.fields[k], depth + 1)
  }

  lemma {:induction false} FieldsMeaning(path: seq<string>, v: Value, keys: seq<string>, e: Entries, depth: nat)
    requires v.Object? && (forall k | k in keys :: k in v.fields) && |e| <= MAX_FIELDS
    ensures Collects(CollectFields(path, v, keys, e, depth),
              e, FieldLeaves(path, v, keys), FieldsWithin(path, v, keys, depth))
    decreases v, keys
  {
    if keys != [] {
      var k := keys[0];
      var first, rest := Leaves(path + [k], v.fields[k]), FieldLeaves(path, v, keys[1..]);
      CollectMeaning(path + [k], v.fields[k], e, depth + 1);
      AddAllConcat(e, first, rest);
      AddAllGrows(AddAll(e, first), rest);
      assert FieldsWithin(path, v, keys, depth) <==>
             Within(path + [k], v.fields[k], depth + 1) && FieldsWithin(path, v, keys[1..], depth);
      if |AddAll(e, first)| <= MAX_FIELDS { FieldsMeaning(path, v, keys[1..], AddAll(e, first), depth); }
    }
  }

  /** The recursion as the code runs it, on the bucket being filled. */
  method CollectNumbers(bucket: StatsBucket, prefix: string, v: Value, depth: nat, ghost path: seq<string>)
    returns (error: Option<FixtureError>)
    requires path != [] && prefix == Name(path)
    modifies bucket
    ensures Collect(path, v, old(bucket.entries), depth).Ok? ==>
              error == None && bucket.entries == Collect(path, v, old(bucket.entries), depth).value
    ensures Collect(path, v, old(bucket.entries), depth).Err? ==>
              error == Some(Collect(path, v, old(bucket.entries), depth).error)
    decreases v, 1
  {
    if Utf8.Length(prefix) > MAX_NAME_BYTES { return Some(NameTooLong); }
    if v.Number? {
      if prefix !in bucket.entries && |bucket.entries| >= MAX_FIELDS { return Some(TooManyFields); }
      bucket.Add(prefix, v.n, if EndsWith(prefix, ".peak") then Peak else Sum);
    } else if v.Object? {
      if depth >= MAX_DEPTH { return Some(TooDeep); }
      error := CollectObject(bucket, prefix, v, depth, path);
      return;
    }
    return None;
  }

  method CollectObject(bucket: StatsBucket, prefix: string, v: Value, depth: nat, ghost path: seq<string>)
    returns (error: Option<FixtureError>)
    requires path != [] && prefix == Name(path) && v.Object?
    modifies bucket
    ensures
      var r := CollectFields(path, v, SortedKeys(v.fields.Keys), old(bucket.entries), depth);
      if r.Ok? then error == None && bucket.entries == r.value else error == Some(r.error)
    decreases v, 0
  {
    var keys := SortedKeys(v.fields.Keys);
    ghost var goal := CollectFields(path, v, keys, bucket.entries, depth);
    assert keys[0..] == keys;
    for i := 0 to |keys|
      invariant CollectFields(path, v, keys[i..], bucket.entries, depth) == goal
    {
      var k := keys[i];
      assert keys[i..][0] == k && keys[i..][1..] == keys[i + 1..];
      NameAppend(path, k);
      error := CollectNumbers(bucket, prefix + "." + k, v.fields[k], depth + 1, path + [k]);
      if error.Some? { return; }
    }
    return None;
  }

  // -------------------------------------------------------------- whole fixtures

  /** A value to collect, and the path its counters start from. */
  datatype Root = Root(path: seq<string>, value: Value)

  function TransportRoots(direction: string, transports: Value, keys: seq<string>): seq<Root>
    requires transports.Object? && forall k | k in keys :: k in transports.fields
  {
    if keys == [] then [] else
      OneTransport(direction, transports, keys[0]) + TransportRoots(direction, transports, keys[1..])
  }

  /** A transport also counts towards "all" if the fixture has no such entry. */
  function OneTransport(direction: string, transports: Value, t: string): seq<Root>
    requires transports.Object? && t in transports.fields
  {
    var own := Root(["messages", direction, t], transports.fields[t]);
    if t != "all" && "all" !in transports.fields then [Root(["messages", direction, "all"], transports.fields[t]), own]
    else [own]
  }

  function DirectionRoots(fields: Fields<string>, direction: string): seq<Root> {
    if direction in fields && fields[direction].Object?
    then TransportRoots(direction, fields[direction], SortedKeys(fields[direction].fields.Keys)) else []
  }

  predicate Skipped(name: string) {
    name == "intervalId" || name == "inbound" || name == "outbound"
  }

  function OtherRoots(fields: Fields<string>, keys: seq<string>): seq<Root>
    requires forall k | k in keys :: k in fields
  {
    if keys == [] then [] else
      (if Skipped(keys[0]) then [] else [Root([keys[0]], fields[keys[0]])]) + OtherRoots(fields, keys[1..])
  }

  function Roots(fields: Fields<string>): seq<Root> {
    DirectionRoots(fields, "inbound") + DirectionRoots(fields, "outbound") + OtherRoots(fields, SortedKeys(fields.Keys))
  }

  function CollectRoots(roots: seq<Root>, e: Entries): Result<Entries, FixtureError> {
    if roots == [] then Ok(e)
    else
      match Collect(roots[0].path, roots[0].value, e, 0)
      case Err(error) => Err(error)
      case Ok(more) => CollectRoots(roots[1..], more)
  }

  function AllLeaves(roots: seq<Root>): seq<Leaf<string>> {
    if roots == [] then [] else Leaves(roots[0].path, roots[0].value) + AllLeaves(roots[1..])
  }

  ghost predicate RootsWithin(roots: seq<Root>) {
    forall i | 0 <= i < |roots| :: Within(roots[i].path, roots[i].value, 0)
  }

  lemma {:induction false} RootsMeaning(roots: seq<Root>, e: Entries)
    requires |e| <= MAX_FIELDS
    ensures Collects(CollectRoots(roots, e), e, AllLeaves(roots), RootsWithin(roots))
  {
    if roots != [] {
      var first, rest := Leaves(roots[0].path, roots[0].value), AllLeaves(roots[1..]);
      CollectMeaning(roots[0].path, roots[0].value, e, 0);
      AddAllConcat(e, first, rest);
      AddAllGrows(AddAll(e, first), rest);
      assert RootsWithin(roots) <==> Within(roots[0].path, roots[0].value, 0) && RootsWithin(roots[1..]);
      if |AddAll(e, first)| <= MAX_FIELDS { RootsMeaning(roots[1..], AddAll(e, first)); }
    }
  }

  lemma {:induction false} CollectRootsConcat(a: seq<Root>, b: seq<Root>, e: Entries)
    ensures CollectRoots(a + b, e) ==
              match CollectRoots(a, e) case Ok(more) => CollectRoots(b, more) case Err(error) => Err(error)
  {
    if a == [] {
      assert a + b == b;
    } else {
      assert (a + b)[1..] == a[1..] + b;
      if Collect(a[0].path, a[0].value, e, 0).Ok? {
        CollectRootsConcat(a[1..], b, Collect(a[0].path, a[0].value, e, 0).value);
      }
    }
  }

  lemma OneRoot(r: Root, e: Entries)
    ensures CollectRoots([r], e) == Collect(r.path, r.value, e, 0)
  {
    assert [r][1..] == [];
  }

  /** The minute the fixture is for. */
  function FixtureInterval(fields: Fields<string>): Result<string, FixtureError> {
    if "intervalId" !in fields || !fields["intervalId"].Text? then Err(NoIntervalId)
    else
      var id := fields["intervalId"].s;
      match ParseIntervalStart(id)
      case None => Err(BadInterval)
      case Some(c) => if |id| != 16 then Err(BadInterval) else Ok(IntervalId(Minute, StartMs(c)))
  }

  /** The bucket a fixture stands for. */
  function FixtureEntries(fixture: Value): Result<Entries, FixtureError> {
    if !fixture.Object? then Err(NotAnObject)
    else if FixtureInterval(fixture.fields).Err? then Err(FixtureInterval(fixture.fields).error)
    else CollectRoots(Roots(fixture.fields), map[])
  }

  /** The outcome of collecting `roots` into a bucket that held `before`. */
  ghost predicate Outcome(error: Option<FixtureError>, after: Entries, r: Result<Entries, FixtureError>) {
    if r.Ok? then error == None && after == r.value else error == Some(r.error)
  }

  method CollectDirection(bucket: StatsBucket, direction: string, transports: Value)
    returns (error: Option<FixtureError>)
    requires transports.Object?
    modifies bucket
    ensures
      var roots := TransportRoots(direction, transports, SortedKeys(transports.fields.Keys));
      Outcome(error, bucket.entries, CollectRoots(roots, old(bucket.entries)))
  {
    var keys := SortedKeys(transports.fields.Keys);
    ghost var goal := CollectRoots(TransportRoots(direction, transports, keys), bucket.entries);
    assert keys[0..] == keys;
    for i := 0 to |keys|
      invariant CollectRoots(TransportRoots(direction, transports, keys[i..]), bucket.entries) == goal
    {
      var t := keys[i];
      assert keys[i..][0] == t && keys[i..][1..] == keys[i + 1..];
      CollectRootsConcat(OneTransport(direction, transports, t),
        TransportRoots(direction, transports, keys[i + 1..]), bucket.entries);
      error := CollectTransport(bucket, direction, transports, t);
      if error.Some? { return; }
    }
    return None;
  }

  method CollectTransport(bucket: StatsBucket, direction: string, transports: Value, t: string)
    returns (error: Option<FixtureError>)
    requires transports.Object? && t in transports.fields
    modifies bucket
    ensures Outcome(error, bucket.entries, CollectRoots(OneTransport(direction, transports, t), old(bucket.entries)))
  {
    var hasExplicitAll := "all" in transports.fields;
    ghost var own := Root(["messages", direction, t], transports.fields[t]);
    ghost var all := Root(["messages", direction, "all"], transports.fields[t]);
    OneRoot(all, bucket.entries);
    assert [all] + [own] == [all, own];
    CollectRootsConcat([all], [own], bucket.entries);
    if t != "all" && !hasExplicitAll {
      MessageName(direction, "all");
      var name := "messages." + direction + ".all";
      error := CollectNumbers(bucket, name, transports.fields[t], 0, ["messages", direction, "all"]);
      if error.Some? { return; }
    }
    OneRoot(own, bucket.entries);
    MessageName(direction, t);
    var name := "messages." + direction + "." + t;
    error := CollectNumbers(bucket, name, transports.fields[t], 0, ["messages", direction, t]);
  }

  lemma MessageName(direction: string, t: string)
    ensures Name(["messages", direction, t]) == "messages." + direction + "." + t
  {
    NameAppend(["messages", direction], t);
    assert ["messages", direction] + [t] == ["messages", direction, t];
    NameAppend(["messages"], direction);
    assert ["messages"] + [direction] == ["messages", direction];
    assert Name(["messages"]) == "messages";
    assert "messages" + "." == "messages.";
  }

  method CollectOthers(bucket: StatsBucket, fields: Fields<string>) returns (error: Option<FixtureError>)
    modifies bucket
    ensures
      var roots := OtherRoots(fields, SortedKeys(fields.Keys));
      Outcome(error, bucket.entries, CollectRoots(roots, old(bucket.entries)))
  {
    var keys := SortedKeys(fields.Keys);
    ghost var goal := CollectRoots(OtherRoots(fields, keys), bucket.entries);
    assert keys[0..] == keys;
    for i := 0 to |keys|
      invariant CollectRoots(OtherRoots(fields, keys[i..]), bucket.entries) == goal
    {
      assert keys[i..][0] == keys[i] && keys[i..][1..] == keys[i + 1..];
      ghost var tail := OtherRoots(fields, keys[i + 1..]);
      if Skipped(keys[i]) {
        assert OtherRoots(fields, keys[i..]) == tail;
        continue;
      }
      assert OtherRoots(fields, keys[i..]) == [Root([keys[i]], fields[keys[i]])] + tail;
      assert OtherRoots(fields, keys[i..])[1..] == tail;
      error := CollectNumbers(bucket, keys[i], fields[keys[i]], 0, [keys[i]]);
      if error.Some? { return; }
    }
    return None;
  }

  /** The whole conversion: both directions, then every other field. */
  method BucketFromFixture(appId: string, fixture: Value) returns (r: Result<StatsBucket, FixtureError>)
    ensures r.Err? <==> FixtureEntries(fixture).Err?
    ensures r.Err? ==> r.error == FixtureEntries(fixture).error
    ensures r.Ok? ==> fresh(r.value) && r.value.appId == appId && r.value.entries == FixtureEntries(fixture).value
    ensures r.Ok? ==> Ok(r.value.intervalId) == FixtureInterval(fixture.fields)
  {
    if !fixture.Object? { return Err(NotAnObject); }
    var fields := fixture.fields;
    var interval := FixtureInterval(fields);
    if interval.Err? { return Err(interval.error); }
    var bucket := new StatsBucket(appId, interval.value);
    ghost var inbound, outbound := DirectionRoots(fields, "inbound"), DirectionRoots(fields, "outbound");
    ghost var others := OtherRoots(fields, SortedKeys(fields.Keys));
    CollectRootsConcat(inbound + outbound, others, map[]);
    CollectRootsConcat(inbound, outbound, map[]);
    var error := None;
    if "inbound" in fields && fields["inbound"].Object? {
      error := CollectDirection(bucket, "inbound", fields["inbound"]);
      if error.Some? { return Err(error.value); }
    }
    if "outbound" in fields && fields["outbound"].Object? {
      error := CollectDirection(bucket, "outbound", fields["outbound"]);
      if error.Some? { return Err(error.value); }
    }
    error := CollectOthers(bucket, fields);
    if error.Some? { return Err(error.value); }
    return Ok(bucket);
  }

  lemma LeavesCanonical(cs: seq<Leaf<string>>)
    ensures Canonical(MergeAll(LeafEntries(cs)))
  {
    MergeAllCanonical(LeafEntries(cs));
  }

  /** What collecting the roots into an empty bucket gives. */
  lemma RootsBucket(roots: seq<Root>)
    ensures
      var collected, bucket := CollectRoots(roots, map[]), MergeAll(LeafEntries(AllLeaves(roots)));
      if RootsWithin(roots) && |bucket| <= MAX_FIELDS then collected == Ok(bucket) else collected.Err?
  {
    RootsMeaning(roots, map[]);
    AddAllIsMergeAll(AllLeaves(roots));
  }

  /**
   A fixture is accepted exactly when it names a minute and keeps every limit; its bucket is
   then the merge of its leaves and every field has the kind its name says.
   */
  lemma FixtureMeaning(fixture: Value)
    ensures FixtureEntries(fixture).Ok? <==>
            fixture.Object? && FixtureInterval(fixture.fields).Ok? && RootsWithin(Roots(fixture.fields))
            && |MergeAll(LeafEntries(AllLeaves(Roots(fixture.fields))))| <= 2048
    ensures FixtureEntries(fixture).Ok? ==>
              && FixtureEntries(fixture).value == MergeAll(LeafEntries(AllLeaves(Roots(fixture.fields))))
              && Canonical(FixtureEntries(fixture).value)
  {
    if fixture.Object? {
      RootsBucket(Roots(fixture.fields));
      LeavesCanonical(AllLeaves(Roots(fixture.fields)));
    }
  }
}
