/**
 From a fixture to its bucket and on to the legacy object: every unsigned leaf comes back at
 its own path, and a missing "all" transport comes back as the total over the transports.
 */
module FixtureRoundTrip {
  import opened Prelude
  import opened StatsBuckets
  import opened LegacyStats
  import opened StatsFixtures
  import opened StatsCalendar
  import Utf8

  // --------------------------------------------------------- totals per path

  /** What a list of counters says about one path: nothing, or the sum and maximum of its values. */
  datatype Total = Nothing | Total(sum: int, max: int)

  function One(n: int): Total {
    Total(n, n)
  }

  function Plus(a: Total, b: Total): Total {
    if a.Nothing? then b else if b.Nothing? then a else Total(a.sum + b.sum, Max(a.max, b.max))
  }

  lemma PlusAssociative(a: Total, b: Total, c: Total)
    ensures Plus(a, Plus(b, c)) == Plus(Plus(a, b), c)
  {}

  function Hit<K(==)>(c: Leaf<K>, p: seq<K>): Total {
    if c.path == p then One(c.value) else Nothing
  }

  function TotalAt<K(==)>(cs: seq<Leaf<K>>, p: seq<K>): Total {
    if cs == [] then Nothing else Plus(TotalAt(cs[..|cs| - 1], p), Hit(cs[|cs| - 1], p))
  }

  lemma {:induction false} TotalConcat<K>(a: seq<Leaf<K>>, b: seq<Leaf<K>>, p: seq<K>)
    ensures TotalAt(a + b, p) == Plus(TotalAt(a, p), TotalAt(b, p))
  {
    if b == [] {
      assert a + b == a;
    } else {
      var front, last := b[..|b| - 1], b[|b| - 1];
      TotalConcat(a, front, p);
      assert (a + b)[..|a + b| - 1] == a + front;
      PlusAssociative(TotalAt(a, p), TotalAt(front, p), Hit(last, p));
    }
  }

  /** The unsigned number at the end of a path. */
  function NumberAt<K(==)>(v: Json<K>, rest: seq<K>): Option<U64>
    decreases |rest|
  {
    if rest == [] then (if v.Number? then Some(v.n) else None)
    else if v.Object? && rest[0] in v.fields then NumberAt(v.fields[rest[0]], rest[1..])
    else None
  }

  lemma {:induction false} NumberIsScalar<K>(fields: Fields<K>, path: seq<K>, n: U64)
    requires path != []
    ensures NumberAt(Object(fields), path) == Some(n) <==> ScalarAt(fields, path, Number(n))
    decreases |path|
  {
    if path[0] in fields {
      if |path| == 1 {
        assert path[1..] == [];
      } else if fields[path[0]].Object? {
        NumberIsScalar(fields[path[0]].fields, path[1..], n);
      }
    }
  }

  function Of<K(==)>(v: Json<K>, rest: seq<K>): Total {
    if NumberAt(v, rest).Some? then One(NumberAt(v, rest).value) else Nothing
  }

  /** A root contributes below its path only. */
  function Below(path: seq<string>, v: Value, p: seq<string>): Total {
    if path <= p then Of(v, p[|path|..]) else Nothing
  }

  lemma NumberBelow(path: seq<string>, n: U64, p: seq<string>)
    ensures TotalAt([Leaf(path, n)], p) == Below(path, Number(n), p)
  {
    assert TotalAt([Leaf(path, n)][..0], p) == Nothing;
    if path <= p { assert p[|path|..] == [] <==> p == path; }
  }

  lemma ObjectBelow(path: seq<string>, v: Value, p: seq<string>)
    requires v.Object?
    ensures Below(path, v, p) ==
              if path < p && p[|path|] in v.fields then Of(v.fields[p[|path|]], p[|path| + 1..]) else Nothing
  {
    if path < p { assert p[|path|..][0] == p[|path|] && p[|path|..][1..] == p[|path| + 1..]; }
  }

  /** The leaves collected from a value are its numbers, each once. */
  lemma {:induction false} LeavesTotal(path: seq<string>, v: Value, p: seq<string>)
    ensures TotalAt(Leaves(path, v), p) == Below(path, v, p)
    decreases v
  {
    if v.Number? {
      NumberBelow(path, v.n, p);
    } else if v.Object? {
      SortedDistinct(v.fields.Keys);
      FieldsTotal(path, v, SortedKeys(v.fields.Keys), p);
      ObjectBelow(path, v, p);
    }
  }

  lemma {:induction false} FieldsTotal(path: seq<string>, v: Value, keys: seq<string>, p: seq<string>)
    requires v.Object? && (forall k | k in keys :: k in v.fields) && NoDuplicates(keys)
    ensures TotalAt(FieldLeaves(path, v, keys), p) ==
            if path < p && p[|path|] in keys then Of(v.fields[p[|path|]], p[|path| + 1..]) else Nothing
    decreases v, keys
  {
    if keys != [] {
      var k := keys[0];
      LeavesTotal(path + [k], v.fields[k], p);
      FieldsTotal(path, v, keys[1..], p);
      TotalConcat(Leaves(path + [k], v.fields[k]), FieldLeaves(path, v, keys[1..]), p);
      assert path + [k] <= p <==> path < p && p[|path|] == k;
      assert keys == [k] + keys[1..];
    }
  }

  function RootsTotal(roots: seq<Root>, p: seq<string>): Total {
    if roots == [] then Nothing else Plus(Below(roots[0].path, roots[0].value, p), RootsTotal(roots[1..], p))
  }

  lemma {:induction false} RootsTotalMeaning(roots: seq<Root>, p: seq<string>)
    ensures TotalAt(AllLeaves(roots), p) == RootsTotal(roots, p)
  {
    if roots != [] {
      LeavesTotal(roots[0].path, roots[0].value, p);
      RootsTotalMeaning(roots[1..], p);
      TotalConcat(Leaves(roots[0].path, roots[0].value), AllLeaves(roots[1..]), p);
    }
  }

  lemma {:induction false} RootsTotalConcat(a: seq<Root>, b: seq<Root>, p: seq<string>)
    ensures RootsTotal(a + b, p) == Plus(RootsTotal(a, p), RootsTotal(b, p))
  {
    if a == [] {
      assert a + b == b;
    } else {
      assert (a + b)[1..] == a[1..] + b;
      RootsTotalConcat(a[1..], b, p);
    }
  }

  // -------------------------------------------------- the totals a fixture means

  /** All transports together. */
  function Over(transports: Value, keys: seq<string>, rest: seq<string>): Total
    requires transports.Object? && forall k | k in keys :: k in transports.fields
  {
    if keys == [] then Nothing else Plus(Of(transports.fields[keys[0]], rest), Over(transports, keys[1..], rest))
  }

  /** One transport of a direction; a missing "all" is the total of the others. */
  function Transport(transports: Value, t: string, rest: seq<string>): Total
    requires transports.Object?
  {
    if t in transports.fields then Of(transports.fields[t], rest)
    else if t == "all" then Over(transports, SortedKeys(transports.fields.Keys), rest)
    else Nothing
  }

  predicate IsDirection(name: string) {
    name == "inbound" || name == "outbound"
  }

  /** The total a fixture means at the path of a legacy object. */
  function Expected(fields: Fields<string>, q: seq<string>): Total {
    if q == [] || q[0] !in fields then Nothing
    else if IsDirection(q[0]) then
      if |q| >= 2 && fields[q[0]].Object? then Transport(fields[q[0]], q[1], q[2..]) else Nothing
    else if Skipped(q[0]) then Nothing
    else Of(fields[q[0]], q[1..])
  }

  lemma {:induction false} TransportsTotal(
    direction: string, transports: Value, keys: seq<string>, t: string, rest: seq<string>)
    requires transports.Object? && (forall k | k in keys :: k in transports.fields) && NoDuplicates(keys)
    ensures
      RootsTotal(TransportRoots(direction, transports, keys), ["messages", direction, t] + rest) ==
      if t == "all" && "all" !in transports.fields then Over(transports, keys, rest)
      else if t in keys then Of(transports.fields[t], rest) else Nothing
  {
    if keys != [] {
      var p := ["messages", direction, t] + rest;
      TransportsTotal(direction, transports, keys[1..], t, rest);
      RootsTotalConcat(OneTransport(direction, transports, keys[0]),
        TransportRoots(direction, transports, keys[1..]), p);
      OneTransportTotal(direction, transports, keys[0], t, rest);
      assert keys == [keys[0]] + keys[1..];
    }
  }

  lemma BelowTransport(direction: string, k: string, v: Value, t: string, rest: seq<string>)
    ensures Below(["messages", direction, k], v, ["messages", direction, t] + rest) ==
              if k == t then Of(v, rest) else Nothing
  {
    var path, p := ["messages", direction, k], ["messages", direction, t] + rest;
    assert p[2] == t && p[3..] == rest;
    if path <= p { assert path[2] == p[2]; }
  }

  lemma OneTransportTotal(direction: string, transports: Value, k: string, t: string, rest: seq<string>)
    requires transports.Object? && k in transports.fields
    ensures
      RootsTotal(OneTransport(direction, transports, k), ["messages", direction, t] + rest) ==
      if t == "all" && "all" !in transports.fields then Of(transports.fields[k], rest)
      else if t == k then Of(transports.fields[t], rest) else Nothing
  {
    var p, v := ["messages", direction, t] + rest, transports.fields[k];
    var own, all := Root(["messages", direction, k], v), Root(["messages", direction, "all"], v);
    BelowTransport(direction, k, v, t, rest);
    BelowTransport(direction, "all", v, t, rest);
    assert [own][1..] == [] && [all, own][1..] == [own];
    assert RootsTotal([own], p) == Plus(Below(own.path, v, p), Nothing);
    assert RootsTotal([all, own], p) == Plus(Below(all.path, v, p), RootsTotal([own], p));
  }

  /** Roots whose paths do not lead to `p` contribute nothing. */
  lemma {:induction false} Elsewhere(roots: seq<Root>, p: seq<string>)
    requires forall i | 0 <= i < |roots| :: !(roots[i].path <= p)
    ensures RootsTotal(roots, p) == Nothing
  {
    if roots != [] { Elsewhere(roots[1..], p); }
  }

  lemma {:induction false} TransportPaths(direction: string, transports: Value, keys: seq<string>, i: nat)
    requires transports.Object? && (forall k | k in keys :: k in transports.fields)
    requires i < |TransportRoots(direction, transports, keys)|
    ensures
      var path := TransportRoots(direction, transports, keys)[i].path;
      |path| == 3 && path[0] == "messages" && path[1] == direction
  {
    var n := |OneTransport(direction, transports, keys[0])|;
    if i >= n { TransportPaths(direction, transports, keys[1..], i - n); }
  }

  lemma {:induction false} OthersTotal(fields: Fields<string>, keys: seq<string>, p: seq<string>)
    requires (forall k | k in keys :: k in fields) && NoDuplicates(keys)
    ensures RootsTotal(OtherRoots(fields, keys), p) ==
            if p != [] && p[0] in keys && !Skipped(p[0]) then Of(fields[p[0]], p[1..]) else Nothing
  {
    if keys != [] {
      OthersTotal(fields, keys[1..], p);
      var head := if Skipped(keys[0]) then [] else [Root([keys[0]], fields[keys[0]])];
      RootsTotalConcat(head, OtherRoots(fields, keys[1..]), p);
      OneOther(fields, keys[0], p);
      assert keys == [keys[0]] + keys[1..];
    }
  }

  lemma OneOther(fields: Fields<string>, k: string, p: seq<string>)
    requires k in fields
    ensures RootsTotal([Root([k], fields[k])], p) == if p != [] && p[0] == k then Of(fields[k], p[1..]) else Nothing
  {
    var r := Root([k], fields[k]);
    assert [r][1..] == [];
    assert [k] <= p <==> p != [] && p[0] == k;
    assert RootsTotal([r], p) == Plus(Below(r.path, r.value, p), Nothing);
  }

  /** Where the counter shown at `q` is stored. */
  function Stored(q: seq<string>): seq<string> {
    if q != [] && IsDirection(q[0]) then ["messages"] + q else q
  }

  lemma DirectionElsewhere(fields: Fields<string>, direction: string, p: seq<string>)
    requires !(|p| >= 3 && p[0] == "messages" && p[1] == direction)
    ensures RootsTotal(DirectionRoots(fields, direction), p) == Nothing
  {
    var roots := DirectionRoots(fields, direction);
    forall i | 0 <= i < |roots| ensures !(roots[i].path <= p) {
      TransportPaths(direction, fields[direction], SortedKeys(fields[direction].fields.Keys), i);
    }
    Elsewhere(roots, p);
  }

  lemma DirectionTotal(fields: Fields<string>, direction: string, t: string, rest: seq<string>)
    ensures RootsTotal(DirectionRoots(fields, direction), ["messages", direction, t] + rest) ==
            if direction in fields && fields[direction].Object? then Transport(fields[direction], t, rest) else Nothing
  {
    if direction in fields && fields[direction].Object? {
      var transports := fields[direction];
      SortedDistinct(transports.fields.Keys);
      TransportsTotal(direction, transports, SortedKeys(transports.fields.Keys), t, rest);
    }
  }

  lemma ThreeParts(fields: Fields<string>, p: seq<string>)
    ensures TotalAt(AllLeaves(Roots(fields)), p) ==
            Plus(Plus(RootsTotal(DirectionRoots(fields, "inbound"), p),
              RootsTotal(DirectionRoots(fields, "outbound"), p)),
                 RootsTotal(OtherRoots(fields, SortedKeys(fields.Keys)), p))
  {
    var inbound, outbound := DirectionRoots(fields, "inbound"), DirectionRoots(fields, "outbound");
    var others := OtherRoots(fields, SortedKeys(fields.Keys));
    RootsTotalMeaning(Roots(fields), p);
    RootsTotalConcat(inbound + outbound, others, p);
    RootsTotalConcat(inbound, outbound, p);
  }

  lemma OthersOnly(fields: Fields<string>, p: seq<string>)
    requires p != [] && p[0] != "messages"
    ensures TotalAt(AllLeaves(Roots(fields)), p) ==
              if p[0] in fields && !Skipped(p[0]) then Of(fields[p[0]], p[1..]) else Nothing
  {
    ThreeParts(fields, p);
    DirectionElsewhere(fields, "inbound", p);
    DirectionElsewhere(fields, "outbound", p);
    SortedDistinct(fields.Keys);
    OthersTotal(fields, SortedKeys(fields.Keys), p);
  }

  lemma DirectionOnly(fields: Fields<string>, d: string, p: seq<string>)
    requires "messages" !in fields && IsDirection(d) && |p| >= 2 && p[0] == "messages" && p[1] == d
    ensures TotalAt(AllLeaves(Roots(fields)), p) == RootsTotal(DirectionRoots(fields, d), p)
  {
    ThreeParts(fields, p);
    if d == "inbound" { DirectionElsewhere(fields, "outbound", p); } else { DirectionElsewhere(fields, "inbound", p); }
    SortedDistinct(fields.Keys);
    OthersTotal(fields, SortedKeys(fields.Keys), p);
  }

  /** The collected counters add up to what the fixture means, path by path. */
  lemma CollectedIsExpected(fields: Fields<string>, q: seq<string>)
    requires "messages" !in fields && q != [] && q[0] != "messages"
    ensures TotalAt(AllLeaves(Roots(fields)), Stored(q)) == Expected(fields, q)
  {
    if IsDirection(q[0]) {
      var p := ["messages"] + q;
      DirectionOnly(fields, q[0], p);
      if |q| >= 2 {
        assert p == ["messages", q[0], q[1]] + q[2..];
        DirectionTotal(fields, q[0], q[1], q[2..]);
      } else {
        DirectionElsewhere(fields, q[0], p);
      }
    } else {
      OthersOnly(fields, q);
    }
  }

  // --------------------------------------------------------- clean fixtures

  /** No key below contains a dot. */
  predicate CleanKeys(v: Value)
    decreases v
  {
    v.Object? ==> forall k | k in v.fields :: DotFree(k) && CleanKeys(v.fields[k])
  }

  predicate Clean(fields: Fields<string>) {
    "messages" !in fields && forall k | k in fields :: DotFree(k) && CleanKeys(fields[k])
  }

  ghost predicate PlainPaths(cs: seq<Leaf<string>>) {
    forall i | 0 <= i < |cs| :: PlainPath(cs[i].path)
  }

  predicate PlainPath(p: seq<string>) {
    p != [] && AllDotFree(p)
  }

  lemma {:induction false} LeavesPlain(path: seq<string>, v: Value)
    requires PlainPath(path) && CleanKeys(v)
    ensures PlainPaths(Leaves(path, v))
    decreases v
  {
    if v.Object? { FieldLeavesPlain(path, v, SortedKeys(v.fields.Keys)); }
  }

  lemma {:induction false} FieldLeavesPlain(path: seq<string>, v: Value, keys: seq<string>)
    requires PlainPath(path) && CleanKeys(v) && v.Object? && forall k | k in keys :: k in v.fields
    ensures PlainPaths(FieldLeaves(path, v, keys))
    decreases v, keys
  {
    if keys != [] {
      LeavesPlain(path + [keys[0]], v.fields[keys[0]]);
      FieldLeavesPlain(path, v, keys[1..]);
    }
  }

  ghost predicate CleanRoots(roots: seq<Root>) {
    forall i | 0 <= i < |roots| :: PlainPath(roots[i].path) && CleanKeys(roots[i].value)
  }

  lemma {:induction false} AllLeavesPlain(roots: seq<Root>)
    requires CleanRoots(roots)
    ensures PlainPaths(AllLeaves(roots))
  {
    if roots != [] {
      LeavesPlain(roots[0].path, roots[0].value);
      AllLeavesPlain(roots[1..]);
    }
  }

  lemma {:induction false} TransportRootsClean(direction: string, transports: Value, keys: seq<string>)
    requires transports.Object? && CleanKeys(transports) && IsDirection(direction)
    requires forall k | k in keys :: k in transports.fields
    ensures CleanRoots(TransportRoots(direction, transports, keys))
  {
    if keys != [] {
      assert DotFree("messages") && DotFree("all") && DotFree(direction) && DotFree(keys[0]);
      TransportRootsClean(direction, transports, keys[1..]);
    }
  }

  lemma {:induction false} OtherRootsClean(fields: Fields<string>, keys: seq<string>)
    requires Clean(fields) && forall k | k in keys :: k in fields
    ensures CleanRoots(OtherRoots(fields, keys))
  {
    if keys != [] { OtherRootsClean(fields, keys[1..]); }
  }

  lemma DirectionClean(fields: Fields<string>, direction: string)
    requires Clean(fields) && IsDirection(direction)
    ensures CleanRoots(DirectionRoots(fields, direction))
  {
    if direction in fields && fields[direction].Object? {
      TransportRootsClean(direction, fields[direction], SortedKeys(fields[direction].fields.Keys));
    }
  }

  lemma CleanConcat(a: seq<Root>, b: seq<Root>)
    requires CleanRoots(a) && CleanRoots(b)
    ensures CleanRoots(a + b)
  {}

  lemma RootsClean(fields: Fields<string>)
    requires Clean(fields)
    ensures PlainPaths(AllLeaves(Roots(fields)))
  {
    var keys := SortedKeys(fields.Keys);
    DirectionClean(fields, "inbound");
    DirectionClean(fields, "outbound");
    OtherRootsClean(fields, keys);
    CleanConcat(DirectionRoots(fields, "inbound"), DirectionRoots(fields, "outbound"));
    CleanConcat(DirectionRoots(fields, "inbound") + DirectionRoots(fields, "outbound"), OtherRoots(fields, keys));
    AllLeavesPlain(Roots(fields));
  }

  // ------------------------------------------------------- from paths to names

  lemma SameName(p: seq<string>, q: seq<string>)
    requires PlainPath(p) && PlainPath(q)
    ensures Name(p) == Name(q) <==> p == q
  {
    SplitJoin(p);
    SplitJoin(q);
  }

  lemma {:induction false} FieldTotals(cs: seq<Leaf<string>>, p: seq<string>)
    requires PlainPaths(cs) && PlainPath(p)
    ensures
      var t := TotalAt(cs, p);
      if t.Nothing? then FieldSum(LeafEntries(cs), Name(p)) == FieldMax(LeafEntries(cs), Name(p)) == 0
      else FieldSum(LeafEntries(cs), Name(p)) == t.sum && FieldMax(LeafEntries(cs), Name(p)) == t.max && t.max >= 0
  {
    if cs != [] {
      var front, last := cs[..|cs| - 1], cs[|cs| - 1];
      FieldTotals(front, p);
      assert LeafEntries(cs)[..|cs| - 1] == LeafEntries(front);
      assert LeafEntries(cs)[|cs| - 1] == LeafEntry(last);
      SameName(last.path, p);
    }
  }

  lemma {:induction false} TotalPresent<K>(cs: seq<Leaf<K>>, p: seq<K>)
    ensures TotalAt(cs, p).Total? <==> exists i :: 0 <= i < |cs| && cs[i].path == p
  {
    if cs != [] {
      TotalPresent(cs[..|cs| - 1], p);
      var last := |cs| - 1;
      if i :| 0 <= i < |cs| && cs[i].path == p { assert i == last || cs[..last][i].path == p; }
    }
  }

  lemma Mentioned(cs: seq<Leaf<string>>, p: seq<string>)
    requires PlainPaths(cs) && PlainPath(p)
    ensures Mentions(LeafEntries(cs), Name(p)) <==> TotalAt(cs, p).Total?
  {
    TotalPresent(cs, p);
    if Mentions(LeafEntries(cs), Name(p)) {
      var i :| 0 <= i < |cs| && Name(p) in LeafEntries(cs)[i];
      SameName(cs[i].path, p);
    }
    if i :| 0 <= i < |cs| && cs[i].path == p { assert Name(p) in LeafEntries(cs)[i]; }
  }

  /** The value a total shows under a name: a maximum for peaks, else a sum cut off at 64 bits. */
  function ShownValue(t: Total, name: string): int
    requires t.Total?
  {
    if KindOf(name) == Peak then t.max else Min(U64_MAX, t.sum)
  }

  lemma EntryMeaning(cs: seq<Leaf<string>>, p: seq<string>)
    requires PlainPaths(cs) && PlainPath(p)
    ensures Name(p) in MergeAll(LeafEntries(cs)) <==> TotalAt(cs, p).Total?
    ensures TotalAt(cs, p).Total? ==> MergeAll(LeafEntries(cs))[Name(p)].value == ShownValue(TotalAt(cs, p), Name(p))
  {
    FieldTotals(cs, p);
    Mentioned(cs, p);
    MergeAllMeaning(LeafEntries(cs), Name(p));
  }

  // ------------------------------------------------------------ the legacy paths

  function ShownPath(p: seq<string>): seq<string> {
    if p != [] && p[0] == "messages" then p[1..] else p
  }

  /** Collected paths lie under a transport or under another field. */
  lemma PathShape(fields: Fields<string>, p: seq<string>)
    requires "messages" !in fields && p != [] && TotalAt(AllLeaves(Roots(fields)), p).Total?
    ensures (|p| >= 3 && p[0] == "messages" && IsDirection(p[1])) || (p[0] in fields && !Skipped(p[0]))
  {
    if p[0] != "messages" {
      OthersOnly(fields, p);
    } else if !(|p| >= 3 && IsDirection(p[1])) {
      ThreeParts(fields, p);
      DirectionElsewhere(fields, "inbound", p);
      DirectionElsewhere(fields, "outbound", p);
      SortedDistinct(fields.Keys);
      OthersTotal(fields, SortedKeys(fields.Keys), p);
    }
  }

  /** Every collected path is where some shown path is stored. */
  lemma CollectedPath(fields: Fields<string>, p: seq<string>)
    requires "messages" !in fields && p != [] && TotalAt(AllLeaves(Roots(fields)), p).Total?
    ensures
      var q := ShownPath(p);
      q != [] && q[0] != "messages" && p == Stored(q) && Expected(fields, q) == TotalAt(AllLeaves(Roots(fields)), p)
  {
    PathShape(fields, p);
    var q := ShownPath(p);
    if p[0] == "messages" {
      assert p == ["messages"] + q && IsDirection(q[0]);
    } else {
      assert q == p && !IsDirection(q[0]);
    }
    CollectedIsExpected(fields, q);
  }

  lemma FirstSegment(name: string, tail: string)
    requires name == "messages" + "." + tail
    ensures Split(name)[0] == "messages"
  {
    assert DotFree("messages");
    SplitFirst("messages", tail);
  }

  lemma AfterPrefix(name: string, rest: string)
    requires MESSAGES + rest <= name
    ensures name == MESSAGES + name[9..]
  {
    assert |MESSAGES| == 9;
    assert name[..9] == (MESSAGES + rest)[..9] == MESSAGES;
    assert name == name[..9] + name[9..];
  }

  lemma OtherNameKept(q: seq<string>)
    requires PlainPath(q) && q[0] != "messages"
    ensures Rename(Name(q)) == Name(q)
  {
    var name := Name(q);
    SplitJoin(q);
    if INBOUND <= name {
      AfterPrefix(name, "inbound.");
      FirstSegment(name, name[9..]);
    } else if OUTBOUND <= name {
      AfterPrefix(name, "outbound.");
      FirstSegment(name, name[9..]);
    }
  }

  lemma Associate(a: string, b: string, c: string)
    ensures a + b + c == a + (b + c)
  {}

  /** A stored message name loses its first segment. */
  lemma DirectionRenamed(direction: string, tail: string)
    requires IsDirection(direction)
    ensures Rename("messages" + "." + (direction + "." + tail)) == direction + "." + tail
  {
    var prefix, name := "messages" + "." + (direction + "."), "messages" + "." + (direction + "." + tail);
    Associate("messages" + ".", direction + ".", tail);
    assert name == prefix + tail && prefix <= name && name[|prefix|..] == tail;
    if direction == "inbound" {
      assert prefix == INBOUND;
      assert "inbound" + "." == "inbound.";
    } else {
      assert prefix == OUTBOUND;
      assert "outbound" + "." == "outbound.";
      assert name[9] == OUTBOUND[9] == 'o' && INBOUND[9] == 'i';
    }
  }

  /** The stored name is shown at the path it was stored for. */
  lemma ShownName(q: seq<string>)
    requires PlainPath(q) && q[0] != "messages" && (IsDirection(q[0]) ==> |q| >= 2)
    ensures Split(Rename(Name(Stored(q)))) == q
  {
    SplitJoin(q);
    if IsDirection(q[0]) {
      assert q == [q[0]] + q[1..];
      JoinFirst(q[0], q[1..]);
      JoinFirst("messages", q);
      DirectionRenamed(q[0], Join(q[1..]));
    } else {
      OtherNameKept(q);
    }
  }

  function Values(e: Entries): map<string, U64> {
    map name | name in e :: e[name].value
  }

  /** The number shown at a path. */
  function ExpectedValue(fields: Fields<string>, q: seq<string>): int
    requires Expected(fields, q).Total?
  {
    ShownValue(Expected(fields, q), Name(Stored(q)))
  }

  /** A counter of the bucket, at its shown path. */
  predicate IsShown(fields: Fields<string>, c: Leaf<string>) {
    c.path != [] && c.path[0] != "messages" && Expected(fields, c.path).Total? &&
    c.value == ExpectedValue(fields, c.path)
  }

  lemma ExpectedIsPlain(fields: Fields<string>, q: seq<string>)
    requires Clean(fields) && q != [] && q[0] != "messages" && Expected(fields, q).Total?
    ensures PlainPath(Stored(q)) && PlainPath(q) && (IsDirection(q[0]) ==> |q| >= 2)
  {
    CollectedIsExpected(fields, q);
    RootsClean(fields);
    PresentIsPlain(AllLeaves(Roots(fields)), Stored(q));
    StoredPlain(q);
  }

  lemma PresentIsPlain(cs: seq<Leaf<string>>, p: seq<string>)
    requires PlainPaths(cs) && TotalAt(cs, p).Total?
    ensures PlainPath(p)
  {
    TotalPresent(cs, p);
    var i :| 0 <= i < |cs| && cs[i].path == p;
  }

  lemma StoredPlain(q: seq<string>)
    requires q != [] && PlainPath(Stored(q))
    ensures PlainPath(q)
  {
    var p := Stored(q);
    assert forall k | 0 <= k < |q| :: q[k] == p[|p| - |q| + k];
  }

  lemma ExpectedIsStored(fields: Fields<string>, e: Entries, q: seq<string>)
    requires Clean(fields) && e == MergeAll(LeafEntries(AllLeaves(Roots(fields))))
    requires q != [] && q[0] != "messages" && Expected(fields, q).Total?
    ensures PlainPath(q) && (IsDirection(q[0]) ==> |q| >= 2)
    ensures Name(Stored(q)) in e && e[Name(Stored(q))].value == ExpectedValue(fields, q)
  {
    ExpectedIsPlain(fields, q);
    CollectedIsExpected(fields, q);
    RootsClean(fields);
    EntryMeaning(AllLeaves(Roots(fields)), Stored(q));
  }

  lemma StoredIsExpected(fields: Fields<string>, e: Entries, name: string) returns (q: seq<string>)
    requires Clean(fields) && e == MergeAll(LeafEntries(AllLeaves(Roots(fields)))) && name in e
    ensures q != [] && q[0] != "messages" && Expected(fields, q).Total? && name == Name(Stored(q))
  {
    var cs := AllLeaves(Roots(fields));
    RootsClean(fields);
    var i := MentionedAt(cs, name);
    TotalPresent(cs, cs[i].path);
    CollectedPath(fields, cs[i].path);
    q := ShownPath(cs[i].path);
  }

  lemma MentionedAt(cs: seq<Leaf<string>>, name: string) returns (i: nat)
    requires name in MergeAll(LeafEntries(cs))
    ensures i < |cs| && Name(cs[i].path) == name
  {
    MergeAllMeaning(LeafEntries(cs), name);
    i :| 0 <= i < |cs| && name in LeafEntries(cs)[i];
  }

  /** The legacy counters are exactly the expected ones. */
  lemma CountersAreExpected(fields: Fields<string>, e: Entries, c: Leaf<string>)
    requires Clean(fields) && e == MergeAll(LeafEntries(AllLeaves(Roots(fields))))
    ensures c in CountersOf(Values(e)) <==> IsShown(fields, c)
  {
    CountersListed(Values(e));
    if c in CountersOf(Values(e)) {
      var name :| name in Values(e) && c == Leaf(Split(Rename(name)), Values(e)[name]);
      var q := StoredIsExpected(fields, e, name);
      ExpectedIsStored(fields, e, q);
      ShownName(q);
    }
    if IsShown(fields, c) {
      var name := Name(Stored(c.path));
      ExpectedIsStored(fields, e, c.path);
      ShownName(c.path);
      assert name in Values(e) && c == Leaf(Split(Rename(name)), Values(e)[name]);
    }
  }

  // ------------------------------------------------------------ shapes that agree

  /** No transport has a number where another has an object leading to one. */
  ghost predicate TransportsAgree(transports: Value)
    requires transports.Object?
  {
    forall t, u, r: seq<string>, s: seq<string> | t in transports.fields && u in transports.fields && r < s ::
      !(NumberAt(transports.fields[t], r).Some? && NumberAt(transports.fields[u], s).Some?)
  }

  /** The only shapes that can clash are those added up under a missing "all". */
  ghost predicate ShapesAgree(fields: Fields<string>) {
    forall d | IsDirection(d) && d in fields && fields[d].Object? && "all" !in fields[d].fields ::
      TransportsAgree(fields[d])
  }

  lemma {:induction false} NumbersPrefixFree<K>(v: Json<K>, r: seq<K>, s: seq<K>)
    requires r < s
    ensures !(NumberAt(v, r).Some? && NumberAt(v, s).Some?)
    decreases |r|
  {
    if r != [] && v.Object? && r[0] in v.fields {
      assert s[0] == r[0] && r[1..] < s[1..];
      NumbersPrefixFree(v.fields[r[0]], r[1..], s[1..]);
    }
  }

  lemma {:induction false} OverPresent(transports: Value, keys: seq<string>, rest: seq<string>)
    requires transports.Object? && forall k | k in keys :: k in transports.fields
    ensures Over(transports, keys, rest).Total? <==> exists k :: k in keys && NumberAt(transports.fields[k], rest).Some?
  {
    if keys != [] {
      OverPresent(transports, keys[1..], rest);
      if k :| k in keys && NumberAt(transports.fields[k], rest).Some? { assert k == keys[0] || k in keys[1..]; }
    }
  }

  ghost predicate PrefixFree(fields: Fields<string>) {
    forall q: seq<string>, s: seq<string> | q < s :: !(Expected(fields, q).Total? && Expected(fields, s).Total?)
  }

  lemma TransportPrefixFree(transports: Value, t: string, r: seq<string>, s: seq<string>)
    requires transports.Object? && r < s && ("all" !in transports.fields ==> TransportsAgree(transports))
    ensures !(Transport(transports, t, r).Total? && Transport(transports, t, s).Total?)
  {
    if t in transports.fields {
      NumbersPrefixFree(transports.fields[t], r, s);
    } else if t == "all" {
      OverPresent(transports, SortedKeys(transports.fields.Keys), r);
      OverPresent(transports, SortedKeys(transports.fields.Keys), s);
    }
  }

  lemma AgreeIsPrefixFree(fields: Fields<string>)
    ensures ShapesAgree(fields) <==> PrefixFree(fields)
  {
    if ShapesAgree(fields) {
      forall q: seq<string>, s: seq<string> | q < s
        ensures !(Expected(fields, q).Total? && Expected(fields, s).Total?)
      {
        if q != [] && q[0] in fields {
          assert s[0] == q[0];
          if IsDirection(q[0]) {
            if |q| >= 2 && fields[q[0]].Object? {
              assert s[1] == q[1] && q[2..] < s[2..];
              TransportPrefixFree(fields[q[0]], q[1], q[2..], s[2..]);
            }
          } else {
            assert q[1..] < s[1..];
            NumbersPrefixFree(fields[q[0]], q[1..], s[1..]);
          }
        }
      }
    }
    if PrefixFree(fields) {
      forall d | IsDirection(d) && d in fields && fields[d].Object? && "all" !in fields[d].fields
        ensures TransportsAgree(fields[d])
      {
        PrefixFreeTransports(fields, d);
      }
    }
  }

  lemma PrefixFreeTransports(fields: Fields<string>, d: string)
    requires PrefixFree(fields) && IsDirection(d) && d in fields && fields[d].Object? && "all" !in fields[d].fields
    ensures TransportsAgree(fields[d])
  {
    forall t, u, r: seq<string>, s: seq<string> | t in fields[d].fields && u in fields[d].fields && r < s
      ensures !(NumberAt(fields[d].fields[t], r).Some? && NumberAt(fields[d].fields[u], s).Some?)
    {
      PrefixFreePair(fields, d, t, u, r, s);
    }
  }

  lemma PrefixFreePair(fields: Fields<string>, d: string, t: string, u: string, r: seq<string>, s: seq<string>)
    requires PrefixFree(fields) && IsDirection(d) && d in fields && fields[d].Object? && "all" !in fields[d].fields
    requires t in fields[d].fields && u in fields[d].fields && r < s
    ensures !(NumberAt(fields[d].fields[t], r).Some? && NumberAt(fields[d].fields[u], s).Some?)
  {
    var q, q' := [d, "all"] + r, [d, "all"] + s;
    assert q < q';
    NotBoth(fields, q, q');
    AllPresent(fields, d, t, r);
    AllPresent(fields, d, u, s);
  }

  lemma NotBoth(fields: Fields<string>, q: seq<string>, s: seq<string>)
    requires PrefixFree(fields) && q < s
    ensures !(Expected(fields, q).Total? && Expected(fields, s).Total?)
  {}

  /** A number under some transport counts towards the missing "all". */
  lemma AllPresent(fields: Fields<string>, d: string, t: string, r: seq<string>)
    requires IsDirection(d) && d in fields && fields[d].Object? && "all" !in fields[d].fields && t in fields[d].fields
    ensures NumberAt(fields[d].fields[t], r).Some? ==> Expected(fields, [d, "all"] + r).Total?
  {
    assert ([d, "all"] + r)[2..] == r;
    OverPresent(fields[d], SortedKeys(fields[d].fields.Keys), r);
  }

  // ------------------------------------------------------------- main theorems

  /**
   For a clean fixture the legacy object is built without a panic and shows every counter of
   the bucket exactly when the transports' shapes agree; and then its scalars are exactly the
   numbers the fixture means.
   */
  lemma LegacyOfFixture(fixture: Value, e: Entries)
    requires fixture.Object? && Clean(fixture.fields) && FixtureEntries(fixture) == Ok(e)
    ensures ShowsAll(CountersOf(Values(e))) <==> ShapesAgree(fixture.fields)
    ensures ShapesAgree(fixture.fields) ==> Compatible(CountersOf(Values(e)))
  {
    var fields, counters := fixture.fields, CountersOf(Values(e));
    FixtureMeaning(fixture);
    AgreeIsPrefixFree(fields);
    ShowsAllIffCompatible(counters);
    forall c: Leaf<string> ensures c in counters <==> IsShown(fields, c) { CountersAreExpected(fields, e, c); }
    if PrefixFree(fields) {
      forall i, j | 0 <= i < |counters| && 0 <= j < |counters| ensures Agree(counters[i], counters[j]) {
        assert IsShown(fields, counters[i]) && IsShown(fields, counters[j]);
      }
    }
    if Compatible(counters) { CompatibleIsPrefixFree(fields, e); }
  }

  lemma CompatibleIsPrefixFree(fields: Fields<string>, e: Entries)
    requires Clean(fields) && e == MergeAll(LeafEntries(AllLeaves(Roots(fields)))) && Compatible(CountersOf(Values(e)))
    ensures PrefixFree(fields)
  {
    forall q: seq<string>, s: seq<string> | Expected(fields, q).Total? && Expected(fields, s).Total? ensures !(q < s) {
      assert q[0] in fields && s[0] in fields;
      var i := CounterIndex(fields, e, q);
      var j := CounterIndex(fields, e, s);
      assert Agree(CountersOf(Values(e))[i], CountersOf(Values(e))[j]);
    }
  }

  lemma CounterIndex(fields: Fields<string>, e: Entries, q: seq<string>) returns (i: nat)
    requires Clean(fields) && e == MergeAll(LeafEntries(AllLeaves(Roots(fields))))
    requires q != [] && q[0] != "messages" && Expected(fields, q).Total?
    ensures i < |CountersOf(Values(e))| && CountersOf(Values(e))[i].path == q
  {
    ExpectedIsStored(fields, e, q);
    var c := Leaf(q, ExpectedValue(fields, q));
    CountersAreExpected(fields, e, c);
    i :| 0 <= i < |CountersOf(Values(e))| && CountersOf(Values(e))[i] == c;
  }

  /** The scalar shown at a path, for shapes that agree. */
  lemma ShownExactly(fixture: Value, e: Entries, q: seq<string>, x: Value)
    requires fixture.Object? && Clean(fixture.fields) && FixtureEntries(fixture) == Ok(e) && ShapesAgree(fixture.fields)
    ensures Build(CountersOf(Values(e))).Some?
    ensures ScalarAt(Build(CountersOf(Values(e))).value, q, x) <==>
            Expected(fixture.fields, q).Total? && x.Number? && x.n == ExpectedValue(fixture.fields, q)
  {
    LegacyOfFixture(fixture, e);
    FixtureMeaning(fixture);
    CompatibleTree(CountersOf(Values(e)), q, x);
    if x.Number? { CountersAreExpected(fixture.fields, e, Leaf(q, x.n)); }
    assert Expected(fixture.fields, q).Total? ==> q != [] && q[0] in fixture.fields;
  }

  /** Every unsigned leaf of the fixture, under a transport or any other field, comes back at its own path. */
  lemma LeafComesBack(fixture: Value, e: Entries, q: seq<string>, n: U64)
    requires fixture.Object? && Clean(fixture.fields) && FixtureEntries(fixture) == Ok(e) && ShapesAgree(fixture.fields)
    requires ScalarAt(fixture.fields, q, Number(n)) && (Skipped(q[0]) ==> IsDirection(q[0]) && |q| >= 2)
    ensures Build(CountersOf(Values(e))).Some? && ScalarAt(Build(CountersOf(Values(e))).value, q, Number(n))
  {
    ShownExactly(fixture, e, q, Number(n));
    NumberIsScalar(fixture.fields, q, n);
    assert NumberAt(fixture.fields[q[0]], q[1..]) == Some(n);
    if IsDirection(q[0]) { assert q[1..][0] == q[1] && q[1..][1..] == q[2..]; }
    assert Expected(fixture.fields, q) == One(n);
  }

  /** A missing "all" comes back as the sum over the transports, or their maximum for a peak. */
  lemma MissingAllIsTotal(fixture: Value, e: Entries, d: string, rest: seq<string>)
    requires fixture.Object? && Clean(fixture.fields) && FixtureEntries(fixture) == Ok(e) && ShapesAgree(fixture.fields)
    requires IsDirection(d) && d in fixture.fields && fixture.fields[d].Object? && "all" !in fixture.fields[d].fields
    requires exists t :: t in fixture.fields[d].fields && NumberAt(fixture.fields[d].fields[t], rest).Some?
    ensures Build(CountersOf(Values(e))).Some?
    ensures
      var total := Over(fixture.fields[d], SortedKeys(fixture.fields[d].fields.Keys), rest);
      total.Total? && exists n: U64 :: n == ShownValue(total, Name(Stored([d, "all"] + rest)))
                                       && ScalarAt(Build(CountersOf(Values(e))).value, [d, "all"] + rest, Number(n))
  {
    var q := [d, "all"] + rest;
    ExpectedAll(fixture.fields, d, rest);
    FixtureMeaning(fixture);
    ExpectedIsStored(fixture.fields, e, q);
    var n: U64 := e[Name(Stored(q))].value;
    ShownExactly(fixture, e, q, Number(n));
  }

  lemma ExpectedAll(fields: Fields<string>, d: string, rest: seq<string>)
    requires IsDirection(d) && d in fields && fields[d].Object? && "all" !in fields[d].fields
    requires exists t :: t in fields[d].fields && NumberAt(fields[d].fields[t], rest).Some?
    ensures Expected(fields, [d, "all"] + rest) == Over(fields[d], SortedKeys(fields[d].fields.Keys), rest)
    ensures Expected(fields, [d, "all"] + rest).Total?
  {
    assert ([d, "all"] + rest)[2..] == rest;
    OverPresent(fields[d], SortedKeys(fields[d].fields.Keys), rest);
  }

  lemma {:induction false} PrefixSortsFirst(a: string, b: string)
    requires a < b
    ensures StrLt(a, b)
  {
    if a != "" { PrefixSortsFirst(a[1..], b[1..]); }
  }

  lemma {:induction false} NamePrefix(q: seq<string>, s: seq<string>)
    requires q != [] && q < s
    ensures Name(q) < Name(s)
  {
    if |q| > 1 {
      NamePrefix(q[1..], s[1..]);
      assert q == [q[0]] + q[1..] && s == [s[0]] + s[1..];
      JoinFirst(q[0], q[1..]);
    }
    assert s == [s[0]] + s[1..];
    JoinFirst(s[0], s[1..]);
  }

  /** For a clean fixture the conversion panics exactly when the transports' shapes disagree. */
  lemma PanicsIffShapesDisagree(fixture: Value, e: Entries)
    requires fixture.Object? && Clean(fixture.fields) && FixtureEntries(fixture) == Ok(e)
    ensures Build(CountersOf(Values(e))).None? <==> !ShapesAgree(fixture.fields)
  {
    LegacyOfFixture(fixture, e);
    if !ShapesAgree(fixture.fields) {
      FixtureMeaning(fixture);
      AgreeIsPrefixFree(fixture.fields);
      DisagreementPanics(fixture.fields, e);
    }
  }

  lemma DisagreementPanics(fields: Fields<string>, e: Entries)
    requires Clean(fields) && e == MergeAll(LeafEntries(AllLeaves(Roots(fields)))) && !PrefixFree(fields)
    ensures Build(CountersOf(Values(e))).None?
  {
    var q: seq<string>, s: seq<string> :| q < s && Expected(fields, q).Total? && Expected(fields, s).Total?;
    ObstructingNames(fields, e, q, s);
    LeadingNamePanics(Values(e), Name(Stored(q)), Name(Stored(s)));
  }

  lemma ObstructingNames(fields: Fields<string>, e: Entries, q: seq<string>, s: seq<string>)
    requires Clean(fields) && e == MergeAll(LeafEntries(AllLeaves(Roots(fields))))
    requires q < s && Expected(fields, q).Total? && Expected(fields, s).Total?
    ensures LeadsTo(Values(e), Name(Stored(q)), Name(Stored(s)))
  {
    assert q != [] && q[0] in fields && s[0] == q[0];
    ExpectedIsStored(fields, e, q);
    ExpectedIsStored(fields, e, s);
    ShownName(q);
    ShownName(s);
    assert Stored(q) < Stored(s);
    NamePrefix(Stored(q), Stored(s));
    PrefixSortsFirst(Name(Stored(q)), Name(Stored(s)));
  }

  // ------------------------------------------------ a fixture whose shapes disagree

  predicate Short(path: seq<string>) {
    forall i | 0 <= i < |path| :: |path[i]| <= 8
  }

  lemma {:induction false} ShortName(path: seq<string>)
    requires Short(path)
    ensures |Name(path)| <= 9 * |path|
  {
    if |path| > 1 {
      ShortName(path[1..]);
      assert path == [path[0]] + path[1..];
      JoinFirst(path[0], path[1..]);
    }
  }

  lemma ShortFits(path: seq<string>)
    requires Short(path) && |path| <= 4
    ensures Utf8.Length(Name(path)) <= MAX_NAME_BYTES
  {
    ShortName(path);
    Utf8.BytesPerChar(Name(path));
  }

  /** A number, or an object with one number. */
  predicate Small(v: Value) {
    v.Number? || (v.Object? && v.fields.Keys == {"x"} && v.fields["x"].Number?)
  }

  /** One inbound transport is a number where the other is an object with a number. */
  predicate Clashing(fields: Fields<string>) {
    && (forall k | k in fields :: Skipped(k)) && "intervalId" in fields && fields["intervalId"].Text?
    && "outbound" !in fields && "inbound" in fields
    && fields["inbound"].Object? && fields["inbound"].fields.Keys == {"a", "b"}
    && Small(fields["inbound"].fields["a"]) && fields["inbound"].fields["a"].Number?
    && Small(fields["inbound"].fields["b"]) && fields["inbound"].fields["b"].Object?
  }

  lemma OnlyKey(keys: seq<string>, k: string)
    requires NoDuplicates(keys) && forall x :: x in keys <==> x == k
    ensures keys == [k]
  {
    assert k in keys;
    forall i | 0 <= i < |keys| ensures keys[i] == k { assert keys[i] in keys; }
    NoDuplicatesFit(keys, {k});
  }

  lemma SmallWithin(path: seq<string>, v: Value)
    requires Short(path) && |path| == 3 && Small(v)
    ensures Within(path, v, 0) && |Leaves(path, v)| <= 1
  {
    ShortFits(path);
    if v.Object? {
      ShortFits(path + ["x"]);
      var keys := SortedKeys(v.fields.Keys);
      SortedDistinct(v.fields.Keys);
      OnlyKey(keys, "x");
      assert FieldLeaves(path, v, keys) == Leaves(path + ["x"], v.fields["x"]) + FieldLeaves(path, v, keys[1..]);
    }
  }

  lemma {:induction false} TransportRootsAre(direction: string, transports: Value, keys: seq<string>, r: Root)
    requires transports.Object? && (forall k | k in keys :: k in transports.fields)
    ensures |TransportRoots(direction, transports, keys)| <= 2 * |keys|
    ensures r in TransportRoots(direction, transports, keys) ==>
              |r.path| == 3 && r.path[..2] == ["messages", direction] && (r.path[2] in keys || r.path[2] == "all") &&
              exists k :: k in keys && r.value == transports.fields[k]
  {
    if keys != [] { TransportRootsAre(direction, transports, keys[1..], r); }
  }

  lemma {:induction false} NoOthers(fields: Fields<string>, keys: seq<string>)
    requires forall k | k in keys :: k in fields && Skipped(k)
    ensures OtherRoots(fields, keys) == []
  {
    if keys != [] { NoOthers(fields, keys[1..]); }
  }

  lemma {:induction false} FewLeaves(roots: seq<Root>)
    requires forall i | 0 <= i < |roots| :: |Leaves(roots[i].path, roots[i].value)| <= 1
    ensures |AllLeaves(roots)| <= |roots|
  {
    if roots != [] { FewLeaves(roots[1..]); }
  }

  lemma {:induction false} FewFields(cs: seq<Leaf<string>>)
    ensures |AddAll(map[], cs)| <= |cs|
  {
    if cs != [] {
      var e, c := AddAll(map[], cs[..|cs| - 1]), cs[|cs| - 1];
      FewFields(cs[..|cs| - 1]);
      MergeSize(e, LeafEntry(c), Name(c.path));
    }
  }

  lemma SmallRoot(path: seq<string>, keys: seq<string>)
    requires |path| == 3 && path[..2] == ["messages", "inbound"] && (path[2] in keys || path[2] == "all")
    requires forall k | k in keys :: |k| <= 8
    ensures Short(path)
  {
    assert path[0] == path[..2][0] && path[1] == path[..2][1];
  }

  ghost predicate SmallRoots(roots: seq<Root>) {
    |roots| <= 4 && forall i | 0 <= i < |roots| :: Short(roots[i].path) && |roots[i].path| == 3 && Small(roots[i].value)
  }

  lemma InboundRoots(transports: Value, keys: seq<string>)
    requires transports.Object? && |keys| <= 2
    requires forall k | k in keys :: k in transports.fields && |k| <= 8 && Small(transports.fields[k])
    ensures SmallRoots(TransportRoots("inbound", transports, keys))
  {
    var roots := TransportRoots("inbound", transports, keys);
    forall i | 0 <= i < |roots| ensures Short(roots[i].path) && |roots[i].path| == 3 && Small(roots[i].value) {
      TransportRootsAre("inbound", transports, keys, roots[i]);
      SmallRoot(roots[i].path, keys);
    }
    TransportRootsAre("inbound", transports, keys, Root([], Number(0)));
  }

  lemma OnlyInbound(fields: Fields<string>)
    requires Clashing(fields)
    ensures Roots(fields) == TransportRoots("inbound", fields["inbound"], SortedKeys(fields["inbound"].fields.Keys))
  {
    NoOthers(fields, SortedKeys(fields.Keys));
  }

  lemma TwoTransports(transports: Value)
    requires transports.Object? && transports.fields.Keys == {"a", "b"}
    requires Small(transports.fields["a"]) && Small(transports.fields["b"])
    ensures
      var keys := SortedKeys(transports.fields.Keys);
      && |keys| <= 2
      && forall k | k in keys :: k in transports.fields && |k| <= 8 && Small(transports.fields[k])
  {
    SortedSize(transports.fields.Keys);
  }

  lemma ClashingRoots(fields: Fields<string>)
    requires Clashing(fields)
    ensures SmallRoots(Roots(fields))
  {
    OnlyInbound(fields);
    TwoTransports(fields["inbound"]);
    InboundRoots(fields["inbound"], SortedKeys(fields["inbound"].fields.Keys));
  }

  lemma SmallRootsFit(roots: seq<Root>)
    requires SmallRoots(roots)
    ensures RootsWithin(roots) && |MergeAll(LeafEntries(AllLeaves(roots)))| <= MAX_FIELDS
  {
    forall i | 0 <= i < |roots|
      ensures Within(roots[i].path, roots[i].value, 0) && |Leaves(roots[i].path, roots[i].value)| <= 1
    {
      SmallWithin(roots[i].path, roots[i].value);
    }
    FewLeaves(roots);
    FewFields(AllLeaves(roots));
    AddAllIsMergeAll(AllLeaves(roots));
  }

  lemma ClashingDisagrees(fields: Fields<string>)
    requires Clashing(fields)
    ensures Clean(fields) && !ShapesAgree(fields)
  {
    var transports := fields["inbound"];
    var a, b := transports.fields["a"], transports.fields["b"];
    assert CleanKeys(b.fields["x"]) && CleanKeys(a);
    assert CleanKeys(b);
    assert CleanKeys(transports);
    assert [] < ["x"] && NumberAt(transports.fields["a"], []).Some? && NumberAt(transports.fields["b"], ["x"]).Some?;
    assert !TransportsAgree(transports) && IsDirection("inbound");
  }

  /** Every such fixture is clean and accepted, and its legacy view panics. */
  lemma ClashingFixturePanics(fixture: Value)
    requires fixture.Object? && Clashing(fixture.fields) && FixtureInterval(fixture.fields).Ok?
    ensures Clean(fixture.fields) && FixtureEntries(fixture).Ok?
    ensures Build(CountersOf(Values(FixtureEntries(fixture).value))).None?
  {
    ClashingRoots(fixture.fields);
    SmallRootsFit(Roots(fixture.fields));
    FixtureMeaning(fixture);
    ClashingDisagrees(fixture.fields);
    PanicsIffShapesDisagree(fixture, FixtureEntries(fixture).value);
  }

  /** There is one for every minute. */
  lemma ClashingFixtureExists(c: Civil)
    requires Valid(c)
    ensures
      var transports := Object(map["a" := Number(1), "b" := Object(map["x" := Number(2)])]);
      var fixture := Object(map["intervalId" := Text(Format(Minute, c)), "inbound" := transports]);
      Clashing(fixture.fields) && FixtureInterval(fixture.fields).Ok?
  {
    ParseFormat(Minute, c);
    var transports: Value := Object(map["a" := Number(1), "b" := Object(map["x" := Number(2)])]);
    var fields: Fields<string> := map["intervalId" := Text(Format(Minute, c)), "inbound" := transports];
    assert fields["inbound"] == transports && fields["intervalId"] == Text(Format(Minute, c));
  }
}
