/**
 The nested object shown to legacy clients: dotted counter names inserted one by one into a
 tree. Insertion is described path by path, so that the finished tree can be read off the
 list of counters.
 */
module LegacyStats {
  import opened Prelude

  /** A JSON value; `Number` is one that reads as an unsigned integer. */
  datatype Json<K> = Number(n: U64) | Text(s: string) | Other | Object(fields: Fields<K>)

  type Fields<K> = map<K, Json<K>>

  /** A counter and the keys that lead to it. */
  datatype Leaf<K> = Leaf(path: seq<K>, value: U64)

  // ----------------------------------------------------------------- insertion

  /** `None` is the panic on a scalar where an object is needed. */
  function Insert<K(==)>(root: Fields<K>, path: seq<K>, value: U64): Option<Fields<K>>
    requires path != []
    decreases |path|
  {
    if |path| == 1 then Some(root[path[0] := Number(value)])
    else
      var child := if path[0] in root then root[path[0]] else Object(map[]);
      if !child.Object? then None
      else
        match Insert(child.fields, path[1..], value)
        case None => None
        case Some(fields) => Some(root[path[0] := Object(fields)])
  }

  /** The value found by following a path. */
  function At<K(==)>(root: Fields<K>, path: seq<K>): Option<Json<K>>
    requires path != []
    decreases |path|
  {
    if path[0] !in root then None
    else if |path| == 1 then Some(root[path[0]])
    else if root[path[0]].Object? then At(root[path[0]].fields, path[1..])
    else None
  }

  /** Something other than an object sits at the path. */
  predicate ScalarAt<K(==)>(root: Fields<K>, path: seq<K>, x: Json<K>) {
    path != [] && !x.Object? && At(root, path) == Some(x)
  }

  ghost predicate Blocked<K(!new)>(root: Fields<K>, path: seq<K>) {
    exists q: seq<K>, x: Json<K> :: q < path && ScalarAt(root, q, x)
  }

  lemma ChildScalar<K>(root: Fields<K>, p: seq<K>, x: Json<K>)
    requires |p| > 1
    ensures ScalarAt(root, p, x) <==> p[0] in root && root[p[0]].Object? && ScalarAt(root[p[0]].fields, p[1..], x)
  {}

  /** Insertion fails exactly when a scalar lies on the way. */
  lemma {:induction false} InsertFails<K(!new)>(root: Fields<K>, path: seq<K>, value: U64)
    requires path != []
    ensures Insert(root, path, value).None? <==> Blocked(root, path)
    decreases |path|
  {
    if |path| == 1 {
      forall q: seq<K>, x: Json<K> | q < path ensures !ScalarAt(root, q, x) {}
    } else {
      var k := path[0];
      var child := if k in root then root[k] else Object(map[]);
      if !child.Object? {
        assert [k] < path && ScalarAt(root, [k], child);
      } else {
        InsertFails(child.fields, path[1..], value);
        BlockedBelow(root, path, child.fields);
      }
    }
  }

  lemma BlockedBelow<K(!new)>(root: Fields<K>, path: seq<K>, fields: Fields<K>)
    requires |path| > 1 && (if path[0] in root then root[path[0]] == Object(fields) else fields == map[])
    ensures Blocked(root, path) <==> Blocked(fields, path[1..])
  {
    var k := path[0];
    if Blocked(root, path) {
      var q: seq<K>, x: Json<K> :| q < path && ScalarAt(root, q, x);
      assert |q| > 1;
      ChildScalar(root, q, x);
      assert q[1..] < path[1..] && ScalarAt(fields, q[1..], x);
    }
    if Blocked(fields, path[1..]) {
      var q: seq<K>, x: Json<K> :| q < path[1..] && ScalarAt(fields, q, x);
      assert ([k] + q)[1..] == q;
      ChildScalar(root, [k] + q, x);
      assert [k] + q < path && ScalarAt(root, [k] + q, x);
    }
  }

  /**
   After an insertion the scalars are the new one and the old ones, except those at or below
   the new one.
   */
  lemma {:induction false} InsertMeaning<K(!new)>(root: Fields<K>, path: seq<K>, value: U64, p: seq<K>, x: Json<K>)
    requires path != [] && Insert(root, path, value).Some?
    ensures ScalarAt(Insert(root, path, value).value, p, x) <==>
            (p == path && x == Number(value)) || (!(path <= p) && ScalarAt(root, p, x))
    decreases |path|
  {
    var after := Insert(root, path, value).value;
    var k := path[0];
    if p != [] && p[0] == k {
      if |path| == 1 {
        assert path <= p;
        if |p| == 1 { assert p == path; } else { ChildScalar(after, p, x); }
      } else {
        var child := if k in root then root[k] else Object(map[]);
        if |p| == 1 {
          assert p != path && !(path <= p) && !ScalarAt(root, p, x);
        } else {
          InsertMeaning(child.fields, path[1..], value, p[1..], x);
          ChildScalar(after, p, x);
          ChildScalar(root, p, x);
          assert path == [k] + path[1..] && p == [k] + p[1..];
          assert path <= p <==> path[1..] <= p[1..];
        }
      }
    } else {
      assert !(path <= p);
    }
  }

  // ------------------------------------------------------------- a list of counters

  predicate Pathed<K>(counters: seq<Leaf<K>>) {
    forall i | 0 <= i < |counters| :: counters[i].path != []
  }

  function Build<K(==)>(counters: seq<Leaf<K>>): Option<Fields<K>>
    requires Pathed(counters)
  {
    if counters == [] then Some(map[])
    else
      var last := counters[|counters| - 1];
      match Build(counters[..|counters| - 1])
      case None => None
      case Some(root) => Insert(root, last.path, last.value)
  }

  /** Leaf `j` is the last word on its own path: nothing later replaces it or an object above it. */
  predicate Survives<K(==)>(counters: seq<Leaf<K>>, j: nat)
    requires j < |counters|
  {
    forall k | j < k < |counters| :: !(counters[k].path <= counters[j].path)
  }

  predicate RemainsAt<K(==)>(counters: seq<Leaf<K>>, j: nat, p: seq<K>, x: Json<K>)
    requires j < |counters|
  {
    counters[j].path == p && x == Number(counters[j].value) && Survives(counters, j)
  }

  /** An earlier counter lies on the way to a later one. */
  predicate Obstructs<K(==)>(counters: seq<Leaf<K>>, i: nat, j: nat)
    requires i < |counters| && j < |counters|
  {
    i < j && counters[i].path < counters[j].path
  }

  ghost predicate Obstructed<K>(counters: seq<Leaf<K>>) {
    exists i, j :: 0 <= i < |counters| && 0 <= j < |counters| && Obstructs(counters, i, j)
  }

  ghost predicate Remains<K>(counters: seq<Leaf<K>>, p: seq<K>, x: Json<K>) {
    exists j :: 0 <= j < |counters| && RemainsAt(counters, j, p, x)
  }

  /** The last counter with a path at or above `p`. */
  lemma {:induction false} LastAbove<K>(counters: seq<Leaf<K>>, p: seq<K>, i: nat) returns (j: nat)
    requires i < |counters| && counters[i].path < p
    ensures i <= j < |counters| && counters[j].path < p && Survives(counters, j)
    decreases |counters| - i
  {
    if k :| i < k < |counters| && counters[k].path < p {
      j := LastAbove(counters, p, k);
    } else {
      j := i;
    }
  }

  lemma RemainsGrows<K>(front: seq<Leaf<K>>, last: Leaf<K>, p: seq<K>, x: Json<K>)
    ensures Remains(front + [last], p, x) <==>
            (last.path == p && x == Number(last.value)) || (!(last.path <= p) && Remains(front, p, x))
  {
    var all := front + [last];
    assert forall j | 0 <= j < |front| :: all[j] == front[j];
    assert Survives(all, |front|);
    if last.path == p && x == Number(last.value) { assert RemainsAt(all, |front|, p, x); }
    if !(last.path <= p) && Remains(front, p, x) {
      var j :| 0 <= j < |front| && RemainsAt(front, j, p, x);
      forall k | j < k < |all| ensures !(all[k].path <= all[j].path) {
        if k < |front| { assert all[k] == front[k]; }
      }
      assert RemainsAt(all, j, p, x);
    }
    if Remains(all, p, x) {
      var j :| 0 <= j < |all| && RemainsAt(all, j, p, x);
      if j < |front| {
        assert !(all[|front|].path <= all[j].path);
        forall k | j < k < |front| ensures !(front[k].path <= front[j].path) {
          assert all[k] == front[k] && !(all[k].path <= all[j].path);
        }
        assert RemainsAt(front, j, p, x);
      }
    }
  }

  lemma ObstructedGrows<K>(front: seq<Leaf<K>>, last: Leaf<K>)
    ensures Obstructed(front + [last]) <==>
              Obstructed(front) || exists i :: 0 <= i < |front| && front[i].path < last.path
  {
    var all := front + [last];
    assert forall j | 0 <= j < |front| :: all[j] == front[j];
    if Obstructed(front) {
      var i, j :| 0 <= i < |front| && 0 <= j < |front| && Obstructs(front, i, j);
      assert Obstructs(all, i, j);
    }
    if i :| 0 <= i < |front| && front[i].path < last.path { assert Obstructs(all, i, |front|); }
    if Obstructed(all) {
      var i, j :| 0 <= i < |all| && 0 <= j < |all| && Obstructs(all, i, j);
      if j < |front| { assert Obstructs(front, i, j); } else { assert front[i].path < last.path; }
    }
  }

  /**
   Building panics exactly when some counter lies on the way to a later one; otherwise the
   scalars of the tree are exactly the counters that survive.
   */
  lemma {:induction false} BuildMeaning<K(!new)>(counters: seq<Leaf<K>>)
    requires Pathed(counters)
    ensures Build(counters).None? <==> Obstructed(counters)
    ensures Build(counters).Some? ==>
              forall p: seq<K>, x: Json<K> :: ScalarAt(Build(counters).value, p, x) <==> Remains(counters, p, x)
  {
    if counters != [] {
      var front, last := counters[..|counters| - 1], counters[|counters| - 1];
      assert counters == front + [last];
      BuildMeaning(front);
      ObstructedGrows(front, last);
      if Build(front).Some? {
        var root := Build(front).value;
        InsertFails(root, last.path, last.value);
        BlockedMeans(front, root, last.path);
        if Insert(root, last.path, last.value).Some? {
          forall p: seq<K>, x: Json<K> ensures ScalarAt(Build(counters).value, p, x) <==> Remains(counters, p, x) {
            InsertMeaning(root, last.path, last.value, p, x);
            RemainsGrows(front, last, p, x);
          }
        }
      }
    }
  }

  lemma BlockedMeans<K(!new)>(front: seq<Leaf<K>>, root: Fields<K>, path: seq<K>)
    requires Pathed(front)
    requires forall p: seq<K>, x: Json<K> :: ScalarAt(root, p, x) <==> Remains(front, p, x)
    ensures Blocked(root, path) <==> exists i :: 0 <= i < |front| && front[i].path < path
  {
    if Blocked(root, path) {
      var q: seq<K>, x: Json<K> :| q < path && ScalarAt(root, q, x);
      assert Remains(front, q, x);
    }
    if i :| 0 <= i < |front| && front[i].path < path {
      var j := LastAbove(front, path, i);
      assert RemainsAt(front, j, front[j].path, Number(front[j].value));
      assert Remains(front, front[j].path, Number(front[j].value));
      assert ScalarAt(root, front[j].path, Number(front[j].value));
    }
  }

  /** No counter lies on the way to another, and equal paths agree. */
  ghost predicate Compatible<K>(counters: seq<Leaf<K>>) {
    forall i, j :: 0 <= i < |counters| && 0 <= j < |counters| ==> Agree(counters[i], counters[j])
  }

  predicate Agree<K(==)>(a: Leaf<K>, b: Leaf<K>) {
    !(a.path < b.path) && (a.path == b.path ==> a.value == b.value)
  }

  /** The tree exists and shows every counter. */
  ghost predicate ShowsAll<K>(counters: seq<Leaf<K>>)
    requires Pathed(counters)
  {
    Build(counters).Some? && forall j | 0 <= j < |counters| :: Shows(Build(counters).value, counters[j])
  }

  predicate Shows<K(==)>(root: Fields<K>, c: Leaf<K>) {
    ScalarAt(root, c.path, Number(c.value))
  }

  lemma {:induction false} LastOn<K>(counters: seq<Leaf<K>>, i: nat) returns (j: nat)
    requires i < |counters| && Compatible(counters)
    ensures i <= j < |counters| && counters[j] == counters[i] && Survives(counters, j)
    decreases |counters| - i
  {
    if k :| i < k < |counters| && counters[k].path == counters[i].path {
      assert Agree(counters[k], counters[i]);
      j := LastOn(counters, k);
    } else {
      j := i;
      forall k | i < k < |counters|
        ensures !(counters[k].path <= counters[i].path)
      {
        assert Agree(counters[k], counters[i]);
      }
    }
  }

  /** Every counter is shown, and no panic occurs, exactly for compatible counters. */
  lemma ShowsAllIffCompatible<K(!new)>(counters: seq<Leaf<K>>)
    requires Pathed(counters)
    ensures ShowsAll(counters) <==> Compatible(counters)
  {
    BuildMeaning(counters);
    if Compatible(counters) {
      forall i, j | 0 <= i < |counters| && 0 <= j < |counters| ensures !Obstructs(counters, i, j) {
        assert Agree(counters[i], counters[j]);
      }
      forall i | 0 <= i < |counters| ensures Shows(Build(counters).value, counters[i]) {
        var j := LastOn(counters, i);
        assert RemainsAt(counters, j, counters[i].path, Number(counters[i].value));
      }
    }
    if ShowsAll(counters) {
      forall i, j | 0 <= i < |counters| && 0 <= j < |counters| ensures Agree(counters[i], counters[j]) {
        ShownAgree(counters, i, j);
      }
    }
  }

  lemma ShownAgree<K(!new)>(counters: seq<Leaf<K>>, i: nat, j: nat)
    requires Pathed(counters) && ShowsAll(counters) && i < |counters| && j < |counters|
    ensures Agree(counters[i], counters[j])
  {
    BuildMeaning(counters);
    var root := Build(counters).value;
    assert Shows(root, counters[i]) && Shows(root, counters[j]);
    if counters[i].path < counters[j].path {
      assert Remains(counters, counters[j].path, Number(counters[j].value));
      var k :| 0 <= k < |counters| && RemainsAt(counters, k, counters[j].path, Number(counters[j].value));
      assert !Obstructs(counters, i, k);
    }
  }

  /** For compatible counters the tree's scalars are exactly the counters. */
  lemma CompatibleTree<K(!new)>(counters: seq<Leaf<K>>, p: seq<K>, x: Json<K>)
    requires Pathed(counters) && Compatible(counters)
    ensures Build(counters).Some?
    ensures ScalarAt(Build(counters).value, p, x) <==> x.Number? && Leaf(p, x.n) in counters
  {
    ShowsAllIffCompatible(counters);
    BuildMeaning(counters);
    if ScalarAt(Build(counters).value, p, x) {
      assert Remains(counters, p, x);
      var j :| 0 <= j < |counters| && RemainsAt(counters, j, p, x);
      assert counters[j] == Leaf(p, x.n);
    }
    if x.Number? && Leaf(p, x.n) in counters {
      var j :| 0 <= j < |counters| && counters[j] == Leaf(p, x.n);
      assert Shows(Build(counters).value, counters[j]);
    }
  }

  // ------------------------------------------------------------- dotted names

  /** Rust's `split('.')`: never empty. */
  function Split(s: string): (r: seq<string>)
    ensures r != []
  {
    if s == "" then [""]
    else if s[0] == '.' then [""] + Split(s[1..])
    else var rest := Split(s[1..]); [[s[0]] + rest[0]] + rest[1..]
  }

  function Join(segments: seq<string>): string
    requires segments != []
  {
    if |segments| == 1 then segments[0] else segments[0] + "." + Join(segments[1..])
  }

  predicate DotFree(s: string) {
    forall i | 0 <= i < |s| :: s[i] != '.'
  }

  predicate AllDotFree(segments: seq<string>) {
    forall i | 0 <= i < |segments| :: DotFree(segments[i])
  }

  lemma JoinFirst(first: string, rest: seq<string>)
    ensures Join([first] + rest) == if rest == [] then first else first + "." + Join(rest)
  {
    assert ([first] + rest)[1..] == rest;
  }

  lemma JoinPrepend(c: char, first: string, rest: seq<string>)
    ensures Join([[c] + first] + rest) == [c] + Join([first] + rest)
  {
    JoinFirst(first, rest);
    JoinFirst([c] + first, rest);
    if rest != [] {
      var tail := Join(rest);
      assert [c] + first + "." + tail == [c] + (first + "." + tail);
    }
  }

  lemma {:induction false} JoinSplit(s: string)
    ensures Join(Split(s)) == s
  {
    if s != "" {
      var rest := Split(s[1..]);
      JoinSplit(s[1..]);
      assert s == [s[0]] + s[1..];
      if s[0] == '.' {
        JoinFirst("", rest);
      } else {
        JoinPrepend(s[0], rest[0], rest[1..]);
        assert rest == [rest[0]] + rest[1..];
      }
    }
  }

  lemma {:induction false} SplitPlain(s: string)
    requires DotFree(s)
    ensures Split(s) == [s]
  {
    if s != "" {
      SplitPlain(s[1..]);
      assert s == [s[0]] + s[1..];
    }
  }

  lemma {:induction false} SplitFirst(s: string, t: string)
    requires DotFree(s)
    ensures Split(s + "." + t) == [s] + Split(t)
  {
    var all := s + "." + t;
    if s == "" {
      assert all[1..] == t;
    } else {
      SplitFirst(s[1..], t);
      assert all[1..] == s[1..] + "." + t;
      assert s == [s[0]] + s[1..];
    }
  }

  lemma {:induction false} SplitJoin(segments: seq<string>)
    requires segments != [] && AllDotFree(segments)
    ensures Split(Join(segments)) == segments
  {
    if |segments| == 1 {
      SplitPlain(segments[0]);
    } else {
      SplitJoin(segments[1..]);
      SplitFirst(segments[0], Join(segments[1..]));
      assert segments == [segments[0]] + segments[1..];
    }
  }

  const MESSAGES := "messages" + "."
  const INBOUND := MESSAGES + "inbound."
  const OUTBOUND := MESSAGES + "outbound."

  /** Message counters lose their `messages` prefix. */
  function Rename(name: string): string {
    if INBOUND <= name then "inbound." + name[|INBOUND|..]
    else if OUTBOUND <= name then "outbound." + name[|OUTBOUND|..]
    else name
  }

  /** The counters in the order the map yields them. */
  function Listed(keys: seq<string>, entries: map<string, U64>): seq<Leaf<string>>
    requires forall k | k in keys :: k in entries
  {
    seq(|keys|, i requires 0 <= i < |keys| => Leaf(Split(Rename(keys[i])), entries[keys[i]]))
  }

  function CountersOf(entries: map<string, U64>): (r: seq<Leaf<string>>)
    ensures Pathed(r)
  {
    Listed(SortedKeys(entries.Keys), entries)
  }

  /** Inserts every counter in turn; `None` if one of the insertions panics. */
  method LegacyStatsFields(entries: map<string, U64>) returns (r: Option<Fields<string>>)
    ensures r == Build(CountersOf(entries))
  {
    var keys := SortedKeys(entries.Keys);
    var legacy: Fields<string> := map[];
    ghost var counters := CountersOf(entries);
    for i := 0 to |keys|
      invariant Build(counters[..i]) == Some(legacy)
    {
      var path, value := Split(Rename(keys[i])), entries[keys[i]];
      assert counters[i] == Leaf(path, value);
      BuildStep(counters, i, legacy);
      var step := Insert(legacy, path, value);
      if step.None? {
        BuildStaysNone(counters, i + 1);
        return None;
      }
      legacy := step.value;
    }
    assert counters[..|keys|] == counters;
    return Some(legacy);
  }

  lemma BuildStep<K>(counters: seq<Leaf<K>>, i: nat, root: Fields<K>)
    requires Pathed(counters) && i < |counters| && Build(counters[..i]) == Some(root)
    ensures Build(counters[..i + 1]) == Insert(root, counters[i].path, counters[i].value)
  {
    assert counters[..i + 1][..i] == counters[..i];
  }

  lemma {:induction false} BuildStaysNone<K>(counters: seq<Leaf<K>>, i: nat)
    requires Pathed(counters) && i <= |counters| && Build(counters[..i]).None?
    ensures Build(counters).None?
    decreases |counters|
  {
    if i < |counters| {
      assert counters[..|counters| - 1][..i] == counters[..i];
      BuildStaysNone(counters[..|counters| - 1], i);
    } else {
      assert counters[..i] == counters;
    }
  }

  /** Two names whose renamed paths clash: one leads through the other, or they coincide. */
  predicate Clash(entries: map<string, U64>, a: string, b: string)
    requires a in entries && b in entries
  {
    Split(Rename(a)) < Split(Rename(b)) || (Split(Rename(a)) == Split(Rename(b)) && entries[a] != entries[b])
  }

  lemma CountersListed(entries: map<string, U64>)
    ensures forall name | name in entries :: Leaf(Split(Rename(name)), entries[name]) in CountersOf(entries)
    ensures forall c | c in CountersOf(entries) :: exists name ::
              name in entries && c == Leaf(Split(Rename(name)), entries[name])
  {
    var keys := SortedKeys(entries.Keys);
    forall name | name in entries ensures Leaf(Split(Rename(name)), entries[name]) in CountersOf(entries) {
      var i :| 0 <= i < |keys| && keys[i] == name;
      assert CountersOf(entries)[i] == Leaf(Split(Rename(name)), entries[name]);
    }
    forall c | c in CountersOf(entries)
      ensures exists name :: name in entries && c == Leaf(Split(Rename(name)), entries[name])
    {
      var i :| 0 <= i < |keys| && CountersOf(entries)[i] == c;
      assert keys[i] in entries && c == Leaf(Split(Rename(keys[i])), entries[keys[i]]);
    }
  }

  /** The legacy object shows every counter, without a panic, exactly when no two names clash. */
  lemma LegacyShowsAllIff(entries: map<string, U64>)
    ensures ShowsAll(CountersOf(entries)) <==> forall a, b | a in entries && b in entries :: !Clash(entries, a, b)
  {
    var counters := CountersOf(entries);
    ShowsAllIffCompatible(counters);
    CountersListed(entries);
    if Compatible(counters) {
      forall a, b | a in entries && b in entries ensures !Clash(entries, a, b) {
        var i :| 0 <= i < |counters| && counters[i] == Leaf(Split(Rename(a)), entries[a]);
        var j :| 0 <= j < |counters| && counters[j] == Leaf(Split(Rename(b)), entries[b]);
        assert Agree(counters[i], counters[j]);
      }
    }
    if forall a, b | a in entries && b in entries :: !Clash(entries, a, b) {
      forall i, j | 0 <= i < |counters| && 0 <= j < |counters| ensures Agree(counters[i], counters[j]) {
        assert counters[i] in counters && counters[j] in counters;
        var a :| a in entries && counters[i] == Leaf(Split(Rename(a)), entries[a]);
        var b :| b in entries && counters[j] == Leaf(Split(Rename(b)), entries[b]);
        assert !Clash(entries, a, b);
      }
    }
  }

  /** A name that precedes another in the map's order and lies on the way to it. */
  predicate LeadsTo(entries: map<string, U64>, a: string, b: string) {
    a in entries && b in entries && StrLt(a, b) && Split(Rename(a)) < Split(Rename(b))
  }

  lemma LeadingNamePanics(entries: map<string, U64>, a: string, b: string)
    requires LeadsTo(entries, a, b)
    ensures Build(CountersOf(entries)).None?
  {
    var keys, counters := SortedKeys(entries.Keys), CountersOf(entries);
    var i :| 0 <= i < |keys| && keys[i] == a;
    var j :| 0 <= j < |keys| && keys[j] == b;
    IndexOrder(keys, i, j);
    assert counters[i].path == Split(Rename(a)) && counters[j].path == Split(Rename(b));
    assert Obstructs(counters, i, j);
    BuildMeaning(counters);
  }

  lemma IndexOrder(keys: seq<string>, i: nat, j: nat)
    requires Ascending(keys) && i < |keys| && j < |keys| && StrLt(keys[i], keys[j])
    ensures i < j
  {
    StrLtTotal(keys[i], keys[j]);
    StrLtIrreflexive(keys[i]);
  }

  /** A panic occurs exactly when a name, in the map's order, lies on the way to a later one. */
  lemma LegacyPanicsIff(entries: map<string, U64>)
    ensures Build(CountersOf(entries)).None? <==> exists a, b :: LeadsTo(entries, a, b)
  {
    var keys, counters := SortedKeys(entries.Keys), CountersOf(entries);
    BuildMeaning(counters);
    if Obstructed(counters) {
      var i, j :| 0 <= i < |counters| && 0 <= j < |counters| && Obstructs(counters, i, j);
      assert keys[i] in keys && keys[j] in keys && LeadsTo(entries, keys[i], keys[j]);
    }
    if a, b :| LeadsTo(entries, a, b) { LeadingNamePanics(entries, a, b); }
  }

  /** A counter beside a group of the same name is enough for a panic. */
  lemma PrefixNamesPanic()
    ensures Build(CountersOf(map["a" := 1, "a" + "." + "b" := 2])).None?
  {
    var entries: map<string, U64> := map["a" := 1, "a" + "." + "b" := 2];
    var name := "a" + "." + "b";
    SplitPlain("a");
    SplitPlain("b");
    SplitFirst("a", "b");
    assert Rename("a") == "a" && Rename(name) == name;
    assert "a" in entries && name in entries && StrLt("a", name);
    LeadingNamePanics(entries, "a", name);
  }
}
