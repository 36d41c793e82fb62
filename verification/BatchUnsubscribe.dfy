/**
 Batch unsubscribe: remove every socket locally, ask for the counts of all touched channels
 once per app, merge the answers back, and drop the channels left empty.
 */
module BatchUnsubscribe {
  import opened Prelude

  type App = string

  type Channel = string

  type Socket = nat

  datatype Key = Key(app: App, channel: Channel)

  /** Who is subscribed on this node. */
  type Members = map<Key, set<Socket>>

  /** `socket` is `None` when its id did not parse. */
  datatype Operation = Operation(socket: Option<Socket>, key: Key)

  /**
   What the other nodes hold, whether a count query also counts this node's own sockets (the
   local and the horizontal adapter both do), which apps' queries fail, and which refuse removals.
   */
  datatype Cluster = Cluster(peers: map<Key, nat>, countsOwn: bool, unreachable: set<App>, refusing: set<App>)

  datatype Leave = Leave(removed: bool, total: nat, vacated: bool)

  datatype Failure = InvalidSocket | Refused

  datatype Outcome = Outcome(channel: Channel, result: Result<Leave, Failure>)

  function Count(m: Members, k: Key): nat {
    if k in m then |m[k]| else 0
  }

  predicate Subscribed(m: Members, k: Key, s: Socket) {
    k in m && s in m[k]
  }

  function Peers(c: Cluster, k: Key): nat {
    if k in c.peers then c.peers[k] else 0
  }

  /** Takes the socket out and drops the channel's entry once it is empty. */
  function Without(m: Members, k: Key, s: Socket): Members {
    if k !in m then m else if m[k] - {s} == {} then m - {k} else m[k := m[k] - {s}]
  }

  predicate Removes(c: Cluster, op: Operation) {
    op.socket.Some? && op.key.app !in c.refusing
  }

  function AfterOp(m: Members, c: Cluster, op: Operation): Members {
    if Removes(c, op) then Without(m, op.key, op.socket.value) else m
  }

  function AfterOps(m: Members, c: Cluster, ops: seq<Operation>): Members {
    if ops == [] then m else AfterOp(AfterOps(m, c, ops[..|ops| - 1]), c, ops[|ops| - 1])
  }

  // -------------------------------------------------- what the batch must return

  /** No earlier operation of the batch removed from the same channel. */
  predicate First(c: Cluster, ops: seq<Operation>, i: nat)
    requires i < |ops|
  {
    forall j | 0 <= j < i :: Removes(c, ops[j]) ==> ops[j].key != ops[i].key
  }

  /** Sockets on this node right after operation `i`. */
  function LocalAfter(m: Members, c: Cluster, ops: seq<Operation>, i: nat): nat
    requires i < |ops|
  {
    Count(AfterOp(AfterOps(m, c, ops[..i]), c, ops[i]), ops[i].key)
  }

  /** Sockets of the channel in the whole cluster once the batch is done. */
  function ClusterCount(m: Members, c: Cluster, ops: seq<Operation>, k: Key): nat {
    Count(AfterOps(m, c, ops), k) + Peers(c, k)
  }

  /** What a successful query says about a channel once the removals are done. */
  function Answer(m: Members, c: Cluster, k: Key): nat {
    (if c.countsOwn then Count(m, k) else 0) + Peers(c, k)
  }

  predicate Queried(c: Cluster, ops: seq<Operation>, i: nat)
    requires i < |ops|
  {
    First(c, ops, i) && ops[i].key.app !in c.unreachable
  }

  /** The total reported for operation `i`. */
  function Total(m: Members, c: Cluster, ops: seq<Operation>, i: nat): nat
    requires i < |ops|
  {
    LocalAfter(m, c, ops, i) + Added(m, c, ops, i)
  }

  /** The part of the total that comes from the query. */
  function Added(m: Members, c: Cluster, ops: seq<Operation>, i: nat): nat
    requires i < |ops|
  {
    if Queried(c, ops, i) then Answer(AfterOps(m, c, ops), c, ops[i].key) else 0
  }

  datatype ChannelLeave = ChannelLeave(key: Key, removed: bool, vacated: bool, localRemaining: nat)

  /** What the first pass records, one entry per operation. */
  type Records = seq<Result<ChannelLeave, Outcome>>

  /** What one operation finds and leaves on this node. */
  function LeaveFrom(before: Members, c: Cluster, op: Operation): ChannelLeave {
    var s := if op.socket.Some? then op.socket.value else 0;
    ChannelLeave(op.key, Subscribed(before, op.key, s), op.key in before && before[op.key] - {s} == {},
                 Count(AfterOp(before, c, op), op.key))
  }

  function Failed(op: Operation): Outcome {
    Outcome(op.key.channel, Err(if op.socket.None? then InvalidSocket else Refused))
  }

  function Finished(l: ChannelLeave, extra: nat): Outcome {
    Outcome(l.key.channel, Ok(Leave(l.removed, l.localRemaining + extra, l.vacated)))
  }

  /** The result of operation `i`: removed or not, the total, and whether the channel emptied here. */
  function OutcomeOf(m: Members, c: Cluster, ops: seq<Operation>, i: nat): Outcome
    requires i < |ops|
  {
    if Removes(c, ops[i]) then Finished(LeaveFrom(AfterOps(m, c, ops[..i]), c, ops[i]), Added(m, c, ops, i))
    else Failed(ops[i])
  }

  // ------------------------------------------------------------- sort and dedup

  ghost predicate Sorted(s: seq<string>) {
    forall i, j :: 0 <= i < j < |s| ==> StrLe(s[i], s[j])
  }

  /** Drops adjacent repeats; on sorted input what remains is strictly ascending. */
  method Dedup(s: seq<string>) returns (r: seq<string>)
    requires Sorted(s)
    ensures Ascending(r)
    ensures forall x :: x in r <==> x in s
  {
    r := [];
    for i := 0 to |s|
      invariant Ascending(r)
      invariant forall x :: x in r <==> x in s[..i]
      invariant i > 0 ==> r != [] && r[|r| - 1] == s[i - 1]
    {
      assert s[..i + 1] == s[..i] + [s[i]];
      if r == [] || r[|r| - 1] != s[i] {
        if r != [] {
          assert r[0] in r;
          assert StrLe(s[i - 1], s[i]);
        }
        forall j | 0 <= j < |r| ensures StrLt(r[j], s[i]) {
          if j < |r| - 1 { StrLtTransitive(r[j], r[|r| - 1], s[i]); }
        }
        r := r + [s[i]];
      }
    }
    assert s[..|s|] == s;
  }

  method SortAndDedup(s: seq<string>) returns (r: seq<string>)
    ensures Ascending(r)
    ensures forall x :: x in r <==> x in s
  {
    var itself := (x: string) => x;
    var sorted := SortBy(s, itself);
    SortBySorts(s, itself);
    assert forall i | 0 <= i < |sorted| :: itself(sorted[i]) == sorted[i];
    r := Dedup(sorted);
  }

  // ------------------------------------------------------- the connection manager

  function CountIn<C>(counts: map<C, nat>, ch: C): nat {
    if ch in counts then counts[ch] else 0
  }

  function PositiveCounts(m: Members, app: App, channels: seq<Channel>): map<Channel, nat> {
    map ch | ch in channels && Count(m, Key(app, ch)) > 0 :: Count(m, Key(app, ch))
  }

  function Summed<C>(local: map<C, nat>, response: map<C, nat>, done: set<C>): map<C, nat> {
    map ch | ch in local.Keys + done :: CountIn(local, ch) + if ch in done then CountIn(response, ch) else 0
  }

  lemma SummedGrows<C>(local: map<C, nat>, response: map<C, nat>, done: set<C>, ch: C)
    requires ch in response && ch !in done
    ensures Summed(local, response, done)[ch := CountIn(Summed(local, response, done), ch) + response[ch]] ==
            Summed(local, response, done + {ch})
  {}

  /** Adds the counts of a response, entry by entry in any order. */
  method AddCounts<C(==)>(local: map<C, nat>, response: map<C, nat>) returns (counts: map<C, nat>)
    ensures counts == Summed(local, response, response.Keys)
  {
    counts := local;
    var done := {};
    assert Summed(local, response, {}) == local;
    while response.Keys - done != {}
      invariant done <= response.Keys && counts == Summed(local, response, done)
      decreases response.Keys - done
    {
      var ch :| ch in response.Keys - done;
      SummedGrows(local, response, done, ch);
      counts := counts[ch := CountIn(counts, ch) + response[ch]];
      done := done + {ch};
    }
  }

  function Tagged(app: App, channels: set<Channel>): set<Key> {
    set ch | ch in channels :: Key(app, ch)
  }

  /** What the first pass records for operation `i`. */
  function LeaveOf(m: Members, c: Cluster, ops: seq<Operation>, i: nat): Result<ChannelLeave, Outcome>
    requires i < |ops|
  {
    Recorded(AfterOps(m, c, ops[..i]), c, ops[i])
  }

  function Recorded(before: Members, c: Cluster, op: Operation): Result<ChannelLeave, Outcome> {
    if Removes(c, op) then Ok(LeaveFrom(before, c, op)) else Err(Failed(op))
  }

  predicate Grouped(groups: map<App, seq<Channel>>, k: Key) {
    k.app in groups && k.channel in groups[k.app]
  }

  ghost predicate Touched(leaves: Records, k: Key) {
    exists i :: 0 <= i < |leaves| && leaves[i].Ok? && leaves[i].value.key == k
  }

  /** Collects the channels that were left, per app. */
  method GroupByApp(leaves: Records) returns (groups: map<App, seq<Channel>>)
    ensures forall k: Key :: Grouped(groups, k) <==> Touched(leaves, k)
  {
    groups := map[];
    for i := 0 to |leaves|
      invariant forall k: Key :: Grouped(groups, k) <==> Touched(leaves[..i], k)
    {
      ghost var before := groups;
      assert leaves[..i + 1] == leaves[..i] + [leaves[i]];
      if leaves[i].Ok? {
        var key := leaves[i].value.key;
        var sofar := if key.app in groups then groups[key.app] else [];
        groups := groups[key.app := sofar + [key.channel]];
      }
      forall k: Key ensures Grouped(groups, k) <==> Touched(leaves[..i + 1], k) {
        TouchedGrows(leaves[..i], leaves[i], k);
        assert Grouped(groups, k) <==> Grouped(before, k) || (leaves[i].Ok? && leaves[i].value.key == k);
      }
    }
    assert leaves[..|leaves|] == leaves;
  }

  lemma TouchedGrows(leaves: Records, last: Result<ChannelLeave, Outcome>, k: Key)
    ensures Touched(leaves + [last], k) <==> Touched(leaves, k) || (last.Ok? && last.value.key == k)
  {
    var longer := leaves + [last];
    if Touched(leaves, k) {
      var i :| 0 <= i < |leaves| && leaves[i].Ok? && leaves[i].value.key == k;
      assert longer[i] == leaves[i];
    }
    if last.Ok? && last.value.key == k { assert longer[|leaves|] == last; }
  }

  /** Sorting and deduplication lose no channel. */
  method DedupGroups(groups: map<App, seq<Channel>>) returns (r: map<App, seq<Channel>>)
    ensures forall k: Key :: Grouped(r, k) <==> Grouped(groups, k)
    ensures forall app | app in r :: Ascending(r[app])
  {
    r := groups;
    var done: set<App> := {};
    while groups.Keys - done != {}
      invariant r.Keys == groups.Keys && done <= groups.Keys
      invariant forall k: Key :: Grouped(r, k) <==> Grouped(groups, k)
      invariant forall app | app in done :: Ascending(r[app])
      decreases groups.Keys - done
    {
      var app :| app in groups.Keys - done;
      var channels := SortAndDedup(r[app]);
      ghost var before := r;
      r := r[app := channels];
      done := done + {app};
      assert forall k: Key :: Grouped(r, k) <==> Grouped(before, k);
    }
  }

  /** No earlier leave of the same channel has used up the counts. */
  predicate Unused(leaves: Records, i: nat)
    requires i < |leaves| && leaves[i].Ok?
  {
    forall j | 0 <= j < i :: leaves[j].Ok? ==> leaves[j].value.key != leaves[i].value.key
  }

  /** What the remaining counts add to result `i`. */
  function Extra(leaves: Records, remote: map<Key, nat>, i: nat): nat
    requires i < |leaves| && leaves[i].Ok?
  {
    if Unused(leaves, i) then CountIn(remote, leaves[i].value.key) else 0
  }

  function MergedAt(leaves: Records, remote: map<Key, nat>, i: nat): Outcome
    requires i < |leaves|
  {
    if leaves[i].Ok? then Finished(leaves[i].value, Extra(leaves, remote, i)) else leaves[i].error
  }

  /** Keys of the first `n` results whose total is zero. */
  function Emptied(leaves: Records, remote: map<Key, nat>, n: nat): seq<Key>
    requires n <= |leaves|
  {
    if n == 0 then []
    else
      var result := MergedAt(leaves, remote, n - 1).result;
      Emptied(leaves, remote, n - 1) +
      if leaves[n - 1].Ok? && result.Ok? && result.value.total == 0 then [leaves[n - 1].value.key] else []
  }

  /** Each count is taken out of the map by the first result that uses it. */
  method Merge(leaves: Records, counts: map<Key, nat>) returns (results: seq<Outcome>, cleanup: seq<Key>)
    ensures |results| == |leaves|
    ensures forall i | 0 <= i < |leaves| :: results[i] == MergedAt(leaves, counts, i)
    ensures cleanup == Emptied(leaves, counts, |leaves|)
  {
    results, cleanup := [], [];
    var remote := counts;
    for i := 0 to |leaves|
      invariant |results| == i && cleanup == Emptied(leaves, counts, i)
      invariant forall j | 0 <= j < i :: results[j] == MergedAt(leaves, counts, j)
      invariant forall k: Key :: CountIn(remote, k) == if Touched(leaves[..i], k) then 0 else CountIn(counts, k)
    {
      assert leaves[..i + 1] == leaves[..i] + [leaves[i]];
      forall k: Key
        ensures Touched(leaves[..i + 1], k) <==> Touched(leaves[..i], k) || (leaves[i].Ok? && leaves[i].value.key == k)
      {
        TouchedGrows(leaves[..i], leaves[i], k);
      }
      match leaves[i] {
        case Ok(l) =>
          UnusedMeansUntouched(leaves, i);
          var total := l.localRemaining + CountIn(remote, l.key);
          ghost var before := remote;
          remote := remote - {l.key};
          assert forall k: Key :: CountIn(remote, k) == if k == l.key then 0 else CountIn(before, k);
          if total == 0 { cleanup := cleanup + [l.key]; }
          results := results + [Outcome(l.key.channel, Ok(Leave(l.removed, total, l.vacated)))];
        case Err(outcome) =>
          results := results + [outcome];
      }
    }
  }

  lemma UnusedMeansUntouched(leaves: Records, i: nat)
    requires i < |leaves| && leaves[i].Ok?
    ensures Unused(leaves, i) <==> !Touched(leaves[..i], leaves[i].value.key)
  {
    if !Unused(leaves, i) {
      var j :| 0 <= j < i && leaves[j].Ok? && leaves[j].value.key == leaves[i].value.key;
      assert leaves[..i][j] == leaves[j];
    }
  }

  lemma CountedMeansSubscribed(m: Members, k: Key)
    ensures Count(m, k) > 0 <==> exists s: Socket :: Subscribed(m, k, s)
  {
    if Count(m, k) > 0 {
      var s :| s in m[k];
      assert Subscribed(m, k, s);
    }
  }

  class ConnectionManager {
    const cluster: Cluster
    var members: Members

    constructor (cluster: Cluster, members: Members)
      ensures this.cluster == cluster && this.members == members
    {
      this.cluster, this.members := cluster, members;
    }

    method RemoveFromChannel(k: Key, s: Socket) returns (r: Option<(bool, bool)>)
      modifies this
      ensures members == AfterOp(old(members), cluster, Operation(Some(s), k))
      ensures r == if k.app in cluster.refusing then None
                   else Some((Subscribed(old(members), k, s), k in old(members) && old(members)[k] - {s} == {}))
    {
      if k.app in cluster.refusing { return None; }
      if k !in members { return Some((false, false)); }
      var removed := s in members[k];
      members := members[k := members[k] - {s}];
      var vacated := members[k] == {};
      if vacated { members := members - {k}; }
      return Some((removed, vacated));
    }

    /** This node's counts, zeros omitted. */
    method LocalCounts(app: App, channels: seq<Channel>) returns (counts: map<Channel, nat>)
      ensures counts == PositiveCounts(members, app, channels)
      ensures forall ch :: ch in counts <==> ch in channels && exists s: Socket :: Subscribed(members, Key(app, ch), s)
      ensures forall ch | ch in counts :: counts[ch] == |members[Key(app, ch)]|
    {
      counts := map[];
      for i := 0 to |channels|
        invariant counts == PositiveCounts(members, app, channels[..i])
      {
        assert channels[..i + 1] == channels[..i] + [channels[i]];
        var n := Count(members, Key(app, channels[i]));
        if n > 0 { counts := counts[channels[i] := n]; }
      }
      assert channels[..|channels|] == channels;
      forall ch ensures Count(members, Key(app, ch)) > 0 <==> exists s: Socket :: Subscribed(members, Key(app, ch), s) {
        CountedMeansSubscribed(members, Key(app, ch));
      }
    }

    /** Counts of the peers, and of this node if it counts its own; zeros are omitted. */
    method BatchCounts(app: App, channels: seq<Channel>) returns (r: Option<map<Channel, nat>>)
      ensures r.None? <==> app in cluster.unreachable
      ensures r.Some? ==> forall ch | ch in channels ::
          CountIn(r.value, ch) == Answer(members, cluster, Key(app, ch))
      ensures r.Some? ==> forall ch | ch in r.value :: ch in channels
    {
      if app in cluster.unreachable { return None; }
      var counts := map[];
      if cluster.countsOwn { counts := LocalCounts(app, channels); }
      var response := map ch | ch in channels && Peers(cluster, Key(app, ch)) > 0 :: Peers(cluster, Key(app, ch));
      counts := AddCounts(counts, response);
      return Some(counts);
    }

    /** One removal, followed by this node's count. */
    method RemoveOne(op: Operation) returns (r: Result<ChannelLeave, Outcome>)
      modifies this
      ensures members == AfterOp(old(members), cluster, op)
      ensures r == Recorded(old(members), cluster, op)
    {
      if op.socket.None? {
        return Err(Outcome(op.key.channel, Err(InvalidSocket)));
      }
      assert op == Operation(Some(op.socket.value), op.key);
      var answer := RemoveFromChannel(op.key, op.socket.value);
      if answer.None? {
        return Err(Outcome(op.key.channel, Err(Refused)));
      }
      return Ok(ChannelLeave(op.key, answer.value.0, answer.value.1, Count(members, op.key)));
    }

    /** The first pass: every removal, in order. */
    method RemoveAll(ops: seq<Operation>) returns (leaves: Records)
      modifies this
      ensures members == AfterOps(old(members), cluster, ops)
      ensures |leaves| == |ops|
      ensures forall i | 0 <= i < |ops| :: leaves[i] == LeaveOf(old(members), cluster, ops, i)
    {
      leaves := [];
      for i := 0 to |ops|
        invariant members == AfterOps(old(members), cluster, ops[..i])
        invariant |leaves| == i
        invariant forall j | 0 <= j < i :: leaves[j] == LeaveOf(old(members), cluster, ops, j)
      {
        assert ops[..i + 1][..i] == ops[..i];
        var leave := RemoveOne(ops[i]);
        leaves := leaves + [leave];
      }
      assert ops[..|ops|] == ops;
    }

    /** One count query per app; a failed one leaves its channels at zero. */
    method QueryAll(groups: map<App, seq<Channel>>) returns (remote: map<Key, nat>)
      ensures forall k: Key :: CountIn(remote, k) == if Grouped(groups, k) && k.app !in cluster.unreachable
                                                     then Answer(members, cluster, k) else 0
    {
      remote := map[];
      var done: set<App> := {};
      while groups.Keys - done != {}
        invariant done <= groups.Keys
        invariant forall k: Key ::
                    CountIn(remote, k) ==
                    if k.app in done && Grouped(groups, k) && k.app !in cluster.unreachable
                    then Answer(members, cluster, k) else 0
        decreases groups.Keys - done
      {
        var app :| app in groups.Keys - done;
        var counts := BatchCounts(app, groups[app]);
        if counts.Some? {
          var tagged := map k: Key | k in Tagged(app, counts.value.Keys) :: counts.value[k.channel];
          remote := remote + tagged;
        }
        done := done + {app};
      }
    }

    /** Calls `remove_channel` for each key. */
    method CleanUp(keys: seq<Key>)
      modifies this
      ensures members == old(members) - set k | k in keys
    {
      for i := 0 to |keys|
        invariant members == old(members) - set k | k in keys[..i]
      {
        assert keys[..i + 1] == keys[..i] + [keys[i]];
        members := members - {keys[i]};
      }
      assert keys[..|keys|] == keys;
    }

    /**
     One result per operation, in order, each as `OutcomeOf` says; the channels cleaned up are
     exactly those reported with a total of zero, and that loses no subscriber.
     */
    method BatchUnsubscribe(ops: seq<Operation>) returns (results: seq<Outcome>, cleaned: seq<Key>)
      modifies this
      ensures |results| == |ops|
      ensures forall i | 0 <= i < |ops| :: results[i] == OutcomeOf(old(members), cluster, ops, i)
      ensures forall k: Key :: k in cleaned <==> ReportedEmpty(old(members), cluster, ops, k)
      ensures members == AfterOps(old(members), cluster, ops)
    {
      if ops == [] {
        return [], [];
      }
      var leaves := RemoveAll(ops);
      var groups := GroupByApp(leaves);
      groups := DedupGroups(groups);
      var remote := QueryAll(groups);
      results, cleaned := Merge(leaves, remote);
      forall i | 0 <= i < |ops| ensures MergedAt(leaves, remote, i) == OutcomeOf(old(members), cluster, ops, i) {
        MergeMeaning(old(members), cluster, ops, leaves, remote, i);
      }
      forall k: Key ensures k in cleaned <==> ReportedEmpty(old(members), cluster, ops, k) {
        EmptiedMeaning(leaves, remote, |leaves|, k);
        ReportedMeaning(old(members), cluster, ops, leaves, remote, k);
      }
      forall k: Key | k in cleaned ensures k !in members {
        ReportedIsAbsent(old(members), cluster, ops, k);
      }
      CleanUp(cleaned);
    }
  }

  /** Some operation on this channel was reported with nobody left. */
  ghost predicate ReportedEmpty(m: Members, c: Cluster, ops: seq<Operation>, k: Key) {
    exists i :: 0 <= i < |ops| && Removes(c, ops[i]) && ops[i].key == k && Total(m, c, ops, i) == 0
  }

  ghost predicate LeavesOf(m: Members, c: Cluster, ops: seq<Operation>, leaves: Records) {
    |leaves| == |ops| && forall i | 0 <= i < |ops| :: leaves[i] == LeaveOf(m, c, ops, i)
  }

  ghost predicate CountsOf(m: Members, c: Cluster, ops: seq<Operation>, leaves: Records, remote: map<Key, nat>) {
    forall k: Key ::
      CountIn(remote, k) ==
      if Touched(leaves, k) && k.app !in c.unreachable then Answer(AfterOps(m, c, ops), c, k) else 0
  }

  lemma MergeMeaning(m: Members, c: Cluster, ops: seq<Operation>, leaves: Records, remote: map<Key, nat>, i: nat)
    requires LeavesOf(m, c, ops, leaves) && CountsOf(m, c, ops, leaves, remote) && i < |ops|
    ensures MergedAt(leaves, remote, i) == OutcomeOf(m, c, ops, i)
  {
    if Removes(c, ops[i]) {
      assert leaves[i] == Ok(LeaveFrom(AfterOps(m, c, ops[..i]), c, ops[i]));
      assert Touched(leaves, ops[i].key);
      UnusedMeansFirst(m, c, ops, leaves, i);
      assert Extra(leaves, remote, i) == Added(m, c, ops, i);
    }
  }

  lemma UnusedMeansFirst(m: Members, c: Cluster, ops: seq<Operation>, leaves: Records, i: nat)
    requires LeavesOf(m, c, ops, leaves) && i < |ops| && Removes(c, ops[i])
    ensures Unused(leaves, i) <==> First(c, ops, i)
  {
    forall j | 0 <= j <= i
      ensures leaves[j].Ok? <==> Removes(c, ops[j]) && (leaves[j].Ok? ==> leaves[j].value.key == ops[j].key)
    {
      assert leaves[j] == LeaveOf(m, c, ops, j);
    }
  }

  lemma {:induction false} EmptiedMeaning(leaves: Records, remote: map<Key, nat>, n: nat, k: Key)
    requires n <= |leaves|
    ensures k in Emptied(leaves, remote, n) <==> exists i :: 0 <= i < n && EmptiedAt(leaves, remote, i, k)
  {
    if n > 0 {
      EmptiedMeaning(leaves, remote, n - 1, k);
      assert EmptiedAt(leaves, remote, n - 1, k) || !EmptiedAt(leaves, remote, n - 1, k);
    }
  }

  predicate EmptiedAt(leaves: Records, remote: map<Key, nat>, i: nat, k: Key)
    requires i < |leaves|
  {
    leaves[i].Ok? && leaves[i].value.key == k && MergedAt(leaves, remote, i).result.value.total == 0
  }

  lemma ReportedMeaning(m: Members, c: Cluster, ops: seq<Operation>, leaves: Records, remote: map<Key, nat>, k: Key)
    requires LeavesOf(m, c, ops, leaves) && CountsOf(m, c, ops, leaves, remote)
    ensures (exists i :: 0 <= i < |leaves| && EmptiedAt(leaves, remote, i, k)) <==> ReportedEmpty(m, c, ops, k)
  {
    forall i | 0 <= i < |ops|
      ensures EmptiedAt(leaves, remote, i, k) <==> Removes(c, ops[i]) && ops[i].key == k && Total(m, c, ops, i) == 0
    {
      MergeMeaning(m, c, ops, leaves, remote, i);
    }
  }

  // ---------------------------------------------------------------- membership

  /** Sockets the batch takes out of a channel. */
  ghost predicate Leaving(c: Cluster, ops: seq<Operation>, k: Key, s: Socket) {
    k.app !in c.refusing && Operation(Some(s), k) in ops
  }

  lemma WithoutMeaning(m: Members, k: Key, s: Socket, k': Key, s': Socket)
    ensures Subscribed(Without(m, k, s), k', s') <==> Subscribed(m, k', s') && !(k == k' && s == s')
  {
    if k in m && k == k' { assert s' in m[k] - {s} <==> s' in m[k] && s' != s; }
  }

  /** The batch removes exactly the subscriptions it names. */
  lemma {:induction false} AfterOpsMeaning(m: Members, c: Cluster, ops: seq<Operation>, k: Key, s: Socket)
    ensures Subscribed(AfterOps(m, c, ops), k, s) <==> Subscribed(m, k, s) && !Leaving(c, ops, k, s)
  {
    if ops != [] {
      var front, last := ops[..|ops| - 1], ops[|ops| - 1];
      AfterOpsMeaning(m, c, front, k, s);
      assert ops == front + [last];
      assert last == Operation(Some(s), k) <==> last.socket == Some(s) && last.key == k;
      if Removes(c, last) { WithoutMeaning(AfterOps(m, c, front), last.key, last.socket.value, k, s); }
    }
  }

  /** A channel without an entry never gets one back. */
  lemma {:induction false} AbsentStays(m: Members, c: Cluster, ops: seq<Operation>, i: nat, k: Key)
    requires i <= |ops| && k !in AfterOps(m, c, ops[..i])
    ensures k !in AfterOps(m, c, ops)
    decreases |ops|
  {
    if i < |ops| {
      var front := ops[..|ops| - 1];
      assert front[..i] == ops[..i];
      AbsentStays(m, c, front, i, k);
    } else {
      assert ops[..i] == ops;
    }
  }

  lemma EmptyEntryIsDropped(m: Members, c: Cluster, op: Operation)
    requires Removes(c, op) && Count(AfterOp(m, c, op), op.key) == 0
    ensures op.key !in AfterOp(m, c, op)
  {}

  lemma EmptiedByStep(m: Members, c: Cluster, ops: seq<Operation>, i: nat)
    requires i < |ops| && Removes(c, ops[i]) && LocalAfter(m, c, ops, i) == 0
    ensures ops[i].key !in AfterOps(m, c, ops[..i + 1])
  {
    assert ops[..i + 1][..i] == ops[..i];
    EmptyEntryIsDropped(AfterOps(m, c, ops[..i]), c, ops[i]);
  }

  lemma ReportedIsAbsent(m: Members, c: Cluster, ops: seq<Operation>, k: Key)
    requires ReportedEmpty(m, c, ops, k)
    ensures k !in AfterOps(m, c, ops)
  {
    var i :| 0 <= i < |ops| && Removes(c, ops[i]) && ops[i].key == k && Total(m, c, ops, i) == 0;
    assert LocalAfter(m, c, ops, i) == 0;
    EmptiedByStep(m, c, ops, i);
    AbsentStays(m, c, ops, i + 1, k);
  }

  // -------------------------------------------------------------- the totals

  /** No later operation of the batch removes from the same channel. */
  predicate Last(c: Cluster, ops: seq<Operation>, i: nat)
    requires i < |ops|
  {
    forall j | i < j < |ops| :: Removes(c, ops[j]) ==> ops[j].key != ops[i].key
  }

  /** Everyone subscribed here is taken out by the batch; decidable before the call. */
  ghost predicate AllLeave(m: Members, c: Cluster, ops: seq<Operation>, k: Key) {
    forall s: Socket :: Subscribed(m, k, s) ==> Leaving(c, ops, k, s)
  }

  lemma {:induction false} LastSettles(m: Members, c: Cluster, ops: seq<Operation>, i: nat)
    requires i < |ops| && Last(c, ops, i)
    ensures LocalAfter(m, c, ops, i) == Count(AfterOps(m, c, ops), ops[i].key)
    decreases |ops|
  {
    if i == |ops| - 1 {
      assert ops[..i + 1] == ops;
    } else {
      var front := ops[..|ops| - 1];
      assert front[..i] == ops[..i];
      LastSettles(m, c, front, i);
    }
  }

  lemma EmptyMeansAllLeave(m: Members, c: Cluster, ops: seq<Operation>, k: Key)
    ensures Count(AfterOps(m, c, ops), k) == 0 <==> AllLeave(m, c, ops, k)
  {
    var m' := AfterOps(m, c, ops);
    forall s: Socket ensures Subscribed(m', k, s) <==> Subscribed(m, k, s) && !Leaving(c, ops, k, s) {
      AfterOpsMeaning(m, c, ops, k, s);
    }
    if Count(m', k) > 0 {
      var s :| s in m'[k];
      assert Subscribed(m', k, s);
    } else {
      forall s: Socket | Subscribed(m, k, s) ensures Leaving(c, ops, k, s) {
        assert !Subscribed(m', k, s);
      }
    }
  }

  // ------------------------------------------------------------- the other answers

  /** A channel's entry goes once operations on the channel leave nobody in it. */
  lemma {:induction false} EntryKept(m: Members, c: Cluster, ops: seq<Operation>, k: Key)
    ensures k in AfterOps(m, c, ops) <==>
            k in m && (Count(AfterOps(m, c, ops), k) > 0 || forall op | op in ops :: Removes(c, op) ==> op.key != k)
  {
    if ops != [] {
      var front, last := ops[..|ops| - 1], ops[|ops| - 1];
      EntryKept(m, c, front, k);
      assert ops == front + [last];
    }
  }

  /**
   What each result means in terms of the subscriptions before the batch. `removed`: the
   socket was subscribed, and no earlier operation of the batch took it out. `vacated`: the
   channel has an entry, this operation leaves nobody of it here, and it was not so before.
   */
  lemma ResultMeaning(m: Members, c: Cluster, ops: seq<Operation>, i: nat)
    requires i < |ops|
    ensures
      var op, outcome := ops[i], OutcomeOf(m, c, ops, i);
      outcome.channel == op.key.channel &&
      match outcome.result
      case Err(InvalidSocket) => op.socket.None?
      case Err(Refused) => op.socket.Some? && op.key.app in c.refusing
      case Ok(leave) =>
        && op.socket.Some? && op.key.app !in c.refusing
        && (leave.removed <==> Subscribed(m, op.key, op.socket.value) && op !in ops[..i])
        && (leave.vacated <==>
              && op.key in m && AllLeave(m, c, ops[..i + 1], op.key)
              && (AllLeave(m, c, ops[..i], op.key) ==> First(c, ops, i)))
  {
    var op, before := ops[i], AfterOps(m, c, ops[..i]);
    if Removes(c, op) {
      AfterOpsMeaning(m, c, ops[..i], op.key, op.socket.value);
      EntryKept(m, c, ops[..i], op.key);
      EmptyMeansAllLeave(m, c, ops[..i], op.key);
      EmptyMeansAllLeave(m, c, ops[..i + 1], op.key);
      assert ops[..i + 1][..i] == ops[..i];
      assert First(c, ops, i) <==> forall o | o in ops[..i] :: Removes(c, o) ==> o.key != op.key;
    }
  }

  /** No two results of a batch report the same channel vacated. */
  lemma VacatedOnce(m: Members, c: Cluster, ops: seq<Operation>, i: nat, j: nat)
    requires i < j < |ops| && ops[i].key == ops[j].key && Removes(c, ops[i]) && Removes(c, ops[j])
    ensures !(OutcomeOf(m, c, ops, i).result.value.vacated && OutcomeOf(m, c, ops, j).result.value.vacated)
  {
    ResultMeaning(m, c, ops, i);
    ResultMeaning(m, c, ops, j);
    assert ops[..i + 1] <= ops[..j];
    forall s: Socket | Leaving(c, ops[..i + 1], ops[i].key, s) ensures Leaving(c, ops[..j], ops[i].key, s) {
      var n :| 0 <= n < i + 1 && ops[n] == Operation(Some(s), ops[i].key);
      assert ops[..j][n] == ops[n];
    }
    assert !First(c, ops, j);
  }

  /**
   The last total reported for a channel. When the query counts other nodes only, it is the
   cluster-wide count. When the query counts this node too, its sockets are counted twice, and
   the total is right exactly if everyone here leaves. When the query failed, or an earlier
   repeat used up its answer, peers are left out. A zero from a query is always a true zero.
   */
  lemma TotalIsClusterCountIff(m: Members, c: Cluster, ops: seq<Operation>, i: nat)
    requires i < |ops| && Removes(c, ops[i]) && Last(c, ops, i)
    ensures
      var op, total, inCluster := ops[i], Total(m, c, ops, i), ClusterCount(m, c, ops, ops[i].key);
      var local, peers := Count(AfterOps(m, c, ops), op.key), Peers(c, op.key);
      var answered :=
        op.key.app !in c.unreachable && forall o | o in ops[..i] :: o.socket.Some? ==> o.key != op.key;
      && OutcomeOf(m, c, ops, i).result.value.total == total
      && total == (if !answered then local else if c.countsOwn then 2 * local + peers else local + peers)
      && (total == inCluster <==> if answered then !c.countsOwn || AllLeave(m, c, ops, op.key) else peers == 0)
      && (answered ==> (total == 0 <==> inCluster == 0))
  {
    assert First(c, ops, i) <==> forall o | o in ops[..i] :: Removes(c, o) ==> o.key != ops[i].key;
    LastSettles(m, c, ops, i);
    EmptyMeansAllLeave(m, c, ops, ops[i].key);
  }

  /** One of two local subscribers leaves and no other node has any: the total reported is 2. */
  lemma LocalSocketsCountTwice(k: Key)
    ensures
      var m, c, ops := map[k := {1, 2}], Cluster(map[], true, {}, {}), [Operation(Some(1), k)];
      Total(m, c, ops, 0) == 2 && ClusterCount(m, c, ops, k) == 1
  {
    var m: Members, c, ops := map[k := {1, 2}], Cluster(map[], true, {}, {}), [Operation(Some(1), k)];
    assert ops[..0] == [] && ops[..1] == ops;
    assert m[k] - {1} == {2};
    assert AfterOps(m, c, ops) == map[k := {2}];
  }
}
