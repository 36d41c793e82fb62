/**
 The lock-free merge of a bucket into the shared cache, interleaved over any number
 of nodes. Each call loops: read the key, then compare-and-swap (or set-if-absent)
 the merged value. Buckets stand for their JSON text, which determines them.
 */
module StatsCas {
  import opened Prelude
  import opened StatsBuckets

  datatype Key = Key(appId: string, intervalId: string)

  datatype Outcome = Merged | RetriesExhausted | CacheFailed

  /** `failed` counts lost attempts; `seenAt` is how many merges the key had seen at the read. */
  datatype Phase =
    | Reading(failed: nat)
    | Writing(failed: nat, seen: Option<Entries>, seenAt: nat)
    | Returned(outcome: Outcome)

  datatype Call = Call(key: Key, part: Entries, startedAt: nat, phase: Phase)

  datatype Landing = Landing(call: nat, key: Key, part: Entries)

  /** The cache, every call ever made, and the history of writes that took effect. */
  datatype Cluster = Cluster(cache: map<Key, Entries>, calls: seq<Call>, log: seq<Landing>)

  /** A cache error during a swap may hide a write that did take effect (`applied`). */
  datatype Action =
    | Invoke(key: Key, part: Entries)
    | Get(call: nat)
    | GetFails(call: nat)
    | Swap(call: nat)
    | SwapFails(call: nat, applied: bool)

  const INITIAL := Cluster(map[], [], [])

  function Lookup(cache: map<Key, Entries>, key: Key): Option<Entries> {
    if key in cache then Some(cache[key]) else None
  }

  function Attempts(retries: nat): nat {
    if retries == 0 then 1 else retries
  }

  /** Merging into an absent key stores the bucket itself. */
  function Replacement(seen: Option<Entries>, part: Entries): Entries {
    match seen
    case Some(current) => MergeEntries(current, part)
    case None => part
  }

  function PartsOn(log: seq<Landing>, key: Key): seq<Entries> {
    if log == [] then [] else
      var last := log[|log| - 1];
      PartsOn(log[..|log| - 1], key) + if last.key == key then [last.part] else []
  }

  ghost predicate Enabled(s: Cluster, a: Action) {
    match a
    case Invoke(_, part) => Canonical(part)
    case Get(c) => c < |s.calls| && s.calls[c].phase.Reading?
    case GetFails(c) => c < |s.calls| && s.calls[c].phase.Reading?
    case Swap(c) => c < |s.calls| && s.calls[c].phase.Writing?
    case SwapFails(c, applied) =>
      c < |s.calls| && s.calls[c].phase.Writing? &&
      (applied ==> Lookup(s.cache, s.calls[c].key) == s.calls[c].phase.seen)
  }

  function WithPhase(s: Cluster, c: nat, phase: Phase): Cluster
    requires c < |s.calls|
  {
    s.(calls := s.calls[c := s.calls[c].(phase := phase)])
  }

  /** The write of call `c` takes effect. */
  function Land(s: Cluster, c: nat, outcome: Outcome): Cluster
    requires c < |s.calls| && s.calls[c].phase.Writing?
  {
    var call := s.calls[c];
    WithPhase(s, c, Returned(outcome)).(
      cache := s.cache[call.key := Replacement(call.phase.seen, call.part)],
      log := s.log + [Landing(c, call.key, call.part)])
  }

  ghost function Next(s: Cluster, a: Action, retries: nat): Cluster
    requires Enabled(s, a)
  {
    match a
    case Invoke(key, part) =>
      s.(calls := s.calls + [Call(key, part, |PartsOn(s.log, key)|, Reading(0))])
    case Get(c) =>
      var call := s.calls[c];
      WithPhase(s, c, Writing(call.phase.failed, Lookup(s.cache, call.key), |PartsOn(s.log, call.key)|))
    case GetFails(c) => WithPhase(s, c, Returned(CacheFailed))
    case Swap(c) =>
      var call := s.calls[c];
      if Lookup(s.cache, call.key) == call.phase.seen then Land(s, c, Merged)
      else if call.phase.failed + 1 == Attempts(retries) then WithPhase(s, c, Returned(RetriesExhausted))
      else WithPhase(s, c, Reading(call.phase.failed + 1))
    case SwapFails(c, applied) =>
      if applied then Land(s, c, CacheFailed) else WithPhase(s, c, Returned(CacheFailed))
  }

  /** Any interleaving at all, from the empty cache. */
  ghost predicate Run(trace: seq<Cluster>, actions: seq<Action>, retries: nat) {
    |trace| == |actions| + 1 && trace[0] == INITIAL &&
    forall i | 0 <= i < |actions| ::
      Enabled(trace[i], actions[i]) && trace[i + 1] == Next(trace[i], actions[i], retries)
  }

  // ------------------------------------------------------------ the invariant

  /** What the cache holds for a key after the given merges. */
  function StoredAs(parts: seq<Entries>): Option<Entries> {
    if parts == [] then None else Some(MergeAll(parts))
  }

  ghost predicate Landed(log: seq<Landing>, c: nat) {
    exists i | 0 <= i < |log| :: log[i].call == c
  }

  ghost predicate LogInv(s: Cluster) {
    && (forall i | 0 <= i < |s.log| ::
          s.log[i].call < |s.calls| && s.log[i].key == s.calls[s.log[i].call].key &&
          s.log[i].part == s.calls[s.log[i].call].part)
    && (forall i, j | 0 <= i < j < |s.log| :: s.log[i].call != s.log[j].call)
  }

  /** A call that gave up was beaten by a full set of other merges of its key. */
  ghost predicate CallInv(s: Cluster, c: nat, retries: nat)
    requires c < |s.calls|
  {
    var call := s.calls[c];
    var landed := |PartsOn(s.log, call.key)|;
    Canonical(call.part) &&
    match call.phase
    case Reading(failed) =>
      !Landed(s.log, c) && failed < Attempts(retries) && call.startedAt + failed <= landed
    case Writing(failed, seen, at) =>
      !Landed(s.log, c) && failed < Attempts(retries) && call.startedAt + failed <= at <= landed &&
      seen == StoredAs(PartsOn(s.log, call.key)[..at])
    case Returned(Merged) => Landed(s.log, c)
    case Returned(RetriesExhausted) =>
      !Landed(s.log, c) && call.startedAt + Attempts(retries) <= landed
    case Returned(CacheFailed) => true
  }

  ghost predicate Inv(s: Cluster, retries: nat) {
    && LogInv(s)
    && (forall key :: Lookup(s.cache, key) == StoredAs(PartsOn(s.log, key)))
    && (forall c | 0 <= c < |s.calls| :: CallInv(s, c, retries))
  }

  lemma {:induction false} PartsOnCanonical(s: Cluster, retries: nat, log: seq<Landing>, key: Key)
    requires Inv(s, retries) && log <= s.log
    ensures AllCanonical(PartsOn(log, key))
    decreases |log|
  {
    if log != [] {
      var last := log[|log| - 1];
      PartsOnCanonical(s, retries, log[..|log| - 1], key);
      assert last == s.log[|log| - 1] && CallInv(s, last.call, retries);
    }
  }

  lemma PartsOnAppend(log: seq<Landing>, l: Landing, key: Key)
    ensures PartsOn(log + [l], key) == if l.key == key then PartsOn(log, key) + [l.part] else PartsOn(log, key)
  {
    assert (log + [l])[..|log|] == log;
    assert PartsOn(log, key) + [] == PartsOn(log, key);
  }

  /** A landing extends the history; calls other than the lander keep their invariant. */
  lemma LandKeepsOthers(s: Cluster, c: nat, outcome: Outcome, d: nat, retries: nat)
    requires Inv(s, retries) && c < |s.calls| && s.calls[c].phase.Writing? && d < |s.calls| && d != c
    ensures CallInv(Land(s, c, outcome), d, retries)
  {
    var s' := Land(s, c, outcome);
    var call, other := s.calls[c], s.calls[d];
    assert CallInv(s, d, retries) && s'.calls[d] == other;
    PartsOnAppend(s.log, Landing(c, call.key, call.part), other.key);
    assert Landed(s'.log, d) <==> Landed(s.log, d) by {
      forall i | 0 <= i < |s.log| ensures s'.log[i] == s.log[i] {}
    }
    if other.phase.Writing? {
      assert PartsOn(s'.log, other.key)[..other.phase.seenAt] == PartsOn(s.log, other.key)[..other.phase.seenAt];
    }
  }

  lemma StoredAfter(before: seq<Entries>, part: Entries)
    ensures StoredAs(before + [part]) == Some(Replacement(StoredAs(before), part))
  {
    assert (before + [part])[..|before|] == before;
    if before == [] { MergeAllSingle(part); }
  }

  lemma LandKeepsInv(s: Cluster, c: nat, outcome: Outcome, retries: nat)
    requires Inv(s, retries) && c < |s.calls| && s.calls[c].phase.Writing?
    requires Lookup(s.cache, s.calls[c].key) == s.calls[c].phase.seen
    requires outcome == Merged || outcome == CacheFailed
    ensures Inv(Land(s, c, outcome), retries)
  {
    var s' := Land(s, c, outcome);
    assert CallInv(s, c, retries);
    forall key ensures Lookup(s'.cache, key) == StoredAs(PartsOn(s'.log, key)) { LandKeepsStore(s, c, outcome, key); }
    LandKeepsLog(s, c, outcome);
    forall d | 0 <= d < |s'.calls| ensures CallInv(s', d, retries) {
      if d != c {
        LandKeepsOthers(s, c, outcome, d, retries);
      } else {
        assert s'.log[|s.log|].call == c;
      }
    }
  }

  lemma LandKeepsStore(s: Cluster, c: nat, outcome: Outcome, key: Key)
    requires c < |s.calls| && s.calls[c].phase.Writing? && Lookup(s.cache, s.calls[c].key) == s.calls[c].phase.seen
    requires Lookup(s.cache, key) == StoredAs(PartsOn(s.log, key))
    ensures Lookup(Land(s, c, outcome).cache, key) == StoredAs(PartsOn(Land(s, c, outcome).log, key))
  {
    var call := s.calls[c];
    PartsOnAppend(s.log, Landing(c, call.key, call.part), key);
    if key == call.key { StoredAfter(PartsOn(s.log, key), call.part); }
  }

  lemma LandKeepsLog(s: Cluster, c: nat, outcome: Outcome)
    requires LogInv(s) && c < |s.calls| && s.calls[c].phase.Writing? && !Landed(s.log, c)
    ensures LogInv(Land(s, c, outcome))
  {
    var s' := Land(s, c, outcome);
    forall i, j | 0 <= i < j < |s'.log| ensures s'.log[i].call != s'.log[j].call {
      assert i < |s.log| && s'.log[i] == s.log[i];
    }
  }

  lemma StaleRead(parts: seq<Entries>, at: nat)
    requires at <= |parts|
    ensures StoredAs(parts[..at]) != StoredAs(parts) ==> at < |parts|
  {
    assert parts[..|parts|] == parts;
  }

  /** A lost swap means the key was merged by someone else since the read. */
  lemma LostSwapWasOvertaken(s: Cluster, c: nat, retries: nat)
    requires Inv(s, retries) && c < |s.calls| && s.calls[c].phase.Writing?
    requires Lookup(s.cache, s.calls[c].key) != s.calls[c].phase.seen
    ensures s.calls[c].phase.seenAt < |PartsOn(s.log, s.calls[c].key)|
  {
    assert CallInv(s, c, retries);
    StaleRead(PartsOn(s.log, s.calls[c].key), s.calls[c].phase.seenAt);
  }

  /** A step that only moves one call keeps the invariant if it holds of that call. */
  lemma PhaseKeepsInv(s: Cluster, c: nat, phase: Phase, retries: nat)
    requires Inv(s, retries) && c < |s.calls| && CallInv(WithPhase(s, c, phase), c, retries)
    ensures Inv(WithPhase(s, c, phase), retries)
  {
    var s' := WithPhase(s, c, phase);
    forall d | 0 <= d < |s'.calls| ensures CallInv(s', d, retries) {
      assert CallInv(s, d, retries);
    }
  }

  lemma InvokeKeepsInv(s: Cluster, key: Key, part: Entries, retries: nat)
    requires Inv(s, retries) && Canonical(part)
    ensures Inv(Next(s, Invoke(key, part), retries), retries)
  {
    var s' := Next(s, Invoke(key, part), retries);
    forall d | 0 <= d < |s'.calls| ensures CallInv(s', d, retries) {
      if d < |s.calls| {
        assert CallInv(s, d, retries);
      } else {
        assert !Landed(s.log, d);
      }
    }
  }

  lemma StepKeepsInv(s: Cluster, a: Action, retries: nat)
    requires Inv(s, retries) && Enabled(s, a)
    ensures Inv(Next(s, a, retries), retries)
  {
    match a {
      case Invoke(key, part) =>
        InvokeKeepsInv(s, key, part, retries);
      case Get(c) =>
        GetKeepsInv(s, c, retries);
      case GetFails(c) =>
        assert CallInv(s, c, retries);
        PhaseKeepsInv(s, c, Returned(CacheFailed), retries);
      case Swap(c) =>
        SwapKeepsInv(s, c, retries);
      case SwapFails(c, applied) =>
        assert CallInv(s, c, retries);
        if applied {
          LandKeepsInv(s, c, CacheFailed, retries);
        } else {
          PhaseKeepsInv(s, c, Returned(CacheFailed), retries);
        }
    }
  }

  lemma GetKeepsInv(s: Cluster, c: nat, retries: nat)
    requires Inv(s, retries) && Enabled(s, Get(c))
    ensures Inv(Next(s, Get(c), retries), retries)
  {
    var call := s.calls[c];
    var parts := PartsOn(s.log, call.key);
    assert CallInv(s, c, retries) && parts[..|parts|] == parts;
    PhaseKeepsInv(s, c, Writing(call.phase.failed, Lookup(s.cache, call.key), |parts|), retries);
  }

  lemma SwapKeepsInv(s: Cluster, c: nat, retries: nat)
    requires Inv(s, retries) && Enabled(s, Swap(c))
    ensures Inv(Next(s, Swap(c), retries), retries)
  {
    assert CallInv(s, c, retries);
    if Lookup(s.cache, s.calls[c].key) == s.calls[c].phase.seen {
      LandKeepsInv(s, c, Merged, retries);
    } else {
      LostSwapWasOvertaken(s, c, retries);
      var failed := s.calls[c].phase.failed + 1;
      PhaseKeepsInv(s, c, if failed == Attempts(retries) then Returned(RetriesExhausted) else Reading(failed), retries);
    }
  }

  /** Every state of every interleaving satisfies the invariant. */
  lemma {:induction false} RunInvariant(trace: seq<Cluster>, actions: seq<Action>, retries: nat, i: nat)
    requires Run(trace, actions, retries) && i < |trace|
    ensures Inv(trace[i], retries)
  {
    if i > 0 {
      RunInvariant(trace, actions, retries, i - 1);
      StepKeepsInv(trace[i - 1], actions[i - 1], retries);
    }
  }

  // ---------------------------------------------------------- main theorems

  ghost function LandedCalls(log: seq<Landing>): set<nat> {
    set i | 0 <= i < |log| :: log[i].call
  }

  /** The parts of the chosen calls on one key, in call order: no reference to timing. */
  ghost function PartsOfCalls(calls: seq<Call>, chosen: set<nat>, key: Key): seq<Entries> {
    if calls == [] then [] else
      var c := |calls| - 1;
      PartsOfCalls(calls[..c], chosen, key) +
      if c in chosen && calls[c].key == key then [calls[c].part] else []
  }

  lemma {:induction false} PartsOfCallsAdd(calls: seq<Call>, chosen: set<nat>, key: Key, c: nat)
    requires c !in chosen
    ensures multiset(PartsOfCalls(calls, chosen + {c}, key)) ==
            multiset(PartsOfCalls(calls, chosen, key)) +
            (if c < |calls| && calls[c].key == key then multiset{calls[c].part} else multiset{})
  {
    if calls != [] {
      var last := |calls| - 1;
      PartsOfCallsAdd(calls[..last], chosen, key, c);
      var mine := if last in chosen && calls[last].key == key then [calls[last].part] else [];
      var theirs := if last in chosen + {c} && calls[last].key == key then [calls[last].part] else [];
      assert PartsOfCalls(calls, chosen, key) == PartsOfCalls(calls[..last], chosen, key) + mine;
      assert PartsOfCalls(calls, chosen + {c}, key) == PartsOfCalls(calls[..last], chosen + {c}, key) + theirs;
      assert multiset(theirs) == multiset(mine) +
        (if c == last && calls[c].key == key then multiset{calls[c].part} else multiset{});
    }
  }

  lemma {:induction false} PartsOfNoCalls(calls: seq<Call>, key: Key)
    ensures PartsOfCalls(calls, {}, key) == []
  {
    if calls != [] { PartsOfNoCalls(calls[..|calls| - 1], key); }
  }

  lemma {:induction false} LogPartsAreCallParts(s: Cluster, log: seq<Landing>, key: Key)
    requires LogInv(s) && log <= s.log
    ensures multiset(PartsOn(log, key)) == multiset(PartsOfCalls(s.calls, LandedCalls(log), key))
    decreases |log|
  {
    if log == [] {
      assert LandedCalls(log) == {};
      PartsOfNoCalls(s.calls, key);
    } else {
      var front, last := log[..|log| - 1], log[|log| - 1];
      assert last == s.log[|log| - 1];
      LogPartsAreCallParts(s, front, key);
      NotYetLanded(s, log);
      LandedCallsGrow(front, last);
      assert log == front + [last];
      PartsOfCallsAdd(s.calls, LandedCalls(front), key, last.call);
    }
  }

  lemma NotYetLanded(s: Cluster, log: seq<Landing>)
    requires LogInv(s) && log <= s.log && log != []
    ensures log[|log| - 1].call !in LandedCalls(log[..|log| - 1])
  {
    forall i | 0 <= i < |log| - 1 ensures log[i].call != log[|log| - 1].call {
      assert log[i] == s.log[i] && log[|log| - 1] == s.log[|log| - 1];
    }
  }

  lemma LandedCallsGrow(front: seq<Landing>, last: Landing)
    ensures LandedCalls(front + [last]) == LandedCalls(front) + {last.call}
  {
    var log := front + [last];
    forall c | c in LandedCalls(log) ensures c in LandedCalls(front) + {last.call} {
      var i :| 0 <= i < |log| && log[i].call == c;
      assert i < |front| ==> front[i] == log[i];
    }
    forall c | c in LandedCalls(front) ensures c in LandedCalls(log) {
      var i :| 0 <= i < |front| && front[i].call == c;
      assert log[i] == front[i];
    }
    assert log[|front|].call == last.call;
  }

  lemma LandedStore(s: Cluster, retries: nat, key: Key)
    requires Inv(s, retries)
    ensures Lookup(s.cache, key) == StoredAs(PartsOfCalls(s.calls, LandedCalls(s.log), key))
  {
    var inOrder, byCall := PartsOn(s.log, key), PartsOfCalls(s.calls, LandedCalls(s.log), key);
    LogPartsAreCallParts(s, s.log, key);
    PartsOnCanonical(s, retries, s.log, key);
    MergeAllPermutation(inOrder, byCall);
    assert |multiset(inOrder)| == |inOrder| && |multiset(byCall)| == |byCall|;
  }

  lemma LandedOutcome(s: Cluster, retries: nat, c: nat)
    requires Inv(s, retries) && c < |s.calls|
    ensures s.calls[c].phase == Returned(Merged) ==> c in LandedCalls(s.log)
    ensures c in LandedCalls(s.log) ==>
              s.calls[c].phase == Returned(Merged) || s.calls[c].phase == Returned(CacheFailed)
  {
    assert CallInv(s, c, retries);
    assert c in LandedCalls(s.log) <==> Landed(s.log, c);
  }

  /**
   For every interleaving: the stored bucket is the merge of exactly the landed calls'
   contributions, each once; a call that returned Ok is among them, one that exhausted its
   retries or is still running is not.
   */
  lemma StoredIsMergeOfLandedCalls(trace: seq<Cluster>, actions: seq<Action>, retries: nat, i: nat, key: Key)
    requires Run(trace, actions, retries) && i < |trace|
    ensures
      var s, landed := trace[i], LandedCalls(trace[i].log);
      && Lookup(s.cache, key) == StoredAs(PartsOfCalls(s.calls, landed, key))
      && forall c | 0 <= c < |s.calls| ::
           && (s.calls[c].phase == Returned(Merged) ==> c in landed)
           && (c in landed ==> s.calls[c].phase == Returned(Merged) || s.calls[c].phase == Returned(CacheFailed))
  {
    RunInvariant(trace, actions, retries, i);
    LandedStore(trace[i], retries, key);
    forall c | 0 <= c < |trace[i].calls| {
      LandedOutcome(trace[i], retries, c);
    }
  }

  /** The call made at step `r` keeps its key and part, and remembers how often its key had been merged. */
  lemma {:induction false} InvokedAs(trace: seq<Cluster>, actions: seq<Action>, retries: nat, r: nat, t: nat)
    requires Run(trace, actions, retries) && r < t < |trace| && actions[r].Invoke?
    ensures
      var c, key := |trace[r].calls|, actions[r].key;
      && c < |trace[t].calls| && trace[t].calls[c].key == key && trace[t].calls[c].part == actions[r].part
      && trace[t].calls[c].startedAt == |PartsOn(trace[r].log, key)|
  {
    RunStep(trace, actions, retries, t - 1);
    if t - 1 == r {
      InvokeAdds(trace[r], actions[r], retries);
    } else {
      InvokedAs(trace, actions, retries, r, t - 1);
      CallsPersist(trace[t - 1], actions[t - 1], retries, |trace[r].calls|);
    }
  }

  lemma InvokeAdds(s: Cluster, a: Action, retries: nat)
    requires Enabled(s, a) && a.Invoke?
    ensures
      var c, calls := |s.calls|, Next(s, a, retries).calls;
      && |calls| == c + 1 && calls[c].key == a.key && calls[c].part == a.part
      && calls[c].startedAt == |PartsOn(s.log, a.key)|
  {}

  lemma RunStep(trace: seq<Cluster>, actions: seq<Action>, retries: nat, i: nat)
    requires Run(trace, actions, retries) && i < |actions|
    ensures Enabled(trace[i], actions[i]) && trace[i + 1] == Next(trace[i], actions[i], retries)
  {}

  lemma CallsPersist(s: Cluster, a: Action, retries: nat, c: nat)
    requires Enabled(s, a) && c < |s.calls|
    ensures c < |Next(s, a, retries).calls| && Next(s, a, retries).calls[c].(phase := s.calls[c].phase) == s.calls[c]
  {}

  // How often a call loses.

  /** The step is call `c`'s swap, and finds that the key has changed since the read. */
  ghost predicate LosesSwap(s: Cluster, a: Action, c: nat) {
    && a == Swap(c) && c < |s.calls| && s.calls[c].phase.Writing?
    && Lookup(s.cache, s.calls[c].key) != s.calls[c].phase.seen
  }

  ghost function LostSwaps(trace: seq<Cluster>, actions: seq<Action>, c: nat, t: nat): nat
    requires t <= |actions| < |trace|
  {
    if t == 0 then 0
    else LostSwaps(trace, actions, c, t - 1) + if LosesSwap(trace[t - 1], actions[t - 1], c) then 1 else 0
  }

  /** A call that has lost `lost` times. */
  ghost predicate LossInv(phase: Phase, lost: nat, retries: nat) {
    match phase
    case Reading(failed) => lost == failed < Max(retries, 1)
    case Writing(failed, _, _) => lost == failed < Max(retries, 1)
    case Returned(outcome) => if outcome == RetriesExhausted then lost == Max(retries, 1) else lost < Max(retries, 1)
  }

  lemma StepKeepsLosses(s: Cluster, a: Action, retries: nat, c: nat, lost: nat)
    requires Enabled(s, a) && c < |Next(s, a, retries).calls|
    requires if c < |s.calls| then LossInv(s.calls[c].phase, lost, retries) else lost == 0
    ensures LossInv(Next(s, a, retries).calls[c].phase, if LosesSwap(s, a, c) then lost + 1 else lost, retries)
  {}

  lemma {:induction false} LossesAre(trace: seq<Cluster>, actions: seq<Action>, retries: nat, t: nat, c: nat)
    requires Run(trace, actions, retries) && t < |trace|
    ensures c < |trace[t].calls| ==> LossInv(trace[t].calls[c].phase, LostSwaps(trace, actions, c, t), retries)
    ensures c >= |trace[t].calls| ==> LostSwaps(trace, actions, c, t) == 0
  {
    if t > 0 {
      LossesAre(trace, actions, retries, t - 1, c);
      RunStep(trace, actions, retries, t - 1);
      if c < |trace[t].calls| {
        StepKeepsLosses(trace[t - 1], actions[t - 1], retries, c, LostSwaps(trace, actions, c, t - 1));
      }
    }
  }

  /** In every interleaving a call gives up exactly when it has lost its swap as often as configured, at least once. */
  lemma ExhaustedAfter(trace: seq<Cluster>, actions: seq<Action>, retries: nat, t: nat, c: nat)
    requires Run(trace, actions, retries) && t < |trace| && c < |trace[t].calls|
    ensures trace[t].calls[c].phase == Returned(RetriesExhausted) <==>
            LostSwaps(trace, actions, c, t) == (if retries == 0 then 1 else retries)
    ensures LostSwaps(trace, actions, c, t) <= (if retries == 0 then 1 else retries)
  {
    LossesAre(trace, actions, retries, t, c);
  }

  /** A swap that finds what the call had read succeeds at once; one that does not is retried or gives up. */
  lemma SwapOutcome(trace: seq<Cluster>, actions: seq<Action>, retries: nat, k: nat, c: nat)
    requires Run(trace, actions, retries) && k < |actions| && actions[k] == Swap(c)
    ensures
      var s, s' := trace[k], trace[k + 1];
      && (s'.calls[c].phase == Returned(Merged) <==> Lookup(s.cache, s.calls[c].key) == s.calls[c].phase.seen)
      && (!s'.calls[c].phase.Returned? <==>
            LosesSwap(s, actions[k], c) && LostSwaps(trace, actions, c, k + 1) < (if retries == 0 then 1 else retries))
  {
    RunStep(trace, actions, retries, k);
    LossesAre(trace, actions, retries, k, c);
    LossesAre(trace, actions, retries, k + 1, c);
  }

  /**
   A call made at step `r` fails by exhaustion only if, while it ran, as many merges of its key
   by other calls landed as it had attempts.
   */
  lemma ExhaustionNeedsContention(trace: seq<Cluster>, actions: seq<Action>, retries: nat, r: nat, t: nat)
    requires Run(trace, actions, retries) && r < t < |trace| && actions[r].Invoke?
    requires |trace[r].calls| < |trace[t].calls|
    requires trace[t].calls[|trace[r].calls|].phase == Returned(RetriesExhausted)
    ensures
      var c, key := |trace[r].calls|, actions[r].key;
      && c !in LandedCalls(trace[t].log)
      && |PartsOn(trace[r].log, key)| + (if retries == 0 then 1 else retries) <= |PartsOn(trace[t].log, key)|
  {
    var c := |trace[r].calls|;
    InvokedAs(trace, actions, retries, r, t);
    RunInvariant(trace, actions, retries, t);
    assert CallInv(trace[t], c, retries);
    assert !Landed(trace[t].log, c);
  }

  ghost predicate SameCalls(xs: seq<Call>, ys: seq<Call>) {
    |xs| == |ys| && forall c | 0 <= c < |xs| :: xs[c].key == ys[c].key && xs[c].part == ys[c].part
  }

  lemma {:induction false} PartsOfSameCalls(xs: seq<Call>, ys: seq<Call>, chosen: set<nat>, key: Key)
    requires SameCalls(xs, ys)
    ensures PartsOfCalls(xs, chosen, key) == PartsOfCalls(ys, chosen, key)
  {
    if xs != [] { PartsOfSameCalls(xs[..|xs| - 1], ys[..|ys| - 1], chosen, key); }
  }

  /** Two interleavings of the same calls that land the same ones leave the same cache. */
  lemma InterleavingDoesNotMatter(
    t1: seq<Cluster>, a1: seq<Action>, t2: seq<Cluster>, a2: seq<Action>, retries: nat, i: nat, j: nat)
    requires Run(t1, a1, retries) && Run(t2, a2, retries) && i < |t1| && j < |t2|
    requires SameCalls(t1[i].calls, t2[j].calls) && LandedCalls(t1[i].log) == LandedCalls(t2[j].log)
    ensures t1[i].cache == t2[j].cache
  {
    forall key ensures Lookup(t1[i].cache, key) == Lookup(t2[j].cache, key) {
      StoredIsMergeOfLandedCalls(t1, a1, retries, i, key);
      StoredIsMergeOfLandedCalls(t2, a2, retries, j, key);
      PartsOfSameCalls(t1[i].calls, t2[j].calls, LandedCalls(t1[i].log), key);
    }
    assert forall key :: key in t1[i].cache <==> Lookup(t1[i].cache, key).Some?;
    assert forall key :: key in t2[j].cache <==> Lookup(t2[j].cache, key).Some?;
    forall key | key in t1[i].cache ensures key in t2[j].cache && t1[i].cache[key] == t2[j].cache[key] {
      assert Lookup(t1[i].cache, key) == Lookup(t2[j].cache, key);
    }
  }
}
