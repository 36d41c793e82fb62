/**
 A node whose worker stores each bucket by the compare-and-swap loop, among other nodes that do
 the same: every run of it is a run of `StatsWorker`, where merging one key is a single step.
 */
module StatsNode {
  import opened Prelude
  import opened StatsBuckets
  import C = StatsCas
  import W = StatsWorker

  /** `own` is the merge call the worker is waiting for; the recorder's store is the cluster's cache. */
  datatype Node = Node(cluster: C.Cluster, recorder: W.Recorder, own: Option<nat>)

  datatype Step =
    | Local(a: W.Action)
    | BeginMerge(key: C.Key)
    | RemoteMerge(key: C.Key, part: Entries)
    | Cas(op: C.Action)

  /** The bucket that the worker's batch has for a key. */
  function BucketFor(r: W.Recorder, key: C.Key): Entries {
    MergeAll(W.PartsOf(W.ObsOn(W.BatchOf(r.worker), key)))
  }

  /** The node as `StatsWorker` sees it. */
  function View(n: Node): W.Recorder {
    n.recorder.(store := n.cluster.cache)
  }

  /** Callers and the worker outside a merge. */
  predicate StoresNothing(a: W.Action) {
    !a.MergeKey? && !a.MergeFails? && !a.ForeignMerge?
  }

  ghost predicate Enabled(n: Node, step: Step, limits: W.Limits) {
    match step
    case Local(a) => StoresNothing(a) && W.Enabled(n.recorder, a, limits)
    case BeginMerge(key) =>
      n.own.None? && n.recorder.worker.Merging? && !n.recorder.worker.failed && key in n.recorder.worker.todo
    case RemoteMerge(_, part) => Canonical(part)
    case Cas(op) => !op.Invoke? && C.Enabled(n.cluster, op)
  }

  /** The write of the step's call took effect. */
  ghost predicate Lands(cluster: C.Cluster, op: C.Action, retries: nat)
    requires !op.Invoke? && C.Enabled(cluster, op)
  {
    |C.Next(cluster, op, retries).log| > |cluster.log|
  }

  /** The worker's call has returned: on to the next key, or give up; what was stored is remembered. */
  function AfterMerge(r: W.Recorder, key: C.Key, ok: bool, landed: bool): W.Recorder
    requires r.worker.Merging?
  {
    var worker := r.worker.(todo := if landed then r.worker.todo - {key} else r.worker.todo, failed := !ok);
    r.(worker := worker, log := if landed then r.log + W.PiecesFor(W.ObsOn(r.worker.batch, key)) else r.log)
  }

  ghost function Next(n: Node, step: Step, retries: nat, limits: W.Limits): Node
    requires Joined(n, retries) && W.Inv(View(n)) && Enabled(n, step, limits)
  {
    match step
    case Local(a) => n.(recorder := W.Next(n.recorder, a, limits), own := if a.Crash? then None else n.own)
    case BeginMerge(key) =>
      BucketIsCanonical(View(n), key);
      n.(cluster := C.Next(n.cluster, C.Invoke(key, BucketFor(n.recorder, key)), retries),
        own := Some(|n.cluster.calls|))
    case RemoteMerge(key, part) => n.(cluster := C.Next(n.cluster, C.Invoke(key, part), retries))
    case Cas(op) =>
      var cluster, call := C.Next(n.cluster, op, retries), n.cluster.calls[op.call];
      var landed := Lands(n.cluster, op, retries);
      if n.own == Some(op.call) then
        match cluster.calls[op.call].phase
        case Returned(outcome) =>
          Node(cluster, AfterMerge(n.recorder, call.key, outcome == C.Merged, landed), None)
        case _ => n.(cluster := cluster)
      else if landed then
        n.(cluster := cluster, recorder := n.recorder.(log := n.recorder.log + [W.Piece(None, call.key, call.part)]))
      else n.(cluster := cluster)
  }

  /** The cluster's own invariant, and the worker in the middle of merging its call's key. */
  ghost predicate Joined(n: Node, retries: nat) {
    && C.Inv(n.cluster, retries)
    && (n.own.Some? ==>
          && n.own.value < |n.cluster.calls| && n.recorder.worker.Merging? && !n.recorder.worker.failed
          && var call := n.cluster.calls[n.own.value];
             !call.phase.Returned? && call.key in n.recorder.worker.todo &&
             call.part == BucketFor(n.recorder, call.key))
  }

  lemma BucketIsCanonical(r: W.Recorder, key: C.Key)
    requires W.Inv(r)
    ensures Canonical(BucketFor(r, key))
  {
    var obs := W.ObsOn(W.BatchOf(r.worker), key);
    forall k | 0 <= k < |obs| ensures Canonical(obs[k].part) { W.BatchOn(r, key, k); }
    MergeAllCanonical(W.PartsOf(obs));
  }

  // ---------------------------------------------------------------- refinement

  /** What one step of a call does to the cache: nothing, or one merge of its bucket into what is there. */
  lemma CasStep(cluster: C.Cluster, op: C.Action, retries: nat)
    requires !op.Invoke? && C.Enabled(cluster, op)
    ensures
      var after, call := C.Next(cluster, op, retries), cluster.calls[op.call];
      && |after.calls| == |cluster.calls|
      && (forall c | 0 <= c < |after.calls| && c != op.call :: after.calls[c] == cluster.calls[c])
      && after.calls[op.call].key == call.key && after.calls[op.call].part == call.part
      && (Lands(cluster, op, retries) ==>
            && after.cache == cluster.cache[call.key := C.Replacement(C.Lookup(cluster.cache, call.key), call.part)]
            && after.calls[op.call].phase.Returned?)
      && (!Lands(cluster, op, retries) ==> after.cache == cluster.cache)
      && (after.calls[op.call].phase == C.Returned(C.Merged) ==> Lands(cluster, op, retries))
  {}

  /** The step of `StatsWorker` that a step amounts to, if any. */
  ghost function Meaning(n: Node, step: Step, retries: nat, limits: W.Limits): Option<W.Action>
    requires Enabled(n, step, limits)
  {
    match step
    case Local(a) => Some(a)
    case BeginMerge(_) => None
    case RemoteMerge(_, _) => None
    case Cas(op) =>
      var call, phase := n.cluster.calls[op.call], C.Next(n.cluster, op, retries).calls[op.call].phase;
      var landed := Lands(n.cluster, op, retries);
      if n.own == Some(op.call) then
        if phase == C.Returned(C.Merged) then Some(W.MergeKey(call.key))
        else if phase.Returned? then Some(W.MergeFails(call.key, landed)) else None
      else if landed then Some(W.ForeignMerge(call.key, call.part)) else None
  }

  ghost predicate Refines(r: W.Recorder, a: Option<W.Action>, r': W.Recorder, limits: W.Limits) {
    match a
    case None => r' == r
    case Some(a) => W.Enabled(r, a, limits) && r' == W.Next(r, a, limits)
  }

  lemma LocalRefines(n: Node, a: W.Action, retries: nat, limits: W.Limits)
    requires Joined(n, retries) && W.Inv(View(n)) && Enabled(n, Local(a), limits)
    ensures
      var n' := Next(n, Local(a), retries, limits);
      Joined(n', retries) && Refines(View(n), Some(a), View(n'), limits)
  {
    StoreUntouched(n.recorder, n.cluster.cache, a, limits);
    KeepsMerging(n.recorder, a, limits);
  }

  lemma StoreUntouched(r: W.Recorder, store: map<C.Key, Entries>, a: W.Action, limits: W.Limits)
    requires StoresNothing(a) && W.Enabled(r, a, limits)
    ensures W.Enabled(r.(store := store), a, limits)
    ensures W.Next(r.(store := store), a, limits) == W.Next(r, a, limits).(store := store)
  {}

  /** Only its own merges and a crash move a worker that still has keys to merge. */
  lemma KeepsMerging(r: W.Recorder, a: W.Action, limits: W.Limits)
    requires StoresNothing(a) && W.Enabled(r, a, limits)
    ensures r.worker.Merging? && !r.worker.failed && r.worker.todo != {} && !a.Crash? ==>
              W.Next(r, a, limits).worker == r.worker
  {}

  lemma InvokeRefines(n: Node, key: C.Key, part: Entries, own: Option<nat>, retries: nat)
    requires Joined(n, retries) && Canonical(part)
    requires own != n.own ==>
               && own == Some(|n.cluster.calls|) && n.recorder.worker.Merging? && !n.recorder.worker.failed
               && key in n.recorder.worker.todo && part == BucketFor(n.recorder, key)
    ensures
      var n' := n.(cluster := C.Next(n.cluster, C.Invoke(key, part), retries), own := own);
      Joined(n', retries) && View(n') == View(n)
  {
    C.StepKeepsInv(n.cluster, C.Invoke(key, part), retries);
  }

  /** The return of the worker's call is the atomic merge of its key, or its failure. */
  lemma OwnMerge(r: W.Recorder, key: C.Key, ok: bool, landed: bool, limits: W.Limits)
    requires r.worker.Merging? && !r.worker.failed && key in r.worker.todo && (ok ==> landed)
    ensures
      var store := if landed then r.store[key := C.Replacement(C.Lookup(r.store, key), BucketFor(r, key))] else r.store;
      var a := if ok then W.MergeKey(key) else W.MergeFails(key, landed);
      W.Enabled(r, a, limits) && W.Next(r, a, limits) == AfterMerge(r, key, ok, landed).(store := store)
  {}

  lemma OwnCasRefines(n: Node, op: C.Action, retries: nat, limits: W.Limits)
    requires Joined(n, retries) && W.Inv(View(n)) && Enabled(n, Cas(op), limits) && n.own == Some(op.call)
    ensures Refines(View(n), Meaning(n, Cas(op), retries, limits), View(Next(n, Cas(op), retries, limits)), limits)
  {
    var phase := C.Next(n.cluster, op, retries).calls[op.call].phase;
    CasStep(n.cluster, op, retries);
    if phase.Returned? {
      OwnMerge(View(n), n.cluster.calls[op.call].key, phase.outcome == C.Merged, Lands(n.cluster, op, retries), limits);
    }
  }

  lemma PartIsCanonical(cluster: C.Cluster, c: nat, retries: nat)
    requires C.Inv(cluster, retries) && c < |cluster.calls|
    ensures Canonical(cluster.calls[c].part)
  {
    assert C.CallInv(cluster, c, retries);
  }

  /** A merge landed by another node. */
  lemma OtherMerge(r: W.Recorder, key: C.Key, part: Entries, limits: W.Limits)
    requires Canonical(part)
    ensures
      var a, store := W.ForeignMerge(key, part), r.store[key := C.Replacement(C.Lookup(r.store, key), part)];
      && W.Enabled(r, a, limits)
      && W.Next(r, a, limits) == r.(store := store, log := r.log + [W.Piece(None, key, part)])
  {}

  lemma OtherCasRefines(n: Node, op: C.Action, retries: nat, limits: W.Limits)
    requires Joined(n, retries) && W.Inv(View(n)) && Enabled(n, Cas(op), limits) && n.own != Some(op.call)
    ensures Refines(View(n), Meaning(n, Cas(op), retries, limits), View(Next(n, Cas(op), retries, limits)), limits)
  {
    CasStep(n.cluster, op, retries);
    PartIsCanonical(n.cluster, op.call, retries);
    OtherMerge(View(n), n.cluster.calls[op.call].key, n.cluster.calls[op.call].part, limits);
  }

  lemma CasKeepsJoined(n: Node, op: C.Action, retries: nat, limits: W.Limits)
    requires Joined(n, retries) && W.Inv(View(n)) && Enabled(n, Cas(op), limits)
    ensures Joined(Next(n, Cas(op), retries, limits), retries)
  {
    C.StepKeepsInv(n.cluster, op, retries);
    CasStep(n.cluster, op, retries);
  }

  lemma StepRefines(n: Node, step: Step, retries: nat, limits: W.Limits)
    requires Joined(n, retries) && W.Inv(View(n)) && Enabled(n, step, limits)
    ensures
      var n' := Next(n, step, retries, limits);
      Joined(n', retries) && Refines(View(n), Meaning(n, step, retries, limits), View(n'), limits)
  {
    match step {
      case Local(a) => LocalRefines(n, a, retries, limits);
      case BeginMerge(key) =>
        BucketIsCanonical(View(n), key);
        InvokeRefines(n, key, BucketFor(n.recorder, key), Some(|n.cluster.calls|), retries);
      case RemoteMerge(key, part) => InvokeRefines(n, key, part, n.own, retries);
      case Cas(op) =>
        CasKeepsJoined(n, op, retries, limits);
        if n.own == Some(op.call) {
          OwnCasRefines(n, op, retries, limits);
        } else {
          OtherCasRefines(n, op, retries, limits);
        }
    }
  }

  // ------------------------------------------------------------------ whole runs

  ghost predicate Initial(n: Node) {
    n.cluster == C.INITIAL && W.Fresh(n.recorder) && n.own.None?
  }

  /** The step is possible and leads from one state to the next; the invariants it relies on always hold. */
  ghost predicate Moves(n: Node, step: Step, n': Node, retries: nat, limits: W.Limits) {
    Joined(n, retries) && W.Inv(View(n)) ==> Enabled(n, step, limits) && n' == Next(n, step, retries, limits)
  }

  ghost predicate Run(trace: seq<Node>, steps: seq<Step>, retries: nat, limits: W.Limits) {
    |trace| == |steps| + 1 && Initial(trace[0]) &&
    forall i | 0 <= i < |steps| :: Moves(trace[i], steps[i], trace[i + 1], retries, limits)
  }

  lemma MoveRefines(n: Node, step: Step, n': Node, retries: nat, limits: W.Limits) returns (a: Option<W.Action>)
    requires Joined(n, retries) && W.Inv(View(n)) && Moves(n, step, n', retries, limits)
    ensures Joined(n', retries) && Refines(View(n), a, View(n'), limits)
  {
    a := Meaning(n, step, retries, limits);
    StepRefines(n, step, retries, limits);
  }

  /** Extends a run of the worker by what a step means. */
  lemma ExtendBy(
    states: seq<W.Recorder>, actions: seq<W.Action>, limits: W.Limits, a: Option<W.Action>, r: W.Recorder)
    returns (states': seq<W.Recorder>, actions': seq<W.Action>)
    requires W.Run(states, actions, limits) && Refines(states[|actions|], a, r, limits)
    ensures W.Run(states', actions', limits) && states'[|actions'|] == r
  {
    match a {
      case None => states', actions' := states, actions;
      case Some(a) =>
        states', actions' := states + [r], actions + [a];
        forall i | 0 <= i < |actions'|
          ensures W.Enabled(states'[i], actions'[i], limits) &&
                  states'[i + 1] == W.Next(states'[i], actions'[i], limits)
        {
          if i < |actions| { W.RunStep(states, actions, limits, i); }
        }
    }
  }

  lemma InitialRefines(n: Node, retries: nat, limits: W.Limits)
    returns (states: seq<W.Recorder>, actions: seq<W.Action>)
    requires Initial(n)
    ensures W.Run(states, actions, limits) && states[|actions|] == View(n) && Joined(n, retries)
  {
    states, actions := [View(n)], [];
    C.RunInvariant([C.INITIAL], [], retries, 0);
  }

  lemma Follow(
    states: seq<W.Recorder>, actions: seq<W.Action>, n: Node, step: Step, n': Node, retries: nat, limits: W.Limits)
    returns (states': seq<W.Recorder>, actions': seq<W.Action>)
    requires W.Run(states, actions, limits) && states[|actions|] == View(n) && Joined(n, retries)
    requires Moves(n, step, n', retries, limits)
    ensures W.Run(states', actions', limits) && states'[|actions'|] == View(n') && Joined(n', retries)
  {
    W.RunInvariant(states, actions, limits, |actions|);
    var a := MoveRefines(n, step, n', retries, limits);
    states', actions' := ExtendBy(states, actions, limits, a, View(n'));
  }

  /**
   Every run of a node, its worker and the other nodes storing through compare-and-swap, is a
   run of `StatsWorker`: whatever that module says of every run holds of the cache.
   */
  lemma {:induction false} RunRefines(trace: seq<Node>, steps: seq<Step>, retries: nat, limits: W.Limits, t: nat)
    returns (states: seq<W.Recorder>, actions: seq<W.Action>)
    requires Run(trace, steps, retries, limits) && t < |trace|
    ensures W.Run(states, actions, limits) && states[|actions|] == View(trace[t])
    ensures Joined(trace[t], retries)
  {
    if t == 0 {
      states, actions := InitialRefines(trace[0], retries, limits);
    } else {
      states, actions := RunRefines(trace, steps, retries, limits, t - 1);
      assert Moves(trace[t - 1], steps[t - 1], trace[t], retries, limits);
      states, actions := Follow(states, actions, trace[t - 1], steps[t - 1], trace[t], retries, limits);
    }
  }

  /**
   So through compare-and-swap, too: the cache is at every moment the merge of the stored
   contributions of all nodes, none twice, and an acknowledged observation is among them.
   */
  lemma RecordedThroughCas(trace: seq<Node>, steps: seq<Step>, retries: nat, limits: W.Limits, t: nat)
    requires Run(trace, steps, retries, limits) && t < |trace|
    ensures
      var cache, r := trace[t].cluster.cache, trace[t].recorder;
      && (forall key :: C.Lookup(cache, key) == C.StoredAs(W.PiecesOn(r.log, key)))
      && (forall j, k | 0 <= j < k < |r.log| && r.log[j].source.Some? :: r.log[j].source != r.log[k].source)
      && (forall c | 0 <= c < |r.accepted| && r.accepted[c].Observe? && W.Answered(r, W.IdOf(r.accepted[c]), true) ::
            W.HasPiece(r.log, r.accepted[c].obs))
  {
    var states, actions := RunRefines(trace, steps, retries, limits, t);
    W.RecordedExactlyOnce(states, actions, limits, |actions|);
  }
}
