/**
 The bounded batching recorder: callers enqueue observations and flush barriers, one
 worker drains them in batches, merges each batch per key into the shared store and
 then acknowledges. Merging one key is atomic here; `StatsNode` shows that the
 compare-and-swap loop of `StatsCas` amounts to that.
 */
module StatsWorker {
  import opened Prelude
  import opened StatsBuckets
  import opened StatsCas

  datatype Obs = Obs(id: nat, key: Key, part: Entries)

  /** `id` is the index of the caller that made the command. */
  datatype Command = Observe(obs: Obs, wantsAck: bool) | Flush(caller: nat)

  function IdOf(c: Command): nat {
    match c
    case Observe(obs, _) => obs.id
    case Flush(id) => id
  }

  datatype CallResult = Replied(ok: bool) | Accepted | Dropped | Refused

  /** Where a caller of `record`, `try_record` or `flush` is. */
  datatype Caller =
    | Recording(obs: Obs)
    | Trying(obs: Obs)
    | Dropping
    | Flushing
    | AwaitingReply
    | Finished(result: CallResult)

  datatype Worker =
    | Waiting
    | Draining(batch: seq<Command>)
    | Merging(batch: seq<Command>, todo: set<Key>, failed: bool)
    | Replying(replies: seq<nat>, ok: bool)
    | Gone(batch: seq<Command>)

  /** One contribution that reached the store; `source` is `None` for another node's. */
  datatype Piece = Piece(source: Option<nat>, key: Key, part: Entries)

  /** `accepted`, `outcome` and `log` are history: commands ever enqueued, the result of
      each attempted one, and contributions ever stored. */
  datatype Recorder = Recorder(
    callers: seq<Caller>, queue: seq<Command>, worker: Worker, store: map<Key, Entries>,
    backlog: int, dropped: nat,
    accepted: seq<Command>, outcome: seq<bool>, log: seq<Piece>)

  /** Queue capacity and the batch cap (256 in the code). */
  datatype Limits = Limits(capacity: nat, batchCap: nat)

  datatype Action =
    | BeginRecord(key: Key, part: Entries)
    | BeginTryRecord(key: Key, part: Entries)
    | BeginFlush
    | Send(c: nat)
    | SendRefused(c: nat)
    | TrySend(c: nat)
    | CountDrop(c: nat)
    | Receive
    | Drain
    | Seal
    | MergeKey(key: Key)
    | MergeFails(key: Key, applied: bool)
    | Settle
    | Reply
    | Resume
    | ForeignMerge(key: Key, part: Entries)
    | Crash
    | ReplyLost(c: nat)

  /** Nothing called, queued, stored or remembered yet. */
  predicate Fresh(s: Recorder) {
    && |s.callers| == |s.queue| == |s.accepted| == |s.outcome| == |s.log| == 0
    && s.worker.Waiting? && |s.store| == s.backlog == s.dropped == 0
  }

  // ------------------------------------------------------- batch contents

  function ObsOn(batch: seq<Command>, key: Key): seq<Obs> {
    if batch == [] then [] else
      var last := batch[|batch| - 1];
      ObsOn(batch[..|batch| - 1], key) +
      if last.Observe? && last.obs.key == key then [last.obs] else []
  }

  function PartsOf(obs: seq<Obs>): seq<Entries> {
    seq(|obs|, i requires 0 <= i < |obs| => obs[i].part)
  }

  function KeysOf(batch: seq<Command>): set<Key> {
    set i | 0 <= i < |batch| && batch[i].Observe? :: batch[i].obs.key
  }

  function ObsCount(batch: seq<Command>): nat {
    if batch == [] then 0 else
      ObsCount(batch[..|batch| - 1]) + if batch[|batch| - 1].Observe? then 1 else 0
  }

  /** Callers awaiting this batch: acknowledgements first, then barriers. */
  function AcksOf(batch: seq<Command>): seq<nat> {
    if batch == [] then [] else
      var last := batch[|batch| - 1];
      AcksOf(batch[..|batch| - 1]) + if last.Observe? && last.wantsAck then [last.obs.id] else []
  }

  function BarriersOf(batch: seq<Command>): seq<nat> {
    if batch == [] then [] else
      var last := batch[|batch| - 1];
      BarriersOf(batch[..|batch| - 1]) + if last.Flush? then [last.caller] else []
  }

  /** One bucket per key of the batch: the merge of that key's observations in order. */
  ghost predicate Grouped(batch: seq<Command>, buckets: map<Key, Entries>) {
    buckets.Keys == KeysOf(batch) &&
    forall key | key in buckets :: buckets[key] == MergeAll(PartsOf(ObsOn(batch, key)))
  }

  /** The worker's grouping loop. */
  method CollectBatch(commands: seq<Command>)
    returns (buckets: map<Key, Entries>, acks: seq<nat>, barriers: seq<nat>, observations: nat)
    ensures Grouped(commands, buckets)
    ensures acks == AcksOf(commands) && barriers == BarriersOf(commands)
    ensures observations == ObsCount(commands)
  {
    buckets, acks, barriers, observations := map[], [], [], 0;
    for i := 0 to |commands|
      invariant Grouped(commands[..i], buckets)
      invariant acks == AcksOf(commands[..i]) && barriers == BarriersOf(commands[..i])
      invariant observations == ObsCount(commands[..i])
    {
      var command := commands[i];
      GroupedExtend(commands[..i], command, buckets);
      assert commands[..i + 1] == commands[..i] + [command];
      assert commands[..i + 1][..i] == commands[..i];
      match command {
        case Observe(obs, wantsAck) =>
          if obs.key in buckets {
            buckets := buckets[obs.key := MergeEntries(buckets[obs.key], obs.part)];
          } else {
            buckets := buckets[obs.key := obs.part];
          }
          if wantsAck {
            acks := acks + [obs.id];
          }
          observations := observations + 1;
        case Flush(id) =>
          barriers := barriers + [id];
      }
    }
    assert commands[..|commands|] == commands;
  }

  lemma GroupedExtend(batch: seq<Command>, c: Command, buckets: map<Key, Entries>)
    requires Grouped(batch, buckets)
    ensures c.Observe? ==>
              var bucket := if c.obs.key in buckets then MergeEntries(buckets[c.obs.key], c.obs.part) else c.obs.part;
              Grouped(batch + [c], buckets[c.obs.key := bucket])
    ensures c.Flush? ==> Grouped(batch + [c], buckets)
  {
    KeysOfExtend(batch, c);
    forall key {
      MergeObsExtend(batch, c, key);
    }
  }

  lemma KeysOfExtend(batch: seq<Command>, c: Command)
    ensures KeysOf(batch + [c]) == KeysOf(batch) + if c.Observe? then {c.obs.key} else {}
  {
    var all := batch + [c];
    forall key | key in KeysOf(batch) ensures key in KeysOf(all) {
      var i :| 0 <= i < |batch| && batch[i].Observe? && batch[i].obs.key == key;
      assert all[i] == batch[i];
    }
    if c.Observe? { assert all[|batch|].obs.key == c.obs.key; }
    forall key | key in KeysOf(all) ensures key in KeysOf(batch) || (c.Observe? && key == c.obs.key) {
      var i :| 0 <= i < |all| && all[i].Observe? && all[i].obs.key == key;
      assert i < |batch| ==> batch[i] == all[i];
    }
  }

  lemma {:induction false} ObsOnAbsent(batch: seq<Command>, key: Key)
    ensures ObsOn(batch, key) == [] <==> key !in KeysOf(batch)
  {
    if batch != [] {
      var front := batch[..|batch| - 1];
      ObsOnAbsent(front, key);
      assert batch == front + [batch[|batch| - 1]];
      KeysOfExtend(front, batch[|batch| - 1]);
    }
  }

  lemma MergeObsExtend(batch: seq<Command>, c: Command, key: Key)
    ensures MergeAll(PartsOf(ObsOn(batch + [c], key))) ==
            if c.Observe? && c.obs.key == key
            then
              if key in KeysOf(batch) then MergeEntries(MergeAll(PartsOf(ObsOn(batch, key))), c.obs.part)
              else c.obs.part
            else MergeAll(PartsOf(ObsOn(batch, key)))
  {
    assert (batch + [c])[..|batch|] == batch;
    ObsOnAbsent(batch, key);
    var before := ObsOn(batch, key);
    if c.Observe? && c.obs.key == key {
      var parts := PartsOf(before + [c.obs]);
      assert parts[..|before|] == PartsOf(before) && parts[|before|] == c.obs.part;
      MergeIdentity(c.obs.part);
    } else {
      assert before + [] == before;
    }
  }

  // --------------------------------------------------------------- steps

  function BatchOf(w: Worker): seq<Command> {
    match w
    case Draining(batch) => batch
    case Merging(batch, _, _) => batch
    case Gone(batch) => batch
    case _ => []
  }

  function PiecesFor(obs: seq<Obs>): seq<Piece> {
    seq(|obs|, i requires 0 <= i < |obs| => Piece(Some(obs[i].id), obs[i].key, obs[i].part))
  }

  /** The batch's bucket for one key reaches the store. */
  function LandKey(s: Recorder, batch: seq<Command>, key: Key): Recorder {
    var obs := ObsOn(batch, key);
    s.(store := s.store[key := Replacement(Lookup(s.store, key), MergeAll(PartsOf(obs)))],
       log := s.log + PiecesFor(obs))
  }

  ghost predicate Enabled(s: Recorder, a: Action, limits: Limits) {
    match a
    case BeginRecord(_, part) => Canonical(part)
    case BeginTryRecord(_, part) => Canonical(part)
    case BeginFlush => true
    case Send(c) =>
      c < |s.callers| && (s.callers[c].Recording? || s.callers[c].Flushing?) &&
      !s.worker.Gone? && |s.queue| < limits.capacity
    case SendRefused(c) =>
      c < |s.callers| && (s.callers[c].Recording? || s.callers[c].Flushing?) && s.worker.Gone?
    case TrySend(c) => c < |s.callers| && s.callers[c].Trying?
    case CountDrop(c) => c < |s.callers| && s.callers[c].Dropping?
    case Receive => s.worker.Waiting? && s.queue != []
    case Drain => s.worker.Draining? && |s.worker.batch| < limits.batchCap && s.queue != []
    case Seal => s.worker.Draining? && (|s.worker.batch| >= limits.batchCap || s.queue == [])
    case MergeKey(key) => s.worker.Merging? && !s.worker.failed && key in s.worker.todo
    case MergeFails(key, _) => s.worker.Merging? && !s.worker.failed && key in s.worker.todo
    case Settle => s.worker.Merging? && (s.worker.failed || s.worker.todo == {})
    case Reply => s.worker.Replying? && s.worker.replies != [] && s.worker.replies[0] < |s.callers|
    case Resume => s.worker.Replying? && s.worker.replies == []
    case ForeignMerge(_, part) => Canonical(part)
    case Crash => !s.worker.Gone?
    case ReplyLost(c) => c < |s.callers| && s.callers[c].AwaitingReply? && s.worker.Gone?
  }

  function Move(s: Recorder, c: nat, to: Caller): Recorder
    requires c < |s.callers|
  {
    s.(callers := s.callers[c := to])
  }

  function Enqueue(s: Recorder, command: Command): Recorder {
    s.(queue := s.queue + [command], accepted := s.accepted + [command])
  }

  ghost function Next(s: Recorder, a: Action, limits: Limits): Recorder
    requires Enabled(s, a, limits)
  {
    match a
    case BeginRecord(key, part) =>
      s.(callers := s.callers + [Recording(Obs(|s.callers|, key, part))], backlog := s.backlog + 1)
    case BeginTryRecord(key, part) =>
      s.(callers := s.callers + [Trying(Obs(|s.callers|, key, part))], backlog := s.backlog + 1)
    case BeginFlush => s.(callers := s.callers + [Flushing])
    case Send(c) =>
      Enqueue(Move(s, c, AwaitingReply), if s.callers[c].Recording? then Observe(s.callers[c].obs, true) else Flush(c))
    case SendRefused(c) =>
      Move(s, c, Finished(Refused)).(backlog := if s.callers[c].Recording? then s.backlog - 1 else s.backlog)
    case TrySend(c) =>
      if s.worker.Gone? || |s.queue| >= limits.capacity
      then Move(s, c, Dropping).(backlog := s.backlog - 1)
      else Enqueue(Move(s, c, Finished(Accepted)), Observe(s.callers[c].obs, false))
    case CountDrop(c) => Move(s, c, Finished(Dropped)).(dropped := s.dropped + 1)
    case Receive => s.(queue := s.queue[1..], worker := Draining([s.queue[0]]))
    case Drain => s.(queue := s.queue[1..], worker := Draining(s.worker.batch + [s.queue[0]]))
    case Seal => s.(worker := Merging(s.worker.batch, KeysOf(s.worker.batch), false))
    case MergeKey(key) =>
      LandKey(s, s.worker.batch, key).(worker := s.worker.(todo := s.worker.todo - {key}))
    case MergeFails(key, applied) =>
      if applied
      then LandKey(s, s.worker.batch, key).(worker := s.worker.(todo := s.worker.todo - {key}, failed := true))
      else s.(worker := s.worker.(failed := true))
    case Settle =>
      s.(worker := Replying(AcksOf(s.worker.batch) + BarriersOf(s.worker.batch), !s.worker.failed),
         backlog := s.backlog - ObsCount(s.worker.batch),
         outcome := s.outcome + seq(|s.worker.batch|, _ => !s.worker.failed))
    case Reply =>
      var answered := Move(s, s.worker.replies[0], Finished(Replied(s.worker.ok)));
      answered.(worker := s.worker.(replies := s.worker.replies[1..]))
    case Resume => s.(worker := Waiting)
    case ForeignMerge(key, part) =>
      s.(store := s.store[key := Replacement(Lookup(s.store, key), part)], log := s.log + [Piece(None, key, part)])
    case Crash => s.(worker := Gone(BatchOf(s.worker)))
    case ReplyLost(c) => Move(s, c, Finished(Refused))
  }

  ghost predicate Run(trace: seq<Recorder>, actions: seq<Action>, limits: Limits) {
    |trace| == |actions| + 1 && Fresh(trace[0]) &&
    forall i | 0 <= i < |actions| ::
      Enabled(trace[i], actions[i], limits) && trace[i + 1] == Next(trace[i], actions[i], limits)
  }

  // ---------------------------------------------------------- accounting

  /** Callers between the backlog increment and the outcome of their send. */
  function Entering(callers: seq<Caller>): nat {
    if callers == [] then 0 else
      var last := callers[|callers| - 1];
      Entering(callers[..|callers| - 1]) + if last.Recording? || last.Trying? then 1 else 0
  }

  function DroppedCalls(callers: seq<Caller>): nat {
    if callers == [] then 0 else
      DroppedCalls(callers[..|callers| - 1]) + if callers[|callers| - 1] == Finished(Dropped) then 1 else 0
  }

  ghost predicate Accounting(s: Recorder) {
    && s.backlog == Entering(s.callers) + ObsCount(s.queue) + ObsCount(BatchOf(s.worker))
    && s.dropped == DroppedCalls(s.callers)
  }

  function EnterWeight(c: Caller): nat { if c.Recording? || c.Trying? then 1 else 0 }

  function DropWeight(c: Caller): nat { if c == Finished(Dropped) then 1 else 0 }

  lemma CountAppend(callers: seq<Caller>, x: Caller)
    ensures Entering(callers + [x]) == Entering(callers) + EnterWeight(x)
    ensures DroppedCalls(callers + [x]) == DroppedCalls(callers) + DropWeight(x)
  {
    assert (callers + [x])[..|callers|] == callers;
  }

  lemma {:induction false} CountUpdate(callers: seq<Caller>, c: nat, x: Caller)
    requires c < |callers|
    ensures Entering(callers[c := x]) == Entering(callers) - EnterWeight(callers[c]) + EnterWeight(x)
    ensures DroppedCalls(callers[c := x]) == DroppedCalls(callers) - DropWeight(callers[c]) + DropWeight(x)
  {
    var last := |callers| - 1;
    if c == last {
      assert callers[c := x][..last] == callers[..last];
    } else {
      assert callers[c := x][..last] == callers[..last][c := x];
      CountUpdate(callers[..last], c, x);
    }
  }

  lemma {:induction false} ObsCountConcat(xs: seq<Command>, ys: seq<Command>)
    ensures ObsCount(xs + ys) == ObsCount(xs) + ObsCount(ys)
    decreases |ys|
  {
    if ys == [] {
      assert xs + ys == xs;
    } else {
      assert (xs + ys)[..|xs + ys| - 1] == xs + ys[..|ys| - 1];
      ObsCountConcat(xs, ys[..|ys| - 1]);
    }
  }

  lemma ObsCountPop(batch: seq<Command>, queue: seq<Command>)
    requires queue != []
    ensures ObsCount(batch + [queue[0]]) + ObsCount(queue[1..]) == ObsCount(batch) + ObsCount(queue)
  {
    assert queue == [queue[0]] + queue[1..];
    ObsCountConcat([queue[0]], queue[1..]);
    ObsCountConcat(batch, [queue[0]]);
  }

  /** Replies go to callers that count neither as entering nor as dropped. */
  ghost predicate RepliesAwaited(s: Recorder) {
    s.worker.Replying? ==>
      forall i | 0 <= i < |s.worker.replies| ::
        s.worker.replies[i] < |s.callers| && s.callers[s.worker.replies[i]].AwaitingReply?
  }

  lemma BeginKeepsAccounting(s: Recorder, a: Action, limits: Limits)
    requires Accounting(s) && Enabled(s, a, limits)
    requires a.BeginRecord? || a.BeginTryRecord? || a.BeginFlush?
    ensures Accounting(Next(s, a, limits))
  {
    var id := |s.callers|;
    match a {
      case BeginRecord(key, part) => CountAppend(s.callers, Recording(Obs(id, key, part)));
      case BeginTryRecord(key, part) => CountAppend(s.callers, Trying(Obs(id, key, part)));
      case BeginFlush => CountAppend(s.callers, Flushing);
    }
  }

  lemma MoveKeepsAccounting(s: Recorder, a: Action, limits: Limits)
    requires Accounting(s) && Enabled(s, a, limits)
    requires a.SendRefused? || a.CountDrop? || a.ReplyLost?
    ensures Accounting(Next(s, a, limits))
  {
    CountUpdate(s.callers, a.c, Next(s, a, limits).callers[a.c]);
  }

  lemma SendKeepsAccounting(s: Recorder, a: Action, limits: Limits)
    requires Accounting(s) && Enabled(s, a, limits) && (a.Send? || a.TrySend?)
    ensures Accounting(Next(s, a, limits))
  {
    var s' := Next(s, a, limits);
    CountUpdate(s.callers, a.c, s'.callers[a.c]);
    if |s'.queue| > |s.queue| {
      ObsCountConcat(s.queue, [s'.queue[|s.queue|]]);
    }
  }

  lemma WorkerKeepsAccounting(s: Recorder, a: Action, limits: Limits)
    requires Accounting(s) && RepliesAwaited(s) && Enabled(s, a, limits)
    requires a.Receive? || a.Drain? || a.Seal? || a.Settle? || a.Reply? || a.Resume? || a.Crash?
    ensures Accounting(Next(s, a, limits))
  {
    if a.Receive? || a.Drain? {
      PullKeepsAccounting(s, a, limits);
    } else if a.Reply? {
      ReplyKeepsAccounting(s, limits);
    }
  }

  lemma PullKeepsAccounting(s: Recorder, a: Action, limits: Limits)
    requires Accounting(s) && Enabled(s, a, limits) && (a.Receive? || a.Drain?)
    ensures Accounting(Next(s, a, limits))
  {
    ObsCountPop(BatchOf(s.worker), s.queue);
    assert [] + [s.queue[0]] == [s.queue[0]];
  }

  lemma ReplyKeepsAccounting(s: Recorder, limits: Limits)
    requires Accounting(s) && RepliesAwaited(s) && Enabled(s, Reply, limits)
    ensures Accounting(Next(s, Reply, limits))
  {
    CountUpdate(s.callers, s.worker.replies[0], Finished(Replied(s.worker.ok)));
  }

  lemma StepKeepsAccounting(s: Recorder, a: Action, limits: Limits)
    requires Accounting(s) && RepliesAwaited(s) && Enabled(s, a, limits)
    ensures Accounting(Next(s, a, limits))
  {
    match a {
      case BeginRecord(_, _) => BeginKeepsAccounting(s, a, limits);
      case BeginTryRecord(_, _) => BeginKeepsAccounting(s, a, limits);
      case BeginFlush => BeginKeepsAccounting(s, a, limits);
      case Send(_) => SendKeepsAccounting(s, a, limits);
      case TrySend(_) => SendKeepsAccounting(s, a, limits);
      case SendRefused(_) => MoveKeepsAccounting(s, a, limits);
      case CountDrop(_) => MoveKeepsAccounting(s, a, limits);
      case ReplyLost(_) => MoveKeepsAccounting(s, a, limits);
      case MergeKey(_) =>
      case MergeFails(_, _) =>
      case ForeignMerge(_, _) =>
      case _ => WorkerKeepsAccounting(s, a, limits);
    }
  }

  // ------------------------------------------------ queue, batch and replies

  predicate Awaited(c: Command) {
    c.Flush? || c.wantsAck
  }

  /** The attempted commands are a prefix of those accepted; batch and queue are the rest. */
  ghost predicate PrefixInv(s: Recorder) {
    |s.outcome| <= |s.accepted| && s.accepted[|s.outcome|..] == BatchOf(s.worker) + s.queue
  }

  /** Each accepted command belongs to its own caller, which is where it must be. */
  ghost predicate CallerInv(s: Recorder, i: nat)
    requires i < |s.accepted|
  {
    var c := s.accepted[i];
    IdOf(c) < |s.callers| &&
    (c.Observe? ==> Canonical(c.obs.part)) &&
    var caller := s.callers[IdOf(c)];
    if Awaited(c)
    then caller.AwaitingReply? || (caller.Finished? && caller.result.Replied? && i < |s.outcome|) ||
         (caller == Finished(Refused) && s.worker.Gone?)
    else caller == Finished(Accepted)
  }

  ghost predicate DistinctIds(cs: seq<Command>) {
    forall i, j | 0 <= i < j < |cs| :: IdOf(cs[i]) != IdOf(cs[j])
  }

  ghost predicate CallersInv(s: Recorder) {
    && (forall i | 0 <= i < |s.accepted| :: CallerInv(s, i))
    && DistinctIds(s.accepted)
    && (forall c | 0 <= c < |s.callers| && (s.callers[c].Recording? || s.callers[c].Trying?) ::
          s.callers[c].obs.id == c && Canonical(s.callers[c].obs.part))
  }

  /** Caller `c` has an attempted command whose batch ended with `ok`. */
  ghost predicate Attempted(s: Recorder, c: nat, ok: bool) {
    |s.outcome| <= |s.accepted| &&
    exists i | 0 <= i < |s.outcome| :: IdOf(s.accepted[i]) == c && s.outcome[i] == ok
  }

  ghost predicate RepliesInv(s: Recorder) {
    && RepliesAwaited(s)
    && (s.worker.Replying? ==>
          NoDuplicates(s.worker.replies) &&
          forall i | 0 <= i < |s.worker.replies| :: Attempted(s, s.worker.replies[i], s.worker.ok))
    && (forall c | 0 <= c < |s.callers| && s.callers[c].Finished? && s.callers[c].result.Replied? ::
          Attempted(s, c, s.callers[c].result.ok))
  }

  lemma StepKeepsPrefix(s: Recorder, a: Action, limits: Limits)
    requires PrefixInv(s) && Enabled(s, a, limits)
    ensures PrefixInv(Next(s, a, limits))
  {
    if a.Send? || a.TrySend? {
      SendKeepsPrefix(s, a, limits);
    } else if a.Receive? || a.Drain? {
      PullKeepsPrefix(s, a, limits);
    } else if a.Settle? {
      SettleKeepsPrefix(s, limits);
    }
  }

  lemma SendKeepsPrefix(s: Recorder, a: Action, limits: Limits)
    requires PrefixInv(s) && Enabled(s, a, limits) && (a.Send? || a.TrySend?)
    ensures PrefixInv(Next(s, a, limits))
  {
    var s' := Next(s, a, limits);
    var from := |s.outcome|;
    if s'.accepted != s.accepted {
      assert s'.accepted[from..] == s.accepted[from..] + [s'.accepted[|s.accepted|]];
      assert BatchOf(s'.worker) + s'.queue == (BatchOf(s.worker) + s.queue) + [s'.accepted[|s.accepted|]];
    }
  }

  lemma PullKeepsPrefix(s: Recorder, a: Action, limits: Limits)
    requires PrefixInv(s) && Enabled(s, a, limits) && (a.Receive? || a.Drain?)
    ensures PrefixInv(Next(s, a, limits))
  {
    var s' := Next(s, a, limits);
    assert s.queue == [s.queue[0]] + s.queue[1..];
    assert BatchOf(s'.worker) + s'.queue == BatchOf(s.worker) + s.queue;
  }

  lemma SettleKeepsPrefix(s: Recorder, limits: Limits)
    requires PrefixInv(s) && Enabled(s, Settle, limits)
    ensures PrefixInv(Next(s, Settle, limits))
  {
    var s' := Next(s, Settle, limits);
    assert s'.accepted[|s'.outcome|..] == s.accepted[|s.outcome|..][|s.worker.batch|..];
  }

  lemma {:induction false} RepliesOfBatch(batch: seq<Command>, r: nat)
    ensures r in AcksOf(batch) ==>
              exists i | 0 <= i < |batch| :: batch[i].Observe? && batch[i].wantsAck && IdOf(batch[i]) == r
    ensures r in BarriersOf(batch) ==> exists i | 0 <= i < |batch| :: batch[i].Flush? && IdOf(batch[i]) == r
  {
    if batch != [] {
      var front, last := batch[..|batch| - 1], batch[|batch| - 1];
      RepliesOfBatch(front, r);
      assert last == batch[|batch| - 1];
      assert forall i | 0 <= i < |front| :: front[i] == batch[i];
    }
  }

  lemma {:induction false} RepliesDistinct(batch: seq<Command>)
    requires DistinctIds(batch)
    ensures NoDuplicates(AcksOf(batch)) && NoDuplicates(BarriersOf(batch))
  {
    if batch != [] {
      var front, last := batch[..|batch| - 1], batch[|batch| - 1];
      RepliesDistinct(front);
      RepliesOfBatch(front, IdOf(last));
      assert IdOf(last) !in AcksOf(front) && IdOf(last) !in BarriersOf(front);
    }
  }

  lemma BatchReplies(batch: seq<Command>)
    requires DistinctIds(batch)
    ensures NoDuplicates(AcksOf(batch) + BarriersOf(batch))
    ensures forall r | r in AcksOf(batch) + BarriersOf(batch) ::
              exists i | 0 <= i < |batch| :: Awaited(batch[i]) && IdOf(batch[i]) == r
  {
    RepliesDistinct(batch);
    var acks, barriers := AcksOf(batch), BarriersOf(batch);
    forall r | r in acks + barriers
      ensures exists i | 0 <= i < |batch| :: Awaited(batch[i]) && IdOf(batch[i]) == r
    {
      RepliesOfBatch(batch, r);
    }
    forall i, j | 0 <= i < |acks| && 0 <= j < |barriers| ensures acks[i] != barriers[j] {
      RepliesOfBatch(batch, acks[i]);
      RepliesOfBatch(batch, barriers[j]);
    }
  }

  lemma BatchIndex(s: Recorder, i: nat)
    requires PrefixInv(s) && i < |BatchOf(s.worker)|
    ensures |s.outcome| + i < |s.accepted| && s.accepted[|s.outcome| + i] == BatchOf(s.worker)[i]
  {
    assert s.accepted[|s.outcome|..][i] == (BatchOf(s.worker) + s.queue)[i];
  }

  lemma BatchDistinct(s: Recorder)
    requires PrefixInv(s) && CallersInv(s)
    ensures DistinctIds(BatchOf(s.worker))
  {
    forall i, j | 0 <= i < j < |BatchOf(s.worker)|
      ensures IdOf(BatchOf(s.worker)[i]) != IdOf(BatchOf(s.worker)[j])
    {
      BatchIndex(s, i);
      BatchIndex(s, j);
    }
  }

  /** A caller that has not sent yet, or was never accepted, owns no accepted command. */
  lemma NotYetAccepted(s: Recorder, c: nat, i: nat)
    requires CallersInv(s) && c < |s.callers| && i < |s.accepted|
    requires s.callers[c].Recording? || s.callers[c].Trying? || s.callers[c].Flushing? || s.callers[c].Dropping?
    ensures IdOf(s.accepted[i]) != c
  {
    assert CallerInv(s, i);
  }

  lemma SendKeepsCallers(s: Recorder, a: Action, limits: Limits)
    requires CallersInv(s) && Enabled(s, a, limits) && (a.Send? || a.TrySend?)
    requires |s.outcome| <= |s.accepted|
    ensures CallersInv(Next(s, a, limits))
  {
    var s' := Next(s, a, limits);
    forall i | 0 <= i < |s'.accepted| ensures CallerInv(s', i) {
      if i < |s.accepted| {
        assert CallerInv(s, i);
        NotYetAccepted(s, a.c, i);
      }
    }
    forall i, j | 0 <= i < j < |s'.accepted| ensures IdOf(s'.accepted[i]) != IdOf(s'.accepted[j]) {
      NotYetAccepted(s, a.c, i);
    }
  }

  lemma CallerStepKeepsCallers(s: Recorder, a: Action, limits: Limits)
    requires CallersInv(s) && Enabled(s, a, limits)
    requires a.BeginRecord? || a.BeginTryRecord? || a.BeginFlush? || a.SendRefused? || a.CountDrop? || a.ReplyLost?
    ensures CallersInv(Next(s, a, limits))
  {
    var s' := Next(s, a, limits);
    forall i | 0 <= i < |s'.accepted| ensures CallerInv(s', i) {
      assert CallerInv(s, i);
      if a.SendRefused? || a.CountDrop? { NotYetAccepted(s, a.c, i); }
    }
  }

  lemma ReplyKeepsCallers(s: Recorder, limits: Limits)
    requires CallersInv(s) && RepliesInv(s) && Enabled(s, Reply, limits)
    ensures CallersInv(Next(s, Reply, limits))
  {
    var s' := Next(s, Reply, limits);
    var r := s.worker.replies[0];
    assert Attempted(s, r, s.worker.ok);
    var k :| 0 <= k < |s.outcome| && IdOf(s.accepted[k]) == r && s.outcome[k] == s.worker.ok;
    forall i | 0 <= i < |s'.accepted| ensures CallerInv(s', i) {
      assert CallerInv(s, i);
      assert i != k ==> IdOf(s.accepted[i]) != r;
    }
  }

  lemma WorkerKeepsCallers(s: Recorder, a: Action, limits: Limits)
    requires CallersInv(s) && PrefixInv(s) && Enabled(s, a, limits)
    requires a.Receive? || a.Drain? || a.Seal? || a.MergeKey? || a.MergeFails? || a.Settle? || a.Resume? ||
             a.ForeignMerge? || a.Crash?
    ensures CallersInv(Next(s, a, limits))
  {
    var s' := Next(s, a, limits);
    forall i | 0 <= i < |s'.accepted| ensures CallerInv(s', i) {
      assert CallerInv(s, i);
    }
  }

  lemma StepKeepsCallers(s: Recorder, a: Action, limits: Limits)
    requires CallersInv(s) && PrefixInv(s) && RepliesInv(s) && Enabled(s, a, limits)
    ensures CallersInv(Next(s, a, limits))
  {
    if a.Send? || a.TrySend? {
      SendKeepsCallers(s, a, limits);
    } else if a.Reply? {
      ReplyKeepsCallers(s, limits);
    } else if a.BeginRecord? || a.BeginTryRecord? || a.BeginFlush? || a.SendRefused? || a.CountDrop? || a.ReplyLost? {
      CallerStepKeepsCallers(s, a, limits);
    } else {
      WorkerKeepsCallers(s, a, limits);
    }
  }

  lemma AttemptedStays(s: Recorder, a: Action, limits: Limits, c: nat, ok: bool)
    requires PrefixInv(s) && Enabled(s, a, limits) && Attempted(s, c, ok)
    ensures Attempted(Next(s, a, limits), c, ok)
  {
    var s' := Next(s, a, limits);
    StepKeepsPrefix(s, a, limits);
    var i :| 0 <= i < |s.outcome| && IdOf(s.accepted[i]) == c && s.outcome[i] == ok;
    assert s'.accepted[i] == s.accepted[i] && s'.outcome[i] == s.outcome[i];
  }

  lemma SettleKeepsReplies(s: Recorder, limits: Limits)
    requires CallersInv(s) && PrefixInv(s) && RepliesInv(s) && Enabled(s, Settle, limits)
    ensures RepliesInv(Next(s, Settle, limits))
  {
    var s' := Next(s, Settle, limits);
    var batch, replies := s.worker.batch, s'.worker.replies;
    StepKeepsPrefix(s, Settle, limits);
    BatchDistinct(s);
    BatchReplies(batch);
    forall k | 0 <= k < |replies|
      ensures replies[k] < |s'.callers| && s'.callers[replies[k]].AwaitingReply?
      ensures Attempted(s', replies[k], s'.worker.ok)
    {
      assert replies[k] in AcksOf(batch) + BarriersOf(batch);
      var i :| 0 <= i < |batch| && Awaited(batch[i]) && IdOf(batch[i]) == replies[k];
      SettledCaller(s, limits, i);
    }
    forall c | 0 <= c < |s'.callers| && s'.callers[c].Finished? && s'.callers[c].result.Replied?
      ensures Attempted(s', c, s'.callers[c].result.ok)
    {
      AttemptedStays(s, Settle, limits, c, s.callers[c].result.ok);
    }
  }

  /** A caller awaiting a command of the settled batch. */
  lemma SettledCaller(s: Recorder, limits: Limits, i: nat)
    requires CallersInv(s) && PrefixInv(s) && Enabled(s, Settle, limits)
    requires i < |s.worker.batch| && Awaited(s.worker.batch[i])
    ensures
      var s', id := Next(s, Settle, limits), IdOf(s.worker.batch[i]);
      id < |s'.callers| && s'.callers[id].AwaitingReply? && Attempted(s', id, s'.worker.ok)
  {
    var s' := Next(s, Settle, limits);
    StepKeepsPrefix(s, Settle, limits);
    BatchIndex(s, i);
    var at := |s.outcome| + i;
    assert CallerInv(s, at);
    assert s'.outcome[at] == s'.worker.ok && IdOf(s'.accepted[at]) == IdOf(s.worker.batch[i]);
  }

  lemma OtherKeepsReplies(s: Recorder, a: Action, limits: Limits)
    requires PrefixInv(s) && RepliesInv(s) && Enabled(s, a, limits) && !a.Settle?
    ensures RepliesInv(Next(s, a, limits))
  {
    var s' := Next(s, a, limits);
    forall c | 0 <= c < |s'.callers| && s'.callers[c].Finished? && s'.callers[c].result.Replied?
      ensures Attempted(s', c, s'.callers[c].result.ok)
    {
      AttemptedStays(s, a, limits, c, s'.callers[c].result.ok);
    }
    if s'.worker.Replying? { PendingRepliesKept(s, a, limits); }
  }

  lemma RepliesLeft(s: Recorder, a: Action, limits: Limits)
    requires Enabled(s, a, limits) && !a.Settle? && Next(s, a, limits).worker.Replying?
    ensures
      var s', skip := Next(s, a, limits), if a.Reply? then 1 else 0;
      && s.worker.Replying? && skip <= |s.worker.replies|
      && s'.worker.replies == s.worker.replies[skip..] && s'.worker.ok == s.worker.ok
  {}

  /** Caller `r` still awaits the answer of a command attempted with `ok`. */
  ghost predicate StillPending(s: Recorder, r: nat, ok: bool) {
    r < |s.callers| && s.callers[r].AwaitingReply? && Attempted(s, r, ok)
  }

  lemma RestPending(s: Recorder, replies: seq<nat>, skip: nat, ok: bool)
    requires NoDuplicates(replies) && skip <= |replies|
    requires forall k | skip <= k < |replies| :: StillPending(s, replies[k], ok)
    ensures NoDuplicates(replies[skip..])
    ensures forall k | 0 <= k < |replies[skip..]| :: StillPending(s, replies[skip..][k], ok)
  {}

  lemma PendingRepliesKept(s: Recorder, a: Action, limits: Limits)
    requires PrefixInv(s) && RepliesInv(s) && Enabled(s, a, limits) && !a.Settle? && Next(s, a, limits).worker.Replying?
    ensures
      var s' := Next(s, a, limits);
      && NoDuplicates(s'.worker.replies)
      && forall k | 0 <= k < |s'.worker.replies| :: StillPending(s', s'.worker.replies[k], s'.worker.ok)
  {
    var skip := if a.Reply? then 1 else 0;
    RepliesLeft(s, a, limits);
    forall k | skip <= k < |s.worker.replies|
      ensures StillPending(Next(s, a, limits), s.worker.replies[k], s.worker.ok)
    {
      PendingReplyKept(s, a, limits, k);
    }
    RestPending(Next(s, a, limits), s.worker.replies, skip, s.worker.ok);
  }

  lemma PendingReplyKept(s: Recorder, a: Action, limits: Limits, k: nat)
    requires PrefixInv(s) && RepliesInv(s) && Enabled(s, a, limits) && !a.Settle? && s.worker.Replying?
    requires Next(s, a, limits).worker.Replying? && k < |s.worker.replies| && (a.Reply? ==> k > 0)
    ensures StillPending(Next(s, a, limits), s.worker.replies[k], s.worker.ok)
  {
    assert s.callers[s.worker.replies[k]].AwaitingReply?;
    AttemptedStays(s, a, limits, s.worker.replies[k], s.worker.ok);
  }

  // ------------------------------------------------------ store and history

  function PiecesOn(log: seq<Piece>, key: Key): seq<Entries> {
    if log == [] then [] else
      var last := log[|log| - 1];
      PiecesOn(log[..|log| - 1], key) + if last.key == key then [last.part] else []
  }

  ghost predicate Logged(log: seq<Piece>, id: nat) {
    exists j | 0 <= j < |log| :: log[j].source == Some(id)
  }

  /** The observation itself, with its key and counters, was stored. */
  ghost predicate HasPiece(log: seq<Piece>, o: Obs) {
    exists j | 0 <= j < |log| :: log[j] == Piece(Some(o.id), o.key, o.part)
  }

  ghost predicate StoreInv(s: Recorder) {
    && (forall j | 0 <= j < |s.log| :: Canonical(s.log[j].part))
    && (forall key :: Lookup(s.store, key) == StoredAs(PiecesOn(s.log, key)))
  }

  /** Command `i` may already have reached the store. */
  ghost predicate MayBeStored(s: Recorder, i: nat)
    requires i < |s.accepted|
  {
    s.accepted[i].Observe? &&
    (i < |s.outcome| ||
     (i < |s.outcome| + |BatchOf(s.worker)| &&
      (s.worker.Gone? || (s.worker.Merging? && s.accepted[i].obs.key !in s.worker.todo))))
  }

  ghost predicate PieceInv(s: Recorder, j: nat)
    requires j < |s.log|
  {
    s.log[j].source.Some? ==>
      exists i | 0 <= i < |s.accepted| ::
        MayBeStored(s, i) && s.accepted[i].obs == Obs(s.log[j].source.value, s.log[j].key, s.log[j].part)
  }

  ghost predicate LogInv(s: Recorder) {
    && (forall i, j | 0 <= i < j < |s.log| && s.log[i].source.Some? :: s.log[i].source != s.log[j].source)
    && (forall j | 0 <= j < |s.log| :: PieceInv(s, j))
    && |s.outcome| <= |s.accepted|
    && (forall i | 0 <= i < |s.outcome| && s.outcome[i] && s.accepted[i].Observe? :: Logged(s.log, IdOf(s.accepted[i])))
    && (s.worker.Merging? ==>
          forall i | 0 <= i < |s.worker.batch| && s.worker.batch[i].Observe? &&
                     s.worker.batch[i].obs.key !in s.worker.todo ::
            Logged(s.log, IdOf(s.worker.batch[i])))
  }

  ghost predicate HasObs(batch: seq<Command>, o: Obs) {
    exists i | 0 <= i < |batch| :: batch[i].Observe? && batch[i].obs == o
  }

  lemma HasObsExtend(batch: seq<Command>, c: Command, o: Obs)
    ensures HasObs(batch + [c], o) <==> HasObs(batch, o) || (c.Observe? && c.obs == o)
  {
    var all := batch + [c];
    assert all[|batch|] == c;
    if HasObs(batch, o) {
      var i :| 0 <= i < |batch| && batch[i].Observe? && batch[i].obs == o;
      assert all[i] == batch[i];
    }
    if HasObs(all, o) {
      var i :| 0 <= i < |all| && all[i].Observe? && all[i].obs == o;
      assert i < |batch| ==> batch[i] == all[i];
    }
  }

  lemma {:induction false} ObsOnMembers(batch: seq<Command>, key: Key, o: Obs)
    ensures o in ObsOn(batch, key) <==> o.key == key && HasObs(batch, o)
  {
    if batch != [] {
      var front, last := batch[..|batch| - 1], batch[|batch| - 1];
      ObsOnMembers(front, key, o);
      assert batch == front + [last];
      HasObsExtend(front, last, o);
    }
  }

  ghost predicate DistinctObs(obs: seq<Obs>) {
    forall i, j | 0 <= i < j < |obs| :: obs[i].id != obs[j].id
  }

  lemma {:induction false} ObsOnDistinct(batch: seq<Command>, key: Key)
    requires DistinctIds(batch)
    ensures DistinctObs(ObsOn(batch, key))
  {
    if batch != [] {
      var front, last := batch[..|batch| - 1], batch[|batch| - 1];
      ObsOnDistinct(front, key);
      forall k | 0 <= k < |ObsOn(front, key)| && last.Observe? ensures ObsOn(front, key)[k].id != last.obs.id {
        ObsOnMembers(front, key, ObsOn(front, key)[k]);
        assert forall i | 0 <= i < |front| :: IdOf(batch[i]) != IdOf(last);
      }
    }
  }

  lemma {:induction false} PiecesOnConcat(log: seq<Piece>, more: seq<Piece>, key: Key)
    ensures PiecesOn(log + more, key) == PiecesOn(log, key) + PiecesOn(more, key)
    decreases |more|
  {
    if more == [] {
      assert log + more == log;
    } else {
      assert (log + more)[..|log + more| - 1] == log + more[..|more| - 1];
      PiecesOnConcat(log, more[..|more| - 1], key);
    }
  }

  lemma {:induction false} PiecesForOn(obs: seq<Obs>, key: Key, other: Key)
    requires forall k | 0 <= k < |obs| :: obs[k].key == key
    ensures PiecesOn(PiecesFor(obs), other) == if other == key then PartsOf(obs) else []
  {
    if obs != [] {
      var front := obs[..|obs| - 1];
      assert PiecesFor(obs)[..|obs| - 1] == PiecesFor(front);
      PiecesForOn(front, key, other);
    }
  }

  lemma {:induction false} PiecesOnCanonical(log: seq<Piece>, key: Key)
    requires forall j | 0 <= j < |log| :: Canonical(log[j].part)
    ensures AllCanonical(PiecesOn(log, key))
  {
    if log != [] { PiecesOnCanonical(log[..|log| - 1], key); }
  }

  lemma StoredConcat(xs: seq<Entries>, ys: seq<Entries>)
    requires AllCanonical(xs) && AllCanonical(ys) && ys != []
    ensures StoredAs(xs + ys) == Some(Replacement(StoredAs(xs), MergeAll(ys)))
  {
    MergeAllConcat(xs, ys);
    if xs == [] { assert xs + ys == ys; }
  }

  /** What grouping one key out of the batch yields. */
  lemma BatchOn(s: Recorder, key: Key, k: nat)
    requires PrefixInv(s) && CallersInv(s) && k < |ObsOn(BatchOf(s.worker), key)|
    ensures
      var o := ObsOn(BatchOf(s.worker), key)[k];
      && o.key == key && Canonical(o.part)
      && exists i | |s.outcome| <= i < |s.outcome| + |BatchOf(s.worker)| && i < |s.accepted| ::
           s.accepted[i].Observe? && s.accepted[i].obs == o
  {
    var batch := BatchOf(s.worker);
    var o := ObsOn(batch, key)[k];
    ObsOnMembers(batch, key, o);
    var b :| 0 <= b < |batch| && batch[b].Observe? && batch[b].obs == o;
    BatchIndex(s, b);
    assert CallerInv(s, |s.outcome| + b);
  }

  /** The pieces on a key after a bucket has landed. */
  lemma LandedOn(log: seq<Piece>, obs: seq<Obs>, key: Key, other: Key)
    requires forall k | 0 <= k < |obs| :: obs[k].key == key
    ensures PiecesOn(log + PiecesFor(obs), other) ==
              if other == key then PiecesOn(log, key) + PartsOf(obs) else PiecesOn(log, other)
  {
    PiecesOnConcat(log, PiecesFor(obs), other);
    PiecesForOn(obs, key, other);
    assert PiecesOn(log, other) + [] == PiecesOn(log, other);
  }

  lemma LandedOnKey(store: map<Key, Entries>, log: seq<Piece>, obs: seq<Obs>, key: Key, other: Key)
    requires forall k | 0 <= k < |obs| :: obs[k].key == key && Canonical(obs[k].part)
    requires obs != [] && AllCanonical(PiecesOn(log, other)) && Lookup(store, other) == StoredAs(PiecesOn(log, other))
    ensures Lookup(store[key := Replacement(Lookup(store, key), MergeAll(PartsOf(obs)))], other) ==
            StoredAs(PiecesOn(log + PiecesFor(obs), other))
  {
    LandedOn(log, obs, key, other);
    if other == key { StoredConcat(PiecesOn(log, key), PartsOf(obs)); }
  }

  lemma LandKeepsStore(s: Recorder, key: Key)
    requires StoreInv(s) && PrefixInv(s) && CallersInv(s) && key in KeysOf(BatchOf(s.worker))
    ensures StoreInv(LandKey(s, BatchOf(s.worker), key))
  {
    var batch := BatchOf(s.worker);
    var s' := LandKey(s, batch, key);
    var obs := ObsOn(batch, key);
    ObsOnAbsent(batch, key);
    forall k | 0 <= k < |obs| { BatchOn(s, key, k); }
    forall other ensures Lookup(s'.store, other) == StoredAs(PiecesOn(s'.log, other)) {
      PiecesOnCanonical(s.log, other);
      LandedOnKey(s.store, s.log, obs, key, other);
    }
  }

  /** The keys still to merge are keys of the batch. */
  ghost predicate TodoInv(s: Recorder) {
    s.worker.Merging? ==> s.worker.todo <= KeysOf(s.worker.batch)
  }

  lemma PiecesOnSnoc(log: seq<Piece>, p: Piece, key: Key)
    ensures PiecesOn(log + [p], key) == if p.key == key then PiecesOn(log, key) + [p.part] else PiecesOn(log, key)
  {
    assert (log + [p])[..|log|] == log;
    assert PiecesOn(log, key) + [] == PiecesOn(log, key);
  }

  lemma ForeignOnKey(store: map<Key, Entries>, log: seq<Piece>, key: Key, part: Entries, other: Key)
    requires Lookup(store, other) == StoredAs(PiecesOn(log, other))
    ensures Lookup(store[key := Replacement(Lookup(store, key), part)], other) ==
              StoredAs(PiecesOn(log + [Piece(None, key, part)], other))
  {
    PiecesOnSnoc(log, Piece(None, key, part), other);
    if other == key { StoredAfter(PiecesOn(log, key), part); }
  }

  lemma ForeignKeepsStore(s: Recorder, key: Key, part: Entries, limits: Limits)
    requires StoreInv(s) && Enabled(s, ForeignMerge(key, part), limits)
    ensures StoreInv(Next(s, ForeignMerge(key, part), limits))
  {
    forall other ensures Lookup(Next(s, ForeignMerge(key, part), limits).store, other) ==
                         StoredAs(PiecesOn(Next(s, ForeignMerge(key, part), limits).log, other))
    {
      ForeignOnKey(s.store, s.log, key, part, other);
    }
  }

  lemma StepKeepsStore(s: Recorder, a: Action, limits: Limits)
    requires StoreInv(s) && PrefixInv(s) && CallersInv(s) && TodoInv(s) && Enabled(s, a, limits)
    ensures StoreInv(Next(s, a, limits))
  {
    match a {
      case MergeKey(key) => LandKeepsStore(s, key);
      case MergeFails(key, applied) => if applied { LandKeepsStore(s, key); }
      case ForeignMerge(key, part) => ForeignKeepsStore(s, key, part, limits);
      case _ =>
    }
  }

  /** Landing a key that is still to do: its observations are new to the log. */
  lemma LandIsNew(s: Recorder, key: Key, k: nat, j: nat)
    requires LogInv(s) && PrefixInv(s) && CallersInv(s) && s.worker.Merging? && key in s.worker.todo
    requires k < |ObsOn(s.worker.batch, key)| && j < |s.log|
    ensures s.log[j].source != Some(ObsOn(s.worker.batch, key)[k].id)
  {
    var o := ObsOn(s.worker.batch, key)[k];
    BatchOn(s, key, k);
    var b :| |s.outcome| <= b < |s.outcome| + |s.worker.batch| && b < |s.accepted| &&
             s.accepted[b].Observe? && s.accepted[b].obs == o;
    assert PieceInv(s, j);
    if s.log[j].source.Some? {
      var i :| 0 <= i < |s.accepted| && MayBeStored(s, i) &&
               s.accepted[i].obs == Obs(s.log[j].source.value, s.log[j].key, s.log[j].part);
      assert i != b;
      assert IdOf(s.accepted[i]) != IdOf(s.accepted[b]);
    }
  }

  function LandedState(s: Recorder, key: Key, failed: bool): Recorder
    requires s.worker.Merging?
  {
    LandKey(s, s.worker.batch, key).(worker := s.worker.(todo := s.worker.todo - {key}, failed := failed))
  }

  lemma LandKeepsUnique(s: Recorder, key: Key, i: nat, j: nat)
    requires LogInv(s) && PrefixInv(s) && CallersInv(s) && s.worker.Merging? && key in s.worker.todo
    requires
      var log := LandedState(s, key, false).log;
      i < j < |log| && log[i].source.Some?
    ensures
      var log := LandedState(s, key, false).log;
      log[i].source != log[j].source
  {
    var n := |s.log|;
    if j >= n {
      BatchDistinct(s);
      ObsOnDistinct(s.worker.batch, key);
      if i < n { LandIsNew(s, key, j - n, i); }
    }
  }

  lemma LandKeepsPiece(s: Recorder, key: Key, failed: bool, j: nat)
    requires LogInv(s) && PrefixInv(s) && CallersInv(s) && s.worker.Merging? && key in s.worker.todo
    requires j < |LandedState(s, key, failed).log|
    ensures PieceInv(LandedState(s, key, failed), j)
  {
    var s' := LandedState(s, key, failed);
    if j < |s.log| {
      LandKeepsOldPiece(s, key, failed, j);
    } else {
      BatchOn(s, key, j - |s.log|);
      var i :| |s.outcome| <= i < |s.outcome| + |s.worker.batch| && i < |s.accepted| &&
               s.accepted[i].Observe? && s.accepted[i].obs == ObsOn(s.worker.batch, key)[j - |s.log|];
      assert MayBeStored(s', i);
    }
  }

  lemma LandKeepsOldPiece(s: Recorder, key: Key, failed: bool, j: nat)
    requires LogInv(s) && PrefixInv(s) && s.worker.Merging? && key in s.worker.todo && j < |s.log|
    ensures j < |LandedState(s, key, failed).log| && PieceInv(LandedState(s, key, failed), j)
  {
    var s' := LandedState(s, key, failed);
    assert PieceInv(s, j) && s'.log[j] == s.log[j];
    if s.log[j].source.Some? {
      var i :| 0 <= i < |s.accepted| && MayBeStored(s, i) &&
               s.accepted[i].obs == Obs(s.log[j].source.value, s.log[j].key, s.log[j].part);
      assert MayBeStored(s', i);
    }
  }

  lemma LandLogs(s: Recorder, key: Key, b: nat)
    requires s.worker.Merging? && b < |s.worker.batch|
    requires s.worker.batch[b].Observe? && s.worker.batch[b].obs.key == key
    ensures Logged(LandedState(s, key, false).log, IdOf(s.worker.batch[b]))
  {
    var obs := ObsOn(s.worker.batch, key);
    ObsOnMembers(s.worker.batch, key, s.worker.batch[b].obs);
    assert HasObs(s.worker.batch, s.worker.batch[b].obs);
    var k :| 0 <= k < |obs| && obs[k] == s.worker.batch[b].obs;
    assert LandedState(s, key, false).log[|s.log| + k].source == Some(obs[k].id);
  }

  lemma LandKeepsLog(s: Recorder, key: Key, failed: bool)
    requires LogInv(s) && PrefixInv(s) && CallersInv(s) && s.worker.Merging? && key in s.worker.todo
    ensures LogInv(LandedState(s, key, failed))
  {
    var s' := LandedState(s, key, failed);
    forall i, j | 0 <= i < j < |s'.log| && s'.log[i].source.Some? ensures s'.log[i].source != s'.log[j].source {
      LandKeepsUnique(s, key, i, j);
    }
    forall j | 0 <= j < |s'.log| ensures PieceInv(s', j) { LandKeepsPiece(s, key, failed, j); }
    LoggedStays(s.log, PiecesFor(ObsOn(s.worker.batch, key)));
    forall b | 0 <= b < |s.worker.batch| && s.worker.batch[b].Observe? && s.worker.batch[b].obs.key !in s'.worker.todo
      ensures Logged(s'.log, IdOf(s.worker.batch[b]))
    {
      if s.worker.batch[b].obs.key == key { LandLogs(s, key, b); }
    }
  }

  lemma LoggedStays(log: seq<Piece>, more: seq<Piece>)
    ensures forall id: nat :: Logged(log, id) ==> Logged(log + more, id)
  {
    forall id: nat | Logged(log, id) ensures Logged(log + more, id) {
      var j :| 0 <= j < |log| && log[j].source == Some(id);
      assert (log + more)[j] == log[j];
    }
  }

  lemma PieceStays(s: Recorder, a: Action, limits: Limits, j: nat)
    requires PrefixInv(s) && LogInv(s) && Enabled(s, a, limits) && !a.MergeKey? && !a.MergeFails? && j < |s.log|
    ensures j < |Next(s, a, limits).log| && PieceInv(Next(s, a, limits), j)
  {
    var s' := Next(s, a, limits);
    assert PieceInv(s, j) && s'.log[j] == s.log[j];
    if s.log[j].source.Some? {
      var i :| 0 <= i < |s.accepted| && MayBeStored(s, i) &&
               s.accepted[i].obs == Obs(s.log[j].source.value, s.log[j].key, s.log[j].part);
      assert s'.accepted[i] == s.accepted[i];
      if a.Seal? { assert i < |s.outcome|; }
      assert MayBeStored(s', i);
    }
  }

  lemma SettleKeepsLog(s: Recorder, limits: Limits)
    requires LogInv(s) && PrefixInv(s) && Enabled(s, Settle, limits)
    ensures LogInv(Next(s, Settle, limits))
  {
    var s' := Next(s, Settle, limits);
    StepKeepsPrefix(s, Settle, limits);
    forall j | 0 <= j < |s'.log| ensures PieceInv(s', j) { PieceStays(s, Settle, limits, j); }
    forall i | 0 <= i < |s'.outcome| && s'.outcome[i] && s'.accepted[i].Observe?
      ensures Logged(s'.log, IdOf(s'.accepted[i]))
    {
      if i >= |s.outcome| { BatchIndex(s, i - |s.outcome|); }
    }
  }

  lemma SealKeepsLog(s: Recorder, limits: Limits)
    requires LogInv(s) && PrefixInv(s) && Enabled(s, Seal, limits)
    ensures LogInv(Next(s, Seal, limits))
  {
    var s' := Next(s, Seal, limits);
    forall j | 0 <= j < |s'.log| ensures PieceInv(s', j) { PieceStays(s, Seal, limits, j); }
    forall b | 0 <= b < |s'.worker.batch| && s'.worker.batch[b].Observe?
      ensures s'.worker.batch[b].obs.key in s'.worker.todo
    {}
  }

  lemma FailureKeepsLog(s: Recorder, key: Key, limits: Limits)
    requires LogInv(s) && PrefixInv(s) && Enabled(s, MergeFails(key, false), limits)
    ensures LogInv(Next(s, MergeFails(key, false), limits))
  {
    var s' := Next(s, MergeFails(key, false), limits);
    forall j | 0 <= j < |s'.log| ensures PieceInv(s', j) {
      assert PieceInv(s, j);
      assert forall i | 0 <= i < |s.accepted| && MayBeStored(s, i) :: MayBeStored(s', i);
    }
  }

  lemma ForeignKeepsLog(s: Recorder, key: Key, part: Entries, limits: Limits)
    requires LogInv(s) && PrefixInv(s) && Enabled(s, ForeignMerge(key, part), limits)
    ensures LogInv(Next(s, ForeignMerge(key, part), limits))
  {
    var a := ForeignMerge(key, part);
    LoggedStays(s.log, [Piece(None, key, part)]);
    forall j | 0 <= j < |s.log| ensures PieceInv(Next(s, a, limits), j) { PieceStays(s, a, limits, j); }
  }

  lemma StepKeepsLog(s: Recorder, a: Action, limits: Limits)
    requires LogInv(s) && PrefixInv(s) && CallersInv(s) && Enabled(s, a, limits)
    ensures LogInv(Next(s, a, limits))
  {
    match a {
      case MergeKey(key) => LandKeepsLog(s, key, false);
      case MergeFails(key, applied) =>
        if applied {
          LandKeepsLog(s, key, true);
        } else {
          FailureKeepsLog(s, key, limits);
        }
      case Settle => SettleKeepsLog(s, limits);
      case Seal => SealKeepsLog(s, limits);
      case ForeignMerge(key, part) => ForeignKeepsLog(s, key, part, limits);
      case _ => OtherKeepsLog(s, a, limits);
    }
  }

  lemma OtherKeepsLog(s: Recorder, a: Action, limits: Limits)
    requires LogInv(s) && PrefixInv(s) && Enabled(s, a, limits)
    requires !a.MergeKey? && !a.MergeFails? && !a.Settle? && !a.Seal? && !a.ForeignMerge?
    ensures LogInv(Next(s, a, limits))
  {
    var s' := Next(s, a, limits);
    assert s'.log == s.log;
    forall j | 0 <= j < |s'.log| ensures PieceInv(s', j) { PieceStays(s, a, limits, j); }
  }

  // --------------------------------------------------------- main theorems

  ghost predicate Inv(s: Recorder) {
    Accounting(s) && PrefixInv(s) && CallersInv(s) && RepliesInv(s) && TodoInv(s) && StoreInv(s) && LogInv(s)
  }

  lemma StepKeepsInv(s: Recorder, a: Action, limits: Limits)
    requires Inv(s) && Enabled(s, a, limits)
    ensures Inv(Next(s, a, limits))
  {
    StepKeepsAccounting(s, a, limits);
    StepKeepsPrefix(s, a, limits);
    StepKeepsCallers(s, a, limits);
    if a.Settle? { SettleKeepsReplies(s, limits); } else { OtherKeepsReplies(s, a, limits); }
    StepKeepsStore(s, a, limits);
    StepKeepsLog(s, a, limits);
  }

  lemma RunKeepsInv(trace: seq<Recorder>, actions: seq<Action>, limits: Limits, i: nat)
    requires Run(trace, actions, limits) && i < |actions| && Inv(trace[i])
    ensures Inv(trace[i + 1])
  {
    RunStep(trace, actions, limits, i);
    StepKeepsInv(trace[i], actions[i], limits);
  }

  lemma {:induction false} RunInvariant(trace: seq<Recorder>, actions: seq<Action>, limits: Limits, i: nat)
    requires Run(trace, actions, limits) && i < |trace|
    ensures Inv(trace[i])
  {
    if i == 0 {
      FreshInv(trace[0]);
    } else {
      RunInvariant(trace, actions, limits, i - 1);
      RunKeepsInv(trace, actions, limits, i - 1);
    }
  }

  lemma FreshInv(s: Recorder)
    requires Fresh(s)
    ensures Inv(s)
  {
    FreshStore(s);
  }

  lemma FreshStore(s: Recorder)
    requires |s.log| == |s.store| == 0
    ensures StoreInv(s)
  {
    forall key ensures Lookup(s.store, key) == StoredAs(PiecesOn(s.log, key)) {
      assert PiecesOn(s.log, key) == [] && key !in s.store.Keys;
    }
  }

  lemma RunStep(trace: seq<Recorder>, actions: seq<Action>, limits: Limits, i: nat)
    requires Run(trace, actions, limits) && i < |actions|
    ensures Enabled(trace[i], actions[i], limits) && trace[i + 1] == Next(trace[i], actions[i], limits)
  {}

  ghost predicate Quiescent(s: Recorder) {
    s.queue == [] && BatchOf(s.worker) == [] && Entering(s.callers) == 0
  }

  /**
   In every reachable state the backlog gauge is exactly the callers about to send, plus
   queued observations, plus those in the worker's hands; it never underflows, is zero when
   nothing is in flight, and `dropped` counts exactly the rejected `try_record` calls.
   */
  lemma BacklogIsExact(trace: seq<Recorder>, actions: seq<Action>, limits: Limits, i: nat)
    requires Run(trace, actions, limits) && i < |trace|
    ensures
      var s := trace[i];
      && s.backlog == Entering(s.callers) + ObsCount(s.queue) + ObsCount(BatchOf(s.worker))
      && s.backlog >= 0
      && (Quiescent(s) ==> s.backlog == 0)
      && s.dropped == DroppedCalls(s.callers)
  {
    RunInvariant(trace, actions, limits, i);
  }

  /** Caller `c`'s fire-and-forget observation is among the commands enqueued. */
  ghost predicate EnqueuedFor(s: Recorder, c: nat) {
    exists i | 0 <= i < |s.accepted| :: s.accepted[i].Observe? && !s.accepted[i].wantsAck && IdOf(s.accepted[i]) == c
  }

  ghost predicate AcceptedInv(s: Recorder) {
    forall c | 0 <= c < |s.callers| && s.callers[c] == Finished(Accepted) :: EnqueuedFor(s, c)
  }

  lemma EnqueuedStays(s: Recorder, a: Action, limits: Limits, c: nat)
    requires Enabled(s, a, limits) && EnqueuedFor(s, c)
    ensures EnqueuedFor(Next(s, a, limits), c)
  {
    var i :| 0 <= i < |s.accepted| && s.accepted[i].Observe? && !s.accepted[i].wantsAck && IdOf(s.accepted[i]) == c;
    assert Next(s, a, limits).accepted[i] == s.accepted[i];
  }

  lemma StepKeepsAccepted(s: Recorder, a: Action, limits: Limits)
    requires AcceptedInv(s) && CallersInv(s) && Enabled(s, a, limits)
    ensures AcceptedInv(Next(s, a, limits))
  {
    var s' := Next(s, a, limits);
    forall c | 0 <= c < |s'.callers| && s'.callers[c] == Finished(Accepted) ensures EnqueuedFor(s', c) {
      if c < |s.callers| && s.callers[c] == Finished(Accepted) {
        EnqueuedStays(s, a, limits, c);
      } else {
        assert a == TrySend(c) && s'.accepted[|s.accepted|] == Observe(s.callers[c].obs, false);
      }
    }
  }

  lemma {:induction false} AcceptedRun(trace: seq<Recorder>, actions: seq<Action>, limits: Limits, i: nat)
    requires Run(trace, actions, limits) && i < |trace|
    ensures AcceptedInv(trace[i])
  {
    if i > 0 {
      AcceptedRun(trace, actions, limits, i - 1);
      RunInvariant(trace, actions, limits, i - 1);
      RunStep(trace, actions, limits, i - 1);
      StepKeepsAccepted(trace[i - 1], actions[i - 1], limits);
    }
  }

  /**
   Every `try_record` that has returned was either enqueued, with a command of its own, or is
   counted as dropped; and only callers that were told so have their command enqueued.
   */
  lemma TryRecordIsAccountedFor(trace: seq<Recorder>, actions: seq<Action>, limits: Limits, t: nat)
    requires Run(trace, actions, limits) && t < |trace|
    ensures
      var s := trace[t];
      && (forall c | 0 <= c < |s.callers| :: s.callers[c] == Finished(Accepted) <==> EnqueuedFor(s, c))
      && (forall i, j | 0 <= i < j < |s.accepted| :: IdOf(s.accepted[i]) != IdOf(s.accepted[j]))
      && s.dropped == DroppedCalls(s.callers)
  {
    RunInvariant(trace, actions, limits, t);
    AcceptedRun(trace, actions, limits, t);
    var s := trace[t];
    forall c | 0 <= c < |s.callers| && EnqueuedFor(s, c) ensures s.callers[c] == Finished(Accepted) {
      var i :| 0 <= i < |s.accepted| && s.accepted[i].Observe? && !s.accepted[i].wantsAck && IdOf(s.accepted[i]) == c;
      assert CallerInv(s, i);
    }
  }

  /** Where the `try_record` call `c` can be: still sending, dropped, or accepted with its observation enqueued. */
  ghost predicate TryState(s: Recorder, c: nat, o: Obs) {
    c < |s.callers| &&
    (s.callers[c] == Trying(o) || s.callers[c] == Dropping || s.callers[c] == Finished(Dropped) ||
     (s.callers[c] == Finished(Accepted) && Observe(o, false) in s.accepted))
  }

  lemma StepKeepsTry(s: Recorder, a: Action, limits: Limits, c: nat, o: Obs)
    requires RepliesAwaited(s) && Enabled(s, a, limits) && TryState(s, c, o)
    ensures TryState(Next(s, a, limits), c, o)
  {
    var s' := Next(s, a, limits);
    assert s.accepted <= s'.accepted;
    if a == TrySend(c) && s'.callers[c] == Finished(Accepted) {
      assert s'.accepted[|s.accepted|] == Observe(o, false);
    }
  }

  lemma TryStepAt(trace: seq<Recorder>, actions: seq<Action>, limits: Limits, t: nat, c: nat, o: Obs)
    requires Run(trace, actions, limits) && t < |actions| && TryState(trace[t], c, o)
    ensures TryState(trace[t + 1], c, o)
  {
    RunInvariant(trace, actions, limits, t);
    RunStep(trace, actions, limits, t);
    StepKeepsTry(trace[t], actions[t], limits, c, o);
  }

  lemma TryBegins(trace: seq<Recorder>, actions: seq<Action>, limits: Limits, r: nat)
    requires Run(trace, actions, limits) && r < |actions| && actions[r].BeginTryRecord?
    ensures TryState(trace[r + 1], |trace[r].callers|, Obs(|trace[r].callers|, actions[r].key, actions[r].part))
  {
    RunStep(trace, actions, limits, r);
  }

  /**
   A `try_record` call never ends any other way than accepted, with exactly its observation
   enqueued, or dropped and counted; it is never refused and never waits for a reply.
   */
  lemma {:induction false} TryRecordEnds(trace: seq<Recorder>, actions: seq<Action>, limits: Limits, r: nat, t: nat)
    requires Run(trace, actions, limits) && r < t < |trace| && actions[r].BeginTryRecord?
    ensures TryState(trace[t], |trace[r].callers|, Obs(|trace[r].callers|, actions[r].key, actions[r].part))
  {
    if t == r + 1 {
      TryBegins(trace, actions, limits, r);
    } else {
      TryRecordEnds(trace, actions, limits, r, t - 1);
      var c := |trace[r].callers|;
      TryStepAt(trace, actions, limits, t - 1, c, Obs(c, actions[r].key, actions[r].part));
    }
  }

  predicate Within(s: Recorder, limits: Limits) {
    |s.queue| <= limits.capacity && |BatchOf(s.worker)| <= (if limits.batchCap == 0 then 1 else limits.batchCap)
  }

  lemma StepKeepsWithin(s: Recorder, a: Action, limits: Limits)
    requires Within(s, limits) && Enabled(s, a, limits)
    ensures Within(Next(s, a, limits), limits)
  {}

  /** The queue never outgrows its capacity, nor the worker's batch its cap. */
  lemma {:induction false} WithinLimits(trace: seq<Recorder>, actions: seq<Action>, limits: Limits, t: nat)
    requires Run(trace, actions, limits) && t < |trace|
    ensures |trace[t].queue| <= limits.capacity
    ensures |BatchOf(trace[t].worker)| <= (if limits.batchCap == 0 then 1 else limits.batchCap)
  {
    if t > 0 {
      RunStep(trace, actions, limits, t - 1);
      WithinLimits(trace, actions, limits, t - 1);
      StepKeepsWithin(trace[t - 1], actions[t - 1], limits);
    }
  }

  /** The step is call `c`'s send and finds the worker gone or no room. */
  predicate FindsNoRoom(s: Recorder, a: Action, limits: Limits, c: nat) {
    a == TrySend(c) && (s.worker.Gone? || |s.queue| >= limits.capacity)
  }

  predicate DropsCall(x: Caller) {
    x == Dropping || x == Finished(Dropped)
  }

  lemma StepDrops(s: Recorder, a: Action, limits: Limits, c: nat)
    requires RepliesAwaited(s) && Enabled(s, a, limits) && c < |s.callers|
    ensures DropsCall(Next(s, a, limits).callers[c]) <==> DropsCall(s.callers[c]) || FindsNoRoom(s, a, limits, c)
    ensures a == TrySend(c) && !FindsNoRoom(s, a, limits, c) ==> Next(s, a, limits).callers[c] == Finished(Accepted)
    ensures s.callers[c].Finished? ==> Next(s, a, limits).callers[c] == s.callers[c]
  {}

  /** At step `k` call `c` was turned away. */
  ghost predicate TurnedAway(trace: seq<Recorder>, actions: seq<Action>, limits: Limits, c: nat, k: nat)
    requires k < |actions| < |trace|
  {
    FindsNoRoom(trace[k], actions[k], limits, c)
  }

  ghost predicate Drops(trace: seq<Recorder>, c: nat, k: nat) {
    k < |trace| && c < |trace[k].callers| && DropsCall(trace[k].callers[c])
  }

  /** What step `t` does to call `c`, if it has been made. */
  lemma DropsAt(trace: seq<Recorder>, actions: seq<Action>, limits: Limits, t: nat, c: nat)
    requires Run(trace, actions, limits) && t < |actions|
    ensures Drops(trace, c, t + 1) <==> Drops(trace, c, t) || TurnedAway(trace, actions, limits, c, t)
  {
    RunStep(trace, actions, limits, t);
    RunInvariant(trace, actions, limits, t);
    OneMoreCaller(trace[t], actions[t], limits);
    if c < |trace[t].callers| {
      StepDrops(trace[t], actions[t], limits, c);
    } else if c < |trace[t + 1].callers| {
      NewCaller(trace[t], actions[t], limits, c);
    }
  }

  lemma {:induction false} Accumulates(now: nat -> bool, adds: nat -> bool, t: nat)
    requires !now(0) && forall k: nat | k < t :: now(k + 1) <==> now(k) || adds(k)
    ensures now(t) <==> exists k: nat | k < t :: adds(k)
  {
    if t > 0 { Accumulates(now, adds, t - 1); }
  }

  /** An observation is dropped exactly when its `try_record` found the queue full or the worker gone. */
  lemma DroppedIffNoRoom(trace: seq<Recorder>, actions: seq<Action>, limits: Limits, t: nat, c: nat)
    requires Run(trace, actions, limits) && t < |trace| && c < |trace[t].callers|
    ensures DropsCall(trace[t].callers[c]) <==> exists k: nat | k < t :: TurnedAway(trace, actions, limits, c, k)
  {
    var now := (k: nat) => Drops(trace, c, k);
    var adds := (k: nat) => k < |actions| < |trace| && TurnedAway(trace, actions, limits, c, k);
    forall k: nat | k < t ensures now(k + 1) <==> now(k) || adds(k) { DropsAt(trace, actions, limits, k, c); }
    Accumulates(now, adds, t);
    if k: nat :| k < t && adds(k) { assert TurnedAway(trace, actions, limits, c, k); }
    if k: nat :| k < t && TurnedAway(trace, actions, limits, c, k) { assert adds(k); }
  }

  lemma NewCaller(s: Recorder, a: Action, limits: Limits, c: nat)
    requires Enabled(s, a, limits) && |s.callers| <= c < |Next(s, a, limits).callers|
    ensures !DropsCall(Next(s, a, limits).callers[c])
  {}

  lemma OneMoreCaller(s: Recorder, a: Action, limits: Limits)
    requires Enabled(s, a, limits)
    ensures |s.callers| <= |Next(s, a, limits).callers|
  {}

  lemma AcceptedAt(trace: seq<Recorder>, actions: seq<Action>, limits: Limits, t: nat, c: nat)
    requires Run(trace, actions, limits) && t < |actions| && c < |trace[t].callers|
    ensures c < |trace[t + 1].callers|
    ensures trace[t].callers[c].Finished? ==> trace[t + 1].callers[c] == trace[t].callers[c]
    ensures actions[t] == TrySend(c) && !FindsNoRoom(trace[t], actions[t], limits, c) ==>
              trace[t + 1].callers[c] == Finished(Accepted)
  {
    RunStep(trace, actions, limits, t);
    RunInvariant(trace, actions, limits, t);
    OneMoreCaller(trace[t], actions[t], limits);
    StepDrops(trace[t], actions[t], limits, c);
  }

  lemma {:induction false} Persists(p: nat -> bool, r: nat, t: nat)
    requires r <= t && p(r) && forall k: nat | r <= k < t && p(k) :: p(k + 1)
    ensures p(t)
  {
    if r < t { Persists(p, r, t - 1); }
  }

  lemma AnswerStays(trace: seq<Recorder>, actions: seq<Action>, limits: Limits, r: nat, t: nat, c: nat)
    requires Run(trace, actions, limits) && r <= t < |trace| && c < |trace[r].callers| && trace[r].callers[c].Finished?
    ensures c < |trace[t].callers| && trace[t].callers[c] == trace[r].callers[c]
  {
    var answer := trace[r].callers[c];
    var told := (k: nat) => k < |trace| && c < |trace[k].callers| && trace[k].callers[c] == answer;
    forall k: nat | r <= k < t && told(k) ensures told(k + 1) { AcceptedAt(trace, actions, limits, k, c); }
    Persists(told, r, t);
  }

  lemma TrySendIsMade(trace: seq<Recorder>, actions: seq<Action>, limits: Limits, k: nat, c: nat)
    requires Run(trace, actions, limits) && k < |actions| && actions[k] == TrySend(c)
    ensures c < |trace[k].callers|
  {
    RunStep(trace, actions, limits, k);
  }

  /** A `try_record` that finds the worker alive and room in the queue is accepted, for good. */
  lemma RoomMeansAccepted(
    trace: seq<Recorder>, actions: seq<Action>, limits: Limits, k: nat, t: nat, c: nat)
    requires Run(trace, actions, limits) && k < t < |trace| && actions[k] == TrySend(c)
    requires !trace[k].worker.Gone? && |trace[k].queue| < limits.capacity
    ensures c < |trace[t].callers| && trace[t].callers[c] == Finished(Accepted)
  {
    TrySendIsMade(trace, actions, limits, k, c);
    AcceptedAt(trace, actions, limits, k, c);
    AnswerStays(trace, actions, limits, k + 1, t, c);
  }

  /** A `record` or `flush` is refused only after the worker is gone. */
  lemma {:induction false} RefusedOnlyIfGone(trace: seq<Recorder>, actions: seq<Action>, limits: Limits, t: nat, c: nat)
    requires Run(trace, actions, limits) && t < |trace|
    requires c < |trace[t].callers| && trace[t].callers[c] == Finished(Refused)
    ensures trace[t].worker.Gone? && exists k | 0 <= k < t :: actions[k].Crash?
  {
    RefusedAt(trace, actions, limits, t - 1, c);
    if !trace[t - 1].worker.Gone? { RefusedOnlyIfGone(trace, actions, limits, t - 1, c); }
    GoneByCrash(trace, actions, limits, t);
  }

  lemma RefusedAt(trace: seq<Recorder>, actions: seq<Action>, limits: Limits, t: nat, c: nat)
    requires Run(trace, actions, limits) && t < |actions|
    requires c < |trace[t + 1].callers| && trace[t + 1].callers[c] == Finished(Refused)
    ensures (c < |trace[t].callers| && trace[t].callers[c] == Finished(Refused)) || trace[t].worker.Gone?
    ensures trace[t].worker.Gone? ==> trace[t + 1].worker.Gone?
  {
    RunStep(trace, actions, limits, t);
    RunInvariant(trace, actions, limits, t);
    RefusedStep(trace[t], actions[t], limits, c);
  }

  lemma RefusedStep(s: Recorder, a: Action, limits: Limits, c: nat)
    requires RepliesAwaited(s) && Enabled(s, a, limits) && c < |Next(s, a, limits).callers|
    requires Next(s, a, limits).callers[c] == Finished(Refused)
    ensures (c < |s.callers| && s.callers[c] == Finished(Refused)) || s.worker.Gone?
    ensures s.worker.Gone? ==> Next(s, a, limits).worker.Gone?
  {}

  lemma {:induction false} GoneByCrash(trace: seq<Recorder>, actions: seq<Action>, limits: Limits, t: nat)
    requires Run(trace, actions, limits) && t < |trace| && trace[t].worker.Gone?
    ensures exists k | 0 <= k < t :: actions[k].Crash?
  {
    RunStep(trace, actions, limits, t - 1);
    if trace[t - 1].worker.Gone? {
      GoneByCrash(trace, actions, limits, t - 1);
    } else {
      CrashStep(trace[t - 1], actions[t - 1], limits);
    }
  }

  lemma CrashStep(s: Recorder, a: Action, limits: Limits)
    requires Enabled(s, a, limits) && !s.worker.Gone? && Next(s, a, limits).worker.Gone?
    ensures a.Crash?
  {}

  ghost predicate Answered(s: Recorder, c: nat, ok: bool) {
    c < |s.callers| && s.callers[c] == Finished(Replied(ok))
  }

  /** Attempted command `i` has had its answer, or gets it before the worker goes on. */
  ghost predicate Remembered(s: Recorder, i: nat)
    requires i < |s.outcome| <= |s.accepted|
  {
    Awaited(s.accepted[i]) ==>
      Answered(s, IdOf(s.accepted[i]), s.outcome[i]) ||
      (s.worker.Replying? && s.worker.ok == s.outcome[i] && IdOf(s.accepted[i]) in s.worker.replies)
  }

  lemma {:induction false} AwaitedIsReplied(batch: seq<Command>, i: nat)
    requires i < |batch| && Awaited(batch[i])
    ensures IdOf(batch[i]) in AcksOf(batch) + BarriersOf(batch)
  {
    if i < |batch| - 1 { AwaitedIsReplied(batch[..|batch| - 1], i); }
  }

  lemma SettleRemembers(s: Recorder, limits: Limits, i: nat)
    requires PrefixInv(s) && Enabled(s, Settle, limits) && i < |s.outcome| + |s.worker.batch|
    requires i < |s.outcome| ==> Remembered(s, i)
    ensures PrefixInv(Next(s, Settle, limits)) && Remembered(Next(s, Settle, limits), i)
  {
    StepKeepsPrefix(s, Settle, limits);
    if i >= |s.outcome| {
      BatchIndex(s, i - |s.outcome|);
      if Awaited(s.accepted[i]) { AwaitedIsReplied(s.worker.batch, i - |s.outcome|); }
    }
  }

  lemma StepRemembers(s: Recorder, a: Action, limits: Limits, i: nat)
    requires PrefixInv(s) && RepliesAwaited(s) && Enabled(s, a, limits) && !a.Settle? && !a.Crash? && i < |s.outcome|
    requires Remembered(s, i)
    ensures PrefixInv(Next(s, a, limits)) && i < |Next(s, a, limits).outcome| && Remembered(Next(s, a, limits), i)
  {
    StepKeepsPrefix(s, a, limits);
    if a.Reply? { assert s.worker.replies == [s.worker.replies[0]] + s.worker.replies[1..]; }
  }

  ghost predicate AllRemembered(s: Recorder) {
    PrefixInv(s) && (s.worker.Gone? || forall i | 0 <= i < |s.outcome| :: Remembered(s, i))
  }

  lemma OutcomesOf(s: Recorder, a: Action, limits: Limits)
    requires Enabled(s, a, limits)
    ensures |Next(s, a, limits).outcome| == |s.outcome| + if a.Settle? then |s.worker.batch| else 0
    ensures Next(s, a, limits).worker.Gone? <==> s.worker.Gone? || a.Crash?
  {}

  lemma StepRemembersAll(s: Recorder, a: Action, limits: Limits)
    requires AllRemembered(s) && RepliesAwaited(s) && Enabled(s, a, limits)
    ensures AllRemembered(Next(s, a, limits))
  {
    StepKeepsPrefix(s, a, limits);
    OutcomesOf(s, a, limits);
    var s' := Next(s, a, limits);
    if !s'.worker.Gone? {
      forall i | 0 <= i < |s'.outcome| ensures Remembered(s', i) {
        if a.Settle? { SettleRemembers(s, limits, i); } else { StepRemembers(s, a, limits, i); }
      }
    }
  }

  lemma {:induction false} RunRemembers(trace: seq<Recorder>, actions: seq<Action>, limits: Limits, t: nat)
    requires Run(trace, actions, limits) && t < |trace|
    ensures AllRemembered(trace[t])
  {
    if t > 0 {
      RunRemembers(trace, actions, limits, t - 1);
      RunStep(trace, actions, limits, t - 1);
      RunInvariant(trace, actions, limits, t - 1);
      StepRemembersAll(trace[t - 1], actions[t - 1], limits);
    }
  }

  /** Nobody is forgotten: when the worker turns to the next batch, every record and flush so far has its answer. */
  lemma EveryoneIsAnswered(trace: seq<Recorder>, actions: seq<Action>, limits: Limits, t: nat, i: nat)
    requires Run(trace, actions, limits) && t < |trace| && !trace[t].worker.Gone? && !trace[t].worker.Replying?
    requires i < |trace[t].outcome|
    ensures
      var s := trace[t];
      && i < |s.accepted|
      && (s.accepted[i].Flush? ==> Answered(s, s.accepted[i].caller, s.outcome[i]))
      && (s.accepted[i].Observe? && s.accepted[i].wantsAck ==> Answered(s, s.accepted[i].obs.id, s.outcome[i]))
  {
    RunRemembers(trace, actions, limits, t);
    assert Remembered(trace[t], i);
  }

  /** A logged id brings the whole observation with it. */
  lemma LoggedIsWhole(s: Recorder, i: nat)
    requires CallersInv(s) && LogInv(s) && i < |s.accepted|
    requires s.accepted[i].Observe? && Logged(s.log, IdOf(s.accepted[i]))
    ensures HasPiece(s.log, s.accepted[i].obs)
  {
    var j :| 0 <= j < |s.log| && s.log[j].source == Some(IdOf(s.accepted[i]));
    assert PieceInv(s, j);
    var k :| 0 <= k < |s.accepted| && MayBeStored(s, k) &&
             s.accepted[k].obs == Obs(s.log[j].source.value, s.log[j].key, s.log[j].part);
    assert IdOf(s.accepted[k]) == IdOf(s.accepted[i]);
    assert k == i;
  }

  /**
   At every moment the store is the merge of the logged contributions; each observation is
   logged at most once; and one whose `record` returned Ok is logged, with its own key and counters.
   */
  lemma RecordedExactlyOnce(trace: seq<Recorder>, actions: seq<Action>, limits: Limits, i: nat)
    requires Run(trace, actions, limits) && i < |trace|
    ensures
      var s := trace[i];
      && (forall key :: Lookup(s.store, key) == StoredAs(PiecesOn(s.log, key)))
      && (forall j, k | 0 <= j < k < |s.log| && s.log[j].source.Some? :: s.log[j].source != s.log[k].source)
      && (forall c | 0 <= c < |s.accepted| && s.accepted[c].Observe? && Answered(s, IdOf(s.accepted[c]), true) ::
            HasPiece(s.log, s.accepted[c].obs))
  {
    RunInvariant(trace, actions, limits, i);
    var s := trace[i];
    forall c | 0 <= c < |s.accepted| && s.accepted[c].Observe? && Answered(s, IdOf(s.accepted[c]), true)
      ensures HasPiece(s.log, s.accepted[c].obs)
    {
      assert Attempted(s, IdOf(s.accepted[c]), true);
      var k :| 0 <= k < |s.outcome| && IdOf(s.accepted[k]) == IdOf(s.accepted[c]) && s.outcome[k] == true;
      assert k == c;
      LoggedIsWhole(s, c);
    }
  }

  /** The command at `f` is a flush, and its caller has been answered. */
  ghost predicate FlushAnswered(s: Recorder, f: nat) {
    f < |s.accepted| && s.accepted[f].Flush? && exists ok :: Answered(s, s.accepted[f].caller, ok)
  }

  /**
   Flush is a barrier: once a flush has been answered, every command enqueued before it has
   been attempted, and every such observation whose batch succeeded is stored.
   */
  lemma FlushIsBarrier(trace: seq<Recorder>, actions: seq<Action>, limits: Limits, t: nat, f: nat, i: nat)
    requires Run(trace, actions, limits) && t < |trace| && i < f && FlushAnswered(trace[t], f)
    ensures
      var s := trace[t];
      && i < |s.outcome|
      && (s.outcome[i] && s.accepted[i].Observe? ==> HasPiece(s.log, s.accepted[i].obs))
  {
    RunInvariant(trace, actions, limits, t);
    var s := trace[t];
    var id := s.accepted[f].caller;
    assert Attempted(s, id, s.callers[id].result.ok);
    var k :| 0 <= k < |s.outcome| && IdOf(s.accepted[k]) == id && s.outcome[k] == s.callers[id].result.ok;
    assert IdOf(s.accepted[f]) == id;
    assert k == f;
    if s.outcome[i] && s.accepted[i].Observe? { LoggedIsWhole(s, i); }
  }

  // A store that never fails.

  ghost predicate NeverFails(actions: seq<Action>) {
    forall k | 0 <= k < |actions| :: !actions[k].MergeFails?
  }

  ghost predicate AllWell(s: Recorder) {
    (forall i | 0 <= i < |s.outcome| :: s.outcome[i]) && (s.worker.Merging? ==> !s.worker.failed)
  }

  lemma StepKeepsWell(s: Recorder, a: Action, limits: Limits)
    requires AllWell(s) && Enabled(s, a, limits) && !a.MergeFails?
    ensures AllWell(Next(s, a, limits))
  {}

  lemma {:induction false} EveryBatchSucceeds(trace: seq<Recorder>, actions: seq<Action>, limits: Limits, t: nat)
    requires Run(trace, actions, limits) && t < |trace| && forall k | 0 <= k < t :: !actions[k].MergeFails?
    ensures AllWell(trace[t])
  {
    if t > 0 {
      EveryBatchSucceeds(trace, actions, limits, t - 1);
      RunStep(trace, actions, limits, t - 1);
      StepKeepsWell(trace[t - 1], actions[t - 1], limits);
    }
  }

  /** A call is told of an error only if the store failed. */
  lemma ErrorMeansFailure(trace: seq<Recorder>, actions: seq<Action>, limits: Limits, t: nat, c: nat)
    requires Run(trace, actions, limits) && t < |trace| && Answered(trace[t], c, false)
    ensures exists k | 0 <= k < t :: actions[k].MergeFails?
  {
    RunInvariant(trace, actions, limits, t);
    assert Attempted(trace[t], c, false);
    if forall k | 0 <= k < t :: !actions[k].MergeFails? { EveryBatchSucceeds(trace, actions, limits, t); }
  }

  lemma {:induction false} PieceIsOn(log: seq<Piece>, j: nat)
    requires j < |log|
    ensures log[j].part in PiecesOn(log, log[j].key)
  {
    if j < |log| - 1 {
      PieceIsOn(log[..|log| - 1], j);
    }
  }

  /**
   With a store that never fails, an answered flush means that every observation enqueued
   before it is part of its key's stored bucket.
   */
  lemma FlushStoresEverything(trace: seq<Recorder>, actions: seq<Action>, limits: Limits, t: nat, f: nat, i: nat)
    requires Run(trace, actions, limits) && NeverFails(actions) && t < |trace| && i < f && FlushAnswered(trace[t], f)
    requires trace[t].accepted[i].Observe?
    ensures
      var s, o := trace[t], trace[t].accepted[i].obs;
      && HasPiece(s.log, o)
      && o.part in PiecesOn(s.log, o.key)
      && Lookup(s.store, o.key) == Some(MergeAll(PiecesOn(s.log, o.key)))
  {
    var s, o := trace[t], trace[t].accepted[i].obs;
    EveryBatchSucceeds(trace, actions, limits, t);
    FlushIsBarrier(trace, actions, limits, t, f, i);
    RecordedExactlyOnce(trace, actions, limits, t);
    var j :| 0 <= j < |s.log| && s.log[j] == Piece(Some(o.id), o.key, o.part);
    PieceIsOn(s.log, j);
  }

  // Where stored keys come from.

  /** Only keys that satisfy `ok` are ever observed, here or on another node. */
  ghost predicate OnlyKeys(actions: seq<Action>, ok: Key -> bool) {
    forall k | 0 <= k < |actions| :: KeyAllowed(actions[k], ok)
  }

  ghost predicate KeyAllowed(a: Action, ok: Key -> bool) {
    a.BeginRecord? || a.BeginTryRecord? || a.ForeignMerge? ==> ok(a.key)
  }

  ghost predicate KeysInv(s: Recorder, ok: Key -> bool) {
    && (forall c | 0 <= c < |s.callers| && (s.callers[c].Recording? || s.callers[c].Trying?) ::
          ok(s.callers[c].obs.key))
    && (forall i | 0 <= i < |s.accepted| && s.accepted[i].Observe? :: ok(s.accepted[i].obs.key))
    && (forall j | 0 <= j < |s.log| && s.log[j].source.None? :: ok(s.log[j].key))
  }

  lemma StepKeepsKeys(s: Recorder, a: Action, limits: Limits, ok: Key -> bool)
    requires KeysInv(s, ok) && Enabled(s, a, limits) && KeyAllowed(a, ok)
    ensures KeysInv(Next(s, a, limits), ok)
  {}

  lemma {:induction false} KeysHold(trace: seq<Recorder>, actions: seq<Action>, limits: Limits, t: nat, ok: Key -> bool)
    requires Run(trace, actions, limits) && OnlyKeys(actions, ok) && t < |trace|
    ensures KeysInv(trace[t], ok)
  {
    if t > 0 {
      KeysHold(trace, actions, limits, t - 1, ok);
      RunStep(trace, actions, limits, t - 1);
      StepKeepsKeys(trace[t - 1], actions[t - 1], limits, ok);
    }
  }

  /** Every stored contribution has a key that some call was made with. */
  lemma StoredKeysWereObserved(trace: seq<Recorder>, actions: seq<Action>, limits: Limits, t: nat, ok: Key -> bool)
    requires Run(trace, actions, limits) && OnlyKeys(actions, ok) && t < |trace|
    ensures forall j | 0 <= j < |trace[t].log| :: ok(trace[t].log[j].key)
  {
    var s := trace[t];
    KeysHold(trace, actions, limits, t, ok);
    RunInvariant(trace, actions, limits, t);
    forall j | 0 <= j < |s.log| ensures ok(s.log[j].key) {
      assert PieceInv(s, j);
    }
  }

  lemma NothingRemoved(s: Recorder, a: Action, limits: Limits)
    requires Enabled(s, a, limits)
    ensures s.store.Keys <= Next(s, a, limits).store.Keys && s.log <= Next(s, a, limits).log
  {}

  /** Neither a key nor a contribution disappears from one moment to the next. */
  ghost predicate GrowsAt(trace: seq<Recorder>, i: nat)
    requires i + 1 < |trace|
  {
    trace[i].store.Keys <= trace[i + 1].store.Keys && trace[i].log <= trace[i + 1].log
  }

  ghost predicate Grows(trace: seq<Recorder>) {
    forall i | 0 <= i < |trace| - 1 :: GrowsAt(trace, i)
  }

  lemma RunGrows(trace: seq<Recorder>, actions: seq<Action>, limits: Limits)
    requires Run(trace, actions, limits)
    ensures Grows(trace)
  {
    forall i | 0 <= i < |trace| - 1 ensures GrowsAt(trace, i) {
      RunStep(trace, actions, limits, i);
      NothingRemoved(trace[i], actions[i], limits);
    }
  }

  lemma {:induction false} GrowsBetween(trace: seq<Recorder>, r: nat, t: nat)
    requires Grows(trace) && r <= t < |trace|
    ensures trace[r].store.Keys <= trace[t].store.Keys && trace[r].log <= trace[t].log
  {
    if r < t {
      GrowsBetween(trace, r, t - 1);
      assert GrowsAt(trace, t - 1);
    }
  }

  /** What was stored stays stored, between any two moments of a run. */
  lemma StoreGrows(trace: seq<Recorder>, actions: seq<Action>, limits: Limits, r: nat, t: nat)
    requires Run(trace, actions, limits) && r <= t < |trace|
    ensures trace[r].store.Keys <= trace[t].store.Keys && trace[r].log <= trace[t].log
  {
    RunGrows(trace, actions, limits);
    GrowsBetween(trace, r, t);
  }

  // Independence of batching and order.

  /** Own contributions to a key, in store order. */
  function OwnOn(log: seq<Piece>, key: Key): seq<Obs> {
    if log == [] then [] else
      var last := log[|log| - 1];
      OwnOn(log[..|log| - 1], key) +
      if last.key == key && last.source.Some? then [Obs(last.source.value, key, last.part)] else []
  }

  /** Other nodes' contributions to a key, in store order. */
  function ForeignOn(log: seq<Piece>, key: Key): seq<Entries> {
    if log == [] then [] else
      var last := log[|log| - 1];
      ForeignOn(log[..|log| - 1], key) + if last.key == key && last.source.None? then [last.part] else []
  }

  lemma PartsOfExtend(obs: seq<Obs>, o: Obs)
    ensures PartsOf(obs + [o]) == PartsOf(obs) + [o.part]
  {}

  lemma {:induction false} PiecesSplit(log: seq<Piece>, key: Key)
    ensures multiset(PiecesOn(log, key)) == multiset(PartsOf(OwnOn(log, key))) + multiset(ForeignOn(log, key))
  {
    if log != [] {
      var front, last := log[..|log| - 1], log[|log| - 1];
      PiecesSplit(front, key);
      assert log == front + [last];
      SplitLast(front, last, key);
    }
  }

  lemma SplitLast(front: seq<Piece>, last: Piece, key: Key)
    ensures
      var log := front + [last];
      && multiset(PiecesOn(log, key)) ==
           multiset(PiecesOn(front, key)) + (if last.key == key then multiset{last.part} else multiset{})
      && multiset(PartsOf(OwnOn(log, key))) == multiset(PartsOf(OwnOn(front, key))) +
           (if last.key == key && last.source.Some? then multiset{last.part} else multiset{})
      && multiset(ForeignOn(log, key)) == multiset(ForeignOn(front, key)) +
           (if last.key == key && last.source.None? then multiset{last.part} else multiset{})
  {
    var log := front + [last];
    assert log[..|front|] == front;
    assert PiecesOn(front, key) + [] == PiecesOn(front, key);
    assert OwnOn(front, key) + [] == OwnOn(front, key) && ForeignOn(front, key) + [] == ForeignOn(front, key);
    if last.key == key && last.source.Some? {
      PartsOfExtend(OwnOn(front, key), Obs(last.source.value, key, last.part));
    }
  }

  lemma {:induction false} OwnOnMembers(log: seq<Piece>, key: Key, o: Obs)
    ensures o in OwnOn(log, key) <==> o.key == key && HasPiece(log, o)
  {
    if log != [] {
      var front, last := log[..|log| - 1], log[|log| - 1];
      OwnOnMembers(front, key, o);
      assert HasPiece(log, o) <==> HasPiece(front, o) || last == Piece(Some(o.id), o.key, o.part) by {
        if HasPiece(front, o) {
          var j :| 0 <= j < |front| && front[j] == Piece(Some(o.id), o.key, o.part);
          assert log[j] == front[j];
        }
        if HasPiece(log, o) {
          var j :| 0 <= j < |log| && log[j] == Piece(Some(o.id), o.key, o.part);
          assert j < |front| ==> front[j] == log[j];
        }
      }
    }
  }

  lemma {:induction false} OwnOnDistinct(log: seq<Piece>, key: Key)
    requires forall i, j | 0 <= i < j < |log| && log[i].source.Some? :: log[i].source != log[j].source
    ensures DistinctObs(OwnOn(log, key))
  {
    if log != [] {
      var front, last := log[..|log| - 1], log[|log| - 1];
      OwnOnDistinct(front, key);
      forall k | 0 <= k < |OwnOn(front, key)| ensures Some(OwnOn(front, key)[k].id) != last.source {
        OwnOnMembers(front, key, OwnOn(front, key)[k]);
        assert forall j | 0 <= j < |front| && log[j].source.Some? :: front[j].source != last.source;
      }
    }
  }

  /** Removing the same element from two duplicate-free listings keeps them equal as sets. */
  lemma SameObsRemove(xs: seq<Obs>, ys: seq<Obs>, j: nat, o: Obs)
    requires DistinctObs(xs) && DistinctObs(ys) && xs != [] && j < |ys| && ys[j] == xs[|xs| - 1]
    requires o in xs <==> o in ys
    ensures o in xs[..|xs| - 1] <==> o in ys[..j] + ys[j + 1..]
  {
    var last := |xs| - 1;
    var front, rest := xs[..last], ys[..j] + ys[j + 1..];
    assert o in front <==> o in xs && o != xs[last];
    assert o in rest <==> o in ys && o != ys[j] by {
      if o in ys && o != ys[j] {
        var b :| 0 <= b < |ys| && ys[b] == o;
        assert o == if b < j then rest[b] else rest[b - 1];
      }
      if o in rest {
        var b :| 0 <= b < |rest| && rest[b] == o;
        assert o == ys[if b < j then b else b + 1];
      }
    }
  }

  /** Two duplicate-free listings of the same observations are permutations. */
  lemma {:induction false} SameObs(xs: seq<Obs>, ys: seq<Obs>)
    requires DistinctObs(xs) && DistinctObs(ys)
    requires forall o :: o in xs <==> o in ys
    ensures multiset(PartsOf(xs)) == multiset(PartsOf(ys))
    decreases |xs|
  {
    if xs == [] {
      DistinctCard(ys);
      assert ObsSet(ys) == {};
    } else {
      var last := |xs| - 1;
      assert xs[last] in ys;
      var j :| 0 <= j < |ys| && ys[j] == xs[last];
      var front, rest := xs[..last], ys[..j] + ys[j + 1..];
      forall o ensures o in front <==> o in rest { SameObsRemove(xs, ys, j, o); }
      SameObs(front, rest);
      PartsWithout(xs, last);
      PartsWithout(ys, j);
      assert xs[..last] + xs[last + 1..] == front;
    }
  }

  function ObsSet(xs: seq<Obs>): set<Obs> {
    set o | o in xs
  }

  lemma {:induction false} DistinctCard(xs: seq<Obs>)
    requires DistinctObs(xs)
    ensures |ObsSet(xs)| == |xs|
  {
    if xs != [] {
      var front, last := xs[..|xs| - 1], xs[|xs| - 1];
      DistinctCard(front);
      assert ObsSet(xs) == ObsSet(front) + {last};
      assert last !in front;
    }
  }

  lemma PartsWithout(xs: seq<Obs>, j: nat)
    requires j < |xs|
    ensures multiset(PartsOf(xs)) == multiset(PartsOf(xs[..j] + xs[j + 1..])) + multiset{xs[j].part}
  {
    assert PartsOf(xs[..j] + xs[j + 1..]) == PartsOf(xs)[..j] + PartsOf(xs)[j + 1..];
    assert PartsOf(xs) == PartsOf(xs)[..j] + [PartsOf(xs)[j]] + PartsOf(xs)[j + 1..];
  }

  /** All commands attempted, every batch successful, nothing in the worker's hands. */
  ghost predicate CleanlyDrained(s: Recorder) {
    s.queue == [] && BatchOf(s.worker) == [] && forall i | 0 <= i < |s.outcome| :: s.outcome[i]
  }

  lemma LoggedIffAccepted(s: Recorder, o: Obs)
    requires Inv(s) && CleanlyDrained(s)
    ensures HasPiece(s.log, o) <==> HasObs(s.accepted, o)
  {
    assert |s.accepted[|s.outcome|..]| == 0;
    if HasPiece(s.log, o) {
      var j :| 0 <= j < |s.log| && s.log[j] == Piece(Some(o.id), o.key, o.part);
      assert PieceInv(s, j);
    }
    if HasObs(s.accepted, o) {
      var i :| 0 <= i < |s.accepted| && s.accepted[i].Observe? && s.accepted[i].obs == o;
      assert s.outcome[i] && Logged(s.log, IdOf(s.accepted[i]));
      LoggedIsWhole(s, i);
    }
  }

  lemma DrainedLogIsAccepted(s: Recorder, key: Key)
    requires Inv(s) && CleanlyDrained(s)
    ensures multiset(PartsOf(OwnOn(s.log, key))) == multiset(PartsOf(ObsOn(s.accepted, key)))
  {
    OwnOnDistinct(s.log, key);
    ObsOnDistinct(s.accepted, key);
    forall o ensures o in OwnOn(s.log, key) <==> o in ObsOn(s.accepted, key) {
      LoggedIffAccepted(s, o);
      OwnOnMembers(s.log, key, o);
      ObsOnMembers(s.accepted, key, o);
    }
    SameObs(OwnOn(s.log, key), ObsOn(s.accepted, key));
  }

  /** What a key's bucket is made of: this node's accepted observations and the other nodes' contributions. */
  function Contributions(s: Recorder, key: Key): seq<Entries> {
    PartsOf(ObsOn(s.accepted, key)) + ForeignOn(s.log, key)
  }

  /**
   Whatever the batch boundaries, the cap, the interleaving and the other nodes' writes:
   once every accepted command has been attempted successfully, each stored bucket is the
   merge of the accepted observations in enqueue order and the other nodes' contributions.
   */
  lemma BatchingDoesNotMatter(trace: seq<Recorder>, actions: seq<Action>, limits: Limits, i: nat, key: Key)
    requires Run(trace, actions, limits) && i < |trace| && CleanlyDrained(trace[i])
    ensures
      var s := trace[i];
      Lookup(s.store, key) == StoredAs(Contributions(s, key))
  {
    RunInvariant(trace, actions, limits, i);
    var s := trace[i];
    var stored, direct := PiecesOn(s.log, key), Contributions(s, key);
    PiecesSplit(s.log, key);
    DrainedLogIsAccepted(s, key);
    PiecesOnCanonical(s.log, key);
    assert multiset(stored) == multiset(direct);
    MergeAllPermutation(stored, direct);
    assert |multiset(stored)| == |stored| && |multiset(direct)| == |direct|;
  }

  /**
   Two clean runs agree on a key whenever the same contributions were made to it, whichever
   node made them, in whatever order, with whatever caps.
   */
  lemma ArrivalOrderDoesNotMatter(
    t1: seq<Recorder>, a1: seq<Action>, l1: Limits, t2: seq<Recorder>, a2: seq<Action>, l2: Limits,
    i: nat, j: nat, key: Key)
    requires Run(t1, a1, l1) && Run(t2, a2, l2) && i < |t1| && j < |t2|
    requires CleanlyDrained(t1[i]) && CleanlyDrained(t2[j])
    requires multiset(Contributions(t1[i], key)) == multiset(Contributions(t2[j], key))
    ensures Lookup(t1[i].store, key) == Lookup(t2[j].store, key)
  {
    var xs, ys := Contributions(t1[i], key), Contributions(t2[j], key);
    BatchingDoesNotMatter(t1, a1, l1, i, key);
    BatchingDoesNotMatter(t2, a2, l2, j, key);
    RunInvariant(t1, a1, l1, i);
    AcceptedCanonical(t1[i], key);
    ForeignCanonical(t1[i].log, key);
    MergeAllPermutation(xs, ys);
    assert |multiset(xs)| == |xs| && |multiset(ys)| == |ys|;
  }

  lemma {:induction false} ForeignCanonical(log: seq<Piece>, key: Key)
    requires forall j | 0 <= j < |log| :: Canonical(log[j].part)
    ensures AllCanonical(ForeignOn(log, key))
  {
    if log != [] { ForeignCanonical(log[..|log| - 1], key); }
  }

  lemma AcceptedCanonical(s: Recorder, key: Key)
    requires CallersInv(s)
    ensures AllCanonical(PartsOf(ObsOn(s.accepted, key)))
  {
    forall k | 0 <= k < |ObsOn(s.accepted, key)| ensures Canonical(ObsOn(s.accepted, key)[k].part) {
      ObsOnMembers(s.accepted, key, ObsOn(s.accepted, key)[k]);
      var i :| 0 <= i < |s.accepted| && s.accepted[i].Observe? && s.accepted[i].obs == ObsOn(s.accepted, key)[k];
      assert CallerInv(s, i);
    }
  }
}
