/**
 The per-session outbound queues at the granularity of single atomic operations: any number
 of senders reserve a message slot, then bytes, then enqueue; one receiver pops, then
 releases the slot, then the bytes.
 */
module OutboundSteps {
  import opened Prelude

  datatype Class = Control | Data

  datatype Frame = Frame(id: nat, size: nat)

  datatype Limits = Limits(controlMessages: nat, dataMessages: nat, controlBytes: nat, dataBytes: nat)

  function MessageLimit(l: Limits, c: Class): nat {
    if c == Control then l.controlMessages else l.dataMessages
  }

  function ByteLimit(l: Limits, c: Class): nat {
    if c == Control then l.controlBytes else l.dataBytes
  }

  /** The channel is created with room for at least one frame. */
  function Capacity(l: Limits, c: Class): nat {
    if MessageLimit(l, c) == 0 then 1 else MessageLimit(l, c)
  }

  datatype SendResult = Sent | Closed | ControlOverflow | DataOverflow | ContinuityLost

  /** Program points of `try_send`; `nested` marks the error frame sent by the overflow path. */
  datatype Sender =
    | Checking(class_: Class, frame: Frame)
    | Reserving(class_: Class, frame: Frame, nested: bool)
    | ReservingBytes(class_: Class, frame: Frame, nested: bool)
    | Undoing(class_: Class, frame: Frame, nested: bool)
    | Enqueueing(class_: Class, frame: Frame, nested: bool)
    | UndoingSlot(class_: Class, frame: Frame, nested: bool)
    | UndoingBytes(class_: Class, frame: Frame, nested: bool)
    | Overflowing
    | Reporting
    | Returned(result: SendResult)

  datatype Receiver =
    | Idle
    | SawNoControl
    | Popped(class_: Class, frame: Frame)
    | SlotReleased(class_: Class, frame: Frame)

  /** One class's counters and channel. */
  datatype Lane = Lane(messages: int, bytes: int, queue: seq<Frame>)

  datatype Session = Session(
    control: Lane, data: Lane, continuityLost: bool, connected: bool,
    senders: seq<Sender>, receiver: Receiver)

  datatype Action =
    | Offer(class_: Class, frame: Frame)
    | Advance(i: nat)
    | Report(i: nat, error: Option<Frame>)
    | PopControl
    | SeeNoControl
    | PopData
    | SeeNoData
    | ReleaseSlot
    | ReleaseBytes
    | Disconnect

  const FRESH := Session(Lane(0, 0, []), Lane(0, 0, []), false, true, [], Idle)

  function LaneOf(s: Session, c: Class): Lane {
    if c == Control then s.control else s.data
  }

  function WithLane(s: Session, c: Class, lane: Lane): Session {
    if c == Control then s.(control := lane) else s.(data := lane)
  }

  function MoveTo(s: Session, i: nat, x: Sender): Session
    requires i < |s.senders|
  {
    s.(senders := s.senders[i := x])
  }

  /** The error frame's own outcome is ignored: the outer call reports data overflow. */
  function End(nested: bool, result: SendResult): Sender {
    Returned(if nested then DataOverflow else result)
  }

  function Overflow(c: Class, nested: bool): Sender {
    if c == Data then Overflowing else End(nested, ControlOverflow)
  }

  predicate OnLane(x: Sender) {
    !x.Checking? && !x.Overflowing? && !x.Reporting? && !x.Returned?
  }

  /** One atomic operation of a sender on its class's counters or channel. */
  function LaneStep(x: Sender, lane: Lane, l: Limits, connected: bool): (Lane, Sender)
    requires OnLane(x)
  {
    match x
    case Reserving(c, f, nested) =>
      if MessageLimit(l, c) == 0 || ByteLimit(l, c) < f.size || lane.messages >= MessageLimit(l, c)
      then (lane, Overflow(c, nested))
      else (lane.(messages := lane.messages + 1), ReservingBytes(c, f, nested))
    case ReservingBytes(c, f, nested) =>
      if lane.bytes + f.size > ByteLimit(l, c) then (lane, Undoing(c, f, nested))
      else (lane.(bytes := lane.bytes + f.size), Enqueueing(c, f, nested))
    case Undoing(c, _, nested) => (lane.(messages := lane.messages - 1), Overflow(c, nested))
    case Enqueueing(c, f, nested) =>
      if connected && |lane.queue| < Capacity(l, c) then (lane.(queue := lane.queue + [f]), End(nested, Sent))
      else (lane, UndoingSlot(c, f, nested))
    case UndoingSlot(c, f, nested) => (lane.(messages := lane.messages - 1), UndoingBytes(c, f, nested))
    case UndoingBytes(_, f, nested) => (lane.(bytes := lane.bytes - f.size), End(nested, Closed))
  }

  /** One atomic step of a sender. */
  function StepSender(s: Session, l: Limits, i: nat): Session
    requires i < |s.senders| && !s.senders[i].Returned? && !s.senders[i].Reporting?
  {
    var x := s.senders[i];
    if x.Checking? then
      MoveTo(s, i, if s.continuityLost && x.class_ == Data then Returned(ContinuityLost)
                   else Reserving(x.class_, x.frame, false))
    else if x.Overflowing? then MoveTo(s.(continuityLost := true), i, Reporting)
    else
      var (lane, x') := LaneStep(x, LaneOf(s, x.class_), l, s.connected);
      MoveTo(WithLane(s, x.class_, lane), i, x')
  }

  predicate Enabled(s: Session, a: Action) {
    match a
    case Offer(_, _) => true
    case Advance(i) => i < |s.senders| && !s.senders[i].Returned? && !s.senders[i].Reporting?
    case Report(i, _) => i < |s.senders| && s.senders[i].Reporting?
    case PopControl => s.receiver.Idle? && s.connected && s.control.queue != []
    case SeeNoControl => s.receiver.Idle? && s.connected && s.control.queue == []
    case PopData => s.receiver.SawNoControl? && s.data.queue != []
    case SeeNoData => s.receiver.SawNoControl? && s.data.queue == []
    case ReleaseSlot => s.receiver.Popped?
    case ReleaseBytes => s.receiver.SlotReleased?
    case Disconnect => s.receiver.Idle?
  }

  function Pop(s: Session, c: Class): Session
    requires LaneOf(s, c).queue != []
  {
    var lane := LaneOf(s, c);
    WithLane(s, c, lane.(queue := lane.queue[1..])).(receiver := Popped(c, lane.queue[0]))
  }

  function Next(s: Session, l: Limits, a: Action): Session
    requires Enabled(s, a)
  {
    match a
    case Offer(c, f) => s.(senders := s.senders + [Checking(c, f)])
    case Advance(i) => StepSender(s, l, i)
    case Report(i, error) =>
      // Encoding the error frame may fail, in which case nothing is sent.
      MoveTo(s, i, match error case Some(f) => Reserving(Control, f, true) case None => Returned(DataOverflow))
    case PopControl => Pop(s, Control)
    case SeeNoControl => s.(receiver := SawNoControl)
    case PopData => Pop(s, Data)
    case SeeNoData => s.(receiver := Idle)
    case ReleaseSlot =>
      var c := s.receiver.class_;
      var lane := LaneOf(s, c);
      WithLane(s, c, lane.(messages := lane.messages - 1)).(receiver := SlotReleased(c, s.receiver.frame))
    case ReleaseBytes =>
      var c := s.receiver.class_;
      var lane := LaneOf(s, c);
      WithLane(s, c, lane.(bytes := lane.bytes - s.receiver.frame.size)).(receiver := Idle)
    case Disconnect => s.(connected := false)
  }

  predicate Run(trace: seq<Session>, actions: seq<Action>, l: Limits) {
    |trace| == |actions| + 1 && trace[0] == FRESH &&
    forall i | 0 <= i < |actions| :: Enabled(trace[i], actions[i]) && trace[i + 1] == Next(trace[i], l, actions[i])
  }

  // ------------------------------------------------------------- accounting

  /** Message slots of class `c` a sender holds: reserved, not yet enqueued or given back. */
  function SlotsOf(x: Sender, c: Class): nat {
    match x
    case ReservingBytes(k, _, _) => if k == c then 1 else 0
    case Undoing(k, _, _) => if k == c then 1 else 0
    case Enqueueing(k, _, _) => if k == c then 1 else 0
    case UndoingSlot(k, _, _) => if k == c then 1 else 0
    case _ => 0
  }

  function BytesOf(x: Sender, c: Class): nat {
    match x
    case Enqueueing(k, f, _) => if k == c then f.size else 0
    case UndoingSlot(k, f, _) => if k == c then f.size else 0
    case UndoingBytes(k, f, _) => if k == c then f.size else 0
    case _ => 0
  }

  function HeldSlots(senders: seq<Sender>, c: Class): nat {
    if senders == [] then 0 else HeldSlots(senders[..|senders| - 1], c) + SlotsOf(senders[|senders| - 1], c)
  }

  function HeldBytes(senders: seq<Sender>, c: Class): nat {
    if senders == [] then 0 else HeldBytes(senders[..|senders| - 1], c) + BytesOf(senders[|senders| - 1], c)
  }

  function QueuedBytes(queue: seq<Frame>): nat {
    if queue == [] then 0 else QueuedBytes(queue[..|queue| - 1]) + queue[|queue| - 1].size
  }

  function UnreleasedSlots(r: Receiver, c: Class): nat {
    if r.Popped? && r.class_ == c then 1 else 0
  }

  function UnreleasedBytes(r: Receiver, c: Class): nat {
    if (r.Popped? || r.SlotReleased?) && r.class_ == c then r.frame.size else 0
  }

  /** Counters equal queued frames, open reservations and popped frames not yet released. */
  ghost predicate LaneInv(s: Session, l: Limits, c: Class) {
    var lane := LaneOf(s, c);
    && lane.messages == |lane.queue| + HeldSlots(s.senders, c) + UnreleasedSlots(s.receiver, c)
    && lane.bytes == QueuedBytes(lane.queue) + HeldBytes(s.senders, c) + UnreleasedBytes(s.receiver, c)
    && lane.messages <= MessageLimit(l, c)
    && lane.bytes <= ByteLimit(l, c)
  }

  lemma HeldAppend(senders: seq<Sender>, x: Sender, c: Class)
    ensures HeldSlots(senders + [x], c) == HeldSlots(senders, c) + SlotsOf(x, c)
    ensures HeldBytes(senders + [x], c) == HeldBytes(senders, c) + BytesOf(x, c)
  {
    assert (senders + [x])[..|senders|] == senders;
  }

  lemma {:induction false} HeldUpdate(senders: seq<Sender>, i: nat, x: Sender, c: Class)
    requires i < |senders|
    ensures HeldSlots(senders[i := x], c) == HeldSlots(senders, c) - SlotsOf(senders[i], c) + SlotsOf(x, c)
    ensures HeldBytes(senders[i := x], c) == HeldBytes(senders, c) - BytesOf(senders[i], c) + BytesOf(x, c)
  {
    var last := |senders| - 1;
    if i == last {
      assert senders[i := x][..last] == senders[..last];
    } else {
      assert senders[i := x][..last] == senders[..last][i := x];
      HeldUpdate(senders[..last], i, x, c);
    }
  }

  lemma {:induction false} HeldAtLeast(senders: seq<Sender>, i: nat, c: Class)
    requires i < |senders|
    ensures HeldSlots(senders, c) >= SlotsOf(senders[i], c) && HeldBytes(senders, c) >= BytesOf(senders[i], c)
  {
    if i < |senders| - 1 { HeldAtLeast(senders[..|senders| - 1], i, c); }
  }

  lemma QueuedAppend(queue: seq<Frame>, f: Frame)
    ensures QueuedBytes(queue + [f]) == QueuedBytes(queue) + f.size
  {
    assert (queue + [f])[..|queue|] == queue;
  }

  lemma {:induction false} QueuedPop(queue: seq<Frame>)
    requires queue != []
    ensures QueuedBytes(queue) == queue[0].size + QueuedBytes(queue[1..])
  {
    if |queue| > 1 {
      var last := |queue| - 1;
      QueuedPop(queue[..last]);
      assert queue[..last][1..] == queue[1..][..last - 1];
    }
  }

  /** A sender's step touches only that sender, one lane and the flag. */
  lemma StepShape(s: Session, l: Limits, i: nat)
    requires Enabled(s, Advance(i))
    ensures StepSender(s, l, i).senders == s.senders[i := StepSender(s, l, i).senders[i]]
    ensures StepSender(s, l, i).receiver == s.receiver
  {}

  /** What a step adds to a counter it adds to the queue or to what the sender holds. */
  lemma LaneBalance(x: Sender, lane: Lane, l: Limits, connected: bool)
    requires OnLane(x)
    ensures
      var (lane', x') := LaneStep(x, lane, l, connected);
      var c := x.class_;
      && lane'.messages - |lane'.queue| - SlotsOf(x', c) == lane.messages - |lane.queue| - SlotsOf(x, c)
      && lane'.bytes - QueuedBytes(lane'.queue) - BytesOf(x', c) == lane.bytes - QueuedBytes(lane.queue) - BytesOf(x, c)
      && (lane'.messages <= lane.messages || lane'.messages <= MessageLimit(l, c))
      && (lane'.bytes <= lane.bytes || lane'.bytes <= ByteLimit(l, c))
  {
    if x.Enqueueing? { QueuedAppend(lane.queue, x.frame); }
  }

  lemma OtherLane(x: Sender, lane: Lane, l: Limits, connected: bool, c: Class)
    requires OnLane(x) && x.class_ != c
    ensures SlotsOf(x, c) == SlotsOf(LaneStep(x, lane, l, connected).1, c) == 0
    ensures BytesOf(x, c) == BytesOf(LaneStep(x, lane, l, connected).1, c) == 0
  {}

  lemma AdvanceKeepsLane(s: Session, l: Limits, i: nat, c: Class)
    requires LaneInv(s, l, c) && Enabled(s, Advance(i))
    ensures LaneInv(StepSender(s, l, i), l, c)
  {
    if !OnLane(s.senders[i]) {
      OffLaneKeepsLane(s, l, i, c);
    } else if s.senders[i].class_ == c {
      OwnLaneKept(s, l, i, c);
    } else {
      OtherLaneKept(s, l, i, c);
    }
  }

  lemma OffLaneKeepsLane(s: Session, l: Limits, i: nat, c: Class)
    requires LaneInv(s, l, c) && Enabled(s, Advance(i)) && !OnLane(s.senders[i])
    ensures LaneInv(StepSender(s, l, i), l, c)
  {
    StepShape(s, l, i);
    HeldUpdate(s.senders, i, StepSender(s, l, i).senders[i], c);
  }

  lemma OwnLaneKept(s: Session, l: Limits, i: nat, c: Class)
    requires LaneInv(s, l, c) && Enabled(s, Advance(i)) && OnLane(s.senders[i]) && s.senders[i].class_ == c
    ensures LaneInv(StepSender(s, l, i), l, c)
  {
    StepShape(s, l, i);
    HeldUpdate(s.senders, i, StepSender(s, l, i).senders[i], c);
    LaneShape(s, l, i, c);
    LaneBalance(s.senders[i], LaneOf(s, c), l, s.connected);
  }

  lemma OtherLaneKept(s: Session, l: Limits, i: nat, c: Class)
    requires LaneInv(s, l, c) && Enabled(s, Advance(i)) && OnLane(s.senders[i]) && s.senders[i].class_ != c
    ensures LaneInv(StepSender(s, l, i), l, c)
  {
    StepShape(s, l, i);
    HeldUpdate(s.senders, i, StepSender(s, l, i).senders[i], c);
    LaneShape(s, l, i, c);
    OtherLane(s.senders[i], LaneOf(s, s.senders[i].class_), l, s.connected, c);
  }

  /** The lane and program point after a step on a lane. */
  lemma LaneShape(s: Session, l: Limits, i: nat, c: Class)
    requires Enabled(s, Advance(i)) && OnLane(s.senders[i])
    ensures
      var x, s' := s.senders[i], StepSender(s, l, i);
      var step := LaneStep(x, LaneOf(s, x.class_), l, s.connected);
      s'.senders[i] == step.1 && LaneOf(s', c) == if x.class_ == c then step.0 else LaneOf(s, c)
  {}

  lemma PopKeepsLane(s: Session, l: Limits, k: Class, c: Class)
    requires LaneInv(s, l, c) && LaneOf(s, k).queue != [] && (s.receiver.Idle? || s.receiver.SawNoControl?)
    ensures LaneInv(Pop(s, k), l, c)
  {
    if k == c { QueuedPop(LaneOf(s, c).queue); }
  }

  lemma ReleaseSlotKeepsLane(s: Session, l: Limits, c: Class)
    requires LaneInv(s, l, c) && Enabled(s, ReleaseSlot)
    ensures LaneInv(Next(s, l, ReleaseSlot), l, c)
  {}

  lemma ReleaseBytesKeepsLane(s: Session, l: Limits, c: Class)
    requires LaneInv(s, l, c) && Enabled(s, ReleaseBytes)
    ensures LaneInv(Next(s, l, ReleaseBytes), l, c)
  {}

  lemma StepKeepsLane(s: Session, l: Limits, a: Action, c: Class)
    requires LaneInv(s, l, c) && Enabled(s, a)
    ensures LaneInv(Next(s, l, a), l, c)
  {
    match a {
      case Offer(k, f) => HeldAppend(s.senders, Checking(k, f), c);
      case Advance(i) => AdvanceKeepsLane(s, l, i, c);
      case Report(i, error) => HeldUpdate(s.senders, i, Next(s, l, a).senders[i], c);
      case PopControl => PopKeepsLane(s, l, Control, c);
      case PopData => PopKeepsLane(s, l, Data, c);
      case ReleaseSlot => ReleaseSlotKeepsLane(s, l, c);
      case ReleaseBytes => ReleaseBytesKeepsLane(s, l, c);
      case _ =>
    }
  }

  lemma {:induction false} RunInvariant(trace: seq<Session>, actions: seq<Action>, l: Limits, t: nat, c: Class)
    requires Run(trace, actions, l) && t < |trace|
    ensures LaneInv(trace[t], l, c)
  {
    if t > 0 {
      RunInvariant(trace, actions, l, t - 1, c);
      StepKeepsLane(trace[t - 1], l, actions[t - 1], c);
    }
  }

  // ---------------------------------------------------------- main theorems

  /** In every interleaving: exact counters, never above the limit, never below zero. */
  lemma CountersAreExact(trace: seq<Session>, actions: seq<Action>, l: Limits, t: nat, c: Class)
    requires Run(trace, actions, l) && t < |trace|
    ensures
      var s, lane := trace[t], LaneOf(trace[t], c);
      && lane.messages == |lane.queue| + HeldSlots(s.senders, c) + UnreleasedSlots(s.receiver, c)
      && lane.bytes == QueuedBytes(lane.queue) + HeldBytes(s.senders, c) + UnreleasedBytes(s.receiver, c)
      && 0 <= lane.messages <= (if c == Control then l.controlMessages else l.dataMessages)
      && 0 <= lane.bytes <= (if c == Control then l.controlBytes else l.dataBytes)
  {
    RunInvariant(trace, actions, l, t, c);
  }

  /** A sender that reached the channel always finds room, so a refusal there means disconnected. */
  lemma ChannelIsNeverFull(trace: seq<Session>, actions: seq<Action>, l: Limits, t: nat, i: nat)
    requires Run(trace, actions, l) && t < |trace| && i < |trace[t].senders| && trace[t].senders[i].Enqueueing?
    ensures |LaneOf(trace[t], trace[t].senders[i].class_).queue| < Capacity(l, trace[t].senders[i].class_)
    ensures StepSender(trace[t], l, i).senders[i].UndoingSlot? <==> !trace[t].connected
  {
    var c := trace[t].senders[i].class_;
    RunInvariant(trace, actions, l, t, c);
    HeldAtLeast(trace[t].senders, i, c);
  }

  /** Once nothing is in flight the counters are back to the queue contents, zero if it is empty. */
  lemma QuietCounters(trace: seq<Session>, actions: seq<Action>, l: Limits, t: nat, c: Class)
    requires Run(trace, actions, l) && t < |trace|
    requires (forall i | 0 <= i < |trace[t].senders| :: trace[t].senders[i].Returned?) && trace[t].receiver.Idle?
    ensures LaneOf(trace[t], c).messages == |LaneOf(trace[t], c).queue|
    ensures LaneOf(trace[t], c).bytes == QueuedBytes(LaneOf(trace[t], c).queue)
  {
    RunInvariant(trace, actions, l, t, c);
    NothingHeld(trace[t].senders, c);
  }

  lemma {:induction false} NothingHeld(senders: seq<Sender>, c: Class)
    requires forall i | 0 <= i < |senders| :: senders[i].Returned?
    ensures HeldSlots(senders, c) == HeldBytes(senders, c) == 0
  {
    if senders != [] { NothingHeld(senders[..|senders| - 1], c); }
  }
}
