/**
 The outbound queue's operations as wholes: `try_send` and a receive, proved to be what their
 atomic steps do when nothing comes in between, and the object whose methods perform them.
 */
module Outbound {
  import opened Prelude
  import opened OutboundSteps

  /** What sends and receives act on. */
  datatype Queues = Queues(control: Lane, data: Lane, continuityLost: bool, connected: bool)

  /** Reserves, enqueues, or leaves the lane untouched; overflow is `ControlOverflow` or `DataOverflow`. */
  function Put(lane: Lane, l: Limits, c: Class, f: Frame, connected: bool): (Lane, SendResult) {
    if MessageLimit(l, c) == 0 || ByteLimit(l, c) < f.size || lane.messages >= MessageLimit(l, c) ||
       lane.bytes + f.size > ByteLimit(l, c)
    then (lane, if c == Data then DataOverflow else ControlOverflow)
    else if !connected || |lane.queue| >= Capacity(l, c) then (lane, Closed)
    else (Lane(lane.messages + 1, lane.bytes + f.size, lane.queue + [f]), Sent)
  }

  /** A whole `try_send`; `error` is the encoded error frame of the overflow path, if it encodes. */
  function TrySend(q: Queues, l: Limits, c: Class, f: Frame, error: Option<Frame>): (Queues, SendResult) {
    if c == Control then
      var (lane, result) := Put(q.control, l, Control, f, q.connected);
      (q.(control := lane), result)
    else if q.continuityLost then (q, ContinuityLost)
    else
      var (lane, result) := Put(q.data, l, Data, f, q.connected);
      if result == DataOverflow then (AfterLoss(q, l, error), DataOverflow)
      else (q.(data := lane), result)
  }

  /** Data overflow: raise the flag, then offer one error frame on the control lane. */
  function AfterLoss(q: Queues, l: Limits, error: Option<Frame>): Queues {
    var lost := q.(continuityLost := true);
    match error
    case Some(f) => lost.(control := Put(q.control, l, Control, f, q.connected).0)
    case None => lost
  }

  // ------------------------------------- the whole operation refines the steps

  function View(s: Session): Queues {
    Queues(s.control, s.data, s.continuityLost, s.connected)
  }

  /** Steps a sender still has ahead of it, at most. */
  function StepsLeft(x: Sender): nat {
    match x
    case Checking(_, _) => 30
    case Reserving(c, _, _) => if c == Data then 29 else 10
    case ReservingBytes(c, _, _) => if c == Data then 28 else 9
    case Undoing(c, _, _) => if c == Data then 27 else 8
    case Enqueueing(c, _, _) => if c == Data then 27 else 8
    case UndoingSlot(c, _, _) => if c == Data then 26 else 7
    case UndoingBytes(c, _, _) => if c == Data then 25 else 6
    case Overflowing => 20
    case Reporting => 15
    case Returned(_) => 0
  }

  /** Sender `i` runs to completion with no other step in between. */
  function RunToEnd(s: Session, l: Limits, i: nat, error: Option<Frame>): (r: Session)
    requires i < |s.senders|
    ensures |r.senders| == |s.senders| && r.senders[i].Returned?
    decreases StepsLeft(s.senders[i])
  {
    if s.senders[i].Returned? then s
    else if s.senders[i].Reporting? then RunToEnd(Next(s, l, Report(i, error)), l, i, error)
    else RunToEnd(StepSender(s, l, i), l, i, error)
  }

  /** The session with sender `i` at a program point and its lane as given. */
  function At(s: Session, c: Class, lane: Lane, i: nat, x: Sender): Session
    requires i < |s.senders|
  {
    MoveTo(WithLane(s, c, lane), i, x)
  }

  /** One step on the lane moves both. */
  lemma RunStep(s: Session, l: Limits, c: Class, lane: Lane, i: nat, x: Sender, error: Option<Frame>)
    requires i < |s.senders| && OnLane(x) && x.class_ == c
    ensures
      var step := LaneStep(x, lane, l, s.connected);
      RunToEnd(At(s, c, lane, i, x), l, i, error) == RunToEnd(At(s, c, step.0, i, step.1), l, i, error)
  {
    var here := At(s, c, lane, i, x);
    assert here.senders[i] == x && LaneOf(here, c) == lane;
    var step := LaneStep(x, lane, l, s.connected);
    assert StepSender(here, l, i) == At(s, c, step.0, i, step.1);
  }

  lemma RunEnds(
    s: Session, l: Limits, c: Class, lane: Lane, i: nat, nested: bool, result: SendResult, error: Option<Frame>)
    requires i < |s.senders|
    ensures RunToEnd(At(s, c, lane, i, End(nested, result)), l, i, error) == At(s, c, lane, i, End(nested, result))
  {}

  /** `run` cannot tell a program point on a lane from the next one. */
  ghost predicate FollowsSteps<R(!new)>(run: (Lane, Sender) -> R, l: Limits, c: Class, connected: bool) {
    forall lane: Lane, x: Sender | OnLane(x) && x.class_ == c ::
      run(lane, x) == run(LaneStep(x, lane, l, connected).0, LaneStep(x, lane, l, connected).1)
  }

  /** Holding both reservations, a sender enqueues or gives both back. */
  lemma EnqueueRun<R(!new)>(
    run: (Lane, Sender) -> R, l: Limits, c: Class, lane: Lane, f: Frame, nested: bool, connected: bool)
    requires FollowsSteps(run, l, c, connected)
    ensures run(lane, Enqueueing(c, f, nested)) ==
            if connected && |lane.queue| < Capacity(l, c) then run(lane.(queue := lane.queue + [f]), End(nested, Sent))
            else run(Lane(lane.messages - 1, lane.bytes - f.size, lane.queue), End(nested, Closed))
  {
    Follow(run, l, c, connected, lane, Enqueueing(c, f, nested));
    Follow(run, l, c, connected, lane, UndoingSlot(c, f, nested));
    Follow(run, l, c, connected, lane.(messages := lane.messages - 1), UndoingBytes(c, f, nested));
  }

  lemma Follow<R(!new)>(run: (Lane, Sender) -> R, l: Limits, c: Class, connected: bool, lane: Lane, x: Sender)
    requires FollowsSteps(run, l, c, connected) && OnLane(x) && x.class_ == c
    ensures run(lane, x) == run(LaneStep(x, lane, l, connected).0, LaneStep(x, lane, l, connected).1)
  {}

  /** From its reservation on, a sender's steps amount to one `Put`. */
  lemma PutSteps<R(!new)>(
    run: (Lane, Sender) -> R, l: Limits, c: Class, lane: Lane, f: Frame, nested: bool, connected: bool)
    requires FollowsSteps(run, l, c, connected)
    ensures
      var put := Put(lane, l, c, f, connected);
      run(lane, Reserving(c, f, nested)) ==
      if put.1 == DataOverflow || put.1 == ControlOverflow then run(lane, Overflow(c, nested))
      else run(put.0, End(nested, put.1))
  {
    Follow(run, l, c, connected, lane, Reserving(c, f, nested));
    if !(MessageLimit(l, c) == 0 || ByteLimit(l, c) < f.size || lane.messages >= MessageLimit(l, c)) {
      var slot := lane.(messages := lane.messages + 1);
      Follow(run, l, c, connected, slot, ReservingBytes(c, f, nested));
      Follow(run, l, c, connected, slot, Undoing(c, f, nested));
      EnqueueRun(run, l, c, slot.(bytes := slot.bytes + f.size), f, nested, connected);
    }
  }

  /** Run to the end from there, a sender performs one `Put`. */
  lemma PutRun(s: Session, l: Limits, c: Class, lane: Lane, i: nat, f: Frame, nested: bool, error: Option<Frame>)
    requires i < |s.senders|
    ensures
      var put := Put(lane, l, c, f, s.connected);
      RunToEnd(At(s, c, lane, i, Reserving(c, f, nested)), l, i, error) ==
      if put.1 == DataOverflow || put.1 == ControlOverflow
      then RunToEnd(At(s, c, lane, i, Overflow(c, nested)), l, i, error)
      else RunToEnd(At(s, c, put.0, i, End(nested, put.1)), l, i, error)
  {
    var run := (lane: Lane, x: Sender) => RunToEnd(At(s, c, lane, i, x), l, i, error);
    forall lane: Lane, x: Sender | OnLane(x) && x.class_ == c
      ensures run(lane, x) == run(LaneStep(x, lane, l, s.connected).0, LaneStep(x, lane, l, s.connected).1)
    {
      RunStep(s, l, c, lane, i, x, error);
    }
    PutSteps(run, l, c, lane, f, nested, s.connected);
  }

  /** The same for a session as it stands. */
  lemma LaneRun(s: Session, l: Limits, i: nat, error: Option<Frame>)
    requires i < |s.senders| && s.senders[i].Reserving?
    ensures
      var x := s.senders[i];
      var put := Put(LaneOf(s, x.class_), l, x.class_, x.frame, s.connected);
      && (put.1 == DataOverflow ==> RunToEnd(s, l, i, error) == RunToEnd(MoveTo(s, i, Overflowing), l, i, error))
      && (put.1 != DataOverflow ==>
            RunToEnd(s, l, i, error) == MoveTo(WithLane(s, x.class_, put.0), i, End(x.nested, put.1)))
  {
    var Reserving(c, f, nested) := s.senders[i];
    var lane := LaneOf(s, c);
    assert WithLane(s, c, lane) == s;
    assert At(s, c, lane, i, s.senders[i]) == s;
    var put := Put(lane, l, c, f, s.connected);
    PutRun(s, l, c, lane, i, f, nested, error);
    RunEnds(s, l, c, lane, i, nested, ControlOverflow, error);
    RunEnds(s, l, c, put.0, i, nested, put.1, error);
  }

  /** The overflow path raises the flag and performs the nested send. */
  lemma OverflowRun(s: Session, l: Limits, i: nat, error: Option<Frame>)
    requires i < |s.senders| && s.senders[i].Overflowing?
    ensures View(RunToEnd(s, l, i, error)) == AfterLoss(View(s), l, error)
    ensures RunToEnd(s, l, i, error).senders[i] == Returned(DataOverflow)
  {
    var s1 := StepSender(s, l, i);
    var s2 := Next(s1, l, Report(i, error));
    assert RunToEnd(s, l, i, error) == RunToEnd(s1, l, i, error) == RunToEnd(s2, l, i, error);
    if error.Some? { LaneRun(s2, l, i, error); }
  }

  /**
   A send that is not interrupted by other senders or the receiver does exactly what `TrySend`
   says, with its result; the overflow path's nested send is included.
   */
  lemma UninterruptedSend(s: Session, l: Limits, i: nat, error: Option<Frame>)
    requires i < |s.senders| && s.senders[i].Checking?
    ensures
      var x := s.senders[i];
      var (q, result) := TrySend(View(s), l, x.class_, x.frame, error);
      && View(RunToEnd(s, l, i, error)) == q
      && RunToEnd(s, l, i, error).senders[i] == Returned(result)
  {
    var Checking(c, f) := s.senders[i];
    if !(s.continuityLost && c == Data) {
      var s1 := StepSender(s, l, i);
      LaneRun(s1, l, i, error);
      if Put(LaneOf(s, c), l, c, f, s.connected).1 == DataOverflow {
        OverflowRun(MoveTo(s1, i, Overflowing), l, i, error);
      }
    }
  }

  /** Takes the next frame, control before data, and releases its counters. */
  function Take(q: Queues): (Queues, Option<(Class, Frame)>) {
    if q.control.queue != [] then (q.(control := Released(q.control)), Some((Control, q.control.queue[0])))
    else if q.data.queue != [] then (q.(data := Released(q.data)), Some((Data, q.data.queue[0])))
    else (q, None)
  }

  function Released(lane: Lane): Lane
    requires lane.queue != []
  {
    Lane(lane.messages - 1, lane.bytes - lane.queue[0].size, lane.queue[1..])
  }

  /** The receiver's first step or steps: it has popped the next frame, or found nothing. */
  function PopNext(s: Session, l: Limits): Session
    requires s.receiver.Idle? && s.connected
  {
    if s.control.queue != [] then Next(s, l, PopControl)
    else
      var s1 := Next(s, l, SeeNoControl);
      if s1.data.queue != [] then Next(s1, l, PopData) else Next(s1, l, SeeNoData)
  }

  /** The receiver's steps from idle to idle with no other step in between. */
  function ReceiveToEnd(s: Session, l: Limits): Session
    requires s.receiver.Idle? && s.connected
  {
    var popped := PopNext(s, l);
    if popped.receiver.Popped? then Next(Next(popped, l, ReleaseSlot), l, ReleaseBytes) else popped
  }

  /** The frame the receiver has in hand. */
  function InHand(r: Receiver): Option<(Class, Frame)> {
    if r.Popped? then Some((r.class_, r.frame)) else None
  }

  /** A receive that is not interrupted does exactly what `Take` says, and returns the frame it popped. */
  lemma UninterruptedReceive(s: Session, l: Limits)
    requires s.receiver.Idle? && s.connected
    ensures Take(View(s)) == (View(ReceiveToEnd(s, l)), InHand(PopNext(s, l).receiver))
    ensures ReceiveToEnd(s, l).receiver.Idle? && ReceiveToEnd(s, l).senders == s.senders
  {}

  // ------------------------------------------------------------------- the order

  function Tagged(c: Class, frames: seq<Frame>): seq<(Class, Frame)> {
    seq(|frames|, i requires 0 <= i < |frames| => (c, frames[i]))
  }

  /** The results of `n` receives in a row, and the queues after them. */
  function TakeAll(q: Queues, n: nat): (Queues, seq<Option<(Class, Frame)>>)
    decreases n
  {
    if n == 0 then (q, [])
    else
      var (rest, first) := Take(q);
      var (q', others) := TakeAll(rest, n - 1);
      (q', [first] + others)
  }

  /** The results of sending frames of one class in a row, and the queues after them. */
  function SendAll(q: Queues, l: Limits, c: Class, frames: seq<Frame>): (Queues, seq<SendResult>) {
    if frames == [] then (q, [])
    else
      var n := |frames| - 1;
      var (before, results) := SendAll(q, l, c, frames[..n]);
      var (after, result) := TrySend(before, l, c, frames[n], None);
      (after, results + [result])
  }

  /**
   Receives return all queued control frames, then all queued data frames, each lane first in
   first out, and then nothing.
   */
  lemma {:induction false} ReceivesInOrder(q: Queues, n: nat)
    ensures
      var waiting := Tagged(Control, q.control.queue) + Tagged(Data, q.data.queue);
      && |TakeAll(q, n).1| == n
      && forall i | 0 <= i < n :: TakeAll(q, n).1[i] == if i < |waiting| then Some(waiting[i]) else None
    decreases n
  {
    if n > 0 {
      var waiting := Tagged(Control, q.control.queue) + Tagged(Data, q.data.queue);
      var rest := Take(q).0;
      ReceivesInOrder(rest, n - 1);
      var later := Tagged(Control, rest.control.queue) + Tagged(Data, rest.data.queue);
      assert later == if waiting == [] then [] else waiting[1..];
    }
  }

  predicate AllFit(l: Limits, c: Class, frames: seq<Frame>) {
    match c
    case Control => |frames| <= l.controlMessages && QueuedBytes(frames) <= l.controlBytes
    case Data => |frames| <= l.dataMessages && QueuedBytes(frames) <= l.dataBytes
  }

  /** Connected, with both lanes empty and continuity kept. */
  predicate Empty(q: Queues) {
    q == Queues(Lane(0, 0, []), Lane(0, 0, []), false, true)
  }

  lemma {:induction false} SentInOrder(q: Queues, l: Limits, c: Class, frames: seq<Frame>)
    requires Empty(q) && AllFit(l, c, frames)
    ensures
      var lane := Lane(|frames|, QueuedBytes(frames), frames);
      SendAll(q, l, c, frames).0 == if c == Control then q.(control := lane) else q.(data := lane)
    ensures |SendAll(q, l, c, frames).1| == |frames|
    ensures forall i | 0 <= i < |frames| :: SendAll(q, l, c, frames).1[i] == Sent
  {
    if frames != [] {
      var n := |frames| - 1;
      SentInOrder(q, l, c, frames[..n]);
      assert frames == frames[..n] + [frames[n]];
    }
  }

  /**
   First in, first out, end to end: frames that fit the limits of their class are all accepted by
   an empty session, and as many receives return exactly them, in the order they were sent.
   */
  lemma FirstInFirstOut(q: Queues, l: Limits, c: Class, frames: seq<Frame>)
    requires Empty(q) && AllFit(l, c, frames)
    ensures
      var (sent, results) := SendAll(q, l, c, frames);
      && (forall i | 0 <= i < |frames| :: i < |results| && results[i] == Sent)
      && |TakeAll(sent, |frames|).1| == |frames|
      && forall i | 0 <= i < |frames| :: TakeAll(sent, |frames|).1[i] == Some((c, frames[i]))
  {
    SentInOrder(q, l, c, frames);
    ReceivesInOrder(SendAll(q, l, c, frames).0, |frames|);
  }

  /**
   What a send answers, and what it leaves alone. A control frame is refused exactly when it
   exceeds what is left of the control limits, and then changes nothing. A data frame is
   refused exactly after a loss, or when it exceeds what is left of the data limits: that is
   the loss. Only a loss raises the flag, and only the error frame it offers touches control.
   */
  lemma SendOutcome(q: Queues, l: Limits, c: Class, f: Frame, error: Option<Frame>)
    requires q.control.messages >= 0 && q.control.bytes >= 0 && q.data.messages >= 0 && q.data.bytes >= 0
    ensures
      var (q', result) := TrySend(q, l, c, f, error);
      && q'.continuityLost == (q.continuityLost || result == DataOverflow) && q'.connected == q.connected
      && match c {
        case Control =>
          && (result == ControlOverflow <==>
                q.control.messages >= l.controlMessages || q.control.bytes + f.size > l.controlBytes)
          && result != DataOverflow && result != ContinuityLost && q'.data == q.data
          && (result == ControlOverflow ==> q'.control == q.control)
        case Data =>
          && (result == ContinuityLost <==> q.continuityLost)
          && (result == DataOverflow <==>
                !q.continuityLost && (q.data.messages >= l.dataMessages || q.data.bytes + f.size > l.dataBytes))
          && result != ControlOverflow && (result != Sent ==> q'.data == q.data)
          && (result == DataOverflow && error.Some? ==>
                q'.control == TrySend(q, l, Control, error.value, None).0.control)
          && (result != DataOverflow || error.None? ==> q'.control == q.control)
      }
  {}

  // -------------------------------------------------------------- the object

  /** The counters with one more frame reserved. */
  function Reserved(lane: Lane, f: Frame): Lane {
    lane.(messages := lane.messages + 1, bytes := lane.bytes + f.size)
  }

  /** One session's outbound side: counters, channels and the sticky flag. */
  class AblyOutbound {
    const limits: Limits
    var control: Lane
    var data: Lane
    var continuityLost: bool
    var connected: bool

    constructor (limits: Limits)
      ensures this.limits == limits && Contents() == Queues(Lane(0, 0, []), Lane(0, 0, []), false, true)
    {
      this.limits := limits;
      control, data := Lane(0, 0, []), Lane(0, 0, []);
      continuityLost, connected := false, true;
    }

    function Contents(): Queues
      reads this
    {
      Queues(control, data, continuityLost, connected)
    }

    method Reserve(c: Class, f: Frame) returns (ok: bool)
      modifies this
      ensures
        var lane := old(if c == Control then control else data);
        && (ok <==> lane.messages < MessageLimit(limits, c) && lane.bytes + f.size <= ByteLimit(limits, c))
        && Contents() == if !ok then old(Contents())
                         else if c == Control then old(Contents()).(control := Reserved(lane, f))
                         else old(Contents()).(data := Reserved(lane, f))
    {
      var lane := if c == Control then control else data;
      ok := lane.messages < MessageLimit(limits, c);
      if ok {
        lane := lane.(messages := lane.messages + 1);
        if lane.bytes + f.size <= ByteLimit(limits, c) {
          lane := lane.(bytes := lane.bytes + f.size);
        } else {
          lane := lane.(messages := lane.messages - 1);
          ok := false;
        }
        if c == Control { control := lane; } else { data := lane; }
      }
    }

    method Send(c: Class, f: Frame, error: Option<Frame>) returns (result: SendResult)
      modifies this
      ensures (Contents(), result) == TrySend(old(Contents()), limits, c, f, error)
      decreases if c == Data then 1 else 0, 1
    {
      if continuityLost && c == Data {
        return ContinuityLost;
      }
      if MessageLimit(limits, c) == 0 || ByteLimit(limits, c) < f.size {
        result := HandleOverflow(c, error);
        return;
      }
      var ok := Reserve(c, f);
      if !ok {
        result := HandleOverflow(c, error);
        return;
      }
      var lane := if c == Control then control else data;
      if connected && |lane.queue| < Capacity(limits, c) {
        lane := lane.(queue := lane.queue + [f]);
        result := Sent;
      } else {
        lane := lane.(messages := lane.messages - 1, bytes := lane.bytes - f.size);
        result := Closed;
      }
      if c == Control { control := lane; } else { data := lane; }
    }

    /** Data overflow raises the flag and sends one error frame; control overflow just fails. */
    method HandleOverflow(c: Class, error: Option<Frame>) returns (result: SendResult)
      modifies this
      ensures c == Control ==> result == ControlOverflow && Contents() == old(Contents())
      ensures c == Data ==> result == DataOverflow && Contents() == AfterLoss(old(Contents()), limits, error)
      decreases if c == Data then 1 else 0, 0
    {
      if c == Control {
        return ControlOverflow;
      }
      continuityLost := true;
      if error.Some? {
        var _ := Send(Control, error.value, None);
      }
      result := DataOverflow;
    }

    method TryReceive() returns (r: Option<(Class, Frame)>)
      modifies this
      ensures (Contents(), r) == Take(old(Contents()))
    {
      if control.queue != [] {
        r := Some((Control, control.queue[0]));
        control := Lane(control.messages - 1, control.bytes - control.queue[0].size, control.queue[1..]);
      } else if data.queue != [] {
        r := Some((Data, data.queue[0]));
        data := Lane(data.messages - 1, data.bytes - data.queue[0].size, data.queue[1..]);
      } else {
        r := None;
      }
    }
  }
}
