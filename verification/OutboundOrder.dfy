/**
 What the receiver gets, compared with what was offered, over every interleaving of the
 outbound queue's atomic steps: when order is kept, when it is lost, and by how much.
 */
module OutboundOrder {
  import opened Prelude
  import opened OutboundSteps

  datatype Offered = Offered(class_: Class, frame: Frame)

  /**
   What happened so far: every call in the order it was made, the data calls whose frame
   entered the channel in the order they did, the data frames popped, and how often the
   overflow path ran.
   */
  datatype History = History(offers: seq<Offered>, entered: seq<nat>, delivered: seq<Frame>, losses: nat)

  const NOTHING := History([], [], [], 0)

  /** The step puts sender `a.i`'s frame into the data channel. */
  predicate Enqueues(s: Session, l: Limits, a: Action) {
    && a.Advance? && a.i < |s.senders| && s.senders[a.i].Enqueueing? && s.senders[a.i].class_ == Data
    && s.connected && |s.data.queue| < Capacity(l, Data)
  }

  /** The step runs the overflow path: it raises the flag. */
  predicate Loses(s: Session, a: Action) {
    a.Advance? && a.i < |s.senders| && s.senders[a.i].Overflowing?
  }

  function Record(h: History, s: Session, l: Limits, a: Action): History {
    match a
    case Offer(c, f) => h.(offers := h.offers + [Offered(c, f)])
    case Advance(i) =>
      if Enqueues(s, l, a) then h.(entered := h.entered + [i])
      else if Loses(s, a) then h.(losses := h.losses + 1)
      else h
    case PopData => if s.data.queue == [] then h else h.(delivered := h.delivered + [s.data.queue[0]])
    case _ => h
  }

  function HistoryAt(trace: seq<Session>, actions: seq<Action>, l: Limits, t: nat): History
    requires t <= |actions| < |trace|
  {
    if t == 0 then NOTHING else Record(HistoryAt(trace, actions, l, t - 1), trace[t - 1], l, actions[t - 1])
  }

  // ------------------------------------------------------- what history records

  /** Where a call can be, given what it offered; only a data call sends the nested error frame. */
  predicate Tracks(x: Sender, o: Offered) {
    match x
    case Checking(c, f) => o == Offered(c, f)
    case Overflowing => o.class_ == Data
    case Reporting => o.class_ == Data
    case Returned(_) => true
    case _ => if x.nested then x.class_ == Control && o.class_ == Data else o == Offered(x.class_, x.frame)
  }

  predicate SentData(s: Session, h: History, i: nat)
    requires i < |s.senders| && i < |h.offers|
  {
    h.offers[i].class_ == Data && s.senders[i] == Returned(Sent)
  }

  function Frames(offers: seq<Offered>, calls: seq<nat>): seq<Frame>
    requires forall k | 0 <= k < |calls| :: calls[k] < |offers|
  {
    seq(|calls|, k requires 0 <= k < |calls| => offers[calls[k]].frame)
  }

  ghost predicate HistoryInv(s: Session, h: History) {
    && |h.offers| == |s.senders|
    && (forall i | 0 <= i < |s.senders| :: Tracks(s.senders[i], h.offers[i]))
    && (forall k | 0 <= k < |h.entered| :: h.entered[k] < |h.offers|)
    && h.delivered + s.data.queue == Frames(h.offers, h.entered)
    && (forall i | 0 <= i < |s.senders| :: i in h.entered <==> SentData(s, h, i))
    && NoDuplicates(h.entered)
  }

  lemma OfferKeepsHistory(s: Session, h: History, l: Limits, c: Class, f: Frame)
    requires HistoryInv(s, h)
    ensures HistoryInv(Next(s, l, Offer(c, f)), Record(h, s, l, Offer(c, f)))
  {
    var h' := Record(h, s, l, Offer(c, f));
    assert Frames(h'.offers, h'.entered) == Frames(h.offers, h.entered);
  }

  /** A sender's step, seen from its own program point. */
  lemma StepTracks(s: Session, l: Limits, i: nat, o: Offered)
    requires Enabled(s, Advance(i)) && Tracks(s.senders[i], o)
    ensures Tracks(StepSender(s, l, i).senders[i], o)
    ensures o.class_ == Data && StepSender(s, l, i).senders[i] == Returned(Sent) <==> Enqueues(s, l, Advance(i))
    ensures StepSender(s, l, i).data.queue ==
            if Enqueues(s, l, Advance(i)) then s.data.queue + [o.frame] else s.data.queue
  {}

  lemma AdvanceKeepsHistory(s: Session, h: History, l: Limits, i: nat)
    requires HistoryInv(s, h) && Enabled(s, Advance(i))
    ensures HistoryInv(Next(s, l, Advance(i)), Record(h, s, l, Advance(i)))
  {
    var a := Advance(i);
    var s', h' := Next(s, l, a), Record(h, s, l, a);
    StepShape(s, l, i);
    StepTracks(s, l, i, h.offers[i]);
    assert i !in h.entered;
    if Enqueues(s, l, a) {
      assert Frames(h'.offers, h'.entered) == Frames(h.offers, h.entered) + [h.offers[i].frame];
      assert h'.delivered + s'.data.queue == h.delivered + s.data.queue + [h.offers[i].frame];
    }
  }

  lemma ReportKeepsHistory(s: Session, h: History, l: Limits, i: nat, error: Option<Frame>)
    requires HistoryInv(s, h) && Enabled(s, Report(i, error))
    ensures HistoryInv(Next(s, l, Report(i, error)), Record(h, s, l, Report(i, error)))
  {
    assert i !in h.entered;
  }

  lemma PopKeepsHistory(s: Session, h: History, l: Limits)
    requires HistoryInv(s, h) && Enabled(s, PopData)
    ensures HistoryInv(Next(s, l, PopData), Record(h, s, l, PopData))
  {
    var s', h' := Next(s, l, PopData), Record(h, s, l, PopData);
    assert s.data.queue == [s.data.queue[0]] + s.data.queue[1..];
    assert h'.delivered + s'.data.queue == h.delivered + s.data.queue;
  }

  lemma StepKeepsHistory(s: Session, h: History, l: Limits, a: Action)
    requires HistoryInv(s, h) && Enabled(s, a)
    ensures HistoryInv(Next(s, l, a), Record(h, s, l, a))
  {
    match a {
      case Offer(c, f) => OfferKeepsHistory(s, h, l, c, f);
      case Advance(i) => AdvanceKeepsHistory(s, h, l, i);
      case Report(i, error) => ReportKeepsHistory(s, h, l, i, error);
      case PopData => PopKeepsHistory(s, h, l);
      case _ =>
    }
  }

  /** In every state of every interleaving, delivered and queued data are the frames of `entered`. */
  lemma {:induction false} HistoryHolds(trace: seq<Session>, actions: seq<Action>, l: Limits, t: nat)
    requires Run(trace, actions, l) && t < |trace|
    ensures HistoryInv(trace[t], HistoryAt(trace, actions, l, t))
  {
    if t > 0 {
      HistoryHolds(trace, actions, l, t - 1);
      StepKeepsHistory(trace[t - 1], HistoryAt(trace, actions, l, t - 1), l, actions[t - 1]);
    }
  }

  // ------------------------------------------------------------ order, exactly

  /** The data calls in the order they were made. */
  function DataCalls(offers: seq<Offered>): seq<nat> {
    if offers == [] then [] else
      DataCalls(offers[..|offers| - 1]) + if offers[|offers| - 1].class_ == Data then [|offers| - 1] else []
  }

  lemma {:induction false} DataCallsAre(offers: seq<Offered>)
    ensures forall k | 0 <= k < |DataCalls(offers)| ::
              DataCalls(offers)[k] < |offers| && offers[DataCalls(offers)[k]].class_ == Data
    ensures forall i | 0 <= i < |offers| && offers[i].class_ == Data :: i in DataCalls(offers)
    ensures forall j, k | 0 <= j < k < |DataCalls(offers)| :: DataCalls(offers)[j] < DataCalls(offers)[k]
  {
    if offers != [] { DataCallsAre(offers[..|offers| - 1]); }
  }

  /** The data calls that got through are an initial segment of those made, in order. */
  predicate InOrder(h: History) {
    h.entered <= DataCalls(h.offers)
  }

  /** The data frames offered, in order. */
  function OfferedData(offers: seq<Offered>): seq<Frame> {
    DataCallsAre(offers);
    Frames(offers, DataCalls(offers))
  }

  /** What the receiver has or will get is then a prefix of what was offered. */
  lemma InOrderIsPrefix(s: Session, h: History)
    requires HistoryInv(s, h) && InOrder(h)
    ensures h.delivered + s.data.queue <= OfferedData(h.offers)
  {
    DataCallsAre(h.offers);
  }

  /** Every data call made before call `i` has returned Ok. */
  predicate EarlierSent(s: Session, offers: seq<Offered>, i: nat)
    requires |offers| == |s.senders|
  {
    forall j | 0 <= j < i && j < |offers| && offers[j].class_ == Data :: s.senders[j] == Returned(Sent)
  }

  /** The next data call in line, if all earlier ones are in, is the one to let in. */
  lemma NextInLine(s: Session, h: History, i: nat, k: nat)
    requires HistoryInv(s, h) && InOrder(h) && EarlierSent(s, h.offers, i)
    requires k < |DataCalls(h.offers)| && DataCalls(h.offers)[k] == i && |h.entered| <= k
    ensures |h.entered| == k
  {
    var calls, n := DataCalls(h.offers), |h.entered|;
    DataCallsAre(h.offers);
    assert forall m | 0 <= m < n :: h.entered[m] == calls[m] < calls[n];
    assert calls[n] !in h.entered;
    assert !SentData(s, h, calls[n]);
  }

  lemma LineBefore(s: Session, h: History, i: nat)
    requires HistoryInv(s, h) && InOrder(h) && i < |h.offers|
    requires |h.entered| < |DataCalls(h.offers)| && DataCalls(h.offers)[|h.entered|] == i
    ensures EarlierSent(s, h.offers, i)
  {
    var calls := DataCalls(h.offers);
    DataCallsAre(h.offers);
    forall j | 0 <= j < i && h.offers[j].class_ == Data ensures s.senders[j] == Returned(Sent) {
      var m :| 0 <= m < |calls| && calls[m] == j;
      assert m < |h.entered| && h.entered[m] == j;
      assert SentData(s, h, j);
    }
  }

  /** Letting call `i` in keeps the order exactly if all earlier data calls are in. */
  lemma EnterInOrder(s: Session, h: History, i: nat)
    requires HistoryInv(s, h) && InOrder(h) && i < |h.offers| && h.offers[i].class_ == Data && i !in h.entered
    ensures h.entered + [i] <= DataCalls(h.offers) <==> EarlierSent(s, h.offers, i)
  {
    var calls, n := DataCalls(h.offers), |h.entered|;
    DataCallsAre(h.offers);
    var k :| 0 <= k < |calls| && calls[k] == i;
    assert forall m | 0 <= m < n :: calls[m] == h.entered[m];
    assert k >= n;
    if EarlierSent(s, h.offers, i) { NextInLine(s, h, i, k); }
    if h.entered + [i] <= calls {
      assert (h.entered + [i])[n] == calls[n];
      LineBefore(s, h, i);
    }
  }

  lemma PrefixSnoc<T>(e: seq<T>, d: seq<T>, x: T)
    requires x !in e
    ensures e <= d + [x] <==> e <= d
  {
    assert (d + [x])[|d|] == x;
  }

  lemma OfferKeepsOrder(s: Session, h: History, o: Offered)
    requires HistoryInv(s, h)
    ensures h.entered <= DataCalls(h.offers + [o]) <==> InOrder(h)
  {
    assert (h.offers + [o])[..|h.offers|] == h.offers;
    PrefixSnoc(h.entered, DataCalls(h.offers), |h.offers|);
    assert DataCalls(h.offers) + [] == DataCalls(h.offers);
  }

  /** The enqueue at step `k`, if there is one, found every earlier data call returned Ok. */
  predicate EntersInTurn(trace: seq<Session>, actions: seq<Action>, l: Limits, k: nat)
    requires k < |actions| < |trace|
  {
    var offers := HistoryAt(trace, actions, l, k).offers;
    |offers| == |trace[k].senders| &&
    (Enqueues(trace[k], l, actions[k]) ==> EarlierSent(trace[k], offers, actions[k].i))
  }

  ghost predicate AllInTurn(trace: seq<Session>, actions: seq<Action>, l: Limits, t: nat)
    requires Run(trace, actions, l) && t < |trace|
  {
    forall k | 0 <= k < t :: EntersInTurn(trace, actions, l, k)
  }

  lemma OrderStep(s: Session, h: History, l: Limits, a: Action)
    requires HistoryInv(s, h) && Enabled(s, a)
    ensures InOrder(Record(h, s, l, a)) <==> InOrder(h) && (Enqueues(s, l, a) ==> EarlierSent(s, h.offers, a.i))
  {
    if a.Offer? {
      OfferKeepsOrder(s, h, Offered(a.class_, a.frame));
    } else if Enqueues(s, l, a) {
      StepTracks(s, l, a.i, h.offers[a.i]);
      assert h.entered <= h.entered + [a.i];
      if InOrder(h) { EnterInOrder(s, h, a.i); }
    }
  }

  /**
   Exactly when order is kept, over every interleaving: if and only if each data frame entered
   the channel after every data call made before its own had returned Ok. Order once lost
   stays lost.
   */
  lemma {:induction false} InOrderIff(trace: seq<Session>, actions: seq<Action>, l: Limits, t: nat)
    requires Run(trace, actions, l) && t < |trace|
    ensures InOrder(HistoryAt(trace, actions, l, t)) <==> AllInTurn(trace, actions, l, t)
  {
    if t > 0 {
      InOrderIff(trace, actions, l, t - 1);
      HistoryHolds(trace, actions, l, t - 1);
      OrderStep(trace[t - 1], HistoryAt(trace, actions, l, t - 1), l, actions[t - 1]);
      assert AllInTurn(trace, actions, l, t) <==>
               AllInTurn(trace, actions, l, t - 1) && EntersInTurn(trace, actions, l, t - 1);
    }
  }

  // ------------------------------------- data calls that do not overlap one another

  /** The step takes data call `i` past the flag check. */
  predicate Checks(s: Session, a: Action) {
    a.Advance? && a.i < |s.senders| && s.senders[a.i].Checking? && s.senders[a.i].class_ == Data
  }

  predicate EarlierReturned(s: Session, offers: seq<Offered>, i: nat)
    requires |offers| == |s.senders|
  {
    forall j | 0 <= j < i && j < |offers| && offers[j].class_ == Data :: s.senders[j].Returned?
  }

  /** The flag is checked only once all data calls made before have returned. */
  predicate ChecksInTurn(s: Session, offers: seq<Offered>, a: Action)
    requires |offers| == |s.senders|
  {
    Checks(s, a) ==> EarlierReturned(s, offers, a.i)
  }

  predicate SerialAt(trace: seq<Session>, actions: seq<Action>, l: Limits, k: nat)
    requires k < |actions| < |trace|
  {
    var offers := HistoryAt(trace, actions, l, k).offers;
    |offers| == |trace[k].senders| && ChecksInTurn(trace[k], offers, actions[k])
  }

  /** Data calls do not overlap; control calls and the receiver are free to do anything. */
  ghost predicate Serial(trace: seq<Session>, actions: seq<Action>, l: Limits) {
    Run(trace, actions, l) && forall k | 0 <= k < |actions| :: SerialAt(trace, actions, l, k)
  }

  /** Past the flag check and not yet returned. */
  predicate Active(x: Sender, o: Offered) {
    o.class_ == Data && !x.Checking? && !x.Returned?
  }

  /** On its way to the data channel. */
  predicate MayEnter(x: Sender) {
    (x.Reserving? || x.ReservingBytes? || x.Enqueueing?) && x.class_ == Data
  }

  predicate OnDataLane(x: Sender) {
    OnLane(x) && x.class_ == Data
  }

  ghost predicate SerialInv(s: Session, h: History) {
    && |h.offers| == |s.senders|
    && (forall i | 0 <= i < |s.senders| && h.offers[i].class_ == Data && !s.senders[i].Checking? ::
          EarlierReturned(s, h.offers, i))
    && (forall i | 0 <= i < |s.senders| :: Refused(s.senders[i], h.offers[i]) ==> s.continuityLost || !s.connected)
    && (forall i | 0 <= i < |s.senders| :: OnDataLane(s.senders[i]) || s.senders[i].Overflowing? ==> !s.continuityLost)
    && (forall i | 0 <= i < |s.senders| :: GivingUp(s.senders[i]) ==> !s.connected)
    && (forall i | 0 <= i < |s.senders| :: Announcing(s.senders[i]) ==> s.continuityLost)
    && h.losses == (if s.continuityLost then 1 else 0)
  }

  predicate Refused(x: Sender, o: Offered) {
    o.class_ == Data && x.Returned? && x != Returned(Sent)
  }

  /** Rolling back after the channel refused the frame. */
  predicate GivingUp(x: Sender) {
    (x.UndoingSlot? || x.UndoingBytes?) && x.class_ == Data
  }

  /** Telling the client about the loss, after the flag was raised. */
  predicate Announcing(x: Sender) {
    x.Reporting? || (OnLane(x) && x.nested)
  }

  /** Two data calls are never both past the check and unreturned. */
  lemma OneActive(s: Session, h: History, i: nat, j: nat)
    requires SerialInv(s, h) && i < |s.senders| && j < |s.senders|
    requires Active(s.senders[i], h.offers[i]) && Active(s.senders[j], h.offers[j])
    ensures i == j
  {
    assert EarlierReturned(s, h.offers, i) && EarlierReturned(s, h.offers, j);
  }

  lemma OfferKeepsSerial(s: Session, h: History, l: Limits, c: Class, f: Frame)
    requires SerialInv(s, h)
    ensures SerialInv(Next(s, l, Offer(c, f)), Record(h, s, l, Offer(c, f)))
  {
    var s', h' := Next(s, l, Offer(c, f)), Record(h, s, l, Offer(c, f));
    forall i | 0 <= i < |s'.senders| && h'.offers[i].class_ == Data && !s'.senders[i].Checking?
      ensures EarlierReturned(s', h'.offers, i)
    {
      assert EarlierReturned(s, h.offers, i);
    }
  }

  /** The turn order of checks survives a step of one sender. */
  lemma AdvanceKeepsTurns(s: Session, h: History, l: Limits, i: nat)
    requires SerialInv(s, h) && HistoryInv(s, h) && Enabled(s, Advance(i)) && ChecksInTurn(s, h.offers, Advance(i))
    ensures
      var s' := StepSender(s, l, i);
      forall j | 0 <= j < |s'.senders| && h.offers[j].class_ == Data && !s'.senders[j].Checking? ::
        EarlierReturned(s', h.offers, j)
  {
    var s' := StepSender(s, l, i);
    StepShape(s, l, i);
    forall j | 0 <= j < |s'.senders| && h.offers[j].class_ == Data && !s'.senders[j].Checking?
      ensures EarlierReturned(s', h.offers, j)
    {
      assert EarlierReturned(s, h.offers, j) by {
        if j == i && s.senders[i].Checking? { assert Checks(s, Advance(i)); }
      }
    }
  }

  /** What one data sender's step does to the flag and to itself. */
  lemma DataStep(s: Session, h: History, l: Limits, i: nat)
    requires SerialInv(s, h) && HistoryInv(s, h) && LaneInv(s, l, Data) && Enabled(s, Advance(i))
    ensures
      var s' := StepSender(s, l, i);
      var x := s'.senders[i];
      && (Refused(x, h.offers[i]) ==> s'.continuityLost || !s'.connected)
      && (OnDataLane(x) || x.Overflowing? ==> !s'.continuityLost)
      && (GivingUp(x) ==> !s'.connected)
      && (Announcing(x) ==> s'.continuityLost)
  {
    if s.senders[i].Enqueueing? && s.senders[i].class_ == Data { HeldAtLeast(s.senders, i, Data); }
  }

  lemma AdvanceKeepsSerial(s: Session, h: History, l: Limits, i: nat)
    requires SerialInv(s, h) && HistoryInv(s, h) && LaneInv(s, l, Data)
    requires Enabled(s, Advance(i)) && ChecksInTurn(s, h.offers, Advance(i))
    ensures SerialInv(Next(s, l, Advance(i)), Record(h, s, l, Advance(i)))
  {
    var s' := StepSender(s, l, i);
    StepShape(s, l, i);
    AdvanceKeepsTurns(s, h, l, i);
    DataStep(s, h, l, i);
    forall j | 0 <= j < |s'.senders| && (OnDataLane(s'.senders[j]) || s'.senders[j].Overflowing?)
      ensures !s'.continuityLost
    {
      if j != i && s.senders[i].Overflowing? { OneActive(s, h, i, j); }
    }
  }

  lemma ReportKeepsSerial(s: Session, h: History, l: Limits, i: nat, error: Option<Frame>)
    requires SerialInv(s, h) && HistoryInv(s, h) && Enabled(s, Report(i, error))
    ensures SerialInv(Next(s, l, Report(i, error)), Record(h, s, l, Report(i, error)))
  {
    var s' := Next(s, l, Report(i, error));
    forall j | 0 <= j < |s'.senders| && h.offers[j].class_ == Data && !s'.senders[j].Checking?
      ensures EarlierReturned(s', h.offers, j)
    {
      assert EarlierReturned(s, h.offers, j);
    }
  }

  lemma StepKeepsSerial(s: Session, h: History, l: Limits, a: Action)
    requires SerialInv(s, h) && HistoryInv(s, h) && LaneInv(s, l, Data) && Enabled(s, a) && ChecksInTurn(s, h.offers, a)
    ensures SerialInv(Next(s, l, a), Record(h, s, l, a))
  {
    match a {
      case Offer(c, f) => OfferKeepsSerial(s, h, l, c, f);
      case Advance(i) => AdvanceKeepsSerial(s, h, l, i);
      case Report(i, error) => ReportKeepsSerial(s, h, l, i, error);
      case _ => FreeKeepsSerial(s, h, l, a);
    }
  }

  /** The receiver's steps touch no sender and not the flag. */
  lemma FreeKeepsSerial(s: Session, h: History, l: Limits, a: Action)
    requires SerialInv(s, h) && Enabled(s, a) && !a.Offer? && !a.Advance? && !a.Report?
    ensures SerialInv(Next(s, l, a), Record(h, s, l, a))
  {
    var s', h' := Next(s, l, a), Record(h, s, l, a);
    forall i | 0 <= i < |s'.senders| && h'.offers[i].class_ == Data && !s'.senders[i].Checking?
      ensures EarlierReturned(s', h'.offers, i)
    {
      assert EarlierReturned(s, h.offers, i);
    }
  }

  lemma {:induction false} SerialHolds(trace: seq<Session>, actions: seq<Action>, l: Limits, t: nat)
    requires Serial(trace, actions, l) && t < |trace|
    ensures SerialInv(trace[t], HistoryAt(trace, actions, l, t))
  {
    if t > 0 {
      assert SerialAt(trace, actions, l, t - 1);
      SerialHolds(trace, actions, l, t - 1);
      HistoryHolds(trace, actions, l, t - 1);
      RunInvariant(trace, actions, l, t - 1, Data);
      StepKeepsSerial(trace[t - 1], HistoryAt(trace, actions, l, t - 1), l, actions[t - 1]);
    }
  }

  /** A frame that enters the channel finds every earlier data call returned Ok. */
  lemma SerialEntersInTurn(s: Session, h: History, l: Limits, a: Action)
    requires SerialInv(s, h) && Enqueues(s, l, a)
    requires HistoryInv(s, h)
    ensures EarlierSent(s, h.offers, a.i)
  {
    assert Tracks(s.senders[a.i], h.offers[a.i]) && OnDataLane(s.senders[a.i]);
    assert EarlierReturned(s, h.offers, a.i);
    forall j | 0 <= j < a.i && h.offers[j].class_ == Data ensures s.senders[j] == Returned(Sent) {
      assert !Refused(s.senders[j], h.offers[j]);
    }
  }

  /** No data call got through while one made before it did not. */
  predicate NoneSkipped(s: Session, h: History)
    requires |h.offers| == |s.senders|
  {
    forall i | 0 <= i < |s.senders| && SentData(s, h, i) :: EarlierSent(s, h.offers, i)
  }

  /** In order means no call is skipped: the calls that got through are those before the first that did not. */
  lemma InOrderSkipsNone(s: Session, h: History)
    requires HistoryInv(s, h) && InOrder(h)
    ensures NoneSkipped(s, h)
  {
    var calls := DataCalls(h.offers);
    DataCallsAre(h.offers);
    forall i, j | 0 <= j < i < |s.senders| && SentData(s, h, i) && h.offers[j].class_ == Data
      ensures s.senders[j] == Returned(Sent)
    {
      var k :| 0 <= k < |h.entered| && h.entered[k] == i;
      var m :| 0 <= m < |calls| && calls[m] == j;
      assert calls[k] == i && m < k;
      assert h.entered[m] == j;
      assert j in h.entered;
    }
  }

  /**
   While data calls do not overlap, with control calls, the error frames, the receiver and the
   disconnection interleaved at will: delivered and queued data are the first data frames
   offered, in order, one for each call that returned Ok; no call after a refused one gets
   through; a refusal means the flag is up or the receiver is gone; and the overflow path
   runs at most once.
   */
  lemma DeliveredIsPrefix(trace: seq<Session>, actions: seq<Action>, l: Limits, t: nat)
    requires Serial(trace, actions, l) && t < |trace|
    ensures
      var s, h := trace[t], HistoryAt(trace, actions, l, t);
      && |h.offers| == |s.senders|
      && |h.entered| <= |OfferedData(h.offers)|
      && h.delivered + s.data.queue == OfferedData(h.offers)[..|h.entered|]
      && (forall i | 0 <= i < |s.senders| :: i in h.entered <==> SentData(s, h, i))
      && NoneSkipped(s, h)
      && (forall i | 0 <= i < |s.senders| && Refused(s.senders[i], h.offers[i]) :: s.continuityLost || !s.connected)
      && h.losses == (if s.continuityLost then 1 else 0)
  {
    var s, h := trace[t], HistoryAt(trace, actions, l, t);
    HistoryHolds(trace, actions, l, t);
    SerialHolds(trace, actions, l, t);
    SerialInOrder(trace, actions, l, t);
    InOrderIsPrefix(s, h);
    InOrderSkipsNone(s, h);
  }

  lemma SerialInOrder(trace: seq<Session>, actions: seq<Action>, l: Limits, t: nat)
    requires Serial(trace, actions, l) && t < |trace|
    ensures InOrder(HistoryAt(trace, actions, l, t))
  {
    forall k | 0 <= k < t ensures EntersInTurn(trace, actions, l, k) {
      HistoryHolds(trace, actions, l, k);
      SerialHolds(trace, actions, l, k);
      if Enqueues(trace[k], l, actions[k]) {
        SerialEntersInTurn(trace[k], HistoryAt(trace, actions, l, k), l, actions[k]);
      }
    }
    InOrderIff(trace, actions, l, t);
  }

  predicate Failed(s: Session) {
    s.continuityLost || !s.connected
  }

  lemma FailedStep(s: Session, h: History, l: Limits, a: Action)
    requires SerialInv(s, h) && Enabled(s, a) && Failed(s)
    ensures Record(h, s, l, a).entered == h.entered && Failed(Next(s, l, a))
  {
    FailureLasts(s, l, a);
    assert a.Advance? ==> (OnDataLane(s.senders[a.i]) ==> !s.continuityLost);
  }

  lemma FailedAt(trace: seq<Session>, actions: seq<Action>, l: Limits, t: nat)
    requires Serial(trace, actions, l) && t < |actions| && Failed(trace[t])
    ensures HistoryAt(trace, actions, l, t + 1).entered == HistoryAt(trace, actions, l, t).entered &&
            Failed(trace[t + 1])
  {
    SerialHolds(trace, actions, l, t);
    FailedStep(trace[t], HistoryAt(trace, actions, l, t), l, actions[t]);
  }

  /** What every step leaves alone while `good` lasts is never changed. */
  lemma {:induction false} Steady<T>(x: nat -> T, good: nat -> bool, r: nat, t: nat)
    requires r <= t && good(r) && forall k | r <= k < t && good(k) :: x(k + 1) == x(k) && good(k + 1)
    ensures x(t) == x(r) && good(t)
  {
    if r < t { Steady(x, good, r, t - 1); }
  }

  function EnteredBy(trace: seq<Session>, actions: seq<Action>, l: Limits): nat -> seq<nat>
    requires |trace| == |actions| + 1
  {
    (k: nat) => if k < |trace| then HistoryAt(trace, actions, l, k).entered else []
  }

  function FailedBy(trace: seq<Session>): nat -> bool {
    (k: nat) => k < |trace| && Failed(trace[k])
  }

  lemma FailedStays(trace: seq<Session>, actions: seq<Action>, l: Limits)
    requires Serial(trace, actions, l)
    ensures
      var entered, failed := EnteredBy(trace, actions, l), FailedBy(trace);
      forall k: nat | k < |actions| && failed(k) :: entered(k + 1) == entered(k) && failed(k + 1)
  {
    var entered, failed := EnteredBy(trace, actions, l), FailedBy(trace);
    forall k: nat | k < |actions| && failed(k) ensures entered(k + 1) == entered(k) && failed(k + 1) {
      FailedAt(trace, actions, l, k);
    }
  }

  /** From the first loss or disconnection on, nothing more enters the data channel. */
  lemma NothingEntersAfterFailure(trace: seq<Session>, actions: seq<Action>, l: Limits, r: nat, t: nat)
    requires Serial(trace, actions, l) && r <= t < |trace| && (trace[r].continuityLost || !trace[r].connected)
    ensures HistoryAt(trace, actions, l, t).entered == HistoryAt(trace, actions, l, r).entered
    ensures trace[t].continuityLost || !trace[t].connected
  {
    FailedStays(trace, actions, l);
    Steady(EnteredBy(trace, actions, l), FailedBy(trace), r, t);
  }

  lemma FailureLasts(s: Session, l: Limits, a: Action)
    requires Enabled(s, a)
    ensures s.continuityLost ==> Next(s, l, a).continuityLost
    ensures !s.connected ==> !Next(s, l, a).connected
  {}

  /** A data call made at step `k` finds every data call before it returned. */
  predicate CallsInTurn(trace: seq<Session>, actions: seq<Action>, l: Limits, k: nat)
    requires k < |actions| < |trace|
  {
    var offers := HistoryAt(trace, actions, l, k).offers;
    |offers| == |trace[k].senders| &&
    (actions[k].Offer? && actions[k].class_ == Data ==> EarlierReturned(trace[k], offers, |offers|))
  }

  ghost predicate Sequential(trace: seq<Session>, actions: seq<Action>, l: Limits) {
    Run(trace, actions, l) && forall k | 0 <= k < |actions| :: CallsInTurn(trace, actions, l, k)
  }

  /** At most the last data call is still running. */
  ghost predicate OneAtATime(s: Session, offers: seq<Offered>) {
    |offers| == |s.senders| && forall i | 0 <= i < |offers| && offers[i].class_ == Data :: EarlierReturned(s, offers, i)
  }

  lemma SequentialStep(s: Session, h: History, l: Limits, a: Action)
    requires Enabled(s, a) && OneAtATime(s, h.offers)
    requires a.Offer? && a.class_ == Data ==> EarlierReturned(s, h.offers, |s.senders|)
    ensures OneAtATime(Next(s, l, a), Record(h, s, l, a).offers)
  {
    var s', offers := Next(s, l, a), Record(h, s, l, a).offers;
    forall i | 0 <= i < |offers| && offers[i].class_ == Data ensures EarlierReturned(s', offers, i) {
      assert EarlierReturned(s, h.offers, i);
    }
  }

  lemma {:induction false} SequentialHolds(trace: seq<Session>, actions: seq<Action>, l: Limits, t: nat)
    requires Sequential(trace, actions, l) && t < |trace|
    ensures OneAtATime(trace[t], HistoryAt(trace, actions, l, t).offers)
  {
    if t > 0 {
      assert CallsInTurn(trace, actions, l, t - 1);
      SequentialHolds(trace, actions, l, t - 1);
      SequentialStep(trace[t - 1], HistoryAt(trace, actions, l, t - 1), l, actions[t - 1]);
    }
  }

  /** Making data calls one after another is one way of keeping them from overlapping. */
  lemma SequentialIsSerial(trace: seq<Session>, actions: seq<Action>, l: Limits)
    requires Sequential(trace, actions, l)
    ensures Serial(trace, actions, l)
  {
    forall k | 0 <= k < |actions| ensures SerialAt(trace, actions, l, k) {
      SequentialHolds(trace, actions, l, k);
      HistoryHolds(trace, actions, l, k);
      if Checks(trace[k], actions[k]) {
        var i := actions[k].i;
        assert Tracks(trace[k].senders[i], HistoryAt(trace, actions, l, k).offers[i]);
      }
    }
  }

  // ------------------------------------------------------------ calls that overlap

  /** The calls that have passed the flag check and may still put their frame in the channel. */
  function InFlight(s: Session): set<nat> {
    set i: nat | i < |s.senders| && MayEnter(s.senders[i])
  }

  /** With the flag up nobody new gets past the check. */
  lemma NobodyJoins(s: Session, l: Limits, a: Action)
    requires Enabled(s, a) && s.continuityLost
    ensures InFlight(Next(s, l, a)) <= InFlight(s)
  {
    if a.Advance? { StepShape(s, l, a.i); }
  }

  lemma {:induction false} LateEnters(trace: seq<Session>, actions: seq<Action>, l: Limits, r: nat, t: nat)
    requires Run(trace, actions, l) && r <= t < |trace| && trace[r].continuityLost
    ensures trace[t].continuityLost && InFlight(trace[t]) <= InFlight(trace[r])
    ensures
      var before, after := HistoryAt(trace, actions, l, r).entered, HistoryAt(trace, actions, l, t).entered;
      before <= after && forall k | |before| <= k < |after| :: after[k] in InFlight(trace[r])
  {
    if t > r {
      LateEnters(trace, actions, l, r, t - 1);
      NobodyJoins(trace[t - 1], l, actions[t - 1]);
      FailureLasts(trace[t - 1], l, actions[t - 1]);
      assert Enqueues(trace[t - 1], l, actions[t - 1]) ==> actions[t - 1].i in InFlight(trace[t - 1]);
    }
  }

  /**
   In every interleaving, once the flag is up the only data frames still to enter the channel
   belong to calls that had passed the check by then, so there are at most that many of them.
   */
  lemma LateFramesAreInFlight(trace: seq<Session>, actions: seq<Action>, l: Limits, r: nat, t: nat)
    requires Run(trace, actions, l) && r <= t < |trace| && trace[r].continuityLost
    ensures
      var before, after := HistoryAt(trace, actions, l, r).entered, HistoryAt(trace, actions, l, t).entered;
      && before <= after
      && (forall k | |before| <= k < |after| :: after[k] in InFlight(trace[r]))
      && |after| - |before| <= |InFlight(trace[r])|
  {
    var before, after := HistoryAt(trace, actions, l, r).entered, HistoryAt(trace, actions, l, t).entered;
    LateEnters(trace, actions, l, r, t);
    HistoryHolds(trace, actions, l, t);
    NoDuplicatesFit(after[|before|..], InFlight(trace[r]));
  }

  // --------------------------------------------- exactly when order can be lost

  /** The data queue has room for what the sender still has to reserve. */
  predicate HasRoom(s: Session, l: Limits, x: Sender)
    requires MayEnter(x)
  {
    match x
    case Reserving(_, f, _) =>
      && 0 < l.dataMessages && s.data.messages < l.dataMessages
      && f.size <= l.dataBytes && s.data.bytes + f.size <= l.dataBytes
    case ReservingBytes(_, f, _) => s.data.bytes + f.size <= l.dataBytes
    case _ => true
  }

  /** Data call `j` is past the check, with room, while the earlier data call `i` has not returned Ok. */
  predicate Overtakes(s: Session, offers: seq<Offered>, l: Limits, i: nat, j: nat) {
    && i < j < |s.senders| == |offers| && offers[i].class_ == Data && s.senders[i] != Returned(Sent)
    && MayEnter(s.senders[j]) && s.connected && HasRoom(s, l, s.senders[j])
  }

  /** The run goes on from another. */
  predicate Continues(trace: seq<Session>, actions: seq<Action>, trace': seq<Session>, actions': seq<Action>) {
    trace <= trace' && actions <= actions'
  }

  lemma {:induction false} HistoryOfPrefix(
    trace: seq<Session>, actions: seq<Action>, l: Limits, trace': seq<Session>, actions': seq<Action>, t: nat)
    requires t <= |actions| < |trace| && |actions'| < |trace'| && Continues(trace, actions, trace', actions')
    ensures HistoryAt(trace', actions', l, t) == HistoryAt(trace, actions, l, t)
  {
    if t > 0 { HistoryOfPrefix(trace, actions, l, trace', actions', t - 1); }
  }

  /** One more step of a run. */
  lemma Extend(trace: seq<Session>, actions: seq<Action>, l: Limits, a: Action)
    returns (trace': seq<Session>, actions': seq<Action>)
    requires Run(trace, actions, l) && Enabled(trace[|actions|], a)
    ensures trace' == trace + [Next(trace[|actions|], l, a)] && actions' == actions + [a] && Run(trace', actions', l)
    ensures HistoryAt(trace', actions', l, |actions'|) ==
            Record(HistoryAt(trace, actions, l, |actions|), trace[|actions|], l, a)
  {
    trace', actions' := trace + [Next(trace[|actions|], l, a)], actions + [a];
    HistoryOfPrefix(trace, actions, l, trace', actions', |actions|);
  }

  function StepsToChannel(x: Sender): nat {
    if x.Reserving? then 2 else if x.ReservingBytes? then 1 else 0
  }

  /** With room, the overtaking call's next reservation succeeds. */
  lemma OvertakesOn(s: Session, offers: seq<Offered>, l: Limits, i: nat, j: nat)
    requires Overtakes(s, offers, l, i, j) && !s.senders[j].Enqueueing?
    ensures
      var s' := StepSender(s, l, j);
      Overtakes(s', offers, l, i, j) && StepsToChannel(s'.senders[j]) < StepsToChannel(s.senders[j])
  {
    StepShape(s, l, j);
  }

  /** Every overtaking state leads on to lost order, by steps of the overtaking call alone. */
  lemma {:induction false} OvertakingLosesOrder(trace: seq<Session>, actions: seq<Action>, l: Limits, i: nat, j: nat)
    returns (trace': seq<Session>, actions': seq<Action>)
    requires Run(trace, actions, l)
    requires Overtakes(trace[|actions|], HistoryAt(trace, actions, l, |actions|).offers, l, i, j)
    ensures Run(trace', actions', l) && Continues(trace, actions, trace', actions')
    ensures !InOrder(HistoryAt(trace', actions', l, |actions'|))
    decreases StepsToChannel(trace[|actions|].senders[j])
  {
    var s, h := trace[|actions|], HistoryAt(trace, actions, l, |actions|);
    trace', actions' := Extend(trace, actions, l, Advance(j));
    if s.senders[j].Enqueueing? {
      ChannelIsNeverFull(trace, actions, l, |actions|, j);
      HistoryHolds(trace, actions, l, |actions|);
      HistoryHolds(trace', actions', l, |actions'|);
      EnteredPast(s, h, l, i, j);
    } else {
      OvertakesOn(s, h.offers, l, i, j);
      trace', actions' := OvertakingLosesOrder(trace', actions', l, i, j);
    }
  }

  lemma EnteredPast(s: Session, h: History, l: Limits, i: nat, j: nat)
    requires HistoryInv(s, h) && Overtakes(s, h.offers, l, i, j) && Enqueues(s, l, Advance(j))
    requires HistoryInv(Next(s, l, Advance(j)), Record(h, s, l, Advance(j)))
    ensures !InOrder(Record(h, s, l, Advance(j)))
  {
    var s', h' := Next(s, l, Advance(j)), Record(h, s, l, Advance(j));
    StepShape(s, l, j);
    StepTracks(s, l, j, h.offers[j]);
    assert SentData(s', h', j) && !EarlierSent(s', h'.offers, j);
    assert !NoneSkipped(s', h');
    if InOrder(h') { InOrderSkipsNone(s', h'); }
  }

  /** Order that was kept up to step `r` and is lost by step `t` was lost by overtaking in between. */
  lemma LostByOvertaking(trace: seq<Session>, actions: seq<Action>, l: Limits, r: nat, t: nat)
    returns (k: nat, i: nat, j: nat)
    requires Run(trace, actions, l) && r <= t < |trace|
    requires InOrder(HistoryAt(trace, actions, l, r)) && !InOrder(HistoryAt(trace, actions, l, t))
    ensures r <= k < t && Overtakes(trace[k], HistoryAt(trace, actions, l, k).offers, l, i, j)
  {
    InOrderIff(trace, actions, l, r);
    InOrderIff(trace, actions, l, t);
    k :| 0 <= k < t && !EntersInTurn(trace, actions, l, k);
    HistoryHolds(trace, actions, l, k);
    var s, offers := trace[k], HistoryAt(trace, actions, l, k).offers;
    j := actions[k].i;
    i :| 0 <= i < j && i < |offers| && offers[i].class_ == Data && s.senders[i] != Returned(Sent);
  }

  /** Some continuation of the run has lost order. */
  ghost predicate CanLoseOrder(trace: seq<Session>, actions: seq<Action>, l: Limits) {
    exists trace': seq<Session>, actions': seq<Action> ::
      Run(trace', actions', l) && Continues(trace, actions, trace', actions') &&
      !InOrder(HistoryAt(trace', actions', l, |actions'|))
  }

  /** Some continuation of the run comes to an overtaking state. */
  ghost predicate CanOvertake(trace: seq<Session>, actions: seq<Action>, l: Limits) {
    exists trace': seq<Session>, actions': seq<Action>, i: nat, j: nat ::
      Run(trace', actions', l) && Continues(trace, actions, trace', actions') &&
      Overtakes(trace'[|actions'|], HistoryAt(trace', actions', l, |actions'|).offers, l, i, j)
  }

  /**
   Exactly when the prefix law can fail, from any state of any run in which it holds so far:
   if and only if a state can follow in which a data call is past the check and finds room
   while an earlier one has not returned Ok.
   */
  lemma OrderCanBeLostIff(trace: seq<Session>, actions: seq<Action>, l: Limits)
    requires Run(trace, actions, l) && InOrder(HistoryAt(trace, actions, l, |actions|))
    ensures CanLoseOrder(trace, actions, l) <==> CanOvertake(trace, actions, l)
  {
    if CanOvertake(trace, actions, l) {
      var trace': seq<Session>, actions': seq<Action>, i: nat, j: nat :|
        Run(trace', actions', l) && Continues(trace, actions, trace', actions') &&
        Overtakes(trace'[|actions'|], HistoryAt(trace', actions', l, |actions'|).offers, l, i, j);
      var trace'', actions'' := OvertakingLosesOrder(trace', actions', l, i, j);
      assert Continues(trace, actions, trace'', actions'');
    }
    if CanLoseOrder(trace, actions, l) {
      var trace': seq<Session>, actions': seq<Action> :|
        Run(trace', actions', l) && Continues(trace, actions, trace', actions') &&
        !InOrder(HistoryAt(trace', actions', l, |actions'|));
      LossComesFromOvertaking(trace, actions, l, trace', actions');
    }
  }

  lemma RunUpTo(trace: seq<Session>, actions: seq<Action>, l: Limits, k: nat)
    requires Run(trace, actions, l) && k <= |actions|
    ensures Run(trace[..k + 1], actions[..k], l)
  {}

  lemma LossComesFromOvertaking(
    trace: seq<Session>, actions: seq<Action>, l: Limits, trace': seq<Session>, actions': seq<Action>)
    requires Run(trace, actions, l) && InOrder(HistoryAt(trace, actions, l, |actions|))
    requires Run(trace', actions', l) && Continues(trace, actions, trace', actions')
    requires !InOrder(HistoryAt(trace', actions', l, |actions'|))
    ensures CanOvertake(trace, actions, l)
  {
    HistoryOfPrefix(trace, actions, l, trace', actions', |actions|);
    var k, i, j := LostByOvertaking(trace', actions', l, |actions|, |actions'|);
    var t, a := trace'[..k + 1], actions'[..k];
    RunUpTo(trace', actions', l, k);
    HistoryOfPrefix(t, a, l, trace', actions', k);
    assert Continues(trace, actions, t, a);
    assert Overtakes(t[|a|], HistoryAt(t, a, l, |a|).offers, l, i, j);
  }

  /** Data calls that do not overlap never overtake. */
  lemma SerialNeverOvertakes(trace: seq<Session>, actions: seq<Action>, l: Limits, t: nat, i: nat, j: nat)
    requires Serial(trace, actions, l) && t < |trace|
    ensures !Overtakes(trace[t], HistoryAt(trace, actions, l, t).offers, l, i, j)
  {
    var s, h := trace[t], HistoryAt(trace, actions, l, t);
    SerialHolds(trace, actions, l, t);
    HistoryHolds(trace, actions, l, t);
    if i < j < |s.senders| && MayEnter(s.senders[j]) && h.offers[i].class_ == Data {
      assert Tracks(s.senders[j], h.offers[j]) && OnDataLane(s.senders[j]);
      assert EarlierReturned(s, h.offers, j);
      assert Refused(s.senders[i], h.offers[i]) ==> !s.connected;
    }
  }

  ghost predicate Reaches(s: Session, h: History, l: Limits) {
    exists trace: seq<Session>, actions: seq<Action> ::
      Run(trace, actions, l) && trace[|actions|] == s && HistoryAt(trace, actions, l, |actions|) == h
  }

  lemma ReachStep(s: Session, h: History, l: Limits, a: Action)
    requires Reaches(s, h, l) && Enabled(s, a)
    ensures Reaches(Next(s, l, a), Record(h, s, l, a), l)
  {
    var trace: seq<Session>, actions: seq<Action> :|
      Run(trace, actions, l) && trace[|actions|] == s && HistoryAt(trace, actions, l, |actions|) == h;
    var trace', actions' := Extend(trace, actions, l, a);
    assert trace'[|actions'|] == Next(s, l, a);
  }

  /** Extends a run by one step of sender `i`, past its check and on its lane. */
  lemma LaneMove(s: Session, h: History, l: Limits, i: nat) returns (s': Session, h': History)
    requires Reaches(s, h, l) && i < |s.senders| && OnLane(s.senders[i])
    ensures Reaches(s', h', l)
    ensures
      var x := s.senders[i];
      var (lane, x') := LaneStep(x, LaneOf(s, x.class_), l, s.connected);
      && s'.senders == s.senders[i := x'] && LaneOf(s', x.class_) == lane
      && s'.connected == s.connected && s'.continuityLost == s.continuityLost
    ensures h'.offers == h.offers && h'.delivered == h.delivered
  {
    s', h' := Next(s, l, Advance(i)), Record(h, s, l, Advance(i));
    ReachStep(s, h, l, Advance(i));
    LaneShape(s, l, i, s.senders[i].class_);
  }

  /** Extends a run by a new call that passes the flag check at once. */
  lemma CallMove(s: Session, h: History, l: Limits, f: Frame) returns (s': Session, h': History)
    requires Reaches(s, h, l) && !s.continuityLost
    ensures Reaches(s', h', l)
    ensures s' == s.(senders := s.senders + [Reserving(Data, f, false)])
    ensures h' == h.(offers := h.offers + [Offered(Data, f)])
  {
    var n := |s.senders|;
    var s1, h1 := Next(s, l, Offer(Data, f)), Record(h, s, l, Offer(Data, f));
    ReachStep(s, h, l, Offer(Data, f));
    s', h' := Next(s1, l, Advance(n)), Record(h1, s1, l, Advance(n));
    ReachStep(s1, h1, l, Advance(n));
    assert s1.senders[n := Reserving(Data, f, false)] == s.senders + [Reserving(Data, f, false)];
  }

  /** Two calls have passed the flag check; the first one's frame is too large for the queue. */
  lemma BothReserving(l: Limits, lost: Frame, late: Frame) returns (s: Session, h: History)
    ensures Reaches(s, h, l)
    ensures s.senders == [Reserving(Data, lost, false), Reserving(Data, late, false)]
    ensures s.data == Lane(0, 0, []) && s.connected
    ensures h.offers == [Offered(Data, lost), Offered(Data, late)] && h.delivered == []
  {
    assert Run([FRESH], [], l) && HistoryAt([FRESH], [], l, 0) == NOTHING;
    s, h := CallMove(FRESH, NOTHING, l, lost);
    s, h := CallMove(s, h, l, late);
  }

  /** The first call overflows and raises the flag. */
  lemma FlagRaised(l: Limits, lost: Frame, late: Frame) returns (s: Session, h: History)
    requires l.dataBytes < lost.size
    ensures Reaches(s, h, l)
    ensures s.senders == [Reporting, Reserving(Data, late, false)]
    ensures s.data.messages == s.data.bytes == 0 && s.data.queue == [] && s.connected && s.continuityLost
    ensures h.offers == [Offered(Data, lost), Offered(Data, late)] && h.delivered == []
  {
    s, h := BothReserving(l, lost, late);
    s, h := LaneMove(s, h, l, 0);
    assert s.senders[0] == Overflowing;
    var s1, h1 := Next(s, l, Advance(0)), Record(h, s, l, Advance(0));
    ReachStep(s, h, l, Advance(0));
    s, h := s1, h1;
  }

  /** Then the second call's frame goes in. */
  lemma LateGoesIn(s: Session, h: History, l: Limits, late: Frame) returns (s': Session, h': History)
    requires Reaches(s, h, l) && late.size <= l.dataBytes && l.dataMessages > 0
    requires s.senders == [Reporting, Reserving(Data, late, false)]
    requires s.data.messages == s.data.bytes == 0 && s.data.queue == [] && s.connected
    ensures Reaches(s', h', l) && s'.continuityLost == s.continuityLost && s'.data.queue == [late]
    ensures h'.offers == h.offers && h'.delivered == h.delivered
  {
    s', h' := LaneMove(s, h, l, 1);
    assert s'.senders[1] == ReservingBytes(Data, late, false) && s'.data.bytes == 0 && s'.data.queue == [];
    s', h' := LaneMove(s', h', l, 1);
    assert s'.senders[1] == Enqueueing(Data, late, false) && s'.data.queue == [];
    s', h' := LaneMove(s', h', l, 1);
  }

  lemma FirstOffered(offers: seq<Offered>)
    requires |offers| == 2 && offers[0].class_ == Data
    ensures |OfferedData(offers)| > 0 && OfferedData(offers)[0] == offers[0].frame
  {
    assert offers[..1][..0] == [];
    assert DataCalls(offers[..1]) == [0];
    assert DataCalls(offers)[0] == 0;
  }

  /**
   Where data calls overlap the law can fail: a run in which the flag is up and what the receiver
   will get is no prefix of what was offered.
   */
  lemma OverlapCanDeliverAfterLoss()
    ensures exists s: Session, h: History, l: Limits ::
              Reaches(s, h, l) && s.continuityLost && !(h.delivered + s.data.queue <= OfferedData(h.offers))
  {
    var l, lost, late := Limits(1, 1, 10, 10), Frame(1, 11), Frame(2, 1);
    var s, h := FlagRaised(l, lost, late);
    s, h := LateGoesIn(s, h, l, late);
    FirstOffered(h.offers);
    assert (h.delivered + s.data.queue)[0] == late;
  }
}
