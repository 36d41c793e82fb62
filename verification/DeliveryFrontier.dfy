/**
 Duplicate suppression of remote deliveries: a contiguous frontier plus a bounded set of
 serials that arrived ahead of it. It is compared with an ideal tracker that simply remembers
 every serial it has seen.
 */
module DeliveryFrontier {
  import opened Prelude

  const MAX_PENDING: nat := 4096

  // ------------------------------------------------------ frontier and window

  /** Absorbs the serials that have become contiguous. */
  function CatchUp(frontier: U64, pending: set<U64>): (U64, set<U64>)
    decreases |pending|
  {
    if frontier < U64_MAX && frontier + 1 in pending then CatchUp(frontier + 1, pending - {frontier + 1})
    else (frontier, pending)
  }

  predicate Covered(frontier: U64, pending: set<U64>, n: U64) {
    n <= frontier || n in pending
  }

  /** Pending serials lie beyond the first gap. */
  ghost predicate Gapped(frontier: U64, pending: set<U64>) {
    forall n | n in pending :: n >= frontier + 2
  }

  /** Catching up covers the same serials and restores the gap. */
  lemma {:induction false} CatchUpKeeps(frontier: U64, pending: set<U64>)
    requires forall n | n in pending :: n > frontier
    ensures Gapped(CatchUp(frontier, pending).0, CatchUp(frontier, pending).1)
    ensures |CatchUp(frontier, pending).1| <= |pending|
    ensures forall n: U64 ::
              Covered(CatchUp(frontier, pending).0, CatchUp(frontier, pending).1, n) <==> Covered(frontier, pending, n)
    decreases |pending|
  {
    if frontier < U64_MAX && frontier + 1 in pending {
      CatchUpKeeps(frontier + 1, pending - {frontier + 1});
      forall n: U64
        ensures Covered(CatchUp(frontier, pending).0, CatchUp(frontier, pending).1, n) <==>
                  Covered(frontier, pending, n)
      {
        assert Covered(frontier + 1, pending - {frontier + 1}, n) <==> Covered(frontier, pending, n);
      }
    }
  }

  // ------------------------------------------------------------ the tracker

  datatype Tracker = Tracker(stream: Option<string>, frontier: U64, pending: set<U64>, resetRequired: bool)

  datatype Verdict = Fresh | Duplicate | ResetRequired | WindowFull

  datatype Event = Deliver(stream: string, serial: U64) | Establish(stream: string, serial: U64)

  const START := Tracker(None, 0, {}, false)

  predicate StreamChanged(current: Option<string>, stream: string) {
    current.Some? && current.value != stream
  }

  function DeliverTo(t: Tracker, stream: string, serial: U64): (Tracker, Verdict) {
    var t :=
      if StreamChanged(t.stream, stream) then Tracker(Some(stream), 0, {}, false) else t.(stream := Some(stream));
    if t.resetRequired then (t, ResetRequired)
    else if serial <= t.frontier || serial in t.pending then (t, Duplicate)
    else if serial == SaturatingAdd(t.frontier, 1) then
      var (frontier, pending) := CatchUp(serial, t.pending);
      (t.(frontier := frontier, pending := pending), Fresh)
    else if |t.pending| >= MAX_PENDING then (t.(resetRequired := true), WindowFull)
    else (t.(pending := t.pending + {serial}), Fresh)
  }

  function EstablishAt(t: Tracker, stream: string, serial: U64): Tracker {
    if StreamChanged(t.stream, stream) || t.resetRequired then Tracker(Some(stream), serial, {}, false)
    else if serial > t.frontier then
      var (frontier, pending) := CatchUp(serial, set n | n in t.pending && n > serial);
      Tracker(Some(stream), frontier, pending, false)
    else t.(stream := Some(stream))
  }

  function Step(t: Tracker, e: Event): (Tracker, Verdict) {
    match e
    case Deliver(stream, serial) => DeliverTo(t, stream, serial)
    case Establish(stream, serial) => (EstablishAt(t, stream, serial), Fresh)
  }

  function After(events: seq<Event>): Tracker {
    if events == [] then START else Step(After(events[..|events| - 1]), events[|events| - 1]).0
  }

  // -------------------------------------------------------- the ideal tracker

  /** Remembers a floor and every serial accepted above it. */
  datatype Ideal = Ideal(stream: Option<string>, floor: U64, seen: set<U64>, lost: bool)

  const IDEAL_START := Ideal(None, 0, {}, false)

  predicate Known(d: Ideal, n: U64) {
    n <= d.floor || n in d.seen
  }

  ghost predicate HasGapBelow(d: Ideal, n: U64) {
    exists m: U64 :: m < n && !Known(d, m)
  }

  /** The seen serials with an unseen one below them. */
  ghost function Window(d: Ideal): set<U64> {
    set n | n in d.seen && HasGapBelow(d, n)
  }

  ghost function IdealDeliver(d: Ideal, stream: string, serial: U64): (Ideal, Verdict) {
    var d :=
      if d.stream == None || d.stream == Some(stream) then d.(stream := Some(stream))
      else Ideal(Some(stream), 0, {}, false);
    if d.lost then (d, ResetRequired)
    else if Known(d, serial) then (d, Duplicate)
    else if HasGapBelow(d, serial) && |Window(d)| >= MAX_PENDING then (d.(lost := true), WindowFull)
    else (d.(seen := d.seen + {serial}), Fresh)
  }

  ghost function IdealEstablish(d: Ideal, stream: string, serial: U64): Ideal {
    if (d.stream != None && d.stream != Some(stream)) || d.lost then Ideal(Some(stream), serial, {}, false)
    else d.(stream := Some(stream), floor := Max(d.floor, serial))
  }

  ghost function IdealStep(d: Ideal, e: Event): (Ideal, Verdict) {
    match e
    case Deliver(stream, serial) => IdealDeliver(d, stream, serial)
    case Establish(stream, serial) => (IdealEstablish(d, stream, serial), Fresh)
  }

  ghost function IdealAfter(events: seq<Event>): Ideal {
    if events == [] then IDEAL_START else IdealStep(IdealAfter(events[..|events| - 1]), events[|events| - 1]).0
  }

  // -------------------------------------------------------------- refinement

  ghost predicate Refines(t: Tracker, d: Ideal) {
    && t.stream == d.stream && t.resetRequired == d.lost
    && Gapped(t.frontier, t.pending) && |t.pending| <= MAX_PENDING
    && forall n: U64 :: Covered(t.frontier, t.pending, n) <==> Known(d, n)
  }

  /** The pending set is the ideal window, and the next serial is the one with no gap below. */
  lemma PendingIsWindow(t: Tracker, d: Ideal)
    requires Refines(t, d)
    ensures t.pending == Window(d)
    ensures forall n: U64 :: !Known(d, n) ==> (HasGapBelow(d, n) <==> n != SaturatingAdd(t.frontier, 1))
  {
    forall n | n in t.pending ensures n in Window(d) {
      assert Covered(t.frontier, t.pending, n);
      var gap: U64 := t.frontier + 1;
      assert !Covered(t.frontier, t.pending, gap);
      assert gap < n && !Known(d, gap);
    }
    forall n | n in Window(d) ensures n in t.pending {
      var m: U64 :| m < n && !Known(d, m);
      assert !Covered(t.frontier, t.pending, m) && Known(d, n);
    }
    forall n: U64 | !Known(d, n) ensures HasGapBelow(d, n) <==> n != SaturatingAdd(t.frontier, 1) {
      assert !Covered(t.frontier, t.pending, n);
      var next: U64 := t.frontier + 1;
      assert !Covered(t.frontier, t.pending, next);
      if n != next { assert next < n && !Known(d, next); }
      if m: U64 :| m < n && !Known(d, m) {
        assert !Covered(t.frontier, t.pending, m);
      }
    }
  }

  lemma DeliverRefines(t: Tracker, d: Ideal, stream: string, serial: U64)
    requires Refines(t, d)
    ensures Refines(DeliverTo(t, stream, serial).0, IdealDeliver(d, stream, serial).0)
    ensures DeliverTo(t, stream, serial).1 == IdealDeliver(d, stream, serial).1
  {
    var t1 :=
      if StreamChanged(t.stream, stream) then Tracker(Some(stream), 0, {}, false) else t.(stream := Some(stream));
    var d1 :=
      if d.stream == None || d.stream == Some(stream) then d.(stream := Some(stream))
      else Ideal(Some(stream), 0, {}, false);
    forall n: U64 ensures Covered(t1.frontier, t1.pending, n) <==> Known(d1, n) {
      assert Covered(t.frontier, t.pending, n) <==> Known(d, n);
    }
    assert Refines(t1, d1);
    PendingIsWindow(t1, d1);
    assert Covered(t1.frontier, t1.pending, serial) <==> Known(d1, serial);
    if !t1.resetRequired && !Known(d1, serial) { AcceptRefines(t1, d1, serial); }
  }

  lemma AcceptRefines(t: Tracker, d: Ideal, serial: U64)
    requires Refines(t, d) && !Known(d, serial)
    ensures serial == SaturatingAdd(t.frontier, 1) ==>
              Refines(t.(frontier := CatchUp(serial, t.pending).0, pending := CatchUp(serial, t.pending).1),
                d.(seen := d.seen + {serial}))
    ensures serial != SaturatingAdd(t.frontier, 1) && |t.pending| < MAX_PENDING ==>
              Refines(t.(pending := t.pending + {serial}), d.(seen := d.seen + {serial}))
  {
    var d' := d.(seen := d.seen + {serial});
    assert !Covered(t.frontier, t.pending, serial);
    forall n: U64 ensures Known(d', n) <==> n == serial || Covered(t.frontier, t.pending, n) {
      assert Covered(t.frontier, t.pending, n) <==> Known(d, n);
    }
    if serial == SaturatingAdd(t.frontier, 1) {
      CatchUpKeeps(serial, t.pending);
      forall n: U64 ensures Covered(serial, t.pending, n) <==> Known(d', n) {
        assert Covered(serial, t.pending, n) <==> n == serial || Covered(t.frontier, t.pending, n);
      }
    }
  }

  lemma EstablishRefines(t: Tracker, d: Ideal, stream: string, serial: U64)
    requires Refines(t, d)
    ensures Refines(EstablishAt(t, stream, serial), IdealEstablish(d, stream, serial))
  {
    var d' := IdealEstablish(d, stream, serial);
    forall n: U64 ensures Known(d, n) <==> Covered(t.frontier, t.pending, n) {}
    if !StreamChanged(t.stream, stream) && !t.resetRequired {
      if serial > t.frontier {
        var kept := set n | n in t.pending && n > serial;
        CatchUpKeeps(serial, kept);
        SubsetSize(kept, t.pending);
        forall n: U64 ensures Covered(serial, kept, n) <==> Known(d', n) {
          assert Known(d, n) <==> Covered(t.frontier, t.pending, n);
        }
      } else {
        forall n: U64 ensures Covered(t.frontier, t.pending, n) <==> Known(d', n) {
          assert Known(d, n) <==> Covered(t.frontier, t.pending, n);
          if n <= serial { assert Covered(t.frontier, t.pending, n); }
        }
      }
    }
  }

  /**
   Over any run, the bounded tracker answers exactly as one that remembers every serial: the
   two differ in memory only, and pending stays within its bound and beyond the first gap.
   */
  lemma {:induction false} AnswersAsIdeal(events: seq<Event>, e: Event)
    ensures Refines(After(events), IdealAfter(events))
    ensures Step(After(events), e).1 == IdealStep(IdealAfter(events), e).1
    ensures Refines(Step(After(events), e).0, IdealStep(IdealAfter(events), e).0)
    decreases |events|
  {
    if events != [] { AnswersAsIdeal(events[..|events| - 1], events[|events| - 1]); }
    match e {
      case Deliver(stream, serial) => DeliverRefines(After(events), IdealAfter(events), stream, serial);
      case Establish(stream, serial) => EstablishRefines(After(events), IdealAfter(events), stream, serial);
    }
  }

  // ------------------------------------------------- what the answers mean

  /** The event is for another stream than the one before it. */
  predicate SwitchesStream(events: seq<Event>, e: Event) {
    events != [] && events[|events| - 1].stream != e.stream
  }

  /** The tracker is on the last event's stream. */
  lemma LastStream(events: seq<Event>)
    ensures After(events).stream == if events == [] then None else Some(events[|events| - 1].stream)
  {}

  /** The event discards what was known: another stream, or a reset after overflow. */
  predicate Breaks(events: seq<Event>, e: Event) {
    SwitchesStream(events, e) || (e.Establish? && After(events).resetRequired)
  }

  /** Index of the event that began the current continuity, or 0. */
  function Epoch(events: seq<Event>): (k: nat)
    ensures k <= |events|
  {
    if events == [] then 0
    else
      var last := |events| - 1;
      if Breaks(events[..last], events[last]) then last else Epoch(events[..last])
  }

  /** Event `i` made `n` known: it was accepted then, or a position at or past it was established. */
  predicate Settles(events: seq<Event>, i: nat, n: U64)
    requires i < |events|
  {
    match events[i]
    case Deliver(_, serial) => serial == n && Step(After(events[..i]), events[i]).1 == Fresh
    case Establish(_, serial) => n <= serial
  }

  ghost predicate Settled(events: seq<Event>, n: U64) {
    exists i: nat :: Epoch(events) <= i < |events| && Settles(events, i, n)
  }

  lemma SettledGrows(events: seq<Event>, e: Event, n: U64)
    ensures Settled(events + [e], n) <==>
            Settles(events + [e], |events|, n) || (!Breaks(events, e) && Settled(events, n))
  {
    var longer := events + [e];
    assert longer[..|events|] == events;
    assert Epoch(longer) == if Breaks(events, e) then |events| else Epoch(events);
    forall i: nat | i < |events| ensures Settles(longer, i, n) <==> Settles(events, i, n) {
      assert longer[..i] == events[..i];
    }
    if Settles(longer, |events|, n) { assert Settled(longer, n); }
    if !Breaks(events, e) && Settled(events, n) {
      var i: nat :| Epoch(events) <= i < |events| && Settles(events, i, n);
      assert Settles(longer, i, n);
    }
    if Settled(longer, n) && !Settles(longer, |events|, n) {
      var i: nat :| Epoch(longer) <= i < |longer| && Settles(longer, i, n);
      assert i != |events| && Settles(events, i, n);
    }
  }

  /** What is covered is what was accepted or established since continuity began. */
  lemma {:induction false} CoveredMeansSettled(events: seq<Event>, n: U64)
    requires n > 0
    ensures Covered(After(events).frontier, After(events).pending, n) <==> Settled(events, n)
  {
    if events != [] {
      var front, e := events[..|events| - 1], events[|events| - 1];
      assert events == front + [e];
      CoveredMeansSettled(front, n);
      SettledGrows(front, e, n);
      CoverStep(front, e, n);
      SettlesLast(front, e, n);
    }
  }

  lemma SettlesLast(events: seq<Event>, e: Event, n: U64)
    ensures Settles(events + [e], |events|, n) <==>
            match e
            case Deliver(_, serial) => serial == n && Step(After(events), e).1 == Fresh
            case Establish(_, serial) => n <= serial
  {
    assert (events + [e])[..|events|] == events;
  }

  /** What an event adds to what is covered, and when it starts afresh. */
  lemma CoverStep(events: seq<Event>, e: Event, n: U64)
    requires n > 0
    ensures
      var t, t' := After(events), Step(After(events), e).0;
      Covered(t'.frontier, t'.pending, n) <==>
      || (!Breaks(events, e) && Covered(t.frontier, t.pending, n))
      || match e
         case Deliver(_, serial) => serial == n && Step(After(events), e).1 == Fresh
         case Establish(_, serial) => n <= serial
  {
    AnswersAsIdeal(events, e);
    LastStream(events);
    KnownStep(IdealAfter(events), e, n);
    CoveredIsKnown(After(events), IdealAfter(events), n);
    CoveredIsKnown(Step(After(events), e).0, IdealStep(IdealAfter(events), e).0, n);
  }

  lemma CoveredIsKnown(t: Tracker, d: Ideal, n: U64)
    requires Refines(t, d)
    ensures Covered(t.frontier, t.pending, n) <==> Known(d, n)
  {}

  lemma KnownStep(d: Ideal, e: Event, n: U64)
    requires n > 0
    ensures
      var (d', verdict) := IdealStep(d, e);
      Known(d', n) <==>
      || ((d.stream == None || d.stream == Some(e.stream)) && (e.Establish? ==> !d.lost) && Known(d, n))
      || match e
         case Deliver(_, serial) => serial == n && verdict == Fresh
         case Establish(_, serial) => n <= serial
  {}

  /**
   Within one continuity a delivery is suppressed exactly when its serial was already accepted
   or established, accepted exactly when it was not and the window has room, and refused
   otherwise; so no serial is accepted twice and no new serial is taken for a duplicate.
   */
  lemma DeliveryVerdict(events: seq<Event>, stream: string, serial: U64)
    requires serial > 0 && !SwitchesStream(events, Deliver(stream, serial))
    ensures
      var t := After(events);
      var verdict := DeliverTo(t, stream, serial).1;
      && (verdict == ResetRequired <==> t.resetRequired)
      && (verdict == Duplicate <==> !t.resetRequired && Settled(events, serial))
      && (verdict == WindowFull <==>
          !t.resetRequired && !Settled(events, serial) && serial != t.frontier + 1 && |t.pending| == 4096)
      && (verdict == Fresh ==> Settled(events + [Deliver(stream, serial)], serial))
  {
    LastStream(events);
    CoveredMeansSettled(events, serial);
    AnswersAsIdeal(events, Deliver(stream, serial));
    SettledGrows(events, Deliver(stream, serial), serial);
    assert (events + [Deliver(stream, serial)])[..|events|] == events;
  }

  /** Exactly the serials above 0 that satisfy `p` are covered. */
  ghost predicate CoversExactly(t: Tracker, p: U64 -> bool) {
    forall n: U64 | n > 0 :: Covered(t.frontier, t.pending, n) <==> p(n)
  }

  /**
   The first event for another stream starts afresh, whatever was known or refused before: a
   delivery is accepted and is all that is covered, an established position covers what is
   up to it.
   */
  lemma NewStreamStartsAfresh(events: seq<Event>, e: Event)
    requires events != [] && events[|events| - 1].stream != e.stream
    ensures
      var (t, verdict) := Step(After(events), e);
      && t.stream == Some(e.stream) && !t.resetRequired && (e.serial > 0 ==> verdict == Fresh)
      && CoversExactly(t, n => if e.Deliver? then n == e.serial else n <= e.serial)
  {
    LastStream(events);
    var t := Step(After(events), e).0;
    if e.Deliver? {
      assert CatchUp(1, {}) == (1, {});
    }
  }

  /** Re-establishing a position after a refusal starts afresh, too. */
  lemma ResetStartsAfresh(events: seq<Event>, stream: string, serial: U64)
    requires After(events).resetRequired
    ensures
      var t := Step(After(events), Establish(stream, serial)).0;
      t.stream == Some(stream) && !t.resetRequired && CoversExactly(t, n => n <= serial)
  {}

  /** Overflow fails closed: until a position is established or the stream changes, all is refused. */
  lemma {:induction false} FailsClosed(t: Tracker, stream: string, serials: seq<U64>, k: nat)
    requires t.resetRequired && (t.stream == None || t.stream == Some(stream)) && k < |serials|
    ensures DeliverTo(Redeliver(t, stream, serials[..k]), stream, serials[k]).1 == ResetRequired
    ensures Redeliver(t, stream, serials[..k]).pending == t.pending &&
            Redeliver(t, stream, serials[..k]).frontier == t.frontier
  {
    StaysReset(t, stream, serials[..k]);
  }

  function Redeliver(t: Tracker, stream: string, serials: seq<U64>): Tracker {
    if serials == [] then t
    else DeliverTo(Redeliver(t, stream, serials[..|serials| - 1]), stream, serials[|serials| - 1]).0
  }

  lemma {:induction false} StaysReset(t: Tracker, stream: string, serials: seq<U64>)
    requires t.resetRequired && (t.stream == None || t.stream == Some(stream))
    ensures Redeliver(t, stream, serials) == if serials == [] then t else t.(stream := Some(stream))
  {
    if serials != [] { StaysReset(t, stream, serials[..|serials| - 1]); }
  }

  // -------------------------------------------------------------- the object

  /** A channel's delivery state. */
  class ChannelState {
    var currentStream: Option<string>
    var frontier: U64
    var pending: set<U64>
    var resetRequired: bool

    constructor ()
      ensures Contents() == START
    {
      currentStream, frontier, pending, resetRequired := None, 0, {}, false;
    }

    function Contents(): Tracker
      reads this
    {
      Tracker(currentStream, frontier, pending, resetRequired)
    }

    /** The loop both operations share. */
    method Advance()
      modifies this`frontier, this`pending
      ensures (frontier, pending) == CatchUp(old(frontier), old(pending))
    {
      while frontier < U64_MAX && frontier + 1 in pending
        invariant CatchUp(frontier, pending) == CatchUp(old(frontier), old(pending))
        decreases |pending|
      {
        var next := frontier + 1;
        pending := pending - {next};
        frontier := next;
      }
    }

    /** A delivery without a stream id or serial passes unexamined. */
    method Accept(stream: Option<string>, serial: Option<U64>) returns (verdict: Verdict)
      modifies this
      ensures stream.None? || serial.None? ==> verdict == Fresh && Contents() == old(Contents())
      ensures stream.Some? && serial.Some? ==>
                (Contents(), verdict) == DeliverTo(old(Contents()), stream.value, serial.value)
    {
      if stream.None? || serial.None? {
        return Fresh;
      }
      var n := serial.value;
      if StreamChanged(currentStream, stream.value) {
        currentStream, frontier, pending, resetRequired := stream, 0, {}, false;
      } else if currentStream.None? {
        currentStream := stream;
      }
      if resetRequired {
        return ResetRequired;
      }
      if n <= frontier || n in pending {
        return Duplicate;
      }
      if n == SaturatingAdd(frontier, 1) {
        frontier := n;
        Advance();
        return Fresh;
      }
      if |pending| >= MAX_PENDING {
        resetRequired := true;
        return WindowFull;
      }
      pending := pending + {n};
      return Fresh;
    }

    method Establish(stream: string, serial: U64)
      modifies this
      ensures Contents() == EstablishAt(old(Contents()), stream, serial)
    {
      if StreamChanged(currentStream, stream) || resetRequired {
        pending := {};
        frontier := serial;
      } else if serial > frontier {
        frontier := serial;
        pending := set n | n in pending && n > serial;
        Advance();
      }
      currentStream := Some(stream);
      resetRequired := false;
    }
  }

  // ---------------------------------------- the tracker without reset or streams

  function SerialsIn(serials: seq<U64>): set<U64> {
    set n | n in serials
  }

  /**
   One pass over a list of serials. Whatever their order and repeats: what is covered was
   seen, everything seen is covered unless some serial found the window full, and the window
   stays within its bound and beyond the first gap.
   */
  method TrackAll(serials: seq<U64>, bound: nat) returns (watermark: U64, pending: set<U64>, complete: bool)
    ensures forall n: U64 :: n > 0 && Covered(watermark, pending, n) ==> n in serials
    ensures complete ==> forall n: U64 :: n > 0 ==> (Covered(watermark, pending, n) <==> n in serials)
    ensures Gapped(watermark, pending) && |pending| <= bound
    ensures !complete ==> |SerialsIn(serials)| > bound
  {
    watermark, pending, complete := 0, {}, true;
    for i := 0 to |serials|
      invariant forall n: U64 :: n > 0 && Covered(watermark, pending, n) ==> n in serials[..i]
      invariant complete ==> forall n: U64 :: n > 0 && n in serials[..i] ==> Covered(watermark, pending, n)
      invariant Gapped(watermark, pending) && |pending| <= bound
      invariant !complete ==> |SerialsIn(serials)| > bound
    {
      var serial := serials[i];
      assert serials[..i + 1] == serials[..i] + [serial];
      ghost var before := (watermark, pending);
      if serial <= watermark || serial in pending {
        assert Covered(watermark, pending, serial);
        continue;
      }
      if serial == SaturatingAdd(watermark, 1) {
        CatchUpKeeps(serial, pending);
        watermark := serial;
        ghost var target := CatchUp(serial, pending);
        while watermark < U64_MAX && watermark + 1 in pending
          invariant CatchUp(watermark, pending) == target
          decreases |pending|
        {
          pending := pending - {watermark + 1};
          watermark := watermark + 1;
        }
        forall n: U64 ensures Covered(watermark, pending, n) <==> n == serial || Covered(before.0, before.1, n) {
          assert Covered(watermark, pending, n) <==> Covered(serial, before.1, n);
        }
      } else if |pending| < bound {
        pending := pending + {serial};
      } else {
        forall n | n in pending ensures n in serials { assert Covered(watermark, pending, n); }
        SubsetSize(pending + {serial}, SerialsIn(serials));
        assert |pending + {serial}| == |pending| + 1;
        complete := false;
      }
    }
    assert serials[..|serials|] == serials;
  }
}
