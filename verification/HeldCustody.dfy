/** No event is lost, reordered or duplicated by a held session: over every run,
    what was sunk, what is pending, what a slot holds and what is still queued
    are, per registration, the provider's stream in its own order. */
module HeldCustody {
  import opened Wrappers
  import opened Seam
  import opened HeldSession

  // ----- Taking events out of slots -----

  ghost predicate SlotsLabelled(c: Config, slots: seq<Slot>) {
    forall i :: 0 <= i < |slots| ==> Labelled(c.rs, Held(slots[i]), i)
  }

  lemma {:induction false} EventsOfFrom(c: Config, slots: seq<Slot>, k: nat, i: nat)
    requires SlotsLabelled(c, slots) && k <= |slots|
    ensures Of(c.rs, EventsOf(slots[k..]), i) == if k <= i < |slots| then Held(slots[i]) else []
    decreases |slots| - k
  {
    hide Held, Of;
    OfNothing(c.rs, i);
    if k < |slots| {
      assert slots[k..][1..] == slots[k + 1..];
      OfConcat(c.rs, Held(slots[k]), EventsOf(slots[k + 1..]), i);
      OfLabelled(c.rs, Held(slots[k]), i, k);
      EventsOfFrom(c, slots, k + 1, i);
    }
  }

  lemma EventsOfArm(c: Config, slots: seq<Slot>, i: nat)
    requires SlotsLabelled(c, slots) && i < |slots|
    ensures Of(c.rs, EventsOf(slots), i) == Held(slots[i])
  {
    assert slots[0..] == slots;
    EventsOfFrom(c, slots, 0, i);
  }

  lemma {:induction false} EventsOfMember(slots: seq<Slot>, e: Event)
    requires e in EventsOf(slots)
    ensures exists i :: 0 <= i < |slots| && Held(slots[i]) == [e]
  {
    if e in Held(slots[0]) {
      assert Held(slots[0]) == [e];
    } else {
      EventsOfMember(slots[1..], e);
      var i :| 0 <= i < |slots[1..]| && Held(slots[1..][i]) == [e];
      assert slots[i + 1] == slots[1..][i];
    }
  }

  // ----- The pending buffer -----

  lemma {:induction false} PushAllAppends(rs: RegistrationSet, pending: seq<Event>, events: seq<Event>)
    ensures var r := PushAll(rs, pending, events);
            if r.Pushed? then r.pending == pending + events else r.unsunk == pending + events
    decreases |events|
  {
    if events != [] && Fits(rs, pending, events[0]) {
      PushAllAppends(rs, pending + [events[0]], events[1..]);
      assert pending + [events[0]] + events[1..] == pending + events;
    }
  }

  predicate UrgentArm(c: Config, i: nat) {
    i < |c.rs.registrations| &&
    var priority := c.rs.registrations[i].priority;
    (if priority.Some? then priority.value else PRIORITY_NORMAL) >= c.policy.urgentAt
  }

  ghost predicate AllUrgent(c: Config, events: seq<Event>) {
    forall e :: e in events ==> IsUrgent(c, e)
  }

  ghost predicate AllQuiet(c: Config, events: seq<Event>) {
    forall e :: e in events ==> !IsUrgent(c, e)
  }

  /** Urgency goes by registration, so an arm has urgent events only or none. */
  lemma {:induction false} OfUrgency(c: Config, events: seq<Event>, i: nat)
    ensures AllUrgent(c, events) && !UrgentArm(c, i) ==> Of(c.rs, events, i) == []
    ensures AllQuiet(c, events) && UrgentArm(c, i) ==> Of(c.rs, events, i) == []
  {
    if events != [] {
      OfUrgency(c, events[1..], i);
      assert events[0] in events;
    }
  }

  lemma OfEmpty(rs: RegistrationSet)
    ensures forall i: nat :: Of(rs, [], i) == []
  {
  }

  lemma OfNothing(rs: RegistrationSet, i: nat)
    ensures Of(rs, [], i) == []
  {
  }

  /** Setting urgent events aside keeps every arm's order, overflow included. */
  lemma {:induction false} PushQuietByArm(c: Config, pending: seq<Event>, urgent: seq<Event>, events: seq<Event>,
                                          i: nat)
    requires AllQuiet(c, pending) && AllUrgent(c, urgent)
    ensures var r := PushQuiet(c, pending, urgent, events);
            if r.Pushed? then
              && AllQuiet(c, r.pending) && AllUrgent(c, r.urgent)
              && Of(c.rs, r.urgent, i) + Of(c.rs, r.pending, i)
                 == Of(c.rs, pending, i) + Of(c.rs, urgent, i) + Of(c.rs, events, i)
            else
              Of(c.rs, r.unsunk, i) == Of(c.rs, pending, i) + Of(c.rs, urgent, i) + Of(c.rs, events, i)
    decreases |events|
  {
    hide Fits, IsUrgent, UrgentArm, Of;
    OfUrgency(c, pending, i);
    OfUrgency(c, urgent, i);
    OfNothing(c.rs, i);
    if events != [] {
      var first, rest := events[0], events[1..];
      assert events == [first] + rest;
      var p, u, f, r := Of(c.rs, pending, i), Of(c.rs, urgent, i), Of(c.rs, [first], i), Of(c.rs, rest, i);
      OfConcat(c.rs, [first], rest, i);
      OfUrgency(c, [first], i);
      if IsUrgent(c, first) {
        OfConcat(c.rs, urgent, [first], i);
        PushQuietByArm(c, pending, urgent + [first], rest, i);
        assert p + (u + f) + r == p + u + (f + r);
      } else {
        assert u == [] || f == [];
        OfConcat(c.rs, pending, [first], i);
        assert p + f + u + r == p + u + (f + r);
        if Fits(c.rs, pending, first) {
          PushQuietByArm(c, pending + [first], urgent, rest, i);
        } else {
          OfConcat(c.rs, pending + [first] + urgent, rest, i);
          OfConcat(c.rs, pending + [first], urgent, i);
        }
      }
    }
  }

  /** Where the elements of a push come from. */
  lemma {:induction false} PushQuietMembers(c: Config, pending: seq<Event>, urgent: seq<Event>, events: seq<Event>,
                                            e: Event)
    ensures var r := PushQuiet(c, pending, urgent, events);
            if r.Pushed? then (e in r.pending || e in r.urgent <==> e in pending || e in urgent || e in events)
            else (e in r.unsunk <==> e in pending || e in urgent || e in events)
    ensures var r := PushQuiet(c, pending, urgent, events);
            r.Pushed? ==> (e in urgent || (e in events && IsUrgent(c, e)) ==> e in r.urgent)
    decreases |events|
  {
    if events != [] {
      assert e in events <==> e == events[0] || e in events[1..];
      if IsUrgent(c, events[0]) {
        PushQuietMembers(c, pending, urgent + [events[0]], events[1..], e);
      } else if Fits(c.rs, pending, events[0]) {
        PushQuietMembers(c, pending + [events[0]], urgent, events[1..], e);
      }
    }
  }

  // ----- Giving back -----

  /** The events of `events` that the observer takes back on arm `i`. */
  function AcceptedBy(c: Config, events: seq<Event>, i: nat): seq<Event> {
    if events == [] then []
    else
      var before := AcceptedBy(c, events[..|events| - 1], i);
      var last := events[|events| - 1];
      if c.accepts(i, last) then before + [last] else before
  }

  lemma {:induction false} AcceptedByAll(c: Config, events: seq<Event>, i: nat)
    requires forall e :: e in events ==> c.accepts(i, e)
    ensures AcceptedBy(c, events, i) == events
  {
    if events != [] {
      AcceptedByAll(c, events[..|events| - 1], i);
      assert events == events[..|events| - 1] + [events[|events| - 1]];
    }
  }

  ghost predicate AllHome(c: Config, slots: seq<Slot>, events: seq<Event>)
    requires |slots| == |c.rs.registrations|
  {
    forall e :: e in events ==> Home(c, slots, e).Some?
  }

  lemma OfOne(c: Config, slots: seq<Slot>, e: Event, i: nat)
    requires |slots| == |c.rs.registrations| && Home(c, slots, e).Some?
    ensures Of(c.rs, [e], i) == if Home(c, slots, e) == Some(i) then [e] else []
  {
  }

  /** Pushing back newest first: every attempt is made, what is accepted stands
      in front of its queue in its old order, and other queues do not move. */
  lemma {:induction false} GiveBackAllByArm(c: Config, slots: seq<Slot>, queues: seq<seq<Event>>, events: seq<Event>,
                                            i: nat)
    requires |slots| == |queues| == |c.rs.registrations| && i < |queues|
    requires AllHome(c, slots, events)
    ensures GiveBackAll(c, slots, queues, events)[i] == AcceptedBy(c, Of(c.rs, events, i), i) + queues[i]
    decreases |events|
  {
    hide Of, Home;
    OfEmpty(c.rs);
    if events != [] {
      var before, last := events[..|events| - 1], events[|events| - 1];
      assert events == before + [last];
      assert last in events;
      OfConcat(c.rs, before, [last], i);
      OfOne(c, slots, last, i);
      var home := Home(c, slots, last);
      var queues' := GiveBack(c, queues, home.value, last);
      GiveBackAllByArm(c, slots, queues', before, i);
      if home == Some(i) {
        var mine := Of(c.rs, events, i);
        assert mine == Of(c.rs, before, i) + [last];
        assert mine[..|mine| - 1] == Of(c.rs, before, i);
      } else {
        assert Of(c.rs, events, i) == Of(c.rs, before, i);
      }
    }
  }

  lemma {:induction false} OfMember(rs: RegistrationSet, events: seq<Event>, i: nat, e: Event)
    ensures e in Of(rs, events, i) <==> e in events && IndexOf(rs.registrations, e.registrationId) == Some(i)
  {
    if events != [] {
      OfMember(rs, events[1..], i, e);
    }
  }

  lemma HomeIs(c: Config, slots: seq<Slot>, e: Event, i: nat)
    requires |slots| == |c.rs.registrations| && Home(c, slots, e).Some?
    requires IndexOf(c.rs.registrations, e.registrationId) == Some(i)
    ensures Home(c, slots, e) == Some(i)
  {
  }

  /** Unless something is refused, every queue gets its events back, in order. */
  lemma GiveBackAndEndByArm(c: Config, s: Session, unsunk: seq<Event>, result: Result<End, SessionError>, i: nat)
    requires Shaped(c, s) && AllHome(c, s.slots, unsunk) && i < |s.slots|
    ensures var r := GiveBackAndEnd(c, s, unsunk, result);
            r.status == Ended(result) && result != Failure(RestoreRefused) ==>
              r.queues[i] == Of(c.rs, unsunk, i) + Held(s.slots[i]) + s.queues[i]
  {
    hide GiveBackAll, Of, AcceptedBy, Home, Held;
    var r := GiveBackAndEnd(c, s, unsunk, result);
    GiveBackAllByArm(c, s.slots, GiveBackHeld(c, s.slots, s.queues), unsunk, i);
    if r.status == Ended(result) && result != Failure(RestoreRefused) {
      forall e | e in Of(c.rs, unsunk, i) ensures c.accepts(i, e) {
        OfMember(c.rs, unsunk, i, e);
        HomeIs(c, s.slots, e, i);
      }
      AcceptedByAll(c, Of(c.rs, unsunk, i), i);
    }
  }

  // ----- The invariant -----

  ghost predicate StreamsLabelled(c: Config, streams: seq<seq<Event>>) {
    forall i :: 0 <= i < |streams| ==> Labelled(c.rs, streams[i], i)
  }

  /** Everything the session answers for on arm `i`, oldest first. */
  function Accounted(c: Config, s: Session, i: nat): seq<Event>
    requires Shaped(c, s) && i < |s.slots|
  {
    Of(c.rs, s.sunk, i) + Of(c.rs, s.pending, i) + Held(s.slots[i]) + s.queues[i]
  }

  /** Only a refusal, by the sink or by the observer, can cost an event. */
  predicate LossAllowed(status: Status) {
    status == Ended(Failure(SinkRefused)) || status == Ended(Failure(RestoreRefused))
  }

  ghost predicate Custody(c: Config, s: Session, streams: seq<seq<Event>>) {
    && Shaped(c, s) && |streams| == |s.queues| && StreamsLabelled(c, streams)
    && (!LossAllowed(s.status) ==> forall i :: 0 <= i < |streams| ==> Accounted(c, s, i) == streams[i])
    && (s.status.Running? ==>
          && (forall i :: 0 <= i < |s.slots| ==> OnePhase(s.slots[i]))
          && AllHome(c, s.slots, s.pending)
          && AllQuiet(c, s.pending)
          && (s.pending != [] ==> s.quietAt.Some?))
    && (s.status.Ended? ==> s.pending == [] && (!LossAllowed(s.status) ==> EventsOf(s.slots) == []))
  }

  lemma HeldLabelled(c: Config, s: Session, streams: seq<seq<Event>>)
    requires Custody(c, s, streams) && s.status.Running?
    ensures SlotsLabelled(c, s.slots)
  {
    forall i | 0 <= i < |s.slots| ensures Labelled(c.rs, Held(s.slots[i]), i) {
      assert Accounted(c, s, i) == streams[i];
      forall e | e in Held(s.slots[i]) ensures IndexOf(c.rs.registrations, e.registrationId) == Some(i) {
        assert e in streams[i];
      }
    }
  }

  lemma {:induction false} NoneHeld(slots: seq<Slot>)
    requires forall i :: 0 <= i < |slots| ==> Held(slots[i]) == []
    ensures EventsOf(slots) == []
  {
    if slots != [] {
      NoneHeld(slots[1..]);
    }
  }

  lemma EventsAreHome(c: Config, s: Session, streams: seq<seq<Event>>)
    requires Custody(c, s, streams) && s.status.Running?
    ensures AllHome(c, s.slots, EventsOf(s.slots))
  {
    HeldLabelled(c, s, streams);
    forall e | e in EventsOf(s.slots) ensures Home(c, s.slots, e).Some? {
      EventsOfMember(s.slots, e);
      var i :| 0 <= i < |s.slots| && Held(s.slots[i]) == [e];
      assert e in Held(s.slots[i]);
      assert OnePhase(s.slots[i]);
    }
  }

  /** Ending with everything unsunk given back. */
  lemma GiveBackKeepsCustody(c: Config, s: Session, unsunk: seq<Event>, result: Result<End, SessionError>,
                             streams: seq<seq<Event>>)
    requires Shaped(c, s) && |streams| == |s.queues| && StreamsLabelled(c, streams)
    requires AllHome(c, s.slots, unsunk)
    requires forall i :: 0 <= i < |streams| ==>
               Of(c.rs, s.sunk, i) + Of(c.rs, unsunk, i) + Held(s.slots[i]) + s.queues[i] == streams[i]
    ensures Custody(c, GiveBackAndEnd(c, s, unsunk, result), streams)
  {
    hide GiveBackAll, GiveBackHeld, AllAccepted, HeldAccepted, Labelled, AllHome, EventsOf;
    var r := GiveBackAndEnd(c, s, unsunk, result);
    NoneHeld(r.slots);
    if !LossAllowed(r.status) {
      forall i | 0 <= i < |streams| ensures Accounted(c, r, i) == streams[i] {
        GiveBackAndEndByArm(c, s, unsunk, result, i);
      }
    }
  }

  lemma WithoutEventsKeeps(c: Config, slots: seq<Slot>, e: Event)
    requires |slots| == |c.rs.registrations|
    ensures Home(c, WithoutEvents(slots), e) == Home(c, slots, e)
    ensures forall i :: 0 <= i < |slots| ==> Held(WithoutEvents(slots)[i]) == []
    ensures forall i :: 0 <= i < |slots| && OnePhase(slots[i]) ==> OnePhase(WithoutEvents(slots)[i])
  {
  }

  lemma RearmSlotKeeps(s: Slot)
    requires OnePhase(s)
    ensures var r := RearmSlot(DropEvent(s)); OnePhase(r) && Held(r) == []
  {
  }

  lemma RearmKeeps(c: Config, slots: seq<Slot>, e: Event)
    requires |slots| == |c.rs.registrations|
    ensures Home(c, Rearm(slots), e) == Home(c, slots, e)
    ensures forall i :: 0 <= i < |slots| ==> Held(Rearm(slots)[i]) == Held(slots[i])
    ensures forall i :: 0 <= i < |slots| && OnePhase(slots[i]) ==> OnePhase(Rearm(slots)[i])
  {
  }

  /** The session after its events were taken out of the slots. */
  lemma TakenByArm(c: Config, s: Session, streams: seq<seq<Event>>, i: nat)
    requires Custody(c, s, streams) && s.status.Running? && i < |streams|
    ensures Held(WithoutEvents(s.slots)[i]) == []
    ensures Of(c.rs, s.sunk, i) + Of(c.rs, s.pending, i) + Of(c.rs, EventsOf(s.slots), i) + s.queues[i] == streams[i]
  {
    HeldLabelled(c, s, streams);
    EventsOfArm(c, s.slots, i);
    assert Accounted(c, s, i) == streams[i];
  }

  lemma FinalFlushKeepsCustody(c: Config, s: Session, terminal: Option<End>, now: Instant, cancelled: bool,
                               sinkOk: bool, streams: seq<seq<Event>>)
    requires Custody(c, s, streams) && s.status.Running?
    ensures var taken := s.(slots := WithoutEvents(s.slots));
            Custody(c, FinalFlush(c, taken, EventsOf(s.slots), terminal, now, cancelled, sinkOk), streams)
  {
    hide PushAll, GiveBackAndEnd, Home, Labelled, EventsOf, Fits, IsUrgent, DeadlineEnd, DropEvent, FirstTerminal, Of,
      Held, OnePhase;
    OfEmpty(c.rs);
    var events := EventsOf(s.slots);
    var taken := s.(slots := WithoutEvents(s.slots));
    PushAllAppends(c.rs, s.pending, events);
    EventsAreHome(c, s, streams);
    forall i | 0 <= i < |streams|
      ensures Held(taken.slots[i]) == []
      ensures Of(c.rs, s.sunk, i) + Of(c.rs, s.pending + events, i) + s.queues[i] == streams[i]
      ensures Of(c.rs, s.sunk + (s.pending + events), i) + s.queues[i] == streams[i]
    {
      TakenByArm(c, s, streams, i);
      OfConcat(c.rs, s.pending, events, i);
      OfConcat(c.rs, s.sunk, s.pending + events, i);
    }
    NoneHeld(taken.slots);
    var r := PushAll(c.rs, s.pending, events);
    if r.Full? {
      forall e | e in r.unsunk ensures Home(c, taken.slots, e).Some? {
        WithoutEventsKeeps(c, s.slots, e);
      }
      GiveBackKeepsCustody(c, taken, r.unsunk, OverflowEnd(r.id), streams);
    }
  }

  /** One turn of the policy, arm by arm. */
  lemma ApplyTurnByArm(c: Config, now: Instant, pending: seq<Event>, quietAt: Option<Instant>, events: seq<Event>,
                       sinkOk: bool, i: nat)
    requires AllQuiet(c, pending)
    ensures var t := ApplyTurn(c, now, pending, quietAt, events, sinkOk);
            && (t.end.Continues? ==>
                  Of(c.rs, t.burst, i) + Of(c.rs, t.pending, i) == Of(c.rs, pending, i) + Of(c.rs, events, i))
            && (t.end.Overflowed? ==>
                  t.burst == [] && Of(c.rs, t.end.unsunk, i) == Of(c.rs, pending, i) + Of(c.rs, events, i))
  {
    hide PushAll, PushQuiet, Of, Cadence, IsUrgent;
    OfNothing(c.rs, i);
    PushAllAppends(c.rs, pending, events);
    PushQuietByArm(c, pending, [], events, i);
    OfConcat(c.rs, pending, events, i);
  }

  lemma ApplyTurnMembers(c: Config, now: Instant, pending: seq<Event>, quietAt: Option<Instant>, events: seq<Event>,
                         sinkOk: bool)
    requires AllQuiet(c, pending) && (pending != [] ==> quietAt.Some?)
    ensures var t := ApplyTurn(c, now, pending, quietAt, events, sinkOk);
            && (t.pending != [] ==> t.quietAt.Some?)
            && (t.end.Continues? ==> AllQuiet(c, t.pending))
            && (forall e :: e in t.pending ==> e in pending || e in events)
            && (t.end.Overflowed? ==> forall e :: e in t.end.unsunk ==> e in pending || e in events)
  {
    hide PushAll, PushQuiet, Of, IsUrgent;
    PushAllAppends(c.rs, pending, events);
    PushQuietByArm(c, pending, [], events, 0);
    forall e
      ensures var r := PushQuiet(c, pending, [], events);
              if r.Pushed? then (e in r.pending || e in r.urgent <==> e in pending || e in events)
              else (e in r.unsunk <==> e in pending || e in events)
    {
      PushQuietMembers(c, pending, [], events, e);
    }
    var q := PushQuiet(c, pending, [], events);
    var next := Cadence(c, now, quietAt, events);
    if q.Pushed? && q.pending != [] && pending == [] {
      var e := q.pending[0];
      assert e in q.pending && !IsUrgent(c, e);
      assert e in events;
    }
    if events != [] {
      assert events[0] in events;
    }
  }

  lemma DecideKeepsCustody(c: Config, s: Session, now: Instant, cancelled: bool, sinkOk: bool, streams: seq<seq<Event>>)
    requires Custody(c, s, streams) && s.status.Running?
    ensures Custody(c, Decide(c, s, now, cancelled, sinkOk), streams)
  {
    var posture := Posture(c.rs, c.request, now);
    forall i | 0 <= i < |streams|
      ensures Of(c.rs, s.sunk, i) + Of(c.rs, s.pending, i) + Held(s.slots[i]) + s.queues[i] == streams[i]
    {
      assert Accounted(c, s, i) == streams[i];
    }
    if posture.Some? {
      GiveBackKeepsCustody(c, s, s.pending, Failure(posture.value), streams);
    } else if s.fault {
      GiveBackKeepsCustody(c, s, s.pending, Failure(ObserverFault), streams);
    } else {
      var taken := s.(slots := WithoutEvents(s.slots));
      var terminal := FirstTerminal(c.rs, taken.slots, 0);
      if terminal.Some? || cancelled || AtDeadline(c.request, now) {
        FinalFlushKeepsCustody(c, s, terminal, now, cancelled, sinkOk, streams);
      } else {
        TurnKeepsCustody(c, s, now, cancelled, sinkOk, streams);
      }
    }
  }

  /** One turn of a session, arm by arm. */
  lemma TurnByArm(c: Config, s: Session, now: Instant, sinkOk: bool, streams: seq<seq<Event>>, i: nat)
    requires Custody(c, s, streams) && s.status.Running? && i < |streams|
    ensures Held(WithoutEvents(s.slots)[i]) == []
    ensures var t := ApplyTurn(c, now, s.pending, s.quietAt, EventsOf(s.slots), sinkOk);
            && (t.end.Continues? ==> Of(c.rs, s.sunk + t.burst, i) + Of(c.rs, t.pending, i) + s.queues[i] == streams[i])
            && (t.end.Overflowed? ==>
                  Of(c.rs, s.sunk + t.burst, i) + Of(c.rs, t.end.unsunk, i) + s.queues[i] == streams[i])
  {
    hide ApplyTurn, EventsOf, Of, Held, DropEvent;
    var t := ApplyTurn(c, now, s.pending, s.quietAt, EventsOf(s.slots), sinkOk);
    OfNothing(c.rs, i);
    TakenByArm(c, s, streams, i);
    ApplyTurnByArm(c, now, s.pending, s.quietAt, EventsOf(s.slots), sinkOk, i);
    OfConcat(c.rs, s.sunk, t.burst, i);
    var x := Of(c.rs, s.sunk, i);
    assert x + Of(c.rs, s.pending, i) + Of(c.rs, EventsOf(s.slots), i) ==
             x + (Of(c.rs, s.pending, i) + Of(c.rs, EventsOf(s.slots), i));
    assert x + Of(c.rs, t.burst, i) + Of(c.rs, t.pending, i) == x + (Of(c.rs, t.burst, i) + Of(c.rs, t.pending, i));
  }

  lemma TurnKeepsCustody(c: Config, s: Session, now: Instant, cancelled: bool, sinkOk: bool, streams: seq<seq<Event>>)
    requires Custody(c, s, streams) && s.status.Running?
    requires Posture(c.rs, c.request, now).None? && !s.fault && !cancelled && !AtDeadline(c.request, now)
    requires FirstTerminal(c.rs, WithoutEvents(s.slots), 0).None?
    ensures Custody(c, Decide(c, s, now, cancelled, sinkOk), streams)
  {
    hide ApplyTurn, GiveBackAndEnd, EventsOf, Labelled, DropEvent, RearmSlot, FirstTerminal, IsUrgent, Of, Home, Held,
      OnePhase;
    OfEmpty(c.rs);
    var events := EventsOf(s.slots);
    var t := ApplyTurn(c, now, s.pending, s.quietAt, events, sinkOk);
    ApplyTurnMembers(c, now, s.pending, s.quietAt, events, sinkOk);
    EventsAreHome(c, s, streams);
    var taken := s.(slots := WithoutEvents(s.slots));
    var after := taken.(pending := t.pending, quietAt := t.quietAt, sunk := s.sunk + t.burst,
                        quietEmits := if t.quiet then s.quietEmits + [now] else s.quietEmits);
    forall i | 0 <= i < |streams|
      ensures t.end.Continues? ==> Of(c.rs, after.sunk, i) + Of(c.rs, t.pending, i) + s.queues[i] == streams[i]
      ensures t.end.Overflowed? ==> Of(c.rs, after.sunk, i) + Of(c.rs, t.end.unsunk, i) + s.queues[i] == streams[i]
      ensures Held(taken.slots[i]) == []
    {
      TurnByArm(c, s, now, sinkOk, streams, i);
    }
    forall e | Home(c, s.slots, e).Some? ensures Home(c, taken.slots, e).Some? && Home(c, Rearm(taken.slots), e).Some? {
      WithoutEventsKeeps(c, s.slots, e);
      RearmKeeps(c, taken.slots, e);
    }
    match t.end
    case Continues =>
      forall i | 0 <= i < |s.slots| ensures OnePhase(Rearm(taken.slots)[i]) && Held(Rearm(taken.slots)[i]) == [] {
        assert OnePhase(s.slots[i]);
        RearmSlotKeeps(s.slots[i]);
      }
    case Overflowed(unsunk, id) => GiveBackKeepsCustody(c, after, unsunk, OverflowEnd(id), streams);
    case SinkFailed => SinkFailedEmpties(c, now, s.pending, s.quietAt, events, sinkOk);
  }

  lemma SinkFailedEmpties(c: Config, now: Instant, pending: seq<Event>, quietAt: Option<Instant>, events: seq<Event>,
                          sinkOk: bool)
    ensures var t := ApplyTurn(c, now, pending, quietAt, events, sinkOk);
            !t.end.Continues? ==> t.pending == []
  {
  }

  /** A move that touches one slot and its queue, and nothing else. */
  ghost predicate OneSlotMove(s: Session, r: Session, k: nat) {
    && k < |s.slots| == |s.queues| == |r.slots| == |r.queues|
    && r == s.(slots := s.slots[k := r.slots[k]], queues := s.queues[k := r.queues[k]], fault := r.fault)
    && (s.slots[k].bound ==> r.slots[k].bound)
    && (OnePhase(s.slots[k]) ==> OnePhase(r.slots[k]))
    && Held(r.slots[k]) + r.queues[k] == Held(s.slots[k]) + s.queues[k]
  }

  lemma OneSlotKeepsCustody(c: Config, s: Session, r: Session, k: nat, streams: seq<seq<Event>>)
    requires Custody(c, s, streams) && s.status.Running? && OneSlotMove(s, r, k)
    ensures Custody(c, r, streams)
  {
    hide EventsOf, Labelled, Of, Held, OnePhase, IsUrgent;
    forall i | 0 <= i < |streams| ensures Accounted(c, r, i) == streams[i] && OnePhase(r.slots[i]) {
      assert Accounted(c, s, i) == streams[i] && OnePhase(s.slots[i]);
      var x := Of(c.rs, s.sunk, i) + Of(c.rs, s.pending, i);
      assert x + Held(r.slots[i]) + r.queues[i] == x + (Held(r.slots[i]) + r.queues[i]);
      assert x + Held(s.slots[i]) + s.queues[i] == x + (Held(s.slots[i]) + s.queues[i]);
    }
  }

  lemma HarvestIsOneSlot(s: Session, k: nat, answer: Answer)
    requires k < |s.slots| == |s.queues| && s.slots[k].bound && s.slots[k].harvested.None?
    ensures OneSlotMove(s, Harvest(s, k, answer), k)
  {
  }

  lemma RearmKeepsCustody(c: Config, s: Session, streams: seq<seq<Event>>)
    requires Custody(c, s, streams) && s.status.Running?
    ensures Custody(c, s.(slots := Rearm(s.slots)), streams)
  {
    hide EventsOf, Labelled, Of, Held, OnePhase, IsUrgent, Home, RearmSlot;
    forall e | Home(c, s.slots, e).Some? ensures Home(c, Rearm(s.slots), e).Some? {
      RearmKeeps(c, s.slots, e);
    }
    forall i | 0 <= i < |streams|
      ensures Accounted(c, s.(slots := Rearm(s.slots)), i) == streams[i] && OnePhase(Rearm(s.slots)[i])
    {
      assert Accounted(c, s, i) == streams[i] && OnePhase(s.slots[i]);
      RearmSlotSame(s.slots[i]);
    }
  }

  lemma RearmSlotSame(s: Slot)
    ensures Held(RearmSlot(s)) == Held(s)
    ensures OnePhase(s) ==> OnePhase(RearmSlot(s))
  {
  }

  lemma ArrivalKeepsCustody(c: Config, s: Session, m: Move, streams: seq<seq<Event>>)
    requires Custody(c, s, streams) && m.Arrive? && StreamsLabelled(c, Enqueue(streams, m))
    ensures Custody(c, s.(queues := Enqueue(s.queues, m)), Enqueue(streams, m))
  {
    hide EventsOf, Labelled, Of, Held, OnePhase, IsUrgent, Home;
    var r := s.(queues := Enqueue(s.queues, m));
    if !LossAllowed(s.status) {
      forall i | 0 <= i < |streams| ensures Accounted(c, r, i) == Enqueue(streams, m)[i] {
        assert Accounted(c, s, i) == streams[i];
      }
    }
  }

  lemma GiveUpKeepsCustody(c: Config, s: Session, error: SessionError, streams: seq<seq<Event>>)
    requires Custody(c, s, streams) && s.status.Running?
    ensures Custody(c, GiveBackAndEnd(c, s, s.pending, Failure(error)), streams)
  {
    hide EventsOf, Labelled, Of, Held, OnePhase, IsUrgent, Home, GiveBackAndEnd;
    forall i | 0 <= i < |streams|
      ensures Of(c.rs, s.sunk, i) + Of(c.rs, s.pending, i) + Held(s.slots[i]) + s.queues[i] == streams[i]
    {
      assert Accounted(c, s, i) == streams[i];
    }
    GiveBackKeepsCustody(c, s, s.pending, Failure(error), streams);
  }

  /** The follow runner keeps custody too, and never has anything pending. */
  lemma FollowKeepsCustody(c: Config, s: Session, now: Instant, cancelled: bool, sinkOk: bool, streams: seq<seq<Event>>)
    requires Custody(c, s, streams) && s.status.Running? && s.pending == []
    ensures Custody(c, FollowTurn(c, s, now, cancelled, sinkOk), streams)
    ensures FollowTurn(c, s, now, cancelled, sinkOk).pending == []
  {
    hide GiveBackAndEnd, EventsOf, Labelled, DropEvent, RearmSlot, FirstTerminal, DeadlineEnd, Posture, IsUrgent, Of,
      Home, Held, OnePhase;
    OfEmpty(c.rs);
    var events := EventsOf(s.slots);
    var taken := s.(slots := WithoutEvents(s.slots));
    GiveBackLeavesNothing(c, s, []);
    forall i | 0 <= i < |streams|
      ensures Of(c.rs, s.sunk, i) + Of(c.rs, [], i) + Held(s.slots[i]) + s.queues[i] == streams[i]
      ensures Of(c.rs, s.sunk + events, i) + s.queues[i] == streams[i]
      ensures Held(taken.slots[i]) == [] && Held(Rearm(taken.slots)[i]) == [] && OnePhase(Rearm(taken.slots)[i])
    {
      assert Accounted(c, s, i) == streams[i] && OnePhase(s.slots[i]);
      TakenByArm(c, s, streams, i);
      OfConcat(c.rs, s.sunk, events, i);
      RearmSlotKeeps(s.slots[i]);
    }
    forall result: Result<End, SessionError> ensures Custody(c, GiveBackAndEnd(c, s, [], result), streams) {
      GiveBackKeepsCustody(c, s, [], result, streams);
    }
    NoneHeld(taken.slots);
  }

  lemma GiveBackLeavesNothing(c: Config, s: Session, unsunk: seq<Event>)
    requires Shaped(c, s)
    ensures forall result :: GiveBackAndEnd(c, s, unsunk, result).pending == []
  {
  }

  lemma StepKeepsCustody(c: Config, s: Session, m: Move, follow: bool, streams: seq<seq<Event>>)
    requires Custody(c, s, streams) && StreamsLabelled(c, Enqueue(streams, m))
    requires follow ==> s.pending == []
    ensures Custody(c, Step(c, s, m, follow), Enqueue(streams, m))
    ensures follow ==> Step(c, s, m, follow).pending == []
  {
    hide FollowTurn, Decide, GiveBackAndEnd, Posture, Custody, StreamsLabelled;
    if m.Arrive? {
      ArrivalKeepsCustody(c, s, m, streams);
    } else if s.status.Running? {
      CustodyShape(c, s, streams);
      var r := Step(c, s, m, follow);
      GiveBackLeavesNothing(c, s, s.pending);
      match m
      case TurnAt(at, cancel, sinkOk) =>
        if follow {
          FollowKeepsCustody(c, s, at, cancel, sinkOk, streams);
        } else {
          DecideKeepsCustody(c, s, at, cancel, sinkOk, streams);
        }
      case PostureCheck(at) =>
        if Posture(c.rs, c.request, at).Some? {
          GiveUpKeepsCustody(c, s, Posture(c.rs, c.request, at).value, streams);
        }
      case CollectFails => GiveUpKeepsCustody(c, s, ObserverFault, streams);
      case NextReady(k, answer) =>
        if r != s {
          HarvestIsOneSlot(s, k, answer);
          OneSlotKeepsCustody(c, s, r, k, streams);
        }
      case PollReady(k, answer) =>
        if r != s {
          HarvestIsOneSlot(s, k, answer);
          OneSlotKeepsCustody(c, s, r, k, streams);
        }
      case BindReady(k) =>
        if r != s {
          OneSlotKeepsCustody(c, s, r, k, streams);
        }
      case BindFails(k) =>
        if r != s {
          OneSlotKeepsCustody(c, s, r, k, streams);
        }
      case NextFails(k) =>
        if r != s {
          OneSlotKeepsCustody(c, s, r, k, streams);
        }
      case RearmIdle => RearmKeepsCustody(c, s, streams);
    }
  }

  lemma CustodyShape(c: Config, s: Session, streams: seq<seq<Event>>)
    requires Custody(c, s, streams)
    ensures Shaped(c, s) && |streams| == |s.queues|
    ensures s.status.Running? ==> forall i :: 0 <= i < |s.slots| ==> OnePhase(s.slots[i])
  {
  }

  /** Over every run of either runner, from any provider queues, with any
      interleaving of arrivals, binds, observations, faults and turns. */
  lemma {:induction false} RunKeepsCustody(c: Config, s: Session, moves: seq<Move>, follow: bool,
                                           streams: seq<seq<Event>>)
    requires Custody(c, s, streams) && StreamsLabelled(c, Streams(streams, moves))
    requires follow ==> s.pending == []
    ensures Custody(c, Run(c, s, moves, follow), Streams(streams, moves))
    decreases |moves|
  {
    hide Custody, StreamsLabelled, Step;
    if moves != [] {
      StreamsGrow(c, Enqueue(streams, moves[0]), moves[1..]);
      CustodyShape(c, s, streams);
      StepKeepsCustody(c, s, moves[0], follow, streams);
      RunKeepsCustody(c, Step(c, s, moves[0], follow), moves[1..], follow, Enqueue(streams, moves[0]));
    }
  }

  lemma {:induction false} StreamsGrow(c: Config, streams: seq<seq<Event>>, moves: seq<Move>)
    requires StreamsLabelled(c, Streams(streams, moves))
    ensures StreamsLabelled(c, streams)
    decreases |moves|
  {
    if moves != [] {
      var next := Enqueue(streams, moves[0]);
      StreamsGrow(c, next, moves[1..]);
      forall i | 0 <= i < |streams| ensures Labelled(c.rs, streams[i], i) {
        assert forall e :: e in streams[i] ==> e in next[i];
      }
    }
  }

  lemma StartHasCustody(c: Config, queues: seq<seq<Event>>)
    requires |queues| == |c.rs.registrations| && StreamsLabelled(c, queues)
    ensures Custody(c, Start(c, queues), queues)
  {
    forall i | 0 <= i < |queues| ensures Accounted(c, Start(c, queues), i) == queues[i] {}
  }

  /** The custody promise of both runners, from the start of a session. */
  lemma SessionNeverLosesEvents(c: Config, queues: seq<seq<Event>>, moves: seq<Move>, follow: bool, i: nat)
    requires |queues| == |c.rs.registrations| && StreamsLabelled(c, Streams(queues, moves)) && i < |queues|
    ensures var s := Run(c, Start(c, queues), moves, follow);
            var stream := Streams(queues, moves)[i];
            if s.status.Running? then
              Of(c.rs, s.sunk, i) + Of(c.rs, s.pending, i) + Held(s.slots[i]) + s.queues[i] == stream
            else
              LossAllowed(s.status) || Of(c.rs, s.sunk, i) + s.queues[i] == stream
  {
    hide Of, Held, Labelled, OnePhase, Run, IsUrgent, EventsOf;
    OfEmpty(c.rs);
    StreamsGrow(c, queues, moves);
    StartHasCustody(c, queues);
    RunKeepsCustody(c, Start(c, queues), moves, follow, queues);
    var s := Run(c, Start(c, queues), moves, follow);
    if !LossAllowed(s.status) {
      assert Accounted(c, s, i) == Streams(queues, moves)[i];
      if s.status.Ended? && Held(s.slots[i]) != [] {
        HeldInEvents(s.slots, i);
      }
    }
  }

  lemma {:induction false} HeldInEvents(slots: seq<Slot>, i: nat)
    requires i < |slots| && Held(slots[i]) != []
    ensures EventsOf(slots) != []
  {
    if i > 0 {
      HeldInEvents(slots[1..], i - 1);
    }
  }
}
