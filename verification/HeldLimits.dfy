/** What the pending buffer of a coalescing session may hold, and when its quiet
    bursts may start, over every run. */
module HeldLimits {
  import opened Wrappers
  import opened Seam
  import opened HeldSession
  import opened HeldCustody
  import opened HeldTiming
  import opened HeldEndings

  // ----- The limits of the buffer -----

  /** The events of one registration stay within its limits. */
  predicate IdWithin(rs: RegistrationSet, pending: seq<Event>, id: Id) {
    exists i :: 0 <= i < |rs.registrations| && rs.registrations[i].id == id
                && (forall j :: 0 <= j < i ==> rs.registrations[j].id != id)
                && Saturated(|WithId(pending, id)|) <= rs.registrations[i].maxEvents
                && Saturated(TotalBytes(WithId(pending, id))) <= rs.registrations[i].maxBytes
  }

  /** The buffer stays within the limits of the set, and of every registration it
      has events of. */
  predicate WithinLimits(rs: RegistrationSet, pending: seq<Event>) {
    && Saturated(|pending|) <= rs.maxEvents && Saturated(TotalBytes(pending)) <= rs.maxBytes
    && forall e | e in pending :: IdWithin(rs, pending, e.registrationId)
  }

  lemma IdWithinIs(rs: RegistrationSet, pending: seq<Event>, id: Id)
    ensures IdWithin(rs, pending, id) <==>
            var at := IndexOf(rs.registrations, id);
            && at.Some? && Saturated(|WithId(pending, id)|) <= rs.registrations[at.value].maxEvents
            && Saturated(TotalBytes(WithId(pending, id))) <= rs.registrations[at.value].maxBytes
  {
    hide WithId, TotalBytes, Saturated;
  }

  /** An event finds room exactly when the buffer stays within its limits with it. */
  lemma FitsIff(rs: RegistrationSet, pending: seq<Event>, e: Event)
    requires WithinLimits(rs, pending)
    ensures Fits(rs, pending, e) <==> WithinLimits(rs, pending + [e])
  {
    var after := pending + [e];
    TotalsOfPush(pending, e);
    TotalsOfPush(WithId(pending, e.registrationId), e);
    IdWithinIs(rs, after, e.registrationId);
    hide WithId, TotalBytes, Saturated, SurfaceBytes, IdWithin;
    forall other | other in pending && other.registrationId != e.registrationId
      ensures IdWithin(rs, after, other.registrationId)
    {
      IdWithinIs(rs, pending, other.registrationId);
      IdWithinIs(rs, after, other.registrationId);
    }
    assert e in after;
    assert forall other :: other in after <==> other in pending || other == e;
  }

  lemma {:induction false} PushAllWithin(rs: RegistrationSet, pending: seq<Event>, events: seq<Event>)
    requires WithinLimits(rs, pending)
    ensures var r := PushAll(rs, pending, events); r.Pushed? ==> WithinLimits(rs, r.pending)
    decreases |events|
  {
    hide Fits, WithinLimits;
    if events != [] {
      FitsIff(rs, pending, events[0]);
      if Fits(rs, pending, events[0]) {
        PushAllWithin(rs, pending + [events[0]], events[1..]);
      }
    }
  }

  lemma {:induction false} PushQuietWithin(c: Config, pending: seq<Event>, urgent: seq<Event>, events: seq<Event>)
    requires WithinLimits(c.rs, pending)
    ensures var r := PushQuiet(c, pending, urgent, events); r.Pushed? ==> WithinLimits(c.rs, r.pending)
    decreases |events|
  {
    hide Fits, WithinLimits, IsUrgent;
    if events != [] {
      FitsIff(c.rs, pending, events[0]);
      if IsUrgent(c, events[0]) {
        PushQuietWithin(c, pending, urgent + [events[0]], events[1..]);
      } else if Fits(c.rs, pending, events[0]) {
        PushQuietWithin(c, pending + [events[0]], urgent, events[1..]);
      }
    }
  }

  lemma NothingWithin(rs: RegistrationSet)
    ensures WithinLimits(rs, [])
  {
  }

  lemma TurnWithin(c: Config, now: Instant, pending: seq<Event>, quietAt: Option<Instant>, events: seq<Event>,
                   sinkOk: bool)
    requires WithinLimits(c.rs, pending)
    ensures WithinLimits(c.rs, ApplyTurn(c, now, pending, quietAt, events, sinkOk).pending)
  {
    PushAllWithin(c.rs, pending, events);
    PushQuietWithin(c, pending, [], events);
    NothingWithin(c.rs);
    hide PushAll, PushQuiet, WithinLimits, IsUrgent, Cadence;
  }

  lemma DecidePending(c: Config, s: Session, now: Instant, cancelled: bool, sinkOk: bool)
    requires Shaped(c, s)
    ensures var r := Decide(c, s, now, cancelled, sinkOk);
            || r.pending == []
            || r.pending == ApplyTurn(c, now, s.pending, s.quietAt, EventsOf(s.slots), sinkOk).pending
  {
    hide ApplyTurn, EventsOf, WithoutEvents, FirstTerminal, DeadlineEnd, Posture, GiveBackAll, GiveBackHeld, PushAll,
      Rearm, AllAccepted, HeldAccepted, AtDeadline;
  }

  lemma DecideWithin(c: Config, s: Session, now: Instant, cancelled: bool, sinkOk: bool)
    requires Shaped(c, s) && WithinLimits(c.rs, s.pending)
    ensures WithinLimits(c.rs, Decide(c, s, now, cancelled, sinkOk).pending)
  {
    hide *;
    NothingWithin(c.rs);
    TurnWithin(c, now, s.pending, s.quietAt, EventsOf(s.slots), sinkOk);
    DecidePending(c, s, now, cancelled, sinkOk);
  }

  lemma StepWithin(c: Config, s: Session, m: Move)
    requires Shaped(c, s) && WithinLimits(c.rs, s.pending)
    ensures WithinLimits(c.rs, Step(c, s, m, false).pending)
  {
    NothingWithin(c.rs);
    hide Decide, WithinLimits, Posture, GiveBackAll, GiveBackHeld, Rearm, AllAccepted, HeldAccepted;
    if m.TurnAt? {
      DecideWithin(c, s, m.at, m.cancel, m.sinkOk);
    }
  }

  lemma {:induction false} RunWithin(c: Config, s: Session, moves: seq<Move>)
    requires Shaped(c, s) && WithinLimits(c.rs, s.pending)
    ensures WithinLimits(c.rs, Run(c, s, moves, false).pending)
    decreases |moves|
  {
    hide Step, WithinLimits;
    if moves != [] {
      StepWithin(c, s, moves[0]);
      RunWithin(c, Step(c, s, moves[0], false), moves[1..]);
    }
  }

  /** In every reachable state the buffer is within the limits of the set and of
      every registration it has events of. */
  lemma PendingWithinLimits(c: Config, queues: seq<seq<Event>>, moves: seq<Move>)
    requires |queues| == |c.rs.registrations|
    ensures WithinLimits(c.rs, Run(c, Start(c, queues), moves, false).pending)
  {
    hide Run, WithinLimits;
    NothingWithin(c.rs);
    RunWithin(c, Start(c, queues), moves);
  }

  // ----- The first quiet burst waits -----

  /** The quiet time was set by a turn, a minimum interval ahead of it. */
  ghost predicate SetByTurn(c: Config, moves: seq<Move>, quietAt: Option<Instant>) {
    quietAt.Some? ==>
      exists k :: 0 <= k < |moves| && moves[k].TurnAt?
                  && quietAt.value == After(moves[k].at, c.policy.minEmitInterval)
  }

  lemma TurnStarts(c: Config, now: Instant, pending: seq<Event>, quietAt: Option<Instant>, events: seq<Event>,
                   sinkOk: bool)
    ensures var t := ApplyTurn(c, now, pending, quietAt, events, sinkOk);
            var ahead := After(now, c.policy.minEmitInterval);
            && (t.quietAt == quietAt || t.quietAt == Some(ahead))
            && (t.quiet ==> if quietAt.Some? then quietAt.value <= now else ahead <= now)
  {
    hide PushAll, PushQuiet, IsUrgent;
  }

  lemma StepCadence(c: Config, s: Session, m: Move)
    requires Shaped(c, s)
    ensures var r := Step(c, s, m, false);
            && (r.quietAt == s.quietAt || (m.TurnAt? && r.quietAt == Some(After(m.at, c.policy.minEmitInterval))))
            && (r.quietEmits == s.quietEmits
                || (m.TurnAt? && r.quietEmits == s.quietEmits + [m.at]
                    && if s.quietAt.Some? then s.quietAt.value <= m.at
                       else After(m.at, c.policy.minEmitInterval) <= m.at))
  {
    if m.TurnAt? && s.status.Running? {
      TurnIsDecided(c, s, m.at, m.cancel, m.sinkOk);
      TurnStarts(c, m.at, s.pending, s.quietAt, EventsOf(s.slots), m.sinkOk);
      DecideCadence(c, s, m.at, m.cancel, m.sinkOk);
      hide Step, Decide, ApplyTurn, EventsOf;
    } else {
      hide Decide, GiveBackAll, GiveBackHeld, Posture;
    }
  }

  lemma {:induction false} RunSets(c: Config, queues: seq<seq<Event>>, moves: seq<Move>, n: nat)
    requires |queues| == |c.rs.registrations| && n <= |moves|
    ensures SetByTurn(c, moves[..n], Run(c, Start(c, queues), moves[..n], false).quietAt)
  {
    hide Step;
    if n > 0 {
      RunSets(c, queues, moves, n - 1);
      RunOneMore(c, Start(c, queues), moves, false, n - 1);
      hide Run;
      var before := Run(c, Start(c, queues), moves[..n - 1], false);
      StepCadence(c, before, moves[n - 1]);
      assert moves[..n][n - 1] == moves[n - 1];
      assert forall k :: 0 <= k < n - 1 ==> moves[..n][k] == moves[..n - 1][k];
    }
  }

  /** In every run a quiet burst, the first one included, comes no earlier than the
      quiet time that a turn before it set, a minimum interval ahead; only without
      an interval may the turn that takes the first quiet event emit it. */
  lemma QuietBurstsWait(c: Config, queues: seq<seq<Event>>, moves: seq<Move>, k: nat)
    requires |queues| == |c.rs.registrations| && k < |moves|
    requires Run(c, Start(c, queues), moves[..k + 1], false).quietEmits !=
             Run(c, Start(c, queues), moves[..k], false).quietEmits
    ensures moves[k].TurnAt?
    ensures var quietAt := Run(c, Start(c, queues), moves[..k], false).quietAt;
            if quietAt.Some? then quietAt.value <= moves[k].at && SetByTurn(c, moves[..k], quietAt)
            else After(moves[k].at, c.policy.minEmitInterval) <= moves[k].at
  {
    hide Step, Run;
    RunSets(c, queues, moves, k);
    RunOneMore(c, Start(c, queues), moves, false, k);
    StepCadence(c, Run(c, Start(c, queues), moves[..k], false), moves[k]);
  }

  // ----- Quiet events go in quiet bursts -----

  lemma {:induction false} PushQuietAside(c: Config, pending: seq<Event>, urgent: seq<Event>, events: seq<Event>)
    requires AllUrgent(c, urgent)
    ensures var r := PushQuiet(c, pending, urgent, events); r.Pushed? ==> AllUrgent(c, r.urgent)
    decreases |events|
  {
    hide Fits, IsUrgent;
    if events != [] {
      if IsUrgent(c, events[0]) {
        PushQuietAside(c, pending, urgent + [events[0]], events[1..]);
      } else if Fits(c.rs, pending, events[0]) {
        PushQuietAside(c, pending + [events[0]], urgent, events[1..]);
      }
    }
  }

  lemma BurstUrgent(c: Config, now: Instant, pending: seq<Event>, quietAt: Option<Instant>, events: seq<Event>,
                    sinkOk: bool)
    ensures var t := ApplyTurn(c, now, pending, quietAt, events, sinkOk); t.quiet || AllUrgent(c, t.burst)
  {
    PushQuietAside(c, pending, [], events);
    hide PushAll, PushQuiet, IsUrgent, Cadence;
  }

  lemma ContinuingBurst(c: Config, s: Session, now: Instant, cancelled: bool, sinkOk: bool)
    requires Shaped(c, s) && s.status.Running? && Decide(c, s, now, cancelled, sinkOk).status.Running?
    ensures var t := ApplyTurn(c, now, s.pending, s.quietAt, EventsOf(s.slots), sinkOk);
            var r := Decide(c, s, now, cancelled, sinkOk);
            && r.sunk == s.sunk + t.burst
            && r.quietEmits == if t.quiet then s.quietEmits + [now] else s.quietEmits
  {
    hide ApplyTurn, EventsOf, WithoutEvents, FirstTerminal, DeadlineEnd, Posture, GiveBackAll, GiveBackHeld, PushAll,
      Rearm, AllAccepted, HeldAccepted, AtDeadline;
  }

  /** In every run, a move after which the session goes on sinks an event that is not
      urgent only in a quiet burst; so none is sunk before its quiet time. */
  lemma QuietEventsWait(c: Config, queues: seq<seq<Event>>, moves: seq<Move>, k: nat, e: Event)
    requires |queues| == |c.rs.registrations| && k < |moves| && !IsUrgent(c, e)
    requires var s, r := Run(c, Start(c, queues), moves[..k], false), Run(c, Start(c, queues), moves[..k + 1], false);
             r.status.Running? && s.sunk <= r.sunk && e in r.sunk[|s.sunk|..]
    ensures moves[k].TurnAt?
    ensures Run(c, Start(c, queues), moves[..k + 1], false).quietEmits ==
              Run(c, Start(c, queues), moves[..k], false).quietEmits + [moves[k].at]
  {
    RunOneMore(c, Start(c, queues), moves, false, k);
    hide Run, IsUrgent;
    var s, m := Run(c, Start(c, queues), moves[..k], false), moves[k];
    var r := Step(c, s, m, false);
    assert r.sunk != s.sunk;
    StillRunning(c, s, m);
    StepSinksInTime(c, s, m, false);
    TurnIsDecided(c, s, m.at, m.cancel, m.sinkOk);
    hide Step, Decide, ApplyTurn, EventsOf;
    ContinuingBurst(c, s, m.at, m.cancel, m.sinkOk);
    BurstUrgent(c, m.at, s.pending, s.quietAt, EventsOf(s.slots), m.sinkOk);
    assert r.sunk[|s.sunk|..] == ApplyTurn(c, m.at, s.pending, s.quietAt, EventsOf(s.slots), m.sinkOk).burst;
  }

  lemma StillRunning(c: Config, s: Session, m: Move)
    requires Shaped(c, s) && Step(c, s, m, false).status.Running?
    ensures s.status.Running?
  {
  }
}
