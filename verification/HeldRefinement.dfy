/** With no minimum interval, coalescing is following. */
module HeldRefinement {
  import opened Wrappers
  import opened Seam
  import opened HeldSession
  import opened HeldCustody
  import opened HeldTiming

  /** The same session, but for the cadence the follow runner does not keep. */
  ghost predicate SameSession(s: Session, t: Session) {
    s == t.(quietAt := s.quietAt, quietEmits := s.quietEmits)
  }

  predicate Admitted(c: Config, s: Session) {
    PushAll(c.rs, [], EventsOf(s.slots)).Pushed?
  }

  predicate CadencePassed(s: Session, now: Instant) {
    s.quietAt.None? || s.quietAt.value <= now
  }

  /** The turn sinks exactly `events`, if the sink takes them. */
  predicate SinksAll(t: Turn, now: Instant, events: seq<Event>, sinkOk: bool) {
    && t.pending == [] && (t.quietAt.None? || t.quietAt.value <= now)
    && (if events != [] && !sinkOk then t.end.SinkFailed? && t.burst == [] && !t.quiet
        else t.end.Continues? && t.burst == events)
  }

  lemma BufferSinksAll(c: Config, now: Instant, quietAt: Option<Instant>, events: seq<Event>, sinkOk: bool)
    requires c.policy.minEmitInterval == 0 && PushAll(c.rs, [], events).Pushed?
    requires Due(quietAt, now) || (quietAt.None? && events == [])
    ensures SinksAll(BufferTurn(c, now, [], quietAt, events, sinkOk), now, events, sinkOk)
  {
    hide PushAll;
    PushAllAppends(c.rs, [], events);
    assert [] + events == events;
  }

  lemma UrgentSinksAll(c: Config, now: Instant, quietAt: Option<Instant>, events: seq<Event>, sinkOk: bool)
    requires events != [] && AllUrgent(c, events) && (quietAt.None? || quietAt.value <= now)
    ensures SinksAll(UrgentTurn(c, [], quietAt, events, sinkOk), now, events, sinkOk)
  {
    hide PushQuiet, AllUrgent;
    AllPushedWhenUrgent(c, [], [], events);
    assert [] + events == events;
  }

  lemma ZeroCadence(c: Config, now: Instant, quietAt: Option<Instant>, events: seq<Event>)
    requires c.policy.minEmitInterval == 0 && (quietAt.None? || quietAt.value <= now)
    ensures var next := Cadence(c, now, quietAt, events);
            && (next.None? || next.value <= now) && (Due(next, now) <==> next.Some?)
            && (next.None? ==> AllUrgent(c, events))
  {
    hide IsUrgent;
  }

  lemma ZeroIntervalBurst(c: Config, now: Instant, quietAt: Option<Instant>, events: seq<Event>, sinkOk: bool)
    requires c.policy.minEmitInterval == 0 && (quietAt.None? || quietAt.value <= now)
    requires PushAll(c.rs, [], events).Pushed?
    ensures SinksAll(ApplyTurn(c, now, [], quietAt, events, sinkOk), now, events, sinkOk)
  {
    ZeroCadence(c, now, quietAt, events);
    var next := Cadence(c, now, quietAt, events);
    if events != [] {
      assert events[0] in events;
      assert next.None? ==> IsUrgent(c, events[0]);
    }
    hide PushAll, IsUrgent, Cadence, SinksAll, BufferTurn, UrgentTurn, AllUrgent, Due;
    if next.Some? || events == [] {
      BufferSinksAll(c, now, next, events, sinkOk);
    } else {
      UrgentSinksAll(c, now, next, events, sinkOk);
    }
  }

  /** One turn, however it ends: the same burst, the same end, the same queues. */
  lemma ZeroIntervalTurnFollows(c: Config, s: Session, t: Session, now: Instant, sinkOk: bool)
    requires Shaped(c, s) && SameSession(s, t) && s.status.Running? && s.pending == []
    requires c.policy.minEmitInterval == 0 && CadencePassed(s, now) && Admitted(c, s)
    ensures var d := Decide(c, s, now, false, sinkOk);
            && SameSession(d, FollowTurn(c, t, now, false, sinkOk))
            && d.pending == [] && CadencePassed(d, now)
  {
    hide ApplyTurn, PushAll, EventsOf, FirstTerminal, DeadlineEnd, Posture, GiveBackAll, GiveBackHeld;
    var events := EventsOf(s.slots);
    PushAllAppends(c.rs, [], events);
    ZeroIntervalBurst(c, now, s.quietAt, events, sinkOk);
    assert [] + events == events;
    assert s.sunk + [] == s.sunk;
  }

  /** Every turn of the run comes no earlier than the last one, is not a
      cancellation, and takes no more than the bounds admit. */
  ghost predicate PlainRun(c: Config, s: Session, moves: seq<Move>, last: Instant)
    requires Shaped(c, s)
    decreases |moves|
  {
    moves != [] ==>
    && (moves[0].TurnAt? ==> last <= moves[0].at && !moves[0].cancel && Admitted(c, s))
    && PlainRun(c, Step(c, s, moves[0], false), moves[1..], if moves[0].TurnAt? then moves[0].at else last)
  }

  lemma StepFollows(c: Config, s: Session, t: Session, m: Move, last: Instant)
    requires Shaped(c, s) && SameSession(s, t) && s.pending == [] && CadencePassed(s, last)
    requires c.policy.minEmitInterval == 0
    requires m.TurnAt? ==> last <= m.at && !m.cancel && Admitted(c, s)
    ensures var d := Step(c, s, m, false);
            && SameSession(d, Step(c, t, m, true))
            && d.pending == [] && CadencePassed(d, if m.TurnAt? then m.at else last)
  {
    hide Decide, FollowTurn, Admitted, GiveBackAll, GiveBackHeld, Posture;
    if m.TurnAt? && s.status.Running? {
      ZeroIntervalTurnFollows(c, s, t, m.at, m.sinkOk);
    }
  }

  /** Over whole runs: the two runners sink the same events and end alike. */
  lemma {:induction false} ZeroIntervalRunFollows(c: Config, s: Session, t: Session, moves: seq<Move>, last: Instant)
    requires Shaped(c, s) && SameSession(s, t) && s.pending == [] && CadencePassed(s, last)
    requires c.policy.minEmitInterval == 0 && PlainRun(c, s, moves, last)
    ensures SameSession(Run(c, s, moves, false), Run(c, t, moves, true))
    decreases |moves|
  {
    hide Step, SameSession, CadencePassed, Admitted;
    SameShape(c, s, t);
    if moves != [] {
      var m := moves[0];
      StepFollows(c, s, t, m, last);
      ZeroIntervalRunFollows(c, Step(c, s, m, false), Step(c, t, m, true), moves[1..],
                             if m.TurnAt? then m.at else last);
    }
  }

  lemma SameShape(c: Config, s: Session, t: Session)
    requires Shaped(c, s) && SameSession(s, t)
    ensures Shaped(c, t)
  {
  }
}
