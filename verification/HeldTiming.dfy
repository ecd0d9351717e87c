/** When a held session emits and how long it sleeps. */
module HeldTiming {
  import opened Wrappers
  import opened Seam
  import opened HeldSession
  import opened HeldCustody

  // ----- Turns -----

  /** After a turn that continues, nothing pending is overdue. */
  lemma ContinuingTurnLeavesNothingDue(c: Config, s: Session, now: Instant, cancelled: bool, sinkOk: bool)
    requires Shaped(c, s) && AllQuiet(c, s.pending) && (s.pending != [] ==> s.quietAt.Some?)
    requires s.status.Running?
    ensures var r := Decide(c, s, now, cancelled, sinkOk);
            r.status.Running? ==> r.pending == [] || (r.quietAt.Some? && now < r.quietAt.value)
  {
    hide PushAll, PushQuiet, IsUrgent, EventsOf, FirstTerminal, Posture, GiveBackAll, GiveBackHeld;
    ApplyTurnMembers(c, now, s.pending, s.quietAt, EventsOf(s.slots), sinkOk);
  }

  lemma {:induction false} AllPushedWhenUrgent(c: Config, pending: seq<Event>, urgent: seq<Event>, events: seq<Event>)
    requires AllUrgent(c, events)
    ensures PushQuiet(c, pending, urgent, events) == Pushed(pending, urgent + events)
    decreases |events|
  {
    if events == [] {
      assert urgent + events == urgent;
    } else {
      assert events[0] in events;
      AllPushedWhenUrgent(c, pending, urgent + [events[0]], events[1..]);
      assert urgent + [events[0]] + events[1..] == urgent + events;
    }
  }

  lemma UrgentInBurst(c: Config, now: Instant, pending: seq<Event>, quietAt: Option<Instant>, events: seq<Event>,
                      sinkOk: bool, e: Event)
    requires AllQuiet(c, pending) && e in events && IsUrgent(c, e)
    ensures var t := ApplyTurn(c, now, pending, quietAt, events, sinkOk);
            t.end.Continues? ==> e in t.burst && AllQuiet(c, t.pending)
  {
    hide PushAll, PushQuiet, IsUrgent;
    PushAllAppends(c.rs, pending, events);
    PushQuietMembers(c, pending, [], events, e);
    PushQuietByArm(c, pending, [], events, 0);
  }

  /** An urgent event is sunk in the turn that took it, or the session ends. */
  lemma UrgentEventsSinkAtOnce(c: Config, s: Session, now: Instant, cancelled: bool, sinkOk: bool, e: Event)
    requires Shaped(c, s) && s.status.Running? && AllQuiet(c, s.pending)
    requires e in EventsOf(s.slots) && IsUrgent(c, e)
    ensures var r := Decide(c, s, now, cancelled, sinkOk);
            r.status.Running? ==> s.sunk <= r.sunk && e in r.sunk[|s.sunk|..] && AllQuiet(c, r.pending)
  {
    hide ApplyTurn, IsUrgent, AllQuiet, FirstTerminal, DeadlineEnd, Posture, GiveBackAll, GiveBackHeld, PushAll;
    var t := ApplyTurn(c, now, s.pending, s.quietAt, EventsOf(s.slots), sinkOk);
    UrgentInBurst(c, now, s.pending, s.quietAt, EventsOf(s.slots), sinkOk, e);
    var r := Decide(c, s, now, cancelled, sinkOk);
    if r.status.Running? {
      assert r.sunk == s.sunk + t.burst;
      assert r.sunk[|s.sunk|..] == t.burst;
    }
  }

  /** In every run, from the start of a session: a turn that continues leaves nothing
      overdue, and has sunk every urgent event that the slots held. */
  lemma TurnsOfARun(c: Config, queues: seq<seq<Event>>, moves: seq<Move>, now: Instant, cancelled: bool, sinkOk: bool)
    requires |queues| == |c.rs.registrations| && StreamsLabelled(c, Streams(queues, moves))
    ensures var s := Run(c, Start(c, queues), moves, false);
            var r := Step(c, s, TurnAt(now, cancelled, sinkOk), false);
            s.status.Running? && r.status.Running? ==>
              && (r.pending == [] || (r.quietAt.Some? && now < r.quietAt.value))
              && s.sunk <= r.sunk
              && forall e :: e in EventsOf(s.slots) && IsUrgent(c, e) ==> e in r.sunk[|s.sunk|..]
  {
    var s := Run(c, Start(c, queues), moves, false);
    hide *;
    RunHoldsQuiet(c, queues, moves);
    if s.status.Running? {
      TurnIsDecided(c, s, now, cancelled, sinkOk);
      ContinuingTurnLeavesNothingDue(c, s, now, cancelled, sinkOk);
      BurstGrows(c, s, now, cancelled, sinkOk);
      forall e | e in EventsOf(s.slots) && IsUrgent(c, e) && Decide(c, s, now, cancelled, sinkOk).status.Running?
        ensures e in Decide(c, s, now, cancelled, sinkOk).sunk[|s.sunk|..]
      {
        UrgentEventsSinkAtOnce(c, s, now, cancelled, sinkOk, e);
      }
    }
  }

  lemma RunHoldsQuiet(c: Config, queues: seq<seq<Event>>, moves: seq<Move>)
    requires |queues| == |c.rs.registrations| && StreamsLabelled(c, Streams(queues, moves))
    ensures var s := Run(c, Start(c, queues), moves, false);
            s.status.Running? ==> Shaped(c, s) && AllQuiet(c, s.pending) && (s.pending != [] ==> s.quietAt.Some?)
  {
    assert Start(c, queues).pending == [];
    hide Run, AllQuiet, Accounted, OnePhase, AllHome, Streams, StreamsLabelled;
    StreamsGrow(c, queues, moves);
    StartHasCustody(c, queues);
    RunKeepsCustody(c, Start(c, queues), moves, false, queues);
  }

  lemma TurnIsDecided(c: Config, s: Session, now: Instant, cancelled: bool, sinkOk: bool)
    requires Shaped(c, s) && s.status.Running?
    ensures Step(c, s, TurnAt(now, cancelled, sinkOk), false) == Decide(c, s, now, cancelled, sinkOk)
  {
    hide Decide;
  }

  lemma BurstGrows(c: Config, s: Session, now: Instant, cancelled: bool, sinkOk: bool)
    requires Shaped(c, s) && s.status.Running?
    ensures s.sunk <= Decide(c, s, now, cancelled, sinkOk).sunk
  {
    hide ApplyTurn, EventsOf, FirstTerminal, DeadlineEnd, Posture, GiveBackAll, GiveBackHeld;
  }

  // ----- Cadence over runs -----

  /** Each quiet emit happens no earlier than the cadence the last one set. */
  ghost predicate Spaced(c: Config, emits: seq<Instant>) {
    forall k :: 0 <= k < |emits| - 1 ==> After(emits[k], c.policy.minEmitInterval) <= emits[k + 1]
  }

  ghost predicate CadenceKept(c: Config, s: Session) {
    && Spaced(c, s.quietEmits)
    && (s.quietEmits != [] ==>
          s.quietAt == Some(After(s.quietEmits[|s.quietEmits| - 1], c.policy.minEmitInterval)))
  }

  /** A quiet emit waits for the cadence and renews it; nothing else moves a
      cadence that is set. */
  lemma ApplyTurnCadence(c: Config, now: Instant, pending: seq<Event>, quietAt: Option<Instant>, events: seq<Event>,
                         sinkOk: bool)
    ensures var t := ApplyTurn(c, now, pending, quietAt, events, sinkOk);
            && (t.quiet ==> t.quietAt == Some(After(now, c.policy.minEmitInterval))
                            && (quietAt.Some? ==> quietAt.value <= now))
            && (!t.quiet && quietAt.Some? ==> t.quietAt == quietAt)
  {
    hide PushAll, PushQuiet, IsUrgent;
  }

  /** What a turn can do to the cadence of a session. */
  lemma DecideCadence(c: Config, s: Session, now: Instant, cancelled: bool, sinkOk: bool)
    requires Shaped(c, s)
    ensures var t := ApplyTurn(c, now, s.pending, s.quietAt, EventsOf(s.slots), sinkOk);
            var r := Decide(c, s, now, cancelled, sinkOk);
            || (r.quietEmits == s.quietEmits && r.quietAt == s.quietAt)
            || (r.quietAt == t.quietAt && r.quietEmits == if t.quiet then s.quietEmits + [now] else s.quietEmits)
  {
    hide ApplyTurn, PushAll, EventsOf, FirstTerminal, DeadlineEnd, Posture, GiveBackAll, GiveBackHeld;
  }

  lemma TurnKeepsCadence(c: Config, s: Session, now: Instant, cancelled: bool, sinkOk: bool)
    requires Shaped(c, s) && CadenceKept(c, s)
    ensures CadenceKept(c, Decide(c, s, now, cancelled, sinkOk))
  {
    hide ApplyTurn, Decide, EventsOf;
    ApplyTurnCadence(c, now, s.pending, s.quietAt, EventsOf(s.slots), sinkOk);
    DecideCadence(c, s, now, cancelled, sinkOk);
  }

  lemma {:induction false} RunKeepsCadence(c: Config, s: Session, moves: seq<Move>)
    requires Shaped(c, s) && CadenceKept(c, s)
    ensures CadenceKept(c, Run(c, s, moves, false))
    decreases |moves|
  {
    hide CadenceKept, Decide;
    if moves != [] {
      StepKeepsCadence(c, s, moves[0]);
      RunKeepsCadence(c, Step(c, s, moves[0], false), moves[1..]);
    }
  }

  lemma StepKeepsCadence(c: Config, s: Session, m: Move)
    requires Shaped(c, s) && CadenceKept(c, s)
    ensures CadenceKept(c, Step(c, s, m, false))
  {
    hide Decide, GiveBackAll, GiveBackHeld, Posture;
    if m.TurnAt? {
      TurnKeepsCadence(c, s, m.at, m.cancel, m.sinkOk);
    }
  }

  /** In every run, consecutive quiet bursts are at least the minimum interval
      apart, whenever the sum that sets the cadence is representable. */
  lemma QuietBurstsSpaced(c: Config, queues: seq<seq<Event>>, moves: seq<Move>, k: nat)
    requires |queues| == |c.rs.registrations|
    requires var emits := Run(c, Start(c, queues), moves, false).quietEmits;
             k + 1 < |emits| && emits[k] + c.policy.minEmitInterval <= LAST_INSTANT
    ensures var emits := Run(c, Start(c, queues), moves, false).quietEmits;
            emits[k] + c.policy.minEmitInterval <= emits[k + 1]
  {
    hide Run;
    RunKeepsCadence(c, Start(c, queues), moves);
  }

  // ----- Sleeping -----

  const BACKOFF_MS: seq<nat> := [50, 100, 200, 400, 800, 1000]

  function EarliestDeadline(request: Request): Instant {
    if request.runDeadline < request.logicalDeadline then request.runDeadline else request.logicalDeadline
  }

  function EarliestLease(registrations: seq<Registration>): (r: Option<Instant>)
    ensures r.None? <==> registrations == []
    ensures forall reg | reg in registrations :: r.Some? && r.value <= reg.leaseExpiresAt
    ensures r.Some? ==> exists reg | reg in registrations :: r.value == reg.leaseExpiresAt
  {
    if registrations == [] then None
    else
      assert registrations[0] in registrations;
      assert forall reg :: reg in registrations <==> reg == registrations[0] || reg in registrations[1..];
      match EarliestLease(registrations[1..])
      case None => Some(registrations[0].leaseExpiresAt)
      case Some(t) => if t < registrations[0].leaseExpiresAt then Some(t) else Some(registrations[0].leaseExpiresAt)
  }

  function EarliestWake(rs: RegistrationSet, request: Request): Instant {
    var deadline := EarliestDeadline(request);
    match EarliestLease(rs.registrations)
    case Some(lease) => if lease < deadline then lease else deadline
    case None => deadline
  }

  /** `step` counts idle turns from 1; the delay stops growing at one second. */
  function BackoffDelay(step: nat): (d: nat)
    ensures 50_000_000 <= d <= 1_000_000_000
  {
    var last := |BACKOFF_MS| - 1;
    var index := if step == 0 then 0 else if step - 1 < last then step - 1 else last;
    assert index == 0 || index == 1 || index == 2 || index == 3 || index == 4 || index == 5;
    BACKOFF_MS[index] * 1_000_000
  }

  /** The delay starts at 50 ms and doubles with every idle turn, up to a second. */
  lemma BackoffDoubles(step: nat)
    ensures BackoffDelay(1) == 50_000_000
    ensures step >= 1 ==>
              BackoffDelay(step + 1) ==
              if 2 * BackoffDelay(step) <= 1_000_000_000 then 2 * BackoffDelay(step) else 1_000_000_000
  {
    assert step == 0 || step == 1 || step == 2 || step == 3 || step == 4 || step >= 5;
  }

  function BackoffDeadline(rs: RegistrationSet, request: Request, now: Instant, step: nat): Instant {
    var wake := After(now, BackoffDelay(step));
    var cap := EarliestWake(rs, request);
    if wake < cap then wake else cap
  }

  /** The sleep of an idle turn. */
  function IdleSleep(c: Config, s: Session, now: Instant, step: nat): Instant {
    var sleepTo := BackoffDeadline(c.rs, c.request, now, step);
    if s.pending != [] && s.quietAt.Some? && s.quietAt.value < sleepTo then s.quietAt.value else sleepTo
  }

  /** The first timer of the `select!` to fire: the wake, or the quiet time of what
      is pending. */
  function SelectWake(c: Config, s: Session): Instant {
    var wake := EarliestWake(c.rs, c.request);
    if s.pending != [] && s.quietAt.Some? && s.quietAt.value < wake then s.quietAt.value else wake
  }

  /** No later than a deadline, any lease, or the quiet time of what is pending. */
  predicate InTime(c: Config, s: Session, t: Instant) {
    && t <= c.request.runDeadline && t <= c.request.logicalDeadline
    && (forall reg | reg in c.rs.registrations :: t <= reg.leaseExpiresAt)
    && (s.pending != [] ==> s.quietAt.Some? && t <= s.quietAt.value)
  }

  /** It is one of these times. */
  predicate AtDuty(c: Config, s: Session, t: Instant) {
    || t == c.request.runDeadline || t == c.request.logicalDeadline
    || (exists reg | reg in c.rs.registrations :: t == reg.leaseExpiresAt)
    || (s.pending != [] && s.quietAt.Some? && t == s.quietAt.value)
  }

  /** An idle session oversleeps neither a deadline, nor a lease, nor the quiet
      time of what is pending, and sleeps less only to honour the backoff. */
  lemma IdleSleepHonoursEveryDuty(c: Config, s: Session, now: Instant, step: nat)
    requires s.pending != [] ==> s.quietAt.Some?
    ensures var t := IdleSleep(c, s, now, step);
            && InTime(c, s, t) && t <= now + 1_000_000_000
            && (AtDuty(c, s, t) || t >= now + 50_000_000 || LAST_INSTANT < now + 1_000_000_000)
  {
  }

  /** In every run, from the start of a session, neither wait oversleeps a duty, and
      the `select!` wakes only for one. */
  lemma WaitsOfARun(c: Config, queues: seq<seq<Event>>, moves: seq<Move>, now: Instant, step: nat)
    requires |queues| == |c.rs.registrations| && StreamsLabelled(c, Streams(queues, moves))
    ensures var s := Run(c, Start(c, queues), moves, false);
            s.status.Running? ==>
              && InTime(c, s, IdleSleep(c, s, now, step))
              && InTime(c, s, SelectWake(c, s)) && AtDuty(c, s, SelectWake(c, s))
  {
    hide Run, Streams, StreamsLabelled, BackoffDeadline;
    RunHoldsQuiet(c, queues, moves);
    var s := Run(c, Start(c, queues), moves, false);
    if s.status.Running? {
      IdleSleepHonoursEveryDuty(c, s, now, step);
    }
  }
}
