/** The slot machine over whole runs: one phase at a time, one bind a session, one
    observation a turn, and nothing re-armed for a sink that refused. */
module HeldSlots {
  import opened Wrappers
  import opened Seam
  import opened HeldSession

  ghost predicate AllOnePhase(slots: seq<Slot>) {
    forall i :: 0 <= i < |slots| ==> OnePhase(slots[i])
  }

  /** A slot that left the binding phase does not come back to it. */
  ghost predicate NoneRebinds(before: seq<Slot>, after: seq<Slot>) {
    |before| == |after| && forall i :: 0 <= i < |before| && !before[i].binding ==> !after[i].binding
  }

  /** No slot starts to wait for a next observation. */
  ghost predicate NoneRearmed(before: seq<Slot>, after: seq<Slot>) {
    |before| == |after| && forall i :: 0 <= i < |before| && !before[i].waiting ==> !after[i].waiting
  }

  lemma EndingTurnSlots(c: Config, s: Session, unsunk: seq<Event>, result: Result<End, SessionError>)
    requires Shaped(c, s) && AllOnePhase(s.slots)
    ensures var r := GiveBackAndEnd(c, s, unsunk, result);
            AllOnePhase(r.slots) && NoneRebinds(s.slots, r.slots) && NoneRearmed(s.slots, r.slots)
  {
  }

  lemma DecideSlots(c: Config, s: Session, now: Instant, cancelled: bool, sinkOk: bool)
    requires Shaped(c, s) && AllOnePhase(s.slots) && s.status.Running?
    ensures var r := Decide(c, s, now, cancelled, sinkOk);
            && AllOnePhase(r.slots) && NoneRebinds(s.slots, r.slots)
            && (r.status.Ended? ==> NoneRearmed(s.slots, r.slots))
  {
    hide ApplyTurn, PushAll, EventsOf, FirstTerminal, Posture, GiveBackAll, GiveBackHeld, AllAccepted, HeldAccepted,
      AtDeadline, DeadlineEnd;
  }

  lemma FollowSlots(c: Config, s: Session, now: Instant, cancelled: bool, sinkOk: bool)
    requires Shaped(c, s) && AllOnePhase(s.slots) && s.status.Running?
    ensures var r := FollowTurn(c, s, now, cancelled, sinkOk);
            && AllOnePhase(r.slots) && NoneRebinds(s.slots, r.slots)
            && (r.status.Ended? ==> NoneRearmed(s.slots, r.slots))
  {
    hide EventsOf, FirstTerminal, Posture, GiveBackAll, GiveBackHeld, AllAccepted, HeldAccepted, AtDeadline,
      DeadlineEnd;
  }

  lemma StepSlots(c: Config, s: Session, m: Move, follow: bool)
    requires Shaped(c, s) && AllOnePhase(s.slots)
    ensures var r := Step(c, s, m, follow); AllOnePhase(r.slots) && NoneRebinds(s.slots, r.slots)
  {
    hide Decide, FollowTurn, GiveBackAndEnd, Posture;
    if s.status.Running? {
      match m
      case TurnAt(at, cancel, sinkOk) =>
        if follow { FollowSlots(c, s, at, cancel, sinkOk); } else { DecideSlots(c, s, at, cancel, sinkOk); }
      case CollectFails => EndingTurnSlots(c, s, s.pending, Failure(ObserverFault));
      case PostureCheck(at) =>
        if Posture(c.rs, c.request, at).Some? {
          EndingTurnSlots(c, s, s.pending, Failure(Posture(c.rs, c.request, at).value));
        }
      case _ =>
    }
  }

  lemma {:induction false} RunKeepsOnePhase(c: Config, s: Session, moves: seq<Move>, follow: bool)
    requires Shaped(c, s) && AllOnePhase(s.slots)
    ensures AllOnePhase(Run(c, s, moves, follow).slots)
    decreases |moves|
  {
    hide Step, AllOnePhase;
    if moves != [] {
      StepSlots(c, s, moves[0], follow);
      RunKeepsOnePhase(c, Step(c, s, moves[0], follow), moves[1..], follow);
    }
  }

  lemma StartOnePhase(c: Config, queues: seq<seq<Event>>)
    requires |queues| == |c.rs.registrations|
    ensures AllOnePhase(Start(c, queues).slots)
  {
  }

  /** Every reachable slot is in one phase, in every run of either runner. */
  lemma RunOnePhase(c: Config, queues: seq<seq<Event>>, moves: seq<Move>, follow: bool)
    requires |queues| == |c.rs.registrations|
    ensures AllOnePhase(Run(c, Start(c, queues), moves, follow).slots)
  {
    StartOnePhase(c, queues);
    RunKeepsOnePhase(c, Start(c, queues), moves, follow);
  }

  /** The bind of arm `i` comes in. */
  predicate Binds(s: Session, m: Move, i: nat)
    requires i < |s.slots|
  {
    s.status.Running? && m == BindReady(i) && s.slots[i].binding && s.slots[i].harvested.None?
  }

  function BindCount(c: Config, s: Session, moves: seq<Move>, follow: bool, i: nat): nat
    requires Shaped(c, s) && i < |s.slots|
    decreases |moves|
  {
    if moves == [] then 0
    else (if Binds(s, moves[0], i) then 1 else 0) + BindCount(c, Step(c, s, moves[0], follow), moves[1..], follow, i)
  }

  lemma StepBinds(c: Config, s: Session, m: Move, follow: bool, i: nat)
    requires Shaped(c, s) && i < |s.slots| && Binds(s, m, i)
    ensures !Step(c, s, m, follow).slots[i].binding
  {
  }

  lemma {:induction false} BindsLeft(c: Config, s: Session, moves: seq<Move>, follow: bool, i: nat)
    requires Shaped(c, s) && i < |s.slots| && AllOnePhase(s.slots)
    ensures BindCount(c, s, moves, follow, i) <= if s.slots[i].binding then 1 else 0
    decreases |moves|
  {
    hide Step, AllOnePhase;
    if moves != [] {
      StepSlots(c, s, moves[0], follow);
      if Binds(s, moves[0], i) {
        StepBinds(c, s, moves[0], follow, i);
      }
      BindsLeft(c, Step(c, s, moves[0], follow), moves[1..], follow, i);
    }
  }

  /** Each registration is bound at most once per session, however it runs. */
  lemma BoundAtMostOnce(c: Config, queues: seq<seq<Event>>, moves: seq<Move>, follow: bool, i: nat)
    requires |queues| == |c.rs.registrations| && i < |queues|
    ensures BindCount(c, Start(c, queues), moves, follow, i) <= 1
  {
    StartOnePhase(c, queues);
    BindsLeft(c, Start(c, queues), moves, follow, i);
  }

  // ----- One observation a turn -----

  /** A move within a turn: nothing decides and nothing is re-armed. */
  predicate WithinTurn(m: Move) {
    !m.TurnAt? && !m.RearmIdle? && !m.PostureCheck? && !m.CollectFails?
  }

  /** Arm `i` yields an observation. */
  predicate Yields(s: Session, r: Session, i: nat)
    requires i < |s.slots| == |r.slots|
  {
    s.slots[i].harvested.None? && r.slots[i].harvested.Some?
  }

  function YieldCount(c: Config, s: Session, moves: seq<Move>, follow: bool, i: nat): nat
    requires Shaped(c, s) && i < |s.slots|
    decreases |moves|
  {
    if moves == [] then 0
    else
      var next := Step(c, s, moves[0], follow);
      (if Yields(s, next, i) then 1 else 0) + YieldCount(c, next, moves[1..], follow, i)
  }

  lemma HarvestStays(c: Config, s: Session, m: Move, follow: bool, i: nat)
    requires Shaped(c, s) && i < |s.slots| && WithinTurn(m) && s.slots[i].harvested.Some?
    ensures Step(c, s, m, follow).slots[i].harvested == s.slots[i].harvested
  {
  }

  /** Within a turn each slot yields at most one observation, and keeps it. */
  lemma {:induction false} OneObservationPerTurn(c: Config, s: Session, moves: seq<Move>, follow: bool, i: nat)
    requires Shaped(c, s) && i < |s.slots| && forall m :: m in moves ==> WithinTurn(m)
    ensures YieldCount(c, s, moves, follow, i) <= if s.slots[i].harvested.Some? then 0 else 1
    ensures s.slots[i].harvested.Some? ==> Run(c, s, moves, follow).slots[i].harvested == s.slots[i].harvested
    decreases |moves|
  {
    hide Step;
    if moves != [] {
      if s.slots[i].harvested.Some? {
        HarvestStays(c, s, moves[0], follow, i);
      }
      OneObservationPerTurn(c, Step(c, s, moves[0], follow), moves[1..], follow, i);
    }
  }

  /** A turn of either runner that continues leaves no slot with an observation, and
      has asked every bound one for its next. */
  lemma ContinuingTurnAsksAll(c: Config, s: Session, at: Instant, cancelled: bool, sinkOk: bool, follow: bool, i: nat)
    requires Shaped(c, s) && s.status.Running? && i < |s.slots|
    requires Step(c, s, TurnAt(at, cancelled, sinkOk), follow).status.Running?
    ensures var r := Step(c, s, TurnAt(at, cancelled, sinkOk), follow).slots[i];
            r.harvested.None? && r.bound == s.slots[i].bound && (r.bound ==> r.waiting)
  {
    hide ApplyTurn, EventsOf, FirstTerminal, DeadlineEnd, Posture, GiveBackAll, GiveBackHeld, PushAll, AtDeadline,
      AllAccepted, HeldAccepted;
  }

  // ----- A sink that refuses -----

  /** When the sink refuses, the session ends there: nothing more is asked of any
      arm, no queue changes, and what was sunk before stays as it was. */
  lemma SinkRefusalArmsNothing(c: Config, s: Session, now: Instant, cancelled: bool, sinkOk: bool, follow: bool)
    requires Shaped(c, s) && AllOnePhase(s.slots)
    requires Step(c, s, TurnAt(now, cancelled, sinkOk), follow).status == Ended(Failure(SinkRefused))
             && s.status.Running?
    ensures var r := Step(c, s, TurnAt(now, cancelled, sinkOk), follow);
            NoneRearmed(s.slots, r.slots) && r.queues == s.queues && r.sunk == s.sunk && !sinkOk
  {
    hide PushAll, PushQuiet, EventsOf, FirstTerminal, GiveBackAll, GiveBackHeld, AllAccepted, HeldAccepted, AtDeadline,
      DeadlineEnd;
    if follow {
      FollowSlots(c, s, now, cancelled, sinkOk);
    } else {
      DecideSlots(c, s, now, cancelled, sinkOk);
      assert s.sunk + [] == s.sunk;
    }
  }

  // ----- Labels -----

  /** With distinct registration ids, and events that carry the id of the arm they
      come from, every stream is labelled. */
  lemma OwnIdsAreLabels(rs: RegistrationSet, events: seq<Event>, i: nat)
    requires i < |rs.registrations|
    requires forall j, k :: 0 <= j < k < |rs.registrations| ==> rs.registrations[j].id != rs.registrations[k].id
    requires forall e :: e in events ==> e.registrationId == rs.registrations[i].id
    ensures Labelled(rs, events, i)
  {
    forall e | e in events ensures IndexOf(rs.registrations, e.registrationId) == Some(i) {
      var at := IndexOf(rs.registrations, e.registrationId);
      assert at.Some?;
      assert at.value == i;
    }
  }
}
