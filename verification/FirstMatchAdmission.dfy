/** Live outcomes against the admission rules: for every run, exactly when an
    outcome passes each of them. */
module FirstMatchAdmission {
  import opened Wrappers
  import opened Seam
  import opened Messages
  import opened FirstMatch
  import opened FirstMatchProofs

  /** A cancellation after a lease; or a deadline after a lease that either finds a
      required bind missing or is let through by the later reading of the clock. */
  predicate LeaseSlips(c: Config, s: State, input: Input)
    requires Shaped(c, s)
  {
    match input
    case CancelAt(now) => LeaseExpired(c.rs, now)
    case HeadDeadline(decideAt, finishAt) => DeadlineSlips(c, s, decideAt, finishAt)
    case DeadlineWake(now, _) => DeadlineSlips(c, s, now, now)
    case _ => false
  }

  predicate DeadlineSlips(c: Config, s: State, decideAt: Instant, finishAt: Instant)
    requires Shaped(c, s)
  {
    LeaseExpired(c.rs, decideAt) && (!RequiredBound(c, s.starts) || PostureReject(c, finishAt).None?)
  }

  /** A deadline is reached with no registration required, and nothing else to say. */
  predicate QuietSlips(c: Config, s: State, input: Input)
    requires Shaped(c, s)
  {
    match input
    case HeadDeadline(_, finishAt) => !HasRequired(c.rs) && PostureReject(c, finishAt).None?
    case DeadlineWake(now, _) =>
      && !HasRequired(c.rs) && PostureReject(c, now).None?
      && forall p | p in HarvestAt(c, s, input) :: p.1.Idle?
    case _ => false
  }

  predicate HasRoom(rs: RegistrationSet, e: Event) {
    1 <= rs.maxEvents && forall r | r in rs.registrations && r.id == e.registrationId :: 1 <= r.maxEvents
  }

  /** The harvest has an event and no overflow, posture lets it pass, and there is no
      room for even that one. */
  predicate EventSlips(c: Config, decideAt: Instant, finishAt: Instant, ready: seq<Entry>) {
    && Winner(ready).Some? && !AnyOverflow(ready)
    && PostureReject(c, decideAt).None? && PostureReject(c, finishAt).None?
    && !HasRoom(c.rs, Winner(ready).value.1)
  }

  predicate BoundsSlip(c: Config, s: State, input: Input)
    requires Shaped(c, s)
  {
    match input
    case RaceReady(decideAt, finishAt, _, _) => EventSlips(c, decideAt, finishAt, HarvestAt(c, s, input))
    case DeadlineWake(now, _) => EventSlips(c, now, now, HarvestAt(c, s, input))
    case _ => false
  }

  /** The admission rules of one live outcome, each met unless something slipped. */
  ghost predicate MeetsRules(c: Config, quietSlips: bool, leaseSlips: bool, boundsSlip: bool, o: Outcome) {
    && Authenticated(c.rs, c.request.hasReceipt, o)
    && (Normative(o) <==> !quietSlips)
    && (WithinLeases(c.rs, o) <==> !leaseSlips)
    && (WithinBounds(c.rs, o) <==> !boundsSlip)
  }

  /** It reports one event, and there is no room for it. */
  predicate Overfull(rs: RegistrationSet, o: Outcome) {
    o.kind.Events? && o.events != [] && !HasRoom(rs, o.events[0])
  }

  lemma BoundsOfOne(rs: RegistrationSet, o: Outcome)
    requires |o.events| <= 1 && (o.events != [] ==> o.kind.Events? || o.kind.Partial?) && !o.kind.CoverageDegraded?
    ensures WithinBounds(rs, o) <==> !Overfull(rs, o)
  {
    if o.events != [] {
      var e := o.events[0];
      assert o.events == [e] && [e][..0] == [];
      forall id ensures |WithId(o.events, id)| == if e.registrationId == id then 1 else 0 {
        assert WithId([], id) == [];
      }
    } else {
      assert forall id :: WithId([], id) == [];
    }
  }

  /** Finishing an outcome that was decided with no lease expired. */
  lemma FinishedMeets(c: Config, finishAt: Instant, o: Outcome)
    requires |o.events| <= 1 && (o.events != [] ==> o.kind.Events? || o.kind.Partial?)
    requires !LeaseExpired(c.rs, o.completedAt) && !o.kind.CoverageDegraded?
    requires Normative(o) <==> (IsQuiet(o.kind) ==> HasRequired(c.rs))
    ensures var passes := Unsuccessful(o.kind) || PostureReject(c, finishAt).None?;
            MeetsRules(c, IsQuiet(o.kind) && !HasRequired(c.rs) && passes, false, Overfull(c.rs, o) && passes,
                       Finish(c, finishAt, o))
  {
    BoundsOfOne(c.rs, o);
    BoundsOfOne(c.rs, Finish(c, finishAt, o));
    hide WithinBounds, HasRoom, HasRequired;
  }

  /** An outcome without a result is returned as it is. */
  lemma UnsuccessfulMeets(c: Config, o: Outcome)
    requires Unsuccessful(o.kind) && o.events == []
    ensures MeetsRules(c, false, LeaseExpired(c.rs, o.completedAt) && !o.kind.ReauthenticationRequired?, false, o)
  {
    BoundsOfOne(c.rs, o);
    hide WithinBounds, HasRoom, HasRequired;
  }

  lemma SettleMeets(c: Config, s: State, decideAt: Instant, finishAt: Instant, ready: seq<Entry>,
                    starts: seq<Option<Id>>)
    requires Shaped(c, s) && |starts| == |s.starts| && s.done.None?
    requires var r := Settle(c, s, decideAt, finishAt, ready, starts); r.done.Some? && r.done.value.Success?
    ensures MeetsRules(c, false, false, EventSlips(c, decideAt, finishAt, ready),
                       Settle(c, s, decideAt, finishAt, ready, starts).done.value.value)
  {
    DecisionReportsWinner(c, decideAt, ready, starts);
    var o := Decide(c, decideAt, ready, starts).value;
    assert o.completedAt == decideAt && (o.events != [] ==> o.events[0] == Winner(ready).value.1);
    var rejected := PostureReject(c, decideAt);
    if rejected.Some? {
      UnsuccessfulMeets(c, rejected.value);
    } else {
      hide Decide, MeetsRules, HasRequired, Restore, AfterHarvest, HasRoom, Winner, AnyOverflow;
      FinishedMeets(c, finishAt, o);
    }
  }

  lemma DeadlineMeets(c: Config, s: State, decideAt: Instant, finishAt: Instant)
    requires Shaped(c, s) && TerminalDeadline(c, decideAt, s.starts).Some?
    ensures MeetsRules(c, !HasRequired(c.rs) && PostureReject(c, finishAt).None?,
                       DeadlineSlips(c, s, decideAt, finishAt), false,
                       Finish(c, finishAt, TerminalDeadline(c, decideAt, s.starts).value))
  {
    var o := TerminalDeadline(c, decideAt, s.starts).value;
    if o.kind.FailedKind? {
      UnsuccessfulMeets(c, o);
    } else {
      DeadlineOutcomeNormativeIff(c, decideAt, s.starts);
      assert o.completedAt == decideAt && o.events == [] && RequiredBound(c, s.starts);
      hide TerminalDeadline, RequiredBound, Normative;
      if !LeaseExpired(c.rs, decideAt) {
        FinishedMeets(c, finishAt, o);
      } else if PostureReject(c, finishAt).Some? {
        UnsuccessfulMeets(c, PostureReject(c, finishAt).value);
      } else {
        BoundsOfOne(c.rs, o);
      }
    }
  }

  /** Whatever the step that ends a run: the outcome is authenticated, and it meets
      the other rules exactly unless that input, at the state it met, slips them. */
  lemma EndingStepMeets(c: Config, s: State, input: Input)
    requires Shaped(c, s) && s.done.None? && HeldInOrder(s)
    requires var r := Step(c, s, input); r.done.Some? && r.done.value.Success?
    ensures MeetsRules(c, QuietSlips(c, s, input), LeaseSlips(c, s, input), BoundsSlip(c, s, input),
                       Step(c, s, input).done.value.value)
  {
    hide Ready, MeetsRules, RaceOver, AfterHarvest, Restore, Decide, TerminalDeadline, PostureReject, EventSlips;
    match input
    case CancelAt(now) =>
      UnsuccessfulMeets(c, Plain(Cancelled, now, Some("consumer_cancelled")));
    case HeadDeadline(decideAt, finishAt) => DeadlineMeets(c, s, decideAt, finishAt);
    case RaceReady(decideAt, finishAt, raced, polled) =>
      var starts := if s.bound then s.starts else StartsOf(s, raced);
      SettleMeets(c, s, decideAt, finishAt, HarvestAt(c, s, input), starts);
    case DeadlineWake(now, polled) => WakeMeets(c, s, now, polled);
    case _ =>
  }

  lemma WakeMeets(c: Config, s: State, now: Instant, polled: seq<Option<Answer>>)
    requires Shaped(c, s) && s.done.None? && HeldInOrder(s)
    requires var r := Step(c, s, DeadlineWake(now, polled)); r.done.Some? && r.done.value.Success?
    ensures var input := DeadlineWake(now, polled);
            MeetsRules(c, QuietSlips(c, s, input), LeaseSlips(c, s, input), BoundsSlip(c, s, input),
                       Step(c, s, input).done.value.value)
  {
    var input := DeadlineWake(now, polled);
    var ready := HarvestAt(c, s, input);
    UndecidedIffIdle(c, now, ready, s.starts);
    WinnerIsLowest(ready);
    hide Ready, MeetsRules, AfterHarvest, Restore, Decide, TerminalDeadline, Winner, PostureReject, HasRoom;
    if s.bound && Settle(c, s, now, now, ready, s.starts).done.Some? {
      SettleMeets(c, s, now, now, ready, s.starts);
      assert !QuietSlips(c, s, input) && !DeadlineSlips(c, s, now, now);
    } else {
      assert forall p :: p in ready ==> p.1.Idle?;
      DeadlineMeets(c, s, now, now);
    }
  }

  // ----- Whole runs -----

  /** Every live run that returns an outcome returns it at one input, and that input,
      at the state it met, decides which of the rules the outcome meets. */
  lemma RunMeetsRules(c: Config, s: State, inputs: seq<Input>) returns (k: nat)
    requires Shaped(c, s) && s.done.None? && HeldInOrder(s)
    requires var r := Run(c, s, inputs); r.done.Some? && r.done.value.Success?
    ensures k < |inputs|
    ensures var before, input := Run(c, s, inputs[..k]), inputs[k];
            && before.done.None? && Step(c, before, input).done == Run(c, s, inputs).done
            && MeetsRules(c, QuietSlips(c, before, input), LeaseSlips(c, before, input), BoundsSlip(c, before, input),
                          Run(c, s, inputs).done.value.value)
  {
    hide MeetsRules, QuietSlips, LeaseSlips, BoundsSlip, Run, Step, HeldInOrder;
    k := EndsOnce(c, s, inputs);
    RunHoldsInOrder(c, s, inputs[..k]);
    EndingStepMeets(c, Run(c, s, inputs[..k]), inputs[k]);
  }

  lemma OneStep(c: Config, s: State, input: Input)
    requires Shaped(c, s)
    ensures Run(c, s, [input]) == Step(c, s, input)
  {
    hide Step;
    assert [input][1..] == [];
  }

  predicate RoomForOne(rs: RegistrationSet) {
    1 <= rs.maxEvents && forall r | r in rs.registrations :: 1 <= r.maxEvents
  }

  /** The same from the start of a run; and what a caller can see to beforehand: with
      room for one event the bounds are always met, and with a required registration
      the outcome is always normative. */
  lemma LiveOutcomeMeets(c: Config, queues: seq<seq<Event>>, inputs: seq<Input>) returns (k: nat)
    requires |queues| == |c.rs.registrations|
    requires var r := Run(c, Start(c, queues), inputs); r.done.Some? && r.done.value.Success?
    ensures k < |inputs|
    ensures var before, input := Run(c, Start(c, queues), inputs[..k]), inputs[k];
            var r := Run(c, Start(c, queues), inputs);
            && before.done.None? && Step(c, before, input).done == r.done
            && MeetsRules(c, QuietSlips(c, before, input), LeaseSlips(c, before, input), BoundsSlip(c, before, input),
                          r.done.value.value)
            && (RoomForOne(c.rs) ==> WithinBounds(c.rs, r.done.value.value))
            && (HasRequired(c.rs) ==> Normative(r.done.value.value))
  {
    hide Run, Step, LeaseSlips, HarvestAt, Normative, WithinLeases, Authenticated, WithinBounds, HasRequired,
      PostureReject;
    k := RunMeetsRules(c, Start(c, queues), inputs);
  }

  // ----- Runs in which a rule fails -----

  function OneArm(required: bool, maxEvents: u64): Config {
    Config(RegistrationSet([Registration("reg:a", required, 10, maxEvents, 100, None, None)], false, maxEvents, 100),
           Request(5, 5, false), (_, _) => true)
  }

  /** Without a required registration no bind holds the deadline up, and its quiet
      outcome is refused. */
  lemma NoRequiredBindIsRefused()
    ensures var r := Run(OneArm(false, 1), Start(OneArm(false, 1), [[]]), [HeadDeadline(5, 5)]);
            r.done.Some? && r.done.value.Success? && IsQuiet(r.done.value.value.kind) && !Normative(r.done.value.value)
  {
    var c := OneArm(false, 1);
    var s := Start(c, [[]]);
    OneStep(c, s, HeadDeadline(5, 5));
    assert TerminalDeadline(c, 5, s.starts).Some? && RequiredBound(c, s.starts);
    DeadlineOutcomeNormativeIff(c, 5, s.starts);
  }

  /** A cancellation after the lease is returned as it is. */
  lemma CancelledPastLease()
    ensures var r := Run(OneArm(true, 1), Start(OneArm(true, 1), [[]]), [CancelAt(11)]);
            r.done.Some? && r.done.value.Success? && !WithinLeases(OneArm(true, 1).rs, r.done.value.value)
  {
    var c := OneArm(true, 1);
    OneStep(c, Start(c, [[]]), CancelAt(11));
    assert c.rs.registrations[0] in c.rs.registrations;
  }

  /** The runner reports an event that bounds of zero do not allow. */
  lemma ZeroBoundExceeded()
    ensures var c := OneArm(true, 0);
            var r := Run(c, Start(c, [[GAP_EVENT]]), [BindResolved(0, "a0"), RaceReady(2, 2, [Some(Head)], [None])]);
            r.done.Some? && r.done.value.Success? && !WithinBounds(c.rs, r.done.value.value)
  {
    hide Settle, Ready, Restore, WithinBounds;
    var c, race := OneArm(true, 0), RaceReady(2, 2, [Some(Head)], [None]);
    var inputs := [BindResolved(0, "a0"), race];
    assert inputs[1..] == [race] && inputs[1..][1..] == [];
    assert Step(c, Start(c, [[GAP_EVENT]]), BindResolved(0, "a0")) == GAP_STATE;
    GapHarvest();
    var ready := [(0, Observed(GAP_EVENT))];
    ZeroBoundSettles(c, ready);
    assert Step(c, GAP_STATE, race) == Settle(c, GAP_STATE, 2, 2, ready, GAP_STATE.starts);
    assert Run(c, Start(c, [[GAP_EVENT]]), inputs) == Run(c, GAP_STATE, [race]);
    assert Run(c, GAP_STATE, [race]) == Run(c, Step(c, GAP_STATE, race), []);
  }

  lemma ZeroBoundSettles(c: Config, ready: seq<Entry>)
    requires c == OneArm(true, 0) && ready == [(0, Observed(GAP_EVENT))]
    ensures var r := Settle(c, GAP_STATE, 2, 2, ready, GAP_STATE.starts);
            r.done.Some? && r.done.value.Success? && !WithinBounds(c.rs, r.done.value.value)
  {
    GapRestores(c, 2, 2, ready);
    WinnerIsLowest(ready);
    assert ready[0] in ready;
    var o := EventsOutcome(2, GAP_EVENT);
    assert Decide(c, 2, ready, GAP_STATE.starts) == Some(o);
    BoundsOfOne(c.rs, o);
  }
}
