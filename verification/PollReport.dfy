/** What an outcome says, over every run of a cycle: its kind and reason from
    what the arms showed, and each arm of it from that arm's visit. The table of
    poll_cycle.rs is stated here anew, by what holds of the visits a run ended with. */
module PollReport {
  import opened Wrappers
  import opened Seam
  import opened Messages
  import opened PollBudget
  import opened PollCycle
  import opened PollCustody
  import opened PollOutcomes
  import opened PollVisits

  // ----- How a run ends -----

  /** When the happening that ends a cycle took place. */
  function TimeOf(e: Happening): Instant {
    match e
    case Cancels(now) => now
    case DeadlineSeen(now) => now
    case ObserveReady(now, _, _, _) => now
    case BindReady(now, _, _, _) => now
    case DeadlineWakes(now, _, _) => now
    case _ => 0
  }

  /** A deadline that finds a required registration without its bind. */
  predicate BindMissing(c: Setup, starts: Starts, e: Happening)
    requires |starts| == c.Arms()
  {
    && (e.DeadlineSeen? || e.DeadlineWakes?)
    && exists i :: 0 <= i < c.Arms() && c.Regs()[i].required && starts[i].None?
  }

  /** The cycle is over before its visits could decide anything. */
  predicate CutShort(c: Setup, starts: Starts, e: Happening)
    requires |starts| == c.Arms()
  {
    e.Cancels? || BindMissing(c, starts, e)
  }

  function ToldVisits(c: Setup, r: Cycle, e: Happening): (visits: Visits)
    requires Fitting(c, r)
    ensures |visits| == c.Arms()
  {
    if CutShort(c, r.starts, e) then r.visits else Filled(r.visits)
  }

  function ToldKind(c: Setup, r: Cycle, e: Happening): (Kind, Option<Id>)
    requires Fitting(c, r)
  {
    if e.Cancels? then (Cancelled, Some("consumer_cancelled"))
    else if BindMissing(c, r.starts, e) then (FailedKind, Some("required_bind_pending"))
    else DecideKind(c, TimeOf(e), Filled(r.visits))
  }

  function Told(c: Setup, r: Cycle, e: Happening): Result<PollOutcome, CycleError>
    requires Fitting(c, r)
  {
    Build(c, TimeOf(e), r.starts, ToldVisits(c, r, e), ToldKind(c, r, e).0, ToldKind(c, r, e).1)
  }

  lemma FilledIsWhole(visits: Visits)
    requires AllVisited(visits)
    ensures Filled(visits) == visits
  {
  }

  lemma DeadlineTold(c: Setup, r: Cycle, e: Happening)
    requires Fitting(c, r) && (e.DeadlineSeen? || e.DeadlineWakes?)
    ensures AtDeadline(c, TimeOf(e), r.starts, r.visits) == Finished(c, Told(c, r, e))
  {
    hide Build, DecideKind, Finished, Filled;
  }

  lemma AssembledTold(c: Setup, r: Cycle, e: Happening)
    requires Fitting(c, r) && (e.ObserveReady? || e.BindReady?) && AllVisited(r.visits)
    ensures Assemble(c, TimeOf(e), r.starts, r.visits) == Finished(c, Told(c, r, e))
  {
    FilledIsWhole(r.visits);
    hide Build, DecideKind, Finished, Filled;
  }

  lemma EmittedOutcome(c: Setup, s: Cycle, outcome: Result<PollOutcome, CycleError>)
    requires Fitting(c, s)
    ensures var r := Emit(c, s, outcome);
            && r.visits == s.visits && r.starts == s.starts && r.done.Some?
            && (r.done.value.Success? ==> r.done.value == outcome)
  {
    hide RestoreAdmitted;
  }

  lemma CancelTold(c: Setup, r: Cycle, now: Instant)
    requires Fitting(c, r)
    ensures Told(c, r, Cancels(now)) == Build(c, now, r.starts, r.visits, Cancelled, Some("consumer_cancelled"))
  {
    hide Build;
  }

  lemma TimesOf(now: Instant, raced: seq<Option<Answer>>, binds: Starts, polled: seq<Option<Answer>>,
                supplies: seq<Supply>)
    ensures TimeOf(DeadlineSeen(now)) == TimeOf(ObserveReady(now, raced, polled, supplies)) == now
    ensures TimeOf(BindReady(now, binds, polled, supplies)) == TimeOf(DeadlineWakes(now, polled, supplies)) == now
  {
  }

  lemma RecordedOutcome(c: Setup, s: Cycle, ready: Harvest, supplies: seq<Supply>)
    requires Fitting(c, s) && s.done.None? && |ready| == |supplies| == c.Arms()
    ensures var r := Recorded(c, s, ready, supplies);
            r.starts == s.starts && (r.done.Some? ==> r.done.value.Failure?)
  {
    hide Record;
  }

  lemma CompleteTold(c: Setup, r: Cycle, e: Happening)
    requires Fitting(c, r) && (e.ObserveReady? || e.BindReady?) && (r.done.Some? ==> r.done.value.Failure?)
    ensures var last := IfComplete(c, r, TimeOf(e));
            last.done.Some? && last.done.value.Success? ==> last.done.value == Finished(c, Told(c, last, e))
  {
    hide Emit, Assemble, Finished, Told;
    if r.done.None? && AllVisited(r.visits) {
      EmittedOutcome(c, r, Assemble(c, TimeOf(e), r.starts, r.visits));
      AssembledTold(c, Emit(c, r, Assemble(c, TimeOf(e), r.starts, r.visits)), e);
    }
  }

  /** The outcome of a cycle, from the happening that ended it. */
  lemma EndingTold(c: Setup, s: Cycle, e: Happening)
    requires Fitting(c, s) && s.done.None?
    requires Next(c, s, e).done.Some? && Next(c, s, e).done.value.Success?
    ensures !e.Arrives? && !e.ObserveFails? && !e.BindFails?
    ensures Next(c, s, e).done.value == Finished(c, Told(c, Next(c, s, e), e))
  {
    hide Emit, Recorded, RestoreLeftover, AtDeadline, Assemble, Build, HarvestOf, Extended, ObserveOver, BindsSome,
      StartsMismatch, WithBinds, Pending, Occupied, Popped, Finished, DecideKind, Filled, BindMissing, IfComplete,
      TimeOf, Told;
    match e
    case Cancels(now) =>
      EmittedOutcome(c, s, Finished(c, Build(c, now, s.starts, s.visits, Cancelled, Some("consumer_cancelled"))));
      CancelTold(c, Next(c, s, e), now);
    case DeadlineSeen(now) =>
      EmittedOutcome(c, s, AtDeadline(c, now, s.starts, s.visits));
      DeadlineTold(c, Next(c, s, e), e);
      TimesOf(now, [], [], [], []);
    case ObserveReady(now, raced, polled, supplies) =>
      var ready := Extended(HarvestOf(s.queues, raced, Pending(s)), HarvestOf(s.queues, polled, Pending(s)));
      RecordedOutcome(c, s, ready, supplies);
      CompleteTold(c, Recorded(c, s, ready, supplies), e);
      TimesOf(now, raced, [], polled, supplies);
    case BindReady(now, binds, polled, supplies) =>
      EmittedOutcome(c, s, Failure(BindStartMismatch));
      var bound := s.(starts := WithBinds(s, binds));
      var ready := HarvestOf(s.queues, polled, Occupied(bound));
      RecordedOutcome(c, bound, ready, supplies);
      CompleteTold(c, Recorded(c, bound, ready, supplies), e);
      TimesOf(now, [], binds, polled, supplies);
    case DeadlineWakes(now, polled, supplies) =>
      var ready := HarvestOf(s.queues, polled, Pending(s));
      var r := Recorded(c, s, ready, supplies);
      RecordedOutcome(c, s, ready, supplies);
      EmittedOutcome(c, r, AtDeadline(c, now, r.starts, r.visits));
      DeadlineTold(c, Next(c, s, e), e);
      TimesOf(now, [], [], polled, supplies);
    case ObserveFails(raced) =>
      var ready := HarvestOf(s.queues, raced, Pending(s));
      var back := RestoreLeftover(c, Gathered(s).(queues := Popped(s.queues, ready)), ready,
                                  seq(c.Arms(), _ => Some(IdleVisit)), 0);
      EmittedOutcome(c, s.(queues := back.queues), Failure(Arm));
    case BindFails => EmittedOutcome(c, s, Failure(Arm));
    case _ =>
  }

  // ----- The kind of an outcome, from what the arms showed -----

  /** What the arms of a cycle showed, taken together. */
  datatype Showing = Showing(
    events: bool,
    overflow: bool,
    requiredDirty: bool,
    failed: bool,
    more: bool,
    requiredWaits: bool)

  /** `x` is what the visits of a run say. A required arm waits when its turn was
      deferred, or when it was not reached while others had events. */
  ghost predicate Shows(c: Setup, visits: Visits, x: Showing)
    requires |visits| == c.Arms()
  {
    && (x.events <==> exists i :: 0 <= i < c.Arms() && visits[i].Some? && visits[i].value.Admitted?)
    && (x.overflow <==> exists i :: 0 <= i < c.Arms() && visits[i].Some? && visits[i].value.OverflowVisit?)
    && (x.requiredDirty <==> exists i :: 0 <= i < c.Arms() && c.Regs()[i].required && visits[i].Some?
                              && (visits[i].value.OutageVisit? || visits[i].value.UncertainVisit?
                                  || visits[i].value.DegradedVisit?))
    && (x.failed <==> exists i :: 0 <= i < c.Arms() && visits[i].Some? && visits[i].value.FailedVisit?)
    && (x.more <==> exists i :: 0 <= i < c.Arms() && visits[i].Some? && visits[i].value.Admitted?
                                && visits[i].value.saturated)
    && (x.requiredWaits <==> exists i :: 0 <= i < c.Arms() && c.Regs()[i].required
                              && if visits[i].Some? then visits[i].value.DeferredVisit? else x.events)
  }

  /** `reason` is that of the failed arm which comes last in fairness order. */
  ghost predicate LastFailure(c: Setup, visits: Visits, reason: Id)
    requires |visits| == c.Arms()
  {
    exists k :: 0 <= k < c.Arms() && visits[Order(c)[k]] == Some(FailedVisit(reason))
                && forall l :: k < l < c.Arms() ==> !FailedArm(visits[Order(c)[l]])
  }

  predicate FailedArm(v: Option<Visit>) {
    v.Some? && v.value.FailedVisit?
  }

  lemma {:induction false} LastFailedOf(visits: Visits, order: seq<nat>)
    requires Indices(order, |visits|)
    ensures LastFailed(visits, order).None? ==> forall l :: 0 <= l < |order| ==> !FailedArm(visits[order[l]])
    ensures LastFailed(visits, order).Some? ==>
              exists k :: 0 <= k < |order| && visits[order[k]] == Some(FailedVisit(LastFailed(visits, order).value))
                          && forall l :: k < l < |order| ==> !FailedArm(visits[order[l]])
  {
    if order != [] {
      var n := |order| - 1;
      var front := order[..n];
      LastFailedOf(visits, front);
      if FailedArm(visits[order[n]]) {
        assert visits[order[n]] == Some(FailedVisit(LastFailed(visits, order).value));
      } else if LastFailed(visits, front).Some? {
        var k :| 0 <= k < |front| && visits[front[k]] == Some(FailedVisit(LastFailed(visits, front).value))
                 && forall l :: k < l < |front| ==> !FailedArm(visits[front[l]]);
        assert order[k] == front[k];
        assert forall l :: k < l < n ==> order[l] == front[l];
      } else {
        assert forall l :: 0 <= l < n ==> order[l] == front[l];
      }
    }
  }

  /** The tests of the decision table, on filled visits. */
  lemma TestsShow(c: Setup, visits: Visits, x: Showing)
    requires |visits| == c.Arms() && Shows(c, visits, x)
    requires forall i :: 0 <= i < |visits| && visits[i].Some? && visits[i].value.Admitted? ==>
               visits[i].value.events != []
    ensures var v := Filled(visits);
            && (SawEvents(v) <==> x.events) && (SawOverflow(v) <==> x.overflow)
            && (RequiredDirty(c, v) <==> x.requiredDirty) && (Truncated(v) <==> x.more)
            && (RequiredDeferred(c, v) <==> x.requiredWaits) && (SawFailure(v) <==> x.failed)
  {
    var v := Filled(visits);
    assert SawEvents(visits) <==> x.events by {
      if SawEvents(visits) {
        var i :| 0 <= i < |visits| && EventsIn(visits[i]) != [];
      }
      if x.events {
        var i :| 0 <= i < c.Arms() && visits[i].Some? && visits[i].value.Admitted?;
        assert EventsIn(visits[i]) != [];
      }
    }
    hide SawEvents;
    FilledReports(c, visits);
    assert forall i :: 0 <= i < c.Arms() && visits[i].Some? ==> v[i] == visits[i];
    assert forall i :: 0 <= i < c.Arms() && visits[i].None? ==>
        v[i] == Some(if x.events then DeferredVisit else IdleVisit);
  }

  /** Nothing went wrong that the outcome must show. */
  predicate Clean(x: Showing) {
    !x.overflow && !x.requiredDirty && !x.failed
  }

  predicate Fails(x: Showing) {
    !x.events && (x.overflow || (x.failed && !x.requiredDirty))
  }

  predicate Waits(x: Showing, late: bool) {
    if x.events then x.overflow || (Clean(x) && (x.more || x.requiredWaits)) else Clean(x) && x.requiredWaits && !late
  }

  /** The decision table by its rows. */
  lemma TableIff(c: Setup, now: Instant, visits: Visits, x: Showing)
    requires |visits| == c.Arms() && Shows(c, visits, x)
    requires forall i :: 0 <= i < |visits| && visits[i].Some? && visits[i].value.Admitted? ==>
               visits[i].value.events != []
    ensures var (kind, reason) := DecideKind(c, now, Filled(visits));
            var late := now >= c.request.logicalDeadline;
            && (kind.Events? <==> x.events && Clean(x) && !x.more && !x.requiredWaits)
            && (kind.Partial? <==> Waits(x, late))
            && (kind.CoverageDegraded? <==> !x.overflow && (x.requiredDirty || (x.failed && x.events)))
            && (kind.FailedKind? <==> Fails(x))
            && (kind.NoChange? <==> !x.events && Clean(x) && !x.requiredWaits && !late)
            && (kind.LogicalDeadman? <==> !x.events && Clean(x) && late)
            && !kind.Cancelled? && !kind.Refused? && !kind.ReauthenticationRequired?
            && (if !Fails(x) then reason.None?
                else reason.Some?
                     && if x.overflow then reason.value == "buffer_overflow" else LastFailure(c, visits, reason.value))
  {
    var v := Filled(visits);
    TestsShow(c, visits, x);
    MoreHasEvents(c, visits, x);
    OrderCoversOnce(c);
    LastFailedOf(v, Order(c));
    if LastFailed(v, Order(c)).Some? {
      LastFailedIsSeen(v, Order(c));
      LastFailureUnfilled(c, visits, LastFailed(v, Order(c)).value);
    } else if SawFailure(v) {
      var i: nat :| i < |v| && v[i].Some? && v[i].value.FailedVisit?;
      FailedIsSeen(v, Order(c), i);
    }
    hide SawEvents, SawOverflow, RequiredDirty, Truncated, RequiredDeferred, SawFailure, LastFailed, Filled, Order,
      LastFailure, Shows;
  }

  lemma MoreHasEvents(c: Setup, visits: Visits, x: Showing)
    requires |visits| == c.Arms() && Shows(c, visits, x)
    ensures x.more ==> x.events
  {
  }

  lemma LastFailureUnfilled(c: Setup, visits: Visits, reason: Id)
    requires |visits| == c.Arms()
    requires exists k :: 0 <= k < c.Arms() && Filled(visits)[Order(c)[k]] == Some(FailedVisit(reason))
                         && forall l :: k < l < c.Arms() ==> !FailedArm(Filled(visits)[Order(c)[l]])
    ensures LastFailure(c, visits, reason)
  {
    var v, order := Filled(visits), Order(c);
    var k :| 0 <= k < c.Arms() && v[order[k]] == Some(FailedVisit(reason))
             && forall l :: k < l < c.Arms() ==> !FailedArm(v[order[l]]);
    assert visits[order[k]] == v[order[k]];
    forall l | k < l < c.Arms() ensures !FailedArm(visits[order[l]]) {
      assert !FailedArm(v[order[l]]);
      assert visits[order[l]].Some? ==> v[order[l]] == visits[order[l]];
    }
  }

  /** Each kind of outcome, and its reason, from how the run ended and from what
      its arms showed. Posture takes over from every kind that reports a result. */
  ghost predicate KindTold(c: Setup, r: Cycle, e: Happening, x: Showing, o: Outcome)
    requires Fitting(c, r)
  {
    var over := LeaseExpired(c.rs, o.completedAt);
    var unproven := c.rs.authnRequired && !c.request.hasReceipt;
    var late := o.completedAt >= c.request.logicalDeadline;
    var judged := !CutShort(c, r.starts, e) && !Fails(x);
    var stands := judged && !over && !unproven;
    && o.completedAt == TimeOf(e)
    && (o.kind.Cancelled? <==> e.Cancels?)
    && (o.kind.FailedKind? <==> !e.Cancels? && (BindMissing(c, r.starts, e) || Fails(x)))
    && (o.kind.ReauthenticationRequired? <==> judged && over)
    && (o.kind.Refused? <==> judged && !over && unproven)
    && (o.kind.Events? <==> stands && x.events && Clean(x) && !x.more && !x.requiredWaits)
    && (o.kind.Partial? <==> stands && Waits(x, late))
    && (o.kind.CoverageDegraded? <==> stands && !x.overflow && (x.requiredDirty || (x.failed && x.events)))
    && (o.kind.NoChange? <==> stands && !x.events && Clean(x) && !x.requiredWaits && !late)
    && (o.kind.LogicalDeadman? <==> stands && !x.events && Clean(x) && late)
    && match o.kind
       case Cancelled => o.reason == Some("consumer_cancelled")
       case ReauthenticationRequired => o.reason == Some("lease_expired")
       case Refused => o.reason == Some("authn_required")
       case FailedKind =>
         if BindMissing(c, r.starts, e) then o.reason == Some("required_bind_pending")
         else if x.overflow then o.reason == Some("buffer_overflow")
         else o.reason.Some? && LastFailure(c, r.visits, o.reason.value)
       case _ => o.reason.None?
  }

  lemma PostureTold(c: Setup, o: PollOutcome)
    requires !o.base.kind.Refused? && !o.base.kind.ReauthenticationRequired?
    ensures var p := ApplyPosture(c, o).base;
            var over := LeaseExpired(c.rs, o.base.completedAt);
            var unproven := c.rs.authnRequired && !c.request.hasReceipt;
            var stays := o.base.kind.Cancelled? || o.base.kind.FailedKind?;
            && p.completedAt == o.base.completedAt
            && (if stays || (!over && !unproven) then p == o.base
                else if over then p.kind.ReauthenticationRequired? && p.reason == Some("lease_expired")
                else p.kind.Refused? && p.reason == Some("authn_required"))
  {
  }

  lemma BuiltTold(c: Setup, now: Instant, starts: Starts, visits: Visits, kind: Kind, reason: Option<Id>)
    requires c.Arms() == |starts| == |visits| && Build(c, now, starts, visits, kind, reason).Success?
    ensures var o := Build(c, now, starts, visits, kind, reason).value.base;
            o.kind == kind && o.reason == reason && o.completedAt == now
  {
    BuiltBase(c, now, starts, visits, kind, reason);
    hide Build, Records, CoverageComplete, EventsOf;
  }

  /** What posture makes of an outcome of this kind. */
  predicate Postured(c: Setup, kind: Kind, reason: Option<Id>, now: Instant, o: Outcome) {
    var over := LeaseExpired(c.rs, now);
    var unproven := c.rs.authnRequired && !c.request.hasReceipt;
    && o.completedAt == now
    && if kind.Cancelled? || kind.FailedKind? || (!over && !unproven) then o.kind == kind && o.reason == reason
       else if over then o.kind.ReauthenticationRequired? && o.reason == Some("lease_expired")
       else o.kind.Refused? && o.reason == Some("authn_required")
  }

  lemma TableTold(c: Setup, r: Cycle, e: Happening, x: Showing, o: Outcome)
    requires Fitting(c, r) && Shows(c, r.visits, x) && !CutShort(c, r.starts, e)
    requires forall i :: 0 <= i < |r.visits| && r.visits[i].Some? && r.visits[i].value.Admitted? ==>
               r.visits[i].value.events != []
    requires var (kind, reason) := DecideKind(c, TimeOf(e), Filled(r.visits)); Postured(c, kind, reason, TimeOf(e), o)
    ensures KindTold(c, r, e, x, o)
  {
    TableIff(c, TimeOf(e), r.visits, x);
    FailsApart(x);
    hide DecideKind, Filled, Shows, LeaseExpired, BindMissing, Clean, Fails, Waits, LastFailure, TimeOf;
  }

  lemma ShortTold(c: Setup, r: Cycle, e: Happening, x: Showing, o: Outcome)
    requires Fitting(c, r) && CutShort(c, r.starts, e)
    requires var (kind, reason) := ToldKind(c, r, e); Postured(c, kind, reason, TimeOf(e), o)
    ensures KindTold(c, r, e, x, o)
  {
    hide DecideKind, Filled, LeaseExpired, BindMissing, Clean, Fails, Waits, LastFailure, TimeOf;
  }

  lemma EndingPostured(c: Setup, s: Cycle, e: Happening)
    requires Fitting(c, s) && s.done.None?
    requires Next(c, s, e).done.Some? && Next(c, s, e).done.value.Success?
    ensures var r := Next(c, s, e);
            var (kind, reason) := ToldKind(c, r, e);
            Postured(c, kind, reason, TimeOf(e), r.done.value.value.base)
  {
    var r := Next(c, s, e);
    EndingTold(c, s, e);
    var (kind, reason) := ToldKind(c, r, e);
    KindsTold(c, r, e);
    hide Next, Build, DecideKind, ToldKind, ToldVisits, ApplyPosture, LeaseExpired, TimeOf;
    BuiltTold(c, TimeOf(e), r.starts, ToldVisits(c, r, e), kind, reason);
    PostureTold(c, Told(c, r, e).value);
  }

  lemma KindsTold(c: Setup, r: Cycle, e: Happening)
    requires Fitting(c, r)
    ensures !ToldKind(c, r, e).0.Refused? && !ToldKind(c, r, e).0.ReauthenticationRequired?
  {
    hide DecideKind, BindMissing;
    DecidedKind(c, TimeOf(e), Filled(r.visits));
  }

  lemma EndingKind(c: Setup, s: Cycle, e: Happening, x: Showing)
    requires Fitting(c, s) && s.done.None? && VisitsBound(Next(c, s, e))
    requires Next(c, s, e).done.Some? && Next(c, s, e).done.value.Success?
    requires Shows(c, Next(c, s, e).visits, x)
    ensures KindTold(c, Next(c, s, e), e, x, Next(c, s, e).done.value.value.base)
  {
    hide Next, Shows, DecideKind, Postured, KindTold, BindMissing, Filled, TimeOf;
    EndingPostured(c, s, e);
    var r := Next(c, s, e);
    if CutShort(c, r.starts, e) {
      ShortTold(c, r, e, x, r.done.value.value.base);
    } else {
      TableTold(c, r, e, x, r.done.value.value.base);
    }
  }

  lemma FailsApart(x: Showing)
    ensures Fails(x) ==> !x.events && !Clean(x)
    ensures Clean(x) ==> !x.overflow && !x.requiredDirty && !x.failed
    ensures Waits(x, true) || Waits(x, false) ==> !Fails(x)
  {
  }

  /** Over every run: each kind of outcome exactly when the run ended that way and
      its arms showed that, and with that reason. */
  lemma CycleKindIff(c: Setup, queues: seq<seq<Event>>, events: seq<Happening>, x: Showing)
    requires |queues| == c.Arms()
    requires var r := RunCycle(c, Begin(c, queues), events); r.done.Some? && r.done.value.Success?
    requires Shows(c, RunCycle(c, Begin(c, queues), events).visits, x)
    ensures var r := RunCycle(c, Begin(c, queues), events);
            var e := EndOf(c, Begin(c, queues), events).1;
            KindTold(c, r, e, x, r.done.value.value.base)
  {
    BeginJustified(c, queues);
    RunJustified(c, Begin(c, queues), events);
    EndOfEnds(c, Begin(c, queues), events);
    var r := RunCycle(c, Begin(c, queues), events);
    var (s, e) := EndOf(c, Begin(c, queues), events);
    hide Next, RunCycle, Shows, Explains, EndOf;
    SameBound(Next(c, s, e), r);
    EndingKind(c, s, e, x);
    SameTold(c, Next(c, s, e), r, e, x, r.done.value.value.base);
  }

  lemma SameBound(a: Cycle, b: Cycle)
    requires a.visits == b.visits && a.starts == b.starts && |b.visits| == |b.starts| && VisitsBound(b)
    ensures VisitsBound(a)
  {
  }

  lemma SameTold(c: Setup, a: Cycle, b: Cycle, e: Happening, x: Showing, o: Outcome)
    requires Fitting(c, a) && Fitting(c, b) && a.visits == b.visits && a.starts == b.starts && KindTold(c, a, e, x, o)
    ensures KindTold(c, b, e, x, o)
  {
    hide BindMissing, LastFailure;
  }

  // ----- The arms of an outcome, from their visits -----

  /** Arm `i` is in the outcome: somebody knows where it starts. */
  predicate Known(c: Setup, starts: Starts, i: nat)
    requires i < c.Arms() == |starts|
  {
    starts[i].Some? || c.Regs()[i].id in c.request.acknowledged || c.Regs()[i].startAnchor.Some?
  }

  function KnownBefore(c: Setup, starts: Starts, n: nat): (k: nat)
    requires n <= c.Arms() == |starts|
    ensures k <= n
  {
    if n == 0 then 0 else KnownBefore(c, starts, n - 1) + if Known(c, starts, n - 1) then 1 else 0
  }

  /** What arm `a` of an outcome says of arm `i` of the cycle, by the visit `v` of
      that arm, which is none when the arm was not reached. Events are kept when
      the kind of the outcome reports a result. */
  predicate ArmShown(c: Setup, starts: Starts, v: Option<Visit>, kept: bool, i: nat, a: CoverageArm)
    requires i < c.Arms() == |starts|
  {
    var reg := c.Regs()[i];
    var admitted := v.Some? && v.value.Admitted?;
    && a.armId == ArmId(c, i) && a.registrationId == reg.id && a.required == reg.required
    && (a.status.WithEvents? <==> admitted && kept)
    && a.eventCount == (if admitted && kept then |v.value.events| else 0)
    && a.byteCount == (if admitted && kept then TotalBytes(v.value.events) else 0)
    && (a.status.DeferredStatus? <==> v.None? || v.value.DeferredVisit?)
    && (a.status.OutageStatus? <==> v.Some? && v.value.OutageVisit?)
    && (a.status.UncertainStatus? <==> v.Some? && v.value.UncertainVisit?)
    && (a.status.ObservedOnly? <==>
          v.Some? && (v.value.OverflowVisit? || v.value.FailedVisit? || v.value.DegradedVisit?))
    && (a.status.Quiet? <==> v.Some? && (v.value.IdleVisit? || (admitted && !kept)))
    && (a.degraded <==> v.Some? && v.value.DegradedVisit?)
    && a.reason == (if v.None? || v.value.IdleVisit? || v.value.DeferredVisit? then None
                    else if v.value.Admitted? then (if v.value.saturated then Some("bound_exhausted") else None)
                    else if v.value.OverflowVisit? then Some("buffer_overflow")
                    else Some(v.value.reason))
    && (starts[i].Some? ==> a.startAnchor == starts[i].value)
    && (starts[i].None? && reg.id in c.request.acknowledged ==> a.startAnchor == c.request.acknowledged[reg.id])
    && (starts[i].None? && reg.id !in c.request.acknowledged ==> Some(a.startAnchor) == reg.startAnchor)
    && a.proposedNext ==
       (if admitted && v.value.events != [] then v.value.events[|v.value.events| - 1].proposedNext else a.startAnchor)
  }

  /** The same over the visits of a run: unless the cycle was cut short, an arm that
      was not reached is deferred when some arm has events, and else idle. */
  predicate ArmTold(c: Setup, starts: Starts, visits: Visits, cut: bool, kept: bool, i: nat, a: CoverageArm)
    requires i < c.Arms() == |starts| == |visits|
  {
    var others := exists j :: 0 <= j < c.Arms() && visits[j].Some? && visits[j].value.Admitted?;
    var v := if visits[i].Some? || cut then visits[i] else Some(if others then DeferredVisit else IdleVisit);
    ArmShown(c, starts, v, kept, i, a)
  }

  lemma {:induction false} RecordAt(c: Setup, kind: Kind, starts: Starts, visits: Visits, n: nat)
    requires c.Arms() == |starts| == |visits| && n <= c.Arms()
    ensures var records := Records(c, kind, starts, visits, n);
            && |records| == KnownBefore(c, starts, n)
            && forall i :: 0 <= i < n && Known(c, starts, i) ==>
                 && KnownBefore(c, starts, i) < |records|
                 && RecordOf(c, kind, starts, visits, i) == Some(records[KnownBefore(c, starts, i)])
  {
    if n > 0 {
      RecordAt(c, kind, starts, visits, n - 1);
      RecordsUnfold(c, kind, starts, visits, n);
      KnownHasRecord(c, kind, starts, visits, n - 1);
      hide RecordOf, Records, Known;
    }
  }

  lemma KnownHasRecord(c: Setup, kind: Kind, starts: Starts, visits: Visits, i: nat)
    requires i < c.Arms() == |starts| == |visits|
    ensures RecordOf(c, kind, starts, visits, i).Some? <==> Known(c, starts, i)
  {
    hide ArmId, StatusOf;
  }

  lemma RecordShown(c: Setup, kind: Kind, starts: Starts, visits: Visits, i: nat)
    requires i < c.Arms() == |starts| == |visits| && Known(c, starts, i)
    ensures var r := RecordOf(c, kind, starts, visits, i);
            r.Some? && ArmShown(c, starts, visits[i], !Unsuccessful(kind), i, r.value.arm)
  {
    assert TotalBytes([]) == 0;
    hide ArmId, TotalBytes;
  }

  lemma ClearedShown(c: Setup, starts: Starts, v: Option<Visit>, kept: bool, i: nat, a: CoverageArm)
    requires i < c.Arms() == |starts| && ArmShown(c, starts, v, kept, i, a)
    ensures ArmShown(c, starts, v, false, i, Cleared(a))
  {
    hide ArmId, TotalBytes;
  }

  /** What the outcome is built from stands for the visit itself. */
  lemma ShownTold(c: Setup, starts: Starts, visits: Visits, cut: bool, kept: bool, i: nat, a: CoverageArm)
    requires i < c.Arms() == |starts| == |visits|
    requires forall j :: 0 <= j < |visits| && visits[j].Some? && visits[j].value.Admitted? ==>
               visits[j].value.events != []
    requires ArmShown(c, starts, (if cut then visits else Filled(visits))[i], kept, i, a)
    ensures ArmTold(c, starts, visits, cut, kept, i, a)
  {
    EventsOrNot(visits);
    hide ArmShown, SawEvents;
  }

  lemma EventsOrNot(visits: Visits)
    requires forall j :: 0 <= j < |visits| && visits[j].Some? && visits[j].value.Admitted? ==>
               visits[j].value.events != []
    ensures SawEvents(visits) <==> exists j :: 0 <= j < |visits| && visits[j].Some? && visits[j].value.Admitted?
  {
    if j :| 0 <= j < |visits| && visits[j].Some? && visits[j].value.Admitted? {
      assert EventsIn(visits[j]) != [];
    }
  }

  lemma BuiltArms(c: Setup, now: Instant, starts: Starts, visits: Visits, kind: Kind, reason: Option<Id>)
    requires c.Arms() == |starts| == |visits| && Build(c, now, starts, visits, kind, reason).Success?
    ensures var o := Build(c, now, starts, visits, kind, reason).value.base;
            o.kind == kind && o.arms == ArmsOf(Records(c, kind, starts, visits, c.Arms()))
  {
    BuiltBase(c, now, starts, visits, kind, reason);
    hide Build, Records, CoverageComplete, EventsOf;
  }

  lemma PostureArms(c: Setup, o: PollOutcome)
    ensures var p := ApplyPosture(c, o).base;
            (p.kind == o.base.kind && p.arms == o.base.arms)
            || (Unsuccessful(p.kind) && p.arms == ClearedArms(o.base.arms))
  {
  }

  /** Where the outcome tells of arm `i`, and what it says. */
  predicate ArmAt(c: Setup, r: Cycle, e: Happening, i: nat, o: Outcome)
    requires Fitting(c, r) && i < c.Arms()
  {
    && |o.arms| == KnownBefore(c, r.starts, c.Arms())
    && (Known(c, r.starts, i) ==>
          var k := KnownBefore(c, r.starts, i);
          && k < |o.arms|
          && ArmTold(c, r.starts, r.visits, CutShort(c, r.starts, e), !Unsuccessful(o.kind), i, o.arms[k]))
  }

  lemma BuiltArmAt(c: Setup, r: Cycle, e: Happening, i: nat, kind: Kind, reason: Option<Id>, o: Outcome)
    requires Fitting(c, r) && i < c.Arms() && VisitsBound(r)
    requires Build(c, TimeOf(e), r.starts, ToldVisits(c, r, e), kind, reason).Success?
    requires var b := Build(c, TimeOf(e), r.starts, ToldVisits(c, r, e), kind, reason).value.base;
             (o.kind == b.kind && o.arms == b.arms) || (Unsuccessful(o.kind) && o.arms == ClearedArms(b.arms))
    ensures ArmAt(c, r, e, i, o)
  {
    assert forall j :: 0 <= j < |r.visits| && r.visits[j].Some? && r.visits[j].value.Admitted? ==>
        r.visits[j].value.events != [];
    var visits := ToldVisits(c, r, e);
    var cut := CutShort(c, r.starts, e);
    assert visits == if cut then r.visits else Filled(r.visits);
    hide Build, Records, RecordOf, Known, ArmTold, ArmShown, Filled, CutShort, ToldVisits, Cleared, VisitsBound, TimeOf;
    BuiltArms(c, TimeOf(e), r.starts, visits, kind, reason);
    RecordAt(c, kind, r.starts, visits, c.Arms());
    if Known(c, r.starts, i) {
      var k := KnownBefore(c, r.starts, i);
      RecordShown(c, kind, r.starts, visits, i);
      var records := Records(c, kind, r.starts, visits, c.Arms());
      var a := records[k].arm;
      assert ArmsOf(records)[k] == a;
      if !(o.kind == kind && o.arms == ArmsOf(records)) {
        ClearedShown(c, r.starts, visits[i], !Unsuccessful(kind), i, a);
      }
      ShownTold(c, r.starts, r.visits, cut, !Unsuccessful(o.kind), i, o.arms[k]);
    }
  }

  /** Every arm of the outcome, from the happening that ended the cycle. */
  lemma EndingArms(c: Setup, s: Cycle, e: Happening, i: nat)
    requires Fitting(c, s) && s.done.None? && VisitsBound(Next(c, s, e)) && i < c.Arms()
    requires Next(c, s, e).done.Some? && Next(c, s, e).done.value.Success?
    ensures ArmAt(c, Next(c, s, e), e, i, Next(c, s, e).done.value.value.base)
  {
    var r := Next(c, s, e);
    EndingTold(c, s, e);
    hide Next, Build, DecideKind, ApplyPosture, VisitsBound, ToldVisits, ToldKind, TimeOf, ArmAt, ClearedArms;
    var (kind, reason) := ToldKind(c, r, e);
    PostureArms(c, Told(c, r, e).value);
    BuiltArmAt(c, r, e, i, kind, reason, r.done.value.value.base);
  }

  /** Over every run: an outcome tells of exactly the arms whose start is known, in
      registration order, and of each what its visit showed. */
  lemma CycleArmsTold(c: Setup, queues: seq<seq<Event>>, events: seq<Happening>, i: nat)
    requires |queues| == c.Arms() && i < c.Arms()
    requires var r := RunCycle(c, Begin(c, queues), events); r.done.Some? && r.done.value.Success?
    ensures var r := RunCycle(c, Begin(c, queues), events);
            var e := EndOf(c, Begin(c, queues), events).1;
            ArmAt(c, r, e, i, r.done.value.value.base)
  {
    BeginJustified(c, queues);
    RunJustified(c, Begin(c, queues), events);
    EndOfEnds(c, Begin(c, queues), events);
    var r := RunCycle(c, Begin(c, queues), events);
    var (s, e) := EndOf(c, Begin(c, queues), events);
    hide Next, RunCycle, Explains, EndOf, ArmTold, Known;
    SameBound(Next(c, s, e), r);
    EndingArms(c, s, e, i);
  }

  // ----- The events of an outcome -----

  lemma RecordedEvents(c: Setup, starts: Starts, visits: Visits, kind: Kind)
    requires c.Arms() == |starts| == |visits|
    requires forall i :: 0 <= i < |visits| && EventsIn(visits[i]) != [] ==> starts[i].Some?
    ensures EventsOf(Records(c, kind, starts, visits, c.Arms())) == if Reports(kind) then AllAdmitted(visits) else []
  {
    hide Records, EventsOf, AllAdmitted, EventsIn;
    if Reports(kind) {
      ReportedAreAdmitted(c, kind, starts, visits, c.Arms());
      assert visits[..c.Arms()] == visits;
    } else {
      EventsOnlyWhenReported(c, kind, starts, visits);
    }
  }

  lemma ToldAdmitted(c: Setup, r: Cycle, e: Happening)
    requires Fitting(c, r) && VisitsBound(r)
    ensures var visits := ToldVisits(c, r, e);
            && AllAdmitted(visits) == AllAdmitted(r.visits)
            && forall i :: 0 <= i < |visits| && EventsIn(visits[i]) != [] ==> r.starts[i].Some?
  {
    var visits := ToldVisits(c, r, e);
    assert forall i :: 0 <= i < c.Arms() ==> EventsIn(visits[i]) == EventsIn(r.visits[i]);
    EventsBound(c, r, visits);
    SameEventsAdmitted(visits, r.visits);
  }

  lemma BuiltEvents(c: Setup, r: Cycle, e: Happening, kind: Kind, reason: Option<Id>, o: Outcome)
    requires Fitting(c, r) && VisitsBound(r)
    requires Build(c, TimeOf(e), r.starts, ToldVisits(c, r, e), kind, reason).Success?
    requires var b := Build(c, TimeOf(e), r.starts, ToldVisits(c, r, e), kind, reason).value.base;
             (o.kind == b.kind && o.events == b.events) || (Unsuccessful(o.kind) && o.events == [])
    ensures o.events == if Reports(o.kind) then AllAdmitted(r.visits) else []
  {
    hide Build, Records, EventsOf, AllAdmitted, EventsIn, ToldVisits, VisitsBound, TimeOf, CoverageComplete;
    ToldAdmitted(c, r, e);
    RecordedEvents(c, r.starts, ToldVisits(c, r, e), kind);
    BuiltBase(c, TimeOf(e), r.starts, ToldVisits(c, r, e), kind, reason);
  }

  lemma PostureEvents(c: Setup, o: PollOutcome)
    ensures var p := ApplyPosture(c, o).base;
            (p.kind == o.base.kind && p.events == o.base.events) || (Unsuccessful(p.kind) && p.events == [])
  {
  }

  /** Over every run: an outcome of kind events or partial reports exactly what the
      arms admitted, arm by arm; any other reports nothing. */
  lemma CycleEventsTold(c: Setup, queues: seq<seq<Event>>, events: seq<Happening>)
    requires |queues| == c.Arms()
    requires var r := RunCycle(c, Begin(c, queues), events); r.done.Some? && r.done.value.Success?
    ensures var r := RunCycle(c, Begin(c, queues), events);
            var o := r.done.value.value.base;
            o.events == if o.kind.Events? || o.kind.Partial? then AllAdmitted(r.visits) else []
  {
    BeginJustified(c, queues);
    RunJustified(c, Begin(c, queues), events);
    EndOfEnds(c, Begin(c, queues), events);
    var r := RunCycle(c, Begin(c, queues), events);
    var (s, e) := EndOf(c, Begin(c, queues), events);
    hide Next, RunCycle, Explains, EndOf, ToldKind, Build, ApplyPosture, ToldVisits, AllAdmitted;
    SameBound(Next(c, s, e), r);
    EndingTold(c, s, e);
    var (kind, reason) := ToldKind(c, Next(c, s, e), e);
    PostureEvents(c, Told(c, Next(c, s, e), e).value);
    BuiltEvents(c, Next(c, s, e), e, kind, reason, r.done.value.value.base);
  }

  // ----- Nothing due is left behind -----

  /** Over every run: an outcome of kind events leaves behind, on an arm that has
      events, none that was due when the arm was recorded, and no required arm has
      been put off. */
  lemma EventsLeaveNothingDue(c: Setup, queues: seq<seq<Event>>, events: seq<Happening>, j: nat) returns (k: nat)
    requires |queues| == c.Arms() && j < c.Arms()
    requires var r := RunCycle(c, Begin(c, queues), events);
             r.done.Some? && r.done.value.Success? && r.done.value.value.base.kind.Events?
    ensures var v := RunCycle(c, Begin(c, queues), events).visits[j];
            if v.Some? && v.value.Admitted? then
              && k < |events|
              && var s := RunCycle(c, Begin(c, queues), events[..k]);
                 && s.visits[j].None? && j < |SuppliesOf(events[k])|
                 && var supply := SuppliesOf(events[k])[j];
                    && s.queues[j] != [] && supply.tail != Some(Overflow)
                    && v.value.events == s.queues[j][..1 + Least(supply.due, |s.queues[j]| - 1)]
            else c.Regs()[j].required ==> v == Some(IdleVisit)
  {
    BeginsUnvisited(c, queues, j);
    hide RunCycle, Begin, Next, SeenAt, SuppliesOf, Least;
    k := 0;
    EventsArm(c, queues, events, j);
    var r := RunCycle(c, Begin(c, queues), events);
    var v := r.visits[j];
    if v.Some? && v.value.Admitted? {
      k := RunSees(c, Begin(c, queues), events, j);
      SeenWhole(c, RunCycle(c, Begin(c, queues), events[..k]), events[k], j, v.value, r.budget);
    }
  }

  lemma EventsArm(c: Setup, queues: seq<seq<Event>>, events: seq<Happening>, j: nat)
    requires |queues| == c.Arms() && j < c.Arms()
    requires var r := RunCycle(c, Begin(c, queues), events);
             r.done.Some? && r.done.value.Success? && r.done.value.value.base.kind.Events?
    ensures var v := RunCycle(c, Begin(c, queues), events).visits[j];
            if v.Some? && v.value.Admitted? then !v.value.saturated
            else c.Regs()[j].required ==> v == Some(IdleVisit)
  {
    BeginsUnvisited(c, queues, j);
    hide RunCycle, Begin, Next, KindTold, Shows, EndOf, Clean;
    var r := RunCycle(c, Begin(c, queues), events);
    var x := ShowingOf(c, r.visits);
    CycleKindIff(c, queues, events, x);
    EventsRow(c, r, EndOf(c, Begin(c, queues), events).1, x, r.done.value.value.base);
    QuietArms(c, r.visits, x, j);
  }

  lemma EventsRow(c: Setup, r: Cycle, e: Happening, x: Showing, o: Outcome)
    requires Fitting(c, r) && KindTold(c, r, e, x, o) && o.kind.Events?
    ensures x.events && Clean(x) && !x.more && !x.requiredWaits
  {
    hide LeaseExpired, BindMissing, LastFailure;
  }

  /** What the visits show can always be said. */
  ghost function ShowingOf(c: Setup, visits: Visits): (x: Showing)
    requires |visits| == c.Arms()
    ensures Shows(c, visits, x)
  {
    var events := exists i :: 0 <= i < c.Arms() && visits[i].Some? && visits[i].value.Admitted?;
    Showing(
      events,
      exists i :: 0 <= i < c.Arms() && visits[i].Some? && visits[i].value.OverflowVisit?,
      exists i :: 0 <= i < c.Arms() && c.Regs()[i].required && visits[i].Some?
                  && (visits[i].value.OutageVisit? || visits[i].value.UncertainVisit?
                      || visits[i].value.DegradedVisit?),
      exists i :: 0 <= i < c.Arms() && visits[i].Some? && visits[i].value.FailedVisit?,
      exists i :: 0 <= i < c.Arms() && visits[i].Some? && visits[i].value.Admitted? && visits[i].value.saturated,
      exists i :: 0 <= i < c.Arms() && c.Regs()[i].required
                  && if visits[i].Some? then visits[i].value.DeferredVisit? else events)
  }

  lemma QuietArms(c: Setup, visits: Visits, x: Showing, j: nat)
    requires |visits| == c.Arms() && Shows(c, visits, x) && j < c.Arms()
    requires x.events && Clean(x) && !x.more && !x.requiredWaits
    ensures if visits[j].Some? && visits[j].value.Admitted? then !visits[j].value.saturated
            else c.Regs()[j].required ==> visits[j] == Some(IdleVisit)
  {
  }

  // ----- The coverage an outcome claims -----

  /** A kind that may claim complete coverage. */
  predicate Claims(kind: Kind) {
    kind.Events? || kind.NoChange? || kind.LogicalDeadman?
  }

  lemma BuiltCoverage(c: Setup, r: Cycle, e: Happening, kind: Kind, reason: Option<Id>, o: Outcome)
    requires Fitting(c, r) && Build(c, TimeOf(e), r.starts, ToldVisits(c, r, e), kind, reason).Success?
    requires var b := Build(c, TimeOf(e), r.starts, ToldVisits(c, r, e), kind, reason).value.base;
             (o.kind == b.kind && o.coverageComplete == b.coverageComplete)
             || (Unsuccessful(o.kind) && o.coverageComplete == Some(false))
    ensures o.coverageComplete == Some(Claims(o.kind) && Carried(c, r.starts, r.visits))
  {
    var visits := ToldVisits(c, r, e);
    SameEvents(c, r, visits);
    hide Build, Records, EventsOf, ToldVisits, TimeOf, Carried;
    BuiltBase(c, TimeOf(e), r.starts, visits, kind, reason);
    if Claims(kind) {
      CoverageIff(c, r.starts, visits, kind);
    }
  }

  lemma PostureCoverage(c: Setup, o: PollOutcome)
    ensures var p := ApplyPosture(c, o).base;
            || (p.kind == o.base.kind && p.coverageComplete == o.base.coverageComplete)
            || (Unsuccessful(p.kind) && p.coverageComplete == Some(false))
  {
  }

  /** Over every run: an outcome claims complete coverage exactly when its kind may,
      and every requested arm id is carried by an arm with a known start and no sign
      of an outage, an uncertain cursor or degradation. */
  lemma CycleCoverageIff(c: Setup, queues: seq<seq<Event>>, events: seq<Happening>)
    requires |queues| == c.Arms()
    requires var r := RunCycle(c, Begin(c, queues), events); r.done.Some? && r.done.value.Success?
    ensures var r := RunCycle(c, Begin(c, queues), events);
            var o := r.done.value.value.base;
            o.coverageComplete == Some(Claims(o.kind) && Carried(c, r.starts, r.visits))
  {
    EndOfEnds(c, Begin(c, queues), events);
    var (s, e) := EndOf(c, Begin(c, queues), events);
    hide Next, RunCycle, EndOf, ToldKind, Build, ApplyPosture, ToldVisits, Carried, Claims;
    EndingTold(c, s, e);
    var (kind, reason) := ToldKind(c, Next(c, s, e), e);
    PostureCoverage(c, Told(c, Next(c, s, e), e).value);
    BuiltCoverage(c, Next(c, s, e), e, kind, reason, RunCycle(c, Begin(c, queues), events).done.value.value.base);
  }

  // ----- When a cycle goes on, and when it fails -----

  ghost predicate SomeUnvisited(c: Setup, s: Cycle)
    requires Fitting(c, s)
  {
    exists i :: 0 <= i < c.Arms() && s.visits[i].None?
  }

  lemma StepGoesOn(c: Setup, s: Cycle, e: Happening)
    requires Fitting(c, s) && (s.done.None? ==> SomeUnvisited(c, s))
    ensures Next(c, s, e).done.None? ==> SomeUnvisited(c, Next(c, s, e))
  {
    hide RestoreAdmitted, RestoreLeftover, Recorded, Assemble, AtDeadline, Build, HarvestOf, Extended, ObserveOver,
      BindsSome, StartsMismatch, WithBinds, Pending, Occupied, Popped;
  }

  lemma {:induction false} RunGoesOn(c: Setup, s: Cycle, events: seq<Happening>)
    requires Fitting(c, s) && (s.done.None? ==> SomeUnvisited(c, s))
    ensures RunCycle(c, s, events).done.None? ==> SomeUnvisited(c, RunCycle(c, s, events))
    decreases |events|
  {
    hide Next, SomeUnvisited;
    if events != [] {
      StepGoesOn(c, s, events[0]);
      RunGoesOn(c, Next(c, s, events[0]), events[1..]);
    }
  }

  /** Over every run: a cycle that goes on waits for some arm, and no deadline that it
      sees, and no timer, leaves it running. */
  lemma CycleGoesOn(c: Setup, queues: seq<seq<Event>>, events: seq<Happening>, e: Happening)
    requires |queues| == c.Arms() > 0 && RunCycle(c, Begin(c, queues), events).done.None?
    ensures var s := RunCycle(c, Begin(c, queues), events);
            && SomeUnvisited(c, s)
            && (e.DeadlineSeen? ==>
                  (Next(c, s, e).done.Some? <==>
                     e.now >= c.request.logicalDeadline || e.now >= c.request.runDeadline))
            && (e.DeadlineWakes? && |e.polled| == |e.supplies| == c.Arms() ==> Next(c, s, e).done.Some?)
  {
    assert Begin(c, queues).visits[0].None?;
    RunGoesOn(c, Begin(c, queues), events);
    hide RunCycle, RestoreAdmitted, Recorded, AtDeadline, HarvestOf;
  }

  /** A bind that comes in ignores the anchor that was acknowledged for it. */
  predicate IgnoresAnchor(c: Setup, s: Cycle, e: Happening)
    requires Fitting(c, s)
  {
    && e.BindReady? && |e.binds| == |e.polled| == |e.supplies| == c.Arms()
    && exists i :: 0 <= i < c.Arms() && s.starts[i].None? && e.binds[i].Some?
                   && c.Regs()[i].id in c.request.acknowledged
                   && c.request.acknowledged[c.Regs()[i].id] != e.binds[i].value
  }

  lemma UnresolvedIff(c: Setup, now: Instant, starts: Starts, visits: Visits, kind: Kind, reason: Option<Id>)
    requires c.Arms() == |starts| == |visits|
    ensures var b := Build(c, now, starts, visits, kind, reason);
            && (b.Failure? ==> b.error == UnresolvedStart)
            && (b.Failure? <==> forall i :: 0 <= i < c.Arms() ==> !Known(c, starts, i))
  {
    RecordAt(c, kind, starts, visits, c.Arms());
    SomeKnown(c, starts, c.Arms());
    hide Records, RecordOf, Known, CoverageComplete, EventsOf;
  }

  lemma {:induction false} SomeKnown(c: Setup, starts: Starts, n: nat)
    requires n <= c.Arms() == |starts|
    ensures KnownBefore(c, starts, n) == 0 <==> forall i :: 0 <= i < n ==> !Known(c, starts, i)
  {
    hide Known;
    if n > 0 {
      SomeKnown(c, starts, n - 1);
    }
  }

  /** The error of the happening that ends a cycle without an outcome: a failed bind
      or observation, a bind that ignores its anchor, no start known, or, last, an
      event that the observer does not take back. */
  lemma EndingFails(c: Setup, s: Cycle, e: Happening)
    requires Fitting(c, s) && s.done.None?
    requires Next(c, s, e).done.Some? && Next(c, s, e).done.value.Failure?
    ensures var r := Next(c, s, e);
            var error := r.done.value.error;
            && (Accepting(c) ==> !error.Restoring?)
            && (!error.Restoring? ==>
                  && (error.Arm? <==> e.BindFails? || e.ObserveFails?)
                  && (error.BindStartMismatch? <==> IgnoresAnchor(c, s, e))
                  && (error.UnresolvedStart? ==> forall i :: 0 <= i < c.Arms() ==> !Known(c, r.starts, i)))
  {
    hide Emit, Recorded, RestoreLeftover, AtDeadline, Assemble, Build, HarvestOf, Extended, ObserveOver, BindsSome,
      WithBinds, Pending, Occupied, Popped, Finished, IfComplete;
    match e
    case Cancels(now) =>
      EmitFails(c, s, Finished(c, Build(c, now, s.starts, s.visits, Cancelled, Some("consumer_cancelled"))));
      FinishedFails(c, now, s.starts, s.visits, Cancelled, Some("consumer_cancelled"));
    case DeadlineSeen(now) =>
      EmitFails(c, s, AtDeadline(c, now, s.starts, s.visits));
      DeadlineFails(c, now, s.starts, s.visits);
    case ObserveReady(now, raced, polled, supplies) =>
      var ready := Extended(HarvestOf(s.queues, raced, Pending(s)), HarvestOf(s.queues, polled, Pending(s)));
      RecordFails(c, s, ready, supplies, now);
    case BindReady(now, binds, polled, supplies) =>
      EmitFails(c, s, Failure(BindStartMismatch));
      var bound := s.(starts := WithBinds(s, binds));
      RecordFails(c, bound, HarvestOf(s.queues, polled, Occupied(bound)), supplies, now);
    case DeadlineWakes(now, polled, supplies) =>
      var ready := HarvestOf(s.queues, polled, Pending(s));
      RecordFails(c, s, ready, supplies, now);
      var r := Recorded(c, s, ready, supplies);
      EmitFails(c, r, AtDeadline(c, now, r.starts, r.visits));
      DeadlineFails(c, now, r.starts, r.visits);
    case ObserveFails(raced) =>
      var ready := HarvestOf(s.queues, raced, Pending(s));
      var popped := Gathered(s).(queues := Popped(s.queues, ready));
      var all: Visits := seq(c.Arms(), _ => Some(IdleVisit));
      if Accepting(c) {
        AcceptingLeftovers(c, popped, ready, all, 0);
      }
      EmitFails(c, s.(queues := RestoreLeftover(c, popped, ready, all, 0).queues), Failure(Arm));
    case BindFails => EmitFails(c, s, Failure(Arm));
    case _ =>
  }

  lemma EmitFails(c: Setup, s: Cycle, outcome: Result<PollOutcome, CycleError>)
    requires Fitting(c, s)
    ensures var r := Emit(c, s, outcome);
            && r.starts == s.starts && r.done.Some?
            && (outcome.Failure? ==> r.done.value == outcome)
            && (outcome.Success? && r.done.value.Failure? ==> r.done.value.error.Restoring? && !Accepting(c))
  {
    hide RestoreAdmitted;
    if Accepting(c) {
      AcceptingRestores(c, s.queues, s.starts, s.visits, 0);
    }
  }

  lemma FinishedFails(c: Setup, now: Instant, starts: Starts, visits: Visits, kind: Kind, reason: Option<Id>)
    requires c.Arms() == |starts| == |visits|
    ensures var f := Finished(c, Build(c, now, starts, visits, kind, reason));
            f.Failure? ==> f.error == UnresolvedStart && forall i :: 0 <= i < c.Arms() ==> !Known(c, starts, i)
  {
    UnresolvedIff(c, now, starts, visits, kind, reason);
    hide Build, Known;
  }

  lemma DeadlineFails(c: Setup, now: Instant, starts: Starts, visits: Visits)
    requires c.Arms() == |starts| == |visits|
    ensures var f := AtDeadline(c, now, starts, visits);
            f.Failure? ==> f.error == UnresolvedStart && forall i :: 0 <= i < c.Arms() ==> !Known(c, starts, i)
  {
    FinishedFails(c, now, starts, visits, FailedKind, Some("required_bind_pending"));
    AssembleFails(c, now, starts, Filled(visits));
    hide Assemble, Finished, Known, RequiredBinds, Build;
  }

  lemma AssembleFails(c: Setup, now: Instant, starts: Starts, visits: Visits)
    requires c.Arms() == |starts| == |visits|
    ensures var f := Assemble(c, now, starts, visits);
            f.Failure? ==> f.error == UnresolvedStart && forall i :: 0 <= i < c.Arms() ==> !Known(c, starts, i)
  {
    var (kind, reason) := DecideKind(c, now, visits);
    FinishedFails(c, now, starts, visits, kind, reason);
    hide DecideKind, Finished, Known, Build;
  }

  lemma RecordFails(c: Setup, s: Cycle, ready: Harvest, supplies: seq<Supply>, now: Instant)
    requires Fitting(c, s) && s.done.None? && |ready| == |supplies| == c.Arms()
    ensures var r := Recorded(c, s, ready, supplies);
            r.starts == s.starts && (r.done.Some? ==> r.done.value == Failure(Restoring) && !Accepting(c))
    ensures var last := IfComplete(c, Recorded(c, s, ready, supplies), now);
            && last.starts == s.starts
            && (last.done.Some? && last.done.value.Failure? ==>
                  if last.done.value.error.Restoring? then !Accepting(c)
                  else last.done.value.error.UnresolvedStart?
                       && forall i :: 0 <= i < c.Arms() ==> !Known(c, s.starts, i))
  {
    hide Record, Emit, Assemble, Known;
    if Accepting(c) {
      AcceptingRecord(c, Gathered(s), ready, supplies);
    }
    var r := Recorded(c, s, ready, supplies);
    if r.done.None? && AllVisited(r.visits) {
      EmitFails(c, r, Assemble(c, now, r.starts, r.visits));
      AssembleFails(c, now, r.starts, r.visits);
    }
  }

  /** Over every run that ends in an error. */
  lemma CycleErrorTold(c: Setup, queues: seq<seq<Event>>, events: seq<Happening>)
    requires |queues| == c.Arms()
    requires var r := RunCycle(c, Begin(c, queues), events); r.done.Some? && r.done.value.Failure?
    ensures var r := RunCycle(c, Begin(c, queues), events);
            var (s, e) := EndOf(c, Begin(c, queues), events);
            var error := r.done.value.error;
            && (Accepting(c) ==> !error.Restoring?)
            && (!error.Restoring? ==>
                  && (error.Arm? <==> e.BindFails? || e.ObserveFails?)
                  && (error.BindStartMismatch? <==> IgnoresAnchor(c, s, e))
                  && (error.UnresolvedStart? ==> forall i :: 0 <= i < c.Arms() ==> !Known(c, r.starts, i)))
  {
    EndOfEnds(c, Begin(c, queues), events);
    var (s, e) := EndOf(c, Begin(c, queues), events);
    hide Next, RunCycle, EndOf, Known, IgnoresAnchor;
    EndingFails(c, s, e);
  }
}
