/** The kind and the reason of a live outcome, over every run, from the input that
    ended the run and what its harvest showed. */
module FirstMatchReport {
  import opened Wrappers
  import opened Seam
  import opened Messages
  import opened FirstMatch
  import opened FirstMatchProofs

  predicate Broken(obs: Observation) {
    obs.Failed? || obs.Outage? || obs.CursorUncertain? || obs.Degraded?
  }

  /** What a harvest showed: an event, an overflow, an arm that broke. */
  datatype Showing = Showing(event: bool, overflow: bool, broken: bool)

  function ShowingOf(ready: seq<Entry>): Showing {
    Showing(exists p | p in ready :: p.1.Observed?, exists p | p in ready :: p.1.Overflow?,
            exists p | p in ready :: Broken(p.1))
  }

  predicate BrokenWith(obs: Observation, reason: Id) {
    Broken(obs) && obs.reason == reason
  }

  /** `reason` is that of the last arm of the harvest that broke. */
  ghost predicate LastBroken(ready: seq<Entry>, reason: Id) {
    exists k :: 0 <= k < |ready| && BrokenWith(ready[k].1, reason)
                && forall l :: k < l < |ready| ==> !Broken(ready[l].1)
  }

  /** The reading of the clock on which the runner decides, and the one on which it
      finishes. */
  function DecidedAt(input: Input): Instant {
    match input
    case CancelAt(now) => now
    case HeadDeadline(decideAt, _) => decideAt
    case RaceReady(decideAt, _, _, _) => decideAt
    case DeadlineWake(now, _) => now
    case _ => 0
  }

  function FinishedAt(input: Input): Instant {
    match input
    case CancelAt(now) => now
    case HeadDeadline(_, finishAt) => finishAt
    case RaceReady(_, finishAt, _, _) => finishAt
    case DeadlineWake(now, _) => now
    case _ => 0
  }

  predicate Unproven(c: Config) {
    c.rs.authnRequired && !c.request.hasReceipt
  }

  /** Each kind of outcome and its reason: `x` is what the harvest showed, and when
      that is nothing the run was cancelled or met a deadline. */
  ghost predicate KindTold(c: Config, s: State, input: Input, o: Outcome)
    requires Shaped(c, s)
  {
    var ready := HarvestAt(c, s, input);
    var x := ShowingOf(ready);
    var settled := x.event || x.overflow || x.broken;
    var early := settled && LeaseExpired(c.rs, DecidedAt(input));
    var barred := settled && (early || Unproven(c));
    var missing := exists i :: 0 <= i < |s.starts| && c.rs.registrations[i].required && s.starts[i].None?;
    var fails := if settled then !barred && !x.event else missing;
    var result := !input.CancelAt? && !barred && !fails;
    var late := LeaseExpired(c.rs, FinishedAt(input));
    var stands := result && !late && !Unproven(c);
    && (input.CancelAt? || input.HeadDeadline? || input.RaceReady? || input.DeadlineWake?)
    && (input.CancelAt? || input.HeadDeadline? ==> !settled) && (input.RaceReady? ==> settled)
    && (o.kind.Cancelled? <==> input.CancelAt?)
    && (o.kind.FailedKind? <==> !input.CancelAt? && fails)
    && (o.kind.ReauthenticationRequired? <==> early || (result && late))
    && (o.kind.Refused? <==> (settled && !early && Unproven(c)) || (result && !late && Unproven(c)))
    && (o.kind.Partial? <==> stands && settled && x.overflow)
    && (o.kind.Events? <==> stands && settled && !x.overflow)
    && (o.kind.LogicalDeadman? <==> stands && !settled && DecidedAt(input) >= c.request.logicalDeadline)
    && (o.kind.NoChange? <==> stands && !settled && DecidedAt(input) < c.request.logicalDeadline)
    && match o.kind
       case Cancelled => o.reason == Some("consumer_cancelled")
       case ReauthenticationRequired => o.reason == Some("lease_expired")
       case Refused => o.reason == Some("authn_required")
       case FailedKind =>
         if !settled then o.reason == Some("required_bind_pending")
         else if x.overflow then o.reason == Some("buffer_overflow")
         else o.reason.Some? && LastBroken(ready, o.reason.value)
       case _ => o.reason.None?
  }

  lemma LastBrokenLater(ready: seq<Entry>, reason: Id)
    requires ready != [] && !Broken(ready[|ready| - 1].1) && LastBroken(ready[..|ready| - 1], reason)
    ensures LastBroken(ready, reason)
  {
    var front := ready[..|ready| - 1];
    var k :| 0 <= k < |front| && BrokenWith(front[k].1, reason)
             && forall l :: k < l < |front| ==> !Broken(front[l].1);
    hide Broken, BrokenWith;
    assert ready[k] == front[k];
    forall l | k < l < |ready| ensures !Broken(ready[l].1) {
      if l < |front| {
        assert ready[l] == front[l];
      }
    }
  }

  lemma {:induction false} LastFailureIs(ready: seq<Entry>)
    ensures LastFailure(ready).Some? ==> LastBroken(ready, LastFailure(ready).value)
  {
    hide LastBroken;
    if ready != [] {
      var last := ready[|ready| - 1].1;
      if Broken(last) {
        BrokenLast(ready);
      } else {
        LastFailureIs(ready[..|ready| - 1]);
        if LastFailure(ready).Some? {
          LastBrokenLater(ready, LastFailure(ready).value);
        }
      }
    }
  }

  lemma BrokenLast(ready: seq<Entry>)
    requires ready != [] && Broken(ready[|ready| - 1].1)
    ensures LastBroken(ready, ready[|ready| - 1].1.reason)
  {
  }

  /** What the runner decides from a harvest. */
  lemma DecisionTold(c: Config, now: Instant, ready: seq<Entry>, starts: seq<Option<Id>>)
    requires |starts| == |c.rs.registrations|
    ensures var x := ShowingOf(ready);
            var d := Decide(c, now, ready, starts);
            && (d.Some? <==> x.event || x.overflow || x.broken)
            && (d.Some? ==>
                  var o := d.value;
                  && (o.kind.Partial? <==> x.event && x.overflow) && (o.kind.Events? <==> x.event && !x.overflow)
                  && (o.kind.FailedKind? <==> !x.event) && (!o.kind.FailedKind? ==> o.reason.None?)
                  && (o.kind.FailedKind? ==>
                        if x.overflow then o.reason == Some("buffer_overflow")
                        else o.reason.Some? && LastBroken(ready, o.reason.value)))
  {
    WinnerIsLowest(ready);
    LastFailureMember(ready);
    LastFailureIs(ready);
    var x := ShowingOf(ready);
    assert Winner(ready).Some? <==> x.event;
    assert AnyOverflow(ready) <==> x.overflow;
    assert LastFailure(ready).Some? <==> x.broken;
    hide Winner, LastFailure, LastBroken, PartialArms;
  }

  lemma PostureTold(c: Config, now: Instant)
    ensures var r := PostureReject(c, now);
            && (r.None? <==> !LeaseExpired(c.rs, now) && !Unproven(c))
            && (LeaseExpired(c.rs, now) ==>
                  r.Some? && r.value.kind.ReauthenticationRequired? && r.value.reason == Some("lease_expired"))
            && (!LeaseExpired(c.rs, now) && Unproven(c) ==>
                  r.Some? && r.value.kind.Refused? && r.value.reason == Some("authn_required"))
  {
  }

  lemma SettledTold(c: Config, s: State, input: Input, starts: seq<Option<Id>>)
    requires Shaped(c, s) && |starts| == |s.starts| && s.done.None? && (input.RaceReady? || input.DeadlineWake?)
    requires var r := Settle(c, s, DecidedAt(input), FinishedAt(input), HarvestAt(c, s, input), starts);
             r.done.Some? && r.done.value.Success?
    ensures KindTold(c, s, input,
                     Settle(c, s, DecidedAt(input), FinishedAt(input), HarvestAt(c, s, input), starts).done.value.value)
  {
    var ready := HarvestAt(c, s, input);
    DecisionTold(c, DecidedAt(input), ready, starts);
    PostureTold(c, DecidedAt(input));
    PostureTold(c, FinishedAt(input));
    hide HarvestAt, Decide, PostureReject, Restore, AfterHarvest, LeaseExpired, LastBroken, ShowingOf, DecidedAt,
      FinishedAt, WinnerArm;
  }

  lemma DeadlineTold(c: Config, s: State, input: Input)
    requires Shaped(c, s) && (input.HeadDeadline? || input.DeadlineWake?)
    requires TerminalDeadline(c, DecidedAt(input), s.starts).Some?
    requires forall p :: p in HarvestAt(c, s, input) ==> p.1.Idle?
    ensures KindTold(c, s, input, Finish(c, FinishedAt(input), TerminalDeadline(c, DecidedAt(input), s.starts).value))
  {
    PostureTold(c, FinishedAt(input));
    assert ShowingOf(HarvestAt(c, s, input)) == Showing(false, false, false);
    hide HarvestAt, PostureReject, LeaseExpired, LastBroken, ShowingOf, DecidedAt, FinishedAt, CleanArms;
  }

  /** Whatever the step that ends a run, its input tells the kind and the reason. */
  lemma EndingTold(c: Config, s: State, input: Input)
    requires Shaped(c, s) && s.done.None?
    requires var r := Step(c, s, input); r.done.Some? && r.done.value.Success?
    ensures KindTold(c, s, input, Step(c, s, input).done.value.value)
  {
    hide Ready, KindTold, RaceOver, AfterHarvest, Restore, Decide, TerminalDeadline, PostureReject, Settle;
    match input
    case CancelAt(now) => CancelTold(c, s, now);
    case HeadDeadline(_, _) => DeadlineTold(c, s, input);
    case RaceReady(_, _, raced, polled) =>
      SettledTold(c, s, input, if s.bound then s.starts else StartsOf(s, raced));
    case DeadlineWake(now, polled) =>
      UndecidedIffIdle(c, now, HarvestAt(c, s, input), s.starts);
      SettleDecides(c, s, now, HarvestAt(c, s, input), s.starts);
      if s.bound && Decide(c, now, HarvestAt(c, s, input), s.starts).Some? {
        SettledTold(c, s, input, s.starts);
      } else {
        DeadlineTold(c, s, input);
      }
    case _ =>
  }

  lemma SettleDecides(c: Config, s: State, now: Instant, ready: seq<Entry>, starts: seq<Option<Id>>)
    requires Shaped(c, s) && |starts| == |s.starts| && s.done.None?
    ensures Settle(c, s, now, now, ready, starts).done.Some? <==> Decide(c, now, ready, starts).Some?
  {
    hide Decide, PostureReject, Restore, AfterHarvest;
  }

  lemma CancelTold(c: Config, s: State, now: Instant)
    requires Shaped(c, s)
    ensures KindTold(c, s, CancelAt(now), Finish(c, now, Plain(Cancelled, now, Some("consumer_cancelled"))))
  {
    hide LeaseExpired;
  }

  /** Every live run that returns an outcome returns it at one input, and that input,
      at the state it met, tells the kind of the outcome and its reason. */
  lemma LiveOutcomeTold(c: Config, queues: seq<seq<Event>>, inputs: seq<Input>) returns (k: nat)
    requires |queues| == |c.rs.registrations|
    requires var r := Run(c, Start(c, queues), inputs); r.done.Some? && r.done.value.Success?
    ensures k < |inputs|
    ensures var before := Run(c, Start(c, queues), inputs[..k]);
            var r := Run(c, Start(c, queues), inputs);
            && before.done.None? && Step(c, before, inputs[k]).done == r.done
            && KindTold(c, before, inputs[k], r.done.value.value)
  {
    hide Run, Step, KindTold;
    k := EndsOnce(c, Start(c, queues), inputs);
    EndingTold(c, Run(c, Start(c, queues), inputs[..k]), inputs[k]);
  }
}
