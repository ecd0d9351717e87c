/** The poll cycle as it runs: queues, visits and counters updated in place by
    loops, each method proved equal to its function in PollCycle. */
module PollRunner {
  import opened Wrappers
  import opened Decimal
  import opened Seam
  import opened Messages
  import opened PollBudget
  import opened PollCycle
  import opened PollCustody
  import opened PollOutcomes
  import opened PollCursors

  // ----- Fairness start and decision, as loops -----

  /** `fairness_start_index`. */
  method FairnessStartIndex(c: Setup) returns (s: nat)
    ensures s == StartIndex(c, c.request.fairnessCursor)
  {
    var cursor := c.request.fairnessCursor;
    if cursor == "fair:start" {
      return 0;
    }
    var requiredIndex, i := 0, 0;
    while i < c.Arms()
      invariant i <= c.Arms() && requiredIndex == RequiredBefore(c.Regs(), i)
      invariant FirstLabelled(c, cursor, i) == FirstLabelled(c, cursor, 0)
    {
      var reg := c.Regs()[i];
      var armId := DerivedArmId(reg);
      if reg.required {
        if requiredIndex < |c.request.requiredArms| {
          armId := c.request.requiredArms[requiredIndex];
        }
        requiredIndex := requiredIndex + 1;
      }
      assert armId == ArmId(c, i);
      if cursor == armId || cursor == "fair:" + armId || cursor == reg.id || cursor == "fair:" + reg.id {
        return i;
      }
      i := i + 1;
    }
    return 0;
  }

  /** What the pass of `decide_kind` collects. */
  datatype Scan = Scan(anyEvents: bool, overflow: bool, truncated: bool, dirty: bool, deferredRequired: bool,
                       failed: Option<Id>)

  function Scanned(scan: Scan, v: Option<Visit>, required: bool): Scan {
    match v
    case Some(Admitted(events, saturated)) =>
      scan.(anyEvents := scan.anyEvents || events != [], truncated := scan.truncated || saturated)
    case Some(OverflowVisit) => scan.(overflow := true)
    case Some(FailedVisit(reason)) => scan.(failed := Some(reason))
    case Some(OutageVisit(_)) => scan.(dirty := scan.dirty || required)
    case Some(UncertainVisit(_)) => scan.(dirty := scan.dirty || required)
    case Some(DegradedVisit(_)) => scan.(dirty := scan.dirty || required)
    case Some(DeferredVisit) => scan.(deferredRequired := scan.deferredRequired || required)
    case Some(IdleVisit) => scan
    case None => scan
  }

  function ScanOf(c: Setup, visits: Visits, order: seq<nat>): Scan
    requires |visits| == c.Arms() && Indices(order, c.Arms())
  {
    if order == [] then Scan(false, false, false, false, false, None)
    else
      var i := order[|order| - 1];
      Scanned(ScanOf(c, visits, order[..|order| - 1]), visits[i], c.Regs()[i].required)
  }

  /** Each flag says that some arm of the order is so. */
  lemma {:induction false} ScanMeans(c: Setup, visits: Visits, order: seq<nat>)
    requires |visits| == c.Arms() && Indices(order, c.Arms())
    ensures var scan := ScanOf(c, visits, order);
            && scan.failed == LastFailed(visits, order)
            && (scan.anyEvents ==> SawEvents(visits)) && (scan.overflow ==> SawOverflow(visits))
            && (scan.truncated ==> Truncated(visits)) && (scan.dirty ==> RequiredDirty(c, visits))
            && (scan.deferredRequired ==> RequiredDeferred(c, visits))
  {
    hide SawEvents, SawOverflow, Truncated, RequiredDirty, RequiredDeferred;
    if order != [] {
      ScanMeans(c, visits, order[..|order| - 1]);
      if visits[order[|order| - 1]].Some? {
        SeenAt(c, visits, order[|order| - 1]);
      }
    }
  }

  lemma SeenAt(c: Setup, visits: Visits, i: nat)
    requires i < |visits| == c.Arms() && visits[i].Some?
    ensures visits[i].value.Admitted? && visits[i].value.events != [] ==> SawEvents(visits)
    ensures visits[i].value.Admitted? && visits[i].value.saturated ==> Truncated(visits)
    ensures visits[i].value.OverflowVisit? ==> SawOverflow(visits)
    ensures c.Regs()[i].required && DirtyVisit(visits[i]) ==> RequiredDirty(c, visits)
    ensures c.Regs()[i].required && visits[i].value.DeferredVisit? ==> RequiredDeferred(c, visits)
  {
    assert EventsIn(visits[i]) != [] ==> SawEvents(visits);
  }

  lemma {:induction false} ScanSees(c: Setup, visits: Visits, order: seq<nat>, i: nat)
    requires |visits| == c.Arms() && Indices(order, c.Arms()) && i in order
    ensures var scan, required := ScanOf(c, visits, order), c.Regs()[i].required;
            && (EventsIn(visits[i]) != [] ==> scan.anyEvents) && (visits[i] == Some(OverflowVisit) ==> scan.overflow)
            && (visits[i].Some? && visits[i].value.Admitted? && visits[i].value.saturated ==> scan.truncated)
            && (required && DirtyVisit(visits[i]) ==> scan.dirty)
            && (required && visits[i] == Some(DeferredVisit) ==> scan.deferredRequired)
  {
    if i != order[|order| - 1] {
      assert i in order[..|order| - 1];
      ScanSees(c, visits, order[..|order| - 1], i);
    }
  }

  lemma ScanComplete(c: Setup, visits: Visits)
    requires |visits| == c.Arms()
    ensures ScanOf(c, visits, Order(c)) ==
            Scan(SawEvents(visits), SawOverflow(visits), Truncated(visits), RequiredDirty(c, visits),
                 RequiredDeferred(c, visits),
                 LastFailed(visits, Order(c)))
  {
    hide ScanOf, Order, EventsIn, DirtyVisit, LastFailed;
    ScanMeans(c, visits, Order(c));
    OrderCoversOnce(c);
    forall i: nat | i < c.Arms()
      ensures EventsIn(visits[i]) != [] ==> ScanOf(c, visits, Order(c)).anyEvents
      ensures visits[i] == Some(OverflowVisit) ==> ScanOf(c, visits, Order(c)).overflow
      ensures visits[i].Some? && visits[i].value.Admitted? && visits[i].value.saturated ==>
                ScanOf(c, visits, Order(c)).truncated
      ensures c.Regs()[i].required && DirtyVisit(visits[i]) ==> ScanOf(c, visits, Order(c)).dirty
      ensures c.Regs()[i].required && visits[i] == Some(DeferredVisit) ==> ScanOf(c, visits, Order(c)).deferredRequired
    {
      ScanSees(c, visits, Order(c), i);
    }
  }

  /** `decide_kind`: one pass over the visits in fairness order, then the table. */
  method Decide(c: Setup, now: Instant, visits: Visits) returns (kind: Kind, reason: Option<Id>)
    requires |visits| == c.Arms()
    ensures (kind, reason) == DecideKind(c, now, visits)
  {
    var order := Order(c);
    var scan := Scan(false, false, false, false, false, None);
    var k := 0;
    while k < |order|
      invariant k <= |order| && scan == ScanOf(c, visits, order[..k])
    {
      assert order[..k + 1][..k] == order[..k];
      scan := Scanned(scan, visits[order[k]], c.Regs()[order[k]].required);
      k := k + 1;
    }
    assert order[..k] == order;
    ScanComplete(c, visits);
    hide ScanOf, SawEvents, SawOverflow, Truncated, RequiredDirty, RequiredDeferred, LastFailed, Order;
    var atLogical := now >= c.request.logicalDeadline;
    if scan.overflow {
      if scan.anyEvents { return Partial, None; } else { return FailedKind, Some("buffer_overflow"); }
    }
    if scan.dirty { return CoverageDegraded, None; }
    if scan.failed.Some? {
      if scan.anyEvents { return CoverageDegraded, None; } else { return FailedKind, scan.failed; }
    }
    if scan.anyEvents {
      if scan.deferredRequired || scan.truncated { return Partial, None; } else { return Events, None; }
    }
    if scan.truncated || (scan.deferredRequired && !atLogical) { return Partial, None; }
    if atLogical { return LogicalDeadman, None; } else { return NoChange, None; }
  }

  /** `build`: one pass over the registrations. */
  method BuildOutcome(c: Setup, now: Instant, starts: Starts, visits: Visits, kind: Kind, reason: Option<Id>)
    returns (o: Result<PollOutcome, CycleError>)
    requires c.Arms() == |starts| == |visits|
    ensures o == Build(c, now, starts, visits, kind, reason)
  {
    hide Records, EventsOf, ThroughOf, RetainedOf;
    var events: seq<Event>, arms: seq<CoverageArm> := [], [];
    var through: map<Id, Id>, retained: map<Id, seq<Id>> := map[], map[];
    ghost var records: seq<ArmRecord> := [];
    EmptyRecords(c, kind, starts, visits);
    var i := 0;
    while i < c.Arms()
      invariant i <= c.Arms() && records == Records(c, kind, starts, visits, i)
      invariant arms == ArmsOf(records) && events == EventsOf(records)
      invariant through == ThroughOf(records) && retained == RetainedOf(records)
    {
      RecordsUnfold(c, kind, starts, visits, i + 1);
      var r := RecordOf(c, kind, starts, visits, i);
      if r.Some? {
        EventsOfPush(records, r.value);
        ThroughPush(records, r.value);
        events := events + r.value.events;
        arms := arms + [r.value.arm];
        through := through[r.value.arm.registrationId := r.value.retainedThrough];
        retained := retained[r.value.arm.registrationId := r.value.retainedEvents];
      }
      ghost var before := records;
      records := records + if r.Some? then [r.value] else [];
      assert r.None? ==> records == before;
      assert arms == ArmsOf(records);
      i := i + 1;
    }
    if arms == [] {
      return Failure(UnresolvedStart);
    }
    return Success(PollOutcome(
                     Outcome(kind, now, Some(c.request.logicalDeadline), events,
                             Some(CoverageComplete(c.request.requiredArms, arms, kind)), arms, reason),
                     through, retained, NextCursor(c)));
  }

  lemma EmptyRecords(c: Setup, kind: Kind, starts: Starts, visits: Visits)
    requires c.Arms() == |starts| == |visits|
    ensures Records(c, kind, starts, visits, 0) == [] && EventsOf([]) == [] && ThroughOf([]) == map[]
            && RetainedOf([]) == map[]
  {
  }

  // ----- The cycle -----

  class PollRun {
    const c: Setup
    const budget: CollectBudget
    var queues: seq<seq<Event>>
    var starts: Starts
    var visits: Visits
    var done: Option<Result<PollOutcome, CycleError>>

    ghost predicate Valid()
      reads this, budget
    {
      && |queues| == |starts| == |visits| == c.Arms() && budget.caps == c.Limits()
      && (done.None? ==> WithinBudget(c, budget.View(), visits))
    }

    function View(): Cycle
      reads this, budget
    {
      Cycle(queues, starts, visits, budget.View(), done)
    }

    constructor (c: Setup, queues: seq<seq<Event>>)
      requires |queues| == c.Arms()
      ensures Valid() && fresh(budget) && this.c == c && View() == Begin(c, queues)
    {
      this.c := c;
      this.budget := new CollectBudget(c.rs, c.request.bound);
      this.queues := queues;
      starts := seq(c.Arms(), _ => None);
      visits := seq(c.Arms(), _ => None);
      done := None;
      new;
      BeginInBudget(c, queues);
    }

    /** `drain_ready`: take what is due while the budget has room. */
    method DrainReady(i: nat, supply: Supply, ghost admitted: seq<Event>)
      returns (taken: seq<Event>, truncated: bool, ok: bool)
      requires |queues| == c.Arms() && i < c.Arms() && budget.caps == c.Limits()
      requires Tallies(budget.View(), admitted) && WithinCaps(c.Limits(), admitted)
      modifies this`queues, budget
      ensures |queues| == c.Arms()
      ensures Drained(budget.View(), taken, queues[i], truncated, ok) ==
                Drain(c, i, c.Regs()[i].id, old(budget.View()), old(queues[i]), supply)
      ensures queues == old(queues)[i := queues[i]]
    {
      hide Take, RoomFor, Tallies, WithinCaps, Drain, Prefixed;
      taken := [];
      assert admitted + taken == admitted;
      var id := c.Regs()[i].id;
      var due := supply.due;
      ghost var goal := Drain(c, i, id, budget.View(), queues[i], supply);
      NothingPrefixed(goal);
      while true
        invariant |queues| == c.Arms() && queues == old(queues)[i := queues[i]]
        invariant Tallies(budget.View(), admitted + taken) && WithinCaps(c.Limits(), admitted + taken)
        invariant goal == Prefixed(taken, Drain(c, i, id, budget.View(), queues[i], Supply(due, supply.tail)))
        decreases |queues[i]|
      {
        DrainUnfolds(c, i, id, budget.View(), queues[i], due, supply.tail);
        NothingMore(taken, budget.View(), queues[i], true, true);
        if !RoomFor(budget.caps, budget.View(), id) {
          return taken, true, true;
        }
        if due == 0 || queues[i] == [] {
          NothingMore(taken, budget.View(), queues[i], supply.tail == Some(Overflow), true);
          return taken, supply.tail == Some(Overflow), true;
        }
        var e := queues[i][0];
        ghost var before := queues[i];
        queues := queues[i := queues[i][1..]];
        NothingMore(taken, budget.View(), queues[i], true, false);
        var admits := budget.TryTake(e, admitted + taken);
        if !admits {
          if !c.accepts(i, e) {
            return taken, true, false;
          }
          queues := queues[i := [e] + queues[i]];
          assert queues[i] == before;
          return taken, true, true;
        }
        assert admitted + taken + [e] == admitted + (taken + [e]);
        PrefixedTwice(taken, e, Drain(c, i, id, budget.View(), queues[i], Supply(due - 1, supply.tail)));
        taken := taken + [e];
        due := due - 1;
      }
    }

    method RestoreReady(i: nat, e: Event) returns (ok: bool)
      requires i < |queues|
      modifies this`queues
      ensures ok == c.accepts(i, e)
      ensures queues == if ok then old(queues)[i := [e] + old(queues)[i]] else old(queues)
    {
      ok := c.accepts(i, e);
      if ok {
        queues := queues[i := [e] + queues[i]];
      }
    }

    ghost function Now(ok: bool): Collected
      reads this, budget
    {
      Collected(queues, visits, budget.View(), ok)
    }

    /** `visit_from`, or a deferral when the budget is used up. */
    method VisitArm(i: nat, obs: Observation, supply: Supply) returns (ok: bool)
      requires |queues| == |visits| == c.Arms() && i < c.Arms() && budget.caps == c.Limits() && visits[i].None?
      requires WithinBudget(c, budget.View(), visits)
      modifies this`queues, this`visits, budget
      ensures Now(ok) == RecordArm(c, old(Now(true)), i, obs, supply)
      ensures ok ==> WithinBudget(c, budget.View(), visits)
    {
      hide Take, Drain, Exhausted;
      ghost var admitted := AllAdmitted(visits);
      RecordArmWithinBudget(c, Now(true), i, obs, supply);
      match obs {
        case Observed(e) =>
          var taken := false;
          if !Exhausted(budget.caps, budget.View()) {
            taken := budget.TryTake(e, admitted);
          }
          if taken {
            var more, truncated;
            more, truncated, ok := DrainReady(i, supply, admitted + [e]);
            if ok {
              visits := visits[i := Some(Admitted([e] + more, truncated))];
            }
          } else {
            ok := RestoreReady(i, e);
            if ok {
              visits := visits[i := Some(DeferredVisit)];
            }
          }
        case _ =>
          visits := visits[i := Some(VisitOf(obs))];
          ok := true;
      }
    }

    method VisitInOrder(ready: Harvest, supplies: seq<Supply>) returns (ok: bool)
      requires |queues| == |visits| == |ready| == |supplies| == c.Arms() && budget.caps == c.Limits()
      requires WithinBudget(c, budget.View(), visits)
      modifies this`queues, this`visits, budget
      ensures |queues| == |visits| == c.Arms()
      ensures Now(ok) == RecordInOrder(c, old(Now(true)), ready, supplies, Order(c))
      ensures ok ==> WithinBudget(c, budget.View(), visits)
    {
      hide RecordArm, WithinBudget, Order;
      var order := Order(c);
      var k := 0;
      ok := true;
      assert order[0..] == order;
      while k < |order| && ok
        invariant k <= |order| && |queues| == |visits| == c.Arms()
        invariant RecordInOrder(c, Now(ok), ready, supplies, order[k..]) ==
                    RecordInOrder(c, old(Now(true)), ready, supplies, order)
        invariant ok ==> WithinBudget(c, budget.View(), visits)
      {
        var i := order[k];
        assert order[k..][0] == i && order[k..][1..] == order[k + 1..];
        if visits[i].None? && ready[i].Some? {
          ok := VisitArm(i, ready[i].value, supplies[i]);
        }
        k := k + 1;
      }
    }

    method RestoreRest(ready: Harvest, visited: Visits) returns (ok: bool)
      requires |queues| == |visits| == |ready| == |visited| == c.Arms()
      modifies this`queues
      ensures |queues| == c.Arms()
      ensures Now(ok) == RestoreLeftover(c, old(Now(true)), ready, visited, 0)
    {
      var i := 0;
      ok := true;
      while i < c.Arms() && ok
        invariant i <= c.Arms() && |queues| == c.Arms()
        invariant RestoreLeftover(c, Now(ok), ready, visited, i) ==
                    RestoreLeftover(c, old(Now(true)), ready, visited, 0)
      {
        if visited[i].Some? && ready[i].Some? && ready[i].value.Observed? {
          ok := RestoreReady(i, ready[i].value.event);
        }
        i := i + 1;
      }
    }

    /** `record_ready`: visit the arms in fairness order, then restore the rest. */
    method RecordReady(ready: Harvest, supplies: seq<Supply>, ghost found: seq<seq<Event>>)
      requires Valid() && done.None? && |ready| == |supplies| == |found| == c.Arms() && queues == Popped(found, ready)
      modifies this`queues, this`visits, this`done, budget
      ensures Valid()
      ensures View() == Recorded(c, old(View()).(queues := found), ready, supplies)
    {
      hide RecordInOrder, RestoreLeftover, WithinBudget, Popped;
      var visited := visits;
      var ok := VisitInOrder(ready, supplies);
      ghost var mid := Now(ok);
      if ok {
        ok := RestoreRest(ready, visited);
      } else {
        StoppedStays(c, mid, ready, visited);
      }
      if !ok {
        done := Some(Failure(Restoring));
      }
    }

    /** `restore_admitted` for one arm: its events go back, the last one first. */
    method GiveBackArm(i: nat) returns (ok: bool)
      requires |queues| == |visits| == c.Arms() && i < c.Arms()
      modifies this`queues
      ensures |queues| == c.Arms() && queues == old(queues)[i := queues[i]]
      ensures (ok, queues[i]) == PushAllBack(c, i, old(queues)[i], EventsIn(visits[i]))
    {
      var events := EventsIn(visits[i]);
      var k := |events|;
      assert events[..k] == events;
      while k > 0
        invariant k <= |events| && |queues| == c.Arms() && queues == old(queues)[i := queues[i]]
        invariant PushAllBack(c, i, queues[i], events[..k]) == PushAllBack(c, i, old(queues)[i], events)
      {
        assert events[..k][k - 1] == events[k - 1] && events[..k][..k - 1] == events[..k - 1];
        ok := RestoreReady(i, events[k - 1]);
        if !ok {
          return;
        }
        k := k - 1;
      }
      return true;
    }

    method GiveBack() returns (ok: bool)
      requires |queues| == |starts| == |visits| == c.Arms()
      modifies this`queues
      ensures |queues| == c.Arms() && (ok, queues) == RestoreAdmitted(c, old(queues), starts, visits, 0)
    {
      hide PushAllBack, EventsIn;
      var i := 0;
      while i < c.Arms()
        invariant i <= c.Arms() && |queues| == c.Arms()
        invariant RestoreAdmitted(c, queues, starts, visits, i) == RestoreAdmitted(c, old(queues), starts, visits, 0)
      {
        if starts[i].Some? {
          ok := GiveBackArm(i);
          if !ok {
            return;
          }
        }
        i := i + 1;
      }
      return true;
    }

    method Finish(outcome: Result<PollOutcome, CycleError>)
      requires Valid() && done.None?
      modifies this`queues, this`done
      ensures Valid()
      ensures View() == Emit(c, old(View()), outcome)
    {
      hide RestoreAdmitted;
      var ok := GiveBack();
      done := Some(if outcome.Success? && !ok then Failure(Restoring) else outcome);
    }

    /** `assemble`. */
    method AssembleNow(now: Instant, over: Visits) returns (o: Result<PollOutcome, CycleError>)
      requires |starts| == |over| == c.Arms()
      ensures o == Assemble(c, now, starts, over)
    {
      hide DecideKind, Build;
      var kind, reason := Decide(c, now, over);
      o := BuildOutcome(c, now, starts, over, kind, reason);
      if o.Success? {
        o := Success(ApplyPosture(c, o.value));
      }
    }

    /** `decide_at_deadline`. */
    method DecideAtDeadline(now: Instant) returns (o: Result<PollOutcome, CycleError>)
      requires |starts| == |visits| == c.Arms()
      ensures o == AtDeadline(c, now, starts, visits)
    {
      hide Assemble, Build;
      if RequiredBinds(c, starts) {
        o := AssembleNow(now, Filled(visits));
      } else {
        o := BuildOutcome(c, now, starts, visits, FailedKind, Some("required_bind_pending"));
        if o.Success? {
          o := Success(ApplyPosture(c, o.value));
        }
      }
    }

    /** Take one answer per wanted arm; an event leaves its queue. */
    method TakeAnswers(have: Harvest, answers: seq<Option<Answer>>, wanted: seq<bool>, ghost found: seq<seq<Event>>)
      returns (ready: Harvest)
      requires |queues| == |have| == |answers| == |wanted| == |found| && queues == Popped(found, have)
      modifies this`queues
      ensures ready == Extended(have, HarvestOf(found, answers, wanted)) && queues == Popped(found, ready)
    {
      ready := have;
      var i := 0;
      while i < |queues|
        invariant i <= |queues| == |ready| == |found|
        invariant forall j :: 0 <= j < i ==> ready[j] == Extended(have, HarvestOf(found, answers, wanted))[j]
        invariant forall j :: i <= j < |ready| ==> ready[j] == have[j]
        invariant queues == Popped(found, ready)
      {
        if ready[i].None? && wanted[i] {
          assert queues[i] == found[i];
          match answers[i] {
            case None =>
            case Some(Head) =>
              if queues[i] != [] {
                ready := ready[i := Some(Observed(queues[i][0]))];
                queues := queues[i := queues[i][1..]];
              }
            case Some(Signal(obs)) =>
              if !obs.Observed? {
                ready := ready[i := Some(obs)];
              }
          }
        }
        i := i + 1;
      }
    }

    /** The branch where the observing race is over. */
    method OnObserved(now: Instant, raced: seq<Option<Answer>>, polled: seq<Option<Answer>>, supplies: seq<Supply>)
      requires Valid() && done.None? && |raced| == |polled| == |supplies| == c.Arms() && ObserveOver(View(), raced)
      modifies this`queues, this`visits, this`done, budget
      ensures Valid()
      ensures View() == Next(c, old(View()), ObserveReady(now, raced, polled, supplies))
    {
      hide Record, HarvestOf, Popped, Extended, Emit, Assemble, ObserveOver, WithinBudget, Pending;
      var pending := Pending(View());
      NothingTaken(queues);
      var ready := TakeAnswers(seq(c.Arms(), _ => None), raced, pending, queues);
      ExtendNothing(HarvestOf(old(queues), raced, pending));
      ready := TakeAnswers(ready, polled, pending, old(queues));
      RecordReady(ready, supplies, old(queues));
      if done.None? && AllVisited(visits) {
        var o := AssembleNow(now, visits);
        Finish(o);
      }
    }

    /** The branch where some binds came in. */
    method OnBound(now: Instant, binds: Starts, polled: seq<Option<Answer>>, supplies: seq<Supply>)
      requires Valid() && done.None? && |binds| == |polled| == |supplies| == c.Arms() && BindsSome(View(), binds)
      modifies this`queues, this`starts, this`visits, this`done, budget
      ensures Valid()
      ensures View() == Next(c, old(View()), BindReady(now, binds, polled, supplies))
    {
      hide Record, HarvestOf, Popped, Extended, Emit, Assemble, BindsSome, WithinBudget, Occupied, StartsMismatch,
        WithBinds;
      if StartsMismatch(c, View(), binds) {
        Finish(Failure(BindStartMismatch));
        return;
      }
      starts := WithBinds(View(), binds);
      var occupied := Occupied(View());
      NothingTaken(queues);
      var ready := TakeAnswers(seq(c.Arms(), _ => None), polled, occupied, queues);
      ExtendNothing(HarvestOf(old(queues), polled, occupied));
      RecordReady(ready, supplies, old(queues));
      if done.None? && AllVisited(visits) {
        var o := AssembleNow(now, visits);
        Finish(o);
      }
    }

    /** The branch where the deadline timer fires. */
    method OnDeadline(now: Instant, polled: seq<Option<Answer>>, supplies: seq<Supply>)
      requires Valid() && done.None? && |polled| == |supplies| == c.Arms()
      modifies this`queues, this`visits, this`done, budget
      ensures Valid()
      ensures View() == Next(c, old(View()), DeadlineWakes(now, polled, supplies))
    {
      hide Record, HarvestOf, Popped, Extended, Emit, AtDeadline, WithinBudget, Pending;
      var pending := Pending(View());
      NothingTaken(queues);
      var ready := TakeAnswers(seq(c.Arms(), _ => None), polled, pending, queues);
      ExtendNothing(HarvestOf(old(queues), polled, pending));
      RecordReady(ready, supplies, old(queues));
      if done.None? {
        var o := DecideAtDeadline(now);
        Finish(o);
      }
    }

    /** The branch where an observation failed: give back what the other arms of the
        race handed over, then everything admitted. */
    method OnObserveFailure(raced: seq<Option<Answer>>)
      requires Valid() && done.None? && |raced| == c.Arms()
      modifies this`queues, this`done
      ensures Valid()
      ensures View() == Next(c, old(View()), ObserveFails(raced))
    {
      hide HarvestOf, Popped, Extended, Emit, WithinBudget, Pending, RestoreLeftover;
      var pending := Pending(View());
      NothingTaken(queues);
      var ready := TakeAnswers(seq(c.Arms(), _ => None), raced, pending, queues);
      ExtendNothing(HarvestOf(old(queues), raced, pending));
      var ok := RestoreRest(ready, seq(c.Arms(), _ => Some(IdleVisit)));
      if ok {
        Finish(Failure(Arm));
      } else {
        done := Some(Failure(Restoring));
      }
    }

    /** The branch where a bind failed. */
    method OnBindFailure()
      requires Valid() && done.None?
      modifies this`queues, this`done
      ensures Valid()
      ensures View() == Next(c, old(View()), BindFails)
    {
      hide Emit, WithinBudget;
      Finish(Failure(Arm));
    }

    /** A cancellation: the outcome lists what was visited, and everything goes back. */
    method OnCancel(now: Instant)
      requires Valid() && done.None?
      modifies this`queues, this`done
      ensures Valid()
      ensures View() == Next(c, old(View()), Cancels(now))
    {
      hide Emit, Build, WithinBudget, ApplyPosture;
      var o := BuildOutcome(c, now, starts, visits, Cancelled, Some("consumer_cancelled"));
      if o.Success? {
        o := Success(ApplyPosture(c, o.value));
      }
      Finish(o);
    }

    /** The deadlines, as the head of the loop looks at them. */
    method OnDeadlineSeen(now: Instant)
      requires Valid() && done.None?
      modifies this`queues, this`done
      ensures Valid()
      ensures View() == Next(c, old(View()), DeadlineSeen(now))
    {
      hide Emit, AtDeadline, WithinBudget;
      if now >= c.request.logicalDeadline || now >= c.request.runDeadline {
        var o := DecideAtDeadline(now);
        Finish(o);
      }
    }

    /** The observer's side: a new event at the end of a queue. */
    method Arrive(i: nat, e: Event)
      requires Valid()
      modifies this`queues
      ensures Valid()
      ensures View() == Next(c, old(View()), Arrives(i, e))
    {
      hide WithinBudget;
      if i < |queues| {
        queues := queues[i := queues[i] + [e]];
      }
    }

    /** One turn of the loop: the branch that a happening selects, if it can be taken. */
    method Turn(e: Happening)
      requires Valid()
      modifies this, budget
      ensures Valid()
      ensures View() == Next(c, old(View()), e)
    {
      hide Record, HarvestOf, Popped, Extended, Emit, Assemble, AtDeadline, Build, ObserveOver, BindsSome, WithinBudget,
        Pending, Occupied, StartsMismatch, WithBinds, RestoreLeftover, Recorded, IfComplete;
      if e.Arrives? {
        Arrive(e.arm, e.event);
      } else if done.None? {
        match e {
          case Cancels(now) => OnCancel(now);
          case DeadlineSeen(now) => OnDeadlineSeen(now);
          case ObserveFails(raced) =>
            if |raced| == c.Arms() {
              OnObserveFailure(raced);
            }
          case ObserveReady(now, raced, polled, supplies) =>
            if |raced| == |polled| == |supplies| == c.Arms() && ObserveOver(View(), raced) {
              OnObserved(now, raced, polled, supplies);
            }
          case BindFails => OnBindFailure();
          case BindReady(now, binds, polled, supplies) =>
            if |binds| == |polled| == |supplies| == c.Arms() && BindsSome(View(), binds) {
              OnBound(now, binds, polled, supplies);
            }
          case DeadlineWakes(now, polled, supplies) =>
            if |polled| == |supplies| == c.Arms() {
              OnDeadline(now, polled, supplies);
            }
          case _ =>
        }
      }
    }

    /** The loop: what it leaves is the state that the machine reaches. */
    method RunUntil(events: seq<Happening>)
      requires Valid()
      modifies this, budget
      ensures Valid()
      ensures View() == RunCycle(c, old(View()), events)
    {
      hide Next, WithinBudget;
      var k := 0;
      while k < |events|
        invariant k <= |events| && Valid()
        invariant RunCycle(c, View(), events[k..]) == RunCycle(c, old(View()), events)
      {
        assert events[k..][0] == events[k] && events[k..][1..] == events[k + 1..];
        Turn(events[k]);
        k := k + 1;
      }
    }
  }

  lemma StoppedStays(c: Setup, s: Collected, ready: Harvest, visited: Visits)
    requires Matches(c, s) && |ready| == |visited| == c.Arms() && !s.ok
    ensures RestoreLeftover(c, s, ready, visited, 0) == s
  {
  }

  function Prefixed(taken: seq<Event>, d: Drained): Drained {
    d.(taken := taken + d.taken)
  }

  lemma NothingPrefixed(d: Drained)
    ensures Prefixed([], d) == d
  {
    assert [] + d.taken == d.taken;
  }

  lemma NothingMore(taken: seq<Event>, b: Budget, queue: seq<Event>, truncated: bool, ok: bool)
    ensures Prefixed(taken, Drained(b, [], queue, truncated, ok)) == Drained(b, taken, queue, truncated, ok)
  {
    assert taken + [] == taken;
  }

  lemma PrefixedTwice(taken: seq<Event>, e: Event, d: Drained)
    ensures Prefixed(taken, Prefixed([e], d)) == Prefixed(taken + [e], d)
  {
    assert taken + ([e] + d.taken) == (taken + [e]) + d.taken;
  }

  lemma DrainUnfolds(c: Setup, i: nat, id: Id, b: Budget, queue: seq<Event>, due: nat, tail: Option<Observation>)
    ensures var d := Drain(c, i, id, b, queue, Supply(due, tail));
            if !RoomFor(c.Limits(), b, id) then d == Drained(b, [], queue, true, true)
            else if due == 0 || queue == [] then d == Drained(b, [], queue, tail == Some(Overflow), true)
            else if Take(c.Limits(), b, queue[0]).None? then
              d == if c.accepts(i, queue[0]) then Drained(b, [], queue, true, true)
                  else Drained(b, [], queue[1..], true, false)
            else d == Prefixed([queue[0]],
                               Drain(c, i, id, Take(c.Limits(), b, queue[0]).value, queue[1..], Supply(due - 1, tail)))
  {
    hide RoomFor, Take;
  }

  lemma NothingTaken(queues: seq<seq<Event>>)
    ensures queues == Popped(queues, seq(|queues|, _ => None))
  {
  }

  lemma ExtendNothing(more: Harvest)
    ensures Extended(seq(|more|, _ => None), more) == more
  {
  }

  // ----- An observer that is always ready -----

  /** `EndlessReadyObserver` on one bind: restored events first, then a new one, for
      ever. `model` has what all its events share. */
  class EndlessReady {
    const model: Event
    var minted: nat
    var restored: seq<Event>

    constructor (model: Event)
      ensures restored == [] && this.model == model && minted == 0
    {
      this.model, minted, restored := model, 0, [];
    }

    /** The `n`-th new event. */
    function Mint(n: nat): Event {
      model.(eventId := "evt:endless-" + Print(n), proposedNext := "anc:after-endless-" + Print(n))
    }

    function Mints(from: nat, n: nat): (r: seq<Event>)
      ensures |r| == n && forall k :: 0 <= k < n ==> r[k] == Mint(from + k)
    {
      seq(n, k requires 0 <= k < n => Mint(from + k))
    }

    method PollReady() returns (e: Event)
      modifies this
      ensures if old(restored) == [] then minted == old(minted) + 1 && restored == [] && e == Mint(old(minted))
              else minted == old(minted) && old(restored) == [e] + restored
    {
      if restored != [] {
        e := restored[0];
        restored := restored[1..];
      } else {
        e := Mint(minted);
        minted := minted + 1;
      }
    }

    method RestoreReady(e: Event)
      modifies this
      ensures restored == [e] + old(restored) && minted == old(minted)
    {
      restored := [e] + restored;
    }
  }

  /** Draining stops even there: the budget runs out, the stream does not. What was
      taken, then what is back at the front, is what was there and then the events
      minted meanwhile, in order. */
  method DrainEndless(source: EndlessReady, budget: CollectBudget, ghost admitted: seq<Event>)
    returns (taken: seq<Event>)
    requires Tallies(budget.View(), admitted) && WithinCaps(budget.caps, admitted)
    modifies source, budget
    ensures Tallies(budget.View(), admitted + taken) && WithinCaps(budget.caps, admitted + taken)
    ensures old(source.minted) <= source.minted
    ensures taken + source.restored ==
              old(source.restored) + source.Mints(old(source.minted), source.minted - old(source.minted))
    ensures !RoomFor(budget.caps, budget.View(), source.model.registrationId) ||
            (source.restored != [] && Take(budget.caps, budget.View(), source.restored[0]).None?)
  {
    hide Take, RoomFor, WithinCaps, Tallies, Print;
    taken := [];
    assert admitted + taken == admitted;
    ghost var from, was := source.minted, source.restored;
    while true
      invariant Tallies(budget.View(), admitted + taken) && WithinCaps(budget.caps, admitted + taken)
      invariant from <= source.minted
      invariant taken + source.restored == was + source.Mints(from, source.minted - from)
      decreases budget.caps.events - budget.events
    {
      if !RoomFor(budget.caps, budget.View(), source.model.registrationId) {
        return;
      }
      CountsUp(budget.caps, budget.View(), admitted + taken);
      ghost var queued, upTo := source.restored, source.Mints(from, source.minted - from);
      var e := source.PollReady();
      ghost var now := source.Mints(from, source.minted - from);
      if queued == [] {
        assert now == upTo + [e];
        assert taken + [] == taken == was + upTo;
      } else {
        assert now == upTo && queued == [e] + source.restored;
      }
      assert taken + ([e] + source.restored) == was + now;
      var ok := budget.TryTake(e, admitted + taken);
      if !ok {
        source.RestoreReady(e);
        return;
      }
      assert admitted + taken + [e] == admitted + (taken + [e]);
      assert taken + ([e] + source.restored) == (taken + [e]) + source.restored;
      taken := taken + [e];
      CountsUp(budget.caps, budget.View(), admitted + taken);
    }
  }

  lemma CountsUp(caps: Caps, b: Budget, admitted: seq<Event>)
    requires Tallies(b, admitted) && WithinCaps(caps, admitted)
    ensures b.events == |admitted| <= caps.events
  {
  }
}
