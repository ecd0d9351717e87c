/** What a visit says of its arm: over every run, each visit mirrors what the arm
    handed over when it was recorded, and only what does not fit is put off. */
module PollVisits {
  import opened Wrappers
  import opened Seam
  import opened PollBudget
  import opened PollCycle
  import opened PollCustody
  import opened PollFairness

  function Least(a: nat, b: nat): nat {
    if a <= b then a else b
  }

  // ----- A budget only fills up -----

  predicate BudgetLe(a: Budget, b: Budget) {
    && a.events <= b.events && a.refs <= b.refs && a.bytes <= b.bytes
    && (forall id :: id in a.regEvents ==> a.regEvents[id] <= Used(b.regEvents, id))
    && (forall id :: id in a.regBytes ==> a.regBytes[id] <= Used(b.regBytes, id))
  }

  /** What does not fit now does not fit later. */
  lemma FullStaysFull(caps: Caps, a: Budget, b: Budget, id: Id, e: Event)
    requires BudgetLe(a, b)
    ensures !RoomFor(caps, a, id) ==> !RoomFor(caps, b, id)
    ensures Take(caps, a, e).None? ==> Take(caps, b, e).None?
  {
    hide SurfaceBytes;
    assert Used(a.regEvents, id) <= Used(b.regEvents, id) && Used(a.regBytes, id) <= Used(b.regBytes, id);
    assert Used(a.regEvents, e.registrationId) <= Used(b.regEvents, e.registrationId);
    assert Used(a.regBytes, e.registrationId) <= Used(b.regBytes, e.registrationId);
  }

  lemma LeTransitive(a: Budget, b: Budget, d: Budget)
    requires BudgetLe(a, b) && BudgetLe(b, d)
    ensures BudgetLe(a, d)
  {
  }

  lemma ChargeGrows(b: Budget, e: Event)
    ensures BudgetLe(b, Charge(b, e))
  {
    hide SurfaceBytes;
  }

  // ----- Draining -----

  /** A drain is not truncated exactly when it took every event that was due, no
      overflow followed, and room is left; what it did not take did not fit. */
  lemma {:induction false} DrainIff(c: Setup, i: nat, id: Id, b: Budget, queue: seq<Event>, supply: Supply)
    ensures var d := Drain(c, i, id, b, queue, supply);
            && BudgetLe(b, d.budget)
            && (d.ok ==>
                  && d.taken <= queue && |d.taken| <= Least(supply.due, |queue|)
                  && (!d.truncated <==>
                        && |d.taken| == Least(supply.due, |queue|)
                        && supply.tail != Some(Overflow) && RoomFor(c.Limits(), d.budget, id))
                  && (|d.taken| < Least(supply.due, |queue|) ==>
                        !RoomFor(c.Limits(), d.budget, id) || Take(c.Limits(), d.budget, queue[|d.taken|]).None?))
    decreases |queue|
  {
    hide RoomFor, Charge, Fits, BudgetLe;
    LeReflexive(b);
    if RoomFor(c.Limits(), b, id) && supply.due != 0 && queue != [] {
      var t := Take(c.Limits(), b, queue[0]);
      if t.Some? {
        ChargeGrows(b, queue[0]);
        DrainIff(c, i, id, t.value, queue[1..], supply.(due := supply.due - 1));
        var d := Drain(c, i, id, b, queue, supply);
        LeTransitive(b, t.value, d.budget);
      }
    }
  }

  lemma LeReflexive(b: Budget)
    ensures BudgetLe(b, b)
  {
  }

  // ----- What a visit says -----

  /** Visit `v` mirrors what its arm handed over, with `behind` still in its queue:
      a signal by its kind and reason; an event by being put off, when even later it
      does not fit, or by being admitted first, with those behind it that were due.
      Unless it is saturated it took all of these; if it is, an overflow followed, or
      nothing more fits. `later` is the budget of any later moment. */
  predicate Mirrors(c: Setup, id: Id, v: Visit, obs: Observation, behind: seq<Event>, supply: Supply, later: Budget) {
    match obs
    case Idle => v.IdleVisit?
    case Overflow => v.OverflowVisit?
    case Failed(reason) => v == FailedVisit(reason)
    case Outage(reason) => v == OutageVisit(reason)
    case CursorUncertain(reason) => v == UncertainVisit(reason)
    case Degraded(reason) => v == DegradedVisit(reason)
    case Observed(e) =>
      if v.DeferredVisit? then Take(c.Limits(), later, e).None?
      else
        && v.Admitted? && v.events != [] && v.events[0] == e && v.events[1..] <= behind
        && |v.events| <= 1 + Least(supply.due, |behind|)
        && (!v.saturated ==> |v.events| == 1 + Least(supply.due, |behind|) && supply.tail != Some(Overflow))
        && (v.saturated ==>
              || supply.tail == Some(Overflow) || !RoomFor(c.Limits(), later, id)
              || (|v.events| <= |behind| && Take(c.Limits(), later, behind[|v.events| - 1]).None?))
  }

  lemma MirrorsLater(c: Setup, id: Id, v: Visit, obs: Observation, behind: seq<Event>, supply: Supply, a: Budget,
                     b: Budget)
    requires Mirrors(c, id, v, obs, behind, supply, a) && BudgetLe(a, b)
    ensures Mirrors(c, id, v, obs, behind, supply, b)
  {
    if obs.Observed? {
      if v.DeferredVisit? {
        FullStaysFull(c.Limits(), a, b, id, obs.event);
      } else if v.saturated {
        FullStaysFull(c.Limits(), a, b, id, obs.event);
        if |v.events| <= |behind| {
          FullStaysFull(c.Limits(), a, b, id, behind[|v.events| - 1]);
        }
      }
    }
    hide Take, RoomFor, BudgetLe;
  }

  lemma RecordArmMirrors(c: Setup, s: Collected, i: nat, obs: Observation, supply: Supply)
    requires Matches(c, s) && i < c.Arms() && s.visits[i].None?
    ensures var r := RecordArm(c, s, i, obs, supply);
            && BudgetLe(s.budget, r.budget)
            && (forall j :: 0 <= j < c.Arms() && j != i ==> r.visits[j] == s.visits[j] && r.queues[j] == s.queues[j])
            && (r.visits[i].Some? ==>
                  Mirrors(c, c.Regs()[i].id, r.visits[i].value, obs, s.queues[i], supply, r.budget))
            && (r.visits[i].None? ==> !r.ok)
  {
    LeReflexive(s.budget);
    if obs.Observed? {
      if Take(c.Limits(), s.budget, obs.event).Some? {
        RoomToTake(c.Limits(), s.budget, obs.event);
        ChargeGrows(s.budget, obs.event);
        hide RoomFor, Charge, Fits, BudgetLe, Drain, Exhausted;
        var charged := Take(c.Limits(), s.budget, obs.event).value;
        var d := Drain(c, i, c.Regs()[i].id, charged, s.queues[i], supply);
        DrainIff(c, i, c.Regs()[i].id, charged, s.queues[i], supply);
        LeTransitive(s.budget, charged, d.budget);
        assert ([obs.event] + d.taken)[1..] == d.taken;
      } else {
        hide Take, BudgetLe, Exhausted;
      }
    }
  }

  lemma {:induction false} RecordMirrors(c: Setup, s: Collected, ready: Harvest, supplies: seq<Supply>, order: seq<nat>,
                                         j: nat)
    requires Matches(c, s) && |ready| == |supplies| == c.Arms() && Indices(order, c.Arms()) && j < c.Arms()
    requires s.visits[j].None?
    ensures var r := RecordInOrder(c, s, ready, supplies, order);
            && BudgetLe(s.budget, r.budget)
            && (r.visits[j].Some? ==>
                  && ready[j].Some?
                  && Mirrors(c, c.Regs()[j].id, r.visits[j].value, ready[j].value, s.queues[j], supplies[j], r.budget))
    decreases |order|
  {
    hide RecordArm, Mirrors, BudgetLe;
    LeReflexive(s.budget);
    if order != [] && s.ok {
      var i := order[0];
      var rest := order[1..];
      if s.visits[i].None? && ready[i].Some? {
        var next := RecordArm(c, s, i, ready[i].value, supplies[i]);
        var r := RecordInOrder(c, next, ready, supplies, rest);
        RecordArmMirrors(c, s, i, ready[i].value, supplies[i]);
        if next.visits[j].None? {
          if i != j {
            RecordMirrors(c, next, ready, supplies, rest, j);
            LeTransitive(s.budget, next.budget, r.budget);
          }
        } else {
          RecordKeepsVisit(c, next, ready, supplies, rest, j);
          RecordGrows(c, next, ready, supplies, rest);
          LeTransitive(s.budget, next.budget, r.budget);
          MirrorsLater(c, c.Regs()[j].id, next.visits[j].value, ready[j].value, s.queues[j], supplies[j], next.budget,
                       r.budget);
        }
      } else {
        RecordMirrors(c, s, ready, supplies, rest, j);
      }
    }
  }

  lemma {:induction false} RecordGrows(c: Setup, s: Collected, ready: Harvest, supplies: seq<Supply>, order: seq<nat>)
    requires Matches(c, s) && |ready| == |supplies| == c.Arms() && Indices(order, c.Arms())
    ensures BudgetLe(s.budget, RecordInOrder(c, s, ready, supplies, order).budget)
    decreases |order|
  {
    hide RecordArm, BudgetLe;
    LeReflexive(s.budget);
    if order != [] && s.ok {
      var i := order[0];
      if s.visits[i].None? && ready[i].Some? {
        var next := RecordArm(c, s, i, ready[i].value, supplies[i]);
        RecordArmMirrors(c, s, i, ready[i].value, supplies[i]);
        RecordGrows(c, next, ready, supplies, order[1..]);
        LeTransitive(s.budget, next.budget, RecordInOrder(c, next, ready, supplies, order[1..]).budget);
      } else {
        RecordGrows(c, s, ready, supplies, order[1..]);
      }
    }
  }

  // ----- Over a step, and over a run -----

  function SuppliesOf(e: Happening): seq<Supply> {
    match e
    case ObserveReady(_, _, _, supplies) => supplies
    case BindReady(_, _, _, supplies) => supplies
    case DeadlineWakes(_, _, supplies) => supplies
    case _ => []
  }

  /** What each arm hands over at a happening: the race's values, and what polling
      adds, of the arms that are bound and not visited. */
  function HandedOver(c: Setup, s: Cycle, e: Happening): Harvest
    requires Fitting(c, s)
  {
    match e
    case ObserveReady(_, raced, polled, _) =>
      if |raced| == |polled| == c.Arms() then
        Extended(HarvestOf(s.queues, raced, Pending(s)), HarvestOf(s.queues, polled, Pending(s)))
      else []
    case BindReady(_, binds, polled, _) =>
      if |binds| == |polled| == c.Arms() then
        HarvestOf(s.queues, polled, Occupied(s.(starts := WithBinds(s, binds))))
      else []
    case DeadlineWakes(_, polled, _) =>
      if |polled| == c.Arms() then HarvestOf(s.queues, polled, Pending(s)) else []
    case _ => []
  }

  /** At `e` arm `j` handed something over, an event only from the front of its queue,
      and visit `v` mirrors it. */
  predicate SeenAt(c: Setup, s: Cycle, e: Happening, j: nat, v: Visit, later: Budget)
    requires Fitting(c, s) && j < c.Arms()
  {
    var queue := s.queues[j];
    && j < |HandedOver(c, s, e)| && j < |SuppliesOf(e)| && HandedOver(c, s, e)[j].Some?
    && var obs := HandedOver(c, s, e)[j].value;
       && (obs.Observed? ==> queue != [] && queue[0] == obs.event)
       && Mirrors(c, c.Regs()[j].id, v, obs, if queue == [] then [] else queue[1..], SuppliesOf(e)[j], later)
  }

  lemma RecordedSees(c: Setup, s: Cycle, ready: Harvest, supplies: seq<Supply>, j: nat)
    requires Fitting(c, s) && |ready| == |supplies| == c.Arms() && j < c.Arms() && OffQueues(s.queues, ready)
    ensures var r := Recorded(c, s, ready, supplies);
            && BudgetLe(s.budget, r.budget)
            && (s.visits[j].None? && r.visits[j].Some? ==>
                  && ready[j].Some?
                  && (ready[j].value.Observed? ==> s.queues[j] != [] && s.queues[j][0] == ready[j].value.event)
                  && Mirrors(c, c.Regs()[j].id, r.visits[j].value, ready[j].value,
                             if s.queues[j] == [] then [] else s.queues[j][1..], supplies[j], r.budget))
  {
    hide RecordInOrder, RestoreLeftover, BudgetLe;
    var popped := Gathered(s).(queues := Popped(s.queues, ready));
    var mid := RecordInOrder(c, popped, ready, supplies, Order(c));
    LeftoverKeepsVisits(c, mid, ready, s.visits, 0);
    RecordGrows(c, popped, ready, supplies, Order(c));
    if s.visits[j].None? {
      RecordMirrors(c, popped, ready, supplies, Order(c), j);
    }
    hide Take, RoomFor, Order;
  }

  lemma StepSees(c: Setup, s: Cycle, e: Happening, j: nat)
    requires Fitting(c, s) && j < c.Arms()
    ensures var r := Next(c, s, e);
            && BudgetLe(s.budget, r.budget)
            && (s.visits[j].None? && r.visits[j].Some? ==> SeenAt(c, s, e, j, r.visits[j].value, r.budget))
  {
    hide RestoreAdmitted, RestoreLeftover, Recorded, Assemble, AtDeadline, Build, HarvestOf, Extended, ObserveOver,
      BindsSome, StartsMismatch, WithBinds, Pending, Occupied, OffQueues, Mirrors, BudgetLe;
    LeReflexive(s.budget);
    match e
    case ObserveReady(now, raced, polled, supplies) =>
      if |raced| == |polled| == |supplies| == c.Arms() {
        HarvestOffQueues(s.queues, raced, polled, Pending(s));
        RecordedSees(c, s, HandedOver(c, s, e), supplies, j);
      }
    case BindReady(now, binds, polled, supplies) =>
      if |binds| == |polled| == |supplies| == c.Arms() {
        var bound := s.(starts := WithBinds(s, binds));
        HarvestOffQueues(s.queues, polled, polled, Occupied(bound));
        RecordedSees(c, bound, HandedOver(c, s, e), supplies, j);
      }
    case DeadlineWakes(now, polled, supplies) =>
      if |polled| == |supplies| == c.Arms() {
        HarvestOffQueues(s.queues, polled, polled, Pending(s));
        RecordedSees(c, s, HandedOver(c, s, e), supplies, j);
      }
    case _ =>
  }

  lemma NoArmsNoBudget(c: Setup, s: Cycle, e: Happening)
    requires Fitting(c, s) && c.Arms() == 0
    ensures Next(c, s, e).budget == s.budget
  {
    hide RestoreAdmitted, Assemble, AtDeadline, Build, HarvestOf, Extended, ObserveOver, BindsSome, StartsMismatch,
      WithBinds, Pending, Occupied;
  }

  lemma {:induction false} RunGrows(c: Setup, s: Cycle, events: seq<Happening>)
    requires Fitting(c, s)
    ensures BudgetLe(s.budget, RunCycle(c, s, events).budget)
    decreases |events|
  {
    hide Next, BudgetLe, SeenAt;
    LeReflexive(s.budget);
    if events != [] {
      var next := Next(c, s, events[0]);
      if c.Arms() > 0 {
        StepSees(c, s, events[0], 0);
      } else {
        NoArmsNoBudget(c, s, events[0]);
      }
      RunGrows(c, next, events[1..]);
      LeTransitive(s.budget, next.budget, RunCycle(c, next, events[1..]).budget);
    }
  }

  /** Over every run: a visited arm was recorded at one happening, unvisited before;
      its visit mirrors what it handed over then, and what was put off there does not
      fit at the end of the run either. */
  lemma {:induction false} RunSees(c: Setup, s: Cycle, events: seq<Happening>, j: nat) returns (k: nat)
    requires Fitting(c, s) && j < c.Arms() && s.visits[j].None? && RunCycle(c, s, events).visits[j].Some?
    ensures k < |events| && RunCycle(c, s, events[..k]).visits[j].None?
    ensures var r := RunCycle(c, s, events);
            SeenAt(c, RunCycle(c, s, events[..k]), events[k], j, r.visits[j].value, r.budget)
    decreases |events|
  {
    hide Next, SeenAt;
    var next := Next(c, s, events[0]);
    if next.visits[j].Some? {
      k := 0;
      assert events[..0] == [];
      RunKeepsVisit(c, next, events[1..], j);
      StepSees(c, s, events[0], j);
      RunGrows(c, next, events[1..]);
      SeenLater(c, s, events[0], j, next.visits[j].value, next.budget, RunCycle(c, next, events[1..]).budget);
    } else {
      var l := RunSees(c, next, events[1..], j);
      k := l + 1;
      assert events[..k][0] == events[0] && events[..k][1..] == events[1..][..l];
    }
  }

  lemma SeenLater(c: Setup, s: Cycle, e: Happening, j: nat, v: Visit, a: Budget, b: Budget)
    requires Fitting(c, s) && j < c.Arms() && SeenAt(c, s, e, j, v, a) && BudgetLe(a, b)
    ensures SeenAt(c, s, e, j, v, b)
  {
    var queue := s.queues[j];
    MirrorsLater(c, c.Regs()[j].id, v, HandedOver(c, s, e)[j].value, if queue == [] then [] else queue[1..],
                 SuppliesOf(e)[j], a, b);
    hide HandedOver, SuppliesOf, Mirrors, BudgetLe;
  }

  lemma BeginsUnvisited(c: Setup, queues: seq<seq<Event>>, j: nat)
    requires |queues| == c.Arms() && j < c.Arms()
    ensures Fitting(c, Begin(c, queues)) && Begin(c, queues).done.None? && Begin(c, queues).visits[j].None?
  {
  }

  /** What an unsaturated visit took: the head and all that was due behind it. */
  lemma SeenWhole(c: Setup, s: Cycle, e: Happening, j: nat, v: Visit, later: Budget)
    requires Fitting(c, s) && j < c.Arms() && SeenAt(c, s, e, j, v, later) && v.Admitted? && !v.saturated
    ensures j < |SuppliesOf(e)| && s.queues[j] != [] && SuppliesOf(e)[j].tail != Some(Overflow)
    ensures v.events == s.queues[j][..1 + Least(SuppliesOf(e)[j].due, |s.queues[j]| - 1)]
  {
    hide HandedOver, SuppliesOf, Take, RoomFor;
    var queue := s.queues[j];
    assert queue == [queue[0]] + queue[1..] && v.events == [v.events[0]] + v.events[1..];
  }

  /** Over every run that does not fail: an arm is put off only when its event does
      not fit on top of all that the cycle has admitted by its end. */
  lemma DeferredDoesNotFit(c: Setup, queues: seq<seq<Event>>, events: seq<Happening>, j: nat) returns (k: nat, e: Event)
    requires |queues| == c.Arms() && j < c.Arms()
    requires var r := RunCycle(c, Begin(c, queues), events);
             r.visits[j] == Some(DeferredVisit) && (r.done.None? || r.done.value.Success?)
    ensures k < |events|
    ensures var s := RunCycle(c, Begin(c, queues), events[..k]);
            s.visits[j].None? && s.queues[j] != [] && s.queues[j][0] == e
    ensures var admitted := AllAdmitted(RunCycle(c, Begin(c, queues), events).visits);
            var caps := c.Limits();
            || TotalBytes(admitted) >= caps.bytes
            || TotalBytes(WithId(admitted, e.registrationId)) >= Cap(caps.regBytes, e.registrationId)
            || !WithinCaps(caps, admitted + [e])
  {
    BeginsUnvisited(c, queues, j);
    BeginInBudget(c, queues);
    RunInBudget(c, Begin(c, queues), events);
    hide RunCycle, Begin, Next, SeenAt, WithinCaps, Tallies, AllAdmitted, Take, WithId, TotalBytes, Cap;
    var r := RunCycle(c, Begin(c, queues), events);
    k := RunSees(c, Begin(c, queues), events, j);
    e := DeferredEvent(c, RunCycle(c, Begin(c, queues), events[..k]), events[k], j, r.budget);
    TakeMeets(c.Limits(), r.budget, e, AllAdmitted(r.visits));
  }

  lemma DeferredEvent(c: Setup, s: Cycle, e: Happening, j: nat, later: Budget) returns (head: Event)
    requires Fitting(c, s) && j < c.Arms() && SeenAt(c, s, e, j, DeferredVisit, later)
    ensures s.queues[j] != [] && s.queues[j][0] == head && Take(c.Limits(), later, head).None?
  {
    hide HandedOver, SuppliesOf, Take;
    head := s.queues[j][0];
  }
}
