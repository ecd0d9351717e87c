/** What a poll cycle keeps, over every interleaving: each arm's admitted events
    and its queue are its stream; the budget counts what was admitted; and the
    cycle cannot go on harvesting for ever. */
module PollCustody {
  import opened Wrappers
  import opened Seam
  import opened PollBudget
  import opened PollCycle

  // ----- The fairness order covers every arm once -----

  ghost predicate NoRepeat(order: seq<nat>) {
    forall k, l :: 0 <= k < l < |order| ==> order[k] != order[l]
  }

  lemma Wraps(s: nat, k: nat, n: nat)
    requires s < n && k < n
    ensures (s + k) % n == if s + k < n then s + k else s + k - n
  {
    if s + k >= n {
      assert (s + k - n + n * 1) % n == s + k - n;
    }
  }

  lemma OrderCoversOnce(c: Setup)
    ensures NoRepeat(Order(c)) && forall i: nat :: i < c.Arms() ==> i in Order(c)
  {
    var n, order := c.Arms(), Order(c);
    var s := StartIndex(c, c.request.fairnessCursor);
    forall k, l | 0 <= k < l < |order| ensures order[k] != order[l] {
      Wraps(s, k, n);
      Wraps(s, l, n);
    }
    forall i: nat | i < n ensures i in order {
      var k := if i >= s then i - s else i + n - s;
      Wraps(s, k, n);
      assert order[k] == i;
    }
  }

  // ----- One arm -----

  lemma {:induction false} DrainSplits(c: Setup, i: nat, id: Id, b: Budget, queue: seq<Event>, supply: Supply)
    ensures var d := Drain(c, i, id, b, queue, supply); d.ok ==> d.taken + d.queue == queue
    decreases |queue|
  {
    hide Take, RoomFor;
    if RoomFor(c.Limits(), b, id) && supply.due != 0 && queue != [] {
      var t := Take(c.Limits(), b, queue[0]);
      if t.Some? {
        DrainSplits(c, i, id, t.value, queue[1..], supply.(due := supply.due - 1));
      }
    }
  }

  function InHand(obs: Option<Observation>): seq<Event> {
    if obs.Some? && obs.value.Observed? then [obs.value.event] else []
  }

  lemma RecordArmSplits(c: Setup, s: Collected, i: nat, obs: Observation, supply: Supply)
    requires Matches(c, s) && s.ok && i < c.Arms() && s.visits[i].None?
    ensures var r := RecordArm(c, s, i, obs, supply);
            r.ok ==>
              && r.visits == s.visits[i := r.visits[i]] && r.visits[i].Some?
              && r.queues == s.queues[i := r.queues[i]]
              && EventsIn(r.visits[i]) + r.queues[i] == InHand(Some(obs)) + s.queues[i]
  {
    hide Take, Exhausted, Drain;
    if obs.Observed? {
      var t := Take(c.Limits(), s.budget, obs.event);
      if t.Some? {
        DrainSplits(c, i, c.Regs()[i].id, t.value, s.queues[i], supply);
      }
      assert [] + ([obs.event] + s.queues[i]) == [obs.event] + s.queues[i];
    } else {
      assert [] + s.queues[i] == s.queues[i];
    }
  }

  lemma {:induction false} RecordInOrderByArm(c: Setup, s: Collected, ready: Harvest, supplies: seq<Supply>,
                                              order: seq<nat>, j: nat)
    requires Matches(c, s) && s.ok && |ready| == |supplies| == c.Arms() && Indices(order, c.Arms())
    requires NoRepeat(order) && j < c.Arms()
    requires RecordInOrder(c, s, ready, supplies, order).ok
    ensures var r := RecordInOrder(c, s, ready, supplies, order);
            if j in order && s.visits[j].None? && ready[j].Some? then
              r.visits[j].Some? && EventsIn(r.visits[j]) + r.queues[j] == InHand(ready[j]) + s.queues[j]
            else r.visits[j] == s.visits[j] && r.queues[j] == s.queues[j]
    decreases |order|
  {
    hide RecordArm;
    if order != [] {
      var i := order[0];
      var next := if s.visits[i].None? && ready[i].Some? then RecordArm(c, s, i, ready[i].value, supplies[i]) else s;
      if s.visits[i].None? && ready[i].Some? {
        RecordArmSplits(c, s, i, ready[i].value, supplies[i]);
      }
      assert next.ok;
      RecordInOrderByArm(c, next, ready, supplies, order[1..], j);
      if i == j {
        assert j !in order[1..];
      } else {
        assert j in order <==> j in order[1..];
      }
    }
  }

  lemma {:induction false} RestoreLeftoverByArm(c: Setup, s: Collected, ready: Harvest, visited: Visits, i: nat, j: nat)
    requires Matches(c, s) && |ready| == |visited| == c.Arms() && j < c.Arms()
    requires RestoreLeftover(c, s, ready, visited, i).ok
    ensures var r := RestoreLeftover(c, s, ready, visited, i);
            && r.visits == s.visits && r.budget == s.budget
            && r.queues[j] == if i <= j && visited[j].Some? then InHand(ready[j]) + s.queues[j] else s.queues[j]
    decreases c.Arms() - i
  {
    if i < c.Arms() && s.ok {
      var next := if visited[i].Some? && ready[i].Some? && ready[i].value.Observed?
          then PushBack(c, s, i, ready[i].value.event) else s;
      RestoreLeftoverByArm(c, next, ready, visited, i + 1, j);
    }
    assert [] + s.queues[j] == s.queues[j];
  }

  /** Each observation in hand came off its arm's queue. */
  ghost predicate OffQueues(queues: seq<seq<Event>>, ready: Harvest) {
    |ready| == |queues| &&
    forall j :: 0 <= j < |ready| && ready[j].Some? && ready[j].value.Observed? ==>
      queues[j] != [] && queues[j][0] == ready[j].value.event
  }

  lemma HarvestOffQueues(queues: seq<seq<Event>>, answers: seq<Option<Answer>>, more: seq<Option<Answer>>,
                         wanted: seq<bool>)
    requires |queues| == |answers| == |wanted| == |more|
    ensures OffQueues(queues, HarvestOf(queues, answers, wanted))
    ensures OffQueues(queues, Extended(HarvestOf(queues, answers, wanted), HarvestOf(queues, more, wanted)))
  {
  }

  /** A record keeps each arm's events and queue, visits every arm that had
      something, and touches no arm visited before. */
  lemma RecordByArm(c: Setup, s: Collected, ready: Harvest, supplies: seq<Supply>, j: nat)
    requires Matches(c, s) && s.ok && |ready| == |supplies| == c.Arms() && j < c.Arms()
    requires OffQueues(s.queues, ready) && Record(c, s, ready, supplies).ok
    ensures var r := Record(c, s, ready, supplies);
            && EventsIn(r.visits[j]) + r.queues[j] == EventsIn(s.visits[j]) + s.queues[j]
            && (s.visits[j].Some? ==> r.visits[j] == s.visits[j])
            && (s.visits[j].None? ==> (r.visits[j].Some? <==> ready[j].Some?))
  {
    hide RecordInOrder, RestoreLeftover, RecordArm;
    var popped := s.(queues := Popped(s.queues, ready));
    var mid := RecordInOrder(c, popped, ready, supplies, Order(c));
    OrderCoversOnce(c);
    LeftoverNeedsOk(c, mid, ready, s.visits, 0);
    RecordInOrderByArm(c, popped, ready, supplies, Order(c), j);
    RestoreLeftoverByArm(c, mid, ready, s.visits, 0, j);
    assert InHand(ready[j]) + popped.queues[j] == s.queues[j];
    if s.visits[j].None? && ready[j].None? {
      assert [] + s.queues[j] == s.queues[j];
    }
  }

  lemma {:induction false} LeftoverNeedsOk(c: Setup, s: Collected, ready: Harvest, visited: Visits, i: nat)
    requires Matches(c, s) && |ready| == |visited| == c.Arms()
    requires RestoreLeftover(c, s, ready, visited, i).ok
    ensures s.ok
    decreases c.Arms() - i
  {
    if i < c.Arms() && s.ok {
    } else {
      assert RestoreLeftover(c, s, ready, visited, i) == s;
    }
  }

  // ----- Giving everything back -----

  lemma {:induction false} PushAllBackWhole(c: Setup, i: nat, queue: seq<Event>, events: seq<Event>)
    ensures PushAllBack(c, i, queue, events).0 ==> PushAllBack(c, i, queue, events).1 == events + queue
    decreases |events|
  {
    if events != [] {
      var last, front := events[|events| - 1], events[..|events| - 1];
      PushAllBackWhole(c, i, [last] + queue, front);
      assert front + ([last] + queue) == events + queue by {
        assert events == front + [last];
      }
    }
  }

  lemma {:induction false} RestoreAdmittedByArm(c: Setup, queues: seq<seq<Event>>, starts: Starts, visits: Visits,
                                                i: nat, j: nat)
    requires c.Arms() == |queues| == |starts| == |visits| && j < c.Arms()
    requires RestoreAdmitted(c, queues, starts, visits, i).0
    ensures RestoreAdmitted(c, queues, starts, visits, i).1[j] ==
            if i <= j && starts[j].Some? then EventsIn(visits[j]) + queues[j] else queues[j]
    decreases c.Arms() - i
  {
    if i < c.Arms() {
      if starts[i].None? {
        RestoreAdmittedByArm(c, queues, starts, visits, i + 1, j);
      } else {
        var (ok, queue) := PushAllBack(c, i, queues[i], EventsIn(visits[i]));
        PushAllBackWhole(c, i, queues[i], EventsIn(visits[i]));
        RestoreAdmittedByArm(c, queues[i := queue], starts, visits, i + 1, j);
      }
    }
  }

  // ----- An observer that takes everything back -----

  ghost predicate Accepting(c: Setup) {
    forall i: nat, e :: c.accepts(i, e)
  }

  lemma {:induction false} AcceptingPushes(c: Setup, i: nat, queue: seq<Event>, events: seq<Event>)
    requires Accepting(c)
    ensures PushAllBack(c, i, queue, events).0
    decreases |events|
  {
    if events != [] {
      AcceptingPushes(c, i, [events[|events| - 1]] + queue, events[..|events| - 1]);
    }
  }

  lemma {:induction false} AcceptingRestores(c: Setup, queues: seq<seq<Event>>, starts: Starts, visits: Visits, i: nat)
    requires Accepting(c) && c.Arms() == |queues| == |starts| == |visits|
    ensures RestoreAdmitted(c, queues, starts, visits, i).0
    decreases c.Arms() - i
  {
    if i < c.Arms() {
      AcceptingPushes(c, i, queues[i], EventsIn(visits[i]));
      var queue := PushAllBack(c, i, queues[i], EventsIn(visits[i])).1;
      AcceptingRestores(c, queues, starts, visits, i + 1);
      AcceptingRestores(c, queues[i := queue], starts, visits, i + 1);
    }
  }

  lemma {:induction false} AcceptingDrains(c: Setup, i: nat, id: Id, b: Budget, queue: seq<Event>, supply: Supply)
    requires Accepting(c)
    ensures Drain(c, i, id, b, queue, supply).ok
    decreases |queue|
  {
    hide Take, RoomFor;
    if RoomFor(c.Limits(), b, id) && supply.due != 0 && queue != [] {
      var t := Take(c.Limits(), b, queue[0]);
      if t.Some? {
        AcceptingDrains(c, i, id, t.value, queue[1..], supply.(due := supply.due - 1));
      }
    }
  }

  lemma {:induction false} AcceptingRecords(c: Setup, s: Collected, ready: Harvest, supplies: seq<Supply>,
                                            order: seq<nat>)
    requires Accepting(c) && s.ok
    requires Matches(c, s) && |ready| == |supplies| == c.Arms() && Indices(order, c.Arms())
    ensures RecordInOrder(c, s, ready, supplies, order).ok
    decreases |order|
  {
    hide Take, Exhausted, Drain;
    if order != [] {
      var i := order[0];
      if s.visits[i].None? && ready[i].Some? && ready[i].value.Observed? {
        var t := Take(c.Limits(), s.budget, ready[i].value.event);
        if t.Some? {
          AcceptingDrains(c, i, c.Regs()[i].id, t.value, s.queues[i], supplies[i]);
        }
      }
      var next := if s.visits[i].None? && ready[i].Some? then RecordArm(c, s, i, ready[i].value, supplies[i]) else s;
      AcceptingRecords(c, next, ready, supplies, order[1..]);
    }
  }

  lemma {:induction false} AcceptingLeftovers(c: Setup, s: Collected, ready: Harvest, visited: Visits, i: nat)
    requires Accepting(c) && s.ok && Matches(c, s) && |ready| == |visited| == c.Arms()
    ensures RestoreLeftover(c, s, ready, visited, i).ok
    decreases c.Arms() - i
  {
    if i < c.Arms() {
      var next := if visited[i].Some? && ready[i].Some? && ready[i].value.Observed?
          then PushBack(c, s, i, ready[i].value.event) else s;
      AcceptingLeftovers(c, next, ready, visited, i + 1);
    }
  }

  // ----- Conservation -----

  /** While the cycle runs, what an arm admitted and what it still queues is its stream. */
  ghost predicate Intact(streams: seq<seq<Event>>, s: Cycle) {
    && |streams| == |s.queues| == |s.visits| == |s.starts|
    && forall j :: 0 <= j < |streams| ==>
         EventsIn(s.visits[j]) + s.queues[j] == streams[j] && (s.visits[j].Some? ==> s.starts[j].Some?)
  }

  /** A cycle that returns an outcome leaves every queue as it found it, plus
      arrivals; so does one that fails, unless the observer refused an event back. */
  ghost predicate Conserved(c: Setup, streams: seq<seq<Event>>, s: Cycle) {
    if s.done.None? then Intact(streams, s)
    else
      && |s.queues| == |streams|
      && (s.done.value.Success? || Accepting(c) ==> s.queues == streams)
      && (s.done.value.Success? ==> AdmittedFirst(streams, s.visits))
  }

  /** What an arm admitted is the beginning of its stream. */
  ghost predicate AdmittedFirst(streams: seq<seq<Event>>, visits: Visits) {
    |visits| == |streams| && forall j :: 0 <= j < |streams| ==> EventsIn(visits[j]) <= streams[j]
  }

  lemma EmitConserves(c: Setup, streams: seq<seq<Event>>, s: Cycle, outcome: Result<PollOutcome, CycleError>)
    requires Fitting(c, s) && Intact(streams, s)
    ensures Conserved(c, streams, Emit(c, s, outcome))
  {
    hide RestoreAdmitted;
    if Accepting(c) {
      AcceptingRestores(c, s.queues, s.starts, s.visits, 0);
    }
    if RestoreAdmitted(c, s.queues, s.starts, s.visits, 0).0 {
      forall j | 0 <= j < |streams| ensures RestoreAdmitted(c, s.queues, s.starts, s.visits, 0).1[j] == streams[j] {
        RestoreAdmittedByArm(c, s.queues, s.starts, s.visits, 0, j);
        assert [] + s.queues[j] == s.queues[j];
      }
    }
  }

  lemma RecordedConserves(c: Setup, streams: seq<seq<Event>>, s: Cycle, ready: Harvest, supplies: seq<Supply>)
    requires Fitting(c, s) && s.done.None? && |ready| == |supplies| == c.Arms()
    requires Intact(streams, s) && OffQueues(s.queues, ready)
    requires forall j :: 0 <= j < c.Arms() && ready[j].Some? ==> s.starts[j].Some?
    ensures Conserved(c, streams, Recorded(c, s, ready, supplies))
  {
    hide Record;
    var got := Record(c, Gathered(s), ready, supplies);
    if got.ok {
      forall j | 0 <= j < |streams|
        ensures EventsIn(got.visits[j]) + got.queues[j] == streams[j] && (got.visits[j].Some? ==> s.starts[j].Some?)
      {
        RecordByArm(c, Gathered(s), ready, supplies, j);
      }
    } else if Accepting(c) {
      AcceptingRecord(c, Gathered(s), ready, supplies);
    }
  }

  lemma AcceptingRecord(c: Setup, s: Collected, ready: Harvest, supplies: seq<Supply>)
    requires Accepting(c) && Matches(c, s) && s.ok && |ready| == |supplies| == c.Arms()
    ensures Record(c, s, ready, supplies).ok
  {
    var popped := s.(queues := Popped(s.queues, ready));
    AcceptingRecords(c, popped, ready, supplies, Order(c));
    AcceptingLeftovers(c, RecordInOrder(c, popped, ready, supplies, Order(c)), ready, s.visits, 0);
  }

  lemma IfCompleteConserves(c: Setup, streams: seq<seq<Event>>, s: Cycle, now: Instant)
    requires Fitting(c, s) && Conserved(c, streams, s)
    ensures Conserved(c, streams, IfComplete(c, s, now))
  {
    if s.done.None? && AllVisited(s.visits) {
      EmitConserves(c, streams, s, Assemble(c, now, s.starts, s.visits));
    }
  }

  lemma ObserveFailsConserves(c: Setup, streams: seq<seq<Event>>, s: Cycle, raced: seq<Option<Answer>>)
    requires Fitting(c, s) && s.done.None? && Intact(streams, s)
    ensures Conserved(c, streams, Next(c, s, ObserveFails(raced)))
  {
    hide RestoreLeftover, HarvestOf, Emit;
    if |raced| == c.Arms() {
      var ready := HarvestOf(s.queues, raced, Pending(s));
      HarvestOffQueues(s.queues, raced, raced, Pending(s));
      var popped := Gathered(s).(queues := Popped(s.queues, ready));
      var all: Visits := seq(c.Arms(), _ => Some(IdleVisit));
      var back := RestoreLeftover(c, popped, ready, all, 0);
      if back.ok {
        forall j | 0 <= j < |streams| ensures back.queues[j] == s.queues[j] {
          RestoreLeftoverByArm(c, popped, ready, all, 0, j);
        }
        EmitConserves(c, streams, s.(queues := back.queues), Failure(Arm));
      } else if Accepting(c) {
        AcceptingLeftovers(c, popped, ready, all, 0);
      }
    }
  }

  function Arriving(streams: seq<seq<Event>>, e: Happening): (r: seq<seq<Event>>)
    ensures |r| == |streams|
  {
    if e.Arrives? && e.arm < |streams| then streams[e.arm := streams[e.arm] + [e.event]] else streams
  }

  lemma ArrivalConserves(c: Setup, streams: seq<seq<Event>>, s: Cycle, e: Happening)
    requires Fitting(c, s) && Conserved(c, streams, s) && e.Arrives?
    ensures Conserved(c, Arriving(streams, e), Next(c, s, e))
  {
    if s.done.None? && e.arm < |streams| {
      var j := e.arm;
      assert EventsIn(s.visits[j]) + (s.queues[j] + [e.event]) == (EventsIn(s.visits[j]) + s.queues[j]) + [e.event];
    }
  }

  lemma NextConserves(c: Setup, streams: seq<seq<Event>>, s: Cycle, e: Happening)
    requires Fitting(c, s) && Conserved(c, streams, s) && s.done.None? && !e.Arrives?
    ensures Conserved(c, streams, Next(c, s, e))
  {
    hide Recorded, Emit, IfComplete, AtDeadline, Build, HarvestOf, Extended;
    match e
    case Cancels(now) =>
      EmitConserves(c, streams, s,
                    Finished(c, Build(c, now, s.starts, s.visits, Messages.Cancelled, Some("consumer_cancelled"))));
    case DeadlineSeen(now) => EmitConserves(c, streams, s, AtDeadline(c, now, s.starts, s.visits));
    case ObserveFails(raced) => ObserveFailsConserves(c, streams, s, raced);
    case BindFails => EmitConserves(c, streams, s, Failure(Arm));
    case ObserveReady(now, raced, polled, supplies) =>
      if |raced| == |polled| == |supplies| == c.Arms() {
        ObserveConserves(c, streams, s, now, raced, polled, supplies);
      }
    case BindReady(now, binds, polled, supplies) =>
      if |binds| == |polled| == |supplies| == c.Arms() {
        EmitConserves(c, streams, s, Failure(BindStartMismatch));
        BindConserves(c, streams, s, now, binds, polled, supplies);
      }
    case DeadlineWakes(now, polled, supplies) =>
      if |polled| == |supplies| == c.Arms() {
        HarvestOffQueues(s.queues, polled, polled, Pending(s));
        var ready := HarvestOf(s.queues, polled, Pending(s));
        PendingIsBound(s, polled, polled);
        RecordedConserves(c, streams, s, ready, supplies);
        var r := Recorded(c, s, ready, supplies);
        if r.done.None? {
          EmitConserves(c, streams, r, AtDeadline(c, now, r.starts, r.visits));
        }
      }
  }

  lemma PendingIsBound(s: Cycle, raced: seq<Option<Answer>>, polled: seq<Option<Answer>>)
    requires |s.queues| == |s.starts| == |s.visits| == |raced| == |polled|
    ensures forall j :: 0 <= j < |s.starts| && HarvestOf(s.queues, polled, Pending(s))[j].Some? ==> s.starts[j].Some?
    ensures var ready := Extended(HarvestOf(s.queues, raced, Pending(s)), HarvestOf(s.queues, polled, Pending(s)));
            forall j :: 0 <= j < |s.starts| && ready[j].Some? ==> s.starts[j].Some?
  {
  }

  lemma ObserveConserves(c: Setup, streams: seq<seq<Event>>, s: Cycle, now: Instant, raced: seq<Option<Answer>>,
                         polled: seq<Option<Answer>>, supplies: seq<Supply>)
    requires Fitting(c, s) && Intact(streams, s) && s.done.None? && |raced| == |polled| == |supplies| == c.Arms()
    ensures var ready := Extended(HarvestOf(s.queues, raced, Pending(s)), HarvestOf(s.queues, polled, Pending(s)));
            Conserved(c, streams, IfComplete(c, Recorded(c, s, ready, supplies), now))
  {
    hide Recorded, IfComplete, HarvestOf, Extended;
    var ready := Extended(HarvestOf(s.queues, raced, Pending(s)), HarvestOf(s.queues, polled, Pending(s)));
    HarvestOffQueues(s.queues, raced, polled, Pending(s));
    PendingIsBound(s, raced, polled);
    RecordedConserves(c, streams, s, ready, supplies);
    IfCompleteConserves(c, streams, Recorded(c, s, ready, supplies), now);
  }

  lemma BindConserves(c: Setup, streams: seq<seq<Event>>, s: Cycle, now: Instant, binds: Starts,
                      polled: seq<Option<Answer>>, supplies: seq<Supply>)
    requires Fitting(c, s) && Intact(streams, s) && s.done.None? && |binds| == |polled| == |supplies| == c.Arms()
    ensures var bound := s.(starts := WithBinds(s, binds));
            Conserved(c, streams,
                      IfComplete(c, Recorded(c, bound, HarvestOf(s.queues, polled, Occupied(bound)), supplies), now))
  {
    hide Recorded, IfComplete;
    var bound := s.(starts := WithBinds(s, binds));
    HarvestOffQueues(s.queues, polled, polled, Occupied(bound));
    RecordedConserves(c, streams, bound, HarvestOf(s.queues, polled, Occupied(bound)), supplies);
    IfCompleteConserves(c, streams, Recorded(c, bound, HarvestOf(s.queues, polled, Occupied(bound)), supplies), now);
  }

  /** What each arm received over a run: what it held, then what arrived. */
  function Received(streams: seq<seq<Event>>, events: seq<Happening>): (r: seq<seq<Event>>)
    ensures |r| == |streams|
    decreases |events|
  {
    if events == [] then streams else Received(Arriving(streams, events[0]), events[1..])
  }

  lemma {:induction false} RunConserves(c: Setup, streams: seq<seq<Event>>, s: Cycle, events: seq<Happening>)
    requires Fitting(c, s) && Conserved(c, streams, s)
    ensures Conserved(c, Received(streams, events), RunCycle(c, s, events))
    decreases |events|
  {
    hide Conserved, Next;
    if events != [] {
      var e := events[0];
      if e.Arrives? {
        ArrivalConserves(c, streams, s, e);
      } else if s.done.None? {
        NextConserves(c, streams, s, e);
      } else {
        DoneStays(c, s, e);
      }
      assert Arriving(streams, e) == streams || e.Arrives?;
      RunConserves(c, Arriving(streams, e), Next(c, s, e), events[1..]);
    }
  }

  lemma DoneStays(c: Setup, s: Cycle, e: Happening)
    requires Fitting(c, s) && s.done.Some? && !e.Arrives?
    ensures Next(c, s, e) == s
  {
  }

  /** Over every interleaving of binds, harvests, drains, cancellation, arm
      errors and deadlines, from any queues. */
  lemma CycleConserves(c: Setup, queues: seq<seq<Event>>, events: seq<Happening>)
    requires |queues| == c.Arms()
    ensures Conserved(c, Received(queues, events), RunCycle(c, Begin(c, queues), events))
  {
    var s := Begin(c, queues);
    forall j | 0 <= j < |queues| ensures EventsIn(s.visits[j]) + s.queues[j] == queues[j] {
      assert [] + queues[j] == queues[j];
    }
    RunConserves(c, queues, s, events);
  }

  // ----- The budget -----

  function AllAdmitted(visits: Visits): seq<Event> {
    if visits == [] then [] else AllAdmitted(visits[..|visits| - 1]) + EventsIn(visits[|visits| - 1])
  }

  lemma AllAdmittedPush(visits: Visits, v: Option<Visit>)
    ensures AllAdmitted(visits + [v]) == AllAdmitted(visits) + EventsIn(v)
  {
    assert (visits + [v])[..|visits|] == visits;
  }

  lemma NothingIn()
    ensures AllAdmitted([]) == []
  {
  }

  lemma ConcatStep(a: Visits, front: Visits, last: Option<Visit>)
    requires AllAdmitted(a + front) == AllAdmitted(a) + AllAdmitted(front)
    ensures AllAdmitted(a + (front + [last])) == AllAdmitted(a) + AllAdmitted(front + [last])
  {
    hide AllAdmitted, EventsIn;
    AllAdmittedPush(a + front, last);
    AllAdmittedPush(front, last);
    assert a + (front + [last]) == (a + front) + [last];
  }

  lemma {:induction false} AllAdmittedConcat(a: Visits, b: Visits)
    ensures AllAdmitted(a + b) == AllAdmitted(a) + AllAdmitted(b)
  {
    hide *;
    if b == [] {
      NothingIn();
      assert a + b == a;
    } else {
      var front, last := b[..|b| - 1], b[|b| - 1];
      assert b == front + [last];
      AllAdmittedConcat(a, front);
      ConcatStep(a, front, last);
    }
  }

  lemma AllAdmittedSplit(a: Visits, v: Option<Visit>, b: Visits)
    ensures AllAdmitted(a + [v] + b) == AllAdmitted(a) + EventsIn(v) + AllAdmitted(b)
  {
    hide AllAdmitted, EventsIn;
    AllAdmittedConcat(a + [v], b);
    AllAdmittedPush(a, v);
  }

  lemma AllAdmittedAt(visits: Visits, i: nat)
    requires i < |visits|
    ensures AllAdmitted(visits) == AllAdmitted(visits[..i]) + EventsIn(visits[i]) + AllAdmitted(visits[i + 1..])
  {
    hide *;
    AllAdmittedSplit(visits[..i], visits[i], visits[i + 1..]);
    SplitAt(visits, i);
  }

  lemma SplitAt<T>(xs: seq<T>, i: nat)
    requires i < |xs|
    ensures xs == xs[..i] + [xs[i]] + xs[i + 1..]
  {
  }

  /** Counters are the totals over what was admitted, below every limit. */
  ghost predicate WithinBudget(c: Setup, b: Budget, visits: Visits) {
    Tallies(b, AllAdmitted(visits)) && WithinCaps(c.Limits(), AllAdmitted(visits))
  }

  lemma VisitWithinBudget(c: Setup, b: Budget, visits: Visits, i: nat, v: Visit, es: seq<Event>)
    requires i < |visits| && visits[i].None? && es == EventsIn(Some(v))
    requires Tallies(b, AllAdmitted(visits) + es) && WithinCaps(c.Limits(), AllAdmitted(visits) + es)
    ensures WithinBudget(c, b, visits[i := Some(v)])
  {
    hide AllAdmitted, Tallies, WithinCaps, SameTotals;
    var next := visits[i := Some(v)];
    AllAdmittedAt(visits, i);
    AllAdmittedAt(next, i);
    assert next[..i] == visits[..i] && next[i + 1..] == visits[i + 1..];
    var before, after := AllAdmitted(visits[..i]), AllAdmitted(visits[i + 1..]);
    assert AllAdmitted(visits) == before + after;
    TotalsOfInsert(before, es, after);
    SameTotalsMeet(c.Limits(), b, AllAdmitted(visits) + es, AllAdmitted(next));
  }

  lemma {:induction false} DrainWithinBudget(c: Setup, i: nat, id: Id, b: Budget, queue: seq<Event>, supply: Supply,
                                             admitted: seq<Event>)
    requires Tallies(b, admitted) && WithinCaps(c.Limits(), admitted)
    ensures var d := Drain(c, i, id, b, queue, supply);
            Tallies(d.budget, admitted + d.taken) && WithinCaps(c.Limits(), admitted + d.taken)
    decreases |queue|
  {
    hide Take, RoomFor, Tallies, WithinCaps;
    var d := Drain(c, i, id, b, queue, supply);
    if RoomFor(c.Limits(), b, id) && supply.due != 0 && queue != [] {
      var t := Take(c.Limits(), b, queue[0]);
      if t.Some? {
        TakeMeets(c.Limits(), b, queue[0], admitted);
        DrainWithinBudget(c, i, id, t.value, queue[1..], supply.(due := supply.due - 1), admitted + [queue[0]]);
        assert admitted + [queue[0]] + d.taken[1..] == admitted + d.taken;
      } else {
        assert admitted + [] == admitted;
      }
    } else {
      assert admitted + [] == admitted;
    }
  }

  lemma RecordArmWithinBudget(c: Setup, s: Collected, i: nat, obs: Observation, supply: Supply)
    requires Matches(c, s) && s.ok && i < c.Arms() && s.visits[i].None? && WithinBudget(c, s.budget, s.visits)
    ensures var r := RecordArm(c, s, i, obs, supply); r.ok ==> WithinBudget(c, r.budget, r.visits)
  {
    hide Take, Exhausted, Drain, Tallies, WithinCaps;
    var admitted := AllAdmitted(s.visits);
    assert admitted + [] == admitted;
    var r := RecordArm(c, s, i, obs, supply);
    if obs.Observed? && !Exhausted(c.Limits(), s.budget) && Take(c.Limits(), s.budget, obs.event).Some? {
      var charged := Take(c.Limits(), s.budget, obs.event).value;
      TakeMeets(c.Limits(), s.budget, obs.event, admitted);
      DrainWithinBudget(c, i, c.Regs()[i].id, charged, s.queues[i], supply, admitted + [obs.event]);
      var d := Drain(c, i, c.Regs()[i].id, charged, s.queues[i], supply);
      assert admitted + [obs.event] + d.taken == admitted + ([obs.event] + d.taken);
      if d.ok {
        VisitWithinBudget(c, d.budget, s.visits, i, Admitted([obs.event] + d.taken, d.truncated),
                          [obs.event] + d.taken);
      }
    } else if r.ok {
      VisitWithinBudget(c, s.budget, s.visits, i, r.visits[i].value, []);
    }
  }

  lemma {:induction false} RecordWithinBudget(c: Setup, s: Collected, ready: Harvest, supplies: seq<Supply>,
                                              order: seq<nat>)
    requires Matches(c, s) && s.ok && |ready| == |supplies| == c.Arms() && Indices(order, c.Arms())
    requires WithinBudget(c, s.budget, s.visits) && RecordInOrder(c, s, ready, supplies, order).ok
    ensures var r := RecordInOrder(c, s, ready, supplies, order); WithinBudget(c, r.budget, r.visits)
    decreases |order|
  {
    hide RecordArm, WithinBudget;
    if order != [] {
      var i := order[0];
      if s.visits[i].None? && ready[i].Some? {
        RecordArmWithinBudget(c, s, i, ready[i].value, supplies[i]);
      }
      var next := if s.visits[i].None? && ready[i].Some? then RecordArm(c, s, i, ready[i].value, supplies[i]) else s;
      assert next.ok;
      RecordWithinBudget(c, next, ready, supplies, order[1..]);
    }
  }

  lemma RecordedWithinBudget(c: Setup, s: Cycle, ready: Harvest, supplies: seq<Supply>)
    requires Fitting(c, s) && s.done.None? && |ready| == |supplies| == c.Arms() && WithinBudget(c, s.budget, s.visits)
    ensures var r := Recorded(c, s, ready, supplies);
            if r.done.None? then WithinBudget(c, r.budget, r.visits) else r.done.value.Failure?
  {
    hide RecordInOrder, RestoreLeftover, WithinBudget;
    var popped := Gathered(s).(queues := Popped(s.queues, ready));
    var mid := RecordInOrder(c, popped, ready, supplies, Order(c));
    if Recorded(c, s, ready, supplies).done.None? {
      LeftoverNeedsOk(c, mid, ready, s.visits, 0);
      RecordWithinBudget(c, popped, ready, supplies, Order(c));
      LeftoverKeepsVisits(c, mid, ready, s.visits, 0);
    }
  }

  lemma {:induction false} LeftoverKeepsVisits(c: Setup, s: Collected, ready: Harvest, visited: Visits, i: nat)
    requires Matches(c, s) && |ready| == |visited| == c.Arms()
    ensures var r := RestoreLeftover(c, s, ready, visited, i); r.visits == s.visits && r.budget == s.budget
    decreases c.Arms() - i
  {
    if i < c.Arms() && s.ok {
      var next := if visited[i].Some? && ready[i].Some? && ready[i].value.Observed?
          then PushBack(c, s, i, ready[i].value.event) else s;
      LeftoverKeepsVisits(c, next, ready, visited, i + 1);
    }
  }

  // ----- Progress -----

  function Nones<T>(xs: seq<Option<T>>): nat {
    if xs == [] then 0 else Nones(xs[..|xs| - 1]) + if xs[|xs| - 1].None? then 1 else 0
  }

  /** Filling slots, and never emptying one, lowers the count of empty slots. */
  lemma {:induction false} NonesDrop<T>(before: seq<Option<T>>, after: seq<Option<T>>)
    requires |before| == |after| && forall i :: 0 <= i < |before| && before[i].Some? ==> after[i].Some?
    ensures Nones(after) <= Nones(before)
    ensures (exists i :: 0 <= i < |before| && before[i].None? && after[i].Some?) ==> Nones(after) < Nones(before)
  {
    if before != [] {
      var n := |before| - 1;
      NonesDrop(before[..n], after[..n]);
      if i :| 0 <= i < |before| && before[i].None? && after[i].Some? {
        if i < n {
          assert before[..n][i].None? && after[..n][i].Some?;
        }
      }
    }
  }

  /** Unvisited arms, unbound arms, and one for a cycle that still runs. */
  function Outstanding(s: Cycle): nat {
    Nones(s.visits) + Nones(s.starts) + if s.done.None? then 1 else 0
  }

  /** A harvest that takes place: some bind or some observation came in. */
  predicate Effective(c: Setup, s: Cycle, e: Happening)
    requires Fitting(c, s)
  {
    s.done.None? &&
    match e
    case ObserveReady(_, raced, polled, supplies) =>
      |raced| == |polled| == |supplies| == c.Arms() && ObserveOver(s, raced)
    case BindReady(_, binds, polled, supplies) =>
      |binds| == |polled| == |supplies| == c.Arms() && BindsSome(s, binds)
    case _ => false
  }

  function EffectiveSteps(c: Setup, s: Cycle, events: seq<Happening>): nat
    requires Fitting(c, s)
    decreases |events|
  {
    if events == [] then 0
    else (if Effective(c, s, events[0]) then 1 else 0) + EffectiveSteps(c, Next(c, s, events[0]), events[1..])
  }

  lemma RecordedProgress(c: Setup, s: Cycle, ready: Harvest, supplies: seq<Supply>)
    requires Fitting(c, s) && s.done.None? && |ready| == |supplies| == c.Arms() && OffQueues(s.queues, ready)
    ensures var r := Recorded(c, s, ready, supplies);
            r.done.None? ==>
              && r.starts == s.starts && Nones(r.visits) <= Nones(s.visits)
              && ((exists j :: 0 <= j < c.Arms() && s.visits[j].None? && ready[j].Some?) ==>
                    Nones(r.visits) < Nones(s.visits))
  {
    hide Record;
    var r := Recorded(c, s, ready, supplies);
    if r.done.None? {
      forall j | 0 <= j < c.Arms()
        ensures s.visits[j].Some? ==> r.visits[j].Some?
        ensures s.visits[j].None? && ready[j].Some? ==> r.visits[j].Some?
      {
        RecordByArm(c, Gathered(s), ready, supplies, j);
      }
      NonesDrop(s.visits, r.visits);
    }
  }

  lemma RaceTouchesPending(s: Cycle, raced: seq<Option<Answer>>, polled: seq<Option<Answer>>)
    requires |s.queues| == |s.starts| == |s.visits| == |raced| == |polled| && ObserveOver(s, raced)
    ensures var ready := Extended(HarvestOf(s.queues, raced, Pending(s)), HarvestOf(s.queues, polled, Pending(s)));
            exists j :: 0 <= j < |s.visits| && s.visits[j].None? && ready[j].Some?
  {
    var harvest := HarvestOf(s.queues, raced, Pending(s));
    var i :| 0 <= i < |harvest| && Pending(s)[i];
    if j :| 0 <= j < |harvest| && harvest[j].Some? && !harvest[j].value.Idle? {
      assert Pending(s)[j];
    } else {
      assert harvest[i].Some?;
    }
  }

  lemma ObserveProgress(c: Setup, s: Cycle, e: Happening)
    requires Fitting(c, s) && e.ObserveReady? && Effective(c, s, e)
    ensures Next(c, s, e).done.None? ==> Outstanding(Next(c, s, e)) < Outstanding(s)
  {
    hide Recorded, RestoreAdmitted, Assemble, HarvestOf, Extended, ObserveOver, Nones;
    var ready := Extended(HarvestOf(s.queues, e.raced, Pending(s)), HarvestOf(s.queues, e.polled, Pending(s)));
    HarvestOffQueues(s.queues, e.raced, e.polled, Pending(s));
    RaceTouchesPending(s, e.raced, e.polled);
    RecordedProgress(c, s, ready, e.supplies);
  }

  lemma BindProgress(c: Setup, s: Cycle, e: Happening)
    requires Fitting(c, s) && e.BindReady? && Effective(c, s, e)
    ensures Next(c, s, e).done.None? ==> Outstanding(Next(c, s, e)) < Outstanding(s)
  {
    hide Recorded, RestoreAdmitted, Assemble, HarvestOf, Nones;
    var bound := s.(starts := WithBinds(s, e.binds));
    var ready := HarvestOf(s.queues, e.polled, Occupied(bound));
    HarvestOffQueues(s.queues, e.polled, e.polled, Occupied(bound));
    RecordedProgress(c, bound, ready, e.supplies);
    NonesDrop(s.starts, bound.starts);
    var r := Recorded(c, bound, ready, e.supplies);
    assert c.Arms() == 0 ==> AllVisited(r.visits);
  }

  lemma OtherStepsKeepVisits(c: Setup, s: Cycle, e: Happening)
    requires Fitting(c, s) && s.done.None? && !Effective(c, s, e) && Next(c, s, e).done.None?
    ensures Next(c, s, e).visits == s.visits && Next(c, s, e).starts == s.starts
  {
    hide RestoreAdmitted, RestoreLeftover, Recorded, AtDeadline, Build, HarvestOf, ObserveOver, BindsSome,
      StartsMismatch;
  }

  /** A cycle over `n` arms harvests at most `2 * n + 1` times, whatever the
      observer does. */
  lemma {:induction false} HarvestsBounded(c: Setup, s: Cycle, events: seq<Happening>)
    requires Fitting(c, s)
    ensures EffectiveSteps(c, s, events) <= Outstanding(s)
    ensures s.done.Some? ==> EffectiveSteps(c, s, events) == 0
    decreases |events|
  {
    hide Next, Nones, Effective;
    if events != [] {
      var e, next := events[0], Next(c, s, events[0]);
      HarvestsBounded(c, next, events[1..]);
      if s.done.Some? {
        NothingAfterDone(c, s, e);
      } else if Effective(c, s, e) {
        EffectiveProgress(c, s, e);
      } else if next.done.None? {
        OtherStepsKeepVisits(c, s, e);
      }
    }
  }

  lemma EffectiveProgress(c: Setup, s: Cycle, e: Happening)
    requires Fitting(c, s) && Effective(c, s, e)
    ensures Next(c, s, e).done.None? ==> Outstanding(Next(c, s, e)) < Outstanding(s)
  {
    hide Next, Nones, ObserveOver, BindsSome;
    if e.ObserveReady? {
      ObserveProgress(c, s, e);
    } else {
      BindProgress(c, s, e);
    }
  }

  lemma NothingAfterDone(c: Setup, s: Cycle, e: Happening)
    requires Fitting(c, s) && s.done.Some?
    ensures !Effective(c, s, e) && Next(c, s, e).done.Some?
  {
  }

  lemma {:induction false} NonesAtMost<T>(xs: seq<Option<T>>)
    ensures Nones(xs) <= |xs|
  {
    if xs != [] {
      NonesAtMost(xs[..|xs| - 1]);
    }
  }

  lemma CycleHarvestsBounded(c: Setup, queues: seq<seq<Event>>, events: seq<Happening>)
    requires |queues| == c.Arms()
    ensures EffectiveSteps(c, Begin(c, queues), events) <= 2 * c.Arms() + 1
  {
    var s := Begin(c, queues);
    HarvestsBounded(c, s, events);
    NonesAtMost(s.visits);
    NonesAtMost(s.starts);
  }

  // ----- Every state of a run -----

  ghost predicate InBudget(c: Setup, s: Cycle) {
    s.done.None? || s.done.value.Success? ==> WithinBudget(c, s.budget, s.visits)
  }

  lemma NextInBudget(c: Setup, s: Cycle, e: Happening)
    requires Fitting(c, s) && InBudget(c, s)
    ensures InBudget(c, Next(c, s, e))
  {
    hide RestoreAdmitted, RestoreLeftover, Recorded, AtDeadline, Assemble, Build, HarvestOf, Extended, ObserveOver,
      BindsSome, StartsMismatch, WithBinds, WithinBudget;
    if s.done.None? {
      match e
      case ObserveReady(now, raced, polled, supplies) =>
        if |raced| == |polled| == |supplies| == c.Arms() {
          var ready := Extended(HarvestOf(s.queues, raced, Pending(s)), HarvestOf(s.queues, polled, Pending(s)));
          RecordedWithinBudget(c, s, ready, supplies);
        }
      case BindReady(now, binds, polled, supplies) =>
        if |binds| == |polled| == |supplies| == c.Arms() {
          var bound := s.(starts := WithBinds(s, binds));
          RecordedWithinBudget(c, bound, HarvestOf(s.queues, polled, Occupied(bound)), supplies);
        }
      case DeadlineWakes(now, polled, supplies) =>
        if |polled| == |supplies| == c.Arms() {
          RecordedWithinBudget(c, s, HarvestOf(s.queues, polled, Pending(s)), supplies);
        }
      case _ =>
    }
  }

  /** Over every run the counters are the totals over what was admitted, and no
      limit is passed. */
  lemma {:induction false} RunInBudget(c: Setup, s: Cycle, events: seq<Happening>)
    requires Fitting(c, s) && InBudget(c, s)
    ensures InBudget(c, RunCycle(c, s, events))
    decreases |events|
  {
    hide Next, InBudget;
    if events != [] {
      NextInBudget(c, s, events[0]);
      RunInBudget(c, Next(c, s, events[0]), events[1..]);
    }
  }

  lemma BeginInBudget(c: Setup, queues: seq<seq<Event>>)
    requires |queues| == c.Arms()
    ensures InBudget(c, Begin(c, queues))
  {
    NothingAdmitted(c.Limits());
    NothingVisited(c.Arms());
  }

  lemma {:induction false} NothingVisited(n: nat)
    ensures AllAdmitted(seq(n, _ => None)) == []
  {
    var visits: Visits := seq(n, _ => None);
    if n > 0 {
      NothingVisited(n - 1);
      assert visits[..n - 1] == seq(n - 1, _ => None);
    }
  }
}
