/** Fairness over cycles: feeding the next cursor back rotates the first turn
    through the arms, so no arm waits longer than one round. */
module PollFairness {
  import opened Wrappers
  import opened Seam
  import opened Messages
  import opened PollBudget
  import opened PollCycle
  import opened PollCustody
  import opened PollOutcomes

  function NextIndex(c: Setup): (i: nat)
    requires c.Arms() > 0
    ensures i < c.Arms()
  {
    (StartIndex(c, c.request.fairnessCursor) + 1) % c.Arms()
  }

  lemma {:induction false} FirstLabelledIs(c: Setup, cursor: Id, from: nat, i: nat)
    requires from <= i < c.Arms() && cursor in Labels(c, i)
    requires forall j :: from <= j < i ==> cursor !in Labels(c, j)
    ensures FirstLabelled(c, cursor, from) == Some(i)
    decreases i - from
  {
    hide Labels;
    if from < i {
      FirstLabelledIs(c, cursor, from + 1, i);
    }
  }

  lemma NextCursorNamesNext(c: Setup)
    requires c.Arms() > 0
    ensures NextCursor(c) in Labels(c, NextIndex(c))
  {
  }

  /** The next cycle starts one arm further if and only if the cursor handed out
      is not the reserved `fair:start` (unless the next arm is the first), and
      names no arm before the next one. */
  lemma AdvancesIff(c: Setup)
    requires c.Arms() > 0
    ensures StartIndex(c, NextCursor(c)) == NextIndex(c) <==>
            if NextCursor(c) == "fair:start" then NextIndex(c) == 0
            else forall j :: 0 <= j < NextIndex(c) ==> NextCursor(c) !in Labels(c, j)
  {
    hide Labels, NextCursor;
    NextCursorNamesNext(c);
    if NextCursor(c) != "fair:start" {
      if forall j :: 0 <= j < NextIndex(c) ==> NextCursor(c) !in Labels(c, j) {
        FirstLabelledIs(c, NextCursor(c), 0, NextIndex(c));
      } else {
        var j :| 0 <= j < NextIndex(c) && NextCursor(c) in Labels(c, j);
        FirstLabelledBefore(c, NextCursor(c), 0, j);
      }
    }
  }

  lemma FirstLabelledBefore(c: Setup, cursor: Id, from: nat, j: nat)
    requires from <= j < c.Arms() && cursor in Labels(c, j)
    ensures FirstLabelled(c, cursor, from).Some? && FirstLabelled(c, cursor, from).value <= j
    decreases j - from
  {
    if cursor !in Labels(c, from) {
      FirstLabelledBefore(c, cursor, from + 1, j);
    }
  }

  /** Labels of different arms differ, and none is the reserved first cursor. */
  ghost predicate DistinctLabels(c: Setup) {
    && (forall i, j :: 0 <= i < j < c.Arms() ==> Labels(c, i) !! Labels(c, j))
    && (forall i :: 0 <= i < c.Arms() ==> "fair:start" !in Labels(c, i))
  }

  lemma Advances(c: Setup)
    requires c.Arms() > 0 && DistinctLabels(c)
    ensures StartIndex(c, NextCursor(c)) == NextIndex(c)
  {
    hide Labels, NextCursor;
    NextCursorNamesNext(c);
    AdvancesIff(c);
    forall j | 0 <= j < NextIndex(c) ensures NextCursor(c) !in Labels(c, j) {
      assert Labels(c, j) !! Labels(c, NextIndex(c));
    }
  }

  /** A requested arm id `start` at any place but the first sends the rotation
      back to the first arm. */
  lemma ArmNamedStartResets(c: Setup)
    requires c.Arms() > 0 && NextIndex(c) > 0 && ArmId(c, NextIndex(c)) == "start"
    ensures NextCursor(c) == "fair:start" && StartIndex(c, NextCursor(c)) == 0
  {
    assert "fair:"[0] != "start"[0];
    assert "fair:" + "start" == "fair:start";
  }

  // ----- Many cycles -----

  /** A whole cycle: what it was asked, the queues it met, and what happened. */
  datatype CycleOf = CycleOf(c: Setup, queues: seq<seq<Event>>, events: seq<Happening>)

  function FinalOf(y: CycleOf): (r: Cycle)
    requires |y.queues| == y.c.Arms()
    ensures Fitting(y.c, r)
  {
    RunCycle(y.c, Begin(y.c, y.queues), y.events)
  }

  predicate Completed(y: CycleOf) {
    |y.queues| == y.c.Arms() && FinalOf(y).done.Some? && FinalOf(y).done.value.Success?
  }

  function OutcomeIn(y: CycleOf): PollOutcome
    requires Completed(y)
  {
    FinalOf(y).done.value.value
  }

  function StartOf(y: CycleOf): nat {
    StartIndex(y.c, y.c.request.fairnessCursor)
  }

  /** The same registrations and arm ids. */
  predicate SameArms(c: Setup, d: Setup) {
    c.Regs() == d.Regs() && c.request.requiredArms == d.request.requiredArms
  }

  /** Completed cycles over the same arms, each with its own deadlines, bounds and
      acknowledged anchors, and each given the cursor the one before handed out. */
  predicate Linked(cs: seq<CycleOf>) {
    && (forall k :: 0 <= k < |cs| ==> Completed(cs[k]) && SameArms(cs[0].c, cs[k].c))
    && (forall k :: 0 <= k < |cs| - 1 ==> cs[k + 1].c.request.fairnessCursor == OutcomeIn(cs[k]).nextCursor)
  }

  lemma {:induction false} SameFirstLabelled(c: Setup, d: Setup, cursor: Id, from: nat)
    requires SameArms(c, d) && from <= c.Arms()
    ensures FirstLabelled(c, cursor, from) == FirstLabelled(d, cursor, from)
    decreases c.Arms() - from
  {
    if from < c.Arms() {
      SameFirstLabelled(c, d, cursor, from + 1);
      assert Labels(c, from) == Labels(d, from);
    }
  }

  lemma SameStart(c: Setup, d: Setup, cursor: Id)
    requires SameArms(c, d)
    ensures StartIndex(c, cursor) == StartIndex(d, cursor)
  {
    SameFirstLabelled(c, d, cursor, 0);
  }

  lemma SameLabels(c: Setup, d: Setup)
    requires SameArms(c, d) && DistinctLabels(c)
    ensures DistinctLabels(d)
  {
    forall i | 0 <= i < c.Arms() ensures Labels(d, i) == Labels(c, i) {
    }
  }

  /** The cursor a cycle hands out names the arm after the one it started with. */
  lemma HandsOnNext(cs: seq<CycleOf>, k: nat)
    requires Linked(cs) && k < |cs| && DistinctLabels(cs[0].c) && cs[0].c.Arms() > 0
    ensures StartIndex(cs[0].c, OutcomeIn(cs[k]).nextCursor) == (StartOf(cs[k]) + 1) % cs[0].c.Arms()
  {
    var y := cs[k];
    assert Completed(y) && SameArms(cs[0].c, y.c) && y.c.Arms() == cs[0].c.Arms();
    NextOf(y);
    hide *;
    CursorOf(y);
    SameLabels(cs[0].c, y.c);
    Advances(y.c);
    SameStart(cs[0].c, y.c, NextCursor(y.c));
  }

  lemma NextOf(y: CycleOf)
    requires y.c.Arms() > 0
    ensures NextIndex(y.c) == (StartOf(y) + 1) % y.c.Arms()
  {
  }

  lemma CursorOf(y: CycleOf)
    requires Completed(y)
    ensures OutcomeIn(y).nextCursor == NextCursor(y.c)
  {
    hide NextCursor, RunCycle, Begin;
    CycleOutcomeFromCycle(y.c, y.queues, y.events);
  }

  /** Every cycle starts one arm further than the one before. */
  lemma EachCycleAdvances(cs: seq<CycleOf>, k: nat)
    requires Linked(cs) && k + 1 < |cs| && DistinctLabels(cs[0].c) && cs[0].c.Arms() > 0
    ensures StartOf(cs[k + 1]) == (StartOf(cs[k]) + 1) % cs[0].c.Arms()
  {
    hide StartIndex, DistinctLabels, RunCycle;
    HandsOnNext(cs, k);
    assert SameArms(cs[0].c, cs[k + 1].c);
    SameStart(cs[0].c, cs[k + 1].c, cs[k + 1].c.request.fairnessCursor);
  }

  lemma StartBelow(y: CycleOf)
    requires y.c.Arms() > 0
    ensures StartOf(y) < y.c.Arms()
  {
    StartInRange(y.c, y.c.request.fairnessCursor);
  }

  /** Within one round the first turn passes each arm once. */
  lemma {:induction false} RotationAfter(cs: seq<CycleOf>, k: nat)
    requires Linked(cs) && k < |cs| && DistinctLabels(cs[0].c) && 0 < cs[0].c.Arms() && k <= cs[0].c.Arms()
    ensures var s, n := StartOf(cs[0]), cs[0].c.Arms(); StartOf(cs[k]) == if s + k < n then s + k else s + k - n
  {
    hide *;
    StartBelow(cs[0]);
    if k > 0 {
      RotationAfter(cs, k - 1);
      CycleMovesOn(cs, k - 1);
    }
  }

  lemma CycleMovesOn(cs: seq<CycleOf>, k: nat)
    requires Linked(cs) && k + 1 < |cs| && DistinctLabels(cs[0].c) && cs[0].c.Arms() > 0
    ensures var s := StartOf(cs[k]); StartOf(cs[k + 1]) == if s + 1 < cs[0].c.Arms() then s + 1 else 0
  {
    assert SameArms(cs[0].c, cs[k].c);
    StartBelow(cs[k]);
    hide StartOf, DistinctLabels, Linked, SameArms;
    EachCycleAdvances(cs, k);
    NextAround(StartOf(cs[k]), cs[0].c.Arms());
  }

  lemma StartInRange(c: Setup, cursor: Id)
    requires c.Arms() > 0
    ensures StartIndex(c, cursor) < c.Arms()
  {
  }

  lemma NextAround(s: nat, n: nat)
    requires s < n
    ensures (s + 1) % n == if s + 1 < n then s + 1 else 0
  {
    if n > 1 {
      Wraps(s, 1, n);
    }
  }

  // ----- Bounded wait -----

  function Fresh(c: Setup, queues: seq<seq<Event>>): Collected {
    Collected(queues, seq(c.Arms(), _ => None), EMPTY, true)
  }

  /** A visit that admitted `e` first. */
  predicate Leads(v: Option<Visit>, e: Event) {
    v.Some? && v.value.Admitted? && v.value.events != [] && v.value.events[0] == e
  }

  /** The first arm of the order meets an empty budget: an event it can afford is
      admitted, first in its visit. */
  lemma FirstTurnAdmits(c: Setup, queues: seq<seq<Event>>, ready: Harvest, supplies: seq<Supply>, e: Event)
    requires |queues| == |ready| == |supplies| == c.Arms() > 0 && OffQueues(queues, ready)
    requires ready[StartIndex(c, c.request.fairnessCursor)] == Some(Observed(e)) && Take(c.Limits(), EMPTY, e).Some?
    requires Record(c, Fresh(c, queues), ready, supplies).ok
    ensures var v := Record(c, Fresh(c, queues), ready, supplies).visits[StartIndex(c, c.request.fairnessCursor)];
            Leads(v, e)
  {
    hide Take, Drain, RestoreLeftover, StartIndex, RecordInOrder;
    var i := StartIndex(c, c.request.fairnessCursor);
    var s := Fresh(c, queues).(queues := Popped(queues, ready));
    OrderCoversOnce(c);
    var order := Order(c);
    Wraps(i, 0, c.Arms());
    assert order[0] == i;
    var next := RecordArm(c, s, i, ready[i].value, supplies[i]);
    var mid := RecordInOrder(c, s, ready, supplies, order);
    OrderUnfolds(c, s, ready, supplies, order);
    RoomToTake(c.Limits(), EMPTY, e);
    LeftoverNeedsOk(c, mid, ready, Fresh(c, queues).visits, 0);
    OrderNeedsOk(c, next, ready, supplies, order[1..]);
    RecordInOrderByArm(c, next, ready, supplies, order[1..], i);
    RestoreLeftoverByArm(c, mid, ready, Fresh(c, queues).visits, 0, i);
  }

  lemma OrderUnfolds(c: Setup, s: Collected, ready: Harvest, supplies: seq<Supply>, order: seq<nat>)
    requires Matches(c, s) && |ready| == |supplies| == c.Arms() && Indices(order, c.Arms())
    requires order != [] && s.ok && s.visits[order[0]].None? && ready[order[0]].Some?
    ensures RecordInOrder(c, s, ready, supplies, order) ==
            RecordInOrder(c, RecordArm(c, s, order[0], ready[order[0]].value, supplies[order[0]]), ready, supplies,
                          order[1..])
  {
    hide RecordArm;
  }

  lemma RoomToTake(caps: Caps, b: Budget, e: Event)
    requires Take(caps, b, e).Some?
    ensures !Exhausted(caps, b)
  {
  }

  lemma OrderNeedsOk(c: Setup, s: Collected, ready: Harvest, supplies: seq<Supply>, order: seq<nat>)
    requires Matches(c, s) && |ready| == |supplies| == c.Arms() && Indices(order, c.Arms())
    requires RecordInOrder(c, s, ready, supplies, order).ok
    ensures s.ok
  {
  }

  // ----- Visits stay -----

  lemma {:induction false} RecordKeepsVisit(c: Setup, s: Collected, ready: Harvest, supplies: seq<Supply>,
                                            order: seq<nat>, i: nat)
    requires Matches(c, s) && |ready| == |supplies| == c.Arms() && Indices(order, c.Arms()) && i < c.Arms()
             && s.visits[i].Some?
    ensures RecordInOrder(c, s, ready, supplies, order).visits[i] == s.visits[i]
    decreases |order|
  {
    hide Take, Drain, Exhausted;
    if order != [] && s.ok {
      var k := order[0];
      var next := if s.visits[k].None? && ready[k].Some? then RecordArm(c, s, k, ready[k].value, supplies[k]) else s;
      RecordKeepsVisit(c, next, ready, supplies, order[1..], i);
    }
  }

  lemma RecordedKeepsVisit(c: Setup, s: Cycle, ready: Harvest, supplies: seq<Supply>, i: nat)
    requires Fitting(c, s) && |ready| == |supplies| == c.Arms() && i < c.Arms() && s.visits[i].Some?
    ensures Recorded(c, s, ready, supplies).visits[i] == s.visits[i]
  {
    hide RecordInOrder, RestoreLeftover;
    var popped := Gathered(s).(queues := Popped(s.queues, ready));
    RecordKeepsVisit(c, popped, ready, supplies, Order(c), i);
    LeftoverKeepsVisits(c, RecordInOrder(c, popped, ready, supplies, Order(c)), ready, s.visits, 0);
  }

  lemma NextKeepsVisit(c: Setup, s: Cycle, e: Happening, i: nat)
    requires Fitting(c, s) && i < c.Arms() && s.visits[i].Some?
    ensures Next(c, s, e).visits[i] == s.visits[i]
  {
    hide RestoreAdmitted, RestoreLeftover, Recorded, Assemble, AtDeadline, Build, HarvestOf, Extended, ObserveOver,
      BindsSome, StartsMismatch, WithBinds, Pending, Occupied;
    match e
    case ObserveReady(now, raced, polled, supplies) =>
      if |raced| == |polled| == |supplies| == c.Arms() {
        RecordedKeepsVisit(c, s, ReadyAt(c, s, e), supplies, i);
      }
    case BindReady(now, binds, polled, supplies) =>
      if |binds| == |polled| == |supplies| == c.Arms() {
        RecordedKeepsVisit(c, s.(starts := WithBinds(s, binds)), ReadyAt(c, s, e), supplies, i);
      }
    case DeadlineWakes(now, polled, supplies) =>
      if |polled| == |supplies| == c.Arms() {
        RecordedKeepsVisit(c, s, HarvestOf(s.queues, polled, Pending(s)), supplies, i);
      }
    case _ =>
  }

  /** A visit, once recorded, is there at the end. */
  lemma {:induction false} RunKeepsVisit(c: Setup, s: Cycle, events: seq<Happening>, i: nat)
    requires Fitting(c, s) && i < c.Arms() && s.visits[i].Some?
    ensures RunCycle(c, s, events).visits[i] == s.visits[i]
    decreases |events|
  {
    hide Next;
    if events != [] {
      NextKeepsVisit(c, s, events[0], i);
      RunKeepsVisit(c, Next(c, s, events[0]), events[1..], i);
    }
  }

  lemma {:induction false} RunSplits(c: Setup, s: Cycle, events: seq<Happening>, j: nat)
    requires Fitting(c, s) && j < |events|
    ensures RunCycle(c, s, events) == RunCycle(c, Next(c, RunCycle(c, s, events[..j]), events[j]), events[j + 1..])
    decreases |events|
  {
    hide Next;
    if j == 0 {
      assert events[..0] == [];
    } else {
      RunSplits(c, Next(c, s, events[0]), events[1..], j - 1);
      assert events[..j][0] == events[0] && events[..j][1..] == events[1..][..j - 1];
      assert events[1..][j..] == events[j + 1..];
    }
  }

  // ----- One arm's offers -----

  /** What a harvesting happening takes to `record_ready`. */
  function ReadyAt(c: Setup, s: Cycle, e: Happening): Harvest
    requires Fitting(c, s)
    requires e.ObserveReady? ==> |e.raced| == |e.polled| == c.Arms()
    requires e.BindReady? ==> |e.binds| == |e.polled| == c.Arms()
  {
    match e
    case ObserveReady(_, raced, polled, _) =>
      Extended(HarvestOf(s.queues, raced, Pending(s)), HarvestOf(s.queues, polled, Pending(s)))
    case BindReady(_, binds, polled, _) => HarvestOf(s.queues, polled, Occupied(s.(starts := WithBinds(s, binds))))
    case _ => []
  }

  /** The happening reaches `record_ready`. */
  predicate Recording(c: Setup, s: Cycle, e: Happening)
    requires Fitting(c, s)
  {
    match e
    case ObserveReady(_, raced, polled, supplies) =>
      |raced| == |polled| == |supplies| == c.Arms() && ObserveOver(s, raced)
    case BindReady(_, binds, polled, supplies) =>
      |binds| == |polled| == |supplies| == c.Arms() && BindsSome(s, binds) && !StartsMismatch(c, s, binds)
    case _ => false
  }

  /** Happening `j` is the first record of the cycle that finds anything, and finds
      there event `e` of arm `i`, which an empty budget affords. */
  predicate Offers(y: CycleOf, j: nat, i: nat, e: Event)
    requires |y.queues| == y.c.Arms()
  {
    j < |y.events| && i < y.c.Arms() &&
    var s := RunCycle(y.c, Begin(y.c, y.queues), y.events[..j]);
    && s.done.None? && s.visits == seq(y.c.Arms(), _ => None) && s.budget == EMPTY
    && Recording(y.c, s, y.events[j]) && ReadyAt(y.c, s, y.events[j])[i] == Some(Observed(e))
    && Take(y.c.Limits(), EMPTY, e).Some?
  }

  /** A harvesting step that does not fail leaves the visits of its record. */
  lemma RecordingStep(c: Setup, s: Cycle, e: Happening)
    requires Fitting(c, s) && s.done.None? && s.visits == seq(c.Arms(), _ => None) && s.budget == EMPTY
    requires Recording(c, s, e) && !(Next(c, s, e).done.Some? && Next(c, s, e).done.value.Failure?)
    ensures |ReadyAt(c, s, e)| == c.Arms() && OffQueues(s.queues, ReadyAt(c, s, e))
    ensures Record(c, Fresh(c, s.queues), ReadyAt(c, s, e), e.supplies).ok
    ensures Next(c, s, e).visits == Record(c, Fresh(c, s.queues), ReadyAt(c, s, e), e.supplies).visits
  {
    if e.ObserveReady? {
      HarvestOffQueues(s.queues, e.raced, e.polled, Pending(s));
    } else {
      HarvestOffQueues(s.queues, e.polled, e.polled, Occupied(s.(starts := WithBinds(s, e.binds))));
    }
    hide Record, HarvestOf, Extended, ObserveOver, BindsSome, StartsMismatch, WithBinds, RestoreAdmitted, Assemble,
      Pending, Occupied, OffQueues;
    assert Gathered(s) == Fresh(c, s.queues);
  }

  /** The arm whose turn is first has its offer admitted, and the cycle ends with
      that visit. */
  lemma OfferAtFirstTurn(y: CycleOf, j: nat, i: nat, e: Event)
    requires Completed(y) && Offers(y, j, i, e) && StartOf(y) == i
    ensures Leads(FinalOf(y).visits[i], e)
  {
    hide Record, StartIndex, Take, RunCycle, Next, ReadyAt, Leads, ObserveOver, BindsSome, StartsMismatch;
    var s := RunCycle(y.c, Begin(y.c, y.queues), y.events[..j]);
    var next := Next(y.c, s, y.events[j]);
    var rest := y.events[j + 1..];
    RunSplits(y.c, Begin(y.c, y.queues), y.events, j);
    if next.done.Some? {
      DoneForGood(y.c, next, rest);
    }
    RecordingStep(y.c, s, y.events[j]);
    FirstTurnAdmits(y.c, s.queues, ReadyAt(y.c, s, y.events[j]), y.events[j].supplies, e);
    LeadsIsVisit(next.visits[i], e);
    RunKeepsVisit(y.c, next, rest, i);
  }

  lemma LeadsIsVisit(v: Option<Visit>, e: Event)
    requires Leads(v, e)
    ensures v.Some?
  {
  }

  /** Bounded wait: over `n` linked cycles, an arm that offers an affordable event
      at the first record of each has it admitted, first in its visit, in one of
      them. */
  lemma AdmittedWithinOneRound(cs: seq<CycleOf>, js: seq<nat>, offers: seq<Event>, i: nat) returns (k: nat)
    requires Linked(cs) && |cs| > 0 && DistinctLabels(cs[0].c)
    requires i < cs[0].c.Arms() == |cs| == |js| == |offers|
    requires forall k :: 0 <= k < |cs| ==> Offers(cs[k], js[k], i, offers[k])
    ensures k < |cs| && |cs[k].queues| == cs[k].c.Arms() == |cs| && Leads(FinalOf(cs[k]).visits[i], offers[k])
  {
    StartBelow(cs[0]);
    hide DistinctLabels, Offers, Leads, FinalOf, StartOf;
    var s, n := StartOf(cs[0]), |cs|;
    k := if i >= s then i - s else i + n - s;
    RotationAfter(cs, k);
    assert SameArms(cs[0].c, cs[k].c) && Completed(cs[k]);
    assert Offers(cs[k], js[k], i, offers[k]);
    OfferAtFirstTurn(cs[k], js[k], i, offers[k]);
  }

  // ----- The starvation rule -----

  predicate AlwaysDeferred(os: seq<PollOutcome>, armId: Id) {
    forall k :: 0 <= k < |os| ==> exists a | a in os[k].base.arms :: a.armId == armId && a.status.DeferredStatus?
  }

  predicate OtherHasEvents(os: seq<PollOutcome>, armId: Id) {
    exists k :: 0 <= k < |os| &&
      exists a | a in os[k].base.arms :: a.required && a.armId != armId && a.status.WithEvents?
  }

  predicate CursorFrozen(os: seq<PollOutcome>) {
    forall k :: 0 < k < |os| ==> os[k].nextCursor == os[0].nextCursor
  }

  /** `fairness_starvation` rejects the outcomes of one waiter. */
  ghost predicate Starved(os: seq<PollOutcome>) {
    |os| >= 2 && CursorFrozen(os) && exists armId: Id :: AlwaysDeferred(os, armId) && OtherHasEvents(os, armId)
  }

  /** What every outcome of a cycle carries: the next cursor, and arms under their own ids. */
  ghost predicate FromCycle(c: Setup, o: PollOutcome) {
    && o.nextCursor == NextCursor(c)
    && forall a :: a in o.base.arms ==> exists i :: 0 <= i < c.Arms() && a.armId == ArmId(c, i)
  }

  lemma CycleOutcomeFromCycle(c: Setup, queues: seq<seq<Event>>, events: seq<Happening>)
    requires |queues| == c.Arms()
    requires var r := RunCycle(c, Begin(c, queues), events); r.done.Some? && r.done.value.Success?
    ensures FromCycle(c, RunCycle(c, Begin(c, queues), events).done.value.value)
  {
    hide RunCycle, Build, DecideKind, Complete, NextCursor, FromCycle;
    BeginJustified(c, queues);
    RunJustified(c, Begin(c, queues), events);
    var r := RunCycle(c, Begin(c, queues), events);
    var now, visits, kind, reason :| Explains(c, r, r.done.value.value, now, visits, kind, reason);
    BuiltFromCycle(c, now, r.starts, visits, kind, reason);
  }

  lemma BuiltFromCycle(c: Setup, now: Instant, starts: Starts, visits: Visits, kind: Kind, reason: Option<Id>)
    requires c.Arms() == |starts| == |visits| && Build(c, now, starts, visits, kind, reason).Success?
    ensures FromCycle(c, ApplyPosture(c, Build(c, now, starts, visits, kind, reason).value))
  {
    hide Records, RecordOf, EventsOf, ThroughOf, RetainedOf, CoverageComplete, NextCursor, ArmId, LeaseExpired;
    var built := Build(c, now, starts, visits, kind, reason).value;
    var o := ApplyPosture(c, built);
    assert o.base.arms == built.base.arms || o.base.arms == ClearedArms(built.base.arms);
    forall a | a in o.base.arms ensures exists i :: 0 <= i < c.Arms() && a.armId == ArmId(c, i) {
      var k :| 0 <= k < |o.base.arms| && o.base.arms[k] == a;
      assert built.base.arms[k].armId == a.armId;
      var j := ArmIndex(c, kind, starts, visits, built.base.arms[k]);
      ArmSays(c, kind, starts, visits, j);
    }
  }

  function Outcomes(cs: seq<CycleOf>): (os: seq<PollOutcome>)
    requires forall k :: 0 <= k < |cs| ==> Completed(cs[k])
    ensures |os| == |cs| && forall k :: 0 <= k < |os| ==> os[k] == OutcomeIn(cs[k])
  {
    seq(|cs|, k requires 0 <= k < |cs| => OutcomeIn(cs[k]))
  }

  /** The starvation rule never fires on the outcomes of linked cycles. */
  lemma RotationNeverStarves(cs: seq<CycleOf>)
    requires Linked(cs) && |cs| > 0 && DistinctLabels(cs[0].c) && cs[0].c.Arms() > 0
    ensures !Starved(Outcomes(cs))
  {
    hide StartIndex, DistinctLabels, OutcomeIn, Completed;
    var os, n := Outcomes(cs), cs[0].c.Arms();
    if n >= 2 {
      if |os| >= 2 {
        HandsOnNext(cs, 0);
        HandsOnNext(cs, 1);
        EachCycleAdvances(cs, 0);
        assert SameArms(cs[0].c, cs[1].c);
        StartBelow(cs[1]);
        NextAround(StartOf(cs[1]), n);
        assert os[1].nextCursor != os[0].nextCursor;
      }
    } else if Starved(os) {
      var armId: Id :| AlwaysDeferred(os, armId) && OtherHasEvents(os, armId);
      OneArmOneId(cs, armId);
      assert false;
    }
  }

  lemma OneArmOneId(cs: seq<CycleOf>, armId: Id)
    requires Linked(cs) && |cs| > 0 && cs[0].c.Arms() == 1 && AlwaysDeferred(Outcomes(cs), armId)
    ensures !OtherHasEvents(Outcomes(cs), armId)
  {
    var os := Outcomes(cs);
    hide NextCursor, RunCycle, Begin;
    forall k, a | 0 <= k < |os| && a in os[k].base.arms ensures a.armId == ArmId(cs[0].c, 0) {
      var y := cs[k];
      assert Completed(y) && SameArms(cs[0].c, y.c);
      CycleOutcomeFromCycle(y.c, y.queues, y.events);
      var i :| 0 <= i < y.c.Arms() && a.armId == ArmId(y.c, i);
    }
    assert exists a | a in os[0].base.arms :: a.armId == armId;
  }

  /** Without distinct labels the rotation can stand still: when the second arm is
      called `start`, every one of any number of linked cycles begins at the first. */
  lemma {:induction false} ArmNamedStartHoldsRotation(cs: seq<CycleOf>, k: nat)
    requires Linked(cs) && k < |cs| && cs[0].c.Arms() >= 2 && ArmId(cs[0].c, 1) == "start"
    requires cs[0].c.request.fairnessCursor == "fair:start"
    ensures StartOf(cs[k]) == 0 && OutcomeIn(cs[k]).nextCursor == "fair:start"
    decreases k
  {
    var y := cs[k];
    assert Completed(y) && SameArms(cs[0].c, y.c);
    if k > 0 {
      ArmNamedStartHoldsRotation(cs, k - 1);
      assert y.c.request.fairnessCursor == OutcomeIn(cs[k - 1]).nextCursor;
    }
    SameArmIds(cs[0].c, y.c, 1);
    hide *;
    HandsOnStart(y);
  }

  lemma SameArmIds(c: Setup, d: Setup, i: nat)
    requires SameArms(c, d) && i < c.Arms()
    ensures ArmId(c, i) == ArmId(d, i)
  {
  }

  lemma HandsOnStart(y: CycleOf)
    requires Completed(y) && y.c.Arms() >= 2 && ArmId(y.c, 1) == "start" && y.c.request.fairnessCursor == "fair:start"
    ensures StartOf(y) == 0 && OutcomeIn(y).nextCursor == "fair:start"
  {
    assert NextIndex(y.c) == 1 && StartOf(y) == 0;
    hide *;
    ArmNamedStartResets(y.c);
    CursorOf(y);
  }
}
