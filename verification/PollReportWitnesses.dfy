/** Runs, from the start of a cycle, that show the rows of PollReport apart, and
    that the starvation rule is able to fire. */
module PollReportWitnesses {
  import opened Wrappers
  import opened Seam
  import opened Messages
  import opened PollBudget
  import opened PollCycle
  import opened PollCustody
  import opened PollOutcomes
  import opened PollFairness
  import opened PollReport
  import opened PollWitnesses

  /** Two required registrations, room for one event between them, and the second
      arm called `start`. */
  const CRAMPED := Setup(
    RegistrationSet([Registration("reg:a", true, 10, 5, 100, None, None),
                     Registration("reg:b", true, 10, 5, 100, None, None)], false, 1, 200),
    CycleRequest(20, 20, ["arm:a", "start"], "fair:start", map[], false, Bound(None, None, None)), (_, _) => true)

  /** The second registration is optional, and its event is too heavy. */
  const UNEVEN := Setup(
    RegistrationSet([Registration("reg:a", true, 10, 5, 100, None, None),
                     Registration("reg:b", false, 10, 5, 100, None, None)], false, 5, 200),
    CycleRequest(20, 20, ["arm:a"], "fair:start", map[], false, Bound(None, None, None)), (_, _) => true)

  const HEAVY_B := Event("evt:2", "reg:b", "b0", "b1", 500, 64, None)

  const BOTH_HEADS := BindReady(5, TWO_BINDS, [Some(Head), Some(Head)], [NO_MORE, NO_MORE])

  /** Two arms with an event each, of which the second cannot be afforded any more. */
  lemma SecondDeferred(c: Setup, e: Event, f: Event, ready: Harvest)
    requires c.Arms() == 2 && c.request.fairnessCursor == "fair:start" && Accepting(c)
    requires ready == [Some(Observed(e)), Some(Observed(f))]
    requires Take(c.Limits(), EMPTY, e).Some?
    requires Take(c.Limits(), Take(c.Limits(), EMPTY, e).value, f).None?
    ensures var charged := Take(c.Limits(), EMPTY, e).value;
            Record(c, Fresh(c, [[e], [f]]), ready, [NO_MORE, NO_MORE]).visits ==
            [Some(Admitted([e], !RoomFor(c.Limits(), charged, c.Regs()[0].id))), Some(DeferredVisit)]
  {
    var queues, supplies := [[e], [f]], [NO_MORE, NO_MORE];
    var s := Fresh(c, queues).(queues := Popped(queues, ready));
    var order := Order(c);
    assert order[0] == 0 && order[1] == 1 && order[1..][1..] == [];
    var one := RecordArm(c, s, 0, Observed(e), NO_MORE);
    RoomToTake(c.Limits(), EMPTY, e);
    assert one.visits == s.visits[0 := one.visits[0]] && one.ok by {
      hide Take, RoomFor, Exhausted;
    }
    hide Take, RoomFor, RestoreLeftover, Popped, Exhausted;
    assert s.queues[0] == [] && [e] + [] == [e];
    var two := RecordArm(c, one, 1, Observed(f), NO_MORE);
    assert two.visits == [one.visits[0], Some(DeferredVisit)];
    OrderUnfolds(c, s, ready, supplies, order);
    OrderUnfolds(c, one, ready, supplies, order[1..]);
    LeftoverKeepsVisits(c, RecordInOrder(c, s, ready, supplies, order), ready, Fresh(c, queues).visits, 0);
  }

  /** The run in which both binds come in together and both arms offer their event. */
  lemma BothEnd(c: Setup, e: Event, f: Event)
    requires c.Arms() == 2 && c.request.fairnessCursor == "fair:start" && Accepting(c)
    requires c.request.acknowledged == map[]
    requires Take(c.Limits(), EMPTY, e).Some?
    requires Take(c.Limits(), Take(c.Limits(), EMPTY, e).value, f).None?
    ensures var charged := Take(c.Limits(), EMPTY, e).value;
            var r := RunCycle(c, Begin(c, [[e], [f]]), [BOTH_HEADS]);
            && r.visits == [Some(Admitted([e], !RoomFor(c.Limits(), charged, c.Regs()[0].id))), Some(DeferredVisit)]
            && r.starts == TWO_BINDS && r.done.Some? && r.done.value.Success?
            && r.done.value == Assemble(c, 5, TWO_BINDS, r.visits)
            && EndOf(c, Begin(c, [[e], [f]]), [BOTH_HEADS]).1 == BOTH_HEADS
  {
    var queues := [[e], [f]];
    var ready := HarvestOf(queues, BOTH_HEADS.polled, Everyone(2));
    assert ready == [Some(Observed(e)), Some(Observed(f))];
    SecondDeferred(c, e, f, ready);
    var visits := Record(c, Fresh(c, queues), ready, BOTH_HEADS.supplies).visits;
    assert BOTH_HEADS == BindReady(5, TWO_BINDS, BOTH_HEADS.polled, BOTH_HEADS.supplies);
    hide Record, HarvestOf, Take, RoomFor, Next, Assemble;
    BindAllEnds(c, queues, 5, TWO_BINDS, BOTH_HEADS.polled, BOTH_HEADS.supplies);
    AssembleSucceeds(c, 5, TWO_BINDS, visits);
    var start := Begin(c, queues);
    assert [BOTH_HEADS][1..] == [];
    assert RunCycle(c, start, [BOTH_HEADS]) == RunCycle(c, Next(c, start, BOTH_HEADS), []);
  }

  lemma EmptyTotals()
    ensures Take(CRAMPED.Limits(), EMPTY, EVENT_A).Some? && Take(UNEVEN.Limits(), EMPTY, EVENT_A).Some?
  {
    assert "reg:a"[4] != "reg:b"[4];
    assert CRAMPED.Regs()[..1][..0] == [] && UNEVEN.Regs()[..1][..0] == [];
  }

  lemma CrampedDefers()
    ensures var c := CRAMPED;
            var r := RunCycle(c, Begin(c, [[EVENT_A], [EVENT_B]]), [BOTH_HEADS]);
            && r.visits == [Some(Admitted([EVENT_A], true)), Some(DeferredVisit)] && r.starts == TWO_BINDS
            && r.done.Some? && r.done.value.Success?
            && EndOf(c, Begin(c, [[EVENT_A], [EVENT_B]]), [BOTH_HEADS]).1 == BOTH_HEADS
  {
    EmptyTotals();
    var charged := Take(CRAMPED.Limits(), EMPTY, EVENT_A).value;
    assert !RoomFor(CRAMPED.Limits(), charged, CRAMPED.Regs()[0].id);
    assert Take(CRAMPED.Limits(), charged, EVENT_B).None?;
    hide Take, RoomFor, RunCycle, EndOf;
    BothEnd(CRAMPED, EVENT_A, EVENT_B);
  }

  /** Both arms have a lease that is not over, and no receipt is asked for. */
  lemma InTime(c: Setup)
    requires c == CRAMPED || c == UNEVEN
    ensures !LeaseExpired(c.rs, 5) && !c.rs.authnRequired && !CutShort(c, TWO_BINDS, BOTH_HEADS)
    ensures ArmId(c, 0) == "arm:a" && ArmId(c, 1) == if c == CRAMPED then "start" else "arm:b"
    ensures Known(c, TWO_BINDS, 0) && Known(c, TWO_BINDS, 1)
    ensures KnownBefore(c, TWO_BINDS, 0) == 0 && KnownBefore(c, TWO_BINDS, 1) == 1
    ensures KnownBefore(c, TWO_BINDS, 2) == 2
  {
    assert "reg:b"[4..] == "b" && "arm:" + "b" == "arm:b";
  }

  lemma DeferredShows(c: Setup, visits: Visits, x: Showing)
    requires c == CRAMPED || c == UNEVEN
    requires visits == [Some(Admitted([EVENT_A], c == CRAMPED)), Some(DeferredVisit)] && Shows(c, visits, x)
    ensures x == Showing(true, false, false, false, c == CRAMPED, c == CRAMPED)
  {
    assert visits[0].Some? && visits[0].value.Admitted?;
    assert c.Regs()[1].required <==> c == CRAMPED;
    assert visits[1].Some? && visits[1].value.DeferredVisit?;
    if x.requiredWaits {
      var i :| 0 <= i < c.Arms() && c.Regs()[i].required
               && if visits[i].Some? then visits[i].value.DeferredVisit? else x.events;
      assert i == 1;
    }
  }

  lemma DeferredTold(c: Setup, r: Cycle, x: Showing, o: Outcome)
    requires c == CRAMPED || c == UNEVEN
    requires Fitting(c, r) && r.starts == TWO_BINDS
    requires r.visits == [Some(Admitted([EVENT_A], c == CRAMPED)), Some(DeferredVisit)]
    requires Shows(c, r.visits, x) && KindTold(c, r, BOTH_HEADS, x, o)
    requires ArmAt(c, r, BOTH_HEADS, 0, o) && ArmAt(c, r, BOTH_HEADS, 1, o)
    ensures if c == CRAMPED then o.kind.Partial? else o.kind.Events?
    ensures |o.arms| == 2 && o.arms[0].required && o.arms[0].armId == "arm:a" && o.arms[0].status.WithEvents?
    ensures o.arms[1].required == (c == CRAMPED) && o.arms[1].status.DeferredStatus?
    ensures o.arms[1].armId == if c == CRAMPED then "start" else "arm:b"
  {
    InTime(c);
    DeferredShows(c, r.visits, x);
    assert TimeOf(BOTH_HEADS) == 5;
    hide LeaseExpired, CutShort, BindMissing, Shows, Known, KnownBefore, ArmId, TotalBytes, LastFailure;
  }

  /** A saturated visit and a deferred required arm: the outcome is partial, and
      tells of each arm. */
  lemma CrampedOutcome()
    ensures var r := RunCycle(CRAMPED, Begin(CRAMPED, [[EVENT_A], [EVENT_B]]), [BOTH_HEADS]);
            && r.done.Some? && r.done.value.Success?
            && var o := r.done.value.value.base;
               && o.kind.Partial? && |o.arms| == 2
               && o.arms[0].required && o.arms[0].armId == "arm:a" && o.arms[0].status.WithEvents?
               && o.arms[1].required && o.arms[1].armId == "start" && o.arms[1].status.DeferredStatus?
  {
    var queues := [[EVENT_A], [EVENT_B]];
    CrampedDefers();
    hide RunCycle, EndOf, KindTold, ArmAt, Shows;
    var r := RunCycle(CRAMPED, Begin(CRAMPED, queues), [BOTH_HEADS]);
    var x := ShowingOf(CRAMPED, r.visits);
    CycleKindIff(CRAMPED, queues, [BOTH_HEADS], x);
    CycleArmsTold(CRAMPED, queues, [BOTH_HEADS], 0);
    CycleArmsTold(CRAMPED, queues, [BOTH_HEADS], 1);
    DeferredTold(CRAMPED, r, x, r.done.value.value.base);
  }

  /** An optional arm may be put off by an outcome of kind events: the row that asks
      for more looks at required arms only. */
  lemma OptionalEventWaits()
    ensures var r := RunCycle(UNEVEN, Begin(UNEVEN, [[EVENT_A], [HEAVY_B]]), [BOTH_HEADS]);
            && r.done.Some? && r.done.value.Success? && r.queues == [[EVENT_A], [HEAVY_B]]
            && var o := r.done.value.value.base;
               && o.kind.Events? && |o.arms| == 2
               && o.arms[1].armId == "arm:b" && o.arms[1].status.DeferredStatus?
  {
    var queues := [[EVENT_A], [HEAVY_B]];
    EmptyTotals();
    var charged := Take(UNEVEN.Limits(), EMPTY, EVENT_A).value;
    UnevenTotals();
    hide Take, RoomFor, RunCycle, EndOf, KindTold, ArmAt, Shows;
    BothEnd(UNEVEN, EVENT_A, HEAVY_B);
    var r := RunCycle(UNEVEN, Begin(UNEVEN, queues), [BOTH_HEADS]);
    var x := ShowingOf(UNEVEN, r.visits);
    CycleKindIff(UNEVEN, queues, [BOTH_HEADS], x);
    CycleArmsTold(UNEVEN, queues, [BOTH_HEADS], 0);
    CycleArmsTold(UNEVEN, queues, [BOTH_HEADS], 1);
    DeferredTold(UNEVEN, r, x, r.done.value.value.base);
    CycleConserves(UNEVEN, queues, [BOTH_HEADS]);
    assert Received(queues, [BOTH_HEADS]) == queues by {
      assert [BOTH_HEADS][1..] == [] && Arriving(queues, BOTH_HEADS) == queues;
    }
  }

  lemma UnevenTotals()
    ensures var charged := Charge(EMPTY, EVENT_A);
            && RoomFor(UNEVEN.Limits(), charged, "reg:a") && Take(UNEVEN.Limits(), charged, HEAVY_B).None?
            && (Take(UNEVEN.Limits(), EMPTY, EVENT_A) == Some(charged))
  {
    assert "reg:a"[4] != "reg:b"[4];
    assert UNEVEN.Regs()[..1][..0] == [] && UNEVEN.Regs()[..2][..1] == UNEVEN.Regs()[..1];
  }

  // ----- The starvation rule fires -----

  const CRAMPED_CYCLE := CycleOf(CRAMPED, [[EVENT_A], [EVENT_B]], [BOTH_HEADS])

  /** Any number of such cycles, each given the cursor the one before handed out, are
      linked, since that cursor is `fair:start` again; and from two on the starvation
      rule rejects them. */
  lemma HeldRotationStarves(cs: seq<CycleOf>)
    requires |cs| >= 2 && forall k :: 0 <= k < |cs| ==> cs[k] == CRAMPED_CYCLE
    ensures Linked(cs) && Starved(Outcomes(cs))
  {
    CrampedOutcome();
    InTime(CRAMPED);
    hide RunCycle, ArmId;
    assert Completed(CRAMPED_CYCLE);
    HandsOnStart(CRAMPED_CYCLE);
    var os := Outcomes(cs);
    var o := OutcomeIn(CRAMPED_CYCLE);
    assert forall k :: 0 <= k < |os| ==> os[k] == o;
    assert o.base.arms[1] in o.base.arms && o.base.arms[0] in o.base.arms;
    assert "arm:a"[0] != "start"[0];
    assert AlwaysDeferred(os, "start");
    assert OtherHasEvents(os, "start") by {
      assert os[0] == o;
    }
  }
}
