/** Runs, from the start of a cycle, in which a promise fails: one concrete input
    for each condition that PollOutcomes and PollCursors state. */
module PollWitnesses {
  import opened Wrappers
  import opened Seam
  import opened Messages
  import opened PollBudget
  import opened PollCycle
  import opened PollCustody
  import opened PollOutcomes
  import opened PollCursors
  import opened PollFairness

  // ----- A cycle whose first binds visit every arm -----

  function Everyone(n: nat): (r: seq<bool>)
    ensures |r| == n && forall i :: 0 <= i < n ==> r[i]
  {
    seq(n, _ => true)
  }

  /** When every bind comes in at once and every arm is visited, the cycle ends there. */
  lemma BindAllEnds(c: Setup, queues: seq<seq<Event>>, now: Instant, binds: Starts, polled: seq<Option<Answer>>,
                    supplies: seq<Supply>)
    requires 0 < c.Arms() == |queues| == |binds| == |polled| == |supplies| && c.request.acknowledged == map[]
             && Accepting(c)
    requires forall i :: 0 <= i < c.Arms() ==> binds[i].Some?
    requires AllVisited(Record(c, Fresh(c, queues), HarvestOf(queues, polled, Everyone(c.Arms())), supplies).visits)
    ensures var ready := HarvestOf(queues, polled, Everyone(c.Arms()));
            var visits := Record(c, Fresh(c, queues), ready, supplies).visits;
            var r := RunCycle(c, Begin(c, queues), [BindReady(now, binds, polled, supplies)]);
            r.visits == visits && r.starts == binds && r.done == Some(Assemble(c, now, binds, visits))
  {
    var start, e := Begin(c, queues), BindReady(now, binds, polled, supplies);
    var bound := start.(starts := WithBinds(start, binds));
    assert WithBinds(start, binds) == binds && Occupied(bound) == Everyone(c.Arms());
    var ready := HarvestOf(queues, polled, Everyone(c.Arms()));
    assert Gathered(bound) == Fresh(c, queues);
    assert BindsSome(start, binds) by {
      assert start.starts[0].None? && binds[0].Some?;
    }
    hide Record, HarvestOf, RestoreAdmitted, Assemble, BindsSome;
    AcceptingRecord(c, Fresh(c, queues), ready, supplies);
    var done := Recorded(c, bound, ready, supplies);
    AcceptingRestores(c, done.queues, done.starts, done.visits, 0);
    assert [e][1..] == [];
    assert RunCycle(c, start, [e]) == Next(c, start, e);
  }

  lemma AssembleSucceeds(c: Setup, now: Instant, starts: Starts, visits: Visits)
    requires 0 < c.Arms() == |starts| == |visits| && starts[0].Some?
    ensures Assemble(c, now, starts, visits).Success?
    ensures Build(c, now, starts, visits, DecideKind(c, now, visits).0, DecideKind(c, now, visits).1).Success?
  {
    var kind := DecideKind(c, now, visits).0;
    RecordEvents(c, kind, starts, visits, 0);
    RecordsMember(c, kind, starts, visits, c.Arms());
    hide DecideKind, RecordOf, Records;
  }

  // ----- One arm -----

  /** One registration, under a lease that ends at 10, and deadlines at 20. */
  function OneArm(required: bool, requiredArms: seq<Id>): Setup {
    Setup(RegistrationSet([Registration("reg:a", required, 10, 1, 100, None, None)], false, 1, 100),
          CycleRequest(20, 20, requiredArms, "fair:start", map[], false, Bound(None, None, None)), (_, _) => true)
  }

  /** Two registrations with room for an event each, one lease, both arm ids requested. */
  function TwoArms(bothRequired: bool): Setup {
    Setup(RegistrationSet([Registration("reg:a", true, 10, 5, 100, None, None),
                           Registration("reg:b", bothRequired, 10, 5, 100, None, None)], false, 5, 200),
          CycleRequest(20, 20, ["arm:a", "arm:b"], "fair:start", map[], false, Bound(None, None, None)), (_, _) => true)
  }

  const EVENT_A := Event("evt:1", "reg:a", "a0", "a1", 5, 64, None)
  const ONE_BIND: Starts := [Some("a0")]
  const TWO_BINDS: Starts := [Some("a0"), Some("b0")]
  const NO_MORE: Supply := Supply(0, None)

  /** The bind comes in at `now`, and the arm answers at once, or not. */
  function SoloBind(now: Instant, answer: Option<Answer>): Happening {
    BindReady(now, ONE_BIND, [answer], [NO_MORE])
  }

  /** Every arm is idle when all binds come in. */
  function AllIdle(n: nat): (r: Visits)
    ensures |r| == n && forall i :: 0 <= i < n ==> r[i] == Some(IdleVisit)
  {
    seq(n, _ => Some(IdleVisit))
  }

  function IdleBinds(c: Setup, now: Instant, binds: Starts): Happening {
    BindReady(now, binds, seq(c.Arms(), _ => Some(Signal(Idle))), seq(c.Arms(), _ => NO_MORE))
  }

  lemma {:induction false} IdleRecords(c: Setup, s: Collected, ready: Harvest, supplies: seq<Supply>, order: seq<nat>,
                                       j: nat)
    requires Matches(c, s) && |ready| == |supplies| == c.Arms() && Indices(order, c.Arms()) && j < c.Arms()
    requires forall i :: 0 <= i < |ready| ==> ready[i] == Some(Idle)
    requires s.visits[j] == None || s.visits[j] == Some(IdleVisit)
    ensures var v := RecordInOrder(c, s, ready, supplies, order).visits[j]; v == None || v == Some(IdleVisit)
    decreases |order|
  {
    if order != [] && s.ok {
      var i := order[0];
      var next := if s.visits[i].None? then RecordArm(c, s, i, Idle, supplies[i]) else s;
      IdleRecords(c, next, ready, supplies, order[1..], j);
    }
  }

  lemma IdleEnds(c: Setup, queues: seq<seq<Event>>, now: Instant, binds: Starts)
    requires 0 < c.Arms() == |queues| == |binds| && c.request.acknowledged == map[] && Accepting(c)
    requires forall i :: 0 <= i < c.Arms() ==> binds[i].Some?
    ensures var r := RunCycle(c, Begin(c, queues), [IdleBinds(c, now, binds)]);
            && r.starts == binds && r.visits == AllIdle(c.Arms())
            && r.done == Some(Assemble(c, now, binds, AllIdle(c.Arms()))) && r.done.value.Success?
  {
    var e, n := IdleBinds(c, now, binds), c.Arms();
    var ready := HarvestOf(queues, e.polled, Everyone(n));
    var visits := Record(c, Fresh(c, queues), ready, e.supplies).visits;
    assert forall i :: 0 <= i < n ==> ready[i] == Some(Idle);
    IdleVisits(c, queues, ready, e.supplies);
    assert visits == AllIdle(n);
    hide Record, Assemble, RunCycle, HarvestOf;
    BindAllEnds(c, queues, now, binds, e.polled, e.supplies);
    AssembleSucceeds(c, now, binds, visits);
  }

  lemma IdleVisits(c: Setup, queues: seq<seq<Event>>, ready: Harvest, supplies: seq<Supply>)
    requires c.Arms() == |queues| == |ready| == |supplies| && Accepting(c)
    requires forall i :: 0 <= i < |ready| ==> ready[i] == Some(Idle)
    ensures forall i :: 0 <= i < c.Arms() ==> Record(c, Fresh(c, queues), ready, supplies).visits[i] == Some(IdleVisit)
  {
    var s := Fresh(c, queues);
    var popped := s.(queues := Popped(queues, ready));
    hide RecordInOrder, RestoreLeftover;
    AcceptingRecord(c, s, ready, supplies);
    var mid := RecordInOrder(c, popped, ready, supplies, Order(c));
    LeftoverKeepsVisits(c, mid, ready, s.visits, 0);
    forall i | 0 <= i < c.Arms() ensures mid.visits[i] == Some(IdleVisit) {
      IdleRecords(c, popped, ready, supplies, Order(c), i);
      RecordByArm(c, s, ready, supplies, i);
    }
  }

  lemma IdleDecides(c: Setup, now: Instant)
    requires now < c.request.logicalDeadline
    ensures DecideKind(c, now, AllIdle(c.Arms())).0.NoChange?
  {
    var visits := AllIdle(c.Arms());
    hide Order;
    if LastFailed(visits, Order(c)).Some? {
      LastFailedIsSeen(visits, Order(c));
    }
    hide LastFailed;
  }

  lemma IdleIsQuiet(c: Setup, now: Instant, binds: Starts)
    requires now < c.request.logicalDeadline && !LeaseExpired(c.rs, now) && !c.rs.authnRequired && |binds| == c.Arms()
    requires Assemble(c, now, binds, AllIdle(c.Arms())).Success?
    ensures IsQuiet(Assemble(c, now, binds, AllIdle(c.Arms())).value.base.kind)
  {
    var visits := AllIdle(c.Arms());
    var (kind, reason) := DecideKind(c, now, visits);
    IdleDecides(c, now);
    hide DecideKind, Build, LeaseExpired;
    BuiltBase(c, now, binds, visits, kind, reason);
  }

  /** A cycle in which every arm is idle, in time, is normative exactly when an arm
      is required and the arms between them carry every requested arm id. */
  lemma IdleNormativeIff(c: Setup, queues: seq<seq<Event>>, binds: Starts)
    requires 0 < c.Arms() == |queues| == |binds| && c.request.acknowledged == map[] && Accepting(c)
    requires forall i :: 0 <= i < c.Arms() ==> binds[i].Some?
    requires 5 < c.request.logicalDeadline && !LeaseExpired(c.rs, 5) && !c.rs.authnRequired
    ensures var r := RunCycle(c, Begin(c, queues), [IdleBinds(c, 5, binds)]);
            && r.done.Some? && r.done.value.Success?
            && (Normative(r.done.value.value.base) <==>
                  HasRequired(c.rs) &&
                  forall id :: id in c.request.requiredArms ==> exists i :: 0 <= i < c.Arms() && ArmId(c, i) == id)
  {
    IdleCarries(c, binds);
    hide RunCycle, Assemble, Normative, LeaseExpired, Carried;
    IdleEnds(c, queues, 5, binds);
    IdleIsQuiet(c, 5, binds);
    AssembledNormativeIff(c, 5, binds, AllIdle(c.Arms()));
  }

  lemma IdleCarries(c: Setup, binds: Starts)
    requires |binds| == c.Arms() && forall i :: 0 <= i < c.Arms() ==> binds[i].Some?
    ensures Complete(c, binds, AllIdle(c.Arms()))
    ensures Carried(c, binds, AllIdle(c.Arms())) <==>
            forall id :: id in c.request.requiredArms ==> exists i :: 0 <= i < c.Arms() && ArmId(c, i) == id
  {
    var visits := AllIdle(c.Arms());
    hide ArmId;
    forall id ensures CarriedBy(c, binds, visits, id) <==> exists i :: 0 <= i < c.Arms() && ArmId(c, i) == id {
      if i :| 0 <= i < c.Arms() && ArmId(c, i) == id {
        assert HonestStart(c, binds, i).Some? && !DirtyVisit(visits[i]);
      }
    }
  }

  /** With no required registration, an idle cycle's outcome is not normative. */
  lemma NoRequiredArmRefused()
    ensures var c := OneArm(false, ["arm:a"]);
            var r := RunCycle(c, Begin(c, [[]]), [IdleBinds(c, 5, ONE_BIND)]);
            r.done.Some? && r.done.value.Success? && !Normative(r.done.value.value.base)
  {
    hide RunCycle, Normative;
    IdleNormativeIff(OneArm(false, ["arm:a"]), [[]], ONE_BIND);
  }

  /** With a second requested arm id, that no registration carries, neither is one
      whose only arm is required. */
  lemma SurplusArmRefused()
    ensures var c := OneArm(true, ["arm:a", "arm:b"]);
            var r := RunCycle(c, Begin(c, [[]]), [IdleBinds(c, 5, ONE_BIND)]);
            r.done.Some? && r.done.value.Success? && !Normative(r.done.value.value.base)
  {
    hide RunCycle, Normative;
    var c := OneArm(true, ["arm:a", "arm:b"]);
    assert ArmId(c, 0) == "arm:a";
    assert c.request.requiredArms[1] == "arm:b";
    assert "arm:b" in c.request.requiredArms;
    assert "arm:a"[4] != "arm:b"[4];
    IdleNormativeIff(c, [[]], ONE_BIND);
  }

  /** A surplus arm id can be carried all the same, by an optional registration: there
      is one required registration for two requested ids, and the outcome is normative. */
  lemma OptionalArmAccepted()
    ensures var c := TwoArms(false);
            var r := RunCycle(c, Begin(c, [[], []]), [IdleBinds(c, 5, TWO_BINDS)]);
            r.done.Some? && r.done.value.Success? && Normative(r.done.value.value.base) && !ArmsFit(c)
  {
    hide RunCycle, Normative;
    var c := TwoArms(false);
    TwoArmIds();
    assert !ArmsFit(c);
    assert c.Regs()[0] in c.Regs();
    IdleNormativeIff(c, [[], []], TWO_BINDS);
  }

  lemma TwoArmIds()
    ensures ArmId(TwoArms(false), 0) == "arm:a" && ArmId(TwoArms(false), 1) == "arm:b"
  {
    assert "reg:b"[4..] == "b" && "arm:" + "b" == "arm:b";
  }

  // ----- Past the lease -----

  lemma BindAndWait(c: Setup, queue: seq<Event>)
    requires c.Arms() == 1 && c.request.acknowledged == map[] && Accepting(c)
    ensures Next(c, Begin(c, [queue]), SoloBind(5, None)) == Begin(c, [queue]).(starts := ONE_BIND)
  {
    var start, e := Begin(c, [queue]), SoloBind(5, None);
    var bound := start.(starts := WithBinds(start, ONE_BIND));
    assert WithBinds(start, ONE_BIND) == ONE_BIND;
    var ready := HarvestOf([queue], [None], Occupied(bound));
    assert ready == [None];
    assert BindsSome(start, ONE_BIND) by {
      assert start.starts[0].None? && ONE_BIND[0].Some?;
    }
    assert Popped([queue], ready) == [queue];
    NothingRecorded(c, Gathered(bound), ready, [NO_MORE], Order(c));
    NothingLeftOver(c, Gathered(bound), ready, bound.visits, 0);
    assert Recorded(c, bound, ready, [NO_MORE]) == bound;
    assert !AllVisited(bound.visits) by {
      assert bound.visits[0].None?;
    }
  }

  lemma {:induction false} NothingRecorded(c: Setup, s: Collected, ready: Harvest, supplies: seq<Supply>,
                                           order: seq<nat>)
    requires Matches(c, s) && |ready| == |supplies| == c.Arms() && Indices(order, c.Arms())
    requires forall i :: 0 <= i < |ready| ==> ready[i].None?
    ensures RecordInOrder(c, s, ready, supplies, order) == s
    decreases |order|
  {
    if order != [] {
      NothingRecorded(c, s, ready, supplies, order[1..]);
    }
  }

  lemma {:induction false} NothingLeftOver(c: Setup, s: Collected, ready: Harvest, visited: Visits, i: nat)
    requires Matches(c, s) && |ready| == |visited| == c.Arms() && forall i :: 0 <= i < |ready| ==> ready[i].None?
    ensures RestoreLeftover(c, s, ready, visited, i) == s
    decreases c.Arms() - i
  {
    if i < c.Arms() {
      NothingLeftOver(c, s, ready, visited, i + 1);
    }
  }

  /** Cancelled after the lease ended, a cycle hands out an outcome that the lease
      rule rejects. */
  lemma CancelledPastLeaseRefused()
    ensures var c := OneArm(true, ["arm:a"]);
            var r := RunCycle(c, Begin(c, [[]]), [SoloBind(5, None), Cancels(11)]);
            r.done.Some? && r.done.value.Success? && !WithinLeases(c.rs, r.done.value.value.base)
  {
    var c := OneArm(true, ["arm:a"]);
    BindAndWait(c, []);
    var s := Begin(c, [[]]).(starts := ONE_BIND);
    assert s.visits == [None];
    var events := [SoloBind(5, None), Cancels(11)];
    assert events[1..] == [Cancels(11)] && events[1..][1..] == [];
    assert RunCycle(c, Begin(c, [[]]), events) == Next(c, s, Cancels(11)) by {
      hide Next;
      assert RunCycle(c, Begin(c, [[]]), events) == RunCycle(c, Next(c, Begin(c, [[]]), events[0]), events[1..]);
      assert RunCycle(c, s, events[1..]) == RunCycle(c, Next(c, s, Cancels(11)), []);
    }
    assert LeaseExpired(c.rs, 11) by {
      assert c.Regs()[0] in c.Regs();
    }
    CancelledBuilds(c, 11, ONE_BIND, [None]);
    AcceptingRestores(c, s.queues, s.starts, s.visits, 0);
    hide RunCycle, WithinLeases, LeaseExpired, RestoreAdmitted, Build;
    EndingLeaseIff(c, s, Cancels(11));
  }

  lemma CancelledBuilds(c: Setup, now: Instant, starts: Starts, visits: Visits)
    requires 0 < c.Arms() == |starts| == |visits| && starts[0].Some?
    ensures Build(c, now, starts, visits, Cancelled, Some("consumer_cancelled")).Success?
  {
    RecordEvents(c, Cancelled, starts, visits, 0);
    RecordsMember(c, Cancelled, starts, visits, c.Arms());
    hide RecordOf, Records;
  }

  /** The only arm has one event when its bind comes in: it is admitted alone. */
  lemma EventEnds(c: Setup, now: Instant)
    requires c.Arms() == 1 && c.request.acknowledged == map[] && c.request.fairnessCursor == "fair:start"
             && Accepting(c)
    requires Take(c.Limits(), EMPTY, EVENT_A).Some?
    ensures var r := RunCycle(c, Begin(c, [[EVENT_A]]), [SoloBind(now, Some(Head))]);
            && r.starts == ONE_BIND && |r.visits| == 1 && EventsIn(r.visits[0]) == [EVENT_A]
            && r.done == Some(Assemble(c, now, ONE_BIND, r.visits)) && r.done.value.Success?
  {
    var queues, polled := [[EVENT_A]], [Some(Head)];
    var ready := HarvestOf(queues, polled, Everyone(1));
    assert ready == [Some(Observed(EVENT_A))];
    assert OffQueues(queues, ready);
    var got := Record(c, Fresh(c, queues), ready, [NO_MORE]);
    hide Record, Assemble, RunCycle, HarvestOf, Take;
    AcceptingRecord(c, Fresh(c, queues), ready, [NO_MORE]);
    FirstTurnAdmits(c, queues, ready, [NO_MORE], EVENT_A);
    RecordByArm(c, Fresh(c, queues), ready, [NO_MORE], 0);
    assert EventsIn(got.visits[0]) + got.queues[0] == [] + [EVENT_A];
    assert EventsIn(got.visits[0]) == [EVENT_A];
    BindAllEnds(c, queues, now, ONE_BIND, polled, [NO_MORE]);
    AssembleSucceeds(c, now, ONE_BIND, got.visits);
  }

  /** An event admitted after the lease ended: the outcome asks for a new lease,
      retains no event, and still moves the cursor past it. */
  lemma RewriteKeepsMovedCursor()
    ensures var c := OneArm(true, ["arm:a"]);
            var r := RunCycle(c, Begin(c, [[EVENT_A]]), [SoloBind(11, Some(Head))]);
            && r.done.Some? && r.done.value.Success?
            && var o := r.done.value.value;
               && o.base.kind.ReauthenticationRequired? && o.base.events == []
               && o.retainedEvents == map["reg:a" := []] && o.retainedThrough == map["reg:a" := "a1"]
               && HonestStart(c, r.starts, 0) == Some("a0") && !Backed(c, r.starts, r.visits, o)
  {
    var c := OneArm(true, ["arm:a"]);
    assert Take(c.Limits(), EMPTY, EVENT_A).Some?;
    EventEnds(c, 11);
    var visits := RunCycle(c, Begin(c, [[EVENT_A]]), [SoloBind(11, Some(Head))]).visits;
    assert LeaseExpired(c.rs, 11) by {
      assert c.Regs()[0] in c.Regs();
    }
    hide RunCycle, Take, LeaseExpired;
    RewrittenSolo(c, visits);
  }

  /** The honest acknowledgement of that outcome is accepted, commits the cursor past
      the event, and delivers nothing: from there on the arm is out of step. */
  lemma RewrittenAckSkips() returns (r: Round)
    ensures r.c == OneArm(true, ["arm:a"]) && r.queues == [[EVENT_A]] && r.events == [SoloBind(11, Some(Head))]
    ensures OutcomeOf(r).Some? && r.ack == Some(HonestAck(OutcomeOf(r).value))
    ensures var regs, logs, anchors, k := r.c.Regs(), [[EVENT_A]], [["a0", "a1"]], Consumer(map[], [0], [[]]);
            var after := AfterRound(k, regs, r);
            && Chained(logs, anchors) && ExactAt(regs, logs, anchors, k, 0) && Fair(regs, logs, anchors, k, r)
            && after.acknowledged == map["reg:a" := "a1"] && after.delivered == [[]]
            && !ExactAt(regs, logs, anchors, after, 0)
  {
    var c, queues, events := OneArm(true, ["arm:a"]), [[EVENT_A]], [SoloBind(11, Some(Head))];
    RewriteKeepsMovedCursor();
    hide RunCycle, Backed;
    var o := RunCycle(c, Begin(c, queues), events).done.value.value;
    r := Round(c, queues, events, Some(HonestAck(o)));
    assert Received(queues, events) == queues by {
      assert events[1..] == [] && Arriving(queues, events[0]) == queues;
    }
    assert !Reports(o.base.kind) && DistinctIds(c.Regs());
    CycleAckAcceptedIff(c, queues, events);
    SkippedRound(r, o);
    SkippedIsFair(r, o);
  }

  lemma SkippedIsFair(r: Round, o: PollOutcome)
    requires r.c == OneArm(true, ["arm:a"]) && r.queues == [[EVENT_A]] && OutcomeOf(r) == Some(o)
             && r.ack == Some(HonestAck(o))
    requires Received(r.queues, r.events) == [[EVENT_A]] && AckAccepted(HonestAck(o), o)
    requires HonestStart(r.c, RunCycle(r.c, Begin(r.c, r.queues), r.events).starts, 0) == Some("a0")
    ensures var regs, logs, anchors, k := r.c.Regs(), [[EVENT_A]], [["a0", "a1"]], Consumer(map[], [0], [[]]);
            Chained(logs, anchors) && ExactAt(regs, logs, anchors, k, 0) && Fair(regs, logs, anchors, k, r)
  {
    hide RunCycle, OutcomeOf, HonestStart, Received, AckAccepted;
    var log := [EVENT_A];
    assert log[0..0 + 1] == log && log[..0] == [];
    assert SuffixFrom(log, 0, log);
  }

  lemma SkippedRound(r: Round, o: PollOutcome)
    requires r.c == OneArm(true, ["arm:a"]) && |r.queues| == 1 && OutcomeOf(r) == Some(o) && r.ack == Some(HonestAck(o))
    requires o.retainedEvents == map["reg:a" := []] && o.retainedThrough == map["reg:a" := "a1"]
    ensures var regs, k := r.c.Regs(), Consumer(map[], [0], [[]]);
            var after := AfterRound(k, regs, r);
            && after.acknowledged == map["reg:a" := "a1"] && after.delivered == [[]] && after.position == [0]
            && !ExactAt(regs, [[EVENT_A]], [["a0", "a1"]], after, 0)
  {
    var regs := r.c.Regs();
    hide OutcomeOf;
    assert Commits(r, "reg:a") == [] && regs[0].id == "reg:a";
    assert "a0"[1] != "a1"[1];
  }

  lemma RewrittenSolo(c: Setup, visits: Visits)
    requires c.Arms() == 1 == |visits| && c.Regs()[0].id == "reg:a" && LeaseExpired(c.rs, 11)
             && EventsIn(visits[0]) == [EVENT_A]
    requires Assemble(c, 11, ONE_BIND, visits).Success?
    ensures var o := Assemble(c, 11, ONE_BIND, visits).value;
            && o.base.kind.ReauthenticationRequired? && o.base.events == []
            && o.retainedEvents == map["reg:a" := []] && o.retainedThrough == map["reg:a" := "a1"]
            && HonestStart(c, ONE_BIND, 0) == Some("a0") && !Backed(c, ONE_BIND, visits, o)
  {
    var (kind, reason) := DecideKind(c, 11, visits);
    AdmittedReport(c, 11, visits);
    var built := Build(c, 11, ONE_BIND, visits, kind, reason).value;
    BuiltKind(c, 11, ONE_BIND, visits, kind, reason);
    BuiltTime(c, 11, ONE_BIND, visits, kind, reason);
    BuiltMaps(c, 11, ONE_BIND, visits, kind, reason);
    RecordId(c, kind, ONE_BIND, visits, 0);
    assert Rewrites(c, 11, kind) && MovesCursor(c, ONE_BIND, visits, 0);
    BackedIff(c, 11, ONE_BIND, visits, kind, reason);
    RecordsUnfold(c, kind, ONE_BIND, visits, 1);
    var r := RecordOf(c, kind, ONE_BIND, visits, 0).value;
    assert Records(c, kind, ONE_BIND, visits, 1) == [r];
    SingleMaps(r);
    hide DecideKind, Records, RecordOf, LeaseExpired, Build, Backed;
  }

  lemma SingleMaps(r: ArmRecord)
    ensures ThroughOf([r]) == map[r.arm.registrationId := r.retainedThrough]
    ensures EmptyEventMap(ArmsOf([r])) == map[r.arm.registrationId := []]
  {
    assert [r][..0] == [];
    assert ArmsOf([r])[..0] == [];
  }

  /** Visits that all admitted events decide to report them. */
  lemma AdmittedReport(c: Setup, now: Instant, visits: Visits)
    requires 0 < c.Arms() == |visits| && forall i :: 0 <= i < |visits| ==> EventsIn(visits[i]) != []
    ensures Reports(DecideKind(c, now, visits).0)
  {
    assert EventsIn(visits[0]) != [] && SawEvents(visits);
    assert forall i :: 0 <= i < |visits| ==> visits[i].Some? && visits[i].value.Admitted?;
    if LastFailed(visits, Order(c)).Some? {
      LastFailedIsSeen(visits, Order(c));
    }
    assert !SawOverflow(visits) && !RequiredDirty(c, visits);
    hide Order, LastFailed, SawOverflow, RequiredDirty;
  }

  // ----- Two arms, one event id -----

  const EVENT_B := Event("evt:1", "reg:b", "b0", "b1", 5, 64, None)

  /** An event that fits is admitted, alone when nothing more is due. */
  lemma AdmitsOne(c: Setup, s: Collected, i: nat, e: Event)
    requires Matches(c, s) && i < c.Arms() && Take(c.Limits(), s.budget, e).Some?
    ensures var r := RecordArm(c, s, i, Observed(e), NO_MORE);
            && r.ok && r.budget == Take(c.Limits(), s.budget, e).value
            && r.visits == s.visits[i := r.visits[i]] && r.visits[i].Some? && EventsIn(r.visits[i]) == [e]
  {
    RoomToTake(c.Limits(), s.budget, e);
    hide Take, Exhausted, RoomFor;
    assert [e] + [] == [e];
  }

  const TWINS := TwoArms(true)

  lemma TwinsFit()
    ensures Take(TWINS.Limits(), EMPTY, EVENT_A).Some?
    ensures Take(TWINS.Limits(), Take(TWINS.Limits(), EMPTY, EVENT_A).value, EVENT_B).Some?
  {
    assert "reg:a"[4] != "reg:b"[4];
    var regs := TWINS.rs.registrations;
    assert regs[..1][..0] == [];
  }

  lemma TwinsAdmitted(ready: Harvest)
    requires ready == [Some(Observed(EVENT_A)), Some(Observed(EVENT_B))]
    ensures var visits := Record(TWINS, Fresh(TWINS, [[EVENT_A], [EVENT_B]]), ready, [NO_MORE, NO_MORE]).visits;
            && visits[0].Some? && EventsIn(visits[0]) == [EVENT_A]
            && visits[1].Some? && EventsIn(visits[1]) == [EVENT_B]
  {
    var c, queues, supplies := TWINS, [[EVENT_A], [EVENT_B]], [NO_MORE, NO_MORE];
    var s := Fresh(c, queues).(queues := Popped(queues, ready));
    var order := Order(c);
    assert order[0] == 0 && order[1] == 1 && order[1..][1..] == [];
    TwinsFit();
    hide Take, RecordArm, RestoreLeftover, Popped;
    AdmitsOne(c, s, 0, EVENT_A);
    var one := RecordArm(c, s, 0, Observed(EVENT_A), NO_MORE);
    AdmitsOne(c, one, 1, EVENT_B);
    OrderUnfolds(c, s, ready, supplies, order);
    OrderUnfolds(c, one, ready, supplies, order[1..]);
    LeftoverKeepsVisits(c, RecordInOrder(c, s, ready, supplies, order), ready, Fresh(c, queues).visits, 0);
  }

  lemma TwinsSetup()
    ensures DistinctIds(TWINS.Regs()) && !LeaseExpired(TWINS.rs, TWIN_BINDS.now) && Accepting(TWINS)
    ensures TWINS.Arms() == 2 && !TWINS.rs.authnRequired && TWINS.request.acknowledged == map[]
    ensures !IdsApart([EVENT_A], [EVENT_B])
  {
    assert "reg:a"[4] != "reg:b"[4];
    assert EVENT_A in [EVENT_A] && EVENT_B in [EVENT_B];
  }

  /** The honest acknowledgement of that cycle is refused. */
  lemma SharedEventIdRefused()
    ensures var r := RunCycle(TWINS, Begin(TWINS, [[EVENT_A], [EVENT_B]]), [TWIN_BINDS]);
            && r.done.Some? && r.done.value.Success?
            && !AckAccepted(HonestAck(r.done.value.value), r.done.value.value)
  {
    TwinsHarvest();
    TwinsSetup();
    var ready := [Some(Observed(EVENT_A)), Some(Observed(EVENT_B))];
    TwinsAdmitted(ready);
    var visits := Record(TWINS, Fresh(TWINS, [[EVENT_A], [EVENT_B]]), ready, TWIN_BINDS.supplies).visits;
    assert TWIN_BINDS == BindReady(TWIN_BINDS.now, TWIN_BINDS.binds, TWIN_BINDS.polled, TWIN_BINDS.supplies);
    hide *;
    SharedIdRefused(TWINS, TWIN_BINDS.now, [[EVENT_A], [EVENT_B]], TWIN_BINDS.binds, TWIN_BINDS.polled,
                    TWIN_BINDS.supplies, visits);
  }

  const TWIN_BINDS := BindReady(5, TWO_BINDS, [Some(Head), Some(Head)], [NO_MORE, NO_MORE])

  lemma TwinsHarvest()
    ensures HarvestOf([[EVENT_A], [EVENT_B]], TWIN_BINDS.polled, Everyone(2)) ==
              [Some(Observed(EVENT_A)), Some(Observed(EVENT_B))]
  {
  }

  lemma TwoVisits(visits: Visits)
    requires |visits| == 2 && visits[0].Some? && visits[1].Some?
    ensures AllVisited(visits)
    ensures !IdsApart(EventsIn(visits[0]), EventsIn(visits[1])) ==> !DistinctAcross(visits)
  {
    hide IdsApart;
  }

  /** Two arms whose first record admits events with one id. */
  lemma SharedIdRefused(c: Setup, now: Instant, queues: seq<seq<Event>>, binds: Starts, polled: seq<Option<Answer>>,
                        supplies: seq<Supply>, visits: Visits)
    requires c.Arms() == 2 == |queues| == |binds| == |polled| == |supplies| && c.request.acknowledged == map[]
             && Accepting(c)
    requires DistinctIds(c.Regs()) && !LeaseExpired(c.rs, now) && !c.rs.authnRequired && binds[0].Some?
             && binds[1].Some?
    requires visits == Record(c, Fresh(c, queues), HarvestOf(queues, polled, Everyone(c.Arms())), supplies).visits
    requires && |visits| == 2 && visits[0].Some? && visits[1].Some?
             && EventsIn(visits[0]) != [] && EventsIn(visits[1]) != []
             && !IdsApart(EventsIn(visits[0]), EventsIn(visits[1]))
    ensures var r := RunCycle(c, Begin(c, queues), [BindReady(now, binds, polled, supplies)]);
            && r.done.Some? && r.done.value.Success?
            && !AckAccepted(HonestAck(r.done.value.value), r.done.value.value)
  {
    hide *;
    TwoVisits(visits);
    BindAllEnds(c, queues, now, binds, polled, supplies);
    AssembleSucceeds(c, now, binds, visits);
    CycleAckAcceptedIff(c, queues, [BindReady(now, binds, polled, supplies)]);
    OutcomeReports(c, now, binds, visits);
  }

  lemma OutcomeReports(c: Setup, now: Instant, starts: Starts, visits: Visits)
    requires 0 < c.Arms() == |visits| == |starts| && forall i :: 0 <= i < |visits| ==> EventsIn(visits[i]) != []
    requires !LeaseExpired(c.rs, now) && !c.rs.authnRequired && Assemble(c, now, starts, visits).Success?
    ensures Reports(Assemble(c, now, starts, visits).value.base.kind)
  {
    AdmittedReport(c, now, visits);
    var (kind, reason) := DecideKind(c, now, visits);
    hide DecideKind, LeaseExpired, EventsIn, Records, CoverageComplete;
    BuiltKind(c, now, starts, visits, kind, reason);
    BuiltTime(c, now, starts, visits, kind, reason);
  }
}
