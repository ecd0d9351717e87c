/** Cursors: what an outcome retains, what an acknowledgement may commit, and
    what that means over many cycles against one log per registration. */
module PollCursors {
  import opened Wrappers
  import opened Seam
  import opened Messages
  import opened PollCycle
  import opened PollCustody
  import opened PollOutcomes

  // ----- The retained maps, arm by arm -----

  lemma ThroughPush(records: seq<ArmRecord>, r: ArmRecord)
    ensures ThroughOf(records + [r]) == ThroughOf(records)[r.arm.registrationId := r.retainedThrough]
    ensures RetainedOf(records + [r]) == RetainedOf(records)[r.arm.registrationId := r.retainedEvents]
  {
    assert (records + [r])[..|records|] == records;
  }

  lemma RecordId(c: Setup, kind: Kind, starts: Starts, visits: Visits, j: nat)
    requires j < c.Arms() == |starts| == |visits|
    ensures RecordOf(c, kind, starts, visits, j).Some? <==> HonestStart(c, starts, j).Some?
    ensures RecordOf(c, kind, starts, visits, j).Some? ==>
              var r, start, events := RecordOf(c, kind, starts, visits, j).value, HonestStart(c, starts, j).value,
                  EventsIn(visits[j]);
              && r.arm.registrationId == c.Regs()[j].id
              && r.retainedThrough == (if Reports(kind) then Last(start, events) else start)
              && r.retainedEvents == if Reports(kind) then Ids(events) else []
  {
    hide ArmId, HonestStart;
  }

  /** The maps hold for `id` what record `r` retains, or nothing. */
  ghost predicate RetainedIs(records: seq<ArmRecord>, id: Id, r: Option<ArmRecord>) {
    if r.Some? then
      && id in ThroughOf(records) && ThroughOf(records)[id] == r.value.retainedThrough
      && id in RetainedOf(records) && RetainedOf(records)[id] == r.value.retainedEvents
    else id !in ThroughOf(records) && id !in RetainedOf(records)
  }

  lemma RetainedPush(records: seq<ArmRecord>, id: Id, r: Option<ArmRecord>, last: ArmRecord)
    requires RetainedIs(records, id, r)
    ensures RetainedIs(records + [last], id, if last.arm.registrationId == id then Some(last) else r)
  {
    hide ThroughOf, RetainedOf;
    ThroughPush(records, last);
  }

  lemma IdsDiffer(regs: seq<Registration>, i: nat, j: nat)
    requires DistinctIds(regs) && i < |regs| && j < |regs|
    ensures regs[i].id == regs[j].id <==> i == j
  {
  }

  lemma {:induction false} RetainedByArm(c: Setup, kind: Kind, starts: Starts, visits: Visits, n: nat, j: nat)
    requires c.Arms() == |starts| == |visits| && n <= c.Arms() && DistinctIds(c.Regs()) && j < c.Arms()
    ensures RetainedIs(Records(c, kind, starts, visits, n), c.Regs()[j].id,
                       if j < n then RecordOf(c, kind, starts, visits, j) else None)
  {
    var id, lastId := c.Regs()[j].id, if n > 0 then c.Regs()[n - 1].id else c.Regs()[j].id;
    if n > 0 {
      IdsDiffer(c.Regs(), j, n - 1);
    }
    hide *;
    if n == 0 {
      NothingRetained(c, kind, starts, visits, id);
    } else {
      var before, r := Records(c, kind, starts, visits, n - 1), RecordOf(c, kind, starts, visits, n - 1);
      RecordsGrow(c, kind, starts, visits, n);
      RetainedByArm(c, kind, starts, visits, n - 1, j);
      if r.Some? {
        RetainedPush(before, id, if j < n - 1 then RecordOf(c, kind, starts, visits, j) else None, r.value);
      }
    }
  }

  /** The records with arm `n - 1`, in the two cases. */
  lemma RecordsGrow(c: Setup, kind: Kind, starts: Starts, visits: Visits, n: nat)
    requires c.Arms() == |starts| == |visits| && 0 < n <= c.Arms()
    ensures var r := RecordOf(c, kind, starts, visits, n - 1);
            var before := Records(c, kind, starts, visits, n - 1);
            if r.Some? then
              Records(c, kind, starts, visits, n) == before + [r.value]
              && r.value.arm.registrationId == c.Regs()[n - 1].id
            else Records(c, kind, starts, visits, n) == before
  {
    RecordId(c, kind, starts, visits, n - 1);
    hide RecordOf;
    var before := Records(c, kind, starts, visits, n - 1);
    assert before + [] == before;
  }

  lemma NothingRetained(c: Setup, kind: Kind, starts: Starts, visits: Visits, id: Id)
    requires c.Arms() == |starts| == |visits|
    ensures RetainedIs(Records(c, kind, starts, visits, 0), id, None)
  {
    hide RecordOf;
  }

  ghost predicate KeysAreArms(c: Setup, records: seq<ArmRecord>, n: nat)
    requires n <= c.Arms()
  {
    && RetainedOf(records).Keys == ThroughOf(records).Keys
    && forall id :: id in ThroughOf(records) ==> exists j :: 0 <= j < n && c.Regs()[j].id == id
  }

  lemma KeysPush(c: Setup, records: seq<ArmRecord>, n: nat, r: ArmRecord)
    requires n < c.Arms() && KeysAreArms(c, records, n) && r.arm.registrationId == c.Regs()[n].id
    ensures KeysAreArms(c, records + [r], n + 1)
  {
    hide ThroughOf, RetainedOf;
    ThroughPush(records, r);
  }

  lemma {:induction false} RetainedKeys(c: Setup, kind: Kind, starts: Starts, visits: Visits, n: nat)
    requires c.Arms() == |starts| == |visits| && n <= c.Arms()
    ensures KeysAreArms(c, Records(c, kind, starts, visits, n), n)
  {
    hide *;
    if n == 0 {
      NoKeys(c, kind, starts, visits);
    } else {
      var before, r := Records(c, kind, starts, visits, n - 1), RecordOf(c, kind, starts, visits, n - 1);
      RecordsGrow(c, kind, starts, visits, n);
      RetainedKeys(c, kind, starts, visits, n - 1);
      if r.Some? {
        KeysPush(c, before, n - 1, r.value);
      } else {
        KeysWiden(c, before, n - 1);
      }
    }
  }

  lemma NoKeys(c: Setup, kind: Kind, starts: Starts, visits: Visits)
    requires c.Arms() == |starts| == |visits|
    ensures KeysAreArms(c, Records(c, kind, starts, visits, 0), 0)
  {
    hide RecordOf;
  }

  lemma KeysWiden(c: Setup, records: seq<ArmRecord>, n: nat)
    requires n < c.Arms() && KeysAreArms(c, records, n)
    ensures KeysAreArms(c, records, n + 1)
  {
    hide ThroughOf, RetainedOf;
  }

  // ----- Cursors backed by retained events -----

  /** The cursor an outcome retains for arm `i` is the one after the events it
      retains for it. */
  ghost predicate BackedAt(c: Setup, starts: Starts, visits: Visits, o: PollOutcome, i: nat)
    requires i < c.Arms() == |starts| == |visits|
  {
    HonestStart(c, starts, i).Some? ==>
      var id, events := c.Regs()[i].id, EventsIn(visits[i]);
      && id in o.retainedThrough && id in o.retainedEvents
      && |o.retainedEvents[id]| <= |events|
      && o.retainedEvents[id] == Ids(events[..|o.retainedEvents[id]|])
      && o.retainedThrough[id] == Last(HonestStart(c, starts, i).value, events[..|o.retainedEvents[id]|])
  }

  ghost predicate Backed(c: Setup, starts: Starts, visits: Visits, o: PollOutcome) {
    c.Arms() == |starts| == |visits| && forall i :: 0 <= i < c.Arms() ==> BackedAt(c, starts, visits, o, i)
  }

  predicate MovesCursor(c: Setup, starts: Starts, visits: Visits, i: nat)
    requires i < c.Arms() == |starts| == |visits|
  {
    HonestStart(c, starts, i).Some? && EventsIn(visits[i]) != [] &&
    Last(HonestStart(c, starts, i).value, EventsIn(visits[i])) != HonestStart(c, starts, i).value
  }

  lemma {:induction false} EmptyMapHas(arms: seq<CoverageArm>, a: CoverageArm)
    requires a in arms
    ensures a.registrationId in EmptyEventMap(arms)
  {
    if a != arms[|arms| - 1] {
      EmptyMapHas(arms[..|arms| - 1], a);
    }
  }

  lemma BuiltBackedAt(c: Setup, now: Instant, starts: Starts, visits: Visits, kind: Kind, reason: Option<Id>, i: nat)
    requires i < c.Arms() == |starts| == |visits| && DistinctIds(c.Regs())
    requires Build(c, now, starts, visits, kind, reason).Success?
    ensures BackedAt(c, starts, visits, Build(c, now, starts, visits, kind, reason).value, i)
  {
    hide Records, RecordOf, EventsOf, ThroughOf, RetainedOf, CoverageComplete, HonestStart, NextCursor;
    RetainedByArm(c, kind, starts, visits, c.Arms(), i);
    RecordId(c, kind, starts, visits, i);
    var events := EventsIn(visits[i]);
    assert events[..|events|] == events && events[..0] == [];
  }

  lemma RewrittenBackedAtIff(c: Setup, now: Instant, starts: Starts, visits: Visits, kind: Kind, reason: Option<Id>,
                             i: nat)
    requires i < c.Arms() == |starts| == |visits| && DistinctIds(c.Regs())
    requires Build(c, now, starts, visits, kind, reason).Success? && Rewrites(c, now, kind)
    ensures BackedAt(c, starts, visits, ApplyPosture(c, Build(c, now, starts, visits, kind, reason).value), i) <==>
            !(Reports(kind) && MovesCursor(c, starts, visits, i))
  {
    hide Records, RecordOf, EventsOf, ThroughOf, RetainedOf, CoverageComplete, HonestStart, NextCursor, LeaseExpired,
      EmptyEventMap;
    RetainedByArm(c, kind, starts, visits, c.Arms(), i);
    RecordId(c, kind, starts, visits, i);
    if HonestStart(c, starts, i).Some? {
      ArmsMember(c, kind, starts, visits);
      var a := RecordOf(c, kind, starts, visits, i).value.arm;
      EmptyMapHas(ArmsOf(Records(c, kind, starts, visits, c.Arms())), a);
    }
    assert EventsIn(visits[i])[..0] == [];
  }

  /** Every retained cursor is backed by the events retained with it, if and only
      if posture did not rewrite an outcome whose events move a cursor: the
      rewrite drops the events and keeps the cursors. */
  lemma BackedIff(c: Setup, now: Instant, starts: Starts, visits: Visits, kind: Kind, reason: Option<Id>)
    requires c.Arms() == |starts| == |visits| && DistinctIds(c.Regs())
    requires Build(c, now, starts, visits, kind, reason).Success?
    ensures Backed(c, starts, visits, ApplyPosture(c, Build(c, now, starts, visits, kind, reason).value)) <==>
            !(Rewrites(c, now, kind) && Reports(kind) &&
              exists i :: 0 <= i < c.Arms() && MovesCursor(c, starts, visits, i))
  {
    var o := ApplyPosture(c, Build(c, now, starts, visits, kind, reason).value);
    hide Build, ApplyPosture, BackedAt, MovesCursor, Rewrites, Reports, DistinctIds;
    forall i | 0 <= i < c.Arms()
      ensures BackedAt(c, starts, visits, o, i) <==>
                !(Rewrites(c, now, kind) && Reports(kind) && MovesCursor(c, starts, visits, i))
    {
      BackedAtIff(c, now, starts, visits, kind, reason, i);
    }
  }

  lemma BuiltTime(c: Setup, now: Instant, starts: Starts, visits: Visits, kind: Kind, reason: Option<Id>)
    requires c.Arms() == |starts| == |visits| && Build(c, now, starts, visits, kind, reason).Success?
    ensures Build(c, now, starts, visits, kind, reason).value.base.completedAt == now
  {
    hide Records, CoverageComplete;
  }

  lemma SameEventsBacked(c: Setup, starts: Starts, a: Visits, b: Visits, o: PollOutcome, i: nat)
    requires i < c.Arms() == |starts| == |a| == |b| && EventsIn(a[i]) == EventsIn(b[i])
    ensures BackedAt(c, starts, a, o, i) <==> BackedAt(c, starts, b, o, i)
    ensures MovesCursor(c, starts, a, i) <==> MovesCursor(c, starts, b, i)
  {
    hide HonestStart;
  }

  /** The cycle ends with a report that posture rewrites, and arm `i` has events in it
      that move its cursor. */
  predicate SkipsAt(c: Setup, queues: seq<seq<Event>>, events: seq<Happening>, i: nat)
    requires |queues| == c.Arms() && i < c.Arms() && RunCycle(c, Begin(c, queues), events).done.Some?
  {
    var (s, e) := EndOf(c, Begin(c, queues), events);
    var r := RunCycle(c, Begin(c, queues), events);
    Rewritten(c, s, e) && Reporting(c, r.visits) && MovesCursor(c, r.starts, r.visits, i)
  }

  lemma MovingIsSeen(c: Setup, starts: Starts, visits: Visits, i: nat)
    requires i < c.Arms() == |starts| == |visits|
    ensures MovesCursor(c, starts, visits, i) ==> SawEvents(visits)
  {
    hide HonestStart;
  }

  /** How the outcome of a run was built, and that arm `i` is backed unless skipped. */
  lemma CycleBuilds(c: Setup, queues: seq<seq<Event>>, events: seq<Happening>, i: nat)
    returns (now: Instant, visits: Visits, kind: Kind, reason: Option<Id>)
    requires |queues| == c.Arms() && i < c.Arms() && DistinctIds(c.Regs())
    requires var r := RunCycle(c, Begin(c, queues), events); r.done.Some? && r.done.value.Success?
    ensures var r := RunCycle(c, Begin(c, queues), events);
            && |visits| == c.Arms() && EventsIn(visits[i]) == EventsIn(r.visits[i])
            && Build(c, now, r.starts, visits, kind, reason).Success?
            && r.done.value.value == ApplyPosture(c, Build(c, now, r.starts, visits, kind, reason).value)
            && (BackedAt(c, r.starts, r.visits, r.done.value.value, i) <==> !SkipsAt(c, queues, events, i))
            && (Rewrites(c, now, kind) && Reports(kind) && MovesCursor(c, r.starts, visits, i) <==>
                  SkipsAt(c, queues, events, i))
  {
    var r := RunCycle(c, Begin(c, queues), events);
    var (s, e) := EndOf(c, Begin(c, queues), events);
    hide RunCycle, Next, EndOf, Build, Rewrites, Rewritten, Reporting, Reports, SawEvents, ApplyPosture, DistinctIds,
      BackedAt, MovesCursor;
    EndOfEnds(c, Begin(c, queues), events);
    now, visits, kind, reason := EndingBuilds(c, s, e);
    SameEvents(c, r, visits);
    SameEventsBacked(c, r.starts, visits, r.visits, r.done.value.value, i);
    MovingIsSeen(c, r.starts, r.visits, i);
    BackedAtIff(c, now, r.starts, visits, kind, reason, i);
  }

  lemma BackedAtIff(c: Setup, now: Instant, starts: Starts, visits: Visits, kind: Kind, reason: Option<Id>, i: nat)
    requires i < c.Arms() == |starts| == |visits| && DistinctIds(c.Regs())
    requires Build(c, now, starts, visits, kind, reason).Success?
    ensures BackedAt(c, starts, visits, ApplyPosture(c, Build(c, now, starts, visits, kind, reason).value), i) <==>
            !(Rewrites(c, now, kind) && Reports(kind) && MovesCursor(c, starts, visits, i))
  {
    BuiltKind(c, now, starts, visits, kind, reason);
    BuiltTime(c, now, starts, visits, kind, reason);
    assert !Rewrites(c, now, kind) ==>
        ApplyPosture(c, Build(c, now, starts, visits, kind, reason).value) ==
            Build(c, now, starts, visits, kind, reason).value;
    hide Build, ApplyPosture, BackedAt, MovesCursor, Rewrites, Reports, DistinctIds;
    if Rewrites(c, now, kind) {
      RewrittenBackedAtIff(c, now, starts, visits, kind, reason, i);
    } else {
      BuiltBackedAt(c, now, starts, visits, kind, reason, i);
    }
  }

  /** Over every run: each retained cursor is backed by the events retained with it,
      if and only if no arm is skipped. */
  lemma CycleBackedIff(c: Setup, queues: seq<seq<Event>>, events: seq<Happening>)
    requires |queues| == c.Arms() && DistinctIds(c.Regs())
    requires var r := RunCycle(c, Begin(c, queues), events); r.done.Some? && r.done.value.Success?
    ensures var r := RunCycle(c, Begin(c, queues), events);
            Backed(c, r.starts, r.visits, r.done.value.value) <==>
              !exists i :: 0 <= i < c.Arms() && SkipsAt(c, queues, events, i)
  {
    var r := RunCycle(c, Begin(c, queues), events);
    hide RunCycle, BackedAt, SkipsAt, DistinctIds;
    forall i | 0 <= i < c.Arms()
      ensures BackedAt(c, r.starts, r.visits, r.done.value.value, i) <==> !SkipsAt(c, queues, events, i)
    {
      var now, visits, kind, reason := CycleBuilds(c, queues, events, i);
    }
  }

  // ----- Acknowledgements -----

  datatype Ack = Ack(committed: map<Id, Id>, retained: map<Id, seq<Id>>)

  /** `ack_poll_outcome`: commit everything the outcome retains. */
  function HonestAck(o: PollOutcome): Ack {
    Ack(o.retainedThrough, o.retainedEvents)
  }

  predicate SharesEvent(retained: map<Id, seq<Id>>, id: Id, event: Id) {
    exists other | other in retained :: other != id && event in retained[other]
  }

  /** `ack_rules`, for one acknowledgement and the outcome it cites. */
  predicate AckAccepted(a: Ack, o: PollOutcome) {
    && (forall id | id in a.committed :: id in o.retainedThrough && o.retainedThrough[id] == a.committed[id])
    && (forall id | id in a.retained :: forall event | event in a.retained[id] ::
          !SharesEvent(o.retainedEvents, id, event) && id in o.retainedEvents && event in o.retainedEvents[id])
  }

  /** The rule at the honest acknowledgement, in terms of the outcome. */
  lemma HonestAckAcceptedIff(o: PollOutcome)
    ensures AckAccepted(HonestAck(o), o) <==>
            forall id, other, event |
              id in o.retainedEvents && other in o.retainedEvents && id != other && event in o.retainedEvents[id] ::
              event !in o.retainedEvents[other]
  {
    if AckAccepted(HonestAck(o), o) {
      forall id, other, event |
        id in o.retainedEvents && other in o.retainedEvents && id != other && event in o.retainedEvents[id]
        ensures event !in o.retainedEvents[other]
      {
        assert !SharesEvent(o.retainedEvents, id, event);
      }
    }
  }

  /** No event id was admitted from two arms. */
  predicate DistinctAcross(visits: Visits) {
    forall i, j :: 0 <= i < j < |visits| ==> IdsApart(EventsIn(visits[i]), EventsIn(visits[j]))
  }

  predicate IdsApart(a: seq<Event>, b: seq<Event>) {
    forall e, f | e in a && f in b :: e.eventId != f.eventId
  }

  /** What a finished cycle retains for arm `i`. */
  lemma RetainedAt(c: Setup, s: Cycle, o: PollOutcome, now: Instant, visits: Visits, kind: Kind, reason: Option<Id>,
                   i: nat)
    requires Fitting(c, s) && VisitsBound(s) && DistinctIds(c.Regs()) && i < c.Arms()
    requires Explains(c, s, o, now, visits, kind, reason)
    ensures var id := c.Regs()[i].id;
            && (id in o.retainedEvents ==>
                  o.retainedEvents[id] == if Reports(o.base.kind) then Ids(EventsIn(s.visits[i])) else [])
            && (Reports(o.base.kind) && EventsIn(s.visits[i]) != [] ==> id in o.retainedEvents)
  {
    assert |visits| == |s.starts| == c.Arms()
           && o == ApplyPosture(c, Build(c, now, s.starts, visits, kind, reason).value);
    assert EventsIn(s.visits[i]) != [] ==> s.starts[i].Some?;
    SameEvents(c, s, visits);
    hide *;
    BuiltMaps(c, now, s.starts, visits, kind, reason);
    BuiltKind(c, now, s.starts, visits, kind, reason);
    PostureMaps(c, Build(c, now, s.starts, visits, kind, reason).value);
    RetainedByArm(c, kind, s.starts, visits, c.Arms(), i);
    RecordId(c, kind, s.starts, visits, i);
    RecordEvents(c, kind, s.starts, visits, i);
  }

  lemma BuiltMaps(c: Setup, now: Instant, starts: Starts, visits: Visits, kind: Kind, reason: Option<Id>)
    requires c.Arms() == |starts| == |visits| && Build(c, now, starts, visits, kind, reason).Success?
    ensures var records, built :=
              Records(c, kind, starts, visits, c.Arms()), Build(c, now, starts, visits, kind, reason).value;
            built.retainedThrough == ThroughOf(records) && built.retainedEvents == RetainedOf(records)
            && built.base.arms == ArmsOf(records)
  {
    hide Records, CoverageComplete, EventsOf, ThroughOf, RetainedOf, NextCursor;
  }

  /** Posture keeps an outcome, or empties the lists it retains; it never reports then. */
  lemma PostureMaps(c: Setup, o: PollOutcome)
    ensures var p := ApplyPosture(c, o);
            && p.retainedThrough == o.retainedThrough
            && (p == o || (!Reports(p.base.kind) && p.retainedEvents == EmptyEventMap(o.base.arms)
                           && forall id :: id in p.retainedEvents ==> p.retainedEvents[id] == []))
  {
  }

  lemma RetainedOnlyArms(c: Setup, s: Cycle, o: PollOutcome, now: Instant, visits: Visits, kind: Kind,
                         reason: Option<Id>, id: Id)
    returns (i: nat)
    requires Fitting(c, s) && Explains(c, s, o, now, visits, kind, reason) && id in o.retainedEvents
    ensures i < c.Arms() && c.Regs()[i].id == id
  {
    hide Records, RecordOf, EventsOf, ThroughOf, RetainedOf, CoverageComplete, HonestStart, NextCursor, LeaseExpired,
      DecideKind, Complete;
    RetainedKeys(c, kind, s.starts, visits, c.Arms());
    var arms := ArmsOf(Records(c, kind, s.starts, visits, c.Arms()));
    var built := Build(c, now, s.starts, visits, kind, reason).value;
    if o == built {
      i :| i < c.Arms() && c.Regs()[i].id == id;
    } else {
      assert o.retainedEvents == EmptyEventMap(arms);
      var a := EmptyMapOnly(arms, id);
      var j := ArmIndex(c, kind, s.starts, visits, a);
      RecordId(c, kind, s.starts, visits, j);
      i := j;
    }
  }

  lemma {:induction false} EmptyMapOnly(arms: seq<CoverageArm>, id: Id) returns (a: CoverageArm)
    requires id in EmptyEventMap(arms)
    ensures a in arms && a.registrationId == id
  {
    if arms[|arms| - 1].registrationId == id {
      a := arms[|arms| - 1];
    } else {
      a := EmptyMapOnly(arms[..|arms| - 1], id);
    }
  }

  lemma IdsShare(a: seq<Event>, b: seq<Event>)
    ensures IdsApart(a, b) <==> forall x :: x in Ids(a) ==> x !in Ids(b)
  {
    hide IdsApart, Ids;
    IdsOf(a);
    IdsOf(b);
    if forall x :: x in Ids(a) ==> x !in Ids(b) {
      assert forall e, f :: e in a && f in b ==> e.eventId in Ids(a) && f.eventId in Ids(b);
      ApartBy(a, b);
    } else {
      var x :| x in Ids(a) && x in Ids(b);
      var e :| e in a && e.eventId == x;
      var f :| f in b && f.eventId == x;
      NotApart(a, b, e, f);
    }
  }

  lemma ApartBy(a: seq<Event>, b: seq<Event>)
    requires forall e, f :: e in a && f in b ==> e.eventId in Ids(a) && f.eventId in Ids(b)
    requires forall x :: x in Ids(a) ==> x !in Ids(b)
    ensures IdsApart(a, b)
  {
    hide Ids;
  }

  lemma NotApart(a: seq<Event>, b: seq<Event>, e: Event, f: Event)
    requires e in a && f in b && e.eventId == f.eventId
    ensures !IdsApart(a, b)
  {
  }

  lemma IdsOf(a: seq<Event>)
    ensures forall e :: e in a ==> e.eventId in Ids(a)
    ensures forall x :: x in Ids(a) ==> exists e :: e in a && e.eventId == x
  {
    forall e | e in a ensures e.eventId in Ids(a) {
      var k :| 0 <= k < |a| && a[k] == e;
      assert Ids(a)[k] == e.eventId;
    }
    forall x | x in Ids(a) ensures exists e :: e in a && e.eventId == x {
      var k :| 0 <= k < |Ids(a)| && Ids(a)[k] == x;
      assert a[k] in a;
    }
  }

  /** The honest acknowledgement of a run's outcome, rewritten or not, is accepted
      if and only if the outcome reports no events or no event id was admitted
      from two arms. */
  lemma CycleAckAcceptedIff(c: Setup, queues: seq<seq<Event>>, events: seq<Happening>)
    requires |queues| == c.Arms() && DistinctIds(c.Regs())
    requires var r := RunCycle(c, Begin(c, queues), events); r.done.Some? && r.done.value.Success?
    ensures var r := RunCycle(c, Begin(c, queues), events);
            var o := r.done.value.value;
            AckAccepted(HonestAck(o), o) <==> (Reports(o.base.kind) ==> DistinctAcross(r.visits))
  {
    hide RunCycle, Explains, AckAccepted, HonestAck, IdsApart, Ids, Reports, VisitsBound;
    BeginJustified(c, queues);
    RunJustified(c, Begin(c, queues), events);
    var r := RunCycle(c, Begin(c, queues), events);
    var o := r.done.value.value;
    var now, visits, kind, reason :| Explains(c, r, o, now, visits, kind, reason);
    HonestAckAcceptedIff(o);
    forall i: nat | i < c.Arms()
      ensures c.Regs()[i].id in o.retainedEvents ==>
                o.retainedEvents[c.Regs()[i].id] == if Reports(o.base.kind) then Ids(EventsIn(r.visits[i])) else []
      ensures Reports(o.base.kind) && EventsIn(r.visits[i]) != [] ==> c.Regs()[i].id in o.retainedEvents
    {
      RetainedAt(c, r, o, now, visits, kind, reason, i);
    }
    if Reports(o.base.kind) {
      if DistinctAcross(r.visits) {
        forall id, other | id in o.retainedEvents && other in o.retainedEvents && id != other
          ensures forall event :: event in o.retainedEvents[id] ==> event !in o.retainedEvents[other]
        {
          var i := RetainedOnlyArms(c, r, o, now, visits, kind, reason, id);
          var j := RetainedOnlyArms(c, r, o, now, visits, kind, reason, other);
          ApartEitherWay(r.visits, i, j);
          IdsShare(EventsIn(r.visits[i]), EventsIn(r.visits[j]));
        }
      } else {
        var i, j :| 0 <= i < j < |r.visits| && !IdsApart(EventsIn(r.visits[i]), EventsIn(r.visits[j]));
        IdsShare(EventsIn(r.visits[i]), EventsIn(r.visits[j]));
        NothingIsApart(EventsIn(r.visits[i]), EventsIn(r.visits[j]));
        assert c.Regs()[i].id != c.Regs()[j].id;
      }
    } else {
      forall id, other | id in o.retainedEvents && other in o.retainedEvents && id != other
        ensures forall event :: event in o.retainedEvents[id] ==> event !in o.retainedEvents[other]
      {
        var i := RetainedOnlyArms(c, r, o, now, visits, kind, reason, id);
      }
    }
  }

  lemma NothingIsApart(a: seq<Event>, b: seq<Event>)
    requires !IdsApart(a, b)
    ensures a != [] && b != []
  {
  }

  lemma ApartEitherWay(visits: Visits, i: nat, j: nat)
    requires DistinctAcross(visits) && i < |visits| && j < |visits| && i != j
    ensures IdsApart(EventsIn(visits[i]), EventsIn(visits[j]))
  {
    if j < i {
      assert IdsApart(EventsIn(visits[j]), EventsIn(visits[i]));
    }
  }

  /** So an observer whose arms never share an event id always has its outcomes
      acknowledged: a condition on what the cycle was given. */
  lemma CycleAckAccepted(c: Setup, queues: seq<seq<Event>>, events: seq<Happening>)
    requires |queues| == c.Arms() && DistinctIds(c.Regs())
    requires var r := RunCycle(c, Begin(c, queues), events); r.done.Some? && r.done.value.Success?
    requires forall i, j :: 0 <= i < j < |queues| ==> IdsApart(Received(queues, events)[i], Received(queues, events)[j])
    ensures var o := RunCycle(c, Begin(c, queues), events).done.value.value; AckAccepted(HonestAck(o), o)
  {
    hide RunCycle, AckAccepted, HonestAck, IdsApart, EventsIn, Reports, Received;
    CycleAckAcceptedIff(c, queues, events);
    CycleConserves(c, queues, events);
    var visits, streams := RunCycle(c, Begin(c, queues), events).visits, Received(queues, events);
    forall i, j | 0 <= i < j < |visits| ensures IdsApart(EventsIn(visits[i]), EventsIn(visits[j])) {
      assert EventsIn(visits[i]) <= streams[i] && EventsIn(visits[j]) <= streams[j];
      PrefixesApart(streams[i], streams[j], EventsIn(visits[i]), EventsIn(visits[j]));
    }
  }

  lemma PrefixesApart(a: seq<Event>, b: seq<Event>, x: seq<Event>, y: seq<Event>)
    requires IdsApart(a, b) && x <= a && y <= b
    ensures IdsApart(x, y)
  {
    assert forall e :: e in x ==> e in a;
    assert forall e :: e in y ==> e in b;
  }

  // ----- Many cycles over one log per registration -----

  /** Binds start where the request acknowledges; anything else ends the cycle. */
  ghost predicate StartsHonest(c: Setup, s: Cycle)
    requires Fitting(c, s)
  {
    forall i :: 0 <= i < c.Arms() && s.starts[i].Some? && c.Regs()[i].id in c.request.acknowledged ==>
      s.starts[i].value == c.request.acknowledged[c.Regs()[i].id]
  }

  lemma NextStartsHonest(c: Setup, s: Cycle, e: Happening)
    requires Fitting(c, s) && StartsHonest(c, s)
    ensures StartsHonest(c, Next(c, s, e))
  {
    hide RestoreAdmitted, RestoreLeftover, Record, Assemble, AtDeadline, Build, HarvestOf, Extended, ObserveOver,
      BindsSome, Popped;
  }

  lemma {:induction false} RunStartsHonest(c: Setup, s: Cycle, events: seq<Happening>)
    requires Fitting(c, s) && StartsHonest(c, s)
    ensures StartsHonest(c, RunCycle(c, s, events))
    decreases |events|
  {
    hide Next, StartsHonest;
    if events != [] {
      NextStartsHonest(c, s, events[0]);
      RunStartsHonest(c, Next(c, s, events[0]), events[1..]);
    }
  }

  /** What one cycle retains for an arm is the beginning of what the arm received, and
      the cursor is the one after that, unless the arm is skipped: then nothing is
      retained, and the cursor has moved. */
  lemma CycleRetains(c: Setup, queues: seq<seq<Event>>, events: seq<Happening>, i: nat)
    requires |queues| == c.Arms() && DistinctIds(c.Regs()) && i < c.Arms()
    requires var r := RunCycle(c, Begin(c, queues), events);
             r.done.Some? && r.done.value.Success? && c.Regs()[i].id in r.done.value.value.retainedThrough
    ensures var r := RunCycle(c, Begin(c, queues), events);
            var o, id, stream := r.done.value.value, c.Regs()[i].id, Received(queues, events)[i];
            && id in o.retainedEvents && |o.retainedEvents[id]| <= |stream|
            && HonestStart(c, r.starts, i).Some?
            && o.retainedEvents[id] == Ids(stream[..|o.retainedEvents[id]|])
            && (o.retainedThrough[id] == Last(HonestStart(c, r.starts, i).value, stream[..|o.retainedEvents[id]|]) <==>
                !SkipsAt(c, queues, events, i))
            && (id in c.request.acknowledged ==> HonestStart(c, r.starts, i).value == c.request.acknowledged[id])
  {
    var r := RunCycle(c, Begin(c, queues), events);
    hide RunCycle, Build, DistinctIds, Ids, Received, SkipsAt, ApplyPosture, HonestStart, Last;
    CycleConserves(c, queues, events);
    StartIsAcknowledged(c, queues, events, i);
    var now, visits, kind, reason := CycleBuilds(c, queues, events, i);
    BuiltRetains(c, now, r.starts, visits, kind, reason, i);
    var o, id, stream := r.done.value.value, c.Regs()[i].id, Received(queues, events)[i];
    var m := |o.retainedEvents[id]|;
    assert EventsIn(r.visits[i]) <= stream;
    assert stream[..m] == EventsIn(r.visits[i])[..m];
  }

  lemma StartIsAcknowledged(c: Setup, queues: seq<seq<Event>>, events: seq<Happening>, i: nat)
    requires |queues| == c.Arms() && i < c.Arms()
    ensures var r, id := RunCycle(c, Begin(c, queues), events), c.Regs()[i].id;
            id in c.request.acknowledged ==> HonestStart(c, r.starts, i) == Some(c.request.acknowledged[id])
  {
    hide RunCycle;
    RunStartsHonest(c, Begin(c, queues), events);
  }

  /** Built and passed through posture, the lists of an arm with a cursor are backed,
      or empty beside a cursor that has moved. */
  lemma BuiltRetains(c: Setup, now: Instant, starts: Starts, visits: Visits, kind: Kind, reason: Option<Id>, i: nat)
    requires i < c.Arms() == |starts| == |visits| && DistinctIds(c.Regs())
    requires Build(c, now, starts, visits, kind, reason).Success?
    requires c.Regs()[i].id in ApplyPosture(c, Build(c, now, starts, visits, kind, reason).value).retainedThrough
    ensures HonestStart(c, starts, i).Some?
    ensures var o, id := ApplyPosture(c, Build(c, now, starts, visits, kind, reason).value), c.Regs()[i].id;
            && id in o.retainedEvents && |o.retainedEvents[id]| <= |EventsIn(visits[i])|
            && o.retainedEvents[id] == Ids(EventsIn(visits[i])[..|o.retainedEvents[id]|])
            && (o.retainedThrough[id] ==
                Last(HonestStart(c, starts, i).value, EventsIn(visits[i])[..|o.retainedEvents[id]|]) <==>
                !(Rewrites(c, now, kind) && Reports(kind) && MovesCursor(c, starts, visits, i)))
  {
    var events := EventsIn(visits[i]);
    assert events[..0] == [];
    ThroughAt(c, now, starts, visits, kind, reason, i);
    BackedAtIff(c, now, starts, visits, kind, reason, i);
    hide Build, ApplyPosture, HonestStart, Rewrites, Ids;
    if Rewrites(c, now, kind) {
      RewrittenRetains(c, now, starts, visits, kind, reason, i);
    }
  }

  lemma ThroughAt(c: Setup, now: Instant, starts: Starts, visits: Visits, kind: Kind, reason: Option<Id>, i: nat)
    requires i < c.Arms() == |starts| == |visits| && DistinctIds(c.Regs())
    requires Build(c, now, starts, visits, kind, reason).Success?
    ensures var o := ApplyPosture(c, Build(c, now, starts, visits, kind, reason).value);
            c.Regs()[i].id in o.retainedThrough <==> HonestStart(c, starts, i).Some?
  {
    var id := c.Regs()[i].id;
    hide *;
    BuiltMaps(c, now, starts, visits, kind, reason);
    PostureMaps(c, Build(c, now, starts, visits, kind, reason).value);
    RetainedByArm(c, kind, starts, visits, c.Arms(), i);
    RecordId(c, kind, starts, visits, i);
    RetainedUnfolds(Records(c, kind, starts, visits, c.Arms()), id, RecordOf(c, kind, starts, visits, i));
  }

  lemma RetainedUnfolds(records: seq<ArmRecord>, id: Id, r: Option<ArmRecord>)
    requires RetainedIs(records, id, r)
    ensures id in ThroughOf(records) <==> r.Some?
    ensures r.Some? ==> ThroughOf(records)[id] == r.value.retainedThrough
  {
    hide ThroughOf, RetainedOf;
  }

  /** Rewritten, the outcome retains no event of the arm, and still the cursor. */
  lemma RewrittenRetains(c: Setup, now: Instant, starts: Starts, visits: Visits, kind: Kind, reason: Option<Id>, i: nat)
    requires i < c.Arms() == |starts| == |visits| && DistinctIds(c.Regs())
    requires Build(c, now, starts, visits, kind, reason).Success? && Rewrites(c, now, kind)
             && HonestStart(c, starts, i).Some?
    ensures var o, id := ApplyPosture(c, Build(c, now, starts, visits, kind, reason).value), c.Regs()[i].id;
            var start := HonestStart(c, starts, i).value;
            && id in o.retainedEvents && o.retainedEvents[id] == []
            && id in o.retainedThrough
            && o.retainedThrough[id] == if Reports(kind) then Last(start, EventsIn(visits[i])) else start
  {
    hide Records, RecordOf, EventsOf, ThroughOf, RetainedOf, CoverageComplete, HonestStart, NextCursor, LeaseExpired,
      EmptyEventMap;
    RetainedByArm(c, kind, starts, visits, c.Arms(), i);
    RecordId(c, kind, starts, visits, i);
    ArmsMember(c, kind, starts, visits);
    EmptyMapHas(ArmsOf(Records(c, kind, starts, visits, c.Arms())), RecordOf(c, kind, starts, visits, i).value.arm);
  }

  /** One log per registration; anchor `k` of a log is the cursor before its event `k`. */
  ghost predicate Chained(logs: seq<seq<Event>>, anchors: seq<seq<Id>>) {
    |logs| == |anchors| &&
    forall i :: 0 <= i < |logs| ==>
      |anchors[i]| == |logs[i]| + 1 && forall k :: 0 <= k < |logs[i]| ==> logs[i][k].proposedNext == anchors[i][k + 1]
  }

  /** A cycle from the given queues, and the acknowledgement that followed, if one was accepted. */
  datatype Round = Round(c: Setup, queues: seq<seq<Event>>, events: seq<Happening>, ack: Option<Ack>)

  /** The consumer: `acknowledged` is what it will send next, `position` how far
      each log is delivered, `delivered` the event ids of the accepted acks. */
  datatype Consumer = Consumer(acknowledged: map<Id, Id>, position: seq<nat>, delivered: seq<seq<Id>>)

  function OutcomeOf(r: Round): Option<PollOutcome>
    requires |r.queues| == r.c.Arms()
  {
    var done := RunCycle(r.c, Begin(r.c, r.queues), r.events).done;
    if done.Some? && done.value.Success? then Some(done.value.value) else None
  }

  /** The source replays each log from where delivery stands, whatever happened in
      between; an arm without acknowledged anchor starts at its log's origin; and an
      ack cites the outcome and is accepted. */
  ghost predicate Fair(regs: seq<Registration>, logs: seq<seq<Event>>, anchors: seq<seq<Id>>, k: Consumer, r: Round)
    requires |logs| == |anchors| == |regs| == |k.position|
  {
    && r.c.Regs() == regs && |r.queues| == |regs| && r.c.request.acknowledged == k.acknowledged
    && (forall i :: 0 <= i < |regs| ==> SuffixFrom(logs[i], k.position[i], Received(r.queues, r.events)[i]))
    && (forall i :: 0 <= i < |regs| && regs[i].id !in k.acknowledged ==>
          var start := HonestStart(r.c, RunCycle(r.c, Begin(r.c, r.queues), r.events).starts, i);
          start.Some? ==> anchors[i] != [] && start.value == anchors[i][0])
    && (r.ack.Some? ==> OutcomeOf(r).Some? && AckAccepted(r.ack.value, OutcomeOf(r).value))
  }

  /** `seen` is the part of `log` that starts at `from`. */
  ghost predicate SuffixFrom(log: seq<Event>, from: nat, seen: seq<Event>) {
    from + |seen| <= |log| && seen == log[from..from + |seen|]
  }

  function Commits(r: Round, id: Id): seq<Id>
    requires |r.queues| == r.c.Arms()
  {
    if r.ack.Some? && id in r.ack.value.committed && OutcomeOf(r).Some? && id in OutcomeOf(r).value.retainedEvents then
      OutcomeOf(r).value.retainedEvents[id]
    else []
  }

  function AfterRound(k: Consumer, regs: seq<Registration>, r: Round): (k': Consumer)
    requires |r.queues| == r.c.Arms() == |regs| == |k.position| == |k.delivered|
    ensures |k'.position| == |k'.delivered| == |regs|
  {
    Consumer(if r.ack.Some? then k.acknowledged + r.ack.value.committed else k.acknowledged,
             seq(|regs|, i requires 0 <= i < |regs| => k.position[i] + |Commits(r, regs[i].id)|),
             seq(|regs|, i requires 0 <= i < |regs| => k.delivered[i] + Commits(r, regs[i].id)))
  }

  /** Arm `i`: exactly the first `position` events of its log were delivered, once
      each and in order, and the anchor the consumer holds is the one after them. */
  ghost predicate ExactAt(regs: seq<Registration>, logs: seq<seq<Event>>, anchors: seq<seq<Id>>, k: Consumer, i: nat)
    requires i < |regs| == |logs| == |anchors| == |k.position| == |k.delivered|
  {
    && k.position[i] <= |logs[i]| && |anchors[i]| == |logs[i]| + 1
    && k.delivered[i] == Ids(logs[i][..k.position[i]])
    && (if regs[i].id in k.acknowledged then k.acknowledged[regs[i].id] == anchors[i][k.position[i]]
        else k.position[i] == 0)
  }

  lemma IdsConcat(a: seq<Event>, b: seq<Event>)
    ensures Ids(a + b) == Ids(a) + Ids(b)
  {
  }

  /** The round acknowledges a rewritten report of arm `i`, and with it a cursor that
      has moved past events the outcome no longer holds. */
  predicate RoundSkips(regs: seq<Registration>, r: Round, i: nat)
    requires i < |regs| == |r.queues| == r.c.Arms()
  {
    r.ack.Some? && regs[i].id in r.ack.value.committed && OutcomeOf(r).Some? && SkipsAt(r.c, r.queues, r.events, i)
  }

  /** A round keeps delivery in step with the log if and only if it skips nothing. */
  lemma RoundExactIff(regs: seq<Registration>, logs: seq<seq<Event>>, anchors: seq<seq<Id>>, k: Consumer, r: Round,
                      i: nat)
    requires i < |regs| == |logs| == |anchors| == |k.position| == |k.delivered| && DistinctIds(regs)
    requires Chained(logs, anchors) && ExactAt(regs, logs, anchors, k, i)
    requires Fair(regs, logs, anchors, k, r)
    ensures ExactAt(regs, logs, anchors, AfterRound(k, regs, r), i) <==> !RoundSkips(regs, r, i)
  {
    hide RunCycle, Received, HonestStart, Ids, Last, DistinctIds, SkipsAt, AckAccepted, Chained;
    var id := regs[i].id;
    if r.ack.Some? && id in r.ack.value.committed {
      var o := OutcomeOf(r).value;
      CommittedIsRetained(r.ack.value, o, id);
      CycleRetains(r.c, r.queues, r.events, i);
      CommitExactIff(regs, logs, anchors, k, r, i);
    } else {
      assert k.delivered[i] + [] == k.delivered[i];
    }
  }

  lemma CommittedIsRetained(a: Ack, o: PollOutcome, id: Id)
    requires AckAccepted(a, o) && id in a.committed
    ensures id in o.retainedThrough && o.retainedThrough[id] == a.committed[id]
  {
  }

  /** A committed cursor is exact if it is the one after the retained events. */
  lemma CommitExactIff(regs: seq<Registration>, logs: seq<seq<Event>>, anchors: seq<seq<Id>>, k: Consumer, r: Round,
                       i: nat)
    requires i < |regs| == |logs| == |anchors| == |k.position| == |k.delivered|
    requires Chained(logs, anchors) && ExactAt(regs, logs, anchors, k, i) && Fair(regs, logs, anchors, k, r)
    requires r.ack.Some? && regs[i].id in r.ack.value.committed
    requires var o, id := OutcomeOf(r).value, regs[i].id;
             var start := HonestStart(r.c, RunCycle(r.c, Begin(r.c, r.queues), r.events).starts, i);
             && id in o.retainedThrough && o.retainedThrough[id] == r.ack.value.committed[id]
             && id in o.retainedEvents && |o.retainedEvents[id]| <= |Received(r.queues, r.events)[i]| && start.Some?
             && o.retainedEvents[id] == Ids(Received(r.queues, r.events)[i][..|o.retainedEvents[id]|])
             && (id in k.acknowledged ==> start.value == k.acknowledged[id])
    ensures var o, id := OutcomeOf(r).value, regs[i].id;
            var start := HonestStart(r.c, RunCycle(r.c, Begin(r.c, r.queues), r.events).starts, i).value;
            ExactAt(regs, logs, anchors, AfterRound(k, regs, r), i) <==>
            o.retainedThrough[id] == Last(start, Received(r.queues, r.events)[i][..|o.retainedEvents[id]|])
  {
    hide RunCycle, Received, HonestStart, Ids, Last, AckAccepted;
    var o, id, p := OutcomeOf(r).value, regs[i].id, k.position[i];
    var stream, m := Received(r.queues, r.events)[i], |o.retainedEvents[id]|;
    assert stream[..m] == logs[i][p..p + m];
    var start := HonestStart(r.c, RunCycle(r.c, Begin(r.c, r.queues), r.events).starts, i).value;
    assert start == anchors[i][p];
    LastOfSlice(logs[i], anchors[i], p, m, start);
    IdsConcat(logs[i][..p], logs[i][p..p + m]);
    assert logs[i][..p] + logs[i][p..p + m] == logs[i][..p + m];
  }

  lemma LastOfSlice(log: seq<Event>, anchors: seq<Id>, p: nat, m: nat, start: Id)
    requires |anchors| == |log| + 1 && p + m <= |log| && start == anchors[p]
    requires forall k :: 0 <= k < |log| ==> log[k].proposedNext == anchors[k + 1]
    ensures Last(start, log[p..p + m]) == anchors[p + m]
  {
  }

  /** The consumer after a list of rounds, each fair to the state it meets. */
  ghost predicate AllFair(regs: seq<Registration>, logs: seq<seq<Event>>, anchors: seq<seq<Id>>, k: Consumer,
                          rounds: seq<Round>)
    requires |regs| == |logs| == |anchors| == |k.position| == |k.delivered|
    decreases |rounds|
  {
    rounds != [] ==>
      Fair(regs, logs, anchors, k, rounds[0])
      && AllFair(regs, logs, anchors, AfterRound(k, regs, rounds[0]), rounds[1..])
  }

  ghost function Final(regs: seq<Registration>, logs: seq<seq<Event>>, anchors: seq<seq<Id>>, k: Consumer,
                       rounds: seq<Round>): (f: Consumer)
    requires |regs| == |logs| == |anchors| == |k.position| == |k.delivered|
    requires AllFair(regs, logs, anchors, k, rounds)
    ensures |f.position| == |f.delivered| == |regs|
    decreases |rounds|
  {
    if rounds == [] then k else Final(regs, logs, anchors, AfterRound(k, regs, rounds[0]), rounds[1..])
  }

  lemma FairShape(regs: seq<Registration>, logs: seq<seq<Event>>, anchors: seq<seq<Id>>, k: Consumer, r: Round)
    requires |logs| == |anchors| == |regs| == |k.position| && Fair(regs, logs, anchors, k, r)
    ensures r.c.Regs() == regs && |r.queues| == |regs|
  {
  }

  /** Before the first round and after each, arm `i` is exact. */
  ghost predicate ExactThroughout(regs: seq<Registration>, logs: seq<seq<Event>>, anchors: seq<seq<Id>>,
                                  k: Consumer, rounds: seq<Round>, i: nat)
    requires i < |regs| == |logs| == |anchors| == |k.position| == |k.delivered|
    requires AllFair(regs, logs, anchors, k, rounds)
    decreases |rounds|
  {
    && ExactAt(regs, logs, anchors, k, i)
    && (rounds != [] ==> ExactThroughout(regs, logs, anchors, AfterRound(k, regs, rounds[0]), rounds[1..], i))
  }

  ghost predicate NoneSkips(regs: seq<Registration>, rounds: seq<Round>, i: nat)
    requires i < |regs| && forall r :: r in rounds ==> |regs| == |r.queues| == r.c.Arms()
  {
    forall r :: r in rounds ==> !RoundSkips(regs, r, i)
  }

  lemma {:induction false} FairShapes(regs: seq<Registration>, logs: seq<seq<Event>>, anchors: seq<seq<Id>>,
                                      k: Consumer, rounds: seq<Round>)
    requires |regs| == |logs| == |anchors| == |k.position| == |k.delivered|
    requires AllFair(regs, logs, anchors, k, rounds)
    ensures forall r :: r in rounds ==> |regs| == |r.queues| == r.c.Arms()
    decreases |rounds|
  {
    hide Fair, AfterRound;
    if rounds != [] {
      FairShape(regs, logs, anchors, k, rounds[0]);
      FairShapes(regs, logs, anchors, AfterRound(k, regs, rounds[0]), rounds[1..]);
    }
  }

  /** Cursors move only by accepted acks. Over any list of cycles, cancelled, refused,
      restarted or acknowledged, an arm's log is delivered from its start, exactly once
      and in order, and its committed anchor is the one after the last delivered event,
      all the way, if and only if no round acknowledges a rewritten report of the arm. */
  lemma {:induction false} DeliveredExactlyOnce(regs: seq<Registration>, logs: seq<seq<Event>>, anchors: seq<seq<Id>>,
                                                k: Consumer, rounds: seq<Round>, i: nat)
    requires i < |regs| == |logs| == |anchors| == |k.position| == |k.delivered| && DistinctIds(regs)
    requires Chained(logs, anchors) && AllFair(regs, logs, anchors, k, rounds)
    requires ExactAt(regs, logs, anchors, k, i)
    ensures forall r :: r in rounds ==> |regs| == |r.queues| == r.c.Arms()
    ensures ExactThroughout(regs, logs, anchors, k, rounds, i) <==> NoneSkips(regs, rounds, i)
    ensures NoneSkips(regs, rounds, i) ==> ExactAt(regs, logs, anchors, Final(regs, logs, anchors, k, rounds), i)
    decreases |rounds|
  {
    hide Fair, AfterRound, ExactAt, Chained, DistinctIds, RoundSkips;
    FairShapes(regs, logs, anchors, k, rounds);
    if rounds != [] {
      var next := AfterRound(k, regs, rounds[0]);
      RoundExactIff(regs, logs, anchors, k, rounds[0], i);
      assert forall r :: r in rounds <==> r == rounds[0] || r in rounds[1..];
      if !RoundSkips(regs, rounds[0], i) {
        DeliveredExactlyOnce(regs, logs, anchors, next, rounds[1..], i);
      }
    }
  }
}
