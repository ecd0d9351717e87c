/** Poll outcomes against the admission rules: what a cycle hands out passes
    them, under conditions on the set and the request that are stated. */
module PollOutcomes {
  import opened Wrappers
  import opened Seam
  import opened Messages
  import opened PollBudget
  import opened PollCycle
  import opened PollCustody

  ghost predicate DistinctIds(regs: seq<Registration>) {
    forall i, j :: 0 <= i < j < |regs| ==> regs[i].id != regs[j].id
  }

  // ----- Arms of an outcome -----

  lemma {:induction false} KthRequired(regs: seq<Registration>, n: nat, k: nat)
    requires n <= |regs| && k < RequiredBefore(regs, n)
    ensures exists i :: 0 <= i < n && regs[i].required && RequiredBefore(regs, i) == k
  {
    if regs[n - 1].required && RequiredBefore(regs, n - 1) == k {
    } else {
      KthRequired(regs, n - 1, k);
    }
  }

  /** The records are those of the arms with a known start, in order. */
  lemma {:induction false} RecordsMember(c: Setup, kind: Kind, starts: Starts, visits: Visits, n: nat)
    requires c.Arms() == |starts| == |visits| && n <= c.Arms()
    ensures forall j :: 0 <= j < n && RecordOf(c, kind, starts, visits, j).Some? ==>
              RecordOf(c, kind, starts, visits, j).value in Records(c, kind, starts, visits, n)
    ensures forall r :: r in Records(c, kind, starts, visits, n) ==>
              exists j :: 0 <= j < n && RecordOf(c, kind, starts, visits, j) == Some(r)
  {
    hide RecordOf;
    if n > 0 {
      RecordsMember(c, kind, starts, visits, n - 1);
    }
  }

  lemma ArmsMember(c: Setup, kind: Kind, starts: Starts, visits: Visits)
    requires c.Arms() == |starts| == |visits|
    ensures var arms := ArmsOf(Records(c, kind, starts, visits, c.Arms()));
            && (forall j :: 0 <= j < c.Arms() && RecordOf(c, kind, starts, visits, j).Some? ==>
                  RecordOf(c, kind, starts, visits, j).value.arm in arms)
            && (forall a :: a in arms ==>
                  exists j :: 0 <= j < c.Arms() && RecordOf(c, kind, starts, visits, j).Some?
                              && RecordOf(c, kind, starts, visits, j).value.arm == a)
  {
    hide RecordOf;
    RecordsMember(c, kind, starts, visits, c.Arms());
    var records := Records(c, kind, starts, visits, c.Arms());
    var arms := ArmsOf(records);
    forall j | 0 <= j < c.Arms() && RecordOf(c, kind, starts, visits, j).Some?
      ensures RecordOf(c, kind, starts, visits, j).value.arm in arms
    {
      var r := RecordOf(c, kind, starts, visits, j).value;
      var k :| 0 <= k < |records| && records[k] == r;
      assert arms[k] == r.arm;
    }
    forall a | a in arms
      ensures exists j :: 0 <= j < c.Arms() && RecordOf(c, kind, starts, visits, j).Some?
                          && RecordOf(c, kind, starts, visits, j).value.arm == a
    {
      var k :| 0 <= k < |arms| && arms[k] == a;
      assert records[k] in records;
    }
  }

  lemma ArmIndex(c: Setup, kind: Kind, starts: Starts, visits: Visits, a: CoverageArm) returns (j: nat)
    requires c.Arms() == |starts| == |visits| && a in ArmsOf(Records(c, kind, starts, visits, c.Arms()))
    ensures j < c.Arms() && RecordOf(c, kind, starts, visits, j).Some?
            && RecordOf(c, kind, starts, visits, j).value.arm == a
  {
    hide RecordOf, Records;
    ArmsMember(c, kind, starts, visits);
    j :| j < c.Arms() && RecordOf(c, kind, starts, visits, j).Some?
         && RecordOf(c, kind, starts, visits, j).value.arm == a;
  }

  /** What the visits of a finished cycle are like. */
  ghost predicate Complete(c: Setup, starts: Starts, visits: Visits) {
    && |starts| == |visits| == c.Arms()
    && AllVisited(visits) && RequiredBinds(c, starts)
    && (forall i :: 0 <= i < |visits| && visits[i].value.Admitted? ==> visits[i].value.events != [] && starts[i].Some?)
  }

  /** Every requested arm id is that of an arm whose start is known and whose
      visit, if any, is clean. */
  predicate Carried(c: Setup, starts: Starts, visits: Visits)
    requires c.Arms() == |starts| == |visits|
  {
    forall id | id in c.request.requiredArms :: CarriedBy(c, starts, visits, id)
  }

  predicate CarriedBy(c: Setup, starts: Starts, visits: Visits, id: Id)
    requires c.Arms() == |starts| == |visits|
  {
    exists i :: 0 <= i < c.Arms() && ArmId(c, i) == id && HonestStart(c, starts, i).Some? && !DirtyVisit(visits[i])
  }

  /** There are enough required registrations to take every requested arm id. */
  predicate ArmsFit(c: Setup) {
    |c.request.requiredArms| <= RequiredBefore(c.Regs(), c.Arms())
  }

  lemma DeciderIsQuiet(c: Setup, now: Instant, starts: Starts, visits: Visits)
    requires Complete(c, starts, visits)
    requires var kind := DecideKind(c, now, visits).0; kind.NoChange? || kind.LogicalDeadman?
    ensures forall i :: 0 <= i < c.Arms() && c.Regs()[i].required ==>
              !DirtyVisit(visits[i]) && !visits[i].value.Admitted?
              && (DecideKind(c, now, visits).0.NoChange? ==> visits[i] == Some(IdleVisit))
  {
    forall i | 0 <= i < c.Arms() && c.Regs()[i].required
      ensures !DirtyVisit(visits[i]) && !visits[i].value.Admitted?
      ensures DecideKind(c, now, visits).0.NoChange? ==> visits[i] == Some(IdleVisit)
    {
      OrderCoversOnce(c);
      if visits[i].value.FailedVisit? {
        FailedIsSeen(visits, Order(c), i);
      }
      assert EventsIn(visits[i]) == [];
    }
  }

  lemma {:induction false} FailedIsSeen(visits: Visits, order: seq<nat>, i: nat)
    requires Indices(order, |visits|) && i in order && visits[i].Some? && visits[i].value.FailedVisit?
    ensures LastFailed(visits, order).Some?
  {
    var last := order[|order| - 1];
    if !(visits[last].Some? && visits[last].value.FailedVisit?) {
      assert i in order[..|order| - 1];
      FailedIsSeen(visits, order[..|order| - 1], i);
    }
  }

  /** What an arm of the outcome says, from its visit. */
  lemma ArmSays(c: Setup, kind: Kind, starts: Starts, visits: Visits, j: nat)
    requires j < c.Arms() == |starts| == |visits|
    ensures RecordOf(c, kind, starts, visits, j).Some? <==> HonestStart(c, starts, j).Some?
    ensures starts[j].Some? ==> RecordOf(c, kind, starts, visits, j).Some?
    ensures RecordOf(c, kind, starts, visits, j).Some? ==>
              var a := RecordOf(c, kind, starts, visits, j).value.arm;
              && a.required == c.Regs()[j].required && a.armId == ArmId(c, j)
              && (Dirty(a) <==> DirtyVisit(visits[j]))
              && (visits[j] == Some(IdleVisit) ==> a.status.Quiet?)
  {
    hide ArmId;
  }

  lemma QuietArmsAreClean(c: Setup, now: Instant, starts: Starts, visits: Visits)
    requires Complete(c, starts, visits)
    requires var kind := DecideKind(c, now, visits).0; kind.NoChange? || kind.LogicalDeadman?
    ensures var kind := DecideKind(c, now, visits).0;
            var arms := ArmsOf(Records(c, kind, starts, visits, c.Arms()));
            && (AnyRequired(arms) <==> HasRequired(c.rs))
            && (forall a :: a in arms && a.required ==> !Dirty(a) && (kind.NoChange? ==> a.status.Quiet?))
  {
    hide Records, RecordOf, ArmId, Dirty;
    var kind := DecideKind(c, now, visits).0;
    var arms := ArmsOf(Records(c, kind, starts, visits, c.Arms()));
    ArmsMember(c, kind, starts, visits);
    DeciderIsQuiet(c, now, starts, visits);
    hide DecideKind;
    forall a | a in arms && a.required ensures !Dirty(a) && (kind.NoChange? ==> a.status.Quiet?) && HasRequired(c.rs) {
      var j := ArmIndex(c, kind, starts, visits, a);
      ArmSays(c, kind, starts, visits, j);
      assert c.Regs()[j] in c.Regs();
    }
    if HasRequired(c.rs) {
      var reg :| reg in c.Regs() && reg.required;
      var j :| 0 <= j < c.Arms() && c.Regs()[j] == reg;
      ArmSays(c, kind, starts, visits, j);
      assert RecordOf(c, kind, starts, visits, j).value.arm in arms;
    }
  }

  /** Coverage is claimed, by a kind that may claim it, exactly when every
      requested arm id is carried. */
  lemma CoverageIff(c: Setup, starts: Starts, visits: Visits, kind: Kind)
    requires c.Arms() == |starts| == |visits|
    requires !Unsuccessful(kind) && !kind.Partial? && !kind.CoverageDegraded?
    ensures CoverageComplete(c.request.requiredArms, ArmsOf(Records(c, kind, starts, visits, c.Arms())), kind) <==>
            Carried(c, starts, visits)
  {
    hide Records, RecordOf, Dirty, DirtyVisit, ArmId, HonestStart;
    var arms := ArmsOf(Records(c, kind, starts, visits, c.Arms()));
    ArmsMember(c, kind, starts, visits);
    forall id ensures (exists a | a in arms :: a.armId == id && !Dirty(a)) <==> CarriedBy(c, starts, visits, id) {
      if a :| a in arms && a.armId == id && !Dirty(a) {
        var i := ArmIndex(c, kind, starts, visits, a);
        ArmSays(c, kind, starts, visits, i);
        assert ArmId(c, i) == id;
      }
      if i: nat :| i < c.Arms() && ArmId(c, i) == id && HonestStart(c, starts, i).Some? && !DirtyVisit(visits[i]) {
        ArmSays(c, kind, starts, visits, i);
        var a := RecordOf(c, kind, starts, visits, i).value.arm;
        assert a in arms && a.armId == id && !Dirty(a);
      }
    }
  }

  /** Arm ids that the required registrations take are carried by a quiet cycle. */
  lemma FittingArmsCarried(c: Setup, now: Instant, starts: Starts, visits: Visits)
    requires Complete(c, starts, visits) && ArmsFit(c)
    requires var kind := DecideKind(c, now, visits).0; kind.NoChange? || kind.LogicalDeadman?
    ensures Carried(c, starts, visits)
  {
    DeciderIsQuiet(c, now, starts, visits);
    hide DecideKind, DirtyVisit;
    forall id | id in c.request.requiredArms ensures CarriedBy(c, starts, visits, id) {
      var k :| 0 <= k < |c.request.requiredArms| && c.request.requiredArms[k] == id;
      KthRequired(c.Regs(), c.Arms(), k);
      var i :| 0 <= i < c.Arms() && c.Regs()[i].required && RequiredBefore(c.Regs(), i) == k;
      assert ArmId(c, i) == id && HonestStart(c, starts, i).Some?;
    }
  }

  // ----- The normative rule -----

  lemma {:induction false} NothingReported(records: seq<ArmRecord>)
    requires forall r :: r in records ==> r.events == []
    ensures EventsOf(records) == []
  {
    if records != [] {
      NothingReported(records[..|records| - 1]);
      assert records[|records| - 1] in records;
    }
  }

  lemma RecordEvents(c: Setup, kind: Kind, starts: Starts, visits: Visits, j: nat)
    requires j < c.Arms() == |starts| == |visits|
    ensures RecordOf(c, kind, starts, visits, j).Some? ==>
              RecordOf(c, kind, starts, visits, j).value.events == if Reports(kind) then EventsIn(visits[j]) else []
    ensures starts[j].Some? ==> RecordOf(c, kind, starts, visits, j).Some?
  {
    hide ArmId, StatusOf;
  }

  lemma EventsOnlyWhenReported(c: Setup, kind: Kind, starts: Starts, visits: Visits)
    requires c.Arms() == |starts| == |visits| && !Reports(kind)
    ensures EventsOf(Records(c, kind, starts, visits, c.Arms())) == []
  {
    hide Records, RecordOf, EventsOf;
    RecordsMember(c, kind, starts, visits, c.Arms());
    var records := Records(c, kind, starts, visits, c.Arms());
    forall r | r in records ensures r.events == [] {
      var j: nat :| j < c.Arms() && RecordOf(c, kind, starts, visits, j) == Some(r);
      RecordEvents(c, kind, starts, visits, j);
    }
    NothingReported(records);
  }

  lemma NormativeParts(o: Outcome)
    requires o.kind.NoChange? || o.kind.LogicalDeadman?
    requires o.events == [] && o.logicalDeadline.Some?
    requires forall a :: a in o.arms && a.required ==> !Dirty(a) && (o.kind.NoChange? ==> a.status.Quiet?)
    requires o.kind.NoChange? <==> o.completedAt < o.logicalDeadline.value
    ensures Normative(o) <==> AnyRequired(o.arms) && o.coverageComplete == Some(true)
  {
  }

  lemma QuietKind(c: Setup, now: Instant, visits: Visits)
    requires |visits| == c.Arms()
    ensures var kind := DecideKind(c, now, visits).0;
            kind.NoChange? || kind.LogicalDeadman? ==>
              && !Reports(kind) && !Unsuccessful(kind) && !kind.Partial? && !kind.CoverageDegraded?
              && (kind.NoChange? <==> now < c.request.logicalDeadline)
  {
  }

  lemma BuiltBase(c: Setup, now: Instant, starts: Starts, visits: Visits, kind: Kind, reason: Option<Id>)
    requires c.Arms() == |starts| == |visits| && Build(c, now, starts, visits, kind, reason).Success?
    ensures var records := Records(c, kind, starts, visits, c.Arms());
            Build(c, now, starts, visits, kind, reason).value.base ==
            Outcome(kind, now, Some(c.request.logicalDeadline), EventsOf(records),
                    Some(CoverageComplete(c.request.requiredArms, ArmsOf(records), kind)), ArmsOf(records), reason)
  {
    hide Records, CoverageComplete, EventsOf;
  }

  lemma QuietBuiltNormativeIff(c: Setup, now: Instant, starts: Starts, visits: Visits)
    requires Complete(c, starts, visits)
    requires var (kind, reason) := DecideKind(c, now, visits);
             (kind.NoChange? || kind.LogicalDeadman?) && Build(c, now, starts, visits, kind, reason).Success?
    ensures var (kind, reason) := DecideKind(c, now, visits);
            Normative(Build(c, now, starts, visits, kind, reason).value.base) <==>
              HasRequired(c.rs) && Carried(c, starts, visits)
  {
    assert |visits| == |starts| == c.Arms();
    QuietKind(c, now, visits);
    hide *;
    var (kind, reason) := DecideKind(c, now, visits);
    QuietArmsAreClean(c, now, starts, visits);
    CoverageIff(c, starts, visits, kind);
    EventsOnlyWhenReported(c, kind, starts, visits);
    var o := Build(c, now, starts, visits, kind, reason).value.base;
    BuiltBase(c, now, starts, visits, kind, reason);
    NormativeParts(o);
  }

  /** A complete cycle's outcome meets `outcome_normative` if and only if, being
      quiet, it has a required registration and every requested arm id is carried. */
  lemma AssembledNormativeIff(c: Setup, now: Instant, starts: Starts, visits: Visits)
    requires Complete(c, starts, visits)
    requires Assemble(c, now, starts, visits).Success?
    ensures var o := Assemble(c, now, starts, visits).value.base;
            Normative(o) <==> (IsQuiet(o.kind) ==> HasRequired(c.rs) && Carried(c, starts, visits))
  {
    var (kind, reason) := DecideKind(c, now, visits);
    hide DecideKind, HasRequired, LeaseExpired, Complete, Carried;
    if kind.NoChange? || kind.LogicalDeadman? {
      QuietBuiltNormativeIff(c, now, starts, visits);
    }
    hide Build;
    PostureKindNormative(c, Build(c, now, starts, visits, kind, reason).value);
    BuiltBase(c, now, starts, visits, kind, reason);
  }

  /** Posture leaves an outcome alone, or makes it one the rule says nothing about. */
  lemma PostureKindNormative(c: Setup, o: PollOutcome)
    ensures var p := ApplyPosture(c, o).base;
            p == o.base || (Normative(p) && !p.kind.NoChange? && !p.kind.LogicalDeadman?)
    ensures !o.base.kind.NoChange? && !o.base.kind.LogicalDeadman? ==> Normative(ApplyPosture(c, o).base)
  {
  }

  // ----- Required arms -----

  /** A cycle claims complete coverage only with every requested arm present and clean. */
  lemma CoverageClaimIsTrue(c: Setup, now: Instant, starts: Starts, visits: Visits, kind: Kind, reason: Option<Id>)
    requires c.Arms() == |starts| == |visits|
    requires Finished(c, Build(c, now, starts, visits, kind, reason)).Success?
    ensures CoversRequired(c.request.requiredArms, Finished(c, Build(c, now, starts, visits, kind, reason)).value.base)
  {
    hide Records;
    var o := Finished(c, Build(c, now, starts, visits, kind, reason)).value.base;
    if o.coverageComplete == Some(true) {
      forall id | id in c.request.requiredArms ensures exists a | a in o.arms :: a.armId == id {
        var a :| a in o.arms && a.armId == id && !Dirty(a);
      }
    }
  }

  // ----- Bounds -----

  lemma EventsOfPush(records: seq<ArmRecord>, r: ArmRecord)
    ensures EventsOf(records + [r]) == EventsOf(records) + r.events
  {
    assert (records + [r])[..|records|] == records;
  }

  lemma RecordsUnfold(c: Setup, kind: Kind, starts: Starts, visits: Visits, n: nat)
    requires c.Arms() == |starts| == |visits| && 0 < n <= c.Arms()
    ensures var r := RecordOf(c, kind, starts, visits, n - 1);
            Records(c, kind, starts, visits, n) ==
            Records(c, kind, starts, visits, n - 1) + if r.Some? then [r.value] else []
  {
    hide RecordOf;
  }

  lemma AllAdmittedTake(visits: Visits, n: nat)
    requires 0 < n <= |visits|
    ensures AllAdmitted(visits[..n]) == AllAdmitted(visits[..n - 1]) + EventsIn(visits[n - 1])
  {
    hide *;
    AllAdmittedPush(visits[..n - 1], visits[n - 1]);
    assert visits[..n] == visits[..n - 1] + [visits[n - 1]];
  }

  lemma ReportedStep(c: Setup, kind: Kind, starts: Starts, visits: Visits, n: nat)
    requires c.Arms() == |starts| == |visits| && 0 < n <= c.Arms() && Reports(kind)
    requires EventsIn(visits[n - 1]) != [] ==> starts[n - 1].Some?
    ensures EventsOf(Records(c, kind, starts, visits, n)) ==
              EventsOf(Records(c, kind, starts, visits, n - 1)) + EventsIn(visits[n - 1])
  {
    hide *;
    RecordsUnfold(c, kind, starts, visits, n);
    RecordEvents(c, kind, starts, visits, n - 1);
    var before, r := Records(c, kind, starts, visits, n - 1), RecordOf(c, kind, starts, visits, n - 1);
    if r.Some? {
      EventsOfPush(before, r.value);
    } else {
      assert before + [] == before;
    }
  }

  /** The reported events are the admitted ones, arm by arm. */
  lemma {:induction false} ReportedAreAdmitted(c: Setup, kind: Kind, starts: Starts, visits: Visits, n: nat)
    requires c.Arms() == |starts| == |visits| && n <= c.Arms() && Reports(kind)
    requires forall i :: 0 <= i < |visits| && EventsIn(visits[i]) != [] ==> starts[i].Some?
    ensures EventsOf(Records(c, kind, starts, visits, n)) == AllAdmitted(visits[..n])
  {
    if n > 0 {
      ReportedAreAdmitted(c, kind, starts, visits, n - 1);
      ReportedStep(c, kind, starts, visits, n);
      AllAdmittedTake(visits, n);
      hide *;
    }
  }

  lemma {:induction false} CapIsOwn(regs: seq<Registration>, i: nat)
    requires DistinctIds(regs) && i < |regs|
    ensures Cap(EventCaps(regs), regs[i].id) == regs[i].maxEvents
  {
    var n := |regs| - 1;
    if i < n {
      CapIsOwn(regs[..n], i);
      assert regs[..n][i] == regs[i];
      CapIsPresent(regs[..n], i);
    }
  }

  lemma {:induction false} CapIsPresent(regs: seq<Registration>, i: nat)
    requires i < |regs|
    ensures regs[i].id in EventCaps(regs)
  {
    var n := |regs| - 1;
    if i < n {
      CapIsPresent(regs[..n], i);
    }
  }

  /** No bound rule of the validator rejects what a cycle reports. */
  lemma ReportedWithinBounds(c: Setup, now: Instant, starts: Starts, visits: Visits, kind: Kind, reason: Option<Id>)
    requires c.Arms() == |starts| == |visits| && DistinctIds(c.Regs())
    requires forall i :: 0 <= i < |visits| && EventsIn(visits[i]) != [] ==> starts[i].Some?
    requires WithinCaps(c.Limits(), AllAdmitted(visits))
    requires Finished(c, Build(c, now, starts, visits, kind, reason)).Success?
    ensures WithinBounds(c.rs, Finished(c, Build(c, now, starts, visits, kind, reason)).value.base)
  {
    hide Records, AllAdmitted, EventsOf, ThroughOf, RetainedOf, NextCursor, CoverageComplete, LeaseExpired, WithinCaps,
      WithId;
    var built := Build(c, now, starts, visits, kind, reason).value;
    var o := ApplyPosture(c, built).base;
    if Reports(kind) {
      ReportedAreAdmitted(c, kind, starts, visits, c.Arms());
      assert visits[..c.Arms()] == visits;
    } else {
      EventsOnlyWhenReported(c, kind, starts, visits);
    }
    assert o.events == AllAdmitted(visits) || o.events == [];
    if o.events != [] {
      CapsBound(c, o.events);
    } else {
      NothingWithId();
    }
  }

  lemma NothingWithId()
    ensures forall id :: WithId([], id) == []
  {
  }

  lemma CapsBound(c: Setup, events: seq<Event>)
    requires DistinctIds(c.Regs()) && WithinCaps(c.Limits(), events)
    ensures |events| <= c.rs.maxEvents && forall r :: r in c.Regs() ==> |WithId(events, r.id)| <= r.maxEvents
  {
    hide WithId, TotalBytes;
    forall r | r in c.Regs() ensures |WithId(events, r.id)| <= r.maxEvents {
      var i: nat :| i < |c.rs.registrations| && c.rs.registrations[i] == r;
      CapIsOwn(c.rs.registrations, i);
      assert IdWithinCaps(c.Limits(), events, r.id);
    }
  }

  // ----- Authentication and leases -----

  lemma PostureAuthenticates(c: Setup, o: PollOutcome)
    ensures Authenticated(c.rs, c.request.hasReceipt, ApplyPosture(c, o).base)
  {
  }

  /** The lease rule holds exactly unless a cancelled or failed cycle finished
      after a lease: posture is not applied to those, and the rule has no
      exception for them. */
  lemma LeaseRuleIff(c: Setup, o: PollOutcome)
    requires !o.base.kind.Refused? && !o.base.kind.ReauthenticationRequired?
    ensures var p := ApplyPosture(c, o).base;
            WithinLeases(c.rs, p) <==> !((p.kind.Cancelled? || p.kind.FailedKind?) && LeaseExpired(c.rs, p.completedAt))
  {
  }

  predicate SawFailure(visits: Visits) {
    exists i :: 0 <= i < |visits| && visits[i].Some? && visits[i].value.FailedVisit?
  }

  /** The rows of the decision table that fail the cycle. */
  predicate EndsInFailure(c: Setup, visits: Visits)
    requires |visits| == c.Arms()
  {
    !SawEvents(visits) && (SawOverflow(visits) || (!RequiredDirty(c, visits) && SawFailure(visits)))
  }

  lemma {:induction false} LastFailedIsSeen(visits: Visits, order: seq<nat>)
    requires Indices(order, |visits|) && LastFailed(visits, order).Some?
    ensures SawFailure(visits)
  {
    var v := visits[order[|order| - 1]];
    if !(v.Some? && v.value.FailedVisit?) {
      LastFailedIsSeen(visits, order[..|order| - 1]);
    }
  }

  lemma FailsIff(c: Setup, now: Instant, visits: Visits)
    requires |visits| == c.Arms()
    ensures DecideKind(c, now, visits).0.FailedKind? <==> EndsInFailure(c, visits)
  {
    hide SawEvents, SawOverflow, RequiredDirty, RequiredDeferred, Truncated, LastFailed, Order;
    OrderCoversOnce(c);
    if LastFailed(visits, Order(c)).Some? {
      LastFailedIsSeen(visits, Order(c));
    }
    if SawFailure(visits) {
      var i: nat :| i < |visits| && visits[i].Some? && visits[i].value.FailedVisit?;
      FailedIsSeen(visits, Order(c), i);
    }
  }

  lemma BuiltLeaseIff(c: Setup, now: Instant, starts: Starts, visits: Visits, kind: Kind, reason: Option<Id>)
    requires c.Arms() == |starts| == |visits| && !kind.Refused? && !kind.ReauthenticationRequired?
    requires Finished(c, Build(c, now, starts, visits, kind, reason)).Success?
    ensures WithinLeases(c.rs, Finished(c, Build(c, now, starts, visits, kind, reason)).value.base) <==>
            !((kind.Cancelled? || kind.FailedKind?) && LeaseExpired(c.rs, now))
  {
    hide Records, CoverageComplete, LeaseExpired, WithinLeases;
    var o := Build(c, now, starts, visits, kind, reason).value;
    LeaseRuleIff(c, o);
    PostureKeepsFailure(c, o);
  }

  lemma PostureKeepsFailure(c: Setup, o: PollOutcome)
    requires !o.base.kind.Refused? && !o.base.kind.ReauthenticationRequired?
    ensures var p := ApplyPosture(c, o).base;
            && p.completedAt == o.base.completedAt
            && (p.kind.Cancelled? || p.kind.FailedKind? <==> o.base.kind.Cancelled? || o.base.kind.FailedKind?)
  {
  }

  lemma AssembledLeaseIff(c: Setup, now: Instant, starts: Starts, visits: Visits)
    requires c.Arms() == |starts| == |visits| && Assemble(c, now, starts, visits).Success?
    ensures WithinLeases(c.rs, Assemble(c, now, starts, visits).value.base) <==>
            !(LeaseExpired(c.rs, now) && EndsInFailure(c, visits))
  {
    var (kind, reason) := DecideKind(c, now, visits);
    FailsIff(c, now, visits);
    DecidedKind(c, now, visits);
    hide DecideKind, Build, LeaseExpired, WithinLeases, EndsInFailure;
    BuiltLeaseIff(c, now, starts, visits, kind, reason);
  }

  lemma FilledFails(c: Setup, visits: Visits)
    requires |visits| == c.Arms()
    ensures EndsInFailure(c, Filled(visits)) <==> EndsInFailure(c, visits)
  {
    var filled := Filled(visits);
    assert forall i :: 0 <= i < |visits| ==> EventsIn(filled[i]) == EventsIn(visits[i]);
    assert forall i :: 0 <= i < |visits| ==> DirtyVisit(filled[i]) == DirtyVisit(visits[i]);
    assert forall i :: 0 <= i < |visits| ==> (visits[i] == Some(OverflowVisit) <==> filled[i] == Some(OverflowVisit));
  }

  lemma DeadlineLeaseIff(c: Setup, now: Instant, starts: Starts, visits: Visits)
    requires c.Arms() == |starts| == |visits| && AtDeadline(c, now, starts, visits).Success?
    ensures WithinLeases(c.rs, AtDeadline(c, now, starts, visits).value.base) <==>
            !(LeaseExpired(c.rs, now) && (!RequiredBinds(c, starts) || EndsInFailure(c, visits)))
  {
    hide Assemble, Build, LeaseExpired, WithinLeases, EndsInFailure;
    if RequiredBinds(c, starts) {
      FilledFails(c, visits);
      AssembledLeaseIff(c, now, starts, Filled(visits));
    } else {
      BuiltLeaseIff(c, now, starts, visits, FailedKind, Some("required_bind_pending"));
    }
  }

  /** The visits once what came in is recorded. */
  function VisitsAfter(c: Setup, s: Cycle, e: Happening): (r: Visits)
    requires Fitting(c, s)
    ensures |r| == c.Arms()
  {
    match e
    case ObserveReady(_, raced, polled, supplies) =>
      if |raced| == |polled| == |supplies| == c.Arms() then
        Recorded(c, s, Extended(HarvestOf(s.queues, raced, Pending(s)), HarvestOf(s.queues, polled, Pending(s))),
                 supplies).visits
      else s.visits
    case BindReady(_, binds, polled, supplies) =>
      if |binds| == |polled| == |supplies| == c.Arms() then
        var bound := s.(starts := WithBinds(s, binds));
        Recorded(c, bound, HarvestOf(s.queues, polled, Occupied(bound)), supplies).visits
      else s.visits
    case DeadlineWakes(_, polled, supplies) =>
      if |polled| == |supplies| == c.Arms() then
        Recorded(c, s, HarvestOf(s.queues, polled, Pending(s)), supplies).visits
      else s.visits
    case _ => s.visits
  }

  /** A cancellation after a lease, or an end after a lease with a required bind
      missing or with failing visits: posture is not applied to these, and the
      lease rule has no exception for them. */
  predicate LeaseSlips(c: Setup, s: Cycle, e: Happening)
    requires Fitting(c, s)
  {
    match e
    case Cancels(now) => LeaseExpired(c.rs, now)
    case DeadlineSeen(now) => LeaseExpired(c.rs, now) && (!RequiredBinds(c, s.starts) || EndsInFailure(c, s.visits))
    case DeadlineWakes(now, _, _) =>
      LeaseExpired(c.rs, now) && (!RequiredBinds(c, s.starts) || EndsInFailure(c, VisitsAfter(c, s, e)))
    case ObserveReady(now, _, _, _) => LeaseExpired(c.rs, now) && EndsInFailure(c, VisitsAfter(c, s, e))
    case BindReady(now, _, _, _) => LeaseExpired(c.rs, now) && EndsInFailure(c, VisitsAfter(c, s, e))
    case _ => false
  }

  /** The happening that ends a cycle with an outcome breaks the lease rule
      exactly when it slips a lease. */
  lemma EndingLeaseIff(c: Setup, s: Cycle, e: Happening)
    requires Fitting(c, s) && s.done.None?
    requires Next(c, s, e).done.Some? && Next(c, s, e).done.value.Success?
    ensures WithinLeases(c.rs, Next(c, s, e).done.value.value.base) <==> !LeaseSlips(c, s, e)
  {
    hide RestoreAdmitted, RestoreLeftover, Record, Assemble, AtDeadline, Build, HarvestOf, Extended, ObserveOver,
      BindsSome, StartsMismatch, WithBinds, Pending, Occupied, LeaseExpired, WithinLeases, EndsInFailure, RequiredBinds,
      Popped;
    match e
    case Cancels(now) => BuiltLeaseIff(c, now, s.starts, s.visits, Cancelled, Some("consumer_cancelled"));
    case DeadlineSeen(now) => DeadlineLeaseIff(c, now, s.starts, s.visits);
    case DeadlineWakes(now, polled, supplies) => DeadlineLeaseIff(c, now, s.starts, VisitsAfter(c, s, e));
    case ObserveReady(now, raced, polled, supplies) => AssembledLeaseIff(c, now, s.starts, VisitsAfter(c, s, e));
    case BindReady(now, binds, polled, supplies) =>
      AssembledLeaseIff(c, now, WithBinds(s, binds), VisitsAfter(c, s, e));
    case _ =>
  }

  // ----- Whole runs -----

  /** `o` was built from these visits, which hold the events the cycle admitted;
      unless the cycle was cut short, they are complete and decided the kind. */
  ghost predicate Explains(c: Setup, s: Cycle, o: PollOutcome, now: Instant, visits: Visits, kind: Kind,
                           reason: Option<Id>)
    requires Fitting(c, s)
  {
    && |visits| == c.Arms()
    && Build(c, now, s.starts, visits, kind, reason).Success?
    && o == ApplyPosture(c, Build(c, now, s.starts, visits, kind, reason).value)
    && (visits == s.visits || visits == Filled(s.visits))
    && (kind.Cancelled? || kind.FailedKind?
        || (Complete(c, s.starts, visits) && (kind, reason) == DecideKind(c, now, visits)))
  }

  predicate VisitsBound(s: Cycle)
    requires |s.visits| == |s.starts|
  {
    forall i :: 0 <= i < |s.visits| && s.visits[i].Some? ==>
      s.starts[i].Some? && (s.visits[i].value.Admitted? ==> s.visits[i].value.events != [])
  }

  ghost predicate Justified(c: Setup, s: Cycle)
    requires Fitting(c, s)
  {
    && VisitsBound(s)
    && (s.done.Some? && s.done.value.Success? ==>
          exists now, visits, kind, reason :: Explains(c, s, s.done.value.value, now, visits, kind, reason))
  }

  lemma {:induction false} RecordHasEvents(c: Setup, s: Collected, ready: Harvest, supplies: seq<Supply>,
                                           order: seq<nat>, j: nat)
    requires Matches(c, s) && |ready| == |supplies| == c.Arms() && Indices(order, c.Arms()) && j < c.Arms()
    requires s.visits[j].Some? && s.visits[j].value.Admitted? ==> s.visits[j].value.events != []
    ensures var r := RecordInOrder(c, s, ready, supplies, order);
            && (r.visits[j].Some? && r.visits[j].value.Admitted? ==> r.visits[j].value.events != [])
            && (r.visits[j].Some? ==> s.visits[j].Some? || ready[j].Some?)
    decreases |order|
  {
    hide Take, Drain, Exhausted;
    if order != [] && s.ok {
      var i := order[0];
      var next := if s.visits[i].None? && ready[i].Some? then RecordArm(c, s, i, ready[i].value, supplies[i]) else s;
      RecordHasEvents(c, next, ready, supplies, order[1..], j);
    }
  }

  lemma RecordedVisitsBound(c: Setup, s: Cycle, ready: Harvest, supplies: seq<Supply>)
    requires Fitting(c, s) && VisitsBound(s) && |ready| == |supplies| == c.Arms()
    requires forall j :: 0 <= j < c.Arms() && ready[j].Some? ==> s.starts[j].Some?
    ensures VisitsBound(Recorded(c, s, ready, supplies))
  {
    hide RecordInOrder, RestoreLeftover;
    var popped := Gathered(s).(queues := Popped(s.queues, ready));
    var mid := RecordInOrder(c, popped, ready, supplies, Order(c));
    LeftoverKeepsVisits(c, mid, ready, s.visits, 0);
    forall j | 0 <= j < c.Arms()
      ensures mid.visits[j].Some? ==>
                s.starts[j].Some? && (mid.visits[j].value.Admitted? ==> mid.visits[j].value.events != [])
    {
      RecordHasEvents(c, popped, ready, supplies, Order(c), j);
    }
  }

  lemma EmitAssembled(c: Setup, s: Cycle, now: Instant)
    requires Fitting(c, s) && VisitsBound(s) && AllVisited(s.visits)
    ensures Justified(c, Emit(c, s, Assemble(c, now, s.starts, s.visits)))
  {
    hide RestoreAdmitted, Build, DecideKind;
    var (kind, reason) := DecideKind(c, now, s.visits);
    var r := Emit(c, s, Assemble(c, now, s.starts, s.visits));
    if r.done.value.Success? {
      assert Explains(c, r, r.done.value.value, now, s.visits, kind, reason);
    }
  }

  /** Filling at the deadline keeps every visit there is; an arm that was not reached
      is deferred exactly when some arm has events to report, else idle. */
  lemma FilledKeepsEvents(c: Setup, starts: Starts, visits: Visits)
    requires |starts| == |visits| == c.Arms() && RequiredBinds(c, starts)
    requires forall i :: 0 <= i < |visits| && visits[i].Some? ==>
               starts[i].Some? && (visits[i].value.Admitted? ==> visits[i].value.events != [])
    ensures Complete(c, starts, Filled(visits))
    ensures forall i :: 0 <= i < |visits| ==>
              && EventsIn(Filled(visits)[i]) == EventsIn(visits[i])
              && (visits[i].Some? ==> Filled(visits)[i] == visits[i])
              && (visits[i].None? ==>
                    Filled(visits)[i] ==
                    Some(if exists j :: 0 <= j < |visits| && EventsIn(visits[j]) != [] then DeferredVisit
                         else IdleVisit))
  {
  }

  lemma EmitAtDeadline(c: Setup, s: Cycle, now: Instant)
    requires Fitting(c, s) && VisitsBound(s)
    ensures Justified(c, Emit(c, s, AtDeadline(c, now, s.starts, s.visits)))
  {
    hide RestoreAdmitted, Build, DecideKind;
    var r := Emit(c, s, AtDeadline(c, now, s.starts, s.visits));
    if r.done.value.Success? {
      if RequiredBinds(c, s.starts) {
        FilledKeepsEvents(c, s.starts, s.visits);
        var (kind, reason) := DecideKind(c, now, Filled(s.visits));
        assert Explains(c, r, r.done.value.value, now, Filled(s.visits), kind, reason);
      } else {
        assert Explains(c, r, r.done.value.value, now, s.visits, FailedKind, Some("required_bind_pending"));
      }
    }
  }

  lemma EmitCancelled(c: Setup, s: Cycle, now: Instant)
    requires Fitting(c, s) && VisitsBound(s)
    ensures Justified(c,
                      Emit(c, s, Finished(c, Build(c, now, s.starts, s.visits, Cancelled, Some("consumer_cancelled")))))
  {
    hide RestoreAdmitted, Build;
    var r := Emit(c, s, Finished(c, Build(c, now, s.starts, s.visits, Cancelled, Some("consumer_cancelled"))));
    if r.done.value.Success? {
      assert Explains(c, r, r.done.value.value, now, s.visits, Cancelled, Some("consumer_cancelled"));
    }
  }

  lemma ArrivalJustified(c: Setup, s: Cycle, e: Happening)
    requires Fitting(c, s) && Justified(c, s) && (e.Arrives? || s.done.Some?)
    ensures Justified(c, Next(c, s, e))
  {
    hide Build, DecideKind;
    var r := Next(c, s, e);
    assert r.visits == s.visits && r.starts == s.starts && r.done == s.done;
    if s.done.Some? && s.done.value.Success? {
      var now, visits, kind, reason :| Explains(c, s, s.done.value.value, now, visits, kind, reason);
      assert Explains(c, r, s.done.value.value, now, visits, kind, reason);
    }
  }

  lemma HarvestJustified(c: Setup, s: Cycle, ready: Harvest, supplies: seq<Supply>, now: Instant)
    requires Fitting(c, s) && VisitsBound(s) && s.done.None? && |ready| == |supplies| == c.Arms()
    requires forall j :: 0 <= j < c.Arms() && ready[j].Some? ==> s.starts[j].Some?
    ensures Justified(c, Recorded(c, s, ready, supplies))
    ensures Justified(c, IfComplete(c, Recorded(c, s, ready, supplies), now))
  {
    hide Record, Emit, Assemble, Explains, VisitsBound;
    RecordedVisitsBound(c, s, ready, supplies);
    var r := Recorded(c, s, ready, supplies);
    if r.done.None? && AllVisited(r.visits) {
      EmitAssembled(c, r, now);
    }
  }

  lemma NextJustified(c: Setup, s: Cycle, e: Happening)
    requires Fitting(c, s) && Justified(c, s) && s.done.None? && !e.Arrives?
    ensures Justified(c, Next(c, s, e))
  {
    hide RestoreAdmitted, RestoreLeftover, Recorded, IfComplete, AtDeadline, Build, HarvestOf, Extended, ObserveOver,
      BindsSome, StartsMismatch, Explains;
    match e
    case Cancels(now) => EmitCancelled(c, s, now);
    case DeadlineSeen(now) => EmitAtDeadline(c, s, now);
    case ObserveReady(now, raced, polled, supplies) =>
      if |raced| == |polled| == |supplies| == c.Arms() {
        PendingIsBound(s, raced, polled);
        HarvestJustified(c, s,
                         Extended(HarvestOf(s.queues, raced, Pending(s)), HarvestOf(s.queues, polled, Pending(s))),
                         supplies, now);
      }
    case BindReady(now, binds, polled, supplies) =>
      if |binds| == |polled| == |supplies| == c.Arms() {
        var bound := s.(starts := WithBinds(s, binds));
        OccupiedIsBound(bound, polled);
        HarvestJustified(c, bound, HarvestOf(s.queues, polled, Occupied(bound)), supplies, now);
      }
    case DeadlineWakes(now, polled, supplies) =>
      if |polled| == |supplies| == c.Arms() {
        PendingIsBound(s, polled, polled);
        HarvestJustified(c, s, HarvestOf(s.queues, polled, Pending(s)), supplies, now);
        var r := Recorded(c, s, HarvestOf(s.queues, polled, Pending(s)), supplies);
        if r.done.None? {
          EmitAtDeadline(c, r, now);
        }
      }
    case _ =>
  }

  lemma OccupiedIsBound(s: Cycle, polled: seq<Option<Answer>>)
    requires |s.queues| == |s.starts| == |polled|
    ensures forall j :: 0 <= j < |s.starts| && HarvestOf(s.queues, polled, Occupied(s))[j].Some? ==> s.starts[j].Some?
  {
  }

  lemma {:induction false} RunJustified(c: Setup, s: Cycle, events: seq<Happening>)
    requires Fitting(c, s) && Justified(c, s)
    ensures Justified(c, RunCycle(c, s, events))
    decreases |events|
  {
    hide Next, Justified;
    if events != [] {
      if events[0].Arrives? || s.done.Some? {
        ArrivalJustified(c, s, events[0]);
      } else {
        NextJustified(c, s, events[0]);
      }
      RunJustified(c, Next(c, s, events[0]), events[1..]);
    }
  }

  lemma {:induction false} SameEventsAdmitted(a: Visits, b: Visits)
    requires |a| == |b| && forall i :: 0 <= i < |a| ==> EventsIn(a[i]) == EventsIn(b[i])
    ensures AllAdmitted(a) == AllAdmitted(b)
  {
    if a != [] {
      SameEventsAdmitted(a[..|a| - 1], b[..|b| - 1]);
    }
  }

  /** A finished run has one happening that finished it. */
  lemma {:induction false} EndsOnce(c: Setup, s: Cycle, events: seq<Happening>) returns (k: nat)
    requires Fitting(c, s) && s.done.None? && RunCycle(c, s, events).done.Some?
    ensures k < |events| && RunCycle(c, s, events[..k]).done.None?
    ensures Next(c, RunCycle(c, s, events[..k]), events[k]).done == RunCycle(c, s, events).done
    decreases |events|
  {
    hide Next;
    var next := Next(c, s, events[0]);
    if next.done.Some? {
      k := 0;
      assert events[..0] == [];
      DoneForGood(c, next, events[1..]);
    } else {
      var l := EndsOnce(c, next, events[1..]);
      k := l + 1;
      assert events[..k][0] == events[0] && events[..k][1..] == events[1..][..l];
    }
  }

  lemma {:induction false} DoneForGood(c: Setup, s: Cycle, events: seq<Happening>)
    requires Fitting(c, s) && s.done.Some?
    ensures var r := RunCycle(c, s, events); r.done == s.done && r.visits == s.visits && r.starts == s.starts
    decreases |events|
  {
    hide Next;
    if events != [] {
      DoneKeeps(c, s, events[0]);
      DoneForGood(c, Next(c, s, events[0]), events[1..]);
    }
  }

  lemma DoneKeeps(c: Setup, s: Cycle, e: Happening)
    requires Fitting(c, s) && s.done.Some?
    ensures var r := Next(c, s, e); r.done == s.done && r.visits == s.visits && r.starts == s.starts
  {
  }

  /** The state in which a finished run met what ended it, and that. */
  function EndOf(c: Setup, s: Cycle, events: seq<Happening>): (r: (Cycle, Happening))
    requires Fitting(c, s) && s.done.None? && RunCycle(c, s, events).done.Some?
    ensures Fitting(c, r.0)
    decreases |events|
  {
    var next := Next(c, s, events[0]);
    if next.done.Some? then (s, events[0]) else EndOf(c, next, events[1..])
  }

  lemma {:induction false} EndOfEnds(c: Setup, s: Cycle, events: seq<Happening>)
    requires Fitting(c, s) && s.done.None? && RunCycle(c, s, events).done.Some?
    ensures var (t, e) := EndOf(c, s, events);
            var r, last := RunCycle(c, s, events), Next(c, t, e);
            t.done.None? && last.done == r.done && last.visits == r.visits && last.starts == r.starts
    decreases |events|
  {
    hide Next;
    var next := Next(c, s, events[0]);
    if next.done.Some? {
      DoneForGood(c, next, events[1..]);
    } else {
      EndOfEnds(c, next, events[1..]);
    }
  }

  // ----- When posture rewrites a report -----

  predicate PostureBars(c: Setup, now: Instant) {
    LeaseExpired(c.rs, now) || (c.rs.authnRequired && !c.request.hasReceipt)
  }

  /** Posture rewrites an outcome of this kind. */
  predicate Rewrites(c: Setup, now: Instant, kind: Kind) {
    !Unsuccessful(kind) && PostureBars(c, now)
  }

  /** The happening that ends the cycle lets posture rewrite what was decided. */
  predicate Rewritten(c: Setup, s: Cycle, e: Happening)
    requires Fitting(c, s)
  {
    match e
    case DeadlineSeen(now) => PostureBars(c, now) && RequiredBinds(c, s.starts)
    case DeadlineWakes(now, _, _) => PostureBars(c, now) && RequiredBinds(c, s.starts)
    case ObserveReady(now, _, _, _) => PostureBars(c, now)
    case BindReady(now, _, _, _) => PostureBars(c, now)
    case _ => false
  }

  /** The rows of the decision table that report events. */
  predicate Reporting(c: Setup, visits: Visits)
    requires |visits| == c.Arms()
  {
    SawEvents(visits) && (SawOverflow(visits) || (!RequiredDirty(c, visits) && !SawFailure(visits)))
  }

  lemma ReportsIff(c: Setup, now: Instant, visits: Visits)
    requires |visits| == c.Arms()
    ensures Reports(DecideKind(c, now, visits).0) && SawEvents(visits) <==> Reporting(c, visits)
  {
    hide SawEvents, SawOverflow, RequiredDirty, RequiredDeferred, Truncated, LastFailed, Order;
    OrderCoversOnce(c);
    if LastFailed(visits, Order(c)).Some? {
      LastFailedIsSeen(visits, Order(c));
    }
    if SawFailure(visits) {
      var i: nat :| i < |visits| && visits[i].Some? && visits[i].value.FailedVisit?;
      FailedIsSeen(visits, Order(c), i);
    }
  }

  lemma FilledReports(c: Setup, visits: Visits)
    requires |visits| == c.Arms()
    ensures Reporting(c, Filled(visits)) <==> Reporting(c, visits)
    ensures SawEvents(Filled(visits)) <==> SawEvents(visits)
  {
    var filled := Filled(visits);
    assert forall i :: 0 <= i < |visits| ==> EventsIn(filled[i]) == EventsIn(visits[i]);
    assert forall i :: 0 <= i < |visits| ==> DirtyVisit(filled[i]) == DirtyVisit(visits[i]);
    assert forall i :: 0 <= i < |visits| ==> (visits[i] == Some(OverflowVisit) <==> filled[i] == Some(OverflowVisit));
  }

  /** Decided from these visits, a report is rewritten exactly when posture bars. */
  lemma DecidedRewritesIff(c: Setup, now: Instant, visits: Visits)
    requires |visits| == c.Arms()
    ensures var kind := DecideKind(c, now, visits).0;
            Rewrites(c, now, kind) && Reports(kind) && SawEvents(visits) <==>
              PostureBars(c, now) && Reporting(c, visits)
  {
    hide DecideKind, PostureBars, Reporting, SawEvents;
    ReportsIff(c, now, visits);
  }

  /** What the happening that ends a cycle builds, and when that is a rewritten report. */
  lemma EndingBuilds(c: Setup, s: Cycle, e: Happening)
    returns (now: Instant, visits: Visits, kind: Kind, reason: Option<Id>)
    requires Fitting(c, s) && s.done.None?
    requires Next(c, s, e).done.Some? && Next(c, s, e).done.value.Success?
    ensures var r := Next(c, s, e);
            && |visits| == c.Arms() && (visits == r.visits || visits == Filled(r.visits))
            && Build(c, now, r.starts, visits, kind, reason).Success?
            && r.done.value.value == ApplyPosture(c, Build(c, now, r.starts, visits, kind, reason).value)
            && (Rewrites(c, now, kind) && Reports(kind) && SawEvents(r.visits) <==>
                  Rewritten(c, s, e) && Reporting(c, r.visits))
  {
    hide RestoreAdmitted, RestoreLeftover, Record, DecideKind, Build, HarvestOf, Extended, ObserveOver, BindsSome,
      StartsMismatch, WithBinds, Pending, Occupied, PostureBars, Reporting, SawEvents, RequiredBinds, Popped,
      ApplyPosture, Filled;
    var r := Next(c, s, e);
    visits := r.visits;
    match e
    case Cancels(at) => now, kind, reason := at, Cancelled, Some("consumer_cancelled");
    case DeadlineSeen(at) =>
      now := at;
      visits, kind, reason := AtDeadlineBuilds(c, at, r);
    case DeadlineWakes(at, _, _) =>
      now := at;
      visits, kind, reason := AtDeadlineBuilds(c, at, r);
    case ObserveReady(at, _, _, _) =>
      now, kind, reason := at, DecideKind(c, at, visits).0, DecideKind(c, at, visits).1;
      DecidedRewritesIff(c, at, visits);
    case BindReady(at, _, _, _) =>
      now, kind, reason := at, DecideKind(c, at, visits).0, DecideKind(c, at, visits).1;
      DecidedRewritesIff(c, at, visits);
    case _ =>
  }

  lemma AtDeadlineBuilds(c: Setup, now: Instant, r: Cycle) returns (visits: Visits, kind: Kind, reason: Option<Id>)
    requires Fitting(c, r) && AtDeadline(c, now, r.starts, r.visits).Success?
    ensures |visits| == c.Arms() && (visits == r.visits || visits == Filled(r.visits))
    ensures Build(c, now, r.starts, visits, kind, reason).Success?
    ensures AtDeadline(c, now, r.starts, r.visits).value ==
              ApplyPosture(c, Build(c, now, r.starts, visits, kind, reason).value)
    ensures Rewrites(c, now, kind) && Reports(kind) && SawEvents(r.visits) <==>
            PostureBars(c, now) && RequiredBinds(c, r.starts) && Reporting(c, r.visits)
  {
    FilledReports(c, r.visits);
    hide Build, DecideKind, PostureBars, Reporting, SawEvents, RequiredBinds, ApplyPosture;
    if RequiredBinds(c, r.starts) {
      visits := Filled(r.visits);
      kind, reason := DecideKind(c, now, visits).0, DecideKind(c, now, visits).1;
      DecidedRewritesIff(c, now, visits);
    } else {
      visits, kind, reason := r.visits, FailedKind, Some("required_bind_pending");
    }
  }

  // ----- Admission over runs -----

  /** Every outcome any run hands out passes the coverage, bounds and
      authentication rules; and the normative rule exactly when, being quiet, a
      registration is required and every requested arm id is carried. */
  lemma CycleMeetsRules(c: Setup, queues: seq<seq<Event>>, events: seq<Happening>)
    requires |queues| == c.Arms() && DistinctIds(c.Regs())
    requires var r := RunCycle(c, Begin(c, queues), events); r.done.Some? && r.done.value.Success?
    ensures var r := RunCycle(c, Begin(c, queues), events);
            var o := r.done.value.value.base;
            && CoversRequired(c.request.requiredArms, o)
            && WithinBounds(c.rs, o)
            && Authenticated(c.rs, c.request.hasReceipt, o)
            && (Normative(o) <==> (IsQuiet(o.kind) ==> HasRequired(c.rs) && Carried(c, r.starts, r.visits)))
            && (ArmsFit(c) && HasRequired(c.rs) ==> Normative(o))
  {
    hide RunCycle, Build, DecideKind, CoversRequired, WithinBounds, Authenticated, ArmsFit, HasRequired, Normative,
      LeaseExpired, WithinBudget, Complete, WithinCaps, Tallies, AllAdmitted, ApplyPosture, Carried, DistinctIds,
      IsQuiet;
    var start := Begin(c, queues);
    BeginInBudget(c, queues);
    RunInBudget(c, start, events);
    BeginJustified(c, queues);
    RunJustified(c, start, events);
    var r := RunCycle(c, start, events);
    var now, visits, kind, reason :| Explains(c, r, r.done.value.value, now, visits, kind, reason);
    ExplainedMeetsRules(c, r, r.done.value.value, now, visits, kind, reason);
  }

  /** The outcome of a run meets the lease rule exactly when the happening that
      ended the cycle, at the state it met, slips no lease. */
  lemma CycleLeaseIff(c: Setup, queues: seq<seq<Event>>, events: seq<Happening>) returns (k: nat)
    requires |queues| == c.Arms()
    requires var r := RunCycle(c, Begin(c, queues), events); r.done.Some? && r.done.value.Success?
    ensures k < |events|
    ensures var s := RunCycle(c, Begin(c, queues), events[..k]);
            var r := RunCycle(c, Begin(c, queues), events);
            && s.done.None? && Next(c, s, events[k]).done == r.done
            && (WithinLeases(c.rs, r.done.value.value.base) <==> !LeaseSlips(c, s, events[k]))
  {
    hide RunCycle, Next, WithinLeases, LeaseSlips;
    k := EndsOnce(c, Begin(c, queues), events);
    EndingLeaseIff(c, RunCycle(c, Begin(c, queues), events[..k]), events[k]);
  }

  lemma BeginJustified(c: Setup, queues: seq<seq<Event>>)
    requires |queues| == c.Arms()
    ensures Justified(c, Begin(c, queues))
  {
  }

  lemma ExplainedMeetsRules(c: Setup, s: Cycle, o: PollOutcome, now: Instant, visits: Visits, kind: Kind,
                            reason: Option<Id>)
    requires Fitting(c, s) && VisitsBound(s) && WithinBudget(c, s.budget, s.visits) && DistinctIds(c.Regs())
    requires Explains(c, s, o, now, visits, kind, reason)
    ensures CoversRequired(c.request.requiredArms, o.base)
    ensures WithinBounds(c.rs, o.base)
    ensures Authenticated(c.rs, c.request.hasReceipt, o.base)
    ensures Normative(o.base) <==> (IsQuiet(o.base.kind) ==> HasRequired(c.rs) && Carried(c, s.starts, s.visits))
    ensures ArmsFit(c) && HasRequired(c.rs) ==> Normative(o.base)
  {
    assert |visits| == |s.visits| == |s.starts| == c.Arms() && WithinCaps(c.Limits(), AllAdmitted(s.visits));
    assert o == ApplyPosture(c, Build(c, now, s.starts, visits, kind, reason).value);
    FinishedIsPosture(c, Build(c, now, s.starts, visits, kind, reason));
    assert !kind.Cancelled? && !kind.FailedKind? ==>
        Complete(c, s.starts, visits)
        && Assemble(c, now, s.starts, visits) == Finished(c, Build(c, now, s.starts, visits, kind, reason));
    ExplainedKind(c, s, o, now, visits, kind, reason);
    SameEvents(c, s, visits);
    hide *;
    SameEventsAdmitted(visits, s.visits);
    var built := Build(c, now, s.starts, visits, kind, reason).value;
    BuiltKind(c, now, s.starts, visits, kind, reason);
    CoverageClaimIsTrue(c, now, s.starts, visits, kind, reason);
    EventsBound(c, s, visits);
    ReportedWithinBounds(c, now, s.starts, visits, kind, reason);
    PostureAuthenticates(c, built);
    PostureKindNormative(c, built);
    LoudStaysLoud(c, built);
    if !kind.Cancelled? && !kind.FailedKind? {
      AssembledNormativeIff(c, now, s.starts, visits);
      if ArmsFit(c) && IsQuiet(o.base.kind) {
        AssembledQuiet(c, now, s.starts, visits);
        FittingArmsCarried(c, now, s.starts, visits);
      }
    }
  }

  lemma SameEvents(c: Setup, s: Cycle, visits: Visits)
    requires Fitting(c, s) && (visits == s.visits || visits == Filled(s.visits))
    ensures |visits| == c.Arms() && forall i :: 0 <= i < c.Arms() ==> EventsIn(visits[i]) == EventsIn(s.visits[i])
    ensures Carried(c, s.starts, visits) <==> Carried(c, s.starts, s.visits)
  {
    hide ArmId, HonestStart;
    assert forall i :: 0 <= i < c.Arms() ==> DirtyVisit(visits[i]) == DirtyVisit(s.visits[i]);
    forall id ensures CarriedBy(c, s.starts, visits, id) <==> CarriedBy(c, s.starts, s.visits, id) {
    }
  }

  lemma LoudStaysLoud(c: Setup, o: PollOutcome)
    ensures IsQuiet(ApplyPosture(c, o).base.kind) ==> ApplyPosture(c, o) == o
    ensures o.base.kind.Cancelled? || o.base.kind.FailedKind? ==>
              !IsQuiet(ApplyPosture(c, o).base.kind) && Normative(ApplyPosture(c, o).base)
  {
  }

  lemma AssembledQuiet(c: Setup, now: Instant, starts: Starts, visits: Visits)
    requires c.Arms() == |starts| == |visits| && Assemble(c, now, starts, visits).Success?
    requires IsQuiet(Assemble(c, now, starts, visits).value.base.kind)
    ensures IsQuiet(DecideKind(c, now, visits).0)
    ensures DecideKind(c, now, visits).0.NoChange? || DecideKind(c, now, visits).0.LogicalDeadman?
  {
    hide DecideKind, Records, CoverageComplete, LeaseExpired;
  }

  lemma FinishedIsPosture(c: Setup, r: Result<PollOutcome, CycleError>)
    requires r.Success?
    ensures Finished(c, r) == Success(ApplyPosture(c, r.value))
  {
  }

  lemma ExplainedKind(c: Setup, s: Cycle, o: PollOutcome, now: Instant, visits: Visits, kind: Kind, reason: Option<Id>)
    requires Fitting(c, s) && Explains(c, s, o, now, visits, kind, reason)
    ensures !kind.Refused? && !kind.ReauthenticationRequired?
  {
    DecidedKind(c, now, visits);
    hide DecideKind, Build, Complete;
  }

  lemma EventsBound(c: Setup, s: Cycle, visits: Visits)
    requires Fitting(c, s) && VisitsBound(s) && |visits| == c.Arms()
    requires forall i :: 0 <= i < c.Arms() ==> EventsIn(visits[i]) == EventsIn(s.visits[i])
    ensures forall i :: 0 <= i < |visits| && EventsIn(visits[i]) != [] ==> s.starts[i].Some?
  {
  }

  lemma DecidedKind(c: Setup, now: Instant, visits: Visits)
    requires |visits| == c.Arms()
    ensures var kind := DecideKind(c, now, visits).0;
            !kind.Refused? && !kind.ReauthenticationRequired? && !kind.Cancelled?
  {
  }

  lemma BuiltKind(c: Setup, now: Instant, starts: Starts, visits: Visits, kind: Kind, reason: Option<Id>)
    requires c.Arms() == |starts| == |visits| && Build(c, now, starts, visits, kind, reason).Success?
    ensures Build(c, now, starts, visits, kind, reason).value.base.kind == kind
  {
    hide Records, CoverageComplete;
  }
}
