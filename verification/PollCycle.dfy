/** One poll cycle of `poll_cycle.rs`, step by step: bind and observe side by
    side, drain under a budget in fairness order, decide, give everything back. */
module PollCycle {
  import opened Wrappers
  import opened Seam
  import opened Messages
  import opened PollBudget

  datatype CycleRequest = CycleRequest(
    logicalDeadline: Instant,
    runDeadline: Instant,
    requiredArms: seq<Id>,
    fairnessCursor: Id,
    acknowledged: map<Id, Id>,
    hasReceipt: bool,
    bound: Bound)

  datatype Setup = Setup(rs: RegistrationSet, request: CycleRequest, accepts: (nat, Event) -> bool) {
    function Regs(): seq<Registration> {
      rs.registrations
    }

    function Arms(): nat {
      |rs.registrations|
    }

    function Limits(): Caps {
      CapsOf(rs, request.bound)
    }
  }

  datatype Visit =
    | Admitted(events: seq<Event>, saturated: bool)
    | IdleVisit
    | OverflowVisit
    | FailedVisit(reason: Id)
    | OutageVisit(reason: Id)
    | UncertainVisit(reason: Id)
    | DegradedVisit(reason: Id)
    | DeferredVisit

  type Visits = seq<Option<Visit>>

  datatype CycleError = Arm | BindStartMismatch | Restoring | UnresolvedStart

  datatype PollOutcome = PollOutcome(
    base: Outcome,
    retainedThrough: map<Id, Id>,
    retainedEvents: map<Id, seq<Id>>,
    nextCursor: Id)

  // ----- Arm ids and the fairness cursor -----

  predicate StartsWith(s: string, prefix: string) {
    prefix <= s
  }

  /** `derived_arm_id`: the registration id with `reg:` replaced. */
  function DerivedArmId(reg: Registration): Id {
    "arm:" + if StartsWith(reg.id, "reg:") then reg.id[4..] else reg.id
  }

  function RequiredBefore(regs: seq<Registration>, i: nat): (k: nat)
    requires i <= |regs|
    ensures k <= i
  {
    if i == 0 then 0 else RequiredBefore(regs, i - 1) + if regs[i - 1].required then 1 else 0
  }

  /** The `k`-th required registration takes the `k`-th requested arm id. */
  function ArmId(c: Setup, i: nat): Id
    requires i < c.Arms()
  {
    var k := RequiredBefore(c.Regs(), i);
    if c.Regs()[i].required && k < |c.request.requiredArms| then c.request.requiredArms[k]
    else DerivedArmId(c.Regs()[i])
  }

  /** The cursors that name arm `i`. */
  function Labels(c: Setup, i: nat): set<Id>
    requires i < c.Arms()
  {
    {ArmId(c, i), "fair:" + ArmId(c, i), c.Regs()[i].id, "fair:" + c.Regs()[i].id}
  }

  function FirstLabelled(c: Setup, cursor: Id, i: nat): (r: Option<nat>)
    requires i <= c.Arms()
    ensures r.Some? ==> i <= r.value < c.Arms() && cursor in Labels(c, r.value)
    ensures r.None? ==> forall j :: i <= j < c.Arms() ==> cursor !in Labels(c, j)
    decreases c.Arms() - i
  {
    if i == c.Arms() then None else if cursor in Labels(c, i) then Some(i) else FirstLabelled(c, cursor, i + 1)
  }

  /** `fairness_start_index` for a given cursor. */
  function StartIndex(c: Setup, cursor: Id): (s: nat)
    ensures c.Arms() > 0 ==> s < c.Arms()
  {
    if cursor == "fair:start" then 0
    else
      match FirstLabelled(c, cursor, 0)
      case None => 0
      case Some(i) => i
  }

  predicate Indices(order: seq<nat>, n: nat) {
    forall k :: 0 <= k < |order| ==> order[k] < n
  }

  /** `fairness_order`: all arms, from the start index on, around. */
  function Order(c: Setup): (order: seq<nat>)
    ensures |order| == c.Arms()
    ensures forall k :: 0 <= k < c.Arms() ==> order[k] == (StartIndex(c, c.request.fairnessCursor) + k) % c.Arms()
    ensures Indices(order, c.Arms())
  {
    var n := c.Arms();
    if n == 0 then []
    else seq(n, k requires 0 <= k < n => (StartIndex(c, c.request.fairnessCursor) + k) % n)
  }

  function NextCursor(c: Setup): Id {
    if c.Arms() == 0 then c.request.fairnessCursor
    else
      var armId := ArmId(c, (StartIndex(c, c.request.fairnessCursor) + 1) % c.Arms());
      if StartsWith(armId, "fair:") then armId else "fair:" + armId
  }

  // ----- Draining one arm -----

  /** How an arm answers when it is polled again and again: its next `due`
      events, then `tail`. */
  datatype Supply = Supply(due: nat, tail: Option<Observation>)

  datatype Drained = Drained(budget: Budget, taken: seq<Event>, queue: seq<Event>, truncated: bool, ok: bool)

  function Drain(c: Setup, i: nat, id: Id, b: Budget, queue: seq<Event>, supply: Supply): Drained
    decreases |queue|
  {
    if !RoomFor(c.Limits(), b, id) then Drained(b, [], queue, true, true)
    else if supply.due == 0 || queue == [] then Drained(b, [], queue, supply.tail == Some(Overflow), true)
    else
      match Take(c.Limits(), b, queue[0])
      case None =>
        if c.accepts(i, queue[0]) then Drained(b, [], queue, true, true) else Drained(b, [], queue[1..], true, false)
      case Some(charged) =>
        var rest := Drain(c, i, id, charged, queue[1..], supply.(due := supply.due - 1));
        rest.(taken := [queue[0]] + rest.taken)
  }

  /** `ok` is false once an event was refused back: the cycle stops there. */
  datatype Collected = Collected(queues: seq<seq<Event>>, visits: Visits, budget: Budget, ok: bool)

  predicate Matches(c: Setup, s: Collected) {
    |s.queues| == |s.visits| == c.Arms()
  }

  function PushBack(c: Setup, s: Collected, i: nat, e: Event): (r: Collected)
    requires Matches(c, s) && i < c.Arms()
    ensures Matches(c, r)
  {
    if c.accepts(i, e) then s.(queues := s.queues[i := [e] + s.queues[i]]) else s.(ok := false)
  }

  function VisitOf(obs: Observation): Visit
    requires !obs.Observed?
  {
    match obs
    case Idle => IdleVisit
    case Overflow => OverflowVisit
    case Failed(reason) => FailedVisit(reason)
    case Outage(reason) => OutageVisit(reason)
    case CursorUncertain(reason) => UncertainVisit(reason)
    case Degraded(reason) => DegradedVisit(reason)
  }

  function Defer(c: Setup, s: Collected, i: nat, e: Event): (r: Collected)
    requires Matches(c, s) && i < c.Arms()
    ensures Matches(c, r)
  {
    var r := PushBack(c, s, i, e);
    if r.ok then r.(visits := r.visits[i := Some(DeferredVisit)]) else r
  }

  /** Visit arm `i` with what the harvest took from it. */
  function RecordArm(c: Setup, s: Collected, i: nat, obs: Observation, supply: Supply): (r: Collected)
    requires Matches(c, s) && i < c.Arms()
    ensures Matches(c, r)
  {
    match obs
    case Observed(e) =>
      if Exhausted(c.Limits(), s.budget) then Defer(c, s, i, e)
      else
        (match Take(c.Limits(), s.budget, e)
         case None => Defer(c, s, i, e)
         case Some(charged) =>
           var d := Drain(c, i, c.Regs()[i].id, charged, s.queues[i], supply);
           if d.ok then
             Collected(s.queues[i := d.queue], s.visits[i := Some(Admitted([e] + d.taken, d.truncated))],
                       d.budget, true)
           else Collected(s.queues[i := d.queue], s.visits, d.budget, false))
    case _ => s.(visits := s.visits[i := Some(VisitOf(obs))])
  }

  type Harvest = seq<Option<Observation>>

  function RecordInOrder(c: Setup, s: Collected, ready: Harvest, supplies: seq<Supply>, order: seq<nat>): (r: Collected)
    requires Matches(c, s) && |ready| == |supplies| == c.Arms() && Indices(order, c.Arms())
    ensures Matches(c, r)
    decreases |order|
  {
    if order == [] || !s.ok then s
    else
      var i := order[0];
      RecordInOrder(c,
                    if s.visits[i].None? && ready[i].Some? then RecordArm(c, s, i, ready[i].value, supplies[i]) else s,
                    ready, supplies, order[1..])
  }

  /** Events of arms that had been visited before go back. */
  function RestoreLeftover(c: Setup, s: Collected, ready: Harvest, visited: Visits, i: nat): (r: Collected)
    requires Matches(c, s) && |ready| == |visited| == c.Arms()
    ensures Matches(c, r)
    decreases c.Arms() - i
  {
    if i >= c.Arms() || !s.ok then s
    else
      RestoreLeftover(c,
                      if visited[i].Some? && ready[i].Some? && ready[i].value.Observed? then
                        PushBack(c, s, i, ready[i].value.event)
                      else s,
                      ready, visited, i + 1)
  }

  /** The arms in `wanted` that have something, and what that is. */
  function HarvestOf(queues: seq<seq<Event>>, answers: seq<Option<Answer>>, wanted: seq<bool>): (r: Harvest)
    requires |queues| == |answers| == |wanted|
    ensures |r| == |queues|
  {
    seq(|queues|, i requires 0 <= i < |queues| => if wanted[i] then ObservationAt(queues, answers, i) else None)
  }

  /** The race's values, and what polling adds for the arms it left out. */
  function Extended(first: Harvest, more: Harvest): (r: Harvest)
    requires |first| == |more|
    ensures |r| == |first|
  {
    seq(|first|, i requires 0 <= i < |first| => if first[i].Some? then first[i] else more[i])
  }

  function Popped(queues: seq<seq<Event>>, ready: Harvest): (r: seq<seq<Event>>)
    requires |queues| == |ready|
    ensures |r| == |queues|
  {
    seq(|queues|, i requires 0 <= i < |queues| =>
      if ready[i].Some? && ready[i].value.Observed? && queues[i] != [] then queues[i][1..] else queues[i])
  }

  /** `record_ready` on a harvest that was taken out of `s.queues`. */
  function Record(c: Setup, s: Collected, ready: Harvest, supplies: seq<Supply>): (r: Collected)
    requires Matches(c, s) && |ready| == |supplies| == c.Arms()
    ensures Matches(c, r)
  {
    RestoreLeftover(c, RecordInOrder(c, s.(queues := Popped(s.queues, ready)), ready, supplies, Order(c)), ready,
                    s.visits, 0)
  }

  // ----- Outcomes -----

  type Starts = seq<Option<Id>>

  predicate AllVisited(visits: Visits) {
    forall i :: 0 <= i < |visits| ==> visits[i].Some?
  }

  function EventsIn(v: Option<Visit>): seq<Event> {
    if v.Some? && v.value.Admitted? then v.value.events else []
  }

  predicate SawEvents(visits: Visits) {
    exists i :: 0 <= i < |visits| && EventsIn(visits[i]) != []
  }

  predicate SawOverflow(visits: Visits) {
    exists i :: 0 <= i < |visits| && visits[i] == Some(OverflowVisit)
  }

  predicate Truncated(visits: Visits) {
    exists i :: 0 <= i < |visits| && visits[i].Some? && visits[i].value.Admitted? && visits[i].value.saturated
  }

  predicate DirtyVisit(v: Option<Visit>) {
    v.Some? && (v.value.OutageVisit? || v.value.UncertainVisit? || v.value.DegradedVisit?)
  }

  predicate RequiredDirty(c: Setup, visits: Visits)
    requires |visits| == c.Arms()
  {
    exists i :: 0 <= i < |visits| && c.Regs()[i].required && DirtyVisit(visits[i])
  }

  predicate RequiredDeferred(c: Setup, visits: Visits)
    requires |visits| == c.Arms()
  {
    exists i :: 0 <= i < |visits| && c.Regs()[i].required && visits[i] == Some(DeferredVisit)
  }

  /** The reason of the last failed arm in fairness order. */
  function LastFailed(visits: Visits, order: seq<nat>): Option<Id>
    requires Indices(order, |visits|)
  {
    if order == [] then None
    else
      var v := visits[order[|order| - 1]];
      if v.Some? && v.value.FailedVisit? then Some(v.value.reason) else LastFailed(visits, order[..|order| - 1])
  }

  /** The decision table. */
  function DecideKind(c: Setup, now: Instant, visits: Visits): (Kind, Option<Id>)
    requires |visits| == c.Arms()
  {
    var failed := LastFailed(visits, Order(c));
    var atLogical := now >= c.request.logicalDeadline;
    if SawOverflow(visits) then if SawEvents(visits) then (Partial, None) else (FailedKind, Some("buffer_overflow"))
    else if RequiredDirty(c, visits) then (CoverageDegraded, None)
    else if failed.Some? then if SawEvents(visits) then (CoverageDegraded, None) else (FailedKind, failed)
    else if SawEvents(visits) then (if RequiredDeferred(c, visits) || Truncated(visits) then Partial else Events, None)
    else if Truncated(visits) then (Partial, None)
    else if RequiredDeferred(c, visits) && !atLogical then (Partial, None)
    else (if atLogical then LogicalDeadman else NoChange, None)
  }

  /** The cursor an arm is known to start from. */
  function HonestStart(c: Setup, starts: Starts, i: nat): Option<Id>
    requires i < c.Arms() == |starts|
  {
    var reg := c.Regs()[i];
    if starts[i].Some? then starts[i]
    else if reg.id in c.request.acknowledged then Some(c.request.acknowledged[reg.id])
    else reg.startAnchor
  }

  function StatusOf(v: Option<Visit>): (ArmStatus, bool, Option<Id>) {
    match v
    case Some(Admitted(_, saturated)) => (WithEvents, false, if saturated then Some("bound_exhausted") else None)
    case Some(IdleVisit) => (Quiet, false, None)
    case Some(OverflowVisit) => (ObservedOnly, false, Some("buffer_overflow"))
    case Some(FailedVisit(reason)) => (ObservedOnly, false, Some(reason))
    case Some(OutageVisit(reason)) => (OutageStatus, false, Some(reason))
    case Some(UncertainVisit(reason)) => (UncertainStatus, false, Some(reason))
    case Some(DegradedVisit(reason)) => (ObservedOnly, true, Some(reason))
    case Some(DeferredVisit) => (DeferredStatus, false, None)
    case None => (DeferredStatus, false, None)
  }

  predicate Reports(kind: Kind) {
    kind.Events? || kind.Partial?
  }

  function Last(start: Id, events: seq<Event>): Id {
    if events == [] then start else events[|events| - 1].proposedNext
  }

  function Ids(events: seq<Event>): (r: seq<Id>)
    ensures |r| == |events| && forall k :: 0 <= k < |r| ==> r[k] == events[k].eventId
  {
    seq(|events|, k requires 0 <= k < |events| => events[k].eventId)
  }

  /** What one arm adds to an outcome. */
  datatype ArmRecord = ArmRecord(arm: CoverageArm, events: seq<Event>, retainedThrough: Id, retainedEvents: seq<Id>)

  function RecordOf(c: Setup, kind: Kind, starts: Starts, visits: Visits, i: nat): Option<ArmRecord>
    requires i < c.Arms() == |starts| == |visits|
  {
    match HonestStart(c, starts, i)
    case None => None
    case Some(start) =>
      var (status, degraded, reason) := StatusOf(visits[i]);
      var events := EventsIn(visits[i]);
      var retain := Reports(kind) && events != [];
      var cleared := Unsuccessful(kind) && status.WithEvents?;
      Some(ArmRecord(
             CoverageArm(ArmId(c, i), c.Regs()[i].id, c.Regs()[i].required, if cleared then Quiet else status, degraded,
                         start, Last(start, events), if cleared then 0 else |events|,
                         if cleared then 0 else TotalBytes(events), reason),
             if Reports(kind) then events else [],
             if retain then Last(start, events) else start,
             if retain then Ids(events) else []))
  }

  function Records(c: Setup, kind: Kind, starts: Starts, visits: Visits, i: nat): seq<ArmRecord>
    requires c.Arms() == |starts| == |visits| && i <= c.Arms()
  {
    if i == 0 then []
    else
      var r := RecordOf(c, kind, starts, visits, i - 1);
      Records(c, kind, starts, visits, i - 1) + if r.Some? then [r.value] else []
  }

  function ArmsOf(records: seq<ArmRecord>): (r: seq<CoverageArm>)
    ensures |r| == |records| && forall k :: 0 <= k < |r| ==> r[k] == records[k].arm
  {
    seq(|records|, k requires 0 <= k < |records| => records[k].arm)
  }

  function EventsOf(records: seq<ArmRecord>): seq<Event> {
    if records == [] then [] else EventsOf(records[..|records| - 1]) + records[|records| - 1].events
  }

  function ThroughOf(records: seq<ArmRecord>): map<Id, Id> {
    if records == [] then map[]
    else
      var last := records[|records| - 1];
      ThroughOf(records[..|records| - 1])[last.arm.registrationId := last.retainedThrough]
  }

  function RetainedOf(records: seq<ArmRecord>): map<Id, seq<Id>> {
    if records == [] then map[]
    else
      var last := records[|records| - 1];
      RetainedOf(records[..|records| - 1])[last.arm.registrationId := last.retainedEvents]
  }

  /** Every requested arm is there, and clean. */
  predicate CoverageComplete(requiredArms: seq<Id>, arms: seq<CoverageArm>, kind: Kind) {
    && !Unsuccessful(kind) && !kind.Partial? && !kind.CoverageDegraded?
    && forall id | id in requiredArms :: exists a | a in arms :: a.armId == id && !Dirty(a)
  }

  function Build(c: Setup, now: Instant, starts: Starts, visits: Visits, kind: Kind,
                 reason: Option<Id>): Result<PollOutcome, CycleError>
    requires c.Arms() == |starts| == |visits|
  {
    var records := Records(c, kind, starts, visits, c.Arms());
    if records == [] then Failure(UnresolvedStart)
    else
      Success(PollOutcome(
                Outcome(kind, now, Some(c.request.logicalDeadline), EventsOf(records),
                        Some(CoverageComplete(c.request.requiredArms, ArmsOf(records), kind)), ArmsOf(records), reason),
                ThroughOf(records), RetainedOf(records), NextCursor(c)))
  }

  function Cleared(a: CoverageArm): CoverageArm {
    if a.status.WithEvents? then a.(status := Quiet, eventCount := 0, byteCount := 0) else a
  }

  function ClearedArms(arms: seq<CoverageArm>): (r: seq<CoverageArm>)
    ensures |r| == |arms| && forall k :: 0 <= k < |r| ==> r[k] == Cleared(arms[k])
  {
    seq(|arms|, k requires 0 <= k < |arms| => Cleared(arms[k]))
  }

  function EmptyEventMap(arms: seq<CoverageArm>): (m: map<Id, seq<Id>>)
    ensures forall id :: id in m ==> m[id] == []
  {
    if arms == [] then map[] else EmptyEventMap(arms[..|arms| - 1])[arms[|arms| - 1].registrationId := []]
  }

  /** `rebuild_reason`: events and retained ids go; the retained cursors stay. */
  function Rebuilt(o: PollOutcome, kind: Kind, reason: Id): PollOutcome {
    o.(base := o.base.(kind := kind, reason := Some(reason), events := [], coverageComplete := Some(false),
                       arms := ClearedArms(o.base.arms)),
       retainedEvents := EmptyEventMap(o.base.arms))
  }

  function ApplyPosture(c: Setup, o: PollOutcome): PollOutcome {
    if Unsuccessful(o.base.kind) then o
    else if LeaseExpired(c.rs, o.base.completedAt) then Rebuilt(o, ReauthenticationRequired, "lease_expired")
    else if c.rs.authnRequired && !c.request.hasReceipt then Rebuilt(o, Refused, "authn_required")
    else o
  }

  function Finished(c: Setup, r: Result<PollOutcome, CycleError>): Result<PollOutcome, CycleError> {
    match r
    case Failure(e) => Failure(e)
    case Success(o) => Success(ApplyPosture(c, o))
  }

  function Assemble(c: Setup, now: Instant, starts: Starts, visits: Visits): Result<PollOutcome, CycleError>
    requires c.Arms() == |starts| == |visits|
  {
    var (kind, reason) := DecideKind(c, now, visits);
    Finished(c, Build(c, now, starts, visits, kind, reason))
  }

  predicate RequiredBinds(c: Setup, starts: Starts)
    requires c.Arms() == |starts|
  {
    forall i :: 0 <= i < c.Arms() && c.Regs()[i].required ==> starts[i].Some?
  }

  /** Arms not reached by the deadline: deferred if others had events, else idle. */
  function Filled(visits: Visits): (r: Visits)
    ensures |r| == |visits| && AllVisited(r)
  {
    seq(|visits|, i requires 0 <= i < |visits| =>
      if visits[i].Some? then visits[i] else Some(if SawEvents(visits) then DeferredVisit else IdleVisit))
  }

  function AtDeadline(c: Setup, now: Instant, starts: Starts, visits: Visits): Result<PollOutcome, CycleError>
    requires c.Arms() == |starts| == |visits|
  {
    if !RequiredBinds(c, starts) then
      Finished(c, Build(c, now, starts, visits, FailedKind, Some("required_bind_pending")))
    else Assemble(c, now, starts, Filled(visits))
  }

  // ----- Giving everything back -----

  /** Push `events` back in front, the last one first. */
  function PushAllBack(c: Setup, i: nat, queue: seq<Event>, events: seq<Event>): (bool, seq<Event>)
    decreases |events|
  {
    if events == [] then (true, queue)
    else
      var last := events[|events| - 1];
      if c.accepts(i, last) then PushAllBack(c, i, [last] + queue, events[..|events| - 1]) else (false, queue)
  }

  function RestoreAdmitted(c: Setup, queues: seq<seq<Event>>, starts: Starts, visits: Visits,
                           i: nat): (r: (bool, seq<seq<Event>>))
    requires c.Arms() == |queues| == |starts| == |visits|
    ensures |r.1| == |queues|
    decreases c.Arms() - i
  {
    if i >= c.Arms() then (true, queues)
    else if starts[i].None? then RestoreAdmitted(c, queues, starts, visits, i + 1)
    else
      var (ok, queue) := PushAllBack(c, i, queues[i], EventsIn(visits[i]));
      if ok then RestoreAdmitted(c, queues[i := queue], starts, visits, i + 1) else (false, queues[i := queue])
  }

  // ----- The cycle -----

  /** `starts[i]` is known exactly when arm `i` is bound. */
  datatype Cycle = Cycle(
    queues: seq<seq<Event>>,
    starts: Starts,
    visits: Visits,
    budget: Budget,
    done: Option<Result<PollOutcome, CycleError>>)

  predicate Fitting(c: Setup, s: Cycle) {
    |s.queues| == |s.starts| == |s.visits| == c.Arms()
  }

  function Begin(c: Setup, queues: seq<seq<Event>>): Cycle {
    Cycle(queues, seq(c.Arms(), _ => None), seq(c.Arms(), _ => None), EMPTY, None)
  }

  datatype Happening =
    | Arrives(arm: nat, event: Event)
    | Cancels(now: Instant)
    | DeadlineSeen(now: Instant)
    | ObserveFails(raced: seq<Option<Answer>>)
    | ObserveReady(now: Instant, raced: seq<Option<Answer>>, polled: seq<Option<Answer>>, supplies: seq<Supply>)
    | BindFails
    | BindReady(now: Instant, binds: Starts, polled: seq<Option<Answer>>, supplies: seq<Supply>)
    | DeadlineWakes(now: Instant, polled: seq<Option<Answer>>, supplies: seq<Supply>)

  function Emit(c: Setup, s: Cycle, outcome: Result<PollOutcome, CycleError>): (r: Cycle)
    requires Fitting(c, s)
    ensures Fitting(c, r)
  {
    var (ok, queues) := RestoreAdmitted(c, s.queues, s.starts, s.visits, 0);
    s.(queues := queues, done := Some(if outcome.Success? && !ok then Failure(Restoring) else outcome))
  }

  function Gathered(s: Cycle): Collected {
    Collected(s.queues, s.visits, s.budget, true)
  }

  /** Record a harvest; a refused push-back ends the cycle on the spot. */
  function Recorded(c: Setup, s: Cycle, ready: Harvest, supplies: seq<Supply>): (r: Cycle)
    requires Fitting(c, s) && |ready| == |supplies| == c.Arms()
    ensures Fitting(c, r)
  {
    var got := Record(c, Gathered(s), ready, supplies);
    s.(queues := got.queues, visits := got.visits, budget := got.budget,
       done := if got.ok then s.done else Some(Failure(Restoring)))
  }

  function Pending(s: Cycle): (r: seq<bool>)
    requires |s.starts| == |s.visits|
    ensures |r| == |s.visits|
  {
    seq(|s.visits|, i requires 0 <= i < |s.visits| => s.starts[i].Some? && s.visits[i].None?)
  }

  function Occupied(s: Cycle): (r: seq<bool>)
    ensures |r| == |s.starts|
  {
    seq(|s.starts|, i requires 0 <= i < |s.starts| => s.starts[i].Some?)
  }

  /** The race over the pending arms has ended. */
  predicate ObserveOver(s: Cycle, raced: seq<Option<Answer>>)
    requires |s.queues| == |s.starts| == |s.visits| == |raced|
  {
    var harvest := HarvestOf(s.queues, raced, Pending(s));
    && (exists i :: 0 <= i < |harvest| && Pending(s)[i])
    && ((exists i :: 0 <= i < |harvest| && harvest[i].Some? && !harvest[i].value.Idle?)
        || (forall i :: 0 <= i < |harvest| && Pending(s)[i] ==> harvest[i].Some?))
  }

  /** Once every arm is visited, the outcome is assembled. */
  function IfComplete(c: Setup, s: Cycle, now: Instant): (r: Cycle)
    requires Fitting(c, s)
    ensures Fitting(c, r)
  {
    if s.done.None? && AllVisited(s.visits) then Emit(c, s, Assemble(c, now, s.starts, s.visits)) else s
  }

  /** The starts of newly bound arms. */
  function WithBinds(s: Cycle, binds: Starts): (r: Starts)
    requires |binds| == |s.starts|
    ensures |r| == |s.starts|
  {
    seq(|binds|, i requires 0 <= i < |binds| => if s.starts[i].Some? then s.starts[i] else binds[i])
  }

  /** A bind that ignores the acknowledged anchor is refused. */
  predicate StartsMismatch(c: Setup, s: Cycle, binds: Starts)
    requires c.Arms() == |binds| == |s.starts|
  {
    exists i :: 0 <= i < |binds| && s.starts[i].None? && binds[i].Some? && c.Regs()[i].id in c.request.acknowledged
                && c.request.acknowledged[c.Regs()[i].id] != binds[i].value
  }

  predicate BindsSome(s: Cycle, binds: Starts)
    requires |binds| == |s.starts|
  {
    exists i :: 0 <= i < |binds| && s.starts[i].None? && binds[i].Some?
  }

  function Next(c: Setup, s: Cycle, e: Happening): (r: Cycle)
    requires Fitting(c, s)
    ensures Fitting(c, r)
  {
    if e.Arrives? then
      s.(queues := if e.arm < |s.queues| then s.queues[e.arm := s.queues[e.arm] + [e.event]] else s.queues)
    else if s.done.Some? then s
    else
      match e
      case Cancels(now) =>
        Emit(c, s, Finished(c, Build(c, now, s.starts, s.visits, Cancelled, Some("consumer_cancelled"))))
      case DeadlineSeen(now) =>
        if now < c.request.logicalDeadline && now < c.request.runDeadline then s
        else Emit(c, s, AtDeadline(c, now, s.starts, s.visits))
      case ObserveFails(raced) =>
        if |raced| != c.Arms() then s
        else
          var ready := HarvestOf(s.queues, raced, Pending(s));
          var back := RestoreLeftover(c, Gathered(s).(queues := Popped(s.queues, ready)), ready,
                                      seq(c.Arms(), _ => Some(IdleVisit)), 0);
          if back.ok then Emit(c, s.(queues := back.queues), Failure(Arm))
          else s.(queues := back.queues, done := Some(Failure(Restoring)))
      case ObserveReady(now, raced, polled, supplies) =>
        if |raced| != c.Arms() || |polled| != c.Arms() || |supplies| != c.Arms() || !ObserveOver(s, raced) then s
        else
          var ready := Extended(HarvestOf(s.queues, raced, Pending(s)), HarvestOf(s.queues, polled, Pending(s)));
          IfComplete(c, Recorded(c, s, ready, supplies), now)
      case BindFails => Emit(c, s, Failure(Arm))
      case BindReady(now, binds, polled, supplies) =>
        if |binds| != c.Arms() || |polled| != c.Arms() || |supplies| != c.Arms() || !BindsSome(s, binds) then s
        else if StartsMismatch(c, s, binds) then Emit(c, s, Failure(BindStartMismatch))
        else
          var bound := s.(starts := WithBinds(s, binds));
          IfComplete(c, Recorded(c, bound, HarvestOf(s.queues, polled, Occupied(bound)), supplies), now)
      case DeadlineWakes(now, polled, supplies) =>
        if |polled| != c.Arms() || |supplies| != c.Arms() then s
        else
          var r := Recorded(c, s, HarvestOf(s.queues, polled, Pending(s)), supplies);
          if r.done.Some? then r else Emit(c, r, AtDeadline(c, now, r.starts, r.visits))
  }

  function RunCycle(c: Setup, s: Cycle, events: seq<Happening>): (r: Cycle)
    requires Fitting(c, s)
    ensures Fitting(c, r)
    decreases |events|
  {
    if events == [] then s else RunCycle(c, Next(c, s, events[0]), events[1..])
  }
}
