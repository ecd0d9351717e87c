/** The live first-match runner of `first_match.rs`: harvest, decide, restore the
    losers, and the outcomes of `outcome.rs`. */
module FirstMatch {
  import opened Wrappers
  import opened Seam
  import opened Messages

  /** `accepts(i, e)`: whether the observer takes `e` back on the bind of arm `i`. */
  datatype Config = Config(rs: RegistrationSet, request: Request, accepts: (nat, Event) -> bool)

  type Entry = (nat, Observation)

  // ----- Harvest -----

  /** The entries of the arms from `i` on that `wanted` selects, in arm order. */
  function Entries(queues: seq<seq<Event>>, answers: seq<Option<Answer>>, skip: seq<bool>, i: nat): seq<Entry>
    requires |queues| == |answers| == |skip|
    decreases |queues| - i
  {
    if i >= |queues| then []
    else
      var obs := ObservationAt(queues, answers, i);
      (if !skip[i] && obs.Some? then [(i, obs.value)] else []) + Entries(queues, answers, skip, i + 1)
  }

  function Raced(queues: seq<seq<Event>>, raced: seq<Option<Answer>>): (r: seq<bool>)
    requires |queues| == |raced|
    ensures |r| == |queues|
  {
    seq(|queues|, i requires 0 <= i < |queues| => ObservationAt(queues, raced, i).Some?)
  }

  function Nobody(n: nat): (r: seq<bool>)
    ensures |r| == n && forall i :: 0 <= i < n ==> !r[i]
  {
    seq(n, _ => false)
  }

  /** What the race handed over, then what `poll_ready` adds for the other arms. */
  function Ready(queues: seq<seq<Event>>, raced: seq<Option<Answer>>, polled: seq<Option<Answer>>): seq<Entry>
    requires |queues| == |raced| == |polled|
  {
    Entries(queues, raced, Nobody(|queues|), 0) + Entries(queues, polled, Raced(queues, raced), 0)
  }

  /** An event that is handed over has left its queue. */
  function AfterHarvest(queues: seq<seq<Event>>, ready: seq<Entry>): (r: seq<seq<Event>>)
    ensures |r| == |queues|
    decreases |ready|
  {
    if ready == [] then queues
    else
      var i, obs := ready[0].0, ready[0].1;
      AfterHarvest(if obs.Observed? && i < |queues| && queues[i] != [] then queues[i := queues[i][1..]] else queues,
                   ready[1..])
  }

  // ----- Decision -----

  /** The event of the lowest arm that has one. */
  function Winner(ready: seq<Entry>): Option<(nat, Event)> {
    if ready == [] then None
    else
      var rest := Winner(ready[1..]);
      if ready[0].1.Observed? && (rest.None? || ready[0].0 <= rest.value.0) then Some((ready[0].0, ready[0].1.event))
      else rest
  }

  predicate AnyOverflow(ready: seq<Entry>) {
    exists p | p in ready :: p.1.Overflow?
  }

  /** The reason of the last failing arm. */
  function LastFailure(ready: seq<Entry>): Option<Id> {
    if ready == [] then None
    else
      match ready[|ready| - 1].1
      case Failed(reason) => Some(reason)
      case Outage(reason) => Some(reason)
      case CursorUncertain(reason) => Some(reason)
      case Degraded(reason) => Some(reason)
      case _ => LastFailure(ready[..|ready| - 1])
  }

  function Plain(kind: Kind, now: Instant, reason: Option<Id>): Outcome {
    Outcome(kind, now, None, [], None, [], reason)
  }

  function EventsOutcome(now: Instant, e: Event): Outcome {
    Outcome(Events, now, None, [e], None, [], None)
  }

  function ArmOf(reg: Registration, status: ArmStatus, event: Option<Event>, start: Option<Id>): seq<CoverageArm> {
    if event.None? && start.None? then []
    else
      var from := if event.Some? then event.value.startAnchor else start.value;
      [CoverageArm("arm:" + reg.id, reg.id, reg.required, status, false, from,
                   if event.Some? then event.value.proposedNext else from,
                   if event.Some? then 1 else 0, 0, None)]
  }

  /** `clean_arms`: one quiet arm per registration whose start is resolved. */
  function CleanArms(registrations: seq<Registration>, starts: seq<Option<Id>>): seq<CoverageArm>
    requires |registrations| == |starts|
  {
    if registrations == [] then []
    else ArmOf(registrations[0], Quiet, None, starts[0]) + CleanArms(registrations[1..], starts[1..])
  }

  function PartialArms(registrations: seq<Registration>, starts: seq<Option<Id>>, event: Event): seq<CoverageArm>
    requires |registrations| == |starts|
  {
    if registrations == [] then []
    else
      var reg := registrations[0];
      (if reg.id == event.registrationId then ArmOf(reg, WithEvents, Some(event), starts[0])
       else ArmOf(reg, DeferredStatus, None, starts[0]))
      + PartialArms(registrations[1..], starts[1..], event)
  }

  function Decide(c: Config, now: Instant, ready: seq<Entry>, starts: seq<Option<Id>>): Option<Outcome>
    requires |starts| == |c.rs.registrations|
  {
    var winner := Winner(ready);
    if AnyOverflow(ready) then
      if winner.Some? then
        Some(Outcome(Partial, now, None, [winner.value.1], Some(false),
                     PartialArms(c.rs.registrations, starts, winner.value.1), None))
      else Some(Plain(FailedKind, now, Some("buffer_overflow")))
    else if LastFailure(ready).Some? && winner.None? then Some(Plain(FailedKind, now, LastFailure(ready)))
    else if winner.Some? then Some(EventsOutcome(now, winner.value.1))
    else None
  }

  function PostureReject(c: Config, now: Instant): Option<Outcome> {
    if LeaseExpired(c.rs, now) then
      Some(Plain(ReauthenticationRequired, now, Some("lease_expired")))
    else if c.rs.authnRequired && !c.request.hasReceipt then
      Some(Plain(Refused, now, Some("authn_required")))
    else None
  }

  /** `finish` reads the clock once more than the decision did. */
  function Finish(c: Config, now: Instant, o: Outcome): Outcome {
    if Unsuccessful(o.kind) then o
    else
      match PostureReject(c, now)
      case Some(rejected) => rejected
      case None => o
  }

  predicate RequiredBound(c: Config, starts: seq<Option<Id>>)
    requires |starts| == |c.rs.registrations|
  {
    forall i :: 0 <= i < |starts| && c.rs.registrations[i].required ==> starts[i].Some?
  }

  function TerminalDeadline(c: Config, now: Instant, starts: seq<Option<Id>>): Option<Outcome>
    requires |starts| == |c.rs.registrations|
  {
    var atLogical := now >= c.request.logicalDeadline;
    if !atLogical && now < c.request.runDeadline then None
    else if !RequiredBound(c, starts) then Some(Plain(FailedKind, now, Some("required_bind_pending")))
    else
      Some(Outcome(if atLogical then LogicalDeadman else NoChange, now, Some(c.request.logicalDeadline), [],
                   Some(true), CleanArms(c.rs.registrations, starts), None))
  }

  // ----- Restoring -----

  /** Push events back, one after the other, except the winner's; stop at a refusal. */
  function Restore(c: Config, queues: seq<seq<Event>>, ready: seq<Entry>,
                   winner: Option<nat>): (r: (bool, seq<seq<Event>>))
    ensures |r.1| == |queues|
    decreases |ready|
  {
    if ready == [] then (true, queues)
    else
      var i, obs := ready[0].0, ready[0].1;
      if winner == Some(i) || !obs.Observed? || i >= |queues| then Restore(c, queues, ready[1..], winner)
      else if !c.accepts(i, obs.event) then (false, queues)
      else Restore(c, queues[i := [obs.event] + queues[i]], ready[1..], winner)
  }

  function WinnerArm(ready: seq<Entry>): Option<nat> {
    match Winner(ready)
    case None => None
    case Some(w) => Some(w.0)
  }

  // ----- The run -----

  datatype RunError = ArmError | RestoreError

  /** `bound`: every registration is bound and held; `starts` the cursors resolved so far. */
  datatype State = State(
    queues: seq<seq<Event>>,
    bound: bool,
    starts: seq<Option<Id>>,
    done: Option<Result<Outcome, RunError>>)

  predicate Shaped(c: Config, s: State) {
    |s.queues| == |s.starts| == |c.rs.registrations|
  }

  function Start(c: Config, queues: seq<seq<Event>>): State {
    State(queues, false, seq(|c.rs.registrations|, _ => None), None)
  }

  datatype Input =
    | Arrive(arm: nat, event: Event)
    | BindResolved(arm: nat, start: Id)
    | CancelAt(now: Instant)
    | HeadDeadline(decideAt: Instant, finishAt: Instant)
    | RaceFails(raced: seq<Option<Answer>>)
    | RaceReady(decideAt: Instant, finishAt: Instant, raced: seq<Option<Answer>>, polled: seq<Option<Answer>>)
    | DeadlineWake(now: Instant, polled: seq<Option<Answer>>)

  /** Decide on what was harvested; restore the losers, or everything when posture rejects. */
  function Settle(c: Config, s: State, decideAt: Instant, finishAt: Instant, ready: seq<Entry>,
                  starts: seq<Option<Id>>): (r: State)
    requires Shaped(c, s) && |starts| == |s.starts|
    ensures Shaped(c, r)
  {
    var popped := AfterHarvest(s.queues, ready);
    match Decide(c, decideAt, ready, starts)
    case None => s.(queues := popped)
    case Some(outcome) =>
      var rejected := PostureReject(c, decideAt);
      var (ok, queues) := Restore(c, popped, ready, if rejected.Some? then None else WinnerArm(ready));
      s.(queues := queues,
         done := Some(if !ok then Failure(RestoreError)
                      else Success(Finish(c, finishAt, if rejected.Some? then rejected.value else outcome))))
  }

  /** The race is over when some arm has a terminal value or every arm answered. */
  predicate RaceOver(queues: seq<seq<Event>>, raced: seq<Option<Answer>>)
    requires |queues| == |raced|
  {
    || (exists i ::
          0 <= i < |queues| && ObservationAt(queues, raced, i).Some? && !ObservationAt(queues, raced, i).value.Idle?)
    || (forall i :: 0 <= i < |queues| ==> ObservationAt(queues, raced, i).Some?)
  }

  function NoAnswers(n: nat): (r: seq<Option<Answer>>)
    ensures |r| == n && forall i :: 0 <= i < n ==> r[i] == None
  {
    seq(n, _ => None)
  }

  /** Starts of the arms whose bind came with the race. */
  function StartsOf(s: State, raced: seq<Option<Answer>>): (r: seq<Option<Id>>)
    requires |s.queues| == |s.starts| == |raced|
    ensures |r| == |s.starts|
  {
    seq(|raced|, i requires 0 <= i < |raced| => if ObservationAt(s.queues, raced, i).Some? then s.starts[i] else None)
  }

  /** An arm is observed only once its bind has resolved. */
  predicate AnswersAfterBinding(s: State, raced: seq<Option<Answer>>)
    requires |s.queues| == |s.starts| == |raced|
  {
    forall i :: 0 <= i < |raced| && ObservationAt(s.queues, raced, i).Some? ==> s.starts[i].Some?
  }

  function Step(c: Config, s: State, input: Input): (r: State)
    requires Shaped(c, s)
    ensures Shaped(c, r)
  {
    if input.Arrive? then s.(queues := Enqueue(s.queues, input))
    else if s.done.Some? then s
    else
      match input
      case BindResolved(i, start) =>
        if i < |s.starts| && !s.bound && s.starts[i].None? then s.(starts := s.starts[i := Some(start)]) else s
      case CancelAt(now) => s.(done := Some(Success(Finish(c, now, Plain(Cancelled, now, Some("consumer_cancelled"))))))
      case HeadDeadline(decideAt, finishAt) =>
        (match TerminalDeadline(c, decideAt, s.starts)
         case None => s
         case Some(o) => s.(done := Some(Success(Finish(c, finishAt, o)))))
      case RaceFails(raced) =>
        if |raced| != |s.queues| then s
        else
          var ready := Ready(s.queues, raced, NoAnswers(|s.queues|));
          var (ok, queues) := Restore(c, AfterHarvest(s.queues, ready), ready, None);
          s.(queues := queues, done := Some(Failure(if ok then ArmError else RestoreError)))
      case RaceReady(decideAt, finishAt, raced, polled) =>
        if |raced| != |s.queues| || |polled| != |s.queues| || !RaceOver(s.queues, raced) then s
        else if s.bound then Settle(c, s, decideAt, finishAt, Ready(s.queues, raced, polled), s.starts)
        else if !AnswersAfterBinding(s, raced) then s
        else
          // Every bind at hand already has its observation, so poll_ready adds nothing.
          var r := Settle(c, s, decideAt, finishAt, Ready(s.queues, raced, NoAnswers(|s.queues|)), StartsOf(s, raced));
          if r.done.None? then r.(bound := true) else r
      case DeadlineWake(now, polled) =>
        if |polled| != |s.queues| then s
        else
          var r := if s.bound then Settle(c, s, now, now, Ready(s.queues, NoAnswers(|s.queues|), polled), s.starts)
              else s;
          if r.done.Some? then r
          else
            match TerminalDeadline(c, now, s.starts)
            case None => r
            case Some(o) => r.(done := Some(Success(Finish(c, now, o))))
  }

  function Enqueue(queues: seq<seq<Event>>, input: Input): (r: seq<seq<Event>>)
    ensures |r| == |queues|
  {
    if input.Arrive? && input.arm < |queues| then queues[input.arm := queues[input.arm] + [input.event]] else queues
  }

  function Run(c: Config, s: State, inputs: seq<Input>): (r: State)
    requires Shaped(c, s)
    ensures Shaped(c, r)
    decreases |inputs|
  {
    if inputs == [] then s else Run(c, Step(c, s, inputs[0]), inputs[1..])
  }
}
