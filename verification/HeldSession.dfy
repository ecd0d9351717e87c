/** Held sessions: the slot machine of `follow.rs`, and the two runners built on
    it, as functions of the state and of what the environment answers. */
module HeldSession {
  import opened Wrappers
  import opened Seam

  // ----- Slots -----

  /** Entry `i` of the four parallel vectors of a slot set. */
  datatype Slot = Slot(bound: bool, binding: bool, waiting: bool, harvested: Option<Observation>)

  /** One phase at a time. */
  predicate OnePhase(s: Slot) {
    && (s.binding ==> !s.bound && !s.waiting && s.harvested.None?)
    && (s.waiting ==> s.bound && s.harvested.None?)
    && (s.harvested.Some? ==> s.bound)
  }

  function FreshSlots(n: nat): (r: seq<Slot>)
    ensures |r| == n && forall i :: 0 <= i < n ==> r[i] == Slot(false, true, false, None)
  {
    seq(n, _ => Slot(false, true, false, None))
  }

  /** The event a slot holds, if it holds one. */
  function Held(s: Slot): seq<Event> {
    if s.harvested.Some? && s.harvested.value.Observed? then [s.harvested.value.event] else []
  }

  function EventsOf(slots: seq<Slot>): seq<Event> {
    if slots == [] then [] else Held(slots[0]) + EventsOf(slots[1..])
  }

  function DropEvent(s: Slot): Slot {
    if Held(s) == [] then s else s.(harvested := None)
  }

  function WithoutEvents(slots: seq<Slot>): (r: seq<Slot>)
    ensures |r| == |slots| && forall i :: 0 <= i < |r| ==> r[i] == DropEvent(slots[i])
  {
    seq(|slots|, i requires 0 <= i < |slots| => DropEvent(slots[i]))
  }

  /** Forget signals, then ask every bound and idle slot for its next observation. */
  function RearmSlot(s: Slot): Slot {
    var kept := if Held(s) == [] then s.(harvested := None) else s;
    if kept.bound && !kept.waiting && kept.harvested.None? then kept.(waiting := true) else kept
  }

  function Rearm(slots: seq<Slot>): (r: seq<Slot>)
    ensures |r| == |slots| && forall i :: 0 <= i < |r| ==> r[i] == RearmSlot(slots[i])
  {
    seq(|slots|, i requires 0 <= i < |slots| => RearmSlot(slots[i]))
  }

  // ----- How a session ends -----

  datatype ArmKind = OverflowArm | FailedArm | OutageArm | CursorUncertainArm | DegradedArm

  datatype End = Cancelled | Deadline | TerminalArm(id: Id, kind: ArmKind, reason: Id)

  datatype SessionError = LeaseExpired | AuthnRequired | ObserverFault | RestoreRefused | SinkRefused

  function TerminalOf(id: Id, obs: Observation): Option<End> {
    match obs
    case Overflow => Some(TerminalArm(id, OverflowArm, "buffer_overflow"))
    case Failed(reason) => Some(TerminalArm(id, FailedArm, reason))
    case Outage(reason) => Some(TerminalArm(id, OutageArm, reason))
    case CursorUncertain(reason) => Some(TerminalArm(id, CursorUncertainArm, reason))
    case Degraded(reason) => Some(TerminalArm(id, DegradedArm, reason))
    case Observed(_) => None
    case Idle => None
  }

  /** The terminal of the first slot, from `i` on, that holds one. */
  function FirstTerminal(rs: RegistrationSet, slots: seq<Slot>, i: nat): (r: Option<End>)
    requires |slots| == |rs.registrations|
    decreases |slots| - i
  {
    if i >= |slots| then None
    else if slots[i].harvested.None? then FirstTerminal(rs, slots, i + 1)
    else
      match TerminalOf(rs.registrations[i].id, slots[i].harvested.value)
      case Some(end) => Some(end)
      case None => FirstTerminal(rs, slots, i + 1)
  }

  /** The first required registration, from `i` on, whose bind is still missing. */
  function PendingRequired(rs: RegistrationSet, slots: seq<Slot>, i: nat): (r: Option<Id>)
    requires |slots| == |rs.registrations|
    decreases |slots| - i
  {
    if i >= |slots| then None
    else
      var reg := rs.registrations[i];
      var at := IndexOf(rs.registrations, reg.id);
      if reg.required && (at.None? || !slots[at.value].bound) then Some(reg.id)
      else PendingRequired(rs, slots, i + 1)
  }

  // ----- Requests and policy -----

  /** `urgentAt` and effective priorities are presentation hints in 0..255. */
  datatype Policy = Policy(minEmitInterval: nat, urgentAt: nat)

  const PRIORITY_NORMAL: nat := 50

  /** `accepts(i, e)`: whether the observer takes `e` back on the bind of arm `i`. */
  datatype Config = Config(rs: RegistrationSet, request: Request, policy: Policy, accepts: (nat, Event) -> bool)

  function Posture(rs: RegistrationSet, request: Request, now: Instant): Option<SessionError> {
    if exists reg | reg in rs.registrations :: now >= reg.leaseExpiresAt then Some(LeaseExpired)
    else if rs.authnRequired && !request.hasReceipt then Some(AuthnRequired)
    else None
  }

  predicate AtDeadline(request: Request, now: Instant) {
    now >= request.logicalDeadline || now >= request.runDeadline
  }

  function DeadlineEnd(rs: RegistrationSet, slots: seq<Slot>): End
    requires |slots| == |rs.registrations|
  {
    match PendingRequired(rs, slots, 0)
    case Some(id) => TerminalArm(id, FailedArm, "required_bind_pending")
    case None =>
      match FirstTerminal(rs, slots, 0)
      case Some(end) => end
      case None => Deadline
  }

  predicate IsUrgent(c: Config, e: Event) {
    match IndexOf(c.rs.registrations, e.registrationId)
    case None => false
    case Some(i) =>
      var priority := c.rs.registrations[i].priority;
      (if priority.Some? then priority.value else PRIORITY_NORMAL) >= c.policy.urgentAt
  }

  // ----- Giving events back -----

  function GiveBack(c: Config, queues: seq<seq<Event>>, i: nat, e: Event): (r: seq<seq<Event>>)
    requires i < |queues|
    ensures |r| == |queues|
  {
    if c.accepts(i, e) then queues[i := [e] + queues[i]] else queues
  }

  /** Slot by slot, each held event goes back to the front of its own queue. */
  function GiveBackHeld(c: Config, slots: seq<Slot>, queues: seq<seq<Event>>): (r: seq<seq<Event>>)
    requires |slots| == |queues|
    ensures |r| == |queues|
  {
    seq(|queues|, i requires 0 <= i < |queues| =>
      if Held(slots[i]) != [] && c.accepts(i, Held(slots[i])[0]) then Held(slots[i]) + queues[i] else queues[i])
  }

  predicate HeldAccepted(c: Config, slots: seq<Slot>) {
    forall i :: 0 <= i < |slots| && Held(slots[i]) != [] ==> c.accepts(i, Held(slots[i])[0])
  }

  /** The bound slot that `index_of` finds for an event. */
  function Home(c: Config, slots: seq<Slot>, e: Event): (r: Option<nat>)
    requires |slots| == |c.rs.registrations|
    ensures r.Some? ==> r.value < |slots|
  {
    match IndexOf(c.rs.registrations, e.registrationId)
    case None => None
    case Some(i) => if slots[i].bound then Some(i) else None
  }

  /** Newest first, so that pushing at the front leaves each queue in order. */
  function GiveBackAll(c: Config, slots: seq<Slot>, queues: seq<seq<Event>>, events: seq<Event>): (r: seq<seq<Event>>)
    requires |slots| == |queues| == |c.rs.registrations|
    ensures |r| == |queues|
    decreases |events|
  {
    if events == [] then queues
    else
      var last := events[|events| - 1];
      var home := Home(c, slots, last);
      var queues' := if home.Some? then GiveBack(c, queues, home.value, last) else queues;
      GiveBackAll(c, slots, queues', events[..|events| - 1])
  }

  predicate AllAccepted(c: Config, slots: seq<Slot>, events: seq<Event>)
    requires |slots| == |c.rs.registrations|
  {
    forall e :: e in events && Home(c, slots, e).Some? ==> c.accepts(Home(c, slots, e).value, e)
  }

  // ----- The pending buffer -----

  predicate Fits(rs: RegistrationSet, pending: seq<Event>, e: Event) {
    && Saturated(|pending| + 1) <= rs.maxEvents
    && Saturated(TotalBytes(pending) + SurfaceBytes(e)) <= rs.maxBytes
    && (match IndexOf(rs.registrations, e.registrationId)
        case None => false
        case Some(i) =>
          var mine := WithId(pending, e.registrationId);
          && Saturated(|mine| + 1) <= rs.registrations[i].maxEvents
          && Saturated(TotalBytes(mine) + SurfaceBytes(e)) <= rs.registrations[i].maxBytes)
  }

  datatype Pushed = Pushed(pending: seq<Event>, urgent: seq<Event>) | Full(unsunk: seq<Event>, id: Id)

  /** Push every event, or stop at the first that does not fit. */
  function PushAll(rs: RegistrationSet, pending: seq<Event>, events: seq<Event>): Pushed
    decreases |events|
  {
    if events == [] then Pushed(pending, [])
    else if Fits(rs, pending, events[0]) then PushAll(rs, pending + [events[0]], events[1..])
    else Full(pending + events, events[0].registrationId)
  }

  /** Set urgent events aside and push the others. On overflow the code gives
      back the buffer, the event that did not fit, the urgent events set aside
      so far, and the rest. */
  function PushQuiet(c: Config, pending: seq<Event>, urgent: seq<Event>, events: seq<Event>): Pushed
    decreases |events|
  {
    if events == [] then Pushed(pending, urgent)
    else if IsUrgent(c, events[0]) then PushQuiet(c, pending, urgent + [events[0]], events[1..])
    else if Fits(c.rs, pending, events[0]) then PushQuiet(c, pending + [events[0]], urgent, events[1..])
    else Full(pending + [events[0]] + urgent + events[1..], events[0].registrationId)
  }

  // ----- One turn of the coalescing policy -----

  datatype TurnEnd = Continues | Overflowed(unsunk: seq<Event>, id: Id) | SinkFailed

  /** `burst` is what the sink accepted; `quiet` says it was a quiet emit. */
  datatype Turn = Turn(pending: seq<Event>, quietAt: Option<Instant>, burst: seq<Event>, quiet: bool, end: TurnEnd)

  predicate Due(quietAt: Option<Instant>, now: Instant) {
    quietAt.Some? && now >= quietAt.value
  }

  function EmitQuiet(c: Config, now: Instant, pending: seq<Event>, quietAt: Option<Instant>, sinkOk: bool): Turn {
    if pending == [] then Turn([], quietAt, [], false, Continues)
    else if !sinkOk then Turn([], quietAt, [], false, SinkFailed)
    else Turn([], Some(After(now, c.policy.minEmitInterval)), pending, true, Continues)
  }

  /** The cadence after events arrived: the first quiet one starts it. */
  function Cadence(c: Config, now: Instant, quietAt: Option<Instant>, events: seq<Event>): Option<Instant> {
    if quietAt.None? && exists e | e in events :: !IsUrgent(c, e) then Some(After(now, c.policy.minEmitInterval))
    else quietAt
  }

  /** Urgent events go to the sink at once; quiet ones wait. */
  function UrgentTurn(c: Config, pending: seq<Event>, quietAt: Option<Instant>, events: seq<Event>,
                      sinkOk: bool): Turn {
    match PushQuiet(c, pending, [], events)
    case Full(unsunk, id) => Turn([], quietAt, [], false, Overflowed(unsunk, id))
    case Pushed(kept, urgent) =>
      if sinkOk then Turn(kept, quietAt, urgent, false, Continues) else Turn([], quietAt, [], false, SinkFailed)
  }

  /** Everything joins the buffer, which is emitted when it is due. */
  function BufferTurn(c: Config, now: Instant, pending: seq<Event>, quietAt: Option<Instant>, events: seq<Event>,
                      sinkOk: bool): Turn {
    match PushAll(c.rs, pending, events)
    case Full(unsunk, id) => Turn([], quietAt, [], false, Overflowed(unsunk, id))
    case Pushed(all, _) =>
      if Due(quietAt, now) then EmitQuiet(c, now, all, quietAt, sinkOk) else Turn(all, quietAt, [], false, Continues)
  }

  function ApplyTurn(c: Config, now: Instant, pending: seq<Event>, quietAt: Option<Instant>, events: seq<Event>,
                     sinkOk: bool): Turn {
    var next := Cadence(c, now, quietAt, events);
    if (exists e | e in events :: IsUrgent(c, e)) && !Due(next, now) then UrgentTurn(c, pending, next, events, sinkOk)
    else BufferTurn(c, now, pending, next, events, sinkOk)
  }

  // ----- Sessions -----

  datatype Status = Running | Ended(result: Result<End, SessionError>)

  /** `sunk` is everything the sink accepted; `quietEmits` when it accepted quiet bursts. */
  datatype Session = Session(
    slots: seq<Slot>,
    fault: bool,
    queues: seq<seq<Event>>,
    pending: seq<Event>,
    quietAt: Option<Instant>,
    sunk: seq<Event>,
    quietEmits: seq<Instant>,
    status: Status)

  predicate Shaped(c: Config, s: Session) {
    |s.slots| == |s.queues| == |c.rs.registrations|
  }

  function Start(c: Config, queues: seq<seq<Event>>): Session {
    Session(FreshSlots(|c.rs.registrations|), false, queues, [], None, [], [], Running)
  }

  /** End the session with `result`, giving back what is held and what is in
      `unsunk`. A refusal becomes the result instead. */
  function GiveBackAndEnd(c: Config, s: Session, unsunk: seq<Event>, result: Result<End, SessionError>): (r: Session)
    requires Shaped(c, s)
    ensures Shaped(c, r)
  {
    var refused := !HeldAccepted(c, s.slots) || !AllAccepted(c, s.slots, unsunk);
    s.(queues := GiveBackAll(c, s.slots, GiveBackHeld(c, s.slots, s.queues), unsunk),
       slots := seq(|s.slots|, i requires 0 <= i < |s.slots| => s.slots[i].(harvested := None)),
       fault := false,
       pending := [],
       status := Ended(if refused then Failure(RestoreRefused) else result))
  }

  function OverflowEnd(id: Id): Result<End, SessionError> {
    Success(TerminalArm(id, OverflowArm, "buffer_overflow"))
  }

  function FinalFlush(c: Config, s: Session, events: seq<Event>, terminal: Option<End>, now: Instant, cancelled: bool,
                      sinkOk: bool): (r: Session)
    requires Shaped(c, s)
    ensures Shaped(c, r)
  {
    match PushAll(c.rs, s.pending, events)
    case Full(unsunk, id) => GiveBackAndEnd(c, s, unsunk, OverflowEnd(id))
    case Pushed(all, _) =>
      if all != [] && !sinkOk then s.(pending := [], status := Ended(Failure(SinkRefused)))
      else
        var end := if terminal.Some? then terminal.value
                   else if AtDeadline(c.request, now) then DeadlineEnd(c.rs, s.slots)
                   else if cancelled then Cancelled
                   else Deadline;
        s.(pending := [], sunk := s.sunk + all, status := Ended(Success(end)))
  }

  /** `decide_coalesce`. */
  function Decide(c: Config, s: Session, now: Instant, cancelled: bool, sinkOk: bool): (r: Session)
    requires Shaped(c, s)
    ensures Shaped(c, r)
  {
    var posture := Posture(c.rs, c.request, now);
    if posture.Some? then GiveBackAndEnd(c, s, s.pending, Failure(posture.value))
    else if s.fault then GiveBackAndEnd(c, s, s.pending, Failure(ObserverFault))
    else
      var events := EventsOf(s.slots);
      var taken := s.(slots := WithoutEvents(s.slots));
      var terminal := FirstTerminal(c.rs, taken.slots, 0);
      if terminal.Some? || cancelled || AtDeadline(c.request, now) then
        FinalFlush(c, taken, events, terminal, now, cancelled, sinkOk)
      else
        var t := ApplyTurn(c, now, s.pending, s.quietAt, events, sinkOk);
        var after := taken.(pending := t.pending, quietAt := t.quietAt, sunk := s.sunk + t.burst,
                            quietEmits := if t.quiet then s.quietEmits + [now] else s.quietEmits);
        match t.end
        case Continues => after.(slots := Rearm(taken.slots))
        case Overflowed(unsunk, id) => GiveBackAndEnd(c, after, unsunk, OverflowEnd(id))
        case SinkFailed => after.(status := Ended(Failure(SinkRefused)))
  }

  /** `decide_turn` of the follow runner, which has no pending buffer. */
  function FollowTurn(c: Config, s: Session, now: Instant, cancelled: bool, sinkOk: bool): (r: Session)
    requires Shaped(c, s)
    ensures Shaped(c, r)
  {
    var posture := Posture(c.rs, c.request, now);
    if posture.Some? then GiveBackAndEnd(c, s, [], Failure(posture.value))
    else if s.fault then GiveBackAndEnd(c, s, [], Failure(ObserverFault))
    else if cancelled then GiveBackAndEnd(c, s, [], Success(Cancelled))
    else
      var events := EventsOf(s.slots);
      var taken := s.(slots := WithoutEvents(s.slots));
      var terminal := FirstTerminal(c.rs, taken.slots, 0);
      if events != [] && !sinkOk then taken.(status := Ended(Failure(SinkRefused)))
      else
        var after := taken.(sunk := s.sunk + events);
        if terminal.Some? then after.(status := Ended(Success(terminal.value)))
        else if AtDeadline(c.request, now) then after.(status := Ended(Success(DeadlineEnd(c.rs, taken.slots))))
        else after.(slots := Rearm(taken.slots))
  }

  // ----- Runs -----

  /** One move of the runner or of its environment. */
  datatype Move =
    | Arrive(arm: nat, event: Event)
    | BindReady(arm: nat)
    | BindFails(arm: nat)
    | NextReady(arm: nat, answer: Answer)
    | NextFails(arm: nat)
    | PollReady(arm: nat, answer: Answer)
    | RearmIdle
    | CollectFails
    | PostureCheck(at: Instant)
    | TurnAt(at: Instant, cancel: bool, sinkOk: bool)

  /** The slot takes the answer; an event leaves the front of its queue. */
  function Harvest(s: Session, i: nat, answer: Answer): (r: Session)
    requires i < |s.slots| == |s.queues|
    ensures |r.slots| == |r.queues| == |s.slots|
  {
    if answer.Head? then
      if s.queues[i] == [] then s
      else
        s.(slots := s.slots[i := s.slots[i].(waiting := false, harvested := Some(Observed(s.queues[i][0])))],
           queues := s.queues[i := s.queues[i][1..]])
    else if answer.obs.Observed? then s
    else s.(slots := s.slots[i := s.slots[i].(waiting := false, harvested := Some(answer.obs))])
  }

  /** The provider adds an event behind the others. */
  function Enqueue(queues: seq<seq<Event>>, m: Move): (r: seq<seq<Event>>)
    ensures |r| == |queues|
  {
    if m.Arrive? && m.arm < |queues| then queues[m.arm := queues[m.arm] + [m.event]] else queues
  }

  /** A move that is not enabled changes nothing. Arrivals go on after the end. */
  function Step(c: Config, s: Session, m: Move, follow: bool): (r: Session)
    requires Shaped(c, s)
    ensures Shaped(c, r)
  {
    if m.Arrive? then s.(queues := Enqueue(s.queues, m))
    else if !s.status.Running? then s
    else
      match m
      case BindReady(i) =>
        if i < |s.slots| && s.slots[i].binding && s.slots[i].harvested.None? then
          s.(slots := s.slots[i := s.slots[i].(binding := false, bound := true, waiting := true)])
        else s
      case BindFails(i) =>
        if i < |s.slots| && s.slots[i].binding && s.slots[i].harvested.None? then
          s.(slots := s.slots[i := s.slots[i].(binding := false)], fault := true)
        else s
      case NextReady(i, answer) =>
        if i < |s.slots| && s.slots[i].waiting && s.slots[i].harvested.None? then Harvest(s, i, answer) else s
      case NextFails(i) =>
        if i < |s.slots| && s.slots[i].waiting && s.slots[i].harvested.None? then
          s.(slots := s.slots[i := s.slots[i].(waiting := false)], fault := true)
        else s
      case PollReady(i, answer) =>
        if i < |s.slots| && s.slots[i].bound && s.slots[i].harvested.None? then Harvest(s, i, answer) else s
      case RearmIdle => s.(slots := Rearm(s.slots))
      case CollectFails => if s.fault then GiveBackAndEnd(c, s, s.pending, Failure(ObserverFault)) else s
      case PostureCheck(at) =>
        var posture := Posture(c.rs, c.request, at);
        if posture.Some? then GiveBackAndEnd(c, s, s.pending, Failure(posture.value)) else s
      case TurnAt(at, cancel, sinkOk) =>
        if follow then FollowTurn(c, s, at, cancel, sinkOk) else Decide(c, s, at, cancel, sinkOk)
  }

  function Run(c: Config, s: Session, moves: seq<Move>, follow: bool): (r: Session)
    requires Shaped(c, s)
    ensures Shaped(c, r)
    decreases |moves|
  {
    if moves == [] then s else Run(c, Step(c, s, moves[0], follow), moves[1..], follow)
  }

  /** The events each provider queue ever held: those present at the start, then arrivals. */
  function Streams(queues: seq<seq<Event>>, moves: seq<Move>): (r: seq<seq<Event>>)
    ensures |r| == |queues|
    decreases |moves|
  {
    if moves == [] then queues else Streams(Enqueue(queues, moves[0]), moves[1..])
  }
}
