/** When a held session ends and with what: each ending of either runner, over
    every run, exactly when the move that ended it met a state of a certain kind. */
module HeldEndings {
  import opened Wrappers
  import opened Seam
  import opened HeldSession
  import opened HeldCustody

  type Answered = Option<Result<End, SessionError>>

  function ResultOf(status: Status): Answered {
    if status.Running? then None else Some(status.result)
  }

  // ----- What a turn can meet -----

  /** Some lease of the set is over. */
  predicate Lapsed(c: Config, at: Instant) {
    exists reg | reg in c.rs.registrations :: reg.leaseExpiresAt <= at
  }

  /** A receipt is asked for and is not there. */
  predicate Unproven(c: Config) {
    c.rs.authnRequired && !c.request.hasReceipt
  }

  predicate Late(c: Config, at: Instant) {
    c.request.logicalDeadline <= at || c.request.runDeadline <= at
  }

  /** The slot holds an observation that ends the session. */
  predicate Stopped(s: Slot) {
    s.harvested.Some? && !s.harvested.value.Observed? && !s.harvested.value.Idle?
  }

  predicate Tells(id: Id, obs: Observation, end: End) {
    && end.TerminalArm? && end.id == id
    && (obs.Overflow? ==> end.kind == OverflowArm && end.reason == "buffer_overflow")
    && (obs.Failed? ==> end.kind == FailedArm && end.reason == obs.reason)
    && (obs.Outage? ==> end.kind == OutageArm && end.reason == obs.reason)
    && (obs.CursorUncertain? ==> end.kind == CursorUncertainArm && end.reason == obs.reason)
    && (obs.Degraded? ==> end.kind == DegradedArm && end.reason == obs.reason)
  }

  ghost predicate AnyStopped(slots: seq<Slot>) {
    exists i :: 0 <= i < |slots| && Stopped(slots[i])
  }

  /** Slot `k` is the first stopped one from `i` on. */
  predicate StopsFirst(slots: seq<Slot>, i: nat, k: nat) {
    i <= k < |slots| && Stopped(slots[k]) && forall j :: i <= j < k ==> !Stopped(slots[j])
  }

  /** `end` tells of the first arm that stopped. */
  ghost predicate FirstStopped(c: Config, slots: seq<Slot>, end: End)
    requires |slots| == |c.rs.registrations|
  {
    exists i: nat :: StopsFirst(slots, 0, i) && Tells(c.rs.registrations[i].id, slots[i].harvested.value, end)
  }

  /** Registration `i` is required, and the bind of its id, which the first
      registration with that id holds, is missing. */
  predicate BindMissing(c: Config, slots: seq<Slot>, i: nat)
    requires i < |slots| == |c.rs.registrations|
  {
    var regs := c.rs.registrations;
    && regs[i].required
    && exists j :: 0 <= j <= i && regs[j].id == regs[i].id && (forall k :: 0 <= k < j ==> regs[k].id != regs[i].id)
                   && !slots[j].bound
  }

  ghost predicate AllBound(c: Config, slots: seq<Slot>)
    requires |slots| == |c.rs.registrations|
  {
    forall i :: 0 <= i < |slots| ==> !BindMissing(c, slots, i)
  }

  /** `k` is the first missing bind from `i` on. */
  ghost predicate FirstFrom(c: Config, slots: seq<Slot>, i: nat, k: nat)
    requires |slots| == |c.rs.registrations|
  {
    i <= k < |slots| && BindMissing(c, slots, k) && forall j :: i <= j < k ==> !BindMissing(c, slots, j)
  }

  /** `end` tells of the first required bind that is missing. */
  ghost predicate FirstMissing(c: Config, slots: seq<Slot>, end: End)
    requires |slots| == |c.rs.registrations|
  {
    exists i: nat :: FirstFrom(c, slots, 0, i)
                     && end == TerminalArm(c.rs.registrations[i].id, FailedArm, "required_bind_pending")
  }

  /** The observer takes back what the slots hold, and `events`. */
  predicate TakesBack(c: Config, slots: seq<Slot>, events: seq<Event>)
    requires |slots| == |c.rs.registrations|
  {
    HeldAccepted(c, slots) && AllAccepted(c, slots, events)
  }

  // ----- The functions meet these -----

  lemma PostureIs(c: Config, at: Instant)
    ensures Posture(c.rs, c.request, at) ==
            if Lapsed(c, at) then Some(LeaseExpired) else if Unproven(c) then Some(AuthnRequired) else None
  {
  }

  lemma {:induction false} FirstTerminalIs(c: Config, slots: seq<Slot>, i: nat) returns (k: nat)
    requires |slots| == |c.rs.registrations| && i <= |slots|
    ensures var r := FirstTerminal(c.rs, slots, i);
            && (r.None? <==> forall j :: i <= j < |slots| ==> !Stopped(slots[j]))
            && (r.Some? ==> StopsFirst(slots, i, k)
                            && r == TerminalOf(c.rs.registrations[k].id, slots[k].harvested.value))
    decreases |slots| - i
  {
    k := i;
    if i < |slots| && !Stopped(slots[i]) {
      k := FirstTerminalIs(c, slots, i + 1);
    }
  }

  lemma TerminalTells(id: Id, obs: Observation)
    requires !obs.Observed? && !obs.Idle?
    ensures forall end :: TerminalOf(id, obs) == Some(end) <==> Tells(id, obs, end)
    ensures TerminalOf(id, obs).Some? && TerminalOf(id, obs).value.TerminalArm?
  {
  }

  lemma MissingIs(c: Config, slots: seq<Slot>, i: nat)
    requires i < |slots| == |c.rs.registrations|
    ensures var reg := c.rs.registrations[i];
            var at := IndexOf(c.rs.registrations, reg.id);
            BindMissing(c, slots, i) <==> reg.required && (at.None? || !slots[at.value].bound)
  {
    var at := IndexOf(c.rs.registrations, c.rs.registrations[i].id);
    assert at.Some? && at.value <= i;
  }

  lemma {:induction false} PendingIs(c: Config, slots: seq<Slot>, i: nat) returns (k: nat)
    requires |slots| == |c.rs.registrations| && i <= |slots|
    ensures var r := PendingRequired(c.rs, slots, i);
            && (r.None? <==> forall j :: i <= j < |slots| ==> !BindMissing(c, slots, j))
            && (r.Some? ==> FirstFrom(c, slots, i, k) && r.value == c.rs.registrations[k].id)
    decreases |slots| - i
  {
    k := i;
    if i < |slots| {
      MissingIs(c, slots, i);
      hide BindMissing;
      if !BindMissing(c, slots, i) {
        k := PendingIs(c, slots, i + 1);
      }
    }
  }

  /** At a deadline, without a stopped arm: the first missing bind, or the deadline. */
  lemma DeadlineIs(c: Config, slots: seq<Slot>)
    requires |slots| == |c.rs.registrations| && !AnyStopped(slots)
    ensures DeadlineEnd(c.rs, slots) == Deadline <==> AllBound(c, slots)
    ensures !AllBound(c, slots) ==> forall end :: DeadlineEnd(c.rs, slots) == end <==> FirstMissing(c, slots, end)
  {
    var k := PendingIs(c, slots, 0);
    var stopped := FirstTerminalIs(c, slots, 0);
    hide BindMissing, Stopped, PendingRequired, FirstTerminal;
    if !AllBound(c, slots) {
      forall end ensures DeadlineEnd(c.rs, slots) == end <==> FirstMissing(c, slots, end) {
        if FirstMissing(c, slots, end) {
          var i: nat :| FirstFrom(c, slots, 0, i)
                        && end == TerminalArm(c.rs.registrations[i].id, FailedArm, "required_bind_pending");
        }
      }
    }
  }

  lemma SameMissing(c: Config, a: seq<Slot>, b: seq<Slot>)
    requires |a| == |b| == |c.rs.registrations| && forall i :: 0 <= i < |a| ==> a[i].bound == b[i].bound
    ensures AllBound(c, a) <==> AllBound(c, b)
    ensures forall end :: FirstMissing(c, a, end) <==> FirstMissing(c, b, end)
  {
    forall i | 0 <= i < |a| ensures BindMissing(c, a, i) <==> BindMissing(c, b, i) {
    }
    hide BindMissing;
  }

  /** Taking the events out of the slots leaves what stopped an arm, and the binds. */
  lemma WithoutEventsSame(c: Config, slots: seq<Slot>)
    requires |slots| == |c.rs.registrations|
    ensures var taken := WithoutEvents(slots);
            && FirstTerminal(c.rs, taken, 0) == FirstTerminal(c.rs, slots, 0)
            && (AnyStopped(taken) <==> AnyStopped(slots))
            && (AllBound(c, taken) <==> AllBound(c, slots))
            && forall end :: FirstMissing(c, taken, end) <==> FirstMissing(c, slots, end)
  {
    var taken := WithoutEvents(slots);
    SameTerminal(c, slots, 0);
    assert forall i :: 0 <= i < |slots| ==>
        taken[i].bound == slots[i].bound && (Stopped(taken[i]) <==> Stopped(slots[i]));
    SameMissing(c, taken, slots);
    hide DropEvent, FirstTerminal, Stopped, BindMissing, AllBound, FirstMissing;
  }

  lemma {:induction false} SameTerminal(c: Config, slots: seq<Slot>, i: nat)
    requires |slots| == |c.rs.registrations|
    ensures FirstTerminal(c.rs, WithoutEvents(slots), i) == FirstTerminal(c.rs, slots, i)
    decreases |slots| - i
  {
    if i < |slots| {
      SameTerminal(c, slots, i + 1);
    }
  }

  // ----- The follow runner -----

  /** What a session in state `s` answers to a turn of the follow runner. */
  ghost predicate FollowTold(c: Config, s: Session, at: Instant, cancelled: bool, sinkOk: bool, answer: Answered)
    requires Shaped(c, s)
  {
    var barred := Lapsed(c, at) || Unproven(c);
    var back := TakesBack(c, s.slots, []);
    var open := !barred && !s.fault && !cancelled;
    var fed := open && (sinkOk || EventsOf(s.slots) == []);
    var stopped := AnyStopped(s.slots);
    && (answer == Some(Failure(LeaseExpired)) <==> Lapsed(c, at) && back)
    && (answer == Some(Failure(AuthnRequired)) <==> !Lapsed(c, at) && Unproven(c) && back)
    && (answer == Some(Failure(ObserverFault)) <==> !barred && s.fault && back)
    && (answer == Some(Success(Cancelled)) <==> !barred && !s.fault && cancelled && back)
    && (answer == Some(Failure(RestoreRefused)) <==> !open && !back)
    && (answer == Some(Failure(SinkRefused)) <==> open && !fed)
    && (forall end: End :: end.TerminalArm? ==>
          (answer == Some(Success(end)) <==>
             fed && if stopped then FirstStopped(c, s.slots, end) else Late(c, at) && FirstMissing(c, s.slots, end)))
    && (answer == Some(Success(Deadline)) <==> fed && !stopped && Late(c, at) && AllBound(c, s.slots))
    && (answer == None <==> fed && !stopped && !Late(c, at))
  }

  lemma GivenBack(c: Config, s: Session, unsunk: seq<Event>, result: Result<End, SessionError>)
    requires Shaped(c, s)
    ensures ResultOf(GiveBackAndEnd(c, s, unsunk, result).status) ==
            Some(if TakesBack(c, s.slots, unsunk) then result else Failure(RestoreRefused))
  {
    hide GiveBackAll, GiveBackHeld, HeldAccepted, AllAccepted;
  }

  lemma StoppedEnd(c: Config, slots: seq<Slot>)
    requires |slots| == |c.rs.registrations|
    ensures FirstTerminal(c.rs, slots, 0).Some? <==> AnyStopped(slots)
    ensures forall end :: FirstTerminal(c.rs, slots, 0) == Some(end) <==> FirstStopped(c, slots, end)
    ensures FirstTerminal(c.rs, slots, 0).Some? ==> FirstTerminal(c.rs, slots, 0).value.TerminalArm?
  {
    var k := FirstTerminalIs(c, slots, 0);
    if FirstTerminal(c.rs, slots, 0).Some? {
      TerminalTells(c.rs.registrations[k].id, slots[k].harvested.value);
    }
    hide FirstTerminal, Stopped, TerminalOf, Tells;
  }

  lemma MissingEnd(c: Config, slots: seq<Slot>)
    requires |slots| == |c.rs.registrations| && !AnyStopped(slots)
    ensures DeadlineEnd(c.rs, slots) == Deadline || DeadlineEnd(c.rs, slots).TerminalArm?
    ensures DeadlineEnd(c.rs, slots) == Deadline <==> AllBound(c, slots)
    ensures forall end: End :: end.TerminalArm? ==> (DeadlineEnd(c.rs, slots) == end <==> FirstMissing(c, slots, end))
  {
    DeadlineIs(c, slots);
    StoppedEnd(c, slots);
    hide PendingRequired, FirstTerminal, AnyStopped, BindMissing;
    if AllBound(c, slots) {
      forall end: End | end.TerminalArm? ensures !FirstMissing(c, slots, end) {
      }
    }
  }

  /** How a turn ends that has sunk its events: by a stopped arm, by the deadline,
      or not at all. */
  function LateAnswer(c: Config, slots: seq<Slot>, at: Instant): Answered
    requires |slots| == |c.rs.registrations|
  {
    match FirstTerminal(c.rs, slots, 0)
    case Some(end) => Some(Success(end))
    case None => if Late(c, at) then Some(Success(DeadlineEnd(c.rs, WithoutEvents(slots)))) else None
  }

  lemma LateAnswerTold(c: Config, slots: seq<Slot>, at: Instant)
    requires |slots| == |c.rs.registrations|
    ensures var answer, stopped := LateAnswer(c, slots, at), AnyStopped(slots);
            && (answer.Some? ==> answer.value.Success? && !answer.value.value.Cancelled?)
            && (forall end: End :: end.TerminalArm? ==>
                  (answer == Some(Success(end)) <==>
                     if stopped then FirstStopped(c, slots, end) else Late(c, at) && FirstMissing(c, slots, end)))
            && (answer == Some(Success(Deadline)) <==> !stopped && Late(c, at) && AllBound(c, slots))
            && (answer == None <==> !stopped && !Late(c, at))
  {
    WithoutEventsSame(c, slots);
    StoppedEnd(c, slots);
    if !AnyStopped(slots) {
      MissingEnd(c, WithoutEvents(slots));
    }
    hide WithoutEvents, FirstTerminal, DeadlineEnd, AnyStopped, AllBound, FirstMissing, FirstStopped;
  }

  lemma FollowAnswers(c: Config, s: Session, at: Instant, cancelled: bool, sinkOk: bool)
    requires Shaped(c, s) && s.status.Running?
    ensures var back: Result<End, SessionError> -> Answered :=
              result => Some(if TakesBack(c, s.slots, []) then result else Failure(RestoreRefused));
            ResultOf(FollowTurn(c, s, at, cancelled, sinkOk).status) ==
            if Lapsed(c, at) then back(Failure(LeaseExpired))
            else if Unproven(c) then back(Failure(AuthnRequired))
            else if s.fault then back(Failure(ObserverFault))
            else if cancelled then back(Success(Cancelled))
            else if EventsOf(s.slots) != [] && !sinkOk then Some(Failure(SinkRefused))
            else LateAnswer(c, s.slots, at)
  {
    PostureIs(c, at);
    WithoutEventsSame(c, s.slots);
    hide Posture, GiveBackAndEnd, EventsOf, WithoutEvents, FirstTerminal, DeadlineEnd, AnyStopped, AllBound,
      FirstMissing, TakesBack, Lapsed, Unproven, Rearm;
    GivenBack(c, s, [], Failure(LeaseExpired));
    GivenBack(c, s, [], Failure(AuthnRequired));
    GivenBack(c, s, [], Failure(ObserverFault));
    GivenBack(c, s, [], Success(Cancelled));
  }

  lemma FollowTurnTold(c: Config, s: Session, at: Instant, cancelled: bool, sinkOk: bool)
    requires Shaped(c, s) && s.status.Running?
    ensures FollowTold(c, s, at, cancelled, sinkOk, ResultOf(FollowTurn(c, s, at, cancelled, sinkOk).status))
  {
    FollowAnswers(c, s, at, cancelled, sinkOk);
    LateAnswerTold(c, s.slots, at);
    hide FollowTurn, LateAnswer, EventsOf, AnyStopped, AllBound, FirstMissing, FirstStopped, TakesBack, Lapsed,
      Unproven, Late, ResultOf;
  }

  // ----- A buffer that overflows -----

  /** The events that go into the buffer; with `aside`, urgent ones do not. */
  function Buffered(c: Config, events: seq<Event>, aside: bool): seq<Event> {
    if events == [] then []
    else (if aside && IsUrgent(c, events[0]) then [] else [events[0]]) + Buffered(c, events[1..], aside)
  }

  /** Event `k` may stay out of the buffer, or fits behind what went in before. */
  predicate Finds(c: Config, pending: seq<Event>, events: seq<Event>, aside: bool, k: nat)
    requires k < |events|
  {
    (aside && IsUrgent(c, events[k])) || Fits(c.rs, pending + Buffered(c, events[..k], aside), events[k])
  }

  /** Event `k` is the first that finds no room in the buffer. */
  predicate Spills(c: Config, pending: seq<Event>, events: seq<Event>, aside: bool, k: nat) {
    && k < |events| && !Finds(c, pending, events, aside, k)
    && forall j :: 0 <= j < k ==> Finds(c, pending, events, aside, j)
  }

  /** What is buffered once the first event has been dealt with. */
  function WithFirst(c: Config, pending: seq<Event>, e: Event, aside: bool): seq<Event> {
    if aside && IsUrgent(c, e) then pending else pending + [e]
  }

  lemma FindsLater(c: Config, pending: seq<Event>, events: seq<Event>, aside: bool, k: nat)
    requires 0 < k < |events|
    ensures Finds(c, pending, events, aside, k) <==>
            Finds(c, WithFirst(c, pending, events[0], aside), events[1..], aside, k - 1)
  {
    hide Fits, IsUrgent;
    var rest := Buffered(c, events[1..][..k - 1], aside);
    assert events[..k][0] == events[0] && events[..k][1..] == events[1..][..k - 1];
    assert pending + ([] + rest) == pending + rest && pending + ([events[0]] + rest) == pending + [events[0]] + rest;
  }

  lemma FindsFirst(c: Config, pending: seq<Event>, events: seq<Event>, aside: bool)
    requires events != []
    ensures Finds(c, pending, events, aside, 0) <==> (aside && IsUrgent(c, events[0])) || Fits(c.rs, pending, events[0])
  {
    hide Fits, IsUrgent;
    assert events[..0] == [] && pending + [] == pending;
  }

  lemma SpillsStep(c: Config, pending: seq<Event>, events: seq<Event>, aside: bool, k: nat)
    requires events != []
    ensures Spills(c, pending, events, aside, k) <==>
            if Finds(c, pending, events, aside, 0) then
              k > 0 && Spills(c, WithFirst(c, pending, events[0], aside), events[1..], aside, k - 1)
            else k == 0
  {
    hide Finds, WithFirst;
    var next := WithFirst(c, pending, events[0], aside);
    forall j: nat | j < |events| - 1
      ensures Finds(c, next, events[1..], aside, j) <==> Finds(c, pending, events, aside, j + 1)
    {
      FindsLater(c, pending, events, aside, j + 1);
    }
    if Finds(c, pending, events, aside, 0) && 0 < k && Spills(c, next, events[1..], aside, k - 1) {
      assert Finds(c, next, events[1..], aside, k - 1) <==> Finds(c, pending, events, aside, k - 1 + 1);
      forall j | 0 <= j < k ensures Finds(c, pending, events, aside, j) {
        if j > 0 {
          assert Finds(c, next, events[1..], aside, j - 1) <==> Finds(c, pending, events, aside, j - 1 + 1);
        }
      }
    }
  }

  /** A push overflows exactly when some event spills, and names its registration. */
  ghost predicate SpillTold(c: Config, pending: seq<Event>, events: seq<Event>, aside: bool, r: Pushed) {
    && (r.Full? ==> exists k: nat :: Spills(c, pending, events, aside, k))
    && (forall k: nat :: Spills(c, pending, events, aside, k) ==>
          r.Full? && k < |events| && r.id == events[k].registrationId)
  }

  lemma SpillToldStep(c: Config, pending: seq<Event>, events: seq<Event>, aside: bool, r: Pushed)
    requires events != []
    requires if Finds(c, pending, events, aside, 0) then
               SpillTold(c, WithFirst(c, pending, events[0], aside), events[1..], aside, r)
             else r.Full? && r.id == events[0].registrationId
    ensures SpillTold(c, pending, events, aside, r)
  {
    hide Finds, WithFirst, Spills;
    var next := WithFirst(c, pending, events[0], aside);
    forall k: nat | Spills(c, pending, events, aside, k)
      ensures r.Full? && k < |events| && r.id == events[k].registrationId
    {
      SpillsStep(c, pending, events, aside, k);
      SpillsInside(c, pending, events, aside, k);
    }
    if r.Full? {
      if Finds(c, pending, events, aside, 0) {
        var k: nat :| Spills(c, next, events[1..], aside, k);
        SpillsStep(c, pending, events, aside, k + 1);
      } else {
        SpillsStep(c, pending, events, aside, 0);
      }
    }
  }

  lemma SpillsInside(c: Config, pending: seq<Event>, events: seq<Event>, aside: bool, k: nat)
    requires Spills(c, pending, events, aside, k)
    ensures k < |events|
  {
  }

  lemma {:induction false} PushAllSpills(c: Config, pending: seq<Event>, events: seq<Event>)
    ensures SpillTold(c, pending, events, false, PushAll(c.rs, pending, events))
    decreases |events|
  {
    hide Fits, SpillTold, IsUrgent, Finds;
    if events == [] {
      NothingSpills(c, pending, false, []);
    } else {
      FindsFirst(c, pending, events, false);
      if Fits(c.rs, pending, events[0]) {
        PushAllSpills(c, pending + [events[0]], events[1..]);
      }
      SpillToldStep(c, pending, events, false, PushAll(c.rs, pending, events));
    }
  }

  lemma {:induction false} PushQuietSpills(c: Config, pending: seq<Event>, urgent: seq<Event>, events: seq<Event>)
    ensures SpillTold(c, pending, events, true, PushQuiet(c, pending, urgent, events))
    decreases |events|
  {
    hide Fits, SpillTold, IsUrgent, Finds;
    if events == [] {
      NothingSpills(c, pending, true, urgent);
    } else {
      FindsFirst(c, pending, events, true);
      if IsUrgent(c, events[0]) {
        PushQuietSpills(c, pending, urgent + [events[0]], events[1..]);
      } else if Fits(c.rs, pending, events[0]) {
        PushQuietSpills(c, pending + [events[0]], urgent, events[1..]);
      }
      SpillToldStep(c, pending, events, true, PushQuiet(c, pending, urgent, events));
    }
  }

  lemma NothingSpills(c: Config, pending: seq<Event>, aside: bool, urgent: seq<Event>)
    ensures SpillTold(c, pending, [], aside, Pushed(pending, urgent))
  {
  }

  // ----- The coalescing runner -----

  /** Whether the turn is the last one: it flushes the buffer. */
  ghost predicate LastTurn(c: Config, s: Session, at: Instant, cancelled: bool) {
    AnyStopped(s.slots) || cancelled || Late(c, at)
  }

  /** The quiet time has come, with what the turn takes. */
  predicate QuietDue(c: Config, s: Session, at: Instant) {
    Due(Cadence(c, at, s.quietAt, EventsOf(s.slots)), at)
  }

  /** Urgent events go to the sink ahead of the buffer. */
  ghost predicate GoesAhead(c: Config, s: Session, at: Instant, cancelled: bool) {
    && !LastTurn(c, s, at, cancelled) && !QuietDue(c, s, at)
    && exists e | e in EventsOf(s.slots) :: IsUrgent(c, e)
  }

  /** The turn has something for the sink. */
  ghost predicate Offers(c: Config, s: Session, at: Instant, cancelled: bool) {
    if LastTurn(c, s, at, cancelled) || QuietDue(c, s, at) then s.pending + EventsOf(s.slots) != []
    else GoesAhead(c, s, at, cancelled)
  }

  /** What a session in state `s` answers to a turn of the coalescing runner. */
  ghost predicate CoalesceTold(c: Config, s: Session, at: Instant, cancelled: bool, sinkOk: bool, answer: Answered)
    requires Shaped(c, s)
  {
    var events, aside := EventsOf(s.slots), GoesAhead(c, s, at, cancelled);
    var barred := Lapsed(c, at) || Unproven(c);
    var back := TakesBack(c, s.slots, s.pending);
    var backAll := AllAccepted(c, s.slots, s.pending + events);
    var open := !barred && !s.fault;
    var spilled := exists k: nat :: Spills(c, s.pending, events, aside, k);
    var fed := open && !spilled && (sinkOk || !Offers(c, s, at, cancelled));
    var stopped := AnyStopped(s.slots);
    && (answer == Some(Failure(LeaseExpired)) <==> Lapsed(c, at) && back)
    && (answer == Some(Failure(AuthnRequired)) <==> !Lapsed(c, at) && Unproven(c) && back)
    && (answer == Some(Failure(ObserverFault)) <==> !barred && s.fault && back)
    && (answer == Some(Failure(RestoreRefused)) <==> (!open && !back) || (open && spilled && !backAll))
    && (answer == Some(Failure(SinkRefused)) <==> open && !spilled && !fed)
    && (forall end: End :: end.TerminalArm? ==>
          (answer == Some(Success(end)) <==>
             if spilled then
               && open && backAll && end.kind == OverflowArm && end.reason == "buffer_overflow"
               && exists k: nat :: Spills(c, s.pending, events, aside, k) && end.id == events[k].registrationId
             else
               fed && if stopped then FirstStopped(c, s.slots, end) else Late(c, at) && FirstMissing(c, s.slots, end)))
    && (answer == Some(Success(Cancelled)) <==> fed && cancelled && !stopped && !Late(c, at))
    && (answer == Some(Success(Deadline)) <==> fed && !stopped && Late(c, at) && AllBound(c, s.slots))
    && (answer == None <==> fed && !LastTurn(c, s, at, cancelled))
  }

  /** What the push of a turn leads to. */
  ghost function TurnPush(c: Config, s: Session, at: Instant, cancelled: bool): Pushed {
    if GoesAhead(c, s, at, cancelled) then PushQuiet(c, s.pending, [], EventsOf(s.slots))
    else PushAll(c.rs, s.pending, EventsOf(s.slots))
  }

  lemma TurnPushSpills(c: Config, s: Session, at: Instant, cancelled: bool)
    ensures SpillTold(c, s.pending, EventsOf(s.slots), GoesAhead(c, s, at, cancelled), TurnPush(c, s, at, cancelled))
    ensures var r := TurnPush(c, s, at, cancelled);
            if r.Full? then forall e :: e in r.unsunk <==> e in s.pending + EventsOf(s.slots)
            else (GoesAhead(c, s, at, cancelled) || r.pending == s.pending + EventsOf(s.slots))
  {
    hide EventsOf, PushAll, PushQuiet, GoesAhead, SpillTold;
    var events := EventsOf(s.slots);
    PushAllSpills(c, s.pending, events);
    PushQuietSpills(c, s.pending, [], events);
    PushAllAppends(c.rs, s.pending, events);
    forall e | PushQuiet(c, s.pending, [], events).Full?
      ensures e in PushQuiet(c, s.pending, [], events).unsunk <==> e in s.pending + events
    {
      PushQuietMembers(c, s.pending, [], events, e);
    }
  }

  /** Without its events, a slot set takes back exactly what the observer takes back. */
  lemma SpilledBack(c: Config, slots: seq<Slot>, unsunk: seq<Event>, events: seq<Event>)
    requires |slots| == |c.rs.registrations| && forall e :: e in unsunk <==> e in events
    ensures TakesBack(c, WithoutEvents(slots), unsunk) <==> AllAccepted(c, slots, events)
  {
    var taken := WithoutEvents(slots);
    assert forall i :: 0 <= i < |taken| ==> Held(taken[i]) == [] && taken[i].bound == slots[i].bound;
    forall e ensures Home(c, taken, e) == Home(c, slots, e) {
    }
  }

  lemma SpilledAnswer(c: Config, slots: seq<Slot>, after: Session, unsunk: seq<Event>, events: seq<Event>, id: Id)
    requires Shaped(c, after) && |slots| == |c.rs.registrations| && after.slots == WithoutEvents(slots)
    requires forall e :: e in unsunk <==> e in events
    ensures ResultOf(GiveBackAndEnd(c, after, unsunk, OverflowEnd(id)).status) ==
            Some(if AllAccepted(c, slots, events) then OverflowEnd(id) else Failure(RestoreRefused))
  {
    hide *;
    SpilledBack(c, slots, unsunk, events);
    GivenBack(c, after, unsunk, OverflowEnd(id));
  }

  lemma FlushAnswers(c: Config, s: Session, at: Instant, cancelled: bool, sinkOk: bool)
    requires Shaped(c, s) && s.status.Running? && LastTurn(c, s, at, cancelled)
    ensures var taken := s.(slots := WithoutEvents(s.slots));
            var events := EventsOf(s.slots);
            var r := FinalFlush(c, taken, events, FirstTerminal(c.rs, taken.slots, 0), at, cancelled, sinkOk);
            ResultOf(r.status) ==
            match PushAll(c.rs, s.pending, events)
            case Full(_, id) =>
              Some(if AllAccepted(c, s.slots, s.pending + events) then OverflowEnd(id) else Failure(RestoreRefused))
            case Pushed(all, _) =>
              if all != [] && !sinkOk then Some(Failure(SinkRefused))
              else if LateAnswer(c, s.slots, at).Some? then LateAnswer(c, s.slots, at)
              else Some(Success(Cancelled))
  {
    var taken := s.(slots := WithoutEvents(s.slots));
    var events := EventsOf(s.slots);
    WithoutEventsSame(c, s.slots);
    StoppedEnd(c, s.slots);
    PushAllAppends(c.rs, s.pending, events);
    hide EventsOf, WithoutEvents, PushAll, FirstTerminal, DeadlineEnd, AnyStopped, AllBound, FirstMissing,
      FirstStopped, GiveBackAndEnd, AllAccepted;
    match PushAll(c.rs, s.pending, events)
    case Full(unsunk, id) =>
      SpilledAnswer(c, s.slots, taken, unsunk, s.pending + events, id);
    case Pushed(all, _) =>
  }

  lemma TurnAnswers(c: Config, s: Session, at: Instant, sinkOk: bool)
    requires !LastTurn(c, s, at, false)
    ensures var t := ApplyTurn(c, at, s.pending, s.quietAt, EventsOf(s.slots), sinkOk);
            match TurnPush(c, s, at, false)
            case Full(unsunk, id) => t.end == Overflowed(unsunk, id)
            case Pushed(_, _) => t.end == if Offers(c, s, at, false) && !sinkOk then SinkFailed else Continues
  {
    TurnPushSpills(c, s, at, false);
    hide EventsOf, PushAll, PushQuiet, IsUrgent, LastTurn, Cadence, SpillTold;
  }

  /** What a turn answers that posture and faults let through. */
  ghost function OpenAnswer(c: Config, s: Session, at: Instant, cancelled: bool, sinkOk: bool): Answered
    requires Shaped(c, s)
  {
    match TurnPush(c, s, at, cancelled)
    case Full(_, id) =>
      Some(if AllAccepted(c, s.slots, s.pending + EventsOf(s.slots)) then OverflowEnd(id) else Failure(RestoreRefused))
    case Pushed(_, _) =>
      if Offers(c, s, at, cancelled) && !sinkOk then Some(Failure(SinkRefused))
      else if !LastTurn(c, s, at, cancelled) then None
      else if LateAnswer(c, s.slots, at).Some? then LateAnswer(c, s.slots, at)
      else Some(Success(Cancelled))
  }

  lemma FlushTurn(c: Config, s: Session, at: Instant, cancelled: bool, sinkOk: bool)
    requires Shaped(c, s) && s.status.Running? && LastTurn(c, s, at, cancelled)
    requires Posture(c.rs, c.request, at).None? && !s.fault
    ensures ResultOf(Decide(c, s, at, cancelled, sinkOk).status) == OpenAnswer(c, s, at, cancelled, sinkOk)
  {
    WithoutEventsSame(c, s.slots);
    StoppedEnd(c, s.slots);
    TurnPushSpills(c, s, at, cancelled);
    hide Posture, EventsOf, WithoutEvents, PushAll, PushQuiet, FirstTerminal, AnyStopped, AllBound, FirstMissing,
      FirstStopped, GiveBackAndEnd, AllAccepted, ApplyTurn, FinalFlush, LateAnswer, SpillTold, IsUrgent, QuietDue;
    FlushAnswers(c, s, at, cancelled, sinkOk);
  }

  /** The session after a turn that was not the last, as far as it went. */
  function AfterTurn(c: Config, s: Session, at: Instant, sinkOk: bool): Session {
    var t := ApplyTurn(c, at, s.pending, s.quietAt, EventsOf(s.slots), sinkOk);
    s.(slots := WithoutEvents(s.slots), pending := t.pending, quietAt := t.quietAt, sunk := s.sunk + t.burst,
       quietEmits := if t.quiet then s.quietEmits + [at] else s.quietEmits)
  }

  lemma OtherStatus(c: Config, s: Session, at: Instant, cancelled: bool, sinkOk: bool)
    requires Shaped(c, s) && s.status.Running? && !LastTurn(c, s, at, cancelled)
    requires Posture(c.rs, c.request, at).None? && !s.fault
    ensures var end := ApplyTurn(c, at, s.pending, s.quietAt, EventsOf(s.slots), sinkOk).end;
            Decide(c, s, at, cancelled, sinkOk).status ==
            match end
            case Continues => Running
            case Overflowed(unsunk, id) =>
              GiveBackAndEnd(c, AfterTurn(c, s, at, sinkOk), unsunk, OverflowEnd(id)).status
            case SinkFailed => Ended(Failure(SinkRefused))
  {
    WithoutEventsSame(c, s.slots);
    StoppedEnd(c, s.slots);
    hide Posture, EventsOf, WithoutEvents, FirstTerminal, AnyStopped, AllBound, FirstMissing, FirstStopped,
      GiveBackAndEnd, ApplyTurn, FinalFlush, Rearm;
  }

  lemma OtherTurn(c: Config, s: Session, at: Instant, cancelled: bool, sinkOk: bool)
    requires Shaped(c, s) && s.status.Running? && !LastTurn(c, s, at, cancelled)
    requires Posture(c.rs, c.request, at).None? && !s.fault
    ensures ResultOf(Decide(c, s, at, cancelled, sinkOk).status) == OpenAnswer(c, s, at, cancelled, sinkOk)
  {
    assert !cancelled;
    OtherStatus(c, s, at, cancelled, sinkOk);
    TurnPushSpills(c, s, at, cancelled);
    TurnAnswers(c, s, at, sinkOk);
    hide Posture, EventsOf, WithoutEvents, LastTurn, GiveBackAndEnd, AllAccepted, ApplyTurn, LateAnswer, SpillTold,
      Offers, TurnPush, Decide;
    var t := ApplyTurn(c, at, s.pending, s.quietAt, EventsOf(s.slots), sinkOk);
    if t.end.Overflowed? {
      SpilledAnswer(c, s.slots, AfterTurn(c, s, at, sinkOk), t.end.unsunk, s.pending + EventsOf(s.slots), t.end.id);
    }
  }

  lemma DecideAnswers(c: Config, s: Session, at: Instant, cancelled: bool, sinkOk: bool)
    requires Shaped(c, s) && s.status.Running?
    ensures var back: Result<End, SessionError> -> Answered :=
              result => Some(if TakesBack(c, s.slots, s.pending) then result else Failure(RestoreRefused));
            ResultOf(Decide(c, s, at, cancelled, sinkOk).status) ==
            if Lapsed(c, at) then back(Failure(LeaseExpired))
            else if Unproven(c) then back(Failure(AuthnRequired))
            else if s.fault then back(Failure(ObserverFault))
            else OpenAnswer(c, s, at, cancelled, sinkOk)
  {
    PostureIs(c, at);
    if Lapsed(c, at) || Unproven(c) || s.fault {
      hide Posture, GiveBackAndEnd, EventsOf, FirstTerminal, TakesBack, Lapsed, Unproven, ApplyTurn, FinalFlush,
        WithoutEvents, Rearm, OpenAnswer;
      GivenBack(c, s, s.pending, Failure(LeaseExpired));
      GivenBack(c, s, s.pending, Failure(AuthnRequired));
      GivenBack(c, s, s.pending, Failure(ObserverFault));
    } else {
      hide Posture, Lapsed, Unproven, Decide, OpenAnswer, LastTurn, TakesBack;
      if LastTurn(c, s, at, cancelled) {
        FlushTurn(c, s, at, cancelled, sinkOk);
      } else {
        OtherTurn(c, s, at, cancelled, sinkOk);
      }
    }
  }

  lemma BarredTold(c: Config, s: Session, at: Instant, cancelled: bool, sinkOk: bool)
    requires Shaped(c, s) && (Lapsed(c, at) || Unproven(c) || s.fault)
    ensures CoalesceTold(c, s, at, cancelled, sinkOk,
                         Some(if !TakesBack(c, s.slots, s.pending) then Failure(RestoreRefused)
                              else if Lapsed(c, at) then Failure(LeaseExpired)
                              else if Unproven(c) then Failure(AuthnRequired)
                              else Failure(ObserverFault)))
  {
    hide EventsOf, AnyStopped, AllBound, FirstMissing, FirstStopped, TakesBack, AllAccepted, Lapsed, Unproven, Late,
      GoesAhead, Offers, Spills;
  }

  lemma SpilledTold(c: Config, s: Session, at: Instant, cancelled: bool, sinkOk: bool, id: Id)
    requires Shaped(c, s) && !Lapsed(c, at) && !Unproven(c) && !s.fault
    requires exists k: nat :: Spills(c, s.pending, EventsOf(s.slots), GoesAhead(c, s, at, cancelled), k)
    requires forall k: nat :: Spills(c, s.pending, EventsOf(s.slots), GoesAhead(c, s, at, cancelled), k) ==>
               k < |EventsOf(s.slots)| && EventsOf(s.slots)[k].registrationId == id
    ensures CoalesceTold(c, s, at, cancelled, sinkOk,
                         Some(if AllAccepted(c, s.slots, s.pending + EventsOf(s.slots)) then OverflowEnd(id)
                              else Failure(RestoreRefused)))
  {
    hide EventsOf, AnyStopped, AllBound, FirstMissing, FirstStopped, TakesBack, AllAccepted, Lapsed, Unproven, Late,
      GoesAhead, Offers, Spills;
  }

  lemma KeptTold(c: Config, s: Session, at: Instant, cancelled: bool, sinkOk: bool)
    requires Shaped(c, s) && !Lapsed(c, at) && !Unproven(c) && !s.fault && TurnPush(c, s, at, cancelled).Pushed?
    requires !exists k: nat :: Spills(c, s.pending, EventsOf(s.slots), GoesAhead(c, s, at, cancelled), k)
    ensures CoalesceTold(c, s, at, cancelled, sinkOk, OpenAnswer(c, s, at, cancelled, sinkOk))
  {
    LateAnswerTold(c, s.slots, at);
    hide LateAnswer, EventsOf, AnyStopped, AllBound, FirstMissing, FirstStopped, TakesBack, AllAccepted, Lapsed,
      Unproven, Late, TurnPush, GoesAhead, Offers, Spills;
  }

  lemma OpenTold(c: Config, s: Session, at: Instant, cancelled: bool, sinkOk: bool)
    requires Shaped(c, s) && !Lapsed(c, at) && !Unproven(c) && !s.fault
    ensures CoalesceTold(c, s, at, cancelled, sinkOk, OpenAnswer(c, s, at, cancelled, sinkOk))
  {
    TurnPushSpills(c, s, at, cancelled);
    hide LateAnswer, EventsOf, TurnPush, GoesAhead, Offers, Spills, CoalesceTold, LastTurn, AllAccepted;
    match TurnPush(c, s, at, cancelled)
    case Full(_, id) => SpilledTold(c, s, at, cancelled, sinkOk, id);
    case Pushed(_, _) => KeptTold(c, s, at, cancelled, sinkOk);
  }

  lemma CoalesceTurnTold(c: Config, s: Session, at: Instant, cancelled: bool, sinkOk: bool)
    requires Shaped(c, s) && s.status.Running?
    ensures CoalesceTold(c, s, at, cancelled, sinkOk, ResultOf(Decide(c, s, at, cancelled, sinkOk).status))
  {
    DecideAnswers(c, s, at, cancelled, sinkOk);
    hide *;
    if Lapsed(c, at) || Unproven(c) || s.fault {
      BarredTold(c, s, at, cancelled, sinkOk);
    } else {
      OpenTold(c, s, at, cancelled, sinkOk);
    }
  }

  // ----- Over every run -----

  /** What a move does to a running session: `answer` is how it ends it, if it does. */
  ghost predicate MoveTold(c: Config, s: Session, m: Move, follow: bool, answer: Answered)
    requires Shaped(c, s)
  {
    var back := TakesBack(c, s.slots, s.pending);
    match m
    case TurnAt(at, cancel, sinkOk) =>
      if follow then FollowTold(c, s, at, cancel, sinkOk, answer) else CoalesceTold(c, s, at, cancel, sinkOk, answer)
    case PostureCheck(at) =>
      && (answer == None <==> !Lapsed(c, at) && !Unproven(c))
      && (answer.Some? ==>
            answer.value == Failure(if !back then RestoreRefused else if Lapsed(c, at) then LeaseExpired
                                    else AuthnRequired))
    case CollectFails =>
      && (answer == None <==> !s.fault)
      && (answer.Some? ==> answer.value == Failure(if !back then RestoreRefused else ObserverFault))
    case _ => answer == None
  }

  lemma StepTold(c: Config, s: Session, m: Move, follow: bool)
    requires Shaped(c, s) && s.status.Running?
    ensures MoveTold(c, s, m, follow, ResultOf(Step(c, s, m, follow).status))
  {
    hide FollowTold, CoalesceTold, FollowTurn, Decide, GiveBackAndEnd, TakesBack, Lapsed, Unproven, Posture;
    match m
    case TurnAt(at, cancel, sinkOk) =>
      if follow {
        FollowTurnTold(c, s, at, cancel, sinkOk);
      } else {
        CoalesceTurnTold(c, s, at, cancel, sinkOk);
      }
    case PostureCheck(at) =>
      PostureIs(c, at);
      GivenBack(c, s, s.pending, Failure(LeaseExpired));
      GivenBack(c, s, s.pending, Failure(AuthnRequired));
    case CollectFails => GivenBack(c, s, s.pending, Failure(ObserverFault));
    case _ =>
  }

  /** In every reachable state of either runner, what any further move does. */
  lemma MovesOfARun(c: Config, queues: seq<seq<Event>>, moves: seq<Move>, m: Move, follow: bool)
    requires |queues| == |c.rs.registrations|
    requires Run(c, Start(c, queues), moves, follow).status.Running?
    ensures var s := Run(c, Start(c, queues), moves, follow);
            MoveTold(c, s, m, follow, ResultOf(Step(c, s, m, follow).status))
  {
    hide Run, MoveTold, Step;
    StepTold(c, Run(c, Start(c, queues), moves, follow), m, follow);
  }

  lemma {:induction false} EndedStays(c: Config, s: Session, moves: seq<Move>, follow: bool)
    requires Shaped(c, s) && s.status.Ended?
    ensures Run(c, s, moves, follow).status == s.status
    decreases |moves|
  {
    if moves != [] {
      EndedStays(c, Step(c, s, moves[0], follow), moves[1..], follow);
    }
  }

  /** A session that has ended was ended by one move, in the way its result tells. */
  lemma {:induction false} RunEnds(c: Config, s: Session, moves: seq<Move>, follow: bool) returns (k: nat)
    requires Shaped(c, s) && s.status.Running? && Run(c, s, moves, follow).status.Ended?
    ensures k < |moves|
    ensures var before := Run(c, s, moves[..k], follow);
            && before.status.Running?
            && MoveTold(c, before, moves[k], follow, Some(Run(c, s, moves, follow).status.result))
    decreases |moves|
  {
    hide Step, MoveTold;
    var next := Step(c, s, moves[0], follow);
    if next.status.Ended? {
      k := 0;
      assert moves[..0] == [];
      EndedStays(c, next, moves[1..], follow);
      StepTold(c, s, moves[0], follow);
    } else {
      var l := RunEnds(c, next, moves[1..], follow);
      k := l + 1;
      assert moves[..k][0] == moves[0] && moves[..k][1..] == moves[1..][..l];
    }
  }

  /** The same from the start of a session. */
  lemma SessionEnds(c: Config, queues: seq<seq<Event>>, moves: seq<Move>, follow: bool) returns (k: nat)
    requires |queues| == |c.rs.registrations| && Run(c, Start(c, queues), moves, follow).status.Ended?
    ensures k < |moves|
    ensures var before := Run(c, Start(c, queues), moves[..k], follow);
            && before.status.Running?
            && MoveTold(c, before, moves[k], follow, Some(Run(c, Start(c, queues), moves, follow).status.result))
  {
    hide Run, MoveTold;
    k := RunEnds(c, Start(c, queues), moves, follow);
  }

  lemma StepSinksInTime(c: Config, s: Session, m: Move, follow: bool)
    requires Shaped(c, s) && Step(c, s, m, follow).sunk != s.sunk
    ensures m.TurnAt? && m.sinkOk && !Lapsed(c, m.at) && !Unproven(c)
  {
    hide Lapsed, Unproven, EventsOf, WithoutEvents, PushAll, PushQuiet, FirstTerminal, DeadlineEnd, IsUrgent,
      GiveBackAll, GiveBackHeld, HeldAccepted, AllAccepted, Cadence, Rearm, Posture;
    if m.TurnAt? {
      PostureIs(c, m.at);
      assert s.sunk + [] == s.sunk;
      NoBurst(c, m.at, s.pending, s.quietAt, EventsOf(s.slots));
      hide ApplyTurn;
    }
  }

  /** A sink that refuses takes nothing. */
  lemma NoBurst(c: Config, at: Instant, pending: seq<Event>, quietAt: Option<Instant>, events: seq<Event>)
    ensures ApplyTurn(c, at, pending, quietAt, events, false).burst == []
  {
    hide PushAll, PushQuiet, IsUrgent, Cadence;
  }

  /** Over every run of either runner, a move that sinks events is a turn before
      every lease of the set ends, with the receipt that is asked for, and with a
      sink that accepts. */
  lemma SinksOnlyInTime(c: Config, queues: seq<seq<Event>>, moves: seq<Move>, follow: bool, k: nat)
    requires |queues| == |c.rs.registrations| && k < |moves|
    requires Run(c, Start(c, queues), moves[..k + 1], follow).sunk != Run(c, Start(c, queues), moves[..k], follow).sunk
    ensures moves[k].TurnAt? && moves[k].sinkOk
    ensures forall reg | reg in c.rs.registrations :: moves[k].at < reg.leaseExpiresAt
    ensures c.rs.authnRequired ==> c.request.hasReceipt
  {
    hide Step;
    var s := Run(c, Start(c, queues), moves[..k], follow);
    RunOneMore(c, Start(c, queues), moves, follow, k);
    StepSinksInTime(c, s, moves[k], follow);
  }

  lemma {:induction false} RunOneMore(c: Config, s: Session, moves: seq<Move>, follow: bool, k: nat)
    requires Shaped(c, s) && k < |moves|
    ensures Run(c, s, moves[..k + 1], follow) == Step(c, Run(c, s, moves[..k], follow), moves[k], follow)
    decreases k
  {
    hide Step;
    var next := Step(c, s, moves[0], follow);
    assert moves[..k + 1][0] == moves[0] && moves[..k + 1][1..] == moves[1..][..k];
    if k == 0 {
      assert moves[..0] == [] && moves[1..][..0] == [];
    } else {
      RunOneMore(c, next, moves[1..], follow, k - 1);
      assert moves[..k][0] == moves[0] && moves[..k][1..] == moves[1..][..k - 1];
    }
  }
}
