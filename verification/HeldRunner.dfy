/** The held-session runners as they run: the pending buffer with its counters,
    the slot set over an observer, and the turn logic of `coalesce.rs`, each
    proved against `HeldSession`. Choices of the environment (which future is
    ready, what the clock reads, whether the sink accepts) are arbitrary. */
module HeldRunner {
  import opened Wrappers
  import opened Seam
  import opened HeldSession
  import opened HeldTiming

  // ----- Pending -----

  lemma SaturatedAdds(a: nat, b: nat)
    ensures SaturatingAdd(Saturated(a), b) == Saturated(a + b)
  {
  }

  class PendingBuffer {
    var events: seq<Event>
    var totalEvents: u64
    var totalBytes: u64
    var perEvents: map<Id, u64>
    var perBytes: map<Id, u64>

    /** The counters are the saturated totals over the buffered events. */
    ghost predicate Valid()
      reads this
    {
      && totalEvents == Saturated(|events|)
      && totalBytes == Saturated(TotalBytes(events))
      && (forall id :: Counter(perEvents, id) == Saturated(|WithId(events, id)|))
      && (forall id :: Counter(perBytes, id) == Saturated(TotalBytes(WithId(events, id))))
    }

    static function Counter(m: map<Id, u64>, id: Id): u64 {
      if id in m then m[id] else 0
    }

    constructor ()
      ensures Valid() && events == []
    {
      events, totalEvents, totalBytes, perEvents, perBytes := [], 0, 0, map[], map[];
    }

    method Take() returns (taken: seq<Event>)
      requires Valid()
      modifies this
      ensures Valid() && events == [] && taken == old(events)
    {
      taken := events;
      events, totalEvents, totalBytes, perEvents, perBytes := [], 0, 0, map[], map[];
    }

    /** Buffer an event and count it. */
    method Push(e: Event)
      requires Valid()
      modifies this
      ensures Valid() && events == old(events) + [e]
    {
      hide TotalBytes, WithId, SurfaceBytes, Saturated;
      var id, bytes := e.registrationId, SurfaceBytes(e);
      ghost var mine := WithId(events, id);
      SaturatedAdds(|events|, 1);
      SaturatedAdds(TotalBytes(events), bytes);
      SaturatedAdds(|mine|, 1);
      SaturatedAdds(TotalBytes(mine), bytes);
      TotalsOfPush(events, e);
      TotalsOfPush(mine, e);
      totalEvents, totalBytes := SaturatingAdd(totalEvents, 1), SaturatingAdd(totalBytes, bytes);
      perEvents := perEvents[id := SaturatingAdd(Counter(perEvents, id), 1)];
      perBytes := perBytes[id := SaturatingAdd(Counter(perBytes, id), bytes)];
      events := events + [e];
    }

    /** `Some(id)` names the registration of an event that does not fit. */
    method TryPush(rs: RegistrationSet, e: Event) returns (full: Option<Id>)
      requires Valid()
      modifies this
      ensures Valid()
      ensures full == if Fits(rs, old(events), e) then None else Some(e.registrationId)
      ensures events == if full.None? then old(events) + [e] else old(events)
    {
      hide TotalBytes, WithId, SurfaceBytes, Saturated;
      var id, bytes := e.registrationId, SurfaceBytes(e);
      SaturatedAdds(|events|, 1);
      SaturatedAdds(TotalBytes(events), bytes);
      if SaturatingAdd(totalEvents, 1) > rs.maxEvents || SaturatingAdd(totalBytes, bytes) > rs.maxBytes {
        return Some(id);
      }
      var at := IndexOf(rs.registrations, id);
      if at.None? {
        return Some(id);
      }
      var reg := rs.registrations[at.value];
      ghost var mine := WithId(events, id);
      SaturatedAdds(|mine|, 1);
      SaturatedAdds(TotalBytes(mine), bytes);
      if SaturatingAdd(Counter(perEvents, id), 1) > reg.maxEvents ||
         SaturatingAdd(Counter(perBytes, id), bytes) > reg.maxBytes
      {
        return Some(id);
      }
      Push(e);
      return None;
    }
  }

  // ----- The observer, one queue per bind -----

  class Observer {
    var queues: seq<seq<Event>>
    const config: Config

    constructor (config: Config, queues: seq<seq<Event>>)
      ensures this.config == config && this.queues == queues
    {
      this.config := config;
      this.queues := queues;
    }

    /** Push an event back at the front, unless the observer refuses it. */
    method RestoreReady(i: nat, e: Event) returns (ok: bool)
      requires i < |queues|
      modifies this
      ensures ok == config.accepts(i, e) && queues == GiveBack(config, old(queues), i, e)
    {
      ok := config.accepts(i, e);
      if ok {
        queues := queues[i := [e] + queues[i]];
      }
    }
  }

  // ----- Slots -----

  function Weight(s: Slot): nat {
    (if s.binding then 2 else 0) + (if s.waiting then 1 else 0)
  }

  /** Polling work left: two for a live bind future, one for a live `next`. */
  function Work(slots: seq<Slot>): nat {
    if slots == [] then 0 else Weight(slots[0]) + Work(slots[1..])
  }

  lemma {:induction false} WorkOfUpdate(slots: seq<Slot>, i: nat, s: Slot)
    requires i < |slots|
    ensures Work(slots[i := s]) == Work(slots) - Weight(slots[i]) + Weight(s)
  {
    if i == 0 {
      assert slots[0 := s][1..] == slots[1..];
    } else {
      assert slots[i := s][1..] == slots[1..][i - 1 := s];
      WorkOfUpdate(slots[1..], i - 1, s);
    }
  }

  lemma {:induction false} RunConcat(c: Config, s: Session, a: seq<Move>, b: seq<Move>, follow: bool)
    requires Shaped(c, s)
    ensures Run(c, Run(c, s, a, follow), b, follow) == Run(c, s, a + b, follow)
    decreases |a|
  {
    hide Step;
    if a == [] {
      assert a + b == b;
    } else {
      assert (a + b)[1..] == a[1..] + b;
      RunConcat(c, Step(c, s, a[0], follow), a[1..], b, follow);
    }
  }

  lemma StartOfRun(c: Config, s: Session, follow: bool)
    requires Shaped(c, s)
    ensures Run(c, s, [], follow) == s
  {
  }

  lemma RunOne(c: Config, s: Session, done: seq<Move>, m: Move, follow: bool)
    requires Shaped(c, s)
    ensures Run(c, s, done + [m], follow) == Step(c, Run(c, s, done, follow), m, follow)
  {
    hide Step;
    RunConcat(c, s, done, [m], follow);
    assert [m][1..] == [];
  }

  lemma HeldIs(s: Slot)
    ensures Held(s) == if s.harvested.Some? && s.harvested.value.Observed? then [s.harvested.value.event] else []
  {
  }

  lemma SameHome(c: Config, slots: seq<Slot>, slots': seq<Slot>, e: Event)
    requires |slots| == |slots'| == |c.rs.registrations|
    requires forall k :: 0 <= k < |slots| ==> slots[k].bound == slots'[k].bound
    ensures Home(c, slots, e) == Home(c, slots', e)
  {
  }

  class SlotSet {
    const config: Config
    const observer: Observer
    var slots: seq<Slot>
    var fault: bool

    ghost predicate Valid()
      reads this, observer
    {
      && observer.config == config
      && |slots| == |observer.queues| == |config.rs.registrations|
    }

    /** `base` with this slot set in place of its own. */
    ghost function Seen(base: Session): Session
      reads this, observer
    {
      base.(slots := slots, fault := fault, queues := observer.queues)
    }

    constructor (config: Config, observer: Observer)
      requires observer.config == config && |observer.queues| == |config.rs.registrations|
      ensures Valid() && this.config == config && this.observer == observer
      ensures slots == FreshSlots(|config.rs.registrations|) && !fault
    {
      this.config := config;
      this.observer := observer;
      slots := FreshSlots(|config.rs.registrations|);
      fault := false;
    }

    method TakeEvents() returns (events: seq<Event>)
      modifies this
      ensures events == EventsOf(old(slots)) && slots == WithoutEvents(old(slots)) && fault == old(fault)
    {
      hide Held;
      events := [];
      var i := 0;
      while i < |slots|
        invariant i <= |slots| == |old(slots)| && fault == old(fault)
        invariant slots[i..] == old(slots)[i..]
        invariant forall k :: 0 <= k < i ==> slots[k] == DropEvent(old(slots)[k])
        invariant events + EventsOf(slots[i..]) == EventsOf(old(slots))
      {
        assert slots[i..][1..] == slots[i + 1..];
        assert slots[i] == old(slots)[i];
        HeldIs(slots[i]);
        if slots[i].harvested.Some? && slots[i].harvested.value.Observed? {
          events := events + [slots[i].harvested.value.event];
          slots := slots[i := slots[i].(harvested := None)];
        }
        i := i + 1;
      }
      assert EventsOf(slots[i..]) == [];
    }

    method FindTerminal() returns (end: Option<End>)
      requires Valid()
      ensures end == FirstTerminal(config.rs, slots, 0)
    {
      for i := 0 to |slots|
        invariant FirstTerminal(config.rs, slots, i) == FirstTerminal(config.rs, slots, 0)
      {
        if slots[i].harvested.Some? {
          end := TerminalOf(config.rs.registrations[i].id, slots[i].harvested.value);
          if end.Some? {
            return;
          }
        }
      }
      end := None;
    }

    /** Give back what the slots hold, then `pending` newest first; every restore
        is attempted, and `ok` says that none was refused. */
    method RestoreCustody(pending: seq<Event>) returns (ok: bool)
      requires Valid()
      modifies this, observer
      ensures Valid() && fault == old(fault)
      ensures observer.queues ==
                GiveBackAll(config, old(slots), GiveBackHeld(config, old(slots), old(observer.queues)), pending)
      ensures slots == seq(|old(slots)|, i requires 0 <= i < |old(slots)| => old(slots)[i].(harvested := None))
      ensures ok == (HeldAccepted(config, old(slots)) && AllAccepted(config, old(slots), pending))
    {
      hide Home, Held, HeldAccepted, GiveBackHeld;
      ok := RestoreHeld();
      ghost var held := observer.queues;
      var i := |pending|;
      assert pending[..i] == pending;
      while i > 0
        invariant Valid() && 0 <= i <= |pending| && fault == old(fault)
        invariant |slots| == |old(slots)|
        invariant forall k :: 0 <= k < |slots| ==> slots[k] == old(slots)[k].(harvested := None)
        invariant GiveBackAll(config, old(slots), observer.queues, pending[..i]) ==
                    GiveBackAll(config, old(slots), held, pending)
        invariant ok == (HeldAccepted(config, old(slots)) && AllAccepted(config, old(slots), pending[i..]))
      {
        i := i - 1;
        var e := pending[i];
        assert pending[..i + 1][..i] == pending[..i];
        assert forall x :: x in pending[i..] <==> x == e || x in pending[i + 1..];
        var home := Home(config, slots, e);
        SameHome(config, slots, old(slots), e);
        if home.Some? {
          var taken := observer.RestoreReady(home.value, e);
          ok := ok && taken;
        }
      }
      assert pending[0..] == pending;
    }

    method RestoreHeld() returns (ok: bool)
      requires Valid()
      modifies this, observer
      ensures Valid() && fault == old(fault) && |slots| == |old(slots)|
      ensures observer.queues == GiveBackHeld(config, old(slots), old(observer.queues))
      ensures forall k :: 0 <= k < |slots| ==> slots[k] == old(slots)[k].(harvested := None)
      ensures ok == HeldAccepted(config, old(slots))
    {
      ok := true;
      ghost var goal := GiveBackHeld(config, old(slots), old(observer.queues));
      var i := 0;
      while i < |slots|
        invariant Valid() && i <= |slots| == |old(slots)| && fault == old(fault)
        invariant forall k :: 0 <= k < |slots| ==>
                    slots[k] == if k < i then old(slots)[k].(harvested := None) else old(slots)[k]
        invariant forall k :: 0 <= k < |slots| ==>
                    observer.queues[k] == if k < i then goal[k] else old(observer.queues)[k]
        invariant ok <==>
                  forall k :: 0 <= k < i && Held(old(slots)[k]) != [] ==> config.accepts(k, Held(old(slots)[k])[0])
      {
        var obs := slots[i].harvested;
        slots := slots[i := slots[i].(harvested := None)];
        assert goal[i] == if Held(old(slots)[i]) != [] && config.accepts(i, Held(old(slots)[i])[0])
                          then Held(old(slots)[i]) + old(observer.queues)[i] else old(observer.queues)[i];
        if obs.Some? && obs.value.Observed? {
          assert Held(old(slots)[i]) == [obs.value.event];
          var taken := observer.RestoreReady(i, obs.value.event);
          ok := ok && taken;
        }
        i := i + 1;
      }
    }

    method RearmIdle()
      modifies this
      ensures slots == Rearm(old(slots)) && fault == old(fault)
    {
      var i := 0;
      while i < |slots|
        invariant i <= |slots| == |old(slots)| && fault == old(fault)
        invariant forall k :: 0 <= k < |slots| ==> slots[k] == if k < i then RearmSlot(old(slots)[k]) else old(slots)[k]
      {
        if slots[i].harvested.Some? && !slots[i].harvested.value.Observed? {
          slots := slots[i := slots[i].(harvested := None)];
        }
        if slots[i].bound && !slots[i].waiting && slots[i].harvested.None? {
          slots := slots[i := slots[i].(waiting := true)];
        }
        i := i + 1;
      }
    }

    /** Take what the observer hands over for slot `i`. */
    method Accept(i: nat, answer: Answer) returns (took: bool)
      requires Valid() && i < |slots| && slots[i].harvested.None?
      modifies this, observer
      ensures Valid() && took == slots[i].harvested.Some?
      ensures forall base :: Seen(base) == old(Harvest(Seen(base), i, answer))
    {
      if answer.Head? {
        if observer.queues[i] != [] {
          slots := slots[i := slots[i].(waiting := false, harvested := Some(Observed(observer.queues[i][0])))];
          observer.queues := observer.queues[i := observer.queues[i][1..]];
        }
      } else if !answer.obs.Observed? {
        slots := slots[i := slots[i].(waiting := false, harvested := Some(answer.obs))];
      }
      took := slots[i].harvested.Some?;
    }

    /** The bind future of slot `i` may complete, fail or stay pending. */
    method PollBind(i: nat, ghost base: Session, follow: bool) returns (progressed: bool, ghost moves: seq<Move>)
      requires Valid() && base.status.Running? && i < |slots| && slots[i].harvested.None?
      modifies this
      ensures Valid() && slots[i].harvested.None?
      ensures Seen(base) == Run(config, old(Seen(base)), moves, follow)
      ensures if progressed then Work(slots) < old(Work(slots)) else Work(slots) <= old(Work(slots))
    {
      hide Work, Run;
      StartOfRun(config, Seen(base), follow);
      progressed, moves := false, [];
      if slots[i].binding {
        var answer: Option<bool> := *;
        if answer.Some? {
          var ok := answer.value;
          moves := [if ok then BindReady(i) else BindFails(i)];
          RunOne(config, Seen(base), [], moves[0], follow);
          assert [] + [moves[0]] == moves;
          var slot := slots[i].(binding := false, bound := slots[i].bound || ok, waiting := slots[i].waiting || ok);
          WorkOfUpdate(slots, i, slot);
          slots := slots[i := slot];
          fault := fault || !ok;
          progressed := ok;
        }
      }
    }

    /** The `next` future of slot `i` may yield, fail or stay pending. */
    method PollNext(i: nat, ghost base: Session, follow: bool) returns (progressed: bool, ghost moves: seq<Move>)
      requires Valid() && base.status.Running? && i < |slots| && slots[i].harvested.None?
      modifies this, observer
      ensures Valid() && Seen(base) == Run(config, old(Seen(base)), moves, follow)
      ensures if progressed then Work(slots) < old(Work(slots)) else Work(slots) <= old(Work(slots))
    {
      hide Work, Run;
      StartOfRun(config, Seen(base), follow);
      progressed, moves := false, [];
      if slots[i].waiting {
        var ready: bool := *;
        var answer: Answer := *;
        var failed: bool := *;
        if ready {
          moves := [NextReady(i, answer)];
          RunOne(config, Seen(base), [], moves[0], follow);
          assert [] + [moves[0]] == moves;
          ghost var before := slots;
          progressed := Accept(i, answer);
          if progressed {
            WorkOfUpdate(before, i, slots[i]);
          }
        } else if failed {
          moves := [NextFails(i)];
          RunOne(config, Seen(base), [], moves[0], follow);
          assert [] + [moves[0]] == moves;
          WorkOfUpdate(slots, i, slots[i].(waiting := false));
          slots := slots[i := slots[i].(waiting := false)];
          fault := true;
        }
      }
    }

    /** Poll bind futures and `next` futures until a pass makes no progress. The
        futures answer as they like, yet the passes are at most two per bind and
        one per `next`, and what they do is a run of the session machine. */
    method PollAvailable(ghost base: Session, follow: bool) returns (ghost moves: seq<Move>)
      requires Valid() && base.status.Running?
      modifies this, observer
      ensures Valid() && Seen(base) == Run(config, old(Seen(base)), moves, follow)
      ensures Work(slots) <= old(Work(slots))
    {
      hide Run, Step, Work;
      moves := [];
      StartOfRun(config, Seen(base), follow);
      var progressed := true;
      while progressed
        invariant Valid() && Seen(base) == Run(config, old(Seen(base)), moves, follow)
        invariant Work(slots) <= old(Work(slots))
        decreases Work(slots), progressed
      {
        progressed := false;
        ghost var work := Work(slots);
        var i := 0;
        while i < |slots|
          invariant Valid() && i <= |slots| && Seen(base) == Run(config, old(Seen(base)), moves, follow)
          invariant if progressed then Work(slots) < work else Work(slots) <= work
        {
          if slots[i].harvested.None? {
            ghost var done;
            var bound, yielded;
            bound, done := PollBind(i, base, follow);
            RunConcat(config, old(Seen(base)), moves, done, follow);
            moves := moves + done;
            yielded, done := PollNext(i, base, follow);
            RunConcat(config, old(Seen(base)), moves, done, follow);
            moves := moves + done;
            progressed := progressed || bound || yielded;
          }
          i := i + 1;
        }
      }
    }

    method HarvestPollReady(ghost base: Session, follow: bool) returns (ghost moves: seq<Move>)
      requires Valid() && base.status.Running?
      modifies this, observer
      ensures Valid() && Seen(base) == Run(config, old(Seen(base)), moves, follow)
    {
      moves := [];
      var i := 0;
      while i < |slots|
        invariant Valid() && i <= |slots| && Seen(base) == Run(config, old(Seen(base)), moves, follow)
      {
        if slots[i].harvested.None? && slots[i].bound {
          var ready: bool := *;
          var answer: Answer := *;
          if ready {
            RunOne(config, old(Seen(base)), moves, PollReady(i, answer), follow);
            var _ := Accept(i, answer);
            moves := moves + [PollReady(i, answer)];
          }
        }
        i := i + 1;
      }
    }
  }

  // ----- The coalescing runner -----

  // ----- Timers -----

  /** `earliest_wake`: a pass over the leases. */
  method WakeTime(rs: RegistrationSet, request: Request) returns (t: Instant)
    ensures t == EarliestWake(rs, request)
  {
    t := EarliestDeadline(request);
    var i := |rs.registrations|;
    ghost var deadline := t;
    assert rs.registrations[i..] == [];
    while i > 0
      invariant i <= |rs.registrations|
      invariant t == match EarliestLease(rs.registrations[i..])
                     case None => deadline
                     case Some(lease) => if lease < deadline then lease else deadline
    {
      i := i - 1;
      var lease := rs.registrations[i].leaseExpiresAt;
      assert rs.registrations[i..][0] == rs.registrations[i] && rs.registrations[i..][1..] == rs.registrations[i + 1..];
      if lease < t {
        t := lease;
      }
    }
    assert rs.registrations[0..] == rs.registrations;
  }

  /** `backoff_deadline`. */
  method BackoffTime(rs: RegistrationSet, request: Request, now: Instant, step: nat) returns (t: Instant)
    ensures t == BackoffDeadline(rs, request, now, step)
  {
    t := After(now, BackoffDelay(step));
    var cap := WakeTime(rs, request);
    if t >= cap {
      t := cap;
    }
  }

  /** A timer set for `until` fires then or later. */
  method Fires(until: Instant) returns (at: Instant)
    ensures until <= at
  {
    at := *;
    if at < until {
      at := until;
    }
  }

  class Coalescer {
    const config: Config
    const slots: SlotSet
    const pending: PendingBuffer
    var quietAt: Option<Instant>
    var sunk: seq<Event>
    var quietEmits: seq<Instant>
    var status: Status
    var backoffStep: nat

    ghost predicate Valid()
      reads this, slots, slots.observer, pending
    {
      slots.Valid() && slots.config == config && pending.Valid()
    }

    ghost function View(): Session
      reads this, slots, slots.observer, pending
    {
      Session(slots.slots, slots.fault, slots.observer.queues, pending.events, quietAt, sunk, quietEmits, status)
    }

    constructor (config: Config, observer: Observer)
      requires observer.config == config && |observer.queues| == |config.rs.registrations|
      ensures Valid() && this.config == config && View() == Start(config, observer.queues)
      ensures slots.observer == observer && fresh(slots) && fresh(pending)
    {
      this.config := config;
      slots := new SlotSet(config, observer);
      pending := new PendingBuffer();
      quietAt, sunk, quietEmits, status, backoffStep := None, [], [], Running, 0;
    }

    /** The sink; `ok` is its answer. */
    method OnBurst(events: seq<Event>, ok: bool)
      modifies this`sunk
      ensures sunk == old(sunk) + if ok then events else []
    {
      if ok {
        sunk := sunk + events;
      }
    }

    /** Push every event. On overflow the buffer is emptied into what is unsunk. */
    method PushEach(events: seq<Event>) returns (r: Pushed)
      requires Valid()
      modifies pending
      ensures Valid() && r == PushAll(config.rs, old(pending.events), events)
      ensures pending.events == if r.Pushed? then r.pending else []
    {
      hide Fits;
      var i := 0;
      while i < |events|
        invariant i <= |events| && pending.Valid()
        invariant PushAll(config.rs, pending.events, events[i..]) == PushAll(config.rs, old(pending.events), events)
      {
        assert events[i..][1..] == events[i + 1..];
        var full := pending.TryPush(config.rs, events[i]);
        if full.Some? {
          var unsunk := pending.Take();
          assert unsunk + [events[i]] + events[i + 1..] == unsunk + events[i..];
          return Full(unsunk + [events[i]] + events[i + 1..], full.value);
        }
        i := i + 1;
      }
      assert events[i..] == [];
      return Pushed(pending.events, []);
    }

    /** Set the urgent events aside and push the others. */
    method PushQuietEach(events: seq<Event>) returns (r: Pushed)
      requires Valid()
      modifies pending
      ensures Valid() && r == PushQuiet(config, old(pending.events), [], events)
      ensures pending.events == if r.Pushed? then r.pending else []
    {
      hide Fits, IsUrgent;
      var urgent := [];
      var i := 0;
      while i < |events|
        invariant i <= |events| && pending.Valid()
        invariant PushQuiet(config, pending.events, urgent, events[i..]) ==
                    PushQuiet(config, old(pending.events), [], events)
      {
        assert events[i..][1..] == events[i + 1..];
        if IsUrgent(config, events[i]) {
          urgent := urgent + [events[i]];
        } else {
          var full := pending.TryPush(config.rs, events[i]);
          if full.Some? {
            var unsunk := pending.Take();
            return Full(unsunk + [events[i]] + urgent + events[i + 1..], full.value);
          }
        }
        i := i + 1;
      }
      assert events[i..] == [];
      return Pushed(pending.events, urgent);
    }

    method EmitPending(now: Instant, sinkOk: bool) returns (end: TurnEnd)
      requires Valid()
      modifies this, pending
      ensures Valid() && status == old(status)
      ensures Took(now, end, EmitQuiet(config, now, old(pending.events), old(quietAt), sinkOk), old(View()))
    {
      if pending.events == [] {
        return Continues;
      }
      var events := pending.Take();
      OnBurst(events, sinkOk);
      if !sinkOk {
        return SinkFailed;
      }
      quietAt := Some(After(now, config.policy.minEmitInterval));
      quietEmits := quietEmits + [now];
      return Continues;
    }

    method BufferAndEmit(now: Instant, events: seq<Event>, sinkOk: bool) returns (end: TurnEnd)
      requires Valid()
      modifies this, pending
      ensures Valid() && status == old(status)
      ensures Took(now, end, BufferTurn(config, now, old(pending.events), old(quietAt), events, sinkOk), old(View()))
    {
      hide PushAll, TotalBytes, WithId;
      var r := PushEach(events);
      if r.Full? {
        return Overflowed(r.unsunk, r.id);
      }
      if Due(quietAt, now) {
        end := EmitPending(now, sinkOk);
        return;
      }
      return Continues;
    }

    method SinkUrgent(now: Instant, events: seq<Event>, sinkOk: bool) returns (end: TurnEnd)
      requires Valid()
      modifies this, pending
      ensures Valid() && status == old(status)
      ensures Took(now, end, UrgentTurn(config, old(pending.events), old(quietAt), events, sinkOk), old(View()))
    {
      hide PushQuiet, TotalBytes, WithId;
      var r := PushQuietEach(events);
      if r.Full? {
        return Overflowed(r.unsunk, r.id);
      }
      OnBurst(r.urgent, sinkOk);
      if !sinkOk {
        var _ := pending.Take();
        return SinkFailed;
      }
      return Continues;
    }

    /** The runner now stands where turn `t`, taken at `now` from `before`, leaves it. */
    ghost predicate Took(now: Instant, end: TurnEnd, t: Turn, before: Session)
      reads this, slots, slots.observer, pending
    {
      && end == t.end
      && View() == before.(pending := t.pending, quietAt := t.quietAt, sunk := before.sunk + t.burst,
                           quietEmits := if t.quiet then before.quietEmits + [now] else before.quietEmits)
    }

    method TakeTurn(now: Instant, events: seq<Event>, sinkOk: bool) returns (end: TurnEnd)
      requires Valid()
      modifies this, pending
      ensures Valid() && status == old(status)
      ensures Took(now, end, ApplyTurn(config, now, old(pending.events), old(quietAt), events, sinkOk), old(View()))
    {
      hide IsUrgent, PushQuiet, PushAll, UrgentTurn, EmitQuiet, After, TotalBytes, WithId;
      if events == [] {
        PushNothing(config.rs, pending.events);
        EmitNothing(config, now, quietAt, sinkOk);
        if Due(quietAt, now) && pending.events != [] {
          end := EmitPending(now, sinkOk);
          return;
        }
        return Continues;
      }
      if quietAt.None? && exists e | e in events :: !IsUrgent(config, e) {
        quietAt := Some(After(now, config.policy.minEmitInterval));
      }
      if exists e | e in events :: IsUrgent(config, e) {
        if Due(quietAt, now) {
          end := BufferAndEmit(now, events, sinkOk);
        } else {
          end := SinkUrgent(now, events, sinkOk);
        }
        return;
      }
      end := BufferAndEmit(now, events, sinkOk);
    }

    /** Give everything back and end; a refused restore becomes the result. */
    method RestoreAndEnd(unsunk: seq<Event>, result: Result<End, SessionError>)
      requires Valid()
      modifies this, slots, slots.observer, pending
      ensures Valid() && View() == GiveBackAndEnd(config, old(View()), unsunk, result)
    {
      hide GiveBackAll, GiveBackHeld, HeldAccepted, AllAccepted;
      var _ := pending.Take();
      var ok := slots.RestoreCustody(unsunk);
      slots.fault := false;
      status := Ended(if ok then result else Failure(RestoreRefused));
    }

    method Flush(events: seq<Event>, terminal: Option<End>, now: Instant, cancelled: bool, sinkOk: bool)
      requires Valid()
      modifies this, slots, slots.observer, pending
      ensures Valid() && View() == FinalFlush(config, old(View()), events, terminal, now, cancelled, sinkOk)
    {
      hide GiveBackAndEnd, PushAll, DeadlineEnd, Fits;
      var r := PushEach(events);
      if r.Full? {
        GiveBackIgnoresPending(config, View(), old(View()), r.unsunk, OverflowEnd(r.id));
        RestoreAndEnd(r.unsunk, OverflowEnd(r.id));
        return;
      }
      if pending.events != [] {
        var all := pending.Take();
        OnBurst(all, sinkOk);
        if !sinkOk {
          status := Ended(Failure(SinkRefused));
          return;
        }
      } else {
        assert old(sunk) + [] == old(sunk);
      }
      if terminal.Some? {
        status := Ended(Success(terminal.value));
      } else if AtDeadline(config.request, now) {
        status := Ended(Success(DeadlineEnd(config.rs, slots.slots)));
      } else if cancelled {
        status := Ended(Success(Cancelled));
      } else {
        status := Ended(Success(Deadline));
      }
    }

    /** `decide_coalesce`: posture, fault, then the turn or the final flush. */
    method DecideTurn(now: Instant, cancelled: bool, sinkOk: bool)
      requires Valid() && status.Running?
      modifies this, slots, slots.observer, pending
      ensures Valid() && View() == Decide(config, old(View()), now, cancelled, sinkOk)
    {
      hide GiveBackAndEnd, PushAll, FinalFlush, ApplyTurn, Posture, EventsOf, Fits, FirstTerminal;
      var posture := Posture(config.rs, config.request, now);
      if posture.Some? {
        RestoreAndEnd(pending.events, Failure(posture.value));
        return;
      }
      if slots.fault {
        RestoreAndEnd(pending.events, Failure(ObserverFault));
        return;
      }
      var events := slots.TakeEvents();
      var terminal := slots.FindTerminal();
      if terminal.Some? || cancelled || AtDeadline(config.request, now) {
        Flush(events, terminal, now, cancelled, sinkOk);
        return;
      }
      var end := TakeTurn(now, events, sinkOk);
      match end
      case Continues => slots.RearmIdle();
      case Overflowed(unsunk, id) => RestoreAndEnd(unsunk, OverflowEnd(id));
      case SinkFailed => status := Ended(Failure(SinkRefused));
    }

    /** Optionally re-arm, then poll through `next` and `poll_ready`, then decide. */
    method PollAndDecide(rearm: bool, now: Instant, cancelled: bool, sinkOk: bool) returns (ghost moves: seq<Move>)
      requires Valid() && status.Running?
      modifies this, slots, slots.observer, pending
      ensures Valid() && View() == Run(config, old(View()), moves, false)
      ensures moves != [] && moves[|moves| - 1] == TurnAt(now, cancelled, sinkOk)
    {
      hide Run, Step, Decide;
      moves := [];
      ghost var start := View();
      StartOfRun(config, start, false);
      if rearm {
        RearmMove(config, start, moves, View());
        slots.RearmIdle();
        moves := moves + [RearmIdle];
      }
      ghost var done := slots.PollAvailable(View(), false);
      RunConcat(config, start, moves, done, false);
      moves := moves + done;
      done := slots.HarvestPollReady(View(), false);
      RunConcat(config, start, moves, done, false);
      moves := moves + done;
      TurnMove(config, start, moves, View(), now, cancelled, sinkOk);
      DecideTurn(now, cancelled, sinkOk);
      moves := moves + [TurnAt(now, cancelled, sinkOk)];
    }

    /** Where the sleep of an idle turn ends. */
    method IdleUntil(now: Instant) returns (until: Instant)
      requires Valid()
      modifies this`backoffStep
      ensures Valid() && View() == old(View()) && backoffStep == old(backoffStep) + 1
      ensures until == IdleSleep(config, View(), now, backoffStep)
    {
      backoffStep := backoffStep + 1;
      until := BackoffTime(config.rs, config.request, now, backoffStep);
      if pending.events != [] && quietAt.Some? && quietAt.value < until {
        until := quietAt.value;
      }
    }

    /** Where the first timer of the `select!` fires. */
    method WaitUntil() returns (until: Instant)
      requires Valid()
      ensures until == SelectWake(config, View())
    {
      until := WakeTime(config.rs, config.request);
      if pending.events != [] && quietAt.Some? && quietAt.value < until {
        until := quietAt.value;
      }
    }

    /** Wait until the cancel token wakes the session, or the timer, on time or late. */
    method Sleep(idle: bool, asked: Instant) returns (woken: bool, at: Instant)
      requires Valid()
      modifies this`backoffStep
      ensures Valid() && View() == old(View())
      ensures woken || (if idle then IdleSleep(config, View(), asked, backoffStep)
                        else SelectWake(config, View())) <= at
    {
      var until: Instant;
      if idle {
        until := IdleUntil(asked);
      } else {
        until := WaitUntil();
      }
      woken, at := *, *;
      if !woken {
        at := Fires(until);
      }
    }

    /** The sleep of an idle turn, or the cancel arm and the timers of the `select!`. */
    method WaitAndDecide(cancelled: bool, sinkOk: bool) returns (ghost moves: seq<Move>)
      requires Valid() && status.Running?
      modifies this, slots, slots.observer, pending
      ensures Valid() && View() == Run(config, old(View()), moves, false)
      ensures moves != [] && moves[|moves| - 1].TurnAt?
    {
      hide Run, IdleSleep, SelectWake;
      var idle := exists i | 0 <= i < |slots.slots| :: slots.slots[i].harvested.Some?;
      var asked: Instant := *;
      var woken, at := Sleep(idle, asked);
      moves := PollAndDecide(idle || !woken, at, cancelled || (woken && !idle), sinkOk);
    }

    /** One pass of the session loop. The clock, the cancel token, the sink and
        the winner of the `select!` are arbitrary. */
    method Pass() returns (ghost moves: seq<Move>)
      requires Valid() && status.Running?
      modifies this, slots, slots.observer, pending
      ensures Valid() && View() == Run(config, old(View()), moves, false)
      ensures moves != [] && IsDecision(moves[|moves| - 1])
    {
      hide Run, Step, Decide, GiveBackAndEnd, Posture;
      moves := [];
      ghost var start := View();
      StartOfRun(config, start, false);
      ghost var done: seq<Move>;
      var now: Instant, cancelled: bool, sinkOk: bool := *, *, *;
      var posture := Posture(config.rs, config.request, now);
      if posture.Some? {
        PostureMove(config, start, moves, start, now);
        moves := moves + [PostureCheck(now)];
        RestoreAndEnd(pending.events, Failure(posture.value));
        return;
      }
      if cancelled || AtDeadline(config.request, now) || (pending.events != [] && Due(quietAt, now)) {
        moves := PollAndDecide(false, now, cancelled, sinkOk);
        if status.Ended? {
          return;
        }
      }
      // The collecting branch of the select! is polled before the others.
      done := slots.PollAvailable(View(), false);
      RunConcat(config, start, moves, done, false);
      moves := moves + done;
      var later: Instant, cancelArm: bool, sinkOk': bool := *, *, *;
      if slots.fault {
        posture := Posture(config.rs, config.request, later);
        if posture.Some? {
          PostureMove(config, start, moves, View(), later);
          RestoreAndEnd(pending.events, Failure(posture.value));
          moves := moves + [PostureCheck(later)];
        } else {
          CollectMove(config, start, moves, View());
          RestoreAndEnd(pending.events, Failure(ObserverFault));
          moves := moves + [CollectFails];
        }
      } else if exists i | 0 <= i < |slots.slots| ::
                slots.slots[i].harvested.Some? && !slots.slots[i].harvested.value.Idle?
      {
        TurnMove(config, start, moves, View(), later, cancelArm, sinkOk');
        DecideTurn(later, cancelArm, sinkOk');
        moves := moves + [TurnAt(later, cancelArm, sinkOk')];
      } else {
        done := WaitAndDecide(cancelArm, sinkOk');
        RunConcat(config, start, moves, done, false);
        moves := moves + done;
      }
    }

    /** The session until it ends, or until its future is dropped after `passes`. */
    method RunUntil(passes: nat) returns (ghost moves: seq<Move>)
      requires Valid()
      modifies this, slots, slots.observer, pending
      ensures Valid() && View() == Run(config, old(View()), moves, false)
      ensures status.Running? ==> Decisions(moves) >= passes
    {
      hide Run;
      moves := [];
      StartOfRun(config, View(), false);
      ghost var start := View();
      var left := passes;
      assert Decisions(moves) == 0;
      while left > 0 && status.Running?
        invariant Valid() && View() == Run(config, start, moves, false)
        invariant left <= passes && Decisions(moves) >= passes - left
      {
        ghost var done := Pass();
        RunConcat(config, start, moves, done, false);
        DecisionsAdd(moves, done);
        moves := moves + done;
        left := left - 1;
      }
    }
  }

  /** A move that may end the session: a turn, or a check that fails closed. */
  predicate IsDecision(m: Move) {
    m.TurnAt? || m.PostureCheck? || m.CollectFails?
  }

  function Decisions(moves: seq<Move>): nat {
    if moves == [] then 0 else Decisions(moves[..|moves| - 1]) + if IsDecision(moves[|moves| - 1]) then 1 else 0
  }

  lemma {:induction false} DecisionsAdd(a: seq<Move>, b: seq<Move>)
    ensures Decisions(a + b) >= Decisions(a) + if b != [] && IsDecision(b[|b| - 1]) then 1 else 0
  {
    if b == [] {
      assert a + b == a;
    } else {
      assert (a + b)[..|a + b| - 1] == a + b[..|b| - 1];
      DecisionsAdd(a, b[..|b| - 1]);
    }
  }

  lemma EmitNothing(c: Config, now: Instant, quietAt: Option<Instant>, sinkOk: bool)
    ensures EmitQuiet(c, now, [], quietAt, sinkOk) == Turn([], quietAt, [], false, Continues)
  {
  }

  lemma PushNothing(rs: RegistrationSet, pending: seq<Event>)
    ensures PushAll(rs, pending, []) == Pushed(pending, [])
  {
  }

  lemma StepRearm(c: Config, s: Session)
    requires Shaped(c, s) && s.status.Running?
    ensures Step(c, s, RearmIdle, false) == s.(slots := Rearm(s.slots))
  {
    hide Harvest, Rearm, Decide, FollowTurn, GiveBackAndEnd, Posture;
  }

  lemma StepTurn(c: Config, s: Session, now: Instant, cancelled: bool, sinkOk: bool)
    requires Shaped(c, s) && s.status.Running?
    ensures Step(c, s, TurnAt(now, cancelled, sinkOk), false) == Decide(c, s, now, cancelled, sinkOk)
  {
    hide Harvest, Rearm, Decide, FollowTurn, GiveBackAndEnd, Posture;
  }

  lemma StepPosture(c: Config, s: Session, now: Instant)
    requires Shaped(c, s) && s.status.Running? && Posture(c.rs, c.request, now).Some?
    ensures Step(c, s, PostureCheck(now), false)
         == GiveBackAndEnd(c, s, s.pending, Failure(Posture(c.rs, c.request, now).value))
  {
    hide Harvest, Rearm, Decide, FollowTurn, GiveBackAndEnd, Posture;
  }

  lemma StepCollect(c: Config, s: Session)
    requires Shaped(c, s) && s.status.Running? && s.fault
    ensures Step(c, s, CollectFails, false) == GiveBackAndEnd(c, s, s.pending, Failure(ObserverFault))
  {
    hide Harvest, Rearm, Decide, FollowTurn, GiveBackAndEnd, Posture;
  }

  /** The moves the runner makes by itself, unfolded at the end of a run. */
  lemma RearmMove(c: Config, start: Session, done: seq<Move>, s: Session)
    requires Shaped(c, start) && s == Run(c, start, done, false) && s.status.Running?
    ensures Run(c, start, done + [RearmIdle], false) == s.(slots := Rearm(s.slots))
  {
    hide *;
    RunOne(c, start, done, RearmIdle, false);
    StepRearm(c, s);
  }

  lemma TurnMove(c: Config, start: Session, done: seq<Move>, s: Session, now: Instant, cancelled: bool, sinkOk: bool)
    requires Shaped(c, start) && s == Run(c, start, done, false) && s.status.Running?
    ensures Run(c, start, done + [TurnAt(now, cancelled, sinkOk)], false) == Decide(c, s, now, cancelled, sinkOk)
  {
    hide *;
    RunOne(c, start, done, TurnAt(now, cancelled, sinkOk), false);
    StepTurn(c, s, now, cancelled, sinkOk);
  }

  lemma PostureMove(c: Config, start: Session, done: seq<Move>, s: Session, now: Instant)
    requires Shaped(c, start) && s == Run(c, start, done, false) && s.status.Running?
    requires Posture(c.rs, c.request, now).Some?
    ensures Run(c, start, done + [PostureCheck(now)], false)
         == GiveBackAndEnd(c, s, s.pending, Failure(Posture(c.rs, c.request, now).value))
  {
    hide *;
    RunOne(c, start, done, PostureCheck(now), false);
    StepPosture(c, s, now);
  }

  lemma CollectMove(c: Config, start: Session, done: seq<Move>, s: Session)
    requires Shaped(c, start) && s == Run(c, start, done, false) && s.status.Running? && s.fault
    ensures Run(c, start, done + [CollectFails], false) == GiveBackAndEnd(c, s, s.pending, Failure(ObserverFault))
  {
    hide *;
    RunOne(c, start, done, CollectFails, false);
    StepCollect(c, s);
  }

  lemma GiveBackIgnoresPending(c: Config, s: Session, t: Session, unsunk: seq<Event>, result: Result<End, SessionError>)
    requires Shaped(c, t) && s == t.(pending := s.pending)
    ensures GiveBackAndEnd(c, s, unsunk, result) == GiveBackAndEnd(c, t, unsunk, result)
  {
  }
}
