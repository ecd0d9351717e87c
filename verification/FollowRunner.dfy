/** The follow runner as it runs, on the same slots as the coalescing one. */
module FollowRunner {
  import opened Wrappers
  import opened Seam
  import opened HeldSession
  import opened HeldTiming
  import opened HeldRunner

  class Follower {
    const config: Config
    const slots: SlotSet
    var sunk: seq<Event>
    var status: Status
    var backoffStep: nat

    ghost predicate Valid()
      reads this, slots, slots.observer
    {
      slots.Valid() && slots.config == config
    }

    ghost function View(): Session
      reads this, slots, slots.observer
    {
      Session(slots.slots, slots.fault, slots.observer.queues, [], None, sunk, [], status)
    }

    constructor (config: Config, observer: Observer)
      requires observer.config == config && |observer.queues| == |config.rs.registrations|
      ensures Valid() && this.config == config && View() == Start(config, observer.queues)
      ensures slots.observer == observer && fresh(slots)
    {
      this.config := config;
      slots := new SlotSet(config, observer);
      sunk, status, backoffStep := [], Running, 0;
    }

    /** `finish_err` and `finish_cancel`: what the slots hold goes back first. */
    method FinishWith(result: Result<End, SessionError>)
      requires Valid()
      modifies this, slots, slots.observer
      ensures Valid() && View() == GiveBackAndEnd(config, old(View()), [], result)
    {
      hide GiveBackHeld, HeldAccepted;
      NothingUnsunk(config, slots.slots, GiveBackHeld(config, slots.slots, slots.observer.queues));
      var ok := slots.RestoreHeld();
      slots.fault := false;
      status := Ended(if ok then result else Failure(RestoreRefused));
      assert slots.slots == seq(|old(slots.slots)|,
                                i requires 0 <= i < |old(slots.slots)| => old(slots.slots)[i].(harvested := None));
    }

    /** `decide_turn`: posture, fault, cancel, then the burst, then how it ends. */
    method DecideTurn(now: Instant, cancelled: bool, sinkOk: bool)
      requires Valid() && status.Running?
      modifies this, slots, slots.observer
      ensures Valid() && View() == FollowTurn(config, old(View()), now, cancelled, sinkOk)
    {
      hide GiveBackAndEnd, Posture, EventsOf, FirstTerminal, DeadlineEnd;
      var posture := Posture(config.rs, config.request, now);
      if posture.Some? {
        FinishWith(Failure(posture.value));
        return;
      }
      if slots.fault {
        FinishWith(Failure(ObserverFault));
        return;
      }
      if cancelled {
        FinishWith(Success(Cancelled));
        return;
      }
      var events := slots.TakeEvents();
      var terminal := slots.FindTerminal();
      if events != [] {
        if !sinkOk {
          status := Ended(Failure(SinkRefused));
          return;
        }
        sunk := sunk + events;
      } else {
        assert sunk + events == sunk;
      }
      if terminal.Some? {
        status := Ended(Success(terminal.value));
      } else if AtDeadline(config.request, now) {
        status := Ended(Success(DeadlineEnd(config.rs, slots.slots)));
      } else {
        slots.RearmIdle();
      }
    }

    /** Wait until the cancel token wakes the session, or the timer, on time or late. */
    method Sleep(idle: bool, asked: Instant) returns (woken: bool, at: Instant)
      requires Valid()
      modifies this`backoffStep
      ensures Valid() && View() == old(View())
      ensures woken || (if idle then IdleSleep(config, View(), asked, backoffStep)
                        else SelectWake(config, View())) <= at
    {
      var until: Instant;
      if idle {
        backoffStep := backoffStep + 1;
        until := BackoffTime(config.rs, config.request, asked, backoffStep);
      } else {
        until := WakeTime(config.rs, config.request);
      }
      woken, at := *, *;
      if !woken {
        at := Fires(until);
      }
    }

    /** Nothing was ready: `on_wake` after the sleep of an idle turn, however that ends, or
        after the wake of the `select!`; or its cancel arm, which only polls. */
    method WaitAndDecide(cancelled: bool, sinkOk: bool) returns (ghost moves: seq<Move>)
      requires Valid() && status.Running?
      modifies this, slots, slots.observer
      ensures Valid() && View() == Run(config, old(View()), moves, true)
      ensures moves != [] && moves[|moves| - 1].TurnAt?
    {
      hide Run, Step, FollowTurn, IdleSleep, SelectWake;
      moves := [];
      ghost var start := View();
      StartOfRun(config, start, true);
      var idle := exists i | 0 <= i < |slots.slots| :: slots.slots[i].harvested.Some?;
      var asked: Instant := *;
      var woken, at := Sleep(idle, asked);
      var wakes := idle || !woken;
      if wakes {
        FollowMove(config, start, moves, View(), RearmIdle);
        slots.RearmIdle();
        moves := moves + [RearmIdle];
      }
      ghost var done := slots.PollAvailable(View(), true);
      RunConcat(config, start, moves, done, true);
      moves := moves + done;
      if wakes {
        done := slots.HarvestPollReady(View(), true);
        RunConcat(config, start, moves, done, true);
        moves := moves + done;
      }
      ghost var turn := TurnAt(at, cancelled || !wakes, sinkOk);
      FollowMove(config, start, moves, View(), turn);
      DecideTurn(at, cancelled || !wakes, sinkOk);
      moves := moves + [turn];
    }

    /** One pass of the loop; clock, cancel token, sink and the winner of the
        `select!` are arbitrary. When nothing was ready, a wake re-arms, polls and asks
        every arm before it decides; the cancel arm only polls. */
    method Pass() returns (ghost moves: seq<Move>)
      requires Valid() && status.Running?
      modifies this, slots, slots.observer
      ensures Valid() && View() == Run(config, old(View()), moves, true)
      ensures moves != [] && IsDecision(moves[|moves| - 1])
    {
      hide Run, Step, FollowTurn, GiveBackAndEnd, Posture;
      moves := [];
      ghost var start, done := View(), [];
      StartOfRun(config, start, true);
      var now: Instant, cancelled: bool := *, *;
      var posture := Posture(config.rs, config.request, now);
      if posture.Some? {
        FollowMove(config, start, moves, start, PostureCheck(now));
        FinishWith(Failure(posture.value));
        moves := moves + [PostureCheck(now)];
        return;
      }
      // No fault is left here: whatever set one has ended the session.
      if cancelled && !slots.fault {
        FollowMove(config, start, moves, start, TurnAt(now, true, true));
        FinishWith(Success(Cancelled));
        moves := moves + [TurnAt(now, true, true)];
        return;
      }
      // The collecting branch of the select! is polled before the others.
      done := slots.PollAvailable(View(), true);
      RunConcat(config, start, moves, done, true);
      moves := moves + done;
      var later: Instant, cancelArm: bool, sinkOk: bool := *, *, *;
      if slots.fault {
        posture := Posture(config.rs, config.request, later);
        ghost var ends := if posture.Some? then PostureCheck(later) else CollectFails;
        FollowMove(config, start, moves, View(), ends);
        FinishWith(Failure(if posture.Some? then posture.value else ObserverFault));
        moves := moves + [ends];
        return;
      }
      var ready := exists i | 0 <= i < |slots.slots| ::
        slots.slots[i].harvested.Some? && !slots.slots[i].harvested.value.Idle?;
      if !ready {
        done := WaitAndDecide(cancelArm, sinkOk);
        RunConcat(config, start, moves, done, true);
        moves := moves + done;
        return;
      }
      FollowMove(config, start, moves, View(), TurnAt(later, cancelArm, sinkOk));
      DecideTurn(later, cancelArm, sinkOk);
      moves := moves + [TurnAt(later, cancelArm, sinkOk)];
    }

    /** The session until it ends, or until its future is dropped after `passes`. */
    method RunUntil(passes: nat) returns (ghost moves: seq<Move>)
      requires Valid()
      modifies this, slots, slots.observer
      ensures Valid() && View() == Run(config, old(View()), moves, true)
      ensures status.Running? ==> Decisions(moves) >= passes
    {
      hide Run;
      moves := [];
      StartOfRun(config, View(), true);
      ghost var start := View();
      var left := passes;
      assert Decisions(moves) == 0;
      while left > 0 && status.Running?
        invariant Valid() && View() == Run(config, start, moves, true)
        invariant left <= passes && Decisions(moves) >= passes - left
      {
        ghost var done := Pass();
        RunConcat(config, start, moves, done, true);
        DecisionsAdd(moves, done);
        moves := moves + done;
        left := left - 1;
      }
    }
  }

  lemma NothingUnsunk(c: Config, slots: seq<Slot>, queues: seq<seq<Event>>)
    requires |slots| == |queues| == |c.rs.registrations|
    ensures GiveBackAll(c, slots, queues, []) == queues && AllAccepted(c, slots, [])
  {
  }

  /** The runner's own moves, as the session machine takes them. */
  lemma OwnSteps(c: Config, s: Session, m: Move)
    requires Shaped(c, s) && s.status.Running? && s.pending == []
    ensures m.RearmIdle? ==> Step(c, s, m, true) == s.(slots := Rearm(s.slots))
    ensures m.TurnAt? ==> Step(c, s, m, true) == FollowTurn(c, s, m.at, m.cancel, m.sinkOk)
    ensures m.PostureCheck? && Posture(c.rs, c.request, m.at).Some? ==>
              Step(c, s, m, true) == GiveBackAndEnd(c, s, [], Failure(Posture(c.rs, c.request, m.at).value))
    ensures m.CollectFails? && s.fault ==> Step(c, s, m, true) == GiveBackAndEnd(c, s, [], Failure(ObserverFault))
    ensures m.TurnAt? && m.cancel && !s.fault && Posture(c.rs, c.request, m.at).None? ==>
              Step(c, s, m, true) == GiveBackAndEnd(c, s, [], Success(Cancelled))
  {
    hide Harvest, Rearm, Decide, GiveBackAndEnd, Posture, EventsOf, FirstTerminal;
  }

  lemma FollowMove(c: Config, start: Session, done: seq<Move>, s: Session, m: Move)
    requires Shaped(c, start) && s == Run(c, start, done, true) && s.status.Running? && s.pending == []
    ensures Run(c, start, done + [m], true) == Step(c, s, m, true)
    ensures m.RearmIdle? ==> Step(c, s, m, true) == s.(slots := Rearm(s.slots))
    ensures m.TurnAt? ==> Step(c, s, m, true) == FollowTurn(c, s, m.at, m.cancel, m.sinkOk)
    ensures m.PostureCheck? && Posture(c.rs, c.request, m.at).Some? ==>
              Step(c, s, m, true) == GiveBackAndEnd(c, s, [], Failure(Posture(c.rs, c.request, m.at).value))
    ensures m.CollectFails? && s.fault ==> Step(c, s, m, true) == GiveBackAndEnd(c, s, [], Failure(ObserverFault))
    ensures m.TurnAt? && m.cancel && !s.fault && Posture(c.rs, c.request, m.at).None? ==>
              Step(c, s, m, true) == GiveBackAndEnd(c, s, [], Success(Cancelled))
  {
    hide *;
    RunOne(c, start, done, m, true);
    OwnSteps(c, s, m);
  }
}
