/** The races inside the two wait machines: what `RaceOver`, `ObserveOver` and the
    harvests say of a race is what `Race.PollRace` gives after any number of polls. */
module RaceLink {
  import opened Wrappers
  import opened Seam
  import opened Race
  import FM = FirstMatch
  import PC = PollCycle

  // ----- One race -----

  /** `observation_is_terminal`, on a value that carries its observation. */
  function Terminal<T>(view: T -> Observation): T -> bool {
    v => !view(v).Idle?
  }

  /** The observation behind an answer. */
  function Said<T>(view: T -> Observation, a: Answered<T>): Option<Observation> {
    if a.Yields? then Some(view(a.value)) else None
  }

  /** All polls of a race have one answer per arm. */
  ghost predicate Wide<T>(n: nat, polls: seq<seq<Answered<T>>>) {
    forall k :: 0 <= k < |polls| ==> |polls[k]| == n
  }

  /** What each arm of a race said by the end of `polls`. */
  function SaidBy<T>(n: nat, view: T -> Observation, polls: seq<seq<Answered<T>>>): (r: seq<Option<Observation>>)
    requires Wide(n, polls)
    ensures |r| == n && forall l :: 0 <= l < n ==> r[l] == Said(view, FirstAnswer(polls, l))
  {
    seq(n, l requires 0 <= l < n => Said(view, FirstAnswer(polls, l)))
  }

  /** Some arm said something terminal, or every arm said something. */
  predicate Enough(said: seq<Option<Observation>>) {
    || (exists l :: 0 <= l < |said| && said[l].Some? && !said[l].value.Idle?)
    || (forall l :: 0 <= l < |said| ==> said[l].Some?)
  }

  /** The machine's answers of the arms in `arms` are those. */
  ghost predicate Saw(queues: seq<seq<Event>>, raced: seq<Option<Seam.Answer>>, arms: seq<nat>,
                      said: seq<Option<Observation>>)
    requires |queues| == |raced| && |arms| == |said|
  {
    forall l :: 0 <= l < |arms| ==> arms[l] < |queues| && ObservationAt(queues, raced, arms[l]) == said[l]
  }

  /** An answer, once given, stays. */
  lemma AnswerStays<T>(polls: seq<seq<Answered<T>>>, more: seq<Answered<T>>, l: nat)
    requires (forall k :: 0 <= k < |polls| ==> l < |polls[k]|) && l < |more|
    requires !FirstAnswer(polls, l).Pending?
    ensures FirstAnswer(polls + [more], l) == FirstAnswer(polls, l)
  {
    FirstAnswerOfAppend(polls, more, l);
  }

  /** A race that ended without an error has a terminal value, or all arms answered. */
  lemma EndedRace<T>(n: nat, view: T -> Observation, polls: seq<seq<Answered<T>>>, first: seq<Answered<T>>,
                     second: seq<Answered<T>>)
    requires Wide(n, polls) && |first| == |second| == n && StillPending(n, Terminal(view), polls)
    requires var out := PollRace(Polled(n, polls), Terminal(view), first, second); out.Some? && out.value.error.None?
    ensures Enough(SaidBy(n, view, polls + [first] + [second]))
  {
    var arms, all := Polled(n, polls), polls + [first] + [second];
    var after, said := PollArms(arms, first), SaidBy(n, view, all);
    assert FirstError(arms, first, 0).None? && Settled(after, Terminal(view));
    forall l | 0 <= l < n && !after[l].Waiting?
      ensures after[l].Done? && after[l].slot.Some? && said[l] == Some(view(after[l].slot.value))
    {
      ArmAfter(n, polls, first, l);
      PendingHoldsNothingTerminal(n, Terminal(view), polls, l);
      NoErrorAt(arms, first, 0, l);
      AnswerStays(polls + [first], second, l);
    }
    if l :| 0 <= l < n && Holds(after[l], Terminal(view)) {
      assert !said[l].value.Idle?;
    }
  }

  lemma ArmAfter<T>(n: nat, polls: seq<seq<Answered<T>>>, first: seq<Answered<T>>, l: nat)
    requires Wide(n, polls) && |first| == n && l < n
    ensures PollArms(Polled(n, polls), first)[l] == PollArm(Waiting, FirstAnswer(polls + [first], l))
  {
    PolledByArm(n, polls, l);
    FirstAnswerOfAppend(polls, first, l);
  }

  /** While it is pending, some arm has not answered and none has a terminal value. */
  lemma PendingRace<T>(n: nat, view: T -> Observation, polls: seq<seq<Answered<T>>>, first: seq<Answered<T>>,
                       second: seq<Answered<T>>)
    requires Wide(n, polls) && |first| == |second| == n
    requires PollRace(Polled(n, polls), Terminal(view), first, second).None?
    ensures !Enough(SaidBy(n, view, polls + [first]))
  {
    var after, said := PollArms(Polled(n, polls), first), SaidBy(n, view, polls + [first]);
    forall l | 0 <= l < n
      ensures after[l] == PollArm(Waiting, FirstAnswer(polls + [first], l)) && !Holds(after[l], Terminal(view))
    {
      ArmAfter(n, polls, first, l);
    }
    var l :| 0 <= l < n && after[l].Waiting?;
    assert said[l].None?;
  }

  // ----- The live wait -----

  /** Every arm, in order. */
  function Everyone(n: nat): (r: seq<nat>)
    ensures |r| == n && forall i :: 0 <= i < n ==> r[i] == i
  {
    seq(n, i => i)
  }

  function Seen<T>(ready: seq<(nat, T)>, view: T -> Observation): seq<FM.Entry> {
    if ready == [] then [] else [(ready[0].0, view(ready[0].1))] + Seen(ready[1..], view)
  }

  function Told<T>(view: T -> Observation, arm: Arm<T>): Option<Observation> {
    if arm.Done? && arm.slot.Some? then Some(view(arm.slot.value)) else None
  }

  lemma {:induction false} CollectIsEntries<T>(queues: seq<seq<Event>>, raced: seq<Option<Seam.Answer>>,
                                               view: T -> Observation,
                                               after: seq<Arm<T>>, second: seq<Answered<T>>,
                                               said: seq<Option<Observation>>, i: nat)
    requires |queues| == |raced| == |after| == |second| == |said|
    requires forall l :: 0 <= l < |queues| ==> ObservationAt(queues, raced, l) == said[l]
    requires forall l :: 0 <= l < |queues| ==> said[l] == Told(view, PollArm(after[l], second[l]))
    ensures Seen(Collect(after, second, i), view) == FM.Entries(queues, raced, FM.Nobody(|queues|), i)
    decreases |queues| - i
  {
    if i < |queues| {
      CollectIsEntries(queues, raced, view, after, second, said, i + 1);
      var rest := Collect(after, second, i + 1);
      var arm := PollArm(after[i], second[i]);
      if arm.Done? && arm.slot.Some? {
        assert ([(i, arm.slot.value)] + rest)[1..] == rest;
      } else {
        assert [] + rest == rest;
      }
    }
  }

  lemma LiveRaceIsOverIff(queues: seq<seq<Event>>, raced: seq<Option<Seam.Answer>>, said: seq<Option<Observation>>)
    requires |queues| == |raced| == |said| && Saw(queues, raced, Everyone(|queues|), said)
    ensures FM.RaceOver(queues, raced) <==> Enough(said)
  {
    hide ObservationAt;
    var everyone := Everyone(|queues|);
    forall l | 0 <= l < |queues| ensures ObservationAt(queues, raced, l) == said[l] {
      assert everyone[l] == l;
    }
  }

  /** A race of the live wait that ends, after any number of polls, hands over the
      entries of the machine; without an error it is over for the machine too. */
  lemma LiveRaceEnds<T>(queues: seq<seq<Event>>, raced: seq<Option<Seam.Answer>>, view: T -> Observation,
                        polls: seq<seq<Answered<T>>>, first: seq<Answered<T>>, second: seq<Answered<T>>)
    requires var n := |queues|;
             |raced| == n && Wide(n, polls) && |first| == |second| == n && StillPending(n, Terminal(view), polls)
    requires PollRace(Polled(|queues|, polls), Terminal(view), first, second).Some?
    requires Saw(queues, raced, Everyone(|queues|), SaidBy(|queues|, view, polls + [first] + [second]))
    ensures var out := PollRace(Polled(|queues|, polls), Terminal(view), first, second).value;
            && Seen(out.ready, view) == FM.Entries(queues, raced, FM.Nobody(|queues|), 0)
            && (out.error.None? ==> FM.RaceOver(queues, raced))
  {
    var n := |queues|;
    var after, said := PollArms(Polled(n, polls), first), SaidBy(n, view, polls + [first] + [second]);
    HarvestCollects(n, Terminal(view), polls, first, second);
    if PollRace(Polled(n, polls), Terminal(view), first, second).value.error.None? {
      EndedRace(n, view, polls, first, second);
      LiveRaceIsOverIff(queues, raced, said);
    }
    hide *;
    forall l | 0 <= l < n
      ensures said[l] == Told(view, PollArm(after[l], second[l])) && ObservationAt(queues, raced, l) == said[l]
    {
      ArmAtEnd(n, polls, first, second, l);
      ToldIsSaid(view, FirstAnswer(polls + [first] + [second], l));
      SawAt(queues, raced, said, l);
    }
    CollectIsEntries(queues, raced, view, after, second, said, 0);
  }

  lemma ToldIsSaid<T>(view: T -> Observation, a: Answered<T>)
    ensures Told(view, PollArm(Waiting, a)) == Said(view, a)
  {
  }

  lemma SawAt(queues: seq<seq<Event>>, raced: seq<Option<Seam.Answer>>, said: seq<Option<Observation>>, l: nat)
    requires |queues| == |raced| == |said| && Saw(queues, raced, Everyone(|queues|), said) && l < |queues|
    ensures ObservationAt(queues, raced, l) == said[l]
  {
    assert Everyone(|queues|)[l] == l;
  }

  lemma ArmAtEnd<T>(n: nat, polls: seq<seq<Answered<T>>>, first: seq<Answered<T>>, second: seq<Answered<T>>, l: nat)
    requires Wide(n, polls) && |first| == |second| == n && l < n
    ensures PollArm(PollArms(Polled(n, polls), first)[l], second[l]) ==
              PollArm(Waiting, FirstAnswer(polls + [first] + [second], l))
  {
    ArmAfter(n, polls, first, l);
    FirstAnswerOfAppend(polls + [first], second, l);
  }

  lemma HarvestCollects<T>(n: nat, isTerminal: T -> bool, polls: seq<seq<Answered<T>>>, first: seq<Answered<T>>,
                           second: seq<Answered<T>>)
    requires Wide(n, polls) && |first| == |second| == n
    requires PollRace(Polled(n, polls), isTerminal, first, second).Some?
    ensures PollRace(Polled(n, polls), isTerminal, first, second).value.ready ==
              Collect(PollArms(Polled(n, polls), first), second, 0)
  {
  }

  /** While it is pending, the race is not over for the machine. */
  lemma LiveRacePending<T>(queues: seq<seq<Event>>, raced: seq<Option<Seam.Answer>>, view: T -> Observation,
                           polls: seq<seq<Answered<T>>>, first: seq<Answered<T>>, second: seq<Answered<T>>)
    requires var n := |queues|; |raced| == n && Wide(n, polls) && |first| == |second| == n
    requires PollRace(Polled(|queues|, polls), Terminal(view), first, second).None?
    requires Saw(queues, raced, Everyone(|queues|), SaidBy(|queues|, view, polls + [first]))
    ensures !FM.RaceOver(queues, raced)
  {
    PendingRace(|queues|, view, polls, first, second);
    LiveRaceIsOverIff(queues, raced, SaidBy(|queues|, view, polls + [first]));
  }

  lemma {:induction false} IdleHarvestTakesNothing(c: FM.Config, queues: seq<seq<Event>>, ready: seq<FM.Entry>)
    requires forall p :: p in ready ==> p.1.Idle?
    ensures FM.AfterHarvest(queues, ready) == queues && FM.Restore(c, queues, ready, None) == (true, queues)
    decreases |ready|
  {
    if ready != [] {
      assert ready[0] in ready;
      IdleHarvestTakesNothing(c, queues, ready[1..]);
    }
  }

  lemma {:induction false} SeenMember<T>(ready: seq<(nat, T)>, view: T -> Observation)
    ensures forall p :: p in Seen(ready, view) ==> exists q :: q in ready && p == (q.0, view(q.1))
  {
    if ready != [] {
      SeenMember(ready[1..], view);
      forall p | p in Seen(ready, view) ensures exists q :: q in ready && p == (q.0, view(q.1)) {
        if p in Seen(ready[1..], view) {
          var q :| q in ready[1..] && p == (q.0, view(q.1));
          assert q in ready;
        } else {
          assert ready[0] in ready;
        }
      }
    }
  }

  /** A race that a cancellation or the timer interrupts: taking its values out and
      giving them back is a step that changes no queue. */
  lemma InterruptedRaceTakesNothing<T>(c: FM.Config, queues: seq<seq<Event>>, view: T -> Observation,
                                       polls: seq<seq<Answered<T>>>)
    requires Wide(|queues|, polls) && StillPending(|queues|, Terminal(view), polls)
    ensures var left := Seen(TakeReady(Polled(|queues|, polls), 0), view);
            FM.AfterHarvest(queues, left) == queues && FM.Restore(c, queues, left, None) == (true, queues)
  {
    var taken := TakeReady(Polled(|queues|, polls), 0);
    CancelledRaceHoldsNoTerminal(|queues|, Terminal(view), polls);
    SeenMember(taken, view);
    forall p | p in Seen(taken, view) ensures p.1.Idle? {
      var q :| q in taken && p == (q.0, view(q.1));
    }
    IdleHarvestTakesNothing(c, queues, Seen(taken, view));
  }

  // ----- The poll cycle -----

  function Itself(obs: Observation): Observation {
    obs
  }

  /** The arms of the race: each pending one, once, in whatever order. */
  ghost predicate ListsPending(s: PC.Cycle, arms: seq<nat>)
    requires |s.starts| == |s.visits|
  {
    && (forall l :: 0 <= l < |arms| ==> arms[l] < |s.visits| && PC.Pending(s)[arms[l]])
    && (forall k, l :: 0 <= k < l < |arms| ==> arms[k] != arms[l])
    && (forall i :: 0 <= i < |s.visits| && PC.Pending(s)[i] ==> i in arms)
  }

  lemma PendingArmsSaid(s: PC.Cycle, raced: seq<Option<Seam.Answer>>, arms: seq<nat>, said: seq<Option<Observation>>)
    requires |s.queues| == |s.starts| == |s.visits| == |raced| && ListsPending(s, arms) && |arms| == |said|
    requires Saw(s.queues, raced, arms, said)
    ensures var harvest := PC.HarvestOf(s.queues, raced, PC.Pending(s));
            && (forall l :: 0 <= l < |arms| ==> harvest[arms[l]] == said[l])
            && (forall i :: 0 <= i < |harvest| && harvest[i].Some? ==> i in arms)
    ensures arms != [] ==> (PC.ObserveOver(s, raced) <==> Enough(said))
  {
    hide ObservationAt;
    var harvest, pending := PC.HarvestOf(s.queues, raced, PC.Pending(s)), PC.Pending(s);
    if arms != [] {
      assert pending[arms[0]];
      forall i | 0 <= i < |harvest| && pending[i]
        ensures exists l :: 0 <= l < |arms| && arms[l] == i && harvest[i] == said[l]
      {
        assert i in arms;
      }
      if PC.ObserveOver(s, raced) && !(exists l :: 0 <= l < |said| && said[l].Some? && !said[l].value.Idle?) {
        forall l | 0 <= l < |said| ensures said[l].Some? {
          assert pending[arms[l]];
        }
      }
    }
  }

  /** A race over the bound arms that have not reported, as it ends: the harvest of
      the machine holds what the race hands over, arm by arm, and without an error
      the race is over for the machine too. */
  lemma PendingArmsRaceEnds(s: PC.Cycle, raced: seq<Option<Seam.Answer>>, arms: seq<nat>,
                            polls: seq<seq<Answered<Observation>>>, first: seq<Answered<Observation>>,
                            second: seq<Answered<Observation>>)
    requires |s.queues| == |s.starts| == |s.visits| == |raced| && ListsPending(s, arms) && arms != []
    requires Wide(|arms|, polls) && |first| == |second| == |arms| && StillPending(|arms|, Terminal(Itself), polls)
    requires PollRace(Polled(|arms|, polls), Terminal(Itself), first, second).Some?
    requires Saw(s.queues, raced, arms, SaidBy(|arms|, Itself, polls + [first] + [second]))
    ensures var out := PollRace(Polled(|arms|, polls), Terminal(Itself), first, second).value;
            var harvest := PC.HarvestOf(s.queues, raced, PC.Pending(s));
            && (forall l, v :: 0 <= l < |arms| ==> (harvest[arms[l]] == Some(v) <==> (l, v) in out.ready))
            && (forall i :: 0 <= i < |harvest| && harvest[i].Some? ==> i in arms)
            && (out.error.None? ==> PC.ObserveOver(s, raced))
  {
    var said := SaidBy(|arms|, Itself, polls + [first] + [second]);
    hide *;
    HandedIsSaid(|arms|, polls, first, second);
    PendingArmsSaid(s, raced, arms, said);
  }

  lemma HandedIsSaid(n: nat, polls: seq<seq<Answered<Observation>>>, first: seq<Answered<Observation>>,
                     second: seq<Answered<Observation>>)
    requires Wide(n, polls) && |first| == |second| == n && StillPending(n, Terminal(Itself), polls)
    requires PollRace(Polled(n, polls), Terminal(Itself), first, second).Some?
    ensures var out := PollRace(Polled(n, polls), Terminal(Itself), first, second).value;
            var said := SaidBy(n, Itself, polls + [first] + [second]);
            && (forall l, v :: 0 <= l < n ==> (said[l] == Some(v) <==> (l, v) in out.ready))
            && (out.error.None? ==> Enough(said))
  {
    HarvestIsComplete(n, Terminal(Itself), polls, first, second);
    hide PollRace, Polled, StillPending, FirstAnswer, Terminal;
    if PollRace(Polled(n, polls), Terminal(Itself), first, second).value.error.None? {
      EndedRace(n, Itself, polls, first, second);
    }
  }

  /** While it is pending, the race is not over for the machine. */
  lemma PendingArmsRacePending(s: PC.Cycle, raced: seq<Option<Seam.Answer>>, arms: seq<nat>,
                               polls: seq<seq<Answered<Observation>>>, first: seq<Answered<Observation>>,
                               second: seq<Answered<Observation>>)
    requires |s.queues| == |s.starts| == |s.visits| == |raced| && ListsPending(s, arms) && arms != []
    requires Wide(|arms|, polls) && |first| == |second| == |arms|
    requires PollRace(Polled(|arms|, polls), Terminal(Itself), first, second).None?
    requires Saw(s.queues, raced, arms, SaidBy(|arms|, Itself, polls + [first]))
    ensures !PC.ObserveOver(s, raced)
  {
    PendingRace(|arms|, Itself, polls, first, second);
    PendingArmsSaid(s, raced, arms, SaidBy(|arms|, Itself, polls + [first]));
  }

  /** The race that a cancellation, the timer or a bind makes the cycle drop: nothing
      that it saw had left a queue. */
  lemma DroppedRaceTookNothing(s: PC.Cycle, raced: seq<Option<Seam.Answer>>, arms: seq<nat>,
                               polls: seq<seq<Answered<Observation>>>)
    requires |s.queues| == |s.starts| == |s.visits| == |raced| && ListsPending(s, arms)
    requires Wide(|arms|, polls) && StillPending(|arms|, Terminal(Itself), polls)
    requires Saw(s.queues, raced, arms, SaidBy(|arms|, Itself, polls))
    ensures PC.Popped(s.queues, PC.HarvestOf(s.queues, raced, PC.Pending(s))) == s.queues
  {
    var said, harvest := SaidBy(|arms|, Itself, polls), PC.HarvestOf(s.queues, raced, PC.Pending(s));
    forall l | 0 <= l < |arms| ensures said[l].Some? ==> said[l].value.Idle? {
      PolledByArm(|arms|, polls, l);
      PendingHoldsNothingTerminal(|arms|, Terminal(Itself), polls, l);
    }
    hide SaidBy, Polled, StillPending;
    PendingArmsSaid(s, raced, arms, said);
    forall i | 0 <= i < |harvest| && harvest[i].Some? ensures harvest[i].value.Idle? {
      var l :| 0 <= l < |arms| && arms[l] == i;
    }
  }

  /** `bind_is_terminal`: any bind ends the race over the unbound arms. */
  function BoundIsTerminal(start: Id): Observation {
    Overflow
  }

  ghost predicate ListsUnbound(s: PC.Cycle, arms: seq<nat>) {
    && (forall l :: 0 <= l < |arms| ==> arms[l] < |s.starts| && s.starts[arms[l]].None?)
    && (forall i :: 0 <= i < |s.starts| && s.starts[i].None? ==> i in arms)
  }

  /** What each unbound arm has answered is its start in `binds`. */
  ghost predicate Binds(binds: PC.Starts, arms: seq<nat>, polls: seq<seq<Answered<Id>>>)
    requires Wide(|arms|, polls)
  {
    forall l :: 0 <= l < |arms| ==>
      arms[l] < |binds| && binds[arms[l]] ==
          (if FirstAnswer(polls, l).Yields? then Some(FirstAnswer(polls, l).value) else None)
  }

  /** The race over the unbound arms has ended without an error exactly when, for the
      machine, some arm has come to be bound. */
  lemma BindRaceEnds(s: PC.Cycle, binds: PC.Starts, arms: seq<nat>,
                     polls: seq<seq<Answered<Id>>>, first: seq<Answered<Id>>, second: seq<Answered<Id>>)
    requires |binds| == |s.starts| && ListsUnbound(s, arms) && arms != []
    requires Wide(|arms|, polls) && |first| == |second| == |arms|
             && StillPending(|arms|, Terminal(BoundIsTerminal), polls)
    ensures match PollRace(Polled(|arms|, polls), Terminal(BoundIsTerminal), first, second)
            case None => Binds(binds, arms, polls + [first]) ==> !PC.BindsSome(s, binds)
            case Some(out) => out.error.None? && Binds(binds, arms, polls + [first] + [second]) ==>
              PC.BindsSome(s, binds)
  {
    var n, now, all := |arms|, polls + [first], polls + [first] + [second];
    BoundIffSaid(s, binds, arms, now);
    BoundIffSaid(s, binds, arms, all);
    hide FirstAnswer, StillPending, Enough, ListsUnbound, PC.BindsSome, Binds;
    if PollRace(Polled(n, polls), Terminal(BoundIsTerminal), first, second).None? {
      PendingRace(n, BoundIsTerminal, polls, first, second);
    } else if PollRace(Polled(n, polls), Terminal(BoundIsTerminal), first, second).value.error.None? {
      EndedRace(n, BoundIsTerminal, polls, first, second);
    }
  }

  lemma BoundIffSaid(s: PC.Cycle, binds: PC.Starts, arms: seq<nat>, polls: seq<seq<Answered<Id>>>)
    requires |binds| == |s.starts| && ListsUnbound(s, arms) && arms != [] && Wide(|arms|, polls)
    ensures Binds(binds, arms, polls) ==> (PC.BindsSome(s, binds) <==> Enough(SaidBy(|arms|, BoundIsTerminal, polls)))
  {
    hide FirstAnswer;
    if Binds(binds, arms, polls) {
      var said := SaidBy(|arms|, BoundIsTerminal, polls);
      forall l | 0 <= l < |arms| ensures said[l].Some? <==> binds[arms[l]].Some? {
      }
      if Enough(said) {
        var l :| 0 <= l < |arms| && said[l].Some?;
        assert s.starts[arms[l]].None? && binds[arms[l]].Some?;
      }
      if i :| 0 <= i < |binds| && s.starts[i].None? && binds[i].Some? {
        assert i in arms;
      }
    }
  }
}
