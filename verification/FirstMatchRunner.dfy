/** The first-match loop as it runs: queues updated in place, the harvest and the
    decision as loops, each proved equal to its function in FirstMatch. */
module FirstMatchRunner {
  import opened Wrappers
  import opened Seam
  import opened Messages
  import FM = FirstMatch
  import opened FirstMatchProofs

  predicate Has(ready: seq<FM.Entry>, i: nat) {
    exists p | p in ready :: p.0 == i
  }

  function Having(ready: seq<FM.Entry>, n: nat): (r: seq<bool>)
    ensures |r| == n
  {
    seq(n, i requires 0 <= i < n => Has(ready, i))
  }

  lemma WinnerOfAppend(ready: seq<FM.Entry>, p: FM.Entry)
    ensures FM.Winner(ready + [p]) ==
            if p.1.Observed? && (FM.Winner(ready).None? || p.0 < FM.Winner(ready).value.0) then Some((p.0, p.1.event))
            else FM.Winner(ready)
  {
    if ready == [] {
      assert ([] + [p])[1..] == [];
    } else {
      WinnerOfAppend(ready[1..], p);
      assert (ready + [p])[1..] == ready[1..] + [p];
    }
  }

  /** Polling after the race: `Ready` in two halves. */
  lemma {:induction false} EntriesAfterRace(before: seq<seq<Event>>, after: seq<seq<Event>>,
                                            polled: seq<Option<Answer>>, skip: seq<bool>, i: nat)
    requires |before| == |after| == |polled| == |skip|
    requires forall j :: i <= j < |before| && !skip[j] ==> before[j] == after[j]
    ensures FM.Entries(before, polled, skip, i) == FM.Entries(after, polled, skip, i)
    decreases |before| - i
  {
    hide FM.Entries;
    EntriesUnfold(before, polled, skip, i);
    EntriesUnfold(after, polled, skip, i);
    if i < |before| {
      EntriesAfterRace(before, after, polled, skip, i + 1);
    }
  }

  lemma {:induction false} HarvestOfConcat(queues: seq<seq<Event>>, a: seq<FM.Entry>, b: seq<FM.Entry>)
    ensures FM.AfterHarvest(queues, a + b) == FM.AfterHarvest(FM.AfterHarvest(queues, a), b)
    decreases |a|
  {
    if a == [] {
      assert a + b == b;
    } else {
      var i, obs := a[0].0, a[0].1;
      var next := if obs.Observed? && i < |queues| && queues[i] != [] then queues[i := queues[i][1..]] else queues;
      assert (a + b)[1..] == a[1..] + b;
      HarvestOfConcat(next, a[1..], b);
    }
  }

  /** Taking the race's observations first and polling afterwards gives the same
      harvest, and leaves the same queues, as `Ready` says. */
  lemma RaceThenPoll(queues: seq<seq<Event>>, raced: seq<Option<Answer>>, polled: seq<Option<Answer>>)
    requires |queues| == |raced| == |polled|
    ensures var first := FM.Entries(queues, raced, Having([], |queues|), 0);
            var middle := FM.AfterHarvest(queues, first);
            var second := FM.Entries(middle, polled, Having(first, |queues|), 0);
            && first + second == FM.Ready(queues, raced, polled)
            && FM.AfterHarvest(middle, second) == FM.AfterHarvest(queues, first + second)
  {
    var none := Having([], |queues|);
    HavingNone(|queues|);
    var first := FM.Entries(queues, raced, none, 0);
    var middle := FM.AfterHarvest(queues, first);
    EntriesInOrder(queues, raced, none, 0);
    forall j | 0 <= j < |queues| ensures Has(first, j) == ObservationAt(queues, raced, j).Some? {
      if ObservationAt(queues, raced, j).Some? {
        EntriesCover(queues, raced, none, 0, j);
      }
    }
    assert Having(first, |queues|) == FM.Raced(queues, raced);
    forall j | 0 <= j < |queues| && !FM.Raced(queues, raced)[j] ensures queues[j] == middle[j] {
      HarvestByArm(queues, first, j);
      EventOfMember(first, j);
    }
    EntriesAfterRace(queues, middle, polled, FM.Raced(queues, raced), 0);
    HarvestOfConcat(queues, first, FM.Entries(middle, polled, FM.Raced(queues, raced), 0));
  }

  class LiveWait {
    const c: FM.Config
    var queues: seq<seq<Event>>
    var bound: bool
    var starts: seq<Option<Id>>
    var done: Option<Result<Outcome, FM.RunError>>

    predicate Valid()
      reads this
    {
      |queues| == |starts| == |c.rs.registrations|
    }

    function State(): FM.State
      reads this
    {
      FM.State(queues, bound, starts, done)
    }

    constructor (c: FM.Config, queues: seq<seq<Event>>)
      requires |queues| == |c.rs.registrations|
      ensures Valid() && this.c == c && State() == FM.Start(c, queues)
    {
      this.c, this.queues, bound, done := c, queues, false, None;
      starts := seq(|c.rs.registrations|, _ => None);
    }

    /** Ask every arm that has no entry yet; an event leaves its queue. */
    method ExtendReady(have: seq<FM.Entry>, answers: seq<Option<Answer>>) returns (ready: seq<FM.Entry>)
      requires Valid() && |answers| == |queues|
      modifies this`queues
      ensures Valid()
      ensures ready == have + FM.Entries(old(queues), answers, Having(have, |answers|), 0)
      ensures queues == FM.AfterHarvest(old(queues), FM.Entries(old(queues), answers, Having(have, |answers|), 0))
    {
      hide FM.Entries, FM.AfterHarvest;
      ghost var skip := Having(have, |answers|);
      ghost var all := FM.Entries(old(queues), answers, skip, 0);
      ready := have;
      ghost var rest := all;
      assert have + all == ready + rest;
      var i := 0;
      while i < |queues|
        invariant i <= |queues| == |answers| && |queues| == |old(queues)|
        invariant rest == FM.Entries(old(queues), answers, skip, i)
        invariant ready + rest == have + all
        invariant forall j :: i <= j < |queues| ==> queues[j] == old(queues)[j]
        invariant FM.AfterHarvest(queues, rest) == FM.AfterHarvest(old(queues), all)
      {
        EntriesUnfold(old(queues), answers, skip, i);
        ghost var before, was := queues, rest;
        rest := FM.Entries(old(queues), answers, skip, i + 1);
        assert [] + rest == rest;
        if !Has(have, i) {
          assert ObservationAt(queues, answers, i) == ObservationAt(old(queues), answers, i);
          match answers[i] {
            case None =>
            case Some(Head) =>
              if queues[i] != [] {
                var e := queues[i][0];
                ready := ready + [(i, Observed(e))];
                assert was == [(i, Observed(e))] + rest;
                queues := queues[i := queues[i][1..]];
                HarvestStep(before, i, Observed(e), rest);
              }
            case Some(Signal(obs)) =>
              if !obs.Observed? {
                ready := ready + [(i, obs)];
                assert was == [(i, obs)] + rest;
                HarvestStep(before, i, obs, rest);
              }
          }
        }
        i := i + 1;
      }
      EntriesUnfold(old(queues), answers, skip, i);
      HarvestEnds(queues);
    }

    /** Push every event of `ready` back in front, except that of arm `skip`. */
    method RestoreOwned(ready: seq<FM.Entry>, skip: Option<nat>) returns (ok: bool)
      requires Valid()
      modifies this`queues
      ensures Valid()
      ensures (ok, queues) == FM.Restore(c, old(queues), ready, skip)
    {
      var k := 0;
      while k < |ready|
        invariant k <= |ready| && |queues| == |old(queues)|
        invariant FM.Restore(c, queues, ready[k..], skip) == FM.Restore(c, old(queues), ready, skip)
      {
        var (i, obs) := ready[k];
        assert ready[k..][0] == ready[k] && ready[k..][1..] == ready[k + 1..];
        if skip != Some(i) && obs.Observed? && i < |queues| {
          if !c.accepts(i, obs.event) {
            return false;
          }
          queues := queues[i := [obs.event] + queues[i]];
        }
        k := k + 1;
      }
      return true;
    }

    /** One pass over the harvest: lowest event, overflow, last failure. */
    method Decide(now: Instant, ready: seq<FM.Entry>, resolved: seq<Option<Id>>) returns (o: Option<Outcome>)
      requires |resolved| == |c.rs.registrations|
      ensures o == FM.Decide(c, now, ready, resolved)
    {
      var winner: Option<(nat, Event)>, overflow, failed: Option<Id> := None, false, None;
      var k := 0;
      while k < |ready|
        invariant k <= |ready|
        invariant winner == FM.Winner(ready[..k])
        invariant overflow == FM.AnyOverflow(ready[..k])
        invariant failed == FM.LastFailure(ready[..k])
      {
        var (i, obs) := ready[k];
        assert ready[..k + 1] == ready[..k] + [ready[k]];
        assert ready[..k + 1][..k] == ready[..k];
        WinnerOfAppend(ready[..k], ready[k]);
        match obs {
          case Observed(e) => winner := if winner.None? || i < winner.value.0 then Some((i, e)) else winner;
          case Overflow =>
            assert ready[k] in ready[..k + 1];
            overflow := true;
          case Failed(reason) => failed := Some(reason);
          case Outage(reason) => failed := Some(reason);
          case CursorUncertain(reason) => failed := Some(reason);
          case Degraded(reason) => failed := Some(reason);
          case Idle =>
        }
        k := k + 1;
      }
      assert ready[..k] == ready;
      if overflow {
        return if winner.Some? then
            Some(Outcome(Partial, now, None, [winner.value.1], Some(false),
                         FM.PartialArms(c.rs.registrations, resolved, winner.value.1), None))
          else Some(FM.Plain(FailedKind, now, Some("buffer_overflow")));
      }
      if failed.Some? && winner.None? {
        return Some(FM.Plain(FailedKind, now, failed));
      }
      return if winner.Some? then Some(FM.EventsOutcome(now, winner.value.1)) else None;
    }

    /** Decide on a harvest already taken out of `found`, and give back. */
    method DecideAndRestore(decideAt: Instant, finishAt: Instant, ready: seq<FM.Entry>, resolved: seq<Option<Id>>,
                            ghost found: seq<seq<Event>>)
      requires Valid() && |resolved| == |starts| && done.None?
      requires |found| == |queues| && queues == FM.AfterHarvest(found, ready)
      modifies this`queues, this`done
      ensures Valid()
      ensures State() == FM.Settle(c, old(State()).(queues := found), decideAt, finishAt, ready, resolved)
    {
      hide FM.Decide, FM.Restore, FM.AfterHarvest, FM.Winner, FM.Finish, FM.PostureReject;
      var outcome := Decide(decideAt, ready, resolved);
      if outcome.None? {
        return;
      }
      var rejected := FM.PostureReject(c, decideAt);
      var ok := RestoreOwned(ready, if rejected.Some? then None else FM.WinnerArm(ready));
      done := Some(if !ok then Failure(FM.RestoreError)
                   else Success(FM.Finish(c, finishAt, if rejected.Some? then rejected.value else outcome.value)));
    }

    /** The branch where the race is ready, with every bind held. */
    method RaceReady(decideAt: Instant, finishAt: Instant, raced: seq<Option<Answer>>, polled: seq<Option<Answer>>)
      requires Valid() && done.None? && bound && |raced| == |polled| == |queues|
      requires FM.RaceOver(queues, raced)
      modifies this`queues, this`done
      ensures Valid()
      ensures State() == FM.Step(c, old(State()), FM.RaceReady(decideAt, finishAt, raced, polled))
    {
      hide FM.Settle, FM.Entries, FM.AfterHarvest, FM.Ready;
      RaceThenPoll(queues, raced, polled);
      ghost var first := FM.Entries(queues, raced, Having([], |queues|), 0);
      var ready := ExtendReady([], raced);
      assert ready == first;
      ready := ExtendReady(ready, polled);
      DecideAndRestore(decideAt, finishAt, ready, starts, old(queues));
    }

    /** The branch where the first race, of binds and observations, is ready: on
        no decision the binds are held. */
    method BindRaceReady(decideAt: Instant, finishAt: Instant, raced: seq<Option<Answer>>, polled: seq<Option<Answer>>)
      requires Valid() && done.None? && !bound && |raced| == |polled| == |queues|
      requires FM.RaceOver(queues, raced) && FM.AnswersAfterBinding(State(), raced)
      modifies this`queues, this`done, this`bound
      ensures Valid()
      ensures State() == FM.Step(c, old(State()), FM.RaceReady(decideAt, finishAt, raced, polled))
    {
      hide FM.Settle, FM.Entries, FM.AfterHarvest, FM.Ready, FM.StartsOf, FM.RaceOver, FM.AnswersAfterBinding;
      NothingPolled(queues, raced);
      var resolved := FM.StartsOf(State(), raced);
      var ready := ExtendReady([], raced);
      assert ready == FM.Ready(old(queues), raced, FM.NoAnswers(|queues|));
      DecideAndRestore(decideAt, finishAt, ready, resolved, old(queues));
      if done.None? {
        bound := true;
      }
    }

    /** The branch where some arm failed: give back what the others handed over. */
    method RaceFails(raced: seq<Option<Answer>>)
      requires Valid() && done.None? && |raced| == |queues|
      modifies this`queues, this`done
      ensures Valid()
      ensures State() == FM.Step(c, old(State()), FM.RaceFails(raced))
    {
      hide FM.Settle, FM.Entries, FM.AfterHarvest, FM.Restore;
      NothingPolled(queues, raced);
      var ready := ExtendReady([], raced);
      assert ready == FM.Ready(old(queues), raced, FM.NoAnswers(|queues|));
      var ok := RestoreOwned(ready, None);
      done := Some(Failure(if ok then FM.ArmError else FM.RestoreError));
    }

    /** The branch where the deadline timer fires: with every bind held, ask every arm
        once and decide; then look at the deadlines. */
    method DeadlineWake(now: Instant, polled: seq<Option<Answer>>)
      requires Valid() && done.None? && |polled| == |queues|
      modifies this`queues, this`done
      ensures Valid()
      ensures State() == FM.Step(c, old(State()), FM.DeadlineWake(now, polled))
    {
      hide FM.Settle, FM.Entries, FM.AfterHarvest, FM.Ready, FM.TerminalDeadline, FM.Finish;
      if bound {
        NothingRaced(queues, polled);
        var ready := ExtendReady([], polled);
        assert ready == FM.Ready(old(queues), FM.NoAnswers(|queues|), polled);
        DecideAndRestore(now, now, ready, starts, old(queues));
      }
      if done.None? {
        HeadDeadline(now, now);
      }
    }

    /** The deadlines, as the head of the loop looks at them. */
    method HeadDeadline(decideAt: Instant, finishAt: Instant)
      requires Valid() && done.None?
      modifies this`done
      ensures Valid()
      ensures State() == FM.Step(c, old(State()), FM.HeadDeadline(decideAt, finishAt))
      ensures done == match FM.TerminalDeadline(c, decideAt, starts)
                      case None => None
                      case Some(o) => Some(Success(FM.Finish(c, finishAt, o)))
    {
      hide FM.TerminalDeadline, FM.Finish;
      var o := FM.TerminalDeadline(c, decideAt, starts);
      if o.Some? {
        done := Some(Success(FM.Finish(c, finishAt, o.value)));
      }
    }

    /** A cancellation, wherever the loop notices it. */
    method CancelAt(now: Instant)
      requires Valid() && done.None?
      modifies this`done
      ensures Valid()
      ensures State() == FM.Step(c, old(State()), FM.CancelAt(now))
    {
      done := Some(Success(FM.Finish(c, now, FM.Plain(Cancelled, now, Some("consumer_cancelled")))));
    }

    /** `record_resolved`: a bind tells its start, once. */
    method BindResolved(i: nat, start: Id)
      requires Valid() && done.None?
      modifies this`starts
      ensures Valid()
      ensures State() == FM.Step(c, old(State()), FM.BindResolved(i, start))
    {
      if i < |starts| && !bound && starts[i].None? {
        starts := starts[i := Some(start)];
      }
    }

    /** The observer's side: a new event at the end of a queue. */
    method Arrive(i: nat, e: Event)
      requires Valid()
      modifies this`queues
      ensures Valid()
      ensures State() == FM.Step(c, old(State()), FM.Arrive(i, e))
    {
      if i < |queues| {
        queues := queues[i := queues[i] + [e]];
      }
    }

    /** One turn of the loop: the branch that an input selects, if it can be taken. */
    method Take(input: FM.Input)
      requires Valid()
      modifies this
      ensures Valid()
      ensures State() == FM.Step(c, old(State()), input)
    {
      hide FM.Settle, FM.Ready, FM.RaceOver, FM.AnswersAfterBinding, FM.TerminalDeadline, FM.Finish, FM.StartsOf,
        FM.Restore, FM.AfterHarvest;
      if input.Arrive? {
        Arrive(input.arm, input.event);
      } else if done.None? {
        match input {
          case BindResolved(i, start) => BindResolved(i, start);
          case CancelAt(now) => CancelAt(now);
          case HeadDeadline(decideAt, finishAt) => HeadDeadline(decideAt, finishAt);
          case RaceFails(raced) =>
            if |raced| == |queues| {
              RaceFails(raced);
            }
          case RaceReady(decideAt, finishAt, raced, polled) =>
            if |raced| == |polled| == |queues| && FM.RaceOver(queues, raced) {
              if bound {
                RaceReady(decideAt, finishAt, raced, polled);
              } else if FM.AnswersAfterBinding(State(), raced) {
                BindRaceReady(decideAt, finishAt, raced, polled);
              }
            }
          case DeadlineWake(now, polled) =>
            if |polled| == |queues| {
              DeadlineWake(now, polled);
            }
          case _ =>
        }
      }
    }

    /** The loop: what it leaves is the state that the machine reaches. */
    method RunUntil(inputs: seq<FM.Input>)
      requires Valid()
      modifies this
      ensures Valid()
      ensures State() == FM.Run(c, old(State()), inputs)
    {
      hide FM.Step;
      var k := 0;
      while k < |inputs|
        invariant k <= |inputs| && Valid()
        invariant FM.Run(c, State(), inputs[k..]) == FM.Run(c, old(State()), inputs)
      {
        assert inputs[k..][0] == inputs[k] && inputs[k..][1..] == inputs[k + 1..];
        Take(inputs[k]);
        k := k + 1;
      }
    }
  }

  lemma HarvestStep(queues: seq<seq<Event>>, i: nat, obs: Observation, rest: seq<FM.Entry>)
    ensures FM.AfterHarvest(queues, [(i, obs)] + rest) ==
            FM.AfterHarvest(
              if obs.Observed? && i < |queues| && queues[i] != [] then queues[i := queues[i][1..]] else queues, rest)
  {
    assert ([(i, obs)] + rest)[1..] == rest;
  }

  lemma HarvestEnds(queues: seq<seq<Event>>)
    ensures FM.AfterHarvest(queues, []) == queues
  {
  }

  lemma {:induction false} NoEntries(queues: seq<seq<Event>>, skip: seq<bool>, i: nat)
    requires |queues| == |skip|
    ensures FM.Entries(queues, FM.NoAnswers(|queues|), skip, i) == []
    decreases |queues| - i
  {
    if i < |queues| {
      NoEntries(queues, skip, i + 1);
    }
  }

  lemma HavingNone(n: nat)
    ensures Having([], n) == FM.Nobody(n)
  {
  }

  lemma NothingPolled(queues: seq<seq<Event>>, raced: seq<Option<Answer>>)
    requires |queues| == |raced|
    ensures FM.Ready(queues, raced, FM.NoAnswers(|queues|)) == FM.Entries(queues, raced, Having([], |queues|), 0)
  {
    hide FM.Entries, ObservationAt, FM.Nobody, Having, FM.Raced, FM.NoAnswers;
    HavingNone(|queues|);
    NoEntries(queues, FM.Raced(queues, raced), 0);
  }

  lemma RacedNone(queues: seq<seq<Event>>)
    ensures FM.Raced(queues, FM.NoAnswers(|queues|)) == FM.Nobody(|queues|)
  {
  }

  lemma NothingRaced(queues: seq<seq<Event>>, polled: seq<Option<Answer>>)
    requires |queues| == |polled|
    ensures FM.Ready(queues, FM.NoAnswers(|queues|), polled) == FM.Entries(queues, polled, Having([], |queues|), 0)
  {
    hide FM.Entries, ObservationAt, FM.Nobody, Having, FM.Raced, FM.NoAnswers;
    HavingNone(|queues|);
    RacedNone(queues);
    NoEntries(queues, FM.Nobody(|queues|), 0);
  }
}
