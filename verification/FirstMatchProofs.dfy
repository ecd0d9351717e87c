/** What a first-match run keeps: events are taken only to be reported, and the
    one place where that fails is named exactly. */
module FirstMatchProofs {
  import opened Wrappers
  import opened Seam
  import opened Messages
  import opened FirstMatch

  // ----- The harvest -----

  /** Every arm is in the harvest at most once. */
  ghost predicate Once(ready: seq<Entry>) {
    forall k, l :: 0 <= k < l < |ready| ==> ready[k].0 != ready[l].0
  }

  /** Every harvested event is the head of its arm's queue. */
  ghost predicate Heads(queues: seq<seq<Event>>, ready: seq<Entry>) {
    forall p :: p in ready && p.1.Observed? ==> p.0 < |queues| && queues[p.0] != [] && p.1.event == queues[p.0][0]
  }

  /** The event that arm `j` contributed. */
  function EventOf(ready: seq<Entry>, j: nat): Option<Event> {
    if ready == [] then None
    else if ready[0].0 == j && ready[0].1.Observed? then Some(ready[0].1.event)
    else EventOf(ready[1..], j)
  }

  lemma {:induction false} EventOfMember(ready: seq<Entry>, j: nat)
    ensures EventOf(ready, j).Some? <==> exists p :: p in ready && p.0 == j && p.1.Observed?
    ensures EventOf(ready, j).Some? ==> (j, Observed(EventOf(ready, j).value)) in ready
  {
    if ready != [] {
      EventOfMember(ready[1..], j);
      if EventOf(ready, j).None? {
        forall p | p in ready && p.0 == j ensures !p.1.Observed? {
          assert p == ready[0] || p in ready[1..];
        }
      }
    }
  }

  lemma EntriesUnfold(queues: seq<seq<Event>>, answers: seq<Option<Answer>>, skip: seq<bool>, i: nat)
    requires |queues| == |answers| == |skip|
    ensures i < |queues| ==>
              var obs := ObservationAt(queues, answers, i);
              Entries(queues, answers, skip, i) ==
              (if !skip[i] && obs.Some? then [(i, obs.value)] else []) + Entries(queues, answers, skip, i + 1)
    ensures i >= |queues| ==> Entries(queues, answers, skip, i) == []
  {
  }

  lemma {:induction false} EntriesInOrder(queues: seq<seq<Event>>, answers: seq<Option<Answer>>, skip: seq<bool>,
                                          i: nat)
    requires |queues| == |answers| == |skip|
    ensures Once(Entries(queues, answers, skip, i)) && Heads(queues, Entries(queues, answers, skip, i))
    ensures forall p :: p in Entries(queues, answers, skip, i) ==>
              i <= p.0 < |queues| && !skip[p.0] && ObservationAt(queues, answers, p.0) == Some(p.1)
    decreases |queues| - i
  {
    hide Entries;
    EntriesUnfold(queues, answers, skip, i);
    if i < |queues| {
      hide Once, Heads;
      EntriesInOrder(queues, answers, skip, i + 1);
      var rest := Entries(queues, answers, skip, i + 1);
      var obs := ObservationAt(queues, answers, i);
      if !skip[i] && obs.Some? {
        PrependEntry(queues, (i, obs.value), rest);
      } else {
        assert [] + rest == rest;
      }
    }
  }

  lemma PrependEntry(queues: seq<seq<Event>>, p: Entry, rest: seq<Entry>)
    requires Once(rest) && Heads(queues, rest) && forall q :: q in rest ==> p.0 < q.0
    requires p.1.Observed? ==> p.0 < |queues| && queues[p.0] != [] && p.1.event == queues[p.0][0]
    ensures Once([p] + rest) && Heads(queues, [p] + rest)
  {
    var all := [p] + rest;
    forall k, l | 0 <= k < l < |all| ensures all[k].0 != all[l].0 {
      assert all[l] in rest;
    }
  }

  lemma {:induction false} EntriesCover(queues: seq<seq<Event>>, answers: seq<Option<Answer>>, skip: seq<bool>, i: nat,
                                        j: nat)
    requires |queues| == |answers| == |skip| && i <= j < |queues| && !skip[j] && ObservationAt(queues, answers, j).Some?
    ensures (j, ObservationAt(queues, answers, j).value) in Entries(queues, answers, skip, i)
    decreases j - i
  {
    if i < j {
      EntriesCover(queues, answers, skip, i + 1, j);
    }
  }

  lemma ReadyIsSound(queues: seq<seq<Event>>, raced: seq<Option<Answer>>, polled: seq<Option<Answer>>)
    requires |queues| == |raced| == |polled|
    ensures Once(Ready(queues, raced, polled)) && Heads(queues, Ready(queues, raced, polled))
    ensures forall p :: p in Ready(queues, raced, polled) ==> p.0 < |queues|
  {
    var none := Nobody(|queues|);
    EntriesInOrder(queues, raced, none, 0);
    EntriesInOrder(queues, polled, Raced(queues, raced), 0);
    var a, b := Entries(queues, raced, none, 0), Entries(queues, polled, Raced(queues, raced), 0);
    var ready := Ready(queues, raced, polled);
    assert ready == a + b;
    forall k, l | 0 <= k < l < |ready| ensures ready[k].0 != ready[l].0 {
      if k < |a| <= l {
        assert a[k] in a && b[l - |a|] in b;
      }
    }
  }

  // ----- Taking and giving back -----

  lemma {:induction false} HarvestByArm(queues: seq<seq<Event>>, ready: seq<Entry>, j: nat)
    requires Once(ready) && Heads(queues, ready) && j < |queues|
    ensures EventOf(ready, j).Some? ==> queues[j] != [] && EventOf(ready, j).value == queues[j][0]
    ensures AfterHarvest(queues, ready)[j] == if EventOf(ready, j).Some? then queues[j][1..] else queues[j]
    decreases |ready|
  {
    EventOfMember(ready, j);
    if ready != [] {
      var i, obs := ready[0].0, ready[0].1;
      var next := if obs.Observed? && i < |queues| && queues[i] != [] then queues[i := queues[i][1..]] else queues;
      assert ready[0] in ready;
      forall p | p in ready[1..] && p.1.Observed? ensures p.0 < |next| && next[p.0] == queues[p.0] {
        var k :| 0 <= k < |ready| - 1 && ready[1..][k] == p;
        assert ready[k + 1] == p && ready[0].0 != ready[k + 1].0;
      }
      assert Heads(next, ready[1..]);
      HarvestByArm(next, ready[1..], j);
      EventOfMember(ready[1..], j);
    }
  }

  lemma {:induction false} RestoreByArm(c: Config, queues: seq<seq<Event>>, ready: seq<Entry>, winner: Option<nat>,
                                        j: nat)
    requires Once(ready) && j < |queues|
    requires Restore(c, queues, ready, winner).0
    ensures Restore(c, queues, ready, winner).1[j] ==
            if EventOf(ready, j).Some? && winner != Some(j) then [EventOf(ready, j).value] + queues[j] else queues[j]
    decreases |ready|
  {
    if ready != [] {
      var i, obs := ready[0].0, ready[0].1;
      EventOfMember(ready[1..], j);
      if i == j {
        forall p | p in ready[1..] ensures p.0 != j {
          var k :| 0 <= k < |ready| - 1 && ready[1..][k] == p;
          assert ready[k + 1] == p;
        }
      }
      if winner == Some(i) || !obs.Observed? || i >= |queues| {
        RestoreByArm(c, queues, ready[1..], winner, j);
      } else {
        RestoreByArm(c, queues[i := [obs.event] + queues[i]], ready[1..], winner, j);
      }
    }
  }

  /** Giving back undoes the harvest, the winner's event excepted. */
  lemma RestoreUndoesHarvest(c: Config, queues: seq<seq<Event>>, ready: seq<Entry>, winner: Option<nat>)
    requires Once(ready) && Heads(queues, ready)
    requires winner.Some? ==> EventOf(ready, winner.value).Some? && winner.value < |queues|
    requires Restore(c, AfterHarvest(queues, ready), ready, winner).0
    ensures winner.Some? ==> queues[winner.value] != []
    ensures Restore(c, AfterHarvest(queues, ready), ready, winner).1 ==
            if winner.Some? then queues[winner.value := queues[winner.value][1..]] else queues
  {
    var back := Restore(c, AfterHarvest(queues, ready), ready, winner).1;
    if winner.Some? {
      HarvestByArm(queues, ready, winner.value);
    }
    forall j | 0 <= j < |queues|
      ensures back[j] == if winner == Some(j) then queues[j][1..] else queues[j]
    {
      HarvestByArm(queues, ready, j);
      RestoreByArm(c, AfterHarvest(queues, ready), ready, winner, j);
    }
    assert back == if winner.Some? then queues[winner.value := queues[winner.value][1..]] else queues;
  }

  // ----- The decision -----

  /** The tie rule: the winner is the lowest arm with an event, and it is that event. */
  lemma {:induction false} WinnerIsLowest(ready: seq<Entry>)
    ensures Winner(ready).None? <==> forall p :: p in ready ==> !p.1.Observed?
    ensures Winner(ready).Some? ==>
              && (Winner(ready).value.0, Observed(Winner(ready).value.1)) in ready
              && forall p :: p in ready && p.1.Observed? ==> Winner(ready).value.0 <= p.0
  {
    if ready != [] {
      WinnerIsLowest(ready[1..]);
      forall p | p in ready ensures p == ready[0] || p in ready[1..] {
      }
    }
  }

  lemma {:induction false} LastFailureMember(ready: seq<Entry>)
    ensures LastFailure(ready).None? <==>
            forall p :: p in ready ==> p.1.Observed? || p.1.Idle? || p.1.Overflow?
  {
    if ready != [] {
      LastFailureMember(ready[..|ready| - 1]);
      forall p | p in ready ensures p == ready[|ready| - 1] || p in ready[..|ready| - 1] {
      }
    }
  }

  /** The runner goes on waiting exactly when everything it harvested is idle. */
  lemma UndecidedIffIdle(c: Config, now: Instant, ready: seq<Entry>, starts: seq<Option<Id>>)
    requires |starts| == |c.rs.registrations|
    ensures Decide(c, now, ready, starts).None? <==> forall p :: p in ready ==> p.1.Idle?
  {
    WinnerIsLowest(ready);
    LastFailureMember(ready);
    if LastFailure(ready).Some? && Winner(ready).None? {
      assert exists p :: p in ready && !p.1.Idle?;
    }
  }

  /** What a decision reports: the winner's event under `events` or `partial`, or nothing. */
  lemma DecisionReportsWinner(c: Config, now: Instant, ready: seq<Entry>, starts: seq<Option<Id>>)
    requires |starts| == |c.rs.registrations|
    requires Decide(c, now, ready, starts).Some?
    ensures var o := Decide(c, now, ready, starts).value;
            if Winner(ready).Some? then
              o.events == [Winner(ready).value.1] && o.kind == (if AnyOverflow(ready) then Partial else Events)
            else o.events == [] && o.kind.FailedKind?
  {
  }

  // ----- One decision, and the two clock readings -----

  /** The winner's event is dropped: posture lets it pass when the losers are
      given back, and rejects it on the later reading. */
  predicate LosesWinner(c: Config, decideAt: Instant, finishAt: Instant, ready: seq<Entry>) {
    Winner(ready).Some? && PostureReject(c, decideAt).None? && PostureReject(c, finishAt).Some?
  }

  /** Nothing taken without being reported: all queues as found, or one less
      event, which is the one reported. */
  ghost predicate Accounted(before: seq<seq<Event>>, after: seq<seq<Event>>, reported: seq<Event>) {
    || (reported == [] && after == before)
    || (exists w ::
          0 <= w < |before| && before[w] != [] && reported == [before[w][0]] && after == before[w := before[w][1..]])
  }

  lemma SettleTakesWinner(c: Config, s: State, decideAt: Instant, finishAt: Instant, ready: seq<Entry>,
                          starts: seq<Option<Id>>)
    requires Shaped(c, s) && |starts| == |s.starts| && s.done.None?
    requires Once(ready) && Heads(s.queues, ready) && forall p :: p in ready ==> p.0 < |s.queues|
    ensures var r := Settle(c, s, decideAt, finishAt, ready, starts);
            && (r.done.None? ==> r.queues == s.queues && forall p :: p in ready ==> p.1.Idle?)
            && (r.done.Some? && r.done.value.Failure? ==> r.done.value.error.RestoreError?)
            && (r.done.Some? && r.done.value.Success? ==>
                  if Winner(ready).None? || PostureReject(c, decideAt).Some? then
                    r.queues == s.queues && r.done.value.value.events == []
                  else
                    var w := Winner(ready).value;
                    && w.0 < |s.queues| && s.queues[w.0] != [] && w.1 == s.queues[w.0][0]
                    && r.queues == s.queues[w.0 := s.queues[w.0][1..]]
                    && r.done.value.value.events == if PostureReject(c, finishAt).None? then [w.1] else [])
  {
    var r := Settle(c, s, decideAt, finishAt, ready, starts);
    WinnerIsLowest(ready);
    UndecidedIffIdle(c, decideAt, ready, starts);
    if r.done.None? {
      forall j | 0 <= j < |s.queues| ensures r.queues[j] == s.queues[j] {
        HarvestByArm(s.queues, ready, j);
        EventOfMember(ready, j);
      }
    } else {
      DecisionReportsWinner(c, decideAt, ready, starts);
      var winner := if PostureReject(c, decideAt).Some? then None else WinnerArm(ready);
      if winner.Some? {
        EventOfMember(ready, winner.value);
      }
      if Restore(c, AfterHarvest(s.queues, ready), ready, winner).0 {
        RestoreUndoesHarvest(c, s.queues, ready, winner);
      }
    }
  }

  /** A decision accounts for every event if and only if no lease runs out
      between the reading that decides and the reading that finishes. */
  lemma SettleAccountsIff(c: Config, s: State, decideAt: Instant, finishAt: Instant, ready: seq<Entry>,
                          starts: seq<Option<Id>>)
    requires Shaped(c, s) && |starts| == |s.starts| && s.done.None?
    requires Once(ready) && Heads(s.queues, ready) && forall p :: p in ready ==> p.0 < |s.queues|
    requires var r := Settle(c, s, decideAt, finishAt, ready, starts); r.done.Some? && r.done.value.Success?
    ensures var r := Settle(c, s, decideAt, finishAt, ready, starts);
            Accounted(s.queues, r.queues, r.done.value.value.events) <==> !LosesWinner(c, decideAt, finishAt, ready)
  {
    SettleTakesWinner(c, s, decideAt, finishAt, ready, starts);
    var r := Settle(c, s, decideAt, finishAt, ready, starts);
    if Winner(ready).Some? && PostureReject(c, decideAt).None? {
      var w := Winner(ready).value;
      assert |r.queues[w.0]| != |s.queues[w.0]|;
    }
  }

  /** The guard of the losing branch, in terms of leases: a caller can check it. */
  lemma LeaseGap(c: Config, decideAt: Instant, finishAt: Instant)
    requires decideAt <= finishAt
    ensures PostureReject(c, decideAt).None? && PostureReject(c, finishAt).Some? <==>
            && (c.rs.authnRequired ==> c.request.hasReceipt)
            && (forall reg | reg in c.rs.registrations :: decideAt <= reg.leaseExpiresAt)
            && (exists reg | reg in c.rs.registrations :: reg.leaseExpiresAt < finishAt)
  {
  }

  // One arm with one event, and a lease that ends between the two readings.

  const GAP_EVENT := Event("evt:1", "reg:a", "a0", "a1", 5, 64, None)
  const GAP_CONFIG := Config(RegistrationSet([Registration("reg:a", true, 10, 1, 100, None, None)], false, 1, 100),
                             Request(100, 100, false), (_, _) => true)
  const GAP_STATE := State([[GAP_EVENT]], false, [Some("a0")], None)
  const GAP_RACE := RaceReady(10, 11, [Some(Head)], [None])

  lemma GapHarvest()
    ensures Ready(GAP_STATE.queues, [Some(Head)], NoAnswers(1)) == [(0, Observed(GAP_EVENT))]
    ensures RaceOver(GAP_STATE.queues, [Some(Head)])
    ensures StartsOf(GAP_STATE, [Some(Head)]) == GAP_STATE.starts && AnswersAfterBinding(GAP_STATE, [Some(Head)])
  {
    var queues := GAP_STATE.queues;
    assert ObservationAt(queues, [Some(Head)], 0) == Some(Observed(GAP_EVENT));
    assert Entries(queues, [Some(Head)], Nobody(1), 1) == [];
    assert Entries(queues, NoAnswers(1), Raced(queues, [Some(Head)]), 1) == [];
  }

  lemma GapStart()
    ensures Step(GAP_CONFIG, Start(GAP_CONFIG, [[GAP_EVENT]]), BindResolved(0, "a0")) == GAP_STATE
  {
  }

  /** In the run from the start where the bind resolves and then the race is ready,
      the event leaves its queue and is reported nowhere. */
  lemma WinnerCanBeLost()
    ensures var r := Run(GAP_CONFIG, Start(GAP_CONFIG, [[GAP_EVENT]]), [BindResolved(0, "a0"), GAP_RACE]);
            && r.queues == [[]]
            && r.done.Some? && r.done.value.Success? && r.done.value.value.events == []
  {
    hide Settle, Ready;
    var inputs := [BindResolved(0, "a0"), GAP_RACE];
    assert inputs[1..] == [GAP_RACE] && inputs[1..][1..] == [];
    GapStart();
    GapHarvest();
    var ready := [(0, Observed(GAP_EVENT))];
    GapSettles(ready);
    assert Step(GAP_CONFIG, GAP_STATE, GAP_RACE) == Settle(GAP_CONFIG, GAP_STATE, 10, 11, ready, GAP_STATE.starts);
    assert Run(GAP_CONFIG, Start(GAP_CONFIG, [[GAP_EVENT]]), inputs) == Run(GAP_CONFIG, GAP_STATE, [GAP_RACE]);
    assert Run(GAP_CONFIG, GAP_STATE, [GAP_RACE]) == Run(GAP_CONFIG, Step(GAP_CONFIG, GAP_STATE, GAP_RACE), []);
  }

  lemma GapSettles(ready: seq<Entry>)
    requires ready == [(0, Observed(GAP_EVENT))]
    ensures var r := Settle(GAP_CONFIG, GAP_STATE, 10, 11, ready, GAP_STATE.starts);
            r.queues == [[]] && r.done.Some? && r.done.value.Success? && r.done.value.value.events == []
  {
    GapRestores(GAP_CONFIG, 10, 11, ready);
    assert GAP_CONFIG.rs.registrations[0] in GAP_CONFIG.rs.registrations;
    WinnerIsLowest(ready);
    assert ready[0] in ready && Winner(ready) == Some((0, GAP_EVENT));
    hide Settle;
    SettleTakesWinner(GAP_CONFIG, GAP_STATE, 10, 11, ready, GAP_STATE.starts);
    var tail := GAP_STATE.queues[0][1..];
    assert GAP_STATE.queues == [[GAP_EVENT]] && tail == [];
    assert GAP_STATE.queues[0 := tail] == [tail];
  }

  lemma GapRestores(c: Config, decideAt: Instant, finishAt: Instant, ready: seq<Entry>)
    requires Shaped(c, GAP_STATE) && c.accepts(0, GAP_EVENT) && ready == [(0, Observed(GAP_EVENT))]
    ensures Settle(c, GAP_STATE, decideAt, finishAt, ready, GAP_STATE.starts).done.Some?
    ensures Settle(c, GAP_STATE, decideAt, finishAt, ready, GAP_STATE.starts).done.value.Success?
  {
    WinnerIsLowest(ready);
    assert ready[0] in ready && ready[1..] == [];
    UndecidedIffIdle(c, decideAt, ready, GAP_STATE.starts);
    var popped := AfterHarvest(GAP_STATE.queues, ready);
    assert WinnerArm(ready) == Some(0);
    assert forall w | w in [None, Some(0)] :: Restore(c, popped, ready, w).0 by {
      assert Restore(c, popped, ready, Some(0)) == Restore(c, popped, ready[1..], Some(0));
      var back := popped[0 := [GAP_EVENT] + popped[0]];
      assert Restore(c, popped, ready, None) == Restore(c, back, ready[1..], None);
    }
  }

  // ----- Whole runs -----

  /** What arm `i` received: what it held, then what arrived. */
  function Stream(queues: seq<seq<Event>>, inputs: seq<Input>): (r: seq<seq<Event>>)
    ensures |r| == |queues|
    decreases |inputs|
  {
    if inputs == [] then queues else Stream(Enqueue(queues, inputs[0]), inputs[1..])
  }

  /** No lease runs out between two readings of one decision. */
  predicate NoLeaseGap(c: Config, input: Input) {
    input.RaceReady? ==> PostureReject(c, input.decideAt).Some? || PostureReject(c, input.finishAt).None?
  }

  ghost predicate Kept(streams: seq<seq<Event>>, s: State) {
    match s.done
    case None => s.queues == streams
    case Some(Success(o)) => Accounted(streams, s.queues, o.events)
    case Some(Failure(ArmError)) => s.queues == streams
    case Some(Failure(RestoreError)) => true
  }

  lemma ArrivalKeeps(streams: seq<seq<Event>>, s: State, input: Input)
    requires |s.queues| == |streams| && Kept(streams, s) && input.Arrive?
    ensures Kept(Enqueue(streams, input), s.(queues := Enqueue(s.queues, input)))
  {
    if s.done.Some? && s.done.value.Success? && s.done.value.value.events != [] {
      var w :| 0 <= w < |streams| && streams[w] != [] && s.done.value.value.events == [streams[w][0]]
               && s.queues == streams[w := streams[w][1..]];
      var more := Enqueue(streams, input);
      if input.arm == w {
        assert more[w][1..] == streams[w][1..] + [input.event];
      }
      assert more[w][0] == streams[w][0];
      assert Enqueue(s.queues, input) == more[w := more[w][1..]];
    }
  }

  lemma FinishReportsNoMore(c: Config, now: Instant, o: Outcome)
    ensures Finish(c, now, o).events == o.events || Finish(c, now, o).events == []
  {
  }

  lemma StepKeeps(c: Config, s: State, input: Input)
    requires Shaped(c, s) && s.done.None? && !input.Arrive? && NoLeaseGap(c, input)
    ensures Kept(s.queues, Step(c, s, input))
  {
    hide Settle, Ready, Restore, AfterHarvest, Decide, PostureReject, Winner, Entries, Finish;
    match input
    case CancelAt(now) => FinishReportsNoMore(c, now, Plain(Cancelled, now, Some("consumer_cancelled")));
    case HeadDeadline(decideAt, finishAt) =>
      if TerminalDeadline(c, decideAt, s.starts).Some? {
        FinishReportsNoMore(c, finishAt, TerminalDeadline(c, decideAt, s.starts).value);
      }
    case RaceReady(decideAt, finishAt, raced, polled) =>
      if |raced| == |polled| == |s.queues| && RaceOver(s.queues, raced) && (s.bound || AnswersAfterBinding(s, raced)) {
        var more := if s.bound then polled else NoAnswers(|s.queues|);
        var starts := if s.bound then s.starts else StartsOf(s, raced);
        ReadyIsSound(s.queues, raced, more);
        SettleKeeps(c, s, decideAt, finishAt, Ready(s.queues, raced, more), starts);
      }
    case RaceFails(raced) =>
      if |raced| == |s.queues| {
        var ready := Ready(s.queues, raced, NoAnswers(|s.queues|));
        ReadyIsSound(s.queues, raced, NoAnswers(|s.queues|));
        if Restore(c, AfterHarvest(s.queues, ready), ready, None).0 {
          RestoreUndoesHarvest(c, s.queues, ready, None);
        }
      }
    case DeadlineWake(now, polled) =>
      if |polled| == |s.queues| {
        var ready := Ready(s.queues, NoAnswers(|s.queues|), polled);
        ReadyIsSound(s.queues, NoAnswers(|s.queues|), polled);
        SettleKeeps(c, s, now, now, ready, s.starts);
        if TerminalDeadline(c, now, s.starts).Some? {
          FinishReportsNoMore(c, now, TerminalDeadline(c, now, s.starts).value);
        }
      }
    case _ =>
  }

  lemma SettleKeeps(c: Config, s: State, decideAt: Instant, finishAt: Instant, ready: seq<Entry>,
                    starts: seq<Option<Id>>)
    requires Shaped(c, s) && |starts| == |s.starts| && s.done.None?
    requires Once(ready) && Heads(s.queues, ready) && forall p :: p in ready ==> p.0 < |s.queues|
    requires PostureReject(c, decideAt).Some? || PostureReject(c, finishAt).None?
    ensures Kept(s.queues, Settle(c, s, decideAt, finishAt, ready, starts))
  {
    SettleTakesWinner(c, s, decideAt, finishAt, ready, starts);
    var r := Settle(c, s, decideAt, finishAt, ready, starts);
    if r.done.Some? && r.done.value.Success? {
      SettleAccountsIff(c, s, decideAt, finishAt, ready, starts);
    }
  }

  /** Over every run: while it waits, and when it is cancelled, refused, times
      out or fails, every queue is what the arm received; a reported event is
      the head of one queue, and only that event is gone. */
  lemma {:induction false} RunKeeps(c: Config, streams: seq<seq<Event>>, s: State, inputs: seq<Input>)
    requires Shaped(c, s) && |streams| == |s.queues| && Kept(streams, s)
    requires forall input :: input in inputs ==> NoLeaseGap(c, input)
    ensures Kept(Stream(streams, inputs), Run(c, s, inputs))
    decreases |inputs|
  {
    if inputs != [] {
      var next := Step(c, s, inputs[0]);
      if inputs[0].Arrive? {
        ArrivalKeeps(streams, s, inputs[0]);
      } else if s.done.None? {
        StepKeeps(c, s, inputs[0]);
      }
      RunKeeps(c, Enqueue(streams, inputs[0]), next, inputs[1..]);
    }
  }

  lemma RunTakesOnlyTheReportedEvent(c: Config, queues: seq<seq<Event>>, inputs: seq<Input>)
    requires |queues| == |c.rs.registrations|
    requires forall input :: input in inputs ==> NoLeaseGap(c, input)
    ensures Kept(Stream(queues, inputs), Run(c, Start(c, queues), inputs))
  {
    RunKeeps(c, queues, Start(c, queues), inputs);
  }

  // ----- Exactly when a run loses an event -----

  /** What the branch that an input selects harvests. */
  function HarvestAt(c: Config, s: State, input: Input): seq<Entry>
    requires Shaped(c, s)
  {
    match input
    case RaceReady(_, _, raced, polled) =>
      if |raced| != |s.queues| || |polled| != |s.queues| then []
      else Ready(s.queues, raced, if s.bound then polled else NoAnswers(|s.queues|))
    case DeadlineWake(_, polled) =>
      if !s.bound || |polled| != |s.queues| then [] else Ready(s.queues, NoAnswers(|s.queues|), polled)
    case _ => []
  }

  /** The race is ready with an event, and a lease runs out between the two readings. */
  predicate LosesAt(c: Config, s: State, input: Input)
    requires Shaped(c, s)
  {
    input.RaceReady? && LosesWinner(c, input.decideAt, input.finishAt, HarvestAt(c, s, input))
  }

  /** The step that ends a run reports all it took, unless it loses the winner. */
  lemma EndingAccountsIff(c: Config, s: State, input: Input)
    requires Shaped(c, s) && s.done.None?
    requires var r := Step(c, s, input); r.done.Some? && r.done.value.Success?
    ensures var r := Step(c, s, input);
            Accounted(s.queues, r.queues, r.done.value.value.events) <==> !LosesAt(c, s, input)
  {
    if !input.RaceReady? {
      assert NoLeaseGap(c, input) && !input.Arrive?;
      hide Step, Accounted;
      StepKeeps(c, s, input);
    } else {
      var starts := if s.bound then s.starts else StartsOf(s, input.raced);
      hide Settle, Ready, LosesWinner, Accounted, RaceOver;
      ReadyIsSound(s.queues, input.raced, if s.bound then input.polled else NoAnswers(|s.queues|));
      SettleAccountsIff(c, s, input.decideAt, input.finishAt, HarvestAt(c, s, input), starts);
    }
  }

  lemma {:induction false} DoneStays(c: Config, s: State, inputs: seq<Input>)
    requires Shaped(c, s) && s.done.Some?
    ensures Run(c, s, inputs).done == s.done
    decreases |inputs|
  {
    if inputs != [] {
      DoneStays(c, Step(c, s, inputs[0]), inputs[1..]);
    }
  }

  /** A finished run has one input that finished it. */
  lemma {:induction false} EndsOnce(c: Config, s: State, inputs: seq<Input>) returns (k: nat)
    requires Shaped(c, s) && s.done.None? && Run(c, s, inputs).done.Some?
    ensures k < |inputs|
    ensures var before := Run(c, s, inputs[..k]);
            before.done.None? && Step(c, before, inputs[k]).done == Run(c, s, inputs).done
    decreases |inputs|
  {
    hide Step;
    var next := Step(c, s, inputs[0]);
    if next.done.Some? {
      k := 0;
      DoneStays(c, next, inputs[1..]);
    } else {
      var l := EndsOnce(c, next, inputs[1..]);
      k := l + 1;
      assert inputs[..k][0] == inputs[0] && inputs[..k][1..] == inputs[1..][..l];
    }
  }

  lemma EnqueueApart(a: seq<seq<Event>>, b: seq<seq<Event>>, input: Input, w: nat)
    requires |a| == |b| && w < |a|
    ensures Enqueue(a, input)[w] == Enqueue(b, input)[w] <==> a[w] == b[w]
    ensures Enqueue(b, input)[w] != [] && Enqueue(a, input)[w] == Enqueue(b, input)[w][1..] <==>
            b[w] != [] && a[w] == b[w][1..]
    ensures b[w] != [] ==> Enqueue(b, input)[w] != [] && Enqueue(b, input)[w][0] == b[w][0]
  {
    if input.Arrive? && input.arm == w {
      var e := [input.event];
      assert (a[w] + e)[..|a[w]|] == a[w] && (b[w] + e)[..|b[w]|] == b[w];
      if b[w] != [] {
        assert (b[w] + e)[1..] == b[w][1..] + e;
        assert (b[w][1..] + e)[..|b[w]| - 1] == b[w][1..];
      }
    }
  }

  /** Queue `w` is one event short, the reported one at its head, and no other is. */
  ghost predicate HeadGone(before: seq<seq<Event>>, after: seq<seq<Event>>, reported: seq<Event>, w: nat) {
    && |before| == |after| && w < |before| && before[w] != [] && reported == [before[w][0]]
    && after[w] == before[w][1..]
    && forall j :: 0 <= j < |before| && j != w ==> after[j] == before[j]
  }

  lemma AccountedMeans(before: seq<seq<Event>>, after: seq<seq<Event>>, reported: seq<Event>)
    requires |before| == |after|
    ensures Accounted(before, after, reported) <==>
            || (reported == [] && forall j :: 0 <= j < |before| ==> after[j] == before[j])
            || (exists w: nat :: HeadGone(before, after, reported, w))
  {
    if w: nat :| HeadGone(before, after, reported, w) {
      assert after == before[w := before[w][1..]];
    }
    if Accounted(before, after, reported) && reported != [] {
      var w :|
        0 <= w < |before| && before[w] != [] && reported == [before[w][0]] && after == before[w := before[w][1..]];
      assert HeadGone(before, after, reported, w);
    }
  }

  lemma ArrivalGone(before: seq<seq<Event>>, after: seq<seq<Event>>, reported: seq<Event>, input: Input, w: nat)
    requires |before| == |after|
    ensures HeadGone(Enqueue(before, input), Enqueue(after, input), reported, w) <==>
              HeadGone(before, after, reported, w)
  {
    forall j | 0 <= j < |before|
      ensures Enqueue(after, input)[j] == Enqueue(before, input)[j] <==> after[j] == before[j]
    {
      EnqueueApart(after, before, input, j);
    }
    if w < |before| {
      EnqueueApart(after, before, input, w);
    }
    hide Enqueue;
  }

  /** An event that arrives later settles no account. */
  lemma ArrivalAccounts(before: seq<seq<Event>>, after: seq<seq<Event>>, reported: seq<Event>, input: Input)
    requires |before| == |after|
    ensures Accounted(Enqueue(before, input), Enqueue(after, input), reported) <==> Accounted(before, after, reported)
  {
    hide Accounted, HeadGone, Enqueue;
    var b, a := Enqueue(before, input), Enqueue(after, input);
    AccountedMeans(before, after, reported);
    AccountedMeans(b, a, reported);
    forall j | 0 <= j < |before| ensures a[j] == b[j] <==> after[j] == before[j] {
      EnqueueApart(after, before, input, j);
    }
    forall w: nat ensures HeadGone(b, a, reported, w) <==> HeadGone(before, after, reported, w) {
      ArrivalGone(before, after, reported, input, w);
    }
  }

  lemma {:induction false} ArrivalsAccount(c: Config, streams: seq<seq<Event>>, s: State, inputs: seq<Input>,
                                           reported: seq<Event>)
    requires Shaped(c, s) && s.done.Some? && |streams| == |s.queues|
    ensures Accounted(Stream(streams, inputs), Run(c, s, inputs).queues, reported) <==>
              Accounted(streams, s.queues, reported)
    decreases |inputs|
  {
    hide Accounted;
    if inputs != [] {
      ArrivalAccounts(streams, s.queues, reported, inputs[0]);
      ArrivalsAccount(c, Enqueue(streams, inputs[0]), Step(c, s, inputs[0]), inputs[1..], reported);
    }
  }

  /** A run that goes on has taken nothing. */
  lemma GoingOnKeeps(c: Config, s: State, input: Input)
    requires Shaped(c, s) && s.done.None? && Step(c, s, input).done.None?
    ensures Step(c, s, input).queues == Enqueue(s.queues, input)
  {
    if !input.Arrive? {
      if input.RaceReady? {
        if |input.raced| == |input.polled| == |s.queues| && RaceOver(s.queues, input.raced)
           && (s.bound || AnswersAfterBinding(s, input.raced))
        {
          var starts := if s.bound then s.starts else StartsOf(s, input.raced);
          hide Settle, Ready, RaceOver;
          ReadyIsSound(s.queues, input.raced, if s.bound then input.polled else NoAnswers(|s.queues|));
          SettleTakesWinner(c, s, input.decideAt, input.finishAt, HarvestAt(c, s, input), starts);
        }
      } else {
        hide Step;
        StepKeeps(c, s, input);
      }
    }
  }

  /** Every run that returns an outcome: what it took is reported, if and only if
      the input that ended it does not lose the winner. */
  lemma {:induction false} RunAccountsIff(c: Config, s: State, inputs: seq<Input>) returns (k: nat)
    requires Shaped(c, s) && s.done.None?
    requires var r := Run(c, s, inputs); r.done.Some? && r.done.value.Success?
    ensures k < |inputs|
    ensures var before, r := Run(c, s, inputs[..k]), Run(c, s, inputs);
            && before.done.None? && Step(c, before, inputs[k]).done == r.done
            && (Accounted(Stream(s.queues, inputs), r.queues, r.done.value.value.events) <==>
                  !LosesAt(c, before, inputs[k]))
    decreases |inputs|
  {
    hide Step, Accounted, LosesAt;
    var next := Step(c, s, inputs[0]);
    if next.done.Some? {
      k := 0;
      DoneStays(c, next, inputs[1..]);
      EndingAccountsIff(c, s, inputs[0]);
      ArrivalKeepsDone(c, s, inputs[0]);
      ArrivalsAccount(c, s.queues, next, inputs[1..], next.done.value.value.events);
    } else {
      GoingOnKeeps(c, s, inputs[0]);
      var l := RunAccountsIff(c, next, inputs[1..]);
      k := l + 1;
      assert inputs[..k][0] == inputs[0] && inputs[..k][1..] == inputs[1..][..l];
    }
  }

  lemma ArrivalKeepsDone(c: Config, s: State, input: Input)
    requires Shaped(c, s) && s.done.None? && Step(c, s, input).done.Some?
    ensures Enqueue(s.queues, input) == s.queues
  {
  }

  // ----- Held binds -----

  /** Binds are held only once every arm has answered the first race. */
  ghost predicate HeldInOrder(s: State) {
    s.bound ==> forall i :: 0 <= i < |s.starts| ==> s.starts[i].Some?
  }

  lemma {:induction false} EntriesAll(queues: seq<seq<Event>>, answers: seq<Option<Answer>>, skip: seq<bool>, i: nat)
    requires |queues| == |answers| == |skip| && i <= |queues|
    requires forall j :: i <= j < |queues| ==> !skip[j] && ObservationAt(queues, answers, j).Some?
    ensures |Entries(queues, answers, skip, i)| == |queues| - i
    ensures forall k :: 0 <= k < |queues| - i ==> Entries(queues, answers, skip, i)[k].0 == i + k
    decreases |queues| - i
  {
    if i < |queues| {
      EntriesAll(queues, answers, skip, i + 1);
      forall k | 0 <= k < |queues| - i ensures Entries(queues, answers, skip, i)[k].0 == i + k {
        if k > 0 {
          assert Entries(queues, answers, skip, i)[k] == Entries(queues, answers, skip, i + 1)[k - 1];
        }
      }
    }
  }

  /** The race that makes the runner hold its binds handed over one observation
      per registration: position `k` is registration `k`. */
  lemma HeldBindsLineUp(c: Config, s: State, input: Input)
    requires Shaped(c, s) && s.done.None? && !s.bound && Step(c, s, input).bound
    ensures input.RaceReady? && |input.raced| == |s.queues|
    ensures var harvest := Entries(s.queues, input.raced, Nobody(|s.queues|), 0);
            |harvest| == |s.queues| && forall k :: 0 <= k < |harvest| ==> harvest[k] == (k, Idle)
    ensures HeldInOrder(Step(c, s, input))
  {
    assert input.RaceReady?;
    var none := Nobody(|s.queues|);
    var harvest := Entries(s.queues, input.raced, none, 0);
    var ready := Ready(s.queues, input.raced, NoAnswers(|s.queues|));
    UndecidedIffIdle(c, input.decideAt, ready, StartsOf(s, input.raced));
    EntriesInOrder(s.queues, input.raced, none, 0);
    forall j | 0 <= j < |s.queues| && ObservationAt(s.queues, input.raced, j).Some?
      ensures ObservationAt(s.queues, input.raced, j).value.Idle?
    {
      EntriesCover(s.queues, input.raced, none, 0, j);
      assert (j, ObservationAt(s.queues, input.raced, j).value) in ready;
    }
    EntriesAll(s.queues, input.raced, none, 0);
    forall k | 0 <= k < |harvest| ensures harvest[k] == (k, Idle) {
      assert harvest[k] in harvest && harvest[k] in ready;
    }
  }

  lemma {:induction false} RunHoldsInOrder(c: Config, s: State, inputs: seq<Input>)
    requires Shaped(c, s) && HeldInOrder(s)
    ensures HeldInOrder(Run(c, s, inputs))
    decreases |inputs|
  {
    if inputs != [] {
      var next := Step(c, s, inputs[0]);
      if s.done.None? && !s.bound && next.bound {
        HeldBindsLineUp(c, s, inputs[0]);
      } else {
        BoundKeepsStarts(c, s, inputs[0]);
      }
      RunHoldsInOrder(c, next, inputs[1..]);
    }
  }

  lemma BoundKeepsStarts(c: Config, s: State, input: Input)
    requires Shaped(c, s) && HeldInOrder(s) && (s.done.Some? || s.bound || !Step(c, s, input).bound)
    ensures HeldInOrder(Step(c, s, input))
  {
    hide Ready, Restore, AfterHarvest, Decide, PostureReject, Winner, TerminalDeadline;
  }

  // ----- Live quiet outcomes -----

  lemma {:induction false} CleanArmsMember(registrations: seq<Registration>, starts: seq<Option<Id>>)
    requires |registrations| == |starts|
    ensures forall a :: a in CleanArms(registrations, starts) ==>
              a.status.Quiet? && !a.degraded && a.eventCount == 0 && a.proposedNext == a.startAnchor
    ensures (forall i :: 0 <= i < |starts| && registrations[i].required ==> starts[i].Some?) ==>
              (AnyRequired(CleanArms(registrations, starts)) <==> exists reg :: reg in registrations && reg.required)
  {
    if registrations != [] {
      var rest := CleanArms(registrations[1..], starts[1..]);
      CleanArmsMember(registrations[1..], starts[1..]);
      var head := ArmOf(registrations[0], Quiet, None, starts[0]);
      assert CleanArms(registrations, starts) == head + rest;
      if forall i :: 0 <= i < |starts| && registrations[i].required ==> starts[i].Some? {
        assert forall i :: 0 <= i < |starts| - 1 && registrations[1..][i].required ==> starts[1..][i] == starts[i + 1];
        if exists a :: a in rest && a.required {
          var a :| a in rest && a.required;
          assert a in head + rest;
        }
        if registrations[0].required {
          assert head[0] in head + rest && head[0].required;
        }
        if reg :| reg in registrations && reg.required {
          assert reg == registrations[0] || reg in registrations[1..];
        }
      }
    }
  }

  /** A deadline outcome meets the admission rules if and only if the set has a
      required registration. */
  lemma DeadlineOutcomeNormativeIff(c: Config, now: Instant, starts: seq<Option<Id>>)
    requires |starts| == |c.rs.registrations|
    requires TerminalDeadline(c, now, starts).Some? && !TerminalDeadline(c, now, starts).value.kind.FailedKind?
    ensures var o := TerminalDeadline(c, now, starts).value;
            && (o.kind.NoChange? || o.kind.LogicalDeadman?)
            && (Normative(o) <==> HasRequired(c.rs))
  {
    CleanArmsMember(c.rs.registrations, starts);
  }

  /** In a partial outcome only the reported event moves a cursor: its arm goes from
      the event's start to the anchor after it, every other arm stays and is deferred. */
  lemma {:induction false} PartialMovesOnlyTheWinner(registrations: seq<Registration>, starts: seq<Option<Id>>,
                                                     e: Event)
    requires |registrations| == |starts|
    ensures forall a :: a in PartialArms(registrations, starts, e) ==>
              if a.registrationId == e.registrationId then
                a.status.WithEvents? && a.eventCount == 1 && a.startAnchor == e.startAnchor
                && a.proposedNext == e.proposedNext
              else a.status.DeferredStatus? && a.eventCount == 0 && a.proposedNext == a.startAnchor
    ensures forall reg :: reg in registrations && reg.id == e.registrationId ==>
              exists a ::
                a in PartialArms(registrations, starts, e) && a.registrationId == reg.id && a.required == reg.required
  {
    if registrations != [] {
      var rest := PartialArms(registrations[1..], starts[1..], e);
      PartialMovesOnlyTheWinner(registrations[1..], starts[1..], e);
      var reg := registrations[0];
      var head := if reg.id == e.registrationId then ArmOf(reg, WithEvents, Some(e), starts[0])
          else ArmOf(reg, DeferredStatus, None, starts[0]);
      var all := PartialArms(registrations, starts, e);
      assert all == head + rest;
      assert forall a :: a in rest ==> a in all;
      if reg.id == e.registrationId {
        assert head[0] in all;
      }
    }
  }
}
