/** The race of `race.rs`: futures polled side by side until one yields a
    terminal value, one fails, or all have answered. */
module Race {
  import opened Wrappers
  import opened Seam

  /** What one poll of a future answers. */
  datatype Answered<+T> = Pending | Yields(value: T) | Fails(error: Id)

  /** `Done(None)` is an arm whose value was taken out. */
  datatype Arm<+T> = Waiting | Done(slot: Option<T>) | Broken

  datatype Output<+T> = Output(ready: seq<(nat, T)>, error: Option<Id>)

  function PollArm<T>(arm: Arm<T>, a: Answered<T>): Arm<T> {
    if !arm.Waiting? then arm
    else
      match a
      case Pending => Waiting
      case Yields(v) => Done(Some(v))
      case Fails(_) => Broken
  }

  function PollArms<T>(arms: seq<Arm<T>>, answers: seq<Answered<T>>): (r: seq<Arm<T>>)
    requires |arms| == |answers|
    ensures |r| == |arms|
  {
    seq(|arms|, i requires 0 <= i < |arms| => PollArm(arms[i], answers[i]))
  }

  /** The first failure, from arm `i` on, among the arms that were still waiting. */
  function FirstError<T>(arms: seq<Arm<T>>, answers: seq<Answered<T>>, i: nat): Option<Id>
    requires |arms| == |answers|
    decreases |arms| - i
  {
    if i >= |arms| then None
    else if arms[i].Waiting? && answers[i].Fails? then Some(answers[i].error)
    else FirstError(arms, answers, i + 1)
  }

  predicate Holds<T>(arm: Arm<T>, isTerminal: T -> bool) {
    arm.Done? && arm.slot.Some? && isTerminal(arm.slot.value)
  }

  predicate Settled<T>(arms: seq<Arm<T>>, isTerminal: T -> bool) {
    (exists i :: 0 <= i < |arms| && Holds(arms[i], isTerminal)) || (forall i :: 0 <= i < |arms| ==> !arms[i].Waiting?)
  }

  function Handed<T>(i: nat, arm: Arm<T>): seq<(nat, T)> {
    if arm.Done? && arm.slot.Some? then [(i, arm.slot.value)] else []
  }

  function Collect<T>(arms: seq<Arm<T>>, answers: seq<Answered<T>>, i: nat): seq<(nat, T)>
    requires |arms| == |answers|
    decreases |arms| - i
  {
    if i >= |arms| then []
    else
      var arm := PollArm(arms[i], answers[i]);
      Handed(i, arm) + Collect(arms, answers, i + 1)
  }

  /** One poll of the race; arms still waiting when it settles are polled once more. */
  function PollRace<T>(arms: seq<Arm<T>>, isTerminal: T -> bool, first: seq<Answered<T>>,
                       second: seq<Answered<T>>): Option<Output<T>>
    requires |arms| == |first| == |second|
  {
    var after := PollArms(arms, first);
    var error := FirstError(arms, first, 0);
    if error.None? && !Settled(after, isTerminal) then None
    else Some(Output(Collect(after, second, 0), if error.Some? then error else FirstError(after, second, 0)))
  }

  // ----- What every poll sequence keeps -----

  /** The arms after polls that all came back pending. */
  function Polled<T>(n: nat, polls: seq<seq<Answered<T>>>): (arms: seq<Arm<T>>)
    requires forall k :: 0 <= k < |polls| ==> |polls[k]| == n
    ensures |arms| == n
  {
    if polls == [] then seq(n, _ => Waiting)
    else PollArms(Polled(n, polls[..|polls| - 1]), polls[|polls| - 1])
  }

  /** None of the polls completed the race. */
  ghost predicate StillPending<T>(n: nat, isTerminal: T -> bool, polls: seq<seq<Answered<T>>>)
    requires forall k :: 0 <= k < |polls| ==> |polls[k]| == n
  {
    polls != [] ==>
      var before := Polled(n, polls[..|polls| - 1]);
      var last := polls[|polls| - 1];
      && StillPending(n, isTerminal, polls[..|polls| - 1])
      && PollRace(before, isTerminal, last, last).None?
  }

  /** The first answer of arm `i` that is not pending. */
  function FirstAnswer<T>(polls: seq<seq<Answered<T>>>, i: nat): Answered<T>
    requires forall k :: 0 <= k < |polls| ==> i < |polls[k]|
  {
    if polls == [] then Pending
    else if !polls[0][i].Pending? then polls[0][i]
    else FirstAnswer(polls[1..], i)
  }

  lemma {:induction false} FirstAnswerOfAppend<T>(polls: seq<seq<Answered<T>>>, more: seq<Answered<T>>, i: nat)
    requires (forall k :: 0 <= k < |polls| ==> i < |polls[k]|) && i < |more|
    ensures FirstAnswer(polls + [more], i) == if FirstAnswer(polls, i).Pending? then more[i] else FirstAnswer(polls, i)
  {
    if polls == [] {
      assert [more][1..] == [];
    } else {
      assert (polls + [more])[1..] == polls[1..] + [more];
      if polls[0][i].Pending? {
        FirstAnswerOfAppend(polls[1..], more, i);
      }
    }
  }

  /** An arm remembers its first answer. */
  lemma {:induction false} PolledByArm<T>(n: nat, polls: seq<seq<Answered<T>>>, i: nat)
    requires (forall k :: 0 <= k < |polls| ==> |polls[k]| == n) && i < n
    ensures Polled(n, polls)[i] == PollArm(Waiting, FirstAnswer(polls, i))
  {
    if polls != [] {
      var before, last := polls[..|polls| - 1], polls[|polls| - 1];
      PolledByArm(n, before, i);
      FirstAnswerOfAppend(before, last, i);
      assert before + [last] == polls;
    }
  }

  /** While the race is pending, no stored value is terminal: dropping it, or
      taking out what is ready, never costs an event. */
  lemma {:induction false} PendingHoldsNothingTerminal<T>(n: nat, isTerminal: T -> bool, polls: seq<seq<Answered<T>>>,
                                                          i: nat)
    requires (forall k :: 0 <= k < |polls| ==> |polls[k]| == n) && i < n
    requires StillPending(n, isTerminal, polls)
    ensures !Holds(Polled(n, polls)[i], isTerminal) && !Polled(n, polls)[i].Broken?
  {
    if polls != [] {
      var before, last := polls[..|polls| - 1], polls[|polls| - 1];
      PendingHoldsNothingTerminal(n, isTerminal, before, i);
      NoErrorAt(Polled(n, before), last, 0, i);
    }
  }

  lemma {:induction false} NoErrorAt<T>(arms: seq<Arm<T>>, answers: seq<Answered<T>>, k: nat, i: nat)
    requires |arms| == |answers| && k <= i < |arms| && FirstError(arms, answers, k).None?
    ensures !(arms[i].Waiting? && answers[i].Fails?)
    decreases i - k
  {
    if k < i {
      NoErrorAt(arms, answers, k + 1, i);
    }
  }

  /** Indices between `lo` and `hi`, strictly increasing. */
  ghost predicate InArmOrder<T>(c: seq<(nat, T)>, lo: nat, hi: nat) {
    && (forall k :: 0 <= k < |c| ==> lo <= c[k].0 < hi)
    && (forall k, l :: 0 <= k < l < |c| ==> c[k].0 < c[l].0)
  }

  lemma PrependInOrder<T>(p: (nat, T), rest: seq<(nat, T)>, hi: nat)
    requires InArmOrder(rest, p.0 + 1, hi) && p.0 < hi
    ensures InArmOrder([p] + rest, p.0, hi)
  {
    var c := [p] + rest;
    forall k | 0 <= k < |c| ensures p.0 <= c[k].0 < hi && (k > 0 ==> p.0 < c[k].0) {
      if k > 0 {
        assert c[k] == rest[k - 1];
      }
    }
    forall k, l | 0 <= k < l < |c| ensures c[k].0 < c[l].0 {
      assert c[l] == rest[l - 1];
      if k > 0 {
        assert c[k] == rest[k - 1];
      }
    }
  }

  lemma CollectUnfolds<T>(arms: seq<Arm<T>>, answers: seq<Answered<T>>, i: nat)
    requires |arms| == |answers|
    ensures i < |arms| ==>
              Collect(arms, answers, i) == Handed(i, PollArm(arms[i], answers[i])) + Collect(arms, answers, i + 1)
    ensures i >= |arms| ==> Collect(arms, answers, i) == []
  {
    hide PollArm;
  }

  lemma WidenOrder<T>(c: seq<(nat, T)>, lo: nat, hi: nat)
    requires InArmOrder(c, lo + 1, hi)
    ensures InArmOrder(c, lo, hi)
  {
  }

  lemma {:induction false} CollectSorted<T>(arms: seq<Arm<T>>, answers: seq<Answered<T>>, i: nat)
    requires |arms| == |answers|
    ensures InArmOrder(Collect(arms, answers, i), i, |arms|)
    decreases |arms| - i
  {
    hide Collect, PollArm;
    CollectUnfolds(arms, answers, i);
    if i < |arms| {
      hide InArmOrder;
      CollectSorted(arms, answers, i + 1);
      var arm := PollArm(arms[i], answers[i]);
      var rest := Collect(arms, answers, i + 1);
      if arm.Done? && arm.slot.Some? {
        PrependInOrder((i, arm.slot.value), rest, |arms|);
      } else {
        WidenOrder(rest, i, |arms|);
        assert [] + rest == rest;
      }
    }
  }

  lemma {:induction false} CollectMember<T>(arms: seq<Arm<T>>, answers: seq<Answered<T>>, i: nat, j: nat, v: T)
    requires |arms| == |answers|
    ensures (j, v) in Collect(arms, answers, i) <==> i <= j < |arms| && PollArm(arms[j], answers[j]) == Done(Some(v))
    decreases |arms| - i
  {
    if i < |arms| {
      CollectMember(arms, answers, i + 1, j, v);
    }
  }

  lemma {:induction false} CollectAll<T>(arms: seq<Arm<T>>, answers: seq<Answered<T>>, i: nat)
    requires |arms| == |answers| && i <= |arms|
    requires forall j :: i <= j < |arms| ==> arms[j].Done? && arms[j].slot.Some?
    ensures |Collect(arms, answers, i)| == |arms| - i
    ensures forall k :: 0 <= k < |arms| - i ==> Collect(arms, answers, i)[k] == (i + k, arms[i + k].slot.value)
    decreases |arms| - i
  {
    hide Collect;
    CollectUnfolds(arms, answers, i);
    if i < |arms| {
      CollectAll(arms, answers, i + 1);
      var rest := Collect(arms, answers, i + 1);
      forall k | 0 <= k < |arms| - i ensures Collect(arms, answers, i)[k] == (i + k, arms[i + k].slot.value) {
        if k > 0 {
          assert rest[k - 1] == (i + k, arms[i + k].slot.value);
        }
      }
    }
  }

  /** When the race completes, after any number of polls: every value any arm
      ever yielded is handed over exactly once, in arm order; and without an
      error or a terminal value, every arm is there, at its own position. */
  lemma HarvestIsComplete<T>(n: nat, isTerminal: T -> bool, polls: seq<seq<Answered<T>>>, first: seq<Answered<T>>,
                             second: seq<Answered<T>>)
    requires (forall k :: 0 <= k < |polls| ==> |polls[k]| == n) && |first| == |second| == n
    requires StillPending(n, isTerminal, polls)
    requires PollRace(Polled(n, polls), isTerminal, first, second).Some?
    ensures var out := PollRace(Polled(n, polls), isTerminal, first, second).value;
            && (forall j: nat, v ::
                  (j, v) in out.ready <==> j < n && FirstAnswer(polls + [first] + [second], j) == Yields(v))
            && InArmOrder(out.ready, 0, n)
            && (out.error.None? && (forall p :: p in out.ready ==> !isTerminal(p.1)) ==>
                  |out.ready| == n && forall k :: 0 <= k < n ==> out.ready[k].0 == k)
  {
    var arms := Polled(n, polls);
    var after := PollArms(arms, first);
    var out := PollRace(arms, isTerminal, first, second).value;
    CollectSorted(after, second, 0);
    forall j: nat, v
      ensures (j, v) in out.ready <==> j < n && FirstAnswer(polls + [first] + [second], j) == Yields(v)
    {
      CollectMember(after, second, 0, j, v);
      if j < n {
        PolledByArm(n, polls, j);
        FirstAnswerOfAppend(polls, first, j);
        FirstAnswerOfAppend(polls + [first], second, j);
      }
    }
    if out.error.None? && (forall p :: p in out.ready ==> !isTerminal(p.1)) {
      QuietHarvestCoversAll(n, isTerminal, polls, first, second);
    }
  }

  lemma QuietHarvestCoversAll<T>(n: nat, isTerminal: T -> bool, polls: seq<seq<Answered<T>>>, first: seq<Answered<T>>,
                                 second: seq<Answered<T>>)
    requires (forall k :: 0 <= k < |polls| ==> |polls[k]| == n) && |first| == |second| == n
    requires StillPending(n, isTerminal, polls)
    requires var out := PollRace(Polled(n, polls), isTerminal, first, second);
             out.Some? && out.value.error.None? && forall p :: p in out.value.ready ==> !isTerminal(p.1)
    ensures var out := PollRace(Polled(n, polls), isTerminal, first, second).value;
            |out.ready| == n && forall k :: 0 <= k < n ==> out.ready[k].0 == k
  {
    var arms := Polled(n, polls);
    var after := PollArms(arms, first);
    var out := PollRace(arms, isTerminal, first, second).value;
    forall i | 0 <= i < n ensures !Holds(after[i], isTerminal) {
      if after[i].Done? && after[i].slot.Some? {
        CollectMember(after, second, 0, i, after[i].slot.value);
      }
    }
    assert Settled(after, isTerminal);
    forall j | 0 <= j < n ensures after[j].Done? && after[j].slot.Some? {
      NoErrorAt(arms, first, 0, j);
      PendingHoldsNothingTerminal(n, isTerminal, polls, j);
      PolledByArm(n, polls, j);
    }
    CollectAll(after, second, 0);
  }

  /** The same handed-over values, of a cancelled race. */
  function TakeReady<T>(arms: seq<Arm<T>>, i: nat): seq<(nat, T)>
    decreases |arms| - i
  {
    if i >= |arms| then []
    else Handed(i, arms[i]) + TakeReady(arms, i + 1)
  }

  lemma {:induction false} TakeReadyMember<T>(arms: seq<Arm<T>>, i: nat, p: (nat, T))
    requires p in TakeReady(arms, i)
    ensures i <= p.0 < |arms| && arms[p.0] == Done(Some(p.1))
    decreases |arms| - i
  {
    if !(arms[i].Done? && arms[i].slot.Some? && p == (i, arms[i].slot.value)) {
      TakeReadyMember(arms, i + 1, p);
    }
  }

  /** Cancelling a pending race hands over non-terminal values only. */
  lemma CancelledRaceHoldsNoTerminal<T>(n: nat, isTerminal: T -> bool, polls: seq<seq<Answered<T>>>)
    requires forall k :: 0 <= k < |polls| ==> |polls[k]| == n
    requires StillPending(n, isTerminal, polls)
    ensures forall p :: p in TakeReady(Polled(n, polls), 0) ==> !isTerminal(p.1)
  {
    forall p | p in TakeReady(Polled(n, polls), 0) ensures !isTerminal(p.1) {
      TakeReadyMember(Polled(n, polls), 0, p);
      PendingHoldsNothingTerminal(n, isTerminal, polls, p.0);
    }
  }

  // ----- The race as it runs -----

  class FirstReady<T> {
    var arms: seq<Arm<T>>
    const isTerminal: T -> bool

    constructor (n: nat, isTerminal: T -> bool)
      ensures arms == Polled<T>(n, []) && this.isTerminal == isTerminal
    {
      arms := seq(n, _ => Waiting);
      this.isTerminal := isTerminal;
    }

    /** One poll: a pass over the arms, then, if the race settled, a harvest. */
    method Poll(first: seq<Answered<T>>, second: seq<Answered<T>>) returns (out: Option<Output<T>>)
      requires |arms| == |first| == |second|
      modifies this
      ensures out == PollRace(old(arms), isTerminal, first, second)
      ensures out.None? ==> arms == PollArms(old(arms), first)
    {
      var pending, terminal := false, false;
      var error: Option<Id> := None;
      var i := 0;
      while i < |arms|
        invariant i <= |arms| == |old(arms)|
        invariant forall k :: 0 <= k < i ==> arms[k] == PollArm(old(arms)[k], first[k])
        invariant forall k :: i <= k < |arms| ==> arms[k] == old(arms)[k]
        invariant FirstError(old(arms), first, 0) == if error.Some? then error else FirstError(old(arms), first, i)
        invariant terminal <==> exists k :: 0 <= k < i && Holds(arms[k], isTerminal)
        invariant pending <==> exists k :: 0 <= k < i && arms[k].Waiting?
      {
        match arms[i] {
          case Waiting =>
            match first[i] {
              case Yields(v) =>
                terminal := terminal || isTerminal(v);
                arms := arms[i := Done(Some(v))];
              case Fails(e) =>
                error := if error.None? then Some(e) else error;
                arms := arms[i := Broken];
              case Pending => pending := true;
            }
          case Done(slot) => terminal := terminal || (slot.Some? && isTerminal(slot.value));
          case Broken =>
        }
        i := i + 1;
      }
      ghost var after := PollArms(old(arms), first);
      assert arms == after;
      if error.None? && !terminal && pending {
        return None;
      }
      assert error.Some? || Settled(after, isTerminal);
      var ready, late := HarvestArms(second);
      return Some(Output(ready, if error.Some? then error else late));
    }

    method HarvestArms(second: seq<Answered<T>>) returns (ready: seq<(nat, T)>, error: Option<Id>)
      requires |arms| == |second|
      modifies this
      ensures ready == Collect(old(arms), second, 0) && error == FirstError(old(arms), second, 0)
    {
      hide Collect;
      ready, error := [], None;
      var i := 0;
      while i < |arms|
        invariant i <= |arms| == |old(arms)|
        invariant forall k :: i <= k < |arms| ==> arms[k] == old(arms)[k]
        invariant ready + Collect(old(arms), second, i) == Collect(old(arms), second, 0)
        invariant FirstError(old(arms), second, 0) == if error.Some? then error else FirstError(old(arms), second, i)
      {
        CollectUnfolds(old(arms), second, i);
        ghost var before, rest := ready, Collect(old(arms), second, i + 1);
        assert arms[i] == old(arms)[i];
        match arms[i] {
          case Done(slot) =>
            if slot.Some? {
              ready := ready + [(i, slot.value)];
              arms := arms[i := Done(None)];
            }
          case Waiting =>
            match second[i] {
              case Yields(v) => ready := ready + [(i, v)];
              case Fails(e) => error := if error.None? then Some(e) else error;
              case Pending =>
            }
          case Broken =>
        }
        assert ready == before + Handed(i, PollArm(old(arms)[i], second[i]));
        i := i + 1;
      }
      CollectUnfolds(old(arms), second, i);
    }
  }
}
