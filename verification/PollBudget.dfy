/** `CollectBudget` of `poll_cycle.rs`: what one cycle may still admit. */
module PollBudget {
  import opened Wrappers
  import opened Seam

  datatype Bound = Bound(maxEvents: Option<u64>, maxPayloadRefs: Option<u64>, maxBytes: Option<u64>)

  datatype Caps = Caps(events: u64, refs: u64, bytes: u64, regEvents: map<Id, u64>, regBytes: map<Id, u64>)

  datatype Budget = Budget(events: u64, refs: u64, bytes: u64, regEvents: map<Id, nat>, regBytes: map<Id, nat>)

  const EMPTY := Budget(0, 0, 0, map[], map[])

  function Min(a: u64, b: u64): u64 {
    if a <= b then a else b
  }

  function Or(limit: Option<u64>): u64 {
    if limit.Some? then limit.value else U64_MAX
  }

  function Cap(caps: map<Id, u64>, id: Id): u64 {
    if id in caps then caps[id] else U64_MAX
  }

  function Used(used: map<Id, nat>, id: Id): nat {
    if id in used then used[id] else 0
  }

  /** One entry per registration id; of two with one id, the later stands. */
  function EventCaps(registrations: seq<Registration>): (m: map<Id, u64>) {
    if registrations == [] then map[]
    else
      var last := registrations[|registrations| - 1];
      EventCaps(registrations[..|registrations| - 1])[last.id := last.maxEvents]
  }

  function ByteCaps(registrations: seq<Registration>): (m: map<Id, u64>) {
    if registrations == [] then map[]
    else
      var last := registrations[|registrations| - 1];
      ByteCaps(registrations[..|registrations| - 1])[last.id := last.maxBytes]
  }

  function CapsOf(rs: RegistrationSet, bound: Bound): Caps {
    Caps(Min(rs.maxEvents, Or(bound.maxEvents)), Or(bound.maxPayloadRefs), Min(rs.maxBytes, Or(bound.maxBytes)),
         EventCaps(rs.registrations), ByteCaps(rs.registrations))
  }

  predicate Exhausted(c: Caps, b: Budget) {
    !(b.events < c.events && b.refs < c.refs && b.bytes < c.bytes)
  }

  predicate RoomFor(c: Caps, b: Budget, id: Id) {
    !Exhausted(c, b) && Used(b.regEvents, id) < Cap(c.regEvents, id) && Used(b.regBytes, id) < Cap(c.regBytes, id)
  }

  /** Room is left everywhere, and the weight of `e` fits. */
  predicate Fits(c: Caps, b: Budget, e: Event) {
    && RoomFor(c, b, e.registrationId)
    && SaturatingAdd(b.bytes, SurfaceBytes(e)) <= c.bytes
    && Saturated(Used(b.regBytes, e.registrationId) + SurfaceBytes(e)) <= Cap(c.regBytes, e.registrationId)
  }

  function Charge(b: Budget, e: Event): Budget {
    var id, weight := e.registrationId, SurfaceBytes(e);
    Budget(SaturatingAdd(b.events, 1), SaturatingAdd(b.refs, 1), SaturatingAdd(b.bytes, weight),
           b.regEvents[id := Used(b.regEvents, id) + 1], b.regBytes[id := Used(b.regBytes, id) + weight])
  }

  /** `try_take`: the budget after admitting `e`, or nothing when it does not fit. */
  function Take(c: Caps, b: Budget, e: Event): Option<Budget> {
    if Fits(c, b, e) then Some(Charge(b, e)) else None
  }

  // ----- What the counters mean -----

  /** The counters are the totals over the events admitted so far. */
  ghost predicate Tallies(b: Budget, admitted: seq<Event>) {
    && b.events == b.refs == |admitted|
    && b.bytes == Saturated(TotalBytes(admitted))
    && forall id :: TalliesId(b, admitted, id)
  }

  predicate TalliesId(b: Budget, admitted: seq<Event>, id: Id) {
    Used(b.regEvents, id) == |WithId(admitted, id)| && Used(b.regBytes, id) == TotalBytes(WithId(admitted, id))
  }

  /** The admitted events stay below every limit. */
  ghost predicate WithinCaps(c: Caps, admitted: seq<Event>) {
    && |admitted| <= c.events && |admitted| <= c.refs && Saturated(TotalBytes(admitted)) <= c.bytes
    && forall id :: IdWithinCaps(c, admitted, id)
  }

  predicate IdWithinCaps(c: Caps, admitted: seq<Event>, id: Id) {
    |WithId(admitted, id)| <= Cap(c.regEvents, id) && Saturated(TotalBytes(WithId(admitted, id))) <= Cap(c.regBytes, id)
  }

  lemma PushOfId(admitted: seq<Event>, e: Event, id: Id)
    ensures WithId(admitted + [e], id) ==
            if e.registrationId == id then WithId(admitted, id) + [e] else WithId(admitted, id)
    ensures TotalBytes(admitted + [e]) == TotalBytes(admitted) + SurfaceBytes(e)
    ensures TotalBytes(WithId(admitted + [e], id)) ==
            TotalBytes(WithId(admitted, id)) + if e.registrationId == id then SurfaceBytes(e) else 0
  {
    TotalsOfPush(admitted, e);
    TotalsOfPush(WithId(admitted, id), e);
  }

  lemma NothingAdmitted(c: Caps)
    ensures Tallies(EMPTY, []) && WithinCaps(c, [])
  {
  }

  lemma ChargeTallies(b: Budget, e: Event, admitted: seq<Event>)
    requires Tallies(b, admitted) && |admitted| < U64_MAX
    ensures Tallies(Charge(b, e), admitted + [e])
  {
    hide WithId, TotalBytes, SurfaceBytes;
    PushOfId(admitted, e, e.registrationId);
    forall id ensures TalliesId(Charge(b, e), admitted + [e], id) {
      assert TalliesId(b, admitted, id);
      PushOfId(admitted, e, id);
    }
  }

  lemma PushWithinCaps(c: Caps, admitted: seq<Event>, e: Event)
    requires WithinCaps(c, admitted)
    ensures WithinCaps(c, admitted + [e]) <==>
            && |admitted| < c.events && |admitted| < c.refs
            && Saturated(TotalBytes(admitted) + SurfaceBytes(e)) <= c.bytes
            && |WithId(admitted, e.registrationId)| < Cap(c.regEvents, e.registrationId)
            && Saturated(TotalBytes(WithId(admitted, e.registrationId)) + SurfaceBytes(e)) <=
               Cap(c.regBytes, e.registrationId)
  {
    hide Cap, WithId, TotalBytes, SurfaceBytes, Saturated;
    PushOfId(admitted, e, e.registrationId);
    forall id | id != e.registrationId ensures IdWithinCaps(c, admitted + [e], id) {
      assert IdWithinCaps(c, admitted, id);
      PushOfId(admitted, e, id);
    }
    assert WithinCaps(c, admitted + [e]) ==> IdWithinCaps(c, admitted + [e], e.registrationId);
  }

  /** An event is admitted exactly when no byte limit is used up and the totals
      stay within every limit with it; they then count it. */
  lemma TakeMeets(c: Caps, b: Budget, e: Event, admitted: seq<Event>)
    requires Tallies(b, admitted) && WithinCaps(c, admitted)
    ensures Take(c, b, e).Some? <==>
            && TotalBytes(admitted) < c.bytes
            && TotalBytes(WithId(admitted, e.registrationId)) < Cap(c.regBytes, e.registrationId)
            && WithinCaps(c, admitted + [e])
    ensures Take(c, b, e).Some? ==> Tallies(Take(c, b, e).value, admitted + [e])
  {
    hide WithinCaps, Tallies, WithId, TotalBytes, Charge, Cap, Used, SurfaceBytes;
    PushWithinCaps(c, admitted, e);
    BudgetReads(b, admitted, e.registrationId);
    if Take(c, b, e).Some? {
      ChargeTallies(b, e, admitted);
    }
  }

  lemma BudgetReads(b: Budget, admitted: seq<Event>, id: Id)
    requires Tallies(b, admitted)
    ensures b.events == b.refs == |admitted| && b.bytes == Saturated(TotalBytes(admitted))
    ensures Used(b.regEvents, id) == |WithId(admitted, id)| && Used(b.regBytes, id) == TotalBytes(WithId(admitted, id))
  {
    assert TalliesId(b, admitted, id);
  }

  // ----- Totals do not depend on the order of admission -----

  lemma {:induction false} TotalsOfConcat(a: seq<Event>, b: seq<Event>)
    ensures TotalBytes(a + b) == TotalBytes(a) + TotalBytes(b)
    ensures forall id :: WithId(a + b, id) == WithId(a, id) + WithId(b, id)
  {
    if b == [] {
      assert a + b == a;
    } else {
      var front, last := b[..|b| - 1], b[|b| - 1];
      assert b == front + [last];
      assert a + b == (a + front) + [last];
      TotalsOfConcat(a, front);
      TotalsOfPush(a + front, last);
      TotalsOfPush(front, last);
    }
  }

  ghost predicate SameTotals(a: seq<Event>, b: seq<Event>) {
    && |a| == |b| && TotalBytes(a) == TotalBytes(b)
    && forall id :: |WithId(a, id)| == |WithId(b, id)| && TotalBytes(WithId(a, id)) == TotalBytes(WithId(b, id))
  }

  lemma TotalsOfInsert(before: seq<Event>, es: seq<Event>, after: seq<Event>)
    ensures SameTotals(before + es + after, before + after + es)
  {
    TotalsOfConcat(before + es, after);
    TotalsOfConcat(before, es);
    TotalsOfConcat(before + after, es);
    TotalsOfConcat(before, after);
    forall id
      ensures TotalBytes(WithId(before + es + after, id)) == TotalBytes(WithId(before + after + es, id))
    {
      TotalsOfConcat(WithId(before, id) + WithId(es, id), WithId(after, id));
      TotalsOfConcat(WithId(before, id), WithId(es, id));
      TotalsOfConcat(WithId(before, id) + WithId(after, id), WithId(es, id));
      TotalsOfConcat(WithId(before, id), WithId(after, id));
    }
  }

  lemma SameTotalsMeet(c: Caps, b: Budget, admitted: seq<Event>, other: seq<Event>)
    requires Tallies(b, admitted) && WithinCaps(c, admitted) && SameTotals(other, admitted)
    ensures Tallies(b, other) && WithinCaps(c, other)
  {
    hide WithId, TotalBytes;
    forall id ensures TalliesId(b, other, id) && IdWithinCaps(c, other, id) {
      assert TalliesId(b, admitted, id) && IdWithinCaps(c, admitted, id);
    }
  }

  // ----- The budget as it runs -----

  class CollectBudget {
    const caps: Caps
    var events: u64
    var payloadRefs: u64
    var bytes: u64
    var perRegEvents: map<Id, nat>
    var perRegBytes: map<Id, nat>

    function View(): Budget
      reads this
    {
      Budget(events, payloadRefs, bytes, perRegEvents, perRegBytes)
    }

    constructor (rs: RegistrationSet, bound: Bound)
      ensures caps == CapsOf(rs, bound) && View() == EMPTY
    {
      var regMaxEvents, regMaxBytes: map<Id, u64> := map[], map[];
      var i := 0;
      while i < |rs.registrations|
        invariant i <= |rs.registrations|
        invariant regMaxEvents == EventCaps(rs.registrations[..i]) && regMaxBytes == ByteCaps(rs.registrations[..i])
      {
        var reg := rs.registrations[i];
        regMaxEvents, regMaxBytes := regMaxEvents[reg.id := reg.maxEvents], regMaxBytes[reg.id := reg.maxBytes];
        assert rs.registrations[..i + 1][..i] == rs.registrations[..i];
        i := i + 1;
      }
      assert rs.registrations[..i] == rs.registrations;
      caps := Caps(Min(rs.maxEvents, Or(bound.maxEvents)), Or(bound.maxPayloadRefs),
                   Min(rs.maxBytes, Or(bound.maxBytes)),
                   regMaxEvents, regMaxBytes);
      events, payloadRefs, bytes, perRegEvents, perRegBytes := 0, 0, 0, map[], map[];
    }

    /** Admits `e` or changes nothing; the counters stay the totals over what was admitted. */
    method TryTake(e: Event, ghost admitted: seq<Event>) returns (ok: bool)
      requires Tallies(View(), admitted) && WithinCaps(caps, admitted)
      modifies this
      ensures ok == Take(caps, old(View()), e).Some?
      ensures View() == if ok then Take(caps, old(View()), e).value else old(View())
      ensures var now := if ok then admitted + [e] else admitted; Tallies(View(), now) && WithinCaps(caps, now)
    {
      hide Tallies, WithinCaps, Used, Cap, SurfaceBytes, WithId, TotalBytes, RoomFor, Saturated;
      TakeMeets(caps, View(), e, admitted);
      if !Fits(caps, View(), e) {
        return false;
      }
      var id, weight := e.registrationId, SurfaceBytes(e);
      events := SaturatingAdd(events, 1);
      payloadRefs := SaturatingAdd(payloadRefs, 1);
      bytes := SaturatingAdd(bytes, weight);
      perRegEvents := perRegEvents[id := Used(perRegEvents, id) + 1];
      perRegBytes := perRegBytes[id := Used(perRegBytes, id) + weight];
      return true;
    }
  }
}
