/** What the runners share: source events, observations, registrations, and the
    arithmetic of 64-bit counters and of timestamps. A provider is one queue of
    events per registration, in registration-set order. */
module Seam {
  import opened Wrappers

  type Id = string

  // ----- 64-bit counters -----

  const U64_MAX: int := 0xFFFF_FFFF_FFFF_FFFF

  type u64 = n: int | 0 <= n <= U64_MAX

  /** What a saturating counter shows for a true total of `n`. */
  function Saturated(n: nat): u64 {
    if n <= U64_MAX then n else U64_MAX
  }

  function SaturatingAdd(a: u64, b: nat): u64 {
    Saturated(a + b)
  }

  // ----- Timestamps, in nanoseconds -----

  const LAST_INSTANT: int := 253402300799_999_999_999

  type Instant = t: int | t <= LAST_INSTANT

  /** `Timestamp::saturating_add`: an unrepresentable sum leaves the instant. */
  function After(t: Instant, delay: nat): (r: Instant)
    ensures t <= r
  {
    if t + delay <= LAST_INSTANT then t + delay else t
  }

  // ----- Events and observations -----

  datatype Event = Event(
    eventId: Id,
    registrationId: Id,
    startAnchor: Id,
    proposedNext: Id,
    payloadRefLength: nat,
    digestLength: nat,
    mediaTypeLength: Option<nat>)

  /** Byte weight of the structured surface of one event. */
  function SurfaceBytes(e: Event): nat {
    e.payloadRefLength + e.digestLength + (if e.mediaTypeLength.Some? then e.mediaTypeLength.value else 0)
  }

  datatype Observation =
    | Observed(event: Event)
    | Idle
    | Overflow
    | Failed(reason: Id)
    | Outage(reason: Id)
    | CursorUncertain(reason: Id)
    | Degraded(reason: Id)

  /** What an observer hands over when asked: the event at the front of the
      arm's queue, or a signal of its own. */
  datatype Answer = Head | Signal(obs: Observation)

  /** What arm `i` hands over; the head of an empty queue is not ready. */
  function ObservationAt(queues: seq<seq<Event>>, answers: seq<Option<Answer>>, i: nat): Option<Observation>
    requires i < |queues| == |answers|
  {
    match answers[i]
    case None => None
    case Some(Head) => if queues[i] == [] then None else Some(Observed(queues[i][0]))
    case Some(Signal(obs)) => if obs.Observed? then None else Some(obs)
  }

  // ----- Registrations -----

  datatype Registration = Registration(
    id: Id,
    required: bool,
    leaseExpiresAt: Instant,
    maxEvents: u64,
    maxBytes: u64,
    startAnchor: Option<Id>,
    priority: Option<nat>)

  datatype RegistrationSet = RegistrationSet(
    registrations: seq<Registration>,
    authnRequired: bool,
    maxEvents: u64,
    maxBytes: u64)

  /** What a live wait or a held session is asked for. */
  datatype Request = Request(runDeadline: Instant, logicalDeadline: Instant, hasReceipt: bool)

  /** The first registration that carries `id`. */
  function IndexOf(registrations: seq<Registration>, id: Id): (r: Option<nat>)
    ensures r.Some? ==> r.value < |registrations| && registrations[r.value].id == id
    ensures r.Some? ==> forall j :: 0 <= j < r.value ==> registrations[j].id != id
    ensures r.None? ==> forall j :: 0 <= j < |registrations| ==> registrations[j].id != id
  {
    if registrations == [] then None
    else if registrations[0].id == id then Some(0)
    else
      match IndexOf(registrations[1..], id)
      case None =>
        assert forall j :: 1 <= j < |registrations| ==> registrations[j] == registrations[1..][j - 1];
        None
      case Some(k) =>
        assert forall j :: 1 <= j <= k ==> registrations[j] == registrations[1..][j - 1];
        Some(k + 1)
  }

  // ----- Events of one registration -----

  /** The events that `IndexOf` traces to arm `i`, in order. */
  function Of(rs: RegistrationSet, events: seq<Event>, i: nat): seq<Event> {
    if events == [] then []
    else if IndexOf(rs.registrations, events[0].registrationId) == Some(i) then
      [events[0]] + Of(rs, events[1..], i)
    else Of(rs, events[1..], i)
  }

  lemma {:induction false} OfConcat(rs: RegistrationSet, a: seq<Event>, b: seq<Event>, i: nat)
    ensures Of(rs, a + b, i) == Of(rs, a, i) + Of(rs, b, i)
  {
    if a == [] {
      assert a + b == b;
    } else {
      assert (a + b)[1..] == a[1..] + b;
      OfConcat(rs, a[1..], b, i);
    }
  }

  /** Every event of `events` belongs to arm `i`. */
  predicate Labelled(rs: RegistrationSet, events: seq<Event>, i: nat) {
    forall e :: e in events ==> IndexOf(rs.registrations, e.registrationId) == Some(i)
  }

  lemma {:induction false} OfLabelled(rs: RegistrationSet, events: seq<Event>, i: nat, j: nat)
    requires Labelled(rs, events, j)
    ensures Of(rs, events, i) == if i == j then events else []
  {
    if events != [] {
      OfLabelled(rs, events[1..], i, j);
    }
  }

  function TotalBytes(events: seq<Event>): nat {
    if events == [] then 0 else TotalBytes(events[..|events| - 1]) + SurfaceBytes(events[|events| - 1])
  }

  /** The events that carry registration id `id`, in order. */
  function WithId(events: seq<Event>, id: Id): seq<Event> {
    if events == [] then []
    else
      var before := WithId(events[..|events| - 1], id);
      if events[|events| - 1].registrationId == id then before + [events[|events| - 1]] else before
  }

  lemma TotalsOfPush(events: seq<Event>, e: Event)
    ensures TotalBytes(events + [e]) == TotalBytes(events) + SurfaceBytes(e)
    ensures forall id :: WithId(events + [e], id) ==
                         if e.registrationId == id then WithId(events, id) + [e] else WithId(events, id)
  {
    assert (events + [e])[..|events|] == events;
  }
}
