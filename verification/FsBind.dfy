/** One filesystem bind of `waitprims-fs`: the anchors it mints, the events it
    owns, and the queue of events given back. */
module FsBind {
  import opened Wrappers
  import opened Seam
  import opened Decimal

  // ----- Tokens -----

  /** `format!("{namespace}-{session}-{sequence}")`. */
  function Token(namespace: string, session: u64, sequence: nat): string {
    namespace + "-" + Print(session) + "-" + Print(sequence)
  }

  /** `str::parse::<u64>`: digits, perhaps after a plus sign. */
  function ParseU64(s: string): Option<u64> {
    var digits := if s != "" && s[0] == '+' then s[1..] else s;
    if digits == "" || !AllDigits(digits) || Read(digits) > U64_MAX then None else Some(Read(digits))
  }

  function FirstDash(s: string): (i: Option<nat>)
    ensures i.Some? ==> i.value < |s| && s[i.value] == '-' && forall k :: 0 <= k < i.value ==> s[k] != '-'
    ensures i.None? ==> forall k :: 0 <= k < |s| ==> s[k] != '-'
  {
    if s == "" then None
    else if s[0] == '-' then Some(0)
    else
      match FirstDash(s[1..])
      case None =>
        assert forall k :: 1 <= k < |s| ==> s[k] == s[1..][k - 1];
        None
      case Some(i) =>
        assert forall k :: 1 <= k <= i ==> s[k] == s[1..][k - 1];
        Some(i + 1)
  }

  /** `fs_token_sequence`. */
  function TokenSequence(value: string, namespace: string, session: u64): Option<u64> {
    if !(namespace + "-" <= value) then None
    else
      var rest := value[|namespace| + 1..];
      match FirstDash(rest)
      case None => None
      case Some(i) => if ParseU64(rest[..i]) == Some(session) then ParseU64(rest[i + 1..]) else None
  }

  lemma ParseOfPrint(n: u64)
    ensures ParseU64(Print(n)) == Some(n)
    ensures forall k :: 0 <= k < |Print(n)| ==> Print(n)[k] != '-'
  {
    ReadOfPrint(n);
    assert IsDigit(Print(n)[0]);
  }

  lemma FirstDashAt(a: string, b: string)
    requires '-' !in a
    ensures FirstDash(a + "-" + b) == Some(|a|)
  {
    var rest := a + "-" + b;
    assert rest[|a|] == '-';
    assert forall k :: 0 <= k < |a| ==> rest[k] == a[k];
  }

  /** Two parts after a namespace are read apart at the first dash. */
  lemma PartsAreRead(namespace: string, a: string, b: string, session: u64)
    requires '-' !in a
    ensures TokenSequence(namespace + "-" + (a + "-" + b), namespace, session) ==
            if ParseU64(a) == Some(session) then ParseU64(b) else None
  {
    var rest := a + "-" + b;
    var value := namespace + "-" + rest;
    hide ParseU64, FirstDash;
    FirstDashAt(a, b);
    assert value[|namespace| + 1..] == rest;
    assert rest[..|a|] == a && rest[|a| + 1..] == b;
  }

  lemma TokenParts(namespace: string, session: u64, sequence: nat)
    ensures Token(namespace, session, sequence) == namespace + "-" + (Print(session) + "-" + Print(sequence))
  {
    hide Print;
  }

  /** A token reads back as its sequence under its own session, and as nothing
      under any other. */
  lemma TokenRoundTrip(namespace: string, session: u64, sequence: u64, other: u64)
    ensures TokenSequence(Token(namespace, session, sequence), namespace, other) ==
            if other == session then Some(sequence) else None
  {
    hide *;
    ParseOfPrint(session);
    ParseOfPrint(sequence);
    TokenParts(namespace, session, sequence);
    PartsAreRead(namespace, Print(session), Print(sequence), other);
  }

  /** Tokens of another namespace are never read. */
  lemma NamespacesApart(namespace: string, other: string, session: u64, sequence: u64, reader: u64)
    requires |namespace| == |other| && namespace != other
    ensures TokenSequence(Token(namespace, session, sequence), other, reader) == None
  {
    var value := Token(namespace, session, sequence);
    assert value[..|namespace|] == namespace;
    if other + "-" <= value {
      assert false;
    }
  }

  /** `value` spells the two numbers, in any way that parses. */
  predicate Spells(value: string, namespace: string, session: u64, sequence: u64, a: string, b: string) {
    && value == namespace + "-" + (a + "-" + b) && '-' !in a
    && ParseU64(a) == Some(session) && ParseU64(b) == Some(sequence)
  }

  lemma SpelledIsRead(value: string, namespace: string, session: u64, sequence: u64, a: string, b: string)
    requires Spells(value, namespace, session, sequence, a, b)
    ensures TokenSequence(value, namespace, session) == Some(sequence)
  {
    hide TokenSequence, ParseU64;
    PartsAreRead(namespace, a, b, session);
  }

  /** Exactly what is read as `sequence`: any spelling of the two numbers that
      parses, not only the printed one. */
  lemma TokenSequenceIff(value: string, namespace: string, session: u64, sequence: u64)
    ensures TokenSequence(value, namespace, session) == Some(sequence) <==>
            exists a: string, b: string :: Spells(value, namespace, session, sequence, a, b)
  {
    hide ParseU64;
    if TokenSequence(value, namespace, session) == Some(sequence) {
      var rest := value[|namespace| + 1..];
      var i := FirstDash(rest).value;
      var a, b := rest[..i], rest[i + 1..];
      assert rest == a + "-" + b;
      assert value == namespace + "-" + rest;
      assert Spells(value, namespace, session, sequence, a, b);
    }
    if a: string, b: string :| Spells(value, namespace, session, sequence, a, b) {
      SpelledIsRead(value, namespace, session, sequence, a, b);
    }
  }

  /** Such a spelling, which no bind prints: a plus sign before the sequence. */
  lemma PlusSignIsRead(session: u64, sequence: u64)
    ensures TokenSequence("evt:fs" + "-" + (Print(session) + "-" + ("+" + Print(sequence))), "evt:fs", session) ==
              Some(sequence)
  {
    hide Print, TokenSequence;
    ParseOfPrint(session);
    ParseOfPrint(sequence);
    var plus := "+" + Print(sequence);
    assert plus[1..] == Print(sequence);
    assert ParseU64(plus) == Some(sequence) by {
      PlusParses(Print(sequence));
    }
    SpelledIsRead("evt:fs" + "-" + (Print(session) + "-" + plus), "evt:fs", session, sequence, Print(session), plus);
  }

  lemma PlusParses(digits: string)
    requires digits != "" && AllDigits(digits)
    ensures ParseU64("+" + digits) == ParseU64(digits)
  {
    assert ("+" + digits)[1..] == digits;
    assert IsDigit(digits[0]);
  }

  // ----- Events -----

  datatype Scope = Scope(registrationId: Id, sourceInstance: Id, methodId: Id, subjectKind: Id, subjectId: Id)

  datatype Anchor = Anchor(providerOpaque: bool, value: Id)

  datatype FsEvent = FsEvent(eventId: Id, scope: Scope, startAnchor: Anchor, proposedNext: Anchor, correlationId: Id)

  datatype FsObservation =
    | Seen(event: FsEvent)
    | OverflowSeen
    | FailedSeen(reason: Id)
    | UncertainSeen(reason: Id)
    | DegradedSeen(reason: Id)

  function AnchorAt(session: u64, sequence: nat): Anchor {
    Anchor(true, Token("anc:fs", session, sequence))
  }

  /** `owns`: the scope of the bind, and tokens of its session that agree on one
      sequence, the start anchor one before it. */
  predicate Owns(scope: Scope, session: u64, obs: FsObservation) {
    obs.Seen? &&
    var e := obs.event;
    var sequence := TokenSequence(e.eventId, "evt:fs", session);
    && sequence.Some? && e.scope == scope
    && TokenSequence(e.correlationId, "cor:fs", session) == sequence
    && e.startAnchor.providerOpaque
    && TokenSequence(e.startAnchor.value, "anc:fs", session) ==
         (if sequence.value > 0 then Some(sequence.value - 1) else None)
    && e.proposedNext.providerOpaque
    && TokenSequence(e.proposedNext.value, "anc:fs", session) == sequence
  }

  /** The event a bind mints as its `sequence`-th, from `start`. */
  function Minted(scope: Scope, session: u64, start: Anchor, sequence: nat): FsEvent {
    FsEvent(Token("evt:fs", session, sequence), scope, start, AnchorAt(session, sequence),
            Token("cor:fs", session, sequence))
  }

  /** The `sequence`-th event of an unbroken chain. */
  function Nth(scope: Scope, session: u64, sequence: nat): FsEvent
    requires sequence > 0
  {
    Minted(scope, session, AnchorAt(session, sequence - 1), sequence)
  }

  /** A bind owns what it minted, and nothing minted under another session or scope. */
  lemma OwnsExactlyItsOwn(scope: Scope, session: u64, sequence: u64, otherScope: Scope, otherSession: u64)
    requires sequence > 0
    ensures Owns(otherScope, otherSession, Seen(Nth(scope, session, sequence))) <==>
              scope == otherScope && session == otherSession
  {
    hide TokenSequence, Token;
    TokenRoundTrip("evt:fs", session, sequence, otherSession);
    TokenRoundTrip("cor:fs", session, sequence, otherSession);
    TokenRoundTrip("anc:fs", session, sequence, otherSession);
    TokenRoundTrip("anc:fs", session, sequence - 1, otherSession);
  }

  // ----- The bind, as a value -----

  datatype FileEventClass = Create | Write | Remove | Rename | Ambiguous

  datatype Predicate = OnCreate | OnWrite | OnRemove | OnRename | OnAny

  predicate Matches(p: Predicate, k: FileEventClass) {
    p.OnAny? || (p.OnCreate? && k.Create?) || (p.OnWrite? && k.Write?) || (p.OnRemove? && k.Remove?)
    || (p.OnRename? && k.Rename?)
  }

  datatype SinkAnswer = SinkFailed | WrongDigest | Materialized

  /** A change as the backend reports it. `paths` is how many stay after
      normalization, or nothing when it fails. */
  datatype Change = Change(targetSafe: bool, paths: Option<nat>, kind: FileEventClass, descriptorBytes: nat,
                           sink: SinkAnswer)

  datatype BackendSignal = Rescan | BackendFailed | Changed(change: Change)

  datatype Binding = Binding(
    scope: Scope,
    session: u64,
    filter: Predicate,
    maxBytes: u64,
    sequence: nat,
    currentAnchor: Anchor,
    restored: seq<FsObservation>,
    overflowed: bool,
    released: bool,
    terminal: Option<FsObservation>)

  /** What `process_event` answers before it mints; nothing when it will mint. */
  datatype Verdict = Ignore | Answer(obs: FsObservation) | Mint

  function Judge(b: Binding, c: Change): Verdict {
    if !c.targetSafe then Answer(FailedSeen("fs_path_uncertain"))
    else if c.paths.None? then Answer(FailedSeen("fs_path_uncertain"))
    else if c.paths.value == 0 then Ignore
    else if c.kind.Ambiguous? && !b.filter.OnAny? then Answer(DegradedSeen("fs_ambiguous_event_class"))
    else if !Matches(b.filter, c.kind) then Ignore
    else if c.descriptorBytes > b.maxBytes then Answer(OverflowSeen)
    else if c.sink.SinkFailed? then Answer(FailedSeen("fs_event_ref_sink_failed"))
    else if c.sink.WrongDigest? then Answer(FailedSeen("fs_event_ref_digest_mismatch"))
    else Mint
  }

  function Process(b: Binding, signal: BackendSignal): (Binding, Option<FsObservation>)
  {
    if b.released then (b, Some(FailedSeen("fs_bind_released")))
    else
      match signal
      case Rescan => (b, Some(UncertainSeen("fs_rescan_required")))
      case BackendFailed => (b, Some(FailedSeen("fs_native_watch_failed")))
      case Changed(change) =>
        match Judge(b, change)
        case Ignore => (b, None)
        case Answer(obs) => (b, Some(obs))
        case Mint =>
          var sequence := b.sequence + 1;
          (b.(sequence := sequence, currentAnchor := AnchorAt(b.session, sequence)),
           Some(Seen(Minted(b.scope, b.session, b.currentAnchor, sequence))))
  }

  function Immediate(b: Binding): (Binding, Option<FsObservation>) {
    if b.released then (b, Some(FailedSeen("fs_bind_released")))
    else if b.restored != [] then (b.(restored := b.restored[1..]), Some(b.restored[0]))
    else if b.overflowed then (b.(overflowed := false), Some(OverflowSeen))
    else (b.(terminal := None), b.terminal)
  }

  /** The first signal that yields something. */
  function ProcessAll(b: Binding, signals: seq<BackendSignal>): (Binding, Option<FsObservation>)
  {
    if signals == [] then (b, None)
    else
      var (next, obs) := Process(b, signals[0]);
      if obs.Some? then (next, obs) else ProcessAll(next, signals[1..])
  }

  /** `poll_ready`: what is at hand, else what the queued signals yield. */
  function Poll(b: Binding, signals: seq<BackendSignal>): (Binding, Option<FsObservation>)
  {
    var (next, obs) := Immediate(b);
    if obs.Some? then (next, obs) else ProcessAll(next, signals)
  }

  /** `restore_ready`: only an owned observation goes back, in front. */
  function Restore(b: Binding, obs: FsObservation): Option<Binding> {
    if Owns(b.scope, b.session, obs) then Some(b.(restored := [obs] + b.restored)) else None
  }

  // ----- Which changes are minted -----

  /** The class each filter is for; `OnAny` takes every class. */
  const WATCHED: map<Predicate, FileEventClass> := map[
    OnCreate := Create, OnWrite := Write, OnRemove := Remove, OnRename := Rename
  ]

  predicate Wanted(filter: Predicate, kind: FileEventClass) {
    filter.OnAny? || (filter in WATCHED && WATCHED[filter] == kind)
  }

  /** The target is safe, and the change still names a path inside it. */
  predicate Inside(change: Change) {
    change.targetSafe && change.paths.Some? && change.paths.value > 0
  }

  /** What a live bind answers to a change: an event exactly when the change is
      inside, wanted, within the byte limit, and materialized as it should be. */
  lemma MintsIff(b: Binding, change: Change)
    requires !b.released
    ensures var (next, obs) := Process(b, Changed(change));
            var unsure := !change.targetSafe || change.paths.None?;
            var wanted := Inside(change) && Wanted(b.filter, change.kind);
            var fits := wanted && change.descriptorBytes <= b.maxBytes;
            && (obs.Some? && obs.value.Seen? <==> fits && change.sink.Materialized?)
            && (obs == Some(FailedSeen("fs_path_uncertain")) <==> unsure)
            && (obs == Some(DegradedSeen("fs_ambiguous_event_class")) <==>
                  Inside(change) && !wanted && change.kind.Ambiguous?)
            && (obs == None <==> !unsure && !wanted && !(Inside(change) && change.kind.Ambiguous?))
            && (obs == Some(OverflowSeen) <==> wanted && !fits)
            && (obs == Some(FailedSeen("fs_event_ref_sink_failed")) <==> fits && change.sink.SinkFailed?)
            && (obs == Some(FailedSeen("fs_event_ref_digest_mismatch")) <==> fits && change.sink.WrongDigest?)
            && (obs.Some? && obs.value.Seen? ==> next.sequence == b.sequence + 1)
            && (!(obs.Some? && obs.value.Seen?) ==> next == b)
  {
    hide Token;
    assert "fs_path_uncertain"[3] == 'p' && "fs_event_ref_sink_failed"[3] == 'e';
    assert "fs_event_ref_sink_failed"[13] == 's' && "fs_event_ref_digest_mismatch"[13] == 'd';
  }

  /** A poll of a live bind with nothing at hand passes over the changes it ignores
      and answers the first other signal. */
  lemma {:induction false} FirstSignalAnswers(b: Binding, signals: seq<BackendSignal>)
    requires !b.released
    ensures var (next, obs) := ProcessAll(b, signals);
            && (obs == None ==> next == b && forall k :: 0 <= k < |signals| ==> Process(b, signals[k]) == (b, None))
            && (obs.Some? ==>
                  exists k :: 0 <= k < |signals| && Process(b, signals[k]) == (next, obs)
                              && forall j :: 0 <= j < k ==> Process(b, signals[j]) == (b, None))
    decreases |signals|
  {
    hide Judge, Minted, AnchorAt;
    if signals != [] {
      var (first, obs) := Process(b, signals[0]);
      if obs.None? {
        FirstSignalAnswers(b, signals[1..]);
        hide Process;
        assert forall k :: 1 <= k < |signals| ==> signals[k] == signals[1..][k - 1];
        var (next, answer) := ProcessAll(b, signals[1..]);
        if answer.Some? {
          var k :| 0 <= k < |signals[1..]| && Process(b, signals[1..][k]) == (next, answer)
                   && forall j :: 0 <= j < k ==> Process(b, signals[1..][j]) == (b, None);
          assert Process(b, signals[k + 1]) == (next, answer);
        }
      }
    }
  }

  // ----- Every run of one bind -----

  /** A bind and the events taken from it that have not been given back. */
  datatype Run = Run(b: Binding, held: seq<FsEvent>)

  /** `GivesBack(k)` returns the `k`-th event out, whichever it is; `Presents` hands
      the bind an observation from anywhere else. */
  datatype Action =
    | Polls(signals: seq<BackendSignal>)
    | GivesBackNewest
    | GivesBack(k: nat)
    | Presents(obs: FsObservation)
    | Overflows
    | Releases

  function Act(r: Run, a: Action): Run
  {
    match a
    case Polls(signals) =>
      var (next, obs) := Poll(r.b, signals);
      Run(next, if obs.Some? && obs.value.Seen? then r.held + [obs.value.event] else r.held)
    case GivesBackNewest =>
      if r.held == [] then r
      else
        (match Restore(r.b, Seen(r.held[|r.held| - 1]))
         case None => r
         case Some(next) => Run(next, r.held[..|r.held| - 1]))
    case GivesBack(k) =>
      if k >= |r.held| then r
      else
        (match Restore(r.b, Seen(r.held[k]))
         case None => r
         case Some(next) => Run(next, r.held[..k] + r.held[k + 1..]))
    case Presents(obs) =>
      (match Restore(r.b, obs)
       case None => r
       case Some(next) => r.(b := next))
    case Overflows => r.(b := r.b.(overflowed := true))
    case Releases => r.(b := r.b.(released := true))
  }

  function NthOf(b: Binding, k: nat): FsObservation
  {
    Seen(Nth(b.scope, b.session, k + 1))
  }

  /** The events out and the events given back are, in this order, the whole
      chain: the first, the second, up to the last one minted; and the anchor is
      the one after it. */
  ghost predicate Chained(r: Run) {
    && r.b.currentAnchor == AnchorAt(r.b.session, r.b.sequence)
    && |r.held| + |r.b.restored| == r.b.sequence
    && (forall k :: 0 <= k < |r.held| ==> Seen(r.held[k]) == NthOf(r.b, k))
    && (forall k :: 0 <= k < |r.b.restored| ==> r.b.restored[k] == NthOf(r.b, |r.held| + k))
    && (r.b.terminal.Some? ==> !r.b.terminal.value.Seen?)
  }

  lemma {:induction false} ProcessAllChains(r: Run, signals: seq<BackendSignal>)
    requires Chained(r) && r.b.restored == []
    ensures var (next, obs) := ProcessAll(r.b, signals);
            Chained(Run(next, if obs.Some? && obs.value.Seen? then r.held + [obs.value.event] else r.held))
  {
    hide Token;
    if signals != [] {
      var (next, obs) := Process(r.b, signals[0]);
      if obs.None? {
        ProcessAllChains(Run(next, r.held), signals[1..]);
      }
    }
  }

  lemma PollChains(r: Run, signals: seq<BackendSignal>)
    requires Chained(r)
    ensures Chained(Act(r, Polls(signals)))
  {
    hide Token;
    if !r.b.released {
      if r.b.restored != [] {
        assert r.b.restored[0] == NthOf(r.b, |r.held|);
      } else {
        var (next, obs) := Immediate(r.b);
        if obs.None? {
          ProcessAllChains(Run(next, r.held), signals);
        }
      }
    }
  }

  /** The newest event out is owned, so it is taken back. */
  lemma GiveBackChains(r: Run)
    requires Chained(r) && r.b.sequence <= U64_MAX
    ensures Chained(Act(r, GivesBackNewest))
    ensures r.held != [] ==> |Act(r, GivesBackNewest).held| == |r.held| - 1
  {
    hide Token, Owns;
    if r.held != [] {
      var n := |r.held| - 1;
      assert Seen(r.held[n]) == NthOf(r.b, n);
      OwnsExactlyItsOwn(r.b.scope, r.b.session, n + 1, r.b.scope, r.b.session);
      var next := Act(r, GivesBackNewest);
      forall k | 0 <= k < |next.b.restored| ensures next.b.restored[k] == NthOf(next.b, |next.held| + k) {
        if k > 0 {
          assert next.b.restored[k] == r.b.restored[k - 1];
        }
      }
    }
  }

  function Acts(r: Run, actions: seq<Action>): Run
    decreases |actions|
  {
    if actions == [] then r else Acts(Act(r, actions[0]), actions[1..])
  }

  lemma {:induction false} ProcessAllSequence(b: Binding, signals: seq<BackendSignal>)
    ensures ProcessAll(b, signals).0.sequence <= b.sequence + 1
  {
    if signals != [] && Process(b, signals[0]).1.None? {
      ProcessAllSequence(Process(b, signals[0]).0, signals[1..]);
    }
  }

  lemma ActSequence(r: Run, a: Action)
    ensures Act(r, a).b.sequence <= r.b.sequence + 1
  {
    if a.Polls? {
      ProcessAllSequence(Immediate(r.b).0, a.signals);
    }
  }

  /** Events go back newest first, and nothing else is taken back. */
  ghost predicate NewestFirst(r: Run, a: Action) {
    && !a.GivesBack?
    && (a.Presents? ==> !Owns(r.b.scope, r.b.session, a.obs))
  }

  ghost predicate AllNewestFirst(r: Run, actions: seq<Action>)
    decreases |actions|
  {
    actions != [] ==> NewestFirst(r, actions[0]) && AllNewestFirst(Act(r, actions[0]), actions[1..])
  }

  lemma {:induction false} ActsChain(r: Run, actions: seq<Action>)
    requires Chained(r) && r.b.sequence + |actions| <= U64_MAX && AllNewestFirst(r, actions)
    ensures Chained(Acts(r, actions))
    decreases |actions|
  {
    if actions != [] {
      hide Act, Chained, Owns;
      var a := actions[0];
      ActSequence(r, a);
      match a {
        case Polls(signals) => PollChains(r, signals);
        case GivesBackNewest => GiveBackChains(r);
        case Presents(obs) => RefusedStays(r, obs);
        case Overflows => FlagsChain(r, a);
        case Releases => FlagsChain(r, a);
        case _ =>
      }
      ActsChain(Act(r, a), actions[1..]);
    }
  }

  lemma RefusedStays(r: Run, obs: FsObservation)
    requires !Owns(r.b.scope, r.b.session, obs)
    ensures Act(r, Presents(obs)) == r
  {
    hide Owns;
  }

  lemma FlagsChain(r: Run, a: Action)
    requires Chained(r) && (a.Overflows? || a.Releases?)
    ensures Chained(Act(r, a))
  {
  }

  function Opened(scope: Scope, session: u64, filter: Predicate, maxBytes: u64,
                  terminal: Option<FsObservation>): Binding {
    Binding(scope, session, filter, maxBytes, 0, AnchorAt(session, 0), [], false, false, terminal)
  }

  lemma OpenedChains(scope: Scope, session: u64, filter: Predicate, maxBytes: u64, terminal: Option<FsObservation>)
    requires terminal.Some? ==> !terminal.value.Seen?
    ensures Chained(Run(Opened(scope, session, filter, maxBytes, terminal), []))
  {
  }

  /** From the opening of a bind, over any interleaving of polls, signals, give-backs
      newest first, refused observations, overflows and release: nothing is lost,
      repeated or reordered, and the anchors form one chain. */
  lemma RunChains(scope: Scope, session: u64, filter: Predicate, maxBytes: u64, terminal: Option<FsObservation>,
                  actions: seq<Action>)
    requires (terminal.Some? ==> !terminal.value.Seen?) && |actions| <= U64_MAX
    requires AllNewestFirst(Run(Opened(scope, session, filter, maxBytes, terminal), []), actions)
    ensures Chained(Acts(Run(Opened(scope, session, filter, maxBytes, terminal), []), actions))
  {
    OpenedChains(scope, session, filter, maxBytes, terminal);
    ActsChain(Run(Opened(scope, session, filter, maxBytes, terminal), []), actions);
  }

  // ----- Give-backs in any order -----

  /** The anchor is the one after the last event minted. */
  ghost predicate Anchored(b: Binding) {
    && b.currentAnchor == AnchorAt(b.session, b.sequence)
    && (b.terminal.Some? ==> !b.terminal.value.Seen?)
  }

  lemma {:induction false} ProcessAllMints(b: Binding, signals: seq<BackendSignal>)
    requires Anchored(b)
    ensures var (next, obs) := ProcessAll(b, signals);
            && Anchored(next) && next == b.(sequence := next.sequence, currentAnchor := next.currentAnchor)
            && (if obs.Some? && obs.value.Seen? then
                  next.sequence == b.sequence + 1 && obs.value == NthOf(b, b.sequence)
                else next.sequence == b.sequence)
  {
    hide Token;
    if signals != [] {
      var (next, obs) := Process(b, signals[0]);
      if obs.None? {
        ProcessAllMints(next, signals[1..]);
      }
    }
  }

  /** The event that an action mints, if it does. */
  function Fresh(r: Run, a: Action): seq<FsEvent> {
    if a.Polls? && !r.b.released && r.b.restored == [] && Poll(r.b, a.signals).1.Some?
       && Poll(r.b, a.signals).1.value.Seen?
    then
      [Poll(r.b, a.signals).1.value.event]
    else []
  }

  function AllFresh(r: Run, actions: seq<Action>): seq<FsEvent>
    decreases |actions|
  {
    if actions == [] then [] else Fresh(r, actions[0]) + AllFresh(Act(r, actions[0]), actions[1..])
  }

  /** The events after the `from`-th, `n` of them. */
  function Chain(b: Binding, from: nat, n: nat): (r: seq<FsEvent>)
    ensures |r| == n && forall k :: 0 <= k < n ==> Seen(r[k]) == NthOf(b, from + k)
  {
    seq(n, k requires 0 <= k < n => Nth(b.scope, b.session, from + k + 1))
  }

  lemma ActMints(r: Run, a: Action)
    requires Anchored(r.b)
    ensures var next := Act(r, a);
            && Anchored(next.b) && next.b.scope == r.b.scope && next.b.session == r.b.session
            && next.b.sequence == r.b.sequence + |Fresh(r, a)| && |Fresh(r, a)| <= 1
            && (Fresh(r, a) != [] ==> Seen(Fresh(r, a)[0]) == NthOf(r.b, r.b.sequence))
  {
    hide Token, Owns;
    if a.Polls? && !r.b.released && r.b.restored == [] {
      var (next, obs) := Immediate(r.b);
      if obs.None? {
        ProcessAllMints(next, a.signals);
      }
    }
  }

  /** Whatever is given back, in whatever order, and whatever else the bind is handed:
      the events it mints are the next ones of one chain, each once, in order, and the
      anchor is the one after the last. */
  lemma {:induction false} FreshEventsChain(r: Run, actions: seq<Action>)
    requires Anchored(r.b)
    ensures var last := Acts(r, actions).b;
            && Anchored(last) && r.b.sequence <= last.sequence
            && last.scope == r.b.scope && last.session == r.b.session
            && AllFresh(r, actions) == Chain(r.b, r.b.sequence, last.sequence - r.b.sequence)
    decreases |actions|
  {
    NoChain(r.b);
    hide Act, Fresh, Anchored, Chain;
    if actions != [] {
      var a := actions[0];
      var next := Act(r, a);
      ActMints(r, a);
      FreshEventsChain(next, actions[1..]);
      ChainAfter(r.b, next.b, Fresh(r, a), Acts(next, actions[1..]).b.sequence);
    }
  }

  lemma NoChain(b: Binding)
    ensures Chain(b, b.sequence, 0) == []
  {
  }

  lemma ChainAfter(b: Binding, next: Binding, minted: seq<FsEvent>, last: nat)
    requires next.scope == b.scope && next.session == b.session && next.sequence == b.sequence + |minted| <= last
    requires |minted| <= 1 && (minted != [] ==> Seen(minted[0]) == NthOf(b, b.sequence))
    ensures minted + Chain(next, next.sequence, last - next.sequence) == Chain(b, b.sequence, last - b.sequence)
  {
    hide Nth;
  }

  function Outs(held: seq<FsEvent>): (r: seq<FsObservation>)
    ensures |r| == |held| && forall k :: 0 <= k < |held| ==> r[k] == Seen(held[k])
  {
    seq(|held|, k requires 0 <= k < |held| => Seen(held[k]))
  }

  /** The events out and the events given back are the whole chain, in some order. */
  ghost predicate Conserved(r: Run) {
    && Anchored(r.b)
    && multiset(Outs(r.held)) + multiset(r.b.restored) == multiset(Outs(Chain(r.b, 0, r.b.sequence)))
  }

  lemma InChain(r: Run, obs: FsObservation)
    requires Conserved(r) && (obs in Outs(r.held) || obs in r.b.restored) && r.b.sequence <= U64_MAX
    ensures obs.Seen? && Owns(r.b.scope, r.b.session, obs)
  {
    hide Owns;
    var chain := Outs(Chain(r.b, 0, r.b.sequence));
    assert obs in multiset(Outs(r.held)) + multiset(r.b.restored);
    assert obs in multiset(chain);
    var k :| 0 <= k < |chain| && chain[k] == obs;
    OwnsExactlyItsOwn(r.b.scope, r.b.session, k + 1, r.b.scope, r.b.session);
  }

  lemma TakenOut<T>(s: seq<T>, k: nat)
    requires k < |s|
    ensures multiset(s[..k] + s[k + 1..]) + multiset{s[k]} == multiset(s)
  {
    assert s == s[..k] + [s[k]] + s[k + 1..];
  }

  lemma GiveBackConserves(r: Run, k: nat)
    requires Conserved(r) && r.b.sequence <= U64_MAX && k < |r.held|
    ensures var next := Act(r, GivesBack(k));
            Conserved(next) && |next.held| == |r.held| - 1 && next.b.restored == [Seen(r.held[k])] + r.b.restored
  {
    hide Owns, Chain;
    var obs, next := Seen(r.held[k]), Act(r, GivesBack(k));
    assert Outs(r.held)[k] == obs;
    InChain(r, obs);
    TakenOut(Outs(r.held), k);
    assert Outs(next.held) == Outs(r.held)[..k] + Outs(r.held)[k + 1..];
    assert multiset([obs] + r.b.restored) == multiset{obs} + multiset(r.b.restored);
    assert Chain(next.b, 0, next.b.sequence) == Chain(r.b, 0, r.b.sequence) by {
      SameChain(next.b, r.b);
    }
  }

  lemma SameChain(a: Binding, b: Binding)
    requires a.scope == b.scope && a.session == b.session && a.sequence == b.sequence
    ensures Chain(a, 0, a.sequence) == Chain(b, 0, b.sequence)
  {
  }

  lemma PollConserves(r: Run, signals: seq<BackendSignal>)
    requires Conserved(r) && r.b.sequence < U64_MAX
    ensures Conserved(Act(r, Polls(signals)))
  {
    if r.b.released {
    } else if r.b.restored != [] {
      InChain(r, r.b.restored[0]);
      RetakeConserves(r, Act(r, Polls(signals)));
    } else {
      var (mid, obs) := Immediate(r.b);
      if obs.None? {
        ProcessAllMints(mid, signals);
      }
      hide Process, NthOf, Conserved, Chain;
      MintConserves(r, Act(r, Polls(signals)));
    }
  }

  lemma RetakeConserves(r: Run, next: Run)
    requires Conserved(r) && r.b.restored != [] && r.b.restored[0].Seen?
    requires next == Run(r.b.(restored := r.b.restored[1..]), r.held + [r.b.restored[0].event])
    ensures Conserved(next)
  {
    var obs := r.b.restored[0];
    assert r.b.restored == [obs] + r.b.restored[1..];
    assert Outs(next.held) == Outs(r.held) + [obs];
    SameChain(next.b, r.b);
  }

  lemma MintConserves(r: Run, next: Run)
    requires Conserved(r) && Anchored(next.b) && next.b.restored == r.b.restored
    requires next.b.scope == r.b.scope && next.b.session == r.b.session
    requires if next.b.sequence == r.b.sequence then next.held == r.held
             else
               next.b.sequence == r.b.sequence + 1 &&
               next.held == r.held + [Nth(r.b.scope, r.b.session, r.b.sequence + 1)]
    ensures Conserved(next)
  {
    hide Nth, Anchored;
    if next.b.sequence == r.b.sequence {
      SameChain(next.b, r.b);
    } else {
      var e := Nth(r.b.scope, r.b.session, r.b.sequence + 1);
      assert Outs(next.held) == Outs(r.held) + [Seen(e)];
      assert Outs(Chain(next.b, 0, next.b.sequence)) == Outs(Chain(r.b, 0, r.b.sequence)) + [Seen(e)];
    }
  }

  /** The caller gives back only what it holds; anything else it presents is refused. */
  ghost predicate AllHeld(r: Run, actions: seq<Action>)
    decreases |actions|
  {
    actions != [] ==>
      && (actions[0].Presents? ==> !Owns(r.b.scope, r.b.session, actions[0].obs))
      && AllHeld(Act(r, actions[0]), actions[1..])
  }

  lemma {:induction false} ActsConserve(r: Run, actions: seq<Action>)
    requires Conserved(r) && r.b.sequence + |actions| <= U64_MAX && AllHeld(r, actions)
    ensures Conserved(Acts(r, actions))
    decreases |actions|
  {
    if actions != [] {
      hide Act, Conserved, Owns;
      var a := actions[0];
      ActSequence(r, a);
      match a {
        case Polls(signals) => PollConserves(r, signals);
        case GivesBackNewest => NewestConserves(r);
        case GivesBack(k) =>
          if k < |r.held| {
            GiveBackConserves(r, k);
          } else {
            NothingToGive(r, k);
          }
        case Presents(obs) => RefusedStays(r, obs);
        case Overflows => FlagsConserve(r, a);
        case Releases => FlagsConserve(r, a);
      }
      ActsConserve(Act(r, a), actions[1..]);
    }
  }

  lemma NothingToGive(r: Run, k: nat)
    requires k >= |r.held|
    ensures Act(r, GivesBack(k)) == r
  {
  }

  lemma NewestConserves(r: Run)
    requires Conserved(r) && r.b.sequence <= U64_MAX
    ensures Conserved(Act(r, GivesBackNewest))
  {
    hide Owns, Conserved;
    if r.held != [] {
      var n := |r.held| - 1;
      assert r.held[..n] + r.held[n + 1..] == r.held[..n];
      assert Act(r, GivesBackNewest) == Act(r, GivesBack(n));
      GiveBackConserves(r, n);
    }
  }

  lemma FlagsConserve(r: Run, a: Action)
    requires Conserved(r) && (a.Overflows? || a.Releases?)
    ensures Conserved(Act(r, a))
  {
    SameChain(Act(r, a).b, r.b);
  }

  /** From the opening of a bind, with give-backs in any order: the events out and the
      events given back are, between them, every event minted, each exactly once. */
  lemma AnyOrderConserves(scope: Scope, session: u64, filter: Predicate, maxBytes: u64,
                          terminal: Option<FsObservation>, actions: seq<Action>)
    requires (terminal.Some? ==> !terminal.value.Seen?) && |actions| <= U64_MAX
    requires AllHeld(Run(Opened(scope, session, filter, maxBytes, terminal), []), actions)
    ensures Conserved(Acts(Run(Opened(scope, session, filter, maxBytes, terminal), []), actions))
  {
    var start := Run(Opened(scope, session, filter, maxBytes, terminal), []);
    assert Outs(Chain(start.b, 0, 0)) == [];
    ActsConserve(start, actions);
  }

  // ----- Redelivery -----

  function GivenBack(r: Run, n: nat): Run {
    if n == 0 then r else Act(GivenBack(r, n - 1), GivesBackNewest)
  }

  function Retaken(r: Run, n: nat): Run
    decreases n
  {
    if n == 0 then r else Retaken(Act(r, Polls([])), n - 1)
  }

  lemma GivenBackUnfolds(r: Run, n: nat)
    ensures GivenBack(r, n) == if n == 0 then r else Act(GivenBack(r, n - 1), GivesBackNewest)
  {
    hide Act;
  }

  lemma RetakenUnfolds(r: Run, n: nat)
    ensures Retaken(r, n) == if n == 0 then r else Retaken(Act(r, Polls([])), n - 1)
  {
    hide Act;
  }

  lemma {:induction false} GivenBackChains(r: Run, n: nat)
    requires Chained(r) && r.b.sequence <= U64_MAX && n <= |r.held|
    ensures var back := GivenBack(r, n);
            Chained(back) && |back.held| == |r.held| - n && back.b.released == r.b.released
            && back.b.sequence == r.b.sequence
  {
    hide *;
    GivenBackUnfolds(r, n);
    if n > 0 {
      var before := GivenBack(r, n - 1);
      GivenBackChains(r, n - 1);
      GiveBackChains(before);
      GiveBackKeepsFlags(before);
    }
  }

  /** Events given back newest first come out again oldest first. */
  lemma {:induction false} RedeliveredInOrder(r: Run, n: nat)
    requires Chained(r) && r.b.sequence <= U64_MAX && n <= |r.held| && !r.b.released
    ensures Retaken(GivenBack(r, n), n) == r
  {
    hide *;
    GivenBackUnfolds(r, n);
    RetakenUnfolds(GivenBack(r, n), n);
    if n > 0 {
      var before := GivenBack(r, n - 1);
      GivenBackChains(r, n - 1);
      TakeUndoesGiveBack(before);
      RedeliveredInOrder(r, n - 1);
    }
  }

  lemma GiveBackKeepsFlags(r: Run)
    requires r.b.sequence <= U64_MAX
    ensures var once := Act(r, GivesBackNewest); once.b.sequence == r.b.sequence && once.b.released == r.b.released
  {
    hide Owns;
  }

  lemma TakeUndoesGiveBack(r: Run)
    requires Chained(r) && r.b.sequence <= U64_MAX && r.held != [] && !r.b.released
    ensures Act(Act(r, GivesBackNewest), Polls([])) == r
  {
    hide Token, Owns;
    GiveBackChains(r);
    var n := |r.held| - 1;
    assert Seen(r.held[n]) == NthOf(r.b, n);
    OwnsExactlyItsOwn(r.b.scope, r.b.session, n + 1, r.b.scope, r.b.session);
    var once := Act(r, GivesBackNewest);
    assert once.b.restored[1..] == r.b.restored;
    assert r.held[..n] + [r.held[n]] == r.held;
  }

  // ----- The bind as it runs -----

  class FsBind {
    const scope: Scope
    const session: u64
    const filter: Predicate
    const maxBytes: u64
    var sequence: nat
    var currentAnchor: Anchor
    var restored: seq<FsObservation>
    var overflowed: bool
    var released: bool
    var terminal: Option<FsObservation>

    function View(): Binding
      reads this
    {
      Binding(scope, session, filter, maxBytes, sequence, currentAnchor, restored, overflowed, released, terminal)
    }

    constructor (scope: Scope, session: u64, filter: Predicate, maxBytes: u64, terminal: Option<FsObservation>)
      ensures View() == Opened(scope, session, filter, maxBytes, terminal)
    {
      this.scope, this.session, this.filter, this.maxBytes := scope, session, filter, maxBytes;
      sequence, currentAnchor := 0, AnchorAt(session, 0);
      restored, overflowed, released, this.terminal := [], false, false, terminal;
    }

    method TakeImmediate() returns (obs: Option<FsObservation>)
      modifies this
      ensures (View(), obs) == Immediate(old(View()))
    {
      if released {
        return Some(FailedSeen("fs_bind_released"));
      }
      if restored != [] {
        obs := Some(restored[0]);
        restored := restored[1..];
        return;
      }
      if overflowed {
        overflowed := false;
        return Some(OverflowSeen);
      }
      obs, terminal := terminal, None;
    }

    method ProcessEvent(change: Change) returns (obs: Option<FsObservation>)
      requires !released
      modifies this`sequence, this`currentAnchor
      ensures (View(), obs) == Process(old(View()), Changed(change))
    {
      if !change.targetSafe || change.paths.None? {
        return Some(FailedSeen("fs_path_uncertain"));
      }
      if change.paths.value == 0 {
        return None;
      }
      if change.kind == Ambiguous && filter != OnAny {
        return Some(DegradedSeen("fs_ambiguous_event_class"));
      }
      if !Matches(filter, change.kind) {
        return None;
      }
      if change.descriptorBytes > maxBytes {
        return Some(OverflowSeen);
      }
      match change.sink {
        case SinkFailed => return Some(FailedSeen("fs_event_ref_sink_failed"));
        case WrongDigest => return Some(FailedSeen("fs_event_ref_digest_mismatch"));
        case Materialized =>
      }
      sequence := sequence + 1;
      var start := currentAnchor;
      currentAnchor := AnchorAt(session, sequence);
      return Some(Seen(FsEvent(Token("evt:fs", session, sequence), scope, start, currentAnchor,
                               Token("cor:fs", session, sequence))));
    }

    method ProcessSignal(signal: BackendSignal) returns (obs: Option<FsObservation>)
      modifies this`sequence, this`currentAnchor
      ensures (View(), obs) == Process(old(View()), signal)
    {
      if released {
        return Some(FailedSeen("fs_bind_released"));
      }
      match signal {
        case Rescan => obs := Some(UncertainSeen("fs_rescan_required"));
        case BackendFailed => obs := Some(FailedSeen("fs_native_watch_failed"));
        case Changed(change) => obs := ProcessEvent(change);
      }
    }

    method PollReady(signals: seq<BackendSignal>) returns (obs: Option<FsObservation>)
      modifies this
      ensures (View(), obs) == Poll(old(View()), signals)
    {
      hide Process;
      obs := TakeImmediate();
      if obs.Some? {
        return;
      }
      ghost var b0 := View();
      var i := 0;
      while i < |signals|
        invariant i <= |signals| && obs == None
        invariant ProcessAll(b0, signals) == ProcessAll(View(), signals[i..])
      {
        ghost var before := View();
        assert signals[i..][0] == signals[i] && signals[i..][1..] == signals[i + 1..];
        obs := ProcessSignal(signals[i]);
        if obs.Some? {
          return;
        }
        NothingSeen(before, signals[i]);
        i := i + 1;
      }
    }

    method RestoreReady(obs: FsObservation) returns (ok: bool)
      modifies this`restored
      ensures ok == Owns(scope, session, obs)
      ensures View() == if ok then Restore(old(View()), obs).value else old(View())
    {
      ok := Owns(scope, session, obs);
      if ok {
        restored := [obs] + restored;
      }
    }
  }

  /** A signal that yields nothing changes nothing. */
  lemma NothingSeen(b: Binding, signal: BackendSignal)
    requires Process(b, signal).1.None?
    ensures Process(b, signal).0 == b
  {
  }
}
