/** Outcomes as the runners build them, and the admission rules of `validate.rs`
    that they must meet. The rules are stated on their own, from the validator. */
module Messages {
  import opened Wrappers
  import opened Seam

  datatype Kind =
    | Events
    | NoChange
    | LogicalDeadman
    | Partial
    | Cancelled
    | CoverageDegraded
    | Refused
    | ReauthenticationRequired
    | FailedKind

  datatype ArmStatus = Quiet | WithEvents | ObservedOnly | OutageStatus | UncertainStatus | DeferredStatus

  datatype CoverageArm = CoverageArm(
    armId: Id,
    registrationId: Id,
    required: bool,
    status: ArmStatus,
    degraded: bool,
    startAnchor: Id,
    proposedNext: Id,
    eventCount: nat,
    byteCount: nat,
    reason: Option<Id>)

  datatype Outcome = Outcome(
    kind: Kind,
    completedAt: Instant,
    logicalDeadline: Option<Instant>,
    events: seq<Event>,
    coverageComplete: Option<bool>,
    arms: seq<CoverageArm>,
    reason: Option<Id>)

  /** Kinds that report no result: posture is not applied to them. */
  predicate Unsuccessful(kind: Kind) {
    kind.Cancelled? || kind.FailedKind? || kind.Refused? || kind.ReauthenticationRequired?
  }

  /** Kinds that say nothing happened. */
  predicate IsQuiet(kind: Kind) {
    kind.NoChange? || kind.LogicalDeadman?
  }

  predicate HasRequired(rs: RegistrationSet) {
    exists reg | reg in rs.registrations :: reg.required
  }

  predicate LeaseExpired(rs: RegistrationSet, now: Instant) {
    exists reg | reg in rs.registrations :: now > reg.leaseExpiresAt
  }

  // ----- Admission rules -----

  predicate Dirty(a: CoverageArm) {
    a.status.OutageStatus? || a.status.UncertainStatus? || a.degraded
  }

  predicate AnyRequired(arms: seq<CoverageArm>) {
    exists a | a in arms :: a.required
  }

  /** `outcome_normative`. */
  predicate Normative(o: Outcome) {
    && (o.kind.NoChange? || o.kind.LogicalDeadman? ==> forall a | a in o.arms && a.required :: !Dirty(a))
    && (o.kind.NoChange? ==>
          && o.logicalDeadline.Some? && o.events == [] && o.coverageComplete == Some(true)
          && AnyRequired(o.arms) && (forall a | a in o.arms && a.required :: a.status.Quiet? && !a.degraded)
          && o.completedAt < o.logicalDeadline.value)
    && (o.kind.LogicalDeadman? ==>
          && o.logicalDeadline.Some? && o.events == [] && o.coverageComplete == Some(true)
          && AnyRequired(o.arms) && (forall a | a in o.arms && a.required :: !Dirty(a))
          && o.completedAt >= o.logicalDeadline.value)
  }

  /** `coverage_cardinality`, for one request and its outcome. */
  predicate CoversRequired(requiredArms: seq<Id>, o: Outcome) {
    o.coverageComplete == Some(true) ==>
      forall id | id in requiredArms :: exists a | a in o.arms :: a.armId == id
  }

  /** The bounds part of `authn_lease_bounds`. */
  predicate WithinBounds(rs: RegistrationSet, o: Outcome) {
    o.kind.Partial? || o.kind.CoverageDegraded? ||
    (|o.events| <= rs.maxEvents &&
     forall r | r in rs.registrations :: |WithId(o.events, r.id)| <= r.maxEvents)
  }

  /** The lease part: an outcome later than a lease must ask for a new one. */
  predicate WithinLeases(rs: RegistrationSet, o: Outcome) {
    forall r | r in rs.registrations :: r.leaseExpiresAt < o.completedAt ==> o.kind.ReauthenticationRequired?
  }

  /** The authentication part: no clean outcome without the receipt it takes. */
  predicate Authenticated(rs: RegistrationSet, hasReceipt: bool, o: Outcome) {
    rs.authnRequired && !hasReceipt ==>
      !o.kind.Events? && !o.kind.NoChange? && !o.kind.LogicalDeadman? && !o.kind.Partial?
  }
}
