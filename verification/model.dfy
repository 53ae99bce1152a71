/** Outcomes, reasons, policy, evidence and durable state (include/oversub/status.hpp, policy.hpp,
    evidence.hpp, state.hpp). Identities, generations and epochs are 64-bit values; 0 means unset. */
module Model {
  import opened Checked
  import opened Wire

  // ------------------------------------------------------------- outcomes

  /** `Undefined` stands for a code no enumerator has; it can only come from a stored byte pattern. */
  datatype Outcome =
    | WithinPolicy | AtLimit | ReductionRequired | EmergencyReduction
    | PolicyRejected | Unknown | Stale | ConflictingInput
    | Undefined(code: u32)

  function Severity(o: Outcome): nat {
    match o
    case WithinPolicy => 0
    case AtLimit => 1
    case ReductionRequired => 2
    case EmergencyReduction => 3
    case PolicyRejected => 4
    case Stale => 5
    case ConflictingInput => 6
    case Unknown => 7
    case Undefined(_) => 7
  }

  predicate Authoritative(o: Outcome) {
    o.WithinPolicy? || o.AtLimit? || o.ReductionRequired? || o.EmergencyReduction?
  }

  predicate FenceWorthy(o: Outcome) {
    o.EmergencyReduction? || o.PolicyRejected? || o.ConflictingInput?
  }

  datatype Reason = Reason(code: u32)

  const NO_REASON := Reason(0)
  const INVALID_IDENTITY := Reason(1)
  const INVALID_FIELD := Reason(2)
  const POLICY_SERVICE_CLASS_INELIGIBLE_DEMAND := Reason(13)
  const POLICY_RISK_BUDGET_GENERATION_MISMATCH := Reason(15)
  const POLICY_GENERATION_MISMATCH := Reason(16)
  const DOMAIN_NOT_IN_POLICY := Reason(20)
  const DOMAIN_GENERATION_MISMATCH := Reason(21)
  const RESOURCE_MISSING_FROM_CAPACITY_SNAPSHOT := Reason(25)
  const RESOURCE_CAPACITY_INVALID := Reason(27)
  const RESOURCE_FAILED := Reason(29)
  const RESOURCE_HEALTH_UNKNOWN := Reason(31)
  const RESOURCE_POOL_MISMATCH := Reason(32)
  const EPOCH_MISMATCH := Reason(33)
  const EPOCH_NOT_ADVANCED := Reason(35)
  const GENERATION_AHEAD_OF_RUNTIME := Reason(36)
  const GENERATION_UNSET := Reason(37)
  const SNAPSHOT_TOO_LARGE := Reason(40)
  const SNAPSHOT_GENERATION_MISMATCH := Reason(41)
  const SNAPSHOT_STALE := Reason(43)
  const SNAPSHOT_OUT_OF_ORDER := Reason(45)
  const SNAPSHOT_DUPLICATE := Reason(46)
  const GUARANTEE_CONTRADICTION := Reason(47)
  const GUARANTEE_DUPLICATE := Reason(48)
  const GUARANTEE_SUM_EXCEEDS_USABLE := Reason(49)
  const GUARANTEE_FLOOR_EXCEEDS_CEILING := Reason(50)
  const GUARANTEE_SERVICE_CLASS_UNKNOWN := Reason(52)
  const RESERVATION_SUM_OVERFLOW := Reason(53)
  const ADMISSION_DUPLICATE := Reason(54)
  const ADMISSION_KIND_CONFLICT := Reason(55)
  const ADMISSION_SERVICE_CLASS_UNKNOWN := Reason(56)
  const ADMISSION_SUM_OVERFLOW := Reason(57)
  const ADMISSION_EXCEEDS_CONTINGENT_CEILING := Reason(58)
  const ADMISSION_NO_CONTINGENT_CEILING := Reason(59)
  const BURST_POOL_EXCEEDED := Reason(60)
  const SERVICE_CLASS_SHARE_EXCEEDED := Reason(61)
  const ARITHMETIC_OVERFLOW := Reason(64)
  const EVIDENCE_INCOMPLETE := Reason(65)
  const EVIDENCE_CONTRADICTORY := Reason(66)
  const EVIDENCE_FUTURE_DATED := Reason(69)
  const PUBLISHER_NOT_REGISTERED := Reason(73)
  const PUBLISHER_FENCED := Reason(74)
  const PUBLISHER_INCARNATION_STALE := Reason(75)
  const PUBLISHER_SEQUENCE_REPLAYED := Reason(78)
  const WORKER_EPOCH_STALE := Reason(80)
  const DECISION_STALE := Reason(82)
  const DECISION_SUPERSEDED := Reason(83)
  const DECISION_EPOCH_MISMATCH := Reason(84)
  const DECISION_GENERATION_MISMATCH := Reason(85)
  const DECISION_NOT_AUTHORITATIVE := Reason(86)
  const DECISION_CANCELLED := Reason(87)
  const DECISION_ALREADY_FENCED := Reason(88)
  const PERSISTENCE_TOO_LARGE := Reason(93)
  const SHUTTING_DOWN := Reason(105)
  const LIMIT_EXCEEDED := Reason(107)

  datatype StatusCode =
    | InvalidArgument | OutOfRange | NotFound | StaleInput | Conflict | Denied | FencedOff
    | IoError | Overflow | Cancelled | ShuttingDown | QueueFull

  datatype Status = Success | Failure(code: StatusCode, reason: Reason)

  datatype Constraint = Constraint(code: u32)

  const NO_CONSTRAINT := Constraint(0)
  const CONFIGURED_RATIO := Constraint(1)
  const POLICY_RATIO_CAP := Constraint(2)
  const DEGRADED_RATIO_CAP := Constraint(3)
  const RISK_BUDGET_EXPOSURE_ABSOLUTE := Constraint(4)
  const RISK_BUDGET_EXPOSURE_PPM := Constraint(5)
  const NO_CAPACITY := Constraint(10)

  // ---------------------------------------------------------------- limits

  const HARD_MAX_DOMAINS: nat := 4096
  const HARD_MAX_RESOURCES_PER_DOMAIN: nat := 4096
  const HARD_MAX_SERVICE_CLASSES: nat := 4096
  const HARD_MAX_CORRECTIVE_INTENTS: nat := 64
  const HARD_MAX_EXPLANATION_LINES: nat := 4096
  const HARD_MAX_EXPLANATION_BYTES: nat := 262144
  const HARD_MAX_NAME_LENGTH: u32 := 128
  const HARD_MAX_RESOURCES: nat := 4096
  const HARD_MAX_RECORDS: nat := 65536
  const HARD_MAX_EXPOSURE_PPM: nat := 10_000_000
  const HARD_MAX_FRESHNESS_TICKS: nat := 0x100_0000_0000
  const HARD_MAX_COOLDOWN_TICKS: nat := 0x1_0000_0000
  const HARD_MAX_CONFIRMATIONS: nat := 64

  // --------------------------------------------------------------- policy

  datatype ServiceClass = ServiceClass(
    id: u64, name: seq<byte>, priority: u32, eligible: bool, riskWeightPpm: u32,
    hasShareCap: bool, shareCapPpm: u64)

  datatype RiskBudget = RiskBudget(
    id: u64, generation: u64, hasAbsolute: bool, maxExposureUnits: u64, hasPpm: bool, maxExposurePpm: u64)

  datatype Thresholds = Thresholds(warnUsedPpm: u64, reduceOveragePpm: u64, emergencyOveragePpm: u64)

  datatype Hysteresis = Hysteresis(
    escalationConfirmations: u64, deescalationConfirmations: u64, cooldownTicks: u64, deescalationMarginPpm: u64)

  datatype Limits = Limits(
    maxDomains: u32, maxResourcesPerDomain: u32, maxServiceClasses: u32, maxGuarantees: u64, maxDemandRecords: u64,
    maxCorrectiveIntents: u32, maxExplanationLines: u32, maxExplanationBytes: u32, maxResourceBreakdown: u32,
    maxCapacityUnits: u64)

  datatype DomainConfig = DomainConfig(
    id: u64, generation: u64, name: seq<byte>, pool: u64, members: seq<u64>,
    configuredRatio: Ratio, hasDegradedRatioCap: bool, degradedRatioCap: Ratio,
    emergencyReserve: u64, minProtectedHeadroom: u64, burstPoolEnabled: bool, burstPoolCap: u64)

  datatype Policy = Policy(
    id: u64, generation: u64, name: seq<byte>, ratioCap: Ratio, domains: seq<DomainConfig>,
    serviceClasses: seq<ServiceClass>, riskBudget: RiskBudget, thresholds: Thresholds, hysteresis: Hysteresis,
    limits: Limits, maxCapacityAge: u64, maxReservationAge: u64, maxAdmissionAge: u64, digest: Digest)

  // ------------------------------------------------------------- evidence

  datatype Provenance = Provenance(
    publisher: u64, incarnation: u64, epoch: u64, sequence: u64, evidenceId: u64, payloadDigest: Digest)

  /** `OtherKind` stands for a code no enumerator has. */
  datatype EvidenceKind = Capacity | Reservation | Admission | OtherKind(code: u32)

  datatype Health = HealthUnknown | Healthy | Degraded | Failed

  datatype ResourceCapacity = ResourceCapacity(
    resource: u64, pool: u64, physical: u64, usable: u64, health: Health, degradedPpm: u64, generation: u64)

  datatype CapacitySnapshot = CapacitySnapshot(
    domain: u64, generation: u64, epoch: u64, observedTick: u64, resources: seq<ResourceCapacity>,
    provenance: Provenance)

  datatype Guarantee = Guarantee(
    reservation: u64, resource: u64, pool: u64, serviceClass: u64, amount: u64, priority: u32,
    protectedObligation: bool, preemptible: bool, generation: u64)

  datatype ReservationSnapshot = ReservationSnapshot(
    domain: u64, generation: u64, epoch: u64, observedTick: u64, guarantees: seq<Guarantee>, provenance: Provenance)

  datatype DemandKind = KindUnknown | Guaranteed | Contingent | Burst

  datatype Demand = Demand(
    admission: u64, resource: u64, pool: u64, serviceClass: u64, kind: DemandKind,
    committed: u64, pending: u64, generation: u64)

  datatype AdmissionSnapshot = AdmissionSnapshot(
    domain: u64, generation: u64, epoch: u64, observedTick: u64, records: seq<Demand>, provenance: Provenance)

  datatype Evidence = Evidence(
    capacity: Option<CapacitySnapshot>, reservations: Option<ReservationSnapshot>, admissions: Option<AdmissionSnapshot>)

  // -------------------------------------------------------- durable state

  datatype Publisher = Publisher(
    publisher: u64, incarnation: u64, epoch: u64, lastSequence: u64, fenced: bool, fenceReason: Reason,
    registeredTick: u64)

  datatype DomainState = DomainState(
    domain: u64, generation: u64, sticky: Outcome, confirmations: u32, lastEscalationTick: u64, fenced: bool,
    fenceReason: Reason, fenceEpoch: u64, lastDecision: u64, lastDecisionDigest: Digest, lastRaw: Outcome)

  datatype SlotState = SlotState(
    domain: u64, kind: EvidenceKind, generation: u64, evidenceId: u64, publisher: u64, incarnation: u64,
    sequence: u64, observedTick: u64, payloadDigest: Digest, revalidationRequired: bool)

  datatype AuditRecord = AuditRecord(
    id: u64, tick: u64, wallMillis: u64, incarnation: u64, epoch: u64, domain: u64, domainGeneration: u64,
    policyGeneration: u64, raw: Outcome, effective: Outcome, reason: Reason, constraint: Constraint, decision: u64,
    decisionDigest: Digest, inputDigest: Digest, authorized: bool, authorizedIncrement: u64, fenced: bool,
    confirmations: u32, lastEscalationTick: u64, ceilingTotal: u64, committedTotal: u64, overage: u64,
    summary: seq<byte>)

  datatype DurableState = DurableState(
    schemaVersion: u32, revision: u64, incarnation: u64, epoch: u64, policyGeneration: u64, policyDigest: Digest,
    policy: Policy, publishers: seq<Publisher>, domains: seq<DomainState>, evidence: seq<SlotState>,
    audit: seq<AuditRecord>, decisionsIssued: u64, tick: u64, journalRecords: u64)

  const STATE_SCHEMA_VERSION: u32 := 1
  const MAX_PUBLISHERS: nat := 4096
  const MAX_DOMAINS_STATE: nat := 4096
  const MAX_EVIDENCE_SLOTS: nat := 16384
  const MAX_AUDIT_RECORDS: nat := 65536
  const MAX_AUDIT_SUMMARY: u32 := 256

  // ------------------------------------------------------------------ keys

  function IdKey(): u64 -> int { (id: u64) => id }
  function ResourceKey(): ResourceCapacity -> int { (r: ResourceCapacity) => r.resource }
  function GuaranteeKey(): Guarantee -> int { (g: Guarantee) => g.reservation }
  function DemandKey(): Demand -> int { (d: Demand) => d.admission }

  // ---------------------------------------------------------------- lookup

  function FindDomain(domains: seq<DomainConfig>, id: u64): (r: Option<DomainConfig>)
    ensures r.Some? ==> r.value in domains && r.value.id == id
    ensures r.None? ==> forall d :: d in domains ==> d.id != id
  {
    if domains == [] then None
    else if domains[0].id == id then Some(domains[0])
    else FindDomain(domains[1..], id)
  }

  function FindClass(classes: seq<ServiceClass>, id: u64): (r: Option<ServiceClass>)
    ensures r.Some? ==> r.value in classes && r.value.id == id
    ensures r.None? ==> forall c :: c in classes ==> c.id != id
  {
    if classes == [] then None
    else if classes[0].id == id then Some(classes[0])
    else FindClass(classes[1..], id)
  }
}
