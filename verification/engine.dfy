/** What evaluate_domain() computes (src/engine.cpp), as functions of its inputs.

    The three record scans stop at the first record that is at fault. A fault depends on the records
    before it only through sums, so each scan is stated as "the first faulty prefix". */
module Engine {
  import opened Checked
  import opened Wire
  import opened Model
  import opened Sums
  import opened Sorting

  /** What the runtime currently owns; evidence claiming anything else is stale. */
  datatype Expectation = Expectation(
    epoch: u64, policyGeneration: u64, domainGeneration: u64, capacityGeneration: u64,
    reservationGeneration: u64, admissionGeneration: u64, riskBudgetGeneration: u64)

  datatype Authority = Authority(
    domain: u64, domainGeneration: u64, policy: u64, policyGeneration: u64, capacityGeneration: u64,
    reservationGeneration: u64, admissionGeneration: u64, riskBudget: u64, riskBudgetGeneration: u64, epoch: u64)

  predicate Complete(a: Authority) {
    && a.domain != 0 && a.domainGeneration != 0 && a.policy != 0 && a.policyGeneration != 0
    && a.capacityGeneration != 0 && a.reservationGeneration != 0 && a.admissionGeneration != 0
    && a.riskBudget != 0 && a.riskBudgetGeneration != 0 && a.epoch != 0
  }

  datatype Verdict = Verdict(outcome: Outcome, reason: Reason)
  type Fault = Option<Verdict>

  datatype Result<+T> = Ok(value: T) | Rejected(verdict: Verdict)

  // --------------------------------------------------------------- binding

  function GenerationFault(actual: u64, expected: u64): Fault {
    if actual == expected then None
    else Some(Verdict(Stale, if actual > expected then GENERATION_AHEAD_OF_RUNTIME else SNAPSHOT_GENERATION_MISMATCH))
  }

  /** The first of two faults in program order. */
  function OrElse(first: Fault, second: Fault): Fault {
    if first.Some? then first else second
  }

  function BindingFault(policy: Policy, domain: DomainConfig, x: Expectation, e: Evidence): Fault {
    if e.capacity.None? || e.reservations.None? || e.admissions.None? then Some(Verdict(Unknown, EVIDENCE_INCOMPLETE))
    else
      var cap, res, adm := e.capacity.value, e.reservations.value, e.admissions.value;
      if x.epoch == 0 then Some(Verdict(Unknown, GENERATION_UNSET))
      else if x.domainGeneration == 0 || x.policyGeneration == 0 || x.capacityGeneration == 0
              || x.reservationGeneration == 0 || x.admissionGeneration == 0 || x.riskBudgetGeneration == 0 then
        Some(Verdict(Unknown, GENERATION_UNSET))
      else if cap.domain != domain.id || res.domain != domain.id || adm.domain != domain.id then
        Some(Verdict(ConflictingInput, EVIDENCE_CONTRADICTORY))
      else if cap.epoch != x.epoch || res.epoch != x.epoch || adm.epoch != x.epoch then
        Some(Verdict(Stale, EPOCH_MISMATCH))
      else if domain.generation != x.domainGeneration then Some(Verdict(Stale, DOMAIN_GENERATION_MISMATCH))
      else if policy.generation != x.policyGeneration then Some(Verdict(Stale, POLICY_GENERATION_MISMATCH))
      else if policy.riskBudget.generation != x.riskBudgetGeneration then
        Some(Verdict(Stale, POLICY_RISK_BUDGET_GENERATION_MISMATCH))
      else
        OrElse(GenerationFault(cap.generation, x.capacityGeneration),
               OrElse(GenerationFault(res.generation, x.reservationGeneration),
                      GenerationFault(adm.generation, x.admissionGeneration)))
  }

  // ------------------------------------------------------------- freshness

  function AgeFault(observed: u64, budget: u64, tick: u64): Fault {
    if observed > tick then Some(Verdict(ConflictingInput, EVIDENCE_FUTURE_DATED))
    else if tick - observed > budget then Some(Verdict(Stale, SNAPSHOT_STALE))
    else None
  }

  function FreshnessFault(policy: Policy, cap: CapacitySnapshot, res: ReservationSnapshot, adm: AdmissionSnapshot,
                          tick: u64): Fault
  {
    OrElse(AgeFault(cap.observedTick, policy.maxCapacityAge, tick),
           OrElse(AgeFault(res.observedTick, policy.maxReservationAge, tick),
                  AgeFault(adm.observedTick, policy.maxAdmissionAge, tick)))
  }

  // ---------------------------------------------------------------- bounds

  predicate DistinctResources(rs: seq<ResourceCapacity>) {
    forall i, j :: 0 <= i < j < |rs| ==> rs[i].resource != rs[j].resource
  }

  function BoundsFault(limits: Limits, cap: CapacitySnapshot, res: ReservationSnapshot, adm: AdmissionSnapshot): Fault {
    if |cap.resources| > HARD_MAX_RESOURCES then Some(Verdict(ConflictingInput, SNAPSHOT_TOO_LARGE))
    else if |res.guarantees| > limits.maxGuarantees || |res.guarantees| > HARD_MAX_RECORDS then
      Some(Verdict(ConflictingInput, SNAPSHOT_TOO_LARGE))
    else if |adm.records| > limits.maxDemandRecords || |adm.records| > HARD_MAX_RECORDS then
      Some(Verdict(ConflictingInput, SNAPSHOT_TOO_LARGE))
    else if !DistinctResources(cap.resources) then Some(Verdict(ConflictingInput, SNAPSHOT_DUPLICATE))
    else None
  }

  // --------------------------------------------------------------- members

  /** One member resource with its usable capacity after health is taken into account. */
  datatype Member = Member(capacity: ResourceCapacity, effective: u64)

  function FindResource(rs: seq<ResourceCapacity>, id: u64): (r: Option<ResourceCapacity>)
    ensures r.Some? ==> r.value in rs && r.value.resource == id
  {
    if rs == [] then None
    else if rs[0].resource == id then Some(rs[0])
    else FindResource(rs[1..], id)
  }

  /** None when scaling the degraded capacity overflows. */
  function EffectiveUsable(rc: ResourceCapacity): Option<u64> {
    match rc.health
    case Healthy => Some(rc.usable)
    case Degraded => MulDivFloor(rc.usable, rc.degradedPpm, PPM_SCALE)
    case Failed => Some(0)
    case HealthUnknown => Some(0)
  }

  function ResolveMember(pool: u64, resources: seq<ResourceCapacity>, id: u64): Result<Member> {
    match FindResource(resources, id)
    case None => Rejected(Verdict(Unknown, RESOURCE_MISSING_FROM_CAPACITY_SNAPSHOT))
    case Some(rc) =>
      if rc.pool != pool then Rejected(Verdict(ConflictingInput, RESOURCE_POOL_MISMATCH))
      else if rc.health.HealthUnknown? then Rejected(Verdict(Unknown, RESOURCE_HEALTH_UNKNOWN))
      else match EffectiveUsable(rc)
           case None => Rejected(Verdict(Unknown, ARITHMETIC_OVERFLOW))
           case Some(u) => Ok(Member(rc, u))
  }

  function ResolveMembers(pool: u64, resources: seq<ResourceCapacity>, ids: seq<u64>): (r: Result<seq<Member>>)
    ensures r.Ok? ==> |r.value| == |ids|
  {
    if ids == [] then Ok([]) else
    match ResolveMembers(pool, resources, ids[..|ids| - 1])
    case Rejected(v) => Rejected(v)
    case Ok(ms) =>
      match ResolveMember(pool, resources, ids[|ids| - 1])
      case Rejected(v) => Rejected(v)
      case Ok(m) => Ok(ms + [m])
  }

  function SortedMembers(domain: DomainConfig): seq<u64> { Sort(IdKey(), domain.members) }

  predicate Impaired(ms: seq<Member>) {
    exists i :: 0 <= i < |ms| && (ms[i].capacity.health.Degraded? || ms[i].capacity.health.Failed?)
  }

  /** A saturating running sum of 64-bit amounts. */
  function Saturated(n: nat): u64 { if n < U64_LIMIT then n else U64_LIMIT - 1 }

  function Effective(): Member -> nat { (m: Member) => m.effective }
  function Physical(): Member -> nat { (m: Member) => m.capacity.physical }
  function Usable(): Member -> nat { (m: Member) => m.capacity.usable }

  // ------------------------------------------------------------ guarantees

  /** What the scans need to know about a domain. */
  datatype Scope = Scope(pool: u64, members: seq<u64>, classes: seq<ServiceClass>)

  datatype GuaranteeMeasure = GuaranteedAll | GuaranteedOn(resource: u64) | GuaranteedFor(resource: u64, class_: u64)

  function GuaranteeWeight(k: Scope, m: GuaranteeMeasure): Guarantee -> nat {
    (g: Guarantee) =>
      if g.resource !in k.members then 0
      else match m
           case GuaranteedAll => g.amount
           case GuaranteedOn(r) => if g.resource == r then g.amount else 0
           case GuaranteedFor(r, c) => if g.resource == r && g.serviceClass == c then g.amount else 0
  }

  function GuaranteeTotal(k: Scope, m: GuaranteeMeasure, gs: seq<Guarantee>): nat {
    SumBy(GuaranteeWeight(k, m), gs)
  }

  predicate HasReservation(gs: seq<Guarantee>, id: u64) {
    exists i :: 0 <= i < |gs| && gs[i].reservation == id
  }

  /** The fault of `g` when the records `before` it were accepted. */
  function GuaranteeFault(k: Scope, before: seq<Guarantee>, g: Guarantee): Fault {
    if HasReservation(before, g.reservation) then Some(Verdict(ConflictingInput, GUARANTEE_DUPLICATE))
    else if g.resource !in k.members then None
    else if !g.protectedObligation || g.preemptible then Some(Verdict(ConflictingInput, GUARANTEE_CONTRADICTION))
    else if g.pool != k.pool then Some(Verdict(ConflictingInput, RESOURCE_POOL_MISMATCH))
    else if FindClass(k.classes, g.serviceClass).None? then
      Some(Verdict(ConflictingInput, GUARANTEE_SERVICE_CLASS_UNKNOWN))
    else if GuaranteeTotal(k, GuaranteedOn(g.resource), before) + g.amount >= U64_LIMIT then
      Some(Verdict(Unknown, RESERVATION_SUM_OVERFLOW))
    else None
  }

  function FirstGuaranteeFault(k: Scope, gs: seq<Guarantee>): Fault {
    if gs == [] then None
    else OrElse(FirstGuaranteeFault(k, gs[..|gs| - 1]), GuaranteeFault(k, gs[..|gs| - 1], gs[|gs| - 1]))
  }

  /** The scan, then the domain total. */
  function GuaranteesFault(k: Scope, gs: seq<Guarantee>): Fault {
    OrElse(FirstGuaranteeFault(k, gs),
           if GuaranteeTotal(k, GuaranteedAll, gs) >= U64_LIMIT then Some(Verdict(Unknown, RESERVATION_SUM_OVERFLOW))
           else None)
  }

  // ---------------------------------------------------------------- demand

  datatype DemandMeasure =
    | ContingentAll | ContingentOn(resource: u64) | ContingentOf(class_: u64)
    | PendingAll | PendingOn(resource: u64) | BurstAll
    | AdmittedAll | AdmittedFor(resource: u64, class_: u64)
    | IneligibleAll

  predicate Elastic(d: Demand) { d.kind.Contingent? || d.kind.Burst? }

  predicate Eligible(k: Scope, class_: u64) {
    var c := FindClass(k.classes, class_);
    c.Some? && c.value.eligible
  }

  predicate Counted(k: Scope, d: Demand) {
    d.resource in k.members && Elastic(d) && Eligible(k, d.serviceClass)
  }

  function DemandWeight(k: Scope, m: DemandMeasure): Demand -> nat {
    (d: Demand) => WeightOf(k, m, d)
  }

  function WeightOf(k: Scope, m: DemandMeasure, d: Demand): nat {
    match m
    case ContingentAll => if Counted(k, d) then d.committed else 0
    case ContingentOn(r) => if Counted(k, d) && d.resource == r then d.committed else 0
    case ContingentOf(c) => if Counted(k, d) && d.serviceClass == c then d.committed else 0
    case PendingAll => if Counted(k, d) then d.pending else 0
    case PendingOn(r) => if Counted(k, d) && d.resource == r then d.pending else 0
    case BurstAll => if Counted(k, d) && d.kind.Burst? then d.committed else 0
    case AdmittedAll => if d.resource in k.members && d.kind.Guaranteed? then d.committed else 0
    case AdmittedFor(r, c) =>
      if d.resource in k.members && d.kind.Guaranteed? && d.resource == r && d.serviceClass == c then d.committed else 0
    case IneligibleAll =>
      if d.resource in k.members && Elastic(d) && !Eligible(k, d.serviceClass) then d.committed + d.pending else 0
  }

  function DemandTotal(k: Scope, m: DemandMeasure, ds: seq<Demand>): nat {
    SumBy(DemandWeight(k, m), ds)
  }

  predicate HasAdmission(ds: seq<Demand>, id: u64) {
    exists i :: 0 <= i < |ds| && ds[i].admission == id
  }

  /** Some running total no longer fits once `d` joins the records before it. */
  predicate DemandOverflows(k: Scope, before: seq<Demand>, d: Demand) {
    || DemandTotal(k, AdmittedAll, before) + WeightOf(k, AdmittedAll, d) >= U64_LIMIT
    || DemandTotal(k, ContingentAll, before) + WeightOf(k, ContingentAll, d) >= U64_LIMIT
    || DemandTotal(k, PendingAll, before) + WeightOf(k, PendingAll, d) >= U64_LIMIT
  }

  function DemandFault(k: Scope, before: seq<Demand>, d: Demand): Fault {
    if HasAdmission(before, d.admission) then Some(Verdict(ConflictingInput, ADMISSION_DUPLICATE))
    else if d.resource !in k.members then None
    else if d.pool != k.pool then Some(Verdict(ConflictingInput, RESOURCE_POOL_MISMATCH))
    else if FindClass(k.classes, d.serviceClass).None? then
      Some(Verdict(ConflictingInput, ADMISSION_SERVICE_CLASS_UNKNOWN))
    else if d.kind.KindUnknown? then Some(Verdict(ConflictingInput, ADMISSION_KIND_CONFLICT))
    else if DemandOverflows(k, before, d) then Some(Verdict(Unknown, ADMISSION_SUM_OVERFLOW))
    else None
  }

  function FirstDemandFault(k: Scope, ds: seq<Demand>): Fault {
    if ds == [] then None
    else OrElse(FirstDemandFault(k, ds[..|ds| - 1]), DemandFault(k, ds[..|ds| - 1], ds[|ds| - 1]))
  }

  /** Some guaranteed-class admissions are not covered by reservations on the same resource and class. */
  predicate Unbacked(k: Scope, gs: seq<Guarantee>, ds: seq<Demand>) {
    exists i :: 0 <= i < |ds|
      && DemandTotal(k, AdmittedFor(ds[i].resource, ds[i].serviceClass), ds)
         > GuaranteeTotal(k, GuaranteedFor(ds[i].resource, ds[i].serviceClass), gs)
  }

  // -------------------------------------------------------------- boundary

  /** The effective ratio and the constraint it comes from. */
  function EffectiveRatio(policy: Policy, domain: DomainConfig, impaired: bool): (Ratio, Constraint) {
    var capped := if RatioGt(domain.configuredRatio, policy.ratioCap) then (policy.ratioCap, POLICY_RATIO_CAP)
                  else (domain.configuredRatio, CONFIGURED_RATIO);
    var degradedCap := if domain.hasDegradedRatioCap then domain.degradedRatioCap else Ratio(1, 1);
    if impaired && RatioLt(degradedCap, capped.0) then (degradedCap, DEGRADED_RATIO_CAP) else capped
  }

  function AbsoluteCeiling(risk: RiskBudget, usable: u64): Option<u64> {
    AddChecked(usable, risk.maxExposureUnits)
  }

  function PpmCeiling(risk: RiskBudget, usable: u64): Option<u64> {
    MulDivFloor(usable, (PPM_SCALE + risk.maxExposurePpm) % U64_LIMIT, PPM_SCALE)
  }

  /** The amounts a domain boundary is computed from. */
  datatype Loads = Loads(usable: nat, guarantees: nat, contingent: nat, pending: nat, burst: nat, admitted: nat)

  function LoadsOf(k: Scope, ms: seq<Member>, gs: seq<Guarantee>, ds: seq<Demand>): Loads {
    Loads(SumBy(Effective(), ms), GuaranteeTotal(k, GuaranteedAll, gs), DemandTotal(k, ContingentAll, ds),
          DemandTotal(k, PendingAll, ds), DemandTotal(k, BurstAll, ds), DemandTotal(k, AdmittedAll, ds))
  }

  datatype Accounting = Accounting(
    effectiveUsable: u64, guaranteesTotal: u64, emergencyReserve: u64, minProtectedHeadroom: u64,
    protectedRequired: u64, floorRequired: u64, effectiveRatio: Ratio, ratioReducedByDegradation: bool,
    ceilingTotal: u64, contingentCeiling: u64, contingentCommitted: u64, contingentPending: u64, burstCommitted: u64,
    guaranteedAdmitted: u64, contingentFree: u64, committedTotal: u64, overage: u64, protectedHeadroom: u64,
    usedPpmOfCeiling: u64, exposure: u64, riskBudgetCeiling: u64, riskExposureRemaining: u64,
    riskBudgetExceeded: bool, constraint: Constraint, approachingLimit: bool)

  function Monus(a: u64, b: u64): (r: u64)
    ensures r == 0 <==> a <= b
    ensures a > b ==> r == a - b
  {
    if a > b then a - b else 0
  }

  /** The candidate ceilings after the ratio ceiling, in program order. */
  function RiskCandidates(risk: RiskBudget, usable: u64): (cs: Option<seq<(Constraint, u64)>>)
    ensures cs.Some? ==> |cs.value| <= 2
  {
    var absolute := AbsoluteCeiling(risk, usable);
    var ppm := PpmCeiling(risk, usable);
    if (risk.hasAbsolute && absolute.None?) || (risk.hasPpm && ppm.None?) then None
    else Some((if risk.hasAbsolute then [(RISK_BUDGET_EXPOSURE_ABSOLUTE, absolute.value)] else [])
              + (if risk.hasPpm then [(RISK_BUDGET_EXPOSURE_PPM, ppm.value)] else []))
  }

  /** The first candidate with the least value. */
  function Least(first: (Constraint, u64), cs: seq<(Constraint, u64)>): (r: (Constraint, u64))
    ensures r.1 <= first.1
    ensures forall c :: c in cs ==> r.1 <= c.1
    ensures r == first || r in cs
  {
    if cs == [] then first
    else
      var l := Least(first, cs[..|cs| - 1]);
      if cs[|cs| - 1].1 < l.1 then cs[|cs| - 1] else l
  }

  /** The tightest enabled risk ceiling; a ceiling of 0 reads as "none yet", as the program keeps it. */
  function RiskCeiling(cs: seq<(Constraint, u64)>): u64 {
    if cs == [] then 0
    else
      var r, v := RiskCeiling(cs[..|cs| - 1]), cs[|cs| - 1].1;
      if r == 0 || v < r then v else r
  }

  /** None when some step of the arithmetic does not fit: the boundary cannot be established. */
  function Boundary(policy: Policy, domain: DomainConfig, impaired: bool, l: Loads): Option<Accounting> {
    if l.usable >= U64_LIMIT || l.guarantees + l.contingent >= U64_LIMIT
       || l.guarantees + domain.emergencyReserve + domain.minProtectedHeadroom >= U64_LIMIT
       || l.pending >= U64_LIMIT || l.burst >= U64_LIMIT || l.admitted >= U64_LIMIT then None
    else
      var usable: u64 := l.usable;
      var ratio := EffectiveRatio(policy, domain, impaired);
      match MulDivFloor(usable, ratio.0.num, ratio.0.den)
      case None => None
      case Some(ratioCeiling) =>
        match RiskCandidates(policy.riskBudget, usable)
        case None => None
        case Some(risks) =>
          var least := Least((ratio.1, ratioCeiling), risks);
          var binding := if usable == 0 then (NO_CAPACITY, 0) else least;
          Some(Account(policy, domain, impaired, l, ratio.0, binding, RiskCeiling(risks)))
  }

  function Account(policy: Policy, domain: DomainConfig, impaired: bool, l: Loads, ratio: Ratio,
                   binding: (Constraint, u64), riskCeiling: u64): Accounting
    requires l.usable < U64_LIMIT && l.guarantees + l.contingent < U64_LIMIT
    requires l.guarantees + domain.emergencyReserve + domain.minProtectedHeadroom < U64_LIMIT
    requires l.pending < U64_LIMIT && l.burst < U64_LIMIT && l.admitted < U64_LIMIT
  {
    var ceiling := binding.1;
    var required: u64 := l.guarantees + domain.emergencyReserve;
    var contingentCeiling := Monus(ceiling, required);
    var committed: u64 := l.guarantees + l.contingent;
    var overage := Monus(committed, ceiling);
    var riskBudgetCeiling := if riskCeiling != 0 then riskCeiling else ceiling;
    var used := if contingentCeiling == 0 then (if l.contingent == 0 then 0 else PPM_SCALE)
                else MulDivFloorSat(l.contingent, PPM_SCALE, contingentCeiling);
    Accounting(
      l.usable, l.guarantees, domain.emergencyReserve, domain.minProtectedHeadroom,
      required, required + domain.minProtectedHeadroom, ratio,
      impaired && ratio != EffectiveRatio(policy, domain, false).0,
      ceiling, contingentCeiling, l.contingent, l.pending, l.burst,
      l.admitted, Monus(contingentCeiling, l.contingent), committed, overage, Monus(l.usable, required),
      used, Monus(committed, l.usable), riskBudgetCeiling, Monus(riskBudgetCeiling, committed),
      riskCeiling != 0 && committed > riskCeiling, binding.0, overage == 0 && used >= policy.thresholds.warnUsedPpm)
  }

  // --------------------------------------------------------- per resource

  datatype ResourceAccounting = ResourceAccounting(
    resource: u64, effectiveUsable: u64, guarantees: u64, contingentCommitted: u64, contingentPending: u64,
    ceiling: u64, contingentCeiling: u64, contingentFree: u64, overage: u64, protectedHeadroom: u64)

  function AccountResource(m: Member, guarantees: u64, contingent: u64, pending: u64, committed: u64, ceiling: u64)
    : ResourceAccounting
  {
    var contingentCeiling := Monus(ceiling, guarantees);
    ResourceAccounting(m.capacity.resource, m.effective, guarantees, contingent, pending, ceiling, contingentCeiling,
                       Monus(contingentCeiling, contingent), Monus(committed, ceiling), Monus(m.effective, guarantees))
  }

  function OrZero(o: Option<u64>): u64 {
    match o
    case Some(v) => v
    case None => 0
  }

  /** The entry the program emits for a member. Where the totals are formed, the checked sum of a commitment
      that is never filled in and the guarantees replaces the member's contingent amount; the overage is
      then taken from that commitment. */
  function ResourceView(k: Scope, gs: seq<Guarantee>, ds: seq<Demand>, ratio: Ratio, m: Member): ResourceAccounting {
    var id := m.capacity.resource;
    var committed, guarantees: u64 := 0, Saturated(GuaranteeTotal(k, GuaranteedOn(id), gs));
    AccountResource(m, guarantees, OrZero(AddChecked(committed, guarantees)), Saturated(DemandTotal(k, PendingOn(id), ds)),
                    committed, OrZero(MulDivFloor(m.effective, ratio.num, ratio.den)))
  }

  /** The entry with the member's contingent demand and its whole commitment in their places. */
  function IntendedView(k: Scope, gs: seq<Guarantee>, ds: seq<Demand>, ratio: Ratio, m: Member): ResourceAccounting {
    var id := m.capacity.resource;
    var guarantees := Saturated(GuaranteeTotal(k, GuaranteedOn(id), gs));
    var contingent := Saturated(DemandTotal(k, ContingentOn(id), ds));
    AccountResource(m, guarantees, contingent, Saturated(DemandTotal(k, PendingOn(id), ds)),
                    OrZero(AddChecked(guarantees, contingent)), OrZero(MulDivFloor(m.effective, ratio.num, ratio.den)))
  }

  /** Where deliberate oversubscription may occur: one entry per member resource, as emitted. */
  function ResourceViews(k: Scope, gs: seq<Guarantee>, ds: seq<Demand>, ratio: Ratio, ms: seq<Member>)
    : (r: seq<ResourceAccounting>)
    ensures |r| == |ms|
  {
    if ms == [] then []
    else ResourceViews(k, gs, ds, ratio, ms[..|ms| - 1]) + [ResourceView(k, gs, ds, ratio, ms[|ms| - 1])]
  }

  function IntendedViews(k: Scope, gs: seq<Guarantee>, ds: seq<Demand>, ratio: Ratio, ms: seq<Member>)
    : (r: seq<ResourceAccounting>)
    ensures |r| == |ms|
  {
    if ms == [] then []
    else IntendedViews(k, gs, ds, ratio, ms[..|ms| - 1]) + [IntendedView(k, gs, ds, ratio, ms[|ms| - 1])]
  }

  /** Some member's guarantees no longer fit its own effective capacity. */
  predicate GuaranteesUncovered(k: Scope, ms: seq<Member>, gs: seq<Guarantee>) {
    exists i :: 0 <= i < |ms|
      && GuaranteeTotal(k, GuaranteedOn(ms[i].capacity.resource), gs) > ms[i].effective
  }

  // --------------------------------------------------------------- outcome

  predicate HasContingent(k: Scope, ds: seq<Demand>, class_: u64) {
    exists i :: 0 <= i < |ds| && Counted(k, ds[i]) && ds[i].serviceClass == class_
  }

  function ClassShareFault(k: Scope, ds: seq<Demand>, contingentCeiling: u64, c: ServiceClass): Fault {
    if !c.hasShareCap || !HasContingent(k, ds, c.id) then None
    else match MulDivFloor(contingentCeiling, c.shareCapPpm, PPM_SCALE)
         case None => Some(Verdict(Unknown, ARITHMETIC_OVERFLOW))
         case Some(allowed) =>
           if DemandTotal(k, ContingentOf(c.id), ds) > allowed
           then Some(Verdict(ReductionRequired, SERVICE_CLASS_SHARE_EXCEEDED)) else None
  }

  /** The first class over its share, in policy order. */
  function ShareFault(k: Scope, ds: seq<Demand>, contingentCeiling: u64, cs: seq<ServiceClass>): Fault {
    if cs == [] then None
    else OrElse(ShareFault(k, ds, contingentCeiling, cs[..|cs| - 1]),
                ClassShareFault(k, ds, contingentCeiling, cs[|cs| - 1]))
  }

  function OveragePpm(a: Accounting): u64 {
    if a.ceilingTotal == 0 then PPM_SCALE
    else
      var ppm := CeilDiv(a.overage * PPM_SCALE, a.ceilingTotal);
      if ppm >= U64_LIMIT then PPM_SCALE else ppm
  }

  /** The ordered outcome cascade. */
  function Decide(policy: Policy, domain: DomainConfig, k: Scope, ms: seq<Member>, gs: seq<Guarantee>, ds: seq<Demand>,
                  a: Accounting): Verdict
  {
    if Unbacked(k, gs, ds) then Verdict(ConflictingInput, ADMISSION_KIND_CONFLICT)
    else if DemandTotal(k, IneligibleAll, ds) > 0 then Verdict(PolicyRejected, POLICY_SERVICE_CLASS_INELIGIBLE_DEMAND)
    else if GuaranteesUncovered(k, ms, gs) then Verdict(EmergencyReduction, GUARANTEE_SUM_EXCEEDS_USABLE)
    else if a.guaranteesTotal > a.effectiveUsable then Verdict(EmergencyReduction, GUARANTEE_SUM_EXCEEDS_USABLE)
    else if a.protectedRequired > a.effectiveUsable then Verdict(EmergencyReduction, GUARANTEE_SUM_EXCEEDS_USABLE)
    else if a.floorRequired > a.effectiveUsable then Verdict(PolicyRejected, GUARANTEE_FLOOR_EXCEEDS_CEILING)
    else if a.floorRequired > a.ceilingTotal then Verdict(PolicyRejected, GUARANTEE_FLOOR_EXCEEDS_CEILING)
    else if a.effectiveUsable == 0 then
      if a.committedTotal > 0 then Verdict(EmergencyReduction, ADMISSION_NO_CONTINGENT_CEILING)
      else Verdict(AtLimit, RESOURCE_FAILED)
    else if a.overage > 0 then
      if OveragePpm(a) >= policy.thresholds.emergencyOveragePpm
      then Verdict(EmergencyReduction, ADMISSION_EXCEEDS_CONTINGENT_CEILING)
      else Verdict(ReductionRequired, ADMISSION_EXCEEDS_CONTINGENT_CEILING)
    else if domain.burstPoolEnabled && a.burstCommitted > domain.burstPoolCap then
      Verdict(ReductionRequired, BURST_POOL_EXCEEDED)
    else
      match ShareFault(k, ds, a.contingentCeiling, k.classes)
      case Some(v) => v
      case None => if a.contingentFree == 0 then Verdict(AtLimit, NO_REASON) else Verdict(WithinPolicy, NO_REASON)
  }

  // ------------------------------------------------------------ evaluation

  /** The evidence once it is bound, fresh, bounded and resolved against the domain. */
  datatype Inputs = Inputs(members: seq<Member>, guarantees: seq<Guarantee>, records: seq<Demand>)

  function ScopeOf(policy: Policy, domain: DomainConfig): Scope {
    Scope(domain.pool, domain.members, policy.serviceClasses)
  }

  /** Everything that rejects evidence before the boundary is computed. */
  function Admit(policy: Policy, domain: DomainConfig, x: Expectation, e: Evidence, tick: u64): Result<Inputs> {
    match BindingFault(policy, domain, x, e)
    case Some(v) => Rejected(v)
    case None =>
      var cap, res, adm := e.capacity.value, e.reservations.value, e.admissions.value;
      match OrElse(FreshnessFault(policy, cap, res, adm, tick), BoundsFault(policy.limits, cap, res, adm))
      case Some(v) => Rejected(v)
      case None =>
        match ResolveMembers(domain.pool, cap.resources, SortedMembers(domain))
        case Rejected(v) => Rejected(v)
        case Ok(ms) =>
          var k := ScopeOf(policy, domain);
          match OrElse(GuaranteesFault(k, res.guarantees), FirstDemandFault(k, adm.records))
          case Some(v) => Rejected(v)
          case None =>
            if Saturated(SumBy(Physical(), ms)) > policy.limits.maxCapacityUnits
               || Saturated(SumBy(Usable(), ms)) > policy.limits.maxCapacityUnits then
               Rejected(Verdict(ConflictingInput, RESOURCE_CAPACITY_INVALID))
            else Ok(Inputs(ms, res.guarantees, adm.records))
  }

  datatype Assessment =
    | Withheld(verdict: Verdict)                           // no boundary was established
    | Assessed(verdict: Verdict, accounting: Accounting)

  function Assess(policy: Policy, domain: DomainConfig, i: Inputs): Assessment {
    var k := ScopeOf(policy, domain);
    match Boundary(policy, domain, Impaired(i.members), LoadsOf(k, i.members, i.guarantees, i.records))
    case None => Withheld(Verdict(Unknown, ARITHMETIC_OVERFLOW))
    case Some(a) => Assessed(Decide(policy, domain, k, i.members, i.guarantees, i.records, a), a)
  }

  function AssessEvidence(policy: Policy, domain: DomainConfig, x: Expectation, e: Evidence, tick: u64): Assessment {
    match Admit(policy, domain, x, e, tick)
    case Rejected(v) => Withheld(v)
    case Ok(i) => Assess(policy, domain, i)
  }

  /** The authority fields finalize_evaluation_result() derives from the outcome and the accounting. */
  datatype Evaluation = Evaluation(
    assessment: Assessment, authority: Authority, authorityValid: bool, authorized: bool, increment: u64,
    fenceRequired: bool)

  function AuthorityOf(policy: Policy, domain: DomainConfig, x: Expectation, e: Evidence): Authority {
    var bound := BindingFault(policy, domain, x, e).None?;
    Authority(domain.id, domain.generation, policy.id, policy.generation,
              if bound then x.capacityGeneration else 0, if bound then x.reservationGeneration else 0,
              if bound then x.admissionGeneration else 0, policy.riskBudget.id, policy.riskBudget.generation, x.epoch)
  }

  function Finalize(a: Assessment, authority: Authority): Evaluation {
    Evaluation(a, authority, Authoritative(a.verdict.outcome), a.verdict.outcome.WithinPolicy?,
               if a.verdict.outcome.WithinPolicy? && a.Assessed? then a.accounting.contingentFree else 0,
               FenceWorthy(a.verdict.outcome))
  }

  /** evaluate_domain(): a function of the policy, the authority expected and the evidence. */
  function Evaluate(policy: Policy, domain: DomainConfig, x: Expectation, e: Evidence, tick: u64): Evaluation {
    Finalize(AssessEvidence(policy, domain, x, e, tick), AuthorityOf(policy, domain, x, e))
  }
}
