/** Policy validation and the sorted policy index (src/policy.cpp). */
module PolicyRules {
  import opened Checked
  import opened Model
  import opened Sorting

  predicate RatioInBounds(r: Ratio) {
    && r.num != 0 && r.den != 0 && r.num <= MAX_RATIO_TERM && r.den <= MAX_RATIO_TERM
    && !RatioLt(r, Ratio(1, 1))
  }

  predicate ValidLimits(l: Limits) {
    && 0 < l.maxDomains <= HARD_MAX_DOMAINS
    && 0 < l.maxResourcesPerDomain <= HARD_MAX_RESOURCES_PER_DOMAIN
    && 0 < l.maxServiceClasses <= HARD_MAX_SERVICE_CLASSES
    && 0 < l.maxGuarantees <= HARD_MAX_RECORDS
    && 0 < l.maxDemandRecords <= HARD_MAX_RECORDS
    && 0 < l.maxCorrectiveIntents <= HARD_MAX_CORRECTIVE_INTENTS
    && 0 < l.maxExplanationLines <= HARD_MAX_EXPLANATION_LINES
    && 0 < l.maxExplanationBytes <= HARD_MAX_EXPLANATION_BYTES
    && 0 < l.maxResourceBreakdown <= HARD_MAX_RESOURCES_PER_DOMAIN
    && 0 < l.maxCapacityUnits <= HARD_MAX_CAPACITY_UNITS
  }

  function DomainKey(): DomainConfig -> int { (d: DomainConfig) => d.id }
  function ClassKey(): ServiceClass -> int { (c: ServiceClass) => c.id }

  predicate ValidDomain(p: Policy, d: DomainConfig) {
    && d.id != 0 && d.pool != 0 && d.generation != 0 && |d.name| <= HARD_MAX_NAME_LENGTH
    && d.members != [] && |d.members| <= p.limits.maxResourcesPerDomain
    && |d.members| <= HARD_MAX_RESOURCES_PER_DOMAIN
    && 0 !in d.members && DistinctBy(IdKey(), d.members)
    && RatioInBounds(d.configuredRatio) && !RatioGt(d.configuredRatio, p.ratioCap)
    && (d.hasDegradedRatioCap ==>
          && RatioInBounds(d.degradedRatioCap) && !RatioGt(d.degradedRatioCap, p.ratioCap)
          && !RatioGt(d.degradedRatioCap, d.configuredRatio))
    && d.emergencyReserve + d.minProtectedHeadroom < U64_LIMIT
    && d.emergencyReserve <= p.limits.maxCapacityUnits && d.minProtectedHeadroom <= p.limits.maxCapacityUnits
    && (if d.burstPoolEnabled then 0 < d.burstPoolCap <= p.limits.maxCapacityUnits else d.burstPoolCap == 0)
  }

  predicate ValidClass(c: ServiceClass) {
    && c.id != 0 && |c.name| <= HARD_MAX_NAME_LENGTH && c.riskWeightPpm <= PPM_SCALE
    && (c.hasShareCap ==> c.shareCapPpm <= PPM_SCALE)
  }

  predicate ValidRiskBudget(p: Policy) {
    var r := p.riskBudget;
    && r.id != 0 && r.generation != 0 && (r.hasAbsolute || r.hasPpm)
    && (r.hasPpm ==> r.maxExposurePpm <= HARD_MAX_EXPOSURE_PPM)
    && (r.hasAbsolute ==> r.maxExposureUnits <= p.limits.maxCapacityUnits)
  }

  predicate ValidThresholds(t: Thresholds) {
    && 0 < t.warnUsedPpm <= PPM_SCALE
    && 0 < t.reduceOveragePpm <= t.emergencyOveragePpm <= PPM_SCALE
  }

  predicate ValidHysteresis(h: Hysteresis) {
    && 0 < h.escalationConfirmations <= HARD_MAX_CONFIRMATIONS
    && 0 < h.deescalationConfirmations <= HARD_MAX_CONFIRMATIONS
    && h.cooldownTicks <= HARD_MAX_COOLDOWN_TICKS
    && h.deescalationMarginPpm <= PPM_SCALE
  }

  predicate ValidAges(p: Policy) {
    && 0 < p.maxCapacityAge <= HARD_MAX_FRESHNESS_TICKS
    && 0 < p.maxReservationAge <= HARD_MAX_FRESHNESS_TICKS
    && 0 < p.maxAdmissionAge <= HARD_MAX_FRESHNESS_TICKS
  }

  /** validate_policy() succeeds, apart from the digest comparison. */
  predicate ValidPolicy(p: Policy) {
    && p.id != 0 && p.generation != 0 && |p.name| <= HARD_MAX_NAME_LENGTH
    && RatioInBounds(p.ratioCap) && ValidLimits(p.limits)
    && |p.domains| <= p.limits.maxDomains && |p.domains| <= HARD_MAX_DOMAINS
    && |p.serviceClasses| <= p.limits.maxServiceClasses && |p.serviceClasses| <= HARD_MAX_SERVICE_CLASSES
    && DistinctBy(DomainKey(), p.domains) && (forall d :: d in p.domains ==> ValidDomain(p, d))
    && DistinctBy(ClassKey(), p.serviceClasses) && (forall c :: c in p.serviceClasses ==> ValidClass(c))
    && ValidRiskBudget(p) && ValidThresholds(p.thresholds) && ValidHysteresis(p.hysteresis) && ValidAges(p)
  }
}
