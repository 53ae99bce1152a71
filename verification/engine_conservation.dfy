/** What an assessed boundary guarantees under a validated policy. */
module Conservation {
  import opened Checked
  import opened Model
  import opened Sums
  import opened Sorting
  import opened PolicyRules
  import opened Engine

  /** The parts of a validated policy the boundary arithmetic relies on. */
  predicate SoundRatios(policy: Policy, domain: DomainConfig) {
    && RatioInBounds(policy.ratioCap) && RatioInBounds(domain.configuredRatio)
    && (domain.hasDegradedRatioCap ==> RatioInBounds(domain.degradedRatioCap))
    && (policy.riskBudget.hasPpm ==> policy.riskBudget.maxExposurePpm <= HARD_MAX_EXPOSURE_PPM)
  }

  /** The effective ratio lies between 1:1 and both the configured ratio and the policy cap, and
      impairment can only lower it. */
  lemma EffectiveRatioBounds(policy: Policy, domain: DomainConfig, impaired: bool)
    requires SoundRatios(policy, domain)
    ensures var r := EffectiveRatio(policy, domain, impaired).0;
            && RatioInBounds(r) && RatioLe(Ratio(1, 1), r)
            && RatioLe(r, policy.ratioCap) && RatioLe(r, domain.configuredRatio)
            && RatioLe(r, EffectiveRatio(policy, domain, false).0)
  {
    var capped := EffectiveRatio(policy, domain, false).0;
    var r := EffectiveRatio(policy, domain, impaired).0;
    if r != capped {
      RatioLeTransitive(r, capped, policy.ratioCap);
      RatioLeTransitive(r, capped, domain.configuredRatio);
    }
  }

  lemma ScaleAtLeast(u: nat, r: Ratio)
    requires r.den != 0 && RatioLe(Ratio(1, 1), r)
    ensures u <= u * r.num / r.den
  {
    ScaleMono(u, u, Ratio(1, 1), r);
  }

  /** Every established ceiling is at least the usable capacity and at most each bound the policy sets. */
  lemma CeilingBounds(policy: Policy, domain: DomainConfig, impaired: bool, l: Loads)
    requires SoundRatios(policy, domain)
    requires Boundary(policy, domain, impaired, l).Some?
    ensures var a := Boundary(policy, domain, impaired, l).value;
            && a.effectiveUsable == l.usable <= a.ceilingTotal
            && a.ceilingTotal <= a.effectiveUsable * policy.ratioCap.num / policy.ratioCap.den
            && a.ceilingTotal <= a.effectiveUsable * a.effectiveRatio.num / a.effectiveRatio.den
            && (policy.riskBudget.hasAbsolute ==> a.ceilingTotal <= a.effectiveUsable + policy.riskBudget.maxExposureUnits)
            && (policy.riskBudget.hasPpm ==>
                  a.ceilingTotal <= a.effectiveUsable * (PPM_SCALE + policy.riskBudget.maxExposurePpm) / PPM_SCALE)
  {
    var u: u64 := l.usable;
    var r := EffectiveRatio(policy, domain, impaired);
    var risk := policy.riskBudget;
    EffectiveRatioBounds(policy, domain, impaired);
    ScaleAtLeast(u, r.0);
    ScaleMono(u, u, r.0, policy.ratioCap);
    var risks := RiskCandidates(risk, u).value;
    if risk.hasPpm {
      ScaleAtLeast(u, Ratio(PPM_SCALE + risk.maxExposurePpm, PPM_SCALE));
      assert (RISK_BUDGET_EXPOSURE_PPM, PpmCeiling(risk, u).value) in risks;
    }
    if risk.hasAbsolute {
      assert (RISK_BUDGET_EXPOSURE_ABSOLUTE, AbsoluteCeiling(risk, u).value) in risks;
    }
  }

  lemma ValidPolicyIsSound(policy: Policy, domain: DomainConfig)
    requires ValidPolicy(policy) && domain in policy.domains
    ensures SoundRatios(policy, domain)
    ensures ValidDomain(policy, domain)
  {
  }

  /** A grant is exactly what is left of the ceiling after every commitment and the reserve. */
  lemma GrantConservation(policy: Policy, domain: DomainConfig, x: Expectation, e: Evidence, tick: u64)
    requires ValidPolicy(policy) && domain in policy.domains
    requires Evaluate(policy, domain, x, e, tick).authorized
    ensures var r := Evaluate(policy, domain, x, e, tick);
            && r.assessment.Assessed? && r.increment > 0
            && var a := r.assessment.accounting;
            && a.committedTotal + r.increment + a.emergencyReserve == a.ceilingTotal
            && a.floorRequired <= a.effectiveUsable <= a.ceilingTotal
            && a.ceilingTotal <= a.effectiveUsable * policy.ratioCap.num / policy.ratioCap.den
            && (policy.riskBudget.hasAbsolute ==> a.ceilingTotal <= a.effectiveUsable + policy.riskBudget.maxExposureUnits)
            && (policy.riskBudget.hasPpm ==>
                  a.ceilingTotal <= a.effectiveUsable * (PPM_SCALE + policy.riskBudget.maxExposurePpm) / PPM_SCALE)
  {
    ValidPolicyIsSound(policy, domain);
    RejectionWithholds(policy, domain, x, e, tick);
    var i := Admit(policy, domain, x, e, tick).value;
    var k := ScopeOf(policy, domain);
    var l := LoadsOf(k, i.members, i.guarantees, i.records);
    CeilingBounds(policy, domain, Impaired(i.members), l);
    DecidedGrant(policy, domain, i, Boundary(policy, domain, Impaired(i.members), l).value);
  }

  lemma DecidedGrant(policy: Policy, domain: DomainConfig, i: Inputs, a: Accounting)
    requires Assess(policy, domain, i).Assessed? && Assess(policy, domain, i).accounting == a
    requires Assess(policy, domain, i).verdict.outcome.WithinPolicy?
    ensures a.floorRequired <= a.effectiveUsable && a.contingentFree > 0
    ensures a.committedTotal + a.contingentFree + a.emergencyReserve == a.ceilingTotal
  {
    var k := ScopeOf(policy, domain);
    ShareFaultRestricts(k, i.records, a.contingentCeiling, k.classes);
  }

  /** What is granted on is within the ceiling, and the reserve is the domain's. */
  lemma GrantIsWithin(policy: Policy, domain: DomainConfig, x: Expectation, e: Evidence, tick: u64)
    requires Evaluate(policy, domain, x, e, tick).authorized && Evaluate(policy, domain, x, e, tick).assessment.Assessed?
    ensures var a := Evaluate(policy, domain, x, e, tick).assessment.accounting;
            a.overage == 0 && a.emergencyReserve == domain.emergencyReserve
  {
    var i := Admit(policy, domain, x, e, tick).value;
    var a := Evaluate(policy, domain, x, e, tick).assessment.accounting;
    var k := ScopeOf(policy, domain);
    ShareFaultRestricts(k, i.records, a.contingentCeiling, k.classes);
    hide Admit, Unbacked, DemandTotal, GuaranteesUncovered, ShareFault, EffectiveRatio, RiskCandidates, Least, RiskCeiling;
  }

  /** A share fault never authorizes anything. */
  lemma {:induction false} ShareFaultRestricts(k: Scope, ds: seq<Demand>, ceiling: u64, cs: seq<ServiceClass>)
    ensures var f := ShareFault(k, ds, ceiling, cs); f.Some? ==> Severity(f.value.outcome) >= 2
  {
    if cs != [] {
      ShareFaultRestricts(k, ds, ceiling, cs[..|cs| - 1]);
    }
  }

  predicate Withholds(v: Verdict) {
    v.outcome.Unknown? || v.outcome.Stale? || v.outcome.ConflictingInput?
  }

  lemma {:induction false} MemberRejection(pool: u64, resources: seq<ResourceCapacity>, ids: seq<u64>)
    ensures var r := ResolveMembers(pool, resources, ids); r.Rejected? ==> Withholds(r.verdict)
  {
    if ids != [] {
      MemberRejection(pool, resources, ids[..|ids| - 1]);
    }
  }

  lemma {:induction false} GuaranteeRejection(k: Scope, gs: seq<Guarantee>)
    ensures var f := FirstGuaranteeFault(k, gs); f.Some? ==> Withholds(f.value)
  {
    if gs != [] {
      GuaranteeRejection(k, gs[..|gs| - 1]);
    }
  }

  lemma {:induction false} DemandRejection(k: Scope, ds: seq<Demand>)
    ensures var f := FirstDemandFault(k, ds); f.Some? ==> Withholds(f.value)
  {
    if ds != [] {
      DemandRejection(k, ds[..|ds| - 1]);
    }
  }

  /** Evidence that never reaches the boundary never carries authority. */
  lemma RejectionWithholds(policy: Policy, domain: DomainConfig, x: Expectation, e: Evidence, tick: u64)
    ensures var r := Admit(policy, domain, x, e, tick); r.Rejected? ==> Withholds(r.verdict)
  {
    if BindingFault(policy, domain, x, e).None? {
      var k := ScopeOf(policy, domain);
      MemberRejection(domain.pool, e.capacity.value.resources, SortedMembers(domain));
      GuaranteeRejection(k, e.reservations.value.guarantees);
      DemandRejection(k, e.admissions.value.records);
    }
  }

  /** Two exits of the outcome cascade can never be taken under a validated policy: a satisfied floor is
      below the ceiling, and a ceiling over some usable capacity is not zero. */
  lemma DeadExits(policy: Policy, domain: DomainConfig, x: Expectation, e: Evidence, tick: u64)
    requires ValidPolicy(policy) && domain in policy.domains
    requires AssessEvidence(policy, domain, x, e, tick).Assessed?
    ensures var a := AssessEvidence(policy, domain, x, e, tick).accounting;
            && (a.floorRequired <= a.effectiveUsable ==> a.floorRequired <= a.ceilingTotal)
            && (a.effectiveUsable > 0 ==> a.ceilingTotal > 0)
  {
    ValidPolicyIsSound(policy, domain);
    var i := Admit(policy, domain, x, e, tick).value;
    CeilingBounds(policy, domain, Impaired(i.members),
                  LoadsOf(ScopeOf(policy, domain), i.members, i.guarantees, i.records));
  }
}
