/** Less capacity or worse health never increases authority. */
module CapacityMonotone {
  import opened Checked
  import opened Model
  import opened Sums
  import opened Sorting
  import opened PolicyRules
  import opened EvidenceRules
  import opened Engine
  import opened Conservation
  import opened DemandMonotone

  function HealthRank(h: Health): nat {
    match h
    case HealthUnknown => 0
    case Failed => 1
    case Degraded => 2
    case Healthy => 3
  }

  /** The same resource with no more to offer; what is physically there does not matter. */
  predicate WorseOff(r': ResourceCapacity, r: ResourceCapacity) {
    && r'.resource == r.resource && r'.pool == r.pool && HealthRank(r'.health) <= HealthRank(r.health)
    && r'.usable <= r.usable && r'.degradedPpm <= r.degradedPpm
    && r.degradedPpm <= PPM_SCALE
  }

  predicate AllWorseOff(rs': seq<ResourceCapacity>, rs: seq<ResourceCapacity>) {
    |rs'| == |rs| && forall i :: 0 <= i < |rs| ==> WorseOff(rs'[i], rs[i])
  }

  /** The same evidence except that every resource is worse off. */
  predicate EvidenceWorse(e': Evidence, e: Evidence) {
    && e'.reservations == e.reservations && e'.admissions == e.admissions
    && e.capacity.Some? && e'.capacity.Some?
    && var c, c' := e.capacity.value, e'.capacity.value;
    && c'.domain == c.domain && c'.generation == c.generation && c'.epoch == c.epoch
    && c'.observedTick == c.observedTick && AllWorseOff(c'.resources, c.resources)
  }

  // --------------------------------------------------------------- members

  lemma {:induction false} FindWorse(rs': seq<ResourceCapacity>, rs: seq<ResourceCapacity>, id: u64)
    requires AllWorseOff(rs', rs)
    ensures FindResource(rs', id).Some? == FindResource(rs, id).Some?
    ensures FindResource(rs, id).Some? ==> WorseOff(FindResource(rs', id).value, FindResource(rs, id).value)
  {
    if rs != [] {
      assert WorseOff(rs'[0], rs[0]);
      FindWorse(rs'[1..], rs[1..], id);
    }
  }

  lemma DegradedFits(usable: u64, ppm: u64)
    requires ppm <= PPM_SCALE
    ensures MulDivFloor(usable, ppm, PPM_SCALE).Some? && MulDivFloor(usable, ppm, PPM_SCALE).value <= usable
  {
    ScaleMono(usable, usable, Ratio(ppm, PPM_SCALE), Ratio(1, 1));
  }

  lemma EffectiveWorse(r': ResourceCapacity, r: ResourceCapacity)
    requires WorseOff(r', r)
    ensures EffectiveUsable(r').Some? && EffectiveUsable(r).Some?
    ensures EffectiveUsable(r').value <= EffectiveUsable(r).value
  {
    DegradedFits(r'.usable, r'.degradedPpm);
    DegradedFits(r.usable, r.degradedPpm);
    ScaleMono(r'.usable, r.usable, Ratio(r'.degradedPpm, PPM_SCALE), Ratio(r.degradedPpm, PPM_SCALE));
  }

  predicate MemberWorse(m': Member, m: Member) {
    WorseOff(m'.capacity, m.capacity) && m'.effective <= m.effective && !m'.capacity.health.HealthUnknown?
  }

  predicate MembersWorse(ms': seq<Member>, ms: seq<Member>) {
    |ms'| == |ms| && forall i :: 0 <= i < |ms| ==> MemberWorse(ms'[i], ms[i])
  }

  lemma {:induction false} ResolveWorse(pool: u64, rs': seq<ResourceCapacity>, rs: seq<ResourceCapacity>, ids: seq<u64>)
    requires AllWorseOff(rs', rs)
    requires ResolveMembers(pool, rs', ids).Ok? && ResolveMembers(pool, rs, ids).Ok?
    ensures MembersWorse(ResolveMembers(pool, rs', ids).value, ResolveMembers(pool, rs, ids).value)
  {
    if ids != [] {
      var id := ids[|ids| - 1];
      ResolveWorse(pool, rs', rs, ids[..|ids| - 1]);
      FindWorse(rs', rs, id);
      EffectiveWorse(FindResource(rs', id).value, FindResource(rs, id).value);
      hide WorseOff, EffectiveUsable;
    }
  }

  lemma WorseTotals(ms': seq<Member>, ms: seq<Member>)
    requires MembersWorse(ms', ms)
    ensures SumBy(Effective(), ms') <= SumBy(Effective(), ms)
    ensures Impaired(ms) ==> Impaired(ms')
  {
    assert forall i :: 0 <= i < |ms| ==> MemberWorse(ms'[i], ms[i]);
    SumByMono(Effective(), Effective(), ms', ms);
    if Impaired(ms) {
      var i :| 0 <= i < |ms| && (ms[i].capacity.health.Degraded? || ms[i].capacity.health.Failed?);
      assert MemberWorse(ms'[i], ms[i]);
    }
  }

  // -------------------------------------------------------------- boundary

  lemma RatioWorse(policy: Policy, domain: DomainConfig, impaired': bool, impaired: bool)
    requires SoundRatios(policy, domain) && (impaired ==> impaired')
    ensures RatioLe(EffectiveRatio(policy, domain, impaired').0, EffectiveRatio(policy, domain, impaired).0)
    ensures EffectiveRatio(policy, domain, impaired').0.den != 0 && EffectiveRatio(policy, domain, impaired).0.den != 0
  {
    EffectiveRatioBounds(policy, domain, impaired');
    EffectiveRatioBounds(policy, domain, impaired);
  }

  /** Every candidate ceiling shrinks with the capacity, so the least of them does. */
  lemma LeastWorse(first': (Constraint, u64), cs': seq<(Constraint, u64)>, first: (Constraint, u64), cs: seq<(Constraint, u64)>)
    requires first'.1 <= first.1 && |cs'| == |cs| && forall i :: 0 <= i < |cs| ==> cs'[i].1 <= cs[i].1
    ensures Least(first', cs').1 <= Least(first, cs).1
  {
    if Least(first, cs) != first {
      var i :| 0 <= i < |cs| && cs[i] == Least(first, cs);
      assert cs'[i] in cs';
    }
  }

  lemma RiskWorse(risk: RiskBudget, u': u64, u: u64)
    requires u' <= u && RiskCandidates(risk, u').Some? && RiskCandidates(risk, u).Some?
    ensures var cs', cs := RiskCandidates(risk, u').value, RiskCandidates(risk, u).value;
            |cs'| == |cs| && forall i :: 0 <= i < |cs| ==> cs'[i].1 <= cs[i].1
  {
    var p := Ratio((PPM_SCALE + risk.maxExposurePpm) % U64_LIMIT, PPM_SCALE);
    ScaleMono(u', u, p, p);
  }

  /** The legal side of the accounting shrinks; the consumed side is the same. */
  predicate AccountWorse(a': Accounting, a: Accounting) {
    && a'.effectiveUsable <= a.effectiveUsable && a'.ceilingTotal <= a.ceilingTotal
    && a'.contingentCeiling <= a.contingentCeiling && a'.contingentFree <= a.contingentFree
    && a'.guaranteesTotal == a.guaranteesTotal && a'.protectedRequired == a.protectedRequired
    && a'.floorRequired == a.floorRequired && a'.committedTotal == a.committedTotal
    && a'.burstCommitted == a.burstCommitted && a.overage <= a'.overage
  }

  lemma BoundaryWorse(policy: Policy, domain: DomainConfig, impaired': bool, impaired: bool, l': Loads, l: Loads)
    requires SoundRatios(policy, domain) && (impaired ==> impaired')
    requires l' == l.(usable := l'.usable) && l'.usable <= l.usable
    requires Boundary(policy, domain, impaired', l').Some? && Boundary(policy, domain, impaired, l).Some?
    ensures AccountWorse(Boundary(policy, domain, impaired', l').value, Boundary(policy, domain, impaired, l).value)
  {
    var r', r := EffectiveRatio(policy, domain, impaired'), EffectiveRatio(policy, domain, impaired);
    RatioWorse(policy, domain, impaired', impaired);
    ScaleMono(l'.usable, l.usable, r'.0, r.0);
    var cs', cs := RiskCandidates(policy.riskBudget, l'.usable).value, RiskCandidates(policy.riskBudget, l.usable).value;
    RiskWorse(policy.riskBudget, l'.usable, l.usable);
    LeastWorse((r'.1, MulDivFloor(l'.usable, r'.0.num, r'.0.den).value), cs',
               (r.1, MulDivFloor(l.usable, r.0.num, r.0.den).value), cs);
    hide EffectiveRatio, RiskCandidates, RiskCeiling, Least, RatioLe, SoundRatios;
  }

  // --------------------------------------------------------- the cascade

  lemma CoveredWorse(k: Scope, ms': seq<Member>, ms: seq<Member>, gs: seq<Guarantee>)
    requires MembersWorse(ms', ms) && GuaranteesUncovered(k, ms, gs)
    ensures GuaranteesUncovered(k, ms', gs)
  {
    var i :| 0 <= i < |ms| && GuaranteeTotal(k, GuaranteedOn(ms[i].capacity.resource), gs) > ms[i].effective;
    assert MemberWorse(ms'[i], ms[i]);
  }

  /** A smaller contingent ceiling allows a class no more. */
  lemma {:induction false} ShareWorse(k: Scope, ds: seq<Demand>, ceiling': u64, ceiling: u64, cs: seq<ServiceClass>)
    requires ceiling' <= ceiling && BoundedShares(cs)
    requires ShareFault(k, ds, ceiling, cs).Some?
    ensures ShareFault(k, ds, ceiling', cs).Some?
  {
    if cs != [] {
      var c := cs[|cs| - 1];
      if ShareFault(k, ds, ceiling, cs[..|cs| - 1]).Some? {
        ShareWorse(k, ds, ceiling', ceiling, cs[..|cs| - 1]);
      } else if c.hasShareCap {
        ShareFits(ceiling, c.shareCapPpm);
        ShareFits(ceiling', c.shareCapPpm);
        ScaleMono(ceiling', ceiling, Ratio(c.shareCapPpm, PPM_SCALE), Ratio(c.shareCapPpm, PPM_SCALE));
      }
    }
  }

  lemma DecideWorse(policy: Policy, domain: DomainConfig, k: Scope, ms': seq<Member>, ms: seq<Member>,
                    gs: seq<Guarantee>, ds: seq<Demand>, a': Accounting, a: Accounting)
    requires MembersWorse(ms', ms) && AccountWorse(a', a) && BoundedShares(k.classes)
    requires Decide(policy, domain, k, ms', gs, ds, a').outcome.WithinPolicy?
    ensures Decide(policy, domain, k, ms, gs, ds, a).outcome.WithinPolicy?
  {
    if GuaranteesUncovered(k, ms, gs) {
      CoveredWorse(k, ms', ms, gs);
    }
    ShareFaultRestricts(k, ds, a'.contingentCeiling, k.classes);
    if ShareFault(k, ds, a.contingentCeiling, k.classes).Some? {
      ShareWorse(k, ds, a'.contingentCeiling, a.contingentCeiling, k.classes);
    }
    hide ShareFault, Unbacked, GuaranteesUncovered;
  }

  // ----------------------------------------------------------- the theorem

  lemma AdmitWorse(policy: Policy, domain: DomainConfig, x: Expectation, e': Evidence, e: Evidence, tick: u64)
    requires EvidenceWorse(e', e)
    requires Admit(policy, domain, x, e', tick).Ok? && Admit(policy, domain, x, e, tick).Ok?
    ensures var i', i := Admit(policy, domain, x, e', tick).value, Admit(policy, domain, x, e, tick).value;
            MembersWorse(i'.members, i.members) && i'.guarantees == i.guarantees && i'.records == i.records
  {
    ResolveWorse(domain.pool, e'.capacity.value.resources, e.capacity.value.resources, SortedMembers(domain));
    hide MembersWorse, AllWorseOff;
  }

  lemma AssessWorse(policy: Policy, domain: DomainConfig, i': Inputs, i: Inputs)
    requires SoundRatios(policy, domain) && BoundedShares(policy.serviceClasses)
    requires MembersWorse(i'.members, i.members) && i'.guarantees == i.guarantees && i'.records == i.records
    requires Assess(policy, domain, i').Assessed? && Assess(policy, domain, i).Assessed?
    ensures var r', r := Assess(policy, domain, i'), Assess(policy, domain, i);
            && r'.accounting.ceilingTotal <= r.accounting.ceilingTotal
            && r'.accounting.contingentFree <= r.accounting.contingentFree
            && (r'.verdict.outcome.WithinPolicy? ==> r.verdict.outcome.WithinPolicy?)
  {
    var k := ScopeOf(policy, domain);
    var l', l := LoadsOf(k, i'.members, i'.guarantees, i'.records), LoadsOf(k, i.members, i.guarantees, i.records);
    WorseTotals(i'.members, i.members);
    BoundaryWorse(policy, domain, Impaired(i'.members), Impaired(i.members), l', l);
    var a' := Boundary(policy, domain, Impaired(i'.members), l').value;
    var a := Boundary(policy, domain, Impaired(i.members), l).value;
    if Decide(policy, domain, k, i'.members, i.guarantees, i.records, a').outcome.WithinPolicy? {
      DecideWorse(policy, domain, k, i'.members, i.members, i.guarantees, i.records, a', a);
    }
    hide Boundary, Decide, MembersWorse;
  }

  /** If every resource is no healthier and has no more usable capacity, and the larger case establishes
      its boundary at all, then neither the ceiling nor the free contingent authority grows, and whatever
      the smaller case grants the larger one grants too. */
  lemma LessCapacityNeverGrants(policy: Policy, domain: DomainConfig, x: Expectation, e': Evidence, e: Evidence, tick: u64)
    requires ValidPolicy(policy) && domain in policy.domains && EvidenceWorse(e', e)
    requires AssessEvidence(policy, domain, x, e, tick).Assessed?
    ensures var s, l := Evaluate(policy, domain, x, e', tick), Evaluate(policy, domain, x, e, tick);
            && (s.assessment.Assessed? ==>
                  && s.assessment.accounting.ceilingTotal <= l.assessment.accounting.ceilingTotal
                  && s.assessment.accounting.contingentFree <= l.assessment.accounting.contingentFree)
            && (s.authorized ==> l.authorized)
            && s.increment <= l.increment
  {
    ValidPolicyIsSound(policy, domain);
    ValidThresholdsAndShares(policy);
    RejectionWithholds(policy, domain, x, e', tick);
    hide ValidPolicy, Admit, SoundRatios, EvidenceWorse;
    if Admit(policy, domain, x, e', tick).Ok? && AssessEvidence(policy, domain, x, e', tick).Assessed? {
      var i', i := Admit(policy, domain, x, e', tick).value, Admit(policy, domain, x, e, tick).value;
      AdmitWorse(policy, domain, x, e', e, tick);
      AssessWorse(policy, domain, i', i);
    }
    hide Assess;
  }
}
