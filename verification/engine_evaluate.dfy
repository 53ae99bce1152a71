/** evaluate_domain() from end to end, on the scans and ledgers. */
module EvaluateDomainLoops {
  import opened Checked
  import opened Wire
  import opened Model
  import opened Sums
  import opened Sorting
  import opened PolicyRules
  import opened Engine
  import opened Resources
  import opened Conservation
  import opened EngineLoops
  import opened DemandLoops

  // ---------------------------------------------------------------- totals

  /** Physical and usable capacity saturate; the effective capacity has to fit. */
  method TotalCapacity(ms: seq<Member>) returns (physical: u64, usable: u64, effective: Option<u64>)
    ensures physical == Saturated(SumBy(Physical(), ms)) && usable == Saturated(SumBy(Usable(), ms))
    ensures effective == if SumBy(Effective(), ms) < U64_LIMIT then Some(SumBy(Effective(), ms)) else None
  {
    physical, usable := 0, 0;
    var sum: u64 := 0;
    var closed := true;
    for n := 0 to |ms|
      invariant physical == Saturated(SumBy(Physical(), ms[..n])) && usable == Saturated(SumBy(Usable(), ms[..n]))
      invariant closed <==> SumBy(Effective(), ms[..n]) < U64_LIMIT
      invariant closed ==> sum == SumBy(Effective(), ms[..n])
    {
      assert ms[..n + 1] == ms[..n] + [ms[n]];
      SumBySnoc(Physical(), ms[..n], ms[n]);
      SumBySnoc(Usable(), ms[..n], ms[n]);
      SumBySnoc(Effective(), ms[..n], ms[n]);
      physical := AddSat(physical, ms[n].capacity.physical);
      usable := AddSat(usable, ms[n].capacity.usable);
      if closed {
        var next := AddChecked(sum, ms[n].effective);
        if next.None? {
          closed := false;
        } else {
          sum := next.value;
        }
      }
    }
    assert ms[..|ms|] == ms;
    effective := if closed then Some(sum) else None;
  }

  method SomeImpaired(ms: seq<Member>) returns (impaired: bool)
    ensures impaired == Impaired(ms)
  {
    var degraded, failed := 0, 0;
    for n := 0 to |ms|
      invariant degraded >= 0 && failed >= 0
      invariant degraded + failed > 0
                <==> exists i :: 0 <= i < n && (ms[i].capacity.health.Degraded? || ms[i].capacity.health.Failed?)
    {
      if ms[n].capacity.health.Degraded? {
        degraded := degraded + 1;
      } else if ms[n].capacity.health.Failed? {
        failed := failed + 1;
      }
    }
    impaired := degraded > 0 || failed > 0;
  }

  /** The shortfall of members whose guarantees exceed them, saturating. */
  method Shortfall(k: Scope, ghost gs: seq<Guarantee>, l: GuaranteeLedger, ms: seq<Member>) returns (amount: u64)
    requires Posted(k, gs, l)
    ensures amount > 0 <==> GuaranteesUncovered(k, ms, gs)
  {
    hide GuaranteeTotal;
    amount := 0;
    for n := 0 to |ms|
      invariant amount > 0 <==>
        exists i :: 0 <= i < n && GuaranteeTotal(k, GuaranteedOn(ms[i].capacity.resource), gs) > ms[i].effective
    {
      var held := At(l.on, ms[n].capacity.resource);
      assert held == GuaranteeTotal(k, GuaranteedOn(ms[n].capacity.resource), gs);
      if held > ms[n].effective {
        amount := AddSat(amount, held - ms[n].effective);
      }
    }
  }

  // -------------------------------------------------------------- boundary

  method LowestCandidate(first: (Constraint, u64), cs: seq<(Constraint, u64)>) returns (r: (Constraint, u64))
    ensures r == Least(first, cs)
  {
    r := first;
    for n := 0 to |cs|
      invariant r == Least(first, cs[..n])
    {
      assert cs[..n + 1][..n] == cs[..n];
      if cs[n].1 < r.1 {
        r := cs[n];
      }
    }
    assert cs[..|cs|] == cs;
  }

  method ChooseRatio(policy: Policy, domain: DomainConfig, impaired: bool) returns (ratio: Ratio, constraint: Constraint)
    ensures (ratio, constraint) == EffectiveRatio(policy, domain, impaired)
  {
    ratio, constraint := domain.configuredRatio, CONFIGURED_RATIO;
    if RatioGt(ratio, policy.ratioCap) {
      ratio, constraint := policy.ratioCap, POLICY_RATIO_CAP;
    }
    if impaired {
      var cap := if domain.hasDegradedRatioCap then domain.degradedRatioCap else Ratio(1, 1);
      if RatioLt(cap, ratio) {
        ratio, constraint := cap, DEGRADED_RATIO_CAP;
      }
    }
  }

  /** The risk ceilings that are enabled, and whether they could be computed. */
  method RiskCeilings(risk: RiskBudget, usable: u64) returns (cs: Option<seq<(Constraint, u64)>>)
    ensures cs == RiskCandidates(risk, usable)
  {
    hide AbsoluteCeiling, PpmCeiling;
    var absolute: seq<(Constraint, u64)>, relative: seq<(Constraint, u64)> := [], [];
    var closed := true;
    if risk.hasAbsolute {
      var value := AbsoluteCeiling(risk, usable);
      if value.None? {
        closed := false;
      } else {
        absolute := [(RISK_BUDGET_EXPOSURE_ABSOLUTE, value.value)];
      }
    }
    if risk.hasPpm {
      var value := PpmCeiling(risk, usable);
      if value.None? {
        closed := false;
      } else {
        relative := [(RISK_BUDGET_EXPOSURE_PPM, value.value)];
      }
    }
    cs := if closed then Some(absolute + relative) else None;
  }

  /** The boundary arithmetic; None when some step did not close. */
  method EstablishBoundary(policy: Policy, domain: DomainConfig, impaired: bool, effective: Option<u64>, guarantees: u64,
                           l: DemandLedger, ghost loads: Loads)
    returns (a: Option<Accounting>)
    requires effective == if loads.usable < U64_LIMIT then Some(loads.usable) else None
    requires loads == Loads(loads.usable, guarantees, l.contingent, l.pending, l.burst, l.admitted)
    ensures a == Boundary(policy, domain, impaired, loads)
  {
    hide EffectiveRatio, RiskCandidates, Least, RiskCeiling, Account;
    var ratio, constraint := ChooseRatio(policy, domain, impaired);
    if effective.None? {
      return None;
    }
    var usable := effective.value;
    var ratioCeiling := MulDivFloor(usable, ratio.num, ratio.den);
    var risks := RiskCeilings(policy.riskBudget, usable);
    var required := AddChecked(guarantees, domain.emergencyReserve);
    var floor := if required.Some? then AddChecked(required.value, domain.minProtectedHeadroom) else None;
    var committed := AddChecked(guarantees, l.contingent);
    if ratioCeiling.None? || risks.None? || floor.None? || committed.None? {
      return None;
    }
    var binding := LowestCandidate((constraint, ratioCeiling.value), risks.value);
    if usable == 0 {
      binding := (NO_CAPACITY, 0);
    }
    a := Some(Account(policy, domain, impaired, Loads(usable, guarantees, l.contingent, l.pending, l.burst, l.admitted),
                      ratio, binding, RiskCeiling(risks.value)));
  }

  // ---------------------------------------------------- the per-resource view

  lemma ViewIs(k: Scope, gs: seq<Guarantee>, ds: seq<Demand>, g: GuaranteeLedger, l: DemandLedger, ratio: Ratio, m: Member)
    requires Posted(k, gs, g) && TablesPosted(k, ds, l)
    ensures var id := m.capacity.resource;
            ResourceView(k, gs, ds, ratio, m)
            == AccountResource(m, At(g.on, id), At(g.on, id), At(l.pendingOn, id), 0,
                               OrZero(MulDivFloor(m.effective, ratio.num, ratio.den)))
  {
    hide GuaranteeTotal, DemandTotal, AccountResource;
  }

  lemma {:induction false} ViewsPrefix(k: Scope, gs: seq<Guarantee>, ds: seq<Demand>, ratio: Ratio, ms: seq<Member>, n: nat)
    requires n <= |ms|
    ensures ResourceViews(k, gs, ds, ratio, ms[..n]) == ResourceViews(k, gs, ds, ratio, ms)[..n]
    decreases |ms| - n
  {
    hide ResourceView;
    if n == |ms| {
      assert ms[..n] == ms;
    } else {
      assert ms[..n + 1][..n] == ms[..n];
      ViewsPrefix(k, gs, ds, ratio, ms, n + 1);
    }
  }

  /** One entry per member up to the breakdown limit; every member's ceiling is computed. When the domain's
      ratio ceiling fits, so does each member's. The checked addition starts from a commitment nothing is
      ever assigned to, so it cannot fail, and its result takes the place of the contingent amount. */
  method Breakdown(k: Scope, ghost gs: seq<Guarantee>, ghost ds: seq<Demand>, g: GuaranteeLedger, l: DemandLedger,
                   ratio: Ratio, ms: seq<Member>, limit: nat)
    returns (views: seq<ResourceAccounting>, closed: bool)
    requires Posted(k, gs, g) && TablesPosted(k, ds, l)
    ensures var all := ResourceViews(k, gs, ds, ratio, ms); views == if |all| <= limit then all else all[..limit]
    ensures ratio.den != 0 && SumBy(Effective(), ms) * ratio.num / ratio.den < U64_LIMIT ==> closed
  {
    hide Posted, TablesPosted, AccountResource, SumBy;
    views, closed := [], true;
    for n := 0 to |ms|
      invariant views == ResourceViews(k, gs, ds, ratio, ms[..if n <= limit then n else limit])
      invariant ratio.den != 0 && SumBy(Effective(), ms) * ratio.num / ratio.den < U64_LIMIT ==> closed
    {
      var m := ms[n];
      var id := m.capacity.resource;
      var committed: u64 := 0;
      var contingent := AddChecked(committed, At(g.on, id));
      var ceiling := MulDivFloor(m.effective, ratio.num, ratio.den);
      MemberCeilingFits(ratio, ms, n);
      if contingent.None? || ceiling.None? {
        closed := false;
      }
      ViewIs(k, gs, ds, g, l, ratio, m);
      if n < limit {
        views := views + [AccountResource(m, At(g.on, id), OrZero(contingent), At(l.pendingOn, id), committed,
                                          OrZero(ceiling))];
        assert ms[..n + 1][..n] == ms[..n];
      }
    }
    ViewsPrefix(k, gs, ds, ratio, ms, if |ms| <= limit then |ms| else limit);
  }

  lemma MemberCeilingFits(ratio: Ratio, ms: seq<Member>, n: nat)
    requires n < |ms|
    ensures ratio.den != 0 && SumBy(Effective(), ms) * ratio.num / ratio.den < U64_LIMIT ==>
              MulDivFloor(ms[n].effective, ratio.num, ratio.den).Some?
  {
    SumByMember(Effective(), ms, n);
    if ratio.den != 0 {
      ScaleMono(ms[n].effective, SumBy(Effective(), ms), ratio, ratio);
    }
    hide SumBy;
  }

  // --------------------------------------------------------------- outcome

  method DecideOutcome(policy: Policy, domain: DomainConfig, k: Scope, ms: seq<Member>, ghost gs: seq<Guarantee>,
                       ghost ds: seq<Demand>, g: GuaranteeLedger, l: DemandLedger, a: Accounting)
    returns (v: Verdict)
    requires Posted(k, gs, g) && TotalsPosted(k, ds, l) && TablesPosted(k, ds, l)
    ensures v == Decide(policy, domain, k, ms, gs, ds, a)
  {
    IneligiblePositive(k, ds, l);
    hide Posted, TotalsPosted, TablesPosted, Unbacked, GuaranteesUncovered, ShareFault, DemandTotal;
    var unmapped := UnmappedGuaranteed(k, gs, ds, g, l);
    if unmapped > 0 {
      return Verdict(ConflictingInput, ADMISSION_KIND_CONFLICT);
    }
    if l.ineligible > 0 {
      return Verdict(PolicyRejected, POLICY_SERVICE_CLASS_INELIGIBLE_DEMAND);
    }
    var violation := Shortfall(k, gs, g, ms);
    if violation > 0 || a.guaranteesTotal > a.effectiveUsable || a.protectedRequired > a.effectiveUsable {
      return Verdict(EmergencyReduction, GUARANTEE_SUM_EXCEEDS_USABLE);
    }
    if a.floorRequired > a.effectiveUsable || a.floorRequired > a.ceilingTotal {
      return Verdict(PolicyRejected, GUARANTEE_FLOOR_EXCEEDS_CEILING);
    }
    if a.effectiveUsable == 0 {
      return if a.committedTotal > 0 then Verdict(EmergencyReduction, ADMISSION_NO_CONTINGENT_CEILING)
             else Verdict(AtLimit, RESOURCE_FAILED);
    }
    if a.overage > 0 {
      var ppm: u64 := PPM_SCALE;
      if a.ceilingTotal != 0 {
        var computed := MulDivCeil(a.overage, PPM_SCALE, a.ceilingTotal);
        ppm := if computed.Some? then computed.value else PPM_SCALE;
      }
      return Verdict(if ppm >= policy.thresholds.emergencyOveragePpm then EmergencyReduction else ReductionRequired,
                     ADMISSION_EXCEEDS_CONTINGENT_CEILING);
    }
    if domain.burstPoolEnabled && a.burstCommitted > domain.burstPoolCap {
      return Verdict(ReductionRequired, BURST_POOL_EXCEEDED);
    }
    var fault := CheckShares(k, ds, l, a.contingentCeiling);
    if fault.Some? {
      return fault.value;
    }
    return Verdict(if a.contingentFree == 0 then AtLimit else WithinPolicy, NO_REASON);
  }

  lemma IneligiblePositive(k: Scope, ds: seq<Demand>, l: DemandLedger)
    requires TotalsPosted(k, ds, l)
    ensures l.ineligible > 0 <==> DemandTotal(k, IneligibleAll, ds) > 0
  {
  }

  // ------------------------------------------------------------ end to end

  /** What the scans leave for the boundary. */
  datatype Scanned = Scanned(members: seq<Member>, effective: Option<u64>, guarantees: u64, g: GuaranteeLedger, l: DemandLedger)

  ghost predicate ScannedFrom(policy: Policy, domain: DomainConfig, i: Inputs, s: Scanned) {
    var k := ScopeOf(policy, domain);
    && s.members == i.members && Posted(k, i.guarantees, s.g)
    && TotalsPosted(k, i.records, s.l) && TablesPosted(k, i.records, s.l)
    && s.guarantees == GuaranteeTotal(k, GuaranteedAll, i.guarantees)
    && s.effective == if SumBy(Effective(), i.members) < U64_LIMIT then Some(SumBy(Effective(), i.members)) else None
  }

  /** Everything up to the totals; the verdict that stops it is the one `Admit` gives. */
  method AdmitEvidence(policy: Policy, domain: DomainConfig, x: Expectation, e: Evidence, tick: u64)
    returns (r: Result<Scanned>)
    requires DistinctBy(IdKey(), domain.members)
    ensures r.Rejected? ==> Admit(policy, domain, x, e, tick) == Rejected(r.verdict)
    ensures r.Ok? ==> Admit(policy, domain, x, e, tick).Ok?
                      && ScannedFrom(policy, domain, Admit(policy, domain, x, e, tick).value, r.value)
  {
    hide BindingFault, FreshnessFault, ResolveMembers, FirstGuaranteeFault, FirstDemandFault, GuaranteeTotal, DemandTotal,
      SortedMembers, Posted, TotalsPosted, TablesPosted, SumBy, DistinctResources;
    var bound := BindingFault(policy, domain, x, e);
    if bound.Some? {
      return Rejected(bound.value);
    }
    PresentWhenBound(policy, domain, x, e);
    var cap, res, adm := e.capacity.value, e.reservations.value, e.admissions.value;
    var fresh_ := FreshnessFault(policy, cap, res, adm, tick);
    if fresh_.Some? {
      return Rejected(fresh_.value);
    }
    if |cap.resources| > HARD_MAX_RESOURCES
       || |res.guarantees| > policy.limits.maxGuarantees || |res.guarantees| > HARD_MAX_RECORDS
       || |adm.records| > policy.limits.maxDemandRecords || |adm.records| > HARD_MAX_RECORDS {
      return Rejected(Verdict(ConflictingInput, SNAPSHOT_TOO_LARGE));
    }
    var distinct, index := IndexCapacity(cap.resources);
    if !distinct {
      return Rejected(Verdict(ConflictingInput, SNAPSHOT_DUPLICATE));
    }
    var ids := SortedMembers(domain);
    var resolved := ResolveAll(domain.pool, cap.resources, index, ids);
    if resolved.Rejected? {
      return Rejected(resolved.verdict);
    }
    var ms := resolved.value;
    var k := ScopeOf(policy, domain);
    var fault, g := ScanGuarantees(k, res.guarantees);
    if fault.Some? {
      return Rejected(fault.value);
    }
    SortedIsMembers(domain);
    var total := TotalGuarantees(k, res.guarantees, g, ids);
    if total.None? {
      return Rejected(Verdict(Unknown, RESERVATION_SUM_OVERFLOW));
    }
    var l;
    fault, l := ScanDemand(k, adm.records);
    if fault.Some? {
      return Rejected(fault.value);
    }
    var physical, usable, effective := TotalCapacity(ms);
    if physical > policy.limits.maxCapacityUnits || usable > policy.limits.maxCapacityUnits {
      return Rejected(Verdict(ConflictingInput, RESOURCE_CAPACITY_INVALID));
    }
    return Ok(Scanned(ms, effective, total.value, g, l));
  }

  lemma PresentWhenBound(policy: Policy, domain: DomainConfig, x: Expectation, e: Evidence)
    requires BindingFault(policy, domain, x, e).None?
    ensures e.capacity.Some? && e.reservations.Some? && e.admissions.Some?
  {
  }

  lemma SortedIsMembers(domain: DomainConfig)
    requires DistinctBy(IdKey(), domain.members)
    ensures DistinctBy(IdKey(), SortedMembers(domain))
    ensures forall r :: r in domain.members ==> r in SortedMembers(domain)
  {
    DistinctPermutation(IdKey(), domain.members, SortedMembers(domain));
    SameMembers(domain.members, SortedMembers(domain));
  }

  /** The whole evaluation: its result, and the per-resource view up to the breakdown limit. */
  method EvaluateDomain(policy: Policy, domain: DomainConfig, x: Expectation, e: Evidence, tick: u64)
    returns (r: Evaluation, views: seq<ResourceAccounting>)
    requires DistinctBy(IdKey(), domain.members)
    ensures r == Evaluate(policy, domain, x, e, tick)
    ensures r.assessment.Assessed? ==>
              var i := Admit(policy, domain, x, e, tick).value;
              var ratio := r.assessment.accounting.effectiveRatio;
              var all := ResourceViews(ScopeOf(policy, domain), i.guarantees, i.records, ratio, i.members);
              var limit := policy.limits.maxResourceBreakdown;
              views == if |all| <= limit then all else all[..limit]
  {
    hide Admit, ScannedFrom, Boundary, Decide, ResourceViews, BindingFault;
    views := [];
    var authority := AuthorityOf(policy, domain, x, e);
    var admitted := AdmitEvidence(policy, domain, x, e, tick);
    if admitted.Rejected? {
      return Finalize(Withheld(admitted.verdict), authority), [];
    }
    ghost var i := Admit(policy, domain, x, e, tick).value;
    var assessment;
    assessment, views := AssessScanned(policy, domain, i, admitted.value);
    r := Finalize(assessment, authority);
  }

  method AssessScanned(policy: Policy, domain: DomainConfig, ghost i: Inputs, s: Scanned)
    returns (assessment: Assessment, views: seq<ResourceAccounting>)
    requires ScannedFrom(policy, domain, i, s)
    ensures assessment == Assess(policy, domain, i)
    ensures assessment.Assessed? ==>
              var ratio := assessment.accounting.effectiveRatio;
              var all := ResourceViews(ScopeOf(policy, domain), i.guarantees, i.records, ratio, i.members);
              var limit := policy.limits.maxResourceBreakdown;
              views == if |all| <= limit then all else all[..limit]
  {
    hide Posted, TablesPosted, GuaranteeTotal, DemandTotal, SumBy, Boundary, Decide, ResourceViews;
    var k := ScopeOf(policy, domain);
    var impaired := SomeImpaired(s.members);
    ghost var loads := LoadsOf(k, i.members, i.guarantees, i.records);
    var a := EstablishBoundary(policy, domain, impaired, s.effective, s.guarantees, s.l, loads);
    if a.None? {
      return Withheld(Verdict(Unknown, ARITHMETIC_OVERFLOW)), [];
    }
    var closed;
    views, closed := Breakdown(k, i.guarantees, i.records, s.g, s.l, a.value.effectiveRatio, s.members,
                               policy.limits.maxResourceBreakdown);
    BoundaryFits(policy, domain, impaired, loads);
    if !closed {
      return Withheld(Verdict(Unknown, ARITHMETIC_OVERFLOW)), views;
    }
    var verdict := DecideOutcome(policy, domain, k, s.members, i.guarantees, i.records, s.g, s.l, a.value);
    assessment := Assessed(verdict, a.value);
  }

  /** An established boundary leaves no room for a member's arithmetic to fail. */
  lemma BoundaryFits(policy: Policy, domain: DomainConfig, impaired: bool, l: Loads)
    requires Boundary(policy, domain, impaired, l).Some?
    ensures var r := Boundary(policy, domain, impaired, l).value.effectiveRatio;
            && r.den != 0 && l.usable * r.num / r.den < U64_LIMIT
            && l.guarantees + l.contingent < U64_LIMIT && l.pending < U64_LIMIT
  {
    hide RiskCandidates, Least, RiskCeiling;
  }
}
