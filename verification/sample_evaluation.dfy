/** What the engine makes of the sample domain when its one member is healthy and one contingent record is
    all there is: a function of that record's amount. */
module SampleEvaluation {
  import opened Checked
  import opened Wire
  import opened Model
  import opened Sums
  import opened Sorting
  import opened PolicyRules
  import opened Engine
  import opened Sample

  const HEALTHY_MEMBER := ResourceCapacity(1, 1, 100, 100, Healthy, 0, 1)

  function DemandFor(amount: u64): Demand { Demand(1, 1, 1, 1, Contingent, amount, 0, 1) }

  /** The sample policy of one domain, whatever its hysteresis and digest. */
  predicate Like(p: Policy) { p == SamplePolicy(1, 1).(hysteresis := p.hysteresis, digest := p.digest) }

  /** 100 usable units on the one member, no guarantees, `amount` units of contingent demand. */
  predicate Offers(e: Evidence, amount: u64) {
    && e.capacity.Some? && e.reservations.Some? && e.admissions.Some?
    && e.capacity.value.resources == [HEALTHY_MEMBER] && e.capacity.value.observedTick == 0
    && e.reservations.value.guarantees == [] && e.reservations.value.observedTick == 0
    && e.admissions.value.records == [DemandFor(amount)] && e.admissions.value.observedTick == 0
  }

  function Resolved(amount: u64): Inputs { Inputs([Member(HEALTHY_MEMBER, 100)], [], [DemandFor(amount)]) }

  lemma OneClass(p: Policy)
    requires Like(p)
    ensures var k := ScopeOf(p, p.domains[0]);
            && k == Scope(1, [1], [SAMPLE_CLASS]) && FindClass(k.classes, 1) == Some(SAMPLE_CLASS)
            && forall amount: u64 :: Counted(k, DemandFor(amount))
  {
    assert p.domains[0] == SampleDomain(1);
  }

  lemma Admitted(p: Policy, x: Expectation, e: Evidence, amount: u64)
    requires Like(p) && Offers(e, amount) && BindingFault(p, p.domains[0], x, e).None?
    ensures Admit(p, p.domains[0], x, e, 0) == Ok(Resolved(amount))
  {
    var d := p.domains[0];
    assert SortedMembers(d) == [1];
    var ms := [Member(HEALTHY_MEMBER, 100)];
    assert ResolveMembers(1, [HEALTHY_MEMBER], [1]) == Ok(ms) by {
      assert [1][..0] == [] && [] + ms == ms;
    }
    OneClass(p);
    assert [DemandFor(amount)][..0] == [];
    assert FirstDemandFault(ScopeOf(p, d), [DemandFor(amount)]).None?;
    SumByOne(Physical(), ms[0]);
    SumByOne(Usable(), ms[0]);
    hide BindingFault;
  }

  lemma LoadsAre(p: Policy, amount: u64)
    requires Like(p)
    ensures LoadsOf(ScopeOf(p, p.domains[0]), [Member(HEALTHY_MEMBER, 100)], [], [DemandFor(amount)])
            == Loads(100, 0, amount, 0, 0, 0)
  {
    OneClass(p);
    var k := ScopeOf(p, p.domains[0]);
    SumByOne(Effective(), Member(HEALTHY_MEMBER, 100));
    forall m | m in [ContingentAll, PendingAll, BurstAll, AdmittedAll]
      ensures DemandTotal(k, m, [DemandFor(amount)]) == WeightOf(k, m, DemandFor(amount))
    {
      SumByOne(DemandWeight(k, m), DemandFor(amount));
    }
  }

  /** Twofold oversubscription of 100 units: a ceiling of 200. */
  predicate Accounted(a: Accounting, amount: u64) {
    && a.effectiveUsable == 100 && a.effectiveRatio == Ratio(2, 1) && a.ceilingTotal == a.contingentCeiling == 200
    && a.guaranteesTotal == a.protectedRequired == a.floorRequired == a.burstCommitted == 0
    && a.committedTotal == a.contingentCommitted == amount
    && a.overage == Monus(amount, 200) && a.contingentFree == Monus(200, amount)
  }

  lemma BoundaryIs(p: Policy, amount: u64)
    requires Like(p) && amount < U64_LIMIT
    ensures var b := Boundary(p, p.domains[0], false, Loads(100, 0, amount, 0, 0, 0));
            b.Some? && Accounted(b.value, amount)
  {
    assert EffectiveRatio(p, p.domains[0], false) == (Ratio(2, 1), CONFIGURED_RATIO);
    var risks := [(RISK_BUDGET_EXPOSURE_ABSOLUTE, AddChecked(100, HARD_MAX_CAPACITY_UNITS).value)];
    assert risks + [] == risks;
    assert RiskCandidates(p.riskBudget, 100) == Some(risks);
    assert risks[..0] == [];
    assert Least((CONFIGURED_RATIO, 200), risks) == (CONFIGURED_RATIO, 200);
    hide EffectiveRatio, RiskCandidates, Least, RiskCeiling;
  }

  /** The verdict depends on the amount alone. */
  function VerdictFor(amount: u64): Outcome
    requires amount <= 200
  {
    if amount == 200 then AtLimit else WithinPolicy
  }

  lemma DecidesBy(p: Policy, amount: u64, a: Accounting)
    requires Like(p) && amount <= 200 && Accounted(a, amount)
    ensures Decide(p, p.domains[0], ScopeOf(p, p.domains[0]), Resolved(amount).members, [], [DemandFor(amount)], a).outcome
            == VerdictFor(amount)
  {
    OneClass(p);
    var k := ScopeOf(p, p.domains[0]);
    var ds := [DemandFor(amount)];
    SumByOne(DemandWeight(k, IneligibleAll), ds[0]);
    SumByOne(DemandWeight(k, AdmittedFor(1, 1)), ds[0]);
    assert !Unbacked(k, [], ds);
    assert GuaranteeTotal(k, GuaranteedOn(1), []) == 0;
    assert !GuaranteesUncovered(k, Resolved(amount).members, []);
    assert [SAMPLE_CLASS][..0] == [];
    assert ShareFault(k, ds, 200, [SAMPLE_CLASS]).None?;
    hide ShareFault, Unbacked, GuaranteesUncovered, DemandTotal, GuaranteeTotal;
  }

  lemma AssessedFrom(p: Policy, d: DomainConfig, i: Inputs, l: Loads)
    requires !Impaired(i.members) && LoadsOf(ScopeOf(p, d), i.members, i.guarantees, i.records) == l
    requires Boundary(p, d, false, l).Some?
    ensures var a := Boundary(p, d, false, l).value;
            Assess(p, d, i) == Assessed(Decide(p, d, ScopeOf(p, d), i.members, i.guarantees, i.records, a), a)
  {
    hide LoadsOf, Decide, Boundary, Impaired;
  }

  lemma AssessedAs(p: Policy, x: Expectation, e: Evidence, amount: u64)
    requires Like(p) && Offers(e, amount) && BindingFault(p, p.domains[0], x, e).None?
    ensures Admit(p, p.domains[0], x, e, 0) == Ok(Resolved(amount))
    ensures var r := AssessEvidence(p, p.domains[0], x, e, 0);
            && r.Assessed? && Accounted(r.accounting, amount) && r == Assess(p, p.domains[0], Resolved(amount))
            && (amount <= 200 ==> r.verdict.outcome == VerdictFor(amount))
  {
    assert !Impaired(Resolved(amount).members);
    hide Admit, Assess, Boundary, ScopeOf, SamplePolicy, LoadsOf, Impaired, BindingFault, Decide, Accounted, Offers;
    Admitted(p, x, e, amount);
    LoadsAre(p, amount);
    BoundaryIs(p, amount);
    var l := Loads(100, 0, amount, 0, 0, 0);
    AssessedFrom(p, p.domains[0], Resolved(amount), l);
    if amount <= 200 {
      DecidesBy(p, amount, Boundary(p, p.domains[0], false, l).value);
    }
  }
}
