/** An evaluation whose per-resource entry hides an overage the domain has. */
module FailingEntry {
  import opened Checked
  import opened Wire
  import opened Model
  import opened Sums
  import opened PolicyRules
  import opened Engine
  import opened Sample
  import opened SampleEvaluation

  const FROM := Provenance(1, 1, 1, 1, 1, ZeroDigest())

  /** 250 units of contingent demand where the ceiling is 200. */
  const OVERFULL := Evidence(
    Some(CapacitySnapshot(1, 1, 1, 0, [HEALTHY_MEMBER], FROM)),
    Some(ReservationSnapshot(1, 1, 1, 0, [], FROM)),
    Some(AdmissionSnapshot(1, 1, 1, 0, [DemandFor(250)], FROM)))

  const EXPECTED := Expectation(1, 1, 1, 1, 1, 1, 1)

  lemma OverfullView(p: Policy)
    requires Like(p)
    ensures ResourceViews(ScopeOf(p, p.domains[0]), [], [DemandFor(250)], Ratio(2, 1), [Member(HEALTHY_MEMBER, 100)])
            == [ResourceAccounting(1, 100, 0, 0, 0, 200, 200, 200, 0, 100)]
  {
    var ms := [Member(HEALTHY_MEMBER, 100)];
    var k := ScopeOf(p, p.domains[0]);
    assert ms[..0] == [];
    SumByOne(DemandWeight(k, PendingOn(1)), DemandFor(250));
    assert GuaranteeTotal(k, GuaranteedOn(1), []) == 0;
  }

  lemma OverfullIsBound(p: Policy)
    requires p == SamplePolicy(1, 1)
    ensures Like(p) && Offers(OVERFULL, 250) && BindingFault(p, p.domains[0], EXPECTED, OVERFULL).None?
  {
    assert p == p.(hysteresis := p.hysteresis, digest := p.digest);
    assert p.domains[0] == SampleDomain(1);
  }

  /** The domain is 50 units over its ceiling of 200; the entry of its only member shows no contingent
      demand, no overage and 200 free units. */
  lemma EntryHidesOverage()
    ensures var p := SamplePolicy(1, 1);
            var d := p.domains[0];
            && ValidPolicy(p) && Admit(p, d, EXPECTED, OVERFULL, 0) == Ok(Resolved(250))
            && var r := AssessEvidence(p, d, EXPECTED, OVERFULL, 0);
            && r.Assessed? && r.accounting.effectiveRatio == Ratio(2, 1)
            && r.accounting.committedTotal == r.accounting.contingentCommitted == 250
            && r.accounting.ceilingTotal == 200 && r.accounting.overage == 50
            && ResourceViews(ScopeOf(p, d), Resolved(250).guarantees, Resolved(250).records, Ratio(2, 1), Resolved(250).members)
               == [ResourceAccounting(1, 100, 0, 0, 0, 200, 200, 200, 0, 100)]
  {
    hide Admit, ValidPolicy, AssessEvidence, ResourceViews, ScopeOf, SamplePolicy, BindingFault, Offers, Like;
    var p := SamplePolicy(1, 1);
    SampleIsValid(1, 1, 1, ZeroDigest());
    OverfullIsBound(p);
    AssessedAs(p, EXPECTED, OVERFULL, 250);
    OverfullView(p);
  }
}
