/** More demand never relaxes the outcome and never enlarges a grant. */
module DemandMonotone {
  import opened Checked
  import opened Model
  import opened Sums
  import opened PolicyRules
  import opened Engine
  import opened Conservation

  /** The same record, asking for at least as much. */
  predicate RecordHeavier(d: Demand, d': Demand) {
    d'.(committed := d.committed, pending := d.pending, generation := d.generation) == d
    && d.committed <= d'.committed && d.pending <= d'.pending
  }

  predicate Heavier(ds: seq<Demand>, ds': seq<Demand>) {
    |ds| == |ds'| && forall i :: 0 <= i < |ds| ==> RecordHeavier(ds[i], ds'[i])
  }

  lemma HeavierInit(ds: seq<Demand>, ds': seq<Demand>)
    requires Heavier(ds, ds') && ds != []
    ensures Heavier(ds[..|ds| - 1], ds'[..|ds'| - 1])
  {
  }

  lemma TotalHeavier(k: Scope, m: DemandMeasure, ds: seq<Demand>, ds': seq<Demand>)
    requires Heavier(ds, ds')
    ensures DemandTotal(k, m, ds) <= DemandTotal(k, m, ds')
  {
    SumByMono(DemandWeight(k, m), DemandWeight(k, m), ds, ds');
  }

  // ------------------------------------------------------------- the scan

  const OVERFLOWED := Verdict(Unknown, ADMISSION_SUM_OVERFLOW)

  /** The heavier scan stops at the same fault, or earlier because a total no longer fits. */
  lemma {:induction false} ScanHeavier(k: Scope, ds: seq<Demand>, ds': seq<Demand>)
    requires Heavier(ds, ds')
    ensures FirstDemandFault(k, ds') == FirstDemandFault(k, ds) || FirstDemandFault(k, ds') == Some(OVERFLOWED)
  {
    if ds != [] {
      HeavierInit(ds, ds');
      ScanHeavier(k, ds[..|ds| - 1], ds'[..|ds'| - 1]);
      RecordFaultHeavier(k, ds[..|ds| - 1], ds'[..|ds'| - 1], ds[|ds| - 1], ds'[|ds'| - 1]);
    }
  }

  lemma RecordFaultHeavier(k: Scope, before: seq<Demand>, before': seq<Demand>, d: Demand, d': Demand)
    requires Heavier(before, before') && RecordHeavier(d, d')
    ensures DemandFault(k, before', d') == DemandFault(k, before, d) || DemandFault(k, before', d') == Some(OVERFLOWED)
  {
    TotalHeavier(k, AdmittedAll, before, before');
    TotalHeavier(k, ContingentAll, before, before');
    TotalHeavier(k, PendingAll, before, before');
    assert HasAdmission(before, d.admission) <==> HasAdmission(before', d'.admission) by {
      if i :| 0 <= i < |before| && before[i].admission == d.admission {
        assert before'[i].admission == d'.admission;
      }
      if i :| 0 <= i < |before'| && before'[i].admission == d'.admission {
        assert RecordHeavier(before[i], before'[i]);
      }
    }
  }

  // --------------------------------------------------------- the boundary

  predicate LoadsHeavier(l: Loads, l': Loads) {
    && l.usable == l'.usable && l.guarantees == l'.guarantees
    && l.contingent <= l'.contingent && l.pending <= l'.pending && l.burst <= l'.burst && l.admitted <= l'.admitted
  }

  /** The legal side of the accounting is untouched and the consumed side has grown. */
  predicate AccountHeavier(a: Accounting, a': Accounting) {
    && a.effectiveUsable == a'.effectiveUsable && a.guaranteesTotal == a'.guaranteesTotal
    && a.protectedRequired == a'.protectedRequired && a.floorRequired == a'.floorRequired
    && a.ceilingTotal == a'.ceilingTotal && a.contingentCeiling == a'.contingentCeiling
    && a.committedTotal <= a'.committedTotal && a.overage <= a'.overage && a.burstCommitted <= a'.burstCommitted
    && a'.contingentFree <= a.contingentFree
  }

  lemma BoundaryHeavier(policy: Policy, domain: DomainConfig, impaired: bool, l: Loads, l': Loads)
    requires LoadsHeavier(l, l')
    ensures var b, b' := Boundary(policy, domain, impaired, l), Boundary(policy, domain, impaired, l');
            b'.Some? ==> b.Some? && AccountHeavier(b.value, b'.value)
  {
    hide EffectiveRatio, RiskCandidates, RiskCeiling, Least, MulDivFloor, MulDivFloorSat;
  }

  // -------------------------------------------------------- the cascade

  lemma UnbackedHeavier(k: Scope, gs: seq<Guarantee>, ds: seq<Demand>, ds': seq<Demand>)
    requires Heavier(ds, ds') && Unbacked(k, gs, ds)
    ensures Unbacked(k, gs, ds')
  {
    var i :| 0 <= i < |ds|
      && DemandTotal(k, AdmittedFor(ds[i].resource, ds[i].serviceClass), ds)
         > GuaranteeTotal(k, GuaranteedFor(ds[i].resource, ds[i].serviceClass), gs);
    TotalHeavier(k, AdmittedFor(ds[i].resource, ds[i].serviceClass), ds, ds');
    assert RecordHeavier(ds[i], ds'[i]);
  }

  lemma ScaledOverageMono(x: nat, y: nat, ceiling: nat)
    requires x <= y && ceiling > 0
    ensures CeilDiv(x * PPM_SCALE, ceiling) <= CeilDiv(y * PPM_SCALE, ceiling)
  {
    var p, q := CeilDiv(x * PPM_SCALE, ceiling), CeilDiv(y * PPM_SCALE, ceiling);
    if q < p {
      MulMono(q, p - 1, ceiling);
      MulMono(x, y, PPM_SCALE);
      assert false;
    }
  }

  /** A larger overage is at least as much of an emergency, also past the point where the ratio saturates. */
  lemma EmergencyHeavier(a: Accounting, a': Accounting, threshold: u64)
    requires AccountHeavier(a, a') && threshold <= PPM_SCALE
    ensures OveragePpm(a) >= threshold ==> OveragePpm(a') >= threshold
  {
    if a.ceilingTotal > 0 {
      ScaledOverageMono(a.overage, a'.overage, a.ceilingTotal);
    }
  }

  predicate BoundedShares(cs: seq<ServiceClass>) {
    forall c :: c in cs ==> c.hasShareCap ==> c.shareCapPpm <= PPM_SCALE
  }

  lemma ShareFits(ceiling: u64, ppm: u64)
    requires ppm <= PPM_SCALE
    ensures MulDivFloor(ceiling, ppm, PPM_SCALE).Some?
  {
    ScaleMono(ceiling, ceiling, Ratio(ppm, PPM_SCALE), Ratio(1, 1));
  }

  lemma HasContingentHeavier(k: Scope, ds: seq<Demand>, ds': seq<Demand>, c: u64)
    requires Heavier(ds, ds') && HasContingent(k, ds, c)
    ensures HasContingent(k, ds', c)
  {
    var i :| 0 <= i < |ds| && Counted(k, ds[i]) && ds[i].serviceClass == c;
    assert RecordHeavier(ds[i], ds'[i]);
  }

  /** With bounded caps a share fault is always a required reduction, and it persists under more demand. */
  lemma {:induction false} ShareHeavier(k: Scope, ds: seq<Demand>, ds': seq<Demand>, ceiling: u64, cs: seq<ServiceClass>)
    requires Heavier(ds, ds') && BoundedShares(cs)
    ensures var f, f' := ShareFault(k, ds, ceiling, cs), ShareFault(k, ds', ceiling, cs);
            && (f.Some? ==> f'.Some?)
            && (f.Some? ==> f.value.outcome.ReductionRequired?)
            && (f'.Some? ==> f'.value.outcome.ReductionRequired?)
  {
    if cs != [] {
      var c := cs[|cs| - 1];
      ShareHeavier(k, ds, ds', ceiling, cs[..|cs| - 1]);
      if c.hasShareCap {
        ShareFits(ceiling, c.shareCapPpm);
        TotalHeavier(k, ContingentOf(c.id), ds, ds');
        if HasContingent(k, ds, c.id) {
          HasContingentHeavier(k, ds, ds', c.id);
        }
      }
    }
  }

  lemma DecideHeavier(policy: Policy, domain: DomainConfig, k: Scope, ms: seq<Member>, gs: seq<Guarantee>,
                      ds: seq<Demand>, ds': seq<Demand>, a: Accounting, a': Accounting)
    requires Heavier(ds, ds') && AccountHeavier(a, a')
    requires policy.thresholds.emergencyOveragePpm <= PPM_SCALE && BoundedShares(k.classes)
    ensures Severity(Decide(policy, domain, k, ms, gs, ds, a).outcome)
            <= Severity(Decide(policy, domain, k, ms, gs, ds', a').outcome)
  {
    if Unbacked(k, gs, ds) {
      UnbackedHeavier(k, gs, ds, ds');
    }
    TotalHeavier(k, IneligibleAll, ds, ds');
    EmergencyHeavier(a, a', policy.thresholds.emergencyOveragePpm);
    ShareHeavier(k, ds, ds', a.contingentCeiling, k.classes);
  }

  // ----------------------------------------------------------- the theorem

  /** The same evidence except that every admission record asks for at least as much. */
  predicate EvidenceHeavier(e: Evidence, e': Evidence) {
    && e'.capacity == e.capacity && e'.reservations == e.reservations && e.admissions.Some? && e'.admissions.Some?
    && var s, s' := e.admissions.value, e'.admissions.value;
    && s'.domain == s.domain && s'.generation == s.generation && s'.epoch == s.epoch
    && s'.observedTick == s.observedTick && Heavier(s.records, s'.records)
  }

  lemma AssessHeavier(policy: Policy, domain: DomainConfig, ms: seq<Member>, gs: seq<Guarantee>,
                      ds: seq<Demand>, ds': seq<Demand>)
    requires Heavier(ds, ds')
    requires policy.thresholds.emergencyOveragePpm <= PPM_SCALE && BoundedShares(policy.serviceClasses)
    ensures var r, r' := Assess(policy, domain, Inputs(ms, gs, ds)), Assess(policy, domain, Inputs(ms, gs, ds'));
            && Severity(r.verdict.outcome) <= Severity(r'.verdict.outcome)
            && (r'.Assessed? ==> r.Assessed? && r'.accounting.contingentFree <= r.accounting.contingentFree)
  {
    var k := ScopeOf(policy, domain);
    var l, l' := LoadsOf(k, ms, gs, ds), LoadsOf(k, ms, gs, ds');
    TotalHeavier(k, ContingentAll, ds, ds');
    TotalHeavier(k, PendingAll, ds, ds');
    TotalHeavier(k, BurstAll, ds, ds');
    TotalHeavier(k, AdmittedAll, ds, ds');
    BoundaryHeavier(policy, domain, Impaired(ms), l, l');
    if Boundary(policy, domain, Impaired(ms), l').Some? {
      DecideHeavier(policy, domain, k, ms, gs, ds, ds', Boundary(policy, domain, Impaired(ms), l).value,
                    Boundary(policy, domain, Impaired(ms), l').value);
    }
  }

  lemma AdmitHeavier(policy: Policy, domain: DomainConfig, x: Expectation, e: Evidence, e': Evidence, tick: u64)
    requires EvidenceHeavier(e, e')
    ensures var r, r' := Admit(policy, domain, x, e, tick), Admit(policy, domain, x, e', tick);
            || r' == Rejected(OVERFLOWED)
            || (r.Rejected? && r' == r)
            || (r.Ok? && r' == Ok(r.value.(records := e'.admissions.value.records))
              && r.value.records == e.admissions.value.records)
  {
    ScanHeavier(ScopeOf(policy, domain), e.admissions.value.records, e'.admissions.value.records);
    hide ResolveMembers, GuaranteesFault, FirstDemandFault, FreshnessFault, DistinctResources, GenerationFault;
  }

  /** Raising admitted or pending amounts never lowers the severity and never raises the increment. */
  lemma MoreDemandNeverRelaxes(policy: Policy, domain: DomainConfig, x: Expectation, e: Evidence, e': Evidence, tick: u64)
    requires ValidPolicy(policy) && EvidenceHeavier(e, e')
    ensures var r, r' := Evaluate(policy, domain, x, e, tick), Evaluate(policy, domain, x, e', tick);
            && Severity(r.assessment.verdict.outcome) <= Severity(r'.assessment.verdict.outcome)
            && r'.increment <= r.increment
  {
    hide ValidPolicy, Admit, Assess, EvidenceHeavier;
    ValidThresholdsAndShares(policy);
    AdmitHeavier(policy, domain, x, e, e', tick);
    HeavierRecords(e, e');
    var a, a' := Admit(policy, domain, x, e, tick), Admit(policy, domain, x, e', tick);
    RejectionWithholds(policy, domain, x, e, tick);
    if a.Ok? && a'.Ok? {
      AssessHeavier(policy, domain, a.value.members, a.value.guarantees, a.value.records, a'.value.records);
    }
  }

  lemma HeavierRecords(e: Evidence, e': Evidence)
    requires EvidenceHeavier(e, e')
    ensures e.admissions.Some? && e'.admissions.Some?
    ensures Heavier(e.admissions.value.records, e'.admissions.value.records)
  {
  }

  lemma ValidThresholdsAndShares(policy: Policy)
    requires ValidPolicy(policy)
    ensures policy.thresholds.emergencyOveragePpm <= PPM_SCALE && BoundedShares(policy.serviceClasses)
  {
  }
}
