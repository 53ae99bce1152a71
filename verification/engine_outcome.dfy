/** What an evaluation finds, and when it authorizes: rules over the policy and the records. */
module Lawfulness {
  import opened Checked
  import opened Wire
  import opened Model
  import opened Sums
  import opened Sorting
  import opened PolicyRules
  import opened Engine
  import opened Conservation
  import opened OrderIndependence
  import opened Amounts
  import opened Admission

  // --------------------------------------------------------------- the ceiling

  /** The ratios that apply: configured, policy cap and, with a degraded or failed member, the degraded cap,
      or 1:1 when the domain sets none. */
  function Ratios(p: Policy, d: DomainConfig, broken: bool): seq<Ratio> {
    [d.configuredRatio, p.ratioCap]
    + (if !broken then [] else if d.hasDegradedRatioCap then [d.degradedRatioCap] else [Ratio(1, 1)])
  }

  function RiskBounds(p: Policy, u: nat): seq<nat> {
    (if p.riskBudget.hasAbsolute then [u + p.riskBudget.maxExposureUnits] else [])
    + (if p.riskBudget.hasPpm then [u * (PPM_SCALE + p.riskBudget.maxExposurePpm) / PPM_SCALE] else [])
  }

  /** Every bound the legal ceiling over `u` usable units may not exceed. */
  function CeilingsFor(p: Policy, d: DomainConfig, broken: bool, u: nat): seq<nat> {
    var rs := Ratios(p, d, broken);
    seq(|rs|, i requires 0 <= i < |rs| => Scaled(u, rs[i])) + RiskBounds(p, u)
  }

  predicate LeastOf(n: nat, s: seq<nat>) { n in s && forall m :: m in s ==> n <= m }

  /** The effective ratio is the least of those that apply. */
  lemma EffectiveRatioIsLeast(p: Policy, d: DomainConfig, broken: bool)
    requires SoundRatios(p, d)
    ensures var r := EffectiveRatio(p, d, broken).0;
            && r in Ratios(p, d, broken) && r.den != 0
            && forall s :: s in Ratios(p, d, broken) ==> s.den != 0 && RatioLe(r, s)
  {
    EffectiveRatioBounds(p, d, broken);
    var r, capped := EffectiveRatio(p, d, broken).0, EffectiveRatio(p, d, false).0;
    var degraded := if d.hasDegradedRatioCap then d.degradedRatioCap else Ratio(1, 1);
    assert broken ==> RatioLe(r, degraded);
    assert r == d.configuredRatio || r == p.ratioCap || (broken && r == degraded);
    assert RatioLe(r, d.configuredRatio) && RatioLe(r, p.ratioCap);
    hide RatioLe, RatioInBounds, EffectiveRatio;
  }

  /** Scaling by the least ratio gives the least of the scaled units. */
  lemma ScaledByLeast(p: Policy, d: DomainConfig, broken: bool, u: nat)
    requires SoundRatios(p, d)
    ensures var rs, r := Ratios(p, d, broken), EffectiveRatio(p, d, broken).0;
            LeastOf(Scaled(u, r), seq(|rs|, i requires 0 <= i < |rs| => Scaled(u, rs[i])))
  {
    var rs, r := Ratios(p, d, broken), EffectiveRatio(p, d, broken).0;
    var all := seq(|rs|, i requires 0 <= i < |rs| => Scaled(u, rs[i]));
    EffectiveRatioIsLeast(p, d, broken);
    var j :| 0 <= j < |rs| && rs[j] == r;
    assert all[j] == Scaled(u, r);
    forall i | 0 <= i < |rs| ensures Scaled(u, r) <= all[i] {
      assert rs[i] in rs;
      ScaleMono(u, u, r, rs[i]);
    }
  }

  lemma RisksAre(p: Policy, u: u64)
    requires p.riskBudget.hasPpm ==> p.riskBudget.maxExposurePpm <= HARD_MAX_EXPOSURE_PPM
    ensures RiskCandidates(p.riskBudget, u).Some? <==> forall b :: b in RiskBounds(p, u) ==> b < U64_LIMIT
    ensures var cs := RiskCandidates(p.riskBudget, u);
            cs.Some? ==> |cs.value| == |RiskBounds(p, u)|
                         && forall i :: 0 <= i < |cs.value| ==> cs.value[i].1 == RiskBounds(p, u)[i]
  {
    assert PPM_SCALE + HARD_MAX_EXPOSURE_PPM < U64_LIMIT;
    var r, bs := p.riskBudget, RiskBounds(p, u);
    var relative := u * (PPM_SCALE + r.maxExposurePpm) / PPM_SCALE;
    assert r.hasPpm ==> PpmCeiling(r, u) == MulDivFloor(u, PPM_SCALE + r.maxExposurePpm, PPM_SCALE);
    assert bs == (if r.hasAbsolute then [u + r.maxExposureUnits] else []) + (if r.hasPpm then [relative] else []);
    assert r.hasAbsolute ==> bs[0] == u + r.maxExposureUnits && bs[0] in bs;
    assert r.hasPpm ==> bs[|bs| - 1] == relative && bs[|bs| - 1] in bs;
    assert forall b :: b in bs ==> (r.hasAbsolute && b == u + r.maxExposureUnits) || (r.hasPpm && b == relative);
    hide PpmCeiling, RiskBounds;
  }

  /** The least of the candidates is the least of their values. */
  lemma LeastIsLeast(first: (Constraint, u64), cs: seq<(Constraint, u64)>, firsts: seq<nat>, bounds: seq<nat>)
    requires LeastOf(first.1, firsts) && |cs| == |bounds| && forall i :: 0 <= i < |cs| ==> cs[i].1 == bounds[i]
    ensures LeastOf(Least(first, cs).1, firsts + bounds)
  {
    var l := Least(first, cs);
    if l != first {
      var i :| 0 <= i < |cs| && cs[i] == l;
      assert bounds[i] in firsts + bounds;
    }
    forall m | m in firsts + bounds ensures l.1 <= m {
      if m in bounds {
        var i :| 0 <= i < |bounds| && bounds[i] == m;
        assert cs[i] in cs;
      }
    }
    hide Least;
  }

  // ---------------------------------------------------------- when it closes

  /** The domain's amounts: what it has, what is promised and used, and its legal ceiling. */
  datatype Balance = Balance(
    usable: nat, guaranteed: nat, contingent: nat, pending: nat, burst: nat, admitted: nat, ceiling: nat)

  /** `b` is the balance of the domain under the policy and the evidence. */
  predicate Balances(p: Policy, d: DomainConfig, e: Evidence, b: Balance)
    requires Present(e)
  {
    var rs, gs, ds := e.capacity.value.resources, e.reservations.value.guarantees, e.admissions.value.records;
    && b.usable == SumBy(UnitsAt(rs), d.members) && b.guaranteed == GuaranteedUnits(d, gs)
    && b.contingent == ContingentUnits(p, d, ds) && b.pending == PendingUnits(p, d, ds)
    && b.burst == BurstUnits(p, d, ds) && b.admitted == AdmittedUnits(d, ds)
    && LeastOf(b.ceiling, CeilingsFor(p, d, SomeBroken(d, rs), b.usable))
  }

  /** Every sum and every bound that has to fit 64 bits does. */
  predicate Closes(p: Policy, d: DomainConfig, e: Evidence)
    requires Present(e)
  {
    var rs, gs, ds := e.capacity.value.resources, e.reservations.value.guarantees, e.admissions.value.records;
    var u, g := SumBy(UnitsAt(rs), d.members), GuaranteedUnits(d, gs);
    && u < U64_LIMIT && g + ContingentUnits(p, d, ds) < U64_LIMIT
    && g + d.emergencyReserve + d.minProtectedHeadroom < U64_LIMIT
    && (exists r :: r in Ratios(p, d, SomeBroken(d, rs)) && Scaled(u, r) < U64_LIMIT)
    && forall b :: b in RiskBounds(p, u) ==> b < U64_LIMIT
  }

  function LoadsFor(p: Policy, d: DomainConfig, e: Evidence): Loads
    requires Present(e)
  {
    var rs, gs, ds := e.capacity.value.resources, e.reservations.value.guarantees, e.admissions.value.records;
    Loads(SumBy(UnitsAt(rs), d.members), GuaranteedUnits(d, gs), ContingentUnits(p, d, ds), PendingUnits(p, d, ds),
          BurstUnits(p, d, ds), AdmittedUnits(d, ds))
  }

  lemma LoadsAre(p: Policy, d: DomainConfig, e: Evidence, i: Inputs)
    requires Present(e) && DistinctBy(ClassKey(), p.serviceClasses)
    requires i.guarantees == e.reservations.value.guarantees && i.records == e.admissions.value.records
    requires ResolvedTo(e.capacity.value.resources, SortedMembers(d), i.members)
    ensures LoadsOf(ScopeOf(p, d), i.members, i.guarantees, i.records) == LoadsFor(p, d, e)
    ensures Impaired(i.members) == SomeBroken(d, e.capacity.value.resources)
  {
    var rs := e.capacity.value.resources;
    MemberTotals(d, rs, i.members);
    ImpairedIs(d, rs, i.members);
    GuaranteedIs(p, d, i.guarantees);
    AdmittedIs(p, d, i.records);
    ContingentIs(p, d, i.records);
    hide SumBy, GuaranteeTotal, DemandTotal, GuaranteedUnits, AdmittedUnits, ContingentUnits, PendingUnits, BurstUnits,
      ResolvedTo, Impaired, SomeBroken, DistinctBy, SortedMembers;
  }

  lemma BurstPart(p: Policy, d: DomainConfig, ds: seq<Demand>)
    ensures BurstUnits(p, d, ds) <= ContingentUnits(p, d, ds)
  {
    SumByMono((x: Demand) => if Contends(p, d, x) && x.kind == Burst then x.committed else 0,
              (x: Demand) => if Contends(p, d, x) then x.committed else 0, ds, ds);
  }

  lemma SomeRatioFits(p: Policy, d: DomainConfig, broken: bool, u: nat)
    requires SoundRatios(p, d)
    ensures (exists r :: r in Ratios(p, d, broken) && Scaled(u, r) < U64_LIMIT)
            <==> Scaled(u, EffectiveRatio(p, d, broken).0) < U64_LIMIT
  {
    EffectiveRatioIsLeast(p, d, broken);
    var least := EffectiveRatio(p, d, broken).0;
    forall r | r in Ratios(p, d, broken) ensures Scaled(u, least) <= Scaled(u, r) {
      ScaleMono(u, u, least, r);
    }
    hide Ratios, EffectiveRatio, Scaled;
  }

  /** The boundary closes exactly when everything fits, and its ceiling is the least of its bounds. */
  lemma BoundaryIs(p: Policy, d: DomainConfig, broken: bool, l: Loads)
    requires SoundRatios(p, d) && l.burst <= l.contingent && l.pending < U64_LIMIT && l.admitted < U64_LIMIT
    ensures Boundary(p, d, broken, l).Some?
            <==> && l.usable < U64_LIMIT && l.guarantees + l.contingent < U64_LIMIT
                 && l.guarantees + d.emergencyReserve + d.minProtectedHeadroom < U64_LIMIT
                 && (exists r :: r in Ratios(p, d, broken) && Scaled(l.usable, r) < U64_LIMIT)
                 && forall b :: b in RiskBounds(p, l.usable) ==> b < U64_LIMIT
    ensures Boundary(p, d, broken, l).Some? ==>
              LeastOf(Boundary(p, d, broken, l).value.ceilingTotal, CeilingsFor(p, d, broken, l.usable))
  {
    if l.usable < U64_LIMIT {
      var u: u64 := l.usable;
      var r := EffectiveRatio(p, d, broken).0;
      SomeRatioFits(p, d, broken, u);
      EffectiveRatioIsLeast(p, d, broken);
      ScaledByLeast(p, d, broken, u);
      RisksAre(p, u);
      if Boundary(p, d, broken, l).Some? {
        CeilingIsLeast(p, d, broken, l);
      }
    }
    hide EffectiveRatio, RiskCandidates, Least, RiskCeiling, Account, Ratios, RiskBounds, CeilingsFor, LeastOf,
      SoundRatios;
  }

  lemma CeilingIsLeast(p: Policy, d: DomainConfig, broken: bool, l: Loads)
    requires SoundRatios(p, d) && Boundary(p, d, broken, l).Some?
    ensures LeastOf(Boundary(p, d, broken, l).value.ceilingTotal, CeilingsFor(p, d, broken, l.usable))
  {
    var u: u64 := l.usable;
    var ratio := EffectiveRatio(p, d, broken);
    var rs := Ratios(p, d, broken);
    var risks := RiskCandidates(p.riskBudget, u).value;
    ScaledByLeast(p, d, broken, u);
    EffectiveRatioIsLeast(p, d, broken);
    RisksAre(p, u);
    LeastIsLeast((ratio.1, MulDivFloor(u, ratio.0.num, ratio.0.den).value), risks,
                 seq(|rs|, i requires 0 <= i < |rs| => Scaled(u, rs[i])), RiskBounds(p, u));
    var least := Least((ratio.1, MulDivFloor(u, ratio.0.num, ratio.0.den).value), risks);
    if u == 0 {
      NothingToScale(p, d, broken);
    }
    hide EffectiveRatio, RiskCandidates, Least, RiskCeiling, Ratios, RiskBounds, LeastOf, SoundRatios;
  }

  /** Without usable units the first ratio alone brings the ceiling to 0. */
  lemma NothingToScale(p: Policy, d: DomainConfig, broken: bool)
    ensures 0 in CeilingsFor(p, d, broken, 0) && LeastOf(0, CeilingsFor(p, d, broken, 0))
  {
    assert CeilingsFor(p, d, broken, 0)[0] == Scaled(0, d.configuredRatio) == 0;
  }

  // ------------------------------------------------------------------ rules

  /** Guaranteed admissions are covered by reservations on every member for every class. */
  predicate Backed(d: DomainConfig, gs: seq<Guarantee>, ds: seq<Demand>) {
    forall r: u64, c: u64 :: r in d.members ==> AdmittedForUnits(ds, r, c) <= GuaranteedForUnits(gs, r, c)
  }

  /** No ineligible class holds or awaits oversubscribed units. */
  predicate OnlyEligible(p: Policy, d: DomainConfig, ds: seq<Demand>) {
    forall x :: x in ds && Oversubscribes(d, x) && x.committed + x.pending > 0 ==> EligibleClass(p, x.serviceClass)
  }

  /** Usable units cover the guarantees, on each member and with the emergency reserve in all. */
  predicate Covered(d: DomainConfig, rs: seq<ResourceCapacity>, gs: seq<Guarantee>, b: Balance) {
    && (forall r: u64 :: r in d.members ==> GuaranteedOnUnits(gs, r) <= UnitsAt(rs)(r))
    && b.guaranteed + d.emergencyReserve <= b.usable
  }

  predicate FloorHeld(d: DomainConfig, b: Balance) {
    b.guaranteed + d.emergencyReserve + d.minProtectedHeadroom <= b.usable
  }

  predicate CeilingHeld(b: Balance) { b.guaranteed + b.contingent <= b.ceiling }

  /** The overage in parts per million of the ceiling, rounded up, is at the emergency threshold. */
  predicate Severe(p: Policy, b: Balance) {
    (b.guaranteed + b.contingent - b.ceiling) * PPM_SCALE > (p.thresholds.emergencyOveragePpm - 1) * b.ceiling
  }

  /** What the ceiling leaves for contingent units. */
  function Left(d: DomainConfig, b: Balance): nat {
    if b.ceiling <= b.guaranteed + d.emergencyReserve then 0 else b.ceiling - b.guaranteed - d.emergencyReserve
  }

  predicate BurstHeld(d: DomainConfig, b: Balance) { d.burstPoolEnabled ==> b.burst <= d.burstPoolCap }

  predicate ShareHeld(p: Policy, d: DomainConfig, ds: seq<Demand>, b: Balance, c: ServiceClass) {
    c.hasShareCap ==> ClassUnits(p, d, ds, c.id) <= Left(d, b) * c.shareCapPpm / PPM_SCALE
  }

  predicate SharesHeld(p: Policy, d: DomainConfig, ds: seq<Demand>, b: Balance) {
    forall c :: c in p.serviceClasses ==> ShareHeld(p, d, ds, b, c)
  }

  /** The share of that which is used, in parts per million; all of it when nothing is left for what is used. */
  function UsedShare(d: DomainConfig, b: Balance): nat {
    if Left(d, b) == 0 then (if b.contingent == 0 then 0 else PPM_SCALE) else b.contingent * PPM_SCALE / Left(d, b)
  }

  predicate RoomLeft(d: DomainConfig, b: Balance) { b.contingent < Left(d, b) }

  // ------------------------------------------------- the cascade's questions

  lemma {:induction false} SomePart<T>(w: T -> nat, s: seq<T>) returns (i: nat)
    requires SumBy(w, s) > 0
    ensures i < |s| && w(s[i]) > 0
  {
    if s == [] {
      assert false;
    } else if w(s[|s| - 1]) > 0 {
      i := |s| - 1;
    } else {
      i := SomePart(w, s[..|s| - 1]);
    }
  }

  lemma NotOnDomain(p: Policy, d: DomainConfig, ds: seq<Demand>, r: u64, c: u64)
    requires r !in d.members
    ensures DemandTotal(ScopeOf(p, d), AdmittedFor(r, c), ds) == 0
  {
    SumByZero(DemandWeight(ScopeOf(p, d), AdmittedFor(r, c)), ds);
  }

  lemma UnbackedIs(p: Policy, d: DomainConfig, gs: seq<Guarantee>, ds: seq<Demand>)
    ensures Unbacked(ScopeOf(p, d), gs, ds) <==> !Backed(d, gs, ds)
  {
    var k := ScopeOf(p, d);
    forall r: u64, c: u64
      ensures r in d.members ==>
                && DemandTotal(k, AdmittedFor(r, c), ds) == AdmittedForUnits(ds, r, c)
                && GuaranteeTotal(k, GuaranteedFor(r, c), gs) == GuaranteedForUnits(gs, r, c)
      ensures r !in d.members ==> DemandTotal(k, AdmittedFor(r, c), ds) == 0
    {
      if r in d.members {
        AdmittedForIs(p, d, ds, r, c);
        GuaranteedForIs(p, d, gs, r, c);
      } else {
        NotOnDomain(p, d, ds, r, c);
      }
    }
    if !Backed(d, gs, ds) {
      var r: u64, c: u64 :| r in d.members && AdmittedForUnits(ds, r, c) > GuaranteedForUnits(gs, r, c);
      var i := SomePart((x: Demand) =>
        if x.kind == Guaranteed && x.resource == r && x.serviceClass == c then x.committed else 0, ds);
      assert ds[i].resource == r && ds[i].serviceClass == c;
    }
    hide DemandTotal, GuaranteeTotal, AdmittedForUnits, GuaranteedForUnits;
  }

  lemma IneligibleIs(p: Policy, d: DomainConfig, ds: seq<Demand>)
    requires DistinctBy(ClassKey(), p.serviceClasses)
    ensures DemandTotal(ScopeOf(p, d), IneligibleAll, ds) > 0 <==> !OnlyEligible(p, d, ds)
  {
    var k := ScopeOf(p, d);
    var w := DemandWeight(k, IneligibleAll);
    forall x: Demand
      ensures w(x) > 0 <==> Oversubscribes(d, x) && x.committed + x.pending > 0 && !EligibleClass(p, x.serviceClass)
    {
      EligibleIs(p, d, x.serviceClass);
    }
    hide Eligible, EligibleClass, Oversubscribes, DistinctBy, DemandWeight;
    if DemandTotal(k, IneligibleAll, ds) > 0 {
      var i := SomePart(w, ds);
      assert ds[i] in ds;
    }
    if !OnlyEligible(p, d, ds) {
      var x :| x in ds && Oversubscribes(d, x) && x.committed + x.pending > 0 && !EligibleClass(p, x.serviceClass);
      var i :| 0 <= i < |ds| && ds[i] == x;
      SumByMember(w, ds, i);
    }
  }

  lemma UncoveredIs(p: Policy, d: DomainConfig, rs: seq<ResourceCapacity>, gs: seq<Guarantee>, ms: seq<Member>)
    requires ResolvedTo(rs, SortedMembers(d), ms)
    ensures GuaranteesUncovered(ScopeOf(p, d), ms, gs)
            <==> exists r: u64 :: r in d.members && GuaranteedOnUnits(gs, r) > UnitsAt(rs)(r)
  {
    var k, ids := ScopeOf(p, d), SortedMembers(d);
    SameMembers(ids, d.members);
    FoundIds(rs, ids, ms);
    forall r: u64 | r in d.members ensures GuaranteeTotal(k, GuaranteedOn(r), gs) == GuaranteedOnUnits(gs, r) {
      GuaranteedOnIs(p, d, gs, r);
    }
    hide GuaranteeTotal, GuaranteedOnUnits, SortedMembers, FindResource, HealthyUnits;
    if r: u64 :| r in d.members && GuaranteedOnUnits(gs, r) > UnitsAt(rs)(r) {
      var j :| 0 <= j < |ids| && ids[j] == r;
      assert ms[j].capacity.resource == r && ms[j].effective == UnitsAt(rs)(r);
    }
    if GuaranteesUncovered(k, ms, gs) {
      var j :| 0 <= j < |ms| && GuaranteeTotal(k, GuaranteedOn(ms[j].capacity.resource), gs) > ms[j].effective;
      assert ids[j] in d.members && ms[j].effective == UnitsAt(rs)(ids[j]);
    }
  }

  lemma FoundIds(rs: seq<ResourceCapacity>, ids: seq<u64>, ms: seq<Member>)
    requires ResolvedTo(rs, ids, ms)
    ensures forall j :: 0 <= j < |ms| ==> ms[j].capacity.resource == ids[j]
  {
  }

  lemma ShareIs(p: Policy, d: DomainConfig, ds: seq<Demand>, b: Balance, left: u64, c: ServiceClass)
    requires DistinctBy(ClassKey(), p.serviceClasses) && ValidClass(c) && left == Left(d, b)
    ensures ClassShareFault(ScopeOf(p, d), ds, left, c)
            == if ShareHeld(p, d, ds, b, c) then None else Some(Verdict(ReductionRequired, SERVICE_CLASS_SHARE_EXCEEDED))
  {
    var k := ScopeOf(p, d);
    ClassIs(p, d, ds, c.id);
    if !HasContingent(k, ds, c.id) {
      SumByZero(DemandWeight(k, ContingentOf(c.id)), ds);
    }
    if c.hasShareCap {
      ScaleMono(left, left, Ratio(c.shareCapPpm, PPM_SCALE), Ratio(1, 1));
    }
    hide DemandTotal, ClassUnits, HasContingent, DistinctBy, Left;
  }

  lemma {:induction false} SharesAre(p: Policy, d: DomainConfig, ds: seq<Demand>, b: Balance, left: u64,
                                     cs: seq<ServiceClass>)
    requires DistinctBy(ClassKey(), p.serviceClasses) && left == Left(d, b) && forall c :: c in cs ==> ValidClass(c)
    ensures ShareFault(ScopeOf(p, d), ds, left, cs)
            == if forall c :: c in cs ==> ShareHeld(p, d, ds, b, c) then None
               else Some(Verdict(ReductionRequired, SERVICE_CLASS_SHARE_EXCEEDED))
  {
    if cs != [] {
      var init, last := cs[..|cs| - 1], cs[|cs| - 1];
      assert last in cs && forall c :: c in cs <==> c in init || c == last;
      SharesAre(p, d, ds, b, left, init);
      ShareIs(p, d, ds, b, left, last);
      hide ShareHeld, ClassShareFault, ValidClass, DistinctBy, Left;
    }
  }

  /** Rounding up reaches the threshold exactly when one less is exceeded. */
  lemma SevereIs(p: Policy, a: Accounting, b: Balance)
    requires ValidThresholds(p.thresholds) && a.overage == b.guaranteed + b.contingent - b.ceiling > 0
    requires a.ceilingTotal == b.ceiling
    ensures OveragePpm(a) >= p.thresholds.emergencyOveragePpm <==> Severe(p, b)
  {
    var t, over, ceiling := p.thresholds.emergencyOveragePpm, a.overage, a.ceilingTotal;
    if ceiling != 0 {
      var q := CeilDiv(over * PPM_SCALE, ceiling);
      if q >= t {
        MulMono(t - 1, q - 1, ceiling);
      } else {
        MulMono(q, t - 1, ceiling);
      }
    } else {
      assert (t - 1) * b.ceiling == 0;
    }
  }

  // ---------------------------------------------------------------- outcomes

  /** The assessed amounts are the balance of the domain. */
  predicate Shows(d: DomainConfig, b: Balance, a: Accounting) {
    && a.effectiveUsable == b.usable && a.guaranteesTotal == b.guaranteed && a.contingentCommitted == b.contingent
    && a.contingentPending == b.pending && a.burstCommitted == b.burst && a.guaranteedAdmitted == b.admitted
    && a.emergencyReserve == d.emergencyReserve && a.protectedRequired == b.guaranteed + d.emergencyReserve
    && a.floorRequired == b.guaranteed + d.emergencyReserve + d.minProtectedHeadroom
    && a.ceilingTotal == b.ceiling && a.contingentCeiling == Left(d, b)
    && a.committedTotal == b.guaranteed + b.contingent
    && a.contingentFree == (if RoomLeft(d, b) then Left(d, b) - b.contingent else 0)
    && a.overage == (if CeilingHeld(b) then 0 else b.guaranteed + b.contingent - b.ceiling)
    && a.usedPpmOfCeiling == Saturated(UsedShare(d, b))
  }

  /** There is one balance only. */
  lemma OneBalance(p: Policy, d: DomainConfig, e: Evidence, b: Balance, c: Balance)
    requires Present(e) && Balances(p, d, e, b) && Balances(p, d, e, c)
    ensures b == c
  {
    hide SumBy, GuaranteedUnits, AdmittedUnits, ContingentUnits, PendingUnits, BurstUnits, CeilingsFor, SomeBroken;
  }

  function Assessing(p: Policy, d: DomainConfig, e: Evidence): Option<Accounting>
    requires Present(e)
  {
    Boundary(p, d, SomeBroken(d, e.capacity.value.resources), LoadsFor(p, d, e))
  }

  lemma AssessedAs(p: Policy, d: DomainConfig, e: Evidence, i: Inputs)
    requires Present(e) && DistinctBy(ClassKey(), p.serviceClasses)
    requires i.guarantees == e.reservations.value.guarantees && i.records == e.admissions.value.records
    requires ResolvedTo(e.capacity.value.resources, SortedMembers(d), i.members)
    ensures Assess(p, d, i)
            == match Assessing(p, d, e)
               case None => Withheld(Verdict(Unknown, ARITHMETIC_OVERFLOW))
               case Some(a) => Assessed(Decide(p, d, ScopeOf(p, d), i.members, i.guarantees, i.records, a), a)
  {
    LoadsAre(p, d, e, i);
    hide Boundary, LoadsOf, LoadsFor, Impaired, SomeBroken, Decide, ResolvedTo, SortedMembers, DistinctBy;
  }

  lemma AssessingIs(p: Policy, d: DomainConfig, e: Evidence)
    requires Present(e) && SoundRatios(p, d)
    requires SoundRecords(p, d, e.reservations.value.guarantees, e.admissions.value.records)
    ensures Assessing(p, d, e).Some? <==> Closes(p, d, e)
    ensures Assessing(p, d, e).Some? ==> exists b :: Balances(p, d, e, b) && Shows(d, b, Assessing(p, d, e).value)
  {
    var l, broken := LoadsFor(p, d, e), SomeBroken(d, e.capacity.value.resources);
    BurstPart(p, d, e.admissions.value.records);
    BoundaryIs(p, d, broken, l);
    if Boundary(p, d, broken, l).Some? {
      var a := Boundary(p, d, broken, l).value;
      var b := Balance(l.usable, l.guarantees, l.contingent, l.pending, l.burst, l.admitted, a.ceilingTotal);
      assert Balances(p, d, e, b);
      AccountShows(p, d, broken, l);
    }
    hide Boundary, Shows, SumBy, GuaranteedUnits, AdmittedUnits, ContingentUnits, PendingUnits, BurstUnits, CeilingsFor,
      LeastOf, Ratios, RiskBounds, SoundRatios, SomeBroken, DistinctBy, SoundGuarantee, SoundDemand;
  }

  /** Evidence is assessed exactly when it is admissible and the arithmetic closes, and what is assessed is
      the balance of the domain. */
  lemma AssessedIff(p: Policy, d: DomainConfig, x: Expectation, e: Evidence, tick: u64)
    requires ValidPolicy(p) && d in p.domains
    ensures AssessEvidence(p, d, x, e, tick).Assessed? <==> Admissible(p, d, x, e, tick) && Closes(p, d, e)
    ensures AssessEvidence(p, d, x, e, tick).Assessed? ==>
              exists b :: Balances(p, d, e, b) && Shows(d, b, AssessEvidence(p, d, x, e, tick).accounting)
  {
    PolicyFacts(p);
    ValidPolicyIsSound(p, d);
    AdmittedIff(p, d, x, e, tick);
    hide ValidPolicy, SoundRatios, Admit, Assess, Balances, Shows, Closes, Expected, AllTimely, WithinBounds,
      MemberKnown, SoundRecords, CapacityWithin, ResolvedTo, SortedMembers, DistinctBy, Assessing;
    if Admissible(p, d, x, e, tick) {
      ExpectedIsPresent(p, d, x, e);
      AssessedAs(p, d, e, Admit(p, d, x, e, tick).value);
      AssessingIs(p, d, e);
    }
  }

  lemma ExpectedIsPresent(p: Policy, d: DomainConfig, x: Expectation, e: Evidence)
    requires Expected(p, d, x, e)
    ensures Present(e)
  {
  }

  lemma AccountShows(p: Policy, d: DomainConfig, broken: bool, l: Loads)
    requires Boundary(p, d, broken, l).Some?
    ensures var a := Boundary(p, d, broken, l).value;
            Shows(d, Balance(l.usable, l.guarantees, l.contingent, l.pending, l.burst, l.admitted, a.ceilingTotal), a)
  {
    hide EffectiveRatio, RiskCandidates, Least, RiskCeiling, MulDivFloor;
  }

  /** The records stand on their own: promises are backed, eligible, covered and leave the floor. */
  predicate Protected(p: Policy, d: DomainConfig, e: Evidence, b: Balance)
    requires Present(e)
  {
    var rs, gs, ds := e.capacity.value.resources, e.reservations.value.guarantees, e.admissions.value.records;
    Backed(d, gs, ds) && OnlyEligible(p, d, ds) && Covered(d, rs, gs, b) && FloorHeld(d, b)
  }

  /** Every rule that oversubscription is subject to is kept. */
  predicate Lawful(p: Policy, d: DomainConfig, e: Evidence, b: Balance)
    requires Present(e)
  {
    Protected(p, d, e, b) && CeilingHeld(b) && BurstHeld(d, b) && SharesHeld(p, d, e.admissions.value.records, b)
  }

  /** What each broken rule, and each way of keeping all of them, is found to be. */
  predicate FoundAs(p: Policy, d: DomainConfig, e: Evidence, b: Balance, v: Verdict)
    requires Present(e)
  {
    var rs, gs, ds := e.capacity.value.resources, e.reservations.value.guarantees, e.admissions.value.records;
    var honest := Backed(d, gs, ds) && OnlyEligible(p, d, ds);
    var kept, some := Protected(p, d, e, b), b.usable > 0;
    && (v == Verdict(ConflictingInput, ADMISSION_KIND_CONFLICT) <==> !Backed(d, gs, ds))
    && (v == Verdict(PolicyRejected, POLICY_SERVICE_CLASS_INELIGIBLE_DEMAND)
        <==> Backed(d, gs, ds) && !OnlyEligible(p, d, ds))
    && (v == Verdict(EmergencyReduction, GUARANTEE_SUM_EXCEEDS_USABLE) <==> honest && !Covered(d, rs, gs, b))
    && (v == Verdict(PolicyRejected, GUARANTEE_FLOOR_EXCEEDS_CEILING)
        <==> honest && Covered(d, rs, gs, b) && !FloorHeld(d, b))
    && (v == Verdict(EmergencyReduction, ADMISSION_NO_CONTINGENT_CEILING) <==> kept && !some && b.contingent > 0)
    && (v == Verdict(AtLimit, RESOURCE_FAILED) <==> kept && !some && b.contingent == 0)
    && (v == Verdict(EmergencyReduction, ADMISSION_EXCEEDS_CONTINGENT_CEILING)
        <==> kept && some && !CeilingHeld(b) && Severe(p, b))
    && (v == Verdict(ReductionRequired, ADMISSION_EXCEEDS_CONTINGENT_CEILING)
        <==> kept && some && !CeilingHeld(b) && !Severe(p, b))
    && (v == Verdict(ReductionRequired, BURST_POOL_EXCEEDED) <==> kept && some && CeilingHeld(b) && !BurstHeld(d, b))
    && (v == Verdict(ReductionRequired, SERVICE_CLASS_SHARE_EXCEEDED)
        <==> kept && some && CeilingHeld(b) && BurstHeld(d, b) && !SharesHeld(p, d, ds, b))
    && (v == Verdict(AtLimit, NO_REASON) <==> Lawful(p, d, e, b) && some && !RoomLeft(d, b))
    && (v.outcome.WithinPolicy? <==> Lawful(p, d, e, b) && some && RoomLeft(d, b))
    && (v.outcome.WithinPolicy? ==> v.reason == NO_REASON)
  }

  /** The answers to the cascade's questions. */
  datatype Answers = Answers(
    backed: bool, eligible: bool, covered: bool, floor: bool, some: bool, used: bool, within: bool, severe: bool,
    burst: bool, shares: bool, room: bool)

  function AnswersOf(p: Policy, d: DomainConfig, e: Evidence, b: Balance): Answers
    requires Present(e)
  {
    var rs, gs, ds := e.capacity.value.resources, e.reservations.value.guarantees, e.admissions.value.records;
    Answers(Backed(d, gs, ds), OnlyEligible(p, d, ds), Covered(d, rs, gs, b), FloorHeld(d, b), b.usable > 0,
            b.contingent > 0,
            CeilingHeld(b), Severe(p, b), BurstHeld(d, b), SharesHeld(p, d, ds, b), RoomLeft(d, b))
  }

  /** The first question answered with no decides. */
  function Answered(q: Answers): Verdict {
    if !q.backed then Verdict(ConflictingInput, ADMISSION_KIND_CONFLICT)
    else if !q.eligible then Verdict(PolicyRejected, POLICY_SERVICE_CLASS_INELIGIBLE_DEMAND)
    else if !q.covered then Verdict(EmergencyReduction, GUARANTEE_SUM_EXCEEDS_USABLE)
    else if !q.floor then Verdict(PolicyRejected, GUARANTEE_FLOOR_EXCEEDS_CEILING)
    else if !q.some then
      if q.used then Verdict(EmergencyReduction, ADMISSION_NO_CONTINGENT_CEILING) else Verdict(AtLimit, RESOURCE_FAILED)
    else if !q.within then
      Verdict(if q.severe then EmergencyReduction else ReductionRequired, ADMISSION_EXCEEDS_CONTINGENT_CEILING)
    else if !q.burst then Verdict(ReductionRequired, BURST_POOL_EXCEEDED)
    else if !q.shares then Verdict(ReductionRequired, SERVICE_CLASS_SHARE_EXCEEDED)
    else Verdict(if q.room then WithinPolicy else AtLimit, NO_REASON)
  }

  lemma AnswersFound(p: Policy, d: DomainConfig, e: Evidence, b: Balance)
    requires Present(e)
    ensures FoundAs(p, d, e, b, Answered(AnswersOf(p, d, e, b)))
  {
    hide Backed, OnlyEligible, Covered, FloorHeld, CeilingHeld, Severe, BurstHeld, SharesHeld, RoomLeft;
  }

  /** The cascade over the balance. */
  lemma DecidedAs(p: Policy, d: DomainConfig, e: Evidence, i: Inputs, a: Accounting, b: Balance)
    requires ValidPolicy(p) && Present(e) && Shows(d, b, a)
    requires i.guarantees == e.reservations.value.guarantees && i.records == e.admissions.value.records
    requires ResolvedTo(e.capacity.value.resources, SortedMembers(d), i.members)
    requires a.floorRequired <= a.effectiveUsable ==> a.floorRequired <= a.ceilingTotal
    ensures Decide(p, d, ScopeOf(p, d), i.members, i.guarantees, i.records, a) == Answered(AnswersOf(p, d, e, b))
  {
    var rs, gs, ds := e.capacity.value.resources, i.guarantees, i.records;
    PolicyFacts(p);
    ClassesAndThresholds(p);
    UnbackedIs(p, d, gs, ds);
    IneligibleIs(p, d, ds);
    UncoveredIs(p, d, rs, gs, i.members);
    SharesAre(p, d, ds, b, a.contingentCeiling, p.serviceClasses);
    if a.overage > 0 {
      SevereIs(p, a, b);
    }
    hide ValidPolicy, Unbacked, Backed, DemandTotal, OnlyEligible, GuaranteesUncovered, ResolvedTo, SortedMembers,
      ShareFault, ShareHeld, DistinctBy, ValidClass, ValidThresholds, OveragePpm, Severe, GuaranteedOnUnits, UnitsAt;
  }

  lemma ClassesAndThresholds(p: Policy)
    requires ValidPolicy(p)
    ensures (forall c :: c in p.serviceClasses ==> ValidClass(c)) && ValidThresholds(p.thresholds)
  {
  }

  /** The verdict over evidence that is assessed says which rule is broken, or that all are kept and whether
      there is room left. */
  lemma VerdictNamesTheRule(p: Policy, d: DomainConfig, x: Expectation, e: Evidence, tick: u64, b: Balance)
    requires ValidPolicy(p) && d in p.domains
    requires Admissible(p, d, x, e, tick) && Closes(p, d, e) && Balances(p, d, e, b)
    ensures FoundAs(p, d, e, b, AssessEvidence(p, d, x, e, tick).verdict)
  {
    AssessedIff(p, d, x, e, tick);
    var c :| Balances(p, d, e, c) && Shows(d, c, AssessEvidence(p, d, x, e, tick).accounting);
    OneBalance(p, d, e, b, c);
    AdmittedIff(p, d, x, e, tick);
    DeadExits(p, d, x, e, tick);
    var i := Admit(p, d, x, e, tick).value;
    hide *;
    AssessedInputs(p, d, x, e, tick);
    DecidedAs(p, d, e, i, AssessEvidence(p, d, x, e, tick).accounting, b);
    AnswersFound(p, d, e, b);
  }

  lemma AssessedInputs(p: Policy, d: DomainConfig, x: Expectation, e: Evidence, tick: u64)
    requires AssessEvidence(p, d, x, e, tick).Assessed?
    ensures var a, r := AssessEvidence(p, d, x, e, tick), Admit(p, d, x, e, tick);
            && r.Ok? && Present(e)
            && a.verdict == Decide(p, d, ScopeOf(p, d), r.value.members, r.value.guarantees, r.value.records, a.accounting)
  {
    hide Admit, Boundary, Decide, LoadsOf;
    AdmittedIsPresent(p, d, x, e, tick);
  }

  lemma AdmittedIsPresent(p: Policy, d: DomainConfig, x: Expectation, e: Evidence, tick: u64)
    requires Admit(p, d, x, e, tick).Ok?
    ensures Present(e)
  {
    hide ResolveMembers, FreshnessFault, BoundsFault, GuaranteesFault, FirstDemandFault;
  }

  /** An evaluation is authorized exactly when its evidence is admissible, the arithmetic closes, every rule
      is kept and there is room left under the ceiling; it grants all of that room, or else nothing. */
  lemma AuthorizedIff(p: Policy, d: DomainConfig, x: Expectation, e: Evidence, tick: u64)
    requires ValidPolicy(p) && d in p.domains
    ensures var r := Evaluate(p, d, x, e, tick);
            && (r.authorized <==> && Admissible(p, d, x, e, tick) && Closes(p, d, e)
                                  && exists b :: Balances(p, d, e, b) && Lawful(p, d, e, b) && RoomLeft(d, b))
            && (r.authorized ==> forall b :: Balances(p, d, e, b) ==>
                  r.increment == b.ceiling - b.guaranteed - d.emergencyReserve - b.contingent)
            && (!r.authorized ==> r.increment == 0)
  {
    AssessedIff(p, d, x, e, tick);
    Finalized(p, d, x, e, tick);
    if AssessEvidence(p, d, x, e, tick).Assessed? {
      var b :| Balances(p, d, e, b) && Shows(d, b, AssessEvidence(p, d, x, e, tick).accounting);
      hide *;
      VerdictNamesTheRule(p, d, x, e, tick, b);
      AuthorizedAs(p, d, e, b, AssessEvidence(p, d, x, e, tick));
      forall c | Balances(p, d, e, c) ensures c == b { OneBalance(p, d, e, b, c); }
    } else {
      WithheldIsNotWithin(p, d, x, e, tick);
      hide *;
    }
  }

  lemma Finalized(p: Policy, d: DomainConfig, x: Expectation, e: Evidence, tick: u64)
    ensures var a, r := AssessEvidence(p, d, x, e, tick), Evaluate(p, d, x, e, tick);
            && (r.authorized <==> a.verdict.outcome.WithinPolicy?)
            && r.increment == if r.authorized && a.Assessed? then a.accounting.contingentFree else 0
  {
    hide AssessEvidence, AuthorityOf;
  }

  lemma AuthorizedAs(p: Policy, d: DomainConfig, e: Evidence, b: Balance, a: Assessment)
    requires Present(e) && Balances(p, d, e, b) && a.Assessed?
    requires Shows(d, b, a.accounting) && FoundAs(p, d, e, b, a.verdict)
    ensures a.verdict.outcome.WithinPolicy? <==> Lawful(p, d, e, b) && RoomLeft(d, b)
    ensures RoomLeft(d, b) ==> a.accounting.contingentFree == b.ceiling - b.guaranteed - d.emergencyReserve - b.contingent
  {
    if RoomLeft(d, b) {
      RoomNeedsUnits(p, d, e, b);
    }
    hide Balances, Backed, OnlyEligible, Covered, Protected, Severe, SharesHeld, Lawful;
  }

  lemma WithheldIsNotWithin(p: Policy, d: DomainConfig, x: Expectation, e: Evidence, tick: u64)
    requires AssessEvidence(p, d, x, e, tick).Withheld?
    ensures !AssessEvidence(p, d, x, e, tick).verdict.outcome.WithinPolicy?
  {
    RejectionWithholds(p, d, x, e, tick);
    hide Admit, Boundary, Decide;
  }

  /** Without usable units the ceiling is 0 and there is no room. */
  lemma RoomNeedsUnits(p: Policy, d: DomainConfig, e: Evidence, b: Balance)
    requires Present(e) && Balances(p, d, e, b) && RoomLeft(d, b)
    ensures b.usable > 0
  {
    var broken := SomeBroken(d, e.capacity.value.resources);
    if b.usable == 0 {
      NothingToScale(p, d, broken);
    }
    hide CeilingsFor, SomeBroken, SumBy, GuaranteedUnits, AdmittedUnits, ContingentUnits, PendingUnits, BurstUnits;
  }
}
