/** The per-resource view against the domain boundary. */
module Resources {
  import opened Checked
  import opened Model
  import opened Sums
  import opened Sorting
  import opened PolicyRules
  import opened Engine
  import opened Conservation

  function Ceiling(): ResourceAccounting -> nat { (r: ResourceAccounting) => r.ceiling }
  function GuaranteedPart(): ResourceAccounting -> nat { (r: ResourceAccounting) => r.guarantees }
  function ContingentPart(): ResourceAccounting -> nat { (r: ResourceAccounting) => r.contingentCommitted }
  function PendingPart(): ResourceAccounting -> nat { (r: ResourceAccounting) => r.contingentPending }

  // ------------------------------------------------------ rounding losses

  lemma FloorOfSum(a: nat, b: nat, n: nat, d: nat)
    requires d > 0
    ensures a * n / d + b * n / d <= (a + b) * n / d <= a * n / d + b * n / d + 1
  {
    var x, y := a * n, b * n;
    assert (a + b) * n == x + y;
    DivModIdentity(x, d);
    DivModIdentity(y, d);
    var q, r := x / d + y / d, x % d + y % d;
    assert q * d == x / d * d + y / d * d;
    assert x + y == q * d + r;
    if r < d {
      DivisionUnique(x + y, d, q, r);
    } else {
      assert x + y == (q + 1) * d + (r - d);
      DivisionUnique(x + y, d, q + 1, r - d);
    }
  }

  lemma ScaledSum(u: nat, v: nat, r: Ratio)
    requires r.den != 0
    ensures Scaled(u, r) + Scaled(v, r) <= Scaled(u + v, r) <= Scaled(u, r) + Scaled(v, r) + 1
  {
    FloorOfSum(u, v, r.num, r.den);
  }

  /** Scaling each member and adding up loses less than one unit per member. */
  lemma {:induction false} CeilingsRefine(k: Scope, gs: seq<Guarantee>, ds: seq<Demand>, ratio: Ratio, ms: seq<Member>)
    requires ratio.den != 0 && Scaled(SumBy(Effective(), ms), ratio) < U64_LIMIT
    ensures var total := SumBy(Ceiling(), IntendedViews(k, gs, ds, ratio, ms));
            && total <= Scaled(SumBy(Effective(), ms), ratio)
            && (ms != [] ==> Scaled(SumBy(Effective(), ms), ratio) < total + |ms|)
  {
    hide Scaled, IntendedView;
    if ms == [] {
      NothingScaled(ratio);
    } else {
      var init, m := ms[..|ms| - 1], ms[|ms| - 1];
      CeilingsSnoc(k, gs, ds, ratio, init, m);
      assert init + [m] == ms;
      var all, part := SumBy(Effective(), ms), SumBy(Effective(), init);
      var total, before := SumBy(Ceiling(), IntendedViews(k, gs, ds, ratio, ms)),
                           SumBy(Ceiling(), IntendedViews(k, gs, ds, ratio, init));
      hide *;
      ScaledSum(part, m.effective, ratio);
      CeilingIs(k, gs, ds, ratio, m);
      CeilingsRefine(k, gs, ds, ratio, init);
      NothingScaled(ratio);
    }
  }

  lemma CeilingsSnoc(k: Scope, gs: seq<Guarantee>, ds: seq<Demand>, ratio: Ratio, init: seq<Member>, m: Member)
    ensures SumBy(Effective(), init + [m]) == SumBy(Effective(), init) + m.effective
    ensures SumBy(Ceiling(), IntendedViews(k, gs, ds, ratio, init + [m]))
            == SumBy(Ceiling(), IntendedViews(k, gs, ds, ratio, init)) + Ceiling()(IntendedView(k, gs, ds, ratio, m))
    ensures init == [] ==> SumBy(Effective(), init) == 0
  {
    assert (init + [m])[..|init|] == init;
    SumBySnoc(Effective(), init, m);
    SumBySnoc(Ceiling(), IntendedViews(k, gs, ds, ratio, init), IntendedView(k, gs, ds, ratio, m));
    hide IntendedView, Ceiling;
  }

  lemma NothingScaled(r: Ratio)
    ensures Scaled(0, r) == 0
  {
  }

  lemma CeilingIs(k: Scope, gs: seq<Guarantee>, ds: seq<Demand>, ratio: Ratio, m: Member)
    requires ratio.den != 0 && Scaled(m.effective, ratio) < U64_LIMIT
    ensures Ceiling()(IntendedView(k, gs, ds, ratio, m)) == Scaled(m.effective, ratio)
  {
    hide GuaranteeTotal, DemandTotal;
  }

  // ---------------------------------------------------- totals by resource

  function GuaranteeBy(k: Scope): u64 -> Guarantee -> nat { (r: u64) => GuaranteeWeight(k, GuaranteedOn(r)) }
  function ContingentBy(k: Scope): u64 -> Demand -> nat { (r: u64) => DemandWeight(k, ContingentOn(r)) }
  function PendingBy(k: Scope): u64 -> Demand -> nat { (r: u64) => DemandWeight(k, PendingOn(r)) }
  function ContingentByClass(k: Scope): u64 -> Demand -> nat { (c: u64) => DemandWeight(k, ContingentOf(c)) }

  lemma SplitAtKey<T(!new)>(part: u64 -> T -> nat, x: T, keys: seq<u64>, key: u64, weight: nat)
    requires DistinctBy(IdKey(), keys)
    requires weight > 0 ==> key in keys
    requires forall r :: r in keys ==> part(r)(x) == if r == key then weight else 0
    ensures SumBy(PartAt(part, x), keys) == weight
  {
    if key in keys {
      var i :| 0 <= i < |keys| && keys[i] == key;
      forall j | 0 <= j < |keys| && j != i ensures PartAt(part, x)(keys[j]) == 0 {
        assert keys[j] in keys && IdKey()(keys[j]) == keys[j] && IdKey()(keys[i]) == keys[i];
      }
      SumByOnly(PartAt(part, x), keys, i);
    } else {
      forall j | 0 <= j < |keys| ensures PartAt(part, x)(keys[j]) == 0 {
        assert keys[j] in keys;
      }
      SumByZero(PartAt(part, x), keys);
    }
  }

  lemma GuaranteesByResource(k: Scope, gs: seq<Guarantee>, keys: seq<u64>)
    requires DistinctBy(IdKey(), keys) && forall r :: r in k.members ==> r in keys
    ensures SumBy(PartSum(GuaranteeBy(k), gs), keys) == GuaranteeTotal(k, GuaranteedAll, gs)
  {
    forall i | 0 <= i < |gs|
      ensures SumBy(PartAt(GuaranteeBy(k), gs[i]), keys) == GuaranteeWeight(k, GuaranteedAll)(gs[i])
    {
      SplitAtKey(GuaranteeBy(k), gs[i], keys, gs[i].resource, GuaranteeWeight(k, GuaranteedAll)(gs[i]));
    }
    SumByKeys(GuaranteeBy(k), GuaranteeWeight(k, GuaranteedAll), keys, gs);
  }

  lemma ContingentByResource(k: Scope, ds: seq<Demand>, keys: seq<u64>)
    requires DistinctBy(IdKey(), keys) && forall r :: r in k.members ==> r in keys
    ensures SumBy(PartSum(ContingentBy(k), ds), keys) == DemandTotal(k, ContingentAll, ds)
    ensures SumBy(PartSum(PendingBy(k), ds), keys) == DemandTotal(k, PendingAll, ds)
  {
    forall i | 0 <= i < |ds|
      ensures SumBy(PartAt(ContingentBy(k), ds[i]), keys) == DemandWeight(k, ContingentAll)(ds[i])
      ensures SumBy(PartAt(PendingBy(k), ds[i]), keys) == DemandWeight(k, PendingAll)(ds[i])
    {
      SplitAtKey(ContingentBy(k), ds[i], keys, ds[i].resource, WeightOf(k, ContingentAll, ds[i]));
      SplitAtKey(PendingBy(k), ds[i], keys, ds[i].resource, WeightOf(k, PendingAll, ds[i]));
    }
    SumByKeys(ContingentBy(k), DemandWeight(k, ContingentAll), keys, ds);
    SumByKeys(PendingBy(k), DemandWeight(k, PendingAll), keys, ds);
  }

  /** Contingent demand is also the sum of its service-class shares. */
  lemma ContingentByClasses(k: Scope, ds: seq<Demand>, ids: seq<u64>)
    requires DistinctBy(IdKey(), ids) && forall c :: c in k.classes ==> c.id in ids
    ensures SumBy(PartSum(ContingentByClass(k), ds), ids) == DemandTotal(k, ContingentAll, ds)
  {
    forall i | 0 <= i < |ds|
      ensures SumBy(PartAt(ContingentByClass(k), ds[i]), ids) == DemandWeight(k, ContingentAll)(ds[i])
    {
      SplitAtKey(ContingentByClass(k), ds[i], ids, ds[i].serviceClass, WeightOf(k, ContingentAll, ds[i]));
    }
    SumByKeys(ContingentByClass(k), DemandWeight(k, ContingentAll), ids, ds);
  }

  // ----------------------------------------------- the view of one domain

  function Ids(ms: seq<Member>): (ids: seq<u64>)
    ensures |ids| == |ms|
  {
    if ms == [] then [] else Ids(ms[..|ms| - 1]) + [ms[|ms| - 1].capacity.resource]
  }

  lemma {:induction false} ResolvedIds(pool: u64, resources: seq<ResourceCapacity>, ids: seq<u64>)
    requires ResolveMembers(pool, resources, ids).Ok?
    ensures Ids(ResolveMembers(pool, resources, ids).value) == ids
  {
    if ids != [] {
      ResolvedIds(pool, resources, ids[..|ids| - 1]);
      var ms := ResolveMembers(pool, resources, ids).value;
      assert ms[..|ms| - 1] == ResolveMembers(pool, resources, ids[..|ids| - 1]).value;
    }
  }

  /** No part of a total exceeds it. */
  lemma PartsWithinTotals(k: Scope, gs: seq<Guarantee>, ds: seq<Demand>, id: u64)
    ensures GuaranteeTotal(k, GuaranteedOn(id), gs) <= GuaranteeTotal(k, GuaranteedAll, gs)
    ensures DemandTotal(k, ContingentOn(id), ds) <= DemandTotal(k, ContingentAll, ds)
    ensures DemandTotal(k, PendingOn(id), ds) <= DemandTotal(k, PendingAll, ds)
  {
    SumByMono(GuaranteeWeight(k, GuaranteedOn(id)), GuaranteeWeight(k, GuaranteedAll), gs, gs);
    SumByMono(DemandWeight(k, ContingentOn(id)), DemandWeight(k, ContingentAll), ds, ds);
    SumByMono(DemandWeight(k, PendingOn(id)), DemandWeight(k, PendingAll), ds, ds);
  }

  predicate TotalsFit(k: Scope, gs: seq<Guarantee>, ds: seq<Demand>) {
    && GuaranteeTotal(k, GuaranteedAll, gs) + DemandTotal(k, ContingentAll, ds) < U64_LIMIT
    && DemandTotal(k, PendingAll, ds) < U64_LIMIT
  }

  /** Emitted and intended entries have the same ceilings, guarantees and pending amounts. */
  lemma {:induction false} SharedParts(k: Scope, gs: seq<Guarantee>, ds: seq<Demand>, ratio: Ratio, ms: seq<Member>)
    ensures var views, intended := ResourceViews(k, gs, ds, ratio, ms), IntendedViews(k, gs, ds, ratio, ms);
            && SumBy(Ceiling(), views) == SumBy(Ceiling(), intended)
            && SumBy(GuaranteedPart(), views) == SumBy(GuaranteedPart(), intended)
            && SumBy(PendingPart(), views) == SumBy(PendingPart(), intended)
  {
    if ms != [] {
      var init, m := ms[..|ms| - 1], ms[|ms| - 1];
      SharedParts(k, gs, ds, ratio, init);
      var views, v := ResourceViews(k, gs, ds, ratio, init), ResourceView(k, gs, ds, ratio, m);
      var intended, t := IntendedViews(k, gs, ds, ratio, init), IntendedView(k, gs, ds, ratio, m);
      SumBySnoc(Ceiling(), views, v);
      SumBySnoc(Ceiling(), intended, t);
      SumBySnoc(GuaranteedPart(), views, v);
      SumBySnoc(GuaranteedPart(), intended, t);
      SumBySnoc(PendingPart(), views, v);
      SumBySnoc(PendingPart(), intended, t);
      hide GuaranteeTotal, DemandTotal, SumBy;
    }
  }

  lemma {:induction false} IntendedSums(k: Scope, gs: seq<Guarantee>, ds: seq<Demand>, ratio: Ratio, ms: seq<Member>)
    requires TotalsFit(k, gs, ds)
    ensures var views := IntendedViews(k, gs, ds, ratio, ms);
            && SumBy(GuaranteedPart(), views) == SumBy(PartSum(GuaranteeBy(k), gs), Ids(ms))
            && SumBy(ContingentPart(), views) == SumBy(PartSum(ContingentBy(k), ds), Ids(ms))
            && SumBy(PendingPart(), views) == SumBy(PartSum(PendingBy(k), ds), Ids(ms))
  {
    if ms != [] {
      var init, m := ms[..|ms| - 1], ms[|ms| - 1];
      IntendedSums(k, gs, ds, ratio, init);
      PartsWithinTotals(k, gs, ds, m.capacity.resource);
      var views, v := IntendedViews(k, gs, ds, ratio, init), IntendedView(k, gs, ds, ratio, m);
      SumBySnoc(GuaranteedPart(), views, v);
      SumBySnoc(ContingentPart(), views, v);
      SumBySnoc(PendingPart(), views, v);
      SumBySnoc(PartSum(GuaranteeBy(k), gs), Ids(init), m.capacity.resource);
      SumBySnoc(PartSum(ContingentBy(k), ds), Ids(init), m.capacity.resource);
      SumBySnoc(PartSum(PendingBy(k), ds), Ids(init), m.capacity.resource);
    }
  }

  predicate WithinCeilings(views: seq<ResourceAccounting>) {
    forall i :: 0 <= i < |views| ==> views[i].overage == 0
  }

  lemma {:induction false} NoOverageSums(k: Scope, gs: seq<Guarantee>, ds: seq<Demand>, ratio: Ratio, ms: seq<Member>)
    requires TotalsFit(k, gs, ds) && WithinCeilings(IntendedViews(k, gs, ds, ratio, ms))
    ensures var views := IntendedViews(k, gs, ds, ratio, ms);
            SumBy(GuaranteedPart(), views) + SumBy(ContingentPart(), views) <= SumBy(Ceiling(), views)
  {
    if ms != [] {
      var init, m := ms[..|ms| - 1], ms[|ms| - 1];
      var views, v := IntendedViews(k, gs, ds, ratio, init), IntendedView(k, gs, ds, ratio, m);
      var all := IntendedViews(k, gs, ds, ratio, ms);
      assert all == views + [v] && all[|ms| - 1] == v;
      assert forall i :: 0 <= i < |views| ==> views[i] == all[i];
      NoOverageSums(k, gs, ds, ratio, init);
      PartsWithinTotals(k, gs, ds, m.capacity.resource);
      SumBySnoc(GuaranteedPart(), views, v);
      SumBySnoc(ContingentPart(), views, v);
      SumBySnoc(Ceiling(), views, v);
    }
  }

  /** The emitted entries repeat the guarantees as contingent amounts and never report an overage. */
  lemma {:induction false} EmittedSums(k: Scope, gs: seq<Guarantee>, ds: seq<Demand>, ratio: Ratio, ms: seq<Member>)
    ensures var views := ResourceViews(k, gs, ds, ratio, ms);
            SumBy(ContingentPart(), views) == SumBy(GuaranteedPart(), views) && WithinCeilings(views)
  {
    if ms != [] {
      var init, m := ms[..|ms| - 1], ms[|ms| - 1];
      EmittedSums(k, gs, ds, ratio, init);
      var views, v := ResourceViews(k, gs, ds, ratio, init), ResourceView(k, gs, ds, ratio, m);
      assert ResourceViews(k, gs, ds, ratio, ms) == views + [v];
      SumBySnoc(GuaranteedPart(), views, v);
      SumBySnoc(ContingentPart(), views, v);
      hide GuaranteeTotal, DemandTotal, SumBy;
    }
  }

  /** When one emitted entry agrees with the intended one: its contingent amount exactly when the
      contingent demand on the member equals its guarantees, its overage exactly when the member's whole
      commitment is within its ceiling, its free amount exactly when either both amounts exhaust what the
      guarantees leave of the ceiling or they are equal. Everything else always agrees. */
  lemma EntryIsRight(k: Scope, gs: seq<Guarantee>, ds: seq<Demand>, ratio: Ratio, m: Member)
    requires TotalsFit(k, gs, ds)
    ensures var v, t := ResourceView(k, gs, ds, ratio, m), IntendedView(k, gs, ds, ratio, m);
            var id := m.capacity.resource;
            var guaranteed, contingent := GuaranteeTotal(k, GuaranteedOn(id), gs), DemandTotal(k, ContingentOn(id), ds);
            && v == t.(contingentCommitted := v.contingentCommitted, contingentFree := v.contingentFree, overage := v.overage)
            && v.contingentCommitted == v.guarantees == guaranteed && t.contingentCommitted == contingent
            && v.overage == 0
            && (v.contingentCommitted == t.contingentCommitted <==> guaranteed == contingent)
            && (v.overage == t.overage <==> guaranteed + contingent <= v.ceiling)
            && (v.contingentFree == t.contingentFree <==>
                  guaranteed == contingent || (v.ceiling <= 2 * guaranteed && v.ceiling <= guaranteed + contingent))
  {
    PartsWithinTotals(k, gs, ds, m.capacity.resource);
    hide GuaranteeTotal, DemandTotal;
  }

  lemma MemberIds(policy: Policy, domain: DomainConfig, x: Expectation, e: Evidence, tick: u64)
    requires ValidPolicy(policy) && domain in policy.domains
    requires Admit(policy, domain, x, e, tick).Ok?
    ensures var ms := Admit(policy, domain, x, e, tick).value.members;
            && Ids(ms) == SortedMembers(domain) && |ms| == |domain.members| > 0
            && DistinctBy(IdKey(), Ids(ms)) && forall r :: r in domain.members ==> r in Ids(ms)
  {
    ValidPolicyIsSound(policy, domain);
    var sorted := SortedMembers(domain);
    ResolvedIds(domain.pool, e.capacity.value.resources, sorted);
    DistinctPermutation(IdKey(), domain.members, sorted);
    forall r | r in domain.members ensures r in sorted {
      assert r in multiset(sorted);
    }
  }

  /** Per-resource ceilings refine the domain's ratio ceiling, and guarantees and pending demand add up to
      the domain's. The emitted contingent amounts add up to the guarantees, so they give the domain's
      contingent total exactly when the two are equal. No emitted entry ever shows an overage, whether or
      not the domain is over the ratio ceiling. */
  lemma ResourcesRefineDomain(policy: Policy, domain: DomainConfig, x: Expectation, e: Evidence, tick: u64)
    requires ValidPolicy(policy) && domain in policy.domains
    requires AssessEvidence(policy, domain, x, e, tick).Assessed?
    ensures var i := Admit(policy, domain, x, e, tick).value;
            var a := AssessEvidence(policy, domain, x, e, tick).accounting;
            var views := ResourceViews(ScopeOf(policy, domain), i.guarantees, i.records, a.effectiveRatio, i.members);
            var ratioCeiling := a.effectiveUsable * a.effectiveRatio.num / a.effectiveRatio.den;
            && |views| == |domain.members|
            && SumBy(Ceiling(), views) <= ratioCeiling < SumBy(Ceiling(), views) + |views|
            && SumBy(GuaranteedPart(), views) == a.guaranteesTotal
            && SumBy(PendingPart(), views) == a.contingentPending
            && (SumBy(ContingentPart(), views) == a.contingentCommitted <==> a.guaranteesTotal == a.contingentCommitted)
            && WithinCeilings(views)
  {
    var i := Admit(policy, domain, x, e, tick).value;
    var k := ScopeOf(policy, domain);
    var a := AssessEvidence(policy, domain, x, e, tick).accounting;
    IntendedRefineDomain(policy, domain, x, e, tick);
    SharedParts(k, i.guarantees, i.records, a.effectiveRatio, i.members);
    EmittedSums(k, i.guarantees, i.records, a.effectiveRatio, i.members);
    hide Admit, AssessEvidence, ValidPolicy, SumBy, ResourceViews, IntendedViews, WithinCeilings;
  }

  /** With every amount in its place the contingent amounts add up too, and when no resource is over its
      ceiling the domain is not over the ratio ceiling. */
  lemma IntendedRefineDomain(policy: Policy, domain: DomainConfig, x: Expectation, e: Evidence, tick: u64)
    requires ValidPolicy(policy) && domain in policy.domains
    requires AssessEvidence(policy, domain, x, e, tick).Assessed?
    ensures var i := Admit(policy, domain, x, e, tick).value;
            var a := AssessEvidence(policy, domain, x, e, tick).accounting;
            var views := IntendedViews(ScopeOf(policy, domain), i.guarantees, i.records, a.effectiveRatio, i.members);
            var ratioCeiling := a.effectiveUsable * a.effectiveRatio.num / a.effectiveRatio.den;
            && |views| == |domain.members|
            && SumBy(Ceiling(), views) <= ratioCeiling < SumBy(Ceiling(), views) + |views|
            && SumBy(GuaranteedPart(), views) == a.guaranteesTotal
            && SumBy(ContingentPart(), views) == a.contingentCommitted
            && SumBy(PendingPart(), views) == a.contingentPending
            && (WithinCeilings(views) ==> a.committedTotal <= ratioCeiling)
  {
    var i := Admit(policy, domain, x, e, tick).value;
    var k := ScopeOf(policy, domain);
    var a := AssessEvidence(policy, domain, x, e, tick).accounting;
    var views := IntendedViews(k, i.guarantees, i.records, a.effectiveRatio, i.members);
    MemberIds(policy, domain, x, e, tick);
    CeilingsRefine(k, i.guarantees, i.records, a.effectiveRatio, i.members);
    IntendedSums(k, i.guarantees, i.records, a.effectiveRatio, i.members);
    GuaranteesByResource(k, i.guarantees, Ids(i.members));
    ContingentByResource(k, i.records, Ids(i.members));
    if WithinCeilings(views) {
      NoOverageSums(k, i.guarantees, i.records, a.effectiveRatio, i.members);
    }
  }
}
