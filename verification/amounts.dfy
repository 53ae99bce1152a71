/** The amounts a domain is judged by, said about the policy and the evidence alone, and that the scans and
    ledgers of the evaluation arrive at exactly these. */
module Amounts {
  import opened Checked
  import opened Model
  import opened Sums
  import opened Sorting
  import opened PolicyRules
  import opened Engine
  import opened OrderIndependence

  // --------------------------------------------------------------- capacity

  /** The usable units of a resource once its health is taken into account. */
  function HealthyUnits(r: ResourceCapacity): nat {
    match r.health
    case Healthy => r.usable
    case Degraded => r.usable * r.degradedPpm / PPM_SCALE
    case Failed => 0
    case HealthUnknown => 0
  }

  function UnitsAt(rs: seq<ResourceCapacity>): u64 -> nat {
    (id: u64) => match FindResource(rs, id) case Some(r) => HealthyUnits(r) case None => 0
  }

  function PhysicalAt(rs: seq<ResourceCapacity>): u64 -> nat {
    (id: u64) => match FindResource(rs, id) case Some(r) => r.physical case None => 0
  }

  function UsableAt(rs: seq<ResourceCapacity>): u64 -> nat {
    (id: u64) => match FindResource(rs, id) case Some(r) => r.usable case None => 0
  }

  predicate Broken(rs: seq<ResourceCapacity>, id: u64) {
    var r := FindResource(rs, id);
    r.Some? && (r.value.health.Degraded? || r.value.health.Failed?)
  }

  predicate SomeBroken(d: DomainConfig, rs: seq<ResourceCapacity>) { exists id :: id in d.members && Broken(rs, id) }

  // ---------------------------------------------------------------- records

  function GuaranteedUnits(d: DomainConfig, gs: seq<Guarantee>): nat {
    SumBy((g: Guarantee) => if g.resource in d.members then g.amount else 0, gs)
  }

  function GuaranteedOnUnits(gs: seq<Guarantee>, r: u64): nat {
    SumBy((g: Guarantee) => if g.resource == r then g.amount else 0, gs)
  }

  function GuaranteedForUnits(gs: seq<Guarantee>, r: u64, c: u64): nat {
    SumBy((g: Guarantee) => if g.resource == r && g.serviceClass == c then g.amount else 0, gs)
  }

  /** Units admitted as guaranteed. */
  function AdmittedUnits(d: DomainConfig, ds: seq<Demand>): nat {
    SumBy((x: Demand) => if x.resource in d.members && x.kind == Guaranteed then x.committed else 0, ds)
  }

  function AdmittedForUnits(ds: seq<Demand>, r: u64, c: u64): nat {
    SumBy((x: Demand) => if x.kind == Guaranteed && x.resource == r && x.serviceClass == c then x.committed else 0, ds)
  }

  predicate EligibleClass(p: Policy, c: u64) {
    exists s :: s in p.serviceClasses && s.id == c && s.eligible
  }

  /** A record of oversubscribed demand on the domain. */
  predicate Oversubscribes(d: DomainConfig, x: Demand) {
    x.resource in d.members && (x.kind == Contingent || x.kind == Burst)
  }

  predicate Contends(p: Policy, d: DomainConfig, x: Demand) { Oversubscribes(d, x) && EligibleClass(p, x.serviceClass) }

  function ContingentUnits(p: Policy, d: DomainConfig, ds: seq<Demand>): nat {
    SumBy((x: Demand) => if Contends(p, d, x) then x.committed else 0, ds)
  }

  function ClassUnits(p: Policy, d: DomainConfig, ds: seq<Demand>, c: u64): nat {
    SumBy((x: Demand) => if Contends(p, d, x) && x.serviceClass == c then x.committed else 0, ds)
  }

  function PendingUnits(p: Policy, d: DomainConfig, ds: seq<Demand>): nat {
    SumBy((x: Demand) => if Contends(p, d, x) then x.pending else 0, ds)
  }

  function BurstUnits(p: Policy, d: DomainConfig, ds: seq<Demand>): nat {
    SumBy((x: Demand) => if Contends(p, d, x) && x.kind == Burst then x.committed else 0, ds)
  }

  // ----------------------------------------------- the ledgers' totals are these

  lemma GuaranteedIs(p: Policy, d: DomainConfig, gs: seq<Guarantee>)
    ensures GuaranteeTotal(ScopeOf(p, d), GuaranteedAll, gs) == GuaranteedUnits(d, gs)
  {
    SumBySame(GuaranteeWeight(ScopeOf(p, d), GuaranteedAll),
              (g: Guarantee) => if g.resource in d.members then g.amount else 0, gs);
  }

  lemma GuaranteedOnIs(p: Policy, d: DomainConfig, gs: seq<Guarantee>, r: u64)
    requires r in d.members
    ensures GuaranteeTotal(ScopeOf(p, d), GuaranteedOn(r), gs) == GuaranteedOnUnits(gs, r)
  {
    SumBySame(GuaranteeWeight(ScopeOf(p, d), GuaranteedOn(r)),
              (g: Guarantee) => if g.resource == r then g.amount else 0, gs);
  }

  lemma GuaranteedForIs(p: Policy, d: DomainConfig, gs: seq<Guarantee>, r: u64, c: u64)
    requires r in d.members
    ensures GuaranteeTotal(ScopeOf(p, d), GuaranteedFor(r, c), gs) == GuaranteedForUnits(gs, r, c)
  {
    SumBySame(GuaranteeWeight(ScopeOf(p, d), GuaranteedFor(r, c)),
              (g: Guarantee) => if g.resource == r && g.serviceClass == c then g.amount else 0, gs);
  }

  lemma AdmittedIs(p: Policy, d: DomainConfig, ds: seq<Demand>)
    ensures DemandTotal(ScopeOf(p, d), AdmittedAll, ds) == AdmittedUnits(d, ds)
  {
    SumBySame(DemandWeight(ScopeOf(p, d), AdmittedAll),
              (x: Demand) => if x.resource in d.members && x.kind == Guaranteed then x.committed else 0, ds);
  }

  lemma AdmittedForIs(p: Policy, d: DomainConfig, ds: seq<Demand>, r: u64, c: u64)
    requires r in d.members
    ensures DemandTotal(ScopeOf(p, d), AdmittedFor(r, c), ds) == AdmittedForUnits(ds, r, c)
  {
    SumBySame(DemandWeight(ScopeOf(p, d), AdmittedFor(r, c)),
              (x: Demand) => if x.kind == Guaranteed && x.resource == r && x.serviceClass == c then x.committed else 0, ds);
  }

  /** A class is eligible when the policy lists it as such. */
  lemma EligibleIs(p: Policy, d: DomainConfig, c: u64)
    requires DistinctBy(ClassKey(), p.serviceClasses)
    ensures Eligible(ScopeOf(p, d), c) <==> EligibleClass(p, c)
  {
    var f := FindClass(p.serviceClasses, c);
    if EligibleClass(p, c) {
      var s :| s in p.serviceClasses && s.id == c && s.eligible;
      var i :| 0 <= i < |p.serviceClasses| && p.serviceClasses[i] == s;
      var j :| 0 <= j < |p.serviceClasses| && p.serviceClasses[j] == f.value;
      assert ClassKey()(p.serviceClasses[i]) == ClassKey()(p.serviceClasses[j]);
    }
  }

  lemma ContendsIs(p: Policy, d: DomainConfig, x: Demand)
    requires DistinctBy(ClassKey(), p.serviceClasses)
    ensures Counted(ScopeOf(p, d), x) <==> Contends(p, d, x)
  {
    EligibleIs(p, d, x.serviceClass);
    hide Eligible, EligibleClass, DistinctBy;
  }

  lemma ContingentIs(p: Policy, d: DomainConfig, ds: seq<Demand>)
    requires DistinctBy(ClassKey(), p.serviceClasses)
    ensures DemandTotal(ScopeOf(p, d), ContingentAll, ds) == ContingentUnits(p, d, ds)
    ensures DemandTotal(ScopeOf(p, d), PendingAll, ds) == PendingUnits(p, d, ds)
    ensures DemandTotal(ScopeOf(p, d), BurstAll, ds) == BurstUnits(p, d, ds)
  {
    forall x: Demand ensures Counted(ScopeOf(p, d), x) <==> Contends(p, d, x) { ContendsIs(p, d, x); }
    hide Counted, Contends, DistinctBy;
    SumBySame(DemandWeight(ScopeOf(p, d), ContingentAll), (x: Demand) => if Contends(p, d, x) then x.committed else 0, ds);
    SumBySame(DemandWeight(ScopeOf(p, d), PendingAll), (x: Demand) => if Contends(p, d, x) then x.pending else 0, ds);
    SumBySame(DemandWeight(ScopeOf(p, d), BurstAll),
              (x: Demand) => if Contends(p, d, x) && x.kind == Burst then x.committed else 0, ds);
  }

  lemma ClassIs(p: Policy, d: DomainConfig, ds: seq<Demand>, c: u64)
    requires DistinctBy(ClassKey(), p.serviceClasses)
    ensures DemandTotal(ScopeOf(p, d), ContingentOf(c), ds) == ClassUnits(p, d, ds, c)
  {
    forall x: Demand ensures Counted(ScopeOf(p, d), x) <==> Contends(p, d, x) { ContendsIs(p, d, x); }
    hide Counted, Contends, DistinctBy;
    SumBySame(DemandWeight(ScopeOf(p, d), ContingentOf(c)),
              (x: Demand) => if Contends(p, d, x) && x.serviceClass == c then x.committed else 0, ds);
  }

  // ------------------------------------------------- the members' totals are these

  /** What it takes to resolve a member. */
  predicate MemberKnown(pool: u64, rs: seq<ResourceCapacity>, id: u64) {
    match FindResource(rs, id)
    case None => false
    case Some(r) => r.pool == pool && !r.health.HealthUnknown? && HealthyUnits(r) < U64_LIMIT
  }

  predicate ResolvedTo(rs: seq<ResourceCapacity>, ids: seq<u64>, ms: seq<Member>) {
    && |ms| == |ids|
    && forall j :: 0 <= j < |ids| ==>
         FindResource(rs, ids[j]) == Some(ms[j].capacity) && ms[j].effective == HealthyUnits(ms[j].capacity)
  }

  lemma MemberResolved(pool: u64, rs: seq<ResourceCapacity>, id: u64)
    ensures var r := ResolveMember(pool, rs, id);
            && (r.Ok? <==> MemberKnown(pool, rs, id))
            && (r.Ok? ==> FindResource(rs, id) == Some(r.value.capacity)
                          && r.value.effective == HealthyUnits(r.value.capacity))
  {
    hide FindResource;
  }

  /** Members resolve exactly when each is known, to the resources found for them. */
  lemma {:induction false} MembersResolved(pool: u64, rs: seq<ResourceCapacity>, ids: seq<u64>)
    ensures var r := ResolveMembers(pool, rs, ids);
            && (r.Ok? <==> forall id :: id in ids ==> MemberKnown(pool, rs, id))
            && (r.Ok? ==> ResolvedTo(rs, ids, r.value))
  {
    if ids != [] {
      var init, last := ids[..|ids| - 1], ids[|ids| - 1];
      assert forall id :: id in ids <==> id in init || id == last;
      MembersResolved(pool, rs, init);
      MemberResolved(pool, rs, last);
      hide ResolveMember, MemberKnown, FindResource;
    }
  }

  /** The same sum over two lists that go in step. */
  lemma {:induction false} SumInStep<S, T>(v: S -> nat, w: T -> nat, s: seq<S>, t: seq<T>)
    requires |s| == |t| && forall i :: 0 <= i < |s| ==> v(s[i]) == w(t[i])
    ensures SumBy(v, s) == SumBy(w, t)
  {
    if s != [] {
      SumInStep(v, w, s[..|s| - 1], t[..|t| - 1]);
    }
  }

  lemma MemberTotals(d: DomainConfig, rs: seq<ResourceCapacity>, ms: seq<Member>)
    requires ResolvedTo(rs, SortedMembers(d), ms)
    ensures SumBy(Effective(), ms) == SumBy(UnitsAt(rs), d.members)
    ensures SumBy(Physical(), ms) == SumBy(PhysicalAt(rs), d.members)
    ensures SumBy(Usable(), ms) == SumBy(UsableAt(rs), d.members)
  {
    var ids := SortedMembers(d);
    hide FindResource, Sort;
    SumInStep(Effective(), UnitsAt(rs), ms, ids);
    SumInStep(Physical(), PhysicalAt(rs), ms, ids);
    SumInStep(Usable(), UsableAt(rs), ms, ids);
    hide ResolvedTo, UnitsAt, PhysicalAt, UsableAt;
    SumByPermutation(UnitsAt(rs), ids, d.members);
    SumByPermutation(PhysicalAt(rs), ids, d.members);
    SumByPermutation(UsableAt(rs), ids, d.members);
  }

  lemma ImpairedIs(d: DomainConfig, rs: seq<ResourceCapacity>, ms: seq<Member>)
    requires ResolvedTo(rs, SortedMembers(d), ms)
    ensures Impaired(ms) <==> SomeBroken(d, rs)
  {
    var ids := SortedMembers(d);
    SameMembers(ids, d.members);
    hide Sort, FindResource;
    if SomeBroken(d, rs) {
      var id :| id in d.members && Broken(rs, id);
      var j :| 0 <= j < |ids| && ids[j] == id;
      assert ms[j].capacity.health.Degraded? || ms[j].capacity.health.Failed?;
    }
    if Impaired(ms) {
      var j :| 0 <= j < |ms| && (ms[j].capacity.health.Degraded? || ms[j].capacity.health.Failed?);
      assert ids[j] in d.members && Broken(rs, ids[j]);
    }
  }
}
