/** Which evidence reaches the boundary at all: a statement about policy, expectation and evidence. */
module Admission {
  import opened Checked
  import opened Wire
  import opened Model
  import opened Sums
  import opened Sorting
  import opened PolicyRules
  import opened Engine
  import opened OrderIndependence
  import opened Amounts

  predicate Present(e: Evidence) { e.capacity.Some? && e.reservations.Some? && e.admissions.Some? }

  /** The runtime owns everything the evidence is compared with. */
  predicate FullyExpected(x: Expectation) {
    && x.epoch != 0 && x.policyGeneration != 0 && x.domainGeneration != 0 && x.riskBudgetGeneration != 0
    && x.capacityGeneration != 0 && x.reservationGeneration != 0 && x.admissionGeneration != 0
  }

  /** Every snapshot is there and is the one the runtime expects, for the policy and domain it holds. */
  predicate Expected(p: Policy, d: DomainConfig, x: Expectation, e: Evidence) {
    && Present(e) && FullyExpected(x)
    && p.generation == x.policyGeneration && d.generation == x.domainGeneration
    && p.riskBudget.generation == x.riskBudgetGeneration
    && var (c, r, a) := (e.capacity.value, e.reservations.value, e.admissions.value);
    && c.domain == r.domain == a.domain == d.id && c.epoch == r.epoch == a.epoch == x.epoch
    && c.generation == x.capacityGeneration && r.generation == x.reservationGeneration
    && a.generation == x.admissionGeneration
  }

  /** Neither from the future nor older than its budget. */
  predicate Timely(observed: nat, budget: nat, tick: nat) { observed <= tick <= observed + budget }

  predicate AllTimely(p: Policy, e: Evidence, tick: u64)
    requires Present(e)
  {
    && Timely(e.capacity.value.observedTick, p.maxCapacityAge, tick)
    && Timely(e.reservations.value.observedTick, p.maxReservationAge, tick)
    && Timely(e.admissions.value.observedTick, p.maxAdmissionAge, tick)
  }

  predicate WithinBounds(p: Policy, e: Evidence)
    requires Present(e)
  {
    && |e.capacity.value.resources| <= HARD_MAX_RESOURCES
    && |e.reservations.value.guarantees| <= p.limits.maxGuarantees
    && |e.reservations.value.guarantees| <= HARD_MAX_RECORDS
    && |e.admissions.value.records| <= p.limits.maxDemandRecords
    && |e.admissions.value.records| <= HARD_MAX_RECORDS
    && DistinctBy(ResourceKey(), e.capacity.value.resources)
  }

  predicate ListedClass(p: Policy, c: u64) { exists s :: s in p.serviceClasses && s.id == c }

  /** A guarantee on a member of the domain protects something the policy knows, in the domain's pool. */
  predicate SoundGuarantee(p: Policy, d: DomainConfig, g: Guarantee) {
    g.resource in d.members ==>
      g.protectedObligation && !g.preemptible && g.pool == d.pool && ListedClass(p, g.serviceClass)
  }

  predicate SoundDemand(p: Policy, d: DomainConfig, x: Demand) {
    x.resource in d.members ==> x.pool == d.pool && ListedClass(p, x.serviceClass) && !x.kind.KindUnknown?
  }

  /** The records contradict neither each other nor the policy, and their sums fit. */
  predicate SoundRecords(p: Policy, d: DomainConfig, gs: seq<Guarantee>, ds: seq<Demand>) {
    && DistinctBy(GuaranteeKey(), gs) && (forall g :: g in gs ==> SoundGuarantee(p, d, g))
    && DistinctBy(DemandKey(), ds) && (forall x :: x in ds ==> SoundDemand(p, d, x))
    && GuaranteedUnits(d, gs) < U64_LIMIT && AdmittedUnits(d, ds) < U64_LIMIT
    && ContingentUnits(p, d, ds) < U64_LIMIT && PendingUnits(p, d, ds) < U64_LIMIT
  }

  predicate CapacityWithin(p: Policy, d: DomainConfig, rs: seq<ResourceCapacity>) {
    && SumBy(PhysicalAt(rs), d.members) <= p.limits.maxCapacityUnits
    && SumBy(UsableAt(rs), d.members) <= p.limits.maxCapacityUnits
  }

  /** Evidence a boundary may be computed from. */
  predicate Admissible(p: Policy, d: DomainConfig, x: Expectation, e: Evidence, tick: u64) {
    && Expected(p, d, x, e) && AllTimely(p, e, tick) && WithinBounds(p, e)
    && (forall id :: id in d.members ==> MemberKnown(d.pool, e.capacity.value.resources, id))
    && SoundRecords(p, d, e.reservations.value.guarantees, e.admissions.value.records)
    && CapacityWithin(p, d, e.capacity.value.resources)
  }

  // ------------------------------------------------------------ step by step

  lemma BoundWhenExpected(p: Policy, d: DomainConfig, x: Expectation, e: Evidence)
    ensures BindingFault(p, d, x, e).None? <==> Expected(p, d, x, e)
  {
  }

  lemma FreshWhenTimely(p: Policy, e: Evidence, tick: u64)
    requires Present(e)
    ensures FreshnessFault(p, e.capacity.value, e.reservations.value, e.admissions.value, tick).None?
            <==> AllTimely(p, e, tick)
  {
  }

  lemma BoundedWhenWithin(p: Policy, e: Evidence)
    requires Present(e)
    ensures BoundsFault(p.limits, e.capacity.value, e.reservations.value, e.admissions.value).None?
            <==> WithinBounds(p, e)
  {
    DistinctResourcesAre(e.capacity.value.resources);
    hide DistinctResources, DistinctBy;
  }

  lemma ListedIs(p: Policy, c: u64)
    ensures FindClass(p.serviceClasses, c).Some? <==> ListedClass(p, c)
  {
    hide FindClass;
  }

  lemma GuaranteeSound(p: Policy, d: DomainConfig, g: Guarantee)
    ensures GuaranteeInOrder(ScopeOf(p, d), g) <==> SoundGuarantee(p, d, g)
  {
    ListedIs(p, g.serviceClass);
    hide FindClass, ListedClass;
  }

  lemma DemandSound(p: Policy, d: DomainConfig, x: Demand)
    ensures DemandInOrder(ScopeOf(p, d), x) <==> SoundDemand(p, d, x)
  {
    ListedIs(p, x.serviceClass);
    hide FindClass, ListedClass;
  }

  /** A member's guarantees are part of the domain's. */
  lemma GuaranteePart(k: Scope, gs: seq<Guarantee>, r: u64)
    ensures GuaranteeTotal(k, GuaranteedOn(r), gs) <= GuaranteeTotal(k, GuaranteedAll, gs)
  {
    SumByMono(GuaranteeWeight(k, GuaranteedOn(r)), GuaranteeWeight(k, GuaranteedAll), gs, gs);
  }

  lemma GuaranteesSound(p: Policy, d: DomainConfig, gs: seq<Guarantee>)
    ensures GuaranteesFault(ScopeOf(p, d), gs).None?
            <==> && DistinctBy(GuaranteeKey(), gs) && (forall g :: g in gs ==> SoundGuarantee(p, d, g))
                 && GuaranteedUnits(d, gs) < U64_LIMIT
  {
    var k := ScopeOf(p, d);
    GuaranteeScan(k, gs);
    GuaranteedIs(p, d, gs);
    forall g: Guarantee
      ensures GuaranteeInOrder(k, g) <==> SoundGuarantee(p, d, g)
      ensures GuaranteeTotal(k, GuaranteedOn(g.resource), gs) <= GuaranteeTotal(k, GuaranteedAll, gs)
    {
      GuaranteeSound(p, d, g);
      GuaranteePart(k, gs, g.resource);
    }
    hide GuaranteeInOrder, SoundGuarantee, FirstGuaranteeFault, GuaranteeTotal, DistinctBy, GuaranteedUnits;
  }

  lemma DemandsSound(p: Policy, d: DomainConfig, ds: seq<Demand>)
    requires DistinctBy(ClassKey(), p.serviceClasses)
    ensures FirstDemandFault(ScopeOf(p, d), ds).None?
            <==> && DistinctBy(DemandKey(), ds) && (forall x :: x in ds ==> SoundDemand(p, d, x))
                 && AdmittedUnits(d, ds) < U64_LIMIT && ContingentUnits(p, d, ds) < U64_LIMIT
                 && PendingUnits(p, d, ds) < U64_LIMIT
  {
    var k := ScopeOf(p, d);
    DemandScan(k, ds);
    AdmittedIs(p, d, ds);
    ContingentIs(p, d, ds);
    forall x: Demand ensures DemandInOrder(k, x) <==> SoundDemand(p, d, x) { DemandSound(p, d, x); }
    hide DemandInOrder, SoundDemand, FirstDemandFault, DemandTotal, DistinctBy, AdmittedUnits, ContingentUnits,
      PendingUnits;
  }

  lemma RecordsSound(p: Policy, d: DomainConfig, gs: seq<Guarantee>, ds: seq<Demand>)
    requires DistinctBy(ClassKey(), p.serviceClasses)
    ensures OrElse(GuaranteesFault(ScopeOf(p, d), gs), FirstDemandFault(ScopeOf(p, d), ds)).None?
            <==> SoundRecords(p, d, gs, ds)
  {
    GuaranteesSound(p, d, gs);
    DemandsSound(p, d, ds);
    hide GuaranteesFault, FirstDemandFault, SoundGuarantee, SoundDemand, DistinctBy, GuaranteedUnits, AdmittedUnits,
      ContingentUnits, PendingUnits;
  }

  lemma MembersKnown(d: DomainConfig, rs: seq<ResourceCapacity>)
    ensures ResolveMembers(d.pool, rs, SortedMembers(d)).Ok?
            <==> forall id :: id in d.members ==> MemberKnown(d.pool, rs, id)
    ensures var r := ResolveMembers(d.pool, rs, SortedMembers(d)); r.Ok? ==> ResolvedTo(rs, SortedMembers(d), r.value)
  {
    MembersResolved(d.pool, rs, SortedMembers(d));
    SameMembers(SortedMembers(d), d.members);
    hide ResolveMembers, MemberKnown, Sort, ResolvedTo;
  }

  lemma LimitsHeld(p: Policy, d: DomainConfig, rs: seq<ResourceCapacity>, ms: seq<Member>)
    requires p.limits.maxCapacityUnits < U64_LIMIT - 1 && ResolvedTo(rs, SortedMembers(d), ms)
    ensures CapacityWithin(p, d, rs)
            <==> !(Saturated(SumBy(Physical(), ms)) > p.limits.maxCapacityUnits
                   || Saturated(SumBy(Usable(), ms)) > p.limits.maxCapacityUnits)
  {
    MemberTotals(d, rs, ms);
    hide SumBy, ResolvedTo, Sort;
  }

  lemma PolicyFacts(p: Policy)
    requires ValidPolicy(p)
    ensures DistinctBy(ClassKey(), p.serviceClasses) && p.limits.maxCapacityUnits < U64_LIMIT - 1
  {
  }

  /** Evidence is admitted exactly when it is admissible, and then its members are the domain's, with the
      units their health leaves. */
  lemma AdmittedIff(p: Policy, d: DomainConfig, x: Expectation, e: Evidence, tick: u64)
    requires ValidPolicy(p)
    ensures Admit(p, d, x, e, tick).Ok? <==> Admissible(p, d, x, e, tick)
    ensures Admit(p, d, x, e, tick).Ok? ==>
              var i := Admit(p, d, x, e, tick).value;
              && i.guarantees == e.reservations.value.guarantees && i.records == e.admissions.value.records
              && ResolvedTo(e.capacity.value.resources, SortedMembers(d), i.members)
  {
    PolicyFacts(p);
    BoundWhenExpected(p, d, x, e);
    if Expected(p, d, x, e) {
      var rs := e.capacity.value.resources;
      FreshWhenTimely(p, e, tick);
      BoundedWhenWithin(p, e);
      RecordsSound(p, d, e.reservations.value.guarantees, e.admissions.value.records);
      MembersKnown(d, rs);
      var r := ResolveMembers(d.pool, rs, SortedMembers(d));
      if r.Ok? {
        LimitsHeld(p, d, rs, r.value);
      }
    }
    hide BindingFault, FreshnessFault, BoundsFault, ResolveMembers, GuaranteesFault, FirstDemandFault, AllTimely,
      WithinBounds, MemberKnown, SoundRecords, CapacityWithin, ValidPolicy, SumBy, Saturated, SortedMembers, ResolvedTo,
      FullyExpected;
  }

  /** Expected evidence of which some snapshot is past its budget, and none is from the future, is stale. */
  lemma AgedIsStale(p: Policy, d: DomainConfig, x: Expectation, e: Evidence, tick: u64)
    requires Expected(p, d, x, e) && !AllTimely(p, e, tick)
    ensures var v := AssessEvidence(p, d, x, e, tick).verdict;
            var future := e.capacity.value.observedTick > tick || e.reservations.value.observedTick > tick
                          || e.admissions.value.observedTick > tick;
            && (v == Verdict(Stale, SNAPSHOT_STALE) || v == Verdict(ConflictingInput, EVIDENCE_FUTURE_DATED))
            && (!future ==> v.outcome.Stale?)
  {
    BoundWhenExpected(p, d, x, e);
    FreshWhenTimely(p, e, tick);
    hide BindingFault, BoundsFault, ResolveMembers, GuaranteesFault, FirstDemandFault, Assess;
  }
}
