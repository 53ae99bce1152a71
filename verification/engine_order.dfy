/** The order in which records, resources and members are listed does not matter. */
module OrderIndependence {
  import opened Checked
  import opened Model
  import opened Sums
  import opened Sorting
  import opened PolicyRules
  import opened Engine
  import opened Conservation

  // ----------------------------------------------- sums over rearrangements

  lemma {:induction false} SumBySame<T>(v: T -> nat, w: T -> nat, s: seq<T>)
    requires forall i :: 0 <= i < |s| ==> v(s[i]) == w(s[i])
    ensures SumBy(v, s) == SumBy(w, s)
  {
    if s != [] {
      SumBySame(v, w, s[..|s| - 1]);
    }
  }

  predicate SameScope(k: Scope, k': Scope) {
    k'.pool == k.pool && k'.classes == k.classes && multiset(k'.members) == multiset(k.members)
  }

  lemma GuaranteeTotalSame(k: Scope, k': Scope, m: GuaranteeMeasure, gs: seq<Guarantee>, gs': seq<Guarantee>)
    requires SameScope(k, k') && multiset(gs') == multiset(gs)
    ensures GuaranteeTotal(k', m, gs') == GuaranteeTotal(k, m, gs)
  {
    SameMembers(k.members, k'.members);
    SumBySame(GuaranteeWeight(k', m), GuaranteeWeight(k, m), gs');
    SumByPermutation(GuaranteeWeight(k, m), gs', gs);
  }

  lemma CountedSame(k: Scope, k': Scope, d: Demand)
    requires SameScope(k, k')
    ensures Counted(k', d) == Counted(k, d)
    ensures forall m :: WeightOf(k', m, d) == WeightOf(k, m, d)
  {
    SameMembers(k.members, k'.members);
  }

  lemma DemandTotalSame(k: Scope, k': Scope, m: DemandMeasure, ds: seq<Demand>, ds': seq<Demand>)
    requires SameScope(k, k') && multiset(ds') == multiset(ds)
    ensures DemandTotal(k', m, ds') == DemandTotal(k, m, ds)
  {
    forall i | 0 <= i < |ds'| ensures DemandWeight(k', m)(ds'[i]) == DemandWeight(k, m)(ds'[i]) {
      CountedSame(k, k', ds'[i]);
    }
    SumBySame(DemandWeight(k', m), DemandWeight(k, m), ds');
    SumByPermutation(DemandWeight(k, m), ds', ds);
  }

  // ------------------------------------------- what the scans accept, as sets

  predicate GuaranteeInOrder(k: Scope, g: Guarantee) {
    g.resource in k.members ==>
      g.protectedObligation && !g.preemptible && g.pool == k.pool && FindClass(k.classes, g.serviceClass).Some?
  }

  /** Nothing repeats, every record is in order, and no member's guarantees overflow. */
  predicate GuaranteesInOrder(k: Scope, gs: seq<Guarantee>) {
    && DistinctBy(GuaranteeKey(), gs)
    && forall g :: g in gs ==>
         && GuaranteeInOrder(k, g)
         && (g.resource in k.members ==> GuaranteeTotal(k, GuaranteedOn(g.resource), gs) < U64_LIMIT)
  }

  lemma GuaranteeSnoc(k: Scope, init: seq<Guarantee>, g: Guarantee, r: u64)
    ensures GuaranteeTotal(k, GuaranteedOn(r), init + [g])
            == GuaranteeTotal(k, GuaranteedOn(r), init) + (if g.resource in k.members
              && g.resource == r then g.amount else 0)
  {
    SumBySnoc(GuaranteeWeight(k, GuaranteedOn(r)), init, g);
  }

  lemma DistinctSnoc<T>(key: T -> int, s: seq<T>, x: T)
    ensures DistinctBy(key, s + [x]) <==> DistinctBy(key, s) && forall i :: 0 <= i < |s| ==> key(s[i]) != key(x)
  {
    var t := s + [x];
    if DistinctBy(key, t) {
      forall i | 0 <= i < |s| ensures key(s[i]) != key(x) {
        assert key(t[i]) != key(t[|s|]);
      }
      forall i, j | 0 <= i < j < |s| ensures key(s[i]) != key(s[j]) {
        assert key(t[i]) != key(t[j]);
      }
    }
  }

  /** The scan of the guarantees finds no fault exactly when they are in order, whatever the order. */
  lemma {:induction false} GuaranteeScan(k: Scope, gs: seq<Guarantee>)
    ensures FirstGuaranteeFault(k, gs).None? <==> GuaranteesInOrder(k, gs)
  {
    if gs != [] {
      var init, g := gs[..|gs| - 1], gs[|gs| - 1];
      assert gs == init + [g];
      GuaranteeScan(k, init);
      GuaranteeScanStep(k, init, g);
      hide GuaranteesInOrder, GuaranteeFault;
    }
  }

  lemma GuaranteeScanStep(k: Scope, init: seq<Guarantee>, g: Guarantee)
    ensures GuaranteesInOrder(k, init) && GuaranteeFault(k, init, g).None? <==> GuaranteesInOrder(k, init + [g])
  {
    var gs := init + [g];
    DistinctSnoc(GuaranteeKey(), init, g);
    GuaranteeSnoc(k, init, g, g.resource);
    assert HasReservation(init, g.reservation) <==> !forall i :: 0 <= i < |init| ==>
        GuaranteeKey()(init[i]) != g.reservation;
    assert g in gs && forall x :: x in gs <==> x in init || x == g;
    if GuaranteesInOrder(k, init) && GuaranteeFault(k, init, g).None? {
      forall x | x in gs && x.resource in k.members ensures GuaranteeTotal(k, GuaranteedOn(x.resource), gs) < U64_LIMIT {
        GuaranteeSnoc(k, init, g, x.resource);
      }
    }
    if GuaranteesInOrder(k, gs) {
      forall x | x in init && x.resource in k.members ensures GuaranteeTotal(k, GuaranteedOn(x.resource), init) < U64_LIMIT {
        GuaranteeSnoc(k, init, g, x.resource);
      }
    }
    hide GuaranteeTotal, FindClass;
  }

  predicate DemandInOrder(k: Scope, d: Demand) {
    d.resource in k.members ==>
      d.pool == k.pool && FindClass(k.classes, d.serviceClass).Some? && !d.kind.KindUnknown?
  }

  predicate DemandTotalsFit(k: Scope, ds: seq<Demand>) {
    && DemandTotal(k, AdmittedAll, ds) < U64_LIMIT && DemandTotal(k, ContingentAll, ds) < U64_LIMIT
    && DemandTotal(k, PendingAll, ds) < U64_LIMIT
  }

  predicate DemandsInOrder(k: Scope, ds: seq<Demand>) {
    DistinctBy(DemandKey(), ds) && (forall d :: d in ds ==> DemandInOrder(k, d)) && DemandTotalsFit(k, ds)
  }

  lemma {:induction false} DemandScan(k: Scope, ds: seq<Demand>)
    ensures FirstDemandFault(k, ds).None? <==> DemandsInOrder(k, ds)
  {
    if ds != [] {
      var init, d := ds[..|ds| - 1], ds[|ds| - 1];
      assert ds == init + [d];
      DemandScan(k, init);
      DemandScanStep(k, init, d);
      hide DemandsInOrder, DemandFault;
    }
  }

  lemma DemandScanStep(k: Scope, init: seq<Demand>, d: Demand)
    ensures DemandsInOrder(k, init) && DemandFault(k, init, d).None? <==> DemandsInOrder(k, init + [d])
  {
    var ds := init + [d];
    DistinctSnoc(DemandKey(), init, d);
    SumBySnoc(DemandWeight(k, AdmittedAll), init, d);
    SumBySnoc(DemandWeight(k, ContingentAll), init, d);
    SumBySnoc(DemandWeight(k, PendingAll), init, d);
    assert HasAdmission(init, d.admission) <==> !forall i :: 0 <= i < |init| ==> DemandKey()(init[i]) != d.admission;
    assert d in ds && forall x :: x in ds <==> x in init || x == d;
    assert d.resource !in k.members ==>
             WeightOf(k, AdmittedAll, d) == 0 && WeightOf(k, ContingentAll, d) == 0 && WeightOf(k, PendingAll, d) == 0;
    hide WeightOf, FindClass, SumBy;
  }

  // --------------------------------------------------- rearranged evidence

  lemma InOrderSame(k: Scope, k': Scope, gs: seq<Guarantee>, gs': seq<Guarantee>)
    requires SameScope(k, k') && multiset(gs') == multiset(gs) && GuaranteesInOrder(k, gs)
    ensures GuaranteesInOrder(k', gs')
  {
    DistinctPermutation(GuaranteeKey(), gs, gs');
    SameMembers(gs, gs');
    SameMembers(k.members, k'.members);
    forall g | g in gs' && g.resource in k'.members
      ensures GuaranteeTotal(k', GuaranteedOn(g.resource), gs') < U64_LIMIT
    {
      GuaranteeTotalSame(k, k', GuaranteedOn(g.resource), gs, gs');
    }
    hide GuaranteeTotal, FindClass;
  }

  lemma DemandsInOrderSame(k: Scope, k': Scope, ds: seq<Demand>, ds': seq<Demand>)
    requires SameScope(k, k') && multiset(ds') == multiset(ds) && DemandsInOrder(k, ds)
    ensures DemandsInOrder(k', ds')
  {
    DistinctPermutation(DemandKey(), ds, ds');
    SameMembers(ds, ds');
    SameMembers(k.members, k'.members);
    DemandTotalSame(k, k', AdmittedAll, ds, ds');
    DemandTotalSame(k, k', ContingentAll, ds, ds');
    DemandTotalSame(k, k', PendingAll, ds, ds');
    hide DemandTotal, FindClass;
  }

  lemma DistinctResourcesAre(rs: seq<ResourceCapacity>)
    ensures DistinctResources(rs) <==> DistinctBy(ResourceKey(), rs)
  {
    if DistinctResources(rs) {
      forall i, j | 0 <= i < j < |rs| ensures ResourceKey()(rs[i]) != ResourceKey()(rs[j]) {
        assert rs[i].resource != rs[j].resource;
      }
    }
    if DistinctBy(ResourceKey(), rs) {
      forall i, j | 0 <= i < j < |rs| ensures rs[i].resource != rs[j].resource {
        assert ResourceKey()(rs[i]) != ResourceKey()(rs[j]);
      }
    }
  }

  lemma {:induction false} FindComplete(rs: seq<ResourceCapacity>, id: u64)
    ensures FindResource(rs, id).None? ==> forall r :: r in rs ==> r.resource != id
  {
    if rs != [] {
      FindComplete(rs[1..], id);
    }
  }

  lemma FindSame(rs: seq<ResourceCapacity>, rs': seq<ResourceCapacity>, id: u64)
    requires multiset(rs') == multiset(rs) && DistinctResources(rs)
    ensures FindResource(rs', id) == FindResource(rs, id)
  {
    SameMembers(rs, rs');
    FindComplete(rs, id);
    FindComplete(rs', id);
    if FindResource(rs, id).Some? && FindResource(rs', id).Some? {
      var a, b := FindResource(rs, id).value, FindResource(rs', id).value;
      var i :| 0 <= i < |rs| && rs[i] == a;
      var j :| 0 <= j < |rs| && rs[j] == b;
    }
  }

  lemma {:induction false} ResolveSame(pool: u64, rs: seq<ResourceCapacity>, rs': seq<ResourceCapacity>, ids: seq<u64>)
    requires multiset(rs') == multiset(rs) && DistinctResources(rs)
    ensures ResolveMembers(pool, rs', ids) == ResolveMembers(pool, rs, ids)
  {
    if ids != [] {
      ResolveSame(pool, rs, rs', ids[..|ids| - 1]);
      FindSame(rs, rs', ids[|ids| - 1]);
    }
  }

  /** The same domain and evidence with members, resources, guarantees and records listed otherwise. */
  predicate Rearranged(d: DomainConfig, d': DomainConfig, e: Evidence, e': Evidence) {
    && d' == d.(members := d'.members) && multiset(d'.members) == multiset(d.members)
    && e.capacity.Some? && e'.capacity.Some? && e.reservations.Some? && e'.reservations.Some?
    && e.admissions.Some? && e'.admissions.Some?
    && var (c, c') := (e.capacity.value, e'.capacity.value);
    && c' == c.(resources := c'.resources) && multiset(c'.resources) == multiset(c.resources)
    && var (r, r') := (e.reservations.value, e'.reservations.value);
    && r' == r.(guarantees := r'.guarantees) && multiset(r'.guarantees) == multiset(r.guarantees)
    && var (a, a') := (e.admissions.value, e'.admissions.value);
    && a' == a.(records := a'.records) && multiset(a'.records) == multiset(a.records)
  }

  /** The part of admission that looks at single records. */
  predicate RecordsInOrder(policy: Policy, d: DomainConfig, e: Evidence)
    requires e.reservations.Some? && e.admissions.Some?
  {
    && GuaranteesFault(ScopeOf(policy, d), e.reservations.value.guarantees).None?
    && FirstDemandFault(ScopeOf(policy, d), e.admissions.value.records).None?
  }

  lemma RecordsInOrderSame(policy: Policy, d: DomainConfig, d': DomainConfig, e: Evidence, e': Evidence)
    requires Rearranged(d, d', e, e') && RecordsInOrder(policy, d, e)
    ensures RecordsInOrder(policy, d', e')
  {
    var k, k' := ScopeOf(policy, d), ScopeOf(policy, d');
    var gs, gs' := e.reservations.value.guarantees, e'.reservations.value.guarantees;
    var ds, ds' := e.admissions.value.records, e'.admissions.value.records;
    GuaranteeScan(k, gs);
    GuaranteeScan(k', gs');
    InOrderSame(k, k', gs, gs');
    GuaranteeTotalSame(k, k', GuaranteedAll, gs, gs');
    DemandScan(k, ds);
    DemandScan(k', ds');
    DemandsInOrderSame(k, k', ds, ds');
    hide FirstGuaranteeFault, FirstDemandFault, GuaranteesInOrder, DemandsInOrder, GuaranteeTotal;
  }

  lemma RearrangedBack(d: DomainConfig, d': DomainConfig, e: Evidence, e': Evidence)
    requires Rearranged(d, d', e, e')
    ensures Rearranged(d', d, e', e)
  {
  }

  lemma SameBinding(policy: Policy, d: DomainConfig, d': DomainConfig, x: Expectation, e: Evidence, e': Evidence)
    requires Rearranged(d, d', e, e')
    ensures BindingFault(policy, d', x, e') == BindingFault(policy, d, x, e)
  {
    hide GenerationFault;
  }

  lemma SameFreshness(policy: Policy, d: DomainConfig, d': DomainConfig, e: Evidence, e': Evidence, tick: u64)
    requires Rearranged(d, d', e, e')
    ensures FreshnessFault(policy, e'.capacity.value, e'.reservations.value, e'.admissions.value, tick)
            == FreshnessFault(policy, e.capacity.value, e.reservations.value, e.admissions.value, tick)
  {
    hide AgeFault;
  }

  lemma SameBounds(l: Limits, d: DomainConfig, d': DomainConfig, e: Evidence, e': Evidence)
    requires Rearranged(d, d', e, e')
    ensures BoundsFault(l, e'.capacity.value, e'.reservations.value, e'.admissions.value)
            == BoundsFault(l, e.capacity.value, e.reservations.value, e.admissions.value)
  {
    SameMembers(e.capacity.value.resources, e'.capacity.value.resources);
    SameMembers(e.reservations.value.guarantees, e'.reservations.value.guarantees);
    SameMembers(e.admissions.value.records, e'.admissions.value.records);
    SameDistinct(e.capacity.value.resources, e'.capacity.value.resources);
    hide DistinctResources;
  }

  /** Everything before the record scans sees the same thing. */
  lemma SameFront(policy: Policy, d: DomainConfig, d': DomainConfig, x: Expectation, e: Evidence, e': Evidence, tick: u64)
    requires Rearranged(d, d', e, e') && DistinctBy(IdKey(), d.members)
    ensures BindingFault(policy, d', x, e') == BindingFault(policy, d, x, e)
    ensures var c, r, a := e.capacity.value, e.reservations.value, e.admissions.value;
            var c', r', a' := e'.capacity.value, e'.reservations.value, e'.admissions.value;
            && FreshnessFault(policy, c', r', a', tick) == FreshnessFault(policy, c, r, a, tick)
            && BoundsFault(policy.limits, c', r', a') == BoundsFault(policy.limits, c, r, a)
            && (DistinctResources(c.resources) ==>
                  ResolveMembers(d'.pool, c'.resources, SortedMembers(d')) == ResolveMembers(d.pool, c.resources, SortedMembers(d)))
  {
    hide BindingFault, FreshnessFault, BoundsFault, DistinctResources, ResolveMembers, SortedMembers;
    SameBinding(policy, d, d', x, e, e');
    SameFreshness(policy, d, d', e, e', tick);
    SameBounds(policy.limits, d, d', e, e');
    SameSortedMembers(d, d');
    if DistinctResources(e.capacity.value.resources) {
      ResolveSame(d.pool, e.capacity.value.resources, e'.capacity.value.resources, SortedMembers(d));
    }
  }

  lemma SameDistinct(rs: seq<ResourceCapacity>, rs': seq<ResourceCapacity>)
    requires multiset(rs') == multiset(rs)
    ensures DistinctResources(rs') <==> DistinctResources(rs)
  {
    DistinctResourcesAre(rs);
    DistinctResourcesAre(rs');
    if DistinctBy(ResourceKey(), rs) {
      DistinctPermutation(ResourceKey(), rs, rs');
    }
    if DistinctBy(ResourceKey(), rs') {
      DistinctPermutation(ResourceKey(), rs', rs);
    }
  }

  lemma SameSortedMembers(d: DomainConfig, d': DomainConfig)
    requires multiset(d'.members) == multiset(d.members) && DistinctBy(IdKey(), d.members)
    ensures SortedMembers(d') == SortedMembers(d)
  {
    forall i, j | 0 <= i < j < |d.members| ensures IdKey()(d.members[i]) != IdKey()(d.members[j]) {
      assert IdKey()(d.members[i]) != IdKey()(d.members[j]);
    }
    SortPermutation(IdKey(), d.members, d'.members);
  }

  // --------------------------------------------------------- the cascade

  lemma UnbackedSame(k: Scope, k': Scope, gs: seq<Guarantee>, gs': seq<Guarantee>, ds: seq<Demand>, ds': seq<Demand>)
    requires SameScope(k, k') && multiset(gs') == multiset(gs) && multiset(ds') == multiset(ds) && Unbacked(k, gs, ds)
    ensures Unbacked(k', gs', ds')
  {
    var i :| 0 <= i < |ds|
      && DemandTotal(k, AdmittedFor(ds[i].resource, ds[i].serviceClass), ds)
         > GuaranteeTotal(k, GuaranteedFor(ds[i].resource, ds[i].serviceClass), gs);
    SameMembers(ds, ds');
    assert ds[i] in ds';
    var j :| 0 <= j < |ds'| && ds'[j] == ds[i];
    DemandTotalSame(k, k', AdmittedFor(ds[i].resource, ds[i].serviceClass), ds, ds');
    GuaranteeTotalSame(k, k', GuaranteedFor(ds[i].resource, ds[i].serviceClass), gs, gs');
  }

  lemma UncoveredSame(k: Scope, k': Scope, ms: seq<Member>, gs: seq<Guarantee>, gs': seq<Guarantee>)
    requires SameScope(k, k') && multiset(gs') == multiset(gs)
    ensures GuaranteesUncovered(k', ms, gs') == GuaranteesUncovered(k, ms, gs)
  {
    forall r ensures GuaranteeTotal(k', GuaranteedOn(r), gs') == GuaranteeTotal(k, GuaranteedOn(r), gs) {
      GuaranteeTotalSame(k, k', GuaranteedOn(r), gs, gs');
    }
    hide GuaranteeTotal;
  }

  lemma HasContingentSame(k: Scope, k': Scope, ds: seq<Demand>, ds': seq<Demand>, c: u64)
    requires SameScope(k, k') && multiset(ds') == multiset(ds) && HasContingent(k, ds, c)
    ensures HasContingent(k', ds', c)
  {
    var i :| 0 <= i < |ds| && Counted(k, ds[i]) && ds[i].serviceClass == c;
    SameMembers(ds, ds');
    assert ds[i] in ds';
    var j :| 0 <= j < |ds'| && ds'[j] == ds[i];
    CountedSame(k, k', ds[i]);
  }

  lemma SameScopeBack(k: Scope, k': Scope)
    requires SameScope(k, k')
    ensures SameScope(k', k)
  {
  }

  lemma {:induction false} ShareSame(k: Scope, k': Scope, ds: seq<Demand>, ds': seq<Demand>, ceiling: u64, cs: seq<ServiceClass>)
    requires SameScope(k, k') && multiset(ds') == multiset(ds)
    ensures ShareFault(k', ds', ceiling, cs) == ShareFault(k, ds, ceiling, cs)
  {
    if cs != [] {
      var c := cs[|cs| - 1];
      ShareSame(k, k', ds, ds', ceiling, cs[..|cs| - 1]);
      DemandTotalSame(k, k', ContingentOf(c.id), ds, ds');
      SameScopeBack(k, k');
      if HasContingent(k, ds, c.id) {
        HasContingentSame(k, k', ds, ds', c.id);
      }
      if HasContingent(k', ds', c.id) {
        HasContingentSame(k', k, ds', ds, c.id);
      }
      hide DemandTotal, HasContingent, SameScope;
    }
  }

  lemma DecideSame(policy: Policy, d: DomainConfig, d': DomainConfig, k: Scope, k': Scope, ms: seq<Member>,
                   gs: seq<Guarantee>, gs': seq<Guarantee>, ds: seq<Demand>, ds': seq<Demand>, a: Accounting)
    requires SameScope(k, k') && multiset(gs') == multiset(gs) && multiset(ds') == multiset(ds)
    requires d' == d.(members := d'.members)
    ensures Decide(policy, d', k', ms, gs', ds', a) == Decide(policy, d, k, ms, gs, ds, a)
  {
    SameScopeBack(k, k');
    if Unbacked(k, gs, ds) {
      UnbackedSame(k, k', gs, gs', ds, ds');
    }
    if Unbacked(k', gs', ds') {
      UnbackedSame(k', k, gs', gs, ds', ds);
    }
    DemandTotalSame(k, k', IneligibleAll, ds, ds');
    UncoveredSame(k, k', ms, gs, gs');
    ShareSame(k, k', ds, ds', a.contingentCeiling, k.classes);
    hide Unbacked, GuaranteesUncovered, ShareFault, DemandTotal, OveragePpm;
  }

  lemma LoadsSame(k: Scope, k': Scope, ms: seq<Member>, gs: seq<Guarantee>, gs': seq<Guarantee>,
                  ds: seq<Demand>, ds': seq<Demand>)
    requires SameScope(k, k') && multiset(gs') == multiset(gs) && multiset(ds') == multiset(ds)
    ensures LoadsOf(k', ms, gs', ds') == LoadsOf(k, ms, gs, ds)
  {
    GuaranteeTotalSame(k, k', GuaranteedAll, gs, gs');
    DemandTotalSame(k, k', ContingentAll, ds, ds');
    DemandTotalSame(k, k', PendingAll, ds, ds');
    DemandTotalSame(k, k', BurstAll, ds, ds');
    DemandTotalSame(k, k', AdmittedAll, ds, ds');
    hide GuaranteeTotal, DemandTotal;
  }

  lemma BoundarySame(policy: Policy, d: DomainConfig, d': DomainConfig, impaired: bool, l: Loads)
    requires d' == d.(members := d'.members)
    ensures Boundary(policy, d', impaired, l) == Boundary(policy, d, impaired, l)
  {
    assert forall b :: EffectiveRatio(policy, d', b) == EffectiveRatio(policy, d, b);
  }

  lemma AssessSame(policy: Policy, d: DomainConfig, d': DomainConfig, i: Inputs, i': Inputs)
    requires d' == d.(members := d'.members) && multiset(d'.members) == multiset(d.members)
    requires i'.members == i.members && multiset(i'.guarantees) == multiset(i.guarantees)
    requires multiset(i'.records) == multiset(i.records)
    ensures Assess(policy, d', i') == Assess(policy, d, i)
  {
    var k, k' := ScopeOf(policy, d), ScopeOf(policy, d');
    var l := LoadsOf(k, i.members, i.guarantees, i.records);
    LoadsSame(k, k', i.members, i.guarantees, i'.guarantees, i.records, i'.records);
    BoundarySame(policy, d, d', Impaired(i.members), l);
    if Boundary(policy, d, Impaired(i.members), l).Some? {
      DecideSame(policy, d, d', k, k', i.members, i.guarantees, i'.guarantees, i.records, i'.records,
                 Boundary(policy, d, Impaired(i.members), l).value);
    }
    hide Boundary, Decide, LoadsOf;
  }

  // ----------------------------------------------------------- the theorem

  lemma AdmitSame(policy: Policy, d: DomainConfig, d': DomainConfig, x: Expectation, e: Evidence, e': Evidence, tick: u64)
    requires Rearranged(d, d', e, e') && DistinctBy(IdKey(), d.members)
    requires RecordsInOrder(policy, d, e) && RecordsInOrder(policy, d', e')
    ensures var r, r' := Admit(policy, d, x, e, tick), Admit(policy, d', x, e', tick);
            && (r.Rejected? ==> r' == r)
            && (r.Ok? ==> r'.Ok? && r'.value == Inputs(r.value.members, e'.reservations.value.guarantees, e'.admissions.value.records)
                          && r.value == Inputs(r.value.members, e.reservations.value.guarantees, e.admissions.value.records))
  {
    SameFront(policy, d, d', x, e, e', tick);
    BoundsMeanDistinct(policy.limits, e);
    hide BindingFault, FreshnessFault, BoundsFault, ResolveMembers, GuaranteesFault, FirstDemandFault, SortedMembers,
      DistinctResources;
  }

  lemma BoundsMeanDistinct(l: Limits, e: Evidence)
    requires e.capacity.Some? && e.reservations.Some? && e.admissions.Some?
    ensures BoundsFault(l, e.capacity.value, e.reservations.value, e.admissions.value).None?
            ==> DistinctResources(e.capacity.value.resources)
  {
  }

  /** With every record in order the whole evaluation is the same, rejections included. */
  lemma SameEvaluation(policy: Policy, d: DomainConfig, d': DomainConfig, x: Expectation, e: Evidence, e': Evidence, tick: u64)
    requires Rearranged(d, d', e, e') && DistinctBy(IdKey(), d.members) && RecordsInOrder(policy, d, e)
    ensures Evaluate(policy, d', x, e', tick) == Evaluate(policy, d, x, e, tick)
  {
    RecordsInOrderSame(policy, d, d', e, e');
    AdmitSame(policy, d, d', x, e, e', tick);
    SameFront(policy, d, d', x, e, e', tick);
    hide Admit, RecordsInOrder, BindingFault, FreshnessFault, BoundsFault;
    if Admit(policy, d, x, e, tick).Ok? {
      AssessSame(policy, d, d', Admit(policy, d, x, e, tick).value, Admit(policy, d', x, e', tick).value);
    }
    hide Assess, Finalize;
  }

  /** Records out of order are rejected in every arrangement. */
  lemma OutOfOrderRejected(policy: Policy, d: DomainConfig, x: Expectation, e: Evidence, tick: u64)
    requires e.reservations.Some? && e.admissions.Some? && !RecordsInOrder(policy, d, e)
    ensures !Evaluate(policy, d, x, e, tick).authorityValid
  {
    RejectionWithholds(policy, d, x, e, tick);
    OutOfOrderNotAdmitted(policy, d, x, e, tick);
    hide Admit;
  }

  lemma OutOfOrderNotAdmitted(policy: Policy, d: DomainConfig, x: Expectation, e: Evidence, tick: u64)
    requires e.reservations.Some? && e.admissions.Some? && !RecordsInOrder(policy, d, e)
    ensures Admit(policy, d, x, e, tick).Rejected?
  {
    hide BindingFault, FreshnessFault, BoundsFault, ResolveMembers, GuaranteesFault, FirstDemandFault, SortedMembers;
  }

  /** However members, resources, guarantees and records are listed: the result is authoritative in one
      arrangement exactly when it is in every other, and unless some record is rejected the result is the
      same in all of them. */
  lemma OrderDoesNotMatter(policy: Policy, d: DomainConfig, d': DomainConfig, x: Expectation, e: Evidence, e': Evidence, tick: u64)
    requires ValidPolicy(policy) && d in policy.domains && Rearranged(d, d', e, e')
    ensures Evaluate(policy, d', x, e', tick).authorityValid == Evaluate(policy, d, x, e, tick).authorityValid
    ensures RecordsInOrder(policy, d', e') == RecordsInOrder(policy, d, e)
    ensures RecordsInOrder(policy, d, e) ==> Evaluate(policy, d', x, e', tick) == Evaluate(policy, d, x, e, tick)
  {
    ValidPolicyIsSound(policy, d);
    hide ValidPolicy, Evaluate, RecordsInOrder;
    RearrangedBack(d, d', e, e');
    if RecordsInOrder(policy, d, e) {
      RecordsInOrderSame(policy, d, d', e, e');
      SameEvaluation(policy, d, d', x, e, e', tick);
    } else {
      if RecordsInOrder(policy, d', e') {
        RecordsInOrderSame(policy, d', d, e', e);
      }
      OutOfOrderRejected(policy, d, x, e, tick);
      OutOfOrderRejected(policy, d', x, e', tick);
    }
  }
}
