/** evaluate_domain() as the program runs it: indexed capacity, two accumulating scans over the records,
    running totals with a `closed` flag, and the per-resource view. Each stage is proved to compute what
    `Engine` says. */
module EngineLoops {
  import opened Checked
  import opened Wire
  import opened Model
  import opened Sums
  import opened Sorting
  import opened PolicyRules
  import opened Engine
  import opened Resources

  // ------------------------------------------------------- capacity by id

  ghost predicate IndexesCapacity(index: map<u64, ResourceCapacity>, rs: seq<ResourceCapacity>) {
    forall id: u64 :: FindResource(rs, id) == if id in index then Some(index[id]) else None
  }

  lemma {:induction false} FindSnoc(rs: seq<ResourceCapacity>, r: ResourceCapacity, id: u64)
    ensures FindResource(rs + [r], id)
            == if FindResource(rs, id).Some? then FindResource(rs, id) else if r.resource == id then Some(r) else None
  {
    if rs == [] {
      assert (rs + [r])[1..] == [];
    } else {
      assert (rs + [r])[1..] == rs[1..] + [r] && (rs + [r])[0] == rs[0];
      FindSnoc(rs[1..], r, id);
    }
  }

  lemma {:induction false} FindNone(rs: seq<ResourceCapacity>, id: u64)
    ensures FindResource(rs, id).None? <==> forall i :: 0 <= i < |rs| ==> rs[i].resource != id
  {
    if rs != [] {
      FindNone(rs[1..], id);
      assert forall i :: 1 <= i < |rs| ==> rs[i] == rs[1..][i - 1];
    }
  }

  lemma DistinctGrows(rs: seq<ResourceCapacity>, n: nat)
    requires n < |rs| && DistinctResources(rs[..n])
    ensures DistinctResources(rs[..n + 1]) <==> FindResource(rs[..n], rs[n].resource).None?
  {
    var init, r := rs[..n], rs[n];
    FindNone(init, r.resource);
    assert rs[..n + 1] == init + [r];
    if FindResource(init, r.resource).Some? {
      var i :| 0 <= i < n && init[i].resource == r.resource;
      assert rs[..n + 1][i].resource == rs[..n + 1][n].resource;
    }
  }

  method IndexCapacity(rs: seq<ResourceCapacity>) returns (distinct: bool, index: map<u64, ResourceCapacity>)
    ensures distinct == DistinctResources(rs)
    ensures distinct ==> IndexesCapacity(index, rs)
  {
    hide FindResource;
    index := map[];
    NothingFound();
    for n := 0 to |rs|
      invariant DistinctResources(rs[..n]) && IndexesCapacity(index, rs[..n])
    {
      DistinctGrows(rs, n);
      assert rs[..n + 1] == rs[..n] + [rs[n]];
      forall id: u64 ensures FindResource(rs[..n + 1], id)
        == if FindResource(rs[..n], id).Some? then FindResource(rs[..n], id)
           else if rs[n].resource == id then Some(rs[n]) else None
      {
        FindSnoc(rs[..n], rs[n], id);
      }
      if rs[n].resource in index {
        NotDistinctPrefix(rs, n + 1);
        return false, index;
      }
      index := index[rs[n].resource := rs[n]];
    }
    assert rs[..|rs|] == rs;
    distinct := true;
  }

  lemma NothingFound()
    ensures forall id: u64 :: FindResource([], id) == None
  {
  }

  lemma NotDistinctPrefix(rs: seq<ResourceCapacity>, n: nat)
    requires n <= |rs| && !DistinctResources(rs[..n])
    ensures !DistinctResources(rs)
  {
    var i, j :| 0 <= i < j < n && rs[..n][i].resource == rs[..n][j].resource;
    assert rs[i].resource == rs[j].resource;
  }

  // --------------------------------------------------------------- members

  method ResolveAll(pool: u64, ghost rs: seq<ResourceCapacity>, index: map<u64, ResourceCapacity>, ids: seq<u64>)
    returns (r: Result<seq<Member>>)
    requires IndexesCapacity(index, rs)
    ensures r == ResolveMembers(pool, rs, ids)
  {
    hide FindResource, EffectiveUsable;
    var members: seq<Member> := [];
    for n := 0 to |ids|
      invariant ResolveMembers(pool, rs, ids[..n]) == Ok(members)
    {
      assert ids[..n + 1][..n] == ids[..n];
      RejectionStays(pool, rs, ids, n + 1);
      if ids[n] !in index {
        return Rejected(Verdict(Unknown, RESOURCE_MISSING_FROM_CAPACITY_SNAPSHOT));
      }
      var rc := index[ids[n]];
      if rc.pool != pool {
        return Rejected(Verdict(ConflictingInput, RESOURCE_POOL_MISMATCH));
      }
      if rc.health.HealthUnknown? {
        return Rejected(Verdict(Unknown, RESOURCE_HEALTH_UNKNOWN));
      }
      var effective := EffectiveUsable(rc);
      if effective.None? {
        return Rejected(Verdict(Unknown, ARITHMETIC_OVERFLOW));
      }
      members := members + [Member(rc, effective.value)];
    }
    assert ids[..|ids|] == ids;
    return Ok(members);
  }

  lemma {:induction false} RejectionStays(pool: u64, rs: seq<ResourceCapacity>, ids: seq<u64>, n: nat)
    requires n <= |ids|
    ensures ResolveMembers(pool, rs, ids[..n]).Rejected? ==>
              ResolveMembers(pool, rs, ids) == ResolveMembers(pool, rs, ids[..n])
    decreases |ids| - n
  {
    hide ResolveMember;
    if n == |ids| {
      assert ids[..n] == ids;
    } else {
      assert ids[..n + 1][..n] == ids[..n];
      RejectionStays(pool, rs, ids, n + 1);
    }
  }

  // ------------------------------------------------------------ guarantees

  datatype Cell = Cell(resource: u64, class_: u64)

  function At<K>(m: map<K, u64>, key: K): u64 { if key in m then m[key] else 0 }

  /** The running sums of the guarantee scan. */
  datatype GuaranteeLedger = GuaranteeLedger(seen: set<u64>, on: map<u64, u64>, classes: map<Cell, u64>)

  ghost predicate Posted(k: Scope, gs: seq<Guarantee>, l: GuaranteeLedger) {
    && (forall id: u64 :: id in l.seen <==> HasReservation(gs, id))
    && (forall r: u64 :: At(l.on, r) == GuaranteeTotal(k, GuaranteedOn(r), gs))
    && (forall r: u64, c: u64 :: At(l.classes, Cell(r, c)) == GuaranteeTotal(k, GuaranteedFor(r, c), gs))
  }

  lemma ReservationSnoc(gs: seq<Guarantee>, g: Guarantee, id: u64)
    ensures HasReservation(gs + [g], id) <==> HasReservation(gs, id) || g.reservation == id
  {
    var all := gs + [g];
    if HasReservation(gs, id) {
      var i :| 0 <= i < |gs| && gs[i].reservation == id;
      assert all[i].reservation == id;
    }
    assert all[|gs|] == g;
  }

  lemma GuaranteeTotalSnoc(k: Scope, m: GuaranteeMeasure, gs: seq<Guarantee>, g: Guarantee)
    ensures GuaranteeTotal(k, m, gs + [g]) == GuaranteeTotal(k, m, gs) + GuaranteeWeight(k, m)(g)
  {
    SumBySnoc(GuaranteeWeight(k, m), gs, g);
  }

  /** No class has more on a resource than the resource has. */
  lemma ClassWithinResource(k: Scope, gs: seq<Guarantee>, r: u64, c: u64)
    ensures GuaranteeTotal(k, GuaranteedFor(r, c), gs) <= GuaranteeTotal(k, GuaranteedOn(r), gs)
  {
    SumByMono(GuaranteeWeight(k, GuaranteedFor(r, c)), GuaranteeWeight(k, GuaranteedOn(r)), gs, gs);
  }

  lemma PostedSnoc(k: Scope, gs: seq<Guarantee>, g: Guarantee, l: GuaranteeLedger, l': GuaranteeLedger)
    requires Posted(k, gs, l) && l'.seen == l.seen + {g.reservation}
    requires forall r: u64 :: At(l'.on, r) == At(l.on, r) + GuaranteeWeight(k, GuaranteedOn(r))(g)
    requires forall r: u64, c: u64 ::
               At(l'.classes, Cell(r, c)) == At(l.classes, Cell(r, c)) + GuaranteeWeight(k, GuaranteedFor(r, c))(g)
    ensures Posted(k, gs + [g], l')
  {
    forall id: u64 ensures id in l'.seen <==> HasReservation(gs + [g], id) {
      ReservationSnoc(gs, g, id);
    }
    forall r: u64 ensures At(l'.on, r) == GuaranteeTotal(k, GuaranteedOn(r), gs + [g]) {
      GuaranteeTotalSnoc(k, GuaranteedOn(r), gs, g);
    }
    forall r: u64, c: u64 ensures At(l'.classes, Cell(r, c)) == GuaranteeTotal(k, GuaranteedFor(r, c), gs + [g]) {
      GuaranteeTotalSnoc(k, GuaranteedFor(r, c), gs, g);
    }
  }

  /** One record: its checks in order, then its amounts. The second overflow check can never fail. */
  method PostGuarantee(k: Scope, ghost before: seq<Guarantee>, g: Guarantee, l: GuaranteeLedger)
    returns (fault: Fault, l': GuaranteeLedger)
    requires Posted(k, before, l)
    ensures fault == GuaranteeFault(k, before, g)
    ensures fault.None? ==> Posted(k, before + [g], l')
  {
    hide GuaranteeTotal, FindClass, HasReservation;
    l' := l;
    if g.reservation in l.seen {
      return Some(Verdict(ConflictingInput, GUARANTEE_DUPLICATE)), l;
    }
    l' := l.(seen := l.seen + {g.reservation});
    if g.resource !in k.members {
      PostedSnoc(k, before, g, l, l');
      return None, l';
    }
    if !g.protectedObligation || g.preemptible {
      return Some(Verdict(ConflictingInput, GUARANTEE_CONTRADICTION)), l;
    }
    if g.pool != k.pool {
      return Some(Verdict(ConflictingInput, RESOURCE_POOL_MISMATCH)), l;
    }
    if FindClass(k.classes, g.serviceClass).None? {
      return Some(Verdict(ConflictingInput, GUARANTEE_SERVICE_CLASS_UNKNOWN)), l;
    }
    var sum := AddChecked(At(l.on, g.resource), g.amount);
    if sum.None? {
      return Some(Verdict(Unknown, RESERVATION_SUM_OVERFLOW)), l;
    }
    var cell := Cell(g.resource, g.serviceClass);
    var part := AddChecked(At(l.classes, cell), g.amount);
    ClassWithinResource(k, before, g.resource, g.serviceClass);
    if part.None? {
      return Some(Verdict(Unknown, RESERVATION_SUM_OVERFLOW)), l;
    }
    l' := l'.(on := l.on[g.resource := sum.value], classes := l.classes[cell := part.value]);
    PostedSnoc(k, before, g, l, l');
    fault := None;
  }

  lemma {:induction false} FaultStays(k: Scope, gs: seq<Guarantee>, n: nat)
    requires n <= |gs|
    ensures FirstGuaranteeFault(k, gs[..n]).Some? ==> FirstGuaranteeFault(k, gs) == FirstGuaranteeFault(k, gs[..n])
    decreases |gs| - n
  {
    hide GuaranteeFault;
    if n == |gs| {
      assert gs[..n] == gs;
    } else {
      assert gs[..n + 1][..n] == gs[..n];
      FaultStays(k, gs, n + 1);
    }
  }

  lemma NothingPosted(k: Scope, l: GuaranteeLedger)
    requires l == GuaranteeLedger({}, map[], map[])
    ensures Posted(k, [], l)
  {
  }

  method ScanGuarantees(k: Scope, gs: seq<Guarantee>) returns (fault: Fault, l: GuaranteeLedger)
    ensures fault == FirstGuaranteeFault(k, gs)
    ensures fault.None? ==> Posted(k, gs, l)
  {
    hide GuaranteeFault, Posted;
    l := GuaranteeLedger({}, map[], map[]);
    NothingPosted(k, l);
    for n := 0 to |gs|
      invariant FirstGuaranteeFault(k, gs[..n]).None? && Posted(k, gs[..n], l)
    {
      fault, l := PostGuarantee(k, gs[..n], gs[n], l);
      assert gs[..n + 1][..n] == gs[..n] && gs[..n + 1] == gs[..n] + [gs[n]];
      FaultStays(k, gs, n + 1);
      if fault.Some? {
        return;
      }
    }
    assert gs[..|gs|] == gs;
    fault := None;
  }

  /** The domain total is the sum over the members. */
  method TotalGuarantees(k: Scope, gs: seq<Guarantee>, l: GuaranteeLedger, ids: seq<u64>) returns (total: Option<u64>)
    requires Posted(k, gs, l) && DistinctBy(IdKey(), ids) && forall r :: r in k.members ==> r in ids
    ensures total == if GuaranteeTotal(k, GuaranteedAll, gs) < U64_LIMIT then Some(GuaranteeTotal(k, GuaranteedAll, gs)) else None
  {
    GuaranteesByResource(k, gs, ids);
    hide GuaranteeTotal;
    var sum: u64 := 0;
    for n := 0 to |ids|
      invariant sum == SumBy(PartSum(GuaranteeBy(k), gs), ids[..n])
    {
      assert ids[..n + 1][..n] == ids[..n];
      PartIsTotal(k, gs, ids[n]);
      var next := AddChecked(sum, At(l.on, ids[n]));
      SumByPrefix(PartSum(GuaranteeBy(k), gs), ids, n + 1);
      if next.None? {
        return None;
      }
      sum := next.value;
    }
    assert ids[..|ids|] == ids;
    return Some(sum);
  }

  lemma PartIsTotal(k: Scope, gs: seq<Guarantee>, r: u64)
    ensures PartSum(GuaranteeBy(k), gs)(r) == GuaranteeTotal(k, GuaranteedOn(r), gs)
  {
  }
}
