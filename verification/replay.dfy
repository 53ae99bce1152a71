/** Rebuilding the runtime state from audit records (rebuild_from_audit in src/state.cpp). */
module Replay {
  import opened Checked
  import opened Wire
  import opened Model

  /** The position of a domain's runtime state. */
  function DomainIndex(ds: seq<DomainState>, id: u64): (r: Option<nat>)
    ensures r.Some? ==> r.value < |ds| && ds[r.value].domain == id
    ensures r.Some? ==> forall i :: 0 <= i < r.value ==> ds[i].domain != id
    ensures r.None? ==> forall i :: 0 <= i < |ds| ==> ds[i].domain != id
  {
    if ds == [] then None
    else
      match DomainIndex(ds[..|ds| - 1], id)
      case Some(i) => Some(i)
      case None => if ds[|ds| - 1].domain == id then Some(|ds| - 1) else None
  }

  datatype Skip = OutOfOrder | TableFull

  datatype Replayed = Replayed(state: DurableState, previous: u64, applied: nat, skips: seq<Skip>)

  /** What a record says about its domain. */
  function FromRecord(d: DomainState, r: AuditRecord): DomainState {
    d.(generation := r.domainGeneration, sticky := r.effective, lastRaw := r.raw, confirmations := r.confirmations,
       lastEscalationTick := r.lastEscalationTick, fenced := r.fenced,
       fenceReason := if r.fenced then r.reason else NO_REASON, fenceEpoch := r.epoch,
       lastDecision := r.decision, lastDecisionDigest := r.decisionDigest)
  }

  function FreshDomain(id: u64, generation: u64): DomainState {
    DomainState(id, generation, WithinPolicy, 0, 0, false, NO_REASON, 0, 0, ZeroDigest(), WithinPolicy)
  }

  function Put(ds: seq<DomainState>, r: AuditRecord): seq<DomainState> {
    match DomainIndex(ds, r.domain)
    case Some(i) => ds[i := FromRecord(ds[i], r)]
    case None => ds + [FromRecord(FreshDomain(r.domain, r.domainGeneration), r)]
  }

  function Larger(a: u64, b: u64): (r: u64)
    ensures r >= a && r >= b && (r == a || r == b)
  {
    if a < b then b else a
  }

  function Counted(s: DurableState, r: AuditRecord): DurableState {
    s.(decisionsIssued := Larger(s.decisionsIssued, r.id), tick := Larger(s.tick, r.tick),
       epoch := Larger(s.epoch, r.epoch))
  }

  function ReplayRecord(x: Replayed, r: AuditRecord): Replayed {
    if r.id <= x.previous then x.(skips := x.skips + [OutOfOrder])
    else if DomainIndex(x.state.domains, r.domain).None? && |x.state.domains| >= MAX_DOMAINS_STATE then
      x.(previous := r.id, skips := x.skips + [TableFull])
    else
      Replayed(Counted(x.state.(domains := Put(x.state.domains, r)), r), r.id, x.applied + 1, x.skips)
  }

  function Rebuild(s: DurableState, rs: seq<AuditRecord>): Replayed {
    if rs == [] then Replayed(s, 0, 0, [])
    else ReplayRecord(Rebuild(s, rs[..|rs| - 1]), rs[|rs| - 1])
  }

  /** The table index the program keeps: each domain's first position. */
  ghost predicate Indexes(index: map<u64, nat>, ds: seq<DomainState>) {
    && (forall id: u64 :: id in index <==> DomainIndex(ds, id).Some?)
    && (forall id: u64 :: id in index ==> DomainIndex(ds, id) == Some(index[id]))
  }

  /** The position of a domain once `d` has joined the table. */
  function IndexWith(ds: seq<DomainState>, d: DomainState, id: u64): Option<nat> {
    if DomainIndex(ds, id).Some? then DomainIndex(ds, id) else if d.domain == id then Some(|ds|) else None
  }

  lemma {:induction false} IndexGrows(ds: seq<DomainState>, d: DomainState, id: u64)
    ensures DomainIndex(ds + [d], id) == IndexWith(ds, d, id)
  {
    assert (ds + [d])[..|ds|] == ds;
  }

  lemma IndexGrowsAll(ds: seq<DomainState>, d: DomainState)
    ensures forall id: u64 :: DomainIndex(ds + [d], id) == IndexWith(ds, d, id)
  {
    forall id: u64 ensures DomainIndex(ds + [d], id) == IndexWith(ds, d, id) {
      IndexGrows(ds, d, id);
    }
  }

  /** Changing an entry in place moves no domain. */
  lemma {:induction false} IndexStays(ds: seq<DomainState>, i: nat, d: DomainState, id: u64)
    requires i < |ds| && d.domain == ds[i].domain
    ensures DomainIndex(ds[i := d], id) == DomainIndex(ds, id)
  {
    var es := ds[i := d];
    if i == |ds| - 1 {
      assert es[..|es| - 1] == ds[..|ds| - 1];
    } else {
      assert es[..|es| - 1] == ds[..|ds| - 1][i := d];
      IndexStays(ds[..|ds| - 1], i, d, id);
    }
  }

  method IndexDomains(ds: seq<DomainState>) returns (index: map<u64, nat>)
    ensures Indexes(index, ds)
  {
    index := map[];
    for i := 0 to |ds|
      invariant Indexes(index, ds[..i])
    {
      assert ds[..i + 1] == ds[..i] + [ds[i]];
      IndexGrowsAll(ds[..i], ds[i]);
      if ds[i].domain !in index {
        index := index[ds[i].domain := i];
      }
    }
    assert ds[..|ds|] == ds;
  }

  /** The replay loop: last writer wins, through an index that is maintained as domains appear. */
  method RebuildFromAudit(s: DurableState, rs: seq<AuditRecord>) returns (x: Replayed)
    ensures x == Rebuild(s, rs)
  {
    hide ReplayRecord, Indexes;
    var index: map<u64, nat> := IndexDomains(s.domains);
    x := Replayed(s, 0, 0, []);
    for n := 0 to |rs|
      invariant x == Rebuild(s, rs[..n])
      invariant Indexes(index, x.state.domains)
    {
      assert rs[..n + 1][..n] == rs[..n];
      x, index := ApplyRecord(x, index, rs[n]);
    }
    assert rs[..|rs|] == rs;
  }

  method ApplyRecord(x: Replayed, index: map<u64, nat>, r: AuditRecord) returns (x': Replayed, index': map<u64, nat>)
    requires Indexes(index, x.state.domains)
    ensures x' == ReplayRecord(x, r) && Indexes(index', x'.state.domains)
  {
    x', index' := x, index;
    if r.id <= x.previous {
      x' := x.(skips := x.skips + [OutOfOrder]);
      return;
    }
    var ds := x.state.domains;
    if r.domain !in index && |ds| >= MAX_DOMAINS_STATE {
      x' := x.(previous := r.id, skips := x.skips + [TableFull]);
      return;
    }
    ds, index' := Overwrite(index, ds, r);
    x' := Replayed(Counted(x.state.(domains := ds), r), r.id, x.applied + 1, x.skips);
  }

  method Overwrite(index: map<u64, nat>, ds: seq<DomainState>, r: AuditRecord)
    returns (ds': seq<DomainState>, index': map<u64, nat>)
    requires Indexes(index, ds)
    ensures ds' == Put(ds, r) && Indexes(index', ds')
  {
    ds', index' := ds, index;
    if r.domain !in index {
      index' := AddDomain(index, ds, r);
      ds' := ds + [FreshDomain(r.domain, r.domainGeneration)];
    }
    ds' := UpdateDomain(index', ds', r, index'[r.domain]);
  }

  method AddDomain(index: map<u64, nat>, ds: seq<DomainState>, r: AuditRecord) returns (index': map<u64, nat>)
    requires Indexes(index, ds) && r.domain !in index
    ensures Indexes(index', ds + [FreshDomain(r.domain, r.domainGeneration)])
    ensures index' == index[r.domain := |ds|]
  {
    var d := FreshDomain(r.domain, r.domainGeneration);
    IndexGrowsAll(ds, d);
    index' := index[r.domain := |ds|];
  }

  method UpdateDomain(index: map<u64, nat>, ds: seq<DomainState>, r: AuditRecord, i: nat) returns (ds': seq<DomainState>)
    requires Indexes(index, ds) && r.domain in index && i == index[r.domain]
    ensures i < |ds| && ds[i].domain == r.domain && ds' == ds[i := FromRecord(ds[i], r)]
    ensures Indexes(index, ds')
  {
    ds' := ds[i := FromRecord(ds[i], r)];
    forall id: u64 ensures DomainIndex(ds', id) == DomainIndex(ds, id) {
      IndexStays(ds, i, ds'[i], id);
    }
  }
}
