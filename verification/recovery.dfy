/** After a crash the runtime comes back as it was, up to what the audit records cannot carry. */
module Recovery {
  import opened Checked
  import opened Wire
  import opened Model
  import opened Replay
  import opened Governing

  // -------------------------------------------------------------- suffixes

  predicate SuffixOf<T(==)>(s: seq<T>, t: seq<T>) { |s| <= |t| && s == t[|t| - |s|..] }

  lemma NewestSuffix<T>(s: seq<T>, t: seq<T>, n: nat)
    requires SuffixOf(s, t)
    ensures SuffixOf(Newest(s, n), t)
  {
  }

  lemma SuffixGrows<T>(s: seq<T>, t: seq<T>, x: T)
    requires SuffixOf(s, t)
    ensures SuffixOf(s + [x], t + [x])
  {
  }

  // ------------------------------------------------- what a record describes

  function Last(rs: seq<AuditRecord>, id: u64): (r: Option<AuditRecord>)
    ensures r.Some? ==> r.value in rs && r.value.domain == id
    ensures r.None? <==> forall x :: x in rs ==> x.domain != id
  {
    if rs == [] then None
    else if rs[|rs| - 1].domain == id then Some(rs[|rs| - 1])
    else Last(rs[..|rs| - 1], id)
  }

  lemma {:induction false} LastConcat(a: seq<AuditRecord>, b: seq<AuditRecord>, id: u64)
    ensures Last(a + b, id) == if Last(b, id).Some? then Last(b, id) else Last(a, id)
    decreases |b|
  {
    if b == [] {
      assert a + b == a;
    } else {
      assert (a + b)[..|a + b| - 1] == a + b[..|b| - 1];
      LastConcat(a, b[..|b| - 1], id);
    }
  }

  /** `d` is what `r` left behind, except that a record carries the announced outcome instead of an
      unconfirmed AT_LIMIT and an epoch whether or not the domain is fenced. */
  predicate Described(d: DomainState, r: AuditRecord) {
    && d.domain == r.domain
    && FromRecord(d, r) == d.(sticky := r.effective, fenceEpoch := r.epoch)
    && (d.sticky != r.effective ==> d.sticky.AtLimit? && r.raw.AtLimit? && r.effective.WithinPolicy?)
    && (d.fenced ==> d.fenceEpoch == r.epoch)
  }

  /** The domain's last change was the evaluation its last record describes. */
  predicate Evaluated(log: seq<AuditRecord>, d: DomainState) {
    Last(log, d.domain).Some? && Described(d, Last(log, d.domain).value)
  }

  /** Equal except for the epoch of a fence that is not there and an AT_LIMIT not yet announced. */
  predicate SameUpToRecord(a: DomainState, b: DomainState) {
    && b == a.(sticky := b.sticky, fenceEpoch := b.fenceEpoch)
    && (b.fenceEpoch != a.fenceEpoch ==> !a.fenced)
    && (b.sticky != a.sticky ==> a.lastRaw.AtLimit? && Severity(a.sticky) < 2 && Severity(b.sticky) < 2)
  }

  lemma SameDescription(a: DomainState, b: DomainState, r: AuditRecord)
    requires Described(a, r) && Described(b, r)
    ensures SameUpToRecord(a, b)
  {
  }

  lemma RecordDescribes(base: DomainState, r: AuditRecord)
    requires base.domain == r.domain
    ensures Described(FromRecord(base, r), r)
  {
  }

  // ------------------------------------------------------ tables of domains

  function Ids(ds: seq<DomainState>): (ids: seq<u64>)
    ensures |ids| == |ds| && forall i :: 0 <= i < |ds| ==> ids[i] == ds[i].domain
  {
    seq(|ds|, i requires 0 <= i < |ds| => ds[i].domain)
  }

  function IdsWith(ids: seq<u64>, id: u64): seq<u64> { if id in ids then ids else ids + [id] }

  function IdsAfter(ids: seq<u64>, rs: seq<AuditRecord>): seq<u64> {
    if rs == [] then ids else IdsWith(IdsAfter(ids, rs[..|rs| - 1]), rs[|rs| - 1].domain)
  }

  predicate Distinct(ids: seq<u64>) { forall i, j :: 0 <= i < j < |ids| ==> ids[i] != ids[j] }

  lemma {:induction false} IdsAfterConcat(ids: seq<u64>, a: seq<AuditRecord>, b: seq<AuditRecord>)
    ensures IdsAfter(ids, a + b) == IdsAfter(IdsAfter(ids, a), b)
    decreases |b|
  {
    if b == [] {
      assert a + b == a;
    } else {
      assert (a + b)[..|a + b| - 1] == a + b[..|b| - 1];
      IdsAfterConcat(ids, a, b[..|b| - 1]);
    }
  }

  lemma {:induction false} IdsAfterKnown(ids: seq<u64>, rs: seq<AuditRecord>)
    requires forall r :: r in rs ==> r.domain in ids
    ensures IdsAfter(ids, rs) == ids
  {
    if rs != [] {
      assert rs[|rs| - 1] in rs;
      IdsAfterKnown(ids, rs[..|rs| - 1]);
    }
  }

  lemma {:induction false} IdsAfterGrows(ids: seq<u64>, rs: seq<AuditRecord>)
    ensures ids <= IdsAfter(ids, rs)
    ensures forall r :: r in rs ==> r.domain in IdsAfter(ids, rs)
    ensures Distinct(ids) ==> Distinct(IdsAfter(ids, rs))
  {
    if rs != [] {
      IdsAfterGrows(ids, rs[..|rs| - 1]);
      forall r | r in rs ensures r.domain in IdsAfter(ids, rs) {
        assert r == rs[|rs| - 1] || r in rs[..|rs| - 1];
      }
    }
  }

  lemma IndexKnown(ds: seq<DomainState>, id: u64)
    ensures DomainIndex(ds, id).Some? <==> id in Ids(ds)
  {
    if id in Ids(ds) {
      var i :| 0 <= i < |ds| && Ids(ds)[i] == id;
      assert ds[i].domain == id;
    }
  }

  lemma PutIds(ds: seq<DomainState>, r: AuditRecord)
    ensures Ids(Put(ds, r)) == IdsWith(Ids(ds), r.domain)
  {
    IndexKnown(ds, r.domain);
  }

  lemma EnterIds(ds: seq<DomainState>, d: DomainState)
    ensures Ids(Enter(ds, d)) == IdsWith(Ids(ds), d.domain)
  {
    IndexKnown(ds, d.domain);
  }

  // ----------------------------------------------------- replaying a journal

  predicate Ascending(rs: seq<AuditRecord>) {
    (forall i :: 0 <= i < |rs| ==> rs[i].id > 0) && forall i, j :: 0 <= i < j < |rs| ==> rs[i].id < rs[j].id
  }

  /** With ascending ids and room in the table no record is skipped. */
  lemma {:induction false} NothingSkipped(s: DurableState, rs: seq<AuditRecord>)
    requires Ascending(rs) && |IdsAfter(Ids(s.domains), rs)| <= MAX_DOMAINS_STATE
    ensures var x := Rebuild(s, rs);
            && x.skips == [] && x.applied == |rs| && Ids(x.state.domains) == IdsAfter(Ids(s.domains), rs)
            && x.previous == (if rs == [] then 0 else rs[|rs| - 1].id)
  {
    if rs != [] {
      var init, r := rs[..|rs| - 1], rs[|rs| - 1];
      var x := Rebuild(s, init);
      NothingSkipped(s, init);
      PutIds(x.state.domains, r);
      IndexKnown(x.state.domains, r.domain);
    }
  }

  lemma {:induction false} RebuildKeeps(s: DurableState, rs: seq<AuditRecord>)
    ensures var t := Rebuild(s, rs).state;
            t == s.(domains := t.domains, decisionsIssued := t.decisionsIssued, tick := t.tick, epoch := t.epoch)
  {
    if rs != [] {
      RebuildKeeps(s, rs[..|rs| - 1]);
    }
  }

  /** The counters end at the largest value the state or any record holds. */
  lemma {:induction false} Counters(s: DurableState, rs: seq<AuditRecord>)
    requires Ascending(rs) && |IdsAfter(Ids(s.domains), rs)| <= MAX_DOMAINS_STATE
    ensures var t := Rebuild(s, rs).state;
            && t.decisionsIssued == (if rs == [] then s.decisionsIssued else Larger(s.decisionsIssued, rs[|rs| - 1].id))
            && s.epoch <= t.epoch && s.tick <= t.tick
            && (t.epoch == s.epoch || exists r :: r in rs && r.epoch == t.epoch)
            && (t.tick == s.tick || exists r :: r in rs && r.tick == t.tick)
            && forall r :: r in rs ==> r.epoch <= t.epoch && r.tick <= t.tick
  {
    if rs != [] {
      var init, last := rs[..|rs| - 1], rs[|rs| - 1];
      IdsAfterGrows(IdsAfter(Ids(s.domains), init), [last]);
      assert IdsAfter(IdsAfter(Ids(s.domains), init), [last]) == IdsWith(IdsAfter(Ids(s.domains), init), last.domain) by {
        assert [last][..0] == [];
      }
      Counters(s, init);
      CountersStep(s, rs);
      forall r | r in rs ensures r == last || r in init {
        var i :| 0 <= i < |rs| && rs[i] == r;
        assert i < |init| ==> init[i] == r;
      }
      assert forall r :: r in init ==> r in rs;
      hide Rebuild, IdsAfter;
    }
  }

  lemma CountersStep(s: DurableState, rs: seq<AuditRecord>)
    requires rs != [] && Ascending(rs) && |IdsAfter(Ids(s.domains), rs)| <= MAX_DOMAINS_STATE
    ensures var t, u, last := Rebuild(s, rs[..|rs| - 1]).state, Rebuild(s, rs).state, rs[|rs| - 1];
            && u.decisionsIssued == Larger(t.decisionsIssued, last.id)
            && u.epoch == Larger(t.epoch, last.epoch) && u.tick == Larger(t.tick, last.tick)
  {
    NothingSkipped(s, rs);
    NothingSkipped(s, rs[..|rs| - 1]);
  }

  /** Last writer wins: a domain with records comes back as its last record describes it, any other
      domain as it was saved. */
  lemma {:induction false} LastWriterWins(s: DurableState, rs: seq<AuditRecord>, i: nat)
    requires Ascending(rs) && |IdsAfter(Ids(s.domains), rs)| <= MAX_DOMAINS_STATE
    requires i < |IdsAfter(Ids(s.domains), rs)| && Distinct(Ids(s.domains))
    ensures var ds := Rebuild(s, rs).state.domains;
            && |ds| == |IdsAfter(Ids(s.domains), rs)|
            && match Last(rs, ds[i].domain)
               case Some(r) => ds[i] == FromRecord(ds[i], r)
               case None => i < |s.domains| && ds[i] == s.domains[i]
  {
    NothingSkipped(s, rs);
    if rs != [] {
      var init, r := rs[..|rs| - 1], rs[|rs| - 1];
      NothingSkipped(s, init);
      IdsAfterGrows(Ids(s.domains), init);
      var ds := Rebuild(s, init).state.domains;
      assert Rebuild(s, rs).state.domains == Put(ds, r);
      PutAt(ds, r, i);
      if i < |ds| {
        LastWriterWins(s, init, i);
      }
      hide Rebuild, IdsAfter, Put;
    }
  }

  lemma PutAt(ds: seq<DomainState>, r: AuditRecord, i: nat)
    requires Distinct(Ids(ds)) && i < |Put(ds, r)|
    ensures var es := Put(ds, r);
            && (es[i].domain == r.domain ==> es[i] == FromRecord(es[i], r))
            && (es[i].domain != r.domain ==> i < |ds| && es[i] == ds[i])
            && (i < |ds| ==> es[i].domain == ds[i].domain)
  {
    match DomainIndex(ds, r.domain)
    case Some(at) =>
      if i != at {
        assert Ids(ds)[i] != Ids(ds)[at];
      }
    case None =>
      if i < |ds| {
        assert ds[i].domain != r.domain;
      }
  }
}
