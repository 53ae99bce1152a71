/** The audit log of a whole run against what the storage holds at every moment of it. */
module RecoveryRuns {
  import opened Checked
  import opened Wire
  import opened Model
  import opened Engine
  import opened HysteresisRules
  import opened Replay
  import opened Governing
  import opened Binding
  import opened Recovery

  // ------------------------------------------------------------- invariant

  predicate Numbered(log: seq<AuditRecord>) {
    |log| < U64_LIMIT && forall i :: 0 <= i < |log| ==> log[i].id == i + 1
  }

  /** How many records the saved state already accounts for. */
  function Saved(w: World): u64 { w.disk.saved.decisionsIssued }

  predicate TailsHeld(w: World, log: seq<AuditRecord>) {
    && Numbered(log) && w.state.decisionsIssued == |log| && Saved(w) <= |log|
    && SuffixOf(w.state.audit, log) && SuffixOf(w.disk.saved.audit, log[..Saved(w)])
    && |w.state.audit| <= w.options.maxAuditRecords && |w.disk.saved.audit| <= w.options.maxAuditRecords
    && SavedTailReaches(w, log)
  }

  /** The saved audit tail starts no later than the live one. */
  predicate SavedTailReaches(w: World, log: seq<AuditRecord>) {
    Saved(w) - |w.disk.saved.audit| <= |log| - |w.state.audit|
  }

  /** The journal is the end of the log and reaches back to the last save. */
  predicate Covered(w: World, log: seq<AuditRecord>) {
    && SuffixOf(w.disk.journal, log) && Saved(w) <= |log|
    && w.sinceSave == |log| - Saved(w) <= |w.disk.journal|
  }

  predicate TablesHeld(w: World, log: seq<AuditRecord>) {
    && Saved(w) <= |log|
    && Distinct(Ids(w.disk.saved.domains)) && |w.state.domains| <= MAX_DOMAINS_STATE
    && Ids(w.state.domains) == IdsAfter(Ids(w.disk.saved.domains), log[Saved(w)..])
    && forall i :: 0 <= i < Saved(w) ==> log[i].domain in Ids(w.disk.saved.domains)
  }

  predicate Reaches(epoch: u64, tick: u64, log: seq<AuditRecord>) {
    forall i :: 0 <= i < |log| ==> log[i].epoch <= epoch && log[i].tick <= tick
  }

  predicate CountersHeld(w: World, log: seq<AuditRecord>) {
    && Saved(w) <= |log| && Reaches(w.state.epoch, w.clock, log)
    && Reaches(w.disk.saved.epoch, w.disk.saved.tick, log[..Saved(w)])
    && w.disk.saved.epoch <= w.state.epoch && w.disk.saved.tick <= w.clock && w.disk.saved.epoch != 0
  }

  /** A saved domain is described by its last record, unless it has been evaluated since or is not
      described now either. */
  predicate DescriptionHeld(w: World, log: seq<AuditRecord>, i: nat)
    requires i < |w.disk.saved.domains|
  {
    && Saved(w) <= |log| && i < |w.state.domains|
    && var d := w.disk.saved.domains[i];
    || Evaluated(log[..Saved(w)], d)
    || Last(log[Saved(w)..], d.domain).Some?
    || !Evaluated(log, w.state.domains[i])
  }

  predicate DescriptionsHeld(w: World, log: seq<AuditRecord>) {
    forall i :: 0 <= i < |w.disk.saved.domains| ==> DescriptionHeld(w, log, i)
  }

  predicate Recoverable(w: World, log: seq<AuditRecord>) {
    TailsHeld(w, log) && Covered(w, log) && TablesHeld(w, log) && CountersHeld(w, log) && DescriptionsHeld(w, log)
  }

  // ------------------------------------------------------------ the theorem

  lemma NumberedAscending(log: seq<AuditRecord>, s: seq<AuditRecord>)
    requires Numbered(log) && SuffixOf(s, log)
    ensures Ascending(s)
    ensures s != [] ==> s[|s| - 1].id == |log| && s[0].id == |log| - |s| + 1
  {
    var n := |log| - |s|;
    forall i | 0 <= i < |s| ensures s[i].id == n + i + 1 {
      assert s[i] == log[n + i];
    }
  }

  /** Replaying the journal over the saved table meets the same domains in the same order. */
  lemma JournalIds(w: World, log: seq<AuditRecord>)
    requires Covered(w, log) && TablesHeld(w, log)
    ensures IdsAfter(Ids(w.disk.saved.domains), w.disk.journal) == Ids(w.state.domains)
  {
    var m := Saved(w);
    var n := |log| - |w.disk.journal|;
    var ids := Ids(w.disk.saved.domains);
    assert w.disk.journal == log[n..m] + log[m..];
    IdsAfterConcat(ids, log[n..m], log[m..]);
    forall r | r in log[n..m] ensures r.domain in ids {
      var i :| n <= i < m && log[i] == r;
    }
    IdsAfterKnown(ids, log[n..m]);
  }

  lemma {:induction false} BeforeIsPrefix(rs: seq<AuditRecord>, n: nat, base: nat, id: nat)
    requires forall i :: 0 <= i < |rs| ==> rs[i].id == base + i + 1
    requires n == (if id <= base + 1 then 0 else if id > base + |rs| then |rs| else id - base - 1) && id < U64_LIMIT
    ensures Before(rs, id) == rs[..n]
  {
    if rs != [] {
      var init := rs[..|rs| - 1];
      BeforeIsPrefix(init, if n == |rs| then n - 1 else n, base, id);
      assert rs[|rs| - 1].id == base + |rs|;
      assert n < |rs| ==> init[..n] == rs[..n];
      assert n == |rs| ==> init + [rs[|rs| - 1]] == rs[..n] && init[..n - 1] == init;
    }
  }

  /** The part of the saved tail that is older than the journal. */
  lemma OlderPart(log: seq<AuditRecord>, m: nat, base: nat, n: nat)
    requires Numbered(log) && base <= m <= |log| && n <= m && n < |log|
    ensures Before(log[base..m], n + 1) == if n <= base then [] else log[base..n]
  {
    var audit := log[base..m];
    forall i | 0 <= i < |audit| ensures audit[i].id == base + i + 1 {
      assert audit[i] == log[base + i];
    }
    BeforeIsPrefix(audit, if n <= base then 0 else n - base, base, n + 1);
  }

  /** Merging the saved tail with the journal gives a gapless end of the log. */
  lemma MergedSuffix(log: seq<AuditRecord>, m: nat, audit: seq<AuditRecord>, journal: seq<AuditRecord>, bound: nat)
    requires Numbered(log) && m <= |log| && SuffixOf(audit, log[..m]) && SuffixOf(journal, log)
    requires |log| - m <= |journal|
    ensures SuffixOf(Merge(audit, journal, bound), log)
  {
    if journal == [] {
      assert log[..m] == log;
    } else {
      var base, n := m - |audit|, |log| - |journal|;
      NumberedAscending(log, journal);
      assert audit == log[base..m];
      OlderPart(log, m, base, n);
      var merged := Before(audit, journal[0].id) + journal;
      assert merged == if n <= base then log[n..] else log[base..];
      NewestSuffix(merged, log, bound);
    }
  }

  /** The merged tail is at least as long as any the saved tail reaches back for. */
  lemma MergedReaches(log: seq<AuditRecord>, m: nat, audit: seq<AuditRecord>, journal: seq<AuditRecord>, bound: nat, n: nat)
    requires Numbered(log) && m <= |log| && SuffixOf(audit, log[..m]) && SuffixOf(journal, log)
    requires |log| - m <= |journal| && n <= |log| && n <= bound && m - |audit| <= |log| - n
    requires |audit| <= bound
    ensures n <= |Merge(audit, journal, bound)| <= bound
  {
    if journal != [] {
      var base, first := m - |audit|, |log| - |journal|;
      NumberedAscending(log, journal);
      assert audit == log[base..m];
      OlderPart(log, m, base, first);
      assert |Before(audit, journal[0].id)| == if first <= base then 0 else first - base;
      hide Before;
    }
  }

  lemma NoRecordTwice(log: seq<AuditRecord>, m: nat, n: nat, id: u64)
    requires n <= m <= |log| && Last(log[n..], id).None?
    ensures Last(log[m..], id).None? && Last(log, id) == Last(log[..m], id)
  {
    assert log[n..] == log[n..m] + log[m..];
    LastConcat(log[n..m], log[m..], id);
    assert log == log[..m] + log[m..];
    LastConcat(log[..m], log[m..], id);
  }

  /** One domain after recovery. */
  lemma DomainRecovered(w: World, log: seq<AuditRecord>, i: nat)
    requires Recoverable(w, log) && i < |w.state.domains|
    ensures var ds := Load(w.options, w.disk).domains;
            && |ds| == |w.state.domains| && ds[i].domain == w.state.domains[i].domain
            && (Evaluated(log, w.state.domains[i]) ==> SameUpToRecord(w.state.domains[i], ds[i]) && Evaluated(log, ds[i]))
            && match Last(w.disk.journal, ds[i].domain)
               case Some(r) => ds[i] == FromRecord(ds[i], r)
               case None => i < |w.disk.saved.domains| && ds[i] == w.disk.saved.domains[i]
  {
    var merged := w.disk.saved.(audit := Merge(w.disk.saved.audit, w.disk.journal, w.options.maxAuditRecords));
    var live, id := w.state.domains[i], w.state.domains[i].domain;
    JournalIds(w, log);
    NumberedAscending(log, w.disk.journal);
    NothingSkipped(merged, w.disk.journal);
    LastWriterWins(merged, w.disk.journal, i);
    assert Ids(w.state.domains)[i] == id;
    var ds := Rebuild(merged, w.disk.journal).state.domains;
    assert ds == Load(w.options, w.disk).domains;
    assert Ids(ds)[i] == id;
    JournalRecords(w, log, id);
    if Evaluated(log, live) {
      match Last(w.disk.journal, id)
      case Some(r) =>
        RecordDescribes(ds[i], r);
        SameDescription(live, ds[i], r);
      case None =>
        assert DescriptionHeld(w, log, i);
        NoRecordTwice(log, Saved(w), |log| - |w.disk.journal|, id);
        SameDescription(live, ds[i], Last(log, id).value);
    }
    hide Rebuild, IdsAfter, Described, SameUpToRecord, Merge;
  }

  lemma JournalRecords(w: World, log: seq<AuditRecord>, id: u64)
    requires SuffixOf(w.disk.journal, log)
    ensures Last(w.disk.journal, id).Some? ==> Last(log, id) == Last(w.disk.journal, id)
  {
    var n := |log| - |w.disk.journal|;
    assert log == log[..n] + w.disk.journal;
    LastConcat(log[..n], w.disk.journal, id);
  }

  /** One domain after recovery: as its last journal record describes it, or as it was saved. Where its
      last change was an evaluation, that is the live state up to the epoch of an absent fence and an
      unannounced AT_LIMIT. */
  predicate DomainRestored(w: World, log: seq<AuditRecord>, t: DurableState, i: nat) {
    && i < |t.domains| == |w.state.domains| && t.domains[i].domain == w.state.domains[i].domain
    && (Evaluated(log, w.state.domains[i]) ==> SameUpToRecord(w.state.domains[i], t.domains[i]))
    && match Last(w.disk.journal, t.domains[i].domain)
       case Some(r) => t.domains[i] == FromRecord(t.domains[i], r)
       case None => i < |w.disk.saved.domains| && t.domains[i] == w.disk.saved.domains[i]
  }

  /** `t` is the live durable state as far as storage can carry it: every decision counted, a gapless end
      of the audit log that holds the whole live audit, every domain in its place, and no epoch or tick
      behind any decision. */
  predicate Restored(w: World, log: seq<AuditRecord>, t: DurableState) {
    && t.decisionsIssued == w.state.decisionsIssued == |log|
    && SuffixOf(t.audit, log) && SuffixOf(w.state.audit, t.audit)
    && |t.domains| == |w.state.domains|
    && (forall i :: 0 <= i < |t.domains| ==> DomainRestored(w, log, t, i))
    && t.epoch <= w.state.epoch && t.tick <= w.clock && Reaches(t.epoch, t.tick, log)
  }

  /** Loading a saved state that is accepted, and the journal, restores the live state. */
  lemma RecoveryRestores(w: World, log: seq<AuditRecord>)
    requires Recoverable(w, log)
    ensures Restored(w, log, Load(w.options, w.disk))
  {
    var t := Load(w.options, w.disk);
    LoadedCounters(w, log);
    MergedSuffix(log, Saved(w), w.disk.saved.audit, w.disk.journal, w.options.maxAuditRecords);
    MergedReaches(log, Saved(w), w.disk.saved.audit, w.disk.journal, w.options.maxAuditRecords, |w.state.audit|);
    LoadedAudit(w);
    SuffixInSuffix(w.state.audit, t.audit, log);
    LoadedIds(w, log);
    forall i | 0 <= i < |t.domains| ensures DomainRestored(w, log, t, i) {
      DomainRecovered(w, log, i);
    }
    hide Load, Recoverable, DomainRestored, Reaches;
  }

  lemma SuffixInSuffix<T>(a: seq<T>, b: seq<T>, c: seq<T>)
    requires SuffixOf(a, c) && SuffixOf(b, c)
    ensures |a| <= |b| ==> SuffixOf(a, b)
  {
  }

  lemma LoadedAudit(w: World)
    ensures Load(w.options, w.disk).audit == Merge(w.disk.saved.audit, w.disk.journal, w.options.maxAuditRecords)
  {
    RebuildKeeps(w.disk.saved.(audit := Merge(w.disk.saved.audit, w.disk.journal, w.options.maxAuditRecords)),
                 w.disk.journal);
  }

  lemma LoadedIds(w: World, log: seq<AuditRecord>)
    requires TailsHeld(w, log) && Covered(w, log) && TablesHeld(w, log)
    ensures Ids(Load(w.options, w.disk).domains) == Ids(w.state.domains)
    ensures |Load(w.options, w.disk).domains| == |w.state.domains|
  {
    var merged := w.disk.saved.(audit := Merge(w.disk.saved.audit, w.disk.journal, w.options.maxAuditRecords));
    JournalIds(w, log);
    NumberedAscending(log, w.disk.journal);
    NothingSkipped(merged, w.disk.journal);
    hide Merge;
  }

  lemma LoadedReach(w: World, log: seq<AuditRecord>, epoch: u64, tick: u64)
    requires Covered(w, log) && CountersHeld(w, log) && w.disk.saved.epoch <= epoch && w.disk.saved.tick <= tick
    requires forall r :: r in w.disk.journal ==> r.epoch <= epoch && r.tick <= tick
    ensures Reaches(epoch, tick, log)
  {
    var n := |log| - |w.disk.journal|;
    forall i | 0 <= i < |log| ensures log[i].epoch <= epoch && log[i].tick <= tick {
      if i < Saved(w) {
        assert log[i] == log[..Saved(w)][i];
      } else {
        assert log[i] == w.disk.journal[i - n];
      }
    }
  }

  lemma JournalReached(w: World, log: seq<AuditRecord>)
    requires Covered(w, log) && CountersHeld(w, log)
    ensures forall r :: r in w.disk.journal ==> r.epoch <= w.state.epoch && r.tick <= w.clock
  {
    var n := |log| - |w.disk.journal|;
    forall r | r in w.disk.journal ensures r.epoch <= w.state.epoch && r.tick <= w.clock {
      var i :| 0 <= i < |w.disk.journal| && w.disk.journal[i] == r;
      assert log[n + i] == r;
    }
  }

  lemma LoadedCounters(w: World, log: seq<AuditRecord>)
    requires TailsHeld(w, log) && Covered(w, log) && TablesHeld(w, log) && CountersHeld(w, log)
    ensures var t := Load(w.options, w.disk);
            && t.decisionsIssued == |log| && t.epoch <= w.state.epoch && t.tick <= w.clock && t.epoch != 0
            && Reaches(t.epoch, t.tick, log)
  {
    var merged := w.disk.saved.(audit := Merge(w.disk.saved.audit, w.disk.journal, w.options.maxAuditRecords));
    var t := Load(w.options, w.disk);
    JournalIds(w, log);
    NumberedAscending(log, w.disk.journal);
    JournalReached(w, log);
    hide Merge, Rebuild, IdsAfter;
    Counters(merged, w.disk.journal);
    LoadedReach(w, log, t.epoch, t.tick);
    hide Reaches, SuffixOf, Numbered;
  }
}
