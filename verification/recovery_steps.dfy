/** Every operation keeps the storage able to restore the runtime, as long as compaction has room. */
module RecoverySteps {
  import opened Checked
  import opened Wire
  import opened Model
  import opened PolicyRules
  import opened Engine
  import opened EvidenceRules
  import opened HysteresisRules
  import opened Replay
  import opened Governing
  import opened Frames
  import opened Binding
  import opened Recovery
  import opened RecoveryRuns
  import opened Readability

  // ----------------------------------------------------------- persistence

  lemma SavedDescriptions(w: World, log: seq<AuditRecord>)
    requires w.disk.saved.domains == w.state.domains && w.disk.saved.decisionsIssued == |log|
    ensures DescriptionsHeld(w, log)
  {
    assert log[..|log|] == log;
  }

  /** A save accounts for the whole log. */
  lemma TablesAtSave(w: World, v: World, log: seq<AuditRecord>)
    requires TablesHeld(w, log) && Ids(v.state.domains) == Ids(w.state.domains)
    requires v.disk.saved.domains == v.state.domains && v.disk.saved.decisionsIssued == |log|
    ensures TablesHeld(v, log)
  {
    IdsAfterGrows(Ids(w.disk.saved.domains), log[Saved(w)..]);
    forall i | 0 <= i < |log| ensures log[i].domain in Ids(v.disk.saved.domains) {
      if i < Saved(w) {
        assert log[i].domain in Ids(w.disk.saved.domains);
      } else {
        assert log[Saved(w)..][i - Saved(w)] == log[i];
      }
    }
    assert log[|log|..] == [];
    assert |v.state.domains| == |Ids(v.state.domains)|;
  }

  lemma SavedRecoverable(w: World, log: seq<AuditRecord>)
    requires Recoverable(w, log)
    ensures Recoverable(w.(state := Synced(w), sinceSave := 0, dirty := false, disk := w.disk.(saved := Synced(w))), log)
  {
    var v := w.(state := Synced(w), sinceSave := 0, dirty := false, disk := w.disk.(saved := Synced(w)));
    assert log[..|log|] == log && log[|log|..] == [];
    SavedDescriptions(v, log);
    IdsAfterGrows(Ids(w.disk.saved.domains), log[Saved(w)..]);
    TablesAtSave(w, v, log);
    hide DescriptionsHeld, TablesHeld;
  }

  lemma UnsavedRecoverable(w: World, log: seq<AuditRecord>)
    requires Recoverable(w, log)
    ensures Recoverable(w.(state := Synced(w)), log)
  {
    var v := w.(state := Synced(w));
    Undisturbed(w, v, log);
  }

  lemma PersistRecoverable(w: World, log: seq<AuditRecord>, force: bool, io: Io)
    requires Recoverable(w, log)
    ensures Recoverable(Persist(w, force, io).world, log)
  {
    SavedRecoverable(w, log);
    UnsavedRecoverable(w, log);
    hide Recoverable;
  }

  predicate Untouched(w: World, v: World) {
    && v.state.audit == w.state.audit && v.state.domains == w.state.domains
    && v.state.decisionsIssued == w.state.decisionsIssued && v.state.epoch == w.state.epoch
    && w.clock <= v.clock && v.disk == w.disk && v.sinceSave == w.sinceSave && v.options == w.options
  }

  lemma Undisturbed(w: World, v: World, log: seq<AuditRecord>)
    requires Recoverable(w, log) && Untouched(w, v)
    ensures Recoverable(v, log)
  {
    assert DescriptionsHeld(v, log) by {
      forall i | 0 <= i < |v.disk.saved.domains| ensures DescriptionHeld(v, log, i) {
        assert DescriptionHeld(w, log, i);
      }
    }
    hide DescriptionsHeld;
  }

  lemma TouchUndisturbed(w: World, v: World, log: seq<AuditRecord>)
    requires Recoverable(w, log) && Touches(w, v)
    ensures Recoverable(v, log)
  {
    hide ValidPolicy, SlotsEvolve, Recoverable;
    Undisturbed(w, v, log);
  }

  lemma PublishRecoverable(k: Digests, w: World, log: seq<AuditRecord>, snapshot: Snapshot, io: Io)
    requires Recoverable(w, log)
    ensures Recoverable(Publish(k, w, snapshot, io).world, log)
  {
    hide Recoverable, Ingest, Touches, Persist, Filled;
    var s := Digested(k, snapshot);
    var r := Ingest(k, w, s, io);
    PublishFrame(k, w, s, io);
    if IsAccepted(r) {
      var v := Published(k, w, s, PublisherIndex(w.state.publishers, ProvenanceOf(s).publisher).value, r.value.generation);
      Undisturbed(w, v, log);
      PersistRecoverable(v, log, true, io);
    } else {
      TouchUndisturbed(w, r.world, log);
    }
  }

  // ------------------------------------------------------------ epoch advance

  lemma EpochRecoverable(w: World, log: seq<AuditRecord>, next: u64, io: Io)
    requires Recoverable(w, log)
    ensures Recoverable(AdvanceEpoch(w, next, io).world, log)
  {
    EpochFrame(w, next, io);
    hide AdvanceEpoch;
    if next > w.state.epoch {
      var v := Advanced(w, next);
      EpochDescriptions(w, v, log, next);
      assert Ids(v.state.domains) == Ids(w.state.domains);
      assert Recoverable(v, log) by { hide DescriptionsHeld; }
      PersistRecoverable(v, log, true, io);
    }
    hide Recoverable, Persist;
  }

  /** A domain fenced for a new epoch is described by no earlier record. */
  lemma EpochDescriptions(w: World, v: World, log: seq<AuditRecord>, next: u64)
    requires DescriptionsHeld(w, log) && CountersHeld(w, log) && next > w.state.epoch && v.disk == w.disk
    requires v.state.domains == FenceForEpoch(w.state.domains, next)
    ensures DescriptionsHeld(v, log)
  {
    forall i | 0 <= i < |v.disk.saved.domains| ensures DescriptionHeld(v, log, i) {
      assert DescriptionHeld(w, log, i);
      var d := v.state.domains[i];
      if Last(log, d.domain).Some? {
        var j :| 0 <= j < |log| && log[j] == Last(log, d.domain).value;
        assert log[j].epoch < d.fenceEpoch;
      }
    }
  }

  // -------------------------------------------------------------- compaction

  /** Compaction keeps every record the saved state does not account for. */
  predicate Roomy(w: World) {
    var newest := Newest(w.state.audit, Keep(w.options));
    || (JournalSize(newest) <= w.options.maxJournalBytes && w.sinceSave <= |newest|)
    || (FittingFrom(newest, 0, w.options.maxJournalBytes) == [] && w.sinceSave == 0)
  }

  lemma {:induction false} JournalSizeSplit(a: seq<AuditRecord>, b: seq<AuditRecord>)
    ensures JournalSize(a + b) == JournalSize(a) + JournalSize(b)
    decreases |b|
  {
    if b == [] {
      assert a + b == a;
    } else {
      assert (a + b)[..|a + b| - 1] == a + b[..|b| - 1];
      JournalSizeSplit(a, b[..|b| - 1]);
    }
  }

  lemma {:induction false} FittingIsAll(rs: seq<AuditRecord>, used: nat, bound: nat)
    ensures FittingFrom(rs, used, bound) == rs <==> rs == [] || used + JournalSize(rs) <= bound
  {
    if rs != [] {
      assert rs == [rs[0]] + rs[1..];
      JournalSizeSplit([rs[0]], rs[1..]);
      assert JournalSize([rs[0]]) == FrameSize(rs[0]) by { assert [rs[0]][..0] == []; }
      FittingIsAll(rs[1..], used + FrameSize(rs[0]), bound);
    }
  }

  /** Exactly the roomy compactions leave a journal that reaches from the last save to the newest record. */
  lemma CompactionCovers(w: World, log: seq<AuditRecord>, io: Io)
    requires TailsHeld(w, log) && Covered(w, log) && io.compact
    ensures Covered(Compact(w, io).world, log) <==> Roomy(w)
  {
    var newest := Newest(w.state.audit, Keep(w.options));
    var kept := FittingFrom(newest, 0, w.options.maxJournalBytes);
    FittingIsAll(newest, 0, w.options.maxJournalBytes);
    NewestSuffix(w.state.audit, log, Keep(w.options));
    if SuffixOf(kept, log) && kept != [] {
      var a, b := |log| - |newest|, |log| - |kept|;
      assert kept[0] == newest[0] == log[a];
      assert log[b] == kept[0];
      assert log[a].id == a + 1 && log[b].id == b + 1;
      assert kept == newest;
    }
  }

  lemma CompactRecoverable(w: World, log: seq<AuditRecord>, io: Io)
    requires Recoverable(w, log) && (io.compact ==> Roomy(w))
    ensures Recoverable(Compact(w, io).world, log)
  {
    if io.compact {
      CompactionCovers(w, log, io);
      var v := Compact(w, io).world;
      NewestSuffix(w.state.audit, log, Keep(w.options));
      assert v.state == w.state.(audit := v.state.audit) && v.disk == w.disk.(journal := v.disk.journal);
      hide Compact, Roomy;
      CompactionKeepsRest(w, v, log);
    }
  }

  lemma CompactionKeepsRest(w: World, v: World, log: seq<AuditRecord>)
    requires Recoverable(w, log) && Covered(v, log) && SuffixOf(v.state.audit, log)
    requires v.state == w.state.(audit := v.state.audit) && v.disk == w.disk.(journal := v.disk.journal)
    requires v.clock == w.clock && v.options == w.options && |v.state.audit| <= |w.state.audit|
    ensures Recoverable(v, log)
  {
    assert DescriptionsHeld(v, log) by {
      forall i | 0 <= i < |v.disk.saved.domains| ensures DescriptionHeld(v, log, i) {
        assert DescriptionHeld(w, log, i);
      }
    }
    hide DescriptionsHeld, Covered;
  }

  // -------------------------------------------------------------- evaluation

  /** What an accepted decision does to the history: one more record everywhere, one domain entered. */
  predicate Recorded(v: World, w: World, r: AuditRecord, d: DomainState) {
    && w.disk == v.disk.(journal := v.disk.journal + [r]) && w.options == v.options
    && w.state.audit == Newest(v.state.audit + [r], v.options.maxAuditRecords)
    && w.state.domains == Enter(v.state.domains, d) && w.state.decisionsIssued == r.id
    && w.state.epoch == v.state.epoch && w.clock == v.clock && w.sinceSave == Next(v.sinceSave)
    && d.domain == r.domain && r.epoch == v.state.epoch && r.tick <= v.clock
    && r.id == Next(v.state.decisionsIssued)
    && (DomainIndex(v.state.domains, d.domain).Some? || |v.state.domains| < MAX_DOMAINS_STATE)
  }

  lemma RecordedTails(v: World, w: World, log: seq<AuditRecord>, r: AuditRecord, d: DomainState)
    requires TailsHeld(v, log) && |log| + 1 < U64_LIMIT && Recorded(v, w, r, d)
    ensures TailsHeld(w, log + [r])
  {
    hide Enter;
    assert (log + [r])[..Saved(v)] == log[..Saved(v)];
    SuffixGrows(v.state.audit, log, r);
    NewestSuffix(v.state.audit + [r], log + [r], v.options.maxAuditRecords);
    assert |w.state.audit| <= |v.state.audit| + 1;
    hide Newest, SuffixOf;
  }

  lemma RecordedCover(v: World, w: World, log: seq<AuditRecord>, r: AuditRecord, d: DomainState)
    requires Covered(v, log) && |log| + 1 < U64_LIMIT && Recorded(v, w, r, d)
    ensures Covered(w, log + [r])
  {
    hide Enter, Newest;
    SuffixGrows(v.disk.journal, log, r);
    hide SuffixOf;
  }

  lemma RecordedTables(v: World, w: World, log: seq<AuditRecord>, r: AuditRecord, d: DomainState)
    requires TablesHeld(v, log) && Recorded(v, w, r, d)
    ensures TablesHeld(w, log + [r])
  {
    var m := Saved(v);
    assert (log + [r])[m..] == log[m..] + [r];
    assert (log[m..] + [r])[..|log| - m] == log[m..];
    EnterIds(v.state.domains, d);
    IndexKnown(v.state.domains, d.domain);
    hide Enter;
    assert |w.state.domains| == |Ids(w.state.domains)|;
  }

  lemma RecordedCounters(v: World, w: World, log: seq<AuditRecord>, r: AuditRecord, d: DomainState)
    requires CountersHeld(v, log) && Recorded(v, w, r, d)
    ensures CountersHeld(w, log + [r])
  {
    assert (log + [r])[..Saved(v)] == log[..Saved(v)];
    hide Enter;
  }

  lemma EnterAt(ds: seq<DomainState>, d: DomainState, i: nat)
    requires i < |ds| && ds[i].domain != d.domain
    ensures Enter(ds, d)[i] == ds[i]
  {
  }

  lemma RecordedDescriptions(v: World, w: World, log: seq<AuditRecord>, r: AuditRecord, d: DomainState)
    requires DescriptionsHeld(v, log) && TablesHeld(v, log) && Recorded(v, w, r, d)
    ensures DescriptionsHeld(w, log + [r])
  {
    var m := Saved(v);
    assert (log + [r])[m..] == log[m..] + [r] && (log + [r])[..m] == log[..m];
    IdsAfterGrows(Ids(v.disk.saved.domains), log[m..]);
    forall i | 0 <= i < |w.disk.saved.domains| ensures DescriptionHeld(w, log + [r], i) {
      assert DescriptionHeld(v, log, i);
      var id := v.disk.saved.domains[i].domain;
      assert Ids(v.disk.saved.domains)[i] == Ids(v.state.domains)[i] == id;
      LastConcat(log[m..], [r], id);
      LastConcat(log, [r], id);
      LastOne(r, id);
      if r.domain != id {
        EnterAt(v.state.domains, d, i);
      }
    }
    hide IdsAfter;
  }

  lemma LastOne(r: AuditRecord, id: u64)
    ensures Last([r], id) == if r.domain == id then Some(r) else None
  {
    assert [r][..0] == [];
  }

  lemma RecordedRecoverable(v: World, w: World, log: seq<AuditRecord>, r: AuditRecord, d: DomainState)
    requires Recoverable(v, log) && |log| + 1 < U64_LIMIT && Recorded(v, w, r, d)
    ensures Recoverable(w, log + [r])
  {
    RecordedTails(v, w, log, r, d);
    RecordedCover(v, w, log, r, d);
    RecordedTables(v, w, log, r, d);
    RecordedCounters(v, w, log, r, d);
    RecordedDescriptions(v, w, log, r, d);
    hide Recorded, TailsHeld, Covered, TablesHeld, CountersHeld, DescriptionsHeld;
  }

  /** A record really describes the runtime state its decision leaves behind. */
  lemma DecisionIsDescribed(k: Digests, w: World, domain: u64, tick: u64, wall: u64)
    ensures var (d, a) := DecideFor(k, w, domain, tick);
            Described(Settled(w, domain, d, a), RecordFor(k, w, domain, d, a, wall))
  {
    var e := CurrentEvaluation(w, domain, tick);
    var h, s := w.state.policy.hysteresis, WorkingState(w, domain, e.assessment.verdict.outcome);
    StickyIsAnnounced(h, s, SignalOf(e, tick));
    UnconfirmedSticky(h, s, SignalOf(e, tick));
    hide Announce, CurrentEvaluation, CurrentExpectation, BindingFault;
  }

  lemma UnconfirmedSticky(h: Hysteresis, s: DomainState, e: Signal)
    ensures var a := Announce(h, s, e);
            && a.state.domain == s.domain && a.state.lastRaw == e.raw
            && (a.effective != a.state.sticky ==> a.state.sticky.AtLimit?)
  {
  }

  // ---------------------------------------------------------------- one step

  /** The record a step adds to the log. */
  function Logged(k: Digests, w: World, s: Step): Option<AuditRecord> {
    if !s.op.EvaluateOp? then None
    else
      match Attempt(k, w, s.op.domain, s.op.tick, s.op.cancelled, s.op.wall)
      case None => None
      case Some(r) => if AppendJournal(w, r, s.io).status.Success? then Some(r) else None
  }

  /** A step that compacts the journal only when that is safe: if its record does not fit, there is room. */
  predicate SafeStep(k: Digests, w: World, s: Step) {
    s.op.EvaluateOp? ==>
      var r := Attempt(k, w, s.op.domain, s.op.tick, s.op.cancelled, s.op.wall);
      r.Some? && !FrameFits(w.options, w.disk.journal, r.value) && s.io.compact ==> Roomy(w)
  }

  function LogAfter(k: Digests, w: World, log: seq<AuditRecord>, s: Step): seq<AuditRecord> {
    match Logged(k, w, s)
    case Some(r) => log + [r]
    case None => log
  }

  /** Where the record goes: the world it is appended in, compacted first if it did not fit. */
  lemma AppendedTo(w: World, r: AuditRecord, io: Io) returns (v: World)
    ensures v == w || (v == Compact(w, io).world && !FrameFits(w.options, w.disk.journal, r) && io.compact)
    ensures var a := AppendJournal(w, r, io);
            if a.status.Success?
            then FrameFits(v.options, v.disk.journal, r)
                 && a.world == v.(disk := v.disk.(journal := v.disk.journal + [r]),
                                    state := v.state.(audit := Newest(v.state.audit + [r], v.options.maxAuditRecords)))
            else a.world == v
  {
    v := if !FrameFits(w.options, w.disk.journal, r) && io.compact then Compact(w, io).world else w;
    hide FrameFits;
  }

  lemma EvaluateRecoverable(k: Digests, w: World, log: seq<AuditRecord>, s: Step)
    requires Recoverable(w, log) && s.op.EvaluateOp? && |log| + 1 < U64_LIMIT && SafeStep(k, w, s)
    ensures Recoverable(Apply(k, w, s), LogAfter(k, w, log, s))
  {
    hide Recoverable, DecideFor, AppendJournal, Persist, Accepted, Settled, RecordFor, EvaluateDomain, Attempt, Compact,
      Roomy, FrameFits;
    var op, io := s.op, s.io;
    var w1 := w.(clock := EvaluationTick(w, op.tick));
    var attempt := Attempt(k, w, op.domain, op.tick, op.cancelled, op.wall);
    Undisturbed(w, w1, log);
    EvaluateFrame(k, w, op.domain, op.tick, op.cancelled, op.wall, io);
    if attempt.Some? {
      var r := attempt.value;
      AppendClock(w, w1, r, io);
      RoomyClock(w, w1);
      AttemptIs(k, w, op.domain, op.tick, op.cancelled, op.wall);
      AppendRecoverable(k, w1, log, op.domain, op.wall, r, io);
    }
  }

  lemma AttemptIs(k: Digests, w: World, domain: u64, requested: u64, cancelled: bool, wall: u64)
    ensures var w1 := w.(clock := EvaluationTick(w, requested));
            var attempt := Attempt(k, w, domain, requested, cancelled, wall);
            attempt.Some? ==>
              && (DomainIndex(w.state.domains, domain).Some? || |w.state.domains| < MAX_DOMAINS_STATE)
              && attempt.value == RecordFor(k, w1, domain, DecideFor(k, w1, domain, w1.clock).0,
                                            DecideFor(k, w1, domain, w1.clock).1, wall)
  {
    hide DecideFor, RecordFor;
  }

  lemma RoomyClock(w: World, w1: World)
    requires w1 == w.(clock := w1.clock)
    ensures Roomy(w1) == Roomy(w)
  {
  }

  /** Appending the record of a decision and entering its domain, compacting first when it does not fit. */
  lemma AppendRecoverable(k: Digests, w: World, log: seq<AuditRecord>, domain: u64, wall: u64, r: AuditRecord, io: Io)
    requires Recoverable(w, log) && |log| + 1 < U64_LIMIT
    requires !FrameFits(w.options, w.disk.journal, r) && io.compact ==> Roomy(w)
    requires DomainIndex(w.state.domains, domain).Some? || |w.state.domains| < MAX_DOMAINS_STATE
    requires r == RecordFor(k, w, domain, DecideFor(k, w, domain, w.clock).0, DecideFor(k, w, domain, w.clock).1, wall)
    ensures var (d, a) := DecideFor(k, w, domain, w.clock);
            var appended := AppendJournal(w, r, io);
            if appended.status.Success?
            then Recoverable(Persist(Accepted(appended.world, domain, d, a), false, io).world, log + [r])
            else Recoverable(appended.world, log)
  {
    hide Recoverable, DecideFor, AppendJournal, Persist, Accepted, Settled, RecordFor, Compact, Roomy, FrameFits;
    var (d, a) := DecideFor(k, w, domain, w.clock);
    var v := AppendedTo(w, r, io);
    if v != w {
      CompactRecoverable(w, log, io);
    }
    if AppendJournal(w, r, io).status.Success? {
      var w3 := Accepted(AppendJournal(w, r, io).world, domain, d, a);
      CompactWhole(w, io);
      AcceptedRecords(k, w, v, domain, w.clock, wall, r, w3);
      RecordedRecoverable(v, w3, log, r, Settled(w, domain, d, a));
      PersistRecoverable(w3, log + [r], false, io);
    }
  }

  /** A compaction that is carried out does not depend on the other writes. */
  lemma CompactWhole(w: World, io: Io)
    ensures io.compact ==> Compact(w, io).world == Compact(w, Io(true, true, true)).world
  {
  }

  lemma AppendClock(w: World, w1: World, r: AuditRecord, io: Io)
    requires w1 == w.(clock := w1.clock)
    ensures AppendJournal(w1, r, io).status == AppendJournal(w, r, io).status
  {
    hide FrameFits;
  }

  lemma AcceptedRecords(k: Digests, w: World, v: World, domain: u64, tick: u64, wall: u64, r: AuditRecord, w3: World)
    requires DomainIndex(w.state.domains, domain).Some? || |w.state.domains| < MAX_DOMAINS_STATE
    requires v == w || v == Compact(w, Io(true, true, true)).world
    requires tick <= w.clock
    requires var (d, a) := DecideFor(k, w, domain, tick);
             && r == RecordFor(k, w, domain, d, a, wall)
             && w3 == Accepted(v.(disk := v.disk.(journal := v.disk.journal + [r]),
                                  state := v.state.(audit := Newest(v.state.audit + [r], v.options.maxAuditRecords))),
                               domain, d, a)
    ensures Recorded(v, w3, r, Settled(w, domain, DecideFor(k, w, domain, tick).0, DecideFor(k, w, domain, tick).1))
  {
    var (d, a) := DecideFor(k, w, domain, tick);
    DecisionIsDescribed(k, w, domain, tick, wall);
    DecisionHeader(k, w, domain, tick);
    assert w3.state.domains == Enter(v.state.domains, Settled(w, domain, d, a)) by { hide DecideFor, RecordFor; }
    hide DecideFor, Settled, Enter, Described;
  }

  lemma DecisionHeader(k: Digests, w: World, domain: u64, tick: u64)
    ensures var d := DecideFor(k, w, domain, tick).0;
            d.id == Next(w.state.decisionsIssued) && d.epoch == w.state.epoch && d.issuedTick == tick
  {
    hide Announcing, CurrentEvaluation;
  }

  // -------------------------------------------------------------- reopening

  lemma ReopenRecoverable(w: World, log: seq<AuditRecord>)
    requires Recoverable(w, log)
    ensures Recoverable(Reopened(w), log)
  {
    RecoveryRestores(w, log);
    MergedReaches(log, Saved(w), w.disk.saved.audit, w.disk.journal, w.options.maxAuditRecords, |w.state.audit|);
    LoadedAudit(w);
    LoadedCounters(w, log);
    LoadedIds(w, log);
    var t := Load(w.options, w.disk);
    var v := Reopened(w);
    assert log[|log|..] == [] && log[..|log|] == log;
    assert v.state.domains == t.domains == v.disk.saved.domains && v.disk.saved.decisionsIssued == |log|
      by { hide Load; }
    SavedDescriptions(v, log);
    TablesAtSave(w, v, log);
    assert TailsHeld(v, log) && Covered(v, log) && CountersHeld(v, log) by {
      assert v.clock == t.tick && v.state.epoch == t.epoch && v.state.audit == t.audit by { hide Load; }
      hide Load, DescriptionsHeld, TablesHeld;
    }
    hide Reopened, TailsHeld, Covered, TablesHeld, CountersHeld, DescriptionsHeld;
  }

  // ---------------------------------------------------------------- all runs

  lemma StepRecoverable(k: Digests, w: World, log: seq<AuditRecord>, s: Step)
    requires Recoverable(w, log) && |log| + 1 < U64_LIMIT && SafeStep(k, w, s)
    ensures Recoverable(Apply(k, w, s), LogAfter(k, w, log, s))
  {
    hide Recoverable, SafeStep, AdvanceEpoch, Publish, EvaluateDomain, Reopened, Touches, Persist, NextPolicy;
    match s.op
    case NewEpoch(epoch) => EpochRecoverable(w, log, epoch, s.io);
    case PublishOp(snapshot) => PublishRecoverable(k, w, log, snapshot, s.io);
    case EvaluateOp(_, _, _, _) => EvaluateRecoverable(k, w, log, s);
    case CrashAndReopen => ReopenRecoverable(w, log);
    case _ =>
      var v, committed := QuietFrame(k, w, s);
      TouchUndisturbed(w, v, log);
      PersistRecoverable(v, log, true, s.io);
      hide Apply;
  }

  /** The records a run has appended before each step, in order. */
  predicate Logs(k: Digests, logs: seq<seq<AuditRecord>>, ws: seq<World>, steps: seq<Step>) {
    && |logs| == |ws| == |steps| + 1 && logs[0] == []
    && forall n {:trigger steps[n]} :: 0 <= n < |steps| ==> logs[n + 1] == LogAfter(k, ws[n], logs[n], steps[n])
  }

  predicate SafeRun(k: Digests, ws: seq<World>, steps: seq<Step>) {
    |ws| == |steps| + 1 && forall n {:trigger steps[n]} :: 0 <= n < |steps| ==> SafeStep(k, ws[n], steps[n])
  }

  lemma {:induction false} RunRecoverable(k: Digests, logs: seq<seq<AuditRecord>>, ws: seq<World>, steps: seq<Step>, n: nat)
    requires IsRun(k, ws, steps) && Logs(k, logs, ws, steps) && SafeRun(k, ws, steps) && n < |ws| < U64_LIMIT
    requires Recoverable(ws[0], [])
    ensures Recoverable(ws[n], logs[n]) && |logs[n]| <= n
  {
    hide Recoverable, Apply, SafeStep, Logged;
    if n > 0 {
      RunRecoverable(k, logs, ws, steps, n - 1);
      assert ws[n] == Apply(k, ws[n - 1], steps[n - 1]) && SafeStep(k, ws[n - 1], steps[n - 1]);
      assert logs[n] == LogAfter(k, ws[n - 1], logs[n - 1], steps[n - 1]);
      StepRecoverable(k, ws[n - 1], logs[n - 1], steps[n - 1]);
    }
  }

  /** A crash at any moment of any run that compacts safely loses no decision, unless the saved evidence
      table has outgrown what the loader takes: then nothing loads. `Restored` says what comes back. Earlier
      crashes and restarts may be part of the run. */
  lemma EveryCrashRecovers(k: Digests, o: Options, p: Policy, logs: seq<seq<AuditRecord>>, ws: seq<World>,
                           steps: seq<Step>, n: nat)
    requires ValidPolicy(InitialPolicy(k, p)) && o.maxAuditRecords <= MAX_AUDIT_RECORDS
    requires IsRun(k, ws, steps) && ws[0] == Fresh(k, o, p) && Logs(k, logs, ws, steps) && SafeRun(k, ws, steps)
    requires n < |ws| < U64_LIMIT
    ensures match TryLoad(ws[n].options, ws[n].disk)
            case Some(t) => Restored(ws[n], logs[n], t) && |ws[n].disk.saved.evidence| <= MAX_EVIDENCE_SLOTS
            case None => |ws[n].disk.saved.evidence| > MAX_EVIDENCE_SLOTS
  {
    FreshRecoverable(k, o, p);
    hide Fresh, Recoverable, Load, Apply, SafeStep, LogAfter, Restored, ValidPolicy, Readable;
    RunRecoverable(k, logs, ws, steps, n);
    RecoveryRestores(ws[n], logs[n]);
    ReadableUnlessCrowded(k, o, p, ws, steps, n);
  }

  lemma FreshRecoverable(k: Digests, o: Options, p: Policy)
    ensures Recoverable(Fresh(k, o, p), [])
  {
    hide InitialPolicy;
    var w := Fresh(k, o, p);
    assert w.state.domains == [] && w.disk.saved.domains == [] && Saved(w) == 0;
    assert w.state.audit == [] && w.disk.saved.audit == [] && w.disk.journal == [] && w.sinceSave == 0;
    assert w.state.epoch == 1 == w.disk.saved.epoch && w.disk.saved.tick == w.clock == 0;
    hide Fresh;
  }

  // ------------------------------------------------- fences of an epoch advance

  /** A fence raised by an epoch advance survives a restart exactly for the domains that have no record
      left in the journal, or whose last record is itself fenced: replay overwrites the others. */
  lemma EpochFenceAfterRestart(w: World, log: seq<AuditRecord>, next: u64, i: nat)
    requires Recoverable(w, log) && next > w.state.epoch && i < |w.state.domains|
    ensures var a := AdvanceEpoch(w, next, Io(true, true, true)).world;
            var b := Reopened(a);
            && a.state.domains[i].fenced && |b.state.domains| == |w.state.domains|
            && (b.state.domains[i].fenced <==>
                  match Last(w.disk.journal, w.state.domains[i].domain)
                  case Some(r) => r.fenced
                  case None => true)
  {
    var io := Io(true, true, true);
    var a := AdvanceEpoch(w, next, io).world;
    EpochFrame(w, next, io);
    EpochRecoverable(w, log, next, io);
    assert a == Persist(Advanced(w, next), true, io).world;
    assert a.disk.journal == w.disk.journal && a.state.domains == FenceForEpoch(w.state.domains, next);
    assert a.disk.saved.domains == a.state.domains;
    assert Reopened(a).state.domains == Load(a.options, a.disk).domains by { hide Load; }
    hide Recoverable, AdvanceEpoch, Reopened, Load, Evaluated, SameUpToRecord, Reaches, SuffixOf, Persist;
    RecoveryRestores(a, log);
    assert DomainRestored(a, log, Load(a.options, a.disk), i);
  }
}
