/** Whether the journal has room for the next decision: always, when compaction keeps fewer records than the
    journal may hold; never again once the journal is full, when it does not. */
module JournalRoom {
  import opened Checked
  import opened Wire
  import opened Model
  import opened PolicyRules
  import opened Engine
  import opened EvidenceRules
  import opened HysteresisRules
  import opened Replay
  import opened Governing
  import opened Frames
  import opened Recovery
  import opened RecoveryRuns
  import opened RecoverySteps
  import opened RecoveryOptions
  import opened Readability
  import C = StateCodec

  // ------------------------------------------------------------- one append

  /** What a compaction leaves in the journal. */
  function Kept(w: World): seq<AuditRecord> {
    FittingFrom(Newest(w.state.audit, Keep(w.options)), 0, w.options.maxJournalBytes)
  }

  /** With every write accepted, a record is appended exactly when the journal has room for it, or has once
      it is compacted. */
  lemma AppendsWhenRoom(w: World, r: AuditRecord, io: Io)
    requires io.append && io.compact
    ensures AppendJournal(w, r, io).status.Success?
            <==> FrameFits(w.options, w.disk.journal, r) || FrameFits(w.options, Kept(w), r)
  {
    hide FrameFits;
  }

  // ------------------------------------------------------- room for one more

  /** Compaction leaves room for one more record and frame. */
  predicate Lively(o: Options) {
    o.compactionRecords < o.maxJournalRecords && (Keep(o) + 1) * MAX_FRAME <= o.maxJournalBytes
  }

  lemma DefaultsAreLively()
    ensures Lively(DEFAULTS)
  {
  }

  lemma {:induction false} PrefixIsSmaller(rs: seq<AuditRecord>, n: nat)
    requires n <= |rs|
    ensures JournalSize(rs[..n]) <= JournalSize(rs)
  {
    if n < |rs| {
      assert rs[..|rs| - 1][..n] == rs[..n];
      PrefixIsSmaller(rs[..|rs| - 1], n);
    } else {
      assert rs[..n] == rs;
    }
  }

  /** What compaction keeps, and one more record, fit. */
  lemma RoomForOneMore(w: World, r: AuditRecord)
    requires Lively(w.options) && RecordsBounded(w.state.audit) && C.BoundedAudit(r)
    ensures FrameFits(w.options, Kept(w), r)
  {
    var newest := Newest(w.state.audit, Keep(w.options));
    var n := |Kept(w)|;
    TailWithin(w.state.audit, Keep(w.options));
    hide FittingFrom;
    assert Kept(w) == newest[..n];
    hide Kept, Newest, RecordsBounded;
    JournalSizeBounded(newest);
    PrefixIsSmaller(newest, n);
    Multiples(|newest|, Keep(w.options));
    hide JournalSize;
  }

  lemma Multiples(n: nat, keep: nat)
    requires n <= keep
    ensures (n + 1) * MAX_FRAME <= (keep + 1) * MAX_FRAME
  {
  }

  lemma LivelyAppends(w: World, r: AuditRecord, io: Io)
    requires Lively(w.options) && RecordsBounded(w.state.audit) && C.BoundedAudit(r) && io.append && io.compact
    ensures AppendJournal(w, r, io).status.Success?
  {
    hide *;
    RoomForOneMore(w, r);
    AppendsWhenRoom(w, r, io);
  }

  /** With lively options every evaluation that gets as far as its record has it appended, in every run, as
      long as storage accepts the write. */
  lemma EveryDecisionIsRecorded(k: Digests, o: Options, p: Policy, ws: seq<World>, steps: seq<Step>, n: nat)
    requires Lively(o) && o.maxAuditRecords <= MAX_AUDIT_RECORDS
    requires IsRun(k, ws, steps) && ws[0] == Fresh(k, o, p) && n < |steps|
    requires steps[n].op.EvaluateOp? && steps[n].io.append && steps[n].io.compact
    requires Attempt(k, ws[n], steps[n].op.domain, steps[n].op.tick, steps[n].op.cancelled, steps[n].op.wall).Some?
    ensures Logged(k, ws[n], steps[n]).Some?
  {
    var w, s := ws[n], steps[n];
    var attempt := Attempt(k, w, s.op.domain, s.op.tick, s.op.cancelled, s.op.wall);
    FreshWithin(k, o, p);
    assert Fresh(k, o, p).options == o;
    hide Fresh, IsRun, Apply, Attempt, AppendJournal, Lively;
    RunWithin(k, ws, steps, n);
    RunKeepsOptions(k, ws, steps, n);
    AttemptBounded(k, w, s.op.domain, s.op.tick, s.op.cancelled, s.op.wall);
    LivelyAppends(w, attempt.value, s.io);
  }

  lemma {:induction false} RunKeepsOptions(k: Digests, ws: seq<World>, steps: seq<Step>, n: nat)
    requires IsRun(k, ws, steps) && n < |ws|
    ensures ws[n].options == ws[0].options
  {
    hide Apply;
    if n > 0 {
      RunKeepsOptions(k, ws, steps, n - 1);
      assert ws[n] == Apply(k, ws[n - 1], steps[n - 1]);
      StepKeepsOptions(k, ws[n - 1], steps[n - 1]);
    }
  }

  lemma AttemptBounded(k: Digests, w: World, domain: u64, requested: u64, cancelled: bool, wall: u64)
    requires Within(w)
    ensures var r := Attempt(k, w, domain, requested, cancelled, wall); r.Some? ==> C.BoundedAudit(r.value)
  {
    var w1 := w.(clock := EvaluationTick(w, requested));
    DecisionWithin(k, w1, domain, w1.clock, wall);
    hide DecideFor, RecordFor, C.BoundedAudit;
  }

  // ---------------------------------------------------------- no room, ever

  /** The journal is full, and compacting it keeps as many records as it may hold. */
  predicate Choked(w: World) {
    var full := w.options.maxJournalRecords;
    && w.options.compactionRecords >= full && full <= w.options.maxAuditRecords
    && |w.disk.journal| == full <= |w.state.audit|
    && JournalSize(Newest(w.state.audit, full)) <= w.options.maxJournalBytes
    && JournalSize(w.disk.journal) <= w.options.maxJournalBytes
  }

  lemma ChokedKeepsAll(w: World)
    requires Choked(w)
    ensures Keep(w.options) == w.options.maxJournalRecords
    ensures Kept(w) == Newest(w.state.audit, w.options.maxJournalRecords) && |Kept(w)| == w.options.maxJournalRecords
  {
    FittingIsAll(Newest(w.state.audit, w.options.maxJournalRecords), 0, w.options.maxJournalBytes);
  }

  lemma ChokedSame(w: World, v: World)
    requires Choked(w) && v.options == w.options && v.disk.journal == w.disk.journal && v.state.audit == w.state.audit
    ensures Choked(v)
  {
  }

  lemma ChokedAppend(w: World, r: AuditRecord, io: Io)
    requires Choked(w)
    ensures var a := AppendJournal(w, r, io); !a.status.Success? && Choked(a.world)
  {
    ChokedKeepsAll(w);
    hide JournalSize, FittingFrom;
  }

  lemma PersistChoked(w: World, force: bool, io: Io)
    requires Choked(w)
    ensures Choked(Persist(w, force, io).world)
  {
  }

  lemma TouchChoked(w: World, v: World)
    requires Choked(w) && Touches(w, v)
    ensures Choked(v)
  {
    hide ValidPolicy, SlotsEvolve;
  }

  lemma PublishChoked(k: Digests, w: World, snapshot: Snapshot, io: Io)
    requires Choked(w)
    ensures Choked(Publish(k, w, snapshot, io).world)
  {
    hide Choked, Ingest, Touches, Persist, Filled;
    var s := Digested(k, snapshot);
    var r := Ingest(k, w, s, io);
    PublishFrame(k, w, s, io);
    if IsAccepted(r) {
      var v := Published(k, w, s, PublisherIndex(w.state.publishers, ProvenanceOf(s).publisher).value, r.value.generation);
      ChokedSame(w, v);
      PersistChoked(v, true, io);
    } else {
      TouchChoked(w, r.world);
    }
  }

  lemma EvaluateChoked(k: Digests, w: World, s: Step)
    requires Choked(w) && s.op.EvaluateOp?
    ensures Choked(Apply(k, w, s)) && Logged(k, w, s).None?
  {
    var op, io := s.op, s.io;
    hide EvaluateDomain, DecideFor, AppendJournal, RecordFor, Accepted, Choked, Attempt;
    EvaluateFrame(k, w, op.domain, op.tick, op.cancelled, op.wall, io);
    var w1 := w.(clock := EvaluationTick(w, op.tick));
    ChokedSame(w, w1);
    if Attempt(k, w, op.domain, op.tick, op.cancelled, op.wall).Some? {
      var r := Attempt(k, w, op.domain, op.tick, op.cancelled, op.wall).value;
      ChokedAppend(w1, r, io);
      ChokedAppend(w, r, io);
    }
  }

  lemma ReopenChoked(w: World)
    requires Choked(w)
    ensures Choked(Reopened(w))
  {
    LoadedAudit(w);
    var audit := Merge(w.disk.saved.audit, w.disk.journal, w.options.maxAuditRecords);
    MergedEnd(w.disk.saved.audit, w.disk.journal, w.options.maxAuditRecords);
    hide Load, Merge;
  }

  lemma MergedEnd(audit: seq<AuditRecord>, journal: seq<AuditRecord>, bound: nat)
    requires |journal| <= bound
    ensures var merged := Merge(audit, journal, bound);
            |journal| <= |merged| && Newest(merged, |journal|) == journal
  {
    if journal != [] {
      var all := Before(audit, journal[0].id) + journal;
      assert Newest(Newest(all, bound), |journal|) == journal;
    }
  }

  lemma StepChoked(k: Digests, w: World, s: Step)
    requires Choked(w)
    ensures Choked(Apply(k, w, s)) && Logged(k, w, s).None?
  {
    hide Choked, Touches, AdvanceEpoch, Publish, EvaluateDomain, Reopened, Persist, Reopens, Attempt;
    match s.op
    case NewEpoch(epoch) =>
      EpochFrame(w, epoch, s.io);
      ChokedSame(w, Advanced(w, epoch));
      PersistChoked(Advanced(w, epoch), true, s.io);
    case PublishOp(snapshot) => PublishChoked(k, w, snapshot, s.io);
    case EvaluateOp(_, _, _, _) => EvaluateChoked(k, w, s);
    case CrashAndReopen => ReopenChoked(w);
    case _ =>
      var v, committed := QuietFrame(k, w, s);
      TouchChoked(w, v);
      PersistChoked(v, true, s.io);
      hide Apply;
  }

  /** From then on no evaluation is recorded, so no decision is made, whatever is done and however often the
      governor is restarted. */
  lemma {:induction false} ChokedForEver(k: Digests, ws: seq<World>, steps: seq<Step>, m: nat, n: nat)
    requires IsRun(k, ws, steps) && m <= n < |steps| && Choked(ws[m])
    ensures Choked(ws[n]) && Logged(k, ws[n], steps[n]).None?
    decreases n - m
  {
    hide Choked, Apply, Logged;
    if m < n {
      ChokedForEver(k, ws, steps, m, n - 1);
      assert ws[n] == Apply(k, ws[n - 1], steps[n - 1]);
      StepChoked(k, ws[n - 1], steps[n - 1]);
    }
    StepChoked(k, ws[n], steps[n]);
  }

  // ------------------------------------------------------ when it comes to that

  /** The audit tail reaches back as far as the journal. */
  predicate TailCovers(w: World) {
    w.options.maxJournalRecords <= w.options.maxAuditRecords ==>
      |w.disk.journal| <= |w.state.audit| && |w.disk.journal| <= w.options.maxJournalRecords
      && JournalSize(w.disk.journal) <= w.options.maxJournalBytes
  }

  lemma CoversSame(w: World, v: World)
    requires TailCovers(w) && v.options == w.options && v.disk.journal == w.disk.journal && v.state.audit == w.state.audit
    ensures TailCovers(v)
  {
  }

  lemma PersistCovers(w: World, force: bool, io: Io)
    requires TailCovers(w)
    ensures TailCovers(Persist(w, force, io).world)
  {
  }

  lemma TouchCovers(w: World, v: World)
    requires TailCovers(w) && Touches(w, v)
    ensures TailCovers(v)
  {
    hide ValidPolicy, SlotsEvolve;
  }

  lemma {:induction false} FittingSize(rs: seq<AuditRecord>, used: nat, bound: nat)
    requires used <= bound
    ensures used + JournalSize(FittingFrom(rs, used, bound)) <= bound
  {
    if rs != [] && used + FrameSize(rs[0]) <= bound {
      var rest := FittingFrom(rs[1..], used + FrameSize(rs[0]), bound);
      FittingSize(rs[1..], used + FrameSize(rs[0]), bound);
      JournalSizeSplit([rs[0]], rest);
      assert [rs[0]][..0] == [];
    }
  }

  lemma CompactCovers(w: World, io: Io)
    requires TailCovers(w)
    ensures TailCovers(Compact(w, io).world)
  {
    FittingSize(Newest(w.state.audit, Keep(w.options)), 0, w.options.maxJournalBytes);
    hide JournalSize, FittingFrom;
  }

  lemma AddedCovers(w: World, v: World, r: AuditRecord)
    requires TailCovers(w) && FrameFits(w.options, w.disk.journal, r)
    requires v == w.(disk := w.disk.(journal := w.disk.journal + [r]),
                     state := w.state.(audit := Newest(w.state.audit + [r], w.options.maxAuditRecords)))
    ensures TailCovers(v)
  {
    assert (w.disk.journal + [r])[..|w.disk.journal|] == w.disk.journal;
  }

  lemma AppendCovers(w: World, r: AuditRecord, io: Io)
    requires TailCovers(w)
    ensures TailCovers(AppendJournal(w, r, io).world)
  {
    hide *;
    CompactCovers(w, io);
    var v := AppendedTo(w, r, io);
    if AppendJournal(w, r, io).status.Success? {
      AddedCovers(v, AppendJournal(w, r, io).world, r);
    }
  }

  lemma PublishCovers(k: Digests, w: World, snapshot: Snapshot, io: Io)
    requires TailCovers(w)
    ensures TailCovers(Publish(k, w, snapshot, io).world)
  {
    hide TailCovers, Ingest, Touches, Persist, Filled;
    var s := Digested(k, snapshot);
    var r := Ingest(k, w, s, io);
    PublishFrame(k, w, s, io);
    if IsAccepted(r) {
      var v := Published(k, w, s, PublisherIndex(w.state.publishers, ProvenanceOf(s).publisher).value, r.value.generation);
      CoversSame(w, v);
      PersistCovers(v, true, io);
    } else {
      TouchCovers(w, r.world);
    }
  }

  lemma EvaluateCovers(k: Digests, w: World, s: Step)
    requires TailCovers(w) && s.op.EvaluateOp?
    ensures TailCovers(Apply(k, w, s))
  {
    var op, io := s.op, s.io;
    hide EvaluateDomain, DecideFor, AppendJournal, RecordFor, Persist, Settled, TailCovers, Attempt;
    EvaluateFrame(k, w, op.domain, op.tick, op.cancelled, op.wall, io);
    var w1 := w.(clock := EvaluationTick(w, op.tick));
    CoversSame(w, w1);
    if Attempt(k, w, op.domain, op.tick, op.cancelled, op.wall).Some? {
      var (d, a) := DecideFor(k, w1, op.domain, w1.clock);
      var r := Attempt(k, w, op.domain, op.tick, op.cancelled, op.wall).value;
      AppendCovers(w1, r, io);
      var w2 := AppendJournal(w1, r, io).world;
      CoversSame(w2, Accepted(w2, op.domain, d, a));
      PersistCovers(Accepted(w2, op.domain, d, a), false, io);
    }
  }

  lemma ReopenCovers(w: World)
    requires TailCovers(w)
    ensures TailCovers(Reopened(w))
  {
    LoadedAudit(w);
    if w.options.maxJournalRecords <= w.options.maxAuditRecords {
      MergedEnd(w.disk.saved.audit, w.disk.journal, w.options.maxAuditRecords);
    }
    hide Load, Merge;
  }

  lemma StepCovers(k: Digests, w: World, s: Step)
    requires TailCovers(w)
    ensures TailCovers(Apply(k, w, s))
  {
    hide TailCovers, Touches, AdvanceEpoch, Publish, EvaluateDomain, Reopened, Persist, Reopens;
    match s.op
    case NewEpoch(epoch) =>
      EpochFrame(w, epoch, s.io);
      CoversSame(w, Advanced(w, epoch));
      PersistCovers(Advanced(w, epoch), true, s.io);
    case PublishOp(snapshot) => PublishCovers(k, w, snapshot, s.io);
    case EvaluateOp(_, _, _, _) => EvaluateCovers(k, w, s);
    case CrashAndReopen => ReopenCovers(w);
    case _ =>
      var v, committed := QuietFrame(k, w, s);
      TouchCovers(w, v);
      PersistCovers(v, true, s.io);
      hide Apply;
  }

  lemma {:induction false} RunCovers(k: Digests, ws: seq<World>, steps: seq<Step>, n: nat)
    requires IsRun(k, ws, steps) && TailCovers(ws[0]) && n < |ws|
    ensures TailCovers(ws[n])
  {
    hide TailCovers, Apply;
    if n > 0 {
      RunCovers(k, ws, steps, n - 1);
      assert ws[n] == Apply(k, ws[n - 1], steps[n - 1]);
      StepCovers(k, ws[n - 1], steps[n - 1]);
    }
  }

  /** When compaction keeps as many records as the journal may hold, and bytes and audit tail have room for
      that many, the first full journal is the last: nothing is recorded after it. */
  lemma FullJournalIsTheEnd(k: Digests, o: Options, p: Policy, ws: seq<World>, steps: seq<Step>, m: nat, n: nat)
    requires o.compactionRecords >= o.maxJournalRecords && o.maxJournalRecords <= o.maxAuditRecords <= MAX_AUDIT_RECORDS
    requires o.maxJournalRecords * MAX_FRAME <= o.maxJournalBytes
    requires IsRun(k, ws, steps) && ws[0] == Fresh(k, o, p) && m <= n < |steps|
    requires |ws[m].disk.journal| == o.maxJournalRecords
    ensures Logged(k, ws[n], steps[n]).None?
  {
    FreshWithin(k, o, p);
    assert Fresh(k, o, p).options == o && TailCovers(Fresh(k, o, p));
    hide Fresh, IsRun, Logged;
    RunKeepsOptions(k, ws, steps, m);
    RunWithin(k, ws, steps, m);
    RunCovers(k, ws, steps, m);
    TailWithin(ws[m].state.audit, o.maxJournalRecords);
    JournalSizeBounded(Newest(ws[m].state.audit, o.maxJournalRecords));
    assert Choked(ws[m]) by { hide JournalSize, RecordsBounded; }
    ChokedForEver(k, ws, steps, m, n);
  }
}
