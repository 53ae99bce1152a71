/** Runs on which a promise of the repository's documentation fails. Each shows that the condition stated
    with the property elsewhere is needed. */
module FailingRuns {
  import opened Checked
  import opened Wire
  import opened Model
  import opened PolicyRules
  import opened Engine
  import opened EvidenceRules
  import opened HysteresisRules
  import opened Replay
  import opened Governing
  import opened Frames
  import opened Binding
  import opened Recovery
  import opened RecoveryRuns
  import opened RecoverySteps
  import opened RecoveryOptions
  import opened Readability
  import opened PublisherAuthority
  import opened JournalRoom

  const WRITES := Io(true, true, true)
  const UNSAVED := Io(true, true, false)

  /** The worlds of the run that takes these steps from `w`. */
  function Trace(k: Digests, w: World, steps: seq<Step>): (ws: seq<World>)
    ensures |ws| == |steps| + 1 && ws[0] == w
  {
    if steps == [] then [w]
    else
      var ws := Trace(k, w, steps[..|steps| - 1]);
      ws + [Apply(k, ws[|ws| - 1], steps[|steps| - 1])]
  }

  lemma {:induction false} TraceIsRun(k: Digests, w: World, steps: seq<Step>)
    ensures IsRun(k, Trace(k, w, steps), steps)
  {
    hide Apply;
    if steps != [] {
      var init := steps[..|steps| - 1];
      TraceIsRun(k, w, init);
      forall n | 0 <= n < |steps|
        ensures Trace(k, w, steps)[n + 1] == Apply(k, Trace(k, w, steps)[n], steps[n])
      {
        if n < |init| {
          assert steps[n] == init[n];
        }
      }
    }
  }

  lemma TraceSnoc(k: Digests, w: World, steps: seq<Step>, s: Step)
    ensures Trace(k, w, steps + [s]) == Trace(k, w, steps) + [Apply(k, Trace(k, w, steps)[|steps|], s)]
  {
    hide Apply;
    assert (steps + [s])[..|steps|] == steps;
  }

  lemma TraceTwo(k: Digests, w: World, a: Step, b: Step)
    ensures var v := Apply(k, w, a); Trace(k, w, [a, b]) == [w, v, Apply(k, v, b)]
  {
    hide Apply;
    assert [] + [a] == [a] && [a] + [b] == [a, b];
    TraceSnoc(k, w, [], a);
    TraceSnoc(k, w, [a], b);
  }

  lemma TraceThree(k: Digests, w: World, a: Step, b: Step, c: Step)
    ensures var v := Apply(k, w, a);
            var u := Apply(k, v, b);
            Trace(k, w, [a, b, c]) == [w, v, u, Apply(k, u, c)]
  {
    hide Apply;
    assert [a, b] + [c] == [a, b, c];
    TraceTwo(k, w, a, b);
    TraceSnoc(k, w, [a, b], c);
  }

  // ------------------------------------------ evaluations without evidence

  lemma NothingPublished(w: World, domain: u64, tick: u64)
    requires w.slots == []
    ensures CurrentEvaluation(w, domain, tick).assessment.verdict.outcome.Unknown?
  {
    assert CurrentEvidence(w, domain) == Evidence(None, None, None);
    hide CurrentEvidence, CurrentExpectation;
  }

  lemma UnknownIsUnfenced(k: Digests, w: World, id: u64, wall: u64)
    requires w.slots == [] && DomainIndex(w.state.domains, id).None?
    ensures var (d, a) := DecideFor(k, w, id, w.clock); !RecordFor(k, w, id, d, a, wall).fenced
  {
    NothingPublished(w, id, w.clock);
    hide CurrentEvaluation, CurrentExpectation, BindingFault;
  }

  predicate RoomFor(w: World) {
    |w.disk.journal| + 1 <= w.options.maxJournalRecords
      && JournalSize(w.disk.journal) + MAX_FRAME <= w.options.maxJournalBytes
  }

  /** `v` is `u` with the record of one more evaluation of the domain. */
  predicate Extends(u: World, v: World, r: AuditRecord, id: u64) {
    && v.options == u.options && v.slots == u.slots && v.clock == u.clock && v.state.epoch == u.state.epoch
    && v.disk.journal == u.disk.journal + [r]
    && v.state.audit == Newest(u.state.audit + [r], u.options.maxAuditRecords)
    && Ids(v.state.domains) == IdsWith(Ids(u.state.domains), id) && |v.state.domains| == |Ids(v.state.domains)|
    && v.state.decisionsIssued == r.id == Next(u.state.decisionsIssued) && r.domain == id
    && |r.summary| <= MAX_AUDIT_SUMMARY
    && (Next(u.sinceSave) < u.options.saveEvery ==>
          v.disk.saved == u.disk.saved && v.sinceSave == Next(u.sinceSave))
  }

  /** An evaluation with nothing published is recorded: in the world it starts in when the journal has
      room, in the compacted one when that has. */
  lemma RecordsUnknown(k: Digests, w: World, u: World, id: u64, wall: u64) returns (r: AuditRecord)
    requires id != 0 && w.slots == [] && |w.state.domains| < MAX_DOMAINS_STATE && RoomFor(u)
    requires u == w || (u == Compact(w, WRITES).world && |w.disk.journal| + 1 > w.options.maxJournalRecords)
    ensures Extends(u, EvaluateDomain(k, w, id, 0, false, wall, WRITES).world, r, id)
    ensures Logged(k, w, Step(EvaluateOp(id, 0, false, wall), WRITES)) == Some(r)
    ensures DomainIndex(w.state.domains, id).None? ==> !r.fenced
  {
    assert w.(clock := EvaluationTick(w, 0)) == w;
    hide DecideFor, RecordFor, AppendJournal, Settled, EvaluateDomain, Attempt, Compact, Enter, RoomFor, FrameFits,
      Logged, EvaluationTick, Accepted, Persist, Extends;
    var (d, a) := DecideFor(k, w, id, w.clock);
    r := RecordFor(k, w, id, d, a, wall);
    if DomainIndex(w.state.domains, id).None? {
      UnknownIsUnfenced(k, w, id, wall);
    }
    RecordHeader(k, w, id, w.clock, wall);
    FitsWhenRoom(u, r);
    EvaluateFrame(k, w, id, 0, false, wall, WRITES);
    AttemptGiven(k, w, id, wall);
    FullJournal(w, r);
    AppendsTo(w, u, r);
    SettledDomain(k, w, id, w.clock);
    AppendJournalKeeps(w, r, WRITES);
    SettledSame(w, AppendJournal(w, r, WRITES).world, id, d, a);
    LoggedIs(k, w, id, wall, r);
    CompactedSame(w);
    AcceptedExtends(u, AppendJournal(w, r, WRITES).world, id, d, a, r);
  }

  lemma FullJournal(w: World, r: AuditRecord)
    ensures |w.disk.journal| + 1 > w.options.maxJournalRecords ==> !FrameFits(w.options, w.disk.journal, r)
  {
  }

  lemma LoggedIs(k: Digests, w: World, id: u64, wall: u64, r: AuditRecord)
    requires Attempt(k, w, id, 0, false, wall) == Some(r) && AppendJournal(w, r, WRITES).status.Success?
    ensures Logged(k, w, Step(EvaluateOp(id, 0, false, wall), WRITES)) == Some(r)
  {
    hide Attempt, AppendJournal;
  }

  lemma CompactedSame(w: World)
    ensures SameRuntime(Compact(w, WRITES).world, w)
  {
  }

  lemma AcceptedExtends(u: World, v: World, id: u64, d: Decision, a: Announcement, r: AuditRecord)
    requires v == u.(disk := u.disk.(journal := u.disk.journal + [r]),
                     state := u.state.(audit := Newest(u.state.audit + [r], u.options.maxAuditRecords)))
    requires Settled(v, id, d, a).domain == id == r.domain && d.id == r.id == Next(u.state.decisionsIssued)
    requires |r.summary| <= MAX_AUDIT_SUMMARY
    ensures Extends(u, Persist(Accepted(v, id, d, a), false, WRITES).world, r, id)
  {
    hide Settled, Enter, Newest, IdsWith;
    EnterIds(u.state.domains, Settled(v, id, d, a));
  }

  lemma RecordHeader(k: Digests, w: World, id: u64, tick: u64, wall: u64)
    ensures var (d, a) := DecideFor(k, w, id, tick);
            var r := RecordFor(k, w, id, d, a, wall);
            && r.id == d.id == Next(w.state.decisionsIssued) && r.domain == id && |r.summary| <= MAX_AUDIT_SUMMARY
            && d.issuedTick == tick
  {
    hide Announcing, CurrentEvaluation, CurrentExpectation, BindingFault;
  }

  lemma FitsWhenRoom(u: World, r: AuditRecord)
    requires RoomFor(u) && |r.summary| <= MAX_AUDIT_SUMMARY
    ensures FrameFits(u.options, u.disk.journal, r)
  {
  }

  lemma AttemptGiven(k: Digests, w: World, id: u64, wall: u64)
    requires id != 0 && |w.state.domains| < MAX_DOMAINS_STATE
    ensures var (d, a) := DecideFor(k, w, id, w.clock);
            Attempt(k, w, id, 0, false, wall) == Some(RecordFor(k, w, id, d, a, wall))
  {
    assert w.(clock := EvaluationTick(w, 0)) == w;
    hide DecideFor, RecordFor;
  }

  lemma AppendsTo(w: World, u: World, r: AuditRecord)
    requires FrameFits(u.options, u.disk.journal, r)
    requires u == w || (u == Compact(w, WRITES).world && !FrameFits(w.options, w.disk.journal, r))
    ensures var a := AppendJournal(w, r, WRITES);
            && a.status.Success?
            && a.world == u.(disk := u.disk.(journal := u.disk.journal + [r]),
                             state := u.state.(audit := Newest(u.state.audit + [r], u.options.maxAuditRecords)))
  {
    hide FrameFits;
  }

  // ------------------------------------------------- a fence that is forgotten

  /** Evaluate, advance the epoch, crash: the domain is fenced when the crash comes and not fenced after
      the restart. */
  lemma EpochFenceForgotten(k: Digests, o: Options, p: Policy, id: u64, wall: u64)
    requires id != 0 && 1 <= o.maxJournalRecords && MAX_FRAME <= o.maxJournalBytes
    requires ValidPolicy(InitialPolicy(k, p)) && o.maxAuditRecords <= MAX_AUDIT_RECORDS
    ensures var steps := [Step(EvaluateOp(id, 0, false, wall), WRITES), Step(NewEpoch(2), WRITES),
                          Step(CrashAndReopen, WRITES)];
            var ws := Trace(k, Fresh(k, o, p), steps);
            && IsRun(k, ws, steps) && Reopens(ws[2])
            && |ws[2].state.domains| == |ws[3].state.domains| == 1
            && ws[2].state.domains[0].fenced && !ws[3].state.domains[0].fenced
  {
    assert 4 < U64_LIMIT - 1;
    hide *;
    var a, b, c := Step(EvaluateOp(id, 0, false, wall), WRITES), Step(NewEpoch(2), WRITES), Step(CrashAndReopen, WRITES);
    TraceThree(k, Fresh(k, o, p), a, b, c);
    TraceIsRun(k, Fresh(k, o, p), [a, b, c]);
    FenceComesAndGoes(k, o, p, id, wall);
    StillReopens(k, o, p, Trace(k, Fresh(k, o, p), [a, b, c]), [a, b, c], 2);
  }

  lemma FenceComesAndGoes(k: Digests, o: Options, p: Policy, id: u64, wall: u64)
    requires id != 0 && 1 <= o.maxJournalRecords && MAX_FRAME <= o.maxJournalBytes
    ensures var v := Apply(k, Fresh(k, o, p), Step(EvaluateOp(id, 0, false, wall), WRITES));
            var u := Apply(k, v, Step(NewEpoch(2), WRITES));
            && |u.state.domains| == 1 && u.state.domains[0].fenced
            && (Reopens(u) ==> var t := Apply(k, u, Step(CrashAndReopen, WRITES));
                               |t.state.domains| == 1 && !t.state.domains[0].fenced)
  {
    hide *;
    var log := FirstUnfenced(k, o, p, id, wall);
    FenceLost(k, Apply(k, Fresh(k, o, p), Step(EvaluateOp(id, 0, false, wall), WRITES)), log, id);
  }

  /** The first evaluation leaves one domain, and a record that does not fence it. */
  lemma FirstUnfenced(k: Digests, o: Options, p: Policy, id: u64, wall: u64) returns (log: seq<AuditRecord>)
    requires id != 0 && 1 <= o.maxJournalRecords && MAX_FRAME <= o.maxJournalBytes
    ensures var v := Apply(k, Fresh(k, o, p), Step(EvaluateOp(id, 0, false, wall), WRITES));
            && Recoverable(v, log) && v.state.epoch == 1 && Ids(v.state.domains) == [id]
            && Last(v.disk.journal, id).Some? && !Last(v.disk.journal, id).value.fenced
  {
    FreshFacts(k, o, p);
    FreshRecoverable(k, o, p);
    hide Fresh, Recoverable;
    log := FirstRecord(k, Fresh(k, o, p), id, wall);
  }

  lemma FirstRecord(k: Digests, w: World, id: u64, wall: u64) returns (log: seq<AuditRecord>)
    requires id != 0 && Recoverable(w, []) && RoomFor(w) && w.slots == []
    requires w.state.domains == [] && w.disk.journal == [] && w.state.audit == [] && w.sinceSave == 0
    ensures var v := Apply(k, w, Step(EvaluateOp(id, 0, false, wall), WRITES));
            && Recoverable(v, log) && v.state.epoch == w.state.epoch && Ids(v.state.domains) == [id]
            && Last(v.disk.journal, id).Some? && !Last(v.disk.journal, id).value.fenced
  {
    hide *;
    var a := Step(EvaluateOp(id, 0, false, wall), WRITES);
    RequestApplies(k, w, id, wall);
    RoomIsSafe(k, w, a);
    FewRecords();
    var r := RecordsUnknown(k, w, w, id, wall);
    log := LogAfter(k, w, [], a);
    EvaluateRecoverable(k, w, [], a);
    FirstExtends(w, Apply(k, w, a), r, id);
  }

  lemma RequestApplies(k: Digests, w: World, id: u64, wall: u64)
    ensures Apply(k, w, Step(EvaluateOp(id, 0, false, wall), WRITES))
            == EvaluateDomain(k, w, id, 0, false, wall, WRITES).world
  {
    hide EvaluateDomain;
  }

  lemma FewRecords()
    ensures 4 < U64_LIMIT - 1 && 0 < MAX_DOMAINS_STATE
  {
  }

  lemma RoomIsSafe(k: Digests, w: World, s: Step)
    requires w.state.audit == [] && w.sinceSave == 0
    ensures SafeStep(k, w, s)
  {
  }

  lemma FirstExtends(w: World, v: World, r: AuditRecord, id: u64)
    requires Extends(w, v, r, id) && w.state.domains == [] && w.disk.journal == [] && !r.fenced
    ensures v.state.epoch == w.state.epoch && Ids(v.state.domains) == [id]
    ensures Last(v.disk.journal, id) == Some(r)
  {
    LastOne(r, id);
    assert [] + [r] == [r];
    hide Last;
  }

  lemma FreshFacts(k: Digests, o: Options, p: Policy)
    ensures var w := Fresh(k, o, p);
            && w.options == o && w.slots == [] && w.state.domains == [] && w.state.decisionsIssued == 0
            && w.state.audit == [] && w.disk.journal == [] && w.disk.saved.domains == [] && w.sinceSave == 0
            && w.state.epoch == 1 && w.clock == 0
  {
  }

  lemma FenceLost(k: Digests, v: World, log: seq<AuditRecord>, id: u64)
    requires Recoverable(v, log) && v.state.epoch == 1 && Ids(v.state.domains) == [id]
    requires Last(v.disk.journal, id).Some? && !Last(v.disk.journal, id).value.fenced
    ensures var u := Apply(k, v, Step(NewEpoch(2), WRITES));
            && |u.state.domains| == 1 && u.state.domains[0].fenced
            && (Reopens(u) ==> var t := Apply(k, u, Step(CrashAndReopen, WRITES));
                               |t.state.domains| == 1 && !t.state.domains[0].fenced)
  {
    assert |v.state.domains| == 1 && v.state.domains[0].domain == id by { hide Recoverable, Last; }
    hide *;
    EpochFenceAfterRestart(v, log, 2, 0);
    EpochApplied(k, v);
    CrashApplied(k, AdvanceEpoch(v, 2, WRITES).world);
  }

  lemma EpochApplied(k: Digests, v: World)
    requires v.state.epoch == 1
    ensures var u := AdvanceEpoch(v, 2, WRITES).world;
            Apply(k, v, Step(NewEpoch(2), WRITES)) == u && |u.state.domains| == |v.state.domains|
  {
    hide AdvanceEpoch, Persist;
    EpochFrame(v, 2, WRITES);
    PersistKeepsTable(Advanced(v, 2));
  }

  lemma CrashApplied(k: Digests, u: World)
    ensures Reopens(u) ==> Apply(k, u, Step(CrashAndReopen, WRITES)) == Reopened(u)
  {
    hide Reopened, Reopens;
  }

  lemma PersistKeepsTable(w: World)
    ensures Persist(w, true, WRITES).world.state.domains == w.state.domains
  {
  }

  lemma StillReopens(k: Digests, o: Options, p: Policy, ws: seq<World>, steps: seq<Step>, n: nat)
    requires IsRun(k, ws, steps) && ws[0] == Fresh(k, o, p) && n < |ws| < U64_LIMIT - 1
    requires ValidPolicy(InitialPolicy(k, p)) && o.maxAuditRecords <= MAX_AUDIT_RECORDS
    requires forall j :: 0 <= j < n ==> !steps[j].op.PublishOp? && !steps[j].op.CrashAndReopen?
    ensures Reopens(ws[n])
  {
    assert PublishedPairs(steps[..n]) == {};
    FewPairsAlwaysLoad(k, o, p, ws, steps, n);
    ReopensUnlessCrowded(k, o, p, ws, steps, n);
    hide Fresh, IsRun, Load, Reopens;
  }

  // ---------------------------------------- a compaction that loses a domain

  /** Room for two journal records, one kept by a compaction, a save after every fourth decision: nothing
      ever fails, and yet the third evaluation compacts away the only trace of the first. */
  predicate Cramped(o: Options) {
    && o.maxJournalRecords == 2 && o.compactionRecords == 1 && o.saveEvery >= 4
    && 1 <= o.maxAuditRecords <= MAX_AUDIT_RECORDS && 2 * MAX_FRAME <= o.maxJournalBytes
  }

  function Request(id: u64, wall: u64): Step { Step(EvaluateOp(id, 0, false, wall), WRITES) }

  lemma TakesRequest(k: Digests, w: World, u: World, log: seq<AuditRecord>, id: u64, wall: u64) returns (r: AuditRecord)
    requires id != 0 && w.slots == [] && |w.state.domains| < MAX_DOMAINS_STATE && RoomFor(u)
    requires u == w || (u == Compact(w, WRITES).world && |w.disk.journal| + 1 > w.options.maxJournalRecords)
    ensures Extends(u, Apply(k, w, Request(id, wall)), r, id)
    ensures LogAfter(k, w, log, Request(id, wall)) == log + [r]
  {
    hide EvaluateDomain, Extends, Logged, RoomFor, Compact;
    r := RecordsUnknown(k, w, u, id, wall);
  }

  /** An open runtime without evidence, nothing saved but the empty table, and these records and domains. */
  predicate Stage(w: World, o: Options, journal: seq<AuditRecord>, ids: seq<u64>, unsaved: nat) {
    && w.options == o && w.slots == [] && w.disk.journal == journal && Ids(w.state.domains) == ids
    && |w.state.domains| == |ids| && w.disk.saved.domains == [] && w.sinceSave == unsaved
    && (journal != [] ==> w.state.audit != [] && w.state.audit[|w.state.audit| - 1] == journal[|journal| - 1])
    && forall i :: 0 <= i < |journal| ==> |journal[i].summary| <= MAX_AUDIT_SUMMARY
  }

  lemma NextStage(u: World, v: World, o: Options, journal: seq<AuditRecord>, ids: seq<u64>, unsaved: nat, r: AuditRecord,
                  id: u64)
    requires Stage(u, o, journal, ids, unsaved) && Extends(u, v, r, id) && unsaved + 1 < o.saveEvery
             && o.maxAuditRecords >= 1
    ensures Stage(v, o, journal + [r], IdsWith(ids, id), unsaved + 1)
  {
  }

  lemma StageHasRoom(w: World, o: Options, journal: seq<AuditRecord>, ids: seq<u64>, unsaved: nat)
    requires Cramped(o) && Stage(w, o, journal, ids, unsaved) && |journal| <= 1
    ensures RoomFor(w)
  {
    if journal != [] {
      assert journal[..0] == [];
    }
  }

  /** Compaction keeps one record. */
  lemma CompactedStage(w: World, o: Options, first: AuditRecord, second: AuditRecord, ids: seq<u64>, unsaved: nat)
    requires Cramped(o) && Stage(w, o, [first, second], ids, unsaved)
    ensures Stage(Compact(w, WRITES).world, o, [second], ids, unsaved)
    ensures Compact(w, WRITES).world.state.decisionsIssued == w.state.decisionsIssued
  {
    assert Keep(o) == 1;
    assert [first, second][1] == second;
    assert Newest(w.state.audit, 1) == [second];
    assert [second] + [] == [second];
    assert FittingFrom([second], 0, o.maxJournalBytes) == [second];
  }

  /** Three evaluations, of domains 1, 2 and 2. */
  lemma ThreeRequests(k: Digests, w: World, o: Options, wall: u64)
    returns (r1: AuditRecord, r2: AuditRecord, r3: AuditRecord)
    requires Cramped(o) && Stage(w, o, [], [], 0) && w.state.decisionsIssued == 0
    ensures var w1 := Apply(k, w, Request(1, wall));
            var w2 := Apply(k, w1, Request(2, wall));
            var w3 := Apply(k, w2, Request(2, wall));
            && LogAfter(k, w, [], Request(1, wall)) == [r1]
            && LogAfter(k, w1, [r1], Request(2, wall)) == [r1, r2]
            && LogAfter(k, w2, [r1, r2], Request(2, wall)) == [r1, r2, r3]
            && Stage(w3, o, [r2, r3], [1, 2], 3) && r2.domain == r3.domain == 2 && r2.id == 2 && r3.id == 3
  {
    hide Apply, LogAfter, Compact, RoomFor, Stage;
    var w1 := Apply(k, w, Request(1, wall));
    var w2 := Apply(k, w1, Request(2, wall));
    var w3 := Apply(k, w2, Request(2, wall));
    StageHasRoom(w, o, [], [], 0);
    StageParts(w, o, [], [], 0);
    r1 := TakesRequest(k, w, w, [], 1, wall);
    NextStage(w, w1, o, [], [], 0, r1, 1);
    assert [] + [r1] == [r1] && IdsWith([], 1) == [1];
    StageHasRoom(w1, o, [r1], [1], 1);
    StageParts(w1, o, [r1], [1], 1);
    r2 := TakesRequest(k, w1, w1, [r1], 2, wall);
    NextStage(w1, w2, o, [r1], [1], 1, r2, 2);
    assert [r1] + [r2] == [r1, r2] && IdsWith([1], 2) == [1, 2];
    StageParts(w2, o, [r1, r2], [1, 2], 2);
    var u := Compact(w2, WRITES).world;
    CompactedStage(w2, o, r1, r2, [1, 2], 2);
    StageHasRoom(u, o, [r2], [1, 2], 2);
    r3 := TakesRequest(k, w2, u, [r1, r2], 2, wall);
    NextStage(u, w3, o, [r2], [1, 2], 2, r3, 2);
    assert [r2] + [r3] == [r2, r3] && [r1, r2] + [r3] == [r1, r2, r3] && IdsWith([1, 2], 2) == [1, 2];
  }

  lemma StageParts(w: World, o: Options, journal: seq<AuditRecord>, ids: seq<u64>, unsaved: nat)
    requires Stage(w, o, journal, ids, unsaved)
    ensures w.options == o && w.slots == [] && |w.state.domains| == |ids| && w.disk.journal == journal
  {
  }

  /** What is left of the journal knows one domain only. */
  lemma LoadsOneDomain(w: World, o: Options, r2: AuditRecord, r3: AuditRecord)
    requires Stage(w, o, [r2, r3], [1, 2], 3) && r2.domain == r3.domain == 2 && r2.id == 2 && r3.id == 3
    ensures Ids(Load(w.options, w.disk).domains) == [2]
  {
    var merged := w.disk.saved.(audit := Merge(w.disk.saved.audit, w.disk.journal, w.options.maxAuditRecords));
    assert [r2, r3][..1] == [r2] && [r2][..0] == [];
    assert IdsAfter([], [r2]) == [2];
    assert IdsAfter([], [r2, r3]) == [2];
    assert Ids(merged.domains) == [];
    NothingSkipped(merged, [r2, r3]);
    hide Rebuild, Merge, IdsAfter;
  }

  /** The three evaluations as a run, with what they append. */
  lemma ThreeRequestsRun(k: Digests, o: Options, p: Policy, wall: u64) returns (logs: seq<seq<AuditRecord>>)
    requires Cramped(o)
    ensures var steps := [Request(1, wall), Request(2, wall), Request(2, wall)];
            var ws := Trace(k, Fresh(k, o, p), steps);
            && IsRun(k, ws, steps) && Logs(k, logs, ws, steps)
            && Ids(ws[3].state.domains) == [1, 2] && Ids(Load(ws[3].options, ws[3].disk).domains) == [2]
  {
    hide *;
    var w, steps := Fresh(k, o, p), [Request(1, wall), Request(2, wall), Request(2, wall)];
    FreshStage(k, o, p);
    TraceThree(k, w, steps[0], steps[1], steps[2]);
    TraceIsRun(k, w, steps);
    var r1, r2, r3 := ThreeRequests(k, w, o, wall);
    logs := [[], [r1], [r1, r2], [r1, r2, r3]];
    var ws := Trace(k, w, steps);
    LogsOfThree(k, logs, ws, steps);
    LoadsOneDomain(ws[3], o, r2, r3);
    StageDomains(ws[3], o, [r2, r3], [1, 2], 3);
  }

  lemma FreshStage(k: Digests, o: Options, p: Policy)
    ensures Stage(Fresh(k, o, p), o, [], [], 0) && Fresh(k, o, p).state.decisionsIssued == 0
  {
    FreshFacts(k, o, p);
    hide Fresh;
  }

  lemma LogsOfThree(k: Digests, logs: seq<seq<AuditRecord>>, ws: seq<World>, steps: seq<Step>)
    requires |logs| == |ws| == |steps| + 1 == 4 && logs[0] == [] && logs[1] == LogAfter(k, ws[0], logs[0], steps[0])
    requires logs[2] == LogAfter(k, ws[1], logs[1], steps[1]) && logs[3] == LogAfter(k, ws[2], logs[2], steps[2])
    ensures Logs(k, logs, ws, steps)
  {
    hide LogAfter;
  }

  lemma CompactionLosesDecision(k: Digests, o: Options, p: Policy, wall: u64) returns (logs: seq<seq<AuditRecord>>)
    requires Cramped(o) && ValidPolicy(InitialPolicy(k, p))
    ensures var steps := [Request(1, wall), Request(2, wall), Request(2, wall)];
            var ws := Trace(k, Fresh(k, o, p), steps);
            var t := TryLoad(ws[3].options, ws[3].disk);
            && IsRun(k, ws, steps) && Logs(k, logs, ws, steps) && t.Some?
            && Ids(ws[3].state.domains) == [1, 2] && Ids(t.value.domains) == [2] && !Restored(ws[3], logs[3], t.value)
  {
    var steps := [Request(1, wall), Request(2, wall), Request(2, wall)];
    assert PublishedPairs(steps[..3]) == {};
    assert o.maxAuditRecords <= MAX_AUDIT_RECORDS;
    hide *;
    logs := ThreeRequestsRun(k, o, p, wall);
    var ws := Trace(k, Fresh(k, o, p), steps);
    FewPairsAlwaysLoad(k, o, p, ws, steps, 3);
    OneIsNotTwo(ws[3], logs[3], Load(ws[3].options, ws[3].disk));
  }

  lemma StageDomains(w: World, o: Options, journal: seq<AuditRecord>, ids: seq<u64>, unsaved: nat)
    requires Stage(w, o, journal, ids, unsaved)
    ensures Ids(w.state.domains) == ids
  {
  }

  lemma OneIsNotTwo(w: World, log: seq<AuditRecord>, t: DurableState)
    requires |Ids(w.state.domains)| == 2 && |Ids(t.domains)| == 1
    ensures !Restored(w, log, t)
  {
  }

  // ----------------------------------------------- a confirmation that wraps

  /** `n` findings of AT_LIMIT. */
  function AtLimits(n: nat): (es: seq<Signal>)
    ensures |es| == n && forall i :: 0 <= i < n ==> es[i] == Signal(AtLimit, 0, 0)
  {
    seq(n, i requires 0 <= i < n => Signal(AtLimit, 0, 0))
  }

  lemma {:induction false} LimitsAreCounted(h: Hysteresis, n: nat)
    requires 0 < n < U32_LIMIT
    ensures var s := After(h, FreshDomain(1, 1), AtLimits(n));
            s.sticky.AtLimit? && s.confirmations == n && s.lastEscalationTick == 0
  {
    assert AtLimits(n)[..n - 1] == AtLimits(n - 1);
    if n > 1 {
      LimitsAreCounted(h, n - 1);
    }
  }

  /** One confirmation is configured and one qualifying evaluation arrives, after 2^32 - 1 findings of
      AT_LIMIT: the counter wraps to 0 and the domain stays where it was. */
  lemma WrappedConfirmationIsLost()
    ensures var h, e := Hysteresis(1, 1, 0, 0), Signal(WithinPolicy, 0, 0);
            var s := After(h, FreshDomain(1, 1), AtLimits(U32_LIMIT - 1));
            && s.confirmations == U32_LIMIT - 1 && Qualifies(h, s, e) && h.deescalationConfirmations == 1
            && Announce(h, s, e).effective.AtLimit? && Announce(h, s, e).state.sticky.AtLimit?
  {
    LimitsAreCounted(Hysteresis(1, 1, 0, 0), U32_LIMIT - 1);
    hide After;
  }

  // ------------------------------------------- an AT_LIMIT announced too early

  /** Three findings of AT_LIMIT are asked for before it is announced; after a single one, announced as within
      policy, the next evaluation finds the domain within policy and announces AT_LIMIT. */
  lemma UnconfirmedLimitIsAnnounced()
    ensures var h, s := Hysteresis(3, 3, 0, 0), FreshDomain(1, 1).(sticky := WithinPolicy);
            var es := [Signal(AtLimit, 0, 0), Signal(WithinPolicy, 0, 0)];
            && h.escalationConfirmations == 3 && |es| == 2
            && Announced(h, s, es, 0).WithinPolicy? && Announced(h, s, es, 1).AtLimit?
  {
    var h, s := Hysteresis(3, 3, 0, 0), FreshDomain(1, 1).(sticky := WithinPolicy);
    var es := [Signal(AtLimit, 0, 0), Signal(WithinPolicy, 0, 0)];
    assert es[..0] == [] && es[..1] == [es[0]] && es[..1][..0] == [];
    var t := Announce(h, s, es[0]).state;
    assert After(h, s, es[..1]) == t;
    assert Announce(h, s, es[0]).effective.WithinPolicy? && t.sticky.AtLimit? && t.confirmations == 1;
    assert Announce(h, t, es[1]).effective.AtLimit?;
    hide Announce, After;
  }

  // --------------------------------------------- an adoption that is forgotten

  /** A publisher is registered, another incarnation is adopted but the save fails, the adoption is tried
      again and succeeds without a save, and a crash follows: the first incarnation is back. */
  lemma RetriedAdoptionForgotten(k: Digests, o: Options, p: Policy)
    requires ValidPolicy(InitialPolicy(k, p)) && o.maxAuditRecords <= MAX_AUDIT_RECORDS
    ensures var steps := [Step(RegisterOp(1, 1, 1, 0), WRITES), Step(AdoptOp(1, 2, 1, 0), UNSAVED),
                          Step(AdoptOp(1, 2, 1, 0), WRITES)];
            var ws := Trace(k, Fresh(k, o, p), steps);
            && IsRun(k, ws, steps) && Adopt(ws[2], 1, 2, 1, 0, WRITES).status.Success? && Reopens(ws[3])
            && EntryIn(ws[3].state.publishers, 1).Some? && EntryIn(Reopened(ws[3]).state.publishers, 1).Some?
            && EntryIn(ws[3].state.publishers, 1).value.incarnation == 2
            && EntryIn(Reopened(ws[3]).state.publishers, 1).value.incarnation == 1
  {
    var a, b, c := Step(RegisterOp(1, 1, 1, 0), WRITES), Step(AdoptOp(1, 2, 1, 0), UNSAVED),
                   Step(AdoptOp(1, 2, 1, 0), WRITES);
    var w := Fresh(k, o, p);
    hide *;
    FewRecords();
    TraceThree(k, w, a, b, c);
    TraceIsRun(k, w, [a, b, c]);
    AdoptsUnsaved(k, o, p);
    StillReopens(k, o, p, Trace(k, w, [a, b, c]), [a, b, c], 3);
    ReopenEntries(Trace(k, w, [a, b, c])[3]);
  }

  lemma AdoptsUnsaved(k: Digests, o: Options, p: Policy)
    ensures var w1 := Apply(k, Fresh(k, o, p), Step(RegisterOp(1, 1, 1, 0), WRITES));
            var w2 := Apply(k, w1, Step(AdoptOp(1, 2, 1, 0), UNSAVED));
            var w3 := Apply(k, w2, Step(AdoptOp(1, 2, 1, 0), WRITES));
            var live, saved := EntryIn(w3.state.publishers, 1), EntryIn(w3.disk.saved.publishers, 1);
            && Adopt(w2, 1, 2, 1, 0, WRITES).status.Success?
            && live.Some? && live.value.incarnation == 2 && saved.Some? && saved.value.incarnation == 1
  {
    RegistersFirst(k, o, p);
    hide Fresh, Apply;
    AdoptsTwice(k, Apply(k, Fresh(k, o, p), Step(RegisterOp(1, 1, 1, 0), WRITES)));
  }

  lemma RegistersFirst(k: Digests, o: Options, p: Policy)
    ensures var w := Apply(k, Fresh(k, o, p), Step(RegisterOp(1, 1, 1, 0), WRITES));
            && w.accepting && w.state.epoch == 1 && w.disk.saved.publishers == w.state.publishers
            && |w.state.publishers| == 1 && w.state.publishers[0].publisher == w.state.publishers[0].incarnation == 1
  {
    hide InitialPolicy;
  }

  lemma AdoptsTwice(k: Digests, w: World)
    requires w.accepting && w.state.epoch == 1 && w.disk.saved.publishers == w.state.publishers
    requires |w.state.publishers| == 1 && w.state.publishers[0].publisher == w.state.publishers[0].incarnation == 1
    ensures var w2 := Apply(k, w, Step(AdoptOp(1, 2, 1, 0), UNSAVED));
            var w3 := Apply(k, w2, Step(AdoptOp(1, 2, 1, 0), WRITES));
            var live, saved := EntryIn(w3.state.publishers, 1), EntryIn(w3.disk.saved.publishers, 1);
            && Adopt(w2, 1, 2, 1, 0, WRITES).status.Success?
            && live.Some? && live.value.incarnation == 2 && saved.Some? && saved.value.incarnation == 1
  {
  }

  /** The same for a first registration: the retry reports success and the crash takes the publisher away. */
  lemma RetriedRegistrationForgotten(k: Digests, o: Options, p: Policy)
    requires ValidPolicy(InitialPolicy(k, p)) && o.maxAuditRecords <= MAX_AUDIT_RECORDS
    ensures var steps := [Step(RegisterOp(1, 1, 1, 0), UNSAVED), Step(RegisterOp(1, 1, 1, 0), WRITES)];
            var ws := Trace(k, Fresh(k, o, p), steps);
            && IsRun(k, ws, steps) && Register(ws[1], 1, 1, 1, 0, WRITES).status.Success? && Reopens(ws[2])
            && EntryIn(ws[2].state.publishers, 1).Some? && EntryIn(Reopened(ws[2]).state.publishers, 1).None?
  {
    var a, b := Step(RegisterOp(1, 1, 1, 0), UNSAVED), Step(RegisterOp(1, 1, 1, 0), WRITES);
    var w := Fresh(k, o, p);
    assert 3 < U64_LIMIT - 1;
    hide *;
    TraceTwo(k, w, a, b);
    TraceIsRun(k, w, [a, b]);
    RegistersUnsaved(k, o, p);
    StillReopens(k, o, p, Trace(k, w, [a, b]), [a, b], 2);
    ReopenEntries(Trace(k, w, [a, b])[2]);
  }

  lemma RegistersUnsaved(k: Digests, o: Options, p: Policy)
    ensures var w1 := Apply(k, Fresh(k, o, p), Step(RegisterOp(1, 1, 1, 0), UNSAVED));
            var w2 := Apply(k, w1, Step(RegisterOp(1, 1, 1, 0), WRITES));
            && Register(w1, 1, 1, 1, 0, WRITES).status.Success?
            && EntryIn(w2.state.publishers, 1).Some? && EntryIn(w2.disk.saved.publishers, 1).None?
  {
    hide InitialPolicy;
  }

  // ------------------------------------------------- a journal that is full

  /** Room for one record, and compaction keeps one: after the first decision no other is ever recorded. */
  lemma OneDecisionAndNoMore(k: Digests, o: Options, p: Policy, wall: u64, more: seq<Step>, n: nat)
    requires o.maxJournalRecords == 1 <= o.compactionRecords && 1 <= o.maxAuditRecords <= MAX_AUDIT_RECORDS
    requires MAX_FRAME <= o.maxJournalBytes && 0 < n <= |more|
    ensures var steps := [Request(1, wall)] + more;
            var ws := Trace(k, Fresh(k, o, p), steps);
            IsRun(k, ws, steps) && Logged(k, ws[0], steps[0]).Some? && Logged(k, ws[n], steps[n]).None?
  {
    hide *;
    var w, steps := Fresh(k, o, p), [Request(1, wall)] + more;
    var ws := Trace(k, w, steps);
    FreshFacts(k, o, p);
    FreshRoom(k, o, p);
    FewRecords();
    RequestIs(1, wall);
    TraceIsRun(k, w, steps);
    var r := RecordsUnknown(k, w, w, 1, wall);
    FirstStep(k, ws, steps);
    RequestApplies(k, w, 1, wall);
    ExtendsJournal(w, ws[1], r, 1);
    FullJournalIsTheEnd(k, o, p, ws, steps, 1, n);
  }

  lemma FreshRoom(k: Digests, o: Options, p: Policy)
    requires 1 <= o.maxJournalRecords && MAX_FRAME <= o.maxJournalBytes
    ensures RoomFor(Fresh(k, o, p))
  {
    FreshFacts(k, o, p);
    hide Fresh;
  }

  lemma RequestIs(id: u64, wall: u64)
    ensures Request(id, wall) == Step(EvaluateOp(id, 0, false, wall), WRITES)
  {
  }

  lemma FirstStep(k: Digests, ws: seq<World>, steps: seq<Step>)
    requires IsRun(k, ws, steps) && steps != []
    ensures |ws| == |steps| + 1 && ws[1] == Apply(k, ws[0], steps[0])
  {
    hide Apply;
  }

  lemma ExtendsJournal(u: World, v: World, r: AuditRecord, id: u64)
    requires Extends(u, v, r, id)
    ensures |v.disk.journal| == |u.disk.journal| + 1
  {
  }
}
