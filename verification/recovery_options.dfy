/** Options under which every run can be recovered, whatever its operations are. */
module RecoveryOptions {
  import opened Checked
  import opened Wire
  import opened Model
  import opened PolicyRules
  import opened Engine
  import opened EvidenceRules
  import opened HysteresisRules
  import opened Replay
  import opened Governing
  import opened Frames
  import opened Recovery
  import opened RecoveryRuns
  import opened RecoverySteps
  import opened Readability
  import C = StateCodec

  /** The largest frame a journal record takes. */
  const MAX_FRAME: nat := 254 + MAX_AUDIT_SUMMARY

  /** The state is saved before more decisions pile up than compaction keeps, or the audit tail holds, and
      what compaction keeps fits the journal whatever the records say. */
  predicate Ample(o: Options) { Slack(o) >= 0 && Keep(o) * MAX_FRAME <= o.maxJournalBytes }

  /** The most decisions a due save leaves waiting. */
  function Waiting(o: Options): nat { if o.saveEvery == 0 then 0 else o.saveEvery - 1 }

  /** How many unsaved decisions survive any compaction. */
  function Held(o: Options): nat { if Keep(o) < o.maxAuditRecords then Keep(o) else o.maxAuditRecords }

  /** How many due saves in a row may be refused. */
  function Slack(o: Options): int { Held(o) - Waiting(o) }

  /** The defaults of GovernorOptions (include/oversub/governor.hpp). */
  const DEFAULTS := Options(4096, 256, true, 64 * 1024 * 1024, 200_000, MAX_AUDIT_RECORDS)

  lemma DefaultsAreAmple()
    ensures Ample(DEFAULTS) && Slack(DEFAULTS) == 3841
  {
  }

  /** How many evaluations in a row were recorded and had storage refuse their save: a caller sees each of
      them fail. A restart, and a requested save that goes through, end the row. */
  function Overdue(k: Digests, ws: seq<World>, steps: seq<Step>, n: nat): nat
    requires |ws| == |steps| + 1 && n <= |steps|
  {
    if n == 0 then 0 else OverdueAfter(k, ws[n - 1], steps[n - 1], Overdue(k, ws, steps, n - 1))
  }

  function OverdueAfter(k: Digests, w: World, s: Step, overdue: nat): nat {
    if Logged(k, w, s).Some? then (if s.io.save then 0 else overdue + 1)
    else if (s.op.CrashAndReopen? && Reopens(w)) || (s.op.SaveOp? && s.io.save) then 0
    else overdue
  }

  /** No evaluation starts with more refused saves behind it than the options have slack for. In particular
      any save may be refused in a step that a crash follows. */
  predicate SavesKeepUp(k: Digests, o: Options, ws: seq<World>, steps: seq<Step>) {
    && |ws| == |steps| + 1
    && forall n :: 0 <= n < |steps| && steps[n].op.EvaluateOp? ==> Overdue(k, ws, steps, n) <= Slack(o)
  }

  // ------------------------------------------------------------- invariant

  /** Decisions not saved yet: as many as a due save leaves waiting and refused saves have added, and in the
      audit tail as far as it goes. */
  predicate Paced(w: World, overdue: nat) {
    && Ample(w.options) && w.sinceSave <= Waiting(w.options) + overdue
    && (w.sinceSave <= |w.state.audit| || Held(w.options) <= |w.state.audit|)
  }

  lemma {:induction false} JournalSizeBounded(rs: seq<AuditRecord>)
    requires RecordsBounded(rs)
    ensures JournalSize(rs) <= |rs| * MAX_FRAME
  {
    if rs != [] {
      JournalSizeBounded(rs[..|rs| - 1]);
    }
  }

  lemma PacedIsRoomy(w: World, overdue: nat)
    requires Paced(w, overdue) && overdue <= Slack(w.options) && RecordsBounded(w.state.audit)
    ensures Roomy(w)
  {
    var newest := Newest(w.state.audit, Keep(w.options));
    TailWithin(w.state.audit, Keep(w.options));
    JournalSizeBounded(newest);
    assert |newest| * MAX_FRAME <= Keep(w.options) * MAX_FRAME;
    hide RecordsBounded;
  }

  // -------------------------------------------------------------- every step

  /** A save that goes through leaves nothing waiting; one that does not changes nothing here. */
  lemma ForcedPaced(w: World, io: Io, overdue: nat)
    requires Paced(w, overdue)
    ensures Paced(Persist(w, true, io).world, if io.save then 0 else overdue)
  {
  }

  lemma Looser(w: World, a: nat, b: nat)
    requires Paced(w, a) && a <= b
    ensures Paced(w, b)
  {
  }

  lemma SamePace(w: World, v: World, overdue: nat)
    requires Paced(w, overdue)
    requires v.options == w.options && v.sinceSave == w.sinceSave && v.state.audit == w.state.audit
    ensures Paced(v, overdue)
  {
  }

  lemma TouchPaced(w: World, v: World, overdue: nat)
    requires Paced(w, overdue) && Touches(w, v)
    ensures Paced(v, overdue)
  {
    hide ValidPolicy, SlotsEvolve;
  }

  lemma PublishPaced(k: Digests, w: World, snapshot: Snapshot, io: Io, overdue: nat)
    requires Paced(w, overdue)
    ensures Paced(Publish(k, w, snapshot, io).world, overdue)
  {
    hide Paced, Ingest, Touches, Persist, Filled;
    var s := Digested(k, snapshot);
    var r := Ingest(k, w, s, io);
    PublishFrame(k, w, s, io);
    if IsAccepted(r) {
      var v := Published(k, w, s, PublisherIndex(w.state.publishers, ProvenanceOf(s).publisher).value, r.value.generation);
      SamePace(w, v, overdue);
      ForcedPaced(v, io, overdue);
      Looser(r.world, if io.save then 0 else overdue, overdue);
    } else {
      TouchPaced(w, r.world, overdue);
    }
  }

  /** One more record in the audit tail, one more decision since the save; the save follows when it is due. */
  lemma AcceptedPaced(v: World, w: World, r: AuditRecord, domain: u64, d: Decision, a: Announcement, io: Io, overdue: nat)
    requires Paced(v, overdue) && w.options == v.options && w.sinceSave == v.sinceSave
    requires w.state.audit == Newest(v.state.audit + [r], v.options.maxAuditRecords)
    ensures Paced(Persist(Accepted(w, domain, d, a), false, io).world, if io.save then 0 else overdue + 1)
  {
    hide Enter, Settled;
  }

  lemma CompactPaced(w: World, io: Io, overdue: nat)
    requires Paced(w, overdue)
    ensures Paced(Compact(w, io).world, overdue)
  {
  }

  lemma AppendPaced(w: World, r: AuditRecord, domain: u64, d: Decision, a: Announcement, io: Io, overdue: nat)
    requires Paced(w, overdue)
    ensures var x := AppendJournal(w, r, io);
            if x.status.Success?
            then Paced(Persist(Accepted(x.world, domain, d, a), false, io).world, if io.save then 0 else overdue + 1)
            else Paced(x.world, overdue)
  {
    hide Paced, Compact, Persist, Accepted, AppendJournal, FrameFits;
    var v := AppendedTo(w, r, io);
    CompactPaced(w, io, overdue);
    AppendKeeps(w, r, io);
    if AppendJournal(w, r, io).status.Success? {
      AcceptedPaced(v, AppendJournal(w, r, io).world, r, domain, d, a, io, overdue);
    }
  }

  lemma EvaluatePaced(k: Digests, w: World, s: Step, overdue: nat)
    requires Paced(w, overdue) && s.op.EvaluateOp?
    ensures Paced(Apply(k, w, s), OverdueAfter(k, w, s, overdue))
  {
    var op, io := s.op, s.io;
    hide EvaluateDomain, DecideFor, AppendJournal, Persist, RecordFor, Accepted, Paced, Attempt;
    EvaluateFrame(k, w, op.domain, op.tick, op.cancelled, op.wall, io);
    var w1 := w.(clock := EvaluationTick(w, op.tick));
    SamePace(w, w1, overdue);
    if Attempt(k, w, op.domain, op.tick, op.cancelled, op.wall).Some? {
      var (d, a) := DecideFor(k, w1, op.domain, w1.clock);
      var r := Attempt(k, w, op.domain, op.tick, op.cancelled, op.wall).value;
      AppendClock(w, w1, r, io);
      AppendPaced(w1, r, op.domain, d, a, io, overdue);
    }
  }

  lemma StepPaced(k: Digests, w: World, s: Step, overdue: nat)
    requires Paced(w, overdue)
    ensures Paced(Apply(k, w, s), OverdueAfter(k, w, s, overdue))
  {
    hide Paced, Touches, AdvanceEpoch, Publish, EvaluateDomain, Reopened, Persist, Reopens;
    match s.op
    case NewEpoch(epoch) =>
      EpochFrame(w, epoch, s.io);
      SamePace(w, Advanced(w, epoch), overdue);
      ForcedPaced(Advanced(w, epoch), s.io, overdue);
      Looser(Persist(Advanced(w, epoch), true, s.io).world, if s.io.save then 0 else overdue, overdue);
    case PublishOp(snapshot) => PublishPaced(k, w, snapshot, s.io, overdue);
    case EvaluateOp(_, _, _, _) => EvaluatePaced(k, w, s, overdue);
    case CrashAndReopen => ReopenPaced(w, overdue);
    case SaveOp => ForcedPaced(w, s.io, overdue);
    case _ =>
      var v, committed := QuietFrame(k, w, s);
      TouchPaced(w, v, overdue);
      ForcedPaced(v, s.io, overdue);
      Looser(Persist(v, true, s.io).world, if s.io.save then 0 else overdue, overdue);
      hide Apply;
  }

  lemma ReopenPaced(w: World, overdue: nat)
    requires Paced(w, overdue)
    ensures Paced(Reopened(w), 0)
  {
    hide Load;
  }

  lemma StepIsSafe(k: Digests, w: World, s: Step, overdue: nat)
    requires Paced(w, overdue) && Within(w) && (s.op.EvaluateOp? ==> overdue <= Slack(w.options))
    ensures SafeStep(k, w, s)
  {
    if s.op.EvaluateOp? {
      PacedIsRoomy(w, overdue);
    }
    hide Paced, Roomy, Attempt, FrameFits;
  }

  // ---------------------------------------------------------------- all runs

  lemma {:induction false} RunPaced(k: Digests, ws: seq<World>, steps: seq<Step>, n: nat)
    requires IsRun(k, ws, steps) && Paced(ws[0], 0) && n < |ws|
    ensures Paced(ws[n], Overdue(k, ws, steps, n)) && ws[n].options == ws[0].options
  {
    hide Paced, Apply, OverdueAfter;
    if n > 0 {
      RunPaced(k, ws, steps, n - 1);
      assert ws[n] == Apply(k, ws[n - 1], steps[n - 1]);
      StepPaced(k, ws[n - 1], steps[n - 1], Overdue(k, ws, steps, n - 1));
      StepKeepsOptions(k, ws[n - 1], steps[n - 1]);
    }
  }

  lemma StepKeepsOptions(k: Digests, w: World, s: Step)
    ensures Apply(k, w, s).options == w.options
  {
    hide Touches, AdvanceEpoch, Publish, EvaluateDomain, Persist, Load;
    match s.op
    case NewEpoch(epoch) =>
      EpochFrame(w, epoch, s.io);
      PersistKeepsOptions(Advanced(w, epoch), true, s.io);
    case PublishOp(snapshot) => PublishKeepsOptions(k, w, snapshot, s.io);
    case EvaluateOp(domain, tick, cancelled, wall) => EvaluateKeepsOptions(k, w, domain, tick, cancelled, wall, s.io);
    case CrashAndReopen =>
      hide Reopens;
      ReopenKeepsOptions(w);
      hide Reopened;
    case _ =>
      var v, committed := QuietFrame(k, w, s);
      TouchKeepsOptions(w, v);
      PersistKeepsOptions(v, true, s.io);
      hide Apply;
  }

  lemma PersistKeepsOptions(w: World, force: bool, io: Io)
    ensures Persist(w, force, io).world.options == w.options
  {
  }

  lemma TouchKeepsOptions(w: World, v: World)
    requires Touches(w, v)
    ensures v.options == w.options
  {
    hide SlotsEvolve, ValidPolicy, TablesKept;
  }

  lemma ReopenKeepsOptions(w: World)
    ensures Reopened(w).options == w.options
  {
    hide Load;
  }

  lemma PublishKeepsOptions(k: Digests, w: World, snapshot: Snapshot, io: Io)
    ensures Publish(k, w, snapshot, io).world.options == w.options
  {
    hide Ingest, Touches, Persist, Filled;
    var s := Digested(k, snapshot);
    var r := Ingest(k, w, s, io);
    PublishFrame(k, w, s, io);
    if IsAccepted(r) {
      PersistKeepsOptions(Published(k, w, s, PublisherIndex(w.state.publishers, ProvenanceOf(s).publisher).value,
                                    r.value.generation), true, io);
    } else {
      TouchKeepsOptions(w, r.world);
    }
  }

  lemma EvaluateKeepsOptions(k: Digests, w: World, domain: u64, requested: u64, cancelled: bool, wall: u64, io: Io)
    ensures EvaluateDomain(k, w, domain, requested, cancelled, wall, io).world.options == w.options
  {
    hide EvaluateDomain, DecideFor, AppendJournal, Persist, RecordFor, Settled;
    EvaluateFrame(k, w, domain, requested, cancelled, wall, io);
    var w1 := w.(clock := EvaluationTick(w, requested));
    if Attempt(k, w, domain, requested, cancelled, wall).Some? {
      var (d, a) := DecideFor(k, w1, domain, w1.clock);
      var r := RecordFor(k, w1, domain, d, a, wall);
      AppendJournalKeeps(w1, r, io);
      PersistKeepsOptions(Accepted(AppendJournal(w1, r, io).world, domain, d, a), false, io);
    }
  }

  lemma AmpleRunsAreSafe(k: Digests, o: Options, p: Policy, ws: seq<World>, steps: seq<Step>)
    requires Ample(o) && o.maxAuditRecords <= MAX_AUDIT_RECORDS
    requires IsRun(k, ws, steps) && ws[0] == Fresh(k, o, p) && SavesKeepUp(k, o, ws, steps)
    ensures SafeRun(k, ws, steps)
  {
    FreshWithin(k, o, p);
    assert Paced(Fresh(k, o, p), 0) && Fresh(k, o, p).options == o;
    hide Fresh, Paced, Within, SafeStep, Apply, Overdue;
    forall n | 0 <= n < |steps| ensures SafeStep(k, ws[n], steps[n]) {
      RunPaced(k, ws, steps, n);
      RunWithin(k, ws, steps, n);
      StepIsSafe(k, ws[n], steps[n], Overdue(k, ws, steps, n));
    }
  }

  /** With ample options, and no more saves refused in a row than they have slack for, a crash at any moment
      of any run loses no decision as long as no more pairs of domain and kind were published for than the
      loader takes. */
  lemma AmpleRunsRecover(k: Digests, o: Options, p: Policy, logs: seq<seq<AuditRecord>>, ws: seq<World>,
                         steps: seq<Step>, n: nat)
    requires ValidPolicy(InitialPolicy(k, p)) && Ample(o) && o.maxAuditRecords <= MAX_AUDIT_RECORDS
    requires IsRun(k, ws, steps) && ws[0] == Fresh(k, o, p) && Logs(k, logs, ws, steps) && SavesKeepUp(k, o, ws, steps)
    requires n < |ws| < U64_LIMIT && |PublishedPairs(steps[..n])| <= MAX_EVIDENCE_SLOTS
    ensures var t := TryLoad(ws[n].options, ws[n].disk); t.Some? && Restored(ws[n], logs[n], t.value)
  {
    AmpleRunsAreSafe(k, o, p, ws, steps);
    FewPairsAlwaysLoad(k, o, p, ws, steps, n);
    hide Fresh, IsRun, Logs, SafeRun, Restored, TryLoad, PublishedPairs, ValidPolicy, InitialPolicy, SavesKeepUp;
    EveryCrashRecovers(k, o, p, logs, ws, steps, n);
  }
}
