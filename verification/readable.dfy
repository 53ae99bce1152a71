/** Which of the states the governor saves its own loader reads back. Every bound the loader checks is kept
    by every operation, except the size of the evidence table: publishing never looks at it. */
module Readability {
  import opened Checked
  import opened Wire
  import opened Model
  import opened StateFile
  import opened PolicyRules
  import opened Engine
  import opened Conservation
  import opened EvidenceRules
  import opened HysteresisRules
  import opened Replay
  import opened Governing
  import opened Frames
  import opened Binding
  import C = StateCodec

  // ------------------------------------------------------------- invariant

  predicate DomainsCoded(ds: seq<DomainState>) { forall i :: 0 <= i < |ds| ==> C.BoundedDomainState(ds[i]) }
  predicate RecordsBounded(rs: seq<AuditRecord>) { forall i :: 0 <= i < |rs| ==> C.BoundedAudit(rs[i]) }
  predicate KindsCoded(slots: seq<Slot>) { forall i :: 0 <= i < |slots| ==> C.BoundedSlotState(slots[i].state) }

  predicate EvidenceCoded(es: seq<SlotState>) { forall i :: 0 <= i < |es| ==> C.BoundedSlotState(es[i]) }

  /** Within every bound of the layout and of the loader, apart from the policy and the evidence table. */
  predicate StateWithin(s: DurableState) {
    && s.schemaVersion == STATE_SCHEMA_VERSION && s.policyDigest == s.policy.digest
    && |s.publishers| <= MAX_PUBLISHERS && |s.domains| <= MAX_DOMAINS_STATE && |s.audit| <= MAX_AUDIT_RECORDS
    && DomainsCoded(s.domains) && RecordsBounded(s.audit)
  }

  predicate Within(w: World) {
    && w.options.maxAuditRecords <= MAX_AUDIT_RECORDS && KindsCoded(w.slots) && StateWithin(w.state)
    && StateWithin(w.disk.saved) && EvidenceCoded(w.disk.saved.evidence) && RecordsBounded(w.disk.journal)
  }

  // ------------------------------------------------- quiet operations, epochs

  lemma PersistWithin(w: World, force: bool, io: Io)
    requires Within(w)
    ensures Within(Persist(w, force, io).world)
  {
    hide DomainsCoded, RecordsBounded;
  }

  lemma TouchWithin(w: World, v: World)
    requires Within(w) && Touches(w, v)
    ensures Within(v)
  {
    forall i | 0 <= i < |v.slots| ensures C.BoundedSlotState(v.slots[i].state) {
      if i < |w.slots| {
        assert SameKey(w.slots[i].state, v.slots[i].state);
      }
    }
    hide ValidPolicy, DomainsCoded, RecordsBounded;
  }

  lemma EpochWithin(w: World, next: u64, io: Io)
    requires Within(w)
    ensures Within(AdvanceEpoch(w, next, io).world)
  {
    hide AdvanceEpoch;
    EpochFrame(w, next, io);
    if next > w.state.epoch {
      var v := Advanced(w, next);
      assert Within(v);
      PersistWithin(v, true, io);
    }
    hide Persist;
  }

  lemma PublishWithin(k: Digests, w: World, snapshot: Snapshot, io: Io)
    requires Within(w)
    ensures Within(Publish(k, w, snapshot, io).world)
  {
    hide Within, Ingest, Touches, Persist;
    var s := Digested(k, snapshot);
    var r := Ingest(k, w, s, io);
    PublishFrame(k, w, s, io);
    if IsAccepted(r) {
      var v := Published(k, w, s, PublisherIndex(w.state.publishers, ProvenanceOf(s).publisher).value, r.value.generation);
      FilledWithin(k, w, v, s, r.value.generation);
      PersistWithin(v, true, io);
    } else {
      TouchWithin(w, r.world);
    }
  }

  lemma FilledWithin(k: Digests, w: World, v: World, s: Snapshot, g: u64)
    requires Within(w) && v.slots == Filled(k, w.slots, s, g) && v.disk == w.disk && v.options == w.options
    requires v.state == w.state.(publishers := v.state.publishers) && |v.state.publishers| == |w.state.publishers|
    ensures Within(v)
  {
    hide Bound, DomainsCoded, RecordsBounded;
  }

  // -------------------------------------------------------------- evaluation

  /** Every verdict of the engine has one of the eight outcomes. */
  lemma EvaluationCoded(w: World, domain: u64, tick: u64)
    ensures C.CodedOutcome(CurrentEvaluation(w, domain, tick).assessment.verdict.outcome)
  {
    match FindDomain(w.state.policy.domains, domain)
    case None =>
    case Some(d) =>
      var policy, x, e := w.state.policy, CurrentExpectation(w, domain), CurrentEvidence(w, domain);
      RejectionWithholds(policy, d, x, e, tick);
      hide CurrentExpectation, CurrentEvidence, Admit;
      if Admit(policy, d, x, e, tick).Ok? {
        AssessmentCoded(policy, d, Admit(policy, d, x, e, tick).value);
      }
      hide Assess;
  }

  lemma AssessmentCoded(policy: Policy, d: DomainConfig, i: Inputs)
    ensures C.CodedOutcome(Assess(policy, d, i).verdict.outcome)
  {
    var k := ScopeOf(policy, d);
    hide Boundary, LoadsOf, Unbacked, GuaranteesUncovered;
    match Boundary(policy, d, Impaired(i.members), LoadsOf(k, i.members, i.guarantees, i.records))
    case None =>
    case Some(a) => ShareCoded(k, i.records, a.contingentCeiling, k.classes);
  }

  lemma {:induction false} ShareCoded(k: Scope, ds: seq<Demand>, ceiling: u64, cs: seq<ServiceClass>)
    ensures var f := ShareFault(k, ds, ceiling, cs); f.Some? ==> C.CodedOutcome(f.value.outcome)
  {
    if cs != [] {
      ShareCoded(k, ds, ceiling, cs[..|cs| - 1]);
    }
  }

  lemma AnnounceCoded(h: Hysteresis, s: DomainState, e: Signal)
    requires C.CodedOutcome(s.sticky) && C.CodedOutcome(e.raw)
    ensures var a := Announce(h, s, e); C.BoundedDomainState(a.state) && C.CodedOutcome(a.effective)
  {
  }

  lemma DecisionWithin(k: Digests, w: World, domain: u64, tick: u64, wall: u64)
    requires DomainsCoded(w.state.domains)
    ensures var (d, a) := DecideFor(k, w, domain, tick);
            && C.BoundedDomainState(Settled(w, domain, d, a)) && C.BoundedAudit(RecordFor(k, w, domain, d, a, wall))
  {
    var e := CurrentEvaluation(w, domain, tick);
    EvaluationCoded(w, domain, tick);
    AnnounceCoded(w.state.policy.hysteresis, WorkingState(w, domain, e.assessment.verdict.outcome), SignalOf(e, tick));
    hide Announce, CurrentEvaluation, CurrentExpectation, BindingFault;
  }

  lemma TailWithin(rs: seq<AuditRecord>, n: nat)
    requires RecordsBounded(rs)
    ensures RecordsBounded(Newest(rs, n)) && forall prefix :: prefix <= Newest(rs, n) ==> RecordsBounded(prefix)
  {
    forall prefix | prefix <= Newest(rs, n) ensures RecordsBounded(prefix) {
      forall i | 0 <= i < |prefix| ensures C.BoundedAudit(prefix[i]) {
        assert prefix[i] == Newest(rs, n)[i];
      }
    }
  }

  lemma AppendWithin(w: World, r: AuditRecord, io: Io)
    requires Within(w) && C.BoundedAudit(r)
    ensures Within(Append(w, r, io).world)
  {
    hide FrameFits, DomainsCoded, StateWithin, C.BoundedAudit;
  }

  lemma CompactWithin(w: World, io: Io)
    requires Within(w)
    ensures Within(Compact(w, io).world)
  {
    TailWithin(w.state.audit, Keep(w.options));
    hide RecordsBounded, DomainsCoded;
  }

  lemma AuditWithin(w: World, r: AuditRecord)
    requires Within(w) && C.BoundedAudit(r)
    ensures Within(w.(state := w.state.(audit := Newest(w.state.audit + [r], w.options.maxAuditRecords))))
  {
    assert RecordsBounded(w.state.audit + [r]) by { hide C.BoundedAudit; }
    TailWithin(w.state.audit + [r], w.options.maxAuditRecords);
    hide RecordsBounded, DomainsCoded;
  }

  lemma AppendJournalWithin(w: World, r: AuditRecord, io: Io)
    requires Within(w) && C.BoundedAudit(r)
    ensures Within(AppendJournal(w, r, io).world)
  {
    hide Within, Append, Compact, C.BoundedAudit;
    AppendWithin(w, r, io);
    CompactWithin(w, io);
    AppendWithin(Compact(w, io).world, r, io);
    AppendKeeps(w, r, io);
    AppendKeeps(Compact(w, io).world, r, io);
    AuditWithin(Append(w, r, io).world, r);
    AuditWithin(Append(Compact(w, io).world, r, io).world, r);
  }

  lemma EvaluateWithin(k: Digests, w: World, domain: u64, requested: u64, cancelled: bool, wall: u64, io: Io)
    requires Within(w)
    ensures Within(EvaluateDomain(k, w, domain, requested, cancelled, wall, io).world)
  {
    hide EvaluateDomain, DecideFor, AppendJournal, Persist, RecordFor, Settled, StateWithin, RecordsBounded, KindsCoded,
      EvidenceCoded;
    EvaluateFrame(k, w, domain, requested, cancelled, wall, io);
    var w1 := w.(clock := EvaluationTick(w, requested));
    assert Within(w1);
    if Attempt(k, w, domain, requested, cancelled, wall).Some? {
      var (d, a) := DecideFor(k, w1, domain, w1.clock);
      var r := RecordFor(k, w1, domain, d, a, wall);
      assert DomainsCoded(w1.state.domains) by { StateParts(w1.state); }
      DecisionWithin(k, w1, domain, w1.clock, wall);
      AppendJournalWithin(w1, r, io);
      var w2 := AppendJournal(w1, r, io).world;
      AttemptHasRoom(k, w, domain, requested, cancelled, wall);
      AcceptedWithin(k, w1, w2, domain, r, io, wall);
      PersistWithin(Accepted(w2, domain, d, a), false, io);
    }
    hide Within, Accepted;
  }

  lemma StateParts(s: DurableState)
    requires StateWithin(s)
    ensures DomainsCoded(s.domains)
  {
  }

  lemma AttemptHasRoom(k: Digests, w: World, domain: u64, requested: u64, cancelled: bool, wall: u64)
    ensures Attempt(k, w, domain, requested, cancelled, wall).Some? ==>
              DomainIndex(w.state.domains, domain).Some? || |w.state.domains| < MAX_DOMAINS_STATE
  {
    hide DecideFor, RecordFor;
  }

  lemma EnterWithin(ds: seq<DomainState>, d: DomainState)
    requires DomainsCoded(ds) && C.BoundedDomainState(d)
    requires |ds| <= MAX_DOMAINS_STATE && (DomainIndex(ds, d.domain).Some? || |ds| < MAX_DOMAINS_STATE)
    ensures DomainsCoded(Enter(ds, d)) && |Enter(ds, d)| <= MAX_DOMAINS_STATE
  {
    hide C.BoundedDomainState;
  }

  lemma AcceptedWithin(k: Digests, w: World, v: World, domain: u64, r: AuditRecord, io: Io, wall: u64)
    requires Within(w) && Within(v) && v == AppendJournal(w, r, io).world
    requires DomainIndex(w.state.domains, domain).Some? || |w.state.domains| < MAX_DOMAINS_STATE
    ensures var (d, a) := DecideFor(k, w, domain, w.clock); Within(Accepted(v, domain, d, a))
  {
    hide DecideFor, AppendJournal, RecordFor, Settled, KindsCoded, RecordsBounded, EvidenceCoded;
    var (d, a) := DecideFor(k, w, domain, w.clock);
    DecisionWithin(k, w, domain, w.clock, wall);
    AppendJournalKeeps(w, r, io);
    SettledSame(w, v, domain, d, a);
    SettledDomain(k, w, domain, w.clock);
    EnterWithin(v.state.domains, Settled(v, domain, d, a));
    hide DomainsCoded, Enter;
  }

  // --------------------------------------------------------------- reopening

  lemma {:induction false} RebuildWithin(s: DurableState, rs: seq<AuditRecord>)
    requires StateWithin(s) && RecordsBounded(rs)
    ensures var t := Rebuild(s, rs).state;
            StateWithin(t) && t.evidence == s.evidence && t.policy == s.policy && t.incarnation == s.incarnation
  {
    if rs != [] {
      RebuildWithin(s, rs[..|rs| - 1]);
      PutWithin(Rebuild(s, rs[..|rs| - 1]).state.domains, rs[|rs| - 1]);
      hide DomainsCoded, RecordsBounded, Put;
    }
  }

  lemma PutWithin(ds: seq<DomainState>, r: AuditRecord)
    requires DomainsCoded(ds) && C.BoundedAudit(r)
    ensures DomainsCoded(Put(ds, r))
    ensures |Put(ds, r)| == if DomainIndex(ds, r.domain).Some? then |ds| else |ds| + 1
  {
  }

  lemma {:induction false} BeforeWithin(rs: seq<AuditRecord>, id: u64)
    requires RecordsBounded(rs)
    ensures RecordsBounded(Before(rs, id))
  {
    if rs != [] {
      BeforeWithin(rs[..|rs| - 1], id);
      hide C.BoundedAudit;
    }
  }

  lemma LoadWithin(o: Options, d: Disk)
    requires StateWithin(d.saved) && RecordsBounded(d.journal) && o.maxAuditRecords <= MAX_AUDIT_RECORDS
    ensures var t := Load(o, d);
            StateWithin(t) && t.evidence == FlagAll(d.saved.evidence) && t.incarnation == d.saved.incarnation
  {
    if d.journal != [] {
      BeforeWithin(d.saved.audit, d.journal[0].id);
      assert RecordsBounded(Before(d.saved.audit, d.journal[0].id) + d.journal) by { hide C.BoundedAudit; }
      TailWithin(Before(d.saved.audit, d.journal[0].id) + d.journal, o.maxAuditRecords);
    }
    hide RecordsBounded, DomainsCoded, Rebuild;
    var merged := d.saved.(audit := Merge(d.saved.audit, d.journal, o.maxAuditRecords));
    assert StateWithin(merged);
    RebuildWithin(merged, d.journal);
  }

  lemma ReopenWithin(w: World)
    requires Within(w)
    ensures Within(Reopened(w))
  {
    hide Load, Persist, DomainsCoded, RecordsBounded;
    LoadWithin(w.options, w.disk);
    var loaded := Load(w.options, w.disk);
    var state := loaded.(incarnation := Next(loaded.incarnation), epoch := if loaded.epoch == 0 then 1 else loaded.epoch);
    var slots := EmptySlots(loaded.evidence);
    assert KindsCoded(slots);
    var w1 := w.(accepting := true, state := state, slots := slots, clock := state.tick, sinceSave := 0, dirty := true);
    assert Within(w1);
    PersistWithin(w1, true, Io(true, true, true));
  }

  // ---------------------------------------------------------------- all runs

  lemma FreshWithin(k: Digests, o: Options, p: Policy)
    requires o.maxAuditRecords <= MAX_AUDIT_RECORDS
    ensures Within(Fresh(k, o, p))
  {
  }

  lemma StepWithin(k: Digests, w: World, s: Step)
    requires Within(w)
    ensures Within(Apply(k, w, s))
  {
    hide Within, Touches, AdvanceEpoch, Publish, EvaluateDomain, Reopened, Persist;
    match s.op
    case NewEpoch(epoch) => EpochWithin(w, epoch, s.io);
    case PublishOp(snapshot) => PublishWithin(k, w, snapshot, s.io);
    case EvaluateOp(domain, tick, cancelled, wall) => EvaluateWithin(k, w, domain, tick, cancelled, wall, s.io);
    case CrashAndReopen => ReopenWithin(w);
    case _ =>
      var v, committed := QuietFrame(k, w, s);
      TouchWithin(w, v);
      PersistWithin(v, true, s.io);
      hide Apply;
  }

  lemma {:induction false} RunWithin(k: Digests, ws: seq<World>, steps: seq<Step>, n: nat)
    requires IsRun(k, ws, steps) && Within(ws[0]) && n < |ws|
    ensures Within(ws[n])
  {
    hide Within, Apply;
    if n > 0 {
      RunWithin(k, ws, steps, n - 1);
      assert ws[n] == Apply(k, ws[n - 1], steps[n - 1]);
      StepWithin(k, ws[n - 1], steps[n - 1]);
    }
  }

  /** In every run of a governor that started on an empty directory: the state file on disk is read back as
      it was written if its evidence table is within the loader's bound, and is refused otherwise. */
  lemma SavedStateReads(k: Digests, o: Options, p: Policy, ws: seq<World>, steps: seq<Step>, n: nat, hash: HashFunction,
                        maxBytes: u64)
    requires ValidPolicy(InitialPolicy(k, p)) && o.maxAuditRecords <= MAX_AUDIT_RECORDS
    requires IsRun(k, ws, steps) && ws[0] == Fresh(k, o, p) && n < |ws|
    requires |C.EncodeState(ws[n].disk.saved)| <= maxBytes
    ensures var saved := ws[n].disk.saved;
            var fits := |saved.evidence| <= MAX_EVIDENCE_SLOTS;
            && (Readable(saved) <==> fits)
            && ReadStateFile(hash, maxBytes, FileOf(hash, C.EncodeState(saved))) == if fits then Some(saved) else None
  {
    ReadableUnlessCrowded(k, o, p, ws, steps, n);
    EveryRunIsSound(k, o, p, ws, steps, n);
    FreshWithin(k, o, p);
    RunWithin(k, ws, steps, n);
    var saved := ws[n].disk.saved;
    PolicyFits(saved.policy);
    StateFits(saved);
    hide *;
    ReadsBackUnlessCrowded(hash, maxBytes, saved);
  }

  /** Loading accepts the saved state exactly when its evidence table is within the loader's bound. */
  lemma ReadableUnlessCrowded(k: Digests, o: Options, p: Policy, ws: seq<World>, steps: seq<Step>, n: nat)
    requires ValidPolicy(InitialPolicy(k, p)) && o.maxAuditRecords <= MAX_AUDIT_RECORDS
    requires IsRun(k, ws, steps) && ws[0] == Fresh(k, o, p) && n < |ws|
    ensures Readable(ws[n].disk.saved) <==> |ws[n].disk.saved.evidence| <= MAX_EVIDENCE_SLOTS
  {
    EveryRunIsSound(k, o, p, ws, steps, n);
    FreshWithin(k, o, p);
    RunWithin(k, ws, steps, n);
    hide Fresh, InitialPolicy, ValidPolicy, IsRun;
  }

  // ------------------------------------------------------------ incarnations

  /** An incarnation is taken by a restart only. */
  predicate IncarnationsWithin(w: World, n: nat) {
    w.state.incarnation <= n && w.disk.saved.incarnation <= n
  }

  lemma PersistIncarnations(w: World, n: nat, force: bool, io: Io)
    requires IncarnationsWithin(w, n)
    ensures IncarnationsWithin(Persist(w, force, io).world, n)
  {
  }

  lemma EvaluateIncarnations(k: Digests, w: World, n: nat, domain: u64, requested: u64, cancelled: bool, wall: u64, io: Io)
    requires IncarnationsWithin(w, n)
    ensures IncarnationsWithin(EvaluateDomain(k, w, domain, requested, cancelled, wall, io).world, n)
  {
    hide EvaluateDomain, DecideFor, AppendJournal, Persist, RecordFor, Settled;
    EvaluateFrame(k, w, domain, requested, cancelled, wall, io);
    var w1 := w.(clock := EvaluationTick(w, requested));
    if Attempt(k, w, domain, requested, cancelled, wall).Some? {
      var (d, a) := DecideFor(k, w1, domain, w1.clock);
      var r := RecordFor(k, w1, domain, d, a, wall);
      AppendJournalKeeps(w1, r, io);
      PersistIncarnations(Accepted(AppendJournal(w1, r, io).world, domain, d, a), n, false, io);
    }
  }

  lemma PublishIncarnations(k: Digests, w: World, n: nat, snapshot: Snapshot, io: Io)
    requires IncarnationsWithin(w, n)
    ensures IncarnationsWithin(Publish(k, w, snapshot, io).world, n)
  {
    hide Ingest, Persist, SlotsEvolve, ValidPolicy, Filled;
    var s := Digested(k, snapshot);
    var r := Ingest(k, w, s, io);
    PublishFrame(k, w, s, io);
    if IsAccepted(r) {
      var i := PublisherIndex(w.state.publishers, ProvenanceOf(s).publisher).value;
      PersistIncarnations(Published(k, w, s, i, r.value.generation), n, true, io);
    }
  }

  lemma StepIncarnations(k: Digests, w: World, n: nat, s: Step)
    requires IncarnationsWithin(w, n) && Within(w) && n + 1 < U64_LIMIT
    ensures IncarnationsWithin(Apply(k, w, s), n + 1)
  {
    hide Within, SlotsEvolve, ValidPolicy, AdvanceEpoch, Publish, EvaluateDomain, Persist, Load;
    match s.op
    case NewEpoch(epoch) =>
      EpochFrame(w, epoch, s.io);
      PersistIncarnations(Advanced(w, epoch), n, true, s.io);
    case PublishOp(snapshot) => PublishIncarnations(k, w, n, snapshot, s.io);
    case EvaluateOp(domain, tick, cancelled, wall) => EvaluateIncarnations(k, w, n, domain, tick, cancelled, wall, s.io);
    case CrashAndReopen => ReopenIncarnations(w, n);
    case _ =>
      var v, committed := QuietFrame(k, w, s);
      PersistIncarnations(v, n, true, s.io);
      hide Apply;
  }

  lemma ReopenIncarnations(w: World, n: nat)
    requires IncarnationsWithin(w, n) && Within(w) && n + 1 < U64_LIMIT
    ensures IncarnationsWithin(Reopened(w), n + 1)
  {
    LoadWithin(w.options, w.disk);
    hide Load, StateWithin;
  }

  lemma {:induction false} RunIncarnations(k: Digests, ws: seq<World>, steps: seq<Step>, n: nat)
    requires IsRun(k, ws, steps) && Within(ws[0]) && IncarnationsWithin(ws[0], 1) && n < |ws| < U64_LIMIT
    ensures IncarnationsWithin(ws[n], n + 1)
  {
    hide Within, Apply, IncarnationsWithin;
    if n > 0 {
      RunIncarnations(k, ws, steps, n - 1);
      RunWithin(k, ws, steps, n - 1);
      assert ws[n] == Apply(k, ws[n - 1], steps[n - 1]);
      StepIncarnations(k, ws[n - 1], n, steps[n - 1]);
    }
  }

  /** open() accepts what a run has saved exactly when the evidence table is within the loader's bound: no
      run is long enough to exhaust the incarnations. */
  lemma ReopensUnlessCrowded(k: Digests, o: Options, p: Policy, ws: seq<World>, steps: seq<Step>, n: nat)
    requires ValidPolicy(InitialPolicy(k, p)) && o.maxAuditRecords <= MAX_AUDIT_RECORDS
    requires IsRun(k, ws, steps) && ws[0] == Fresh(k, o, p) && n < |ws| < U64_LIMIT - 1
    ensures Reopens(ws[n]) <==> |ws[n].disk.saved.evidence| <= MAX_EVIDENCE_SLOTS
  {
    FreshWithin(k, o, p);
    assert IncarnationsWithin(Fresh(k, o, p), 1);
    RunIncarnations(k, ws, steps, n);
    RunWithin(k, ws, steps, n);
    ReadableUnlessCrowded(k, o, p, ws, steps, n);
    hide Fresh, IsRun, InitialPolicy, ValidPolicy, Load, StateWithin, Readable;
    LoadWithin(ws[n].options, ws[n].disk);
  }

  // ------------------------------------------------------------ one state file

  lemma PolicyFits(p: Policy)
    requires ValidPolicy(p)
    ensures C.BoundedPolicy(p)
  {
    forall d | d in p.domains ensures C.BoundedDomainConfig(d) {
      assert ValidDomain(p, d);
    }
  }

  lemma StateFits(s: DurableState)
    requires StateWithin(s) && C.BoundedPolicy(s.policy) && EvidenceCoded(s.evidence)
    ensures C.BoundedState(s.(evidence := [])) && s.schemaVersion == STATE_SCHEMA_VERSION
    ensures forall e :: e in s.evidence ==> C.BoundedSlotState(e)
  {
    hide C.BoundedPolicy, C.BoundedDomainState, C.BoundedAudit, C.BoundedSlotState;
  }

  // ------------------------------------------------- how many slots there are

  /** What a slot is for. */
  datatype Pair = Pair(domain: u64, kind: EvidenceKind)

  function PairOf(e: SlotState): Pair { Pair(e.domain, e.kind) }

  /** The pairs these operations publish for. */
  function PublishedPairs(steps: seq<Step>): set<Pair> {
    set s | s in steps && s.op.PublishOp? :: Pair(HeaderOf(s.op.snapshot).domain, KindOf(s.op.snapshot))
  }

  predicate PairsIn(ps: set<Pair>, w: World) {
    && (forall i :: 0 <= i < |w.slots| ==> PairOf(w.slots[i].state) in ps)
    && (forall i :: 0 <= i < |w.disk.saved.evidence| ==> PairOf(w.disk.saved.evidence[i]) in ps)
  }

  lemma PersistPairs(ps: set<Pair>, w: World, force: bool, io: Io)
    requires PairsIn(ps, w)
    ensures PairsIn(ps, Persist(w, force, io).world)
  {
  }

  lemma TouchPairs(ps: set<Pair>, w: World, v: World)
    requires PairsIn(ps, w) && Touches(w, v)
    requires forall i :: |w.slots| <= i < |v.slots| ==> PairOf(v.slots[i].state) in ps
    ensures PairsIn(ps, v)
  {
    hide ValidPolicy;
    forall i | 0 <= i < |v.slots| ensures PairOf(v.slots[i].state) in ps {
      if i < |w.slots| {
        assert SameKey(w.slots[i].state, v.slots[i].state);
      }
    }
  }

  lemma PublishPairs(ps: set<Pair>, k: Digests, w: World, snapshot: Snapshot, io: Io)
    requires PairsIn(ps, w) && Pair(HeaderOf(snapshot).domain, KindOf(snapshot)) in ps
    ensures PairsIn(ps, Publish(k, w, snapshot, io).world)
  {
    hide Ingest, Touches, Persist, Bound, Occupied;
    var s := Digested(k, snapshot);
    var r := Ingest(k, w, s, io);
    PublishFrame(k, w, s, io);
    if IsAccepted(r) {
      var v := Published(k, w, s, PublisherIndex(w.state.publishers, ProvenanceOf(s).publisher).value, r.value.generation);
      FilledPairs(ps, k, w.slots, s, r.value.generation);
      PersistPairs(ps, v, true, io);
    } else {
      TouchPairs(ps, w, r.world);
    }
  }

  lemma FilledPairs(ps: set<Pair>, k: Digests, slots: seq<Slot>, s: Snapshot, g: u64)
    requires forall i :: 0 <= i < |slots| ==> PairOf(slots[i].state) in ps
    requires Pair(HeaderOf(s).domain, KindOf(s)) in ps
    ensures forall i :: 0 <= i < |Filled(k, slots, s, g)| ==> PairOf(Filled(k, slots, s, g)[i].state) in ps
  {
    hide Bound;
  }

  lemma EvaluatePairs(ps: set<Pair>, k: Digests, w: World, domain: u64, requested: u64, cancelled: bool, wall: u64, io: Io)
    requires PairsIn(ps, w)
    ensures PairsIn(ps, EvaluateDomain(k, w, domain, requested, cancelled, wall, io).world)
  {
    hide EvaluateDomain, DecideFor, AppendJournal, Persist, RecordFor, Settled;
    EvaluateFrame(k, w, domain, requested, cancelled, wall, io);
    var w1 := w.(clock := EvaluationTick(w, requested));
    if Attempt(k, w, domain, requested, cancelled, wall).Some? {
      var (d, a) := DecideFor(k, w1, domain, w1.clock);
      AppendJournalKeeps(w1, RecordFor(k, w1, domain, d, a, wall), io);
      var w2 := AppendJournal(w1, RecordFor(k, w1, domain, d, a, wall), io).world;
      assert PairsIn(ps, Accepted(w2, domain, d, a));
      PersistPairs(ps, Accepted(w2, domain, d, a), false, io);
    }
  }

  lemma ReopenPairs(ps: set<Pair>, w: World)
    requires PairsIn(ps, w) && Within(w)
    ensures PairsIn(ps, Reopened(w))
  {
    hide Load, StateWithin;
    LoadWithin(w.options, w.disk);
    assert forall i :: 0 <= i < |Reopened(w).slots| ==>
        PairOf(Reopened(w).slots[i].state) == PairOf(w.disk.saved.evidence[i]);
  }

  lemma StepPairs(ps: set<Pair>, k: Digests, w: World, s: Step)
    requires PairsIn(ps, w) && Within(w)
    requires s.op.PublishOp? ==> Pair(HeaderOf(s.op.snapshot).domain, KindOf(s.op.snapshot)) in ps
    ensures PairsIn(ps, Apply(k, w, s))
  {
    hide Within, Touches, AdvanceEpoch, Publish, EvaluateDomain, Reopened, Persist;
    match s.op
    case NewEpoch(epoch) =>
      EpochFrame(w, epoch, s.io);
      assert PairsIn(ps, Advanced(w, epoch));
      PersistPairs(ps, Advanced(w, epoch), true, s.io);
    case PublishOp(snapshot) => PublishPairs(ps, k, w, snapshot, s.io);
    case EvaluateOp(domain, tick, cancelled, wall) => EvaluatePairs(ps, k, w, domain, tick, cancelled, wall, s.io);
    case CrashAndReopen => ReopenPairs(ps, w);
    case _ =>
      var v, committed := QuietFrame(k, w, s);
      TouchPairs(ps, w, v);
      PersistPairs(ps, v, true, s.io);
      hide Apply, PairsIn;
  }

  lemma {:induction false} RunPairs(k: Digests, ws: seq<World>, steps: seq<Step>, n: nat)
    requires IsRun(k, ws, steps) && Within(ws[0]) && PairsIn({}, ws[0]) && n < |ws|
    ensures PairsIn(PublishedPairs(steps[..n]), ws[n])
  {
    hide Within, Apply;
    if n > 0 {
      RunPairs(k, ws, steps, n - 1);
      RunWithin(k, ws, steps, n - 1);
      assert steps[..n] == steps[..n - 1] + [steps[n - 1]];
      assert ws[n] == Apply(k, ws[n - 1], steps[n - 1]);
      assert steps[n - 1] in steps[..n];
      assert PublishedPairs(steps[..n - 1]) <= PublishedPairs(steps[..n]);
      StepPairs(PublishedPairs(steps[..n]), k, ws[n - 1], steps[n - 1]);
    }
  }

  lemma {:induction false} DistinctPairs(es: seq<SlotState>, ps: set<Pair>)
    requires UniqueKeys(es) && forall i :: 0 <= i < |es| ==> PairOf(es[i]) in ps
    ensures |es| <= |ps|
  {
    if es != [] {
      var last := es[|es| - 1];
      forall i | 0 <= i < |es| - 1 ensures PairOf(es[i]) in ps - {PairOf(last)} {
        assert !SameKey(es[i], last);
      }
      DistinctPairs(es[..|es| - 1], ps - {PairOf(last)});
    }
  }

  /** A caller that publishes for no more pairs of domain and kind than the loader takes always gets its
      state back. */
  lemma FewPairsAlwaysLoad(k: Digests, o: Options, p: Policy, ws: seq<World>, steps: seq<Step>, n: nat)
    requires ValidPolicy(InitialPolicy(k, p)) && o.maxAuditRecords <= MAX_AUDIT_RECORDS
    requires IsRun(k, ws, steps) && ws[0] == Fresh(k, o, p) && n < |ws|
    requires |PublishedPairs(steps[..n])| <= MAX_EVIDENCE_SLOTS
    ensures TryLoad(ws[n].options, ws[n].disk) == Some(Load(ws[n].options, ws[n].disk))
  {
    hide Within, Load;
    FreshWithin(k, o, p);
    assert PairsIn({}, Fresh(k, o, p));
    RunPairs(k, ws, steps, n);
    EveryRunIsSound(k, o, p, ws, steps, n);
    ReadableUnlessCrowded(k, o, p, ws, steps, n);
    hide Fresh, IsRun, PublishedPairs, InitialPolicy, ValidPolicy, Readable;
    DistinctPairs(ws[n].disk.saved.evidence, PublishedPairs(steps[..n]));
  }
}
