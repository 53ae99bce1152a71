/** What holds in every state the governor can reach: evidence stays bound to its slot and to the
    current epoch, the policy in force is valid, and fences are held only at severity 3 or more. */
module Binding {
  import opened Checked
  import opened Wire
  import opened Model
  import opened PolicyRules
  import opened Engine
  import opened Conservation
  import opened EvidenceRules
  import opened HysteresisRules
  import opened Replay
  import opened Governing
  import opened Frames

  // ------------------------------------------------------------- invariant

  predicate UniqueKeys(es: seq<SlotState>) {
    forall i, j :: 0 <= i < j < |es| ==> !SameKey(es[i], es[j])
  }

  /** A slot's content is of its kind and carries its domain, its generation and the epoch. */
  predicate ContentBound(epoch: u64, s: Slot) {
    match s.content
    case None => true
    case Some(c) =>
      && KindOf(c) == s.state.kind && s.state.generation != 0
      && HeaderOf(c).domain == s.state.domain && HeaderOf(c).generation == s.state.generation
      && HeaderOf(c).epoch == epoch
  }

  predicate SlotsBound(slots: seq<Slot>, epoch: u64) {
    UniqueSlots(slots) && forall i :: 0 <= i < |slots| ==> ContentBound(epoch, slots[i])
  }

  predicate FencesHeld(ds: seq<DomainState>) {
    forall i :: 0 <= i < |ds| ==> FenceHeld(ds[i])
  }

  /** A record grants exactly when outcome found and outcome announced both allow it, and then something that
      fits under its ceiling beside its commitments. */
  predicate Honest(r: AuditRecord) {
    && (r.authorized <==> r.raw.WithinPolicy? && r.effective.WithinPolicy?)
    && (if r.authorized
        then 0 < r.authorizedIncrement <= r.ceilingTotal - r.committedTotal && r.overage == 0 && !r.fenced
        else r.authorizedIncrement == 0)
  }

  predicate RecordHeld(r: AuditRecord) { (r.fenced ==> Severity(r.effective) >= 3) && Honest(r) }

  predicate RecordsHeld(rs: seq<AuditRecord>) {
    forall i :: 0 <= i < |rs| ==> RecordHeld(rs[i])
  }

  predicate StateSound(s: DurableState) {
    ValidPolicy(s.policy) && s.epoch != 0 && FencesHeld(s.domains) && RecordsHeld(s.audit)
  }

  predicate DiskSound(d: Disk) {
    StateSound(d.saved) && UniqueKeys(d.saved.evidence) && RecordsHeld(d.journal)
  }

  predicate Sound(w: World) {
    StateSound(w.state) && SlotsBound(w.slots, w.state.epoch) && DiskSound(w.disk)
  }

  // ----------------------------------------------------- quiet operations

  lemma PersistSound(w: World, force: bool, io: Io)
    requires Sound(w)
    ensures Sound(Persist(w, force, io).world)
  {
    hide ValidPolicy;
  }

  lemma EvolvedSlots(a: seq<Slot>, b: seq<Slot>, epoch: u64)
    requires SlotsBound(a, epoch) && SlotsEvolve(a, b)
    ensures SlotsBound(b, epoch)
  {
    forall i | 0 <= i < |b| ensures ContentBound(epoch, b[i]) {
      if i < |a| {
        assert ContentBound(epoch, a[i]) && SameKey(a[i].state, b[i].state);
      }
    }
  }

  lemma TouchSound(w: World, v: World)
    requires Sound(w) && Touches(w, v)
    ensures Sound(v)
  {
    hide ValidPolicy;
    EvolvedSlots(w.slots, v.slots, w.state.epoch);
    hide SlotsBound, SlotsEvolve;
  }

  lemma QuietSound(k: Digests, w: World, s: Step)
    requires Sound(w) && Quiet(s.op)
    ensures Sound(Apply(k, w, s))
  {
    hide Sound, Touches, Apply, Persist;
    var v, committed := QuietFrame(k, w, s);
    TouchSound(w, v);
    PersistSound(v, true, s.io);
  }

  // ------------------------------------------------------------------ epoch

  lemma EpochSound(w: World, next: u64, io: Io)
    requires Sound(w)
    ensures Sound(AdvanceEpoch(w, next, io).world)
  {
    hide ValidPolicy, AdvanceEpoch;
    EpochFrame(w, next, io);
    if next > w.state.epoch {
      DroppedSlots(w.slots);
      assert FencesHeld(Advanced(w, next).state.domains);
      assert Sound(Advanced(w, next));
      PersistSound(Advanced(w, next), true, io);
    }
    hide Sound, Persist;
  }

  // --------------------------------------------------------------- evidence

  /** The content an accepted publication leaves in its slot. */
  lemma AcceptedContent(k: Digests, before: SlotState, s: Snapshot, g: u64, payload: Digest)
    requires before.domain == HeaderOf(s).domain && before.kind == KindOf(s) && g != 0
    ensures ContentBound(HeaderOf(s).epoch, Slot(Occupied(before, s, g, payload), Some(Bound(k, s, g))))
  {
  }

  lemma FilledSound(k: Digests, slots: seq<Slot>, s: Snapshot, g: u64)
    requires SlotsBound(slots, HeaderOf(s).epoch) && g != 0
    ensures SlotsBound(Filled(k, slots, s, g), HeaderOf(s).epoch)
  {
    var (ensured, at) := Ensured(slots, HeaderOf(s).domain, KindOf(s));
    EnsuredSlots(slots, HeaderOf(s).domain, KindOf(s));
    EvolvedSlots(slots, ensured, HeaderOf(s).epoch);
    AcceptedContent(k, ensured[at].state, s, g, ProvenanceOf(s).payloadDigest);
    UpdatedSlots(ensured, at, Filled(k, slots, s, g)[at]);
    hide Occupied, Bound, UniqueSlots, ContentBound;
  }

  lemma PublishSound(k: Digests, w: World, snapshot: Snapshot, io: Io)
    requires Sound(w)
    ensures Sound(Publish(k, w, snapshot, io).world)
  {
    hide ValidPolicy, Ingest, Touches, SlotsBound, Filled;
    var s := Digested(k, snapshot);
    var r := Ingest(k, w, s, io);
    PublishFrame(k, w, s, io);
    if IsAccepted(r) {
      var i := PublisherIndex(w.state.publishers, ProvenanceOf(s).publisher).value;
      FilledSound(k, w.slots, s, r.value.generation);
      var v := Published(k, w, s, i, r.value.generation);
      assert Sound(v);
      PersistSound(v, true, io);
    } else {
      TouchSound(w, r.world);
    }
    hide Sound, Persist;
  }

  // -------------------------------------------------------------- evaluation

  lemma TailHeld(rs: seq<AuditRecord>, n: nat)
    requires RecordsHeld(rs)
    ensures RecordsHeld(Newest(rs, n)) && forall prefix :: prefix <= Newest(rs, n) ==> RecordsHeld(prefix)
  {
    forall prefix | prefix <= Newest(rs, n) ensures RecordsHeld(prefix) {
      forall i | 0 <= i < |prefix| ensures RecordHeld(prefix[i]) {
        assert prefix[i] == Newest(rs, n)[i];
      }
    }
  }

  lemma AppendSound(w: World, r: AuditRecord, io: Io)
    requires Sound(w) && RecordHeld(r)
    ensures Sound(Append(w, r, io).world)
  {
    hide ValidPolicy, FrameFits;
  }

  lemma CompactSound(w: World, io: Io)
    requires Sound(w)
    ensures Sound(Compact(w, io).world)
  {
    hide ValidPolicy, RecordsHeld;
    TailHeld(w.state.audit, Keep(w.options));
  }

  lemma TailSound(w: World, r: AuditRecord)
    requires Sound(w) && RecordHeld(r)
    ensures Sound(w.(state := w.state.(audit := Newest(w.state.audit + [r], w.options.maxAuditRecords))))
  {
    hide ValidPolicy;
    assert RecordsHeld(w.state.audit + [r]);
    TailHeld(w.state.audit + [r], w.options.maxAuditRecords);
    hide RecordsHeld;
  }

  lemma AppendJournalSound(w: World, r: AuditRecord, io: Io)
    requires Sound(w) && RecordHeld(r)
    ensures Sound(AppendJournal(w, r, io).world)
  {
    hide Sound, Append, Compact, RecordHeld;
    AppendSound(w, r, io);
    CompactSound(w, io);
    AppendSound(Compact(w, io).world, r, io);
    TailSound(Append(w, r, io).world, r);
    TailSound(Append(Compact(w, io).world, r, io).world, r);
  }

  lemma EnterHeld(ds: seq<DomainState>, d: DomainState)
    requires FencesHeld(ds) && FenceHeld(d)
    ensures FencesHeld(Enter(ds, d))
  {
  }

  /** What a decision grants: all that is left of the ceiling, beside the commitments and the reserve, when
      the outcome found and the one announced both allow it, and nothing otherwise. */
  predicate GrantsRightly(w: World, domain: u64, d: Decision) {
    && (d.authorized <==> d.raw.WithinPolicy? && d.effective.WithinPolicy?)
    && (!d.authorized ==> d.increment == 0)
    && (d.authorized ==>
          var c := FindDomain(w.state.policy.domains, domain);
          && c.Some? && d.evaluation.assessment.Assessed? && d.increment > 0
          && var a := d.evaluation.assessment.accounting;
          && a.committedTotal + d.increment + c.value.emergencyReserve == a.ceilingTotal && a.overage == 0)
  }

  /** The record of a decision says what was decided, on what amounts. */
  predicate Records(w: World, domain: u64, d: Decision, r: AuditRecord) {
    var a := d.evaluation.assessment;
    && r.id == r.decision == d.id && r.domain == domain && r.decisionDigest == d.digest
    && r.raw == d.raw == a.verdict.outcome && r.effective == d.effective && r.reason == a.verdict.reason
    && r.authorized == d.authorized && r.authorizedIncrement == d.increment && r.fenced == d.fenced
    && r.confirmations == d.confirmations && r.tick == d.issuedTick
    && r.incarnation == d.incarnation == w.state.incarnation && r.epoch == d.epoch == w.state.epoch
    && r.policyGeneration == w.state.policy.generation
    && (a.Assessed? ==>
          && r.ceilingTotal == a.accounting.ceilingTotal && r.committedTotal == a.accounting.committedTotal
          && r.overage == a.accounting.overage && r.constraint == a.accounting.constraint)
    && (a.Withheld? ==> r.ceilingTotal == r.committedTotal == r.overage == 0)
  }

  /** Every decision: it grants rightly, its record says so and keeps the fence discipline as the runtime
      state does, and nothing fenced is authorized. */
  lemma DecisionDiscipline(k: Digests, w: World, domain: u64, tick: u64, wall: u64)
    requires Sound(w)
    ensures var (d, a) := DecideFor(k, w, domain, tick);
            var r := RecordFor(k, w, domain, d, a, wall);
            && GrantsRightly(w, domain, d) && Records(w, domain, d, r)
            && FenceHeld(Settled(w, domain, d, a)) && RecordHeld(r)
            && (d.authorized ==> !d.fenced && d.effective.WithinPolicy? && d.raw.WithinPolicy?)
  {
    hide *;
    FenceKept(k, w, domain, tick);
    DecisionGrants(k, w, domain, tick);
    DecisionRecorded(k, w, domain, tick, wall);
    var (d, a) := DecideFor(k, w, domain, tick);
    HonestWhenGranted(w, domain, d, RecordFor(k, w, domain, d, a, wall));
  }

  lemma FenceKept(k: Digests, w: World, domain: u64, tick: u64)
    requires Sound(w)
    ensures var (d, a) := DecideFor(k, w, domain, tick);
            && FenceHeld(Settled(w, domain, d, a)) && (d.fenced ==> Severity(d.effective) >= 3)
            && (d.effective.WithinPolicy? ==> !d.fenced)
  {
    var e := CurrentEvaluation(w, domain, tick);
    var working := WorkingState(w, domain, e.assessment.verdict.outcome);
    FenceDiscipline(w.state.policy.hysteresis, working, SignalOf(e, tick));
    FencedIsAnnounced(w.state.policy.hysteresis, working, SignalOf(e, tick));
    hide Announce, CurrentEvaluation, CurrentExpectation, BindingFault;
  }

  lemma DecisionRecorded(k: Digests, w: World, domain: u64, tick: u64, wall: u64)
    ensures var (d, a) := DecideFor(k, w, domain, tick); Records(w, domain, d, RecordFor(k, w, domain, d, a, wall))
  {
    hide Announcing, CurrentEvaluation, BindingFault, CurrentEvidence, Shortened;
  }

  lemma HonestWhenGranted(w: World, domain: u64, d: Decision, r: AuditRecord)
    requires GrantsRightly(w, domain, d) && Records(w, domain, d, r)
    requires (d.fenced ==> Severity(d.effective) >= 3) && (d.effective.WithinPolicy? ==> !d.fenced)
    ensures RecordHeld(r)
    ensures d.authorized ==> !d.fenced && d.effective.WithinPolicy? && d.raw.WithinPolicy?
  {
    hide FindDomain;
  }

  lemma DecisionGrants(k: Digests, w: World, domain: u64, tick: u64)
    requires Sound(w)
    ensures GrantsRightly(w, domain, DecideFor(k, w, domain, tick).0)
  {
    var e := CurrentEvaluation(w, domain, tick);
    AuthorizedMeansWithin(w, domain, tick);
    var c := FindDomain(w.state.policy.domains, domain);
    hide Sound, Announcing, Evaluate, CurrentExpectation, CurrentEvidence, ValidPolicy;
    if e.authorized {
      assert ValidPolicy(w.state.policy) by { SoundPolicy(w); }
      GrantConservation(w.state.policy, c.value, CurrentExpectation(w, domain), CurrentEvidence(w, domain), tick);
      GrantIsWithin(w.state.policy, c.value, CurrentExpectation(w, domain), CurrentEvidence(w, domain), tick);
    }
  }

  lemma SoundPolicy(w: World)
    requires Sound(w)
    ensures ValidPolicy(w.state.policy)
  {
  }

  lemma AuthorizedMeansWithin(w: World, domain: u64, tick: u64)
    ensures var e := CurrentEvaluation(w, domain, tick);
            && (e.authorized <==> e.assessment.verdict.outcome.WithinPolicy?)
            && (e.authorized ==> FindDomain(w.state.policy.domains, domain).Some?)
  {
    hide AssessEvidence, AuthorityOf;
  }

  lemma FencedIsAnnounced(h: Hysteresis, s: DomainState, e: Signal)
    requires FenceHeld(s)
    ensures var a := Announce(h, s, e); a.state.fenced ==> Severity(a.effective) >= 3
  {
  }

  lemma EvaluateSound(k: Digests, w: World, domain: u64, requested: u64, cancelled: bool, wall: u64, io: Io)
    requires Sound(w)
    ensures Sound(EvaluateDomain(k, w, domain, requested, cancelled, wall, io).world)
  {
    hide ValidPolicy, EvaluateDomain, DecideFor, AppendJournal, Persist, RecordFor, Settled, StateSound, SlotsBound,
      DiskSound;
    EvaluateFrame(k, w, domain, requested, cancelled, wall, io);
    var w1 := w.(clock := EvaluationTick(w, requested));
    assert Sound(w1);
    if Attempt(k, w, domain, requested, cancelled, wall).Some? {
      var (d, a) := DecideFor(k, w1, domain, w1.clock);
      var r := RecordFor(k, w1, domain, d, a, wall);
      DecisionDiscipline(k, w1, domain, w1.clock, wall);
      AppendJournalSound(w1, r, io);
      var w2 := AppendJournal(w1, r, io).world;
      AcceptedSound(k, w1, w2, domain, r, io, wall);
      PersistSound(Accepted(w2, domain, d, a), false, io);
    }
    hide Sound, Accepted;
  }

  lemma AcceptedSound(k: Digests, w: World, v: World, domain: u64, r: AuditRecord, io: Io, wall: u64)
    requires Sound(w) && Sound(v) && v == AppendJournal(w, r, io).world
    ensures var (d, a) := DecideFor(k, w, domain, w.clock); Sound(Accepted(v, domain, d, a))
  {
    hide ValidPolicy, DecideFor, AppendJournal, RecordFor, Settled, SlotsBound, DiskSound;
    var (d, a) := DecideFor(k, w, domain, w.clock);
    DecisionDiscipline(k, w, domain, w.clock, wall);
    AppendJournalKeeps(w, r, io);
    SettledSame(w, v, domain, d, a);
    EnterHeld(v.state.domains, Settled(v, domain, d, a));
    hide FencesHeld, Enter;
  }

  // ----------------------------------------------------------------- reopening

  lemma {:induction false} RebuildSound(s: DurableState, rs: seq<AuditRecord>)
    requires StateSound(s) && RecordsHeld(rs)
    ensures var t := Rebuild(s, rs).state;
            && StateSound(t) && t.policy == s.policy && t.evidence == s.evidence && t.epoch >= s.epoch
            && t.incarnation == s.incarnation && t.audit == s.audit
  {
    hide ValidPolicy;
    if rs != [] {
      RebuildSound(s, rs[..|rs| - 1]);
      PutHeld(Rebuild(s, rs[..|rs| - 1]).state.domains, rs[|rs| - 1]);
    }
  }

  lemma PutHeld(ds: seq<DomainState>, r: AuditRecord)
    requires FencesHeld(ds) && RecordHeld(r)
    ensures FencesHeld(Put(ds, r))
  {
  }

  lemma {:induction false} BeforeHeld(rs: seq<AuditRecord>, id: u64)
    requires RecordsHeld(rs)
    ensures RecordsHeld(Before(rs, id))
  {
    if rs != [] {
      BeforeHeld(rs[..|rs| - 1], id);
    }
  }

  lemma LoadSound(o: Options, d: Disk)
    requires DiskSound(d)
    ensures var t := Load(o, d);
            && StateSound(t) && t.policy == d.saved.policy && t.evidence == FlagAll(d.saved.evidence)
            && t.incarnation == d.saved.incarnation
  {
    hide ValidPolicy;
    if d.journal != [] {
      BeforeHeld(d.saved.audit, d.journal[0].id);
    }
    var merged := d.saved.(audit := Merge(d.saved.audit, d.journal, o.maxAuditRecords));
    assert StateSound(merged);
    RebuildSound(merged, d.journal);
  }

  lemma ReopenSound(w: World)
    requires Sound(w)
    ensures Sound(Reopened(w))
  {
    hide ValidPolicy, Load, Persist;
    LoadSound(w.options, w.disk);
    var loaded := Load(w.options, w.disk);
    var slots := EmptySlots(loaded.evidence);
    forall i, j | 0 <= i < j < |slots| ensures !SameKey(slots[i].state, slots[j].state) {
      assert !SameKey(w.disk.saved.evidence[i], w.disk.saved.evidence[j]);
    }
    var state := loaded.(incarnation := Next(loaded.incarnation));
    var w1 := w.(accepting := true, state := state, slots := slots, clock := state.tick, sinceSave := 0, dirty := true);
    assert Sound(w1);
    PersistSound(w1, true, Io(true, true, true));
  }

  // -------------------------------------------------------------- all runs

  lemma FreshSound(k: Digests, o: Options, p: Policy)
    requires ValidPolicy(InitialPolicy(k, p))
    ensures Sound(Fresh(k, o, p))
  {
    hide ValidPolicy;
  }

  lemma StepSound(k: Digests, w: World, s: Step)
    requires Sound(w)
    ensures Sound(Apply(k, w, s))
  {
    hide Sound, AdvanceEpoch, Publish, EvaluateDomain, Reopened;
    match s.op
    case NewEpoch(epoch) => EpochSound(w, epoch, s.io);
    case PublishOp(snapshot) => PublishSound(k, w, snapshot, s.io);
    case EvaluateOp(domain, tick, cancelled, wall) => EvaluateSound(k, w, domain, tick, cancelled, wall, s.io);
    case CrashAndReopen => ReopenSound(w);
    case _ => QuietSound(k, w, s);
  }

  lemma {:induction false} RunSound(k: Digests, ws: seq<World>, steps: seq<Step>, n: nat)
    requires IsRun(k, ws, steps) && Sound(ws[0]) && n < |ws|
    ensures Sound(ws[n])
  {
    hide Sound, Apply;
    if n > 0 {
      RunSound(k, ws, steps, n - 1);
      assert ws[n] == Apply(k, ws[n - 1], steps[n - 1]);
      StepSound(k, ws[n - 1], steps[n - 1]);
    }
  }

  /** In every run of a governor that started on an empty directory. */
  lemma EveryRunIsSound(k: Digests, o: Options, p: Policy, ws: seq<World>, steps: seq<Step>, n: nat)
    requires ValidPolicy(InitialPolicy(k, p)) && IsRun(k, ws, steps) && ws[0] == Fresh(k, o, p) && n < |ws|
    ensures Sound(ws[n])
  {
    FreshSound(k, o, p);
    RunSound(k, ws, steps, n);
    hide *;
  }

  /** In every run: what an evaluation hands out grants rightly, and the record it leaves in the journal and
      the audit says so; and so does every record there ever was. */
  lemma EveryDecisionGrantsRightly(k: Digests, o: Options, p: Policy, ws: seq<World>, steps: seq<Step>, n: nat,
                                   d: Decision)
    requires ValidPolicy(InitialPolicy(k, p)) && IsRun(k, ws, steps) && ws[0] == Fresh(k, o, p) && n < |steps|
    requires var op := steps[n].op;
             op.EvaluateOp?
             && EvaluateDomain(k, ws[n], op.domain, op.tick, op.cancelled, op.wall, steps[n].io).value == Some(d)
    ensures GrantsRightly(ws[n], steps[n].op.domain, d)
    ensures var v := ws[n + 1];
            && v.disk.journal != [] && Records(ws[n], steps[n].op.domain, d, v.disk.journal[|v.disk.journal| - 1])
            && RecordsHeld(v.disk.journal) && RecordsHeld(v.state.audit) && RecordsHeld(v.disk.saved.audit)
  {
    assert ws[n + 1] == Apply(k, ws[n], steps[n]);
    hide *;
    EveryRunIsSound(k, o, p, ws, steps, n);
    EveryRunIsSound(k, o, p, ws, steps, n + 1);
    HeldInSound(ws[n + 1]);
    StepGrantsRightly(k, ws[n], steps[n], d);
  }

  lemma StepGrantsRightly(k: Digests, w: World, s: Step, d: Decision)
    requires Sound(w) && s.op.EvaluateOp?
    requires EvaluateDomain(k, w, s.op.domain, s.op.tick, s.op.cancelled, s.op.wall, s.io).value == Some(d)
    ensures GrantsRightly(w, s.op.domain, d)
    ensures var journal := Apply(k, w, s).disk.journal;
            journal != [] && Records(w, s.op.domain, d, journal[|journal| - 1])
  {
    var op := s.op;
    EvaluationApplied(k, w, s);
    hide *;
    var w1 := w.(clock := EvaluationTick(w, op.tick));
    ClockSound(w, w1);
    HandedOut(k, w, op.domain, op.tick, op.cancelled, op.wall, s.io);
    DecisionDiscipline(k, w1, op.domain, w1.clock, op.wall);
    var journal := Apply(k, w, s).disk.journal;
    ClockGrants(w, w1, op.domain, d, journal[|journal| - 1]);
  }

  lemma EvaluationApplied(k: Digests, w: World, s: Step)
    requires s.op.EvaluateOp?
    ensures Apply(k, w, s) == EvaluateDomain(k, w, s.op.domain, s.op.tick, s.op.cancelled, s.op.wall, s.io).world
  {
    hide EvaluateDomain;
  }

  lemma HeldInSound(w: World)
    requires Sound(w)
    ensures RecordsHeld(w.disk.journal) && RecordsHeld(w.state.audit) && RecordsHeld(w.disk.saved.audit)
  {
    hide ValidPolicy, RecordsHeld;
  }

  lemma ClockSound(w: World, v: World)
    requires Sound(w) && v == w.(clock := v.clock)
    ensures Sound(v)
  {
  }

  lemma ClockGrants(w: World, v: World, domain: u64, d: Decision, r: AuditRecord)
    requires v == w.(clock := v.clock)
    ensures GrantsRightly(w, domain, d) == GrantsRightly(v, domain, d)
    ensures Records(w, domain, d, r) == Records(v, domain, d, r)
  {
  }

  /** A decision handed out is the one computed, and its record is the last of the journal. */
  lemma HandedOut(k: Digests, w: World, domain: u64, requested: u64, cancelled: bool, wall: u64, io: Io)
    requires EvaluateDomain(k, w, domain, requested, cancelled, wall, io).value.Some?
    ensures var r := EvaluateDomain(k, w, domain, requested, cancelled, wall, io);
            var w1 := w.(clock := EvaluationTick(w, requested));
            var (d, a) := DecideFor(k, w1, domain, w1.clock);
            var journal := r.world.disk.journal;
            && r.value == Some(d)
            && journal != [] && journal[|journal| - 1] == RecordFor(k, w1, domain, d, a, wall)
  {
    var w1 := w.(clock := EvaluationTick(w, requested));
    var (d, a) := DecideFor(k, w1, domain, w1.clock);
    var r := RecordFor(k, w1, domain, d, a, wall);
    EvaluateReply(k, w, domain, requested, cancelled, wall, io);
    EvaluateFrame(k, w, domain, requested, cancelled, wall, io);
    AttemptedRecord(k, w, domain, requested, cancelled, wall);
    AppendedLast(w1, r, io);
    PersistKeepsJournal(Accepted(AppendJournal(w1, r, io).world, domain, d, a), false, io);
    hide EvaluateDomain, DecideFor, RecordFor, AppendJournal, Persist, Settled, Enter, Attempt;
  }

  lemma AttemptedRecord(k: Digests, w: World, domain: u64, requested: u64, cancelled: bool, wall: u64)
    ensures var w1 := w.(clock := EvaluationTick(w, requested));
            var (d, a) := DecideFor(k, w1, domain, w1.clock);
            var attempt := Attempt(k, w, domain, requested, cancelled, wall);
            attempt.Some? ==> attempt.value == RecordFor(k, w1, domain, d, a, wall)
  {
    hide DecideFor, RecordFor;
  }

  lemma AppendedLast(w: World, r: AuditRecord, io: Io)
    requires AppendJournal(w, r, io).status.Success?
    ensures var journal := AppendJournal(w, r, io).world.disk.journal; journal != [] && journal[|journal| - 1] == r
  {
    hide FrameFits, Compact;
  }

  lemma PersistKeepsJournal(w: World, force: bool, io: Io)
    ensures Persist(w, force, io).world.disk.journal == w.disk.journal
  {
  }
}
