/** A decision that revalidates can be reproduced from what the runtime holds now. */
module Revalidation {
  import opened Checked
  import opened Wire
  import opened Model
  import opened PolicyRules
  import opened Engine
  import opened EvidenceRules
  import opened HysteresisRules
  import opened Replay
  import opened Governing
  import opened Frames
  import opened Binding
  import opened History
  import opened Publication

  // ------------------------------------------------ the engine's bound exits

  /** Content found in a sound world is of the kind, domain, generation and epoch it was asked for. */
  lemma ContentMatches(w: World, domain: u64, kind: EvidenceKind)
    requires SlotsBound(w.slots, w.state.epoch) && ContentIn(w.slots, domain, kind).Some?
    ensures var c := ContentIn(w.slots, domain, kind).value;
            && KindOf(c) == kind && GenerationIn(w.slots, domain, kind) != 0
            && HeaderOf(c) == Header(domain, GenerationIn(w.slots, domain, kind), w.state.epoch, HeaderOf(c).observedTick)
  {
    assert ContentBound(w.state.epoch, w.slots[SlotIndex(w.slots, domain, kind).value]);
  }

  lemma PolicyGenerationsSet(p: Policy, d: DomainConfig)
    requires ValidPolicy(p) && d in p.domains
    ensures p.generation != 0 && p.riskBudget.generation != 0 && d.generation != 0
    ensures p.id != 0 && p.riskBudget.id != 0 && d.id != 0
  {
  }

  predicate AllPresent(e: Evidence) { e.capacity.Some? && e.reservations.Some? && e.admissions.Some? }

  /** From a reachable state the engine never sees evidence of another domain, epoch or generation:
      evidence is either complete and bound, or missing. */
  lemma MismatchExitsUnreachable(w: World, domain: u64)
    requires Sound(w) && FindDomain(w.state.policy.domains, domain).Some?
    ensures var d := FindDomain(w.state.policy.domains, domain).value;
            var e := CurrentEvidence(w, domain);
            BindingFault(w.state.policy, d, CurrentExpectation(w, domain), e)
            == if AllPresent(e) then None else Some(Verdict(Unknown, EVIDENCE_INCOMPLETE))
  {
    var d := FindDomain(w.state.policy.domains, domain).value;
    var e := CurrentEvidence(w, domain);
    PolicyGenerationsSet(w.state.policy, d);
    hide ValidPolicy;
    if AllPresent(e) {
      ContentMatches(w, domain, Capacity);
      ContentMatches(w, domain, Reservation);
      ContentMatches(w, domain, Admission);
      hide SlotsBound, ContentIn, GenerationIn;
    }
  }

  // ------------------------------------------------ the past stays faithful

  lemma FreshRemembered(k: Digests, o: Options, p: Policy)
    ensures var w := Fresh(k, o, p); Remembered(NothingIssued(w), w)
  {
  }

  /** Known facts stay known while the memory only grows. */
  predicate Extends(a: Past, b: Past) {
    && (forall g :: g in a.policies ==> g in b.policies && b.policies[g] == a.policies[g])
    && (forall key :: key in a.published ==> key in b.published && b.published[key] == a.published[key])
    && b.issued == a.issued
  }

  lemma IssueExtends(a: Past, b: Past, incarnation: u64, i: Issue)
    requires Extends(a, b) && IssueKnown(a, incarnation, i)
    ensures IssueKnown(b, incarnation, i)
  {
    hide Evaluate;
  }

  lemma IssuesExtend(a: Past, b: Past, w: World, v: World)
    requires Extends(a, b) && IssuesKnown(a, w) && v.state.incarnation == w.state.incarnation
    ensures IssuesKnown(b, v)
  {
    hide IssueKnown;
    forall i | 0 <= i < |b.issued| ensures IssueKnown(b, v.state.incarnation, b.issued[i]) {
      assert IssueKnown(a, w.state.incarnation, a.issued[i]);
      IssueExtends(a, b, v.state.incarnation, b.issued[i]);
    }
  }

  lemma PolicyRemembered(past: Past, w: World, v: World)
    requires PoliciesKnown(past, w)
    requires v.state.policy == w.state.policy || v.state.policy.generation == w.state.policy.generation + 1
    ensures var past' := past.(policies := past.policies[v.state.policy.generation := v.state.policy]);
            Extends(past, past') && PoliciesKnown(past', v)
  {
  }

  /** A new policy is remembered under its own, fresh generation. */
  lemma NewPolicyRemembered(past: Past, w: World, v: World)
    requires Remembered(past, w) && Keeps(w, v)
    requires v.state.policy == w.state.policy || v.state.policy.generation == w.state.policy.generation + 1
    ensures Remembered(past.(policies := past.policies[v.state.policy.generation := v.state.policy]), v)
  {
    PolicyRemembered(past, w, v);
    GenerationsStay(past, w, v);
    ContentsStay(past, w, v);
    hide PoliciesKnown, IssuesKnown, Extends, ContentKnown;
    IssuesExtend(past, past.(policies := past.policies[v.state.policy.generation := v.state.policy]), w, v);
  }

  lemma NextGeneration(k: Digests, current: Policy, p: Policy)
    requires current.generation != 0
    ensures var g := NextPolicy(k, current, p).generation; g == 0 || g == current.generation + 1
  {
    hide NextDomains;
  }

  lemma QuietRemembered(k: Digests, past: Past, w: World, s: Step)
    requires Remembered(past, w) && Quiet(s.op) && ValidPolicy(w.state.policy)
    ensures Remembered(Remember(k, past, w, s), Apply(k, w, s))
  {
    hide ValidPolicy, Touches, Apply, NextPolicy, SlotsEvolve, Remembered, Persist;
    var v, committed := QuietFrame(k, w, s);
    PersistKeepsPolicy(v, true, s.io);
    TouchKeeps(w, v);
    if s.op.Install? {
      InstallRemembered(k, past, w, v, s);
    } else {
      KeepsRemembered(past, w, v);
      PersistRemembered(past, v, true, s.io);
    }
  }

  lemma TouchKeeps(w: World, v: World)
    requires Touches(w, v) && ValidPolicy(w.state.policy)
    ensures Keeps(w, v) && w.state.policy.generation != 0 && v.state.policy.generation != 0
  {
  }

  lemma InstallRemembered(k: Digests, past: Past, w: World, v: World, s: Step)
    requires Remembered(past, w) && Keeps(w, v) && s.op.Install?
    requires w.state.policy.generation != 0 && v.state.policy.generation != 0
    requires v.state.policy == w.state.policy || v.state.policy == NextPolicy(k, w.state.policy, s.op.policy)
    ensures var past' := past.(policies := past.policies[v.state.policy.generation := v.state.policy]);
            Remembered(past', v) && Remembered(past', Persist(v, true, s.io).world)
  {
    hide Remembered, Keeps, NextPolicy, Persist;
    NextGeneration(k, w.state.policy, s.op.policy);
    NewPolicyRemembered(past, w, v);
    PersistRemembered(past.(policies := past.policies[v.state.policy.generation := v.state.policy]), v, true, s.io);
  }

  lemma PersistKeepsPolicy(w: World, force: bool, io: Io)
    ensures Persist(w, force, io).world.state.policy == w.state.policy
  {
  }

  lemma EpochRemembered(past: Past, w: World, next: u64, io: Io)
    requires Remembered(past, w)
    ensures Remembered(past, AdvanceEpoch(w, next, io).world)
  {
    hide Remembered, AdvanceEpoch;
    EpochFrame(w, next, io);
    DroppedSlots(w.slots);
    KeepsRemembered(past, w, Advanced(w, next));
    PersistRemembered(past, Advanced(w, next), true, io);
    hide Persist;
  }

  lemma PublishRemembered(k: Digests, past: Past, w: World, s: Step)
    requires Remembered(past, w) && s.op.PublishOp?
    ensures Remembered(Remember(k, past, w, s), Apply(k, w, s))
  {
    var snapshot := s.op.snapshot;
    var r := Publish(k, w, snapshot, s.io);
    hide Publish, Remembered;
    if IsAccepted(r) {
      AcceptedRemembered(k, past, w, snapshot, s.io);
    } else {
      OtherPublication(k, w, snapshot, s.io);
      OtherIncarnation(k, w, snapshot, s.io);
      KeepsRemembered(past, w, r.world);
    }
  }

  lemma OtherIncarnation(k: Digests, w: World, snapshot: Snapshot, io: Io)
    requires !IsAccepted(Publish(k, w, snapshot, io))
    ensures Publish(k, w, snapshot, io).world.state.incarnation == w.state.incarnation
  {
    hide Ingest;
    PublishFrame(k, w, Digested(k, snapshot), io);
  }

  lemma FreshKey(k: Digests, past: Past, w: World, snapshot: Snapshot, io: Io)
    requires GenerationsKept(past, w) && IsAccepted(Publish(k, w, snapshot, io))
    ensures Key(HeaderOf(snapshot).domain, KindOf(snapshot), Publish(k, w, snapshot, io).value.generation)
            !in past.published
  {
    AcceptedPublication(k, w, snapshot, io);
    hide Publish;
    var key := Key(HeaderOf(snapshot).domain, KindOf(snapshot), Publish(k, w, snapshot, io).value.generation);
    assert key in past.published ==> key.generation <= GenerationIn(w.slots, key.domain, key.kind);
  }

  lemma AcceptedKept(k: Digests, past: Past, w: World, snapshot: Snapshot, io: Io, content: Snapshot)
    requires GenerationsKept(past, w) && IsAccepted(Publish(k, w, snapshot, io))
    ensures var r := Publish(k, w, snapshot, io);
            var key := Key(HeaderOf(snapshot).domain, KindOf(snapshot), r.value.generation);
            GenerationsKept(past.(published := past.published[key := content]), r.world)
  {
    var r := Publish(k, w, snapshot, io);
    var own := Key(HeaderOf(snapshot).domain, KindOf(snapshot), r.value.generation);
    hide Publish, GenerationIn, SavedGeneration;
    forall key | key in past.published[own := content]
      ensures && key.generation <= GenerationIn(r.world.slots, key.domain, key.kind)
              && key.generation <= SavedGeneration(r.world.disk, key.domain, key.kind)
    {
      PublicationAdvances(k, w, snapshot, io, key.domain, key.kind);
    }
  }

  lemma AcceptedRemembered(k: Digests, past: Past, w: World, snapshot: Snapshot, io: Io)
    requires Remembered(past, w) && IsAccepted(Publish(k, w, snapshot, io))
    ensures var r := Publish(k, w, snapshot, io);
            var g := r.value.generation;
            Remembered(past.(published := past.published[
              Key(HeaderOf(snapshot).domain, KindOf(snapshot), g) := Bound(k, Digested(k, snapshot), g)]), r.world)
  {
    var r := Publish(k, w, snapshot, io);
    var g := r.value.generation;
    var key := Key(HeaderOf(snapshot).domain, KindOf(snapshot), g);
    var content := Bound(k, Digested(k, snapshot), g);
    var past' := past.(published := past.published[key := content]);
    AcceptedPublication(k, w, snapshot, io);
    FreshKey(k, past, w, snapshot, io);
    FilledKnown(k, past.published, w.slots, Digested(k, snapshot), g);
    AcceptedKept(k, past, w, snapshot, io, content);
    hide Publish, Filled, Bound, Digested;
    assert ContentsKnown(past', r.world);
    AcceptedIssues(past, w, r.world, key, content);
    hide GenerationsKept, ContentsKnown, IssuesKnown;
  }

  lemma AcceptedIssues(past: Past, w: World, v: World, key: Key, content: Snapshot)
    requires PoliciesKnown(past, w) && IssuesKnown(past, w) && key !in past.published
    requires v.state.policy == w.state.policy && v.state.incarnation == w.state.incarnation
    ensures var past' := past.(published := past.published[key := content]);
            PoliciesKnown(past', v) && IssuesKnown(past', v)
  {
    var past' := past.(published := past.published[key := content]);
    assert Extends(past, past');
    hide IssuesKnown;
    IssuesExtend(past, past', w, v);
  }

  lemma FilledKnown(k: Digests, published: map<Key, Snapshot>, slots: seq<Slot>, s: Snapshot, g: u64)
    requires forall i :: 0 <= i < |slots| ==> ContentKnown(published, slots[i])
    requires Key(HeaderOf(s).domain, KindOf(s), g) !in published
    ensures var f := Filled(k, slots, s, g);
            var known := published[Key(HeaderOf(s).domain, KindOf(s), g) := Bound(k, s, g)];
            forall i :: 0 <= i < |f| ==> ContentKnown(known, f[i])
  {
    var f := Filled(k, slots, s, g);
    var known := published[Key(HeaderOf(s).domain, KindOf(s), g) := Bound(k, s, g)];
    var (ensured, at) := Ensured(slots, HeaderOf(s).domain, KindOf(s));
    hide Bound;
    forall i | 0 <= i < |f| ensures ContentKnown(known, f[i]) {
      if i != at && i < |slots| {
        assert f[i] == slots[i];
        assert ContentKnown(published, slots[i]);
      }
    }
  }

  // ------------------------------------------------------ issued decisions

  lemma BasisKnown(past: Past, w: World, domain: u64)
    requires Remembered(past, w) && SlotsBound(w.slots, w.state.epoch) && BasisOf(w, domain).Some?
    ensures EvidenceKnown(past.published, BasisOf(w, domain).value)
  {
    ContentFound(past, w, domain, Capacity);
    ContentFound(past, w, domain, Reservation);
    ContentFound(past, w, domain, Admission);
    FindDomainId(w.state.policy.domains, domain);
    hide ContentIn, GenerationIn, Faithful;
  }

  lemma FindDomainId(ds: seq<DomainConfig>, id: u64)
    ensures FindDomain(ds, id).Some? ==> FindDomain(ds, id).value.id == id
  {
  }

  lemma ContentFound(past: Past, w: World, domain: u64, kind: EvidenceKind)
    requires ContentsKnown(past, w)
    ensures var key := Key(domain, kind, GenerationIn(w.slots, domain, kind));
            var c := ContentIn(w.slots, domain, kind);
            c.Some? ==> key in past.published && past.published[key] == c.value
  {
    if ContentIn(w.slots, domain, kind).Some? {
      assert ContentKnown(past.published, w.slots[SlotIndex(w.slots, domain, kind).value]);
    }
  }

  lemma DecisionKnown(k: Digests, past: Past, w: World, domain: u64, tick: u64)
    requires Remembered(past, w) && SlotsBound(w.slots, w.state.epoch)
    ensures var (d, a) := DecideFor(k, w, domain, tick);
            IssueKnown(past, w.state.incarnation, Issue(d, BasisOf(w, domain)))
  {
    if BasisOf(w, domain).Some? {
      BasisKnown(past, w, domain);
    }
    assert PoliciesKnown(past, w);
    hide Evaluate, Announcing, EvidenceKnown, ContentIn, GenerationIn, Faithful;
  }

  lemma IssueRemembered(past: Past, w: World, i: Issue)
    requires Remembered(past, w) && IssueKnown(past, w.state.incarnation, i)
    ensures Remembered(past.(issued := past.issued + [i]), w)
  {
    var past' := past.(issued := past.issued + [i]);
    assert ContentsKnown(past', w) && PoliciesKnown(past', w) && GenerationsKept(past', w);
    forall j | 0 <= j < |past'.issued| ensures IssueKnown(past', w.state.incarnation, past'.issued[j]) {
      assert past'.issued[j] == i || IssueKnown(past, w.state.incarnation, past.issued[j]);
      IssueUnaffected(past, past', w.state.incarnation, past'.issued[j]);
    }
    hide ContentsKnown, PoliciesKnown, GenerationsKept, IssueKnown;
  }

  lemma IssueUnaffected(a: Past, b: Past, incarnation: u64, i: Issue)
    requires b.policies == a.policies && b.published == a.published
    ensures IssueKnown(a, incarnation, i) <==> IssueKnown(b, incarnation, i)
  {
    hide Evaluate;
  }

  lemma EvaluateRemembered(k: Digests, past: Past, w: World, s: Step)
    requires Remembered(past, w) && SlotsBound(w.slots, w.state.epoch) && s.op.EvaluateOp?
    ensures Remembered(Remember(k, past, w, s), Apply(k, w, s))
  {
    var op := s.op;
    var r := EvaluateDomain(k, w, op.domain, op.tick, op.cancelled, op.wall, s.io);
    EvaluationKept(k, past, w, s);
    DecisionIssued(k, w, s);
    EvaluationIncarnation(k, w, s);
    hide EvaluateDomain, DecideFor, IssueKnown, Remembered, SlotsBound, BasisOf, EvaluationTick;
    if r.value.Some? {
      var w1 := w.(clock := EvaluationTick(w, op.tick));
      ClockIrrelevant(past, w, w1);
      DecisionKnown(k, past, w1, op.domain, w1.clock);
      IssueRemembered(past, r.world, Issue(r.value.value, BasisOf(w, op.domain)));
    }
  }

  lemma EvaluationIncarnation(k: Digests, w: World, s: Step)
    requires s.op.EvaluateOp?
    ensures var op := s.op;
            EvaluateDomain(k, w, op.domain, op.tick, op.cancelled, op.wall, s.io).world.state.incarnation == w.state.incarnation
  {
    hide EvaluateDomain, DecideFor, AppendJournal, Settled, Enter, Attempt;
    EvaluateFrame(k, w, s.op.domain, s.op.tick, s.op.cancelled, s.op.wall, s.io);
    var w1 := w.(clock := EvaluationTick(w, s.op.tick));
    if Attempt(k, w, s.op.domain, s.op.tick, s.op.cancelled, s.op.wall).Some? {
      AppendJournalKeeps(w1, Attempt(k, w, s.op.domain, s.op.tick, s.op.cancelled, s.op.wall).value, s.io);
    }
  }

  /** An evaluation moves nothing the memory depends on. */
  lemma EvaluationKept(k: Digests, past: Past, w: World, s: Step)
    requires Remembered(past, w) && s.op.EvaluateOp?
    ensures var op := s.op;
            Remembered(past, EvaluateDomain(k, w, op.domain, op.tick, op.cancelled, op.wall, s.io).world)
  {
    hide Remembered, EvaluateDomain, DecideFor, AppendJournal, RecordFor, Settled, Enter;
    var op := s.op;
    EvaluateFrame(k, w, op.domain, op.tick, op.cancelled, op.wall, s.io);
    SameSlots(w.slots);
    var w1 := w.(clock := EvaluationTick(w, op.tick));
    KeepsRemembered(past, w, w1);
    if Attempt(k, w, op.domain, op.tick, op.cancelled, op.wall).Some? {
      var r := Attempt(k, w, op.domain, op.tick, op.cancelled, op.wall).value;
      var (d, a) := DecideFor(k, w1, op.domain, w1.clock);
      AppendJournalKeeps(w1, r, s.io);
      var w2 := AppendJournal(w1, r, s.io).world;
      KeepsRemembered(past, w, w2);
      KeepsRemembered(past, w, Accepted(w2, op.domain, d, a));
      PersistRemembered(past, Accepted(w2, op.domain, d, a), false, s.io);
    }
    hide Keeps, Accepted, Persist, Attempt;
  }

  lemma ClockIrrelevant(past: Past, w: World, v: World)
    requires Remembered(past, w) && v == w.(clock := v.clock)
    ensures Remembered(past, v)
  {
    SameSlots(w.slots);
    KeepsRemembered(past, w, v);
  }

  /** The decision an evaluation hands out is the one computed from the state it found. */
  lemma DecisionIssued(k: Digests, w: World, s: Step)
    requires s.op.EvaluateOp?
    ensures var op := s.op;
            var r := EvaluateDomain(k, w, op.domain, op.tick, op.cancelled, op.wall, s.io);
            var w1 := w.(clock := EvaluationTick(w, op.tick));
            r.value.Some? ==>
              && r.value.value == DecideFor(k, w1, op.domain, w1.clock).0
              && BasisOf(w1, op.domain) == BasisOf(w, op.domain)
  {
    hide EvaluateDomain, DecideFor, Attempt, AppendJournal;
    EvaluateReply(k, w, s.op.domain, s.op.tick, s.op.cancelled, s.op.wall, s.io);
  }

  lemma ReopenedSlots(w: World)
    requires DiskSound(w.disk)
    ensures var v := Reopened(w);
            v.slots == EmptySlots(w.disk.saved.evidence) && v.disk.saved.evidence == SlotStates(v.slots)
  {
    LoadSound(w.options, w.disk);
    hide Load, DiskSound;
    assert EmptySlots(FlagAll(w.disk.saved.evidence)) == EmptySlots(w.disk.saved.evidence);
  }

  lemma ReopenRemembered(past: Past, w: World)
    requires Remembered(past, w) && DiskSound(w.disk)
    ensures var v := Reopened(w); Remembered(NothingIssued(v).(published := past.published), v)
  {
    var v := Reopened(w);
    ReopenedSlots(w);
    hide Reopened;
    NothingIssuedYet(past.published, v);
    ReopenedGenerations(past, w, v);
    hide GenerationsKept, IssuesKnown, PoliciesKnown, ContentsKnown;
  }

  lemma NothingIssuedYet(published: map<Key, Snapshot>, v: World)
    requires forall i :: 0 <= i < |v.slots| ==> v.slots[i].content.None?
    ensures var past := NothingIssued(v).(published := published);
            PoliciesKnown(past, v) && ContentsKnown(past, v) && IssuesKnown(past, v)
  {
  }

  lemma ReopenedGenerations(past: Past, w: World, v: World)
    requires GenerationsKept(past, w)
    requires v.slots == EmptySlots(w.disk.saved.evidence) && v.disk.saved.evidence == SlotStates(v.slots)
    ensures GenerationsKept(NothingIssued(v).(published := past.published), v)
  {
    forall key | key in past.published
      ensures && key.generation <= GenerationIn(v.slots, key.domain, key.kind)
              && key.generation <= SavedGeneration(v.disk, key.domain, key.kind)
    {
      SavedGenerationIs(v.slots, key.domain, key.kind);
      assert key.generation <= SavedGeneration(w.disk, key.domain, key.kind);
    }
  }

  lemma StepRemembered(k: Digests, past: Past, w: World, s: Step)
    requires Remembered(past, w) && Sound(w)
    ensures Remembered(Remember(k, past, w, s), Apply(k, w, s))
  {
    hide Remembered, ValidPolicy, AdvanceEpoch, EvaluateDomain, Publish, Reopened;
    if s.op.NewEpoch? {
      EpochRemembered(past, w, s.op.epoch, s.io);
    } else if s.op.PublishOp? {
      PublishRemembered(k, past, w, s);
    } else if s.op.EvaluateOp? {
      EvaluateRemembered(k, past, w, s);
    } else if s.op.CrashAndReopen? {
      ReopenRemembered(past, w);
    } else {
      QuietRemembered(k, past, w, s);
    }
  }

  lemma {:induction false} RunRemembered(k: Digests, pasts: seq<Past>, ws: seq<World>, steps: seq<Step>, n: nat)
    requires IsRun(k, ws, steps) && Remembers(k, pasts, ws, steps) && n < |ws|
    requires Remembered(pasts[0], ws[0]) && Sound(ws[0])
    ensures Remembered(pasts[n], ws[n]) && Sound(ws[n])
  {
    hide Remembered, Sound, Apply, Remember, NothingIssued;
    if n > 0 {
      RunRemembered(k, pasts, ws, steps, n - 1);
      assert ws[n] == Apply(k, ws[n - 1], steps[n - 1]) && pasts[n] == Remember(k, pasts[n - 1], ws[n - 1], steps[n - 1]);
      StepRemembered(k, pasts[n - 1], ws[n - 1], steps[n - 1]);
      StepSound(k, ws[n - 1], steps[n - 1]);
    }
  }

  // --------------------------------------------------------- the theorem

  /** An evaluation that carries complete authority was bound to all three of its snapshots. */
  lemma AuthorityNeedsEvidence(b: Basis, tick: u64)
    requires Complete(Evaluate(b.policy, b.domain, b.x, b.evidence, tick).authority)
    ensures AllPresent(b.evidence)
    ensures var a := Evaluate(b.policy, b.domain, b.x, b.evidence, tick).authority;
            && a.capacityGeneration == b.x.capacityGeneration && a.reservationGeneration == b.x.reservationGeneration
            && a.admissionGeneration == b.x.admissionGeneration && a.domain == b.domain.id
            && a.domainGeneration == b.domain.generation && a.policyGeneration == b.policy.generation
            && a.riskBudgetGeneration == b.policy.riskBudget.generation && a.epoch == b.x.epoch
  {
    hide AssessEvidence;
  }

  lemma SlotStillThere(past: Past, w: World, domain: u64, kind: EvidenceKind, generation: u64)
    requires ContentsKnown(past, w) && SlotFault(w, domain, kind, generation) == NO_REASON
    ensures GenerationIn(w.slots, domain, kind) == generation && ContentIn(w.slots, domain, kind).Some?
    ensures Key(domain, kind, generation) in past.published
            && past.published[Key(domain, kind, generation)] == ContentIn(w.slots, domain, kind).value
  {
    ContentFound(past, w, domain, kind);
  }

  /** Revalidation succeeds only for decisions whose evaluation the runtime would reach again. */
  lemma RevalidationReproduces(past: Past, w: World, i: Issue)
    requires Remembered(past, w) && i in past.issued && Revalidate(w, i.decision) == NO_REASON
    ensures CurrentEvaluation(w, i.decision.evaluation.authority.domain, i.decision.issuedTick) == i.decision.evaluation
  {
    hide SlotFault, Complete, RuntimeFault, Evaluate, ContentsKnown, GenerationsKept;
    assert IssueKnown(past, w.state.incarnation, i);
    var a := i.decision.evaluation.authority;
    var b := i.basis.value;
    AuthorityNeedsEvidence(b, i.decision.issuedTick);
    assert b.policy == w.state.policy;
    SlotStillThere(past, w, a.domain, Capacity, a.capacityGeneration);
    SlotStillThere(past, w, a.domain, Reservation, a.reservationGeneration);
    SlotStillThere(past, w, a.domain, Admission, a.admissionGeneration);
    SameEvidence(past, w, b);
    assert CurrentExpectation(w, a.domain) == b.x by { hide GenerationIn, ContentIn, CurrentEvidence; }
    hide IssueKnown, EvidenceKnown, ContentIn, GenerationIn, CurrentEvidence, CurrentExpectation;
  }

  /** Evidence with the same generations is the same evidence. */
  lemma SameEvidence(past: Past, w: World, b: Basis)
    requires EvidenceKnown(past.published, b) && AllPresent(b.evidence)
    requires var key := Key(b.domain.id, Capacity, b.x.capacityGeneration);
             key in past.published && ContentIn(w.slots, b.domain.id, Capacity) == Some(past.published[key])
    requires var key := Key(b.domain.id, Reservation, b.x.reservationGeneration);
             key in past.published && ContentIn(w.slots, b.domain.id, Reservation) == Some(past.published[key])
    requires var key := Key(b.domain.id, Admission, b.x.admissionGeneration);
             key in past.published && ContentIn(w.slots, b.domain.id, Admission) == Some(past.published[key])
    ensures CurrentEvidence(w, b.domain.id) == b.evidence
  {
    hide ContentIn;
  }

  /** In every run from an empty directory, across restarts, epochs and policy changes. */
  lemma EveryRevalidationReproduces(k: Digests, o: Options, p: Policy, pasts: seq<Past>, ws: seq<World>, steps: seq<Step>,
                                    n: nat, i: Issue)
    requires ValidPolicy(InitialPolicy(k, p)) && IsRun(k, ws, steps) && ws[0] == Fresh(k, o, p)
    requires Remembers(k, pasts, ws, steps) && n < |ws|
    requires i in pasts[n].issued && Revalidate(ws[n], i.decision) == NO_REASON
    ensures CurrentEvaluation(ws[n], i.decision.evaluation.authority.domain, i.decision.issuedTick) == i.decision.evaluation
  {
    FreshSound(k, o, p);
    FreshRemembered(k, o, p);
    assert pasts[0] == NothingIssued(ws[0]);
    RunRemembered(k, pasts, ws, steps, n);
    hide *;
    RevalidationReproduces(pasts[n], ws[n], i);
  }

  // ------------------------------------------------ what a fresh decision is worth

  predicate Awaits(w: World, domain: u64, kind: EvidenceKind) {
    match SlotIndex(w.slots, domain, kind)
    case None => true
    case Some(i) => w.slots[i].state.revalidationRequired
  }

  lemma AuthorityIsComplete(w: World, domain: u64, tick: u64)
    requires Sound(w) && CurrentEvaluation(w, domain, tick).authorityValid
    ensures var e := CurrentEvaluation(w, domain, tick);
            var d := FindDomain(w.state.policy.domains, domain);
            && Complete(e.authority) && d.Some? && AllPresent(CurrentEvidence(w, domain))
            && e.authority.domain == domain
            && e.authority == AuthorityOf(w.state.policy, d.value, CurrentExpectation(w, domain), CurrentEvidence(w, domain))
  {
    var d := FindDomain(w.state.policy.domains, domain).value;
    MismatchExitsUnreachable(w, domain);
    PolicyGenerationsSet(w.state.policy, d);
    hide ValidPolicy, Sound, CurrentEvidence, CurrentExpectation, BindingFault, Assess;
    MissingWithholds(w, domain, tick);
    PresentGenerations(w, domain);
  }

  lemma MissingWithholds(w: World, domain: u64, tick: u64)
    requires Sound(w) && FindDomain(w.state.policy.domains, domain).Some?
    requires CurrentEvaluation(w, domain, tick).authorityValid
    ensures AllPresent(CurrentEvidence(w, domain))
  {
    MismatchExitsUnreachable(w, domain);
    hide ValidPolicy, Sound, CurrentEvidence, CurrentExpectation, BindingFault, Assess;
  }

  lemma PresentGenerations(w: World, domain: u64)
    requires Sound(w) && AllPresent(CurrentEvidence(w, domain))
    ensures var x := CurrentExpectation(w, domain);
            && x.capacityGeneration != 0 && x.reservationGeneration != 0 && x.admissionGeneration != 0 && x.epoch != 0
  {
    hide ValidPolicy;
    ContentMatches(w, domain, Capacity);
    ContentMatches(w, domain, Reservation);
    ContentMatches(w, domain, Admission);
    hide ContentIn, GenerationIn, SlotsBound;
  }

  lemma SlotFaultIs(w: World, domain: u64, kind: EvidenceKind)
    requires ContentIn(w.slots, domain, kind).Some?
    ensures SlotFault(w, domain, kind, GenerationIn(w.slots, domain, kind))
            == if Awaits(w, domain, kind) then DECISION_STALE else NO_REASON
  {
  }

  lemma EnteredAt(ds: seq<DomainState>, d: DomainState)
    ensures var r := Enter(ds, d); DomainIndex(r, d.domain).Some? && r[DomainIndex(r, d.domain).value] == d
  {
    match DomainIndex(ds, d.domain)
    case Some(i) => IndexStays(ds, i, d, d.domain);
    case None => IndexGrows(ds, d, d.domain);
  }

  lemma PersistKeepsRuntime(w: World, force: bool, io: Io)
    ensures var v := Persist(w, force, io).world;
            && v.slots == w.slots && v.state.policy == w.state.policy && v.state.epoch == w.state.epoch
            && v.state.incarnation == w.state.incarnation && v.state.domains == w.state.domains
  {
  }

  /** The state an issued decision leaves behind. */
  lemma IssuedState(k: Digests, w: World, s: Step)
    requires s.op.EvaluateOp?
    requires EvaluateDomain(k, w, s.op.domain, s.op.tick, s.op.cancelled, s.op.wall, s.io).value.Some?
    ensures var v := Apply(k, w, s);
            var w1 := w.(clock := EvaluationTick(w, s.op.tick));
            var (d, a) := DecideFor(k, w1, s.op.domain, w1.clock);
            && v.slots == w.slots && v.state.policy == w.state.policy && v.state.epoch == w.state.epoch
            && v.state.incarnation == w.state.incarnation
            && v.state.domains == Enter(w.state.domains, Settled(w1, s.op.domain, d, a))
  {
    hide EvaluateDomain, DecideFor, Attempt, AppendJournal, Settled, Persist, Enter;
    EvaluateReply(k, w, s.op.domain, s.op.tick, s.op.cancelled, s.op.wall, s.io);
    EvaluateFrame(k, w, s.op.domain, s.op.tick, s.op.cancelled, s.op.wall, s.io);
    var w1 := w.(clock := EvaluationTick(w, s.op.tick));
    var (d, a) := DecideFor(k, w1, s.op.domain, w1.clock);
    var r := Attempt(k, w, s.op.domain, s.op.tick, s.op.cancelled, s.op.wall).value;
    AppendJournalKeeps(w1, r, s.io);
    var w2 := AppendJournal(w1, r, s.io).world;
    SettledSame(w1, w2, s.op.domain, d, a);
    PersistKeepsRuntime(Accepted(w2, s.op.domain, d, a), false, s.io);
  }

  lemma SettledFields(k: Digests, w: World, domain: u64, tick: u64)
    ensures var (d, a) := DecideFor(k, w, domain, tick);
            var t := Settled(w, domain, d, a);
            && t.domain == domain && t.lastDecision == d.id && t.fenced == d.fenced
            && d.epoch == w.state.epoch && d.incarnation == w.state.incarnation
            && d.evaluation == CurrentEvaluation(w, domain, tick)
  {
    var e := CurrentEvaluation(w, domain, tick);
    AnnounceKeepsDomain(w.state.policy.hysteresis, WorkingState(w, domain, e.assessment.verdict.outcome), SignalOf(e, tick));
    hide Announce, CurrentEvaluation, CurrentExpectation;
  }

  lemma AnnounceKeepsDomain(h: Hysteresis, s: DomainState, e: Signal)
    ensures Announce(h, s, e).state.domain == s.domain
  {
  }

  lemma DomainIdKnown(ds: seq<DomainState>, d: DomainState, id: u64)
    requires d.domain == id
    ensures RuntimeFault(Enter(ds, d), id, d.lastDecision) == if d.fenced then DECISION_ALREADY_FENCED else NO_REASON
  {
    EnteredAt(ds, d);
  }

  /** Right after it is issued a decision revalidates exactly when it carries authority, is not fenced,
      and none of its evidence was flagged when its publisher was replaced. */
  lemma FreshDecisionRevalidates(k: Digests, w: World, s: Step)
    requires Sound(w) && s.op.EvaluateOp?
    requires EvaluateDomain(k, w, s.op.domain, s.op.tick, s.op.cancelled, s.op.wall, s.io).value.Some?
    ensures var d := EvaluateDomain(k, w, s.op.domain, s.op.tick, s.op.cancelled, s.op.wall, s.io).value.value;
            Revalidate(Apply(k, w, s), d) == NO_REASON <==>
              && d.evaluation.authorityValid && !d.fenced && !Awaits(w, s.op.domain, Capacity)
              && !Awaits(w, s.op.domain, Reservation) && !Awaits(w, s.op.domain, Admission)
  {
    var domain := s.op.domain;
    var v := Apply(k, w, s);
    var w1 := w.(clock := EvaluationTick(w, s.op.tick));
    var (d, a) := DecideFor(k, w1, domain, w1.clock);
    DecisionIssued(k, w, s);
    IssuedState(k, w, s);
    SettledFields(k, w1, domain, w1.clock);
    DomainIdKnown(w.state.domains, Settled(w1, domain, d, a), domain);
    hide EvaluateDomain, DecideFor, Apply, Settled, Sound;
    if d.evaluation.authorityValid {
      assert Sound(w1) by { ClockSound(w, w1); }
      AuthorityIsComplete(w1, domain, w1.clock);
      AuthorityRevalidates(w1, v, domain, d);
    }
  }

  lemma AuthorityRevalidates(w: World, v: World, domain: u64, d: Decision)
    requires FindDomain(w.state.policy.domains, domain).Some? && AllPresent(CurrentEvidence(w, domain))
    requires Complete(d.evaluation.authority) && d.evaluation.authorityValid
    requires d.evaluation.authority
             == AuthorityOf(w.state.policy, FindDomain(w.state.policy.domains, domain).value,
                            CurrentExpectation(w, domain), CurrentEvidence(w, domain))
    requires d.evaluation.authority.domain == domain && d.epoch == w.state.epoch && d.incarnation == w.state.incarnation
    requires v.slots == w.slots && v.state.policy == w.state.policy && v.state.epoch == w.state.epoch
    requires v.state.incarnation == w.state.incarnation
    ensures Revalidate(v, d) == NO_REASON <==>
              && RuntimeFault(v.state.domains, domain, d.id) == NO_REASON && !Awaits(w, domain, Capacity)
              && !Awaits(w, domain, Reservation) && !Awaits(w, domain, Admission)
  {
    var c := FindDomain(w.state.policy.domains, domain).value;
    SlotFaultIs(v, domain, Capacity);
    SlotFaultIs(v, domain, Reservation);
    SlotFaultIs(v, domain, Admission);
    hide SlotFault, Awaits, BindingFault, ContentIn, GenerationIn;
    hide RuntimeFault;
  }
}
