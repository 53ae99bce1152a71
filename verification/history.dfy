/** What a run leaves behind beside the state: which policy each policy generation was, which snapshot
    each evidence generation was, and which decisions this runtime issued on which basis. */
module History {
  import opened Checked
  import opened Wire
  import opened Model
  import opened PolicyRules
  import opened Engine
  import opened EvidenceRules
  import opened Replay
  import opened Governing
  import opened Frames
  import opened Binding

  datatype Key = Key(domain: u64, kind: EvidenceKind, generation: u64)

  /** Everything an issued evaluation was computed from. */
  datatype Basis = Basis(policy: Policy, domain: DomainConfig, x: Expectation, evidence: Evidence)

  datatype Issue = Issue(decision: Decision, basis: Option<Basis>)

  datatype Past = Past(policies: map<u64, Policy>, published: map<Key, Snapshot>, issued: seq<Issue>)

  function BasisOf(w: World, domain: u64): Option<Basis> {
    match FindDomain(w.state.policy.domains, domain)
    case None => None
    case Some(d) => Some(Basis(w.state.policy, d, CurrentExpectation(w, domain), CurrentEvidence(w, domain)))
  }

  function NothingIssued(w: World): Past {
    Past(map[w.state.policy.generation := w.state.policy], map[], [])
  }

  /** The past after one more operation. A new runtime has issued nothing yet and knows its policy only;
      evidence generations are remembered for good. */
  function Remember(k: Digests, past: Past, w: World, s: Step): Past {
    var w' := Apply(k, w, s);
    match s.op
    case Install(_, _) => past.(policies := past.policies[w'.state.policy.generation := w'.state.policy])
    case PublishOp(snapshot) =>
      var r := Publish(k, w, snapshot, s.io);
      if r.status.Success? && !r.value.duplicate then
        past.(published := past.published[
          Key(HeaderOf(snapshot).domain, KindOf(snapshot), r.value.generation)
            := Bound(k, Digested(k, snapshot), r.value.generation)])
      else past
    case EvaluateOp(domain, tick, cancelled, wall) =>
      var r := EvaluateDomain(k, w, domain, tick, cancelled, wall, s.io);
      if r.value.Some? then past.(issued := past.issued + [Issue(r.value.value, BasisOf(w, domain))]) else past
    case CrashAndReopen => if Reopens(w) then NothingIssued(w').(published := past.published) else past
    case _ => past
  }

  /** The memory that goes with a run. */
  predicate Remembers(k: Digests, pasts: seq<Past>, ws: seq<World>, steps: seq<Step>) {
    && |pasts| == |ws| == |steps| + 1 && pasts[0] == NothingIssued(ws[0])
    && forall n {:trigger steps[n]} :: 0 <= n < |steps| ==> pasts[n + 1] == Remember(k, pasts[n], ws[n], steps[n])
  }

  // ------------------------------------------------------------- invariant

  predicate PoliciesKnown(past: Past, w: World) {
    && w.state.policy.generation in past.policies && past.policies[w.state.policy.generation] == w.state.policy
    && forall g :: g in past.policies ==> g <= w.state.policy.generation
  }

  function SavedGeneration(d: Disk, domain: u64, kind: EvidenceKind): u64 {
    GenerationIn(EmptySlots(d.saved.evidence), domain, kind)
  }

  /** No slot, live or saved, ever falls back behind a generation that was published. */
  predicate GenerationsKept(past: Past, w: World) {
    forall key :: key in past.published ==>
      && key.generation <= GenerationIn(w.slots, key.domain, key.kind)
      && key.generation <= SavedGeneration(w.disk, key.domain, key.kind)
  }

  predicate ContentKnown(published: map<Key, Snapshot>, s: Slot) {
    match s.content
    case None => true
    case Some(c) =>
      var key := Key(s.state.domain, s.state.kind, s.state.generation);
      key in published && published[key] == c
  }

  predicate ContentsKnown(past: Past, w: World) {
    forall i :: 0 <= i < |w.slots| ==> ContentKnown(past.published, w.slots[i])
  }

  predicate EvidenceKnown(published: map<Key, Snapshot>, b: Basis) {
    && (b.evidence.capacity.Some? ==>
          var key := Key(b.domain.id, Capacity, b.x.capacityGeneration);
          key in published && published[key] == OfCapacity(b.evidence.capacity.value))
    && (b.evidence.reservations.Some? ==>
          var key := Key(b.domain.id, Reservation, b.x.reservationGeneration);
          key in published && published[key] == OfReservation(b.evidence.reservations.value))
    && (b.evidence.admissions.Some? ==>
          var key := Key(b.domain.id, Admission, b.x.admissionGeneration);
          key in published && published[key] == OfAdmission(b.evidence.admissions.value))
  }

  predicate IssueKnown(past: Past, incarnation: u64, i: Issue) {
    && i.decision.incarnation == incarnation
    && match i.basis
       case None => !i.decision.evaluation.authorityValid
       case Some(b) =>
         && b.policy.generation in past.policies && past.policies[b.policy.generation] == b.policy
         && FindDomain(b.policy.domains, b.domain.id) == Some(b.domain)
         && i.decision.epoch == b.x.epoch && b.x.policyGeneration == b.policy.generation
         && b.x.domainGeneration == b.domain.generation
         && b.x.riskBudgetGeneration == b.policy.riskBudget.generation
         && EvidenceKnown(past.published, b)
         && i.decision.evaluation == Evaluate(b.policy, b.domain, b.x, b.evidence, i.decision.issuedTick)
  }

  predicate IssuesKnown(past: Past, w: World) {
    forall i :: 0 <= i < |past.issued| ==> IssueKnown(past, w.state.incarnation, past.issued[i])
  }

  predicate Faithful(past: Past, w: World) {
    PoliciesKnown(past, w) && GenerationsKept(past, w) && ContentsKnown(past, w) && IssuesKnown(past, w)
  }

  // ------------------------------------------------------- finding slots

  lemma FirstSlot(slots: seq<Slot>, i: nat, domain: u64, kind: EvidenceKind)
    requires i < |slots| && Holds(slots[i], domain, kind)
    requires forall j :: 0 <= j < i ==> !Holds(slots[j], domain, kind)
    ensures SlotIndex(slots, domain, kind) == Some(i)
  {
  }

  lemma IndexEvolves(a: seq<Slot>, b: seq<Slot>, domain: u64, kind: EvidenceKind)
    requires SlotsEvolve(a, b) && SlotIndex(a, domain, kind).Some?
    ensures SlotIndex(b, domain, kind) == SlotIndex(a, domain, kind)
    ensures GenerationIn(b, domain, kind) == GenerationIn(a, domain, kind)
  {
    var i := SlotIndex(a, domain, kind).value;
    forall j | 0 <= j < i ensures !Holds(b[j], domain, kind) {
      assert SameKey(a[j].state, b[j].state) && !Holds(a[j], domain, kind);
    }
    FirstSlot(b, i, domain, kind);
  }

  /** Saving the slots saves their generations. */
  lemma SavedGenerationIs(slots: seq<Slot>, domain: u64, kind: EvidenceKind)
    ensures GenerationIn(EmptySlots(SlotStates(slots)), domain, kind) == GenerationIn(slots, domain, kind)
  {
    var saved := EmptySlots(SlotStates(slots));
    assert forall j :: 0 <= j < |slots| ==> Holds(saved[j], domain, kind) == Holds(slots[j], domain, kind);
    match SlotIndex(slots, domain, kind)
    case Some(at) => FirstSlot(saved, at, domain, kind);
    case None =>
  }

  // ---------------------------------------------- steps that publish nothing

  /** What the memory of a run depends on has not moved, except that slots may have lost content. */
  predicate Keeps(w: World, v: World) {
    && SlotsEvolve(w.slots, v.slots) && v.state.incarnation == w.state.incarnation
    && v.disk.saved.evidence == w.disk.saved.evidence
  }

  lemma GenerationsStay(past: Past, w: World, v: World)
    requires GenerationsKept(past, w) && Keeps(w, v) && forall key :: key in past.published ==> key.generation > 0
    ensures GenerationsKept(past, v)
  {
    forall key | key in past.published
      ensures && key.generation <= GenerationIn(v.slots, key.domain, key.kind)
              && key.generation <= SavedGeneration(v.disk, key.domain, key.kind)
    {
      assert key.generation <= GenerationIn(w.slots, key.domain, key.kind);
      IndexEvolves(w.slots, v.slots, key.domain, key.kind);
    }
  }

  lemma GenerationsSaved(past: Past, w: World, force: bool, io: Io)
    requires GenerationsKept(past, w)
    ensures GenerationsKept(past, Persist(w, force, io).world)
  {
    var v := Persist(w, force, io).world;
    forall key | key in past.published
      ensures && key.generation <= GenerationIn(v.slots, key.domain, key.kind)
              && key.generation <= SavedGeneration(v.disk, key.domain, key.kind)
    {
      SavedGenerationIs(w.slots, key.domain, key.kind);
      assert key.generation <= SavedGeneration(w.disk, key.domain, key.kind);
    }
  }

  lemma ContentsStay(past: Past, w: World, v: World)
    requires ContentsKnown(past, w) && SlotsEvolve(w.slots, v.slots)
    ensures ContentsKnown(past, v)
  {
    forall i | 0 <= i < |v.slots| ensures ContentKnown(past.published, v.slots[i]) {
      if i < |w.slots| {
        assert ContentKnown(past.published, w.slots[i]) && SameKey(w.slots[i].state, v.slots[i].state);
      }
    }
  }

  predicate PublishedCounted(past: Past) { forall key :: key in past.published ==> key.generation > 0 }

  predicate Remembered(past: Past, w: World) { Faithful(past, w) && PublishedCounted(past) }

  lemma KeepsRemembered(past: Past, w: World, v: World)
    requires Remembered(past, w) && Keeps(w, v) && v.state.policy == w.state.policy
    ensures Remembered(past, v)
  {
    GenerationsStay(past, w, v);
    ContentsStay(past, w, v);
    hide GenerationsKept, ContentsKnown, IssueKnown;
  }

  lemma PersistRemembered(past: Past, w: World, force: bool, io: Io)
    requires Remembered(past, w)
    ensures Remembered(past, Persist(w, force, io).world)
  {
    GenerationsSaved(past, w, force, io);
    hide GenerationsKept, ContentKnown, IssueKnown;
  }

  /** Only a publication moves a generation; a restart brings the saved ones back. */
  lemma GenerationsSurvive(k: Digests, w: World, s: Step, domain: u64, kind: EvidenceKind)
    requires SlotIndex(w.slots, domain, kind).Some? && (Quiet(s.op) || s.op.NewEpoch?)
    ensures GenerationIn(Apply(k, w, s).slots, domain, kind) == GenerationIn(w.slots, domain, kind)
  {
    hide GenerationIn, Persist, AdvanceEpoch;
    if s.op.NewEpoch? {
      EpochFrame(w, s.op.epoch, s.io);
      DroppedSlots(w.slots);
      IndexEvolves(w.slots, DropContents(w.slots), domain, kind);
      PersistKeepsSlots(Advanced(w, s.op.epoch), true, s.io);
    } else {
      var v, committed := QuietFrame(k, w, s);
      IndexEvolves(w.slots, v.slots, domain, kind);
      PersistKeepsSlots(v, true, s.io);
    }
    hide Apply, SlotsEvolve;
  }

  lemma PersistKeepsSlots(w: World, force: bool, io: Io)
    ensures Persist(w, force, io).world.slots == w.slots
  {
  }
}
