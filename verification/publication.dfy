/** What one publication does to the evidence slots. */
module Publication {
  import opened Checked
  import opened Wire
  import opened Model
  import opened Engine
  import opened EvidenceRules
  import opened Governing
  import opened Frames
  import opened Binding
  import opened History

  /** Updating a slot moves no other one. */
  lemma IndexAfterUpdate(slots: seq<Slot>, i: nat, s: Slot, domain: u64, kind: EvidenceKind)
    requires i < |slots| && SameKey(slots[i].state, s.state)
    ensures SlotIndex(slots[i := s], domain, kind) == SlotIndex(slots, domain, kind)
  {
    var r := slots[i := s];
    assert forall j :: 0 <= j < |slots| ==> Holds(r[j], domain, kind) == Holds(slots[j], domain, kind);
    match SlotIndex(slots, domain, kind)
    case Some(at) => FirstSlot(r, at, domain, kind);
    case None =>
  }

  lemma IndexAfterEnsure(slots: seq<Slot>, domain: u64, kind: EvidenceKind, d: u64, k: EvidenceKind)
    ensures var e := Ensured(slots, domain, kind);
            && SlotIndex(e.0, domain, kind) == Some(e.1)
            && (d != domain || k != kind ==> SlotIndex(e.0, d, k) == SlotIndex(slots, d, k))
            && GenerationIn(e.0, d, k) == GenerationIn(slots, d, k)
            && ContentIn(e.0, d, k) == ContentIn(slots, d, k)
            && e.0[e.1].state.generation == GenerationIn(slots, domain, kind)
  {
    var e := Ensured(slots, domain, kind);
    if e.0 != slots {
      assert e.0[..|e.0| - 1] == slots;
    }
  }

  lemma FilledSlots(k: Digests, slots: seq<Slot>, s: Snapshot, g: u64, d: u64, kind: EvidenceKind)
    ensures var f := Filled(k, slots, s, g);
            if d == HeaderOf(s).domain && kind == KindOf(s)
            then GenerationIn(f, d, kind) == g && ContentIn(f, d, kind) == Some(Bound(k, s, g))
            else GenerationIn(f, d, kind) == GenerationIn(slots, d, kind)
                 && ContentIn(f, d, kind) == ContentIn(slots, d, kind)
  {
    var e := Ensured(slots, HeaderOf(s).domain, KindOf(s));
    IndexAfterEnsure(slots, HeaderOf(s).domain, KindOf(s), d, kind);
    var slot := Filled(k, slots, s, g)[e.1];
    IndexAfterUpdate(e.0, e.1, slot, d, kind);
    IndexAfterUpdate(e.0, e.1, slot, HeaderOf(s).domain, KindOf(s));
  }

  /** What an accepted publication amounts to. */
  lemma AcceptedPublication(k: Digests, w: World, snapshot: Snapshot, io: Io)
    requires IsAccepted(Publish(k, w, snapshot, io))
    ensures var r, s := Publish(k, w, snapshot, io), Digested(k, snapshot);
            && r.world.slots == Filled(k, w.slots, s, r.value.generation)
            && r.value.generation == GenerationIn(w.slots, HeaderOf(s).domain, KindOf(s)) + 1
            && r.world.disk.saved.evidence == SlotStates(r.world.slots)
            && r.world.state.policy == w.state.policy && r.world.state.incarnation == w.state.incarnation
            && HeaderOf(s).epoch == w.state.epoch
  {
    hide Ingest, Filled, Digested;
    var s := Digested(k, snapshot);
    var r := Ingest(k, w, s, io);
    PublishFrame(k, w, s, io);
    IndexAfterEnsure(w.slots, HeaderOf(s).domain, KindOf(s), HeaderOf(s).domain, KindOf(s));
    var i := PublisherIndex(w.state.publishers, ProvenanceOf(s).publisher).value;
    hide Touches, Ensured, GenerationIn;
    SavedPublished(k, w, s, i, r.value.generation, io);
    hide Persist, Published;
  }

  lemma SavedPublished(k: Digests, w: World, s: Snapshot, i: nat, g: u64, io: Io)
    requires i < |w.state.publishers| && io.save
    ensures var v := Persist(Published(k, w, s, i, g), true, io).world;
            && v.slots == Filled(k, w.slots, s, g) && v.disk.saved.evidence == SlotStates(v.slots)
            && v.state.policy == w.state.policy && v.state.incarnation == w.state.incarnation
  {
    hide Filled;
  }

  /** An accepted publication advances its slot's generation by exactly one, live and saved, puts its
      content there, and touches no other slot. */
  lemma PublicationAdvances(k: Digests, w: World, snapshot: Snapshot, io: Io, d: u64, kind: EvidenceKind)
    requires IsAccepted(Publish(k, w, snapshot, io))
    ensures var r := Publish(k, w, snapshot, io);
            var g := GenerationIn(w.slots, d, kind);
            && SavedGeneration(r.world.disk, d, kind) == GenerationIn(r.world.slots, d, kind)
            && if d == HeaderOf(snapshot).domain && kind == KindOf(snapshot)
               then GenerationIn(r.world.slots, d, kind) == g + 1 == r.value.generation
                    && ContentIn(r.world.slots, d, kind) == Some(Bound(k, Digested(k, snapshot), g + 1))
               else GenerationIn(r.world.slots, d, kind) == g
                    && ContentIn(r.world.slots, d, kind) == ContentIn(w.slots, d, kind)
  {
    hide *;
    var r := Publish(k, w, snapshot, io);
    AcceptedPublication(k, w, snapshot, io);
    SavedGenerationSync(r.world, d, kind);
    FilledSlots(k, w.slots, Digested(k, snapshot), r.value.generation, d, kind);
  }

  lemma SavedGenerationSync(w: World, d: u64, kind: EvidenceKind)
    requires w.disk.saved.evidence == SlotStates(w.slots)
    ensures SavedGeneration(w.disk, d, kind) == GenerationIn(w.slots, d, kind)
  {
    SavedGenerationIs(w.slots, d, kind);
  }

  /** Any other publication moves no sequence number and no generation of a slot there was. A duplicate
      changes nothing at all; a refusal or a failed save may leave a new slot without content, and after a
      failed save the slot it was meant for has none. */
  lemma OtherPublication(k: Digests, w: World, snapshot: Snapshot, io: Io)
    requires !IsAccepted(Publish(k, w, snapshot, io))
    ensures var r := Publish(k, w, snapshot, io);
            && (r.value.duplicate ==> r.world == w)
            && r.world.state.publishers == w.state.publishers && r.world.state.policy == w.state.policy
            && r.world.disk == w.disk && |w.slots| <= |r.world.slots| <= |w.slots| + 1
            && SlotsEvolve(w.slots, r.world.slots)
            && forall i :: 0 <= i < |w.slots| ==> r.world.slots[i].state == w.slots[i].state
  {
    hide Ingest;
    PublishFrame(k, w, Digested(k, snapshot), io);
  }

  // ------------------------------------------------------ trying again

  /** The slot table a failed save leaves of a publication that would have been accepted. */
  function Undone(slots: seq<Slot>, s: Snapshot): seq<Slot> {
    var (ensured, at) := Ensured(slots, HeaderOf(s).domain, KindOf(s));
    ensured[at := Slot(if ensured == slots then ensured[at].state
                       else Occupied(ensured[at].state, s, 1, ProvenanceOf(s).payloadDigest), None)]
  }

  /** The world a publication that would be accepted leaves when its save fails. */
  lemma FailedSave(k: Digests, w: World, s: Snapshot, io: Io)
    requires IsAccepted(Ingest(k, w, s, Io(true, true, true))) && !io.save
    ensures var r := Ingest(k, w, s, io);
            && r.status == FAILED_WRITE && r.value == NO_RECEIPT
            && r.world.accepting == w.accepting && r.world.options == w.options && r.world.state.policy == w.state.policy
            && r.world.state.epoch == w.state.epoch && r.world.state.publishers == w.state.publishers
            && r.world.slots == Undone(w.slots, s)
  {
    hide *;
    var i, g := AcceptedOccupies(k, w, s, io);
    FailedOccupy(k, w, s, i, g, io);
  }

  lemma AcceptedOccupies(k: Digests, w: World, s: Snapshot, io: Io) returns (i: nat, g: u64)
    requires IsAccepted(Ingest(k, w, s, Io(true, true, true)))
    ensures i < |w.state.publishers| && Ingest(k, w, s, io) == Occupy(k, w, s, i, g, io)
    ensures var (ensured, at) := Ensured(w.slots, HeaderOf(s).domain, KindOf(s)); g == ensured[at].state.generation + 1
  {
    AcceptedRuling(k, w, s);
    i := PublisherIndex(w.state.publishers, ProvenanceOf(s).publisher).value;
    var (ensured, at) := Ensured(w.slots, HeaderOf(s).domain, KindOf(s));
    RuleNext(w, s, i);
    g := Rule(w.options, ensured[at].state, w.state.publishers[i].lastSequence, s, ProvenanceOf(s).payloadDigest).generation;
    hide ValidSnapshot, PublisherFault, Rule, Ensured, Occupy, PublisherIndex;
  }

  lemma FailedOccupy(k: Digests, w: World, s: Snapshot, i: nat, g: u64, io: Io)
    requires !io.save && i < |w.state.publishers|
    requires var (ensured, at) := Ensured(w.slots, HeaderOf(s).domain, KindOf(s)); g == ensured[at].state.generation + 1
    ensures var r := Occupy(k, w, s, i, g, io);
            && r.status == FAILED_WRITE && r.value == NO_RECEIPT
            && r.world.accepting == w.accepting && r.world.options == w.options && r.world.state.policy == w.state.policy
            && r.world.state.epoch == w.state.epoch && r.world.state.publishers == w.state.publishers
            && r.world.slots == Undone(w.slots, s)
  {
    hide Bound, Occupied, Ensured;
    var p := w.state.publishers[i];
    assert w.state.publishers[i := p.(lastSequence := ProvenanceOf(s).sequence)][i := p] == w.state.publishers;
    RuleOnNew(w, s);
  }

  /** The generation a first publication is accepted at. */
  lemma RuleNext(w: World, s: Snapshot, i: nat)
    requires i < |w.state.publishers|
    ensures var (ensured, at) := Ensured(w.slots, HeaderOf(s).domain, KindOf(s));
            var r := Rule(w.options, ensured[at].state, w.state.publishers[i].lastSequence, s, ProvenanceOf(s).payloadDigest);
            r.Accept? ==> r.generation == ensured[at].state.generation + 1
  {
    var (ensured, at) := Ensured(w.slots, HeaderOf(s).domain, KindOf(s));
    RuleAdvances(w.options, ensured[at].state, w.state.publishers[i].lastSequence, s, ProvenanceOf(s).payloadDigest);
    hide Rule;
  }

  lemma RuleOnNew(w: World, s: Snapshot)
    ensures var (ensured, at) := Ensured(w.slots, HeaderOf(s).domain, KindOf(s));
            ensured != w.slots ==> ensured[at].state.generation == 0
  {
  }

  /** A publication whose save failed, tried again just as it was: accepted exactly when its slot existed
      before. A first publication is taken for a duplicate of itself, reported as a success, and its
      content is nowhere. */
  lemma RetryAfterFailedSave(k: Digests, w: World, snapshot: Snapshot, failing: Io, io: Io)
    requires IsAccepted(Publish(k, w, snapshot, Io(true, true, true))) && !failing.save && io.save
    ensures var failed := Publish(k, w, snapshot, failing);
            var again := Publish(k, failed.world, snapshot, io);
            var d, kind := HeaderOf(snapshot).domain, KindOf(snapshot);
            && failed.status == FAILED_WRITE && again.status.Success?
            && (IsAccepted(again) <==> SlotIndex(w.slots, d, kind).Some?)
            && (!IsAccepted(again) ==> again.value.duplicate && ContentIn(again.world.slots, d, kind).None?)
  {
    hide Ingest, Digested;
    var s := Digested(k, snapshot);
    FailedSave(k, w, s, failing);
    Retried(k, w, Ingest(k, w, s, failing).world, s, io);
  }

  lemma Retried(k: Digests, w: World, v: World, s: Snapshot, io: Io)
    requires IsAccepted(Ingest(k, w, s, Io(true, true, true))) && io.save
    requires v.accepting == w.accepting && v.options == w.options && v.state.policy == w.state.policy
    requires v.state.epoch == w.state.epoch && v.state.publishers == w.state.publishers
    requires v.slots == Undone(w.slots, s)
    ensures var again := Ingest(k, v, s, io);
            var d, kind := HeaderOf(s).domain, KindOf(s);
            && again.status.Success? && (IsAccepted(again) <==> SlotIndex(w.slots, d, kind).Some?)
            && (!IsAccepted(again) ==> again.value.duplicate && ContentIn(again.world.slots, d, kind).None?)
  {
    var d, kind := HeaderOf(s).domain, KindOf(s);
    var (ensured, at) := Ensured(w.slots, d, kind);
    FirstHolder(w.slots, v.slots, d, kind, at);
    SameFault(w, v, s);
    EnsuredThere(v.slots, d, kind, at);
    AcceptedRuling(k, w, s);
    hide ValidSnapshot, Bound, PublisherFault, SlotIndex, Ensured, Persist, Filled;
  }

  lemma SameFault(w: World, v: World, s: Snapshot)
    requires v.accepting == w.accepting && v.options == w.options && v.state.policy == w.state.policy
    requires v.state.epoch == w.state.epoch && v.state.publishers == w.state.publishers
    ensures PublisherFault(v, s) == PublisherFault(w, s)
  {
    hide FindDomain, PublisherIndex;
  }

  lemma EnsuredThere(slots: seq<Slot>, d: u64, kind: EvidenceKind, at: nat)
    requires SlotIndex(slots, d, kind) == Some(at)
    ensures Ensured(slots, d, kind) == (slots, at)
  {
    hide SlotIndex;
  }

  /** What an accepted publication passed. */
  lemma AcceptedRuling(k: Digests, w: World, s: Snapshot)
    requires IsAccepted(Ingest(k, w, s, Io(true, true, true)))
    ensures ValidSnapshot(k.hash, s) && PublisherFault(w, s).Success? && ProvenanceOf(s).evidenceId != 0
    ensures var i := PublisherIndex(w.state.publishers, ProvenanceOf(s).publisher);
            var (ensured, at) := Ensured(w.slots, HeaderOf(s).domain, KindOf(s));
            i.Some? && Rule(w.options, ensured[at].state, w.state.publishers[i.value].lastSequence, s,
                            ProvenanceOf(s).payloadDigest).Accept?
  {
    hide PublisherFault, Rule, Occupy, Ensured;
    FaultFree(w, s);
    if PublisherFault(w, s).Success? {
      var i := PublisherIndex(w.state.publishers, ProvenanceOf(s).publisher).value;
      var (ensured, at) := Ensured(w.slots, HeaderOf(s).domain, KindOf(s));
      RuleAdvances(w.options, ensured[at].state, w.state.publishers[i].lastSequence, s, ProvenanceOf(s).payloadDigest);
    }
  }

  /** Changing the slot of a pair in place leaves it the pair's slot. */
  lemma FirstHolder(slots: seq<Slot>, changed: seq<Slot>, d: u64, kind: EvidenceKind, at: nat)
    requires Ensured(slots, d, kind).1 == at && |changed| == |Ensured(slots, d, kind).0|
    requires Holds(changed[at], d, kind)
    requires forall i :: 0 <= i < |changed| && i != at ==> changed[i] == Ensured(slots, d, kind).0[i]
    ensures SlotIndex(changed, d, kind) == Some(at)
  {
    forall i | 0 <= i < at ensures !Holds(changed[i], d, kind) {
      assert !Holds(Ensured(slots, d, kind).0[i], d, kind);
    }
  }

  // ------------------------------------- generations of a failed publication

  /** A first publication for its pair that nothing but the save stands in the way of. */
  predicate FirstButForSave(k: Digests, w: World, snapshot: Snapshot) {
    && IsAccepted(Publish(k, w, snapshot, Io(true, true, true)))
    && SlotIndex(w.slots, HeaderOf(snapshot).domain, KindOf(snapshot)).None?
  }

  predicate IsFor(snapshot: Snapshot, d: u64, kind: EvidenceKind) {
    d == HeaderOf(snapshot).domain && kind == KindOf(snapshot)
  }

  /** A publication that is not accepted leaves the generation of every pair alone, except that a first one
      whose save fails uses up generation 1 of its own. */
  lemma OtherGenerations(k: Digests, w: World, snapshot: Snapshot, io: Io, d: u64, kind: EvidenceKind)
    requires !IsAccepted(Publish(k, w, snapshot, io))
    ensures var v := Publish(k, w, snapshot, io).world;
            var usedUp := FirstButForSave(k, w, snapshot) && IsFor(snapshot, d, kind);
            && GenerationIn(v.slots, d, kind) == (if usedUp then 1 else GenerationIn(w.slots, d, kind))
            && (GenerationIn(v.slots, d, kind) == GenerationIn(w.slots, d, kind) <==> !usedUp)
  {
    hide Ingest, Digested, GenerationIn, SlotIndex;
    var s := Digested(k, snapshot);
    IngestGenerations(k, w, s, io, d, kind);
    NoSlotNoGeneration(w.slots, d, kind);
  }

  lemma NoSlotNoGeneration(slots: seq<Slot>, d: u64, kind: EvidenceKind)
    ensures SlotIndex(slots, d, kind).None? ==> GenerationIn(slots, d, kind) == 0
  {
  }

  lemma IngestGenerations(k: Digests, w: World, s: Snapshot, io: Io, d: u64, kind: EvidenceKind)
    requires !IsAccepted(Ingest(k, w, s, io))
    ensures var v := Ingest(k, w, s, io).world;
            var first := IsAccepted(Ingest(k, w, s, Io(true, true, true)))
                         && SlotIndex(w.slots, HeaderOf(s).domain, KindOf(s)).None?;
            GenerationIn(v.slots, d, kind)
            == if first && IsFor(s, d, kind) then 1 else GenerationIn(w.slots, d, kind)
  {
    var (ensured, at) := Ensured(w.slots, HeaderOf(s).domain, KindOf(s));
    IndexAfterEnsure(w.slots, HeaderOf(s).domain, KindOf(s), d, kind);
    hide Ensured, GenerationIn, SlotIndex;
    if IsAccepted(Ingest(k, w, s, Io(true, true, true))) {
      SavedIsAccepted(k, w, s, io);
      FailedSave(k, w, s, io);
      UndoneGenerations(w.slots, s, d, kind);
    } else {
      RefusedSlots(k, w, s, io);
    }
    hide Ingest;
  }

  /** Only the save decides whether a publication that would be accepted is. */
  lemma SavedIsAccepted(k: Digests, w: World, s: Snapshot, io: Io)
    requires IsAccepted(Ingest(k, w, s, Io(true, true, true)))
    ensures IsAccepted(Ingest(k, w, s, io)) <==> io.save
  {
    AcceptedRuling(k, w, s);
    hide ValidSnapshot, PublisherFault, Rule, Ensured, Filled, Bound;
  }

  lemma RefusedSlots(k: Digests, w: World, s: Snapshot, io: Io)
    requires !IsAccepted(Ingest(k, w, s, Io(true, true, true)))
    ensures var v := Ingest(k, w, s, io).world;
            v.slots == w.slots || v.slots == Ensured(w.slots, HeaderOf(s).domain, KindOf(s)).0
  {
    hide ValidSnapshot, PublisherFault, Rule, Ensured, Filled, Bound;
  }

  /** Only a pair that had no slot has its generation moved. */
  lemma UndoneGenerations(slots: seq<Slot>, s: Snapshot, d: u64, kind: EvidenceKind)
    ensures GenerationIn(Undone(slots, s), d, kind)
            == if SlotIndex(slots, HeaderOf(s).domain, KindOf(s)).None? && IsFor(s, d, kind) then 1
               else GenerationIn(slots, d, kind)
  {
    var (ensured, at) := Ensured(slots, HeaderOf(s).domain, KindOf(s));
    IndexAfterEnsure(slots, HeaderOf(s).domain, KindOf(s), d, kind);
    var slot := Slot(if ensured == slots then ensured[at].state
                     else Occupied(ensured[at].state, s, 1, ProvenanceOf(s).payloadDigest), None);
    IndexAfterUpdate(ensured, at, slot, d, kind);
    hide Ensured;
  }

  /** After a first publication whose save failed, a corrected snapshot under a new evidence id that claims the
      generation nobody ever got is refused. */
  lemma CorrectionIsRefused(k: Digests, w: World, snapshot: Snapshot, failing: Io, corrected: Snapshot, io: Io)
    requires FirstButForSave(k, w, snapshot) && !failing.save
    requires IsFor(corrected, HeaderOf(snapshot).domain, KindOf(snapshot)) && HeaderOf(corrected).generation == 1
    requires ProvenanceOf(corrected).evidenceId != ProvenanceOf(snapshot).evidenceId
    requires ProvenanceOf(Digested(k, corrected)).payloadDigest != ProvenanceOf(Digested(k, snapshot)).payloadDigest
    ensures !Publish(k, Publish(k, w, snapshot, failing).world, corrected, io).status.Success?
  {
    var s, t := Digested(k, snapshot), Digested(k, corrected);
    SameEvidenceId(k, snapshot);
    SameEvidenceId(k, corrected);
    hide Ingest, Digested;
    FailedSave(k, w, s, failing);
    RefusedAfter(k, w, Ingest(k, w, s, failing).world, s, t, io);
  }

  lemma SameEvidenceId(k: Digests, s: Snapshot)
    ensures ProvenanceOf(Digested(k, s)).evidenceId == ProvenanceOf(s).evidenceId
  {
  }

  lemma RefusedAfter(k: Digests, w: World, v: World, s: Snapshot, t: Snapshot, io: Io)
    requires SlotIndex(w.slots, HeaderOf(s).domain, KindOf(s)).None? && IsFor(t, HeaderOf(s).domain, KindOf(s))
    requires v.slots == Undone(w.slots, s)
    requires HeaderOf(t).generation == 1 && ProvenanceOf(t).evidenceId != ProvenanceOf(s).evidenceId
    requires ProvenanceOf(t).payloadDigest != ProvenanceOf(s).payloadDigest
    ensures !Ingest(k, v, t, io).status.Success?
  {
    var d, kind := HeaderOf(s).domain, KindOf(s);
    var at := Ensured(w.slots, d, kind).1;
    FirstHolder(w.slots, v.slots, d, kind, at);
    EnsuredThere(v.slots, d, kind, at);
    hide ValidSnapshot, PublisherFault, SlotIndex, Ensured, Occupy;
    FaultFree(v, t);
  }
}
