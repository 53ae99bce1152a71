/** What becomes of a publication, case by case and for every input. */
module Ingestion {
  import opened Checked
  import opened Wire
  import opened Model
  import opened PolicyRules
  import opened Engine
  import opened EvidenceRules
  import opened Governing
  import opened Frames
  import opened Publication
  import opened PublisherAuthority

  // ------------------------------------------------------- who may publish

  /** The policy covers the domain, the epoch is the current one, and the publisher is registered in it under
      the incarnation it publishes as, and not fenced. */
  predicate MayPublish(w: World, s: Snapshot) {
    var from, entry := ProvenanceOf(s), EntryIn(w.state.publishers, ProvenanceOf(s).publisher);
    && w.accepting && (exists d :: d in w.state.policy.domains && d.id == HeaderOf(s).domain)
    && HeaderOf(s).epoch == w.state.epoch
    && entry.Some? && !entry.value.fenced && entry.value.epoch == w.state.epoch
    && entry.value.incarnation == from.incarnation && from.sequence != 0
  }

  lemma MayPublishIs(w: World, s: Snapshot)
    ensures PublisherFault(w, s).Success? <==> MayPublish(w, s)
  {
    hide FindDomain, PublisherIndex;
  }

  // ------------------------------------------------------- what it meets

  /** The bookkeeping the publication meets; of a pair never published for, none. */
  function Held(w: World, s: Snapshot): SlotState {
    match SlotIndex(w.slots, HeaderOf(s).domain, KindOf(s))
    case Some(i) => w.slots[i].state
    case None => EmptySlot(HeaderOf(s).domain, KindOf(s)).state
  }

  predicate SameId(w: World, s: Snapshot) { ProvenanceOf(s).evidenceId == Held(w, s).evidenceId }
  predicate SamePayload(w: World, s: Snapshot) { ProvenanceOf(s).payloadDigest == Held(w, s).payloadDigest }

  predicate Ahead(w: World, s: Snapshot) {
    var entry := EntryIn(w.state.publishers, ProvenanceOf(s).publisher);
    entry.Some? && ProvenanceOf(s).sequence > entry.value.lastSequence
  }

  /** New evidence, ahead of its publisher's last, for a slot whose generation can still advance. */
  predicate New(w: World, s: Snapshot) { !SameId(w, s) && Ahead(w, s) && Held(w, s).generation + 1 < U64_LIMIT }

  predicate ClaimsHeld(w: World, s: Snapshot) {
    HeaderOf(s).generation == Held(w, s).generation && HeaderOf(s).generation != 0
  }

  /** It claims the next generation, or leaves it to a governor that assigns it. */
  predicate ClaimsNext(w: World, s: Snapshot) {
    || HeaderOf(s).generation == Held(w, s).generation + 1
    || (HeaderOf(s).generation == 0 && w.options.autoAssign)
  }

  // -------------------------------------------------------------- the ruling

  predicate Repeats(w: World, s: Snapshot) {
    SamePayload(w, s) && (SameId(w, s) || (New(w, s) && ClaimsHeld(w, s)))
  }

  predicate Misordered(w: World, s: Snapshot) {
    && New(w, s) && !ClaimsNext(w, s) && HeaderOf(s).generation != 0
    && !(ClaimsHeld(w, s) && SamePayload(w, s))
  }

  predicate Acceptable(w: World, s: Snapshot) { New(w, s) && ClaimsNext(w, s) }

  /** What is left to decide for a publisher that may publish. */
  function Ruling(w: World, s: Snapshot, i: nat): Governing.Ruling
    requires i < |w.state.publishers|
  {
    var (ensured, at) := Ensured(w.slots, HeaderOf(s).domain, KindOf(s));
    Rule(w.options, ensured[at].state, w.state.publishers[i].lastSequence, s, ProvenanceOf(s).payloadDigest)
  }

  lemma RuledAs(w: World, s: Snapshot, i: nat)
    requires PublisherIndex(w.state.publishers, ProvenanceOf(s).publisher) == Some(i)
    requires ProvenanceOf(s).evidenceId != 0
    ensures var (ensured, at) := Ensured(w.slots, HeaderOf(s).domain, KindOf(s)); ensured[at].state == Held(w, s)
    ensures Ruled(w, s, Ruling(w, s, i))
  {
    hide PublisherIndex;
  }

  predicate Fit(k: Digests, w: World, s: Snapshot) { ValidSnapshot(k.hash, s) && MayPublish(w, s) }

  /** The whole table, for a publication that carries its digest. */
  predicate Outcomes(k: Digests, w: World, s: Snapshot, io: Io, r: Reply<Receipt>) {
    var fit := Fit(k, w, s);
    && (IsAccepted(r) <==> fit && Acceptable(w, s) && io.save)
    && (IsAccepted(r) ==> r.value.generation == Held(w, s).generation + 1)
    && (r.status == FAILED_WRITE <==> fit && Acceptable(w, s) && !io.save)
    && (r.status.Success? && r.value.duplicate <==> fit && Repeats(w, s))
    && (r.value.duplicate ==> r.world == w && r.value.generation == Held(w, s).generation)
    && (r.status == Failure(Conflict, EVIDENCE_CONTRADICTORY) <==> fit && SameId(w, s) && !SamePayload(w, s))
    && (r.status == Failure(Conflict, EVIDENCE_CONTRADICTORY) ==> r.world == w)
    && (r.status == Failure(StaleInput, PUBLISHER_SEQUENCE_REPLAYED) <==> fit && !SameId(w, s) && !Ahead(w, s))
    && (r.status == Failure(StaleInput, SNAPSHOT_OUT_OF_ORDER) <==> fit && Misordered(w, s))
  }

  lemma FaultReasons(w: World, s: Snapshot)
    ensures var f := PublisherFault(w, s);
            && f != FAILED_WRITE && f != Failure(Conflict, EVIDENCE_CONTRADICTORY)
            && f != Failure(StaleInput, PUBLISHER_SEQUENCE_REPLAYED) && f != Failure(StaleInput, SNAPSHOT_OUT_OF_ORDER)
  {
    hide FindDomain, PublisherIndex;
  }

  lemma OccupyStatus(k: Digests, w: World, s: Snapshot, i: nat, g: u64, io: Io)
    requires i < |w.state.publishers|
    ensures var r := Occupy(k, w, s, i, g, io);
            && r.status == (if io.save then Success else FAILED_WRITE) && !r.value.duplicate
            && (io.save ==> r.value.generation == g)
  {
    hide Filled, RolledBack, Ensured;
  }

  lemma UnfitIsRefused(k: Digests, w: World, s: Snapshot, io: Io)
    requires !Fit(k, w, s)
    ensures Outcomes(k, w, s, io, Ingest(k, w, s, io))
  {
    MayPublishIs(w, s);
    FaultReasons(w, s);
    hide ValidSnapshot, MayPublish, PublisherFault, Rule, Occupy, Ensured, Repeats, Acceptable, Misordered, SameId,
      SamePayload, Ahead, Held;
  }

  lemma FitIsRuled(k: Digests, w: World, s: Snapshot, io: Io) returns (i: nat)
    requires Fit(k, w, s)
    ensures PublisherIndex(w.state.publishers, ProvenanceOf(s).publisher) == Some(i)
    ensures i < |w.state.publishers| && ProvenanceOf(s).evidenceId != 0
    ensures var (ensured, at) := Ensured(w.slots, HeaderOf(s).domain, KindOf(s));
            Ingest(k, w, s, io)
            == match Ruling(w, s, i)
               case Refused(status) => Reply(w.(slots := ensured), status, NO_RECEIPT)
               case AlreadyPublished => Reply(w.(slots := ensured), Success, Receipt(ensured[at].state.generation, true))
               case Accept(g) => Occupy(k, w, s, i, g, io)
  {
    MayPublishIs(w, s);
    i := PublisherIndex(w.state.publishers, ProvenanceOf(s).publisher).value;
    hide PublisherFault, Rule, Occupy, Ensured, WellFormedRecords, UniqueIds, Canonical;
  }

  lemma IngestedAs(k: Digests, w: World, s: Snapshot, io: Io)
    ensures Outcomes(k, w, s, io, Ingest(k, w, s, io))
  {
    if Fit(k, w, s) {
      var i := FitIsRuled(k, w, s, io);
      hide *;
      RuledAs(w, s, i);
      HeldIsThere(w, s);
      match Ruling(w, s, i)
      case Accept(g) =>
        OccupyStatus(k, w, s, i, g, io);
        AcceptedAs(k, w, s, i, io, Occupy(k, w, s, i, g, io));
      case _ => NotAcceptedAs(k, w, s, i, io, Ingest(k, w, s, io));
    } else {
      UnfitIsRefused(k, w, s, io);
      hide *;
    }
  }

  /** The facts `RuledAs` gives about a ruling. */
  predicate Ruled(w: World, s: Snapshot, r: Governing.Ruling) {
    && (r.AlreadyPublished? <==> Repeats(w, s))
    && (r.Accept? <==> Acceptable(w, s)) && (r.Accept? ==> r.generation == Held(w, s).generation + 1)
    && (r == Refused(Failure(Conflict, EVIDENCE_CONTRADICTORY)) <==> SameId(w, s) && !SamePayload(w, s))
    && (r == Refused(Failure(StaleInput, PUBLISHER_SEQUENCE_REPLAYED)) <==> !SameId(w, s) && !Ahead(w, s))
    && (r == Refused(Failure(StaleInput, SNAPSHOT_OUT_OF_ORDER)) <==> Misordered(w, s))
    && (r.Refused? ==> !r.status.Success? && r.status != FAILED_WRITE)
  }

  lemma AcceptedAs(k: Digests, w: World, s: Snapshot, i: nat, io: Io, r: Reply<Receipt>)
    requires Fit(k, w, s) && i < |w.state.publishers| && Ruled(w, s, Ruling(w, s, i)) && Ruling(w, s, i).Accept?
    requires r.status == (if io.save then Success else FAILED_WRITE) && !r.value.duplicate
    requires io.save ==> r.value.generation == Ruling(w, s, i).generation
    ensures Outcomes(k, w, s, io, r)
  {
    hide Fit, Ruling, Repeats, Acceptable, Misordered, SameId, SamePayload, Ahead, Held;
  }

  lemma NotAcceptedAs(k: Digests, w: World, s: Snapshot, i: nat, io: Io, r: Reply<Receipt>)
    requires Fit(k, w, s) && i < |w.state.publishers| && Ruled(w, s, Ruling(w, s, i)) && !Ruling(w, s, i).Accept?
    requires var (ensured, at) := Ensured(w.slots, HeaderOf(s).domain, KindOf(s));
             && ensured[at].state == Held(w, s) && (SameId(w, s) || Repeats(w, s) ==> ensured == w.slots)
             && r == match Ruling(w, s, i)
                     case Refused(status) => Reply(w.(slots := ensured), status, NO_RECEIPT)
                     case AlreadyPublished =>
                       Reply(w.(slots := ensured), Success, Receipt(ensured[at].state.generation, true))
                     case Accept(_) => r
    ensures Outcomes(k, w, s, io, r)
  {
    hide Fit, Ruling, Repeats, Acceptable, Misordered, SameId, SamePayload, Ahead, Held, Ensured, ProvenanceOf,
      HeaderOf, KindOf;
  }

  /** An evidence id that matches is that of a slot there is. */
  lemma HeldIsThere(w: World, s: Snapshot)
    requires ProvenanceOf(s).evidenceId != 0
    ensures SameId(w, s) || Repeats(w, s) ==> Ensured(w.slots, HeaderOf(s).domain, KindOf(s)).0 == w.slots
  {
  }

  /** What becomes of a publication is decided by who publishes, and by evidence id, sequence, digest and
      claimed generation against what is held; in the cases listed it is decided in exactly that way. */
  lemma PublishedAs(k: Digests, w: World, snapshot: Snapshot, io: Io)
    ensures Outcomes(k, w, Digested(k, snapshot), io, Publish(k, w, snapshot, io))
  {
    IngestedAs(k, w, Digested(k, snapshot), io);
    hide Outcomes, Ingest, Digested;
  }

  /** The content kept carries the digest of its own canonical bytes, at the generation it was given. */
  lemma BoundIsDigested(k: Digests, s: Snapshot, g: u64)
    ensures var c := Bound(k, s, g);
            && ProvenanceOf(c) == ProvenanceOf(s).(payloadDigest := k.hash(Canonical(c)))
            && HeaderOf(c) == HeaderOf(s).(generation := g) && CanonicalItems(c) == CanonicalItems(s)
  {
  }

  /** The slot an accepted publication leaves. */
  lemma FilledHeld(k: Digests, slots: seq<Slot>, s: Snapshot, g: u64)
    ensures var f, at := Filled(k, slots, s, g), Ensured(slots, HeaderOf(s).domain, KindOf(s)).1;
            && SlotIndex(f, HeaderOf(s).domain, KindOf(s)) == Some(at)
            && f[at].state.evidenceId == ProvenanceOf(s).evidenceId
            && f[at].state.payloadDigest == ProvenanceOf(s).payloadDigest && f[at].state.generation == g
            && f[at].state.publisher == ProvenanceOf(s).publisher && !f[at].state.revalidationRequired
  {
    var e := Ensured(slots, HeaderOf(s).domain, KindOf(s));
    IndexAfterEnsure(slots, HeaderOf(s).domain, KindOf(s), HeaderOf(s).domain, KindOf(s));
    IndexAfterUpdate(e.0, e.1, Filled(k, slots, s, g)[e.1], HeaderOf(s).domain, KindOf(s));
    hide Ensured, SlotIndex, Bound;
  }

  /** Publishing again under the evidence id just accepted: the same payload is a duplicate of what is held
      and changes nothing, any other is refused as contradictory and changes nothing. */
  lemma AcceptedIsRemembered(k: Digests, w: World, snapshot: Snapshot, io: Io, other: Snapshot, io': Io)
    requires IsAccepted(Publish(k, w, snapshot, io)) && Fit(k, Publish(k, w, snapshot, io).world, Digested(k, other))
    requires HeaderOf(other).domain == HeaderOf(snapshot).domain && KindOf(other) == KindOf(snapshot)
    requires ProvenanceOf(other).evidenceId == ProvenanceOf(snapshot).evidenceId
    ensures var v := Publish(k, w, snapshot, io).world;
            var again := Publish(k, v, other, io');
            && again.world == v
            && if ProvenanceOf(Digested(k, other)).payloadDigest == ProvenanceOf(Digested(k, snapshot)).payloadDigest
               then again.status.Success? && again.value == Receipt(Publish(k, w, snapshot, io).value.generation, true)
               else again.status == Failure(Conflict, EVIDENCE_CONTRADICTORY)
  {
    var s, t := Digested(k, snapshot), Digested(k, other);
    var r := Publish(k, w, snapshot, io);
    AcceptedPublication(k, w, snapshot, io);
    FilledHeld(k, w.slots, s, r.value.generation);
    SameEvidenceId(k, snapshot);
    SameEvidenceId(k, other);
    PublishedAs(k, r.world, other, io');
    hide Publish, Digested, Filled, Ensured, SlotIndex, Fit, Acceptable, Misordered, Ahead, New, ClaimsHeld, ClaimsNext,
      ProvenanceOf, EntryIn, ValidSnapshot;
  }
}
