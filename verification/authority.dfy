/** Whose publications are accepted, over whole runs: fences shut a publisher out until it registers again,
    an adoption shuts out every other incarnation, and sequences only grow. Restarts are part of the runs. */
module PublisherAuthority {
  import opened Checked
  import opened Wire
  import opened Model
  import opened PolicyRules
  import opened Engine
  import opened EvidenceRules
  import opened HysteresisRules
  import opened Replay
  import opened Governing
  import opened Frames
  import opened Recovery

  // --------------------------------------------------- one publisher's entry

  function EntryIn(ps: seq<Publisher>, id: u64): Option<Publisher> {
    match PublisherIndex(ps, id)
    case Some(i) => Some(ps[i])
    case None => None
  }

  /** `b` is `a` some time later, with no registration in between: once shut out it stays shut out, and its
      sequence does not fall. */
  predicate Later(a: Option<Publisher>, b: Option<Publisher>) {
    match (a, b)
    case (None, None) => true
    case (Some(p), Some(q)) =>
      q.incarnation == p.incarnation && (p.fenced ==> q.fenced) && q.lastSequence >= p.lastSequence
    case _ => false
  }

  predicate SameIncarnation(a: Option<Publisher>, b: Option<Publisher>) {
    a.Some? ==> b.Some? && b.value.incarnation == a.value.incarnation
  }

  /** The operation renews the publisher's registration, or is its first. */
  predicate Renews(w: World, s: Step, id: u64) {
    || (s.op.RegisterOp? && s.op.publisher == id && Registers(w, id, s.op.incarnation, s.op.epoch))
    || AdoptsFor(w, s, id)
  }

  predicate AdoptsFor(w: World, s: Step, id: u64) {
    s.op.AdoptOp? && s.op.publisher == id && Adopts(w, id, s.op.incarnation, s.op.epoch)
  }

  /** What one step may do to an entry. */
  predicate Moves(w: World, s: Step, id: u64, a: Option<Publisher>, b: Option<Publisher>) {
    && (!Renews(w, s, id) ==> Later(a, b))
    && (!AdoptsFor(w, s, id) ==> SameIncarnation(a, b))
  }

  /** Live and saved entry after a step: the live one moved, or came back from the saved one; the saved one
      stayed, or took the live one's place. */
  predicate EntrySteps(w: World, s: Step, id: u64, v: World) {
    var live, saved := EntryIn(w.state.publishers, id), EntryIn(w.disk.saved.publishers, id);
    var live', saved' := EntryIn(v.state.publishers, id), EntryIn(v.disk.saved.publishers, id);
    && (Moves(w, s, id, live, live') || (live' == saved && saved' == saved))
    && (saved' == saved || saved' == live')
  }

  // ------------------------------------------------------------- table changes

  lemma {:induction false} IndexOfUpdate(ps: seq<Publisher>, i: nat, p: Publisher, id: u64)
    requires i < |ps| && p.publisher == ps[i].publisher
    ensures PublisherIndex(ps[i := p], id) == PublisherIndex(ps, id)
  {
    var n := |ps| - 1;
    if i < n {
      assert ps[i := p][..n] == ps[..n][i := p];
      IndexOfUpdate(ps[..n], i, p, id);
    } else {
      assert ps[i := p][..n] == ps[..n];
    }
  }

  lemma EntryOfUpdate(ps: seq<Publisher>, i: nat, p: Publisher, id: u64)
    requires PublisherIndex(ps, p.publisher) == Some(i)
    ensures EntryIn(ps[i := p], id) == if id == p.publisher then Some(p) else EntryIn(ps, id)
  {
    IndexOfUpdate(ps, i, p, id);
  }

  lemma EntryOfAppend(ps: seq<Publisher>, p: Publisher, id: u64)
    requires PublisherIndex(ps, p.publisher).None?
    ensures EntryIn(ps + [p], id) == if id == p.publisher then Some(p) else EntryIn(ps, id)
  {
    assert (ps + [p])[..|ps|] == ps;
  }

  lemma {:induction false} EntryOfFenced(ps: seq<Publisher>, id: u64)
    ensures PublisherIndex(FenceAll(ps), id) == PublisherIndex(ps, id)
  {
    if ps != [] {
      assert FenceAll(ps)[..|ps| - 1] == FenceAll(ps[..|ps| - 1]);
      EntryOfFenced(ps[..|ps| - 1], id);
    }
  }

  lemma RegistrationEntry(ps: seq<Publisher>, p: u64, incarnation: u64, epoch: u64, tick: u64, id: u64)
    ensures var e := EntryIn(WithRegistration(ps, p, incarnation, epoch, tick), id);
            if id == p then e.Some? && e.value.incarnation == incarnation else e == EntryIn(ps, id)
  {
    match PublisherIndex(ps, p)
    case Some(i) => EntryOfUpdate(ps, i, Renewed(ps[i], incarnation, epoch, tick), id);
    case None => EntryOfAppend(ps, Publisher(p, incarnation, epoch, 0, false, NO_REASON, tick), id);
  }

  lemma FenceEntry(ps: seq<Publisher>, p: u64, reason: Reason, id: u64)
    ensures var e := EntryIn(WithFence(ps, p, reason), id);
            && Later(EntryIn(ps, id), e) && (id == p && e.Some? ==> e.value.fenced)
  {
    if i :| PublisherIndex(ps, p) == Some(i) {
      EntryOfUpdate(ps, i, ps[i].(fenced := true, fenceReason := reason), id);
    }
  }

  // ------------------------------------------------------------- every step

  lemma QuietEntries(w: World, s: Step, tick: u64, id: u64)
    ensures Moves(w, s, id, EntryIn(w.state.publishers, id), EntryIn(PublishersAfter(w, s.op, tick), id))
  {
    match s.op
    case RegisterOp(p, i, e, t) => RegistrationEntry(w.state.publishers, p, i, e, tick, id);
    case AdoptOp(p, i, e, t) => RegistrationEntry(w.state.publishers, p, i, e, tick, id);
    case FenceOp(p, reason) => FenceEntry(w.state.publishers, p, reason, id);
    case _ =>
  }

  lemma PersistEntries(w: World, force: bool, io: Io)
    ensures var v := Persist(w, force, io).world;
            && v.state.publishers == w.state.publishers
            && (v.disk.saved.publishers == w.disk.saved.publishers || v.disk.saved.publishers == v.state.publishers)
            && (force && io.save ==> v.disk.saved.publishers == v.state.publishers)
  {
  }

  lemma TouchKeepsSaved(w: World, v: World)
    requires Touches(w, v)
    ensures v.disk == w.disk
  {
    hide SlotsEvolve, ValidPolicy, TablesKept;
  }

  lemma PublishEntries(k: Digests, w: World, s: Step, id: u64)
    requires s.op.PublishOp?
    ensures EntrySteps(w, s, id, Apply(k, w, s))
  {
    hide Ingest, Digested, PublisherIndex, EntryIn, Registers, Adopts;
    var t := Digested(k, s.op.snapshot);
    IngestEntries(k, w, t, s.io, id);
  }

  /** What a publication makes of the entries and of the saved table. */
  lemma IngestEntries(k: Digests, w: World, s: Snapshot, io: Io, id: u64)
    ensures var v := Ingest(k, w, s, io).world;
            && Later(EntryIn(w.state.publishers, id), EntryIn(v.state.publishers, id))
            && (v.disk.saved.publishers == w.disk.saved.publishers || v.disk.saved.publishers == v.state.publishers)
  {
    hide Ingest, Touches, Persist, Filled, PublisherIndex, ValidPolicy;
    var r := Ingest(k, w, s, io);
    PublishFrame(k, w, s, io);
    if IsAccepted(r) {
      var i := PublisherIndex(w.state.publishers, ProvenanceOf(s).publisher).value;
      AcceptedGrows(k, w, s, io);
      EntryOfUpdate(w.state.publishers, i, w.state.publishers[i].(lastSequence := ProvenanceOf(s).sequence), id);
      PersistEntries(Published(k, w, s, i, r.value.generation), true, io);
    } else {
      TouchKeepsSaved(w, r.world);
    }
  }

  /** What an accepted publication says about its publisher. */
  lemma AcceptedGrows(k: Digests, w: World, s: Snapshot, io: Io)
    ensures IsAccepted(Ingest(k, w, s, io)) ==>
              var e := EntryIn(w.state.publishers, ProvenanceOf(s).publisher);
              && e.Some? && !e.value.fenced && e.value.incarnation == ProvenanceOf(s).incarnation
              && ProvenanceOf(s).sequence > e.value.lastSequence
  {
    hide ValidSnapshot, Occupy, Ensured;
  }

  lemma EvaluateEntries(k: Digests, w: World, domain: u64, requested: u64, cancelled: bool, wall: u64, io: Io)
    ensures var v := EvaluateDomain(k, w, domain, requested, cancelled, wall, io).world;
            && v.state.publishers == w.state.publishers
            && (v.disk.saved.publishers == w.disk.saved.publishers || v.disk.saved.publishers == v.state.publishers)
  {
    hide EvaluateDomain, DecideFor, AppendJournal, Persist, RecordFor, Settled;
    EvaluateFrame(k, w, domain, requested, cancelled, wall, io);
    var w1 := w.(clock := EvaluationTick(w, requested));
    if Attempt(k, w, domain, requested, cancelled, wall).Some? {
      var (d, a) := DecideFor(k, w1, domain, w1.clock);
      var r := RecordFor(k, w1, domain, d, a, wall);
      AppendJournalKeeps(w1, r, io);
      PersistEntries(Accepted(AppendJournal(w1, r, io).world, domain, d, a), false, io);
    }
  }

  lemma ReopenEntries(w: World)
    ensures var v := Reopened(w);
            v.state.publishers == w.disk.saved.publishers == v.disk.saved.publishers
  {
    RebuildKeeps(w.disk.saved.(audit := Merge(w.disk.saved.audit, w.disk.journal, w.options.maxAuditRecords)),
                 w.disk.journal);
    hide Rebuild, Merge;
  }

  lemma StepEntries(k: Digests, w: World, s: Step, id: u64)
    ensures EntrySteps(w, s, id, Apply(k, w, s))
  {
    hide Touches, AdvanceEpoch, Publish, EvaluateDomain, Reopened, Persist, PublisherIndex;
    match s.op
    case NewEpoch(epoch) =>
      EpochFrame(w, epoch, s.io);
      EntryOfFenced(w.state.publishers, id);
      PersistEntries(Advanced(w, epoch), true, s.io);
    case PublishOp(_) => PublishEntries(k, w, s, id);
    case EvaluateOp(domain, tick, cancelled, wall) => EvaluateEntries(k, w, domain, tick, cancelled, wall, s.io);
    case CrashAndReopen => ReopenEntries(w);
    case _ =>
      var v, committed := QuietFrame(k, w, s);
      QuietEntries(w, s, v.clock, id);
      PersistEntries(v, true, s.io);
      TouchKeepsSaved(w, v);
      hide Apply, PublishersAfter, Moves;
  }

  // ------------------------------------------------------------------ runs

  /** Nothing renews the publisher's registration between two moments of a run. */
  predicate NotRenewed(ws: seq<World>, steps: seq<Step>, id: u64, m: nat, n: nat)
    requires |ws| == |steps| + 1 && m <= n <= |steps|
  {
    forall j :: m <= j < n ==> !Renews(ws[j], steps[j], id)
  }

  predicate NotAdopted(ws: seq<World>, steps: seq<Step>, id: u64, m: nat, n: nat)
    requires |ws| == |steps| + 1 && m <= n <= |steps|
  {
    forall j :: m <= j < n ==> !AdoptsFor(ws[j], steps[j], id)
  }

  lemma LaterTransitive(a: Option<Publisher>, b: Option<Publisher>, c: Option<Publisher>)
    requires Later(a, b) && Later(b, c)
    ensures Later(a, c)
  {
  }

  /** Live and saved entry are both past `floor`. */
  predicate Past(floor: Option<Publisher>, w: World, id: u64) {
    Later(floor, EntryIn(w.state.publishers, id)) && Later(floor, EntryIn(w.disk.saved.publishers, id))
  }

  lemma {:induction false} EntryOnlyMovesOn(k: Digests, ws: seq<World>, steps: seq<Step>, id: u64,
                                            floor: Option<Publisher>, m: nat, n: nat)
    requires IsRun(k, ws, steps) && m <= n <= |steps| && NotRenewed(ws, steps, id, m, n) && Past(floor, ws[m], id)
    ensures Past(floor, ws[n], id)
    decreases n - m
  {
    hide Apply, EntryIn, Renews, Later;
    if m < n {
      EntryOnlyMovesOn(k, ws, steps, id, floor, m, n - 1);
      assert ws[n] == Apply(k, ws[n - 1], steps[n - 1]) && !Renews(ws[n - 1], steps[n - 1], id);
      StepEntries(k, ws[n - 1], steps[n - 1], id);
      var live, live' := EntryIn(ws[n - 1].state.publishers, id), EntryIn(ws[n].state.publishers, id);
      if Later(live, live') {
        LaterTransitive(floor, live, live');
      }
    }
  }

  predicate BothOf(incarnation: u64, w: World, id: u64) {
    var live, saved := EntryIn(w.state.publishers, id), EntryIn(w.disk.saved.publishers, id);
    live.Some? && live.value.incarnation == incarnation && saved.Some? && saved.value.incarnation == incarnation
  }

  lemma {:induction false} IncarnationStays(k: Digests, ws: seq<World>, steps: seq<Step>, id: u64, incarnation: u64,
                                            m: nat, n: nat)
    requires IsRun(k, ws, steps) && m <= n <= |steps| && NotAdopted(ws, steps, id, m, n) && BothOf(incarnation, ws[m], id)
    ensures BothOf(incarnation, ws[n], id)
    decreases n - m
  {
    hide Apply, EntryIn, AdoptsFor, Later;
    if m < n {
      IncarnationStays(k, ws, steps, id, incarnation, m, n - 1);
      assert ws[n] == Apply(k, ws[n - 1], steps[n - 1]) && !AdoptsFor(ws[n - 1], steps[n - 1], id);
      StepEntries(k, ws[n - 1], steps[n - 1], id);
    }
  }

  lemma PastItself(w: World, id: u64)
    requires w.disk.saved.publishers == w.state.publishers
    ensures Past(EntryIn(w.state.publishers, id), w, id)
  {
  }

  lemma RunStep(k: Digests, ws: seq<World>, steps: seq<Step>, n: nat)
    requires IsRun(k, ws, steps) && n < |steps|
    ensures |ws| == |steps| + 1 && ws[n + 1] == Apply(k, ws[n], steps[n])
  {
    hide Apply;
  }

  // ------------------------------------------------------------ the theorems

  /** The step publishes for the publisher and is accepted as new. */
  predicate AcceptedFrom(k: Digests, w: World, s: Step, id: u64) {
    && s.op.PublishOp? && ProvenanceOf(s.op.snapshot).publisher == id
    && IsAccepted(Publish(k, w, s.op.snapshot, s.io))
  }

  function SequenceOf(s: Step): u64
    requires s.op.PublishOp?
  {
    ProvenanceOf(s.op.snapshot).sequence
  }

  lemma AcceptedIngest(k: Digests, w: World, s: Step, id: u64)
    requires AcceptedFrom(k, w, s, id)
    ensures var t := Digested(k, s.op.snapshot);
            && IsAccepted(Ingest(k, w, t, s.io)) && Apply(k, w, s) == Ingest(k, w, t, s.io).world
            && ProvenanceOf(t).publisher == id && ProvenanceOf(t).sequence == SequenceOf(s)
            && ProvenanceOf(t).incarnation == ProvenanceOf(s.op.snapshot).incarnation
  {
    hide Ingest;
  }

  lemma AcceptedEntry(k: Digests, w: World, s: Step, id: u64)
    requires AcceptedFrom(k, w, s, id)
    ensures var e := EntryIn(w.state.publishers, id);
            && e.Some? && !e.value.fenced && e.value.incarnation == ProvenanceOf(s.op.snapshot).incarnation
            && SequenceOf(s) > e.value.lastSequence
    ensures var v := Apply(k, w, s);
            && EntryIn(v.state.publishers, id) == Some(EntryIn(w.state.publishers, id).value.(lastSequence := SequenceOf(s)))
            && v.disk.saved.publishers == v.state.publishers
  {
    AcceptedIngest(k, w, s, id);
    hide *;
    AcceptedGrows(k, w, Digested(k, s.op.snapshot), s.io);
    AcceptedMoves(k, w, Digested(k, s.op.snapshot), s.io);
  }

  /** The entry and the saved table after an accepted publication. */
  lemma AcceptedMoves(k: Digests, w: World, s: Snapshot, io: Io)
    ensures var v := Ingest(k, w, s, io).world;
            var id := ProvenanceOf(s).publisher;
            IsAccepted(Ingest(k, w, s, io)) && EntryIn(w.state.publishers, id).Some? ==>
              && EntryIn(v.state.publishers, id)
                 == Some(EntryIn(w.state.publishers, id).value.(lastSequence := ProvenanceOf(s).sequence))
              && v.disk.saved.publishers == v.state.publishers
  {
    hide Ingest, Touches, Persist, Filled, ValidPolicy, SlotsEvolve, TablesKept;
    var r := Ingest(k, w, s, io);
    PublishFrame(k, w, s, io);
    if IsAccepted(r) {
      var i := PublisherIndex(w.state.publishers, ProvenanceOf(s).publisher).value;
      var p := w.state.publishers[i].(lastSequence := ProvenanceOf(s).sequence);
      EntryOfUpdate(w.state.publishers, i, p, ProvenanceOf(s).publisher);
      PersistEntries(Published(k, w, s, i, r.value.generation), true, io);
    }
  }

  /** The step fences the publisher, and the fence is saved: an epoch advance that goes through, or an
      explicit fence. */
  predicate FencesFor(w: World, s: Step, id: u64) {
    && s.io.save
    && ((s.op.NewEpoch? && s.op.epoch > w.state.epoch)
        || (s.op.FenceOp? && s.op.publisher == id && EntryIn(w.state.publishers, id).Some?))
  }

  lemma FencedBoth(k: Digests, w: World, s: Step, id: u64)
    requires FencesFor(w, s, id)
    ensures var v := Apply(k, w, s);
            var live := EntryIn(v.state.publishers, id);
            (live.Some? ==> live.value.fenced) && Past(live, v, id)
  {
    hide Persist, AdvanceEpoch, PublisherIndex;
    if s.op.NewEpoch? {
      EpochFrame(w, s.op.epoch, s.io);
      EntryOfFenced(w.state.publishers, id);
      PersistEntries(Advanced(w, s.op.epoch), true, s.io);
    } else {
      FenceBoth(w, s.op.reason, s.io, id);
      hide FencePublisher;
    }
  }

  lemma FenceBoth(w: World, reason: Reason, io: Io, id: u64)
    requires io.save && EntryIn(w.state.publishers, id).Some?
    ensures var v := FencePublisher(w, id, reason, io).world;
            var live := EntryIn(v.state.publishers, id);
            (live.Some? ==> live.value.fenced) && Past(live, v, id)
  {
    FenceEntry(w.state.publishers, id, reason, id);
  }

  /** Once a publisher is fenced, nothing it publishes is accepted until its registration is renewed,
      whatever happens in between, restarts included. */
  lemma FencedUntilRegistered(k: Digests, ws: seq<World>, steps: seq<Step>, id: u64, m: nat, n: nat)
    requires IsRun(k, ws, steps) && m < n < |steps| && FencesFor(ws[m], steps[m], id)
    requires NotRenewed(ws, steps, id, m + 1, n)
    ensures !AcceptedFrom(k, ws[n], steps[n], id)
  {
    assert ws[m + 1] == Apply(k, ws[m], steps[m]);
    hide Apply, Publish, EntryIn, FencesFor, NotRenewed;
    FencedBoth(k, ws[m], steps[m], id);
    EntryOnlyMovesOn(k, ws, steps, id, EntryIn(ws[m + 1].state.publishers, id), m + 1, n);
    if AcceptedFrom(k, ws[n], steps[n], id) {
      AcceptedEntry(k, ws[n], steps[n], id);
    }
  }

  lemma AdoptedBoth(k: Digests, w: World, s: Step, id: u64)
    requires AdoptsFor(w, s, id) && s.io.save
    ensures BothOf(s.op.incarnation, Apply(k, w, s), id)
  {
    hide Apply, Persist, Touches;
    var v, committed := QuietFrame(k, w, s);
    RegistrationEntry(w.state.publishers, id, s.op.incarnation, s.op.epoch, v.clock, id);
    PersistEntries(v, true, s.io);
    hide WithRegistration, EntryIn;
  }

  lemma LiveIncarnation(incarnation: u64, w: World, id: u64)
    requires BothOf(incarnation, w, id)
    ensures EntryIn(w.state.publishers, id).Some? && EntryIn(w.state.publishers, id).value.incarnation == incarnation
  {
  }

  lemma LiveSequence(floor: Option<Publisher>, w: World, id: u64)
    requires Past(floor, w, id)
    ensures var live := EntryIn(w.state.publishers, id);
            floor.Some? && live.Some? ==> live.value.lastSequence >= floor.value.lastSequence
  {
  }

  /** Once an incarnation is adopted, every publication accepted from the publisher is of that incarnation,
      until another one is adopted. */
  lemma OnlyAdoptedIncarnation(k: Digests, ws: seq<World>, steps: seq<Step>, id: u64, m: nat, n: nat)
    requires IsRun(k, ws, steps) && m < n < |steps| && AdoptsFor(ws[m], steps[m], id) && steps[m].io.save
    requires NotAdopted(ws, steps, id, m + 1, n)
    ensures AcceptedFrom(k, ws[n], steps[n], id) ==>
              ProvenanceOf(steps[n].op.snapshot).incarnation == steps[m].op.incarnation
  {
    var adopted := steps[m].op.incarnation;
    hide *;
    RunStep(k, ws, steps, m);
    AdoptedBoth(k, ws[m], steps[m], id);
    IncarnationStays(k, ws, steps, id, adopted, m + 1, n);
    LiveIncarnation(adopted, ws[n], id);
    if AcceptedFrom(k, ws[n], steps[n], id) {
      AcceptedEntry(k, ws[n], steps[n], id);
    }
  }

  /** Within one registration the sequences of accepted publications strictly increase. */
  lemma SequencesIncrease(k: Digests, ws: seq<World>, steps: seq<Step>, id: u64, m: nat, n: nat)
    requires IsRun(k, ws, steps) && m < n < |steps|
    requires AcceptedFrom(k, ws[m], steps[m], id) && AcceptedFrom(k, ws[n], steps[n], id)
    requires NotRenewed(ws, steps, id, m + 1, n)
    ensures SequenceOf(steps[m]) < SequenceOf(steps[n])
  {
    hide *;
    RunStep(k, ws, steps, m);
    AcceptedEntry(k, ws[m], steps[m], id);
    PastItself(ws[m + 1], id);
    EntryOnlyMovesOn(k, ws, steps, id, EntryIn(ws[m + 1].state.publishers, id), m + 1, n);
    LiveSequence(EntryIn(ws[m + 1].state.publishers, id), ws[n], id);
    AcceptedEntry(k, ws[n], steps[n], id);
  }

  /** A successful adoption is durable exactly when it changes the registration, and so saves it, or the
      saved registration is the live one already: one that finds its change made by an earlier attempt
      whose save failed reports success and saves nothing. */
  lemma AdoptionIsDurable(k: Digests, w: World, s: Step, id: u64)
    requires s.op.AdoptOp? && s.op.publisher == id
    requires Adopt(w, id, s.op.incarnation, s.op.epoch, s.op.tick, s.io).status.Success?
    ensures var v := Apply(k, w, s);
            EntryIn(v.disk.saved.publishers, id) == EntryIn(v.state.publishers, id)
            <==> AdoptsFor(w, s, id) || EntryIn(w.disk.saved.publishers, id) == EntryIn(w.state.publishers, id)
  {
    var op := s.op;
    if AdoptsFor(w, s, id) {
      AdoptionSaves(w, id, op.incarnation, op.epoch, op.tick, s.io);
    }
    hide PublisherIndex, RequireRevalidation;
  }

  lemma AdoptionSaves(w: World, id: u64, incarnation: u64, epoch: u64, tick: u64, io: Io)
    requires Adopts(w, id, incarnation, epoch) && Adopt(w, id, incarnation, epoch, tick, io).status.Success?
    ensures var v := Adopt(w, id, incarnation, epoch, tick, io).world;
            v.disk.saved.publishers == v.state.publishers
  {
    hide PublisherIndex, RequireRevalidation;
  }
}
