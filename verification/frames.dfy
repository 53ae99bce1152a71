/** What the governor's operations leave alone. Every operation other than an epoch advance, an accepted
    publication, an evaluation or a restart only touches configuration, registrations, bookkeeping and
    slot contents, and then either saves or does not. */
module Frames {
  import opened Checked
  import opened Wire
  import opened Model
  import opened PolicyRules
  import opened Engine
  import opened EvidenceRules
  import opened Replay
  import opened HysteresisRules
  import opened Governing

  predicate SameKey(a: SlotState, b: SlotState) { a.domain == b.domain && a.kind == b.kind }

  predicate UniqueSlots(slots: seq<Slot>) {
    forall i, j :: 0 <= i < j < |slots| ==> !SameKey(slots[i].state, slots[j].state)
  }

  /** Slots keep their identity and generation and may lose their content; new ones are empty and of one of
      the three kinds. */
  predicate SlotsEvolve(a: seq<Slot>, b: seq<Slot>) {
    && |a| <= |b| && (UniqueSlots(a) ==> UniqueSlots(b))
    && (forall i :: 0 <= i < |a| ==>
          && SameKey(a[i].state, b[i].state) && a[i].state.generation == b[i].state.generation
          && (b[i].content == a[i].content || b[i].content.None?))
    && (forall i :: |a| <= i < |b| ==> b[i].content.None? && !b[i].state.kind.OtherKind?)
  }

  /** Nothing but configuration, registrations, bookkeeping and slots differs. */
  predicate Aside(w: World, v: World) {
    && v == w.(accepting := v.accepting, clock := v.clock, dirty := v.dirty, slots := v.slots, state := v.state)
    && v.state == w.state.(policy := v.state.policy, policyGeneration := v.state.policyGeneration,
                           policyDigest := v.state.policyDigest, publishers := v.state.publishers,
                           evidence := v.state.evidence, tick := v.state.tick, revision := v.state.revision)
    && w.clock <= v.clock
  }

  /** The publisher table stays within its bound, and the policy digest is that of the policy. */
  predicate TablesKept(s: DurableState, t: DurableState) {
    && (|s.publishers| <= MAX_PUBLISHERS ==> |t.publishers| <= MAX_PUBLISHERS)
    && (s.policyDigest == s.policy.digest ==> t.policyDigest == t.policy.digest)
  }

  predicate Touches(w: World, v: World) {
    && Aside(w, v) && SlotsEvolve(w.slots, v.slots) && TablesKept(w.state, v.state)
    && (ValidPolicy(w.state.policy) ==> ValidPolicy(v.state.policy))
  }

  // ----------------------------------------------------------------- slots

  lemma SameSlots(slots: seq<Slot>)
    ensures SlotsEvolve(slots, slots)
  {
  }

  lemma DroppedSlots(slots: seq<Slot>)
    ensures SlotsEvolve(slots, DropContents(slots))
  {
    var r := DropContents(slots);
    if UniqueSlots(slots) {
      forall i, j | 0 <= i < j < |r| ensures !SameKey(r[i].state, r[j].state) {
        assert !SameKey(slots[i].state, slots[j].state);
      }
    }
  }

  lemma FlaggedSlots(slots: seq<Slot>, publisher: u64)
    ensures SlotsEvolve(slots, RequireRevalidation(slots, publisher))
  {
    var r := RequireRevalidation(slots, publisher);
    if UniqueSlots(slots) {
      forall i, j | 0 <= i < j < |r| ensures !SameKey(r[i].state, r[j].state) {
        assert !SameKey(slots[i].state, slots[j].state);
      }
    }
  }

  lemma EnsuredSlots(slots: seq<Slot>, domain: u64, kind: EvidenceKind)
    requires !kind.OtherKind?
    ensures SlotsEvolve(slots, Ensured(slots, domain, kind).0)
  {
    var r := Ensured(slots, domain, kind).0;
    if UniqueSlots(slots) && r != slots {
      forall i, j | 0 <= i < j < |r| ensures !SameKey(r[i].state, r[j].state) {
        assert r[i] == slots[i];
        if j < |slots| {
          assert !SameKey(slots[i].state, slots[j].state);
        } else {
          assert !Holds(slots[i], domain, kind);
        }
      }
    }
  }

  lemma UpdatedSlots(slots: seq<Slot>, i: nat, s: Slot)
    requires i < |slots| && SameKey(slots[i].state, s.state) && UniqueSlots(slots)
    ensures UniqueSlots(slots[i := s])
  {
    var r := slots[i := s];
    forall a, b | 0 <= a < b < |r| ensures !SameKey(r[a].state, r[b].state) {
      assert !SameKey(slots[a].state, slots[b].state);
    }
  }

  // -------------------------------------------------------- registrations

  /** A registration that changes the table. */
  predicate Registers(w: World, p: u64, incarnation: u64, epoch: u64) {
    && w.accepting && p != 0 && incarnation != 0 && epoch != 0 && epoch == w.state.epoch
    && match PublisherIndex(w.state.publishers, p)
       case Some(i) => w.state.publishers[i].incarnation == incarnation && w.state.publishers[i].fenced
       case None => |w.state.publishers| < MAX_PUBLISHERS
  }

  /** An adoption that changes the table. */
  predicate Adopts(w: World, p: u64, incarnation: u64, epoch: u64) {
    && w.accepting && p != 0 && incarnation != 0 && epoch != 0 && epoch == w.state.epoch
    && match PublisherIndex(w.state.publishers, p)
       case Some(i) =>
         var r := w.state.publishers[i];
         !(r.incarnation == incarnation && !r.fenced && r.epoch == epoch)
       case None => false
  }

  /** The table with a publisher's registration renewed or added. */
  function WithRegistration(ps: seq<Publisher>, p: u64, incarnation: u64, epoch: u64, tick: u64): seq<Publisher> {
    match PublisherIndex(ps, p)
    case Some(i) => ps[i := Renewed(ps[i], incarnation, epoch, tick)]
    case None => ps + [Publisher(p, incarnation, epoch, 0, false, NO_REASON, tick)]
  }

  function WithFence(ps: seq<Publisher>, p: u64, reason: Reason): seq<Publisher> {
    match PublisherIndex(ps, p)
    case Some(i) => ps[i := ps[i].(fenced := true, fenceReason := reason)]
    case None => ps
  }

  /** What a quiet operation makes of the publishers; `tick` is the clock it runs at. */
  function PublishersAfter(w: World, op: Op, tick: u64): seq<Publisher> {
    match op
    case RegisterOp(p, i, e, t) =>
      if Registers(w, p, i, e) then WithRegistration(w.state.publishers, p, i, e, tick) else w.state.publishers
    case AdoptOp(p, i, e, t) =>
      if Adopts(w, p, i, e) then WithRegistration(w.state.publishers, p, i, e, tick) else w.state.publishers
    case FenceOp(p, reason) => WithFence(w.state.publishers, p, reason)
    case _ => w.state.publishers
  }

  // ----------------------------------------------------- quiet operations

  predicate Quiet(op: Op) {
    op.Install? || op.Tick? || op.RegisterOp? || op.AdoptOp? || op.FenceOp? || op.SaveOp? || op.ShutdownOp?
  }

  lemma InstallFrame(k: Digests, w: World, p: Policy, tick: u64, io: Io) returns (v: World, committed: bool)
    ensures Touches(w, v) && |v.slots| == |w.slots| && v.state.publishers == w.state.publishers
    ensures InstallPolicy(k, w, p, tick, io).world == if committed then Persist(v, true, io).world else v
    ensures v.state.policy == w.state.policy || v.state.policy == NextPolicy(k, w.state.policy, p)
  {
    hide ValidPolicy, NextPolicy, ContentDigest, Persist;
    var w1 := ObserveGiven(w, tick);
    var next := NextPolicy(k, w.state.policy, p);
    SameSlots(w.slots);
    DroppedSlots(w.slots);
    committed := w.accepting && next.generation != 0 && ValidPolicy(next)
                 && !(w.state.policy.generation != 0 && ContentDigest(k, w.state.policy) == ContentDigest(k, next));
    v := if !w.accepting then w
         else if committed then
           w1.(slots := DropContents(w.slots), dirty := true,
               state := w.state.(policy := next, policyGeneration := next.generation, policyDigest := next.digest))
         else w1;
  }

  lemma RegisterFrame(w: World, p: u64, incarnation: u64, epoch: u64, tick: u64, io: Io) returns (v: World, committed: bool)
    ensures Touches(w, v) && v.state.policy == w.state.policy && |v.slots| == |w.slots|
    ensures v.state.publishers == PublishersAfter(w, RegisterOp(p, incarnation, epoch, tick), v.clock)
            && committed == Registers(w, p, incarnation, epoch)
    ensures Register(w, p, incarnation, epoch, tick, io).world == if committed then Persist(v, true, io).world else v
  {
    hide ValidPolicy, Persist;
    SameSlots(w.slots);
    v, committed := w, false;
    if w.accepting && p != 0 && incarnation != 0 && epoch != 0 && epoch == w.state.epoch {
      v := ObserveGiven(w, tick);
      match PublisherIndex(w.state.publishers, p)
      case Some(i) =>
        if w.state.publishers[i].incarnation == incarnation && w.state.publishers[i].fenced {
          v := WithPublisher(v, i, Renewed(w.state.publishers[i], incarnation, epoch, v.clock)).(dirty := true);
          committed := true;
        }
      case None =>
        if |w.state.publishers| < MAX_PUBLISHERS {
          v := v.(dirty := true, state := w.state.(publishers :=
            w.state.publishers + [Publisher(p, incarnation, epoch, 0, false, NO_REASON, v.clock)]));
          committed := true;
        }
    }
  }

  lemma AdoptFrame(w: World, p: u64, incarnation: u64, epoch: u64, tick: u64, io: Io) returns (v: World, committed: bool)
    ensures Touches(w, v) && v.state.policy == w.state.policy && |v.slots| == |w.slots|
    ensures v.state.publishers == PublishersAfter(w, AdoptOp(p, incarnation, epoch, tick), v.clock)
            && committed == Adopts(w, p, incarnation, epoch)
    ensures Adopt(w, p, incarnation, epoch, tick, io).world == if committed then Persist(v, true, io).world else v
  {
    hide ValidPolicy, Persist;
    SameSlots(w.slots);
    FlaggedSlots(w.slots, p);
    v, committed := w, false;
    if w.accepting && p != 0 && incarnation != 0 && epoch != 0 && epoch == w.state.epoch {
      v := ObserveGiven(w, tick);
      if i :| PublisherIndex(w.state.publishers, p) == Some(i) {
        var r := w.state.publishers[i];
        if !(r.incarnation == incarnation && !r.fenced && r.epoch == epoch) {
          v := WithPublisher(v, i, Renewed(r, incarnation, epoch, v.clock))
                 .(slots := RequireRevalidation(w.slots, p), dirty := true);
          committed := true;
        }
      }
    }
  }

  lemma FenceFrame(w: World, p: u64, reason: Reason, io: Io) returns (v: World, committed: bool)
    ensures Touches(w, v) && v.state.policy == w.state.policy && |v.slots| == |w.slots|
    ensures v.state.publishers == PublishersAfter(w, FenceOp(p, reason), v.clock)
    ensures FencePublisher(w, p, reason, io).world == if committed then Persist(v, true, io).world else v
    ensures committed || v == w
  {
    hide ValidPolicy, Persist;
    SameSlots(w.slots);
    v, committed := w, false;
    if i :| PublisherIndex(w.state.publishers, p) == Some(i) {
      v := WithPublisher(w, i, w.state.publishers[i].(fenced := true, fenceReason := reason)).(dirty := true);
      committed := true;
    }
  }

  lemma PublisherFrame(k: Digests, w: World, s: Step) returns (v: World, committed: bool)
    requires s.op.RegisterOp? || s.op.AdoptOp? || s.op.FenceOp?
    ensures Touches(w, v) && |v.slots| == |w.slots| && v.state.policy == w.state.policy
    ensures Apply(k, w, s) == if committed then Persist(v, true, s.io).world else v
    ensures v.state.publishers == PublishersAfter(w, s.op, v.clock)
    ensures s.op.RegisterOp? ==> committed == Registers(w, s.op.publisher, s.op.incarnation, s.op.epoch)
    ensures s.op.AdoptOp? ==> committed == Adopts(w, s.op.publisher, s.op.incarnation, s.op.epoch)
    ensures s.op.FenceOp? ==> committed || v == w
  {
    hide Register, Adopt, FencePublisher, Persist, Touches, PublishersAfter, Registers, Adopts;
    match s.op
    case RegisterOp(p, i, e, t) => v, committed := RegisterFrame(w, p, i, e, t, s.io);
    case AdoptOp(p, i, e, t) => v, committed := AdoptFrame(w, p, i, e, t, s.io);
    case FenceOp(p, reason) => v, committed := FenceFrame(w, p, reason, s.io);
  }

  lemma PlainFrame(k: Digests, w: World, s: Step) returns (v: World, committed: bool)
    requires Quiet(s.op) && !s.op.RegisterOp? && !s.op.AdoptOp? && !s.op.FenceOp?
    ensures Touches(w, v) && |v.slots| == |w.slots| && (!s.op.Install? ==> v.state.policy == w.state.policy)
    ensures s.op.Install? ==> v.state.policy == w.state.policy || v.state.policy == NextPolicy(k, w.state.policy, s.op.policy)
    ensures Apply(k, w, s) == if committed then Persist(v, true, s.io).world else v
    ensures v.state.publishers == PublishersAfter(w, s.op, v.clock)
  {
    hide InstallPolicy, Persist, NextPolicy, ValidPolicy;
    SameSlots(w.slots);
    match s.op
    case Install(p, tick) => v, committed := InstallFrame(k, w, p, tick, s.io);
    case Tick(delta) => v, committed := AdvanceTick(w, delta).world, false;
    case SaveOp => v, committed := w, true;
    case ShutdownOp => v, committed := w.(accepting := false), true;
  }

  /** Every quiet operation touches the world and then saves it or not. */
  lemma QuietFrame(k: Digests, w: World, s: Step) returns (v: World, committed: bool)
    requires Quiet(s.op)
    ensures Touches(w, v) && |v.slots| == |w.slots| && (!s.op.Install? ==> v.state.policy == w.state.policy)
    ensures s.op.Install? ==> v.state.policy == w.state.policy || v.state.policy == NextPolicy(k, w.state.policy, s.op.policy)
    ensures Apply(k, w, s) == if committed then Persist(v, true, s.io).world else v
    ensures v.state.publishers == PublishersAfter(w, s.op, v.clock)
    ensures s.op.RegisterOp? ==> committed == Registers(w, s.op.publisher, s.op.incarnation, s.op.epoch)
    ensures s.op.AdoptOp? ==> committed == Adopts(w, s.op.publisher, s.op.incarnation, s.op.epoch)
    ensures s.op.FenceOp? ==> committed || v == w
  {
    hide Touches, PublishersAfter, Persist, NextPolicy, Apply;
    if s.op.RegisterOp? || s.op.AdoptOp? || s.op.FenceOp? {
      v, committed := PublisherFrame(k, w, s);
    } else {
      v, committed := PlainFrame(k, w, s);
    }
  }

  // -------------------------------------------------------- epoch advance

  /** An epoch advance that goes through. */
  function Advanced(w: World, next: u64): World {
    w.(slots := DropContents(w.slots), dirty := true,
       state := w.state.(epoch := next, publishers := FenceAll(w.state.publishers),
                         domains := FenceForEpoch(w.state.domains, next)))
  }

  lemma EpochFrame(w: World, next: u64, io: Io)
    ensures AdvanceEpoch(w, next, io).world
            == if next == 0 || next <= w.state.epoch then w else Persist(Advanced(w, next), true, io).world
  {
    hide Persist;
  }

  // ------------------------------------------------------------ publication

  predicate IsAccepted(r: Reply<Receipt>) { r.status.Success? && !r.value.duplicate }

  /** The world once an accepted publication has taken its slot, before the save. */
  function Published(k: Digests, w: World, s: Snapshot, i: nat, g: u64): World
    requires i < |w.state.publishers|
  {
    WithPublisher(w, i, w.state.publishers[i].(lastSequence := ProvenanceOf(s).sequence))
      .(slots := Filled(k, w.slots, s, g), dirty := true)
  }

  lemma RuleAdvances(o: Options, slot: SlotState, last: u64, s: Snapshot, payload: Digest)
    ensures var r := Rule(o, slot, last, s, payload);
            && (r.Accept? ==> r.generation == slot.generation + 1)
            && (r.Refused? ==> !r.status.Success?)
            && (r.AlreadyPublished? ==> slot.evidenceId != 0 || slot.generation != 0)
  {
  }

  lemma FaultFree(w: World, s: Snapshot)
    ensures PublisherFault(w, s).Success? ==>
              && HeaderOf(s).epoch == w.state.epoch
              && PublisherIndex(w.state.publishers, ProvenanceOf(s).publisher).Some?
  {
  }

  /** A publication either is accepted, or touches the world at most: it may leave an empty slot. */
  lemma PublishFrame(k: Digests, w: World, s: Snapshot, io: Io)
    ensures var r := Ingest(k, w, s, io);
            var i := PublisherIndex(w.state.publishers, ProvenanceOf(s).publisher);
            var (ensured, at) := Ensured(w.slots, HeaderOf(s).domain, KindOf(s));
            if IsAccepted(r) then
              && i.Some? && HeaderOf(s).epoch == w.state.epoch && io.save
              && r.value.generation == ensured[at].state.generation + 1
              && r.world == Persist(Published(k, w, s, i.value, r.value.generation), true, io).world
            else
              && Touches(w, r.world) && r.world.state.policy == w.state.policy
              && r.world.state.publishers == w.state.publishers && |r.world.slots| <= |w.slots| + 1
              && (forall j :: 0 <= j < |w.slots| ==> r.world.slots[j].state == w.slots[j].state)
              && (forall j :: |w.slots| <= j < |r.world.slots| ==> Holds(r.world.slots[j], HeaderOf(s).domain, KindOf(s)))
              && (r.value.duplicate ==> r.world == w)
  {
    hide ValidSnapshot, Occupy, Rule, PublisherFault, Touches;
    FaultFree(w, s);
    TouchesSelf(w);
    var (ensured, at) := Ensured(w.slots, HeaderOf(s).domain, KindOf(s));
    EnsuredTouches(w, HeaderOf(s).domain, KindOf(s));
    if ValidSnapshot(k.hash, s) && PublisherFault(w, s).Success? {
      var i := PublisherIndex(w.state.publishers, ProvenanceOf(s).publisher).value;
      RuleAdvances(w.options, ensured[at].state, w.state.publishers[i].lastSequence, s, ProvenanceOf(s).payloadDigest);
      var ruling := Rule(w.options, ensured[at].state, w.state.publishers[i].lastSequence, s, ProvenanceOf(s).payloadDigest);
      if ruling.Accept? {
        OccupyFrame(k, w, s, i, ruling.generation, io);
      }
    }
  }

  lemma TouchesSelf(w: World)
    ensures Touches(w, w)
  {
    SameSlots(w.slots);
  }

  lemma EnsuredTouches(w: World, domain: u64, kind: EvidenceKind)
    requires !kind.OtherKind?
    ensures var v := w.(slots := Ensured(w.slots, domain, kind).0);
            && Touches(w, v) && |v.slots| <= |w.slots| + 1
            && (forall j :: 0 <= j < |w.slots| ==> v.slots[j] == w.slots[j])
            && (forall j :: |w.slots| <= j < |v.slots| ==> Holds(v.slots[j], domain, kind))
  {
    EnsuredSlots(w.slots, domain, kind);
  }

  lemma OccupyFrame(k: Digests, w: World, s: Snapshot, i: nat, g: u64, io: Io)
    requires i < |w.state.publishers|
    ensures var r := Occupy(k, w, s, i, g, io);
            if r.status.Success? then
              io.save && r.value == Receipt(g, false) && r.world == Persist(Published(k, w, s, i, g), true, io).world
            else
              && r.value == NO_RECEIPT && Touches(w, r.world) && r.world.state.policy == w.state.policy
              && r.world.state.publishers == w.state.publishers && |r.world.slots| <= |w.slots| + 1
              && (forall j :: 0 <= j < |w.slots| ==> r.world.slots[j].state == w.slots[j].state)
              && (forall j :: |w.slots| <= j < |r.world.slots| ==> Holds(r.world.slots[j], HeaderOf(s).domain, KindOf(s)))
  {
    hide ValidPolicy, Filled, RolledBack, Touches;
    if !io.save {
      FailedFrame(k, w, s, i, g, io);
    }
  }

  lemma FailedFrame(k: Digests, w: World, s: Snapshot, i: nat, g: u64, io: Io)
    requires i < |w.state.publishers| && !io.save
    ensures var v := Occupy(k, w, s, i, g, io).world;
            && Touches(w, v) && v.state.policy == w.state.policy
            && v.state.publishers == w.state.publishers && |v.slots| <= |w.slots| + 1
            && (forall j :: 0 <= j < |w.slots| ==> v.slots[j].state == w.slots[j].state)
            && (forall j :: |w.slots| <= j < |v.slots| ==> Holds(v.slots[j], HeaderOf(s).domain, KindOf(s)))
  {
    hide ValidPolicy, Filled;
    var p := w.state.publishers[i];
    assert w.state.publishers[i := p.(lastSequence := ProvenanceOf(s).sequence)][i := p] == w.state.publishers;
    UndoneSlots(k, w.slots, s, g);
    hide SlotsEvolve, Ensured;
  }

  /** What the slot table is after a rolled-back publication. */
  lemma UndoneSlots(k: Digests, slots: seq<Slot>, s: Snapshot, g: u64)
    ensures var (ensured, at) := Ensured(slots, HeaderOf(s).domain, KindOf(s));
            var filled := Filled(k, slots, s, g);
            var undone := filled[at := Slot(if ensured == slots then ensured[at].state else filled[at].state, None)];
            && SlotsEvolve(slots, undone) && |undone| <= |slots| + 1
            && (forall j :: 0 <= j < |slots| ==> undone[j].state == slots[j].state)
            && forall j :: |slots| <= j < |undone| ==> Holds(undone[j], HeaderOf(s).domain, KindOf(s))
  {
    hide Bound;
    var (ensured, at) := Ensured(slots, HeaderOf(s).domain, KindOf(s));
    var filled := Filled(k, slots, s, g);
    EnsuredSlots(slots, HeaderOf(s).domain, KindOf(s));
    if UniqueSlots(slots) {
      UpdatedSlots(ensured, at, Slot(if ensured == slots then ensured[at].state else filled[at].state, None));
      assert filled[at := Slot(if ensured == slots then ensured[at].state else filled[at].state, None)]
             == ensured[at := Slot(if ensured == slots then ensured[at].state else filled[at].state, None)];
    }
    hide UniqueSlots, Occupied;
  }

  // -------------------------------------------------------------- evaluation

  /** Appending and compacting change the journal and the audit tail only. */
  predicate SameRuntime(v: World, w: World) {
    v == w.(disk := w.disk.(journal := v.disk.journal), state := w.state.(audit := v.state.audit), dirty := v.dirty)
  }

  lemma AppendKeeps(w: World, r: AuditRecord, io: Io)
    ensures SameRuntime(Append(w, r, io).world, w) && SameRuntime(Compact(w, io).world, w)
  {
    hide FrameFits;
  }

  lemma AppendJournalKeeps(w: World, r: AuditRecord, io: Io)
    ensures SameRuntime(AppendJournal(w, r, io).world, w)
  {
    AppendKeeps(w, r, io);
    AppendKeeps(Compact(w, io).world, r, io);
    hide Append, Compact;
  }

  /** An evaluation: what it tries to append, and what it leaves when that succeeds. */
  lemma EvaluateFrame(k: Digests, w: World, domain: u64, requested: u64, cancelled: bool, wall: u64, io: Io)
    ensures var v := EvaluateDomain(k, w, domain, requested, cancelled, wall, io).world;
            var tick := EvaluationTick(w, requested);
            var w1 := w.(clock := tick);
            var (d, a) := DecideFor(k, w1, domain, tick);
            match Attempt(k, w, domain, requested, cancelled, wall)
            case None => v == w1 || v == w
            case Some(r) =>
              var appended := AppendJournal(w1, r, io);
              v == if appended.status.Success? then Persist(Accepted(appended.world, domain, d, a), false, io).world
                   else appended.world
  {
    hide DecideFor, RecordFor, AppendJournal, Persist, Accepted;
  }

  /** A decision is handed out only after its record was appended, and it is the decision that was made. */
  lemma EvaluateReply(k: Digests, w: World, domain: u64, requested: u64, cancelled: bool, wall: u64, io: Io)
    ensures var r := EvaluateDomain(k, w, domain, requested, cancelled, wall, io);
            var tick := EvaluationTick(w, requested);
            var w1 := w.(clock := tick);
            var attempt := Attempt(k, w, domain, requested, cancelled, wall);
            r.value.Some? ==>
              && attempt.Some? && AppendJournal(w1, attempt.value, io).status.Success?
              && r.value.value == DecideFor(k, w1, domain, tick).0
  {
    hide DecideFor, RecordFor, AppendJournal, Persist, Accepted;
  }

  /** The record an evaluation tries to append, if it gets that far. */
  function Attempt(k: Digests, w: World, domain: u64, requested: u64, cancelled: bool, wall: u64): Option<AuditRecord> {
    var tick := EvaluationTick(w, requested);
    var w1 := w.(clock := tick);
    var (d, a) := DecideFor(k, w1, domain, tick);
    if domain == 0 || cancelled then None
    else if DomainIndex(w.state.domains, domain).None? && |w.state.domains| >= MAX_DOMAINS_STATE then None
    else Some(RecordFor(k, w1, domain, d, a, wall))
  }

  lemma SettledSame(w: World, v: World, domain: u64, d: Decision, a: Announcement)
    requires v.state.policy == w.state.policy && v.state.epoch == w.state.epoch && v.slots == w.slots
    ensures Settled(v, domain, d, a) == Settled(w, domain, d, a)
  {
  }

  lemma SettledDomain(k: Digests, w: World, domain: u64, tick: u64)
    ensures var (d, a) := DecideFor(k, w, domain, tick); Settled(w, domain, d, a).domain == domain
  {
    hide CurrentEvaluation, CurrentExpectation;
  }
}
