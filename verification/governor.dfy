/** The governor object (src/governor.cpp): methods that update it in place, each proved to do to the
    whole runtime exactly what the corresponding function of `Governing` says. */
module GovernorRuntime {
  import opened Checked
  import opened Wire
  import opened Model
  import opened PolicyRules
  import opened Engine
  import opened EvidenceRules
  import opened HysteresisRules
  import opened Replay
  import opened Conservation
  import opened EvaluateDomainLoops
  import G = Governing

  /** The severity cascade of an evaluation, with the working state updated step by step. */
  method SettleInPlace(h: Hysteresis, previous: DomainState, e: Signal) returns (working: DomainState, effective: Outcome)
    ensures Announcement(working, effective) == Settle(h, previous, e)
  {
    working := previous;
    effective := e.raw;
    var raw, sticky := Severity(e.raw), Severity(working.sticky);
    if raw >= 2 {
      if raw > sticky {
        working := working.(lastEscalationTick := e.tick);
      }
      working := working.(sticky := e.raw, confirmations := 0);
    } else if raw == 1 {
      if sticky >= 2 {
        effective := working.sticky;
        working := working.(confirmations := 0);
      } else {
        if !working.sticky.AtLimit? {
          working := working.(sticky := AtLimit, confirmations := 0);
        }
        working := working.(confirmations := Confirm(working.confirmations));
        effective := if working.confirmations >= h.escalationConfirmations then AtLimit else WithinPolicy;
      }
    } else if sticky == 0 {
      working := working.(sticky := e.raw, confirmations := 0);
    } else {
      var used := if e.used < PPM_SCALE then e.used else PPM_SCALE;
      var marginOk := used + h.deescalationMarginPpm <= PPM_SCALE;
      var cooldownOk := e.tick >= working.lastEscalationTick && e.tick - working.lastEscalationTick >= h.cooldownTicks;
      if !marginOk || !cooldownOk {
        working := working.(confirmations := 0);
        effective := working.sticky;
      } else {
        working := working.(confirmations := Confirm(working.confirmations));
        if working.confirmations >= h.deescalationConfirmations {
          working := working.(sticky := e.raw, confirmations := 0);
        } else {
          effective := working.sticky;
        }
      }
    }
  }

  lemma CommitKeeps(w: G.World, io: G.Io)
    ensures var c := G.Commit(w, io).world;
            c.slots == w.slots && c.state.publishers == w.state.publishers
  {
  }

  class Governor {
    const options: G.Options
    const digests: G.Digests
    var accepting: bool
    var state: DurableState
    var slots: seq<G.Slot>
    var clock: u64
    var sinceSave: u64
    var dirty: bool
    var disk: G.Disk

    function World(): G.World
      reads this
    {
      G.World(options, accepting, state, slots, clock, sinceSave, dirty, disk)
    }

    /** open() on an empty directory, with an accepted initial policy. */
    constructor Fresh(digests: G.Digests, options: G.Options, policy: Policy)
      requires ValidPolicy(G.InitialPolicy(digests, policy))
      ensures World() == G.Fresh(digests, options, policy)
      ensures this.digests == digests
    {
      var w := G.Fresh(digests, options, policy);
      this.digests := digests;
      this.options := options;
      accepting, state, slots, clock := w.accepting, w.state, w.slots, w.clock;
      sinceSave, dirty, disk := w.sinceSave, w.dirty, w.disk;
    }

    // --------------------------------------------------------- persistence

    method SyncEvidence()
      modifies this`state
      ensures state == old(state).(evidence := G.SlotStates(slots))
    {
      var evidence: seq<SlotState> := [];
      for i := 0 to |slots|
        modifies {}
        invariant evidence == G.SlotStates(slots[..i])
      {
        evidence := evidence + [slots[i].state];
        assert slots[..i + 1][..i] == slots[..i];
      }
      assert slots[..|slots|] == slots;
      state := state.(evidence := evidence);
    }

    method Persist(force: bool, io: G.Io) returns (status: Status)
      modifies this`state, this`sinceSave, this`dirty, this`disk
      ensures var r := G.Persist(old(World()), force, io); World() == r.world && status == r.status
    {
      if !force && !dirty {
        return Success;
      }
      if !force && sinceSave < options.saveEvery {
        return Success;
      }
      SyncEvidence();
      state := state.(tick := clock, revision := G.Next(state.revision));
      if !io.save {
        return G.FAILED_WRITE;
      }
      disk := disk.(saved := state);
      sinceSave := 0;
      dirty := false;
      return Success;
    }

    method Commit(io: G.Io) returns (status: Status)
      modifies this`state, this`sinceSave, this`dirty, this`disk
      ensures var r := G.Commit(old(World()), io); World() == r.world && status == r.status
    {
      dirty := true;
      status := Persist(true, io);
    }

    method Save(io: G.Io) returns (status: Status)
      modifies this`state, this`sinceSave, this`dirty, this`disk
      ensures var r := G.Persist(old(World()), true, io); World() == r.world && status == r.status
    {
      status := Persist(true, io);
    }

    method Shutdown(io: G.Io) returns (status: Status)
      modifies this`accepting, this`state, this`sinceSave, this`dirty, this`disk
      ensures var r := G.Persist(old(World()).(accepting := false), true, io); World() == r.world && status == r.status
    {
      accepting := false;
      status := Persist(true, io);
    }

    // ------------------------------------------------------------- journal

    method AppendAudit(r: AuditRecord, io: G.Io) returns (status: Status)
      modifies this`disk
      ensures var a := G.Append(old(World()), r, io); World() == a.world && status == a.status
    {
      if G.JournalSize(disk.journal) + G.FrameSize(r) > options.maxJournalBytes
         || |disk.journal| + 1 > options.maxJournalRecords {
        return Failure(Overflow, PERSISTENCE_TOO_LARGE);
      }
      if !io.append {
        return G.FAILED_WRITE;
      }
      disk := disk.(journal := disk.journal + [r]);
      return Success;
    }

    /** Compaction rewrites the journal with the newest records, up to the first one that does not fit. */
    method CompactJournal(io: G.Io) returns (status: Status)
      modifies this`disk, this`state, this`dirty
      ensures var c := G.Compact(old(World()), io); World() == c.world && status == c.status
    {
      var keep := if options.compactionRecords < options.maxJournalRecords then options.compactionRecords
                  else options.maxJournalRecords;
      var begin := if |state.audit| > keep then |state.audit| - keep else 0;
      var rebuilt := RebuiltJournal(state.audit[begin..]);
      assert state.audit[begin..] == G.Newest(state.audit, keep);
      if !io.compact {
        return G.FAILED_WRITE;
      }
      disk := disk.(journal := rebuilt);
      state := state.(audit := state.audit[begin..]);
      dirty := true;
      return Success;
    }

    method RebuiltJournal(newest: seq<AuditRecord>) returns (rebuilt: seq<AuditRecord>)
      ensures rebuilt == G.FittingFrom(newest, 0, options.maxJournalBytes)
    {
      assert newest[..0] == [] && newest[0..] == newest;
      assert G.KeptFrom(newest, 0, 0, options.maxJournalBytes) == G.FittingFrom(newest, 0, options.maxJournalBytes);
      hide G.FittingFrom, G.FrameSize, G.KeptFrom;
      rebuilt := [];
      var size: nat := 0;
      var i := 0;
      while i < |newest|
        invariant 0 <= i <= |newest| && rebuilt == newest[..i]
        invariant G.KeptFrom(newest, i, size, options.maxJournalBytes) == G.KeptFrom(newest, 0, 0, options.maxJournalBytes)
      {
        G.KeptStep(newest, i, size, options.maxJournalBytes);
        if size + G.FrameSize(newest[i]) > options.maxJournalBytes {
          return;
        }
        size := size + G.FrameSize(newest[i]);
        rebuilt := rebuilt + [newest[i]];
        i := i + 1;
      }
      G.KeptStep(newest, i, size, options.maxJournalBytes);
    }

    method AppendJournal(r: AuditRecord, io: G.Io) returns (status: Status)
      modifies this`disk, this`state, this`dirty
      ensures var a := G.AppendJournal(old(World()), r, io); World() == a.world && status == a.status
    {
      status := AppendAudit(r, io);
      if status == Failure(Overflow, PERSISTENCE_TOO_LARGE) {
        status := CompactJournal(io);
        if !status.Success? {
          return;
        }
        status := AppendAudit(r, io);
      }
      if !status.Success? {
        return;
      }
      state := state.(audit := state.audit + [r]);
      if |state.audit| > options.maxAuditRecords {
        var excess := |state.audit| - options.maxAuditRecords;
        state := state.(audit := state.audit[excess..]);
      }
    }

    // --------------------------------------------------------------- slots

    method FindSlot(domain: u64, kind: EvidenceKind) returns (at: Option<nat>)
      ensures at == G.SlotIndex(slots, domain, kind)
    {
      for i := 0 to |slots|
        invariant G.SlotIndex(slots[..i], domain, kind) == None
      {
        assert slots[..i + 1][..i] == slots[..i];
        if G.Holds(slots[i], domain, kind) {
          FirstHeld(i, domain, kind);
          return Some(i);
        }
      }
      assert slots[..|slots|] == slots;
      return None;
    }

    lemma FirstHeld(i: nat, domain: u64, kind: EvidenceKind)
      requires i < |slots| && G.Holds(slots[i], domain, kind)
      requires G.SlotIndex(slots[..i], domain, kind) == None
      ensures G.SlotIndex(slots, domain, kind) == Some(i)
    {
      forall j | 0 <= j < i ensures !G.Holds(slots[j], domain, kind) {
        assert slots[..i][j] == slots[j];
      }
    }

    method EnsureSlot(domain: u64, kind: EvidenceKind) returns (at: nat)
      modifies this`slots
      ensures (slots, at) == G.Ensured(old(slots), domain, kind)
    {
      var found := FindSlot(domain, kind);
      if found.Some? {
        return found.value;
      }
      slots := slots + [G.EmptySlot(domain, kind)];
      return |slots| - 1;
    }

    method DropEvidenceContent()
      modifies this`slots
      ensures slots == G.DropContents(old(slots))
    {
      for i := 0 to |slots|
        modifies this`slots
        invariant |slots| == |old(slots)|
        invariant forall j :: 0 <= j < i ==> slots[j] == G.DropContents(old(slots))[j]
        invariant forall j :: i <= j < |slots| ==> slots[j] == old(slots)[j]
      {
        slots := slots[i := G.Slot(slots[i].state.(revalidationRequired := true), None)];
      }
    }

    method FlagSlotsOf(publisher: u64)
      modifies this`slots
      ensures slots == G.RequireRevalidation(old(slots), publisher)
    {
      ghost var flagged := G.RequireRevalidation(slots, publisher);
      for i := 0 to |slots|
        modifies this`slots
        invariant |slots| == |flagged|
        invariant forall j :: 0 <= j < i ==> slots[j] == flagged[j]
        invariant forall j :: i <= j < |slots| ==> slots[j] == old(slots)[j]
      {
        if slots[i].state.publisher == publisher {
          slots := slots[i := slots[i].(state := slots[i].state.(revalidationRequired := true))];
        }
      }
    }

    // ------------------------------------------------- policy, epoch, clock

    method ObserveGiven(tick: u64)
      modifies this`clock
      ensures World() == G.ObserveGiven(old(World()), tick)
    {
      if tick != 0 && tick > clock {
        clock := tick;
      }
    }

    method InstallPolicy(policy: Policy, tick: u64, io: G.Io) returns (status: Status)
      modifies this
      ensures var r := G.InstallPolicy(digests, old(World()), policy, tick, io); World() == r.world && status == r.status
    {
      hide ValidPolicy;
      if !accepting {
        return G.CLOSING;
      }
      ObserveGiven(tick);
      var next := BuildPolicy(policy);
      if next.generation == 0 {
        return Failure(Overflow, ARITHMETIC_OVERFLOW);
      }
      if state.policy.generation != 0 && G.ContentDigest(digests, state.policy) == G.ContentDigest(digests, next) {
        return Success;
      }
      if !ValidPolicy(next) {
        return Failure(InvalidArgument, INVALID_FIELD);
      }
      DropEvidenceContent();
      state := state.(policy := next, policyGeneration := next.generation, policyDigest := next.digest);
      status := Commit(io);
    }

    /** The next policy: identities and generations are assigned, then the digest is computed. */
    method BuildPolicy(policy: Policy) returns (next: Policy)
      ensures next == G.NextPolicy(digests, state.policy, policy)
    {
      var domains := policy.domains;
      for i := 0 to |domains|
        invariant |domains| == |policy.domains|
        invariant forall j :: 0 <= j < i ==> domains[j] == G.NextDomain(digests, state.policy, policy.domains[j])
        invariant forall j :: i <= j < |domains| ==> domains[j] == policy.domains[j]
      {
        var d := domains[i];
        var previous := FindDomain(state.policy.domains, d.id);
        if previous.Some? {
          if digests.domain(previous.value) == digests.domain(d) {
            d := d.(generation := previous.value.generation);
          } else if G.Next(previous.value.generation) > d.generation {
            d := d.(generation := G.Next(previous.value.generation));
          }
        }
        if d.generation == 0 {
          d := d.(generation := 1);
        }
        domains := domains[i := d];
      }
      assert domains == G.NextDomains(digests, state.policy, policy.domains);
      next := policy.(generation := if state.policy.generation != 0 then G.Next(state.policy.generation) else 1,
                      domains := domains);
      if next.id == 0 {
        next := next.(id := if state.policy.id != 0 then state.policy.id else 1);
      }
      next := next.(digest := digests.policy(next));
    }

    method AdvanceEpoch(next: u64, io: G.Io) returns (status: Status)
      modifies this
      ensures var r := G.AdvanceEpoch(old(World()), next, io); World() == r.world && status == r.status
    {
      if next == 0 || next <= state.epoch {
        return Failure(InvalidArgument, EPOCH_NOT_ADVANCED);
      }
      state := state.(epoch := next);
      DropEvidenceContent();
      FencePublishers();
      FenceDomains(next);
      status := Commit(io);
    }

    method FencePublishers()
      modifies this`state
      ensures state == old(state).(publishers := G.FenceAll(old(state).publishers))
    {
      var ps := state.publishers;
      ghost var fenced := G.FenceAll(ps);
      for i := 0 to |ps|
        modifies {}
        invariant |ps| == |state.publishers|
        invariant forall j :: 0 <= j < i ==> ps[j] == fenced[j]
        invariant forall j :: i <= j < |ps| ==> ps[j] == state.publishers[j]
      {
        ps := ps[i := ps[i].(fenced := true, fenceReason := EPOCH_NOT_ADVANCED)];
      }
      state := state.(publishers := ps);
    }

    method FenceDomains(epoch: u64)
      modifies this`state
      ensures state == old(state).(domains := G.FenceForEpoch(old(state).domains, epoch))
    {
      var ds := state.domains;
      ghost var fenced := G.FenceForEpoch(ds, epoch);
      for i := 0 to |ds|
        modifies {}
        invariant |ds| == |state.domains|
        invariant forall j :: 0 <= j < i ==> ds[j] == fenced[j]
        invariant forall j :: i <= j < |ds| ==> ds[j] == state.domains[j]
      {
        ds := ds[i := ds[i].(fenced := true, fenceReason := EPOCH_MISMATCH, fenceEpoch := epoch, sticky := Stale)];
      }
      state := state.(domains := ds);
    }

    method AdvanceTick(delta: u64) returns (status: Status)
      modifies this`clock, this`state, this`dirty
      ensures var r := G.AdvanceTick(old(World()), delta); World() == r.world && status == r.status
    {
      var next := AddChecked(clock, delta);
      if next.None? {
        return Failure(Overflow, ARITHMETIC_OVERFLOW);
      }
      clock := next.value;
      state := state.(tick := clock);
      dirty := true;
      return Success;
    }

    // ---------------------------------------------------------- publishers

    method FindPublisher(id: u64) returns (at: Option<nat>)
      ensures at == G.PublisherIndex(state.publishers, id)
    {
      var ps := state.publishers;
      for i := 0 to |ps|
        invariant G.PublisherIndex(ps[..i], id) == None
      {
        assert ps[..i + 1][..i] == ps[..i];
        if ps[i].publisher == id {
          forall j | 0 <= j < i ensures ps[j].publisher != id {
            assert ps[..i][j] == ps[j];
          }
          return Some(i);
        }
      }
      assert ps[..|ps|] == ps;
      return None;
    }

    method SetPublisher(i: nat, p: Publisher)
      requires i < |state.publishers|
      modifies this`state
      ensures World() == G.WithPublisher(old(World()), i, p)
    {
      state := state.(publishers := state.publishers[i := p]);
    }

    method RegisterPublisher(publisher: u64, incarnation: u64, epoch: u64, tick: u64, io: G.Io) returns (status: Status)
      modifies this
      ensures var r := G.Register(old(World()), publisher, incarnation, epoch, tick, io);
              World() == r.world && status == r.status
    {
      if !accepting {
        return G.CLOSING;
      }
      if publisher == 0 || incarnation == 0 {
        return Failure(InvalidArgument, INVALID_IDENTITY);
      }
      if epoch == 0 || epoch != state.epoch {
        return Failure(StaleInput, EPOCH_MISMATCH);
      }
      ObserveGiven(tick);
      var found := FindPublisher(publisher);
      if found.Some? {
        var p := state.publishers[found.value];
        if p.incarnation != incarnation {
          return Failure(FencedOff, PUBLISHER_INCARNATION_STALE);
        }
        if !p.fenced {
          return Success;
        }
        SetPublisher(found.value, G.Renewed(p, incarnation, epoch, clock));
      } else {
        if |state.publishers| >= MAX_PUBLISHERS {
          return Failure(OutOfRange, LIMIT_EXCEEDED);
        }
        var p := Publisher(publisher, incarnation, epoch, 0, false, NO_REASON, clock);
        state := state.(publishers := state.publishers + [p]);
      }
      status := Commit(io);
    }

    method AdoptIncarnation(publisher: u64, incarnation: u64, epoch: u64, tick: u64, io: G.Io) returns (status: Status)
      modifies this
      ensures var r := G.Adopt(old(World()), publisher, incarnation, epoch, tick, io);
              World() == r.world && status == r.status
    {
      if !accepting {
        return G.CLOSING;
      }
      if publisher == 0 || incarnation == 0 || epoch == 0 {
        return Failure(InvalidArgument, INVALID_IDENTITY);
      }
      if epoch != state.epoch {
        return Failure(StaleInput, EPOCH_MISMATCH);
      }
      ObserveGiven(tick);
      var found := FindPublisher(publisher);
      if found.None? {
        return Failure(NotFound, PUBLISHER_NOT_REGISTERED);
      }
      var p := state.publishers[found.value];
      if p.incarnation == incarnation && !p.fenced && p.epoch == epoch {
        return Success;
      }
      SetPublisher(found.value, G.Renewed(p, incarnation, epoch, clock));
      FlagSlotsOf(publisher);
      status := Commit(io);
    }

    method FencePublisher(publisher: u64, reason: Reason, io: G.Io) returns (status: Status)
      modifies this
      ensures var r := G.FencePublisher(old(World()), publisher, reason, io); World() == r.world && status == r.status
    {
      var found := FindPublisher(publisher);
      if found.None? {
        return Failure(NotFound, PUBLISHER_NOT_REGISTERED);
      }
      SetPublisher(found.value, state.publishers[found.value].(fenced := true, fenceReason := reason));
      status := Commit(io);
    }

    // ------------------------------------------------------------ evidence

    method CheckPublisher(s: Snapshot) returns (status: Status, at: nat)
      ensures status == G.PublisherFault(World(), s)
      ensures status.Success? ==> G.PublisherIndex(state.publishers, ProvenanceOf(s).publisher) == Some(at)
    {
      at := 0;
      var from := ProvenanceOf(s);
      if !accepting {
        return G.CLOSING, 0;
      }
      if FindDomain(state.policy.domains, HeaderOf(s).domain).None? {
        return Failure(NotFound, DOMAIN_NOT_IN_POLICY), 0;
      }
      if HeaderOf(s).epoch != state.epoch {
        return Failure(StaleInput, EPOCH_MISMATCH), 0;
      }
      var found := FindPublisher(from.publisher);
      if found.None? {
        return Failure(Denied, PUBLISHER_NOT_REGISTERED), 0;
      }
      at := found.value;
      var p := state.publishers[at];
      if p.fenced {
        status := Failure(FencedOff, PUBLISHER_FENCED);
      } else if p.epoch != state.epoch {
        status := Failure(StaleInput, WORKER_EPOCH_STALE);
      } else if p.incarnation != from.incarnation {
        status := Failure(FencedOff, PUBLISHER_INCARNATION_STALE);
      } else if from.sequence == 0 {
        status := Failure(InvalidArgument, INVALID_FIELD);
      } else {
        status := Success;
      }
    }

    /** Takes the ensured slot, saves, and rolls back what can be rolled back when the save fails. */
    method OccupySlot(s: Snapshot, publisher: nat, at: nat, existed: bool, generation: u64, io: G.Io,
                      ghost before: G.World)
      returns (status: Status, receipt: G.Receipt)
      requires publisher < |state.publishers| && before.options == options
      requires (slots, at) == G.Ensured(before.slots, HeaderOf(s).domain, KindOf(s))
      requires World() == before.(slots := slots) && existed == (slots == before.slots)
      modifies this
      ensures var r := G.Occupy(digests, before, s, publisher, generation, io);
              World() == r.world && status == r.status && receipt == r.value
    {
      hide G.Filled, G.RolledBack, G.Ensured, G.Commit;
      var last, slot := state.publishers[publisher].lastSequence, slots[at].state;
      TakeSlot(s, publisher, at, generation, before);
      CommitKeeps(World(), io);
      status := Commit(io);
      if status.Success? {
        return status, G.Receipt(generation, false);
      }
      RollBack(at, existed, slot, publisher, last);
      receipt := G.NO_RECEIPT;
    }

    method TakeSlot(s: Snapshot, publisher: nat, at: nat, generation: u64, ghost before: G.World)
      requires publisher < |state.publishers|
      requires (slots, at) == G.Ensured(before.slots, HeaderOf(s).domain, KindOf(s))
      requires World() == before.(slots := slots)
      modifies this`slots, this`state
      ensures |slots| == |old(slots)|
      ensures World() == G.WithPublisher(before, publisher,
                           before.state.publishers[publisher].(lastSequence := ProvenanceOf(s).sequence))
                         .(slots := G.Filled(digests, before.slots, s, generation))
    {
      SetPublisher(publisher, state.publishers[publisher].(lastSequence := ProvenanceOf(s).sequence));
      var taken := G.Occupied(slots[at].state, s, generation, ProvenanceOf(s).payloadDigest);
      slots := slots[at := G.Slot(taken, Some(G.Bound(digests, s, generation)))];
    }

    method RollBack(at: nat, existed: bool, before: SlotState, publisher: nat, last: u64)
      requires at < |slots| && publisher < |state.publishers|
      modifies this`slots, this`state
      ensures World() == G.RolledBack(old(World()), at, existed, before, publisher, last)
    {
      slots := slots[at := G.Slot(if existed then before else slots[at].state, None)];
      SetPublisher(publisher, state.publishers[publisher].(lastSequence := last));
    }

    method Publish(snapshot: Snapshot, io: G.Io) returns (status: Status, receipt: G.Receipt)
      modifies this
      ensures var r := G.Publish(digests, old(World()), snapshot, io);
              World() == r.world && status == r.status && receipt == r.value
    {
      hide ValidSnapshot, G.Occupy, G.PublisherFault, G.Rule;
      receipt := G.NO_RECEIPT;
      var s := G.Digested(digests, snapshot);
      if !ValidSnapshot(digests.hash, s) {
        return Failure(InvalidArgument, INVALID_FIELD), receipt;
      }
      var publisher;
      status, publisher := CheckPublisher(s);
      if !status.Success? {
        return;
      }
      ghost var before := World();
      var found := FindSlot(HeaderOf(s).domain, KindOf(s));
      var at := EnsureSlot(HeaderOf(s).domain, KindOf(s));
      var last := state.publishers[publisher].lastSequence;
      var ruling := G.Rule(options, slots[at].state, last, s, ProvenanceOf(s).payloadDigest);
      match ruling
      case Refused(refusal) => return refusal, receipt;
      case AlreadyPublished => return Success, G.Receipt(slots[at].state.generation, true);
      case Accept(generation) =>
        status, receipt := OccupySlot(s, publisher, at, found.Some?, generation, io, before);
    }

    // ---------------------------------------------------------- evaluation

    method FindDomainState(id: u64) returns (at: Option<nat>)
      ensures at == DomainIndex(state.domains, id)
    {
      var ds := state.domains;
      for i := 0 to |ds|
        invariant DomainIndex(ds[..i], id) == None
      {
        assert ds[..i + 1][..i] == ds[..i];
        if ds[i].domain == id {
          forall j | 0 <= j < i ensures ds[j].domain != id {
            assert ds[..i][j] == ds[j];
          }
          return Some(i);
        }
      }
      assert ds[..|ds|] == ds;
      return None;
    }

    /** What the runtime holds about a domain: the generations it expects and the evidence present. */
    method Gather(domain: u64, config: Option<DomainConfig>) returns (x: Expectation, e: Evidence)
      requires config == FindDomain(state.policy.domains, domain)
      ensures x == G.CurrentExpectation(World(), domain) && e == G.CurrentEvidence(World(), domain)
    {
      var capacity := FindSlot(domain, Capacity);
      var reservation := FindSlot(domain, Reservation);
      var admission := FindSlot(domain, Admission);
      x := Expectation(state.epoch, state.policy.generation, if config.Some? then config.value.generation else 0,
                       if capacity.Some? then slots[capacity.value].state.generation else 0,
                       if reservation.Some? then slots[reservation.value].state.generation else 0,
                       if admission.Some? then slots[admission.value].state.generation else 0,
                       state.policy.riskBudget.generation);
      e := Evidence(G.AsCapacity(if capacity.Some? then slots[capacity.value].content else None),
                    G.AsReservation(if reservation.Some? then slots[reservation.value].content else None),
                    G.AsAdmission(if admission.Some? then slots[admission.value].content else None));
    }

    /** The evaluation, the hysteresis, the fence and the decision, nothing of it durable yet. */
    method Decide(domain: u64) returns (decision: G.Decision, working: DomainState, previous: Option<nat>)
      requires ValidPolicy(state.policy)
      ensures var (d, a) := G.DecideFor(digests, World(), domain, clock);
              decision == d && Announcement(working, decision.effective) == a
      ensures previous == DomainIndex(state.domains, domain)
    {
      hide ValidPolicy, Evaluate, Settle, G.CurrentExpectation, G.CurrentEvidence;
      var config := FindDomain(state.policy.domains, domain);
      var x, e := Gather(domain, config);
      var evaluation := G.Uncovered(state.policy, x, domain);
      if config.Some? {
        ValidPolicyIsSound(state.policy, config.value);
        var views;
        evaluation, views := EvaluateDomain(state.policy, config.value, x, e, clock);
      }
      assert evaluation == G.CurrentEvaluation(World(), domain, clock);
      previous := FindDomainState(domain);
      var raw := evaluation.assessment.verdict.outcome;
      if previous.Some? {
        working := state.domains[previous.value];
      } else {
        GatherGeneration(domain, config);
        working := FreshDomain(domain, if config.Some? then config.value.generation else 0)
          .(sticky := raw, lastRaw := raw);
      }
      assert working == G.WorkingState(World(), domain, raw);
      var wasFenced := working.fenced;
      var effective;
      working, effective := SettleInPlace(state.policy.hysteresis, working, G.SignalOf(evaluation, clock));
      working := working.(lastRaw := raw, fenced := FenceWorthy(effective) || (wasFenced && !Authoritative(effective)));
      var authorized := effective.WithinPolicy? && evaluation.authorized;
      decision := G.Decision(G.Next(state.decisionsIssued), evaluation, raw, effective, authorized,
                             if authorized then evaluation.increment else 0, working.fenced, working.confirmations,
                             clock, state.incarnation, state.epoch, ZeroDigest());
      decision := decision.(digest := digests.decision(decision));
    }

    lemma GatherGeneration(domain: u64, config: Option<DomainConfig>)
      requires config == FindDomain(state.policy.domains, domain)
      ensures G.CurrentExpectation(World(), domain).domainGeneration
              == if config.Some? then config.value.generation else 0
    {
    }

    /** evaluate_locked(): decide, make the audit record durable, then and only then change the runtime.
        The policy in force is valid in every reachable state (Binding.EveryRunIsSound). */
    method EvaluateLocked(domain: u64, requested: u64, cancelled: bool, wall: u64, io: G.Io)
      returns (status: Status, decision: Option<G.Decision>)
      requires ValidPolicy(state.policy)
      modifies this
      ensures var r := G.EvaluateDomain(digests, old(World()), domain, requested, cancelled, wall, io);
              World() == r.world && status == r.status && decision == r.value
    {
      hide ValidPolicy, G.DecideFor, G.RecordFor, G.AppendJournal, G.Persist, G.Settled;
      decision := None;
      if domain == 0 {
        return Failure(InvalidArgument, INVALID_IDENTITY), None;
      }
      clock := G.Observe(clock, requested);
      ghost var decided := World();
      var d, working, previous := Decide(domain);
      if cancelled {
        return Failure(Cancelled, DECISION_CANCELLED), None;
      }
      if previous.None? && |state.domains| >= MAX_DOMAINS_STATE {
        return Failure(OutOfRange, LIMIT_EXCEEDED), None;
      }
      var a := Announcement(working, d.effective);
      var r := G.RecordFor(digests, World(), domain, d, a, wall);
      status := AppendJournal(r, io);
      if !status.Success? {
        return;
      }
      ghost var appended := World();
      EnterState(domain, d, a, appended);
      sinceSave := G.Next(sinceSave);
      dirty := true;
      assert World() == G.Accepted(appended, domain, d, a);
      status := Persist(false, io);
      if status.Success? {
        decision := Some(d);
      }
    }

    method EnterState(domain: u64, d: G.Decision, a: Announcement, ghost w: G.World)
      requires w == World()
      modifies this`state
      ensures state == G.Accepted(w, domain, d, a).state
    {
      var settled := G.Settled(World(), domain, d, a);
      var at := FindDomainState(settled.domain);
      var domains := if at.Some? then state.domains[at.value := settled] else state.domains + [settled];
      state := state.(domains := domains, decisionsIssued := d.id, tick := d.issuedTick);
    }

    // -------------------------------------------------------- revalidation

    method Revalidate(d: G.Decision) returns (reason: Reason)
      ensures reason == G.Revalidate(World(), d)
    {
      hide Complete, G.SlotFault, G.RuntimeFault;
      var a := d.evaluation.authority;
      if !Complete(a) || !d.evaluation.authorityValid {
        return DECISION_NOT_AUTHORITATIVE;
      }
      if d.incarnation != state.incarnation {
        return DECISION_STALE;
      }
      if d.epoch != state.epoch {
        return DECISION_EPOCH_MISMATCH;
      }
      if a.policyGeneration != state.policy.generation
         || a.riskBudgetGeneration != state.policy.riskBudget.generation {
        return DECISION_GENERATION_MISMATCH;
      }
      var config := FindDomain(state.policy.domains, a.domain);
      if config.None? || a.domainGeneration != config.value.generation {
        return DECISION_GENERATION_MISMATCH;
      }
      reason := CheckRuntime(a.domain, d.id);
      if reason != NO_REASON {
        return;
      }
      var checks := [(Capacity, a.capacityGeneration), (Reservation, a.reservationGeneration),
                     (Admission, a.admissionGeneration)];
      for i := 0 to 3
        invariant forall j :: 0 <= j < i ==> G.SlotFault(World(), a.domain, checks[j].0, checks[j].1) == NO_REASON
      {
        reason := CheckSlot(a.domain, checks[i].0, checks[i].1);
        if reason != NO_REASON {
          assert i == 0 || G.SlotFault(World(), a.domain, checks[0].0, checks[0].1) == NO_REASON;
          assert i < 2 || G.SlotFault(World(), a.domain, checks[1].0, checks[1].1) == NO_REASON;
          return;
        }
      }
      assert G.SlotFault(World(), a.domain, checks[0].0, checks[0].1) == NO_REASON;
      assert G.SlotFault(World(), a.domain, checks[1].0, checks[1].1) == NO_REASON;
      assert G.SlotFault(World(), a.domain, checks[2].0, checks[2].1) == NO_REASON;
      return NO_REASON;
    }

    method CheckRuntime(domain: u64, id: u64) returns (reason: Reason)
      ensures reason == G.RuntimeFault(state.domains, domain, id)
    {
      var at := FindDomainState(domain);
      if at.None? {
        return NO_REASON;
      }
      var s := state.domains[at.value];
      if s.fenced {
        return DECISION_ALREADY_FENCED;
      }
      return if s.lastDecision != 0 && s.lastDecision != id then DECISION_SUPERSEDED else NO_REASON;
    }

    method CheckSlot(domain: u64, kind: EvidenceKind, generation: u64) returns (reason: Reason)
      ensures reason == G.SlotFault(World(), domain, kind, generation)
      ensures reason == NO_REASON || reason == DECISION_STALE
    {
      var at := FindSlot(domain, kind);
      if at.None? {
        return DECISION_STALE;
      }
      var s := slots[at.value];
      return if s.content.None? || s.state.revalidationRequired || s.state.generation != generation
             then DECISION_STALE else NO_REASON;
    }

    // -------------------------------------------------- opening and recovery

    /** What the store loads: the saved state with the journal replayed over it. */
    method Load() returns (loaded: DurableState)
      ensures loaded == G.Load(options, disk)
    {
      hide Rebuild, G.Merge;
      loaded := disk.saved.(audit := G.Merge(disk.saved.audit, disk.journal, options.maxAuditRecords));
      if disk.journal != [] {
        var replayed := RebuildFromAudit(loaded, disk.journal);
        loaded := replayed.state;
      }
      loaded := loaded.(evidence := G.FlagAll(loaded.evidence), journalRecords := |disk.journal| % U64_LIMIT);
    }

    /** Evidence bookkeeping survives a restart; evidence content does not. */
    method RestoreSlots(evidence: seq<SlotState>)
      modifies this`slots
      ensures slots == G.EmptySlots(evidence)
    {
      slots := [];
      for i := 0 to |evidence|
        modifies this`slots
        invariant |slots| == i && forall j :: 0 <= j < i ==> slots[j] == G.EmptySlots(evidence)[j]
      {
        slots := slots + [G.Slot(evidence[i].(revalidationRequired := true), None)];
      }
    }

    /** A crash and an open(): load, take the next incarnation, require all evidence again. A state that does
        not load, or whose incarnation cannot advance, is refused and nothing changes. */
    method Reopen() returns (ok: bool)
      modifies this
      ensures ok == G.Reopens(old(World()))
      ensures World() == if ok then G.Reopened(old(World())) else old(World())
    {
      hide G.Load, G.Persist, G.Readable;
      if !G.Readable(disk.saved) {
        return false;
      }
      var loaded := Load();
      if loaded.incarnation == U64_LIMIT - 1 {
        return false;
      }
      state := loaded.(incarnation := G.Next(loaded.incarnation));
      if state.epoch == 0 {
        state := state.(epoch := 1);
      }
      accepting := true;
      clock := state.tick;
      sinceSave := 0;
      RestoreSlots(loaded.evidence);
      var saved := Commit(G.Io(true, true, true));
      ok := true;
    }
  }
}
