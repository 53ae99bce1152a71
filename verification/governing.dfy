/** What each operation of the governor does to its whole state (src/governor.cpp), as functions.

    A world is one open runtime with the durable storage below it. Storage either accepts a write
    whole or refuses it; `Io` says which writes of an operation are accepted. Wall-clock time and the
    digest functions are parameters. */
module Governing {
  import opened Checked
  import opened Wire
  import opened Model
  import opened PolicyRules
  import opened Engine
  import opened EvidenceRules
  import opened HysteresisRules
  import opened Replay

  // ----------------------------------------------------------------- state

  datatype Options = Options(
    compactionRecords: u64, saveEvery: u64, autoAssign: bool, maxJournalBytes: u64, maxJournalRecords: u64,
    maxAuditRecords: u32)

  /** One evidence slot: its durable bookkeeping and, until it is dropped, the published content. */
  datatype Slot = Slot(state: SlotState, content: Option<Snapshot>)

  /** What survives a crash. */
  datatype Disk = Disk(saved: DurableState, journal: seq<AuditRecord>)

  datatype World = World(
    options: Options, accepting: bool, state: DurableState, slots: seq<Slot>, clock: u64, sinceSave: u64,
    dirty: bool, disk: Disk)

  /** The storage writes of one operation that are accepted. */
  datatype Io = Io(append: bool, compact: bool, save: bool)

  /** The digest functions, left abstract. */
  datatype Digests = Digests(
    hash: HashFunction, policy: Policy -> Digest, domain: DomainConfig -> Digest,
    input: (Authority, Evidence, u64) -> Digest, decision: Decision -> Digest, summary: Verdict -> seq<byte>)

  datatype Decision = Decision(
    id: u64, evaluation: Evaluation, raw: Outcome, effective: Outcome, authorized: bool, increment: u64, fenced: bool,
    confirmations: u32, issuedTick: u64, incarnation: u64, epoch: u64, digest: Digest)

  datatype Reply<+T> = Reply(world: World, status: Status, value: T)

  const FAILED_WRITE := Failure(IoError, NO_REASON)
  const CLOSING := Failure(StatusCode.ShuttingDown, SHUTTING_DOWN)

  function Next(n: u64): u64 { (n + 1) % U64_LIMIT }

  function Observe(clock: u64, tick: u64): (r: u64)
    ensures r >= clock && r >= tick
  {
    if tick <= clock then clock else tick
  }

  /** The entry points treat tick 0 as "no observation". */
  function ObserveGiven(w: World, tick: u64): World {
    if tick == 0 then w else w.(clock := Observe(w.clock, tick))
  }

  // ----------------------------------------------------------- persistence

  function SlotStates(slots: seq<Slot>): (r: seq<SlotState>)
    ensures |r| == |slots| && forall i :: 0 <= i < |r| ==> r[i] == slots[i].state
  {
    if slots == [] then [] else SlotStates(slots[..|slots| - 1]) + [slots[|slots| - 1].state]
  }

  /** The durable state as it is handed to the store. */
  function Synced(w: World): DurableState {
    w.state.(evidence := SlotStates(w.slots), tick := w.clock, revision := Next(w.state.revision))
  }

  function Persist(w: World, force: bool, io: Io): Reply<()> {
    if !force && (!w.dirty || w.sinceSave < w.options.saveEvery) then Reply(w, Success, ())
    else if !io.save then Reply(w.(state := Synced(w)), FAILED_WRITE, ())
    else
      Reply(w.(state := Synced(w), sinceSave := 0, dirty := false, disk := w.disk.(saved := Synced(w))), Success, ())
  }

  /** A change of the durable state, followed by a forced save. */
  function Commit(w: World, io: Io): Reply<()> {
    Persist(w.(dirty := true), true, io)
  }

  // --------------------------------------------------------------- journal

  /** A record's journal frame: 20 header bytes, 202 fixed payload bytes, the summary, 32 digest bytes. */
  function FrameSize(r: AuditRecord): nat { 254 + |r.summary| }

  function JournalSize(rs: seq<AuditRecord>): nat {
    if rs == [] then 0 else JournalSize(rs[..|rs| - 1]) + FrameSize(rs[|rs| - 1])
  }

  predicate FrameFits(o: Options, journal: seq<AuditRecord>, r: AuditRecord) {
    JournalSize(journal) + FrameSize(r) <= o.maxJournalBytes && |journal| + 1 <= o.maxJournalRecords
  }

  function Newest<T>(s: seq<T>, n: nat): (r: seq<T>)
    ensures |r| == (if |s| > n then n else |s|)
  {
    if |s| > n then s[|s| - n..] else s
  }

  /** The longest run of leading records that fits the byte bound. */
  function FittingFrom(rs: seq<AuditRecord>, used: nat, bound: nat): (r: seq<AuditRecord>)
    ensures r <= rs
  {
    if rs == [] || used + FrameSize(rs[0]) > bound then []
    else [rs[0]] + FittingFrom(rs[1..], used + FrameSize(rs[0]), bound)
  }

  /** What compaction ends with when the first `i` records, `used` bytes in all, are kept already. */
  function KeptFrom(rs: seq<AuditRecord>, i: nat, used: nat, bound: nat): seq<AuditRecord>
    requires i <= |rs|
  {
    rs[..i] + FittingFrom(rs[i..], used, bound)
  }

  /** One turn of the compaction loop. */
  lemma KeptStep(rs: seq<AuditRecord>, i: nat, used: nat, bound: nat)
    requires i <= |rs|
    ensures KeptFrom(rs, i, used, bound)
            == if i == |rs| || used + FrameSize(rs[i]) > bound then rs[..i]
               else KeptFrom(rs, i + 1, used + FrameSize(rs[i]), bound)
  {
    if i < |rs| {
      assert rs[i..][1..] == rs[i + 1..];
      assert rs[..i + 1] == rs[..i] + [rs[i]];
    }
  }

  function Keep(o: Options): u64 {
    if o.compactionRecords < o.maxJournalRecords then o.compactionRecords else o.maxJournalRecords
  }

  function Compact(w: World, io: Io): Reply<()> {
    var newest := Newest(w.state.audit, Keep(w.options));
    if !io.compact then Reply(w, FAILED_WRITE, ())
    else
      Reply(w.(disk := w.disk.(journal := FittingFrom(newest, 0, w.options.maxJournalBytes)),
               state := w.state.(audit := newest), dirty := true),
            Success, ())
  }

  function Append(w: World, r: AuditRecord, io: Io): Reply<()> {
    if !FrameFits(w.options, w.disk.journal, r) then Reply(w, Failure(Overflow, PERSISTENCE_TOO_LARGE), ())
    else if !io.append then Reply(w, FAILED_WRITE, ())
    else Reply(w.(disk := w.disk.(journal := w.disk.journal + [r])), Success, ())
  }

  /** Append, compacting once when the journal is full; then the in-memory audit tail follows. */
  function AppendJournal(w: World, r: AuditRecord, io: Io): Reply<()> {
    var first := Append(w, r, io);
    var a := if first.status == Failure(Overflow, PERSISTENCE_TOO_LARGE) then
               var c := Compact(w, io);
               if c.status.Success? then Append(c.world, r, io) else c
             else first;
    if !a.status.Success? then a
    else
      a.(world := a.world.(state := a.world.state.(
           audit := Newest(a.world.state.audit + [r], a.world.options.maxAuditRecords))))
  }

  // ----------------------------------------------------------------- slots

  predicate Holds(s: Slot, domain: u64, kind: EvidenceKind) {
    s.state.domain == domain && s.state.kind == kind
  }

  function SlotIndex(slots: seq<Slot>, domain: u64, kind: EvidenceKind): (r: Option<nat>)
    ensures r.Some? ==> r.value < |slots| && Holds(slots[r.value], domain, kind)
    ensures r.None? ==> forall i :: 0 <= i < |slots| ==> !Holds(slots[i], domain, kind)
    ensures r.Some? ==> forall i :: 0 <= i < r.value ==> !Holds(slots[i], domain, kind)
  {
    if slots == [] then None
    else
      match SlotIndex(slots[..|slots| - 1], domain, kind)
      case Some(i) => Some(i)
      case None => if Holds(slots[|slots| - 1], domain, kind) then Some(|slots| - 1) else None
  }

  function EmptySlot(domain: u64, kind: EvidenceKind): Slot {
    Slot(SlotState(domain, kind, 0, 0, 0, 0, 0, 0, ZeroDigest(), false), None)
  }

  /** The slot table with an entry for (domain, kind), and its position. */
  function Ensured(slots: seq<Slot>, domain: u64, kind: EvidenceKind): (r: (seq<Slot>, nat))
    ensures r.1 < |r.0| && Holds(r.0[r.1], domain, kind) && slots <= r.0
    ensures SlotIndex(slots, domain, kind) == (if r.0 == slots then Some(r.1) else None)
    ensures r.0 == slots || (r.0 == slots + [EmptySlot(domain, kind)] && r.1 == |slots|)
  {
    match SlotIndex(slots, domain, kind)
    case Some(i) => (slots, i)
    case None => (slots + [EmptySlot(domain, kind)], |slots|)
  }

  function GenerationIn(slots: seq<Slot>, domain: u64, kind: EvidenceKind): u64 {
    match SlotIndex(slots, domain, kind)
    case Some(i) => slots[i].state.generation
    case None => 0
  }

  function ContentIn(slots: seq<Slot>, domain: u64, kind: EvidenceKind): Option<Snapshot> {
    match SlotIndex(slots, domain, kind)
    case Some(i) => slots[i].content
    case None => None
  }

  function DropContents(slots: seq<Slot>): (r: seq<Slot>)
    ensures |r| == |slots|
    ensures forall i :: 0 <= i < |r| ==> r[i] == Slot(slots[i].state.(revalidationRequired := true), None)
  {
    seq(|slots|, i requires 0 <= i < |slots| => Slot(slots[i].state.(revalidationRequired := true), None))
  }

  function RequireRevalidation(slots: seq<Slot>, publisher: u64): (r: seq<Slot>)
    ensures |r| == |slots|
    ensures forall i :: 0 <= i < |r| ==>
              (r[i] == slots[i] || r[i] == slots[i].(state := slots[i].state.(revalidationRequired := true)))
    ensures forall i :: 0 <= i < |r| ==> slots[i].state.publisher == publisher ==> r[i].state.revalidationRequired
  {
    seq(|slots|, i requires 0 <= i < |slots| =>
      if slots[i].state.publisher == publisher
      then slots[i].(state := slots[i].state.(revalidationRequired := true)) else slots[i])
  }

  // ---------------------------------------------------------------- policy

  /** The generation a domain gets in the next policy: kept while its configuration keeps its digest. */
  function NextDomain(k: Digests, current: Policy, d: DomainConfig): DomainConfig {
    match FindDomain(current.domains, d.id)
    case None => if d.generation == 0 then d.(generation := 1) else d
    case Some(p) =>
      var g := if k.domain(p) == k.domain(d) then p.generation
               else if Next(p.generation) > d.generation then Next(p.generation) else d.generation;
      d.(generation := if g == 0 then 1 else g)
  }

  function NextDomains(k: Digests, current: Policy, ds: seq<DomainConfig>): (r: seq<DomainConfig>)
    ensures |r| == |ds| && forall i :: 0 <= i < |ds| ==> r[i] == NextDomain(k, current, ds[i])
  {
    seq(|ds|, i requires 0 <= i < |ds| => NextDomain(k, current, ds[i]))
  }

  function NextPolicy(k: Digests, current: Policy, p: Policy): Policy {
    var next := p.(id := if p.id != 0 then p.id else if current.id != 0 then current.id else 1,
                   generation := if current.generation != 0 then Next(current.generation) else 1,
                   domains := NextDomains(k, current, p.domains));
    next.(digest := k.policy(next))
  }

  function ContentDigest(k: Digests, p: Policy): Digest {
    k.policy(p.(generation := 1, domains :=
      seq(|p.domains|, i requires 0 <= i < |p.domains| => p.domains[i].(generation := 1))))
  }

  function InstallPolicy(k: Digests, w: World, p: Policy, tick: u64, io: Io): Reply<()> {
    if !w.accepting then Reply(w, CLOSING, ())
    else
      var w1 := ObserveGiven(w, tick);
      var next := NextPolicy(k, w.state.policy, p);
      if next.generation == 0 then Reply(w1, Failure(Overflow, ARITHMETIC_OVERFLOW), ())
      else if w.state.policy.generation != 0 && ContentDigest(k, w.state.policy) == ContentDigest(k, next) then
        Reply(w1, Success, ())
      else if !ValidPolicy(next) then Reply(w1, Failure(InvalidArgument, INVALID_FIELD), ())
      else
        Commit(w1.(slots := DropContents(w.slots),
                   state := w.state.(policy := next, policyGeneration := next.generation, policyDigest := next.digest)),
               io)
  }

  // ----------------------------------------------------------------- epoch

  function FenceForEpoch(ds: seq<DomainState>, epoch: u64): (r: seq<DomainState>)
    ensures |r| == |ds|
    ensures forall i :: 0 <= i < |r| ==>
              r[i] == ds[i].(fenced := true, fenceReason := EPOCH_MISMATCH, fenceEpoch := epoch, sticky := Stale)
  {
    seq(|ds|, i requires 0 <= i < |ds| =>
      ds[i].(fenced := true, fenceReason := EPOCH_MISMATCH, fenceEpoch := epoch, sticky := Stale))
  }

  function FenceAll(ps: seq<Publisher>): (r: seq<Publisher>)
    ensures |r| == |ps|
    ensures forall i :: 0 <= i < |r| ==> r[i] == ps[i].(fenced := true, fenceReason := EPOCH_NOT_ADVANCED)
  {
    seq(|ps|, i requires 0 <= i < |ps| => ps[i].(fenced := true, fenceReason := EPOCH_NOT_ADVANCED))
  }

  function AdvanceEpoch(w: World, next: u64, io: Io): Reply<()> {
    if next == 0 || next <= w.state.epoch then Reply(w, Failure(InvalidArgument, EPOCH_NOT_ADVANCED), ())
    else
      Commit(w.(slots := DropContents(w.slots),
                state := w.state.(epoch := next, publishers := FenceAll(w.state.publishers),
                                  domains := FenceForEpoch(w.state.domains, next))),
             io)
  }

  function AdvanceTick(w: World, delta: u64): Reply<()> {
    match AddChecked(w.clock, delta)
    case None => Reply(w, Failure(Overflow, ARITHMETIC_OVERFLOW), ())
    case Some(t) => Reply(w.(clock := t, state := w.state.(tick := t), dirty := true), Success, ())
  }

  // ------------------------------------------------------------ publishers

  function PublisherIndex(ps: seq<Publisher>, id: u64): (r: Option<nat>)
    ensures r.Some? ==> r.value < |ps| && ps[r.value].publisher == id
    ensures r.Some? ==> forall i :: 0 <= i < r.value ==> ps[i].publisher != id
    ensures r.None? ==> forall i :: 0 <= i < |ps| ==> ps[i].publisher != id
  {
    if ps == [] then None
    else
      match PublisherIndex(ps[..|ps| - 1], id)
      case Some(i) => Some(i)
      case None => if ps[|ps| - 1].publisher == id then Some(|ps| - 1) else None
  }

  /** A registration that starts its sequence afresh in the current epoch. */
  function Renewed(p: Publisher, incarnation: u64, epoch: u64, tick: u64): Publisher {
    p.(incarnation := incarnation, epoch := epoch, lastSequence := 0, fenced := false, fenceReason := NO_REASON,
       registeredTick := tick)
  }

  function WithPublisher(w: World, i: nat, p: Publisher): World
    requires i < |w.state.publishers|
  {
    w.(state := w.state.(publishers := w.state.publishers[i := p]))
  }

  function Register(w: World, publisher: u64, incarnation: u64, epoch: u64, tick: u64, io: Io): Reply<()> {
    if !w.accepting then Reply(w, CLOSING, ())
    else if publisher == 0 || incarnation == 0 then Reply(w, Failure(InvalidArgument, INVALID_IDENTITY), ())
    else if epoch == 0 || epoch != w.state.epoch then Reply(w, Failure(StaleInput, EPOCH_MISMATCH), ())
    else
      var w1 := ObserveGiven(w, tick);
      match PublisherIndex(w.state.publishers, publisher)
      case Some(i) =>
        var p := w.state.publishers[i];
        if p.incarnation != incarnation then Reply(w1, Failure(FencedOff, PUBLISHER_INCARNATION_STALE), ())
        else if p.fenced then Commit(WithPublisher(w1, i, Renewed(p, incarnation, epoch, w1.clock)), io)
        else Reply(w1, Success, ())
      case None =>
        if |w.state.publishers| >= MAX_PUBLISHERS then Reply(w1, Failure(OutOfRange, LIMIT_EXCEEDED), ())
        else
          var p := Publisher(publisher, incarnation, epoch, 0, false, NO_REASON, w1.clock);
          Commit(w1.(state := w.state.(publishers := w.state.publishers + [p])), io)
  }

  function Adopt(w: World, publisher: u64, incarnation: u64, epoch: u64, tick: u64, io: Io): Reply<()> {
    if !w.accepting then Reply(w, CLOSING, ())
    else if publisher == 0 || incarnation == 0 || epoch == 0 then
      Reply(w, Failure(InvalidArgument, INVALID_IDENTITY), ())
    else if epoch != w.state.epoch then Reply(w, Failure(StaleInput, EPOCH_MISMATCH), ())
    else
      var w1 := ObserveGiven(w, tick);
      match PublisherIndex(w.state.publishers, publisher)
      case None => Reply(w1, Failure(NotFound, PUBLISHER_NOT_REGISTERED), ())
      case Some(i) =>
        var p := w.state.publishers[i];
        if p.incarnation == incarnation && !p.fenced && p.epoch == epoch then Reply(w1, Success, ())
        else
          Commit(WithPublisher(w1, i, Renewed(p, incarnation, epoch, w1.clock))
                   .(slots := RequireRevalidation(w.slots, publisher)), io)
  }

  function FencePublisher(w: World, publisher: u64, reason: Reason, io: Io): Reply<()> {
    match PublisherIndex(w.state.publishers, publisher)
    case None => Reply(w, Failure(NotFound, PUBLISHER_NOT_REGISTERED), ())
    case Some(i) =>
      Commit(WithPublisher(w, i, w.state.publishers[i].(fenced := true, fenceReason := reason)), io)
  }

  // -------------------------------------------------------------- evidence

  datatype Receipt = Receipt(generation: u64, duplicate: bool)

  const NO_RECEIPT := Receipt(0, false)

  /** Whether this publisher may publish at all. */
  function PublisherFault(w: World, s: Snapshot): Status {
    var from := ProvenanceOf(s);
    if !w.accepting then CLOSING
    else if FindDomain(w.state.policy.domains, HeaderOf(s).domain).None? then Failure(NotFound, DOMAIN_NOT_IN_POLICY)
    else if HeaderOf(s).epoch != w.state.epoch then Failure(StaleInput, EPOCH_MISMATCH)
    else
      match PublisherIndex(w.state.publishers, from.publisher)
      case None => Failure(Denied, PUBLISHER_NOT_REGISTERED)
      case Some(i) =>
        var p := w.state.publishers[i];
        if p.fenced then Failure(FencedOff, PUBLISHER_FENCED)
        else if p.epoch != w.state.epoch then Failure(StaleInput, WORKER_EPOCH_STALE)
        else if p.incarnation != from.incarnation then Failure(FencedOff, PUBLISHER_INCARNATION_STALE)
        else if from.sequence == 0 then Failure(InvalidArgument, INVALID_FIELD)
        else Success
  }

  datatype Ruling = AlreadyPublished | Refused(status: Status) | Accept(generation: u64)

  /** What the slot makes of the publication. */
  function Rule(o: Options, slot: SlotState, last: u64, s: Snapshot, payload: Digest): Ruling {
    var from, claimed := ProvenanceOf(s), HeaderOf(s).generation;
    if slot.evidenceId != 0 && slot.evidenceId == from.evidenceId then
      if slot.payloadDigest == payload then AlreadyPublished else Refused(Failure(Conflict, EVIDENCE_CONTRADICTORY))
    else if from.sequence <= last then Refused(Failure(StaleInput, PUBLISHER_SEQUENCE_REPLAYED))
    else if Next(slot.generation) == 0 then Refused(Failure(Overflow, ARITHMETIC_OVERFLOW))
    else if claimed == slot.generation && slot.generation != 0 then
      if slot.payloadDigest == payload then AlreadyPublished else Refused(Failure(StaleInput, SNAPSHOT_OUT_OF_ORDER))
    else if claimed == 0 && !o.autoAssign then Refused(Failure(InvalidArgument, GENERATION_UNSET))
    else if claimed != 0 && claimed != Next(slot.generation) then Refused(Failure(StaleInput, SNAPSHOT_OUT_OF_ORDER))
    else Accept(Next(slot.generation))
  }

  function Occupied(slot: SlotState, s: Snapshot, generation: u64, payload: Digest): SlotState {
    var from := ProvenanceOf(s);
    slot.(generation := generation, evidenceId := from.evidenceId, publisher := from.publisher,
          incarnation := from.incarnation, sequence := from.sequence, observedTick := HeaderOf(s).observedTick,
          payloadDigest := payload, revalidationRequired := false)
  }

  /** The content a slot ends up with: the assigned generation and the digest recomputed for it. */
  function Bound(k: Digests, s: Snapshot, generation: u64): (r: Snapshot)
    ensures KindOf(r) == KindOf(s) && HeaderOf(r) == HeaderOf(s).(generation := generation)
  {
    var t := WithGeneration(s, generation);
    WithDigest(t, k.hash(Canonical(t)))
  }

  function Digested(k: Digests, s: Snapshot): (r: Snapshot)
    ensures KindOf(r) == KindOf(s) && HeaderOf(r) == HeaderOf(s)
  {
    if ProvenanceOf(s).payloadDigest == ZeroDigest() then WithDigest(s, k.hash(Canonical(s))) else s
  }

  /** A failed save undoes the slot bookkeeping and the publisher's sequence; the content is gone, and a
      slot that the failed publication itself created keeps its new bookkeeping. */
  function RolledBack(w: World, slot: nat, existed: bool, before: SlotState, publisher: nat, last: u64): World
    requires slot < |w.slots| && publisher < |w.state.publishers|
  {
    w.(slots := w.slots[slot := Slot(if existed then before else w.slots[slot].state, None)],
       state := w.state.(publishers :=
         w.state.publishers[publisher := w.state.publishers[publisher].(lastSequence := last)]))
  }

  /** The slot table once the publication has taken its slot. */
  function Filled(k: Digests, slots: seq<Slot>, s: Snapshot, g: u64): seq<Slot> {
    var (ensured, at) := Ensured(slots, HeaderOf(s).domain, KindOf(s));
    ensured[at := Slot(Occupied(ensured[at].state, s, g, ProvenanceOf(s).payloadDigest), Some(Bound(k, s, g)))]
  }

  /** Take the slot, save, and undo what can be undone when the save fails. */
  function Occupy(k: Digests, w: World, s: Snapshot, i: nat, g: u64, io: Io): Reply<Receipt>
    requires i < |w.state.publishers|
  {
    var (ensured, at) := Ensured(w.slots, HeaderOf(s).domain, KindOf(s));
    var p := w.state.publishers[i];
    var saved := Commit(WithPublisher(w, i, p.(lastSequence := ProvenanceOf(s).sequence))
                          .(slots := Filled(k, w.slots, s, g)), io);
    if saved.status.Success? then Reply(saved.world, Success, Receipt(g, false))
    else
      Reply(RolledBack(saved.world, at, ensured == w.slots, ensured[at].state, i, p.lastSequence), saved.status,
            NO_RECEIPT)
  }

  function Publish(k: Digests, w: World, snapshot: Snapshot, io: Io): Reply<Receipt> {
    Ingest(k, w, Digested(k, snapshot), io)
  }

  function Ingest(k: Digests, w: World, s: Snapshot, io: Io): Reply<Receipt> {
    if !ValidSnapshot(k.hash, s) then Reply(w, Failure(InvalidArgument, INVALID_FIELD), NO_RECEIPT)
    else if !PublisherFault(w, s).Success? then Reply(w, PublisherFault(w, s), NO_RECEIPT)
    else
      var i := PublisherIndex(w.state.publishers, ProvenanceOf(s).publisher).value;
      var (ensured, at) := Ensured(w.slots, HeaderOf(s).domain, KindOf(s));
      match Rule(w.options, ensured[at].state, w.state.publishers[i].lastSequence, s, ProvenanceOf(s).payloadDigest)
      case Refused(status) => Reply(w.(slots := ensured), status, NO_RECEIPT)
      case AlreadyPublished => Reply(w.(slots := ensured), Success, Receipt(ensured[at].state.generation, true))
      case Accept(g) => Occupy(k, w, s, i, g, io)
  }

  // ------------------------------------------------------------ evaluation

  function CurrentExpectation(w: World, domain: u64): Expectation {
    var d := FindDomain(w.state.policy.domains, domain);
    Expectation(w.state.epoch, w.state.policy.generation, if d.Some? then d.value.generation else 0,
                GenerationIn(w.slots, domain, Capacity), GenerationIn(w.slots, domain, Reservation),
                GenerationIn(w.slots, domain, Admission), w.state.policy.riskBudget.generation)
  }

  function AsCapacity(c: Option<Snapshot>): Option<CapacitySnapshot> {
    if c.Some? && c.value.OfCapacity? then Some(c.value.capacity) else None
  }

  function AsReservation(c: Option<Snapshot>): Option<ReservationSnapshot> {
    if c.Some? && c.value.OfReservation? then Some(c.value.reservation) else None
  }

  function AsAdmission(c: Option<Snapshot>): Option<AdmissionSnapshot> {
    if c.Some? && c.value.OfAdmission? then Some(c.value.admission) else None
  }

  function CurrentEvidence(w: World, domain: u64): Evidence {
    Evidence(AsCapacity(ContentIn(w.slots, domain, Capacity)),
             AsReservation(ContentIn(w.slots, domain, Reservation)),
             AsAdmission(ContentIn(w.slots, domain, Admission)))
  }

  /** The result for a domain the policy does not cover. */
  function Uncovered(p: Policy, x: Expectation, domain: u64): Evaluation {
    Evaluation(Withheld(Verdict(Unknown, DOMAIN_NOT_IN_POLICY)),
               Authority(domain, 0, p.id, x.policyGeneration, x.capacityGeneration, x.reservationGeneration,
                         x.admissionGeneration, p.riskBudget.id, x.riskBudgetGeneration, x.epoch),
               false, false, 0, false)
  }

  function CurrentEvaluation(w: World, domain: u64, tick: u64): Evaluation {
    match FindDomain(w.state.policy.domains, domain)
    case None => Uncovered(w.state.policy, CurrentExpectation(w, domain), domain)
    case Some(d) => Evaluate(w.state.policy, d, CurrentExpectation(w, domain), CurrentEvidence(w, domain), tick)
  }

  function SignalOf(e: Evaluation, tick: u64): Signal {
    Signal(e.assessment.verdict.outcome,
           if e.assessment.Assessed? then e.assessment.accounting.usedPpmOfCeiling else 0, tick)
  }

  /** The runtime state an evaluation starts from; a domain's first evaluation starts at its own outcome. */
  function WorkingState(w: World, domain: u64, raw: Outcome): DomainState {
    match DomainIndex(w.state.domains, domain)
    case Some(i) => w.state.domains[i]
    case None => FreshDomain(domain, CurrentExpectation(w, domain).domainGeneration).(sticky := raw, lastRaw := raw)
  }

  function Announcing(w: World, domain: u64, e: Evaluation, tick: u64): Announcement {
    Announce(w.state.policy.hysteresis, WorkingState(w, domain, e.assessment.verdict.outcome), SignalOf(e, tick))
  }

  function DecisionFor(k: Digests, w: World, e: Evaluation, a: Announcement, tick: u64): Decision {
    var authorized := a.effective.WithinPolicy? && e.authorized;
    var d := Decision(Next(w.state.decisionsIssued), e, e.assessment.verdict.outcome, a.effective, authorized,
                      if authorized then e.increment else 0, a.state.fenced, a.state.confirmations, tick,
                      w.state.incarnation, w.state.epoch, ZeroDigest());
    d.(digest := k.decision(d))
  }

  function Shortened(s: seq<byte>): seq<byte> {
    if |s| > MAX_AUDIT_SUMMARY then s[..MAX_AUDIT_SUMMARY] else s
  }

  function RecordFor(k: Digests, w: World, domain: u64, d: Decision, a: Announcement, wall: u64): AuditRecord {
    var x := CurrentExpectation(w, domain);
    var e := d.evaluation;
    var assessed := e.assessment.Assessed?;
    var bound := match FindDomain(w.state.policy.domains, domain)
                 case Some(c) => BindingFault(w.state.policy, c, x, CurrentEvidence(w, domain)).None?
                 case None => false;
    AuditRecord(d.id, d.issuedTick, wall, d.incarnation, d.epoch, domain, x.domainGeneration, x.policyGeneration,
                d.raw, d.effective, e.assessment.verdict.reason,
                if assessed then e.assessment.accounting.constraint else NO_CONSTRAINT, d.id, d.digest,
                if bound then k.input(e.authority, CurrentEvidence(w, domain), d.issuedTick) else ZeroDigest(),
                d.authorized, d.increment, d.fenced, d.confirmations, a.state.lastEscalationTick,
                if assessed then e.assessment.accounting.ceilingTotal else 0,
                if assessed then e.assessment.accounting.committedTotal else 0,
                if assessed then e.assessment.accounting.overage else 0,
                Shortened(k.summary(e.assessment.verdict)))
  }

  /** The runtime state an accepted decision leaves behind. */
  function Settled(w: World, domain: u64, d: Decision, a: Announcement): DomainState {
    a.state.(generation := CurrentExpectation(w, domain).domainGeneration,
             fenceReason := if d.fenced then d.evaluation.assessment.verdict.reason else NO_REASON,
             fenceEpoch := if d.fenced then w.state.epoch else 0,
             lastDecision := d.id, lastDecisionDigest := d.digest)
  }

  function Enter(ds: seq<DomainState>, d: DomainState): seq<DomainState> {
    match DomainIndex(ds, d.domain)
    case Some(i) => ds[i := d]
    case None => ds + [d]
  }

  /** The clock an evaluation runs at. */
  function EvaluationTick(w: World, tick: u64): u64 { Observe(w.clock, tick) }

  function DecideFor(k: Digests, w: World, domain: u64, tick: u64): (Decision, Announcement) {
    var e := CurrentEvaluation(w, domain, tick);
    var a := Announcing(w, domain, e, tick);
    (DecisionFor(k, w, e, a, tick), a)
  }

  function EvaluateDomain(k: Digests, w: World, domain: u64, requested: u64, cancelled: bool, wall: u64, io: Io)
    : Reply<Option<Decision>>
  {
    if domain == 0 then Reply(w, Failure(InvalidArgument, INVALID_IDENTITY), None)
    else
      var tick := EvaluationTick(w, requested);
      var w1 := w.(clock := tick);
      var (d, a) := DecideFor(k, w1, domain, tick);
      if cancelled then Reply(w1, Failure(Cancelled, DECISION_CANCELLED), None)
      else if DomainIndex(w.state.domains, domain).None? && |w.state.domains| >= MAX_DOMAINS_STATE then
        Reply(w1, Failure(OutOfRange, LIMIT_EXCEEDED), None)
      else
        var r := RecordFor(k, w1, domain, d, a, wall);
        var appended := AppendJournal(w1, r, io);
        if !appended.status.Success? then Reply(appended.world, appended.status, None)
        else
          var saved := Persist(Accepted(appended.world, domain, d, a), false, io);
          Reply(saved.world, saved.status, if saved.status.Success? then Some(d) else None)
  }

  function Accepted(w: World, domain: u64, d: Decision, a: Announcement): World {
    w.(state := w.state.(domains := Enter(w.state.domains, Settled(w, domain, d, a)), decisionsIssued := d.id,
                         tick := d.issuedTick),
       sinceSave := Next(w.sinceSave), dirty := true)
  }

  // ---------------------------------------------------------- revalidation

  function SlotFault(w: World, domain: u64, kind: EvidenceKind, generation: u64): Reason {
    match SlotIndex(w.slots, domain, kind)
    case None => DECISION_STALE
    case Some(i) =>
      var s := w.slots[i];
      if s.content.None? || s.state.revalidationRequired || s.state.generation != generation then DECISION_STALE
      else NO_REASON
  }

  function RuntimeFault(ds: seq<DomainState>, domain: u64, id: u64): Reason {
    match DomainIndex(ds, domain)
    case None => NO_REASON
    case Some(i) =>
      if ds[i].fenced then DECISION_ALREADY_FENCED
      else if ds[i].lastDecision != 0 && ds[i].lastDecision != id then DECISION_SUPERSEDED
      else NO_REASON
  }

  /** revalidate(): `NO_REASON` when the decision is still bound to the current authority. */
  function Revalidate(w: World, d: Decision): Reason {
    var a := d.evaluation.authority;
    if !Complete(a) || !d.evaluation.authorityValid then DECISION_NOT_AUTHORITATIVE
    else if d.incarnation != w.state.incarnation then DECISION_STALE
    else if d.epoch != w.state.epoch then DECISION_EPOCH_MISMATCH
    else if a.policyGeneration != w.state.policy.generation then DECISION_GENERATION_MISMATCH
    else if a.riskBudgetGeneration != w.state.policy.riskBudget.generation then DECISION_GENERATION_MISMATCH
    else
      match FindDomain(w.state.policy.domains, a.domain)
      case None => DECISION_GENERATION_MISMATCH
      case Some(c) =>
        if a.domainGeneration != c.generation then DECISION_GENERATION_MISMATCH
        else if RuntimeFault(w.state.domains, a.domain, d.id) != NO_REASON then RuntimeFault(w.state.domains, a.domain, d.id)
        else if SlotFault(w, a.domain, Capacity, a.capacityGeneration) != NO_REASON then DECISION_STALE
        else if SlotFault(w, a.domain, Reservation, a.reservationGeneration) != NO_REASON then DECISION_STALE
        else SlotFault(w, a.domain, Admission, a.admissionGeneration)
  }

  // -------------------------------------------------- opening and recovery

  function Before(rs: seq<AuditRecord>, id: u64): seq<AuditRecord> {
    if rs == [] then []
    else
      var init := Before(rs[..|rs| - 1], id);
      if rs[|rs| - 1].id >= id then init else init + [rs[|rs| - 1]]
  }

  /** The saved audit tail up to the oldest journal record, then the journal. */
  function Merge(audit: seq<AuditRecord>, journal: seq<AuditRecord>, bound: nat): seq<AuditRecord> {
    if journal == [] then audit else Newest(Before(audit, journal[0].id) + journal, bound)
  }

  function FlagAll(es: seq<SlotState>): (r: seq<SlotState>)
    ensures |r| == |es| && forall i :: 0 <= i < |r| ==> r[i] == es[i].(revalidationRequired := true)
  {
    seq(|es|, i requires 0 <= i < |es| => es[i].(revalidationRequired := true))
  }

  /** What loading asks of a state file that decodes to `s`: every table within its bound and a valid policy
      with the digest it was saved under. */
  predicate Readable(s: DurableState) {
    && |s.publishers| <= MAX_PUBLISHERS && |s.domains| <= MAX_DOMAINS_STATE && |s.evidence| <= MAX_EVIDENCE_SLOTS
    && |s.audit| <= MAX_AUDIT_RECORDS && ValidPolicy(s.policy) && s.policyDigest == s.policy.digest
  }

  /** Store::load of an undamaged journal over an undamaged state file; None when the state is refused. */
  function TryLoad(o: Options, disk: Disk): Option<DurableState> {
    if Readable(disk.saved) then Some(Load(o, disk)) else None
  }

  /** What a readable state and the journal are loaded as. */
  function Load(o: Options, disk: Disk): DurableState {
    var merged := disk.saved.(audit := Merge(disk.saved.audit, disk.journal, o.maxAuditRecords));
    var replayed := if disk.journal == [] then merged else Rebuild(merged, disk.journal).state;
    replayed.(evidence := FlagAll(replayed.evidence), journalRecords := |disk.journal| % U64_LIMIT)
  }

  function EmptySlots(es: seq<SlotState>): (r: seq<Slot>)
    ensures |r| == |es| && forall i :: 0 <= i < |r| ==> r[i] == Slot(es[i].(revalidationRequired := true), None)
  {
    seq(|es|, i requires 0 <= i < |es| => Slot(es[i].(revalidationRequired := true), None))
  }

  /** The runtime after a crash and a successful open(); an open() that fails changes nothing durable. */
  function Reopened(w: World): World {
    var loaded := Load(w.options, w.disk);
    var state := loaded.(incarnation := Next(loaded.incarnation), epoch := if loaded.epoch == 0 then 1 else loaded.epoch);
    Commit(w.(accepting := true, state := state, slots := EmptySlots(loaded.evidence), clock := state.tick,
              sinceSave := 0),
           Io(true, true, true)).world
  }

  /** open() refuses a state that does not load, and one whose incarnation cannot advance. */
  predicate Reopens(w: World) {
    match TryLoad(w.options, w.disk)
    case None => false
    case Some(t) => t.incarnation < U64_LIMIT - 1
  }

  function InitialPolicy(k: Digests, p: Policy): Policy {
    var q := p.(id := if p.id == 0 then 1 else p.id, generation := 1,
                domains := seq(|p.domains|, i requires 0 <= i < |p.domains| =>
                  if p.domains[i].generation == 0 then p.domains[i].(generation := 1) else p.domains[i]));
    q.(digest := k.policy(q))
  }

  /** The runtime that open() sets up in an empty directory. */
  function Fresh(k: Digests, o: Options, p: Policy): World {
    var q := InitialPolicy(k, p);
    var state := DurableState(STATE_SCHEMA_VERSION, 1, 1, 1, q.generation, q.digest, q, [], [], [], [], 0, 0, 0);
    Commit(World(o, true, state, [], 0, 0, true, Disk(state, [])), Io(true, true, true)).world
  }

  // ------------------------------------------------------------- operations

  datatype Op =
    | Install(policy: Policy, tick: u64)
    | NewEpoch(epoch: u64)
    | Tick(delta: u64)
    | RegisterOp(publisher: u64, incarnation: u64, epoch: u64, tick: u64)
    | AdoptOp(publisher: u64, incarnation: u64, epoch: u64, tick: u64)
    | FenceOp(publisher: u64, reason: Reason)
    | PublishOp(snapshot: Snapshot)
    | EvaluateOp(domain: u64, tick: u64, cancelled: bool, wall: u64)
    | SaveOp
    | ShutdownOp
    | CrashAndReopen

  datatype Step = Step(op: Op, io: Io)

  /** The world after one operation. Public evaluation requests are refused while shutting down;
      evaluations of jobs accepted earlier are not, so `EvaluateOp` carries no such gate. A crash after which
      open() is refused leaves no runtime; the step that stands for it changes nothing. */
  function Apply(k: Digests, w: World, s: Step): World {
    match s.op
    case Install(policy, tick) => InstallPolicy(k, w, policy, tick, s.io).world
    case NewEpoch(epoch) => AdvanceEpoch(w, epoch, s.io).world
    case Tick(delta) => AdvanceTick(w, delta).world
    case RegisterOp(p, i, e, t) => Register(w, p, i, e, t, s.io).world
    case AdoptOp(p, i, e, t) => Adopt(w, p, i, e, t, s.io).world
    case FenceOp(p, reason) => FencePublisher(w, p, reason, s.io).world
    case PublishOp(snapshot) => Publish(k, w, snapshot, s.io).world
    case EvaluateOp(domain, tick, cancelled, wall) => EvaluateDomain(k, w, domain, tick, cancelled, wall, s.io).world
    case SaveOp => Persist(w, true, s.io).world
    case ShutdownOp => Persist(w.(accepting := false), true, s.io).world
    case CrashAndReopen => if Reopens(w) then Reopened(w) else w
  }

  /** A run: the world before every step and after the last. */
  predicate IsRun(k: Digests, ws: seq<World>, steps: seq<Step>) {
    && |ws| == |steps| + 1
    && forall n {:trigger steps[n]} :: 0 <= n < |steps| ==> ws[n + 1] == Apply(k, ws[n], steps[n])
  }
}
