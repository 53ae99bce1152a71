/** Runs of one publisher on which a promise fails: a publication that is reported as accepted and lost, and
    a run in which every operation and every write succeeds and whose saved state no later open() accepts. */
module PublishingRuns {
  import opened Checked
  import opened Wire
  import opened Model
  import opened Sorting
  import opened PolicyRules
  import opened Engine
  import opened EvidenceRules
  import opened Governing
  import opened Frames
  import opened Publication
  import opened Recovery
  import opened Replay
  import opened Sample
  import opened FailingRuns

  // ------------------------------------------------------ the run as a list

  /** The pairs of domain and kind in the order they are published for: three kinds a domain. */
  function DomainAt(i: nat): u64
    requires i < U64_LIMIT
  {
    i / 3 + 1
  }

  function KindAt(i: nat): EvidenceKind {
    if i % 3 == 0 then Capacity else if i % 3 == 1 then Reservation else Admission
  }

  lemma PairsDiffer(i: nat, j: nat)
    requires i < U64_LIMIT && j < U64_LIMIT && DomainAt(i) == DomainAt(j) && KindAt(i) == KindAt(j)
    ensures i == j
  {
    assert i == i / 3 * 3 + i % 3 && j == j / 3 * 3 + j % 3;
  }

  /** An empty snapshot for the i-th pair, numbered i + 1. */
  function SnapshotAt(i: nat): (s: Snapshot)
    requires i + 1 < U64_LIMIT
    ensures HeaderOf(s) == Header(DomainAt(i), 1, 1, 0) && KindOf(s) == KindAt(i)
    ensures ProvenanceOf(s) == Provenance(1, 1, 1, i + 1, i + 1, ZeroDigest())
  {
    var from := Provenance(1, 1, 1, i + 1, i + 1, ZeroDigest());
    if KindAt(i).Capacity? then OfCapacity(CapacitySnapshot(DomainAt(i), 1, 1, 0, [], from))
    else if KindAt(i).Reservation? then OfReservation(ReservationSnapshot(DomainAt(i), 1, 1, 0, [], from))
    else OfAdmission(AdmissionSnapshot(DomainAt(i), 1, 1, 0, [], from))
  }

  function Publications(from: nat, count: nat): (steps: seq<Step>)
    requires from + count < U64_LIMIT
    ensures |steps| == count && forall i :: 0 <= i < count ==> steps[i] == Step(PublishOp(SnapshotAt(from + i)), WRITES)
  {
    seq(count, i requires 0 <= i < count => Step(PublishOp(SnapshotAt(from + i)), WRITES))
  }

  const FIRST_PAIRS: nat := 3 * HARD_MAX_DOMAINS

  /** Every kind for each of the most domains a policy may have, then a policy of as many other domains, then
      one pair more than the loader has room for. */
  function Crowding(): seq<Step> {
    [Step(RegisterOp(1, 1, 1, 0), WRITES)] + Publications(0, FIRST_PAIRS)
    + [Step(Install(SamplePolicy(HARD_MAX_DOMAINS + 1, HARD_MAX_DOMAINS), 0), WRITES)]
    + Publications(FIRST_PAIRS, MAX_EVIDENCE_SLOTS + 1 - FIRST_PAIRS)
  }

  // ------------------------------------------------------------- one by one

  /** The world a run ends in. */
  function Final(k: Digests, w: World, steps: seq<Step>): World {
    if steps == [] then w else Apply(k, Final(k, w, steps[..|steps| - 1]), steps[|steps| - 1])
  }

  lemma {:induction false} TraceEnds(k: Digests, w: World, steps: seq<Step>)
    ensures Trace(k, w, steps)[|steps|] == Final(k, w, steps)
  {
    hide Apply;
    if steps != [] {
      TraceEnds(k, w, steps[..|steps| - 1]);
    }
  }

  lemma {:induction false} FinalConcat(k: Digests, w: World, a: seq<Step>, b: seq<Step>)
    ensures Final(k, w, a + b) == Final(k, Final(k, w, a), b)
    decreases |b|
  {
    hide Apply;
    if b == [] {
      assert a + b == a;
    } else {
      assert (a + b)[..|a + b| - 1] == a + b[..|b| - 1];
      FinalConcat(k, w, a, b[..|b| - 1]);
    }
  }

  lemma FinalOne(k: Digests, w: World, s: Step)
    ensures Final(k, w, [s]) == Apply(k, w, s)
  {
    hide Apply;
    assert [s][..0] == [];
  }

  /** One publisher has filled the first `n` slots, and they are saved. */
  predicate Filling(w: World, n: nat) {
    && n < U64_LIMIT - 1 && w.accepting && w.state.epoch == 1
    && |w.state.publishers| == 1 && w.state.publishers[0].publisher == 1 && w.state.publishers[0].incarnation == 1
    && w.state.publishers[0].epoch == 1 && !w.state.publishers[0].fenced && w.state.publishers[0].lastSequence == n
    && |w.slots| == |w.disk.saved.evidence| == n
    && forall i :: 0 <= i < n ==> w.slots[i].state.domain == DomainAt(i) && w.slots[i].state.kind == KindAt(i)
  }

  predicate CoversPair(w: World, i: nat)
    requires i < U64_LIMIT
  {
    FindDomain(w.state.policy.domains, DomainAt(i)).Some?
  }

  lemma NextSlotIsNew(w: World, n: nat)
    requires Filling(w, n)
    ensures Ensured(w.slots, DomainAt(n), KindAt(n)) == (w.slots + [EmptySlot(DomainAt(n), KindAt(n))], n)
  {
    if SlotIndex(w.slots, DomainAt(n), KindAt(n)).Some? {
      PairsDiffer(SlotIndex(w.slots, DomainAt(n), KindAt(n)).value, n);
    }
  }

  lemma SnapshotIsValid(k: Digests, n: nat)
    requires n + 1 < U64_LIMIT
    ensures var s := Digested(k, SnapshotAt(n));
            && ValidSnapshot(k.hash, s) && HeaderOf(s) == HeaderOf(SnapshotAt(n)) && KindOf(s) == KindAt(n)
            && ProvenanceOf(s) == ProvenanceOf(SnapshotAt(n)).(payloadDigest := ProvenanceOf(s).payloadDigest)
  {
  }

  lemma OnlyPublisher(ps: seq<Publisher>)
    requires |ps| == 1 && ps[0].publisher == 1
    ensures PublisherIndex(ps, 1) == Some(0)
  {
  }

  lemma PublishNext(k: Digests, w: World, n: nat)
    requires Filling(w, n) && n + 2 < U64_LIMIT && CoversPair(w, n)
    ensures var v := Apply(k, w, Step(PublishOp(SnapshotAt(n)), WRITES));
            Filling(v, n + 1) && v.state.policy == w.state.policy
  {
    hide *;
    var s := Digested(k, SnapshotAt(n));
    SnapshotIsValid(k, n);
    PublishApplied(k, w, SnapshotAt(n));
    IngestNext(k, w, n, s);
    OccupyNext(k, w, n, s);
  }

  lemma PublishApplied(k: Digests, w: World, s: Snapshot)
    ensures Apply(k, w, Step(PublishOp(s), WRITES)) == Ingest(k, w, Digested(k, s), WRITES).world
  {
    hide Ingest, Digested;
  }

  lemma IngestNext(k: Digests, w: World, n: nat, s: Snapshot)
    requires Filling(w, n) && CoversPair(w, n) && ValidSnapshot(k.hash, s)
    requires HeaderOf(s) == Header(DomainAt(n), 1, 1, 0) && KindOf(s) == KindAt(n)
    requires ProvenanceOf(s) == Provenance(1, 1, 1, n + 1, n + 1, ProvenanceOf(s).payloadDigest)
    ensures Ingest(k, w, s, WRITES) == Occupy(k, w, s, 0, 1, WRITES)
  {
    NextSlotIsNew(w, n);
    NoFault(w, n, s);
    AcceptsFirst(w.options, EmptySlot(DomainAt(n), KindAt(n)).state, n, s, ProvenanceOf(s).payloadDigest);
    hide ValidSnapshot, Ensured, Bound, PublisherFault, Rule, Occupy, CoversPair;
  }

  lemma NoFault(w: World, n: nat, s: Snapshot)
    requires Filling(w, n) && CoversPair(w, n) && HeaderOf(s).domain == DomainAt(n) && HeaderOf(s).epoch == 1
    requires ProvenanceOf(s).publisher == ProvenanceOf(s).incarnation == 1 && ProvenanceOf(s).sequence != 0
    ensures PublisherFault(w, s).Success? && PublisherIndex(w.state.publishers, 1) == Some(0)
  {
    OnlyPublisher(w.state.publishers);
  }

  lemma AcceptsFirst(o: Options, slot: SlotState, last: u64, s: Snapshot, payload: Digest)
    requires slot.generation == slot.evidenceId == 0 && ProvenanceOf(s).evidenceId != 0
    requires ProvenanceOf(s).sequence > last && HeaderOf(s).generation == 1
    ensures Rule(o, slot, last, s, payload) == Accept(1)
  {
  }

  lemma OccupyNext(k: Digests, w: World, n: nat, s: Snapshot)
    requires Filling(w, n) && n + 2 < U64_LIMIT && HeaderOf(s).domain == DomainAt(n) && KindOf(s) == KindAt(n)
    requires ProvenanceOf(s).sequence == n + 1
    ensures var v := Occupy(k, w, s, 0, 1, WRITES).world; Filling(v, n + 1) && v.state.policy == w.state.policy
  {
    NextSlotIsNew(w, n);
    hide Ensured, Bound;
  }

  // ------------------------------------------------- a publication that is lost

  /** A publisher registers, publishes for the first time while storage refuses the save, and publishes the
      same again: the second attempt succeeds as a duplicate, and nothing was ever stored. */
  lemma RetriedPublicationLost(k: Digests, o: Options)
    ensures var w := Apply(k, Fresh(k, o, SamplePolicy(1, HARD_MAX_DOMAINS)), Step(RegisterOp(1, 1, 1, 0), WRITES));
            var failed := Publish(k, w, SnapshotAt(0), UNSAVED);
            var again := Publish(k, failed.world, SnapshotAt(0), WRITES);
            && failed.status == FAILED_WRITE && again.status.Success? && again.value.duplicate
            && ContentIn(again.world.slots, 1, Capacity).None?
  {
    var w := Apply(k, Fresh(k, o, SamplePolicy(1, HARD_MAX_DOMAINS)), Step(RegisterOp(1, 1, 1, 0), WRITES));
    Registers(k, o);
    FirstIsSample(k);
    hide Apply, Fresh, FirstPolicy, SamplePolicy, ValidPolicy, SnapshotAt, Publish, Filling, CoversPair;
    assert DomainAt(0) == 1 && KindAt(0) == Capacity;
    SampleCovers(w.state.policy, 1, 0);
    assert CoversPair(w, 0) by { FirstCovers(w); }
    FirstIsAccepted(k, w);
    NoSlots(w);
    RetryAfterFailedSave(k, w, SnapshotAt(0), UNSAVED, WRITES);
  }

  lemma FirstCovers(w: World)
    requires FindDomain(w.state.policy.domains, DomainAt(0)).Some?
    ensures CoversPair(w, 0)
  {
  }

  lemma NoSlots(w: World)
    requires Filling(w, 0)
    ensures SlotIndex(w.slots, 1, Capacity).None?
  {
  }

  lemma FirstIsAccepted(k: Digests, w: World)
    requires Filling(w, 0) && CoversPair(w, 0)
    ensures IsAccepted(Publish(k, w, SnapshotAt(0), WRITES))
  {
    SnapshotIsValid(k, 0);
    hide ValidSnapshot, SnapshotAt, Digested, Ingest, Filling, CoversPair, Filled;
    IngestNext(k, w, 0, Digested(k, SnapshotAt(0)));
  }

  // --------------------------------------------------- all the slots there are

  lemma {:induction false} PublishOn(k: Digests, w: World, n: nat, count: nat)
    requires Filling(w, n) && n + count + 1 < U64_LIMIT && forall i :: n <= i < n + count ==> CoversPair(w, i)
    ensures var v := Final(k, w, Publications(n, count)); Filling(v, n + count) && v.state.policy == w.state.policy
    decreases count
  {
    hide Apply, Filling;
    if count > 0 {
      assert Publications(n, count)[..count - 1] == Publications(n, count - 1);
      PublishOn(k, w, n, count - 1);
      assert CoversPair(w, n + count - 1);
      PublishNext(k, Final(k, w, Publications(n, count - 1)), n + count - 1);
    }
  }

  // ------------------------------------------------------------ the policies

  /** The policy the governor is opened with, and what the second one is installed as. */
  function FirstPolicy(k: Digests): Policy { InitialPolicy(k, SamplePolicy(1, HARD_MAX_DOMAINS)) }

  function SecondPolicy(k: Digests): Policy {
    NextPolicy(k, FirstPolicy(k), SamplePolicy(HARD_MAX_DOMAINS + 1, HARD_MAX_DOMAINS))
  }

  lemma FirstIsSample(k: Digests)
    ensures FirstPolicy(k) == SamplePolicy(1, HARD_MAX_DOMAINS).(digest := FirstPolicy(k).digest)
    ensures ValidPolicy(FirstPolicy(k))
  {
    var p := SamplePolicy(1, HARD_MAX_DOMAINS);
    hide ValidPolicy, SamplePolicy;
    SampleHead(1, HARD_MAX_DOMAINS);
    assert FirstPolicy(k).domains == p.domains;
    SampleIsValid(1, HARD_MAX_DOMAINS, 1, FirstPolicy(k).digest);
  }

  lemma SampleHead(first: u64, count: nat)
    requires first + count <= U64_LIMIT
    ensures SamplePolicy(first, count).id == SamplePolicy(first, count).generation == 1
  {
  }

  lemma NotInFirst(k: Digests, id: u64)
    requires id > HARD_MAX_DOMAINS
    ensures FindDomain(FirstPolicy(k).domains, id).None?
  {
    FirstIsSample(k);
    hide FirstPolicy, SamplePolicy, ValidPolicy;
    forall d | d in FirstPolicy(k).domains ensures d.id <= HARD_MAX_DOMAINS {
      var i :| 0 <= i < |FirstPolicy(k).domains| && FirstPolicy(k).domains[i] == d;
    }
  }

  lemma SecondIsSample(k: Digests)
    ensures SecondPolicy(k)
            == SamplePolicy(HARD_MAX_DOMAINS + 1, HARD_MAX_DOMAINS).(generation := 2, digest := SecondPolicy(k).digest)
    ensures ValidPolicy(SecondPolicy(k))
  {
    var p := SamplePolicy(HARD_MAX_DOMAINS + 1, HARD_MAX_DOMAINS);
    FirstIsSample(k);
    SampleHead(HARD_MAX_DOMAINS + 1, HARD_MAX_DOMAINS);
    SampleHead(1, HARD_MAX_DOMAINS);
    hide ValidPolicy, SamplePolicy, FirstPolicy;
    forall i | 0 <= i < HARD_MAX_DOMAINS ensures NextDomain(k, FirstPolicy(k), p.domains[i]) == p.domains[i] {
      NotInFirst(k, p.domains[i].id);
    }
    assert NextDomains(k, FirstPolicy(k), p.domains) == p.domains;
    SampleIsValid(HARD_MAX_DOMAINS + 1, HARD_MAX_DOMAINS, 2, SecondPolicy(k).digest);
  }

  lemma SampleCovers(p: Policy, first: u64, i: nat)
    requires first + HARD_MAX_DOMAINS <= U64_LIMIT && i < U64_LIMIT
    requires p.domains == SamplePolicy(first, HARD_MAX_DOMAINS).domains && first <= DomainAt(i) < first + HARD_MAX_DOMAINS
    ensures FindDomain(p.domains, DomainAt(i)).Some?
  {
    assert p.domains[DomainAt(i) - first] == SampleDomain(DomainAt(i));
  }

  // --------------------------------------------------------------- the run

  lemma Registers(k: Digests, o: Options)
    ensures var v := Apply(k, Fresh(k, o, SamplePolicy(1, HARD_MAX_DOMAINS)), Step(RegisterOp(1, 1, 1, 0), WRITES));
            Filling(v, 0) && v.state.policy == FirstPolicy(k)
  {
    hide InitialPolicy, SamplePolicy;
  }

  lemma Installs(k: Digests, w: World, n: nat)
    requires Filling(w, n) && w.state.policy == FirstPolicy(k)
    requires ContentDigest(k, FirstPolicy(k)) != ContentDigest(k, SecondPolicy(k))
    ensures var v := Apply(k, w, Step(Install(SamplePolicy(HARD_MAX_DOMAINS + 1, HARD_MAX_DOMAINS), 0), WRITES));
            Filling(v, n) && v.state.policy == SecondPolicy(k)
  {
    FirstIsSample(k);
    SecondIsSample(k);
    hide ValidPolicy, SamplePolicy, FirstPolicy, NextPolicy, ContentDigest;
  }

  /** The run from an empty directory. Every operation takes effect and every write is accepted; at the end
      one slot too many is saved, and open() refuses the state from then on. All that is asked of the
      digests is that they tell the two policies apart. */
  lemma SavedButNeverLoaded(k: Digests, o: Options)
    requires ContentDigest(k, FirstPolicy(k)) != ContentDigest(k, SecondPolicy(k))
    ensures var steps := Crowding();
            var ws := Trace(k, Fresh(k, o, SamplePolicy(1, HARD_MAX_DOMAINS)), steps);
            var last := ws[|steps|];
            && ValidPolicy(FirstPolicy(k)) && IsRun(k, ws, steps)
            && |last.disk.saved.evidence| == |last.slots| == MAX_EVIDENCE_SLOTS + 1
            && TryLoad(last.options, last.disk) == None && !Reopens(last)
  {
    var first := [Step(RegisterOp(1, 1, 1, 0), WRITES)];
    var filled := Publications(0, FIRST_PAIRS);
    var install := [Step(Install(SamplePolicy(HARD_MAX_DOMAINS + 1, HARD_MAX_DOMAINS), 0), WRITES)];
    var rest := Publications(FIRST_PAIRS, MAX_EVIDENCE_SLOTS + 1 - FIRST_PAIRS);
    var w := Fresh(k, o, SamplePolicy(1, HARD_MAX_DOMAINS));
    FirstIsSample(k);
    TraceIsRun(k, w, Crowding());
    TraceEnds(k, w, Crowding());
    Registers(k, o);
    FinalOne(k, w, first[0]);
    FillsFirst(k, Final(k, w, first));
    var w2 := Final(k, Final(k, w, first), filled);
    FinalOne(k, w2, install[0]);
    Installs(k, w2, FIRST_PAIRS);
    FillsRest(k, Final(k, w2, install));
    FinalConcat(k, w, first, filled);
    FinalConcat(k, w, first + filled, install);
    FinalConcat(k, w, first + filled + install, rest);
    hide Final, Trace, IsRun, Apply, Fresh, FirstPolicy, SecondPolicy, ContentDigest, ValidPolicy, SamplePolicy;
  }

  lemma FillsFirst(k: Digests, w: World)
    requires Filling(w, 0) && w.state.policy == FirstPolicy(k)
    ensures var v := Final(k, w, Publications(0, FIRST_PAIRS));
            Filling(v, FIRST_PAIRS) && v.state.policy == w.state.policy
  {
    FirstIsSample(k);
    hide FirstPolicy, SamplePolicy, ValidPolicy;
    forall i | 0 <= i < FIRST_PAIRS ensures CoversPair(w, i) {
      SampleCovers(w.state.policy, 1, i);
    }
    PublishOn(k, w, 0, FIRST_PAIRS);
  }

  lemma FillsRest(k: Digests, w: World)
    requires Filling(w, FIRST_PAIRS) && w.state.policy == SecondPolicy(k)
    ensures Filling(Final(k, w, Publications(FIRST_PAIRS, MAX_EVIDENCE_SLOTS + 1 - FIRST_PAIRS)), MAX_EVIDENCE_SLOTS + 1)
  {
    SecondIsSample(k);
    hide SecondPolicy, SamplePolicy, ValidPolicy;
    forall i | FIRST_PAIRS <= i < MAX_EVIDENCE_SLOTS + 1 ensures CoversPair(w, i) {
      SampleCovers(w.state.policy, HARD_MAX_DOMAINS + 1, i);
    }
    PublishOn(k, w, FIRST_PAIRS, MAX_EVIDENCE_SLOTS + 1 - FIRST_PAIRS);
  }

  /** Digests that look at a policy's first domain only. */
  function ByFirstDomain(): Digests {
    Digests((s: seq<byte>) => ZeroDigest(),
            (p: Policy) => if p.domains != [] && p.domains[0].id == 1 then seq(32, _ => 1) else ZeroDigest(),
            (d: DomainConfig) => ZeroDigest(), (a: Authority, e: Evidence, t: u64) => ZeroDigest(),
            (d: Decision) => ZeroDigest(), (v: Verdict) => [])
  }

  /** One such run, with nothing left to assume. */
  lemma SomeStateIsNeverLoaded(o: Options)
    ensures var k, steps := ByFirstDomain(), Crowding();
            var ws := Trace(k, Fresh(k, o, SamplePolicy(1, HARD_MAX_DOMAINS)), steps);
            IsRun(k, ws, steps) && !Reopens(ws[|steps|])
  {
    var k := ByFirstDomain();
    TellsApart();
    hide *;
    SavedButNeverLoaded(k, o);
  }

  lemma TellsApart()
    ensures var k := ByFirstDomain(); ContentDigest(k, FirstPolicy(k)) != ContentDigest(k, SecondPolicy(k))
  {
    var k := ByFirstDomain();
    FirstIsSample(k);
    SecondIsSample(k);
    hide FirstPolicy, SecondPolicy, SamplePolicy, ValidPolicy;
    var one: Digest := seq(32, _ => 1);
    assert FirstPolicy(k).domains[0] == SampleDomain(1);
    assert SecondPolicy(k).domains[0] == SampleDomain(HARD_MAX_DOMAINS + 1);
    assert ContentDigest(k, FirstPolicy(k)) == one && ContentDigest(k, SecondPolicy(k)) == ZeroDigest();
    assert one[0] == 1 && ZeroDigest()[0] == 0;
  }

  // ---------------------------------------------- an installation that is lost

  /** A policy is installed while storage refuses the save, installed again with success, and a crash brings
      the first policy back. */
  lemma RetriedInstallForgotten(o: Options)
    requires o.maxAuditRecords <= MAX_AUDIT_RECORDS
    ensures var k, second := ByFirstDomain(), SamplePolicy(HARD_MAX_DOMAINS + 1, HARD_MAX_DOMAINS);
            var steps := [Step(Install(second, 0), UNSAVED), Step(Install(second, 0), WRITES)];
            var ws := Trace(k, Fresh(k, o, SamplePolicy(1, HARD_MAX_DOMAINS)), steps);
            && IsRun(k, ws, steps) && InstallPolicy(k, ws[1], second, 0, WRITES).status.Success? && Reopens(ws[2])
            && ws[2].state.policy == SecondPolicy(k) && Reopened(ws[2]).state.policy == FirstPolicy(k)
  {
    var k, second := ByFirstDomain(), SamplePolicy(HARD_MAX_DOMAINS + 1, HARD_MAX_DOMAINS);
    var a, b := Step(Install(second, 0), UNSAVED), Step(Install(second, 0), WRITES);
    var p := SamplePolicy(1, HARD_MAX_DOMAINS);
    var w := Fresh(k, o, p);
    hide *;
    FewRecords();
    FirstIsSample(k);
    FirstIsInitial(k);
    TraceTwo(k, w, a, b);
    TraceIsRun(k, w, [a, b]);
    InstallsUnsaved(o);
    StillReopens(k, o, p, Trace(k, w, [a, b]), [a, b], 2);
    ReopenPolicy(Trace(k, w, [a, b])[2]);
  }

  lemma FirstIsInitial(k: Digests)
    ensures FirstPolicy(k) == InitialPolicy(k, SamplePolicy(1, HARD_MAX_DOMAINS))
  {
    hide InitialPolicy, SamplePolicy;
  }

  lemma InstallsUnsaved(o: Options)
    ensures var k, second := ByFirstDomain(), SamplePolicy(HARD_MAX_DOMAINS + 1, HARD_MAX_DOMAINS);
            var w1 := Apply(k, Fresh(k, o, SamplePolicy(1, HARD_MAX_DOMAINS)), Step(Install(second, 0), UNSAVED));
            var w2 := Apply(k, w1, Step(Install(second, 0), WRITES));
            && InstallPolicy(k, w1, second, 0, WRITES).status.Success?
            && w2.state.policy == SecondPolicy(k) && w2.disk.saved.policy == FirstPolicy(k)
  {
    var k, second := ByFirstDomain(), SamplePolicy(HARD_MAX_DOMAINS + 1, HARD_MAX_DOMAINS);
    var w := Fresh(k, o, SamplePolicy(1, HARD_MAX_DOMAINS));
    assert w.accepting && w.state.policy == FirstPolicy(k) == w.disk.saved.policy by { hide SamplePolicy, InitialPolicy; }
    TellsApart();
    FirstIsSample(k);
    SecondIsSample(k);
    SameContent();
    hide Fresh, ValidPolicy, SamplePolicy, FirstPolicy, NextPolicy, ContentDigest, ByFirstDomain;
    InstallRefused(k, w, second);
    InstallRepeated(k, Apply(k, w, Step(Install(second, 0), UNSAVED)), second);
  }

  lemma InstallRefused(k: Digests, w: World, p: Policy)
    requires w.accepting && w.state.policy.generation != 0
    requires var next := NextPolicy(k, w.state.policy, p);
             next.generation != 0 && ValidPolicy(next) && ContentDigest(k, w.state.policy) != ContentDigest(k, next)
    ensures var v := Apply(k, w, Step(Install(p, 0), UNSAVED));
            && v.accepting && v.state.policy == NextPolicy(k, w.state.policy, p)
            && v.disk.saved.policy == w.disk.saved.policy
  {
    hide NextPolicy, ValidPolicy, ContentDigest;
  }

  lemma InstallRepeated(k: Digests, w: World, p: Policy)
    requires w.accepting && w.state.policy.generation != 0 && NextPolicy(k, w.state.policy, p).generation != 0
    requires ContentDigest(k, w.state.policy) == ContentDigest(k, NextPolicy(k, w.state.policy, p))
    ensures InstallPolicy(k, w, p, 0, WRITES).status.Success?
    ensures var v := Apply(k, w, Step(Install(p, 0), WRITES)); v.state.policy == w.state.policy && v.disk == w.disk
  {
    hide NextPolicy, ValidPolicy, ContentDigest;
  }

  lemma SameContent()
    ensures var k := ByFirstDomain();
            var next := NextPolicy(k, SecondPolicy(k), SamplePolicy(HARD_MAX_DOMAINS + 1, HARD_MAX_DOMAINS));
            next.generation == 3 && ContentDigest(k, SecondPolicy(k)) == ContentDigest(k, next)
  {
    var k := ByFirstDomain();
    var sample := SamplePolicy(HARD_MAX_DOMAINS + 1, HARD_MAX_DOMAINS);
    SecondIsSample(k);
    hide SecondPolicy, SamplePolicy, ValidPolicy, FindDomain;
    var next := NextPolicy(k, SecondPolicy(k), sample);
    assert sample.domains[0] == SampleDomain(HARD_MAX_DOMAINS + 1) == SecondPolicy(k).domains[0];
    assert next.domains[0] == NextDomain(k, SecondPolicy(k), sample.domains[0]);
    assert next.domains[0].id == HARD_MAX_DOMAINS + 1;
    assert ContentDigest(k, SecondPolicy(k)) == ZeroDigest() && ContentDigest(k, next) == ZeroDigest();
  }

  lemma ReopenPolicy(w: World)
    ensures Reopened(w).state.policy == w.disk.saved.policy
  {
    RebuildKeeps(w.disk.saved.(audit := Merge(w.disk.saved.audit, w.disk.journal, w.options.maxAuditRecords)),
                 w.disk.journal);
    hide Rebuild, Merge;
  }
}
