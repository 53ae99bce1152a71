/** A run in which a fence raised by an epoch advance is cleared, and new oversubscription authorized, by one
    qualifying evaluation where three confirmations are configured: findings of AT_LIMIT made before the
    advance are counted as confirmations of what was found after it. */
module EarlyRelaxation {
  import opened Checked
  import opened Wire
  import opened Model
  import opened PolicyRules
  import opened Engine
  import opened EvidenceRules
  import opened HysteresisRules
  import opened Replay
  import opened Governing
  import opened Frames
  import opened RecoveryOptions
  import opened Sample
  import opened SampleEvaluation
  import opened FailingRuns
  import opened PublishingRuns

  // ------------------------------------------------------------- the inputs

  /** Three confirmations to relax, no cooldown, no margin. */
  const THREE_CONFIRMATIONS := Hysteresis(1, 3, 0, 0)

  function Configured(): Policy { SamplePolicy(1, 1).(hysteresis := THREE_CONFIRMATIONS) }

  function InForce(k: Digests): Policy { InitialPolicy(k, Configured()) }

  function KindOfSlot(j: nat): EvidenceKind {
    if j == 0 then Capacity else if j == 1 then Reservation else Admission
  }

  /** What is published in round `g` for slot `j`. */
  function Offer(g: u64, j: nat, epoch: u64, amount: u64): (s: Snapshot)
    requires g < 10 && j < 3
    ensures HeaderOf(s) == Header(1, g, epoch, 0) && KindOf(s) == KindOfSlot(j)
    ensures ProvenanceOf(s) == Provenance(1, 1, epoch, Number(g, j), Number(g, j), ZeroDigest())
  {
    var from := Provenance(1, 1, epoch, Number(g, j), Number(g, j), ZeroDigest());
    if j == 0 then OfCapacity(CapacitySnapshot(1, g, epoch, 0, [HEALTHY_MEMBER], from))
    else if j == 1 then OfReservation(ReservationSnapshot(1, g, epoch, 0, [], from))
    else OfAdmission(AdmissionSnapshot(1, g, epoch, 0, [DemandFor(amount)], from))
  }

  /** Its sequence and evidence id. */
  function Number(g: nat, j: nat): (n: u64)
    requires g < 10 && j < 10
  {
    10 * g + j
  }

  lemma InForceIs(k: Digests)
    ensures var p := InForce(k);
            && Like(p) && p.hysteresis == THREE_CONFIRMATIONS && ValidPolicy(p) && p.generation == 1
            && p.domains == [SampleDomain(1)] && p.riskBudget.generation == 1
            && FindDomain(p.domains, 1) == Some(SampleDomain(1))
  {
    var p := InForce(k);
    var sample := SamplePolicy(1, 1).(generation := 1, digest := p.digest);
    SampleIsValid(1, 1, 1, p.digest);
    assert p.domains == SamplePolicy(1, 1).domains;
    assert p == sample.(hysteresis := THREE_CONFIRMATIONS);
    SameButHysteresis(sample, p);
    assert p.domains[0] == SampleDomain(1);
  }

  lemma SameButHysteresis(p: Policy, q: Policy)
    requires ValidPolicy(p) && q == p.(hysteresis := q.hysteresis) && ValidHysteresis(q.hysteresis)
    ensures ValidPolicy(q)
  {
    forall d | d in q.domains ensures ValidDomain(q, d) {
      assert ValidDomain(p, d);
    }
  }

  // ------------------------------------------------------------ publications

  /** One publisher has published in round `g` for the first `c` slots, and for all in the round before. */
  predicate Lane(w: World, p: Policy, epoch: u64, g: u64, c: nat) {
    && 1 <= g <= 2 && c <= 3 && w.accepting && w.clock == 0 && w.state.epoch == epoch != 0 && w.state.policy == p
    && OnePublisher(w.state.publishers, epoch, g, c)
    && |w.slots| == (if g == 1 then c else 3)
    && forall j :: 0 <= j < |w.slots| ==> InLane(w.slots[j].state, j, if j < c then g else g - 1)
  }

  predicate OnePublisher(ps: seq<Publisher>, epoch: u64, g: nat, c: nat)
    requires g < 10 && c < 10
  {
    && |ps| == 1 && ps[0].publisher == ps[0].incarnation == 1 && ps[0].epoch == epoch && !ps[0].fenced
    && ps[0].lastSequence < Number(g, c)
  }

  predicate InLane(s: SlotState, j: nat, g: nat) {
    s.domain == 1 && s.kind == KindOfSlot(j) && s.generation == g && s.evidenceId == 10 * g + j
  }

  lemma LaneSlot(w: World, p: Policy, epoch: u64, g: u64, c: nat)
    requires Lane(w, p, epoch, g, c) && c < 3
    ensures Ensured(w.slots, 1, KindOfSlot(c))
            == if g == 1 then (w.slots + [EmptySlot(1, KindOfSlot(c))], c) else (w.slots, c)
  {
    if g == 2 {
      assert InLane(w.slots[c].state, c, 1);
    }
    match SlotIndex(w.slots, 1, KindOfSlot(c))
    case Some(i) => assert InLane(w.slots[i].state, i, if i < c then g else g - 1);
    case None =>
  }

  lemma OfferIsValid(k: Digests, g: u64, j: nat, epoch: u64, amount: u64)
    requires 1 <= g <= 2 && j < 3 && epoch != 0 && amount <= HARD_MAX_CAPACITY_UNITS
    ensures var s := Digested(k, Offer(g, j, epoch, amount)); ValidSnapshot(k.hash, s) && Offered(s, g, j, epoch)
  {
  }

  predicate Offered(s: Snapshot, g: u64, j: nat, epoch: u64)
    requires g < 10 && j < 3
  {
    && HeaderOf(s) == Header(1, g, epoch, 0) && KindOf(s) == KindOfSlot(j)
    && ProvenanceOf(s) == Provenance(1, 1, epoch, Number(g, j), Number(g, j), ProvenanceOf(s).payloadDigest)
  }

  lemma LaneRuling(w: World, p: Policy, epoch: u64, g: u64, c: nat, s: Snapshot)
    requires Lane(w, p, epoch, g, c) && c < 3 && FindDomain(p.domains, 1).Some? && Offered(s, g, c, epoch)
    ensures PublisherFault(w, s).Success? && PublisherIndex(w.state.publishers, 1) == Some(0)
    ensures var (ensured, at) := Ensured(w.slots, 1, KindOfSlot(c));
            Rule(w.options, ensured[at].state, w.state.publishers[0].lastSequence, s, ProvenanceOf(s).payloadDigest)
            == Accept(g)
  {
    OnlyPublisher(w.state.publishers);
    LaneSlot(w, p, epoch, g, c);
    hide Ensured;
    if g == 2 {
      assert InLane(w.slots[c].state, c, 1);
    }
  }

  /** What a publication of the run leaves: its content in its slot, everything else as it was. */
  predicate Took(k: Digests, w: World, v: World, g: u64, c: nat, s: Snapshot) {
    && c < |v.slots| && |w.slots| <= |v.slots| && v.slots[c].content == Some(Bound(k, s, g))
    && (forall j :: 0 <= j < |w.slots| && j != c ==> v.slots[j] == w.slots[j])
    && v.state.domains == w.state.domains && v.disk.journal == w.disk.journal && v.options == w.options
  }

  lemma OfferTaken(k: Digests, w: World, p: Policy, epoch: u64, g: u64, c: nat, amount: u64)
    requires Lane(w, p, epoch, g, c) && c < 3 && FindDomain(p.domains, 1).Some? && amount <= HARD_MAX_CAPACITY_UNITS
    ensures var s := Offer(g, c, epoch, amount);
            var v := Apply(k, w, Step(PublishOp(s), WRITES));
            Lane(v, p, epoch, g, c + 1) && Took(k, w, v, g, c, Digested(k, s))
  {
    hide Bound, Digested, Offer, Lane, Took, Apply, Ingest, Occupy, ValidSnapshot;
    InRound(w, p, epoch, g, c);
    var s := Digested(k, Offer(g, c, epoch, amount));
    OfferIsValid(k, g, c, epoch, amount);
    PublishApplied(k, w, Offer(g, c, epoch, amount));
    OfferAccepted(k, w, p, epoch, g, c, s);
    OccupyLane(k, w, p, epoch, g, c, s);
  }

  lemma InRound(w: World, p: Policy, epoch: u64, g: u64, c: nat)
    requires Lane(w, p, epoch, g, c)
    ensures 1 <= g <= 2 && c <= 3 && epoch != 0 && |w.state.publishers| == 1
  {
  }

  lemma OfferAccepted(k: Digests, w: World, p: Policy, epoch: u64, g: u64, c: nat, s: Snapshot)
    requires Lane(w, p, epoch, g, c) && c < 3 && FindDomain(p.domains, 1).Some?
    requires ValidSnapshot(k.hash, s) && Offered(s, g, c, epoch)
    ensures Ingest(k, w, s, WRITES) == Occupy(k, w, s, 0, g, WRITES)
  {
    LaneRuling(w, p, epoch, g, c, s);
    hide ValidSnapshot, PublisherFault, Rule, Ensured, Occupy, InLane, OnePublisher;
  }

  lemma OccupyLane(k: Digests, w: World, p: Policy, epoch: u64, g: u64, c: nat, s: Snapshot)
    requires Lane(w, p, epoch, g, c) && c < 3 && Offered(s, g, c, epoch)
    ensures var v := Occupy(k, w, s, 0, g, WRITES).world;
            Lane(v, p, epoch, g, c + 1) && Took(k, w, v, g, c, s)
  {
    hide *;
    InRound(w, p, epoch, g, c);
    FilledLane(k, w, p, epoch, g, c, s);
    OccupyFrame(k, w, s, 0, g, WRITES);
    OccupySucceeds(k, w, s, 0, g);
    PublishedIs(k, w, s, 0, g);
    var u := Published(k, w, s, 0, g);
    PersistSame(u);
    LaneOrdered(w, p, epoch, g, c, s);
    LaneOf(w, u, p, epoch, g, c);
    LaneKept(u, Persist(u, true, WRITES).world, p, epoch, g, c + 1);
    TookOf(k, w, u, Persist(u, true, WRITES).world, g, c, s);
  }

  lemma PublishedIs(k: Digests, w: World, s: Snapshot, i: nat, g: u64)
    requires i < |w.state.publishers|
    ensures Published(k, w, s, i, g) == w.(
              slots := Filled(k, w.slots, s, g), dirty := true,
              state := w.state.(publishers :=
                w.state.publishers[i := w.state.publishers[i].(lastSequence := ProvenanceOf(s).sequence)]))
  {
    hide Filled;
  }

  lemma LaneOrdered(w: World, p: Policy, epoch: u64, g: u64, c: nat, s: Snapshot)
    requires Lane(w, p, epoch, g, c) && c < 3 && Offered(s, g, c, epoch) && |w.state.publishers| == 1
    ensures OnePublisher(w.state.publishers[0 := w.state.publishers[0].(lastSequence := ProvenanceOf(s).sequence)],
                         epoch, g, c + 1)
  {
    PublisherMoves(w.state.publishers, epoch, g, c);
    hide OnePublisher, InLane;
  }

  lemma PublisherMoves(ps: seq<Publisher>, epoch: u64, g: nat, c: nat)
    requires g < 10 && c < 9 && OnePublisher(ps, epoch, g, c)
    ensures OnePublisher(ps[0 := ps[0].(lastSequence := Number(g, c))], epoch, g, c + 1)
  {
  }

  lemma LaneOf(w: World, u: World, p: Policy, epoch: u64, g: u64, c: nat)
    requires Lane(w, p, epoch, g, c) && c < 3 && OnePublisher(u.state.publishers, epoch, g, c + 1)
    requires u == w.(slots := u.slots, dirty := u.dirty, state := w.state.(publishers := u.state.publishers))
    requires |u.slots| == (if g == 1 then c + 1 else 3)
    requires forall j :: 0 <= j < |u.slots| ==> InLane(u.slots[j].state, j, if j < c + 1 then g else g - 1)
    ensures Lane(u, p, epoch, g, c + 1)
  {
    hide OnePublisher, InLane;
  }

  lemma LaneKept(u: World, v: World, p: Policy, epoch: u64, g: u64, c: nat)
    requires Lane(u, p, epoch, g, c)
    requires v.accepting == u.accepting && v.clock == u.clock && v.slots == u.slots
    requires v.state.epoch == u.state.epoch && v.state.policy == u.state.policy && v.state.publishers == u.state.publishers
    ensures Lane(v, p, epoch, g, c)
  {
    hide OnePublisher, InLane;
  }

  lemma TookOf(k: Digests, w: World, u: World, v: World, g: u64, c: nat, s: Snapshot)
    requires v.slots == u.slots && v.state.domains == w.state.domains && v.disk.journal == w.disk.journal
    requires v.options == w.options && c < |u.slots| && |w.slots| <= |u.slots| && u.slots[c].content == Some(Bound(k, s, g))
    requires forall j :: 0 <= j < |w.slots| && j != c ==> u.slots[j] == w.slots[j]
    ensures Took(k, w, v, g, c, s)
  {
    hide Bound;
  }

  lemma OccupySucceeds(k: Digests, w: World, s: Snapshot, i: nat, g: u64)
    requires i < |w.state.publishers|
    ensures Occupy(k, w, s, i, g, WRITES).status.Success?
  {
    hide Filled;
  }

  lemma PersistSame(w: World)
    ensures var v := Persist(w, true, WRITES).world;
            && v.accepting == w.accepting && v.clock == w.clock && v.options == w.options && v.slots == w.slots
            && v.state.epoch == w.state.epoch && v.state.policy == w.state.policy && v.state.domains == w.state.domains
            && v.state.publishers == w.state.publishers && v.disk.journal == w.disk.journal
  {
  }

  /** The slot table after a publication of the run. */
  lemma FilledLane(k: Digests, w: World, p: Policy, epoch: u64, g: u64, c: nat, s: Snapshot)
    requires Lane(w, p, epoch, g, c) && c < 3 && Offered(s, g, c, epoch)
    ensures var slots := Filled(k, w.slots, s, g);
            && |w.slots| <= |slots| == (if g == 1 then c + 1 else 3) && slots[c].content == Some(Bound(k, s, g))
            && (forall j :: 0 <= j < |w.slots| && j != c ==> slots[j] == w.slots[j])
            && forall j :: 0 <= j < |slots| ==> InLane(slots[j].state, j, if j < c + 1 then g else g - 1)
  {
    LaneSlot(w, p, epoch, g, c);
    hide Ensured, Bound;
    var slots := Filled(k, w.slots, s, g);
    forall j | 0 <= j < |slots| ensures InLane(slots[j].state, j, if j < c + 1 then g else g - 1) {
      if j < |w.slots| {
        assert InLane(w.slots[j].state, j, if j < c then g else g - 1);
      }
    }
  }

  // ------------------------------------------------------------- one round

  predicate Carries(c: Snapshot, g: u64, j: nat, epoch: u64, amount: u64) {
    && HeaderOf(c) == Header(1, g, epoch, 0) && KindOf(c) == KindOfSlot(j)
    && match c
       case OfCapacity(x) => x.resources == [HEALTHY_MEMBER]
       case OfReservation(x) => x.guarantees == []
       case OfAdmission(x) => x.records == [DemandFor(amount)]
  }

  lemma OfferCarries(k: Digests, g: u64, j: nat, epoch: u64, amount: u64)
    requires g < 10 && j < 3
    ensures Carries(Bound(k, Digested(k, Offer(g, j, epoch, amount)), g), g, j, epoch, amount)
  {
  }

  /** All three contents of a round are in their slots. */
  predicate Stocked(slots: seq<Slot>, g: u64, epoch: u64, amount: u64) {
    && |slots| == 3
    && forall j :: 0 <= j < 3 ==> slots[j].content.Some? && Carries(slots[j].content.value, g, j, epoch, amount)
  }

  function RoundSteps(g: u64, epoch: u64, amount: u64): (steps: seq<Step>)
    requires g < 10
    ensures |steps| == 3
  {
    [Step(PublishOp(Offer(g, 0, epoch, amount)), WRITES), Step(PublishOp(Offer(g, 1, epoch, amount)), WRITES),
     Step(PublishOp(Offer(g, 2, epoch, amount)), WRITES)]
  }

  lemma RoundStocks(k: Digests, w: World, p: Policy, epoch: u64, g: u64, amount: u64)
    requires Lane(w, p, epoch, g, 0) && g < 10 && FindDomain(p.domains, 1).Some? && amount <= HARD_MAX_CAPACITY_UNITS
    ensures var v := Final(k, w, RoundSteps(g, epoch, amount));
            && Lane(v, p, epoch, g, 3) && Stocked(v.slots, g, epoch, amount)
            && v.state.domains == w.state.domains && v.disk.journal == w.disk.journal && v.options == w.options
  {
    hide *;
    InRound(w, p, epoch, g, 0);
    FinalRound(k, w, g, epoch, amount);
    var a, b, c := Offer(g, 0, epoch, amount), Offer(g, 1, epoch, amount), Offer(g, 2, epoch, amount);
    var w1 := Apply(k, w, Step(PublishOp(a), WRITES));
    var w2 := Apply(k, w1, Step(PublishOp(b), WRITES));
    var v := Apply(k, w2, Step(PublishOp(c), WRITES));
    OfferTaken(k, w, p, epoch, g, 0, amount);
    OfferTaken(k, w1, p, epoch, g, 1, amount);
    OfferTaken(k, w2, p, epoch, g, 2, amount);
    SlotCount(v, p, epoch, g);
    OfferCarries(k, g, 0, epoch, amount);
    OfferCarries(k, g, 1, epoch, amount);
    OfferCarries(k, g, 2, epoch, amount);
    ThreeTaken(k, [w, w1, w2, v], g, epoch, amount, [Digested(k, a), Digested(k, b), Digested(k, c)]);
  }

  lemma FinalRound(k: Digests, w: World, g: u64, epoch: u64, amount: u64)
    requires g < 10
    ensures Final(k, w, RoundSteps(g, epoch, amount))
            == Apply(k, Apply(k, Apply(k, w, Step(PublishOp(Offer(g, 0, epoch, amount)), WRITES)),
                              Step(PublishOp(Offer(g, 1, epoch, amount)), WRITES)),
                     Step(PublishOp(Offer(g, 2, epoch, amount)), WRITES))
  {
    hide Final, Apply, Offer;
    FinalThree(k, w, Step(PublishOp(Offer(g, 0, epoch, amount)), WRITES),
               Step(PublishOp(Offer(g, 1, epoch, amount)), WRITES), Step(PublishOp(Offer(g, 2, epoch, amount)), WRITES));
  }

  lemma ThreeTaken(k: Digests, ws: seq<World>, g: u64, epoch: u64, amount: u64, ss: seq<Snapshot>)
    requires |ws| == 4 && |ss| == 3 && |ws[3].slots| == 3
    requires forall j :: 0 <= j < 3 ==>
                           Took(k, ws[j], ws[j + 1], g, j, ss[j]) && Carries(Bound(k, ss[j], g), g, j, epoch, amount)
    ensures Stocked(ws[3].slots, g, epoch, amount) && ws[3].state.domains == ws[0].state.domains
    ensures ws[3].disk.journal == ws[0].disk.journal && ws[3].options == ws[0].options
  {
    hide Bound, Carries;
    assert Took(k, ws[0], ws[1], g, 0, ss[0]) && Took(k, ws[1], ws[2], g, 1, ss[1]) && Took(k, ws[2], ws[3], g, 2, ss[2]);
  }

  lemma SlotCount(w: World, p: Policy, epoch: u64, g: u64)
    requires Lane(w, p, epoch, g, 3)
    ensures |w.slots| == 3
  {
  }

  lemma FinalThree(k: Digests, w: World, a: Step, b: Step, c: Step)
    ensures Final(k, w, [a, b, c]) == Apply(k, Apply(k, Apply(k, w, a), b), c)
  {
    hide Apply;
    assert [a] + [b] == [a, b] && [a, b] + [c] == [a, b, c];
    FinalConcat(k, w, [a], [b]);
    FinalConcat(k, w, [a, b], [c]);
    FinalOne(k, w, a);
    FinalOne(k, Apply(k, w, a), b);
    FinalOne(k, Apply(k, Apply(k, w, a), b), c);
  }

  // ------------------------------------------------------------ evaluations

  lemma LaneContents(w: World, p: Policy, epoch: u64, g: u64, amount: u64)
    requires Lane(w, p, epoch, g, 3) && Stocked(w.slots, g, epoch, amount)
    ensures Offers(CurrentEvidence(w, 1), amount)
    ensures forall j :: 0 <= j < 3 ==> GenerationIn(w.slots, 1, KindOfSlot(j)) == g
    ensures var e := CurrentEvidence(w, 1);
            && e.capacity.value.domain == e.reservations.value.domain == e.admissions.value.domain == 1
            && e.capacity.value.epoch == e.reservations.value.epoch == e.admissions.value.epoch == epoch
            && e.capacity.value.generation == e.reservations.value.generation == e.admissions.value.generation == g
  {
    forall j | 0 <= j < 3 ensures SlotIndex(w.slots, 1, KindOfSlot(j)) == Some(j) {
      assert InLane(w.slots[j].state, j, g);
      match SlotIndex(w.slots, 1, KindOfSlot(j))
      case Some(i) => assert InLane(w.slots[i].state, i, g);
      case None =>
    }
    hide SlotIndex;
    assert KindOfSlot(0) == Capacity && KindOfSlot(1) == Reservation && KindOfSlot(2) == Admission;
    forall j | 0 <= j < 3
      ensures Carries(w.slots[j].content.value, g, j, epoch, amount) && w.slots[j].state.generation == g
    {
      assert InLane(w.slots[j].state, j, g);
    }
  }

  lemma RoundOutcome(k: Digests, w: World, epoch: u64, g: u64, amount: u64)
    requires Lane(w, InForce(k), epoch, g, 3) && Stocked(w.slots, g, epoch, amount) && amount <= 200
    ensures var e := CurrentEvaluation(w, 1, 0);
            && e.assessment.verdict.outcome == VerdictFor(amount) && e.authorized == (amount < 200)
  {
    InForceIs(k);
    var p := InForce(k);
    LaneContents(w, p, epoch, g, amount);
    var x, e := CurrentExpectation(w, 1), CurrentEvidence(w, 1);
    assert x == Expectation(epoch, 1, 1, g, g, g, 1) by {
      assert KindOfSlot(0) == Capacity && KindOfSlot(1) == Reservation && KindOfSlot(2) == Admission;
      hide InForce, GenerationIn, CurrentEvidence, Stocked, InLane, OnePublisher;
    }
    assert BindingFault(p, p.domains[0], x, e).None? by { hide InForce, CurrentEvidence, CurrentExpectation, Offers, Lane; }
    hide InForce, CurrentEvidence, CurrentExpectation, AssessEvidence, Stocked, BindingFault, Offers, Like;
    AssessedAs(p, x, e, amount);
  }

  /** A recorded evaluation: the decision is handed out, and of the runtime only the domain's entry moves. */
  predicate Evaluates(w: World, v: World, entry: DomainState) {
    && v.accepting == w.accepting && v.clock == w.clock && v.slots == w.slots && v.options == w.options
    && v.state.policy == w.state.policy && v.state.publishers == w.state.publishers && v.state.epoch == w.state.epoch
    && |v.disk.journal| == |w.disk.journal| + 1 && JournalSize(v.disk.journal) <= JournalSize(w.disk.journal) + MAX_FRAME
    && v.state.domains == Enter(w.state.domains, entry)
  }

  lemma EvaluationRecorded(k: Digests, w: World, wall: u64)
    requires RoomFor(w) && |w.state.domains| < MAX_DOMAINS_STATE && w.clock == 0
    ensures var (d, a) := DecideFor(k, w, 1, 0);
            && Evaluates(w, Apply(k, w, Request(1, wall)), Settled(w, 1, d, a))
            && EvaluateDomain(k, w, 1, 0, false, wall, WRITES).value == Some(d)
  {
    var (d, a) := DecideFor(k, w, 1, 0);
    var r := RecordFor(k, w, 1, d, a, wall);
    assert w.(clock := EvaluationTick(w, 0)) == w;
    RequestApplies(k, w, 1, wall);
    RecordHeader(k, w, 1, 0, wall);
    hide DecideFor, RecordFor, AppendJournal, Settled, Attempt, Enter, RoomFor, FrameFits, EvaluationTick, Accepted, Persist,
      Apply, Evaluates;
    FitsWhenRoom(w, r);
    AttemptGiven(k, w, 1, wall);
    AppendsTo(w, w, r);
    AppendJournalKeeps(w, r, WRITES);
    SettledSame(w, AppendJournal(w, r, WRITES).world, 1, d, a);
    EvaluationPersists(w, AppendJournal(w, r, WRITES).world, r, d, a);
  }

  lemma EvaluationPersists(w: World, v: World, r: AuditRecord, d: Decision, a: Announcement)
    requires v == w.(disk := w.disk.(journal := w.disk.journal + [r]),
                     state := w.state.(audit := Newest(w.state.audit + [r], w.options.maxAuditRecords)))
    requires |r.summary| <= MAX_AUDIT_SUMMARY && d.issuedTick == 0 && w.clock == 0
    requires Settled(v, 1, d, a) == Settled(w, 1, d, a)
    ensures var x := Persist(Accepted(v, 1, d, a), false, WRITES);
            x.status.Success? && Evaluates(w, x.world, Settled(w, 1, d, a))
  {
    hide Settled, Enter;
    assert (w.disk.journal + [r])[..|w.disk.journal|] == w.disk.journal;
  }

  /** The runtime state of the one domain. */
  predicate Standing(ds: seq<DomainState>, sticky: Outcome, c: u32) {
    |ds| == 1 && ds[0].domain == 1 && ds[0].sticky == sticky && ds[0].confirmations == c && ds[0].lastEscalationTick == 0
  }

  /** Not evaluated yet, or found AT_LIMIT `c` times. */
  predicate Limited(ds: seq<DomainState>, c: u32) { if c == 0 then ds == [] else Standing(ds, AtLimit, c) }

  lemma SingleIndex(ds: seq<DomainState>)
    requires |ds| == 1 && ds[0].domain == 1
    ensures DomainIndex(ds, 1) == Some(0)
  {
  }

  lemma DecidedFor(k: Digests, w: World)
    ensures var e := CurrentEvaluation(w, 1, 0);
            var (d, a) := DecideFor(k, w, 1, 0);
            && a == Announce(w.state.policy.hysteresis, WorkingState(w, 1, e.assessment.verdict.outcome), SignalOf(e, 0))
            && d.effective == a.effective && d.authorized == (a.effective.WithinPolicy? && e.authorized)
            && d.fenced == a.state.fenced
            && Settled(w, 1, d, a).domain == a.state.domain && Settled(w, 1, d, a).sticky == a.state.sticky
            && Settled(w, 1, d, a).confirmations == a.state.confirmations
            && Settled(w, 1, d, a).lastEscalationTick == a.state.lastEscalationTick
            && SignalOf(e, 0).raw == e.assessment.verdict.outcome && SignalOf(e, 0).tick == 0
  {
    hide CurrentEvaluation, CurrentExpectation, Announce;
  }

  lemma FindingCounted(k: Digests, w: World, epoch: u64, g: u64, c: u32)
    requires Lane(w, InForce(k), epoch, g, 3) && Stocked(w.slots, g, epoch, 200) && Limited(w.state.domains, c) && c < 2
    ensures var (d, a) := DecideFor(k, w, 1, 0);
            Limited(Enter(w.state.domains, Settled(w, 1, d, a)), c + 1)
  {
    RoundOutcome(k, w, epoch, g, 200);
    DecidedFor(k, w);
    InForceIs(k);
    hide CurrentEvaluation, DecideFor, Settled, InForce, CurrentExpectation, ValidPolicy, Like, SignalOf, Stocked, InLane;
    if c > 0 {
      SingleIndex(w.state.domains);
    }
  }

  lemma OneConfirmationRelaxes(k: Digests, w: World, epoch: u64, g: u64)
    requires Lane(w, InForce(k), epoch, g, 3) && Stocked(w.slots, g, epoch, 100)
    requires Standing(w.state.domains, Stale, 2) && w.state.domains[0].fenced
    ensures var (d, a) := DecideFor(k, w, 1, 0); d.effective.WithinPolicy? && d.authorized && !d.fenced
  {
    RoundOutcome(k, w, epoch, g, 100);
    DecidedFor(k, w);
    InForceIs(k);
    hide CurrentEvaluation, DecideFor, Settled, InForce, CurrentExpectation, ValidPolicy, Like, SignalOf, Stocked, InLane;
    SingleIndex(w.state.domains);
  }

  // -------------------------------------------------------------- the run

  lemma RegistersFresh(k: Digests, o: Options)
    ensures var v := Apply(k, Fresh(k, o, Configured()), Step(RegisterOp(1, 1, 1, 0), WRITES));
            Lane(v, InForce(k), 1, 1, 0) && v.state.domains == [] && v.disk.journal == [] && v.options == o
  {
    hide InitialPolicy, SamplePolicy;
  }

  lemma AdvancesEpoch(k: Digests, w: World, p: Policy)
    requires Lane(w, p, 1, 1, 3) && Standing(w.state.domains, AtLimit, 2)
    ensures var u := Apply(k, w, Step(NewEpoch(2), WRITES));
            && u.state.domains == FenceForEpoch(w.state.domains, 2) && u.disk.journal == w.disk.journal
            && u.options == w.options && u.accepting && u.clock == 0 && u.state.epoch == 2 && u.state.policy == p
            && u.state.publishers == FenceAll(w.state.publishers) && u.slots == DropContents(w.slots)
  {
    EpochFrame(w, 2, WRITES);
    PersistSame(Advanced(w, 2));
    hide AdvanceEpoch, Persist, InLane, OnePublisher;
  }

  lemma RenewsPublisher(k: Digests, w: World, u: World, p: Policy)
    requires Lane(w, p, 1, 1, 3)
    requires u.accepting && u.clock == 0 && u.state.epoch == 2 && u.state.policy == p
    requires u.state.publishers == FenceAll(w.state.publishers) && u.slots == DropContents(w.slots)
    ensures var v := Apply(k, u, Step(RegisterOp(1, 1, 2, 0), WRITES));
            && Lane(v, p, 2, 2, 0) && v.state.domains == u.state.domains
            && v.disk.journal == u.disk.journal && v.options == u.options
  {
    var v := Apply(k, u, Step(RegisterOp(1, 1, 2, 0), WRITES));
    OnlyPublisher(u.state.publishers);
    hide PublisherIndex;
    forall j | 0 <= j < |v.slots| ensures InLane(v.slots[j].state, j, 1) {
      assert InLane(w.slots[j].state, j, 1);
    }
  }

  function Opening(): seq<Step> { [Step(RegisterOp(1, 1, 1, 0), WRITES)] + RoundSteps(1, 1, 200) }

  function Findings(wall: u64): seq<Step> { [Request(1, wall), Request(1, wall)] }

  function Advance(): seq<Step> {
    [Step(NewEpoch(2), WRITES), Step(RegisterOp(1, 1, 2, 0), WRITES)] + RoundSteps(2, 2, 100)
  }

  /** Two evaluations find AT_LIMIT; the epoch advances, the publisher registers again and offers less demand. */
  function Lead(wall: u64): seq<Step> { Opening() + Findings(wall) + Advance() }

  predicate Wide(o: Options) { 3 <= o.maxJournalRecords && 3 * MAX_FRAME <= o.maxJournalBytes }

  lemma Opens(k: Digests, o: Options)
    ensures var v := Final(k, Fresh(k, o, Configured()), Opening());
            && Lane(v, InForce(k), 1, 1, 3) && Stocked(v.slots, 1, 1, 200)
            && v.state.domains == [] && v.disk.journal == [] && v.options == o
  {
    var w, first := Fresh(k, o, Configured()), Step(RegisterOp(1, 1, 1, 0), WRITES);
    RegistersFresh(k, o);
    InForceIs(k);
    FinalOne(k, w, first);
    FinalConcat(k, w, [first], RoundSteps(1, 1, 200));
    hide Fresh, InForce, Lane, Stocked, Apply, Final, ValidPolicy, Like;
    RoundStocks(k, Apply(k, w, first), InForce(k), 1, 1, 200);
  }

  lemma EvaluatesStill(w: World, v: World, entry: DomainState, p: Policy, epoch: u64, g: u64)
    requires Lane(w, p, epoch, g, 3) && Evaluates(w, v, entry)
    ensures Lane(v, p, epoch, g, 3)
  {
    hide InLane, OnePublisher, Enter;
  }

  /** One of the two findings. */
  lemma Finds(k: Digests, w: World, c: u32, wall: u64)
    requires Lane(w, InForce(k), 1, 1, 3) && Stocked(w.slots, 1, 1, 200) && Limited(w.state.domains, c) && c < 2
    requires Wide(w.options) && |w.disk.journal| == c && JournalSize(w.disk.journal) <= c * MAX_FRAME
    ensures var v := Apply(k, w, Request(1, wall));
            && Lane(v, InForce(k), 1, 1, 3) && Stocked(v.slots, 1, 1, 200) && Limited(v.state.domains, c + 1)
            && v.options == w.options && |v.disk.journal| == c + 1 && JournalSize(v.disk.journal) <= (c + 1) * MAX_FRAME
  {
    hide *;
    var (d, a) := DecideFor(k, w, 1, 0);
    FindsRoom(w, InForce(k), c);
    EvaluationRecorded(k, w, wall);
    FindingCounted(k, w, 1, 1, c);
    EvaluatesStill(w, Apply(k, w, Request(1, wall)), Settled(w, 1, d, a), InForce(k), 1, 1);
    EvaluatesJournal(w, Apply(k, w, Request(1, wall)), Settled(w, 1, d, a), c);
  }

  lemma FindsRoom(w: World, p: Policy, c: u32)
    requires Lane(w, p, 1, 1, 3) && Limited(w.state.domains, c) && c < 2
    requires Wide(w.options) && |w.disk.journal| == c && JournalSize(w.disk.journal) <= c * MAX_FRAME
    ensures RoomFor(w) && |w.state.domains| < MAX_DOMAINS_STATE && w.clock == 0
  {
  }

  lemma EvaluatesJournal(w: World, v: World, entry: DomainState, c: nat)
    requires Evaluates(w, v, entry) && |w.disk.journal| == c && JournalSize(w.disk.journal) <= c * MAX_FRAME
    ensures |v.disk.journal| == c + 1 && JournalSize(v.disk.journal) <= (c + 1) * MAX_FRAME && v.options == w.options
    ensures v.slots == w.slots && v.state.domains == Enter(w.state.domains, entry)
  {
    hide Enter, JournalSize;
  }

  lemma FindsTwice(k: Digests, w: World, wall: u64)
    requires Lane(w, InForce(k), 1, 1, 3) && Stocked(w.slots, 1, 1, 200) && w.state.domains == []
    requires Wide(w.options) && w.disk.journal == []
    ensures var v := Final(k, w, Findings(wall));
            && Lane(v, InForce(k), 1, 1, 3) && Standing(v.state.domains, AtLimit, 2)
            && v.options == w.options && |v.disk.journal| == 2 && JournalSize(v.disk.journal) <= 2 * MAX_FRAME
  {
    var s := Request(1, wall);
    assert [s] + [s] == [s, s];
    FinalConcat(k, w, [s], [s]);
    FinalOne(k, w, s);
    FinalOne(k, Apply(k, w, s), s);
    hide Lane, Stocked, Apply, Final, InForce, Request;
    Finds(k, w, 0, wall);
    Finds(k, Apply(k, w, s), 1, wall);
  }

  lemma Advances(k: Digests, w: World)
    requires Lane(w, InForce(k), 1, 1, 3) && Standing(w.state.domains, AtLimit, 2)
    ensures var v := Final(k, w, Advance());
            && Lane(v, InForce(k), 2, 2, 3) && Stocked(v.slots, 2, 2, 100) && Standing(v.state.domains, Stale, 2)
            && v.state.domains[0].fenced && v.disk.journal == w.disk.journal && v.options == w.options
  {
    var a, b := Step(NewEpoch(2), WRITES), Step(RegisterOp(1, 1, 2, 0), WRITES);
    var p, u := InForce(k), Apply(k, w, a);
    var v := Apply(k, u, b);
    InForceIs(k);
    assert [a] + [b] == [a, b];
    FinalConcat(k, w, [a], [b]);
    FinalConcat(k, w, [a, b], RoundSteps(2, 2, 100));
    FinalOne(k, w, a);
    FinalOne(k, u, b);
    hide Lane, Stocked, Apply, Final, InForce, ValidPolicy, Like;
    AdvancesEpoch(k, w, p);
    RenewsPublisher(k, w, u, p);
    RoundStocks(k, v, p, 2, 2, 100);
  }

  /** The domain is restricted and fenced, three confirmations are configured, nothing has been heard of it
      since it was fenced, and the first qualifying evaluation clears the fence and is authorized. */
  lemma AuthorizedAtOnce(k: Digests, o: Options, wall: u64)
    requires Wide(o)
    ensures var ws := Trace(k, Fresh(k, o, Configured()), Lead(wall));
            var w := ws[|Lead(wall)|];
            var reply := EvaluateDomain(k, w, 1, 0, false, wall, WRITES);
            && ValidPolicy(InForce(k)) && IsRun(k, ws, Lead(wall))
            && w.state.policy.hysteresis.deescalationConfirmations == 3
            && |w.state.domains| == 1 && Restricted(w.state.domains[0]) && w.state.domains[0].fenced
            && reply.value.Some? && reply.value.value.authorized && !reply.value.value.fenced
  {
    var w := Fresh(k, o, Configured());
    InForceIs(k);
    TraceIsRun(k, w, Lead(wall));
    TraceEnds(k, w, Lead(wall));
    FinalConcat(k, w, Opening(), Findings(wall));
    FinalConcat(k, w, Opening() + Findings(wall), Advance());
    hide Fresh, Final, Trace, IsRun, InForce, ValidPolicy, Like, Opening, Findings, Advance, EvaluateDomain, DecideFor,
      Stocked, InLane, OnePublisher;
    Opens(k, o);
    var w1 := Final(k, w, Opening());
    FindsTwice(k, w1, wall);
    var w2 := Final(k, w1, Findings(wall));
    Advances(k, w2);
    var w3 := Final(k, w2, Advance());
    EvaluationRecorded(k, w3, wall);
    OneConfirmationRelaxes(k, w3, 2, 2);
  }
}
