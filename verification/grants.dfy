/** What a grant rests on, over whole runs: evidence of all three kinds, accepted from publishers entitled to
    publish it in this runtime, this epoch and under this policy, in time, and keeping every rule. */
module Grants {
  import opened Checked
  import opened Wire
  import opened Model
  import opened PolicyRules
  import opened Engine
  import opened EvidenceRules
  import opened HysteresisRules
  import opened Replay
  import opened Governing
  import opened Frames
  import opened Binding
  import opened History
  import opened Publication
  import opened Amounts
  import opened Admission
  import opened Lawfulness
  import opened Ingestion
  import opened Supersession
  import Durability
  import Revalidation

  // ------------------------------------------------------- where evidence is from

  /** The step drops all evidence: a new policy, a new epoch or a new runtime. */
  predicate Drops(k: Digests, w: World, s: Step) {
    match s.op
    case Install(p, _) => Durability.Installs(k, w, p)
    case NewEpoch(epoch) => epoch > w.state.epoch
    case CrashAndReopen => Reopens(w)
    case _ => false
  }

  /** The step publishes the content, which the governor accepts from a publisher entitled to publish it. */
  predicate Sources(k: Digests, w: World, s: Step, id: u64, kind: EvidenceKind, content: Snapshot) {
    && s.op.PublishOp? && IsFor(s.op.snapshot, id, kind)
    && var r := Publish(k, w, s.op.snapshot, s.io);
    && IsAccepted(r) && content == Bound(k, Digested(k, s.op.snapshot), r.value.generation)
    && MayPublish(w, Digested(k, s.op.snapshot))
  }

  /** The content comes from a step of the run, and nothing was dropped since. */
  predicate Sourced(k: Digests, ws: seq<World>, steps: seq<Step>, n: nat, id: u64, kind: EvidenceKind, content: Snapshot)
    requires |ws| == |steps| + 1 && n <= |steps|
  {
    exists j :: 0 <= j < n && Sources(k, ws[j], steps[j], id, kind, content)
                && forall i :: j < i < n ==> !Drops(k, ws[i], steps[i])
  }

  lemma NoneInDropped(slots: seq<Slot>, id: u64, kind: EvidenceKind)
    requires forall i :: 0 <= i < |slots| ==> slots[i].content.None?
    ensures ContentIn(slots, id, kind).None?
  {
  }

  lemma EvolvedContent(a: seq<Slot>, b: seq<Slot>, id: u64, kind: EvidenceKind)
    requires SlotsEvolve(a, b)
    ensures ContentIn(b, id, kind).None? || ContentIn(b, id, kind) == ContentIn(a, id, kind)
  {
    EvolvedLater(a, b, id, kind);
    match SlotIndex(a, id, kind)
    case Some(i) => IndexEvolves(a, b, id, kind);
    case None =>
      forall j | 0 <= j < |a| ensures !Holds(b[j], id, kind) {
        assert SameKey(a[j].state, b[j].state) && !Holds(a[j], id, kind);
      }
  }

  lemma InstallDrops(k: Digests, w: World, p: Policy, tick: u64, io: Io, id: u64, kind: EvidenceKind)
    requires Durability.Installs(k, w, p)
    ensures ContentIn(InstallPolicy(k, w, p, tick, io).world.slots, id, kind).None?
  {
    var v := InstallPolicy(k, w, p, tick, io).world;
    assert v.slots == DropContents(w.slots) by { hide ValidPolicy, NextPolicy, ContentDigest, ContentIn, DropContents; }
    NoneInDropped(v.slots, id, kind);
    hide ValidPolicy, NextPolicy, ContentDigest, ContentIn, InstallPolicy;
  }

  lemma QuietContent(k: Digests, w: World, s: Step, id: u64, kind: EvidenceKind)
    requires Quiet(s.op)
    ensures var c := ContentIn(Apply(k, w, s).slots, id, kind); c.None? || c == ContentIn(w.slots, id, kind)
    ensures Drops(k, w, s) ==> ContentIn(Apply(k, w, s).slots, id, kind).None?
  {
    var v, committed := QuietFrame(k, w, s);
    assert SlotsEvolve(w.slots, v.slots) by { hide SlotsEvolve, ValidPolicy; }
    PersistKeepsSlots(v, true, s.io);
    EvolvedContent(w.slots, v.slots, id, kind);
    if Drops(k, w, s) {
      InstallDrops(k, w, s.op.policy, s.op.tick, s.io, id, kind);
    }
    hide InstallPolicy, Touches, Persist, ContentIn, SlotsEvolve, Durability.Installs, Register, Adopt, FencePublisher;
  }

  lemma EpochContent(w: World, next: u64, io: Io, id: u64, kind: EvidenceKind)
    ensures next > w.state.epoch ==> ContentIn(AdvanceEpoch(w, next, io).world.slots, id, kind).None?
    ensures next <= w.state.epoch ==> AdvanceEpoch(w, next, io).world == w
  {
    EpochFrame(w, next, io);
    PersistKeepsSlots(Advanced(w, next), true, io);
    NoneInDropped(DropContents(w.slots), id, kind);
    hide AdvanceEpoch, Persist, ContentIn;
  }

  lemma PublishContent(k: Digests, w: World, s: Step, id: u64, kind: EvidenceKind)
    requires s.op.PublishOp?
    ensures var c := ContentIn(Apply(k, w, s).slots, id, kind);
            c.None? || c == ContentIn(w.slots, id, kind) || Sources(k, w, s, id, kind, c.value)
  {
    var snapshot, r := s.op.snapshot, Publish(k, w, s.op.snapshot, s.io);
    hide Publish, ContentIn, Sources, SlotsEvolve;
    if IsAccepted(r) {
      AcceptedSources(k, w, s, id, kind);
    } else {
      OtherPublication(k, w, snapshot, s.io);
      EvolvedContent(w.slots, r.world.slots, id, kind);
    }
  }

  lemma AcceptedSources(k: Digests, w: World, s: Step, id: u64, kind: EvidenceKind)
    requires s.op.PublishOp? && IsAccepted(Publish(k, w, s.op.snapshot, s.io))
    ensures var c := ContentIn(Publish(k, w, s.op.snapshot, s.io).world.slots, id, kind);
            c == ContentIn(w.slots, id, kind) || (c.Some? && Sources(k, w, s, id, kind, c.value))
  {
    PublicationAdvances(k, w, s.op.snapshot, s.io, id, kind);
    PublishedAs(k, w, s.op.snapshot, s.io);
    hide Publish, ContentIn, MayPublish, Digested, GenerationIn, ValidSnapshot, Acceptable, Repeats, Misordered, Bound;
  }

  lemma EvaluateContent(k: Digests, w: World, s: Step)
    requires s.op.EvaluateOp?
    ensures Apply(k, w, s).slots == w.slots
  {
    hide EvaluateDomain, DecideFor, AppendJournal, Attempt, Settled, Enter;
    EvaluateFrame(k, w, s.op.domain, s.op.tick, s.op.cancelled, s.op.wall, s.io);
    var w1 := w.(clock := EvaluationTick(w, s.op.tick));
    var attempt := Attempt(k, w, s.op.domain, s.op.tick, s.op.cancelled, s.op.wall);
    if attempt.Some? {
      AppendJournalKeeps(w1, attempt.value, s.io);
    }
  }

  lemma ReopenContent(w: World, id: u64, kind: EvidenceKind)
    requires Sound(w)
    ensures ContentIn(Reopened(w).slots, id, kind).None?
  {
    Revalidation.ReopenedSlots(w);
    NoneInDropped(Reopened(w).slots, id, kind);
    hide Reopened, ContentIn, StateSound;
  }

  /** Content that is there after a step was there before it, and the step drops nothing, or it is what the
      step publishes. */
  lemma StepContent(k: Digests, w: World, s: Step, id: u64, kind: EvidenceKind)
    requires Sound(w)
    ensures var c := ContentIn(Apply(k, w, s).slots, id, kind);
            c.Some? ==> !Drops(k, w, s) && (c == ContentIn(w.slots, id, kind) || Sources(k, w, s, id, kind, c.value))
  {
    hide Sound, AdvanceEpoch, EvaluateDomain, Publish, Reopened, Reopens, ContentIn, Sources, Durability.Installs;
    match s.op
    case NewEpoch(epoch) => EpochContent(w, epoch, s.io, id, kind);
    case PublishOp(_) => PublishContent(k, w, s, id, kind);
    case EvaluateOp(_, _, _, _) => EvaluateContent(k, w, s);
    case CrashAndReopen => ReopenContent(w, id, kind);
    case _ =>
      QuietContent(k, w, s, id, kind);
      hide Apply;
  }

  lemma {:induction false} ContentIsSourced(k: Digests, ws: seq<World>, steps: seq<Step>, n: nat, id: u64,
                                            kind: EvidenceKind)
    requires IsRun(k, ws, steps) && Sound(ws[0]) && ws[0].slots == [] && n < |ws|
    requires ContentIn(ws[n].slots, id, kind).Some?
    ensures Sourced(k, ws, steps, n, id, kind, ContentIn(ws[n].slots, id, kind).value)
  {
    if n == 0 {
      assert false;
    } else {
      var c := ContentIn(ws[n].slots, id, kind);
      assert ws[n] == Apply(k, ws[n - 1], steps[n - 1]);
      hide *;
      RunSound(k, ws, steps, n - 1);
      StepContent(k, ws[n - 1], steps[n - 1], id, kind);
      if c == ContentIn(ws[n - 1].slots, id, kind) {
        ContentIsSourced(k, ws, steps, n - 1, id, kind);
        SourcedOn(k, ws, steps, n, id, kind, c.value);
      } else {
        SourcedNow(k, ws, steps, n, id, kind, c.value);
      }
    }
  }

  lemma SourcedNow(k: Digests, ws: seq<World>, steps: seq<Step>, n: nat, id: u64, kind: EvidenceKind, c: Snapshot)
    requires |ws| == |steps| + 1 && 0 < n <= |steps| && Sources(k, ws[n - 1], steps[n - 1], id, kind, c)
    ensures Sourced(k, ws, steps, n, id, kind, c)
  {
    hide Sources, Drops;
  }

  lemma SourcedOn(k: Digests, ws: seq<World>, steps: seq<Step>, n: nat, id: u64, kind: EvidenceKind, c: Snapshot)
    requires |ws| == |steps| + 1 && 0 < n <= |steps|
    requires Sourced(k, ws, steps, n - 1, id, kind, c) && !Drops(k, ws[n - 1], steps[n - 1])
    ensures Sourced(k, ws, steps, n, id, kind, c)
  {
    hide Sources, Drops;
    var j :| 0 <= j < n - 1 && Sources(k, ws[j], steps[j], id, kind, c)
             && forall i :: j < i < n - 1 ==> !Drops(k, ws[i], steps[i]);
    assert forall i :: j < i < n ==> !Drops(k, ws[i], steps[i]);
  }

  // ------------------------------------------------------------- what is granted

  /** The domain's evidence keeps every rule of the policy, at the clock the evaluation runs at, and leaves
      `room` units. */
  ghost predicate Grantable(w: World, id: u64, tick: u64, room: nat) {
    var p, e := w.state.policy, CurrentEvidence(w, id);
    match FindDomain(p.domains, id)
    case None => false
    case Some(c) =>
      && Admissible(p, c, CurrentExpectation(w, id), e, tick) && Closes(p, c, e)
      && exists b :: Balances(p, c, e, b) && Lawful(p, c, e, b) && RoomLeft(c, b)
                     && room == b.ceiling - b.guaranteed - c.emergencyReserve - b.contingent
  }

  lemma EvaluationGrants(w: World, id: u64, tick: u64)
    requires Sound(w)
    ensures var r := CurrentEvaluation(w, id, tick);
            && (r.authorized <==> Grantable(w, id, tick, r.increment))
            && (!r.authorized ==> forall room :: !Grantable(w, id, tick, room))
  {
    if c :| FindDomain(w.state.policy.domains, id) == Some(c) {
      AuthorizedIff(w.state.policy, c, CurrentExpectation(w, id), CurrentEvidence(w, id), tick);
    }
    hide Sound, Evaluate, CurrentExpectation, CurrentEvidence, Admissible, Closes, Balances, Lawful, ValidPolicy;
  }

  /** A decision is authorized exactly when within policy is announced and the evidence of the moment keeps
      every rule and leaves room; it hands out all of that room, and nothing otherwise. */
  lemma DecisionGrantsRoom(k: Digests, w: World, s: Step, d: Decision)
    requires Sound(w) && Issues(k, w, s, d) && s.op.EvaluateOp?
    ensures var tick := EvaluationTick(w, s.op.tick);
            && (d.authorized ==> d.effective.WithinPolicy? && Grantable(w, s.op.domain, tick, d.increment))
            && (!d.authorized ==> d.increment == 0
                                  && (d.effective.WithinPolicy? ==>
                                        forall room :: !Grantable(w, s.op.domain, tick, room)))
  {
    var w1 := w.(clock := EvaluationTick(w, s.op.tick));
    Revalidation.DecisionIssued(k, w, s);
    ClockSound(w, w1);
    hide EvaluateDomain, Sound, EvaluationTick, CurrentEvaluation, Announcing, Grantable;
    EvaluationGrants(w1, s.op.domain, w1.clock);
    forall room { ClockGrantable(w, w1, s.op.domain, w1.clock, room); }
  }

  lemma ClockGrantable(w: World, v: World, id: u64, tick: u64, room: nat)
    requires v == w.(clock := v.clock)
    ensures Grantable(w, id, tick, room) == Grantable(v, id, tick, room)
  {
    hide Admissible, Closes, Balances, Lawful;
  }

  /** In every run: a grant rests on evidence of all three kinds that was accepted from publishers entitled to
      publish it, with no new policy, epoch or runtime since, and that keeps every rule at this moment; and it
      is all the room those rules leave. */
  lemma EveryGrantIsEarned(k: Digests, o: Options, p: Policy, ws: seq<World>, steps: seq<Step>, n: nat, d: Decision)
    requires ValidPolicy(InitialPolicy(k, p)) && IsRun(k, ws, steps) && ws[0] == Fresh(k, o, p) && n < |steps|
    requires steps[n].op.EvaluateOp? && Issues(k, ws[n], steps[n], d) && d.authorized
    ensures var w, id := ws[n], steps[n].op.domain;
            var e := CurrentEvidence(w, id);
            && Grantable(w, id, EvaluationTick(w, steps[n].op.tick), d.increment) && Present(e)
            && Sourced(k, ws, steps, n, id, Capacity, OfCapacity(e.capacity.value))
            && Sourced(k, ws, steps, n, id, Reservation, OfReservation(e.reservations.value))
            && Sourced(k, ws, steps, n, id, Admission, OfAdmission(e.admissions.value))
  {
    FreshSound(k, o, p);
    assert Fresh(k, o, p).slots == [];
    hide *;
    RunSound(k, ws, steps, n);
    DecisionGrantsRoom(k, ws[n], steps[n], d);
    EvidenceIsSourced(k, ws, steps, n, steps[n].op.domain, EvaluationTick(ws[n], steps[n].op.tick), d.increment);
  }

  lemma EvidenceIsSourced(k: Digests, ws: seq<World>, steps: seq<Step>, n: nat, id: u64, tick: u64, room: nat)
    requires IsRun(k, ws, steps) && Sound(ws[0]) && ws[0].slots == [] && n < |ws| && Grantable(ws[n], id, tick, room)
    ensures var e := CurrentEvidence(ws[n], id);
            && Present(e)
            && Sourced(k, ws, steps, n, id, Capacity, OfCapacity(e.capacity.value))
            && Sourced(k, ws, steps, n, id, Reservation, OfReservation(e.reservations.value))
            && Sourced(k, ws, steps, n, id, Admission, OfAdmission(e.admissions.value))
  {
    hide *;
    GrantableIsPresent(ws[n], id, tick, room);
    ContentIsSourced(k, ws, steps, n, id, Capacity);
    ContentIsSourced(k, ws, steps, n, id, Reservation);
    ContentIsSourced(k, ws, steps, n, id, Admission);
  }

  lemma GrantableIsPresent(w: World, id: u64, tick: u64, room: nat)
    requires Grantable(w, id, tick, room)
    ensures var e := CurrentEvidence(w, id);
            && Present(e)
            && ContentIn(w.slots, id, Capacity) == Some(OfCapacity(e.capacity.value))
            && ContentIn(w.slots, id, Reservation) == Some(OfReservation(e.reservations.value))
            && ContentIn(w.slots, id, Admission) == Some(OfAdmission(e.admissions.value))
  {
    hide ContentIn, CurrentExpectation, AllTimely, WithinBounds, MemberKnown, SoundRecords, CapacityWithin, Closes,
      Balances, Lawful;
  }
}
