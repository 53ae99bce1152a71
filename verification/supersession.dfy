/** When a decision still binds, over whole runs: until its domain is decided anew, the governor restarts, the
    epoch, the policy or its evidence changes, its evidence is put in question, or its domain is fenced. */
module Supersession {
  import opened Checked
  import opened Wire
  import opened Model
  import opened PolicyRules
  import opened Engine
  import opened EvidenceRules
  import opened HysteresisRules
  import opened Replay
  import opened Governing
  import opened Frames
  import opened Binding
  import opened History
  import opened Publication
  import opened RecoverySteps
  import Revalidation

  // ------------------------------------------------------------ what can move

  /** The step ends the runtime and starts another. */
  predicate Restarts(w: World, s: Step) { s.op.CrashAndReopen? && Reopens(w) }

  /** The step records a decision about the domain. */
  predicate Decides(k: Digests, w: World, s: Step, id: u64) {
    s.op.EvaluateOp? && s.op.domain == id && Logged(k, w, s).Some?
  }

  predicate RestartedBetween(ws: seq<World>, steps: seq<Step>, m: nat, n: nat)
    requires |ws| == |steps| + 1 && n <= |steps|
  {
    exists j :: m <= j < n && Restarts(ws[j], steps[j])
  }

  predicate DecidedBetween(k: Digests, ws: seq<World>, steps: seq<Step>, id: u64, m: nat, n: nat)
    requires |ws| == |steps| + 1 && n <= |steps|
  {
    exists j :: m <= j < n && Decides(k, ws[j], steps[j], id)
  }

  function LastFor(ds: seq<DomainState>, id: u64): Option<u64> {
    match DomainIndex(ds, id)
    case Some(i) => Some(ds[i].lastDecision)
    case None => None
  }

  predicate FencedNow(w: World, id: u64) {
    match DomainIndex(w.state.domains, id)
    case Some(i) => w.state.domains[i].fenced
    case None => false
  }

  /** A slot some time later: its generation has grown, or it holds what it held, or nothing. */
  predicate SlotLater(a: seq<Slot>, b: seq<Slot>, id: u64, kind: EvidenceKind) {
    || GenerationIn(b, id, kind) > GenerationIn(a, id, kind)
    || (GenerationIn(b, id, kind) == GenerationIn(a, id, kind)
        && (ContentIn(b, id, kind) == ContentIn(a, id, kind) || ContentIn(b, id, kind).None?))
  }

  predicate PolicyLater(p: Policy, q: Policy) { q == p || q.generation > p.generation }

  /** The same runtime some time later. */
  ghost predicate Later(w: World, v: World, id: u64) {
    && v.state.incarnation == w.state.incarnation && PolicyLater(w.state.policy, v.state.policy)
    && forall kind: EvidenceKind :: SlotLater(w.slots, v.slots, id, kind)
  }

  lemma LaterTransitive(u: World, w: World, v: World, id: u64)
    requires Later(u, w, id) && Later(w, v, id)
    ensures Later(u, v, id)
  {
    forall kind: EvidenceKind ensures SlotLater(u.slots, v.slots, id, kind) {
      assert SlotLater(u.slots, w.slots, id, kind) && SlotLater(w.slots, v.slots, id, kind);
    }
  }

  /** The incarnation on disk is the running one. */
  predicate SavedAlike(w: World) { w.disk.saved.incarnation == w.state.incarnation }

  /** Nothing a decision depends on differs. */
  predicate Alike(w: World, v: World) {
    && v.slots == w.slots && v.state.policy == w.state.policy && v.state.incarnation == w.state.incarnation
    && v.state.domains == w.state.domains && v.state.decisionsIssued == w.state.decisionsIssued
    && (SavedAlike(w) ==> SavedAlike(v))
  }

  lemma PersistAlike(w: World, force: bool, io: Io)
    ensures Alike(w, Persist(w, force, io).world)
  {
  }

  lemma AlikeLater(w: World, v: World, id: u64)
    requires Alike(w, v)
    ensures Later(w, v, id)
  {
    hide GenerationIn, ContentIn;
  }

  // --------------------------------------------------------------- every step

  /** Slots that evolve are later ones. */
  lemma EvolvedLater(a: seq<Slot>, b: seq<Slot>, id: u64, kind: EvidenceKind)
    requires SlotsEvolve(a, b)
    ensures SlotLater(a, b, id, kind)
  {
    match SlotIndex(a, id, kind)
    case Some(i) => IndexEvolves(a, b, id, kind);
    case None =>
      forall j | 0 <= j < |a| ensures !Holds(b[j], id, kind) {
        assert SameKey(a[j].state, b[j].state) && !Holds(a[j], id, kind);
      }
  }

  lemma TouchedLater(k: Digests, w: World, v: World, s: Step, id: u64)
    requires Sound(w) && Touches(w, v)
    requires v.state.policy == w.state.policy
             || (s.op.Install? && v.state.policy == NextPolicy(k, w.state.policy, s.op.policy))
    ensures Later(w, v, id) && v.state.domains == w.state.domains && v.state.decisionsIssued == w.state.decisionsIssued
    ensures v.disk == w.disk
  {
    forall kind: EvidenceKind ensures SlotLater(w.slots, v.slots, id, kind) { EvolvedLater(w.slots, v.slots, id, kind); }
    if v.state.policy != w.state.policy {
      ValidGeneration(w.state.policy);
      ValidGeneration(v.state.policy);
      Revalidation.NextGeneration(k, w.state.policy, s.op.policy);
    }
    hide SlotsEvolve, ValidPolicy, NextPolicy, SlotLater, SlotsBound;
  }

  lemma ValidGeneration(p: Policy)
    requires ValidPolicy(p)
    ensures p.generation != 0
  {
  }

  lemma QuietLater(k: Digests, w: World, s: Step, id: u64)
    requires Sound(w) && SavedAlike(w) && Quiet(s.op)
    ensures var v := Apply(k, w, s);
            && Later(w, v, id) && SavedAlike(v)
            && v.state.domains == w.state.domains && v.state.decisionsIssued == w.state.decisionsIssued
  {
    hide Apply, Touches, Sound, Later, NextPolicy, Persist;
    var v, committed := QuietFrame(k, w, s);
    TouchedLater(k, w, v, s, id);
    var u := Persist(v, true, s.io).world;
    PersistAlike(v, true, s.io);
    AlikeLater(v, u, id);
    LaterTransitive(w, v, u, id);
    assert v.state.incarnation == w.state.incarnation by { LaterIncarnation(w, v, id); }
  }

  lemma LaterIncarnation(w: World, v: World, id: u64)
    requires Later(w, v, id)
    ensures v.state.incarnation == w.state.incarnation
  {
  }

  lemma {:induction false} FencedLast(ds: seq<DomainState>, epoch: u64, id: u64)
    ensures DomainIndex(FenceForEpoch(ds, epoch), id) == DomainIndex(ds, id)
    ensures LastFor(FenceForEpoch(ds, epoch), id) == LastFor(ds, id)
  {
    if ds != [] {
      var n := |ds| - 1;
      assert FenceForEpoch(ds, epoch)[..n] == FenceForEpoch(ds[..n], epoch);
      FencedLast(ds[..n], epoch, id);
    }
  }

  lemma EpochLater(w: World, next: u64, io: Io, id: u64)
    requires SavedAlike(w)
    ensures var v := AdvanceEpoch(w, next, io).world;
            && Later(w, v, id) && SavedAlike(v) && v.state.decisionsIssued == w.state.decisionsIssued
            && LastFor(v.state.domains, id) == LastFor(w.state.domains, id)
  {
    EpochFrame(w, next, io);
    var v := Advanced(w, next);
    DroppedSlots(w.slots);
    forall kind: EvidenceKind ensures SlotLater(w.slots, v.slots, id, kind) { EvolvedLater(w.slots, v.slots, id, kind); }
    FencedLast(w.state.domains, next, id);
    var u := Persist(v, true, io).world;
    PersistAlike(v, true, io);
    AlikeLater(v, u, id);
    assert Later(w, v, id) by { hide SlotLater; }
    LaterTransitive(w, v, u, id);
    AlikeLater(w, w, id);
    hide AdvanceEpoch, Persist, Later, LastFor, SlotsEvolve;
  }

  /** An accepted publication moves the generation of its own pair on and leaves every other pair alone. */
  lemma FilledLater(k: Digests, slots: seq<Slot>, s: Snapshot, g: u64, id: u64, kind: EvidenceKind)
    requires g == GenerationIn(slots, HeaderOf(s).domain, KindOf(s)) + 1
    ensures SlotLater(slots, Filled(k, slots, s, g), id, kind)
  {
    FilledSlots(k, slots, s, g, id, kind);
    hide Filled, GenerationIn, ContentIn, Bound;
  }

  lemma PublishLater(k: Digests, w: World, snapshot: Snapshot, io: Io, id: u64)
    requires Sound(w) && SavedAlike(w)
    ensures var v := Publish(k, w, snapshot, io).world;
            && Later(w, v, id) && SavedAlike(v)
            && v.state.domains == w.state.domains && v.state.decisionsIssued == w.state.decisionsIssued
  {
    hide Ingest, Touches, Filled, Persist, Later, Sound, Digested;
    var s := Digested(k, snapshot);
    var r := Ingest(k, w, s, io);
    PublishFrame(k, w, s, io);
    if IsAccepted(r) {
      var i := PublisherIndex(w.state.publishers, ProvenanceOf(s).publisher).value;
      var v := Published(k, w, s, i, r.value.generation);
      PublishedLater(k, w, s, i, r.value.generation, id);
      PersistAlike(v, true, io);
      AlikeLater(v, r.world, id);
      LaterTransitive(w, v, r.world, id);
      LaterIncarnation(w, r.world, id);
    } else {
      TouchedLater(k, w, r.world, Step(SaveOp, io), id);
      LaterIncarnation(w, r.world, id);
    }
  }

  lemma PublishedLater(k: Digests, w: World, s: Snapshot, i: nat, g: u64, id: u64)
    requires i < |w.state.publishers|
    requires var (ensured, at) := Ensured(w.slots, HeaderOf(s).domain, KindOf(s)); g == ensured[at].state.generation + 1
    ensures var v := Published(k, w, s, i, g);
            && Later(w, v, id) && v.state.domains == w.state.domains && v.state.decisionsIssued == w.state.decisionsIssued
            && v.disk == w.disk
  {
    IndexAfterEnsure(w.slots, HeaderOf(s).domain, KindOf(s), id, KindOf(s));
    hide Ensured;
    forall kind: EvidenceKind ensures SlotLater(w.slots, Filled(k, w.slots, s, g), id, kind) {
      FilledLater(k, w.slots, s, g, id, kind);
    }
    hide Filled, SlotLater;
  }

  lemma EnteredLast(ds: seq<DomainState>, d: DomainState, id: u64)
    ensures LastFor(Enter(ds, d), id) == if d.domain == id then Some(d.lastDecision) else LastFor(ds, id)
  {
    match DomainIndex(ds, d.domain)
    case Some(i) => IndexStays(ds, i, d, id);
    case None => IndexGrows(ds, d, id);
  }

  /** What a step makes of the decision counter and of the domain's last decision. */
  predicate CountsOn(k: Digests, w: World, s: Step, v: World, id: u64) {
    && v.state.decisionsIssued
       == (if Logged(k, w, s).Some? then Next(w.state.decisionsIssued) else w.state.decisionsIssued)
    && LastFor(v.state.domains, id)
       == if Decides(k, w, s, id) then Some(v.state.decisionsIssued) else LastFor(w.state.domains, id)
  }

  /** An accepted decision takes the next number and leaves it with its domain. */
  lemma AcceptedCounts(k: Digests, w: World, v: World, domain: u64, id: u64)
    requires SameRuntime(v, w)
    ensures var (d, a) := DecideFor(k, w, domain, w.clock);
            var u := Accepted(v, domain, d, a);
            && u.state.decisionsIssued == Next(w.state.decisionsIssued) && u.slots == w.slots && u.disk == v.disk
            && u.state.policy == w.state.policy && u.state.incarnation == w.state.incarnation
            && LastFor(u.state.domains, id)
               == if domain == id then Some(Next(w.state.decisionsIssued)) else LastFor(w.state.domains, id)
  {
    var (d, a) := DecideFor(k, w, domain, w.clock);
    SettledSame(w, v, domain, d, a);
    Revalidation.SettledFields(k, w, domain, w.clock);
    DecisionNumber(k, w, domain, w.clock);
    EnteredLast(w.state.domains, Settled(w, domain, d, a), id);
    hide DecideFor, Settled, Enter, LastFor;
  }

  lemma DecisionNumber(k: Digests, w: World, domain: u64, tick: u64)
    ensures DecideFor(k, w, domain, tick).0.id == Next(w.state.decisionsIssued)
  {
    hide CurrentEvaluation, Announcing;
  }

  lemma LoggedIs(k: Digests, w: World, s: Step)
    requires s.op.EvaluateOp?
    ensures var attempt := Attempt(k, w, s.op.domain, s.op.tick, s.op.cancelled, s.op.wall);
            var w1 := w.(clock := EvaluationTick(w, s.op.tick));
            Logged(k, w, s).Some? <==> attempt.Some? && AppendJournal(w1, attempt.value, s.io).status.Success?
  {
    var attempt := Attempt(k, w, s.op.domain, s.op.tick, s.op.cancelled, s.op.wall);
    if attempt.Some? {
      AppendClock(w, w.(clock := EvaluationTick(w, s.op.tick)), attempt.value, s.io);
    }
    hide Attempt, AppendJournal;
  }

  lemma EvaluateLater(k: Digests, w: World, s: Step, id: u64)
    requires SavedAlike(w) && s.op.EvaluateOp?
    ensures var v := Apply(k, w, s); Later(w, v, id) && SavedAlike(v) && CountsOn(k, w, s, v, id)
  {
    hide EvaluateDomain, DecideFor, AppendJournal, Persist, Attempt, Accepted, Later, LastFor, Logged;
    var op := s.op;
    EvaluateFrame(k, w, op.domain, op.tick, op.cancelled, op.wall, s.io);
    LoggedIs(k, w, s);
    var w1 := w.(clock := EvaluationTick(w, op.tick));
    AlikeLater(w, w1, id);
    AlikeLater(w, w, id);
    if Attempt(k, w, op.domain, op.tick, op.cancelled, op.wall).Some? {
      var r := Attempt(k, w, op.domain, op.tick, op.cancelled, op.wall).value;
      var x := AppendJournal(w1, r, s.io);
      AppendJournalKeeps(w1, r, s.io);
      AlikeLater(w, x.world, id);
      var (d, a) := DecideFor(k, w1, op.domain, w1.clock);
      var u := Accepted(x.world, op.domain, d, a);
      AcceptedCounts(k, w1, x.world, op.domain, id);
      UnmovedLater(w, u, id);
      PersistAlike(u, false, s.io);
      AlikeLater(u, Persist(u, false, s.io).world, id);
      LaterTransitive(w, u, Persist(u, false, s.io).world, id);
    }
  }

  lemma UnmovedLater(w: World, v: World, id: u64)
    requires v.slots == w.slots && v.state.policy == w.state.policy && v.state.incarnation == w.state.incarnation
    ensures Later(w, v, id)
  {
    hide GenerationIn, ContentIn;
  }

  /** Every step of the same runtime. */
  lemma StepLater(k: Digests, w: World, s: Step, id: u64)
    requires Sound(w) && SavedAlike(w) && !Restarts(w, s)
    ensures var v := Apply(k, w, s); Later(w, v, id) && SavedAlike(v) && CountsOn(k, w, s, v, id)
  {
    hide Sound, AdvanceEpoch, Publish, EvaluateDomain, Later, Reopens, Attempt, AppendJournal, LastFor;
    match s.op
    case NewEpoch(epoch) => EpochLater(w, epoch, s.io, id);
    case PublishOp(snapshot) => PublishLater(k, w, snapshot, s.io, id);
    case EvaluateOp(_, _, _, _) => EvaluateLater(k, w, s, id);
    case CrashAndReopen => AlikeLater(w, w, id);
    case _ =>
      QuietLater(k, w, s, id);
      hide Apply;
  }

  /** A restart takes the next incarnation. */
  lemma RestartAdvances(k: Digests, w: World, s: Step)
    requires Sound(w) && SavedAlike(w) && Restarts(w, s)
    ensures var v := Apply(k, w, s); v.state.incarnation == w.state.incarnation + 1 && SavedAlike(v)
  {
    hide Sound, Load, Synced, EmptySlots, TryLoad, Reopened, Reopens;
    ReopensBelow(w);
    ReopenedNext(w);
  }

  lemma ReopensBelow(w: World)
    requires Sound(w) && Reopens(w)
    ensures w.disk.saved.incarnation < U64_LIMIT - 1
  {
    LoadSound(w.options, w.disk);
    hide Load, StateSound, Readable, RecordsHeld;
  }

  lemma ReopenedNext(w: World)
    requires Sound(w)
    ensures var v := Reopened(w); v.state.incarnation == Next(w.disk.saved.incarnation) && SavedAlike(v)
  {
    LoadSound(w.options, w.disk);
    hide Load, StateSound, RecordsHeld, EmptySlots, FlagAll;
  }

  // ------------------------------------------------------------------- runs

  lemma {:induction false} IncarnationsGrow(k: Digests, ws: seq<World>, steps: seq<Step>, m: nat, n: nat)
    requires IsRun(k, ws, steps) && Sound(ws[0]) && SavedAlike(ws[0]) && m <= n < |ws|
    ensures SavedAlike(ws[n]) && ws[m].state.incarnation <= ws[n].state.incarnation
    ensures RestartedBetween(ws, steps, m, n) <==> ws[m].state.incarnation < ws[n].state.incarnation
    decreases n
  {
    hide Sound, Apply, Restarts, SavedAlike;
    if n > 0 {
      IncarnationsGrow(k, ws, steps, if m < n then m else n - 1, n - 1);
      RunSound(k, ws, steps, n - 1);
      assert ws[n] == Apply(k, ws[n - 1], steps[n - 1]);
      if Restarts(ws[n - 1], steps[n - 1]) {
        RestartAdvances(k, ws[n - 1], steps[n - 1]);
      } else {
        StepLater(k, ws[n - 1], steps[n - 1], 0);
        LaterIncarnation(ws[n - 1], ws[n], 0);
      }
    }
    hide *;
  }

  /** The domain's last decision between two moments of one runtime: the one it was, unless another was
      recorded, whose number is larger. */
  predicate LastLater(w: World, v: World, id: u64, decided: bool) {
    var a, b := LastFor(w.state.domains, id), LastFor(v.state.domains, id);
    if decided then b.Some? && w.state.decisionsIssued < b.value <= v.state.decisionsIssued else b == a
  }

  lemma CountsOnLater(k: Digests, u: World, w: World, s: Step, v: World, id: u64, decided: bool)
    requires LastLater(u, w, id, decided) && CountsOn(k, w, s, v, id)
    requires u.state.decisionsIssued <= w.state.decisionsIssued < U64_LIMIT - 1
    ensures LastLater(u, v, id, decided || Decides(k, w, s, id))
    ensures w.state.decisionsIssued <= v.state.decisionsIssued <= w.state.decisionsIssued + 1
  {
    hide Logged, LastFor;
  }

  lemma {:induction false} SameRuntimeLater(k: Digests, ws: seq<World>, steps: seq<Step>, id: u64, m: nat, n: nat)
    requires IsRun(k, ws, steps) && Sound(ws[0]) && SavedAlike(ws[0]) && m <= n < |ws|
    requires !RestartedBetween(ws, steps, m, n) && ws[m].state.decisionsIssued + (n - m) < U64_LIMIT
    ensures Later(ws[m], ws[n], id) && LastLater(ws[m], ws[n], id, DecidedBetween(k, ws, steps, id, m, n))
    ensures ws[m].state.decisionsIssued <= ws[n].state.decisionsIssued <= ws[m].state.decisionsIssued + (n - m)
    decreases n - m
  {
    hide Sound, Apply, Restarts, Decides, SavedAlike, Later, LastLater, CountsOn;
    if n == m {
      NothingYet(k, ws, steps, id, m);
    } else {
      assert !Restarts(ws[n - 1], steps[n - 1]);
      SameRuntimeLater(k, ws, steps, id, m, n - 1);
      IncarnationsGrow(k, ws, steps, m, n - 1);
      RunSound(k, ws, steps, n - 1);
      assert ws[n] == Apply(k, ws[n - 1], steps[n - 1]);
      StepLater(k, ws[n - 1], steps[n - 1], id);
      LaterTransitive(ws[m], ws[n - 1], ws[n], id);
      CountsOnLater(k, ws[m], ws[n - 1], steps[n - 1], ws[n], id, DecidedBetween(k, ws, steps, id, m, n - 1));
      DecidedOn(k, ws, steps, id, m, n);
      hide *;
    }
  }

  lemma NothingYet(k: Digests, ws: seq<World>, steps: seq<Step>, id: u64, m: nat)
    requires |ws| == |steps| + 1 && m <= |steps|
    ensures Later(ws[m], ws[m], id) && LastLater(ws[m], ws[m], id, DecidedBetween(k, ws, steps, id, m, m))
  {
    UnmovedLater(ws[m], ws[m], id);
    hide Later, Decides, LastFor;
  }

  lemma DecidedOn(k: Digests, ws: seq<World>, steps: seq<Step>, id: u64, m: nat, n: nat)
    requires |ws| == |steps| + 1 && m < n <= |steps|
    ensures DecidedBetween(k, ws, steps, id, m, n)
            <==> DecidedBetween(k, ws, steps, id, m, n - 1) || Decides(k, ws[n - 1], steps[n - 1], id)
  {
    hide Decides;
  }

  // -------------------------------------------------------- one binds at a time

  predicate Issues(k: Digests, w: World, s: Step, d: Decision) {
    s.op.EvaluateOp?
    && EvaluateDomain(k, w, s.op.domain, s.op.tick, s.op.cancelled, s.op.wall, s.io).value == Some(d)
  }

  /** Its evidence of the kind is still there, and nobody has put it in question. */
  predicate StillHeld(w: World, v: World, id: u64, kind: EvidenceKind) {
    ContentIn(v.slots, id, kind) == ContentIn(w.slots, id, kind) && !Revalidation.Awaits(v, id, kind)
  }

  /** The decision was made on what the later runtime holds. */
  predicate StillBound(w: World, v: World, id: u64) {
    v.state.policy == w.state.policy && v.state.epoch == w.state.epoch && EvidenceHeld(w, v, id)
  }

  predicate EvidenceHeld(w: World, v: World, id: u64) {
    StillHeld(w, v, id, Capacity) && StillHeld(w, v, id, Reservation) && StillHeld(w, v, id, Admission)
  }

  /** What revalidation answers in world `v` for a decision made in world `w`, with authority or not, whether
      the governor has restarted or decided about the domain in between. */
  predicate Says(r: Reason, w: World, v: World, id: u64, authority: bool, restarted: bool, decided: bool) {
    var bound := authority && !restarted;
    var current := bound && v.state.epoch == w.state.epoch && v.state.policy == w.state.policy;
    && (r == DECISION_NOT_AUTHORITATIVE <==> !authority)
    && (r == DECISION_EPOCH_MISMATCH <==> bound && v.state.epoch != w.state.epoch)
    && (r == DECISION_GENERATION_MISMATCH
        <==> bound && v.state.epoch == w.state.epoch && v.state.policy != w.state.policy)
    && (r == DECISION_ALREADY_FENCED <==> current && FencedNow(v, id))
    && (r == DECISION_SUPERSEDED <==> current && !FencedNow(v, id) && decided)
    && (r == DECISION_STALE
        <==> (authority && restarted) || (current && !FencedNow(v, id) && !decided && !EvidenceHeld(w, v, id)))
    && (r == NO_REASON <==> current && !FencedNow(v, id) && !decided && EvidenceHeld(w, v, id))
  }

  /** What the authority of a decision says about the world it was made in. */
  predicate MadeIn(w: World, id: u64, d: Decision) {
    var c := FindDomain(w.state.policy.domains, id);
    var a := d.evaluation.authority;
    && d.incarnation == w.state.incarnation && d.epoch == w.state.epoch
    && (d.evaluation.authorityValid ==>
          && c.Some? && Complete(a) && a.domain == id && a.domainGeneration == c.value.generation
          && a.policyGeneration == w.state.policy.generation
          && a.riskBudgetGeneration == w.state.policy.riskBudget.generation
          && HasContent(w, id, Capacity, a.capacityGeneration) && HasContent(w, id, Reservation, a.reservationGeneration)
          && HasContent(w, id, Admission, a.admissionGeneration))
  }

  predicate HasContent(w: World, id: u64, kind: EvidenceKind, generation: u64) {
    ContentIn(w.slots, id, kind).Some? && GenerationIn(w.slots, id, kind) == generation
  }

  lemma DecisionMadeIn(k: Digests, w: World, domain: u64, tick: u64)
    requires Sound(w)
    ensures MadeIn(w, domain, DecideFor(k, w, domain, tick).0)
  {
    Revalidation.SettledFields(k, w, domain, tick);
    var e := CurrentEvaluation(w, domain, tick);
    if e.authorityValid {
      Revalidation.AuthorityIsComplete(w, domain, tick);
      AuthorityHasContent(w, domain, FindDomain(w.state.policy.domains, domain).value);
    }
    hide Sound, DecideFor, CurrentEvaluation, AuthorityOf, Complete, HasContent, CurrentExpectation, CurrentEvidence;
  }

  lemma AuthorityHasContent(w: World, id: u64, c: DomainConfig)
    requires Sound(w) && FindDomain(w.state.policy.domains, id) == Some(c)
    requires Revalidation.AllPresent(CurrentEvidence(w, id))
    ensures var a := AuthorityOf(w.state.policy, c, CurrentExpectation(w, id), CurrentEvidence(w, id));
            && a.domainGeneration == c.generation && a.policyGeneration == w.state.policy.generation
            && a.riskBudgetGeneration == w.state.policy.riskBudget.generation
            && HasContent(w, id, Capacity, a.capacityGeneration) && HasContent(w, id, Reservation, a.reservationGeneration)
            && HasContent(w, id, Admission, a.admissionGeneration)
  {
    Revalidation.MismatchExitsUnreachable(w, id);
    hide Sound, BindingFault, ContentIn, GenerationIn;
  }

  /** The checks of revalidation, one by one, for a decision made in a world this one follows. */
  lemma RevalidatesWhen(w: World, v: World, id: u64, d: Decision)
    requires MadeIn(w, id, d) && d.evaluation.authorityValid && Later(w, v, id) && Sound(w) && Sound(v)
    ensures var fault := RuntimeFault(v.state.domains, id, d.id);
            Revalidate(v, d)
            == if v.state.epoch != w.state.epoch then DECISION_EPOCH_MISMATCH
               else if v.state.policy != w.state.policy then DECISION_GENERATION_MISMATCH
               else if fault != NO_REASON then fault
               else if EvidenceHeld(w, v, id) then NO_REASON else DECISION_STALE
  {
    var a := d.evaluation.authority;
    SlotBinds(w, v, id, Capacity, a.capacityGeneration);
    SlotBinds(w, v, id, Reservation, a.reservationGeneration);
    SlotBinds(w, v, id, Admission, a.admissionGeneration);
    hide SlotFault, RuntimeFault, StillHeld, HasContent, Sound, Complete, SlotLater;
  }

  lemma SlotBinds(w: World, v: World, id: u64, kind: EvidenceKind, generation: u64)
    requires HasContent(w, id, kind, generation) && Later(w, v, id) && Sound(v) && Sound(w)
    ensures SlotFault(v, id, kind, generation) == if StillHeld(w, v, id, kind) then NO_REASON else DECISION_STALE
  {
    assert SlotLater(w.slots, v.slots, id, kind);
    hide StateSound, DiskSound;
  }

  lemma NotSuperseded(u: World, v: World, id: u64, number: u64, decided: bool)
    requires LastFor(u.state.domains, id) == Some(number) && u.state.decisionsIssued == number != 0
    requires LastLater(u, v, id, decided)
    ensures RuntimeFault(v.state.domains, id, number)
            == if FencedNow(v, id) then DECISION_ALREADY_FENCED else if decided then DECISION_SUPERSEDED else NO_REASON
  {
  }

  /** The step that issues a decision. */
  lemma IssuedAs(k: Digests, w: World, s: Step, d: Decision)
    requires Sound(w) && SavedAlike(w) && Issues(k, w, s, d) && w.state.decisionsIssued < U64_LIMIT - 1
    ensures s.op.EvaluateOp?
    ensures var v := Apply(k, w, s);
            && MadeIn(w, s.op.domain, d) && Later(w, v, s.op.domain) && Decides(k, w, s, s.op.domain)
            && LastFor(v.state.domains, s.op.domain) == Some(d.id)
            && v.state.decisionsIssued == d.id == w.state.decisionsIssued + 1
  {
    IssuedInEvaluation(k, w, s, d);
    hide *;
    IssueDecides(k, w, s, d);
    IssuedMade(k, w, s, d);
    EvaluateLater(k, w, s, s.op.domain);
    IssuedCounts(k, w, s, Apply(k, w, s), d.id);
  }

  lemma IssuedInEvaluation(k: Digests, w: World, s: Step, d: Decision)
    requires Issues(k, w, s, d)
    ensures s.op.EvaluateOp?
  {
  }

  lemma IssuedCounts(k: Digests, w: World, s: Step, v: World, number: u64)
    requires s.op.EvaluateOp? && CountsOn(k, w, s, v, s.op.domain) && Decides(k, w, s, s.op.domain)
    requires number == Next(w.state.decisionsIssued) && w.state.decisionsIssued < U64_LIMIT - 1
    ensures LastFor(v.state.domains, s.op.domain) == Some(number)
    ensures v.state.decisionsIssued == number == w.state.decisionsIssued + 1
  {
    hide Logged, LastFor;
  }

  lemma IssuedMade(k: Digests, w: World, s: Step, d: Decision)
    requires Sound(w) && Issues(k, w, s, d) && s.op.EvaluateOp?
    ensures MadeIn(w, s.op.domain, d) && d.id == Next(w.state.decisionsIssued)
  {
    var w1 := w.(clock := EvaluationTick(w, s.op.tick));
    hide EvaluateDomain, DecideFor, Sound, MadeIn;
    Revalidation.DecisionIssued(k, w, s);
    ClockSound(w, w1);
    DecisionNumber(k, w1, s.op.domain, w1.clock);
    DecisionMadeIn(k, w1, s.op.domain, w1.clock);
    ClockMade(w, w1, s.op.domain, d);
  }

  lemma ClockMade(w: World, v: World, id: u64, d: Decision)
    requires v == w.(clock := v.clock)
    ensures MadeIn(w, id, d) == MadeIn(v, id, d)
  {
  }

  lemma UnboundIsStale(w: World, v: World, id: u64, d: Decision)
    requires MadeIn(w, id, d)
    ensures !d.evaluation.authorityValid ==> Revalidate(v, d) == DECISION_NOT_AUTHORITATIVE
    ensures d.evaluation.authorityValid && v.state.incarnation != w.state.incarnation ==> Revalidate(v, d) == DECISION_STALE
  {
    hide FindDomain, HasContent, RuntimeFault, SlotFault;
  }

  lemma UnboundSays(r: Reason, w: World, v: World, id: u64, authority: bool, restarted: bool, decided: bool)
    requires !authority || restarted
    requires r == if authority then DECISION_STALE else DECISION_NOT_AUTHORITATIVE
    ensures Says(r, w, v, id, authority, restarted, decided)
  {
    hide EvidenceHeld, FencedNow;
  }

  lemma SaysWhich(r: Reason, fault: Reason, w: World, v: World, id: u64, decided: bool)
    requires fault
             == if FencedNow(v, id) then DECISION_ALREADY_FENCED else if decided then DECISION_SUPERSEDED else NO_REASON
    requires r == if v.state.epoch != w.state.epoch then DECISION_EPOCH_MISMATCH
                  else if v.state.policy != w.state.policy then DECISION_GENERATION_MISMATCH
                  else if fault != NO_REASON then fault
                  else if EvidenceHeld(w, v, id) then NO_REASON else DECISION_STALE
    ensures Says(r, w, v, id, true, false, decided)
  {
    hide EvidenceHeld, FencedNow;
  }

  /** What revalidation answers about a decision at any later moment of any run, in every case. */
  lemma RevalidationSays(k: Digests, o: Options, p: Policy, ws: seq<World>, steps: seq<Step>, m: nat, n: nat, d: Decision)
    requires ValidPolicy(InitialPolicy(k, p)) && IsRun(k, ws, steps) && ws[0] == Fresh(k, o, p)
    requires m < n < |ws| && Issues(k, ws[m], steps[m], d) && ws[m].state.decisionsIssued + (n - m) < U64_LIMIT
    ensures var id := steps[m].op.domain;
            Says(Revalidate(ws[n], d), ws[m], ws[n], id, d.evaluation.authorityValid,
                 RestartedBetween(ws, steps, m + 1, n), DecidedBetween(k, ws, steps, id, m + 1, n))
  {
    FreshSound(k, o, p);
    assert SavedAlike(Fresh(k, o, p));
    assert ws[m + 1] == Apply(k, ws[m], steps[m]);
    hide *;
    IssuedRevalidates(k, ws, steps, m, n, d);
  }

  lemma IssuedRevalidates(k: Digests, ws: seq<World>, steps: seq<Step>, m: nat, n: nat, d: Decision)
    requires IsRun(k, ws, steps) && Sound(ws[0]) && SavedAlike(ws[0]) && m < n < |ws|
    requires ws[m + 1] == Apply(k, ws[m], steps[m]) && Issues(k, ws[m], steps[m], d)
    requires ws[m].state.decisionsIssued + (n - m) < U64_LIMIT
    ensures var id := steps[m].op.domain;
            Says(Revalidate(ws[n], d), ws[m], ws[n], id, d.evaluation.authorityValid,
                 RestartedBetween(ws, steps, m + 1, n), DecidedBetween(k, ws, steps, id, m + 1, n))
  {
    var id := steps[m].op.domain;
    var restarted, decided := RestartedBetween(ws, steps, m + 1, n), DecidedBetween(k, ws, steps, id, m + 1, n);
    hide *;
    RunSound(k, ws, steps, m);
    IncarnationsGrow(k, ws, steps, 0, m);
    IncarnationsGrow(k, ws, steps, m + 1, n);
    IssuedAs(k, ws[m], steps[m], d);
    LaterIncarnation(ws[m], ws[m + 1], id);
    UnboundIsStale(ws[m], ws[n], id, d);
    if d.evaluation.authorityValid && !restarted {
      BoundSays(k, ws, steps, m, n, d);
    } else {
      UnboundSays(Revalidate(ws[n], d), ws[m], ws[n], id, d.evaluation.authorityValid, restarted, decided);
    }
  }

  lemma BoundSays(k: Digests, ws: seq<World>, steps: seq<Step>, m: nat, n: nat, d: Decision)
    requires IsRun(k, ws, steps) && Sound(ws[0]) && SavedAlike(ws[0]) && m < n < |ws| && Sound(ws[m])
    requires steps[m].op.EvaluateOp? && d.evaluation.authorityValid && !RestartedBetween(ws, steps, m + 1, n)
    requires var id := steps[m].op.domain;
             && MadeIn(ws[m], id, d) && Later(ws[m], ws[m + 1], id) && LastFor(ws[m + 1].state.domains, id) == Some(d.id)
             && ws[m + 1].state.decisionsIssued == d.id == ws[m].state.decisionsIssued + 1
             && ws[m].state.decisionsIssued + (n - m) < U64_LIMIT
    ensures var id := steps[m].op.domain;
            Says(Revalidate(ws[n], d), ws[m], ws[n], id, true, false, DecidedBetween(k, ws, steps, id, m + 1, n))
  {
    var id := steps[m].op.domain;
    var decided := DecidedBetween(k, ws, steps, id, m + 1, n);
    hide *;
    RunSound(k, ws, steps, n);
    SameRuntimeLater(k, ws, steps, id, m + 1, n);
    LaterTransitive(ws[m], ws[m + 1], ws[n], id);
    NotSuperseded(ws[m + 1], ws[n], id, d.id, decided);
    RevalidatesWhen(ws[m], ws[n], id, d);
    SaysWhich(Revalidate(ws[n], d), RuntimeFault(ws[n].state.domains, id, d.id), ws[m], ws[n], id, decided);
  }

  /** At any later moment of any run a decision revalidates exactly when it carries authority and, since it
      was issued, the governor has not restarted and no decision about its domain was recorded, its domain is
      not fenced, the policy and the epoch in force are its own, and its evidence is held and unquestioned. */
  lemma RevalidatesIff(k: Digests, o: Options, p: Policy, ws: seq<World>, steps: seq<Step>, m: nat, n: nat, d: Decision)
    requires ValidPolicy(InitialPolicy(k, p)) && IsRun(k, ws, steps) && ws[0] == Fresh(k, o, p)
    requires m < n < |ws| && Issues(k, ws[m], steps[m], d) && ws[m].state.decisionsIssued + (n - m) < U64_LIMIT
    ensures var id := steps[m].op.domain;
            Revalidate(ws[n], d) == NO_REASON
            <==> && d.evaluation.authorityValid
                 && !RestartedBetween(ws, steps, m + 1, n) && !DecidedBetween(k, ws, steps, id, m + 1, n)
                 && !FencedNow(ws[n], id) && StillBound(ws[m], ws[n], id)
  {
    RevalidationSays(k, o, p, ws, steps, m, n, d);
    hide IsRun, Fresh, Issues, RestartedBetween, DecidedBetween, FencedNow, EvidenceHeld, Revalidate, ValidPolicy;
  }

  /** A decision about a domain puts an end to every earlier one about it, for good: at any moment at most one
      decision about a domain revalidates. */
  lemma OneBindsAtATime(k: Digests, o: Options, p: Policy, ws: seq<World>, steps: seq<Step>, l: nat, m: nat, n: nat,
                        earlier: Decision, later: Decision)
    requires ValidPolicy(InitialPolicy(k, p)) && IsRun(k, ws, steps) && ws[0] == Fresh(k, o, p)
    requires l < m < n < |ws| && ws[l].state.decisionsIssued + (n - l) < U64_LIMIT
    requires Issues(k, ws[l], steps[l], earlier) && Issues(k, ws[m], steps[m], later)
    requires steps[l].op.domain == steps[m].op.domain
    ensures Revalidate(ws[n], earlier) != NO_REASON
  {
    RevalidatesIff(k, o, p, ws, steps, l, n, earlier);
    IssueDecides(k, ws[m], steps[m], later);
    assert DecidedBetween(k, ws, steps, steps[l].op.domain, l + 1, n) by { hide Decides, IsRun, Fresh, Issues; }
    hide *;
  }

  lemma IssueDecides(k: Digests, w: World, s: Step, d: Decision)
    requires Issues(k, w, s, d)
    ensures Decides(k, w, s, s.op.domain)
  {
    EvaluateReply(k, w, s.op.domain, s.op.tick, s.op.cancelled, s.op.wall, s.io);
    LoggedIs(k, w, s);
    hide EvaluateDomain, DecideFor, Attempt, AppendJournal, Logged;
  }
}
