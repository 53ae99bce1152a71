/** What a reported success says about storage, for every operation that asks for a save. */
module Durability {
  import opened Checked
  import opened Wire
  import opened Model
  import opened PolicyRules
  import opened EvidenceRules
  import opened Governing
  import opened Frames
  import opened Publication

  /** The operations that save before they report success. */
  predicate Forced(op: Op) { !op.Tick? && !op.EvaluateOp? && !op.CrashAndReopen? }

  function StatusOf(k: Digests, w: World, s: Step): Status
    requires Forced(s.op)
  {
    match s.op
    case Install(p, tick) => InstallPolicy(k, w, p, tick, s.io).status
    case NewEpoch(epoch) => AdvanceEpoch(w, epoch, s.io).status
    case RegisterOp(p, i, e, t) => Register(w, p, i, e, t, s.io).status
    case AdoptOp(p, i, e, t) => Adopt(w, p, i, e, t, s.io).status
    case FenceOp(p, reason) => FencePublisher(w, p, reason, s.io).status
    case PublishOp(snapshot) => Publish(k, w, snapshot, s.io).status
    case SaveOp => Persist(w, true, s.io).status
    case ShutdownOp => Persist(w.(accepting := false), true, s.io).status
  }

  /** A policy that is not refused and not the one in force already. */
  predicate Installs(k: Digests, w: World, p: Policy) {
    var next := NextPolicy(k, w.state.policy, p);
    && w.accepting && next.generation != 0 && ValidPolicy(next)
    && !(w.state.policy.generation != 0 && ContentDigest(k, w.state.policy) == ContentDigest(k, next))
  }

  /** The operation finds something to do: what it is about to save is not there already. */
  predicate TakesEffect(k: Digests, w: World, op: Op) {
    match op
    case Install(p, _) => Installs(k, w, p)
    case RegisterOp(p, i, e, _) => Registers(w, p, i, e)
    case AdoptOp(p, i, e, _) => Adopts(w, p, i, e)
    case PublishOp(snapshot) => IsAccepted(Publish(k, w, snapshot, Io(true, true, true)))
    case _ => true
  }

  /** Storage holds the live state, evidence bookkeeping included. */
  predicate InStep(w: World) {
    w.disk.saved == w.state && w.state.evidence == SlotStates(w.slots)
  }

  lemma SavedInStep(w: World, io: Io)
    requires Persist(w, true, io).status.Success?
    ensures InStep(Persist(w, true, io).world)
  {
  }

  lemma IdleInStep(w: World, v: World)
    requires v == w.(clock := v.clock)
    ensures InStep(v) <==> InStep(w)
  {
  }

  lemma InstallDurable(k: Digests, w: World, p: Policy, tick: u64, io: Io)
    requires InstallPolicy(k, w, p, tick, io).status.Success?
    ensures var v := InstallPolicy(k, w, p, tick, io).world;
            if Installs(k, w, p) then InStep(v) else v == w.(clock := v.clock)
  {
    hide NextPolicy, ContentDigest, ValidPolicy;
  }

  lemma PublishDurable(k: Digests, w: World, snapshot: Snapshot, io: Io)
    requires Publish(k, w, snapshot, io).status.Success?
    ensures var v := Publish(k, w, snapshot, io).world;
            if IsAccepted(Publish(k, w, snapshot, Io(true, true, true))) then InStep(v) else v == w
  {
    hide Ingest, Digested, Persist, Filled;
    var s := Digested(k, snapshot);
    PublishFrame(k, w, s, io);
    if IsAccepted(Ingest(k, w, s, Io(true, true, true))) {
      SavedIsAccepted(k, w, s, io);
      if IsAccepted(Ingest(k, w, s, io)) {
        var r := Ingest(k, w, s, io);
        var u := Published(k, w, s, PublisherIndex(w.state.publishers, ProvenanceOf(s).publisher).value, r.value.generation);
        SaveSucceeds(u, io);
        SavedInStep(u, io);
      } else {
        FailedSave(k, w, s, io);
      }
    } else {
      NotAcceptedEver(k, w, s, io);
    }
  }

  lemma SaveSucceeds(w: World, io: Io)
    requires io.save
    ensures Persist(w, true, io).status.Success?
  {
  }

  lemma NotAcceptedEver(k: Digests, w: World, s: Snapshot, io: Io)
    requires !IsAccepted(Ingest(k, w, s, Io(true, true, true)))
    ensures !IsAccepted(Ingest(k, w, s, io))
  {
    hide ValidSnapshot, PublisherFault, Rule, Ensured, Filled, Bound;
  }

  /** When an operation that asks for a save reports success, storage holds the live state exactly when the
      operation had something to do, or storage held it already. An operation that finds its change made,
      by an earlier attempt whose save failed, changes nothing and saves nothing. */
  lemma SuccessIsDurable(k: Digests, w: World, s: Step)
    requires Forced(s.op) && StatusOf(k, w, s).Success?
    ensures var v := Apply(k, w, s);
            && (if TakesEffect(k, w, s.op) then InStep(v) else v == w.(clock := v.clock))
            && (InStep(v) <==> TakesEffect(k, w, s.op) || InStep(w))
  {
    hide InStep, Apply, TakesEffect, StatusOf;
    SavedOrIdle(k, w, s);
    if !TakesEffect(k, w, s.op) {
      IdleInStep(w, Apply(k, w, s));
    }
  }

  lemma SavedOrIdle(k: Digests, w: World, s: Step)
    requires Forced(s.op) && StatusOf(k, w, s).Success?
    ensures var v := Apply(k, w, s);
            if TakesEffect(k, w, s.op) then InStep(v) else v == w.(clock := v.clock)
  {
    hide InstallPolicy, Publish, InStep, Installs, Registers, Adopts, Register, Adopt, FencePublisher, AdvanceEpoch, Persist;
    match s.op
    case Install(p, tick) => InstallDurable(k, w, p, tick, s.io);
    case PublishOp(snapshot) => PublishDurable(k, w, snapshot, s.io);
    case NewEpoch(epoch) => EpochDurable(w, epoch, s.io);
    case RegisterOp(p, i, e, t) => RegisterDurable(w, p, i, e, t, s.io);
    case AdoptOp(p, i, e, t) => AdoptDurable(w, p, i, e, t, s.io);
    case FenceOp(p, reason) => FenceDurable(w, p, reason, s.io);
    case SaveOp => SavedInStep(w, s.io);
    case ShutdownOp => SavedInStep(w.(accepting := false), s.io);
  }

  lemma EpochDurable(w: World, epoch: u64, io: Io)
    requires AdvanceEpoch(w, epoch, io).status.Success?
    ensures InStep(AdvanceEpoch(w, epoch, io).world)
  {
  }

  lemma RegisterDurable(w: World, p: u64, incarnation: u64, epoch: u64, tick: u64, io: Io)
    requires Register(w, p, incarnation, epoch, tick, io).status.Success?
    ensures var v := Register(w, p, incarnation, epoch, tick, io).world;
            if Registers(w, p, incarnation, epoch) then InStep(v) else v == w.(clock := v.clock)
  {
    hide PublisherIndex;
  }

  lemma AdoptDurable(w: World, p: u64, incarnation: u64, epoch: u64, tick: u64, io: Io)
    requires Adopt(w, p, incarnation, epoch, tick, io).status.Success?
    ensures var v := Adopt(w, p, incarnation, epoch, tick, io).world;
            if Adopts(w, p, incarnation, epoch) then InStep(v) else v == w.(clock := v.clock)
  {
    hide PublisherIndex, RequireRevalidation;
  }

  lemma FenceDurable(w: World, p: u64, reason: Reason, io: Io)
    requires FencePublisher(w, p, reason, io).status.Success?
    ensures InStep(FencePublisher(w, p, reason, io).world)
  {
    hide PublisherIndex;
  }
}
