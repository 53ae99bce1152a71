/** What installing a policy and registering or adopting a publisher amount to. */
module Installation {
  import opened Checked
  import opened Wire
  import opened Model
  import opened PolicyRules
  import opened Engine
  import opened EvidenceRules
  import opened Governing
  import opened Frames
  import opened PublisherAuthority
  import opened Durability
  import opened Sample
  import Revalidation

  // ---------------------------------------------------------------- policies

  /** What a domain's generation becomes: that of the domain it replaces while its content is the same;
      otherwise past it, and no less than claimed. */
  predicate MovesOn(k: Digests, before: Option<DomainConfig>, claimed: DomainConfig, g: u64) {
    match before
    case None => g == if claimed.generation == 0 then 1 else claimed.generation
    case Some(b) =>
      if k.domain(b) == k.domain(claimed) then g == b.generation
      else g > b.generation && g >= claimed.generation && (g == b.generation + 1 || g == claimed.generation)
  }

  /** A domain keeps its generation exactly while its content stays the same, and otherwise takes a larger one,
      unless its generation is at the last value: only then does a changed domain fail to move on. */
  lemma DomainMovesOn(k: Digests, current: Policy, claimed: DomainConfig)
    requires forall d :: d in current.domains ==> d.generation != 0
    ensures var before, next := FindDomain(current.domains, claimed.id), NextDomain(k, current, claimed);
            && next == claimed.(generation := next.generation) && next.generation != 0
            && (MovesOn(k, before, claimed, next.generation)
                <==> before.None? || k.domain(before.value) == k.domain(claimed) || before.value.generation < U64_LIMIT - 1)
  {
    hide FindDomain;
  }

  /** A domain at the last generation there is, changed under no claim of its own: it comes back at generation
      1. Only the digest function is asked to tell the two contents apart. */
  lemma ChangedDomainFallsBack(k: Digests)
    requires k.domain(SampleDomain(1).(generation := U64_LIMIT - 1))
             != k.domain(SampleDomain(1).(generation := 0, pool := 2))
    ensures var held := SampleDomain(1).(generation := U64_LIMIT - 1);
            var claimed := SampleDomain(1).(generation := 0, pool := 2);
            NextDomain(k, SamplePolicy(1, 1).(domains := [held]), claimed).generation == 1
  {
    var held := SampleDomain(1).(generation := U64_LIMIT - 1);
    assert FindDomain([held], 1) == Some(held);
    hide SamplePolicy, FindDomain;
  }

  /** The policy in force after an installation: the one asked for, but for its identity when it has none, and
      its generations and digest. */
  predicate InForce(k: Digests, current: Policy, asked: Policy, next: Policy) {
    && next == asked.(id := next.id, generation := next.generation, domains := next.domains, digest := next.digest)
    && (next.id == asked.id || (asked.id == 0 && next.id == current.id))
    && next.generation == current.generation + 1
    && |next.domains| == |asked.domains|
    && forall i :: 0 <= i < |asked.domains| ==> next.domains[i] == NextDomain(k, current, asked.domains[i])
  }

  /** A policy is installed exactly when the governor accepts requests, its generation can advance, the policy
      is valid and its content is not that in force already; otherwise the policy stays. */
  lemma InstalledIff(k: Digests, w: World, asked: Policy, tick: u64, io: Io)
    requires ValidPolicy(w.state.policy)
    ensures var v := InstallPolicy(k, w, asked, tick, io).world;
            && (Installs(k, w, asked) ==> InForce(k, w.state.policy, asked, v.state.policy) && ValidPolicy(v.state.policy))
            && (!Installs(k, w, asked) ==> v == w.(clock := v.clock))
            && (v.state.policy != w.state.policy <==> Installs(k, w, asked))
  {
    PolicyIdentified(w.state.policy);
    InstalledWorld(k, w, asked, tick, io);
    if Installs(k, w, asked) {
      NextIs(k, w.state.policy, asked);
    }
    hide ValidPolicy, ContentDigest, InstallPolicy, NextPolicy;
  }

  lemma PolicyIdentified(p: Policy)
    requires ValidPolicy(p)
    ensures p.id != 0 && p.generation != 0
  {
  }

  lemma InstalledWorld(k: Digests, w: World, asked: Policy, tick: u64, io: Io)
    ensures var v := InstallPolicy(k, w, asked, tick, io).world;
            if Installs(k, w, asked) then v.state.policy == NextPolicy(k, w.state.policy, asked)
            else v == w.(clock := v.clock)
  {
    hide ValidPolicy, ContentDigest, NextPolicy;
  }

  lemma NextIs(k: Digests, current: Policy, asked: Policy)
    requires current.id != 0 && current.generation != 0 && NextPolicy(k, current, asked).generation != 0
    ensures InForce(k, current, asked, NextPolicy(k, current, asked))
  {
    hide NextDomain;
  }

  // -------------------------------------------------------------- publishers

  /** A registration that starts afresh: nothing published yet, not fenced. */
  predicate StartsAfresh(e: Option<Publisher>, id: u64, incarnation: u64, epoch: u64) {
    && e.Some? && e.value.publisher == id && e.value.incarnation == incarnation && e.value.epoch == epoch
    && e.value.lastSequence == 0 && !e.value.fenced
  }

  /** The slot of a publisher's evidence asks for it to be published again. */
  predicate Questioned(a: Slot, b: Slot, publisher: u64) {
    b == a.(state := a.state.(revalidationRequired := a.state.revalidationRequired || a.state.publisher == publisher))
  }

  lemma RenewedEntry(ps: seq<Publisher>, p: u64, incarnation: u64, epoch: u64, tick: u64, id: u64)
    ensures var e := EntryIn(WithRegistration(ps, p, incarnation, epoch, tick), id);
            if id == p then StartsAfresh(e, id, incarnation, epoch) else e == EntryIn(ps, id)
  {
    match PublisherIndex(ps, p)
    case Some(i) => EntryOfUpdate(ps, i, Renewed(ps[i], incarnation, epoch, tick), id);
    case None => EntryOfAppend(ps, Publisher(p, incarnation, epoch, 0, false, NO_REASON, tick), id);
  }

  /** Registering takes effect for a new publisher, or a fenced one under the incarnation it has, and then
      starts its registration afresh; no other publisher, slot or policy is touched either way. */
  lemma RegisteredIs(w: World, p: u64, incarnation: u64, epoch: u64, tick: u64, io: Io, id: u64)
    ensures var v := Register(w, p, incarnation, epoch, tick, io).world;
            && v.slots == w.slots && v.state.policy == w.state.policy
            && if id == p && Registers(w, p, incarnation, epoch)
               then StartsAfresh(EntryIn(v.state.publishers, id), id, incarnation, epoch)
               else EntryIn(v.state.publishers, id) == EntryIn(w.state.publishers, id)
  {
    var u, committed := RegisterFrame(w, p, incarnation, epoch, tick, io);
    RenewedEntry(w.state.publishers, p, incarnation, epoch, u.clock, id);
    PersistEntries(u, true, io);
    RegisterKeepsSlots(w, p, incarnation, epoch, tick, io);
    hide EntryIn, PublisherIndex, Register, WithRegistration, Persist, Touches, Registers;
  }

  lemma RegisterKeepsSlots(w: World, p: u64, incarnation: u64, epoch: u64, tick: u64, io: Io)
    ensures var v := Register(w, p, incarnation, epoch, tick, io).world;
            v.slots == w.slots && v.state.policy == w.state.policy
  {
  }

  /** Adopting an incarnation takes effect unless it is the registered one, unfenced, in this epoch; then it
      starts the registration afresh and puts in question exactly the evidence that came from the publisher. */
  lemma AdoptedIs(w: World, p: u64, incarnation: u64, epoch: u64, tick: u64, io: Io, id: u64)
    ensures var v := Adopt(w, p, incarnation, epoch, tick, io).world;
            && (if id == p && Adopts(w, p, incarnation, epoch)
                then StartsAfresh(EntryIn(v.state.publishers, id), id, incarnation, epoch)
                else EntryIn(v.state.publishers, id) == EntryIn(w.state.publishers, id))
            && |v.slots| == |w.slots|
            && (Adopts(w, p, incarnation, epoch) ==>
                  forall i :: 0 <= i < |w.slots| ==> Questioned(w.slots[i], v.slots[i], p))
            && (!Adopts(w, p, incarnation, epoch) ==> v.slots == w.slots)
  {
    var u, committed := AdoptFrame(w, p, incarnation, epoch, tick, io);
    RenewedEntry(w.state.publishers, p, incarnation, epoch, u.clock, id);
    PersistEntries(u, true, io);
    AdoptedSlots(w, p, incarnation, epoch, tick, io);
    hide EntryIn, PublisherIndex, Adopt, WithRegistration, Persist, Touches, Adopts, Questioned;
  }

  lemma AdoptedSlots(w: World, p: u64, incarnation: u64, epoch: u64, tick: u64, io: Io)
    ensures var v := Adopt(w, p, incarnation, epoch, tick, io).world;
            && |v.slots| == |w.slots|
            && (Adopts(w, p, incarnation, epoch) ==>
                  forall i :: 0 <= i < |w.slots| ==> Questioned(w.slots[i], v.slots[i], p))
            && (!Adopts(w, p, incarnation, epoch) ==> v.slots == w.slots)
  {
    hide PublisherIndex;
  }

  /** A decision that rests on evidence from the publisher no longer revalidates once another incarnation of it
      is adopted. */
  lemma AdoptionUnbinds(w: World, p: u64, incarnation: u64, epoch: u64, tick: u64, io: Io, id: u64, kind: EvidenceKind,
                        i: nat)
    requires Adopts(w, p, incarnation, epoch) && SlotIndex(w.slots, id, kind) == Some(i) && w.slots[i].state.publisher == p
    ensures Revalidation.Awaits(Adopt(w, p, incarnation, epoch, tick, io).world, id, kind)
  {
    hide *;
    AdoptedSlots(w, p, incarnation, epoch, tick, io);
    FoundInside(w.slots, id, kind, i);
    QuestionedAwaits(w, Adopt(w, p, incarnation, epoch, tick, io).world, p, id, kind, i);
  }

  lemma FoundInside(slots: seq<Slot>, id: u64, kind: EvidenceKind, i: nat)
    requires SlotIndex(slots, id, kind) == Some(i)
    ensures i < |slots|
  {
  }

  lemma QuestionedAwaits(w: World, v: World, p: u64, id: u64, kind: EvidenceKind, i: nat)
    requires |v.slots| == |w.slots| && forall j :: 0 <= j < |w.slots| ==> Questioned(w.slots[j], v.slots[j], p)
    requires SlotIndex(w.slots, id, kind) == Some(i) && i < |w.slots| && w.slots[i].state.publisher == p
    ensures Revalidation.Awaits(v, id, kind)
  {
    forall j | 0 <= j < i ensures !Holds(v.slots[j], id, kind) {
      assert Questioned(w.slots[j], v.slots[j], p) && !Holds(w.slots[j], id, kind);
    }
    assert Questioned(w.slots[i], v.slots[i], p);
  }
}
