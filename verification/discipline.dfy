/** Hysteresis over runs of the whole governor: between policy changes, epoch advances and restarts a
    domain's stance is driven by its own accepted evaluations and by nothing else. */
module Discipline {
  import opened Checked
  import opened Wire
  import opened Model
  import opened PolicyRules
  import opened Engine
  import EvidenceRules
  import opened HysteresisRules
  import opened Replay
  import opened Governing
  import opened Frames
  import opened RecoverySteps

  /** The part of a runtime state that hysteresis reads and writes. */
  function Stance(s: DomainState): DomainState {
    s.(generation := 0, fenceReason := NO_REASON, fenceEpoch := 0, lastDecision := 0, lastDecisionDigest := ZeroDigest())
  }

  lemma AnnounceStance(h: Hysteresis, s: DomainState, e: Signal)
    ensures Stance(Announce(h, s, e).state) == Announce(h, Stance(s), e).state
    ensures Announce(h, s, e).effective == Announce(h, Stance(s), e).effective
  {
  }

  predicate Steady(op: Op) { !op.Install? && !op.NewEpoch? && !op.CrashAndReopen? }

  /** The signal an evaluation of the domain feeds to the hysteresis. */
  function SignalAt(w: World, id: u64, requested: u64): Signal {
    var tick := EvaluationTick(w, requested);
    SignalOf(CurrentEvaluation(w.(clock := tick), id, tick), tick)
  }

  /** What a step lets the domain hear: an evaluation of it whose record became durable. */
  function Heard(k: Digests, w: World, s: Step, id: u64): seq<Signal> {
    if s.op.EvaluateOp? && s.op.domain == id && Logged(k, w, s).Some? then [SignalAt(w, id, s.op.tick)] else []
  }

  /** What the domain has heard before each step of a run. */
  predicate Hears(k: Digests, hs: seq<seq<Signal>>, ws: seq<World>, steps: seq<Step>, id: u64) {
    && |hs| == |ws| == |steps| + 1 && hs[0] == []
    && forall n {:trigger steps[n]} :: 0 <= n < |steps| ==> hs[n + 1] == hs[n] + Heard(k, ws[n], steps[n], id)
  }

  predicate SteadyBetween(steps: seq<Step>, m: nat, n: nat)
    requires m <= n <= |steps|
  {
    forall j :: m <= j < n ==> Steady(steps[j].op)
  }

  /** What the domain heard between two moments of a run. */
  function HeardBetween(hs: seq<seq<Signal>>, m: nat, n: nat): seq<Signal>
    requires m <= n < |hs|
  {
    if hs[m] <= hs[n] then hs[n][|hs[m]|..] else []
  }

  /** `i` is where the table keeps the domain. */
  predicate Kept(w: World, id: u64, i: nat) { DomainIndex(w.state.domains, id) == Some(i) }

  lemma KeptInside(w: World, id: u64, i: nat)
    requires Kept(w, id, i)
    ensures i < |w.state.domains|
  {
  }

  // -------------------------------------------------------------- one step

  /** The state and the outcome an accepted evaluation leaves for its domain. */
  lemma SettledStance(k: Digests, w: World, id: u64, i: nat, tick: u64)
    requires Kept(w, id, i)
    ensures var (d, a) := DecideFor(k, w, id, tick);
            var e := SignalOf(CurrentEvaluation(w, id, tick), tick);
            && Stance(Settled(w, id, d, a)) == Announce(w.state.policy.hysteresis, Stance(w.state.domains[i]), e).state
            && Settled(w, id, d, a).domain == id
            && d.effective == Announce(w.state.policy.hysteresis, Stance(w.state.domains[i]), e).effective
            && (d.authorized ==> d.effective.WithinPolicy?)
  {
    AnnounceStance(w.state.policy.hysteresis, w.state.domains[i], SignalOf(CurrentEvaluation(w, id, tick), tick));
    AnnounceKeeps(w.state.policy.hysteresis, w.state.domains[i], SignalOf(CurrentEvaluation(w, id, tick), tick));
    hide Announce, CurrentEvaluation, CurrentExpectation;
  }

  lemma AnnounceKeeps(h: Hysteresis, s: DomainState, e: Signal)
    ensures Announce(h, s, e).state.domain == s.domain
  {
  }

  lemma EnterKeeps(ds: seq<DomainState>, d: DomainState, id: u64, i: nat)
    requires DomainIndex(ds, id) == Some(i)
    ensures DomainIndex(Enter(ds, d), id) == Some(i)
    ensures Enter(ds, d)[i] == if d.domain == id then d else ds[i]
  {
    match DomainIndex(ds, d.domain)
    case Some(j) => IndexStays(ds, j, d, id);
    case None => IndexGrows(ds, d, id);
  }

  /** An evaluation moves its own domain as the hysteresis says, and no other. */
  lemma EvaluationHeard(k: Digests, w: World, s: Step, id: u64, i: nat)
    requires s.op.EvaluateOp? && Kept(w, id, i)
    ensures var v := Apply(k, w, s);
            var heard := Heard(k, w, s, id);
            && Kept(v, id, i) && v.state.policy == w.state.policy
            && (heard == [] ==> v.state.domains[i] == w.state.domains[i])
            && (heard != [] ==> Stance(v.state.domains[i])
                                == Announce(w.state.policy.hysteresis, Stance(w.state.domains[i]), heard[0]).state)
  {
    hide DecideFor, AppendJournal, Accepted, Persist, Attempt, EvaluateDomain, Announce, CurrentEvaluation, Stance;
    var op := s.op;
    EvaluateFrame(k, w, op.domain, op.tick, op.cancelled, op.wall, s.io);
    HeardWhenLogged(k, w, s, id);
    var w1 := w.(clock := EvaluationTick(w, op.tick));
    if Attempt(k, w, op.domain, op.tick, op.cancelled, op.wall).Some? {
      var r := Attempt(k, w, op.domain, op.tick, op.cancelled, op.wall).value;
      var (d, a) := DecideFor(k, w1, op.domain, w1.clock);
      AppendClock(w, w1, r, s.io);
      AppendJournalKeeps(w1, r, s.io);
      var w2 := AppendJournal(w1, r, s.io).world;
      AcceptedDomain(k, w1, w2, op.domain, id, i);
      PersistKeepsDomains(Accepted(w2, op.domain, d, a), false, s.io);
    }
    hide Heard;
  }

  lemma HeardWhenLogged(k: Digests, w: World, s: Step, id: u64)
    requires s.op.EvaluateOp?
    ensures var attempt := Attempt(k, w, s.op.domain, s.op.tick, s.op.cancelled, s.op.wall);
            Heard(k, w, s, id)
            == if s.op.domain == id && attempt.Some? && AppendJournal(w, attempt.value, s.io).status.Success?
               then [SignalAt(w, id, s.op.tick)] else []
  {
    hide Attempt, AppendJournal, SignalAt;
  }

  lemma PersistKeepsDomains(w: World, force: bool, io: Io)
    ensures var v := Persist(w, force, io).world;
            v.state.domains == w.state.domains && v.state.policy == w.state.policy
  {
  }

  lemma AcceptedDomain(k: Digests, w: World, v: World, domain: u64, id: u64, i: nat)
    requires Kept(w, id, i) && SameRuntime(v, w)
    ensures var (d, a) := DecideFor(k, w, domain, w.clock);
            var u := Accepted(v, domain, d, a);
            && Kept(u, id, i) && u.state.policy == w.state.policy
            && (domain != id ==> u.state.domains[i] == w.state.domains[i])
            && (domain == id ==>
                  Stance(u.state.domains[i])
                  == Announce(w.state.policy.hysteresis, Stance(w.state.domains[i]),
                              SignalOf(CurrentEvaluation(w, id, w.clock), w.clock)).state)
  {
    var (d, a) := DecideFor(k, w, domain, w.clock);
    SettledSame(w, v, domain, d, a);
    SettledDomain(k, w, domain, w.clock);
    EnterKeeps(w.state.domains, Settled(w, domain, d, a), id, i);
    if domain == id {
      SettledStance(k, w, id, i, w.clock);
    }
    hide DecideFor, Settled, Enter, Announce, CurrentEvaluation, Stance;
  }

  /** Every other steady step leaves the domain alone. */
  lemma OtherHeard(k: Digests, w: World, s: Step, id: u64, i: nat)
    requires Steady(s.op) && !s.op.EvaluateOp? && Kept(w, id, i)
    ensures var v := Apply(k, w, s);
            v.state.domains == w.state.domains && v.state.policy == w.state.policy
  {
    hide Persist, Touches, SlotsEvolve;
    if s.op.PublishOp? {
      PublishKeepsDomains(k, w, s.op.snapshot, s.io);
      hide Publish;
    } else {
      hide Apply;
      var v, committed := QuietFrame(k, w, s);
      PersistKeepsDomains(v, true, s.io);
      TouchesKeepDomains(w, v);
    }
  }

  lemma TouchesKeepDomains(w: World, v: World)
    requires Touches(w, v)
    ensures v.state.domains == w.state.domains
  {
    hide ValidPolicy, SlotsEvolve;
  }

  lemma PublishKeepsDomains(k: Digests, w: World, snapshot: EvidenceRules.Snapshot, io: Io)
    ensures var v := Publish(k, w, snapshot, io).world;
            v.state.domains == w.state.domains && v.state.policy == w.state.policy
  {
    hide Ingest, Persist, Touches;
    var s := Digested(k, snapshot);
    var r := Ingest(k, w, s, io);
    PublishFrame(k, w, s, io);
    if IsAccepted(r) {
      PersistKeepsDomains(Published(k, w, s, PublisherIndex(w.state.publishers, EvidenceRules.ProvenanceOf(s).publisher).value,
                                    r.value.generation), true, io);
    } else {
      TouchesKeepDomains(w, r.world);
    }
  }

  // ------------------------------------------------------------------ runs

  lemma AfterOne(h: Hysteresis, s: DomainState, es: seq<Signal>, e: Signal)
    ensures After(h, s, es + [e]) == Announce(h, After(h, s, es), e).state
  {
    assert (es + [e])[..|es|] == es;
  }

  lemma StepFollows(k: Digests, w: World, s: Step, id: u64, i: nat, h: Hysteresis, from: DomainState, es: seq<Signal>)
    requires Steady(s.op) && Kept(w, id, i) && w.state.policy.hysteresis == h
    requires Stance(w.state.domains[i]) == After(h, from, es)
    ensures var v := Apply(k, w, s);
            && Kept(v, id, i) && v.state.policy == w.state.policy
            && Stance(v.state.domains[i]) == After(h, from, es + Heard(k, w, s, id))
  {
    if s.op.EvaluateOp? {
      EvaluationHeard(k, w, s, id, i);
      if Heard(k, w, s, id) != [] {
        AfterOne(h, from, es, Heard(k, w, s, id)[0]);
        assert Heard(k, w, s, id) == [Heard(k, w, s, id)[0]];
      }
    } else {
      OtherHeard(k, w, s, id, i);
      assert Heard(k, w, s, id) == [];
    }
    assert es + [] == es;
    hide Apply, Heard, Announce, Stance, After;
  }

  lemma HeardOn(hs: seq<seq<Signal>>, m: nat, n: nat, more: seq<Signal>)
    requires m < n < |hs| && hs[m] <= hs[n - 1] && hs[n] == hs[n - 1] + more
    ensures hs[m] <= hs[n] && HeardBetween(hs, m, n) == HeardBetween(hs, m, n - 1) + more
  {
  }

  /** Along any steady part of a run the domain's stance is the hysteresis run over what it heard there. */
  lemma {:induction false} RunFollowsHysteresis(k: Digests, hs: seq<seq<Signal>>, ws: seq<World>, steps: seq<Step>,
                                                id: u64, i: nat, m: nat, n: nat)
    requires IsRun(k, ws, steps) && Hears(k, hs, ws, steps, id)
    requires m <= n < |ws| && SteadyBetween(steps, m, n) && Kept(ws[m], id, i)
    ensures Kept(ws[n], id, i) && ws[n].state.policy == ws[m].state.policy && hs[m] <= hs[n]
    ensures Stance(ws[n].state.domains[i])
            == After(ws[m].state.policy.hysteresis, Stance(ws[m].state.domains[i]), HeardBetween(hs, m, n))
    decreases n - m
  {
    var h, from := ws[m].state.policy.hysteresis, Stance(ws[m].state.domains[i]);
    if n == m {
      assert After(h, from, []) == from && HeardBetween(hs, m, m) == [];
    } else {
      hide After, Stance, Apply, Heard, Steady, HeardBetween, Kept;
      RunFollowsHysteresis(k, hs, ws, steps, id, i, m, n - 1);
      assert ws[n] == Apply(k, ws[n - 1], steps[n - 1]) && Steady(steps[n - 1].op);
      assert hs[n] == hs[n - 1] + Heard(k, ws[n - 1], steps[n - 1], id);
      HeardOn(hs, m, n, Heard(k, ws[n - 1], steps[n - 1], id));
      KeptInside(ws[n - 1], id, i);
      StepFollows(k, ws[n - 1], steps[n - 1], id, i, h, from, HeardBetween(hs, m, n - 1));
      KeptInside(ws[n], id, i);
    }
  }

  /** The decision an evaluation hands out is the one hysteresis announces. */
  lemma DecisionFollows(k: Digests, w: World, s: Step, id: u64, i: nat)
    requires s.op.EvaluateOp? && s.op.domain == id && Kept(w, id, i)
    requires EvaluateDomain(k, w, id, s.op.tick, s.op.cancelled, s.op.wall, s.io).value.Some?
    ensures var d := EvaluateDomain(k, w, id, s.op.tick, s.op.cancelled, s.op.wall, s.io).value.value;
            var e := SignalAt(w, id, s.op.tick);
            && d.effective == Announce(w.state.policy.hysteresis, Stance(w.state.domains[i]), e).effective
            && (d.authorized ==> d.effective.WithinPolicy?)
  {
    hide EvaluateDomain, DecideFor, Attempt, AppendJournal, Settled, Announce, CurrentEvaluation, Stance;
    EvaluateReply(k, w, s.op.domain, s.op.tick, s.op.cancelled, s.op.wall, s.io);
    var w1 := w.(clock := EvaluationTick(w, s.op.tick));
    SettledStance(k, w1, id, i, w1.clock);
  }

  /** From any moment a domain is restricted, whatever its counter stood at, and as long as its evaluations
      since have not brought its credit to `deescalationConfirmations`, no decision about it is authorized,
      whatever else the governor does in between; and it is the evaluation that reaches the number that
      relaxes it. */
  lemma RestrictedUntilConfirmed(k: Digests, hs: seq<seq<Signal>>, ws: seq<World>, steps: seq<Step>, id: u64, i: nat,
                                 m: nat, n: nat, s: Step, reply: Reply<Option<Decision>>)
    requires IsRun(k, ws, steps) && Hears(k, hs, ws, steps, id)
    requires m <= n < |ws| && SteadyBetween(steps, m, n) && Kept(ws[m], id, i)
    requires ValidPolicy(ws[m].state.policy) && Restricted(ws[m].state.domains[i])
    requires s.op.EvaluateOp? && s.op.domain == id
    requires reply == EvaluateDomain(k, ws[n], id, s.op.tick, s.op.cancelled, s.op.wall, s.io) && reply.value.Some?
    requires ShortSoFar(ws[m].state.policy.hysteresis, Stance(ws[m].state.domains[i]), HeardBetween(hs, m, n))
    ensures var d := reply.value.value;
            && (d.effective.WithinPolicy? <==>
                  Credit(ws[m].state.policy.hysteresis, Stance(ws[m].state.domains[i]),
                         HeardBetween(hs, m, n) + [SignalAt(ws[n], id, s.op.tick)])
                  >= ws[m].state.policy.hysteresis.deescalationConfirmations)
            && (d.authorized ==> d.effective.WithinPolicy?)
  {
    assert i < |ws[m].state.domains|;
    hide *;
    ConfirmationsBounded(ws[m].state.policy);
    StanceKeeps(ws[m].state.domains[i]);
    RunFollowsHysteresis(k, hs, ws, steps, id, i, m, n);
    DecisionFollows(k, ws[n], s, id, i);
    CreditDecides(ws[m].state.policy.hysteresis, Stance(ws[m].state.domains[i]), HeardBetween(hs, m, n),
                  SignalAt(ws[n], id, s.op.tick));
  }

  /** A restriction an evaluation found leaves the counter at 0, so that from there on the credit is the
      streak and the configured confirmations are needed in full. */
  lemma FoundRestrictionCountsFromZero(k: Digests, hs: seq<seq<Signal>>, ws: seq<World>, steps: seq<Step>, id: u64,
                                       i: nat, l: nat, m: nat, es: seq<Signal>)
    requires IsRun(k, ws, steps) && Hears(k, hs, ws, steps, id)
    requires l <= m < |ws| && SteadyBetween(steps, l, m) && Kept(ws[l], id, i)
    requires var heard := HeardBetween(hs, l, m); heard != [] && Severity(heard[|heard| - 1].raw) >= 2
    ensures Kept(ws[m], id, i) && Restricted(ws[m].state.domains[i]) && ws[m].state.domains[i].confirmations == 0
    ensures var h, s := ws[m].state.policy.hysteresis, Stance(ws[m].state.domains[i]); Credit(h, s, es) == Streak(h, s, es)
  {
    var h, from, heard := ws[l].state.policy.hysteresis, Stance(ws[l].state.domains[i]), HeardBetween(hs, l, m);
    assert After(h, from, heard) == Announce(h, After(h, from, heard[..|heard| - 1]), heard[|heard| - 1]).state;
    hide *;
    RunFollowsHysteresis(k, hs, ws, steps, id, i, l, m);
    KeptInside(ws[m], id, i);
    StanceKeeps(ws[m].state.domains[i]);
    RestrictionIsImmediate(h, After(h, from, heard[..|heard| - 1]), heard[|heard| - 1]);
    CreditFromZero(ws[m].state.policy.hysteresis, Stance(ws[m].state.domains[i]), es);
  }

  lemma ConfirmationsBounded(p: Policy)
    requires ValidPolicy(p)
    ensures 0 < p.hysteresis.deescalationConfirmations < U32_LIMIT
  {
  }

  lemma StanceKeeps(s: DomainState)
    ensures Stance(s).confirmations == s.confirmations && Stance(s).sticky == s.sticky
    ensures Restricted(Stance(s)) <==> Restricted(s)
  {
  }

  /** A decision about a domain that finds AT_LIMIT: with what was heard since some moment and this finding,
      AT_LIMIT is announced exactly when the streak, counted on from what was there before it, is at the
      configured number, and within policy until then; a restricted domain stays at its outcome. Nothing is
      granted in any case. */
  lemma LimitAnnouncedWhenConfirmed(k: Digests, hs: seq<seq<Signal>>, ws: seq<World>, steps: seq<Step>, id: u64, i: nat,
                                    m: nat, n: nat, s: Step, reply: Reply<Option<Decision>>)
    requires IsRun(k, ws, steps) && Hears(k, hs, ws, steps, id)
    requires m <= n < |ws| && SteadyBetween(steps, m, n) && Kept(ws[m], id, i)
    requires s.op.EvaluateOp? && s.op.domain == id && SignalAt(ws[n], id, s.op.tick).raw.AtLimit?
    requires reply == EvaluateDomain(k, ws[n], id, s.op.tick, s.op.cancelled, s.op.wall, s.io) && reply.value.Some?
    ensures Kept(ws[n], id, i) && i < |ws[n].state.domains|
    ensures var h, from := ws[m].state.policy.hysteresis, Stance(ws[m].state.domains[i]);
            var es := HeardBetween(hs, m, n) + [SignalAt(ws[n], id, s.op.tick)];
            var d := reply.value.value;
            && !d.authorized
            && (Restricted(ws[n].state.domains[i]) ==> d.effective == ws[n].state.domains[i].sticky)
            && (!Restricted(After(h, from, BeforeStreak(es))) ==>
                  d.effective == if LimitTally(h, from, es) >= h.escalationConfirmations then AtLimit else WithinPolicy)
  {
    assert |hs| == |ws|;
    hide *;
    var e := SignalAt(ws[n], id, s.op.tick);
    KeptInside(ws[m], id, i);
    RunFollowsHysteresis(k, hs, ws, steps, id, i, m, n);
    KeptInside(ws[n], id, i);
    DecisionFollows(k, ws[n], s, id, i);
    LimitIsNotGranted(k, ws[n], s);
    LimitHeard(ws[m].state.policy.hysteresis, Stance(ws[m].state.domains[i]), HeardBetween(hs, m, n), e,
               ws[n].state.domains[i]);
  }

  lemma LimitHeard(h: Hysteresis, from: DomainState, heard: seq<Signal>, e: Signal, now: DomainState)
    requires e.raw.AtLimit? && Stance(now) == After(h, from, heard)
    ensures var es := heard + [e];
            var effective := Announce(h, Stance(now), e).effective;
            && (Restricted(now) ==> effective == now.sticky)
            && (!Restricted(After(h, from, BeforeStreak(es))) ==>
                  effective == if LimitTally(h, from, es) >= h.escalationConfirmations then AtLimit else WithinPolicy)
  {
    var es := heard + [e];
    assert es[..|heard|] == heard && LimitStreak(es) > 0;
    StanceKeeps(now);
    if Restricted(now) {
      RestrictedKeepsItsOutcome(h, Stance(now), e);
    }
    if !Restricted(After(h, from, BeforeStreak(es))) {
      LimitIsConfirmed(h, from, es);
    }
    hide Announce, After, Stance, LimitTally, LimitStreak, BeforeStreak, Restricted;
  }

  lemma LimitIsNotGranted(k: Digests, w: World, s: Step)
    requires s.op.EvaluateOp? && SignalAt(w, s.op.domain, s.op.tick).raw.AtLimit?
    requires EvaluateDomain(k, w, s.op.domain, s.op.tick, s.op.cancelled, s.op.wall, s.io).value.Some?
    ensures !EvaluateDomain(k, w, s.op.domain, s.op.tick, s.op.cancelled, s.op.wall, s.io).value.value.authorized
  {
    hide EvaluateDomain, Attempt, AppendJournal, Announcing, AssessEvidence, AuthorityOf, CurrentExpectation,
      CurrentEvidence;
    EvaluateReply(k, w, s.op.domain, s.op.tick, s.op.cancelled, s.op.wall, s.io);
  }

  /** From any moment on, whatever was heard before: `deescalationConfirmations` qualifying evaluations in a
      row leave the domain relaxed, exactly when its counter did not stand at its last value while a
      restriction or an AT_LIMIT was in force. */
  lemma ConfirmedRunRelaxes(k: Digests, hs: seq<seq<Signal>>, ws: seq<World>, steps: seq<Step>, id: u64, i: nat, m: nat,
                            n: nat)
    requires IsRun(k, ws, steps) && Hears(k, hs, ws, steps, id)
    requires m <= n < |ws| && SteadyBetween(steps, m, n) && Kept(ws[m], id, i)
    requires ValidPolicy(ws[m].state.policy)
    requires |HeardBetween(hs, m, n)| == ws[m].state.policy.hysteresis.deescalationConfirmations
    requires forall e :: e in HeardBetween(hs, m, n) ==> Qualifies(ws[m].state.policy.hysteresis, ws[m].state.domains[i], e)
    ensures Kept(ws[n], id, i)
    ensures ws[n].state.domains[i].sticky.WithinPolicy?
            <==> Severity(ws[m].state.domains[i].sticky) == 0 || ws[m].state.domains[i].confirmations != U32_LIMIT - 1
  {
    var h, from := ws[m].state.policy.hysteresis, Stance(ws[m].state.domains[i]);
    assert forall e :: e in HeardBetween(hs, m, n) ==> Qualifies(h, from, e);
    assert i < |ws[m].state.domains|;
    hide *;
    ConfirmationsBounded(ws[m].state.policy);
    StanceKeeps(ws[m].state.domains[i]);
    RunFollowsHysteresis(k, hs, ws, steps, id, i, m, n);
    KeptInside(ws[n], id, i);
    StanceKeeps(ws[n].state.domains[i]);
    QualifyingRunRelaxes(h, from, HeardBetween(hs, m, n));
  }
}
