/** Hysteresis and fencing of one domain (src/governor.cpp, the middle of evaluate_locked).

    Restriction takes effect on the evaluation that finds it; relaxation has to be confirmed. */
module HysteresisRules {
  import opened Checked
  import opened Model

  const U32_LIMIT := 0x1_0000_0000

  /** What one evaluation tells the hysteresis: its raw outcome, the used share of the ceiling, the tick. */
  datatype Signal = Signal(raw: Outcome, used: u64, tick: u64)

  /** The runtime state the evaluation leaves behind and the outcome it announces. */
  datatype Announcement = Announcement(state: DomainState, effective: Outcome)

  predicate MarginHolds(h: Hysteresis, used: u64) {
    (if used < PPM_SCALE then used else PPM_SCALE) + h.deescalationMarginPpm <= PPM_SCALE
  }

  predicate CooledDown(h: Hysteresis, s: DomainState, tick: u64) {
    tick >= s.lastEscalationTick && tick - s.lastEscalationTick >= h.cooldownTicks
  }

  /** An evaluation that counts towards relaxing `s`. */
  predicate Qualifies(h: Hysteresis, s: DomainState, e: Signal) {
    e.raw.WithinPolicy? && MarginHolds(h, e.used) && CooledDown(h, s, e.tick)
  }

  /** The 32-bit confirmation counter wraps. */
  function Confirm(n: u32): u32 { (n + 1) % U32_LIMIT }

  function Settle(h: Hysteresis, s: DomainState, e: Signal): Announcement {
    var raw, sticky := Severity(e.raw), Severity(s.sticky);
    if raw >= 2 then
      Announcement(
        s.(sticky := e.raw, confirmations := 0,
           lastEscalationTick := if raw > sticky then e.tick else s.lastEscalationTick),
        e.raw)
    else if raw == 1 then
      if sticky >= 2 then Announcement(s.(confirmations := 0), s.sticky)
      else
        var n := Confirm(if s.sticky.AtLimit? then s.confirmations else 0);
        Announcement(s.(sticky := AtLimit, confirmations := n),
                     if n >= h.escalationConfirmations then AtLimit else WithinPolicy)
    else if sticky == 0 then Announcement(s.(sticky := e.raw, confirmations := 0), e.raw)
    else if !MarginHolds(h, e.used) || !CooledDown(h, s, e.tick) then
      Announcement(s.(confirmations := 0), s.sticky)
    else
      var n := Confirm(s.confirmations);
      if n >= h.deescalationConfirmations
      then Announcement(s.(sticky := e.raw, confirmations := 0), e.raw)
      else Announcement(s.(confirmations := n), s.sticky)
  }

  /** A fence is raised by an outcome that requires it and cleared only by an authoritative one. */
  predicate Fences(s: DomainState, effective: Outcome) {
    FenceWorthy(effective) || (s.fenced && !Authoritative(effective))
  }

  function Announce(h: Hysteresis, s: DomainState, e: Signal): Announcement {
    var a := Settle(h, s, e);
    a.(state := a.state.(lastRaw := e.raw, fenced := Fences(s, a.effective)))
  }

  // ----------------------------------------------------------------- runs

  /** The state after a run of evaluations with no epoch advance and no policy change in between. */
  function After(h: Hysteresis, s: DomainState, es: seq<Signal>): DomainState {
    if es == [] then s else Announce(h, After(h, s, es[..|es| - 1]), es[|es| - 1]).state
  }

  /** What the n-th evaluation of the run announces. */
  function Announced(h: Hysteresis, s: DomainState, es: seq<Signal>, n: nat): Outcome
    requires n < |es|
  {
    Announce(h, After(h, s, es[..n]), es[n]).effective
  }

  /** How many of the latest evaluations qualified without interruption. */
  function Streak(h: Hysteresis, s: DomainState, es: seq<Signal>): (n: nat)
    ensures n <= |es|
  {
    if es == [] then 0
    else
      var init, e := es[..|es| - 1], es[|es| - 1];
      if Qualifies(h, After(h, s, init), e) then Streak(h, s, init) + 1 else 0
  }

  predicate Restricted(s: DomainState) { Severity(s.sticky) >= 2 }

  // ------------------------------------------------ restriction is immediate

  lemma RestrictionIsImmediate(h: Hysteresis, s: DomainState, e: Signal)
    requires Severity(e.raw) >= 2
    ensures var a := Announce(h, s, e);
            && a.effective == e.raw == a.state.sticky && a.state.confirmations == 0 && Restricted(a.state)
            && (Severity(e.raw) > Severity(s.sticky) ==> a.state.lastEscalationTick == e.tick)
  {
  }

  /** The announced outcome and the sticky one differ only while an AT_LIMIT finding is unconfirmed. */
  lemma StickyIsAnnounced(h: Hysteresis, s: DomainState, e: Signal)
    ensures var a := Announce(h, s, e);
            a.effective != a.state.sticky <==> e.raw.AtLimit? && a.effective.WithinPolicy?
  {
  }

  // ------------------------------------------------- relaxation is confirmed

  /** What the counter has reached after some qualifying evaluations. */
  function Counted(s: DomainState, n: nat): nat {
    if s.confirmations == U32_LIMIT - 1 && n > 0 then n - 1 else s.confirmations + n
  }

  lemma CountedStep(s: DomainState, n: nat)
    requires Counted(s, n) < U32_LIMIT && (n > 0 ==> Counted(s, n) < U32_LIMIT - 1)
    ensures Counted(s, n + 1) == Confirm(Counted(s, n))
  {
  }

  /** The confirmations a restricted domain is credited with after some evaluations: the current streak, and
      while that is unbroken also what the counter stood at before it. */
  function Credit(h: Hysteresis, s: DomainState, es: seq<Signal>): nat {
    if Streak(h, s, es) == |es| then Counted(s, |es|) else Streak(h, s, es)
  }

  lemma CreditFromZero(h: Hysteresis, s: DomainState, es: seq<Signal>)
    requires s.confirmations == 0
    ensures Credit(h, s, es) == Streak(h, s, es)
  {
  }

  /** The credits of a run all fell short, that of the starting state aside. */
  predicate ShortSoFar(h: Hysteresis, s: DomainState, es: seq<Signal>) {
    forall n :: 0 < n <= |es| ==> Credit(h, s, es[..n]) < h.deescalationConfirmations
  }

  lemma ShortPrefix(h: Hysteresis, s: DomainState, es: seq<Signal>)
    requires es != [] && ShortSoFar(h, s, es)
    ensures Credit(h, s, es) < h.deescalationConfirmations && ShortSoFar(h, s, es[..|es| - 1])
  {
    hide Credit;
    var init := es[..|es| - 1];
    assert es[..|es|] == es;
    assert forall n :: 0 < n <= |init| ==> init[..n] == es[..n];
  }

  /** One evaluation of a restricted domain, whatever its counter. */
  lemma RestrictedStep(h: Hysteresis, s: DomainState, e: Signal)
    requires Restricted(s) && 0 < h.deescalationConfirmations < U32_LIMIT
    ensures var a := Announce(h, s, e);
            var n := if Qualifies(h, s, e) then Confirm(s.confirmations) else 0;
            if n >= h.deescalationConfirmations
            then a.effective.WithinPolicy? && a.state.sticky.WithinPolicy?
            else !a.effective.WithinPolicy? && Restricted(a.state) && a.state.confirmations == n
  {
  }

  /** One more evaluation adds one to the credit or takes it all away. */
  lemma CreditStep(h: Hysteresis, s: DomainState, es: seq<Signal>)
    requires es != [] && 0 < h.deescalationConfirmations < U32_LIMIT
    requires |es| > 1 ==> Credit(h, s, es[..|es| - 1]) < h.deescalationConfirmations
    ensures var init := es[..|es| - 1];
            Credit(h, s, es) == if Qualifies(h, After(h, s, init), es[|es| - 1]) then Confirm(Credit(h, s, init)) else 0
  {
    hide Qualifies, After;
    var init := es[..|es| - 1];
    if Streak(h, s, init) == |init| {
      CountedStep(s, |init|);
    }
    hide Counted;
  }

  /** A restricted domain, whatever its counter stood at: while its credit is below the configured number of
      confirmations it stays restricted, the counter is the credit and nothing is announced as within
      policy; the evaluation that reaches the number relaxes it. */
  lemma {:induction false} RelaxationIsConfirmed(h: Hysteresis, s: DomainState, es: seq<Signal>)
    requires Restricted(s) && 0 < h.deescalationConfirmations < U32_LIMIT
    requires es != [] && ShortSoFar(h, s, es[..|es| - 1])
    ensures var complete := Credit(h, s, es) >= h.deescalationConfirmations;
            && (!complete ==> Restricted(After(h, s, es)) && After(h, s, es).confirmations == Credit(h, s, es))
            && (complete ==> After(h, s, es).sticky.WithinPolicy?)
            && (Announced(h, s, es, |es| - 1).WithinPolicy? <==> complete)
  {
    var init := es[..|es| - 1];
    if init == [] {
      assert Credit(h, s, init) == s.confirmations;
    } else {
      ShortPrefix(h, s, init);
      RelaxationIsConfirmed(h, s, init);
    }
    CreditStep(h, s, es);
    RestrictedStep(h, After(h, s, init), es[|es| - 1]);
    hide Announce, Restricted, Qualifies, Credit;
  }

  /** After evaluations whose credits all fell short, the next one is announced as within policy exactly
      when it reaches the configured number. */
  lemma CreditDecides(h: Hysteresis, s: DomainState, es: seq<Signal>, e: Signal)
    requires Restricted(s) && 0 < h.deescalationConfirmations < U32_LIMIT && ShortSoFar(h, s, es)
    ensures Announce(h, After(h, s, es), e).effective.WithinPolicy?
            <==> Credit(h, s, es + [e]) >= h.deescalationConfirmations
  {
    hide Announce, Restricted, Credit, After, ShortSoFar;
    var all := es + [e];
    assert all[..|es|] == es;
    RelaxationIsConfirmed(h, s, all);
  }

  /** The evaluation that relaxes a restricted domain completes a streak of the configured number exactly when
      the streak began after the domain was restricted, or the counter stood at 0 then: otherwise what the
      counter was left at by earlier findings is counted in. (One configured confirmation is always one.) */
  lemma ConfirmedInFull(h: Hysteresis, s: DomainState, es: seq<Signal>)
    requires Restricted(s) && 0 < h.deescalationConfirmations < U32_LIMIT
    requires es != [] && ShortSoFar(h, s, es[..|es| - 1]) && Credit(h, s, es) >= h.deescalationConfirmations
    ensures Streak(h, s, es) == h.deescalationConfirmations
            <==> || Streak(h, s, es) < |es|
                 || s.confirmations == 0
                 || (h.deescalationConfirmations == 1 && s.confirmations != U32_LIMIT - 1)
  {
    hide Announce, After, Qualifies;
    var init := es[..|es| - 1];
    if init != [] {
      ShortPrefix(h, s, init);
    }
    hide ShortSoFar;
  }

  /** From any sticky state `deescalationConfirmations` consecutive qualifying evaluations relax the
      domain, except that a counter about to wrap loses its count. */
  lemma QualifyingRunRelaxes(h: Hysteresis, s: DomainState, es: seq<Signal>)
    requires 0 < h.deescalationConfirmations < U32_LIMIT
    requires |es| == h.deescalationConfirmations
    requires forall e :: e in es ==> Qualifies(h, s, e)
    ensures After(h, s, es).sticky.WithinPolicy? <==> Severity(s.sticky) == 0 || s.confirmations != U32_LIMIT - 1
    ensures Announced(h, s, es, |es| - 1) == After(h, s, es).sticky
  {
    QualifyingProgress(h, s, es);
    assert es[|es| - 1] in es;
    var init := es[..|es| - 1];
    QualifyingProgress(h, s, init);
    StickyIsAnnounced(h, After(h, s, init), es[|es| - 1]);
  }

  /** Either the domain is relaxed already or each evaluation added a confirmation. */
  lemma {:induction false} QualifyingProgress(h: Hysteresis, s: DomainState, es: seq<Signal>)
    requires 0 < h.deescalationConfirmations < U32_LIMIT && |es| <= h.deescalationConfirmations
    requires forall e :: e in es ==> Qualifies(h, s, e)
    ensures var t := After(h, s, es);
            && t.lastEscalationTick == s.lastEscalationTick
            && (if Severity(s.sticky) == 0 || (es != [] && Counted(s, |es|) >= h.deescalationConfirmations)
                then t.sticky.WithinPolicy?
                else t.sticky == s.sticky && t.confirmations == Counted(s, |es|))
  {
    if es != [] {
      var m := |es| - 1;
      var t, e := After(h, s, es[..m]), es[m];
      assert After(h, s, es) == Announce(h, t, e).state && e in es;
      QualifyingProgress(h, s, es[..m]);
      QualifiesStill(h, s, t, e);
      QualifyingStep(h, t, e);
      CountedGrows(s, m);
      WithinHasNoSeverity(s.sticky);
      WithinHasNoSeverity(t.sticky);
      if Severity(s.sticky) > 0 && (m == 0 || Counted(s, m) < h.deescalationConfirmations) {
        CountedStep(s, m);
      }
      hide *;
    } else {
      assert Counted(s, 0) == s.confirmations;
    }
  }

  lemma QualifiesStill(h: Hysteresis, s: DomainState, t: DomainState, e: Signal)
    requires Qualifies(h, s, e) && t.lastEscalationTick == s.lastEscalationTick
    ensures Qualifies(h, t, e)
  {
  }

  lemma CountedGrows(s: DomainState, n: nat)
    ensures n > 0 ==> Counted(s, n) <= Counted(s, n + 1)
    ensures Counted(s, 0) == s.confirmations
  {
  }

  lemma WithinHasNoSeverity(o: Outcome)
    ensures Severity(o) == 0 <==> o.WithinPolicy?
  {
  }

  lemma QualifyingStep(h: Hysteresis, t: DomainState, e: Signal)
    requires Qualifies(h, t, e) && 0 < h.deescalationConfirmations
    ensures var u := Announce(h, t, e).state;
            && u.lastEscalationTick == t.lastEscalationTick
            && (if Severity(t.sticky) == 0 || Confirm(t.confirmations) >= h.deescalationConfirmations
                then u.sticky.WithinPolicy?
                else u.sticky == t.sticky && u.confirmations == Confirm(t.confirmations))
  {
  }

  /** What relaxes a domain: a finding within policy that leaves the margin, comes when the cooldown since the
      last escalation is over, and completes the confirmations. */
  lemma RelaxationIsEarned(h: Hysteresis, s: DomainState, e: Signal)
    requires Severity(s.sticky) > 0
    ensures Announce(h, s, e).state.sticky.WithinPolicy?
            <==> && e.raw.WithinPolicy?
                 && e.used + h.deescalationMarginPpm <= PPM_SCALE + (if e.used > PPM_SCALE then e.used - PPM_SCALE else 0)
                 && e.tick >= s.lastEscalationTick + h.cooldownTicks
                 && (s.confirmations + 1) % U32_LIMIT >= h.deescalationConfirmations
  {
    WithinHasNoSeverity(e.raw);
  }

  predicate Escalates(s: DomainState, e: Signal) { Severity(e.raw) >= 2 && Severity(e.raw) > Severity(s.sticky) }

  /** The domain has been kept restricted since it escalated at `from`. */
  predicate CoolingSince(s: DomainState, from: u64, now: u64) { Restricted(s) && from <= s.lastEscalationTick <= now }

  lemma CooldownStep(h: Hysteresis, s: DomainState, e: Signal, from: u64)
    requires CoolingSince(s, from, e.tick)
    ensures var a := Announce(h, s, e);
            e.tick >= from + h.cooldownTicks || (CoolingSince(a.state, from, e.tick) && !a.effective.WithinPolicy?)
  {
  }

  /** After an escalation nothing is announced as within policy before the cooldown is over, whatever is found
      in between, as long as the clock does not go back. */
  lemma {:induction false} CooldownIsKept(h: Hysteresis, s: DomainState, es: seq<Signal>, i: nat, n: nat)
    requires i < n <= |es| && Escalates(After(h, s, es[..i]), es[i])
    requires forall a, b :: 0 <= a <= b < |es| ==> es[a].tick <= es[b].tick
    ensures || es[n - 1].tick >= es[i].tick + h.cooldownTicks
            || (CoolingSince(After(h, s, es[..n]), es[i].tick, es[n - 1].tick)
                && !Announced(h, s, es, n - 1).WithinPolicy?)
  {
    var init, e := es[..n - 1], es[n - 1];
    assert es[..n][..n - 1] == init;
    assert After(h, s, es[..n]) == Announce(h, After(h, s, init), e).state;
    if n == i + 1 {
      EscalationCools(h, After(h, s, init), e);
    } else {
      CooldownIsKept(h, s, es, i, n - 1);
      assert es[n - 2].tick <= e.tick;
      if es[n - 2].tick < es[i].tick + h.cooldownTicks {
        StillCooling(After(h, s, init), es[i].tick, es[n - 2].tick, e.tick);
        CooldownStep(h, After(h, s, init), e, es[i].tick);
      }
    }
    hide After, Announce, CoolingSince;
  }

  lemma EscalationCools(h: Hysteresis, s: DomainState, e: Signal)
    requires Escalates(s, e)
    ensures var a := Announce(h, s, e); CoolingSince(a.state, e.tick, e.tick) && !a.effective.WithinPolicy?
  {
  }

  lemma StillCooling(s: DomainState, from: u64, before: u64, now: u64)
    requires CoolingSince(s, from, before) && before <= now
    ensures CoolingSince(s, from, now)
  {
  }

  // --------------------------------------------------- announcing AT_LIMIT

  /** How many of the latest evaluations found AT_LIMIT without interruption. */
  function LimitStreak(es: seq<Signal>): (n: nat)
    ensures n <= |es|
    ensures forall i :: |es| - n <= i < |es| ==> es[i].raw.AtLimit?
    ensures n < |es| ==> !es[|es| - n - 1].raw.AtLimit?
  {
    if es != [] && es[|es| - 1].raw.AtLimit? then LimitStreak(es[..|es| - 1]) + 1 else 0
  }

  /** What came before the streak. */
  function BeforeStreak(es: seq<Signal>): seq<Signal> { es[..|es| - LimitStreak(es)] }

  /** The count an AT_LIMIT finding goes on from. */
  function LimitCount(s: DomainState): u32 { if s.sticky.AtLimit? then s.confirmations else 0 }

  /** What the 32-bit counter makes of the streak and of what was there before it. */
  function LimitTally(h: Hysteresis, s: DomainState, es: seq<Signal>): u32 {
    (LimitCount(After(h, s, BeforeStreak(es))) + LimitStreak(es)) % U32_LIMIT
  }

  lemma LimitStep(h: Hysteresis, s: DomainState, e: Signal)
    requires !Restricted(s) && e.raw.AtLimit?
    ensures var a := Announce(h, s, e);
            && a.state.sticky.AtLimit? && a.state.confirmations == Confirm(LimitCount(s))
            && a.effective == if Confirm(LimitCount(s)) >= h.escalationConfirmations then AtLimit else WithinPolicy
  {
  }

  lemma WrappedStep(c: u32, n: nat)
    requires n > 0
    ensures Confirm((c + n - 1) % U32_LIMIT) == (c + n) % U32_LIMIT
  {
  }

  /** AT_LIMIT findings in a row on an unrestricted domain: each is counted on from what was there before
      them, and the finding is announced when the count, in 32 bits, is at the configured number, as within
      policy until then. */
  lemma {:induction false} LimitIsConfirmed(h: Hysteresis, s: DomainState, es: seq<Signal>)
    requires LimitStreak(es) > 0 && !Restricted(After(h, s, BeforeStreak(es)))
    ensures After(h, s, es).sticky.AtLimit? && After(h, s, es).confirmations == LimitTally(h, s, es)
    ensures Announced(h, s, es, |es| - 1)
            == if LimitTally(h, s, es) >= h.escalationConfirmations then AtLimit else WithinPolicy
  {
    var init := es[..|es| - 1];
    TallyStep(h, s, es);
    if LimitStreak(es) > 1 {
      LimitIsConfirmed(h, s, init);
    }
    LimitStep(h, After(h, s, init), es[|es| - 1]);
    hide Announce, Confirm, LimitTally, LimitStreak, BeforeStreak;
  }

  lemma TallyStep(h: Hysteresis, s: DomainState, es: seq<Signal>)
    requires LimitStreak(es) > 0
    ensures var init, n := es[..|es| - 1], LimitStreak(es);
            && es[|es| - 1].raw.AtLimit?
            && LimitTally(h, s, es) == Confirm(if n == 1 then LimitCount(After(h, s, init)) else LimitTally(h, s, init))
            && (if n == 1 then BeforeStreak(es) == init
                else LimitStreak(init) == n - 1 && BeforeStreak(init) == BeforeStreak(es))
  {
    var init, n := es[..|es| - 1], LimitStreak(es);
    assert BeforeStreak(es) == if n == 1 then init else BeforeStreak(init);
    WrappedStep(LimitCount(After(h, s, BeforeStreak(es))), n);
    hide After, Confirm;
  }

  /** What a streak of AT_LIMIT findings goes on from: any other finding restarts the count at 0, save one
      within policy that qualifies for relaxing an AT_LIMIT without completing its confirmations, which is
      counted in with them. */
  lemma LimitCountRestarts(h: Hysteresis, s: DomainState, e: Signal)
    requires !e.raw.AtLimit? && 0 < h.deescalationConfirmations
    ensures LimitCount(Announce(h, s, e).state)
            == if s.sticky.AtLimit? && Qualifies(h, s, e) && Confirm(s.confirmations) < h.deescalationConfirmations
               then Confirm(s.confirmations) else 0
  {
  }

  /** When AT_LIMIT is announced of an unrestricted domain: on a finding of it that is confirmed, or on one
      within policy while an AT_LIMIT, confirmed or not, is not relaxed yet. */
  lemma LimitAnnouncedIff(h: Hysteresis, s: DomainState, e: Signal)
    requires !Restricted(s)
    ensures Announce(h, s, e).effective.AtLimit?
            <==> || (e.raw.AtLimit? && Confirm(LimitCount(s)) >= h.escalationConfirmations)
                 || (e.raw.WithinPolicy? && s.sticky.AtLimit?
                     && !(Qualifies(h, s, e) && Confirm(s.confirmations) >= h.deescalationConfirmations))
  {
  }

  /** A restricted domain stays at what it was restricted to, and the finding only costs it its count. */
  lemma RestrictedKeepsItsOutcome(h: Hysteresis, s: DomainState, e: Signal)
    requires Restricted(s) && e.raw.AtLimit?
    ensures var a := Announce(h, s, e); a.effective == s.sticky == a.state.sticky && a.state.confirmations == 0
  {
  }

  // -------------------------------------------------------------- fencing

  /** A fenced domain is one that is held at an emergency or worse. */
  predicate FenceHeld(s: DomainState) {
    s.fenced ==> Severity(s.sticky) >= 3
  }

  /** Fences are raised and kept only at severity 3 or more, cleared only by an authoritative finding
      that is not an emergency, and an unconfirmed AT_LIMIT announced as within policy clears none. */
  lemma FenceDiscipline(h: Hysteresis, s: DomainState, e: Signal)
    requires FenceHeld(s)
    ensures var a := Announce(h, s, e);
            && FenceHeld(a.state)
            && (s.fenced && !a.state.fenced ==>
                  && (a.effective.WithinPolicy? || a.effective.AtLimit? || a.effective.ReductionRequired?)
                  && a.effective == a.state.sticky)
            && (a.effective.WithinPolicy? ==> !a.state.fenced)
  {
  }
}
