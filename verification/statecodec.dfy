/** How durable state and audit records are laid out (src/state.cpp), and that nothing is lost on the
    way through bytes.

    Each entity has the shapes of its fields, its fields as values, and the entity that given field
    values denote. */
module StateCodec {
  import opened Checked
  import opened Wire
  import opened Model

  // ----------------------------------------------------- codes and cells

  function OutcomeCode(o: Outcome): u32 {
    match o
    case WithinPolicy => 0
    case AtLimit => 1
    case ReductionRequired => 2
    case EmergencyReduction => 3
    case PolicyRejected => 4
    case Unknown => 5
    case Stale => 6
    case ConflictingInput => 7
    case Undefined(code) => code
  }

  function OutcomeOf(code: u32): Outcome {
    if code == 0 then WithinPolicy
    else if code == 1 then AtLimit
    else if code == 2 then ReductionRequired
    else if code == 3 then EmergencyReduction
    else if code == 4 then PolicyRejected
    else if code == 5 then Unknown
    else if code == 6 then Stale
    else if code == 7 then ConflictingInput
    else Undefined(code)
  }

  function KindCode(k: EvidenceKind): u32 {
    match k
    case Capacity => 0
    case Reservation => 1
    case Admission => 2
    case OtherKind(code) => code
  }

  function KindOf(code: u32): EvidenceKind {
    if code == 0 then Capacity else if code == 1 then Reservation else if code == 2 then Admission else OtherKind(code)
  }

  lemma CodesForth()
    ensures forall c: u32 :: OutcomeCode(OutcomeOf(c)) == c && CodedOutcome(OutcomeOf(c))
    ensures forall c: u32 :: KindCode(KindOf(c)) == c && CodedKind(KindOf(c))
  {
  }

  /** `Undefined` and `OtherKind` are used only for codes that no enumerator has. */
  predicate CodedOutcome(o: Outcome) { o.Undefined? ==> o.code >= 8 }
  predicate CodedKind(k: EvidenceKind) { k.OtherKind? ==> k.code >= 3 }

  function U64At(vs: seq<Value>, i: nat): u64 { if i < |vs| && vs[i].Word64V? then vs[i].d else 0 }
  function U32At(vs: seq<Value>, i: nat): u32 { if i < |vs| && vs[i].Word32V? then vs[i].w else 0 }
  function BoolAt(vs: seq<Value>, i: nat): bool { i < |vs| && vs[i].BoolV? && vs[i].b }
  function TextAt(vs: seq<Value>, i: nat): seq<byte> { if i < |vs| && vs[i].TextV? then vs[i].text else [] }
  function HashAt(vs: seq<Value>, i: nat): Digest { if i < |vs| && vs[i].HashV? then vs[i].hash else ZeroDigest() }
  function PartsAt(vs: seq<Value>, i: nat): seq<Value> { if i < |vs| && vs[i].RecordV? then vs[i].parts else [] }
  function ItemsAt(vs: seq<Value>, i: nat): seq<Value> { if i < |vs| && vs[i].TableV? then vs[i].items else [] }

  function Parts(v: Value): seq<Value> { if v.RecordV? then v.parts else [] }

  /** What it means for a field to have its shape. */
  lemma CellFits(shapes: seq<Shape>, vs: seq<Value>, i: nat)
    requires FitsAll(shapes, vs) && i < |shapes|
    ensures match shapes[i]
            case Bool => vs[i] == BoolV(BoolAt(vs, i))
            case Word32 => vs[i] == Word32V(U32At(vs, i))
            case Word64 => vs[i] == Word64V(U64At(vs, i))
            case Text(max) => vs[i] == TextV(TextAt(vs, i)) && |TextAt(vs, i)| <= max
            case Hash => vs[i] == HashV(HashAt(vs, i))
            case Record(parts) => vs[i] == RecordV(PartsAt(vs, i)) && FitsAll(parts, PartsAt(vs, i))
            case Table(max, item) =>
              vs[i] == TableV(ItemsAt(vs, i)) && FitsEach(item, ItemsAt(vs, i)) && |ItemsAt(vs, i)| <= max
            case Framed(_) => true
  {
    assert Fits(shapes[i], vs[i]);
  }

  lemma LeavesFit()
    ensures forall b :: Fits(Bool, BoolV(b))
    ensures forall w :: Fits(Word32, Word32V(w))
    ensures forall d :: Fits(Word64, Word64V(d))
    ensures forall h :: Fits(Hash, HashV(h))
    ensures forall max: u32, text: seq<byte> :: |text| <= max ==> Fits(Text(max), TextV(text))
  {
  }

  lemma RecordFits(shapes: seq<Shape>, parts: seq<Value>)
    requires FitsAll(shapes, parts)
    ensures Fits(Record(shapes), RecordV(parts))
  {
  }

  lemma TableFitsBound(max: u64, item: Shape, items: seq<Value>)
    requires FitsEach(item, items) && |items| <= max
    ensures Fits(Table(max, item), TableV(items))
  {
  }

  // ----------------------------------------------------------- mapped tables

  function MapFields<T>(f: T -> seq<Value>, xs: seq<T>): (vs: seq<Value>)
    ensures |vs| == |xs| && forall i :: 0 <= i < |xs| ==> vs[i] == RecordV(f(xs[i]))
  {
    seq(|xs|, i requires 0 <= i < |xs| => RecordV(f(xs[i])))
  }

  function MapOf<T>(g: seq<Value> -> T, vs: seq<Value>): (xs: seq<T>)
    ensures |xs| == |vs| && forall i :: 0 <= i < |vs| ==> xs[i] == g(Parts(vs[i]))
  {
    seq(|vs|, i requires 0 <= i < |vs| => g(Parts(vs[i])))
  }

  lemma TableForth<T(!new)>(shapes: seq<Shape>, f: T -> seq<Value>, g: seq<Value> -> T, vs: seq<Value>)
    requires FitsEach(Record(shapes), vs)
    requires forall parts :: FitsAll(shapes, parts) ==> f(g(parts)) == parts
    ensures MapFields(f, MapOf(g, vs)) == vs
  {
    forall i | 0 <= i < |vs| ensures RecordV(f(g(Parts(vs[i])))) == vs[i] {
      assert Fits(Record(shapes), vs[i]);
    }
  }

  lemma TableBack<T>(f: T -> seq<Value>, g: seq<Value> -> T, xs: seq<T>)
    requires forall i :: 0 <= i < |xs| ==> g(f(xs[i])) == xs[i]
    ensures MapOf(g, MapFields(f, xs)) == xs
  {
  }

  lemma TableFits<T>(shapes: seq<Shape>, f: T -> seq<Value>, xs: seq<T>)
    requires forall i :: 0 <= i < |xs| ==> FitsAll(shapes, f(xs[i]))
    ensures FitsEach(Record(shapes), MapFields(f, xs))
  {
    forall i | 0 <= i < |xs| ensures Fits(Record(shapes), MapFields(f, xs)[i]) {
      assert FitsAll(shapes, f(xs[i]));
    }
  }

  // --------------------------------------------------------- domain configs

  function U64Fields(xs: seq<u64>): (vs: seq<Value>)
    ensures |vs| == |xs| && forall i :: 0 <= i < |xs| ==> vs[i] == Word64V(xs[i])
  {
    seq(|xs|, i requires 0 <= i < |xs| => Word64V(xs[i]))
  }

  function U64sOf(vs: seq<Value>): (xs: seq<u64>)
    ensures |xs| == |vs| && forall i :: 0 <= i < |vs| ==> xs[i] == U64At(vs, i)
  {
    seq(|vs|, i requires 0 <= i < |vs| => U64At(vs, i))
  }

  lemma U64sForth(vs: seq<Value>)
    requires FitsEach(Word64, vs)
    ensures U64Fields(U64sOf(vs)) == vs
  {
    forall i | 0 <= i < |vs| ensures U64Fields(U64sOf(vs))[i] == vs[i] {
      assert Fits(Word64, vs[i]);
    }
  }

  lemma U64sFit(xs: seq<u64>)
    ensures FitsEach(Word64, U64Fields(xs)) && U64sOf(U64Fields(xs)) == xs
  {
  }

  const DOMAIN_CONFIG: seq<Shape> := [
    Word64, Word64, Text(HARD_MAX_NAME_LENGTH), Word64, Table(HARD_MAX_RESOURCES_PER_DOMAIN, Word64), Word64, Word64,
    Bool, Word64, Word64, Word64, Word64, Bool, Word64]

  function DomainConfigFields(d: DomainConfig): seq<Value> {
    [Word64V(d.id), Word64V(d.generation), TextV(d.name), Word64V(d.pool), TableV(U64Fields(d.members)),
     Word64V(d.configuredRatio.num), Word64V(d.configuredRatio.den), BoolV(d.hasDegradedRatioCap),
     Word64V(d.degradedRatioCap.num), Word64V(d.degradedRatioCap.den), Word64V(d.emergencyReserve),
     Word64V(d.minProtectedHeadroom), BoolV(d.burstPoolEnabled), Word64V(d.burstPoolCap)]
  }

  function DomainConfigOf(vs: seq<Value>): DomainConfig {
    DomainConfig(U64At(vs, 0), U64At(vs, 1), TextAt(vs, 2), U64At(vs, 3), U64sOf(ItemsAt(vs, 4)),
                 Ratio(U64At(vs, 5), U64At(vs, 6)), BoolAt(vs, 7), Ratio(U64At(vs, 8), U64At(vs, 9)),
                 U64At(vs, 10), U64At(vs, 11), BoolAt(vs, 12), U64At(vs, 13))
  }

  predicate BoundedDomainConfig(d: DomainConfig) { |d.name| <= HARD_MAX_NAME_LENGTH
    && |d.members| <= HARD_MAX_RESOURCES_PER_DOMAIN }

  lemma DomainConfigBack(d: DomainConfig)
    requires BoundedDomainConfig(d)
    ensures FitsAll(DOMAIN_CONFIG, DomainConfigFields(d)) && DomainConfigOf(DomainConfigFields(d)) == d
  {
    U64sFit(d.members);
    TableFitsBound(HARD_MAX_RESOURCES_PER_DOMAIN, Word64, U64Fields(d.members));
    LeavesFit();
    hide Fits;
  }

  lemma DomainConfigCells(vs: seq<Value>)
    requires FitsAll(DOMAIN_CONFIG, vs)
    ensures |vs| == 14 && vs[2] == TextV(TextAt(vs, 2)) && |TextAt(vs, 2)| <= HARD_MAX_NAME_LENGTH
    ensures vs[4] == TableV(ItemsAt(vs, 4)) && FitsEach(Word64, ItemsAt(vs, 4))
            && |ItemsAt(vs, 4)| <= HARD_MAX_RESOURCES_PER_DOMAIN
    ensures vs[7] == BoolV(BoolAt(vs, 7)) && vs[12] == BoolV(BoolAt(vs, 12))
    ensures forall i :: i in {0, 1, 3, 5, 6, 8, 9, 10, 11, 13} ==> vs[i] == Word64V(U64At(vs, i))
  {
    FitsLength(DOMAIN_CONFIG, vs);
    hide FitsAll, FitsEach;
    CellFits(DOMAIN_CONFIG, vs, 2);
    CellFits(DOMAIN_CONFIG, vs, 4);
    CellFits(DOMAIN_CONFIG, vs, 7);
    CellFits(DOMAIN_CONFIG, vs, 12);
    forall i | i in {0, 1, 3, 5, 6, 8, 9, 10, 11, 13} ensures vs[i] == Word64V(U64At(vs, i)) {
      CellFits(DOMAIN_CONFIG, vs, i);
    }
  }

  lemma DomainConfigForth(vs: seq<Value>)
    requires FitsAll(DOMAIN_CONFIG, vs)
    ensures DomainConfigFields(DomainConfigOf(vs)) == vs && BoundedDomainConfig(DomainConfigOf(vs))
  {
    DomainConfigCells(vs);
    U64sForth(ItemsAt(vs, 4));
    hide FitsAll, FitsEach, U64Fields, U64sOf, U64At, BoolAt, TextAt, ItemsAt;
    assert DomainConfigFields(DomainConfigOf(vs)) == vs;
  }

  // ------------------------------------------------------------ the policy

  const SERVICE_CLASS: seq<Shape> := [Word64, Text(HARD_MAX_NAME_LENGTH), Word32, Bool, Word32, Bool, Word64]

  function ServiceClassFields(c: ServiceClass): seq<Value> {
    [Word64V(c.id), TextV(c.name), Word32V(c.priority), BoolV(c.eligible), Word32V(c.riskWeightPpm),
     BoolV(c.hasShareCap), Word64V(c.shareCapPpm)]
  }

  function ServiceClassOf(vs: seq<Value>): ServiceClass {
    ServiceClass(U64At(vs, 0), TextAt(vs, 1), U32At(vs, 2), BoolAt(vs, 3), U32At(vs, 4), BoolAt(vs, 5), U64At(vs, 6))
  }

  predicate BoundedServiceClass(c: ServiceClass) { |c.name| <= HARD_MAX_NAME_LENGTH }

  lemma ServiceClassBack(c: ServiceClass)
    requires BoundedServiceClass(c)
    ensures FitsAll(SERVICE_CLASS, ServiceClassFields(c)) && ServiceClassOf(ServiceClassFields(c)) == c
  {
    LeavesFit();
    hide Fits;
  }

  lemma ServiceClassForth(vs: seq<Value>)
    requires FitsAll(SERVICE_CLASS, vs)
    ensures ServiceClassFields(ServiceClassOf(vs)) == vs && BoundedServiceClass(ServiceClassOf(vs))
  {
    forall i | 0 <= i < |vs| ensures ServiceClassFields(ServiceClassOf(vs))[i] == vs[i] {
      CellFits(SERVICE_CLASS, vs, i);
    }
    CellFits(SERVICE_CLASS, vs, 1);
  }

  const RISK_BUDGET: seq<Shape> := [Word64, Word64, Bool, Word64, Bool, Word64]

  function RiskBudgetFields(r: RiskBudget): seq<Value> {
    [Word64V(r.id), Word64V(r.generation), BoolV(r.hasAbsolute), Word64V(r.maxExposureUnits), BoolV(r.hasPpm),
     Word64V(r.maxExposurePpm)]
  }

  function RiskBudgetOf(vs: seq<Value>): RiskBudget {
    RiskBudget(U64At(vs, 0), U64At(vs, 1), BoolAt(vs, 2), U64At(vs, 3), BoolAt(vs, 4), U64At(vs, 5))
  }

  lemma RiskBudgetBack(r: RiskBudget)
    ensures FitsAll(RISK_BUDGET, RiskBudgetFields(r)) && RiskBudgetOf(RiskBudgetFields(r)) == r
  {
    LeavesFit();
    hide Fits;
  }

  lemma RiskBudgetForth(vs: seq<Value>)
    requires FitsAll(RISK_BUDGET, vs)
    ensures RiskBudgetFields(RiskBudgetOf(vs)) == vs
  {
    forall i | 0 <= i < |vs| ensures RiskBudgetFields(RiskBudgetOf(vs))[i] == vs[i] {
      CellFits(RISK_BUDGET, vs, i);
    }
  }

  const THRESHOLDS: seq<Shape> := [Word64, Word64, Word64]

  function ThresholdsFields(t: Thresholds): seq<Value> {
    [Word64V(t.warnUsedPpm), Word64V(t.reduceOveragePpm), Word64V(t.emergencyOveragePpm)]
  }

  function ThresholdsOf(vs: seq<Value>): Thresholds {
    Thresholds(U64At(vs, 0), U64At(vs, 1), U64At(vs, 2))
  }

  lemma ThresholdsBack(t: Thresholds)
    ensures FitsAll(THRESHOLDS, ThresholdsFields(t)) && ThresholdsOf(ThresholdsFields(t)) == t
  {
    LeavesFit();
    hide Fits;
  }

  lemma ThresholdsForth(vs: seq<Value>)
    requires FitsAll(THRESHOLDS, vs)
    ensures ThresholdsFields(ThresholdsOf(vs)) == vs
  {
    forall i | 0 <= i < |vs| ensures ThresholdsFields(ThresholdsOf(vs))[i] == vs[i] {
      CellFits(THRESHOLDS, vs, i);
    }
  }

  const HYSTERESIS: seq<Shape> := [Word64, Word64, Word64, Word64]

  function HysteresisFields(h: Hysteresis): seq<Value> {
    [Word64V(h.escalationConfirmations), Word64V(h.deescalationConfirmations), Word64V(h.cooldownTicks),
     Word64V(h.deescalationMarginPpm)]
  }

  function HysteresisOf(vs: seq<Value>): Hysteresis {
    Hysteresis(U64At(vs, 0), U64At(vs, 1), U64At(vs, 2), U64At(vs, 3))
  }

  lemma HysteresisBack(h: Hysteresis)
    ensures FitsAll(HYSTERESIS, HysteresisFields(h)) && HysteresisOf(HysteresisFields(h)) == h
  {
    LeavesFit();
    hide Fits;
  }

  lemma HysteresisForth(vs: seq<Value>)
    requires FitsAll(HYSTERESIS, vs)
    ensures HysteresisFields(HysteresisOf(vs)) == vs
  {
    forall i | 0 <= i < |vs| ensures HysteresisFields(HysteresisOf(vs))[i] == vs[i] {
      CellFits(HYSTERESIS, vs, i);
    }
  }

  const LIMITS: seq<Shape> := [Word32, Word32, Word32, Word64, Word64, Word32, Word32, Word32, Word32, Word64]

  function LimitsFields(l: Limits): seq<Value> {
    [Word32V(l.maxDomains), Word32V(l.maxResourcesPerDomain), Word32V(l.maxServiceClasses), Word64V(l.maxGuarantees),
     Word64V(l.maxDemandRecords), Word32V(l.maxCorrectiveIntents), Word32V(l.maxExplanationLines),
     Word32V(l.maxExplanationBytes), Word32V(l.maxResourceBreakdown), Word64V(l.maxCapacityUnits)]
  }

  function LimitsOf(vs: seq<Value>): Limits {
    Limits(U32At(vs, 0), U32At(vs, 1), U32At(vs, 2), U64At(vs, 3), U64At(vs, 4), U32At(vs, 5), U32At(vs, 6),
           U32At(vs, 7), U32At(vs, 8), U64At(vs, 9))
  }

  lemma LimitsBack(l: Limits)
    ensures FitsAll(LIMITS, LimitsFields(l)) && LimitsOf(LimitsFields(l)) == l
  {
    LeavesFit();
    hide Fits;
  }

  lemma LimitsForth(vs: seq<Value>)
    requires FitsAll(LIMITS, vs)
    ensures LimitsFields(LimitsOf(vs)) == vs
  {
    forall i | 0 <= i < |vs| ensures LimitsFields(LimitsOf(vs))[i] == vs[i] {
      CellFits(LIMITS, vs, i);
    }
  }

  const POLICY_HEAD: seq<Shape> := [Word64, Word64, Text(HARD_MAX_NAME_LENGTH), Word64, Word64]

  const POLICY: seq<Shape> := [
    Record(POLICY_HEAD), Table(HARD_MAX_DOMAINS, Record(DOMAIN_CONFIG)),
    Table(HARD_MAX_SERVICE_CLASSES, Record(SERVICE_CLASS)), Record(RISK_BUDGET), Record(THRESHOLDS),
    Record(HYSTERESIS), Record(LIMITS), Word64, Word64, Word64, Hash]

  function PolicyHead(p: Policy): seq<Value> {
    [Word64V(p.id), Word64V(p.generation), TextV(p.name), Word64V(p.ratioCap.num), Word64V(p.ratioCap.den)]
  }

  function PolicyFields(p: Policy): seq<Value> {
    [RecordV(PolicyHead(p)), TableV(MapFields(DomainConfigFields, p.domains)),
     TableV(MapFields(ServiceClassFields, p.serviceClasses)), RecordV(RiskBudgetFields(p.riskBudget)),
     RecordV(ThresholdsFields(p.thresholds)), RecordV(HysteresisFields(p.hysteresis)), RecordV(LimitsFields(p.limits)),
     Word64V(p.maxCapacityAge), Word64V(p.maxReservationAge), Word64V(p.maxAdmissionAge), HashV(p.digest)]
  }

  function PolicyOf(vs: seq<Value>): Policy {
    var head := PartsAt(vs, 0);
    Policy(U64At(head, 0), U64At(head, 1), TextAt(head, 2), Ratio(U64At(head, 3), U64At(head, 4)),
           MapOf(DomainConfigOf, ItemsAt(vs, 1)), MapOf(ServiceClassOf, ItemsAt(vs, 2)),
           RiskBudgetOf(PartsAt(vs, 3)), ThresholdsOf(PartsAt(vs, 4)), HysteresisOf(PartsAt(vs, 5)),
           LimitsOf(PartsAt(vs, 6)), U64At(vs, 7), U64At(vs, 8), U64At(vs, 9), HashAt(vs, 10))
  }

  predicate BoundedPolicy(p: Policy) {
    && |p.name| <= HARD_MAX_NAME_LENGTH && |p.domains| <= HARD_MAX_DOMAINS && |p.serviceClasses| <= HARD_MAX_SERVICE_CLASSES
    && (forall d :: d in p.domains ==> BoundedDomainConfig(d))
    && (forall c :: c in p.serviceClasses ==> BoundedServiceClass(c))
  }

  lemma PolicyTables(p: Policy)
    requires BoundedPolicy(p)
    ensures FitsEach(Record(DOMAIN_CONFIG), MapFields(DomainConfigFields, p.domains))
    ensures MapOf(DomainConfigOf, MapFields(DomainConfigFields, p.domains)) == p.domains
    ensures FitsEach(Record(SERVICE_CLASS), MapFields(ServiceClassFields, p.serviceClasses))
    ensures MapOf(ServiceClassOf, MapFields(ServiceClassFields, p.serviceClasses)) == p.serviceClasses
  {
    hide Fits, DomainConfigFields, DomainConfigOf, ServiceClassFields, ServiceClassOf;
    forall i | 0 <= i < |p.domains|
      ensures FitsAll(DOMAIN_CONFIG, DomainConfigFields(p.domains[i]))
      ensures DomainConfigOf(DomainConfigFields(p.domains[i])) == p.domains[i]
    {
      DomainConfigBack(p.domains[i]);
    }
    forall i | 0 <= i < |p.serviceClasses|
      ensures FitsAll(SERVICE_CLASS, ServiceClassFields(p.serviceClasses[i]))
      ensures ServiceClassOf(ServiceClassFields(p.serviceClasses[i])) == p.serviceClasses[i]
    {
      ServiceClassBack(p.serviceClasses[i]);
    }
    TableFits(DOMAIN_CONFIG, DomainConfigFields, p.domains);
    TableFits(SERVICE_CLASS, ServiceClassFields, p.serviceClasses);
    TableBack(DomainConfigFields, DomainConfigOf, p.domains);
    TableBack(ServiceClassFields, ServiceClassOf, p.serviceClasses);
  }

  lemma PolicyHeadFits(p: Policy)
    requires |p.name| <= HARD_MAX_NAME_LENGTH
    ensures FitsAll(POLICY_HEAD, PolicyHead(p))
  {
    LeavesFit();
    hide Fits;
  }

  lemma PolicyFits(p: Policy)
    requires BoundedPolicy(p)
    ensures FitsAll(POLICY, PolicyFields(p))
  {
    PolicyCellsFit(p);
    LeavesFit();
    hide Fits, DomainConfigFields, ServiceClassFields, RiskBudgetFields, ThresholdsFields, HysteresisFields,
      LimitsFields, MapFields, PolicyHead, BoundedPolicy;
  }

  lemma PolicyCellsFit(p: Policy)
    requires BoundedPolicy(p)
    ensures Fits(Record(POLICY_HEAD), RecordV(PolicyHead(p)))
    ensures Fits(Table(HARD_MAX_DOMAINS, Record(DOMAIN_CONFIG)), TableV(MapFields(DomainConfigFields, p.domains)))
    ensures Fits(Table(HARD_MAX_SERVICE_CLASSES, Record(SERVICE_CLASS)), TableV(MapFields(ServiceClassFields, p.serviceClasses)))
    ensures Fits(Record(RISK_BUDGET), RecordV(RiskBudgetFields(p.riskBudget)))
    ensures Fits(Record(THRESHOLDS), RecordV(ThresholdsFields(p.thresholds)))
    ensures Fits(Record(HYSTERESIS), RecordV(HysteresisFields(p.hysteresis)))
    ensures Fits(Record(LIMITS), RecordV(LimitsFields(p.limits)))
  {
    PolicyTables(p);
    PolicyHeadFits(p);
    RiskBudgetBack(p.riskBudget);
    ThresholdsBack(p.thresholds);
    HysteresisBack(p.hysteresis);
    LimitsBack(p.limits);
    hide Fits, FitsAll, FitsEach, PolicyHead, RiskBudgetFields, ThresholdsFields, HysteresisFields, LimitsFields;
    RecordFits(POLICY_HEAD, PolicyHead(p));
    TableFitsBound(HARD_MAX_DOMAINS, Record(DOMAIN_CONFIG), MapFields(DomainConfigFields, p.domains));
    TableFitsBound(HARD_MAX_SERVICE_CLASSES, Record(SERVICE_CLASS), MapFields(ServiceClassFields, p.serviceClasses));
    RecordFits(RISK_BUDGET, RiskBudgetFields(p.riskBudget));
    RecordFits(THRESHOLDS, ThresholdsFields(p.thresholds));
    RecordFits(HYSTERESIS, HysteresisFields(p.hysteresis));
    RecordFits(LIMITS, LimitsFields(p.limits));
  }

  lemma PolicyBack(p: Policy)
    requires BoundedPolicy(p)
    ensures PolicyOf(PolicyFields(p)) == p
  {
    PolicyTables(p);
    RiskBudgetBack(p.riskBudget);
    ThresholdsBack(p.thresholds);
    HysteresisBack(p.hysteresis);
    LimitsBack(p.limits);
    hide Fits, FitsAll, FitsEach, DomainConfigFields, DomainConfigOf, ServiceClassFields, ServiceClassOf,
      RiskBudgetFields, RiskBudgetOf, ThresholdsFields, ThresholdsOf, HysteresisFields, HysteresisOf, LimitsFields,
      LimitsOf, MapFields, MapOf, BoundedPolicy;
  }

  lemma PolicyHeadForth(p: Policy, vs: seq<Value>)
    requires FitsAll(POLICY_HEAD, vs)
    requires p.id == U64At(vs, 0) && p.generation == U64At(vs, 1) && p.name == TextAt(vs, 2)
    requires p.ratioCap == Ratio(U64At(vs, 3), U64At(vs, 4))
    ensures PolicyHead(p) == vs && |p.name| <= HARD_MAX_NAME_LENGTH
  {
    forall i | 0 <= i < |vs| ensures PolicyHead(p)[i] == vs[i] {
      CellFits(POLICY_HEAD, vs, i);
    }
    CellFits(POLICY_HEAD, vs, 2);
  }

  lemma PolicyTablesForth(p: Policy, domains: seq<Value>, classes: seq<Value>)
    requires FitsEach(Record(DOMAIN_CONFIG), domains) && FitsEach(Record(SERVICE_CLASS), classes)
    requires p.domains == MapOf(DomainConfigOf, domains) && p.serviceClasses == MapOf(ServiceClassOf, classes)
    ensures MapFields(DomainConfigFields, p.domains) == domains
    ensures MapFields(ServiceClassFields, p.serviceClasses) == classes
    ensures (forall d :: d in p.domains ==> BoundedDomainConfig(d))
    ensures (forall c :: c in p.serviceClasses ==> BoundedServiceClass(c))
  {
    hide DomainConfigFields, DomainConfigOf, ServiceClassFields, ServiceClassOf, BoundedDomainConfig, BoundedServiceClass;
    forall vs | FitsAll(DOMAIN_CONFIG, vs)
      ensures DomainConfigFields(DomainConfigOf(vs)) == vs && BoundedDomainConfig(DomainConfigOf(vs))
    {
      DomainConfigForth(vs);
    }
    forall vs | FitsAll(SERVICE_CLASS, vs)
      ensures ServiceClassFields(ServiceClassOf(vs)) == vs && BoundedServiceClass(ServiceClassOf(vs))
    {
      ServiceClassForth(vs);
    }
    TableForth(DOMAIN_CONFIG, DomainConfigFields, DomainConfigOf, domains);
    TableForth(SERVICE_CLASS, ServiceClassFields, ServiceClassOf, classes);
    forall i | 0 <= i < |domains| ensures BoundedDomainConfig(p.domains[i]) {
      assert Fits(Record(DOMAIN_CONFIG), domains[i]);
    }
    forall i | 0 <= i < |classes| ensures BoundedServiceClass(p.serviceClasses[i]) {
      assert Fits(Record(SERVICE_CLASS), classes[i]);
    }
  }

  lemma PolicyForth(vs: seq<Value>)
    requires FitsAll(POLICY, vs)
    ensures PolicyFields(PolicyOf(vs)) == vs && BoundedPolicy(PolicyOf(vs))
  {
    hide Fits, FitsEach, DomainConfigFields, DomainConfigOf, ServiceClassFields, ServiceClassOf, RiskBudgetFields,
      RiskBudgetOf, ThresholdsFields, ThresholdsOf, HysteresisFields, HysteresisOf, LimitsFields, LimitsOf, PolicyHead,
      BoundedDomainConfig, BoundedServiceClass;
    var p := PolicyOf(vs);
    PolicyCells(vs);
    PolicyHeadForth(p, PartsAt(vs, 0));
    PolicyTablesForth(p, ItemsAt(vs, 1), ItemsAt(vs, 2));
    RiskBudgetForth(PartsAt(vs, 3));
    ThresholdsForth(PartsAt(vs, 4));
    HysteresisForth(PartsAt(vs, 5));
    LimitsForth(PartsAt(vs, 6));
  }

  lemma PolicyCells(vs: seq<Value>)
    requires FitsAll(POLICY, vs)
    ensures |vs| == 11
    ensures vs[0] == RecordV(PartsAt(vs, 0)) && FitsAll(POLICY_HEAD, PartsAt(vs, 0))
    ensures vs[1] == TableV(ItemsAt(vs, 1)) && FitsEach(Record(DOMAIN_CONFIG), ItemsAt(vs, 1))
            && |ItemsAt(vs, 1)| <= HARD_MAX_DOMAINS
    ensures vs[2] == TableV(ItemsAt(vs, 2)) && FitsEach(Record(SERVICE_CLASS), ItemsAt(vs, 2))
            && |ItemsAt(vs, 2)| <= HARD_MAX_SERVICE_CLASSES
    ensures vs[3] == RecordV(PartsAt(vs, 3)) && FitsAll(RISK_BUDGET, PartsAt(vs, 3))
    ensures vs[4] == RecordV(PartsAt(vs, 4)) && FitsAll(THRESHOLDS, PartsAt(vs, 4))
    ensures vs[5] == RecordV(PartsAt(vs, 5)) && FitsAll(HYSTERESIS, PartsAt(vs, 5))
    ensures vs[6] == RecordV(PartsAt(vs, 6)) && FitsAll(LIMITS, PartsAt(vs, 6))
    ensures vs[7] == Word64V(U64At(vs, 7)) && vs[8] == Word64V(U64At(vs, 8)) && vs[9] == Word64V(U64At(vs, 9))
    ensures vs[10] == HashV(HashAt(vs, 10))
  {
    hide Fits, FitsAll, FitsEach;
    CellFits(POLICY, vs, 0);
    CellFits(POLICY, vs, 1);
    CellFits(POLICY, vs, 2);
    CellFits(POLICY, vs, 3);
    CellFits(POLICY, vs, 4);
    CellFits(POLICY, vs, 5);
    CellFits(POLICY, vs, 6);
    CellFits(POLICY, vs, 7);
    CellFits(POLICY, vs, 8);
    CellFits(POLICY, vs, 9);
    CellFits(POLICY, vs, 10);
    FitsLength(POLICY, vs);
  }

  lemma FitsLength(shapes: seq<Shape>, vs: seq<Value>)
    requires FitsAll(shapes, vs)
    ensures |shapes| == |vs|
  {
  }

  // ----------------------------------------------------- runtime tables

  const PUBLISHER: seq<Shape> := [Word64, Word64, Word64, Word64, Bool, Word32, Word64]

  function PublisherFields(p: Publisher): seq<Value> {
    [Word64V(p.publisher), Word64V(p.incarnation), Word64V(p.epoch), Word64V(p.lastSequence), BoolV(p.fenced),
     Word32V(p.fenceReason.code), Word64V(p.registeredTick)]
  }

  function PublisherOf(vs: seq<Value>): Publisher {
    Publisher(U64At(vs, 0), U64At(vs, 1), U64At(vs, 2), U64At(vs, 3), BoolAt(vs, 4), Reason(U32At(vs, 5)),
              U64At(vs, 6))
  }

  lemma PublisherBack(p: Publisher)
    ensures FitsAll(PUBLISHER, PublisherFields(p)) && PublisherOf(PublisherFields(p)) == p
  {
    LeavesFit();
    hide Fits;
  }

  lemma PublisherForth(vs: seq<Value>)
    requires FitsAll(PUBLISHER, vs)
    ensures PublisherFields(PublisherOf(vs)) == vs
  {
    forall i | 0 <= i < |vs| ensures PublisherFields(PublisherOf(vs))[i] == vs[i] {
      CellFits(PUBLISHER, vs, i);
    }
  }

  const DOMAIN_STATE: seq<Shape> := [Word64, Word64, Word32, Word32, Word64, Bool, Word32, Word64, Word64, Hash,
    Word32]

  function DomainStateFields(d: DomainState): seq<Value> {
    [Word64V(d.domain), Word64V(d.generation), Word32V(OutcomeCode(d.sticky)), Word32V(d.confirmations),
     Word64V(d.lastEscalationTick), BoolV(d.fenced), Word32V(d.fenceReason.code), Word64V(d.fenceEpoch),
     Word64V(d.lastDecision), HashV(d.lastDecisionDigest), Word32V(OutcomeCode(d.lastRaw))]
  }

  function DomainStateOf(vs: seq<Value>): DomainState {
    DomainState(U64At(vs, 0), U64At(vs, 1), OutcomeOf(U32At(vs, 2)), U32At(vs, 3), U64At(vs, 4), BoolAt(vs, 5),
                Reason(U32At(vs, 6)), U64At(vs, 7), U64At(vs, 8), HashAt(vs, 9), OutcomeOf(U32At(vs, 10)))
  }

  predicate BoundedDomainState(d: DomainState) { CodedOutcome(d.sticky) && CodedOutcome(d.lastRaw) }

  lemma DomainStateBack(d: DomainState)
    requires BoundedDomainState(d)
    ensures FitsAll(DOMAIN_STATE, DomainStateFields(d)) && DomainStateOf(DomainStateFields(d)) == d
  {
    LeavesFit();
    hide Fits;
  }

  lemma DomainStateForth(vs: seq<Value>)
    requires FitsAll(DOMAIN_STATE, vs)
    ensures DomainStateFields(DomainStateOf(vs)) == vs && BoundedDomainState(DomainStateOf(vs))
  {
    CodesForth();
    hide OutcomeCode, OutcomeOf, CodedOutcome;
    forall i | 0 <= i < |vs| ensures DomainStateFields(DomainStateOf(vs))[i] == vs[i] {
      CellFits(DOMAIN_STATE, vs, i);
      hide FitsAll;
    }
  }

  const SLOT_STATE: seq<Shape> := [Word64, Word32, Word64, Word64, Word64, Word64, Word64, Word64, Hash, Bool]

  function SlotStateFields(s: SlotState): seq<Value> {
    [Word64V(s.domain), Word32V(KindCode(s.kind)), Word64V(s.generation), Word64V(s.evidenceId), Word64V(s.publisher),
     Word64V(s.incarnation), Word64V(s.sequence), Word64V(s.observedTick), HashV(s.payloadDigest),
     BoolV(s.revalidationRequired)]
  }

  function SlotStateOf(vs: seq<Value>): SlotState {
    SlotState(U64At(vs, 0), KindOf(U32At(vs, 1)), U64At(vs, 2), U64At(vs, 3), U64At(vs, 4), U64At(vs, 5),
              U64At(vs, 6), U64At(vs, 7), HashAt(vs, 8), BoolAt(vs, 9))
  }

  predicate BoundedSlotState(s: SlotState) { CodedKind(s.kind) }

  lemma SlotStateBack(s: SlotState)
    requires BoundedSlotState(s)
    ensures FitsAll(SLOT_STATE, SlotStateFields(s)) && SlotStateOf(SlotStateFields(s)) == s
  {
    LeavesFit();
    hide Fits;
  }

  lemma SlotStateForth(vs: seq<Value>)
    requires FitsAll(SLOT_STATE, vs)
    ensures SlotStateFields(SlotStateOf(vs)) == vs && BoundedSlotState(SlotStateOf(vs))
  {
    forall i | 0 <= i < |vs| ensures SlotStateFields(SlotStateOf(vs))[i] == vs[i] {
      CellFits(SLOT_STATE, vs, i);
    }
  }

  // --------------------------------------------------------- audit records

  const AUDIT_ORIGIN: seq<Shape> := [Word64, Word64, Word64, Word64, Word64, Word64, Word64, Word64]
  const AUDIT_VERDICT: seq<Shape> := [Word32, Word32, Word32, Word32, Word64, Hash, Hash, Bool]
  const AUDIT_TOTALS: seq<Shape> := [Word64, Bool, Word32, Word64, Word64, Word64, Word64, Text(MAX_AUDIT_SUMMARY)]
  const AUDIT: seq<Shape> := AUDIT_ORIGIN + AUDIT_VERDICT + AUDIT_TOTALS

  function AuditOrigin(r: AuditRecord): seq<Value> {
    [Word64V(r.id), Word64V(r.tick), Word64V(r.wallMillis), Word64V(r.incarnation), Word64V(r.epoch),
     Word64V(r.domain), Word64V(r.domainGeneration), Word64V(r.policyGeneration)]
  }

  function AuditVerdict(r: AuditRecord): seq<Value> {
    [Word32V(OutcomeCode(r.raw)), Word32V(OutcomeCode(r.effective)), Word32V(r.reason.code),
     Word32V(r.constraint.code), Word64V(r.decision), HashV(r.decisionDigest), HashV(r.inputDigest),
     BoolV(r.authorized)]
  }

  function AuditTotals(r: AuditRecord): seq<Value> {
    [Word64V(r.authorizedIncrement), BoolV(r.fenced), Word32V(r.confirmations), Word64V(r.lastEscalationTick),
     Word64V(r.ceilingTotal), Word64V(r.committedTotal), Word64V(r.overage), TextV(r.summary)]
  }

  function AuditFields(r: AuditRecord): seq<Value> { AuditOrigin(r) + AuditVerdict(r) + AuditTotals(r) }

  function AuditOf(vs: seq<Value>): AuditRecord {
    AuditRecord(U64At(vs, 0), U64At(vs, 1), U64At(vs, 2), U64At(vs, 3), U64At(vs, 4), U64At(vs, 5), U64At(vs, 6),
                U64At(vs, 7), OutcomeOf(U32At(vs, 8)), OutcomeOf(U32At(vs, 9)), Reason(U32At(vs, 10)),
                Constraint(U32At(vs, 11)), U64At(vs, 12), HashAt(vs, 13), HashAt(vs, 14), BoolAt(vs, 15),
                U64At(vs, 16), BoolAt(vs, 17), U32At(vs, 18), U64At(vs, 19), U64At(vs, 20), U64At(vs, 21),
                U64At(vs, 22), TextAt(vs, 23))
  }

  predicate BoundedAudit(r: AuditRecord) {
    |r.summary| <= MAX_AUDIT_SUMMARY && CodedOutcome(r.raw) && CodedOutcome(r.effective)
  }

  lemma FitsConcat(a: seq<Shape>, b: seq<Shape>, vs: seq<Value>, ws: seq<Value>)
    requires FitsAll(a, vs) && FitsAll(b, ws)
    ensures FitsAll(a + b, vs + ws)
  {
  }

  lemma AuditBack(r: AuditRecord)
    requires BoundedAudit(r)
    ensures FitsAll(AUDIT, AuditFields(r)) && AuditOf(AuditFields(r)) == r
  {
    LeavesFit();
    hide Fits;
    FitsConcat(AUDIT_ORIGIN, AUDIT_VERDICT, AuditOrigin(r), AuditVerdict(r));
    FitsConcat(AUDIT_ORIGIN + AUDIT_VERDICT, AUDIT_TOTALS, AuditOrigin(r) + AuditVerdict(r), AuditTotals(r));
    hide FitsAll;
  }

  lemma AuditCells(vs: seq<Value>)
    requires FitsAll(AUDIT, vs)
    ensures |vs| == 24
    ensures forall i :: 0 <= i < 8 ==> vs[i] == Word64V(U64At(vs, i))
    ensures forall i :: 8 <= i < 12 ==> vs[i] == Word32V(U32At(vs, i))
    ensures vs[12] == Word64V(U64At(vs, 12)) && vs[13] == HashV(HashAt(vs, 13)) && vs[14] == HashV(HashAt(vs, 14))
    ensures vs[15] == BoolV(BoolAt(vs, 15)) && vs[16] == Word64V(U64At(vs, 16)) && vs[17] == BoolV(BoolAt(vs, 17))
    ensures vs[18] == Word32V(U32At(vs, 18))
    ensures forall i :: 19 <= i < 23 ==> vs[i] == Word64V(U64At(vs, i))
    ensures vs[23] == TextV(TextAt(vs, 23)) && |TextAt(vs, 23)| <= MAX_AUDIT_SUMMARY
  {
    FitsLength(AUDIT, vs);
    hide FitsAll;
    forall i | 0 <= i < 8 ensures vs[i] == Word64V(U64At(vs, i)) { CellFits(AUDIT, vs, i); }
    forall i | 8 <= i < 12 ensures vs[i] == Word32V(U32At(vs, i)) { CellFits(AUDIT, vs, i); }
    CellFits(AUDIT, vs, 12);
    CellFits(AUDIT, vs, 13);
    CellFits(AUDIT, vs, 14);
    CellFits(AUDIT, vs, 15);
    CellFits(AUDIT, vs, 16);
    CellFits(AUDIT, vs, 17);
    CellFits(AUDIT, vs, 18);
    forall i | 19 <= i < 23 ensures vs[i] == Word64V(U64At(vs, i)) { CellFits(AUDIT, vs, i); }
    CellFits(AUDIT, vs, 23);
  }

  lemma AuditForth(vs: seq<Value>)
    requires FitsAll(AUDIT, vs)
    ensures AuditFields(AuditOf(vs)) == vs && BoundedAudit(AuditOf(vs))
  {
    AuditCells(vs);
    CodesForth();
    hide FitsAll, OutcomeCode, OutcomeOf, CodedOutcome, U64At, U32At, BoolAt, HashAt, TextAt;
    var r := AuditOf(vs);
    assert AuditOrigin(r) == vs[..8];
    assert AuditVerdict(r) == vs[8..16];
    assert AuditTotals(r) == vs[16..];
    assert vs == vs[..8] + vs[8..16] + vs[16..];
  }

  // ------------------------------------------------------------ bytes of one

  lemma {:induction false} EncodeConcat(a: seq<Value>, b: seq<Value>)
    ensures EncodeAll(a + b) == EncodeAll(a) + EncodeAll(b)
  {
    if a == [] {
      assert a + b == b;
    } else {
      assert (a + b)[1..] == a[1..] + b;
      EncodeConcat(a[1..], b);
      hide Encode;
    }
  }

  lemma EncodeOne(v: Value)
    ensures EncodeAll([v]) == Encode(v)
  {
    assert EncodeAll([]) == [];
  }

  lemma CellLengths()
    ensures forall b :: |Encode(BoolV(b))| == 1
    ensures forall w :: |Encode(Word32V(w))| == 4
    ensures forall d :: |Encode(Word64V(d))| == 8
    ensures forall h :: |Encode(HashV(h))| == 32
    ensures forall text: seq<byte> :: |Encode(TextV(text))| == 4 + |text|
  {
  }

  lemma EightLengths(a: Value, b: Value, c: Value, d: Value, e: Value, f: Value, g: Value, h: Value)
    ensures |EncodeAll([a, b, c, d, e, f, g, h])|
            == |Encode(a)| + |Encode(b)| + |Encode(c)| + |Encode(d)| + |Encode(e)| + |Encode(f)| + |Encode(g)| + |Encode(h)|
  {
    FourLengths(a, b, c, d);
    FourLengths(e, f, g, h);
    EncodeConcat([a, b, c, d], [e, f, g, h]);
    assert [a, b, c, d] + [e, f, g, h] == [a, b, c, d, e, f, g, h];
  }

  lemma FourLengths(a: Value, b: Value, c: Value, d: Value)
    ensures |EncodeAll([a, b, c, d])| == |Encode(a)| + |Encode(b)| + |Encode(c)| + |Encode(d)|
  {
    hide Encode;
    EncodeConcat([a, b], [c, d]);
    EncodeConcat([a], [b]);
    EncodeConcat([c], [d]);
    EncodeOne(a);
    EncodeOne(b);
    EncodeOne(c);
    EncodeOne(d);
    assert [a, b] + [c, d] == [a, b, c, d] && [a] + [b] == [a, b] && [c] + [d] == [c, d];
  }

  /** An audit record takes 202 bytes and its summary. */
  lemma AuditLength(r: AuditRecord)
    ensures |EncodeAll(AuditFields(r))| == 202 + |r.summary|
  {
    var x, y, z := AuditOrigin(r), AuditVerdict(r), AuditTotals(r);
    EncodeConcat(x + y, z);
    EncodeConcat(x, y);
    CellLengths();
    hide Encode, EncodeAll;
    EightLengths(x[0], x[1], x[2], x[3], x[4], x[5], x[6], x[7]);
    EightLengths(y[0], y[1], y[2], y[3], y[4], y[5], y[6], y[7]);
    EightLengths(z[0], z[1], z[2], z[3], z[4], z[5], z[6], z[7]);
    assert x == [x[0], x[1], x[2], x[3], x[4], x[5], x[6], x[7]];
    assert y == [y[0], y[1], y[2], y[3], y[4], y[5], y[6], y[7]];
    assert z == [z[0], z[1], z[2], z[3], z[4], z[5], z[6], z[7]];
  }

  // ------------------------------------------------------------- the codecs

  /** serialize_audit_record: refused only for an overlong summary. */
  function EncodeAudit(r: AuditRecord): Option<seq<byte>> {
    if |r.summary| > MAX_AUDIT_SUMMARY then None else Some(EncodeAll(AuditFields(r)))
  }

  /** deserialize_audit_record: the fields, and nothing after them. */
  function DecodeAudit(s: seq<byte>): Option<AuditRecord> {
    match DecodeAll(AUDIT, s)
    case Malformed => None
    case Read(vs, rest) => if rest == [] then Some(AuditOf(vs)) else None
  }

  /** Reading back a written record gives that record. */
  lemma AuditRoundTrip(r: AuditRecord)
    requires BoundedAudit(r)
    ensures EncodeAudit(r).Some? && DecodeAudit(EncodeAudit(r).value) == Some(r)
  {
    AuditBack(r);
    DecodeEncodeAll(AUDIT, AuditFields(r), []);
    assert EncodeAll(AuditFields(r)) + [] == EncodeAll(AuditFields(r));
    hide DecodeAll, AuditOf, AuditFields;
  }

  /** Whatever the reader accepts is a record whose bytes differ from it only in how true is spelt, and
      which reads back as itself. */
  lemma AuditAccepted(s: seq<byte>)
    requires DecodeAudit(s).Some?
    ensures var r := DecodeAudit(s).value;
            && BoundedAudit(r) && EncodeAudit(r).Some? && Normalises(s, EncodeAudit(r).value)
            && DecodeAudit(EncodeAudit(r).value) == Some(r)
  {
    DecodeAllSound(AUDIT, s);
    hide DecodeAll, AuditOf, AuditFields, EncodeAll;
    var vs := DecodeAll(AUDIT, s).value;
    AuditForth(vs);
    var raw :| s == raw + [] && Normalises(raw, EncodeAll(vs));
    assert s == raw;
    AuditRoundTrip(AuditOf(vs));
  }

  // ----------------------------------------------------- the durable state

  const STATE_HEAD: seq<Shape> := [Word32, Word64, Word64, Word64, Word64, Hash]
  const STATE_TAIL: seq<Shape> := [Word64, Word64, Word64]

  const STATE: seq<Shape> := [
    Record(STATE_HEAD), Record(POLICY), Table(MAX_PUBLISHERS, Record(PUBLISHER)),
    Table(MAX_DOMAINS_STATE, Record(DOMAIN_STATE)), Table(MAX_EVIDENCE_SLOTS, Record(SLOT_STATE)),
    Table(MAX_AUDIT_RECORDS, Framed(Record(AUDIT))), Record(STATE_TAIL)]

  function StateHead(s: DurableState): seq<Value> {
    [Word32V(s.schemaVersion), Word64V(s.revision), Word64V(s.incarnation), Word64V(s.epoch),
     Word64V(s.policyGeneration), HashV(s.policyDigest)]
  }

  function StateTail(s: DurableState): seq<Value> {
    [Word64V(s.decisionsIssued), Word64V(s.tick), Word64V(s.journalRecords)]
  }

  /** Audit records are written as byte blobs with their length in front. */
  function AuditBlobs(rs: seq<AuditRecord>): (vs: seq<Value>)
    ensures |vs| == |rs| && forall i :: 0 <= i < |rs| ==> vs[i] == FramedV(RecordV(AuditFields(rs[i])))
  {
    seq(|rs|, i requires 0 <= i < |rs| => FramedV(RecordV(AuditFields(rs[i]))))
  }

  function AuditsOf(vs: seq<Value>): (rs: seq<AuditRecord>)
    ensures |rs| == |vs| && forall i :: 0 <= i < |vs| ==> rs[i] == AuditOf(if vs[i].FramedV? then Parts(vs[i].item) else [])
  {
    seq(|vs|, i requires 0 <= i < |vs| => AuditOf(if vs[i].FramedV? then Parts(vs[i].item) else []))
  }

  function StateFields(s: DurableState): seq<Value> {
    [RecordV(StateHead(s)), RecordV(PolicyFields(s.policy)), TableV(MapFields(PublisherFields, s.publishers)),
     TableV(MapFields(DomainStateFields, s.domains)), TableV(MapFields(SlotStateFields, s.evidence)),
     TableV(AuditBlobs(s.audit)), RecordV(StateTail(s))]
  }

  function StateOf(vs: seq<Value>): DurableState {
    var head, tail := PartsAt(vs, 0), PartsAt(vs, 6);
    DurableState(U32At(head, 0), U64At(head, 1), U64At(head, 2), U64At(head, 3), U64At(head, 4), HashAt(head, 5),
                 PolicyOf(PartsAt(vs, 1)), MapOf(PublisherOf, ItemsAt(vs, 2)), MapOf(DomainStateOf, ItemsAt(vs, 3)),
                 MapOf(SlotStateOf, ItemsAt(vs, 4)), AuditsOf(ItemsAt(vs, 5)),
                 U64At(tail, 0), U64At(tail, 1), U64At(tail, 2))
  }

  predicate BoundedState(s: DurableState) {
    && BoundedPolicy(s.policy)
    && |s.publishers| <= MAX_PUBLISHERS && |s.domains| <= MAX_DOMAINS_STATE
    && |s.evidence| <= MAX_EVIDENCE_SLOTS && |s.audit| <= MAX_AUDIT_RECORDS
    && (forall d :: d in s.domains ==> BoundedDomainState(d))
    && (forall e :: e in s.evidence ==> BoundedSlotState(e))
    && (forall r :: r in s.audit ==> BoundedAudit(r))
  }

  lemma BlobFits(r: AuditRecord)
    requires BoundedAudit(r)
    ensures Fits(Framed(Record(AUDIT)), FramedV(RecordV(AuditFields(r))))
  {
    AuditBack(r);
    AuditLength(r);
    hide AuditFields, AuditOf, FitsAll;
    RecordFits(AUDIT, AuditFields(r));
  }

  lemma AuditTableBack(rs: seq<AuditRecord>)
    requires forall r :: r in rs ==> BoundedAudit(r)
    ensures FitsEach(Framed(Record(AUDIT)), AuditBlobs(rs)) && AuditsOf(AuditBlobs(rs)) == rs
  {
    hide AuditFields, AuditOf, Fits;
    forall i | 0 <= i < |rs|
      ensures Fits(Framed(Record(AUDIT)), AuditBlobs(rs)[i]) && AuditsOf(AuditBlobs(rs))[i] == rs[i]
    {
      BlobFits(rs[i]);
      AuditBack(rs[i]);
    }
  }

  lemma RuntimeTablesBack(s: DurableState)
    requires BoundedState(s)
    ensures FitsEach(Record(PUBLISHER), MapFields(PublisherFields, s.publishers))
    ensures MapOf(PublisherOf, MapFields(PublisherFields, s.publishers)) == s.publishers
    ensures FitsEach(Record(DOMAIN_STATE), MapFields(DomainStateFields, s.domains))
    ensures MapOf(DomainStateOf, MapFields(DomainStateFields, s.domains)) == s.domains
    ensures FitsEach(Record(SLOT_STATE), MapFields(SlotStateFields, s.evidence))
    ensures MapOf(SlotStateOf, MapFields(SlotStateFields, s.evidence)) == s.evidence
  {
    hide Fits, PublisherFields, PublisherOf, DomainStateFields, DomainStateOf, SlotStateFields, SlotStateOf,
      BoundedPolicy, BoundedDomainState, BoundedSlotState;
    forall i | 0 <= i < |s.publishers|
      ensures FitsAll(PUBLISHER, PublisherFields(s.publishers[i]))
      ensures PublisherOf(PublisherFields(s.publishers[i])) == s.publishers[i]
    {
      PublisherBack(s.publishers[i]);
    }
    forall i | 0 <= i < |s.domains|
      ensures FitsAll(DOMAIN_STATE, DomainStateFields(s.domains[i]))
      ensures DomainStateOf(DomainStateFields(s.domains[i])) == s.domains[i]
    {
      DomainStateBack(s.domains[i]);
    }
    forall i | 0 <= i < |s.evidence|
      ensures FitsAll(SLOT_STATE, SlotStateFields(s.evidence[i]))
      ensures SlotStateOf(SlotStateFields(s.evidence[i])) == s.evidence[i]
    {
      SlotStateBack(s.evidence[i]);
    }
    TableFits(PUBLISHER, PublisherFields, s.publishers);
    TableFits(DOMAIN_STATE, DomainStateFields, s.domains);
    TableFits(SLOT_STATE, SlotStateFields, s.evidence);
    TableBack(PublisherFields, PublisherOf, s.publishers);
    TableBack(DomainStateFields, DomainStateOf, s.domains);
    TableBack(SlotStateFields, SlotStateOf, s.evidence);
  }

  lemma EndsFit(s: DurableState)
    ensures FitsAll(STATE_HEAD, StateHead(s)) && FitsAll(STATE_TAIL, StateTail(s))
  {
    LeavesFit();
    hide Fits;
  }

  lemma StateCellsFit(s: DurableState)
    requires BoundedState(s)
    ensures Fits(Record(STATE_HEAD), RecordV(StateHead(s))) && Fits(Record(POLICY), RecordV(PolicyFields(s.policy)))
    ensures Fits(Table(MAX_PUBLISHERS, Record(PUBLISHER)), TableV(MapFields(PublisherFields, s.publishers)))
    ensures Fits(Table(MAX_DOMAINS_STATE, Record(DOMAIN_STATE)), TableV(MapFields(DomainStateFields, s.domains)))
    ensures Fits(Table(MAX_EVIDENCE_SLOTS, Record(SLOT_STATE)), TableV(MapFields(SlotStateFields, s.evidence)))
    ensures Fits(Table(MAX_AUDIT_RECORDS, Framed(Record(AUDIT))), TableV(AuditBlobs(s.audit)))
    ensures Fits(Record(STATE_TAIL), RecordV(StateTail(s)))
  {
    RuntimeTablesBack(s);
    AuditTableBack(s.audit);
    EndsFit(s);
    PolicyFits(s.policy);
    hide Fits, FitsAll, FitsEach, StateHead, StateTail, PolicyFields, BoundedPolicy;
    RecordFits(STATE_HEAD, StateHead(s));
    RecordFits(POLICY, PolicyFields(s.policy));
    TableFitsBound(MAX_PUBLISHERS, Record(PUBLISHER), MapFields(PublisherFields, s.publishers));
    TableFitsBound(MAX_DOMAINS_STATE, Record(DOMAIN_STATE), MapFields(DomainStateFields, s.domains));
    TableFitsBound(MAX_EVIDENCE_SLOTS, Record(SLOT_STATE), MapFields(SlotStateFields, s.evidence));
    TableFitsBound(MAX_AUDIT_RECORDS, Framed(Record(AUDIT)), AuditBlobs(s.audit));
    RecordFits(STATE_TAIL, StateTail(s));
  }

  lemma StateFits(s: DurableState)
    requires BoundedState(s)
    ensures FitsAll(STATE, StateFields(s))
  {
    StateCellsFit(s);
    hide Fits, StateHead, StateTail, PolicyFields, MapFields, AuditBlobs, BoundedState;
  }

  lemma StateBack(s: DurableState)
    requires BoundedState(s)
    ensures StateOf(StateFields(s)) == s
  {
    RuntimeTablesBack(s);
    AuditTableBack(s.audit);
    PolicyBack(s.policy);
    hide Fits, FitsAll, FitsEach, PolicyFields, PolicyOf, PublisherFields, PublisherOf, DomainStateFields, DomainStateOf,
      SlotStateFields, SlotStateOf, MapFields, MapOf, AuditBlobs, AuditsOf, BoundedState;
  }

  /** serialize_state, for tables and names within their bounds. */
  function EncodeState(s: DurableState): seq<byte> { EncodeAll(StateFields(s)) }

  /** deserialize_state: the schema version is checked, every table is bounded, nothing may follow. */
  function DecodeState(bytes: seq<byte>): Option<DurableState> {
    match DecodeAll(STATE, bytes)
    case Malformed => None
    case Read(vs, rest) =>
      if rest == [] && StateOf(vs).schemaVersion == STATE_SCHEMA_VERSION then Some(StateOf(vs)) else None
  }

  lemma StateRoundTrip(s: DurableState)
    requires BoundedState(s) && s.schemaVersion == STATE_SCHEMA_VERSION
    ensures DecodeState(EncodeState(s)) == Some(s)
  {
    StateFits(s);
    StateBack(s);
    hide DecodeAll, EncodeAll, StateOf, StateFields, BoundedState;
    DecodeEncodeAll(STATE, StateFields(s), []);
    assert EncodeState(s) + [] == EncodeState(s);
  }

  // ------------------------------------------------- one table too large

  lemma {:induction false} ItemsTakeRoom(vs: seq<Value>)
    requires forall i :: 0 <= i < |vs| ==> |Encode(vs[i])| >= 1
    ensures |EncodeAll(vs)| >= |vs|
  {
    hide Encode;
    if vs != [] {
      ItemsTakeRoom(vs[1..]);
    }
  }

  lemma SlotTakesRoom(e: SlotState)
    ensures |Encode(RecordV(SlotStateFields(e)))| >= 1
  {
    var vs := SlotStateFields(e);
    assert vs == [vs[0]] + vs[1..];
    CellLengths();
    hide Encode;
    EncodeConcat([vs[0]], vs[1..]);
    EncodeOne(vs[0]);
    EncodeRecord(vs);
  }

  lemma EncodeRecord(vs: seq<Value>)
    ensures Encode(RecordV(vs)) == EncodeAll(vs)
  {
  }

  /** What is written of a state with more evidence slots than the reader takes is written in full, and
      refused by the reader. */
  lemma TooManySlots(s: DurableState)
    requires BoundedState(s.(evidence := [])) && MAX_EVIDENCE_SLOTS < |s.evidence| < U64_LIMIT
    ensures DecodeState(EncodeState(s)) == None
  {
    var fields, bytes := StateFields(s), EncodeState(s);
    StateCellsFit(s.(evidence := []));
    hide BoundedState, Fits, StateHead, PolicyFields, StateTail, MapFields, AuditBlobs, Decode, Encode, EncodeAll, StateOf;
    assert FitsAll(STATE[..4], fields[..4]);
    assert fields == fields[..4] + fields[4..] && fields[4..] == [fields[4]] + fields[5..];
    EncodeConcat(fields[..4], fields[4..]);
    EncodeConcat([fields[4]], fields[5..]);
    EncodeOne(fields[4]);
    DecodeEncodeAll(STATE[..4], fields[..4], EncodeAll(fields[4..]));
    CountRefused(MAX_EVIDENCE_SLOTS, Record(SLOT_STATE), MapFields(SlotStateFields, s.evidence), EncodeAll(fields[5..]));
    DecodeSnoc(STATE[..4], STATE[4], bytes);
    MalformedPrefix(STATE[..4] + [STATE[4]], STATE[5..], bytes);
    assert STATE[..4] + [STATE[4]] + STATE[5..] == STATE;
  }

  /** Every slot takes at least one byte of the state. */
  lemma SlotsTakeRoom(s: DurableState)
    ensures |s.evidence| <= |EncodeState(s)|
  {
    var fields, items := StateFields(s), MapFields(SlotStateFields, s.evidence);
    assert fields == fields[..4] + fields[4..] && fields[4..] == [fields[4]] + fields[5..];
    EncodeConcat(fields[..4], fields[4..]);
    EncodeConcat([fields[4]], fields[5..]);
    EncodeOne(fields[4]);
    assert |Encode(TableV(items))| >= |EncodeAll(items)|;
    hide Encode, EncodeAll, StateHead, PolicyFields, StateTail, AuditBlobs, SlotStateFields;
    forall i | 0 <= i < |items| ensures |Encode(items[i])| >= 1 {
      SlotTakesRoom(s.evidence[i]);
    }
    ItemsTakeRoom(items);
  }

  // ---------------------------------------------------- what is accepted

  lemma AuditTableForth(vs: seq<Value>)
    requires FitsEach(Framed(Record(AUDIT)), vs)
    ensures AuditBlobs(AuditsOf(vs)) == vs
    ensures forall r :: r in AuditsOf(vs) ==> BoundedAudit(r)
  {
    hide AuditFields, AuditOf, BoundedAudit;
    forall i | 0 <= i < |vs| ensures AuditBlobs(AuditsOf(vs))[i] == vs[i] && BoundedAudit(AuditsOf(vs)[i]) {
      assert Fits(Framed(Record(AUDIT)), vs[i]) && Fits(Record(AUDIT), vs[i].item);
      AuditForth(vs[i].item.parts);
    }
  }

  lemma RuntimeTablesForth(ps: seq<Value>, ds: seq<Value>, es: seq<Value>)
    requires FitsEach(Record(PUBLISHER), ps) && FitsEach(Record(DOMAIN_STATE), ds) && FitsEach(Record(SLOT_STATE), es)
    ensures MapFields(PublisherFields, MapOf(PublisherOf, ps)) == ps
    ensures MapFields(DomainStateFields, MapOf(DomainStateOf, ds)) == ds
    ensures MapFields(SlotStateFields, MapOf(SlotStateOf, es)) == es
    ensures forall d :: d in MapOf(DomainStateOf, ds) ==> BoundedDomainState(d)
    ensures forall e :: e in MapOf(SlotStateOf, es) ==> BoundedSlotState(e)
  {
    hide PublisherFields, PublisherOf, DomainStateFields, DomainStateOf, SlotStateFields, SlotStateOf,
      BoundedDomainState, BoundedSlotState;
    forall vs | FitsAll(PUBLISHER, vs) ensures PublisherFields(PublisherOf(vs)) == vs {
      PublisherForth(vs);
    }
    forall vs | FitsAll(DOMAIN_STATE, vs)
      ensures DomainStateFields(DomainStateOf(vs)) == vs && BoundedDomainState(DomainStateOf(vs))
    {
      DomainStateForth(vs);
    }
    forall vs | FitsAll(SLOT_STATE, vs)
      ensures SlotStateFields(SlotStateOf(vs)) == vs && BoundedSlotState(SlotStateOf(vs))
    {
      SlotStateForth(vs);
    }
    TableForth(PUBLISHER, PublisherFields, PublisherOf, ps);
    TableForth(DOMAIN_STATE, DomainStateFields, DomainStateOf, ds);
    TableForth(SLOT_STATE, SlotStateFields, SlotStateOf, es);
    forall i | 0 <= i < |ds| ensures BoundedDomainState(MapOf(DomainStateOf, ds)[i]) {
      assert Fits(Record(DOMAIN_STATE), ds[i]);
    }
    forall i | 0 <= i < |es| ensures BoundedSlotState(MapOf(SlotStateOf, es)[i]) {
      assert Fits(Record(SLOT_STATE), es[i]);
    }
  }

  lemma EndsForth(s: DurableState, head: seq<Value>, tail: seq<Value>)
    requires FitsAll(STATE_HEAD, head) && FitsAll(STATE_TAIL, tail)
    requires s.schemaVersion == U32At(head, 0) && s.revision == U64At(head, 1) && s.incarnation == U64At(head, 2)
    requires s.epoch == U64At(head, 3) && s.policyGeneration == U64At(head, 4) && s.policyDigest == HashAt(head, 5)
    requires s.decisionsIssued == U64At(tail, 0) && s.tick == U64At(tail, 1) && s.journalRecords == U64At(tail, 2)
    ensures StateHead(s) == head && StateTail(s) == tail
  {
    forall i | 0 <= i < |head| ensures StateHead(s)[i] == head[i] {
      CellFits(STATE_HEAD, head, i);
    }
    forall i | 0 <= i < |tail| ensures StateTail(s)[i] == tail[i] {
      CellFits(STATE_TAIL, tail, i);
    }
  }

  lemma StateCells(vs: seq<Value>)
    requires FitsAll(STATE, vs)
    ensures |vs| == 7
    ensures vs[0] == RecordV(PartsAt(vs, 0)) && FitsAll(STATE_HEAD, PartsAt(vs, 0))
    ensures vs[1] == RecordV(PartsAt(vs, 1)) && FitsAll(POLICY, PartsAt(vs, 1))
    ensures vs[2] == TableV(ItemsAt(vs, 2)) && FitsEach(Record(PUBLISHER), ItemsAt(vs, 2))
            && |ItemsAt(vs, 2)| <= MAX_PUBLISHERS
    ensures vs[3] == TableV(ItemsAt(vs, 3)) && FitsEach(Record(DOMAIN_STATE), ItemsAt(vs, 3))
            && |ItemsAt(vs, 3)| <= MAX_DOMAINS_STATE
    ensures vs[4] == TableV(ItemsAt(vs, 4)) && FitsEach(Record(SLOT_STATE), ItemsAt(vs, 4))
            && |ItemsAt(vs, 4)| <= MAX_EVIDENCE_SLOTS
    ensures vs[5] == TableV(ItemsAt(vs, 5)) && FitsEach(Framed(Record(AUDIT)), ItemsAt(vs, 5))
            && |ItemsAt(vs, 5)| <= MAX_AUDIT_RECORDS
    ensures vs[6] == RecordV(PartsAt(vs, 6)) && FitsAll(STATE_TAIL, PartsAt(vs, 6))
  {
    hide Fits, FitsAll, FitsEach;
    CellFits(STATE, vs, 0);
    CellFits(STATE, vs, 1);
    CellFits(STATE, vs, 2);
    CellFits(STATE, vs, 3);
    CellFits(STATE, vs, 4);
    CellFits(STATE, vs, 5);
    CellFits(STATE, vs, 6);
    FitsLength(STATE, vs);
  }

  lemma StateForth(vs: seq<Value>)
    requires FitsAll(STATE, vs)
    ensures StateFields(StateOf(vs)) == vs && BoundedState(StateOf(vs))
  {
    hide Fits, FitsAll, FitsEach, StateHead, StateTail, PolicyFields, PolicyOf, PublisherFields, PublisherOf,
      DomainStateFields, DomainStateOf, SlotStateFields, SlotStateOf, MapFields, MapOf, AuditBlobs, AuditsOf,
      BoundedPolicy, BoundedDomainState, BoundedSlotState, BoundedAudit, PartsAt, ItemsAt;
    StateCells(vs);
    var s := StateOf(vs);
    EndsForth(s, PartsAt(vs, 0), PartsAt(vs, 6));
    PolicyForth(PartsAt(vs, 1));
    RuntimeTablesForth(ItemsAt(vs, 2), ItemsAt(vs, 3), ItemsAt(vs, 4));
    AuditTableForth(ItemsAt(vs, 5));
    var fields := StateFields(s);
    assert fields[0] == vs[0] && fields[1] == vs[1] && fields[2] == vs[2] && fields[3] == vs[3];
    assert fields[4] == vs[4] && fields[5] == vs[5] && fields[6] == vs[6];
  }

  /** Whatever state the reader accepts is within bounds, differs from its own encoding only in how true
      is spelt, and reads back as itself. */
  lemma StateAccepted(bytes: seq<byte>)
    requires DecodeState(bytes).Some?
    ensures var s := DecodeState(bytes).value;
            BoundedState(s) && Normalises(bytes, EncodeState(s)) && DecodeState(EncodeState(s)) == Some(s)
  {
    DecodeAllSound(STATE, bytes);
    hide DecodeAll, StateOf, StateFields, EncodeAll, BoundedState;
    var vs := DecodeAll(STATE, bytes).value;
    StateForth(vs);
    var raw :| bytes == raw + [] && Normalises(raw, EncodeAll(vs));
    assert bytes == raw;
    StateRoundTrip(StateOf(vs));
  }
}
