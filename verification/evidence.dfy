/** Evidence snapshots: canonical digests and structural validation (src/evidence.cpp). */
module EvidenceRules {
  import opened Checked
  import opened Endian
  import opened Wire
  import opened Model
  import opened Sorting

  const HARD_MAX_TICKS: nat := 0x4000_0000_0000_0000

  /** One published snapshot of any kind. */
  datatype Snapshot =
    | OfCapacity(capacity: CapacitySnapshot)
    | OfReservation(reservation: ReservationSnapshot)
    | OfAdmission(admission: AdmissionSnapshot)

  /** What the three kinds have in common. */
  datatype Header = Header(domain: u64, generation: u64, epoch: u64, observedTick: u64)

  function KindOf(s: Snapshot): EvidenceKind {
    match s
    case OfCapacity(_) => Capacity
    case OfReservation(_) => Reservation
    case OfAdmission(_) => Admission
  }

  function HeaderOf(s: Snapshot): Header {
    match s
    case OfCapacity(c) => Header(c.domain, c.generation, c.epoch, c.observedTick)
    case OfReservation(r) => Header(r.domain, r.generation, r.epoch, r.observedTick)
    case OfAdmission(a) => Header(a.domain, a.generation, a.epoch, a.observedTick)
  }

  function ProvenanceOf(s: Snapshot): Provenance {
    match s
    case OfCapacity(c) => c.provenance
    case OfReservation(r) => r.provenance
    case OfAdmission(a) => a.provenance
  }

  function WithGeneration(s: Snapshot, g: u64): (r: Snapshot)
    ensures KindOf(r) == KindOf(s) && HeaderOf(r) == HeaderOf(s).(generation := g)
    ensures ProvenanceOf(r) == ProvenanceOf(s)
  {
    match s
    case OfCapacity(c) => OfCapacity(c.(generation := g))
    case OfReservation(x) => OfReservation(x.(generation := g))
    case OfAdmission(a) => OfAdmission(a.(generation := g))
  }

  function WithDigest(s: Snapshot, d: Digest): (r: Snapshot)
    ensures KindOf(r) == KindOf(s) && HeaderOf(r) == HeaderOf(s)
    ensures ProvenanceOf(r) == ProvenanceOf(s).(payloadDigest := d)
  {
    match s
    case OfCapacity(c) => OfCapacity(c.(provenance := c.provenance.(payloadDigest := d)))
    case OfReservation(x) => OfReservation(x.(provenance := x.provenance.(payloadDigest := d)))
    case OfAdmission(a) => OfAdmission(a.(provenance := a.provenance.(payloadDigest := d)))
  }

  // ------------------------------------------------------- canonical bytes

  function HealthCode(h: Health): u32 {
    match h
    case HealthUnknown => 0
    case Healthy => 1
    case Degraded => 2
    case Failed => 3
  }

  function DemandCode(k: DemandKind): u32 {
    match k
    case KindUnknown => 0
    case Guaranteed => 1
    case Contingent => 2
    case Burst => 3
  }

  function ResourcePoolKey(): ResourceCapacity -> int { (r: ResourceCapacity) => r.resource * U64_LIMIT + r.pool }

  function ResourceFields(r: ResourceCapacity): Value {
    RecordV([Word64V(r.resource), Word64V(r.pool), Word64V(r.physical), Word64V(r.usable),
             Word32V(HealthCode(r.health)), Word64V(r.degradedPpm), Word64V(r.generation)])
  }

  function GuaranteeFields(g: Guarantee): Value {
    RecordV([Word64V(g.reservation), Word64V(g.resource), Word64V(g.pool), Word64V(g.serviceClass),
             Word64V(g.amount), Word32V(g.priority), BoolV(g.protectedObligation), BoolV(g.preemptible),
             Word64V(g.generation)])
  }

  function DemandFields(d: Demand): Value {
    RecordV([Word64V(d.admission), Word64V(d.resource), Word64V(d.pool), Word64V(d.serviceClass),
             Word32V(DemandCode(d.kind)), Word64V(d.committed), Word64V(d.pending), Word64V(d.generation)])
  }

  const RESOURCE_SHAPE := Record([Word64, Word64, Word64, Word64, Word32, Word64, Word64])
  const GUARANTEE_SHAPE := Record([Word64, Word64, Word64, Word64, Word64, Word32, Bool, Bool, Word64])
  const DEMAND_SHAPE := Record([Word64, Word64, Word64, Word64, Word32, Word64, Word64, Word64])

  /** A snapshot's hashed fields: the header, then the records by ascending identity. */
  function SnapshotShape(item: Shape): Shape {
    Record([Word64, Word64, Word64, Word64, Table(U64_LIMIT - 1, item)])
  }

  function SnapshotFields(h: Header, items: seq<Value>): Value {
    RecordV([Word64V(h.domain), Word64V(h.generation), Word64V(h.epoch), Word64V(h.observedTick), TableV(items)])
  }

  function Mapped<T>(f: T -> Value, s: seq<T>): (r: seq<Value>)
    ensures |r| == |s| && forall i :: 0 <= i < |s| ==> r[i] == f(s[i])
  {
    seq(|s|, i requires 0 <= i < |s| => f(s[i]))
  }

  function ItemShape(s: Snapshot): Shape {
    match s
    case OfCapacity(_) => RESOURCE_SHAPE
    case OfReservation(_) => GUARANTEE_SHAPE
    case OfAdmission(_) => DEMAND_SHAPE
  }

  function CanonicalItems(s: Snapshot): seq<Value> {
    match s
    case OfCapacity(c) => Mapped(ResourceFields, Sort(ResourcePoolKey(), c.resources))
    case OfReservation(r) => Mapped(GuaranteeFields, Sort(GuaranteeKey(), r.guarantees))
    case OfAdmission(a) => Mapped(DemandFields, Sort(DemandKey(), a.records))
  }

  function Ascii(text: string): seq<byte> {
    seq(|text|, i requires 0 <= i < |text| => text[i] as int % 256)
  }

  function KindTag(k: EvidenceKind): seq<byte> {
    match k
    case Capacity => Ascii("oversub.capacity.v1")
    case Reservation => Ascii("oversub.reservation.v1")
    case Admission => Ascii("oversub.admission.v1")
    case OtherKind(_) => []
  }

  /** Everything a snapshot digest is computed from. The provenance is not part of it. */
  function Canonical(s: Snapshot): seq<byte> {
    Little(|KindTag(KindOf(s))|, 8) + KindTag(KindOf(s)) + Encode(SnapshotFields(HeaderOf(s), CanonicalItems(s)))
  }

  predicate UniqueIds(s: Snapshot) {
    match s
    case OfCapacity(c) => DistinctBy(ResourceKey(), c.resources)
    case OfReservation(r) => DistinctBy(GuaranteeKey(), r.guarantees)
    case OfAdmission(a) => DistinctBy(DemandKey(), a.records)
  }

  /** The same snapshot with its records in some other order. */
  predicate Reordered(s: Snapshot, t: Snapshot) {
    && HeaderOf(s) == HeaderOf(t)
    && match (s, t)
       case (OfCapacity(c), OfCapacity(d)) => multiset(c.resources) == multiset(d.resources)
       case (OfReservation(c), OfReservation(d)) => multiset(c.guarantees) == multiset(d.guarantees)
       case (OfAdmission(c), OfAdmission(d)) => multiset(c.records) == multiset(d.records)
       case _ => false
  }

  predicate WithinTables(s: Snapshot) { |CanonicalItems(s)| < U64_LIMIT }

  lemma ResourceIdsAreKeys(rs: seq<ResourceCapacity>)
    requires DistinctBy(ResourceKey(), rs)
    ensures DistinctBy(ResourcePoolKey(), rs)
  {
    forall i, j | 0 <= i < j < |rs| ensures ResourcePoolKey()(rs[i]) != ResourcePoolKey()(rs[j]) {
      assert ResourceKey()(rs[i]) != ResourceKey()(rs[j]);
    }
  }

  lemma ReorderedItems(s: Snapshot, t: Snapshot)
    requires UniqueIds(s) && Reordered(s, t)
    ensures CanonicalItems(s) == CanonicalItems(t)
  {
    match s
    case OfCapacity(c) =>
      ResourceIdsAreKeys(c.resources);
      SortPermutation(ResourcePoolKey(), c.resources, t.capacity.resources);
    case OfReservation(r) =>
      SortPermutation(GuaranteeKey(), r.guarantees, t.reservation.guarantees);
    case OfAdmission(a) =>
      SortPermutation(DemandKey(), a.records, t.admission.records);
  }

  lemma {:induction false} MappedInjective<T>(f: T -> Value, s: seq<T>, t: seq<T>)
    requires forall x, y :: f(x) == f(y) ==> x == y
    requires Mapped(f, s) == Mapped(f, t)
    ensures s == t
  {
    forall i | 0 <= i < |s| ensures s[i] == t[i] {
      assert Mapped(f, s)[i] == Mapped(f, t)[i];
      assert f(s[i]) == f(t[i]);
    }
  }

  lemma ResourceFieldsInjective(x: ResourceCapacity, y: ResourceCapacity)
    requires ResourceFields(x) == ResourceFields(y)
    ensures x == y
  {
    var a, b := ResourceFields(x).parts, ResourceFields(y).parts;
    assert forall i :: 0 <= i < 7 ==> a[i] == b[i];
  }

  lemma GuaranteeFieldsInjective(x: Guarantee, y: Guarantee)
    requires GuaranteeFields(x) == GuaranteeFields(y)
    ensures x == y
  {
    var a, b := GuaranteeFields(x).parts, GuaranteeFields(y).parts;
    assert forall i :: 0 <= i < 9 ==> a[i] == b[i];
  }

  lemma DemandFieldsInjective(x: Demand, y: Demand)
    requires DemandFields(x) == DemandFields(y)
    ensures x == y
  {
    var a, b := DemandFields(x).parts, DemandFields(y).parts;
    assert forall i :: 0 <= i < 8 ==> a[i] == b[i];
  }

  lemma ItemsDetermine(s: Snapshot, t: Snapshot)
    requires KindOf(s) == KindOf(t) && HeaderOf(s) == HeaderOf(t) && CanonicalItems(s) == CanonicalItems(t)
    ensures Reordered(s, t)
  {
    match s
    case OfCapacity(c) =>
      forall x, y | ResourceFields(x) == ResourceFields(y) ensures x == y { ResourceFieldsInjective(x, y); }
      MappedInjective(ResourceFields, Sort(ResourcePoolKey(), c.resources), Sort(ResourcePoolKey(), t.capacity.resources));
    case OfReservation(r) =>
      forall x, y | GuaranteeFields(x) == GuaranteeFields(y) ensures x == y { GuaranteeFieldsInjective(x, y); }
      MappedInjective(GuaranteeFields, Sort(GuaranteeKey(), r.guarantees),
                      Sort(GuaranteeKey(), t.reservation.guarantees));
    case OfAdmission(a) =>
      forall x, y | DemandFields(x) == DemandFields(y) ensures x == y { DemandFieldsInjective(x, y); }
      MappedInjective(DemandFields, Sort(DemandKey(), a.records), Sort(DemandKey(), t.admission.records));
  }

  lemma ResourceFits(r: ResourceCapacity)
    ensures Fits(RESOURCE_SHAPE, ResourceFields(r))
  {
  }

  lemma GuaranteeFits(g: Guarantee)
    ensures Fits(GUARANTEE_SHAPE, GuaranteeFields(g))
  {
  }

  lemma DemandFits(d: Demand)
    ensures Fits(DEMAND_SHAPE, DemandFields(d))
  {
  }

  lemma ItemFits(s: Snapshot, i: nat)
    requires i < |CanonicalItems(s)|
    ensures Fits(ItemShape(s), CanonicalItems(s)[i])
  {
    hide Fits;
    match s
    case OfCapacity(c) => ResourceFits(Sort(ResourcePoolKey(), c.resources)[i]);
    case OfReservation(r) => GuaranteeFits(Sort(GuaranteeKey(), r.guarantees)[i]);
    case OfAdmission(a) => DemandFits(Sort(DemandKey(), a.records)[i]);
  }

  lemma HeaderFits(item: Shape, h: Header, items: seq<Value>)
    requires FitsEach(item, items) && |items| < U64_LIMIT
    ensures Fits(SnapshotShape(item), SnapshotFields(h, items))
  {
    assert Fits(Table(U64_LIMIT - 1, item), TableV(items));
  }

  lemma FieldsFit(s: Snapshot)
    requires WithinTables(s)
    ensures Fits(SnapshotShape(ItemShape(s)), SnapshotFields(HeaderOf(s), CanonicalItems(s)))
  {
    var items := CanonicalItems(s);
    assert FitsEach(ItemShape(s), items) by {
      hide Fits;
      forall i | 0 <= i < |items| ensures Fits(ItemShape(s), items[i]) {
        ItemFits(s, i);
      }
    }
    HeaderFits(ItemShape(s), HeaderOf(s), items);
  }

  /** Two snapshots of one kind hash the same bytes exactly when they differ only in record order (and
      in provenance): order never matters, everything else always does. */
  lemma CanonicalUpToOrder(s: Snapshot, t: Snapshot)
    requires KindOf(s) == KindOf(t) && UniqueIds(s) && WithinTables(s) && WithinTables(t)
    ensures Canonical(s) == Canonical(t) <==> Reordered(s, t)
  {
    if Reordered(s, t) {
      ReorderedItems(s, t);
    }
    if Canonical(s) == Canonical(t) {
      var tag := Little(|KindTag(KindOf(s))|, 8) + KindTag(KindOf(s));
      var v, w := SnapshotFields(HeaderOf(s), CanonicalItems(s)), SnapshotFields(HeaderOf(t), CanonicalItems(t));
      assert Encode(v) == Canonical(s)[|tag|..] == Canonical(t)[|tag|..] == Encode(w);
      FieldsFit(s);
      FieldsFit(t);
      var shape := SnapshotShape(ItemShape(s));
      DecodeEncode(shape, v, []);
      DecodeEncode(shape, w, []);
      assert v == w;
      assert forall i :: 0 <= i < 5 ==> v.parts[i] == w.parts[i];
      ItemsDetermine(s, t);
    }
  }

  // ------------------------------------------------------------ duplicates

  /** Duplicates are found by sorting and comparing neighbours. */
  method HasDuplicateIds(ids: seq<u64>) returns (found: bool)
    ensures found <==> !DistinctBy(IdKey(), ids)
  {
    if |ids| < 2 {
      return false;
    }
    var sorted := Sort(IdKey(), ids);
    SortSorted(IdKey(), ids);
    for i := 1 to |sorted|
      invariant forall j :: 1 <= j < i ==> sorted[j - 1] != sorted[j]
    {
      if sorted[i - 1] == sorted[i] {
        assert !DistinctBy(IdKey(), sorted) by { assert IdKey()(sorted[i - 1]) == IdKey()(sorted[i]); }
        if DistinctBy(IdKey(), ids) {
          DistinctPermutation(IdKey(), ids, sorted);
        }
        return true;
      }
    }
    NeighboursDiffer(sorted);
    DistinctPermutation(IdKey(), sorted, ids);
    return false;
  }

  /** In sorted order equal identities would be neighbours. */
  lemma NeighboursDiffer(s: seq<u64>)
    requires SortedBy(IdKey(), s) && forall j :: 1 <= j < |s| ==> s[j - 1] != s[j]
    ensures DistinctBy(IdKey(), s)
  {
    forall i, j | 0 <= i < j < |s| ensures IdKey()(s[i]) != IdKey()(s[j]) {
      assert IdKey()(s[i]) <= IdKey()(s[j - 1]) <= IdKey()(s[j]);
      assert s[j - 1] != s[j];
    }
  }

  // ------------------------------------------------------------ validation

  predicate CompleteProvenance(p: Provenance) {
    p.publisher != 0 && p.incarnation != 0 && p.epoch != 0 && p.sequence != 0 && p.evidenceId != 0
  }

  predicate WellFormedResource(r: ResourceCapacity) {
    && r.resource != 0 && r.pool != 0 && r.generation != 0
    && r.usable <= r.physical <= HARD_MAX_CAPACITY_UNITS && r.degradedPpm <= PPM_SCALE
  }

  predicate WellFormedGuarantee(g: Guarantee) {
    && g.reservation != 0 && g.resource != 0 && g.pool != 0 && g.generation != 0
    && g.amount <= HARD_MAX_CAPACITY_UNITS && g.protectedObligation && !g.preemptible
  }

  predicate WellFormedDemand(d: Demand) {
    && d.admission != 0 && d.resource != 0 && d.pool != 0 && d.generation != 0 && !d.kind.KindUnknown?
    && d.committed <= HARD_MAX_CAPACITY_UNITS && d.pending <= HARD_MAX_CAPACITY_UNITS
  }

  predicate WellFormedRecords(s: Snapshot) {
    match s
    case OfCapacity(c) => |c.resources| <= HARD_MAX_RESOURCES && forall r :: r in c.resources ==> WellFormedResource(r)
    case OfReservation(r) => |r.guarantees| <= HARD_MAX_RECORDS && forall g :: g in r.guarantees ==> WellFormedGuarantee(g)
    case OfAdmission(a) => |a.records| <= HARD_MAX_RECORDS && forall d :: d in a.records ==> WellFormedDemand(d)
  }

  /** The validators succeed. A zero payload digest claims nothing. */
  predicate ValidSnapshot(hash: HashFunction, s: Snapshot) {
    && HeaderOf(s).domain != 0 && HeaderOf(s).epoch != 0 && HeaderOf(s).observedTick <= HARD_MAX_TICKS
    && CompleteProvenance(ProvenanceOf(s))
    && (ProvenanceOf(s).payloadDigest == ZeroDigest() || ProvenanceOf(s).payloadDigest == hash(Canonical(s)))
    && WellFormedRecords(s) && UniqueIds(s)
  }
}
