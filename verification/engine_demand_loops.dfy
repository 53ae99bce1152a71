/** The admission scan of evaluate_domain() as the program runs it. */
module DemandLoops {
  import opened Checked
  import opened Wire
  import opened Model
  import opened Sums
  import opened Engine
  import opened EngineLoops

  /** The running sums of the admission scan. A class is listed once some contingent demand counted. */
  datatype DemandLedger = DemandLedger(
    seen: set<u64>, admitted: u64, contingent: u64, pending: u64, burst: u64, ineligible: u64,
    on: map<u64, u64>, pendingOn: map<u64, u64>, byClass: map<u64, u64>, admittedFor: map<Cell, u64>)

  ghost predicate TotalsPosted(k: Scope, ds: seq<Demand>, l: DemandLedger) {
    && l.admitted == DemandTotal(k, AdmittedAll, ds) && l.contingent == DemandTotal(k, ContingentAll, ds)
    && l.pending == DemandTotal(k, PendingAll, ds) && l.burst == DemandTotal(k, BurstAll, ds)
    && l.ineligible == Saturated(DemandTotal(k, IneligibleAll, ds))
  }

  ghost predicate TablesPosted(k: Scope, ds: seq<Demand>, l: DemandLedger) {
    && (forall id: u64 :: id in l.seen <==> HasAdmission(ds, id))
    && (forall r: u64 :: At(l.on, r) == DemandTotal(k, ContingentOn(r), ds))
    && (forall r: u64 :: At(l.pendingOn, r) == DemandTotal(k, PendingOn(r), ds))
    && (forall c: u64 :: At(l.byClass, c) == DemandTotal(k, ContingentOf(c), ds))
    && (forall r: u64, c: u64 :: At(l.admittedFor, Cell(r, c)) == DemandTotal(k, AdmittedFor(r, c), ds))
    && (forall c: u64 :: c in l.byClass <==> HasContingent(k, ds, c))
  }

  /** What one record adds to the tables. */
  ghost predicate Adds(k: Scope, d: Demand, l: DemandLedger, l': DemandLedger) {
    && l'.seen == l.seen + {d.admission}
    && (forall r: u64 :: At(l'.on, r) == At(l.on, r) + WeightOf(k, ContingentOn(r), d))
    && (forall r: u64 :: At(l'.pendingOn, r) == At(l.pendingOn, r) + WeightOf(k, PendingOn(r), d))
    && (forall c: u64 :: At(l'.byClass, c) == At(l.byClass, c) + WeightOf(k, ContingentOf(c), d))
    && (forall r: u64, c: u64 ::
          At(l'.admittedFor, Cell(r, c)) == At(l.admittedFor, Cell(r, c)) + WeightOf(k, AdmittedFor(r, c), d))
    && (forall c: u64 :: c in l'.byClass <==> c in l.byClass || (Counted(k, d) && d.serviceClass == c))
  }

  lemma TotalSnoc(k: Scope, m: DemandMeasure, ds: seq<Demand>, d: Demand)
    ensures DemandTotal(k, m, ds + [d]) == DemandTotal(k, m, ds) + WeightOf(k, m, d)
  {
    SumBySnoc(DemandWeight(k, m), ds, d);
  }

  lemma AdmissionSnoc(ds: seq<Demand>, d: Demand, id: u64)
    ensures HasAdmission(ds + [d], id) <==> HasAdmission(ds, id) || d.admission == id
  {
    var all := ds + [d];
    if HasAdmission(ds, id) {
      var i :| 0 <= i < |ds| && ds[i].admission == id;
      assert all[i].admission == id;
    }
    assert all[|ds|] == d;
  }

  lemma ContingentSnoc(k: Scope, ds: seq<Demand>, d: Demand, c: u64)
    ensures HasContingent(k, ds + [d], c) <==> HasContingent(k, ds, c) || (Counted(k, d) && d.serviceClass == c)
  {
    var all := ds + [d];
    if HasContingent(k, ds, c) {
      var i :| 0 <= i < |ds| && Counted(k, ds[i]) && ds[i].serviceClass == c;
      assert all[i] == ds[i];
    }
    assert all[|ds|] == d;
  }

  lemma TablesSnoc(k: Scope, ds: seq<Demand>, d: Demand, l: DemandLedger, l': DemandLedger)
    requires TablesPosted(k, ds, l) && Adds(k, d, l, l')
    ensures TablesPosted(k, ds + [d], l')
  {
    hide DemandTotal, HasAdmission, HasContingent, WeightOf, Counted;
    forall id: u64 ensures id in l'.seen <==> HasAdmission(ds + [d], id) { AdmissionSnoc(ds, d, id); }
    forall r: u64 ensures At(l'.on, r) == DemandTotal(k, ContingentOn(r), ds + [d]) { TotalSnoc(k, ContingentOn(r), ds, d); }
    forall r: u64 ensures At(l'.pendingOn, r) == DemandTotal(k, PendingOn(r), ds + [d]) { TotalSnoc(k, PendingOn(r), ds, d); }
    forall c: u64 ensures At(l'.byClass, c) == DemandTotal(k, ContingentOf(c), ds + [d]) { TotalSnoc(k, ContingentOf(c), ds, d); }
    forall r: u64, c: u64 ensures At(l'.admittedFor, Cell(r, c)) == DemandTotal(k, AdmittedFor(r, c), ds + [d]) {
      TotalSnoc(k, AdmittedFor(r, c), ds, d);
    }
    forall c: u64 ensures c in l'.byClass <==> HasContingent(k, ds + [d], c) { ContingentSnoc(k, ds, d, c); }
  }

  lemma TotalsSnoc(k: Scope, ds: seq<Demand>, d: Demand, l: DemandLedger, l': DemandLedger)
    requires TotalsPosted(k, ds, l)
    requires l'.admitted == l.admitted + WeightOf(k, AdmittedAll, d)
    requires l'.contingent == l.contingent + WeightOf(k, ContingentAll, d)
    requires l'.pending == l.pending + WeightOf(k, PendingAll, d) && l'.burst == l.burst + WeightOf(k, BurstAll, d)
    requires l'.ineligible == Saturated(l.ineligible + WeightOf(k, IneligibleAll, d))
    ensures TotalsPosted(k, ds + [d], l')
  {
    hide DemandTotal, WeightOf;
    TotalSnoc(k, AdmittedAll, ds, d);
    TotalSnoc(k, ContingentAll, ds, d);
    TotalSnoc(k, PendingAll, ds, d);
    TotalSnoc(k, BurstAll, ds, d);
    TotalSnoc(k, IneligibleAll, ds, d);
  }

  /** No part of a sum exceeds it. */
  lemma PartsWithin(k: Scope, ds: seq<Demand>, r: u64, c: u64)
    ensures DemandTotal(k, ContingentOn(r), ds) <= DemandTotal(k, ContingentAll, ds)
    ensures DemandTotal(k, PendingOn(r), ds) <= DemandTotal(k, PendingAll, ds)
    ensures DemandTotal(k, ContingentOf(c), ds) <= DemandTotal(k, ContingentAll, ds)
    ensures DemandTotal(k, BurstAll, ds) <= DemandTotal(k, ContingentAll, ds)
    ensures DemandTotal(k, AdmittedFor(r, c), ds) <= DemandTotal(k, AdmittedAll, ds)
  {
    SumByMono(DemandWeight(k, ContingentOn(r)), DemandWeight(k, ContingentAll), ds, ds);
    SumByMono(DemandWeight(k, PendingOn(r)), DemandWeight(k, PendingAll), ds, ds);
    SumByMono(DemandWeight(k, ContingentOf(c)), DemandWeight(k, ContingentAll), ds, ds);
    SumByMono(DemandWeight(k, BurstAll), DemandWeight(k, ContingentAll), ds, ds);
    SumByMono(DemandWeight(k, AdmittedFor(r, c)), DemandWeight(k, AdmittedAll), ds, ds);
  }

  const OVERFLOW := Some(Verdict(Unknown, ADMISSION_SUM_OVERFLOW))

  /** A guaranteed admission: the domain total, then the cell of its resource and class. */
  method PostGuaranteed(k: Scope, ghost before: seq<Demand>, d: Demand, l: DemandLedger) returns (fault: Fault, l': DemandLedger)
    requires TotalsPosted(k, before, l) && TablesPosted(k, before, l)
    requires d.resource in k.members && d.kind.Guaranteed?
    ensures fault == if DemandOverflows(k, before, d) then OVERFLOW else None
    ensures fault.None? ==> TotalsPosted(k, before + [d], l') && TablesPosted(k, before + [d], l')
  {
    hide DemandTotal, HasAdmission, HasContingent, Eligible;
    var total := AddChecked(l.admitted, d.committed);
    if total.None? {
      return OVERFLOW, l;
    }
    PartsWithin(k, before, d.resource, d.serviceClass);
    var cell := Cell(d.resource, d.serviceClass);
    var part := AddChecked(At(l.admittedFor, cell), d.committed);
    if part.None? {
      return OVERFLOW, l;
    }
    l' := l.(seen := l.seen + {d.admission}, admitted := total.value, admittedFor := l.admittedFor[cell := part.value]);
    TotalsSnoc(k, before, d, l, l');
    TablesSnoc(k, before, d, l, l');
    fault := None;
  }

  /** Elastic demand of a class that may not oversubscribe is only remembered. */
  method PostIneligible(k: Scope, ghost before: seq<Demand>, d: Demand, l: DemandLedger) returns (l': DemandLedger)
    requires TotalsPosted(k, before, l) && TablesPosted(k, before, l)
    requires d.resource in k.members && Elastic(d) && !Eligible(k, d.serviceClass)
    ensures !DemandOverflows(k, before, d)
    ensures TotalsPosted(k, before + [d], l') && TablesPosted(k, before + [d], l')
  {
    hide DemandTotal, HasAdmission, HasContingent, Eligible;
    l' := l.(seen := l.seen + {d.admission}, ineligible := AddSat(l.ineligible, AddSat(d.committed, d.pending)));
    TotalsSnoc(k, before, d, l, l');
    TablesSnoc(k, before, d, l, l');
  }

  /** Elastic demand that counts: six sums, of which only the domain totals can overflow first. */
  method PostElastic(k: Scope, ghost before: seq<Demand>, d: Demand, l: DemandLedger) returns (fault: Fault, l': DemandLedger)
    requires TotalsPosted(k, before, l) && TablesPosted(k, before, l) && Counted(k, d)
    ensures fault == if DemandOverflows(k, before, d) then OVERFLOW else None
    ensures fault.None? ==> TotalsPosted(k, before + [d], l') && TablesPosted(k, before + [d], l')
  {
    hide DemandTotal, HasAdmission, HasContingent, Eligible;
    PartsWithin(k, before, d.resource, d.serviceClass);
    var on := AddChecked(At(l.on, d.resource), d.committed);
    var total := AddChecked(l.contingent, d.committed);
    var pendingOn := AddChecked(At(l.pendingOn, d.resource), d.pending);
    var pending := AddChecked(l.pending, d.pending);
    var burst := if d.kind.Burst? then AddChecked(l.burst, d.committed) else Some(l.burst);
    var byClass := AddChecked(At(l.byClass, d.serviceClass), d.committed);
    if on.None? || total.None? || pendingOn.None? || pending.None? || burst.None? || byClass.None? {
      return OVERFLOW, l;
    }
    l' := l.(seen := l.seen + {d.admission}, on := l.on[d.resource := on.value], contingent := total.value,
             pendingOn := l.pendingOn[d.resource := pendingOn.value], pending := pending.value, burst := burst.value,
             byClass := l.byClass[d.serviceClass := byClass.value]);
    ElasticAdds(k, d, l, l', on.value, pendingOn.value, byClass.value);
    hide Adds;
    TotalsSnoc(k, before, d, l, l');
    TablesSnoc(k, before, d, l, l');
    fault := None;
  }

  lemma ElasticAdds(k: Scope, d: Demand, l: DemandLedger, l': DemandLedger, on: u64, pendingOn: u64, byClass: u64)
    requires Counted(k, d) && l'.seen == l.seen + {d.admission} && l'.admittedFor == l.admittedFor
    requires on == At(l.on, d.resource) + d.committed && l'.on == l.on[d.resource := on]
    requires pendingOn == At(l.pendingOn, d.resource) + d.pending && l'.pendingOn == l.pendingOn[d.resource := pendingOn]
    requires byClass == At(l.byClass, d.serviceClass) + d.committed && l'.byClass == l.byClass[d.serviceClass := byClass]
    ensures Adds(k, d, l, l')
  {
    hide Eligible;
  }

  method PostOutside(k: Scope, ghost before: seq<Demand>, d: Demand, l: DemandLedger) returns (l': DemandLedger)
    requires TotalsPosted(k, before, l) && TablesPosted(k, before, l) && d.resource !in k.members
    ensures TotalsPosted(k, before + [d], l') && TablesPosted(k, before + [d], l')
  {
    hide DemandTotal, HasAdmission, HasContingent, Eligible;
    l' := l.(seen := l.seen + {d.admission});
    TotalsSnoc(k, before, d, l, l');
    TablesSnoc(k, before, d, l, l');
  }

  method PostDemand(k: Scope, ghost before: seq<Demand>, d: Demand, l: DemandLedger) returns (fault: Fault, l': DemandLedger)
    requires TotalsPosted(k, before, l) && TablesPosted(k, before, l)
    ensures fault == DemandFault(k, before, d)
    ensures fault.None? ==> TotalsPosted(k, before + [d], l') && TablesPosted(k, before + [d], l')
  {
    Repeats(k, before, d, l);
    hide TotalsPosted, TablesPosted, DemandOverflows, HasAdmission;
    l' := l;
    if d.admission in l.seen {
      return Some(Verdict(ConflictingInput, ADMISSION_DUPLICATE)), l;
    }
    if d.resource !in k.members {
      l' := PostOutside(k, before, d, l);
      return None, l';
    }
    if d.pool != k.pool {
      return Some(Verdict(ConflictingInput, RESOURCE_POOL_MISMATCH)), l;
    }
    var class_ := FindClass(k.classes, d.serviceClass);
    if class_.None? {
      return Some(Verdict(ConflictingInput, ADMISSION_SERVICE_CLASS_UNKNOWN)), l;
    }
    match d.kind
    case KindUnknown =>
      fault := Some(Verdict(ConflictingInput, ADMISSION_KIND_CONFLICT));
    case Guaranteed =>
      fault, l' := PostGuaranteed(k, before, d, l);
    case _ =>
      if class_.value.eligible {
        fault, l' := PostElastic(k, before, d, l);
      } else {
        l' := PostIneligible(k, before, d, l);
        fault := None;
      }
  }

  lemma Repeats(k: Scope, before: seq<Demand>, d: Demand, l: DemandLedger)
    requires TablesPosted(k, before, l)
    ensures d.admission in l.seen <==> HasAdmission(before, d.admission)
  {
  }

  lemma {:induction false} DemandFaultStays(k: Scope, ds: seq<Demand>, n: nat)
    requires n <= |ds|
    ensures FirstDemandFault(k, ds[..n]).Some? ==> FirstDemandFault(k, ds) == FirstDemandFault(k, ds[..n])
    decreases |ds| - n
  {
    hide DemandFault;
    if n == |ds| {
      assert ds[..n] == ds;
    } else {
      assert ds[..n + 1][..n] == ds[..n];
      DemandFaultStays(k, ds, n + 1);
    }
  }

  const EMPTY_LEDGER := DemandLedger({}, 0, 0, 0, 0, 0, map[], map[], map[], map[])

  lemma NothingYet(k: Scope)
    ensures TotalsPosted(k, [], EMPTY_LEDGER) && TablesPosted(k, [], EMPTY_LEDGER)
  {
  }

  method ScanDemand(k: Scope, ds: seq<Demand>) returns (fault: Fault, l: DemandLedger)
    ensures fault == FirstDemandFault(k, ds)
    ensures fault.None? ==> TotalsPosted(k, ds, l) && TablesPosted(k, ds, l)
  {
    hide DemandFault, TotalsPosted, TablesPosted;
    l := EMPTY_LEDGER;
    NothingYet(k);
    for n := 0 to |ds|
      invariant FirstDemandFault(k, ds[..n]).None? && TotalsPosted(k, ds[..n], l) && TablesPosted(k, ds[..n], l)
    {
      fault, l := PostDemand(k, ds[..n], ds[n], l);
      assert ds[..n + 1][..n] == ds[..n] && ds[..n + 1] == ds[..n] + [ds[n]];
      DemandFaultStays(k, ds, n + 1);
      if fault.Some? {
        return;
      }
    }
    assert ds[..|ds|] == ds;
    fault := None;
  }

  // ------------------------------------------------------ backed admissions

  predicate CellUnbacked(admitted: map<Cell, u64>, backed: map<Cell, u64>, c: Cell) {
    At(admitted, c) > At(backed, c)
  }

  /** How much guaranteed-class admission no reservation backs, summed over the cells in no particular
      order; positive exactly when some admission is unbacked. */
  method UnmappedGuaranteed(k: Scope, ghost gs: seq<Guarantee>, ghost ds: seq<Demand>, g: GuaranteeLedger, l: DemandLedger)
    returns (amount: u64)
    requires Posted(k, gs, g) && TablesPosted(k, ds, l)
    ensures amount > 0 <==> Unbacked(k, gs, ds)
  {
    UnbackedCells(k, gs, ds, g, l);
    hide Posted, TablesPosted, Unbacked;
    amount := 0;
    var cells := l.admittedFor.Keys;
    while cells != {}
      invariant cells <= l.admittedFor.Keys
      invariant amount > 0 <==> exists c :: c in l.admittedFor && c !in cells && CellUnbacked(l.admittedFor, g.classes, c)
      decreases |cells|
    {
      var c :| c in cells;
      cells := cells - {c};
      if CellUnbacked(l.admittedFor, g.classes, c) {
        amount := AddSat(amount, At(l.admittedFor, c) - At(g.classes, c));
      }
    }
  }

  lemma UnbackedCells(k: Scope, gs: seq<Guarantee>, ds: seq<Demand>, g: GuaranteeLedger, l: DemandLedger)
    requires Posted(k, gs, g) && TablesPosted(k, ds, l)
    ensures Unbacked(k, gs, ds) <==> exists c :: c in l.admittedFor && CellUnbacked(l.admittedFor, g.classes, c)
  {
    if Unbacked(k, gs, ds) {
      var i :| 0 <= i < |ds|
        && DemandTotal(k, AdmittedFor(ds[i].resource, ds[i].serviceClass), ds)
           > GuaranteeTotal(k, GuaranteedFor(ds[i].resource, ds[i].serviceClass), gs);
      assert CellUnbacked(l.admittedFor, g.classes, Cell(ds[i].resource, ds[i].serviceClass));
    }
    if c :| c in l.admittedFor && CellUnbacked(l.admittedFor, g.classes, c) {
      CellHasRecord(k, ds, c.resource, c.class_);
    }
  }

  /** Only a record puts anything in a cell. */
  lemma {:induction false} CellHasRecord(k: Scope, ds: seq<Demand>, r: u64, c: u64)
    ensures DemandTotal(k, AdmittedFor(r, c), ds) > 0
            ==> exists i :: 0 <= i < |ds| && ds[i].resource == r && ds[i].serviceClass == c
  {
    if ds != [] {
      var init, d := ds[..|ds| - 1], ds[|ds| - 1];
      CellHasRecord(k, init, r, c);
      if DemandTotal(k, AdmittedFor(r, c), init) > 0 {
        var i :| 0 <= i < |init| && init[i].resource == r && init[i].serviceClass == c;
        assert ds[i] == init[i];
      }
    }
  }

  // ----------------------------------------------------------------- shares

  /** The classes with contingent demand, in policy order. */
  method CheckShares(k: Scope, ghost ds: seq<Demand>, l: DemandLedger, contingentCeiling: u64) returns (fault: Fault)
    requires TablesPosted(k, ds, l)
    ensures fault == ShareFault(k, ds, contingentCeiling, k.classes)
  {
    hide HasContingent, DemandTotal;
    for n := 0 to |k.classes|
      invariant ShareFault(k, ds, contingentCeiling, k.classes[..n]).None?
    {
      var c := k.classes[n];
      assert k.classes[..n + 1][..n] == k.classes[..n];
      ShareStays(k, ds, contingentCeiling, k.classes, n + 1);
      if c.hasShareCap && c.id in l.byClass {
        var allowed := MulDivFloor(contingentCeiling, c.shareCapPpm, PPM_SCALE);
        if allowed.None? {
          return Some(Verdict(Unknown, ARITHMETIC_OVERFLOW));
        }
        if l.byClass[c.id] > allowed.value {
          return Some(Verdict(ReductionRequired, SERVICE_CLASS_SHARE_EXCEEDED));
        }
      }
    }
    assert k.classes[..|k.classes|] == k.classes;
    fault := None;
  }

  lemma {:induction false} ShareStays(k: Scope, ds: seq<Demand>, ceiling: u64, cs: seq<ServiceClass>, n: nat)
    requires n <= |cs|
    ensures ShareFault(k, ds, ceiling, cs[..n]).Some? ==>
              ShareFault(k, ds, ceiling, cs) == ShareFault(k, ds, ceiling, cs[..n])
    decreases |cs| - n
  {
    hide ClassShareFault;
    if n == |cs| {
      assert cs[..n] == cs;
    } else {
      assert cs[..n + 1][..n] == cs[..n];
      ShareStays(k, ds, ceiling, cs, n + 1);
    }
  }
}
