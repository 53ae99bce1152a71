/** The sorted policy index (PolicyIndex in src/policy.cpp) against linear search. */
module PolicyIndexing {
  import opened Checked
  import opened Model
  import opened Sorting
  import opened PolicyRules

  /** The first position whose key is not below `id`. */
  function LowerBound<T>(key: T -> int, s: seq<T>, id: int): (n: nat)
    ensures n <= |s|
  {
    if s == [] || key(s[0]) >= id then 0 else 1 + LowerBound(key, s[1..], id)
  }

  lemma {:induction false} LowerBoundIs<T>(key: T -> int, s: seq<T>, id: int, n: nat)
    requires SortedBy(key, s) && n <= |s|
    requires forall i :: 0 <= i < n ==> key(s[i]) < id
    requires n < |s| ==> key(s[n]) >= id
    ensures LowerBound(key, s, id) == n
  {
    if n > 0 {
      assert forall i :: 0 <= i < n - 1 ==> s[1..][i] == s[i + 1];
      LowerBoundIs(key, s[1..], id, n - 1);
    }
  }

  /** Binary search for the lower bound. */
  method FindLowerBound<T>(key: T -> int, s: seq<T>, id: int) returns (n: nat)
    requires SortedBy(key, s)
    ensures n == LowerBound(key, s, id)
    ensures forall i :: 0 <= i < n ==> key(s[i]) < id
    ensures forall i :: n <= i < |s| ==> key(s[i]) >= id
  {
    var lo, hi := 0, |s|;
    while lo < hi
      invariant 0 <= lo <= hi <= |s|
      invariant forall i :: 0 <= i < lo ==> key(s[i]) < id
      invariant forall i :: hi <= i < |s| ==> key(s[i]) >= id
    {
      var mid := (lo + hi) / 2;
      if key(s[mid]) < id {
        lo := mid + 1;
      } else {
        hi := mid;
      }
    }
    LowerBoundIs(key, s, id, lo);
    n := lo;
  }

  class PolicyIndex {
    var domains: seq<DomainConfig>
    var classes: seq<ServiceClass>

    /** The index belongs to `p`. */
    ghost predicate Indexes(p: Policy)
      reads this
    {
      && multiset(domains) == multiset(p.domains) && SortedBy(DomainKey(), domains)
      && multiset(classes) == multiset(p.serviceClasses) && SortedBy(ClassKey(), classes)
    }

    constructor ()
      ensures domains == [] && classes == []
    {
      domains, classes := [], [];
    }

    method Rebuild(p: Policy)
      modifies this
      ensures Indexes(p)
    {
      domains, classes := Sort(DomainKey(), p.domains), Sort(ClassKey(), p.serviceClasses);
      SortSorted(DomainKey(), p.domains);
      SortSorted(ClassKey(), p.serviceClasses);
    }

    /** Looking a domain up in the index finds exactly what scanning the policy finds. */
    method Domain(ghost p: Policy, id: u64) returns (found: Option<DomainConfig>)
      requires Indexes(p) && DistinctBy(DomainKey(), p.domains)
      ensures found == FindDomain(p.domains, id)
    {
      var at := FindLowerBound(DomainKey(), domains, id);
      found := if at == |domains| || domains[at].id != id then None else Some(domains[at]);
      SameDomain(p.domains, domains, id, at);
    }

    method ServiceClass(ghost p: Policy, id: u64) returns (found: Option<ServiceClass>)
      requires Indexes(p) && DistinctBy(ClassKey(), p.serviceClasses)
      ensures found == FindClass(p.serviceClasses, id)
    {
      var at := FindLowerBound(ClassKey(), classes, id);
      found := if at == |classes| || classes[at].id != id then None else Some(classes[at]);
      SameClass(p.serviceClasses, classes, id, at);
    }
  }

  /** The element at the lower bound is the only one that can have the id. */
  lemma OnlyAtLowerBound<T>(key: T -> int, plain: seq<T>, sorted: seq<T>, id: int, at: nat, x: T)
    requires multiset(sorted) == multiset(plain) && SortedBy(key, sorted) && DistinctBy(key, plain)
    requires at <= |sorted| && (forall i :: 0 <= i < at ==> key(sorted[i]) < id)
    requires (at < |sorted| ==> key(sorted[at]) >= id) && x in plain && key(x) == id
    ensures at < |sorted| && sorted[at] == x
  {
    SameMembers(sorted, plain);
    DistinctPermutation(key, plain, sorted);
    assert forall j :: at < j < |sorted| ==> key(sorted[at]) < key(sorted[j]);
    var i :| 0 <= i < |sorted| && sorted[i] == x;
  }

  lemma SameDomain(plain: seq<DomainConfig>, sorted: seq<DomainConfig>, id: u64, at: nat)
    requires multiset(sorted) == multiset(plain) && SortedBy(DomainKey(), sorted) && DistinctBy(DomainKey(), plain)
    requires at <= |sorted|
    requires (forall i :: 0 <= i < at ==> DomainKey()(sorted[i]) < id)
    requires (forall i :: at <= i < |sorted| ==> DomainKey()(sorted[i]) >= id)
    ensures FindDomain(plain, id) == if at == |sorted| || sorted[at].id != id then None else Some(sorted[at])
  {
    SameMembers(sorted, plain);
    match FindDomain(plain, id)
    case Some(d) => OnlyAtLowerBound(DomainKey(), plain, sorted, id, at, d);
    case None =>
      if at < |sorted| {
        assert sorted[at] in plain;
      }
  }

  lemma SameClass(plain: seq<ServiceClass>, sorted: seq<ServiceClass>, id: u64, at: nat)
    requires multiset(sorted) == multiset(plain) && SortedBy(ClassKey(), sorted) && DistinctBy(ClassKey(), plain)
    requires at <= |sorted|
    requires (forall i :: 0 <= i < at ==> ClassKey()(sorted[i]) < id)
    requires (forall i :: at <= i < |sorted| ==> ClassKey()(sorted[i]) >= id)
    ensures FindClass(plain, id) == if at == |sorted| || sorted[at].id != id then None else Some(sorted[at])
  {
    SameMembers(sorted, plain);
    match FindClass(plain, id)
    case Some(c) => OnlyAtLowerBound(ClassKey(), plain, sorted, id, at, c);
    case None =>
      if at < |sorted| {
        assert sorted[at] in plain;
      }
  }
}
