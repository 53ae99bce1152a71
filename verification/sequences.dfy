/** Weighted sums over records. */
module Sums {

  function SumBy<T>(w: T -> nat, s: seq<T>): nat {
    if s == [] then 0 else SumBy(w, s[..|s| - 1]) + w(s[|s| - 1])
  }

  lemma SumBySnoc<T>(w: T -> nat, s: seq<T>, x: T)
    ensures SumBy(w, s + [x]) == SumBy(w, s) + w(x)
  {
    assert (s + [x])[..|s|] == s;
  }

  lemma SumByOne<T>(w: T -> nat, x: T)
    ensures SumBy(w, [x]) == w(x)
  {
    assert [x][..0] == [];
  }

  lemma {:induction false} SumByConcat<T>(w: T -> nat, s: seq<T>, t: seq<T>)
    ensures SumBy(w, s + t) == SumBy(w, s) + SumBy(w, t)
    decreases |t|
  {
    if t == [] {
      assert s + t == s;
    } else {
      assert (s + t)[..|s + t| - 1] == s + t[..|t| - 1];
      SumByConcat(w, s, t[..|t| - 1]);
    }
  }

  lemma {:induction false} SumByMono<T>(v: T -> nat, w: T -> nat, s: seq<T>, t: seq<T>)
    requires |s| == |t|
    requires forall i :: 0 <= i < |s| ==> v(s[i]) <= w(t[i])
    ensures SumBy(v, s) <= SumBy(w, t)
  {
    if s != [] {
      SumByMono(v, w, s[..|s| - 1], t[..|t| - 1]);
    }
  }

  lemma SumByPrefix<T>(w: T -> nat, s: seq<T>, n: nat)
    requires n <= |s|
    ensures SumBy(w, s[..n]) <= SumBy(w, s)
  {
    assert s == s[..n] + s[n..];
    SumByConcat(w, s[..n], s[n..]);
  }

  lemma SumByMember<T>(w: T -> nat, s: seq<T>, i: nat)
    requires i < |s|
    ensures w(s[i]) <= SumBy(w, s)
  {
    SumByPrefix(w, s, i + 1);
    assert s[..i + 1][..i] == s[..i];
  }

  lemma {:induction false} SumByAdd<T>(u: T -> nat, v: T -> nat, w: T -> nat, s: seq<T>)
    requires forall i :: 0 <= i < |s| ==> w(s[i]) == u(s[i]) + v(s[i])
    ensures SumBy(w, s) == SumBy(u, s) + SumBy(v, s)
  {
    if s != [] {
      SumByAdd(u, v, w, s[..|s| - 1]);
    }
  }

  /** A sum does not depend on the order of its terms. */
  lemma {:induction false} SumByPermutation<T>(w: T -> nat, s: seq<T>, t: seq<T>)
    requires multiset(s) == multiset(t)
    ensures SumBy(w, s) == SumBy(w, t)
    decreases |s|
  {
    if s == [] {
      assert |multiset(t)| == 0;
    } else {
      var x, s' := s[|s| - 1], s[..|s| - 1];
      assert s == s' + [x];
      var a, b := Extract(x, t);
      assert multiset(s') == multiset(s) - multiset{x};
      SumByPermutation(w, s', a + b);
      SumByConcat(w, a, b);
      SumByConcat(w, a + [x], b);
      SumBySnoc(w, a, x);
    }
  }

  lemma Extract<T>(x: T, t: seq<T>) returns (a: seq<T>, b: seq<T>)
    requires x in multiset(t)
    ensures t == a + [x] + b && multiset(a + b) == multiset(t) - multiset{x}
  {
    var i :| 0 <= i < |t| && t[i] == x;
    a, b := t[..i], t[i + 1..];
    assert t == a + [x] + b;
  }

  // ---------------------------------------------- splitting a sum by a key

  function PartAt<T(!new), K>(part: K -> T -> nat, x: T): K -> nat { (k: K) => part(k)(x) }

  function PartSum<T(!new), K>(part: K -> T -> nat, s: seq<T>): K -> nat { (k: K) => SumBy(part(k), s) }

  /** If every record's weight is split over the keys, so is the total. */
  lemma {:induction false} SumByKeys<T(!new), K(!new)>(part: K -> T -> nat, whole: T -> nat, keys: seq<K>, s: seq<T>)
    requires forall i :: 0 <= i < |s| ==> SumBy(PartAt(part, s[i]), keys) == whole(s[i])
    ensures SumBy(PartSum(part, s), keys) == SumBy(whole, s)
  {
    if s == [] {
      SumByZero(PartSum(part, s), keys);
    } else {
      var x, s' := s[|s| - 1], s[..|s| - 1];
      SumByKeys(part, whole, keys, s');
      SumByAdd(PartSum(part, s'), PartAt(part, x), PartSum(part, s), keys);
    }
  }

  lemma {:induction false} SumByZero<T>(w: T -> nat, s: seq<T>)
    requires forall i :: 0 <= i < |s| ==> w(s[i]) == 0
    ensures SumBy(w, s) == 0
  {
    if s != [] {
      SumByZero(w, s[..|s| - 1]);
    }
  }

  /** A weight concentrated on one key of a list without repetitions. */
  lemma {:induction false} SumByOnly<T>(w: T -> nat, s: seq<T>, i: nat)
    requires i < |s| && forall j :: 0 <= j < |s| && j != i ==> w(s[j]) == 0
    ensures SumBy(w, s) == w(s[i])
  {
    if i == |s| - 1 {
      SumByZero(w, s[..i]);
    } else {
      SumByOnly(w, s[..|s| - 1], i);
    }
  }
}

/** Sorting by an integer key. */
module Sorting {

  predicate SortedBy<T>(key: T -> int, s: seq<T>) {
    forall i, j :: 0 <= i < j < |s| ==> key(s[i]) <= key(s[j])
  }

  predicate DistinctBy<T>(key: T -> int, s: seq<T>) {
    forall i, j :: 0 <= i < j < |s| ==> key(s[i]) != key(s[j])
  }

  function Insert<T>(key: T -> int, x: T, s: seq<T>): (r: seq<T>)
    ensures multiset(r) == multiset(s) + multiset{x}
    ensures |r| == |s| + 1
  {
    if s == [] then [x]
    else if key(x) < key(s[|s| - 1]) then
      assert s == s[..|s| - 1] + [s[|s| - 1]];
      Insert(key, x, s[..|s| - 1]) + [s[|s| - 1]]
    else s + [x]
  }

  /** A stable sort; the program calls the library sort and never relies on the order of equal keys. */
  function Sort<T>(key: T -> int, s: seq<T>): (r: seq<T>)
    ensures multiset(r) == multiset(s) && |r| == |s|
  {
    if s == [] then []
    else
      assert s == s[..|s| - 1] + [s[|s| - 1]];
      Insert(key, s[|s| - 1], Sort(key, s[..|s| - 1]))
  }

  lemma {:induction false} InsertSorted<T>(key: T -> int, x: T, s: seq<T>)
    requires SortedBy(key, s)
    ensures SortedBy(key, Insert(key, x, s))
  {
    if s != [] && key(x) < key(s[|s| - 1]) {
      var last, init := s[|s| - 1], s[..|s| - 1];
      InsertSorted(key, x, init);
      var r := Insert(key, x, init);
      forall i | 0 <= i < |r| ensures key(r[i]) <= key(last) {
        assert r[i] in multiset(r);
        assert r[i] == x || r[i] in multiset(init);
      }
    }
  }

  lemma {:induction false} SortSorted<T>(key: T -> int, s: seq<T>)
    ensures SortedBy(key, Sort(key, s))
  {
    if s != [] {
      SortSorted(key, s[..|s| - 1]);
      InsertSorted(key, s[|s| - 1], Sort(key, s[..|s| - 1]));
    }
  }

  lemma SameMembers<T>(s: seq<T>, t: seq<T>)
    requires multiset(s) == multiset(t)
    ensures |s| == |t|
    ensures forall x :: x in s <==> x in t
  {
    assert |s| == |multiset(s)| == |multiset(t)| == |t|;
    forall x ensures x in s <==> x in t {
      assert x in s <==> x in multiset(s);
      assert x in t <==> x in multiset(t);
    }
  }

  lemma DropSameLast<T>(s: seq<T>, t: seq<T>)
    requires multiset(s) == multiset(t) && s != [] && t != [] && s[|s| - 1] == t[|t| - 1]
    ensures multiset(s[..|s| - 1]) == multiset(t[..|t| - 1])
  {
    var x := s[|s| - 1];
    assert s == s[..|s| - 1] + [x] && t == t[..|t| - 1] + [x];
    assert multiset(s[..|s| - 1]) == multiset(s) - multiset{x};
    assert multiset(t[..|t| - 1]) == multiset(t) - multiset{x};
  }

  lemma SameLast<T>(key: T -> int, s: seq<T>, t: seq<T>)
    requires SortedBy(key, s) && SortedBy(key, t) && DistinctBy(key, s)
    requires s != [] && |s| == |t| && forall x :: x in s <==> x in t
    ensures s[|s| - 1] == t[|t| - 1]
  {
    var x, y := s[|s| - 1], t[|t| - 1];
    assert y in t && x in s;
    var i :| 0 <= i < |s| && s[i] == y;
    var j :| 0 <= j < |t| && t[j] == x;
    assert key(s[i]) <= key(x) && key(t[j]) <= key(y);
  }

  /** When a key occurs once only, the sorted arrangement of a collection is unique. */
  lemma {:induction false} SortedUnique<T>(key: T -> int, s: seq<T>, t: seq<T>)
    requires SortedBy(key, s) && SortedBy(key, t) && multiset(s) == multiset(t)
    requires DistinctBy(key, s)
    ensures s == t
    decreases |s|
  {
    SameMembers(s, t);
    if s != [] {
      SameLast(key, s, t);
      DropSameLast(s, t);
      SortedUnique(key, s[..|s| - 1], t[..|t| - 1]);
      assert s == s[..|s| - 1] + [s[|s| - 1]] && t == t[..|t| - 1] + [t[|t| - 1]];
    }
  }

  lemma {:induction false} DistinctCount<T>(key: T -> int, s: seq<T>, i: nat)
    requires i < |s| && DistinctBy(key, s)
    ensures multiset(s)[s[i]] == 1
  {
    if i < |s| - 1 {
      DistinctCount(key, s[..|s| - 1], i);
    } else {
      assert s[i] !in s[..|s| - 1];
    }
    assert s == s[..|s| - 1] + [s[|s| - 1]];
  }

  lemma CountedTwice<T>(t: seq<T>, i: nat, j: nat)
    requires i < j < |t| && t[i] == t[j]
    ensures multiset(t)[t[i]] >= 2
  {
    assert t == t[..j] + [t[j]] + t[j + 1..];
    assert t[..j][i] == t[i];
  }

  lemma DistinctPermutation<T>(key: T -> int, s: seq<T>, t: seq<T>)
    requires multiset(s) == multiset(t) && DistinctBy(key, s)
    ensures DistinctBy(key, t)
  {
    forall i, j | 0 <= i < j < |t| ensures key(t[i]) != key(t[j]) {
      assert t[i] in multiset(s) && t[j] in multiset(s);
      var a :| 0 <= a < |s| && s[a] == t[i];
      var b :| 0 <= b < |s| && s[b] == t[j];
      if t[i] == t[j] {
        DistinctCount(key, s, a);
        CountedTwice(t, i, j);
        assert false;
      }
    }
  }

  /** Rearranging the input does not change the sorted result. */
  lemma SortPermutation<T>(key: T -> int, s: seq<T>, t: seq<T>)
    requires multiset(s) == multiset(t) && DistinctBy(key, s)
    ensures Sort(key, s) == Sort(key, t)
  {
    SortSorted(key, s);
    SortSorted(key, t);
    DistinctPermutation(key, s, Sort(key, s));
    SortedUnique(key, Sort(key, s), Sort(key, t));
  }
}

/** Writing items one after the other. */
module Flattening {

  function Flat<T, B>(f: T -> seq<B>, xs: seq<T>): seq<B> {
    if xs == [] then [] else Flat(f, xs[..|xs| - 1]) + f(xs[|xs| - 1])
  }

  lemma FlatSnoc<T, B>(f: T -> seq<B>, xs: seq<T>, x: T)
    ensures Flat(f, xs + [x]) == Flat(f, xs) + f(x)
  {
    assert (xs + [x])[..|xs|] == xs;
  }

  lemma {:induction false} FlatConcat<T, B>(f: T -> seq<B>, a: seq<T>, b: seq<T>)
    ensures Flat(f, a + b) == Flat(f, a) + Flat(f, b)
    decreases |b|
  {
    if b == [] {
      assert a + b == a;
    } else {
      assert (a + b)[..|a + b| - 1] == a + b[..|b| - 1];
      FlatConcat(f, a, b[..|b| - 1]);
    }
  }

  lemma FlatAround<T, B>(f: T -> seq<B>, a: seq<T>, x: T, b: seq<T>)
    ensures Flat(f, a + [x]) == Flat(f, a) + f(x)
    ensures Flat(f, a + [x] + b) == Flat(f, a) + f(x) + Flat(f, b)
  {
    FlatSnoc(f, a, x);
    FlatConcat(f, a + [x], b);
  }

  lemma Around<T>(xs: seq<T>, n: nat)
    requires n < |xs|
    ensures xs == xs[..n] + [xs[n]] + xs[n + 1..] && xs[..n + 1] == xs[..n] + [xs[n]]
  {
  }

  /** What was written splits at any item. */
  lemma FlatSplit<T, B>(f: T -> seq<B>, xs: seq<T>, n: nat)
    requires n < |xs|
    ensures Flat(f, xs[..n + 1]) == Flat(f, xs[..n]) + f(xs[n])
    ensures Flat(f, xs) == Flat(f, xs[..n]) + f(xs[n]) + Flat(f, xs[n + 1..])
  {
    hide Flat;
    Around(xs, n);
    FlatAround(f, xs[..n], xs[n], xs[n + 1..]);
  }

  lemma FlatPrefix<T, B>(f: T -> seq<B>, xs: seq<T>, m: nat, n: nat)
    requires m <= n <= |xs|
    ensures Flat(f, xs[..m]) <= Flat(f, xs[..n])
  {
    assert xs[..n] == xs[..m] + xs[m..n];
    FlatConcat(f, xs[..m], xs[m..n]);
  }

  // ------------------------------------------------- cutting what was written

  /** How many items end at or before `cut`. */
  function Whole<T, B>(f: T -> seq<B>, xs: seq<T>, cut: nat): (n: nat)
    ensures n <= |xs|
  {
    if xs == [] then 0
    else if |Flat(f, xs)| <= cut then |xs|
    else Whole(f, xs[..|xs| - 1], cut)
  }

  lemma {:induction false} WholeFits<T, B>(f: T -> seq<B>, xs: seq<T>, cut: nat)
    ensures var n := Whole(f, xs, cut);
            && |Flat(f, xs[..n])| <= cut
            && (n < |xs| ==> cut < |Flat(f, xs[..n + 1])|)
  {
    if xs != [] {
      if |Flat(f, xs)| <= cut {
        assert xs[..|xs|] == xs;
      } else {
        var init := xs[..|xs| - 1];
        var n := Whole(f, init, cut);
        WholeFits(f, init, cut);
        assert init[..n] == xs[..n];
        if n < |init| {
          assert init[..n + 1] == xs[..n + 1];
        } else {
          assert xs[..n + 1] == xs;
        }
      }
    }
  }

  /** An item that ends before the cut is there whole. */
  lemma ItemInside<T, B>(f: T -> seq<B>, xs: seq<T>, cut: nat, n: nat, w: nat)
    requires n < w <= |xs| && |Flat(f, xs[..w])| <= cut <= |Flat(f, xs)|
    ensures var bytes, at, next := Flat(f, xs)[..cut], |Flat(f, xs[..n])|, |Flat(f, xs[..n + 1])|;
            && next == at + |f(xs[n])| <= cut && bytes[at..] == f(xs[n]) + bytes[next..]
  {
    FlatSplit(f, xs, n);
    FlatPrefix(f, xs, n + 1, w);
    var at, next := |Flat(f, xs[..n])|, |Flat(f, xs[..n + 1])|;
    assert Flat(f, xs)[at..next] == f(xs[n]);
  }

  /** The item the cut goes through is there up to the cut. */
  lemma CutInside<T, B>(f: T -> seq<B>, xs: seq<T>, cut: nat, n: nat)
    requires n < |xs| && |Flat(f, xs[..n])| <= cut < |Flat(f, xs[..n + 1])|
    ensures var at := |Flat(f, xs[..n])|;
            && cut - at < |f(xs[n])| && cut <= |Flat(f, xs)|
            && Flat(f, xs)[..cut][at..] == f(xs[n])[..cut - at]
  {
    FlatSplit(f, xs, n);
  }

  lemma NothingCut<T, B>(f: T -> seq<B>, xs: seq<T>, cut: nat)
    requires cut <= |Flat(f, xs)|
    ensures Whole(f, xs, cut) == |xs| ==> cut == |Flat(f, xs)|
  {
    WholeFits(f, xs, cut);
    assert xs[..|xs|] == xs;
  }
}
