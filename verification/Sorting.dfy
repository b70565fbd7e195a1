/**
 * Go's `sort.Slice` and `sort.SliceStable`, as a function on sequences. The
 * contract is the library's: a sorted permutation, equal elements in input order.
 * When the order is linear the result is the only sorted permutation, so an
 * unstable sort computes it too.
 */
module Sorting {

  /** `leq` is transitive and compares any two values. */
  ghost predicate Preorder<T(!new)>(leq: (T, T) -> bool) {
    && (forall a, b :: leq(a, b) || leq(b, a))
    && (forall a, b, c :: leq(a, b) && leq(b, c) ==> leq(a, c))
  }

  /** `leq` orders the members of `s` with no ties between different values. */
  ghost predicate NoTies<T>(leq: (T, T) -> bool, s: seq<T>) {
    forall i, j | 0 <= i < |s| && 0 <= j < |s| && leq(s[i], s[j]) && leq(s[j], s[i]) :: s[i] == s[j]
  }

  ghost predicate Ordered<T>(leq: (T, T) -> bool, s: seq<T>) {
    forall i, j | 0 <= i < j < |s| :: leq(s[i], s[j])
  }

  function Insert<T>(leq: (T, T) -> bool, x: T, s: seq<T>): (r: seq<T>)
    ensures |r| == |s| + 1
    ensures multiset(r) == multiset{x} + multiset(s)
  {
    if s == [] || leq(x, s[0]) then [x] + s
    else
      assert s == [s[0]] + s[1..];
      [s[0]] + Insert(leq, x, s[1..])
  }

  function Sort<T>(leq: (T, T) -> bool, s: seq<T>): (r: seq<T>)
    ensures |r| == |s|
    ensures multiset(r) == multiset(s)
  {
    if s == [] then []
    else
      assert s == [s[0]] + s[1..];
      Insert(leq, s[0], Sort(leq, s[1..]))
  }

  lemma {:induction false} InsertOrdered<T(!new)>(leq: (T, T) -> bool, x: T, s: seq<T>)
    requires Preorder(leq) && Ordered(leq, s)
    ensures Ordered(leq, Insert(leq, x, s))
  {
    if s != [] && !leq(x, s[0]) {
      InsertOrdered(leq, x, s[1..]);
      var r := Insert(leq, x, s[1..]);
      forall k | 0 <= k < |r| ensures leq(s[0], r[k]) {
        assert r[k] in multiset(r);
        assert r[k] == x || r[k] in multiset(s[1..]);
      }
    }
  }

  lemma {:induction false} SortOrdered<T(!new)>(leq: (T, T) -> bool, s: seq<T>)
    requires Preorder(leq)
    ensures Ordered(leq, Sort(leq, s))
  {
    if s != [] {
      SortOrdered(leq, s[1..]);
      InsertOrdered(leq, s[0], Sort(leq, s[1..]));
    }
  }

  lemma SameMembers<T>(a: seq<T>, b: seq<T>)
    requires multiset(a) == multiset(b)
    ensures forall x :: x in a <==> x in b
  {
    forall x ensures x in a <==> x in b {
      assert x in a <==> x in multiset(a);
      assert x in b <==> x in multiset(b);
    }
  }

  lemma TwiceCounts<T>(s: seq<T>, j: nat, k: nat)
    requires j < k < |s| && s[j] == s[k]
    ensures multiset(s)[s[j]] >= 2
  {
    var rest := s[..k] + s[k + 1..];
    assert s == s[..k] + [s[k]] + s[k + 1..];
    assert multiset(s) == multiset(rest) + multiset{s[k]};
    assert rest[j] == s[j] && rest[j] in multiset(rest);
  }

  lemma TailMultiset<T>(s: seq<T>)
    requires s != []
    ensures multiset(s[1..]) == multiset(s) - multiset{s[0]}
  {
    assert s == [s[0]] + s[1..];
  }

  lemma SameFirst<T(!new)>(leq: (T, T) -> bool, a: seq<T>, b: seq<T>)
    requires Preorder(leq) && Ordered(leq, a) && Ordered(leq, b)
    requires multiset(a) == multiset(b) && NoTies(leq, a) && a != [] && b != []
    ensures a[0] == b[0]
  {
    SameMembers(a, b);
    assert b[0] in a && a[0] in b;
    assert leq(a[0], b[0]) && leq(b[0], a[0]);
  }

  /** A linear order has one sorted permutation. */
  lemma {:induction false} SortedUnique<T(!new)>(leq: (T, T) -> bool, a: seq<T>, b: seq<T>)
    requires Preorder(leq) && Ordered(leq, a) && Ordered(leq, b)
    requires multiset(a) == multiset(b) && NoTies(leq, a)
    ensures a == b
  {
    assert |a| == |multiset(a)| == |multiset(b)| == |b|;
    if a != [] {
      SameFirst(leq, a, b);
      TailMultiset(a);
      TailMultiset(b);
      SortedUnique(leq, a[1..], b[1..]);
      assert a == [a[0]] + a[1..] && b == [b[0]] + b[1..];
    }
  }

  lemma NoTiesSubset<T(!new)>(leq: (T, T) -> bool, a: seq<T>, b: seq<T>)
    requires NoTies(leq, a) && forall x | x in b :: x in a
    ensures NoTies(leq, b)
  {
    forall i, j | 0 <= i < |b| && 0 <= j < |b| && leq(b[i], b[j]) && leq(b[j], b[i]) ensures b[i] == b[j] {
      assert b[i] in a && b[j] in a;
    }
  }

  /** With no ties, sorting forgets the input order. */
  lemma SortForgetsOrder<T(!new)>(leq: (T, T) -> bool, a: seq<T>, b: seq<T>)
    requires Preorder(leq) && NoTies(leq, a) && multiset(a) == multiset(b)
    ensures Sort(leq, a) == Sort(leq, b)
  {
    SortOrdered(leq, a);
    SortOrdered(leq, b);
    SameMembers(a, Sort(leq, a));
    NoTiesSubset(leq, a, Sort(leq, a));
    SortedUnique(leq, Sort(leq, a), Sort(leq, b));
  }

  function Filter<T(!new)>(keep: T -> bool, s: seq<T>): (r: seq<T>)
    ensures |r| <= |s|
    ensures forall x :: x in r <==> x in s && keep(x)
  {
    if s == [] then []
    else if keep(s[0]) then [s[0]] + Filter(keep, s[1..])
    else Filter(keep, s[1..])
  }

  lemma {:induction false} FilterConcat<T(!new)>(keep: T -> bool, a: seq<T>, b: seq<T>)
    ensures Filter(keep, a + b) == Filter(keep, a) + Filter(keep, b)
  {
    if a == [] {
      assert a + b == b;
    } else {
      assert (a + b)[0] == a[0] && (a + b)[1..] == a[1..] + b;
      FilterConcat(keep, a[1..], b);
    }
  }

  lemma FilterOneMore<T(!new)>(keep: T -> bool, s: seq<T>, x: T)
    ensures Filter(keep, s + [x]) == if keep(x) then Filter(keep, s) + [x] else Filter(keep, s)
  {
    FilterConcat(keep, s, [x]);
    assert Filter(keep, s) + [] == Filter(keep, s);
  }

  lemma {:induction false} FilterAll<T(!new)>(keep: T -> bool, s: seq<T>)
    requires forall x | x in s :: keep(x)
    ensures Filter(keep, s) == s
  {
    if s != [] {
      FilterAll(keep, s[1..]);
    }
  }

  lemma {:induction false} FilterNothing<T(!new)>(keep: T -> bool, s: seq<T>)
    requires forall x | x in s :: !keep(x)
    ensures Filter(keep, s) == []
  {
    if s != [] {
      FilterNothing(keep, s[1..]);
    }
  }

  lemma {:induction false} FilterCommutes<T(!new)>(p: T -> bool, q: T -> bool, s: seq<T>)
    ensures Filter(p, Filter(q, s)) == Filter(q, Filter(p, s))
  {
    if s != [] {
      FilterCommutes(p, q, s[1..]);
    }
  }

  /** `p` and `q` split `s` in two. */
  lemma {:induction false} FilterSplits<T(!new)>(p: T -> bool, q: T -> bool, s: seq<T>)
    requires forall x | x in s :: p(x) <==> !q(x)
    ensures |Filter(p, s)| + |Filter(q, s)| == |s|
  {
    if s != [] {
      FilterSplits(p, q, s[1..]);
    }
  }

  lemma {:induction false} FilterMultiplicity<T(!new)>(keep: T -> bool, s: seq<T>, x: T)
    ensures multiset(Filter(keep, s))[x] == if keep(x) then multiset(s)[x] else 0
  {
    if s != [] {
      assert s == [s[0]] + s[1..];
      FilterMultiplicity(keep, s[1..], x);
    }
  }

  /** Filtering commutes with permutation. */
  lemma FilterPermuted<T(!new)>(keep: T -> bool, a: seq<T>, b: seq<T>)
    requires multiset(a) == multiset(b)
    ensures multiset(Filter(keep, a)) == multiset(Filter(keep, b))
  {
    forall x ensures multiset(Filter(keep, a))[x] == multiset(Filter(keep, b))[x] {
      FilterMultiplicity(keep, a, x);
      FilterMultiplicity(keep, b, x);
    }
  }

  lemma {:induction false} FilterOrdered<T(!new)>(leq: (T, T) -> bool, keep: T -> bool, s: seq<T>)
    requires Ordered(leq, s)
    ensures Ordered(leq, Filter(keep, s))
  {
    if s != [] {
      FilterOrdered(leq, keep, s[1..]);
      var r := Filter(keep, s[1..]);
      forall k | 0 <= k < |r| ensures leq(s[0], r[k]) {
        assert r[k] in s[1..];
      }
    }
  }

  // ----- lists without repeated keys -----

  ghost predicate Keyed<T, K>(key: T -> K, s: seq<T>) {
    forall i, j | 0 <= i < j < |s| :: key(s[i]) != key(s[j])
  }

  lemma FilterKeyed<T(!new), K>(key: T -> K, keep: T -> bool, s: seq<T>)
    requires Keyed(key, s)
    ensures Keyed(key, Filter(keep, s))
  {
    FilterOrdered((a: T, b: T) => key(a) != key(b), keep, s);
  }

  lemma {:induction false} KeyedOnce<T, K>(key: T -> K, s: seq<T>, x: T)
    requires Keyed(key, s)
    ensures multiset(s)[x] <= 1
  {
    if s != [] {
      assert s == [s[0]] + s[1..];
      KeyedOnce(key, s[1..], x);
      assert s[0] == x ==> x !in s[1..];
    }
  }

  lemma PermutedKeyed<T(!new), K>(key: T -> K, s: seq<T>, t: seq<T>)
    requires Keyed(key, s) && multiset(s) == multiset(t)
    ensures Keyed(key, t)
  {
    SameMembers(s, t);
    forall i, j | 0 <= i < j < |t| ensures key(t[i]) != key(t[j]) {
      assert t[i] in s && t[j] in s;
      KeyedOnce(key, s, t[i]);
      if t[i] == t[j] {
        TwiceCounts(t, i, j);
        assert false;
      }
    }
  }

  /** Sorting then filtering is filtering then sorting, when the filtered part has no ties. */
  lemma FilterSort<T(!new)>(leq: (T, T) -> bool, keep: T -> bool, s: seq<T>)
    requires Preorder(leq) && NoTies(leq, s)
    ensures Filter(keep, Sort(leq, s)) == Sort(leq, Filter(keep, s))
  {
    var sorted := Sort(leq, s);
    SortOrdered(leq, s);
    FilterOrdered(leq, keep, sorted);
    SortOrdered(leq, Filter(keep, s));
    FilterPermuted(keep, sorted, s);
    SameMembers(s, sorted);
    NoTiesSubset(leq, s, Filter(keep, sorted));
    SortedUnique(leq, Filter(keep, sorted), Sort(leq, Filter(keep, s)));
  }

  lemma {:induction false} InsertStable<T(!new)>(leq: (T, T) -> bool, keep: T -> bool, x: T, s: seq<T>)
    requires forall a, b | keep(a) && keep(b) :: leq(a, b)
    ensures Filter(keep, Insert(leq, x, s)) == Filter(keep, [x]) + Filter(keep, s)
  {
    if s == [] || leq(x, s[0]) {
      FilterConcat(keep, [x], s);
    } else {
      var rest := Insert(leq, x, s[1..]);
      assert ([s[0]] + rest)[1..] == rest;
      InsertStable(leq, keep, x, s[1..]);
    }
  }

  lemma {:induction false} FilterSuffix<T(!new)>(keep: T -> bool, s: seq<T>, k: nat)
    requires k <= |s|
    requires forall i | 0 <= i < k :: !keep(s[i])
    requires forall i | k <= i < |s| :: keep(s[i])
    ensures Filter(keep, s) == s[k..]
  {
    assert s == s[..k] + s[k..];
    FilterConcat(keep, s[..k], s[k..]);
    FilterNothing(keep, s[..k]);
    FilterAll(keep, s[k..]);
  }

  lemma {:induction false} FilterNarrower<T(!new)>(p: T -> bool, q: T -> bool, s: seq<T>)
    requires forall x | p(x) :: q(x)
    ensures Filter(p, Filter(q, s)) == Filter(p, s)
  {
    if s != [] {
      FilterNarrower(p, q, s[1..]);
    }
  }

  /** Without repetitions, what is kept can be counted as a set. */
  lemma {:induction false} FilterCounts<T(!new), K>(key: T -> K, keep: T -> bool, s: seq<T>, all: set<T>)
    requires Keyed(key, s) && forall x :: x in all <==> x in s && keep(x)
    ensures |Filter(keep, s)| == |all|
  {
    if s == [] {
      assert all == {};
    } else {
      var x, rest := s[0], s[1..];
      forall j | 0 <= j < |rest| ensures rest[j] != x {
        assert key(s[0]) != key(s[j + 1]);
      }
      assert x !in rest;
      if keep(x) {
        FilterCounts(key, keep, rest, all - {x});
      } else {
        FilterCounts(key, keep, rest, all);
      }
    }
  }

  function Take<T>(s: seq<T>, n: nat): seq<T> {
    if |s| <= n then s else s[..n]
  }

  /** A query with a condition, an order and a limit returns the first of what it selects. */
  lemma FirstSelected<T(!new)>(leq: (T, T) -> bool, keep: T -> bool, s: seq<T>, n: nat)
    requires Preorder(leq)
    ensures var r := Take(Sort(leq, Filter(keep, s)), n);
      && |r| <= n && Ordered(leq, r)
      && (forall i | 0 <= i < |r| :: r[i] in s && keep(r[i]))
      && (forall x | x in s && keep(x) && x !in r :: |r| == n && forall i | 0 <= i < |r| :: leq(r[i], x))
  {
    var all := Filter(keep, s);
    var sorted := Sort(leq, all);
    var r := Take(sorted, n);
    SortOrdered(leq, all);
    SameMembers(all, sorted);
    forall i | 0 <= i < |r| ensures r[i] in s && keep(r[i]) {
      assert r[i] == sorted[i] && sorted[i] in sorted && sorted[i] in all;
    }
    forall x | x in s && keep(x) && x !in r ensures |r| == n && forall i | 0 <= i < |r| :: leq(r[i], x) {
      assert x in all && x in sorted;
      assert forall j | 0 <= j < |r| :: sorted[j] == r[j] && r[j] in r;
      var j :| 0 <= j < |sorted| && sorted[j] == x;
    }
  }

  /** Members that tie with each other keep their input order. */
  lemma {:induction false} SortStable<T(!new)>(leq: (T, T) -> bool, keep: T -> bool, s: seq<T>)
    requires forall a, b | keep(a) && keep(b) :: leq(a, b)
    ensures Filter(keep, Sort(leq, s)) == Filter(keep, s)
  {
    if s != [] {
      SortStable(leq, keep, s[1..]);
      InsertStable(leq, keep, s[0], Sort(leq, s[1..]));
      FilterConcat(keep, [s[0]], s[1..]);
      assert s == [s[0]] + s[1..];
    }
  }

  function MapSeq<T, U>(f: T -> U, s: seq<T>): (r: seq<U>)
    ensures |r| == |s|
    ensures forall i | 0 <= i < |s| :: r[i] == f(s[i])
  {
    seq(|s|, i requires 0 <= i < |s| => f(s[i]))
  }

  lemma SplitAt<T(!new)>(s: seq<T>, x: T) returns (before: seq<T>, after: seq<T>)
    requires multiset(s)[x] > 0
    ensures s == before + [x] + after
    ensures multiset(before + after) == multiset(s) - multiset{x}
  {
    assert x in multiset(s);
    assert x in s;
    var k :| 0 <= k < |s| && s[k] == x;
    before, after := s[..k], s[k + 1..];
  }

  lemma MapAround<T, U>(f: T -> U, a: seq<T>, x: T, b: seq<T>)
    ensures multiset(MapSeq(f, a + [x] + b)) == multiset{f(x)} + multiset(MapSeq(f, a + b))
  {
    var fa, fb := MapSeq(f, a), MapSeq(f, b);
    assert MapSeq(f, a + [x] + b) == fa + [f(x)] + fb;
    assert MapSeq(f, a + b) == fa + fb;
  }

  lemma MapHead<T, U>(f: T -> U, s: seq<T>)
    requires s != []
    ensures multiset(s[1..]) == multiset(s) - multiset{s[0]}
    ensures multiset(MapSeq(f, s)) == multiset{f(s[0])} + multiset(MapSeq(f, s[1..]))
  {
    assert s == [s[0]] + s[1..];
    assert MapSeq(f, s) == [f(s[0])] + MapSeq(f, s[1..]);
  }

  /** Mapping commutes with permutation. */
  lemma {:induction false} MapPermuted<T(!new), U(!new)>(f: T -> U, a: seq<T>, b: seq<T>)
    requires multiset(a) == multiset(b)
    ensures multiset(MapSeq(f, a)) == multiset(MapSeq(f, b))
  {
    if a == [] {
      assert |multiset(b)| == 0;
    } else {
      MapHead(f, a);
      var before, after := SplitAt(b, a[0]);
      MapPermuted(f, a[1..], before + after);
      MapAround(f, before, a[0], after);
    }
  }

  /** `sort.SliceStable` on a slice, in place. */
  method SortInPlace<T(!new)>(a: array<T>, leq: (T, T) -> bool)
    modifies a
    ensures a[..] == Sort(leq, old(a[..]))
  {
    var sorted := Sort(leq, a[..]);
    forall i | 0 <= i < a.Length {
      a[i] := sorted[i];
    }
  }
}
