/** What a query with ORDER BY and LIMIT returns, when no two rows tie. */
module FirstRows {
  import opened Sorting

  /** A strict order without ties. */
  ghost predicate Linear<T(!new)>(before: (T, T) -> bool) {
    && (forall a :: !before(a, a))
    && (forall a, b :: a == b || before(a, b) || before(b, a))
    && (forall a, b, c :: before(a, b) && before(b, c) ==> before(a, c))
  }

  /** `found` are the first `limit` of `all`, in order. */
  ghost predicate FirstOf<T(!new)>(before: (T, T) -> bool, all: set<T>, limit: nat, found: seq<T>) {
    && |found| <= limit
    && (forall i | 0 <= i < |found| :: found[i] in all)
    && (forall i, j | 0 <= i < j < |found| :: before(found[i], found[j]))
    && (forall x | x in all && x !in found :: |found| == limit && forall i | 0 <= i < |found| :: before(found[i], x))
  }

  function Members<T(!new)>(s: seq<T>): (r: set<T>)
    ensures forall x :: x in r <==> x in s
  {
    set x | x in s
  }

  lemma {:induction false} MembersCounted<T(!new)>(s: seq<T>)
    ensures |Members(s)| <= |s|
    ensures (forall i, j | 0 <= i < j < |s| :: s[i] != s[j]) ==> |Members(s)| == |s|
  {
    if s != [] {
      var front, last := s[..|s| - 1], s[|s| - 1];
      MembersCounted(front);
      assert Members(s) == Members(front) + {last};
    }
  }

  lemma SubsetCounted<T>(a: set<T>, b: set<T>)
    requires a <= b
    ensures |a| <= |b|
  {
    assert b == a + (b - a) && |b| == |a| + |b - a|;
  }

  ghost function Preceding<T(!new)>(before: (T, T) -> bool, all: set<T>, x: T): set<T> {
    set y | y in all && before(y, x)
  }

  /** A row is returned exactly if fewer than `limit` rows come before it. */
  lemma ListedIff<T(!new)>(before: (T, T) -> bool, all: set<T>, limit: nat, found: seq<T>, x: T)
    requires Linear(before) && FirstOf(before, all, limit, found) && x in all
    ensures x in found <==> |Preceding(before, all, x)| < limit
  {
    var earlier := Preceding(before, all, x);
    if x in found {
      var i :| 0 <= i < |found| && found[i] == x;
      forall y | y in earlier ensures y in Members(found[..i]) {
        var j :| 0 <= j < |found| && found[j] == y;
        assert j < i;
        assert found[..i][j] == y;
      }
      SubsetCounted(earlier, Members(found[..i]));
      MembersCounted(found[..i]);
    } else {
      SubsetCounted(Members(found), earlier);
      MembersCounted(found);
    }
  }

  function AtMost<T(==)>(before: (T, T) -> bool): (T, T) -> bool {
    (a: T, b: T) => a == b || before(a, b)
  }

  lemma AtMostIsLinear<T(!new)>(before: (T, T) -> bool, s: seq<T>)
    requires Linear(before)
    ensures Preorder(AtMost(before)) && NoTies(AtMost(before), s)
  {
  }

  /** Sorting the rows and cutting the list computes them. */
  lemma SortedAndCut<T(!new)>(before: (T, T) -> bool, all: set<T>, limit: nat, listed: seq<T>)
    requires Linear(before) && multiset(listed) == multiset(all)
    ensures FirstOf(before, all, limit, Take(Sort(AtMost(before), listed), limit))
  {
    var sorted := Sort(AtMost(before), listed);
    var found := Take(sorted, limit);
    AtMostIsLinear(before, listed);
    SortOrdered(AtMost(before), listed);
    forall x ensures x in sorted <==> x in all {
      assert x in sorted <==> x in multiset(sorted);
      assert x in all <==> x in multiset(all);
    }
    forall i, j | 0 <= i < j < |sorted| ensures before(sorted[i], sorted[j]) {
      assert AtMost(before)(sorted[i], sorted[j]);
      assert multiset(sorted)[sorted[i]] <= 1;
      if sorted[i] == sorted[j] {
        TwiceCounts(sorted, i, j);
        assert false;
      }
    }
    forall x | x in all && x !in found ensures |found| == limit && forall i | 0 <= i < |found| :: before(found[i], x) {
      var j :| 0 <= j < |sorted| && sorted[j] == x;
      assert found == sorted[..|found|] && x !in sorted[..|found|];
    }
  }

  lemma {:induction false} Listing<T(!new)>(all: set<T>) returns (listed: seq<T>)
    ensures multiset(listed) == multiset(all)
    decreases |all|
  {
    if all == {} {
      listed := [];
    } else {
      var x :| x in all;
      var rest := Listing(all - {x});
      listed := [x] + rest;
      assert multiset(all) == multiset{x} + multiset(all - {x});
    }
  }

  /** There is one answer. */
  lemma FirstIsUnique<T(!new)>(before: (T, T) -> bool, all: set<T>, limit: nat, a: seq<T>, b: seq<T>)
    requires Linear(before) && FirstOf(before, all, limit, a) && FirstOf(before, all, limit, b)
    ensures a == b
  {
    forall x ensures x in a <==> x in b {
      if x in all {
        ListedIff(before, all, limit, a, x);
        ListedIff(before, all, limit, b, x);
      }
    }
    SameOrdered(before, a, b);
  }

  lemma {:induction false} SameOrdered<T(!new)>(before: (T, T) -> bool, a: seq<T>, b: seq<T>)
    requires Linear(before) && forall x :: x in a <==> x in b
    requires forall i, j | 0 <= i < j < |a| :: before(a[i], a[j])
    requires forall i, j | 0 <= i < j < |b| :: before(b[i], b[j])
    ensures a == b
  {
    assert b == [] || b[0] in b;
    if a != [] {
      assert a[0] in b && b != [] && b[0] in a;
      var i :| 0 <= i < |b| && b[i] == a[0];
      var j :| 0 <= j < |a| && a[j] == b[0];
      assert a[0] == b[0];
      forall x ensures x in a[1..] <==> x in b[1..] {
        RestMembers(before, a, x);
        RestMembers(before, b, x);
      }
      SameOrdered(before, a[1..], b[1..]);
      assert a == [a[0]] + a[1..] && b == [b[0]] + b[1..];
    }
  }

  lemma RestMembers<T(!new)>(before: (T, T) -> bool, s: seq<T>, x: T)
    requires Linear(before) && s != [] && forall i, j | 0 <= i < j < |s| :: before(s[i], s[j])
    ensures x in s[1..] <==> x in s && x != s[0]
  {
    if x in s && x != s[0] {
      var i :| 0 <= i < |s| && s[i] == x;
      assert s[1..][i - 1] == x;
    }
  }
}
