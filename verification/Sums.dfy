/** The sum of a measure over a list. */
module Sums {
  import opened Sorting

  function Sum<T>(f: T -> nat, s: seq<T>): nat {
    if s == [] then 0 else f(s[0]) + Sum(f, s[1..])
  }

  lemma {:induction false} SumAppend<T>(f: T -> nat, s: seq<T>, x: T)
    ensures Sum(f, s + [x]) == Sum(f, s) + f(x)
  {
    if s == [] {
      assert s + [x] == [x];
    } else {
      assert (s + [x])[1..] == s[1..] + [x];
      SumAppend(f, s[1..], x);
    }
  }

  function Itself(): nat -> nat {
    (n: nat) => n
  }

  /** The sum of a list of numbers. */
  function SumOf(sizes: seq<nat>): nat {
    Sum(Itself(), sizes)
  }

  lemma SumOfMore(sizes: seq<nat>, size: nat)
    ensures SumOf(sizes + [size]) == SumOf(sizes) + size
  {
    SumAppend(Itself(), sizes, size);
  }

  lemma {:induction false} SumUpdate<T>(f: T -> nat, s: seq<T>, i: nat, x: T)
    requires i < |s|
    ensures Sum(f, s[i := x]) + f(s[i]) == Sum(f, s) + f(x)
  {
    if i == 0 {
      assert s[i := x][1..] == s[1..];
    } else {
      assert s[i := x][1..] == s[1..][i - 1 := x];
      SumUpdate(f, s[1..], i - 1, x);
    }
  }

  lemma {:induction false} SumIncludes<T>(f: T -> nat, s: seq<T>, i: nat)
    requires i < |s|
    ensures Sum(f, s) >= f(s[i])
  {
    if i > 0 {
      SumIncludes(f, s[1..], i - 1);
    }
  }

  lemma {:induction false} SumIncludesTwo<T>(f: T -> nat, s: seq<T>, i: nat, j: nat)
    requires i < j < |s|
    ensures Sum(f, s) >= f(s[i]) + f(s[j])
  {
    if i == 0 {
      SumIncludes(f, s[1..], j - 1);
    } else {
      SumIncludesTwo(f, s[1..], i - 1, j - 1);
    }
  }

  lemma {:induction false} SumWitness<T>(f: T -> nat, s: seq<T>) returns (i: nat)
    requires Sum(f, s) > 0
    ensures i < |s| && f(s[i]) > 0
  {
    if f(s[0]) > 0 {
      i := 0;
    } else {
      i := SumWitness(f, s[1..]);
      i := i + 1;
    }
  }

  lemma {:induction false} SumZero<T>(f: T -> nat, s: seq<T>)
    requires forall i | 0 <= i < |s| :: f(s[i]) == 0
    ensures Sum(f, s) == 0
  {
    if s != [] {
      SumZero(f, s[1..]);
    }
  }

  lemma {:induction false} SumAtMost<T>(f: T -> nat, g: T -> nat, s: seq<T>)
    requires forall i | 0 <= i < |s| :: f(s[i]) <= g(s[i])
    ensures Sum(f, s) <= Sum(g, s)
  {
    if s != [] {
      SumAtMost(f, g, s[1..]);
    }
  }

  lemma {:induction false} SumAround<T>(f: T -> nat, a: seq<T>, x: T, b: seq<T>)
    ensures Sum(f, a + [x] + b) == f(x) + Sum(f, a + b)
  {
    if a == [] {
      assert a + [x] + b == [x] + b && a + b == b;
    } else {
      assert (a + [x] + b)[1..] == a[1..] + [x] + b && (a + b)[1..] == a[1..] + b;
      SumAround(f, a[1..], x, b);
    }
  }

  lemma {:induction false} SumPermuted<T(!new)>(f: T -> nat, a: seq<T>, b: seq<T>)
    requires multiset(a) == multiset(b)
    ensures Sum(f, a) == Sum(f, b)
  {
    if a == [] {
      assert |b| == |multiset(b)| == |multiset(a)| == 0;
    } else {
      assert a == [a[0]] + a[1..];
      assert multiset(b)[a[0]] > 0;
      var before, after := SplitAt(b, a[0]);
      SumAround(f, before, a[0], after);
      assert multiset(a[1..]) == multiset(a) - multiset{a[0]};
      assert multiset(before + after) == multiset(b) - multiset{a[0]};
      SumPermuted(f, a[1..], before + after);
    }
  }
}
