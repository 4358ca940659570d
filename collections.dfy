/** Counting and first-seen order over sequences: the reference definitions
    the dictionary-building loops are proved against. */
module Collections {

  predicate Distinct<T(==)>(s: seq<T>) {
    forall i, j :: 0 <= i < j < |s| ==> s[i] != s[j]
  }

  /** How many times `x` occurs in `s`. */
  function Count<T(==)>(s: seq<T>, x: T): (r: nat)
    ensures r <= |s|
    ensures r == 0 <==> x !in s
  {
    if s == [] then 0
    else Count(s[..|s| - 1], x) + (if s[|s| - 1] == x then 1 else 0)
  }

  /** The distinct elements of `s` in order of first appearance (the key
      order of a Python dict filled from `s`). */
  function FirstSeen<T(==)>(s: seq<T>): seq<T> {
    if s == [] then []
    else
      var prefix := FirstSeen(s[..|s| - 1]);
      if s[|s| - 1] in prefix then prefix else prefix + [s[|s| - 1]]
  }

  /** `FirstSeen(s)` holds every element of `s` exactly once and nothing else. */
  lemma {:induction false} FirstSeenSpec<T>(s: seq<T>)
    ensures forall x :: x in FirstSeen(s) <==> x in s
    ensures Distinct(FirstSeen(s))
  {
    if s != [] {
      var init := s[..|s| - 1];
      FirstSeenSpec(init);
      assert s == init + [s[|s| - 1]];
    }
  }

  /** One more element joins the first-seen order exactly when it is new. */
  lemma FirstSeenAppend<T>(s: seq<T>, x: T)
    ensures FirstSeen(s + [x]) == if x in s then FirstSeen(s) else FirstSeen(s) + [x]
  {
    FirstSeenSpec(s);
    assert (s + [x])[..|s|] == s;
  }

  /** The sum of `Count(s, k)` over the keys `ks`. */
  function CountSum<T(==)>(s: seq<T>, ks: seq<T>): nat {
    if ks == [] then 0 else CountSum(s, ks[..|ks| - 1]) + Count(s, ks[|ks| - 1])
  }

  /** Appending `x` to `s` adds one to the sum of counts over distinct keys
      exactly when `x` is one of them. */
  lemma {:induction false} CountSumAppend<T>(s: seq<T>, x: T, ks: seq<T>)
    requires Distinct(ks)
    ensures CountSum(s + [x], ks) == CountSum(s, ks) + (if x in ks then 1 else 0)
  {
    if ks != [] {
      var init := ks[..|ks| - 1];
      assert (s + [x])[..|s|] == s;
      assert Distinct(init);
      CountSumAppend(s, x, init);
      assert ks == init + [ks[|ks| - 1]];
    }
  }

  /** Summing the counts of the distinct elements of `s` gives `|s|`. */
  lemma {:induction false} CountSumFirstSeen<T>(s: seq<T>)
    ensures CountSum(s, FirstSeen(s)) == |s|
  {
    if s != [] {
      var init, x := s[..|s| - 1], s[|s| - 1];
      assert s == init + [x];
      CountSumFirstSeen(init);
      FirstSeenSpec(init);
      FirstSeenSpec(s);
      CountSumAppend(init, x, FirstSeen(init));
      var fs := FirstSeen(init);
      if x !in fs {
        assert FirstSeen(s) == fs + [x];
        assert FirstSeen(s)[..|fs|] == fs;
        assert Count(init, x) == 0;
      }
    }
  }

  /** Drawing without replacement from a duplicate-free population gives a
      duplicate-free sample of its elements. */
  lemma SubMultisetDistinct<T>(r: seq<T>, pop: seq<T>)
    requires Distinct(pop)
    requires multiset(r) <= multiset(pop)
    ensures Distinct(r)
    ensures forall x :: x in r ==> x in pop
  {
    forall x | x in r ensures x in pop {
      assert x in multiset(r);
    }
    forall x ensures multiset(r)[x] <= 1 {
      DistinctCount(pop, x);
    }
    SingletonsDistinct(r);
  }

  lemma {:induction false} SingletonsDistinct<T>(r: seq<T>)
    requires forall x :: multiset(r)[x] <= 1
    ensures Distinct(r)
  {
    if r != [] {
      var t := r[1..];
      assert r == [r[0]] + t;
      assert multiset(r) == multiset{r[0]} + multiset(t);
      forall x ensures multiset(t)[x] <= 1 {
        assert multiset(t)[x] <= multiset(r)[x];
      }
      SingletonsDistinct(t);
      assert multiset(r)[r[0]] == 1 + multiset(t)[r[0]];
      assert multiset(t)[r[0]] == 0;
      assert r[0] !in t;
    }
  }

  lemma {:induction false} DistinctCount<T>(s: seq<T>, x: T)
    requires Distinct(s)
    ensures multiset(s)[x] <= 1
  {
    if s != [] {
      DistinctCount(s[1..], x);
      assert s == [s[0]] + s[1..];
      if s[0] == x {
        assert x !in s[1..];
      }
    }
  }

  /** A duplicate-free sequence has as many distinct elements as entries. */
  lemma {:induction false} DistinctCardinality<T>(s: seq<T>)
    requires Distinct(s)
    ensures |set x | x in s| == |s|
  {
    if s != [] {
      var t := s[1..];
      DistinctCardinality(t);
      assert (set x | x in s) == (set x | x in t) + {s[0]};
      assert s[0] !in t;
    }
  }

  /** `s` without the entries equal to `x`, in order (`del d[x]` on a
      dict's key order). */
  function Remove<T(==,!new)>(s: seq<T>, x: T): (r: seq<T>)
    ensures forall y :: y in r <==> y in s && y != x
  {
    if s == [] then []
    else (if s[0] == x then [] else [s[0]]) + Remove(s[1..], x)
  }

  /** Removing a present key from a duplicate-free sequence drops exactly
      one entry and keeps it duplicate-free. */
  lemma {:induction false} RemoveDistinct<T(!new)>(s: seq<T>, x: T)
    requires Distinct(s)
    ensures Distinct(Remove(s, x))
    ensures |Remove(s, x)| == if x in s then |s| - 1 else |s|
  {
    if s != [] {
      RemoveDistinct(s[1..], x);
      assert s[0] !in s[1..];
      if s[0] == x {
        assert x !in s[1..];
      }
    }
  }

  /** `s` back to front. */
  function Reverse<T>(s: seq<T>): (r: seq<T>)
    ensures |r| == |s|
    ensures forall i :: 0 <= i < |s| ==> r[i] == s[|s| - 1 - i]
  {
    seq(|s|, i requires 0 <= i < |s| => s[|s| - 1 - i])
  }

  lemma {:induction false} ReversePermutes<T>(s: seq<T>)
    ensures multiset(Reverse(s)) == multiset(s)
  {
    if s != [] {
      var t := s[1..];
      ReversePermutes(t);
      assert Reverse(s) == Reverse(t) + [s[0]];
      assert s == [s[0]] + t;
    }
  }

  /** `list(s)`: the elements of a set in some order. */
  method SetToSeq<T(==)>(s: set<T>) returns (r: seq<T>)
    ensures Distinct(r)
    ensures forall x :: x in r <==> x in s
    ensures |r| == |s|
  {
    r := [];
    var rest := s;
    while rest != {}
      invariant rest <= s
      invariant Distinct(r)
      invariant forall x :: x in r <==> x in s && x !in rest
      decreases |rest|
    {
      var x :| x in rest;
      r := r + [x];
      rest := rest - {x};
    }
    DistinctCardinality(r);
    assert (set x | x in r) == s;
  }
}
