/** `sorted(keys, key=weight, reverse=True)`: Python's sort is stable, so
    keys of equal weight keep their dictionary order (lines 134 and 180). */
module Ranking {

  function Weight<K>(w: map<K, nat>, k: K): nat {
    if k in w then w[k] else 0
  }

  /** Non-increasing in weight. */
  predicate SortedDesc<K>(s: seq<K>, w: map<K, nat>) {
    forall i, j :: 0 <= i < j < |s| ==> Weight(w, s[i]) >= Weight(w, s[j])
  }

  /** The keys of weight `v`, in their order in `s`. */
  function OfWeight<K>(s: seq<K>, w: map<K, nat>, v: nat): seq<K> {
    if s == [] then []
    else (if Weight(w, s[0]) == v then [s[0]] else []) + OfWeight(s[1..], w, v)
  }

  /** Inserts `x` before the first key that does not outweigh it. */
  function Insert<K>(x: K, s: seq<K>, w: map<K, nat>): (r: seq<K>)
    ensures |r| == |s| + 1
  {
    if s == [] then [x]
    else if Weight(w, x) >= Weight(w, s[0]) then [x] + s
    else [s[0]] + Insert(x, s[1..], w)
  }

  /** Stable insertion sort, heaviest first. */
  function SortDesc<K>(s: seq<K>, w: map<K, nat>): (r: seq<K>)
    ensures |r| == |s|
  {
    if s == [] then [] else Insert(s[0], SortDesc(s[1..], w), w)
  }

  lemma {:induction false} InsertPermutes<K>(x: K, s: seq<K>, w: map<K, nat>)
    ensures multiset(Insert(x, s, w)) == multiset(s) + multiset{x}
  {
    if s != [] && Weight(w, x) < Weight(w, s[0]) {
      InsertPermutes(x, s[1..], w);
      assert s == [s[0]] + s[1..];
    }
  }

  lemma {:induction false} InsertElements<K>(x: K, s: seq<K>, w: map<K, nat>, j: nat)
    requires j < |Insert(x, s, w)|
    ensures Insert(x, s, w)[j] == x || Insert(x, s, w)[j] in s
  {
    if s != [] && Weight(w, x) < Weight(w, s[0]) && j > 0 {
      InsertElements(x, s[1..], w, j - 1);
    }
  }

  lemma {:induction false} InsertSorted<K>(x: K, s: seq<K>, w: map<K, nat>)
    requires SortedDesc(s, w)
    ensures SortedDesc(Insert(x, s, w), w)
  {
    if s != [] && Weight(w, x) < Weight(w, s[0]) {
      var t := s[1..];
      InsertSorted(x, t, w);
      var r := Insert(x, t, w);
      forall j | 0 <= j < |r| ensures Weight(w, s[0]) >= Weight(w, r[j]) {
        InsertElements(x, t, w, j);
      }
      assert Insert(x, s, w) == [s[0]] + r;
    }
  }

  lemma {:induction false} InsertOfWeight<K>(x: K, s: seq<K>, w: map<K, nat>, v: nat)
    requires SortedDesc(s, w)
    ensures OfWeight(Insert(x, s, w), w, v)
         == if Weight(w, x) == v then [x] + OfWeight(s, w, v) else OfWeight(s, w, v)
  {
    if s != [] && Weight(w, x) < Weight(w, s[0]) {
      InsertOfWeight(x, s[1..], w, v);
      if Weight(w, x) == v {
        assert Weight(w, s[0]) != v;
      }
    } else if s != [] {
      assert Insert(x, s, w) == [x] + s;
      assert ([x] + s)[1..] == s;
    }
  }

  /** The ranking is ordered heaviest first, is a permutation of its input,
      and keeps the input order among keys of equal weight. */
  lemma {:induction false} SortDescSpec<K>(s: seq<K>, w: map<K, nat>)
    ensures SortedDesc(SortDesc(s, w), w)
    ensures multiset(SortDesc(s, w)) == multiset(s)
    ensures forall v :: OfWeight(SortDesc(s, w), w, v) == OfWeight(s, w, v)
  {
    if s != [] {
      SortDescSpec(s[1..], w);
      InsertSorted(s[0], SortDesc(s[1..], w), w);
      InsertPermutes(s[0], SortDesc(s[1..], w), w);
      assert s == [s[0]] + s[1..];
      forall v ensures OfWeight(SortDesc(s, w), w, v) == OfWeight(s, w, v) {
        InsertOfWeight(s[0], SortDesc(s[1..], w), w, v);
      }
    }
  }

  lemma OfWeightCons<K>(y: K, t: seq<K>, w: map<K, nat>, v: nat)
    ensures OfWeight([y] + t, w, v) == (if Weight(w, y) == v then [y] else []) + OfWeight(t, w, v)
  {
    assert ([y] + t)[0] == y && ([y] + t)[1..] == t;
  }

  lemma {:induction false} OfWeightAppend<K>(a: seq<K>, b: seq<K>, w: map<K, nat>, v: nat)
    ensures OfWeight(a + b, w, v) == OfWeight(a, w, v) + OfWeight(b, w, v)
  {
    if a == [] {
      assert a + b == b;
    } else {
      var t := a[1..];
      OfWeightAppend(t, b, w, v);
      assert a == [a[0]] + t;
      assert a + b == [a[0]] + (t + b);
      OfWeightCons(a[0], t + b, w, v);
      OfWeightCons(a[0], t, w, v);
      var x := if Weight(w, a[0]) == v then [a[0]] else [];
      assert x + (OfWeight(t, w, v) + OfWeight(b, w, v)) == (x + OfWeight(t, w, v)) + OfWeight(b, w, v);
    }
  }

  lemma {:induction false} OfWeightNone<K>(s: seq<K>, w: map<K, nat>, v: nat)
    requires forall i :: 0 <= i < |s| ==> Weight(w, s[i]) != v
    ensures OfWeight(s, w, v) == []
  {
    if s != [] {
      OfWeightNone(s[1..], w, v);
    }
  }

  /** When `s[m]` is the last key of its weight, it closes the keys of
      that weight. */
  lemma OfWeightEndsWith<K>(s: seq<K>, w: map<K, nat>, m: nat)
    requires m < |s|
    requires forall i :: m < i < |s| ==> Weight(w, s[i]) != Weight(w, s[m])
    ensures OfWeight(s, w, Weight(w, s[m])) == OfWeight(s[..m], w, Weight(w, s[m])) + [s[m]]
  {
    var v := Weight(w, s[m]);
    var t := s[m + 1..];
    assert s == s[..m] + ([s[m]] + t);
    OfWeightAppend(s[..m], [s[m]] + t, w, v);
    OfWeightAppend([s[m]], t, w, v);
    OfWeightNone(t, w, v);
  }

  /** The key a descending sort puts last has the least weight. */
  lemma SortDescLastWeight<K>(s: seq<K>, w: map<K, nat>, m: nat)
    requires m < |s|
    requires forall i :: 0 <= i < |s| ==> Weight(w, s[m]) <= Weight(w, s[i])
    ensures |SortDesc(s, w)| == |s|
    ensures Weight(w, SortDesc(s, w)[|s| - 1]) == Weight(w, s[m])
  {
    var d := SortDesc(s, w);
    SortDescSpec(s, w);
    var l := d[|d| - 1];
    assert l in multiset(s);
    assert s[m] in multiset(d);
  }

  lemma SortDescOfWeight<K>(s: seq<K>, w: map<K, nat>, v: nat)
    ensures OfWeight(SortDesc(s, w), w, v) == OfWeight(s, w, v)
  {
    SortDescSpec(s, w);
  }

  /** The key a descending sort puts last is the LAST of the lightest keys
      in input order (`sorted(d, key=d.get, reverse=True)[-1]`). */
  lemma SortDescLast<K>(s: seq<K>, w: map<K, nat>, m: nat)
    requires m < |s|
    requires forall i :: 0 <= i < |s| ==> Weight(w, s[m]) <= Weight(w, s[i])
    requires forall i :: m < i < |s| ==> Weight(w, s[m]) < Weight(w, s[i])
    ensures |SortDesc(s, w)| == |s|
    ensures SortDesc(s, w)[|s| - 1] == s[m]
  {
    var d := SortDesc(s, w);
    SortDescLastWeight(s, w, m);
    var v := Weight(w, s[m]);
    SortDescOfWeight(s, w, v);
    var l := d[|d| - 1];
    assert Weight(w, l) == v;
    OfWeightEndsWith(d, w, |d| - 1);
    OfWeightEndsWith(s, w, m);
    var od, os := OfWeight(d, w, v), OfWeight(s, w, v);
    assert od == os;
    assert od[|od| - 1] == l;
    assert os[|os| - 1] == s[m];
  }
}
