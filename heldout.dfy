/** Heldout-pair selection (compositional_split_generation.py lines
    134-138): the pair keys are ranked by number of occurrences, and
    `n / 10` of them are drawn at random from the middle band of the
    ranking. */
module Heldout {
  import opened Collections
  import opened Ranking
  import opened Frequency

  /** `random.sample(population, k)`: `k` entries drawn at random without
      replacement. The caller has checked `k <= |population|` (Python raises
      otherwise). */
  method Sample<T(==)>(population: seq<T>, k: nat) returns (r: seq<T>)
    requires k <= |population|
    ensures |r| == k
    ensures multiset(r) <= multiset(population)
  {
    var rest := population;
    r := [];
    while |r| < k
      invariant |r| <= k
      invariant |r| + |rest| == |population|
      invariant multiset(r) + multiset(rest) == multiset(population)
    {
      var i :| 0 <= i < |rest|;
      assert rest == rest[..i] + [rest[i]] + rest[i + 1..];
      r := r + [rest[i]];
      rest := rest[..i] + rest[i + 1..];
    }
  }

  /** Occurrence count of every pair key. */
  function Counts(pairFreq: map<string, seq<Occurrence>>): (w: map<string, nat>)
    ensures w.Keys == pairFreq.Keys
    ensures forall k :: k in w ==> w[k] == |pairFreq[k]|
  {
    map k | k in pairFreq :: |pairFreq[k]|
  }

  /** `adj_nn_freq_list` (line 134): the pair keys by descending number of
      occurrences; Python's sort is stable, so keys of equal count keep
      their first-seen order. */
  function RankPairs(idx: FrequencyIndex): (r: seq<string>)
    ensures multiset(r) == multiset(idx.pairOrder)
    ensures SortedDesc(r, Counts(idx.pairFreq))
    ensures forall v :: OfWeight(r, Counts(idx.pairFreq), v) == OfWeight(idx.pairOrder, Counts(idx.pairFreq), v)
  {
    SortDescSpec(idx.pairOrder, Counts(idx.pairFreq));
    SortDesc(idx.pairOrder, Counts(idx.pairFreq))
  }

  /** `int(n / 100 * 25)` (line 135), in integer arithmetic: a quarter of
      `n`, rounded down. */
  function BandLow(n: nat): (r: nat)
    ensures 4 * r <= n < 4 * r + 4
  {
    n * 25 / 100
  }

  /** `int(n / 100 * 75) + 1` (line 136), in integer arithmetic: one past
      three quarters of `n`, rounded down. */
  function BandHigh(n: nat): (r: nat)
    ensures r >= 1 && 4 * (r - 1) <= 3 * n < 4 * r
  {
    n * 75 / 100 + 1
  }

  /** `ranked[lo:hi]` (line 137); Python clamps a slice end past the list. */
  function Band(ranked: seq<string>): (r: seq<string>)
    ensures multiset(r) <= multiset(ranked)
    ensures forall x :: x in r ==> x in ranked
  {
    var n := |ranked|;
    var hi := if BandHigh(n) <= n then BandHigh(n) else n;
    assert ranked == ranked[..BandLow(n)] + ranked[BandLow(n)..hi] + ranked[hi..];
    ranked[BandLow(n)..hi]
  }

  /** The band always holds at least `n / 10` keys, so the draw of line 138
      never fails; its end only runs past the list when the list is empty. */
  lemma BandLargeEnough(n: nat)
    ensures BandLow(n) <= n
    ensures n > 0 ==> BandHigh(n) <= n
    ensures n / 10 <= (if BandHigh(n) <= n then BandHigh(n) else n) - BandLow(n)
  {
    var lo, a := n * 25 / 100, n * 75 / 100;
    assert 100 * lo <= n * 25;
    assert 100 * a > n * 75 - 100;
    assert 10 * (n / 10) <= n;
    if n > 0 {
      assert 100 * a <= n * 75 < 100 * n;
    }
  }

  /** Lines 134-138: rank the pair keys, cut out the middle band and draw
      `n / 10` of its keys at random. */
  method SelectHeldout(idx: FrequencyIndex) returns (ranked: seq<string>, heldout: seq<string>)
    requires Distinct(idx.pairOrder)
    ensures ranked == RankPairs(idx)
    ensures |heldout| == |ranked| / 10
    ensures Distinct(heldout)
    ensures forall h :: h in heldout ==> h in Band(ranked)
  {
    ranked := RankPairs(idx);
    SortDescSpec(idx.pairOrder, Counts(idx.pairFreq));
    var band := Band(ranked);
    BandLargeEnough(|ranked|);
    SubMultisetDistinct(ranked, idx.pairOrder);
    SubMultisetDistinct(band, ranked);
    heldout := Sample(band, |ranked| / 10);
    SubMultisetDistinct(heldout, band);
  }

  /** The ranking lists every pair key once, most frequent first. */
  lemma RankPairsSpec(idx: FrequencyIndex)
    requires Distinct(idx.pairOrder)
    requires forall k :: k in idx.pairOrder <==> k in idx.pairFreq
    ensures Distinct(RankPairs(idx))
    ensures forall k :: k in RankPairs(idx) <==> k in idx.pairFreq
    ensures forall i, j :: 0 <= i < j < |RankPairs(idx)| ==>
      |idx.pairFreq[RankPairs(idx)[i]]| >= |idx.pairFreq[RankPairs(idx)[j]]|
  {
    var w := Counts(idx.pairFreq);
    SortDescSpec(idx.pairOrder, w);
    SubMultisetDistinct(RankPairs(idx), idx.pairOrder);
    forall k ensures k in RankPairs(idx) <==> k in idx.pairOrder {
      assert k in RankPairs(idx) <==> k in multiset(RankPairs(idx));
    }
  }
}
