/** The dominant pairs (compositional_split_generation.py lines 179-213):
    the colour and shape adjectives are ranked by frequency, a table of the
    100 most frequent pairs built on them is filled by evicting its least
    frequent entry, and the table entries above its 25th percentile are the
    dominant pairs. */
module Dominant {
  import opened Text
  import opened Collections
  import opened Ranking
  import opened Frequency

  /** The number of entries of `top_100_pairs`. */
  const TopSize: nat := 100

  /** A key of `top_100_pairs`: one of the initial placeholders
      `<adj_nn_i>`, or a pair key. */
  datatype Slot = Placeholder(i: nat) | PairSlot(key: string)

  /** The entries of `ranked` that are colour or shape adjectives, in order. */
  function Qualifying(ranked: seq<string>, colors: set<string>, shapes: set<string>): (r: seq<string>)
    ensures forall a :: a in r <==> a in ranked && (a in colors || a in shapes)
  {
    if ranked == [] then []
    else
      (if ranked[0] in colors || ranked[0] in shapes then [ranked[0]] else [])
      + Qualifying(ranked[1..], colors, shapes)
  }

  /** `top_60_adjs` (lines 180-182): the colour and shape adjectives among
      the tagged adjectives, most frequent first. The list is not cut at 60
      entries. */
  function TopAdjs(idx: FrequencyIndex, colors: set<string>, shapes: set<string>): (r: seq<string>)
    ensures forall a :: a in r <==> a in idx.adjOrder && (a in colors || a in shapes)
  {
    var ranked := SortDesc(idx.adjOrder, idx.adjFreq);
    SortDescSpec(idx.adjOrder, idx.adjFreq);
    assert forall a :: a in ranked <==> a in multiset(idx.adjOrder);
    Qualifying(ranked, colors, shapes)
  }

  /** A pair key takes part when its adjective is in `top_60_adjs` (line 190). */
  predicate Eligible(key: string, adjs: seq<string>) {
    Head(key, '_') in adjs
  }

  /** Index of the last of the least frequent entries, in table order: the
      entry a stable descending sort puts last. */
  function LastMin(order: seq<Slot>, table: map<Slot, nat>): (m: nat)
    requires |order| > 0
    ensures m < |order|
    ensures forall i :: 0 <= i < |order| ==> Weight(table, order[m]) <= Weight(table, order[i])
    ensures forall i :: m < i < |order| ==> Weight(table, order[m]) < Weight(table, order[i])
  {
    if |order| == 1 then 0
    else
      var m0 := LastMin(order[..|order| - 1], table);
      if Weight(table, order[|order| - 1]) <= Weight(table, order[m0]) then |order| - 1 else m0
  }

  /** The table has its 100 distinct keys, in insertion order. */
  ghost predicate Shape(table: map<Slot, nat>, order: seq<Slot>) {
    && |order| == TopSize
    && Distinct(order)
    && (forall s :: s in table <==> s in order)
  }

  /** A table of this shape has exactly `TopSize` entries. */
  lemma ShapeSize(table: map<Slot, nat>, order: seq<Slot>)
    requires Shape(table, order)
    ensures |table| == TopSize
  {
    DistinctCardinality(order);
    assert table.Keys == set s | s in order;
  }

  /** What the table holds once the keys `done` have been visited: pair
      entries carry their occurrence count, placeholders 0, and no visited
      eligible key left out of the table is more frequent than any entry. */
  ghost predicate Holds(table: map<Slot, nat>, order: seq<Slot>, pf: map<string, seq<Occurrence>>,
                        adjs: seq<string>, done: seq<string>) {
    && Shape(table, order)
    && (forall s :: s in table && s.PairSlot? ==>
          s.key in done && Eligible(s.key, adjs) && s.key in pf && table[s] == |pf[s.key]|)
    && (forall s :: s in table && s.Placeholder? ==> table[s] == 0)
    && (forall k, s :: k in done && Eligible(k, adjs) && k in pf && PairSlot(k) !in table && s in table ==>
          |pf[k]| <= table[s])
  }

  /** Lines 185-187: 100 placeholders of frequency 0. */
  method InitialTable() returns (table: map<Slot, nat>, order: seq<Slot>)
    ensures Shape(table, order)
    ensures forall s :: s in table ==> s.Placeholder? && table[s] == 0
  {
    table, order := map[], [];
    for i := 0 to TopSize
      invariant |order| == i
      invariant forall j :: 0 <= j < i ==> order[j] == Placeholder(j)
      invariant forall s :: s in table <==> s in order
      invariant forall s :: s in table ==> s.Placeholder? && table[s] == 0
    {
      table := table[Placeholder(i) := 0];
      order := order + [Placeholder(i)];
    }
  }

  lemma SkipStep(table: map<Slot, nat>, order: seq<Slot>, pf: map<string, seq<Occurrence>>,
                 adjs: seq<string>, done: seq<string>, key: string)
    requires Holds(table, order, pf, adjs, done)
    requires key in pf
    requires Eligible(key, adjs) ==> PairSlot(key) !in table && forall s :: s in table ==> |pf[key]| <= table[s]
    ensures Holds(table, order, pf, adjs, done + [key])
  {
  }

  /** An eligible key no more frequent than the least frequent entry
      leaves the table as it is. */
  lemma KeepStep(table: map<Slot, nat>, order: seq<Slot>, pf: map<string, seq<Occurrence>>,
                 adjs: seq<string>, done: seq<string>, key: string, last: Slot)
    requires Holds(table, order, pf, adjs, done)
    requires key in pf && key !in done
    requires last in table && forall s :: s in table ==> table[last] <= table[s]
    requires |pf[key]| <= table[last]
    ensures Holds(table, order, pf, adjs, done + [key])
  {
    assert PairSlot(key) !in table;
    SkipStep(table, order, pf, adjs, done, key);
  }

  lemma EvictStep(table: map<Slot, nat>, order: seq<Slot>, pf: map<string, seq<Occurrence>>,
                  adjs: seq<string>, done: seq<string>, key: string, last: Slot)
    requires Holds(table, order, pf, adjs, done)
    requires key in pf && key !in done && Eligible(key, adjs)
    requires last in table && forall s :: s in table ==> table[last] <= table[s]
    requires table[last] < |pf[key]|
    ensures Holds((table - {last})[PairSlot(key) := |pf[key]|],
                  Remove(order, last) + [PairSlot(key)], pf, adjs, done + [key])
  {
    var t := (table - {last})[PairSlot(key) := |pf[key]|];
    var o := Remove(order, last) + [PairSlot(key)];
    RemoveDistinct(order, last);
    assert PairSlot(key) !in table;
    assert Distinct(o) by {
      assert PairSlot(key) !in Remove(order, last);
    }
    forall k, s | k in done + [key] && Eligible(k, adjs) && k in pf && PairSlot(k) !in t && s in t
      ensures |pf[k]| <= t[s]
    {
      assert k in done;
      if PairSlot(k) in table {
        assert PairSlot(k) == last;
      }
      assert |pf[k]| <= table[last];
    }
  }

  /** Every table entry weighs at least as much as the entry at `m`. */
  lemma MinOverTable(table: map<Slot, nat>, order: seq<Slot>, m: nat)
    requires m < |order|
    requires forall s :: s in table <==> s in order
    requires forall i :: 0 <= i < |order| ==> Weight(table, order[m]) <= Weight(table, order[i])
    ensures order[m] in table
    ensures forall s :: s in table ==> table[order[m]] <= table[s]
  {
    forall s | s in table ensures table[order[m]] <= table[s] {
      var i :| 0 <= i < |order| && order[i] == s;
      assert Weight(table, order[m]) <= Weight(table, order[i]);
    }
  }

  /** The entry `sorted(top_100_pairs, key=top_100_pairs.get,
      reverse=True)[-1]` (lines 196 and 199): the last, in table order, of
      the least frequent entries. */
  method Lowest(table: map<Slot, nat>, order: seq<Slot>) returns (last: Slot)
    requires |order| > 0
    requires forall s :: s in table <==> s in order
    ensures last == order[LastMin(order, table)]
    ensures last in table && forall s :: s in table ==> table[last] <= table[s]
  {
    var sortedKeys := SortDesc(order, table);
    SortDescLast(order, table, LastMin(order, table));
    MinOverTable(table, order, LastMin(order, table));
    last := sortedKeys[|sortedKeys| - 1];
  }

  /** Lines 189-201 for one pair key. */
  method VisitKey(table: map<Slot, nat>, order: seq<Slot>, pf: map<string, seq<Occurrence>>,
                  adjs: seq<string>, ghost done: seq<string>, key: string)
    returns (table': map<Slot, nat>, order': seq<Slot>)
    requires Holds(table, order, pf, adjs, done)
    requires key in pf && key !in done
    ensures Holds(table', order', pf, adjs, done + [key])
    ensures var last := order[LastMin(order, table)];
      if Eligible(key, adjs) && Weight(table, last) < |pf[key]|
      then table' == (table - {last})[PairSlot(key) := |pf[key]|] && order' == Remove(order, last) + [PairSlot(key)]
      else table' == table && order' == order
  {
    if !Eligible(key, adjs) {
      SkipStep(table, order, pf, adjs, done, key);
      return table, order;
    }
    table', order' := VisitEligible(table, order, pf, adjs, done, key);
  }

  /** Lines 196-201: an eligible key replaces the entry a descending sort
      puts last when that entry is strictly less frequent. */
  method VisitEligible(table: map<Slot, nat>, order: seq<Slot>, pf: map<string, seq<Occurrence>>,
                       adjs: seq<string>, ghost done: seq<string>, key: string)
    returns (table': map<Slot, nat>, order': seq<Slot>)
    requires Holds(table, order, pf, adjs, done)
    requires key in pf && key !in done && Eligible(key, adjs)
    ensures Holds(table', order', pf, adjs, done + [key])
    ensures var last := order[LastMin(order, table)];
      if Weight(table, last) < |pf[key]|
      then table' == (table - {last})[PairSlot(key) := |pf[key]|] && order' == Remove(order, last) + [PairSlot(key)]
      else table' == table && order' == order
  {
    var freq := |pf[key]|;
    var last := Lowest(table, order);
    assert Weight(table, last) == table[last];
    if table[last] < freq {
      EvictStep(table, order, pf, adjs, done, key, last);
      table' := (table - {last})[PairSlot(key) := freq];
      order' := Remove(order, last) + [PairSlot(key)];
    } else {
      KeepStep(table, order, pf, adjs, done, key, last);
      table', order' := table, order;
    }
  }

  /** Lines 189-201: visits the pair keys most frequent first; an eligible
      key replaces the entry a descending sort puts last when that entry is
      strictly less frequent. */
  method BuildTopTable(ranked: seq<string>, pf: map<string, seq<Occurrence>>, adjs: seq<string>)
    returns (table: map<Slot, nat>, order: seq<Slot>)
    requires Distinct(ranked)
    requires forall k :: k in ranked ==> k in pf
    ensures Holds(table, order, pf, adjs, ranked)
  {
    table, order := InitialTable();
    for j := 0 to |ranked|
      invariant Holds(table, order, pf, adjs, ranked[..j])
    {
      assert ranked[..j + 1] == ranked[..j] + [ranked[j]];
      assert ranked[j] !in ranked[..j];
      table, order := VisitKey(table, order, pf, adjs, ranked[..j], ranked[j]);
    }
    assert ranked[..|ranked|] == ranked;
  }

  /** `list(top_100_pairs.values())`, in table order. */
  function Values(order: seq<Slot>, table: map<Slot, nat>): (r: seq<nat>)
    ensures |r| == |order|
    ensures forall i :: 0 <= i < |order| ==> r[i] == Weight(table, order[i])
  {
    seq(|order|, i requires 0 <= i < |order| => Weight(table, order[i]))
  }

  lemma ValuesCons(y: Slot, t: seq<Slot>, table: map<Slot, nat>)
    ensures Values([y] + t, table) == [Weight(table, y)] + Values(t, table)
  {
  }

  lemma {:induction false} ValuesInsert(x: Slot, s: seq<Slot>, table: map<Slot, nat>)
    ensures multiset(Values(Insert(x, s, table), table)) == multiset(Values(s, table)) + multiset{Weight(table, x)}
  {
    if s == [] {
    } else if Weight(table, x) >= Weight(table, s[0]) {
      ValuesCons(x, s, table);
    } else {
      var t := s[1..];
      ValuesInsert(x, t, table);
      ValuesCons(s[0], Insert(x, t, table), table);
      assert s == [s[0]] + t;
      ValuesCons(s[0], t, table);
    }
  }

  lemma {:induction false} ValuesSortDesc(s: seq<Slot>, table: map<Slot, nat>)
    ensures multiset(Values(SortDesc(s, table), table)) == multiset(Values(s, table))
  {
    if s != [] {
      ValuesSortDesc(s[1..], table);
      ValuesInsert(s[0], SortDesc(s[1..], table), table);
      assert Values(s, table) == [Weight(table, s[0])] + Values(s[1..], table);
    }
  }

  /** The values sorted in ascending order, as `np.percentile` sorts them. */
  function Ascending(order: seq<Slot>, table: map<Slot, nat>): (r: seq<nat>)
    ensures |r| == |order|
  {
    Reverse(Values(SortDesc(order, table), table))
  }

  /** The ascending values are sorted and are the table's values. */
  lemma AscendingSpec(order: seq<Slot>, table: map<Slot, nat>)
    ensures |Ascending(order, table)| == |order|
    ensures forall i, j :: 0 <= i <= j < |order| ==> Ascending(order, table)[i] <= Ascending(order, table)[j]
    ensures multiset(Ascending(order, table)) == multiset(Values(order, table))
  {
    var d := SortDesc(order, table);
    SortDescSpec(order, table);
    ValuesSortDesc(order, table);
    ReversePermutes(Values(d, table));
    var a := Ascending(order, table);
    forall i, j | 0 <= i <= j < |order| ensures a[i] <= a[j] {
      assert a[i] == Weight(table, d[|d| - 1 - i]);
      assert a[j] == Weight(table, d[|d| - 1 - j]);
    }
  }

  /** Four times `np.percentile(values, 25)` for 100 ascending values:
      linear interpolation at rank 0.25 * 99 = 24.75, between the 25th and
      26th smallest values. */
  function Percentile25Times4(asc: seq<nat>): (r: nat)
    requires |asc| == TopSize
    ensures r as real == 4.0 * (asc[24] as real + (asc[25] as real - asc[24] as real) * 0.75)
  {
    asc[24] + 3 * asc[25]
  }

  /** The integer comparison is numpy's real-valued one. */
  lemma PercentileMatchesNumpy(asc: seq<nat>, f: nat)
    requires |asc| == TopSize
    ensures 4 * f > Percentile25Times4(asc)
       <==> f as real > asc[24] as real + (asc[25] as real - asc[24] as real) * 0.75
  {
  }

  /** The entries of `order` whose frequency exceeds a quarter of `t4`, in order. */
  function Above(order: seq<Slot>, table: map<Slot, nat>, t4: nat): (r: seq<Slot>)
    ensures forall s :: s in r <==> s in order && 4 * Weight(table, s) > t4
  {
    if order == [] then []
    else
      var s := order[|order| - 1];
      Above(order[..|order| - 1], table, t4) + (if 4 * Weight(table, s) > t4 then [s] else [])
  }

  /** Lines 209-213: the table entries whose frequency is above the 25th
      percentile of the table's frequencies, in table order. */
  method DominantPairs(table: map<Slot, nat>, order: seq<Slot>) returns (dominant: seq<Slot>)
    requires Shape(table, order)
    ensures dominant == Above(order, table, Percentile25Times4(Ascending(order, table)))
  {
    AscendingSpec(order, table);
    var t4 := Percentile25Times4(Ascending(order, table));
    dominant := [];
    for i := 0 to |order|
      invariant dominant == Above(order[..i], table, t4)
    {
      assert order[..i + 1][..i] == order[..i];
      var key := order[i];
      assert key in table;
      if 4 * table[key] > t4 {
        dominant := dominant + [key];
      }
    }
    assert order[..|order|] == order;
  }

  /** The dominant entries are pair entries (a placeholder's 0 is never
      above a percentile of natural numbers); each is more frequent than
      the 25th smallest value, and every entry more frequent than the 26th
      smallest value is dominant. */
  lemma DominantSpec(table: map<Slot, nat>, order: seq<Slot>, pf: map<string, seq<Occurrence>>,
                     adjs: seq<string>, done: seq<string>)
    requires Holds(table, order, pf, adjs, done)
    ensures var asc := Ascending(order, table);
      var dominant := Above(order, table, Percentile25Times4(asc));
      && (forall s :: s in dominant <==> s in table && 4 * table[s] > Percentile25Times4(asc))
      && (forall s :: s in dominant ==> s.PairSlot? && table[s] > asc[24])
      && (forall s :: s in table && table[s] > asc[25] ==> s in dominant)
  {
    AscendingSpec(order, table);
  }
}
