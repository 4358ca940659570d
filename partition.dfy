/** The three-way split of the item ids (compositional_split_generation.py
    lines 143-166): every caption that contains a held-out pair records the
    pair, the items holding such captions form `test_unseen`, an equally
    large random `test_seen` is drawn from the rest, and the remaining ids
    form `train`. */
module Partition {
  import opened Wrappers
  import opened Collections
  import opened Frequency
  import Heldout

  /** The occurrences `os` of key `k`, as entries, in order. */
  function EntriesOf(k: string, os: seq<Occurrence>): seq<Entry> {
    if os == [] then [] else EntriesOf(k, os[..|os| - 1]) + [Entry(k, os[|os| - 1])]
  }

  /** The order in which lines 146-157 visit occurrences: held-out key by
      held-out key, each key's occurrences in order. */
  function HeldoutEntries(heldout: seq<string>, pf: map<string, seq<Occurrence>>): seq<Entry>
    requires forall k :: k in heldout ==> k in pf
  {
    if heldout == [] then []
    else
      var k := heldout[|heldout| - 1];
      HeldoutEntries(heldout[..|heldout| - 1], pf) + EntriesOf(k, pf[k])
  }

  /** `data_pkl[uid][caption_id]` exists for the entry's occurrence. */
  predicate Located(data: Records, e: Entry) {
    e.occ.uid in data && e.occ.captionId in data[e.occ.uid]
  }

  predicate AllLocated(data: Records, es: seq<Entry>) {
    forall i :: 0 <= i < |es| ==> Located(data, es[i])
  }

  /** Lines 154-157 for one occurrence: the key is appended to the caption's
      `heldout_pairs`, which is created when absent. An occurrence without a
      record (where Python raises `KeyError`) leaves the records alone; the
      methods below never meet one. */
  function Annotate(data: Records, e: Entry): Records {
    if !Located(data, e) then data
    else
      var u, c := e.occ.uid, e.occ.captionId;
      var rec := data[u][c];
      data[u := data[u][c := rec.(heldoutPairs := Some(rec.heldoutPairs.GetOr([]) + [e.key]))]]
  }

  /** Annotation keeps every item and caption id and touches one record:
      the key joins the end of that caption's `heldout_pairs`, and the
      record's other fields stay as they were. */
  lemma AnnotateSpec(data: Records, e: Entry)
    ensures var r := Annotate(data, e);
      && r.Keys == data.Keys
      && (forall u :: u in data ==> r[u].Keys == data[u].Keys)
      && (forall u, c :: u in data && c in data[u] && (u, c) != (e.occ.uid, e.occ.captionId) ==> r[u][c] == data[u][c])
      && (Located(data, e) ==>
            var rec, rec' := data[e.occ.uid][e.occ.captionId], r[e.occ.uid][e.occ.captionId];
            && rec'.heldoutPairs == Some(rec.heldoutPairs.GetOr([]) + [e.key])
            && rec'.text == rec.text && rec'.swappedText == rec.swappedText && rec'.changesMade == rec.changesMade)
  {
  }

  /** `data_pkl` after every entry of `es` has been annotated, in order. */
  function AnnotateAll(data: Records, es: seq<Entry>): Records {
    if es == [] then data else Annotate(AnnotateAll(data, es[..|es| - 1]), es[|es| - 1])
  }

  /** Annotation keeps every item and every caption id. */
  lemma {:induction false} AnnotateAllKeeps(data: Records, es: seq<Entry>, u: Uid)
    requires u in data
    ensures u in AnnotateAll(data, es) && AnnotateAll(data, es)[u].Keys == data[u].Keys
  {
    if es != [] {
      AnnotateAllKeeps(data, es[..|es| - 1], u);
    }
  }

  /** Annotation keeps the item ids. */
  lemma {:induction false} AnnotateAllDomain(data: Records, es: seq<Entry>)
    ensures AnnotateAll(data, es).Keys == data.Keys
  {
    if es != [] {
      AnnotateAllDomain(data, es[..|es| - 1]);
    }
  }

  /** The keys of the entries whose occurrence is caption `c` of item `u`. */
  function KeysAt(es: seq<Entry>, u: Uid, c: nat): seq<string> {
    if es == [] then []
    else
      var e := es[|es| - 1];
      KeysAt(es[..|es| - 1], u, c) + (if e.occ.uid == u && e.occ.captionId == c then [e.key] else [])
  }

  /** The item ids of the entries. */
  function UidsOf(es: seq<Entry>): set<Uid> {
    if es == [] then {} else UidsOf(es[..|es| - 1]) + {es[|es| - 1].occ.uid}
  }

  lemma {:induction false} UidsOfSpec(es: seq<Entry>, u: Uid)
    ensures u in UidsOf(es) <==> exists i :: 0 <= i < |es| && es[i].occ.uid == u
  {
    if es != [] {
      var es0 := es[..|es| - 1];
      UidsOfSpec(es0, u);
      if u in UidsOf(es0) {
        var i :| 0 <= i < |es0| && es0[i].occ.uid == u;
        assert es[i].occ.uid == u;
      }
      if i :| 0 <= i < |es| && es[i].occ.uid == u {
        if i < |es0| {
          assert es0[i].occ.uid == u;
        }
      }
    }
  }

  lemma {:induction false} KeysAtSpec(es: seq<Entry>, u: Uid, c: nat)
    ensures KeysAt(es, u, c) == [] <==>
      forall i :: 0 <= i < |es| ==> !(es[i].occ.uid == u && es[i].occ.captionId == c)
  {
    if es != [] {
      KeysAtSpec(es[..|es| - 1], u, c);
    }
  }

  /** Annotation leaves every record as it was except `heldout_pairs`, to
      which it appends, in visiting order, the keys found in that caption. */
  lemma {:induction false} AnnotateAllSpec(data: Records, es: seq<Entry>, u: Uid, c: nat)
    requires AllLocated(data, es)
    requires u in data && c in data[u]
    ensures u in AnnotateAll(data, es) && c in AnnotateAll(data, es)[u]
    ensures var old_ := data[u][c];
      AnnotateAll(data, es)[u][c] == old_.(heldoutPairs :=
        if KeysAt(es, u, c) == [] then old_.heldoutPairs
        else Some(old_.heldoutPairs.GetOr([]) + KeysAt(es, u, c)))
  {
    AnnotateAllKeeps(data, es, u);
    if es != [] {
      var es0, e := es[..|es| - 1], es[|es| - 1];
      assert AllLocated(data, es0);
      AnnotateAllSpec(data, es0, u, c);
      assert Located(data, e);
      var r0 := AnnotateAll(data, es0);
      AnnotateAllKeeps(data, es0, e.occ.uid);
      assert AnnotateAll(data, es) == Annotate(r0, e);
      if e.occ.uid == u && e.occ.captionId == c {
        var h := data[u][c].heldoutPairs.GetOr([]);
        var k0 := KeysAt(es0, u, c);
        assert KeysAt(es, u, c) == k0 + [e.key];
        assert r0[u][c].heldoutPairs.GetOr([]) == h + k0;
        assert h + k0 + [e.key] == h + KeysAt(es, u, c);
      } else {
        assert KeysAt(es, u, c) == KeysAt(es0, u, c);
      }
    }
  }

  /** A record that had no `heldout_pairs` ends up with exactly the keys
      found in its caption, or still none. */
  lemma AnnotatedFromNone(data: Records, es: seq<Entry>, u: Uid, c: nat)
    requires AllLocated(data, es)
    requires u in data && c in data[u] && data[u][c].heldoutPairs == None
    ensures u in AnnotateAll(data, es) && c in AnnotateAll(data, es)[u]
    ensures AnnotateAll(data, es)[u][c].heldoutPairs
         == if KeysAt(es, u, c) == [] then None else Some(KeysAt(es, u, c))
  {
    AnnotateAllSpec(data, es, u, c);
    assert [] + KeysAt(es, u, c) == KeysAt(es, u, c);
  }

  /** Starting from records without `heldout_pairs`, an item lands in
      `test_unseen` exactly when one of its captions was given a
      `heldout_pairs` list. */
  lemma UnseenIffAnnotated(data: Records, es: seq<Entry>, u: Uid)
    requires AllLocated(data, es)
    requires forall u', c :: u' in data && c in data[u'] ==> data[u'][c].heldoutPairs == None
    requires u in data
    ensures u in AnnotateAll(data, es)
    ensures u in UidsOf(es) <==>
      exists c :: c in AnnotateAll(data, es)[u] && AnnotateAll(data, es)[u][c].heldoutPairs.Some?
  {
    var r: Records := AnnotateAll(data, es);
    AnnotateAllKeeps(data, es, u);
    UidsOfSpec(es, u);
    if u in UidsOf(es) {
      var i :| 0 <= i < |es| && es[i].occ.uid == u;
      var c := es[i].occ.captionId;
      assert Located(data, es[i]);
      KeysAtSpec(es, u, c);
      AnnotatedFromNone(data, es, u, c);
      assert r[u][c].heldoutPairs.Some?;
    }
    if c :| c in r[u] && r[u][c].heldoutPairs.Some? {
      AnnotatedFromNone(data, es, u, c);
      KeysAtSpec(es, u, c);
      var i :| 0 <= i < |es| && es[i].occ.uid == u && es[i].occ.captionId == c;
    }
  }

  lemma AnnotateAllAppend(data: Records, es: seq<Entry>, e: Entry)
    requires AllLocated(data, es)
    requires Located(data, e)
    ensures AllLocated(data, es + [e])
    ensures Located(AnnotateAll(data, es), e)
    ensures AnnotateAll(data, es + [e]) == Annotate(AnnotateAll(data, es), e)
    ensures KeysAt(es + [e], e.occ.uid, e.occ.captionId) == KeysAt(es, e.occ.uid, e.occ.captionId) + [e.key]
    ensures UidsOf(es + [e]) == UidsOf(es) + {e.occ.uid}
  {
    assert (es + [e])[..|es|] == es;
    AnnotateAllKeeps(data, es, e.occ.uid);
  }

  lemma HeldoutEntriesStep(heldout: seq<string>, pf: map<string, seq<Occurrence>>, p: nat)
    requires p < |heldout|
    requires forall k :: k in heldout ==> k in pf
    ensures forall k :: k in heldout[..p] ==> k in pf
    ensures HeldoutEntries(heldout[..p + 1], pf)
         == HeldoutEntries(heldout[..p], pf) + EntriesOf(heldout[p], pf[heldout[p]])
  {
    assert heldout[..p + 1][..p] == heldout[..p];
  }

  lemma EntriesOfStep(k: string, os: seq<Occurrence>, q: nat)
    requires q < |os|
    ensures EntriesOf(k, os[..q + 1]) == EntriesOf(k, os[..q]) + [Entry(k, os[q])]
  {
    assert os[..q + 1][..q] == os[..q];
  }

  /** Annotates one caption record (lines 154-157). */
  method MarkCaption(data: Records, pair: string, o: Occurrence) returns (data': Records)
    requires Located(data, Entry(pair, o))
    ensures data' == Annotate(data, Entry(pair, o))
  {
    var uid, captionId := o.uid, o.captionId;
    var rec := data[uid][captionId];
    if rec.heldoutPairs.None? {
      assert [] + [pair] == [pair];
      rec := rec.(heldoutPairs := Some([pair]));
    } else {
      rec := rec.(heldoutPairs := Some(rec.heldoutPairs.value + [pair]));
    }
    data' := data[uid := data[uid][captionId := rec]];
  }

  /** One more occurrence of `pair` extends the annotated entries by one. */
  lemma MarkStep(data: Records, before: seq<Entry>, pair: string, occurrences: seq<Occurrence>, q: nat, es: seq<Entry>)
    requires q < |occurrences| && es == before + EntriesOf(pair, occurrences[..q])
    requires AllLocated(data, es) && Located(data, Entry(pair, occurrences[q]))
    ensures var e := Entry(pair, occurrences[q]);
      && es + [e] == before + EntriesOf(pair, occurrences[..q + 1])
      && AllLocated(data, es + [e])
      && Located(AnnotateAll(data, es), e)
      && AnnotateAll(data, es + [e]) == Annotate(AnnotateAll(data, es), e)
      && UidsOf(es + [e]) == UidsOf(es) + {occurrences[q].uid}
  {
    AnnotateAllAppend(data, es, Entry(pair, occurrences[q]));
    EntriesOfStep(pair, occurrences, q);
  }

  /** Lines 147-157 for one held-out key: every occurrence's item joins
      `test_unseen` and its caption is annotated. */
  method MarkOccurrences(data0: Records, unseen0: set<Uid>, pair: string, occurrences: seq<Occurrence>,
                         ghost data: Records, ghost before: seq<Entry>)
    returns (data': Records, testUnseen: set<Uid>)
    requires AllLocated(data, before)
    requires data0 == AnnotateAll(data, before) && unseen0 == UidsOf(before)
    requires forall o :: o in occurrences ==> o.uid in data && o.captionId in data[o.uid]
    ensures AllLocated(data, before + EntriesOf(pair, occurrences))
    ensures data' == AnnotateAll(data, before + EntriesOf(pair, occurrences))
    ensures testUnseen == UidsOf(before + EntriesOf(pair, occurrences))
  {
    data', testUnseen := data0, unseen0;
    ghost var es := before;
    var q := 0;
    while q < |occurrences|
      invariant q <= |occurrences|
      invariant es == before + EntriesOf(pair, occurrences[..q])
      invariant AllLocated(data, es)
      invariant data' == AnnotateAll(data, es)
      invariant testUnseen == UidsOf(es)
    {
      var o := occurrences[q];
      testUnseen := testUnseen + {o.uid};
      assert o in occurrences;
      MarkStep(data, before, pair, occurrences, q, es);
      data' := MarkCaption(data', pair, o);
      es := es + [Entry(pair, o)];
      q := q + 1;
    }
    assert occurrences[..q] == occurrences;
  }

  /** Lines 143-157: collects `test_unseen` and annotates the captions that
      hold a held-out pair. Python raises `KeyError` when an occurrence's
      caption has no record; the frequency pass never produces one. */
  method MarkHeldout(data: Records, pf: map<string, seq<Occurrence>>, heldout: seq<string>)
    returns (data': Records, testUnseen: set<Uid>)
    requires forall k :: k in heldout ==> k in pf
    requires forall k, o :: k in heldout && o in pf[k] ==> o.uid in data && o.captionId in data[o.uid]
    ensures AllLocated(data, HeldoutEntries(heldout, pf))
    ensures data' == AnnotateAll(data, HeldoutEntries(heldout, pf))
    ensures testUnseen == UidsOf(HeldoutEntries(heldout, pf))
  {
    data' := data;
    testUnseen := {};
    var p := 0;
    while p < |heldout|
      invariant p <= |heldout|
      invariant AllLocated(data, HeldoutEntries(heldout[..p], pf))
      invariant data' == AnnotateAll(data, HeldoutEntries(heldout[..p], pf))
      invariant testUnseen == UidsOf(HeldoutEntries(heldout[..p], pf))
    {
      var pair := heldout[p];
      HeldoutEntriesStep(heldout, pf, p);
      data', testUnseen := MarkOccurrences(data', testUnseen, pair, pf[pair], data, HeldoutEntries(heldout[..p], pf));
      p := p + 1;
    }
    assert heldout[..p] == heldout;
  }

  datatype SplitError = NotEnoughSeenItems

  /** `split_pkl` (lines 168-173); the lists of the source are unordered sets. */
  datatype DataSplit = DataSplit(train: set<Uid>, testSeen: set<Uid>, testUnseen: set<Uid>, heldoutPairs: set<string>)

  /** Lines 159-166: `test_seen` is drawn among the items not in
      `test_unseen`, as many as `test_unseen` holds (`random.sample` raises
      `ValueError` when there are too few), and `train` is what is left. */
  method SplitUids(all: set<Uid>, testUnseen: set<Uid>, heldout: seq<string>) returns (r: Result<DataSplit, SplitError>)
    ensures r.Err? <==> |testUnseen| > |all - testUnseen|
    ensures r.Ok? ==> r.value.testUnseen == testUnseen
    ensures r.Ok? ==> r.value.testSeen <= all - testUnseen
    ensures r.Ok? ==> |r.value.testSeen| == |testUnseen|
    ensures r.Ok? ==> r.value.train !! r.value.testSeen && r.value.train !! testUnseen
    ensures r.Ok? ==> r.value.train + r.value.testSeen + (testUnseen * all) == all
    ensures r.Ok? ==> forall k :: k in r.value.heldoutPairs <==> k in heldout
  {
    var seenPool := all - testUnseen;
    var population := SetToSeq(seenPool);
    if |testUnseen| > |population| {
      return Err(NotEnoughSeenItems);
    }
    var drawn := Heldout.Sample(population, |testUnseen|);
    SubMultisetDistinct(drawn, population);
    DistinctCardinality(drawn);
    var testSeen := set x | x in drawn;
    var train := all - testSeen;
    train := train - testUnseen;
    r := Ok(DataSplit(train, testSeen, testUnseen, set k | k in heldout));
  }
}
