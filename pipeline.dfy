/** The whole of `main()` (compositional_split_generation.py lines 88-292)
    as one run over an in-memory corpus: frequency pass, held-out pairs,
    three-way split, dominant pairs and caption swapping. */
module Pipeline {
  import opened Wrappers
  import opened Text
  import opened Collections
  import opened Pairs
  import opened Frequency
  import opened Heldout
  import opened Partition
  import opened Dominant
  import opened Swap

  /** Why a run stops early, with what the run had computed by then. */
  datatype Failure =
    | MissingCaption(uid: Uid)
    | SplitFailed(splitError: SplitError, heldout: seq<string>)
    | SwapFailed(swapError: SwapError, heldout: seq<string>, split: DataSplit, dominant: seq<Slot>)

  /** `split_pkl`, the final `data_pkl`, the held-out pairs and
      `top_100_above_25th`. */
  datatype Output = Output(split: DataSplit, data: Records, heldout: seq<string>, dominant: seq<Slot>)

  /** The pair-key order of the frequency pass lists each pair key once. */
  lemma PairOrderFacts(corpus: seq<Item>, tag: Tagger, idx: FrequencyIndex)
    requires HasCaptions(corpus)
    requires idx == IndexOf(CorpusEntries(corpus, tag))
    ensures Distinct(idx.pairOrder)
    ensures forall k :: k in idx.pairOrder <==> k in idx.pairFreq
  {
    var es := CorpusEntries(corpus, tag);
    IndexOfDescribes(es);
    FirstSeenSpec(Keys(es));
  }

  /** Every occurrence of a held-out key points at a caption record. */
  lemma HeldoutLocated(corpus: seq<Item>, tag: Tagger, idx: FrequencyIndex, data: Records, heldout: seq<string>)
    requires HasCaptions(corpus)
    requires idx == IndexOf(CorpusEntries(corpus, tag)) && data == InitialRecords(corpus)
    requires forall k :: k in heldout ==> k in idx.pairFreq
    ensures forall k, o :: k in heldout && o in idx.pairFreq[k] ==> o.uid in data && o.captionId in data[o.uid]
  {
    forall k, o | k in heldout && o in idx.pairFreq[k]
      ensures o.uid in data && o.captionId in data[o.uid]
    {
      OccurrencesHaveRecords(corpus, tag, k, o);
    }
  }

  /** The items whose captions hold a held-out pair are items of the corpus. */
  lemma UnseenAreItems(data: Records, es: seq<Entry>)
    requires AllLocated(data, es)
    ensures UidsOf(es) <= data.Keys
  {
    forall u | u in UidsOf(es) ensures u in data {
      UidsOfSpec(es, u);
      var i :| 0 <= i < |es| && es[i].occ.uid == u;
      assert Located(data, es[i]);
    }
  }

  /** Lines 88-131: the frequency pass, whose pair-key order lists each key once. */
  method IndexStage(corpus: seq<Item>, tag: Tagger) returns (idx: FrequencyIndex, initial: Records)
    requires WellFormed(corpus)
    ensures idx == IndexOf(CorpusEntries(corpus, tag)) && initial == InitialRecords(corpus)
    ensures Distinct(idx.pairOrder)
    ensures forall k :: k in idx.pairOrder <==> k in idx.pairFreq
  {
    idx, initial := BuildIndex(corpus, tag);
    PairOrderFacts(corpus, tag, idx);
  }

  /** Lines 133-138: a tenth of the pair keys, each drawn once from the
      middle band of the ranking, so each is a counted pair key. */
  predicate HeldoutDrawn(idx: FrequencyIndex, heldout: seq<string>) {
    && |heldout| == |idx.pairOrder| / 10
    && Distinct(heldout)
    && (forall k :: k in heldout ==> k in Band(RankPairs(idx)) && k in idx.pairFreq)
  }

  /** `data_pkl` once lines 143-157 have marked the held-out occurrences. */
  ghost function Marked(corpus: seq<Item>, tag: Tagger, heldout: seq<string>): Records
    requires HasCaptions(corpus)
    requires forall k :: k in heldout ==> k in IndexOf(CorpusEntries(corpus, tag)).pairFreq
  {
    AnnotateAll(InitialRecords(corpus), HeldoutEntries(heldout, IndexOf(CorpusEntries(corpus, tag)).pairFreq))
  }

  /** `test_unseen`: the items with a caption holding a held-out pair. */
  ghost function Unseen(corpus: seq<Item>, tag: Tagger, heldout: seq<string>): set<Uid>
    requires HasCaptions(corpus)
    requires forall k :: k in heldout ==> k in IndexOf(CorpusEntries(corpus, tag)).pairFreq
  {
    UidsOf(HeldoutEntries(heldout, IndexOf(CorpusEntries(corpus, tag)).pairFreq))
  }

  /** `split_pkl` (lines 159-173): the unseen items, as many seen test
      items, and every other item for training. */
  ghost predicate Partitioned(all: set<Uid>, unseen: set<Uid>, heldout: seq<string>, s: DataSplit) {
    && s.testUnseen == unseen
    && s.train + s.testSeen + s.testUnseen == all
    && s.train !! s.testSeen && s.train !! s.testUnseen && s.testSeen !! s.testUnseen
    && |s.testSeen| == |s.testUnseen|
    && (forall k :: k in s.heldoutPairs <==> k in heldout)
  }

  /** `top_100_above_25th` (lines 180-213): the entries above the 25th
      percentile of a top-100 table filled from the ranked pair keys. */
  ghost predicate Dominates(idx: FrequencyIndex, colors: set<string>, shapes: set<string>, dominant: seq<Slot>) {
    exists table, order ::
      && Holds(table, order, idx.pairFreq, TopAdjs(idx, colors, shapes), RankPairs(idx))
      && dominant == Above(order, table, Percentile25Times4(Ascending(order, table)))
  }

  /** What `SplitUids` promises is a partition of all the items once the
      unseen items are among them. */
  lemma SplitPartitioned(all: set<Uid>, unseen: set<Uid>, heldout: seq<string>, s: DataSplit)
    requires unseen <= all
    requires s.testUnseen == unseen && s.testSeen <= all - unseen && |s.testSeen| == |unseen|
    requires s.train !! s.testSeen && s.train !! unseen
    requires s.train + s.testSeen + (unseen * all) == all
    requires forall k :: k in s.heldoutPairs <==> k in heldout
    ensures Partitioned(all, unseen, heldout, s)
  {
    assert unseen * all == unseen;
  }

  /** Lines 88-138: the frequency pass, then the held-out pairs drawn from
      the middle band of the ranked pair keys. */
  method HeldoutStage(corpus: seq<Item>, tag: Tagger)
    returns (idx: FrequencyIndex, initial: Records, ranked: seq<string>, heldout: seq<string>)
    requires WellFormed(corpus)
    ensures idx == IndexOf(CorpusEntries(corpus, tag)) && initial == InitialRecords(corpus)
    ensures ranked == RankPairs(idx) && Distinct(ranked)
    ensures forall k :: k in ranked <==> k in idx.pairFreq
    ensures HeldoutDrawn(idx, heldout)
  {
    idx, initial := IndexStage(corpus, tag);
    ranked, heldout := SelectHeldout(idx);
    RankPairsSpec(idx);
    assert forall k :: k in heldout ==> k in Band(ranked) && k in ranked;
  }

  /** Lines 143-157: the captions holding a held-out pair are marked, and
      their items become the unseen test items. */
  method MarkStage(corpus: seq<Item>, tag: Tagger, idx: FrequencyIndex, initial: Records, heldout: seq<string>)
    returns (data: Records, testUnseen: set<Uid>)
    requires HasCaptions(corpus)
    requires idx == IndexOf(CorpusEntries(corpus, tag)) && initial == InitialRecords(corpus)
    requires forall k :: k in heldout ==> k in idx.pairFreq
    ensures data == AnnotateAll(initial, HeldoutEntries(heldout, idx.pairFreq))
    ensures testUnseen == UidsOf(HeldoutEntries(heldout, idx.pairFreq))
    ensures data.Keys == Uids(corpus) && testUnseen <= Uids(corpus)
  {
    HeldoutLocated(corpus, tag, idx, initial, heldout);
    InitialRecordsDomain(corpus);
    data, testUnseen := MarkHeldout(initial, idx.pairFreq, heldout);
    UnseenAreItems(initial, HeldoutEntries(heldout, idx.pairFreq));
    AnnotateAllDomain(initial, HeldoutEntries(heldout, idx.pairFreq));
  }

  /** Lines 88-173: everything up to `split_pkl`. The unseen items are the
      items with a held-out pair; the seen test items are as many others,
      and there are too few others exactly when the split fails. */
  method SplitStage(corpus: seq<Item>, tag: Tagger)
    returns (idx: FrequencyIndex, ranked: seq<string>, heldout: seq<string>, data: Records,
             split: Result<DataSplit, SplitError>)
    requires WellFormed(corpus)
    ensures idx == IndexOf(CorpusEntries(corpus, tag))
    ensures ranked == RankPairs(idx) && Distinct(ranked)
    ensures forall k :: k in ranked <==> k in idx.pairFreq
    ensures HeldoutDrawn(idx, heldout)
    ensures data == Marked(corpus, tag, heldout) && data.Keys == Uids(corpus)
    ensures split.Err? <==> |Unseen(corpus, tag, heldout)| > |Uids(corpus) - Unseen(corpus, tag, heldout)|
    ensures split.Ok? ==> Partitioned(Uids(corpus), Unseen(corpus, tag, heldout), heldout, split.value)
  {
    var initial, testUnseen;
    idx, initial, ranked, heldout := HeldoutStage(corpus, tag);
    data, testUnseen := MarkStage(corpus, tag, idx, initial, heldout);
    split := SplitUids(Uids(corpus), testUnseen, heldout);
    if split.Ok? {
      SplitPartitioned(Uids(corpus), testUnseen, heldout, split.value);
    }
  }

  /** Lines 180-213: the top-100 table over the eligible pairs and the pairs
      above its 25th percentile. */
  method DominantStage(idx: FrequencyIndex, ranked: seq<string>, colors: set<string>, shapes: set<string>)
    returns (dominant: seq<Slot>, ghost table: map<Slot, nat>, ghost order: seq<Slot>)
    requires Distinct(ranked)
    requires forall k :: k in ranked ==> k in idx.pairFreq
    ensures Holds(table, order, idx.pairFreq, TopAdjs(idx, colors, shapes), ranked)
    ensures dominant == Above(order, table, Percentile25Times4(Ascending(order, table)))
    ensures forall s :: s in dominant ==> s.PairSlot? && s.key in ranked
  {
    var adjs := TopAdjs(idx, colors, shapes);
    var table', order' := BuildTopTable(ranked, idx.pairFreq, adjs);
    dominant := DominantPairs(table', order');
    DominantSpec(table', order', idx.pairFreq, adjs, ranked);
    table, order := table', order';
  }

  /** Lines 88-292. An item without captions stops the run at line 92; too
      few seen items stop it at line 160; a seen test caption that cannot be
      swapped stops it at line 253, 271 or 283. */
  method Generate(corpus: seq<Item>, tag: Tagger, colors: set<string>, shapes: set<string>)
    returns (r: Result<Output, Failure>)
    requires DistinctUids(corpus)
    ensures r.Err? && r.error.MissingCaption? <==> !HasCaptions(corpus)
    ensures r.Err? && r.error.MissingCaption? ==>
      exists j :: 0 <= j < |corpus| && corpus[j].uid == r.error.uid && corpus[j].captions == []
    ensures r.Err? && r.error.SplitFailed? ==>
      && HasCaptions(corpus)
      && HeldoutDrawn(IndexOf(CorpusEntries(corpus, tag)), r.error.heldout)
      && |Unseen(corpus, tag, r.error.heldout)| > |Uids(corpus) - Unseen(corpus, tag, r.error.heldout)|
    ensures r.Err? && r.error.SwapFailed? ==>
      && HasCaptions(corpus)
      && HeldoutDrawn(IndexOf(CorpusEntries(corpus, tag)), r.error.heldout)
      && Partitioned(Uids(corpus), Unseen(corpus, tag, r.error.heldout), r.error.heldout, r.error.split)
      && Dominates(IndexOf(CorpusEntries(corpus, tag)), colors, shapes, r.error.dominant)
      && var before := Marked(corpus, tag, r.error.heldout);
         exists u, c :: u in r.error.split.testSeen && u in before && c in before[u] &&
           SwapOutcome(before[u][c], tag(before[u][c].text), HeldoutAdjs(r.error.heldout),
                       r.error.dominant, Err(r.error.swapError))
    ensures r.Ok? ==>
      && HasCaptions(corpus)
      && HeldoutDrawn(IndexOf(CorpusEntries(corpus, tag)), r.value.heldout)
      && Partitioned(Uids(corpus), Unseen(corpus, tag, r.value.heldout), r.value.heldout, r.value.split)
      && Dominates(IndexOf(CorpusEntries(corpus, tag)), colors, shapes, r.value.dominant)
    ensures r.Ok? ==>
      var before := Marked(corpus, tag, r.value.heldout);
      && SameShape(r.value.data, before)
      && forall u, c :: u in before && c in before[u] ==>
           if u in r.value.split.testSeen
           then SwapOutcome(before[u][c], tag(before[u][c].text), HeldoutAdjs(r.value.heldout),
                            r.value.dominant, Ok(r.value.data[u][c]))
           else r.value.data[u][c] == before[u][c]
  {
    var missing := FirstUncaptioned(corpus);
    if missing.Some? {
      return Err(MissingCaption(corpus[missing.value].uid));
    }
    var idx, ranked, heldout, data, split := SplitStage(corpus, tag);
    if split.Err? {
      return Err(SplitFailed(split.error, heldout));
    }
    var dominant, table, order := DominantStage(idx, ranked, colors, shapes);
    assert Holds(table, order, idx.pairFreq, TopAdjs(idx, colors, shapes), RankPairs(idx));
    var swapped := SwapTestSeen(data, split.value.testSeen, tag, HeldoutAdjs(heldout), dominant);
    if swapped.Err? {
      return Err(SwapFailed(swapped.error, heldout, split.value, dominant));
    }
    r := Ok(Output(split.value, swapped.value, heldout, dominant));
  }

  /** Line 227 as written tags `caption`, the variable the frequency pass
      left behind: the first caption of the last item. Every seen test
      caption is then swapped by the pairs of that one caption. Without
      items there is no seen test caption to tag. */
  function StaleTokens(corpus: seq<Item>, tag: Tagger): (r: string -> seq<Token>)
    requires HasCaptions(corpus)
    ensures corpus != [] ==> forall t :: r(t) == tag(corpus[|corpus| - 1].captions[0])
  {
    if corpus == [] then t => []
    else t => tag(corpus[|corpus| - 1].captions[0])
  }

  /** A two-word tagger: "red chair" is an adjective and a noun, every other
      caption one noun. */
  function DemoTag(caption: string): seq<Token> {
    if caption == "red chair" then [Token("red", "ADJ", "red"), Token("chair", "NOUN", "chair")]
    else [Token(caption, "NOUN", caption)]
  }

  /** The demo tagger finds the one pair of "red chair". */
  lemma RedChairPairs()
    ensures ExtractPairs(DemoTag("red chair")) == [Pair("red_chair", "red", "chair")]
  {
    var own := DemoTag("red chair");
    assert StartsPair(own, 0) && !StartsPair(own, 1);
    assert PairsBefore(own, 1) == [PairAt(own, 0)];
    assert PairsBefore(own, 2) == PairsBefore(own, 1);
    assert Lower("red") == "red";
    assert PairKey(own[0], own[1]) == "red_chair";
  }

  /** The adjective and the noun of the key "red_chair". */
  lemma RedChairFields()
    ensures Head("red_chair", '_') == "red" && LastField("red_chair", '_') == "chair"
  {
    assert "red_chair" == "red" + ['_'] + "chair";
    SplitHead("red", "chair", '_');
    SplitNoSeparator("chair", '_');
  }

  /** No "red" occurs in " chair": every character is copied. */
  lemma ChairUnchanged()
    ensures Replace(" chair", "red", "blue") == " chair"
  {
    var o, n := "red", "blue";
    var t0 := "ir";
    var t1 := ['a'] + t0;
    var t2 := ['h'] + t1;
    var t3 := ['c'] + t2;
    assert Replace(t0, o, n) == t0;
    ReplaceSkip('a', t0, o, n);
    ReplaceSkip('h', t1, o, n);
    ReplaceSkip('c', t2, o, n);
    ReplaceSkip(' ', t3, o, n);
    assert [' '] + t3 == " chair";
  }

  /** `"red chair".replace("red", "blue")`. */
  lemma RedChairReplace()
    ensures Replace("red chair", "red", "blue") == "blue chair"
  {
    var o, n, rest := "red", "blue", " chair";
    ChairUnchanged();
    assert "red chair" == o + rest;
    assert Replace(o + rest, o, n) == n + rest by {
      assert (o + rest)[..|o|] == o && (o + rest)[|o|..] == rest;
    }
    assert n + rest == "blue chair";
  }

  /** With items "a": "red chair" and "b": "box", the seen test caption
      "red chair" of "a" is tagged as "box" by line 227 as written, so it
      is left unswapped. */
  lemma StaleCaptionCounterexample(r: Result<CaptionRecord, SwapError>)
    requires var rec := CaptionRecord("red chair", None, None, None);
      SwapOutcome(rec, StaleTokens([Item("a", ["red chair"]), Item("b", ["box"])], DemoTag)(rec.text), ["blue"], [], r)
    ensures r == Ok(CaptionRecord("red chair", None, Some("red chair"), Some(Changes("none", "none", "none"))))
  {
    var corpus := [Item("a", ["red chair"]), Item("b", ["box"])];
    var stale := DemoTag("box");
    assert StaleTokens(corpus, DemoTag)("red chair") == stale;
    assert PairsBefore(stale, 0) == [];
    assert ExtractPairs(stale) == [];
  }

  /** Tagging the caption's own text instead swaps "red" for the held-out
      "blue". */
  lemma OwnCaptionSwapped(r: Result<CaptionRecord, SwapError>)
    requires var rec := CaptionRecord("red chair", None, None, None);
      SwapOutcome(rec, DemoTag(rec.text), ["blue"], [], r)
    ensures r == Ok(CaptionRecord("red chair", None, Some("blue chair"), Some(Changes("chair", "red", "blue"))))
  {
    RedChairPairs();
    RedChairFields();
    RedChairReplace();
    var rec := CaptionRecord("red chair", None, None, None);
    assert Lower("red") == "red" && "blue" != "red";
    SingleHeldoutSwap(rec, DemoTag(rec.text), "blue", [], r);
  }
}
