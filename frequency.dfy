/** The frequency pass over the corpus (compositional_split_generation.py
    lines 88-131): every item's first caption is tagged, its adjacent
    adjective -> noun pairs are extracted, and two dictionaries are filled,
    `adj_nn_freq` (pair key -> occurrences) and `adj_freq` (lower-cased
    adjective -> count); `data_pkl` gets one caption record per item. */
module Frequency {
  import opened Wrappers
  import opened Text
  import opened Collections
  import opened Pairs

  type Uid = string

  /** The part-of-speech tagger, an external collaborator. */
  type Tagger = string -> seq<Token>

  /** One item of the caption corpus. */
  datatype Item = Item(uid: Uid, captions: seq<string>)

  /** Where a pair was seen, with the surface text of both tokens. */
  datatype Occurrence = Occurrence(uid: Uid, captionId: nat, adj: string, nn: string)

  /** An occurrence together with the key of its pair. */
  datatype Entry = Entry(key: string, occ: Occurrence)

  /** The `changes_made` field of a caption record. */
  datatype Changes = Changes(noun: string, originalAdj: string, newAdj: string)

  /** One caption of `data_pkl`; an absent dictionary key is `None`. */
  datatype CaptionRecord = CaptionRecord(
    text: string,
    heldoutPairs: Option<seq<string>>,
    swappedText: Option<string>,
    changesMade: Option<Changes>)

  /** `data_pkl`: item id -> caption id -> record. */
  type Records = map<Uid, map<nat, CaptionRecord>>

  /** The two frequency dictionaries, each with its insertion order. */
  datatype FrequencyIndex = FrequencyIndex(
    pairFreq: map<string, seq<Occurrence>>,
    pairOrder: seq<string>,
    adjFreq: map<string, nat>,
    adjOrder: seq<string>)

  /** The corpus is a dictionary: its ids are distinct. */
  predicate DistinctUids(corpus: seq<Item>) {
    forall j, k :: 0 <= j < k < |corpus| ==> corpus[j].uid != corpus[k].uid
  }

  /** Every item has a first caption, so `model_data[0]` (line 92) does not
      raise. */
  predicate HasCaptions(corpus: seq<Item>) {
    forall j :: 0 <= j < |corpus| ==> |corpus[j].captions| > 0
  }

  predicate WellFormed(corpus: seq<Item>) {
    HasCaptions(corpus) && DistinctUids(corpus)
  }

  /** Lines 88-92: the pass over the items stops with an `IndexError` at the
      first item without captions; `None` when every item has one. */
  method FirstUncaptioned(corpus: seq<Item>) returns (r: Option<nat>)
    ensures r.None? <==> HasCaptions(corpus)
    ensures r.Some? ==>
      && r.value < |corpus| && corpus[r.value].captions == []
      && HasCaptions(corpus[..r.value])
  {
    var j := 0;
    while j < |corpus|
      invariant j <= |corpus|
      invariant HasCaptions(corpus[..j])
    {
      if corpus[j].captions == [] {
        return Some(j);
      }
      assert corpus[..j + 1] == corpus[..j] + [corpus[j]];
      j := j + 1;
    }
    assert corpus[..j] == corpus;
    return None;
  }

  function Uids(corpus: seq<Item>): set<Uid> {
    set j | 0 <= j < |corpus| :: corpus[j].uid
  }

  /** The entries contributed by the pairs `ps` of caption `cid` of `uid`. */
  function Tagged(uid: Uid, cid: nat, ps: seq<Pair>): seq<Entry> {
    if ps == [] then []
    else
      var p := ps[|ps| - 1];
      Tagged(uid, cid, ps[..|ps| - 1]) + [Entry(p.key, Occurrence(uid, cid, p.adj, p.noun))]
  }

  /** Every pair of every item's first caption, in processing order. */
  function CorpusEntries(corpus: seq<Item>, tag: Tagger): seq<Entry>
    requires HasCaptions(corpus)
  {
    if corpus == [] then []
    else
      var it := corpus[|corpus| - 1];
      CorpusEntries(corpus[..|corpus| - 1], tag) + Tagged(it.uid, 0, ExtractPairs(tag(it.captions[0])))
  }

  /** `data_pkl` after the frequency pass: one record, caption id 0, per item. */
  function InitialRecords(corpus: seq<Item>): Records
    requires HasCaptions(corpus)
  {
    if corpus == [] then map[]
    else
      var it := corpus[|corpus| - 1];
      InitialRecords(corpus[..|corpus| - 1])[it.uid := map[0 := CaptionRecord(it.captions[0], None, None, None)]]
  }

  function Keys(es: seq<Entry>): (r: seq<string>)
    ensures |r| == |es|
  {
    if es == [] then [] else Keys(es[..|es| - 1]) + [es[|es| - 1].key]
  }

  /** The lower-cased adjective of each entry. */
  function Adjs(es: seq<Entry>): (r: seq<string>)
    ensures |r| == |es|
  {
    if es == [] then [] else Adjs(es[..|es| - 1]) + [Lower(es[|es| - 1].occ.adj)]
  }

  /** The occurrences of pair `k`, in processing order. */
  function OccurrencesOf(es: seq<Entry>, k: string): seq<Occurrence> {
    if es == [] then []
    else OccurrencesOf(es[..|es| - 1], k) + (if es[|es| - 1].key == k then [es[|es| - 1].occ] else [])
  }

  /** A counting dictionary with its key order holds the count of every
      label of `s`, and nothing else. */
  ghost predicate CountsOf(m: map<string, nat>, order: seq<string>, s: seq<string>) {
    && (forall a :: a in m <==> a in s)
    && (forall a :: a in m ==> m[a] == Count(s, a))
    && order == FirstSeen(s)
  }

  /** The occurrence dictionary with its key order holds, for every pair
      key of `es`, the occurrences of that pair, and nothing else. */
  ghost predicate OccurrencesIndexed(pf: map<string, seq<Occurrence>>, order: seq<string>, es: seq<Entry>) {
    && (forall k :: k in pf <==> k in Keys(es))
    && (forall k :: k in pf ==> pf[k] == OccurrencesOf(es, k))
    && order == FirstSeen(Keys(es))
  }

  /** The index records exactly the entries `es`. */
  ghost predicate Describes(idx: FrequencyIndex, es: seq<Entry>) {
    && OccurrencesIndexed(idx.pairFreq, idx.pairOrder, es)
    && CountsOf(idx.adjFreq, idx.adjOrder, Adjs(es))
  }

  lemma {:induction false} OccurrencesEmpty(es: seq<Entry>, k: string)
    requires k !in Keys(es)
    ensures OccurrencesOf(es, k) == []
  {
    if es != [] {
      var init := es[..|es| - 1];
      assert Keys(es) == Keys(init) + [es[|es| - 1].key];
      OccurrencesEmpty(init, k);
    }
  }

  lemma CountsOfStep(m: map<string, nat>, order: seq<string>, s: seq<string>, x: string)
    requires CountsOf(m, order, s)
    ensures CountsOf(if x in m then m[x := m[x] + 1] else m[x := 1],
                     if x in m then order else order + [x], s + [x])
  {
    FirstSeenSpec(s);
    assert (s + [x])[..|s|] == s;
  }

  /** Counting one more adjective, as lines 113-116 do. */
  lemma AdjStep(af: map<string, nat>, order: seq<string>, es: seq<Entry>, e: Entry)
    requires CountsOf(af, order, Adjs(es))
    ensures var a := Lower(e.occ.adj);
      CountsOf(if a in af then af[a := af[a] + 1] else af[a := 1],
               if a in af then order else order + [a], Adjs(es + [e]))
  {
    var es' := es + [e];
    assert es'[..|es|] == es;
    assert Adjs(es') == Adjs(es) + [Lower(e.occ.adj)];
    CountsOfStep(af, order, Adjs(es), Lower(e.occ.adj));
  }

  lemma KeysAppend(es: seq<Entry>, e: Entry)
    ensures Keys(es + [e]) == Keys(es) + [e.key]
  {
    assert (es + [e])[..|es|] == es;
  }

  lemma OccurrencesAppend(es: seq<Entry>, e: Entry, k: string)
    ensures OccurrencesOf(es + [e], k) == OccurrencesOf(es, k) + (if e.key == k then [e.occ] else [])
  {
    assert (es + [e])[..|es|] == es;
  }

  lemma PairKeysStep(pf: map<string, seq<Occurrence>>, es: seq<Entry>, e: Entry, v: seq<Occurrence>)
    requires forall k :: k in pf <==> k in Keys(es)
    ensures forall k :: k in pf[e.key := v] <==> k in Keys(es + [e])
  {
    KeysAppend(es, e);
  }

  lemma PairOccurrencesStep(pf: map<string, seq<Occurrence>>, es: seq<Entry>, e: Entry)
    requires forall k :: k in pf <==> k in Keys(es)
    requires forall k :: k in pf ==> pf[k] == OccurrencesOf(es, k)
    ensures var pf' := if e.key in pf then pf[e.key := pf[e.key] + [e.occ]] else pf[e.key := [e.occ]];
      forall k :: k in pf' ==> pf'[k] == OccurrencesOf(es + [e], k)
  {
    var pf' := if e.key in pf then pf[e.key := pf[e.key] + [e.occ]] else pf[e.key := [e.occ]];
    forall k | k in pf' ensures pf'[k] == OccurrencesOf(es + [e], k) {
      OccurrencesAppend(es, e, k);
      if k == e.key && e.key !in pf {
        OccurrencesEmpty(es, k);
      }
    }
  }

  /** Appending one more occurrence to its pair's list, as lines 121-131 do. */
  lemma PairStep(pf: map<string, seq<Occurrence>>, order: seq<string>, es: seq<Entry>, e: Entry)
    requires OccurrencesIndexed(pf, order, es)
    ensures OccurrencesIndexed(if e.key in pf then pf[e.key := pf[e.key] + [e.occ]] else pf[e.key := [e.occ]],
                               if e.key in pf then order else order + [e.key], es + [e])
  {
    KeysAppend(es, e);
    FirstSeenAppend(Keys(es), e.key);
    PairKeysStep(pf, es, e, if e.key in pf then pf[e.key] + [e.occ] else [e.occ]);
    PairOccurrencesStep(pf, es, e);
  }

  /** Looking at token `i` adds the entry of the pair it starts, if any. */
  lemma ScanStep(before: seq<Entry>, uid: Uid, cid: nat, doc: seq<Token>, i: nat)
    requires i < |doc|
    ensures before + Tagged(uid, cid, PairsBefore(doc, i + 1))
         == before + Tagged(uid, cid, PairsBefore(doc, i)) +
            (if StartsPair(doc, i)
             then [Entry(PairKey(doc[i], doc[i + 1]), Occurrence(uid, cid, doc[i].text, doc[i + 1].text))]
             else [])
  {
    var ps := PairsBefore(doc, i);
    if StartsPair(doc, i) {
      var p := PairAt(doc, i);
      assert PairsBefore(doc, i + 1) == ps + [p];
      assert (ps + [p])[..|ps|] == ps;
      var x := Entry(p.key, Occurrence(uid, cid, p.adj, p.noun));
      assert Tagged(uid, cid, ps + [p]) == Tagged(uid, cid, ps) + [x];
      assert before + (Tagged(uid, cid, ps) + [x]) == before + Tagged(uid, cid, ps) + [x];
    } else {
      assert PairsBefore(doc, i + 1) == ps;
    }
  }

  lemma InitialRecordsDomain(corpus: seq<Item>)
    requires HasCaptions(corpus)
    ensures InitialRecords(corpus).Keys == Uids(corpus)
  {
    if corpus != [] {
      var init := corpus[..|corpus| - 1];
      InitialRecordsDomain(init);
      assert Uids(corpus) == Uids(init) + {corpus[|corpus| - 1].uid};
    }
  }

  /** The first `j` items, still a well-formed corpus. */
  function Prefix(corpus: seq<Item>, j: nat): (r: seq<Item>)
    requires HasCaptions(corpus) && j <= |corpus|
    ensures HasCaptions(r) && r == corpus[..j]
  {
    corpus[..j]
  }

  /** Processing item `j` extends the entries by the pairs of its first
      caption and adds its one record, under a fresh id. */
  lemma PrefixStep(corpus: seq<Item>, j: nat, tag: Tagger)
    requires WellFormed(corpus) && j < |corpus|
    ensures corpus[j].uid !in InitialRecords(Prefix(corpus, j))
    ensures CorpusEntries(Prefix(corpus, j + 1), tag)
         == CorpusEntries(Prefix(corpus, j), tag) + Tagged(corpus[j].uid, 0, ExtractPairs(tag(corpus[j].captions[0])))
    ensures InitialRecords(Prefix(corpus, j + 1))
         == InitialRecords(Prefix(corpus, j))[corpus[j].uid := map[0 := CaptionRecord(corpus[j].captions[0], None, None, None)]]
  {
    assert Prefix(corpus, j + 1)[..j] == Prefix(corpus, j);
    InitialRecordsDomain(Prefix(corpus, j));
  }

  /** Lines 113-131 for one bigram: the lower-cased adjective's count goes
      up by one and the occurrence is appended to its pair's list; a key
      seen for the first time joins its dictionary's key order. */
  function Record(idx: FrequencyIndex, e: Entry): FrequencyIndex
  {
    var a := Lower(e.occ.adj);
    var pf := idx.pairFreq;
    FrequencyIndex(
      if e.key in pf then pf[e.key := pf[e.key] + [e.occ]] else pf[e.key := [e.occ]],
      if e.key in pf then idx.pairOrder else idx.pairOrder + [e.key],
      if a in idx.adjFreq then idx.adjFreq[a := idx.adjFreq[a] + 1] else idx.adjFreq[a := 1],
      if a in idx.adjFreq then idx.adjOrder else idx.adjOrder + [a])
  }

  /** Recording an entry appends its occurrence to its pair's list and
      counts its adjective once more; every other key keeps its value, and
      a new key joins the end of its key order. */
  lemma RecordSpec(idx: FrequencyIndex, e: Entry)
    ensures var r, pf, a := Record(idx, e), idx.pairFreq, Lower(e.occ.adj);
      && r.pairFreq.Keys == pf.Keys + {e.key}
      && r.pairFreq[e.key] == (if e.key in pf then pf[e.key] else []) + [e.occ]
      && (forall k :: k in pf && k != e.key ==> r.pairFreq[k] == pf[k])
      && r.pairOrder == idx.pairOrder + (if e.key in pf then [] else [e.key])
      && r.adjFreq.Keys == idx.adjFreq.Keys + {a}
      && r.adjFreq[a] == (if a in idx.adjFreq then idx.adjFreq[a] else 0) + 1
      && (forall a' :: a' in idx.adjFreq && a' != a ==> r.adjFreq[a'] == idx.adjFreq[a'])
      && r.adjOrder == idx.adjOrder + (if a in idx.adjFreq then [] else [a])
  {
  }

  /** The two dictionaries after recording the entries `es` in order. */
  function IndexOf(es: seq<Entry>): FrequencyIndex {
    if es == [] then FrequencyIndex(map[], [], map[], [])
    else Record(IndexOf(es[..|es| - 1]), es[|es| - 1])
  }

  lemma IndexOfAppend(es: seq<Entry>, e: Entry)
    ensures IndexOf(es + [e]) == Record(IndexOf(es), e)
  {
    assert (es + [e])[..|es|] == es;
  }

  /** The dictionaries built by the pass hold, for every pair key, exactly
      the occurrences of that pair in processing order, and for every
      lower-cased adjective exactly its number of pairs; each key order
      lists every key once, in order of first appearance. */
  lemma {:induction false} IndexOfDescribes(es: seq<Entry>)
    ensures Describes(IndexOf(es), es)
  {
    if es == [] {
      assert Keys(es) == [] && Adjs(es) == [];
    } else {
      var init, e := es[..|es| - 1], es[|es| - 1];
      assert es == init + [e];
      IndexOfDescribes(init);
      var idx := IndexOf(init);
      AdjStep(idx.adjFreq, idx.adjOrder, init, e);
      PairStep(idx.pairFreq, idx.pairOrder, init, e);
    }
  }

  /** Lines 110-131 for one bigram: count the lower-cased adjective and
      append the occurrence to the list of key `lower(adj) + "_" + lemma(noun)`. */
  method CountPair(pairFreq: map<string, seq<Occurrence>>, pairOrder: seq<string>,
                   adjFreq: map<string, nat>, adjOrder: seq<string>,
                   token: Token, next: Token, o: Occurrence)
    returns (pairFreq': map<string, seq<Occurrence>>, pairOrder': seq<string>,
             adjFreq': map<string, nat>, adjOrder': seq<string>)
    requires o.adj == token.text
    ensures FrequencyIndex(pairFreq', pairOrder', adjFreq', adjOrder')
         == Record(FrequencyIndex(pairFreq, pairOrder, adjFreq, adjOrder), Entry(PairKey(token, next), o))
  {
    pairFreq', pairOrder', adjFreq', adjOrder' := pairFreq, pairOrder, adjFreq, adjOrder;
    var adj := Lower(token.text);
    if adj !in adjFreq' {
      adjFreq' := adjFreq'[adj := 1];
      adjOrder' := adjOrder' + [adj];
    } else {
      adjFreq' := adjFreq'[adj := adjFreq'[adj] + 1];
    }
    var lemmaNoun := next.lem;
    var key := adj + "_" + lemmaNoun;
    if key !in pairFreq' {
      pairFreq' := pairFreq'[key := [o]];
      pairOrder' := pairOrder' + [key];
    } else {
      pairFreq' := pairFreq'[key := pairFreq'[key] + [o]];
    }
  }

  /** The token scan of lines 103-131 for one caption: every adjacent
      adjective -> noun bigram is counted and appended to its pair's
      occurrence list. */
  method ScanCaption(idx: FrequencyIndex, uid: Uid, captionId: nat, doc: seq<Token>, ghost before: seq<Entry>)
    returns (idx': FrequencyIndex)
    requires idx == IndexOf(before)
    ensures idx' == IndexOf(before + Tagged(uid, captionId, ExtractPairs(doc)))
  {
    var pairFreq, pairOrder, adjFreq, adjOrder := idx.pairFreq, idx.pairOrder, idx.adjFreq, idx.adjOrder;
    ghost var es := before;
    assert before + Tagged(uid, captionId, PairsBefore(doc, 0)) == before;
    for i := 0 to |doc|
      invariant es == before + Tagged(uid, captionId, PairsBefore(doc, i))
      invariant FrequencyIndex(pairFreq, pairOrder, adjFreq, adjOrder) == IndexOf(es)
    {
      ScanStep(before, uid, captionId, doc, i);
      // lines 104-107: skip unless token i is an adjective followed by a noun
      if i < |doc| - 1 && doc[i].pos == "ADJ" && doc[i + 1].pos == "NOUN" {
        var o := Occurrence(uid, captionId, doc[i].text, doc[i + 1].text);
        pairFreq, pairOrder, adjFreq, adjOrder := CountPair(pairFreq, pairOrder, adjFreq, adjOrder, doc[i], doc[i + 1], o);
        IndexOfAppend(es, Entry(PairKey(doc[i], doc[i + 1]), o));
        es := es + [Entry(PairKey(doc[i], doc[i + 1]), o)];
      }
    }
    idx' := FrequencyIndex(pairFreq, pairOrder, adjFreq, adjOrder);
  }

  /** Lines 96-99: the caption is stored under the next free caption id
      of its item. */
  method AddCaption(data: Records, uid: Uid, caption: string) returns (data': Records, captionId: nat)
    ensures uid !in data ==> captionId == 0 && data' == data[uid := map[0 := CaptionRecord(caption, None, None, None)]]
    ensures uid in data ==>
      && captionId == |data[uid]|
      && var captions: map<nat, CaptionRecord> := data[uid][captionId := CaptionRecord(caption, None, None, None)];
         data' == data[uid := captions]
  {
    data' := data;
    if uid !in data' {
      var captions: map<nat, CaptionRecord> := map[];
      data' := data'[uid := captions];
    }
    captionId := |data'[uid]|;
    var captions: map<nat, CaptionRecord> := data'[uid];
    data' := data'[uid := captions[captionId := CaptionRecord(caption, None, None, None)]];
  }

  /** The frequency pass of lines 88-131. */
  method BuildIndex(corpus: seq<Item>, tag: Tagger) returns (idx: FrequencyIndex, data: Records)
    requires WellFormed(corpus)
    ensures Describes(idx, CorpusEntries(corpus, tag))
    ensures idx == IndexOf(CorpusEntries(corpus, tag))
    ensures data == InitialRecords(corpus)
  {
    idx := FrequencyIndex(map[], [], map[], []);
    data := map[];
    for j := 0 to |corpus|
      invariant idx == IndexOf(CorpusEntries(Prefix(corpus, j), tag))
      invariant data == InitialRecords(Prefix(corpus, j))
    {
      var uid := corpus[j].uid;
      var caption := corpus[j].captions[0];
      var doc := tag(caption);
      PrefixStep(corpus, j, tag);
      var captionId;
      data, captionId := AddCaption(data, uid, caption);
      idx := ScanCaption(idx, uid, captionId, doc, CorpusEntries(Prefix(corpus, j), tag));
    }
    assert Prefix(corpus, |corpus|) == corpus;
    IndexOfDescribes(CorpusEntries(corpus, tag));
  }

  /** The sum of the occurrence-list lengths over the keys `ks`. */
  function SumLengths(pf: map<string, seq<Occurrence>>, ks: seq<string>): nat {
    if ks == [] then 0
    else SumLengths(pf, ks[..|ks| - 1]) + (if ks[|ks| - 1] in pf then |pf[ks[|ks| - 1]]| else 0)
  }

  /** The sum of the counts over the keys `ks`. */
  function SumCounts(af: map<string, nat>, ks: seq<string>): nat {
    if ks == [] then 0
    else SumCounts(af, ks[..|ks| - 1]) + (if ks[|ks| - 1] in af then af[ks[|ks| - 1]] else 0)
  }

  lemma {:induction false} OccurrencesCount(es: seq<Entry>, k: string)
    ensures |OccurrencesOf(es, k)| == Count(Keys(es), k)
  {
    if es != [] {
      OccurrencesCount(es[..|es| - 1], k);
    }
  }

  lemma {:induction false} SumLengthsIsCountSum(pf: map<string, seq<Occurrence>>, es: seq<Entry>, ks: seq<string>)
    requires forall k :: k in ks ==> k in pf && pf[k] == OccurrencesOf(es, k)
    ensures SumLengths(pf, ks) == CountSum(Keys(es), ks)
  {
    if ks != [] {
      SumLengthsIsCountSum(pf, es, ks[..|ks| - 1]);
      OccurrencesCount(es, ks[|ks| - 1]);
    }
  }

  lemma {:induction false} SumCountsIsCountSum(af: map<string, nat>, s: seq<string>, ks: seq<string>)
    requires forall a :: a in ks ==> a in af && af[a] == Count(s, a)
    ensures SumCounts(af, ks) == CountSum(s, ks)
  {
    if ks != [] {
      SumCountsIsCountSum(af, s, ks[..|ks| - 1]);
    }
  }

  /** Every extracted pair is counted once in each dictionary: the lengths of
      all occurrence lists and the adjective counts both add up to the
      number of pairs in the corpus. */
  lemma IndexTotals(idx: FrequencyIndex, es: seq<Entry>)
    requires Describes(idx, es)
    ensures SumLengths(idx.pairFreq, idx.pairOrder) == |es|
    ensures SumCounts(idx.adjFreq, idx.adjOrder) == |es|
  {
    FirstSeenSpec(Keys(es));
    FirstSeenSpec(Adjs(es));
    SumLengthsIsCountSum(idx.pairFreq, es, idx.pairOrder);
    CountSumFirstSeen(Keys(es));
    SumCountsIsCountSum(idx.adjFreq, Adjs(es), idx.adjOrder);
    CountSumFirstSeen(Adjs(es));
  }

  lemma {:induction false} OccurrencesFrom(es: seq<Entry>, k: string, o: Occurrence)
    requires o in OccurrencesOf(es, k)
    ensures Entry(k, o) in es
  {
    var init := es[..|es| - 1];
    if o in OccurrencesOf(init, k) {
      OccurrencesFrom(init, k, o);
      assert Entry(k, o) in init;
    } else {
      assert es[|es| - 1] == Entry(k, o);
    }
  }

  lemma {:induction false} CorpusEntriesLocated(corpus: seq<Item>, tag: Tagger, e: Entry)
    requires HasCaptions(corpus)
    requires e in CorpusEntries(corpus, tag)
    ensures e.occ.captionId == 0 && e.occ.uid in Uids(corpus)
  {
    var init, it := corpus[..|corpus| - 1], corpus[|corpus| - 1];
    assert Uids(init) <= Uids(corpus);
    if e in CorpusEntries(init, tag) {
      CorpusEntriesLocated(init, tag, e);
    } else {
      TaggedLocated(it.uid, 0, ExtractPairs(tag(it.captions[0])), e);
    }
  }

  lemma {:induction false} TaggedLocated(uid: Uid, cid: nat, ps: seq<Pair>, e: Entry)
    requires e in Tagged(uid, cid, ps)
    ensures e.occ.uid == uid && e.occ.captionId == cid
  {
    if e !in Tagged(uid, cid, ps[..|ps| - 1]) {
      assert e == Tagged(uid, cid, ps)[|Tagged(uid, cid, ps)| - 1];
    } else {
      TaggedLocated(uid, cid, ps[..|ps| - 1], e);
    }
  }

  /** Only caption 0 of each item is read, so every occurrence points at
      caption id 0 of an item whose record the pass stored. */
  lemma OccurrencesHaveRecords(corpus: seq<Item>, tag: Tagger, k: string, o: Occurrence)
    requires HasCaptions(corpus)
    requires var idx := IndexOf(CorpusEntries(corpus, tag)); k in idx.pairFreq && o in idx.pairFreq[k]
    ensures o.captionId == 0
    ensures o.uid in InitialRecords(corpus) && 0 in InitialRecords(corpus)[o.uid]
  {
    var es := CorpusEntries(corpus, tag);
    IndexOfDescribes(es);
    OccurrencesFrom(es, k, o);
    CorpusEntriesLocated(corpus, tag, Entry(k, o));
    InitialRecordsDomain(corpus);
    InitialRecordsHaveCaptionZero(corpus, o.uid);
  }

  lemma {:induction false} InitialRecordsHaveCaptionZero(corpus: seq<Item>, uid: Uid)
    requires HasCaptions(corpus)
    requires uid in InitialRecords(corpus)
    ensures 0 in InitialRecords(corpus)[uid]
    ensures InitialRecords(corpus)[uid][0].heldoutPairs == None
  {
    var init, it := corpus[..|corpus| - 1], corpus[|corpus| - 1];
    if uid != it.uid {
      InitialRecordsHaveCaptionZero(init, uid);
    }
  }
}
