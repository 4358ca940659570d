/** Adjective swapping for the `test_seen` captions
    (compositional_split_generation.py lines 215-292): each caption's
    adjective -> noun pairs decide between leaving it alone, swapping its
    first adjective for a held-out adjective, or swapping it for the
    adjective of another, non-dominant pair of the same caption. */
module Swap {
  import opened Wrappers
  import opened Text
  import opened Collections
  import opened Pairs
  import opened Frequency
  import opened Dominant

  /** Why a caption cannot be swapped. In Python the first two are
      `random.randint(0, -1)` raising `ValueError` on an empty list and a
      redraw loop that never ends; the third is `ValueError` again. */
  datatype SwapError = NoHeldoutAdjective | OnlySameAdjective | NoCandidate

  /** `heldout_pairs_adj` (line 216). */
  function HeldoutAdjs(heldout: seq<string>): (r: seq<string>)
    ensures |r| == |heldout|
    ensures forall i :: 0 <= i < |heldout| ==> r[i] == Head(heldout[i], '_')
  {
    seq(|heldout|, i requires 0 <= i < |heldout| => Head(heldout[i], '_'))
  }

  /** `adj_nn_pairs`: the keys of the pairs. */
  function KeysOf(ps: seq<Pair>): (r: seq<string>)
    ensures |r| == |ps|
  {
    seq(|ps|, i requires 0 <= i < |ps| => ps[i].key)
  }

  /** `ori_adjs`: the adjectives as written. */
  function AdjTexts(ps: seq<Pair>): (r: seq<string>)
    ensures |r| == |ps|
  {
    seq(|ps|, i requires 0 <= i < |ps| => ps[i].adj)
  }

  /** `set(adj_nn_pairs).issubset(top_100_above_25th)` (line 263). */
  predicate AllDominant(keys: seq<string>, dominant: seq<Slot>) {
    forall k :: k in keys ==> PairSlot(k) in dominant
  }

  /** `candidate.split('_')[1]`; Python raises `IndexError` without a `_`. */
  function SecondField(s: string): string {
    var parts := Split(s, '_');
    if |parts| >= 2 then parts[1] else ""
  }

  /** `pair.split('_')[0] + '_' + pair.split('_')[-1]`. */
  function Rejoin(k: string): string {
    Head(k, '_') + "_" + LastField(k, '_')
  }

  /** Splitting a rejoined key gives back its adjective and its noun. */
  lemma RejoinFields(k: string)
    ensures Head(Rejoin(k), '_') == Head(k, '_')
    ensures SecondField(Rejoin(k)) == LastField(k, '_')
  {
    var a, b := Head(k, '_'), LastField(k, '_');
    assert Rejoin(k) == a + ['_'] + b;
    SplitHead(a, b, '_');
    SplitNoSeparator(b, '_');
  }

  /** `adj_noun_candidates` (lines 277-282): the rejoined keys of the
      non-dominant pairs whose adjective differs from the first one. */
  function Candidates(keys: seq<string>, dominant: seq<Slot>, oriAdj: string): seq<string> {
    if keys == [] then []
    else
      var k := keys[|keys| - 1];
      Candidates(keys[..|keys| - 1], dominant, oriAdj)
      + (if PairSlot(k) !in dominant && Head(k, '_') != oriAdj then [Rejoin(k)] else [])
  }

  /** A candidate exists exactly when some pair is not dominant and has
      another adjective, and every candidate is built from such a pair. */
  lemma {:induction false} CandidatesSpec(keys: seq<string>, dominant: seq<Slot>, oriAdj: string)
    ensures forall c :: c in Candidates(keys, dominant, oriAdj) ==>
      exists k :: k in keys && PairSlot(k) !in dominant && Head(k, '_') != oriAdj && c == Rejoin(k)
    ensures Candidates(keys, dominant, oriAdj) == [] <==>
      forall k :: k in keys ==> PairSlot(k) in dominant || Head(k, '_') == oriAdj
  {
    if keys != [] {
      var init, k := keys[..|keys| - 1], keys[|keys| - 1];
      CandidatesSpec(init, dominant, oriAdj);
      assert keys == init + [k];
      forall c | c in Candidates(keys, dominant, oriAdj)
        ensures exists k' :: k' in keys && PairSlot(k') !in dominant && Head(k', '_') != oriAdj && c == Rejoin(k')
      {
        if c in Candidates(init, dominant, oriAdj) {
          var k' :| k' in init && PairSlot(k') !in dominant && Head(k', '_') != oriAdj && c == Rejoin(k');
          assert k' in keys;
        }
      }
    }
  }

  /** The record with its swapped text and its `changes_made`. */
  function Swapped(rec: CaptionRecord, adjText: string, newAdj: string, noun: string, oriAdj: string): CaptionRecord {
    rec.(swappedText := Some(Replace(rec.text, adjText, newAdj)),
         changesMade := Some(Changes(noun, oriAdj, newAdj)))
  }

  /** What lines 221-292 may leave in a caption record whose caption was
      tagged `doc`. A caption without pairs is always copied; only one with
      pairs can fail, and only one with two or more for want of a candidate;
      a swap keeps the caption and its held-out pairs. */
  ghost predicate SwapOutcome(rec: CaptionRecord, doc: seq<Token>, heldoutAdjs: seq<string>,
                              dominant: seq<Slot>, r: Result<CaptionRecord, SwapError>): (b: bool)
    ensures b && ExtractPairs(doc) == [] ==> r.Ok?
    ensures b && r == Err(NoCandidate) ==> |ExtractPairs(doc)| >= 2
    ensures b && r.Ok? ==> r.value.text == rec.text && r.value.heldoutPairs == rec.heldoutPairs
    ensures b && r.Ok? ==> r.value.swappedText.Some? && r.value.changesMade.Some?
  {
    var ps := ExtractPairs(doc);
    if |ps| == 0 then
      r == Ok(rec.(swappedText := Some(rec.text), changesMade := Some(Changes("none", "none", "none"))))
    else
      var keys := KeysOf(ps);
      var oriAdj := Lower(ps[0].adj);
      if |ps| == 1 || AllDominant(keys, dominant) then
        if heldoutAdjs == [] then r == Err(NoHeldoutAdjective)
        else if forall a :: a in heldoutAdjs ==> a == oriAdj then r == Err(OnlySameAdjective)
        else
          exists a :: a in heldoutAdjs && a != oriAdj
            && r == Ok(Swapped(rec, ps[0].adj, a, LastField(keys[0], '_'), oriAdj))
      else
        var cs := Candidates(keys, dominant, oriAdj);
        if cs == [] then r == Err(NoCandidate)
        else
          exists c :: c in cs
            && r == Ok(Swapped(rec, ps[0].adj, Head(c, '_'), SecondField(c), oriAdj))
  }

  /** Lines 228-239: the same scan as the frequency pass, collecting the
      pair keys and the adjectives as written. */
  method CollectPairs(doc: seq<Token>) returns (adjNnPairs: seq<string>, oriAdjs: seq<string>)
    ensures adjNnPairs == KeysOf(ExtractPairs(doc))
    ensures oriAdjs == AdjTexts(ExtractPairs(doc))
  {
    adjNnPairs, oriAdjs := [], [];
    for i := 0 to |doc|
      invariant adjNnPairs == KeysOf(PairsBefore(doc, i))
      invariant oriAdjs == AdjTexts(PairsBefore(doc, i))
    {
      ghost var ps := PairsBefore(doc, i);
      if i == |doc| - 1 || doc[i].pos != "ADJ" || doc[i + 1].pos != "NOUN" {
        assert PairsBefore(doc, i + 1) == ps;
        continue;
      }
      var nextToken := doc[i + 1];
      var adj := Lower(doc[i].text);
      var lemmaNoun := nextToken.lem;
      assert PairsBefore(doc, i + 1) == ps + [PairAt(doc, i)];
      oriAdjs := oriAdjs + [doc[i].text];
      adjNnPairs := adjNnPairs + [adj + "_" + lemmaNoun];
    }
  }

  /** Lines 252-253 and 270-271: `new_adj` is redrawn at random from the
      held-out adjectives until it differs from `ori_adj`; the model takes
      the draw that ends the loop. */
  method DrawOther(heldoutAdjs: seq<string>, oriAdj: string) returns (r: Result<string, SwapError>)
    ensures heldoutAdjs == [] ==> r == Err(NoHeldoutAdjective)
    ensures heldoutAdjs != [] && (forall a :: a in heldoutAdjs ==> a == oriAdj) ==> r == Err(OnlySameAdjective)
    ensures (exists a :: a in heldoutAdjs && a != oriAdj) ==> r.Ok? && r.value in heldoutAdjs && r.value != oriAdj
  {
    if |heldoutAdjs| == 0 {
      return Err(NoHeldoutAdjective);
    }
    if forall i :: 0 <= i < |heldoutAdjs| ==> heldoutAdjs[i] == oriAdj {
      return Err(OnlySameAdjective);
    }
    var i :| 0 <= i < |heldoutAdjs| && heldoutAdjs[i] != oriAdj;
    assert heldoutAdjs[i] in heldoutAdjs;
    r := Ok(heldoutAdjs[i]);
  }

  /** Lines 277-282. */
  method BuildCandidates(adjNnPairs: seq<string>, dominant: seq<Slot>, oriAdj: string) returns (cs: seq<string>)
    ensures cs == Candidates(adjNnPairs, dominant, oriAdj)
  {
    cs := [];
    for j := 0 to |adjNnPairs|
      invariant cs == Candidates(adjNnPairs[..j], dominant, oriAdj)
    {
      assert adjNnPairs[..j + 1][..j] == adjNnPairs[..j];
      var pair := adjNnPairs[j];
      if PairSlot(pair) !in dominant {
        var adj := Head(pair, '_');
        if adj != oriAdj {
          cs := cs + [adj + "_" + LastField(pair, '_')];
        }
      }
    }
    assert adjNnPairs[..|adjNnPairs|] == adjNnPairs;
  }

  /** Lines 221-292 for one caption record, given its tokens. */
  method SwapCaption(rec: CaptionRecord, doc: seq<Token>, heldoutAdjs: seq<string>, dominant: seq<Slot>)
    returns (r: Result<CaptionRecord, SwapError>)
    ensures SwapOutcome(rec, doc, heldoutAdjs, dominant, r)
  {
    var oriCaption := rec.text;
    var adjNnPairs, oriAdjs := CollectPairs(doc);
    if |adjNnPairs| == 0 {
      return Ok(rec.(swappedText := Some(oriCaption), changesMade := Some(Changes("none", "none", "none"))));
    }
    var oriAdj := Lower(oriAdjs[0]);
    var noun, newAdj;
    if |adjNnPairs| == 1 || AllDominant(adjNnPairs, dominant) {
      var drawn := DrawOther(heldoutAdjs, oriAdj);
      if drawn.Err? {
        return Err(drawn.error);
      }
      newAdj := drawn.value;
      noun := LastField(adjNnPairs[0], '_');
    } else {
      var candidates := BuildCandidates(adjNnPairs, dominant, oriAdj);
      if |candidates| == 0 {
        return Err(NoCandidate);
      }
      var k :| 0 <= k < |candidates|;
      var candidate := candidates[k];
      newAdj := Head(candidate, '_');
      noun := SecondField(candidate);
    }
    r := Ok(rec.(swappedText := Some(Replace(oriCaption, oriAdjs[0], newAdj)),
                 changesMade := Some(Changes(noun, oriAdj, newAdj))));
  }

  /** A caption with one pair, given one held-out adjective other than its
      own, has exactly one outcome: that adjective replaces its own. */
  lemma {:induction false} SingleHeldoutSwap(rec: CaptionRecord, doc: seq<Token>, a: string,
                                             dominant: seq<Slot>, r: Result<CaptionRecord, SwapError>)
    requires |ExtractPairs(doc)| == 1
    requires a != Lower(ExtractPairs(doc)[0].adj)
    requires SwapOutcome(rec, doc, [a], dominant, r)
    ensures var p := ExtractPairs(doc)[0];
      r == Ok(Swapped(rec, p.adj, a, LastField(p.key, '_'), Lower(p.adj)))
  {
    var ps := ExtractPairs(doc);
    var oriAdj := Lower(ps[0].adj);
    assert [a][0] in [a] && [a][0] != oriAdj;
    var a' :| a' in [a] && a' != oriAdj && r == Ok(Swapped(rec, ps[0].adj, a', LastField(KeysOf(ps)[0], '_'), oriAdj));
  }

  /** A successful swap of a caption that holds a pair keeps the caption's
      text and held-out pairs, records its first adjective (lower-cased) as
      the original one, replaces that adjective's text in the caption by a
      different adjective, and takes that adjective either from the held-out
      pairs or from a non-dominant pair of the same caption, whose noun it
      records. */
  lemma SwapChangesAdjective(rec: CaptionRecord, doc: seq<Token>, heldoutAdjs: seq<string>,
                             dominant: seq<Slot>, r: Result<CaptionRecord, SwapError>)
    requires SwapOutcome(rec, doc, heldoutAdjs, dominant, r)
    requires r.Ok? && ExtractPairs(doc) != []
    ensures r.value.text == rec.text && r.value.heldoutPairs == rec.heldoutPairs
    ensures r.value.changesMade.Some?
    ensures r.value.changesMade.value.originalAdj == Lower(ExtractPairs(doc)[0].adj)
    ensures r.value.changesMade.value.newAdj != r.value.changesMade.value.originalAdj
    ensures r.value.swappedText == Some(Replace(rec.text, ExtractPairs(doc)[0].adj, r.value.changesMade.value.newAdj))
    ensures var ch := r.value.changesMade.value;
      || ch.newAdj in heldoutAdjs
      || exists k :: k in KeysOf(ExtractPairs(doc)) && PairSlot(k) !in dominant
                     && ch.newAdj == Head(k, '_') && ch.noun == LastField(k, '_')
  {
    var ps := ExtractPairs(doc);
    var keys := KeysOf(ps);
    var oriAdj := Lower(ps[0].adj);
    if !(|ps| == 1 || AllDominant(keys, dominant)) {
      var cs := Candidates(keys, dominant, oriAdj);
      var c :| c in cs && r == Ok(Swapped(rec, ps[0].adj, Head(c, '_'), SecondField(c), oriAdj));
      CandidatesSpec(keys, dominant, oriAdj);
      var k :| k in keys && PairSlot(k) !in dominant && Head(k, '_') != oriAdj && c == Rejoin(k);
      RejoinFields(k);
    }
  }

  /** Same item ids and, per item, the same caption ids. */
  predicate SameShape(a: Records, b: Records) {
    && a.Keys == b.Keys
    && forall u :: u in a ==> a[u].Keys == b[u].Keys
  }

  /** Lines 219-292 for one item: every caption record is swapped. */
  method SwapItem(captions: map<nat, CaptionRecord>, tokensOf: string -> seq<Token>,
                  heldoutAdjs: seq<string>, dominant: seq<Slot>)
    returns (r: Result<map<nat, CaptionRecord>, SwapError>)
    ensures r.Ok? ==> r.value.Keys == captions.Keys
    ensures r.Ok? ==> forall c :: c in captions ==>
      SwapOutcome(captions[c], tokensOf(captions[c].text), heldoutAdjs, dominant, Ok(r.value[c]))
    ensures r.Err? ==> exists c :: (c in captions &&
      SwapOutcome(captions[c], tokensOf(captions[c].text), heldoutAdjs, dominant, Err(r.error)))
  {
    var ids := SetToSeq(captions.Keys);
    var out := captions;
    for j := 0 to |ids|
      invariant out.Keys == captions.Keys
      invariant forall c :: c in ids[..j] ==>
        SwapOutcome(captions[c], tokensOf(captions[c].text), heldoutAdjs, dominant, Ok(out[c]))
      invariant forall c :: c in captions && c !in ids[..j] ==> out[c] == captions[c]
    {
      var captionId := ids[j];
      assert ids[..j + 1] == ids[..j] + [captionId];
      assert captionId !in ids[..j];
      var swapped := SwapCaption(out[captionId], tokensOf(out[captionId].text), heldoutAdjs, dominant);
      if swapped.Err? {
        return Err(swapped.error);
      }
      out := out[captionId := swapped.value];
    }
    assert ids[..|ids|] == ids;
    r := Ok(out);
  }

  /** Lines 218-292: every caption of every `test_seen` item is swapped;
      the other records are left alone. The caption's tokens come from
      `tokensOf` applied to its text. */
  method SwapTestSeen(data: Records, testSeen: set<Uid>, tokensOf: string -> seq<Token>,
                      heldoutAdjs: seq<string>, dominant: seq<Slot>)
    returns (r: Result<Records, SwapError>)
    requires forall u :: u in testSeen ==> u in data
    ensures r.Ok? ==> SameShape(r.value, data)
    ensures r.Ok? ==> forall u, c :: u in data && c in data[u] ==>
      if u in testSeen
      then SwapOutcome(data[u][c], tokensOf(data[u][c].text), heldoutAdjs, dominant, Ok(r.value[u][c]))
      else r.value[u][c] == data[u][c]
    ensures r.Err? ==> exists u, c :: (u in testSeen && c in data[u] &&
      SwapOutcome(data[u][c], tokensOf(data[u][c].text), heldoutAdjs, dominant, Err(r.error)))
  {
    var uids := SetToSeq(testSeen);
    var out := data;
    for j := 0 to |uids|
      invariant SameShape(out, data)
      invariant forall u, c :: u in uids[..j] && c in data[u] ==>
        SwapOutcome(data[u][c], tokensOf(data[u][c].text), heldoutAdjs, dominant, Ok(out[u][c]))
      invariant forall u :: u in data && u !in uids[..j] ==> out[u] == data[u]
    {
      var uid := uids[j];
      assert uids[..j + 1] == uids[..j] + [uid];
      assert uid !in uids[..j];
      var swapped := SwapItem(out[uid], tokensOf, heldoutAdjs, dominant);
      if swapped.Err? {
        return Err(swapped.error);
      }
      out := out[uid := swapped.value];
    }
    assert uids[..|uids|] == uids;
    r := Ok(out);
  }
}
