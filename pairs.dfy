/** Adjective-noun pair extraction from one tagged caption
    (the token scan of compositional_split_generation.py). */
module Pairs {
  import opened Text

  /** One token as the part-of-speech tagger returns it. */
  datatype Token = Token(text: string, pos: string, lem: string)

  /** One adjacent adjective -> noun bigram: its normalised key and the
      surface text of both tokens, in their original case. */
  datatype Pair = Pair(key: string, adj: string, noun: string)

  /** `lower(adjective) + "_" + lemma(noun)`. */
  function PairKey(adj: Token, noun: Token): string {
    Lower(adj.text) + "_" + noun.lem
  }

  /** Token `i` is an adjective, and has a next token, which is a noun. */
  predicate StartsPair(doc: seq<Token>, i: int) {
    0 <= i < |doc| - 1 && doc[i].pos == "ADJ" && doc[i + 1].pos == "NOUN"
  }

  function PairAt(doc: seq<Token>, i: int): Pair
    requires 0 <= i < |doc| - 1
  {
    Pair(PairKey(doc[i], doc[i + 1]), doc[i].text, doc[i + 1].text)
  }

  /** The pairs emitted by the scan once it has looked at tokens `0 .. i-1`. */
  function PairsBefore(doc: seq<Token>, i: nat): seq<Pair>
    requires i <= |doc|
  {
    if i == 0 then []
    else PairsBefore(doc, i - 1) + (if StartsPair(doc, i - 1) then [PairAt(doc, i - 1)] else [])
  }

  /** All pairs of a tagged caption, left to right. */
  function ExtractPairs(doc: seq<Token>): seq<Pair> {
    PairsBefore(doc, |doc|)
  }

  /** The positions `< i` at which a pair starts, in increasing order. */
  function StartsBefore(doc: seq<Token>, i: nat): seq<nat>
    requires i <= |doc|
  {
    if i == 0 then []
    else StartsBefore(doc, i - 1) + (if StartsPair(doc, i - 1) then [i - 1] else [])
  }

  /** The scan emits exactly one pair per position where an adjective is
      immediately followed by a noun, in increasing position order, and
      each pair is built from those two tokens. */
  lemma {:induction false} PairsBeforeSpec(doc: seq<Token>, i: nat)
    requires i <= |doc|
    ensures |PairsBefore(doc, i)| == |StartsBefore(doc, i)|
    ensures forall k :: 0 <= k < |StartsBefore(doc, i)| ==>
      StartsPair(doc, StartsBefore(doc, i)[k]) &&
      StartsBefore(doc, i)[k] < i &&
      PairsBefore(doc, i)[k] == PairAt(doc, StartsBefore(doc, i)[k])
    ensures forall k, l :: 0 <= k < l < |StartsBefore(doc, i)| ==>
      StartsBefore(doc, i)[k] < StartsBefore(doc, i)[l]
    ensures forall j :: 0 <= j < i && StartsPair(doc, j) ==> j in StartsBefore(doc, i)
  {
    if i > 0 {
      PairsBeforeSpec(doc, i - 1);
      var ps, ss := PairsBefore(doc, i - 1), StartsBefore(doc, i - 1);
      if StartsPair(doc, i - 1) {
        assert PairsBefore(doc, i) == ps + [PairAt(doc, i - 1)];
        assert StartsBefore(doc, i) == ss + [i - 1];
      } else {
        assert PairsBefore(doc, i) == ps;
        assert StartsBefore(doc, i) == ss;
      }
    }
  }

  /** The extraction applied to a whole caption. */
  lemma ExtractPairsSpec(doc: seq<Token>)
    ensures |ExtractPairs(doc)| == |StartsBefore(doc, |doc|)|
    ensures forall k :: 0 <= k < |ExtractPairs(doc)| ==>
      StartsPair(doc, StartsBefore(doc, |doc|)[k]) &&
      ExtractPairs(doc)[k] == PairAt(doc, StartsBefore(doc, |doc|)[k])
    ensures forall j :: StartsPair(doc, j) <==> j in StartsBefore(doc, |doc|)
  {
    PairsBeforeSpec(doc, |doc|);
  }

  /** The last token never starts a pair, so a caption of fewer than two
      tokens has none. */
  lemma {:induction false} ShortCaptionHasNoPairs(doc: seq<Token>)
    requires |doc| < 2
    ensures ExtractPairs(doc) == []
  {
    if |doc| == 1 {
      assert !StartsPair(doc, 0);
      assert PairsBefore(doc, 0) == [];
    }
  }

  /** "a red big chair": only the bigram (big, chair) is an adjective
      followed by a noun. */
  lemma {:induction false} RedBigChair()
    ensures ExtractPairs([Token("a", "DET", "a"), Token("red", "ADJ", "red"),
                          Token("big", "ADJ", "big"), Token("chair", "NOUN", "chair")])
         == [Pair("big_chair", "big", "chair")]
  {
    var doc := [Token("a", "DET", "a"), Token("red", "ADJ", "red"),
                Token("big", "ADJ", "big"), Token("chair", "NOUN", "chair")];
    assert !StartsPair(doc, 0) && !StartsPair(doc, 1) && StartsPair(doc, 2) && !StartsPair(doc, 3);
    assert Lower("big") == "big";
    assert PairsBefore(doc, 2) == [];
    assert PairsBefore(doc, 3) == [PairAt(doc, 2)];
    assert PairsBefore(doc, 4) == PairsBefore(doc, 3);
    assert "big" + "_" + "chair" == "big_chair";
  }
}
