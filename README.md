# Compositional split generation, modelled in Dafny

This project models `main()` of `compositional_split_generation.py`, the
script that builds a compositional train / test split over a captioned
shape corpus. It runs in five stages:

1. **Frequency pass.** Each item's first caption is tagged. Every adjective
   immediately followed by a noun gives a pair `lower(adjective)_lemma(noun)`.
   The pass fills `adj_nn_freq` (pair key → occurrences), `adj_freq`
   (lower-cased adjective → count) and one `data_pkl` record per item
   (`frequency.dfy`, `pairs.dfy`).
2. **Held-out pairs.** The pair keys are ranked by occurrence count, most
   frequent first. `n/10` of them are drawn without replacement from the band
   `[n*25/100, n*75/100 + 1)` (`heldout.dfy`, `ranking.dfy`).
3. **Split.** Every caption holding a held-out pair records that pair key.
   The items holding one become `test_unseen`. An equally large sample of the
   other items becomes `test_seen`, and the rest is `train` (`partition.dfy`).
4. **Dominant pairs.** A 100-slot table starts as placeholders of frequency 0.
   Each pair whose adjective is a frequent colour or shape adjective is
   visited, most frequent first. It evicts the least frequent slot when it is
   strictly more frequent than that slot. The dominant pairs are the slots
   above the table's 25th percentile, which is `4*f > v[24] + 3*v[25]` over
   the ascending values `v` (`dominant.dfy`).
5. **Swapping.** Every `test_seen` caption is re-tagged and falls into one of
   three cases:
   - no pair: the caption is copied;
   - one pair, or every pair dominant: the first adjective is swapped for a
     held-out adjective;
   - otherwise: the first adjective is swapped for the adjective of a
     non-dominant pair.

   The substitution is Python's `str.replace`, which replaces every
   occurrence (`swap.dfy`, `text.dfy`).

`pipeline.dfy` chains the stages as `Pipeline.Generate`.

The script's loops are Dafny methods with loop invariants. The exception is
the two redraw loops at lines 252-253 and 270-271, which `Swap.DrawOther`
models as one choice. Most methods are proved equal to a specification
function or predicate:
- the frequency pass to `IndexOf`;
- the marking to `AnnotateAll` and `UidsOf`;
- the dominant pairs to `Above`;
- the candidates to `Candidates`;
- the swaps to the `SwapOutcome` predicate.

`Dominant.BuildTopTable` is proved against the table invariant `Holds`.
`Heldout.Sample`, `Partition.SplitUids` and `Swap.DrawOther` draw at random,
so they are specified by the properties every draw has. The lemmas beside
each function prove what the function means.

Randomness is modelled as nondeterministic choice: `random.sample`,
`random.randint` and iteration over a set. The contracts state only what
any draw guarantees: membership, size, and no duplicates. The tagger is a
function parameter `tag: string -> seq<Token>`.

Points where the code does something other than its naming or comments
suggest; the model follows the code:
- The substitution is not limited to the adjective's own position or to its
  first match: lines 254 and 287 call `str.replace`, which replaces every
  occurrence, and `Text.Replace` does the same.
- The adjective list named `top_60_adjs` (lines 180-182) is not cut at 60
  entries. It holds every ranked adjective that is in the colour or shape
  vocabulary.
- `caption_id` is the integer `len(data_pkl[uid])` (line 98). Because only
  `model_data[0]` is read, it is always 0; it is not a string.

## Model

| member | source | states |
|---|---|---|
| Text.Lower | compositional_split_generation.py:110 | lower-casing keeps the length and maps each character through the ASCII lower-case table |
| Text.LowerIdempotent | compositional_split_generation.py:110 | lower-casing twice equals lower-casing once, and its result has no upper-case letter |
| Text.Split | compositional_split_generation.py:190 | `s.split(c)` has at least one piece and no piece contains `c` |
| Text.JoinSplit | compositional_split_generation.py:190 | joining the pieces of `s.split(c)` with `c` gives back `s` |
| Text.SplitJoin | compositional_split_generation.py:190 | splitting a join of separator-free pieces gives back the pieces |
| Text.SplitNoSeparator | compositional_split_generation.py:256 | a string without the separator splits into itself alone |
| Text.SplitHead | compositional_split_generation.py:280-285 | `(a + c + b).split(c)` starts with `a` and continues with `b.split(c)` when `a` has no `c` |
| Text.Head | compositional_split_generation.py:190 | `s.split(c)[0]` is a prefix of `s` without `c` |
| Text.ReplaceSelf | compositional_split_generation.py:254 | replacing a non-empty string by itself leaves the text unchanged |
| Text.ReplaceAbsent | compositional_split_generation.py:254 | a non-empty string that does not occur leaves the text unchanged |
| Text.ReplaceKeepsLength | compositional_split_generation.py:254 | replacing a non-empty string by one of the same length keeps the text's length |
| Text.ReplaceSkip | compositional_split_generation.py:254 | a character that cannot start the replaced string is copied, and the scan continues after it |
| Text.ReplaceFirst | compositional_split_generation.py:287 | the scan copies an occurrence-free prefix, substitutes the first occurrence and continues after it, so every non-overlapping occurrence is replaced |
| Pairs.PairsBeforeSpec | compositional_split_generation.py:103-107 | the scan emits exactly one pair per position `i < len-1` whose token is ADJ and whose next token is NOUN, in increasing position order, each built from those two tokens |
| Pairs.ExtractPairsSpec | compositional_split_generation.py:103-122 | the pairs of a caption are exactly the ADJ→NOUN bigrams, left to right, keyed `lower(adj) + "_" + lemma(noun)`, with the surface text of both tokens |
| Pairs.ShortCaptionHasNoPairs | compositional_split_generation.py:104 | the last token never starts a pair, so a caption of fewer than two tokens has none |
| Pairs.RedBigChair | compositional_split_generation.py:103-107 | in "a red big chair" only the adjacent (big, chair) is a pair; the non-adjacent (red, chair) is not |
| Collections.FirstSeenSpec | compositional_split_generation.py:113-131 | a dictionary's key order lists every key that was inserted, each once |
| Collections.CountSumFirstSeen | compositional_split_generation.py:113-116 | the counts of all distinct labels add up to the number of labels |
| Collections.RemoveDistinct | compositional_split_generation.py:200 | deleting a key from a duplicate-free key order keeps it duplicate-free and shortens it by one exactly when the key was there |
| Collections.ReversePermutes | compositional_split_generation.py:209 | reversing a sequence permutes it |
| Collections.SetToSeq | compositional_split_generation.py:162 | `list(s)` lists every element of the set exactly once |
| Frequency.FirstUncaptioned | compositional_split_generation.py:88-92 | finds an item without captions exactly when one exists, and returns the first such item |
| Frequency.RecordSpec | compositional_split_generation.py:109-131 | one pair appends its occurrence to its key's list (started if new) and adds one to its adjective's count (started at 1); every other key keeps its value, and a new key joins the end of its key order |
| Frequency.CountPair | compositional_split_generation.py:109-131 | one pair updates both dictionaries as `Record` does: the adjective count is incremented or set to 1, and the occurrence is appended to the pair's list or starts it |
| Frequency.ScanCaption | compositional_split_generation.py:103-131 | scanning a caption records exactly its extracted pairs, in order, on top of what was recorded before |
| Frequency.AddCaption | compositional_split_generation.py:96-99 | a new item gets caption id 0 and a record holding only the text; a known item gets the next caption id |
| Frequency.BuildIndex | compositional_split_generation.py:88-131 | after the pass, `adj_nn_freq[k]` is exactly the occurrences of `k` in corpus order, `adj_freq[a]` is the number of pairs whose lower-cased adjective is `a`, both key orders are first-insertion order, and `data_pkl` is one record per item |
| Frequency.IndexOfDescribes | compositional_split_generation.py:88-131 | the index of any entry sequence records exactly those entries: every pair key with its occurrences and every adjective with its count, and nothing else |
| Frequency.IndexTotals | compositional_split_generation.py:112-131 | the `adj_freq` values and the lengths of the `adj_nn_freq` lists both add up to the number of extracted pairs |
| Frequency.OccurrencesHaveRecords | compositional_split_generation.py:96-131 | every recorded occurrence has caption id 0 and points at an existing caption record |
| Frequency.InitialRecordsDomain | compositional_split_generation.py:96-99 | `data_pkl` has a record for exactly the corpus items |
| Frequency.InitialRecordsHaveCaptionZero | compositional_split_generation.py:92-99 | each item's record is caption 0 and has no `heldout_pairs` key yet |
| Ranking.InsertPermutes | compositional_split_generation.py:134 | inserting into the sorted list adds exactly that element |
| Ranking.InsertSorted | compositional_split_generation.py:134 | insertion keeps the list sorted by descending weight |
| Ranking.SortDescSpec | compositional_split_generation.py:134 | the sort is a permutation, non-increasing in weight, and stable: the keys of each weight keep their original order |
| Ranking.SortDescLast | compositional_split_generation.py:196-200 | the last key of the descending sort is the last, in table order, of the least frequent keys |
| Heldout.Sample | compositional_split_generation.py:138 | `random.sample(pop, k)` returns `k` elements drawn from `pop` without replacement |
| Heldout.RankPairs | compositional_split_generation.py:134 | `adj_nn_freq_list` is a permutation of the pair keys, non-increasing in occurrence count, and keeps first-seen order among equal counts |
| Heldout.BandLow | compositional_split_generation.py:135 | the lower band bound is a quarter of `n`, rounded down |
| Heldout.BandHigh | compositional_split_generation.py:136 | the upper band bound is one past three quarters of `n`, rounded down |
| Heldout.Band | compositional_split_generation.py:135-137 | the band is a sub-multiset of the ranking |
| Heldout.BandLargeEnough | compositional_split_generation.py:135-138 | the band always holds at least `n/10` keys, so the sample cannot fail |
| Heldout.SelectHeldout | compositional_split_generation.py:134-138 | the ranking is `RankPairs`; the held-out pairs are `n/10` distinct keys of the band |
| Heldout.RankPairsSpec | compositional_split_generation.py:134 | `adj_nn_freq_list` lists every pair key once and is non-increasing in occurrence count |
| Partition.AnnotateSpec | compositional_split_generation.py:154-157 | marking one occurrence keeps every item and caption id, appends the key to that caption's `heldout_pairs` (creating it if absent), and changes nothing else |
| Partition.AnnotateAllKeeps | compositional_split_generation.py:146-157 | marking keeps every item and its caption ids |
| Partition.AnnotateAllDomain | compositional_split_generation.py:146-157 | marking keeps the set of items |
| Partition.UidsOfSpec | compositional_split_generation.py:152 | an item is collected exactly when some occurrence points at it |
| Partition.KeysAtSpec | compositional_split_generation.py:154-157 | a caption gains no key exactly when no occurrence points at it |
| Partition.AnnotateAllSpec | compositional_split_generation.py:154-157 | each caption record's `heldout_pairs` gains the keys of the occurrences that point at it, in processing order, and is untouched when there are none |
| Partition.AnnotatedFromNone | compositional_split_generation.py:154-157 | starting without the key, a caption ends with `heldout_pairs` equal to its keys, or without the key if it has none |
| Partition.UnseenIffAnnotated | compositional_split_generation.py:144-157 | an item is in `test_unseen` exactly when one of its captions gained a `heldout_pairs` key |
| Partition.AnnotateAllAppend | compositional_split_generation.py:148-157 | marking one more occurrence appends its key to that caption and adds its item to `test_unseen` |
| Partition.MarkCaption | compositional_split_generation.py:154-157 | one occurrence creates the caption's `heldout_pairs` list or appends to it |
| Partition.MarkStep | compositional_split_generation.py:147-157 | one more occurrence extends the marked entries by one, whose caption exists, and adds its item to `test_unseen` |
| Partition.MarkOccurrences | compositional_split_generation.py:147-157 | the loop over one pair's occurrences extends the marking and `test_unseen` by exactly those occurrences |
| Partition.MarkHeldout | compositional_split_generation.py:144-157 | the records and `test_unseen` after the loop are the marking of all held-out occurrences and the set of their items |
| Partition.SplitUids | compositional_split_generation.py:160-173 | fails exactly when fewer seen items than unseen ones exist; otherwise `test_seen` is a same-size subset of the seen items, `train` is the rest, the three are pairwise disjoint and cover the items, and `heldout_pairs` is the set of held-out keys |
| Dominant.Qualifying | compositional_split_generation.py:182 | the kept adjectives are exactly the ranked ones in the colour or shape vocabulary |
| Dominant.TopAdjs | compositional_split_generation.py:180-182 | the qualifying adjectives are exactly the counted adjectives in either vocabulary |
| Dominant.LastMin | compositional_split_generation.py:196-200 | the chosen slot is of least frequency and every later slot is strictly more frequent |
| Dominant.InitialTable | compositional_split_generation.py:185-187 | the table starts as 100 distinct placeholders of frequency 0 |
| Dominant.ShapeSize | compositional_split_generation.py:185-201 | a well-shaped table has exactly 100 entries |
| Dominant.SkipStep | compositional_split_generation.py:190-199 | a key that is ineligible or not more frequent than every entry leaves the table invariant true |
| Dominant.KeepStep | compositional_split_generation.py:199 | an eligible key no more frequent than the least frequent entry leaves the table unchanged and the invariant true |
| Dominant.EvictStep | compositional_split_generation.py:199-201 | evicting a least frequent entry for a strictly more frequent eligible key keeps 100 distinct entries and the invariant |
| Dominant.MinOverTable | compositional_split_generation.py:196-199 | a slot of least weight in the order is a least frequent entry of the table |
| Dominant.Lowest | compositional_split_generation.py:196-199 | `sorted(...)[-1]` is the last least frequent entry in table order |
| Dominant.VisitKey | compositional_split_generation.py:189-201 | an eligible key strictly more frequent than that entry evicts it and is appended; any other key changes nothing; the invariant is kept |
| Dominant.VisitEligible | compositional_split_generation.py:196-201 | an eligible key evicts the entry a descending sort puts last exactly when that entry is strictly less frequent, and is appended; the invariant is kept |
| Dominant.BuildTopTable | compositional_split_generation.py:185-201 | the table keeps 100 entries; pair entries are visited eligible keys with their counts; no eligible key left out is more frequent than any entry |
| Dominant.ValuesSortDesc | compositional_split_generation.py:209 | sorting the slots permutes their frequencies |
| Dominant.AscendingSpec | compositional_split_generation.py:209 | the ascending values are sorted and a permutation of the table's frequencies |
| Dominant.Percentile25Times4 | compositional_split_generation.py:209 | the value is four times numpy's linear-interpolation 25th percentile of 100 ascending values, `v[24] + 0.75*(v[25] - v[24])` |
| Dominant.PercentileMatchesNumpy | compositional_split_generation.py:209-212 | `4*f > v[24] + 3*v[25]` holds exactly when `f` exceeds numpy's linear-interpolation 25th percentile of 100 values |
| Dominant.Above | compositional_split_generation.py:210-213 | a slot is kept exactly when it is in the table order and passes the threshold |
| Dominant.DominantPairs | compositional_split_generation.py:209-213 | the loop keeps, in table order, the slots above the 25th percentile |
| Dominant.DominantSpec | compositional_split_generation.py:209-213 | the dominant slots are exactly the entries above the percentile; all are real pairs more frequent than `v[24]`; every entry more frequent than `v[25]` is dominant |
| Swap.HeldoutAdjs | compositional_split_generation.py:216 | each held-out adjective is the text before the first `_` of its pair |
| Swap.RejoinFields | compositional_split_generation.py:280-285 | splitting a rejoined candidate gives back the pair's adjective and noun |
| Swap.CandidatesSpec | compositional_split_generation.py:277-282 | every candidate comes from a non-dominant pair with another adjective, and there is none exactly when every pair is dominant or shares the first adjective |
| Swap.SwapOutcome | compositional_split_generation.py:221-292 | a caption without pairs never fails; `NoCandidate` needs two or more pairs; a successful swap keeps the text and `heldout_pairs` and sets `swapped_text` and `changes_made` |
| Swap.CollectPairs | compositional_split_generation.py:224-239 | the re-scan yields the pair keys and adjective texts of the caption's extracted pairs |
| Swap.DrawOther | compositional_split_generation.py:250-253 | with no held-out adjective, or only the original one, the draw fails; otherwise it returns a held-out adjective other than the original |
| Swap.BuildCandidates | compositional_split_generation.py:277-282 | the loop collects exactly `Candidates` |
| Swap.SwapCaption | compositional_split_generation.py:242-292 | a caption's outcome is one of the three cases of `SwapOutcome`, including its failures |
| Swap.SingleHeldoutSwap | compositional_split_generation.py:249-259 | with one pair and one held-out adjective other than its own, the outcome is that swap |
| Swap.SwapChangesAdjective | compositional_split_generation.py:249-292 | a successful swap keeps the text and held-out keys; it records the lower-cased first adjective as original and a different new adjective; the swapped text replaces the first adjective's text; the new adjective is held-out or from a non-dominant pair whose noun is recorded |
| Swap.SwapItem | compositional_split_generation.py:220-292 | every caption of an item gets its `SwapOutcome`; a failure is the outcome of one of them |
| Swap.SwapTestSeen | compositional_split_generation.py:218-292 | `test_seen` captions get their `SwapOutcome` from their own tokens; every other record is unchanged; a failure comes from a `test_seen` caption |
| Pipeline.PairOrderFacts | compositional_split_generation.py:113-131 | the pair-key order lists each key of `adj_nn_freq` once |
| Pipeline.HeldoutLocated | compositional_split_generation.py:147-154 | every occurrence of a held-out pair points at a caption record |
| Pipeline.UnseenAreItems | compositional_split_generation.py:152 | `test_unseen` holds only corpus items |
| Pipeline.SplitPartitioned | compositional_split_generation.py:159-173 | what the split draw guarantees is a partition of the corpus into disjoint sets with equal test sets |
| Pipeline.IndexStage | compositional_split_generation.py:88-131 | the frequency pass yields `IndexOf` of the corpus entries, with a duplicate-free pair order |
| Pipeline.HeldoutStage | compositional_split_generation.py:88-138 | the ranking is `RankPairs` and lists every pair key once; the held-out pairs are `n/10` distinct pair keys, all from the middle band of the ranking |
| Pipeline.MarkStage | compositional_split_generation.py:143-157 | the records are the marking of the held-out occurrences over the same items, and `test_unseen` is the set of their items |
| Pipeline.SplitStage | compositional_split_generation.py:88-173 | the held-out pairs are `n/10` distinct keys from the middle band; the records are the marked records; the split fails exactly when there are fewer seen items than unseen ones, and otherwise partitions the corpus into three disjoint sets, with equal test sets and `test_unseen` the items with a held-out pair |
| Pipeline.DominantStage | compositional_split_generation.py:180-213 | the top-100 table satisfies the fill invariant over the ranking and the qualifying adjectives, and the dominant pairs are its entries above its 25th percentile, in table order; all are real pair keys of the ranking |
| Pipeline.Generate | compositional_split_generation.py:88-292 | fails with `MissingCaption` exactly when some item has no caption, and names such an item. Fails with `SplitFailed` only when the unseen items outnumber the others. Fails with `SwapFailed` only when some `test_seen` caption's swap outcome is that error. Past the first check, the held-out pairs are `n/10` distinct keys from the middle band. Past the split, it partitions the corpus with equal test sets and `test_unseen` the items with a held-out pair, and the dominant pairs are those above the 25th percentile of a top-100 table filled from the ranking. On success, every `test_seen` caption gets the swap outcome of its own tagged text, and every other record is the marked record |
| Pipeline.StaleTokens | compositional_split_generation.py:227 | as written, every seen test caption is tagged as the first caption of the last item |
| Pipeline.RedChairPairs | compositional_split_generation.py:228-239 | the tagged caption "red chair" has the single pair `red_chair` |
| Pipeline.RedChairFields | compositional_split_generation.py:256 | `red_chair` splits into adjective "red" and noun "chair" |
| Pipeline.ChairUnchanged | compositional_split_generation.py:254 | `" chair".replace("red", "blue")` leaves the text unchanged |
| Pipeline.RedChairReplace | compositional_split_generation.py:254 | `"red chair".replace("red", "blue")` is "blue chair" |
| Pipeline.StaleCaptionCounterexample | compositional_split_generation.py:227 | as written, the seen caption "red chair" tagged as "box" is left unswapped with changes "none" |
| Pipeline.OwnCaptionSwapped | compositional_split_generation.py:221-259 | tagging the caption's own text swaps "red" for the held-out "blue", giving "blue chair" with changes (chair, red, blue) |

## Left out

- Argument parsing, directory creation, JSON loading, reading `colors.txt` and `shapes.txt`, `print`, and both `pickle.dump` calls (lines 19-62, 139-141, 176-177, 205, 295-296) are I/O. The colour and shape vocabularies are parameters. Line 177 writes the split to the `data.pkl` path, which line 296 then overwrites; that file-level defect is outside the model.
- The spaCy tagger and lemmatiser (lines 56, 93, 227) are a foreign library. The model takes the tagger as a function parameter.
- `lower()` covers ASCII letters only; Python's full Unicode case mapping is not modelled.
- The internals of `random.sample` and `random.randint` (lines 138, 162, 253, 271, 283) are not modelled. Each draw is a nondeterministic choice, and the contracts state only membership, size and distinctness.
- The final sort at line 204 is not modelled: its result `top_100_pairs_sorted_keys` is never read again, and line 205 prints the table itself.
- `np.percentile` (line 209) is a float computation. The model uses the exact integer test `4*f > v[24] + 3*v[25]`, and `Dominant.PercentileMatchesNumpy` proves it equal to the exact real-valued interpolation. Float rounding is not modelled.
- The band bounds at lines 135-136 use float division before `int()`. The model computes them in exact integer arithmetic (`n*25/100`, `n*75/100 + 1`); float rounding is not modelled. It can differ: for `n = 116`, `116/100*25` comes out just below 29 in binary floating point, so Python's bound is 28 where the model's is 29.
- Table placeholders `<adj_nn_i>` are modelled as a separate `Placeholder(i)` slot. A pair key spelling the same text is therefore not confused with a placeholder.
- `split_pkl` holds its three uid lists as sets. The order of `list(...)` is not modelled.
- Swap.DrawOther: the redraw loops at lines 252-253 and 270-271 are modelled as one choice among the held-out adjectives that differ from the original. An empty list, which raises `ValueError` in `random.randint`, becomes `Err(NoHeldoutAdjective)`. A list holding only the original adjective, where the loop never ends, becomes `Err(OnlySameAdjective)`.
- Swap.BuildCandidates: an empty candidate list, which raises `ValueError` at line 283, becomes `Err(NoCandidate)`.
- Frequency.BuildIndex: requires every item to have a first caption. At line 92, `model_data[0]` on an item without captions raises `IndexError`. `Pipeline.Generate` finds that item first, with `Frequency.FirstUncaptioned`, and returns `Err(MissingCaption(uid))`. The partial counts Python builds before the exception are not modelled, because nothing reads them.
- Partition.SplitUids: `random.sample` raising `ValueError` when too few seen items remain (line 162) becomes `Err(NotEnoughSeenItems)`.
- Pipeline.StaleTokens: with an empty corpus, Python's `caption` would be unbound. No seen test caption exists in that case, so the model tags nothing.

## Findings

| source | as written | input that shows it | evidently intended | confidence | as-written member | corrected member |
|---|---|---|---|---|---|---|
| compositional_split_generation.py:227 | `doc = nlp(caption)` tags `caption`, which still holds the first caption of the last item from line 92, so every seen test caption is swapped by the pairs of that one caption | items "a": ["red chair"] and "b": ["box"], "a" in `test_seen`, held-out adjective "blue": "red chair" is tagged as "box" and left unswapped | `doc = nlp(ori_caption)`: tag each record's own text, so "red chair" becomes "blue chair" | not executed | Pipeline.StaleCaptionCounterexample | Pipeline.OwnCaptionSwapped |

`Pipeline.StaleTokens` is the tagging as written. `Pipeline.Generate` and
`Swap.SwapTestSeen` use the corrected tagging: each record is tagged from
its own text.
