/**
 The embedding batch run (`process_with_ai`) once the question column has
 been read: filter the cells, take each kept question's five theme
 similarities, build its record (category from the primary theme, alignment
 score and theme scores rounded to three decimals), sort by the stored
 rounded score highest first, number the result, and split it into the high
 (at least 4.0), medium (3.0 up to 4.0) and low (below 3.0) tiers.

 The similarities are a function `sims` of the stripped question text: the
 embedding model and the theme embeddings are fixed for the whole run.
 Python's `round(x, 3)` is the function `round3`, about which nothing is
 assumed.
 */
module EmbeddingPipeline {
  import opened Text
  import opened RowFilter
  import opened Ranking
  import opened EmbeddingScorer

  /** One record of the output file. */
  datatype AiQuestion = AiQuestion(
    text: string, category: string, alignmentScore: real, themeScores: Similarities, originalIndex: nat)

  const HighThreshold: real := 4.0
  const MediumThreshold: real := 3.0

  function RoundAll(s: Similarities, round3: real -> real): Similarities
  {
    Similarities(round3(s.technology), round3(s.biology), round3(s.humanity),
                 round3(s.generationAlpha), round3(s.systems))
  }

  /** The record built for the cell at position `index`. The category is
      decided on the unrounded similarities; only the stored scores are
      rounded. */
  function MakeQuestion(cell: string, index: nat, sims: string -> Similarities, round3: real -> real): (q: AiQuestion)
    ensures q.text == Strip(cell) && q.originalIndex == index
    ensures q.category in Categories
  {
    var text := Strip(cell);
    var similarities := sims(text);
    AiQuestion(text, Category(similarities), round3(AlignmentScore(similarities)),
               RoundAll(similarities, round3), index)
  }

  /** The records of the kept cells, in spreadsheet order. */
  function ScoreRows(cells: seq<string>, sims: string -> Similarities, round3: real -> real): (qs: seq<AiQuestion>)
    ensures forall j, l :: 0 <= j < l < |qs| ==> qs[j].originalIndex < qs[l].originalIndex
    ensures forall j :: 0 <= j < |qs| ==>
      && qs[j].originalIndex < |cells|
      && KeepRow(cells[qs[j].originalIndex])
      && qs[j] == MakeQuestion(cells[qs[j].originalIndex], qs[j].originalIndex, sims, round3)
    ensures forall i :: 0 <= i < |cells| && KeepRow(cells[i]) ==>
      exists j :: 0 <= j < |qs| && qs[j].originalIndex == i
  {
    var ks := KeptIndices(cells);
    var qs := seq(|ks|, j requires 0 <= j < |ks| => MakeQuestion(cells[ks[j]], ks[j], sims, round3));
    KeptRecords(cells, qs, (q: AiQuestion) => q.originalIndex);
    qs
  }

  function Score(q: AiQuestion): real
  {
    q.alignmentScore
  }

  /** The run on the cells of the question column. The output ranks the
      kept cells' records by their stored (rounded) alignment score, highest
      first, keeps input order among equal scores and numbers the result
      1..n; the tiers hold the ranked records scoring at least 4.0, from 3.0
      up to 4.0, and below 3.0. The full ranking and the high tier are the
      two files the run writes. */
  function ProcessWithAi(cells: seq<string>, sims: string -> Similarities, round3: real -> real): (out: Split<AiQuestion>)
    ensures forall i :: 0 <= i < |out.ranked| ==> out.ranked[i].rank == i + 1
    ensures multiset(Items(out.ranked)) == multiset(ScoreRows(cells, sims, round3))
    ensures NonIncreasing(Items(out.ranked), Score)
    ensures forall k :: WithKey(Items(out.ranked), Score, k) == WithKey(ScoreRows(cells, sims, round3), Score, k)
    ensures forall r :: r in out.high <==> r in out.ranked && r.item.alignmentScore >= HighThreshold
    ensures forall r :: r in out.medium <==>
      r in out.ranked && MediumThreshold <= r.item.alignmentScore < HighThreshold
    ensures forall r :: r in out.low <==> r in out.ranked && r.item.alignmentScore < MediumThreshold
  {
    RankAndSplit(ScoreRows(cells, sims, round3), Score, HighThreshold, MediumThreshold)
  }

  /** A cell's record is among the scored records exactly when the cell
      passes the filter. */
  lemma ScoredExactlyKept(cells: seq<string>, sims: string -> Similarities, round3: real -> real, i: nat)
    requires i < |cells|
    ensures MakeQuestion(cells[i], i, sims, round3) in ScoreRows(cells, sims, round3) <==> KeepRow(cells[i])
  {
    var scored := ScoreRows(cells, sims, round3);
    var q := MakeQuestion(cells[i], i, sims, round3);
    if KeepRow(cells[i]) {
      var j :| 0 <= j < |scored| && scored[j].originalIndex == i;
      assert scored[j] == q;
    }
    if q in scored {
      var j :| 0 <= j < |scored| && scored[j] == q;
      assert scored[j].originalIndex == i;
    }
  }

  /** A cell's record is in the ranked output exactly when the cell passes
      the filter. */
  lemma KeptCellsAreRanked(cells: seq<string>, sims: string -> Similarities, round3: real -> real, i: nat)
    requires i < |cells|
    ensures MakeQuestion(cells[i], i, sims, round3) in Items(ProcessWithAi(cells, sims, round3).ranked)
        <==> KeepRow(cells[i])
  {
    var ranked := Items(ProcessWithAi(cells, sims, round3).ranked);
    var scored := ScoreRows(cells, sims, round3);
    var q := MakeQuestion(cells[i], i, sims, round3);
    ScoredExactlyKept(cells, sims, round3, i);
    assert q in ranked <==> q in multiset(ranked);
    assert q in scored <==> q in multiset(scored);
  }

  /** The ranked list is the high tier, then the medium tier, then the low
      tier: the high-alignment file is a prefix of the full ranking. */
  lemma TiersAreBlocks(cells: seq<string>, sims: string -> Similarities, round3: real -> real)
    ensures var out := ProcessWithAi(cells, sims, round3);
      out.high + out.medium + out.low == out.ranked
  {
    RankedTiersAreBlocks(ScoreRows(cells, sims, round3), Score, HighThreshold, MediumThreshold);
  }
}
