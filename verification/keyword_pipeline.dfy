/**
 The keyword batch run (`process_excel_file`) once the spreadsheet column has
 been read: filter the cells, score and categorise each kept question, sort
 highest score first, number the result, and split it into the high (score at
 least 6), medium (3 to 5) and low (below 3) tiers. The full ranked list and
 the high tier are the two files the run writes.
 */
module KeywordPipeline {
  import opened Text
  import opened RowFilter
  import opened Ranking
  import opened KeywordScorer
  import opened Categorizer

  /** One record of the output file; the category is stored as its label. */
  datatype Question = Question(text: string, category: string, priorityScore: nat, originalIndex: nat)

  const HighThreshold: nat := 6
  const MediumThreshold: nat := 3

  /** The record built for the cell at position `index`. */
  function MakeQuestion(cell: string, index: nat): (q: Question)
    ensures q.text == Strip(cell) && q.originalIndex == index
    ensures q.priorityScore <= 3 * |KeywordScorer.High| + 2 * |KeywordScorer.Medium|
  {
    var text := Strip(cell);
    PriorityScoreBounds(text);
    Question(text, Label(Categorize(text)), PriorityScore(text), index)
  }

  /** The records of the kept cells, in spreadsheet order. */
  function ScoreRows(cells: seq<string>): (qs: seq<Question>)
    ensures forall j, l :: 0 <= j < l < |qs| ==> qs[j].originalIndex < qs[l].originalIndex
    ensures forall j :: 0 <= j < |qs| ==>
      && qs[j].originalIndex < |cells|
      && KeepRow(cells[qs[j].originalIndex])
      && qs[j] == MakeQuestion(cells[qs[j].originalIndex], qs[j].originalIndex)
    ensures forall i :: 0 <= i < |cells| && KeepRow(cells[i]) ==>
      exists j :: 0 <= j < |qs| && qs[j].originalIndex == i
  {
    var ks := KeptIndices(cells);
    var qs := seq(|ks|, j requires 0 <= j < |ks| => MakeQuestion(cells[ks[j]], ks[j]));
    KeptRecords(cells, qs, (q: Question) => q.originalIndex);
    qs
  }

  function Score(q: Question): real
  {
    q.priorityScore as real
  }

  /** The run on the cells of the question column. The output ranks the
      kept cells' records highest score first, keeps input order among equal
      scores and numbers the result 1..n; the tiers hold the ranked records
      whose score is at least 6, between 3 and 5, and below 3. The full
      ranking and the high tier are the two files the run writes. */
  function ProcessExcelFile(cells: seq<string>): (out: Split<Question>)
    ensures forall i :: 0 <= i < |out.ranked| ==> out.ranked[i].rank == i + 1
    ensures multiset(Items(out.ranked)) == multiset(ScoreRows(cells))
    ensures NonIncreasing(Items(out.ranked), Score)
    ensures forall k :: WithKey(Items(out.ranked), Score, k) == WithKey(ScoreRows(cells), Score, k)
    ensures forall r :: r in out.high <==> r in out.ranked && r.item.priorityScore >= HighThreshold
    ensures forall r :: r in out.medium <==>
      r in out.ranked && MediumThreshold <= r.item.priorityScore < HighThreshold
    ensures forall r :: r in out.low <==> r in out.ranked && r.item.priorityScore < MediumThreshold
  {
    RankAndSplit(ScoreRows(cells), Score, HighThreshold as real, MediumThreshold as real)
  }

  /** A cell's record is among the scored records exactly when the cell
      passes the filter. */
  lemma ScoredExactlyKept(cells: seq<string>, i: nat)
    requires i < |cells|
    ensures MakeQuestion(cells[i], i) in ScoreRows(cells) <==> KeepRow(cells[i])
  {
    var scored := ScoreRows(cells);
    var q := MakeQuestion(cells[i], i);
    if KeepRow(cells[i]) {
      var j :| 0 <= j < |scored| && scored[j].originalIndex == i;
      assert scored[j] == q;
    }
    if q in scored {
      var j :| 0 <= j < |scored| && scored[j] == q;
      assert scored[j].originalIndex == i;
    }
  }

  /** A cell's record is in the ranked output exactly when the cell passes
      the filter. */
  lemma KeptCellsAreRanked(cells: seq<string>, i: nat)
    requires i < |cells|
    ensures MakeQuestion(cells[i], i) in Items(ProcessExcelFile(cells).ranked) <==> KeepRow(cells[i])
  {
    var ranked := Items(ProcessExcelFile(cells).ranked);
    var scored := ScoreRows(cells);
    var q := MakeQuestion(cells[i], i);
    ScoredExactlyKept(cells, i);
    assert multiset(ranked) == multiset(scored);
    assert q in ranked <==> q in multiset(ranked);
    assert q in scored <==> q in multiset(scored);
  }

  /** The ranked list is the high tier, then the medium tier, then the low
      tier: the high-priority file is a prefix of the full ranking. */
  lemma TiersAreBlocks(cells: seq<string>)
    ensures var out := ProcessExcelFile(cells);
      out.high + out.medium + out.low == out.ranked
  {
    RankedTiersAreBlocks(ScoreRows(cells), Score, HighThreshold as real, MediumThreshold as real);
  }
}
