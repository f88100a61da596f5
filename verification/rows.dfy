/**
 The row filter both scoring scripts apply to every spreadsheet cell before
 scoring it: the cell's text is stripped and skipped when it is empty, the
 placeholder `'nan'` (what `str()` makes of an empty cell), or shorter than
 ten characters.
 */
module RowFilter {
  import opened Text

  /** The shortest question text either script keeps. */
  const MinLength: nat := 10

  /** The placeholder an empty spreadsheet cell turns into. */
  const Missing: string := "nan"

  /** Whether a cell survives the filter. The emptiness and `'nan'` tests are
      both subsumed by the length test, so a cell is kept exactly when its
      stripped text has at least ten characters. */
  function KeepRow(cell: string): (keep: bool)
    ensures keep <==> |Strip(cell)| >= MinLength
    ensures keep ==> Strip(cell) != [] && Strip(cell) != Missing
  {
    var text := Strip(cell);
    !(|text| == 0 || text == Missing || |text| < MinLength)
  }

  /** Positions of the elements satisfying `keep`, in increasing order. */
  function Positions<T>(s: seq<T>, keep: T -> bool): (ks: seq<nat>)
    ensures forall j :: 0 <= j < |ks| ==> ks[j] < |s| && keep(s[ks[j]])
    ensures forall i :: 0 <= i < |s| && keep(s[i]) ==> i in ks
    ensures forall j, l :: 0 <= j < l < |ks| ==> ks[j] < ks[l]
  {
    if |s| == 0 then []
    else
      var n := |s| - 1;
      var prefix := s[..n];
      assert forall i :: 0 <= i < n ==> prefix[i] == s[i];
      var front := Positions(prefix, keep);
      var last: seq<nat> := if keep(s[n]) then [n] else [];
      var ks := front + last;
      assert forall j :: 0 <= j < |front| ==> ks[j] == front[j];
      forall i | 0 <= i < |s| && keep(s[i])
        ensures i in ks
      {
        if i < n {
          assert keep(prefix[i]);
          assert i in front;
        } else {
          assert i == n && last == [n];
        }
      }
      ks
  }

  /** Positions of the kept cells, in increasing order: the rows the scripts'
      `for idx, row in df.iterrows()` loop does not `continue` past. */
  function KeptIndices(cells: seq<string>): (ks: seq<nat>)
    ensures forall j :: 0 <= j < |ks| ==> ks[j] < |cells| && KeepRow(cells[ks[j]])
    ensures forall i :: 0 <= i < |cells| && KeepRow(cells[i]) ==> i in ks
    ensures forall j, l :: 0 <= j < l < |ks| ==> ks[j] < ks[l]
  {
    Positions(cells, KeepRow)
  }

  /** Records built one per kept position, in order, each remembering its
      position through `index`: they come in spreadsheet order, each from a
      kept cell, and every kept cell has one. */
  lemma KeptRecords<T>(cells: seq<string>, records: seq<T>, index: T -> nat)
    requires |records| == |KeptIndices(cells)|
    requires forall j :: 0 <= j < |records| ==> index(records[j]) == KeptIndices(cells)[j]
    ensures forall j, l :: 0 <= j < l < |records| ==> index(records[j]) < index(records[l])
    ensures forall j :: 0 <= j < |records| ==> index(records[j]) < |cells| && KeepRow(cells[index(records[j])])
    ensures forall i :: 0 <= i < |cells| && KeepRow(cells[i]) ==>
      exists j :: 0 <= j < |records| && index(records[j]) == i
  {
    var ks := KeptIndices(cells);
    forall i | 0 <= i < |cells| && KeepRow(cells[i])
      ensures exists j :: 0 <= j < |records| && index(records[j]) == i
    {
      var j :| 0 <= j < |ks| && ks[j] == i;
      assert index(records[j]) == i;
    }
  }
}
