/**
 The answering session kept by `KnowledgeDB`, with the SQLite tables replaced
 by an immutable state: the questions table, the responses table and the
 single progress row (the current question index and the response counter).
 Each database method becomes a function from the old state to the new one.
 */
module Session {

  datatype Option<T> = None | Some(value: T)

  /** A JSON value inside an import object. A boolean binds as the integer
      1 or 0, so it is an `Int`; `Float` is any other finite or infinite
      number, given by the text a TEXT column stores for it (`"2.5"`);
      Python's `json` also reads `NaN`; `Composite` is a nested list or
      object. */
  datatype Value = Str(s: string) | Int(n: int) | Float(stored: string) | NaN | Null | Composite

  /** The range of an SQLite INTEGER, the only integers sqlite3 can bind. */
  const MinInt64: int := -0x8000_0000_0000_0000
  const MaxInt64: int := 0x7fff_ffff_ffff_ffff

  /** One element of the list handed to `import_questions`: a plain string, a
      JSON object given by its fields, or any other JSON value. */
  datatype Entry = Plain(s: string) | Record(fields: map<string, Value>) | Other

  /** A row of the questions table. `orderIndex` is the entry's position in
      the import call that created it. */
  datatype QuestionRow = QuestionRow(id: nat, text: string, category: Option<string>, orderIndex: nat)

  /** A row of the responses table. Nothing ties `questionId` to an existing
      question: SQLite does not enforce the foreign key unless asked to. */
  datatype ResponseRow = ResponseRow(
    id: nat, questionId: int, transcription: string, audioPath: Option<string>, duration: Option<real>)

  /** The two tables and the progress row. */
  datatype State = State(
    questions: seq<QuestionRow>,
    responses: seq<ResponseRow>,
    currentIndex: nat,
    totalResponses: nat)

  /** A freshly initialised database: empty tables, index and counter at 0. */
  const Fresh: State := State([], [], 0, 0)

  const DefaultCategory: string := "General"

  /** Row ids are handed out 1, 2, 3, ... (AUTOINCREMENT with no deletions)
      and the response counter agrees with the responses table. */
  predicate WellFormed(st: State)
  {
    && (forall i :: 0 <= i < |st.questions| ==> st.questions[i].id == i + 1)
    && (forall i :: 0 <= i < |st.responses| ==> st.responses[i].id == i + 1)
    && st.totalResponses == |st.responses|
  }

  // ---------------------------------------------------------------------
  // Import

  /** The text and category an import entry contributes; a null category
      is stored as NULL. */
  datatype Normalized = Normalized(text: string, category: Option<string>)

  /** The value an object contributes as its text: "question", else "text",
      else the empty string. */
  function TextField(f: map<string, Value>): Value
  {
    if "question" in f then f["question"] else if "text" in f then f["text"] else Str("")
  }

  /** The value an object contributes as its category: "category", else
      "General". */
  function CategoryField(f: map<string, Value>): Value
  {
    if "category" in f then f["category"] else Str(DefaultCategory)
  }

  /** Whether sqlite3 can bind the value as a parameter: a nested list or
      object cannot be bound, and an integer outside the 64-bit range raises
      OverflowError. */
  predicate Bindable(v: Value)
  {
    !v.Composite? && !(v.Int? && !(MinInt64 <= v.n <= MaxInt64))
  }

  /** The decimal digits of a natural number. */
  function Digits(n: nat): string
  {
    if n < 10 then ["0123456789"[n]] else Digits(n / 10) + ["0123456789"[n % 10]]
  }

  /** The text a TEXT column stores for an integer. */
  function Decimal(n: int): string
  {
    if n < 0 then "-" + Digits(-n) else Digits(n)
  }

  /** What a TEXT column holds for a bindable value: NULL for a null, and
      for a NaN, which SQLite stores as NULL. */
  function Stored(v: Value): Option<string>
    requires Bindable(v)
  {
    match v
    case Str(s) => Some(s)
    case Int(n) => Some(Decimal(n))
    case Float(t) => Some(t)
    case _ => None
  }

  /** The entry's row can be inserted. A value that is neither a string nor
      an object has no `get`; a text or category that cannot be bound makes
      the insert raise; a text stored as NULL breaks the column's NOT NULL
      constraint. */
  predicate Insertable(e: Entry)
  {
    match e
    case Plain(_) => true
    case Record(f) => Bindable(TextField(f)) && Stored(TextField(f)).Some? && Bindable(CategoryField(f))
    case Other => false
  }

  /** How `import_questions` reads one insertable entry: a string is the
      question text with category "General"; an object takes its text from
      "question", else from "text", else the empty string, and its category
      from "category", else "General", each stored as its column holds it. */
  function Normalize(e: Entry): (n: Normalized)
    requires Insertable(e)
    ensures e.Plain? ==> n == Normalized(e.s, Some(DefaultCategory))
    ensures e.Record? && "question" in e.fields ==> Stored(e.fields["question"]) == Some(n.text)
    ensures e.Record? && "question" !in e.fields && "text" in e.fields ==> Stored(e.fields["text"]) == Some(n.text)
    ensures e.Record? && "question" !in e.fields && "text" !in e.fields ==> n.text == ""
    ensures e.Record? && "category" in e.fields ==> n.category == Stored(e.fields["category"])
    ensures n.category.None? <==>
      e.Record? && "category" in e.fields && (e.fields["category"].Null? || e.fields["category"].NaN?)
    ensures e.Record? && "category" !in e.fields ==> n.category == Some(DefaultCategory)
  {
    match e
    case Plain(s) => Normalized(s, Some(DefaultCategory))
    case Record(f) => Normalized(Stored(TextField(f)).value, Stored(CategoryField(f)))
  }

  /** Position of the first entry whose insert raises, or `|entries|`. */
  function FirstRejected(entries: seq<Entry>): (k: nat)
    ensures k <= |entries|
    ensures forall i :: 0 <= i < k ==> Insertable(entries[i])
    ensures k < |entries| ==> !Insertable(entries[k])
  {
    if |entries| == 0 then 0
    else if !Insertable(entries[0]) then 0
    else 1 + FirstRejected(entries[1..])
  }

  /** The rows one import call inserts after `base` existing rows. */
  function NewRows(base: nat, entries: seq<Entry>): seq<QuestionRow>
    requires forall i :: 0 <= i < |entries| ==> Insertable(entries[i])
  {
    seq(|entries|, i requires 0 <= i < |entries| =>
      QuestionRow(base + i + 1, Normalize(entries[i]).text, Normalize(entries[i]).category, i))
  }

  datatype ImportResult = Imported(state: State) | Failed(at: nat)

  /** `import_questions`. The call fails, changing nothing (the inserts are
      never committed), exactly when some entry cannot be inserted, and it
      reports the first such entry. Otherwise it only appends:
      one row per entry, in order, whose `orderIndex` is the entry's position
      in this call, starting from 0 again on every call. */
  function ImportQuestions(st: State, entries: seq<Entry>): (r: ImportResult)
    ensures r.Failed? <==> exists i :: 0 <= i < |entries| && !Insertable(entries[i])
    ensures r.Failed? ==>
      && r.at < |entries| && !Insertable(entries[r.at])
      && forall i :: 0 <= i < r.at ==> Insertable(entries[i])
    ensures r.Imported? ==>
      && |r.state.questions| == |st.questions| + |entries|
      && r.state.questions[..|st.questions|] == st.questions
      && (forall j :: |st.questions| <= j < |r.state.questions| ==>
            && r.state.questions[j].orderIndex == j - |st.questions|
            && r.state.questions[j].text == Normalize(entries[j - |st.questions|]).text
            && r.state.questions[j].category == Normalize(entries[j - |st.questions|]).category)
      && r.state.responses == st.responses
      && r.state.currentIndex == st.currentIndex
      && r.state.totalResponses == st.totalResponses
  {
    var bad := FirstRejected(entries);
    if bad < |entries| then Failed(bad)
    else
      var rows := NewRows(|st.questions|, entries);
      var questions := st.questions + rows;
      assert questions[..|st.questions|] == st.questions;
      assert forall j :: |st.questions| <= j < |questions| ==> questions[j] == rows[j - |st.questions|];
      Imported(st.(questions := questions))
  }

  /** An object whose "question" cannot be stored stops the whole import,
      even when it also carries a "text", and no later entry is reached: a
      null or a NaN is bound as NULL, which the NOT NULL column rejects, and
      an integer beyond 64 bits cannot be bound at all. */
  lemma UnstorableQuestionFailsImport(st: State, entries: seq<Entry>, i: nat)
    requires i < |entries| && entries[i].Record? && "question" in entries[i].fields
    requires var v := entries[i].fields["question"];
      v.Null? || v.NaN? || (v.Int? && (v.n < MinInt64 || v.n > MaxInt64))
    ensures ImportQuestions(st, entries).Failed?
    ensures ImportQuestions(st, entries).at <= i
  {
  }

  // ---------------------------------------------------------------------
  // Lookup

  /** The row the query returns in this model: the first in table order. */
  function FirstWithIndex(rows: seq<QuestionRow>, index: int): (r: Option<QuestionRow>)
    ensures r.None? <==> forall q :: q in rows ==> q.orderIndex != index
    ensures r.Some? ==> r.value in rows && r.value.orderIndex == index
  {
    if |rows| == 0 then None
    else if rows[0].orderIndex == index then Some(rows[0])
    else FirstWithIndex(rows[1..], index)
  }

  /** `get_question_by_index`: some row whose `orderIndex` is `index`, or
      nothing when there is none. The query has no ORDER BY, so when several
      imports left several rows with that index, any of them is a correct
      answer; the contract promises no more than that. */
  function QuestionByIndex(st: State, index: int): (r: Option<QuestionRow>)
    ensures r.None? <==> forall q :: q in st.questions ==> q.orderIndex != index
    ensures r.Some? ==> r.value in st.questions && r.value.orderIndex == index
  {
    FirstWithIndex(st.questions, index)
  }

  /** The current question together with the progress figures added to it. */
  datatype Current = Current(question: QuestionRow, currentIndex: nat, totalQuestions: nat)

  /** `get_current_question`: nothing when no row has the current index;
      otherwise such a row, annotated with the current index and the number
      of questions. */
  function GetCurrentQuestion(st: State): (r: Option<Current>)
    ensures r.None? <==> forall q :: q in st.questions ==> q.orderIndex != st.currentIndex
    ensures r.Some? ==>
      && r.value.question in st.questions
      && r.value.question.orderIndex == st.currentIndex
      && r.value.currentIndex == st.currentIndex
      && r.value.totalQuestions == |st.questions|
  {
    match QuestionByIndex(st, st.currentIndex)
    case None => None
    case Some(q) => Some(Current(q, st.currentIndex, |st.questions|))
  }

  // ---------------------------------------------------------------------
  // Progress

  datatype Saved = Saved(state: State, responseId: nat)

  /** `save_response`: appends exactly one response, for whatever question id
      it is given, and bumps the response counter; the questions and the
      current index are untouched. The returned id is the new row's. */
  function SaveResponse(st: State, questionId: int, transcription: string,
                        audioPath: Option<string>, duration: Option<real>): (r: Saved)
    ensures |r.state.responses| == |st.responses| + 1
    ensures r.state.responses[..|st.responses|] == st.responses
    ensures r.state.responses[|st.responses|] == ResponseRow(r.responseId, questionId, transcription, audioPath, duration)
    ensures r.state.totalResponses == st.totalResponses + 1
    ensures r.state.questions == st.questions
    ensures r.state.currentIndex == st.currentIndex
  {
    var id := |st.responses| + 1;
    var row := ResponseRow(id, questionId, transcription, audioPath, duration);
    assert (st.responses + [row])[..|st.responses|] == st.responses;
    Saved(st.(responses := st.responses + [row], totalResponses := st.totalResponses + 1), id)
  }

  /** `advance_to_next_question`: the index goes up by exactly one, with no
      upper bound, and nothing else changes. */
  function AdvanceToNextQuestion(st: State): (r: State)
    ensures r.currentIndex == st.currentIndex + 1
    ensures r.questions == st.questions && r.responses == st.responses && r.totalResponses == st.totalResponses
  {
    st.(currentIndex := st.currentIndex + 1)
  }

  /** `reset_progress`: back to the first question; questions, responses and
      the response counter are kept. */
  function ResetProgress(st: State): (r: State)
    ensures r.currentIndex == 0
    ensures r.questions == st.questions && r.responses == st.responses && r.totalResponses == st.totalResponses
  {
    st.(currentIndex := 0)
  }

  datatype Stats = Stats(
    totalQuestions: nat, totalResponses: nat, currentQuestionIndex: nat, completionPercentage: real)

  /** `get_stats`. The response count is taken from the responses table, not
      from the counter. Completion is 0 without questions and otherwise the
      responses-to-questions ratio in percent; it is never negative and is not
      capped at 100. */
  function GetStats(st: State): (r: Stats)
    ensures r.totalQuestions == |st.questions| && r.totalResponses == |st.responses|
    ensures r.currentQuestionIndex == st.currentIndex
    ensures |st.questions| == 0 ==> r.completionPercentage == 0.0
    ensures |st.questions| > 0 ==> r.completionPercentage * (|st.questions| as real) == 100.0 * (|st.responses| as real)
    ensures r.completionPercentage >= 0.0
  {
    var q := |st.questions|;
    var n := |st.responses|;
    var completion := if q > 0 then (n as real) / (q as real) * 100.0 else 0.0;
    Stats(q, n, st.currentIndex, completion)
  }

  // ---------------------------------------------------------------------
  // Properties relating the operations

  /** Every operation keeps ids sequential and the counter equal to the
      number of responses, starting from a fresh database. */
  lemma OperationsPreserveWellFormed(st: State, entries: seq<Entry>, questionId: int, transcription: string,
                                     audioPath: Option<string>, duration: Option<real>)
    requires WellFormed(st)
    ensures WellFormed(Fresh)
    ensures ImportQuestions(st, entries).Imported? ==> WellFormed(ImportQuestions(st, entries).state)
    ensures WellFormed(SaveResponse(st, questionId, transcription, audioPath, duration).state)
    ensures SaveResponse(st, questionId, transcription, audioPath, duration).responseId
         == SaveResponse(st, questionId, transcription, audioPath, duration).state.totalResponses
    ensures WellFormed(AdvanceToNextQuestion(st))
    ensures WellFormed(ResetProgress(st))
  {
    var r := ImportQuestions(st, entries);
    if r.Imported? {
      var rows := NewRows(|st.questions|, entries);
      assert r.state.questions == st.questions + rows;
    }
  }

  /** In a well-formed state the counter reported nowhere but kept in the
      progress row agrees with the count `get_stats` reports. */
  lemma StatsCountMatchesCounter(st: State)
    requires WellFormed(st)
    ensures GetStats(st).totalResponses == st.totalResponses
  {
  }

  /** Saving a response does not move the cursor: the current question is the
      same before and after. */
  lemma SaveKeepsCurrentQuestion(st: State, questionId: int, transcription: string,
                                 audioPath: Option<string>, duration: Option<real>)
    ensures GetCurrentQuestion(SaveResponse(st, questionId, transcription, audioPath, duration).state)
         == GetCurrentQuestion(st)
  {
  }

  /** Resetting changes only the reported index: the response count and the
      completion percentage survive it. */
  lemma ResetKeepsStats(st: State)
    ensures GetStats(ResetProgress(st)) == GetStats(st).(currentQuestionIndex := 0)
  {
  }

  /** Completion counts responses, not answered questions, so answering the
      only question twice reports 200 percent. */
  lemma CompletionCanExceedHundred()
    ensures var st := State([QuestionRow(1, "q", Some(DefaultCategory), 0)], [], 0, 0);
      var once := SaveResponse(st, 1, "a", None, None).state;
      var twice := SaveResponse(once, 1, "b", None, None).state;
      GetStats(twice).completionPercentage == 200.0
  {
  }

  /** `advance_to_next_question` called `k` times. */
  function AdvanceTimes(st: State, k: nat): State
  {
    if k == 0 then st else AdvanceToNextQuestion(AdvanceTimes(st, k - 1))
  }

  lemma {:induction false} AdvanceTimesMovesOnlyIndex(st: State, k: nat)
    ensures AdvanceTimes(st, k) == st.(currentIndex := st.currentIndex + k)
  {
    if k > 0 {
      AdvanceTimesMovesOnlyIndex(st, k - 1);
    }
  }

  /** On rows numbered consecutively from `start`, the lookup is positional. */
  lemma {:induction false} ConsecutiveLookup(rows: seq<QuestionRow>, start: int, index: int)
    requires forall i :: 0 <= i < |rows| ==> rows[i].orderIndex == start + i
    ensures start <= index < start + |rows| ==> FirstWithIndex(rows, index) == Some(rows[index - start])
    ensures !(start <= index < start + |rows|) ==> FirstWithIndex(rows, index) == None
  {
    if |rows| > 0 && rows[0].orderIndex != index {
      var tail := rows[1..];
      assert forall i :: 0 <= i < |tail| ==> tail[i].orderIndex == (start + 1) + i by {
        assert forall i :: 0 <= i < |tail| ==> tail[i] == rows[i + 1];
      }
      ConsecutiveLookup(tail, start + 1, index);
      if start <= index < start + |rows| {
        assert tail[index - (start + 1)] == rows[index - start];
      }
    }
  }

  /** Into an empty question table, an import numbers the rows by their
      position. */
  lemma FreshImportPositions(st: State, entries: seq<Entry>)
    requires st.questions == []
    requires ImportQuestions(st, entries).Imported?
    ensures var rows := ImportQuestions(st, entries).state.questions;
      |rows| == |entries| && forall i :: 0 <= i < |rows| ==> rows[i].orderIndex == i
  {
  }

  /** When the table's rows carry the indices 0, 1, 2, ... in order, the
      lookup by index is exact. */
  lemma PositionalLookup(st: State, index: int)
    requires forall i :: 0 <= i < |st.questions| ==> st.questions[i].orderIndex == i
    ensures if 0 <= index < |st.questions| then QuestionByIndex(st, index) == Some(st.questions[index])
      else QuestionByIndex(st, index).None?
  {
    ConsecutiveLookup(st.questions, 0, index);
  }

  /** Importing into a database without questions makes the lookup exact:
      index `i` finds the row of the `i`-th entry, and an index outside the
      list finds nothing. */
  lemma SingleImportLookup(st: State, entries: seq<Entry>, index: int)
    requires st.questions == []
    requires ImportQuestions(st, entries).Imported?
    ensures var st' := ImportQuestions(st, entries).state;
      if 0 <= index < |entries| then QuestionByIndex(st', index) == Some(st'.questions[index])
      else QuestionByIndex(st', index).None?
  {
    FreshImportPositions(st, entries);
    PositionalLookup(ImportQuestions(st, entries).state, index);
  }

  /** A whole session after one import into an empty question table: after a
      reset and `k` advances the current question is the `k`-th entry, with
      its text and category, until the list runs out. */
  lemma Walkthrough(st: State, entries: seq<Entry>, k: nat)
    requires st.questions == []
    requires ImportQuestions(st, entries).Imported?
    ensures var at := AdvanceTimes(ResetProgress(ImportQuestions(st, entries).state), k);
      var cur := GetCurrentQuestion(at);
      if k < |entries| then
        && cur.Some?
        && cur.value.question.text == Normalize(entries[k]).text
        && cur.value.question.category == Normalize(entries[k]).category
        && cur.value.currentIndex == k
        && cur.value.totalQuestions == |entries|
      else cur.None?
  {
    var st' := ImportQuestions(st, entries).state;
    FreshImportPositions(st, entries);
    SingleImportLookup(st, entries, k);
    var at := AdvanceTimes(ResetProgress(st'), k);
    AdvanceTimesMovesOnlyIndex(ResetProgress(st'), k);
    assert at == st'.(currentIndex := k);
    if k < |entries| {
      assert st'.questions[k].text == Normalize(entries[k]).text;
      assert st'.questions[k].category == Normalize(entries[k]).category;
    }
    assert GetCurrentQuestion(at) == match QuestionByIndex(at, k)
      case None => None
      case Some(q) => Some(Current(q, k, |st'.questions|));
  }

  /** Each import restarts `orderIndex` at 0, so importing the same list
      twice leaves two different rows claiming index 0; the lookup may then
      return either. */
  lemma RepeatedImportDuplicatesIndices(st: State, entries: seq<Entry>)
    requires WellFormed(st)
    requires |entries| > 0
    requires ImportQuestions(st, entries).Imported?
    ensures var once := ImportQuestions(st, entries).state;
      var twice := ImportQuestions(once, entries);
      && twice.Imported?
      && var rows := twice.state.questions;
      && var a := rows[|st.questions|];
      && var b := rows[|st.questions| + |entries|];
      && a != b && a.orderIndex == 0 && b.orderIndex == 0
  {
    var once := ImportQuestions(st, entries).state;
    OperationsPreserveWellFormed(st, entries, 0, "", None, None);
    OperationsPreserveWellFormed(once, entries, 0, "", None, None);
    var rows := ImportQuestions(once, entries).state.questions;
    assert rows[..|once.questions|] == once.questions;
    assert rows[|st.questions|] == once.questions[|st.questions|];
  }
}
