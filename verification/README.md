# ProjectSelf question pipeline and answering session, in Dafny

ProjectSelf collects spoken answers to a long list of reflective questions.
Two batch scripts turn a spreadsheet column of questions into a ranked,
categorised list:

- the keyword script, `process_questions.py`;
- the embedding script, `process_questions_ai.py`.

A small SQLite layer, `database.py`, imports that list and walks a speaker
through it one question at a time.

This project models those three pieces as pure Dafny functions over
immutable values and proves what they promise.

- `text.dfy` (module `Text`): the string operations the scripts rely on.
  These are `str.lower()`, `str.strip()` with Python's exact whitespace set,
  and the `in` substring test, modelled as literal matching.
- `rows.dfy` (module `RowFilter`): the row filter both scripts apply. A cell
  is kept when its stripped text is not empty, not `'nan'`, and at least ten
  characters long.
- `keyword_scorer.dfy` (module `KeywordScorer`): the three keyword tiers and
  `calculate_priority_score`. The score gets +3, +2 or −1 for every listed
  keyword that occurs in the lower-cased text, and is floored at 0. The
  script's loops are a method with loop invariants. A set-based definition is
  the reference it is proved equal to.
- `categorizer.dfy` (module `Categorizer`): `categorize_question`. It is an
  ordered rule list where the first matching rule wins, and "General Wisdom"
  is the fallback.
- `ranking.dfy` (module `Ranking`): the post-processing shared by both
  scripts. It has a stable sort, highest score first, which models
  `list.sort(key=…, reverse=True)`. Ranks come from `enumerate(…, 1)`. The
  three tiers come from the list comprehensions. The module is generic, so
  both scripts use it.
- `keyword_pipeline.dfy` (module `KeywordPipeline`): `process_excel_file`
  after the question column has been read. Tiers are at 6 and 3.
- `embedding_scorer.dfy` (module `EmbeddingScorer`): the part of the
  embedding script after the five theme similarities are known. That is the
  weighted alignment score, the primary theme (Python's `max`, where the first
  maximum wins in theme order) and `category_map`.
- `embedding_pipeline.dfy` (module `EmbeddingPipeline`): `process_with_ai`
  after the column has been read. Tiers are at 4.0 and 3.0. The similarities
  are a function `sims` of the question text. Python's `round(x, 3)` is a
  function parameter `round3` about which nothing is assumed.
- `session.dfy` (module `Session`): `KnowledgeDB` as an abstract state. The
  state holds the questions table, the responses table, the current index
  and the response counter. `import_questions` normalises each entry;
  `get_question_by_index`, `get_current_question`, `save_response`,
  `advance_to_next_question`, `reset_progress` and `get_stats` are
  functions from state to state or to a result.

## Model

| member | source | states |
|---|---|---|
| Text.Lower | process_questions.py:56 | Lower-casing keeps the length and maps each character on its own: upper-case letters to lower case, everything else unchanged |
| Text.LowerIdempotent | process_questions.py:79 | Lower-casing an already lower-cased text changes nothing |
| Text.ContainsIff | process_questions.py:61 | The substring test holds exactly when the keyword occurs at some position of the text |
| Text.ContainsTransitive | process_questions.py:61 | A text containing a string also contains every substring of that string (so "again" carries "ai") |
| Text.Strip | process_questions.py:145 | The stripped text is a contiguous slice whose cut-off ends are all whitespace, and it neither starts nor ends with whitespace |
| Text.StripIdempotent | process_questions.py:145 | Stripping twice is stripping once |
| RowFilter.KeepRow | process_questions.py:145-149 | A cell is kept exactly when its stripped text has at least ten characters; a kept text is never empty and never 'nan' |
| RowFilter.KeptIndices | process_questions.py:144-149 | The kept positions are exactly the cells that pass the filter, in increasing order |
| RowFilter.KeptRecords | process_questions.py:143-161 | Records built one per kept position, remembering it, are in spreadsheet order, each from a kept cell, with every kept cell represented |
| KeywordScorer.AddTier | process_questions.py:59-72 | One tier's loop adds its weight once per keyword entry found in the text |
| KeywordScorer.CalculatePriorityScore | process_questions.py:54-74 | The score is max(0, 3·high hits + 2·medium hits − low hits) on the lower-cased text, each list entry counted at most once; it is never negative and equals the set-based reference score |
| KeywordScorer.PriorityScoreIgnoresCase | process_questions.py:56 | A text and its lower-cased form score the same |
| KeywordScorer.PriorityScoreBounds | process_questions.py:20-52 | No text scores more than 3 per high keyword plus 2 per medium keyword |
| KeywordScorer.HumanityHitsTwice | process_questions.py:32 | A text containing "humanity" hits both the "humanity" and the "human" entries of the high tier |
| KeywordScorer.HumanityAloneScoresSix | process_questions.py:32 | Without low-tier keywords, a text mentioning "humanity" already reaches the high-priority threshold of 6 |
| Categorizer.AnyContains | process_questions.py:82 | `any(word in text …)` holds exactly when some keyword of the list occurs in the text |
| Categorizer.Categorize | process_questions.py:77-117 | The category is "General Wisdom" exactly when no rule has a keyword in the lower-cased text; otherwise it is the category of a rule that fires and that no earlier rule pre-empts |
| Categorizer.CategorizeIgnoresCase | process_questions.py:79 | A text and its lower-cased form get the same category |
| Categorizer.TechnologyRuleWins | process_questions.py:81-83 | Any technology keyword makes the category "Technology & Future", whatever else the text says |
| Categorizer.AgainMeansTechnology | process_questions.py:82 | A question containing the word "again" is categorised "Technology & Future", because 'ai' matches inside it |
| Categorizer.LearningNeverPersonalGrowth | process_questions.py:110 | 'learning' is also a youth keyword, and that rule comes first, so a text mentioning learning is never "Personal Growth" |
| Ranking.SortDescProperties | process_questions.py:165 | The sort returns a permutation of its input, with scores non-increasing, and items of equal score keep their input order |
| Ranking.SortAndRank | process_questions.py:165-169 | The ranked list is the stably sorted input, numbered 1..n in output order |
| Ranking.TierOf | process_questions.py:187-189 | A score is high exactly when it reaches the high threshold, medium exactly when it lies between the two thresholds, low exactly when it is below the medium threshold |
| Ranking.TierMembership | process_questions.py:187-189 | An item is in a tier's list exactly when it is in the input with a score in that tier |
| Ranking.Partition | process_questions.py:187-189 | The three tier lists hold exactly the input items scoring at least the high threshold, between the thresholds, and below the medium threshold |
| Ranking.PartitionPermutes | process_questions.py:187-189 | Every input item lands in exactly one tier, as often as it occurs |
| Ranking.TierKeepsOrder | process_questions.py:187-189 | Each tier lists its items in input order |
| Ranking.SortedTiersAreBlocks | process_questions.py:187-189 | On a list sorted highest first, the high, medium and low tiers concatenated give back the list |
| Ranking.RankAndSplit | process_questions.py:164-189 | Ranking and splitting gives a stable, non-increasing, 1..n-numbered permutation of the input, and three tiers holding exactly its items above, between and below the thresholds |
| Ranking.RankedTiersAreBlocks | process_questions.py:187-189 | The high tier is a prefix of the ranking, followed by the medium and then the low tier |
| KeywordPipeline.MakeQuestion | process_questions.py:145-161 | A record carries the stripped text and its spreadsheet index, and its score never exceeds the keyword bound |
| KeywordPipeline.ScoreRows | process_questions.py:143-161 | Records come in strictly increasing spreadsheet position; each is the record of a cell that passes the filter, built from that cell and its position; every cell that passes has a record |
| KeywordPipeline.ProcessExcelFile | process_questions.py:143-189 | The output ranks the kept cells' records highest score first, stably, numbered 1..n; the tiers hold the ranked records scoring at least 6, from 3 to 5, and below 3 |
| KeywordPipeline.ScoredExactlyKept | process_questions.py:144-161 | A cell's record is among the scored records exactly when the cell passes the filter |
| KeywordPipeline.KeptCellsAreRanked | process_questions.py:144-169 | A cell's record appears in the ranked output exactly when the cell passes the filter |
| KeywordPipeline.TiersAreBlocks | process_questions.py:187-205 | The high-priority file is a prefix of the full ranking, and the high, medium and low tiers concatenated give back the ranking |
| EmbeddingScorer.AlignmentScore | process_questions_ai.py:108-114 | With every similarity in [−1, 1], the alignment score lies in [−7.2, 7.2] |
| EmbeddingScorer.AlignmentIsWeightedSum | process_questions_ai.py:108-114 | The alignment score is the sum over the themes, in theme order, of weight × similarity |
| EmbeddingScorer.AlignmentMonotone | process_questions_ai.py:108-114 | Raising any similarity never lowers the alignment score |
| EmbeddingScorer.FirstMaxIndex | process_questions_ai.py:117 | `max` returns a position of maximal similarity before which every similarity is strictly smaller |
| EmbeddingScorer.PrimaryTheme | process_questions_ai.py:117 | The primary theme has maximal similarity, and every theme earlier in theme order has a strictly smaller one |
| EmbeddingScorer.PrimaryThemeIff | process_questions_ai.py:117 | A theme is primary exactly when its similarity is maximal and every earlier theme's is strictly smaller |
| EmbeddingScorer.TieGoesToTechnology | process_questions_ai.py:117 | When technology and biology tie for the top similarity, the primary theme is technology, the theme listed first |
| EmbeddingScorer.Category | process_questions_ai.py:119-129 | The category is one of the five mapped labels, and it is the label of the primary theme and of no other theme |
| EmbeddingPipeline.MakeQuestion | process_questions_ai.py:91-135 | A record carries the stripped text and its spreadsheet index, and a category among the five labels |
| EmbeddingPipeline.ScoreRows | process_questions_ai.py:90-135 | Records come in strictly increasing spreadsheet position; each is the record of a cell that passes the filter, built from that cell and its position; every cell that passes has a record |
| EmbeddingPipeline.ProcessWithAi | process_questions_ai.py:89-164 | The output ranks the kept cells' records by stored (rounded) alignment score, highest first, stably, numbered 1..n; the tiers hold the ranked records scoring at least 4.0, from 3.0 up to 4.0, and below 3.0 |
| EmbeddingPipeline.ScoredExactlyKept | process_questions_ai.py:90-94 | A cell's record is among the scored records exactly when the cell passes the filter |
| EmbeddingPipeline.KeptCellsAreRanked | process_questions_ai.py:90-143 | A cell's record appears in the ranked output exactly when the cell passes the filter |
| EmbeddingPipeline.TiersAreBlocks | process_questions_ai.py:162-180 | The high-alignment file is a prefix of the full ranking, and the tiers concatenated give back the ranking |
| Session.Normalize | database.py:72-73 | A string imports as itself with category "General". An object's text is the column's stored form of "question", else "text", else "". Its category is the stored form of "category", else "General". The category is NULL exactly when "category" is null or NaN |
| Session.FirstRejected | database.py:71-78 | Finds the first entry whose insert raises, with every earlier entry insertable. Such an entry is a value without `get`, a null or NaN text, or a text or category that cannot be bound (a nested list or object, or an integer beyond 64 bits) |
| Session.ImportQuestions | database.py:62-81 | The import fails, changing nothing, exactly when some entry cannot be inserted, and reports the first such entry. Otherwise it only appends one row per entry, in order, with orderIndex equal to the entry's position in this call |
| Session.UnstorableQuestionFailsImport | database.py:24 | An object whose "question" is null, NaN or an integer beyond 64 bits makes the whole import fail at or before it, even when it has a "text" |
| Session.FirstWithIndex | database.py:88-99 | Finds a row with the requested index, and nothing exactly when no row has it |
| Session.QuestionByIndex | database.py:83-99 | Returns some row whose orderIndex is the requested index, and nothing exactly when no row has that index |
| Session.GetCurrentQuestion | database.py:101-121 | Nothing when no row has the current index; otherwise such a row annotated with the current index and the number of questions |
| Session.SaveResponse | database.py:123-146 | Appends exactly one response for the given question id, with no check that the question exists, and bumps the counter; questions and the current index stay as they were |
| Session.AdvanceToNextQuestion | database.py:148-160 | The current index goes up by exactly one, with no upper bound, and nothing else changes |
| Session.ResetProgress | database.py:211-219 | The current index returns to 0; questions, responses and the counter are kept |
| Session.GetStats | database.py:188-209 | Counts come from the tables. Completion is 0 without questions, and otherwise satisfies completion × questions = 100 × responses. It is never negative |
| Session.OperationsPreserveWellFormed | database.py:21-43 | Every operation keeps row ids numbered 1, 2, 3, … and the counter equal to the number of responses; a saved response's id is the new count |
| Session.StatsCountMatchesCounter | database.py:193-197 | In a well-formed state, the response count get_stats reports equals the counter kept in the progress row |
| Session.SaveKeepsCurrentQuestion | database.py:123-146 | Saving a response leaves the current question unchanged |
| Session.ResetKeepsStats | database.py:211-219 | After a reset the statistics are the same except for the current index, which is 0 |
| Session.CompletionCanExceedHundred | database.py:208 | Completion counts responses, not answered questions: two answers to the only question report 200 percent |
| Session.AdvanceTimesMovesOnlyIndex | database.py:148-160 | k advances move the index by k and change nothing else |
| Session.ConsecutiveLookup | database.py:88-99 | On rows numbered consecutively, the lookup by index is positional |
| Session.PositionalLookup | database.py:83-99 | When row i carries index i, looking up i gives row i, and an index outside the table gives nothing |
| Session.FreshImportPositions | database.py:71-78 | Into an empty question table, an import numbers the rows 0, 1, 2, … by position |
| Session.SingleImportLookup | database.py:71-99 | After one import into an empty table, index i finds the row of the i-th entry, and an index outside the list finds nothing |
| Session.Walkthrough | database.py:101-160 | After one import into an empty table, a reset and k advances, the current question is the k-th entry, with its text and category, until the list runs out |
| Session.RepeatedImportDuplicatesIndices | database.py:71-78 | Importing the same list twice leaves two different rows with orderIndex 0 |

## Left out

- Text.Lower: lower-cases only the ASCII letters A–Z and keeps the length. Python's `str.lower()` uses the full Unicode case tables, and that changes matching. Python lower-cases U+0130 (İ) to "i" followed by a combining dot, and the Kelvin sign U+212A to "k". So Python finds 'ai' in "AİR" and this model does not. Python's `lower()` can also change the length of the text.
- KeywordPipeline.MakeQuestion: the contract states the text, the index and the score bound. It does not restate how the category and the score are computed. The category is the output label (`Label`) of `Categorize`'s result and the score is `PriorityScore`; their contracts are stated above.
- EmbeddingPipeline.MakeQuestion: the contract states the text, the index and the category set. It does not restate the alignment and theme scores. Those are `round3` applied to the scorer's results, and `round3` is unspecified.
- EmbeddingScorer.AlignmentScore: the weighted sum is computed in exact reals. Python sums binary floats, so the value handed to `round(x, 3)` can differ from this one in the last bits. Near a rounding point that can change the stored score, the sort position and the tier. With all five similarities at 1.0, for example, the float sum lies just above 7.2.
- Session.GetStats: computes completion in exact rationals. Python divides and multiplies in binary floating point, so its result can differ in the last bits.
- The sentence-embedding model and the cosine similarity are foreign-library floating-point code. The five similarities are inputs. Because the code has no zero-norm guard, a zero vector would give NaN in Python. That case does not exist here.
- `round(x, 3)` is floating-point rounding. It is the parameter `round3`, and nothing is assumed about it.
- Reading the spreadsheet is I/O and is left out: `pd.read_excel`, the search for a `question` or `prompt` column, and the `sys.exit` paths. The model starts from the column's cells, already converted with `str()`. The pandas row label is taken to be the cell's position, which is the default index.
- Writing the JSON files, printing statistics and printing the category counts are output only. The model returns the full ranking and the high tier, which are the contents of the two files.
- SQLite mechanics are left out: connections, SQL text, `created_at` and `last_session_date` timestamps, and the one-row creation of `session_metadata`. The state starts as the freshly initialised database.
- Row ids are modelled as AUTOINCREMENT without deletions, so the next id is the row count plus one. The code never deletes rows.
- `get_all_responses` is a join with `ORDER BY created_at`, which depends on timestamps. It is not part of this model.
- A non-integer number in an import object is given by the text its TEXT column stores for it. How SQLite renders a float as text is not modelled. An integer is stored as its decimal digits.
- Integers are unbounded. SQLite's 64-bit integer limits on ids and counters are not modelled. An import value beyond 64 bits is rejected, as in the code.
- `app.py`, `static/app.js`, `export_knowledge.py` and `import_questions.py` are HTTP, browser and file glue around the modelled functions, and are not part of this model.
