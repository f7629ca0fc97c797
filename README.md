# act_graph in Dafny

act_graph is a small set of Python scripts for reviewing quiz results. A quiz
(a "test") is a list of questions, each with a number and a type such as
"Detail" or "Inference". The user types the numbers of the questions they
missed, and the scripts count the questions and the misses per type and draw
the counts. Three programs share this counting pipeline:

- `layered_graph.py` is the main program, modelled in `layered_graph.dfy`.
  - It builds the map from question number to type and counts the questions of each type.
  - It collects the missed numbers from the prompt until `q` is entered.
  - It counts the misses by type.
  - It shapes one stacked bar per type: the bars are sorted by total, each with its
    missed and correct counts and a `"correct/total"` caption, and the y axis is topped
    one above the largest total.
- `pie_chart.py` is modelled in `pie_chart.dfy`.
  - `load_data` keeps the error records with a positive count.
  - It orders them by count (descending), then by type name.
  - It splits them into aligned labels and counts.
  - `main` stops early when nothing is left and otherwise shows the total.
- `act_graphs--section.py` is modelled in `section_errors.dfy`. It reads error types
  until `.q`, capitalises each one and counts them in a dictionary. The bar chart
  shows the keys in first-entry order, their counts and the bar positions.

The shared parts are in three more files:

- `common.dfy`: the `Option` and `Result` types, and the exceptions the scripts raise.
- `text.dfy`: ASCII `strip`, `lower`, `capitalize`, `isdigit`, `int()` and `str()`.
- `counting.dfy`: a Python dictionary, modelled as a key sequence in insertion
  order together with a map.
  - `Tally` is the reference definition of counting a list into such a dictionary.
  - The counting loops of the three programs are proved equal to it.
  - Lemmas give `Tally` its meaning:
    - one key per distinct element;
    - each count is the number of occurrences;
    - keys appear in order of first occurrence;
    - the counts add up to the length of the list.

How input is modelled:

- Interactive input (`input()`) is a finite sequence of tokens passed as a parameter.
- If the tokens run out before the sentinel, the next `input()` raises
  `EOFError`. The model returns this as `Err(EndOfInput)`.
- Each input loop also returns how many tokens it read. So the contracts can say
  that the sentinel ends the loop and nothing after it is read.

A natural design would keep the misses as a set, reject duplicate question numbers and
raise an error for a malformed test; the code does none of these, and the model follows
the code:

- **Repeated numbers.** The missed numbers are a list, so entering a number twice
  records it twice (`layered_graph.py:73`).
  - The misses of a type can then exceed its total, and the correct count goes negative
    (`RepeatedMissGoesNegative`: one "Detail" question entered twice gives the bar `-1/1`).
  - The bound `0 <= missed <= total` holds only when the missed list has no repeats
    (`CorrectNeverNegative`).
- **Duplicate question numbers.** They are not rejected. The last question with a
  number decides its type (`layered_graph.py:31`).
- **Error cases.** No malformed-test or inconsistent-state error exists. Besides the
  input loop's `EOFError` (modelled) and the failures listed under "## Left out"
  (`prompt_for_test`'s `RuntimeError`, `int()` on a pie record, a question record
  without `number` or `type`), the failures modelled are Python's own:
  - `KeyError` in `count_missed_by_type`, which `main` never triggers;
  - `KeyError('type')` for a pie record without a type;
  - `ValueError` from `max()` of an empty list of totals.

## Model

| member | source | states |
|---|---|---|
| Text.TrimLeftSpec | layered_graph.py:63 | trimming the left end removes all leading whitespace and nothing else |
| Text.TrimRightSpec | layered_graph.py:63 | trimming the right end removes all trailing whitespace and nothing else |
| Text.StripSpec | layered_graph.py:63 | the result is a contiguous slice of the input with only whitespace cut from both ends, and it neither starts nor ends with whitespace |
| Text.NatToDecimal | layered_graph.py:116 | `str(n)` is all digits, reads back as `n`, and has no leading zero |
| Text.IntToDecimalRoundTrip | layered_graph.py:116 | `int(str(i)) == i` for every integer, and `str(i)` contains no '/' |
| Text.LowerOfCapitalize | act_graphs--section.py:8 | `capitalize()` then `lower()` equals `lower()` |
| Text.CapitalizeIgnoresCase | act_graphs--section.py:5 | tokens equal up to letter case capitalise to the same key, so "detail" and "DETAIL" are counted together |
| Counting.Put | layered_graph.py:39 | assigning a key keeps an existing key in place and appends a new one; only that key's value changes |
| Counting.TallyCounts | layered_graph.py:36-40 | the tally has a key for exactly the distinct elements, and each value is the element's number of occurrences |
| Counting.TallyPair | layered_graph.py:80-82 | the same element counted twice is one key with count 2 |
| Counting.FirstOccurrenceOrderSnoc | layered_graph.py:39 | appending an element keeps the keys already present in first-occurrence order, and a new element may be listed after them |
| Counting.TallyKeyOrder | layered_graph.py:36-40 | the tally's keys are ordered by first occurrence in the input |
| Counting.TallySum | layered_graph.py:36-40 | the tally's values add up to the length of the input |
| Counting.IncrementValues | layered_graph.py:39 | one increment raises the sum of the values by one |
| LayeredGraph.QuestionMapLastWins | layered_graph.py:29-31 | the question map has a key for exactly the question numbers of the test, and a question with no later question of the same number maps to its own type |
| LayeredGraph.TotalQuestionsByType | layered_graph.py:34-40 | the dictionary the loop builds is the tally of the question types, taken in question order |
| LayeredGraph.TypeTotals | layered_graph.py:34-40 | the totals have one key per type in first-appearance order, each with its number of questions, and they add up to the number of questions |
| LayeredGraph.Kept | layered_graph.py:66-73 | a token adds only numbers that are questions of the map |
| LayeredGraph.Accepted | layered_graph.py:59-74 | every collected number is a key of the question map |
| LayeredGraph.FirstQuitUnique | layered_graph.py:62-65 | the loop stops at one position only: the first `q` token |
| LayeredGraph.CollectMissedQuestions | layered_graph.py:59-74 | the loop reads up to and including the first `q` token and no further; it returns the accepted numbers before it, in order and with repeats, all of them questions of the map; with no `q` it reads every token and fails with EOFError |
| LayeredGraph.RejectedAddsNothing | layered_graph.py:66-72 | a token that is not all digits once stripped, or names no question, leaves the list unchanged |
| LayeredGraph.RepeatIsKept | layered_graph.py:73 | an accepted token appends its number even when that number is already in the list |
| LayeredGraph.CountMissedByType | layered_graph.py:77-83 | it succeeds exactly when every missed number is a question, and otherwise fails with KeyError on the first unknown number; the result is the tally of the missed numbers' types |
| LayeredGraph.MissedTypeCounts | layered_graph.py:77-83 | the misses by type have one key per type met, count the missed entries of that type with repeats, and add up to the number of misses |
| LayeredGraph.InsertByTotal | layered_graph.py:94-98 | insertion keeps the elements, as a multiset, plus the inserted one |
| LayeredGraph.SortByTotal | layered_graph.py:94-98 | the sort is a permutation of the keys |
| LayeredGraph.InsertByTotalDescending | layered_graph.py:94-98 | inserting into a list with non-increasing totals keeps the totals non-increasing |
| LayeredGraph.SortByTotalDescending | layered_graph.py:94-98 | the sorted keys have non-increasing totals |
| LayeredGraph.InsertByTotalWithTotal | layered_graph.py:94-98 | insertion keeps the relative order of the elements with any given total |
| LayeredGraph.SortByTotalStable | layered_graph.py:94-98 | the sort is stable: keys with equal totals keep their dictionary order |
| LayeredGraph.OrderByTotal | layered_graph.py:94-100 | the drawing order lists every type of the dictionary once, each with a total, and totals never increase along it |
| LayeredGraph.OrderByTotalStable | layered_graph.py:94-98 | types with equal totals are drawn in the dictionary's insertion order |
| LayeredGraph.LabelReadsBack | layered_graph.py:116 | the caption `f"{c}/{total}"` splits at its only '/' into the strings that read back as `c` and `total` |
| LayeredGraph.MaxOf | layered_graph.py:128 | `max(s)` bounds every element and is one of them |
| LayeredGraph.MaxOfFirst | layered_graph.py:128 | when the first element is the largest, `max` is the first element |
| LayeredGraph.PlotPerTypeStacked | layered_graph.py:94-128 | the shaping fails with ValueError exactly when there are no types |
| LayeredGraph.PlotPerTypeStackedBars | layered_graph.py:100-116 | one bar per type in drawing order; each bar has its type's total, its misses (0 for a type never missed) and `correct = total - missed` |
| LayeredGraph.PlotPerTypeStackedDescending | layered_graph.py:93-101 | the bars' totals never increase from left to right |
| LayeredGraph.PlotPerTypeStackedYmax | layered_graph.py:128 | every total is below the top of the y axis, which is one above the first bar's total |
| LayeredGraph.NumbersOfTypeBound | layered_graph.py:29-40 | a type has no more distinct question numbers in the map than questions in the test |
| LayeredGraph.MissedCountIsDistinct | layered_graph.py:77-83 | without repeats, the misses counted for a type are the distinct missed numbers of that type |
| LayeredGraph.MissedWithinTotal | layered_graph.py:77-83 | without repeats, no type has more misses than questions |
| LayeredGraph.TypeWithinTotal | layered_graph.py:101-102 | without repeats, a type's missed count, read with default 0, lies between 0 and its total |
| LayeredGraph.BarsWithinTotals | layered_graph.py:100-103 | when no type has more misses than questions, every bar has `0 <= missed <= total` and a non-negative correct count |
| LayeredGraph.CorrectNeverNegative | layered_graph.py:100-103 | without repeats in the missed list, every bar has `0 <= missed <= total` and a non-negative correct count |
| LayeredGraph.OneQuestionMap | layered_graph.py:31 | a test of one question 1 of type "Detail" maps 1 to "Detail" |
| LayeredGraph.OneQuestionTotals | layered_graph.py:34-40 | that test has one "Detail" question in total |
| LayeredGraph.RepeatedMissTallies | layered_graph.py:73-83 | entering 1 twice counts two "Detail" misses |
| LayeredGraph.NegativeLabel | layered_graph.py:116 | the caption of correct -1 out of 1 is "-1/1" |
| LayeredGraph.RepeatedMissGoesNegative | layered_graph.py:73-116 | for that test and input the single bar has total 1, missed 2, correct -1 and caption "-1/1" |
| LayeredGraph.AnalyzeTest | layered_graph.py:140-146 | `main` once a test is chosen: it fails with EOFError when no `q` is entered; otherwise it yields the chart shaped from the test's type tally and the tally of the types of the numbers accepted before the first `q` (the count by type never raises) |
| PieChart.StrLeTotal | pie_chart.py:28 | any two strings are ordered one way or the other |
| PieChart.StrLeAntisymmetric | pie_chart.py:28 | strings ordered both ways are equal |
| PieChart.StrLeTransitive | pie_chart.py:28 | the string order is transitive |
| PieChart.KeyLeTotal | pie_chart.py:28 | the sort key orders any two entries |
| PieChart.KeyLeAntisymmetric | pie_chart.py:28 | entries with equal keys are equal, so ties leave nothing to stabilise |
| PieChart.KeyLeTransitive | pie_chart.py:28 | the key order is transitive |
| PieChart.Insert | pie_chart.py:28 | insertion adds exactly the new entry, as a multiset |
| PieChart.InsertSorted | pie_chart.py:28 | inserting into a sorted list keeps it sorted |
| PieChart.Sort | pie_chart.py:28 | the result is sorted by (count descending, type ascending) and is a permutation of the input |
| PieChart.SortedUnique | pie_chart.py:28 | two sorted arrangements of the same entries are equal, so any correct sort, Python's included, gives this result |
| PieChart.Surviving | pie_chart.py:27 | the filter keeps exactly the records with a positive error count, each as often as it occurs, with a missing count read as 0 |
| PieChart.LoadData | pie_chart.py:25-31 | `load_data` fails with KeyError exactly when a record with a positive count has no type; otherwise labels and counts have equal length |
| PieChart.LoadDataPairs | pie_chart.py:27-31 | when `load_data` succeeds, every kept record has a type, and the label/count pairs are the sorted entries of the kept records |
| PieChart.EntriesCount | pie_chart.py:27-30 | each kept record of type `t` with count `c` becomes one (t, c) entry |
| PieChart.LoadDataSlices | pie_chart.py:27-30 | the label/count pairs are sorted by count descending then type ascending, every count is positive, and each (t, c) pair with c > 0 occurs as often as a record with type t and count c |
| PieChart.MainOutcome | pie_chart.py:33-39 | `main` fails exactly when `load_data` does; it ends with the "No errors to display." notice exactly when no record has a positive count |
| PieChart.ErrorSumRemove | pie_chart.py:39 | removing one entry removes its count from the sum |
| PieChart.ErrorSumPermutation | pie_chart.py:39 | the sum of the counts does not depend on their order |
| PieChart.CountsSum | pie_chart.py:39 | `sum(counts)` equals the sum over the sorted entries |
| PieChart.SurvivingSum | pie_chart.py:27-30 | the counts of the kept entries add up to the positive error counts of all records |
| PieChart.PositiveSum | pie_chart.py:39 | a non-empty list of positive counts has a positive sum |
| PieChart.TotalErrors | pie_chart.py:33-39 | the pie shows exactly what `load_data` returned, and `total_errors` is the sum of every positive error count among the records, which is positive |
| SectionErrors.SentinelIgnoresCapitalize | act_graphs--section.py:5-8 | a token ends the loop exactly when its lower-case form is ".q" |
| SectionErrors.CountSectionErrors | act_graphs--section.py:4-16 | the loop reads up to and including the first ".q" (any case) and no further; it succeeds exactly when such a token exists, and otherwise reads every token and fails with EOFError; the chart is drawn from the tally of the capitalised tokens before it |
| SectionErrors.SectionBarsPositions | act_graphs--section.py:15-20 | `err_types`, `err_count` and `x_pos` have equal lengths, and `x_pos` is `0 .. len(err_types) - 1` |
| SectionErrors.SectionBarsCounts | act_graphs--section.py:8-16 | `err_types` lists each capitalised token once, and `err_count[i]` is the number of tokens that capitalise to `err_types[i]` |
| SectionErrors.SectionBarsOrder | act_graphs--section.py:9-15 | `err_types` is in order of first entry |
| SectionErrors.SectionBarsSum | act_graphs--section.py:8-16 | the counts add up to the number of tokens read before the sentinel |

## Left out

- `load_tests` (`layered_graph.py:10-26`) is not modelled: it globs the filesystem and reads JSON files. The model takes a test as an already-parsed list of questions.
- `prompt_for_test` (`layered_graph.py:43-56`) is not modelled: it is a terminal drop-down menu. Its `RuntimeError` on an empty catalogue is not modelled either.
- Drawing is not modelled: the matplotlib calls for bars, pies, text, axes, layout and `plt.show`. The model stops at the numbers passed to them.
- The messages printed for rejected tokens (`layered_graph.py:67`, `layered_graph.py:71`) are not modelled. Neither is the "No errors to display." notice (`pie_chart.py:36`). The model keeps only the control flow around them.
- A question record without `number` or `type` raises `KeyError` at `layered_graph.py:31` and `layered_graph.py:38`, since `load_tests` checks only `name` and `questions` (`layered_graph.py:21`). The model's `Question` always carries both fields, so that failure is not modelled.
- `json.loads` of the embedded string (`pie_chart.py:26`) is not modelled. `load_data` takes the parsed records.
- A record's `errors` value is an integer or missing. `int()` of a string or float value is not modelled.
- `autopct_counts` and the colour choice (`pie_chart.py:42-46`) are not modelled: they use floating-point rounding and a numpy colormap.
- Text operations cover ASCII only, with Python's ASCII whitespace set for `strip`. The Unicode cases of `isdigit`, `strip`, `lower` and `capitalize` are not modelled.
- Real `input()` blocks while waiting. The model treats the end of the token sequence as `EOFError`.
- `x_pos = range(len(types))` (`layered_graph.py:105`) is not a separate field: it is the bar's index in `Chart.bars`.
- Python's Timsort is not modelled. The sorts are insertion sorts. For the stacked chart, stability is proved (`SortByTotalStable`). For the pie, any sorted arrangement is the same list (`SortedUnique`).
- `Common.Error.UnknownQuestion` is modelled, but `main` never reaches it (`AnalyzeTest`). It is the `KeyError` that `count_missed_by_type` raises when called on its own.
