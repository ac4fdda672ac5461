# leetcode_util: filter, rank and export of problem metadata

`leetcode_util.py` lists every problem of the LeetCode platform, fetches each
problem's details through the GraphQL endpoint, keeps the problems whose
difficulty the user selected with `--difficulty`, ranks them by likes and then
by the like/dislike ratio (both descending), and writes `leetcode.csv`.

This project models the pure part of that pipeline in Dafny and proves what it
promises:

- `Questions` (questions.dfy): the question detail record, the guarded ratio
  `likes / dislikes'` (where `dislikes'` is `dislikes`, or 1 when that is 0) as
  an exact rational, and the `(likes, ratio)` sort key compared as Python
  compares tuples. The key order is proved total and transitive, and ties are
  proved to form an equivalence.
- `Filtration` (filtration.dfy): the `filter` of `questions_filtration` and the
  `sorted(..., reverse=True)` that follows it. The sort is an insertion sort
  that puts an element in front of the elements it ties with, which is how
  Python's stable sort orders ties under `reverse=True`. Proved: the filter is
  exactly the subsequence of present entries with a selected difficulty; the
  sort gives a permutation, is descending for every adjacent pair (and so for
  every pair), keeps the input order inside every class of tied keys, and is
  the only arrangement that is both descending and keeps that order.
- `Export` (export.dfy): the rows `to_csv` builds. There is one row per
  question, in order, under the fixed six-column header. A row can be read
  back into its question, and its ratio column is the ratio the sort used.
- `Listing` (listing.dfy): the loop of `_get_all_leetcode_questions` that
  collects one slug per `stat_status_pairs` entry, as a method with a loop.
- `Pipeline` (pipeline.dfy): filter, rank and export composed. It includes the
  empty-selection case (header only), per-question row counts, the default
  selection, and a worked example.
- `Wrappers` (wrappers.dfy): `Option`, for a detail that may be `None`.

Notes on the model:

- A detail is `Option<Question>`. `None` stands for the `None` that
  `get_question_info` returns when a response does not decode. It also stands
  for an empty dict: both are falsy, so the filter drops both.
- Difficulties are strings, and the selection is a set of strings. The option
  accepts any label; its default is `DefaultDifficulties` = Easy, Medium, Hard.
- The ratio is a float in the source. Here it is `Ratio(likes, dislikes')`, and
  two ratios are compared by cross-multiplication. One consequence is proved
  in `TiedOnEqualLikes`: with equal likes, 0 and 1 dislikes give the same key.
- The source's sort is stable, and `reverse=True` keeps tied records in their
  original order. Because of this, the tie order is fully determined by the
  code, and `SortKeepsTieOrder` states it.

## Model

| member | source | states |
|---|---|---|
| Questions.LikeRatio | leetcode_util.py:59-60 | the ratio is a true quotient (ratio times dislikes is likes) when there are dislikes, and equals likes when dislikes is 0 |
| Questions.RatioAtLeastTransitive | leetcode_util.py:82-85 | comparing ratios by cross-multiplication is transitive |
| Questions.KeyAtLeastTotal | leetcode_util.py:82-85 | any two (likes, ratio) keys are comparable |
| Questions.KeyAtLeastTransitive | leetcode_util.py:82-85 | the lexicographic (likes, ratio) order is transitive |
| Questions.TiedTransitive | leetcode_util.py:82-85 | keys tied with a common key are tied with each other |
| Questions.TiedOnEqualLikes | leetcode_util.py:84 | with equal likes, two questions tie exactly when they have no likes or the same guarded dislikes, so 0 and 1 dislikes tie |
| Filtration.Filtered | leetcode_util.py:78-81 | the filtered list is no longer than the input; every kept question was present in the input and has a selected difficulty |
| Filtration.FilteredIsKeptSubsequence | leetcode_util.py:78-81 | the filtered list is the input's values at the increasing positions that pass the filter, and every position holding a present entry with a selected difficulty is one of them |
| Filtration.FilteredMembership | leetcode_util.py:78-80 | a question is in the filtered list exactly when it is present in the input with a selected difficulty |
| Filtration.Insert | leetcode_util.py:82-85 | inserting into a descending list gives a descending list with the new element added to the multiset |
| Filtration.SortDescending | leetcode_util.py:82-85 | the sorted list is a permutation of its input and is non-increasing in (likes, ratio) for every adjacent pair |
| Filtration.InsertKeepsTieOrder | leetcode_util.py:82-85 | insertion puts the new element in front of every element it ties with and keeps the others' tie order |
| Filtration.SortKeepsTieOrder | leetcode_util.py:82-85 | for every key, the questions tied with it come out of the sort in the order they went in (stability) |
| Filtration.DescendingPairwise | leetcode_util.py:82-85 | in a descending list, every earlier question ranks at least as high as every later one |
| Filtration.StableDescendingUnique | leetcode_util.py:82-85 | two lists that are both descending and have the same order inside every tie class are equal |
| Filtration.SortIsUniqueStableArrangement | leetcode_util.py:82-85 | any descending list that keeps the input's tie order is exactly the sort's output |
| Filtration.Ranked | leetcode_util.py:78-85 | the ranked list is a permutation of the filtered list, descending in (likes, ratio), holds only present questions with a selected difficulty, and keeps every class of tied questions in filtered (input) order |
| Export.RowOf | leetcode_util.py:54-62 | a row carries the question's id, title, likes, dislikes and difficulty unchanged, and its ratio column is the sort key's guarded ratio, equal to likes when there are no dislikes |
| Export.Rows | leetcode_util.py:54-62 | one row per question, in the same order, each reading back to its question with the guarded ratio |
| Export.ToCsv | leetcode_util.py:51-67 | the table has the six-column header id, title, likes, dislikes, like/dislikes_ratio, difficulty, and one row per question in order, each carrying that question's fields and its guarded ratio |
| Export.RowsReadBack | leetcode_util.py:54-62 | reading the rows back gives exactly the questions they were made from, in order |
| Export.RowsOfDescending | leetcode_util.py:54-62 | rows made from a descending list have non-increasing likes and ratio columns down the file |
| Listing.CollectSlugs | leetcode_util.py:36-38 | one slug per stat_status_pairs entry, each the entry's question__title_slug, in listing order |
| Pipeline.QuestionsFiltration | leetcode_util.py:78-86 | the exported table has the fixed header; its rows read back to a permutation of the filtered questions (each exactly as often as it was kept); each row is a fetched question with a selected difficulty whose ratio column is its guarded ratio; the likes and ratio columns never increase; the rows of every class of tied questions read back in filtered (input) order, which with `SortIsUniqueStableArrangement` fixes the whole row order |
| Pipeline.EmptySelectionExportsHeaderOnly | leetcode_util.py:78-80 | with the empty selection the table has the header and no data row |
| Pipeline.RankedCountsMatchInput | leetcode_util.py:78-85 | each question with a selected difficulty appears in the ranking as many times as it was fetched |
| Pipeline.ExportCountsMatchInput | leetcode_util.py:78-86 | each question has as many rows in the exported table as times it was fetched if its difficulty is selected, and none otherwise |
| Pipeline.DefaultSelectionExportsEveryLabelled | leetcode_util.py:71-86 | with the default selection of Easy, Medium and Hard, every fetched question with one of those labels has a row in the table |
| Pipeline.ExampleRun | leetcode_util.py:78-86 | on two Easy questions (10 likes with 0 dislikes, 5 with 5), one Hard question and one undecodable detail, with Easy selected, the rows are question 1 then question 2 |

## Left out

- HTTP: the GET of the problem listing and the GraphQL POST per slug are network I/O. The listing is taken as a decoded `ListingResponse` and the details as a sequence of optional questions.
- The `asyncio.gather` fan-out, the event loop and the client session: concurrency, not modelled. The details arrive in slug order as `gather` returns them.
- JSON decoding and the log-and-return-None on a bad response: its outcome is modelled as a `None` entry.
- The GraphQL query text: an opaque constant with no effect on the modelled logic.
- Click option parsing and `print(difficulty)`: the selection is a parameter; the default is the constant `DefaultDifficulties`.
- Opening `leetcode.csv`, `csv.DictWriter` quoting and number formatting: library I/O. Only the header and the row sequence are modelled.
- Details that are present but lack `difficulty`, `likes`, `dislikes`, `questionFrontendId` or `title`: the record type always has these fields. In the source a missing difficulty is dropped by the filter, a missing count makes the division fail, and a missing id or title becomes `None`, which the CSV writer writes as an empty field.
- Questions.LikeRatio: an exact rational, not a float. For very large counts, float rounding can make two different ratios compare equal. In that case the source treats them as tied, and the model does not.
- Listing.CollectSlugs: a listing entry without `stat` or `question__title_slug` raises KeyError in the source. Such entries cannot be expressed in the model.
- The module-level call of `questions_filtration()` at import time.
