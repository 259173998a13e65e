# Class roster manager — Dafny model

The program keeps a class roster: a list of students, each with a name and
a list of grades. From an interactive menu the user adds a student, records
grades from a comma-separated line, removes a student, and views the
per-student mean, the passing students (mean of at least 7), class
statistics (the mean of the means, the best and the worst student) and a
ranking by mean. All of this lives in `script.js`. This project models that
logic and proves what it promises.

Layout, one module per file:

- `wrappers.dfy` (`Wrappers`): the `Option` type. It stands for the source's
  `null` mean, for a missing student (`findIndex` returning -1) and for a
  token that does not parse.
- `jstext.dfy` (`JsText`): the JavaScript library calls the program uses.
  These are `toLowerCase` (`Lower`), `trim` (`Trim`), `split` (`Split`, with
  its inverse `Join`) and `parseFloat` (`ParseNum`). The properties of
  `Trim` and `ParseNum` are stated as separate lemmas (`TrimSpec`,
  `ParseNumDefined`, `ParseNumSign`), and so is the sum of `Aggregator`
  (`SumFromFront`). These functions are unfolded wherever they are used, so
  each caller would otherwise pay for their contracts again.
- `sequences.dfy` (`Sequences`): `filter` (`Filter`) and "map, then keep the
  successes" (`Values`), with their order, membership and partition lemmas.
- `students.dfy` (`Students`): the student record, the case-insensitive
  search (`FindIndex`) and the roster invariant (`WellFormed`). The invariant
  says names are non-empty and unique up to case, and every grade is in
  [0, 10].
- `grade_validator.dfy` (`GradeValidator`): the token loop of `adicionarNotas`.
- `aggregator.dfy` (`Aggregator`): `calcularMedia` and `exibirEstatisticas`.
- `ranker.dfy` (`Ranker`): `mostrarAprovados` and `listarOrdenadoPorMedia`,
  including the in-place sort.
- `roster.dfy` (`RosterState`): the shared `alunos` array as the `Roster`
  class. Its `students` field is reassigned by `Add` (`push`),
  `RecordGrades` (`push` into a student's grades) and `Remove` (`splice`).
  The pure function `AddCheck` gives the outcome of an add, and the
  contract of `Add` states the roster after it. The pure functions
  `AppendGrades` and `RemoveAt` give the roster after recording grades and
  after a removal. The lemmas beside these functions state what each
  change preserves.

Grades and means are `real`, so sums and divisions are exact. Names reach
the operations already trimmed, as `lerInput` trims every answer
(`script.js:23`).

In two places the model keeps the code's exact behaviour:

- Rejected grade tokens are reported as typed. The space after each comma
  is kept, because the code pushes the untrimmed `notaStr`
  (`script.js:105`).
- The ranking is built as "graded entries sorted by descending mean, then
  ungraded entries in roster order". The code sorts with a comparator
  instead (`script.js:217-221`). That comparator returns 1 when both means
  are null, so it is not consistent. The model's output is one of the
  orders the comparator allows. Only the ordering facts the comparator
  enforces are stated, plus the roster order of the ungraded entries.

## Model

| member | source | states |
|---|---|---|
| JsText.Lower | script.js:57 | lower-casing keeps the length, leaves no upper-case ASCII letter, maps each upper-case letter to its lower-case form and leaves every other character unchanged |
| JsText.TrimSpec | script.js:100 | `trim` returns the slice of the input between leading and trailing white space, and that slice neither starts nor ends with white space |
| JsText.ParseNumDefined | script.js:100-102 | `parseFloat` gives a number (not NaN) exactly when, after an optional sign, the text starts with a digit or with a point followed by a digit |
| JsText.ParseNumSign | script.js:100-102 | only a text starting with a minus sign parses to a negative number |
| JsText.Split | script.js:94 | splitting on commas gives one more piece than there are commas, and no piece contains a comma |
| JsText.JoinSplit | script.js:94 | joining the pieces with commas gives back the input line |
| JsText.SplitJoin | script.js:94 | splitting a comma-joined list of comma-free pieces gives back the pieces |
| Sequences.FilterMembers | script.js:158-160 | `filter` keeps an element exactly when it occurs in the input and passes the test |
| Sequences.FilterAppend | script.js:158-160 | `filter` keeps input order: filtering a concatenation filters each part in turn |
| Sequences.FilterPartition | script.js:212-221 | filtering with a test and with its negation splits the input into two parts that together are a permutation of it |
| Sequences.FilterEmpty | script.js:179-181 | `filter` returns nothing exactly when no element passes |
| Sequences.FilterKeepsAll | script.js:177-179 | `filter` returns its whole input exactly when every element passes |
| Sequences.ValuesAppend | script.js:99-107 | mapping and keeping the successes preserves input order across a concatenation |
| Sequences.ValuesMembers | script.js:99-103 | a value is kept exactly when some element maps to it |
| Sequences.ValuesCount | script.js:99-107 | kept values plus rejected elements number exactly the input elements |
| Sequences.ValuesEmpty | script.js:109 | nothing is kept exactly when every element is rejected |
| Students.FindIndex | script.js:235 | `findIndex` on lower-cased names: the index of the first matching student; `None` (the -1) exactly when no student matches |
| Students.FindIndexUnique | script.js:57-63 | when names are unique up to case, a matching student is the one the search returns |
| GradeValidator.Tokens | script.js:94 | `split(',')` gives one more token than there are commas, no token contains a comma, and joining the tokens with commas gives back the line |
| GradeValidator.Grade | script.js:100-102 | a token is accepted only with a parsed value within [0, 10] |
| GradeValidator.ParseGrades | script.js:94-107 | the `forEach` loop builds exactly the valid-grade list and the invalid-token list of the comma-separated tokens |
| GradeValidator.ClassifyAppend | script.js:99-107 | both lists are built token by token in input order: classifying a concatenation classifies each part in turn |
| GradeValidator.ClassifyToken | script.js:102-106 | a single token lands in exactly one list: its grade in the valid list if accepted, the token as typed in the invalid list otherwise |
| GradeValidator.ClassifyCount | script.js:94-107 | the two list lengths sum to the number of commas plus one |
| GradeValidator.ValidGrades | script.js:99-103 | the valid grades are no more than the tokens, and every one lies in [0, 10] |
| GradeValidator.InvalidTokens | script.js:104-105 | every reported token is one of the input tokens and is rejected; valid grades and invalid tokens together number exactly the tokens |
| GradeValidator.ValidGradesMembers | script.js:99-103 | a value is a valid grade exactly when some token is accepted with that value |
| GradeValidator.InvalidTokensMembers | script.js:104-105 | a token is reported invalid exactly when it occurs and is rejected |
| GradeValidator.NoValidGrades | script.js:109 | the valid list is empty exactly when every token is rejected |
| GradeValidator.TokensExample | script.js:94 | "7.5, 8, x, 11, -1" splits into "7.5", " 8", " x", " 11", " -1" |
| GradeValidator.ParseSevenHalf | script.js:100 | `parseFloat("7.5")` is 7.5 |
| GradeValidator.GradeOfSevenHalf | script.js:100-103 | "7.5" is accepted as 7.5 |
| GradeValidator.GradeOfEight | script.js:100-103 | " 8" is trimmed and accepted as 8 |
| GradeValidator.GradeOfLetter | script.js:100-105 | " x" does not parse and is rejected |
| GradeValidator.GradeOfEleven | script.js:100-105 | " 11" parses to 11, is above 10 and is rejected |
| GradeValidator.GradeOfMinusOne | script.js:100-105 | " -1" parses to -1, is below 0 and is rejected |
| Aggregator.SumFromFront | script.js:130 | the sum taken by `reduce` from the left equals the first grade plus the sum of the rest |
| Aggregator.Mean | script.js:125-131 | the mean is `None` (the source's `null`) exactly when there are no grades |
| Aggregator.SumBounds | script.js:130 | a sum of values within [lo, hi] lies between count times lo and count times hi |
| Aggregator.MeanBounds | script.js:125-131 | the mean of values within [lo, hi] lies within [lo, hi] |
| Aggregator.MeanBetweenGrades | script.js:125-131 | the mean lies between the smallest and the largest grade |
| Aggregator.MeanInRange | script.js:125-131 | grades within [0, 10] give a mean within [0, 10] |
| Aggregator.MeanExample | script.js:125-131 | grades 6, 8 and 10 have mean exactly 8 |
| Aggregator.Summaries | script.js:158 | the `{nome, media}` map has one entry per student, in roster order, with the student's name, and its mean is null exactly when the student has no grades |
| Aggregator.SummariesAppend | script.js:158 | the `{nome, media}` map is taken element by element, in roster order |
| Aggregator.GradedEntries | script.js:177-179 | every entry kept by the "has a mean" filter has a mean |
| Aggregator.GradedEntriesMembers | script.js:177-179 | the graded entries are exactly the summaries of the students who have grades |
| Aggregator.GradedEntriesEmpty | script.js:181 | there are no graded entries exactly when no student has grades |
| Aggregator.ReduceMax | script.js:190 | the left-to-right reduce with strict `>` returns an entry of largest mean, and every earlier entry has a strictly smaller mean (the first maximum wins) |
| Aggregator.ReduceMin | script.js:192 | the left-to-right reduce with strict `<` returns an entry of smallest mean, and every earlier entry has a strictly larger mean (the first minimum wins) |
| Aggregator.ClassStats | script.js:177-192 | the statistics are absent ("no data") exactly when no student has grades |
| Aggregator.ClassStatsSpec | script.js:186-192 | best is the first entry of largest mean and worst the first of smallest mean; worst mean ≤ overall mean ≤ best mean |
| Aggregator.ClassStatsExample | script.js:177-192 | means 5, 9 and 7 give overall 7, best B (9) and worst A (5) |
| Ranker.Passing | script.js:156-160 | the passing list is no longer than the roster, and every entry in it has a mean of at least 7 |
| Ranker.PassingMembers | script.js:156-160 | a student is listed as passing exactly when they have a mean and it is at least 7 |
| Ranker.PassingAppend | script.js:156-160 | the passing list keeps roster order: the passing list of a concatenation is the two passing lists in turn |
| Ranker.PassingBoundary | script.js:160 | the bound is inclusive: of means 6.999, 7 and 8, exactly the last two pass, in roster order |
| Ranker.Insert | script.js:217-221 | one insertion step moves the entry at `i` to some position `j`. Every entry it passes has a strictly smaller mean and shifts right by one, and all other entries stay put. The prefix up to `i` becomes non-increasing in mean, and the entries are permuted |
| Ranker.SortByMean | script.js:217-221 | sorting in place leaves the entries in non-increasing order of mean and permutes them |
| Ranker.RankingOfParts | script.js:217-221 | graded entries in non-increasing order of mean, followed by the ungraded entries in roster order, meet every ranking fact listed for `Rank` |
| Ranker.Rank | script.js:209-221 | the ranking is a permutation of the roster's summaries. Graded students precede ungraded ones, graded ones are in non-increasing order of mean, and ungraded ones keep roster order. The roster is a value and stays unchanged |
| Ranker.RankingExample | script.js:209-221 | means 5 and 9 plus one student without grades can only be ranked as 9, 5, then the student without grades |
| RosterState.AddCheck | script.js:51-59 | an add fails as empty exactly when the name is empty, and as duplicate exactly when the name is non-empty and matches an existing name after lower-casing |
| RosterState.AddKeepsWellFormed | script.js:57-63 | an accepted add keeps names non-empty and unique up to case and grades in range |
| RosterState.AddThenFind | script.js:63 | after an accepted add, searching for the name finds the new last student, who has no grades |
| RosterState.AppendGrades | script.js:111 | the roster keeps its length: grades are appended to one student in place, never as a new entry |
| RosterState.DuplicateUpToCase | script.js:57-61 | "ANA" is refused as a duplicate of "Ana", while "Bia" is accepted |
| RosterState.AppendGradesSpec | script.js:109-111 | appending grades within [0, 10] keeps the invariant, keeps the student's old grades as a prefix and name unchanged, and changes no other student |
| RosterState.AppendNoGrades | script.js:109 | appending no grades leaves the roster unchanged |
| RosterState.RemoveAt | script.js:240 | `splice(i, 1)` removes one student, and those before and after `i` keep their relative order |
| RosterState.RemoveAtSpec | script.js:235-240 | removal keeps the invariant; the removed student plus the remaining ones are the old roster |
| RosterState.RemoveByNameLeavesNoMatch | script.js:235-240 | under unique names, removing the found student leaves no student with that name |
| RosterState.Roster.constructor | script.js:7 | the roster starts empty and well formed |
| RosterState.Roster.Add | script.js:48-65 | the outcome is `AddCheck`'s. On success the roster gains `{name, []}` at the end; on failure it is unchanged. The invariant is kept |
| RosterState.Roster.RecordGrades | script.js:83-119 | an unknown name changes nothing. Otherwise both lists are reported and the valid grades are appended to the first matching student. The invariant is kept |
| RosterState.Roster.Remove | script.js:232-245 | an unknown name changes nothing. Otherwise the first matching student is spliced out and their name returned. The invariant is kept |
| RosterState.Roster.LookupMean | script.js:136-152 | the lookup fails exactly when no name matches. Otherwise it returns the first match's mean, which is absent exactly when that student has no grades |

## Left out

- The interactive shell is not modelled: `readline`, `lerInput`, `exibirMenu`, `main` and the `async`/`await` plumbing (`script.js:1-42`, `script.js:251-300`). It is input and output only. The operations take the already-trimmed answers as parameters.
- `listarAlunos` (`script.js:69-80`) is left out. It only prints each name with its grade count.
- All `console.log` messages and `toFixed(2)` formatting are left out. They are presentation only.
- IEEE-754 floating point is not modelled. Grades and means are exact reals, so rounding in sums and divisions is not captured.
- `JsText.Lower` folds only the ASCII letters. `toLowerCase` also folds other Unicode letters.
- `JsText.ParseNum` reads the longest decimal prefix (sign, digits, fraction, exponent) as `parseFloat` does. It gives `None` for NaN and also for `Infinity`, which is rejected as a grade either way. It does not round to binary floating point.
- The `JSON.parse(JSON.stringify(...))` deep copy before sorting (`script.js:209`) is not modelled as a copy. `Rank` takes the roster as a value, so the caller's roster cannot change.
- Ranker.Rank: does not state that graded students with equal means keep roster order. The insertion sort only moves an entry past a strictly smaller mean, but this stability is not proved.
- GradeValidator.TokensExample: the full line "7.5, 8, x, 11, -1" is proved token by token (the split, then one lemma per token). No single lemma states both lists for the whole line.
