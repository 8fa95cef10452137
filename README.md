# LogFileAnalyzer in Dafny

A model of the counting engine of LogFileAnalyzer, with proofs about it.

The analyzer reads log files line by line. With a cutoff date, it drops every line whose first
whitespace-separated token is a date before the cutoff. It also drops, with a notice, every line
whose first token is not a date. Each remaining line is checked on its own against three
case-insensitive patterns: "error", "warning" and "failed login". An error line adds one to a
frequency table keyed on the stripped line. The other two patterns raise plain counters. `main`
merges the results of all files in order, and the reports list the `most_common(top_n)` errors of
the merged table. The older single-file analyzer in `backup/` does the same counting with no date
gate and no exception handling.

Modules:

- `Text`: Python's whitespace class, `str.strip()`, `str.split()` with no separator, ASCII case
  mapping and substring search.
- `Classifier`: the three patterns and the case-insensitive search for them.
- `Dates`: `datetime.strptime(token, '%Y-%m-%d')` and the comparison with the cutoff. The parse
  is written out: four digits of year; a month of one or two digits in 1..12; a day of one or
  two digits in 1..31 that ends the token; then the calendar check of `datetime` (years from 1,
  Gregorian leap years).
- `Counters`: `collections.Counter` as a value. It keeps its keys in first-insertion order, so
  `counter[k] += 1` is `Increment` and `a.update(b)` is `Update`.
- `Ranking`: `most_common(n)`, a stable sort by count (highest first) cut to `n` entries.
- `LogAnalyzer`: `analyze_log` and the merge loop of `main` in `log_analyzer.py`.
- `BackupLogAnalyzer`: `analyze_log` of `backup/log_analyzer.py`.

The two `analyze_log` functions and the merge loop of `main` are methods with loops. Each method
is proved equal to a specification function that folds one step over the lines (`Tally`) or over
the files (`Aggregated`). The counters these loops mutate in place are local values here, and the
loops reassign them. They are never shared, so nothing is lost by that.

The properties are proved against independent reference counts:

- `CountMatching`: the lines that match a pattern.
- `CountKey`: the error lines that strip to a given message.
- `ErrorKeys`: the stripped text of every error line.
- `Gated`: the lines that pass the date gate.

A file is given as its outcome: missing, unreadable, or its lines.

A read failure raises inside `readlines()` (log_analyzer.py:27), before any line is counted, so
`analyze_log` returns zero counts. Here `Unreadable` gives zero counts and one `ReadFailed` notice.

## Model

| member | source | states |
|---|---|---|
| `Text.Strip` | log_analyzer.py:45 | the key is the slice of the line left once leading and trailing Python whitespace is removed; it neither starts nor ends with whitespace |
| `Text.StripIgnoresPadding` | backup/log_analyzer.py:24 | lines that differ only in surrounding whitespace have the same key |
| `Text.StripIdempotent` | log_analyzer.py:45 | stripping a key again leaves it unchanged |
| `Text.Split` | log_analyzer.py:34-35 | `line.split()` is empty exactly when the line is empty or whitespace-only |
| `Text.SplitYieldsTokens` | log_analyzer.py:34 | every part of `split()` is a non-empty run without whitespace |
| `Text.SplitFirstToken` | log_analyzer.py:34-37 | a line made of optional whitespace, a token, then whitespace or its end has that token as `parts[0]` |
| `Text.Contains` | log_analyzer.py:44 | `re.search`: tries the pattern at each start position from the left (no contract; `ContainsAt` and `ContainsWitness` state its meaning) |
| `Classifier.Matches` | log_analyzer.py:17-19 | `re.search(pattern, line, re.IGNORECASE)` is a search of the lower-cased line (no contract; the lemmas below state its meaning) |
| `Classifier.MatchesIgnoresCase` | log_analyzer.py:17-19 | upper-casing or lower-casing a line does not change whether it matches a pattern |
| `Classifier.MatchesIffOccurs` | log_analyzer.py:44-49 | a line matches exactly when its lower-cased text holds the pattern at some position |
| `Text.ContainsAt` | log_analyzer.py:44 | an occurrence of the pattern at any position makes `re.search` succeed |
| `Text.ContainsWitness` | log_analyzer.py:44 | a successful search has an occurrence of the pattern at some position |
| `Classifier.MatchAnywhere` | log_analyzer.py:44 | the search is unanchored: text before or after a matching line keeps it matching |
| `Classifier.ErrorInAnyCasing` | log_analyzer.py:17 | "ERROR", "Error" and "error" all make a line an error line |
| `Classifier.FailedLoginHasSingleSpace` | log_analyzer.py:19 | a line is a failed login exactly when "failed", one ASCII space and "login" (any casing) stand somewhere in it |
| `Classifier.FailedLoginPhraseIsExact` | log_analyzer.py:48-49 | "failed login attempt" counts as a failed login; "failed   login" does not |
| `Dates.MatchFormat` | log_analyzer.py:37 | a matched token has a month in 1..12, a day in 1..31 and a year of at most four digits |
| `Dates.ParseDate` | log_analyzer.py:37 | every parsed date is a calendar date that `datetime` can hold |
| `Dates.ParseFormat` | log_analyzer.py:37 | a date written as `YYYY-MM-DD` parses back to itself |
| `Dates.ParseAcceptsPaddedFields` | log_analyzer.py:37 | "2024-01-05" parses to the 5th of January 2024 |
| `Dates.ParseAcceptsUnpaddedFields` | log_analyzer.py:37 | "2024-1-5", with one-digit month and day, also parses to the 5th of January 2024 |
| `Dates.ParseRejectsWord` | log_analyzer.py:40 | a word that is not a date raises the parse error |
| `Dates.ParseRejectsMissingDay` | log_analyzer.py:40 | a day past the end of its month (29 February 2023) raises the parse error |
| `Dates.ParseRejectsTrailingText` | log_analyzer.py:40 | text after the day raises the parse error |
| `Dates.BeforeIsStrictTotalOrder` | log_analyzer.py:38 | the comparison with the cutoff is irreflexive, transitive and total |
| `Counters.Increment` | log_analyzer.py:45 | `counter[k] += 1` adds one to `k` only, keeps existing keys in place, adds a new key last, and keeps the table well formed |
| `Counters.Update` | log_analyzer.py:93 | `update` sums the counts key by key; the keys of the first table keep their places, and new keys follow in the second table's order |
| `Counters.UpdateKeys` | log_analyzer.py:93 | the merged table holds exactly the keys of either table |
| `Counters.IncrementAfterUpdate` | log_analyzer.py:92-93 | counting a key after a merge gives the same table as merging after counting it |
| `Counters.TotalIncrement` | log_analyzer.py:45 | `counter[k] += 1` raises the sum of the counts by exactly one |
| `Counters.FirstSeen` | log_analyzer.py:45 | the first-seen order of a sequence lists each of its elements exactly once |
| `Ranking.Items` | log_analyzer.py:62 | the table's `(key, count)` pairs in first-insertion order, the input of the sort (no contract) |
| `Ranking.Insert` | log_analyzer.py:62 | inserting adds exactly that entry: one more element, and the multiset of the list plus the entry |
| `Ranking.InsertKeepsSorted` | log_analyzer.py:62 | inserting into a list with counts never increasing keeps it that way |
| `Ranking.InsertKeepsTies` | log_analyzer.py:62 | the inserted entry goes before every entry of its own count (ahead of the later entries of that count), and entries of each count keep their order |
| `Ranking.SortByCount` | log_analyzer.py:62 | the sort is a permutation of its input |
| `Ranking.SortByCountIsSorted` | log_analyzer.py:62 | the sorted counts never increase |
| `Ranking.SortByCountIsStable` | log_analyzer.py:62 | entries with equal counts come out in their input order |
| `Ranking.MostCommon` | log_analyzer.py:62 | `most_common(n)` has `min(n, number of keys)` entries, and none when `n <= 0` |
| `Ranking.MostCommonIsPrefix` | log_analyzer.py:62 | `most_common(n)` is the first entries of the stable sort of the table's items |
| `Ranking.MostCommonListsEntries` | log_analyzer.py:70 | every listed pair is a key of the table with its count |
| `Ranking.MostCommonIsNonIncreasing` | log_analyzer.py:62 | the listed counts never increase |
| `Ranking.MostCommonKeepsLargest` | log_analyzer.py:78 | no key left out has a larger count than a listed one |
| `Ranking.MostCommonKeepsTieOrder` | log_analyzer.py:62 | the listed entries of each count are the first entries of that count in insertion order |
| `Ranking.MostCommonTieExample` | log_analyzer.py:62 | `{A: 3, B: 3, C: 1}` with `n = 2` gives `[(A, 3), (B, 3)]` |
| `LogAnalyzer.GateOf` | log_analyzer.py:33-42 | the date gate: no cutoff or no token keeps the line, an unparsable first token drops it with a notice, a date before the cutoff drops it (no contract; `DatedLineGate`, `UndatedLineSkipped`, `BlankLineBypassesGate` and `NoCutoffKeepsEveryLine` state it) |
| `LogAnalyzer.CountError` | log_analyzer.py:44-45 | an error line adds one to its stripped text's entry (no contract; `ErrorLineCounted` states it) |
| `LogAnalyzer.CountIf` | log_analyzer.py:46-49 | a line matching the pattern adds one to the counter (no contract; `ChecksAreIndependent` states it) |
| `LogAnalyzer.Record` | log_analyzer.py:44-49 | the three checks of a line that passed the gate, each made on its own (no contract; `ErrorLineCounted` and `ChecksAreIndependent` state it) |
| `LogAnalyzer.Step` | log_analyzer.py:32-49 | one turn of the loop: gate, then count (no contract; `TallyIsGatedTally` states it over many lines) |
| `LogAnalyzer.DateNotices` | log_analyzer.py:40-41 | one notice with the stripped line for each line with a malformed date, in order (no contract; `UndatedLineSkipped` and `NoticesAreDroppedLines` state it) |
| `LogAnalyzer.Tally` | log_analyzer.py:32-49 | counting lines keeps the error table well formed: distinct keys, each with a positive count |
| `LogAnalyzer.Analysis` | log_analyzer.py:16-56 | the result of one file has a well-formed error table |
| `LogAnalyzer.AnalyzeLog` | log_analyzer.py:16-56 | the loop with its `continue`s returns the counts and notices of `Analysis` for every outcome of the file |
| `LogAnalyzer.ErrorLineCounted` | log_analyzer.py:44-45 | a line raises the entry of its stripped text by exactly one iff it contains "error" in any casing; other entries are unchanged |
| `LogAnalyzer.ChecksAreIndependent` | log_analyzer.py:44-49 | each counter rises iff its own pattern matches; a line with all three patterns raises all three results |
| `LogAnalyzer.CountMatching` | log_analyzer.py:46-47 | no more lines match a pattern than there are lines |
| `LogAnalyzer.CountKey` | log_analyzer.py:44-45 | no more error lines strip to one message than there are error lines |
| `LogAnalyzer.Gated` | log_analyzer.py:33-42 | the gate never adds lines |
| `LogAnalyzer.NoCutoffKeepsEveryLine` | log_analyzer.py:33 | without a cutoff every line is counted and no date notice is printed |
| `LogAnalyzer.WarningsCounted` | log_analyzer.py:46-47 | the warning count is the number of lines containing "warning" in any casing |
| `LogAnalyzer.FailedLoginsCounted` | log_analyzer.py:48-49 | the failed-login count is the number of lines containing "failed login" in any casing |
| `LogAnalyzer.ErrorsCountedByKey` | log_analyzer.py:44-45 | each message's count is the number of error lines that strip to it, and zero for other strings |
| `LogAnalyzer.ErrorsInFirstSeenOrder` | log_analyzer.py:45 | the table lists each error message once, in the order its first line appears |
| `LogAnalyzer.ErrorTotalCounted` | log_analyzer.py:44-45 | the error counts add up to the number of error lines |
| `LogAnalyzer.TallyIsGatedTally` | log_analyzer.py:32-42 | counting with a cutoff is counting, without a cutoff, the lines that pass the gate |
| `LogAnalyzer.NoticesAreDroppedLines` | log_analyzer.py:40-42 | lines counted plus malformed-date notices never exceed the lines of the file |
| `LogAnalyzer.TallyBounded` | log_analyzer.py:21-49 | each counter and the sum of the error counts are at most the number of lines |
| `LogAnalyzer.DatedLineGate` | log_analyzer.py:33-39 | a line whose first token, after optional whitespace, is any text that parses as a date (padded or not) is dropped iff the date is before the cutoff, so a line dated on the cutoff is kept |
| `LogAnalyzer.FormattedLineGate` | log_analyzer.py:33-39 | the same for a line whose first token is a date written `YYYY-MM-DD` |
| `LogAnalyzer.UnpaddedDateLineDropped` | log_analyzer.py:36-39 | "2024-1-5 ERROR x" is dropped under the cutoff 2024-01-10, although its date has no zero padding |
| `LogAnalyzer.UndatedLineSkipped` | log_analyzer.py:36-42 | a line whose first token, after optional whitespace, is not a date is dropped, even when it contains "error", and prints one notice with the stripped line |
| `LogAnalyzer.BlankLineBypassesGate` | log_analyzer.py:34-35 | a blank or whitespace-only line passes the gate and prints no date notice |
| `LogAnalyzer.SkippedLineNotCounted` | log_analyzer.py:38-42 | removing a line the gate drops changes no count of any file |
| `LogAnalyzer.StepAfterCombine` | log_analyzer.py:93 | counting a line after merging equals merging after counting it |
| `LogAnalyzer.TallyConcat` | log_analyzer.py:86-95 | the counts of two runs of lines merge into the counts of the lines one after the other |
| `LogAnalyzer.AnalysisIsTally` | log_analyzer.py:25-56 | one file's result is the count of its lines, and none when it cannot be read |
| `LogAnalyzer.UnusableFileYieldsNothing` | log_analyzer.py:28-56 | a missing, unreadable or empty file gives zero counts and exactly one notice naming it |
| `LogAnalyzer.Combine` | log_analyzer.py:93-95 | merging two well-formed results keeps the error table well formed |
| `LogAnalyzer.CombineIsAdditive` | log_analyzer.py:93-95 | merging sums every error count and both counters, holds exactly the keys of both tables, keeps the first table's order, and appends the new keys |
| `LogAnalyzer.CombineNothing` | log_analyzer.py:86-95 | merging a result with zero counts into the totals changes nothing |
| `LogAnalyzer.CountErrorAfterUpdate` | log_analyzer.py:93 | counting an error line after `update` gives the same table as counting it first and merging after |
| `LogAnalyzer.RecordAfterCombine` | log_analyzer.py:93-95 | classifying a line after merging equals merging after classifying it |
| `LogAnalyzer.Aggregated` | log_analyzer.py:86-95 | the merged error table is well formed |
| `LogAnalyzer.Aggregate` | log_analyzer.py:86-95 | the loop of `main` returns the totals of `Aggregated` and the notices of `AllNotices`, file by file in input order |
| `LogAnalyzer.AggregatedIsTallyOfAllLines` | log_analyzer.py:90-95 | merging file by file counts the same as counting all lines of all readable files together |
| `LogAnalyzer.ReportedTotals` | log_analyzer.py:86-95 | the final totals are the reference counts over every gated line of every file |
| `LogAnalyzer.TopErrors` | log_analyzer.py:97 | the top list never holds more entries than the merged table has keys, and none when `top_n <= 0` |
| `LogAnalyzer.TopErrorsRanked` | log_analyzer.py:62 | the reported top list holds at most `top_n` messages, with counts never increasing, each count the number of its error lines, and no larger count left out |
| `LogAnalyzer.PaddedErrorLinesShareKey` | log_analyzer.py:45 | an error line and the same line padded with whitespace share one entry with count two |
| `LogAnalyzer.NoFilesNoFindings` | log_analyzer.py:86-88 | with no files the totals are zero and the top list is empty |
| `BackupLogAnalyzer.BackupAnalysis` | backup/log_analyzer.py:12-30 | the exception `open` raises for a missing or unreadable file, or the counts over every line (no contract; `AgreesWithAnalyzer` and `BackupCounts` state it) |
| `BackupLogAnalyzer.AnalyzeLog` | backup/log_analyzer.py:12-30 | the loop counts every line of a readable file with no gate, and raises for a missing or unreadable file |
| `BackupLogAnalyzer.AgreesWithAnalyzer` | backup/log_analyzer.py:21-30 | on a readable file the backup counts what the current analyzer counts without a cutoff; otherwise it fails where the current one returns zeros |
| `BackupLogAnalyzer.BackupCounts` | backup/log_analyzer.py:22-28 | warnings and failed logins are the lines containing them, each message counts its error lines, and messages are in first-seen order |
| `BackupLogAnalyzer.BackupTopErrors` | backup/log_analyzer.py:36-37 | the top list holds at most `top_n` entries, with counts never increasing, each the number of its error lines |

## Left out

- Argument parsing (`parse_arguments` in both files) and the parse of the `--since` string in `main`. The cutoff is given as an already parsed `Option<Date>`.
- Opening and decoding a file with `errors='ignore'`, and splitting it into lines. A file is given as its outcome: missing, unreadable, or its lines. Each line is taken exactly as it is read, with its line terminator if it has one.
- The wording of the printed messages, the colours, and the "Analyzing ..." line. The model keeps each notice as a value: `FileNotFound`, `ReadFailed`, `EmptyFile`, or `MalformedDate` with the stripped line.
- The text and CSV exports, and the choice between them by the `.csv` suffix. Only the `most_common(top_n)` list that the reports print is modelled (`TopErrors`).
- The exception text caught at log_analyzer.py:53-54. Any failure while reading is the single outcome `Unreadable`.
- Classifier.Matches: it lower-cases ASCII letters only. Python's case-insensitive search also lets a few non-ASCII letters (`İ`, `ı`) match `i`, and the model does not.
- Dates.MatchFormat: it accepts ASCII digits only, while `\d` in the `strptime` pattern also accepts other Unicode decimal digits.
- setup.py (packaging metadata) and backup/tests/test_log_analyzer.py, which depends on a sample log that is not part of this model.
