/**
 * The analyzer of log_analyzer.py: `analyze_log` (lines 16-56) reads one file, drops the
 * lines dated before an optional cutoff, and counts error messages (keyed by the stripped
 * line), warnings and failed logins; `main` (lines 86-95) merges the results of every file,
 * and the reports list the `most_common(top_n)` errors of the merged counter.
 *
 * The counters the source mutates in place are values here: the methods reassign local
 * variables, and the specification functions fold the same steps over the lines.
 */
module LogAnalyzer {
  import opened Wrappers
  import opened Text
  import opened Classifier
  import opened Dates
  import opened Counters
  import opened Ranking

  /** What opening and reading a file yields: it is missing, reading it fails, or its lines. */
  datatype FileContent = NotFound | Unreadable | Lines(lines: seq<string>)

  datatype LogFile = LogFile(path: string, content: FileContent)

  /** The messages `analyze_log` prints instead of raising. */
  datatype Notice =
    | FileNotFound(path: string)
    | ReadFailed(path: string)
    | EmptyFile(path: string)
    | MalformedDate(line: string)

  /** The triple `analyze_log` returns: the error counter, the warning and failed-login counts. */
  datatype Summary = Summary(errors: Table, warnings: nat, failedLogins: nat)

  const NoFindings: Summary := Summary(Empty, 0, 0)

  // ---------------------------------------------------------------- one line

  /** What the date gate does with a line. */
  datatype Gate = Keep | TooOld | Malformed

  /**
   * With a cutoff, a line whose first whitespace-separated token is a date before the cutoff
   * is skipped, and one whose first token is not a date is skipped with a notice; a line
   * without tokens, and every line when there is no cutoff, passes.
   */
  function GateOf(line: string, since: Option<Date>): Gate {
    match since
    case None => Keep
    case Some(cutoff) =>
      var parts := Split(line);
      if parts == [] then Keep
      else match ParseDate(parts[0])
        case None => Malformed
        case Some(d) => if Before(d, cutoff) then TooOld else Keep
  }

  /** `if error_pattern.search(line): error_counter[line.strip()] += 1`. */
  function CountError(errors: Table, line: string): Table {
    if Matches(line, ErrorPattern) then Increment(errors, Strip(line)) else errors
  }

  /** One more if `line` matches `pattern`. */
  function CountIf(n: nat, line: string, pattern: string): nat {
    if Matches(line, pattern) then n + 1 else n
  }

  /** Counts one line that passed the gate: each of the three checks is made on its own. */
  function Record(acc: Summary, line: string): Summary {
    Summary(CountError(acc.errors, line), CountIf(acc.warnings, line, WarningPattern),
            CountIf(acc.failedLogins, line, FailedLoginPattern))
  }

  /** One turn of the loop over the lines. */
  function Step(acc: Summary, line: string, since: Option<Date>): Summary {
    if GateOf(line, since) == Keep then Record(acc, line) else acc
  }

  /** The counts after the loop has gone through `lines`. */
  function Tally(lines: seq<string>, since: Option<Date>): (s: Summary)
    ensures Valid(s.errors)
  {
    if lines == [] then NoFindings
    else Step(Tally(lines[..|lines| - 1], since), lines[|lines| - 1], since)
  }

  /** The malformed-date notices printed for `lines`, in order. */
  function DateNotices(lines: seq<string>, since: Option<Date>): seq<Notice> {
    if lines == [] then []
    else
      var last := lines[|lines| - 1];
      DateNotices(lines[..|lines| - 1], since)
      + (if GateOf(last, since) == Malformed then [MalformedDate(Strip(last))] else [])
  }

  // ---------------------------------------------------------------- one file

  /** The lines a file contributes: none when it cannot be read. */
  function LinesOf(file: LogFile): seq<string> {
    if file.content.Lines? then file.content.lines else []
  }

  /** `analyze_log(file_path, since_date)`: its result and the notices it prints. */
  function Analysis(file: LogFile, since: Option<Date>): (r: (Summary, seq<Notice>))
    ensures Valid(r.0.errors)
  {
    match file.content
    case NotFound => (NoFindings, [FileNotFound(file.path)])
    case Unreadable => (NoFindings, [ReadFailed(file.path)])
    case Lines(lines) =>
      if lines == [] then (NoFindings, [EmptyFile(file.path)])
      else (Tally(lines, since), DateNotices(lines, since))
  }

  /**
   * `analyze_log`: a missing or unreadable file and an empty one give zero counts and one
   * notice; otherwise each line is gated, then counted.
   */
  method AnalyzeLog(file: LogFile, since: Option<Date>) returns (summary: Summary, notices: seq<Notice>)
    ensures (summary, notices) == Analysis(file, since)
  {
    var errorCounter := Empty;
    var warningCount: nat := 0;
    var failedLoginCount: nat := 0;
    notices := [];
    match file.content {
      case NotFound =>
        notices := [FileNotFound(file.path)];
      case Unreadable =>
        notices := [ReadFailed(file.path)];
      case Lines(lines) =>
        if lines == [] {
          notices := [EmptyFile(file.path)];
        } else {
          var i := 0;
          while i < |lines|
            invariant 0 <= i <= |lines|
            invariant Summary(errorCounter, warningCount, failedLoginCount) == Tally(lines[..i], since)
            invariant notices == DateNotices(lines[..i], since)
          {
            var line := lines[i];
            ghost var before := Summary(errorCounter, warningCount, failedLoginCount);
            i := i + 1;
            assert lines[..i][..i - 1] == lines[..i - 1];
            assert Tally(lines[..i], since) == Step(before, line, since);
            assert DateNotices(lines[..i], since) == notices
              + (if GateOf(line, since) == Malformed then [MalformedDate(Strip(line))] else []);
            if since.Some? {
              var parts := Split(line);
              if parts != [] {
                var logDate := ParseDate(parts[0]);
                if logDate.None? {
                  assert GateOf(line, since) == Malformed;
                  notices := notices + [MalformedDate(Strip(line))];
                  continue;
                }
                if Before(logDate.value, since.value) {
                  assert GateOf(line, since) == TooOld;
                  continue;
                }
              }
            }
            assert GateOf(line, since) == Keep;
            if Matches(line, ErrorPattern) {
              errorCounter := Increment(errorCounter, Strip(line));
            }
            if Matches(line, WarningPattern) {
              warningCount := warningCount + 1;
            }
            if Matches(line, FailedLoginPattern) {
              failedLoginCount := failedLoginCount + 1;
            }
          }
          assert lines[..|lines|] == lines;
        }
    }
    summary := Summary(errorCounter, warningCount, failedLoginCount);
  }

  // ---------------------------------------------------------------- all files

  /** Adds one file's counts to the running totals: `update` for the errors, `+=` for the rest. */
  function Combine(total: Summary, s: Summary): (r: Summary)
    requires Valid(total.errors) && Valid(s.errors)
    ensures Valid(r.errors)
  {
    Summary(Update(total.errors, s.errors), total.warnings + s.warnings,
            total.failedLogins + s.failedLogins)
  }

  /** The totals after the loop of `main` has gone through `files`. */
  function Aggregated(files: seq<LogFile>, since: Option<Date>): (s: Summary)
    ensures Valid(s.errors)
  {
    if files == [] then NoFindings
    else Combine(Aggregated(files[..|files| - 1], since), Analysis(files[|files| - 1], since).0)
  }

  /** Every notice printed while analyzing `files`, in order. */
  function AllNotices(files: seq<LogFile>, since: Option<Date>): seq<Notice> {
    if files == [] then []
    else AllNotices(files[..|files| - 1], since) + Analysis(files[|files| - 1], since).1
  }

  lemma AggregatedPrefix(files: seq<LogFile>, i: nat, since: Option<Date>)
    requires i < |files|
    ensures Aggregated(files[..i + 1], since)
            == Combine(Aggregated(files[..i], since), Analysis(files[i], since).0)
    ensures AllNotices(files[..i + 1], since) == AllNotices(files[..i], since) + Analysis(files[i], since).1
  {
    assert files[..i + 1][..i] == files[..i];
  }

  /** The loop of `main`: analyze each file and merge its counts into the totals. */
  method Aggregate(files: seq<LogFile>, since: Option<Date>) returns (total: Summary, notices: seq<Notice>)
    ensures total == Aggregated(files, since)
    ensures notices == AllNotices(files, since)
  {
    var combinedErrorCounter := Empty;
    var totalWarningCount: nat := 0;
    var totalFailedLoginCount: nat := 0;
    notices := [];
    for i := 0 to |files|
      invariant combinedErrorCounter == Aggregated(files[..i], since).errors
      invariant totalWarningCount == Aggregated(files[..i], since).warnings
      invariant totalFailedLoginCount == Aggregated(files[..i], since).failedLogins
      invariant notices == AllNotices(files[..i], since)
    {
      AggregatedPrefix(files, i, since);
      var summary, printed := AnalyzeLog(files[i], since);
      combinedErrorCounter := Update(combinedErrorCounter, summary.errors);
      totalWarningCount := totalWarningCount + summary.warnings;
      totalFailedLoginCount := totalFailedLoginCount + summary.failedLogins;
      notices := notices + printed;
    }
    assert files[..|files|] == files;
    total := Summary(combinedErrorCounter, totalWarningCount, totalFailedLoginCount);
  }

  /** `combined_error_counter.most_common(top_n)`, the list every report prints. */
  function TopErrors(total: Summary, topN: int): (r: seq<Entry>)
    ensures |r| <= |total.errors.order|
    ensures topN <= 0 ==> r == []
  {
    MostCommon(total.errors, topN)
  }

  // ---------------------------------------------------------------- one line, counted

  /**
   * An error line adds exactly one to the entry of its stripped text and nothing else; a
   * line without "error" in any casing leaves the error table as it was.
   */
  lemma ErrorLineCounted(acc: Summary, line: string)
    ensures Matches(line, ErrorPattern) <==>
            Get(Record(acc, line).errors, Strip(line)) == Get(acc.errors, Strip(line)) + 1
    ensures !Matches(line, ErrorPattern) ==> Record(acc, line).errors == acc.errors
    ensures forall k :: k != Strip(line) ==> Get(Record(acc, line).errors, k) == Get(acc.errors, k)
  {
  }

  /** The three checks are independent: a line in all three categories raises all three results. */
  lemma ChecksAreIndependent(acc: Summary, line: string)
    ensures Record(acc, line).warnings == acc.warnings + 1 <==> Matches(line, WarningPattern)
    ensures Record(acc, line).failedLogins == acc.failedLogins + 1 <==> Matches(line, FailedLoginPattern)
    ensures Matches(line, ErrorPattern) && Matches(line, WarningPattern) && Matches(line, FailedLoginPattern)
            ==> && Get(Record(acc, line).errors, Strip(line)) == Get(acc.errors, Strip(line)) + 1
                && Record(acc, line).warnings == acc.warnings + 1
                && Record(acc, line).failedLogins == acc.failedLogins + 1
  {
  }

  // ---------------------------------------------------------------- reference counts

  /** The number of lines that match `pattern`. */
  function CountMatching(lines: seq<string>, pattern: string): (n: nat)
    ensures n <= |lines|
  {
    if lines == [] then 0
    else CountMatching(lines[..|lines| - 1], pattern) + (if Matches(lines[|lines| - 1], pattern) then 1 else 0)
  }

  /** The stripped text of every error line, in order, repeats included. */
  function ErrorKeys(lines: seq<string>): seq<string> {
    if lines == [] then []
    else
      var last := lines[|lines| - 1];
      ErrorKeys(lines[..|lines| - 1]) + (if Matches(last, ErrorPattern) then [Strip(last)] else [])
  }

  /** The number of error lines whose stripped text is `key`. */
  function CountKey(lines: seq<string>, key: string): (n: nat)
    ensures n <= CountMatching(lines, ErrorPattern)
  {
    if lines == [] then 0
    else
      var last := lines[|lines| - 1];
      CountKey(lines[..|lines| - 1], key) + (if Matches(last, ErrorPattern) && Strip(last) == key then 1 else 0)
  }

  /** The lines that pass the date gate, in order. */
  function Gated(lines: seq<string>, since: Option<Date>): (r: seq<string>)
    ensures |r| <= |lines|
  {
    if lines == [] then []
    else
      var last := lines[|lines| - 1];
      Gated(lines[..|lines| - 1], since) + (if GateOf(last, since) == Keep then [last] else [])
  }

  // ---------------------------------------------------------------- counting without a cutoff

  /** Without a cutoff every line passes, and no date notice is printed. */
  lemma NoCutoffKeepsEveryLine(lines: seq<string>)
    ensures Gated(lines, None) == lines
    ensures DateNotices(lines, None) == []
  {
    GatedWithoutCutoff(lines);
    NoNoticesWithoutCutoff(lines);
  }

  lemma {:induction false} GatedWithoutCutoff(lines: seq<string>)
    ensures Gated(lines, None) == lines
  {
    if lines != [] {
      var init, last := lines[..|lines| - 1], lines[|lines| - 1];
      GatedWithoutCutoff(init);
      assert GateOf(last, None) == Keep;
      assert Gated(lines, None) == init + [last];
      assert lines == init + [last];
    }
  }

  lemma {:induction false} NoNoticesWithoutCutoff(lines: seq<string>)
    ensures DateNotices(lines, None) == []
  {
    if lines != [] {
      NoNoticesWithoutCutoff(lines[..|lines| - 1]);
      assert GateOf(lines[|lines| - 1], None) == Keep;
    }
  }

  /** The warning count is the number of lines mentioning "warning" in any casing. */
  lemma {:induction false} WarningsCounted(lines: seq<string>)
    ensures Tally(lines, None).warnings == CountMatching(lines, WarningPattern)
  {
    if lines != [] {
      WarningsCounted(lines[..|lines| - 1]);
    }
  }

  /** The failed-login count is the number of lines mentioning "failed login" in any casing. */
  lemma {:induction false} FailedLoginsCounted(lines: seq<string>)
    ensures Tally(lines, None).failedLogins == CountMatching(lines, FailedLoginPattern)
  {
    if lines != [] {
      FailedLoginsCounted(lines[..|lines| - 1]);
    }
  }

  /** The count of an error message is the number of error lines that strip to it. */
  lemma {:induction false} ErrorsCountedByKey(lines: seq<string>, key: string)
    ensures Get(Tally(lines, None).errors, key) == CountKey(lines, key)
  {
    if lines != [] {
      ErrorsCountedByKey(lines[..|lines| - 1], key);
    }
  }

  /** The error counter lists each message once, in the order its first line appears. */
  lemma {:induction false} ErrorsInFirstSeenOrder(lines: seq<string>)
    ensures Tally(lines, None).errors.order == FirstSeen(ErrorKeys(lines))
  {
    if lines != [] {
      var init, last := lines[..|lines| - 1], lines[|lines| - 1];
      ErrorsInFirstSeenOrder(init);
      if Matches(last, ErrorPattern) {
        var keys := ErrorKeys(init) + [Strip(last)];
        assert ErrorKeys(lines) == keys;
        assert keys[..|keys| - 1] == ErrorKeys(init);
      } else {
        assert ErrorKeys(lines) == ErrorKeys(init);
      }
    }
  }

  /** The error counts add up to the number of error lines. */
  lemma {:induction false} ErrorTotalCounted(lines: seq<string>)
    ensures Total(Tally(lines, None).errors) == CountMatching(lines, ErrorPattern)
  {
    if lines != [] {
      var init, last := lines[..|lines| - 1], lines[|lines| - 1];
      var before := Tally(init, None);
      ErrorTotalCounted(init);
      assert GateOf(last, None) == Keep;
      assert Tally(lines, None) == Step(before, last, None) == Record(before, last);
      if Matches(last, ErrorPattern) {
        assert Tally(lines, None).errors == Increment(before.errors, Strip(last));
        TotalIncrement(before.errors, Strip(last));
      } else {
        assert Tally(lines, None).errors == before.errors;
      }
    }
  }

  // ---------------------------------------------------------------- the date gate

  /** Gating then counting is counting the lines that pass the gate. */
  lemma {:induction false} TallyIsGatedTally(lines: seq<string>, since: Option<Date>)
    ensures Tally(lines, since) == Tally(Gated(lines, since), None)
  {
    if lines != [] {
      var init, last := lines[..|lines| - 1], lines[|lines| - 1];
      TallyIsGatedTally(init, since);
      assert Tally(lines, since) == Step(Tally(init, since), last, since);
      if GateOf(last, since) == Keep {
        var g := Gated(init, since) + [last];
        assert Gated(lines, since) == g;
        assert g[..|g| - 1] == Gated(init, since);
        assert Tally(g, None) == Record(Tally(Gated(init, since), None), last);
      } else {
        assert Gated(lines, since) == Gated(init, since);
      }
    }
  }

  /** Each malformed-date notice stands for a line that was not counted. */
  lemma {:induction false} NoticesAreDroppedLines(lines: seq<string>, since: Option<Date>)
    ensures |Gated(lines, since)| + |DateNotices(lines, since)| <= |lines|
  {
    if lines != [] {
      NoticesAreDroppedLines(lines[..|lines| - 1], since);
    }
  }

  /** No count of one file exceeds its number of lines, whatever the cutoff. */
  lemma TallyBounded(lines: seq<string>, since: Option<Date>)
    ensures Tally(lines, since).warnings <= |lines|
    ensures Tally(lines, since).failedLogins <= |lines|
    ensures Total(Tally(lines, since).errors) <= |lines|
  {
    var kept := Gated(lines, since);
    TallyIsGatedTally(lines, since);
    WarningsCounted(kept);
    FailedLoginsCounted(kept);
    ErrorTotalCounted(kept);
  }

  /** `YYYY-MM-DD` text holds digits and dashes only. */
  lemma FormatHasNoSpace(d: Date)
    requires ValidDate(d)
    ensures IsToken(Format(d))
  {
    var s := Format(d);
    var y, m, dd := Padded(d.year, 4), Padded(d.month, 2), Padded(d.day, 2);
    assert s == y + "-" + m + "-" + dd;
    forall i | 0 <= i < |s| ensures !IsSpace(s[i]) {
      if i < 4 { assert s[i] == y[i]; }
      else if 5 <= i < 7 { assert s[i] == m[i - 5]; }
      else if 8 <= i { assert s[i] == dd[i - 8]; }
    }
  }

  /**
   * A line whose first token, after optional whitespace `p`, parses as the date `d` is
   * skipped exactly when `d` is before the cutoff; a line dated on the cutoff day itself is
   * kept. The token may be any text the parse accepts, padded or not.
   */
  lemma DatedLineGate(p: string, w: string, rest: string, d: Date, cutoff: Date)
    requires AllSpace(p) && IsToken(w) && ParseDate(w) == Some(d)
    requires rest == [] || IsSpace(rest[0])
    ensures GateOf(p + w + rest, Some(cutoff)) == if Before(d, cutoff) then TooOld else Keep
    ensures d == cutoff ==> GateOf(p + w + rest, Some(cutoff)) == Keep
  {
    SplitFirstToken(p, w, rest);
  }

  /** The same for a line whose date is written `YYYY-MM-DD`. */
  lemma FormattedLineGate(p: string, d: Date, rest: string, cutoff: Date)
    requires AllSpace(p) && ValidDate(d)
    requires rest == [] || IsSpace(rest[0])
    ensures GateOf(p + Format(d) + rest, Some(cutoff)) == if Before(d, cutoff) then TooOld else Keep
  {
    FormatHasNoSpace(d);
    ParseFormat(d);
    DatedLineGate(p, Format(d), rest, d, cutoff);
  }

  /** An error line dated `2024-1-5`, without zero padding, is dropped under the cutoff 2024-01-10. */
  lemma UnpaddedDateLineDropped()
    ensures GateOf("2024-1-5 ERROR x", Some(Date(2024, 1, 10))) == TooOld
  {
    var w, rest := "2024-1-5", " ERROR x";
    ParseAcceptsUnpaddedFields();
    assert IsToken(w) by {
      forall i | 0 <= i < |w| ensures !IsSpace(w[i]) {
        assert w[i] in "0123456789-";
      }
    }
    assert "" + w + rest == "2024-1-5 ERROR x";
    DatedLineGate("", w, rest, Date(2024, 1, 5), Date(2024, 1, 10));
  }

  /** A line whose first token is not a date is dropped from every count, with one notice. */
  lemma UndatedLineSkipped(p: string, w: string, rest: string, cutoff: Date)
    requires AllSpace(p) && IsToken(w) && ParseDate(w) == None
    requires rest == [] || IsSpace(rest[0])
    ensures GateOf(p + w + rest, Some(cutoff)) == Malformed
    ensures Tally([p + w + rest], Some(cutoff)) == NoFindings
    ensures DateNotices([p + w + rest], Some(cutoff)) == [MalformedDate(Strip(p + w + rest))]
  {
    var line := p + w + rest;
    SplitFirstToken(p, w, rest);
    assert GateOf(line, Some(cutoff)) == Malformed;
    assert [line][..0] == [];
    assert Tally([line], Some(cutoff)) == Step(NoFindings, line, Some(cutoff));
    assert DateNotices([line], Some(cutoff)) == [] + [MalformedDate(Strip(line))];
  }

  /** A blank or whitespace-only line passes the gate and prints no notice. */
  lemma BlankLineBypassesGate(line: string, since: Option<Date>)
    requires AllSpace(line)
    ensures GateOf(line, since) == Keep
    ensures DateNotices([line], since) == []
  {
    assert Split(line) == [];
    assert GateOf(line, since) == Keep;
    assert [line][..0] == [];
    assert DateNotices([line], since) == DateNotices([], since) + [];
  }

  /** A line the gate drops leaves every count as it was. */
  lemma {:induction false} SkippedLineNotCounted(before: seq<string>, line: string, after: seq<string>, since: Option<Date>)
    requires GateOf(line, since) != Keep
    ensures Tally(before + [line] + after, since) == Tally(before + after, since)
  {
    TallyConcat(before + [line], after, since);
    TallyConcat(before, after, since);
    var b := before + [line];
    assert b[..|b| - 1] == before;
  }

  // ---------------------------------------------------------------- merging

  lemma CombineNothing(s: Summary)
    requires Valid(s.errors)
    ensures Combine(s, NoFindings) == s
  {
  }

  /**
   * Merging is additive: every error count and both counters are sums, the keys are the keys
   * of either side, the running table keeps its order, and new messages follow in file order.
   */
  lemma CombineIsAdditive(total: Summary, s: Summary)
    requires Valid(total.errors) && Valid(s.errors)
    ensures forall k :: Get(Combine(total, s).errors, k) == Get(total.errors, k) + Get(s.errors, k)
    ensures Combine(total, s).errors.counts.Keys == total.errors.counts.Keys + s.errors.counts.Keys
    ensures Combine(total, s).errors.order
            == total.errors.order + NewKeys(s.errors.order, total.errors.counts.Keys)
    ensures Combine(total, s).warnings == total.warnings + s.warnings
    ensures Combine(total, s).failedLogins == total.failedLogins + s.failedLogins
  {
    UpdateKeys(total.errors, s.errors);
  }

  /** Counting an error line after merging tables is merging after counting it. */
  lemma CountErrorAfterUpdate(a: Table, b: Table, line: string)
    requires Valid(a) && Valid(b)
    ensures Valid(CountError(b, line))
    ensures CountError(Update(a, b), line) == Update(a, CountError(b, line))
  {
    if Matches(line, ErrorPattern) {
      IncrementAfterUpdate(a, b, Strip(line));
    }
  }

  /** Counting a line after merging is merging after counting it. */
  lemma RecordAfterCombine(total: Summary, s: Summary, line: string)
    requires Valid(total.errors) && Valid(s.errors)
    ensures Valid(Record(s, line).errors)
    ensures Record(Combine(total, s), line) == Combine(total, Record(s, line))
  {
    CountErrorAfterUpdate(total.errors, s.errors, line);
  }

  lemma StepAfterCombine(total: Summary, s: Summary, line: string, since: Option<Date>)
    requires Valid(total.errors) && Valid(s.errors)
    ensures Valid(Step(s, line, since).errors)
    ensures Step(Combine(total, s), line, since) == Combine(total, Step(s, line, since))
  {
    if GateOf(line, since) == Keep {
      RecordAfterCombine(total, s, line);
    }
  }

  /** The counts of two runs of lines merge into the counts of the lines one after the other. */
  lemma {:induction false} TallyConcat(a: seq<string>, b: seq<string>, since: Option<Date>)
    ensures Tally(a + b, since) == Combine(Tally(a, since), Tally(b, since))
  {
    if b == [] {
      assert a + b == a;
      CombineNothing(Tally(a, since));
    } else {
      var init, last := b[..|b| - 1], b[|b| - 1];
      TallyConcat(a, init, since);
      assert (a + b)[..|a + b| - 1] == a + init;
      assert (a + b)[|a + b| - 1] == last;
      StepAfterCombine(Tally(a, since), Tally(init, since), last, since);
    }
  }

  /** One file's result is the count of its lines, none when it cannot be read. */
  lemma AnalysisIsTally(file: LogFile, since: Option<Date>)
    ensures Analysis(file, since).0 == Tally(LinesOf(file), since)
  {
  }

  /** A missing, unreadable or empty file yields zero counts and exactly one notice naming it. */
  lemma UnusableFileYieldsNothing(file: LogFile, since: Option<Date>)
    requires !file.content.Lines? || file.content.lines == []
    ensures Analysis(file, since).0 == NoFindings
    ensures Analysis(file, since).1 == [if file.content.NotFound? then FileNotFound(file.path)
                                        else if file.content.Unreadable? then ReadFailed(file.path)
                                        else EmptyFile(file.path)]
  {
  }

  /** Every line of every readable file, in file order. */
  function AllLines(files: seq<LogFile>): seq<string> {
    if files == [] then [] else AllLines(files[..|files| - 1]) + LinesOf(files[|files| - 1])
  }

  /** Merging file by file counts the same as counting all the lines of all files at once. */
  lemma {:induction false} AggregatedIsTallyOfAllLines(files: seq<LogFile>, since: Option<Date>)
    ensures Aggregated(files, since) == Tally(AllLines(files), since)
  {
    if files != [] {
      var init, last := files[..|files| - 1], files[|files| - 1];
      AggregatedIsTallyOfAllLines(init, since);
      AnalysisIsTally(last, since);
      TallyConcat(AllLines(init), LinesOf(last), since);
    }
  }

  /**
   * The totals of `main`: over all lines of all readable files that pass the gate, the
   * warnings and failed logins are the lines mentioning them, each error message counts the
   * error lines that strip to it, messages are listed in first-seen order, and the error
   * counts add up to the number of error lines.
   */
  lemma ReportedTotals(files: seq<LogFile>, since: Option<Date>, key: string)
    ensures var kept := Gated(AllLines(files), since);
            var total := Aggregated(files, since);
            && total.warnings == CountMatching(kept, WarningPattern)
            && total.failedLogins == CountMatching(kept, FailedLoginPattern)
            && Get(total.errors, key) == CountKey(kept, key)
            && total.errors.order == FirstSeen(ErrorKeys(kept))
            && Total(total.errors) == CountMatching(kept, ErrorPattern)
  {
    var kept := Gated(AllLines(files), since);
    AggregatedIsTallyOfAllLines(files, since);
    TallyIsGatedTally(AllLines(files), since);
    WarningsCounted(kept);
    FailedLoginsCounted(kept);
    ErrorsCountedByKey(kept, key);
    ErrorsInFirstSeenOrder(kept);
    ErrorTotalCounted(kept);
  }

  /**
   * The top-N list of the reports: at most `topN` messages, counts never increasing, each with
   * the number of error lines that strip to it, and none left out with a larger count.
   */
  lemma TopErrorsRanked(files: seq<LogFile>, since: Option<Date>, topN: int)
    ensures var top := TopErrors(Aggregated(files, since), topN);
            var kept := Gated(AllLines(files), since);
            && |top| <= (if topN <= 0 then 0 else topN)
            && NonIncreasing(top)
            && (forall i :: 0 <= i < |top| ==> top[i].1 == CountKey(kept, top[i].0) && top[i].1 >= 1)
            && (forall i, k :: 0 <= i < |top| && !Listed(top, k) ==> top[i].1 >= CountKey(kept, k))
  {
    var total := Aggregated(files, since);
    var top := TopErrors(total, topN);
    var kept := Gated(AllLines(files), since);
    MostCommonListsEntries(total.errors, topN);
    MostCommonIsNonIncreasing(total.errors, topN);
    MostCommonKeepsLargest(total.errors, topN);
    forall i | 0 <= i < |top| ensures top[i].1 == CountKey(kept, top[i].0) && top[i].1 >= 1 {
      ReportedTotals(files, since, top[i].0);
    }
    forall i, k | 0 <= i < |top| && !Listed(top, k) ensures top[i].1 >= CountKey(kept, k) {
      ReportedTotals(files, since, k);
    }
  }

  /** An error line padded with whitespace counts under the same message as the bare line. */
  lemma PaddedErrorLinesShareKey(p: string, line: string, q: string)
    requires AllSpace(p) && AllSpace(q)
    requires Matches(line, ErrorPattern)
    ensures Get(Tally([p + line + q, line], None).errors, Strip(line)) == 2
    ensures Tally([p + line + q, line], None).errors.order == [Strip(line)]
  {
    var padded, k := p + line + q, Strip(line);
    StripIgnoresPadding(p, line, q);
    MatchAnywhere(p, line, q, ErrorPattern);
    TallyOfTwo(padded, line, None);
    var first := Increment(Empty, k);
    assert Step(NoFindings, padded, None).errors == first;
    assert Get(first, k) == 1 && first.order == [k];
    assert k in first.counts;
    assert Tally([padded, line], None).errors == Increment(first, k);
  }

  /** Two lines are counted one after the other. */
  lemma TallyOfTwo(a: string, b: string, since: Option<Date>)
    ensures Tally([a, b], since) == Step(Step(NoFindings, a, since), b, since)
  {
    var one, two := [a], [a, b];
    assert one[..0] == [] && one[0] == a;
    assert two[..1] == one && two[1] == b;
    assert Tally(one, since) == Step(Tally([], since), a, since);
    assert Tally(two, since) == Step(Tally(one, since), b, since);
  }

  /** With no files there is nothing to report. */
  lemma NoFilesNoFindings(since: Option<Date>, topN: int)
    ensures Aggregated([], since) == NoFindings
    ensures TopErrors(Aggregated([], since), topN) == []
  {
  }
}
