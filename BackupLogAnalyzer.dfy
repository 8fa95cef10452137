/**
 * The earlier analyzer kept in backup/log_analyzer.py: one file, no date gate, no empty-file
 * notice, and no exception handling, so a missing or unreadable file ends the program with
 * the exception instead of yielding zero counts.
 */
module BackupLogAnalyzer {
  import opened Wrappers
  import opened Text
  import opened Classifier
  import opened Counters
  import opened Ranking
  import opened LogAnalyzer

  /** The exception `open` or the read raises. */
  datatype IoError = FileNotFoundError(path: string) | ReadError(path: string)

  /** `analyze_log(file_path)`: the exception, or the counts over every line. */
  function BackupAnalysis(file: LogFile): Result<Summary, IoError> {
    match file.content
    case NotFound => Failure(FileNotFoundError(file.path))
    case Unreadable => Failure(ReadError(file.path))
    case Lines(lines) => Success(Tally(lines, None))
  }

  /** `analyze_log(file_path)`: classify every line as it is read. */
  method AnalyzeLog(file: LogFile) returns (r: Result<Summary, IoError>)
    ensures r == BackupAnalysis(file)
    ensures r.Success? ==> Valid(r.value.errors)
  {
    match file.content {
      case NotFound =>
        return Failure(FileNotFoundError(file.path));
      case Unreadable =>
        return Failure(ReadError(file.path));
      case Lines(lines) =>
        var errorCounter := Empty;
        var warningCount: nat := 0;
        var failedLoginCount: nat := 0;
        for i := 0 to |lines|
          invariant Summary(errorCounter, warningCount, failedLoginCount) == Tally(lines[..i], None)
        {
          var line := lines[i];
          ghost var before := Summary(errorCounter, warningCount, failedLoginCount);
          assert lines[..i + 1][..i] == lines[..i];
          assert Tally(lines[..i + 1], None) == Step(before, line, None);
          assert GateOf(line, None) == Keep;
          if Matches(line, ErrorPattern) {
            errorCounter := Increment(errorCounter, Strip(line));
          }
          if Matches(line, WarningPattern) {
            warningCount := warningCount + 1;
          }
          if Matches(line, FailedLoginPattern) {
            failedLoginCount := failedLoginCount + 1;
          }
        }
        assert lines[..|lines|] == lines;
        return Success(Summary(errorCounter, warningCount, failedLoginCount));
    }
  }

  /**
   * On a file both versions can read, the backup counts what the current analyzer counts
   * without a cutoff (an empty file gives zero counts in both); on a file neither can read,
   * the backup fails where the current analyzer returns zero counts.
   */
  lemma AgreesWithAnalyzer(file: LogFile)
    ensures file.content.Lines? ==> BackupAnalysis(file) == Success(Analysis(file, None).0)
    ensures !file.content.Lines? ==> BackupAnalysis(file).Failure? && Analysis(file, None).0 == NoFindings
  {
  }

  /**
   * The counts of a readable file: warnings and failed logins are the lines mentioning them,
   * and each error message counts the error lines that strip to it.
   */
  lemma BackupCounts(lines: seq<string>, path: string, key: string)
    ensures BackupAnalysis(LogFile(path, Lines(lines))).Success?
    ensures var s := BackupAnalysis(LogFile(path, Lines(lines))).value;
            && s.warnings == CountMatching(lines, WarningPattern)
            && s.failedLogins == CountMatching(lines, FailedLoginPattern)
            && Get(s.errors, key) == CountKey(lines, key)
            && s.errors.order == FirstSeen(ErrorKeys(lines))
  {
    WarningsCounted(lines);
    FailedLoginsCounted(lines);
    ErrorsCountedByKey(lines, key);
    ErrorsInFirstSeenOrder(lines);
  }

  /**
   * `error_counter.most_common(top_n)` of the backup's summary: at most `top_n` messages,
   * counts never increasing, each listed with the number of its error lines.
   */
  lemma BackupTopErrors(lines: seq<string>, path: string, topN: int)
    ensures var s := BackupAnalysis(LogFile(path, Lines(lines))).value;
            var top := MostCommon(s.errors, topN);
            && |top| <= (if topN <= 0 then 0 else topN)
            && NonIncreasing(top)
            && (forall i :: 0 <= i < |top| ==> top[i].1 == CountKey(lines, top[i].0))
  {
    var s := BackupAnalysis(LogFile(path, Lines(lines))).value;
    var top := MostCommon(s.errors, topN);
    MostCommonListsEntries(s.errors, topN);
    MostCommonIsNonIncreasing(s.errors, topN);
    forall i | 0 <= i < |top| ensures top[i].1 == CountKey(lines, top[i].0) {
      ErrorsCountedByKey(lines, top[i].0);
    }
  }
}
