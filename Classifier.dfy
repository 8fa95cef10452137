/**
 * The line classifier: three fixed patterns searched case-insensitively anywhere in a line
 * (log_analyzer.py:17-19 and 44-49; backup/log_analyzer.py:13-15 and 23-28).
 */
module Classifier {
  import opened Text

  const ErrorPattern: string := "error"
  const WarningPattern: string := "warning"
  const FailedLoginPattern: string := "failed login"

  /** `re.search(pattern, line, re.IGNORECASE)` for a lower-case ASCII pattern. */
  predicate Matches(line: string, pattern: string) {
    Contains(LowerStr(line), pattern)
  }

  lemma LowerIdempotent(s: string)
    ensures LowerStr(LowerStr(s)) == LowerStr(s)
  {
  }

  /** A check does not depend on letter casing: upper- or lower-casing the line changes no match. */
  lemma MatchesIgnoresCase(line: string, pattern: string)
    ensures Matches(UpperStr(line), pattern) == Matches(line, pattern)
    ensures Matches(LowerStr(line), pattern) == Matches(line, pattern)
  {
    LowerOfUpper(line);
    LowerIdempotent(line);
  }

  /** A line matches exactly when the lower-cased line holds the pattern at some position. */
  lemma MatchesIffOccurs(line: string, pattern: string)
    ensures Matches(line, pattern) <==> exists i: nat :: OccursAt(LowerStr(line), pattern, i)
  {
    var low := LowerStr(line);
    if Matches(line, pattern) {
      ContainsWitness(low, pattern);
    }
    if exists i: nat :: OccursAt(low, pattern, i) {
      var i: nat :| OccursAt(low, pattern, i);
      ContainsAt(low, pattern, i);
    }
  }

  /** Matching is unanchored: text around a matching line keeps it matching. */
  lemma {:induction false} MatchAnywhere(pre: string, line: string, post: string, pattern: string)
    requires Matches(line, pattern)
    ensures Matches(pre + line + post, pattern)
  {
    LowerStrConcat(pre + line, post);
    LowerStrConcat(pre, line);
    ContainsExtended(LowerStr(pre), LowerStr(line), LowerStr(post), pattern);
  }

  /** At index `i` of `line` stand "failed" in any casing, one ASCII space, and "login" in any casing. */
  predicate SingleSpacedAt(line: string, i: nat) {
    var low := LowerStr(line);
    OccursAt(low, "failed", i) && i + 6 < |line| && line[i + 6] == ' ' && OccursAt(low, "login", i + 7)
  }

  /** A line is a failed login exactly when "failed", one ASCII space and "login" stand somewhere in it. */
  lemma FailedLoginHasSingleSpace(line: string)
    ensures Matches(line, FailedLoginPattern) <==> exists i: nat :: SingleSpacedAt(line, i)
  {
    var low := LowerStr(line);
    MatchesIffOccurs(line, FailedLoginPattern);
    forall i: nat ensures OccursAt(low, FailedLoginPattern, i) <==> SingleSpacedAt(line, i) {
      SingleSpacedAtIsPattern(line, i);
    }
  }

  lemma SingleSpacedAtIsPattern(line: string, i: nat)
    ensures OccursAt(LowerStr(line), FailedLoginPattern, i) <==> SingleSpacedAt(line, i)
  {
    var low := LowerStr(line);
    if i + 12 <= |line| {
      var window := low[i..i + 12];
      assert window[..6] == low[i..i + 6] && window[7..] == low[i + 7..i + 12] && window[6] == low[i + 6];
      assert FailedLoginPattern[..6] == "failed" && FailedLoginPattern[7..] == "login";
      assert low[i + 6] == ' ' <==> line[i + 6] == ' ';
      if SingleSpacedAt(line, i) {
        assert window == window[..6] + [window[6]] + window[7..];
        assert FailedLoginPattern == "failed" + [' '] + "login";
      }
    }
  }

  /** "ERROR", "Error" and "error" are all errors. */
  lemma ErrorInAnyCasing()
    ensures Matches("ERROR occurred", ErrorPattern)
    ensures Matches("Error occurred", ErrorPattern)
    ensures Matches("error occurred", ErrorPattern)
  {
    assert OccursAt(LowerStr("ERROR occurred"), ErrorPattern, 0);
    assert OccursAt(LowerStr("Error occurred"), ErrorPattern, 0);
    assert OccursAt(LowerStr("error occurred"), ErrorPattern, 0);
  }

  /** One space between the words matches; three spaces do not. */
  lemma FailedLoginPhraseIsExact()
    ensures Matches("failed login attempt", FailedLoginPattern)
    ensures !Matches("failed   login", FailedLoginPattern)
  {
    assert OccursAt(LowerStr("failed login attempt"), FailedLoginPattern, 0);
    var low := LowerStr("failed   login");
    forall i: nat ensures !OccursAt(low, FailedLoginPattern, i) {
      if i == 0 {
        assert low[7] != FailedLoginPattern[7];
      } else if i == 1 {
        assert low[1] != FailedLoginPattern[0];
      } else if i == 2 {
        assert low[2] != FailedLoginPattern[0];
      }
    }
    if Contains(low, FailedLoginPattern) {
      ContainsWitness(low, FailedLoginPattern);
    }
  }
}
