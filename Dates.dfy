/**
 * The date gate's parse: `datetime.strptime(token, '%Y-%m-%d')`
 * (log_analyzer.py:37) and the `<` comparison of the result with the cutoff
 * (log_analyzer.py:38). A parse either yields a calendar date or fails, where the
 * source raises `ValueError`.
 */
module Dates {
  import opened Wrappers

  datatype Date = Date(year: int, month: int, day: int)

  /** Chronological order of two dates (`a < b` on `datetime` values at midnight). */
  predicate Before(a: Date, b: Date) {
    a.year < b.year
    || (a.year == b.year && (a.month < b.month || (a.month == b.month && a.day < b.day)))
  }

  predicate IsLeapYear(y: int) {
    y % 4 == 0 && (y % 100 != 0 || y % 400 == 0)
  }

  function DaysInMonth(year: int, month: int): (n: int)
    requires 1 <= month <= 12
    ensures 28 <= n <= 31
    ensures month == 2 ==> (n == 29 <==> IsLeapYear(year))
  {
    if month == 2 then (if IsLeapYear(year) then 29 else 28)
    else if month == 4 || month == 6 || month == 9 || month == 11 then 30
    else 31
  }

  /** The dates `datetime` can represent: years 1 to 9999, days within their month. */
  predicate ValidDate(d: Date) {
    1 <= d.year <= 9999 && 1 <= d.month <= 12 && 1 <= d.day <= DaysInMonth(d.year, d.month)
  }

  // ---------------------------------------------------------------- digits

  predicate IsDigit(c: char) {
    '0' <= c <= '9'
  }

  predicate AllDigits(s: string) {
    forall i :: 0 <= i < |s| ==> IsDigit(s[i])
  }

  /** The decimal value of a string of ASCII digits. */
  function DigitsValue(s: string): (v: nat)
    requires AllDigits(s)
  {
    if s == [] then 0 else DigitsValue(s[..|s| - 1]) * 10 + (s[|s| - 1] as int - '0' as int)
  }

  /** The index of the first occurrence of `c` in `s`, if any. */
  function IndexOf(s: string, c: char): (r: Option<nat>)
    ensures r.Some? ==> r.value < |s| && s[r.value] == c
                        && forall i :: 0 <= i < r.value ==> s[i] != c
    ensures r.None? ==> forall i :: 0 <= i < |s| ==> s[i] != c
  {
    if s == [] then None
    else if s[0] == c then Some(0)
    else match IndexOf(s[1..], c)
      case None => None
      case Some(j) => Some(j + 1)
  }

  /** One or two ASCII digits whose value lies in `lo..hi`. */
  predicate ShortNumber(s: string, lo: nat, hi: nat) {
    1 <= |s| <= 2 && AllDigits(s) && lo <= DigitsValue(s) <= hi
  }

  // ---------------------------------------------------------------- the parse

  /**
   * The format match of `%Y-%m-%d` as `strptime` compiles it: exactly four digits of year,
   * a dash, a month of one or two digits in 1..12 ending at the next dash, and a day of one
   * or two digits in 1..31 that takes up the rest of the token. Anything else, including
   * trailing characters ("unconverted data remains"), fails.
   */
  function MatchFormat(token: string): (r: Option<Date>)
    ensures r.Some? ==> 1 <= r.value.month <= 12 && 1 <= r.value.day <= 31
    ensures r.Some? ==> 0 <= r.value.year <= 9999
  {
    if |token| < 5 || !AllDigits(token[..4]) || token[4] != '-' then None
    else
      var rest := token[5..];
      match IndexOf(rest, '-')
      case None => None
      case Some(j) =>
        var month, day := rest[..j], rest[j + 1..];
        if ShortNumber(month, 1, 12) && ShortNumber(day, 1, 31) then
          assert DigitsValue(token[..4]) <= 9999 by { FourDigitsBound(token[..4]); }
          Some(Date(DigitsValue(token[..4]), DigitsValue(month), DigitsValue(day)))
        else None
  }

  lemma FourDigitsBound(s: string)
    requires |s| == 4 && AllDigits(s)
    ensures DigitsValue(s) <= 9999
  {
    DigitsValueBound(s);
    assert Pow10(4) == 10000;
  }

  /** `k` digits denote a number below `10^k`. */
  lemma {:induction false} DigitsValueBound(s: string)
    requires AllDigits(s)
    ensures DigitsValue(s) < Pow10(|s|)
  {
    if s != [] {
      DigitsValueBound(s[..|s| - 1]);
    }
  }

  /**
   * `datetime.strptime(token, '%Y-%m-%d')`: the format match followed by the range check
   * of the `datetime` constructor (year 0, or a day past the end of its month, fails).
   */
  function ParseDate(token: string): (r: Option<Date>)
    ensures r.Some? ==> ValidDate(r.value)
  {
    match MatchFormat(token)
    case None => None
    case Some(d) => if ValidDate(d) then Some(d) else None
  }

  // ---------------------------------------------------------------- formatting

  function DigitChar(n: nat): (c: char)
    requires n < 10
    ensures IsDigit(c) && c as int - '0' as int == n
  {
    ('0' as int + n) as char
  }

  /** `n` written with exactly `width` decimal digits, zero-padded on the left. */
  function Padded(n: nat, width: nat): (s: string)
    ensures |s| == width && AllDigits(s)
  {
    if width == 0 then [] else Padded(n / 10, width - 1) + [DigitChar(n % 10)]
  }

  function Pow10(k: nat): (p: nat)
    ensures p >= 1
  {
    if k == 0 then 1 else 10 * Pow10(k - 1)
  }

  lemma {:induction false} PaddedValue(n: nat, width: nat)
    requires n < Pow10(width)
    ensures DigitsValue(Padded(n, width)) == n
  {
    if width > 0 {
      PaddedValue(n / 10, width - 1);
      var s := Padded(n, width);
      assert s[..|s| - 1] == Padded(n / 10, width - 1);
    }
  }

  /** A date in the `YYYY-MM-DD` form the cutoff option uses. */
  function Format(d: Date): (s: string)
    requires ValidDate(d)
    ensures |s| == 10 && s[4] == '-' && s[7] == '-'
  {
    Padded(d.year, 4) + "-" + Padded(d.month, 2) + "-" + Padded(d.day, 2)
  }

  /** Parsing a formatted date gives it back. */
  lemma {:induction false} ParseFormat(d: Date)
    requires ValidDate(d)
    ensures ParseDate(Format(d)) == Some(d)
  {
    var y, m, dd := Padded(d.year, 4), Padded(d.month, 2), Padded(d.day, 2);
    var s := Format(d);
    assert s == y + "-" + m + "-" + dd;
    PaddedValue(d.year, 4);
    PaddedValue(d.month, 2);
    PaddedValue(d.day, 2);
    assert s[..4] == y;
    var rest := s[5..];
    assert rest == m + "-" + dd;
    assert IndexOf(rest, '-') == Some(2);
    assert rest[..2] == m && rest[3..] == dd;
  }

  /** `Before` is a strict total order, so a parsed date is kept iff it is not before the cutoff. */
  lemma BeforeIsStrictTotalOrder(a: Date, b: Date, c: Date)
    ensures !Before(a, a)
    ensures Before(a, b) && Before(b, c) ==> Before(a, c)
    ensures a == b || Before(a, b) || Before(b, a)
  {
  }

  lemma YearValue()
    ensures AllDigits("2024") && DigitsValue("2024") == 2024
  {
    assert "2024"[..3] == "202" && "202"[..2] == "20" && "20"[..1] == "2" && "2"[..0] == [];
  }

  /** A zero-padded date parses. */
  lemma ParseAcceptsPaddedFields()
    ensures ParseDate("2024-01-05") == Some(Date(2024, 1, 5))
  {
    var t := "2024-01-05";
    YearValue();
    assert t[..4] == "2024" && t[5..] == "01-05";
    assert IndexOf("01-05", '-') == Some(2);
    assert "01-05"[..2] == "01" && "01-05"[3..] == "05";
    assert "01"[..1] == "0" && "05"[..1] == "0" && "0"[..0] == [];
    assert DigitsValue("01") == 1 && DigitsValue("05") == 5;
  }

  /** One-digit months and days parse too: `strptime` does not require zero padding. */
  lemma ParseAcceptsUnpaddedFields()
    ensures ParseDate("2024-1-5") == Some(Date(2024, 1, 5))
  {
    var t := "2024-1-5";
    YearValue();
    assert t[..4] == "2024" && t[5..] == "1-5";
    assert IndexOf("1-5", '-') == Some(1);
    assert "1-5"[..1] == "1" && "1-5"[2..] == "5";
    assert "1"[..0] == [] && "5"[..0] == [];
    assert DigitsValue("1") == 1 && DigitsValue("5") == 5;
  }

  /** A word that is not a date fails to parse. */
  lemma ParseRejectsWord()
    ensures ParseDate("notadate") == None
  {
    assert !AllDigits("nota") by { assert !IsDigit("nota"[0]); }
  }

  /** A day past the end of its month fails to parse. */
  lemma ParseRejectsMissingDay()
    ensures ParseDate("2023-02-29") == None
  {
    assert "2023-02-29"[..4] == "2023";
    assert !IsLeapYear(2023);
  }

  /** Text after the day fails to parse. */
  lemma ParseRejectsTrailingText()
    ensures ParseDate("2024-01-05x") == None
  {
    assert !AllDigits("05x") by { assert !IsDigit("05x"[2]); }
    assert "2024-01-05x"[5..] == "01-05x";
    assert IndexOf("01-05x", '-') == Some(2);
    assert "01-05x"[3..] == "05x";
  }
}
