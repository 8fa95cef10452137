/**
 * The string operations the analyzer relies on: Python's whitespace class (as used by
 * `str.strip()` and `str.split()`), `strip`, `split` without arguments, ASCII lower-casing
 * and substring containment.
 */
module Text {

  /** Python's `str.isspace()` for a single character. */
  predicate IsSpace(c: char) {
    var n := c as int;
    n == 0x20 || 0x09 <= n <= 0x0D || 0x1C <= n <= 0x1F || n == 0x85 || n == 0xA0
    || n == 0x1680 || 0x2000 <= n <= 0x200A || n == 0x2028 || n == 0x2029
    || n == 0x202F || n == 0x205F || n == 0x3000
  }

  predicate AllSpace(s: string) {
    forall i :: 0 <= i < |s| ==> IsSpace(s[i])
  }

  predicate NoSpace(s: string) {
    forall i :: 0 <= i < |s| ==> !IsSpace(s[i])
  }

  // ---------------------------------------------------------------- strip

  /** Drops leading whitespace. */
  function TrimLeft(s: string): (r: string)
    ensures |r| <= |s| && r == s[|s| - |r|..]
    ensures AllSpace(s[..|s| - |r|])
    ensures r == [] || !IsSpace(r[0])
  {
    if s != [] && IsSpace(s[0]) then
      var r := TrimLeft(s[1..]);
      assert s[..|s| - |r|] == [s[0]] + s[1..][..|s| - 1 - |r|];
      r
    else s
  }

  /** Drops trailing whitespace. */
  function TrimRight(s: string): (r: string)
    ensures |r| <= |s| && r == s[..|r|]
    ensures AllSpace(s[|r|..])
    ensures r == [] || !IsSpace(r[|r| - 1])
  {
    if s != [] && IsSpace(s[|s| - 1]) then
      var r := TrimRight(s[..|s| - 1]);
      assert s[|r|..] == s[..|s| - 1][|r|..] + [s[|s| - 1]];
      r
    else s
  }

  /** The number of leading whitespace characters of `s`. */
  function LeadingSpace(s: string): (n: nat)
    ensures n <= |s| && AllSpace(s[..n])
    ensures n == |s| || !IsSpace(s[n])
  {
    |s| - |TrimLeft(s)|
  }

  /**
   * Python's `str.strip()`: the slice of `s` left once its leading and trailing
   * whitespace is removed.
   */
  function Strip(s: string): (r: string)
    ensures LeadingSpace(s) + |r| <= |s| && r == s[LeadingSpace(s)..LeadingSpace(s) + |r|]
    ensures AllSpace(s[LeadingSpace(s) + |r|..])
    ensures r == [] || (!IsSpace(r[0]) && !IsSpace(r[|r| - 1]))
  {
    var t := TrimLeft(s);
    var r := TrimRight(t);
    assert LeadingSpace(s) == |s| - |t|;
    StripSlices(s, t, r);
    r
  }

  /** The slice facts behind `Strip`, on sequences alone. */
  lemma StripSlices(s: string, t: string, r: string)
    requires |t| <= |s| && t == s[|s| - |t|..] && (t == [] || !IsSpace(t[0]))
    requires |r| <= |t| && r == t[..|r|] && AllSpace(t[|r|..]) && (r == [] || !IsSpace(r[|r| - 1]))
    ensures |s| - |t| + |r| <= |s| && r == s[|s| - |t|..|s| - |t| + |r|]
    ensures AllSpace(s[|s| - |t| + |r|..])
    ensures r == [] || (!IsSpace(r[0]) && !IsSpace(r[|r| - 1]))
  {
    var lead := |s| - |t|;
    assert s[lead..][..|r|] == s[lead..lead + |r|];
    assert s[lead..][|r|..] == s[lead + |r|..];
    assert r != [] ==> r[0] == t[0];
  }

  lemma {:induction false} TrimLeftPadding(p: string, s: string)
    requires AllSpace(p)
    ensures TrimLeft(p + s) == TrimLeft(s)
    decreases |p|
  {
    if p != [] {
      assert (p + s)[1..] == p[1..] + s;
      TrimLeftPadding(p[1..], s);
    } else {
      assert p + s == s;
    }
  }

  lemma {:induction false} TrimRightPadding(s: string, q: string)
    requires AllSpace(q)
    ensures TrimRight(s + q) == TrimRight(s)
    decreases |q|
  {
    if q != [] {
      assert (s + q)[..|s + q| - 1] == s + q[..|q| - 1];
      TrimRightPadding(s, q[..|q| - 1]);
    } else {
      assert s + q == s;
    }
  }

  lemma {:induction false} TrimLeftAppend(s: string, q: string)
    requires !AllSpace(s)
    ensures TrimLeft(s + q) == TrimLeft(s) + q
    decreases |s|
  {
    if IsSpace(s[0]) {
      assert (s + q)[1..] == s[1..] + q;
      assert !AllSpace(s[1..]) by {
        var j :| 0 <= j < |s| && !IsSpace(s[j]);
        assert s[1..][j - 1] == s[j];
      }
      TrimLeftAppend(s[1..], q);
    }
  }

  lemma AllSpaceTrimLeft(s: string)
    requires AllSpace(s)
    ensures TrimLeft(s) == []
  {
  }

  /**
   * Two lines that differ only in leading or trailing whitespace have the same key:
   * `Strip(p + s + q) == Strip(s)` for whitespace-only `p` and `q`.
   */
  lemma StripIgnoresPadding(p: string, s: string, q: string)
    requires AllSpace(p) && AllSpace(q)
    ensures Strip(p + s + q) == Strip(s)
  {
    assert p + s + q == p + (s + q);
    TrimLeftPadding(p, s + q);
    if AllSpace(s) {
      assert AllSpace(s + q);
      AllSpaceTrimLeft(s + q);
      AllSpaceTrimLeft(s);
    } else {
      TrimLeftAppend(s, q);
      TrimRightPadding(TrimLeft(s), q);
    }
  }

  /** Stripping twice is stripping once. */
  lemma StripIdempotent(s: string)
    ensures Strip(Strip(s)) == Strip(s)
  {
    var r := Strip(s);
    assert r == [] || (!IsSpace(r[0]) && !IsSpace(r[|r| - 1]));
  }

  // ---------------------------------------------------------------- split

  /** The longest whitespace-free prefix of `t`. */
  function Word(t: string): (w: string)
    ensures |w| <= |t| && w == t[..|w|] && NoSpace(w)
    ensures |w| == |t| || IsSpace(t[|w|])
  {
    if t == [] || IsSpace(t[0]) then [] else [t[0]] + Word(t[1..])
  }

  /** A non-empty run of non-whitespace characters. */
  predicate IsToken(w: string) {
    w != [] && NoSpace(w)
  }

  /** Python's `str.split()` with no separator: the maximal whitespace-free runs, in order. */
  function Split(s: string): (parts: seq<string>)
    ensures parts == [] <==> AllSpace(s)
    decreases |s|
  {
    var t := TrimLeft(s);
    if t == [] then
      assert s[..|s|] == s;
      []
    else
      var w := Word(t);
      assert w != [] by { assert !IsSpace(t[0]); }
      assert s[|s| - |t|] == t[0];
      [w] + Split(t[|w|..])
  }

  /** Every part `Split` produces is a non-empty, whitespace-free token. */
  lemma {:induction false} SplitYieldsTokens(s: string)
    ensures forall k :: 0 <= k < |Split(s)| ==> IsToken(Split(s)[k])
    decreases |s|
  {
    var t := TrimLeft(s);
    if t != [] {
      var w := Word(t);
      assert !IsSpace(t[0]);
      SplitYieldsTokens(t[|w|..]);
      var rest := Split(t[|w|..]);
      assert Split(s) == [w] + rest;
      forall k | 0 <= k < |Split(s)| ensures IsToken(Split(s)[k]) {
        if k > 0 { assert Split(s)[k] == rest[k - 1]; }
      }
    }
  }

  /**
   * A line made of whitespace `p`, a token `w`, then whitespace or nothing, splits to `w`
   * first: leading whitespace is skipped.
   */
  lemma SplitFirstToken(p: string, w: string, rest: string)
    requires AllSpace(p)
    requires w != [] && NoSpace(w)
    requires rest == [] || IsSpace(rest[0])
    ensures Split(p + w + rest) != [] && Split(p + w + rest)[0] == w
  {
    var s := w + rest;
    assert s[0] == w[0] && !IsSpace(s[0]);
    assert TrimLeft(s) == s;
    TrimLeftPadding(p, s);
    ConcatAssoc(p, w, rest);
    WordOfToken(w, rest);
    SplitStartsWithWord(p + s);
  }

  lemma ConcatAssoc(a: string, b: string, c: string)
    ensures a + b + c == a + (b + c)
  {
  }

  lemma SplitStartsWithWord(s: string)
    requires TrimLeft(s) != []
    ensures Split(s) != [] && Split(s)[0] == Word(TrimLeft(s))
  {
  }

  lemma {:induction false} WordOfToken(w: string, rest: string)
    requires NoSpace(w)
    requires rest == [] || IsSpace(rest[0])
    ensures Word(w + rest) == w
    decreases |w|
  {
    if w == [] {
      assert w + rest == rest;
    } else {
      assert (w + rest)[1..] == w[1..] + rest;
      WordOfToken(w[1..], rest);
    }
  }

  // ---------------------------------------------------------------- case and containment

  /** ASCII lower-casing of one character; every other character is left as it is. */
  function Lower(c: char): (l: char)
    ensures 'A' <= c <= 'Z' ==> l as int == c as int + 32
    ensures !('A' <= c <= 'Z') ==> l == c
  {
    if 'A' <= c <= 'Z' then (c as int + 32) as char else c
  }

  /** ASCII upper-casing of one character. */
  function Upper(c: char): (u: char)
    ensures 'a' <= c <= 'z' ==> u as int == c as int - 32
    ensures !('a' <= c <= 'z') ==> u == c
  {
    if 'a' <= c <= 'z' then (c as int - 32) as char else c
  }

  function LowerStr(s: string): (r: string)
    ensures |r| == |s|
  {
    seq(|s|, i requires 0 <= i < |s| => Lower(s[i]))
  }

  function UpperStr(s: string): (r: string)
    ensures |r| == |s|
  {
    seq(|s|, i requires 0 <= i < |s| => Upper(s[i]))
  }

  /** `pat` occurs in `s` starting at index `i`. */
  predicate OccursAt(s: string, pat: string, i: nat) {
    i + |pat| <= |s| && s[i..i + |pat|] == pat
  }

  /** Unanchored substring search: tries each start position from the left. */
  predicate Contains(s: string, pat: string)
    decreases |s|
  {
    OccursAt(s, pat, 0) || (s != [] && Contains(s[1..], pat))
  }

  /** An occurrence at any position is found by the search. */
  lemma {:induction false} ContainsAt(s: string, pat: string, i: nat)
    requires OccursAt(s, pat, i)
    ensures Contains(s, pat)
    decreases i
  {
    if i > 0 {
      assert s[1..][i - 1..i - 1 + |pat|] == s[i..i + |pat|];
      ContainsAt(s[1..], pat, i - 1);
    }
  }

  /** The search succeeds only where the pattern occurs. */
  lemma {:induction false} ContainsWitness(s: string, pat: string)
    requires Contains(s, pat)
    ensures exists i: nat :: OccursAt(s, pat, i)
    decreases |s|
  {
    if !OccursAt(s, pat, 0) {
      ContainsWitness(s[1..], pat);
      var i: nat :| OccursAt(s[1..], pat, i);
      assert s[1..][i..i + |pat|] == s[i + 1..i + 1 + |pat|];
      assert OccursAt(s, pat, i + 1);
    }
  }

  lemma LowerStrConcat(a: string, b: string)
    ensures LowerStr(a + b) == LowerStr(a) + LowerStr(b)
  {
  }

  lemma ContainsExtended(pre: string, s: string, post: string, pat: string)
    requires Contains(s, pat)
    ensures Contains(pre + s + post, pat)
  {
    ContainsWitness(s, pat);
    var i: nat :| OccursAt(s, pat, i);
    var j := |pre| + i;
    assert (pre + s + post)[j..j + |pat|] == s[i..i + |pat|];
    ContainsAt(pre + s + post, pat, j);
  }

  /** Lower-casing ignores the casing it started from: upper- and lower-cased lines agree. */
  lemma {:induction false} LowerOfUpper(s: string)
    ensures LowerStr(UpperStr(s)) == LowerStr(s)
  {
    forall i | 0 <= i < |s| ensures LowerStr(UpperStr(s))[i] == LowerStr(s)[i] {
      var c := s[i];
      if 'a' <= c <= 'z' {
        assert Upper(c) as int == c as int - 32;
      }
    }
  }
}
