/**
 * `counter.most_common(n)` (log_analyzer.py:62, 70, 78; backup/log_analyzer.py:36):
 * the entries of a Counter sorted by count, highest first, by a stable sort (equal
 * counts stay in insertion order), cut to the first `n`.
 */
module Ranking {
  import opened Counters

  /** A `(message, count)` pair. */
  type Entry = (string, nat)

  /** `counter.items()`: the entries in insertion order. */
  function Items(t: Table): seq<Entry> {
    seq(|t.order|, i requires 0 <= i < |t.order| => (t.order[i], Get(t, t.order[i])))
  }

  /** Counts never increase from left to right. */
  predicate NonIncreasing(s: seq<Entry>) {
    forall i, j :: 0 <= i < j < |s| ==> s[i].1 >= s[j].1
  }

  /** The entries of `s` whose count is `c`, in the order of `s`. */
  function WithCount(s: seq<Entry>, c: nat): seq<Entry> {
    if s == [] then [] else (if s[0].1 == c then [s[0]] else []) + WithCount(s[1..], c)
  }

  /** Places `e` in front of every entry whose count is not larger than its own. */
  function Insert(e: Entry, s: seq<Entry>): (r: seq<Entry>)
    ensures |r| == |s| + 1
    ensures multiset(r) == multiset(s) + multiset{e}
  {
    if s == [] || e.1 >= s[0].1 then [e] + s
    else
      assert s == [s[0]] + s[1..];
      [s[0]] + Insert(e, s[1..])
  }

  /** A stable sort by count, highest first (`sorted(items, key=count, reverse=True)`). */
  function SortByCount(s: seq<Entry>): (r: seq<Entry>)
    ensures |r| == |s|
    ensures multiset(r) == multiset(s)
  {
    if s == [] then []
    else
      assert s == [s[0]] + s[1..];
      Insert(s[0], SortByCount(s[1..]))
  }

  /** A sorted list stays sorted with an entry in front that is not smaller than its head. */
  lemma ConsKeepsSorted(x: Entry, t: seq<Entry>)
    requires NonIncreasing(t)
    requires t == [] || x.1 >= t[0].1
    ensures NonIncreasing([x] + t)
  {
    var r := [x] + t;
    forall i, j | 0 <= i < j < |r| ensures r[i].1 >= r[j].1 {
      if i == 0 {
        assert r[j] == t[j - 1];
        assert t[0].1 >= t[j - 1].1 || j == 1;
      } else {
        assert r[i] == t[i - 1] && r[j] == t[j - 1];
      }
    }
  }

  lemma TailSorted(s: seq<Entry>)
    requires NonIncreasing(s) && s != []
    ensures NonIncreasing(s[1..])
  {
    forall i, j | 0 <= i < j < |s[1..]| ensures s[1..][i].1 >= s[1..][j].1 {
      assert s[1..][i] == s[i + 1] && s[1..][j] == s[j + 1];
    }
  }

  /** Inserting into a sorted list keeps it sorted. */
  lemma {:induction false} InsertKeepsSorted(e: Entry, s: seq<Entry>)
    requires NonIncreasing(s)
    ensures NonIncreasing(Insert(e, s))
  {
    if s == [] || e.1 >= s[0].1 {
      ConsKeepsSorted(e, s);
    } else {
      var tail := Insert(e, s[1..]);
      TailSorted(s);
      InsertKeepsSorted(e, s[1..]);
      assert tail[0] == e || tail[0] == s[1];
      ConsKeepsSorted(s[0], tail);
    }
  }

  /** The sort lists counts highest first. */
  lemma {:induction false} SortByCountIsSorted(s: seq<Entry>)
    ensures NonIncreasing(SortByCount(s))
  {
    if s != [] {
      SortByCountIsSorted(s[1..]);
      InsertKeepsSorted(s[0], SortByCount(s[1..]));
    }
  }

  /** `counter.most_common(n)`; `n <= 0` gives the empty list. */
  function MostCommon(t: Table, n: int): (r: seq<Entry>)
    ensures |r| == if n <= 0 then 0 else if n < |t.order| then n else |t.order|
  {
    var sorted := SortByCount(Items(t));
    if n <= 0 then [] else if n < |sorted| then sorted[..n] else sorted
  }

  // ---------------------------------------------------------------- stability

  lemma {:induction false} WithCountConcat(a: seq<Entry>, b: seq<Entry>, c: nat)
    ensures WithCount(a + b, c) == WithCount(a, c) + WithCount(b, c)
  {
    if a != [] {
      assert (a + b)[1..] == a[1..] + b;
      WithCountConcat(a[1..], b, c);
    } else {
      assert a + b == b;
    }
  }

  lemma WithCountSingle(x: Entry, c: nat)
    ensures WithCount([x], c) == if x.1 == c then [x] else []
  {
    assert [x][1..] == [];
  }

  /** Two entries of different counts never both have count `c`, so their order does not matter to `WithCount`. */
  lemma DistinctCountsCommute(e: Entry, x: Entry, c: nat)
    requires e.1 != x.1
    ensures WithCount([x], c) + WithCount([e], c) == WithCount([e], c) + WithCount([x], c)
  {
    WithCountSingle(e, c);
    WithCountSingle(x, c);
  }

  /**
   * Inserting keeps the relative order of the entries of each count: `e` goes before every
   * entry of its own count, ahead of the later entries of that count.
   */
  lemma {:induction false} InsertKeepsTies(e: Entry, s: seq<Entry>, c: nat)
    ensures WithCount(Insert(e, s), c) == WithCount([e], c) + WithCount(s, c)
  {
    if s == [] || e.1 >= s[0].1 {
      WithCountConcat([e], s, c);
    } else {
      var x, t := s[0], s[1..];
      var tail := Insert(e, t);
      assert Insert(e, s) == [x] + tail;
      assert s == [x] + t;
      InsertKeepsTies(e, t, c);
      TiesBehindHead(e, x, t, tail, c);
    }
  }

  /** An entry of another count in front changes no tie order: the step of `InsertKeepsTies`. */
  lemma TiesBehindHead(e: Entry, x: Entry, t: seq<Entry>, tail: seq<Entry>, c: nat)
    requires e.1 != x.1
    requires WithCount(tail, c) == WithCount([e], c) + WithCount(t, c)
    ensures WithCount([x] + tail, c) == WithCount([e], c) + WithCount([x] + t, c)
  {
    WithCountConcat([x], tail, c);
    WithCountConcat([x], t, c);
    DistinctCountsCommute(e, x, c);
  }

  /** The sort is stable: for every count, its entries come out in the order they went in. */
  lemma {:induction false} SortByCountIsStable(s: seq<Entry>, c: nat)
    ensures WithCount(SortByCount(s), c) == WithCount(s, c)
  {
    if s != [] {
      SortByCountIsStable(s[1..], c);
      InsertKeepsTies(s[0], SortByCount(s[1..]), c);
      WithCountConcat([s[0]], s[1..], c);
      assert s == [s[0]] + s[1..];
    }
  }

  // ---------------------------------------------------------------- most_common

  /** Key `k` is the message of some entry of `r`. */
  predicate Listed(r: seq<Entry>, k: string) {
    exists j :: 0 <= j < |r| && r[j].0 == k
  }

  lemma ItemsOfValid(t: Table, e: Entry)
    requires Valid(t)
    requires e in multiset(Items(t))
    ensures e.0 in t.counts && e.1 == t.counts[e.0]
  {
    var items := Items(t);
    assert e in items;
    var i :| 0 <= i < |items| && items[i] == e;
  }

  /** The ranking is a prefix of the sorted entries. */
  lemma MostCommonIsPrefix(t: Table, n: int)
    ensures MostCommon(t, n) == SortByCount(Items(t))[..|MostCommon(t, n)|]
  {
  }

  /** Every listed pair is an entry of the table: a message it holds, with its count. */
  lemma MostCommonListsEntries(t: Table, n: int)
    requires Valid(t)
    ensures forall i :: 0 <= i < |MostCommon(t, n)| ==>
              MostCommon(t, n)[i].0 in t.counts && MostCommon(t, n)[i].1 == t.counts[MostCommon(t, n)[i].0]
  {
    var sorted := SortByCount(Items(t));
    var r := MostCommon(t, n);
    MostCommonIsPrefix(t, n);
    forall i | 0 <= i < |r|
      ensures r[i].0 in t.counts && r[i].1 == t.counts[r[i].0]
    {
      assert r[i] == sorted[i];
      assert sorted[i] in multiset(sorted);
      ItemsOfValid(t, r[i]);
    }
  }

  /** Counts in the ranking never increase. */
  lemma MostCommonIsNonIncreasing(t: Table, n: int)
    ensures NonIncreasing(MostCommon(t, n))
  {
    MostCommonIsPrefix(t, n);
    SortByCountIsSorted(Items(t));
  }

  /** No message left out of the ranking has a larger count than one listed. */
  lemma MostCommonKeepsLargest(t: Table, n: int)
    requires Valid(t)
    ensures forall i, k :: 0 <= i < |MostCommon(t, n)| && k in t.counts && !Listed(MostCommon(t, n), k)
              ==> MostCommon(t, n)[i].1 >= t.counts[k]
  {
    var r := MostCommon(t, n);
    forall i, k | 0 <= i < |r| && k in t.counts && !Listed(r, k)
      ensures r[i].1 >= t.counts[k]
    {
      UnlistedRanksLower(t, n, i, k);
    }
  }

  lemma UnlistedRanksLower(t: Table, n: int, i: int, k: string)
    requires Valid(t)
    requires 0 <= i < |MostCommon(t, n)| && k in t.counts && !Listed(MostCommon(t, n), k)
    ensures MostCommon(t, n)[i].1 >= t.counts[k]
  {
    var sorted := SortByCount(Items(t));
    var r := MostCommon(t, n);
    MostCommonIsPrefix(t, n);
    SortByCountIsSorted(Items(t));
    var idx :| 0 <= idx < |t.order| && t.order[idx] == k;
    var e := Items(t)[idx];
    assert e == (k, t.counts[k]);
    assert e in multiset(Items(t));
    assert e in multiset(sorted);
    var j :| 0 <= j < |sorted| && sorted[j] == e;
    assert forall jj :: 0 <= jj < |r| ==> r[jj] == sorted[jj];
    assert j >= |r|;
    assert r[i] == sorted[i];
  }

  /**
   * Ties keep first-seen order: for every count, the listed entries of that count are the
   * first entries of that count in the table's insertion order.
   */
  lemma MostCommonKeepsTieOrder(t: Table, n: int, c: nat)
    ensures WithCount(MostCommon(t, n), c) <= WithCount(Items(t), c)
  {
    var sorted := SortByCount(Items(t));
    var r := MostCommon(t, n);
    MostCommonIsPrefix(t, n);
    SortByCountIsStable(Items(t), c);
    assert sorted == r + sorted[|r|..];
    WithCountConcat(r, sorted[|r|..], c);
  }

  /** Equal counts are listed in first-seen order: `{A: 3, B: 3, C: 1}` gives `[(A, 3), (B, 3)]`. */
  lemma MostCommonTieExample()
    ensures MostCommon(Table(["A", "B", "C"], map["A" := 3, "B" := 3, "C" := 1]), 2)
            == [("A", 3), ("B", 3)]
  {
    var t := Table(["A", "B", "C"], map["A" := 3, "B" := 3, "C" := 1]);
    var items := Items(t);
    assert items == [("A", 3), ("B", 3), ("C", 1)];
    assert items[1..] == [("B", 3), ("C", 1)];
    assert items[1..][1..] == [("C", 1)];
    assert SortByCount([("C", 1)]) == [("C", 1)];
    assert Insert(("B", 3), [("C", 1)]) == [("B", 3), ("C", 1)];
    assert SortByCount(items[1..]) == [("B", 3), ("C", 1)];
    assert Insert(("A", 3), [("B", 3), ("C", 1)]) == [("A", 3), ("B", 3), ("C", 1)];
    assert SortByCount(items) == [("A", 3), ("B", 3), ("C", 1)];
  }
}
