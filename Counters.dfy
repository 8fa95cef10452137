/**
 * Python's `collections.Counter` as the analyzer uses it: a frequency table of strings
 * that remembers the order in which keys were first inserted. `counter[key] += 1`
 * (log_analyzer.py:45, backup/log_analyzer.py:24) is `Increment`, and
 * `counter.update(other)` (log_analyzer.py:93) is `Update`.
 */
module Counters {

  /** Keys in first-insertion order, and the count of each key. */
  datatype Table = Table(order: seq<string>, counts: map<string, nat>)

  const Empty: Table := Table([], map[])

  predicate Distinct(s: seq<string>) {
    forall i, j :: 0 <= i < j < |s| ==> s[i] != s[j]
  }

  /** The shape every Counter built by the analyzer has: each key listed once, counts positive. */
  ghost predicate Valid(t: Table) {
    && Distinct(t.order)
    && (forall k :: k in t.counts <==> k in t.order)
    && (forall k :: k in t.counts ==> t.counts[k] >= 1)
  }

  /** `counter[k]`: a missing key reads as zero. */
  function Get(t: Table, k: string): nat {
    if k in t.counts then t.counts[k] else 0
  }

  /** `counter[k] = n + counter.get(k, 0)`: an existing key keeps its place, a new one goes last. */
  function AddCount(t: Table, k: string, n: nat): (r: Table)
    ensures Get(r, k) == Get(t, k) + n
    ensures forall x :: x != k ==> Get(r, x) == Get(t, x)
    ensures r.order == if k in t.counts then t.order else t.order + [k]
    ensures r.counts.Keys == t.counts.Keys + {k}
    ensures Valid(t) && n >= 1 ==> Valid(r)
  {
    if k in t.counts then Table(t.order, t.counts[k := t.counts[k] + n])
    else Table(t.order + [k], t.counts[k := n])
  }

  /** `counter[k] += 1`. */
  function Increment(t: Table, k: string): (r: Table)
    ensures Get(r, k) == Get(t, k) + 1
    ensures forall x :: x != k ==> Get(r, x) == Get(t, x)
    ensures r.order == if k in t.counts then t.order else t.order + [k]
    ensures Valid(t) ==> Valid(r)
  {
    AddCount(t, k, 1)
  }

  /** The keys among `keys` that are not in `known`, in the order of `keys`. */
  function NewKeys(keys: seq<string>, known: set<string>): seq<string> {
    if keys == [] then []
    else (if keys[0] in known then [] else [keys[0]]) + NewKeys(keys[1..], known)
  }

  lemma {:induction false} NewKeysIgnoresOthers(keys: seq<string>, known: set<string>, k: string)
    requires k !in keys
    ensures NewKeys(keys, known + {k}) == NewKeys(keys, known)
  {
    if keys != [] {
      NewKeysIgnoresOthers(keys[1..], known, k);
    }
  }

  lemma {:induction false} NewKeysAppend(keys: seq<string>, k: string, known: set<string>)
    ensures NewKeys(keys + [k], known) == NewKeys(keys, known) + (if k in known then [] else [k])
  {
    if keys == [] {
      assert keys + [k] == [k];
    } else {
      assert (keys + [k])[1..] == keys[1..] + [k];
      NewKeysAppend(keys[1..], k, known);
    }
  }

  /** Folds `AddCount` over `keys`, taking each key's count from `b`: the loop of `Counter.update`. */
  function UpdateWith(a: Table, keys: seq<string>, b: Table): Table
    decreases |keys|
  {
    if keys == [] then a else UpdateWith(AddCount(a, keys[0], Get(b, keys[0])), keys[1..], b)
  }

  lemma DistinctTail(keys: seq<string>)
    requires Distinct(keys) && keys != []
    ensures Distinct(keys[1..]) && keys[0] !in keys[1..]
  {
    forall i | 0 <= i < |keys[1..]| ensures keys[1..][i] != keys[0] {
      assert keys[1..][i] == keys[i + 1];
    }
  }

  lemma {:induction false} UpdateWithCounts(a: Table, keys: seq<string>, b: Table)
    requires Distinct(keys)
    ensures forall x :: Get(UpdateWith(a, keys, b), x) == Get(a, x) + (if x in keys then Get(b, x) else 0)
    decreases |keys|
  {
    if keys != [] {
      DistinctTail(keys);
      UpdateWithCounts(AddCount(a, keys[0], Get(b, keys[0])), keys[1..], b);
    }
  }

  lemma {:induction false} UpdateWithOrder(a: Table, keys: seq<string>, b: Table)
    requires Distinct(keys)
    ensures UpdateWith(a, keys, b).order == a.order + NewKeys(keys, a.counts.Keys)
    decreases |keys|
  {
    if keys == [] {
      assert a.order + [] == a.order;
    } else {
      var k := keys[0];
      var a' := AddCount(a, k, Get(b, k));
      DistinctTail(keys);
      UpdateWithOrder(a', keys[1..], b);
      NewKeysIgnoresOthers(keys[1..], a.counts.Keys, k);
      UpdateWithOrderStep(a.order, a'.order, k, keys[1..], a.counts.Keys);
    }
  }

  /** One step of `UpdateWithOrder`, on sequences alone. */
  lemma UpdateWithOrderStep(order: seq<string>, order': seq<string>, k: string, rest: seq<string>,
                            known: set<string>)
    requires order' == if k in known then order else order + [k]
    ensures order' + NewKeys(rest, known) == order + NewKeys([k] + rest, known)
  {
    assert ([k] + rest)[1..] == rest;
  }

  lemma {:induction false} UpdateWithValid(a: Table, keys: seq<string>, b: Table)
    requires Valid(a) && Distinct(keys)
    requires forall k :: k in keys ==> Get(b, k) >= 1
    ensures Valid(UpdateWith(a, keys, b))
    decreases |keys|
  {
    if keys != [] {
      DistinctTail(keys);
      assert forall x :: x in keys[1..] ==> x in keys;
      UpdateWithValid(AddCount(a, keys[0], Get(b, keys[0])), keys[1..], b);
    }
  }

  /**
   * `a.update(b)`: every count is the sum of the two; keys of `a` keep their places and
   * the keys only `b` has follow, in `b`'s order.
   */
  function Update(a: Table, b: Table): (r: Table)
    requires Valid(a) && Valid(b)
    ensures Valid(r)
    ensures forall x :: Get(r, x) == Get(a, x) + Get(b, x)
    ensures r.order == a.order + NewKeys(b.order, a.counts.Keys)
  {
    UpdateWithCounts(a, b.order, b);
    UpdateWithOrder(a, b.order, b);
    UpdateWithValid(a, b.order, b);
    UpdateWith(a, b.order, b)
  }

  /** The merged table holds exactly the keys of either table. */
  lemma UpdateKeys(a: Table, b: Table)
    requires Valid(a) && Valid(b)
    ensures Update(a, b).counts.Keys == a.counts.Keys + b.counts.Keys
  {
    var r := Update(a, b);
    forall x ensures x in r.counts <==> x in a.counts || x in b.counts {
      assert Get(r, x) == Get(a, x) + Get(b, x);
    }
  }

  /** Two valid tables with the same order and the same counts are the same table. */
  lemma Extensionality(t1: Table, t2: Table)
    requires Valid(t1) && Valid(t2)
    requires t1.order == t2.order
    requires forall x :: Get(t1, x) == Get(t2, x)
    ensures t1 == t2
  {
    forall x ensures (x in t1.counts <==> x in t2.counts) {
      assert Get(t1, x) == Get(t2, x);
    }
    assert t1.counts.Keys == t2.counts.Keys;
    forall x | x in t1.counts ensures t1.counts[x] == t2.counts[x] {
      assert Get(t1, x) == Get(t2, x);
    }
  }

  /**
   * Counting a key after merging is merging after counting it:
   * `Increment(Update(a, b), k) == Update(a, Increment(b, k))`.
   */
  lemma {:induction false} IncrementAfterUpdate(a: Table, b: Table, k: string)
    requires Valid(a) && Valid(b)
    ensures Increment(Update(a, b), k) == Update(a, Increment(b, k))
  {
    IncrementAfterUpdateOrder(a, b, k);
    IncrementAfterUpdateCounts(a, b, k);
    Extensionality(Increment(Update(a, b), k), Update(a, Increment(b, k)));
  }

  lemma IncrementAfterUpdateOrder(a: Table, b: Table, k: string)
    requires Valid(a) && Valid(b)
    ensures Increment(Update(a, b), k).order == Update(a, Increment(b, k)).order
  {
    if k in a.counts || k in b.counts {
      IncrementKnownAfterUpdate(a, b, k);
    } else {
      IncrementNewAfterUpdate(a, b, k);
    }
  }

  lemma IncrementKnownAfterUpdate(a: Table, b: Table, k: string)
    requires Valid(a) && Valid(b)
    requires k in a.counts || k in b.counts
    ensures Increment(Update(a, b), k).order == Update(a, Increment(b, k)).order
  {
    var u := Update(a, b);
    var b' := Increment(b, k);
    assert Valid(b');
    var known := a.counts.Keys;
    assert Get(u, k) >= 1;
    assert Increment(u, k).order == u.order;
    assert Update(a, b').order == a.order + NewKeys(b'.order, known);
    if k in b.counts {
      assert b'.order == b.order;
    } else {
      assert b'.order == b.order + [k];
      NewKeyAppendedKnown(b.order, k, known);
    }
    assert Update(a, b').order == u.order;
  }

  lemma NewKeyAppendedKnown(keys: seq<string>, k: string, known: set<string>)
    requires k in known
    ensures NewKeys(keys + [k], known) == NewKeys(keys, known)
  {
    NewKeysAppend(keys, k, known);
    assert NewKeys(keys, known) + [] == NewKeys(keys, known);
  }

  lemma NewKeyAppendedUnknown(prefix: seq<string>, keys: seq<string>, k: string, known: set<string>)
    requires k !in known
    ensures prefix + NewKeys(keys + [k], known) == (prefix + NewKeys(keys, known)) + [k]
  {
    NewKeysAppend(keys, k, known);
  }

  lemma IncrementNewAfterUpdate(a: Table, b: Table, k: string)
    requires Valid(a) && Valid(b)
    requires k !in a.counts && k !in b.counts
    ensures Increment(Update(a, b), k).order == Update(a, Increment(b, k)).order
  {
    var u := Update(a, b);
    var b' := Increment(b, k);
    assert Valid(b');
    var known := a.counts.Keys;
    assert Get(u, k) == 0;
    assert Increment(u, k).order == u.order + [k];
    assert b'.order == b.order + [k];
    assert Update(a, b').order == a.order + NewKeys(b'.order, known);
    NewKeyAppendedUnknown(a.order, b.order, k, known);
  }

  lemma IncrementAfterUpdateCounts(a: Table, b: Table, k: string)
    requires Valid(a) && Valid(b)
    ensures forall x :: Get(Increment(Update(a, b), k), x) == Get(Update(a, Increment(b, k)), x)
  {
  }

  // ---------------------------------------------------------------- sums

  /** The sum of the counts of `keys` in `t`. */
  function SumCounts(keys: seq<string>, t: Table): nat {
    if keys == [] then 0 else SumCounts(keys[..|keys| - 1], t) + Get(t, keys[|keys| - 1])
  }

  /** The sum of all values of the table (`sum(counter.values())`). */
  function Total(t: Table): nat {
    SumCounts(t.order, t)
  }

  lemma {:induction false} SumCountsUnaffected(keys: seq<string>, t1: Table, t2: Table, k: string)
    requires k !in keys
    requires forall x :: x != k ==> Get(t1, x) == Get(t2, x)
    ensures SumCounts(keys, t1) == SumCounts(keys, t2)
  {
    if keys != [] {
      SumCountsUnaffected(keys[..|keys| - 1], t1, t2, k);
    }
  }

  lemma {:induction false} SumCountsBumped(keys: seq<string>, t1: Table, t2: Table, k: string)
    requires Distinct(keys) && k in keys
    requires forall x :: x != k ==> Get(t1, x) == Get(t2, x)
    requires Get(t2, k) == Get(t1, k) + 1
    ensures SumCounts(keys, t2) == SumCounts(keys, t1) + 1
  {
    var init, last := keys[..|keys| - 1], keys[|keys| - 1];
    assert keys == init + [last];
    if last == k {
      assert k !in init by {
        forall i | 0 <= i < |init| ensures init[i] != k { assert init[i] == keys[i]; }
      }
      SumCountsUnaffected(init, t1, t2, k);
    } else {
      assert k in init;
      assert Distinct(init) by {
        forall i, j | 0 <= i < j < |init| ensures init[i] != init[j] {
          assert init[i] == keys[i] && init[j] == keys[j];
        }
      }
      SumCountsBumped(init, t1, t2, k);
    }
  }

  /** `counter[k] += 1` raises the sum of the values by exactly one. */
  lemma TotalIncrement(t: Table, k: string)
    requires Valid(t)
    ensures Total(Increment(t, k)) == Total(t) + 1
  {
    var r := Increment(t, k);
    if k in t.counts {
      SumCountsBumped(t.order, t, r, k);
    } else {
      assert r.order == t.order + [k];
      assert r.order[..|r.order| - 1] == t.order;
      SumCountsUnaffected(t.order, t, r, k);
    }
  }

  // ---------------------------------------------------------------- first-seen order

  /** The distinct elements of `keys`, each at the place it first occurs. */
  function FirstSeen(keys: seq<string>): (r: seq<string>)
    ensures Distinct(r)
    ensures forall x :: x in r <==> x in keys
  {
    if keys == [] then []
    else
      var p := FirstSeen(keys[..|keys| - 1]);
      var x := keys[|keys| - 1];
      assert forall y :: y in keys <==> y in keys[..|keys| - 1] || y == x by {
        assert keys == keys[..|keys| - 1] + [x];
      }
      if x in p then p else p + [x]
  }
}
