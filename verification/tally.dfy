/** A JavaScript `Record<string, number>` used as a counter: the handlers
    start from `{}` and run `rec[k] = (rec[k] || 0) + 1` once per counted
    record. The record's keys enumerate in insertion order, which `keys`
    keeps. */
module Tally {

  datatype Counter = Counter(counts: map<string, nat>, keys: seq<string>)

  const Empty := Counter(map[], [])

  /** The value stored under `k`, or 0 when `k` was never counted. */
  function Get(c: Counter, k: string): nat
  {
    if k in c.counts then c.counts[k] else 0
  }

  /** `rec[k] = (rec[k] || 0) + 1`: a new key is appended to the enumeration order. */
  function Bump(c: Counter, k: string): (r: Counter)
    ensures Get(r, k) == Get(c, k) + 1
    ensures forall j :: j != k ==> Get(r, j) == Get(c, j)
  {
    if k in c.counts then Counter(c.counts[k := c.counts[k] + 1], c.keys)
    else Counter(c.counts[k := 1], c.keys + [k])
  }

  /** How many times `k` occurs in `ks`. */
  function Occurrences(ks: seq<string>, k: string): nat
  {
    if ks == [] then 0
    else Occurrences(ks[..|ks| - 1], k) + (if ks[|ks| - 1] == k then 1 else 0)
  }

  lemma {:induction false} OccursIffPositive(ks: seq<string>, k: string)
    ensures Occurrences(ks, k) > 0 <==> k in ks
    ensures Occurrences(ks, k) <= |ks|
  {
    if ks != [] {
      var p := ks[..|ks| - 1];
      assert ks == p + [ks[|ks| - 1]];
      OccursIffPositive(p, k);
    }
  }

  /** The distinct elements of `ks`, in order of first occurrence. */
  function Distinct(ks: seq<string>): seq<string>
  {
    if ks == [] then []
    else
      var p := ks[..|ks| - 1];
      if ks[|ks| - 1] in p then Distinct(p) else Distinct(p) + [ks[|ks| - 1]]
  }

  /** Sum of the counter's values over `keys`. */
  function Sum(keys: seq<string>, counts: map<string, nat>): nat
  {
    if keys == [] then 0
    else Sum(keys[..|keys| - 1], counts) + (if keys[|keys| - 1] in counts then counts[keys[|keys| - 1]] else 0)
  }

  /** No key is listed twice. */
  ghost predicate NoDuplicates(keys: seq<string>)
  {
    forall i, j :: 0 <= i < j < |keys| ==> keys[i] != keys[j]
  }

  /** `c` is what counting every element of `ks`, in order, leaves in the record:
      exactly the elements of `ks` are keys, each maps to its number of
      occurrences, the keys enumerate in first-occurrence order, and the values
      add up to `|ks|`. */
  ghost predicate IsTallyOf(c: Counter, ks: seq<string>)
  {
    && (forall k :: k in c.counts <==> k in ks)
    && (forall k :: k in c.counts ==> c.counts[k] == Occurrences(ks, k))
    && c.keys == Distinct(ks)
    && NoDuplicates(c.keys)
    && Sum(c.keys, c.counts) == |ks|
  }

  lemma {:induction false} DistinctElements(ks: seq<string>)
    ensures forall k :: k in Distinct(ks) <==> k in ks
    ensures NoDuplicates(Distinct(ks))
    ensures Distinct(ks) == [] <==> ks == []
  {
    if ks != [] {
      var p := ks[..|ks| - 1];
      assert ks == p + [ks[|ks| - 1]];
      DistinctElements(p);
    }
  }

  /** Raising one listed key by one raises the sum by one. */
  lemma {:induction false} SumBump(keys: seq<string>, counts: map<string, nat>, k: string)
    requires NoDuplicates(keys) && k in keys && k in counts
    ensures Sum(keys, counts[k := counts[k] + 1]) == Sum(keys, counts) + 1
  {
    var n := |keys| - 1;
    var p := keys[..n];
    if keys[n] == k {
      assert k !in p;
      SumIgnores(p, counts, k, counts[k] + 1);
    } else {
      assert k in p;
      SumBump(p, counts, k);
    }
  }

  /** Changing the value of a key that is not listed leaves the sum alone. */
  lemma {:induction false} SumIgnores(keys: seq<string>, counts: map<string, nat>, k: string, v: nat)
    requires k !in keys
    ensures Sum(keys, counts[k := v]) == Sum(keys, counts)
  {
    if keys != [] {
      SumIgnores(keys[..|keys| - 1], counts, k, v);
    }
  }

  lemma TallyEmpty()
    ensures IsTallyOf(Empty, [])
  {
  }

  /** Counting one more element keeps the record a tally of the longer sequence. */
  lemma {:induction false} TallyStep(c: Counter, ks: seq<string>, k: string)
    requires IsTallyOf(c, ks)
    ensures IsTallyOf(Bump(c, k), ks + [k])
  {
    TallyStepCounts(c, ks, k);
    TallyStepKeys(c, ks, k);
    DistinctElements(ks);
    TallyStepSum(c, |ks|, k);
  }

  lemma {:induction false} TallyStepKeys(c: Counter, ks: seq<string>, k: string)
    requires forall j :: j in c.counts <==> j in ks
    requires c.keys == Distinct(ks)
    ensures Bump(c, k).keys == Distinct(ks + [k])
    ensures NoDuplicates(Bump(c, k).keys)
  {
    var ks' := ks + [k];
    assert ks'[..|ks'| - 1] == ks;
    DistinctElements(ks');
  }

  lemma {:induction false} TallyStepSum(c: Counter, n: nat, k: string)
    requires forall j :: j in c.keys <==> j in c.counts
    requires NoDuplicates(c.keys)
    requires Sum(c.keys, c.counts) == n
    ensures Sum(Bump(c, k).keys, Bump(c, k).counts) == n + 1
  {
    if k in c.counts {
      SumBump(c.keys, c.counts, k);
    } else {
      SumAppend(c.keys, c.counts, k);
    }
  }

  /** Counting a key for the first time appends it with value 1. */
  lemma {:induction false} SumAppend(keys: seq<string>, counts: map<string, nat>, k: string)
    requires k !in keys
    ensures Sum(keys + [k], counts[k := 1]) == Sum(keys, counts) + 1
  {
    var keys' := keys + [k];
    assert keys'[..|keys'| - 1] == keys;
    SumIgnores(keys, counts, k, 1);
  }

  lemma {:induction false} TallyStepCounts(c: Counter, ks: seq<string>, k: string)
    requires forall j :: j in c.counts <==> j in ks
    requires forall j :: j in c.counts ==> c.counts[j] == Occurrences(ks, j)
    ensures forall j :: j in Bump(c, k).counts <==> j in ks + [k]
    ensures forall j :: j in Bump(c, k).counts ==> Bump(c, k).counts[j] == Occurrences(ks + [k], j)
  {
    var ks' := ks + [k];
    assert ks'[..|ks'| - 1] == ks;
    var r := Bump(c, k);
    forall j | j in r.counts
      ensures r.counts[j] == Occurrences(ks', j)
    {
      assert Occurrences(ks', j) == Occurrences(ks, j) + (if j == k then 1 else 0);
      if j != k {
        assert j in c.counts;
      } else if k !in c.counts {
        OccursIffPositive(ks, k);
      }
    }
  }

  /** Position of the first key with the largest value: the entry that
      `Object.entries(rec).sort((a, b) => b[1] - a[1])[0]` yields, since the
      sort is stable. */
  function TopIndex(keys: seq<string>, counts: map<string, nat>): (r: nat)
    requires keys != []
    ensures r < |keys|
    ensures forall j :: 0 <= j < |keys| ==> Get(Counter(counts, keys), keys[j]) <= Get(Counter(counts, keys), keys[r])
    ensures forall j :: 0 <= j < r ==> Get(Counter(counts, keys), keys[j]) < Get(Counter(counts, keys), keys[r])
  {
    if |keys| == 1 then 0
    else
      var p := keys[..|keys| - 1];
      var i := TopIndex(p, counts);
      if Get(Counter(counts, keys), keys[|keys| - 1]) > Get(Counter(counts, keys), keys[i]) then |keys| - 1 else i
  }

  /** `Object.entries(rec).sort((a, b) => b[1] - a[1])[0]?.[0] ?? "None"`. */
  function TopKey(c: Counter): (r: string)
    ensures c.keys == [] ==> r == "None"
    ensures c.keys != [] ==> r in c.keys
    ensures c.keys != [] ==> forall k :: k in c.keys ==> Get(c, k) <= Get(c, r)
  {
    if c.keys == [] then "None" else c.keys[TopIndex(c.keys, c.counts)]
  }

  /** The key `TopKey` picks is the earliest of the maximal ones. */
  lemma TopKeyIsFirstMaximum(c: Counter, i: nat)
    requires i < |c.keys| && c.keys[i] == TopKey(c) && NoDuplicates(c.keys)
    ensures forall j :: 0 <= j < i ==> Get(c, c.keys[j]) < Get(c, TopKey(c))
  {
    assert c == Counter(c.counts, c.keys);
  }
}
