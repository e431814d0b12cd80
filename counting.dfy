/** A model of the two pieces of Python's `collections` behaviour that the
    analysis routines rely on: a `Counter` built from a list counts every
    element, and its keys iterate in insertion order, that is, in the order
    of each element's first occurrence in the list. */
module Counting {

  /** Position of the first occurrence of `x` in `s` (Python's `s.index(x)`). */
  function FirstIndex<T(==)>(s: seq<T>, x: T): (i: nat)
    requires x in s
    ensures i < |s| && s[i] == x && x !in s[..i]
  {
    if s[0] == x then 0
    else
      var j := FirstIndex(s[1..], x);
      assert s[..1 + j] == [s[0]] + s[1..][..j];
      1 + j
  }

  /** The first occurrence is the only position holding `x` with no `x` before it. */
  lemma FirstIndexIsUnique<T>(s: seq<T>, x: T, i: nat)
    requires i < |s| && s[i] == x && x !in s[..i]
    ensures FirstIndex(s, x) == i
  {
  }

  /** Appending an element leaves earlier first occurrences where they were;
      a new element first occurs at the end. */
  lemma FirstIndexAppend<T>(p: seq<T>, x: T)
    ensures forall k :: k in p ==> FirstIndex(p + [x], k) == FirstIndex(p, k)
    ensures x !in p ==> FirstIndex(p + [x], x) == |p|
  {
    var s := p + [x];
    forall k | k in p
      ensures FirstIndex(s, k) == FirstIndex(p, k)
    {
      var j := FirstIndex(p, k);
      assert s[..j] == p[..j];
      FirstIndexIsUnique(s, k, j);
    }
    if x !in p {
      assert s[..|p|] == p;
      FirstIndexIsUnique(s, x, |p|);
    }
  }

  /** A Python `Counter`: a dict from element to count. `keys` is the
      dict's iteration order, `counts` its contents. */
  datatype Counter<K> = Counter(keys: seq<K>, counts: map<K, nat>)
  {
    /** Every key appears once in the iteration order, the iteration order
        and the dict hold the same keys, and only elements that were seen are
        keys. */
    predicate Valid() {
      && (forall i, j :: 0 <= i < j < |keys| ==> keys[i] != keys[j])
      && (forall k :: k in keys ==> k in counts)
      && (forall k :: k in counts ==> k in keys)
      && (forall k :: k in counts ==> counts[k] > 0)
    }
  }

  /** Counting one more occurrence of `x`: a known key is incremented in place,
      a new key is inserted at the end with count 1. */
  function Add<K>(c: Counter<K>, x: K): Counter<K> {
    if x in c.counts then c.(counts := c.counts[x := c.counts[x] + 1])
    else Counter(c.keys + [x], c.counts[x := 1])
  }

  /** `c` counts the elements of `s`: its keys are exactly the elements of
      `s`, each with its number of occurrences, iterated in the order of their
      first occurrence in `s`. */
  predicate Tallies<K>(c: Counter<K>, s: seq<K>) {
    && c.Valid()
    && (forall k :: k in c.counts ==> k in s)
    && (forall k :: k in s ==> k in c.counts)
    && (forall k :: k in c.counts ==> c.counts[k] == multiset(s)[k])
    && (forall i, j :: 0 <= i < j < |c.keys| ==> FirstIndex(s, c.keys[i]) < FirstIndex(s, c.keys[j]))
  }

  lemma AddTallies<K>(c: Counter<K>, p: seq<K>, x: K)
    requires Tallies(c, p)
    ensures Tallies(Add(c, x), p + [x])
  {
    var s, d := p + [x], Add(c, x);
    AddValid(c, x);
    assert forall k :: k in d.counts ==> k in s;
    assert forall k :: k in s ==> k in d.counts;
    AddCounts(c, p, x);
    AddOrder(c, p, x);
  }

  lemma AddValid<K>(c: Counter<K>, x: K)
    requires c.Valid()
    ensures Add(c, x).Valid()
  {
  }

  lemma AddCounts<K>(c: Counter<K>, p: seq<K>, x: K)
    requires forall k :: k in c.counts ==> c.counts[k] == multiset(p)[k]
    requires forall k :: k in p ==> k in c.counts
    ensures forall k :: k in Add(c, x).counts ==> Add(c, x).counts[k] == multiset(p + [x])[k]
  {
    assert multiset(p + [x]) == multiset(p) + multiset{x};
  }

  lemma AddOrder<K>(c: Counter<K>, p: seq<K>, x: K)
    requires Tallies(c, p)
    ensures forall i, j :: 0 <= i < j < |Add(c, x).keys| ==>
      Add(c, x).keys[i] in p + [x] && Add(c, x).keys[j] in p + [x] &&
      FirstIndex(p + [x], Add(c, x).keys[i]) < FirstIndex(p + [x], Add(c, x).keys[j])
  {
    var s, d := p + [x], Add(c, x);
    FirstIndexAppend(p, x);
    forall i, j | 0 <= i < j < |d.keys|
      ensures d.keys[i] in s && d.keys[j] in s && FirstIndex(s, d.keys[i]) < FirstIndex(s, d.keys[j])
    {
      assert d.keys[i] in p;
      if j < |c.keys| {
        assert d.keys[j] in p;
      } else {
        assert d.keys[j] == x && x !in p;
        assert FirstIndex(p, d.keys[i]) < |p|;
      }
    }
  }

  /** `Counter(s)`: the elements of `s` counted from left to right. */
  function CounterOf<K>(s: seq<K>): (c: Counter<K>)
    ensures Tallies(c, s)
  {
    if s == [] then Counter([], map[])
    else
      var p, x := s[..|s| - 1], s[|s| - 1];
      assert s == p + [x];
      AddTallies(CounterOf(p), p, x);
      Add(CounterOf(p), x)
  }

  /** Sum of the counts of `keys`, in iteration order. */
  function SumOf<K>(keys: seq<K>, counts: map<K, nat>): nat
    requires forall k :: k in keys ==> k in counts
  {
    if keys == [] then 0
    else SumOf(keys[..|keys| - 1], counts) + counts[keys[|keys| - 1]]
  }

  /** Sum of all counts of a counter (Python's `Counter.total()`). */
  function Total<K>(c: Counter<K>): nat
    requires c.Valid()
  {
    SumOf(c.keys, c.counts)
  }

  lemma {:induction false} SumOfFrame<K>(keys: seq<K>, m: map<K, nat>, m': map<K, nat>)
    requires forall k :: k in keys ==> k in m && k in m' && m[k] == m'[k]
    ensures SumOf(keys, m) == SumOf(keys, m')
  {
    if keys != [] {
      SumOfFrame(keys[..|keys| - 1], m, m');
    }
  }

  lemma {:induction false} SumOfIncrement<K>(keys: seq<K>, m: map<K, nat>, x: K)
    requires forall i, j :: 0 <= i < j < |keys| ==> keys[i] != keys[j]
    requires forall k :: k in keys ==> k in m
    requires x in keys
    ensures SumOf(keys, m[x := m[x] + 1]) == SumOf(keys, m) + 1
  {
    var p, last := keys[..|keys| - 1], keys[|keys| - 1];
    var m' := m[x := m[x] + 1];
    if last == x {
      assert forall i :: 0 <= i < |p| ==> p[i] == keys[i] != x;
      SumOfFrame(p, m, m');
    } else {
      assert x in p by {
        var i :| 0 <= i < |keys| && keys[i] == x;
        assert p[i] == x;
      }
      SumOfIncrement(p, m, x);
    }
  }

  /** The counts of `Counter(s)` add up to the length of `s`. */
  lemma {:induction false} TotalOfCounterOf<K>(s: seq<K>)
    ensures Total(CounterOf(s)) == |s|
  {
    if s != [] {
      var p, x := s[..|s| - 1], s[|s| - 1];
      assert s == p + [x];
      var c := CounterOf(p);
      TotalOfCounterOf(p);
      if x in c.counts {
        SumOfIncrement(c.keys, c.counts, x);
      } else {
        SumOfFrame(c.keys, c.counts, c.counts[x := 1]);
      }
    }
  }
}
