/**
 * A histogram in a dictionary's insertion order: `d[k] = d.get(k, 0) + 1`
 * for each key in turn. The suggestion heuristics count completed tasks by
 * hour of day and the analytics count recent tasks by creation day.
 */
module Counting {
  import Sorting

  datatype Entry<K> = Entry(key: K, count: nat)

  function Keys<K>(hist: seq<Entry<K>>): (r: seq<K>)
    ensures |r| == |hist| && forall i :: 0 <= i < |hist| ==> r[i] == hist[i].key
  {
    if hist == [] then [] else [hist[0].key] + Keys(hist[1..])
  }

  /** Whether the histogram has an entry for `k`. */
  function HasKey<K(==)>(hist: seq<Entry<K>>, k: K): bool {
    hist != [] && (hist[0].key == k || HasKey(hist[1..], k))
  }

  /** No key has two entries. */
  predicate DistinctKeys<K(==)>(hist: seq<Entry<K>>) {
    hist == [] || (!HasKey(hist[1..], hist[0].key) && DistinctKeys(hist[1..]))
  }

  /** Every entry counts at least one occurrence. */
  predicate Positive<K>(hist: seq<Entry<K>>) {
    forall i :: 0 <= i < |hist| ==> hist[i].count >= 1
  }

  /** `d[k] = d.get(k, 0) + 1`: the entry for `k` is incremented in place, or appended. */
  function Bump<K(==)>(hist: seq<Entry<K>>, k: K): (r: seq<Entry<K>>)
    ensures |r| == |hist| || r == hist + [Entry(k, 1)]
  {
    if hist == [] then [Entry(k, 1)]
    else if hist[0].key == k then [hist[0].(count := hist[0].count + 1)] + hist[1..]
    else [hist[0]] + Bump(hist[1..], k)
  }

  /** `d.get(k, 0)`. */
  function Lookup<K(==)>(hist: seq<Entry<K>>, k: K): nat {
    if hist == [] then 0 else if hist[0].key == k then hist[0].count else Lookup(hist[1..], k)
  }

  /** The sum of the counts. */
  function Total<K>(hist: seq<Entry<K>>): nat {
    if hist == [] then 0 else hist[0].count + Total(hist[1..])
  }

  /** The histogram of `keys`, counted in order. */
  function Histogram<K(==)>(keys: seq<K>): seq<Entry<K>> {
    if keys == [] then [] else Bump(Histogram(keys[..|keys| - 1]), keys[|keys| - 1])
  }

  /** How often `k` occurs in `keys`. */
  function Occurrences<K(==)>(keys: seq<K>, k: K): (n: nat)
    ensures n <= |keys|
  {
    if keys == [] then 0 else Occurrences(keys[..|keys| - 1], k) + (if keys[|keys| - 1] == k then 1 else 0)
  }

  lemma {:induction false} OccurrencesPositive<K>(keys: seq<K>, k: K)
    ensures Occurrences(keys, k) > 0 ==> k in keys
  {
    if keys != [] {
      OccurrencesPositive(keys[..|keys| - 1], k);
    }
  }

  lemma {:induction false} BumpHasKey<K>(hist: seq<Entry<K>>, k: K, g: K)
    ensures HasKey(Bump(hist, k), g) == (HasKey(hist, g) || g == k)
  {
    if hist != [] && hist[0].key != k {
      BumpHasKey(hist[1..], k, g);
    } else if hist != [] {
      assert Bump(hist, k)[1..] == hist[1..];
    }
  }

  /** Bumping keeps the keys distinct and the counts positive. */
  lemma {:induction false} BumpKeepsShape<K>(hist: seq<Entry<K>>, k: K)
    requires DistinctKeys(hist) && Positive(hist)
    ensures DistinctKeys(Bump(hist, k)) && Positive(Bump(hist, k))
  {
    if hist != [] && hist[0].key != k {
      BumpKeepsShape(hist[1..], k);
      BumpHasKey(hist[1..], k, hist[0].key);
      assert Bump(hist, k)[1..] == Bump(hist[1..], k);
    } else if hist != [] {
      assert Bump(hist, k)[1..] == hist[1..];
    }
  }

  lemma {:induction false} BumpTotal<K>(hist: seq<Entry<K>>, k: K)
    ensures Total(Bump(hist, k)) == Total(hist) + 1
  {
    if hist != [] && hist[0].key != k {
      BumpTotal(hist[1..], k);
    } else if hist != [] {
      assert Bump(hist, k)[1..] == hist[1..];
    }
  }

  lemma {:induction false} BumpLookup<K>(hist: seq<Entry<K>>, k: K, g: K)
    ensures Lookup(Bump(hist, k), g) == Lookup(hist, g) + (if g == k then 1 else 0)
  {
    if hist != [] && hist[0].key != k {
      BumpLookup(hist[1..], k, g);
    } else if hist != [] {
      assert Bump(hist, k)[1..] == hist[1..];
    }
  }

  /**
   * The histogram counts every key once: its keys are distinct, its counts
   * positive, `get(k, 0)` is the number of occurrences of `k`, and the
   * counts add up to the number of keys.
   */
  lemma {:induction false} HistogramFacts<K>(keys: seq<K>)
    ensures DistinctKeys(Histogram(keys)) && Positive(Histogram(keys))
    ensures Total(Histogram(keys)) == |keys|
    ensures forall k :: Lookup(Histogram(keys), k) == Occurrences(keys, k)
  {
    if keys != [] {
      var init := keys[..|keys| - 1];
      var k := keys[|keys| - 1];
      HistogramFacts(init);
      BumpKeepsShape(Histogram(init), k);
      BumpTotal(Histogram(init), k);
      forall g ensures Lookup(Histogram(keys), g) == Occurrences(keys, g) {
        BumpLookup(Histogram(init), k, g);
      }
    }
  }

  lemma {:induction false} MemberHasKey<K>(hist: seq<Entry<K>>, e: Entry<K>)
    requires e in hist
    ensures HasKey(hist, e.key)
  {
    if hist[0] != e {
      assert e in hist[1..];
      MemberHasKey(hist[1..], e);
    }
  }

  /** In a histogram with distinct keys, `get` finds an entry's own count. */
  lemma {:induction false} LookupOfMember<K>(hist: seq<Entry<K>>, e: Entry<K>)
    requires DistinctKeys(hist) && e in hist
    ensures Lookup(hist, e.key) == e.count
  {
    if hist[0] != e {
      assert e in hist[1..];
      MemberHasKey(hist[1..], e);
      LookupOfMember(hist[1..], e);
    }
  }

  lemma {:induction false} InsertKeepsHistogram<K>(x: Entry<K>, s: seq<Entry<K>>, le: (Entry<K>, Entry<K>) -> bool, k: K)
    ensures Total(Sorting.Insert(x, s, le)) == x.count + Total(s)
    ensures HasKey(Sorting.Insert(x, s, le), k) == (x.key == k || HasKey(s, k))
    ensures DistinctKeys(s) && !HasKey(s, x.key) ==> DistinctKeys(Sorting.Insert(x, s, le))
  {
    if s != [] && !le(x, s[0]) {
      InsertKeepsHistogram(x, s[1..], le, k);
      InsertKeepsHistogram(x, s[1..], le, s[0].key);
    }
  }

  /** Sorting a histogram keeps its total, its keys and their distinctness. */
  lemma {:induction false} SortKeepsHistogram<K>(s: seq<Entry<K>>, le: (Entry<K>, Entry<K>) -> bool, k: K)
    ensures Total(Sorting.SortBy(s, le)) == Total(s)
    ensures HasKey(Sorting.SortBy(s, le), k) == HasKey(s, k)
    ensures DistinctKeys(s) ==> DistinctKeys(Sorting.SortBy(s, le))
  {
    if s != [] {
      SortKeepsHistogram(s[1..], le, k);
      SortKeepsHistogram(s[1..], le, s[0].key);
      InsertKeepsHistogram(s[0], Sorting.SortBy(s[1..], le), le, k);
    }
  }
}
