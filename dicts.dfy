/**
 * Python dictionaries as the extractor uses them: entries in insertion
 * order, at most one per key. Assigning to a key that is already present
 * replaces its value and keeps its position; a new key goes to the end.
 */
module Dicts {
  import opened Wrappers

  type Dict<K, V> = seq<(K, V)>

  predicate DistinctKeys<K(==), V>(d: Dict<K, V>)
  {
    forall i, j :: 0 <= i < |d| && 0 <= j < |d| && d[i].0 == d[j].0 ==> i == j
  }

  /** `d.get(k)`: the value of the entry for `k`, if there is one. */
  function Get<K(==), V>(d: Dict<K, V>, k: K): (r: Option<V>)
    ensures r.Some? <==> exists i :: 0 <= i < |d| && d[i].0 == k
    ensures r.Some? ==> exists i :: 0 <= i < |d| && d[i] == (k, r.value)
    decreases |d|
  {
    if d == [] then None
    else if d[0].0 == k then Some(d[0].1)
    else
      var r := Get(d[1..], k);
      assert forall i :: 0 <= i < |d| - 1 ==> d[1..][i] == d[i + 1];
      assert r.None? ==> forall i :: 0 <= i < |d| ==> d[i].0 != k by {
        if r.None? {
          forall i | 0 <= i < |d| ensures d[i].0 != k {
            if i > 0 {
              assert d[i] == d[1..][i - 1];
            }
          }
        }
      }
      r
  }

  /** In a dictionary each key has one entry, so `Get` finds the value of any entry. */
  lemma GetEntry<K, V>(d: Dict<K, V>, i: nat)
    requires DistinctKeys(d) && i < |d|
    ensures Get(d, d[i].0) == Some(d[i].1)
  {
    var j :| 0 <= j < |d| && d[j] == (d[i].0, Get(d, d[i].0).value);
  }

  /** `d[k] = v`. */
  function Put<K(==), V>(d: Dict<K, V>, k: K, v: V): (r: Dict<K, V>)
    ensures |r| == if Get(d, k).Some? then |d| else |d| + 1
    ensures forall i :: 0 <= i < |d| ==> r[i].0 == d[i].0
    ensures |r| > |d| ==> r[|d|] == (k, v)
    decreases |d|
  {
    if d == [] then [(k, v)]
    else if d[0].0 == k then [(k, v)] + d[1..]
    else [d[0]] + Put(d[1..], k, v)
  }

  /** Every entry after `d[k] = v` is the new one or an old entry for another key. */
  lemma {:induction false} PutEntries<K, V>(d: Dict<K, V>, k: K, v: V)
    requires DistinctKeys(d)
    ensures forall i :: 0 <= i < |Put(d, k, v)| ==> Put(d, k, v)[i] == (k, v) || (Put(d, k, v)[i] in d && Put(d, k, v)[i].0 != k)
    decreases |d|
  {
    if d != [] && d[0].0 != k {
      DistinctTail(d);
      PutEntries(d[1..], k, v);
      PutEntriesCons(d, k, v);
    } else if d != [] {
      PutEntriesHead(d, k, v);
    }
  }

  lemma DistinctTail<K, V>(d: Dict<K, V>)
    requires DistinctKeys(d) && d != []
    ensures DistinctKeys(d[1..])
  {
    forall i, j | 0 <= i < |d| - 1 && 0 <= j < |d| - 1 && d[1..][i].0 == d[1..][j].0 ensures i == j {
      assert d[i + 1].0 == d[j + 1].0;
    }
  }

  lemma PutEntriesCons<K, V>(d: Dict<K, V>, k: K, v: V)
    requires d != [] && d[0].0 != k
    requires forall i :: 0 <= i < |Put(d[1..], k, v)| ==>
      Put(d[1..], k, v)[i] == (k, v) || (Put(d[1..], k, v)[i] in d[1..] && Put(d[1..], k, v)[i].0 != k)
    ensures forall i :: 0 <= i < |Put(d, k, v)| ==> Put(d, k, v)[i] == (k, v) || (Put(d, k, v)[i] in d && Put(d, k, v)[i].0 != k)
  {
    var r, t := Put(d, k, v), Put(d[1..], k, v);
    assert r == [d[0]] + t;
    forall i | 0 < i < |r| ensures r[i] == (k, v) || (r[i] in d && r[i].0 != k) {
      assert r[i] == t[i - 1];
    }
  }

  lemma PutEntriesHead<K, V>(d: Dict<K, V>, k: K, v: V)
    requires DistinctKeys(d) && d != [] && d[0].0 == k
    ensures forall i :: 0 <= i < |Put(d, k, v)| ==> Put(d, k, v)[i] == (k, v) || (Put(d, k, v)[i] in d && Put(d, k, v)[i].0 != k)
  {
    var r := Put(d, k, v);
    assert r == [(k, v)] + d[1..];
    forall i | 0 < i < |r| ensures r[i] in d && r[i].0 != k {
      assert r[i] == d[i];
    }
  }

  /** Assignment keeps one entry per key. */
  lemma PutDistinct<K, V>(d: Dict<K, V>, k: K, v: V)
    requires DistinctKeys(d)
    ensures DistinctKeys(Put(d, k, v))
  {
    var r := Put(d, k, v);
    PutEntries(d, k, v);
    forall i, j | 0 <= i < |r| && 0 <= j < |r| && r[i].0 == r[j].0 ensures i == j {
      if i < |d| && j < |d| {
        assert d[i].0 == d[j].0;
      }
    }
  }

  /** After `d[k] = v`, `k` reads `v` and every other key reads what it read before. */
  lemma {:induction false} GetPut<K, V>(d: Dict<K, V>, k: K, v: V, k': K)
    ensures Get(Put(d, k, v), k') == if k' == k then Some(v) else Get(d, k')
    decreases |d|
  {
    if d != [] && d[0].0 != k {
      GetPut(d[1..], k, v, k');
    }
  }

  /** A dictionary built from a list of assignments, such as a JSON object or `{**a, **b}`. */
  function FromEntries<K(==), V>(es: seq<(K, V)>): (d: Dict<K, V>)
    ensures DistinctKeys(d)
    ensures forall i :: 0 <= i < |d| ==> d[i] in es
  {
    if es == [] then []
    else
      var d, e := FromEntries(es[..|es| - 1]), es[|es| - 1];
      var r := Put(d, e.0, e.1);
      PutDistinct(d, e.0, e.1);
      assert e == (e.0, e.1);
      assert forall i :: 0 <= i < |r| ==> r[i] in es by {
        PutEntries(d, e.0, e.1);
        forall i | 0 <= i < |r| ensures r[i] in es {
          assert r[i] == e || r[i] in d;
          if r[i] != e {
            var j :| 0 <= j < |d| && d[j] == r[i];
            assert d[j] in es[..|es| - 1];
          }
        }
      }
      r
  }

  /** The value of the last assignment to `k`. */
  function LastValue<K(==), V>(es: seq<(K, V)>, k: K): Option<V>
  {
    if es == [] then None
    else if es[|es| - 1].0 == k then Some(es[|es| - 1].1)
    else LastValue(es[..|es| - 1], k)
  }

  /** A key reads the value it was last assigned; keys never assigned are absent. */
  lemma {:induction false} GetFromEntries<K, V>(es: seq<(K, V)>, k: K)
    ensures Get(FromEntries(es), k) == LastValue(es, k)
  {
    if es != [] {
      GetFromEntries(es[..|es| - 1], k);
      GetPut(FromEntries(es[..|es| - 1]), es[|es| - 1].0, es[|es| - 1].1, k);
    }
  }

  /** The later list of assignments overrides the earlier one, as in `{**a, **b}`. */
  lemma {:induction false} LastValueConcat<K, V>(a: seq<(K, V)>, b: seq<(K, V)>, k: K)
    ensures LastValue(a + b, k) == if LastValue(b, k).Some? then LastValue(b, k) else LastValue(a, k)
    decreases |b|
  {
    if b == [] {
      assert a + b == a;
    } else {
      assert (a + b)[..|a + b| - 1] == a + b[..|b| - 1];
      LastValueConcat(a, b[..|b| - 1], k);
    }
  }

  /** Assigning a key that is absent appends its entry. */
  lemma {:induction false} PutNew<K, V>(d: Dict<K, V>, k: K, v: V)
    requires Get(d, k).None?
    ensures Put(d, k, v) == d + [(k, v)]
    decreases |d|
  {
    if d != [] {
      PutNew(d[1..], k, v);
      assert d == [d[0]] + d[1..];
    }
  }

  /** Assignments to distinct keys build the dictionary that lists them in that order. */
  lemma {:induction false} FromDistinctEntries<K, V>(es: seq<(K, V)>)
    requires DistinctKeys(es)
    ensures FromEntries(es) == es
  {
    if es != [] {
      var n := |es| - 1;
      assert DistinctKeys(es[..n]) by {
        assert forall i :: 0 <= i < n ==> es[..n][i] == es[i];
      }
      FromDistinctEntries(es[..n]);
      PutNew(es[..n], es[n].0, es[n].1);
      assert es[..n] + [(es[n].0, es[n].1)] == es;
    }
  }
}
