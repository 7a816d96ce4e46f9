/**
 * Python dictionaries keyed by strings, as association lists: iteration
 * follows insertion order, and assigning to a present key keeps its place.
 */
module OrderedMaps {
  import opened Wrappers

  datatype Entry<V> = Entry(key: string, value: V)

  type Dict<V> = seq<Entry<V>>

  function Keys<V>(d: Dict<V>): set<string> {
    if d == [] then {} else {d[0].key} + Keys(d[1..])
  }

  lemma {:induction false} KeysAt<V>(d: Dict<V>, k: string)
    ensures k in Keys(d) <==> exists i :: 0 <= i < |d| && d[i].key == k
  {
    if d != [] {
      KeysAt(d[1..], k);
      if exists i :: 0 <= i < |d[1..]| && d[1..][i].key == k {
        var i :| 0 <= i < |d[1..]| && d[1..][i].key == k;
        assert d[i + 1].key == k;
      }
      if i :| 0 < i < |d| && d[i].key == k {
        assert d[1..][i - 1].key == k;
      }
    }
  }

  predicate UniqueKeys<V>(d: Dict<V>) {
    forall i, j :: 0 <= i < j < |d| ==> d[i].key != d[j].key
  }

  /** `d.get(k)` */
  function Get<V>(d: Dict<V>, k: string): (r: Option<V>)
    ensures r.Some? <==> k in Keys(d)
  {
    if d == [] then None
    else if d[0].key == k then Some(d[0].value)
    else Get(d[1..], k)
  }

  /** `d[k] = v` */
  function Put<V>(d: Dict<V>, k: string, v: V): (r: Dict<V>)
    ensures Keys(r) == Keys(d) + {k}
    ensures k !in Keys(d) ==> r == d + [Entry(k, v)]
    ensures k in Keys(d) ==> |r| == |d| && forall i :: 0 <= i < |d| ==> r[i].key == d[i].key
  {
    if d == [] then [Entry(k, v)]
    else if d[0].key == k then [Entry(k, v)] + d[1..]
    else [d[0]] + Put(d[1..], k, v)
  }

  lemma {:induction false} PutUnique<V>(d: Dict<V>, k: string, v: V)
    requires UniqueKeys(d)
    ensures UniqueKeys(Put(d, k, v))
  {
    if d != [] && d[0].key != k {
      var rest := Put(d[1..], k, v);
      PutUnique(d[1..], k, v);
      var r := Put(d, k, v);
      assert r == [d[0]] + rest;
      KeysAt(d[1..], d[0].key);
      assert d[0].key !in Keys(d[1..]) by {
        forall i | 0 <= i < |d[1..]| ensures d[1..][i].key != d[0].key {
          assert d[1..][i] == d[i + 1];
        }
      }
      forall j | 0 < j < |r| ensures r[0].key != r[j].key {
        assert r[j] == rest[j - 1];
        KeysAt(rest, r[j].key);
      }
    } else if d != [] {
      var r := Put(d, k, v);
      assert forall j :: 0 < j < |r| ==> r[j] == d[j];
    }
  }

  /** After `d[k] = v`, `d.get(k)` is `v` and every other key reads as before. */
  lemma {:induction false} PutGet<V>(d: Dict<V>, k: string, v: V, k': string)
    ensures Get(Put(d, k, v), k') == if k' == k then Some(v) else Get(d, k')
  {
    if d != [] && d[0].key != k {
      PutGet(d[1..], k, v, k');
      assert Put(d, k, v)[1..] == Put(d[1..], k, v);
    } else if d != [] {
      assert Put(d, k, v)[1..] == d[1..];
    }
  }

  /** What `d.get(k)` returns is stored in an entry under `k`. */
  lemma {:induction false} GetEntry<V>(d: Dict<V>, k: string)
    requires Get(d, k).Some?
    ensures exists i :: 0 <= i < |d| && d[i] == Entry(k, Get(d, k).value)
  {
    if d[0].key != k {
      GetEntry(d[1..], k);
      var i :| 0 <= i < |d[1..]| && d[1..][i] == Entry(k, Get(d[1..], k).value);
      assert d[i + 1] == d[1..][i];
    } else {
      assert d[0] == Entry(k, Get(d, k).value);
    }
  }

  /** With distinct keys, `d.get(k)` finds the entry stored under `k`. */
  lemma {:induction false} GetAt<V>(d: Dict<V>, i: nat)
    requires UniqueKeys(d) && i < |d|
    ensures Get(d, d[i].key) == Some(d[i].value)
  {
    if i > 0 {
      assert d[0].key != d[i].key;
      assert UniqueKeys(d[1..]) by {
        forall a, b | 0 <= a < b < |d| - 1 ensures d[1..][a].key != d[1..][b].key {
          assert d[1..][a] == d[a + 1] && d[1..][b] == d[b + 1];
        }
      }
      GetAt(d[1..], i - 1);
    }
  }
}
