/** A JavaScript plain object with string keys, as the planner page uses them
    for allocations and pools: an ordered list of entries with distinct keys.
    Reading a missing key yields nothing (the page then applies `?? 0`), and
    `{ ...o, [k]: v }` overwrites the entry for `k` in place or appends a new
    one at the end. `Object.values(o).reduce((s, v) => s + v, 0)` is `Total`. */
module JsObject {
  import opened Wrappers

  datatype Entry<V> = Entry(key: string, value: V)

  type Obj<V> = seq<Entry<V>>

  function Keys<V>(o: Obj<V>): set<string> {
    set i | 0 <= i < |o| :: o[i].key
  }

  /** The invariant every JavaScript object satisfies: no key twice. */
  predicate DistinctKeys<V>(o: Obj<V>) {
    forall i, j :: 0 <= i < j < |o| ==> o[i].key != o[j].key
  }

  lemma KeysCons<V>(e: Entry<V>, t: Obj<V>)
    ensures Keys([e] + t) == {e.key} + Keys(t)
  {
    var o := [e] + t;
    assert o[0].key == e.key;
    forall k | k in Keys(o) ensures k in {e.key} + Keys(t) {
      var i :| 0 <= i < |o| && o[i].key == k;
      if i > 0 { assert t[i - 1].key == k; }
    }
    forall k | k in Keys(t) ensures k in Keys(o) {
      var i :| 0 <= i < |t| && t[i].key == k;
      assert o[i + 1].key == k;
    }
  }

  /** The first entry with key `k` holds the value `v`. */
  ghost predicate FirstEntryHolds<V>(o: Obj<V>, k: string, v: V) {
    exists i :: 0 <= i < |o| && o[i] == Entry(k, v) && forall j :: 0 <= j < i ==> o[j].key != k
  }

  /** `o[k]`, `None` standing for `undefined`. */
  function Get<V>(o: Obj<V>, k: string): (r: Option<V>)
    ensures r.Some? <==> k in Keys(o)
    ensures r.Some? ==> FirstEntryHolds(o, k, r.value)
  {
    if |o| == 0 then None
    else if o[0].key == k then
      assert o[0] == Entry(k, o[0].value);
      Some(o[0].value)
    else
      KeysCons(o[0], o[1..]);
      var r := Get(o[1..], k);
      assert r.Some? ==> FirstEntryHolds(o, k, r.value) by {
        if r.Some? {
          var i :| 0 <= i < |o[1..]| && o[1..][i] == Entry(k, r.value)
            && forall j :: 0 <= j < i ==> o[1..][j].key != k;
          assert o[i + 1] == o[1..][i];
          forall j | 0 <= j < i + 1 ensures o[j].key != k {
            if j > 0 { assert o[j] == o[1..][j - 1]; }
          }
          assert o[i + 1] == Entry(k, r.value);
        }
      }
      r
  }

  /** `o[k] ?? d`. */
  function GetOr<V>(o: Obj<V>, k: string, d: V): V {
    Get(o, k).GetOr(d)
  }

  /** Reading an object given as its first entry and the rest. */
  lemma GetCons<V>(e: Entry<V>, t: Obj<V>, k: string)
    ensures Get([e] + t, k) == if e.key == k then Some(e.value) else Get(t, k)
  {
    assert ([e] + t)[0] == e;
    assert ([e] + t)[1..] == t;
  }

  /** `{ ...o, [k]: v }`. */
  function Put<V>(o: Obj<V>, k: string, v: V): (r: Obj<V>)
    ensures Get(r, k) == Some(v)
    ensures forall k' :: k' != k ==> Get(r, k') == Get(o, k')
    ensures Keys(r) == Keys(o) + {k}
    ensures k in Keys(o) ==> |r| == |o|
    ensures k !in Keys(o) ==> |r| == |o| + 1
  {
    if |o| == 0 then [Entry(k, v)]
    else
      assert o == [o[0]] + o[1..];
      KeysCons(o[0], o[1..]);
      if o[0].key == k then
        var r := [Entry(k, v)] + o[1..];
        KeysCons(Entry(k, v), o[1..]);
        GetCons(Entry(k, v), o[1..], k);
        assert forall k' :: k' != k ==> Get(r, k') == Get(o, k') by {
          forall k' | k' != k ensures Get(r, k') == Get(o, k') {
            GetCons(Entry(k, v), o[1..], k');
            GetCons(o[0], o[1..], k');
          }
        }
        r
      else
        var rest := Put(o[1..], k, v);
        var r := [o[0]] + rest;
        KeysCons(o[0], rest);
        GetCons(o[0], rest, k);
        assert forall k' :: k' != k ==> Get(r, k') == Get(o, k') by {
          forall k' | k' != k ensures Get(r, k') == Get(o, k') {
            GetCons(o[0], rest, k');
            GetCons(o[0], o[1..], k');
          }
        }
        r
  }

  /** An object's keys are distinct iff its first key does not recur and
      the remaining entries' keys are distinct. */
  lemma DistinctKeysCons<V>(e: Entry<V>, t: Obj<V>)
    ensures DistinctKeys([e] + t) <==> e.key !in Keys(t) && DistinctKeys(t)
  {
    var o := [e] + t;
    KeysCons(e, t);
    if DistinctKeys(o) {
      forall i, j | 0 <= i < j < |t| ensures t[i].key != t[j].key {
        assert o[i + 1] == t[i] && o[j + 1] == t[j];
      }
      forall i | 0 <= i < |t| ensures t[i].key != e.key {
        assert o[0] == e && o[i + 1] == t[i];
      }
    }
    if e.key !in Keys(t) && DistinctKeys(t) {
      forall i, j | 0 <= i < j < |o| ensures o[i].key != o[j].key {
        assert o[j] == t[j - 1];
        if i > 0 { assert o[i] == t[i - 1]; }
      }
    }
  }

  /** A spread update keeps the keys of an object distinct. */
  lemma {:induction false} PutKeepsKeysDistinct<V>(o: Obj<V>, k: string, v: V)
    requires DistinctKeys(o)
    ensures DistinctKeys(Put(o, k, v))
  {
    if |o| == 0 {
    } else if o[0].key == k {
      DistinctKeysCons(o[0], o[1..]);
      DistinctKeysCons(Entry(k, v), o[1..]);
      assert [o[0]] + o[1..] == o;
    } else {
      var rest := Put(o[1..], k, v);
      assert [o[0]] + o[1..] == o;
      DistinctKeysCons(o[0], o[1..]);
      PutKeepsKeysDistinct(o[1..], k, v);
      DistinctKeysCons(o[0], rest);
    }
  }

  /** Every entry of a spread update is the written one or came from the
      original object. */
  lemma {:induction false} PutEntriesFrom<V>(o: Obj<V>, k: string, v: V)
    ensures forall e :: e in Put(o, k, v) ==> e == Entry(k, v) || e in o
  {
    if |o| > 0 && o[0].key != k {
      PutEntriesFrom(o[1..], k, v);
      assert Put(o, k, v) == [o[0]] + Put(o[1..], k, v);
      forall e | e in o[1..] ensures e in o {
        var i :| 0 <= i < |o[1..]| && o[1..][i] == e;
        assert o[i + 1] == e;
      }
    } else if |o| > 0 {
      forall e | e in o[1..] ensures e in o {
        var i :| 0 <= i < |o[1..]| && o[1..][i] == e;
        assert o[i + 1] == e;
      }
    }
  }

  /** The sum of the values, in entry order. */
  function Total(o: Obj<int>): int {
    if |o| == 0 then 0 else o[0].value + Total(o[1..])
  }

  /** Writing one entry moves the sum of the values by exactly the change of
      that entry, a missing entry counting as 0. */
  lemma {:induction false} TotalAfterPut(o: Obj<int>, k: string, v: int)
    requires DistinctKeys(o)
    ensures Total(Put(o, k, v)) == Total(o) - GetOr(o, k, 0) + v
  {
    if |o| == 0 {
    } else if o[0].key == k {
      assert ([Entry(k, v)] + o[1..])[1..] == o[1..];
    } else {
      var rest := Put(o[1..], k, v);
      assert ([o[0]] + rest)[1..] == rest;
      TotalAfterPut(o[1..], k, v);
    }
  }
}
