/**
 * A JavaScript `Map` with string keys: the entries, and the order in which
 * each key was first inserted (the order `keys()` and `values()` report).
 * `set` on a key already present replaces its value and keeps its position.
 */
module JsMaps {

  import opened Wrappers

  datatype JsMap<V> = JsMap(order: seq<string>, table: map<string, V>)

  ghost predicate Distinct(s: seq<string>)
  {
    forall i, j :: 0 <= i < j < |s| ==> s[i] != s[j]
  }

  ghost predicate Valid<V>(m: JsMap<V>)
  {
    Distinct(m.order) && forall k :: k in m.table <==> k in m.order
  }

  /** `new Map()`, and a map after `clear()`. */
  function Empty<V>(): (m: JsMap<V>)
    ensures Valid(m) && m.table == map[] && m.order == []
  {
    JsMap([], map[])
  }

  /** `Map.prototype.get`. */
  function Get<V>(m: JsMap<V>, k: string): (r: Option<V>)
    ensures r.Some? <==> k in m.table
    ensures r.Some? ==> r.value == m.table[k]
  {
    if k in m.table then Some(m.table[k]) else None
  }

  /** `Map.prototype.set`: a new key goes to the end; an existing key keeps its position. */
  function Set<V>(m: JsMap<V>, k: string, v: V): (r: JsMap<V>)
    requires Valid(m)
    ensures Valid(r)
    ensures r.table == m.table[k := v]
    ensures r.order == if k in m.table then m.order else m.order + [k]
  {
    if k in m.table then JsMap(m.order, m.table[k := v]) else JsMap(m.order + [k], m.table[k := v])
  }

  /** `Array.from(m.values())`: the values, in key insertion order. */
  function Values<V>(m: JsMap<V>): (r: seq<V>)
    requires Valid(m)
    ensures |r| == |m.order|
    ensures forall i :: 0 <= i < |r| ==> r[i] == m.table[m.order[i]]
  {
    seq(|m.order|, i requires 0 <= i < |m.order| => m.table[m.order[i]])
  }

  /** Every stored value is among the values listed. */
  lemma ValuesHoldEach<V>(m: JsMap<V>)
    requires Valid(m)
    ensures forall k :: k in m.table ==> m.table[k] in Values(m)
  {
    var r := Values(m);
    forall k | k in m.table ensures m.table[k] in r {
      var i :| 0 <= i < |m.order| && m.order[i] == k;
      assert r[i] == m.table[k];
    }
  }

  /** Calling `set` for each (key, value) pair of `kvs`, in order. */
  function SetAll<V>(m: JsMap<V>, kvs: seq<(string, V)>): (r: JsMap<V>)
    requires Valid(m)
    ensures Valid(r)
  {
    if kvs == [] then m else Set(SetAll(m, kvs[..|kvs| - 1]), kvs[|kvs| - 1].0, kvs[|kvs| - 1].1)
  }

  /** One more `set` call extends the run by one pair. */
  lemma SetAllStep<V>(m: JsMap<V>, kvs: seq<(string, V)>, i: nat)
    requires Valid(m) && i < |kvs|
    ensures SetAll(m, kvs[..i + 1]) == Set(SetAll(m, kvs[..i]), kvs[i].0, kvs[i].1)
  {
    assert kvs[..i + 1][..i] == kvs[..i];
  }

  function KeysOf<V>(kvs: seq<(string, V)>): set<string>
  {
    set i | 0 <= i < |kvs| :: kvs[i].0
  }

  /** The pair at index `i` is the last one in `kvs` with its key. */
  ghost predicate LastFor<V>(kvs: seq<(string, V)>, i: int)
  {
    0 <= i < |kvs| && forall j :: i < j < |kvs| ==> kvs[j].0 != kvs[i].0
  }

  /** After a run of `set` calls the keys are the old keys plus every key that was set. */
  lemma {:induction false} SetAllKeys<V>(m: JsMap<V>, kvs: seq<(string, V)>)
    requires Valid(m)
    ensures SetAll(m, kvs).table.Keys == m.table.Keys + KeysOf(kvs)
  {
    if kvs != [] {
      var n := |kvs| - 1;
      SetAllKeys(m, kvs[..n]);
      KeysOfSnoc(kvs);
    }
  }

  lemma KeysOfSnoc<V>(kvs: seq<(string, V)>)
    requires kvs != []
    ensures KeysOf(kvs) == KeysOf(kvs[..|kvs| - 1]) + {kvs[|kvs| - 1].0}
  {
    var init := kvs[..|kvs| - 1];
    forall k | k in KeysOf(kvs) ensures k in KeysOf(init) + {kvs[|kvs| - 1].0} {
      var i :| 0 <= i < |kvs| && kvs[i].0 == k;
      if i < |kvs| - 1 { assert init[i] == kvs[i]; }
    }
    forall k | k in KeysOf(init) ensures k in KeysOf(kvs) {
      var i :| 0 <= i < |init| && init[i].0 == k;
      assert kvs[i] == init[i];
    }
  }

  /** A key that is never set keeps its old entry (or stays absent). */
  lemma {:induction false} SetAllUntouched<V>(m: JsMap<V>, kvs: seq<(string, V)>, k: string)
    requires Valid(m)
    requires forall i :: 0 <= i < |kvs| ==> kvs[i].0 != k
    ensures Get(SetAll(m, kvs), k) == Get(m, k)
  {
    if kvs != [] {
      SetAllUntouched(m, kvs[..|kvs| - 1], k);
    }
  }

  /** The last pair set for a key decides its value: a later entry overwrites an earlier one. */
  lemma {:induction false} SetAllLastWins<V>(m: JsMap<V>, kvs: seq<(string, V)>, i: int)
    requires Valid(m)
    requires LastFor(kvs, i)
    ensures Get(SetAll(m, kvs), kvs[i].0) == Some(kvs[i].1)
    decreases |kvs|
  {
    var n := |kvs| - 1;
    var init := kvs[..n];
    var before := SetAll(m, init);
    assert SetAll(m, kvs) == Set(before, kvs[n].0, kvs[n].1);
    if i < n {
      assert LastFor(init, i) by {
        forall j | i < j < |init| ensures init[j].0 != init[i].0 {
          assert init[j] == kvs[j];
        }
      }
      SetAllLastWins(m, init, i);
      assert init[i] == kvs[i];
      assert kvs[n].0 != kvs[i].0;
    }
  }

  /** Setting keys never moves or removes an existing key: the old order is a prefix of the new one. */
  lemma {:induction false} SetAllKeepsOrder<V>(m: JsMap<V>, kvs: seq<(string, V)>)
    requires Valid(m)
    ensures |m.order| <= |SetAll(m, kvs).order|
    ensures SetAll(m, kvs).order[..|m.order|] == m.order
  {
    if kvs != [] {
      var init := kvs[..|kvs| - 1];
      SetAllKeepsOrder(m, init);
      var before := SetAll(m, init);
      if kvs[|kvs| - 1].0 !in before.table {
        assert (before.order + [kvs[|kvs| - 1].0])[..|m.order|] == before.order[..|m.order|];
      }
    }
  }
}
