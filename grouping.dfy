/**
 * A JavaScript `Map<K, V[]>` filled by the idiom
 * `if (!m.has(k)) m.set(k, []); m.get(k).push(v)`: keys in order of first insertion,
 * each with its values in insertion order. The map is a sequence of (key, values) pairs.
 */
module Grouping {
  import opened Wrappers

  /** The position of key `k`, as `m.has(k)` finds it. */
  function KeyIndex<K(==), V>(bs: seq<(K, seq<V>)>, k: K): (r: Option<nat>)
    ensures r.Some? ==> r.value < |bs| && bs[r.value].0 == k
    ensures r.None? ==> forall j :: 0 <= j < |bs| ==> bs[j].0 != k
  {
    if bs == [] then None
    else if bs[0].0 == k then Some(0)
    else match KeyIndex(bs[1..], k)
      case None => None
      case Some(i) => Some(i + 1)
  }

  /** Pushes `v` onto the values of `k`, creating the key last if it is new. */
  function Add<K(==), V>(bs: seq<(K, seq<V>)>, k: K, v: V): seq<(K, seq<V>)>
  {
    match KeyIndex(bs, k)
    case Some(i) => bs[i := (k, bs[i].1 + [v])]
    case None => bs + [(k, [v])]
  }

  /** The map built by pushing every pair of `kvs` in order. */
  function GroupBy<K(==), V>(kvs: seq<(K, V)>): seq<(K, seq<V>)>
  {
    if kvs == [] then [] else Add(GroupBy(kvs[..|kvs| - 1]), kvs[|kvs| - 1].0, kvs[|kvs| - 1].1)
  }

  /** The values paired with `k` in `kvs`, in order. */
  function ValuesFor<K(==), V>(kvs: seq<(K, V)>, k: K): seq<V>
  {
    if kvs == [] then []
    else ValuesFor(kvs[..|kvs| - 1], k) + (if kvs[|kvs| - 1].0 == k then [kvs[|kvs| - 1].1] else [])
  }

  predicate KeysDistinct<K(==), V>(bs: seq<(K, seq<V>)>)
  {
    forall i, j :: 0 <= i < j < |bs| ==> bs[i].0 != bs[j].0
  }

  ghost function KeySet<K, V>(bs: seq<(K, seq<V>)>): set<K>
  {
    set i | 0 <= i < |bs| :: bs[i].0
  }

  ghost function FirstSet<K, V>(kvs: seq<(K, V)>): set<K>
  {
    set j | 0 <= j < |kvs| :: kvs[j].0
  }

  lemma FirstSetSnoc<K, V>(kvs: seq<(K, V)>, x: (K, V))
    ensures FirstSet(kvs + [x]) == FirstSet(kvs) + {x.0}
  {
    var kvs' := kvs + [x];
    forall k | k in FirstSet(kvs') ensures k in FirstSet(kvs) + {x.0} {
      var j :| 0 <= j < |kvs'| && kvs'[j].0 == k;
      if j < |kvs| { assert kvs[j] == kvs'[j]; }
    }
    forall k | k in FirstSet(kvs) ensures k in FirstSet(kvs') {
      var j :| 0 <= j < |kvs| && kvs[j].0 == k;
      assert kvs'[j] == kvs[j];
    }
    assert kvs'[|kvs|] == x;
  }

  /** `bs` is the grouping of `kvs`: distinct keys, exactly the keys of `kvs`, each with its values. */
  ghost predicate Groups<K, V>(bs: seq<(K, seq<V>)>, kvs: seq<(K, V)>)
  {
    && KeysDistinct(bs)
    && (forall i :: 0 <= i < |bs| ==> bs[i].1 == ValuesFor(kvs, bs[i].0))
    && KeySet(bs) == FirstSet(kvs)
  }

  lemma ValuesForSnoc<K, V>(kvs: seq<(K, V)>, x: (K, V), k: K)
    ensures ValuesFor(kvs + [x], k) == ValuesFor(kvs, k) + (if x.0 == k then [x.1] else [])
  {
    assert (kvs + [x])[..|kvs|] == kvs;
  }

  /** Every value collected for `k` comes from a pair `(k, v)` of `kvs`. */
  lemma {:induction false} ValuesForMember<K, V>(kvs: seq<(K, V)>, k: K, v: V) returns (j: nat)
    requires v in ValuesFor(kvs, k)
    ensures j < |kvs| && kvs[j] == (k, v)
  {
    var init, x := kvs[..|kvs| - 1], kvs[|kvs| - 1];
    if v in ValuesFor(init, k) {
      j := ValuesForMember(init, k, v);
    } else {
      j := |kvs| - 1;
    }
  }

  /** A key absent from `kvs` has no values. */
  lemma {:induction false} ValuesForAbsent<K, V>(kvs: seq<(K, V)>, k: K)
    requires forall j :: 0 <= j < |kvs| ==> kvs[j].0 != k
    ensures ValuesFor(kvs, k) == []
  {
    if kvs != [] {
      ValuesForAbsent(kvs[..|kvs| - 1], k);
    }
  }

  /** Pushing onto an existing key keeps the keys. */
  lemma AddExisting<K, V>(bs: seq<(K, seq<V>)>, kvs: seq<(K, V)>, k: K, v: V, i: nat)
    requires Groups(bs, kvs) && i < |bs| && bs[i].0 == k
    ensures Groups(bs[i := (k, bs[i].1 + [v])], kvs + [(k, v)])
  {
    var r := bs[i := (k, bs[i].1 + [v])];
    var kvs' := kvs + [(k, v)];
    assert forall j :: 0 <= j < |bs| ==> r[j].0 == bs[j].0;
    forall j | 0 <= j < |r| ensures r[j].1 == ValuesFor(kvs', r[j].0) {
      ValuesForSnoc(kvs, (k, v), r[j].0);
      if j != i { assert bs[j].0 != k; }
    }
    FirstSetSnoc(kvs, (k, v));
    assert KeySet(r) == KeySet(bs) by {
      forall x | x in KeySet(r) ensures x in KeySet(bs) {
        var j :| 0 <= j < |r| && r[j].0 == x;
        assert bs[j].0 == x;
      }
      forall x | x in KeySet(bs) ensures x in KeySet(r) {
        var j :| 0 <= j < |bs| && bs[j].0 == x;
        assert r[j].0 == x;
      }
    }
    assert k in KeySet(bs);
  }

  /** Pushing onto a new key appends it last with the one value. */
  lemma AddNew<K, V>(bs: seq<(K, seq<V>)>, kvs: seq<(K, V)>, k: K, v: V)
    requires Groups(bs, kvs) && forall j :: 0 <= j < |bs| ==> bs[j].0 != k
    ensures Groups(bs + [(k, [v])], kvs + [(k, v)])
  {
    var r := bs + [(k, [v])];
    var kvs' := kvs + [(k, v)];
    ValuesForAbsentKey(bs, kvs, k);
    forall j | 0 <= j < |r| ensures r[j].1 == ValuesFor(kvs', r[j].0) {
      ValuesForSnoc(kvs, (k, v), r[j].0);
    }
    FirstSetSnoc(kvs, (k, v));
    KeySetSnoc(bs, (k, [v]));
  }

  lemma KeySetSnoc<K, V>(bs: seq<(K, seq<V>)>, x: (K, seq<V>))
    ensures KeySet(bs + [x]) == KeySet(bs) + {x.0}
  {
    var r := bs + [x];
    forall k | k in KeySet(r) ensures k in KeySet(bs) + {x.0} {
      var j :| 0 <= j < |r| && r[j].0 == k;
      if j < |bs| { assert bs[j] == r[j]; }
    }
    forall k | k in KeySet(bs) ensures k in KeySet(r) {
      var j :| 0 <= j < |bs| && bs[j].0 == k;
      assert r[j] == bs[j];
    }
    assert r[|bs|] == x;
  }

  lemma AddGroups<K, V>(bs: seq<(K, seq<V>)>, kvs: seq<(K, V)>, k: K, v: V)
    requires Groups(bs, kvs)
    ensures Groups(Add(bs, k, v), kvs + [(k, v)])
  {
    match KeyIndex(bs, k)
    case Some(i) => AddExisting(bs, kvs, k, v, i);
    case None => AddNew(bs, kvs, k, v);
  }

  /** A key the grouping lacks does not occur in `kvs`, so it has no values yet. */
  lemma ValuesForAbsentKey<K, V>(bs: seq<(K, seq<V>)>, kvs: seq<(K, V)>, k: K)
    requires Groups(bs, kvs) && forall j :: 0 <= j < |bs| ==> bs[j].0 != k
    ensures ValuesFor(kvs, k) == []
  {
    forall j | 0 <= j < |kvs| ensures kvs[j].0 != k {
      assert kvs[j].0 in FirstSet(kvs);
    }
    ValuesForAbsent(kvs, k);
  }

  /** GroupBy groups: distinct keys, exactly those of the pairs, each with its values in order. */
  lemma {:induction false} GroupByGroups<K, V>(kvs: seq<(K, V)>)
    ensures Groups(GroupBy(kvs), kvs)
  {
    if kvs != [] {
      var init, x := kvs[..|kvs| - 1], kvs[|kvs| - 1];
      GroupByGroups(init);
      AddGroups(GroupBy(init), init, x.0, x.1);
      assert init + [(x.0, x.1)] == kvs;
      assert GroupBy(kvs) == Add(GroupBy(init), x.0, x.1);
    }
  }

  /** Appending a pair pushes it onto the grouping. */
  lemma GroupBySnoc<K, V>(kvs: seq<(K, V)>, x: (K, V))
    ensures GroupBy(kvs + [x]) == Add(GroupBy(kvs), x.0, x.1)
  {
    assert (kvs + [x])[..|kvs|] == kvs;
  }
}
