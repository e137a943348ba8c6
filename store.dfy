/**
 * An object store of the browser database: records under string keys, with
 * the five operations the source wraps (src/db/experiment.ts).
 */
module Store {
  import opened Records
  import opened KeyOrder

  /** The records of `m` under the keys `ks`, in that order; keys not in `m` are skipped. */
  ghost function Lookup<V>(m: map<string, V>, ks: seq<string>): (rs: seq<V>)
    ensures (forall k :: k in ks ==> k in m) ==>
      |rs| == |ks| && forall i :: 0 <= i < |ks| ==> rs[i] == m[ks[i]]
  {
    if ks == [] then []
    else if ks[0] in m then [m[ks[0]]] + Lookup(m, ks[1..])
    else Lookup(m, ks[1..])
  }

  /** The records of `m`, ascending by key: what the engine's `getAll` yields. */
  ghost function InKeyOrder<V>(m: map<string, V>): (rs: seq<V>)
    ensures |rs| == |m|
    ensures forall k :: k in m ==> m[k] in rs
    ensures forall i :: 0 <= i < |rs| ==> exists k :: k in m && m[k] == rs[i]
    ensures |rs| == |SortedKeys(m.Keys)| &&
      forall i :: 0 <= i < |rs| ==> SortedKeys(m.Keys)[i] in m && rs[i] == m[SortedKeys(m.Keys)[i]]
  {
    var ks := SortedKeys(m.Keys);
    assert |ks| == |m.Keys| == |m|;
    var rs := Lookup(m, ks);
    assert forall k :: k in m ==> m[k] in rs by {
      forall k | k in m
        ensures m[k] in rs
      {
        var i :| 0 <= i < |ks| && ks[i] == k;
        assert rs[i] == m[k];
      }
    }
    rs
  }

  /** Taking the least remaining key off the front of the lookup. */
  lemma LookupStep<V>(m: map<string, V>, s: set<string>, k: string)
    requires k in m && IsMin(k, s)
    ensures Lookup(m, SortedKeys(s)) == [m[k]] + Lookup(m, SortedKeys(s - {k}))
  {
    SortedKeysUnfold(s, k);
    var tail := SortedKeys(s - {k});
    assert ([k] + tail)[0] == k && ([k] + tail)[1..] == tail;
  }

  /** One step of `getAll`: the least remaining key's record is next. */
  function TakeLeast<V>(m: map<string, V>, s: set<string>, k: string, all: seq<V>): (all': seq<V>)
    requires k in m && IsMin(k, s)
    ensures all' + Lookup(m, SortedKeys(s - {k})) == all + Lookup(m, SortedKeys(s))
    ensures all' == all + [m[k]]
  {
    LookupStep(m, s, k);
    ConcatAssoc(all, [m[k]], Lookup(m, SortedKeys(s - {k})));
    all + [m[k]]
  }

  class ObjectStore<V> {
    /** The stored records by key. */
    var records: map<string, V>

    constructor ()
      ensures records == map[]
    {
      records := map[];
    }

    /** `get`: the record under `key`, or absent. */
    function Get(key: string): (r: Option<V>)
      reads this
      ensures r.Some? <==> key in records
      ensures r.Some? ==> r.value == records[key]
    {
      if key in records then Some(records[key]) else None
    }

    /**
     * `getAll`, answered with null when the store is empty: otherwise every
     * record once, ascending by key.
     */
    method GetAll() returns (r: Option<seq<V>>)
      ensures r.None? <==> records == map[]
      ensures r.Some? ==> r.value == InKeyOrder(records)
    {
      var m := records;
      var remaining := m.Keys;
      var all: seq<V> := [];
      while remaining != {}
        invariant remaining <= m.Keys
        invariant all + Lookup(m, SortedKeys(remaining)) == InKeyOrder(m)
        decreases remaining
      {
        var k := MinKey(remaining);
        all := TakeLeast(m, remaining, k, all);
        remaining := remaining - {k};
      }
      if |all| <= 0 {
        r := None;
      } else {
        r := Some(all);
      }
    }

    /** `put` under an explicit key: afterwards `Get(key)` yields `data`. */
    method Update(data: V, key: string)
      modifies this
      ensures records == old(records)[key := data]
      ensures Get(key) == Some(data)
      ensures forall k :: k != key ==> Get(k) == old(Get(k))
    {
      records := records[key := data];
    }

    /** `delete`: removes `key` only; a missing key is no error. */
    method Delete(key: string)
      modifies this
      ensures records == old(records) - {key}
      ensures Get(key) == None
      ensures forall k :: k != key ==> Get(k) == old(Get(k))
      ensures key !in old(records) ==> records == old(records)
    {
      records := records - {key};
    }

    /** `clear`: afterwards `GetAll` answers null. */
    method DeleteAll()
      modifies this
      ensures records == map[]
    {
      records := map[];
    }
  }
}
