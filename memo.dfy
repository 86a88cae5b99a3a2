/** The process-wide memo `mem` with `memo` and `getMemo`
    (api/calcular-entrega.js): a map from keys to values stamped with the time
    they were stored. The clock `Date.now()` is passed in as `now`
    (milliseconds). */
module Memo {
  import opened Wrappers

  /** `getMemo`'s default time-to-live: 30 minutes, in milliseconds. */
  const DefaultTtl: int := 30 * 60 * 1000

  /** `{v, t}`: a stored value and the time it was stored. */
  datatype Entry<V> = Entry(v: V, t: int)

  /** What a `getMemo(k, ttl)` at time `now` returns from map `m`: the value
      when an entry exists that is at most `ttl` old. */
  function Lookup<V>(m: map<string, Entry<V>>, k: string, ttl: int, now: int): (r: Option<V>)
    ensures r.Some? <==> k in m && now - m[k].t <= ttl
    ensures r.Some? ==> r.value == m[k].v
  {
    if k in m && now - m[k].t <= ttl then Some(m[k].v) else None
  }

  /** The map after such a read: a stale entry under `k` is deleted. */
  function AfterLookup<V>(m: map<string, Entry<V>>, k: string, ttl: int, now: int): (m': map<string, Entry<V>>)
    ensures m'.Keys == if k in m && now - m[k].t > ttl then m.Keys - {k} else m.Keys
    ensures forall k' :: k' in m' ==> m'[k'] == m[k']
  {
    if k in m && now - m[k].t > ttl then m - {k} else m
  }

  class MemoCache<V> {
    var mem: map<string, Entry<V>>

    constructor ()
      ensures mem == map[]
    {
      mem := map[];
    }

    /** `memo(k, v)`: stores `v` under `k` stamped `now` and returns `v`. */
    method Memo(k: string, v: V, now: int) returns (r: V)
      modifies this
      ensures r == v
      ensures mem == old(mem)[k := Entry(v, now)]
    {
      mem := mem[k := Entry(v, now)];
      r := v;
    }

    /** `getMemo(k, ttl)`: the stored value if it is fresh; a stale entry is
        deleted and reported absent. */
    method GetMemo(k: string, ttl: int, now: int) returns (r: Option<V>)
      modifies this
      ensures r == Lookup(old(mem), k, ttl, now)
      ensures mem == AfterLookup(old(mem), k, ttl, now)
      ensures k in old(mem) && now - old(mem)[k].t > ttl ==> r.None? && k !in mem
    {
      if k !in mem {
        return None;
      }
      var x := mem[k];
      if now - x.t > ttl {
        mem := mem - {k};
        return None;
      }
      r := Some(x.v);
    }
  }

  /** A value stored at `t0` is returned by a read at `now` exactly when it is
      at most `ttl` old (an entry exactly `ttl` old is still fresh); storing
      under `k` changes no read of another key. */
  lemma MemoThenLookup<V>(m: map<string, Entry<V>>, k: string, v: V, t0: int, k': string, ttl: int, now: int)
    ensures Lookup(m[k := Entry(v, t0)], k, ttl, now) == (if now - t0 <= ttl then Some(v) else None)
    ensures k' != k ==> Lookup(m[k := Entry(v, t0)], k', ttl, now) == Lookup(m, k', ttl, now)
  {
  }

  /** A read removes at most the key it reads, and never a fresh entry. */
  lemma AfterLookupOnlyEvictsStale<V>(m: map<string, Entry<V>>, k: string, ttl: int, now: int)
    ensures forall k' :: k' in m && k' != k ==> k' in AfterLookup(m, k, ttl, now)
    ensures Lookup(m, k, ttl, now).Some? ==> AfterLookup(m, k, ttl, now) == m
    ensures Lookup(m, k, ttl, now).None? ==> k !in AfterLookup(m, k, ttl, now)
  {
  }
}
