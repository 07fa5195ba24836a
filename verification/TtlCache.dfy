/** The time-to-live cache of src/utils/cache.ts, and a query served through it as getMarketplaceStats and
    getMarketplaceHistory of src/services/marketplace.ts are. Times are Date.now() milliseconds, non-decreasing. */
module TtlCache {
  import opened Basics

  datatype Op<V> = Set(key: string, value: V, at: nat) | Reset

  /** The last `set` of the key since the last `reset`: its value and time. */
  function Latest<V>(ops: seq<Op<V>>, key: string): Option<(V, nat)> {
    if ops == [] then None else
    match ops[|ops| - 1]
    case Reset => None
    case Set(k, v, at) => if k == key then Some((v, at)) else Latest(ops[..|ops| - 1], key)
  }

  /** Op i sets the key and no later op sets it again or resets the cache. */
  ghost predicate LastSet<V>(ops: seq<Op<V>>, key: string, i: nat) {
    && i < |ops| && ops[i].Set? && ops[i].key == key
    && forall j :: i < j < |ops| ==> ops[j].Set? && ops[j].key != key
  }

  lemma {:induction false} LatestMeans<V>(ops: seq<Op<V>>, key: string)
    ensures Latest(ops, key).Some? ==>
              exists i: nat :: LastSet(ops, key, i) && Latest(ops, key).value == (ops[i].value, ops[i].at)
    ensures Latest(ops, key).None? ==> forall i: nat :: !LastSet(ops, key, i)
  {
    if ops != [] && ops[|ops| - 1].Set? {
      var n := |ops| - 1;
      if ops[n].key == key {
        assert LastSet(ops, key, n);
      } else {
        LatestMeans(ops[..n], key);
        if Latest(ops, key).Some? {
          var i: nat :| LastSet(ops[..n], key, i) && Latest(ops[..n], key).value == (ops[..n][i].value, ops[..n][i].at);
          assert LastSet(ops, key, i);
        } else {
          forall i: nat ensures !LastSet(ops, key, i) {
            if LastSet(ops, key, i) { assert LastSet(ops[..n], key, i); }
          }
        }
      }
    }
  }

  lemma OneLastSet<V>(ops: seq<Op<V>>, key: string)
    ensures forall i: nat, j: nat :: LastSet(ops, key, i) && LastSet(ops, key, j) ==> i == j
  {
    forall i: nat, j: nat | LastSet(ops, key, i) && LastSet(ops, key, j) ensures i == j {
      assert !(i < j) && !(j < i);
    }
  }

  /** What `get` owes its caller at time `now`. */
  function Fresh<V>(ops: seq<Op<V>>, key: string, ttl: nat, now: nat): Option<V> {
    match Latest(ops, key)
    case None => None
    case Some(x) => if now < x.1 + ttl then Some(x.0) else None
  }

  datatype Entry<V> = Entry(data: V, expiresAt: nat)

  class Cache<V> {
    const ttl: nat
    var entries: map<string, Entry<V>>
    ghost var ops: seq<Op<V>>
    ghost var clock: nat

    /** An entry is the latest set; a set without an entry has expired and was pruned on read. */
    ghost predicate Valid() reads this {
      forall key ::
        match Latest(ops, key)
        case None => key !in entries
        case Some(x) =>
          if key in entries then entries[key] == Entry(x.0, x.1 + ttl) else x.1 + ttl <= clock
    }

    constructor (ttl: nat)
      ensures Valid() && this.ttl == ttl && ops == [] && clock == 0
    {
      this.ttl := ttl;
      entries, ops, clock := map[], [], 0;
    }

    /** v is returned iff the latest set of the key since the last reset stored v less than ttl ago. */
    method Get(key: string, now: nat) returns (r: Option<V>)
      requires Valid() && clock <= now
      modifies this
      ensures Valid() && ops == old(ops) && clock == now
      ensures r == Fresh(ops, key, ttl, now)
      ensures r.Some? ==> exists i: nat :: LastSet(ops, key, i) && r.value == ops[i].value && now < ops[i].at + ttl
      ensures r.None? ==> forall i: nat :: LastSet(ops, key, i) ==> now >= ops[i].at + ttl
    {
      LatestMeans(ops, key);
      if Latest(ops, key).Some? { OneLastSet(ops, key); }
      clock := now;
      if key in entries && entries[key].expiresAt > now {
        return Some(entries[key].data);
      }
      if key in entries {
        entries := entries - {key};
      }
      return None;
    }

    method Set(key: string, data: V, now: nat)
      requires Valid() && clock <= now
      modifies this
      ensures Valid() && ops == old(ops) + [Op.Set(key, data, now)] && clock == now
    {
      clock := now;
      entries := entries[key := Entry(data, now + ttl)];
      ops := ops + [Op.Set(key, data, now)];
      assert ops[..|ops| - 1] == old(ops);
      forall k | k != key ensures Latest(ops, k) == Latest(old(ops), k) {}
    }

    method Reset()
      requires Valid()
      modifies this
      ensures Valid() && ops == old(ops) + [Op.Reset] && clock == old(clock)
    {
      entries := map[];
      ops := ops + [Op.Reset];
    }
  }

  /** One state of a database and the instant it was written. */
  datatype Version<D> = Version(at: nat, db: D)

  /** Version i is the database as it is at instant t. */
  predicate Current<D>(versions: seq<Version<D>>, i: nat, t: nat) {
    i < |versions| && versions[i].at <= t && (i + 1 < |versions| ==> t <= versions[i + 1].at)
  }

  /** v is the query's answer for k over the database as it was at instant t, the query having asked its own clock at
      most that late under the same version. */
  ghost predicate AnswerAt<K, D, V>(query: (K, D, nat) -> V, versions: seq<Version<D>>, k: K, v: V, t: nat) {
    exists i: nat, asked: nat :: Current(versions, i, asked) && Current(versions, i, t) && asked <= t && v == query(k, versions[i].db, asked)
  }

  lemma AnswerOutlives<K, D, V>(query: (K, D, nat) -> V, versions: seq<Version<D>>, next: Version<D>, k: K, v: V, t: nat)
    requires AnswerAt(query, versions, k, v, t) && t <= next.at
    ensures AnswerAt(query, versions + [next], k, v, t)
  {
    var i: nat, asked: nat :| Current(versions, i, asked) && Current(versions, i, t) && asked <= t && v == query(k, versions[i].db, asked);
    assert (versions + [next])[i] == versions[i];
    assert Current(versions + [next], i, asked) && Current(versions + [next], i, t);
  }

  /** What the cache holds for k, under its key, was the answer for k at the instant it was stored. */
  ghost predicate Backed<K, D, V>(query: (K, D, nat) -> V, versions: seq<Version<D>>, ops: seq<Op<V>>, clock: nat, k: K, key: string) {
    Latest(ops, key).Some? ==>
      Latest(ops, key).value.1 <= clock && AnswerAt(query, versions, k, Latest(ops, key).value.0, Latest(ops, key).value.1)
  }

  lemma BackedAfterWrite<K, D, V>(query: (K, D, nat) -> V, versions: seq<Version<D>>, next: Version<D>, ops: seq<Op<V>>, clock: nat, k: K, key: string)
    requires Backed(query, versions, ops, clock, k, key) && clock <= next.at
    ensures Backed(query, versions + [next], ops, clock, k, key)
  {
    if Latest(ops, key).Some? {
      AnswerOutlives(query, versions, next, k, Latest(ops, key).value.0, Latest(ops, key).value.1);
    }
  }

  lemma BackedAfterSet<K, D, V>(query: (K, D, nat) -> V, versions: seq<Version<D>>, ops: seq<Op<V>>, clock: nat, k: K, key: string,
                                set_: string, v: V, at: nat)
    requires Backed(query, versions, ops, clock, k, key) && clock <= at
    requires key == set_ ==> AnswerAt(query, versions, k, v, at)
    ensures Backed(query, versions, ops + [Op.Set(set_, v, at)], at, k, key)
  {
    assert (ops + [Op.Set(set_, v, at)])[..|ops|] == ops;
  }

  lemma AllBackedAfterSet<K(!new), D, V>(keyOf: K -> string, query: (K, D, nat) -> V, versions: seq<Version<D>>, ops: seq<Op<V>>, clock: nat,
                                         k: K, v: V, at: nat)
    requires forall j :: Backed(query, versions, ops, clock, j, keyOf(j))
    requires (forall j :: keyOf(j) == keyOf(k) ==> j == k) && clock <= at && AnswerAt(query, versions, k, v, at)
    ensures forall j :: Backed(query, versions, ops + [Op.Set(keyOf(k), v, at)], at, j, keyOf(j))
  {
    forall j ensures Backed(query, versions, ops + [Op.Set(keyOf(k), v, at)], at, j, keyOf(j)) {
      BackedAfterSet(query, versions, ops, clock, j, keyOf(j), keyOf(k), v, at);
    }
  }

  predicate InTimeOrder<D>(versions: seq<Version<D>>) {
    forall i :: 0 <= i < |versions| - 1 ==> versions[i].at <= versions[i + 1].at
  }

  /** A database queried through a cache: `query(k, db, now)` is the aggregate the service computes on a miss and
      `keyOf(k)` the key it is cached under. Concurrent readers and writers share one clock. */
  class CachedQuery<K(!new), D, V> {
    const keyOf: K -> string
    const query: (K, D, nat) -> V
    const cache: Cache<V>
    var db: D
    ghost var versions: seq<Version<D>>
    ghost var clock: nat

    ghost predicate Injective() {
      forall j, k :: keyOf(j) == keyOf(k) ==> j == k
    }

    ghost predicate Valid() reads this, cache {
      && Injective() && cache.Valid() && cache.clock <= clock
      && InTimeOrder(versions) && versions != [] && versions[|versions| - 1].db == db && versions[|versions| - 1].at <= clock
      && forall k :: Backed(query, versions, cache.ops, cache.clock, k, keyOf(k))
    }

    constructor (db: D, keyOf: K -> string, query: (K, D, nat) -> V, ttl: nat)
      requires forall j, k :: keyOf(j) == keyOf(k) ==> j == k
      ensures Valid() && this.db == db && this.keyOf == keyOf && this.query == query && cache.ttl == ttl && fresh(cache)
      ensures clock == 0 && versions == [Version(0, db)]
    {
      this.db, this.keyOf, this.query, versions, clock := db, keyOf, query, [Version(0, db)], 0;
      cache := new Cache<V>(ttl);
    }

    /** Anyone may change the database between reads; the cache is not told. */
    method Write(db': D, now: nat)
      requires Valid() && clock <= now
      modifies this`db, this`versions, this`clock
      ensures Valid() && db == db' && clock == now && versions == old(versions) + [Version(now, db')]
    {
      forall k ensures Backed(query, versions + [Version(now, db')], cache.ops, cache.clock, k, keyOf(k)) {
        BackedAfterWrite(query, versions, Version(now, db'), cache.ops, cache.clock, k, keyOf(k));
      }
      versions := versions + [Version(now, db')];
      db, clock := db', now;
    }

    /** The served value is the query's answer for k over the database as it was at some instant t less than ttl before
        the cache was read (`read`), and not after it unless the value was computed now; a miss answers from the
        database as it is. */
    method Serve(k: K, read: nat, asked: nat, stored: nat) returns (v: V)
      requires Valid() && clock <= read <= asked <= stored
      modifies this`clock, cache
      ensures Valid() && clock == stored && db == old(db) && versions == old(versions)
      ensures var hit := Fresh(old(cache.ops), keyOf(k), cache.ttl, read);
              if hit.Some?
              then v == hit.value && exists t: nat :: t <= read < t + cache.ttl && AnswerAt(query, versions, k, v, t)
              else v == query(k, db, asked) && AnswerAt(query, versions, k, v, stored)
      ensures cache.ops == if Fresh(old(cache.ops), keyOf(k), cache.ttl, read).Some? then old(cache.ops)
                           else old(cache.ops) + [Op.Set(keyOf(k), v, stored)]
    {
      ghost var ops, before := cache.ops, cache.clock;
      var hit := cache.Get(keyOf(k), read);
      clock := stored;
      assert Backed(query, versions, ops, before, k, keyOf(k));
      if hit.Some? {
        return hit.value;
      }
      v := query(k, db, asked);
      assert Current(versions, |versions| - 1, asked) && Current(versions, |versions| - 1, stored);
      AllBackedAfterSet(keyOf, query, versions, ops, before, k, v, stored);
      cache.Set(keyOf(k), v, stored);
    }
  }
}
