/** The share sets of all jobs of one connection, and what eviction of a job does to its set. */
module ShareHistory {
  import opened DuplicateShares
  import opened NotifyIds

  /** One minute, in nanoseconds. */
  const GRACE := 60_000_000_000

  /** The recorded keys of live jobs, and of evicted jobs with the time they were evicted. */
  datatype Shares<K> = Shares(active: map<JobId, seq<K>>, evicted: map<JobId, (seq<K>, int)>)

  function Known<K>(s: Shares<K>, id: JobId): seq<K> {
    if id in s.active then s.active[id]
    else if id in s.evicted then s.evicted[id].0
    else []
  }

  datatype Op<K> = Submit(id: JobId, key: K) | Evict(id: JobId, now: int) | Expire(now: int)

  function Apply<K(==)>(s: Shares<K>, op: Op<K>): Shares<K> {
    match op
    case Submit(id, key) =>
      if id !in s.active && id in s.evicted
      then s.(evicted := s.evicted[id := (AddKey(s.evicted[id].0, key), s.evicted[id].1)])
      else s.(active := s.active[id := AddKey(Known(s, id), key)])
    case Evict(id, now) =>
      if id in s.active then Shares(s.active - {id}, s.evicted[id := (s.active[id], now)]) else s
    case Expire(now) =>
      s.(evicted := map id | id in s.evicted && now - s.evicted[id].1 <= GRACE :: s.evicted[id])
  }

  function ApplyAll<K(==)>(s: Shares<K>, ops: seq<Op<K>>): Shares<K>
    decreases |ops|
  {
    if ops == [] then s else ApplyAll(Apply(s, ops[0]), ops[1..])
  }

  /** The keys submitted for one job, as if it had never been evicted. */
  function AddKeysOf<K(==)>(order: seq<K>, id: JobId, ops: seq<Op<K>>): seq<K>
    decreases |ops|
  {
    if ops == [] then order
    else AddKeysOf(if ops[0].Submit? && ops[0].id == id then AddKey(order, ops[0].key) else order, id, ops[1..])
  }

  /** Nothing that happens to job `id` up to `deadline` is older than the grace period allows. */
  ghost predicate WithinGrace<K>(id: JobId, ops: seq<Op<K>>, deadline: int) {
    forall op :: op in ops ==>
      (op.Expire? ==> op.now <= deadline) && (op.Evict? && op.id == id ==> deadline - op.now <= GRACE)
  }

  /** Until the grace period ends, eviction cannot be noticed: the set behaves as if it were live. */
  lemma {:induction false} EvictionIsInvisible<K>(s: Shares<K>, id: JobId, ops: seq<Op<K>>, deadline: int)
    requires WithinGrace(id, ops, deadline)
    requires id in s.evicted ==> deadline - s.evicted[id].1 <= GRACE
    ensures Known(ApplyAll(s, ops), id) == AddKeysOf(Known(s, id), id, ops)
    decreases |ops|
  {
    if ops != [] {
      var s', op := Apply(s, ops[0]), ops[0];
      assert op in ops;
      assert forall o :: o in ops[1..] ==> o in ops;
      EvictionIsInvisible(s', id, ops[1..], deadline);
    }
  }

  class ShareCaches {
    ghost var shares: Shares<ShareKey>
    ghost var Repr: set<object>
    /** Every set in use, with the cache (live or not) and the job it belongs to. */
    ghost var owner: map<DuplicateShareSet, (bool, JobId)>

    var shareCache: map<JobId, DuplicateShareSet>
    var evictedShareCache: map<JobId, (DuplicateShareSet, int)>

    ghost predicate Valid()
      reads this, Repr
    {
      && this in Repr
      && (forall c: DuplicateShareSet :: c in owner ==> c in Repr && c.Valid())
      && shares.active.Keys == shareCache.Keys && shares.evicted.Keys == evictedShareCache.Keys
      && (forall id :: id in shareCache ==>
            shareCache[id] in owner && owner[shareCache[id]] == (true, id) &&
            shares.active[id] == shareCache[id].order)
      && (forall id :: id in evictedShareCache ==>
            evictedShareCache[id].0 in owner && owner[evictedShareCache[id].0] == (false, id) &&
            shares.evicted[id] == (evictedShareCache[id].0.order, evictedShareCache[id].1))
    }

    constructor ()
      ensures Valid() && fresh(Repr) && shares == Shares(map[], map[])
    {
      shareCache, evictedShareCache, owner := map[], map[], map[];
      shares, Repr := Shares(map[], map[]), {this};
    }

    /** Reports whether the job's set already has the key, and records it there otherwise. */
    method IsDuplicateShare(id: JobId, key: ShareKey) returns (seen: bool)
      requires Valid()
      modifies Repr
      ensures Valid() && fresh(Repr - old(Repr))
      ensures seen == (key in Known(old(shares), id))
      ensures shares == Apply(old(shares), Submit(id, key))
    {
      if id in shareCache {
        seen := AddToSet(shareCache[id], id, key);
      } else if id in evictedShareCache {
        seen := AddToSet(evictedShareCache[id].0, id, key);
      } else {
        seen := StartCache(id, key);
      }
    }

    /** The job's set, wherever it is, takes the key. */
    method AddToSet(cache: DuplicateShareSet, id: JobId, key: ShareKey) returns (seen: bool)
      requires Valid() && cache in owner
      requires (id in shareCache && cache == shareCache[id]) ||
               (id !in shareCache && id in evictedShareCache && cache == evictedShareCache[id].0)
      modifies Repr
      ensures Valid() && Repr == old(Repr)
      ensures seen == (key in Known(old(shares), id))
      ensures shares == Apply(old(shares), Submit(id, key))
    {
      seen := cache.SeenOrAdd(key);
      shares := Apply(shares, Submit(id, key));
    }

    /** The first share of a job without a set creates a live one. */
    method StartCache(id: JobId, key: ShareKey) returns (seen: bool)
      requires Valid() && id !in shareCache && id !in evictedShareCache
      modifies this
      ensures Valid() && fresh(Repr - old(Repr)) && !seen
      ensures shares == Apply(old(shares), Submit(id, key))
    {
      var cache := new DuplicateShareSet();
      seen := cache.SeenOrAdd(key);
      AdoptCache(id, cache, key);
    }

    /** A set of its own for a job that had none. */
    method AdoptCache(id: JobId, cache: DuplicateShareSet, ghost key: ShareKey)
      requires Valid() && id !in shareCache && id !in evictedShareCache
      requires cache !in Repr && cache.Valid() && cache.order == AddKey([], key)
      modifies this`owner, this`Repr, this`shareCache, this`shares
      ensures Valid() && Repr == old(Repr) + {cache}
      ensures shares == Apply(old(shares), Submit(id, key))
    {
      owner := owner[cache := (true, id)];
      Repr := Repr + {cache};
      shareCache := shareCache[id := cache];
      shares := Apply(shares, Submit(id, key));
    }

    /** Moves the set of an evicted job out of the live cache. */
    method EvictJob(id: JobId, now: int)
      requires Valid()
      modifies this`shareCache, this`evictedShareCache, this`owner, this`shares
      ensures Valid() && Repr == old(Repr)
      ensures shares == Apply(old(shares), Evict(id, now))
    {
      if id in shareCache {
        var cache := shareCache[id];
        evictedShareCache := evictedShareCache[id := (cache, now)];
        shareCache := shareCache - {id};
        owner := owner[cache := (false, id)];
        shares := Apply(shares, Evict(id, now));
      }
    }

    /** Drops the sets whose grace period is over. */
    method ExpireEvicted(now: int)
      requires Valid()
      modifies this`evictedShareCache, this`shares
      ensures Valid() && Repr == old(Repr)
      ensures shares == Apply(old(shares), Expire(now))
    {
      evictedShareCache :=
        map id | id in evictedShareCache && now - evictedShareCache[id].1 <= GRACE :: evictedShareCache[id];
      shares := Apply(shares, Expire(now));
    }
  }
}
