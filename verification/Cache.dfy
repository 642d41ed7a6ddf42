/** The cache of one node (cache.go): a sharded store behind a closed flag and two counters. */
module NodeCache {
  import opened Common
  import opened ShardedStore
  import M = LruModel
  import R = LruRuns
  import S = ShardedModel

  /**
   A deadline handed to AddWithExpiration becomes a time to live and then a
   deadline again, so the stored one is late by exactly the time between the two
   clock readings; without a reading of the past it is never early.
   */
  lemma DeadlineDrift(cfg: S.Config, st: S.State, key: string, value: Bytes, deadline: int, measured: int,
                      stamped: int, now: int)
    requires cfg.Ok() && S.StoreOk(cfg, st) && measured < deadline
    ensures var shard := S.Step(cfg, st, R.OpSet(key, Some(value), deadline - measured, stamped, now))[cfg.Index(key)];
            key in M.Keys(shard.list) ==> R.Deadline(shard, key) == Some(deadline + (stamped - measured))
  {
    hide R.Step;
    var i, op := cfg.Index(key), R.OpSet(key, Some(value), deadline - measured, stamped, now);
    R.SetStamps(st[i], op, cfg.Share(i));
  }

  class Cache {
    const store: ShardedLru
    var hits: nat
    var misses: nat
    var closed: bool

    ghost predicate Valid()
      reads this, store.shards
    {
      store.Valid()
    }

    /**
     NewCache: a sharded store, for which sixteen shards are asked for unless told
     otherwise, or a plain LRU store, which is one shard (ShardedModel.OneShardIsPlain).
     */
    constructor (plain: bool, maxBytes: int, shardCount: int, hash: string -> uint32)
      ensures Valid() && fresh(store) && fresh(store.shards)
      ensures store.Abs() == S.Init(store.cfg) && store.cfg.maxBytes == maxBytes && store.cfg.hash == hash
      ensures if plain then store.cfg.count == 1 else S.CountFits(shardCount, maxBytes, store.cfg.count)
      ensures !closed && hits == misses == 0
    {
      hide ShardedLru.Valid, AbsAll, S.Init;
      var asked := if shardCount <= 0 then 16 else shardCount;
      var made := new ShardedLru(if plain then 1 else asked, maxBytes, hash);
      assert S.IsPow2(S.Pow2(0));
      store := made;
      hits, misses, closed := 0, 0, false;
    }

    /** Close: the store keeps its entries but is not used again. */
    method Close()
      requires Valid()
      modifies this`closed
      ensures Valid() && closed && store.Abs() == old(store.Abs())
    {
      closed := true;
    }

    /** Add: an entry without a deadline. */
    method Add(key: string, value: Bytes, stamped: int, now: int)
      requires Valid()
      modifies store.shards
      ensures Valid()
      ensures store.Abs() ==
        if closed then old(store.Abs())
        else S.Step(store.cfg, old(store.Abs()), R.OpSet(key, Some(value), 0, stamped, now))
    {
      hide S.Step, S.Get, AbsAll, ShardedLru.Valid;
      if closed {
        return;
      }
      store.SetWithExpiration(key, Some(value), 0, stamped, now);
    }

    /** AddWithExpiration: a deadline already reached by the first reading stores nothing and leaves the old entry. */
    method AddWithExpiration(key: string, value: Bytes, deadline: int, measured: int, stamped: int, now: int)
      requires Valid()
      modifies store.shards
      ensures Valid()
      ensures store.Abs() ==
        if closed || deadline <= measured then old(store.Abs())
        else S.Step(store.cfg, old(store.Abs()), R.OpSet(key, Some(value), deadline - measured, stamped, now))
    {
      hide S.Step, S.Get, AbsAll, ShardedLru.Valid;
      if closed {
        return;
      }
      var ttl := deadline - measured;
      if ttl <= 0 {
        return;
      }
      store.SetWithExpiration(key, Some(value), ttl, stamped, now);
    }

    /** Get: an open cache counts every lookup once, a closed one misses and counts nothing. */
    method Get(key: string, now: int) returns (hit: Option<Bytes>)
      requires Valid()
      modifies this`hits, this`misses, store.shards
      ensures Valid()
      ensures closed ==> hit.None? && store.Abs() == old(store.Abs()) && hits == old(hits) && misses == old(misses)
      ensures !closed ==>
        && hit == S.Get(store.cfg, old(store.Abs()), key, now)
        && store.Abs() == S.Step(store.cfg, old(store.Abs()), R.OpGet(key, now))
        && hits == old(hits) + (if hit.Some? then 1 else 0) && hits + misses == old(hits + misses) + 1
    {
      hide S.Step, S.Get, AbsAll, ShardedLru.Valid;
      if closed {
        return None;
      }
      hit := store.Get(key, now);
      if hit.None? {
        misses := misses + 1;
      } else {
        hits := hits + 1;
      }
    }

    method Delete(key: string) returns (removed: bool)
      requires Valid()
      modifies store.shards
      ensures Valid()
      ensures store.Abs() == if closed then old(store.Abs()) else S.Step(store.cfg, old(store.Abs()), R.OpDelete(key))
      ensures removed <==> !closed && key in M.Keys(old(store.Abs())[store.cfg.Index(key)].list)
    {
      hide S.Step, S.Get, AbsAll, ShardedLru.Valid;
      if closed {
        return false;
      }
      removed := store.Delete(key);
    }

    method Clear()
      requires Valid()
      modifies this`hits, this`misses, store.shards
      ensures Valid()
      ensures closed ==> store.Abs() == old(store.Abs()) && hits == old(hits) && misses == old(misses)
      ensures !closed ==> store.Abs() == S.Step(store.cfg, old(store.Abs()), R.OpClear) && hits == misses == 0
    {
      hide S.Step, S.Get, AbsAll, ShardedLru.Valid;
      if closed {
        return;
      }
      store.Clear();
      hits, misses := 0, 0;
    }
  }
}
