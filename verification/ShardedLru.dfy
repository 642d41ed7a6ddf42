/** The mutable sharded store: an array of LRU stores behind one interface. */
module ShardedStore {
  import opened Common
  import opened LruStore
  import M = LruModel
  import R = LruRuns
  import S = ShardedModel

  /** The abstract states of a slice of shards. */
  ghost function AbsAll(shards: seq<LruCache>): (r: seq<M.State>)
    reads shards
    ensures |r| == |shards|
    ensures forall i :: 0 <= i < |shards| ==> r[i] == shards[i].Abs()
  {
    if shards == [] then [] else AbsAll(shards[..|shards| - 1]) + [shards[|shards| - 1].Abs()]
  }

  class ShardedLru {
    const shards: seq<LruCache>
    ghost const cfg: S.Config
    const hash: string -> uint32

    ghost predicate Valid()
      reads shards
    {
      && cfg.Ok() && cfg.hash == hash && |shards| == cfg.count
      && (forall i, j :: 0 <= i < j < |shards| ==> shards[i] != shards[j])
      && (forall i :: 0 <= i < |shards| ==> shards[i].Valid() && shards[i].maxBytes == cfg.Share(i))
    }

    ghost function Abs(): S.State
      reads shards
    {
      AbsAll(shards)
    }

    /** newShardedLRU */
    constructor (requested: int, maxBytes: int, hash: string -> uint32)
      ensures Valid() && Abs() == S.Init(cfg) && fresh(shards)
      ensures cfg.maxBytes == maxBytes && cfg.hash == hash && S.CountFits(requested, maxBytes, cfg.count)
    {
      var count := S.ShardCount(requested, maxBytes);
      var base, remainder := 0, 0;
      if maxBytes > 0 {
        base, remainder := maxBytes / count, maxBytes % count;
      }
      var made: seq<LruCache> := [];
      ghost var config := S.Config(maxBytes, count, hash);
      for i := 0 to count
        invariant |made| == i
        invariant fresh(made)
        invariant forall j, k :: 0 <= j < k < i ==> made[j] != made[k]
        invariant forall j :: 0 <= j < i ==>
          made[j].Valid() && made[j].Abs() == M.EMPTY && made[j].maxBytes == config.Share(j)
      {
        var budget := maxBytes;
        if maxBytes > 0 {
          budget := if i < remainder then base + 1 else base;
        }
        var shard := new LruCache(budget);
        made := made + [shard];
      }
      shards := made;
      this.hash := hash;
      cfg := config;
    }

    /** A step that changes one shard leaves the others as they were. */
    twostate lemma OthersKeep(changed: LruCache)
      requires old(Valid()) && changed in shards && changed.Valid()
      requires forall i :: 0 <= i < |shards| && shards[i] != changed ==> unchanged(shards[i])
      ensures Valid()
      ensures forall i :: 0 <= i < |shards| && shards[i] != changed ==> Abs()[i] == old(Abs()[i])
    {
      forall i | 0 <= i < |shards|
        ensures shards[i].Valid() && (shards[i] != changed ==> shards[i].Abs() == old(shards[i].Abs()))
      {
        if shards[i] != changed {
          assert unchanged(shards[i]);
        }
      }
    }

    /** The shard of a key, by masking its hash. */
    method Shard(key: string) returns (shard: LruCache)
      requires Valid()
      ensures shard == shards[cfg.Index(key)]
    {
      ghost var i := cfg.Index(key);
      shard := shards[S.And(hash(key), |shards| - 1)];
    }

    method Get(key: string, now: int) returns (hit: Option<Bytes>)
      requires Valid()
      modifies shards
      ensures Valid()
      ensures Abs() == S.Step(cfg, old(Abs()), R.OpGet(key, now))
      ensures hit == S.Get(cfg, old(Abs()), key, now)
    {
      var shard := Shard(key);
      hit := shard.Get(key, now);
      OthersKeep(shard);
      S.StepOne(cfg, old(Abs()), Abs(), R.OpGet(key, now));
    }

    method SetWithExpiration(key: string, value: Option<Bytes>, ttl: int, stamped: int, now: int)
      requires Valid()
      modifies shards
      ensures Valid()
      ensures Abs() == S.Step(cfg, old(Abs()), R.OpSet(key, value, ttl, stamped, now))
    {
      var shard := Shard(key);
      shard.SetWithExpiration(key, value, ttl, stamped, now);
      OthersKeep(shard);
      S.StepOne(cfg, old(Abs()), Abs(), R.OpSet(key, value, ttl, stamped, now));
    }

    method Delete(key: string) returns (removed: bool)
      requires Valid()
      modifies shards
      ensures Valid()
      ensures Abs() == S.Step(cfg, old(Abs()), R.OpDelete(key))
      ensures removed <==> key in M.Keys(old(Abs())[cfg.Index(key)].list)
    {
      var shard := Shard(key);
      removed := shard.Delete(key);
      OthersKeep(shard);
      S.StepOne(cfg, old(Abs()), Abs(), R.OpDelete(key));
    }

    method Clear()
      requires Valid()
      modifies shards
      ensures Valid()
      ensures Abs() == S.Step(cfg, old(Abs()), R.OpClear)
    {
      for i := 0 to |shards|
        invariant Valid()
        invariant forall j :: 0 <= j < i ==> Abs()[j] == M.EMPTY
      {
        ClearShard(i);
      }
      S.StepAll(cfg, old(Abs()), Abs(), R.OpClear);
    }

    method ClearShard(i: nat)
      requires Valid() && i < |shards|
      modifies shards[i]
      ensures Valid() && Abs() == old(Abs())[i := M.EMPTY]
    {
      shards[i].Clear();
      OthersKeep(shards[i]);
    }

    /** One tick of the cleanup loop. */
    method Cleanup(now: int)
      requires Valid()
      modifies shards
      ensures Valid()
      ensures Abs() == S.Step(cfg, old(Abs()), R.OpCleanup(now))
    {
      hide M.Evict, S.Step, AbsAll;
      ghost var start := Abs();
      for i := 0 to |shards|
        invariant Valid()
        invariant forall j :: 0 <= j < |shards| ==>
          Abs()[j] == if j < i then M.Evict(start[j], cfg.Share(j), now) else start[j]
      {
        CleanupShard(i, now);
      }
      S.StepAll(cfg, start, Abs(), R.OpCleanup(now));
    }

    method CleanupShard(i: nat, now: int)
      requires Valid() && i < |shards|
      modifies shards[i]
      ensures Valid() && Abs() == old(Abs())[i := M.Evict(old(Abs()[i]), cfg.Share(i), now)]
    {
      shards[i].EvictLocked(now);
      OthersKeep(shards[i]);
    }
  }
}
