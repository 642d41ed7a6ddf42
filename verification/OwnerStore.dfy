/**
 The owner cache of the protocol model against the sharded store: whatever the
 store does is the abstract put or drop followed by a loss of some keys, which
 is a step of the protocol.
 */
module OwnerStore {
  import opened Common
  import M = LruModel
  import R = LruRuns
  import S = ShardedModel
  import opened OwnerModel

  /** At time `now` the store answers every lookup as the abstract cache does. */
  ghost predicate Shows(cfg: S.Config, st: S.State, now: int, cache: map<string, Entry>)
    requires cfg.Ok() && |st| == cfg.count
  {
    forall k :: S.Get(cfg, st, k, now) == if k in cache then Some(cache[k].value) else None
  }

  /** What an operation does to a cache that never loses anything; `put` is the entry that a Set writes. */
  function Effect(cache: map<string, Entry>, op: R.Op, put: Entry): map<string, Entry> {
    match op
    case OpSet(key, value, _, _, _) => if value.Some? then cache[key := put] else cache - {key}
    case OpDelete(key) => cache - {key}
    case OpClear => map[]
    case OpGet(_, _) => cache
    case OpCleanup(_) => cache
  }

  lemma FoundIsStored(st: M.State, k: string, now: int)
    requires M.Get(st, k, now).1.Some?
    ensures M.Entry(k, M.Get(st, k, now).1.value) in st.list
  {
  }

  lemma LiveBefore(st: M.State, after: M.State, e: M.Entry, now: int, later: int)
    requires M.Valid(st) && e in st.list && now <= later
    requires R.Deadline(after, e.key) == R.Deadline(st, e.key) && M.Get(after, e.key, later).1.Some?
    ensures M.Get(st, e.key, now).1 == Some(e.value)
  {
    M.LookupUnique(st.list, e);
  }

  /** What a lookup finds after a step is what the step left there, or what a lookup found before. */
  lemma FoundAfter(cfg: S.Config, st: S.State, op: R.Op, cache: map<string, Entry>, put: Entry, now: int, later: int,
                   k: string)
    requires cfg.Ok() && S.StoreOk(cfg, st) && Shows(cfg, st, now, cache) && now <= later
    requires op.OpSet? && op.value.Some? ==> put.value == op.value.value
    requires S.Get(cfg, S.Step(cfg, st, op), k, later).Some?
    ensures k in Effect(cache, op, put)
    ensures S.Get(cfg, S.Step(cfg, st, op), k, later) == Some(Effect(cache, op, put)[k].value)
  {
    hide R.Step, M.Get;
    var i := cfg.Index(k);
    var after := S.Step(cfg, st, op)[i];
    var e := M.Entry(k, M.Get(after, k, later).1.value);
    FoundIsStored(after, k, later);
    if S.Reaches(cfg, op, i) {
      Kept(st[i], op, cfg.Share(i), e);
    }
    if e in st[i].list && R.Deadline(after, k) == R.Deadline(st[i], k) {
      LiveBefore(st[i], after, e, now, later);
    }
  }

  /** An entry after a step is not one it removed, and under the key of a Set it is the one written. */
  lemma Kept(st: M.State, op: R.Op, maxBytes: int, e: M.Entry)
    requires M.Valid(st) && e in R.Step(st, op, maxBytes).list
    ensures !op.OpClear? && (op.OpDelete? ==> op.key != e.key)
    ensures op.OpSet? && op.key == e.key ==> op.value == Some(e.value)
    ensures !(op.OpSet? && op.key == e.key) ==>
      e in st.list && R.Deadline(R.Step(st, op, maxBytes), e.key) == R.Deadline(st, e.key)
  {
    hide M.Evict, M.Get;
    R.StepEntries(st, op, maxBytes, e);
    if op.OpSet? && op.value.Some? {
      R.SetStamps(st, op, maxBytes);
    }
  }

  /** Any step of the store, and any time passing, is its abstract effect followed by a loss. */
  lemma StoreLosesAtMost(cfg: S.Config, st: S.State, op: R.Op, cache: map<string, Entry>, put: Entry, now: int,
                         later: int)
    returns (lost: set<string>)
    requires cfg.Ok() && S.StoreOk(cfg, st) && Shows(cfg, st, now, cache) && now <= later
    requires op.OpSet? && op.value.Some? ==> put.value == op.value.value
    ensures Shows(cfg, S.Step(cfg, st, op), later, Effect(cache, op, put) - lost)
  {
    hide S.Get, S.Step;
    var after := S.Step(cfg, st, op);
    lost := set k | k in Effect(cache, op, put) && S.Get(cfg, after, k, later).None?;
    forall k
      ensures S.Get(cfg, after, k, later) ==
        if k in Effect(cache, op, put) - lost then Some((Effect(cache, op, put) - lost)[k].value) else None
    {
      if S.Get(cfg, after, k, later).Some? {
        FoundAfter(cfg, st, op, cache, put, now, later, k);
      }
    }
  }

  /** The writes and removals of an open group's owner cache, on the store: each is the protocol's step and a loss. */
  lemma PutLosesAtMost(cfg: S.Config, st: S.State, s: State, key: string, e: Entry, ttl: int, stamped: int, at: int,
                       later: int)
    returns (lost: set<string>)
    requires cfg.Ok() && S.StoreOk(cfg, st) && Shows(cfg, st, stamped, s.cache) && stamped <= later && !s.closed
    ensures var after := S.Step(cfg, st, R.OpSet(key, Some(e.value), ttl, stamped, at));
            Shows(cfg, after, later, CachePut(s, key, e, false) - lost)
  {
    hide S.Get, S.Step;
    lost := StoreLosesAtMost(cfg, st, R.OpSet(key, Some(e.value), ttl, stamped, at), s.cache, e, stamped, later);
  }

  lemma DropLosesAtMost(cfg: S.Config, st: S.State, s: State, key: string, now: int, later: int)
    returns (lost: set<string>)
    requires cfg.Ok() && S.StoreOk(cfg, st) && Shows(cfg, st, now, s.cache) && now <= later && !s.closed
    ensures Shows(cfg, S.Step(cfg, st, R.OpDelete(key)), later, CacheDrop(s, {key}) - lost)
  {
    hide S.Get, S.Step;
    lost := StoreLosesAtMost(cfg, st, R.OpDelete(key), s.cache, Entry([], 0, 0), now, later);
  }

  lemma ClearLosesAll(cfg: S.Config, st: S.State, s: State, now: int, later: int)
    requires cfg.Ok() && S.StoreOk(cfg, st) && Shows(cfg, st, now, s.cache) && now <= later && !s.closed
    ensures Shows(cfg, S.Step(cfg, st, R.OpClear), later, CacheDrop(s, s.cache.Keys))
  {
    hide S.Get, S.Step;
    var lost := StoreLosesAtMost(cfg, st, R.OpClear, s.cache, Entry([], 0, 0), now, later);
    assert Effect(s.cache, R.OpClear, Entry([], 0, 0)) - lost == CacheDrop(s, s.cache.Keys);
  }

  /**
   A late write leaves the store as it is; since the key's entry has expired by
   then, that is the protocol's late put.
   */
  lemma LateLosesAtMost(cfg: S.Config, st: S.State, s: State, key: string, e: Entry, now: int, later: int)
    returns (lost: set<string>)
    requires cfg.Ok() && S.StoreOk(cfg, st) && Shows(cfg, st, now, s.cache) && now <= later && !s.closed
    requires S.Get(cfg, st, key, later).None?
    ensures Shows(cfg, st, later, CachePut(s, key, e, true) - lost)
  {
    hide S.Get;
    lost := set k | k in s.cache && S.Get(cfg, st, k, later).None?;
    forall k
      ensures S.Get(cfg, st, k, later).Some? ==> S.Get(cfg, st, k, now) == S.Get(cfg, st, k, later)
    {
      FoundEarlier(cfg, st, k, now, later);
    }
  }

  lemma FoundEarlier(cfg: S.Config, st: S.State, k: string, now: int, later: int)
    requires cfg.Ok() && |st| == cfg.count && now <= later
    ensures S.Get(cfg, st, k, later).Some? ==> S.Get(cfg, st, k, now) == S.Get(cfg, st, k, later)
  {
  }
}
