/**
 The sharded LRU of store/sharded_lru.go as functions on values: shard count
 and budget arithmetic, the masked shard index, and runs of a sharded store
 compared with runs of one store.
 */
module ShardedModel {
  import opened Common
  import M = LruModel
  import R = LruRuns
  import B = LruBudget

  // ---- Powers of two and masks -------------------------------------------

  function Pow2(k: nat): (r: nat)
    ensures r > 0
  {
    if k == 0 then 1 else 2 * Pow2(k - 1)
  }

  ghost predicate IsPow2(n: int) {
    exists k: nat :: n == Pow2(k)
  }

  /** Bitwise conjunction of naturals. */
  function And(a: nat, b: nat): nat {
    if a == 0 || b == 0 then 0 else (a % 2) * (b % 2) + 2 * And(a / 2, b / 2)
  }

  /** Masking with a power of two minus one is taking the remainder. */
  lemma {:induction false} MaskIsMod(a: nat, k: nat)
    ensures And(a, Pow2(k) - 1) == a % Pow2(k)
    decreases k
  {
    hide And;
    if k == 0 {
      AndZero(a);
    } else {
      MaskIsMod(a / 2, k - 1);
      MaskStep(a, Pow2(k - 1));
    }
  }

  lemma AndZero(a: nat)
    ensures And(a, 0) == 0 == a % 1
  {
  }

  lemma MaskStep(a: nat, p: nat)
    requires p > 0 && And(a / 2, p - 1) == (a / 2) % p
    ensures And(a, 2 * p - 1) == a % (2 * p)
  {
    hide And;
    AndOdd(a, p);
    HalfMod(a, p);
  }

  lemma AndOdd(a: nat, p: nat)
    requires p > 0
    ensures And(a, 2 * p - 1) == a % 2 + 2 * And(a / 2, p - 1)
  {
  }

  lemma HalfMod(a: nat, p: nat)
    requires p > 0
    ensures a % (2 * p) == a % 2 + 2 * ((a / 2) % p)
  {
    var q, r := (a / 2) / p, (a / 2) % p;
    assert a == 2 * (a / 2) + a % 2;
    assert a / 2 == q * p + r;
    assert a == q * (2 * p) + (2 * r + a % 2);
    DivModUnique(a, 2 * p, q, 2 * r + a % 2);
  }

  lemma DivModUnique(a: int, n: int, q: int, r: int)
    requires n > 0 && a == q * n + r && 0 <= r < n
    ensures a % n == r && a / n == q
  {
    var d := a / n - q;
    assert d == 0 || d * n >= n || d * n <= -n;
    assert a == (a / n) * n + a % n;
    assert d * n == r - a % n;
  }

  lemma {:induction false} Pow2Monotone(j: nat, k: nat)
    requires j <= k
    ensures Pow2(j) <= Pow2(k)
  {
    if j < k {
      Pow2Monotone(j, k - 1);
    }
  }

  /** nextPowerOfTwo: the least power of two at least `n`; no step passes 2^62 when `n` does not. */
  method NextPowerOfTwo(n: int) returns (p: nat)
    ensures IsPow2(p) && p >= n
    ensures forall q: int :: IsPow2(q) && q >= n ==> p <= q
    ensures n <= Pow2(62) ==> p <= Pow2(62)
  {
    assert Pow2(0) == 1;
    if n <= 1 {
      return 1;
    }
    p := 1;
    ghost var k: nat := 0;
    while p < n
      invariant p == Pow2(k) && (k > 0 ==> Pow2(k - 1) < n)
      decreases n - p
    {
      p := 2 * p;
      k := k + 1;
    }
    forall q: int | IsPow2(q) && q >= n
      ensures p <= q
    {
      var j: nat :| q == Pow2(j);
      if k > 0 && j <= k - 1 {
        Pow2Monotone(j, k - 1);
      } else {
        Pow2Monotone(k, j);
      }
    }
    assert IsPow2(Pow2(62));
  }

  /** The number of shards asked for. */
  function Wanted(requested: int): int {
    if requested <= 0 then 16 else requested
  }

  /**
   `count` is the largest power of two up to the least one at or above the number
   asked for that leaves at least 1 KiB per shard, when there is a budget.
   */
  ghost predicate CountFits(requested: int, maxBytes: int, count: nat) {
    && IsPow2(count)
    && (forall q: int :: IsPow2(q) && q >= Wanted(requested) ==> count <= q)
    && (maxBytes > 0 && count > 1 ==> maxBytes / count >= 1024)
    && (count < Wanted(requested) ==> maxBytes > 0 && maxBytes / (2 * count) < 1024)
  }

  /** The shard count of newShardedLRU. */
  method ShardCount(requested: int, maxBytes: int) returns (count: nat)
    ensures CountFits(requested, maxBytes, count)
  {
    var want := Wanted(requested);
    count := NextPowerOfTwo(want);
    if maxBytes > 0 {
      while count > 1 && maxBytes / count < 1024
        invariant IsPow2(count)
        invariant count >= want || maxBytes / (2 * count) < 1024
        invariant forall q: int :: IsPow2(q) && q >= want ==> count <= q
      {
        var k: nat :| count == Pow2(k);
        assert k > 0;
        assert count / 2 == Pow2(k - 1);
        assert 2 * (count / 2) == count;
        count := count / 2;
      }
    }
  }

  // ---- Budgets -------------------------------------------------------------

  /** The budget of shard `i`; a store without a budget has shards without one. */
  function Budget(maxBytes: int, count: nat, i: nat): int
    requires count > 0
  {
    if maxBytes <= 0 then maxBytes
    else maxBytes / count + (if i < maxBytes % count then 1 else 0)
  }

  function SumBudgets(maxBytes: int, count: nat, n: nat): int
    requires count > 0
  {
    if n == 0 then 0 else SumBudgets(maxBytes, count, n - 1) + Budget(maxBytes, count, n - 1)
  }

  lemma {:induction false} PartialBudgets(maxBytes: int, count: nat, n: nat)
    requires count > 0 && maxBytes > 0
    ensures SumBudgets(maxBytes, count, n) ==
      n * (maxBytes / count) + (if n < maxBytes % count then n else maxBytes % count)
  {
    if n > 0 {
      PartialBudgets(maxBytes, count, n - 1);
      assert n * (maxBytes / count) == (n - 1) * (maxBytes / count) + maxBytes / count;
    } else {
      assert 0 * (maxBytes / count) == 0;
    }
  }

  /** A positive budget is split exactly, and every share is positive, so no shard is taken for unlimited. */
  lemma BudgetsExact(maxBytes: int, count: nat)
    requires maxBytes > 0 && count > 0 && (count > 1 ==> maxBytes / count >= 1024)
    ensures SumBudgets(maxBytes, count, count) == maxBytes
    ensures forall i: nat :: i < count ==> Budget(maxBytes, count, i) > 0
  {
    PartialBudgets(maxBytes, count, count);
    assert count * (maxBytes / count) + maxBytes % count == maxBytes;
    if count == 1 {
      assert maxBytes / count == maxBytes;
    }
  }

  // ---- The store -----------------------------------------------------------

  /** Static configuration: total budget, number of shards and key hash. */
  datatype Config = Config(maxBytes: int, count: nat, hash: string -> uint32) {
    ghost predicate Ok() {
      IsPow2(count) && (maxBytes > 0 && count > 1 ==> maxBytes / count >= 1024)
    }

    /** The shard of a key: the low bits of its hash. */
    function Index(key: string): (i: nat)
      requires Ok()
      ensures i < count && i == hash(key) % count
    {
      assert And(hash(key), count - 1) == hash(key) % count by {
        var k: nat :| count == Pow2(k);
        MaskIsMod(hash(key), k);
      }
      And(hash(key), count - 1)
    }

    function Share(i: nat): int
      requires count > 0
    {
      Budget(maxBytes, count, i)
    }
  }

  /** One abstract LRU state per shard. */
  type State = seq<M.State>

  predicate Keyed(op: R.Op) {
    op.OpGet? || op.OpSet? || op.OpDelete?
  }

  /** An operation on a key reaches its shard only; Clear and cleanup reach all of them. */
  predicate Reaches(cfg: Config, op: R.Op, i: nat)
    requires cfg.Ok()
  {
    Keyed(op) ==> cfg.Index(op.key) == i
  }

  function Step(cfg: Config, st: State, op: R.Op): (r: State)
    requires cfg.Ok() && |st| == cfg.count
    ensures |r| == cfg.count
  {
    seq(cfg.count, i requires 0 <= i < cfg.count =>
      if Reaches(cfg, op, i) then R.Step(st[i], op, cfg.Share(i)) else st[i])
  }

  lemma StepOne(cfg: Config, before: State, after: State, op: R.Op)
    requires cfg.Ok() && |before| == |after| == cfg.count && Keyed(op)
    requires after[cfg.Index(op.key)] == R.Step(before[cfg.Index(op.key)], op, cfg.Share(cfg.Index(op.key)))
    requires forall i :: 0 <= i < cfg.count && i != cfg.Index(op.key) ==> after[i] == before[i]
    ensures after == Step(cfg, before, op)
  {
  }

  /** Every shard is well formed, within its share, and holds only its own keys. */
  ghost predicate StoreOk(cfg: Config, st: State)
    requires cfg.Ok()
  {
    && |st| == cfg.count
    && forall i: nat :: i < |st| ==> M.Valid(st[i]) && M.Fits(st[i].list, cfg.Share(i)) && Placed(cfg, st[i], i)
  }

  /** The keys of a shard all belong there. */
  ghost predicate Placed(cfg: Config, shard: M.State, i: nat)
    requires cfg.Ok()
  {
    forall e :: e in shard.list ==> cfg.Index(e.key) == i
  }

  lemma StepStoreOk(cfg: Config, st: State, op: R.Op)
    requires cfg.Ok() && StoreOk(cfg, st)
    ensures StoreOk(cfg, Step(cfg, st, op))
  {
    forall i: nat | i < cfg.count
      ensures M.Valid(Step(cfg, st, op)[i]) && M.Fits(Step(cfg, st, op)[i].list, cfg.Share(i))
      ensures Placed(cfg, Step(cfg, st, op)[i], i)
    {
      assert Placed(cfg, st[i], i);
      R.StepValid(st[i], op, cfg.Share(i));
      StepPlaced(cfg, st, op, i);
    }
  }

  lemma StepPlaced(cfg: Config, st: State, op: R.Op, i: nat)
    requires cfg.Ok() && |st| == cfg.count && i < cfg.count && M.Valid(st[i]) && Placed(cfg, st[i], i)
    ensures Placed(cfg, Step(cfg, st, op)[i], i)
  {
    hide R.Step;
    forall e | e in Step(cfg, st, op)[i].list
      ensures cfg.Index(e.key) == i
    {
      if Reaches(cfg, op, i) {
        R.StepEntries(st[i], op, cfg.Share(i), e);
      }
    }
  }

  /** What a step leaves in a shard was there before with the same deadline, or is what it wrote. */
  lemma StepEntries(cfg: Config, st: State, op: R.Op, i: nat, e: M.Entry)
    requires cfg.Ok() && StoreOk(cfg, st) && i < cfg.count && e in Step(cfg, st, op)[i].list
    ensures || (e in st[i].list && R.Deadline(Step(cfg, st, op)[i], e.key) == R.Deadline(st[i], e.key))
            || R.Wrote(op, e, R.Deadline(Step(cfg, st, op)[i], e.key))
  {
    if Reaches(cfg, op, i) {
      R.StepEntries(st[i], op, cfg.Share(i), e);
    }
  }

  /** Right after a write the key, if it stayed, is in its shard with the value and the deadline asked for. */
  lemma SetStamps(cfg: Config, st: State, op: R.Op, i: nat, e: M.Entry)
    requires cfg.Ok() && StoreOk(cfg, st) && op.OpSet? && op.value.Some?
    requires i < cfg.count && e in Step(cfg, st, op)[i].list && e.key == op.key
    ensures cfg.Index(op.key) == i && e.value == op.value.value
    ensures R.Deadline(Step(cfg, st, op)[i], e.key) == if op.ttl > 0 then Some(op.stamped + op.ttl) else None
  {
    hide R.Step;
    assert Placed(cfg, st[i], i);
    if Reaches(cfg, op, i) {
      R.SetStamps(st[i], op, cfg.Share(i));
    }
  }

  lemma StepAll(cfg: Config, before: State, after: State, op: R.Op)
    requires cfg.Ok() && |before| == |after| == cfg.count && !Keyed(op)
    requires forall i :: 0 <= i < cfg.count ==> after[i] == R.Step(before[i], op, cfg.Share(i))
    ensures after == Step(cfg, before, op)
  {
  }

  function Init(cfg: Config): (r: State)
    ensures |r| == cfg.count
  {
    seq(cfg.count, _ => M.EMPTY)
  }

  function Run(cfg: Config, ops: seq<R.Op>): (r: State)
    requires cfg.Ok()
    ensures |r| == cfg.count
  {
    if ops == [] then Init(cfg)
    else Step(cfg, Run(cfg, ops[..|ops| - 1]), ops[|ops| - 1])
  }

  function Get(cfg: Config, st: State, key: string, now: int): Option<Bytes>
    requires cfg.Ok() && |st| == cfg.count
  {
    M.Get(st[cfg.Index(key)], key, now).1
  }

  /** The operations that reach shard `i`, in order. */
  function Project(cfg: Config, ops: seq<R.Op>, i: nat): seq<R.Op>
    requires cfg.Ok()
  {
    if ops == [] then []
    else
      var earlier := Project(cfg, ops[..|ops| - 1], i);
      if Reaches(cfg, ops[|ops| - 1], i) then earlier + [ops[|ops| - 1]] else earlier
  }

  /** Each shard is exactly a lone LRU with its share of the budget, driven by the operations that reach it. */
  lemma {:induction false} ShardIsLoneStore(cfg: Config, ops: seq<R.Op>, i: nat)
    requires cfg.Ok() && i < cfg.count
    ensures Run(cfg, ops)[i] == R.Run(Project(cfg, ops, i), cfg.Share(i))
  {
    if ops != [] {
      var earlier, op := ops[..|ops| - 1], ops[|ops| - 1];
      ShardIsLoneStore(cfg, earlier, i);
      if Reaches(cfg, op, i) {
        var part := Project(cfg, earlier, i);
        assert (part + [op])[..|part|] == part;
      }
    }
  }

  lemma {:induction false} ProjectKeepsWrites(cfg: Config, ops: seq<R.Op>, key: string)
    requires cfg.Ok()
    ensures R.LastWrite(Project(cfg, ops, cfg.Index(key)), key) == R.LastWrite(ops, key)
  {
    hide Config.Index, Config.Ok;
    if ops != [] {
      var earlier, op := ops[..|ops| - 1], ops[|ops| - 1];
      ProjectKeepsWrites(cfg, earlier, key);
      var part := Project(cfg, earlier, cfg.Index(key));
      assert (part + [op])[..|part|] == part;
    }
  }

  lemma ClockedLater(ops: seq<R.Op>, t: int, now: int)
    requires R.Clocked(ops, t) && t <= now
    ensures R.Clocked(ops, now)
  {
  }

  lemma {:induction false} ProjectClocked(cfg: Config, ops: seq<R.Op>, i: nat, now: int)
    requires cfg.Ok() && R.Clocked(ops, now)
    ensures R.Clocked(Project(cfg, ops, i), now)
  {
    if ops != [] {
      var earlier, op := ops[..|ops| - 1], ops[|ops| - 1];
      var part := Project(cfg, earlier, i);
      assert (part + [op])[..|part|] == part;
      ProjectClocked(cfg, earlier, i, R.Before(op, now));
      ClockedLater(part, R.Before(op, now), now);
    }
  }

  /** A store of one shard is one LRU store with the whole budget. */
  lemma {:induction false} OneShardIsPlain(cfg: Config, ops: seq<R.Op>)
    requires cfg.Ok() && cfg.count == 1
    ensures Run(cfg, ops) == [R.Run(ops, cfg.maxBytes)]
  {
    assert cfg.Share(0) == cfg.maxBytes;
    if ops != [] {
      OneShardIsPlain(cfg, ops[..|ops| - 1]);
      assert Reaches(cfg, ops[|ops| - 1], 0);
    }
  }

  /** A hit of the sharded store is the live last write of the whole run, as for one store. */
  lemma ShardedHitIsLatestWrite(cfg: Config, ops: seq<R.Op>, key: string, now: int)
    requires cfg.Ok()
    ensures var hit := Get(cfg, Run(cfg, ops), key, now);
            hit.Some? ==> hit == R.LiveValue(R.LastWrite(ops, key), now)
  {
    var i := cfg.Index(key);
    ShardIsLoneStore(cfg, ops, i);
    R.HitIsLatestWrite(Project(cfg, ops, i), cfg.Share(i), key, now);
    ProjectKeepsWrites(cfg, ops, key);
  }

  /** Without a budget the sharded store and one store answer every Get alike after every run. */
  lemma ShardedIsOneStore(cfg: Config, ops: seq<R.Op>, key: string, now: int)
    requires cfg.Ok() && cfg.maxBytes <= 0 && R.Clocked(ops, now)
    ensures Get(cfg, Run(cfg, ops), key, now) == M.Get(R.Run(ops, 0), key, now).1
  {
    var i := cfg.Index(key);
    ShardIsLoneStore(cfg, ops, i);
    ProjectClocked(cfg, ops, i, now);
    R.UnlimitedIsExact(Project(cfg, ops, i), cfg.Share(i), key, now);
    ProjectKeepsWrites(cfg, ops, key);
    R.UnlimitedIsExact(ops, 0, key, now);
  }

  // ---- Where keys live and how much is stored ------------------------------

  lemma StepKeys(st: M.State, op: R.Op, maxBytes: int, k: string)
    requires M.Valid(st) && k in M.Keys(R.Step(st, op, maxBytes).list)
    ensures k in M.Keys(st.list) || (op.OpSet? && op.key == k)
  {
    var e :| e in R.Step(st, op, maxBytes).list && e.key == k;
    R.StepEntries(st, op, maxBytes, e);
  }

  /** Each key lives only in its masked shard. */
  lemma {:induction false} KeysInTheirShard(cfg: Config, ops: seq<R.Op>, i: nat, k: string)
    requires cfg.Ok() && i < cfg.count && k in M.Keys(Run(cfg, ops)[i].list)
    ensures cfg.Index(k) == i
  {
    var earlier, op := ops[..|ops| - 1], ops[|ops| - 1];
    var before := Run(cfg, earlier)[i];
    if k in M.Keys(before.list) {
      KeysInTheirShard(cfg, earlier, i, k);
    } else {
      ShardIsLoneStore(cfg, earlier, i);
      R.RunValid(Project(cfg, earlier, i), cfg.Share(i));
      StepKeys(before, op, cfg.Share(i), k);
    }
  }

  function Stored(st: State): nat {
    if st == [] then 0 else Stored(st[..|st| - 1]) + M.Total(st[|st| - 1].list)
  }

  lemma {:induction false} StoredWithinShares(cfg: Config, st: State, n: nat)
    requires 0 < cfg.count && n <= |st| == cfg.count
    requires forall i: nat :: i < cfg.count ==> M.Total(st[i].list) <= cfg.Share(i)
    ensures Stored(st[..n]) <= SumBudgets(cfg.maxBytes, cfg.count, n)
  {
    if n > 0 {
      StoredWithinShares(cfg, st, n - 1);
      assert st[..n][..n - 1] == st[..n - 1];
    }
  }

  /** Over any run the bytes stored in all shards together never exceed a positive budget. */
  lemma TotalWithinBudget(cfg: Config, ops: seq<R.Op>)
    requires cfg.Ok() && cfg.maxBytes > 0
    ensures Stored(Run(cfg, ops)) <= cfg.maxBytes
  {
    var st := Run(cfg, ops);
    BudgetsExact(cfg.maxBytes, cfg.count);
    forall i: nat | i < cfg.count
      ensures M.Total(st[i].list) <= cfg.Share(i)
    {
      ShardIsLoneStore(cfg, ops, i);
      R.RunValid(Project(cfg, ops, i), cfg.Share(i));
    }
    StoredWithinShares(cfg, st, cfg.count);
    assert st[..cfg.count] == st;
  }

  // ---- What the budget takes away -------------------------------------------

  /** A write keeps, in the shard of its key, the longest unexpired part that fits the share; the others stay. */
  lemma SetKeepsLongest(cfg: Config, st: State, op: R.Op, i: nat)
    requires cfg.Ok() && StoreOk(cfg, st) && op.OpSet? && op.value.Some? && i < cfg.count
    ensures if i == cfg.Index(op.key) then
              B.KeepsLongest(M.Live(B.Asked(st[i], op), op.now), Step(cfg, st, op)[i].list, cfg.Share(i))
            else Step(cfg, st, op)[i] == st[i]
  {
    hide R.Step;
    B.SetKeepsLongest(st[i], op, cfg.Share(i));
  }

  /** A cleanup leaves no expired entry in any shard, and of the others the longest part that fits the share. */
  lemma CleanupKeepsLongest(cfg: Config, st: State, now: int, i: nat)
    requires cfg.Ok() && StoreOk(cfg, st) && i < cfg.count
    ensures var kept := Step(cfg, st, R.OpCleanup(now))[i].list;
            && B.KeepsLongest(M.Live(st[i], now), kept, cfg.Share(i))
            && forall e :: e in kept ==> !M.Expired(st[i], e.key, now)
  {
    hide R.Step;
    B.CleanupKeepsLongest(st[i], now, cfg.Share(i));
  }

  /** While what reaches a shard always fits its share, the keys of that shard are answered exactly. */
  lemma ShardedRoomyIsExact(cfg: Config, ops: seq<R.Op>, key: string, now: int)
    requires cfg.Ok() && R.Clocked(ops, now)
    requires B.Roomy(Project(cfg, ops, cfg.Index(key)), cfg.Share(cfg.Index(key)))
    ensures Get(cfg, Run(cfg, ops), key, now) == R.LiveValue(R.LastWrite(ops, key), now)
  {
    var i := cfg.Index(key);
    ShardIsLoneStore(cfg, ops, i);
    ProjectClocked(cfg, ops, i, now);
    B.RoomyIsExact(Project(cfg, ops, i), cfg.Share(i), key, now);
    ProjectKeepsWrites(cfg, ops, key);
  }
}
