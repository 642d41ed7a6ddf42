/**
 The near cache after a write: against any environment, no Get that follows a
 Set or a Delete returns a near copy stored before it; and against one that
 leaves the near cache alone, what a lookup finds then.
 */
module RoutingNear {
  import opened Common
  import M = LruModel
  import R = LruRuns
  import B = LruBudget
  import S = ShardedModel
  import opened RoutingModel
  import opened Routing
  import opened RoutingWrites
  import opened RoutingResults
  import opened RoutingCalm

  // ---- Against any environment ---------------------------------------------------------------

  /**
   At event `start`, at or after `base`, the epoch was `epoch`; at event `drop`
   the near copy of that epoch was dropped.
   */
  ghost predicate Invalidated(log: seq<Event>, base: nat, key: string, start: nat, epoch: nat, drop: nat) {
    && base <= start <= drop < |log|
    && log[drop].Dropped? && log[drop].name == NearKey(epoch, key) && epoch <= log[drop].epoch
    && forall i :: 0 <= i < start ==> log[i].epoch <= epoch
  }

  ghost predicate HasInvalidation(log: seq<Event>, base: nat, key: string) {
    exists start: nat, epoch: nat, drop: nat :: Invalidated(log, base, key, start, epoch, drop)
  }

  lemma InvalidationKept(log: seq<Event>, more: seq<Event>, base: nat, low: nat, key: string)
    requires HasInvalidation(log, base, key) && Extends(log, more) && low <= base
    ensures HasInvalidation(more, low, key)
  {
    var start: nat, epoch: nat, drop: nat :| Invalidated(log, base, key, start, epoch, drop);
    assert Invalidated(more, low, key, start, epoch, drop);
  }

  lemma DropNearInvalidates(cfg: Config, env: Env, s: Node, key: string)
    requires Inv(cfg, s) && EnvOk(cfg, env) && cfg.near && cfg.peers
    ensures var r := DropNear(cfg, env, s, key); r.closed || HasInvalidation(r.log, |s.log|, key)
  {
    hide NearDrop;
    var a := Tick(cfg, env, s);
    var r := DropNear(cfg, env, s, key);
    if !r.closed {
      assert Invalidated(r.log, |s.log|, key, |a.log|, a.epoch, |r.log| - 1);
    }
  }

  lemma InvalidateDrops(cfg: Config, env: Env, s: Node, key: string)
    requires Inv(cfg, s) && EnvOk(cfg, env) && cfg.near && cfg.peers
    ensures var r := Invalidate(cfg, env, s, key); r.closed || HasInvalidation(r.log, |s.log|, key)
  {
    hide Inv, Pick, Tick, DropNear, HasInvalidation;
    var a := Pick(cfg, env, s, key).0;
    var b := DropNear(cfg, env, a, key);
    DropNearInvalidates(cfg, env, a, key);
    if !b.closed {
      InvalidationKept(b.log, Tick(cfg, env, b).log, |a.log|, |s.log|, key);
    }
  }

  /** A Delete without error has dropped the near copy, after the agreement on it. */
  lemma DeleteInvalidates(cfg: Config, env: Env, s: Node, key: string)
    requires Inv(cfg, s) && EnvOk(cfg, env) && cfg.near && cfg.peers
    ensures var (after, r) := Delete(cfg, env, s, key);
            r.Written? ==> after.closed || HasInvalidation(after.log, r.exit.trail.last + 1, key)
  {
    hide Inv, DeleteLoop, Invalidate, HasInvalidation;
    if !s.closed && key != "" {
      var (a, r) := DeleteLoop(cfg, env, s, key, 0);
      if r.Written? {
        InvalidateDrops(cfg, env, a, key);
        var after := Invalidate(cfg, env, a, key);
        if !after.closed {
          InvalidationKept(after.log, after.log, |a.log|, r.exit.trail.last + 1, key);
        }
      }
    }
  }

  /** So has a Set under agreement. */
  lemma SetInvalidates(cfg: Config, env: Env, s: Node, key: string, value: Bytes)
    requires Inv(cfg, s) && EnvOk(cfg, env) && cfg.near && cfg.peers
    ensures var (after, r) := Set(cfg, env, s, key, value);
            Succeeded(r) ==> after.closed || HasInvalidation(after.log, r.exit.trail.last + 1, key)
  {
    hide Inv, SetLoop, Invalidate, Refill, HasInvalidation;
    if !s.closed && key != "" && value != [] {
      var (a, r) := SetLoop(cfg, env, s, key, value, 0, []);
      if Succeeded(r) {
        InvalidateDrops(cfg, env, a, key);
        var b := Invalidate(cfg, env, a, key);
        Carry(a.log, b.log, key, value, r.exit);
        var after := Refill(cfg, env, b, key, value, r.exit);
        if !b.closed {
          InvalidationKept(b.log, after.log, |a.log|, r.exit.trail.last + 1, key);
        }
      }
    }
  }

  /** A near value that a Get returns after an invalidation was stored after its start. */
  lemma HitIsNewer(cfg: Config, env: Env, s: Node, key: string, base: nat) returns (kind: Kind, stored: nat)
    requires Inv(cfg, s) && EnvOk(cfg, env) && cfg.peers && HasInvalidation(s.log, base, key)
    requires Get(cfg, env, s, key).1.Value? && Get(cfg, env, s, key).1.via == ByNear
    ensures var (after, r) := Get(cfg, env, s, key);
            && base <= stored < r.trail.mid < |after.log| && after.log[r.trail.mid].Hit?
            && NearTruthAt(cfg, after.log, r.trail.mid, key, r.value, r.owner, r.epoch, kind, stored)
  {
    hide Inv, Get;
    var (after, r) := Get(cfg, env, s, key);
    GetIsJustified(cfg, env, s, key);
    NearValueIsTrue(cfg, env, s, key);
    kind, stored :| stored < r.trail.mid
      && NearTruthAt(cfg, after.log, r.trail.mid, key, r.value, r.owner, r.epoch, kind, stored);
    var start: nat, epoch: nat, drop: nat :| Invalidated(s.log, base, key, start, epoch, drop);
    LaterEpoch(cfg, after, drop, r.trail.first);
    StoredLater(cfg, after.log, key, r, kind, stored, start, epoch, drop);
  }

  lemma LaterEpoch(cfg: Config, s: Node, i: nat, j: nat)
    requires Inv(cfg, s) && i < j < |s.log|
    ensures s.log[i].epoch <= s.log[j].epoch
  {
  }

  lemma StoredLater(cfg: Config, log: seq<Event>, key: string, r: GetResult, kind: Kind, stored: nat, start: nat,
                    epoch: nat, drop: nat)
    requires r.Value? && stored < r.trail.mid < |log| && log[r.trail.mid].Hit?
    requires NearTruthAt(cfg, log, r.trail.mid, key, r.value, r.owner, r.epoch, kind, stored)
    requires drop < r.trail.mid && start <= drop && epoch <= r.epoch
    requires log[drop].Dropped? && log[drop].name == NearKey(epoch, key)
    requires forall i :: 0 <= i < start ==> log[i].epoch <= epoch
    ensures start <= stored
  {
    if r.epoch == epoch {
      assert stored < drop ==> Touches(log[..r.trail.mid][drop], NearKey(epoch, key));
    } else {
      var i: nat, j: nat, l: nat :| AgreedAt(log[..stored], kind, key, r.owner, r.value, r.epoch, i, j, l);
      assert log[i].epoch == r.epoch;
    }
  }

  /**
   Against any environment: a near value that a Get returns after a Delete of the
   key has returned nil was stored after the owner had carried out that delete.
   */
  lemma NearIsNewerThanDelete(cfg: Config, env: Env, s: Node, key: string, next: Env, later: Node)
    returns (kind: Kind, stored: nat)
    requires Inv(cfg, s) && EnvOk(cfg, env) && cfg.near && cfg.peers && Delete(cfg, env, s, key).1.Written?
    requires Rely(cfg, Delete(cfg, env, s, key).0, later) && EnvOk(cfg, next)
    requires Get(cfg, next, later, key).1.Value? && Get(cfg, next, later, key).1.via == ByNear
    ensures var (after, r) := Get(cfg, next, later, key);
            && Delete(cfg, env, s, key).1.exit.Stable?
            && Delete(cfg, env, s, key).1.exit.trail.mid < stored < r.trail.mid < |after.log|
            && after.log[r.trail.mid].Hit?
            && NearTruthAt(cfg, after.log, r.trail.mid, key, r.value, r.owner, r.epoch, kind, stored)
  {
    hide Inv, Delete, Get, HasInvalidation, NearTruthAt, Extends;
    var (done, w) := Delete(cfg, env, s, key);
    DeleteInvalidates(cfg, env, s, key);
    DeleteMeansDeleted(cfg, env, s, key);
    ClosedGetFails(cfg, next, later, key);
    InvalidationKept(done.log, later.log, w.exit.trail.last + 1, w.exit.trail.last + 1, key);
    kind, stored := HitIsNewer(cfg, next, later, key, w.exit.trail.last + 1);
  }

  lemma ClosedGetFails(cfg: Config, env: Env, s: Node, key: string)
    requires Inv(cfg, s) && EnvOk(cfg, env)
    ensures s.closed ==> Get(cfg, env, s, key).1.GetError?
  {
    hide Inv, GetLoop, GetLocal;
  }

  /** The same after a Set under agreement. */
  lemma NearIsNewerThanSet(cfg: Config, env: Env, s: Node, key: string, value: Bytes, next: Env, later: Node)
    returns (kind: Kind, stored: nat)
    requires Inv(cfg, s) && EnvOk(cfg, env) && cfg.near && cfg.peers && Succeeded(Set(cfg, env, s, key, value).1)
    requires Rely(cfg, Set(cfg, env, s, key, value).0, later) && EnvOk(cfg, next)
    requires Get(cfg, next, later, key).1.Value? && Get(cfg, next, later, key).1.via == ByNear
    ensures var (after, r) := Get(cfg, next, later, key);
            && Set(cfg, env, s, key, value).1.exit.trail.mid < stored < r.trail.mid < |after.log|
            && after.log[r.trail.mid].Hit?
            && NearTruthAt(cfg, after.log, r.trail.mid, key, r.value, r.owner, r.epoch, kind, stored)
  {
    hide Inv, Set, Get, HasInvalidation, NearTruthAt, Extends, RunsOut, AllRefused;
    var (done, w) := Set(cfg, env, s, key, value);
    SetInvalidates(cfg, env, s, key, value);
    SetMeansWritten(cfg, env, s, key, value);
    ClosedGetFails(cfg, next, later, key);
    InvalidationKept(done.log, later.log, w.exit.trail.last + 1, w.exit.trail.last + 1, key);
    kind, stored := HitIsNewer(cfg, next, later, key, w.exit.trail.last + 1);
  }

  /** A near copy whose owner or epoch has changed since the lookup is dropped, not served. */
  lemma UnconfirmedIsDropped(cfg: Config, env: Env, s: Node, a: Node, key: string, owner: string, value: Bytes)
    requires Inv(cfg, s) && EnvOk(cfg, env) && Rely(cfg, s, a)
    requires s.log != [] && s.log[|s.log| - 1] == Picked(key, owner, s.epoch)
    requires |s.log| < |a.log| && a.log[|a.log| - 1] == Hit(NearKey(s.epoch, key), value, a.clock, a.epoch)
    ensures var (after, hit) := ConfirmHit(cfg, env, s, a, key, owner, value);
            && (hit.None? <==> Pick(cfg, env, a, key).0.epoch != s.epoch)
            && (hit.None? ==>
                || after.closed
                || (after.log != [] && after.log[|after.log| - 1] == Dropped(NearKey(s.epoch, key), after.epoch)))
  {
    hide Inv, Pick, NearDrop, NearHit;
    var b := Pick(cfg, env, a, key).0;
    PickIsTrue(cfg, s, |s.log| - 1);
    PickIsTrue(cfg, b, |b.log| - 1);
  }

  // ---- Against an environment that leaves the near cache alone -----------------------------------

  /** The environment keeps the epoch, the near cache and whether the group is closed. */
  ghost predicate HandsOff(cfg: Config, env: Env) {
    Calm(cfg, env) && forall n, s :: Inv(cfg, s) ==> env.step(n, s).near == s.near
  }

  /** What a near-cache lookup of the key finds at time `now`. */
  function Near(cfg: Config, s: Node, key: string, now: int): Option<Bytes>
    requires Inv(cfg, s)
  {
    S.Get(cfg.store, s.near, NearKey(s.epoch, key), now)
  }

  lemma NearTick(cfg: Config, env: Env, s: Node)
    requires Inv(cfg, s) && EnvOk(cfg, env) && HandsOff(cfg, env)
    ensures Same(s, Tick(cfg, env, s)) && Tick(cfg, env, s).near == s.near
  {
    hide Inv;
  }

  lemma NearPick(cfg: Config, env: Env, s: Node, key: string)
    requires Inv(cfg, s) && EnvOk(cfg, env) && HandsOff(cfg, env)
    ensures var a := Pick(cfg, env, s, key).0; Same(s, a) && a.near == s.near
  {
    hide Inv, Tick;
    NearTick(cfg, env, s);
  }

  lemma DropMisses(cfg: Config, s: Node, name: string, now: int)
    requires Inv(cfg, s)
    ensures S.Get(cfg.store, S.Step(cfg.store, s.near, R.OpDelete(name)), name, now).None?
  {
  }

  lemma DropNearMisses(cfg: Config, env: Env, s: Node, key: string, now: int)
    requires Inv(cfg, s) && EnvOk(cfg, env) && HandsOff(cfg, env) && cfg.near && cfg.peers
    ensures var r := DropNear(cfg, env, s, key); Same(s, r) && (r.closed || Near(cfg, r, key, now).None?)
  {
    hide Inv, Tick, S.Step, S.Get;
    NearTick(cfg, env, s);
    var a := Tick(cfg, env, s);
    NearTick(cfg, env, a);
    DropMisses(cfg, Tick(cfg, env, a), NearKey(a.epoch, key), now);
  }

  /** The invalidation after a write drops the near copy of the current epoch. */
  lemma InvalidateMisses(cfg: Config, env: Env, s: Node, key: string, now: int)
    requires Inv(cfg, s) && EnvOk(cfg, env) && HandsOff(cfg, env) && cfg.near && cfg.peers
    ensures var r := Invalidate(cfg, env, s, key); Same(s, r) && (r.closed || Near(cfg, r, key, now).None?)
  {
    hide Inv, Pick, Tick, DropNear, S.Get;
    NearPick(cfg, env, s, key);
    var a := Pick(cfg, env, s, key).0;
    DropNearMisses(cfg, env, a, key, now);
    NearTick(cfg, env, DropNear(cfg, env, a, key));
  }

  /** So does the mutation of setLocal and deleteLocal on the owner. */
  lemma MutateLeavesNoCopy(cfg: Config, env: Env, s: Node, kind: Kind, key: string, value: Bytes, now: int)
    requires Inv(cfg, s) && EnvOk(cfg, env) && HandsOff(cfg, env) && cfg.near && cfg.peers
    ensures var r := MutateHere(cfg, env, s, kind, key, value).0; r.closed || Near(cfg, r, key, now).None?
  {
    hide Inv, Tick, DropNear, Near;
    DropNearMisses(cfg, env, Answer(cfg, env, s, kind, key, cfg.self, value), key, now);
  }

  /** After a Delete without error a near-cache lookup misses. */
  lemma DeleteLeavesNoCopy(cfg: Config, env: Env, s: Node, key: string, now: int)
    requires Inv(cfg, s) && EnvOk(cfg, env) && HandsOff(cfg, env) && cfg.near && cfg.peers
    requires Delete(cfg, env, s, key).1.Written?
    ensures var after := Delete(cfg, env, s, key).0; after.closed || Near(cfg, after, key, now).None?
  {
    hide Inv, DeleteLoop, Invalidate, Near;
    InvalidateMisses(cfg, env, DeleteLoop(cfg, env, s, key, 0).0, key, now);
  }

  lemma StoreFinds(cfg: Config, s: Node, name: string, value: Bytes, ttl: int, lag: nat, now: int)
    requires Inv(cfg, s)
    ensures S.Get(cfg.store, Store(cfg, s, name, value, ttl, lag).near, name, now) in [None, Some(value)]
  {
    hide S.Step;
    var op := R.OpSet(name, Some(value), ttl, s.clock, s.clock + lag);
    var after := S.Step(cfg.store, s.near, op);
    var i := cfg.store.Index(name);
    var hit := S.Get(cfg.store, after, name, now);
    if hit.Some? {
      S.SetStamps(cfg.store, s.near, op, i, M.Entry(name, hit.value));
    }
  }

  lemma NearPutFinds(cfg: Config, env: Env, s: Node, key: string, epoch: nat, kind: Kind, value: Bytes, now: int)
    requires Inv(cfg, s) && EnvOk(cfg, env) && HandsOff(cfg, env) && Storable(cfg, s.log, key, epoch, kind, value)
    requires epoch == s.epoch
    ensures var r := NearPut(cfg, env, s, key, epoch, kind, value);
            && Same(s, r)
            && (Near(cfg, r, key, now) == Near(cfg, s, key, now) || Near(cfg, r, key, now) in [None, Some(value)])
  {
    hide Inv, Tick, S.Step, S.Get, Storable;
    var a := Tick(cfg, env, s);
    var b := Tick(cfg, env, a);
    var c := Tick(cfg, env, b);
    NearTick(cfg, env, s);
    NearTick(cfg, env, a);
    NearTick(cfg, env, b);
    var ttl := a.clock + cfg.nearTTL - b.clock;
    StoreFinds(cfg, c, NearKey(epoch, key), value, ttl, env.lag(c.tick), now);
  }

  /** A closed near cache is neither filled nor emptied. */
  lemma ClosedNearStays(cfg: Config, env: Env, s: Node, key: string, epoch: nat, kind: Kind, value: Bytes)
    requires Inv(cfg, s) && EnvOk(cfg, env) && HandsOff(cfg, env) && s.closed
    requires Storable(cfg, s.log, key, epoch, kind, value)
    ensures NearPut(cfg, env, s, key, epoch, kind, value).near == s.near
    ensures DropNear(cfg, env, s, key).near == s.near
  {
    hide Inv, Tick, S.Step, Storable;
    var a := Tick(cfg, env, s);
    NearTick(cfg, env, s);
    NearTick(cfg, env, a);
  }

  /** After a Set under agreement a near-cache lookup misses or finds the value set. */
  lemma SetLeavesOnlyItsCopy(cfg: Config, env: Env, s: Node, key: string, value: Bytes, now: int)
    requires Inv(cfg, s) && EnvOk(cfg, env) && HandsOff(cfg, env) && cfg.near && cfg.peers
    requires Succeeded(Set(cfg, env, s, key, value).1)
    ensures var after := Set(cfg, env, s, key, value).0;
            after.closed || Near(cfg, after, key, now) in [None, Some(value)]
  {
    hide Inv, SetLoop, Invalidate, Refill, Near;
    var (a, r) := SetLoop(cfg, env, s, key, value, 0, []);
    InvalidateMisses(cfg, env, a, key, now);
    var b := Invalidate(cfg, env, a, key);
    Carry(a.log, b.log, key, value, r.exit);
    RefillFinds(cfg, env, b, key, value, r.exit, now);
  }

  lemma SameLookup(cfg: Config, s: Node, a: Node, key: string, now: int)
    requires Inv(cfg, s) && Inv(cfg, a) && Same(s, a) && a.near == s.near
    ensures Near(cfg, a, key, now) == Near(cfg, s, key, now)
  {
  }

  /** The second pick after a Set under agreement still names the remote owner: the value may be stored. */
  lemma RefillStorable(cfg: Config, a: Node, key: string, value: Bytes, exit: Exit)
    requires Inv(cfg, a) && exit.Stable? && exit.owner !in [cfg.self, ""]
    requires AgreedOn(a.log, exit.trail, KSet, key, exit.owner, value, exit.epoch)
    ensures Storable(cfg, a.log, key, exit.epoch, KSet, value)
  {
    hide S.StoreOk, NearOk, HitsOk;
    PickIsTrue(cfg, a, exit.trail.first);
    assert AgreedAt(a.log, KSet, key, exit.owner, value, exit.epoch, exit.trail.first, exit.trail.mid, exit.trail.last);
  }

  lemma RefillFinds(cfg: Config, env: Env, s: Node, key: string, value: Bytes, exit: Exit, now: int)
    requires Inv(cfg, s) && EnvOk(cfg, env) && HandsOff(cfg, env) && exit.Stable?
    requires AgreedOn(s.log, exit.trail, KSet, key, exit.owner, value, exit.epoch)
    requires s.closed || Near(cfg, s, key, now).None?
    ensures var r := Refill(cfg, env, s, key, value, exit);
            Same(s, r) && (r.closed || Near(cfg, r, key, now) in [None, Some(value)])
  {
    hide Inv, Pick, Near, NearPut, AgreedOn, Storable;
    NearPick(cfg, env, s, key);
    var (a, picked) := Pick(cfg, env, s, key);
    SameLookup(cfg, s, a, key, now);
    AgreedOnKept(s.log, a.log, exit.trail, KSet, key, exit.owner, value, exit.epoch);
    if picked == exit.owner && a.epoch == exit.epoch && picked != cfg.self && picked != "" {
      RefillStorable(cfg, a, key, value, exit);
      NearPutFinds(cfg, env, a, key, exit.epoch, KSet, value, now);
    }
  }

  // ---- What the next call finds ------------------------------------------------------------------

  /** When the next Get looks into the near cache. */
  function LookupTime(cfg: Config, env: Env, s: Node, key: string): int
    requires Inv(cfg, s) && EnvOk(cfg, env)
  {
    Tick(cfg, env, Pick(cfg, env, s, key).0).clock
  }

  lemma NextLookup(cfg: Config, env: Env, s: Node, key: string)
    requires Inv(cfg, s) && EnvOk(cfg, env) && HandsOff(cfg, env) && cfg.near
    ensures s.clock <= LookupTime(cfg, env, s, key)
    ensures NearFinds(cfg, env, s, key) == Near(cfg, s, key, LookupTime(cfg, env, s, key))
  {
    hide Inv, Pick, Tick, S.Get;
    NearPick(cfg, env, s, key);
    NearTick(cfg, env, Pick(cfg, env, s, key).0);
  }

  /** After a Delete without error on a node that does not own the key, the next Get asks the owner. */
  lemma DeleteThenGet(cfg: Config, env: Env, s: Node, key: string)
    requires Inv(cfg, s) && EnvOk(cfg, env) && HandsOff(cfg, env) && Reachable(env) && cfg.near
    requires Ready(cfg, s, key) && cfg.ownerAt(s.epoch, key) !in [cfg.self, ""]
    requires Delete(cfg, env, s, key).1.Written?
    ensures var after := Delete(cfg, env, s, key).0;
            var reply := env.peer(after.tick + 2);
            !reply.Refused? ==> GetSays(Get(cfg, env, after, key).1, reply, ByPeer, cfg.ownerAt(s.epoch, key), s.epoch)
  {
    hide Inv, Delete, Get, Near, NearFinds, LookupTime;
    var after := Delete(cfg, env, s, key).0;
    DeleteKeeps(cfg, env, s, key);
    NextLookup(cfg, env, after, key);
    var now := LookupTime(cfg, env, after, key);
    DeleteLeavesNoCopy(cfg, env, s, key, now);
    NearMissFetches(cfg, env, after, key);
  }

  lemma DeleteKeeps(cfg: Config, env: Env, s: Node, key: string)
    requires Inv(cfg, s) && EnvOk(cfg, env) && HandsOff(cfg, env) && Reachable(env) && cfg.near
    requires Ready(cfg, s, key) && cfg.ownerAt(s.epoch, key) !in [cfg.self, ""]
    ensures Same(s, Delete(cfg, env, s, key).0)
  {
    hide Inv, DeleteLoop, Invalidate, Near;
    RemoteDeleteLoop(cfg, env, s, key, 0);
    InvalidateMisses(cfg, env, DeleteLoop(cfg, env, s, key, 0).0, key, 0);
  }

  /** After a Set without error there, the next Get returns the value set, or asks the owner. */
  lemma SetThenGet(cfg: Config, env: Env, s: Node, key: string, value: Bytes)
    requires Inv(cfg, s) && EnvOk(cfg, env) && HandsOff(cfg, env) && Reachable(env) && cfg.near
    requires Ready(cfg, s, key) && cfg.ownerAt(s.epoch, key) !in [cfg.self, ""]
    requires Succeeded(Set(cfg, env, s, key, value).1)
    ensures var after := Set(cfg, env, s, key, value).0;
            var (r, reply) := (Get(cfg, env, after, key).1, env.peer(after.tick + 2));
            || GetSays(r, Ok(value), ByNear, cfg.ownerAt(s.epoch, key), s.epoch)
            || (!reply.Refused? ==> GetSays(r, reply, ByPeer, cfg.ownerAt(s.epoch, key), s.epoch))
  {
    hide Inv, Set, Get, Near, NearFinds, LookupTime;
    var after := Set(cfg, env, s, key, value).0;
    SetKeeps(cfg, env, s, key, value);
    NextLookup(cfg, env, after, key);
    var now := LookupTime(cfg, env, after, key);
    SetLeavesOnlyItsCopy(cfg, env, s, key, value, now);
    if NearFinds(cfg, env, after, key).Some? {
      NearHitIsServed(cfg, env, after, key);
    } else {
      NearMissFetches(cfg, env, after, key);
    }
  }

  lemma SetKeeps(cfg: Config, env: Env, s: Node, key: string, value: Bytes)
    requires Inv(cfg, s) && EnvOk(cfg, env) && HandsOff(cfg, env) && Reachable(env) && cfg.near
    requires Ready(cfg, s, key) && cfg.ownerAt(s.epoch, key) !in [cfg.self, ""]
    requires Succeeded(Set(cfg, env, s, key, value).1)
    ensures Same(s, Set(cfg, env, s, key, value).0)
  {
    hide Inv, SetLoop, Invalidate, Refill, Near, AgreedOn;
    RemoteSetLoop(cfg, env, s, key, value, 0, []);
    var (a, r) := SetLoop(cfg, env, s, key, value, 0, []);
    InvalidateMisses(cfg, env, a, key, 0);
    var b := Invalidate(cfg, env, a, key);
    Carry(a.log, b.log, key, value, r.exit);
    RefillFinds(cfg, env, b, key, value, r.exit, 0);
  }

  // ---- Filling the near cache ----------------------------------------------------------------------

  /** The entry fits the share of its shard. */
  predicate FitsNear(cfg: Config, epoch: nat, key: string, value: Bytes)
    requires cfg.store.Ok()
  {
    var name := NearKey(epoch, key);
    var share := cfg.store.Share(cfg.store.Index(name));
    share <= 0 || |name| + |value| <= share
  }

  lemma StoreFills(cfg: Config, s: Node, name: string, value: Bytes, ttl: int, lag: nat, now: int)
    requires Inv(cfg, s) && 0 < ttl && s.clock + lag <= now < s.clock + ttl
    requires var share := cfg.store.Share(cfg.store.Index(name)); share <= 0 || |name| + |value| <= share
    ensures S.Get(cfg.store, Store(cfg, s, name, value, ttl, lag).near, name, now) == Some(value)
  {
    hide R.Step;
    var op := R.OpSet(name, Some(value), ttl, s.clock, s.clock + lag);
    var i := cfg.store.Index(name);
    B.SetStaysIff(s.near[i], op, cfg.store.Share(i));
    R.SetStamps(s.near[i], op, cfg.store.Share(i));
  }

  /** A value kept near is found until nearTTL after the moment it was offered. */
  lemma NearPutFills(cfg: Config, env: Env, s: Node, key: string, epoch: nat, kind: Kind, value: Bytes, now: int)
    requires Inv(cfg, s) && EnvOk(cfg, env) && HandsOff(cfg, env) && Storable(cfg, s.log, key, epoch, kind, value)
    requires epoch == s.epoch && !s.closed && FitsNear(cfg, epoch, key, value)
    requires NearPut(cfg, env, s, key, epoch, kind, value).clock <= now < s.clock + cfg.nearTTL
    ensures Near(cfg, NearPut(cfg, env, s, key, epoch, kind, value), key, now) == Some(value)
  {
    hide Inv, Tick, S.Step, S.Get, Storable;
    var a := Tick(cfg, env, s);
    var b := Tick(cfg, env, a);
    var c := Tick(cfg, env, b);
    NearTick(cfg, env, s);
    NearTick(cfg, env, a);
    NearTick(cfg, env, b);
    var ttl := a.clock + cfg.nearTTL - b.clock;
    StoreFills(cfg, c, NearKey(epoch, key), value, ttl, env.lag(c.tick), now);
  }

  /** A value fetched from the owner is found until nearTTL after the start of the call. */
  lemma GetFills(cfg: Config, env: Env, s: Node, key: string, now: int)
    requires Inv(cfg, s) && EnvOk(cfg, env) && HandsOff(cfg, env) && Reachable(env) && cfg.near && Ready(cfg, s, key)
    requires cfg.ownerAt(s.epoch, key) !in [cfg.self, ""] && NearFinds(cfg, env, s, key).None?
    requires env.peer(s.tick + 2).Ok? && FitsNear(cfg, s.epoch, key, env.peer(s.tick + 2).value)
    ensures var after := Get(cfg, env, s, key).0;
            Same(s, after) &&
            (after.clock <= now < s.clock + cfg.nearTTL ==>
              Near(cfg, after, key, now) == Some(env.peer(s.tick + 2).value))
  {
    hide Inv, Pick, Tick, GetLocal, TryNear, FetchRemote, Near;
    CalmPick(cfg, env, s, key);
    var (a, owner) := Pick(cfg, env, s, key);
    NearMiss(cfg, env, a, key, owner);
    var b := TryNear(cfg, env, a, key, owner).0;
    FetchFills(cfg, env, a, b, key, owner, false, now);
  }

  lemma FetchFills(cfg: Config, env: Env, a: Node, b: Node, key: string, owner: string, last: bool, now: int)
    requires Inv(cfg, a) && EnvOk(cfg, env) && HandsOff(cfg, env) && cfg.near
    requires Rely(cfg, a, b) && Same(a, b) && !a.closed
    requires a.log != [] && a.log[|a.log| - 1] == Picked(key, owner, a.epoch)
    requires owner == cfg.ownerAt(a.epoch, key) && owner !in [cfg.self, ""]
    requires env.peer(b.tick).Ok? && FitsNear(cfg, a.epoch, key, env.peer(b.tick).value)
    ensures var (after, out) := FetchRemote(cfg, env, a, b, key, owner, last);
            out.Stop? && Same(a, after) &&
            (after.clock <= now < a.clock + cfg.nearTTL ==> Near(cfg, after, key, now) == Some(env.peer(b.tick).value))
  {
    hide Inv, Pick, Tick, NearPut, Near, FitsNear;
    CalmTick(cfg, env, b);
    var v := env.peer(b.tick).value;
    var c := Answer(cfg, env, b, KGet, key, owner, v);
    CalmPick(cfg, env, c, key);
    var (d, _) := Pick(cfg, env, c, key);
    FetchStorable(cfg, env, a, c, key, owner, v);
    NearPutFinds(cfg, env, d, key, a.epoch, KGet, v, now);
    if NearPut(cfg, env, d, key, a.epoch, KGet, v).clock <= now < a.clock + cfg.nearTTL {
      NearPutFills(cfg, env, d, key, a.epoch, KGet, v, now);
    }
  }

  lemma FetchStorable(cfg: Config, env: Env, a: Node, c: Node, key: string, owner: string, value: Bytes)
    requires Inv(cfg, a) && EnvOk(cfg, env) && Calm(cfg, env) && Rely(cfg, a, c) && Same(a, c)
    requires a.log != [] && a.log[|a.log| - 1] == Picked(key, owner, a.epoch)
    requires |a.log| < |c.log| && c.log[|c.log| - 1] == Answered(KGet, key, owner, value, c.epoch)
    requires owner == cfg.ownerAt(a.epoch, key) && owner !in [cfg.self, ""]
    ensures Storable(cfg, Pick(cfg, env, c, key).0.log, key, a.epoch, KGet, value)
  {
    hide Inv, Pick;
    CalmPick(cfg, env, c, key);
    var d := Pick(cfg, env, c, key).0;
    AgreedBy(cfg, a, c, d, KGet, key, owner, value);
    AgreedOnKept(d.log, d.log, TrailOf(a, c, d), KGet, key, owner, value, a.epoch);
  }

  /** A value set at the owner is found until nearTTL after the start of the call. */
  lemma SetFills(cfg: Config, env: Env, s: Node, key: string, value: Bytes, now: int)
    requires Inv(cfg, s) && EnvOk(cfg, env) && HandsOff(cfg, env) && Reachable(env) && cfg.near
    requires Ready(cfg, s, key) && cfg.ownerAt(s.epoch, key) !in [cfg.self, ""]
    requires Succeeded(Set(cfg, env, s, key, value).1) && FitsNear(cfg, s.epoch, key, value)
    ensures var after := Set(cfg, env, s, key, value).0;
            after.clock <= now < s.clock + cfg.nearTTL ==> Near(cfg, after, key, now) == Some(value)
  {
    hide Inv, SetLoop, Invalidate, Refill, Near, AgreedOn, FitsNear;
    RemoteSetLoop(cfg, env, s, key, value, 0, []);
    var (a, r) := SetLoop(cfg, env, s, key, value, 0, []);
    InvalidateMisses(cfg, env, a, key, 0);
    var b := Invalidate(cfg, env, a, key);
    Carry(a.log, b.log, key, value, r.exit);
    if Refill(cfg, env, b, key, value, r.exit).clock <= now < s.clock + cfg.nearTTL {
      RefillFills(cfg, env, b, key, value, r.exit, now);
    }
  }

  lemma RefillFills(cfg: Config, env: Env, s: Node, key: string, value: Bytes, exit: Exit, now: int)
    requires Inv(cfg, s) && EnvOk(cfg, env) && HandsOff(cfg, env) && cfg.near && cfg.peers && !s.closed
    requires exit.Stable? && exit.epoch == s.epoch
    requires exit.owner == cfg.ownerAt(s.epoch, key) && exit.owner !in [cfg.self, ""]
    requires AgreedOn(s.log, exit.trail, KSet, key, exit.owner, value, exit.epoch) && FitsNear(cfg, s.epoch, key, value)
    requires Refill(cfg, env, s, key, value, exit).clock <= now < s.clock + cfg.nearTTL
    ensures Near(cfg, Refill(cfg, env, s, key, value, exit), key, now) == Some(value)
  {
    hide Inv, Pick, Near, NearPut, AgreedOn, Storable, FitsNear;
    CalmPick(cfg, env, s, key);
    var (a, _) := Pick(cfg, env, s, key);
    AgreedOnKept(s.log, a.log, exit.trail, KSet, key, exit.owner, value, exit.epoch);
    RefillStorable(cfg, a, key, value, exit);
    NearPutFills(cfg, env, a, key, exit.epoch, KSet, value, now);
  }

  /** The same Get again, looking up within nearTTL of the first, returns the same value from the near cache. */
  lemma GetThenGet(cfg: Config, env: Env, s: Node, key: string)
    requires Inv(cfg, s) && EnvOk(cfg, env) && HandsOff(cfg, env) && Reachable(env) && cfg.near && Ready(cfg, s, key)
    requires cfg.ownerAt(s.epoch, key) !in [cfg.self, ""] && NearFinds(cfg, env, s, key).None?
    requires env.peer(s.tick + 2).Ok? && FitsNear(cfg, s.epoch, key, env.peer(s.tick + 2).value)
    ensures var (after, r) := Get(cfg, env, s, key);
            && GetSays(r, env.peer(s.tick + 2), ByPeer, cfg.ownerAt(s.epoch, key), s.epoch)
            && (LookupTime(cfg, env, after, key) < s.clock + cfg.nearTTL ==>
                GetSays(Get(cfg, env, after, key).1, env.peer(s.tick + 2), ByNear, cfg.ownerAt(s.epoch, key), s.epoch))
  {
    hide Inv, Get, Near, NearFinds, LookupTime, FitsNear;
    var after := Get(cfg, env, s, key).0;
    NearMissFetches(cfg, env, s, key);
    GetFills(cfg, env, s, key, LookupTime(cfg, env, after, key));
    NextLookup(cfg, env, after, key);
    if LookupTime(cfg, env, after, key) < s.clock + cfg.nearTTL {
      NearHitIsServed(cfg, env, after, key);
    }
  }

  /**
   A Get after a Set on a node that does not own the key, within nearTTL,
   returns the value set from the near cache.
   */
  lemma SetThenNearGet(cfg: Config, env: Env, s: Node, key: string, value: Bytes)
    requires Inv(cfg, s) && EnvOk(cfg, env) && HandsOff(cfg, env) && Reachable(env) && cfg.near
    requires Ready(cfg, s, key) && cfg.ownerAt(s.epoch, key) !in [cfg.self, ""]
    requires Succeeded(Set(cfg, env, s, key, value).1) && FitsNear(cfg, s.epoch, key, value)
    ensures var after := Set(cfg, env, s, key, value).0;
            LookupTime(cfg, env, after, key) < s.clock + cfg.nearTTL ==>
              GetSays(Get(cfg, env, after, key).1, Ok(value), ByNear, cfg.ownerAt(s.epoch, key), s.epoch)
  {
    hide Inv, Set, Get, Near, NearFinds, LookupTime, FitsNear;
    var after := Set(cfg, env, s, key, value).0;
    SetKeeps(cfg, env, s, key, value);
    SetFills(cfg, env, s, key, value, LookupTime(cfg, env, after, key));
    NextLookup(cfg, env, after, key);
    if LookupTime(cfg, env, after, key) < s.clock + cfg.nearTTL {
      NearHitIsServed(cfg, env, after, key);
    }
  }
}
