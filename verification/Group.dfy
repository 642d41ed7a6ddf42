/**
 The mutable group: the retry loops of Get, Set and Delete (group.go) on one
 node whose state the environment may change between any two accesses.
 */
module GroupApi {
  import opened Common
  import S = ShardedModel
  import opened RoutingModel
  import opened Routing
  import opened RoutingWrites
  import opened RoutingResults

  class Group {
    const cfg: Config
    var node: Node

    /** NewGroup: an empty near cache and no history. */
    constructor (cfg: Config, epoch: nat, clock: int)
      requires cfg.store.Ok() && 1 <= epoch
      ensures this.cfg == cfg && Inv(cfg, node) && node == Node(false, epoch, clock, S.Init(cfg.store), [], 0)
    {
      this.cfg := cfg;
      node := Node(false, epoch, clock, S.Init(cfg.store), [], 0);
    }

    /** Get: at most four attempts, and every value returned is justified by the history of the call. */
    method Get(key: string, env: Env) returns (r: GetResult)
      requires Inv(cfg, node) && EnvOk(cfg, env)
      modifies this`node
      ensures Rely(cfg, old(node), node) && node.tick <= old(node).tick + GET_ACCESSES * ATTEMPTS
      ensures (node, r) == Routing.Get(cfg, env, old(node), key)
      ensures Justified(cfg, |old(node).log|, key, (node, r))
    {
      hide Inv, GetLocal, GetAttempt, Justified;
      GetIsJustified(cfg, env, node, key);
      if node.closed {
        return GetError(ErrGroupClosed);
      }
      if key == "" {
        return GetError(ErrKeyRequired);
      }
      if !cfg.peers {
        var (a, reply) := GetLocal(cfg, env, node, key);
        node := a;
        match reply {
          case Ok(v) => return Value(v, ByOwner, cfg.self, 0, TrailOf(a, a, a));
          case Refused => return GetError(ErrTopologyChanged);
          case Broken(e) => return GetError(e);
        }
      }
      for attempt := 0 to ATTEMPTS
        invariant Inv(cfg, node)
        invariant GetLoop(cfg, env, node, key, attempt) == GetLoop(cfg, env, old(node), key, 0)
      {
        var (a, out) := GetAttempt(cfg, env, node, key, attempt == ATTEMPTS - 1);
        node := a;
        if out.Stop? {
          return out.result;
        }
      }
      return GetError(ErrTopologyChanged);
    }

    /** Set: the loop may run out, and then the call still goes on to its end; what nil means is SetMeans. */
    method Set(key: string, value: Bytes, env: Env) returns (r: WriteResult)
      requires Inv(cfg, node) && EnvOk(cfg, env)
      modifies this`node
      ensures Rely(cfg, old(node), node) && node.tick <= old(node).tick + SET_ACCESSES * ATTEMPTS + 8
      ensures (node, r) == RoutingWrites.Set(cfg, env, old(node), key, value)
      ensures r.Written? ==> SetMeans(cfg, env, old(node), key, value, node, r.exit)
    {
      hide Inv, SetMeans, SetAttempt, SetAlone, Invalidate, Refill;
      SetMeansWritten(cfg, env, node, key, value);
      if node.closed {
        return WriteError(ErrGroupClosed);
      }
      if key == "" {
        return WriteError(ErrKeyRequired);
      }
      if value == [] {
        return WriteError(ErrValueRequired);
      }
      if !cfg.peers {
        var (a, alone) := SetAlone(cfg, env, node, key, value);
        node, r := a, alone;
      } else {
        r := SetByLoop(key, value, env);
      }
      if r.WriteError? {
        return;
      }
      var b := Invalidate(cfg, env, node, key);
      Carry(node.log, b.log, key, value, r.exit);
      node := Refill(cfg, env, b, key, value, r.exit);
    }

    /** Set's loop with peers: it leaves with a result, or after four attempts with the writes they had carried out. */
    method SetByLoop(key: string, value: Bytes, env: Env) returns (r: WriteResult)
      requires Inv(cfg, node) && EnvOk(cfg, env)
      modifies this`node
      ensures (node, r) == SetLoop(cfg, env, old(node), key, value, 0, [])
    {
      hide Inv, SetAttempt;
      var writes := [];
      for attempt := 0 to ATTEMPTS
        invariant Inv(cfg, node)
        invariant SetLoop(cfg, env, node, key, value, attempt, writes) ==
          SetLoop(cfg, env, old(node), key, value, 0, [])
      {
        var (a, out) := SetAttempt(cfg, env, node, key, value, attempt == ATTEMPTS - 1);
        node := a;
        if out.Ended? {
          return out.result;
        }
        writes := writes + out.writes;
      }
      return Written(Exhausted(writes));
    }

    /** Delete's loop with peers: the last attempt always decides. */
    method DeleteByLoop(key: string, env: Env) returns (r: WriteResult)
      requires Inv(cfg, node) && EnvOk(cfg, env)
      modifies this`node
      ensures (node, r) == DeleteLoop(cfg, env, old(node), key, 0)
    {
      hide Inv, DeleteAttempt;
      for attempt := 0 to ATTEMPTS
        invariant Inv(cfg, node)
        invariant DeleteLoop(cfg, env, node, key, attempt) == DeleteLoop(cfg, env, old(node), key, 0)
      {
        var (a, out) := DeleteAttempt(cfg, env, node, key, attempt == ATTEMPTS - 1);
        node := a;
        if out.Ended? {
          return out.result;
        }
      }
      return Written(Exhausted([]));
    }

    /** Delete: no error means that the delete was carried out by an agreed owner, or locally without peers. */
    method Delete(key: string, env: Env) returns (r: WriteResult)
      requires Inv(cfg, node) && EnvOk(cfg, env)
      modifies this`node
      ensures Rely(cfg, old(node), node) && node.tick <= old(node).tick + DELETE_ACCESSES * ATTEMPTS + 4
      ensures (node, r) == RoutingWrites.Delete(cfg, env, old(node), key)
      ensures r.Written? && cfg.peers ==> r.exit.Stable? && Proven(|old(node).log|, KDelete, key, [], (node, r))
      ensures r.Written? && !cfg.peers ==> HasAnswer(node.log, |old(node).log|, KDelete, key, cfg.self, [])
    {
      hide Inv, DeleteLoop, MutateHere, Invalidate, Proven, HasAnswer;
      DeleteMeansDeleted(cfg, env, node, key);
      if node.closed {
        return WriteError(ErrGroupClosed);
      }
      if key == "" {
        return WriteError(ErrKeyRequired);
      }
      if !cfg.peers {
        var (a, _) := MutateHere(cfg, env, node, KDelete, key, []);
        node, r := a, Written(Alone);
      } else {
        r := DeleteByLoop(key, env);
        if r.WriteError? {
          return;
        }
      }
      node := Invalidate(cfg, env, node, key);
    }
  }
}
