/** How every attempt of Get ends, against any environment, by owners, epochs, replies and what the near cache holds. */
module RoutingGets {
  import opened Common
  import S = ShardedModel
  import opened RoutingModel
  import opened Routing
  import opened RoutingWrites
  import opened RoutingResults

  /** This node is picked, is still open and owns the key at its own check; it answers at this node's tick. */
  predicate SelfAsked(cfg: Config, env: Env, s: Node, key: string)
    requires Inv(cfg, s) && EnvOk(cfg, env)
  {
    var a := Pick(cfg, env, s, key).0;
    var t := Tick(cfg, env, a);
    && cfg.ownerAt(a.epoch, key) == cfg.self != "" && !t.closed
    && cfg.ownerAt(Pick(cfg, env, t, key).0.epoch, key) == cfg.self
  }

  /** Another node is picked, and there is a client for it. */
  predicate PeerKnown(cfg: Config, env: Env, s: Node, key: string)
    requires Inv(cfg, s) && EnvOk(cfg, env)
  {
    var a := Pick(cfg, env, s, key).0;
    cfg.ownerAt(a.epoch, key) !in [cfg.self, ""] && env.hasPeer(a.tick)
  }

  /** What the near cache of an open group holds under the key and the epoch of the first pick. */
  function NearCopy(cfg: Config, env: Env, s: Node, key: string): Option<Bytes>
    requires Inv(cfg, s) && EnvOk(cfg, env)
  {
    var a := Pick(cfg, env, s, key).0;
    var n := Tick(cfg, env, a);
    if cfg.near && !n.closed then S.Get(cfg.store, n.near, NearKey(a.epoch, key), n.clock) else None
  }

  /** There is a near copy, and the pick after the lookup is in the epoch of the first one. */
  predicate NearServes(cfg: Config, env: Env, s: Node, key: string)
    requires Inv(cfg, s) && EnvOk(cfg, env)
  {
    var a := Pick(cfg, env, s, key).0;
    && PeerKnown(cfg, env, s, key) && NearCopy(cfg, env, s, key).Some?
    && Pick(cfg, env, NearGet(cfg, env, a, NearKey(a.epoch, key)).0, key).0.epoch == a.epoch
  }

  lemma NearServesKnown(cfg: Config, env: Env, s: Node, key: string)
    requires Inv(cfg, s) && EnvOk(cfg, env)
    ensures NearServes(cfg, env, s, key) ==> PeerKnown(cfg, env, s, key)
  {
    hide Inv, Pick, Tick, NearGet, NearCopy, PeerKnown;
  }

  /** The node when the owner is asked: after the lookup, and after an unconfirmed copy was dropped. */
  function AskNode(cfg: Config, env: Env, s: Node, key: string): (r: Node)
    requires Inv(cfg, s) && EnvOk(cfg, env)
    ensures Rely(cfg, Pick(cfg, env, s, key).0, r)
  {
    var (a, owner) := Pick(cfg, env, s, key);
    TryNear(cfg, env, a, key, owner).0
  }

  /** The owner is asked and its value arrives. */
  predicate PeerAnswers(cfg: Config, env: Env, s: Node, key: string)
    requires Inv(cfg, s) && EnvOk(cfg, env)
  {
    && PeerKnown(cfg, env, s, key) && !NearServes(cfg, env, s, key)
    && env.peer(AskNode(cfg, env, s, key).tick).Ok?
  }

  /** The node after the owner's value has arrived and the owner has been picked again. */
  function PickedAgain(cfg: Config, env: Env, s: Node, key: string): (r: Node)
    requires Inv(cfg, s) && EnvOk(cfg, env) && PeerAnswers(cfg, env, s, key)
    ensures Inv(cfg, r)
  {
    var (a, owner) := Pick(cfg, env, s, key);
    var m := AskNode(cfg, env, s, key);
    Pick(cfg, env, Answer(cfg, env, m, KGet, key, owner, env.peer(m.tick).value), key).0
  }

  /** The value an attempt returns, and how, if it returns one. */
  function Served(cfg: Config, env: Env, s: Node, key: string): Option<(Bytes, Via)>
    requires Inv(cfg, s) && EnvOk(cfg, env)
  {
    var a := Pick(cfg, env, s, key).0;
    if SelfAsked(cfg, env, s, key) then
      var reply := env.local(Pick(cfg, env, Tick(cfg, env, a), key).0.tick);
      if reply.Ok? then Some((reply.value, ByOwner)) else None
    else if NearServes(cfg, env, s, key) then Some((NearCopy(cfg, env, s, key).value, ByNear))
    else if PeerAnswers(cfg, env, s, key) && PickedAgain(cfg, env, s, key).epoch == a.epoch then
      Some((env.peer(AskNode(cfg, env, s, key).tick).value, ByPeer))
    else None
  }

  /**
   Another attempt follows: this node's own check or getLocal refuses, the owner
   refuses and the wait is not cancelled, or its value comes in another epoch.
   */
  predicate GetRetries(cfg: Config, env: Env, s: Node, key: string, last: bool)
    requires Inv(cfg, s) && EnvOk(cfg, env)
  {
    var a := Pick(cfg, env, s, key).0;
    var m := AskNode(cfg, env, s, key);
    || SelfRefusal(cfg, env, s, key)
    || (SelfAsked(cfg, env, s, key) && env.local(Pick(cfg, env, Tick(cfg, env, a), key).0.tick).Refused?)
    || (PeerKnown(cfg, env, s, key) && !NearServes(cfg, env, s, key) && env.peer(m.tick).Refused?
        && !last && !env.cancelled(m.tick + 1))
    || (PeerAnswers(cfg, env, s, key) && PickedAgain(cfg, env, s, key).epoch != a.epoch)
  }

  /** The node after an attempt that another one follows. */
  function NextGet(cfg: Config, env: Env, s: Node, key: string): (r: Node)
    requires Inv(cfg, s) && EnvOk(cfg, env)
    ensures Inv(cfg, r)
  {
    var a := Pick(cfg, env, s, key).0;
    var t := Tick(cfg, env, a);
    if SelfRefusal(cfg, env, s, key) then Pick(cfg, env, t, key).0
    else if SelfAsked(cfg, env, s, key) then Tick(cfg, env, Pick(cfg, env, t, key).0)
    else if PeerAnswers(cfg, env, s, key) then PickedAgain(cfg, env, s, key)
    else Tick(cfg, env, AskNode(cfg, env, s, key))
  }

  /** The error of an attempt that neither returns a value nor is followed by another. */
  function Failure(cfg: Config, env: Env, s: Node, key: string, last: bool): Error
    requires Inv(cfg, s) && EnvOk(cfg, env)
  {
    var a := Pick(cfg, env, s, key).0;
    var t := Tick(cfg, env, a);
    var owner := cfg.ownerAt(a.epoch, key);
    if owner == "" then ErrNoOwner
    else if owner == cfg.self then
      var reply := env.local(Pick(cfg, env, t, key).0.tick);
      if t.closed then ErrGroupClosed
      else if cfg.ownerAt(Pick(cfg, env, t, key).0.epoch, key) == "" then ErrNoOwner
      else if reply.Broken? then reply.error else ErrOther
    else if !env.hasPeer(a.tick) then ErrPeerUnavailable
    else
      match env.peer(AskNode(cfg, env, s, key).tick)
      case Broken(e) => e
      case Refused => if last then ErrTopologyChanged else ErrCancelled
      case Ok(_) => ErrOther
  }

  /** What the guards say of an attempt. */
  ghost predicate GetGuarded(cfg: Config, env: Env, s: Node, key: string, last: bool)
    requires Inv(cfg, s) && EnvOk(cfg, env)
  {
    var (a, out) := GetAttempt(cfg, env, s, key, last);
    var (epoch, served) := (Pick(cfg, env, s, key).0.epoch, Served(cfg, env, s, key));
    && (out.Retry? <==> GetRetries(cfg, env, s, key, last))
    && (out.Retry? ==> a == NextGet(cfg, env, s, key))
    && (out.Stop? && out.result.Value? <==> served.Some?)
    && (out.Stop? && out.result.Value? ==>
        && (out.result.value, out.result.via) == served.value
        && out.result.owner == cfg.ownerAt(epoch, key) && out.result.epoch == epoch)
    && (out.Stop? && !out.result.Value? ==> out.result == GetError(Failure(cfg, env, s, key, last)))
  }

  lemma SelfGet(cfg: Config, env: Env, s: Node, key: string, last: bool)
    requires cfg.peers && Inv(cfg, s) && EnvOk(cfg, env)
    requires cfg.ownerAt(Pick(cfg, env, s, key).0.epoch, key) in [cfg.self, ""]
    ensures GetGuarded(cfg, env, s, key, last)
  {
    hide Inv, Answer, TryNear, FetchRemote, NearServes;
    NearServesKnown(cfg, env, s, key);
  }

  /** A lookup that is served, or not. */
  lemma NearEnds(cfg: Config, env: Env, s: Node, key: string)
    requires Inv(cfg, s) && EnvOk(cfg, env) && PeerKnown(cfg, env, s, key)
    ensures var (a, owner) := Pick(cfg, env, s, key);
            var hit := TryNear(cfg, env, a, key, owner).1;
            && (hit.Some? <==> NearServes(cfg, env, s, key))
            && (hit.Some? ==> Some(hit.value.0) == NearCopy(cfg, env, s, key))
  {
    hide Inv, NearDrop, S.Get, S.Step;
    var (a, owner) := Pick(cfg, env, s, key);
    PickIsTrue(cfg, a, |a.log| - 1);
  }

  lemma FetchEnds(cfg: Config, env: Env, a: Node, m: Node, key: string, owner: string, last: bool)
    requires EnvOk(cfg, env) && Inv(cfg, a) && Rely(cfg, a, m)
    requires a.log != [] && a.log[|a.log| - 1] == Picked(key, owner, a.epoch) && owner !in [cfg.self, ""]
    requires owner == cfg.ownerAt(a.epoch, key)
    ensures var (after, out) := FetchRemote(cfg, env, a, m, key, owner, last);
            match env.peer(m.tick)
            case Broken(e) => out == Stop(GetError(e))
            case Refused =>
              && (out.Retry? <==> !last && !env.cancelled(m.tick + 1)) && (out.Retry? ==> after == Tick(cfg, env, m))
              && (out.Stop? ==> out == Stop(GetError(if last then ErrTopologyChanged else ErrCancelled)))
            case Ok(v) =>
              var b := Pick(cfg, env, Answer(cfg, env, m, KGet, key, owner, v), key).0;
              && (out.Retry? <==> b.epoch != a.epoch) && (out.Retry? ==> after == b)
              && (out.Stop? ==> out.result.Value? && (out.result.value, out.result.via) == (v, ByPeer))
              && (out.Stop? ==> out.result.owner == owner && out.result.epoch == a.epoch)
  {
    hide Inv, Keep, Tick;
    if env.peer(m.tick).Ok? {
      var b := Pick(cfg, env, Answer(cfg, env, m, KGet, key, owner, env.peer(m.tick).value), key).0;
      PickIsTrue(cfg, b, |b.log| - 1);
    }
  }

  lemma PeerGetGuarded(cfg: Config, env: Env, s: Node, key: string, last: bool)
    requires cfg.peers && Inv(cfg, s) && EnvOk(cfg, env)
    requires cfg.ownerAt(Pick(cfg, env, s, key).0.epoch, key) !in [cfg.self, ""]
    ensures GetGuarded(cfg, env, s, key, last)
  {
    hide Inv, Answer, TryNear, FetchRemote, NearServes, NearCopy, GetLocal;
    NearServesKnown(cfg, env, s, key);
    var (a, owner) := Pick(cfg, env, s, key);
    if env.hasPeer(a.tick) {
      NearEnds(cfg, env, s, key);
      FetchEnds(cfg, env, a, AskNode(cfg, env, s, key), key, owner, last);
    }
  }

  /** Every attempt of Get ends as the guards say. */
  lemma GetAttemptIsGuarded(cfg: Config, env: Env, s: Node, key: string, last: bool)
    requires cfg.peers && Inv(cfg, s) && EnvOk(cfg, env)
    ensures GetGuarded(cfg, env, s, key, last)
  {
    hide GetGuarded, Inv;
    if cfg.ownerAt(Pick(cfg, env, s, key).0.epoch, key) in [cfg.self, ""] {
      SelfGet(cfg, env, s, key, last);
    } else {
      PeerGetGuarded(cfg, env, s, key, last);
    }
  }

  /** Within `n` attempts one serves this value, after attempts that are each followed by another. */
  predicate ServedWithin(cfg: Config, env: Env, s: Node, key: string, n: nat, value: Bytes, via: Via)
    requires Inv(cfg, s) && EnvOk(cfg, env)
    decreases n
  {
    n > 0 &&
    (|| Served(cfg, env, s, key) == Some((value, via))
     || (GetRetries(cfg, env, s, key, n == 1)
         && ServedWithin(cfg, env, NextGet(cfg, env, s, key), key, n - 1, value, via)))
  }

  /** All of `n` attempts ask for another one. */
  predicate AllRetry(cfg: Config, env: Env, s: Node, key: string, n: nat)
    requires Inv(cfg, s) && EnvOk(cfg, env)
    decreases n
  {
    n == 0 || (GetRetries(cfg, env, s, key, n == 1) && AllRetry(cfg, env, NextGet(cfg, env, s, key), key, n - 1))
  }

  lemma {:induction false} GetLoopIff(cfg: Config, env: Env, s: Node, key: string, attempt: nat, value: Bytes, via: Via)
    requires cfg.peers && Inv(cfg, s) && EnvOk(cfg, env) && attempt <= ATTEMPTS
    ensures var r := GetLoop(cfg, env, s, key, attempt).1;
            && (r.Value? && r.value == value && r.via == via <==>
                ServedWithin(cfg, env, s, key, ATTEMPTS - attempt, value, via))
            && (AllRetry(cfg, env, s, key, ATTEMPTS - attempt) ==> r == GetError(ErrTopologyChanged))
    decreases ATTEMPTS - attempt
  {
    hide Inv, GetAttempt, Served, GetRetries, NextGet, Failure;
    if attempt < ATTEMPTS {
      var last := attempt == ATTEMPTS - 1;
      GetAttemptIsGuarded(cfg, env, s, key, last);
      ServedOrRetried(cfg, env, s, key, last);
      var (a, out) := GetAttempt(cfg, env, s, key, last);
      if out.Retry? {
        GetLoopIff(cfg, env, a, key, attempt + 1, value, via);
      }
    }
  }

  lemma ServedOrRetried(cfg: Config, env: Env, s: Node, key: string, last: bool)
    requires Inv(cfg, s) && EnvOk(cfg, env)
    ensures !(Served(cfg, env, s, key).Some? && GetRetries(cfg, env, s, key, last))
  {
    hide Inv, Tick, Pick, AskNode, NearServes;
    NearServesKnown(cfg, env, s, key);
  }

  /**
   Get returns a value exactly when, within four attempts, one serves it: this
   node's own answer, the near copy, or the owner's value, with the owner of one
   epoch before and after; and it gives up when all four ask for another one.
   */
  lemma GetReturnsIff(cfg: Config, env: Env, s: Node, key: string, value: Bytes, via: Via)
    requires cfg.peers && Inv(cfg, s) && EnvOk(cfg, env)
    ensures var r := Get(cfg, env, s, key).1;
            && (r.Value? && r.value == value && r.via == via <==>
                !s.closed && key != "" && ServedWithin(cfg, env, s, key, 4, value, via))
            && (!s.closed && key != "" && AllRetry(cfg, env, s, key, 4) ==> r == GetError(ErrTopologyChanged))
  {
    hide Inv, GetLoop, ServedWithin, AllRetry;
    if !s.closed && key != "" {
      GetLoopIff(cfg, env, s, key, 0, value, via);
    }
  }
}
