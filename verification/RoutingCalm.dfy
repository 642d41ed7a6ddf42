/**
 While the membership stands and the group stays open, the results of Get, Set
 and Delete are exactly determined by the owner of the key and by what it
 answers.
 */
module RoutingCalm {
  import opened Common
  import S = ShardedModel
  import opened RoutingModel
  import opened Routing
  import opened RoutingWrites
  import opened RoutingResults

  /** The environment changes neither the epoch nor whether the group is closed. */
  ghost predicate Calm(cfg: Config, env: Env) {
    forall n, s :: Inv(cfg, s) ==> Same(s, env.step(n, s))
  }

  predicate Same(s: Node, after: Node) {
    after.epoch == s.epoch && after.closed == s.closed
  }

  /** A call with peers that may proceed. */
  predicate Ready(cfg: Config, s: Node, key: string) {
    cfg.peers && !s.closed && key != ""
  }

  /** A peer client exists and no wait is cancelled. */
  ghost predicate Reachable(env: Env) {
    forall n :: env.hasPeer(n) && !env.cancelled(n)
  }

  /** The first reply that is not a refusal. */
  function FirstReply(replies: seq<Reply>): Reply {
    if replies == [] then Refused
    else if replies[0].Refused? then FirstReply(replies[1..])
    else replies[0]
  }

  lemma CalmTick(cfg: Config, env: Env, s: Node)
    requires Inv(cfg, s) && EnvOk(cfg, env) && Calm(cfg, env)
    ensures Same(s, Tick(cfg, env, s))
  {
    hide Inv;
  }

  lemma CalmPick(cfg: Config, env: Env, s: Node, key: string)
    requires Inv(cfg, s) && EnvOk(cfg, env) && Calm(cfg, env)
    ensures var (a, owner) := Pick(cfg, env, s, key); Same(s, a) && owner == cfg.ownerAt(s.epoch, key)
  {
    hide Inv;
  }

  // ---- Get ------------------------------------------------------------------------------

  /** The result of Get is what the reply says. */
  predicate GetSays(r: GetResult, reply: Reply, via: Via, owner: string, epoch: nat) {
    match reply
    case Ok(v) => r.Value? && r.value == v && r.via == via && r.owner == owner && r.epoch == epoch
    case Broken(e) => r == GetError(e)
    case Refused => r == GetError(ErrTopologyChanged)
  }

  /** An attempt on the owner itself ends with the answer of getLocal, four accesses on. */
  lemma LocalGetAttempt(cfg: Config, env: Env, s: Node, key: string, last: bool)
    requires Inv(cfg, s) && EnvOk(cfg, env) && Calm(cfg, env)
    requires Ready(cfg, s, key) && cfg.ownerAt(s.epoch, key) == cfg.self != ""
    ensures var (after, out) := GetAttempt(cfg, env, s, key, last);
            var reply := env.local(s.tick + 3);
            && (out.Retry? <==> reply.Refused?)
            && (out.Stop? ==> GetSays(out.result, reply, ByOwner, cfg.self, s.epoch))
            && (out.Retry? ==> Same(s, after) && after.tick == s.tick + 4)
  {
    hide Inv, Pick, Tick, TryNear, FetchRemote, LocalReply;
    CalmPick(cfg, env, s, key);
    var a := Pick(cfg, env, s, key).0;
    CalmTick(cfg, env, a);
    var t := Tick(cfg, env, a);
    CalmPick(cfg, env, t, key);
    var b := Pick(cfg, env, t, key).0;
    LocalReplyCalm(cfg, env, b, key);
  }

  lemma LocalReplyCalm(cfg: Config, env: Env, s: Node, key: string)
    requires Inv(cfg, s) && EnvOk(cfg, env) && Calm(cfg, env)
    ensures env.local(s.tick).Refused? ==> Same(s, LocalReply(cfg, env, s, key).0)
  {
    hide Inv, Tick;
    CalmTick(cfg, env, s);
  }

  function LocalReplies(env: Env, t: nat, n: nat): seq<Reply>
    decreases n
  {
    if n == 0 then [] else [env.local(t + 3)] + LocalReplies(env, t + 4, n - 1)
  }

  lemma {:induction false} LocalGetLoop(cfg: Config, env: Env, s: Node, key: string, attempt: nat)
    requires Inv(cfg, s) && EnvOk(cfg, env) && Calm(cfg, env) && attempt <= ATTEMPTS
    requires Ready(cfg, s, key) && cfg.ownerAt(s.epoch, key) == cfg.self != ""
    ensures GetSays(GetLoop(cfg, env, s, key, attempt).1, FirstReply(LocalReplies(env, s.tick, ATTEMPTS - attempt)),
                    ByOwner, cfg.self, s.epoch)
    decreases ATTEMPTS - attempt
  {
    hide Inv, GetAttempt;
    if attempt < ATTEMPTS {
      var last := attempt == ATTEMPTS - 1;
      LocalGetAttempt(cfg, env, s, key, last);
      var (a, out) := GetAttempt(cfg, env, s, key, last);
      if out.Retry? {
        LocalGetLoop(cfg, env, a, key, attempt + 1);
      }
    }
  }

  /**
   On the owner, Get returns exactly the first answer of getLocal that is not a
   refusal, out of four.
   */
  lemma OwnerGetAnswers(cfg: Config, env: Env, s: Node, key: string)
    requires Inv(cfg, s) && EnvOk(cfg, env) && Calm(cfg, env)
    requires Ready(cfg, s, key) && cfg.ownerAt(s.epoch, key) == cfg.self != ""
    ensures var t := s.tick;
            var replies := [env.local(t + 3), env.local(t + 7), env.local(t + 11), env.local(t + 15)];
            GetSays(Get(cfg, env, s, key).1, FirstReply(replies), ByOwner, cfg.self, s.epoch)
  {
    hide Inv, GetLoop;
    LocalGetLoop(cfg, env, s, key, 0);
    var t := s.tick;
    assert LocalReplies(env, t + 8, 2) == [env.local(t + 11), env.local(t + 15)];
    assert LocalReplies(env, t, 4) == [env.local(t + 3), env.local(t + 7), env.local(t + 11), env.local(t + 15)];
  }

  /** Without peers, Get returns exactly the answer of getLocal. */
  lemma AloneGetAnswers(cfg: Config, env: Env, s: Node, key: string)
    requires Inv(cfg, s) && EnvOk(cfg, env) && Calm(cfg, env) && !cfg.peers && !s.closed && key != ""
    ensures GetSays(Get(cfg, env, s, key).1, env.local(s.tick + 1), ByOwner, cfg.self, 0)
  {
    hide Inv, LocalReply;
    CalmTick(cfg, env, s);
  }

  /** What the near cache holds for the call at the moment of its first lookup. */
  function NearFinds(cfg: Config, env: Env, s: Node, key: string): Option<Bytes>
    requires Inv(cfg, s) && EnvOk(cfg, env)
  {
    var n := Tick(cfg, env, Pick(cfg, env, s, key).0);
    if cfg.near then S.Get(cfg.store, n.near, NearKey(n.epoch, key), n.clock) else None
  }

  /** A near-cache hit is served, with the owner and the epoch of the call. */
  lemma NearHitIsServed(cfg: Config, env: Env, s: Node, key: string)
    requires Inv(cfg, s) && EnvOk(cfg, env) && Calm(cfg, env) && Ready(cfg, s, key)
    requires cfg.ownerAt(s.epoch, key) !in [cfg.self, ""] && env.hasPeer(s.tick + 1)
    requires NearFinds(cfg, env, s, key).Some?
    ensures GetSays(Get(cfg, env, s, key).1, Ok(NearFinds(cfg, env, s, key).value), ByNear,
                    cfg.ownerAt(s.epoch, key), s.epoch)
  {
    hide Inv, Pick, Tick, GetLocal, FetchRemote, S.Step, S.Get;
    CalmPick(cfg, env, s, key);
    var a := Pick(cfg, env, s, key).0;
    CalmTick(cfg, env, a);
    var (b, hit) := NearGet(cfg, env, a, NearKey(a.epoch, key));
    CalmPick(cfg, env, b, key);
  }

  /** After a near-cache miss, Get returns the peer's value, whatever it is, or its error. */
  lemma NearMissFetches(cfg: Config, env: Env, s: Node, key: string)
    requires Inv(cfg, s) && EnvOk(cfg, env) && Calm(cfg, env) && Ready(cfg, s, key)
    requires cfg.ownerAt(s.epoch, key) !in [cfg.self, ""] && env.hasPeer(s.tick + 1)
    requires NearFinds(cfg, env, s, key).None?
    ensures var reply := env.peer(s.tick + if cfg.near then 2 else 1);
            !reply.Refused? ==> GetSays(Get(cfg, env, s, key).1, reply, ByPeer, cfg.ownerAt(s.epoch, key), s.epoch)
  {
    hide Inv, Pick, Tick, GetLocal, TryNear, FetchRemote;
    CalmPick(cfg, env, s, key);
    var (a, owner) := Pick(cfg, env, s, key);
    NearMiss(cfg, env, a, key, owner);
    var b := TryNear(cfg, env, a, key, owner).0;
    RemoteGetAttempt(cfg, env, a, b, key, owner, false);
  }

  lemma NearMiss(cfg: Config, env: Env, a: Node, key: string, owner: string)
    requires Inv(cfg, a) && EnvOk(cfg, env) && Calm(cfg, env) && !a.closed
    requires a.log != [] && a.log[|a.log| - 1] == Picked(key, owner, a.epoch)
    requires var n := Tick(cfg, env, a); cfg.near ==> S.Get(cfg.store, n.near, NearKey(n.epoch, key), n.clock).None?
    ensures var (b, hit) := TryNear(cfg, env, a, key, owner);
            hit.None? && Same(a, b) && b.tick == a.tick + if cfg.near then 1 else 0
  {
    hide Inv, Tick, S.Step, S.Get;
    CalmTick(cfg, env, a);
  }

  /** The part of an attempt after a near-cache miss ends with the peer's reply. */
  lemma RemoteGetAttempt(cfg: Config, env: Env, a: Node, b: Node, key: string, owner: string, last: bool)
    requires Inv(cfg, a) && EnvOk(cfg, env) && Calm(cfg, env) && Rely(cfg, a, b) && Same(a, b)
    requires a.log != [] && a.log[|a.log| - 1] == Picked(key, owner, a.epoch)
    requires owner == cfg.ownerAt(a.epoch, key) && owner !in [cfg.self, ""]
    ensures var (after, out) := FetchRemote(cfg, env, a, b, key, owner, last);
            var reply := env.peer(b.tick);
            && (out.Retry? <==> reply.Refused? && !last && !env.cancelled(b.tick + 1))
            && (!reply.Refused? ==> GetSays(out.result, reply, ByPeer, owner, a.epoch))
            && (reply.Refused? && out.Stop? ==>
                out.result == GetError(if last then ErrTopologyChanged else ErrCancelled))
            && (out.Retry? ==> Same(a, after) && after.tick == b.tick + 1)
  {
    hide Inv, Pick, Tick, Keep;
    CalmTick(cfg, env, b);
    if env.peer(b.tick).Ok? {
      var v := env.peer(b.tick).value;
      var c := Answer(cfg, env, b, KGet, key, owner, v);
      CalmPick(cfg, env, c, key);
    }
  }

  function PeerReplies(env: Env, t: nat, n: nat): seq<Reply>
    decreases n
  {
    if n == 0 then [] else [env.peer(t + 1)] + PeerReplies(env, t + 2, n - 1)
  }

  lemma {:induction false} RemoteGetLoop(cfg: Config, env: Env, s: Node, key: string, attempt: nat)
    requires Inv(cfg, s) && EnvOk(cfg, env) && Calm(cfg, env) && Reachable(env) && attempt < ATTEMPTS
    requires Ready(cfg, s, key) && !cfg.near && cfg.ownerAt(s.epoch, key) !in [cfg.self, ""]
    ensures GetSays(GetLoop(cfg, env, s, key, attempt).1, FirstReply(PeerReplies(env, s.tick, ATTEMPTS - attempt)),
                    ByPeer, cfg.ownerAt(s.epoch, key), s.epoch)
    decreases ATTEMPTS - attempt
  {
    hide Inv, Pick, GetLocal, FetchRemote;
    var last := attempt == ATTEMPTS - 1;
    CalmPick(cfg, env, s, key);
    var (p, owner) := Pick(cfg, env, s, key);
    RemoteGetAttempt(cfg, env, p, p, key, owner, last);
    var (a, out) := GetAttempt(cfg, env, s, key, last);
    if out.Retry? {
      RemoteGetLoop(cfg, env, a, key, attempt + 1);
    }
  }

  /**
   Off the owner and without a near cache, Get returns exactly the first reply
   of the owner that is not a refusal, out of four.
   */
  lemma RemoteGetAnswers(cfg: Config, env: Env, s: Node, key: string)
    requires Inv(cfg, s) && EnvOk(cfg, env) && Calm(cfg, env) && Reachable(env)
    requires Ready(cfg, s, key) && !cfg.near && cfg.ownerAt(s.epoch, key) !in [cfg.self, ""]
    ensures var t := s.tick;
            var replies := [env.peer(t + 1), env.peer(t + 3), env.peer(t + 5), env.peer(t + 7)];
            GetSays(Get(cfg, env, s, key).1, FirstReply(replies), ByPeer, cfg.ownerAt(s.epoch, key), s.epoch)
  {
    hide Inv, GetLoop;
    RemoteGetLoop(cfg, env, s, key, 0);
    FourReplies(env, s.tick);
  }

  lemma FourReplies(env: Env, t: nat)
    ensures PeerReplies(env, t, ATTEMPTS) == [env.peer(t + 1), env.peer(t + 3), env.peer(t + 5), env.peer(t + 7)]
  {
    assert PeerReplies(env, t + 4, 2) == [env.peer(t + 5), env.peer(t + 7)];
  }

  /** The calls that fail before any owner is asked. */
  lemma GetRefusals(cfg: Config, env: Env, s: Node, key: string)
    requires Inv(cfg, s) && EnvOk(cfg, env) && Calm(cfg, env)
    ensures s.closed ==> Get(cfg, env, s, key).1 == GetError(ErrGroupClosed)
    ensures !s.closed && key == "" ==> Get(cfg, env, s, key).1 == GetError(ErrKeyRequired)
    ensures Ready(cfg, s, key) && cfg.ownerAt(s.epoch, key) == "" ==> Get(cfg, env, s, key).1 == GetError(ErrNoOwner)
    ensures Ready(cfg, s, key) && cfg.ownerAt(s.epoch, key) !in [cfg.self, ""] && !env.hasPeer(s.tick + 1) ==>
      Get(cfg, env, s, key).1 == GetError(ErrPeerUnavailable)
  {
    hide Inv, Pick, GetLocal, TryNear, FetchRemote;
    CalmPick(cfg, env, s, key);
  }

  // ---- Set and Delete --------------------------------------------------------------------

  /** The result of a write is what the reply says. */
  predicate WriteSays(r: WriteResult, reply: Reply, owner: string, epoch: nat) {
    match reply
    case Ok(_) => r.Written? && r.exit.Stable? && r.exit.owner == owner && r.exit.epoch == epoch
    case Broken(e) => r == WriteError(e)
    case Refused => r == WriteError(ErrTopologyChanged)
  }

  lemma CalmDropNear(cfg: Config, env: Env, s: Node, key: string)
    requires Inv(cfg, s) && EnvOk(cfg, env) && Calm(cfg, env)
    ensures Same(s, DropNear(cfg, env, s, key))
  {
    hide Inv, Tick, S.Step;
    if cfg.near && cfg.peers {
      CalmTick(cfg, env, s);
      CalmTick(cfg, env, Tick(cfg, env, s));
    }
  }

  lemma CalmMutate(cfg: Config, env: Env, s: Node, kind: Kind, key: string, value: Bytes)
    requires Inv(cfg, s) && EnvOk(cfg, env) && Calm(cfg, env)
    ensures Same(s, MutateHere(cfg, env, s, kind, key, value).0)
  {
    hide Inv, Tick, DropNear;
    CalmTick(cfg, env, s);
    CalmDropNear(cfg, env, Answer(cfg, env, s, kind, key, cfg.self, value), key);
  }

  /** On the owner the first attempt settles. */
  lemma OwnerSettles(cfg: Config, env: Env, s: Node, kind: Kind, key: string, value: Bytes)
    requires Inv(cfg, s) && EnvOk(cfg, env) && Calm(cfg, env)
    requires Ready(cfg, s, key) && cfg.ownerAt(s.epoch, key) == cfg.self != ""
    ensures Settles(cfg, env, s, kind, key, value)
  {
    hide Inv, Pick, Tick, MutateHere;
    CalmPick(cfg, env, s, key);
    var a := Pick(cfg, env, s, key).0;
    CalmTick(cfg, env, a);
    var t := Tick(cfg, env, a);
    CalmPick(cfg, env, t, key);
    CalmMutate(cfg, env, a, kind, key, value);
    CalmMutate(cfg, env, Pick(cfg, env, t, key).0, kind, key, value);
    CalmPick(cfg, env, WriteNode(cfg, env, s, kind, key, value), key);
  }

  /** On the owner, Set of a value returns nil. */
  lemma OwnerSetSucceeds(cfg: Config, env: Env, s: Node, key: string, value: Bytes)
    requires Inv(cfg, s) && EnvOk(cfg, env) && Calm(cfg, env) && value != []
    requires Ready(cfg, s, key) && cfg.ownerAt(s.epoch, key) == cfg.self != ""
    ensures Succeeded(Set(cfg, env, s, key, value).1)
  {
    hide Inv, Set, Settles;
    OwnerSettles(cfg, env, s, KSet, key, value);
    SetSucceedsIff(cfg, env, s, key, value);
  }

  /** On the owner, Delete returns nil. */
  lemma OwnerDeleteSucceeds(cfg: Config, env: Env, s: Node, key: string)
    requires Inv(cfg, s) && EnvOk(cfg, env) && Calm(cfg, env)
    requires Ready(cfg, s, key) && cfg.ownerAt(s.epoch, key) == cfg.self != ""
    ensures Succeeded(Delete(cfg, env, s, key).1)
  {
    hide Inv, Delete, Settles, Proven;
    OwnerSettles(cfg, env, s, KDelete, key, []);
    DeleteSucceedsIff(cfg, env, s, key);
    DeleteMeansDeleted(cfg, env, s, key);
  }

  /** Without peers, Set and Delete return nil. */
  lemma AloneWritesSucceed(cfg: Config, env: Env, s: Node, key: string, value: Bytes)
    requires Inv(cfg, s) && EnvOk(cfg, env) && Calm(cfg, env) && !cfg.peers && !s.closed && key != "" && value != []
    ensures Set(cfg, env, s, key, value).1 == Written(Alone) && Delete(cfg, env, s, key).1 == Written(Alone)
  {
    hide Inv, Set, Tick, MutateHere, Invalidate;
    CalmTick(cfg, env, s);
    AloneSet(cfg, env, s, key, value);
  }

  /** An attempt with a remote owner ends with the peer's reply, two accesses on after a refusal. */
  lemma RemoteWriteAttempt(cfg: Config, env: Env, s: Node, kind: Kind, key: string, value: Bytes, last: bool)
    requires Inv(cfg, s) && EnvOk(cfg, env) && Calm(cfg, env) && Reachable(env)
    requires Ready(cfg, s, key) && cfg.ownerAt(s.epoch, key) !in [cfg.self, ""]
    requires kind == KSet || (kind == KDelete && value == [])
    ensures var (after, out) := AttemptOf(cfg, env, s, kind, key, value, last);
            var reply := env.peer(s.tick + 1);
            && Same(s, after)
            && (out.Again? <==> reply.Refused? && !last)
            && (out.Ended? ==> WriteSays(out.result, reply, cfg.ownerAt(s.epoch, key), s.epoch))
            && (out.Again? ==> after.tick == s.tick + 2)
  {
    hide Inv, Pick, Tick, PeerWrite, AfterPeer, SetLocal, MutateHere, Settle;
    CalmPick(cfg, env, s, key);
    var (a, owner) := Pick(cfg, env, s, key);
    PeerEnds(cfg, env, a, kind, key, owner, value, last);
    CalmTick(cfg, env, a);
    var b := Answer(cfg, env, a, kind, key, owner, value);
    CalmPick(cfg, env, b, key);
  }

  lemma {:induction false} RemoteSetLoop(cfg: Config, env: Env, s: Node, key: string, value: Bytes, attempt: nat,
                                         writes: seq<nat>)
    requires Inv(cfg, s) && EnvOk(cfg, env) && Calm(cfg, env) && Reachable(env) && attempt < ATTEMPTS
    requires Ready(cfg, s, key) && cfg.ownerAt(s.epoch, key) !in [cfg.self, ""]
    ensures Same(s, SetLoop(cfg, env, s, key, value, attempt, writes).0)
    ensures WriteSays(SetLoop(cfg, env, s, key, value, attempt, writes).1,
                      FirstReply(PeerReplies(env, s.tick, ATTEMPTS - attempt)), cfg.ownerAt(s.epoch, key), s.epoch)
    decreases ATTEMPTS - attempt
  {
    hide Inv, SetAttempt;
    var last := attempt == ATTEMPTS - 1;
    RemoteWriteAttempt(cfg, env, s, KSet, key, value, last);
    var (a, out) := SetAttempt(cfg, env, s, key, value, last);
    if out.Again? {
      RemoteSetLoop(cfg, env, a, key, value, attempt + 1, writes + out.writes);
    }
  }

  lemma {:induction false} RemoteDeleteLoop(cfg: Config, env: Env, s: Node, key: string, attempt: nat)
    requires Inv(cfg, s) && EnvOk(cfg, env) && Calm(cfg, env) && Reachable(env) && attempt < ATTEMPTS
    requires Ready(cfg, s, key) && cfg.ownerAt(s.epoch, key) !in [cfg.self, ""]
    ensures Same(s, DeleteLoop(cfg, env, s, key, attempt).0)
    ensures WriteSays(DeleteLoop(cfg, env, s, key, attempt).1,
                      FirstReply(PeerReplies(env, s.tick, ATTEMPTS - attempt)), cfg.ownerAt(s.epoch, key), s.epoch)
    decreases ATTEMPTS - attempt
  {
    hide Inv, DeleteAttempt;
    var last := attempt == ATTEMPTS - 1;
    RemoteWriteAttempt(cfg, env, s, KDelete, key, [], last);
    var (a, out) := DeleteAttempt(cfg, env, s, key, last);
    if out.Again? {
      RemoteDeleteLoop(cfg, env, a, key, attempt + 1);
    }
  }

  /** Off the owner, Set and Delete return exactly what the first reply that is not a refusal says, out of four. */
  lemma RemoteWritesAnswer(cfg: Config, env: Env, s: Node, key: string, value: Bytes)
    requires Inv(cfg, s) && EnvOk(cfg, env) && Calm(cfg, env) && Reachable(env) && value != []
    requires Ready(cfg, s, key) && cfg.ownerAt(s.epoch, key) !in [cfg.self, ""]
    ensures var t := s.tick;
            var reply := FirstReply([env.peer(t + 1), env.peer(t + 3), env.peer(t + 5), env.peer(t + 7)]);
            && WriteSays(Set(cfg, env, s, key, value).1, reply, cfg.ownerAt(s.epoch, key), s.epoch)
            && WriteSays(Delete(cfg, env, s, key).1, reply, cfg.ownerAt(s.epoch, key), s.epoch)
  {
    hide Inv, SetLoop, DeleteLoop, Invalidate, Refill;
    RemoteSetLoop(cfg, env, s, key, value, 0, []);
    RemoteDeleteLoop(cfg, env, s, key, 0);
    FourReplies(env, s.tick);
  }

  /** The writes that fail before any owner is asked. */
  lemma WriteRefusals(cfg: Config, env: Env, s: Node, key: string, value: Bytes)
    requires Inv(cfg, s) && EnvOk(cfg, env) && Calm(cfg, env)
    ensures var p, q := Set(cfg, env, s, key, value).1, Delete(cfg, env, s, key).1;
            && (s.closed ==> p == q == WriteError(ErrGroupClosed))
            && (!s.closed && key == "" ==> p == q == WriteError(ErrKeyRequired))
            && (!s.closed && key != "" && value == [] ==> p == WriteError(ErrValueRequired))
            && (Ready(cfg, s, key) && cfg.ownerAt(s.epoch, key) == "" ==>
                q == WriteError(ErrNoOwner) && (value != [] ==> p == WriteError(ErrNoOwner)))
            && (Ready(cfg, s, key) && cfg.ownerAt(s.epoch, key) !in [cfg.self, ""] && !env.hasPeer(s.tick + 1) ==>
                q == WriteError(ErrPeerUnavailable) && (value != [] ==> p == WriteError(ErrPeerUnavailable)))
  {
    hide Inv, Pick, SetLocal, PeerWrite, MutateHere, Settle, AfterPeer, Invalidate, Refill, SetAlone;
    CalmPick(cfg, env, s, key);
  }
}
