/** Get, Set and Delete of group.go: bounded retry loops over a picker that may change at any point. */
module Routing {
  import opened Common
  import opened RoutingModel

  const ATTEMPTS := 4

  /** The most accesses to shared state that one attempt of Get makes. */
  const GET_ACCESSES := 9

  /** How Get obtained a value. */
  datatype Via = ByOwner | ByPeer | ByNear

  /** Where the node's history holds the evidence: the pick, what was done on it, and the second pick. */
  datatype Trail = Trail(first: nat, mid: nat, last: nat)

  datatype GetResult =
    | Value(value: Bytes, via: Via, owner: string, epoch: nat, trail: Trail)
    | GetError(error: Error)

  /** Owner and epoch agreed before and after the owner-side operation. */
  ghost predicate AgreedOn(log: seq<Event>, t: Trail, kind: Kind, key: string, owner: string, value: Bytes, epoch: nat)
  {
    AgreedAt(log, kind, key, owner, value, epoch, t.first, t.mid, t.last)
  }

  /** Owner and epoch agreed before and after the near-cache hit of this name. */
  ghost predicate NearHit(log: seq<Event>, t: Trail, name: string, key: string, owner: string, value: Bytes, epoch: nat)
  {
    && t.first < t.mid < t.last < |log|
    && log[t.first] == Picked(key, owner, epoch) && log[t.last] == Picked(key, owner, epoch)
    && log[t.mid].Hit? && log[t.mid].name == name && log[t.mid].value == value && log[t.mid].epoch == epoch
  }

  /** The history holds an owner-side operation at or after `base`. */
  ghost predicate HasAnswer(log: seq<Event>, base: nat, kind: Kind, key: string, owner: string, value: Bytes) {
    exists j: nat :: AnswerAt(log, base, kind, key, owner, value, j)
  }

  ghost predicate AnswerAt(log: seq<Event>, base: nat, kind: Kind, key: string, owner: string, value: Bytes, j: nat) {
    base <= j < |log| && log[j].Answered? && log[j] == Answered(kind, key, owner, value, log[j].epoch)
  }

  /** The last events of three successive states. */
  function TrailOf(a: Node, b: Node, c: Node): Trail
    requires a.log != [] && b.log != [] && c.log != []
  {
    Trail(|a.log| - 1, |b.log| - 1, |c.log| - 1)
  }

  /** A pick in the history is what the picker answers in its epoch. */
  lemma PickIsTrue(cfg: Config, s: Node, i: nat)
    requires Inv(cfg, s) && i < |s.log| && s.log[i].Picked?
    ensures s.log[i].owner == cfg.ownerAt(s.log[i].epoch, s.log[i].key)
  {
  }

  /** A picked owner, an owner-side operation and a second pick of the same owner in the same epoch. */
  lemma AgreedBy(cfg: Config, a: Node, b: Node, c: Node, kind: Kind, key: string, owner: string, value: Bytes)
    requires Rely(cfg, a, b) && Rely(cfg, b, c) && c.epoch == a.epoch
    requires a.log != [] && a.log[|a.log| - 1] == Picked(key, owner, a.epoch)
    requires |a.log| < |b.log| && b.log[|b.log| - 1] == Answered(kind, key, owner, value, b.epoch)
    requires |b.log| < |c.log| && c.log[|c.log| - 1] == Picked(key, owner, c.epoch)
    ensures AgreedOn(c.log, TrailOf(a, b, c), kind, key, owner, value, a.epoch)
  {
    hide Inv;
  }

  lemma NearHitBy(cfg: Config, a: Node, b: Node, c: Node, name: string, key: string, owner: string, value: Bytes)
    requires Rely(cfg, a, b) && Rely(cfg, b, c) && c.epoch == a.epoch
    requires a.log != [] && a.log[|a.log| - 1] == Picked(key, owner, a.epoch)
    requires |a.log| < |b.log| && b.log[|b.log| - 1] == Hit(name, value, b.clock, b.epoch)
    requires |b.log| < |c.log| && c.log[|c.log| - 1] == Picked(key, owner, c.epoch)
    ensures NearHit(c.log, TrailOf(a, b, c), name, key, owner, value, a.epoch)
  {
    hide Inv;
  }

  lemma AgreedOnKept(log: seq<Event>, more: seq<Event>, t: Trail, kind: Kind, key: string, owner: string,
                     value: Bytes, epoch: nat)
    requires AgreedOn(log, t, kind, key, owner, value, epoch) && Extends(log, more)
    ensures AgreedOn(more, t, kind, key, owner, value, epoch)
    ensures Agreed(log, 0, kind, key, owner, value, epoch)
  {
  }

  // ---- Get ----------------------------------------------------------------------

  /**
   After a near-cache hit, the last event of `a`: it counts only if the pick `s`
   still stands, otherwise it is dropped.
   */
  function ConfirmHit(cfg: Config, env: Env, s: Node, a: Node, key: string, owner: string, value: Bytes)
    : (r: (Node, Option<(Bytes, Trail)>))
    requires Inv(cfg, s) && EnvOk(cfg, env) && Rely(cfg, s, a)
    requires s.log != [] && s.log[|s.log| - 1] == Picked(key, owner, s.epoch)
    requires |s.log| < |a.log| && a.log[|a.log| - 1] == Hit(NearKey(s.epoch, key), value, a.clock, a.epoch)
    ensures Rely(cfg, s, r.0) && r.0.tick <= a.tick + 2
    ensures r.1.Some? ==>
      && r.1.value.1.first == |s.log| - 1
      && NearHit(r.0.log, r.1.value.1, NearKey(s.epoch, key), key, owner, r.1.value.0, s.epoch)
  {
    var (b, now) := Pick(cfg, env, a, key);
    RelyTransitive(cfg, s, a, b);
    if now == owner && b.epoch == s.epoch then
      NearHitBy(cfg, s, a, b, NearKey(s.epoch, key), key, owner, value);
      (b, Some((value, TrailOf(s, a, b))))
    else
      RelyTransitive(cfg, s, b, NearDrop(cfg, env, b, NearKey(s.epoch, key)));
      (NearDrop(cfg, env, b, NearKey(s.epoch, key)), None)
  }

  /** The near-cache part of one attempt. */
  function TryNear(cfg: Config, env: Env, s: Node, key: string, owner: string): (r: (Node, Option<(Bytes, Trail)>))
    requires Inv(cfg, s) && EnvOk(cfg, env)
    requires s.log != [] && s.log[|s.log| - 1] == Picked(key, owner, s.epoch)
    ensures Rely(cfg, s, r.0)
    ensures r.1.Some? ==>
      && r.1.value.1.first == |s.log| - 1
      && NearHit(r.0.log, r.1.value.1, NearKey(s.epoch, key), key, owner, r.1.value.0, s.epoch)
    ensures r.0.tick <= s.tick + 3
  {
    if !cfg.near then (s, None)
    else
      var (a, hit) := NearGet(cfg, env, s, NearKey(s.epoch, key));
      if hit.None? then (a, None) else ConfirmHit(cfg, env, s, a, key, owner, hit.value)
  }

  /** The answer of the local owner path; a value is noted as one that this node answered. */
  function LocalReply(cfg: Config, env: Env, s: Node, key: string): (r: (Node, Reply))
    requires Inv(cfg, s) && EnvOk(cfg, env)
    ensures Rely(cfg, s, r.0) && r.1 == env.local(s.tick)
    ensures r.1.Ok? ==>
      |s.log| < |r.0.log| && r.0.log[|r.0.log| - 1] == Answered(KGet, key, cfg.self, r.1.value, r.0.epoch)
    ensures r.0.tick == s.tick + 1
  {
    match env.local(s.tick)
    case Ok(v) => (Answer(cfg, env, s, KGet, key, cfg.self, v), Ok(v))
    case Refused => (Tick(cfg, env, s), Refused)
    case Broken(e) => (Tick(cfg, env, s), Broken(e))
  }

  /** getLocal as the router sees it: its own ownership check, then an answer. */
  function GetLocal(cfg: Config, env: Env, s: Node, key: string): (r: (Node, Reply))
    requires Inv(cfg, s) && EnvOk(cfg, env)
    ensures Rely(cfg, s, r.0)
    ensures r.1.Ok? ==>
      |s.log| < |r.0.log| && r.0.log[|r.0.log| - 1] == Answered(KGet, key, cfg.self, r.1.value, r.0.epoch)
    ensures r.0.tick <= s.tick + 3
  {
    var a := Tick(cfg, env, s);
    if a.closed then (a, Broken(ErrGroupClosed))
    else if !cfg.peers then
      RelyTransitive(cfg, s, a, LocalReply(cfg, env, a, key).0);
      LocalReply(cfg, env, a, key)
    else
      var (b, owner) := Pick(cfg, env, a, key);
      RelyTransitive(cfg, s, a, b);
      if owner == "" then (b, Broken(ErrNoOwner))
      else if owner != cfg.self then (b, Refused)
      else
        RelyTransitive(cfg, s, b, LocalReply(cfg, env, b, key).0);
        LocalReply(cfg, env, b, key)
  }

  /** peer.Get */
  function PeerGet(cfg: Config, env: Env, s: Node, key: string, owner: string): (r: (Node, Reply))
    requires Inv(cfg, s) && EnvOk(cfg, env)
    ensures Rely(cfg, s, r.0)
    ensures r.1.Ok? ==>
      |s.log| < |r.0.log| && r.0.log[|r.0.log| - 1] == Answered(KGet, key, owner, r.1.value, r.0.epoch)
    ensures r.0.tick == s.tick + 1
  {
    match env.peer(s.tick)
    case Ok(v) => (Answer(cfg, env, s, KGet, key, owner, v), Ok(v))
    case Refused => (Tick(cfg, env, s), Refused)
    case Broken(e) => (Tick(cfg, env, s), Broken(e))
  }

  /** What one attempt of Get ends with: a result, or another attempt. */
  datatype Attempt<R> = Stop(result: R) | Retry

  /** The near-cache fill after an agreed fetch. */
  function Keep(cfg: Config, env: Env, s: Node, key: string, epoch: nat, ghost kind: Kind, value: Bytes): (r: Node)
    requires Inv(cfg, s) && EnvOk(cfg, env) && Storable(cfg, s.log, key, epoch, kind, value)
    ensures Rely(cfg, s, r)
    ensures r.tick <= s.tick + 3
  {
    if cfg.near then NearPut(cfg, env, s, key, epoch, kind, value) else s
  }

  /**
   After a peer's value, the last event of `a`: it counts, and is kept near,
   only if the pick `start` still stands.
   */
  function ConfirmFetch(cfg: Config, env: Env, start: Node, a: Node, key: string, owner: string, value: Bytes)
    : (r: (Node, Attempt<GetResult>))
    requires EnvOk(cfg, env) && Inv(cfg, start) && Rely(cfg, start, a)
    requires start.log != [] && start.log[|start.log| - 1] == Picked(key, owner, start.epoch)
    requires |start.log| < |a.log| && a.log[|a.log| - 1] == Answered(KGet, key, owner, value, a.epoch)
    requires owner != "" && owner != cfg.self
    ensures Rely(cfg, start, r.0)
    ensures r.1.Stop? ==>
      && var v := r.1.result;
         && v.Value? && v.via == ByPeer && v.owner == owner && v.epoch == start.epoch && v.value == value
         && v.trail.first == |start.log| - 1 && AgreedOn(r.0.log, v.trail, KGet, key, owner, value, start.epoch)
    ensures r.0.tick <= a.tick + 4
  {
    var (b, now) := Pick(cfg, env, a, key);
    RelyTransitive(cfg, start, a, b);
    if now != owner || b.epoch != start.epoch then (b, Retry)
    else
      AgreedBy(cfg, start, a, b, KGet, key, owner, value);
      var trail := TrailOf(start, a, b);
      AgreedOnKept(b.log, b.log, trail, KGet, key, owner, value, start.epoch);
      var c := Keep(cfg, env, b, key, start.epoch, KGet, value);
      RelyTransitive(cfg, start, b, c);
      AgreedOnKept(b.log, c.log, trail, KGet, key, owner, value, start.epoch);
      (c, Stop(Value(value, ByPeer, owner, start.epoch, trail)))
  }

  /** One attempt with a remote owner, after the near cache missed. */
  function FetchRemote(cfg: Config, env: Env, start: Node, s: Node, key: string, owner: string, last: bool)
    : (r: (Node, Attempt<GetResult>))
    requires EnvOk(cfg, env) && Inv(cfg, start) && Rely(cfg, start, s)
    requires start.log != [] && start.log[|start.log| - 1] == Picked(key, owner, start.epoch)
    requires owner != "" && owner != cfg.self
    ensures Rely(cfg, start, r.0)
    ensures r.1.Stop? && r.1.result.Value? ==>
      && var v := r.1.result;
         && v.via == ByPeer && v.owner == owner && v.epoch == start.epoch && v.trail.first == |start.log| - 1
         && AgreedOn(r.0.log, v.trail, KGet, key, owner, v.value, start.epoch)
    ensures r.0.tick <= s.tick + 5
  {
    var (a, reply) := PeerGet(cfg, env, s, key, owner);
    RelyTransitive(cfg, start, s, a);
    match reply
    case Refused =>
      if last then (a, Stop(GetError(ErrTopologyChanged)))
      else if env.cancelled(a.tick) then (a, Stop(GetError(ErrCancelled)))
      else (a, Retry)
    case Broken(e) => (a, Stop(GetError(e)))
    case Ok(v) => ConfirmFetch(cfg, env, start, a, key, owner, v)
  }

  /** One attempt of Get. */
  function GetAttempt(cfg: Config, env: Env, s: Node, key: string, last: bool): (r: (Node, Attempt<GetResult>))
    requires Inv(cfg, s) && EnvOk(cfg, env)
    ensures Rely(cfg, s, r.0)
    ensures r.0.tick <= s.tick + GET_ACCESSES
  {
    var (a, owner) := Pick(cfg, env, s, key);
    if owner == "" then (a, Stop(GetError(ErrNoOwner)))
    else if owner == cfg.self then
      var (b, reply) := GetLocal(cfg, env, a, key);
      RelyTransitive(cfg, s, a, b);
      (b, match reply
          case Ok(v) => Stop(Value(v, ByOwner, owner, a.epoch, TrailOf(a, b, b)))
          case Refused => Retry
          case Broken(e) => Stop(GetError(e)))
    else if !env.hasPeer(a.tick) then (a, Stop(GetError(ErrPeerUnavailable)))
    else
      var (b, hit) := TryNear(cfg, env, a, key, owner);
      RelyTransitive(cfg, s, a, b);
      if hit.Some? then (b, Stop(Value(hit.value.0, ByNear, owner, a.epoch, hit.value.1)))
      else
        RelyTransitive(cfg, s, a, FetchRemote(cfg, env, a, b, key, owner, last).0);
        FetchRemote(cfg, env, a, b, key, owner, last)
  }

  function GetLoop(cfg: Config, env: Env, s: Node, key: string, attempt: nat): (r: (Node, GetResult))
    requires Inv(cfg, s) && EnvOk(cfg, env) && attempt <= ATTEMPTS
    ensures Rely(cfg, s, r.0)
    ensures r.0.tick <= s.tick + GET_ACCESSES * (ATTEMPTS - attempt)
    decreases ATTEMPTS - attempt
  {
    if attempt == ATTEMPTS then (s, GetError(ErrTopologyChanged))
    else
      var (a, out) := GetAttempt(cfg, env, s, key, attempt == ATTEMPTS - 1);
      match out
      case Stop(result) => (a, result)
      case Retry =>
        RelyTransitive(cfg, s, a, GetLoop(cfg, env, a, key, attempt + 1).0);
        GetLoop(cfg, env, a, key, attempt + 1)
  }

  function Get(cfg: Config, env: Env, s: Node, key: string): (r: (Node, GetResult))
    requires Inv(cfg, s) && EnvOk(cfg, env)
    ensures Rely(cfg, s, r.0)
    ensures r.0.tick <= s.tick + GET_ACCESSES * ATTEMPTS
  {
    if s.closed then (s, GetError(ErrGroupClosed))
    else if key == "" then (s, GetError(ErrKeyRequired))
    else if !cfg.peers then
      var (a, reply) := GetLocal(cfg, env, s, key);
      (a, match reply
          case Ok(v) => Value(v, ByOwner, cfg.self, 0, TrailOf(a, a, a))
          case Refused => GetError(ErrTopologyChanged)
          case Broken(e) => GetError(e))
    else GetLoop(cfg, env, s, key, 0)
  }

  // ---- What a value returned by Get rests on ---------------------------------------

  /** What the history must hold from event `base` on when a value is returned. */
  ghost predicate Justified(cfg: Config, base: nat, key: string, p: (Node, GetResult)) {
    var (s, r) := p;
    r.Value? ==>
      && base <= r.trail.first
      && match r.via
         case ByOwner =>
           && r.owner == cfg.self && AnswerAt(s.log, base, KGet, key, cfg.self, r.value, r.trail.mid)
           && (cfg.peers ==> r.trail.first < r.trail.mid && s.log[r.trail.first] == Picked(key, cfg.self, r.epoch))
         case ByPeer => r.owner != cfg.self && AgreedOn(s.log, r.trail, KGet, key, r.owner, r.value, r.epoch)
         case ByNear =>
           && r.owner != cfg.self
           && NearHit(s.log, r.trail, NearKey(r.epoch, key), key, r.owner, r.value, r.epoch)
  }

  lemma AttemptJustified(cfg: Config, env: Env, s: Node, key: string, last: bool, base: nat)
    requires Inv(cfg, s) && EnvOk(cfg, env) && base <= |s.log|
    ensures var (after, out) := GetAttempt(cfg, env, s, key, last);
            out.Stop? ==> Justified(cfg, base, key, (after, out.result))
  {
    hide Inv, Pick, GetLocal, TryNear, FetchRemote;
    var (a, owner) := Pick(cfg, env, s, key);
    if owner == cfg.self && owner != "" {
      var (b, reply) := GetLocal(cfg, env, a, key);
      assert b.log[|a.log| - 1] == Picked(key, cfg.self, a.epoch);
    }
  }

  lemma {:induction false} LoopJustified(cfg: Config, env: Env, s: Node, key: string, attempt: nat, base: nat)
    requires Inv(cfg, s) && EnvOk(cfg, env) && attempt <= ATTEMPTS && base <= |s.log|
    ensures Justified(cfg, base, key, GetLoop(cfg, env, s, key, attempt))
    decreases ATTEMPTS - attempt
  {
    hide GetAttempt;
    if attempt < ATTEMPTS {
      var (a, out) := GetAttempt(cfg, env, s, key, attempt == ATTEMPTS - 1);
      if out.Retry? {
        LoopJustified(cfg, env, a, key, attempt + 1, base);
      } else {
        AttemptJustified(cfg, env, s, key, attempt == ATTEMPTS - 1, base);
      }
    }
  }

  /**
   Against any environment, a value fetched from a peer is returned only when
   owner and epoch agreed before and after the fetch, a near-cache value only
   when they agreed before and after the hit, and a local value only when this
   node was picked and then answered with it, or answered with it without peers;
   the evidence lies within the call.
   */
  lemma GetIsJustified(cfg: Config, env: Env, s: Node, key: string)
    requires Inv(cfg, s) && EnvOk(cfg, env)
    ensures Justified(cfg, |s.log|, key, Get(cfg, env, s, key))
  {
    hide Inv, GetLocal, GetLoop;
    if cfg.peers && !s.closed && key != "" {
      LoopJustified(cfg, env, s, key, 0, |s.log|);
    }
  }

  /**
   A value for this very key, agreed on with this very owner in this very epoch,
   stored less than nearTTL before it was hit and neither dropped nor replaced
   in between.
   */
  ghost predicate NearTruth(cfg: Config, log: seq<Event>, hit: nat, key: string, value: Bytes, owner: string,
                            epoch: nat)
    requires hit < |log| && log[hit].Hit?
  {
    exists kind, stored: nat :: stored < hit && NearTruthAt(cfg, log, hit, key, value, owner, epoch, kind, stored)
  }

  ghost predicate NearTruthAt(cfg: Config, log: seq<Event>, hit: nat, key: string, value: Bytes,
                              owner: string, epoch: nat, kind: Kind, stored: nat)
    requires stored < hit < |log| && log[hit].Hit?
  {
    && log[stored].Stored? && log[stored].value == value
    && log[hit].at < log[stored].at + cfg.nearTTL
    && Untouched(log[..hit], NearKey(epoch, key), stored)
    && kind != KDelete && Agreed(log[..stored], 0, kind, key, owner, value, epoch)
  }

  lemma HitOrigin(cfg: Config, log: seq<Event>, hit: nat, key: string, epoch: nat)
    requires HitsOk(cfg, log)
    requires hit < |log| && log[hit].Hit? && log[hit].name == NearKey(epoch, key)
    ensures NearTruth(cfg, log, hit, key, log[hit].value, cfg.ownerAt(epoch, key), epoch)
  {
    var o, d :| OriginOk(cfg, log[..hit], log[hit].name, log[hit].value, Some(d), o)
             && log[hit].at < log[..hit][o.stored].at + cfg.nearTTL;
    NearKeyInjective(o.epoch, o.key, epoch, key);
    assert log[..hit][..o.stored] == log[..o.stored];
    assert NearTruthAt(cfg, log, hit, key, log[hit].value, cfg.ownerAt(epoch, key), epoch, o.kind, o.stored);
  }

  /**
   A near-cache value that Get returns was fetched or written for that same key
   from that same remote owner within the epoch of the call, and nearTTL had
   not elapsed since it was stored. This rests on near-cache keys being
   injective in epoch and key.
   */
  lemma NearValueIsTrue(cfg: Config, env: Env, s: Node, key: string)
    requires Inv(cfg, s) && EnvOk(cfg, env) && cfg.peers
    requires Get(cfg, env, s, key).1.Value? && Get(cfg, env, s, key).1.via == ByNear
    ensures var (after, r) := Get(cfg, env, s, key);
            && r.trail.mid < |after.log| && after.log[r.trail.mid].Hit?
            && NearTruth(cfg, after.log, r.trail.mid, key, r.value, r.owner, r.epoch)
  {
    var (after, r) := Get(cfg, env, s, key);
    GetIsJustified(cfg, env, s, key);
    PickIsTrue(cfg, after, r.trail.first);
    HitOrigin(cfg, after.log, r.trail.mid, key, r.epoch);
  }
}
