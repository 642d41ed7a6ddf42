/** Set and Delete of group.go. */
module RoutingWrites {
  import opened Common
  import opened RoutingModel
  import opened Routing

  /** The most accesses to shared state that one attempt of Set, or of Delete, makes. */
  const SET_ACCESSES := 7
  const DELETE_ACCESSES := 5

  /** How the retry loop of a write was left. */
  datatype Exit =
    | Alone                                           // no peers: the local write
    | Stable(owner: string, epoch: nat, trail: Trail) // owner and epoch agreed around the write
    | Exhausted(writes: seq<nat>)                     // four attempts without agreement; the events of their writes

  datatype WriteResult = Written(exit: Exit) | WriteError(error: Error)

  /**
   What one attempt of a write ends with: a result, or another attempt and the
   event of a write it had carried out.
   */
  datatype WriteAttempt = Ended(result: WriteResult) | Again(writes: seq<nat>)

  /** All these events, at or after `base`, are this operation carried out by some owner. */
  ghost predicate AllCarried(log: seq<Event>, base: nat, kind: Kind, key: string, value: Bytes, writes: seq<nat>) {
    forall i :: 0 <= i < |writes| ==> CarriedAt(log, base, kind, key, value, writes[i])
  }

  ghost predicate CarriedAt(log: seq<Event>, base: nat, kind: Kind, key: string, value: Bytes, j: nat) {
    base <= j < |log| && log[j].Answered? && AnswerAt(log, base, kind, key, log[j].owner, value, j)
  }

  /** A write that ended stable has its evidence in the history, at or after event `base`. */
  ghost predicate Proven(base: nat, kind: Kind, key: string, value: Bytes, p: (Node, WriteResult)) {
    p.1.Written? && p.1.exit.Stable? ==>
      && base <= p.1.exit.trail.first
      && AgreedOn(p.0.log, p.1.exit.trail, kind, key, p.1.exit.owner, value, p.1.exit.epoch)
  }

  // ---- Pieces ---------------------------------------------------------------------

  /** invalidateNearKey: drops the near copy of the current epoch. */
  function DropNear(cfg: Config, env: Env, s: Node, key: string): (r: Node)
    requires Inv(cfg, s) && EnvOk(cfg, env)
    ensures Rely(cfg, s, r)
    ensures r.tick <= s.tick + 2
  {
    if !cfg.near || !cfg.peers then s
    else
      var a := Tick(cfg, env, s);
      RelyTransitive(cfg, s, a, NearDrop(cfg, env, a, NearKey(a.epoch, key)));
      NearDrop(cfg, env, a, NearKey(a.epoch, key))
  }

  /** The locked mutation of setLocal or deleteLocal, then the near-cache invalidation; the mutation is event `r.1`. */
  function MutateHere(cfg: Config, env: Env, s: Node, kind: Kind, key: string, value: Bytes): (r: (Node, nat))
    requires Inv(cfg, s) && EnvOk(cfg, env)
    ensures Rely(cfg, s, r.0)
    ensures AnswerAt(r.0.log, |s.log|, kind, key, cfg.self, value, r.1)
    ensures r.0.tick <= s.tick + 3
  {
    var a := Answer(cfg, env, s, kind, key, cfg.self, value);
    var b := DropNear(cfg, env, a, key);
    RelyTransitive(cfg, s, a, b);
    (b, |a.log| - 1)
  }

  /** What a write to the owner ended with; `done` is the event of the operation. */
  datatype OwnerReply = Done(done: nat) | NotHere | Failed(error: Error)

  /** setLocal: closed check, ownership check, mutation. */
  function SetLocal(cfg: Config, env: Env, s: Node, key: string, value: Bytes): (r: (Node, OwnerReply))
    requires Inv(cfg, s) && EnvOk(cfg, env)
    ensures Rely(cfg, s, r.0)
    ensures r.1.Done? ==> AnswerAt(r.0.log, |s.log|, KSet, key, cfg.self, value, r.1.done)
    ensures r.1.NotHere? ==> cfg.peers && cfg.ownerAt(r.0.epoch, key) != cfg.self
    ensures r.0.tick <= s.tick + 5
  {
    var a := Tick(cfg, env, s);
    if a.closed then (a, Failed(ErrGroupClosed))
    else if !cfg.peers then
      var (b, j) := MutateHere(cfg, env, a, KSet, key, value);
      RelyTransitive(cfg, s, a, b);
      (b, Done(j))
    else
      var (b, owner) := Pick(cfg, env, a, key);
      RelyTransitive(cfg, s, a, b);
      if owner == "" then (b, Failed(ErrNoOwner))
      else if owner != cfg.self then (b, NotHere)
      else
        var (c, j) := MutateHere(cfg, env, b, KSet, key, value);
        RelyTransitive(cfg, s, b, c);
        (c, Done(j))
  }

  /** peer.Set and peer.Delete. */
  function PeerWrite(cfg: Config, env: Env, s: Node, kind: Kind, key: string, owner: string, value: Bytes)
    : (r: (Node, OwnerReply))
    requires Inv(cfg, s) && EnvOk(cfg, env)
    ensures Rely(cfg, s, r.0)
    ensures r.1.Done? ==> AnswerAt(r.0.log, |s.log|, kind, key, owner, value, r.1.done)
    ensures r.0.tick == s.tick + 1
  {
    match env.peer(s.tick)
    case Ok(_) =>
      var a := Answer(cfg, env, s, kind, key, owner, value);
      (a, Done(|a.log| - 1))
    case Refused => (Tick(cfg, env, s), NotHere)
    case Broken(e) => (Tick(cfg, env, s), Failed(e))
  }

  /** A pick, an operation somewhere after it, and a second pick of the same owner in the same epoch. */
  lemma AgreedAround(cfg: Config, a: Node, b: Node, c: Node, kind: Kind, key: string, owner: string, value: Bytes,
                     j: nat)
    requires Rely(cfg, a, b) && Rely(cfg, b, c) && c.epoch == a.epoch
    requires a.log != [] && a.log[|a.log| - 1] == Picked(key, owner, a.epoch)
    requires AnswerAt(b.log, |a.log|, kind, key, owner, value, j)
    requires |b.log| < |c.log| && c.log[|c.log| - 1] == Picked(key, owner, c.epoch)
    ensures AgreedOn(c.log, Trail(|a.log| - 1, j, |c.log| - 1), kind, key, owner, value, a.epoch)
  {
  }

  /** The second PickOwner of an attempt: the write is settled, or there is another attempt. */
  function Settle(cfg: Config, env: Env, start: Node, s: Node, kind: Kind, key: string, owner: string, value: Bytes,
                  j: nat, last: bool): (r: (Node, WriteAttempt))
    requires EnvOk(cfg, env) && Inv(cfg, start) && Rely(cfg, start, s)
    requires start.log != [] && start.log[|start.log| - 1] == Picked(key, owner, start.epoch)
    requires AnswerAt(s.log, |start.log|, kind, key, owner, value, j)
    ensures Rely(cfg, start, r.0)
    ensures r.1.Ended? && r.1.result.Written? ==> r.1.result.exit.Stable?
    ensures r.1.Ended? ==> Proven(|start.log| - 1, kind, key, value, (r.0, r.1.result))
    ensures r.1.Again? ==> AllCarried(r.0.log, |start.log|, kind, key, value, r.1.writes)
    ensures last ==> r.1.Ended?
    ensures r.0.tick == s.tick + 1
  {
    var (a, now) := Pick(cfg, env, s, key);
    RelyTransitive(cfg, start, s, a);
    if now == owner && a.epoch == start.epoch then
      AgreedAround(cfg, start, s, a, kind, key, owner, value, j);
      (a, Ended(Written(Stable(owner, start.epoch, Trail(|start.log| - 1, j, |a.log| - 1)))))
    else if last then (a, Ended(WriteError(ErrTopologyChanged)))
    else (a, Again([j]))
  }

  /** What an attempt with a remote owner does after the owner replied. */
  function AfterPeer(cfg: Config, env: Env, start: Node, s: Node, kind: Kind, key: string, owner: string, value: Bytes,
                     reply: OwnerReply, last: bool): (r: (Node, WriteAttempt))
    requires EnvOk(cfg, env) && Inv(cfg, start) && Rely(cfg, start, s)
    requires start.log != [] && start.log[|start.log| - 1] == Picked(key, owner, start.epoch)
    requires reply.Done? ==> AnswerAt(s.log, |start.log|, kind, key, owner, value, reply.done)
    ensures Rely(cfg, start, r.0)
    ensures r.1.Ended? && r.1.result.Written? ==> r.1.result.exit.Stable?
    ensures r.1.Ended? ==> Proven(|start.log| - 1, kind, key, value, (r.0, r.1.result))
    ensures r.1.Again? ==> AllCarried(r.0.log, |start.log|, kind, key, value, r.1.writes)
    ensures last ==> r.1.Ended?
    ensures r.0.tick <= s.tick + 1
  {
    match reply
    case Done(j) => Settle(cfg, env, start, s, kind, key, owner, value, j, last)
    case Failed(e) => (s, Ended(WriteError(e)))
    case NotHere =>
      if last then (s, Ended(WriteError(ErrTopologyChanged)))
      else if env.cancelled(s.tick) then (s, Ended(WriteError(ErrCancelled)))
      else (s, Again([]))
  }

  // ---- Set ---------------------------------------------------------------------------

  /** One attempt of Set with peers. */
  function SetAttempt(cfg: Config, env: Env, s: Node, key: string, value: Bytes, last: bool): (r: (Node, WriteAttempt))
    requires Inv(cfg, s) && EnvOk(cfg, env)
    ensures Rely(cfg, s, r.0)
    ensures r.1.Ended? ==> Proven(|s.log|, KSet, key, value, (r.0, r.1.result))
    ensures r.1.Ended? && r.1.result.Written? ==> r.1.result.exit.Stable?
    ensures r.1.Again? ==> AllCarried(r.0.log, |s.log|, KSet, key, value, r.1.writes)
    ensures r.0.tick <= s.tick + SET_ACCESSES
  {
    var (a, owner) := Pick(cfg, env, s, key);
    if owner == "" then (a, Ended(WriteError(ErrNoOwner)))
    else if owner == cfg.self then
      var (b, reply) := SetLocal(cfg, env, a, key, value);
      RelyTransitive(cfg, s, a, b);
      match reply
      case NotHere => (b, Again([]))
      case Failed(e) => (b, Ended(WriteError(e)))
      case Done(j) =>
        RelyTransitive(cfg, s, a, Settle(cfg, env, a, b, KSet, key, owner, value, j, last).0);
        Settle(cfg, env, a, b, KSet, key, owner, value, j, last)
    else if !env.hasPeer(a.tick) then (a, Ended(WriteError(ErrPeerUnavailable)))
    else
      var (b, reply) := PeerWrite(cfg, env, a, KSet, key, owner, value);
      RelyTransitive(cfg, s, a, AfterPeer(cfg, env, a, b, KSet, key, owner, value, reply, last).0);
      AfterPeer(cfg, env, a, b, KSet, key, owner, value, reply, last)
  }

  /** The loop from `attempt` on, when earlier attempts had carried out `writes`. */
  function SetLoop(cfg: Config, env: Env, s: Node, key: string, value: Bytes, attempt: nat, writes: seq<nat>)
    : (r: (Node, WriteResult))
    requires Inv(cfg, s) && EnvOk(cfg, env) && attempt <= ATTEMPTS
    ensures Rely(cfg, s, r.0)
    ensures Proven(|s.log|, KSet, key, value, r)
    ensures r.1.Written? ==> !r.1.exit.Alone?
    ensures r.0.tick <= s.tick + SET_ACCESSES * (ATTEMPTS - attempt)
    decreases ATTEMPTS - attempt
  {
    if attempt == ATTEMPTS then (s, Written(Exhausted(writes)))
    else
      var (a, out) := SetAttempt(cfg, env, s, key, value, attempt == ATTEMPTS - 1);
      match out
      case Ended(result) => (a, result)
      case Again(more) =>
        RelyTransitive(cfg, s, a, SetLoop(cfg, env, a, key, value, attempt + 1, writes + more).0);
        SetLoop(cfg, env, a, key, value, attempt + 1, writes + more)
  }

  /** The single attempt of Set without peers. */
  function SetAlone(cfg: Config, env: Env, s: Node, key: string, value: Bytes): (r: (Node, WriteResult))
    requires Inv(cfg, s) && EnvOk(cfg, env) && !cfg.peers
    ensures Rely(cfg, s, r.0)
    ensures r.1.Written? ==> r.1.exit.Alone? && HasAnswer(r.0.log, |s.log|, KSet, key, cfg.self, value)
    ensures r.0.tick <= s.tick + SET_ACCESSES
  {
    var (a, reply) := SetLocal(cfg, env, s, key, value);
    match reply
    case Done(j) => (a, Written(Alone))
    case Failed(e) => (a, WriteError(e))
    case NotHere => (a, WriteError(ErrTopologyChanged))
  }

  /** invalidateLocalCopies and invalidatePeerCopies, as far as this node's near cache is concerned. */
  function Invalidate(cfg: Config, env: Env, s: Node, key: string): (r: Node)
    requires Inv(cfg, s) && EnvOk(cfg, env)
    ensures Rely(cfg, s, r)
    ensures r.tick <= s.tick + 4
  {
    var a := if cfg.peers then Pick(cfg, env, s, key).0 else s;
    var b := DropNear(cfg, env, a, key);
    RelyTransitive(cfg, s, a, b);
    RelyTransitive(cfg, s, b, Tick(cfg, env, b));
    Tick(cfg, env, b)
  }

  /** The variables `owner` and `stableEpoch` as the loop of Set leaves them: the fourth refusal is by this node. */
  function LeftBy(cfg: Config, exit: Exit): (string, nat) {
    match exit
    case Alone => ("", 0)
    case Stable(owner, epoch, _) => (owner, epoch)
    case Exhausted(_) => (cfg.self, 0)
  }

  /** The writer's own near copy, kept only if the pick of the stable epoch still stands; no epoch is 0. */
  function Refill(cfg: Config, env: Env, s: Node, key: string, value: Bytes, exit: Exit): (r: Node)
    requires Inv(cfg, s) && EnvOk(cfg, env)
    requires exit.Stable? ==> AgreedOn(s.log, exit.trail, KSet, key, exit.owner, value, exit.epoch)
    ensures Rely(cfg, s, r)
    ensures r.tick <= s.tick + 4
  {
    var (owner, stableEpoch) := LeftBy(cfg, exit);
    if !cfg.peers || !cfg.near || owner == "" then s
    else
      var (a, now) := Pick(cfg, env, s, key);
      if now == "" || now != owner || a.epoch != stableEpoch || now == cfg.self then a
      else
        AgreedOnKept(s.log, a.log, exit.trail, KSet, key, exit.owner, value, exit.epoch);
        AgreedOnKept(a.log, a.log, exit.trail, KSet, key, exit.owner, value, exit.epoch);
        RelyTransitive(cfg, s, a, NearPut(cfg, env, a, key, exit.epoch, KSet, value));
        NearPut(cfg, env, a, key, exit.epoch, KSet, value)
  }

  function Set(cfg: Config, env: Env, s: Node, key: string, value: Bytes): (r: (Node, WriteResult))
    requires Inv(cfg, s) && EnvOk(cfg, env)
    ensures Rely(cfg, s, r.0)
    ensures r.0.tick <= s.tick + SET_ACCESSES * ATTEMPTS + 8
  {
    if s.closed then (s, WriteError(ErrGroupClosed))
    else if key == "" then (s, WriteError(ErrKeyRequired))
    else if value == [] then (s, WriteError(ErrValueRequired))
    else
      var (a, r) := if cfg.peers then SetLoop(cfg, env, s, key, value, 0, []) else SetAlone(cfg, env, s, key, value);
      if r.WriteError? then (a, r)
      else
        var b := Invalidate(cfg, env, a, key);
        RelyTransitive(cfg, s, a, b);
        Carry(a.log, b.log, key, value, r.exit);
        RelyTransitive(cfg, s, b, Refill(cfg, env, b, key, value, r.exit));
        (Refill(cfg, env, b, key, value, r.exit), r)
  }

  lemma Carry(log: seq<Event>, more: seq<Event>, key: string, value: Bytes, exit: Exit)
    requires Extends(log, more)
    requires exit.Stable? ==> AgreedOn(log, exit.trail, KSet, key, exit.owner, value, exit.epoch)
    ensures exit.Stable? ==> AgreedOn(more, exit.trail, KSet, key, exit.owner, value, exit.epoch)
  {
  }

  // ---- Delete -------------------------------------------------------------------------

  /** One attempt of Delete with peers; the local path has no ownership check of its own. */
  function DeleteAttempt(cfg: Config, env: Env, s: Node, key: string, last: bool): (r: (Node, WriteAttempt))
    requires Inv(cfg, s) && EnvOk(cfg, env)
    ensures Rely(cfg, s, r.0)
    ensures r.1.Ended? ==> Proven(|s.log|, KDelete, key, [], (r.0, r.1.result))
    ensures r.1.Ended? && r.1.result.Written? ==> r.1.result.exit.Stable?
    ensures last ==> r.1.Ended?
    ensures r.0.tick <= s.tick + DELETE_ACCESSES
  {
    var (a, owner) := Pick(cfg, env, s, key);
    if owner == "" then (a, Ended(WriteError(ErrNoOwner)))
    else if owner == cfg.self then
      var (b, j) := MutateHere(cfg, env, a, KDelete, key, []);
      RelyTransitive(cfg, s, a, Settle(cfg, env, a, b, KDelete, key, owner, [], j, last).0);
      Settle(cfg, env, a, b, KDelete, key, owner, [], j, last)
    else if !env.hasPeer(a.tick) then (a, Ended(WriteError(ErrPeerUnavailable)))
    else
      var (b, reply) := PeerWrite(cfg, env, a, KDelete, key, owner, []);
      RelyTransitive(cfg, s, a, AfterPeer(cfg, env, a, b, KDelete, key, owner, [], reply, last).0);
      AfterPeer(cfg, env, a, b, KDelete, key, owner, [], reply, last)
  }

  function DeleteLoop(cfg: Config, env: Env, s: Node, key: string, attempt: nat): (r: (Node, WriteResult))
    requires Inv(cfg, s) && EnvOk(cfg, env) && attempt <= ATTEMPTS
    ensures Rely(cfg, s, r.0)
    ensures Proven(|s.log|, KDelete, key, [], r)
    ensures r.1.Written? && attempt < ATTEMPTS ==> r.1.exit.Stable?
    ensures r.0.tick <= s.tick + DELETE_ACCESSES * (ATTEMPTS - attempt)
    decreases ATTEMPTS - attempt
  {
    if attempt == ATTEMPTS then (s, Written(Exhausted([])))
    else
      var (a, out) := DeleteAttempt(cfg, env, s, key, attempt == ATTEMPTS - 1);
      match out
      case Ended(result) => (a, result)
      case Again(_) =>
        RelyTransitive(cfg, s, a, DeleteLoop(cfg, env, a, key, attempt + 1).0);
        DeleteLoop(cfg, env, a, key, attempt + 1)
  }

  function Delete(cfg: Config, env: Env, s: Node, key: string): (r: (Node, WriteResult))
    requires Inv(cfg, s) && EnvOk(cfg, env)
    ensures Rely(cfg, s, r.0)
    ensures r.0.tick <= s.tick + DELETE_ACCESSES * ATTEMPTS + 4
  {
    if s.closed then (s, WriteError(ErrGroupClosed))
    else if key == "" then (s, WriteError(ErrKeyRequired))
    else
      var (a, r) := if cfg.peers then DeleteLoop(cfg, env, s, key, 0)
                    else (MutateHere(cfg, env, s, KDelete, key, []).0, Written(Alone));
      if r.WriteError? then (a, r)
      else
        RelyTransitive(cfg, s, a, Invalidate(cfg, env, a, key));
        (Invalidate(cfg, env, a, key), r)
  }
}
