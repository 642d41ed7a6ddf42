/** What the results of Set and Delete mean, against any environment. */
module RoutingResults {
  import opened Common
  import M = LruModel
  import S = ShardedModel
  import opened RoutingModel
  import opened Routing
  import opened RoutingWrites

  /**
   Delete returns without error only if, within the call, the owner carried out
   the delete and owner and epoch agreed before and after it. Without peers the
   local delete was carried out.
   */
  lemma DeleteMeansDeleted(cfg: Config, env: Env, s: Node, key: string)
    requires Inv(cfg, s) && EnvOk(cfg, env)
    ensures var (after, r) := Delete(cfg, env, s, key);
            && (r.Written? && cfg.peers ==> r.exit.Stable? && Proven(|s.log|, KDelete, key, [], (after, r)))
            && (r.Written? && !cfg.peers ==> r.exit.Alone? && HasAnswer(after.log, |s.log|, KDelete, key, cfg.self, []))
  {
    hide Inv, DeleteLoop, MutateHere, Invalidate;
    if !s.closed && key != "" {
      if cfg.peers {
        var (a, r) := DeleteLoop(cfg, env, s, key, 0);
        if r.Written? {
          AgreedOnKept(a.log, Invalidate(cfg, env, a, key).log, r.exit.trail, KDelete, key, r.exit.owner, [],
            r.exit.epoch);
        }
      } else {
        var (a, j) := MutateHere(cfg, env, s, KDelete, key, []);
        assert AnswerAt(Invalidate(cfg, env, a, key).log, |s.log|, KDelete, key, cfg.self, [], j);
      }
    }
  }

  // ---- How an attempt of Set or Delete ends ---------------------------------------------------

  /** This node is picked, and the ownership check of its own setLocal, still open, names another node. */
  predicate SelfRefusal(cfg: Config, env: Env, s: Node, key: string)
    requires Inv(cfg, s) && EnvOk(cfg, env)
  {
    var a := Pick(cfg, env, s, key).0;
    var t := Tick(cfg, env, a);
    var b := Pick(cfg, env, t, key).0;
    && cfg.ownerAt(a.epoch, key) == cfg.self != ""
    && !t.closed
    && cfg.ownerAt(b.epoch, key) !in [cfg.self, ""]
  }

  /** Another node is picked, refuses, and the wait is not cancelled. */
  predicate PeerRefusal(cfg: Config, env: Env, s: Node, key: string)
    requires Inv(cfg, s) && EnvOk(cfg, env)
  {
    var a := Pick(cfg, env, s, key).0;
    && cfg.ownerAt(a.epoch, key) !in [cfg.self, ""]
    && env.hasPeer(a.tick) && env.peer(a.tick).Refused? && !env.cancelled(a.tick + 1)
  }

  /** The owner picked carries out the write; a Set of this node's own checks the ownership again first. */
  predicate Carries(cfg: Config, env: Env, s: Node, kind: Kind, key: string)
    requires Inv(cfg, s) && EnvOk(cfg, env)
  {
    var a := Pick(cfg, env, s, key).0;
    var t := Tick(cfg, env, a);
    var owner := cfg.ownerAt(a.epoch, key);
    && owner != ""
    && if owner != cfg.self then env.hasPeer(a.tick) && env.peer(a.tick).Ok?
       else kind == KDelete || (!t.closed && cfg.ownerAt(Pick(cfg, env, t, key).0.epoch, key) == cfg.self)
  }

  /** The node after the write was carried out. */
  function WriteNode(cfg: Config, env: Env, s: Node, kind: Kind, key: string, value: Bytes): (r: Node)
    requires Inv(cfg, s) && EnvOk(cfg, env)
    ensures Inv(cfg, r)
  {
    var a := Pick(cfg, env, s, key).0;
    var owner := cfg.ownerAt(a.epoch, key);
    if owner != cfg.self then Answer(cfg, env, a, kind, key, owner, value)
    else if kind == KDelete then MutateHere(cfg, env, a, kind, key, value).0
    else MutateHere(cfg, env, Pick(cfg, env, Tick(cfg, env, a), key).0, kind, key, value).0
  }

  /** Whether the second pick of an attempt that writes is in the epoch of its first one. */
  predicate SameEpoch(cfg: Config, env: Env, s: Node, kind: Kind, key: string, value: Bytes)
    requires Inv(cfg, s) && EnvOk(cfg, env)
  {
    Pick(cfg, env, WriteNode(cfg, env, s, kind, key, value), key).0.epoch == Pick(cfg, env, s, key).0.epoch
  }

  /** The write is carried out, and the epoch is the same at both picks. */
  predicate Settles(cfg: Config, env: Env, s: Node, kind: Kind, key: string, value: Bytes)
    requires Inv(cfg, s) && EnvOk(cfg, env)
  {
    Carries(cfg, env, s, kind, key) && SameEpoch(cfg, env, s, kind, key, value)
  }

  /** The write is carried out, and the second pick is in another epoch than the first. */
  predicate Unsettled(cfg: Config, env: Env, s: Node, kind: Kind, key: string, value: Bytes)
    requires Inv(cfg, s) && EnvOk(cfg, env)
  {
    Carries(cfg, env, s, kind, key) && !SameEpoch(cfg, env, s, kind, key, value)
  }

  /** Refused by this node itself, which only a Set can be, or by a peer. */
  predicate Refusal(cfg: Config, env: Env, s: Node, kind: Kind, key: string)
    requires Inv(cfg, s) && EnvOk(cfg, env)
  {
    (kind != KDelete && SelfRefusal(cfg, env, s, key)) || PeerRefusal(cfg, env, s, key)
  }

  /** The node after an attempt that is refused or unsettled. */
  function NextNode(cfg: Config, env: Env, s: Node, kind: Kind, key: string, value: Bytes): (r: Node)
    requires Inv(cfg, s) && EnvOk(cfg, env)
    ensures Inv(cfg, r)
  {
    var a := Pick(cfg, env, s, key).0;
    if kind != KDelete && SelfRefusal(cfg, env, s, key) then Pick(cfg, env, Tick(cfg, env, a), key).0
    else if PeerRefusal(cfg, env, s, key) then Tick(cfg, env, a)
    else Pick(cfg, env, WriteNode(cfg, env, s, kind, key, value), key).0
  }

  /** Agreement around a write is agreement of the epochs: the epoch determines the owner. */
  lemma SettledIff(cfg: Config, env: Env, start: Node, s: Node, kind: Kind, key: string, owner: string, value: Bytes,
                   j: nat, last: bool)
    requires EnvOk(cfg, env) && Inv(cfg, start) && Rely(cfg, start, s)
    requires start.log != [] && start.log[|start.log| - 1] == Picked(key, owner, start.epoch)
    requires AnswerAt(s.log, |start.log|, kind, key, owner, value, j)
    ensures var a := Pick(cfg, env, s, key).0;
            var (after, out) := Settle(cfg, env, start, s, kind, key, owner, value, j, last);
            && after == a
            && (out.Ended? && out.result.Written? <==> a.epoch == start.epoch)
            && (out.Ended? && out.result.Written? ==>
                out.result.exit.Stable? && out.result.exit.owner == owner && out.result.exit.epoch == start.epoch)
            && (out == Ended(WriteError(ErrTopologyChanged)) <==> last && a.epoch != start.epoch)
            && (out.Again? <==> !last && a.epoch != start.epoch) && (out.Again? ==> out.writes == [j])
  {
    hide Inv;
    PickIsTrue(cfg, start, |start.log| - 1);
  }

  /** One attempt of Set or of Delete. */
  function AttemptOf(cfg: Config, env: Env, s: Node, kind: Kind, key: string, value: Bytes, last: bool)
    : (Node, WriteAttempt)
    requires Inv(cfg, s) && EnvOk(cfg, env)
  {
    if kind == KDelete then DeleteAttempt(cfg, env, s, key, last) else SetAttempt(cfg, env, s, key, value, last)
  }

  /** The error of an attempt that neither succeeds nor asks for another one. */
  function WriteFailure(cfg: Config, env: Env, s: Node, kind: Kind, key: string, last: bool): Error
    requires Inv(cfg, s) && EnvOk(cfg, env)
  {
    var a := Pick(cfg, env, s, key).0;
    var t := Tick(cfg, env, a);
    var owner := cfg.ownerAt(a.epoch, key);
    if owner == "" then ErrNoOwner
    else if owner == cfg.self then
      if kind != KDelete && t.closed then ErrGroupClosed
      else if kind != KDelete && cfg.ownerAt(Pick(cfg, env, t, key).0.epoch, key) == "" then ErrNoOwner
      else ErrTopologyChanged
    else if !env.hasPeer(a.tick) then ErrPeerUnavailable
    else
      match env.peer(a.tick)
      case Broken(e) => e
      case Refused => if last then ErrTopologyChanged else ErrCancelled
      case Ok(_) => ErrTopologyChanged
  }

  /**
   What the guards say of an attempt: it succeeds exactly when the write settles,
   with the owner and the epoch of its first pick; it asks for another one
   exactly when it is refused or unsettled, the last one only by refusing itself;
   else it fails with the error of the guard that stopped it.
   */
  ghost predicate Guarded(cfg: Config, env: Env, s: Node, kind: Kind, key: string, value: Bytes, last: bool)
    requires Inv(cfg, s) && EnvOk(cfg, env)
  {
    var (a, out) := AttemptOf(cfg, env, s, kind, key, value, last);
    var epoch := Pick(cfg, env, s, key).0.epoch;
    && (out.Ended? && out.result.Written? <==> Settles(cfg, env, s, kind, key, value))
    && (out.Ended? && out.result.Written? ==>
        out.result.exit.Stable? && out.result.exit.owner == cfg.ownerAt(epoch, key) && out.result.exit.epoch == epoch)
    && (out.Again? <==>
        || (kind != KDelete && SelfRefusal(cfg, env, s, key))
        || (!last && (PeerRefusal(cfg, env, s, key) || Unsettled(cfg, env, s, kind, key, value))))
    && (out.Again? ==> a == NextNode(cfg, env, s, kind, key, value))
    && (out.Again? ==> (out.writes == [] <==> !Unsettled(cfg, env, s, kind, key, value)))
    && (out.Ended? && !out.result.Written? ==> out.result == WriteError(WriteFailure(cfg, env, s, kind, key, last)))
  }

  lemma SelfSet(cfg: Config, env: Env, s: Node, key: string, value: Bytes, last: bool)
    requires cfg.peers && Inv(cfg, s) && EnvOk(cfg, env)
    requires cfg.ownerAt(Pick(cfg, env, s, key).0.epoch, key) == cfg.self
    ensures Guarded(cfg, env, s, KSet, key, value, last)
  {
    hide Inv, Settle, MutateHere;
    var (a, owner) := Pick(cfg, env, s, key);
    var (b, reply) := SetLocal(cfg, env, a, key, value);
    if owner != "" && reply.Done? {
      SettledIff(cfg, env, a, b, KSet, key, owner, value, reply.done, last);
    }
  }

  lemma SelfDelete(cfg: Config, env: Env, s: Node, key: string, last: bool)
    requires cfg.peers && Inv(cfg, s) && EnvOk(cfg, env)
    requires cfg.ownerAt(Pick(cfg, env, s, key).0.epoch, key) == cfg.self
    ensures Guarded(cfg, env, s, KDelete, key, [], last)
  {
    hide Inv, Settle, MutateHere;
    var (a, owner) := Pick(cfg, env, s, key);
    var (b, j) := MutateHere(cfg, env, a, KDelete, key, []);
    if owner != "" {
      SettledIff(cfg, env, a, b, KDelete, key, owner, [], j, last);
    }
  }

  /**
   How an attempt with a remote owner ends, by the peer's reply and, after a
   write, by the epoch of the second pick.
   */
  lemma PeerEnds(cfg: Config, env: Env, a: Node, kind: Kind, key: string, owner: string, value: Bytes, last: bool)
    requires Inv(cfg, a) && EnvOk(cfg, env) && a.log != [] && a.log[|a.log| - 1] == Picked(key, owner, a.epoch)
    ensures var (b, reply) := PeerWrite(cfg, env, a, kind, key, owner, value);
            var (c, out) := AfterPeer(cfg, env, a, b, kind, key, owner, value, reply, last);
            var won := out.Ended? && out.result.Written?;
            && (won ==> out.result.exit.Stable? && out.result.exit.owner == owner && out.result.exit.epoch == a.epoch)
            && match env.peer(a.tick)
               case Broken(e) => c == Tick(cfg, env, a) && out == Ended(WriteError(e))
               case Refused =>
                 && c == Tick(cfg, env, a) && !won
                 && (out.Again? <==> !last && !env.cancelled(a.tick + 1)) && (out.Again? ==> out.writes == [])
                 && (out.Ended? ==> out == Ended(WriteError(if last then ErrTopologyChanged else ErrCancelled)))
               case Ok(_) =>
                 && c == Pick(cfg, env, Answer(cfg, env, a, kind, key, owner, value), key).0
                 && (won <==> c.epoch == a.epoch)
                 && (out.Again? <==> !last && c.epoch != a.epoch) && (out.Again? ==> out.writes != [])
                 && (out.Ended? && !won ==> out == Ended(WriteError(ErrTopologyChanged)))
  {
    hide Inv, Settle;
    var (b, reply) := PeerWrite(cfg, env, a, kind, key, owner, value);
    if reply.Done? {
      SettledIff(cfg, env, a, b, kind, key, owner, value, reply.done, last);
    }
  }

  lemma PeerSet(cfg: Config, env: Env, s: Node, key: string, value: Bytes, last: bool)
    requires cfg.peers && Inv(cfg, s) && EnvOk(cfg, env)
    requires cfg.ownerAt(Pick(cfg, env, s, key).0.epoch, key) != cfg.self
    ensures Guarded(cfg, env, s, KSet, key, value, last)
  {
    hide Inv, PeerWrite, AfterPeer;
    var (a, owner) := Pick(cfg, env, s, key);
    PeerEnds(cfg, env, a, KSet, key, owner, value, last);
  }

  lemma PeerDelete(cfg: Config, env: Env, s: Node, key: string, last: bool)
    requires cfg.peers && Inv(cfg, s) && EnvOk(cfg, env)
    requires cfg.ownerAt(Pick(cfg, env, s, key).0.epoch, key) != cfg.self
    ensures Guarded(cfg, env, s, KDelete, key, [], last)
  {
    hide Inv, PeerWrite, AfterPeer;
    var (a, owner) := Pick(cfg, env, s, key);
    PeerEnds(cfg, env, a, KDelete, key, owner, [], last);
  }

  lemma AttemptIsGuarded(cfg: Config, env: Env, s: Node, kind: Kind, key: string, value: Bytes, last: bool)
    requires cfg.peers && Inv(cfg, s) && EnvOk(cfg, env) && (kind == KSet || (kind == KDelete && value == []))
    ensures Guarded(cfg, env, s, kind, key, value, last)
  {
    hide Guarded, Inv;
    var own := cfg.ownerAt(Pick(cfg, env, s, key).0.epoch, key) == cfg.self;
    if kind == KSet {
      if own {
        SelfSet(cfg, env, s, key, value, last);
      } else {
        PeerSet(cfg, env, s, key, value, last);
      }
    } else {
      if own {
        SelfDelete(cfg, env, s, key, last);
      } else {
        PeerDelete(cfg, env, s, key, last);
      }
    }
  }

  // ---- When a loop succeeds and when it runs out ------------------------------------------------

  /** Some attempt from `attempt` on settles, and every one before it is refused or unsettled. */
  ghost predicate SettlesBy(cfg: Config, env: Env, s: Node, kind: Kind, key: string, value: Bytes, attempt: nat)
    requires Inv(cfg, s) && EnvOk(cfg, env) && attempt < ATTEMPTS
    decreases ATTEMPTS - attempt
  {
    || Settles(cfg, env, s, kind, key, value)
    || (&& attempt < ATTEMPTS - 1
        && (Refusal(cfg, env, s, kind, key) || Unsettled(cfg, env, s, kind, key, value))
        && SettlesBy(cfg, env, NextNode(cfg, env, s, kind, key, value), kind, key, value, attempt + 1))
  }

  /** Every attempt from `attempt` on is refused or unsettled, the last one refused by this node itself. */
  ghost predicate RunsOut(cfg: Config, env: Env, s: Node, key: string, value: Bytes, attempt: nat)
    requires Inv(cfg, s) && EnvOk(cfg, env) && attempt < ATTEMPTS
    decreases ATTEMPTS - attempt
  {
    if attempt == ATTEMPTS - 1 then SelfRefusal(cfg, env, s, key)
    else
      && (Refusal(cfg, env, s, KSet, key) || Unsettled(cfg, env, s, KSet, key, value))
      && RunsOut(cfg, env, NextNode(cfg, env, s, KSet, key, value), key, value, attempt + 1)
  }

  /** Every attempt from `attempt` on is refused, the last one by this node itself. */
  ghost predicate AllRefused(cfg: Config, env: Env, s: Node, key: string, value: Bytes, attempt: nat)
    requires Inv(cfg, s) && EnvOk(cfg, env) && attempt < ATTEMPTS
    decreases ATTEMPTS - attempt
  {
    if attempt == ATTEMPTS - 1 then SelfRefusal(cfg, env, s, key)
    else
      && Refusal(cfg, env, s, KSet, key)
      && AllRefused(cfg, env, NextNode(cfg, env, s, KSet, key, value), key, value, attempt + 1)
  }

  /** A refusal by this node means that the epoch changed inside the attempt. */
  lemma RefusalMeansChange(cfg: Config, env: Env, s: Node, key: string, value: Bytes)
    requires Inv(cfg, s) && EnvOk(cfg, env) && SelfRefusal(cfg, env, s, key)
    ensures s.epoch < NextNode(cfg, env, s, KSet, key, value).epoch
  {
    hide Inv, Pick;
  }

  /** A write that is carried out is not refused. */
  lemma RefusedIsNotCarried(cfg: Config, env: Env, s: Node, kind: Kind, key: string)
    requires Inv(cfg, s) && EnvOk(cfg, env) && Refusal(cfg, env, s, kind, key)
    ensures !Carries(cfg, env, s, kind, key)
  {
    hide Inv, Pick;
  }

  ghost predicate RanOut(r: WriteResult) {
    r.Written? && r.exit.Exhausted?
  }

  ghost predicate Succeeded(r: WriteResult) {
    r.Written? && r.exit.Stable?
  }

  /**
   The loop of Set runs out exactly under the guards, and then the epoch has
   changed; no attempt has written exactly when each was refused. It succeeds
   exactly when some attempt settles after others were refused or unsettled.
   */
  lemma {:induction false} SetLoopIff(cfg: Config, env: Env, s: Node, key: string, value: Bytes, attempt: nat,
                                      writes: seq<nat>)
    requires cfg.peers && Inv(cfg, s) && EnvOk(cfg, env) && attempt < ATTEMPTS
    ensures var (after, r) := SetLoop(cfg, env, s, key, value, attempt, writes);
            && (RanOut(r) <==> RunsOut(cfg, env, s, key, value, attempt))
            && (RanOut(r) ==> s.epoch < after.epoch && |writes| <= |r.exit.writes|)
            && (RanOut(r) ==> (r.exit.writes == writes <==> AllRefused(cfg, env, s, key, value, attempt)))
            && (Succeeded(r) <==> SettlesBy(cfg, env, s, KSet, key, value, attempt))
    decreases ATTEMPTS - attempt
  {
    hide Inv, SetAttempt, SelfRefusal, PeerRefusal, Carries, SameEpoch, NextNode;
    var last := attempt == ATTEMPTS - 1;
    AttemptIsGuarded(cfg, env, s, KSet, key, value, last);
    var (a, out) := SetAttempt(cfg, env, s, key, value, last);
    if Refusal(cfg, env, s, KSet, key) {
      RefusedIsNotCarried(cfg, env, s, KSet, key);
    }
    if out.Again? {
      if last {
        RefusalMeansChange(cfg, env, s, key, value);
        assert writes + [] == writes;
      } else {
        SetLoopIff(cfg, env, a, key, value, attempt + 1, writes + out.writes);
        if out.writes == [] {
          assert writes + out.writes == writes;
        } else {
          assert Unsettled(cfg, env, s, KSet, key, value);
        }
      }
    }
  }

  /** The loop of Delete succeeds exactly when some attempt settles after others were refused or unsettled. */
  lemma {:induction false} DeleteLoopIff(cfg: Config, env: Env, s: Node, key: string, attempt: nat)
    requires cfg.peers && Inv(cfg, s) && EnvOk(cfg, env) && attempt < ATTEMPTS
    ensures DeleteLoop(cfg, env, s, key, attempt).1.Written? <==> SettlesBy(cfg, env, s, KDelete, key, [], attempt)
    decreases ATTEMPTS - attempt
  {
    hide Inv, DeleteAttempt, SelfRefusal, PeerRefusal, Carries, SameEpoch, NextNode;
    var last := attempt == ATTEMPTS - 1;
    AttemptIsGuarded(cfg, env, s, KDelete, key, [], last);
    var (a, out) := DeleteAttempt(cfg, env, s, key, last);
    if Refusal(cfg, env, s, KDelete, key) {
      RefusedIsNotCarried(cfg, env, s, KDelete, key);
    }
    if out.Again? {
      DeleteLoopIff(cfg, env, a, key, attempt + 1);
    }
  }

  /** With peers, Delete returns nil if and only if some attempt settles after others were refused or unsettled. */
  lemma DeleteSucceedsIff(cfg: Config, env: Env, s: Node, key: string)
    requires Inv(cfg, s) && EnvOk(cfg, env)
    ensures Delete(cfg, env, s, key).1.Written? <==>
            !s.closed && key != "" && (cfg.peers ==> SettlesBy(cfg, env, s, KDelete, key, [], 0))
  {
    hide Inv, DeleteLoop, MutateHere, Invalidate, SettlesBy;
    if cfg.peers {
      DeleteLoopIff(cfg, env, s, key, 0);
    }
  }

  /** The call reaches its loop with peers. */
  predicate Routed(cfg: Config, s: Node, key: string, value: Bytes) {
    cfg.peers && !s.closed && key != "" && value != []
  }

  lemma PeersSet(cfg: Config, env: Env, s: Node, key: string, value: Bytes)
    requires Inv(cfg, s) && EnvOk(cfg, env) && Routed(cfg, s, key, value)
    ensures var (after, r) := Set(cfg, env, s, key, value);
            var (a, q) := SetLoop(cfg, env, s, key, value, 0, []);
            r == q && Rely(cfg, a, after) && Proven(|s.log|, KSet, key, value, (after, r))
  {
    hide Inv, SetLoop, Invalidate, Refill;
    var (a, r) := SetLoop(cfg, env, s, key, value, 0, []);
    if r.Written? {
      var b := Invalidate(cfg, env, a, key);
      Carry(a.log, b.log, key, value, r.exit);
      var c := Refill(cfg, env, b, key, value, r.exit);
      Carry(b.log, c.log, key, value, r.exit);
      RelyTransitive(cfg, a, b, c);
    } else {
      RelyReflexive(cfg, a);
    }
  }

  lemma RelyReflexive(cfg: Config, s: Node)
    requires Inv(cfg, s)
    ensures Rely(cfg, s, s)
  {
  }

  lemma AloneSet(cfg: Config, env: Env, s: Node, key: string, value: Bytes)
    requires Inv(cfg, s) && EnvOk(cfg, env) && !cfg.peers && !s.closed && key != "" && value != []
    ensures var (after, r) := Set(cfg, env, s, key, value);
            && (r.Written? <==> !Tick(cfg, env, s).closed)
            && (r.Written? ==> r.exit.Alone? && HasAnswer(after.log, |s.log|, KSet, key, cfg.self, value))
  {
    hide Inv, Invalidate, Refill, MutateHere;
    var (a, r) := SetAlone(cfg, env, s, key, value);
    if r.Written? {
      var b := Invalidate(cfg, env, a, key);
      var c := Refill(cfg, env, b, key, value, r.exit);
      ExtendsTransitive(a.log, b.log, c.log);
      var j: nat :| AnswerAt(a.log, |s.log|, KSet, key, cfg.self, value, j);
      assert AnswerAt(c.log, |s.log|, KSet, key, cfg.self, value, j);
    }
  }

  /**
   Set returns nil without agreement if and only if each attempt is refused or
   unsettled and the fourth refuses itself.
   */
  lemma SetRunsOutIff(cfg: Config, env: Env, s: Node, key: string, value: Bytes)
    requires Inv(cfg, s) && EnvOk(cfg, env)
    ensures RanOut(Set(cfg, env, s, key, value).1) <==>
            Routed(cfg, s, key, value) && RunsOut(cfg, env, s, key, value, 0)
  {
    hide Inv, RunsOut, SetLoop, SetAlone, Invalidate, Refill;
    if Routed(cfg, s, key, value) {
      SetLoopIff(cfg, env, s, key, value, 0, []);
      PeersSet(cfg, env, s, key, value);
    } else if !s.closed && key != "" && value != [] {
      AloneSet(cfg, env, s, key, value);
    }
  }

  /**
   With peers, Set returns nil under agreement if and only if some attempt
   settles after others were refused or unsettled.
   */
  lemma SetSucceedsIff(cfg: Config, env: Env, s: Node, key: string, value: Bytes)
    requires Inv(cfg, s) && EnvOk(cfg, env)
    ensures Succeeded(Set(cfg, env, s, key, value).1) <==>
            Routed(cfg, s, key, value) && SettlesBy(cfg, env, s, KSet, key, value, 0)
  {
    hide Inv, SettlesBy, SetLoop, SetAlone, Invalidate, Refill;
    if Routed(cfg, s, key, value) {
      SetLoopIff(cfg, env, s, key, value, 0, []);
      PeersSet(cfg, env, s, key, value);
    } else if !s.closed && key != "" && value != [] {
      AloneSet(cfg, env, s, key, value);
    }
  }

  /**
   Set returns nil with no attempt carried out if and only if each attempt is
   refused, the fourth by this node itself.
   */
  lemma SetUnwrittenIff(cfg: Config, env: Env, s: Node, key: string, value: Bytes)
    requires Inv(cfg, s) && EnvOk(cfg, env)
    ensures Set(cfg, env, s, key, value).1 == Written(Exhausted([])) <==>
            Routed(cfg, s, key, value) && AllRefused(cfg, env, s, key, value, 0)
  {
    hide Inv, RunsOut, AllRefused, SetLoop, SetAlone, Invalidate, Refill;
    SetRunsOutIff(cfg, env, s, key, value);
    if Routed(cfg, s, key, value) {
      SetLoopIff(cfg, env, s, key, value, 0, []);
      RefusedRunsOut(cfg, env, s, key, value, 0);
      PeersSet(cfg, env, s, key, value);
    }
  }

  lemma {:induction false} RefusedRunsOut(cfg: Config, env: Env, s: Node, key: string, value: Bytes, attempt: nat)
    requires Inv(cfg, s) && EnvOk(cfg, env) && attempt < ATTEMPTS
    ensures AllRefused(cfg, env, s, key, value, attempt) ==> RunsOut(cfg, env, s, key, value, attempt)
    decreases ATTEMPTS - attempt
  {
    hide Inv, Refusal, SelfRefusal, Unsettled, NextNode;
    if attempt < ATTEMPTS - 1 {
      RefusedRunsOut(cfg, env, NextNode(cfg, env, s, KSet, key, value), key, value, attempt + 1);
    }
  }

  // ---- What a Set without error means ---------------------------------------------------------

  lemma AllCarriedKept(log: seq<Event>, more: seq<Event>, base: nat, low: nat, key: string, value: Bytes,
                       writes: seq<nat>)
    requires AllCarried(log, base, KSet, key, value, writes) && Extends(log, more) && low <= base
    ensures AllCarried(more, low, KSet, key, value, writes)
  {
    forall i | 0 <= i < |writes|
      ensures CarriedAt(more, low, KSet, key, value, writes[i])
    {
      assert CarriedAt(log, base, KSet, key, value, writes[i]);
    }
  }

  /** The writes that an exhausted loop reports were carried out. */
  lemma {:induction false} LoopWrites(cfg: Config, env: Env, s: Node, key: string, value: Bytes, attempt: nat,
                                      writes: seq<nat>, base: nat)
    requires Inv(cfg, s) && EnvOk(cfg, env) && attempt <= ATTEMPTS
    requires base <= |s.log| && AllCarried(s.log, base, KSet, key, value, writes)
    ensures var (after, r) := SetLoop(cfg, env, s, key, value, attempt, writes);
            RanOut(r) ==> AllCarried(after.log, base, KSet, key, value, r.exit.writes)
    decreases ATTEMPTS - attempt
  {
    hide Inv, SetAttempt, CarriedAt;
    if attempt < ATTEMPTS {
      var (a, out) := SetAttempt(cfg, env, s, key, value, attempt == ATTEMPTS - 1);
      if out.Again? {
        AllCarriedKept(s.log, a.log, base, base, key, value, writes);
        AllCarriedKept(a.log, a.log, |s.log|, base, key, value, out.writes);
        LoopWrites(cfg, env, a, key, value, attempt + 1, writes + out.writes, base);
      }
    }
  }

  /**
   What a Set without error means: the local write was carried out (no peers);
   or owner and epoch agreed before and after the owner's write; or the attempts
   ran out, the epoch changed, and the writes that were carried out are known:
   none exactly when each attempt was refused.
   */
  ghost predicate SetMeans(cfg: Config, env: Env, s: Node, key: string, value: Bytes, after: Node, exit: Exit)
    requires Inv(cfg, s) && EnvOk(cfg, env)
  {
    match exit
    case Alone => !cfg.peers && HasAnswer(after.log, |s.log|, KSet, key, cfg.self, value)
    case Stable(_, _, _) => cfg.peers && Proven(|s.log|, KSet, key, value, (after, Written(exit)))
    case Exhausted(writes) =>
      && cfg.peers && s.epoch < after.epoch
      && RunsOut(cfg, env, s, key, value, 0) && (writes == [] <==> AllRefused(cfg, env, s, key, value, 0))
      && AllCarried(after.log, |s.log|, KSet, key, value, writes)
  }

  /** In particular, a Set without error during which the epoch did not change was carried out and agreed on. */
  lemma SetMeansWritten(cfg: Config, env: Env, s: Node, key: string, value: Bytes)
    requires Inv(cfg, s) && EnvOk(cfg, env)
    ensures var (after, r) := Set(cfg, env, s, key, value);
            r.Written? ==> SetMeans(cfg, env, s, key, value, after, r.exit)
  {
    hide Inv, SetLoop, SetAlone, Invalidate, Refill, RunsOut, AllRefused;
    if Routed(cfg, s, key, value) {
      PeersSet(cfg, env, s, key, value);
      SetLoopIff(cfg, env, s, key, value, 0, []);
      LoopWrites(cfg, env, s, key, value, 0, [], |s.log|);
      var (a, r) := SetLoop(cfg, env, s, key, value, 0, []);
      if RanOut(r) {
        AllCarriedKept(a.log, Set(cfg, env, s, key, value).0.log, |s.log|, |s.log|, key, value, r.exit.writes);
      }
    } else if !s.closed && key != "" && value != [] {
      AloneSet(cfg, env, s, key, value);
    }
  }
}
