/**
 Set without a write, seen in the history: against an environment that carries
 out nothing itself, when nil is returned although no owner did anything, and a
 run in which that happens.
 */
module RoutingUnwritten {
  import opened Common
  import M = LruModel
  import S = ShardedModel
  import opened RoutingModel
  import opened Routing
  import opened RoutingWrites
  import opened RoutingResults

  ghost predicate NoAnswers(log: seq<Event>, base: nat) {
    forall i :: base <= i < |log| ==> !log[i].Answered?
  }

  /** Between the two states no owner-side operation was carried out. */
  ghost predicate Hushed(s: Node, after: Node) {
    Extends(s.log, after.log) && NoAnswers(after.log, |s.log|)
  }

  /** The environment carries out no owner-side operation of its own. */
  ghost predicate Silent(cfg: Config, env: Env) {
    forall n, s :: Inv(cfg, s) ==> Hushed(s, env.step(n, s))
  }

  lemma HushedTransitive(a: Node, b: Node, c: Node)
    requires Hushed(a, b) && Hushed(b, c)
    ensures Hushed(a, c)
  {
    ExtendsTransitive(a.log, b.log, c.log);
  }

  lemma TickHushed(cfg: Config, env: Env, s: Node)
    requires Inv(cfg, s) && EnvOk(cfg, env) && Silent(cfg, env)
    ensures Hushed(s, Tick(cfg, env, s))
  {
    hide Inv;
    assert Hushed(s, env.step(s.tick, s));
  }

  lemma NoteHushed(s: Node, after: Node, e: Event)
    requires Hushed(s, after) && !e.Answered?
    ensures Hushed(s, Note(after, e))
  {
  }

  lemma PickHushed(cfg: Config, env: Env, s: Node, key: string)
    requires Inv(cfg, s) && EnvOk(cfg, env) && Silent(cfg, env)
    ensures Hushed(s, Pick(cfg, env, s, key).0)
  {
    hide Inv, Hushed, Tick;
    TickHushed(cfg, env, s);
    var n := Tick(cfg, env, s);
    NoteHushed(s, n, Picked(key, cfg.ownerAt(n.epoch, key), n.epoch));
  }

  lemma DropNearHushed(cfg: Config, env: Env, s: Node, key: string)
    requires Inv(cfg, s) && EnvOk(cfg, env) && Silent(cfg, env)
    ensures Hushed(s, DropNear(cfg, env, s, key))
  {
    hide Inv, Tick, S.Step;
    if cfg.near && cfg.peers {
      var a := Tick(cfg, env, s);
      var n := Tick(cfg, env, a);
      TickHushed(cfg, env, s);
      TickHushed(cfg, env, a);
      HushedTransitive(s, a, n);
    }
  }

  lemma InvalidateHushed(cfg: Config, env: Env, s: Node, key: string)
    requires Inv(cfg, s) && EnvOk(cfg, env) && Silent(cfg, env) && cfg.peers
    ensures Hushed(s, Invalidate(cfg, env, s, key))
  {
    hide Inv, Hushed, Pick, DropNear, Tick;
    var a := Pick(cfg, env, s, key).0;
    var b := DropNear(cfg, env, a, key);
    PickHushed(cfg, env, s, key);
    DropNearHushed(cfg, env, a, key);
    TickHushed(cfg, env, b);
    HushedTransitive(s, a, b);
    HushedTransitive(s, b, Tick(cfg, env, b));
  }

  /** After an exhausted loop nothing is put into the near cache: no epoch is 0. */
  lemma RefillHushed(cfg: Config, env: Env, s: Node, key: string, value: Bytes, writes: seq<nat>)
    requires Inv(cfg, s) && EnvOk(cfg, env) && Silent(cfg, env)
    ensures Hushed(s, Refill(cfg, env, s, key, value, Exhausted(writes)))
  {
    hide Pick;
    PickHushed(cfg, env, s, key);
  }

  lemma RefusalHushed(cfg: Config, env: Env, s: Node, key: string, value: Bytes)
    requires Inv(cfg, s) && EnvOk(cfg, env) && Silent(cfg, env)
    requires SelfRefusal(cfg, env, s, key) || PeerRefusal(cfg, env, s, key)
    ensures Hushed(s, NextNode(cfg, env, s, KSet, key, value))
  {
    hide Inv, Hushed, Pick, Tick, WriteNode;
    var a := Pick(cfg, env, s, key).0;
    var t := Tick(cfg, env, a);
    PickHushed(cfg, env, s, key);
    TickHushed(cfg, env, a);
    PickHushed(cfg, env, t, key);
    HushedTransitive(s, a, t);
    HushedTransitive(s, t, Pick(cfg, env, t, key).0);
  }

  lemma {:induction false} RefusedLoopHushed(cfg: Config, env: Env, s: Node, key: string, value: Bytes, attempt: nat,
                                             writes: seq<nat>)
    requires cfg.peers && Inv(cfg, s) && EnvOk(cfg, env) && Silent(cfg, env) && attempt < ATTEMPTS
    requires AllRefused(cfg, env, s, key, value, attempt)
    ensures Hushed(s, SetLoop(cfg, env, s, key, value, attempt, writes).0)
    decreases ATTEMPTS - attempt
  {
    hide Inv, Hushed, SetAttempt, SelfRefusal, PeerRefusal, Carries, SameEpoch, NextNode;
    var last := attempt == ATTEMPTS - 1;
    AttemptIsGuarded(cfg, env, s, KSet, key, value, last);
    if PeerRefusal(cfg, env, s, key) {
      RefusedIsNotCarried(cfg, env, s, KSet, key);
    }
    RefusalHushed(cfg, env, s, key, value);
    var (a, out) := SetAttempt(cfg, env, s, key, value, last);
    if !last {
      RefusedLoopHushed(cfg, env, a, key, value, attempt + 1, writes + out.writes);
      HushedTransitive(s, a, SetLoop(cfg, env, a, key, value, attempt + 1, writes + out.writes).0);
    }
  }

  lemma RefusedSetHushed(cfg: Config, env: Env, s: Node, key: string, value: Bytes)
    requires Inv(cfg, s) && EnvOk(cfg, env) && Silent(cfg, env)
    requires Routed(cfg, s, key, value) && AllRefused(cfg, env, s, key, value, 0)
    ensures Hushed(s, Set(cfg, env, s, key, value).0)
  {
    hide Inv, Hushed, SetLoop, Invalidate, Refill, AllRefused;
    SetUnwrittenIff(cfg, env, s, key, value);
    PeersSet(cfg, env, s, key, value);
    RefusedLoopHushed(cfg, env, s, key, value, 0, []);
    var a := SetLoop(cfg, env, s, key, value, 0, []).0;
    var b := Invalidate(cfg, env, a, key);
    InvalidateHushed(cfg, env, a, key);
    RefillHushed(cfg, env, b, key, value, []);
    HushedTransitive(s, a, b);
    HushedTransitive(s, b, Refill(cfg, env, b, key, value, Exhausted([])));
  }

  /** Every other way to return nil leaves an owner-side operation in the history of the call. */
  lemma WrittenAnswers(cfg: Config, env: Env, s: Node, key: string, value: Bytes, after: Node, exit: Exit)
    requires Inv(cfg, s) && EnvOk(cfg, env) && SetMeans(cfg, env, s, key, value, after, exit)
    requires exit != Exhausted([])
    ensures !NoAnswers(after.log, |s.log|)
  {
    hide Inv, RunsOut, AllRefused;
    if exit.Alone? {
      var j: nat :| AnswerAt(after.log, |s.log|, KSet, key, cfg.self, value, j);
    } else if exit.Stable? {
      assert after.log[exit.trail.mid].Answered?;
    } else {
      assert CarriedAt(after.log, |s.log|, KSet, key, value, exit.writes[0]);
    }
  }

  /**
   Against an environment that carries out nothing itself, Set returns nil with
   no owner-side operation since the call began if and only if each of the four
   attempts is refused, the last one by this node itself.
   */
  lemma SilentUnwrittenIff(cfg: Config, env: Env, s: Node, key: string, value: Bytes)
    requires Inv(cfg, s) && EnvOk(cfg, env) && Silent(cfg, env)
    ensures var (after, r) := Set(cfg, env, s, key, value);
            r.Written? && NoAnswers(after.log, |s.log|) <==>
            Routed(cfg, s, key, value) && AllRefused(cfg, env, s, key, value, 0)
  {
    hide Inv, Set, SetMeans, AllRefused, NoAnswers;
    var (after, r) := Set(cfg, env, s, key, value);
    SetUnwrittenIff(cfg, env, s, key, value);
    if Routed(cfg, s, key, value) && AllRefused(cfg, env, s, key, value, 0) {
      RefusedSetHushed(cfg, env, s, key, value);
    } else if r.Written? {
      SetMeansWritten(cfg, env, s, key, value);
      WrittenAnswers(cfg, env, s, key, value, after, r.exit);
    }
  }

  // ---- A Set that succeeds without writing ------------------------------------------------------

  /** This node owns every key in odd epochs, another one in even epochs; there is no near cache. */
  const FLAPPING := Config("here", true, false, 0, S.Config(0, 1, (k: string) => 0),
    (e: nat, k: string) => if e % 2 == 1 then "here" else "there")

  /** The epoch advances before the second and before the next pick of every attempt. */
  const FLAPS := Env(
    (n: nat, s: Node) => if n % 3 == 1 then s else s.(epoch := s.epoch + 1),
    (n: nat) => Refused, (n: nat) => Refused, (n: nat) => true, (n: nat) => false, (n: nat) => 0)

  lemma FlapsOk()
    ensures FLAPPING.store.Ok() && EnvOk(FLAPPING, FLAPS) && Silent(FLAPPING, FLAPS)
  {
    assert S.Pow2(0) == 1;
    forall n, s | Inv(FLAPPING, s)
      ensures Rely(FLAPPING, s, FLAPS.step(n, s)) && Hushed(s, FLAPS.step(n, s))
    {
    }
  }

  /** A node at the start of an attempt, in an even epoch. */
  ghost predicate Between(s: Node) {
    Inv(FLAPPING, s) && s.tick % 3 == 0 && s.epoch % 2 == 0 && !s.closed
  }

  /** What one access does under this environment. */
  lemma FlapTick(s: Node)
    requires Inv(FLAPPING, s) && EnvOk(FLAPPING, FLAPS)
    ensures Tick(FLAPPING, FLAPS, s) ==
      s.(epoch := if s.tick % 3 == 1 then s.epoch else s.epoch + 1, tick := s.tick + 1)
  {
  }

  /** Picked in an odd epoch, refused in the even epoch after it. */
  lemma FlapRefuses(s: Node, key: string, value: Bytes)
    requires Between(s) && EnvOk(FLAPPING, FLAPS)
    ensures SelfRefusal(FLAPPING, FLAPS, s, key) && Between(NextNode(FLAPPING, FLAPS, s, KSet, key, value))
  {
    hide Inv, Tick;
    FlapTick(s);
    var a := Pick(FLAPPING, FLAPS, s, key).0;
    FlapTick(a);
    FlapTick(Tick(FLAPPING, FLAPS, a));
  }

  lemma {:induction false} FlapLoop(s: Node, key: string, value: Bytes, attempt: nat)
    requires Between(s) && EnvOk(FLAPPING, FLAPS) && attempt < ATTEMPTS
    ensures AllRefused(FLAPPING, FLAPS, s, key, value, attempt)
    decreases ATTEMPTS - attempt
  {
    hide SelfRefusal, NextNode, Inv;
    FlapRefuses(s, key, value);
    if attempt < ATTEMPTS - 1 {
      FlapLoop(NextNode(FLAPPING, FLAPS, s, KSet, key, value), key, value, attempt + 1);
    }
  }

  /** Set can return nil although no owner carried out anything during the whole call. */
  lemma SetMayReturnUnwritten(value: Bytes)
    requires value != []
    ensures var s := Node(false, 2, 0, [M.EMPTY], [], 0);
            && Inv(FLAPPING, s) && EnvOk(FLAPPING, FLAPS)
            && var (after, r) := Set(FLAPPING, FLAPS, s, "k", value);
               r == Written(Exhausted([])) && NoAnswers(after.log, 0)
  {
    hide Set, AllRefused, NoAnswers;
    FlapsOk();
    var s := Node(false, 2, 0, [M.EMPTY], [], 0);
    FlapLoop(s, "k", value, 0);
    SetUnwrittenIff(FLAPPING, FLAPS, s, "k", value);
    SilentUnwrittenIff(FLAPPING, FLAPS, s, "k", value);
  }
}
