/**
 On an open group with no mutation, loss or membership change, the Getter
 succeeds at most once per key: the write-back precedes the unmapping, and every
 new leader looks at the cache again.
 */
module OwnerLoads {
  import opened Common
  import SF = Singleflight
  import opened OwnerModel
  import opened OwnerSafety

  /** Concurrent getLocal calls and nothing else: no mutation, loss, expiry or change of membership. */
  predicate ReadsOnly(a: Action) {
    (a.Begin? ==> a.op.OpGet?) && !IsEnv(a) && (a.WriteBack? ==> !a.late)
  }

  /** Between the Getter's success and the write-back. */
  predicate Pending(th: Thread) {
    th.pc.Loaded? || th.pc.Checked?
  }

  ghost predicate QuietThread(cfg: Config, s: State, t: nat)
    requires t in s.threads
  {
    var th := s.threads[t];
    && th.op.OpGet?
    && (th.pc.Picked? ==> cfg.peers)
    && (cfg.peers && !th.pc.Started? && !th.pc.Finished? ==>
        th.epoch == s.epoch && cfg.standing(s.epoch, th.key) == Self)
    && (InLoad(th) ==> th.key !in s.cache && s.Loads(th.key) == if Pending(th) then 1 else 0)
  }

  /** The leader of the key's mapped call has loaded but not yet written back. */
  ghost predicate LeaderPending(s: State, key: string) {
    && key in s.flight.mapped
    && s.flight.mapped[key] < |s.flight.calls|
    && var t := s.flight.calls[s.flight.mapped[key]].leader;
       t in s.threads && s.threads[t].key == key && Pending(s.threads[t])
  }

  ghost predicate QuietKey(s: State, key: string) {
    && s.Loads(key) <= 1
    && (s.Loads(key) == 1 ==> key in s.cache || LeaderPending(s, key))
  }

  ghost predicate Quiet(cfg: Config, s: State) {
    && !s.closed
    && (s.ownerEpoch == 0 || s.ownerEpoch == s.epoch)
    && (forall k :: s.keys.Mutations(k) == 0)
    && (forall t :: t in s.threads ==> QuietThread(cfg, s, t))
    && (forall k :: QuietKey(s, k))
  }

  // ---- What the leader of a key knows -------------------------------------------

  /** A thread in its load, or about to start it, leads the call mapped to its key. */
  lemma LeadsMapped(s: State, t: nat)
    requires Inv(s) && t in s.threads && Flies(s.threads[t])
    requires s.flight.threads[t].Leading? || s.flight.threads[t].Ran?
    ensures var key := s.threads[t].key;
            && key in s.flight.mapped && s.flight.mapped[key] < |s.flight.calls|
            && s.flight.calls[s.flight.mapped[key]].leader == t
  {
  }

  lemma OneLoad(s: State, t: nat, u: nat)
    requires Inv(s) && t in s.threads && u in s.threads && InLoad(s.threads[t]) && InLoad(s.threads[u])
    requires s.threads[t].key == s.threads[u].key
    ensures t == u
  {
  }

  /** A new load starts only for a key that was never loaded. */
  lemma RecheckFindsUnloaded(cfg: Config, s: State, t: nat)
    requires Inv(s) && Quiet(cfg, s) && Enabled(s, Recheck(t)) && s.threads[t].key !in s.cache
    ensures s.Loads(s.threads[t].key) == 0
  {
    assert ThreadOk(s, t);
    LeadsMapped(s, t);
    assert QuietKey(s, s.threads[t].key);
  }

  // ---- Frames -----------------------------------------------------------------------

  lemma PrepareQuiet(cfg: Config, s: State, t: nat)
    requires Quiet(cfg, s) && Enabled(s, Prepare(t))
    ensures PrepareStep(s, t).cache == s.cache && PrepareStep(s, t).ownerEpoch == s.epoch
  {
  }

  /** Without a membership change the check passes; without a mutation the load writes. */
  lemma LoadSucceeds(cfg: Config, s: State, t: nat)
    requires Inv(s) && Quiet(cfg, s) && t in s.threads
    ensures s.threads[t].pc.Loaded? ==> StillOwner(cfg, s, s.threads[t])
    ensures Enabled(s, WriteBack(t, false)) ==> WillWrite(s, t)
  {
  }

  /** Only the unmapping of a key's own call changes who leads it. */
  lemma LeaderFrame(cfg: Config, s: State, a: Action, key: string)
    requires Enabled(s, a) && key in s.flight.mapped && s.flight.mapped[key] < |s.flight.calls|
    requires a.Unmap? ==> s.flight.threads[a.thread].key != key
    ensures var f := Step(cfg, s, a).flight;
            && key in f.mapped && f.mapped[key] == s.flight.mapped[key] < |f.calls|
            && f.calls[f.mapped[key]].leader == s.flight.calls[s.flight.mapped[key]].leader
  {
    hide Step, SF.Step;
    StepFlies(cfg, s, a);
    if Flying(cfg, s, a).Some? {
      SF.LeaderStays(s.flight, Flying(cfg, s, a).value, key);
    }
  }

  // ---- Steps --------------------------------------------------------------------------

  lemma NoMutate(cfg: Config, s: State, t: nat)
    requires Quiet(cfg, s) && t in s.threads
    ensures !Enabled(s, Mutate(t, false))
  {
  }

  lemma QuietGlobals(cfg: Config, s: State, a: Action)
    requires Inv(s) && Quiet(cfg, s) && Enabled(s, a) && ReadsOnly(a)
    ensures var after := Step(cfg, s, a);
            && !after.closed && after.epoch == s.epoch && (after.ownerEpoch == 0 || after.ownerEpoch == after.epoch)
            && after.keys.mutations == s.keys.mutations
  {
    StepFrame(cfg, s, a);
    if a.Prepare? {
      PrepareQuiet(cfg, s, a.thread);
    } else {
      hide Step;
      if a.Mutate? {
        NoMutate(cfg, s, a.thread);
      }
    }
  }

  /** The cache only grows, and only by the write-back of the stepping thread's key. */
  lemma QuietCache(cfg: Config, s: State, a: Action)
    requires Inv(s) && Quiet(cfg, s) && Enabled(s, a) && ReadsOnly(a)
    ensures s.cache.Keys <= Step(cfg, s, a).cache.Keys
    ensures Step(cfg, s, a).cache.Keys <= s.cache.Keys + if a.WriteBack? then {s.threads[a.thread].key} else {}
    ensures a.WriteBack? ==> s.threads[a.thread].key in Step(cfg, s, a).cache
  {
    if a.Prepare? {
      PrepareQuiet(cfg, s, a.thread);
    } else if a.Mutate? {
      NoMutate(cfg, s, a.thread);
    } else if a.WriteBack? {
      LoadSucceeds(cfg, s, a.thread);
    } else {
      StepFrame(cfg, s, a);
    }
  }

  lemma QuietLoads(cfg: Config, s: State, a: Action, key: string)
    requires Enabled(s, a)
    ensures Step(cfg, s, a).Loads(key) == s.Loads(key) + if a.SourceOk? && s.threads[a.thread].key == key then 1 else 0
  {
    if !a.SourceOk? {
      StepFrame(cfg, s, a);
    }
  }

  /** No other thread writes or loads the key of a running load. */
  lemma OtherLoad(cfg: Config, s: State, a: Action, u: nat)
    requires Inv(s) && Quiet(cfg, s) && Enabled(s, a) && ReadsOnly(a)
    requires u in s.threads && u != a.thread && InLoad(s.threads[u])
    ensures s.threads[u].key !in Step(cfg, s, a).cache
    ensures Step(cfg, s, a).Loads(s.threads[u].key) == s.Loads(s.threads[u].key)
  {
    hide Step, Inv;
    assert QuietThread(cfg, s, u);
    QuietCache(cfg, s, a);
    QuietLoads(cfg, s, a, s.threads[u].key);
    if a.WriteBack? || a.SourceOk? {
      if s.threads[a.thread].key == s.threads[u].key {
        OneLoad(s, u, a.thread);
      }
    }
  }

  lemma OtherQuiet(cfg: Config, s: State, a: Action, u: nat)
    requires Inv(s) && Quiet(cfg, s) && Enabled(s, a) && ReadsOnly(a) && u in s.threads && u != a.thread
    ensures u in Step(cfg, s, a).threads && QuietThread(cfg, Step(cfg, s, a), u)
  {
    hide Step, Inv;
    assert QuietThread(cfg, s, u);
    StepFrame(cfg, s, a);
    QuietGlobals(cfg, s, a);
    if InLoad(s.threads[u]) {
      OtherLoad(cfg, s, a, u);
    }
  }

  lemma PickStanding(cfg: Config, s: State, t: nat)
    requires Enabled(s, Pick(t)) && s.threads[t].op.OpGet?
    ensures var th := PickStep(cfg, s, t).threads[t];
            && th.op.OpGet? && (th.pc.Picked? ==> cfg.peers)
            && (cfg.peers && !th.pc.Finished? ==> th.epoch == s.epoch && cfg.standing(s.epoch, th.key) == Self)
  {
  }

  /** The first part of QuietThread, for the stepping thread. */
  lemma OwnStanding(cfg: Config, s: State, a: Action)
    requires Enabled(s, a) && ReadsOnly(a) && !a.Mutate?
    requires !a.Begin? ==> QuietThread(cfg, s, a.thread)
    ensures a.thread in Step(cfg, s, a).threads
    ensures var th := Step(cfg, s, a).threads[a.thread];
            && th.op.OpGet? && (th.pc.Picked? ==> cfg.peers)
            && (cfg.peers && !th.pc.Started? && !th.pc.Finished? ==>
                th.epoch == s.epoch && cfg.standing(s.epoch, th.key) == Self)
  {
    StepFrame(cfg, s, a);
    if a.Pick? {
      PickStanding(cfg, s, a.thread);
    } else if !a.Begin? {
      hide Step;
    }
  }

  /** A load that goes on: a recheck that missed starts it, the Getter's success or the ownership check continues it. */
  lemma OwnLoad(cfg: Config, s: State, a: Action)
    requires Enabled(s, a) && (a.Recheck? || a.SourceOk? || a.CheckOwner?)
    requires a.thread in Step(cfg, s, a).threads && InLoad(Step(cfg, s, a).threads[a.thread])
    ensures a.Recheck? ==> CacheGet(s, s.threads[a.thread].key).None? && Step(cfg, s, a).threads[a.thread].pc.Loading?
    ensures !a.Recheck? ==> Pending(Step(cfg, s, a).threads[a.thread])
    ensures a.SourceOk? ==> s.threads[a.thread].pc.Loading?
    ensures a.CheckOwner? ==> s.threads[a.thread].pc.Loaded?
  {
    hide SF.Step;
  }

  /** The last part of QuietThread, for the stepping thread. */
  lemma OwnLoadQuiet(cfg: Config, s: State, a: Action)
    requires Inv(s) && Quiet(cfg, s) && Enabled(s, a) && ReadsOnly(a) && (a.Recheck? || a.SourceOk? || a.CheckOwner?)
    requires a.thread in Step(cfg, s, a).threads && InLoad(Step(cfg, s, a).threads[a.thread])
    ensures s.threads[a.thread].key !in Step(cfg, s, a).cache
    ensures Step(cfg, s, a).Loads(s.threads[a.thread].key) ==
      if Pending(Step(cfg, s, a).threads[a.thread]) then 1 else 0
  {
    hide Step, Inv;
    assert QuietThread(cfg, s, a.thread);
    OwnLoad(cfg, s, a);
    QuietCache(cfg, s, a);
    QuietLoads(cfg, s, a, s.threads[a.thread].key);
    if a.Recheck? {
      RecheckFindsUnloaded(cfg, s, a.thread);
    }
  }

  lemma OwnQuiet(cfg: Config, s: State, a: Action)
    requires Inv(s) && Quiet(cfg, s) && Enabled(s, a) && ReadsOnly(a)
    ensures a.thread in Step(cfg, s, a).threads && QuietThread(cfg, Step(cfg, s, a), a.thread)
  {
    hide Step, Inv;
    if a.Mutate? {
      NoMutate(cfg, s, a.thread);
    }
    assert !a.Begin? ==> QuietThread(cfg, s, a.thread);
    StepFrame(cfg, s, a);
    OwnStanding(cfg, s, a);
    QuietGlobals(cfg, s, a);
    if InLoad(Step(cfg, s, a).threads[a.thread]) {
      OwnLoadQuiet(cfg, s, a);
    }
  }

  lemma StepQuietKey(cfg: Config, s: State, a: Action, key: string)
    requires Inv(s) && Quiet(cfg, s) && Enabled(s, a) && ReadsOnly(a)
    ensures QuietKey(Step(cfg, s, a), key)
  {
    assert QuietKey(s, key);
    QuietCache(cfg, s, a);
    QuietLoads(cfg, s, a, key);
    var t := a.thread;
    if a.SourceOk? && s.threads[t].key == key {
      assert QuietThread(cfg, s, t) && ThreadOk(s, t);
      LeadsMapped(s, t);
    } else if s.Loads(key) == 1 && key !in s.cache {
      PendingKept(cfg, s, a, key);
    }
  }

  /** A pending leader stays in place until it writes back. */
  lemma PendingKept(cfg: Config, s: State, a: Action, key: string)
    requires Inv(s) && Quiet(cfg, s) && Enabled(s, a) && ReadsOnly(a) && LeaderPending(s, key)
    ensures key in Step(cfg, s, a).cache || LeaderPending(Step(cfg, s, a), key)
  {
    hide Step;
    var leader := s.flight.calls[s.flight.mapped[key]].leader;
    StillLeads(cfg, s, a, key);
    if a.thread != leader {
      StepFrame(cfg, s, a);
    } else {
      LeaderMoves(cfg, s, a);
      QuietCache(cfg, s, a);
    }
  }

  lemma StillLeads(cfg: Config, s: State, a: Action, key: string)
    requires Inv(s) && Enabled(s, a) && LeaderPending(s, key)
    ensures var f := Step(cfg, s, a).flight;
            && key in f.mapped && f.mapped[key] == s.flight.mapped[key] < |f.calls|
            && f.calls[f.mapped[key]].leader == s.flight.calls[s.flight.mapped[key]].leader
  {
    hide Step, Inv;
    if a.Unmap? {
      UnmapsAnother(s, a.thread, key);
    }
    LeaderFrame(cfg, s, a, key);
  }

  /** A call whose leader has not written back is not the one that is being unmapped. */
  lemma UnmapsAnother(s: State, t: nat, key: string)
    requires Inv(s) && Enabled(s, Unmap(t)) && LeaderPending(s, key)
    ensures s.flight.threads[t].key != key
  {
    var leader := s.flight.calls[s.flight.mapped[key]].leader;
    assert ThreadOk(s, leader);
    if s.flight.threads[t].key == key {
      SF.OneLeader(s.flight, t, leader);
    }
  }

  /** A pending load is next checked and then written back. */
  lemma LeaderMoves(cfg: Config, s: State, a: Action)
    requires Inv(s) && Quiet(cfg, s) && Enabled(s, a) && ReadsOnly(a)
    requires a.thread in s.threads && Pending(s.threads[a.thread])
    ensures !a.WriteBack? ==> a.thread in Step(cfg, s, a).threads && Pending(Step(cfg, s, a).threads[a.thread])
    ensures a.thread in Step(cfg, s, a).threads && Step(cfg, s, a).threads[a.thread].key == s.threads[a.thread].key
  {
    hide SF.Step;
    LoadSucceeds(cfg, s, a.thread);
  }

  lemma StepQuiet(cfg: Config, s: State, a: Action)
    requires Inv(s) && Quiet(cfg, s) && Enabled(s, a) && ReadsOnly(a)
    ensures Quiet(cfg, Step(cfg, s, a))
  {
    hide Step;
    StepFrame(cfg, s, a);
    QuietGlobals(cfg, s, a);
    forall u | u in Step(cfg, s, a).threads
      ensures QuietThread(cfg, Step(cfg, s, a), u)
    {
      if u == a.thread {
        OwnQuiet(cfg, s, a);
      } else {
        OtherQuiet(cfg, s, a, u);
      }
    }
    forall k
      ensures QuietKey(Step(cfg, s, a), k)
    {
      StepQuietKey(cfg, s, a, k);
    }
    forall k
      ensures Step(cfg, s, a).keys.Mutations(k) == 0
    {
      assert s.keys.Mutations(k) == 0;
    }
  }

  lemma {:induction false} RunQuiet(cfg: Config, s: State, actions: seq<Action>)
    requires Inv(s) && Quiet(cfg, s) && Runnable(cfg, s, actions)
    requires forall i :: 0 <= i < |actions| ==> ReadsOnly(actions[i])
    ensures Quiet(cfg, Run(cfg, s, actions))
    decreases actions
  {
    if actions != [] {
      assert ReadsOnly(actions[0]);
      StepQuiet(cfg, s, actions[0]);
      StepInv(cfg, s, actions[0]);
      RunQuiet(cfg, Step(cfg, s, actions[0]), actions[1..]);
    }
  }

  /** Over every interleaving of getLocal calls, the Getter succeeds at most once per key. */
  lemma SourceLoadsOnce(cfg: Config, epoch: nat, actions: seq<Action>, key: string)
    requires Runnable(cfg, Init(epoch), actions)
    requires forall i :: 0 <= i < |actions| ==> ReadsOnly(actions[i])
    ensures Run(cfg, Init(epoch), actions).Loads(key) <= 1
  {
    InitInv(epoch);
    assert Quiet(cfg, Init(epoch));
    RunQuiet(cfg, Init(epoch), actions);
    assert QuietKey(Run(cfg, Init(epoch), actions), key);
  }
}
