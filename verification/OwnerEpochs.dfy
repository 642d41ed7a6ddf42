/**
 Ownership epochs on one node: exactly when the owner cache of an open group
 holds only entries of the recorded epoch, why that is so when no membership
 change lands between an ownership check and its write, and a run in which one
 does.
 */
module OwnerEpochs {
  import opened Common
  import SF = Singleflight
  import opened OwnerModel
  import opened OwnerSafety

  /** Every entry that can be served was written in the recorded epoch. */
  ghost predicate Current(s: State) {
    !s.closed ==> forall k :: k in s.cache ==> s.cache[k].epoch == s.ownerEpoch
  }

  /** The step puts a value into the owner cache. */
  predicate Writes(s: State, a: Action)
    requires Enabled(s, a)
  {
    && !s.closed
    && (|| (a.Mutate? && !a.late && s.threads[a.thread].op.OpSet?)
        || (a.WriteBack? && !a.late && WillWrite(s, a.thread)))
  }

  /** What such a step puts there. */
  function NewEntry(s: State, a: Action): Entry
    requires Enabled(s, a) && Writes(s, a)
  {
    var th := s.threads[a.thread];
    if a.Mutate? then Entry(th.op.value, th.epoch, s.keys.Mutations(th.key) + 1)
    else Entry(th.pc.value, th.epoch, th.pc.seen)
  }

  /** A writer's ownership check is of the recorded epoch. */
  predicate Timely(s: State, a: Action)
    requires Enabled(s, a)
  {
    Writes(s, a) ==> s.threads[a.thread].epoch == s.ownerEpoch
  }

  /** The thread went through prepareLocalOwner and is still at work. */
  predicate Established(th: Thread) {
    (th.pc.Prepared? || Holds(th)) && th.op != OpDelete(false)
  }

  /** A value is in the cache, or is about to get there, only once an epoch was recorded. */
  ghost predicate Recorded(s: State) {
    && 1 <= s.epoch
    && (forall t :: t in s.threads ==> RecordedThread(s, s.threads[t]))
    && (s.ownerEpoch == 0 ==> s.cache == map[])
  }

  predicate RecordedThread(s: State, th: Thread) {
    (th.pc.Picked? ==> 1 <= th.epoch) && (Established(th) ==> 1 <= th.epoch && 1 <= s.ownerEpoch)
  }

  /** Past prepareLocalOwner, a thread was past it before. */
  lemma StaysEstablished(cfg: Config, s: State, a: Action)
    requires cfg.peers && Enabled(s, a) && !IsEnv(a) && !a.Pick? && !a.Prepare?
    ensures a.thread in Step(cfg, s, a).threads
    ensures Established(Step(cfg, s, a).threads[a.thread]) ==> a.thread in s.threads && Established(s.threads[a.thread])
  {
    StepFrame(cfg, s, a);
    if !a.Begin? {
      hide Step;
    }
  }

  lemma PickRecords(cfg: Config, s: State, t: nat)
    requires cfg.peers && Enabled(s, Pick(t))
    ensures var th := PickStep(cfg, s, t).threads[t];
            !Established(th) && (th.pc.Picked? ==> th.epoch == s.epoch)
  {
  }

  lemma StepRecordedThread(cfg: Config, s: State, a: Action, t: nat)
    requires cfg.peers && Recorded(s) && Enabled(s, a) && t in Step(cfg, s, a).threads
    ensures RecordedThread(Step(cfg, s, a), Step(cfg, s, a).threads[t])
  {
    StepFrame(cfg, s, a);
    assert t in s.threads ==> RecordedThread(s, s.threads[t]);
    if a.Prepare? {
      assert RecordedThread(s, s.threads[a.thread]);
    } else {
      hide Step;
      if IsEnv(a) || t != a.thread {
      } else if a.Pick? {
        PickTaken(cfg, s, t);
        PickRecords(cfg, s, t);
      } else {
        StaysEstablished(cfg, s, a);
      }
    }
  }

  lemma PickTaken(cfg: Config, s: State, t: nat)
    requires Enabled(s, Pick(t))
    ensures Step(cfg, s, Pick(t)) == PickStep(cfg, s, t)
  {
  }

  /** Only a thread past prepareLocalOwner writes. */
  lemma WritersAreEstablished(s: State, a: Action)
    requires Inv(s) && Enabled(s, a) && Writes(s, a)
    ensures Established(s.threads[a.thread])
  {
  }

  /** What a step does to the cache. */
  lemma CacheStep(cfg: Config, s: State, a: Action)
    requires Enabled(s, a)
    ensures var after := Step(cfg, s, a);
            if Writes(s, a) then
              && after.closed == s.closed && after.ownerEpoch == s.ownerEpoch
              && after.cache == s.cache[s.threads[a.thread].key := NewEntry(s, a)]
            else
              && after.cache.Keys <= s.cache.Keys && (forall k :: k in after.cache ==> after.cache[k] == s.cache[k])
              && (s.closed ==> after.closed)
              && (after.ownerEpoch != s.ownerEpoch && s.ownerEpoch != 0 ==> s.closed || after.cache == map[])
  {
    StepFrame(cfg, s, a);
    if a.Mutate? || a.WriteBack? {
      WriterCache(cfg, s, a);
    }
  }

  lemma WriterCache(cfg: Config, s: State, a: Action)
    requires Enabled(s, a) && (a.Mutate? || a.WriteBack?)
    ensures var after := Step(cfg, s, a);
            if Writes(s, a) then after.cache == s.cache[s.threads[a.thread].key := NewEntry(s, a)]
            else after.cache.Keys <= s.cache.Keys && (forall k :: k in after.cache ==> after.cache[k] == s.cache[k])
  {
    hide SF.Step;
  }

  /** Exactly: a step keeps the cache current if and only if it is not a write on an outdated check. */
  lemma StepCurrentIff(cfg: Config, s: State, a: Action)
    requires cfg.peers && Inv(s) && Recorded(s) && Current(s) && Enabled(s, a)
    ensures Current(Step(cfg, s, a)) <==> Timely(s, a)
  {
    hide Step, Inv;
    CacheStep(cfg, s, a);
    var after := Step(cfg, s, a);
    if Writes(s, a) {
      assert s.threads[a.thread].key in after.cache;
    } else if !after.closed {
      assert after.ownerEpoch == s.ownerEpoch || after.cache == map[];
    }
  }

  lemma StepRecorded(cfg: Config, s: State, a: Action)
    requires cfg.peers && Inv(s) && Recorded(s) && Enabled(s, a)
    ensures Recorded(Step(cfg, s, a))
  {
    hide Step;
    StepFrame(cfg, s, a);
    CacheStep(cfg, s, a);
    OwnerEpochSet(cfg, s, a);
    if Writes(s, a) {
      WritersAreEstablished(s, a);
      assert RecordedThread(s, s.threads[a.thread]);
    }
    forall t | t in Step(cfg, s, a).threads
      ensures RecordedThread(Step(cfg, s, a), Step(cfg, s, a).threads[t])
    {
      StepRecordedThread(cfg, s, a, t);
    }
  }

  /** Only Prepare records an epoch: the one its thread's check returned. */
  lemma OwnerEpochSet(cfg: Config, s: State, a: Action)
    requires Enabled(s, a)
    ensures Step(cfg, s, a).ownerEpoch == if a.Prepare? then s.threads[a.thread].epoch else s.ownerEpoch
    ensures s.epoch <= Step(cfg, s, a).epoch
  {
    StepFrame(cfg, s, a);
    if !a.Prepare? && !IsEnv(a) {
      hide Step;
    }
  }

  // ---- Whole runs ---------------------------------------------------------------------

  ghost predicate AlwaysCurrent(cfg: Config, s: State, actions: seq<Action>)
    requires Runnable(cfg, s, actions)
    decreases actions
  {
    Current(s) && (actions == [] || AlwaysCurrent(cfg, Step(cfg, s, actions[0]), actions[1..]))
  }

  predicate AlwaysTimely(cfg: Config, s: State, actions: seq<Action>)
    requires Runnable(cfg, s, actions)
    decreases actions
  {
    actions == [] || (Timely(s, actions[0]) && AlwaysTimely(cfg, Step(cfg, s, actions[0]), actions[1..]))
  }

  lemma {:induction false} RunCurrentIff(cfg: Config, s: State, actions: seq<Action>)
    requires cfg.peers && Inv(s) && Recorded(s) && Current(s) && Runnable(cfg, s, actions)
    ensures AlwaysCurrent(cfg, s, actions) <==> AlwaysTimely(cfg, s, actions)
    decreases actions
  {
    hide Step, Inv, Recorded, Current, Timely;
    if actions != [] {
      var after := Step(cfg, s, actions[0]);
      StepCurrentIff(cfg, s, actions[0]);
      StepInv(cfg, s, actions[0]);
      StepRecorded(cfg, s, actions[0]);
      if Current(after) {
        RunCurrentIff(cfg, after, actions[1..]);
      } else {
        NotCurrent(cfg, after, actions[1..]);
      }
    }
  }

  lemma NotCurrent(cfg: Config, s: State, actions: seq<Action>)
    requires Runnable(cfg, s, actions) && !Current(s)
    ensures !AlwaysCurrent(cfg, s, actions)
  {
  }

  /**
   Exactly when an epoch change leaves nothing behind: throughout a run of a
   group with peers, the owner cache holds only entries of the recorded epoch
   if and only if every write is by a thread whose ownership check was of the
   epoch recorded at the write. The code does not compare the two.
   */
  lemma CurrentThroughoutIff(cfg: Config, epoch: nat, actions: seq<Action>)
    requires cfg.peers && 1 <= epoch && Runnable(cfg, Init(epoch), actions)
    ensures AlwaysCurrent(cfg, Init(epoch), actions) <==> AlwaysTimely(cfg, Init(epoch), actions)
  {
    InitInv(epoch);
    RunCurrentIff(cfg, Init(epoch), actions);
  }

  // ---- Membership changes outside the windows ---------------------------------------------

  /** The thread relies on an ownership check for a write, or for the epoch it is about to record. */
  predicate Window(th: Thread) {
    || th.pc.Picked?
    || (th.op.OpSet? && (th.pc.Prepared? || th.pc.Holding?))
    || th.pc.Checked?
  }

  /** Membership changes fall outside the windows: check and write are as one step. */
  predicate Undisturbed(s: State, a: Action) {
    a.ChangeMembership? ==> forall t :: t in s.threads ==> !Window(s.threads[t])
  }

  predicate UndisturbedRun(cfg: Config, s: State, actions: seq<Action>)
    requires Runnable(cfg, s, actions)
    decreases actions
  {
    actions == [] ||
    (Undisturbed(s, actions[0]) && UndisturbedRun(cfg, Step(cfg, s, actions[0]), actions[1..]))
  }

  predicate EpochThread(s: State, th: Thread) {
    (Window(th) ==> th.epoch == s.epoch) && (Established(th) ==> th.epoch <= s.ownerEpoch)
  }

  ghost predicate EpochInv(s: State) {
    s.ownerEpoch <= s.epoch && forall t :: t in s.threads ==> EpochThread(s, s.threads[t])
  }

  /** Past prepareLocalOwner, only the check before the write-back opens a window. */
  lemma CheckOpensWindow(cfg: Config, s: State, a: Action)
    requires cfg.peers && Enabled(s, a) && !IsEnv(a) && !a.Begin? && !a.Pick? && !a.Prepare?
    requires a.thread in Step(cfg, s, a).threads && Window(Step(cfg, s, a).threads[a.thread])
    ensures Window(s.threads[a.thread]) || s.threads[a.thread].epoch == s.epoch
  {
    if a.CheckOwner? {
      hide SF.Step;
    } else {
      hide Step;
      StepFrame(cfg, s, a);
    }
  }

  lemma OwnEpoch(cfg: Config, s: State, a: Action)
    requires cfg.peers && EpochInv(s) && Enabled(s, a) && !IsEnv(a)
    ensures a.thread in Step(cfg, s, a).threads
    ensures EpochThread(Step(cfg, s, a), Step(cfg, s, a).threads[a.thread])
  {
    StepFrame(cfg, s, a);
    OwnerEpochSet(cfg, s, a);
    assert !a.Begin? ==> EpochThread(s, s.threads[a.thread]);
    if a.Pick? {
      PickRecords(cfg, s, a.thread);
      PickTaken(cfg, s, a.thread);
    } else if !a.Begin? && !a.Prepare? {
      hide Step;
      StaysEstablished(cfg, s, a);
      if Window(Step(cfg, s, a).threads[a.thread]) {
        CheckOpensWindow(cfg, s, a);
      }
    }
  }

  lemma StepEpoch(cfg: Config, s: State, a: Action)
    requires cfg.peers && EpochInv(s) && Enabled(s, a) && Undisturbed(s, a)
    ensures EpochInv(Step(cfg, s, a))
  {
    hide Step;
    var after := Step(cfg, s, a);
    StepFrame(cfg, s, a);
    OwnerEpochSet(cfg, s, a);
    if a.Prepare? {
      assert EpochThread(s, s.threads[a.thread]);
    }
    forall t | t in after.threads
      ensures EpochThread(after, after.threads[t])
    {
      if IsEnv(a) || t != a.thread {
        assert EpochThread(s, s.threads[t]);
      } else {
        OwnEpoch(cfg, s, a);
      }
    }
  }

  /** A write whose window was not disturbed is timely. */
  lemma UndisturbedIsTimely(s: State, a: Action)
    requires Inv(s) && EpochInv(s) && Enabled(s, a)
    ensures Timely(s, a)
  {
  }

  lemma {:induction false} RunEpoch(cfg: Config, s: State, actions: seq<Action>)
    requires cfg.peers && Inv(s) && Recorded(s) && Current(s) && EpochInv(s)
    requires Runnable(cfg, s, actions) && UndisturbedRun(cfg, s, actions)
    ensures AlwaysTimely(cfg, s, actions)
    ensures var last := Run(cfg, s, actions); EpochInv(last) && Current(last)
    decreases actions
  {
    hide Step, Inv, Recorded, Current, EpochInv, Timely;
    if actions != [] {
      UndisturbedIsTimely(s, actions[0]);
      StepCurrentIff(cfg, s, actions[0]);
      StepEpoch(cfg, s, actions[0]);
      StepInv(cfg, s, actions[0]);
      StepRecorded(cfg, s, actions[0]);
      RunEpoch(cfg, Step(cfg, s, actions[0]), actions[1..]);
    }
  }

  /**
   When no membership change falls between a check and its write, every write
   is timely, and a thread that hits the cache gets an entry no older than its
   own ownership check: nothing from an earlier ownership period is served.
   */
  lemma ServedEntriesAreCurrent(cfg: Config, epoch: nat, actions: seq<Action>, t: nat)
    requires cfg.peers && 1 <= epoch && Runnable(cfg, Init(epoch), actions)
    requires UndisturbedRun(cfg, Init(epoch), actions)
    ensures AlwaysTimely(cfg, Init(epoch), actions)
    ensures var s := Run(cfg, Init(epoch), actions);
            && (!s.closed ==> forall k :: k in s.cache ==> s.cache[k].epoch == s.ownerEpoch)
            && (t in s.threads && Established(s.threads[t]) && CacheGet(s, s.threads[t].key).Some? ==>
                s.threads[t].epoch <= CacheGet(s, s.threads[t].key).value.epoch == s.ownerEpoch)
  {
    InitInv(epoch);
    RunEpoch(cfg, Init(epoch), actions);
    var s := Run(cfg, Init(epoch), actions);
    if t in s.threads {
      assert EpochThread(s, s.threads[t]);
    }
  }

  // ---- A change inside a window ---------------------------------------------------------

  /** A node that owns everything in odd epochs and nothing in even ones. */
  const FLAPPING := Config(true, false, (e: nat, k: string) => if e % 2 == 1 then Self else Other)

  /** A Set of "k" passes its check in epoch 1 and acquires its key state. */
  const CHECKED: seq<Action> := [Begin(0, OpSet([7]), "k"), Pick(0), Prepare(0), Acquire(0)]

  /** The key is lost and regained. */
  const REGAINED: seq<Action> := [ChangeMembership, ChangeMembership]

  /** A Get of epoch 3 prepares. */
  const PREPARED: seq<Action> := [Begin(1, OpGet, "k"), Pick(1), Prepare(1)]

  /** The Set writes, and the Get acquires the key state. */
  const WRITTEN: seq<Action> := [Mutate(0, false), Acquire(1)]

  function Stage(epoch: nat, ownerEpoch: nat, cache: map<string, Entry>, generation: nat, refs: nat,
                 threads: map<nat, Thread>): State
  {
    State(false, epoch, ownerEpoch, cache,
          Keys(map["k" := 0], [KeyState("k", generation, refs)],
               if generation == 0 then map[] else map["k" := generation]),
          SF.Init(), threads, Past(map[], if generation == 0 then {} else {WasSet("k", [7], 1)}, map[]))
  }

  const SETTER := Thread(OpSet([7]), "k", 1, 0, 0, None, Holding)

  const GETTER := Thread(OpGet, "k", 3, 0, 0, None, Prepared)

  lemma CheckedStage()
    ensures Runnable(FLAPPING, Init(1), CHECKED)
    ensures Run(FLAPPING, Init(1), CHECKED) == Stage(1, 1, map[], 0, 1, map[0 := SETTER])
  {
    RunFour(FLAPPING, Init(1), CHECKED[0], CHECKED[1], CHECKED[2], CHECKED[3]);
  }

  lemma RegainedStage()
    ensures var s := Stage(1, 1, map[], 0, 1, map[0 := SETTER]);
            && Runnable(FLAPPING, s, REGAINED)
            && Run(FLAPPING, s, REGAINED) == Stage(3, 1, map[], 0, 1, map[0 := SETTER])
  {
  }

  lemma PreparedStage()
    ensures var s := Stage(3, 1, map[], 0, 1, map[0 := SETTER]);
            && Runnable(FLAPPING, s, PREPARED)
            && Run(FLAPPING, s, PREPARED) == Stage(3, 3, map[], 0, 1, map[0 := SETTER, 1 := GETTER])
  {
  }

  lemma WrittenStage()
    ensures var s := Stage(3, 3, map[], 0, 1, map[0 := SETTER, 1 := GETTER]);
            && Runnable(FLAPPING, s, WRITTEN)
            && Run(FLAPPING, s, WRITTEN) == Stage(3, 3, map["k" := Entry([7], 1, 1)], 1, 2,
                 map[0 := SETTER.(pc := Releasing(Mutated)), 1 := GETTER.(pc := Holding)])
  {
    var s0 := Stage(3, 3, map[], 0, 1, map[0 := SETTER, 1 := GETTER]);
    var s1 := Step(FLAPPING, s0, WRITTEN[0]);
    var s2 := Step(FLAPPING, s1, WRITTEN[1]);
    assert WRITTEN[1..] == [WRITTEN[1]] && Runnable(FLAPPING, s1, WRITTEN[1..]);
    assert Run(FLAPPING, s1, WRITTEN[1..]) == s2;
    assert s2 == Stage(3, 3, map["k" := Entry([7], 1, 1)], 1, 2,
                 map[0 := SETTER.(pc := Releasing(Mutated)), 1 := GETTER.(pc := Holding)]);
  }

  const DISTURBED := CHECKED + (REGAINED + (PREPARED + WRITTEN))

  /**
   A membership change inside a window breaks the property: the Get of epoch 3
   serves the entry that was written on the strength of epoch 1.
   */
  lemma DisturbedServesStale()
    ensures Runnable(FLAPPING, Init(1), DISTURBED)
    ensures var s := Run(FLAPPING, Init(1), DISTURBED);
            && Enabled(s, Lookup(1)) && s.threads[1].epoch == 3 == s.ownerEpoch
            && CacheGet(s, "k") == Some(Entry([7], 1, 1))
            && Step(FLAPPING, s, Lookup(1)).threads[1].pc == Releasing(Found([7], 1))
  {
    CheckedStage();
    RegainedStage();
    PreparedStage();
    WrittenStage();
    RunSplit(FLAPPING, Stage(3, 1, map[], 0, 1, map[0 := SETTER]), PREPARED, WRITTEN);
    RunSplit(FLAPPING, Stage(1, 1, map[], 0, 1, map[0 := SETTER]), REGAINED, PREPARED + WRITTEN);
    RunSplit(FLAPPING, Init(1), CHECKED, REGAINED + (PREPARED + WRITTEN));
  }
}
