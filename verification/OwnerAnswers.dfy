/**
 What getLocal, setLocal and deleteLocal answer and leave in the owner cache
 when a call runs alone from any state that the invariant allows, whatever other
 calls are half-way through.
 */
module OwnerAnswers {
  import opened Common
  import SF = Singleflight
  import opened OwnerModel
  import opened OwnerSafety
  import opened OwnerReads

  /** The call goes through prepareLocalOwner. */
  predicate Checks(cfg: Config, op: Op) {
    cfg.peers && op != OpDelete(false)
  }

  /** The steps of a call up to its key state. */
  function Enter(cfg: Config, t: nat, op: Op, key: string): seq<Action> {
    if op == OpDelete(false) then [Begin(t, op, key), Acquire(t)]
    else if cfg.peers then [Begin(t, op, key), Pick(t), Prepare(t), Acquire(t)]
    else [Begin(t, op, key), Pick(t), Acquire(t)]
  }

  /** What prepareLocalOwner leaves of the owner cache: nothing, if it held entries of another epoch. */
  function KeptBy(cfg: Config, s: State, op: Op): map<string, Entry> {
    if Checks(cfg, op) && s.ownerEpoch !in {0, s.epoch} then map[] else s.cache
  }

  /** The call may go on: the group is open and, where it is checked, this node owns the key. */
  predicate Accepted(cfg: Config, s: State, t: nat, op: Op, key: string) {
    !s.closed && t !in s.threads && (Checks(cfg, op) ==> cfg.standing(s.epoch, key) == Self)
  }

  /** Everything but the thread, its key state and the owner cache is as before. */
  predicate Beside(s: State, after: State) {
    && after.closed == s.closed && after.epoch == s.epoch && after.keys.mutations == s.keys.mutations
    && after.flight == s.flight
  }

  /** The thread is at this point of its call. */
  predicate At(s: State, t: nat, op: Op, key: string, pc: PC) {
    t in s.threads && s.threads[t].op == op && s.threads[t].key == key && s.threads[t].pc == pc
  }

  predicate Ends(s: State, t: nat, r: Result) {
    t in s.threads && s.threads[t].pc == Finished(r)
  }

  /** The thread holds its key state, in the epoch of its check. */
  ghost predicate Entered(cfg: Config, s: State, after: State, t: nat, op: Op, key: string) {
    && Inv(after) && Beside(s, after) && At(after, t, op, key, Holding)
    && after.threads[t].epoch == (if Checks(cfg, op) then s.epoch else 0)
    && after.cache == KeptBy(cfg, s, op)
  }

  lemma AcquireEnters(cfg: Config, s: State, t: nat)
    requires Inv(s) && t in s.threads && s.threads[t].pc.Prepared?
    ensures Enabled(s, Acquire(t))
    ensures var after := Step(cfg, s, Acquire(t));
            && Inv(after) && Beside(s, after) && after.cache == s.cache
            && At(after, t, s.threads[t].op, s.threads[t].key, Holding) && after.threads[t].epoch == s.threads[t].epoch
  {
    hide Inv;
    HeldOrMappable(s, t);
    StepInv(cfg, s, Acquire(t));
  }

  lemma DeleteEnters(cfg: Config, s: State, t: nat, key: string)
    requires Inv(s) && t !in s.threads
    ensures Runnable(cfg, s, Enter(cfg, t, OpDelete(false), key))
    ensures Entered(cfg, s, Run(cfg, s, Enter(cfg, t, OpDelete(false), key)), t, OpDelete(false), key)
  {
    hide Inv, AcquireStep;
    var begin := Begin(t, OpDelete(false), key);
    var a := Step(cfg, s, begin);
    StepInv(cfg, s, begin);
    AcquireEnters(cfg, a, t);
    RunCons(cfg, a, Acquire(t), []);
    RunCons(cfg, s, begin, [Acquire(t)]);
  }

  lemma OwnerEnters(cfg: Config, s: State, t: nat, op: Op, key: string)
    requires Inv(s) && Accepted(cfg, s, t, op, key) && Checks(cfg, op)
    ensures Runnable(cfg, s, Enter(cfg, t, op, key))
    ensures Entered(cfg, s, Run(cfg, s, Enter(cfg, t, op, key)), t, op, key)
  {
    hide Inv, AcquireStep, Runnable, Run;
    var a := Step(cfg, s, Begin(t, op, key));
    StepInv(cfg, s, Begin(t, op, key));
    StepInv(cfg, a, Pick(t));
    var b := Step(cfg, a, Pick(t));
    StepInv(cfg, b, Prepare(t));
    assert s.cache - s.cache.Keys == map[];
    AcquireEnters(cfg, Step(cfg, b, Prepare(t)), t);
    RunFour(cfg, s, Begin(t, op, key), Pick(t), Prepare(t), Acquire(t));
  }

  lemma AloneEnters(cfg: Config, s: State, t: nat, op: Op, key: string)
    requires Inv(s) && Accepted(cfg, s, t, op, key) && !cfg.peers && op != OpDelete(false)
    ensures Runnable(cfg, s, Enter(cfg, t, op, key))
    ensures Entered(cfg, s, Run(cfg, s, Enter(cfg, t, op, key)), t, op, key)
  {
    hide Inv, AcquireStep;
    var a := Step(cfg, s, Begin(t, op, key));
    StepInv(cfg, s, Begin(t, op, key));
    StepInv(cfg, a, Pick(t));
    var b := Step(cfg, a, Pick(t));
    AcquireEnters(cfg, b, t);
    RunCons(cfg, b, Acquire(t), []);
    RunCons(cfg, a, Pick(t), [Acquire(t)]);
    RunCons(cfg, s, Begin(t, op, key), [Pick(t), Acquire(t)]);
  }

  /** An accepted call reaches its key state. */
  lemma CallEnters(cfg: Config, s: State, t: nat, op: Op, key: string)
    requires Inv(s) && Accepted(cfg, s, t, op, key)
    ensures Runnable(cfg, s, Enter(cfg, t, op, key))
    ensures Entered(cfg, s, Run(cfg, s, Enter(cfg, t, op, key)), t, op, key)
  {
    hide Inv, Entered, Enter, Run, Runnable;
    if op == OpDelete(false) {
      DeleteEnters(cfg, s, t, key);
    } else if cfg.peers {
      OwnerEnters(cfg, s, t, op, key);
    } else {
      AloneEnters(cfg, s, t, op, key);
    }
  }

  lemma ReleaseEnds(cfg: Config, s: State, t: nat)
    requires Inv(s) && t in s.threads && s.threads[t].pc.Releasing?
    ensures Enabled(s, Release(t))
    ensures var after := Step(cfg, s, Release(t));
            && Inv(after) && Beside(s, after) && after.cache == s.cache && Ends(after, t, s.threads[t].pc.result)
  {
    hide Inv;
    HeldOrMappable(s, t);
    StepInv(cfg, s, Release(t));
  }

  /** The call, then these steps, is a run that ends with this result and leaves this cache. */
  ghost predicate Answers(cfg: Config, s: State, t: nat, op: Op, key: string, steps: seq<Action>, r: Result,
                          cache: map<string, Entry>)
  {
    && Runnable(cfg, s, Enter(cfg, t, op, key) + steps)
    && var after := Run(cfg, s, Enter(cfg, t, op, key) + steps);
       Ends(after, t, r) && after.cache == cache
  }

  /** One step from the key state to the end of the call, then the release. */
  lemma OneStepAnswers(cfg: Config, s: State, t: nat, op: Op, key: string, e: State, a: Action, r: Result)
    requires Inv(s) && Runnable(cfg, s, Enter(cfg, t, op, key)) && e == Run(cfg, s, Enter(cfg, t, op, key))
    requires Inv(e) && Enabled(e, a) && At(Step(cfg, e, a), t, op, key, Releasing(r))
    ensures Answers(cfg, s, t, op, key, [a, Release(t)], r, Step(cfg, e, a).cache)
  {
    hide Inv, Enter, Step, Enabled, Run, Runnable;
    StepInv(cfg, e, a);
    ReleaseEnds(cfg, Step(cfg, e, a), t);
    RunTwo(cfg, e, a, Release(t));
    RunSplit(cfg, s, Enter(cfg, t, op, key), [a, Release(t)]);
  }

  lemma RunTwo(cfg: Config, s: State, a: Action, b: Action)
    requires Enabled(s, a) && Enabled(Step(cfg, s, a), b)
    ensures Runnable(cfg, s, [a, b]) && Run(cfg, s, [a, b]) == Step(cfg, Step(cfg, s, a), b)
  {
    hide Enabled, Step;
    RunCons(cfg, Step(cfg, s, a), b, []);
    RunCons(cfg, s, a, [b]);
    assert [a] + [b] == [a, b] && [b] + [] == [b];
  }

  // ---- Get ---------------------------------------------------------------------------------

  /** A cached value is served: getLocal of a key that is in the cache returns that entry. */
  lemma HitIsServed(cfg: Config, s: State, t: nat, key: string)
    requires Inv(s) && Accepted(cfg, s, t, OpGet, key) && key in KeptBy(cfg, s, OpGet)
    ensures var e := KeptBy(cfg, s, OpGet)[key];
            Answers(cfg, s, t, OpGet, key, [Lookup(t), Release(t)], Found(e.value, e.asOf), KeptBy(cfg, s, OpGet))
  {
    hide Inv, Enter, Answers;
    CallEnters(cfg, s, t, OpGet, key);
    var e := KeptBy(cfg, s, OpGet)[key];
    var held := Run(cfg, s, Enter(cfg, t, OpGet, key));
    OneStepAnswers(cfg, s, t, OpGet, key, held, Lookup(t), Found(e.value, e.asOf));
  }

  /** Without a Getter, getLocal of a key that is not in the cache returns ErrCacheMiss. */
  lemma MissWithoutGetter(cfg: Config, s: State, t: nat, key: string)
    requires Inv(s) && Accepted(cfg, s, t, OpGet, key) && key !in KeptBy(cfg, s, OpGet) && !cfg.getter
    ensures Answers(cfg, s, t, OpGet, key, [Lookup(t), Release(t)], Failed(ErrCacheMiss), KeptBy(cfg, s, OpGet))
  {
    hide Inv, Enter, Answers;
    CallEnters(cfg, s, t, OpGet, key);
    var held := Run(cfg, s, Enter(cfg, t, OpGet, key));
    OneStepAnswers(cfg, s, t, OpGet, key, held, Lookup(t), Failed(ErrCacheMiss));
  }

  // ---- Set and Delete ------------------------------------------------------------------------

  /**
   setLocal ends without error and leaves its value in the cache, as of its own
   mutation, unless it had expired by then.
   */
  lemma SetIsCached(cfg: Config, s: State, t: nat, key: string, value: Bytes, late: bool)
    requires Inv(s) && Accepted(cfg, s, t, OpSet(value), key)
    ensures var kept := KeptBy(cfg, s, OpSet(value));
            var written := Entry(value, if cfg.peers then s.epoch else 0, s.keys.Mutations(key) + 1);
            Answers(cfg, s, t, OpSet(value), key, [Mutate(t, late), Release(t)], Mutated,
                    if late then kept - {key} else kept[key := written])
  {
    hide Inv, Enter, Answers;
    CallEnters(cfg, s, t, OpSet(value), key);
    var held := Run(cfg, s, Enter(cfg, t, OpSet(value), key));
    HeldOrMappable(held, t);
    OneStepAnswers(cfg, s, t, OpSet(value), key, held, Mutate(t, late), Mutated);
  }

  /** deleteLocal ends without error and leaves no value in the cache. */
  lemma DeleteDrops(cfg: Config, s: State, t: nat, key: string, checked: bool)
    requires Inv(s) && Accepted(cfg, s, t, OpDelete(checked), key)
    ensures Answers(cfg, s, t, OpDelete(checked), key, [Mutate(t, false), Release(t)], Mutated,
                    KeptBy(cfg, s, OpDelete(checked)) - {key})
  {
    hide Inv, Enter, Answers;
    CallEnters(cfg, s, t, OpDelete(checked), key);
    var held := Run(cfg, s, Enter(cfg, t, OpDelete(checked), key));
    HeldOrMappable(held, t);
    OneStepAnswers(cfg, s, t, OpDelete(checked), key, held, Mutate(t, false), Mutated);
  }

  /** A call that prepareLocalOwner or the closed group turns away leaves the cache as it was. */
  lemma CallIsRefused(cfg: Config, s: State, t: nat, op: Op, key: string)
    requires t !in s.threads && op != OpDelete(false)
    ensures s.closed ==> Ends(Step(cfg, s, Begin(t, op, key)), t, Failed(ErrGroupClosed))
    ensures !s.closed && cfg.peers && cfg.standing(s.epoch, key) != Self ==>
      && Runnable(cfg, s, [Begin(t, op, key), Pick(t)])
      && var after := Run(cfg, s, [Begin(t, op, key), Pick(t)]);
         && Ends(after, t, Failed(if cfg.standing(s.epoch, key).Other? then ErrNotOwner else ErrNoOwner))
         && after.cache == s.cache
  {
    if !s.closed {
      RunTwo(cfg, s, Begin(t, op, key), Pick(t));
    }
  }

  // ---- Inside Do -----------------------------------------------------------------------------

  /** The function that the thread leads has returned `r`. */
  predicate Ran(s: State, t: nat, r: Result) {
    && t in s.threads && s.threads[t].pc.InDo? && SF.Inside(s.flight, t) && s.flight.threads[t].Ran?
    && ResultOf(s, t) == Some(r)
  }

  /** Whoever leaves Do takes the result of its call along, whether it led the call or waited for it. */
  lemma LeaveGives(cfg: Config, s: State, t: nat)
    requires Inv(s) && Enabled(s, Leave(t))
    ensures var after := Step(cfg, s, Leave(t));
            && Inv(after) && after.cache == s.cache && after.keys == s.keys && after.closed == s.closed
            && ResultOf(s, t).Some? && t in after.threads && after.threads[t].pc == Releasing(ResultOf(s, t).value)
  {
    hide Inv;
    StepInv(cfg, s, Leave(t));
  }

  lemma UnmapAndSignal(cfg: Config, s: State, t: nat, r: Result)
    requires Inv(s) && Ran(s, t, r)
    ensures Enabled(s, Unmap(t)) && Enabled(Step(cfg, s, Unmap(t)), Signal(t))
    ensures var after := Step(cfg, Step(cfg, s, Unmap(t)), Signal(t));
            Inv(after) && Enabled(after, Leave(t)) && ResultOf(after, t) == Some(r) && after.cache == s.cache
  {
    hide Inv;
    StepInv(cfg, s, Unmap(t));
    StepInv(cfg, Step(cfg, s, Unmap(t)), Signal(t));
  }

  /** The leader of a call that has returned `r` ends with `r`. */
  lemma LeaderEnds(cfg: Config, s: State, t: nat, r: Result)
    requires Inv(s) && Ran(s, t, r)
    ensures Runnable(cfg, s, [Unmap(t), Signal(t), Leave(t), Release(t)])
    ensures var after := Run(cfg, s, [Unmap(t), Signal(t), Leave(t), Release(t)]);
            Ends(after, t, r) && after.cache == s.cache
  {
    hide Inv, Step, Enabled, Run, Runnable, Ran;
    UnmapAndSignal(cfg, s, t, r);
    var a := Step(cfg, Step(cfg, s, Unmap(t)), Signal(t));
    LeaveGives(cfg, a, t);
    ReleaseEnds(cfg, Step(cfg, a, Leave(t)), t);
    RunFour(cfg, s, Unmap(t), Signal(t), Leave(t), Release(t));
  }

  /** The steps from the key state to the Getter, and from the end of the function to the end of the call. */
  function StartLoad(t: nat): seq<Action> {
    [Lookup(t), EnterDo(t), Recheck(t)]
  }

  function FinishDo(t: nat): seq<Action> {
    [Unmap(t), Signal(t), Leave(t), Release(t)]
  }

  /** The Getter runs for the thread, which leads its call and has seen every mutation of its key. */
  ghost predicate AtSource(s: State, t: nat) {
    && Inv(s) && Held(s, t) && InFn(s, t) && s.threads[t].pc.Loading?
    && s.threads[t].pc == Loading(s.keys.states[s.threads[t].sid].generation, s.keys.Mutations(s.threads[t].key))
  }

  lemma RunThree(cfg: Config, s: State, a: Action, b: Action, c: Action)
    requires Enabled(s, a) && Enabled(Step(cfg, s, a), b) && Enabled(Step(cfg, Step(cfg, s, a), b), c)
    ensures Runnable(cfg, s, [a, b, c]) && Run(cfg, s, [a, b, c]) == Step(cfg, Step(cfg, Step(cfg, s, a), b), c)
  {
    hide Enabled, Step;
    RunTwo(cfg, Step(cfg, s, a), b, c);
    RunCons(cfg, s, a, [b, c]);
    assert [a] + [b, c] == [a, b, c];
  }

  /** A thread that misses and finds no call of its key becomes the leader of a new one. */
  lemma EnterLeads(cfg: Config, s: State, t: nat)
    requires Inv(s) && t in s.threads && s.threads[t].pc.Missed? && s.threads[t].key !in s.flight.mapped
    ensures Enabled(s, EnterDo(t))
    ensures var after := Step(cfg, s, EnterDo(t));
            && Inv(after) && Held(after, t) && InFn(after, t) && after.threads[t].pc.InDo?
            && after.threads[t].key == s.threads[t].key && after.threads[t].epoch == s.threads[t].epoch
            && after.cache == s.cache && after.keys == s.keys && after.epoch == s.epoch && after.closed == s.closed
  {
    hide Inv;
    HeldOrMappable(s, t);
    StepInv(cfg, s, EnterDo(t));
  }

  /** If the cache still misses, the Getter is called. */
  lemma RecheckLoads(cfg: Config, s: State, t: nat)
    requires Inv(s) && Enabled(s, Recheck(t)) && CacheGet(s, s.threads[t].key).None?
    ensures var after := Step(cfg, s, Recheck(t));
            && AtSource(after, t)
            && after.threads[t].key == s.threads[t].key && after.threads[t].epoch == s.threads[t].epoch
            && after.cache == s.cache && after.keys == s.keys && after.epoch == s.epoch && after.closed == s.closed
  {
    hide Inv;
    StepInv(cfg, s, Recheck(t));
  }

  /** If the cache has been filled meanwhile, its value is served and the Getter is not called. */
  lemma RecheckServes(cfg: Config, s: State, t: nat)
    requires Inv(s) && Enabled(s, Recheck(t)) && CacheGet(s, s.threads[t].key).Some?
    ensures var e := s.cache[s.threads[t].key];
            var after := Step(cfg, s, Recheck(t));
            && Inv(after) && Ran(after, t, Found(e.value, e.asOf)) && after.cache == s.cache
            && after.past.loads == s.past.loads
  {
    hide Inv;
    StepInv(cfg, s, Recheck(t));
  }

  /** A getLocal that misses calls the Getter, if no call of its key is under way. */
  lemma MissReachesSource(cfg: Config, s: State, t: nat, key: string)
    requires Inv(s) && Accepted(cfg, s, t, OpGet, key) && key !in KeptBy(cfg, s, OpGet) && cfg.getter
    requires key !in s.flight.mapped
    ensures Runnable(cfg, s, Enter(cfg, t, OpGet, key) + StartLoad(t))
    ensures var after := Run(cfg, s, Enter(cfg, t, OpGet, key) + StartLoad(t));
            && AtSource(after, t) && after.cache == KeptBy(cfg, s, OpGet) && !after.closed && after.epoch == s.epoch
            && after.threads[t].key == key && after.threads[t].epoch == (if cfg.peers then s.epoch else 0)
            && after.keys.Mutations(key) == s.keys.Mutations(key)
  {
    hide Inv, Enter, Run, Runnable, AtSource;
    CallEnters(cfg, s, t, OpGet, key);
    var e := Run(cfg, s, Enter(cfg, t, OpGet, key));
    StepInv(cfg, e, Lookup(t));
    var m := Step(cfg, e, Lookup(t));
    EnterLeads(cfg, m, t);
    RecheckLoads(cfg, Step(cfg, m, EnterDo(t)), t);
    RunThree(cfg, e, Lookup(t), EnterDo(t), Recheck(t));
    RunSplit(cfg, s, Enter(cfg, t, OpGet, key), StartLoad(t));
  }

  /** A load that nothing overtakes puts the Getter's value into the cache and returns it. */
  lemma SourceIsKept(cfg: Config, s: State, t: nat, v: Bytes, late: bool)
    requires AtSource(s, t) && !s.closed && StillOwner(cfg, s, s.threads[t])
    ensures Runnable(cfg, s, [SourceOk(t, v), CheckOwner(t), WriteBack(t, late)])
    ensures var after := Run(cfg, s, [SourceOk(t, v), CheckOwner(t), WriteBack(t, late)]);
            var (th, key) := (s.threads[t], s.threads[t].key);
            && Inv(after) && Ran(after, t, Found(v, s.keys.Mutations(key)))
            && after.cache ==
               if late then s.cache - {key} else s.cache[key := Entry(v, th.epoch, s.keys.Mutations(key))]
  {
    hide Inv, Run, Runnable;
    StepInv(cfg, s, SourceOk(t, v));
    var a := Step(cfg, s, SourceOk(t, v));
    StepInv(cfg, a, CheckOwner(t));
    var b := Step(cfg, a, CheckOwner(t));
    StepInv(cfg, b, WriteBack(t, late));
    RunThree(cfg, s, SourceOk(t, v), CheckOwner(t), WriteBack(t, late));
  }

  /** A Getter that fails or panics ends the load with that, and the cache stays. */
  lemma SourceFails(cfg: Config, s: State, t: nat)
    requires AtSource(s, t)
    ensures Enabled(s, SourceErr(t)) && Enabled(s, SourcePanic(t))
    ensures var (failed, panicked) := (Step(cfg, s, SourceErr(t)), Step(cfg, s, SourcePanic(t)));
            && Inv(failed) && Ran(failed, t, Failed(ErrSource)) && failed.cache == s.cache
            && Inv(panicked) && Ran(panicked, t, Panicked) && panicked.cache == s.cache
  {
    hide Inv;
    StepInv(cfg, s, SourceErr(t));
    StepInv(cfg, s, SourcePanic(t));
  }

  /** A load whose node no longer owns the key in that epoch ends with ErrTopologyChanged, and the cache stays. */
  lemma TopologyChanges(cfg: Config, s: State, t: nat)
    requires Inv(s) && Enabled(s, CheckOwner(t)) && !StillOwner(cfg, s, s.threads[t])
    ensures var after := Step(cfg, s, CheckOwner(t));
            Inv(after) && Ran(after, t, Failed(ErrTopologyChanged)) && after.cache == s.cache
  {
    hide Inv;
    StepInv(cfg, s, CheckOwner(t));
  }

  /** From the Getter on, these steps and the end of Do are a run that ends with this result and leaves this cache. */
  lemma {:induction false} LoadAnswers(cfg: Config, s: State, t: nat, key: string, a: State, steps: seq<Action>,
                                       r: Result)
    requires Inv(s) && Runnable(cfg, s, Enter(cfg, t, OpGet, key) + StartLoad(t))
    requires a == Run(cfg, s, Enter(cfg, t, OpGet, key) + StartLoad(t))
    requires Runnable(cfg, a, steps) && Inv(Run(cfg, a, steps)) && Ran(Run(cfg, a, steps), t, r)
    ensures Answers(cfg, s, t, OpGet, key, StartLoad(t) + steps + FinishDo(t), r, Run(cfg, a, steps).cache)
  {
    hide Inv, Enter, Run, Runnable, Ran, Ends;
    var (enter, start) := (Enter(cfg, t, OpGet, key), StartLoad(t));
    LeaderEnds(cfg, Run(cfg, a, steps), t, r);
    RunSplit(cfg, a, steps, FinishDo(t));
    RunSplit(cfg, s, enter + start, steps + FinishDo(t));
    assert enter + start + (steps + FinishDo(t)) == enter + (start + steps + FinishDo(t));
  }

  /**
   A getLocal that misses, with no call of its key under way, returns the value
   of the Getter and leaves it in the cache, as of the mutations so far.
   */
  lemma MissLoads(cfg: Config, s: State, t: nat, key: string, v: Bytes, late: bool)
    requires Inv(s) && Accepted(cfg, s, t, OpGet, key) && key !in KeptBy(cfg, s, OpGet) && cfg.getter
    requires key !in s.flight.mapped
    ensures var (kept, count) := (KeptBy(cfg, s, OpGet), s.keys.Mutations(key));
            Answers(cfg, s, t, OpGet, key,
                    StartLoad(t) + [SourceOk(t, v), CheckOwner(t), WriteBack(t, late)] + FinishDo(t),
                    Found(v, count),
                    if late then kept - {key} else kept[key := Entry(v, if cfg.peers then s.epoch else 0, count)])
  {
    hide Inv, Enter, Run, Runnable, Ran, Answers, AtSource, FinishDo, StartLoad;
    MissReachesSource(cfg, s, t, key);
    var a := Run(cfg, s, Enter(cfg, t, OpGet, key) + StartLoad(t));
    SourceIsKept(cfg, a, t, v, late);
    LoadAnswers(cfg, s, t, key, a, [SourceOk(t, v), CheckOwner(t), WriteBack(t, late)],
                Found(v, s.keys.Mutations(key)));
  }

  /** A Getter that fails, or panics, makes getLocal fail with that; the cache is as it was. */
  lemma MissFails(cfg: Config, s: State, t: nat, key: string)
    requires Inv(s) && Accepted(cfg, s, t, OpGet, key) && key !in KeptBy(cfg, s, OpGet) && cfg.getter
    requires key !in s.flight.mapped
    ensures Answers(cfg, s, t, OpGet, key, StartLoad(t) + [SourceErr(t)] + FinishDo(t), Failed(ErrSource),
                    KeptBy(cfg, s, OpGet))
    ensures Answers(cfg, s, t, OpGet, key, StartLoad(t) + [SourcePanic(t)] + FinishDo(t), Panicked,
                    KeptBy(cfg, s, OpGet))
  {
    hide Inv, Enter, Ran, Answers, AtSource, FinishDo, StartLoad, Step, Enabled;
    MissReachesSource(cfg, s, t, key);
    var a := Run(cfg, s, Enter(cfg, t, OpGet, key) + StartLoad(t));
    SourceFails(cfg, a, t);
    RunCons(cfg, a, SourceErr(t), []);
    RunCons(cfg, a, SourcePanic(t), []);
    LoadAnswers(cfg, s, t, key, a, [SourceErr(t)], Failed(ErrSource));
    LoadAnswers(cfg, s, t, key, a, [SourcePanic(t)], Panicked);
  }
}
