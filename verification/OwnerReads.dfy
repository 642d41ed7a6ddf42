/**
 What getLocal returns, over every interleaving: a value that was set or loaded
 for that key, and never older than a mutation that had taken effect when the
 call began, except exactly when the call joins a finished singleflight call
 that has not yet been removed.
 */
module OwnerReads {
  import opened Common
  import SF = Singleflight
  import opened OwnerModel
  import opened OwnerSafety

  /** The value was set by mutation number `n` of the key, or loaded by a Getter call that began after `n` of them. */
  predicate Known(s: State, key: string, value: Bytes, n: nat) {
    WasSet(key, value, n) in s.past.facts || WasLoaded(key, value, n) in s.past.facts
  }

  predicate FoundOk(s: State, key: string, r: Result) {
    r.Found? ==> Known(s, key, r.value, r.asOf)
  }

  /** What an open cache holds takes account of every mutation of its key. */
  ghost predicate CacheFresh(s: State) {
    !s.closed ==> forall k :: k in s.cache ==>
      s.cache[k].asOf == s.keys.Mutations(k) && Known(s, k, s.cache[k].value, s.cache[k].asOf)
  }

  /** The result, so far, of the singleflight call that a thread is in. */
  function ResultOf(s: State, t: nat): Option<Result> {
    if t in s.flight.threads && s.flight.threads[t].call < |s.flight.calls|
    then s.flight.calls[s.flight.threads[t].call].result else None
  }

  predicate CallFresh(s: State, c: nat)
    requires c < |s.flight.calls|
  {
    s.flight.calls[c].result.Some? ==>
      && FoundOk(s, s.flight.calls[c].key, s.flight.calls[c].result.value)
      && (s.flight.calls[c].result.value.Found? ==> s.flight.calls[c].result.value.asOf == s.EndedAt(c))
  }

  /**
   A result for the thread: known, as of the end of the function that was joined
   if that had ended, else not older than the thread.
   */
  predicate ResultFits(s: State, th: Thread, r: Result) {
    && FoundOk(s, th.key, r)
    && (th.joined.Some? && r.Found? ==> r.asOf == th.joined.value)
    && (th.joined.None? && r.Found? ==> th.began <= r.asOf)
  }

  predicate ReadOk(s: State, t: nat)
    requires t in s.threads
  {
    var th := s.threads[t];
    && th.began <= s.keys.Mutations(th.key)
    && (BeforeDo(th) ==> th.joined.None?)
    && (InLoad(th) ==> th.began <= th.pc.seen)
    && (th.pc.Loaded? || th.pc.Checked? ==> WasLoaded(th.key, th.pc.value, th.pc.seen) in s.past.facts)
    && (Flies(th) ==> DoOk(s, th, ResultOf(s, t)))
    && (th.pc.Releasing? || th.pc.Finished? ==> ResultFits(s, th, th.pc.result))
  }

  /** Inside Do: the result of the call, once there, fits the thread; a call that was joined after its end has one. */
  predicate DoOk(s: State, th: Thread, result: Option<Result>) {
    (th.joined.Some? ==> result.Some?) && (result.Some? ==> ResultFits(s, th, result.value))
  }

  ghost predicate Reads(s: State) {
    && CacheFresh(s)
    && (forall c: nat :: c < |s.flight.calls| ==> CallFresh(s, c))
    && (forall t :: t in s.threads ==> ReadOk(s, t))
  }

  // ---- Counts and facts only grow --------------------------------------------------

  ghost predicate Grows(s: State, after: State) {
    s.past.facts <= after.past.facts && forall k :: s.keys.Mutations(k) <= after.keys.Mutations(k)
  }

  lemma StepGrows(cfg: Config, s: State, a: Action)
    requires Enabled(s, a)
    ensures Grows(s, Step(cfg, s, a))
    ensures !a.Mutate? ==> forall k :: s.keys.Mutations(k) == Step(cfg, s, a).keys.Mutations(k)
  {
    StepFrame(cfg, s, a);
    if !a.Mutate? && !a.SourceOk? {
      hide Step;
    }
  }

  // ---- The cache ---------------------------------------------------------------------

  lemma MutateCacheFresh(s: State, t: nat, late: bool)
    requires Enabled(s, Mutate(t, late)) && CacheFresh(s)
    ensures CacheFresh(MutateStep(s, t, late))
  {
  }

  /** A load that writes has missed no mutation. */
  lemma WriteBackCacheFresh(s: State, t: nat, late: bool)
    requires Inv(s) && Enabled(s, WriteBack(t, late)) && CacheFresh(s) && ReadOk(s, t)
    ensures CacheFresh(WriteBackStep(s, t, late))
  {
    hide SF.Step, Inv;
    if WillWrite(s, t) {
      WritesCurrent(s, t, late);
    }
  }

  lemma WritesCurrent(s: State, t: nat, late: bool)
    requires Inv(s) && Enabled(s, WriteBack(t, late)) && WillWrite(s, t)
    ensures s.threads[t].pc.seen == s.keys.Mutations(s.threads[t].key)
  {
  }

  lemma ShrinkCacheFresh(cfg: Config, s: State, a: Action)
    requires Enabled(s, a) && !a.Mutate? && !a.WriteBack? && CacheFresh(s)
    ensures CacheFresh(Step(cfg, s, a))
  {
    StepFrame(cfg, s, a);
    StepGrows(cfg, s, a);
    if !a.Prepare? && !a.Lose? {
      hide Step;
    }
  }

  lemma StepCacheFresh(cfg: Config, s: State, a: Action)
    requires Inv(s) && Reads(s) && Enabled(s, a)
    ensures CacheFresh(Step(cfg, s, a))
  {
    hide CacheFresh, MutateStep, WriteBackStep;
    if a.Mutate? {
      MutateCacheFresh(s, a.thread, a.late);
    } else if a.WriteBack? {
      assert ReadOk(s, a.thread);
      WriteBackCacheFresh(s, a.thread, a.late);
    } else {
      ShrinkCacheFresh(cfg, s, a);
    }
  }

  // ---- Singleflight ------------------------------------------------------------------

  /** What the function passed to Do returns takes account of every mutation so far. */
  lemma OutcomeFresh(cfg: Config, s: State, a: Action)
    requires Inv(s) && Reads(s) && Enabled(s, a) && Outcome(cfg, s, a).Some? && Outcome(cfg, s, a).value.Found?
    ensures var r, key := Outcome(cfg, s, a).value, s.threads[a.thread].key;
            r.asOf == s.keys.Mutations(key) && Known(s, key, r.value, r.asOf)
  {
    hide SF.Step;
    assert ThreadOk(s, a.thread) && ReadOk(s, a.thread);
  }

  /** The end of a function records the number of mutations so far, for its call alone. */
  lemma EndsStep(cfg: Config, s: State, a: Action)
    requires Enabled(s, a)
    ensures Outcome(cfg, s, a).None? ==> Step(cfg, s, a).past.ends == s.past.ends
    ensures Outcome(cfg, s, a).Some? ==>
      && a.thread in s.threads && a.thread in s.flight.threads
      && Step(cfg, s, a).past.ends ==
        s.past.ends[s.flight.threads[a.thread].call := s.keys.Mutations(s.threads[a.thread].key)]
  {
    hide SF.Step;
  }

  /** What one step does to the record of a call. */
  lemma StepRecord(cfg: Config, s: State, a: Action, c: nat)
    requires Inv(s) && Enabled(s, a) && c < |Step(cfg, s, a).flight.calls|
    ensures c < |s.flight.calls| ==> Step(cfg, s, a).flight.calls[c].key == s.flight.calls[c].key
    ensures Step(cfg, s, a).flight.calls[c].result ==
      if c >= |s.flight.calls| then None
      else if Outcome(cfg, s, a).Some? && s.flight.threads[a.thread].call == c then Outcome(cfg, s, a)
      else s.flight.calls[c].result
  {
    hide Step, Inv, SF.Step;
    StepFlies(cfg, s, a);
    EndsStep(cfg, s, a);
    if Flying(cfg, s, a).Some? {
      SF.CallStep(s.flight, Flying(cfg, s, a).value, c);
    }
  }

  lemma StepCall(cfg: Config, s: State, a: Action, c: nat)
    requires Inv(s) && Reads(s) && Enabled(s, a) && c < |Step(cfg, s, a).flight.calls|
    ensures CallFresh(Step(cfg, s, a), c)
  {
    hide Step, Inv, Outcome, ReadOk, CacheFresh;
    StepRecord(cfg, s, a, c);
    EndsStep(cfg, s, a);
    StepGrows(cfg, s, a);
    if c < |s.flight.calls| {
      assert CallFresh(s, c);
      if Outcome(cfg, s, a).Some? {
        OutcomeFlies(cfg, s, a);
        LeaderKey(s, a.thread);
        if Outcome(cfg, s, a).value.Found? {
          OutcomeFresh(cfg, s, a);
        }
      }
    }
  }

  lemma OutcomeFlies(cfg: Config, s: State, a: Action)
    requires Inv(s) && Enabled(s, a) && Outcome(cfg, s, a).Some?
    ensures !IsEnv(a) && a.thread in s.threads && Flies(s.threads[a.thread])
  {
  }

  /** The call that a thread leads or waits for is a call for its key. */
  lemma LeaderKey(s: State, t: nat)
    requires Inv(s) && t in s.threads && Flies(s.threads[t])
    ensures t in s.flight.threads && s.flight.threads[t].call < |s.flight.calls|
    ensures s.flight.calls[s.flight.threads[t].call].key == s.threads[t].key
  {
  }

  lemma FlightInv(s: State)
    requires Inv(s)
    ensures SF.Inv(s.flight)
  {
  }

  lemma ResultStep(cfg: Config, s: State, a: Action, t: nat)
    requires Inv(s) && Enabled(s, a) && t in s.threads && Flies(s.threads[t])
    ensures ResultOf(Step(cfg, s, a), t) == ResultOf(s, t)
         || (ResultOf(s, t).None? && Outcome(cfg, s, a).Some? && ResultOf(Step(cfg, s, a), t) == Outcome(cfg, s, a)
             && s.threads[a.thread].key == s.threads[t].key)
  {
    hide Step, Inv, SF.Step, SF.Inv;
    LeaderKey(s, t);
    StepFlies(cfg, s, a);
    FlightInv(s);
    if Flying(cfg, s, a).Some? {
      var f := Flying(cfg, s, a).value;
      SF.ResultStep(s.flight, f, t);
      if f.Finish? {
        LeaderKey(s, a.thread);
      }
    }
  }

  // ---- Threads -----------------------------------------------------------------------

  lemma FitsStays(s: State, after: State, th: Thread, r: Result)
    requires Grows(s, after) && ResultFits(s, th, r)
    ensures ResultFits(after, th, r)
  {
  }

  /** A result that arrives while a thread is inside Do fits it. */
  lemma DoStays(cfg: Config, s: State, a: Action, t: nat)
    requires Inv(s) && Reads(s) && Enabled(s, a) && t in s.threads && Flies(s.threads[t])
    ensures DoOk(Step(cfg, s, a), s.threads[t], ResultOf(Step(cfg, s, a), t))
  {
    hide Step, Inv, ResultOf;
    var th, after := s.threads[t], Step(cfg, s, a);
    assert ReadOk(s, t);
    StepGrows(cfg, s, a);
    ResultStep(cfg, s, a, t);
    if ResultOf(after, t) == ResultOf(s, t) {
      if ResultOf(s, t).Some? {
        FitsStays(s, after, th, ResultOf(s, t).value);
      }
    } else if Outcome(cfg, s, a).value.Found? {
      OutcomeFresh(cfg, s, a);
    }
  }

  lemma OtherReads(cfg: Config, s: State, a: Action, u: nat)
    requires Inv(s) && Reads(s) && Enabled(s, a) && u in s.threads && (IsEnv(a) || u != a.thread)
    ensures u in Step(cfg, s, a).threads && ReadOk(Step(cfg, s, a), u)
  {
    hide Step, Inv, ResultOf, DoOk;
    StepFrame(cfg, s, a);
    StepGrows(cfg, s, a);
    assert ReadOk(s, u);
    var th := s.threads[u];
    if Flies(th) {
      DoStays(cfg, s, a, u);
    }
    if th.pc.Releasing? || th.pc.Finished? {
      FitsStays(s, Step(cfg, s, a), th, th.pc.result);
    }
  }

  lemma OwnBeginReads(s: State, t: nat, op: Op, key: string)
    requires t !in s.threads
    ensures ReadOk(BeginStep(s, t, op, key), t)
  {
  }

  lemma OwnLookupReads(cfg: Config, s: State, t: nat)
    requires Enabled(s, Lookup(t)) && CacheFresh(s) && ReadOk(s, t)
    ensures ReadOk(LookupStep(cfg, s, t), t)
  {
  }

  /** Joining a call whose function has ended is recorded with the count at that end. */
  lemma OwnEnterReads(s: State, t: nat)
    requires Inv(s) && Enabled(s, EnterDo(t)) && ReadOk(s, t)
    requires forall c: nat :: c < |s.flight.calls| ==> CallFresh(s, c)
    ensures ReadOk(EnterStep(s, t), t)
  {
    hide Inv;
    var key := s.threads[t].key;
    if key in s.flight.mapped {
      MappedCall(s, key);
      assert CallFresh(s, s.flight.mapped[key]);
    }
  }

  lemma MappedCall(s: State, key: string)
    requires Inv(s) && key in s.flight.mapped
    ensures s.flight.mapped[key] < |s.flight.calls| && s.flight.calls[s.flight.mapped[key]].key == key
  {
    assert SF.MappedOk(s.flight, key);
  }

  lemma OwnLoadReads(cfg: Config, s: State, a: Action)
    requires Inv(s) && Enabled(s, a) && (a.Recheck? || a.SourceOk? || a.CheckOwner?) && ReadOk(s, a.thread)
    requires a.thread in Step(cfg, s, a).threads && InLoad(Step(cfg, s, a).threads[a.thread])
    ensures var th := Step(cfg, s, a).threads[a.thread];
            && th.began <= th.pc.seen
            && (th.pc.Loaded? || th.pc.Checked? ==>
                WasLoaded(th.key, th.pc.value, th.pc.seen) in Step(cfg, s, a).past.facts)
  {
    hide SF.Step;
  }

  /** Leaving Do hands over the result of the call. */
  lemma OwnLeaveReads(s: State, t: nat)
    requires Inv(s) && Enabled(s, Leave(t)) && ReadOk(s, t)
    ensures t in LeaveStep(s, t).threads && ReadOk(LeaveStep(s, t), t)
  {
    hide Inv;
    LeaderKey(s, t);
  }

  lemma OwnReleaseReads(s: State, t: nat)
    requires Enabled(s, Release(t)) && ReadOk(s, t)
    ensures t in ReleaseStep(s, t).threads && ReadOk(ReleaseStep(s, t), t)
  {
  }

  lemma OwnReads(cfg: Config, s: State, a: Action)
    requires Inv(s) && Reads(s) && Enabled(s, a) && !IsEnv(a)
    ensures a.thread in Step(cfg, s, a).threads && ReadOk(Step(cfg, s, a), a.thread)
  {
    hide ReadOk, BeginStep, LookupStep, EnterStep, LeaveStep, ReleaseStep;
    StepFrame(cfg, s, a);
    assert !a.Begin? ==> ReadOk(s, a.thread);
    if a.Begin? {
      OwnBeginReads(s, a.thread, a.op, a.key);
    } else if a.Lookup? {
      OwnLookupReads(cfg, s, a.thread);
    } else if a.EnterDo? {
      OwnEnterReads(s, a.thread);
    } else if a.Release? {
      OwnReleaseReads(s, a.thread);
    } else if a.Leave? {
      OwnLeaveReads(s, a.thread);
    } else {
      OwnMoves(cfg, s, a);
    }
  }

  lemma OwnMoves(cfg: Config, s: State, a: Action)
    requires Inv(s) && Reads(s) && Enabled(s, a) && !IsEnv(a)
    requires !a.Begin? && !a.Lookup? && !a.EnterDo? && !a.Leave? && !a.Release?
    ensures a.thread in Step(cfg, s, a).threads && ReadOk(Step(cfg, s, a), a.thread)
  {
    hide Step, Inv, ResultOf;
    var t, after := a.thread, Step(cfg, s, a);
    StepFrame(cfg, s, a);
    StepGrows(cfg, s, a);
    assert ReadOk(s, t);
    if InLoad(after.threads[t]) {
      OwnLoadReads(cfg, s, a);
    }
    if Flies(after.threads[t]) {
      DoStays(cfg, s, a, t);
    }
    if a.Pick? || a.Mutate? {
      EndsWithoutValue(cfg, s, a);
    }
  }

  lemma EndsWithoutValue(cfg: Config, s: State, a: Action)
    requires Enabled(s, a) && (a.Pick? || a.Mutate?)
    ensures a.thread in Step(cfg, s, a).threads
    ensures var pc := Step(cfg, s, a).threads[a.thread].pc; pc.Releasing? || pc.Finished? ==> !pc.result.Found?
  {
  }

  lemma StepReads(cfg: Config, s: State, a: Action)
    requires Inv(s) && Reads(s) && Enabled(s, a)
    ensures Reads(Step(cfg, s, a))
  {
    hide Step, Inv, ReadOk, CacheFresh, CallFresh;
    StepCacheFresh(cfg, s, a);
    forall c: nat | c < |Step(cfg, s, a).flight.calls|
      ensures CallFresh(Step(cfg, s, a), c)
    {
      StepCall(cfg, s, a, c);
    }
    StepFrame(cfg, s, a);
    forall t | t in Step(cfg, s, a).threads
      ensures ReadOk(Step(cfg, s, a), t)
    {
      if IsEnv(a) || t != a.thread {
        OtherReads(cfg, s, a, t);
      } else {
        OwnReads(cfg, s, a);
      }
    }
  }

  lemma {:induction false} RunReads(cfg: Config, s: State, actions: seq<Action>)
    requires Inv(s) && Reads(s) && Runnable(cfg, s, actions)
    ensures Reads(Run(cfg, s, actions))
    decreases actions
  {
    hide Step, Inv, Reads;
    if actions != [] {
      StepReads(cfg, s, actions[0]);
      StepInv(cfg, s, actions[0]);
      RunReads(cfg, Step(cfg, s, actions[0]), actions[1..]);
    }
  }

  // ---- Main results --------------------------------------------------------------------

  /** The call has ended with this result. */
  predicate Ended(th: Thread, r: Result) {
    th.pc == Finished(r)
  }

  /** The result leaves out a mutation of the key that had taken effect when the call began. */
  predicate Outdated(th: Thread, r: Result) {
    r.Found? && r.asOf < th.began
  }

  /**
   What a getLocal returns was set or loaded for that very key. It is outdated
   if and only if, in Do, it entered a call whose function had ended and a
   mutation of the key took effect between that end and the beginning of the
   getLocal. Joining a call whose function is still running is always safe.
   */
  lemma OutdatedIffJoinedEnded(cfg: Config, epoch: nat, actions: seq<Action>, t: nat, r: Result)
    requires Runnable(cfg, Init(epoch), actions)
    requires var s := Run(cfg, Init(epoch), actions); t in s.threads && Ended(s.threads[t], r) && r.Found?
    ensures var s := Run(cfg, Init(epoch), actions);
            var th := s.threads[t];
            && Known(s, th.key, r.value, r.asOf)
            && (Outdated(th, r) <==> th.joined.Some? && th.joined.value < th.began)
  {
    InitInv(epoch);
    RunReads(cfg, Init(epoch), actions);
    assert ReadOk(Run(cfg, Init(epoch), actions), t);
  }

  /** An open owner cache never holds a value that leaves out a mutation of its key. */
  lemma CacheIsFresh(cfg: Config, epoch: nat, actions: seq<Action>, key: string)
    requires Runnable(cfg, Init(epoch), actions)
    ensures var s := Run(cfg, Init(epoch), actions);
            CacheGet(s, key).Some? ==>
              var e := CacheGet(s, key).value;
              e.asOf == s.keys.Mutations(key) && Known(s, key, e.value, e.asOf)
  {
    InitInv(epoch);
    RunReads(cfg, Init(epoch), actions);
  }

  // ---- Joining a finished call -------------------------------------------------------------

  /** A node without peers and with a Getter. */
  const ALONE := Config(false, true, (e: nat, k: string) => Self)

  /**
   A Get of "k" misses; its load is checked; its function ends, and a Delete
   takes effect; a second Get begins, joins and returns.
   */
  const MISSED: seq<Action> := [Begin(0, OpGet, "k"), Pick(0), Acquire(0), Lookup(0)]
  const LOADED: seq<Action> := [EnterDo(0), Recheck(0), SourceOk(0, [7]), CheckOwner(0)]
  const DELETED: seq<Action> := [WriteBack(0, false), Begin(1, OpDelete(false), "k"), Acquire(1), Mutate(1, false)]
  const SECOND: seq<Action> := [Release(1), Begin(2, OpGet, "k"), Pick(2), Acquire(2)]
  const JOINED: seq<Action> := [Lookup(2), EnterDo(2), Unmap(0), Signal(0)]
  const RETURNED: seq<Action> := [Leave(2), Release(2)]

  const OLD := Found([7], 0)
  const FIRST := Thread(OpGet, "k", 0, 0, 0, None, Missed)
  const DELETER := Thread(OpDelete(false), "k", 0, 0, 0, None, Releasing(Mutated))
  const LATE := Thread(OpGet, "k", 0, 0, 1, None, Holding)

  function Scene(refs: nat, deleted: bool, flight: SF.State<Result>, threads: map<nat, Thread>, loaded: bool)
    : State
  {
    State(false, 1, 0, map[],
          Keys(map["k" := 0], [KeyState("k", if deleted then 1 else 0, refs)],
               if deleted then map["k" := 1] else map[]),
          flight, threads,
          Past(if loaded then map["k" := 1] else map[], if loaded then {WasLoaded("k", [7], 0)} else {},
               if deleted then map[0 := 0] else map[]))
  }

  function Flight(mapped: bool, result: Option<Result>, done: bool, threads: map<nat, SF.Phase<Result>>)
    : SF.State<Result>
  {
    SF.State(if mapped then map["k" := 0] else map[], [SF.Call("k", 0, result, done)], threads)
  }

  const AFTER_MISS := Scene(1, false, SF.Init(), map[0 := FIRST], false)
  const AFTER_LOAD := Scene(1, false, Flight(true, None, false, map[0 := SF.Leading("k", 0)]),
                            map[0 := FIRST.(pc := Checked(0, 0, [7]))], true)
  const AFTER_DELETE := Scene(2, true, Flight(true, Some(OLD), false, map[0 := SF.Ran("k", 0)]),
                              map[0 := FIRST.(pc := InDo), 1 := DELETER], true)
  const AFTER_SECOND := Scene(2, true, Flight(true, Some(OLD), false, map[0 := SF.Ran("k", 0)]),
                              map[0 := FIRST.(pc := InDo), 1 := DELETER.(pc := Finished(Mutated)), 2 := LATE], true)
  const AFTER_JOIN := Scene(2, true,
    Flight(false, Some(OLD), true, map[0 := SF.Signalled("k", 0), 2 := SF.Waiting("k", 0)]),
                            map[0 := FIRST.(pc := InDo), 1 := DELETER.(pc := Finished(Mutated)),
                                2 := LATE.(joined := Some(0), pc := InDo)], true)

  lemma MissScene()
    ensures Runnable(ALONE, Init(1), MISSED) && Run(ALONE, Init(1), MISSED) == AFTER_MISS
  {
    RunFour(ALONE, Init(1), MISSED[0], MISSED[1], MISSED[2], MISSED[3]);
  }

  lemma LoadScene()
    ensures Runnable(ALONE, AFTER_MISS, LOADED) && Run(ALONE, AFTER_MISS, LOADED) == AFTER_LOAD
  {
    RunFour(ALONE, AFTER_MISS, LOADED[0], LOADED[1], LOADED[2], LOADED[3]);
  }

  lemma DeleteScene()
    ensures Runnable(ALONE, AFTER_LOAD, DELETED) && Run(ALONE, AFTER_LOAD, DELETED) == AFTER_DELETE
  {
    RunFour(ALONE, AFTER_LOAD, DELETED[0], DELETED[1], DELETED[2], DELETED[3]);
  }

  lemma SecondScene()
    ensures Runnable(ALONE, AFTER_DELETE, SECOND) && Run(ALONE, AFTER_DELETE, SECOND) == AFTER_SECOND
  {
    RunFour(ALONE, AFTER_DELETE, SECOND[0], SECOND[1], SECOND[2], SECOND[3]);
  }

  lemma JoinScene()
    ensures Runnable(ALONE, AFTER_SECOND, JOINED) && Run(ALONE, AFTER_SECOND, JOINED) == AFTER_JOIN
  {
    RunFour(ALONE, AFTER_SECOND, JOINED[0], JOINED[1], JOINED[2], JOINED[3]);
  }

  lemma ReturnScene()
    ensures Runnable(ALONE, AFTER_JOIN, RETURNED)
    ensures var s := Run(ALONE, AFTER_JOIN, RETURNED);
            && 2 in s.threads && s.threads[2] == LATE.(joined := Some(0), pc := Finished(OLD))
            && s.keys.Mutations("k") == 1
  {
    var s1 := Step(ALONE, AFTER_JOIN, RETURNED[0]);
    RunCons(ALONE, s1, RETURNED[1], []);
    RunCons(ALONE, AFTER_JOIN, RETURNED[0], [RETURNED[1]]);
    assert [RETURNED[0]] + [RETURNED[1]] == RETURNED && [RETURNED[1]] + [] == [RETURNED[1]];
  }

  const LATE_JOIN := MISSED + (LOADED + (DELETED + (SECOND + (JOINED + RETURNED))))

  /**
   It does happen: a Get that began after a Delete had returned joins the call
   that finished before the Delete and returns the deleted value.
   */
  lemma LateJoinReturnsDeleted()
    ensures Runnable(ALONE, Init(1), LATE_JOIN)
    ensures var s := Run(ALONE, Init(1), LATE_JOIN);
            2 in s.threads && Ended(s.threads[2], OLD) && Outdated(s.threads[2], OLD) && s.keys.Mutations("k") == 1
  {
    hide Step, Enabled;
    MissScene();
    LoadScene();
    DeleteScene();
    SecondScene();
    JoinScene();
    ReturnScene();
    RunSplit(ALONE, AFTER_SECOND, JOINED, RETURNED);
    RunSplit(ALONE, AFTER_DELETE, SECOND, JOINED + RETURNED);
    RunSplit(ALONE, AFTER_LOAD, DELETED, SECOND + (JOINED + RETURNED));
    RunSplit(ALONE, AFTER_MISS, LOADED, DELETED + (SECOND + (JOINED + RETURNED)));
    RunSplit(ALONE, Init(1), MISSED, LOADED + (DELETED + (SECOND + (JOINED + RETURNED))));
  }
}
