/**
 What every step of the owner protocol keeps, over every interleaving: key
 states are shared by all holders and reclaimed exactly when nobody holds them,
 and a load writes back exactly when no mutation of its key intervened.
 */
module OwnerSafety {
  import opened Common
  import SF = Singleflight
  import opened OwnerModel

  /** The thread has acquired its key state and not yet released it. */
  predicate Holds(th: Thread) {
    match th.pc
    case Holding => true
    case Missed => true
    case InDo => true
    case Loading(_, _) => true
    case Loaded(_, _, _) => true
    case Checked(_, _, _) => true
    case Releasing(_) => true
    case _ => false
  }

  /** The thread is inside Do. */
  predicate Flies(th: Thread) {
    th.pc.InDo? || InLoad(th)
  }

  /** The thread is between the generation read and the end of its load. */
  predicate InLoad(th: Thread) {
    th.pc.Loading? || th.pc.Loaded? || th.pc.Checked?
  }

  /** The thread has not reached Do. */
  predicate BeforeDo(th: Thread) {
    th.pc.Started? || th.pc.Picked? || th.pc.Prepared? || th.pc.Holding? || th.pc.Missed?
  }

  /** A holder holds the state that is mapped to its key. */
  predicate HolderOk(s: State, th: Thread) {
    && th.key in s.keys.mapped && s.keys.mapped[th.key] == th.sid
    && th.sid < |s.keys.states| && s.keys.states[th.sid].key == th.key
  }

  /** Since a load read the generation, it has grown by exactly the number of mutations of the key. */
  predicate LoadOk(s: State, th: Thread)
    requires InLoad(th) && th.sid < |s.keys.states|
  {
    && th.pc.seen <= s.keys.Mutations(th.key)
    && s.keys.states[th.sid].generation - th.pc.generation == s.keys.Mutations(th.key) - th.pc.seen
  }

  /** The thread and singleflight agree on where it is. */
  ghost predicate FlightOk(s: State, t: nat, th: Thread) {
    && (BeforeDo(th) ==> t !in s.flight.threads)
    && (Flies(th) ==> t in s.flight.threads && s.flight.threads[t].key == th.key && !s.flight.threads[t].Returned?)
    && (InLoad(th) ==> t in s.flight.threads && s.flight.threads[t].Leading?)
    && (t in s.flight.threads && !s.flight.threads[t].Returned? ==> Flies(th))
  }

  ghost predicate ThreadOk(s: State, t: nat)
    requires t in s.threads
  {
    var th := s.threads[t];
    && (Holds(th) ==> HolderOk(s, th))
    && (InLoad(th) ==> LoadOk(s, th))
    && FlightOk(s, t, th)
    && (th.pc.Missed? || Flies(th) ==> th.op.OpGet?)
  }

  function Holders(s: State, sid: nat): set<nat> {
    set t | t in s.threads && Holds(s.threads[t]) && s.threads[t].sid == sid
  }

  predicate RefsOk(s: State, sid: nat)
    requires sid < |s.keys.states|
  {
    s.keys.states[sid].refs == |Holders(s, sid)|
  }

  predicate KeyOk(s: State, key: string)
    requires key in s.keys.mapped
  {
    var sid := s.keys.mapped[key];
    sid < |s.keys.states| && s.keys.states[sid].key == key && s.keys.states[sid].refs > 0
  }

  ghost predicate Inv(s: State) {
    && SF.Inv(s.flight)
    && s.flight.threads.Keys <= s.threads.Keys
    && (forall t :: t in s.threads ==> ThreadOk(s, t))
    && (forall sid: nat :: sid < |s.keys.states| ==> RefsOk(s, sid))
    && (forall k :: k in s.keys.mapped ==> KeyOk(s, k))
  }

  // ---- Counting holders -------------------------------------------------------

  lemma TwoHolders(s: State, t: nat, u: nat, sid: nat)
    requires t in Holders(s, sid) && u in Holders(s, sid) && t != u
    ensures |Holders(s, sid)| >= 2
  {
    assert {t, u} <= Holders(s, sid);
    SubsetSize({t, u}, Holders(s, sid));
  }

  lemma SubsetSize(a: set<nat>, b: set<nat>)
    requires a <= b
    ensures |a| <= |b|
  {
    assert b == a + (b - a);
  }

  // ---- Frames: what a step leaves alone -----------------------------------------

  predicate TouchesKeys(a: Action) {
    a.Acquire? || a.Mutate? || a.Release?
  }

  /** Steps outside Do and outside the key states. */
  predicate Plain(a: Action) {
    a.Begin? || a.Pick? || a.Prepare? || a.Lookup? || a.SourceOk?
  }

  /** Only the stepping thread moves. */
  ghost predicate OthersKept(s: State, after: State, t: nat) {
    && (forall u :: u != t ==>
        (u in after.threads <==> u in s.threads) && (u in after.flight.threads <==> u in s.flight.threads))
    && (forall u :: u != t && u in s.threads ==> after.threads[u] == s.threads[u])
    && (forall u :: u != t && u in s.flight.threads ==> after.flight.threads[u] == s.flight.threads[u])
  }

  /** Where each step may lead. */
  predicate LeadsTo(a: Action, pc: PC) {
    match pc
    case Started => a.Begin?
    case Picked => a.Pick?
    case Prepared => a.Begin? || a.Pick? || a.Prepare?
    case Holding => a.Acquire?
    case Missed => a.Lookup?
    case InDo =>
      || a.EnterDo? || a.Recheck? || a.SourceErr? || a.SourcePanic? || a.CheckOwner? || a.WriteBack?
      || a.Unmap? || a.Signal?
    case Loading(_, _) => a.Recheck?
    case Loaded(_, _, _) => a.SourceOk?
    case Checked(_, _, _) => a.CheckOwner?
    case Releasing(_) => a.Lookup? || a.Mutate? || a.Leave?
    case Finished(_) => a.Begin? || a.Pick? || a.Release?
  }

  /** What the stepping thread keeps: its call, and except in Acquire and Release whether it holds a key state. */
  predicate OwnKept(s: State, after: State, a: Action)
    requires !IsEnv(a)
  {
    var t := a.thread;
    && t in after.threads && (a.Begin? <==> t !in s.threads)
    && (t in s.threads ==>
        && after.threads[t].op == s.threads[t].op && after.threads[t].key == s.threads[t].key
        && after.threads[t].began == s.threads[t].began
        && (a.EnterDo? || after.threads[t].joined == s.threads[t].joined)
        && (a.Pick? || after.threads[t].epoch == s.threads[t].epoch)
        && (a.Acquire? || after.threads[t].sid == s.threads[t].sid))
    && (a.Acquire? || a.Release? || (Holds(after.threads[t]) <==> t in s.threads && Holds(s.threads[t])))
    && LeadsTo(a, after.threads[t].pc)
  }

  /** Which steps touch which part of the shared state. */
  predicate SharedKept(s: State, after: State, a: Action) {
    && (a.Close? || after.closed == s.closed)
    && (a.ChangeMembership? || after.epoch == s.epoch)
    && (a.Prepare? || after.ownerEpoch == s.ownerEpoch)
    && (a.WriteBack? || a.Prepare? || a.Mutate? || a.Lose? || after.cache == s.cache)
    && (TouchesKeys(a) || after.keys == s.keys)
    && (a.Mutate? || after.keys.mutations == s.keys.mutations)
    && (a.SourceOk? || after.past.loads == s.past.loads)
    && (a.SourceOk? || a.Mutate? || after.past.facts == s.past.facts)
  }

  ghost predicate Framed(s: State, after: State, a: Action) {
    && SharedKept(s, after, a)
    && (if IsEnv(a) then after.threads == s.threads && after.flight == s.flight
        else OthersKept(s, after, a.thread) && OwnKept(s, after, a))
  }

  /** A step that only moves its thread. */
  lemma MoveFrame(s: State, a: Action, th: Thread)
    requires a.Begin? || a.Pick? || a.Lookup? || a.Recheck? || a.CheckOwner?
    requires a.Begin? <==> a.thread !in s.threads
    requires !a.Begin? ==>
      && th.op == s.threads[a.thread].op && th.key == s.threads[a.thread].key && th.sid == s.threads[a.thread].sid
      && th.began == s.threads[a.thread].began && th.joined == s.threads[a.thread].joined
    requires !a.Begin? && !a.Pick? ==> th.epoch == s.threads[a.thread].epoch
    requires Holds(th) <==> a.thread in s.threads && Holds(s.threads[a.thread])
    requires LeadsTo(a, th.pc)
    ensures Framed(s, s.(threads := s.threads[a.thread := th]), a)
  {
  }

  lemma BeginFrame(s: State, a: Action)
    requires Enabled(s, a) && a.Begin?
    ensures Framed(s, BeginStep(s, a.thread, a.op, a.key), a)
  {
    hide Framed;
    MoveFrame(s, a, BeginStep(s, a.thread, a.op, a.key).threads[a.thread]);
  }

  lemma PickFrame(cfg: Config, s: State, a: Action)
    requires Enabled(s, a) && a.Pick?
    ensures Framed(s, PickStep(cfg, s, a.thread), a)
  {
    hide Framed;
    MoveFrame(s, a, PickStep(cfg, s, a.thread).threads[a.thread]);
  }

  lemma PrepareFrame(s: State, a: Action)
    requires Enabled(s, a) && a.Prepare?
    ensures Framed(s, PrepareStep(s, a.thread), a)
  {
  }

  lemma LookupFrame(cfg: Config, s: State, a: Action)
    requires Enabled(s, a) && a.Lookup?
    ensures Framed(s, LookupStep(cfg, s, a.thread), a)
  {
    hide Framed;
    MoveFrame(s, a, LookupStep(cfg, s, a.thread).threads[a.thread]);
  }

  lemma SourceFrame(s: State, a: Action)
    requires Enabled(s, a) && a.SourceOk?
    ensures Framed(s, SourceOkStep(s, a.thread, a.value), a)
  {
  }

  lemma AcquireFrame(s: State, a: Action)
    requires Enabled(s, a) && a.Acquire?
    ensures Framed(s, AcquireStep(s, a.thread), a)
  {
  }

  lemma MutateFrame(s: State, a: Action)
    requires Enabled(s, a) && a.Mutate?
    ensures Framed(s, MutateStep(s, a.thread, a.late), a)
  {
  }

  lemma ReleaseFrame(s: State, a: Action)
    requires Enabled(s, a) && a.Release?
    ensures Framed(s, ReleaseStep(s, a.thread), a)
  {
  }

  /** A step inside Do. */
  lemma FlyFrame(s: State, a: Action, flying: SF.Action<Result>, pc: PC)
    requires !IsEnv(a) && !a.Begin? && !a.Acquire? && !a.Release? && a.thread in s.threads && Holds(s.threads[a.thread])
    requires SF.Enabled(s.flight, flying) && flying.thread == a.thread
    requires Holds(s.threads[a.thread].(pc := pc)) && LeadsTo(a, pc)
    ensures Framed(s, Fly(s, a.thread, flying, pc), a)
  {
    hide SF.Step;
    forall u | u != a.thread
      ensures u in SF.Step(s.flight, flying).threads <==> u in s.flight.threads
      ensures u in s.flight.threads ==> SF.Step(s.flight, flying).threads[u] == s.flight.threads[u]
    {
      SF.OthersStay(s.flight, flying, u);
    }
  }

  /** The end of the function passed to Do. */
  lemma CompleteFrame(s: State, a: Action, r: Result)
    requires !IsEnv(a) && !a.Begin? && !a.Acquire? && !a.Release? && a.thread in s.threads && Holds(s.threads[a.thread])
    requires InFn(s, a.thread) && LeadsTo(a, InDo)
    ensures Framed(s, Complete(s, a.thread, r), a)
  {
    hide Fly;
    FlyFrame(s, a, SF.Finish(a.thread, r), InDo);
  }

  lemma EnterFrame(s: State, a: Action)
    requires Enabled(s, a) && a.EnterDo?
    ensures Framed(s, EnterStep(s, a.thread), a)
  {
    hide SF.Step;
    var entering: SF.Action<Result> := SF.Enter(a.thread, s.threads[a.thread].key);
    forall u | u != a.thread
      ensures u in SF.Step(s.flight, entering).threads <==> u in s.flight.threads
      ensures u in s.flight.threads ==> SF.Step(s.flight, entering).threads[u] == s.flight.threads[u]
    {
      SF.OthersStay(s.flight, entering, u);
    }
  }

  lemma DoFrame(cfg: Config, s: State, a: Action)
    requires Enabled(s, a) && (a.Unmap? || a.Signal? || a.Leave?)
    ensures Framed(s, Step(cfg, s, a), a)
  {
    hide Framed, SF.Step;
    var t := a.thread;
    if a.Unmap? {
      FlyFrame(s, a, SF.Unmap(t), InDo);
    } else if a.Signal? {
      FlyFrame(s, a, SF.Done(t), InDo);
    } else {
      FlyFrame(s, a, SF.Return(t), LeaveStep(s, t).threads[t].pc);
    }
  }

  lemma WriteBackFrame(s: State, a: Action)
    requires Enabled(s, a) && a.WriteBack?
    ensures Framed(s, WriteBackStep(s, a.thread, a.late), a)
  {
    hide SF.Step;
    CompleteFrame(s, a, OutcomeOfWriteBack(s, a.thread));
  }

  lemma LoadFrame(cfg: Config, s: State, a: Action)
    requires Enabled(s, a) && (a.Recheck? || a.SourceErr? || a.SourcePanic? || a.CheckOwner?)
    ensures Framed(s, Step(cfg, s, a), a)
  {
    hide Framed, SF.Step;
    var outcome := Outcome(cfg, s, a);
    if outcome.Some? {
      CompleteFrame(s, a, outcome.value);
    } else {
      MoveFrame(s, a, Step(cfg, s, a).threads[a.thread]);
    }
  }

  /** The frame of every step. */
  lemma StepFrame(cfg: Config, s: State, a: Action)
    requires Enabled(s, a)
    ensures Framed(s, Step(cfg, s, a), a)
  {
    hide Framed;
    hide BeginStep, PickStep, PrepareStep, AcquireStep, LookupStep, MutateStep, EnterStep, SourceOkStep,
      WriteBackStep, ReleaseStep;
    if a.Begin? {
      BeginFrame(s, a);
    } else if a.Pick? {
      PickFrame(cfg, s, a);
    } else if a.Prepare? {
      PrepareFrame(s, a);
    } else if a.Lookup? {
      LookupFrame(cfg, s, a);
    } else if a.SourceOk? {
      SourceFrame(s, a);
    } else if a.Acquire? {
      AcquireFrame(s, a);
    } else if a.Mutate? {
      MutateFrame(s, a);
    } else if a.Release? {
      ReleaseFrame(s, a);
    } else if a.EnterDo? {
      EnterFrame(s, a);
    } else if a.Unmap? || a.Signal? || a.Leave? {
      DoFrame(cfg, s, a);
    } else if IsEnv(a) {
      EnvFrame(cfg, s, a);
    } else if a.WriteBack? {
      WriteBackFrame(s, a);
    } else {
      LoadFrame(cfg, s, a);
    }
  }

  lemma EnvFrame(cfg: Config, s: State, a: Action)
    requires IsEnv(a)
    ensures Framed(s, Step(cfg, s, a), a)
  {
  }

  // ---- Other threads --------------------------------------------------------------

  /** The keys part of ThreadOk. */
  ghost predicate HoldOk(s: State, th: Thread) {
    && (Holds(th) ==> HolderOk(s, th))
    && (InLoad(th) ==> LoadOk(s, th))
  }

  lemma OtherAcquire(s: State, t: nat, th: Thread)
    requires Enabled(s, Acquire(t)) && HoldOk(s, th)
    ensures HoldOk(AcquireStep(s, t), th)
  {
  }

  lemma OtherMutate(s: State, t: nat, late: bool, th: Thread)
    requires Enabled(s, Mutate(t, late)) && HoldOk(s, th) && HolderOk(s, s.threads[t])
    ensures HoldOk(MutateStep(s, t, late), th)
  {
  }

  lemma OtherRelease(s: State, t: nat, u: nat)
    requires Enabled(s, Release(t)) && HolderOk(s, s.threads[t]) && RefsOk(s, s.threads[t].sid)
    requires u in s.threads && u != t && HoldOk(s, s.threads[u])
    ensures HoldOk(ReleaseStep(s, t), s.threads[u])
  {
    if Holds(s.threads[u]) && s.threads[u].sid == s.threads[t].sid {
      TwoHolders(s, t, u, s.threads[t].sid);
    }
  }

  lemma OtherKeys(cfg: Config, s: State, a: Action, u: nat)
    requires Inv(s) && Enabled(s, a) && TouchesKeys(a) && u in s.threads && u != a.thread
    ensures HoldOk(Step(cfg, s, a), s.threads[u])
  {
    assert ThreadOk(s, u) && ThreadOk(s, a.thread);
    if a.Acquire? {
      OtherAcquire(s, a.thread, s.threads[u]);
    } else if a.Mutate? {
      OtherMutate(s, a.thread, a.late, s.threads[u]);
    } else {
      assert RefsOk(s, s.threads[a.thread].sid);
      OtherRelease(s, a.thread, u);
    }
  }

  lemma OtherThread(cfg: Config, s: State, a: Action, u: nat)
    requires Inv(s) && Enabled(s, a) && u in s.threads && (IsEnv(a) || u != a.thread)
    ensures u in Step(cfg, s, a).threads && ThreadOk(Step(cfg, s, a), u)
  {
    hide Step;
    assert ThreadOk(s, u);
    StepFrame(cfg, s, a);
    if TouchesKeys(a) {
      OtherKeys(cfg, s, a, u);
    }
    SplitThreadOk(Step(cfg, s, a), u);
  }

  lemma SplitThreadOk(s: State, t: nat)
    requires t in s.threads
    requires HoldOk(s, s.threads[t]) && FlightOk(s, t, s.threads[t])
    requires s.threads[t].pc.Missed? || Flies(s.threads[t]) ==> s.threads[t].op.OpGet?
    ensures ThreadOk(s, t)
  {
  }

  // ---- The thread that steps --------------------------------------------------------

  lemma OwnBegin(s: State, t: nat, op: Op, key: string)
    requires t !in s.threads && s.flight.threads.Keys <= s.threads.Keys
    ensures ThreadOk(BeginStep(s, t, op, key), t)
  {
  }

  lemma OwnPick(cfg: Config, s: State, t: nat)
    requires t in s.threads && s.threads[t].pc.Started? && ThreadOk(s, t)
    ensures t in PickStep(cfg, s, t).threads && ThreadOk(PickStep(cfg, s, t), t)
  {
  }

  lemma OwnPrepare(s: State, t: nat)
    requires t in s.threads && s.threads[t].pc.Picked? && ThreadOk(s, t)
    ensures ThreadOk(PrepareStep(s, t), t)
  {
  }

  lemma OwnLookup(cfg: Config, s: State, t: nat)
    requires t in s.threads && s.threads[t].pc.Holding? && s.threads[t].op.OpGet? && ThreadOk(s, t)
    ensures ThreadOk(LookupStep(cfg, s, t), t)
  {
  }

  lemma OwnSource(s: State, t: nat, v: Bytes)
    requires t in s.threads && s.threads[t].pc.Loading? && ThreadOk(s, t)
    ensures ThreadOk(SourceOkStep(s, t, v), t)
  {
  }

  lemma OwnAcquire(s: State, t: nat)
    requires Enabled(s, Acquire(t)) && ThreadOk(s, t)
    requires s.threads[t].key in s.keys.mapped ==> KeyOk(s, s.threads[t].key)
    ensures t in AcquireStep(s, t).threads && ThreadOk(AcquireStep(s, t), t)
  {
  }

  lemma OwnMutate(s: State, t: nat, late: bool)
    requires Enabled(s, Mutate(t, late)) && ThreadOk(s, t)
    ensures t in MutateStep(s, t, late).threads && ThreadOk(MutateStep(s, t, late), t)
  {
  }

  lemma OwnRelease(s: State, t: nat)
    requires Enabled(s, Release(t)) && ThreadOk(s, t)
    ensures t in ReleaseStep(s, t).threads && ThreadOk(ReleaseStep(s, t), t)
  {
  }

  lemma OwnFlight(cfg: Config, s: State, a: Action)
    requires !IsEnv(a) && !Plain(a) && !TouchesKeys(a) && Enabled(s, a)
    requires ThreadOk(s, a.thread)
    ensures a.thread in Step(cfg, s, a).threads && ThreadOk(Step(cfg, s, a), a.thread)
  {
    StepFrame(cfg, s, a);
    var after := Step(cfg, s, a);
    var th := after.threads[a.thread];
    assert HoldOk(after, th);
    assert FlightOk(after, a.thread, th);
  }

  lemma OwnThread(cfg: Config, s: State, a: Action)
    requires Inv(s) && Enabled(s, a) && !IsEnv(a)
    ensures a.thread in Step(cfg, s, a).threads && ThreadOk(Step(cfg, s, a), a.thread)
  {
    hide ThreadOk;
    if a.Begin? {
      OwnBegin(s, a.thread, a.op, a.key);
    } else {
      assert ThreadOk(s, a.thread);
      if Plain(a) {
        OwnPlain(cfg, s, a);
      } else if TouchesKeys(a) {
        OwnKeys(cfg, s, a);
      } else {
        OwnFlight(cfg, s, a);
      }
    }
  }

  lemma OwnPlain(cfg: Config, s: State, a: Action)
    requires Plain(a) && !a.Begin? && Enabled(s, a) && ThreadOk(s, a.thread)
    ensures a.thread in Step(cfg, s, a).threads && ThreadOk(Step(cfg, s, a), a.thread)
  {
    hide ThreadOk;
    if a.Pick? {
      OwnPick(cfg, s, a.thread);
    } else if a.Prepare? {
      OwnPrepare(s, a.thread);
    } else if a.Lookup? {
      OwnLookup(cfg, s, a.thread);
    } else {
      OwnSource(s, a.thread, a.value);
    }
  }

  lemma OwnKeys(cfg: Config, s: State, a: Action)
    requires Inv(s) && TouchesKeys(a) && Enabled(s, a) && ThreadOk(s, a.thread)
    ensures a.thread in Step(cfg, s, a).threads && ThreadOk(Step(cfg, s, a), a.thread)
  {
    hide ThreadOk;
    if a.Acquire? {
      if s.threads[a.thread].key in s.keys.mapped {
        assert KeyOk(s, s.threads[a.thread].key);
      }
      OwnAcquire(s, a.thread);
    } else if a.Mutate? {
      OwnMutate(s, a.thread, a.late);
    } else {
      OwnRelease(s, a.thread);
    }
  }

  // ---- Reference counts ---------------------------------------------------------------

  /** Only Acquire and Release change who holds what. */
  lemma HoldsFrame(cfg: Config, s: State, a: Action, sid: nat)
    requires Enabled(s, a) && !a.Acquire? && !a.Release?
    ensures Holders(Step(cfg, s, a), sid) == Holders(s, sid)
  {
    hide Step;
    StepFrame(cfg, s, a);
  }

  lemma AcquireHolders(s: State, t: nat, sid: nat)
    requires Enabled(s, Acquire(t))
    ensures var after := AcquireStep(s, t);
            Holders(after, sid) == Holders(s, sid) + (if after.threads[t].sid == sid then {t} else {})
    ensures t !in Holders(s, sid)
  {
  }

  lemma ReleaseHolders(s: State, t: nat, sid: nat)
    requires Enabled(s, Release(t))
    ensures Holders(ReleaseStep(s, t), sid) == Holders(s, sid) - {t}
    ensures t in Holders(s, sid) <==> s.threads[t].sid == sid
  {
  }

  lemma NoHoldersYet(s: State, sid: nat)
    requires Inv(s) && sid >= |s.keys.states|
    ensures Holders(s, sid) == {}
  {
  }

  lemma AcquireRefs(s: State, t: nat, sid: nat)
    requires Enabled(s, Acquire(t)) && sid < |AcquireStep(s, t).keys.states|
    requires if sid < |s.keys.states| then RefsOk(s, sid) else Holders(s, sid) == {}
    ensures RefsOk(AcquireStep(s, t), sid)
  {
    AcquireHolders(s, t, sid);
  }

  lemma ReleaseRefs(s: State, t: nat, sid: nat)
    requires Enabled(s, Release(t)) && sid < |s.keys.states| && RefsOk(s, sid)
    ensures RefsOk(ReleaseStep(s, t), sid)
  {
    ReleaseHolders(s, t, sid);
  }

  lemma StepRefs(cfg: Config, s: State, a: Action, sid: nat)
    requires Inv(s) && Enabled(s, a) && sid < |Step(cfg, s, a).keys.states|
    ensures RefsOk(Step(cfg, s, a), sid)
  {
    if sid < |s.keys.states| {
      assert RefsOk(s, sid);
    } else {
      NoHoldersYet(s, sid);
    }
    if a.Acquire? {
      AcquireRefs(s, a.thread, sid);
    } else if a.Release? {
      ReleaseRefs(s, a.thread, sid);
    } else if a.Mutate? {
      HoldsFrame(cfg, s, a, sid);
      MutateRefs(s, a.thread, a.late, sid);
    } else {
      StepFrame(cfg, s, a);
      HoldsFrame(cfg, s, a, sid);
    }
  }

  lemma MutateRefs(s: State, t: nat, late: bool, sid: nat)
    requires Enabled(s, Mutate(t, late)) && sid < |s.keys.states|
    ensures MutateStep(s, t, late).keys.states[sid].refs == s.keys.states[sid].refs
  {
  }

  lemma AcquireKeyOk(s: State, t: nat, key: string)
    requires Enabled(s, Acquire(t)) && key in AcquireStep(s, t).keys.mapped
    requires key in s.keys.mapped ==> KeyOk(s, key)
    ensures KeyOk(AcquireStep(s, t), key)
  {
  }

  lemma MutateKeyOk(s: State, t: nat, late: bool, key: string)
    requires Enabled(s, Mutate(t, late)) && key in s.keys.mapped && KeyOk(s, key)
    ensures KeyOk(MutateStep(s, t, late), key)
  {
  }

  /** A count that reaches zero takes the mapping with it. */
  lemma ReleaseKeyOk(s: State, t: nat, key: string)
    requires Enabled(s, Release(t)) && HolderOk(s, s.threads[t])
    requires key in s.keys.mapped && KeyOk(s, key) && key in ReleaseStep(s, t).keys.mapped
    ensures KeyOk(ReleaseStep(s, t), key)
  {
  }

  lemma StepKeyOk(cfg: Config, s: State, a: Action, key: string)
    requires Inv(s) && Enabled(s, a) && key in Step(cfg, s, a).keys.mapped
    ensures KeyOk(Step(cfg, s, a), key)
  {
    hide Step;
    if !TouchesKeys(a) {
      StepFrame(cfg, s, a);
      assert KeyOk(s, key);
    } else {
      TouchedKeyOk(cfg, s, a, key);
    }
  }

  lemma TouchedKeyOk(cfg: Config, s: State, a: Action, key: string)
    requires Inv(s) && Enabled(s, a) && TouchesKeys(a) && key in Step(cfg, s, a).keys.mapped
    ensures KeyOk(Step(cfg, s, a), key)
  {
    hide KeyOk;
    assert key in s.keys.mapped ==> KeyOk(s, key);
    if a.Acquire? {
      AcquireKeyOk(s, a.thread, key);
    } else if a.Mutate? {
      MutateKeyOk(s, a.thread, a.late, key);
    } else {
      assert ThreadOk(s, a.thread);
      ReleaseKeyOk(s, a.thread, key);
    }
  }

  function OutcomeOfWriteBack(s: State, t: nat): Result
    requires Held(s, t) && s.threads[t].pc.Checked?
  {
    if WillWrite(s, t) then Found(s.threads[t].pc.value, s.threads[t].pc.seen)
    else match CacheGet(s, s.threads[t].key) case Some(e) => Found(e.value, e.asOf) case None => Failed(ErrCacheMiss)
  }

  /** The result with which a step ends the function passed to Do, if it does. */
  function Outcome(cfg: Config, s: State, a: Action): Option<Result>
    requires Enabled(s, a)
  {
    match a
    case Recheck(t) =>
      (match CacheGet(s, s.threads[t].key) case Some(e) => Some(Found(e.value, e.asOf)) case None => None)
    case SourceErr(t) => Some(Failed(ErrSource))
    case SourcePanic(t) => Some(Panicked)
    case CheckOwner(t) =>
      if StillOwner(cfg, s, s.threads[t]) then None else Some(Failed(ErrTopologyChanged))
    case WriteBack(t, _) => Some(OutcomeOfWriteBack(s, t))
    case _ => None
  }

  /** The singleflight step that a step takes, if any. */
  function Flying(cfg: Config, s: State, a: Action): Option<SF.Action<Result>>
    requires Enabled(s, a)
  {
    if a.EnterDo? then Some(SF.Enter(a.thread, s.threads[a.thread].key))
    else if a.Unmap? then Some(SF.Unmap(a.thread))
    else if a.Signal? then Some(SF.Done(a.thread))
    else if a.Leave? then Some(SF.Return(a.thread))
    else match Outcome(cfg, s, a) case Some(r) => Some(SF.Finish(a.thread, r)) case None => None
  }

  lemma StepFlies(cfg: Config, s: State, a: Action)
    requires Enabled(s, a)
    ensures Flying(cfg, s, a).Some? ==> SF.Enabled(s.flight, Flying(cfg, s, a).value)
    ensures Step(cfg, s, a).flight == match Flying(cfg, s, a) case Some(f) => SF.Step(s.flight, f) case None => s.flight
  {
    hide SF.Step;
  }

  lemma StepFlight(cfg: Config, s: State, a: Action)
    requires SF.Inv(s.flight) && Enabled(s, a)
    ensures SF.Inv(Step(cfg, s, a).flight)
  {
    hide Step, SF.Step, SF.Inv;
    StepFlies(cfg, s, a);
    if Flying(cfg, s, a).Some? {
      SF.StepInv(s.flight, Flying(cfg, s, a).value);
    }
  }

  lemma StepFlightKeys(cfg: Config, s: State, a: Action)
    requires s.flight.threads.Keys <= s.threads.Keys && Enabled(s, a)
    ensures Step(cfg, s, a).flight.threads.Keys <= Step(cfg, s, a).threads.Keys
  {
    hide Step;
    StepFrame(cfg, s, a);
    forall u | u in Step(cfg, s, a).flight.threads
      ensures u in Step(cfg, s, a).threads
    {
      assert !IsEnv(a) && u != a.thread ==> u in s.flight.threads.Keys;
    }
  }

  /** Every step keeps the invariant. */
  lemma StepInv(cfg: Config, s: State, a: Action)
    requires Inv(s) && Enabled(s, a)
    ensures Inv(Step(cfg, s, a))
  {
    hide Step;
    StepFlight(cfg, s, a);
    StepFlightKeys(cfg, s, a);
    StepFrame(cfg, s, a);
    forall t | t in Step(cfg, s, a).threads
      ensures ThreadOk(Step(cfg, s, a), t)
    {
      if IsEnv(a) || t != a.thread {
        OtherThread(cfg, s, a, t);
      } else {
        OwnThread(cfg, s, a);
      }
    }
    forall sid: nat | sid < |Step(cfg, s, a).keys.states|
      ensures RefsOk(Step(cfg, s, a), sid)
    {
      StepRefs(cfg, s, a, sid);
    }
    forall k | k in Step(cfg, s, a).keys.mapped
      ensures KeyOk(Step(cfg, s, a), k)
    {
      StepKeyOk(cfg, s, a, k);
    }
  }

  lemma {:induction false} RunInv(cfg: Config, s: State, actions: seq<Action>)
    requires Inv(s) && Runnable(cfg, s, actions)
    ensures Inv(Run(cfg, s, actions))
    decreases actions
  {
    if actions != [] {
      StepInv(cfg, s, actions[0]);
      RunInv(cfg, Step(cfg, s, actions[0]), actions[1..]);
    }
  }

  lemma {:induction false} RunSplit(cfg: Config, s: State, a: seq<Action>, b: seq<Action>)
    requires Runnable(cfg, s, a) && Runnable(cfg, Run(cfg, s, a), b)
    ensures Runnable(cfg, s, a + b) && Run(cfg, s, a + b) == Run(cfg, Run(cfg, s, a), b)
    decreases a
  {
    if a == [] {
      assert a + b == b;
    } else {
      assert (a + b)[1..] == a[1..] + b;
      RunSplit(cfg, Step(cfg, s, a[0]), a[1..], b);
    }
  }

  lemma RunCons(cfg: Config, s: State, a: Action, rest: seq<Action>)
    requires Enabled(s, a) && Runnable(cfg, Step(cfg, s, a), rest)
    ensures Runnable(cfg, s, [a] + rest) && Run(cfg, s, [a] + rest) == Run(cfg, Step(cfg, s, a), rest)
  {
    hide Enabled, Step;
    assert ([a] + rest)[1..] == rest;
  }

  lemma RunFour(cfg: Config, s: State, a: Action, b: Action, c: Action, d: Action)
    requires Enabled(s, a) && Enabled(Step(cfg, s, a), b)
    requires Enabled(Step(cfg, Step(cfg, s, a), b), c) && Enabled(Step(cfg, Step(cfg, Step(cfg, s, a), b), c), d)
    ensures Runnable(cfg, s, [a, b, c, d])
    ensures Run(cfg, s, [a, b, c, d]) == Step(cfg, Step(cfg, Step(cfg, Step(cfg, s, a), b), c), d)
  {
    hide Enabled, Step;
    var s1 := Step(cfg, s, a);
    var s2 := Step(cfg, s1, b);
    RunCons(cfg, Step(cfg, s2, c), d, []);
    RunCons(cfg, s2, c, [d]);
    RunCons(cfg, s1, b, [c, d]);
    RunCons(cfg, s, a, [b, c, d]);
    assert [a] + [b, c, d] == [a, b, c, d] && [b] + [c, d] == [b, c, d] && [c] + [d] == [c, d] && [d] + [] == [d];
  }

  lemma InitInv(epoch: nat)
    ensures Inv(Init(epoch))
  {
  }

  // ---- Main results ---------------------------------------------------------------------

  /**
   Generation safety, exactly: a load that reached its write-back writes its
   value if and only if no setLocal or deleteLocal of the key took effect since
   it read the generation, although key states are reclaimed and reallocated.
   */
  lemma WriteBackIffUnmutated(cfg: Config, epoch: nat, actions: seq<Action>, t: nat, late: bool)
    requires Runnable(cfg, Init(epoch), actions) && Enabled(Run(cfg, Init(epoch), actions), WriteBack(t, late))
    ensures var s := Run(cfg, Init(epoch), actions);
            WillWrite(s, t) <==> s.keys.Mutations(s.threads[t].key) == s.threads[t].pc.seen
  {
    InitInv(epoch);
    RunInv(cfg, Init(epoch), actions);
    assert ThreadOk(Run(cfg, Init(epoch), actions), t);
  }

  /** All holders of a key share the state mapped to it, and its count is the number of them. */
  lemma HoldersShareState(cfg: Config, epoch: nat, actions: seq<Action>, t: nat, u: nat)
    requires Runnable(cfg, Init(epoch), actions)
    requires var s := Run(cfg, Init(epoch), actions);
             && t in s.threads && u in s.threads && Holds(s.threads[t]) && Holds(s.threads[u])
             && s.threads[t].key == s.threads[u].key
    ensures var s := Run(cfg, Init(epoch), actions);
            && s.threads[t].sid == s.threads[u].sid < |s.keys.states|
            && s.keys.states[s.threads[t].sid].refs == |Holders(s, s.threads[t].sid)|
  {
    InitInv(epoch);
    RunInv(cfg, Init(epoch), actions);
    var s := Run(cfg, Init(epoch), actions);
    assert ThreadOk(s, t) && ThreadOk(s, u) && RefsOk(s, s.threads[t].sid);
  }

  /** The key-state map holds exactly the keys that some thread holds. */
  lemma MappedIffHeld(cfg: Config, epoch: nat, actions: seq<Action>, key: string)
    requires Runnable(cfg, Init(epoch), actions)
    ensures var s := Run(cfg, Init(epoch), actions);
            key in s.keys.mapped <==> exists t :: t in s.threads && Holds(s.threads[t]) && s.threads[t].key == key
  {
    InitInv(epoch);
    RunInv(cfg, Init(epoch), actions);
    var s := Run(cfg, Init(epoch), actions);
    if key in s.keys.mapped {
      assert KeyOk(s, key);
      var sid := s.keys.mapped[key];
      assert RefsOk(s, sid);
      assert Holders(s, sid) != {};
      var t :| t in Holders(s, sid);
      assert ThreadOk(s, t);
    } else {
      forall t | t in s.threads && Holds(s.threads[t])
        ensures s.threads[t].key != key
      {
        assert ThreadOk(s, t);
      }
    }
  }

  /** On one node at most one Getter call per key is running, whatever else happens. */
  lemma OneGetterPerNode(s: State, t: nat, u: nat)
    requires Inv(s) && Running(s, t) && Running(s, u) && s.threads[t].key == s.threads[u].key
    ensures t == u
  {
  }

  // ---- Progress ---------------------------------------------------------------------------

  /** The next step of a thread that does not wait in Do for another one. */
  function NextStep(s: State, t: nat): Action
    requires t in s.threads && !s.threads[t].pc.Finished?
  {
    var th := s.threads[t];
    match th.pc
    case Started => Pick(t)
    case Picked => Prepare(t)
    case Prepared => Acquire(t)
    case Holding => if th.op.OpGet? then Lookup(t) else Mutate(t, false)
    case Missed => EnterDo(t)
    case Loading(_, _) => SourceErr(t)
    case Loaded(_, _, _) => CheckOwner(t)
    case Checked(_, _, _) => WriteBack(t, false)
    case Releasing(_) => Release(t)
    case InDo =>
      if t !in s.flight.threads then Leave(t)
      else match s.flight.threads[t]
        case Leading(_, _) => Recheck(t)
        case Ran(_, _) => Unmap(t)
        case Unmapped(_, _) => Signal(t)
        case Signalled(_, _) => Leave(t)
        case Waiting(_, _) => Leave(t)
        case Returned(_, _, _) => Leave(t)
  }

  /** The thread waits in Do for a call that is not done. */
  predicate Waits(s: State, t: nat) {
    && t in s.flight.threads && s.flight.threads[t].Waiting? && s.flight.threads[t].call < |s.flight.calls|
    && !s.flight.calls[s.flight.threads[t].call].done
  }

  lemma CanStep(s: State, t: nat)
    requires Inv(s) && t in s.threads && !s.threads[t].pc.Finished? && !Waits(s, t)
    ensures Enabled(s, NextStep(s, t))
  {
    hide Inv;
    if Flies(s.threads[t]) {
      FlierCanStep(s, t);
    } else {
      HeldOrMappable(s, t);
    }
  }

  lemma HeldOrMappable(s: State, t: nat)
    requires Inv(s) && t in s.threads && !Flies(s.threads[t])
    ensures Mappable(s, s.threads[t].key) && (Holds(s.threads[t]) ==> Held(s, t))
    ensures s.threads[t].pc.Missed? ==> t !in s.flight.threads
  {
    assert ThreadOk(s, t);
    if s.threads[t].key in s.keys.mapped {
      assert KeyOk(s, s.threads[t].key);
    }
  }

  lemma FlierCanStep(s: State, t: nat)
    requires Inv(s) && t in s.threads && Flies(s.threads[t]) && !Waits(s, t)
    ensures Enabled(s, NextStep(s, t))
  {
    assert ThreadOk(s, t);
    FlightCalls(s.flight, t);
  }

  lemma FlightCalls(f: SF.State<Result>, t: nat)
    requires SF.Inv(f) && t in f.threads
    ensures SF.Inside(f, t)
    ensures f.threads[t].Signalled? || (f.threads[t].Waiting? && f.calls[f.threads[t].call].done) ==>
      f.calls[f.threads[t].call].result.Some?
  {
    assert SF.ThreadOk(f, t) && SF.CallOk(f, f.threads[t].call);
  }

  lemma LeaderCanStep(s: State, t: nat)
    requires Inv(s) && t in s.threads && Waits(s, t)
    ensures var u := s.flight.calls[s.flight.threads[t].call].leader;
            u in s.threads && !s.threads[u].pc.Finished? && !Waits(s, u)
  {
    var c := s.flight.threads[t].call;
    assert SF.ThreadOk(s.flight, t) && SF.CallOk(s.flight, c);
    assert ThreadOk(s, s.flight.calls[c].leader);
  }

  /**
   In every run an unfinished thread can take its next step, or it waits in Do
   for a call whose leader can take its own: the guards of the steps never block.
   */
  lemma NobodyIsBlocked(cfg: Config, epoch: nat, actions: seq<Action>, t: nat) returns (u: nat)
    requires Runnable(cfg, Init(epoch), actions)
    requires var s := Run(cfg, Init(epoch), actions); t in s.threads && !s.threads[t].pc.Finished?
    ensures var s := Run(cfg, Init(epoch), actions);
            && u in s.threads && !s.threads[u].pc.Finished? && Enabled(s, NextStep(s, u))
            && (if Waits(s, t) then u == s.flight.calls[s.flight.threads[t].call].leader else u == t)
  {
    hide Inv, Enabled, NextStep;
    InitInv(epoch);
    RunInv(cfg, Init(epoch), actions);
    var s := Run(cfg, Init(epoch), actions);
    u := t;
    if Waits(s, t) {
      LeaderCanStep(s, t);
      u := s.flight.calls[s.flight.threads[t].call].leader;
    }
    CanStep(s, u);
  }
}
