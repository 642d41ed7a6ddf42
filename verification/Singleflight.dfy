/**
 singleflight/singleflight.go as a step system: any number of threads inside Do,
 each lock-protected section one step, the supplied function a start and a
 finish. `R` is whatever a call produces: value, error or recovered panic.
 */
module Singleflight {
  import opened Common

  /** A call record; `leader` is the thread that created it. */
  datatype Call<R> = Call(key: string, leader: nat, result: Option<R>, done: bool)

  /** Where a thread is inside Do. */
  datatype Phase<R> =
    | Waiting(key: string, call: nat)
    | Leading(key: string, call: nat)
    | Ran(key: string, call: nat)
    | Unmapped(key: string, call: nat)
    | Signalled(key: string, call: nat)
    | Returned(key: string, call: nat, result: R)

  datatype State<R> = State(mapped: map<string, nat>, calls: seq<Call<R>>, threads: map<nat, Phase<R>>)

  datatype Action<R> =
    | Enter(thread: nat, key: string)
    | Finish(thread: nat, result: R)
    | Unmap(thread: nat)
    | Done(thread: nat)
    | Return(thread: nat)

  function Init<R>(): State<R> {
    State(map[], [], map[])
  }

  /** Thread `t` is inside Do; its call record exists (always so in a reachable state). */
  predicate Inside<R>(s: State<R>, t: nat) {
    t in s.threads && s.threads[t].call < |s.calls|
  }

  /** Whether a thread can take a step now; only Return has to wait for the call to be done. */
  predicate Enabled<R>(s: State<R>, a: Action<R>) {
    match a
    case Enter(t, _) => t !in s.threads
    case Finish(t, _) => Inside(s, t) && s.threads[t].Leading?
    case Unmap(t) => Inside(s, t) && s.threads[t].Ran?
    case Done(t) => Inside(s, t) && s.threads[t].Unmapped?
    case Return(t) =>
      && Inside(s, t)
      && (s.threads[t].Signalled? || (s.threads[t].Waiting? && s.calls[s.threads[t].call].done))
      && s.calls[s.threads[t].call].result.Some?
  }

  function Step<R>(s: State<R>, a: Action<R>): State<R>
    requires Enabled(s, a)
  {
    match a
    case Enter(t, key) =>
      if key in s.mapped then s.(threads := s.threads[t := Waiting(key, s.mapped[key])])
      else
        var c := |s.calls|;
        State(s.mapped[key := c], s.calls + [Call(key, t, None, false)], s.threads[t := Leading(key, c)])
    case Finish(t, r) =>
      var p := s.threads[t];
      s.(calls := s.calls[p.call := s.calls[p.call].(result := Some(r))], threads := s.threads[t := Ran(p.key, p.call)])
    case Unmap(t) =>
      var p := s.threads[t];
      s.(mapped := if p.key in s.mapped && s.mapped[p.key] == p.call then s.mapped - {p.key} else s.mapped,
         threads := s.threads[t := Unmapped(p.key, p.call)])
    case Done(t) =>
      var p := s.threads[t];
      s.(calls := s.calls[p.call := s.calls[p.call].(done := true)],
         threads := s.threads[t := Signalled(p.key, p.call)])
    case Return(t) =>
      var p := s.threads[t];
      s.(threads := s.threads[t := Returned(p.key, p.call, s.calls[p.call].result.value)])
  }

  ghost predicate IsLeader<R>(p: Phase<R>) {
    p.Leading? || p.Ran? || p.Unmapped? || p.Signalled?
  }

  /** The result is there once the function has finished, and the call is done once its leader says so. */
  ghost predicate PhaseOk<R>(p: Phase<R>, c: Call<R>) {
    match p
    case Leading(_, _) => c.result.None? && !c.done
    case Ran(_, _) => c.result.Some? && !c.done
    case Unmapped(_, _) => c.result.Some? && !c.done
    case Signalled(_, _) => c.result.Some? && c.done
    case Waiting(_, _) => true
    case Returned(_, _, r) => c.result == Some(r) && c.done
  }

  ghost predicate ThreadOk<R>(s: State<R>, t: nat)
    requires t in s.threads
  {
    var p := s.threads[t];
    && p.call < |s.calls|
    && s.calls[p.call].key == p.key
    && PhaseOk(p, s.calls[p.call])
    && (IsLeader(p) ==> s.calls[p.call].leader == t)
    && (p.Leading? || p.Ran? ==> p.key in s.mapped && s.mapped[p.key] == p.call)
  }

  /** A call that is not done still has its leader at work; the map holds exactly the calls not yet unmapped. */
  ghost predicate CallOk<R>(s: State<R>, c: nat)
    requires c < |s.calls|
  {
    var call := s.calls[c];
    && call.leader in s.threads
    && s.threads[call.leader].call == c
    && (call.done ==> call.result.Some?)
    && (!call.done ==> IsLeader(s.threads[call.leader]) && !s.threads[call.leader].Signalled?)
  }

  ghost predicate MappedOk<R>(s: State<R>, key: string)
    requires key in s.mapped
  {
    var c := s.mapped[key];
    && c < |s.calls|
    && s.calls[c].key == key
    && s.calls[c].leader in s.threads
    && (s.threads[s.calls[c].leader] == Leading(key, c) || s.threads[s.calls[c].leader] == Ran(key, c))
  }

  ghost predicate Inv<R>(s: State<R>) {
    && (forall t :: t in s.threads ==> ThreadOk(s, t))
    && (forall c: nat :: c < |s.calls| ==> CallOk(s, c))
    && (forall k :: k in s.mapped ==> MappedOk(s, k))
  }

  /** A step moves only its own thread. */
  lemma OthersStay<R>(s: State<R>, a: Action<R>, u: nat)
    requires Enabled(s, a) && u != a.thread
    ensures u in Step(s, a).threads <==> u in s.threads
    ensures u in s.threads ==> Step(s, a).threads[u] == s.threads[u]
  {
  }

  /** Only the unmapping of its own call changes who leads a key. */
  lemma LeaderStays<R>(s: State<R>, a: Action<R>, key: string)
    requires Enabled(s, a) && key in s.mapped && s.mapped[key] < |s.calls|
    requires a.Unmap? ==> s.threads[a.thread].key != key
    ensures key in Step(s, a).mapped && Step(s, a).mapped[key] == s.mapped[key] < |Step(s, a).calls|
    ensures Step(s, a).calls[s.mapped[key]].leader == s.calls[s.mapped[key]].leader
  {
  }

  /** What a step does to the record of a call. */
  lemma CallStep<R>(s: State<R>, a: Action<R>, c: nat)
    requires Enabled(s, a) && c < |Step(s, a).calls|
    ensures c < |s.calls| ==> Step(s, a).calls[c].key == s.calls[c].key
    ensures Step(s, a).calls[c].result ==
      if c >= |s.calls| then None
      else if a.Finish? && s.threads[a.thread].call == c then Some(a.result)
      else s.calls[c].result
  {
  }

  /** A thread stays in its call. */
  lemma CallStays<R>(s: State<R>, a: Action<R>, t: nat)
    requires Enabled(s, a) && t in s.threads
    ensures t in Step(s, a).threads && Step(s, a).threads[t].call == s.threads[t].call
    ensures |s.calls| <= |Step(s, a).calls|
  {
  }

  lemma StepThreads<R>(s: State<R>, a: Action<R>, u: nat)
    requires Inv(s) && Enabled(s, a) && u in Step(s, a).threads
    ensures ThreadOk(Step(s, a), u)
  {
  }

  lemma StepCalls<R>(s: State<R>, a: Action<R>, c: nat)
    requires Inv(s) && Enabled(s, a) && c < |Step(s, a).calls|
    ensures CallOk(Step(s, a), c)
  {
    if c < |s.calls| {
      assert CallOk(s, c);
    }
    if !a.Enter? {
      assert ThreadOk(s, a.thread);
    }
  }

  lemma StepMapped<R>(s: State<R>, a: Action<R>, k: string)
    requires Inv(s) && Enabled(s, a) && k in Step(s, a).mapped
    ensures MappedOk(Step(s, a), k)
  {
  }

  lemma StepInv<R>(s: State<R>, a: Action<R>)
    requires Inv(s) && Enabled(s, a)
    ensures Inv(Step(s, a))
  {
    forall u | u in Step(s, a).threads
      ensures ThreadOk(Step(s, a), u)
    {
      StepThreads(s, a, u);
    }
    forall c: nat | c < |Step(s, a).calls|
      ensures CallOk(Step(s, a), c)
    {
      StepCalls(s, a, c);
    }
    forall k | k in Step(s, a).mapped
      ensures MappedOk(Step(s, a), k)
    {
      StepMapped(s, a, k);
    }
  }

  // ---- Runs -----------------------------------------------------------------

  /** Only the end of the function changes the result of the call a thread is in, from none to what it returned. */
  lemma ResultStep<R>(s: State<R>, a: Action<R>, t: nat)
    requires Inv(s) && Enabled(s, a) && t in s.threads
    ensures var c := s.threads[t].call;
            && c < |s.calls| && t in Step(s, a).threads && Step(s, a).threads[t].call == c < |Step(s, a).calls|
            && (Step(s, a).calls[c].result == s.calls[c].result
                || (s.calls[c].result.None? && a.Finish? && s.threads[a.thread].call == c
                    && Step(s, a).calls[c].result == Some(a.result)))
  {
    hide Step;
    assert ThreadOk(s, t) && (a.Finish? ==> ThreadOk(s, a.thread));
    CallStays(s, a, t);
    CallStep(s, a, s.threads[t].call);
  }

  /** Each action is enabled when its turn comes. */
  predicate Runnable<R>(s: State<R>, actions: seq<Action<R>>)
    decreases actions
  {
    actions == [] || (Enabled(s, actions[0]) && Runnable(Step(s, actions[0]), actions[1..]))
  }

  function Run<R>(s: State<R>, actions: seq<Action<R>>): State<R>
    requires Runnable(s, actions)
    decreases actions
  {
    if actions == [] then s else Run(Step(s, actions[0]), actions[1..])
  }

  lemma {:induction false} RunInv<R>(s: State<R>, actions: seq<Action<R>>)
    requires Inv(s) && Runnable(s, actions)
    ensures Inv(Run(s, actions))
    decreases actions
  {
    if actions != [] {
      StepInv(s, actions[0]);
      RunInv(Step(s, actions[0]), actions[1..]);
    }
  }

  /** In every interleaving at most one function runs per key. */
  lemma AtMostOneRuns<R>(actions: seq<Action<R>>, t: nat, u: nat)
    requires Runnable(Init<R>(), actions)
    ensures var s := Run(Init<R>(), actions);
            (t in s.threads && u in s.threads && s.threads[t].Leading? && s.threads[u].Leading?
             && s.threads[t].key == s.threads[u].key) ==> t == u
  {
    RunInv(Init<R>(), actions);
    var s := Run(Init<R>(), actions);
    if t in s.threads && u in s.threads {
      assert ThreadOk(s, t) && ThreadOk(s, u);
    }
  }

  lemma OneLeader<R>(s: State<R>, t: nat, u: nat)
    requires Inv(s) && t in s.threads && u in s.threads
    requires s.threads[t].Leading? || s.threads[t].Ran?
    requires s.threads[u].Leading? || s.threads[u].Ran?
    requires s.threads[t].key == s.threads[u].key
    ensures t == u
  {
  }

  /** The conditional delete always finds the thread's own call. */
  lemma DeleteFindsOwnCall<R>(actions: seq<Action<R>>, t: nat)
    requires Runnable(Init<R>(), actions)
    ensures var s := Run(Init<R>(), actions);
            Enabled(s, Unmap(t)) ==>
              && s.threads[t].key in s.mapped && s.mapped[s.threads[t].key] == s.threads[t].call
              && s.threads[t].key !in Step(s, Unmap(t)).mapped
  {
    RunInv(Init<R>(), actions);
    var s := Run(Init<R>(), actions);
    if t in s.threads {
      assert ThreadOk(s, t);
    }
  }

  /** Whoever has returned got the one result of its call, which was for its key and is already unmapped. */
  lemma ReturnedIsResult<R>(actions: seq<Action<R>>, t: nat)
    requires Runnable(Init<R>(), actions)
    ensures var s := Run(Init<R>(), actions);
            t in s.threads && s.threads[t].Returned? ==>
              var p := s.threads[t];
              && p.call < |s.calls| && s.calls[p.call].key == p.key && s.calls[p.call].result == Some(p.result)
              && !(p.key in s.mapped && s.mapped[p.key] == p.call)
  {
    RunInv(Init<R>(), actions);
    var s := Run(Init<R>(), actions);
    if t in s.threads && s.threads[t].Returned? {
      assert ThreadOk(s, t);
      if s.threads[t].key in s.mapped {
        assert MappedOk(s, s.threads[t].key);
        var c := s.mapped[s.threads[t].key];
        assert ThreadOk(s, s.calls[c].leader);
      }
    }
  }

  /** A result, once there, never changes: joiners and leader read the same one. */
  lemma {:induction false} ResultsAreFinal<R>(s: State<R>, actions: seq<Action<R>>, c: nat)
    requires Inv(s) && Runnable(s, actions) && c < |s.calls| && s.calls[c].result.Some?
    ensures var after := Run(s, actions);
            c < |after.calls| && after.calls[c].result == s.calls[c].result && after.calls[c].key == s.calls[c].key
    decreases actions
  {
    if actions != [] {
      var a := actions[0];
      if a.Finish? {
        assert ThreadOk(s, a.thread);
      }
      StepInv(s, a);
      ResultsAreFinal(Step(s, a), actions[1..], c);
    }
  }

  /** A thread inside Do can step, or it waits for a call whose leader can step: nobody waits for nothing. */
  lemma NobodyIsStuck<R>(actions: seq<Action<R>>, t: nat, r: R) returns (next: Action<R>)
    requires Runnable(Init<R>(), actions)
    requires t in Run(Init<R>(), actions).threads && !Run(Init<R>(), actions).threads[t].Returned?
    ensures Enabled(Run(Init<R>(), actions), next) && !next.Enter?
    ensures var s := Run(Init<R>(), actions);
            Inside(s, t) && (next.thread == t
              || (s.threads[t].Waiting? && next.thread == s.calls[s.threads[t].call].leader))
  {
    RunInv(Init<R>(), actions);
    var s := Run(Init<R>(), actions);
    assert ThreadOk(s, t);
    var c := s.threads[t].call;
    assert CallOk(s, c);
    var who := if s.threads[t].Waiting? && !s.calls[c].done then s.calls[c].leader else t;
    assert ThreadOk(s, who);
    match s.threads[who]
    case Waiting(_, _) => next := Return(who);
    case Leading(_, _) => next := Finish(who, r);
    case Ran(_, _) => next := Unmap(who);
    case Unmapped(_, _) => next := Done(who);
    case Signalled(_, _) => next := Return(who);
  }
}
