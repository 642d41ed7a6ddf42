/**
 Read your writes, over every interleaving: once a setLocal has taken effect, and
 until the key is mutated, lost or cleared or the group is closed, the cache
 keeps its value, loads that it overtook serve it, and every later getLocal
 returns it.
 */
module OwnerSettled {
  import opened Common
  import SF = Singleflight
  import opened OwnerModel
  import opened OwnerSafety
  import opened OwnerReads
  import opened OwnerAnswers

  /** The cache holds the entry, and every load of its key under way has been overtaken. */
  ghost predicate Settled(s: State, key: string, e: Entry) {
    && !s.closed && key in s.cache && s.cache[key] == e
    && forall t :: t in s.threads ==> Overtaken(s, s.threads[t], key)
  }

  predicate Overtaken(s: State, th: Thread, key: string) {
    InLoad(th) && th.key == key ==> th.pc.seen < s.keys.Mutations(key)
  }

  /** The step does not mutate, lose or clear the key, nor close the group. */
  predicate Gentle(s: State, a: Action, key: string)
    requires Enabled(s, a)
  {
    match a
    case Mutate(t, _) => s.threads[t].key != key
    case Lose(lost) => key !in lost
    case Prepare(t) => s.ownerEpoch in {0, s.threads[t].epoch}
    case Close => false
    case _ => true
  }

  predicate GentleRun(cfg: Config, s: State, actions: seq<Action>, key: string)
    requires Runnable(cfg, s, actions)
    decreases actions
  {
    actions == [] ||
    (Gentle(s, actions[0], key) && GentleRun(cfg, Step(cfg, s, actions[0]), actions[1..], key))
  }

  /** A load that a mutation overtook does not write. */
  lemma OvertakenKeeps(s: State, t: nat, key: string, e: Entry)
    requires Inv(s) && Settled(s, key, e) && Held(s, t) && s.threads[t].pc.Checked? && s.threads[t].key == key
    ensures !WillWrite(s, t)
  {
    assert ThreadOk(s, t) && Overtaken(s, s.threads[t], key);
  }

  lemma WriteBackSettled(cfg: Config, s: State, a: Action, key: string, e: Entry)
    requires Inv(s) && Settled(s, key, e) && Enabled(s, a) && a.WriteBack?
    ensures var after := Step(cfg, s, a); key in after.cache && after.cache[key] == e
  {
    hide Inv, SF.Step;
    if s.threads[a.thread].key == key {
      OvertakenKeeps(s, a.thread, key, e);
    }
  }

  lemma DropsSettled(cfg: Config, s: State, a: Action, key: string, e: Entry)
    requires Settled(s, key, e) && Enabled(s, a) && Gentle(s, a, key) && (a.Mutate? || a.Lose? || a.Prepare?)
    ensures var after := Step(cfg, s, a);
            key in after.cache && after.cache[key] == e && after.keys.Mutations(key) == s.keys.Mutations(key)
  {
  }

  lemma GentleCache(cfg: Config, s: State, a: Action, key: string, e: Entry)
    requires Inv(s) && Settled(s, key, e) && Enabled(s, a) && Gentle(s, a, key)
    ensures var after := Step(cfg, s, a); !after.closed && key in after.cache && after.cache[key] == e
    ensures Step(cfg, s, a).keys.Mutations(key) == s.keys.Mutations(key)
  {
    hide Inv, Step, Enabled;
    StepFrame(cfg, s, a);
    if a.WriteBack? {
      WriteBackSettled(cfg, s, a, key, e);
    } else if a.Mutate? || a.Lose? || a.Prepare? {
      DropsSettled(cfg, s, a, key, e);
    }
  }

  /** A Recheck that finds the entry starts no load. */
  lemma LoadOvertaken(cfg: Config, s: State, a: Action, key: string, e: Entry)
    requires Settled(s, key, e) && Enabled(s, a) && (a.Recheck? || a.SourceOk? || a.CheckOwner?)
    ensures var after := Step(cfg, s, a); a.thread in after.threads && Overtaken(after, after.threads[a.thread], key)
  {
    hide SF.Step;
    assert Overtaken(s, s.threads[a.thread], key);
  }

  lemma OwnOvertaken(cfg: Config, s: State, a: Action, key: string, e: Entry)
    requires Settled(s, key, e) && Enabled(s, a) && !IsEnv(a)
    ensures var after := Step(cfg, s, a); a.thread in after.threads && Overtaken(after, after.threads[a.thread], key)
  {
    hide Step, Enabled, Settled;
    StepFrame(cfg, s, a);
    if a.Recheck? || a.SourceOk? || a.CheckOwner? {
      LoadOvertaken(cfg, s, a, key, e);
    }
  }

  lemma StepSettled(cfg: Config, s: State, a: Action, key: string, e: Entry)
    requires Inv(s) && Settled(s, key, e) && Enabled(s, a) && Gentle(s, a, key)
    ensures Settled(Step(cfg, s, a), key, e)
  {
    hide Inv, Step, Gentle;
    GentleCache(cfg, s, a, key, e);
    StepFrame(cfg, s, a);
    var after := Step(cfg, s, a);
    forall t | t in after.threads
      ensures Overtaken(after, after.threads[t], key)
    {
      if IsEnv(a) || t != a.thread {
        assert Overtaken(s, s.threads[t], key);
      } else {
        OwnOvertaken(cfg, s, a, key, e);
      }
    }
  }

  /** A setLocal settles its value. */
  lemma SetSettles(cfg: Config, s: State, t: nat)
    requires Inv(s) && Enabled(s, Mutate(t, false)) && s.threads[t].op.OpSet? && !s.closed
    ensures var th := s.threads[t];
            Settled(Step(cfg, s, Mutate(t, false)), th.key, Entry(th.op.value, th.epoch, s.keys.Mutations(th.key) + 1))
  {
    var (th, after) := (s.threads[t], Step(cfg, s, Mutate(t, false)));
    forall u | u in after.threads
      ensures Overtaken(after, after.threads[u], th.key)
    {
      assert ThreadOk(s, u);
    }
  }

  // ---- Later reads -----------------------------------------------------------------------

  /** Where a getLocal of a settled key can be, and with what. */
  ghost predicate OnItsWay(cfg: Config, key: string, e: Entry, pc: PC) {
    match pc
    case Started => true
    case Picked => true
    case Prepared => true
    case Holding => true
    case Releasing(r) => r == Found(e.value, e.asOf)
    case Finished(r) =>
      || r == Found(e.value, e.asOf)
      || (Disowned(cfg, key) && r in [Failed(ErrNotOwner), Failed(ErrNoOwner)])
    case _ => false
  }

  /** prepareLocalOwner said that this node does not own the key. */
  ghost predicate Disowned(cfg: Config, key: string) {
    cfg.peers && exists n :: cfg.standing(n, key) != Self
  }

  /** Every getLocal of the key begun since is on its way to the settled value. */
  ghost predicate Served(cfg: Config, s: State, key: string, e: Entry, before: set<nat>) {
    forall t :: t in s.threads && t !in before && s.threads[t].op.OpGet? && s.threads[t].key == key ==>
      OnItsWay(cfg, key, e, s.threads[t].pc)
  }

  lemma OwnServed(cfg: Config, s: State, a: Action, key: string, e: Entry)
    requires Settled(s, key, e) && Enabled(s, a) && !IsEnv(a)
    requires a.thread in s.threads ==> OnItsWay(cfg, key, e, s.threads[a.thread].pc) && s.threads[a.thread].key == key
    requires var th := Step(cfg, s, a).threads[a.thread]; th.op.OpGet? && th.key == key
    ensures OnItsWay(cfg, key, e, Step(cfg, s, a).threads[a.thread].pc)
  {
    hide SF.Step, Complete;
    if a.Pick? {
      assert cfg.standing(s.epoch, key) != Self ==> cfg.peers ==> Disowned(cfg, key);
    }
  }

  lemma StepServed(cfg: Config, s: State, a: Action, key: string, e: Entry, before: set<nat>)
    requires Settled(s, key, e) && Enabled(s, a) && Served(cfg, s, key, e, before) && before <= s.threads.Keys
    ensures Served(cfg, Step(cfg, s, a), key, e, before) && before <= Step(cfg, s, a).threads.Keys
  {
    hide Step, Settled, Enabled, OnItsWay;
    StepFrame(cfg, s, a);
    var after := Step(cfg, s, a);
    forall t | t in after.threads && t !in before && after.threads[t].op.OpGet? && after.threads[t].key == key
      ensures OnItsWay(cfg, key, e, after.threads[t].pc)
    {
      if !IsEnv(a) && t == a.thread {
        OwnServed(cfg, s, a, key, e);
      }
    }
  }

  lemma {:induction false} RunSettled(cfg: Config, s: State, actions: seq<Action>, key: string, e: Entry,
                                      before: set<nat>)
    requires Inv(s) && Settled(s, key, e) && Served(cfg, s, key, e, before) && before <= s.threads.Keys
    requires Runnable(cfg, s, actions) && GentleRun(cfg, s, actions, key)
    ensures var after := Run(cfg, s, actions); Settled(after, key, e) && Served(cfg, after, key, e, before)
    decreases actions
  {
    hide Inv, Step, Enabled, Settled, Served, Gentle;
    if actions != [] {
      StepInv(cfg, s, actions[0]);
      StepSettled(cfg, s, actions[0], key, e);
      StepServed(cfg, s, actions[0], key, e, before);
      RunSettled(cfg, Step(cfg, s, actions[0]), actions[1..], key, e, before);
    }
  }

  /**
   After a setLocal has taken effect, and through any steps that do not mutate,
   lose or clear the key or close the group, the cache holds its value; and every
   getLocal of the key begun since that has ended returned that value, unless
   this node was told that it does not own the key.
   */
  lemma ReadYourWrites(cfg: Config, epoch: nat, first: seq<Action>, t: nat, rest: seq<Action>, u: nat)
    requires Runnable(cfg, Init(epoch), first)
    requires var s := Run(cfg, Init(epoch), first);
             && Enabled(s, Mutate(t, false)) && s.threads[t].op.OpSet? && !s.closed
             && Runnable(cfg, Step(cfg, s, Mutate(t, false)), rest)
             && GentleRun(cfg, Step(cfg, s, Mutate(t, false)), rest, s.threads[t].key)
    ensures var s := Run(cfg, Init(epoch), first);
            var (written, end) := (Step(cfg, s, Mutate(t, false)), Run(cfg, Step(cfg, s, Mutate(t, false)), rest));
            var (key, value) := (s.threads[t].key, s.threads[t].op.value);
            var count := s.keys.Mutations(key) + 1;
            && !end.closed && key in end.cache && end.cache[key].value == value
            && (u in end.threads && u !in written.threads && end.threads[u].op.OpGet? && end.threads[u].key == key
                && end.threads[u].pc.Finished? ==>
                || end.threads[u].pc.result == Found(value, count)
                || (Disowned(cfg, key) && end.threads[u].pc.result in [Failed(ErrNotOwner), Failed(ErrNoOwner)]))
  {
    hide Inv, Step, Runnable, Run, GentleRun;
    InitInv(epoch);
    RunInv(cfg, Init(epoch), first);
    var s := Run(cfg, Init(epoch), first);
    StepInv(cfg, s, Mutate(t, false));
    SetSettles(cfg, s, t);
    var th := s.threads[t];
    var e := Entry(th.op.value, th.epoch, s.keys.Mutations(th.key) + 1);
    var after := Step(cfg, s, Mutate(t, false));
    RunSettled(cfg, after, rest, th.key, e, after.threads.Keys);
  }

  /** Whatever load of a settled key ends with a value ends with the settled one, not with what the Getter returned. */
  lemma LoadsServeSettled(cfg: Config, s: State, a: Action, key: string, e: Entry)
    requires Inv(s) && Settled(s, key, e) && Enabled(s, a) && !IsEnv(a) && !a.Begin? && s.threads[a.thread].key == key
    ensures Outcome(cfg, s, a).Some? && Outcome(cfg, s, a).value.Found? ==>
      Outcome(cfg, s, a) == Some(Found(e.value, e.asOf))
    ensures a.WriteBack? ==> Ran(Step(cfg, s, a), a.thread, Found(e.value, e.asOf))
  {
    hide Inv;
    if a.WriteBack? {
      OvertakenKeeps(s, a.thread, key, e);
    }
  }

  /** A deleteLocal that overtakes a load: the load does not bring the key back, and ends with ErrCacheMiss. */
  lemma DeleteOvertakesLoad(cfg: Config, s: State, t: nat, u: nat, late: bool)
    requires Inv(s) && !s.closed && Enabled(s, Mutate(u, late)) && s.threads[u].op.OpDelete?
    requires Held(s, t) && InFn(s, t) && s.threads[t].pc.Checked? && s.threads[t].key == s.threads[u].key
    ensures Enabled(Step(cfg, s, Mutate(u, late)), WriteBack(t, late))
    ensures var after := Step(cfg, Step(cfg, s, Mutate(u, late)), WriteBack(t, late));
            s.threads[u].key !in after.cache && Ran(after, t, Failed(ErrCacheMiss))
  {
    hide Inv;
    var a := Step(cfg, s, Mutate(u, late));
    StepInv(cfg, s, Mutate(u, late));
    OvertakenByMutate(cfg, s, t, u, late);
  }

  lemma OvertakenByMutate(cfg: Config, s: State, t: nat, u: nat, late: bool)
    requires Inv(s) && Enabled(s, Mutate(u, late)) && Held(s, t) && s.threads[t].pc.Checked? && t != u
    requires s.threads[t].key == s.threads[u].key
    ensures var a := Step(cfg, s, Mutate(u, late));
            Held(a, t) && a.threads[t] == s.threads[t] && !WillWrite(a, t)
  {
    hide Inv, Step, Framed, Enabled;
    var a := Step(cfg, s, Mutate(u, late));
    LoadCounts(s, t);
    MutateCounts(cfg, s, u, late);
    StepInv(cfg, s, Mutate(u, late));
    LoadCounts(a, t);
  }

  lemma LoadCounts(s: State, t: nat)
    requires Inv(s) && t in s.threads && InLoad(s.threads[t])
    ensures Held(s, t) && LoadOk(s, s.threads[t])
  {
    assert ThreadOk(s, t);
  }

  lemma MutateCounts(cfg: Config, s: State, u: nat, late: bool)
    requires Enabled(s, Mutate(u, late))
    ensures var (a, key) := (Step(cfg, s, Mutate(u, late)), s.threads[u].key);
            a.keys.Mutations(key) == s.keys.Mutations(key) + 1
    ensures forall t :: t in s.threads && t != u ==>
      t in Step(cfg, s, Mutate(u, late)).threads && Step(cfg, s, Mutate(u, late)).threads[t] == s.threads[t]
  {
  }

  // ---- After Close -------------------------------------------------------------------------

  lemma ClosedStep(cfg: Config, s: State, a: Action)
    requires s.closed && Enabled(s, a)
    ensures Step(cfg, s, a).closed && Step(cfg, s, a).cache == s.cache
  {
    hide SF.Step;
  }

  /** What Close leaves in the owner cache stays there, whatever calls that began before it still do. */
  lemma {:induction false} ClosedIsFinal(cfg: Config, s: State, actions: seq<Action>)
    requires s.closed && Runnable(cfg, s, actions)
    ensures Run(cfg, s, actions).closed && Run(cfg, s, actions).cache == s.cache
    decreases actions
  {
    hide Step, Enabled;
    if actions != [] {
      ClosedStep(cfg, s, actions[0]);
      ClosedIsFinal(cfg, Step(cfg, s, actions[0]), actions[1..]);
    }
  }
}
