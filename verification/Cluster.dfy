/**
 The whole cluster while all nodes hold the same membership: every Get, from
 whichever node, converges on the ring owner of its key, and at most one Getter
 call per key runs anywhere.
 */
module Cluster {
  import opened Common
  import Ring = RingModel
  import opened OwnerModel
  import opened OwnerSafety
  import opened OwnerLoads

  /** A node: the membership its picker holds and the state of its group. */
  datatype Node = Node(members: set<string>, group: State)

  type Nodes = map<string, Node>

  /** What PickOwner answers on node `self` under `members`. */
  ghost function StandingOf(ring: Ring.Config, members: set<string>, self: string, key: string): Standing {
    var owner := Ring.Owner(ring, members, key);
    if owner == "" then Nobody else if owner == self then Self else Other
  }

  ghost function GroupConfig(ring: Ring.Config, members: set<string>, self: string): Config {
    Config(true, true, (e: nat, key: string) => StandingOf(ring, members, self, key))
  }

  /** `Ask` is a Get at `from`, routed to the owner its picker names; `Inside` is any step on one node. */
  datatype Action =
    | Ask(from: string, thread: nat, key: string)
    | Inside(node: string, step: OwnerModel.Action)

  ghost function Target(ring: Ring.Config, nodes: Nodes, a: Action): string
    requires a.Ask? ==> a.from in nodes
  {
    match a
    case Ask(from, _, key) => Ring.Owner(ring, nodes[from].members, key)
    case Inside(node, _) => node
  }

  function StepOf(a: Action): OwnerModel.Action {
    match a
    case Ask(_, t, key) => Begin(t, OpGet, key)
    case Inside(_, step) => step
  }

  ghost predicate Enabled(ring: Ring.Config, nodes: Nodes, a: Action) {
    && (a.Ask? ==> a.from in nodes)
    && Target(ring, nodes, a) in nodes
    && OwnerModel.Enabled(nodes[Target(ring, nodes, a)].group, StepOf(a))
  }

  ghost function Step(ring: Ring.Config, nodes: Nodes, a: Action): Nodes
    requires Enabled(ring, nodes, a)
  {
    var n := Target(ring, nodes, a);
    var cfg := GroupConfig(ring, nodes[n].members, n);
    nodes[n := nodes[n].(group := OwnerModel.Step(cfg, nodes[n].group, StepOf(a)))]
  }

  ghost predicate Runnable(ring: Ring.Config, nodes: Nodes, actions: seq<Action>)
    decreases actions
  {
    actions == [] || (Enabled(ring, nodes, actions[0]) && Runnable(ring, Step(ring, nodes, actions[0]), actions[1..]))
  }

  ghost function Run(ring: Ring.Config, nodes: Nodes, actions: seq<Action>): Nodes
    requires Runnable(ring, nodes, actions)
    decreases actions
  {
    if actions == [] then nodes else Run(ring, Step(ring, nodes, actions[0]), actions[1..])
  }

  /** Fresh groups on every member, all with the same membership; epochs may differ. */
  predicate Start(nodes: Nodes, members: set<string>) {
    nodes.Keys == members && forall n :: n in nodes ==> nodes[n] == Node(members, Init(nodes[n].group.epoch))
  }

  // ---- Each node loads only what it owns -----------------------------------------------

  /** A thread that passed the ownership check is on the owner of its key. */
  predicate PastCheck(th: Thread) {
    !th.pc.Started? && !th.pc.Finished? && th.op != OpDelete(false)
  }

  ghost predicate OwnsWhatItServes(cfg: Config, s: State) {
    forall t :: t in s.threads && PastCheck(s.threads[t]) ==> cfg.standing(s.threads[t].epoch, s.threads[t].key) == Self
  }

  lemma KeepsChecked(cfg: Config, s: State, a: OwnerModel.Action)
    requires cfg.peers && OwnerModel.Enabled(s, a) && !IsEnv(a) && !a.Begin? && !a.Pick?
    ensures a.thread in s.threads && a.thread in OwnerModel.Step(cfg, s, a).threads
    ensures var th, next := s.threads[a.thread], OwnerModel.Step(cfg, s, a).threads[a.thread];
            next.epoch == th.epoch && next.key == th.key && (PastCheck(next) ==> PastCheck(th))
  {
    hide OwnerModel.Step;
    StepFrame(cfg, s, a);
  }

  lemma StepOwns(cfg: Config, s: State, a: OwnerModel.Action)
    requires cfg.peers && OwnsWhatItServes(cfg, s) && OwnerModel.Enabled(s, a)
    ensures OwnsWhatItServes(cfg, OwnerModel.Step(cfg, s, a))
  {
    var after := OwnerModel.Step(cfg, s, a);
    forall t | t in after.threads && PastCheck(after.threads[t])
      ensures cfg.standing(after.threads[t].epoch, after.threads[t].key) == Self
    {
      if IsEnv(a) || t != a.thread {
        StepFrame(cfg, s, a);
      } else if !a.Begin? && !a.Pick? {
        KeepsChecked(cfg, s, a);
      }
    }
  }

  // ---- The cluster ---------------------------------------------------------------------

  ghost predicate ClusterInv(ring: Ring.Config, nodes: Nodes, members: set<string>) {
    && nodes.Keys == members
    && forall n :: n in nodes ==>
         && nodes[n].members == members
         && Inv(nodes[n].group) && OwnsWhatItServes(GroupConfig(ring, members, n), nodes[n].group)
  }

  lemma StepCluster(ring: Ring.Config, nodes: Nodes, a: Action, members: set<string>)
    requires ClusterInv(ring, nodes, members) && Enabled(ring, nodes, a)
    ensures ClusterInv(ring, Step(ring, nodes, a), members)
  {
    var n := Target(ring, nodes, a);
    var cfg := GroupConfig(ring, members, n);
    StepInv(cfg, nodes[n].group, StepOf(a));
    StepOwns(cfg, nodes[n].group, StepOf(a));
  }

  lemma {:induction false} RunCluster(ring: Ring.Config, nodes: Nodes, actions: seq<Action>, members: set<string>)
    requires ClusterInv(ring, nodes, members) && Runnable(ring, nodes, actions)
    ensures ClusterInv(ring, Run(ring, nodes, actions), members)
    decreases actions
  {
    if actions != [] {
      StepCluster(ring, nodes, actions[0], members);
      RunCluster(ring, Step(ring, nodes, actions[0]), actions[1..], members);
    }
  }

  lemma StartInv(ring: Ring.Config, nodes: Nodes, members: set<string>)
    requires Start(nodes, members)
    ensures ClusterInv(ring, nodes, members)
  {
  }

  /**
   In every interleaving, a running Getter call runs on the ring owner of its
   key, and two running Getter calls for one key are the same call, wherever in
   the cluster they run.
   */
  lemma OneGetterInCluster(ring: Ring.Config, nodes: Nodes, members: set<string>, actions: seq<Action>,
                           m: string, t: nat, n: string, u: nat)
    requires Start(nodes, members) && Runnable(ring, nodes, actions)
    requires m in Run(ring, nodes, actions) && n in Run(ring, nodes, actions)
    requires Running(Run(ring, nodes, actions)[m].group, t) && Running(Run(ring, nodes, actions)[n].group, u)
    requires Run(ring, nodes, actions)[m].group.threads[t].key == Run(ring, nodes, actions)[n].group.threads[u].key
    ensures m == n == Ring.Owner(ring, members, Run(ring, nodes, actions)[m].group.threads[t].key)
    ensures t == u
  {
    StartInv(ring, nodes, members);
    RunCluster(ring, nodes, actions, members);
    var after := Run(ring, nodes, actions);
    RunningOnOwner(ring, after, members, m, t);
    RunningOnOwner(ring, after, members, n, u);
    OneGetterPerNode(after[m].group, t, u);
  }

  lemma RunningOnOwner(ring: Ring.Config, nodes: Nodes, members: set<string>, n: string, t: nat)
    requires ClusterInv(ring, nodes, members) && n in nodes && Running(nodes[n].group, t)
    ensures n == Ring.Owner(ring, members, nodes[n].group.threads[t].key)
  {
    var s := nodes[n].group;
    assert ThreadOk(s, t);
    assert PastCheck(s.threads[t]);
    var cfg := GroupConfig(ring, members, n);
    assert cfg.standing(s.threads[t].epoch, s.threads[t].key) == Self;
  }

  /**
   While the membership stands, every Get of a key has a node to go to, the same
   one from everywhere, and that node finds itself the owner.
   */
  lemma RoutedGetIsAccepted(ring: Ring.Config, nodes: Nodes, members: set<string>, actions: seq<Action>, a: Action)
    requires Start(nodes, members) && Runnable(ring, nodes, actions) && ring.replicas > 0
    requires a.Ask? && a.key != "" && a.from in members && "" !in members
    ensures var after := Run(ring, nodes, actions);
            && a.from in after
            && Target(ring, after, a) == Ring.Owner(ring, members, a.key) && Target(ring, after, a) in after
            && StandingOf(ring, after[Target(ring, after, a)].members, Target(ring, after, a), a.key) == Self
  {
    StartInv(ring, nodes, members);
    RunCluster(ring, nodes, actions, members);
    Ring.OwnerExists(ring, members, a.key);
  }

  // ---- One successful load per key in the cluster ------------------------------------------

  /** A node has loaded only keys it owns. */
  ghost predicate LoadsOwned(cfg: Config, s: State) {
    forall k :: s.Loads(k) > 0 ==> cfg.standing(s.epoch, k) == Self
  }

  lemma StepLoadsOwned(cfg: Config, s: State, a: OwnerModel.Action)
    requires cfg.peers && Inv(s) && Quiet(cfg, s) && LoadsOwned(cfg, s) && OwnerModel.Enabled(s, a) && ReadsOnly(a)
    ensures LoadsOwned(cfg, OwnerModel.Step(cfg, s, a))
  {
    hide OwnerModel.Step, Inv;
    QuietGlobals(cfg, s, a);
    forall k
      ensures OwnerModel.Step(cfg, s, a).Loads(k) > 0 ==> cfg.standing(s.epoch, k) == Self
    {
      QuietLoads(cfg, s, a, k);
      if a.SourceOk? {
        assert QuietThread(cfg, s, a.thread);
      }
    }
  }

  ghost predicate QuietNode(cfg: Config, s: State) {
    Inv(s) && Quiet(cfg, s) && LoadsOwned(cfg, s)
  }

  ghost predicate QuietCluster(ring: Ring.Config, nodes: Nodes, members: set<string>) {
    && nodes.Keys == members
    && forall n :: n in nodes ==>
         nodes[n].members == members && QuietNode(GroupConfig(ring, members, n), nodes[n].group)
  }

  lemma StepQuietCluster(ring: Ring.Config, nodes: Nodes, a: Action, members: set<string>)
    requires QuietCluster(ring, nodes, members) && Enabled(ring, nodes, a) && ReadsOnly(StepOf(a))
    ensures QuietCluster(ring, Step(ring, nodes, a), members)
  {
    hide OwnerModel.Step, Inv, Quiet, LoadsOwned;
    var n := Target(ring, nodes, a);
    var cfg := GroupConfig(ring, members, n);
    StepInv(cfg, nodes[n].group, StepOf(a));
    StepQuiet(cfg, nodes[n].group, StepOf(a));
    StepLoadsOwned(cfg, nodes[n].group, StepOf(a));
  }

  lemma {:induction false} RunQuietCluster(ring: Ring.Config, nodes: Nodes, actions: seq<Action>, members: set<string>)
    requires QuietCluster(ring, nodes, members) && Runnable(ring, nodes, actions)
    requires forall i :: 0 <= i < |actions| ==> ReadsOnly(StepOf(actions[i]))
    ensures QuietCluster(ring, Run(ring, nodes, actions), members)
    decreases actions
  {
    hide Step, QuietCluster, QuietNode;
    if actions != [] {
      assert ReadsOnly(StepOf(actions[0]));
      StepQuietCluster(ring, nodes, actions[0], members);
      RunQuietCluster(ring, Step(ring, nodes, actions[0]), actions[1..], members);
    }
  }

  /**
   Over every interleaving of Gets on all nodes, with nothing but Gets going on,
   the Getter succeeds at most once for a key in the whole cluster, and only on
   the ring owner of the key.
   */
  lemma ClusterLoadsOnce(ring: Ring.Config, nodes: Nodes, members: set<string>, actions: seq<Action>, key: string,
                         n: string)
    requires Start(nodes, members) && Runnable(ring, nodes, actions)
    requires forall i :: 0 <= i < |actions| ==> ReadsOnly(StepOf(actions[i]))
    requires n in Run(ring, nodes, actions)
    ensures Run(ring, nodes, actions)[n].group.Loads(key) <= if n == Ring.Owner(ring, members, key) then 1 else 0
  {
    hide QuietNode;
    StartQuiet(ring, nodes, members);
    RunQuietCluster(ring, nodes, actions, members);
    QuietNodeLoads(ring, members, n, Run(ring, nodes, actions)[n].group, key);
  }

  lemma StartQuiet(ring: Ring.Config, nodes: Nodes, members: set<string>)
    requires Start(nodes, members)
    ensures QuietCluster(ring, nodes, members)
  {
  }

  lemma QuietNodeLoads(ring: Ring.Config, members: set<string>, n: string, s: State, key: string)
    requires QuietNode(GroupConfig(ring, members, n), s)
    ensures s.Loads(key) <= if n == Ring.Owner(ring, members, key) then 1 else 0
  {
    hide Inv;
    assert QuietKey(s, key);
    if s.Loads(key) > 0 {
      assert GroupConfig(ring, members, n).standing(s.epoch, key) == StandingOf(ring, members, n, key);
    }
  }
}
