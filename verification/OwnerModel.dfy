/**
 The owner-side protocol of group.go (getLocal, setLocal, deleteLocal) as a step
 system on one node: each lock-protected section is one step, the Getter is a
 start and a finish, and singleflight runs inside.
 */
module OwnerModel {
  import opened Common
  import SF = Singleflight

  datatype Error = ErrGroupClosed | ErrNoOwner | ErrNotOwner | ErrTopologyChanged | ErrCacheMiss | ErrSource

  /** `asOf` is history: how many mutations of the key the value takes account of. */
  datatype Result = Found(value: Bytes, asOf: nat) | Mutated | Failed(error: Error) | Panicked

  /** What PickOwner says of a key: this node owns it, another does, or nobody. */
  datatype Standing = Self | Other | Nobody

  /** `standing` gives the answer of PickOwner for every epoch and key. */
  datatype Config = Config(peers: bool, getter: bool, standing: (nat, string) -> Standing)

  /** `OpDelete(true)` is deleteOwnerLocal, `OpDelete(false)` the bare deleteLocal of Delete and of an invalidation. */
  datatype Op = OpGet | OpSet(value: Bytes) | OpDelete(checked: bool)

  /** Program counters; `generation` is what a load read, `seen` the number of mutations of the key by then. */
  datatype PC =
    | Started
    | Picked
    | Prepared
    | Holding
    | Missed
    | InDo
    | Loading(generation: nat, seen: nat)
    | Loaded(generation: nat, seen: nat, value: Bytes)
    | Checked(generation: nat, seen: nat, value: Bytes)
    | Releasing(result: Result)
    | Finished(result: Result)

  /**
   `epoch` is what the thread's ownership check returned, `sid` the key state it
   holds. History: `began` counts the mutations of the key when the call began;
   `joined` counts them when the function of the singleflight call that it
   entered had ended, and is none if that function had not ended by then.
   */
  datatype Thread = Thread(op: Op, key: string, epoch: nat, sid: nat, began: nat, joined: Option<nat>, pc: PC)

  /**
   A cached value and, as history, the epoch in which its writer saw itself as
   owner and the mutations it takes account of.
   */
  datatype Entry = Entry(value: Bytes, epoch: nat, asOf: nat)

  /**
   History: the mutation number `count` of a key set a value, or a Getter call
   that began after `count` mutations returned one.
   */
  datatype Fact = WasSet(key: string, value: Bytes, count: nat) | WasLoaded(key: string, value: Bytes, count: nat)

  datatype KeyState = KeyState(key: string, generation: nat, refs: int)

  /** All key states ever allocated, the current mapping, and the history of mutations per key. */
  datatype Keys = Keys(mapped: map<string, nat>, states: seq<KeyState>, mutations: map<string, nat>) {
    function Mutations(key: string): nat {
      if key in mutations then mutations[key] else 0
    }
  }

  /**
   History: successful loads per key, what was set and loaded, and the mutations
   of its key when each call's function ended.
   */
  datatype Past = Past(loads: map<string, nat>, facts: set<Fact>, ends: map<nat, nat>)

  datatype State = State(
    closed: bool,
    epoch: nat,
    ownerEpoch: nat,
    cache: map<string, Entry>,
    keys: Keys,
    flight: SF.State<Result>,
    threads: map<nat, Thread>,
    past: Past)
  {
    /** How many mutations of its key there had been when the function of a singleflight call ended. */
    function EndedAt(call: nat): nat {
      if call in past.ends then past.ends[call] else 0
    }

    /** How often the Getter has succeeded for a key. */
    function Loads(key: string): nat {
      if key in past.loads then past.loads[key] else 0
    }
  }

  /** `late`: the value's time to live has run out before it could be stored. */
  datatype Action =
    | Begin(thread: nat, op: Op, key: string)
    | Pick(thread: nat)
    | Prepare(thread: nat)
    | Acquire(thread: nat)
    | Lookup(thread: nat)
    | Mutate(thread: nat, late: bool)
    | EnterDo(thread: nat)
    | Recheck(thread: nat)
    | SourceOk(thread: nat, value: Bytes)
    | SourceErr(thread: nat)
    | SourcePanic(thread: nat)
    | CheckOwner(thread: nat)
    | WriteBack(thread: nat, late: bool)
    | Unmap(thread: nat)
    | Signal(thread: nat)
    | Leave(thread: nat)
    | Release(thread: nat)
    | Lose(lost: set<string>)
    | ChangeMembership
    | Close

  function Init(epoch: nat): State {
    State(false, epoch, 0, map[], Keys(map[], [], map[]), SF.Init(), map[], Past(map[], {}, map[]))
  }

  // ---- Enabledness ------------------------------------------------------------

  predicate IsEnv(a: Action) {
    a.Lose? || a.ChangeMembership? || a.Close?
  }

  predicate Running(s: State, t: nat) {
    t in s.threads && s.threads[t].pc.Loading?
  }

  /** The function passed to Do may go on: this thread leads its call. */
  predicate InFn(s: State, t: nat) {
    SF.Enabled(s.flight, SF.Finish(t, Panicked))
  }

  /** The key state a thread holds exists (always so in a reachable state). */
  predicate Held(s: State, t: nat) {
    t in s.threads && s.threads[t].sid < |s.keys.states|
  }

  /** The key of a thread is either unmapped or mapped to an existing state (always so in a reachable state). */
  predicate Mappable(s: State, key: string) {
    key in s.keys.mapped ==> s.keys.mapped[key] < |s.keys.states|
  }

  predicate Enabled(s: State, a: Action) {
    match a
    case Begin(t, _, _) => t !in s.threads
    case Pick(t) => t in s.threads && s.threads[t].pc.Started?
    case Prepare(t) => t in s.threads && s.threads[t].pc.Picked?
    case Acquire(t) => t in s.threads && s.threads[t].pc.Prepared? && Mappable(s, s.threads[t].key)
    case Lookup(t) => t in s.threads && s.threads[t].pc.Holding? && s.threads[t].op.OpGet?
    case Mutate(t, _) => Held(s, t) && s.threads[t].pc.Holding? && !s.threads[t].op.OpGet?
    case EnterDo(t) => t in s.threads && s.threads[t].pc.Missed? && SF.Enabled(s.flight, SF.Enter(t, s.threads[t].key))
    case Recheck(t) => Held(s, t) && s.threads[t].pc.InDo? && InFn(s, t)
    case SourceOk(t, _) => t in s.threads && s.threads[t].pc.Loading?
    case SourceErr(t) => t in s.threads && s.threads[t].pc.Loading? && InFn(s, t)
    case SourcePanic(t) => t in s.threads && s.threads[t].pc.Loading? && InFn(s, t)
    case CheckOwner(t) => t in s.threads && s.threads[t].pc.Loaded? && InFn(s, t)
    case WriteBack(t, _) => Held(s, t) && s.threads[t].pc.Checked? && InFn(s, t)
    case Unmap(t) => t in s.threads && s.threads[t].pc.InDo? && SF.Enabled(s.flight, SF.Unmap(t))
    case Signal(t) => t in s.threads && s.threads[t].pc.InDo? && SF.Enabled(s.flight, SF.Done(t))
    case Leave(t) => t in s.threads && s.threads[t].pc.InDo? && SF.Enabled(s.flight, SF.Return(t))
    case Release(t) => Held(s, t) && s.threads[t].pc.Releasing?
    case Lose(_) => true
    case ChangeMembership => true
    case Close => true
  }

  // ---- The owner cache ----------------------------------------------------------

  /** A closed cache misses every lookup and ignores every write. */
  function CacheGet(s: State, key: string): Option<Entry> {
    if !s.closed && key in s.cache then Some(s.cache[key]) else None
  }

  /** A late write is dropped; whatever the key held had expired by then (LruRuns.LateWriteFindsExpired). */
  function CachePut(s: State, key: string, e: Entry, late: bool): map<string, Entry> {
    if s.closed then s.cache else if late then s.cache - {key} else s.cache[key := e]
  }

  function CacheDrop(s: State, keys: set<string>): map<string, Entry> {
    if s.closed then s.cache else s.cache - keys
  }

  // ---- Steps ----------------------------------------------------------------------

  function Goto(s: State, t: nat, pc: PC): State
    requires t in s.threads
  {
    s.(threads := s.threads[t := s.threads[t].(pc := pc)])
  }

  /** A step of thread `t` inside singleflight. */
  function Fly(s: State, t: nat, a: SF.Action<Result>, pc: PC): State
    requires t in s.threads && SF.Enabled(s.flight, a)
  {
    Goto(s, t, pc).(flight := SF.Step(s.flight, a))
  }

  /** The function passed to Do returns `r`. */
  function Complete(s: State, t: nat, r: Result): State
    requires t in s.threads && InFn(s, t)
  {
    var count := s.keys.Mutations(s.threads[t].key);
    Fly(s, t, SF.Finish(t, r), InDo).(past := s.past.(ends := s.past.ends[s.flight.threads[t].call := count]))
  }

  function BeginStep(s: State, t: nat, op: Op, key: string): State {
    var pc :=
      if op == OpDelete(false) then Prepared
      else if s.closed then Finished(Failed(ErrGroupClosed))
      else Started;
    s.(threads := s.threads[t := Thread(op, key, 0, 0, s.keys.Mutations(key), None, pc)])
  }

  /** The PickOwner call of prepareLocalOwner. */
  function PickStep(cfg: Config, s: State, t: nat): State
    requires t in s.threads
  {
    var th := s.threads[t];
    if !cfg.peers then Goto(s, t, Prepared)
    else
      match cfg.standing(s.epoch, th.key)
      case Self => s.(threads := s.threads[t := th.(epoch := s.epoch, pc := Picked)])
      case Other => Goto(s, t, Finished(Failed(ErrNotOwner)))
      case Nobody => Goto(s, t, Finished(Failed(ErrNoOwner)))
  }

  /** The ownerEpoch section of prepareLocalOwner: a new epoch clears the owner cache. */
  function PrepareStep(s: State, t: nat): State
    requires t in s.threads
  {
    var e := s.threads[t].epoch;
    var next := Goto(s, t, Prepared);
    if s.ownerEpoch == 0 || s.ownerEpoch == e then next.(ownerEpoch := e)
    else next.(ownerEpoch := e, cache := CacheDrop(s, s.cache.Keys))
  }

  function AcquireStep(s: State, t: nat): State
    requires t in s.threads && Mappable(s, s.threads[t].key)
  {
    var th := s.threads[t];
    if th.key in s.keys.mapped then
      var sid := s.keys.mapped[th.key];
      var ks := s.keys.states[sid];
      s.(keys := s.keys.(states := s.keys.states[sid := ks.(refs := ks.refs + 1)]),
         threads := s.threads[t := th.(sid := sid, pc := Holding)])
    else
      var sid := |s.keys.states|;
      s.(keys := s.keys.(mapped := s.keys.mapped[th.key := sid], states := s.keys.states + [KeyState(th.key, 0, 1)]),
         threads := s.threads[t := th.(sid := sid, pc := Holding)])
  }

  function ReleaseStep(s: State, t: nat): State
    requires Held(s, t) && s.threads[t].pc.Releasing?
  {
    var th := s.threads[t];
    var ks := s.keys.states[th.sid];
    var gone := ks.refs == 1 && th.key in s.keys.mapped && s.keys.mapped[th.key] == th.sid;
    Goto(s, t, Finished(th.pc.result)).(keys := s.keys.(
      mapped := if gone then s.keys.mapped - {th.key} else s.keys.mapped,
      states := s.keys.states[th.sid := ks.(refs := ks.refs - 1)]))
  }

  function LookupStep(cfg: Config, s: State, t: nat): State
    requires t in s.threads
  {
    match CacheGet(s, s.threads[t].key)
    case Some(e) => Goto(s, t, Releasing(Found(e.value, e.asOf)))
    case None => Goto(s, t, if cfg.getter then Missed else Releasing(Failed(ErrCacheMiss)))
  }

  /** The locked section of setLocal and deleteLocal. */
  function MutateStep(s: State, t: nat, late: bool): State
    requires Held(s, t)
  {
    var th := s.threads[t];
    var ks := s.keys.states[th.sid];
    var count := s.keys.Mutations(th.key) + 1;
    Goto(s, t, Releasing(Mutated)).(
      keys := s.keys.(states := s.keys.states[th.sid := ks.(generation := ks.generation + 1)],
                      mutations := s.keys.mutations[th.key := count]),
      cache :=
        if th.op.OpSet? then CachePut(s, th.key, Entry(th.op.value, th.epoch, count), late)
        else CacheDrop(s, {th.key}),
      past := if th.op.OpSet? then s.past.(facts := s.past.facts + {WasSet(th.key, th.op.value, count)}) else s.past)
  }

  /** When the function of the call mapped to a key ended, if it has. */
  function MappedEnd(s: State, key: string): Option<nat> {
    if && key in s.flight.mapped && s.flight.mapped[key] < |s.flight.calls|
       && s.flight.calls[s.flight.mapped[key]].result.Some?
    then Some(s.EndedAt(s.flight.mapped[key])) else None
  }

  /** Entering Do. */
  function EnterStep(s: State, t: nat): State
    requires t in s.threads && SF.Enabled(s.flight, SF.Enter(t, s.threads[t].key))
  {
    var th := s.threads[t];
    s.(flight := SF.Step(s.flight, SF.Enter(t, th.key)),
       threads := s.threads[t := th.(joined := MappedEnd(s, th.key), pc := InDo)])
  }

  /** The first locked section of a load. */
  function RecheckStep(s: State, t: nat): State
    requires Held(s, t) && InFn(s, t)
  {
    var th := s.threads[t];
    match CacheGet(s, th.key)
    case Some(e) => Complete(s, t, Found(e.value, e.asOf))
    case None => Goto(s, t, Loading(s.keys.states[th.sid].generation, s.keys.Mutations(th.key)))
  }

  function SourceOkStep(s: State, t: nat, v: Bytes): State
    requires t in s.threads && s.threads[t].pc.Loading?
  {
    var th := s.threads[t];
    Goto(s, t, Loaded(th.pc.generation, th.pc.seen, v)).(past := s.past.(
      loads := s.past.loads[th.key := s.Loads(th.key) + 1],
      facts := s.past.facts + {WasLoaded(th.key, v, th.pc.seen)}))
  }

  /** The ownership check before a write-back passes: this node still owns the key, in the epoch of its first check. */
  predicate StillOwner(cfg: Config, s: State, th: Thread) {
    !cfg.peers || (cfg.standing(s.epoch, th.key) == Self && s.epoch == th.epoch)
  }

  /** The ownership check between the Getter and the write-back. */
  function CheckOwnerStep(cfg: Config, s: State, t: nat): State
    requires t in s.threads && s.threads[t].pc.Loaded? && InFn(s, t)
  {
    var th := s.threads[t];
    if StillOwner(cfg, s, th) then Goto(s, t, Checked(th.pc.generation, th.pc.seen, th.pc.value))
    else Complete(s, t, Failed(ErrTopologyChanged))
  }

  /** Whether a checked load will hand its value to the cache. */
  predicate WillWrite(s: State, t: nat)
    requires Held(s, t) && s.threads[t].pc.Checked?
  {
    s.keys.states[s.threads[t].sid].generation == s.threads[t].pc.generation
  }

  /** The second locked section of a load. */
  function WriteBackStep(s: State, t: nat, late: bool): State
    requires Held(s, t) && s.threads[t].pc.Checked? && InFn(s, t)
  {
    var th := s.threads[t];
    if WillWrite(s, t) then
      var e := Entry(th.pc.value, th.epoch, th.pc.seen);
      Complete(s, t, Found(th.pc.value, th.pc.seen)).(cache := CachePut(s, th.key, e, late))
    else
      match CacheGet(s, th.key)
      case Some(e) => Complete(s, t, Found(e.value, e.asOf))
      case None => Complete(s, t, Failed(ErrCacheMiss))
  }

  function LeaveStep(s: State, t: nat): State
    requires t in s.threads && SF.Enabled(s.flight, SF.Return(t))
  {
    Fly(s, t, SF.Return(t), Releasing(SF.Step(s.flight, SF.Return(t)).threads[t].result))
  }

  function Step(cfg: Config, s: State, a: Action): State
    requires Enabled(s, a)
  {
    match a
    case Begin(t, op, key) => BeginStep(s, t, op, key)
    case Pick(t) => PickStep(cfg, s, t)
    case Prepare(t) => PrepareStep(s, t)
    case Acquire(t) => AcquireStep(s, t)
    case Lookup(t) => LookupStep(cfg, s, t)
    case Mutate(t, late) => MutateStep(s, t, late)
    case EnterDo(t) => EnterStep(s, t)
    case Recheck(t) => RecheckStep(s, t)
    case SourceOk(t, v) => SourceOkStep(s, t, v)
    case SourceErr(t) => Complete(s, t, Failed(ErrSource))
    case SourcePanic(t) => Complete(s, t, Panicked)
    case CheckOwner(t) => CheckOwnerStep(cfg, s, t)
    case WriteBack(t, late) => WriteBackStep(s, t, late)
    case Unmap(t) => Fly(s, t, SF.Unmap(t), InDo)
    case Signal(t) => Fly(s, t, SF.Done(t), InDo)
    case Leave(t) => LeaveStep(s, t)
    case Release(t) => ReleaseStep(s, t)
    case Lose(lost) => s.(cache := CacheDrop(s, lost))
    case ChangeMembership => s.(epoch := s.epoch + 1)
    case Close => s.(closed := true)
  }

  predicate Runnable(cfg: Config, s: State, actions: seq<Action>)
    decreases actions
  {
    actions == [] || (Enabled(s, actions[0]) && Runnable(cfg, Step(cfg, s, actions[0]), actions[1..]))
  }

  function Run(cfg: Config, s: State, actions: seq<Action>): State
    requires Runnable(cfg, s, actions)
    decreases actions
  {
    if actions == [] then s else Run(cfg, Step(cfg, s, actions[0]), actions[1..])
  }
}
