/**
 Routing and near cache of group.go (Get, Set, Delete over a PeerPicker), as
 functions on the state of one node. Between any two accesses to shared state
 the environment may change that state: the picker may move to a new epoch, the
 clock may advance, and other callers may use the near cache.
 */
module RoutingModel {
  import opened Common
  import S = ShardedModel
  import M = LruModel
  import R = LruRuns

  /** Which operation an owner carried out. */
  datatype Kind = KGet | KSet | KDelete

  /** History: what this node saw and did, each event with the picker's epoch at that moment. */
  datatype Event =
    | Picked(key: string, owner: string, epoch: nat)
    | Answered(kind: Kind, key: string, owner: string, value: Bytes, epoch: nat)
    | Stored(name: string, value: Bytes, at: int, epoch: nat)
    | Hit(name: string, value: Bytes, at: int, epoch: nat)
    | Dropped(name: string, epoch: nat)

  /**
   `ownerAt` is the owner PickOwner names in each epoch, the empty string for
   none.
   */
  datatype Config = Config(
    self: string,
    peers: bool,
    near: bool,
    nearTTL: int,
    store: S.Config,
    ownerAt: (nat, string) -> string)

  datatype Node = Node(closed: bool, epoch: nat, clock: int, near: S.State, log: seq<Event>, tick: nat)

  datatype Error =
    | ErrGroupClosed | ErrKeyRequired | ErrValueRequired | ErrNoOwner | ErrPeerUnavailable
    | ErrTopologyChanged | ErrCancelled | ErrOther

  /** The answer of a peer, or of the local owner path. */
  datatype Reply = Ok(value: Bytes) | Refused | Broken(error: Error)

  /**
   Everything outside the caller's control, indexed by the node's tick: how the
   node changes before each access, what peers and the local owner path answer,
   whether a peer client exists, whether the wait is cancelled, and how much the
   clock advances inside one store operation.
   */
  datatype Env = Env(
    step: (nat, Node) -> Node,
    peer: nat -> Reply,
    local: nat -> Reply,
    hasPeer: nat -> bool,
    cancelled: nat -> bool,
    lag: nat -> nat)

  /** nearKey: the epoch in decimal, a colon, the key. */
  function NearKey(epoch: nat, key: string): string {
    Decimal(epoch) + ":" + key
  }

  /** A near-cache key determines its epoch and its key. */
  lemma NearKeyInjective(d: nat, k: string, e: nat, l: string)
    requires NearKey(d, k) == NearKey(e, l)
    ensures d == e && k == l
  {
    var a, b, whole := Decimal(d), Decimal(e), NearKey(d, k);
    assert whole == a + ":" + k && whole == b + ":" + l;
    ColonPosition(a, k, b);
    ColonPosition(b, l, a);
    assert whole[..|a|] == a && whole[..|b|] == b;
    assert whole[|a| + 1..] == k && whole[|b| + 1..] == l;
    DecimalInjective(d, e);
  }

  /** Digits that start a near-cache key end before its first colon. */
  lemma ColonPosition(a: string, k: string, b: string)
    requires b <= a + ":" + k && forall c :: c in b ==> '0' <= c <= '9'
    ensures |b| <= |a|
  {
    var whole := a + ":" + k;
    assert whole[|a|] == ':';
    assert forall i :: 0 <= i < |b| ==> whole[i] in b;
  }

  /** A history only ever grows. */
  predicate Extends(log: seq<Event>, more: seq<Event>) {
    log <= more
  }

  lemma ExtendsTransitive(a: seq<Event>, b: seq<Event>, c: seq<Event>)
    requires Extends(a, b) && Extends(b, c)
    ensures Extends(a, c)
  {
  }

  // ---- What the environment may do -------------------------------------------------

  ghost predicate AgreedAt(log: seq<Event>, kind: Kind, key: string, owner: string, value: Bytes, epoch: nat, i: nat,
                           j: nat, l: nat)
  {
    && i < j < l < |log|
    && log[i] == Picked(key, owner, epoch)
    && log[j] == Answered(kind, key, owner, value, epoch)
    && log[l] == Picked(key, owner, epoch)
  }

  /**
   From event `base` on, the node picked the owner, the owner carried out the
   operation, and the node picked it again, all in one epoch.
   */
  ghost predicate Agreed(log: seq<Event>, base: nat, kind: Kind, key: string, owner: string, value: Bytes, epoch: nat) {
    exists i: nat, j: nat, l: nat :: base <= i && AgreedAt(log, kind, key, owner, value, epoch, i, j, l)
  }

  /**
   Where a near-cache entry came from: a value fetched from, or written to, the
   remote owner within one epoch, and stored last under its name.
   */
  datatype Origin = Origin(key: string, epoch: nat, owner: string, kind: Kind, stored: nat)

  /** The event changes what the near cache holds under this name. */
  predicate Touches(e: Event, name: string) {
    (e.Stored? || e.Dropped?) && e.name == name
  }

  /** Nothing was stored or dropped under this name after event `from`. */
  ghost predicate Untouched(log: seq<Event>, name: string, from: nat) {
    forall d :: from < d < |log| ==> !Touches(log[d], name)
  }

  ghost predicate OriginOk(cfg: Config, log: seq<Event>, name: string, value: Bytes, deadline: Option<int>, o: Origin) {
    && name == NearKey(o.epoch, o.key)
    && o.owner == cfg.ownerAt(o.epoch, o.key) && o.owner != cfg.self && o.owner != ""
    && o.kind != KDelete
    && o.stored < |log| && log[o.stored].Stored? && log[o.stored].name == name && log[o.stored].value == value
    && Untouched(log, name, o.stored)
    && deadline.Some? && deadline.value <= log[o.stored].at + cfg.nearTTL
    && Agreed(log[..o.stored], 0, o.kind, o.key, o.owner, value, o.epoch)
  }

  ghost predicate HasOrigin(cfg: Config, log: seq<Event>, name: string, value: Bytes, deadline: Option<int>) {
    exists o :: OriginOk(cfg, log, name, value, deadline, o)
  }

  /** Every near-cache entry has an origin in the history. */
  ghost predicate NearOk(cfg: Config, near: S.State, log: seq<Event>) {
    forall i, e :: 0 <= i < |near| && e in near[i].list ==>
      HasOrigin(cfg, log, e.key, e.value, R.Deadline(near[i], e.key))
  }

  /** Epochs in the history never decrease, and picks are what the picker answers in that epoch. */
  ghost predicate LogOk(cfg: Config, log: seq<Event>, epoch: nat) {
    && (forall i, j :: 0 <= i < j < |log| ==> log[i].epoch <= log[j].epoch)
    && (forall i :: 0 <= i < |log| ==> log[i].epoch <= epoch)
    && (forall i :: 0 <= i < |log| && log[i].Picked? ==> log[i].owner == cfg.ownerAt(log[i].epoch, log[i].key))
  }

  /** An agreed value for this name, stored less than nearTTL before `now`. */
  ghost predicate FreshHit(cfg: Config, log: seq<Event>, name: string, value: Bytes, now: int) {
    exists o, d :: OriginOk(cfg, log, name, value, Some(d), o) && now < log[o.stored].at + cfg.nearTTL
  }

  /** Every near-cache hit was fresh when it happened. */
  ghost predicate HitsOk(cfg: Config, log: seq<Event>) {
    forall h :: 0 <= h < |log| && log[h].Hit? ==> FreshHit(cfg, log[..h], log[h].name, log[h].value, log[h].at)
  }

  ghost predicate Inv(cfg: Config, s: Node) {
    && cfg.store.Ok() && S.StoreOk(cfg.store, s.near)
    && 1 <= s.epoch
    && LogOk(cfg, s.log, s.epoch)
    && NearOk(cfg, s.near, s.log)
    && HitsOk(cfg, s.log)
  }

  /** What any other caller or event may do to the node, and what every access of these operations does. */
  ghost predicate Rely(cfg: Config, s: Node, after: Node) {
    && s.epoch <= after.epoch && s.clock <= after.clock
    && (s.closed ==> after.closed)
    && Extends(s.log, after.log)
    && Inv(cfg, after)
  }

  ghost predicate EnvOk(cfg: Config, env: Env) {
    forall n, s :: Inv(cfg, s) ==> Rely(cfg, s, env.step(n, s))
  }

  lemma RelyTransitive(cfg: Config, a: Node, b: Node, c: Node)
    requires Rely(cfg, a, b) && Rely(cfg, b, c)
    ensures Rely(cfg, a, c)
  {
  }

  lemma OriginKept(cfg: Config, log: seq<Event>, e: Event, name: string, value: Bytes, deadline: Option<int>)
    requires HasOrigin(cfg, log, name, value, deadline) && !Touches(e, name)
    ensures HasOrigin(cfg, log + [e], name, value, deadline)
  {
    var o :| OriginOk(cfg, log, name, value, deadline, o);
    var more := log + [e];
    assert more[..o.stored] == log[..o.stored];
    assert OriginOk(cfg, more, name, value, deadline, o);
  }

  lemma NoteHitsOk(cfg: Config, log: seq<Event>, e: Event)
    requires HitsOk(cfg, log) && (e.Hit? ==> FreshHit(cfg, log, e.name, e.value, e.at))
    ensures HitsOk(cfg, log + [e])
  {
    var more := log + [e];
    forall h | 0 <= h < |more| && more[h].Hit?
      ensures FreshHit(cfg, more[..h], more[h].name, more[h].value, more[h].at)
    {
      assert more[..h] == log[..h];
      assert log[..|log|] == log;
    }
  }

  lemma NoteLogOk(cfg: Config, log: seq<Event>, e: Event)
    requires LogOk(cfg, log, e.epoch) && (e.Picked? ==> e.owner == cfg.ownerAt(e.epoch, e.key))
    ensures LogOk(cfg, log + [e], e.epoch)
  {
  }

  lemma NoteNearOk(cfg: Config, near: S.State, log: seq<Event>, e: Event)
    requires NearOk(cfg, near, log) && Absent(near, e)
    ensures NearOk(cfg, near, log + [e])
  {
    forall i, x | 0 <= i < |near| && x in near[i].list
      ensures HasOrigin(cfg, log + [e], x.key, x.value, R.Deadline(near[i], x.key))
    {
      OriginKept(cfg, log, e, x.key, x.value, R.Deadline(near[i], x.key));
    }
  }

  /** The near cache holds nothing under the name that an event touches. */
  ghost predicate Absent(near: S.State, e: Event) {
    forall i, x :: 0 <= i < |near| && x in near[i].list ==> !Touches(e, x.key)
  }

  /** Noting an event of the current epoch is allowed: a pick must be truthful, a hit fresh, a dropped name absent. */
  lemma NoteRely(cfg: Config, s: Node, e: Event)
    requires Inv(cfg, s) && e.epoch == s.epoch && Absent(s.near, e)
    requires e.Picked? ==> e.owner == cfg.ownerAt(e.epoch, e.key)
    requires e.Hit? ==> FreshHit(cfg, s.log, e.name, e.value, e.at)
    ensures Rely(cfg, s, Note(s, e))
  {
    NoteNearOk(cfg, s.near, s.log, e);
    NoteLogOk(cfg, s.log, e);
    NoteHitsOk(cfg, s.log, e);
  }

  lemma HitIsFresh(cfg: Config, s: Node, name: string)
    requires Inv(cfg, s) && S.Get(cfg.store, s.near, name, s.clock).Some?
    ensures FreshHit(cfg, s.log, name, S.Get(cfg.store, s.near, name, s.clock).value, s.clock)
  {
    var i := cfg.store.Index(name);
    var v := S.Get(cfg.store, s.near, name, s.clock).value;
    assert M.Entry(name, v) in s.near[i].list;
    var d := R.Deadline(s.near[i], name);
    assert HasOrigin(cfg, s.log, name, v, d);
    var o :| OriginOk(cfg, s.log, name, v, d, o);
    assert OriginOk(cfg, s.log, name, v, Some(d.value), o);
  }

  // ---- Single accesses ----------------------------------------------------------

  function Note(s: Node, e: Event): Node {
    s.(log := s.log + [e])
  }

  function Tick(cfg: Config, env: Env, s: Node): (r: Node)
    requires Inv(cfg, s) && EnvOk(cfg, env)
    ensures Rely(cfg, s, r)
    ensures r.tick == s.tick + 1
  {
    env.step(s.tick, s).(tick := s.tick + 1)
  }

  /** PickOwner. */
  function Pick(cfg: Config, env: Env, s: Node, key: string): (r: (Node, string))
    requires Inv(cfg, s) && EnvOk(cfg, env)
    ensures Rely(cfg, s, r.0)
    ensures |s.log| < |r.0.log| && r.0.log[|r.0.log| - 1] == Picked(key, r.1, r.0.epoch)
    ensures r.0.tick == s.tick + 1
  {
    var n := Tick(cfg, env, s);
    var owner := cfg.ownerAt(n.epoch, key);
    NoteRely(cfg, n, Picked(key, owner, n.epoch));
    (Note(n, Picked(key, owner, n.epoch)), owner)
  }

  /** An owner-side operation that this node carried out or had carried out. */
  function Answer(cfg: Config, env: Env, s: Node, kind: Kind, key: string, owner: string, value: Bytes): (r: Node)
    requires Inv(cfg, s) && EnvOk(cfg, env)
    ensures Rely(cfg, s, r)
    ensures |s.log| < |r.log| && r.log[|r.log| - 1] == Answered(kind, key, owner, value, r.epoch)
    ensures r.tick == s.tick + 1
  {
    var n := Tick(cfg, env, s);
    NoteRely(cfg, n, Answered(kind, key, owner, value, n.epoch));
    Note(n, Answered(kind, key, owner, value, n.epoch))
  }

  lemma NearStepRely(cfg: Config, s: Node, op: R.Op)
    requires Inv(cfg, s) && !op.OpSet?
    ensures Rely(cfg, s, s.(near := S.Step(cfg.store, s.near, op)))
  {
    S.StepStoreOk(cfg.store, s.near, op);
    var near := S.Step(cfg.store, s.near, op);
    forall i, x | 0 <= i < |near| && x in near[i].list
      ensures HasOrigin(cfg, s.log, x.key, x.value, R.Deadline(near[i], x.key))
    {
      S.StepEntries(cfg.store, s.near, op, i, x);
    }
  }

  /** A lookup in an open near cache; a hit is noted. */
  function ReadNear(cfg: Config, s: Node, name: string): (Node, Option<Bytes>)
    requires cfg.store.Ok() && |s.near| == cfg.store.count
  {
    var hit := S.Get(cfg.store, s.near, name, s.clock);
    var read := s.(near := S.Step(cfg.store, s.near, R.OpGet(name, s.clock)));
    (if hit.Some? then Note(read, Hit(name, hit.value, s.clock, s.epoch)) else read, hit)
  }

  /** A lookup, and noting its hit, is allowed. */
  lemma ReadRely(cfg: Config, s: Node, name: string)
    requires Inv(cfg, s)
    ensures var (after, hit) := ReadNear(cfg, s, name);
            && Rely(cfg, s, after) && after.tick == s.tick
            && (hit.Some? ==>
                |s.log| < |after.log| && after.log[|after.log| - 1] == Hit(name, hit.value, after.clock, after.epoch))
  {
    hide LogOk, NearOk, HitsOk, S.Step, S.Get, FreshHit;
    var hit := S.Get(cfg.store, s.near, name, s.clock);
    var read := s.(near := S.Step(cfg.store, s.near, R.OpGet(name, s.clock)));
    NearStepRely(cfg, s, R.OpGet(name, s.clock));
    if hit.Some? {
      var e := Hit(name, hit.value, s.clock, s.epoch);
      HitIsFresh(cfg, s, name);
      NoteRely(cfg, read, e);
      RelyTransitive(cfg, s, read, Note(read, e));
    }
  }

  /** nearCache.Get */
  function NearGet(cfg: Config, env: Env, s: Node, name: string): (r: (Node, Option<Bytes>))
    requires Inv(cfg, s) && EnvOk(cfg, env)
    ensures Rely(cfg, s, r.0)
    ensures r.1.Some? ==> |s.log| < |r.0.log| && r.0.log[|r.0.log| - 1] == Hit(name, r.1.value, r.0.clock, r.0.epoch)
    ensures r.0.tick == s.tick + 1
  {
    var n := Tick(cfg, env, s);
    if n.closed then (n, None)
    else
      ReadRely(cfg, n, name);
      RelyTransitive(cfg, s, n, ReadNear(cfg, n, name).0);
      ReadNear(cfg, n, name)
  }

  lemma DropAbsent(cfg: Config, s: Node, name: string)
    requires Inv(cfg, s)
    ensures Absent(S.Step(cfg.store, s.near, R.OpDelete(name)), Dropped(name, s.epoch))
  {
    var near := S.Step(cfg.store, s.near, R.OpDelete(name));
    forall i, x | 0 <= i < |near| && x in near[i].list
      ensures x.key != name
    {
      if cfg.store.Index(name) != i {
        assert S.Placed(cfg.store, s.near[i], i);
      }
    }
  }

  /** nearCache.Delete */
  function NearDrop(cfg: Config, env: Env, s: Node, name: string): (r: Node)
    requires Inv(cfg, s) && EnvOk(cfg, env)
    ensures Rely(cfg, s, r)
    ensures r.closed || (|s.log| < |r.log| && r.log[|r.log| - 1] == Dropped(name, r.epoch))
    ensures r.tick == s.tick + 1
  {
    var n := Tick(cfg, env, s);
    if n.closed then n
    else
      var dropped := n.(near := S.Step(cfg.store, n.near, R.OpDelete(name)));
      NearStepRely(cfg, n, R.OpDelete(name));
      DropAbsent(cfg, n, name);
      NoteRely(cfg, dropped, Dropped(name, n.epoch));
      Note(dropped, Dropped(name, n.epoch))
  }

  /** The store operation of nearCache.AddWithExpiration, for a time to live measured earlier. */
  function Store(cfg: Config, s: Node, name: string, value: Bytes, ttl: int, lag: nat): Node
    requires cfg.store.Ok() && |s.near| == cfg.store.count
  {
    var op := R.OpSet(name, Some(value), ttl, s.clock, s.clock + lag);
    Note(s.(clock := s.clock + lag, near := S.Step(cfg.store, s.near, op)), Stored(name, value, s.clock, s.epoch))
  }

  /** The value was agreed on with the key's remote owner within one epoch. */
  ghost predicate Storable(cfg: Config, log: seq<Event>, key: string, epoch: nat, kind: Kind, value: Bytes) {
    var owner := cfg.ownerAt(epoch, key);
    && owner != cfg.self && owner != "" && kind != KDelete
    && Agreed(log, 0, kind, key, owner, value, epoch)
  }

  lemma StoredOrigin(cfg: Config, s: Node, key: string, epoch: nat, kind: Kind, value: Bytes, ttl: int)
    requires ttl <= cfg.nearTTL && Storable(cfg, s.log, key, epoch, kind, value)
    ensures HasOrigin(cfg, s.log + [Stored(NearKey(epoch, key), value, s.clock, s.epoch)],
                      NearKey(epoch, key), value, Some(s.clock + ttl))
  {
    var log := s.log + [Stored(NearKey(epoch, key), value, s.clock, s.epoch)];
    assert log[..|s.log|] == s.log;
    assert OriginOk(cfg, log, NearKey(epoch, key), value, Some(s.clock + ttl),
                    Origin(key, epoch, cfg.ownerAt(epoch, key), kind, |s.log|));
  }

  /** What a store operation leaves in the near cache has an origin, if what was there had one. */
  lemma StoreEntry(cfg: Config, near: S.State, log: seq<Event>, e: Event, op: R.Op, i: nat, x: M.Entry)
    requires cfg.store.Ok() && S.StoreOk(cfg.store, near) && op.OpSet? && op.value.Some? && 0 < op.ttl
    requires e.Stored? && e.name == op.key
    requires HasOrigin(cfg, log + [e], op.key, op.value.value, Some(op.stamped + op.ttl))
    requires i < |near| && x in S.Step(cfg.store, near, op)[i].list
    requires x in near[i].list ==> HasOrigin(cfg, log, x.key, x.value, R.Deadline(near[i], x.key))
    ensures HasOrigin(cfg, log + [e], x.key, x.value, R.Deadline(S.Step(cfg.store, near, op)[i], x.key))
  {
    hide S.Step, HasOrigin;
    if x.key == op.key {
      S.SetStamps(cfg.store, near, op, i, x);
    } else {
      S.StepEntries(cfg.store, near, op, i, x);
      OriginKept(cfg, log, e, x.key, x.value, R.Deadline(near[i], x.key));
    }
  }

  lemma StoreNearOk(cfg: Config, near: S.State, log: seq<Event>, e: Event, op: R.Op)
    requires cfg.store.Ok() && S.StoreOk(cfg.store, near) && op.OpSet? && op.value.Some? && 0 < op.ttl
    requires e.Stored? && e.name == op.key
    requires HasOrigin(cfg, log + [e], op.key, op.value.value, Some(op.stamped + op.ttl))
    requires NearOk(cfg, near, log)
    ensures NearOk(cfg, S.Step(cfg.store, near, op), log + [e])
  {
    hide S.Step, HasOrigin;
    forall i, x | 0 <= i < |near| && x in S.Step(cfg.store, near, op)[i].list
      ensures HasOrigin(cfg, log + [e], x.key, x.value, R.Deadline(S.Step(cfg.store, near, op)[i], x.key))
    {
      StoreEntry(cfg, near, log, e, op, i, x);
    }
  }

  /** Storing a value that was agreed on with its remote owner is allowed. */
  lemma StoreRely(cfg: Config, s: Node, key: string, epoch: nat, kind: Kind, value: Bytes, ttl: int, lag: nat)
    requires Inv(cfg, s) && 0 < ttl <= cfg.nearTTL && Storable(cfg, s.log, key, epoch, kind, value)
    ensures Rely(cfg, s, Store(cfg, s, NearKey(epoch, key), value, ttl, lag))
  {
    hide S.Step, LogOk, NearOk, HitsOk, HasOrigin, Storable;
    var name := NearKey(epoch, key);
    var op := R.OpSet(name, Some(value), ttl, s.clock, s.clock + lag);
    var e := Stored(name, value, s.clock, s.epoch);
    S.StepStoreOk(cfg.store, s.near, op);
    NoteLogOk(cfg, s.log, e);
    NoteHitsOk(cfg, s.log, e);
    StoredOrigin(cfg, s, key, epoch, kind, value, ttl);
    StoreNearOk(cfg, s.near, s.log, e, op);
    NowRely(cfg, s, S.Step(cfg.store, s.near, op), s.log + [e], s.clock + lag);
  }

  lemma NowRely(cfg: Config, s: Node, near: S.State, log: seq<Event>, clock: int)
    requires cfg.store.Ok() && S.StoreOk(cfg.store, near) && 1 <= s.epoch && s.clock <= clock && Extends(s.log, log)
    requires LogOk(cfg, log, s.epoch) && NearOk(cfg, near, log) && HitsOk(cfg, log)
    ensures Rely(cfg, s, s.(near := near, log := log, clock := clock))
  {
  }

  lemma StorableKept(cfg: Config, log: seq<Event>, more: seq<Event>, key: string, epoch: nat, kind: Kind, value: Bytes)
    requires Storable(cfg, log, key, epoch, kind, value) && Extends(log, more)
    ensures Storable(cfg, more, key, epoch, kind, value)
  {
    AgreedKept(log, more, 0, kind, key, cfg.ownerAt(epoch, key), value, epoch);
  }

  lemma AgreedKept(log: seq<Event>, more: seq<Event>, base: nat, kind: Kind, key: string, owner: string, value: Bytes,
                   epoch: nat)
    requires Agreed(log, base, kind, key, owner, value, epoch) && Extends(log, more)
    ensures Agreed(more, base, kind, key, owner, value, epoch)
  {
    var i: nat, j: nat, l: nat :| base <= i && AgreedAt(log, kind, key, owner, value, epoch, i, j, l);
    assert AgreedAt(more, kind, key, owner, value, epoch, i, j, l);
  }

  /**
   nearCache.AddWithExpiration(nearKey, value, now + nearTTL): the deadline
   becomes a time to live and then a deadline again.
   */
  function NearPut(cfg: Config, env: Env, s: Node, key: string, epoch: nat, ghost kind: Kind, value: Bytes): (r: Node)
    requires Inv(cfg, s) && EnvOk(cfg, env) && Storable(cfg, s.log, key, epoch, kind, value)
    ensures Rely(cfg, s, r)
    ensures r.tick <= s.tick + 3
  {
    var a := Tick(cfg, env, s);
    var b := Tick(cfg, env, a);
    var ttl := a.clock + cfg.nearTTL - b.clock;
    if b.closed || ttl <= 0 then b
    else
      var c := Tick(cfg, env, b);
      StorableKept(cfg, s.log, c.log, key, epoch, kind, value);
      StoreRely(cfg, c, key, epoch, kind, value, ttl, env.lag(c.tick));
      Store(cfg, c, NearKey(epoch, key), value, ttl, env.lag(c.tick))
  }
}
