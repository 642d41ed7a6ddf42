/**
 Membership as peers.go maintains it, on values: the effect of each membership
 change on members, peer clients and epoch, and the etcd history that the
 changes replay.
 */
module MembershipModel {
  import opened Common

  /** What a picker publishes, apart from the ring that follows from the members. */
  datatype View = View(members: set<string>, clients: set<string>, epoch: nat)

  /** One membership change; `connects` lists the addresses to which a client can be created. */
  datatype Change =
    | Replace(desired: set<string>, connects: set<string>)
    | Add(addr: string, connects: set<string>)
    | Remove(addr: string)

  function Apply(self: string, v: View, c: Change): View {
    match c
    case Replace(desired, connects) =>
      if v.members == desired then v
      else View(desired, (v.clients + connects) * (desired - {self}), v.epoch + 1)
    case Add(addr, connects) =>
      if addr == "" || addr in v.members then v
      else
        var clients := if addr in connects && addr != self then v.clients + {addr} else v.clients;
        View(v.members + {addr}, clients, v.epoch + 1)
    case Remove(addr) =>
      if addr == "" || addr == self || addr !in v.members then v
      else View(v.members - {addr}, v.clients - {addr}, v.epoch + 1)
  }

  /** Snapshots always contain this node and never an empty address. */
  predicate Sane(self: string, c: Change) {
    c.Replace? ==> self in c.desired && "" !in c.desired
  }

  predicate ValidView(self: string, v: View) {
    self in v.members && "" !in v.members && v.clients <= v.members - {self}
  }

  function Run(self: string, v: View, changes: seq<Change>): View {
    if changes == [] then v
    else Apply(self, Run(self, v, changes[..|changes| - 1]), changes[|changes| - 1])
  }

  lemma RunNothing(self: string, v: View)
    ensures Run(self, v, []) == v
  {
  }

  /** A change keeps the view valid, and the epoch rises exactly when the members change. */
  lemma ApplyKeepsView(self: string, v: View, c: Change)
    requires ValidView(self, v) && Sane(self, c)
    ensures ValidView(self, Apply(self, v, c))
    ensures Apply(self, v, c).epoch == if Apply(self, v, c).members == v.members then v.epoch else v.epoch + 1
  {
  }

  lemma {:induction false} RunKeepsView(self: string, v: View, changes: seq<Change>)
    requires ValidView(self, v) && forall i :: 0 <= i < |changes| ==> Sane(self, changes[i])
    ensures ValidView(self, Run(self, v, changes))
    ensures Run(self, v, changes).epoch >= v.epoch
    ensures Run(self, v, changes).epoch == v.epoch ==> Run(self, v, changes).members == v.members
  {
    if changes != [] {
      var earlier := changes[..|changes| - 1];
      RunKeepsView(self, v, earlier);
      ApplyKeepsView(self, Run(self, v, earlier), changes[|changes| - 1]);
    }
  }

  lemma {:induction false} RunSplit(self: string, v: View, a: seq<Change>, b: seq<Change>)
    ensures Run(self, v, a + b) == Run(self, Run(self, v, a), b)
  {
    if b == [] {
      assert a + b == a;
    } else {
      RunSplit(self, v, a, b[..|b| - 1]);
      assert (a + b)[..|a + b| - 1] == a + b[..|b| - 1];
    }
  }

  /** Within one run, two moments with the same epoch have the same members. */
  lemma EpochIdentifiesMembers(self: string, v: View, changes: seq<Change>, i: nat, j: nat)
    requires ValidView(self, v) && forall k :: 0 <= k < |changes| ==> Sane(self, changes[k])
    requires i <= j <= |changes|
    requires Run(self, v, changes[..i]).epoch == Run(self, v, changes[..j]).epoch
    ensures Run(self, v, changes[..i]).members == Run(self, v, changes[..j]).members
  {
    RunKeepsView(self, v, changes[..i]);
    RunSplit(self, v, changes[..i], changes[i..j]);
    assert changes[..i] + changes[i..j] == changes[..j];
    RunKeepsView(self, Run(self, v, changes[..i]), changes[i..j]);
  }

  // ---- Clients ----------------------------------------------------------------------------

  /** The change brings a client for the address, if it has none: the address joins or is in a changed snapshot. */
  predicate Offers(self: string, v: View, c: Change, addr: string) {
    match c
    case Replace(desired, connects) => v.members != desired && addr in desired && addr in connects
    case Add(joining, connects) => addr == joining != "" && addr !in v.members && addr in connects
    case Remove(_) => false
  }

  /** The address had a client at moment `i`, offered by the change before it, and has been a member ever since. */
  ghost predicate ClientSince(self: string, v: View, changes: seq<Change>, addr: string, i: nat) {
    && i <= |changes|
    && (if i == 0 then addr in v.clients else Offers(self, Run(self, v, changes[..i - 1]), changes[i - 1], addr))
    && forall j :: i <= j <= |changes| ==> addr in Run(self, v, changes[..j]).members
  }

  ghost predicate HasClient(self: string, v: View, changes: seq<Change>, addr: string) {
    addr != self && exists i: nat :: ClientSince(self, v, changes, addr, i)
  }

  lemma ApplyClients(self: string, v: View, c: Change, addr: string)
    requires ValidView(self, v) && addr != self
    ensures addr in Apply(self, v, c).clients <==>
      addr in Apply(self, v, c).members && (addr in v.clients || Offers(self, v, c, addr))
  {
  }

  lemma {:induction false} SinceStep(self: string, v: View, changes: seq<Change>, addr: string, i: nat)
    requires changes != []
    ensures ClientSince(self, v, changes, addr, i) <==>
      && addr in Run(self, v, changes).members
      && (if i == |changes| then Offers(self, Run(self, v, changes[..i - 1]), changes[i - 1], addr)
          else ClientSince(self, v, changes[..|changes| - 1], addr, i))
    ensures ClientSince(self, v, changes[..|changes| - 1], addr, i) ==> i < |changes|
  {
    var earlier := changes[..|changes| - 1];
    hide Run;
    assert forall j :: 0 <= j <= |earlier| ==> changes[..j] == earlier[..j];
    assert changes[..|changes|] == changes;
  }

  /**
   Over every run, an address has a client if and only if it is not this node
   and was offered one at some moment since which it has always been a member.
   */
  lemma {:induction false} ClientsIff(self: string, v: View, changes: seq<Change>, addr: string)
    requires ValidView(self, v) && forall i :: 0 <= i < |changes| ==> Sane(self, changes[i])
    ensures addr in Run(self, v, changes).clients <==> HasClient(self, v, changes, addr)
  {
    hide ClientSince;
    RunKeepsView(self, v, changes);
    if addr != self {
      if changes == [] {
        StartClients(self, v, addr);
      } else {
        var n := |changes|;
        var earlier := changes[..n - 1];
        ClientsIff(self, v, earlier, addr);
        RunKeepsView(self, v, earlier);
        ApplyClients(self, Run(self, v, earlier), changes[n - 1], addr);
        SinceStep(self, v, changes, addr, n);
        if i: nat :| ClientSince(self, v, earlier, addr, i) {
          SinceStep(self, v, changes, addr, i);
        }
        if i: nat :| ClientSince(self, v, changes, addr, i) {
          SinceStep(self, v, changes, addr, i);
        }
      }
    }
  }

  lemma StartClients(self: string, v: View, addr: string)
    requires ValidView(self, v)
    ensures addr in v.clients <==> exists i: nat :: ClientSince(self, v, [], addr, i)
  {
    var none: seq<Change> := [];
    assert none[..0] == none;
    assert ClientSince(self, v, [], addr, 0) <==> addr in v.clients;
  }

  /** A member other than this node has a client if connecting to it succeeded when it last joined. */
  lemma {:induction false} JoinedHasClient(self: string, v: View, changes: seq<Change>, addr: string, i: nat)
    requires ValidView(self, v) && forall k :: 0 <= k < |changes| ==> Sane(self, changes[k])
    requires addr != self && i < |changes| && addr !in Run(self, v, changes[..i]).members
    requires forall j :: i < j <= |changes| ==> addr in Run(self, v, changes[..j]).members
    requires !changes[i].Remove? ==> addr in changes[i].connects
    ensures addr in Run(self, v, changes).clients
  {
    RunKeepsView(self, v, changes[..i]);
    assert changes[..i + 1][..i] == changes[..i];
    assert addr in Run(self, v, changes[..i + 1]).members;
    assert ClientSince(self, v, changes, addr, i + 1);
    ClientsIff(self, v, changes, addr);
  }

  // ---- etcd ---------------------------------------------------------------

  function ServicePrefix(svc: string): string {
    "/services/" + svc + "/"
  }

  function ServiceKey(svc: string, addr: string): string {
    ServicePrefix(svc) + addr
  }

  /** parseAddrFromKey */
  function ParseAddr(svc: string, key: string): string {
    var prefix := ServicePrefix(svc);
    if |key| <= |prefix| || key[..|prefix|] != prefix then "" else key[|prefix|..]
  }

  /** Registration keys and addresses determine each other. */
  lemma ParseRoundTrip(svc: string, addr: string, key: string)
    ensures ParseAddr(svc, ServiceKey(svc, addr)) == addr
    ensures ParseAddr(svc, key) != "" ==> ServiceKey(svc, ParseAddr(svc, key)) == key
  {
  }

  datatype Event =
    | Put(key: string, value: string)
    | Delete(key: string, prev: Option<string>)

  type Store = map<string, string>

  function Happen(kv: Store, e: Event): Store {
    match e
    case Put(key, value) => kv[key := value]
    case Delete(key, _) => kv - {key}
  }

  function HappenAll(kv: Store, events: seq<Event>): Store
    decreases events
  {
    if events == [] then kv else HappenAll(Happen(kv, events[0]), events[1..])
  }

  lemma OneMore(svc: string, kv: Store, events: seq<Event>)
    requires events != []
    ensures HappenAll(kv, events) == HappenAll(Happen(kv, events[0]), events[1..])
    ensures Registered(svc, kv) && Registration(svc, events[0]) ==> Registered(svc, Happen(kv, events[0]))
  {
  }

  lemma NoMore(kv: Store)
    ensures HappenAll(kv, []) == kv
  {
  }

  /** The events of each revision, oldest first; a revision that concerns other keys has none. */
  type History = seq<seq<Event>>

  /** The service's keys after revision `r`. */
  function StoreAt(log: History, r: nat): Store
    requires r <= |log|
  {
    if r == 0 then map[] else HappenAll(StoreAt(log, r - 1), log[r - 1])
  }

  function Flatten(log: History): seq<Event> {
    if log == [] then [] else log[0] + Flatten(log[1..])
  }

  lemma {:induction false} HappenAppend(kv: Store, a: seq<Event>, b: seq<Event>)
    ensures HappenAll(kv, a + b) == HappenAll(HappenAll(kv, a), b)
    decreases a
  {
    if a == [] {
      assert a + b == b;
    } else {
      assert (a + b)[1..] == a[1..] + b;
      HappenAppend(Happen(kv, a[0]), a[1..], b);
    }
  }

  /** Replaying the events of revisions `low + 1` to `high` leads from one store to the other. */
  lemma {:induction false} ReplayReaches(log: History, low: nat, high: nat)
    requires low <= high <= |log|
    ensures HappenAll(StoreAt(log, low), Flatten(log[low..high])) == StoreAt(log, high)
    decreases high - low
  {
    if low < high {
      ReplayReaches(log, low + 1, high);
      assert log[low..high][1..] == log[low + 1..high];
      HappenAppend(StoreAt(log, low), log[low], Flatten(log[low + 1..high]));
    } else {
      assert log[low..high] == [];
    }
  }

  /** What a watch from revision `rev` has delivered when its header says `header`. */
  function Delivered(log: History, rev: nat, header: nat): seq<Event>
    requires 0 < rev && header <= |log|
  {
    if header >= rev then Flatten(log[rev - 1..header]) else []
  }

  /** A key registers the address in its name; its value is that address or empty. */
  predicate Registers(svc: string, key: string, value: string) {
    ParseAddr(svc, key) != "" && (value == "" || value == ParseAddr(svc, key))
  }

  predicate Registration(svc: string, e: Event) {
    match e
    case Put(key, value) => Registers(svc, key, value)
    case Delete(key, _) => ParseAddr(svc, key) != ""
  }

  predicate Registered(svc: string, kv: Store) {
    forall k :: k in kv ==> Registers(svc, k, kv[k])
  }

  ghost predicate RegistrationsOnly(svc: string, log: History) {
    forall r, i :: 0 <= r < |log| && 0 <= i < |log[r]| ==> Registration(svc, log[r][i])
  }

  /** The addresses registered in a store. */
  function Live(svc: string, kv: Store): set<string> {
    set k | k in kv :: ParseAddr(svc, k)
  }

  /** The address a put event stands for. */
  function PutAddr(svc: string, key: string, value: string): string {
    if value != "" then value else ParseAddr(svc, key)
  }

  /** The address a delete event stands for. */
  function DeleteAddr(svc: string, key: string, prev: Option<string>): string {
    var addr := ParseAddr(svc, key);
    if addr == "" && prev.Some? then prev.value else addr
  }

  lemma {:induction false} HappenRegistered(svc: string, kv: Store, events: seq<Event>)
    requires Registered(svc, kv) && forall e :: e in events ==> Registration(svc, e)
    ensures Registered(svc, HappenAll(kv, events))
    decreases events
  {
    if events != [] {
      assert events[0] in events;
      HappenRegistered(svc, Happen(kv, events[0]), events[1..]);
    }
  }

  lemma {:induction false} StoreRegistered(svc: string, log: History, r: nat)
    requires r <= |log| && RegistrationsOnly(svc, log)
    ensures Registered(svc, StoreAt(log, r))
  {
    if r > 0 {
      StoreRegistered(svc, log, r - 1);
      HappenRegistered(svc, StoreAt(log, r - 1), log[r - 1]);
    }
  }

  /** A put adds its address to the live ones, a delete removes its address. */
  lemma HappenLive(svc: string, kv: Store, e: Event)
    requires Registered(svc, kv) && Registration(svc, e)
    ensures e.Put? ==> Live(svc, Happen(kv, e)) == Live(svc, kv) + {PutAddr(svc, e.key, e.value)}
    ensures e.Delete? ==> Live(svc, Happen(kv, e)) == Live(svc, kv) - {DeleteAddr(svc, e.key, e.prev)}
  {
    var after := Happen(kv, e);
    match e
    case Put(key, value) =>
      forall a | a in Live(svc, kv) + {ParseAddr(svc, key)}
        ensures a in Live(svc, after)
      {
        if a == ParseAddr(svc, key) {
          assert key in after;
        } else {
          var k :| k in kv && ParseAddr(svc, k) == a;
          assert k in after;
        }
      }
    case Delete(key, prev) =>
      forall k | k in kv && ParseAddr(svc, k) == ParseAddr(svc, key)
        ensures k == key
      {
        ParseRoundTrip(svc, "", k);
        ParseRoundTrip(svc, "", key);
      }
      forall a | a in Live(svc, kv) - {ParseAddr(svc, key)}
        ensures a in Live(svc, after)
      {
        var k :| k in kv && ParseAddr(svc, k) == a;
        assert k in after;
      }
  }

  lemma {:induction false} FlattenRegistrations(svc: string, log: History, e: Event)
    requires RegistrationsOnly(svc, log) && e in Flatten(log)
    ensures Registration(svc, e)
  {
    if e in log[0] {
    } else {
      assert forall r, i :: 0 <= r < |log[1..]| && 0 <= i < |log[1..][r]| ==> log[1..][r][i] == log[r + 1][i];
      FlattenRegistrations(svc, log[1..], e);
    }
  }

  lemma ReplayIsSound(svc: string, log: History, low: nat, high: nat)
    requires low <= high <= |log| && RegistrationsOnly(svc, log)
    ensures Registered(svc, StoreAt(log, low))
    ensures forall e :: e in Flatten(log[low..high]) ==> Registration(svc, e)
    ensures HappenAll(StoreAt(log, low), Flatten(log[low..high])) == StoreAt(log, high)
  {
    StoreRegistered(svc, log, low);
    ReplayReaches(log, low, high);
    forall e | e in Flatten(log[low..high])
      ensures Registration(svc, e)
    {
      FlattenRegistrations(svc, log[low..high], e);
    }
  }

  lemma DeliveredIsSound(svc: string, log: History, rev: nat, header: nat)
    requires 0 < rev <= |log| + 1 && header <= |log| && RegistrationsOnly(svc, log)
    ensures Registered(svc, StoreAt(log, rev - 1))
    ensures forall e :: e in Delivered(log, rev, header) ==> Registration(svc, e)
    ensures HappenAll(StoreAt(log, rev - 1), Delivered(log, rev, header)) ==
      StoreAt(log, if header >= rev then header else rev - 1)
  {
    hide StoreAt, Flatten, RegistrationsOnly, Registered;
    if header >= rev {
      ReplayIsSound(svc, log, rev - 1, header);
    } else {
      StoreRegistered(svc, log, rev - 1);
    }
  }

  /** The change that the watch loop makes for one event. */
  function ChangeOf(svc: string, e: Event, connects: set<string>): Change {
    match e
    case Put(key, value) => Add(PutAddr(svc, key, value), connects)
    case Delete(key, prev) => Remove(DeleteAddr(svc, key, prev))
  }

  /** The changes that the watch loop makes for the events of one response. */
  function ChangesOf(svc: string, events: seq<Event>, connects: set<string>): (r: seq<Change>)
    ensures |r| == |events| && forall i :: 0 <= i < |r| ==> r[i] == ChangeOf(svc, events[i], connects)
  {
    seq(|events|, i requires 0 <= i < |events| => ChangeOf(svc, events[i], connects))
  }

  /**
   A put adds the address in its value or else in its key, a delete removes the
   one in its key or else in its old value.
   */
  lemma EventMembers(self: string, svc: string, e: Event, v: View, connects: set<string>)
    requires ValidView(self, v)
    ensures var after := Apply(self, v, ChangeOf(svc, e, connects));
            match e
            case Put(key, value) =>
              after.members == v.members + (if value != "" then {value} else {ParseAddr(svc, key)} - {""})
            case Delete(key, prev) =>
              after.members == v.members -
                               (if ParseAddr(svc, key) != "" then {ParseAddr(svc, key)} - {self}
                                else if prev.Some? then {prev.value} - {self} else {})
  {
  }

  /** Replaying one event keeps the members equal to this node plus the registered addresses. */
  lemma EventTracks(self: string, svc: string, kv: Store, e: Event, v: View, connects: set<string>)
    requires Registered(svc, kv) && Registration(svc, e)
    requires v.members == {self} + Live(svc, kv)
    ensures Apply(self, v, ChangeOf(svc, e, connects)).members == {self} + Live(svc, Happen(kv, e))
  {
    HappenLive(svc, kv, e);
  }
}
