/**
 The mutable picker of peers.go: members, ring, clients and epoch updated in
 place, PickOwner, and the snapshot-plus-watch loop that follows etcd.
 */
module Picker {
  import opened Common
  import Ring = RingModel
  import CH = ConsistentHash
  import opened MembershipModel

  /** What the watch loop receives. */
  datatype Input =
    | Response(header: nat, events: seq<Event>, connects: set<string>)
    | Interrupted
    | Snapshot(revision: nat, connects: set<string>)
    | SnapshotFailed

  /** The revision that the loop watches from after an input. */
  function NextRev(rev: nat, input: Input): nat {
    match input
    case Response(header, _, _) => if header >= rev then header + 1 else rev
    case Snapshot(revision, _) => revision + 1
    case Interrupted => rev
    case SnapshotFailed => rev
  }

  /** The input is what etcd delivers to a loop that watches from this revision. */
  ghost predicate Deliverable(log: History, rev: nat, input: Input) {
    match input
    case Response(header, events, _) => 0 < rev && header <= |log| && events == Delivered(log, rev, header)
    case Snapshot(revision, _) => revision <= |log|
    case Interrupted => true
    case SnapshotFailed => true
  }

  ghost predicate Plausible(log: History, rev: nat, inputs: seq<Input>)
    decreases inputs
  {
    inputs == [] || (Deliverable(log, rev, inputs[0]) && Plausible(log, NextRev(rev, inputs[0]), inputs[1..]))
  }

  /** The membership changes that an input stands for. */
  function ChangesBy(self: string, svc: string, log: History, input: Input): seq<Change> {
    match input
    case Response(_, events, connects) => ChangesOf(svc, events, connects)
    case Snapshot(revision, connects) =>
      if revision <= |log| then [Replace({self} + Live(svc, StoreAt(log, revision)), connects)] else []
    case Interrupted => []
    case SnapshotFailed => []
  }

  function AllChanges(self: string, svc: string, log: History, inputs: seq<Input>): seq<Change> {
    if inputs == [] then []
    else
      var n := |inputs| - 1;
      AllChanges(self, svc, log, inputs[..n]) + ChangesBy(self, svc, log, inputs[n])
  }

  class ClientPicker {
    const selfAddr: string
    const svc: string
    const cfg: Ring.Config
    var ring: CH.HashRing
    var members: set<string>
    var clients: set<string>
    var epoch: nat
    var rev: nat

    ghost function Current(): View
      reads this
    {
      View(members, clients, epoch)
    }

    ghost predicate Valid()
      reads this, ring
    {
      && ring.Valid() && ring.cfg == cfg && ring.nodes == members
      && ValidView(selfAddr, Current())
    }

    /** Between responses the members are this node plus the addresses registered at revision `rev - 1`. */
    ghost predicate Tracks(log: History)
      reads this
    {
      0 < rev <= |log| + 1 && members == {selfAddr} + Live(svc, StoreAt(log, rev - 1))
    }

    /** Before the first snapshot: this node alone, epoch 1. */
    constructor (self: string, svc: string, replicas: int, hash: string -> uint32)
      requires self != ""
      ensures Valid() && fresh(ring)
      ensures Current() == View({self}, {}, 1) && rev == 0
      ensures selfAddr == self && this.svc == svc
      ensures cfg == Ring.Config(if replicas > 0 then replicas else 100, hash)
    {
      var r := new CH.HashRing(replicas, hash);
      var _ := r.Add([self]);
      ring := r;
      cfg := r.cfg;
      selfAddr, this.svc := self, svc;
      members, clients, epoch, rev := {self}, {}, 1, 0;
    }

    method ReplaceMembership(desired: set<string>, connects: set<string>)
      requires Valid() && Sane(selfAddr, Replace(desired, connects))
      modifies this`members, this`clients, this`ring, this`epoch
      ensures Valid() && (ring == old(ring) || fresh(ring))
      ensures Current() == Apply(selfAddr, old(Current()), Replace(desired, connects))
    {
      if members == desired {
        return;
      }
      var newRing := new CH.HashRing(cfg.replicas, cfg.hash);
      var newClients := {};
      var pending := desired;
      var names: seq<string> := [];
      while pending != {}
        invariant pending <= desired
        invariant forall a :: a in names <==> a in desired - pending
        invariant newClients == (clients + connects) * (desired - pending - {selfAddr})
        decreases pending
      {
        var addr :| addr in pending;
        names := names + [addr];
        if addr != selfAddr && (addr in clients || addr in connects) {
          newClients := newClients + {addr};
        }
        pending := pending - {addr};
      }
      var _ := newRing.Add(names);
      assert newRing.nodes == desired;
      members, clients, ring, epoch := desired, newClients, newRing, epoch + 1;
    }

    method AddMember(addr: string, connects: set<string>)
      requires Valid()
      modifies this`members, this`clients, this`epoch, ring
      ensures Valid() && ring == old(ring)
      ensures Current() == Apply(selfAddr, old(Current()), Add(addr, connects))
    {
      if addr == "" || addr in members {
        return;
      }
      members := members + {addr};
      var _ := ring.Add([addr]);
      if addr != selfAddr && addr in connects {
        clients := clients + {addr};
      }
      epoch := epoch + 1;
    }

    method RemoveMember(addr: string)
      requires Valid()
      modifies this`members, this`clients, this`epoch, ring
      ensures Valid() && ring == old(ring)
      ensures Current() == Apply(selfAddr, old(Current()), Remove(addr))
    {
      if addr == "" || addr == selfAddr || addr !in members {
        return;
      }
      members := members - {addr};
      var _ := ring.Remove(addr);
      clients := clients - {addr};
      epoch := epoch + 1;
    }

    /** Every key but the empty one has an owner, and it is a function of the members alone. */
    method PickOwner(key: string) returns (owner: string, hasPeer: bool, isSelf: bool, at: nat, ok: bool)
      requires Valid()
      ensures owner == Ring.Owner(cfg, members, key) && at == epoch
      ensures ok <==> key != ""
      ensures ok ==> owner in members && (isSelf <==> owner == selfAddr)
      ensures hasPeer <==> ok && owner in clients
      ensures hasPeer ==> !isSelf
    {
      Ring.OwnerExists(cfg, members, key);
      owner := ring.Get(key);
      if owner == "" {
        return "", false, false, epoch, false;
      }
      if owner == selfAddr {
        return owner, false, true, epoch, true;
      }
      return owner, owner in clients, false, epoch, true;
    }

    /** refreshSnapshot at a given revision. */
    method RefreshSnapshot(log: History, revision: nat, connects: set<string>)
      requires Valid() && revision <= |log| && RegistrationsOnly(svc, log)
      modifies this`members, this`clients, this`ring, this`epoch, this`rev
      ensures Valid() && (ring == old(ring) || fresh(ring))
      ensures Tracks(log) && rev == revision + 1
      ensures var desired := {selfAddr} + Live(svc, StoreAt(log, revision));
              Current() == Apply(selfAddr, old(Current()), Replace(desired, connects))
    {
      StoreRegistered(svc, log, revision);
      var kv := StoreAt(log, revision);
      var desired := {selfAddr};
      var pending := kv.Keys;
      while pending != {}
        invariant pending <= kv.Keys
        invariant desired == {selfAddr} + set k | k in kv.Keys - pending :: ParseAddr(svc, k)
        decreases pending
      {
        var key :| key in pending;
        var addr := kv[key];
        if addr == "" {
          addr := ParseAddr(svc, key);
        }
        if addr != "" {
          desired := desired + {addr};
        }
        assert kv.Keys - (pending - {key}) == kv.Keys - pending + {key};
        pending := pending - {key};
      }
      assert desired == {selfAddr} + Live(svc, kv);
      ReplaceMembership(desired, connects);
      rev := revision + 1;
    }

    /** The events of one watch response, in order. */
    method ApplyEvents(events: seq<Event>, connects: set<string>, ghost kv: Store)
      requires Valid() && Registered(svc, kv) && members == {selfAddr} + Live(svc, kv)
      requires forall e :: e in events ==> Registration(svc, e)
      modifies this`members, this`clients, this`epoch, ring
      ensures Valid() && ring == old(ring)
      ensures members == {selfAddr} + Live(svc, HappenAll(kv, events))
      ensures Current() == Run(selfAddr, old(Current()), ChangesOf(svc, events, connects))
    {
      hide Live, HappenAll;
      ghost var now := kv;
      ghost var changes := ChangesOf(svc, events, connects);
      for i := 0 to |events|
        invariant Valid() && ring == old(ring) && Registered(svc, now)
        invariant members == {selfAddr} + Live(svc, now)
        invariant HappenAll(now, events[i..]) == HappenAll(kv, events)
        invariant Current() == Run(selfAddr, old(Current()), changes[..i])
      {
        assert events[i] in events && changes[..i + 1][..i] == changes[..i];
        EventTracks(selfAddr, svc, now, events[i], Current(), connects);
        OneMore(svc, now, events[i..]);
        assert events[i..][1..] == events[i + 1..];
        match events[i] {
          case Put(key, value) => AddMember(PutAddr(svc, key, value), connects);
          case Delete(key, prev) => RemoveMember(DeleteAddr(svc, key, prev));
        }
        now := Happen(now, events[i]);
      }
      assert changes[..|events|] == changes && events[|events|..] == [];
      NoMore(now);
    }

    /** One successful watch response: its events are applied whatever its header, which may move `rev` on. */
    method HandleResponse(log: History, header: nat, events: seq<Event>, connects: set<string>)
      requires Valid() && Tracks(log) && RegistrationsOnly(svc, log)
      requires header <= |log| && events == Delivered(log, rev, header)
      modifies this`members, this`clients, this`epoch, this`rev, ring
      ensures Valid() && ring == old(ring)
      ensures Tracks(log) && rev == if header >= old(rev) then header + 1 else old(rev)
      ensures Current() == Run(selfAddr, old(Current()), ChangesOf(svc, events, connects))
    {
      hide Live, StoreAt, HappenAll, Flatten;
      DeliveredIsSound(svc, log, rev, header);
      ApplyEvents(events, connects, StoreAt(log, rev - 1));
      if header >= rev {
        rev := header + 1;
      }
    }

    /** One turn of the loop of watchServiceChanges. */
    method Receive(log: History, input: Input)
      requires Valid() && Tracks(log) && RegistrationsOnly(svc, log) && Deliverable(log, rev, input)
      modifies this`members, this`clients, this`epoch, this`rev, this`ring, ring
      ensures Valid() && Tracks(log) && (ring == old(ring) || fresh(ring))
      ensures rev == NextRev(old(rev), input)
      ensures Current() == Run(selfAddr, old(Current()), ChangesBy(selfAddr, svc, log, input))
    {
      hide Live, StoreAt, Delivered;
      match input {
        case Response(header, events, connects) => HandleResponse(log, header, events, connects);
        case Snapshot(revision, connects) => RefreshSnapshot(log, revision, connects);
        case Interrupted =>
        case SnapshotFailed =>
      }
    }

    /**
     watchServiceChanges: over any run of responses, interruptions, snapshots
     and failed refreshes, the members follow the registry at revision `rev - 1`,
     and members, clients and epoch are those of the changes received, in order.
     */
    method WatchServiceChanges(log: History, inputs: seq<Input>)
      requires Valid() && Tracks(log) && RegistrationsOnly(svc, log) && Plausible(log, rev, inputs)
      modifies this`members, this`clients, this`epoch, this`rev, this`ring, ring
      ensures Valid() && Tracks(log)
      ensures Current() == Run(selfAddr, old(Current()), AllChanges(selfAddr, svc, log, inputs))
    {
      hide Live, StoreAt, ChangesBy, Deliverable, NextRev, Tracks, Run;
      RunNothing(selfAddr, Current());
      for i := 0 to |inputs|
        invariant Valid() && Tracks(log) && Plausible(log, rev, inputs[i..])
        invariant ring == old(ring) || fresh(ring)
        invariant Current() == Run(selfAddr, old(Current()), AllChanges(selfAddr, svc, log, inputs[..i]))
      {
        assert inputs[i..][0] == inputs[i] && inputs[i..][1..] == inputs[i + 1..];
        assert inputs[..i + 1][..i] == inputs[..i];
        Receive(log, inputs[i]);
        RunSplit(selfAddr, old(Current()), AllChanges(selfAddr, svc, log, inputs[..i]),
                 ChangesBy(selfAddr, svc, log, inputs[i]));
      }
      assert inputs[..|inputs|] == inputs;
    }
  }

  /**
   Two pickers that track one revision hold the same members if and only if each
   is itself registered there, or they are pickers of one node: a picker counts
   itself, registered or not.
   */
  lemma MembersAgreeIff(p: ClientPicker, q: ClientPicker, log: History)
    requires p.svc == q.svc && p.Tracks(log) && q.Tracks(log) && p.rev == q.rev
    ensures p.members == q.members <==>
      || p.selfAddr == q.selfAddr
      || (p.selfAddr in Live(p.svc, StoreAt(log, p.rev - 1)) && q.selfAddr in Live(p.svc, StoreAt(log, p.rev - 1)))
  {
    hide Live, StoreAt;
    if p.members == q.members {
      assert p.selfAddr in q.members && q.selfAddr in p.members;
    }
  }

  /**
   Two pickers at the same revision hold the same ring and pick the same owner
   for every key, when both are registered there.
   */
  lemma PickersAgree(p: ClientPicker, q: ClientPicker, log: History, key: string)
    requires p.Valid() && q.Valid() && p.cfg == q.cfg && p.svc == q.svc
    requires p.Tracks(log) && q.Tracks(log) && p.rev == q.rev
    requires p.selfAddr in Live(p.svc, StoreAt(log, p.rev - 1))
    requires q.selfAddr in Live(p.svc, StoreAt(log, p.rev - 1))
    ensures p.members == q.members && p.ring.points == q.ring.points
    ensures Ring.Owner(p.cfg, p.members, key) == Ring.Owner(q.cfg, q.members, key)
  {
    MembersAgreeIff(p, q, log);
    Ring.RingIsFunctionOfNodes(p.cfg, p.members, p.ring.points, q.ring.points);
  }
}
