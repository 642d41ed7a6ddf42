/**
 The mutable LRU store: a recency list of elements, an index from key to
 element handle, an expiry table and a byte counter, updated step by step as in
 store/lru.go. Each operation is proved against its function in LruModel.
 */
module LruStore {
  import opened Common
  import M = LruModel

  /** An element of the recency list; `id` stands for its address. */
  datatype Element = Element(id: nat, key: string, value: Bytes)

  function Strip(list: seq<Element>): (r: seq<M.Entry>)
    ensures |r| == |list|
    ensures forall i :: 0 <= i < |list| ==> r[i] == M.Entry(list[i].key, list[i].value)
  {
    if list == [] then [] else [M.Entry(list[0].key, list[0].value)] + Strip(list[1..])
  }

  /** The list with the element `id` unlinked. */
  function Unlink(list: seq<Element>, id: nat): (r: seq<Element>)
    ensures forall e :: e in r <==> e in list && e.id != id
  {
    if list == [] then []
    else if list[0].id == id then Unlink(list[1..], id)
    else [list[0]] + Unlink(list[1..], id)
  }

  function Find(list: seq<Element>, id: nat): (e: Element)
    requires HasId(list, id)
    ensures e in list && e.id == id
  {
    if list[0].id == id then list[0]
    else
      assert HasId(list[1..], id);
      Find(list[1..], id)
  }

  /** Handles and keys are unique and correspond to each other. */
  ghost predicate Linked(list: seq<Element>) {
    forall i, j :: 0 <= i < j < |list| ==> list[i].id != list[j].id && list[i].key != list[j].key
  }

  lemma {:induction false} UnlinkLinked(list: seq<Element>, id: nat)
    requires Linked(list)
    ensures Linked(Unlink(list, id))
  {
    if list != [] {
      UnlinkLinked(list[1..], id);
      var rest := Unlink(list[1..], id);
      forall e | e in rest
        ensures e.id != list[0].id && e.key != list[0].key
      {
        assert e in list[1..];
      }
    }
  }

  /** Unlinking a handle is removing its key from the abstract list. */
  lemma {:induction false} StripUnlink(list: seq<Element>, e: Element)
    requires Linked(list) && e in list
    ensures Strip(Unlink(list, e.id)) == M.Without(Strip(list), {e.key})
  {
    assert Strip(list)[1..] == Strip(list[1..]);
    if list[0] == e {
      UnlinkAbsent(list[1..], e.id);
      KeyAbsent(list[1..], e.key);
      M.WithoutNothing(Strip(list[1..]), {e.key});
    } else {
      assert e in list[1..];
      StripUnlink(list[1..], e);
    }
  }

  lemma KeyAbsent(list: seq<Element>, key: string)
    requires forall i :: 0 <= i < |list| ==> list[i].key != key
    ensures forall x :: x in Strip(list) ==> x.key != key
  {
  }

  lemma {:induction false} UnlinkAbsent(list: seq<Element>, id: nat)
    requires forall e :: e in list ==> e.id != id
    ensures Unlink(list, id) == list
  {
    if list != [] {
      UnlinkAbsent(list[1..], id);
    }
  }

  lemma {:induction false} StripAppend(a: seq<Element>, b: seq<Element>)
    ensures Strip(a + b) == Strip(a) + Strip(b)
  {
  }

  lemma StripMember(list: seq<Element>, e: Element)
    requires e in list
    ensures M.Entry(e.key, e.value) in Strip(list)
  {
  }

  /** List and index are in bijection. */
  ghost predicate Indexed(list: seq<Element>, items: map<string, nat>, nextId: nat) {
    && Linked(list)
    && (forall e :: e in list ==> e.id < nextId && e.key in items && items[e.key] == e.id)
    && (forall k :: k in items ==> HasElement(list, k, items[k]))
  }

  ghost predicate HasElement(list: seq<Element>, key: string, id: nat) {
    exists e :: e in list && e.key == key && e.id == id
  }

  predicate HasId(list: seq<Element>, id: nat) {
    exists e :: e in list && e.id == id
  }

  lemma IndexedKeys(list: seq<Element>, items: map<string, nat>, nextId: nat)
    requires Indexed(list, items, nextId)
    ensures M.Keys(Strip(list)) == items.Keys && M.Distinct(Strip(list))
  {
  }

  lemma UnlinkIndexed(list: seq<Element>, items: map<string, nat>, nextId: nat, e: Element)
    requires Indexed(list, items, nextId) && e in list
    ensures Indexed(Unlink(list, e.id), items - {e.key}, nextId)
  {
    UnlinkLinked(list, e.id);
    var rest := Unlink(list, e.id);
    forall x | x in rest
      ensures x.key != e.key
    {
      assert x in list && items[x.key] == x.id;
    }
    forall k | k in items - {e.key}
      ensures HasElement(rest, k, items[k])
    {
      assert HasElement(list, k, items[k]);
      var x :| x in list && x.key == k && x.id == items[k];
      assert items[e.key] == e.id;
      if x.id == e.id {
        LinkedSame(list, x, e);
      }
      assert x in rest;
    }
  }

  lemma LinkedSame(list: seq<Element>, x: Element, y: Element)
    requires Linked(list) && x in list && y in list && (x.id == y.id || x.key == y.key)
    ensures x == y
  {
  }

  lemma AppendIndexed(list: seq<Element>, items: map<string, nat>, nextId: nat, e: Element)
    requires Indexed(list, items, nextId) && e.key !in items && e.id < nextId
    requires forall x :: x in list ==> x.id != e.id
    ensures Indexed(list + [e], items[e.key := e.id], nextId)
  {
  }

  /** What unlinking an element does to the index, the abstract list and the byte count. */
  lemma Unlinked(list: seq<Element>, items: map<string, nat>, nextId: nat, e: Element)
    requires Indexed(list, items, nextId) && e in list
    ensures Indexed(Unlink(list, e.id), items - {e.key}, nextId)
    ensures Strip(Unlink(list, e.id)) == M.Without(Strip(list), {e.key})
    ensures M.Total(Strip(Unlink(list, e.id))) + |e.key| + |e.value| == M.Total(Strip(list))
  {
    UnlinkIndexed(list, items, nextId, e);
    StripUnlink(list, e);
    RemovedBytes(list, e);
  }

  lemma MoveIndexed(list: seq<Element>, items: map<string, nat>, nextId: nat, e: Element, value: Bytes)
    requires Indexed(list, items, nextId) && e in list
    ensures Indexed(Unlink(list, e.id) + [Element(e.id, e.key, value)], items, nextId)
  {
    UnlinkIndexed(list, items, nextId, e);
    AppendIndexed(Unlink(list, e.id), items - {e.key}, nextId, Element(e.id, e.key, value));
    assert (items - {e.key})[e.key := e.id] == items;
  }

  lemma MoveAbstract(list: seq<Element>, items: map<string, nat>, nextId: nat, e: Element, value: Bytes)
    requires Indexed(list, items, nextId) && e in list
    ensures Strip(Unlink(list, e.id) + [Element(e.id, e.key, value)])
         == M.Without(Strip(list), {e.key}) + [M.Entry(e.key, value)]
    ensures M.Total(Strip(Unlink(list, e.id) + [Element(e.id, e.key, value)]))
         == M.Total(Strip(list)) - |e.value| + |value|
  {
    StripUnlink(list, e);
    RemovedBytes(list, e);
    StripAppend(Unlink(list, e.id), [Element(e.id, e.key, value)]);
    M.TotalAppend(Strip(Unlink(list, e.id)), [M.Entry(e.key, value)]);
  }

  class LruCache {
    var list: seq<Element>
    var items: map<string, nat>
    var expires: map<string, int>
    var usedBytes: int
    var nextId: nat
    const maxBytes: int

    /** The abstract state: recency list and deadlines. */
    ghost function Abs(): M.State
      reads this
    {
      M.State(Strip(list), expires)
    }

    /** List and index are in bijection, deadlines belong to indexed keys, and the counter is exact. */
    ghost predicate Valid()
      reads this
    {
      && Indexed(list, items, nextId)
      && expires.Keys <= items.Keys
      && usedBytes == M.Total(Strip(list))
    }

    lemma AbsValid()
      requires Valid()
      ensures M.Valid(Abs())
      ensures M.Keys(Abs().list) == items.Keys
    {
    }

    /** What the index says of a key: its handle leads to the entry that the abstract list holds. */
    lemma Lookup(key: string)
      requires Valid() && key in items
      ensures HasId(list, items[key])
      ensures Find(list, items[key]).key == key
      ensures M.Lookup(Strip(list), key) == Some(Find(list, items[key]).value)
    {
      assert HasElement(list, key, items[key]);
      var x :| x in list && x.key == key && x.id == items[key];
      LinkedSame(list, x, Find(list, items[key]));
      StripMember(list, x);
      IndexedKeys(list, items, nextId);
      M.LookupUnique(Strip(list), M.Entry(key, x.value));
    }

    constructor (maxBytes: int)
      ensures Valid() && Abs() == M.EMPTY && this.maxBytes == maxBytes
    {
      list, items, expires := [], map[], map[];
      usedBytes, nextId := 0, 0;
      this.maxBytes := maxBytes;
    }

    /** removeElement */
    method RemoveElement(id: nat)
      requires Valid() && HasId(list, id)
      modifies this`list, this`items, this`expires, this`usedBytes
      ensures Valid()
      ensures Abs() == M.Drop(old(Abs()), {Find(old(list), id).key})
      ensures items == old(items) - {Find(old(list), id).key}
    {
      hide Indexed, Strip, Unlink, Find, M.Without, M.Total;
      var e := Find(list, id);
      Unlinked(list, items, nextId, e);
      list := Unlink(list, id);
      items := items - {e.key};
      expires := expires - {e.key};
      usedBytes := usedBytes - (|e.key| + |e.value|);
    }

    /** Marks an element most recent, storing `value` in it. */
    method MoveToBack(id: nat, value: Bytes)
      requires Valid() && HasId(list, id)
      modifies this`list, this`usedBytes
      ensures Valid()
      ensures Abs() == M.Promote(old(Abs()), Find(old(list), id).key, value)
    {
      hide Indexed, Strip, Unlink, Find, M.Without, M.Total;
      var e := Find(list, id);
      MoveIndexed(list, items, nextId, e, value);
      MoveAbstract(list, items, nextId, e, value);
      usedBytes := usedBytes + (|value| - |e.value|);
      list := Unlink(list, id) + [Element(id, e.key, value)];
    }

    method Get(key: string, now: int) returns (hit: Option<Bytes>)
      requires Valid()
      modifies this`list, this`items, this`expires, this`usedBytes
      ensures Valid()
      ensures (Abs(), hit) == M.Get(old(Abs()), key, now)
    {
      if key !in items {
        AbsValid();
        return None;
      }
      Lookup(key);
      if key in expires && expires[key] <= now {
        RemoveElement(items[key]);
        return None;
      }
      hit := Some(Find(list, items[key]).value);
      MoveToBack(items[key], hit.value);
    }

    /** GetWithExpiration: the same hit and the time the entry has left, zero when it never expires. */
    method GetWithExpiration(key: string, now: int) returns (hit: Option<Bytes>, left: int)
      requires Valid()
      modifies this`list, this`items, this`expires, this`usedBytes
      ensures Valid()
      ensures (Abs(), hit) == M.Get(old(Abs()), key, now)
      ensures left == if hit.Some? && key in old(expires) then old(expires)[key] - now else 0
      ensures hit.Some? && key in old(expires) ==> left > 0
    {
      var deadline := if key in expires then Some(expires[key]) else None;
      hit := Get(key, now);
      left := if hit.Some? && deadline.Some? then deadline.value - now else 0;
    }

    method Delete(key: string) returns (removed: bool)
      requires Valid()
      modifies this`list, this`items, this`expires, this`usedBytes
      ensures Valid() && Abs() == M.Delete(old(Abs()), key)
      ensures removed <==> key in M.Keys(old(Abs()).list)
    {
      AbsValid();
      removed := key in items;
      if removed {
        Lookup(key);
        RemoveElement(items[key]);
      } else {
        M.WithoutNothing(Strip(list), {key});
        assert expires - {key} == expires;
      }
    }

    method Clear()
      modifies this`list, this`items, this`expires, this`usedBytes
      ensures Valid() && Abs() == M.EMPTY
    {
      list, items, expires, usedBytes := [], map[], map[], 0;
    }

    /** The first loop of evictLocked: every expired entry goes. */
    method DropExpired(now: int)
      requires Valid()
      modifies this`list, this`items, this`expires, this`usedBytes
      ensures Valid() && Abs() == M.DropExpired(old(Abs()), now)
    {
      ghost var start := Abs();
      ghost var gone: set<string> := {};
      var pending := expires;
      M.WithoutNothing(start.list, {});
      assert start.expires - {} == start.expires;
      while pending.Keys != {}
        invariant Valid() && Abs() == M.Drop(start, gone)
        invariant pending.Keys <= start.expires.Keys
        invariant forall k :: k in pending ==> pending[k] == start.expires[k] && k !in gone
        invariant forall k :: k in gone ==> k in start.expires && start.expires[k] <= now
        invariant forall k :: k in start.expires && k !in pending && k !in gone ==> start.expires[k] > now
        decreases pending.Keys
      {
        var key :| key in pending.Keys;
        assert key in expires;
        if pending[key] <= now {
          Lookup(key);
          RemoveElement(items[key]);
          M.DropTwice(start, gone, {key});
          gone := gone + {key};
        }
        pending := pending - {key};
      }
      assert gone == M.ExpiredKeys(start, now);
    }

    /** evictLocked: every expired entry, then the oldest ones while over budget. */
    method EvictLocked(now: int)
      requires Valid()
      modifies this`list, this`items, this`expires, this`usedBytes
      ensures Valid() && Abs() == M.Evict(old(Abs()), maxBytes, now)
    {
      DropExpired(now);
      ghost var start := Abs();
      while maxBytes > 0 && usedBytes > maxBytes && |list| > 0
        invariant Valid()
        invariant M.Trim(Abs(), maxBytes) == M.Trim(start, maxBytes)
        decreases |Abs().list|
      {
        AbsValid();
        FrontHandle(list);
        M.DropFront(Abs());
        RemoveElement(list[0].id);
      }
    }

    /** SetWithExpiration: `stamped` dates the deadline, `now` is the reading of the eviction pass. */
    method SetWithExpiration(key: string, value: Option<Bytes>, ttl: int, stamped: int, now: int)
      requires Valid()
      modifies this`list, this`items, this`expires, this`usedBytes, this`nextId
      ensures Valid()
      ensures Abs() == M.Set(old(Abs()), key, value, ttl, stamped, now, maxBytes)
    {
      if value.None? {
        var _ := Delete(key);
        return;
      }
      if key in items {
        Overwrite(key, value.value, ttl, stamped);
      } else {
        PushBack(key, value.value, ttl, stamped);
      }
      EvictLocked(now);
    }

    /** The branch of SetWithExpiration that updates an element in place. */
    method Overwrite(key: string, value: Bytes, ttl: int, stamped: int)
      requires Valid() && key in items
      modifies this`list, this`expires, this`usedBytes
      ensures Valid() && Abs() == M.Written(old(Abs()), key, value, ttl, stamped)
    {
      Lookup(key);
      if ttl > 0 {
        expires := expires[key := stamped + ttl];
      } else {
        expires := expires - {key};
      }
      MoveToBack(items[key], value);
    }

    /** The branch of SetWithExpiration that creates an element. */
    method PushBack(key: string, value: Bytes, ttl: int, stamped: int)
      requires Valid() && key !in items
      modifies this`list, this`items, this`expires, this`usedBytes, this`nextId
      ensures Valid() && Abs() == M.Written(old(Abs()), key, value, ttl, stamped)
    {
      var e := Element(nextId, key, value);
      AbsValid();
      PushAbstract(list, e);
      AppendIndexed(list, items, nextId + 1, e);
      if ttl > 0 {
        expires := expires[key := stamped + ttl];
      } else {
        expires := expires - {key};
      }
      list := list + [e];
      items := items[key := nextId];
      usedBytes := usedBytes + (|key| + |value|);
      nextId := nextId + 1;
    }
  }

  lemma FrontHandle(list: seq<Element>)
    requires Linked(list) && list != []
    ensures HasId(list, list[0].id) && Find(list, list[0].id) == list[0]
  {
  }

  lemma PushAbstract(list: seq<Element>, e: Element)
    requires e.key !in M.Keys(Strip(list))
    ensures Strip(list + [e]) == M.Without(Strip(list), {e.key}) + [M.Entry(e.key, e.value)]
    ensures M.Total(Strip(list + [e])) == M.Total(Strip(list)) + |e.key| + |e.value|
  {
    M.WithoutNothing(Strip(list), {e.key});
    StripAppend(list, [e]);
    M.TotalAppend(Strip(list), Strip([e]));
  }

  lemma {:induction false} RemovedBytes(list: seq<Element>, e: Element)
    requires Linked(list) && e in list
    ensures M.Total(Strip(Unlink(list, e.id))) + |e.key| + |e.value| == M.Total(Strip(list))
  {
    assert Strip(list)[1..] == Strip(list[1..]);
    if list[0] == e {
      UnlinkAbsent(list[1..], e.id);
    } else {
      assert e in list[1..];
      RemovedBytes(list[1..], e);
      assert Strip(Unlink(list, e.id))[1..] == Strip(Unlink(list[1..], e.id));
    }
  }
}
