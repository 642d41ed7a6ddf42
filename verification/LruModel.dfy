/**
 The byte-bounded LRU of store/lru.go as functions on values: the recency list
 (least recent first) with the expiry table, and one function per operation.
 Clock readings are parameters. The class LruCache is proved against these
 functions.
 */
module LruModel {
  import opened Common

  datatype Entry = Entry(key: string, value: Bytes)

  datatype State = State(list: seq<Entry>, expires: map<string, int>)

  const EMPTY := State([], map[])

  function Size(e: Entry): nat {
    |e.key| + |e.value|
  }

  function Total(list: seq<Entry>): nat {
    if list == [] then 0 else Size(list[0]) + Total(list[1..])
  }

  /** A budget that is not positive means no limit. */
  predicate Fits(list: seq<Entry>, maxBytes: int) {
    maxBytes <= 0 || Total(list) <= maxBytes
  }

  function Keys(list: seq<Entry>): set<string> {
    set e | e in list :: e.key
  }

  /** The list without the entries whose key is in `gone`, in the same order. */
  function Without(list: seq<Entry>, gone: set<string>): (r: seq<Entry>)
    ensures |r| <= |list|
    ensures list != [] && list[0].key in gone ==> |r| < |list|
    ensures forall e :: e in r <==> e in list && e.key !in gone
  {
    if list == [] then []
    else if list[0].key in gone then Without(list[1..], gone)
    else [list[0]] + Without(list[1..], gone)
  }

  function Lookup(list: seq<Entry>, key: string): (r: Option<Bytes>)
    ensures r.Some? ==> Entry(key, r.value) in list
    ensures r.None? <==> key !in Keys(list)
  {
    if list == [] then None
    else if list[0].key == key then Some(list[0].value)
    else Lookup(list[1..], key)
  }

  predicate Distinct(list: seq<Entry>) {
    forall i, j :: 0 <= i < j < |list| ==> list[i].key != list[j].key
  }

  ghost predicate Valid(st: State) {
    && Distinct(st.list)
    && st.expires.Keys <= Keys(st.list)
  }

  predicate Expired(st: State, key: string, now: int) {
    key in st.expires && st.expires[key] <= now
  }

  function Drop(st: State, gone: set<string>): State {
    State(Without(st.list, gone), st.expires - gone)
  }

  function ExpiredKeys(st: State, now: int): set<string> {
    set k | k in st.expires && st.expires[k] <= now
  }

  function DropExpired(st: State, now: int): State {
    Drop(st, ExpiredKeys(st, now))
  }

  /** Removes the least recent entry for as long as the budget is exceeded. */
  function Trim(st: State, maxBytes: int): State
    decreases |st.list|
  {
    if Fits(st.list, maxBytes) || st.list == [] then st
    else Trim(Drop(st, {st.list[0].key}), maxBytes)
  }

  function Evict(st: State, maxBytes: int, now: int): State {
    Trim(DropExpired(st, now), maxBytes)
  }

  function Promote(st: State, key: string, value: Bytes): State {
    State(Without(st.list, {key}) + [Entry(key, value)], st.expires)
  }

  function Get(st: State, key: string, now: int): (State, Option<Bytes>) {
    match Lookup(st.list, key)
    case None => (st, None)
    case Some(v) =>
      if Expired(st, key, now) then (Drop(st, {key}), None)
      else (Promote(st, key, v), Some(v))
  }

  function Delete(st: State, key: string): State {
    Drop(st, {key})
  }

  /** The write itself: new deadline, new value, most recent position. */
  function Written(st: State, key: string, value: Bytes, ttl: int, stamped: int): State {
    var expires := if ttl > 0 then st.expires[key := stamped + ttl] else st.expires - {key};
    Promote(State(st.list, expires), key, value)
  }

  /** `stamped` is the clock when the deadline is computed, `now` the later reading of the eviction pass. */
  function Put(st: State, key: string, value: Bytes, ttl: int, stamped: int, now: int, maxBytes: int): State {
    Evict(Written(st, key, value, ttl, stamped), maxBytes, now)
  }

  /** SetWithExpiration: a nil value deletes the key. */
  function Set(st: State, key: string, value: Option<Bytes>, ttl: int, stamped: int, now: int, maxBytes: int): State {
    match value
    case None => Delete(st, key)
    case Some(v) => Put(st, key, v, ttl, stamped, now, maxBytes)
  }

  // ---- Facts about lists -------------------------------------------------

  lemma KeysSplit(a: seq<Entry>, b: seq<Entry>)
    ensures Keys(a + b) == Keys(a) + Keys(b)
  {
  }

  lemma {:induction false} WithoutNothing(list: seq<Entry>, gone: set<string>)
    requires Keys(list) !! gone
    ensures Without(list, gone) == list
  {
    if list != [] {
      assert list == [list[0]] + list[1..];
      KeysSplit([list[0]], list[1..]);
      assert list[0] in list;
      WithoutNothing(list[1..], gone);
    }
  }

  lemma {:induction false} WithoutAppend(a: seq<Entry>, b: seq<Entry>, gone: set<string>)
    ensures Without(a + b, gone) == Without(a, gone) + Without(b, gone)
  {
    if a == [] {
      assert a + b == b;
    } else {
      assert (a + b)[1..] == a[1..] + b;
      WithoutAppend(a[1..], b, gone);
    }
  }

  lemma {:induction false} WithoutTwice(list: seq<Entry>, x: set<string>, y: set<string>)
    ensures Without(Without(list, x), y) == Without(list, x + y)
  {
    if list != [] {
      WithoutTwice(list[1..], x, y);
      if list[0].key !in x {
        assert Without(list, x)[1..] == Without(list[1..], x);
      }
    }
  }

  lemma {:induction false} TotalAppend(a: seq<Entry>, b: seq<Entry>)
    ensures Total(a + b) == Total(a) + Total(b)
  {
    if a == [] {
      assert a + b == b;
    } else {
      assert (a + b)[1..] == a[1..] + b;
      TotalAppend(a[1..], b);
    }
  }

  lemma {:induction false} WithoutDistinct(list: seq<Entry>, gone: set<string>)
    requires Distinct(list)
    ensures Distinct(Without(list, gone))
  {
    if list != [] {
      WithoutDistinct(list[1..], gone);
      var rest := Without(list[1..], gone);
      forall e | e in rest
        ensures e.key != list[0].key
      {
        assert e in list[1..];
      }
    }
  }

  lemma {:induction false} LookupUnique(list: seq<Entry>, e: Entry)
    requires Distinct(list) && e in list
    ensures Lookup(list, e.key) == Some(e.value)
  {
  }

  lemma DropValid(st: State, gone: set<string>)
    requires Valid(st)
    ensures Valid(Drop(st, gone))
  {
    WithoutDistinct(st.list, gone);
    forall k | k in (st.expires - gone)
      ensures k in Keys(Without(st.list, gone))
    {
      var e :| e in st.list && e.key == k;
      assert e in Without(st.list, gone);
    }
  }

  lemma DropTwice(st: State, x: set<string>, y: set<string>)
    ensures Drop(Drop(st, x), y) == Drop(st, x + y)
  {
    WithoutTwice(st.list, x, y);
    assert st.expires - x - y == st.expires - (x + y);
  }

  lemma DropFront(st: State)
    requires Valid(st) && st.list != []
    ensures Drop(st, {st.list[0].key}) == State(st.list[1..], st.expires - {st.list[0].key})
  {
    WithoutNothing(st.list[1..], {st.list[0].key});
  }

  lemma PromoteValid(st: State, key: string, value: Bytes)
    requires Distinct(st.list) && st.expires.Keys <= Keys(st.list) + {key}
    ensures Valid(Promote(st, key, value))
  {
    WithoutDistinct(st.list, {key});
    var kept := Without(st.list, {key});
    KeysSplit(kept, [Entry(key, value)]);
    forall k | k in st.expires.Keys
      ensures k in Keys(kept + [Entry(key, value)])
    {
      if k == key {
        assert Entry(key, value) in kept + [Entry(key, value)];
      } else {
        var e :| e in st.list && e.key == k;
        assert e in kept;
      }
    }
  }

  // ---- Trimming ----------------------------------------------------------

  /** How many of the oldest entries one capacity pass removes. */
  ghost function Cut(list: seq<Entry>, maxBytes: int): (n: nat)
    ensures n <= |list|
  {
    if Fits(list, maxBytes) || list == [] then 0 else 1 + Cut(list[1..], maxBytes)
  }

  /** The entries kept by a capacity pass are the longest most-recent suffix that fits. */
  lemma {:induction false} CutLongest(list: seq<Entry>, maxBytes: int)
    ensures Fits(list[Cut(list, maxBytes)..], maxBytes)
    ensures forall m: nat :: m < Cut(list, maxBytes) ==> !Fits(list[m..], maxBytes)
  {
    assert list[0..] == list;
    if Fits(list, maxBytes) || list == [] {
    } else {
      CutLongest(list[1..], maxBytes);
      var n := Cut(list[1..], maxBytes);
      assert list[1..][n..] == list[n + 1..];
      forall m: nat | 0 < m < n + 1
        ensures !Fits(list[m..], maxBytes)
      {
        assert list[m..] == list[1..][m - 1..];
      }
    }
  }

  lemma CutFront(list: seq<Entry>, expires: map<string, int>, n: nat)
    requires n < |list|
    ensures list[1..][n..] == list[n + 1..]
    ensures expires - {list[0].key} - Keys(list[1..][..n]) == expires - Keys(list[..n + 1])
  {
  }

  /** Trimming removes exactly that prefix, with its deadlines, and keeps the state well formed. */
  lemma {:induction false} TrimIsCut(st: State, maxBytes: int)
    requires Valid(st)
    ensures Valid(Trim(st, maxBytes))
    ensures Trim(st, maxBytes) ==
      State(st.list[Cut(st.list, maxBytes)..], st.expires - Keys(st.list[..Cut(st.list, maxBytes)]))
    decreases |st.list|
  {
    if Fits(st.list, maxBytes) || st.list == [] {
      assert st.list[0..] == st.list;
      assert st.expires - Keys(st.list[..0]) == st.expires;
    } else {
      var front := st.list[0].key;
      DropFront(st);
      DropValid(st, {front});
      TrimIsCut(State(st.list[1..], st.expires - {front}), maxBytes);
      CutFront(st.list, st.expires, Cut(st.list[1..], maxBytes));
    }
  }

  lemma EvictValid(st: State, maxBytes: int, now: int)
    requires Valid(st)
    ensures Valid(Evict(st, maxBytes, now))
    ensures Fits(Evict(st, maxBytes, now).list, maxBytes)
  {
    DropValid(st, ExpiredKeys(st, now));
    var live := DropExpired(st, now);
    TrimIsCut(live, maxBytes);
    CutLongest(live.list, maxBytes);
  }

  /** The entries that have not expired, in their order. */
  function Live(st: State, now: int): (r: seq<Entry>)
    ensures forall e :: e in r <==> e in st.list && !Expired(st, e.key, now)
  {
    Without(st.list, ExpiredKeys(st, now))
  }

  /**
   What an eviction pass keeps: of the entries that have not expired, the
   longest run of most recent ones that fits the budget. `n` is how many it
   removes for lack of room.
   */
  lemma EvictKeepsLongest(st: State, maxBytes: int, now: int) returns (n: nat)
    requires Valid(st)
    ensures n <= |Live(st, now)| && Evict(st, maxBytes, now).list == Live(st, now)[n..]
    ensures Fits(Live(st, now)[n..], maxBytes)
    ensures forall m: nat :: m < n ==> !Fits(Live(st, now)[m..], maxBytes)
  {
    DropValid(st, ExpiredKeys(st, now));
    n := Cut(Live(st, now), maxBytes);
    TrimIsCut(DropExpired(st, now), maxBytes);
    CutLongest(Live(st, now), maxBytes);
  }
}
