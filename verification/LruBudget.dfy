/**
 What the budget of an LRU store takes away, and what it leaves: each write and
 each cleanup keeps as much as fits, and a store whose entries always fit
 behaves as one without a budget.
 */
module LruBudget {
  import opened Common
  import opened LruModel
  import opened LruRuns

  /** `kept` is the longest most-recent part of `live` that fits the budget. */
  ghost predicate KeepsLongest(live: seq<Entry>, kept: seq<Entry>, maxBytes: int) {
    && |kept| <= |live| && kept == live[|live| - |kept|..]
    && Fits(kept, maxBytes)
    && forall m: nat :: m < |live| - |kept| ==> !Fits(live[m..], maxBytes)
  }

  /** The state that a Set asks for: the new entry most recent, in place of the old one, with its own deadline. */
  function Asked(st: State, op: Op): State
    requires op.OpSet? && op.value.Some?
  {
    State(Without(st.list, {op.key}) + [Entry(op.key, op.value.value)],
          if op.ttl > 0 then st.expires[op.key := op.stamped + op.ttl] else st.expires - {op.key})
  }

  /** A Set keeps, of what it asks for, the longest most-recent unexpired part that fits the budget. */
  lemma SetKeepsLongest(st: State, op: Op, maxBytes: int)
    requires Valid(st) && op.OpSet? && op.value.Some?
    ensures KeepsLongest(Live(Asked(st, op), op.now), Step(st, op, maxBytes).list, maxBytes)
  {
    WrittenValid(st, op.key, op.value.value, op.ttl, op.stamped);
    var n := EvictKeepsLongest(Asked(st, op), maxBytes, op.now);
  }

  /** So does a cleanup, of what is there. */
  lemma CleanupKeepsLongest(st: State, now: int, maxBytes: int)
    requires Valid(st)
    ensures KeepsLongest(Live(st, now), Step(st, OpCleanup(now), maxBytes).list, maxBytes)
  {
    var n := EvictKeepsLongest(st, maxBytes, now);
  }

  /** A written entry stays if and only if it fits the budget by itself and has not expired by the eviction pass. */
  lemma SetStaysIff(st: State, op: Op, maxBytes: int)
    requires Valid(st) && op.OpSet? && op.value.Some?
    ensures Entry(op.key, op.value.value) in Step(st, op, maxBytes).list <==>
      && (maxBytes <= 0 || |op.key| + |op.value.value| <= maxBytes)
      && (op.ttl <= 0 || op.now < op.stamped + op.ttl)
  {
    hide Step;
    SetKeepsLongest(st, op, maxBytes);
    var e := Entry(op.key, op.value.value);
    var live, kept := Live(Asked(st, op), op.now), Step(st, op, maxBytes).list;
    if Expired(Asked(st, op), op.key, op.now) {
      assert e !in live;
    } else {
      NewestIsLast(st, op);
      assert live[|live| - 1..] == [e];
      if kept == [] {
        assert !Fits(live[|live| - 1..], maxBytes);
      } else {
        assert kept[|kept| - 1] == e;
        assert kept == kept[..|kept| - 1] + [e];
        TotalAppend(kept[..|kept| - 1], [e]);
      }
    }
  }

  lemma NewestIsLast(st: State, op: Op)
    requires op.OpSet? && op.value.Some? && !Expired(Asked(st, op), op.key, op.now)
    ensures var live := Live(Asked(st, op), op.now);
            live != [] && live[|live| - 1] == Entry(op.key, op.value.value)
  {
    WithoutAppend(Without(st.list, {op.key}), [Entry(op.key, op.value.value)], ExpiredKeys(Asked(st, op), op.now));
  }

  /** A Get that finds its entry expired frees it and exactly its bytes. */
  lemma ExpiredGetFrees(st: State, e: Entry, now: int)
    requires Valid(st) && e in st.list && Expired(st, e.key, now)
    ensures var (after, hit) := Get(st, e.key, now);
            && hit.None? && e.key !in Keys(after.list) && e.key !in after.expires
            && Total(after.list) + Size(e) == Total(st.list)
  {
    LookupUnique(st.list, e);
    PromoteTotal(st.list, e);
    TotalAppend(Without(st.list, {e.key}), [e]);
  }

  // ---- A budget that is never exceeded ---------------------------------------------------

  /** Nothing that the run stores without a budget ever exceeds this one. */
  ghost predicate Roomy(ops: seq<Op>, maxBytes: int) {
    forall i :: 0 <= i <= |ops| ==> Fits(Run(ops[..i], 0).list, maxBytes)
  }

  /** After every part of the run the store is as without a budget. */
  ghost predicate Unaffected(ops: seq<Op>, maxBytes: int) {
    forall i :: 0 <= i <= |ops| ==> Run(ops[..i], maxBytes) == Run(ops[..i], 0)
  }

  lemma EvictWithRoom(st: State, maxBytes: int, now: int)
    requires Fits(Evict(st, 0, now).list, maxBytes)
    ensures Evict(st, maxBytes, now) == Evict(st, 0, now)
  {
  }

  lemma StepWithRoom(st: State, op: Op, maxBytes: int)
    requires Fits(Step(st, op, 0).list, maxBytes)
    ensures Step(st, op, maxBytes) == Step(st, op, 0)
  {
    if op.OpSet? && op.value.Some? {
      EvictWithRoom(Written(st, op.key, op.value.value, op.ttl, op.stamped), maxBytes, op.now);
    } else if op.OpCleanup? {
      EvictWithRoom(st, maxBytes, op.now);
    }
  }

  lemma {:induction false} RoomyRun(ops: seq<Op>, maxBytes: int)
    requires Roomy(ops, maxBytes)
    ensures Run(ops, maxBytes) == Run(ops, 0)
  {
    if ops != [] {
      var earlier := ops[..|ops| - 1];
      forall i | 0 <= i <= |earlier|
        ensures Fits(Run(earlier[..i], 0).list, maxBytes)
      {
        assert earlier[..i] == ops[..i];
      }
      RoomyRun(earlier, maxBytes);
      assert ops[..|ops|] == ops;
      StepWithRoom(Run(earlier, 0), ops[|ops| - 1], maxBytes);
    }
  }

  /**
   A budget leaves every state of a run as it is without one if and only if what
   is stored without one always fits.
   */
  lemma UnaffectedIffRoomy(ops: seq<Op>, maxBytes: int)
    ensures Unaffected(ops, maxBytes) <==> Roomy(ops, maxBytes)
  {
    if Roomy(ops, maxBytes) {
      forall i | 0 <= i <= |ops|
        ensures Run(ops[..i], maxBytes) == Run(ops[..i], 0)
      {
        RoomyPrefix(ops, maxBytes, i);
        RoomyRun(ops[..i], maxBytes);
      }
    }
    if Unaffected(ops, maxBytes) {
      forall i | 0 <= i <= |ops|
        ensures Fits(Run(ops[..i], 0).list, maxBytes)
      {
        assert Run(ops[..i], maxBytes) == Run(ops[..i], 0);
        RunValid(ops[..i], maxBytes);
      }
    }
  }

  lemma RoomyPrefix(ops: seq<Op>, maxBytes: int, n: nat)
    requires Roomy(ops, maxBytes) && n <= |ops|
    ensures Roomy(ops[..n], maxBytes)
  {
    forall i | 0 <= i <= n
      ensures Fits(Run(ops[..n][..i], 0).list, maxBytes)
    {
      assert ops[..n][..i] == ops[..i];
    }
  }

  /** Then, under a clock that never goes back, Get equals the ideal timed map under any budget. */
  lemma RoomyIsExact(ops: seq<Op>, maxBytes: int, key: string, now: int)
    requires Roomy(ops, maxBytes) && Clocked(ops, now)
    ensures Get(Run(ops, maxBytes), key, now).1 == LiveValue(LastWrite(ops, key), now)
  {
    RoomyRun(ops, maxBytes);
    UnlimitedIsExact(ops, 0, key, now);
  }
}
