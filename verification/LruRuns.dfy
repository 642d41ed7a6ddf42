/**
 Whole runs of one LRU store: what a hit returns, that nothing live is lost
 without a budget, the order of the recency list, and the inclusion property
 between two budgets.
 */
module LruRuns {
  import opened Common
  import opened LruModel

  /** One timed operation. `OpSet` carries both clock readings of SetWithExpiration. */
  datatype Op =
    | OpGet(key: string, now: int)
    | OpSet(key: string, value: Option<Bytes>, ttl: int, stamped: int, now: int)
    | OpDelete(key: string)
    | OpClear
    | OpCleanup(now: int)

  function Step(st: State, op: Op, maxBytes: int): State {
    match op
    case OpGet(key, now) => Get(st, key, now).0
    case OpSet(key, value, ttl, stamped, now) => Set(st, key, value, ttl, stamped, now, maxBytes)
    case OpDelete(key) => Delete(st, key)
    case OpClear => EMPTY
    case OpCleanup(now) => Evict(st, maxBytes, now)
  }

  function Run(ops: seq<Op>, maxBytes: int): State {
    if ops == [] then EMPTY
    else Step(Run(ops[..|ops| - 1], maxBytes), ops[|ops| - 1], maxBytes)
  }

  // ---- Every reachable state is well formed and within budget ------------

  lemma WrittenValid(st: State, key: string, value: Bytes, ttl: int, stamped: int)
    requires Valid(st)
    ensures Valid(Written(st, key, value, ttl, stamped))
  {
    var expires := if ttl > 0 then st.expires[key := stamped + ttl] else st.expires - {key};
    PromoteValid(State(st.list, expires), key, value);
  }

  lemma PutValid(st: State, key: string, value: Bytes, ttl: int, stamped: int, now: int, maxBytes: int)
    requires Valid(st)
    ensures Valid(Put(st, key, value, ttl, stamped, now, maxBytes))
    ensures Fits(Put(st, key, value, ttl, stamped, now, maxBytes).list, maxBytes)
  {
    WrittenValid(st, key, value, ttl, stamped);
    EvictValid(Written(st, key, value, ttl, stamped), maxBytes, now);
  }

  lemma {:induction false} WithoutTotal(list: seq<Entry>, gone: set<string>)
    ensures Total(Without(list, gone)) <= Total(list)
  {
    if list != [] {
      WithoutTotal(list[1..], gone);
      if list[0].key !in gone {
        assert Without(list, gone)[1..] == Without(list[1..], gone);
      }
    }
  }

  lemma {:induction false} PromoteTotal(list: seq<Entry>, e: Entry)
    requires Distinct(list) && e in list
    ensures Total(Without(list, {e.key}) + [e]) == Total(list)
  {
    TotalAppend(Without(list, {e.key}), [e]);
    if list[0] == e {
      WithoutNothing(list[1..], {e.key});
    } else {
      assert e in list[1..];
      PromoteTotal(list[1..], e);
      TotalAppend(Without(list[1..], {e.key}), [e]);
      assert Without(list, {e.key})[1..] == Without(list[1..], {e.key});
    }
  }

  lemma StepValid(st: State, op: Op, maxBytes: int)
    requires Valid(st) && Fits(st.list, maxBytes)
    ensures Valid(Step(st, op, maxBytes)) && Fits(Step(st, op, maxBytes).list, maxBytes)
  {
    match op
    case OpGet(key, now) =>
      WithoutTotal(st.list, {key});
      DropValid(st, {key});
      match Lookup(st.list, key) {
        case None =>
        case Some(v) =>
          PromoteValid(st, key, v);
          PromoteTotal(st.list, Entry(key, v));
      }
    case OpSet(key, value, ttl, stamped, now) =>
      if value.Some? {
        PutValid(st, key, value.value, ttl, stamped, now, maxBytes);
      } else {
        DropValid(st, {key});
        WithoutTotal(st.list, {key});
      }
    case OpDelete(key) =>
      DropValid(st, {key});
      WithoutTotal(st.list, {key});
    case OpClear =>
    case OpCleanup(now) =>
      EvictValid(st, maxBytes, now);
  }

  /** In every reachable state keys are distinct, deadlines belong to stored keys, and the budget holds. */
  lemma {:induction false} RunValid(ops: seq<Op>, maxBytes: int)
    ensures Valid(Run(ops, maxBytes))
    ensures Fits(Run(ops, maxBytes).list, maxBytes)
  {
    if ops != [] {
      RunValid(ops[..|ops| - 1], maxBytes);
      StepValid(Run(ops[..|ops| - 1], maxBytes), ops[|ops| - 1], maxBytes);
    }
  }

  // ---- What a hit returns -------------------------------------------------

  /** The effect of a write, independent of any store. */
  datatype Write = Write(value: Bytes, deadline: Option<int>)

  /** The write to `key` still standing after `ops` in an unbounded store that never expires anything. */
  function LastWrite(ops: seq<Op>, key: string): Option<Write> {
    if ops == [] then None
    else
      var earlier := ops[..|ops| - 1];
      match ops[|ops| - 1]
      case OpSet(k, value, ttl, stamped, _) =>
        if k != key then LastWrite(earlier, key)
        else if value.None? then None
        else Some(Write(value.value, if ttl > 0 then Some(stamped + ttl) else None))
      case OpDelete(k) => if k == key then None else LastWrite(earlier, key)
      case OpClear => None
      case OpGet(_, _) => LastWrite(earlier, key)
      case OpCleanup(_) => LastWrite(earlier, key)
  }

  function LiveValue(w: Option<Write>, now: int): Option<Bytes> {
    match w
    case None => None
    case Some(Write(v, d)) => if d.Some? && d.value <= now then None else Some(v)
  }

  function Deadline(st: State, key: string): Option<int> {
    if key in st.expires then Some(st.expires[key]) else None
  }

  /** Every stored entry is the last write to its key, with the deadline of that write. */
  ghost predicate Faithful(st: State, ops: seq<Op>) {
    forall e :: e in st.list ==> LastWrite(ops, e.key) == Some(Write(e.value, Deadline(st, e.key)))
  }

  /** `a` holds some of the entries of `b`, with the same deadlines. */
  ghost predicate Sub(a: State, b: State) {
    forall e :: e in a.list ==> e in b.list && Deadline(a, e.key) == Deadline(b, e.key)
  }

  lemma EvictSub(st: State, maxBytes: int, now: int)
    requires Valid(st)
    ensures Sub(Evict(st, maxBytes, now), st)
  {
    var live := DropExpired(st, now);
    DropValid(st, ExpiredKeys(st, now));
    TrimIsCut(live, maxBytes);
    var n := Cut(live.list, maxBytes);
    forall e | e in live.list[n..]
      ensures e in st.list && Deadline(Evict(st, maxBytes, now), e.key) == Deadline(st, e.key)
    {
      assert e in live.list;
      CutOffKeys(live.list, n, e);
    }
  }

  lemma CutOffKeys(list: seq<Entry>, n: nat, e: Entry)
    requires Distinct(list) && n <= |list| && e in list[n..]
    ensures e.key !in Keys(list[..n])
  {
  }

  lemma SubFaithful(a: State, b: State, ops: seq<Op>)
    requires Sub(a, b) && Faithful(b, ops)
    ensures Faithful(a, ops)
  {
  }

  lemma WrittenFaithful(st: State, ops: seq<Op>, op: Op)
    requires op.OpSet? && op.value.Some? && Faithful(st, ops)
    ensures Faithful(Written(st, op.key, op.value.value, op.ttl, op.stamped), ops + [op])
  {
  }

  lemma DropFaithful(st: State, ops: seq<Op>, op: Op)
    requires op.OpDelete? || (op.OpSet? && op.value.None?)
    requires Faithful(st, ops)
    ensures Faithful(Drop(st, {op.key}), ops + [op])
  {
  }

  lemma GetSub(st: State, key: string, now: int)
    ensures Sub(Get(st, key, now).0, st)
  {
  }

  /** The entry is what the operation wrote, with the deadline it asked for. */
  predicate Wrote(op: Op, e: Entry, deadline: Option<int>) {
    && op.OpSet? && op.key == e.key && op.value == Some(e.value)
    && deadline == if op.ttl > 0 then Some(op.stamped + op.ttl) else None
  }

  /** What a step leaves was there before with the same deadline, or is what it wrote. */
  lemma StepEntries(st: State, op: Op, maxBytes: int, e: Entry)
    requires Valid(st) && e in Step(st, op, maxBytes).list
    ensures || (e in st.list && Deadline(Step(st, op, maxBytes), e.key) == Deadline(st, e.key))
            || Wrote(op, e, Deadline(Step(st, op, maxBytes), e.key))
  {
    if op.OpGet? {
      GetSub(st, op.key, op.now);
    } else if op.OpCleanup? {
      EvictSub(st, maxBytes, op.now);
    } else if op.OpSet? && op.value.Some? {
      PutEntries(st, op, maxBytes, e);
    }
  }

  lemma PutEntries(st: State, op: Op, maxBytes: int, e: Entry)
    requires Valid(st) && op.OpSet? && op.value.Some? && e in Step(st, op, maxBytes).list
    ensures || (e in st.list && Deadline(Step(st, op, maxBytes), e.key) == Deadline(st, e.key))
            || Wrote(op, e, Deadline(Step(st, op, maxBytes), e.key))
  {
    hide Evict;
    WrittenValid(st, op.key, op.value.value, op.ttl, op.stamped);
    EvictSub(Written(st, op.key, op.value.value, op.ttl, op.stamped), maxBytes, op.now);
  }

  /** Right after a write the key, if it stayed, has the value and the deadline that the write asked for. */
  lemma SetStamps(st: State, op: Op, maxBytes: int)
    requires Valid(st) && op.OpSet? && op.value.Some?
    ensures op.key in Keys(Step(st, op, maxBytes).list) ==>
      Deadline(Step(st, op, maxBytes), op.key) == if op.ttl > 0 then Some(op.stamped + op.ttl) else None
    ensures forall e :: e in Step(st, op, maxBytes).list && e.key == op.key ==> e.value == op.value.value
  {
    hide Evict;
    var written := Written(st, op.key, op.value.value, op.ttl, op.stamped);
    WrittenValid(st, op.key, op.value.value, op.ttl, op.stamped);
    EvictSub(written, maxBytes, op.now);
  }

  lemma StepFaithful(st: State, ops: seq<Op>, op: Op, maxBytes: int)
    requires Valid(st) && Faithful(st, ops)
    ensures Faithful(Step(st, op, maxBytes), ops + [op])
  {
    var after := Step(st, op, maxBytes);
    match op
    case OpGet(key, now) =>
      GetSub(st, key, now);
      SubFaithful(after, st, ops);
      SameWrites(ops, op);
    case OpSet(key, value, ttl, stamped, now) =>
      if value.Some? {
        var written := Written(st, key, value.value, ttl, stamped);
        WrittenFaithful(st, ops, op);
        WrittenValid(st, key, value.value, ttl, stamped);
        EvictSub(written, maxBytes, now);
        SubFaithful(after, written, ops + [op]);
      } else {
        DropFaithful(st, ops, op);
      }
    case OpDelete(key) => DropFaithful(st, ops, op);
    case OpClear =>
    case OpCleanup(now) =>
      EvictSub(st, maxBytes, now);
      SubFaithful(after, st, ops);
      SameWrites(ops, op);
  }

  lemma {:induction false} RunFaithful(ops: seq<Op>, maxBytes: int)
    ensures Faithful(Run(ops, maxBytes), ops)
  {
    if ops != [] {
      var earlier := ops[..|ops| - 1];
      RunFaithful(earlier, maxBytes);
      RunValid(earlier, maxBytes);
      StepFaithful(Run(earlier, maxBytes), earlier, ops[|ops| - 1], maxBytes);
      assert ops == earlier + [ops[|ops| - 1]];
    }
  }

  /**
   Whatever the budget and the history, a Get that hits returns the value of
   the latest Set of that key, with no later Delete or Clear and its deadline
   not reached.
   */
  lemma HitIsLatestWrite(ops: seq<Op>, maxBytes: int, key: string, now: int)
    ensures var hit := Get(Run(ops, maxBytes), key, now).1;
            hit.Some? ==> hit == LiveValue(LastWrite(ops, key), now)
  {
    RunFaithful(ops, maxBytes);
    var st := Run(ops, maxBytes);
    if Lookup(st.list, key).Some? {
      assert Entry(key, Lookup(st.list, key).value) in st.list;
    }
  }

  /** Every write to the key lives for at most `ttl` from a moment no later than `dated`. */
  ghost predicate WrittenBy(ops: seq<Op>, key: string, ttl: int, dated: int) {
    forall i :: 0 <= i < |ops| && ops[i].OpSet? && ops[i].key == key && ops[i].value.Some? ==>
      0 < ops[i].ttl <= ttl && ops[i].stamped <= dated
  }

  lemma {:induction false} DeadlineBy(ops: seq<Op>, key: string, ttl: int, dated: int)
    requires WrittenBy(ops, key, ttl, dated) && LastWrite(ops, key).Some?
    ensures LastWrite(ops, key).value.deadline.Some? && LastWrite(ops, key).value.deadline.value <= dated + ttl
  {
    var earlier := ops[..|ops| - 1];
    if LastWrite(ops, key) == LastWrite(earlier, key) {
      DeadlineBy(earlier, key, ttl, dated);
    }
  }

  /**
   A store whose writes to a key all live for `ttl`: when the deadline of a new
   one, of time `dated`, has passed before it is stored, the entry of every earlier
   one has expired as well, so dropping the new one uncovers nothing.
   */
  lemma LateWriteFindsExpired(ops: seq<Op>, maxBytes: int, key: string, ttl: int, dated: int, now: int)
    requires WrittenBy(ops, key, ttl, dated) && dated + ttl <= now
    ensures Get(Run(ops, maxBytes), key, now).1.None?
  {
    HitIsLatestWrite(ops, maxBytes, key, now);
    if LastWrite(ops, key).Some? {
      DeadlineBy(ops, key, ttl, dated);
    }
  }

  // ---- Without a budget nothing live is lost ------------------------------

  /** The clock readings of `ops` never decrease and none is after `now`. */
  ghost predicate Clocked(ops: seq<Op>, now: int) {
    ops == [] ||
    var earlier := ops[..|ops| - 1];
    match ops[|ops| - 1]
    case OpGet(_, t) => t <= now && Clocked(earlier, t)
    case OpSet(_, _, _, stamped, t) => stamped <= t <= now && Clocked(earlier, stamped)
    case OpCleanup(t) => t <= now && Clocked(earlier, t)
    case OpDelete(_) => Clocked(earlier, now)
    case OpClear => Clocked(earlier, now)
  }

  /** Every write still live at `now` is stored with its deadline. */
  ghost predicate Complete(st: State, ops: seq<Op>, now: int) {
    forall k :: LiveValue(LastWrite(ops, k), now).Some? ==>
      var w := LastWrite(ops, k).value;
      Entry(k, w.value) in st.list && Deadline(st, k) == w.deadline
  }

  lemma CompleteLater(st: State, ops: seq<Op>, t: int, now: int)
    requires Complete(st, ops, t) && t <= now
    ensures Complete(st, ops, now)
  {
  }

  lemma EvictComplete(st: State, ops: seq<Op>, maxBytes: int, t: int, now: int)
    requires Complete(st, ops, t) && t <= now && maxBytes <= 0
    ensures Complete(Evict(st, maxBytes, now), ops, now)
  {
  }

  lemma GetComplete(st: State, ops: seq<Op>, key: string, t: int, now: int)
    requires Valid(st) && Complete(st, ops, t) && t <= now
    ensures Complete(Get(st, key, now).0, ops, now)
  {
    hide LastWrite;
    var after := Get(st, key, now).0;
    forall k | LiveValue(LastWrite(ops, k), now).Some?
      ensures var w := LastWrite(ops, k).value;
              Entry(k, w.value) in after.list && Deadline(after, k) == w.deadline
    {
      assert LiveValue(LastWrite(ops, k), t).Some?;
      LookupUnique(st.list, Entry(k, LastWrite(ops, k).value.value));
    }
  }

  lemma WrittenComplete(st: State, ops: seq<Op>, op: Op, t: int)
    requires op.OpSet? && op.value.Some? && Complete(st, ops, t)
    ensures Complete(Written(st, op.key, op.value.value, op.ttl, op.stamped), ops + [op], t)
  {
  }

  lemma DropComplete(st: State, ops: seq<Op>, op: Op, t: int)
    requires op.OpDelete? || (op.OpSet? && op.value.None?)
    requires Complete(st, ops, t)
    ensures Complete(Drop(st, {op.key}), ops + [op], t)
  {
  }

  /** The latest reading before `op` that `Clocked` allows, given that none is after `now`. */
  function Before(op: Op, now: int): int {
    match op
    case OpGet(_, t) => t
    case OpSet(_, _, _, stamped, _) => stamped
    case OpCleanup(t) => t
    case OpDelete(_) => now
    case OpClear => now
  }

  lemma StepComplete(st: State, ops: seq<Op>, op: Op, maxBytes: int, now: int)
    requires Valid(st) && Complete(st, ops, Before(op, now)) && maxBytes <= 0
    requires Before(op, now) <= now && (op.OpSet? ==> op.stamped <= op.now <= now)
    ensures Complete(Step(st, op, maxBytes), ops + [op], now)
  {
    var after := Step(st, op, maxBytes);
    match op
    case OpGet(key, t) =>
      GetComplete(st, ops, key, t, t);
      SameWrites(ops, op);
      CompleteLater(after, ops + [op], t, now);
    case OpSet(key, value, ttl, stamped, t) =>
      if value.Some? {
        WrittenComplete(st, ops, op, stamped);
        EvictComplete(Written(st, key, value.value, ttl, stamped), ops + [op], maxBytes, stamped, t);
        CompleteLater(after, ops + [op], t, now);
      } else {
        DropComplete(st, ops, op, stamped);
        CompleteLater(after, ops + [op], stamped, now);
      }
    case OpCleanup(t) =>
      EvictComplete(st, ops, maxBytes, t, t);
      SameWrites(ops, op);
      CompleteLater(after, ops + [op], t, now);
    case OpDelete(_) =>
      DropComplete(st, ops, op, now);
    case OpClear =>
  }

  lemma {:induction false} RunComplete(ops: seq<Op>, maxBytes: int, now: int)
    requires Clocked(ops, now) && maxBytes <= 0
    ensures Complete(Run(ops, maxBytes), ops, now)
  {
    if ops != [] {
      var earlier, op := ops[..|ops| - 1], ops[|ops| - 1];
      RunComplete(earlier, maxBytes, Before(op, now));
      RunValid(earlier, maxBytes);
      StepComplete(Run(earlier, maxBytes), earlier, op, maxBytes, now);
      assert ops == earlier + [op];
    }
  }

  lemma SameWrites(ops: seq<Op>, op: Op)
    requires op.OpGet? || op.OpCleanup?
    ensures forall k :: LastWrite(ops + [op], k) == LastWrite(ops, k)
  {
  }

  /**
   With no budget and a clock that never goes back, a Get returns exactly the
   live last write: it hits if and only if there is one. A budget can only turn
   such a hit into a miss (HitIsLatestWrite).
   */
  lemma UnlimitedIsExact(ops: seq<Op>, maxBytes: int, key: string, now: int)
    requires Clocked(ops, now) && maxBytes <= 0
    ensures Get(Run(ops, maxBytes), key, now).1 == LiveValue(LastWrite(ops, key), now)
  {
    HitIsLatestWrite(ops, maxBytes, key, now);
    RunComplete(ops, maxBytes, now);
    RunValid(ops, maxBytes);
    var st := Run(ops, maxBytes);
    if LiveValue(LastWrite(ops, key), now).Some? {
      LookupUnique(st.list, Entry(key, LastWrite(ops, key).value.value));
    }
  }

  // ---- The recency list ---------------------------------------------------

  /** The number of operations up to and including the last Set or hit of `key`. */
  function LastTouch(ops: seq<Op>, maxBytes: int, key: string): nat {
    if ops == [] then 0
    else
      var earlier := ops[..|ops| - 1];
      match ops[|ops| - 1]
      case OpSet(k, value, _, _, _) =>
        if k == key && value.Some? then |ops| else LastTouch(earlier, maxBytes, key)
      case OpGet(k, now) =>
        if k == key && Get(Run(earlier, maxBytes), key, now).1.Some? then |ops| else LastTouch(earlier, maxBytes, key)
      case _ => LastTouch(earlier, maxBytes, key)
  }

  ghost predicate Ordered(list: seq<Entry>, stamp: string -> int) {
    forall i, j :: 0 <= i < j < |list| ==> stamp(list[i].key) < stamp(list[j].key)
  }

  lemma {:induction false} WithoutOrdered(list: seq<Entry>, gone: set<string>, stamp: string -> int)
    requires Ordered(list, stamp)
    ensures Ordered(Without(list, gone), stamp)
  {
    if list != [] {
      WithoutOrdered(list[1..], gone, stamp);
      var rest := Without(list[1..], gone);
      forall e | e in rest
        ensures stamp(list[0].key) < stamp(e.key)
      {
        assert e in list[1..];
      }
    }
  }

  lemma EvictOrdered(st: State, maxBytes: int, now: int, stamp: string -> int)
    requires Valid(st) && Ordered(st.list, stamp)
    ensures Ordered(Evict(st, maxBytes, now).list, stamp)
  {
    WithoutOrdered(st.list, ExpiredKeys(st, now), stamp);
    DropValid(st, ExpiredKeys(st, now));
    TrimIsCut(DropExpired(st, now), maxBytes);
  }

  /** Moving a key to the back keeps the order once its stamp is the newest. */
  lemma PromoteOrdered(st: State, e: Entry, before: string -> int, after: string -> int, n: nat)
    requires Ordered(st.list, before)
    requires forall k :: before(k) < n
    requires forall k :: k != e.key ==> after(k) == before(k)
    requires after(e.key) == n
    ensures Ordered(Promote(st, e.key, e.value).list, after)
  {
    WithoutOrdered(st.list, {e.key}, before);
    var kept := Without(st.list, {e.key});
    forall i | 0 <= i < |kept|
      ensures kept[i].key != e.key
    {
      assert kept[i] in kept;
    }
  }

  ghost function Stamps(ops: seq<Op>, maxBytes: int): string -> int {
    k => LastTouch(ops, maxBytes, k)
  }

  lemma {:induction false} LastTouchBound(ops: seq<Op>, maxBytes: int, key: string)
    ensures LastTouch(ops, maxBytes, key) <= |ops|
  {
    if ops != [] {
      LastTouchBound(ops[..|ops| - 1], maxBytes, key);
    }
  }

  /** The recency list is ordered by last touch, oldest first, in every reachable state. */
  lemma {:induction false} RunOrdered(ops: seq<Op>, maxBytes: int)
    ensures Ordered(Run(ops, maxBytes).list, Stamps(ops, maxBytes))
  {
    if ops != [] {
      var earlier, op := ops[..|ops| - 1], ops[|ops| - 1];
      RunOrdered(earlier, maxBytes);
      RunValid(earlier, maxBytes);
      forall k
        ensures LastTouch(earlier, maxBytes, k) < |ops|
      {
        LastTouchBound(earlier, maxBytes, k);
      }
      StepOrdered(Run(earlier, maxBytes), op, maxBytes, Stamps(earlier, maxBytes), Stamps(ops, maxBytes), |ops|);
    }
  }

  predicate Touches(st: State, op: Op, key: string) {
    || (op.OpSet? && op.key == key && op.value.Some?)
    || (op.OpGet? && op.key == key && Get(st, key, op.now).1.Some?)
  }

  lemma PutOrdered(st: State, op: Op, maxBytes: int, before: string -> int, after: string -> int, n: nat)
    requires op.OpSet? && op.value.Some?
    requires Valid(st) && Ordered(st.list, before)
    requires forall k :: before(k) < n
    requires forall k :: after(k) == if k == op.key then n else before(k)
    ensures Ordered(Step(st, op, maxBytes).list, after)
  {
    PromoteOrdered(st, Entry(op.key, op.value.value), before, after, n);
    WrittenValid(st, op.key, op.value.value, op.ttl, op.stamped);
    EvictOrdered(Written(st, op.key, op.value.value, op.ttl, op.stamped), maxBytes, op.now, after);
  }

  lemma GetOrdered(st: State, op: Op, before: string -> int, after: string -> int, n: nat)
    requires op.OpGet? && Valid(st) && Ordered(st.list, before)
    requires forall k :: before(k) < n
    requires forall k :: after(k) == if Touches(st, op, k) then n else before(k)
    ensures Ordered(Get(st, op.key, op.now).0.list, after)
  {
    WithoutOrdered(st.list, {op.key}, before);
    if Get(st, op.key, op.now).1.Some? {
      PromoteOrdered(st, Entry(op.key, Lookup(st.list, op.key).value), before, after, n);
    }
  }

  lemma StepOrdered(st: State, op: Op, maxBytes: int, before: string -> int, after: string -> int, n: nat)
    requires Valid(st) && Ordered(st.list, before)
    requires forall k :: before(k) < n
    requires forall k :: after(k) == if Touches(st, op, k) then n else before(k)
    ensures Ordered(Step(st, op, maxBytes).list, after)
  {
    hide Get, Evict, Without;
    match op
    case OpGet(key, now) => GetOrdered(st, op, before, after, n);
    case OpSet(key, value, ttl, stamped, now) =>
      if value.Some? {
        PutOrdered(st, op, maxBytes, before, after, n);
      } else {
        WithoutOrdered(st.list, {key}, before);
      }
    case OpDelete(key) =>
      WithoutOrdered(st.list, {key}, before);
    case OpClear =>
    case OpCleanup(now) =>
      EvictOrdered(st, maxBytes, now, before);
  }

  // ---- Inclusion ----------------------------------------------------------

  /** Budget `small` is at most budget `large`, where a non-positive budget is unlimited. */
  predicate NoLarger(small: int, large: int) {
    large <= 0 || 0 < small <= large
  }

  ghost predicate Suffix(a: seq<Entry>, b: seq<Entry>) {
    |a| <= |b| && b[|b| - |a|..] == a
  }

  /** The two expiry tables agree on the keys of `list`. */
  ghost predicate SameDeadlines(list: seq<Entry>, x: map<string, int>, y: map<string, int>) {
    forall e :: e in list ==> (e.key in x <==> e.key in y) && (e.key in x ==> x[e.key] == y[e.key])
  }

  /** The recency list of `s` is a suffix of that of `l`, with the same deadlines. */
  ghost predicate Included(s: State, l: State) {
    Suffix(s.list, l.list) && SameDeadlines(s.list, s.expires, l.expires)
  }

  /** A Get that would reorder only the larger store. */
  predicate OnlyLargeHits(s: State, l: State, key: string, now: int) {
    Get(l, key, now).1.Some? && Lookup(s.list, key).None? && s.list != []
  }

  lemma {:induction false} WithoutAgree(list: seq<Entry>, x: set<string>, y: set<string>)
    requires forall e :: e in list ==> (e.key in x <==> e.key in y)
    ensures Without(list, x) == Without(list, y)
  {
    if list != [] {
      assert list[0] in list;
      WithoutAgree(list[1..], x, y);
    }
  }

  lemma SuffixJoin(p: seq<Entry>, a: seq<Entry>)
    ensures Suffix(a, p + a)
  {
  }

  lemma SuffixWithout(a: seq<Entry>, b: seq<Entry>, x: set<string>, y: set<string>)
    requires Suffix(a, b)
    requires forall e :: e in a ==> (e.key in x <==> e.key in y)
    ensures Suffix(Without(a, x), Without(b, y))
  {
    var p := b[..|b| - |a|];
    assert b == p + a;
    WithoutAppend(p, a, y);
    WithoutAgree(a, x, y);
    SuffixJoin(Without(p, y), Without(a, x));
  }

  lemma SuffixAppend(a: seq<Entry>, b: seq<Entry>, e: Entry)
    requires Suffix(a, b)
    ensures Suffix(a + [e], b + [e])
  {
  }

  lemma SuffixCut(a: seq<Entry>, b: seq<Entry>, i: nat, j: nat)
    requires Suffix(a, b) && i <= |a| && j <= |b| - |a| + i
    ensures Suffix(a[i..], b[j..])
  {
  }

  lemma SuffixMember(a: seq<Entry>, b: seq<Entry>, e: Entry)
    requires Suffix(a, b) && e in a
    ensures e in b
  {
  }

  lemma DropIncluded(s: State, l: State, x: set<string>, y: set<string>)
    requires Included(s, l)
    requires forall e :: e in s.list ==> (e.key in x <==> e.key in y)
    ensures Included(Drop(s, x), Drop(l, y))
  {
    SuffixWithout(s.list, l.list, x, y);
  }

  /** Where the smaller store is cut lies inside what the larger store keeps. */
  lemma CutIncluded(s: seq<Entry>, l: seq<Entry>, small: int, large: int)
    requires Suffix(s, l) && NoLarger(small, large)
    ensures Cut(l, large) <= |l| - |s| + Cut(s, small)
  {
  }

  lemma CutDeadlines(list: seq<Entry>, expires: map<string, int>, n: nat)
    requires Distinct(list) && n <= |list|
    ensures SameDeadlines(list[n..], expires - Keys(list[..n]), expires)
  {
  }

  lemma SameDeadlinesPart(a: seq<Entry>, b: seq<Entry>, x: map<string, int>, y: map<string, int>)
    requires SameDeadlines(b, x, y) && forall e :: e in a ==> e in b
    ensures SameDeadlines(a, x, y)
  {
  }

  lemma TrimIncluded(s: State, l: State, small: int, large: int)
    requires Valid(s) && Valid(l) && Included(s, l) && NoLarger(small, large)
    ensures Included(Trim(s, small), Trim(l, large))
  {
    var a, b := Cut(s.list, small), Cut(l.list, large);
    CutIncluded(s.list, l.list, small, large);
    SuffixCut(s.list, l.list, a, b);
    CutDeadlines(s.list, s.expires, a);
    CutDeadlines(l.list, l.expires, b);
    SameDeadlinesPart(s.list[a..], s.list, s.expires, l.expires);
    forall e | e in s.list[a..]
      ensures e in l.list[b..]
    {
      SuffixMember(s.list[a..], l.list[b..], e);
    }
    TrimIsCut(s, small);
    TrimIsCut(l, large);
  }

  lemma EvictIncluded(s: State, l: State, small: int, large: int, now: int)
    requires Valid(s) && Valid(l) && Included(s, l) && NoLarger(small, large)
    ensures Included(Evict(s, small, now), Evict(l, large, now))
  {
    forall e | e in s.list
      ensures e.key in ExpiredKeys(s, now) <==> e.key in ExpiredKeys(l, now)
    {
      assert Deadline(s, e.key) == Deadline(l, e.key);
    }
    DropIncluded(s, l, ExpiredKeys(s, now), ExpiredKeys(l, now));
    DropValid(s, ExpiredKeys(s, now));
    DropValid(l, ExpiredKeys(l, now));
    TrimIncluded(DropExpired(s, now), DropExpired(l, now), small, large);
  }

  lemma PromoteIncluded(s: State, l: State, key: string, value: Bytes)
    requires Suffix(s.list, l.list)
    requires SameDeadlines(Without(s.list, {key}) + [Entry(key, value)], s.expires, l.expires)
    ensures Included(Promote(s, key, value), Promote(l, key, value))
  {
    SuffixWithout(s.list, l.list, {key}, {key});
    SuffixAppend(Without(s.list, {key}), Without(l.list, {key}), Entry(key, value));
  }

  lemma PutIncluded(s: State, l: State, op: Op, small: int, large: int)
    requires op.OpSet? && op.value.Some?
    requires Valid(s) && Valid(l) && Included(s, l) && NoLarger(small, large)
    ensures Included(Step(s, op, small), Step(l, op, large))
  {
    WrittenIncluded(s, l, op);
    WrittenValid(s, op.key, op.value.value, op.ttl, op.stamped);
    WrittenValid(l, op.key, op.value.value, op.ttl, op.stamped);
    EvictIncluded(Written(s, op.key, op.value.value, op.ttl, op.stamped),
                  Written(l, op.key, op.value.value, op.ttl, op.stamped), small, large, op.now);
  }

  lemma WrittenIncluded(s: State, l: State, op: Op)
    requires op.OpSet? && op.value.Some? && Included(s, l)
    ensures Included(Written(s, op.key, op.value.value, op.ttl, op.stamped),
                     Written(l, op.key, op.value.value, op.ttl, op.stamped))
  {
    var es := if op.ttl > 0 then s.expires[op.key := op.stamped + op.ttl] else s.expires - {op.key};
    var el := if op.ttl > 0 then l.expires[op.key := op.stamped + op.ttl] else l.expires - {op.key};
    forall e | e in Without(s.list, {op.key}) + [Entry(op.key, op.value.value)]
      ensures (e.key in es <==> e.key in el) && (e.key in es ==> es[e.key] == el[e.key])
    {
    }
    PromoteIncluded(State(s.list, es), State(l.list, el), op.key, op.value.value);
  }

  /** A Get keeps the inclusion exactly when it does not reorder the larger store alone. */
  lemma GetIncludedIff(s: State, l: State, key: string, now: int)
    requires Valid(s) && Valid(l) && Included(s, l)
    ensures Included(Get(s, key, now).0, Get(l, key, now).0) <==> !OnlyLargeHits(s, l, key, now)
  {
    match Lookup(s.list, key) {
      case Some(v) => SharedGetIncluded(s, l, key, v, now);
      case None => LargeGetIncluded(s, l, key, now);
    }
  }

  lemma SharedGetIncluded(s: State, l: State, key: string, v: Bytes, now: int)
    requires Valid(s) && Valid(l) && Included(s, l) && Lookup(s.list, key) == Some(v)
    ensures Included(Get(s, key, now).0, Get(l, key, now).0)
  {
    var e := Entry(key, v);
    SuffixMember(s.list, l.list, e);
    LookupUnique(l.list, e);
    if Expired(s, key, now) {
      DropIncluded(s, l, {key}, {key});
    } else {
      SameDeadlinesPart(Without(s.list, {key}) + [e], s.list, s.expires, l.expires);
      PromoteIncluded(s, l, key, v);
    }
  }

  lemma LargeGetIncluded(s: State, l: State, key: string, now: int)
    requires Valid(s) && Included(s, l) && Lookup(s.list, key).None?
    ensures Included(s, Get(l, key, now).0) <==> !OnlyLargeHits(s, l, key, now)
  {
    if OnlyLargeHits(s, l, key, now) {
      LargeHitReorders(s, l, key, now);
    } else {
      LargeMissKeeps(s, l, key, now);
    }
  }

  /** The larger store moves to the back a key that the smaller one lacks. */
  lemma LargeHitReorders(s: State, l: State, key: string, now: int)
    requires OnlyLargeHits(s, l, key, now)
    ensures !Included(s, Get(l, key, now).0)
  {
    var after := Get(l, key, now).0;
    assert after.list[|after.list| - 1].key == key;
    assert s.list[|s.list| - 1] in s.list;
  }

  lemma LargeMissKeeps(s: State, l: State, key: string, now: int)
    requires Valid(s) && Included(s, l) && Lookup(s.list, key).None? && !OnlyLargeHits(s, l, key, now)
    ensures Included(s, Get(l, key, now).0)
  {
    hide Get, Without;
    if s.list == [] {
      EmptyIncluded(s, Get(l, key, now).0);
    } else {
      MissDropsAtMost(l, key, now);
      WithoutNothing(s.list, {key});
      assert s.expires - {key} == s.expires;
      DropIncluded(s, l, {key}, {key});
    }
  }

  lemma EmptyIncluded(s: State, l: State)
    requires s.list == []
    ensures Included(s, l)
  {
  }

  lemma MissDropsAtMost(st: State, key: string, now: int)
    requires Get(st, key, now).1.None?
    ensures Get(st, key, now).0 in [st, Drop(st, {key})]
  {
  }

  lemma StepIncluded(s: State, l: State, op: Op, small: int, large: int)
    requires Valid(s) && Valid(l) && Included(s, l) && NoLarger(small, large)
    requires op.OpGet? ==> !OnlyLargeHits(s, l, op.key, op.now)
    ensures Included(Step(s, op, small), Step(l, op, large))
  {
    match op
    case OpGet(key, now) => GetIncludedIff(s, l, key, now);
    case OpSet(key, value, _, _, _) =>
      if value.Some? {
        PutIncluded(s, l, op, small, large);
      } else {
        DropIncluded(s, l, {key}, {key});
      }
    case OpDelete(key) => DropIncluded(s, l, {key}, {key});
    case OpClear =>
    case OpCleanup(now) => EvictIncluded(s, l, small, large, now);
  }

  /** No Get of the run touches a key that only the larger store still holds. */
  ghost predicate SharedGets(ops: seq<Op>, small: int, large: int) {
    ops == [] ||
    var earlier, op := ops[..|ops| - 1], ops[|ops| - 1];
    && SharedGets(earlier, small, large)
    && (op.OpGet? ==> !OnlyLargeHits(Run(earlier, small), Run(earlier, large), op.key, op.now))
  }

  /** Inclusion: two stores driven by one run keep the smaller's recency list a suffix of the larger's. */
  lemma {:induction false} RunIncluded(ops: seq<Op>, small: int, large: int)
    requires NoLarger(small, large) && SharedGets(ops, small, large)
    ensures Included(Run(ops, small), Run(ops, large))
  {
    if ops != [] {
      var earlier := ops[..|ops| - 1];
      RunIncluded(earlier, small, large);
      RunValid(earlier, small);
      RunValid(earlier, large);
      StepIncluded(Run(earlier, small), Run(earlier, large), ops[|ops| - 1], small, large);
    }
  }
}
