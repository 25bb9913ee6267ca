/**
 The two capability budgets compared: over every sequence of operations with a monotone
 clock whose reservations have pending expiries of whole milliseconds, they succeed and
 fail together and hold the same live slots, and the bucket's decoder accepts every value
 the bucket's budget wrote.
 */
module BudgetRefinement {
  import opened Coordination
  import opened BudgetSlots
  import M = MemoryBudget
  import K = KvBudget

  function KvEntries(k: K.Kv, principal: Digest): seq<Slot> {
    if principal in k.stored then k.stored[principal].entries else []
  }

  /** What the constructors demand. */
  ghost predicate Configured(k: K.Kv) {
    && 1 <= k.limits.limit <= 32 && 0 < k.limits.pendingTTL <= 5_000_000_000
    && 0 < k.epoch <= MAX_UINT64
    && forall t :: k.timeText(t) <= 30
  }

  ghost predicate GoodValue(k: K.Kv, v: K.BudgetValue) {
    && K.Accepts(k.timeText, v) && v.epoch == k.epoch
    && Distinct(v.entries) && K.SortedByToken(v.entries) && |v.entries| <= k.limits.limit
  }

  ghost predicate GoodStored(k: K.Kv) {
    forall p :: p in k.stored ==> GoodValue(k, k.stored[p])
  }

  ghost predicate SameLive(m: M.Memory, k: K.Kv, p: Digest, now: Time) {
    Distinct(M.EntriesOf(m, p)) && Live(Slots(M.EntriesOf(m, p)), now) == Live(Slots(KvEntries(k, p)), now)
  }

  ghost predicate Related(m: M.Memory, k: K.Kv, now: Time) {
    && m.limits == k.limits && m.epoch == k.epoch && Configured(k) && GoodStored(k)
    && forall p :: SameLive(m, k, p, now)
  }

  // ----------------------------------------------------- the value always fits

  function Pow10(d: nat): nat {
    if d == 0 then 1 else 10 * Pow10(d - 1)
  }

  lemma {:induction false} DigitsAtMost(n: nat, d: nat)
    requires d > 0 && n < Pow10(d)
    ensures K.Digits(n) <= d
    decreases d
  {
    if n >= 10 { DigitsAtMost(n / 10, d - 1); }
  }

  lemma {:induction false} EntriesBytesAtMost(timeText: Time -> nat, entries: seq<Slot>)
    requires forall t :: timeText(t) <= 30
    ensures K.EntriesBytes(timeText, entries) <= 161 * |entries|
    decreases |entries|
  {
    if entries != [] { EntriesBytesAtMost(timeText, entries[..|entries| - 1]); }
  }

  /** A value within the slot limit never reaches the size limit. */
  lemma ValueFits(k: K.Kv, entries: seq<Slot>)
    requires Configured(k) && |entries| <= 32
    ensures K.ValueBytes(k.timeText, K.BudgetValue(1, k.epoch, entries)) <= K.MAX_BUDGET_VALUE_BYTES
  {
    assert Pow10(5) == 100_000 && Pow10(10) == 100_000 * Pow10(5) && Pow10(15) == 100_000 * Pow10(10)
        && Pow10(20) == 100_000 * Pow10(15);
    DigitsAtMost(k.epoch, 20);
    EntriesBytesAtMost(k.timeText, entries);
  }

  // -------------------------------------------------- what a change leaves good

  lemma ChangeKeepsGood(lim: Limits, entries: seq<Slot>, op: Op, now: Time)
    requires Change(lim, entries, op, now).Ok? && |entries| <= lim.limit
    requires forall i :: 0 <= i < |entries| ==> K.GoodSlot(entries[i])
    requires op.Reserve? || op.Replace? ==> K.ValidExpiry(op.expires, now)
    ensures var c := Change(lim, entries, op, now).value;
            && |c| <= lim.limit
            && ((forall i :: 0 <= i < |c| ==> K.GoodSlot(c[i])) <==>
                Readable(lim, op, now))
  {
    var c := Change(lim, entries, op, now).value;
    if op.Reserve? {
      assert c[|entries|] == Slot(op.token, PendingExpiry(lim, op.expires, now), op.expires, false);
      assert forall i :: 0 <= i < |entries| ==> c[i] == entries[i];
    }
  }

  /** If this is a valid reservation, its pending expiry is a whole millisecond. */
  predicate Readable(lim: Limits, op: Op, now: Time) {
    op.Reserve? && K.ValidExpiry(op.expires, now) ==> MillisecondAligned(PendingExpiry(lim, op.expires, now))
  }

  /** An aligned clock and an aligned pending lifetime make every operation readable. */
  lemma AlignedIsReadable(lim: Limits, op: Op, now: Time)
    requires MillisecondAligned(lim.pendingTTL) && MillisecondAligned(now)
    ensures Readable(lim, op, now)
  {}

  lemma {:induction false} PruneSubset(entries: seq<Slot>, now: Time)
    ensures |Prune(entries, now)| <= |entries| && forall s :: s in Prune(entries, now) ==> s in entries
    decreases |entries|
  {
    if entries != [] {
      PruneSubset(entries[..|entries| - 1], now);
      assert forall s :: s in entries[..|entries| - 1] ==> s in entries;
    }
  }

  lemma SortedSame(entries: seq<Slot>)
    requires Distinct(entries)
    ensures Distinct(K.Sorted(entries)) && Slots(K.Sorted(entries)) == Slots(entries)
    ensures |K.Sorted(entries)| == |entries| && K.SortedByToken(K.Sorted(entries))
    ensures forall s :: s in K.Sorted(entries) <==> s in entries
  {
    K.SortedReorders(entries);
    var sorted := K.Sorted(entries);
    forall s ensures s in sorted <==> s in entries {
      assert s in sorted <==> s in multiset(sorted);
      assert s in entries <==> s in multiset(entries);
    }
    assert Slots(sorted) == Slots(entries);
    SlotCount(entries);
    DistinctByCount(sorted, entries);
  }

  /** A list with the elements and the length of a distinct list is distinct. */
  lemma DistinctByCount(a: seq<Slot>, b: seq<Slot>)
    requires Distinct(b) && multiset(a) == multiset(b)
    ensures Distinct(a)
  {
    forall i, j | 0 <= i < j < |a| ensures a[i].token != a[j].token {
      if a[i].token == a[j].token {
        assert a[i] in multiset(b) && a[j] in multiset(b);
        var x :| 0 <= x < |b| && b[x] == a[i];
        var y :| 0 <= y < |b| && b[y] == a[j];
        assert x == y;
        CountAtLeastTwo(a, i, j);
        CountAtMostOne(b, x);
      }
    }
  }

  lemma CountAtLeastTwo(a: seq<Slot>, i: nat, j: nat)
    requires i < j < |a| && a[i] == a[j]
    ensures multiset(a)[a[i]] >= 2
  {
    assert a == a[..j] + [a[j]] + a[j + 1..];
    assert a[i] == a[..j][i] && a[i] in multiset(a[..j]);
  }

  lemma CountAtMostOne(b: seq<Slot>, x: nat)
    requires Distinct(b) && x < |b|
    ensures multiset(b)[b[x]] <= 1
  {
    assert b == b[..x] + [b[x]] + b[x + 1..];
    assert b[x] !in b[..x] && b[x] !in b[x + 1..];
  }

  // -------------------------------------------------------------- one operation

  /** On a good state mutate reads the entries and writes the sorted change. */
  lemma KvMutates(k: K.Kv, p: Digest, op: Op, now: Time)
    requires GoodStored(k) && ValidDigest(p)
    requires op.Reserve? || op.Replace? ==> K.ValidExpiry(op.expires, now)
    ensures var c := Change(k.limits, Prune(KvEntries(k, p), now), op, now);
            K.Operate(k, p, op, k.epoch, now) ==
            if c.Err? then (Err(c.error), k)
            else if K.ValueBytes(k.timeText, K.BudgetValue(1, k.epoch, K.Sorted(c.value))) > K.MAX_BUDGET_VALUE_BYTES
                then (Err(Unavailable), k)
            else (Ok(()), k.(stored := k.stored[p := K.BudgetValue(1, k.epoch, K.Sorted(c.value))]))
  {
    hide Change, Prune, Distinct;
    assert p in k.stored ==> GoodValue(k, k.stored[p]);
  }

  lemma KvPruned(k: K.Kv, p: Digest, now: Time)
    requires GoodStored(k)
    ensures var kept := Prune(KvEntries(k, p), now);
            && Distinct(kept) && |kept| <= k.limits.limit && (forall i :: 0 <= i < |kept| ==> K.GoodSlot(kept[i]))
            && Slots(kept) == Live(Slots(KvEntries(k, p)), now)
  {
    var entries := KvEntries(k, p);
    if p in k.stored { assert GoodValue(k, k.stored[p]); }
    PruneMeans(entries, now);
    PruneSubset(entries, now);
    var kept := Prune(entries, now);
    forall i | 0 <= i < |kept| ensures K.GoodSlot(kept[i]) { assert kept[i] in kept; }
  }

  /** The bucket's budget, on a good state: it computes the meaning, and the value it writes is good
      exactly if the pending expiry of a Reserve is a whole millisecond. */
  lemma KvComputes(k: K.Kv, p: Digest, op: Op, now: Time)
    requires Configured(k) && GoodStored(k) && ValidDigest(p)
    requires op.Reserve? || op.Replace? ==> K.ValidExpiry(op.expires, now)
    ensures var (r, k') := K.Operate(k, p, op, k.epoch, now);
            var m := Meaning(k.limits, Live(Slots(KvEntries(k, p)), now), op, now);
            && r.Ok? == m.Ok? && (r.Err? ==> r.error == m.error && k' == k)
            && (r.Ok? ==> p in k'.stored && k' == k.(stored := k.stored[p := k'.stored[p]])
                          && Slots(KvEntries(k', p)) == m.value)
            && (r.Ok? ==> (GoodValue(k, k'.stored[p]) <==> Readable(k.limits, op, now)))
  {
    KvMutates(k, p, op, now);
    KvPruned(k, p, now);
    hide K.Operate, GoodStored, Live;
    var kept := Prune(KvEntries(k, p), now);
    ChangeMeans(k.limits, kept, op, now);
    var c := Change(k.limits, kept, op, now);
    if c.Ok? {
      ChangeKeepsGood(k.limits, kept, op, now);
      hide Change, Meaning;
      KvWrites(k, c.value);
    }
  }

  lemma KvWrites(k: K.Kv, changed: seq<Slot>)
    requires Configured(k) && Distinct(changed) && |changed| <= k.limits.limit
    ensures var v := K.BudgetValue(1, k.epoch, K.Sorted(changed));
            && K.ValueBytes(k.timeText, v) <= K.MAX_BUDGET_VALUE_BYTES
            && Distinct(v.entries) && Slots(v.entries) == Slots(changed)
            && (GoodValue(k, v) <==> forall i :: 0 <= i < |changed| ==> K.GoodSlot(changed[i]))
  {
    SortedSame(changed);
    var sorted := K.Sorted(changed);
    ValueFits(k, sorted);
    assert (forall i :: 0 <= i < |sorted| ==> K.GoodSlot(sorted[i])) <==>
        (forall i :: 0 <= i < |changed| ==> K.GoodSlot(changed[i])) by {
      assert (forall i :: 0 <= i < |sorted| ==> K.GoodSlot(sorted[i])) <==> (forall s :: s in sorted ==> K.GoodSlot(s));
      assert (forall i :: 0 <= i < |changed| ==> K.GoodSlot(changed[i])) <==>
          (forall s :: s in changed ==> K.GoodSlot(s));
    }
  }

  lemma MemoryComputes(b: M.Memory, p: Digest, op: Op, now: Time)
    requires Distinct(M.EntriesOf(b, p)) && ValidDigest(p)
    requires op.Reserve? || op.Replace? ==> M.ValidReserve(op.expires, now)
    ensures var (r, b') := M.Operate(b, p, op, b.epoch, now);
            var m := Meaning(b.limits, Live(Slots(M.EntriesOf(b, p)), now), op, now);
            && r.Ok? == m.Ok? && (r.Err? ==> r.error == m.error)
            && Distinct(M.EntriesOf(b', p))
            && Slots(M.EntriesOf(b', p)) == (if r.Ok? then m.value else Live(Slots(M.EntriesOf(b, p)), now))
            && (forall q :: q != p ==> M.EntriesOf(b', q) == M.EntriesOf(b, q))
            && b'.limits == b.limits && b'.epoch == b.epoch
  {
    PruneMeans(M.EntriesOf(b, p), now);
    ChangeMeans(b.limits, Prune(M.EntriesOf(b, p), now), op, now);
  }

  /** The same result; only an invalid Replace may be a conflict to the memory budget and an argument error
      to the bucket. */
  predicate SameResult(op: Op, now: Time, r: Result<()>, s: Result<()>) {
    r == s || (op.Replace? && !K.ValidExpiry(op.expires, now) && r == Err(Conflict) && s == Err(InvalidArgument))
  }

  /** One operation at a later time has the same result, and the budgets stay related exactly if it does not
      make an unreadable reservation. */
  lemma OperateAgrees(m: M.Memory, k: K.Kv, p: Digest, op: Op, epoch: nat, before: Time, now: Time)
    requires Related(m, k, before) && before <= now
    ensures var (r, m') := M.Operate(m, p, op, epoch, now);
            var (s, k') := K.Operate(k, p, op, epoch, now);
            SameResult(op, now, r, s) && (Related(m', k', now) <==> (r.Ok? ==> Readable(k.limits, op, now)))
  {
    LaterRelated(m, k, before, now);
    if !ValidDigest(p) || epoch != k.epoch {
    } else if op.Reserve? && !K.ValidExpiry(op.expires, now) {
    } else if op.Replace? && !K.ValidExpiry(op.expires, now) {
      InvalidReplaceFails(m, p, op, now);
      OnlyPruned(m, M.Operate(m, p, op, epoch, now).1, k, p, now);
    } else {
      ValidOperateAgrees(m, k, p, op, now);
    }
  }

  lemma InvalidReplaceFails(b: M.Memory, p: Digest, op: Op, now: Time)
    requires op.Replace? && !M.ValidReserve(op.expires, now) && ValidDigest(p)
    ensures var (r, b') := M.Operate(b, p, op, b.epoch, now);
            && (r == Err(Conflict) || r == Err(InvalidArgument))
            && b' == b.(entries := b.entries[p := Prune(M.EntriesOf(b, p), now)])
  {}

  lemma OnlyPruned(m: M.Memory, m': M.Memory, k: K.Kv, p: Digest, now: Time)
    requires Related(m, k, now) && m' == m.(entries := m.entries[p := Prune(M.EntriesOf(m, p), now)])
    ensures Related(m', k, now)
  {
    hide Configured, GoodStored;
    assert SameLive(m, k, p, now);
    PruneMeans(M.EntriesOf(m, p), now);
    LiveTwice(Slots(M.EntriesOf(m, p)), now, now);
    forall q ensures SameLive(m', k, q, now) {
      assert SameLive(m, k, q, now);
    }
  }

  lemma LiveTwice(slots: set<Slot>, before: Time, now: Time)
    requires before <= now
    ensures Live(Live(slots, before), now) == Live(slots, now)
  {}

  lemma LaterRelated(m: M.Memory, k: K.Kv, before: Time, now: Time)
    requires Related(m, k, before) && before <= now
    ensures Related(m, k, now)
  {
    hide Configured, GoodStored;
    forall p ensures SameLive(m, k, p, now) {
      assert SameLive(m, k, p, before);
      LiveTwice(Slots(M.EntriesOf(m, p)), before, now);
      LiveTwice(Slots(KvEntries(k, p)), before, now);
    }
  }

  lemma ValidOperateAgrees(m: M.Memory, k: K.Kv, p: Digest, op: Op, now: Time)
    requires Related(m, k, now) && ValidDigest(p)
    requires op.Reserve? || op.Replace? ==> K.ValidExpiry(op.expires, now)
    ensures var (r, m') := M.Operate(m, p, op, m.epoch, now);
            var (s, k') := K.Operate(k, p, op, k.epoch, now);
            r == s && (Related(m', k', now) <==> (r.Ok? ==> Readable(k.limits, op, now)))
  {
    hide M.Operate, K.Operate, Meaning, GoodValue, Configured, Distinct, Slots, Live, Readable;
    assert SameLive(m, k, p, now);
    MemoryComputes(m, p, op, now);
    KvComputes(k, p, op, now);
    var (r, m') := M.Operate(m, p, op, m.epoch, now);
    var (s, k') := K.Operate(k, p, op, k.epoch, now);
    assert r == s by { assert r.Ok? ==> r.value == () && s.value == (); }
    forall v ensures GoodValue(k, v) <==> GoodValue(k', v) { GoodValueIgnoresStored(k, k', v); }
    assert GoodStored(k') <==> (r.Ok? ==> Readable(k.limits, op, now));
    LiveTwice(Slots(M.EntriesOf(m, p)), now, now);
    assert Configured(k') by { ConfiguredIgnoresStored(k, k'); }
    forall q ensures SameLive(m', k', q, now) {
      assert SameLive(m, k, q, now);
      if q != p { assert KvEntries(k', q) == KvEntries(k, q) && M.EntriesOf(m', q) == M.EntriesOf(m, q); }
    }
  }

  lemma ConfiguredIgnoresStored(k: K.Kv, k': K.Kv)
    requires Configured(k) && k'.limits == k.limits && k'.epoch == k.epoch && k'.timeText == k.timeText
    ensures Configured(k')
  {}

  lemma GoodValueIgnoresStored(k: K.Kv, k': K.Kv, v: K.BudgetValue)
    requires k'.limits == k.limits && k'.epoch == k.epoch && k'.timeText == k.timeText
    ensures GoodValue(k, v) <==> GoodValue(k', v)
  {}

  // ------------------------------------------------------------ whole sequences

  datatype Step = Step(principal: Digest, op: Op, epoch: nat, now: Time)

  ghost predicate Clocked(steps: seq<Step>, start: Time) {
    && (forall i :: 0 <= i < |steps| ==> start <= steps[i].now)
    && (forall i, j :: 0 <= i < j < |steps| ==> steps[i].now <= steps[j].now)
  }

  ghost predicate AllReadable(lim: Limits, steps: seq<Step>) {
    forall i :: 0 <= i < |steps| ==> Readable(lim, steps[i].op, steps[i].now)
  }

  ghost function RunMemory(m: M.Memory, steps: seq<Step>): (seq<bool>, M.Memory)
    decreases |steps|
  {
    if steps == [] then ([], m)
    else
      var (r, m') := M.Operate(m, steps[0].principal, steps[0].op, steps[0].epoch, steps[0].now);
      var (rest, last) := RunMemory(m', steps[1..]);
      ([r.Ok?] + rest, last)
  }

  ghost function RunKv(k: K.Kv, steps: seq<Step>): (seq<bool>, K.Kv)
    decreases |steps|
  {
    if steps == [] then ([], k)
    else
      var (r, k') := K.Operate(k, steps[0].principal, steps[0].op, steps[0].epoch, steps[0].now);
      var (rest, last) := RunKv(k', steps[1..]);
      ([r.Ok?] + rest, last)
  }

  /** Any sequence of operations with readable reservations succeeds and fails alike on both budgets, leaves
      the same live slots, and leaves only values the decoder accepts. */
  lemma {:induction false} BudgetsAgree(m: M.Memory, k: K.Kv, steps: seq<Step>, start: Time)
    requires Related(m, k, start) && Clocked(steps, start) && AllReadable(k.limits, steps)
    ensures RunMemory(m, steps).0 == RunKv(k, steps).0
    ensures Related(RunMemory(m, steps).1, RunKv(k, steps).1, if steps == [] then start else steps[|steps| - 1].now)
    decreases |steps|
  {
    hide Related, M.Operate, K.Operate, Readable, SameResult;
    if steps != [] {
      var s := steps[0];
      OperateAgrees(m, k, s.principal, s.op, s.epoch, start, s.now);
      var (r, m') := M.Operate(m, s.principal, s.op, s.epoch, s.now);
      var (r', k') := K.Operate(k, s.principal, s.op, s.epoch, s.now);
      AlikeIsAlike(s.op, s.now, r, r');
      KvKeepsLimits(k, s.principal, s.op, s.epoch, s.now);
      Rest(k.limits, steps, start);
      hide Clocked, AllReadable;
      BudgetsAgree(m', k', steps[1..], s.now);
    }
  }

  lemma AlikeIsAlike(op: Op, now: Time, r: Result<()>, s: Result<()>)
    requires SameResult(op, now, r, s)
    ensures r.Ok? == s.Ok?
  {}

  lemma Rest(lim: Limits, steps: seq<Step>, start: Time)
    requires steps != [] && Clocked(steps, start) && AllReadable(lim, steps)
    ensures start <= steps[0].now && Readable(lim, steps[0].op, steps[0].now)
    ensures Clocked(steps[1..], steps[0].now) && AllReadable(lim, steps[1..])
  {}

  lemma KvKeepsLimits(k: K.Kv, p: Digest, op: Op, epoch: nat, now: Time)
    ensures var k' := K.Operate(k, p, op, epoch, now).1;
            k'.limits == k.limits && k'.epoch == k.epoch && k'.timeText == k.timeText
            && (forall q :: q != p ==>
                  (q in k'.stored <==> q in k.stored) && (q in k.stored ==> k'.stored[q] == k.stored[q]))
  {}

  /** Both budgets start related. */
  lemma EmptyBudgetsRelated(limits: Limits, epoch: nat, timeText: Time -> nat, now: Time)
    requires Configured(K.Kv(limits, epoch, timeText, map[]))
    ensures Related(M.Memory(limits, epoch, map[]), K.Kv(limits, epoch, timeText, map[]), now)
  {}

  // ------------------------------------------------------ unreadable reservations

  /** A stored value that the decoder refuses. */
  ghost predicate Wedged(k: K.Kv, p: Digest) {
    p in k.stored && !K.Accepts(k.timeText, k.stored[p])
  }

  /** The bucket's decoder accepts what a Reserve wrote exactly if the pending expiry is a whole millisecond. */
  lemma ReserveIsReadableExactly(k: K.Kv, p: Digest, token: Token, expires: Time, now: Time)
    requires Configured(k) && GoodStored(k) && ValidDigest(p) && K.ValidExpiry(expires, now)
    requires K.Operate(k, p, Reserve(token, expires), k.epoch, now).0.Ok?
    ensures Wedged(K.Operate(k, p, Reserve(token, expires), k.epoch, now).1, p) <==>
              !MillisecondAligned(PendingExpiry(k.limits, expires, now))
  {
    KvComputes(k, p, Reserve(token, expires), now);
    KvMutates(k, p, Reserve(token, expires), now);
    KvPruned(k, p, now);
    var kept := Prune(KvEntries(k, p), now);
    ChangeMeans(k.limits, kept, Reserve(token, expires), now);
    ChangeKeepsGood(k.limits, kept, Reserve(token, expires), now);
    KvWrites(k, Change(k.limits, kept, Reserve(token, expires), now).value);
    SortedSame(Change(k.limits, kept, Reserve(token, expires), now).value);
  }

  /** An operation on an unreadable value fails and changes nothing; with valid arguments its error is Invariant. */
  lemma WedgedFails(k: K.Kv, p: Digest, op: Op, epoch: nat, now: Time)
    requires Wedged(k, p)
    ensures K.Operate(k, p, op, epoch, now).0.Err? && K.Operate(k, p, op, epoch, now).1 == k
    ensures ValidDigest(p) && epoch == k.epoch && (op.Reserve? || op.Replace? ==> K.ValidExpiry(op.expires, now)) ==>
              K.Operate(k, p, op, epoch, now).0 == Err(Invariant)
  {
    hide K.Accepts;
  }

  /** Once unreadable, a principal's budget refuses every operation of every later sequence, whatever other
      principals do, and is never written again. */
  lemma {:induction false} WedgedForever(k: K.Kv, p: Digest, steps: seq<Step>)
    requires Wedged(k, p)
    ensures Wedged(RunKv(k, steps).1, p) && RunKv(k, steps).1.stored[p] == k.stored[p]
    ensures |RunKv(k, steps).0| == |steps|
    ensures forall i :: 0 <= i < |steps| && steps[i].principal == p ==> !RunKv(k, steps).0[i]
    decreases |steps|
  {
    if steps != [] {
      var s := steps[0];
      if s.principal == p { WedgedFails(k, p, s.op, s.epoch, s.now); }
      KvKeepsLimits(k, s.principal, s.op, s.epoch, s.now);
      hide K.Operate, K.Accepts;
      WedgedForever(K.Operate(k, s.principal, s.op, s.epoch, s.now).1, p, steps[1..]);
    }
  }

  lemma NothingLive(k: K.Kv, p: Digest, now: Time)
    requires p !in k.stored
    ensures Live(Slots(KvEntries(k, p)), now) == {} && forall t, b :: !Holds({}, t, b)
  {}

  /** A budget that has stored nothing grants a first reservation. */
  lemma FirstReserve(k: K.Kv, p: Digest, token: Token, expires: Time, now: Time) returns (k': K.Kv)
    requires Configured(k) && k.stored == map[] && ValidDigest(p) && K.ValidExpiry(expires, now)
    ensures K.Operate(k, p, Reserve(token, expires), k.epoch, now) == (Ok(()), k')
    ensures Wedged(k', p) <==> !MillisecondAligned(PendingExpiry(k.limits, expires, now))
  {
    hide K.Operate, GoodValue, Slots, Live, Holds;
    NothingLive(k, p, now);
    KvComputes(k, p, Reserve(token, expires), now);
    ReserveIsReadableExactly(k, p, token, expires, now);
    k' := K.Operate(k, p, Reserve(token, expires), k.epoch, now).1;
    assert K.Operate(k, p, Reserve(token, expires), k.epoch, now).0.value == ();
  }

  /** Two ways to write an unreadable value: an unaligned clock, and an unaligned pending lifetime. */
  lemma UnalignedWedges(k: K.Kv, p: Digest) returns (k': K.Kv, k'': K.Kv)
    requires Configured(k) && k.stored == map[] && ValidDigest(p)
    ensures k.limits.pendingTTL == 1_000_000 ==>
              K.Operate(k, p, Reserve(7, 5_000_000), k.epoch, 1) == (Ok(()), k') && Wedged(k', p)
    ensures k.limits.pendingTTL == 1_500_000 ==>
              K.Operate(k, p, Reserve(7, 5_000_000), k.epoch, 0) == (Ok(()), k'') && Wedged(k'', p)
  {
    hide K.Operate, Configured, Wedged, ValidDigest;
    k' := FirstReserve(k, p, 7, 5_000_000, 1);
    k'' := FirstReserve(k, p, 7, 5_000_000, 0);
  }
}
