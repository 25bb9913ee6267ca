/**
 internal/coordination/jetstreamkv/budget.go used by one client at a time: every
 operation reads the principal's value, changes it, sorts its entries by token and
 writes it back.
 */
module KvBudget {
  import opened Coordination
  import opened BudgetSlots

  const MAX_BUDGET_VALUE_BYTES: nat := 8192
  const MAX_DECODED_ENTRIES: nat := 32

  datatype BudgetValue = BudgetValue(schema: int, epoch: nat, entries: seq<Slot>)

  /** `timeText` is the length of a formatted time, which RFC 3339 with nanoseconds bounds by 30. */
  datatype Kv = Kv(limits: Limits, epoch: nat, timeText: Time -> nat, stored: map<Digest, BudgetValue>)

  // ------------------------------------------------------------ encoded size

  function Digits(n: nat): nat {
    if n < 10 then 1 else 1 + Digits(n / 10)
  }

  /** {"token":"..","expires_at":"..","lease_expires_at":"..","phase":".."} */
  function SlotBytes(timeText: Time -> nat, s: Slot): nat {
    10 + 32 + 16 + timeText(s.expires) + 22 + timeText(s.leaseExpires) + 11 + (if s.active then 6 else 7) + 2
  }

  function EntriesBytes(timeText: Time -> nat, entries: seq<Slot>): nat {
    if entries == [] then 0
    else
      var separator := if |entries| == 1 then 0 else 1;
      EntriesBytes(timeText, entries[..|entries| - 1]) + separator + SlotBytes(timeText, entries[|entries| - 1])
  }

  /** {"schema":1,"epoch":..,"entries":[..]} */
  function ValueBytes(timeText: Time -> nat, v: BudgetValue): nat {
    10 + Digits(if v.schema < 0 then 0 else v.schema) + 9 + Digits(v.epoch) + 12 + EntriesBytes(timeText, v.entries) + 2
  }

  // ---------------------------------------------------------------- decoding

  predicate GoodSlot(s: Slot) {
    && MillisecondAligned(s.expires) && MillisecondAligned(s.leaseExpires)
    && (if s.active then s.expires == s.leaseExpires else s.expires <= s.leaseExpires)
  }

  /** decodeBudget accepts; tokens have 32 digits by their type. */
  predicate Accepts(timeText: Time -> nat, v: BudgetValue) {
    && ValueBytes(timeText, v) <= MAX_BUDGET_VALUE_BYTES
    && v.schema == 1 && v.epoch != 0 && |v.entries| <= MAX_DECODED_ENTRIES
    && forall i :: 0 <= i < |v.entries| ==> GoodSlot(v.entries[i])
  }

  // ----------------------------------------------------------------- sorting

  predicate SortedByToken(entries: seq<Slot>) {
    forall i, j :: 0 <= i < j < |entries| ==> entries[i].token <= entries[j].token
  }

  function Insert(entries: seq<Slot>, s: Slot): seq<Slot> {
    if entries == [] || s.token <= entries[0].token then [s] + entries
    else [entries[0]] + Insert(entries[1..], s)
  }

  /** sort.Slice by token. */
  function Sorted(entries: seq<Slot>): seq<Slot> {
    if entries == [] then [] else Insert(Sorted(entries[1..]), entries[0])
  }

  lemma {:induction false} InsertElements(entries: seq<Slot>, s: Slot)
    ensures multiset(Insert(entries, s)) == multiset(entries) + multiset{s}
    decreases |entries|
  {
    if entries != [] && s.token > entries[0].token {
      InsertElements(entries[1..], s);
      assert entries == [entries[0]] + entries[1..];
    }
  }

  lemma {:induction false} InsertSorts(entries: seq<Slot>, s: Slot)
    requires SortedByToken(entries)
    ensures SortedByToken(Insert(entries, s))
    decreases |entries|
  {
    if entries != [] && s.token > entries[0].token {
      InsertSorts(entries[1..], s);
      InsertedAtLeast(entries[1..], s, entries[0].token);
    }
  }

  lemma InsertedAtLeast(entries: seq<Slot>, s: Slot, low: Token)
    requires low <= s.token && forall i :: 0 <= i < |entries| ==> low <= entries[i].token
    ensures forall i :: 0 <= i < |Insert(entries, s)| ==> low <= Insert(entries, s)[i].token
    decreases |entries|
  {
    if entries != [] && s.token > entries[0].token { InsertedAtLeast(entries[1..], s, low); }
  }

  lemma EmptyIsSorted()
    ensures SortedByToken([])
  {}

  /** Sorting only reorders. */
  lemma {:induction false} SortedReorders(entries: seq<Slot>)
    ensures SortedByToken(Sorted(entries)) && multiset(Sorted(entries)) == multiset(entries)
    ensures |Sorted(entries)| == |entries|
    decreases |entries|
  {
    hide Insert, SortedByToken;
    if entries == [] {
      EmptyIsSorted();
    } else {
      SortedReorders(entries[1..]);
      InsertElements(Sorted(entries[1..]), entries[0]);
      InsertSorts(Sorted(entries[1..]), entries[0]);
      assert entries == [entries[0]] + entries[1..];
    }
    assert |multiset(Sorted(entries))| == |Sorted(entries)| && |multiset(entries)| == |entries|;
  }

  // -------------------------------------------------------------- operations

  /** mutate: read, decode, reset an older epoch, change, sort, bound the size, write. */
  function Mutate(b: Kv, principal: Digest, change: seq<Slot> -> Result<seq<Slot>>): (Result<()>, Kv) {
    var missing := principal !in b.stored;
    if !missing && !Accepts(b.timeText, b.stored[principal]) then (Err(Invariant), b)
    else if !missing && b.stored[principal].epoch > b.epoch then (Err(Invariant), b)
    else
      var entries := if missing || b.stored[principal].epoch < b.epoch then [] else b.stored[principal].entries;
      match change(entries)
      case Err(error) => (Err(error), b)
      case Ok(changed) =>
        var value := BudgetValue(1, b.epoch, Sorted(changed));
        if ValueBytes(b.timeText, value) > MAX_BUDGET_VALUE_BYTES then (Err(Unavailable), b)
        else (Ok(()), b.(stored := b.stored[principal := value]))
  }

  predicate ValidExpiry(expires: Time, now: Time) {
    MillisecondAligned(expires) && expires > now
  }

  function Operate(b: Kv, principal: Digest, op: Op, epoch: nat, now: Time): (Result<()>, Kv) {
    if !ValidDigest(principal) || epoch != b.epoch then (Err(InvalidArgument), b)
    else if (op.Reserve? || op.Replace?) && !ValidExpiry(op.expires, now) then (Err(InvalidArgument), b)
    else Mutate(b, principal, (entries: seq<Slot>) => Change(b.limits, Prune(entries, now), op, now))
  }

  /** The budget over its bucket, updated in place. */
  class CapabilityBudget {
    const limits: Limits
    const epoch: nat
    const timeText: Time -> nat
    var stored: map<Digest, BudgetValue>

    function View(): Kv
      reads this
    {
      Kv(limits, epoch, timeText, stored)
    }

    constructor (limits: Limits, epoch: nat, timeText: Time -> nat)
      ensures View() == Kv(limits, epoch, timeText, map[])
    {
      this.limits, this.epoch, this.timeText, stored := limits, epoch, timeText, map[];
    }

    method MutateValue(principal: Digest, change: seq<Slot> -> Result<seq<Slot>>) returns (r: Result<()>)
      modifies this
      ensures (r, View()) == Mutate(old(View()), principal, change)
    {
      var value := BudgetValue(1, epoch, []);
      if principal in stored {
        value := stored[principal];
        if !Accepts(timeText, value) || value.epoch > epoch {
          return Err(Invariant);
        }
        if value.epoch < epoch {
          value := BudgetValue(1, epoch, []);
        }
      }
      match change(value.entries) {
        case Err(error) => return Err(error);
        case Ok(changed) =>
          value := BudgetValue(1, epoch, Sorted(changed));
          if ValueBytes(timeText, value) > MAX_BUDGET_VALUE_BYTES {
            return Err(Unavailable);
          }
          stored := stored[principal := value];
          return Ok(());
      }
    }

    method Apply(principal: Digest, op: Op, epoch: nat, now: Time) returns (r: Result<()>)
      modifies this
      ensures (r, View()) == Operate(old(View()), principal, op, epoch, now)
    {
      if !ValidDigest(principal) || epoch != this.epoch {
        return Err(InvalidArgument);
      }
      if (op.Reserve? || op.Replace?) && !ValidExpiry(op.expires, now) {
        return Err(InvalidArgument);
      }
      r := MutateValue(principal, (entries: seq<Slot>) => Change(limits, Prune(entries, now), op, now));
    }
  }
}
