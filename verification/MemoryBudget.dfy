/**
 internal/coordination/memory/budget.go: per-principal slices pruned, overwritten and
 shifted in place.
 */
module MemoryBudget {
  import opened Coordination
  import opened BudgetSlots

  datatype Memory = Memory(limits: Limits, epoch: nat, entries: map<Digest, seq<Slot>>)

  function EntriesOf(b: Memory, principal: Digest): seq<Slot> {
    if principal in b.entries then b.entries[principal] else []
  }

  predicate ValidReserve(expires: Time, now: Time) {
    MillisecondAligned(expires) && expires > now
  }

  /** One operation: a failed one may still have pruned. */
  function Operate(b: Memory, principal: Digest, op: Op, epoch: nat, now: Time): (Result<()>, Memory) {
    if !ValidDigest(principal) || epoch != b.epoch then (Err(InvalidArgument), b)
    else if op.Reserve? && !ValidReserve(op.expires, now) then (Err(InvalidArgument), b)
    else
      var kept := Prune(EntriesOf(b, principal), now);
      var pruned := b.(entries := b.entries[principal := kept]);
      match Change(b.limits, kept, op, now)
      case Err(error) => (Err(error), pruned)
      case Ok(entries) =>
        if op.Replace? && !ValidReserve(op.expires, now) then (Err(InvalidArgument), pruned)
        else (Ok(()), pruned.(entries := pruned.entries[principal := entries]))
  }

  class CapabilityBudget {
    const limits: Limits
    const epoch: nat
    var entries: map<Digest, seq<Slot>>

    function View(): Memory
      reads this
    {
      Memory(limits, epoch, entries)
    }

    constructor (limits: Limits, epoch: nat)
      ensures View() == Memory(limits, epoch, map[])
    {
      this.limits, this.epoch, entries := limits, epoch, map[];
    }

    method PruneEntries(principal: Digest, now: Time) returns (kept: seq<Slot>)
      modifies this
      ensures kept == Prune(EntriesOf(old(View()), principal), now)
      ensures entries == old(entries)[principal := kept]
    {
      var source := if principal in entries then entries[principal] else [];
      kept := [];
      assert source[..0] == [];
      for i := 0 to |source|
        invariant kept == Prune(source[..i], now)
      {
        assert source[..i + 1][..i] == source[..i];
        if source[i].expires > now {
          kept := kept + [source[i]];
        }
      }
      assert source[..|source|] == source;
      entries := entries[principal := kept];
    }

    method Position(list: seq<Slot>, token: Token) returns (i: nat)
      ensures i == IndexOf(list, token)
    {
      i := 0;
      while i < |list| && list[i].token != token
        invariant i <= |list| && forall j :: 0 <= j < i ==> list[j].token != token
      {
        i := i + 1;
      }
    }

    method Reserve(principal: Digest, token: Token, expires: Time, epoch: nat, now: Time) returns (r: Result<()>)
      modifies this
      ensures (r, View()) == Operate(old(View()), principal, Op.Reserve(token, expires), epoch, now)
    {
      if !ValidDigest(principal) || epoch != this.epoch || !ValidReserve(expires, now) {
        return Err(InvalidArgument);
      }
      var kept := PruneEntries(principal, now);
      var i := Position(kept, token);
      if i < |kept| {
        return Err(Conflict);
      }
      if |kept| >= limits.limit {
        return Err(Unavailable);
      }
      var pending := now + limits.pendingTTL;
      if expires < pending {
        pending := expires;
      }
      entries := entries[principal := kept + [Slot(token, pending, expires, false)]];
      return Ok(());
    }

    /** find: validate, prune, then locate. */
    method Find(principal: Digest, token: Token, epoch: nat, now: Time) returns (r: Result<nat>)
      modifies this
      ensures !ValidDigest(principal) || epoch != this.epoch ==> r == Err(InvalidArgument) && entries == old(entries)
      ensures ValidDigest(principal) && epoch == this.epoch ==>
                var kept := Prune(EntriesOf(old(View()), principal), now);
                && entries == old(entries)[principal := kept]
                && r == if IndexOf(kept, token) < |kept| then Ok(IndexOf(kept, token)) else Err(Conflict)
    {
      if !ValidDigest(principal) || epoch != this.epoch {
        return Err(InvalidArgument);
      }
      var kept := PruneEntries(principal, now);
      var i := Position(kept, token);
      return if i < |kept| then Ok(i) else Err(Conflict);
    }

    method Commit(principal: Digest, token: Token, epoch: nat, now: Time) returns (r: Result<()>)
      modifies this
      ensures (r, View()) == Operate(old(View()), principal, Op.Commit(token), epoch, now)
    {
      var found := Find(principal, token, epoch, now);
      match found {
        case Err(error) => return Err(error);
        case Ok(i) =>
          var list := entries[principal];
          if list[i].active {
            return Err(Conflict);
          }
          entries := entries[principal := list[i := list[i].(active := true, expires := list[i].leaseExpires)]];
          return Ok(());
      }
    }

    /** remove: shift the tail over the slot. */
    method Remove(principal: Digest, i: nat)
      requires principal in entries && i < |entries[principal]|
      modifies this
      ensures entries == old(entries)[principal := old(entries[principal])[..i] + old(entries[principal])[i + 1..]]
    {
      var list := entries[principal];
      var n := |list|;
      for j := i to n - 1
        invariant |list| == n
        invariant list[..j] == old(entries[principal])[..i] + old(entries[principal])[i + 1..j + 1]
        invariant list[j..] == old(entries[principal])[j..]
      {
        assert list[j + 1] == list[j..][1];
        list := list[j := list[j + 1]];
        assert list[j + 1..] == old(entries[principal])[j + 1..];
      }
      assert old(entries[principal])[i + 1..n] == old(entries[principal])[i + 1..];
      entries := entries[principal := list[..n - 1]];
    }

    method Cancel(principal: Digest, token: Token, epoch: nat, now: Time) returns (r: Result<()>)
      modifies this
      ensures (r, View()) == Operate(old(View()), principal, Op.Cancel(token), epoch, now)
    {
      var found := Find(principal, token, epoch, now);
      match found {
        case Err(error) => return Err(error);
        case Ok(i) =>
          if entries[principal][i].active {
            return Err(Conflict);
          }
          Remove(principal, i);
          return Ok(());
      }
    }

    method Replace(principal: Digest, token: Token, next: Token, expires: Time, epoch: nat,
                   now: Time) returns (r: Result<()>)
      modifies this
      ensures (r, View()) == Operate(old(View()), principal, Op.Replace(token, next, expires), epoch, now)
    {
      var found := Find(principal, token, epoch, now);
      match found {
        case Err(error) => return Err(error);
        case Ok(i) =>
          var list := entries[principal];
          if !list[i].active {
            return Err(Conflict);
          }
          var taken := Position(list, next);
          if taken < |list| {
            return Err(Conflict);
          }
          if !ValidReserve(expires, now) {
            return Err(InvalidArgument);
          }
          entries := entries[principal := list[i := Slot(next, expires, expires, true)]];
          return Ok(());
      }
    }

    method Retire(principal: Digest, token: Token, epoch: nat, now: Time) returns (r: Result<()>)
      modifies this
      ensures (r, View()) == Operate(old(View()), principal, Op.Retire(token), epoch, now)
    {
      var found := Find(principal, token, epoch, now);
      match found {
        case Err(error) => return Err(error);
        case Ok(i) =>
          if !entries[principal][i].active {
            return Err(Conflict);
          }
          Remove(principal, i);
          return Ok(());
      }
    }
  }
}
