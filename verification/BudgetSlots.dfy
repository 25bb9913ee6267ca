/**
 The slots of one principal's capability budget, and what each budget operation does to
 them, first on a list as both budget implementations keep it and then on the set of slots.
 */
module BudgetSlots {
  import opened Coordination

  datatype Slot = Slot(token: Token, expires: Time, leaseExpires: Time, active: bool)

  datatype Op =
    | Reserve(token: Token, expires: Time)
    | Commit(token: Token)
    | Cancel(token: Token)
    | Replace(token: Token, next: Token, expires: Time)
    | Retire(token: Token)

  datatype Limits = Limits(limit: nat, pendingTTL: Time)

  function Prune(entries: seq<Slot>, now: Time): seq<Slot> {
    if entries == [] then []
    else
      var kept := Prune(entries[..|entries| - 1], now);
      var last := entries[|entries| - 1];
      if last.expires > now then kept + [last] else kept
  }

  /** The position of a token, or the length of the list. */
  function IndexOf(entries: seq<Slot>, token: Token): (i: nat)
    ensures i <= |entries|
    ensures i < |entries| ==> entries[i].token == token
    ensures forall j :: 0 <= j < i ==> entries[j].token != token
  {
    if entries == [] then 0
    else if entries[0].token == token then 0
    else 1 + IndexOf(entries[1..], token)
  }

  function PendingExpiry(lim: Limits, expires: Time, now: Time): Time {
    if expires < now + lim.pendingTTL then expires else now + lim.pendingTTL
  }

  /** The change an operation makes to a pruned list. */
  function Change(lim: Limits, entries: seq<Slot>, op: Op, now: Time): Result<seq<Slot>> {
    var i := IndexOf(entries, op.token);
    match op
    case Reserve(token, expires) =>
      if i < |entries| then Err(Conflict)
      else if |entries| >= lim.limit then Err(Unavailable)
      else Ok(entries + [Slot(token, PendingExpiry(lim, expires, now), expires, false)])
    case Commit(_) =>
      if i == |entries| || entries[i].active then Err(Conflict)
      else Ok(entries[i := entries[i].(active := true, expires := entries[i].leaseExpires)])
    case Cancel(_) =>
      if i == |entries| || entries[i].active then Err(Conflict)
      else Ok(entries[..i] + entries[i + 1..])
    case Replace(_, next, expires) =>
      if i == |entries| || !entries[i].active || IndexOf(entries, next) < |entries| then Err(Conflict)
      else Ok(entries[i := Slot(next, expires, expires, true)])
    case Retire(_) =>
      if i == |entries| || !entries[i].active then Err(Conflict)
      else Ok(entries[..i] + entries[i + 1..])
  }

  // ------------------------------------------------------ the plain meaning

  ghost predicate Distinct(entries: seq<Slot>) {
    forall i, j :: 0 <= i < j < |entries| ==> entries[i].token != entries[j].token
  }

  ghost function Slots(entries: seq<Slot>): set<Slot> {
    set s | s in entries
  }

  ghost predicate Holds(slots: set<Slot>, token: Token, active: bool) {
    exists s :: s in slots && s.token == token && s.active == active
  }

  ghost function The(slots: set<Slot>, token: Token, active: bool): (s: Slot)
    requires Holds(slots, token, active)
    ensures s in slots && s.token == token && s.active == active
  {
    var s :| s in slots && s.token == token && s.active == active;
    s
  }

  ghost function Live(slots: set<Slot>, now: Time): set<Slot> {
    set s | s in slots && s.expires > now
  }

  /** What an operation means on the set of live slots, whatever order they are kept in. */
  ghost function Meaning(lim: Limits, live: set<Slot>, op: Op, now: Time): Result<set<Slot>> {
    match op
    case Reserve(token, expires) =>
      if Holds(live, token, true) || Holds(live, token, false) then Err(Conflict)
      else if |live| >= lim.limit then Err(Unavailable)
      else Ok(live + {Slot(token, PendingExpiry(lim, expires, now), expires, false)})
    case Commit(token) =>
      if !Holds(live, token, false) then Err(Conflict)
      else
        var s := The(live, token, false);
        Ok(live - {s} + {Slot(token, s.leaseExpires, s.leaseExpires, true)})
    case Cancel(token) =>
      if !Holds(live, token, false) then Err(Conflict) else Ok(live - {The(live, token, false)})
    case Replace(token, next, expires) =>
      if !Holds(live, token, true) || Holds(live, next, true) || Holds(live, next, false) then Err(Conflict)
      else Ok(live - {The(live, token, true)} + {Slot(next, expires, expires, true)})
    case Retire(token) =>
      if !Holds(live, token, true) then Err(Conflict) else Ok(live - {The(live, token, true)})
  }

  lemma {:induction false} SlotCount(entries: seq<Slot>)
    requires Distinct(entries)
    ensures |Slots(entries)| == |entries|
    decreases |entries|
  {
    if entries != [] {
      var before, last := entries[..|entries| - 1], entries[|entries| - 1];
      SlotCount(before);
      assert entries == before + [last];
      assert Slots(entries) == Slots(before) + {last};
    }
  }

  /** In a distinct list a token is found at its one position or not at all. */
  lemma FoundIsHeld(entries: seq<Slot>, token: Token)
    requires Distinct(entries)
    ensures var i := IndexOf(entries, token);
            && (i == |entries| <==> !Holds(Slots(entries), token, true) && !Holds(Slots(entries), token, false))
            && (i < |entries| ==> forall b :: Holds(Slots(entries), token, b) <==> b == entries[i].active)
            && (i < |entries| ==> The(Slots(entries), token, entries[i].active) == entries[i])
  {
    var i := IndexOf(entries, token);
    forall b | Holds(Slots(entries), token, b) ensures i < |entries| && entries[i] == The(Slots(entries), token, b) {
      var s := The(Slots(entries), token, b);
      var j :| 0 <= j < |entries| && entries[j] == s;
    }
    if i < |entries| {
      assert entries[i] in Slots(entries);
      assert Holds(Slots(entries), token, entries[i].active);
    }
  }

  lemma AddedSlot(entries: seq<Slot>, s: Slot)
    requires Distinct(entries) && IndexOf(entries, s.token) == |entries|
    ensures Distinct(entries + [s]) && Slots(entries + [s]) == Slots(entries) + {s}
  {}

  lemma RemovedSlot(entries: seq<Slot>, i: nat)
    requires Distinct(entries) && i < |entries|
    ensures Distinct(entries[..i] + entries[i + 1..])
    ensures Slots(entries[..i] + entries[i + 1..]) == Slots(entries) - {entries[i]}
  {
    var rest := entries[..i] + entries[i + 1..];
    assert forall j :: 0 <= j < |rest| ==> rest[j] == entries[if j < i then j else j + 1];
    forall s | s in Slots(entries) - {entries[i]} ensures s in Slots(rest) {
      var j :| 0 <= j < |entries| && entries[j] == s;
      assert rest[if j < i then j else j - 1] == s;
    }
  }

  lemma ReplacedSlot(entries: seq<Slot>, i: nat, s: Slot)
    requires Distinct(entries) && i < |entries|
    requires s.token == entries[i].token || IndexOf(entries, s.token) == |entries|
    ensures Distinct(entries[i := s]) && Slots(entries[i := s]) == Slots(entries) - {entries[i]} + {s}
  {
    var a := entries[i := s];
    forall x | x in Slots(entries) - {entries[i]} + {s} ensures x in Slots(a) {
      if x == s { assert a[i] == x; } else { var j :| 0 <= j < |entries| && entries[j] == x; assert a[j] == x; }
    }
    forall x | x in Slots(a) ensures x in Slots(entries) - {entries[i]} + {s} {
      var j :| 0 <= j < |a| && a[j] == x;
    }
  }

  /** The list operation computes the meaning, and keeps tokens distinct. */
  lemma ChangeMeans(lim: Limits, entries: seq<Slot>, op: Op, now: Time)
    requires Distinct(entries)
    ensures var c, m := Change(lim, entries, op, now), Meaning(lim, Slots(entries), op, now);
            && c.Ok? == m.Ok?
            && (c.Err? ==> c.error == m.error)
            && (c.Ok? ==> Distinct(c.value) && Slots(c.value) == m.value)
  {
    FoundIsHeld(entries, op.token);
    if op.Replace? { FoundIsHeld(entries, op.next); }
    SlotCount(entries);
    var i, c := IndexOf(entries, op.token), Change(lim, entries, op, now);
    hide Distinct, Slots, Holds, The, IndexOf;
    if c.Ok? {
      if op.Cancel? || op.Retire? {
        RemovedSlot(entries, i);
      } else if op.Reserve? {
        AddedSlot(entries, c.value[|entries|]);
      } else {
        ReplacedSlot(entries, i, c.value[i]);
      }
    }
  }

  /** Pruning a list keeps exactly the live slots. */
  lemma {:induction false} PruneMeans(entries: seq<Slot>, now: Time)
    requires Distinct(entries)
    ensures Distinct(Prune(entries, now)) && Slots(Prune(entries, now)) == Live(Slots(entries), now)
    decreases |entries|
  {
    if entries != [] {
      var before, last := entries[..|entries| - 1], entries[|entries| - 1];
      PruneMeans(before, now);
      assert entries == before + [last];
      var kept := Prune(before, now);
      forall i | 0 <= i < |kept| ensures kept[i] in before {
        assert kept[i] in Slots(kept) && kept[i] in Live(Slots(before), now);
      }
      assert Slots(kept + [last]) == Slots(kept) + {last};
      assert Slots(entries) == Slots(before) + {last};
    }
  }

  // ------------------------------------------------------- the life of a token

  datatype Stage = Gone | Pending | Active

  ghost function StageOf(live: set<Slot>, token: Token): Stage {
    if Holds(live, token, true) then Active else if Holds(live, token, false) then Pending else Gone
  }

  ghost predicate OnePerToken(live: set<Slot>) {
    forall s, t :: s in live && t in live && s.token == t.token ==> s == t
  }

  /** The stage an operation asks of the token it names. */
  function Asks(op: Op): Stage {
    match op
    case Reserve(_, _) => Gone
    case Commit(_) => Pending
    case Cancel(_) => Pending
    case Replace(_, _, _) => Active
    case Retire(_) => Active
  }

  /** Where an operation takes a token. */
  function Takes(op: Op, token: Token, stage: Stage): Stage {
    match op
    case Reserve(t, _) => if token == t then Pending else stage
    case Commit(t) => if token == t then Active else stage
    case Cancel(t) => if token == t then Gone else stage
    case Replace(t, next, _) => if token == next then Active else if token == t then Gone else stage
    case Retire(t) => if token == t then Gone else stage
  }

  /** A token is reserved, then committed or cancelled, and a committed one replaced or retired.  An operation
      succeeds exactly at the right stage and within the limit, and moves no token but its own. */
  lemma TokenLifecycle(lim: Limits, live: set<Slot>, op: Op, now: Time, token: Token)
    requires OnePerToken(live)
    ensures var r := Meaning(lim, live, op, now);
            && (r.Ok? <==> && StageOf(live, op.token) == Asks(op) && (op.Reserve? ==> |live| < lim.limit)
                           && (op.Replace? ==> StageOf(live, op.next) == Gone))
            && (r.Err? ==> r.error == if op.Reserve? && StageOf(live, op.token) == Gone then Unavailable else Conflict)
            && (r.Ok? ==> OnePerToken(r.value) && StageOf(r.value, token) == Takes(op, token, StageOf(live, token)))
  {
    var r := Meaning(lim, live, op, now);
    if r.Ok? {
      StageAfter(lim, live, op, now, token);
    }
  }

  lemma StageAfter(lim: Limits, live: set<Slot>, op: Op, now: Time, token: Token)
    requires OnePerToken(live) && Meaning(lim, live, op, now).Ok?
    ensures var next := Meaning(lim, live, op, now).value;
            OnePerToken(next) && StageOf(next, token) == Takes(op, token, StageOf(live, token))
  {
    hide OnePerToken, StageOf, Holds, The;
    match op {
      case Reserve(t, expires) =>
        NotHeld(live, t);
        Added(live, Slot(t, PendingExpiry(lim, expires, now), expires, false), token);
      case Commit(t) =>
        var s := The(live, t, false);
        Removed(live, s, token);
        Added(live - {s}, Slot(t, s.leaseExpires, s.leaseExpires, true), token);
      case Cancel(t) => Removed(live, The(live, t, false), token);
      case Replace(t, next, expires) =>
        NotHeld(live, next);
        Removed(live, The(live, t, true), token);
        Added(live - {The(live, t, true)}, Slot(next, expires, expires, true), token);
      case Retire(t) => Removed(live, The(live, t, true), token);
    }
  }

  lemma NotHeld(live: set<Slot>, token: Token)
    requires !Holds(live, token, true) && !Holds(live, token, false)
    ensures forall s :: s in live ==> s.token != token
  {
    forall s | s in live ensures s.token != token { assert !Holds(live, token, s.active); }
  }

  lemma Added(live: set<Slot>, s: Slot, token: Token)
    requires OnePerToken(live) && forall t :: t in live ==> t.token != s.token
    ensures OnePerToken(live + {s})
    ensures StageOf(live + {s}, token) ==
            if token == s.token then (if s.active then Active else Pending) else StageOf(live, token)
  {
    assert s in live + {s};
    assert forall active :: token != s.token ==> Holds(live + {s}, token, active) == Holds(live, token, active);
  }

  lemma Removed(live: set<Slot>, s: Slot, token: Token)
    requires OnePerToken(live) && s in live
    ensures OnePerToken(live - {s}) && forall t :: t in live - {s} ==> t.token != s.token
    ensures StageOf(live - {s}, token) == if token == s.token then Gone else StageOf(live, token)
  {
    assert forall active :: token != s.token ==> Holds(live - {s}, token, active) == Holds(live, token, active);
  }
}
