/**
 ReplayEngine.run: de-duplicate and sort the records, replay them, project every work.
 The result depends only on which records there are.
 */
module ProjectionEngine {
  import opened Options
  import opened Projection
  import opened ProjectionInvariant

  function ItemOf(r: Record): Item
    requires r.Record?
  {
    Item(r.event, r.receipt)
  }

  /** Distinct items in order of first appearance. */
  function Collect(records: seq<Record>): seq<Item> {
    if records == [] then []
    else
      var rest, last := Collect(records[..|records| - 1]), records[|records| - 1];
      if last.Malformed? || ItemOf(last) in rest then rest else rest + [ItemOf(last)]
  }

  function Insert(items: seq<Item>, x: Item): seq<Item> {
    if items == [] then [x]
    else if items[|items| - 1].receipt.sequence <= x.receipt.sequence then items + [x]
    else Insert(items[..|items| - 1], x) + [items[|items| - 1]]
  }

  function Sort(items: seq<Item>): seq<Item> {
    if items == [] then [] else Insert(Sort(items[..|items| - 1]), items[|items| - 1])
  }

  // ------------------------------------------------------------- normalization

  ghost predicate WellFormed(r: Record) { r.Record? && r.receipt.sequence >= 1 }

  ghost predicate Compatible(a: Record, b: Record) {
    && WellFormed(a) && WellFormed(b)
    && (a.event.id == b.event.id ==> ItemOf(a) == ItemOf(b))
    && (a.receipt.sequence == b.receipt.sequence ==> a.event.id == b.event.id)
  }

  /** Every two records agree: one identifier has one event and receipt, one sequence one identifier. */
  ghost predicate Consistent(records: seq<Record>) {
    forall a, b :: a in records && b in records ==> Compatible(a, b)
  }

  ghost predicate Increasing(items: seq<Item>) {
    forall i, j :: 0 <= i < j < |items| ==> items[i].receipt.sequence < items[j].receipt.sequence
  }

  ghost predicate SameElements(a: seq<Item>, b: seq<Item>) {
    forall x :: x in a <==> x in b
  }

  ghost predicate Holds(records: seq<Record>, x: Item) {
    exists r :: r in records && r.Record? && ItemOf(r) == x
  }

  lemma {:induction false} CollectHolds(records: seq<Record>, x: Item)
    ensures x in Collect(records) <==> Holds(records, x)
    decreases |records|
  {
    if records != [] {
      var before, last := records[..|records| - 1], records[|records| - 1];
      CollectHolds(before, x);
      assert records == before + [last];
      if Holds(before, x) {
        var r :| r in before && r.Record? && ItemOf(r) == x;
        assert r in records;
      }
      assert last in records;
    }
  }

  /** Sequences tell the items apart. */
  ghost predicate DistinctSequences(items: seq<Item>) {
    forall i, j :: 0 <= i < j < |items| ==> items[i].receipt.sequence != items[j].receipt.sequence
  }

  lemma {:induction false} CollectDistinct(records: seq<Record>)
    requires Consistent(records)
    ensures DistinctSequences(Collect(records))
    decreases |records|
  {
    if records != [] {
      var before, last := records[..|records| - 1], records[|records| - 1];
      CollectDistinct(before);
      var rest := Collect(before);
      assert Compatible(last, last);
      forall i | 0 <= i < |rest| && ItemOf(last) !in rest ensures rest[i].receipt.sequence != last.receipt.sequence {
        CollectHolds(before, rest[i]);
        var r :| r in before && r.Record? && ItemOf(r) == rest[i];
        assert r in records && last in records;
        assert Compatible(r, last);
      }
    }
  }

  lemma {:induction false} InsertSorts(items: seq<Item>, x: Item)
    requires Increasing(items) && forall y :: y in items ==> y.receipt.sequence != x.receipt.sequence
    ensures Increasing(Insert(items, x)) && SameElements(Insert(items, x), items + [x])
    decreases |items|
  {
    if items != [] && items[|items| - 1].receipt.sequence > x.receipt.sequence {
      var before, last := items[..|items| - 1], items[|items| - 1];
      InsertSorts(before, x);
      assert items == before + [last];
      var r := Insert(before, x);
      forall i | 0 <= i < |r| ensures r[i].receipt.sequence < last.receipt.sequence {
        assert r[i] in before + [x];
      }
    }
  }

  lemma {:induction false} SortSorts(items: seq<Item>)
    requires DistinctSequences(items)
    ensures Increasing(Sort(items)) && SameElements(Sort(items), items)
    decreases |items|
  {
    if items != [] {
      var before, last := items[..|items| - 1], items[|items| - 1];
      SortSorts(before);
      assert items == before + [last];
      InsertSorts(Sort(before), last);
    }
  }

  lemma BothEmpty(a: seq<Item>, b: seq<Item>)
    requires SameElements(a, b)
    ensures a == [] <==> b == []
  {
    if a != [] { assert a[0] in b; }
    if b != [] { assert b[0] in a; }
  }

  lemma SameLast(a: seq<Item>, b: seq<Item>)
    requires Increasing(a) && Increasing(b) && SameElements(a, b) && a != [] && b != []
    ensures a[|a| - 1] == b[|b| - 1]
  {
    var x, y := a[|a| - 1], b[|b| - 1];
    assert y in b && x in a;
    assert y in a && x in b;
    var i :| 0 <= i < |a| && a[i] == y;
    var j :| 0 <= j < |b| && b[j] == x;
  }

  lemma SamePrefix(a: seq<Item>, b: seq<Item>, x: Item)
    requires Increasing(a + [x]) && Increasing(b + [x]) && SameElements(a + [x], b + [x])
    ensures SameElements(a, b) && Increasing(a) && Increasing(b)
  {
    LastIsNew(a, x);
    LastIsNew(b, x);
    hide Increasing;
    forall z ensures z in a <==> z in b {
      assert z in a + [x] <==> z in b + [x];
    }
  }

  lemma LastIsNew(a: seq<Item>, x: Item)
    requires Increasing(a + [x])
    ensures x !in a && Increasing(a)
  {
    var all := a + [x];
    assert forall i :: 0 <= i < |a| ==> a[i] == all[i];
    forall i | 0 <= i < |a| ensures a[i] != x { assert all[i].receipt.sequence < all[|a|].receipt.sequence; }
    forall i, j | 0 <= i < j < |a| ensures a[i].receipt.sequence < a[j].receipt.sequence {
      assert all[i].receipt.sequence < all[j].receipt.sequence;
    }
  }

  /** There is only one increasing sequence of given elements. */
  lemma {:induction false} IncreasingUnique(a: seq<Item>, b: seq<Item>)
    requires Increasing(a) && Increasing(b) && SameElements(a, b)
    ensures a == b
    decreases |a|
  {
    hide Increasing;
    BothEmpty(a, b);
    if a != [] {
      SameLast(a, b);
      var a', b' := a[..|a| - 1], b[..|b| - 1];
      assert a == a' + [a[|a| - 1]] && b == b' + [a[|a| - 1]];
      SamePrefix(a', b', a[|a| - 1]);
      IncreasingUnique(a', b');
    }
  }

  ghost predicate SameRecords(a: seq<Record>, b: seq<Record>) {
    forall r :: r in a <==> r in b
  }

  /** Records in any order, repeated or not, normalize to the same items. */
  lemma NormalizedAlike(a: seq<Record>, b: seq<Record>)
    requires SameRecords(a, b) && Consistent(a)
    ensures Consistent(b) && Sort(Collect(a)) == Sort(Collect(b))
  {
    CollectDistinct(a);
    CollectDistinct(b);
    SortSorts(Collect(a));
    SortSorts(Collect(b));
    forall x ensures x in Collect(a) <==> x in Collect(b) {
      CollectHolds(a, x);
      CollectHolds(b, x);
    }
    IncreasingUnique(Sort(Collect(a)), Sort(Collect(b)));
  }

  // --------------------------------------------------------------- the outcome

  datatype Report = Report(projections: map<string, Projection>, reasons: set<Reason>)

  /** The sequences seen are exactly 1 to the high water. */
  predicate Gapless(sequences: map<int, string>, highWater: int) {
    && (forall n :: 1 <= n <= highWater ==> n in sequences)
    && (forall n :: n in sequences ==> 1 <= n <= highWater)
  }

  function ReasonsOf(cfg: Config, s: State, items: seq<Item>, verified: bool): set<Reason> {
    (if verified then {} else {UnverifiedReceipt})
    + (if Gapless(s.sequences, cfg.highWater) && cfg.origin == 1 then {} else {SequenceGap})
    + (if cfg.highWaterVerified then {} else {UnverifiedHighWater})
    + (if exists x :: x in items && x.receipt.sequence > cfg.highWater then {RecordAfterHighWater} else {})
    + (if cfg.lifecycleActive then {} else {NonActiveLifecycle})
  }

  function Finish(cfg: Config, s: State, items: seq<Item>, verified: bool): Result<Report> {
    var reasons := ReasonsOf(cfg, s, items, verified);
    if forall work :: work in s.works ==> Project(cfg, s, reasons, work).Ok?
    then Ok(Report(map work | work in s.works :: Project(cfg, s, reasons, work).value, reasons))
    else Err(InvalidTranscript)
  }

  ghost predicate AllVerified(records: seq<Record>) {
    forall r :: r in records && r.Record? ==> r.verified
  }

  ghost function Outcome(cfg: Config, records: seq<Record>): Result<Report> {
    if !Consistent(records) then Err(InvalidTranscript)
    else match Replay(cfg, Sort(Collect(records)))
      case Err(code) => Err(code)
      case Ok(s) => Finish(cfg, s, Sort(Collect(records)), AllVerified(records))
  }

  /** Permuting or repeating records changes neither success nor, on success, projections and reasons. */
  lemma OrderIndependent(cfg: Config, a: seq<Record>, b: seq<Record>)
    requires SameRecords(a, b)
    ensures Outcome(cfg, a) == Outcome(cfg, b)
  {
    if Consistent(a) { NormalizedAlike(a, b); } else if Consistent(b) { NormalizedAlike(b, a); }
  }

  lemma ConsistentIds(records: seq<Record>)
    requires Consistent(records)
    ensures DistinctIds(Sort(Collect(records)))
  {
    var items := Sort(Collect(records));
    CollectDistinct(records);
    SortSorts(Collect(records));
    forall i, j | 0 <= i < j < |items| ensures items[i].event.id != items[j].event.id {
      CollectHolds(records, items[i]);
      CollectHolds(records, items[j]);
      var p :| p in records && p.Record? && ItemOf(p) == items[i];
      var q :| q in records && q.Record? && ItemOf(q) == items[j];
      assert Compatible(p, q);
    }
  }

  /** A run fails only where its records disagree or one of them is refused; projecting never fails. */
  lemma RunSucceedsExactly(cfg: Config, records: seq<Record>)
    ensures Outcome(cfg, records).Ok? <==> Consistent(records) && Replay(cfg, Sort(Collect(records))).Ok?
  {
    if Consistent(records) && Replay(cfg, Sort(Collect(records))).Ok? {
      ConsistentIds(records);
      var items := Sort(Collect(records));
      var s := Replay(cfg, items).value;
      assert items[..|items|] == items;
      var reasons := ReasonsOf(cfg, s, items, AllVerified(records));
      forall work ensures Project(cfg, s, reasons, work).Ok? {
        ProjectNeverFails(cfg, items, |items|, reasons, work);
      }
    }
  }

  // ----------------------------------------------------------------- the engine

  class ReplayEngine {
    const cfg: Config
    var events: map<string, Event>
    var sequences: map<int, string>
    var claims: map<Key, Claim>
    var used: set<Key>
    var offers: map<string, Offer>
    var awaiting: map<string, Acceptance>
    var works: set<string>
    var triggers: map<string, int>

    constructor (cfg: Config)
      ensures this.cfg == cfg && View() == EMPTY
    {
      this.cfg := cfg;
      events, sequences, claims, used, offers, awaiting, works, triggers :=
          map[], map[], map[], {}, map[], map[], {}, map[];
    }

    function View(): State
      reads this
    {
      State(events, sequences, claims, used, offers, awaiting, works, triggers)
    }

    /** The engine now holds what `r` says, or reports its code. */
    ghost predicate Became(r: Result<State>, code: Option<Code>)
      reads this
    {
      match r
      case Ok(s) => code.None? && View() == s
      case Err(c) => code == Some(c)
    }

    method UpdateConflictTrigger(work: string, sequence: int)
      modifies this
      ensures View() == UpdateTrigger(old(View()), work, sequence)
    {
      var count := |Active(claims, work)|;
      if count > 1 && work !in triggers {
        triggers := triggers[work := sequence];
      } else if count <= 1 {
        triggers := triggers - {work};
      }
    }

    method AddClaim(e: Event, sequence: int, work: string, id: string) returns (code: Option<Code>)
      modifies this
      ensures Became(ApplyClaim(old(View()), e, sequence, work, id), code)
    {
      hide UpdateTrigger, Active;
      var claimId, generation := Get(e.data, "claim_id"), Get(e.data, "generation");
      if !claimId.Text? || !generation.Text? {
        return Some(InvalidPayload);
      }
      var key := (claimId.text, generation.text);
      if key in used {
        return Some(InvalidClaimTransition);
      }
      var predecessor := Get(e.data, "predecessor_handoff_event");
      if predecessor != Absent {
        if !predecessor.Text? || predecessor.text !in awaiting {
          return Some(InvalidClaimTransition);
        }
        if e.causation != predecessor {
          return Some(InvalidReference);
        }
        awaiting := awaiting - {predecessor.text};
      }
      if |Active(claims, work)| >= MAX_ACTIVE {
        return Some(ResourceLimit);
      }
      claims := claims[key := Claim(id, work, true, id, {})];
      used := used + {key};
      UpdateConflictTrigger(work, sequence);
      return None;
    }

    method AddOffer(e: Event, key: Key, id: string) returns (code: Option<Code>)
      requires key in claims
      modifies this
      ensures Became(ApplyOffer(old(View()), e, key, old(claims[key]), id), code)
    {
      var claim := claims[key];
      if |claim.offers| >= MAX_ACTIVE {
        return Some(ResourceLimit);
      }
      var handoff, recipient := Get(e.data, "handoff_id"), Get(e.data, "to_participant_instance_id");
      var boundary, evidence := Get(e.data, "boundary_digest"), Get(e.data, "evidence_set_digest");
      if !(handoff.Text? && recipient.Text? && boundary.Text? && evidence.Text?) {
        return Some(InvalidPayload);
      }
      offers := offers[id := Offer(handoff.text, key, recipient.text, boundary.text, evidence.text, None)];
      claims := claims[key := claim.(last := id, offers := claim.offers + {id})];
      return None;
    }

    method ChangeClaim(e: Event, sequence: int, work: string, id: string) returns (code: Option<Code>)
      modifies this
      ensures Became(ApplyLifecycle(old(View()), e, sequence, work, id), code)
    {
      hide UpdateTrigger, ApplyOffer;
      var found := ClaimFor(View(), e.data, work);
      if found.None? || !claims[found.value].active {
        return Some(InvalidClaimTransition);
      }
      var key := found.value;
      var claim, parent := claims[key], Get(e.data, "parent_claim_event_id");
      if e.kind.HandoffOffer? && (parent != Text(claim.last) || e.causation != parent) {
        return Some(HandoffPreconditionFailed);
      }
      if parent != Text(claim.last) || e.causation != parent {
        return Some(InvalidReference);
      }
      if e.kind.Progress? {
        claims := claims[key := claim.(last := id)];
        return None;
      } else if e.kind.Release? {
        claims := claims[key := claim.(active := false, last := id, offers := {})];
        UpdateConflictTrigger(work, sequence);
        return None;
      } else {
        code := AddOffer(e, key, id);
      }
    }

    /** Accept one offer and supersede the claim's others, one shared record at a time. */
    method SupersedeOthers(open: set<string>, o: string, id: string)
      requires o in offers
      modifies this`offers
      ensures offers == Accepted(old(offers), open, o, id)
    {
      ghost var before := offers;
      offers := offers[o := offers[o].(accepted := Some(id))];
      var left := open;
      while left != {}
        invariant left <= open && offers == Accepted(before, open - left, o, id)
        decreases |left|
      {
        var current :| current in left;
        if current != o && current in offers {
          offers := offers[current := offers[current].(accepted := Some("superseded"))];
        }
        left := left - {current};
      }
      assert open - left == open;
    }

    method AcceptOffer(e: Event, r: Receipt, id: string) returns (code: Option<Code>)
      modifies this
      ensures Became(ApplyAccept(old(View()), e, r, id), code)
    {
      if !MayAccept(View(), e, r) {
        return Some(HandoffPreconditionFailed);
      }
      var o := Get(e.data, "offer_event_id").text;
      var key := offers[o].claim;
      var claim := claims[key];
      hide MayAccept, Get, Accepted;
      SupersedeOthers(claim.offers, o, id);
      claims := claims[key := claim.(offers := {}, last := id)];
      awaiting := awaiting[id := Acceptance(key.0, r.sequence)];
      return None;
    }

    method ApplyEvent(e: Event, r: Receipt, id: string) returns (code: Option<Code>)
      modifies this
      ensures Became(Apply(cfg, old(View()), e, r, id), code)
    {
      hide ApplyClaim, ApplyLifecycle, ApplyAccept;
      if !WorkKind(e.kind) || e.work.None? {
        return None;
      }
      var work := e.work.value.uri;
      works := works + {work};
      if e.data.NotObject? {
        return Some(InvalidTranscript);
      }
      match e.kind {
        case ClaimKind => code := AddClaim(e, r.sequence, work, id);
        case Progress => code := ChangeClaim(e, r.sequence, work, id);
        case Release => code := ChangeClaim(e, r.sequence, work, id);
        case HandoffOffer => code := ChangeClaim(e, r.sequence, work, id);
        case HandoffAccept => code := AcceptOffer(e, r, id);
        case Question => return None;
        case ReviewRequest => return None;
        case _ =>
          match ApplyReference(cfg, View(), e) {
            case Ok(_) => return None;
            case Err(c) => return Some(c);
          }
      }
    }

    method ReplayItem(item: Item) returns (code: Option<Code>)
      modifies this
      ensures Became(Step(cfg, old(View()), item), code)
    {
      hide Apply, CheckBinding;
      var e, r := item.event, item.receipt;
      if !e.id.Text? {
        return Some(InvalidEnvelope);
      }
      var binding := CheckBinding(cfg, View(), e, r);
      if binding.Some? {
        return binding;
      }
      if r.sequence > cfg.highWater {
        return None;
      }
      events := events[e.id.text := e];
      sequences := sequences[r.sequence := e.id.text];
      code := ApplyEvent(e, r, e.id.text);
    }

    /** Replay every item in order; on failure the first refusal is reported. */
    method ReplayAll(items: seq<Item>) returns (code: Option<Code>)
      requires View() == EMPTY
      modifies this
      ensures Became(Replay(cfg, items), code)
    {
      hide Step;
      var i := 0;
      while i < |items|
        invariant 0 <= i <= |items| && Replay(cfg, items[..i]) == Ok(View())
      {
        code := ReplayItem(items[i]);
        assert items[..i + 1][..i] == items[..i];
        if code.Some? {
          RefusedStays(cfg, items, i + 1, code.value);
          return;
        }
        i := i + 1;
      }
      assert items[..i] == items;
      return None;
    }
  }

  lemma {:induction false} RefusedStays(cfg: Config, items: seq<Item>, k: nat, code: Code)
    requires k <= |items| && Replay(cfg, items[..k]) == Err(code)
    ensures Replay(cfg, items) == Err(code)
    decreases |items|
  {
    if k == |items| {
      assert items[..k] == items;
    } else {
      hide Step;
      var before := items[..|items| - 1];
      assert before[..k] == items[..k];
      RefusedStays(cfg, before, k, code);
    }
  }

  // -------------------------------------------------------------------- run

  ghost predicate HasId(seen: seq<Record>, id: Field) {
    exists r :: r in seen && r.Record? && r.event.id == id
  }

  ghost predicate HasSequence(seen: seq<Record>, n: int) {
    exists r :: r in seen && r.Record? && r.receipt.sequence == n
  }

  ghost predicate Noted(r: Record, events: map<Field, Item>, sequences: set<int>) {
    r.Record? ==> r.event.id in events && events[r.event.id] == ItemOf(r) && r.receipt.sequence in sequences
  }

  /** The dictionaries of the normalizing loop, after the records in `seen`. */
  ghost predicate Observed(seen: seq<Record>, events: map<Field, Item>, sequences: set<int>) {
    && (forall r :: r in seen ==> Noted(r, events, sequences))
    && (forall id :: id in events ==> HasId(seen, id))
    && (forall n :: n in sequences ==> HasSequence(seen, n))
  }

  lemma AllVerifiedGrows(seen: seq<Record>, record: Record)
    requires record.Record?
    ensures AllVerified(seen + [record]) <==> AllVerified(seen) && record.verified
  {
    assert record in seen + [record];
    assert forall r :: r in seen ==> r in seen + [record];
  }

  /** An exact repetition changes nothing. */
  lemma KnownItem(seen: seq<Record>, record: Record, events: map<Field, Item>, sequences: set<int>)
    requires Consistent(seen) && WellFormed(record) && Observed(seen, events, sequences)
    requires record.event.id in events && events[record.event.id] == ItemOf(record)
    ensures Consistent(seen + [record]) && Collect(seen + [record]) == Collect(seen)
    ensures Observed(seen + [record], events, sequences)
  {
    assert HasId(seen, record.event.id);
    var r :| r in seen && r.Record? && r.event.id == record.event.id;
    assert Noted(r, events, sequences);
    CollectHolds(seen, ItemOf(record));
    var all := seen + [record];
    assert all[..|seen|] == seen;
    forall a, b | a in all && b in all ensures Compatible(a, b) {
      assert Compatible(if a in seen then a else r, if b in seen then b else r);
    }
    hide Compatible, HasId, HasSequence;
    forall x | x in all ensures Noted(x, events, sequences) {
      if x in seen { assert Noted(x, events, sequences); }
    }
    hide Noted;
    forall id | id in events ensures HasId(all, id) { HasGrows(seen, record, id, 0); }
    forall n | n in sequences ensures HasSequence(all, n) { HasGrows(seen, record, Absent, n); }
  }

  lemma NewConsistent(seen: seq<Record>, record: Record, events: map<Field, Item>, sequences: set<int>)
    requires Consistent(seen) && WellFormed(record) && Observed(seen, events, sequences)
    requires record.event.id !in events && record.receipt.sequence !in sequences
    ensures Consistent(seen + [record])
  {
    forall a | a in seen
      ensures Compatible(a, record) && Compatible(record, a) { assert Compatible(a, a) && Noted(a, events, sequences); }
    hide Observed;
    assert Compatible(record, record);
    hide Compatible;
    forall a, b | a in seen + [record] && b in seen + [record] ensures Compatible(a, b) {
      assert a in seen || a == record;
      assert b in seen || b == record;
    }
  }

  lemma NewObserved(seen: seq<Record>, record: Record, events: map<Field, Item>, sequences: set<int>)
    requires WellFormed(record) && Observed(seen, events, sequences) && record.event.id !in events
    ensures Observed(seen + [record], events[record.event.id := ItemOf(record)], sequences + {record.receipt.sequence})
  {
    var all, events', sequences' := seen + [record], events[record.event.id := ItemOf(record)],
        sequences + {record.receipt.sequence};
    assert Noted(record, events', sequences') && HasId(all, record.event.id)
        && HasSequence(all, record.receipt.sequence) by {
      assert all[|seen|] == record;
    }
    forall r | r in all ensures Noted(r, events', sequences') {
      if r != record { assert r in seen && Noted(r, events, sequences); }
    }
    hide HasId, HasSequence, Noted;
    forall id | id in events ensures HasId(all, id) { HasGrows(seen, record, id, 0); }
    forall n | n in sequences ensures HasSequence(all, n) { HasGrows(seen, record, Absent, n); }
  }

  lemma HasGrows(seen: seq<Record>, record: Record, id: Field, n: int)
    ensures HasId(seen, id) ==> HasId(seen + [record], id)
    ensures HasSequence(seen, n) ==> HasSequence(seen + [record], n)
  {
    assert forall r :: r in seen ==> r in seen + [record];
  }

  lemma NewItem(seen: seq<Record>, record: Record, events: map<Field, Item>, sequences: set<int>)
    requires Consistent(seen) && WellFormed(record) && Observed(seen, events, sequences)
    requires record.event.id !in events && record.receipt.sequence !in sequences
    ensures Consistent(seen + [record]) && Collect(seen + [record]) == Collect(seen) + [ItemOf(record)]
    ensures Observed(seen + [record], events[record.event.id := ItemOf(record)], sequences + {record.receipt.sequence})
  {
    NewConsistent(seen, record, events, sequences);
    NewObserved(seen, record, events, sequences);
    hide Consistent;
    CollectHolds(seen, ItemOf(record));
    assert (seen + [record])[..|seen|] == seen;
    assert !Holds(seen, ItemOf(record)) by {
      forall r | r in seen && r.Record? ensures ItemOf(r) != ItemOf(record) { assert Noted(r, events, sequences); }
    }
  }

  /** One more record: the three outcomes of the loop body that go on. */
  lemma OneMore(records: seq<Record>, i: nat, events: map<Field, Item>, sequences: set<int>)
    requires i < |records| && Consistent(records[..i]) && Observed(records[..i], events, sequences)
    requires WellFormed(records[i])
    requires var record := records[i];
             if record.event.id in events then events[record.event.id] == ItemOf(record)
             else record.receipt.sequence !in sequences
    ensures var seen, now, record := records[..i], records[..i + 1], records[i];
            && Consistent(now) && (AllVerified(now) <==> AllVerified(seen) && record.verified)
            && if record.event.id in events then Collect(now) == Collect(seen) && Observed(now, events, sequences)
               else && Collect(now) == Collect(seen) + [ItemOf(record)]
                    && Observed(now, events[record.event.id := ItemOf(record)], sequences + {record.receipt.sequence})
  {
    hide Consistent, AllVerified, Collect, Observed;
    var seen, record := records[..i], records[i];
    assert records[..i + 1] == seen + [record];
    AllVerifiedGrows(seen, record);
    if record.event.id in events {
      KnownItem(seen, record, events, sequences);
    } else {
      NewItem(seen, record, events, sequences);
    }
  }

  lemma NothingObserved()
    ensures Consistent([]) && AllVerified([]) && Collect([]) == [] && Observed([], map[], {})
  {}

  /** A record that is malformed, or disagrees with an earlier one, makes the records inconsistent. */
  lemma Refused(records: seq<Record>, i: nat, events: map<Field, Item>, sequences: set<int>)
    requires i < |records| && Observed(records[..i], events, sequences)
    requires var record := records[i];
             || !WellFormed(record)
             || (record.event.id in events && events[record.event.id] != ItemOf(record))
             || (record.event.id !in events && record.receipt.sequence in sequences)
    ensures !Consistent(records) && !Consistent(records[..i + 1])
    ensures WellFormed(records[i]) ==>
              (CollidesIn(records[..i], records[i]) <==>
               records[i].event.id in events && events[records[i].event.id].event != records[i].event)
  {
    var seen, upto, record := records[..i], records[..i + 1], records[i];
    assert upto == seen + [record];
    assert record in records && record in upto;
    if !WellFormed(record) {
      assert !Compatible(record, record);
    } else if record.event.id in events {
      assert HasId(seen, record.event.id);
      var r :| r in seen && r.Record? && r.event.id == record.event.id;
      assert Noted(r, events, sequences);
      assert r in records && r in upto && !Compatible(r, record);
    } else {
      assert HasSequence(seen, record.receipt.sequence);
      var r :| r in seen && r.Record? && r.receipt.sequence == record.receipt.sequence;
      assert Noted(r, events, sequences);
      assert r in records && r in upto && !Compatible(r, record);
    }
  }

  /** An earlier record has this one's event ID with another event. */
  ghost predicate CollidesIn(seen: seq<Record>, record: Record)
    requires record.Record?
  {
    exists r :: r in seen && r.Record? && r.event.id == record.event.id && r.event != record.event
  }

  /** The first record that is malformed or disagrees with an earlier one, and the code it is refused with. */
  ghost predicate DisagreesAt(records: seq<Record>, i: int, code: Code) {
    && 0 <= i < |records| && Consistent(records[..i]) && !Consistent(records[..i + 1])
    && code == if records[i].Malformed? then InvalidTranscript
               else if 1 <= records[i].receipt.sequence && CollidesIn(records[..i], records[i]) then IdCollision
               else InvalidReceipt
  }

  /** De-duplicate and sort; an error where two records disagree or one is malformed. */
  method Normalize(records: seq<Record>) returns (result: Result<seq<Item>>, verified: bool)
    ensures result.Ok? <==> Consistent(records)
    ensures result.Ok? ==> result.value == Sort(Collect(records)) && verified == AllVerified(records)
    ensures result.Err? ==> exists i :: DisagreesAt(records, i, result.code)
  {
    hide Consistent, Collect, Observed, AllVerified, Sort;
    NothingObserved();
    var normalized: seq<Item> := [];
    var observedEvents: map<Field, Item> := map[];
    var observedSequences: set<int> := {};
    verified := true;
    var i := 0;
    while i < |records|
      invariant 0 <= i <= |records| && Consistent(records[..i])
      invariant normalized == Collect(records[..i]) && verified == AllVerified(records[..i])
      invariant Observed(records[..i], observedEvents, observedSequences)
    {
      var record := records[i];
      if record.Malformed? {
        Refused(records, i, observedEvents, observedSequences);
        assert DisagreesAt(records, i, InvalidTranscript);
        return Err(InvalidTranscript), verified;
      }
      if record.receipt.sequence < 1 {
        Refused(records, i, observedEvents, observedSequences);
        assert DisagreesAt(records, i, InvalidReceipt);
        return Err(InvalidReceipt), verified;
      }
      var item := ItemOf(record);
      if !record.verified {
        verified := false;
      }
      if item.event.id in observedEvents {
        var prior := observedEvents[item.event.id];
        if prior != item {
          Refused(records, i, observedEvents, observedSequences);
          var code := if prior.event != item.event then IdCollision else InvalidReceipt;
          assert DisagreesAt(records, i, code);
          return Err(code), verified;
        }
        OneMore(records, i, observedEvents, observedSequences);
      } else {
        if item.receipt.sequence in observedSequences {
          Refused(records, i, observedEvents, observedSequences);
          assert DisagreesAt(records, i, InvalidReceipt);
          return Err(InvalidReceipt), verified;
        }
        OneMore(records, i, observedEvents, observedSequences);
        observedEvents := observedEvents[item.event.id := item];
        observedSequences := observedSequences + {item.receipt.sequence};
        normalized := normalized + [item];
      }
      i := i + 1;
    }
    assert records[..i] == records;
    return Ok(Sort(normalized)), verified;
  }

  /** The whole run: the projections of every work and the reasons for incompleteness. */
  method Run(cfg: Config, records: seq<Record>) returns (result: Result<Report>)
    ensures Consistent(records) ==> result == Outcome(cfg, records)
    ensures !Consistent(records) ==> result.Err? && exists i :: DisagreesAt(records, i, result.code)
  {
    var normalized, verified := Normalize(records);
    if normalized.Err? {
      return Err(normalized.code);
    }
    var items := normalized.value;
    var engine := new ReplayEngine(cfg);
    var code := engine.ReplayAll(items);
    if code.Some? {
      return Err(code.value);
    }
    hide Finish, Replay, Consistent, Collect, Sort, AllVerified;
    return Finish(cfg, engine.View(), items, verified);
  }
}
