/**
 Which record the replay engine accepts next, and with which code it refuses any other, said
 over the records replayed before it.
 */
module ProjectionRefusals {
  import opened Options
  import opened Projection
  import opened ProjectionInvariant
  import opened ProjectionHistory
  import opened ProjectionAnswers

  /** Records replayed without refusal, and a record that comes next. */
  ghost predicate NextAfter(cfg: Config, items: seq<Item>, item: Item) {
    && Replay(cfg, items).Ok? && DistinctIds(items)
    && forall i :: 0 <= i < |items| ==> items[i].event.id != item.event.id
  }

  /** An earlier record within the high water with this event ID. */
  ghost predicate Seen(cfg: Config, items: seq<Item>, i: nat, x: string) {
    Counts(cfg, items, i) && Is(items, i, x)
  }

  // ------------------------------------------------------------------- binding

  /** What must bind a record to the ones before it; p is the place of the record it names as its cause. */
  ghost function BindingCode(cfg: Config, items: seq<Item>, e: Event, r: Receipt, p: nat): Option<Code> {
    if cfg.bound(e, r).Some? then cfg.bound(e, r)
    else if e.kind.Join? || e.kind.Presence? || e.kind.Leave? then None
    else if e.work.None? || !e.correlation.Text? then Some(InvalidEnvelope)
    else if e.kind.ClaimKind? || e.kind.Question? || e.kind.ReviewRequest? then
      if e.correlation == e.id then None else Some(InvalidReference)
    else if !e.causation.Text? then Some(InvalidEnvelope)
    else if !Seen(cfg, items, p, e.causation.text) then Some(UnresolvedCausation)
    else if items[p].event.channel != e.channel || items[p].event.work != e.work then Some(CrossChannelReference)
    else if items[p].event.correlation != e.correlation then Some(InvalidReference)
    else None
  }

  ghost predicate Cause(cfg: Config, items: seq<Item>, e: Event, p: nat) {
    e.causation.Text? && SeenBefore(cfg, items, |items|, e.causation.text) ==>
      Seen(cfg, items, p, e.causation.text)
  }

  /** The record at p is what the engine keeps under its ID. */
  lemma SeenIsKept(cfg: Config, items: seq<Item>, p: nat, x: string)
    requires Replay(cfg, items).Ok? && DistinctIds(items)
    ensures x in Replay(cfg, items).value.events <==> SeenBefore(cfg, items, |items|, x)
    ensures Seen(cfg, items, p, x) ==>
              x in Replay(cfg, items).value.events && Replay(cfg, items).value.events[x] == items[p].event
  {
    RecordHistory(cfg, items, |items|, x, 0, "");
    assert items[..|items|] == items;
    hide Replay, DistinctIds;
    if Seen(cfg, items, p, x) { assert SeenBefore(cfg, items, |items|, x); }
  }

  lemma BindingExactly(cfg: Config, items: seq<Item>, e: Event, r: Receipt, p: nat)
    requires Replay(cfg, items).Ok? && DistinctIds(items) && Cause(cfg, items, e, p)
    ensures CheckBinding(cfg, Replay(cfg, items).value, e, r) == BindingCode(cfg, items, e, r, p)
  {
    if e.causation.Text? { SeenIsKept(cfg, items, p, e.causation.text); }
    hide Replay, DistinctIds;
    if e.causation.Text? && Seen(cfg, items, p, e.causation.text) {
      assert SeenBefore(cfg, items, |items|, e.causation.text);
    }
  }

  // -------------------------------------------------------------------- claims

  /** Why a claim is refused; `active` are the contenders for its work. */
  ghost function ClaimCode(cfg: Config, items: seq<Item>, e: Event, active: set<Key>): Option<Code> {
    var id, generation, p := Get(e.data, "claim_id"), Get(e.data, "generation"),
      Get(e.data, "predecessor_handoff_event");
    if !id.Text? || !generation.Text? then Some(InvalidPayload)
    else if ClaimedBefore(cfg, items, |items|, (id.text, generation.text)) then Some(InvalidClaimTransition)
    else if p != Absent && !(p.Text? && WaitsBefore(cfg, items, |items|, p.text)) then Some(InvalidClaimTransition)
    else if p != Absent && e.causation != p then Some(InvalidReference)
    else if |active| >= 32 then Some(ResourceLimit)
    else None
  }

  lemma ClaimRefusedExactly(cfg: Config, items: seq<Item>, s1: State, e: Event, sequence: int, work: string, id: string,
                            active: set<Key>)
    requires Replay(cfg, items).Ok? && DistinctIds(items)
    requires var s := Replay(cfg, items).value;
             s1.claims == s.claims && s1.used == s.used && s1.awaiting == s.awaiting
    requires forall key :: key in active <==> Contends(cfg, items, |items|, key, work)
    ensures var result := ApplyClaim(s1, e, sequence, work, id);
            match ClaimCode(cfg, items, e, active)
            case Some(code) => result == Err(code)
            case None => result.Ok?
  {
    var s := Replay(cfg, items).value;
    assert items[..|items|] == items;
    ReplayInv(cfg, items, |items|);
    var c, g, p := Get(e.data, "claim_id"), Get(e.data, "generation"), Get(e.data, "predecessor_handoff_event");
    if c.Text? && g.Text? { ClaimHistory(cfg, items, |items|, (c.text, g.text)); }
    if p.Text? { AwaitHistory(cfg, items, |items|, p.text); }
    forall key ensures key in active <==> key in Active(s.claims, work) {
      KnownWork(cfg, items, |items|, key, work);
    }
    assert active == Active(s.claims, work);
    hide Replay, DistinctIds, Get, Contends, Active, ClaimedBefore, WaitsBefore, UpdateTrigger;
  }

  // ------------------------------------------------------- progress, release, offer

  /** Why a record that continues a claim is refused; `open` are the claim's open offers. */
  ghost function ContinueCode(cfg: Config, items: seq<Item>, e: Event, work: string, open: set<string>): Option<Code> {
    var id, generation, parent := Get(e.data, "claim_id"), Get(e.data, "generation"),
      Get(e.data, "parent_claim_event_id");
    if !id.Text? || !generation.Text? || !Contends(cfg, items, |items|, (id.text, generation.text), work)
    then Some(InvalidClaimTransition)
    else if !(parent.Text? && LatestIs(cfg, items, |items|, (id.text, generation.text), parent.text)
              && e.causation == parent)
    then Some(if e.kind.HandoffOffer? then HandoffPreconditionFailed else InvalidReference)
    else if !e.kind.HandoffOffer? then None
    else if |open| >= 32 then Some(ResourceLimit)
    else if !(Get(e.data, "handoff_id").Text? && Get(e.data, "to_participant_instance_id").Text?
              && Get(e.data, "boundary_digest").Text? && Get(e.data, "evidence_set_digest").Text?)
    then Some(InvalidPayload)
    else None
  }

  ghost predicate OpenOf(cfg: Config, items: seq<Item>, e: Event, open: set<string>) {
    forall key, o :: Names(e, key) ==> (o in open <==> OpenBefore(cfg, items, |items|, key, o))
  }

  lemma ContinueRefusedExactly(cfg: Config, items: seq<Item>, s1: State, e: Event, sequence: int, work: string,
                               id: string, open: set<string>)
    requires Replay(cfg, items).Ok? && DistinctIds(items) && s1.claims == Replay(cfg, items).value.claims
    requires (e.kind.Progress? || e.kind.Release? || e.kind.HandoffOffer?) && OpenOf(cfg, items, e, open)
    ensures var result := ApplyLifecycle(s1, e, sequence, work, id);
            match ContinueCode(cfg, items, e, work, open)
            case Some(code) => result == Err(code)
            case None => result.Ok?
  {
    var s := Replay(cfg, items).value;
    assert items[..|items|] == items;
    var c, g, parent := Get(e.data, "claim_id"), Get(e.data, "generation"), Get(e.data, "parent_claim_event_id");
    if c.Text? && g.Text? {
      var key := (c.text, g.text);
      assert Names(e, key);
      KnownWork(cfg, items, |items|, key, work);
      if parent.Text? { LatestHistory(cfg, items, |items|, key, parent.text); }
      forall o ensures o in open <==> o in OffersOf(s, key) { OfferHistory(cfg, items, |items|, key, o); }
      assert open == OffersOf(s, key);
    }
    hide Replay, DistinctIds, Get, Contends, LatestIs, OpenOf, UpdateTrigger;
  }

  // --------------------------------------------------------------- acceptances

  /** The acceptance names an offer that is open, made by record m on the claim of record i, repeats what both say,
      and comes from the participant it was offered to. */
  ghost predicate Acceptable(cfg: Config, items: seq<Item>, e: Event, r: Receipt, key: Key, m: nat, i: nat) {
    && OpenAt(cfg, items, |items|, m, key) && i < |items| && ClaimAt(cfg, items, i, key) && Names(e, key)
    && Get(e.data, "offer_event_id") == items[m].event.id && e.causation == items[m].event.id
    && r.instance == FieldOf(items[m], "to_participant_instance_id")
    && Get(e.data, "handoff_id") == FieldOf(items[m], "handoff_id")
    && Get(e.data, "source_claim_event_id") == items[i].event.id
    && Get(e.data, "boundary_digest") == FieldOf(items[m], "boundary_digest")
    && Get(e.data, "evidence_set_digest") == FieldOf(items[m], "evidence_set_digest")
  }

  lemma AcceptedIsAcceptable(cfg: Config, items: seq<Item>, s1: State, e: Event, r: Receipt) returns (key: Key, m: nat,
                             i: nat)
    requires Replay(cfg, items).Ok? && DistinctIds(items) && MayAccept(s1, e, r)
    requires s1.claims == Replay(cfg, items).value.claims && s1.offers == Replay(cfg, items).value.offers
    ensures Acceptable(cfg, items, e, r, key, m, i)
  {
    var s, o := Replay(cfg, items).value, Get(e.data, "offer_event_id").text;
    assert items[..|items|] == items;
    key := s.offers[o].claim;
    OfferHistory(cfg, items, |items|, key, o);
    m :| OpenAt(cfg, items, |items|, m, key) && Is(items, m, o);
    OfferIsRead(cfg, items, |items|, m, o);
    ClaimHistory(cfg, items, |items|, key);
    i :| i < |items| && ClaimAt(cfg, items, i, key);
    hide Replay, DistinctIds, Get, OpenBefore, ReleasedBefore;
  }

  lemma AcceptableIsAccepted(cfg: Config, items: seq<Item>, s1: State, e: Event, r: Receipt, key: Key, m: nat, i: nat)
    requires Replay(cfg, items).Ok? && DistinctIds(items) && Acceptable(cfg, items, e, r, key, m, i)
    requires s1.claims == Replay(cfg, items).value.claims && s1.offers == Replay(cfg, items).value.offers
    ensures MayAccept(s1, e, r)
  {
    var s := Replay(cfg, items).value;
    assert items[..|items|] == items;
    StepEffect(cfg, items, m, key, "");
    var o := items[m].event.id.text;
    assert Is(items, m, o);
    OfferHistory(cfg, items, |items|, key, o);
    OfferIsRead(cfg, items, |items|, m, o);
    ClaimHistory(cfg, items, |items|, key);
    ReplayInv(cfg, items, |items|);
    assert ClaimInv(s, key);
    hide Replay, DistinctIds, Get, OpenBefore, ReleasedBefore;
  }

  // ------------------------------------------------------------------ references

  /** Why an answer, verdict or verification is refused; p is the place of the record it refers to. */
  ghost function ReferenceCode(cfg: Config, items: seq<Item>, e: Event, p: nat): Option<Code> {
    var parent := Get(e.data, if e.kind.Answer? then "question_event_id"
                              else if e.kind.Verdict? then "review_event_id" else "referenced_event_id");
    if parent != e.causation || !e.causation.Text? || !Seen(cfg, items, p, e.causation.text)
    then Some(InvalidReference)
    else if e.kind.Answer? && !items[p].event.kind.Question? then Some(InvalidReference)
    else if e.kind.Verdict? && !items[p].event.kind.ReviewRequest? then Some(InvalidReference)
    else if e.kind.EvidenceVerification? then cfg.evidence(e.data, items[p].event)
    else None
  }

  lemma ReferenceRefusedExactly(cfg: Config, items: seq<Item>, s1: State, e: Event, p: nat)
    requires Replay(cfg, items).Ok? && DistinctIds(items) && Cause(cfg, items, e, p)
    requires e.kind.Answer? || e.kind.Verdict? || e.kind.EvidenceVerification?
    requires e.causation.Text? ==>
               && (e.causation.text in s1.events <==> e.causation.text in Replay(cfg, items).value.events)
               && (e.causation.text in s1.events ==>
                     s1.events[e.causation.text] == Replay(cfg, items).value.events[e.causation.text])
    ensures match ReferenceCode(cfg, items, e, p)
            case Some(code) => ApplyReference(cfg, s1, e) == Err(code)
            case None => ApplyReference(cfg, s1, e).Ok?
  {
    if e.causation.Text? { SeenIsKept(cfg, items, p, e.causation.text); }
    hide Replay, DistinctIds;
    if e.causation.Text? && Seen(cfg, items, p, e.causation.text) {
      assert SeenBefore(cfg, items, |items|, e.causation.text);
    }
  }

  // ------------------------------------------------------------------ the next record

  /** Why the next record is refused, if it is. */
  ghost function RefusalCode(cfg: Config, items: seq<Item>, item: Item, p: nat, active: set<Key>,
                             open: set<string>): Option<Code> {
    var e, r := item.event, item.receipt;
    if !e.id.Text? then Some(InvalidEnvelope)
    else if BindingCode(cfg, items, e, r, p).Some? then BindingCode(cfg, items, e, r, p)
    else if r.sequence > cfg.highWater || e.kind.Join? || e.kind.Presence? || e.kind.Leave? then None
    else if e.data.NotObject? then Some(InvalidTranscript)
    else if e.work.None? then None
    else match e.kind
      case ClaimKind => ClaimCode(cfg, items, e, active)
      case Progress => ContinueCode(cfg, items, e, e.work.value.uri, open)
      case Release => ContinueCode(cfg, items, e, e.work.value.uri, open)
      case HandoffOffer => ContinueCode(cfg, items, e, e.work.value.uri, open)
      case HandoffAccept =>
        if exists key, m: nat, i: nat :: Acceptable(cfg, items, e, r, key, m, i) then None
        else Some(HandoffPreconditionFailed)
      case Question => None
      case ReviewRequest => None
      case _ => ReferenceCode(cfg, items, e, p)
  }

  lemma ApplyRefusedExactly(cfg: Config, items: seq<Item>, item: Item, p: nat, active: set<Key>, open: set<string>)
    requires NextAfter(cfg, items, item) && Cause(cfg, items, item.event, p) && OpenOf(cfg, items, item.event, open)
    requires item.event.id.Text? && item.event.work.Some? && !item.event.data.NotObject? && WorkKind(item.event.kind)
    requires forall key :: key in active <==> Contends(cfg, items, |items|, key, item.event.work.value.uri)
    requires BindingCode(cfg, items, item.event, item.receipt, p).None? && item.receipt.sequence <= cfg.highWater
    ensures var s, e, r := Replay(cfg, items).value, item.event, item.receipt;
            var s1 := s.(events := s.events[e.id.text := e], sequences := s.sequences[r.sequence := e.id.text]);
            match RefusalCode(cfg, items, item, p, active, open)
            case Some(code) => Apply(cfg, s1, e, r, e.id.text) == Err(code)
            case None => Apply(cfg, s1, e, r, e.id.text).Ok?
  {
    var s, e, r := Replay(cfg, items).value, item.event, item.receipt;
    var id, work := e.id.text, e.work.value.uri;
    var s1 := s.(events := s.events[id := e], sequences := s.sequences[r.sequence := id], works := s.works + {work});
    hide Replay, BindingCode, ClaimCode, ContinueCode, ReferenceCode, Acceptable, ApplyClaim, ApplyLifecycle,
         ApplyReference, MayAccept, DistinctIds, Contends, OpenOf, Cause;
    match e.kind {
      case ClaimKind => ClaimRefusedExactly(cfg, items, s1, e, r.sequence, work, id, active);
      case Progress => ContinueRefusedExactly(cfg, items, s1, e, r.sequence, work, id, open);
      case Release => ContinueRefusedExactly(cfg, items, s1, e, r.sequence, work, id, open);
      case HandoffOffer => ContinueRefusedExactly(cfg, items, s1, e, r.sequence, work, id, open);
      case HandoffAccept =>
        if MayAccept(s1, e, r) {
          var key, m, i := AcceptedIsAcceptable(cfg, items, s1, e, r);
        } else if key, m: nat, i: nat :| Acceptable(cfg, items, e, r, key, m, i) {
          AcceptableIsAccepted(cfg, items, s1, e, r, key, m, i);
        }
      case Question =>
      case ReviewRequest =>
      case _ =>
        CauseIsEarlier(cfg, items, item, p);
        ReferenceRefusedExactly(cfg, items, s1, e, p);
    }
  }

  /** A record is not its own cause. */
  lemma CauseIsEarlier(cfg: Config, items: seq<Item>, item: Item, p: nat)
    requires NextAfter(cfg, items, item) && Cause(cfg, items, item.event, p)
    requires BindingCode(cfg, items, item.event, item.receipt, p).None? && item.event.work.Some?
    requires item.event.kind.Answer? || item.event.kind.Verdict? || item.event.kind.EvidenceVerification?
    ensures item.event.causation != item.event.id
  {}

  /** The next record is accepted exactly if nothing in the records before it speaks against it; otherwise the
      engine names the first thing that does. */
  lemma NextRecordExactly(cfg: Config, items: seq<Item>, item: Item, p: nat, active: set<Key>, open: set<string>)
    requires NextAfter(cfg, items, item) && Cause(cfg, items, item.event, p) && OpenOf(cfg, items, item.event, open)
    requires item.event.work.Some? ==>
               forall key :: key in active <==> Contends(cfg, items, |items|, key, item.event.work.value.uri)
    ensures var result := Step(cfg, Replay(cfg, items).value, item);
            match RefusalCode(cfg, items, item, p, active, open)
            case Some(code) => result == Err(code)
            case None => result.Ok?
  {
    hide Replay, Apply, CheckBinding, ClaimCode, ContinueCode, ReferenceCode, Acceptable, OpenOf, Contends, Cause;
    BindingExactly(cfg, items, item.event, item.receipt, p);
    if item.event.id.Text? && BindingCode(cfg, items, item.event, item.receipt, p).None?
       && item.receipt.sequence <= cfg.highWater {
      if WorkKind(item.event.kind) && item.event.work.Some? && !item.event.data.NotObject? {
        ApplyRefusedExactly(cfg, items, item, p, active, open);
      } else {
        PlainApply(cfg, items, item);
      }
    }
  }

  lemma PlainApply(cfg: Config, items: seq<Item>, item: Item)
    requires NextAfter(cfg, items, item) && item.event.id.Text?
    requires !WorkKind(item.event.kind) || item.event.work.None? || item.event.data.NotObject?
    ensures var s, e, r := Replay(cfg, items).value, item.event, item.receipt;
            var s1 := s.(events := s.events[e.id.text := e], sequences := s.sequences[r.sequence := e.id.text]);
            Apply(cfg, s1, e, r, e.id.text) ==
            if WorkKind(e.kind) && e.work.Some? then Err(InvalidTranscript) else Ok(s1)
  {
    hide Replay, DistinctIds;
  }
}
