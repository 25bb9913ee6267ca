/**
 conformance/python/yukh_projection.py: the state of the replay engine and what one record
 does to it.  An event's canonical bytes stand for the event itself, so equal bytes are
 equal values; the per-record envelope and digest checks and the evidence comparison are
 parameters.  A claim's open offers are the identifiers of shared offer records.
 */
module Projection {
  import opened Options

  datatype Code =
    | InvalidTranscript | InvalidEnvelope | InvalidReceipt | IdCollision | UnresolvedCausation | CrossChannelReference
    | InvalidReference | InvalidPayload | InvalidClaimTransition | ResourceLimit | HandoffPreconditionFailed
    | OtherCode(name: string)

  datatype Result<+T> = Ok(value: T) | Err(code: Code)

  datatype Kind =
    | ClaimKind | Progress | Question | Answer | ReviewRequest | Verdict | HandoffOffer | HandoffAccept | Release
    | EvidenceVerification | Join | Presence | Leave

  predicate WorkKind(k: Kind) { !k.Join? && !k.Presence? && !k.Leave? }

  predicate RootKind(k: Kind) { k.ClaimKind? || k.Question? || k.ReviewRequest? }

  datatype Work = Work(uri: string, rest: string)

  /** A JSON member: missing or null, a string, or anything else. */
  datatype Field = Absent | Text(text: string) | Other(form: string)

  datatype Data = NotObject | Fields(fields: map<string, Field>)

  datatype Event = Event(
    id: Field, kind: Kind, channel: string, work: Option<Work>, correlation: Field, causation: Field, data: Data,
        rest: string)

  datatype Receipt = Receipt(sequence: int, instance: Field, rest: string)

  datatype Record = Malformed | Record(event: Event, receipt: Receipt, verified: bool)

  datatype Item = Item(event: Event, receipt: Receipt)

  type Key = (string, string)

  datatype Claim = Claim(event: string, work: string, active: bool, last: string, offers: set<string>)

  datatype Offer = Offer(handoff: string, claim: Key, recipient: string, boundary: string, evidence: string,
      accepted: Option<string>)

  datatype Acceptance = Acceptance(claim: string, sequence: int)

  datatype Config = Config(
    highWater: int, highWaterVerified: bool, origin: int, lifecycleActive: bool,
    bound: (Event, Receipt) -> Option<Code>,
    evidence: (Data, Event) -> Option<Code>)

  datatype State = State(
    events: map<string, Event>, sequences: map<int, string>, claims: map<Key, Claim>, used: set<Key>,
    offers: map<string, Offer>, awaiting: map<string, Acceptance>, works: set<string>, triggers: map<string, int>)

  const EMPTY: State := State(map[], map[], map[], {}, map[], map[], {}, map[])

  const MAX_ACTIVE: nat := 32

  function Get(d: Data, name: string): Field {
    if d.Fields? && name in d.fields then d.fields[name] else Absent
  }

  // ---------------------------------------------------------------- one record

  function CheckBinding(cfg: Config, s: State, e: Event, r: Receipt): Option<Code> {
    if cfg.bound(e, r).Some? then cfg.bound(e, r)
    else if !WorkKind(e.kind) then None
    else if e.work.None? || !e.correlation.Text? then Some(InvalidEnvelope)
    else if RootKind(e.kind) then (if e.correlation == e.id then None else Some(InvalidReference))
    else if !e.causation.Text? then Some(InvalidEnvelope)
    else if e.causation.text !in s.events then Some(UnresolvedCausation)
    else
      var parent := s.events[e.causation.text];
      if parent.channel != e.channel || parent.work != e.work then Some(CrossChannelReference)
      else if parent.correlation != e.correlation then Some(InvalidReference)
      else None
  }

  function Active(claims: map<Key, Claim>, work: string): set<Key> {
    set k | k in claims && claims[k].work == work && claims[k].active
  }

  /** The conflict trigger after the active claims of `work` changed. */
  function UpdateTrigger(s: State, work: string, sequence: int): State {
    var count := |Active(s.claims, work)|;
    if count > 1 && work !in s.triggers then s.(triggers := s.triggers[work := sequence])
    else if count <= 1 then s.(triggers := s.triggers - {work})
    else s
  }

  function ApplyClaim(s: State, e: Event, sequence: int, work: string, id: string): Result<State> {
    var claimId, generation, predecessor := Get(e.data, "claim_id"), Get(e.data, "generation"),
        Get(e.data, "predecessor_handoff_event");
    if !claimId.Text? || !generation.Text? then Err(InvalidPayload)
    else
      var key := (claimId.text, generation.text);
      if key in s.used then Err(InvalidClaimTransition)
      else if predecessor != Absent && !(predecessor.Text? && predecessor.text in s.awaiting)
      then Err(InvalidClaimTransition)
      else if predecessor != Absent && e.causation != predecessor then Err(InvalidReference)
      else if |Active(s.claims, work)| >= MAX_ACTIVE then Err(ResourceLimit)
      else
        var left := if predecessor.Text? then s.awaiting - {predecessor.text} else s.awaiting;
        var claims := s.claims[key := Claim(id, work, true, id, {})];
        Ok(UpdateTrigger(s.(awaiting := left, claims := claims, used := s.used + {key}), work, sequence))
  }

  /** The claim a progress, release or offer names. */
  function ClaimFor(s: State, d: Data, work: string): Option<Key> {
    var claimId, generation := Get(d, "claim_id"), Get(d, "generation");
    if claimId.Text? && generation.Text? && (claimId.text, generation.text) in s.claims
       && s.claims[(claimId.text, generation.text)].work == work
    then Some((claimId.text, generation.text)) else None
  }

  function ApplyLifecycle(s: State, e: Event, sequence: int, work: string, id: string): Result<State> {
    var found := ClaimFor(s, e.data, work);
    if found.None? || !s.claims[found.value].active then Err(InvalidClaimTransition)
    else
      var key := found.value;
      var claim, parent := s.claims[key], Get(e.data, "parent_claim_event_id");
      if parent != Text(claim.last) || e.causation != parent
          then Err(if e.kind.HandoffOffer? then HandoffPreconditionFailed else InvalidReference)
      else if e.kind.Progress? then Ok(s.(claims := s.claims[key := claim.(last := id)]))
      else if e.kind.Release? then
        var claims := s.claims[key := claim.(active := false, last := id, offers := {})];
        Ok(UpdateTrigger(s.(claims := claims), work, sequence))
      else ApplyOffer(s, e, key, claim, id)
  }

  function ApplyOffer(s: State, e: Event, key: Key, claim: Claim, id: string): Result<State> {
    var handoff, recipient := Get(e.data, "handoff_id"), Get(e.data, "to_participant_instance_id");
    var boundary, evidence := Get(e.data, "boundary_digest"), Get(e.data, "evidence_set_digest");
    if |claim.offers| >= MAX_ACTIVE then Err(ResourceLimit)
    else if !(handoff.Text? && recipient.Text? && boundary.Text? && evidence.Text?) then Err(InvalidPayload)
    else
      Ok(s.(claims := s.claims[key := claim.(last := id, offers := claim.offers + {id})],
            offers := s.offers[id := Offer(handoff.text, key, recipient.text, boundary.text, evidence.text, None)]))
  }

  /** The compare-and-swap of an acceptance against the offer it names. */
  predicate MayAccept(s: State, e: Event, r: Receipt) {
    && Get(e.data, "offer_event_id").Text?
    && var o := Get(e.data, "offer_event_id").text;
       && o in s.offers && s.offers[o].claim in s.claims
       && var offer := s.offers[o];
          var claim := s.claims[offer.claim];
          && claim.active && offer.accepted.None? && o in claim.offers
          && e.causation == Text(o)
          && r.instance == Text(offer.recipient)
          && Get(e.data, "handoff_id") == Text(offer.handoff)
          && Get(e.data, "source_claim_event_id") == Text(claim.event)
          && Get(e.data, "claim_id") == Text(offer.claim.0)
          && Get(e.data, "generation") == Text(offer.claim.1)
          && Get(e.data, "boundary_digest") == Text(offer.boundary)
          && Get(e.data, "evidence_set_digest") == Text(offer.evidence)
  }

  /** The offers once `o` is accepted by event `id` and the other open offers of its claim are superseded. */
  function Accepted(offers: map<string, Offer>, open: set<string>, o: string, id: string): map<string, Offer> {
    map x | x in offers ::
      if x == o then offers[x].(accepted := Some(id)) else if x in open
          then offers[x].(accepted := Some("superseded")) else offers[x]
  }

  function ApplyAccept(s: State, e: Event, r: Receipt, id: string): Result<State> {
    if !MayAccept(s, e, r) then Err(HandoffPreconditionFailed)
    else
      var o := Get(e.data, "offer_event_id").text;
      var key := s.offers[o].claim;
      var open := s.claims[key].offers;
      Ok(s.(claims := s.claims[key := s.claims[key].(offers := {}, last := id)],
            offers := Accepted(s.offers, open, o, id),
            awaiting := s.awaiting[id := Acceptance(key.0, r.sequence)]))
  }

  function ApplyReference(cfg: Config, s: State, e: Event): Result<State> {
    var name := if e.kind.Answer? then "question_event_id"
                else if e.kind.Verdict? then "review_event_id"
                else "referenced_event_id";
    var parent := Get(e.data, name);
    if parent != e.causation || !parent.Text? || parent.text !in s.events then Err(InvalidReference)
    else if e.kind.Answer? && !s.events[parent.text].kind.Question? then Err(InvalidReference)
    else if e.kind.Verdict? && !s.events[parent.text].kind.ReviewRequest? then Err(InvalidReference)
    else if e.kind.EvidenceVerification? && cfg.evidence(e.data, s.events[parent.text]).Some? then
      Err(cfg.evidence(e.data, s.events[parent.text]).value)
    else Ok(s)
  }

  function Apply(cfg: Config, s: State, e: Event, r: Receipt, id: string): Result<State> {
    if !WorkKind(e.kind) || e.work.None? then Ok(s)
    else
      var work := e.work.value.uri;
      var s1 := s.(works := s.works + {work});
      if e.data.NotObject? then Err(InvalidTranscript)
      else match e.kind
        case ClaimKind => ApplyClaim(s1, e, r.sequence, work, id)
        case Progress => ApplyLifecycle(s1, e, r.sequence, work, id)
        case Release => ApplyLifecycle(s1, e, r.sequence, work, id)
        case HandoffOffer => ApplyLifecycle(s1, e, r.sequence, work, id)
        case HandoffAccept => ApplyAccept(s1, e, r, id)
        case Question => Ok(s1)
        case ReviewRequest => Ok(s1)
        case _ => ApplyReference(cfg, s1, e)
  }

  function Step(cfg: Config, s: State, item: Item): Result<State> {
    var e, r := item.event, item.receipt;
    if !e.id.Text? then Err(InvalidEnvelope)
    else if CheckBinding(cfg, s, e, r).Some? then Err(CheckBinding(cfg, s, e, r).value)
    else if r.sequence > cfg.highWater then Ok(s)
    else
      var id := e.id.text;
      Apply(cfg, s.(events := s.events[id := e], sequences := s.sequences[r.sequence := id]), e, r, id)
  }

  function Replay(cfg: Config, items: seq<Item>): Result<State> {
    if items == [] then Ok(EMPTY)
    else match Replay(cfg, items[..|items| - 1])
      case Err(code) => Err(code)
      case Ok(s) => Step(cfg, s, items[|items| - 1])
  }

  // ------------------------------------------------------------- the projection

  datatype WorkState = Unclaimed | Claimed | HandoffOffered | Conflicting | Released

  datatype Diagnostic =
    | ClaimConflict(sequence: int, contenders: map<Key, string>)
    | AcceptedUnclaimed(sequence: int, event: string, claim: string)
    | IncompleteTranscript
    | NonActiveTranscript

  /** A projection.  The lists the engine sorts before printing are kept as the maps whose keys or
      values they are: active claims to their events, open offers to their handoffs. */
  datatype Projection = Projection(
    state: WorkState, contenders: map<Key, string>, offers: map<string, string>, diagnostics: set<Diagnostic>,
        final: bool)

  datatype Reason = UnverifiedReceipt | UnverifiedHighWater | SequenceGap | RecordAfterHighWater | NonActiveLifecycle

  function OpenOffers(s: State, active: set<Key>): map<string, string> {
    map o | o in s.offers && exists k :: k in active && k in s.claims && o in s.claims[k].offers :: s.offers[o].handoff
  }

  function StateOf(s: State, work: string): WorkState {
    var active := Active(s.claims, work);
    if |active| > 1 then Conflicting
    else if |active| == 1 then (if OpenOffers(s, active) == map[] then Claimed else HandoffOffered)
    else if exists k :: k in s.claims && s.claims[k].work == work then Released
    else Unclaimed
  }

  /** The projection of one work, or the lookup that fails. */
  function Project(cfg: Config, s: State, reasons: set<Reason>, work: string): Result<Projection> {
    var active := Active(s.claims, work);
    if |active| > 1 && work !in s.triggers then Err(OtherCode("no conflict trigger"))
    else if exists a :: a in s.awaiting && (a !in s.events || s.events[a].work.None?)
        then Err(OtherCode("no acceptance"))
    else
      var contenders := map k | k in active :: s.claims[k].event;
      var conflict := if |active| > 1 then {ClaimConflict(s.triggers[work], contenders)} else {};
      var unclaimed := set a | a in s.awaiting && s.events[a].work.value.uri == work ::
        AcceptedUnclaimed(s.awaiting[a].sequence, a, s.awaiting[a].claim);
      var whole := (if reasons == {} then {} else {IncompleteTranscript})
          + (if cfg.lifecycleActive then {} else {NonActiveTranscript});
      var open := if |active| == 1 then OpenOffers(s, active) else map[];
      Ok(Projection(StateOf(s, work), contenders, open, conflict + unclaimed + whole,
                    reasons == {} && cfg.lifecycleActive))
  }
}
