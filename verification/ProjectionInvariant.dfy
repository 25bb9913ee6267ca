/**
 What holds of the replay engine in every state it can reach: claims, offers, acceptances
 and conflict triggers agree, and what is spent stays spent.
 */
module ProjectionInvariant {
  import opened Options
  import opened Projection

  ghost predicate ClaimInv(s: State, key: Key) {
    && key in s.claims
    && var c := s.claims[key];
       && |c.offers| <= MAX_ACTIVE
       && (!c.active ==> c.offers == {})
       && (forall o :: o in c.offers ==>
             o in s.events && o in s.offers && s.offers[o].claim == key && s.offers[o].accepted.None?)
  }

  /** A work has a conflict trigger exactly when it has more than one active claim. */
  ghost predicate WorkInv(s: State, work: string) {
    |Active(s.claims, work)| <= MAX_ACTIVE && (work in s.triggers <==> |Active(s.claims, work)| > 1)
  }

  ghost predicate Inv(s: State) {
    && s.used == s.claims.Keys
    && (forall key :: key in s.claims ==> ClaimInv(s, key))
    && (forall work :: WorkInv(s, work))
    && (forall a :: a in s.awaiting ==> a in s.events && s.events[a].work.Some?)
  }

  // ----------------------------------------------------------- active claims

  lemma ActiveAfterClaim(claims: map<Key, Claim>, key: Key, c: Claim, work: string)
    requires key !in claims && c.active
    ensures Active(claims[key := c], work) ==
            if work == c.work then Active(claims, work) + {key} else Active(claims, work)
  {}

  lemma ActiveAfterRelease(claims: map<Key, Claim>, key: Key, c: Claim, work: string)
    requires key in claims && claims[key].active && !c.active && c.work == claims[key].work
    ensures Active(claims[key := c], work) ==
            if work == c.work then Active(claims, work) - {key} else Active(claims, work)
  {}

  lemma ActiveUnchanged(claims: map<Key, Claim>, key: Key, c: Claim, work: string)
    requires key in claims && c.active == claims[key].active && c.work == claims[key].work
    ensures Active(claims[key := c], work) == Active(claims, work)
  {}

  /** The trigger update restores the invariant of its own work and keeps that of others. */
  lemma TriggerKeepsWorks(s: State, s': State, work: string, sequence: int)
    requires forall w :: w != work ==> WorkInv(s, w) && Active(s'.claims, w) == Active(s.claims, w)
    requires s'.triggers == s.triggers && |Active(s'.claims, work)| <= MAX_ACTIVE
    ensures forall w :: WorkInv(UpdateTrigger(s', work, sequence), w)
  {
    hide Active;
    forall w ensures WorkInv(UpdateTrigger(s', work, sequence), w) {
      if w != work { assert WorkInv(s, w); }
    }
  }

  lemma UpdateTriggerFrame(s: State, work: string, sequence: int)
    ensures UpdateTrigger(s, work, sequence) == s.(triggers := UpdateTrigger(s, work, sequence).triggers)
  {}

  // ------------------------------------------------------------------- steps

  lemma ClaimKept(s: State, s': State, k: Key)
    requires ClaimInv(s, k) && k in s'.claims && s'.claims[k] == s.claims[k] && s.events.Keys <= s'.events.Keys
    requires forall o :: o in s.claims[k].offers && o in s.offers ==> o in s'.offers && s'.offers[o] == s.offers[o]
    ensures ClaimInv(s', k)
  {}

  lemma WorksAfterClaim(s: State, s1: State, key: Key, c: Claim, sequence: int)
    requires (forall w :: WorkInv(s, w)) && key !in s.claims && c.active && |Active(s.claims, c.work)| < MAX_ACTIVE
    requires s1.claims == s.claims[key := c] && s1.triggers == s.triggers
    ensures forall w :: WorkInv(UpdateTrigger(s1, c.work, sequence), w)
  {
    hide UpdateTrigger, Active, WorkInv;
    forall w ensures Active(s1.claims, w) == if w == c.work then Active(s.claims, w) + {key} else Active(s.claims, w) {
      ActiveAfterClaim(s.claims, key, c, w);
    }
    TriggerKeepsWorks(s, s1, c.work, sequence);
  }

  lemma NewClaimKeepsInv(s: State, key: Key, left: map<string, Acceptance>, sequence: int, work: string, id: string)
    requires Inv(s) && key !in s.claims && |Active(s.claims, work)| < MAX_ACTIVE
    requires forall a :: a in left ==> a in s.awaiting
    ensures var claims := s.claims[key := Claim(id, work, true, id, {})];
            Inv(UpdateTrigger(s.(awaiting := left, claims := claims, used := s.used + {key}), work, sequence))
  {
    var c := Claim(id, work, true, id, {});
    var s1 := s.(awaiting := left, claims := s.claims[key := c], used := s.used + {key});
    var s' := UpdateTrigger(s1, work, sequence);
    UpdateTriggerFrame(s1, work, sequence);
    hide UpdateTrigger, Active, WorkInv, ClaimInv;
    WorksAfterClaim(s, s1, key, c, sequence);
    forall k | k in s'.claims ensures ClaimInv(s', k) {
      if k == key { assert s'.claims[k] == c; FreshClaim(s', k); } else { ClaimKept(s, s', k); }
    }
  }

  lemma FreshClaim(s: State, k: Key)
    requires k in s.claims && s.claims[k].offers == {}
    ensures ClaimInv(s, k)
  {}

  lemma ClaimKeepsInv(s: State, e: Event, sequence: int, work: string, id: string)
    requires Inv(s) && ApplyClaim(s, e, sequence, work, id).Ok?
    ensures Inv(ApplyClaim(s, e, sequence, work, id).value)
  {
    var key := (Get(e.data, "claim_id").text, Get(e.data, "generation").text);
    var predecessor := Get(e.data, "predecessor_handoff_event");
    var left := if predecessor.Text? then s.awaiting - {predecessor.text} else s.awaiting;
    hide UpdateTrigger, Active, WorkInv, ClaimInv, Get;
    NewClaimKeepsInv(s, key, left, sequence, work, id);
  }

  /** A claim that stays active, or a change of offers and acceptances, leaves the works alone. */
  lemma SameActiveKeepsWorks(s: State, s': State, key: Key)
    requires forall w :: WorkInv(s, w)
    requires key in s.claims && key in s'.claims && s'.claims == s.claims[key := s'.claims[key]]
    requires s'.triggers == s.triggers
    requires s'.claims[key].active == s.claims[key].active && s'.claims[key].work == s.claims[key].work
    ensures forall w :: WorkInv(s', w)
  {
    forall w ensures WorkInv(s', w) {
      assert WorkInv(s, w);
      ActiveUnchanged(s.claims, key, s'.claims[key], w);
    }
  }

  lemma RemovedIsFewer(s: State, work: string, key: Key)
    requires WorkInv(s, work) && key in Active(s.claims, work)
    ensures |Active(s.claims, work) - {key}| <= MAX_ACTIVE
  {}

  lemma ReleaseKeepsInv(s: State, key: Key, sequence: int, id: string)
    requires Inv(s) && key in s.claims && s.claims[key].active
    ensures var c := s.claims[key].(active := false, last := id, offers := {});
            Inv(UpdateTrigger(s.(claims := s.claims[key := c]), s.claims[key].work, sequence))
  {
    var work, c := s.claims[key].work, s.claims[key].(active := false, last := id, offers := {});
    var s1 := s.(claims := s.claims[key := c]);
    var s' := UpdateTrigger(s1, work, sequence);
    UpdateTriggerFrame(s1, work, sequence);
    forall w ensures Active(s1.claims, w) == if w == work then Active(s.claims, w) - {key} else Active(s.claims, w) {
      ActiveAfterRelease(s.claims, key, c, w);
    }
    hide UpdateTrigger, WorkInv, ClaimInv;
    assert WorkInv(s, work);
    RemovedIsFewer(s, work, key);
    hide Active;
    TriggerKeepsWorks(s, s1, work, sequence);
    forall k | k in s'.claims ensures ClaimInv(s', k) {
      if k == key { assert s'.claims[k] == c; FreshClaim(s', k); } else { ClaimKept(s, s', k); }
    }
  }

  lemma OfferedClaim(s: State, s': State, key: Key, id: string, offer: Offer)
    requires ClaimInv(s, key) && s.claims[key].active && id in s.events && |s.claims[key].offers| < MAX_ACTIVE
    requires offer.claim == key && offer.accepted.None? && s'.offers == s.offers[id := offer] && s'.events == s.events
    requires s'.claims == s.claims[key := s.claims[key].(last := id, offers := s.claims[key].offers + {id})]
    ensures ClaimInv(s', key)
  {}

  lemma OfferAdds(s: State, e: Event, key: Key, id: string)
    requires key in s.claims && ApplyOffer(s, e, key, s.claims[key], id).Ok?
    ensures var s' := ApplyOffer(s, e, key, s.claims[key], id).value;
            && id in s'.offers && s'.offers[id].claim == key && s'.offers[id].accepted.None?
            && |s.claims[key].offers| < MAX_ACTIVE
            && s' == s.(claims := s.claims[key := s.claims[key].(last := id, offers := s.claims[key].offers + {id})],
                        offers := s.offers[id := s'.offers[id]])
  {
    hide Get;
  }

  lemma OfferKeepsInv(s: State, e: Event, key: Key, id: string)
    requires Inv(s) && key in s.claims && s.claims[key].active && id in s.events
    requires forall k :: k in s.claims ==> id !in s.claims[k].offers
    requires ApplyOffer(s, e, key, s.claims[key], id).Ok?
    ensures Inv(ApplyOffer(s, e, key, s.claims[key], id).value)
  {
    hide Active, WorkInv, ApplyOffer;
    var s' := ApplyOffer(s, e, key, s.claims[key], id).value;
    OfferAdds(s, e, key, id);
    SameActiveKeepsWorks(s, s', key);
    assert ClaimInv(s, key);
    hide ClaimInv;
    OfferedClaim(s, s', key, id, s'.offers[id]);
    forall k | k in s'.claims && k != key ensures ClaimInv(s', k) { ClaimKept(s, s', k); }
  }

  /** Accepting an offer of one claim leaves the open offers of another alone. */
  lemma OtherClaimKept(s: State, s': State, key: Key, k: Key, o: string, id: string)
    requires ClaimInv(s, key) && ClaimInv(s, k) && k != key && o in s.claims[key].offers && s'.events == s.events
    requires s'.offers == Accepted(s.offers, s.claims[key].offers, o, id) && k in s'.claims
    requires s'.claims[k] == s.claims[k]
    ensures ClaimInv(s', k)
  {}

  lemma AcceptKeepsInv(s: State, e: Event, r: Receipt, id: string)
    requires Inv(s) && id in s.events && s.events[id].work.Some? && ApplyAccept(s, e, r, id).Ok?
    ensures Inv(ApplyAccept(s, e, r, id).value)
  {
    hide Active, WorkInv, ClaimInv, Get, Accepted;
    var s', o := ApplyAccept(s, e, r, id).value, Get(e.data, "offer_event_id").text;
    var key := s.offers[o].claim;
    SameActiveKeepsWorks(s, s', key);
    forall k | k in s'.claims ensures ClaimInv(s', k) {
      if k == key { FreshClaim(s', k); } else { OtherClaimKept(s, s', key, k, o, id); }
    }
  }

  lemma LifecycleKeepsInv(s: State, e: Event, sequence: int, work: string, id: string)
    requires Inv(s) && id in s.events && (forall k :: k in s.claims ==> id !in s.claims[k].offers)
    requires ApplyLifecycle(s, e, sequence, work, id).Ok?
    ensures Inv(ApplyLifecycle(s, e, sequence, work, id).value)
  {
    hide Active, WorkInv, ClaimInv, UpdateTrigger, ApplyOffer;
    var key := ClaimFor(s, e.data, work).value;
    if e.kind.Progress? {
      ProgressKeepsInv(s, key, id);
    } else if e.kind.Release? {
      ReleaseKeepsInv(s, key, sequence, id);
    } else {
      OfferKeepsInv(s, e, key, id);
    }
  }

  lemma ProgressKeepsInv(s: State, key: Key, id: string)
    requires Inv(s) && key in s.claims
    ensures Inv(s.(claims := s.claims[key := s.claims[key].(last := id)]))
  {
    hide Active, WorkInv;
    var s' := s.(claims := s.claims[key := s.claims[key].(last := id)]);
    SameActiveKeepsWorks(s, s', key);
    forall k | k in s'.claims ensures ClaimInv(s', k) { assert ClaimInv(s, k); }
  }

  /** Recording an event nobody has seen, and noting its work. */
  lemma RecordKeepsInv(s: State, s': State, id: string, e: Event)
    requires Inv(s) && id !in s.events && s'.events == s.events[id := e]
    requires s' == s.(events := s'.events, sequences := s'.sequences, works := s'.works)
    ensures Inv(s') && (forall k :: k in s'.claims ==> id !in s'.claims[k].offers)
  {
    hide Active;
    forall k | k in s'.claims ensures ClaimInv(s', k) && id !in s'.claims[k].offers { assert ClaimInv(s, k); }
    forall w ensures WorkInv(s', w) { assert WorkInv(s, w); }
  }

  lemma ApplyKeepsInv(cfg: Config, s: State, e: Event, r: Receipt, id: string)
    requires Inv(s) && id in s.events && s.events[id] == e && (forall k :: k in s.claims ==> id !in s.claims[k].offers)
    requires Apply(cfg, s, e, r, id).Ok?
    ensures Inv(Apply(cfg, s, e, r, id).value)
  {
    if !WorkKind(e.kind) || e.work.None? {
      return;
    }
    var s1 := s.(works := s.works + {e.work.value.uri});
    WorksKeepInv(s, s1);
    hide Inv, ApplyClaim, ApplyLifecycle, ApplyAccept;
    match e.kind {
      case ClaimKind => ClaimKeepsInv(s1, e, r.sequence, e.work.value.uri, id);
      case Progress => LifecycleKeepsInv(s1, e, r.sequence, e.work.value.uri, id);
      case Release => LifecycleKeepsInv(s1, e, r.sequence, e.work.value.uri, id);
      case HandoffOffer => LifecycleKeepsInv(s1, e, r.sequence, e.work.value.uri, id);
      case HandoffAccept => AcceptKeepsInv(s1, e, r, id);
      case _ => 
    }
  }

  lemma WorksKeepInv(s: State, s1: State)
    requires Inv(s) && s1 == s.(works := s1.works)
    ensures Inv(s1)
  {
    hide Active;
    forall k | k in s1.claims ensures ClaimInv(s1, k) { assert ClaimInv(s, k); }
    forall w ensures WorkInv(s1, w) { assert WorkInv(s, w); }
  }

  /** A record whose identifier has not been applied keeps the invariant. */
  lemma StepKeepsInv(cfg: Config, s: State, item: Item)
    requires Inv(s) && item.event.id.Text? && item.event.id.text !in s.events && Step(cfg, s, item).Ok?
    ensures Inv(Step(cfg, s, item).value)
  {
    hide Inv, Apply, CheckBinding;
    var id, e, r := item.event.id.text, item.event, item.receipt;
    if r.sequence <= cfg.highWater {
      var s1 := s.(events := s.events[id := e], sequences := s.sequences[r.sequence := id]);
      RecordKeepsInv(s, s1, id, e);
      ApplyKeepsInv(cfg, s1, e, r, id);
    }
  }

  // -------------------------------------------------------------- whole replays

  /** What normalization ensures of the records that are replayed. */
  ghost predicate DistinctIds(items: seq<Item>) {
    forall i, j :: 0 <= i < j < |items| ==> items[i].event.id != items[j].event.id
  }

  ghost function After(cfg: Config, items: seq<Item>, k: nat): State
    requires k <= |items| && Replay(cfg, items).Ok?
  {
    ReplayPrefix(cfg, items, k);
    Replay(cfg, items[..k]).value
  }

  lemma {:induction false} ReplayPrefix(cfg: Config, items: seq<Item>, k: nat)
    requires k <= |items| && Replay(cfg, items).Ok?
    ensures Replay(cfg, items[..k]).Ok?
    decreases |items|
  {
    if k < |items| {
      var before := items[..|items| - 1];
      ReplayPrefix(cfg, before, k);
      assert before[..k] == items[..k];
    } else {
      assert items[..k] == items;
    }
  }

  lemma AfterStep(cfg: Config, items: seq<Item>, k: nat)
    requires k < |items| && Replay(cfg, items).Ok?
    ensures Step(cfg, After(cfg, items, k), items[k]) == Ok(After(cfg, items, k + 1))
  {
    hide Step;
    ReplayPrefix(cfg, items, k + 1);
    assert items[..k + 1][..k] == items[..k];
  }

  /** What applying the event `id` can change at most. */
  ghost predicate Moves(s: State, s': State, id: string) {
    && s'.events == s.events && s.used <= s'.used && s'.awaiting.Keys <= s.awaiting.Keys + {id}
    && s'.offers.Keys <= s.offers.Keys + {id}
    && (forall k :: k in s'.claims ==> s'.claims[k].offers <= OffersOf(s, k) + {id})
    && (forall o :: o in s.offers && o != id ==> o in s'.offers && s'.offers[o].claim == s.offers[o].claim)
  }

  ghost function OffersOf(s: State, k: Key): set<string> {
    if k in s.claims then s.claims[k].offers else {}
  }

  lemma ClaimMoves(s: State, e: Event, sequence: int, work: string, id: string)
    requires ApplyClaim(s, e, sequence, work, id).Ok?
    ensures Moves(s, ApplyClaim(s, e, sequence, work, id).value, id)
  {
    hide Get, UpdateTrigger;
    var key := (Get(e.data, "claim_id").text, Get(e.data, "generation").text);
    var predecessor := Get(e.data, "predecessor_handoff_event");
    var left := if predecessor.Text? then s.awaiting - {predecessor.text} else s.awaiting;
    UpdateTriggerFrame(s.(awaiting := left, claims := s.claims[key := Claim(id, work, true, id, {})],
                       used := s.used + {key}), work, sequence);
  }

  /** Changing one claim's own fields, with no offer but `id` added. */
  lemma OneClaimMoves(s: State, s': State, key: Key, id: string)
    requires key in s.claims && key in s'.claims && s'.claims == s.claims[key := s'.claims[key]]
    requires s'.claims[key].offers <= s.claims[key].offers + {id}
    requires s'.events == s.events && s'.used == s.used && s'.awaiting == s.awaiting
    requires s'.offers == s.offers || (id in s'.offers && s'.offers == s.offers[id := s'.offers[id]])
    ensures Moves(s, s', id)
  {}

  lemma OfferMoves(s: State, e: Event, key: Key, id: string)
    requires key in s.claims && ApplyOffer(s, e, key, s.claims[key], id).Ok?
    ensures Moves(s, ApplyOffer(s, e, key, s.claims[key], id).value, id)
  {
    hide Get, Moves;
    OneClaimMoves(s, ApplyOffer(s, e, key, s.claims[key], id).value, key, id);
  }

  lemma LifecycleMoves(s: State, e: Event, sequence: int, work: string, id: string)
    requires ApplyLifecycle(s, e, sequence, work, id).Ok?
    ensures Moves(s, ApplyLifecycle(s, e, sequence, work, id).value, id)
  {
    hide Get, UpdateTrigger, ApplyOffer, Moves;
    var key, s' := ClaimFor(s, e.data, work).value, ApplyLifecycle(s, e, sequence, work, id).value;
    if e.kind.Release? {
      UpdateTriggerFrame(s.(claims := s.claims[key := s.claims[key].(active := false, last := id, offers := {})]),
                         work, sequence);
      OneClaimMoves(s, s', key, id);
    } else if e.kind.Progress? {
      OneClaimMoves(s, s', key, id);
    } else {
      OfferMoves(s, e, key, id);
    }
  }

  lemma AcceptMoves(s: State, e: Event, r: Receipt, id: string)
    requires ApplyAccept(s, e, r, id).Ok?
    ensures Moves(s, ApplyAccept(s, e, r, id).value, id)
  {
    hide Get;
  }

  lemma ApplyMoves(cfg: Config, s: State, e: Event, r: Receipt, id: string)
    requires Apply(cfg, s, e, r, id).Ok?
    ensures Moves(s, Apply(cfg, s, e, r, id).value, id)
  {
    if !WorkKind(e.kind) || e.work.None? {
      return;
    }
    var s1, work := s.(works := s.works + {e.work.value.uri}), e.work.value.uri;
    hide ApplyClaim, ApplyLifecycle, ApplyAccept;
    match e.kind {
      case ClaimKind => ClaimMoves(s1, e, r.sequence, work, id);
      case Progress => LifecycleMoves(s1, e, r.sequence, work, id);
      case Release => LifecycleMoves(s1, e, r.sequence, work, id);
      case HandoffOffer => LifecycleMoves(s1, e, r.sequence, work, id);
      case HandoffAccept => AcceptMoves(s1, e, r, id);
      case _ =>
    }
    assert forall k :: OffersOf(s1, k) == OffersOf(s, k);
  }

  /** A step records at most its own event. */
  lemma StepEvents(cfg: Config, s: State, item: Item)
    requires Step(cfg, s, item).Ok?
    ensures item.event.id.Text?
    ensures var s' := Step(cfg, s, item).value;
            s'.events == if item.receipt.sequence > cfg.highWater then s.events
                         else s.events[item.event.id.text := item.event]
  {
    hide Apply, CheckBinding;
    var id, e, r := item.event.id.text, item.event, item.receipt;
    if r.sequence <= cfg.highWater {
      ApplyMoves(cfg, s.(events := s.events[id := e], sequences := s.sequences[r.sequence := id]), e, r, id);
    }
  }

  lemma {:induction false} EventsAreItems(cfg: Config, items: seq<Item>, k: nat, id: string)
    requires k <= |items| && Replay(cfg, items).Ok? && id in After(cfg, items, k).events
    ensures exists i :: 0 <= i < k && items[i].event.id == Text(id) && id in After(cfg, items, i + 1).events
  {
    if k > 0 {
      AfterStep(cfg, items, k - 1);
      hide Step, Replay;
      StepEvents(cfg, After(cfg, items, k - 1), items[k - 1]);
      if items[k - 1].event.id != Text(id) {
        EventsAreItems(cfg, items, k - 1, id);
      }
    }
  }

  lemma NotYetApplied(cfg: Config, items: seq<Item>, k: nat)
    requires k < |items| && Replay(cfg, items).Ok? && DistinctIds(items)
    ensures items[k].event.id.Text? && items[k].event.id.text !in After(cfg, items, k).events
  {
    AfterStep(cfg, items, k);
    hide Step, Replay;
    StepEvents(cfg, After(cfg, items, k), items[k]);
    var id := items[k].event.id.text;
    if id in After(cfg, items, k).events { EventsAreItems(cfg, items, k, id); }
  }

  lemma {:induction false} ReplayInv(cfg: Config, items: seq<Item>, k: nat)
    requires k <= |items| && Replay(cfg, items).Ok? && DistinctIds(items)
    ensures Inv(After(cfg, items, k))
  {
    if k == 0 {
      assert items[..0] == [];
      EmptyInv();
    } else {
      hide Inv, Step;
      ReplayInv(cfg, items, k - 1);
      AfterStep(cfg, items, k - 1);
      NotYetApplied(cfg, items, k - 1);
      StepKeepsInv(cfg, After(cfg, items, k - 1), items[k - 1]);
    }
  }

  lemma EmptyInv()
    ensures Inv(EMPTY)
  {
    assert forall work :: Active(EMPTY.claims, work) == {};
  }

  // ------------------------------------------------------- what is spent stays spent

  /** An event that is an open offer of no claim, and never will be. */
  ghost predicate Dead(s: State, o: string) {
    o in s.events && forall k :: k in s.claims ==> o !in s.claims[k].offers
  }

  /** An event that awaits no successor claim, and never will. */
  ghost predicate Spent(s: State, a: string) {
    a in s.events && a !in s.awaiting
  }

  /** From one record on: dead offers, spent acceptances and used generations stay so, and offers keep their claim. */
  ghost predicate Forward(s: State, s': State) {
    && (forall o :: Dead(s, o) ==> Dead(s', o))
    && (forall a :: Spent(s, a) ==> Spent(s', a))
    && s.used <= s'.used && s.events.Keys <= s'.events.Keys
    && (forall o :: o in s.events && o in s.offers ==> o in s'.offers && s'.offers[o].claim == s.offers[o].claim)
    && (forall o :: o in s.events && o !in s.offers ==> o !in s'.offers)
  }

  lemma StepForward(cfg: Config, s: State, item: Item)
    requires item.event.id.Text? && item.event.id.text !in s.events && Step(cfg, s, item).Ok?
    ensures Forward(s, Step(cfg, s, item).value)
  {
    StepEvents(cfg, s, item);
    hide Apply, CheckBinding;
    var id, e, r, s' := item.event.id.text, item.event, item.receipt, Step(cfg, s, item).value;
    if r.sequence <= cfg.highWater {
      var s1 := s.(events := s.events[id := e], sequences := s.sequences[r.sequence := id]);
      ApplyMoves(cfg, s1, e, r, id);
      forall o | Dead(s, o) ensures Dead(s', o) {
        forall k | k in s'.claims
          ensures o !in s'.claims[k].offers { assert s'.claims[k].offers <= OffersOf(s1, k) + {id}; }
      }
    }
  }

  lemma {:induction false} ReplayForward(cfg: Config, items: seq<Item>, i: nat, j: nat)
    requires i <= j <= |items| && Replay(cfg, items).Ok? && DistinctIds(items)
    ensures Forward(After(cfg, items, i), After(cfg, items, j))
    decreases j
  {
    if i < j {
      hide Step, Replay, Dead, Spent;
      ReplayForward(cfg, items, i, j - 1);
      AfterStep(cfg, items, j - 1);
      NotYetApplied(cfg, items, j - 1);
      StepForward(cfg, After(cfg, items, j - 1), items[j - 1]);
    }
  }

  // ------------------------------------------------------------------- theorems

  /** The record at `k` takes effect as an event of this kind. */
  ghost predicate Applied(cfg: Config, items: seq<Item>, k: nat, kind: Kind) {
    k < |items| && items[k].event.kind == kind && items[k].receipt.sequence <= cfg.highWater
  }

  ghost function FieldOf(item: Item, name: string): Field { Get(item.event.data, name) }

  /** An applied acceptance found its offer open, and closes every offer of that claim for good. */
  lemma AcceptCloses(cfg: Config, s: State, item: Item)
    requires Inv(s) && item.event.id.Text? && item.event.id.text !in s.events && Step(cfg, s, item).Ok?
    requires item.event.kind.HandoffAccept? && item.receipt.sequence <= cfg.highWater
    ensures var o, s' := FieldOf(item, "offer_event_id"), Step(cfg, s, item).value;
            && o.Text? && o.text in s.offers && o.text in s.events
            && FieldOf(item, "claim_id") == Text(s.offers[o.text].claim.0)
            && FieldOf(item, "generation") == Text(s.offers[o.text].claim.1)
            && !Dead(s, o.text)
            && Dead(s', item.event.id.text)
            && (forall x :: x in s.events && x in s.offers && s.offers[x].claim == s.offers[o.text].claim ==>
               Dead(s', x))
  {
    var id, e, r := item.event.id.text, item.event, item.receipt;
    var s1 := s.(events := s.events[id := e], sequences := s.sequences[r.sequence := id]);
    assert e.work.Some?;
    var s2 := s1.(works := s1.works + {e.work.value.uri});
    var s' := Step(cfg, s, item).value;
    assert s' == ApplyAccept(s2, e, r, id).value && MayAccept(s2, e, r);
    var o := Get(e.data, "offer_event_id").text;
    var key := s.offers[o].claim;
    assert ClaimInv(s, key);
    hide Step, Get, MayAccept;
    forall k | k in s'.claims ensures id !in s'.claims[k].offers { assert ClaimInv(s, k); }
    forall x | x in s.events && x in s.offers && s.offers[x].claim == key ensures Dead(s', x) {
      forall k | k in s'.claims ensures x !in s'.claims[k].offers {
        if k != key { assert ClaimInv(s, k); }
      }
    }
  }

  /** Each offer is accepted at most once, and an acceptance leaves no sibling offer to accept: of two
      applied acceptances on one claim, the second accepts an offer made after the first. */
  lemma AcceptedAtMostOnce(cfg: Config, items: seq<Item>, i: nat, j: nat)
    requires Replay(cfg, items).Ok? && DistinctIds(items) && i < j
    requires Applied(cfg, items, i, HandoffAccept) && Applied(cfg, items, j, HandoffAccept)
    ensures FieldOf(items[i], "offer_event_id") != FieldOf(items[j], "offer_event_id")
    ensures FieldOf(items[i], "claim_id") == FieldOf(items[j], "claim_id")
              && FieldOf(items[i], "generation") == FieldOf(items[j], "generation") ==>
              exists x :: i < x < j && items[x].event.id == FieldOf(items[j], "offer_event_id")
  {
    var s, t := After(cfg, items, i), After(cfg, items, j);
    hide Inv, Step, Replay, Get, After;
    ReplayInv(cfg, items, i);
    ReplayInv(cfg, items, j);
    NotYetApplied(cfg, items, i);
    NotYetApplied(cfg, items, j);
    AfterStep(cfg, items, i);
    AfterStep(cfg, items, j);
    AcceptCloses(cfg, s, items[i]);
    AcceptCloses(cfg, t, items[j]);
    hide FieldOf;
    ReplayForward(cfg, items, i + 1, j);
    var o, o' := FieldOf(items[i], "offer_event_id").text, FieldOf(items[j], "offer_event_id").text;
    assert Dead(t, o);
    if t.offers[o'].claim == s.offers[o].claim {
      OfferIsNewer(cfg, items, i, j, s.offers[o].claim, o');
    }
  }

  /** With every older offer of a claim closed at `i`, an offer open at `j` was made in between. */
  lemma OfferIsNewer(cfg: Config, items: seq<Item>, i: nat, j: nat, key: Key, o: string)
    requires i < j <= |items| && Replay(cfg, items).Ok? && DistinctIds(items)
    requires var s, s' := After(cfg, items, i), After(cfg, items, i + 1);
             && (forall x :: x in s.events && x in s.offers && s.offers[x].claim == key ==> Dead(s', x))
             && items[i].event.id.Text? && Dead(s', items[i].event.id.text)
    requires var t := After(cfg, items, j); o in t.events && o in t.offers && t.offers[o].claim == key && !Dead(t, o)
    ensures exists x :: i < x < j && items[x].event.id == Text(o)
  {
    hide Replay, Step, After, Dead, Spent;
    EventsAreItems(cfg, items, j, o);
    var x :| 0 <= x < j && items[x].event.id == Text(o) && o in After(cfg, items, x + 1).events;
    ReplayForward(cfg, items, i + 1, j);
    if x < i {
      ReplayForward(cfg, items, x + 1, i);
      ReplayForward(cfg, items, i, j);
    }
  }

  /** No two applied claims name the same acceptance as their predecessor. */
  lemma SucceededAtMostOnce(cfg: Config, items: seq<Item>, i: nat, j: nat)
    requires Replay(cfg, items).Ok? && DistinctIds(items) && i < j
    requires Applied(cfg, items, i, ClaimKind) && Applied(cfg, items, j, ClaimKind)
    requires FieldOf(items[i], "predecessor_handoff_event") != Absent
    ensures FieldOf(items[i], "predecessor_handoff_event") != FieldOf(items[j], "predecessor_handoff_event")
  {
    var s, t := After(cfg, items, i), After(cfg, items, j);
    hide Inv, Step, Replay, Get, After;
    ReplayInv(cfg, items, i);
    NotYetApplied(cfg, items, i);
    AfterStep(cfg, items, i);
    AfterStep(cfg, items, j);
    ClaimSpends(cfg, s, items[i]);
    ClaimTakes(cfg, t, items[j]);
    ReplayForward(cfg, items, i + 1, j);
  }

  lemma ClaimTakes(cfg: Config, s: State, item: Item)
    requires Step(cfg, s, item).Ok? && item.event.kind.ClaimKind? && item.receipt.sequence <= cfg.highWater
    ensures var p := FieldOf(item, "predecessor_handoff_event"); p != Absent ==> p.Text? && p.text in s.awaiting
    ensures FieldOf(item, "claim_id").Text? && FieldOf(item, "generation").Text?
    ensures var key := (FieldOf(item, "claim_id").text, FieldOf(item, "generation").text);
            key !in s.used && key in Step(cfg, s, item).value.used
  {
    assert item.event.work.Some?;
    hide Active, Get, CheckBinding;
  }

  lemma ClaimSpends(cfg: Config, s: State, item: Item)
    requires Inv(s) && item.event.id.Text? && item.event.id.text !in s.events
    requires Step(cfg, s, item).Ok? && item.event.kind.ClaimKind? && item.receipt.sequence <= cfg.highWater
    ensures var p := FieldOf(item, "predecessor_handoff_event"); p.Text? ==> Spent(Step(cfg, s, item).value, p.text)
  {
    ClaimTakes(cfg, s, item);
    StepEvents(cfg, s, item);
    hide Active, Get, CheckBinding;
  }

  /** No claim generation is ever used twice. */
  lemma GenerationUsedOnce(cfg: Config, items: seq<Item>, i: nat, j: nat)
    requires Replay(cfg, items).Ok? && DistinctIds(items) && i < j
    requires Applied(cfg, items, i, ClaimKind) && Applied(cfg, items, j, ClaimKind)
    ensures FieldOf(items[i], "claim_id") != FieldOf(items[j], "claim_id")
              || FieldOf(items[i], "generation") != FieldOf(items[j], "generation")
  {
    hide Step, Replay, Get, After;
    AfterStep(cfg, items, i);
    AfterStep(cfg, items, j);
    ClaimTakes(cfg, After(cfg, items, i), items[i]);
    ClaimTakes(cfg, After(cfg, items, j), items[j]);
    ReplayForward(cfg, items, i + 1, j);
  }

  // ------------------------------------------------------------- conflicts

  ghost predicate InConflict(s: State, work: string) { |Active(s.claims, work)| > 1 }

  /** A trigger is set where a conflict begins, and stays while the conflict lasts. */
  ghost predicate TriggerStep(s: State, s': State, sequence: int, work: string) {
    InConflict(s', work) ==>
      work in s'.triggers &&
      if InConflict(s, work) then work in s.triggers && s'.triggers[work] == s.triggers[work]
          else s'.triggers[work] == sequence
  }

  lemma UpdateTriggerSteps(s: State, s1: State, changed: string, sequence: int, work: string)
    requires WorkInv(s, work) && s1.triggers == s.triggers
    requires (work != changed ==> Active(s1.claims, work) == Active(s.claims, work))
    ensures TriggerStep(s, UpdateTrigger(s1, changed, sequence), sequence, work)
  {
    hide Active;
  }

  lemma ClaimTriggers(s: State, e: Event, sequence: int, changed: string, id: string, work: string)
    requires Inv(s) && ApplyClaim(s, e, sequence, changed, id).Ok?
    ensures TriggerStep(s, ApplyClaim(s, e, sequence, changed, id).value, sequence, work)
  {
    hide Get, UpdateTrigger, WorkInv, ClaimInv, Active, TriggerStep;
    var key := (Get(e.data, "claim_id").text, Get(e.data, "generation").text);
    var predecessor := Get(e.data, "predecessor_handoff_event");
    var left := if predecessor.Text? then s.awaiting - {predecessor.text} else s.awaiting;
    var c := Claim(id, changed, true, id, {});
    ActiveAfterClaim(s.claims, key, c, work);
    UpdateTriggerSteps(s, s.(awaiting := left, claims := s.claims[key := c], used := s.used + {key}), changed,
                       sequence, work);
  }

  lemma SameActiveTriggers(s: State, s': State, key: Key, sequence: int, work: string)
    requires WorkInv(s, work) && key in s.claims && key in s'.claims && s'.claims == s.claims[key := s'.claims[key]]
    requires s'.claims[key].active == s.claims[key].active && s'.claims[key].work == s.claims[key].work
    requires s'.triggers == s.triggers
    ensures TriggerStep(s, s', sequence, work)
  {
    ActiveUnchanged(s.claims, key, s'.claims[key], work);
  }

  lemma LifecycleTriggers(s: State, e: Event, sequence: int, changed: string, id: string, work: string)
    requires Inv(s) && ApplyLifecycle(s, e, sequence, changed, id).Ok?
    ensures TriggerStep(s, ApplyLifecycle(s, e, sequence, changed, id).value, sequence, work)
  {
    hide Get, UpdateTrigger, WorkInv, ClaimInv, Active, TriggerStep;
    var key, s' := ClaimFor(s, e.data, changed).value, ApplyLifecycle(s, e, sequence, changed, id).value;
    if e.kind.Release? {
      var c := s.claims[key].(active := false, last := id, offers := {});
      ActiveAfterRelease(s.claims, key, c, work);
      UpdateTriggerSteps(s, s.(claims := s.claims[key := c]), changed, sequence, work);
    } else {
      SameActiveTriggers(s, s', key, sequence, work);
    }
  }

  lemma ApplyTriggers(cfg: Config, s: State, e: Event, r: Receipt, id: string, work: string)
    requires Inv(s) && Apply(cfg, s, e, r, id).Ok?
    ensures TriggerStep(s, Apply(cfg, s, e, r, id).value, r.sequence, work)
  {
    assert WorkInv(s, work);
    if !WorkKind(e.kind) || e.work.None? {
      return;
    }
    var s1, uri := s.(works := s.works + {e.work.value.uri}), e.work.value.uri;
    WorksKeepInv(s, s1);
    hide Inv, ApplyClaim, ApplyLifecycle, ClaimInv;
    match e.kind {
      case ClaimKind => ClaimTriggers(s1, e, r.sequence, uri, id, work);
      case Progress => LifecycleTriggers(s1, e, r.sequence, uri, id, work);
      case Release => LifecycleTriggers(s1, e, r.sequence, uri, id, work);
      case HandoffOffer => LifecycleTriggers(s1, e, r.sequence, uri, id, work);
      case HandoffAccept =>
        hide Active, Get, WorkInv, TriggerStep;
        SameActiveTriggers(s1, ApplyAccept(s1, e, r, id).value, s1.offers[Get(e.data, "offer_event_id").text].claim,
                           r.sequence, work);
      case _ =>
    }
    hide Active, ApplyAccept;
  }

  lemma StepTrigger(cfg: Config, s: State, item: Item, work: string)
    requires Inv(s) && item.event.id.Text? && item.event.id.text !in s.events && Step(cfg, s, item).Ok?
    ensures TriggerStep(s, Step(cfg, s, item).value, item.receipt.sequence, work)
  {
    assert WorkInv(s, work);
    hide Inv, Apply, CheckBinding, Active;
    var id, e, r := item.event.id.text, item.event, item.receipt;
    if r.sequence <= cfg.highWater {
      var s1 := s.(events := s.events[id := e], sequences := s.sequences[r.sequence := id]);
      RecordKeepsInv(s, s1, id, e);
      ApplyTriggers(cfg, s1, e, r, id, work);
    }
  }

  /** The record at `k` starts a conflict of `work` that lasts until after record `n - 1`, and its
      sequence is the trigger. */
  ghost predicate BeganAt(cfg: Config, items: seq<Item>, k: nat, n: nat, work: string)
    requires n <= |items| && Replay(cfg, items).Ok?
  {
    && k < n && !InConflict(After(cfg, items, k), work)
    && (forall m :: k < m <= n ==> InConflict(After(cfg, items, m), work))
    && work in After(cfg, items, n).triggers && After(cfg, items, n).triggers[work] == items[k].receipt.sequence
  }

  lemma TriggerIffConflict(cfg: Config, items: seq<Item>, n: nat, work: string)
    requires n <= |items| && Replay(cfg, items).Ok? && DistinctIds(items)
    ensures work in After(cfg, items, n).triggers <==> InConflict(After(cfg, items, n), work)
  {
    ReplayInv(cfg, items, n);
    hide Replay, After, Active, ClaimInv;
    assert WorkInv(After(cfg, items, n), work);
  }

  lemma TriggerFollows(cfg: Config, items: seq<Item>, n: nat, work: string)
    requires n < |items| && Replay(cfg, items).Ok? && DistinctIds(items)
    ensures TriggerStep(After(cfg, items, n), After(cfg, items, n + 1), items[n].receipt.sequence, work)
  {
    hide Inv, Step, Replay, After, TriggerStep;
    ReplayInv(cfg, items, n);
    AfterStep(cfg, items, n);
    NotYetApplied(cfg, items, n);
    StepTrigger(cfg, After(cfg, items, n), items[n], work);
  }

  lemma BeganGrows(cfg: Config, items: seq<Item>, k: nat, n: nat, work: string)
    requires n < |items| && Replay(cfg, items).Ok? && BeganAt(cfg, items, k, n, work)
    requires TriggerStep(After(cfg, items, n), After(cfg, items, n + 1), items[n].receipt.sequence, work)
    requires InConflict(After(cfg, items, n + 1), work)
    ensures BeganAt(cfg, items, k, n + 1, work)
  {
    hide Replay, After, InConflict;
    forall m | k < m <= n + 1 ensures InConflict(After(cfg, items, m), work) {}
  }

  /** A work has a conflict trigger exactly while it has more than one active claim, and the trigger is
      the sequence of the record with which that conflict began. */
  lemma {:induction false} TriggerIsStart(cfg: Config, items: seq<Item>, n: nat, work: string)
    requires n <= |items| && Replay(cfg, items).Ok? && DistinctIds(items)
    ensures work in After(cfg, items, n).triggers <==> InConflict(After(cfg, items, n), work)
    ensures InConflict(After(cfg, items, n), work) ==> exists k: nat :: BeganAt(cfg, items, k, n, work)
  {
    TriggerIffConflict(cfg, items, n, work);
    if n == 0 {
      assert items[..0] == [];
      assert Active(EMPTY.claims, work) == {};
      return;
    }
    hide Step, Replay, After, InConflict;
    if InConflict(After(cfg, items, n), work) {
      TriggerFollows(cfg, items, n - 1, work);
      if InConflict(After(cfg, items, n - 1), work) {
        TriggerIsStart(cfg, items, n - 1, work);
        var k: nat :| BeganAt(cfg, items, k, n - 1, work);
        BeganGrows(cfg, items, k, n - 1, work);
      } else {
        assert BeganAt(cfg, items, n - 1, n, work);
      }
    }
  }

  /** In every reachable state each work has at most 32 active claims, each claim at most 32 open
      offers, and projecting any work succeeds. */
  lemma ProjectNeverFails(cfg: Config, items: seq<Item>, n: nat, reasons: set<Reason>, work: string)
    requires n <= |items| && Replay(cfg, items).Ok? && DistinctIds(items)
    ensures var s := After(cfg, items, n);
            && Project(cfg, s, reasons, work).Ok?
            && |Active(s.claims, work)| <= 32
            && (forall k :: k in s.claims ==> |s.claims[k].offers| <= 32)
  {
    ReplayInv(cfg, items, n);
    var s := After(cfg, items, n);
    assert WorkInv(s, work);
    forall k | k in s.claims ensures |s.claims[k].offers| <= 32 { assert ClaimInv(s, k); }
    hide Active, Replay, ClaimInv, WorkInv;
  }
}
