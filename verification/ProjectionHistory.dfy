/**
 The replay engine's state as a reading of the records replayed so far: which record claimed,
 touched, released, offered or accepted, and which later record undid it.
 */
module ProjectionHistory {
  import opened Projection
  import opened ProjectionInvariant

  // ------------------------------------------------------------ what one record does

  ghost predicate Names(e: Event, key: Key) {
    Get(e.data, "claim_id") == Text(key.0) && Get(e.data, "generation") == Text(key.1)
  }

  /** Kinds that continue an active claim. */
  predicate Continues(k: Kind) { k.Progress? || k.Release? || k.HandoffOffer? || k.HandoffAccept? }

  /** What a record that continues a claim does to it. */
  function Continued(c: Claim, e: Event, id: string): Claim {
    c.(active := c.active && !e.kind.Release?, last := id,
       offers := if e.kind.Release? || e.kind.HandoffAccept? then {}
                 else if e.kind.HandoffOffer? then c.offers + {id} else c.offers)
  }

  /** The effect of an event on the claim of one key. */
  ghost predicate ClaimEffect(s: State, s': State, e: Event, id: string, key: Key) {
    if e.kind.ClaimKind? && Names(e, key) then
      && e.work.Some? && key !in s.claims && key in s'.claims
      && s'.claims[key] == Claim(id, e.work.value.uri, true, id, {})
    else if Continues(e.kind) && Names(e, key) then
      && key in s.claims && s.claims[key].active && key in s'.claims
      && s'.claims[key] == Continued(s.claims[key], e, id)
    else
      (key in s'.claims <==> key in s.claims) && (key in s.claims ==> s'.claims[key] == s.claims[key])
  }

  /** The effect of an event on what awaits a successor claim. */
  ghost predicate AwaitEffect(s: State, s': State, e: Event, sequence: int, id: string, a: string) {
    if e.kind.HandoffAccept? && a == id then
      && a in s'.awaiting && Get(e.data, "claim_id").Text?
      && s'.awaiting[a] == Acceptance(Get(e.data, "claim_id").text, sequence)
    else if e.kind.ClaimKind? && Get(e.data, "predecessor_handoff_event") == Text(a) then
      a in s.awaiting && a !in s'.awaiting
    else
      (a in s'.awaiting <==> a in s.awaiting) && (a in s.awaiting ==> s'.awaiting[a] == s.awaiting[a])
  }

  /** What an offer says, whatever becomes of it. */
  ghost predicate OfferFrom(o: Offer, e: Event) {
    && Get(e.data, "handoff_id") == Text(o.handoff) && Names(e, o.claim)
    && Get(e.data, "to_participant_instance_id") == Text(o.recipient)
    && Get(e.data, "boundary_digest") == Text(o.boundary) && Get(e.data, "evidence_set_digest") == Text(o.evidence)
  }

  ghost predicate OfferEffect(s: State, s': State, e: Event, id: string, o: string) {
    if e.kind.HandoffOffer? && o == id then o in s'.offers && OfferFrom(s'.offers[o], e)
    else && (o in s'.offers <==> o in s.offers)
         && (o in s.offers ==> s'.offers[o] == s.offers[o].(accepted := s'.offers[o].accepted))
  }

  /** The effect of an event on the claim of a key and on what is recorded under an event ID. */
  ghost predicate Effect(s: State, s': State, e: Event, sequence: int, id: string, key: Key, x: string) {
    ClaimEffect(s, s', e, id, key) && AwaitEffect(s, s', e, sequence, id, x) && OfferEffect(s, s', e, id, x)
  }

  /** A claim opens its key and takes its predecessor, if it names one. */
  lemma ClaimShape(s: State, e: Event, sequence: int, work: string, id: string)
    requires ApplyClaim(s, e, sequence, work, id).Ok?
    ensures Get(e.data, "claim_id").Text? && Get(e.data, "generation").Text?
    ensures var named := (Get(e.data, "claim_id").text, Get(e.data, "generation").text);
            var p, s' := Get(e.data, "predecessor_handoff_event"), ApplyClaim(s, e, sequence, work, id).value;
            && named !in s.used && (p != Absent ==> p.Text? && p.text in s.awaiting)
            && s'.claims == s.claims[named := Claim(id, work, true, id, {})]
            && s'.awaiting == (if p.Text? then s.awaiting - {p.text} else s.awaiting) && s'.offers == s.offers
  {
    hide Get, Active, UpdateTrigger;
    var named := (Get(e.data, "claim_id").text, Get(e.data, "generation").text);
    var p := Get(e.data, "predecessor_handoff_event");
    var left := if p.Text? then s.awaiting - {p.text} else s.awaiting;
    UpdateTriggerFrame(s.(awaiting := left, claims := s.claims[named := Claim(id, work, true, id, {})],
                       used := s.used + {named}), work, sequence);
  }

  lemma EffectOfClaim(s: State, e: Event, sequence: int, work: string, id: string, key: Key, x: string)
    requires s.used == s.claims.Keys && e.kind.ClaimKind? && e.work.Some? && e.work.value.uri == work
    requires ApplyClaim(s, e, sequence, work, id).Ok?
    ensures Effect(s, ApplyClaim(s, e, sequence, work, id).value, e, sequence, id, key, x)
  {
    hide Get, ApplyClaim;
    ClaimShape(s, e, sequence, work, id);
  }

  lemma EffectOfLifecycle(s: State, e: Event, sequence: int, work: string, id: string, key: Key, x: string)
    requires e.kind.Progress? || e.kind.Release? || e.kind.HandoffOffer?
    requires ApplyLifecycle(s, e, sequence, work, id).Ok?
    ensures Effect(s, ApplyLifecycle(s, e, sequence, work, id).value, e, sequence, id, key, x)
  {
    hide Get, Active, UpdateTrigger;
    var s', named := ApplyLifecycle(s, e, sequence, work, id).value, ClaimFor(s, e.data, work).value;
    var s1 := s.(claims := s.claims[named := s.claims[named].(active := false, last := id, offers := {})]);
    UpdateTriggerFrame(s1, work, sequence);
    assert Names(e, named);
    if e.kind.HandoffOffer? {
      OfferAdds(s, e, named, id);
    } else {
      assert s' == s.(claims := s.claims[named := s'.claims[named]], triggers := s'.triggers);
    }
  }

  lemma EffectOfAccept(s: State, e: Event, r: Receipt, id: string, key: Key, x: string)
    requires e.kind.HandoffAccept? && ApplyAccept(s, e, r, id).Ok?
    ensures Effect(s, ApplyAccept(s, e, r, id).value, e, r.sequence, id, key, x)
  {
    hide Get;
  }

  lemma EffectOfApply(cfg: Config, s: State, e: Event, r: Receipt, id: string, key: Key, x: string)
    requires s.used == s.claims.Keys && (WorkKind(e.kind) ==> e.work.Some?) && Apply(cfg, s, e, r, id).Ok?
    ensures Effect(s, Apply(cfg, s, e, r, id).value, e, r.sequence, id, key, x)
  {
    if !WorkKind(e.kind) {
      return;
    }
    var s1, work := s.(works := s.works + {e.work.value.uri}), e.work.value.uri;
    hide ApplyClaim, ApplyLifecycle, ApplyAccept, Names, OfferFrom;
    match e.kind {
      case ClaimKind => EffectOfClaim(s1, e, r.sequence, work, id, key, x);
      case Progress => EffectOfLifecycle(s1, e, r.sequence, work, id, key, x);
      case Release => EffectOfLifecycle(s1, e, r.sequence, work, id, key, x);
      case HandoffOffer => EffectOfLifecycle(s1, e, r.sequence, work, id, key, x);
      case HandoffAccept => EffectOfAccept(s1, e, r, id, key, x);
      case _ =>
    }
  }

  /** A record within the high water has its effect; any other has none. */
  lemma StepEffect(cfg: Config, items: seq<Item>, n: nat, key: Key, x: string)
    requires n < |items| && Replay(cfg, items).Ok? && DistinctIds(items)
    ensures items[n].event.id.Text? && (WorkKind(items[n].event.kind) ==> items[n].event.work.Some?)
    ensures var s, s', e, r := After(cfg, items, n), After(cfg, items, n + 1), items[n].event, items[n].receipt;
            if r.sequence <= cfg.highWater then Effect(s, s', e, r.sequence, e.id.text, key, x)
            else s'.claims == s.claims && s'.awaiting == s.awaiting && s'.offers == s.offers
  {
    AfterStep(cfg, items, n);
    ReplayInv(cfg, items, n);
    hide Replay, After, Apply, Names, OfferFrom;
    var s, e, r := After(cfg, items, n), items[n].event, items[n].receipt;
    if r.sequence <= cfg.highWater {
      var s1 := s.(events := s.events[e.id.text := e], sequences := s.sequences[r.sequence := e.id.text]);
      EffectOfApply(cfg, s1, e, r, e.id.text, key, x);
    }
  }

  // -------------------------------------------------------------------- history

  ghost predicate Is(items: seq<Item>, i: nat, x: string) {
    i < |items| && items[i].event.id == Text(x)
  }

  ghost predicate ClaimAt(cfg: Config, items: seq<Item>, i: nat, key: Key) {
    Applied(cfg, items, i, ClaimKind) && Names(items[i].event, key)
  }

  ghost predicate ReleaseAt(cfg: Config, items: seq<Item>, i: nat, key: Key) {
    Applied(cfg, items, i, Release) && Names(items[i].event, key)
  }

  ghost predicate OfferAt(cfg: Config, items: seq<Item>, i: nat, key: Key) {
    Applied(cfg, items, i, HandoffOffer) && Names(items[i].event, key)
  }

  ghost predicate AcceptAt(cfg: Config, items: seq<Item>, i: nat, key: Key) {
    Applied(cfg, items, i, HandoffAccept) && Names(items[i].event, key)
  }

  ghost predicate ProgressAt(cfg: Config, items: seq<Item>, i: nat, key: Key) {
    Applied(cfg, items, i, Progress) && Names(items[i].event, key)
  }

  ghost predicate TouchAt(cfg: Config, items: seq<Item>, i: nat, key: Key) {
    || ClaimAt(cfg, items, i, key) || ProgressAt(cfg, items, i, key) || ReleaseAt(cfg, items, i, key)
    || OfferAt(cfg, items, i, key) || AcceptAt(cfg, items, i, key)
  }

  /** Some record of the first n claimed the key. */
  ghost predicate ClaimedBefore(cfg: Config, items: seq<Item>, n: nat, key: Key) {
    exists i: nat :: i < n && ClaimAt(cfg, items, i, key)
  }

  ghost predicate ReleasedBefore(cfg: Config, items: seq<Item>, n: nat, key: Key) {
    exists i: nat :: i < n && ReleaseAt(cfg, items, i, key)
  }

  /** What the engine keeps of a claim, against the record that claimed it. */
  ghost predicate IsClaimOf(cfg: Config, items: seq<Item>, n: nat, c: Claim, key: Key, i: nat)
    requires i < |items|
  {
    && items[i].event.id == Text(c.event) && items[i].event.work.Some? && items[i].event.work.value.uri == c.work
    && (c.active <==> !ReleasedBefore(cfg, items, n, key))
  }

  ghost predicate ClaimRead(cfg: Config, items: seq<Item>, n: nat, s: State, key: Key)
    requires n <= |items|
  {
    && (key in s.claims <==> ClaimedBefore(cfg, items, n, key))
    && (key !in s.claims ==> !ReleasedBefore(cfg, items, n, key))
    && (key in s.claims ==>
          forall i: nat :: i < n && ClaimAt(cfg, items, i, key) ==> IsClaimOf(cfg, items, n, s.claims[key], key, i))
  }

  lemma ClaimReadGrows(cfg: Config, items: seq<Item>, n: nat, s: State, s': State, key: Key)
    requires n < |items| && ClaimRead(cfg, items, n, s, key) && items[n].event.id.Text?
    requires if items[n].receipt.sequence <= cfg.highWater
             then ClaimEffect(s, s', items[n].event, items[n].event.id.text, key) else s'.claims == s.claims
    ensures ClaimRead(cfg, items, n + 1, s', key)
  {
    hide Names;
    ClaimGrows(cfg, items, n + 1, key);
    hide ReleasedBefore;
    assert forall i: nat :: i < n && ClaimAt(cfg, items, i, key) ==> ClaimedBefore(cfg, items, n, key);
  }

  /** A key is known exactly if a record claimed it, and active exactly if none released it since. */
  lemma {:induction false} ClaimHistory(cfg: Config, items: seq<Item>, n: nat, key: Key)
    requires n <= |items| && Replay(cfg, items).Ok? && DistinctIds(items)
    ensures ClaimRead(cfg, items, n, After(cfg, items, n), key)
    decreases n
  {
    if n == 0 {
      assert items[..0] == [];
    } else {
      hide Replay, After, ClaimRead, ClaimEffect, AwaitEffect, OfferEffect;
      ClaimHistory(cfg, items, n - 1, key);
      StepEffect(cfg, items, n - 1, key, "");
      ClaimReadGrows(cfg, items, n - 1, After(cfg, items, n - 1), After(cfg, items, n), key);
    }
  }

  lemma ClaimGrows(cfg: Config, items: seq<Item>, n: nat, key: Key)
    requires 0 < n <= |items|
    ensures ClaimedBefore(cfg, items, n, key) <==>
            ClaimedBefore(cfg, items, n - 1, key) || ClaimAt(cfg, items, n - 1, key)
    ensures ReleasedBefore(cfg, items, n, key) <==>
            ReleasedBefore(cfg, items, n - 1, key) || ReleaseAt(cfg, items, n - 1, key)
  {
    hide ClaimAt, ReleaseAt;
    if ClaimedBefore(cfg, items, n, key) {
      var i: nat :| i < n && ClaimAt(cfg, items, i, key);
      assert i < n - 1 || i == n - 1;
    }
    if ReleasedBefore(cfg, items, n, key) {
      var i: nat :| i < n && ReleaseAt(cfg, items, i, key);
      assert i < n - 1 || i == n - 1;
    }
  }

  // ------------------------------------------------------------- open offers

  /** Record m offered the claim, and neither a release nor an acceptance of the claim came since. */
  ghost predicate OpenAt(cfg: Config, items: seq<Item>, n: nat, m: nat, key: Key) {
    && m < n && OfferAt(cfg, items, m, key)
    && forall j: nat :: m < j < n ==> !ReleaseAt(cfg, items, j, key) && !AcceptAt(cfg, items, j, key)
  }

  ghost predicate OpenBefore(cfg: Config, items: seq<Item>, n: nat, key: Key, o: string) {
    exists m: nat :: OpenAt(cfg, items, n, m, key) && Is(items, m, o)
  }

  lemma OpenGrows(cfg: Config, items: seq<Item>, n: nat, key: Key, o: string)
    requires n < |items|
    ensures OpenBefore(cfg, items, n + 1, key, o) <==>
            || (OfferAt(cfg, items, n, key) && Is(items, n, o))
            || (OpenBefore(cfg, items, n, key, o) && !ReleaseAt(cfg, items, n, key) && !AcceptAt(cfg, items, n, key))
  {
    hide OfferAt, ReleaseAt, AcceptAt, Is;
    if OpenBefore(cfg, items, n + 1, key, o) {
      var m: nat :| OpenAt(cfg, items, n + 1, m, key) && Is(items, m, o);
      if m < n { assert OpenAt(cfg, items, n, m, key); }
    }
    if OfferAt(cfg, items, n, key) && Is(items, n, o) { assert OpenAt(cfg, items, n + 1, n, key); }
    if OpenBefore(cfg, items, n, key, o) && !ReleaseAt(cfg, items, n, key) && !AcceptAt(cfg, items, n, key) {
      var m: nat :| OpenAt(cfg, items, n, m, key) && Is(items, m, o);
      assert OpenAt(cfg, items, n + 1, m, key);
    }
  }

  /** The open offers of a claim are those that records made and no later record closed. */
  lemma {:induction false} OfferHistory(cfg: Config, items: seq<Item>, n: nat, key: Key, o: string)
    requires n <= |items| && Replay(cfg, items).Ok? && DistinctIds(items)
    ensures o in OffersOf(After(cfg, items, n), key) <==> OpenBefore(cfg, items, n, key, o)
    decreases n
  {
    if n == 0 {
      assert items[..0] == [];
    } else {
      hide Replay, After, AwaitEffect, OfferEffect, OpenBefore, Names;
      OfferHistory(cfg, items, n - 1, key, o);
      StepEffect(cfg, items, n - 1, key, "");
      OpenGrows(cfg, items, n - 1, key, o);
    }
  }

  /** What an offer says is what the record that made it says. */
  lemma {:induction false} OfferIsRead(cfg: Config, items: seq<Item>, n: nat, m: nat, o: string)
    requires m < n <= |items| && Replay(cfg, items).Ok? && DistinctIds(items)
    requires Applied(cfg, items, m, HandoffOffer) && Is(items, m, o)
    ensures o in After(cfg, items, n).offers && OfferFrom(After(cfg, items, n).offers[o], items[m].event)
    decreases n
  {
    hide Replay, After, AwaitEffect, ClaimEffect;
    StepEffect(cfg, items, n - 1, ("", ""), o);
    if m < n - 1 {
      OfferIsRead(cfg, items, n - 1, m, o);
      assert items[n - 1].event.id != items[m].event.id;
    }
  }

  // ----------------------------------------------------- the latest record of a claim

  ghost predicate LatestAt(cfg: Config, items: seq<Item>, n: nat, i: nat, key: Key) {
    i < n && TouchAt(cfg, items, i, key) && forall j: nat :: i < j < n ==> !TouchAt(cfg, items, j, key)
  }

  ghost predicate LatestIs(cfg: Config, items: seq<Item>, n: nat, key: Key, x: string) {
    exists i: nat :: LatestAt(cfg, items, n, i, key) && Is(items, i, x)
  }

  lemma LatestGrows(cfg: Config, items: seq<Item>, n: nat, key: Key, x: string)
    requires n < |items|
    ensures LatestIs(cfg, items, n + 1, key, x) <==>
            if TouchAt(cfg, items, n, key) then Is(items, n, x) else LatestIs(cfg, items, n, key, x)
  {
    hide TouchAt, Is;
    if TouchAt(cfg, items, n, key) {
      assert LatestAt(cfg, items, n + 1, n, key);
    } else {
      forall i: nat ensures LatestAt(cfg, items, n + 1, i, key) <==> LatestAt(cfg, items, n, i, key) {}
    }
  }

  /** The parent a claim's next record must name is its latest record. */
  lemma {:induction false} LatestHistory(cfg: Config, items: seq<Item>, n: nat, key: Key, x: string)
    requires n <= |items| && Replay(cfg, items).Ok? && DistinctIds(items)
    ensures var s := After(cfg, items, n);
            key in s.claims && s.claims[key].last == x <==> LatestIs(cfg, items, n, key, x)
    decreases n
  {
    if n == 0 {
      assert items[..0] == [];
    } else {
      hide Replay, After, AwaitEffect, OfferEffect, LatestIs, Names;
      LatestHistory(cfg, items, n - 1, key, x);
      StepEffect(cfg, items, n - 1, key, "");
      LatestGrows(cfg, items, n - 1, key, x);
    }
  }

  // ------------------------------------------------------------ accepted, unclaimed

  ghost predicate SuccessorAt(cfg: Config, items: seq<Item>, i: nat, a: string) {
    Applied(cfg, items, i, ClaimKind) && FieldOf(items[i], "predecessor_handoff_event") == Text(a)
  }

  /** Record i accepted a handoff, and no claim has succeeded it since. */
  ghost predicate WaitsAt(cfg: Config, items: seq<Item>, n: nat, i: nat, a: string) {
    && i < n && Applied(cfg, items, i, HandoffAccept) && Is(items, i, a)
    && forall j: nat :: i < j < n ==> !SuccessorAt(cfg, items, j, a)
  }

  ghost predicate WaitsBefore(cfg: Config, items: seq<Item>, n: nat, a: string) {
    exists i: nat :: WaitsAt(cfg, items, n, i, a)
  }

  ghost predicate IsAcceptanceOf(x: Acceptance, item: Item) {
    FieldOf(item, "claim_id") == Text(x.claim) && item.receipt.sequence == x.sequence
  }

  ghost predicate AwaitRead(cfg: Config, items: seq<Item>, n: nat, s: State, a: string)
    requires n <= |items|
  {
    && (a in s.awaiting <==> WaitsBefore(cfg, items, n, a))
    && (a in s.awaiting ==>
          forall i: nat :: i < n && Is(items, i, a) ==> IsAcceptanceOf(s.awaiting[a], items[i]))
  }

  lemma WaitsGrows(cfg: Config, items: seq<Item>, n: nat, a: string)
    requires n < |items| && DistinctIds(items)
    ensures WaitsBefore(cfg, items, n + 1, a) <==>
            if Applied(cfg, items, n, HandoffAccept) && Is(items, n, a) then true
            else WaitsBefore(cfg, items, n, a) && !SuccessorAt(cfg, items, n, a)
  {
    hide SuccessorAt;
    if Applied(cfg, items, n, HandoffAccept) && Is(items, n, a) {
      assert WaitsAt(cfg, items, n + 1, n, a);
    } else {
      if WaitsBefore(cfg, items, n + 1, a) {
        var i: nat :| WaitsAt(cfg, items, n + 1, i, a);
        assert WaitsAt(cfg, items, n, i, a);
      }
      if WaitsBefore(cfg, items, n, a) && !SuccessorAt(cfg, items, n, a) {
        var i: nat :| WaitsAt(cfg, items, n, i, a);
        assert WaitsAt(cfg, items, n + 1, i, a);
      }
    }
  }

  lemma AwaitReadGrows(cfg: Config, items: seq<Item>, n: nat, s: State, s': State, a: string)
    requires n < |items| && DistinctIds(items) && AwaitRead(cfg, items, n, s, a) && items[n].event.id.Text?
    requires if items[n].receipt.sequence <= cfg.highWater
             then AwaitEffect(s, s', items[n].event, items[n].receipt.sequence, items[n].event.id.text, a)
             else s'.awaiting == s.awaiting
    ensures AwaitRead(cfg, items, n + 1, s', a)
  {
    hide Get;
    WaitsGrows(cfg, items, n, a);
    if WaitsBefore(cfg, items, n, a) {
      var i: nat :| WaitsAt(cfg, items, n, i, a);
      assert !Is(items, n, a);
    }
    hide WaitsBefore;
  }

  /** What awaits a successor are the acceptances that no later claim succeeded. */
  lemma {:induction false} AwaitHistory(cfg: Config, items: seq<Item>, n: nat, a: string)
    requires n <= |items| && Replay(cfg, items).Ok? && DistinctIds(items)
    ensures AwaitRead(cfg, items, n, After(cfg, items, n), a)
    decreases n
  {
    if n == 0 {
      assert items[..0] == [];
    } else {
      hide Replay, After, ClaimEffect, OfferEffect, AwaitEffect, AwaitRead;
      AwaitHistory(cfg, items, n - 1, a);
      StepEffect(cfg, items, n - 1, ("", ""), a);
      AwaitReadGrows(cfg, items, n - 1, After(cfg, items, n - 1), After(cfg, items, n), a);
    }
  }

  // --------------------------------------------------- events, sequences and works

  lemma FrameOfApply(cfg: Config, s: State, e: Event, r: Receipt, id: string)
    requires Apply(cfg, s, e, r, id).Ok?
    ensures var s' := Apply(cfg, s, e, r, id).value;
            && s'.events == s.events && s'.sequences == s.sequences
            && s'.works == if WorkKind(e.kind) && e.work.Some? then s.works + {e.work.value.uri} else s.works
  {
    if WorkKind(e.kind) && e.work.Some? {
      var s1, work := s.(works := s.works + {e.work.value.uri}), e.work.value.uri;
      hide ApplyClaim, ApplyLifecycle, ApplyAccept, Get;
      match e.kind {
        case ClaimKind => FrameOfClaim(s1, e, r.sequence, work, id);
        case Progress => FrameOfLifecycle(s1, e, r.sequence, work, id);
        case Release => FrameOfLifecycle(s1, e, r.sequence, work, id);
        case HandoffOffer => FrameOfLifecycle(s1, e, r.sequence, work, id);
        case HandoffAccept => FrameOfAccept(s1, e, r, id);
        case _ =>
      }
    }
  }

  ghost predicate SameRecords(s: State, s': State) {
    s'.events == s.events && s'.sequences == s.sequences && s'.works == s.works
  }

  lemma FrameOfClaim(s: State, e: Event, sequence: int, work: string, id: string)
    requires ApplyClaim(s, e, sequence, work, id).Ok?
    ensures SameRecords(s, ApplyClaim(s, e, sequence, work, id).value)
  {
    hide Get, Active;
  }

  lemma FrameOfLifecycle(s: State, e: Event, sequence: int, work: string, id: string)
    requires ApplyLifecycle(s, e, sequence, work, id).Ok?
    ensures SameRecords(s, ApplyLifecycle(s, e, sequence, work, id).value)
  {
    hide Get, Active, UpdateTrigger;
    var named := ClaimFor(s, e.data, work).value;
    var s1 := s.(claims := s.claims[named := s.claims[named].(active := false, last := id, offers := {})]);
    UpdateTriggerFrame(s1, work, sequence);
    if !e.kind.Progress? && !e.kind.Release? { OfferAdds(s, e, named, id); }
    hide ApplyOffer;
  }

  lemma FrameOfAccept(s: State, e: Event, r: Receipt, id: string)
    requires ApplyAccept(s, e, r, id).Ok?
    ensures SameRecords(s, ApplyAccept(s, e, r, id).value)
  {
    hide Get, MayAccept, Accepted;
  }

  /** The record is within the high water. */
  ghost predicate Counts(cfg: Config, items: seq<Item>, i: nat) {
    i < |items| && items[i].receipt.sequence <= cfg.highWater
  }

  ghost predicate Concerns(cfg: Config, items: seq<Item>, i: nat, work: string) {
    && Counts(cfg, items, i) && WorkKind(items[i].event.kind)
    && items[i].event.work.Some? && items[i].event.work.value.uri == work
  }

  ghost predicate SeenBefore(cfg: Config, items: seq<Item>, n: nat, x: string) {
    exists i: nat :: i < n && Counts(cfg, items, i) && Is(items, i, x)
  }

  ghost predicate SequenceBefore(cfg: Config, items: seq<Item>, n: nat, q: int) {
    exists i: nat :: i < n && Counts(cfg, items, i) && items[i].receipt.sequence == q
  }

  ghost predicate ConcernedBefore(cfg: Config, items: seq<Item>, n: nat, work: string) {
    exists i: nat :: i < n && Concerns(cfg, items, i, work)
  }

  lemma SeenGrows(cfg: Config, items: seq<Item>, n: nat, x: string, q: int, work: string)
    requires n < |items|
    ensures SeenBefore(cfg, items, n + 1, x) <==>
            SeenBefore(cfg, items, n, x) || (Counts(cfg, items, n) && Is(items, n, x))
    ensures SequenceBefore(cfg, items, n + 1, q) <==>
            SequenceBefore(cfg, items, n, q) || (Counts(cfg, items, n) && items[n].receipt.sequence == q)
    ensures ConcernedBefore(cfg, items, n + 1, work) <==>
            ConcernedBefore(cfg, items, n, work) || Concerns(cfg, items, n, work)
  {
    hide Is, Concerns;
    if SeenBefore(cfg, items, n + 1, x) {
      var i: nat :| i < n + 1 && Counts(cfg, items, i) && Is(items, i, x);
      assert i < n || i == n;
    }
    if SequenceBefore(cfg, items, n + 1, q) {
      var i: nat :| i < n + 1 && Counts(cfg, items, i) && items[i].receipt.sequence == q;
      assert i < n || i == n;
    }
    if ConcernedBefore(cfg, items, n + 1, work) {
      var i: nat :| i < n + 1 && Concerns(cfg, items, i, work);
      assert i < n || i == n;
    }
  }

  ghost predicate RecordRead(cfg: Config, items: seq<Item>, n: nat, s: State, x: string, q: int, work: string)
    requires n <= |items|
  {
    && (x in s.events <==> SeenBefore(cfg, items, n, x))
    && (x in s.events ==> forall i: nat :: i < n && Is(items, i, x) ==> s.events[x] == items[i].event)
    && (q in s.sequences <==> SequenceBefore(cfg, items, n, q))
    && (work in s.works <==> ConcernedBefore(cfg, items, n, work))
  }

  lemma RecordReadGrows(cfg: Config, items: seq<Item>, n: nat, s: State, s': State, x: string, q: int, work: string)
    requires n < |items| && DistinctIds(items) && RecordRead(cfg, items, n, s, x, q, work)
    requires items[n].event.id.Text?
    requires var e, r := items[n].event, items[n].receipt;
             if r.sequence > cfg.highWater then SameRecords(s, s') else
               && s'.events == s.events[e.id.text := e] && s'.sequences == s.sequences[r.sequence := e.id.text]
               && s'.works == if WorkKind(e.kind) && e.work.Some? then s.works + {e.work.value.uri} else s.works
    ensures RecordRead(cfg, items, n + 1, s', x, q, work)
  {
    SeenGrows(cfg, items, n, x, q, work);
    if SeenBefore(cfg, items, n, x) {
      var i: nat :| i < n && Counts(cfg, items, i) && Is(items, i, x);
      assert !Is(items, n, x);
    }
    hide SeenBefore, SequenceBefore, ConcernedBefore;
  }

  /** Events, sequences and works are those of the records within the high water. */
  lemma {:induction false} RecordHistory(cfg: Config, items: seq<Item>, n: nat, x: string, q: int, work: string)
    requires n <= |items| && Replay(cfg, items).Ok? && DistinctIds(items)
    ensures RecordRead(cfg, items, n, After(cfg, items, n), x, q, work)
    decreases n
  {
    if n == 0 {
      assert items[..0] == [];
    } else {
      AfterStep(cfg, items, n - 1);
      hide Replay, After, Apply, CheckBinding, RecordRead;
      RecordHistory(cfg, items, n - 1, x, q, work);
      var s, e, r := After(cfg, items, n - 1), items[n - 1].event, items[n - 1].receipt;
      if r.sequence <= cfg.highWater {
        var s1 := s.(events := s.events[e.id.text := e], sequences := s.sequences[r.sequence := e.id.text]);
        FrameOfApply(cfg, s1, e, r, e.id.text);
      }
      RecordReadGrows(cfg, items, n - 1, s, After(cfg, items, n), x, q, work);
    }
  }
}
