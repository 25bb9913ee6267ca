/**
 What the replay engine answers, said over the records it replayed: the state, contenders,
 offers and diagnostics of a work, the reasons of a report, and which record is refused why.
 */
module ProjectionAnswers {
  import opened Projection
  import opened ProjectionInvariant
  import opened ProjectionEngine
  import opened ProjectionHistory

  // -------------------------------------------------------------- one projection

  /** A record of the first n claimed the key for this work, and none released it. */
  ghost predicate Contends(cfg: Config, items: seq<Item>, n: nat, key: Key, work: string) {
    && !ReleasedBefore(cfg, items, n, key)
    && exists i: nat :: i < n && ClaimAt(cfg, items, i, key) && Concerns(cfg, items, i, work)
  }

  ghost predicate EverClaimed(cfg: Config, items: seq<Item>, n: nat, work: string) {
    exists i: nat, key :: i < n && ClaimAt(cfg, items, i, key) && Concerns(cfg, items, i, work)
  }

  lemma KnownWork(cfg: Config, items: seq<Item>, n: nat, key: Key, work: string)
    requires n <= |items| && Replay(cfg, items).Ok? && DistinctIds(items)
    ensures var s := After(cfg, items, n);
            && (key in s.claims && s.claims[key].work == work <==>
                  exists i: nat :: i < n && ClaimAt(cfg, items, i, key) && Concerns(cfg, items, i, work))
            && (key in Active(s.claims, work) <==> Contends(cfg, items, n, key, work))
  {
    ClaimHistory(cfg, items, n, key);
    hide Replay, After, Names, ReleasedBefore;
    var s := After(cfg, items, n);
    if key in s.claims {
      var i: nat :| i < n && ClaimAt(cfg, items, i, key);
      assert s.claims[key].work == work ==> Concerns(cfg, items, i, work);
    }
  }

  /** The contenders of a work are the unreleased claims on it, with the events that made them. */
  ghost predicate ContendersFit(cfg: Config, items: seq<Item>, n: nat, work: string, contenders: map<Key, string>)
    requires n <= |items|
  {
    && (forall key :: key in contenders <==> Contends(cfg, items, n, key, work))
    && (forall key, i: nat :: key in contenders && i < n && ClaimAt(cfg, items, i, key) ==>
          items[i].event.id == Text(contenders[key]))
  }

  /** The offers are those made on the claim and not closed since, with the handoffs they name. */
  ghost predicate OffersFit(cfg: Config, items: seq<Item>, n: nat, key: Key, offers: map<string, string>)
    requires n <= |items|
  {
    && (forall o :: o in offers <==> OpenBefore(cfg, items, n, key, o))
    && (forall o, m: nat :: o in offers && OpenAt(cfg, items, n, m, key) && Is(items, m, o) ==>
          FieldOf(items[m], "handoff_id") == Text(offers[o]))
  }

  /** What a projection says of contenders and offers; with several contenders no offer is shown. */
  ghost predicate Shows(cfg: Config, items: seq<Item>, n: nat, work: string, p: Projection)
    requires n <= |items|
  {
    && ContendersFit(cfg, items, n, work, p.contenders)
    && if |p.contenders| == 1 then forall key :: key in p.contenders ==> OffersFit(cfg, items, n, key, p.offers)
       else p.offers == map[]
  }

  /** The five states of a work. */
  ghost predicate StateFits(cfg: Config, items: seq<Item>, n: nat, work: string, p: Projection) {
    && (p.state == Conflicting <==> |p.contenders| > 1)
    && (p.state == HandoffOffered <==> |p.contenders| == 1 && p.offers != map[])
    && (p.state == Claimed <==> |p.contenders| == 1 && p.offers == map[])
    && (p.state == Released <==> |p.contenders| == 0 && EverClaimed(cfg, items, n, work))
    && (p.state == Unclaimed <==> !EverClaimed(cfg, items, n, work))
  }

  /** The parts of a projection, against the engine's state. */
  lemma ProjectParts(cfg: Config, s: State, reasons: set<Reason>, work: string)
    requires Project(cfg, s, reasons, work).Ok?
    ensures var p, active := Project(cfg, s, reasons, work).value, Active(s.claims, work);
            && p.contenders.Keys == active && |p.contenders| == |active|
            && (forall key :: key in active ==> p.contenders[key] == s.claims[key].event)
            && p.offers == (if |active| == 1 then OpenOffers(s, active) else map[])
            && p.state == StateOf(s, work) && (p.final <==> reasons == {} && cfg.lifecycleActive)
  {
    var p := Project(cfg, s, reasons, work).value;
    assert |p.contenders| == |p.contenders.Keys|;
    hide OpenOffers, StateOf;
  }

  lemma ProjectDiagnostic(cfg: Config, s: State, reasons: set<Reason>, work: string, d: Diagnostic)
    requires Project(cfg, s, reasons, work).Ok?
    ensures var p := Project(cfg, s, reasons, work).value;
            d in p.diagnostics <==>
            match d
            case ClaimConflict(sequence, contenders) =>
              && |Active(s.claims, work)| > 1 && work in s.triggers && s.triggers[work] == sequence
              && contenders == p.contenders
            case AcceptedUnclaimed(sequence, event, claim) =>
              && event in s.awaiting && s.awaiting[event] == Acceptance(claim, sequence)
              && event in s.events && s.events[event].work.Some? && s.events[event].work.value.uri == work
            case IncompleteTranscript => reasons != {}
            case NonActiveTranscript => !cfg.lifecycleActive
  {
    hide OpenOffers, StateOf, Active;
  }

  lemma ContendersShown(cfg: Config, items: seq<Item>, n: nat, reasons: set<Reason>, work: string)
    requires n <= |items| && Replay(cfg, items).Ok? && DistinctIds(items)
    requires Project(cfg, After(cfg, items, n), reasons, work).Ok?
    ensures ContendersFit(cfg, items, n, work, Project(cfg, After(cfg, items, n), reasons, work).value.contenders)
  {
    hide Project, Replay, After, Contends, ReleasedBefore, StateOf, OpenOffers, ClaimAt, ClaimRead;
    var s := After(cfg, items, n);
    var contenders := Project(cfg, s, reasons, work).value.contenders;
    ProjectParts(cfg, s, reasons, work);
    forall key ensures key in contenders <==> Contends(cfg, items, n, key, work) {
      KnownWork(cfg, items, n, key, work);
    }
    forall key, i: nat | key in contenders && i < n && ClaimAt(cfg, items, i, key)
      ensures items[i].event.id == Text(contenders[key])
    {
      ClaimHistory(cfg, items, n, key);
      ClaimEventRead(cfg, items, n, s, key, i);
    }
  }

  lemma ClaimEventRead(cfg: Config, items: seq<Item>, n: nat, s: State, key: Key, i: nat)
    requires i < n <= |items| && ClaimRead(cfg, items, n, s, key) && key in s.claims && ClaimAt(cfg, items, i, key)
    ensures items[i].event.id == Text(s.claims[key].event)
  {
    hide ClaimAt, ReleasedBefore;
  }

  lemma OffersShown(cfg: Config, items: seq<Item>, n: nat, key: Key, o: string)
    requires n <= |items| && Replay(cfg, items).Ok? && DistinctIds(items)
    requires key in After(cfg, items, n).claims
    ensures var s := After(cfg, items, n);
            && (o in s.offers && o in s.claims[key].offers <==> OpenBefore(cfg, items, n, key, o))
            && (forall m: nat :: OpenAt(cfg, items, n, m, key) && Is(items, m, o) ==>
                  o in s.offers && FieldOf(items[m], "handoff_id") == Text(s.offers[o].handoff))
  {
    OfferHistory(cfg, items, n, key, o);
    forall m: nat | OpenAt(cfg, items, n, m, key) && Is(items, m, o)
      ensures o in After(cfg, items, n).offers
      ensures FieldOf(items[m], "handoff_id") == Text(After(cfg, items, n).offers[o].handoff)
    {
      OfferIsRead(cfg, items, n, m, o);
    }
    hide Replay, After, Names, OpenAt;
  }

  /** The offers of the one active claim. */
  lemma OneClaimOffers(s: State, active: set<Key>, key: Key)
    requires active == {key} && key in s.claims
    ensures forall o :: o in OpenOffers(s, active) <==> o in s.offers && o in s.claims[key].offers
    ensures forall o :: o in OpenOffers(s, active) ==> OpenOffers(s, active)[o] == s.offers[o].handoff
  {}

  lemma OneClaimShown(cfg: Config, items: seq<Item>, n: nat, key: Key)
    requires n <= |items| && Replay(cfg, items).Ok? && DistinctIds(items)
    requires key in After(cfg, items, n).claims
    ensures OffersFit(cfg, items, n, key, OpenOffers(After(cfg, items, n), {key}))
  {
    var s := After(cfg, items, n);
    hide Replay, After, OpenOffers, OpenAt, OpenBefore;
    var offers := OpenOffers(s, {key});
    OneClaimOffers(s, {key}, key);
    forall o ensures o in offers <==> OpenBefore(cfg, items, n, key, o) { OffersShown(cfg, items, n, key, o); }
    forall o, m: nat | o in offers && OpenAt(cfg, items, n, m, key) && Is(items, m, o)
      ensures FieldOf(items[m], "handoff_id") == Text(offers[o]) { OffersShown(cfg, items, n, key, o); }
  }

  lemma ProjectionShows(cfg: Config, items: seq<Item>, n: nat, reasons: set<Reason>, work: string)
    requires n <= |items| && Replay(cfg, items).Ok? && DistinctIds(items)
    requires Project(cfg, After(cfg, items, n), reasons, work).Ok?
    ensures Shows(cfg, items, n, work, Project(cfg, After(cfg, items, n), reasons, work).value)
  {
    hide Project, Replay, After, ContendersFit, OffersFit, OpenOffers, StateOf;
    var s := After(cfg, items, n);
    var p, active := Project(cfg, s, reasons, work).value, Active(s.claims, work);
    ContendersShown(cfg, items, n, reasons, work);
    ProjectParts(cfg, s, reasons, work);
    if |p.contenders| == 1 {
      forall key | key in p.contenders ensures OffersFit(cfg, items, n, key, p.offers) {
        OneElement(active, key);
        OneClaimShown(cfg, items, n, key);
      }
    }
  }

  lemma OneElement<T>(s: set<T>, x: T)
    requires |s| == 1 && x in s
    ensures s == {x}
  {
    assert |s - {x}| == 0;
    assert s == (s - {x}) + {x};
  }

  /** The state of a work is what its contenders, its offers and its records say. */
  lemma StateShown(cfg: Config, items: seq<Item>, n: nat, reasons: set<Reason>, work: string)
    requires n <= |items| && Replay(cfg, items).Ok? && DistinctIds(items)
    requires Project(cfg, After(cfg, items, n), reasons, work).Ok?
    ensures StateFits(cfg, items, n, work, Project(cfg, After(cfg, items, n), reasons, work).value)
  {
    hide Project, Replay, After, OpenOffers;
    var s := After(cfg, items, n);
    var p, active := Project(cfg, s, reasons, work).value, Active(s.claims, work);
    ProjectParts(cfg, s, reasons, work);
    EverClaimedShown(cfg, items, n, work);
    if |active| > 0 { var key :| key in active; assert s.claims[key].work == work; }
    hide Active, EverClaimed;
  }

  lemma EverClaimedShown(cfg: Config, items: seq<Item>, n: nat, work: string)
    requires n <= |items| && Replay(cfg, items).Ok? && DistinctIds(items)
    ensures (exists k :: k in After(cfg, items, n).claims && After(cfg, items, n).claims[k].work == work) <==>
            EverClaimed(cfg, items, n, work)
  {
    var s := After(cfg, items, n);
    hide Replay, After, ClaimAt, Concerns;
    forall key
      ensures key in s.claims && s.claims[key].work == work <==>
              exists i: nat :: i < n && ClaimAt(cfg, items, i, key) && Concerns(cfg, items, i, work)
    {
      KnownWork(cfg, items, n, key, work);
    }
    if EverClaimed(cfg, items, n, work) {
      var i: nat, key :| i < n && ClaimAt(cfg, items, i, key) && Concerns(cfg, items, i, work);
      assert key in s.claims && s.claims[key].work == work;
    }
  }

  // ----------------------------------------------------------------- diagnostics

  ghost predicate Warranted(cfg: Config, items: seq<Item>, n: nat, reasons: set<Reason>, work: string, p: Projection,
                            d: Diagnostic)
    requires n <= |items| && Replay(cfg, items).Ok?
  {
    match d
    case ClaimConflict(sequence, contenders) =>
      && |p.contenders| > 1 && contenders == p.contenders
      && exists k: nat :: BeganAt(cfg, items, k, n, work) && items[k].receipt.sequence == sequence
    case AcceptedUnclaimed(sequence, event, claim) =>
      exists i: nat ::
        && WaitsAt(cfg, items, n, i, event) && Concerns(cfg, items, i, work)
        && IsAcceptanceOf(Acceptance(claim, sequence), items[i])
    case IncompleteTranscript => reasons != {}
    case NonActiveTranscript => !cfg.lifecycleActive
  }

  lemma ConflictShown(cfg: Config, items: seq<Item>, n: nat, reasons: set<Reason>, work: string, d: Diagnostic)
    requires n <= |items| && Replay(cfg, items).Ok? && DistinctIds(items) && d.ClaimConflict?
    requires Project(cfg, After(cfg, items, n), reasons, work).Ok?
    ensures var p := Project(cfg, After(cfg, items, n), reasons, work).value;
            d in p.diagnostics <==> Warranted(cfg, items, n, reasons, work, p, d)
  {
    hide Project, Replay, After, Active, OpenOffers, StateOf;
    ProjectParts(cfg, After(cfg, items, n), reasons, work);
    ProjectDiagnostic(cfg, After(cfg, items, n), reasons, work, d);
    TriggerIsStart(cfg, items, n, work);
  }

  lemma UnclaimedShown(cfg: Config, items: seq<Item>, n: nat, reasons: set<Reason>, work: string, d: Diagnostic)
    requires n <= |items| && Replay(cfg, items).Ok? && DistinctIds(items) && d.AcceptedUnclaimed?
    requires Project(cfg, After(cfg, items, n), reasons, work).Ok?
    ensures var p := Project(cfg, After(cfg, items, n), reasons, work).value;
            d in p.diagnostics <==> Warranted(cfg, items, n, reasons, work, p, d)
  {
    hide Project, Replay, After, SuccessorAt, Active;
    var s, a := After(cfg, items, n), d.event;
    ProjectDiagnostic(cfg, s, reasons, work, d);
    AwaitHistory(cfg, items, n, a);
    RecordHistory(cfg, items, n, a, 0, work);
    if a in s.awaiting {
      var i: nat :| WaitsAt(cfg, items, n, i, a);
      assert s.events[a] == items[i].event;
    }
  }

  /** A work's projection is exactly what its records say of it. */
  lemma ProjectionExactly(cfg: Config, items: seq<Item>, n: nat, reasons: set<Reason>, work: string)
    requires n <= |items| && Replay(cfg, items).Ok? && DistinctIds(items)
    ensures Project(cfg, After(cfg, items, n), reasons, work).Ok?
    ensures var p := Project(cfg, After(cfg, items, n), reasons, work).value;
            && Shows(cfg, items, n, work, p) && StateFits(cfg, items, n, work, p)
            && (forall d :: d in p.diagnostics <==> Warranted(cfg, items, n, reasons, work, p, d))
            && (p.final <==> reasons == {} && cfg.lifecycleActive)
  {
    hide Project, Replay, After, Shows, StateFits, Active, OpenOffers, StateOf;
    ProjectNeverFails(cfg, items, n, reasons, work);
    ProjectionShows(cfg, items, n, reasons, work);
    StateShown(cfg, items, n, reasons, work);
    ProjectParts(cfg, After(cfg, items, n), reasons, work);
    var p := Project(cfg, After(cfg, items, n), reasons, work).value;
    forall d ensures d in p.diagnostics <==> Warranted(cfg, items, n, reasons, work, p, d) {
      if d.ClaimConflict? {
        ConflictShown(cfg, items, n, reasons, work, d);
      } else if d.AcceptedUnclaimed? {
        UnclaimedShown(cfg, items, n, reasons, work, d);
      } else {
        ProjectDiagnostic(cfg, After(cfg, items, n), reasons, work, d);
      }
    }
  }

  // -------------------------------------------------------------------- the report

  /** Why a report is incomplete, over the records themselves. */
  ghost predicate Incomplete(cfg: Config, records: seq<Record>, reason: Reason) {
    match reason
    case UnverifiedReceipt => exists r :: r in records && r.Record? && !r.verified
    case UnverifiedHighWater => !cfg.highWaterVerified
    case SequenceGap => cfg.origin != 1 || exists q :: 1 <= q <= cfg.highWater && !HasSequence(records, q)
    case RecordAfterHighWater => exists r :: r in records && r.Record? && cfg.highWater < r.receipt.sequence
    case NonActiveLifecycle => !cfg.lifecycleActive
  }

  /** The items replayed are the distinct records in the order of their sequences. */
  lemma ItemsAreRecords(records: seq<Record>)
    requires Consistent(records)
    ensures var items := Sort(Collect(records));
            && Increasing(items) && DistinctIds(items) && (forall x :: x in items <==> Holds(records, x))
            && (forall x :: x in items ==> 1 <= x.receipt.sequence)
  {
    CollectDistinct(records);
    SortSorts(Collect(records));
    ConsistentIds(records);
    var items := Sort(Collect(records));
    forall x ensures x in items <==> Holds(records, x) { CollectHolds(records, x); }
    forall x | x in items ensures 1 <= x.receipt.sequence {
      assert Holds(records, x);
      var r :| r in records && r.Record? && ItemOf(r) == x;
      assert Compatible(r, r);
    }
  }

  lemma SequencesShown(cfg: Config, records: seq<Record>, q: int)
    requires Consistent(records) && Replay(cfg, Sort(Collect(records))).Ok?
    ensures var s := Replay(cfg, Sort(Collect(records))).value;
            && (q in s.sequences <==> q <= cfg.highWater && HasSequence(records, q))
            && (q in s.sequences ==> 1 <= q)
  {
    var items := Sort(Collect(records));
    ItemsAreRecords(records);
    RecordHistory(cfg, items, |items|, "", q, "");
    assert items[..|items|] == items;
    hide Replay, Sort, Collect, Increasing, DistinctIds;
    if SequenceBefore(cfg, items, |items|, q) {
      var i: nat :| i < |items| && Counts(cfg, items, i) && items[i].receipt.sequence == q;
      assert items[i] in items && Holds(records, items[i]);
    }
    if q <= cfg.highWater && HasSequence(records, q) {
      var r :| r in records && r.Record? && r.receipt.sequence == q;
      assert Holds(records, ItemOf(r));
      var i: nat :| i < |items| && items[i] == ItemOf(r);
      assert Counts(cfg, items, i);
    }
  }

  lemma GapShown(cfg: Config, records: seq<Record>)
    requires Consistent(records) && Replay(cfg, Sort(Collect(records))).Ok?
    ensures Gapless(Replay(cfg, Sort(Collect(records))).value.sequences, cfg.highWater) <==>
            !exists q :: 1 <= q <= cfg.highWater && !HasSequence(records, q)
  {
    hide Replay, Sort, Collect, HasSequence, Consistent;
    var sequences := Replay(cfg, Sort(Collect(records))).value.sequences;
    forall q
      ensures q in sequences <==> q <= cfg.highWater && HasSequence(records, q)
      ensures q in sequences ==> 1 <= q
    {
      SequencesShown(cfg, records, q);
    }
  }

  lemma LateShown(cfg: Config, records: seq<Record>)
    requires Consistent(records)
    ensures (exists x :: x in Sort(Collect(records)) && x.receipt.sequence > cfg.highWater) <==>
            exists r :: r in records && r.Record? && cfg.highWater < r.receipt.sequence
  {
    hide Sort, Collect, Increasing, DistinctIds, Consistent;
    ItemsAreRecords(records);
    var items := Sort(Collect(records));
    if x :| x in items && x.receipt.sequence > cfg.highWater {
      assert Holds(records, x);
      var r :| r in records && r.Record? && ItemOf(r) == x;
    }
    if r :| r in records && r.Record? && cfg.highWater < r.receipt.sequence {
      assert Holds(records, ItemOf(r));
    }
  }

  lemma ReasonsShown(cfg: Config, records: seq<Record>, reason: Reason)
    requires Consistent(records) && Replay(cfg, Sort(Collect(records))).Ok?
    ensures var items := Sort(Collect(records));
            reason in ReasonsOf(cfg, Replay(cfg, items).value, items, AllVerified(records)) <==>
            Incomplete(cfg, records, reason)
  {
    hide Replay, Sort, Collect, HasSequence, Consistent, Gapless;
    GapShown(cfg, records);
    LateShown(cfg, records);
  }

  ghost predicate Fits(cfg: Config, items: seq<Item>, reasons: set<Reason>, work: string, p: Projection)
    requires Replay(cfg, items).Ok?
  {
    && Shows(cfg, items, |items|, work, p) && StateFits(cfg, items, |items|, work, p)
    && (forall d :: d in p.diagnostics <==> Warranted(cfg, items, |items|, reasons, work, p, d))
    && (p.final <==> reasons == {} && cfg.lifecycleActive)
  }

  /** A report covers exactly the works its records concern, says of each what its records say, and names exactly
      the reasons there are. */
  lemma ReportExactly(cfg: Config, records: seq<Record>)
    requires Outcome(cfg, records).Ok?
    ensures var items, report := Sort(Collect(records)), Outcome(cfg, records).value;
            && Consistent(records) && Replay(cfg, items).Ok?
            && (forall reason :: reason in report.reasons <==> Incomplete(cfg, records, reason))
            && (forall work :: work in report.projections <==> ConcernedBefore(cfg, items, |items|, work))
            && (forall work :: work in report.projections ==>
                  Fits(cfg, items, report.reasons, work, report.projections[work]))
  {
    hide Replay, Sort, Collect, Project, Consistent, Incomplete, Shows, StateFits, Warranted, Increasing, ReasonsOf;
    var items, report := Sort(Collect(records)), Outcome(cfg, records).value;
    ItemsAreRecords(records);
    assert items[..|items|] == items;
    forall reason ensures reason in report.reasons <==> Incomplete(cfg, records, reason) {
      ReasonsShown(cfg, records, reason);
    }
    forall work ensures work in report.projections <==> ConcernedBefore(cfg, items, |items|, work) {
      RecordHistory(cfg, items, |items|, "", 0, work);
    }
    forall work | work in report.projections
      ensures Fits(cfg, items, report.reasons, work, report.projections[work])
    {
      ProjectionExactly(cfg, items, |items|, report.reasons, work);
    }
  }
}
