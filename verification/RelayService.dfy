/**
 internal/relay/service/append.go: the append use case above the store.  A service
 request looks the event up, appends it, has it signed and attaches the signature,
 while every other request and store call runs concurrently on the same log.
 */
module RelayService {
  import opened Options
  import opened RelayStore
  import opened RelayReducer
  import opened RelayLog
  import opened RelayProtocol
  import opened RelayAnswers

  /** A request: its intent, and the signer's answer for a record (None: signing fails). */
  datatype Request = Request(intent: AppendIntent, sign: AcceptedRecord -> Option<Bytes>)

  datatype Phase =
    | Looking
    | Selecting
    | Appending(call: nat)
    | Signing(record: AcceptedRecord)
    | Attaching(record: AcceptedRecord, call: nat)
    | Succeeded(record: AcceptedRecord)
    | Refused

  datatype System = System(world: World, requests: map<nat, Phase>)

  datatype Front = Front(su: Setup, asked: nat -> Request)

  ghost predicate SystemInit(x: System) {
    Init(x.world) && x.requests == map[]
  }

  /** ensureSigned: a record that already carries a signature is returned as it is. */
  function EnsureSigned(record: AcceptedRecord): Phase {
    if |record.signature| > 0 then Succeeded(record) else Signing(record)
  }

  /** Lookup on the current log: an exact duplicate goes on to signing, a different event is refused. */
  function AfterLookup(s: Tenant, intent: AppendIntent): Phase {
    if intent.channel !in s.transcripts then Refused
    else match LookupRecord(s, intent.channel, intent.eventID)
      case None => Selecting
      case Some(existing) =>
        if existing.channel != intent.channel || existing.event != intent.event then Refused else EnsureSigned(existing)
  }

  function AttachmentFor(record: AcceptedRecord, signature: Bytes): SignatureAttachment {
    SignatureAttachment(record.channel, record.receiptID, record.preimage, signature)
  }

  ghost predicate Arrive(f: Front, x: System, x': System, q: nat) {
    && q !in x.requests
    && x' == x.(requests := x.requests[q := if ValidIntent(f.asked(q).intent) then Looking else Refused])
  }

  ghost predicate LookStep(f: Front, x: System, x': System, q: nat) {
    && q in x.requests && x.requests[q].Looking?
    && var loaded := StateAt(f.su, x.world.log);
       var next := if loaded.Ok? then AfterLookup(loaded.tenant, f.asked(q).intent) else Refused;
       x' == x.(requests := x.requests[q := next])
  }

  /** No signing key can be selected. */
  ghost predicate UnselectedStep(f: Front, x: System, x': System, q: nat) {
    && q in x.requests && x.requests[q].Selecting?
    && x' == x.(requests := x.requests[q := Refused])
  }

  /** A key was selected: the store append of this intent starts as call c. */
  ghost predicate AppendStep(f: Front, x: System, x': System, q: nat, c: nat) {
    && q in x.requests && x.requests[q].Selecting?
    && f.su.calls(c).AppendCall? && f.su.calls(c).intent == f.asked(q).intent
    && Start(f.su, x.world, x'.world, c) && x'.requests == x.requests[q := Appending(c)]
  }

  ghost predicate AppendedStep(f: Front, x: System, x': System, q: nat) {
    && q in x.requests && x.requests[q].Appending?
    && x.requests[q].call in x.world.calls && x.world.calls[x.requests[q].call].Finished?
    && var outcome := x.world.calls[x.requests[q].call].outcome;
       var next := if outcome.Appended? || outcome.Duplicate? then EnsureSigned(outcome.record) else Refused;
       x' == x.(requests := x.requests[q := next])
  }

  /** Sign, then start the attachment as call c. */
  ghost predicate AttachStep(f: Front, x: System, x': System, q: nat, c: nat) {
    && q in x.requests && x.requests[q].Signing?
    && var record := x.requests[q].record;
       match f.asked(q).sign(record)
       case None => x' == x.(requests := x.requests[q := Refused])
       case Some(signature) =>
         && f.su.calls(c) == AttachCall(AttachmentFor(record, signature))
         && Start(f.su, x.world, x'.world, c) && x'.requests == x.requests[q := Attaching(record, c)]
  }

  ghost predicate AttachedStep(f: Front, x: System, x': System, q: nat) {
    && q in x.requests && x.requests[q].Attaching?
    && x.requests[q].call in x.world.calls && x.world.calls[x.requests[q].call].Finished?
    && var outcome := x.world.calls[x.requests[q].call].outcome;
       x' == x.(requests := x.requests[q := if outcome.Attached? then Succeeded(outcome.record) else Refused])
  }

  ghost predicate StoreStep(f: Front, x: System, x': System) {
    Next(f.su, x.world, x'.world) && x'.requests == x.requests
  }

  ghost predicate SystemNext(f: Front, x: System, x': System) {
    || (exists q ::
          || Arrive(f, x, x', q) || LookStep(f, x, x', q) || UnselectedStep(f, x, x', q)
          || AppendedStep(f, x, x', q) || AttachedStep(f, x, x', q))
    || (exists q, c :: AppendStep(f, x, x', q, c) || AttachStep(f, x, x', q, c))
    || StoreStep(f, x, x')
  }

  // ------------------------------------------------------------- invariant

  /** The record is the committed one for this request. */
  ghost predicate IsCommitted(s: Tenant, q: Request, r: AcceptedRecord) {
    Held(s, r) && r.channel == q.intent.channel && r.eventID == q.intent.eventID && r.event == q.intent.event
  }

  ghost predicate PhaseInv(f: Front, x: System, q: nat, p: Phase) {
    && StateAt(f.su, x.world.log).Ok?
    && var s := StateAt(f.su, x.world.log).tenant;
       match p
       case Looking => true
       case Selecting => true
       case Appending(c) => f.su.calls(c).AppendCall? && f.su.calls(c).intent == f.asked(q).intent
       case Signing(r) => IsCommitted(s, f.asked(q), r)
       case Attaching(r, c) =>
         && IsCommitted(s, f.asked(q), r)
         && f.su.calls(c).AttachCall?
         && f.su.calls(c).attachment == AttachmentFor(r, f.su.calls(c).attachment.signature)
       case Succeeded(r) => IsCommitted(s, f.asked(q), r) && r.signature != []
       case Refused => true
  }

  ghost predicate SystemInv(f: Front, x: System) {
    && Inv(f.su, x.world)
    && forall q :: q in x.requests ==> PhaseInv(f, x, q, x.requests[q])
  }

  lemma StoreStepKeepsState(su: Setup, w: World, w': World, r: AcceptedRecord)
    requires Inv(su, w) && Inv(su, w') && Next(su, w, w')
    ensures StateAt(su, w.log).Ok? && StateAt(su, w'.log).Ok?
    ensures Held(StateAt(su, w.log).tenant, r) ==> Held(StateAt(su, w'.log).tenant, r)
  {
    hide Held, Apply, Decide, CallInv, JustifiedMessage;
    if w'.log != w.log && Held(StateAt(su, w.log).tenant, r) {
      assert w'.log[..|w.log|] == w.log;
      EntriesPrefix(w'.log, |w.log|);
      HeldForever(su.env, su.tenantID, Entries(w'.log), |w.log|, r);
    }
  }

  lemma StoreStepKeepsInv(f: Front, x: System, x': System)
    requires SystemInv(f, x) && StoreStep(f, x, x')
    ensures SystemInv(f, x')
  {
    NextKeepsInv(f.su, x.world, x'.world);
    hide Inv, Next, StateAt, Held;
    forall q | q in x'.requests ensures PhaseInv(f, x', q, x'.requests[q]) {
      var p := x.requests[q];
      assert PhaseInv(f, x, q, p);
      var r := if p.Signing? || p.Attaching? || p.Succeeded? then p.record
               else AcceptedRecord(ChannelKey("", "", ""), 0, "", [], "", [], [], "", "", "", [], []);
      StoreStepKeepsState(f.su, x.world, x'.world, r);
    }
  }

  /** PhaseInv looks only at the log. */
  lemma OtherRequests(f: Front, x: System, x': System, q: nat)
    requires SystemInv(f, x) && x'.world.log == x.world.log && q in x'.requests
    requires forall k :: k in x'.requests && k != q ==> k in x.requests && x'.requests[k] == x.requests[k]
    requires PhaseInv(f, x', q, x'.requests[q])
    ensures forall k :: k in x'.requests ==> PhaseInv(f, x', k, x'.requests[k])
  {
    hide Inv, StateAt, IsCommitted;
    forall k | k in x'.requests && k != q ensures PhaseInv(f, x', k, x'.requests[k]) {
      assert PhaseInv(f, x, k, x.requests[k]);
    }
  }

  /** A started store call leaves log and records alone. */
  lemma CallStartKeepsInv(f: Front, x: System, x': System, q: nat, c: nat)
    requires SystemInv(f, x) && (AppendStep(f, x, x', q, c) || AttachStep(f, x, x', q, c))
    ensures SystemInv(f, x')
  {
    hide Inv, StateAt, IsCommitted;
    assert PhaseInv(f, x, q, x.requests[q]);
    if x'.world != x.world { NextKeepsInv(f.su, x.world, x'.world); }
    assert PhaseInv(f, x', q, x'.requests[q]);
    OtherRequests(f, x, x', q);
  }

  /** What a lookup finds is the committed record of the request. */
  lemma LookupIsCommitted(s: Tenant, q: Request)
    requires Agree(s)
    ensures match AfterLookup(s, q.intent)
            case Signing(r) => IsCommitted(s, q, r)
            case Succeeded(r) => IsCommitted(s, q, r) && r.signature != []
            case Looking => false
            case Appending(_) => false
            case Attaching(_, _) => false
            case _ => true
  {
    hide Agree, LookupRecord, InTranscript, Held;
    if q.intent.channel in s.transcripts { LookupFindsTranscript(s, q.intent.channel, q.intent.eventID); }
  }

  lemma StateAgrees(su: Setup, w: World)
    requires Inv(su, w)
    ensures StateAt(su, w.log).Ok? && Agree(StateAt(su, w.log).tenant)
  {
    hide Agree, CallInv, JustifiedMessage, Replay;
    ReplayAgrees(su.env, su.tenantID, Entries(w.log));
  }

  lemma LookKeepsInv(f: Front, x: System, x': System, q: nat)
    requires SystemInv(f, x) && LookStep(f, x, x', q)
    ensures SystemInv(f, x')
  {
    hide Agree, Inv, StateAt, IsCommitted, AfterLookup;
    assert PhaseInv(f, x, q, x.requests[q]);
    var s := StateAt(f.su, x.world.log).tenant;
    StateAgrees(f.su, x.world);
    LookupIsCommitted(s, f.asked(q));
    assert PhaseInv(f, x', q, x'.requests[q]);
    OtherRequests(f, x, x', q);
  }

  lemma FinishedIsTrue(su: Setup, w: World, c: nat)
    requires Inv(su, w) && c in w.calls && w.calls[c].Finished?
    ensures StateAt(su, w.log).Ok? && True(StateAt(su, w.log).tenant, su.calls(c), w.calls[c].outcome)
  {
    hide LogInv, StateAt, True;
    assert CallInv(su, w.log, c, w.calls[c]);
  }

  lemma ArriveKeepsInv(f: Front, x: System, x': System, q: nat)
    requires SystemInv(f, x) && Arrive(f, x, x', q)
    ensures SystemInv(f, x')
  {
    hide LogInv, CallInv, JustifiedMessage, StateAt, IsCommitted;
    LogInvIsOk(f.su, x.world.log);
    OtherRequests(f, x, x', q);
  }

  lemma UnselectedKeepsInv(f: Front, x: System, x': System, q: nat)
    requires SystemInv(f, x) && UnselectedStep(f, x, x', q)
    ensures SystemInv(f, x')
  {
    hide LogInv, CallInv, JustifiedMessage, StateAt, IsCommitted;
    assert PhaseInv(f, x, q, x.requests[q]);
    OtherRequests(f, x, x', q);
  }

  lemma AppendedKeepsInv(f: Front, x: System, x': System, q: nat)
    requires SystemInv(f, x) && AppendedStep(f, x, x', q)
    ensures SystemInv(f, x')
  {
    hide Inv, StateAt, Held;
    assert PhaseInv(f, x, q, x.requests[q]);
    FinishedIsTrue(f.su, x.world, x.requests[q].call);
    OtherRequests(f, x, x', q);
  }

  lemma AttachedKeepsInv(f: Front, x: System, x': System, q: nat)
    requires SystemInv(f, x) && AttachedStep(f, x, x', q)
    ensures SystemInv(f, x')
  {
    hide Inv, StateAt, Held;
    var p := x.requests[q];
    assert PhaseInv(f, x, q, p);
    FinishedIsTrue(f.su, x.world, p.call);
    if x.world.calls[p.call].outcome.Attached? {
      SameReceiptSameRecord(StateAt(f.su, x.world.log).tenant, p.record, x.world.calls[p.call].outcome.record);
    }
    OtherRequests(f, x, x', q);
  }

  /** Two records held under one receipt ID agree in everything but a signature. */
  lemma SameReceiptSameRecord(s: Tenant, a: AcceptedRecord, b: AcceptedRecord)
    requires Held(s, a) && Held(s, b) && a.receiptID == b.receiptID
    ensures a.channel == b.channel && a.eventID == b.eventID && a.event == b.event
  {
    var stored := s.receipts[a.receiptID].(signature := []);
    assert stored == a.(signature := []) && stored == b.(signature := []);
  }

  lemma SystemNextKeepsInv(f: Front, x: System, x': System)
    requires SystemInv(f, x) && SystemNext(f, x, x')
    ensures SystemInv(f, x')
  {
    hide SystemInv, Arrive, LookStep, UnselectedStep, AppendedStep, AttachedStep, AppendStep, AttachStep, StoreStep;
    if StoreStep(f, x, x') {
      StoreStepKeepsInv(f, x, x');
    } else if q, c :| AppendStep(f, x, x', q, c) || AttachStep(f, x, x', q, c) {
      CallStartKeepsInv(f, x, x', q, c);
    } else {
      var q :| || Arrive(f, x, x', q) || LookStep(f, x, x', q) || UnselectedStep(f, x, x', q)
               || AppendedStep(f, x, x', q) || AttachedStep(f, x, x', q);
      if Arrive(f, x, x', q) {
        ArriveKeepsInv(f, x, x', q);
      } else if LookStep(f, x, x', q) {
        LookKeepsInv(f, x, x', q);
      } else if UnselectedStep(f, x, x', q) {
        UnselectedKeepsInv(f, x, x', q);
      } else if AppendedStep(f, x, x', q) {
        AppendedKeepsInv(f, x, x', q);
      } else {
        AttachedKeepsInv(f, x, x', q);
      }
    }
  }

  ghost predicate IsSystemRun(f: Front, run: seq<System>) {
    && |run| > 0 && SystemInit(run[0])
    && forall i :: 0 <= i < |run| - 1 ==> SystemNext(f, run[i], run[i + 1])
  }

  lemma {:induction false} SystemRunKeepsInv(f: Front, run: seq<System>, i: nat)
    requires IsSystemRun(f, run) && i < |run|
    ensures SystemInv(f, run[i])
  {
    if i == 0 {
      assert Entries(run[0].world.log) == [];
    } else {
      SystemRunKeepsInv(f, run, i - 1);
      assert SystemNext(f, run[i - 1], run[i - 1 + 1]);
      SystemNextKeepsInv(f, run[i - 1], run[i]);
    }
  }

  /** Append succeeds only when the log holds the request's own event with the returned signature. */
  lemma SuccessIsDurablySigned(f: Front, run: seq<System>, i: nat, q: nat)
    requires IsSystemRun(f, run) && i < |run| && q in run[i].requests && run[i].requests[q].Succeeded?
    ensures StateAt(f.su, run[i].world.log).Ok?
    ensures var r, s := run[i].requests[q].record, StateAt(f.su, run[i].world.log).tenant;
            && r.receiptID in s.receipts && s.receipts[r.receiptID] == r && r.signature != []
            && r.channel == f.asked(q).intent.channel && r.eventID == f.asked(q).intent.eventID
            && r.event == f.asked(q).intent.event
  {
    SystemRunKeepsInv(f, run, i);
    assert PhaseInv(f, run[i], q, run[i].requests[q]);
    var r, s := run[i].requests[q].record, StateAt(f.su, run[i].world.log).tenant;
    var receipt := s.receipts[r.receiptID];
    assert receipt == receipt.(signature := []).(signature := receipt.signature);
  }

  // ---------------------------------------------------------------- refusals

  ghost predicate InChannel(s: Tenant, intent: AppendIntent, r: AcceptedRecord) {
    InTranscript(s, r) && r.channel == intent.channel && r.eventID == intent.eventID
  }

  /** Lookup sends a request on exactly by what the channel's transcript holds under its event ID. */
  lemma LookupAnswersExactly(s: Tenant, intent: AppendIntent, r: AcceptedRecord)
    requires Agree(s)
    ensures var p := AfterLookup(s, intent);
            && (p == Refused <==> || intent.channel !in s.transcripts
                                  || exists x :: InChannel(s, intent, x) && x.event != intent.event)
            && (p == Selecting <==> intent.channel in s.transcripts && !exists x :: InChannel(s, intent, x))
            && (p == Signing(r) <==> InChannel(s, intent, r) && r.event == intent.event && r.signature == [])
            && (p == Succeeded(r) <==> InChannel(s, intent, r) && r.event == intent.event && r.signature != [])
  {
    var id := IdentityOf(intent.channel);
    EventIndex(s, id, intent.eventID);
    hide Agree, InTranscript;
    forall x ensures InChannel(s, intent, x) <==>
        HasEvent(s, id, intent.eventID, x) && x.channel == intent.channel {}
    var found := LookupRecord(s, intent.channel, intent.eventID);
    assert found.Some? ==> InChannel(s, intent, found.value);
    assert InChannel(s, intent, r) ==> r.channel in s.transcripts by { InTranscriptIsKnown(s, r); }
  }

  lemma InTranscriptIsKnown(s: Tenant, r: AcceptedRecord)
    ensures InTranscript(s, r) ==> r.channel in s.transcripts
  {}

  ghost predicate CallFailed(w: World, c: nat) {
    c in w.calls && w.calls[c].Finished? && w.calls[c].outcome.Failed?
  }

  /** Why a request is refused: its intent, the transcript, the signer, or a failure of the store call it made. */
  ghost predicate RefusedFor(f: Front, x: System, q: nat)
    requires StateAt(f.su, x.world.log).Ok?
  {
    var intent, s := f.asked(q).intent, StateAt(f.su, x.world.log).tenant;
    || !ValidIntent(intent)
    || (q in x.requests && x.requests[q].Looking?
        && (intent.channel !in s.transcripts || exists r :: InChannel(s, intent, r) && r.event != intent.event))
    || (q in x.requests && x.requests[q].Selecting?)
    || (q in x.requests && x.requests[q].Signing? && f.asked(q).sign(x.requests[q].record).None?)
    || (q in x.requests && (x.requests[q].Appending? || x.requests[q].Attaching?)
        && CallFailed(x.world, x.requests[q].call))
  }

  /** A store call of a request that finished, failed or succeeded as the kind of call it is. */
  lemma FinishedKind(f: Front, x: System, q: nat)
    requires SystemInv(f, x) && q in x.requests && (x.requests[q].Appending? || x.requests[q].Attaching?)
    requires x.requests[q].call in x.world.calls && x.world.calls[x.requests[q].call].Finished?
    ensures var outcome := x.world.calls[x.requests[q].call].outcome;
            && (x.requests[q].Appending? ==> outcome.Appended? || outcome.Duplicate? || outcome.Failed?)
            && (x.requests[q].Attaching? ==> outcome.Attached? || outcome.Failed?)
  {
    assert PhaseInv(f, x, q, x.requests[q]);
    FinishedIsTrue(f.su, x.world, x.requests[q].call);
    hide Inv, StateAt;
  }

  /** A request is refused only for one of these reasons. */
  lemma RefusalsAreExplained(f: Front, x: System, x': System, q: nat)
    requires SystemInv(f, x) && SystemNext(f, x, x') && q in x'.requests && x'.requests[q].Refused?
    requires q in x.requests ==> !x.requests[q].Refused?
    ensures StateAt(f.su, x.world.log).Ok? && RefusedFor(f, x, q)
  {
    hide Inv, PhaseInv, Agree, StateAt, AfterLookup, Start, Next, ValidIntent, InChannel, EnsureSigned;
    StateAgrees(f.su, x.world);
    EnsureSignedGoesOn();
    if StoreStep(f, x, x') || Arrive(f, x, x', q) {
    } else if LookStep(f, x, x', q) {
      LookupRefuses(StateAt(f.su, x.world.log).tenant, f.asked(q).intent);
    } else if AppendedStep(f, x, x', q) || AttachedStep(f, x, x', q) {
      FinishedKind(f, x, q);
    }
  }

  lemma EnsureSignedGoesOn()
    ensures forall r :: EnsureSigned(r) != Refused
  {}

  lemma LookupRefuses(s: Tenant, intent: AppendIntent)
    requires Agree(s)
    ensures AfterLookup(s, intent) == Refused ==>
              intent.channel !in s.transcripts || exists r :: InChannel(s, intent, r) && r.event != intent.event
  {
    var r: AcceptedRecord :| true;
    LookupAnswersExactly(s, intent, r);
  }
}
