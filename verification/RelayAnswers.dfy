/**
 What the answers of internal/relay/jetstream/operations.go mean.  The reducer's checks are
 said over the records and channels of the transcripts alone, and every decision and
 failure of a call over the reducer and those records.
 */
module RelayAnswers {
  import opened Options
  import opened RelayStore
  import opened RelayReducer
  import opened RelayLog
  import opened RelayProtocol

  // ------------------------------------------------------- what a state holds

  /** A record of some epoch of this channel with this event ID. */
  ghost predicate HasEvent(s: Tenant, id: Identity, eventID: string, r: AcceptedRecord) {
    InTranscript(s, r) && IdentityOf(r.channel) == id && r.eventID == eventID
  }

  ghost predicate HasReceipt(s: Tenant, receiptID: string, r: AcceptedRecord) {
    InTranscript(s, r) && r.receiptID == receiptID
  }

  ghost predicate EventKnown(s: Tenant, id: Identity, eventID: string) {
    exists r :: HasEvent(s, id, eventID, r)
  }

  ghost predicate ReceiptKnown(s: Tenant, receiptID: string) {
    exists r :: HasReceipt(s, receiptID, r)
  }

  /** The event index holds exactly the events of the transcripts. */
  lemma EventIndex(s: Tenant, id: Identity, eventID: string)
    requires Agree(s)
    ensures id in s.events && eventID in s.events[id] <==> EventKnown(s, id, eventID)
    ensures forall r :: HasEvent(s, id, eventID, r) <==>
              id in s.events && eventID in s.events[id] && s.events[id][eventID] == r
  {
    hide ChannelsAgree, ReceiptsAgree;
    if id in s.events && eventID in s.events[id] { assert HasEvent(s, id, eventID, s.events[id][eventID]); }
    forall r | HasEvent(s, id, eventID, r)
      ensures id in s.events && eventID in s.events[id] && s.events[id][eventID] == r
    {
      TranscriptIsIndexed(s, r);
    }
  }

  /** The receipt index holds exactly the receipts of the transcripts. */
  lemma ReceiptIndex(s: Tenant, receiptID: string)
    requires Agree(s)
    ensures receiptID in s.receipts <==> ReceiptKnown(s, receiptID)
    ensures forall r :: HasReceipt(s, receiptID, r) <==> receiptID in s.receipts && s.receipts[receiptID] == r
  {
    hide ChannelsAgree, EventsAgree;
    if receiptID in s.receipts { assert HasReceipt(s, receiptID, s.receipts[receiptID]); }
    forall r | HasReceipt(s, receiptID, r) ensures receiptID in s.receipts && s.receipts[receiptID] == r {
      TranscriptIsIndexed(s, r);
    }
  }

  // ------------------------------------------------------------------- URIs

  /** The URI index names the channels that have a transcript, and a URI belongs to one channel. */
  ghost predicate UrisAgree(s: Tenant) {
    && (forall id :: id in s.uris ==> exists k :: k in s.transcripts && IdentityOf(k) == id)
    && (forall k, l :: k in s.transcripts && l in s.transcripts ==> SameUri(s, k, l))
  }

  ghost predicate SameUri(s: Tenant, k: ChannelKey, l: ChannelKey)
    requires k in s.transcripts && l in s.transcripts
  {
    s.transcripts[k].channel.uri == s.transcripts[l].channel.uri <==> k.channelID == l.channelID
  }

  lemma ChannelKeepsNames(s: Tenant, b: Body)
    requires b.ChannelCreated? && UrisAgree(s) && ApplyChannel(s, b).Ok?
    ensures var t := ApplyChannel(s, b).tenant;
            forall id :: id in t.uris ==> exists k :: k in t.transcripts && IdentityOf(k) == id
  {
    hide ValidChannel, UriTaken, SameUri;
    var t, channel := ApplyChannel(s, b).tenant, ChannelOf(s.tenantID, b);
    forall id | id in t.uris ensures exists k :: k in t.transcripts && IdentityOf(k) == id {
      if id == IdentityOf(channel.key) {
        assert channel.key in t.transcripts;
      } else {
        var k :| k in s.transcripts && IdentityOf(k) == id;
        assert k in t.transcripts;
      }
    }
  }

  lemma ChannelKeepsUris(s: Tenant, b: Body)
    requires b.ChannelCreated? && ChannelsAgree(s) && UrisAgree(s) && ApplyChannel(s, b).Ok?
    ensures UrisAgree(ApplyChannel(s, b).tenant)
  {
    hide ValidChannel;
    ChannelKeepsNames(s, b);
    var t := ApplyChannel(s, b).tenant;
    forall k, l | k in t.transcripts && l in t.transcripts ensures SameUri(t, k, l) {
      if k in s.transcripts && l in s.transcripts { assert SameUri(s, k, l); }
    }
  }

  lemma RecordKeepsUris(s: Tenant, record: AcceptedRecord, records: seq<AcceptedRecord>)
    requires UrisAgree(s) && record.channel in s.transcripts && IdentityOf(record.channel) in s.events
    ensures UrisAgree(Stored(s, record, records))
  {
    var t := Stored(s, record, records);
    assert t.transcripts.Keys == s.transcripts.Keys;
    forall k, l | k in t.transcripts && l in t.transcripts ensures SameUri(t, k, l) { assert SameUri(s, k, l); }
    forall id | id in t.uris ensures exists k :: k in t.transcripts && IdentityOf(k) == id {
      var k :| k in s.transcripts && IdentityOf(k) == id;
      assert k in t.transcripts;
    }
  }

  lemma ApplyKeepsUris(env: Env, s: Tenant, revision: nat, cmd: Command)
    requires Agree(s) && UrisAgree(s) && Apply(env, s, revision, cmd).Ok?
    ensures UrisAgree(Apply(env, s, revision, cmd).tenant)
  {
    hide Dispatch, Agree;
    DispatchKeepsUris(env, s, cmd.body);
    var t := Dispatch(env, s, cmd.body).tenant;
    forall k, l | k in t.transcripts && l in t.transcripts ensures SameUri(t.(revision := revision), k, l) {
      assert SameUri(t, k, l);
    }
  }

  lemma DispatchKeepsUris(env: Env, s: Tenant, b: Body)
    requires Agree(s) && UrisAgree(s) && Dispatch(env, s, b).Ok?
    ensures UrisAgree(Dispatch(env, s, b).tenant)
  {
    hide UrisAgree, RecordsAgree, EventsAgree, ReceiptsAgree, ValidPreparedRecord, Stored, ApplyChannel;
    match b {
      case ChannelCreated(_, _, _, _, _, _) => ChannelKeepsUris(s, b);
      case RecordAppended(_, _, _, _, _, _, _, _, _, _, _, _) =>
        var r := RecordOf(s.tenantID, b);
        RecordKeepsUris(s, r, s.transcripts[r.channel].records + [r]);
      case SignatureAttached(_, _, _, _, _) =>
        var r := s.receipts[b.receiptID];
        var signed := r.(signature := b.signature);
        RecordKeepsUris(s, signed, s.transcripts[r.channel].records[r.sequence - 1 := signed]);
    }
  }

  lemma {:induction false} ReplayKeepsUris(env: Env, tenantID: string, log: seq<Entry>)
    requires Replay(env, tenantID, log).Ok?
    ensures UrisAgree(Replay(env, tenantID, log).tenant)
    decreases |log|
  {
    if log != [] {
      hide Apply, Agree, UrisAgree;
      var prefix := log[..|log| - 1];
      ReplayKeepsUris(env, tenantID, prefix);
      ReplayAgrees(env, tenantID, prefix);
      ApplyKeepsUris(env, Replay(env, tenantID, prefix).tenant, log[|log| - 1].revision, log[|log| - 1].cmd);
    }
  }

  /** In every replayed state, transcripts have the same URI exactly if they are epochs of one channel. */
  lemma UrisNameChannels(env: Env, tenantID: string, log: seq<Entry>, k: ChannelKey, l: ChannelKey)
    requires Replay(env, tenantID, log).Ok?
    requires k in Replay(env, tenantID, log).tenant.transcripts && l in Replay(env, tenantID, log).tenant.transcripts
    ensures var ts := Replay(env, tenantID, log).tenant.transcripts;
            ts[k].channel.uri == ts[l].channel.uri <==> IdentityOf(k) == IdentityOf(l)
  {
    ReplayKeepsUris(env, tenantID, log);
    ReplayAgrees(env, tenantID, log);
    assert SameUri(Replay(env, tenantID, log).tenant, k, l);
  }

  // -------------------------------------------------- what the reducer accepts

  /** What every command must meet. */
  predicate InOrder(env: Env, s: Tenant, revision: nat, cmd: Command) {
    cmd.tenantID != "" && cmd.tenantID == s.tenantID && s.revision < revision && env.fits(cmd)
  }

  /** A creation is accepted exactly if it is well formed, new, and neither its channel has another URI nor its
      URI another channel. */
  lemma CreateAppliesExactly(env: Env, s: Tenant, revision: nat, cmd: Command)
    requires cmd.body.ChannelCreated? && Agree(s) && UrisAgree(s)
    ensures var c := ChannelOf(s.tenantID, cmd.body);
            Apply(env, s, revision, cmd).Ok? <==>
            && InOrder(env, s, revision, cmd)
            && c.key.channelID != "" && c.key.epoch != "" && c.uri != "" && c.metadata != [] && c.metadataDigest != ""
            && c.lifecycle == "active" && c.key !in s.transcripts
            && forall k :: k in s.transcripts ==>
                 (s.transcripts[k].channel.uri == c.uri <==> k.channelID == c.key.channelID)
  {
    hide RecordsAgree, EventsAgree, ReceiptsAgree;
    var c := ChannelOf(s.tenantID, cmd.body);
    var id := IdentityOf(c.key);
    if id in s.uris && s.uris[id] != c.uri {
      var k :| k in s.transcripts && IdentityOf(k) == id;
      assert s.transcripts[k].channel.uri != c.uri && k.channelID == c.key.channelID;
    }
    assert forall k :: k in s.transcripts && k.channelID == c.key.channelID ==>
        IdentityOf(k) == id && s.uris[id] == s.transcripts[k].channel.uri;
  }

  /** An append is accepted exactly if its record comes next in a known channel, is complete, and brings an event
      and a receipt that no record of the tenant has. */
  lemma AppendAppliesExactly(env: Env, s: Tenant, revision: nat, cmd: Command)
    requires cmd.body.RecordAppended? && Agree(s)
    ensures var r := RecordOf(s.tenantID, cmd.body);
            Apply(env, s, revision, cmd).Ok? <==>
            && InOrder(env, s, revision, cmd)
            && r.channel in s.transcripts
            && r.sequence == |s.transcripts[r.channel].records| + 1 <= 9_007_199_254_740_991
            && r.eventDigest == env.digest(r.event) && r.receiptID != "" && r.signingKeyID != "" && r.algorithm != ""
            && r.authenticated != [] && r.authorization != [] && r.preimage != []
            && !EventKnown(s, IdentityOf(r.channel), r.eventID) && !ReceiptKnown(s, r.receiptID)
  {
    hide Agree, EventKnown, ReceiptKnown, HasEvent, HasReceipt;
    var r := RecordOf(s.tenantID, cmd.body);
    EventIndex(s, IdentityOf(r.channel), r.eventID);
    ReceiptIndex(s, r.receiptID);
    AgreeingSignature(env, s, cmd.body);
  }

  /** A signature is accepted exactly for an unsigned record of the named channel with the named preimage. */
  lemma AttachAppliesExactly(env: Env, s: Tenant, revision: nat, cmd: Command)
    requires cmd.body.SignatureAttached? && Agree(s)
    ensures var key := ChannelKey(s.tenantID, cmd.body.channelID, cmd.body.epoch);
            Apply(env, s, revision, cmd).Ok? <==>
            && InOrder(env, s, revision, cmd) && cmd.body.signature != []
            && exists r ::
                 && HasReceipt(s, cmd.body.receiptID, r) && r.channel == key
                 && r.signature == [] && env.digest(r.preimage) == cmd.body.preimageDigest
  {
    hide Agree, HasReceipt;
    AgreeingSignature(env, s, cmd.body);
    var n := cmd.body.receiptID;
    ReceiptIndex(s, n);
    assert n in s.receipts ==> HasReceipt(s, n, s.receipts[n]);
  }

  // ---------------------------------------------------- what a call is answered

  /** The same deployment without the size limit on commands. */
  function Unlimited(env: Env): Env {
    env.(fits := _ => true)
  }

  /** A creation publishes exactly what the reducer accepts.  It succeeds at once if the channel is there already,
      conflicts if no size would make the reducer accept it, and is too large otherwise. */
  lemma CreateDecidesExactly(env: Env, s: Tenant, c: Channel, revision: nat)
    requires Agree(s) && ValidChannel(c) && c.key.tenantID == s.tenantID && s.revision < revision
    ensures var cmd := CreateCommand(c);
            && cmd.tenantID == s.tenantID && cmd.body.ChannelCreated? && ChannelOf(s.tenantID, cmd.body) == c
            && Decide(env, s, CreateCall(c)) ==
               if c.key in s.transcripts && s.transcripts[c.key].channel == c then Return(Created)
               else if !Apply(Unlimited(env), s, revision, cmd).Ok? then Return(Failed(ChannelConflict))
               else if !Apply(env, s, revision, cmd).Ok? then Return(Failed(ResourceLimit))
               else Publish(cmd, Created)
  {
    hide RecordsAgree, EventsAgree, ReceiptsAgree;
  }

  /** The record is for this intent and not signed yet. */
  predicate Answers(intent: AppendIntent, r: AcceptedRecord) {
    r.channel == intent.channel && r.eventID == intent.eventID && r.event == intent.event && r.signature == []
  }

  /** The channel is known and no record of it has the event. */
  ghost predicate Fresh(s: Tenant, intent: AppendIntent) {
    intent.channel in s.transcripts && !EventKnown(s, IdentityOf(intent.channel), intent.eventID)
  }

  /** What preparation is asked for and gives on this state. */
  function Prepared(env: Env, s: Tenant, call: Call): Option<AcceptedRecord>
    requires call.AppendCall? && call.intent.channel in s.transcripts
  {
    call.prepare(|s.transcripts[call.intent.channel].records| + 1, env.digest(call.intent.event))
  }

  /** An append of an event the channel does not have is admitted, prepared and published exactly if the reducer
      accepts the prepared record; each failure names the step that refused it. */
  lemma FreshAppendDecidesExactly(env: Env, s: Tenant, call: Call, revision: nat)
    requires Agree(s) && call.AppendCall? && call.intent.channel.tenantID == s.tenantID != ""
    requires s.revision < revision && Fresh(s, call.intent)
    ensures var d, prepared := Decide(env, s, call), Prepared(env, s, call);
            if !call.admit(AdmissionView(s, call.intent.channel)) then d == Return(Failed(NotAdmitted))
            else if prepared.None? then d == Return(Failed(PrepareFailed))
            else
              var r, cmd := prepared.value, AppendCommand(prepared.value);
              && cmd.body.RecordAppended?
              && (Answers(call.intent, r) ==> RecordOf(s.tenantID, cmd.body) == r)
              && d == if !Answers(call.intent, r) || !Apply(Unlimited(env), s, revision, cmd).Ok?
                      then Return(Failed(InvalidArgument))
                      else if !Apply(env, s, revision, cmd).Ok? then Return(Failed(ResourceLimit))
                      else Publish(cmd, Appended(r))
  {
    hide Agree, EventKnown;
    EventIndex(s, IdentityOf(call.intent.channel), call.intent.eventID);
    if Prepared(env, s, call).Some? { AgreeingSignature(env, s, AppendCommand(Prepared(env, s, call).value).body); }
  }

  /** Otherwise the channel is unknown, the very event is there, or another one has its ID. */
  lemma OtherAppendDecidesExactly(env: Env, s: Tenant, call: Call, r: AcceptedRecord)
    requires Agree(s) && call.AppendCall? && !Fresh(s, call.intent)
    ensures var d, key := Decide(env, s, call), call.intent.channel;
            && (d == Return(Failed(ChannelNotFound)) <==> key !in s.transcripts)
            && (key in s.transcripts && HasEvent(s, IdentityOf(key), call.intent.eventID, r) ==>
                  d == if r.channel == key && r.event == call.intent.event then Return(Duplicate(r))
                       else Return(Failed(EventIDCollision)))
  {
    hide Agree, EventKnown;
    EventIndex(s, IdentityOf(call.intent.channel), call.intent.eventID);
  }

  /** A receipt the channel does not have is not found.  A record it has answers at once if it carries this
      signature, collides if it has another preimage or signature, and gets the signature otherwise. */
  lemma AttachDecidesExactly(env: Env, s: Tenant, a: SignatureAttachment, r: AcceptedRecord, revision: nat)
    requires Agree(s) && ValidAttachment(a) && a.channel.tenantID == s.tenantID && s.revision < revision
    ensures var d, cmd := Decide(env, s, AttachCall(a)), AttachCommand(env, a);
            && (d == Return(Failed(ReceiptNotFound)) <==>
                  !exists x :: HasReceipt(s, a.receiptID, x) && x.channel == a.channel)
            && (HasReceipt(s, a.receiptID, r) && r.channel == a.channel ==>
                  if r.preimage == a.preimage && r.signature == a.signature then d == Return(Attached(r))
                  else if r.preimage != a.preimage || r.signature != [] then d == Return(Failed(SignatureCollision))
                  else && Apply(Unlimited(env), s, revision, cmd).Ok?
                       && d == if !Apply(env, s, revision, cmd).Ok? then Return(Failed(ResourceLimit))
                               else Publish(cmd, Attached(r.(signature := a.signature))))
  {
    hide Agree, HasReceipt;
    ReceiptIndex(s, a.receiptID);
    AgreeingSignature(env, s, AttachCommand(env, a).body);
    AgreeingSignature(Unlimited(env), s, AttachCommand(env, a).body);
    assert a.receiptID in s.receipts ==> HasReceipt(s, a.receiptID, s.receipts[a.receiptID]);
  }

  // ------------------------------------------------------ failures of whole runs

  ghost predicate Sends(sent: set<Message>, c: nat, attempt: nat) {
    exists m :: m in sent && m.caller == c && m.attempt == attempt
  }

  /** Attempts 0 to n - 1 of this call have each published. */
  ghost predicate Published(sent: set<Message>, c: nat, n: nat) {
    forall k: nat :: k < n ==> Sends(sent, c, k)
  }

  /** The state after the first n commits makes the call fail with this error. */
  ghost predicate FailedOn(su: Setup, log: seq<Commit>, c: nat, error: Error, n: nat) {
    && n <= |log| && StateAt(su, log[..n]).Ok?
    && Decide(su.env, StateAt(su, log[..n]).tenant, su.calls(c)) == Return(Failed(error))
  }

  predicate NoKey(key: ChannelKey) {
    key.tenantID == "" || key.channelID == "" || key.epoch == ""
  }

  /** The call lacks something it must bring. */
  predicate Malformed(call: Call) {
    NoKey(KeyOf(call)) ||
    match call
    case CreateCall(c) => c.uri == "" || c.metadata == [] || c.metadataDigest == "" || c.lifecycle != "active"
    case AppendCall(intent, _, _) => intent.eventID == "" || intent.event == []
    case AttachCall(a) => a.receiptID == "" || a.preimage == [] || a.signature == []
  }

  lemma MalformedExactly(call: Call)
    ensures Malformed(call) <==> !ValidCall(call)
  {}

  ghost predicate Explained(su: Setup, w: World, c: nat, error: Error) {
    || (error == InvalidArgument && Malformed(su.calls(c)))
    || error == Cancelled
    || (error == CommitIndeterminate && Published(w.sent, c, 64))
    || exists n: nat :: FailedOn(su, w.log, c, error, n)
  }

  ghost predicate CallExplained(su: Setup, w: World, c: nat, p: Progress) {
    match p
    case Loading(attempt) => attempt < 64 && Published(w.sent, c, attempt)
    case Deciding(attempt, _, _) => attempt < 64 && Published(w.sent, c, attempt)
    case Sent(m, _) => m.caller == c && m.attempt < 64 && Published(w.sent, c, m.attempt + 1)
    case Finished(outcome) => outcome.Failed? ==> Explained(su, w, c, outcome.error)
  }

  ghost predicate AllExplained(su: Setup, w: World) {
    forall c :: c in w.calls ==> CallExplained(su, w, c, w.calls[c])
  }

  lemma PublishedGrows(sent: set<Message>, sent': set<Message>, c: nat, n: nat)
    requires Published(sent, c, n) && sent <= sent'
    ensures Published(sent', c, n)
  {
    forall k: nat | k < n ensures Sends(sent', c, k) {
      assert Sends(sent, c, k);
      var m :| m in sent && m.caller == c && m.attempt == k;
      assert m in sent';
    }
  }

  /** Explanations outlive every step: it only sends more and commits more. */
  lemma ExplanationStays(su: Setup, w: World, w': World, c: nat, p: Progress)
    requires CallExplained(su, w, c, p) && w.sent <= w'.sent && w.log <= w'.log
    ensures CallExplained(su, w', c, p)
  {
    hide StateAt, Decide, ValidCall, Published;
    forall n: nat | Published(w.sent, c, n) ensures Published(w'.sent, c, n) {
      PublishedGrows(w.sent, w'.sent, c, n);
    }
    if p.Finished? && p.outcome.Failed? {
      if n: nat :| FailedOn(su, w.log, c, p.outcome.error, n) {
        assert w'.log[..n] == w.log[..n];
        assert FailedOn(su, w'.log, c, p.outcome.error, n);
      }
    }
  }

  /** A step of call c, or of no call, that explains c explains all. */
  lemma StepExplains(su: Setup, w: World, w': World, c: nat)
    requires AllExplained(su, w) && w.sent <= w'.sent && w.log <= w'.log
    requires c in w'.calls ==> CallExplained(su, w', c, w'.calls[c])
    requires forall d :: d in w'.calls && d != c ==> d in w.calls && w'.calls[d] == w.calls[d]
    ensures AllExplained(su, w')
  {
    hide CallExplained;
    forall d | d in w'.calls ensures CallExplained(su, w', d, w'.calls[d]) {
      if d != c { ExplanationStays(su, w, w', d, w.calls[d]); }
    }
  }

  lemma DeliveryExplains(su: Setup, w: World, w': World)
    requires AllExplained(su, w) && w.sent <= w'.sent && w.log <= w'.log && w'.calls == w.calls
    ensures AllExplained(su, w')
  {
    hide CallExplained;
    forall d | d in w'.calls ensures CallExplained(su, w', d, w'.calls[d]) {
      ExplanationStays(su, w, w', d, w.calls[d]);
    }
  }

  lemma DecideExplains(su: Setup, w: World, w': World, c: nat)
    requires Inv(su, w) && AllExplained(su, w) && DecideStep(su, w, w', c)
    ensures CallExplained(su, w', c, w'.calls[c])
  {
    hide StateAt, Decide, ValidCall, LogInv, Justified, JustifiedMessage, True, Published;
    var p := w.calls[c];
    assert CallInv(su, w.log, c, p) && CallExplained(su, w, c, p);
    match Decide(su.env, p.snapshot, su.calls(c))
    case Return(outcome) =>
      if outcome.Failed? { assert FailedOn(su, w'.log, c, outcome.error, p.at); }
    case Publish(cmd, onCommit) =>
      OneMore(w.sent, Message(c, p.attempt, p.at, p.snapshot.revision, cmd));
  }

  lemma OneMore(sent: set<Message>, m: Message)
    requires Published(sent, m.caller, m.attempt)
    ensures Published(sent + {m}, m.caller, m.attempt + 1)
  {
    PublishedGrows(sent, sent + {m}, m.caller, m.attempt);
    assert m in sent + {m};
  }

  lemma OtherStepExplains(su: Setup, w: World, w': World, c: nat)
    requires Inv(su, w) && AllExplained(su, w)
    requires Start(su, w, w', c) || LoadStep(su, w, w', c) || AckStep(w, w', c) || ErrorStep(w, w', c)
    ensures CallExplained(su, w', c, w'.calls[c])
  {
    hide StateAt, Decide, ValidCall, LogInv, Justified, JustifiedMessage, True, Published, FailedOn, Malformed;
    MalformedExactly(su.calls(c));
    LogInvIsOk(su, w.log);
    if c in w.calls {
      assert CallExplained(su, w, c, w.calls[c]);
      assert w.calls[c].Sent? ==> !w.calls[c].onCommit.Failed? by {
        assert CallInv(su, w.log, c, w.calls[c]);
        if w.calls[c].Sent? { SentWillSucceed(su, w.log, w.calls[c].message, w.calls[c].onCommit); }
      }
    }
    assert Published(w.sent, c, 0) by { NothingPublished(w.sent, c); }
  }

  lemma NothingPublished(sent: set<Message>, c: nat)
    ensures Published(sent, c, 0)
  {}

  lemma SentWillSucceed(su: Setup, log: seq<Commit>, m: Message, onCommit: Outcome)
    requires Justified(su, log, m, onCommit)
    ensures !onCommit.Failed?
  {
    hide StateAt, ValidCall;
  }

  lemma NextExplains(su: Setup, w: World, w': World)
    requires Inv(su, w) && AllExplained(su, w) && Next(su, w, w')
    ensures AllExplained(su, w')
  {
    hide Inv, AllExplained, CallExplained, StateAt, Decide, ValidCall;
    if c :| DecideStep(su, w, w', c) {
      DecideExplains(su, w, w', c);
      StepExplains(su, w, w', c);
    } else if m, revision :| DeliverStep(w, w', m, revision) {
      DeliveryExplains(su, w, w');
    } else {
      var c :| Start(su, w, w', c) || LoadStep(su, w, w', c) || AckStep(w, w', c) || ErrorStep(w, w', c);
      OtherStepExplains(su, w, w', c);
      StepExplains(su, w, w', c);
    }
  }

  lemma NothingToExplain(su: Setup, w: World)
    requires Init(w)
    ensures AllExplained(su, w)
  {}

  lemma {:induction false} RunIsExplained(su: Setup, run: seq<World>, i: nat)
    requires IsRun(su, run) && i < |run|
    ensures AllExplained(su, run[i])
  {
    hide Inv, Next, AllExplained, Init;
    if i == 0 {
      NothingToExplain(su, run[0]);
    } else {
      RunIsExplained(su, run, i - 1);
      RunKeepsInv(su, run, i - 1);
      assert Next(su, run[i - 1], run[i - 1 + 1]);
      NextExplains(su, run[i - 1], run[i]);
    }
  }

  /** In every run, a call that fails was malformed, was cancelled, published 64 times without an answer, or was
      refused on a state the log had.  Loading never fails. */
  lemma FailuresAreExplained(su: Setup, run: seq<World>, i: nat, c: nat)
    requires IsRun(su, run) && i < |run| && c in run[i].calls && run[i].calls[c].Finished?
    requires run[i].calls[c].outcome.Failed?
    ensures Explained(su, run[i], c, run[i].calls[c].outcome.error)
  {
    RunIsExplained(su, run, i);
    assert CallExplained(su, run[i], c, run[i].calls[c]);
  }
}
