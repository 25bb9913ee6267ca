/**
 internal/relay/jetstream/operations.go as a protocol: any number of CreateChannel,
 AppendChecked and AttachSignature calls share one tenant log.  Each attempt loads a
 snapshot, decides, and publishes with compare-and-swap on the revision it loaded.
 A message that has been sent may commit at any later time, more than once if the
 comparison lets it, or never; an error may be reported whether or not it commits.
 */
module RelayProtocol {
  import opened Interop
  import opened Options
  import opened RelayStore
  import opened RelayReducer
  import opened RelayLog

  const MAX_MUTATION_ATTEMPTS: nat := 64

  /** What an admission callback may consult. */
  datatype AdmissionView = AdmissionView(state: Tenant, key: ChannelKey)

  datatype Call =
    | CreateCall(channel: Channel)
    | AppendCall(intent: AppendIntent, admit: AdmissionView -> bool, prepare: (nat, string) -> Option<AcceptedRecord>)
    | AttachCall(attachment: SignatureAttachment)

  datatype Error =
    | InvalidArgument | ChannelNotFound | ChannelConflict | EventIDCollision | ReceiptNotFound | SignatureCollision
    | ResourceLimit | NotAdmitted | PrepareFailed | CommitIndeterminate | Unavailable | Cancelled

  datatype Outcome = Created | Appended(record: AcceptedRecord) | Duplicate(record: AcceptedRecord)
                   | Attached(record: AcceptedRecord) | Failed(error: Error)

  /** One attempt either ends the call or publishes a command whose commit would end it. */
  datatype Decision = Return(outcome: Outcome) | Publish(cmd: Command, onCommit: Outcome)

  function KeyOf(call: Call): ChannelKey {
    match call
    case CreateCall(channel) => channel.key
    case AppendCall(intent, _, _) => intent.channel
    case AttachCall(attachment) => attachment.channel
  }

  predicate ValidCall(call: Call) {
    match call
    case CreateCall(channel) => ValidChannel(channel)
    case AppendCall(intent, _, _) => ValidIntent(intent)
    case AttachCall(attachment) => ValidAttachment(attachment)
  }

  function CreateCommand(c: Channel): Command {
    var body := ChannelCreated(c.key.channelID, c.key.epoch, c.uri, c.metadata, c.metadataDigest, c.lifecycle);
    Command(c.key.tenantID, body)
  }

  function AppendCommand(r: AcceptedRecord): Command {
    var body := RecordAppended(r.channel.channelID, r.channel.epoch, r.sequence, r.eventID, r.event,
                               r.eventDigest, r.authenticated, r.authorization, r.receiptID, r.signingKeyID,
                               r.algorithm, r.preimage);
    Command(r.channel.tenantID, body)
  }

  function AttachCommand(env: Env, a: SignatureAttachment): Command {
    var body := SignatureAttached(a.channel.channelID, a.channel.epoch, a.receiptID, env.digest(a.preimage),
                                  a.signature);
    Command(a.channel.tenantID, body)
  }

  function Encoded(env: Env, cmd: Command, onCommit: Outcome): Decision {
    if env.fits(cmd) then Publish(cmd, onCommit) else Return(Failed(ResourceLimit))
  }

  function DecideCreate(env: Env, s: Tenant, c: Channel): Decision {
    var id := IdentityOf(c.key);
    if c.key in s.transcripts then
      if s.transcripts[c.key].channel == c then Return(Created) else Return(Failed(ChannelConflict))
    else if id in s.uris && s.uris[id] != c.uri then Return(Failed(ChannelConflict))
    else if exists k ::
              k in s.transcripts && s.transcripts[k].channel.uri == c.uri && k.channelID != c.key.channelID
    then
      Return(Failed(ChannelConflict))
    else
      Encoded(env, CreateCommand(c), Created)
  }

  function DecideAppend(env: Env, s: Tenant, intent: AppendIntent, admit: AdmissionView -> bool,
                        prepare: (nat, string) -> Option<AcceptedRecord>): Decision {
    var key := intent.channel;
    var id := IdentityOf(key);
    if key !in s.transcripts then Return(Failed(ChannelNotFound))
    else if id in s.events && intent.eventID in s.events[id] then
      var existing := s.events[id][intent.eventID];
      if existing.channel == key && existing.eventID == intent.eventID && existing.event == intent.event
      then Return(Duplicate(existing)) else Return(Failed(EventIDCollision))
    else if !admit(AdmissionView(s, key)) then Return(Failed(NotAdmitted))
    else
      var sequence := |s.transcripts[key].records| + 1;
      var prepared := prepare(sequence, env.digest(intent.event));
      if prepared.None? then Return(Failed(PrepareFailed))
      else
        var r := prepared.value;
        if !ValidPreparedRecord(intent, sequence, env.digest(intent.event), r) then Return(Failed(InvalidArgument))
        else if r.signature != [] || r.sequence > MAX_SAFE_INTEGER then Return(Failed(InvalidArgument))
        else if r.receiptID in s.receipts then Return(Failed(InvalidArgument))
        else
          Encoded(env, AppendCommand(r), Appended(r))
  }

  function DecideAttach(env: Env, s: Tenant, a: SignatureAttachment): Decision {
    if a.receiptID !in s.receipts || s.receipts[a.receiptID].channel != a.channel then Return(Failed(ReceiptNotFound))
    else
      var r := s.receipts[a.receiptID];
      if r.preimage != a.preimage then Return(Failed(SignatureCollision))
      else if r.signature != [] then
        if r.signature == a.signature then Return(Attached(r)) else Return(Failed(SignatureCollision))
      else
        Encoded(env, AttachCommand(env, a), Attached(r.(signature := a.signature)))
  }

  function Decide(env: Env, s: Tenant, call: Call): Decision {
    match call
    case CreateCall(channel) => DecideCreate(env, s, channel)
    case AppendCall(intent, admit, prepare) => DecideAppend(env, s, intent, admit, prepare)
    case AttachCall(attachment) => DecideAttach(env, s, attachment)
  }

  /** What an outcome says about the log it was decided on. */
  ghost predicate True(s: Tenant, call: Call, outcome: Outcome) {
    match outcome
    case Created =>
      && call.CreateCall? && call.channel.key in s.transcripts
      && s.transcripts[call.channel.key].channel == call.channel
    case Appended(r) => IsRecordOf(s, call, r)
    case Duplicate(r) => IsRecordOf(s, call, r)
    case Attached(r) =>
      && call.AttachCall? && Held(s, r) && r.receiptID == call.attachment.receiptID
      && r.channel == call.attachment.channel
      && r.preimage == call.attachment.preimage && r.signature == call.attachment.signature && r.signature != []
    case Failed(_) => true
  }

  ghost predicate IsRecordOf(s: Tenant, call: Call, r: AcceptedRecord) {
    && call.AppendCall? && Held(s, r)
    && r.channel == call.intent.channel && r.eventID == call.intent.eventID && r.event == call.intent.event
  }

  // ----------------------------------------------------------- one attempt

  /** A command decided on a state is accepted by the reducer on exactly that state, and makes the outcome true. */
  lemma PublishedIsAccepted(env: Env, s: Tenant, call: Call, revision: nat)
    requires Agree(s) && ValidCall(call) && KeyOf(call).tenantID == s.tenantID
    requires Decide(env, s, call).Publish? && revision > s.revision
    ensures var d := Decide(env, s, call);
            && Apply(env, s, revision, d.cmd).Ok?
            && True(Apply(env, s, revision, d.cmd).tenant, call, d.onCommit)
  {
    match call {
      case CreateCall(_) => CreateIsAccepted(env, s, call, revision);
      case AppendCall(_, _, _) => AppendIsAccepted(env, s, call, revision);
      case AttachCall(_) => AttachIsAccepted(env, s, call, revision);
    }
  }

  lemma CreateIsAccepted(env: Env, s: Tenant, call: Call, revision: nat)
    requires call.CreateCall? && ValidCall(call) && KeyOf(call).tenantID == s.tenantID
    requires Decide(env, s, call).Publish? && revision > s.revision
    ensures var d := Decide(env, s, call);
            Apply(env, s, revision, d.cmd).Ok? && True(Apply(env, s, revision, d.cmd).tenant, call, d.onCommit)
  {
    assert ChannelOf(s.tenantID, Decide(env, s, call).cmd.body) == call.channel;
  }

  lemma AppendIsAccepted(env: Env, s: Tenant, call: Call, revision: nat)
    requires call.AppendCall? && Agree(s) && ValidCall(call) && KeyOf(call).tenantID == s.tenantID
    requires Decide(env, s, call).Publish? && revision > s.revision
    ensures var d := Decide(env, s, call);
            Apply(env, s, revision, d.cmd).Ok? && True(Apply(env, s, revision, d.cmd).tenant, call, d.onCommit)
  {
    hide Agree;
    var d := Decide(env, s, call);
    assert RecordOf(s.tenantID, d.cmd.body) == d.onCommit.record;
    AgreeingSignature(env, s, d.cmd.body);
  }

  lemma AttachIsAccepted(env: Env, s: Tenant, call: Call, revision: nat)
    requires call.AttachCall? && Agree(s) && ValidCall(call) && KeyOf(call).tenantID == s.tenantID
    requires Decide(env, s, call).Publish? && revision > s.revision
    ensures var d := Decide(env, s, call);
            Apply(env, s, revision, d.cmd).Ok? && True(Apply(env, s, revision, d.cmd).tenant, call, d.onCommit)
  {
    hide Agree;
    AgreeingSignature(env, s, Decide(env, s, call).cmd.body);
    KnownReceiptIsHeld(s, call.attachment.receiptID);
  }

  lemma KnownEventIsHeld(s: Tenant, key: ChannelKey, eventID: string)
    requires Agree(s)
    ensures IdentityOf(key) in s.events && eventID in s.events[IdentityOf(key)] ==>
              Held(s, s.events[IdentityOf(key)][eventID])
  {
    hide ChannelsAgree, ReceiptsAgree;
    if IdentityOf(key) in s.events && eventID in s.events[IdentityOf(key)] {
      assert InTranscript(s, s.events[IdentityOf(key)][eventID]);
      TranscriptIsIndexed(s, s.events[IdentityOf(key)][eventID]);
    }
  }

  lemma KnownReceiptIsHeld(s: Tenant, receiptID: string)
    requires Agree(s) && receiptID in s.receipts
    ensures Held(s, s.receipts[receiptID]) && s.receipts[receiptID].receiptID == receiptID
  {
    hide ChannelsAgree, EventsAgree, RecordsAgree;
  }

  /** An outcome returned without publishing already holds of the snapshot. */
  lemma ReturnedIsTrue(env: Env, s: Tenant, call: Call)
    requires Agree(s) && ValidCall(call)
    ensures var d := Decide(env, s, call);
            d.Return? ==> True(s, call, d.outcome)
  {
    hide Agree;
    match call {
      case CreateCall(_) =>
      case AppendCall(intent, _, _) => KnownEventIsHeld(s, intent.channel, intent.eventID);
      case AttachCall(a) => if a.receiptID in s.receipts { KnownReceiptIsHeld(s, a.receiptID); }
    }
  }

  lemma TrueForeverStep(env: Env, s: Tenant, revision: nat, cmd: Command, call: Call, outcome: Outcome)
    requires Agree(s) && True(s, call, outcome) && Apply(env, s, revision, cmd).Ok?
    ensures True(Apply(env, s, revision, cmd).tenant, call, outcome)
  {
    if outcome.Appended? || outcome.Duplicate? || outcome.Attached? {
      ApplyKeepsHeld(env, s, revision, cmd, outcome.record);
    } else if outcome.Created? {
      ApplyKeepsChannel(env, s, revision, cmd, call.channel.key);
    }
  }

  lemma ApplyKeepsChannel(env: Env, s: Tenant, revision: nat, cmd: Command, key: ChannelKey)
    requires Apply(env, s, revision, cmd).Ok? && key in s.transcripts
    ensures key in Apply(env, s, revision, cmd).tenant.transcripts
    ensures Apply(env, s, revision, cmd).tenant.transcripts[key].channel == s.transcripts[key].channel
  {}

  // ------------------------------------------------------------ the protocol

  /** A tenant's environment and the call each caller makes. */
  datatype Setup = Setup(env: Env, tenantID: string, calls: nat -> Call)

  /** A published command; `at` is the length of the log its snapshot came from. */
  datatype Message = Message(caller: nat, attempt: nat, at: nat, expected: nat, cmd: Command)

  datatype Commit = Commit(revision: nat, message: Message)

  datatype Progress =
    | Loading(attempt: nat)
    | Deciding(attempt: nat, at: nat, snapshot: Tenant)
    | Sent(message: Message, onCommit: Outcome)
    | Finished(outcome: Outcome)

  datatype World = World(log: seq<Commit>, sent: set<Message>, calls: map<nat, Progress>)

  function Entries(log: seq<Commit>): (e: seq<Entry>)
    ensures |e| == |log|
  {
    seq(|log|, i requires 0 <= i < |log| => Entry(log[i].revision, log[i].message.cmd))
  }

  ghost function StateAt(su: Setup, log: seq<Commit>): Applied {
    Replay(su.env, su.tenantID, Entries(log))
  }

  ghost predicate Init(w: World) {
    w.log == [] && w.sent == {} && w.calls == map[]
  }

  /** A call enters; the subject it works on is that of its own tenant. */
  ghost predicate Start(su: Setup, w: World, w': World, c: nat) {
    && c !in w.calls && KeyOf(su.calls(c)).tenantID == su.tenantID
    && w' == w.(calls := w.calls[c := if ValidCall(su.calls(c)) then Loading(0) else Finished(Failed(InvalidArgument))])
  }

  ghost predicate LoadStep(su: Setup, w: World, w': World, c: nat) {
    && c in w.calls && w.calls[c].Loading?
    && var loaded := StateAt(su, w.log);
       var next := if loaded.Ok? then Deciding(w.calls[c].attempt, |w.log|, loaded.tenant)
                   else Finished(Failed(Unavailable));
       w' == w.(calls := w.calls[c := next])
  }

  ghost predicate DecideStep(su: Setup, w: World, w': World, c: nat) {
    && c in w.calls && w.calls[c].Deciding?
    && var p := w.calls[c];
       match Decide(su.env, p.snapshot, su.calls(c))
       case Return(outcome) => w' == w.(calls := w.calls[c := Finished(outcome)])
       case Publish(cmd, onCommit) =>
         var m := Message(c, p.attempt, p.at, p.snapshot.revision, cmd);
         w' == w.(sent := w.sent + {m}, calls := w.calls[c := Sent(m, onCommit)])
  }

  /** The broker handles a sent message: it commits exactly if the revision is still the expected one. */
  ghost predicate DeliverStep(w: World, w': World, m: Message, revision: nat) {
    && m in w.sent
    && (if LastRevision(Entries(w.log)) == m.expected
        then revision > m.expected && w' == w.(log := w.log + [Commit(revision, m)])
        else w' == w)
  }

  /** Success is reported only for a message that committed. */
  ghost predicate AckStep(w: World, w': World, c: nat) {
    && c in w.calls && w.calls[c].Sent?
    && (exists i :: 0 <= i < |w.log| && w.log[i].message == w.calls[c].message)
    && w' == w.(calls := w.calls[c := Finished(w.calls[c].onCommit)])
  }

  /** Any error may be reported, committed or not: the call retries, is cancelled, or gives up. */
  ghost predicate ErrorStep(w: World, w': World, c: nat) {
    && c in w.calls && w.calls[c].Sent?
    && var attempt := w.calls[c].message.attempt + 1;
       var next := if attempt < MAX_MUTATION_ATTEMPTS then Loading(attempt)
                   else Finished(Failed(CommitIndeterminate));
       || w' == w.(calls := w.calls[c := next])
       || w' == w.(calls := w.calls[c := Finished(Failed(Cancelled))])
  }

  ghost predicate Next(su: Setup, w: World, w': World) {
    || (exists c :: Start(su, w, w', c))
    || (exists c :: LoadStep(su, w, w', c))
    || (exists c :: DecideStep(su, w, w', c))
    || (exists m, revision :: DeliverStep(w, w', m, revision))
    || (exists c :: AckStep(w, w', c))
    || (exists c :: ErrorStep(w, w', c))
  }

  // ------------------------------------------------------------- invariant

  /** The message was decided on the first m.at entries, by a call of this tenant. */
  ghost predicate Justified(su: Setup, log: seq<Commit>, m: Message, onCommit: Outcome) {
    && m.at <= |log| && ValidCall(su.calls(m.caller)) && KeyOf(su.calls(m.caller)).tenantID == su.tenantID
    && StateAt(su, log[..m.at]).Ok?
    && StateAt(su, log[..m.at]).tenant.revision == m.expected
    && Decide(su.env, StateAt(su, log[..m.at]).tenant, su.calls(m.caller)) == Publish(m.cmd, onCommit)
  }

  ghost predicate JustifiedMessage(su: Setup, log: seq<Commit>, m: Message) {
    exists onCommit :: Justified(su, log, m, onCommit)
  }

  ghost predicate LogInv(su: Setup, log: seq<Commit>) {
    && StateAt(su, log).Ok?
    && forall i :: 0 <= i < |log| ==> log[i].message.at == i && JustifiedMessage(su, log[..i], log[i].message)
  }

  ghost predicate CallInv(su: Setup, log: seq<Commit>, c: nat, p: Progress) {
    && (!p.Finished? ==> ValidCall(su.calls(c)) && KeyOf(su.calls(c)).tenantID == su.tenantID)
    && match p
       case Loading(_) => true
       case Deciding(_, at, snapshot) => at <= |log| && StateAt(su, log[..at]) == Ok(snapshot)
       case Sent(m, onCommit) => m.caller == c && Justified(su, log, m, onCommit)
       case Finished(outcome) => StateAt(su, log).Ok? && True(StateAt(su, log).tenant, su.calls(c), outcome)
  }

  ghost predicate Inv(su: Setup, w: World) {
    && LogInv(su, w.log)
    && (forall m :: m in w.sent ==> JustifiedMessage(su, w.log, m))
    && (forall c :: c in w.calls ==> CallInv(su, w.log, c, w.calls[c]))
  }

  // ------------------------------------------------------------ preservation

  lemma EntriesPrefix(log: seq<Commit>, n: nat)
    requires n <= |log|
    ensures Entries(log[..n]) == Entries(log)[..n]
  {}

  lemma JustifiedGrows(su: Setup, log: seq<Commit>, e: Commit, m: Message, onCommit: Outcome)
    requires Justified(su, log, m, onCommit)
    ensures Justified(su, log + [e], m, onCommit)
  {
    assert (log + [e])[..m.at] == log[..m.at];
  }

  /** Revisions grow strictly, so a matching revision means the snapshot was the whole log. */
  lemma {:induction false} ExpectedIsHead(su: Setup, log: seq<Commit>, n: nat)
    requires n <= |log| && StateAt(su, log).Ok? && StateAt(su, log[..n]).Ok?
    ensures StateAt(su, log[..n]).tenant.revision <= StateAt(su, log).tenant.revision
    ensures StateAt(su, log[..n]).tenant.revision == StateAt(su, log).tenant.revision ==> n == |log|
    decreases |log| - n
  {
    hide Apply;
    if n == |log| {
      assert log[..n] == log;
    } else {
      EntriesPrefix(log, n);
      EntriesPrefix(log, n + 1);
      ReplayStep(su.env, su.tenantID, Entries(log), n);
      ApplyKeepsTenant(su.env, StateAt(su, log[..n]).tenant, log[n].revision, log[n].message.cmd);
      ExpectedIsHead(su, log, n + 1);
    }
  }

  lemma StateAfter(su: Setup, log: seq<Commit>, e: Commit)
    requires StateAt(su, log).Ok?
    ensures StateAt(su, log + [e]) == Apply(su.env, StateAt(su, log).tenant, e.revision, e.message.cmd)
  {
    hide Apply;
    var all := Entries(log + [e]);
    assert all[..|log|] == Entries(log);
    assert all != [] && all[|all| - 1] == Entry(e.revision, e.message.cmd);
  }

  /** The commit of a sent message keeps the invariant: the reducer accepts it at its place. */
  lemma DeliverKeepsInv(su: Setup, w: World, w': World, m: Message, revision: nat)
    requires Inv(su, w) && DeliverStep(w, w', m, revision)
    ensures Inv(su, w')
  {
    if w' == w {
      return;
    }
    hide Apply, Decide, True, Agree, ValidCall, Replay;
    var e := Commit(revision, m);
    var onCommit :| Justified(su, w.log, m, onCommit);
    var s := StateAt(su, w.log).tenant;
    ReplayAgrees(su.env, su.tenantID, Entries(w.log));
    ExpectedIsHead(su, w.log, m.at);
    assert w.log[..m.at] == w.log;
    PublishedIsAccepted(su.env, s, su.calls(m.caller), revision);
    StateAfter(su, w.log, e);
    LogGrows(su, w.log, e, onCommit);
    forall x | x in w'.sent ensures JustifiedMessage(su, w'.log, x) {
      var o :| Justified(su, w.log, x, o);
      JustifiedGrows(su, w.log, e, x, o);
    }
    forall c | c in w'.calls ensures CallInv(su, w'.log, c, w'.calls[c]) {
      CallInvGrows(su, w.log, e, c, w.calls[c]);
    }
  }

  lemma LogGrows(su: Setup, log: seq<Commit>, e: Commit, onCommit: Outcome)
    requires LogInv(su, log) && StateAt(su, log + [e]).Ok?
    requires e.message.at == |log| && Justified(su, log, e.message, onCommit)
    ensures LogInv(su, log + [e])
  {
    hide StateAt, Justified;
    var all := log + [e];
    forall i | 0 <= i < |all| ensures all[i].message.at == i && JustifiedMessage(su, all[..i], all[i].message) {
      if i < |log| {
        assert all[..i] == log[..i];
      } else {
        assert all[..i] == log;
      }
    }
  }

  lemma CallInvGrows(su: Setup, log: seq<Commit>, e: Commit, c: nat, p: Progress)
    requires CallInv(su, log, c, p) && StateAt(su, log).Ok? && StateAt(su, log + [e]).Ok?
    ensures CallInv(su, log + [e], c, p)
  {
    hide Apply, Decide, True, Agree, ValidCall;
    match p {
      case Loading(_) =>
      case Deciding(_, at, _) => assert (log + [e])[..at] == log[..at];
      case Sent(m, onCommit) => JustifiedGrows(su, log, e, m, onCommit);
      case Finished(outcome) =>
        StateAfter(su, log, e);
        ReplayAgrees(su.env, su.tenantID, Entries(log));
        TrueForeverStep(su.env, StateAt(su, log).tenant, e.revision, e.message.cmd, su.calls(c), outcome);
    }
  }

  lemma DecideKeepsInv(su: Setup, w: World, w': World, c: nat)
    requires Inv(su, w) && DecideStep(su, w, w', c)
    ensures Inv(su, w')
  {
    hide Apply, Decide, True, Agree, ValidCall, LogInv;
    var p := w.calls[c];
    assert CallInv(su, w.log, c, p);
    ReplayAgrees(su.env, su.tenantID, Entries(w.log[..p.at]));
    match Decide(su.env, p.snapshot, su.calls(c))
    case Return(outcome) =>
      ReturnedIsTrue(su.env, p.snapshot, su.calls(c));
      LogInvIsOk(su, w.log);
      TrueSince(su, w.log, p.at, su.calls(c), outcome);
    case Publish(cmd, onCommit) =>
      var m := Message(c, p.attempt, p.at, p.snapshot.revision, cmd);
      assert Justified(su, w.log, m, onCommit);
  }

  lemma LogInvIsOk(su: Setup, log: seq<Commit>)
    requires LogInv(su, log)
    ensures StateAt(su, log).Ok?
  {}

  lemma {:induction false} TrueSince(su: Setup, log: seq<Commit>, n: nat, call: Call, outcome: Outcome)
    requires n <= |log| && StateAt(su, log).Ok? && StateAt(su, log[..n]).Ok?
    requires True(StateAt(su, log[..n]).tenant, call, outcome)
    ensures True(StateAt(su, log).tenant, call, outcome)
    decreases |log| - n
  {
    hide Apply, True, Agree;
    if n == |log| {
      assert log[..n] == log;
    } else {
      EntriesPrefix(log, n);
      EntriesPrefix(log, n + 1);
      ReplayStep(su.env, su.tenantID, Entries(log), n);
      ReplayAgrees(su.env, su.tenantID, Entries(log[..n]));
      TrueForeverStep(su.env, StateAt(su, log[..n]).tenant, log[n].revision, log[n].message.cmd, call, outcome);
      TrueSince(su, log, n + 1, call, outcome);
    }
  }

  /** A message that committed made its outcome true then, and the outcome stays true. */
  lemma CommittedIsTrue(su: Setup, log: seq<Commit>, i: nat, onCommit: Outcome)
    requires LogInv(su, log) && i < |log| && Justified(su, log, log[i].message, onCommit)
    ensures StateAt(su, log).Ok? && True(StateAt(su, log).tenant, su.calls(log[i].message.caller), onCommit)
  {
    hide Apply, Decide, True, Agree, ValidCall, Replay;
    var m, s := log[i].message, StateAt(su, log[..i]).tenant;
    EntriesPrefix(log, i);
    EntriesPrefix(log, i + 1);
    ReplayStep(su.env, su.tenantID, Entries(log), i);
    ReplayAgrees(su.env, su.tenantID, Entries(log[..i]));
    ApplyKeepsTenant(su.env, s, log[i].revision, m.cmd);
    assert m.at == i;
    PublishedIsAccepted(su.env, s, su.calls(m.caller), log[i].revision);
    TrueSince(su, log, i + 1, su.calls(m.caller), onCommit);
  }

  lemma AckKeepsInv(su: Setup, w: World, w': World, c: nat)
    requires Inv(su, w) && AckStep(w, w', c)
    ensures Inv(su, w')
  {
    hide LogInv, StateAt, True, Justified, JustifiedMessage, ValidCall;
    assert CallInv(su, w.log, c, w.calls[c]);
    var i :| 0 <= i < |w.log| && w.log[i].message == w.calls[c].message;
    CommittedIsTrue(su, w.log, i, w.calls[c].onCommit);
  }

  lemma OtherStepsKeepInv(su: Setup, w: World, w': World, c: nat)
    requires Inv(su, w) && (Start(su, w, w', c) || LoadStep(su, w, w', c) || ErrorStep(w, w', c))
    ensures Inv(su, w')
  {
    hide Apply, Decide, Agree, ValidCall, LogInv, StateAt, Justified;
    LogInvIsOk(su, w.log);
    assert w.log[..|w.log|] == w.log;
    assert c in w.calls ==> CallInv(su, w.log, c, w.calls[c]);
  }

  lemma NextKeepsInv(su: Setup, w: World, w': World)
    requires Inv(su, w) && Next(su, w, w')
    ensures Inv(su, w')
  {
    hide Inv, Start, LoadStep, DecideStep, DeliverStep, AckStep, ErrorStep;
    if c :| Start(su, w, w', c) || LoadStep(su, w, w', c) || ErrorStep(w, w', c) {
      OtherStepsKeepInv(su, w, w', c);
    } else if c :| DecideStep(su, w, w', c) {
      DecideKeepsInv(su, w, w', c);
    } else if m, revision :| DeliverStep(w, w', m, revision) {
      DeliverKeepsInv(su, w, w', m, revision);
    } else {
      var c :| AckStep(w, w', c);
      AckKeepsInv(su, w, w', c);
    }
  }

  // ------------------------------------------------------------ whole runs

  ghost predicate IsRun(su: Setup, run: seq<World>) {
    && |run| > 0 && Init(run[0])
    && forall i :: 0 <= i < |run| - 1 ==> Next(su, run[i], run[i + 1])
  }

  lemma {:induction false} RunKeepsInv(su: Setup, run: seq<World>, i: nat)
    requires IsRun(su, run) && i < |run|
    ensures Inv(su, run[i])
  {
    if i == 0 {
      assert Entries(run[0].log) == [];
    } else {
      RunKeepsInv(su, run, i - 1);
      assert Next(su, run[i - 1], run[i - 1 + 1]);
      NextKeepsInv(su, run[i - 1], run[i]);
    }
  }

  /** The log never wedges: whatever the interleaving and whichever publishes committed
      behind an error, load rebuilds a state with agreeing indexes. */
  lemma NeverWedges(su: Setup, run: seq<World>, i: nat)
    requires IsRun(su, run) && i < |run|
    ensures StateAt(su, run[i].log).Ok? && Agree(StateAt(su, run[i].log).tenant)
  {
    RunKeepsInv(su, run, i);
    ReplayAgrees(su.env, su.tenantID, Entries(run[i].log));
  }

  /** Every outcome a call has returned is true of the log from then on: a returned record is the
      committed one, with the signature it was returned with. */
  lemma OutcomesStayTrue(su: Setup, run: seq<World>, i: nat, j: nat, c: nat, outcome: Outcome)
    requires IsRun(su, run) && i <= j < |run|
    requires c in run[i].calls && run[i].calls[c] == Finished(outcome)
    ensures StateAt(su, run[j].log).Ok? && True(StateAt(su, run[j].log).tenant, su.calls(c), outcome)
  {
    FinishedStays(su, run, i, j, c, outcome);
    RunKeepsInv(su, run, j);
    assert CallInv(su, run[j].log, c, run[j].calls[c]);
  }

  lemma {:induction false} FinishedStays(su: Setup, run: seq<World>, i: nat, j: nat, c: nat, outcome: Outcome)
    requires IsRun(su, run) && i <= j < |run| && c in run[i].calls && run[i].calls[c] == Finished(outcome)
    ensures c in run[j].calls && run[j].calls[c] == Finished(outcome)
    decreases j
  {
    if i < j {
      FinishedStays(su, run, i, j - 1, c, outcome);
      assert Next(su, run[j - 1], run[j - 1 + 1]);
    }
  }

  /** Once an outcome is true of a state, repeating the same call there succeeds without publishing again. */
  lemma TrueMakesRetrySucceed(env: Env, s: Tenant, call: Call, outcome: Outcome)
    requires Agree(s) && True(s, call, outcome) && !outcome.Failed?
    ensures var d := Decide(env, s, call);
            && d.Return?
            && (if call.CreateCall? then d.outcome.Created?
                else if call.AttachCall? then d.outcome.Attached? && Extends(d.outcome.record, outcome.record)
                else d.outcome.Duplicate? && Extends(d.outcome.record, outcome.record))
  {
    hide Agree, DecideAppend, DecideAttach, Extends;
    if call.AppendCall? {
      AppendRetrySucceeds(env, s, call, outcome.record);
    } else if call.AttachCall? {
      AttachRetrySucceeds(env, s, call, outcome.record);
    }
  }

  lemma AppendRetrySucceeds(env: Env, s: Tenant, call: Call, r: AcceptedRecord)
    requires Agree(s) && call.AppendCall? && IsRecordOf(s, call, r)
    ensures var d := DecideAppend(env, s, call.intent, call.admit, call.prepare);
            d.Return? && d.outcome.Duplicate? && Extends(d.outcome.record, r)
  {
    var stored := s.receipts[r.receiptID];
    StoredIsIndexed(s, r.receiptID);
    hide Agree;
    SameUnsignedFields(stored, r);
  }

  lemma AttachRetrySucceeds(env: Env, s: Tenant, call: Call, r: AcceptedRecord)
    requires Agree(s) && call.AttachCall? && True(s, call, Attached(r))
    ensures var d := DecideAttach(env, s, call.attachment);
            d.Return? && d.outcome.Attached? && Extends(d.outcome.record, r)
  {
    hide Agree;
    SameUnsignedFields(s.receipts[r.receiptID], r);
  }

  lemma StoredIsIndexed(s: Tenant, n: string)
    requires Agree(s) && n in s.receipts
    ensures var r := s.receipts[n]; r.receiptID == n && RecordAt(s, r.channel, r.sequence - 1)
    ensures InTranscript(s, s.receipts[n])
  {
    AgreeingReceipt(s, n);
    TranscriptIsIndexed(s, s.receipts[n]);
  }

  lemma SameUnsignedFields(a: AcceptedRecord, b: AcceptedRecord)
    requires a.(signature := []) == b.(signature := [])
    ensures a.channel == b.channel && a.eventID == b.eventID && a.event == b.event && a.preimage == b.preimage
    ensures a.receiptID == b.receiptID
  {
    var x := a.(signature := []);
    assert x.channel == a.channel && x.eventID == a.eventID && x.event == a.event && x.preimage == a.preimage
        && x.receiptID == a.receiptID;
  }

  /** A call whose publish committed, even behind an error, is answered with success by every later attempt. */
  lemma CommittedCallSucceedsOnRetry(su: Setup, run: seq<World>, i: nat, k: nat)
    requires IsRun(su, run) && i < |run| && k < |run[i].log|
    ensures StateAt(su, run[i].log).Ok?
    ensures var d := Decide(su.env, StateAt(su, run[i].log).tenant, su.calls(run[i].log[k].message.caller));
            d.Return? && !d.outcome.Failed?
  {
    RunKeepsInv(su, run, i);
    hide Decide, Apply, True, Agree, ValidCall, CallInv;
    var log := run[i].log;
    var m := log[k].message;
    assert JustifiedMessage(su, log[..k], m);
    var onCommit :| Justified(su, log[..k], m, onCommit);
    assert log[..k][..k] == log[..k];
    EntriesPrefix(log, k);
    EntriesPrefix(log, k + 1);
    ReplayStep(su.env, su.tenantID, Entries(log), k);
    ReplayAgrees(su.env, su.tenantID, Entries(log[..k]));
    ReplayAgrees(su.env, su.tenantID, Entries(log));
    var s := StateAt(su, log[..k]).tenant;
    ApplyKeepsTenant(su.env, s, log[k].revision, m.cmd);
    PublishedIsAccepted(su.env, s, su.calls(m.caller), log[k].revision);
    TrueSince(su, log, k + 1, su.calls(m.caller), onCommit);
    PublishNeverPromisesFailure(su.env, s, su.calls(m.caller));
    TrueMakesRetrySucceed(su.env, StateAt(su, log).tenant, su.calls(m.caller), onCommit);
  }

  lemma PublishNeverPromisesFailure(env: Env, s: Tenant, call: Call)
    ensures Decide(env, s, call).Publish? ==> !Decide(env, s, call).onCommit.Failed?
  {}

  /** Each committed append was admitted, prepared and sequenced on exactly the state just before it. */
  lemma CommittedAppendWasAdmitted(su: Setup, run: seq<World>, i: nat, k: nat)
    requires IsRun(su, run) && i < |run| && k < |run[i].log|
    requires run[i].log[k].message.cmd.body.RecordAppended?
    ensures var call := su.calls(run[i].log[k].message.caller);
            var before := StateAt(su, run[i].log[..k]);
            && before.Ok? && call.AppendCall? && call.intent.channel in before.tenant.transcripts
            && call.admit(AdmissionView(before.tenant, call.intent.channel))
            && call.prepare(|before.tenant.transcripts[call.intent.channel].records| + 1,
               su.env.digest(call.intent.event))
               == Some(RecordOf(su.tenantID, run[i].log[k].message.cmd.body))
  {
    RunKeepsInv(su, run, i);
    var log := run[i].log;
    hide Decide, Agree, Apply;
    assert JustifiedMessage(su, log[..k], log[k].message);
    var onCommit :| Justified(su, log[..k], log[k].message, onCommit);
    assert log[..k][..k] == log[..k];
    EntriesPrefix(log, k);
    ReplayAgrees(su.env, su.tenantID, Entries(log[..k]));
    PublishedAppend(su.env, StateAt(su, log[..k]).tenant, su.calls(log[k].message.caller), onCommit,
                    log[k].message.cmd);
  }

  lemma PublishedAppend(env: Env, s: Tenant, call: Call, onCommit: Outcome, cmd: Command)
    requires Decide(env, s, call) == Publish(cmd, onCommit) && cmd.body.RecordAppended?
    requires KeyOf(call).tenantID == s.tenantID
    ensures call.AppendCall? && call.intent.channel in s.transcripts
    ensures call.admit(AdmissionView(s, call.intent.channel))
    ensures call.prepare(|s.transcripts[call.intent.channel].records| + 1, env.digest(call.intent.event)) ==
              Some(RecordOf(s.tenantID, cmd.body))
  {}

  /** Exactly once: two commits never append the same event of a channel, nor the same receipt. */
  lemma CommittedAtMostOnce(su: Setup, run: seq<World>, i: nat, k: nat, l: nat)
    requires IsRun(su, run) && i < |run| && k < l < |run[i].log|
    requires run[i].log[k].message.cmd.body.RecordAppended? && run[i].log[l].message.cmd.body.RecordAppended?
    ensures var a, b := run[i].log[k].message.cmd.body, run[i].log[l].message.cmd.body;
            && a.receiptID != b.receiptID
            && (a.channelID == b.channelID ==> a.eventID != b.eventID)
  {
    NeverWedges(su, run, i);
    AppendedAtMostOnce(su.env, su.tenantID, Entries(run[i].log), k, l);
  }
}
