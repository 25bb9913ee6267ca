/**
 internal/relay/jetstream/reducer.go: replaying a tenant's command log.  A command
 is its decoded form; `fits` is the size bound that newCommand and decodeCommand
 both apply to the encoded form.
 */
module RelayReducer {
  import opened Interop
  import opened RelayStore

  datatype Body =
    | ChannelCreated(channelID: string, epoch: string, uri: string, metadata: Bytes, metadataDigest: string,
                     lifecycle: string)
    | RecordAppended(channelID: string, epoch: string, sequence: nat, eventID: string, event: Bytes,
                     eventDigest: string, authenticated: Bytes, authorization: Bytes, receiptID: string,
                     signingKeyID: string, algorithm: string, preimage: Bytes)
    | SignatureAttached(channelID: string, epoch: string, receiptID: string, preimageDigest: string, signature: Bytes)

  datatype Command = Command(tenantID: string, body: Body)

  datatype Env = Env(digest: Bytes -> string, fits: Command -> bool)

  datatype Identity = Identity(tenantID: string, channelID: string)

  datatype Transcript = Transcript(channel: Channel, records: seq<AcceptedRecord>)

  datatype Tenant = Tenant(
    tenantID: string, revision: nat,
    transcripts: map<ChannelKey, Transcript>,
    uris: map<Identity, string>,
    events: map<Identity, map<string, AcceptedRecord>>,
    receipts: map<string, AcceptedRecord>)

  /** Rejected is the reducer's error; Panicked stands for a nil map or an index out of range. */
  datatype Applied = Ok(tenant: Tenant) | Rejected | Panicked

  function IdentityOf(key: ChannelKey): Identity {
    Identity(key.tenantID, key.channelID)
  }

  function EmptyTenant(tenantID: string): Tenant {
    Tenant(tenantID, 0, map[], map[], map[], map[])
  }

  function ChannelOf(tenantID: string, b: Body): Channel
    requires b.ChannelCreated?
  {
    Channel(ChannelKey(tenantID, b.channelID, b.epoch), b.uri, b.metadata, b.metadataDigest, b.lifecycle)
  }

  function RecordOf(tenantID: string, b: Body): AcceptedRecord
    requires b.RecordAppended?
  {
    AcceptedRecord(ChannelKey(tenantID, b.channelID, b.epoch), b.sequence, b.eventID, b.event, b.eventDigest,
                   b.authenticated, b.authorization, b.receiptID, b.signingKeyID, b.algorithm, b.preimage, [])
  }

  /** Another channel of this tenant already owns the URI. */
  predicate UriTaken(s: Tenant, channel: Channel) {
    exists k :: k in s.transcripts && k.tenantID == s.tenantID &&
                s.transcripts[k].channel.uri == channel.uri && k.channelID != channel.key.channelID
  }

  function ApplyChannel(s: Tenant, b: Body): Applied
    requires b.ChannelCreated?
  {
    var channel := ChannelOf(s.tenantID, b);
    var id := IdentityOf(channel.key);
    if !ValidChannel(channel) then Rejected
    else if channel.key in s.transcripts then Rejected
    else if id in s.uris && s.uris[id] != channel.uri then Rejected
    else if UriTaken(s, channel) then Rejected
    else Ok(s.(uris := s.uris[id := channel.uri],
               events := if id in s.events then s.events else s.events[id := map[]],
               transcripts := s.transcripts[channel.key := Transcript(channel, [])]))
  }

  function ApplyRecord(env: Env, s: Tenant, b: Body): Applied
    requires b.RecordAppended?
  {
    var record := RecordOf(s.tenantID, b);
    var key := record.channel;
    var id := IdentityOf(key);
    if b.sequence == 0 || b.sequence > MAX_SAFE_INTEGER then Rejected
    else if key !in s.transcripts then Rejected
    else if !ValidPreparedRecord(AppendIntent(key, record.eventID, record.event), |s.transcripts[key].records| + 1,
                                 env.digest(record.event), record) then Rejected
    else if id in s.events && record.eventID in s.events[id] then Rejected
    else if record.receiptID in s.receipts then Rejected
    else if id !in s.events then Panicked
    else Ok(Stored(s, record, s.transcripts[key].records + [record]))
  }

  /** The three places a record is kept. */
  function Stored(s: Tenant, record: AcceptedRecord, records: seq<AcceptedRecord>): Tenant
    requires record.channel in s.transcripts && IdentityOf(record.channel) in s.events
  {
    var id := IdentityOf(record.channel);
    s.(transcripts := s.transcripts[record.channel := s.transcripts[record.channel].(records := records)],
       events := s.events[id := s.events[id][record.eventID := record]],
       receipts := s.receipts[record.receiptID := record])
  }

  function ApplySignature(env: Env, s: Tenant, b: Body): Applied
    requires b.SignatureAttached?
  {
    var key := ChannelKey(s.tenantID, b.channelID, b.epoch);
    if b.signature == [] then Rejected
    else if b.receiptID !in s.receipts || s.receipts[b.receiptID].channel != key then Rejected
    else
      var record := s.receipts[b.receiptID];
      if env.digest(record.preimage) != b.preimageDigest || record.signature != [] then Rejected
      else if key !in s.transcripts || record.sequence == 0 || record.sequence > |s.transcripts[key].records|
              || IdentityOf(key) !in s.events then Panicked
      else
        var signed := record.(signature := b.signature);
        Ok(Stored(s, signed, s.transcripts[key].records[record.sequence - 1 := signed]))
  }

  function Dispatch(env: Env, s: Tenant, b: Body): Applied {
    match b
    case ChannelCreated(_, _, _, _, _, _) => ApplyChannel(s, b)
    case RecordAppended(_, _, _, _, _, _, _, _, _, _, _, _) => ApplyRecord(env, s, b)
    case SignatureAttached(_, _, _, _, _) => ApplySignature(env, s, b)
  }

  /** tenantState.apply: envelope checks, dispatch, then the revision moves on. */
  function Apply(env: Env, s: Tenant, revision: nat, cmd: Command): Applied {
    if cmd.tenantID == "" || !env.fits(cmd) then Rejected
    else if cmd.tenantID != s.tenantID || revision <= s.revision then Rejected
    else
      var r := Dispatch(env, s, cmd.body);
      if r.Ok? then Ok(r.tenant.(revision := revision)) else r
  }

  // ------------------------------------------------------------ index agreement

  /** The copy of record r under transcripts is r itself. */
  ghost predicate InTranscript(s: Tenant, r: AcceptedRecord) {
    && r.channel in s.transcripts
    && 1 <= r.sequence <= |s.transcripts[r.channel].records|
    && s.transcripts[r.channel].records[r.sequence - 1] == r
  }

  ghost predicate ChannelsAgree(s: Tenant) {
    forall k :: k in s.transcripts ==>
      && k.tenantID == s.tenantID && s.transcripts[k].channel.key == k
      && IdentityOf(k) in s.events
      && IdentityOf(k) in s.uris && s.uris[IdentityOf(k)] == s.transcripts[k].channel.uri
  }

  /** The record at this place of a transcript is the copy under its event and under its receipt. */
  ghost predicate RecordAt(s: Tenant, k: ChannelKey, i: int) {
    && k in s.transcripts && 0 <= i < |s.transcripts[k].records|
    && var r := s.transcripts[k].records[i];
       && r.channel == k && r.sequence == i + 1
       && IdentityOf(k) in s.events && r.eventID in s.events[IdentityOf(k)] && s.events[IdentityOf(k)][r.eventID] == r
       && r.receiptID in s.receipts && s.receipts[r.receiptID] == r
  }

  ghost predicate RecordsAgree(s: Tenant) {
    forall k, i :: k in s.transcripts && 0 <= i < |s.transcripts[k].records| ==> RecordAt(s, k, i)
  }

  ghost predicate EventsAgree(s: Tenant) {
    forall id, e :: id in s.events && e in s.events[id] ==>
      var r := s.events[id][e];
      r.eventID == e && IdentityOf(r.channel) == id && InTranscript(s, r)
  }

  ghost predicate ReceiptsAgree(s: Tenant) {
    forall n :: n in s.receipts ==> s.receipts[n].receiptID == n && InTranscript(s, s.receipts[n])
  }

  /** Transcripts, events and receipts hold identical copies of exactly the same records. */
  ghost predicate Agree(s: Tenant) {
    ChannelsAgree(s) && RecordsAgree(s) && EventsAgree(s) && ReceiptsAgree(s)
  }

  /** A record of a transcript is found under its event and under its receipt. */
  lemma TranscriptIsIndexed(s: Tenant, r: AcceptedRecord)
    requires RecordsAgree(s) && InTranscript(s, r)
    ensures RecordAt(s, r.channel, r.sequence - 1)
  {}

  lemma ChannelKeepsChannels(s: Tenant, b: Body)
    requires b.ChannelCreated? && ChannelsAgree(s) && ApplyChannel(s, b).Ok?
    ensures ChannelsAgree(ApplyChannel(s, b).tenant)
  {}

  lemma ChannelKeepsRecords(s: Tenant, b: Body)
    requires b.ChannelCreated? && RecordsAgree(s) && ApplyChannel(s, b).Ok?
    ensures RecordsAgree(ApplyChannel(s, b).tenant)
  {
    var t := ApplyChannel(s, b).tenant;
    forall k, i | k in t.transcripts && 0 <= i < |t.transcripts[k].records| ensures RecordAt(t, k, i) {
      assert RecordAt(s, k, i);
    }
  }

  lemma ChannelKeepsIndexes(s: Tenant, b: Body)
    requires b.ChannelCreated? && EventsAgree(s) && ReceiptsAgree(s) && ApplyChannel(s, b).Ok?
    ensures EventsAgree(ApplyChannel(s, b).tenant) && ReceiptsAgree(ApplyChannel(s, b).tenant)
  {
    var t := ApplyChannel(s, b).tenant;
    forall x | InTranscript(s, x) ensures InTranscript(t, x) {}
  }

  lemma ChannelKeepsAgreement(s: Tenant, b: Body)
    requires b.ChannelCreated? && Agree(s) && ApplyChannel(s, b).Ok?
    ensures Agree(ApplyChannel(s, b).tenant)
  {
    hide ChannelsAgree, RecordsAgree, EventsAgree, ReceiptsAgree, ApplyChannel;
    ChannelKeepsChannels(s, b);
    ChannelKeepsRecords(s, b);
    ChannelKeepsIndexes(s, b);
  }

  /** `record` takes the place of a copy that only differs in its signature, or comes next with unused identities. */
  ghost predicate Storable(s: Tenant, record: AcceptedRecord, records: seq<AcceptedRecord>) {
    && record.channel in s.transcripts && IdentityOf(record.channel) in s.events
    && var was := s.transcripts[record.channel].records;
       var i := record.sequence - 1;
       || (record.sequence == |was| + 1 && records == was + [record]
           && record.eventID !in s.events[IdentityOf(record.channel)] && record.receiptID !in s.receipts)
       || (0 <= i < |was| && records == was[i := record] && was[i] == record.(signature := was[i].signature))
  }

  lemma StoredRecordAt(s: Tenant, record: AcceptedRecord, records: seq<AcceptedRecord>)
    requires Storable(s, record, records)
    ensures RecordAt(Stored(s, record, records), record.channel, record.sequence - 1)
  {}

  /** Any other record keeps its place, since it shares neither event nor receipt with the stored one. */
  lemma OtherRecordAt(s: Tenant, record: AcceptedRecord, records: seq<AcceptedRecord>, k: ChannelKey, j: nat)
    requires Storable(s, record, records) && RecordAt(s, k, j) && (k != record.channel || j != record.sequence - 1)
    requires record.sequence <= |s.transcripts[record.channel].records| ==>
              RecordAt(s, record.channel, record.sequence - 1)
    ensures RecordAt(Stored(s, record, records), k, j)
  {
    var r, t := s.transcripts[k].records[j], Stored(s, record, records);
    assert t.transcripts[k].records[j] == r;
    assert r.receiptID != record.receiptID;
    assert IdentityOf(k) == IdentityOf(record.channel) ==> r.eventID != record.eventID;
  }

  lemma StoredRecordsAgree(s: Tenant, record: AcceptedRecord, records: seq<AcceptedRecord>)
    requires RecordsAgree(s) && Storable(s, record, records)
    ensures RecordsAgree(Stored(s, record, records))
  {
    var t, key := Stored(s, record, records), record.channel;
    StoredRecordAt(s, record, records);
    forall k, j | k in t.transcripts && 0 <= j < |t.transcripts[k].records| ensures RecordAt(t, k, j) {
      if k != key || j != record.sequence - 1 {
        assert RecordAt(s, k, j);
        assert record.sequence <= |s.transcripts[key].records| ==> RecordAt(s, key, record.sequence - 1);
        hide RecordAt;
        OtherRecordAt(s, record, records, k, j);
      }
    }
  }

  lemma StoredKeepsOthers(s: Tenant, record: AcceptedRecord, records: seq<AcceptedRecord>)
    requires Storable(s, record, records)
    ensures InTranscript(Stored(s, record, records), record)
    ensures forall x :: InTranscript(s, x) && (x.channel != record.channel || x.sequence != record.sequence) ==>
              InTranscript(Stored(s, record, records), x)
  {}

  lemma StoredReceiptsAgree(s: Tenant, record: AcceptedRecord, records: seq<AcceptedRecord>)
    requires RecordsAgree(s) && ReceiptsAgree(s) && Storable(s, record, records)
    ensures ReceiptsAgree(Stored(s, record, records))
  {
    var t := Stored(s, record, records);
    StoredKeepsOthers(s, record, records);
    forall n | n in t.receipts ensures t.receipts[n].receiptID == n && InTranscript(t, t.receipts[n]) {
      if n != record.receiptID {
        assert InTranscript(s, s.receipts[n]);
      }
    }
  }

  lemma StoredEventsAgree(s: Tenant, record: AcceptedRecord, records: seq<AcceptedRecord>)
    requires RecordsAgree(s) && EventsAgree(s) && Storable(s, record, records)
    ensures EventsAgree(Stored(s, record, records))
  {
    var t := Stored(s, record, records);
    StoredKeepsOthers(s, record, records);
    forall id, e | id in t.events && e in t.events[id]
      ensures var r := t.events[id][e]; r.eventID == e && IdentityOf(r.channel) == id && InTranscript(t, r)
    {
      if id != IdentityOf(record.channel) || e != record.eventID {
        var x := s.events[id][e];
        assert t.events[id][e] == x && InTranscript(s, x) && x.eventID == e && IdentityOf(x.channel) == id;
      }
    }
  }

  lemma StoredChannelsAgree(s: Tenant, record: AcceptedRecord, records: seq<AcceptedRecord>)
    requires ChannelsAgree(s) && Storable(s, record, records)
    ensures ChannelsAgree(Stored(s, record, records))
  {}

  lemma StoredAgree(s: Tenant, record: AcceptedRecord, records: seq<AcceptedRecord>)
    requires Agree(s) && Storable(s, record, records)
    ensures Agree(Stored(s, record, records))
  {
    hide ChannelsAgree, RecordsAgree, EventsAgree, ReceiptsAgree;
    StoredChannelsAgree(s, record, records);
    StoredRecordsAgree(s, record, records);
    StoredEventsAgree(s, record, records);
    StoredReceiptsAgree(s, record, records);
  }

  /** A channel the reducer knows has its event map, and a receipt it knows has its slot. */
  lemma AgreeingSignature(env: Env, s: Tenant, b: Body)
    requires Agree(s)
    ensures b.RecordAppended? ==> !ApplyRecord(env, s, b).Panicked?
    ensures b.SignatureAttached? ==> !ApplySignature(env, s, b).Panicked?
    ensures b.SignatureAttached? && b.receiptID in s.receipts ==> InTranscript(s, s.receipts[b.receiptID])
  {
    hide RecordsAgree, EventsAgree;
    assert b.SignatureAttached? && b.receiptID in s.receipts ==> InTranscript(s, s.receipts[b.receiptID]);
  }

  lemma RecordKeepsAgreement(env: Env, s: Tenant, b: Body)
    requires b.RecordAppended? && Agree(s) && ApplyRecord(env, s, b).Ok?
    ensures Agree(ApplyRecord(env, s, b).tenant)
  {
    hide Agree;
    var record := RecordOf(s.tenantID, b);
    StoredAgree(s, record, s.transcripts[record.channel].records + [record]);
  }

  lemma SignatureKeepsAgreement(env: Env, s: Tenant, b: Body)
    requires b.SignatureAttached? && Agree(s) && ApplySignature(env, s, b).Ok?
    ensures Agree(ApplySignature(env, s, b).tenant)
  {
    hide Agree, Storable, Stored, InTranscript;
    AgreeingReceipt(s, b.receiptID);
    var prior := s.receipts[b.receiptID];
    SignedIsStorable(s, prior, b.signature);
    var signed := prior.(signature := b.signature);
    StoredAgree(s, signed, s.transcripts[prior.channel].records[prior.sequence - 1 := signed]);
  }

  lemma SignedIsStorable(s: Tenant, prior: AcceptedRecord, signature: Bytes)
    requires InTranscript(s, prior) && IdentityOf(prior.channel) in s.events
    ensures var signed := prior.(signature := signature);
            Storable(s, signed, s.transcripts[prior.channel].records[prior.sequence - 1 := signed])
  {
    assert prior.(signature := signature).(signature := prior.signature) == prior;
  }

  /** Every accepted command keeps the indexes in agreement, and none makes the reducer panic. */
  lemma ApplyKeepsAgreement(env: Env, s: Tenant, revision: nat, cmd: Command)
    requires Agree(s)
    ensures !Apply(env, s, revision, cmd).Panicked?
    ensures Apply(env, s, revision, cmd).Ok? ==> Agree(Apply(env, s, revision, cmd).tenant)
  {
    hide Agree, ApplyRecord, ApplySignature;
    var b := cmd.body;
    AgreeingSignature(env, s, b);
    match b {
      case ChannelCreated(_, _, _, _, _, _) =>
        if ApplyChannel(s, b).Ok? { ChannelKeepsAgreement(s, b); }
      case RecordAppended(_, _, _, _, _, _, _, _, _, _, _, _) =>
        if ApplyRecord(env, s, b).Ok? { RecordKeepsAgreement(env, s, b); }
      case SignatureAttached(_, _, _, _, _) =>
        if ApplySignature(env, s, b).Ok? { SignatureKeepsAgreement(env, s, b); }
    }
    if Dispatch(env, s, b).Ok? { AgreeIgnoresRevision(Dispatch(env, s, b).tenant, revision); }
  }

  lemma AgreeIgnoresRevision(s: Tenant, revision: nat)
    requires Agree(s)
    ensures Agree(s.(revision := revision))
  {
    var t := s.(revision := revision);
    forall x | InTranscript(s, x) ensures InTranscript(t, x) {}
    assert EventsAgree(t);
    assert ReceiptsAgree(t);
    forall k, i | k in t.transcripts && 0 <= i < |t.transcripts[k].records| ensures RecordAt(t, k, i) {
      assert RecordAt(s, k, i);
    }
  }

  // ------------------------------------------------ the state updated in place

  /** tenantState: maps, slices and revision mutated by the apply methods. */
  class TenantState {
    const tenantID: string
    var revision: nat
    var transcripts: map<ChannelKey, Transcript>
    var uris: map<Identity, string>
    var events: map<Identity, map<string, AcceptedRecord>>
    var receipts: map<string, AcceptedRecord>

    function View(): Tenant
      reads this
    {
      Tenant(tenantID, revision, transcripts, uris, events, receipts)
    }

    constructor (tenantID: string)
      ensures View() == EmptyTenant(tenantID) && Agree(View())
    {
      this.tenantID := tenantID;
      revision, transcripts, uris, events, receipts := 0, map[], map[], map[], map[];
    }

    method TakenUri(channel: Channel) returns (taken: bool)
      ensures taken <==> UriTaken(View(), channel)
    {
      var keys := transcripts.Keys;
      while keys != {}
        invariant keys <= transcripts.Keys
        invariant forall k :: k in transcripts && k !in keys ==>
          !(k.tenantID == tenantID && transcripts[k].channel.uri == channel.uri && k.channelID != channel.key.channelID)
        decreases keys
      {
        var k :| k in keys;
        if k.tenantID == tenantID && transcripts[k].channel.uri == channel.uri && k.channelID != channel.key.channelID {
          return true;
        }
        keys := keys - {k};
      }
      return false;
    }

    method ApplyChannelCreated(b: Body) returns (ok: bool)
      requires b.ChannelCreated?
      modifies this
      ensures ok <==> ApplyChannel(old(View()), b).Ok?
      ensures View() == if ok then ApplyChannel(old(View()), b).tenant else old(View())
    {
      var channel := Channel(ChannelKey(tenantID, b.channelID, b.epoch), b.uri, b.metadata, b.metadataDigest,
          b.lifecycle);
      var id := IdentityOf(channel.key);
      if !ValidChannel(channel) || channel.key in transcripts || (id in uris && uris[id] != channel.uri) {
        return false;
      }
      var taken := TakenUri(channel);
      if taken {
        return false;
      }
      uris := uris[id := channel.uri];
      if id !in events {
        events := events[id := map[]];
      }
      transcripts := transcripts[channel.key := Transcript(channel, [])];
      return true;
    }

    method ApplyRecordAppended(env: Env, b: Body) returns (ok: bool)
      requires b.RecordAppended? && Agree(View())
      modifies this
      ensures ok <==> ApplyRecord(env, old(View()), b).Ok?
      ensures View() == if ok then ApplyRecord(env, old(View()), b).tenant else old(View())
    {
      hide Agree;
      AgreeingSignature(env, View(), b);
      var key := ChannelKey(tenantID, b.channelID, b.epoch);
      if b.sequence == 0 || b.sequence > MAX_SAFE_INTEGER || key !in transcripts {
        return false;
      }
      var t := transcripts[key];
      var record := RecordOf(tenantID, b);
      var id := IdentityOf(key);
      if !ValidPreparedRecord(AppendIntent(key, record.eventID, record.event), |t.records| + 1,
          env.digest(record.event), record)
         || (id in events && record.eventID in events[id]) || record.receiptID in receipts {
        return false;
      }
      transcripts := transcripts[key := t.(records := t.records + [record])];
      events := events[id := events[id][record.eventID := record]];
      receipts := receipts[record.receiptID := record];
      return true;
    }

    method ApplySignatureAttached(env: Env, b: Body) returns (ok: bool)
      requires b.SignatureAttached? && Agree(View())
      modifies this
      ensures ok <==> ApplySignature(env, old(View()), b).Ok?
      ensures View() == if ok then ApplySignature(env, old(View()), b).tenant else old(View())
    {
      hide Agree;
      AgreeingSignature(env, View(), b);
      var key := ChannelKey(tenantID, b.channelID, b.epoch);
      if b.signature == [] || b.receiptID !in receipts || receipts[b.receiptID].channel != key {
        return false;
      }
      var record := receipts[b.receiptID];
      if env.digest(record.preimage) != b.preimageDigest || record.signature != [] {
        return false;
      }
      AgreeingReceipt(View(), b.receiptID);
      record := record.(signature := b.signature);
      var t := transcripts[key];
      transcripts := transcripts[key := t.(records := t.records[record.sequence - 1 := record])];
      events := events[IdentityOf(key) := events[IdentityOf(key)][record.eventID := record]];
      receipts := receipts[record.receiptID := record];
      return true;
    }

    /** tenantState.apply never panics, leaves the state alone on an error and keeps the indexes in agreement. */
    method ApplyCommand(env: Env, at: nat, cmd: Command) returns (ok: bool)
      requires Agree(View())
      modifies this
      ensures Agree(View())
      ensures ok <==> Apply(env, old(View()), at, cmd).Ok?
      ensures View() == if ok then Apply(env, old(View()), at, cmd).tenant else old(View())
    {
      ghost var before := View();
      ApplyKeepsAgreement(env, before, at, cmd);
      hide Agree, ApplyChannel, ApplyRecord, ApplySignature;
      if cmd.tenantID == "" || !env.fits(cmd) || cmd.tenantID != tenantID || at <= revision {
        return false;
      }
      match cmd.body {
        case ChannelCreated(_, _, _, _, _, _) => ok := ApplyChannelCreated(cmd.body);
        case RecordAppended(_, _, _, _, _, _, _, _, _, _, _, _) => ok := ApplyRecordAppended(env, cmd.body);
        case SignatureAttached(_, _, _, _, _) => ok := ApplySignatureAttached(env, cmd.body);
      }
      if !ok {
        return;
      }
      revision := at;
    }
  }

  lemma AgreeingReceipt(s: Tenant, n: string)
    requires Agree(s) && n in s.receipts
    ensures InTranscript(s, s.receipts[n]) && s.receipts[n].receiptID == n
    ensures IdentityOf(s.receipts[n].channel) in s.events
  {
    hide RecordsAgree, EventsAgree;
    assert InTranscript(s, s.receipts[n]);
  }

  // ------------------------------------------------------- write-once signatures

  /** The state holds record `seen`, possibly signed since. */
  ghost predicate Held(s: Tenant, seen: AcceptedRecord) {
    && seen.receiptID in s.receipts && Extends(s.receipts[seen.receiptID], seen)
  }

  lemma RecordKeepsHeld(env: Env, s: Tenant, b: Body, seen: AcceptedRecord)
    requires b.RecordAppended? && Held(s, seen) && ApplyRecord(env, s, b).Ok?
    ensures Held(ApplyRecord(env, s, b).tenant, seen)
  {
    hide Extends, ValidPreparedRecord;
  }

  lemma SignatureKeepsHeld(env: Env, s: Tenant, b: Body, seen: AcceptedRecord)
    requires b.SignatureAttached? && Agree(s) && Held(s, seen) && ApplySignature(env, s, b).Ok?
    ensures Held(ApplySignature(env, s, b).tenant, seen)
  {
    AgreeingReceipt(s, b.receiptID);
    hide Agree;
  }

  /** No accepted command removes a record or changes a signature once set. */
  lemma ApplyKeepsHeld(env: Env, s: Tenant, revision: nat, cmd: Command, seen: AcceptedRecord)
    requires Agree(s) && Held(s, seen) && Apply(env, s, revision, cmd).Ok?
    ensures Held(Apply(env, s, revision, cmd).tenant, seen)
  {
    hide Agree, ApplyRecord, ApplySignature, Extends;
    var b := cmd.body;
    match b {
      case ChannelCreated(_, _, _, _, _, _) =>
      case RecordAppended(_, _, _, _, _, _, _, _, _, _, _, _) => RecordKeepsHeld(env, s, b, seen);
      case SignatureAttached(_, _, _, _, _) => SignatureKeepsHeld(env, s, b, seen);
    }
  }
}
