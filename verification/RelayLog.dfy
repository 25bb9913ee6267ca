/**
 A tenant's command log and what replaying it guarantees: the read side of
 internal/relay/jetstream/operations.go (load, Lookup, Read).
 */
module RelayLog {
  import opened Options
  import opened RelayStore
  import opened RelayReducer

  /** One committed message of the tenant's subject and its stream sequence. */
  datatype Entry = Entry(revision: nat, cmd: Command)

  function LastRevision(log: seq<Entry>): nat {
    if log == [] then 0 else log[|log| - 1].revision
  }

  ghost function Replay(env: Env, tenantID: string, log: seq<Entry>): Applied
    decreases |log|
  {
    if log == [] then Ok(EmptyTenant(tenantID))
    else
      var before := Replay(env, tenantID, log[..|log| - 1]);
      if before.Ok? then Apply(env, before.tenant, log[|log| - 1].revision, log[|log| - 1].cmd) else before
  }

  /** A log that replays yields agreeing indexes at the revision of its last message. */
  lemma {:induction false} ReplayAgrees(env: Env, tenantID: string, log: seq<Entry>)
    ensures var r := Replay(env, tenantID, log);
            && !r.Panicked?
            && (r.Ok? ==> Agree(r.tenant) && r.tenant.tenantID == tenantID && r.tenant.revision == LastRevision(log))
    decreases |log|
  {
    hide Agree, Dispatch;
    if log == [] {
      EmptyAgrees(tenantID);
    } else {
      ReplayAgrees(env, tenantID, log[..|log| - 1]);
      var before := Replay(env, tenantID, log[..|log| - 1]);
      if before.Ok? {
        ApplyKeepsAgreement(env, before.tenant, log[|log| - 1].revision, log[|log| - 1].cmd);
        if Replay(env, tenantID, log).Ok? {
          ApplyKeepsTenant(env, before.tenant, log[|log| - 1].revision, log[|log| - 1].cmd);
        }
      }
    }
  }

  lemma EmptyAgrees(tenantID: string)
    ensures Agree(EmptyTenant(tenantID))
  {}

  lemma ApplyKeepsTenant(env: Env, s: Tenant, revision: nat, cmd: Command)
    requires Apply(env, s, revision, cmd).Ok?
    ensures var t := Apply(env, s, revision, cmd).tenant;
            t.tenantID == s.tenantID && t.revision == revision > s.revision
  {}

  lemma {:induction false} ReplayPrefix(env: Env, tenantID: string, log: seq<Entry>, n: nat)
    requires n <= |log| && Replay(env, tenantID, log).Ok?
    ensures Replay(env, tenantID, log[..n]).Ok?
    decreases |log|
  {
    if n < |log| {
      ReplayPrefix(env, tenantID, log[..|log| - 1], n);
      assert log[..|log| - 1][..n] == log[..n];
    } else {
      assert log[..n] == log;
    }
  }

  lemma ReplayStep(env: Env, tenantID: string, log: seq<Entry>, i: nat)
    requires i < |log| && Replay(env, tenantID, log).Ok?
    ensures Replay(env, tenantID, log[..i]).Ok? && Replay(env, tenantID, log[..i + 1]).Ok?
    ensures Replay(env, tenantID, log[..i + 1]) ==
              Apply(env, Replay(env, tenantID, log[..i]).tenant, log[i].revision, log[i].cmd)
  {
    hide Apply;
    ReplayPrefix(env, tenantID, log, i);
    ReplayPrefix(env, tenantID, log, i + 1);
    assert log[..i + 1][..i] == log[..i];
  }

  /** A record held at some revision is held at every later one, with the signature it had. */
  lemma {:induction false} HeldForever(env: Env, tenantID: string, log: seq<Entry>, n: nat, seen: AcceptedRecord)
    requires n <= |log| && Replay(env, tenantID, log).Ok? && Replay(env, tenantID, log[..n]).Ok?
    requires Held(Replay(env, tenantID, log[..n]).tenant, seen)
    ensures Held(Replay(env, tenantID, log).tenant, seen)
    decreases |log| - n
  {
    if n == |log| {
      assert log[..n] == log;
    } else {
      hide Apply, Held;
      ReplayStep(env, tenantID, log, n);
      ReplayAgrees(env, tenantID, log[..n]);
      ApplyKeepsHeld(env, Replay(env, tenantID, log[..n]).tenant, log[n].revision, log[n].cmd, seen);
      HeldForever(env, tenantID, log, n + 1, seen);
    }
  }

  // ------------------------------------------------- transcripts are the log

  /** The unsigned records appended to one transcript, in log order. */
  ghost function RecordsOf(tenantID: string, log: seq<Entry>, key: ChannelKey): seq<AcceptedRecord>
    decreases |log|
  {
    if log == [] then []
    else
      var b := log[|log| - 1].cmd.body;
      RecordsOf(tenantID, log[..|log| - 1], key) +
      if b.RecordAppended? && RecordOf(tenantID, b).channel == key then [RecordOf(tenantID, b)] else []
  }

  ghost predicate SameUnsigned(stored: seq<AcceptedRecord>, unsigned: seq<AcceptedRecord>) {
    |stored| == |unsigned| && forall i :: 0 <= i < |stored| ==> stored[i].(signature := []) == unsigned[i]
  }

  ghost predicate TranscriptsMatch(s: Tenant, tenantID: string, log: seq<Entry>) {
    forall key ::
      SameUnsigned(if key in s.transcripts then s.transcripts[key].records else [], RecordsOf(tenantID, log, key))
  }

  lemma TranscriptStep(env: Env, s: Tenant, revision: nat, cmd: Command, key: ChannelKey, unsigned: seq<AcceptedRecord>)
    requires Agree(s) && Apply(env, s, revision, cmd).Ok?
    requires SameUnsigned(if key in s.transcripts then s.transcripts[key].records else [], unsigned)
    ensures var t := Apply(env, s, revision, cmd).tenant;
            var more := if cmd.body.RecordAppended? && RecordOf(s.tenantID, cmd.body).channel == key
                        then [RecordOf(s.tenantID, cmd.body)] else [];
            SameUnsigned(if key in t.transcripts then t.transcripts[key].records else [], unsigned + more)
  {
    hide Agree, ValidPreparedRecord, ApplyChannel;
    AgreeingSignature(env, s, cmd.body);
    if cmd.body.ChannelCreated? { ChannelKeepsRecords(s, cmd.body, key); }
  }

  lemma ChannelKeepsRecords(s: Tenant, b: Body, key: ChannelKey)
    requires b.ChannelCreated? && ApplyChannel(s, b).Ok?
    ensures var t := ApplyChannel(s, b).tenant;
            (if key in t.transcripts then t.transcripts[key].records else []) ==
            (if key in s.transcripts then s.transcripts[key].records else [])
  {}

  /** Replay conserves the log: each transcript holds exactly the appends of the log, once, in order. */
  lemma {:induction false} TranscriptIsLog(env: Env, tenantID: string, log: seq<Entry>)
    requires Replay(env, tenantID, log).Ok?
    ensures TranscriptsMatch(Replay(env, tenantID, log).tenant, tenantID, log)
    decreases |log|
  {
    if log != [] {
      hide Agree, Apply;
      var prefix, last := log[..|log| - 1], log[|log| - 1];
      TranscriptIsLog(env, tenantID, prefix);
      ReplayAgrees(env, tenantID, prefix);
      var s := Replay(env, tenantID, prefix).tenant;
      forall key
        ensures var t := Replay(env, tenantID, log).tenant;
                SameUnsigned(if key in t.transcripts then t.transcripts[key].records else [],
                             RecordsOf(tenantID, log, key))
      {
        TranscriptStep(env, s, last.revision, last.cmd, key, RecordsOf(tenantID, prefix, key));
      }
    }
  }

  /** Sequences of a transcript are 1, 2, ... without gaps. */
  lemma SequencesHaveNoGaps(env: Env, tenantID: string, log: seq<Entry>, key: ChannelKey, i: nat)
    requires Replay(env, tenantID, log).Ok? && i < |RecordsOf(tenantID, log, key)|
    ensures RecordsOf(tenantID, log, key)[i].sequence == i + 1
  {
    hide Apply, ChannelsAgree, EventsAgree, ReceiptsAgree;
    ReplayAgrees(env, tenantID, log);
    TranscriptIsLog(env, tenantID, log);
    var s := Replay(env, tenantID, log).tenant;
    assert SameUnsigned(if key in s.transcripts then s.transcripts[key].records else [], RecordsOf(tenantID, log, key));
    assert RecordAt(s, key, i);
  }

  // ------------------------------------------------------------ exactly once

  ghost predicate Known(s: Tenant, id: Identity, eventID: string, receiptID: string) {
    id in s.events && eventID in s.events[id] && receiptID in s.receipts
  }

  lemma ApplyKeepsKnown(env: Env, s: Tenant, revision: nat, cmd: Command, id: Identity, eventID: string,
                        receiptID: string)
    requires Apply(env, s, revision, cmd).Ok? && Known(s, id, eventID, receiptID)
    ensures Known(Apply(env, s, revision, cmd).tenant, id, eventID, receiptID)
  {}

  lemma {:induction false} KnownForever(env: Env, tenantID: string, log: seq<Entry>, n: nat, m: nat, id: Identity,
                                        eventID: string, receiptID: string)
    requires n <= m <= |log| && Replay(env, tenantID, log).Ok?
    requires Replay(env, tenantID, log[..n]).Ok?
    requires Known(Replay(env, tenantID, log[..n]).tenant, id, eventID, receiptID)
    ensures Replay(env, tenantID, log[..m]).Ok? && Known(Replay(env, tenantID, log[..m]).tenant, id, eventID, receiptID)
    decreases m - n
  {
    if n < m {
      hide Apply, Known;
      ReplayStep(env, tenantID, log, n);
      ApplyKeepsKnown(env, Replay(env, tenantID, log[..n]).tenant, log[n].revision, log[n].cmd, id, eventID, receiptID);
      KnownForever(env, tenantID, log, n + 1, m, id, eventID, receiptID);
    }
  }

  lemma AppendMakesKnown(env: Env, s: Tenant, revision: nat, cmd: Command)
    requires cmd.body.RecordAppended?
    ensures Apply(env, s, revision, cmd).Ok? ==>
              Known(Apply(env, s, revision, cmd).tenant, Identity(s.tenantID, cmd.body.channelID),
                    cmd.body.eventID, cmd.body.receiptID)
    ensures Apply(env, s, revision, cmd).Ok? && Identity(s.tenantID, cmd.body.channelID) in s.events ==>
              cmd.body.eventID !in s.events[Identity(s.tenantID, cmd.body.channelID)]
    ensures Apply(env, s, revision, cmd).Ok? ==> cmd.body.receiptID !in s.receipts
  {}

  /** In a log that replays, one event ID of a channel is appended at most once, in whatever
      epochs, and one receipt ID at most once. */
  lemma AppendedAtMostOnce(env: Env, tenantID: string, log: seq<Entry>, i: nat, j: nat)
    requires i < j < |log| && Replay(env, tenantID, log).Ok?
    requires log[i].cmd.body.RecordAppended? && log[j].cmd.body.RecordAppended?
    ensures log[i].cmd.body.receiptID != log[j].cmd.body.receiptID
    ensures log[i].cmd.body.channelID == log[j].cmd.body.channelID ==>
              log[i].cmd.body.eventID != log[j].cmd.body.eventID
  {
    hide Apply;
    var a := log[i].cmd.body;
    ReplayStep(env, tenantID, log, i);
    ReplayStep(env, tenantID, log, j);
    ReplayAgrees(env, tenantID, log[..i]);
    ReplayAgrees(env, tenantID, log[..j]);
    AppendMakesKnown(env, Replay(env, tenantID, log[..i]).tenant, log[i].revision, log[i].cmd);
    AppendMakesKnown(env, Replay(env, tenantID, log[..j]).tenant, log[j].revision, log[j].cmd);
    KnownForever(env, tenantID, log, i + 1, j, Identity(tenantID, a.channelID), a.eventID, a.receiptID);
  }

  // ------------------------------------------------------------ reading a log

  /** load: replay the subject up to the head observed first. */
  method Load(env: Env, tenantID: string, log: seq<Entry>) returns (state: TenantState, ok: bool)
    ensures ok <==> Replay(env, tenantID, log).Ok?
    ensures fresh(state) && Agree(state.View())
    ensures ok ==> state.View() == Replay(env, tenantID, log).tenant
  {
    hide Agree, Apply;
    state := new TenantState(tenantID);
    var next := 0;
    assert log[..0] == [];
    while next < |log|
      invariant next <= |log| && fresh(state) && Agree(state.View())
      invariant Replay(env, tenantID, log[..next]) == Ok(state.View())
    {
      assert log[..next + 1][..next] == log[..next];
      ok := state.ApplyCommand(env, log[next].revision, log[next].cmd);
      if !ok {
        if Replay(env, tenantID, log).Ok? { ReplayPrefix(env, tenantID, log, next + 1); }
        return;
      }
      next := next + 1;
    }
    assert log[..next] == log;
    ok := true;
  }

  /** readTranscript: the page after a sequence, so record i of the page has sequence after + i + 1. */
  method ReadTranscript(t: Transcript, after: nat, limit: nat) returns (page: seq<AcceptedRecord>)
    ensures |page| == if |t.records| <= after then 0
                      else if |t.records| - after < limit then |t.records| - after else limit
    ensures forall i :: 0 <= i < |page| ==> page[i] == t.records[after + i]
  {
    var start := |t.records|;
    if after < |t.records| {
      start := after;
    }
    var end := if start + limit < |t.records| then start + limit else |t.records|;
    page := [];
    for i := start to end
      invariant page == t.records[start..i]
    {
      page := page + [t.records[i]];
    }
  }

  /** Store.Lookup on a loaded state. */
  function LookupRecord(s: Tenant, key: ChannelKey, eventID: string): Option<AcceptedRecord> {
    if key in s.transcripts && IdentityOf(key) in s.events && eventID in s.events[IdentityOf(key)]
       && s.events[IdentityOf(key)][eventID].channel == key
    then Some(s.events[IdentityOf(key)][eventID]) else None
  }

  /** Lookup finds an event exactly when the transcript holds it, and returns that copy. */
  lemma LookupFindsTranscript(s: Tenant, key: ChannelKey, eventID: string)
    requires Agree(s) && key in s.transcripts
    ensures LookupRecord(s, key, eventID).None? <==>
              forall i :: 0 <= i < |s.transcripts[key].records| ==> s.transcripts[key].records[i].eventID != eventID
    ensures LookupRecord(s, key, eventID).Some? ==>
              var r := LookupRecord(s, key, eventID).value;
              r.eventID == eventID && InTranscript(s, r) && r.channel == key && Held(s, r)
  {
    hide ChannelsAgree, ReceiptsAgree;
    if LookupRecord(s, key, eventID).Some? {
      var r := LookupRecord(s, key, eventID).value;
      assert InTranscript(s, r);
      TranscriptIsIndexed(s, r);
    } else {
      forall i | 0 <= i < |s.transcripts[key].records| ensures s.transcripts[key].records[i].eventID != eventID {
        assert RecordAt(s, key, i);
      }
    }
  }
}
