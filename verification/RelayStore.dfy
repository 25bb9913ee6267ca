/**
 internal/relay/store.go: the values that cross the relay's persistence port and
 the contracts every adapter enforces on them.  SHA-256 with its text encoding
 is the parameter `digest`.
 */
module RelayStore {
  type Bytes = seq<bv8>

  datatype ChannelKey = ChannelKey(tenantID: string, channelID: string, epoch: string)

  datatype Channel = Channel(key: ChannelKey, uri: string, metadata: Bytes, metadataDigest: string, lifecycle: string)

  datatype AppendIntent = AppendIntent(channel: ChannelKey, eventID: string, event: Bytes)

  datatype AcceptedRecord = AcceptedRecord(
    channel: ChannelKey, sequence: nat, eventID: string, event: Bytes, eventDigest: string,
    authenticated: Bytes, authorization: Bytes, receiptID: string, signingKeyID: string,
    algorithm: string, preimage: Bytes, signature: Bytes)

  datatype SignatureAttachment = SignatureAttachment(channel: ChannelKey, receiptID: string, preimage: Bytes,
      signature: Bytes)

  predicate CompleteKey(key: ChannelKey) {
    key.tenantID != "" && key.channelID != "" && key.epoch != ""
  }

  predicate ValidChannel(c: Channel) {
    CompleteKey(c.key) && c.uri != "" && c.metadata != [] && c.metadataDigest != "" && c.lifecycle == "active"
  }

  predicate ValidIntent(i: AppendIntent) {
    CompleteKey(i.channel) && i.eventID != "" && i.event != []
  }

  predicate ValidPreparedRecord(intent: AppendIntent, sequence: nat, eventDigest: string, r: AcceptedRecord) {
    && r.channel == intent.channel && r.sequence == sequence && r.eventID == intent.eventID
    && r.event == intent.event && r.eventDigest == eventDigest
    && r.receiptID != "" && r.signingKeyID != "" && r.algorithm != ""
    && r.authenticated != [] && r.authorization != [] && r.preimage != []
  }

  predicate ValidAttachment(a: SignatureAttachment) {
    CompleteKey(a.channel) && a.receiptID != "" && a.preimage != [] && a.signature != []
  }

  /** A stored record still is the record `seen` earlier: only a missing signature may have been added. */
  predicate Extends(stored: AcceptedRecord, seen: AcceptedRecord) {
    && stored.(signature := []) == seen.(signature := [])
    && (seen.signature != [] ==> stored.signature == seen.signature)
  }
}
