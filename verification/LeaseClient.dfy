/**
 The client of the concurrent lease protocol decides as the sequential store over the same
 bucket does: what it makes of a record it reads, of a comparison, and of a put that reported
 an error.
 */
module LeaseClient {
  import opened Coordination
  import LP = LeaseProtocol
  import K = KvStore

  function ValueOf(v: K.Value): LP.Value {
    LP.Value(v.digest, v.expires, v.released)
  }

  function StoredOf(e: K.Entry, at: Time): LP.Stored {
    LP.Stored(ValueOf(e.value), e.revision, at)
  }

  /** Every entry is a lease record of the bucket's epoch. */
  ghost predicate Leases(k: K.Kv) {
    forall key :: key in k.entries ==> k.entries[key].value.kind == "lease" && k.entries[key].value.epoch == k.epoch
  }

  ghost predicate Same(k: K.Kv, bucket: map<Digest, LP.Stored>) {
    && bucket.Keys == k.entries.Keys
    && forall key :: key in bucket ==> bucket[key] == StoredOf(k.entries[key], bucket[key].at)
  }

  predicate Admissible(k: K.Kv, key: Digest, v: Candidate, now: Time) {
    ValidDigest(key) && ValidDigest(v.holder) && v.epoch == k.epoch && K.ValidExpiry(k, v.expires, now)
  }

  /** A first put is the sequential Create; after one that found a record, the look at it decides as the
      sequential Acquire does: an unreleased, unexpired lease is taken and any other is replaced. */
  lemma LookIsAcquire(k: K.Kv, bucket: map<Digest, LP.Stored>, key: Digest, v: Candidate, now: Time, c: nat,
                      retention: Time)
    requires Leases(k) && Same(k, bucket) && Admissible(k, key, v, now)
    ensures var (r, k') := K.Acquire(k, key, v, now);
            var put := LP.FirstPut(c, LP.Acquire(key, v.holder, v.expires));
            && LP.ValidExpiry(LP.Config(k.maxLifetime, retention), v.expires, now)
            && put.key == key && put.value == LP.Value(v.holder, v.expires, false)
            && (LP.Matches(bucket, put) <==> key !in k.entries)
            && (key !in k.entries ==> r == Ok(Held(key, v.holder, v.expires, k.sequence + 1, false)))
            && (key in bucket ==>
                  var look := LP.AfterGet(put.value, true, bucket[key], now);
                  && (look.Taken? <==> r == Err(Conflict))
                  && (look.Replace? <==> r == Ok(Held(key, v.holder, v.expires, k.sequence + 1, false)))
                  && (look.Taken? || look.Replace?))
            && (r.Ok? ==> key in k'.entries && ValueOf(k'.entries[key].value) == put.value)
  {
    hide ValidDigest;
  }

  /** A later put commits, or is reconciled, exactly where the sequential update succeeds. */
  lemma PutIsUpdate(k: K.Kv, bucket: map<Digest, LP.Stored>, key: Digest, value: K.Value, expected: nat, m: LP.Message)
    requires Leases(k) && Same(k, bucket) && value.kind == "lease" && value.epoch == k.epoch && expected > 0
    requires m.key == key && m.value == ValueOf(value) && m.expected == expected
    ensures var (r, k') := K.UpdateLease(k, key, value, expected);
            && (r.Ok? <==> LP.Matches(bucket, m) || (key in bucket && LP.Reconciled(bucket[key], m)))
            && (LP.Matches(bucket, m) ==> r == Ok(k.sequence + 1) && k' == K.Put(k, key, value))
            && (!LP.Matches(bucket, m) ==> k' == k)
            && (!LP.Matches(bucket, m) && r.Ok? ==> r == Ok(bucket[key].revision))
  {}

  /** Resume in the protocol is Resume in the sequential store. */
  lemma ResumableIsResume(k: K.Kv, bucket: map<Digest, LP.Stored>, key: Digest, v: ResumeValue, now: Time)
    requires Leases(k) && Same(k, bucket) && ValidDigest(key) && v.epoch == k.epoch
    ensures K.Resume(k, key, v, now).Ok? <==>
            key in bucket && LP.Resumable(bucket[key], LP.Resume(key, v.holder, v.expires, v.token), now)
  {
    hide ValidDigest;
  }
}
