/**
 The two lease stores compared, operation by operation.  Used one call at a time, with
 Resume before every Renew and Release as internal/primitives/service.go does, they give
 the same answers and the same fencing tokens.
 */
module LeaseRefinement {
  import opened Coordination
  import M = MemoryStore
  import K = KvStore

  ghost predicate SameRecord(r: M.LeaseRecord, e: K.Entry) {
    e == K.Entry(K.Value("lease", r.holder, r.expires, r.epoch, r.released), r.revision)
  }

  /** The bucket's stream sequence is the memory store's revision counter, and every key holds the same lease. */
  ghost predicate Related(m: M.Memory, k: K.Kv) {
    && m.maxLifetime == k.maxLifetime && m.epoch == k.epoch && m.revision == k.sequence
    && m.leases.Keys == k.entries.Keys
    && (forall key :: key in m.leases ==> SameRecord(m.leases[key], k.entries[key]) && m.leases[key].epoch == m.epoch)
    && (forall key :: key in m.leases ==> ValidDigest(key) && ValidDigest(m.leases[key].holder))
  }

  lemma AcquireAgrees(m: M.Memory, k: K.Kv, key: Digest, v: Candidate, now: Time)
    requires Related(m, k)
    ensures M.Acquire(m, key, v, now).0 == K.Acquire(k, key, v, now).0
    ensures Related(M.Acquire(m, key, v, now).1, K.Acquire(k, key, v, now).1)
  {}

  lemma ReadsAgree(m: M.Memory, k: K.Kv, key: Digest, v: ResumeValue, now: Time)
    requires Related(m, k)
    ensures M.Resume(m, key, v, now) == K.Resume(k, key, v, now)
    ensures M.Inspect(m, key, v, now) == K.Inspect(k, key, v, now)
  {}

  /** Inspect answers valid exactly when Resume would succeed, in either store. */
  lemma ValidMeansResumable(m: M.Memory, k: K.Kv, key: Digest, v: ResumeValue, now: Time)
    ensures M.Inspect(m, key, v, now) == Ok(Valid) <==> M.Resume(m, key, v, now).Ok?
    ensures K.Inspect(k, key, v, now) == Ok(Valid) <==> K.Resume(k, key, v, now).Ok?
  {}

  /** Inspect answers released only for the very next revision of the bucket, so the token was the
      newest of all keys when its lease was released. */
  lemma ReleasedMeansNextRevision(m: M.Memory, key: Digest, v: ResumeValue, now: Time)
    ensures M.Inspect(m, key, v, now) == Ok(Released) <==>
              ValidDigest(key) && v.epoch == m.epoch && v.token < MAX_UINT64 && key in m.leases &&
              m.leases[key] == M.LeaseRecord(v.holder, v.expires, v.epoch, v.token + 1, true)
  {}

  lemma RenewAgrees(m: M.Memory, k: K.Kv, key: Digest, v: ResumeValue, now: Time, expires: Time, later: Time)
    requires Related(m, k) && M.Resume(m, key, v, now).Ok?
    ensures var h := M.Resume(m, key, v, now).value;
            && M.Renew(m, h, expires, later).0 == K.Renew(k, h, expires, later).0
            && Related(M.Renew(m, h, expires, later).1, K.Renew(k, h, expires, later).1)
  {}

  lemma ReleaseAgrees(m: M.Memory, k: K.Kv, key: Digest, v: ResumeValue, now: Time)
    requires Related(m, k) && M.Resume(m, key, v, now).Ok?
    ensures var h := M.Resume(m, key, v, now).value;
            && M.Release(m, h).0 == K.Release(k, h).0
            && Related(M.Release(m, h).1, K.Release(k, h).1)
  {}

  /** On any handle, stale or not, the stores disagree about a Renew exactly when the bucket holds a
      newer record of the very bytes the Renew would write. */
  lemma RenewAgreesExactly(m: M.Memory, k: K.Kv, h: Held, expires: Time, now: Time)
    requires Related(m, k) && ValidDigest(h.key) && ValidDigest(h.holder)
    ensures M.Renew(m, h, expires, now).0.Ok? == K.Renew(k, h, expires, now).0.Ok? <==>
            !(&& !h.released && now < expires <= now + m.maxLifetime && h.key in m.leases
              && m.leases[h.key].revision > h.revision
              && m.leases[h.key].holder == h.holder && m.leases[h.key].expires == expires && !m.leases[h.key].released)
  {}

  /** The same for a Release: a newer released record with the handle's own holder and expiry. */
  lemma ReleaseAgreesExactly(m: M.Memory, k: K.Kv, h: Held)
    requires Related(m, k) && ValidDigest(h.key) && ValidDigest(h.holder)
    ensures M.Release(m, h).0.Ok? == K.Release(k, h).0.Ok? <==>
            !(&& !h.released && h.key in m.leases && m.leases[h.key].revision > h.revision
              && m.leases[h.key].holder == h.holder && m.leases[h.key].expires == h.expires && m.leases[h.key].released)
  {}

  /** Such inputs arise from any lease that can be resumed: two handles on it, one renewed and the other then
      renewed to the same expiry.  The memory store refuses the second, the bucket tells it the token of the first. */
  lemma StaleRenewRejoins(m: M.Memory, k: K.Kv, key: Digest, v: ResumeValue, now: Time, expires: Time, later: Time)
    requires Related(m, k) && M.Resume(m, key, v, now).Ok? && later < expires <= later + m.maxLifetime
    requires m.leases[key].revision <= m.revision
    ensures var h := M.Resume(m, key, v, now).value;
            var (r, m1) := M.Renew(m, h, expires, later);
            var (s, k1) := K.Renew(k, h, expires, later);
            && r.Ok? && r == s && Related(m1, k1)
            && M.Renew(m1, h, expires, later).0 == Err(Conflict)
            && K.Renew(k1, h, expires, later) == (s, k1)
  {
    RenewAgrees(m, k, key, v, now, expires, later);
  }

  /** Likewise two handles on one lease, both released. */
  lemma StaleReleaseRejoins(m: M.Memory, k: K.Kv, key: Digest, v: ResumeValue, now: Time)
    requires Related(m, k) && M.Resume(m, key, v, now).Ok? && m.leases[key].revision <= m.revision
    ensures var h := M.Resume(m, key, v, now).value;
            var (r, m1) := M.Release(m, h);
            var (s, k1) := K.Release(k, h);
            && r.Ok? && r == s && Related(m1, k1)
            && M.Release(m1, h).0 == Err(Conflict)
            && K.Release(k1, h) == (s, k1)
  {
    ReleaseAgrees(m, k, key, v, now);
  }

  /** A first lease of fresh stores, so that the two lemmas above are about something. */
  lemma FreshLeaseResumes(maxLifetime: Time, epoch: nat, key: Digest, v: Candidate, now: Time)
    requires ValidDigest(key) && ValidDigest(v.holder) && v.epoch == epoch && now < v.expires <= now + maxLifetime
    ensures var m, k := M.Memory(maxLifetime, epoch, map[], 0), K.Kv(maxLifetime, epoch, map[], 0);
            var (r, m1) := M.Acquire(m, key, v, now);
            && Related(m, k) && r.Ok? && Related(m1, K.Acquire(k, key, v, now).1)
            && M.Resume(m1, key, ResumeValue(v.holder, v.expires, v.epoch, r.value.revision), now).Ok?
            && m1.leases[key].revision <= m1.revision
  {
    AcquireAgrees(M.Memory(maxLifetime, epoch, map[], 0), K.Kv(maxLifetime, epoch, map[], 0), key, v, now);
  }
}
