/**
 internal/coordination/jetstreamkv/store.go used by one client at a time over a bucket
 that loses nothing: Create, Get and Update with compare-and-swap, and the lease
 operations above them.
 */
module KvStore {
  import opened Coordination

  datatype Value = Value(kind: string, digest: Digest, expires: Time, epoch: nat, released: bool)

  datatype Entry = Entry(value: Value, revision: nat)

  datatype Kv = Kv(maxLifetime: Time, epoch: nat, entries: map<Digest, Entry>, sequence: nat)

  predicate ValidExpiry(k: Kv, expires: Time, now: Time) {
    now < expires <= now + k.maxLifetime
  }

  /** A put that commits gets the next sequence of the bucket's stream. */
  function Put(k: Kv, key: Digest, value: Value): Kv {
    k.(sequence := k.sequence + 1, entries := k.entries[key := Entry(value, k.sequence + 1)])
  }

  /** Update with reconcileLeaseMutation behind it: the revision the caller ends up with. */
  function UpdateLease(k: Kv, key: Digest, value: Value, expected: nat): (Result<nat>, Kv) {
    if key in k.entries && k.entries[key].revision == expected then (Ok(k.sequence + 1), Put(k, key, value))
    else if key !in k.entries then (Err(Unavailable), k)
    else if k.entries[key].revision <= expected || k.entries[key].value != value then (Err(Conflict), k)
    else (Ok(k.entries[key].revision), k)
  }

  function WithRevision(r: Result<nat>, h: Held): Result<Held> {
    match r
    case Ok(revision) => Ok(h.(revision := revision))
    case Err(error) => Err(error)
  }

  function Acquire(k: Kv, key: Digest, v: Candidate, now: Time): (Result<Held>, Kv) {
    if !ValidDigest(key) || !ValidDigest(v.holder) || v.epoch != k.epoch || !ValidExpiry(k, v.expires, now)
        then (Err(InvalidArgument), k)
    else
      var raw := Value("lease", v.holder, v.expires, v.epoch, false);
      if key !in k.entries then (Ok(Held(key, v.holder, v.expires, k.sequence + 1, false)), Put(k, key, raw))
      else
        var entry := k.entries[key];
        if entry.value.kind != "lease" || entry.value.epoch != k.epoch then (Err(Conflict), k)
        else if !entry.value.released && entry.value.expires > now then (Err(Conflict), k)
        else
          var (r, k') := UpdateLease(k, key, raw, entry.revision);
          (WithRevision(r, Held(key, v.holder, v.expires, 0, false)), k')
  }

  function Resume(k: Kv, key: Digest, v: ResumeValue, now: Time): Result<Held> {
    if !ValidDigest(key) || v.epoch != k.epoch then Err(InvalidArgument)
    else if key !in k.entries then Err(Conflict)
    else
      var e := k.entries[key];
      if e.value.kind != "lease" || e.value.released || e.value.digest != v.holder || e.value.expires != v.expires
         || e.value.epoch != v.epoch || e.revision != v.token || v.expires <= now
      then Err(Conflict)
      else Ok(Held(key, v.holder, v.expires, v.token, false))
  }

  function Inspect(k: Kv, key: Digest, v: ResumeValue, now: Time): Result<Status> {
    if !ValidDigest(key) || v.epoch != k.epoch then Err(InvalidArgument)
    else if key !in k.entries then Ok(Stale)
    else
      var e := k.entries[key];
      if e.value.kind != "lease" then Err(Unavailable)
      else if e.value.digest != v.holder || e.value.expires != v.expires || e.value.epoch != v.epoch then Ok(Stale)
      else if e.value.released && v.token < MAX_UINT64 && e.revision == v.token + 1 then Ok(Released)
      else if e.value.released || e.revision != v.token then Ok(Stale)
      else if v.expires <= now then Ok(Expired)
      else Ok(Valid)
  }

  function Renew(k: Kv, h: Held, expires: Time, now: Time): (Result<Held>, Kv) {
    if h.released || !ValidExpiry(k, expires, now) then (Err(Conflict), k)
    else
      var (r, k') := UpdateLease(k, h.key, Value("lease", h.holder, expires, k.epoch, false), h.revision);
      (WithRevision(r, h.(expires := expires)), k')
  }

  function Release(k: Kv, h: Held): (Result<Held>, Kv) {
    if h.released then (Err(Conflict), k)
    else
      var (r, k') := UpdateLease(k, h.key, Value("lease", h.holder, h.expires, k.epoch, true), h.revision);
      (WithRevision(r, h.(released := true)), k')
  }

  // -------------------------------------- bucket and handles updated in place

  class Bucket {
    var entries: map<Digest, Entry>
    var sequence: nat

    constructor ()
      ensures entries == map[] && sequence == 0
    {
      entries, sequence := map[], 0;
    }

    /** revision 0: ErrKeyExists */
    method Create(key: Digest, value: Value) returns (revision: nat)
      modifies this
      ensures if key in old(entries) then revision == 0 && entries == old(entries) && sequence == old(sequence)
              else revision == sequence == old(sequence) + 1 && entries == old(entries)[key := Entry(value, revision)]
    {
      if key in entries {
        return 0;
      }
      sequence := sequence + 1;
      entries := entries[key := Entry(value, sequence)];
      return sequence;
    }

    /** revision 0: the comparison failed */
    method Update(key: Digest, value: Value, expected: nat) returns (revision: nat)
      modifies this
      ensures if key in old(entries) && old(entries)[key].revision == expected
              then revision == sequence == old(sequence) + 1 && entries == old(entries)[key := Entry(value, revision)]
              else revision == 0 && entries == old(entries) && sequence == old(sequence)
    {
      if key !in entries || entries[key].revision != expected {
        return 0;
      }
      sequence := sequence + 1;
      entries := entries[key := Entry(value, sequence)];
      return sequence;
    }
  }

  class Store {
    const maxLifetime: Time
    const epoch: nat
    const leases: Bucket

    function View(): Kv
      reads leases
    {
      Kv(maxLifetime, epoch, leases.entries, leases.sequence)
    }

    constructor (maxLifetime: Time, epoch: nat)
      ensures fresh(leases) && View() == Kv(maxLifetime, epoch, map[], 0)
    {
      var bucket := new Bucket();
      this.maxLifetime, this.epoch, this.leases := maxLifetime, epoch, bucket;
    }

    /** Update, then reconcile an error by reading the record back. */
    method Mutate(key: Digest, value: Value, expected: nat) returns (r: Result<nat>)
      modifies leases
      ensures (r, View()) == UpdateLease(old(View()), key, value, expected)
    {
      var revision := leases.Update(key, value, expected);
      if revision != 0 {
        return Ok(revision);
      }
      if key !in leases.entries {
        return Err(Unavailable);
      }
      if leases.entries[key].revision <= expected || leases.entries[key].value != value {
        return Err(Conflict);
      }
      return Ok(leases.entries[key].revision);
    }

    method AcquireLease(key: Digest, v: Candidate, now: Time) returns (error: Error, lease: Lease?)
      modifies leases
      ensures lease != null ==>
                fresh(lease) && lease.store == this && Ok(lease.View()) == Acquire(old(View()), key, v, now).0
      ensures lease == null ==> Acquire(old(View()), key, v, now).0 == Err(error)
      ensures View() == Acquire(old(View()), key, v, now).1
    {
      if !ValidDigest(key) || !ValidDigest(v.holder) || v.epoch != epoch || !ValidExpiry(View(), v.expires, now) {
        return InvalidArgument, null;
      }
      var raw := Value("lease", v.holder, v.expires, v.epoch, false);
      var revision := leases.Create(key, raw);
      if revision != 0 {
        lease := new Lease(this, key, v.holder, v.expires, revision);
        return Conflict, lease;
      }
      var entry := leases.entries[key];
      if entry.value.kind != "lease" || entry.value.epoch != epoch {
        return Conflict, null;
      }
      if !entry.value.released && entry.value.expires > now {
        return Conflict, null;
      }
      var r := Mutate(key, raw, entry.revision);
      match r {
        case Ok(updated) =>
          lease := new Lease(this, key, v.holder, v.expires, updated);
          return Conflict, lease;
        case Err(e) =>
          return e, null;
      }
    }
  }

  class Lease {
    const store: Store
    const key: Digest
    const holder: Digest
    var expires: Time
    var revision: nat
    var released: bool

    function View(): Held
      reads this
    {
      Held(key, holder, expires, revision, released)
    }

    constructor (store: Store, key: Digest, holder: Digest, expires: Time, revision: nat)
      ensures this.store == store && View() == Held(key, holder, expires, revision, false)
    {
      this.store, this.key, this.holder, this.expires, this.revision, this.released :=
          store, key, holder, expires, revision, false;
    }

    method RenewLease(until: Time, now: Time) returns (r: Result<Held>)
      modifies this, store.leases
      ensures (r, store.View()) == Renew(old(store.View()), old(View()), until, now)
      ensures View() == if r.Ok? then r.value else old(View())
    {
      if released || !ValidExpiry(store.View(), until, now) {
        return Err(Conflict);
      }
      var written := store.Mutate(key, Value("lease", holder, until, store.epoch, false), revision);
      match written {
        case Err(e) => return Err(e);
        case Ok(next) =>
          revision, expires := next, until;
          return Ok(View());
      }
    }

    method ReleaseLease() returns (r: Result<Held>)
      modifies this, store.leases
      ensures (r, store.View()) == Release(old(store.View()), old(View()))
      ensures View() == if r.Ok? then r.value else old(View())
    {
      if released {
        return Err(Conflict);
      }
      var written := store.Mutate(key, Value("lease", holder, expires, store.epoch, true), revision);
      match written {
        case Err(e) => return Err(e);
        case Ok(next) =>
          revision, released := next, true;
          return Ok(View());
      }
    }
  }
}
