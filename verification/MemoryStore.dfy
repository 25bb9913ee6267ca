/**
 internal/coordination/memory/store.go: the simple lease store, with one revision
 counter for all keys.
 */
module MemoryStore {
  import opened Coordination

  datatype LeaseRecord = LeaseRecord(holder: Digest, expires: Time, epoch: nat, revision: nat, released: bool)

  datatype Memory = Memory(maxLifetime: Time, epoch: nat, leases: map<Digest, LeaseRecord>, revision: nat)

  predicate ValidMemory(m: Memory, key: Digest, identity: Digest, expires: Time, epoch: nat, now: Time) {
    ValidDigest(key) && ValidDigest(identity) && epoch == m.epoch && now < expires <= now + m.maxLifetime
  }

  function Acquire(m: Memory, key: Digest, v: Candidate, now: Time): (Result<Held>, Memory) {
    if !ValidMemory(m, key, v.holder, v.expires, v.epoch, now) then (Err(InvalidArgument), m)
    else if key in m.leases && !m.leases[key].released && m.leases[key].expires > now then (Err(Conflict), m)
    else
      var next := m.revision + 1;
      (Ok(Held(key, v.holder, v.expires, next, false)),
       m.(revision := next, leases := m.leases[key := LeaseRecord(v.holder, v.expires, v.epoch, next, false)]))
  }

  function Resume(m: Memory, key: Digest, v: ResumeValue, now: Time): Result<Held> {
    if !ValidDigest(key) || v.epoch != m.epoch then Err(InvalidArgument)
    else if key !in m.leases then Err(Conflict)
    else
      var c := m.leases[key];
      if c.released || c.holder != v.holder || c.expires != v.expires || c.epoch != v.epoch || c.revision != v.token
          || c.expires <= now
      then Err(Conflict)
      else Ok(Held(key, c.holder, c.expires, c.revision, false))
  }

  function Inspect(m: Memory, key: Digest, v: ResumeValue, now: Time): Result<Status> {
    if !ValidDigest(key) || v.epoch != m.epoch then Err(InvalidArgument)
    else if key !in m.leases then Ok(Stale)
    else
      var c := m.leases[key];
      if c.holder != v.holder || c.expires != v.expires || c.epoch != v.epoch then Ok(Stale)
      else if c.released && v.token < MAX_UINT64 && c.revision == v.token + 1 then Ok(Released)
      else if c.revision != v.token || c.released then Ok(Stale)
      else if c.expires <= now then Ok(Expired)
      else Ok(Valid)
  }

  function Renew(m: Memory, h: Held, expires: Time, now: Time): (Result<Held>, Memory) {
    if h.released || !ValidMemory(m, h.key, h.holder, expires, m.epoch, now) then (Err(Conflict), m)
    else if h.key !in m.leases || m.leases[h.key].revision != h.revision then (Err(Conflict), m)
    else
      var next := m.revision + 1;
      (Ok(h.(revision := next, expires := expires)),
       m.(revision := next, leases := m.leases[h.key := LeaseRecord(h.holder, expires, m.epoch, next, false)]))
  }

  function Release(m: Memory, h: Held): (Result<Held>, Memory) {
    if h.released || h.key !in m.leases || m.leases[h.key].revision != h.revision then (Err(Conflict), m)
    else
      var next := m.revision + 1;
      (Ok(h.(revision := next, released := true)),
       m.(revision := next, leases := m.leases[h.key := m.leases[h.key].(revision := next, released := true)]))
  }

  // ------------------------------------------------ the store updated in place

  class Store {
    const maxLifetime: Time
    const epoch: nat
    var leases: map<Digest, LeaseRecord>
    var revision: nat

    function View(): Memory
      reads this
    {
      Memory(maxLifetime, epoch, leases, revision)
    }

    constructor (maxLifetime: Time, epoch: nat)
      ensures View() == Memory(maxLifetime, epoch, map[], 0)
    {
      this.maxLifetime, this.epoch, leases, revision := maxLifetime, epoch, map[], 0;
    }

    method AcquireLease(key: Digest, v: Candidate, now: Time) returns (error: Error, lease: Lease?)
      modifies this
      ensures lease != null ==>
                fresh(lease) && lease.store == this && Ok(lease.View()) == Acquire(old(View()), key, v, now).0
      ensures lease == null ==> Acquire(old(View()), key, v, now).0 == Err(error)
      ensures View() == Acquire(old(View()), key, v, now).1
    {
      if !ValidMemory(View(), key, v.holder, v.expires, v.epoch, now) {
        return InvalidArgument, null;
      }
      if key in leases && !leases[key].released && leases[key].expires > now {
        return Conflict, null;
      }
      revision := revision + 1;
      leases := leases[key := LeaseRecord(v.holder, v.expires, v.epoch, revision, false)];
      lease := new Lease(this, key, v.holder, v.expires, revision);
      error := Conflict;
    }

    method ResumeLease(key: Digest, v: ResumeValue, now: Time) returns (error: Error, lease: Lease?)
      ensures lease != null ==> fresh(lease) && lease.store == this && Ok(lease.View()) == Resume(View(), key, v, now)
      ensures lease == null ==> Resume(View(), key, v, now) == Err(error)
    {
      if !ValidDigest(key) || v.epoch != epoch {
        return InvalidArgument, null;
      }
      if key !in leases {
        return Conflict, null;
      }
      var c := leases[key];
      if c.released || c.holder != v.holder || c.expires != v.expires || c.epoch != v.epoch || c.revision != v.token
          || c.expires <= now {
        return Conflict, null;
      }
      lease := new Lease(this, key, c.holder, c.expires, c.revision);
      error := Conflict;
    }
  }

  class Lease {
    const store: Store
    const key: Digest
    const holder: Digest
    var expires: Time
    var revision: nat
    var released: bool

    function View(): Held
      reads this
    {
      Held(key, holder, expires, revision, released)
    }

    constructor (store: Store, key: Digest, holder: Digest, expires: Time, revision: nat)
      ensures this.store == store && View() == Held(key, holder, expires, revision, false)
    {
      this.store, this.key, this.holder, this.expires, this.revision, this.released :=
          store, key, holder, expires, revision, false;
    }

    method RenewLease(until: Time, now: Time) returns (r: Result<Held>)
      modifies this, store
      ensures (r, store.View()) == Renew(old(store.View()), old(View()), until, now)
      ensures View() == if r.Ok? then r.value else old(View())
    {
      if released || !ValidMemory(store.View(), key, holder, until, store.epoch, now) {
        return Err(Conflict);
      }
      if key !in store.leases || store.leases[key].revision != revision {
        return Err(Conflict);
      }
      store.revision := store.revision + 1;
      revision, expires := store.revision, until;
      store.leases := store.leases[key := LeaseRecord(holder, until, store.epoch, revision, false)];
      return Ok(View());
    }

    method ReleaseLease() returns (r: Result<Held>)
      modifies this, store
      ensures (r, store.View()) == Release(old(store.View()), old(View()))
      ensures View() == if r.Ok? then r.value else old(View())
    {
      if released || key !in store.leases || store.leases[key].revision != revision {
        return Err(Conflict);
      }
      store.revision := store.revision + 1;
      revision, released := store.revision, true;
      store.leases := store.leases[key := store.leases[key].(revision := revision, released := true)];
      return Ok(View());
    }
  }
}
