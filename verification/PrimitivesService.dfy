/**
 internal/primitives/service.go over either pair of stores.  Digests of identities and
 scopes are parameters; a sealed capability is its state; each request names the clock
 readings of its steps, the token it draws and what sealing answers.
 */
module PrimitivesService {
  import opened Coordination
  import opened Interop
  import Slots = BudgetSlots
  import ML = MemoryStore
  import KL = KvStore
  import MB = MemoryBudget
  import KB = KvBudget
  import LR = LeaseRefinement
  import BR = BudgetRefinement

  datatype Identity = Identity(tenant: string, principal: string)

  datatype Service = Service(epoch: nat, maxTTL: Time, leaseKey: (Identity, Digest) -> Digest,
      budgetKey: Identity -> Digest)

  datatype Capability = Capability(key: Digest, holder: Digest, expires: Time, epoch: nat, fence: nat, tokenID: Token)

  datatype Failure = InvalidRequest | Refused | TemporarilyUnavailable | InvariantViolation

  datatype Reply = Granted(capability: Capability) | Done | Answer(status: Status) | Failed(failure: Failure)

  datatype Draw = NoToken | Drawn(token: Token)

  /** What sealing answers: a capability, an error, or a capability of unusable length. */
  datatype Seal = Sealed | SealFailed | BadLength

  datatype Request =
    | AcquireLease(identity: Identity, scope: Digest, holder: Digest, expires: Time, draw: Draw, seal: Seal)
    | RenewLease(identity: Identity, presented: Capability, expires: Time, draw: Draw, seal: Seal)
    | ReleaseLease(identity: Identity, presented: Capability)
    | InspectLease(presented: Capability)

  /** Clock readings of the steps of one request, in order. */
  datatype Times = Times(entry: Time, first: Time, second: Time, third: Time)

  // ------------------------------------------------------------- the two backends

  datatype Backend = OnMemory(ml: ML.Memory, mb: MB.Memory) | OnKv(kl: KL.Kv, kb: KB.Kv)

  function Acquire(b: Backend, key: Digest, v: Candidate, now: Time): (Result<Held>, Backend) {
    match b
    case OnMemory(ml, _) => var (r, s) := ML.Acquire(ml, key, v, now); (r, b.(ml := s))
    case OnKv(kl, _) => var (r, s) := KL.Acquire(kl, key, v, now); (r, b.(kl := s))
  }

  function Resume(b: Backend, key: Digest, v: ResumeValue, now: Time): Result<Held> {
    match b
    case OnMemory(ml, _) => ML.Resume(ml, key, v, now)
    case OnKv(kl, _) => KL.Resume(kl, key, v, now)
  }

  function Inspect(b: Backend, key: Digest, v: ResumeValue, now: Time): Result<Status> {
    match b
    case OnMemory(ml, _) => ML.Inspect(ml, key, v, now)
    case OnKv(kl, _) => KL.Inspect(kl, key, v, now)
  }

  function Renew(b: Backend, h: Held, expires: Time, now: Time): (Result<Held>, Backend) {
    match b
    case OnMemory(ml, _) => var (r, s) := ML.Renew(ml, h, expires, now); (r, b.(ml := s))
    case OnKv(kl, _) => var (r, s) := KL.Renew(kl, h, expires, now); (r, b.(kl := s))
  }

  function Release(b: Backend, h: Held): (Result<Held>, Backend) {
    match b
    case OnMemory(ml, _) => var (r, s) := ML.Release(ml, h); (r, b.(ml := s))
    case OnKv(kl, _) => var (r, s) := KL.Release(kl, h); (r, b.(kl := s))
  }

  function Account(b: Backend, principal: Digest, op: Slots.Op, epoch: nat, now: Time): (Result<()>, Backend) {
    match b
    case OnMemory(_, mb) => var (r, s) := MB.Operate(mb, principal, op, epoch, now); (r, b.(mb := s))
    case OnKv(_, kb) => var (r, s) := KB.Operate(kb, principal, op, epoch, now); (r, b.(kb := s))
  }

  // ------------------------------------------------------------------ the service

  predicate ValidIdentifier(s: string) {
    1 <= |s| <= 256 && forall i :: 0 <= i < |s| ==>
      || 'a' <= s[i] <= 'z' || 'A' <= s[i] <= 'Z' || '0' <= s[i] <= '9'
      || s[i] == '.' || s[i] == '_' || s[i] == ':' || s[i] == '-'
  }

  predicate ValidIdentity(i: Identity) {
    ValidIdentifier(i.tenant) && ValidIdentifier(i.principal)
  }

  predicate ValidExpiry(svc: Service, expires: Time, now: Time) {
    MillisecondAligned(expires) && now < expires <= now + svc.maxTTL
  }

  function StoreFailure(e: Error): Failure {
    match e
    case InvalidArgument => InvalidRequest
    case Conflict => Refused
    case Unavailable => TemporarilyUnavailable
    case Invariant => TemporarilyUnavailable
  }

  function BudgetFailure(e: Error): Failure {
    match e
    case Unavailable => TemporarilyUnavailable
    case Conflict => TemporarilyUnavailable
    case Invariant => InvariantViolation
    case InvalidArgument => InvariantViolation
  }

  /** NewLeaseResumeValue and NewCapabilityState */
  predicate ValidCapability(c: Capability) {
    && ValidDigest(c.holder) && MillisecondAligned(c.expires) && 0 < c.epoch <= MAX_SAFE_INTEGER
    && 0 < c.fence <= MAX_SAFE_INTEGER
    && ValidDigest(c.key) && c.tokenID != 0
  }

  function ResumeOf(c: Capability): ResumeValue {
    ResumeValue(c.holder, c.expires, c.epoch, c.fence)
  }

  function Compensate(b: Backend, principal: Digest, token: Token, epoch: nat, now: Time, failure: Failure): (Reply,
                      Backend) {
    var (r, b') := Account(b, principal, Slots.Cancel(token), epoch, now);
    (if r.Err? then Failed(TemporarilyUnavailable) else Failed(failure), b')
  }

  /** Acquire: reserve a slot, acquire the lease, seal, commit the slot; cancel the slot where a step fails. */
  function ServeAcquire(svc: Service, b: Backend, q: Request, t: Times): (Reply, Backend)
    requires q.AcquireLease?
  {
    if !ValidIdentity(q.identity) || !ValidDigest(q.scope) || !ValidDigest(q.holder)
        || !ValidExpiry(svc, q.expires, t.entry) then (Failed(InvalidRequest), b)
    else if q.draw.NoToken? then (Failed(TemporarilyUnavailable), b)
    else if q.draw.token == 0 then (Failed(InvariantViolation), b)
    else
      var principal, token, key := svc.budgetKey(q.identity), q.draw.token, svc.leaseKey(q.identity, q.scope);
      var (reserved, b1) := Account(b, principal, Slots.Reserve(token, q.expires), svc.epoch, t.first);
      if reserved.Err? then (Failed(BudgetFailure(reserved.error)), b1)
      else
        var (held, b2) := Acquire(b1, key, Candidate(q.holder, q.expires, svc.epoch), t.second);
        if held.Err? then Compensate(b2, principal, token, svc.epoch, t.third, StoreFailure(held.error))
        else
          var c := Capability(key, q.holder, q.expires, svc.epoch, held.value.revision, token);
          if !ValidCapability(c) || q.seal.BadLength?
              then Compensate(b2, principal, token, svc.epoch, t.third, InvariantViolation)
          else if q.seal.SealFailed? then Compensate(b2, principal, token, svc.epoch, t.third, TemporarilyUnavailable)
          else
            var (committed, b3) := Account(b2, principal, Slots.Commit(token), svc.epoch, t.third);
            (if committed.Err? then Failed(BudgetFailure(committed.error)) else Granted(c), b3)
  }

  /** RenewOpened: resume, renew, seal, then move the slot to the new token. */
  function ServeRenew(svc: Service, b: Backend, q: Request, t: Times): (Reply, Backend)
    requires q.RenewLease?
  {
    if !ValidExpiry(svc, q.expires, t.entry) then (Failed(InvalidRequest), b)
    else if !ValidCapability(q.presented) then (Failed(InvariantViolation), b)
    else
      var resumed := Resume(b, q.presented.key, ResumeOf(q.presented), t.first);
      if resumed.Err? then (Failed(StoreFailure(resumed.error)), b)
      else
        var (renewed, b1) := Renew(b, resumed.value, q.expires, t.second);
        if renewed.Err? then (Failed(StoreFailure(renewed.error)), b1)
        else if q.draw.NoToken? then (Failed(TemporarilyUnavailable), b1)
        else if q.draw.token == 0 then (Failed(InvariantViolation), b1)
        else if !ValidIdentity(q.identity) then (Failed(InvalidRequest), b1)
        else
          var c := Capability(q.presented.key, q.presented.holder, q.expires, svc.epoch, renewed.value.revision,
                              q.draw.token);
          if !ValidCapability(c) || q.seal.BadLength? then (Failed(InvariantViolation), b1)
          else if q.seal.SealFailed? then (Failed(TemporarilyUnavailable), b1)
          else
            var op := Slots.Replace(q.presented.tokenID, q.draw.token, q.expires);
            var (replaced, b2) := Account(b1, svc.budgetKey(q.identity), op, svc.epoch, t.third);
            (if replaced.Err? then Failed(BudgetFailure(replaced.error)) else Granted(c), b2)
  }

  /** ReleaseOpened: resume, release, retire the slot. */
  function ServeRelease(svc: Service, b: Backend, q: Request, t: Times): (Reply, Backend)
    requires q.ReleaseLease?
  {
    if !ValidCapability(q.presented) then (Failed(InvariantViolation), b)
    else
      var resumed := Resume(b, q.presented.key, ResumeOf(q.presented), t.first);
      if resumed.Err? then (Failed(StoreFailure(resumed.error)), b)
      else
        var (released, b1) := Release(b, resumed.value);
        if released.Err? then (Failed(StoreFailure(released.error)), b1)
        else if !ValidIdentity(q.identity) then (Failed(InvariantViolation), b1)
        else
          var op := Slots.Retire(q.presented.tokenID);
          var (retired, b2) := Account(b1, svc.budgetKey(q.identity), op, svc.epoch, t.third);
          (if retired.Err? then Failed(BudgetFailure(retired.error)) else Done, b2)
  }

  function Serve(svc: Service, b: Backend, q: Request, t: Times): (Reply, Backend) {
    match q
    case AcquireLease(_, _, _, _, _, _) => ServeAcquire(svc, b, q, t)
    case RenewLease(_, _, _, _, _) => ServeRenew(svc, b, q, t)
    case ReleaseLease(_, _) => ServeRelease(svc, b, q, t)
    case InspectLease(presented) =>
      if !ValidCapability(presented) then (Failed(InvariantViolation), b)
      else match Inspect(b, presented.key, ResumeOf(presented), t.first)
        case Ok(status) => (Answer(status), b)
        case Err(error) => (Failed(StoreFailure(error)), b)
  }

  // --------------------------------------------- the service over the memory stores

  class MemoryService {
    const svc: Service
    const leases: ML.Store
    const budget: MB.CapabilityBudget

    function View(): Backend
      reads leases, budget
    {
      OnMemory(leases.View(), budget.View())
    }

    constructor (svc: Service, leases: ML.Store, budget: MB.CapabilityBudget)
      ensures this.svc == svc && this.leases == leases && this.budget == budget
    {
      this.svc, this.leases, this.budget := svc, leases, budget;
    }

    /** Give the reserved slot back after a step failed. */
    method CancelSlot(principal: Digest, token: Token, now: Time, failure: Failure) returns (reply: Reply)
      modifies budget
      ensures (reply, View()) == Compensate(old(View()), principal, token, svc.epoch, now, failure)
    {
      hide MB.Operate;
      var cancelled := budget.Cancel(principal, token, svc.epoch, now);
      return Failed(if cancelled.Err? then TemporarilyUnavailable else failure);
    }

    method AcquireCapability(q: Request, t: Times) returns (reply: Reply)
      requires q.AcquireLease?
      modifies leases, budget
      ensures (reply, View()) == ServeAcquire(svc, old(View()), q, t)
    {
      hide MB.Operate, ML.Acquire, ValidIdentity, ValidDigest, Compensate;
      if !ValidIdentity(q.identity) || !ValidDigest(q.scope) || !ValidDigest(q.holder)
          || !ValidExpiry(svc, q.expires, t.entry) {
        return Failed(InvalidRequest);
      }
      if q.draw.NoToken? { return Failed(TemporarilyUnavailable); }
      if q.draw.token == 0 { return Failed(InvariantViolation); }
      var principal, token, key := svc.budgetKey(q.identity), q.draw.token, svc.leaseKey(q.identity, q.scope);
      var reserved := budget.Reserve(principal, token, q.expires, svc.epoch, t.first);
      match reserved {
        case Err(error) => return Failed(BudgetFailure(error));
        case Ok(_) =>
      }
      var error, held := leases.AcquireLease(key, Candidate(q.holder, q.expires, svc.epoch), t.second);
      if held == null {
        reply := CancelSlot(principal, token, t.third, StoreFailure(error));
        return;
      }
      var c := Capability(key, q.holder, q.expires, svc.epoch, held.revision, token);
      if !ValidCapability(c) || q.seal.BadLength? {
        reply := CancelSlot(principal, token, t.third, InvariantViolation);
        return;
      }
      if q.seal.SealFailed? {
        reply := CancelSlot(principal, token, t.third, TemporarilyUnavailable);
        return;
      }
      var committed := budget.Commit(principal, token, svc.epoch, t.third);
      match committed {
        case Err(e) => return Failed(BudgetFailure(e));
        case Ok(_) => return Granted(c);
      }
    }

    method RenewCapability(q: Request, t: Times) returns (reply: Reply)
      requires q.RenewLease?
      modifies leases, budget
      ensures (reply, View()) == ServeRenew(svc, old(View()), q, t)
    {
      hide MB.Operate, ML.Resume, ML.Renew, ValidIdentity, ValidDigest, ValidCapability;
      if !ValidExpiry(svc, q.expires, t.entry) { return Failed(InvalidRequest); }
      if !ValidCapability(q.presented) { return Failed(InvariantViolation); }
      var error, held := leases.ResumeLease(q.presented.key, ResumeOf(q.presented), t.first);
      if held == null { return Failed(StoreFailure(error)); }
      var renewed := held.RenewLease(q.expires, t.second);
      match renewed {
        case Err(e) => return Failed(StoreFailure(e));
        case Ok(_) =>
      }
      if q.draw.NoToken? { return Failed(TemporarilyUnavailable); }
      if q.draw.token == 0 { return Failed(InvariantViolation); }
      if !ValidIdentity(q.identity) { return Failed(InvalidRequest); }
      var c := Capability(q.presented.key, q.presented.holder, q.expires, svc.epoch, held.revision, q.draw.token);
      if !ValidCapability(c) || q.seal.BadLength? { return Failed(InvariantViolation); }
      if q.seal.SealFailed? { return Failed(TemporarilyUnavailable); }
      var replaced := budget.Replace(svc.budgetKey(q.identity), q.presented.tokenID, q.draw.token, q.expires,
          svc.epoch, t.third);
      match replaced {
        case Err(e) => return Failed(BudgetFailure(e));
        case Ok(_) => return Granted(c);
      }
    }

    method ReleaseCapability(q: Request, t: Times) returns (reply: Reply)
      requires q.ReleaseLease?
      modifies leases, budget
      ensures (reply, View()) == ServeRelease(svc, old(View()), q, t)
    {
      hide MB.Operate, ML.Resume, ML.Release, ValidIdentity, ValidDigest, ValidCapability;
      if !ValidCapability(q.presented) { return Failed(InvariantViolation); }
      var error, held := leases.ResumeLease(q.presented.key, ResumeOf(q.presented), t.first);
      if held == null { return Failed(StoreFailure(error)); }
      var released := held.ReleaseLease();
      match released {
        case Err(e) => return Failed(StoreFailure(e));
        case Ok(_) =>
      }
      if !ValidIdentity(q.identity) { return Failed(InvariantViolation); }
      var retired := budget.Retire(svc.budgetKey(q.identity), q.presented.tokenID, svc.epoch, t.third);
      match retired {
        case Err(e) => return Failed(BudgetFailure(e));
        case Ok(_) => return Done;
      }
    }
  }

  // ------------------------------------------------------------------- refinement

  ghost predicate Related(lim: Slots.Limits, x: Backend, y: Backend, now: Time) {
    x.OnMemory? && y.OnKv? && y.kb.limits == lim && LR.Related(x.ml, y.kl) && BR.Related(x.mb, y.kb, now)
  }

  /** A memory backend and a bucket backend that nobody has used yet are related. */
  lemma FreshBackendsRelated(lim: Slots.Limits, epoch: nat, maxLifetime: Time, timeText: Time -> nat, now: Time)
    requires BR.Configured(KB.Kv(lim, epoch, timeText, map[]))
    ensures Related(lim, OnMemory(ML.Memory(maxLifetime, epoch, map[], 0), MB.Memory(lim, epoch, map[])),
                    OnKv(KL.Kv(maxLifetime, epoch, map[], 0), KB.Kv(lim, epoch, timeText, map[])), now)
  {
    BR.EmptyBudgetsRelated(lim, epoch, timeText, now);
  }

  ghost predicate Ordered(t: Times, start: Time) {
    start <= t.entry <= t.first <= t.second <= t.third
  }

  /** If this Acquire reserves a slot, its pending expiry is a whole millisecond. */
  ghost predicate Readable(lim: Slots.Limits, q: Request, t: Times) {
    q.AcquireLease? && MillisecondAligned(q.expires) ==>
        MillisecondAligned(Slots.PendingExpiry(lim, q.expires, t.first))
  }

  /** An aligned clock and an aligned pending lifetime make every request readable. */
  lemma AlignedIsReadable(lim: Slots.Limits, q: Request, t: Times)
    requires MillisecondAligned(lim.pendingTTL) && MillisecondAligned(t.first)
    ensures Readable(lim, q, t)
  {}

  /** The same reply; only for a Renew whose new expiry has passed when its slot is moved may the memory
      backend report unavailability where the bucket backend reports a violated invariant. */
  predicate SameReply(q: Request, t: Times, a: Reply, b: Reply) {
    || a == b
    || (q.RenewLease? && q.expires <= t.third && a == Failed(TemporarilyUnavailable) && b == Failed(InvariantViolation))
  }

  lemma AccountAgrees(lim: Slots.Limits, x: Backend, y: Backend, p: Digest, op: Slots.Op, epoch: nat, before: Time,
                      now: Time)
    requires Related(lim, x, y, before) && before <= now && BR.Readable(lim, op, now)
    ensures Related(lim, Account(x, p, op, epoch, now).1, Account(y, p, op, epoch, now).1, now)
    ensures BR.SameResult(op, now, Account(x, p, op, epoch, now).0, Account(y, p, op, epoch, now).0)
  {
    BR.OperateAgrees(x.mb, y.kb, p, op, epoch, before, now);
    BR.KvKeepsLimits(y.kb, p, op, epoch, now);
    hide LR.Related, BR.Related, MB.Operate, KB.Operate, BR.Readable, BR.SameResult;
  }

  lemma CompensateAgrees(lim: Slots.Limits, x: Backend, y: Backend, p: Digest, token: Token, epoch: nat, before: Time,
                         now: Time, failure: Failure)
    requires Related(lim, x, y, before) && before <= now
    ensures Compensate(x, p, token, epoch, now, failure).0 == Compensate(y, p, token, epoch, now, failure).0
    ensures Related(lim, Compensate(x, p, token, epoch, now, failure).1,
              Compensate(y, p, token, epoch, now, failure).1, now)
  {
    AccountAgrees(lim, x, y, p, Slots.Cancel(token), epoch, before, now);
    hide Related, Account;
  }

  lemma AcquireStepAgrees(lim: Slots.Limits, x: Backend, y: Backend, key: Digest, v: Candidate, before: Time, now: Time)
    requires Related(lim, x, y, before)
    ensures Acquire(x, key, v, now).0 == Acquire(y, key, v, now).0
    ensures Related(lim, Acquire(x, key, v, now).1, Acquire(y, key, v, now).1, before)
  {
    LR.AcquireAgrees(x.ml, y.kl, key, v, now);
    hide LR.Related, BR.Related, ML.Acquire, KL.Acquire;
  }

  lemma LaterRelated(lim: Slots.Limits, x: Backend, y: Backend, before: Time, now: Time)
    requires Related(lim, x, y, before) && before <= now
    ensures Related(lim, x, y, now)
  {
    BR.LaterRelated(x.mb, y.kb, before, now);
  }

  lemma ServeAcquireAgrees(lim: Slots.Limits, svc: Service, x: Backend, y: Backend, q: Request, t: Times, start: Time)
    requires q.AcquireLease? && Related(lim, x, y, start) && Ordered(t, start) && Readable(lim, q, t)
    ensures ServeAcquire(svc, x, q, t).0 == ServeAcquire(svc, y, q, t).0
    ensures Related(lim, ServeAcquire(svc, x, q, t).1, ServeAcquire(svc, y, q, t).1, t.third)
  {
    hide Related, Account, Acquire, Compensate, ValidIdentity, ValidCapability, ValidDigest;
    LaterRelated(lim, x, y, start, t.third);
    if q.draw.Drawn? && MillisecondAligned(q.expires) {
      var principal, token, key := svc.budgetKey(q.identity), q.draw.token, svc.leaseKey(q.identity, q.scope);
      AccountAgrees(lim, x, y, principal, Slots.Reserve(token, q.expires), svc.epoch, start, t.first);
      var x1, y1 := Account(x, principal, Slots.Reserve(token, q.expires), svc.epoch, t.first).1,
          Account(y, principal, Slots.Reserve(token, q.expires), svc.epoch, t.first).1;
      LaterRelated(lim, x1, y1, t.first, t.third);
      var v := Candidate(q.holder, q.expires, svc.epoch);
      AcquireStepAgrees(lim, x1, y1, key, v, t.first, t.second);
      var held, x2 := Acquire(x1, key, v, t.second).0, Acquire(x1, key, v, t.second).1;
      var y2 := Acquire(y1, key, v, t.second).1;
      if held.Err? {
        CompensateAgrees(lim, x2, y2, principal, token, svc.epoch, t.first, t.third, StoreFailure(held.error));
      } else {
        CompensateAgrees(lim, x2, y2, principal, token, svc.epoch, t.first, t.third, InvariantViolation);
        CompensateAgrees(lim, x2, y2, principal, token, svc.epoch, t.first, t.third, TemporarilyUnavailable);
        AccountAgrees(lim, x2, y2, principal, Slots.Commit(token), svc.epoch, t.first, t.third);
      }
    }
  }

  lemma RenewStepAgrees(lim: Slots.Limits, x: Backend, y: Backend, key: Digest, v: ResumeValue, expires: Time,
                        before: Time, now: Time, later: Time)
    requires Related(lim, x, y, before)
    ensures Resume(x, key, v, now) == Resume(y, key, v, now)
    ensures Resume(x, key, v, now).Ok? ==>
              var h := Resume(x, key, v, now).value;
              && Renew(x, h, expires, later).0 == Renew(y, h, expires, later).0
              && Related(lim, Renew(x, h, expires, later).1, Renew(y, h, expires, later).1, before)
  {
    LR.ReadsAgree(x.ml, y.kl, key, v, now);
    if Resume(x, key, v, now).Ok? {
      LR.RenewAgrees(x.ml, y.kl, key, v, now, expires, later);
      hide LR.Related, BR.Related, ML.Renew, KL.Renew;
    }
  }

  lemma ReleaseStepAgrees(lim: Slots.Limits, x: Backend, y: Backend, key: Digest, v: ResumeValue, before: Time,
                          now: Time)
    requires Related(lim, x, y, before)
    ensures Resume(x, key, v, now) == Resume(y, key, v, now)
    ensures Resume(x, key, v, now).Ok? ==>
              var h := Resume(x, key, v, now).value;
              Release(x, h).0 == Release(y, h).0 && Related(lim, Release(x, h).1, Release(y, h).1, before)
  {
    LR.ReadsAgree(x.ml, y.kl, key, v, now);
    if Resume(x, key, v, now).Ok? {
      LR.ReleaseAgrees(x.ml, y.kl, key, v, now);
      hide LR.Related, BR.Related, ML.Release, KL.Release;
    }
  }

  lemma ServeRenewAgrees(lim: Slots.Limits, svc: Service, x: Backend, y: Backend, q: Request, t: Times, start: Time)
    requires q.RenewLease? && Related(lim, x, y, start) && Ordered(t, start)
    ensures SameReply(q, t, ServeRenew(svc, x, q, t).0, ServeRenew(svc, y, q, t).0)
    ensures Related(lim, ServeRenew(svc, x, q, t).1, ServeRenew(svc, y, q, t).1, t.third)
  {
    hide Related, Account, Resume, Renew, ValidIdentity, ValidCapability, ValidDigest;
    LaterRelated(lim, x, y, start, t.third);
    var v := ResumeOf(q.presented);
    RenewStepAgrees(lim, x, y, q.presented.key, v, q.expires, start, t.first, t.second);
    var resumed := Resume(x, q.presented.key, v, t.first);
    if resumed.Ok? {
      var x1, y1 := Renew(x, resumed.value, q.expires, t.second).1, Renew(y, resumed.value, q.expires, t.second).1;
      LaterRelated(lim, x1, y1, start, t.third);
      if q.draw.Drawn? {
        var op := Slots.Replace(q.presented.tokenID, q.draw.token, q.expires);
        AccountAgrees(lim, x1, y1, svc.budgetKey(q.identity), op, svc.epoch, start, t.third);
      }
    }
  }

  lemma ServeReleaseAgrees(lim: Slots.Limits, svc: Service, x: Backend, y: Backend, q: Request, t: Times, start: Time)
    requires q.ReleaseLease? && Related(lim, x, y, start) && Ordered(t, start)
    ensures ServeRelease(svc, x, q, t).0 == ServeRelease(svc, y, q, t).0
    ensures Related(lim, ServeRelease(svc, x, q, t).1, ServeRelease(svc, y, q, t).1, t.third)
  {
    hide Related, Account, Resume, Release, ValidIdentity, ValidCapability, ValidDigest;
    LaterRelated(lim, x, y, start, t.third);
    var v := ResumeOf(q.presented);
    ReleaseStepAgrees(lim, x, y, q.presented.key, v, start, t.first);
    var resumed := Resume(x, q.presented.key, v, t.first);
    if resumed.Ok? {
      var x1, y1 := Release(x, resumed.value).1, Release(y, resumed.value).1;
      LaterRelated(lim, x1, y1, start, t.third);
      var op := Slots.Retire(q.presented.tokenID);
      AccountAgrees(lim, x1, y1, svc.budgetKey(q.identity), op, svc.epoch, start, t.third);
    }
  }

  /** One request: the same reply from both backends, with the same fencing token, and the stores stay related. */
  lemma ServeAgrees(lim: Slots.Limits, svc: Service, x: Backend, y: Backend, q: Request, t: Times, start: Time)
    requires Related(lim, x, y, start) && Ordered(t, start) && Readable(lim, q, t)
    ensures SameReply(q, t, Serve(svc, x, q, t).0, Serve(svc, y, q, t).0)
    ensures Related(lim, Serve(svc, x, q, t).1, Serve(svc, y, q, t).1, t.third)
  {
    match q {
      case AcquireLease(_, _, _, _, _, _) => ServeAcquireAgrees(lim, svc, x, y, q, t, start);
      case RenewLease(_, _, _, _, _) => ServeRenewAgrees(lim, svc, x, y, q, t, start);
      case ReleaseLease(_, _) => ServeReleaseAgrees(lim, svc, x, y, q, t, start);
      case InspectLease(presented) =>
        LR.ReadsAgree(x.ml, y.kl, presented.key, ResumeOf(presented), t.first);
        LaterRelated(lim, x, y, start, t.third);
    }
    hide Related, ServeAcquire, ServeRenew, ServeRelease;
  }

  // ------------------------------------------------------------------ whole runs

  datatype Visit = Visit(request: Request, times: Times)

  ghost predicate Schedule(lim: Slots.Limits, visits: seq<Visit>, start: Time) {
    && (forall i :: 0 <= i < |visits| ==> Ordered(visits[i].times, start))
    && (forall i :: 0 <= i < |visits| ==> Readable(lim, visits[i].request, visits[i].times))
    && (forall i, j :: 0 <= i < j < |visits| ==> visits[i].times.third <= visits[j].times.entry)
  }

  /** The stores before visit `n`. */
  ghost function Before(svc: Service, b: Backend, visits: seq<Visit>, n: nat): Backend
    requires n <= |visits|
  {
    if n == 0 then b
    else Serve(svc, Before(svc, b, visits, n - 1), visits[n - 1].request, visits[n - 1].times).1
  }

  ghost function ReplyAt(svc: Service, b: Backend, visits: seq<Visit>, n: nat): Reply
    requires n < |visits|
  {
    Serve(svc, Before(svc, b, visits, n), visits[n].request, visits[n].times).0
  }

  ghost function TimeBefore(visits: seq<Visit>, start: Time, n: nat): Time
    requires n <= |visits|
  {
    if n == 0 then start else visits[n - 1].times.third
  }

  lemma {:induction false} RunsStayRelated(lim: Slots.Limits, svc: Service, x: Backend, y: Backend, visits: seq<Visit>,
                                           start: Time, n: nat)
    requires Related(lim, x, y, start) && Schedule(lim, visits, start) && n <= |visits|
    ensures Related(lim, Before(svc, x, visits, n), Before(svc, y, visits, n), TimeBefore(visits, start, n))
  {
    hide Related, Serve, SameReply, Readable;
    if n > 0 {
      RunsStayRelated(lim, svc, x, y, visits, start, n - 1);
      assert Ordered(visits[n - 1].times, TimeBefore(visits, start, n - 1));
      ServeAgrees(lim, svc, Before(svc, x, visits, n - 1), Before(svc, y, visits, n - 1),
                  visits[n - 1].request, visits[n - 1].times, TimeBefore(visits, start, n - 1));
    }
  }

  /** Any sequence of requests gets the same replies, with the same fencing tokens, from the memory stores
      and from the bucket stores. */
  lemma ServiceRunsAgree(lim: Slots.Limits, svc: Service, x: Backend, y: Backend, visits: seq<Visit>, start: Time,
                         n: nat)
    requires Related(lim, x, y, start) && Schedule(lim, visits, start) && n < |visits|
    ensures SameReply(visits[n].request, visits[n].times, ReplyAt(svc, x, visits, n), ReplyAt(svc, y, visits, n))
  {
    hide Related, Serve, SameReply, Readable, Before;
    RunsStayRelated(lim, svc, x, y, visits, start, n);
    assert Ordered(visits[n].times, TimeBefore(visits, start, n));
    ServeAgrees(lim, svc, Before(svc, x, visits, n), Before(svc, y, visits, n),
                visits[n].request, visits[n].times, TimeBefore(visits, start, n));
  }
}
