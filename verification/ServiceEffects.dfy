/**
 What one request to the primitives service leaves behind, over the memory stores: which
 capability can be resumed and which budget slots are live.
 */
module ServiceEffects {
  import opened Coordination
  import opened BudgetSlots
  import MB = MemoryBudget
  import ML = MemoryStore
  import BR = BudgetRefinement
  import opened PrimitivesService

  /** A memory backend in which the tokens of this principal are distinct. */
  ghost predicate Sound(b: Backend, p: Digest) {
    b.OnMemory? && Distinct(MB.EntriesOf(b.mb, p))
  }

  /** No lease is newer than the revision counter. */
  ghost predicate Counted(m: ML.Memory) {
    forall key :: key in m.leases ==> m.leases[key].revision <= m.revision
  }

  ghost function SlotsOf(b: Backend, p: Digest): set<Slot>
    requires b.OnMemory?
  {
    BudgetSlots.Slots(MB.EntriesOf(b.mb, p))
  }

  ghost predicate Timely(t: Times) { t.entry <= t.first <= t.second <= t.third }

  /** A budget call changes the slots as it means to, or leaves the live ones alone. */
  lemma AccountMeans(b: Backend, p: Digest, op: Op, epoch: nat, now: Time)
    requires Sound(b, p)
    ensures var (r, b') := Account(b, p, op, epoch, now);
            var m := Meaning(b.mb.limits, Live(SlotsOf(b, p), now), op, now);
            && Sound(b', p) && b'.ml == b.ml && b'.mb.epoch == b.mb.epoch && b'.mb.limits == b.mb.limits
            && (r.Ok? ==> ValidDigest(p) && epoch == b.mb.epoch && m.Ok? && SlotsOf(b', p) == m.value)
            && (r.Err? ==> Live(SlotsOf(b', p), now) == Live(SlotsOf(b, p), now))
            && (r.Err? && ValidDigest(p) && epoch == b.mb.epoch && !op.Reserve? && !op.Replace? ==> m.Err?)
  {
    BR.LiveTwice(SlotsOf(b, p), now, now);
    if ValidDigest(p) && epoch == b.mb.epoch {
      if op.Reserve? && !MB.ValidReserve(op.expires, now) {
      } else if op.Replace? && !MB.ValidReserve(op.expires, now) {
        BR.InvalidReplaceFails(b.mb, p, op, now);
        PruneMeans(MB.EntriesOf(b.mb, p), now);
      } else {
        BR.MemoryComputes(b.mb, p, op, now);
      }
    }
    hide Meaning, MB.Operate, Prune, Live;
  }

  /** After a reservation the live slots are the old ones and, until it expires, the reserved one. */
  lemma LiveAfterReserve(base: set<Slot>, s: Slot, first: Time, third: Time)
    requires first <= third && (forall x :: x in Live(base, first) ==> x.token != s.token)
    ensures Live(Live(base, first) + {s}, third) == Live(base, third) + (if s.expires > third then {s} else {})
    ensures forall x :: x in Live(base, third) ==> x.token != s.token
  {}

  /** The slots a reservation leaves, until its request ends. */
  ghost predicate Reserving(b: Backend, b1: Backend, p: Digest, s: Slot, first: Time) {
    && Sound(b, p) && Sound(b1, p) && SlotsOf(b1, p) == Live(SlotsOf(b, p), first) + {s} && !s.active
    && (forall x :: x in Live(SlotsOf(b, p), first) ==> x.token != s.token)
  }

  lemma ReserveMeans(b: Backend, p: Digest, token: Token, expires: Time, epoch: nat, now: Time)
    requires Sound(b, p) && Account(b, p, Reserve(token, expires), epoch, now).0.Ok?
    ensures var b1 := Account(b, p, Reserve(token, expires), epoch, now).1;
            Reserving(b, b1, p, Slot(token, PendingExpiry(b.mb.limits, expires, now), expires, false), now)
            && b1.ml == b.ml && ValidDigest(p) && epoch == b1.mb.epoch
  {
    AccountMeans(b, p, Reserve(token, expires), epoch, now);
    hide Account;
    var live := Live(SlotsOf(b, p), now);
    forall x | x in live ensures x.token != token { assert !Holds(live, token, x.active); }
  }

  /** Cancelling, or failing to commit, leaves the live slots there were before the reservation. */
  lemma CancelRestores(b: Backend, b1: Backend, p: Digest, s: Slot, epoch: nat, first: Time, third: Time)
    requires Reserving(b, b1, p, s, first) && first <= third && ValidDigest(p) && epoch == b1.mb.epoch
    ensures Live(SlotsOf(Account(b1, p, Cancel(s.token), epoch, third).1, p), third) == Live(SlotsOf(b, p), third)
    ensures Account(b1, p, Commit(s.token), epoch, third).0.Err? ==>
              Live(SlotsOf(Account(b1, p, Commit(s.token), epoch, third).1, p), third) == Live(SlotsOf(b, p), third)
  {
    var base, live := SlotsOf(b, p), Live(SlotsOf(b1, p), third);
    LiveAfterReserve(base, s, first, third);
    AccountMeans(b1, p, Cancel(s.token), epoch, third);
    AccountMeans(b1, p, Commit(s.token), epoch, third);
    BR.LiveTwice(base, third, third);
    hide Account, SlotsOf, Sound;
    if s.expires > third {
      assert Holds(live, s.token, false) by { assert s in live; }
      assert The(live, s.token, false) == s;
      assert live - {s} == Live(base, third);
    } else {
      assert !Holds(live, s.token, false);
    }
  }

  /** An Acquire that fails, at whichever step, leaves the principal's live slots exactly as they were. */
  lemma FailedAcquireLeavesSlots(svc: Service, b: Backend, q: Request, t: Times)
    requires q.AcquireLease? && Timely(t) && Sound(b, svc.budgetKey(q.identity)) && ServeAcquire(svc, b, q, t).0.Failed?
    ensures ServeAcquire(svc, b, q, t).1.OnMemory?
    ensures Live(SlotsOf(ServeAcquire(svc, b, q, t).1, svc.budgetKey(q.identity)), t.third) ==
              Live(SlotsOf(b, svc.budgetKey(q.identity)), t.third)
  {
    hide Account, Acquire, ValidCapability, ValidIdentity, ValidDigest, SlotsOf, Sound, Reserving, Live;
    SoundIsMemory(b, svc.budgetKey(q.identity));
    if q.draw.Drawn? {
      var p, token, key := svc.budgetKey(q.identity), q.draw.token, svc.leaseKey(q.identity, q.scope);
      var op := Reserve(token, q.expires);
      var (reserved, b1) := Account(b, p, op, svc.epoch, t.first);
      AccountMeans(b, p, op, svc.epoch, t.first);
      SoundIsMemory(b1, p);
      if reserved.Err? {
        BR.LiveTwice(SlotsOf(b, p), t.first, t.third);
        BR.LiveTwice(SlotsOf(b1, p), t.first, t.third);
      } else {
        ReserveMeans(b, p, token, q.expires, svc.epoch, t.first);
        var s := Slot(token, PendingExpiry(b.mb.limits, q.expires, t.first), q.expires, false);
        var b2 := Acquire(b1, key, Candidate(q.holder, q.expires, svc.epoch), t.second).1;
        LeaseKeepsReserving(b, b1, b2, key, Candidate(q.holder, q.expires, svc.epoch), t.second, p, s, t.first);
        CancelRestores(b, b2, p, s, svc.epoch, t.first, t.third);
        AccountMeans(b2, p, Cancel(token), svc.epoch, t.third);
        AccountMeans(b2, p, Commit(token), svc.epoch, t.third);
        SoundIsMemory(Account(b2, p, Cancel(token), svc.epoch, t.third).1, p);
        SoundIsMemory(Account(b2, p, Commit(token), svc.epoch, t.third).1, p);
      }
    }
  }

  lemma SoundIsMemory(b: Backend, p: Digest)
    ensures Sound(b, p) ==> b.OnMemory?
  {}

  lemma LeaseKeepsReserving(b: Backend, b1: Backend, b2: Backend, key: Digest, v: Candidate, now: Time, p: Digest,
                            s: Slot, first: Time)
    requires Reserving(b, b1, p, s, first) && b2 == Acquire(b1, key, v, now).1
    ensures Reserving(b, b2, p, s, first) && b2.mb == b1.mb
  {}

  // --------------------------------------------------------------- what succeeds

  /** Resume accepts this capability until it expires. */
  ghost predicate Resumable(b: Backend, c: Capability) {
    forall now :: now < c.expires ==> Resume(b, c.key, ResumeOf(c), now).Ok?
  }

  ghost predicate Dead(b: Backend, c: Capability) {
    forall now :: Resume(b, c.key, ResumeOf(c), now).Err?
  }

  /** A later write stands on the key of this capability. */
  ghost predicate Superseded(b: Backend, c: Capability) {
    b.OnMemory? && c.key in b.ml.leases && b.ml.leases[c.key].revision > c.fence
  }

  /** The record of this capability stands as it was granted. */
  ghost predicate Standing(b: Backend, c: Capability) {
    && b.OnMemory? && b.ml.epoch == c.epoch && ValidDigest(c.key) && c.key in b.ml.leases
    && b.ml.leases[c.key] == ML.LeaseRecord(c.holder, c.expires, c.epoch, c.fence, false)
  }

  lemma AcquiredStands(b: Backend, key: Digest, v: Candidate, now: Time, token: Token)
    requires b.OnMemory? && Acquire(b, key, v, now).0.Ok?
    ensures var (r, b') := Acquire(b, key, v, now);
            && r.value.revision == b.ml.revision + 1
            && Standing(b', Capability(key, v.holder, v.expires, v.epoch, r.value.revision, token))
  {}

  lemma SameLeasesResume(b: Backend, b': Backend, c: Capability)
    requires b.OnMemory? && b'.OnMemory? && b'.ml == b.ml
    ensures Standing(b', c) == Standing(b, c) && Dead(b', c) == Dead(b, c)
  {
    assert forall now :: Resume(b', c.key, ResumeOf(c), now) == Resume(b, c.key, ResumeOf(c), now);
  }

  lemma CommitActivates(b: Backend, b1: Backend, p: Digest, s: Slot, epoch: nat, first: Time, third: Time)
    requires Reserving(b, b1, p, s, first) && first <= third && Account(b1, p, Commit(s.token), epoch, third).0.Ok?
    ensures var b2 := Account(b1, p, Commit(s.token), epoch, third).1;
            Slot(s.token, s.leaseExpires, s.leaseExpires, true) in SlotsOf(b2, p)
  {
    AccountMeans(b1, p, Commit(s.token), epoch, third);
    LiveAfterReserve(SlotsOf(b, p), s, first, third);
    hide Account;
    var live := Live(SlotsOf(b1, p), third);
    assert The(live, s.token, false) == s;
  }

  /** A granted Acquire: a fresh fencing token, a capability resume accepts, and an active slot that expires with it. */
  lemma GrantedByAcquire(svc: Service, b: Backend, q: Request, t: Times)
    requires q.AcquireLease? && Timely(t) && Sound(b, svc.budgetKey(q.identity))
    requires ServeAcquire(svc, b, q, t).0.Granted?
    ensures var (reply, b') := ServeAcquire(svc, b, q, t);
            var c := reply.capability;
            && c.key == svc.leaseKey(q.identity, q.scope) && c.holder == q.holder && c.expires == q.expires
            && c.fence == b.ml.revision + 1
            && Standing(b', c) && Resumable(b', c)
            && b'.OnMemory? && Slot(c.tokenID, c.expires, c.expires, true) in SlotsOf(b', svc.budgetKey(q.identity))
  {
    hide Account, Acquire, ValidCapability, ValidIdentity, ValidDigest, SlotsOf, Sound, Reserving, Resumable, Standing,
         Dead;
    var p, token, key := svc.budgetKey(q.identity), q.draw.token, svc.leaseKey(q.identity, q.scope);
    SoundIsMemory(b, p);
    var b1 := Account(b, p, Reserve(token, q.expires), svc.epoch, t.first).1;
    AccountMeans(b, p, Reserve(token, q.expires), svc.epoch, t.first);
    SoundIsMemory(b1, p);
    ReserveMeans(b, p, token, q.expires, svc.epoch, t.first);
    var s, v := Slot(token, PendingExpiry(b.mb.limits, q.expires, t.first), q.expires, false),
        Candidate(q.holder, q.expires, svc.epoch);
    var b2 := Acquire(b1, key, v, t.second).1;
    AcquiredStands(b1, key, v, t.second, token);
    LeaseKeepsReserving(b, b1, b2, key, v, t.second, p, s, t.first);
    CommitActivates(b, b2, p, s, svc.epoch, t.first, t.third);
    ReservingIsSound(b, b2, p, s, t.first);
    AccountMeans(b2, p, Commit(token), svc.epoch, t.third);
    var b3 := Account(b2, p, Commit(token), svc.epoch, t.third).1;
    SoundIsMemory(b3, p);
    SameLeasesResume(b2, b3, ServeAcquire(svc, b, q, t).0.capability);
    StandingIsResumable(b3, ServeAcquire(svc, b, q, t).0.capability);
  }

  lemma ReservingIsSound(b: Backend, b1: Backend, p: Digest, s: Slot, first: Time)
    requires Reserving(b, b1, p, s, first)
    ensures Sound(b1, p) && b1.OnMemory?
  {}

  /** A renewal kills the capability it was given and makes the next one resumable; a release only kills. */
  lemma RenewedReplaces(b: Backend, c: Capability, expires: Time, epoch: nat, token: Token, now: Time, later: Time)
    requires b.OnMemory? && Counted(b.ml) && b.ml.epoch == epoch && Resume(b, c.key, ResumeOf(c), now).Ok?
    ensures var h := Resume(b, c.key, ResumeOf(c), now).value;
            && (var (r, b') := Renew(b, h, expires, later);
                r.Ok? ==> b'.OnMemory? && b'.mb == b.mb && Dead(b', c) && r.value.revision == b.ml.revision + 1
                          && Standing(b', Capability(c.key, c.holder, expires, epoch, r.value.revision, token)))
            && (var (r, b') := Release(b, h);
                r.Ok? ==> b'.OnMemory? && b'.mb == b.mb && Dead(b', c))
  {}

  /** Moving or retiring a slot leaves none for the old token. */
  lemma SlotMoves(b: Backend, p: Digest, op: Op, epoch: nat, now: Time)
    requires Sound(b, p) && (op.Replace? || op.Retire?) && Account(b, p, op, epoch, now).0.Ok?
    ensures var b' := Account(b, p, op, epoch, now).1;
            && Sound(b', p) && b'.ml == b.ml
            && (forall x :: x in SlotsOf(b', p) ==> x.token != op.token)
            && (op.Replace? ==> Slot(op.next, op.expires, op.expires, true) in SlotsOf(b', p))
  {
    AccountMeans(b, p, op, epoch, now);
    var live := Live(SlotsOf(b, p), now);
    OneSlotPerToken(b, p, now);
    hide Account;
    var s := The(live, op.token, true);
    forall x | x in live - {s} ensures x.token != op.token {}
    if op.Replace? { assert !Holds(live, op.next, true); }
  }

  lemma OneSlotPerToken(b: Backend, p: Digest, now: Time)
    requires Sound(b, p)
    ensures forall x, y :: x in Live(SlotsOf(b, p), now) && y in Live(SlotsOf(b, p), now) && x.token == y.token ==>
                x == y
  {}

  /** A granted Renew: the presented capability is dead and has no slot; the new one is resumable and owns
      an active slot. */
  lemma GrantedByRenew(svc: Service, b: Backend, q: Request, t: Times)
    requires q.RenewLease? && Sound(b, svc.budgetKey(q.identity)) && Counted(b.ml) && b.ml.epoch == svc.epoch
    requires ServeRenew(svc, b, q, t).0.Granted?
    ensures var (reply, b') := ServeRenew(svc, b, q, t);
            var c, p := reply.capability, svc.budgetKey(q.identity);
            && c.key == q.presented.key && c.holder == q.presented.holder && c.expires == q.expires
            && c.fence == b.ml.revision + 1
            && Dead(b', q.presented) && Standing(b', c) && Resumable(b', c)
            && b'.OnMemory? && Slot(c.tokenID, c.expires, c.expires, true) in SlotsOf(b', p)
            && (forall x :: x in SlotsOf(b', p) ==> x.token != q.presented.tokenID)
  {
    hide Account, Resume, Renew, Release, ValidCapability, ValidIdentity, SlotsOf, Resumable, Standing, Dead;
    var p, c0 := svc.budgetKey(q.identity), q.presented;
    var h := Resume(b, c0.key, ResumeOf(c0), t.first).value;
    RenewedReplaces(b, c0, q.expires, svc.epoch, q.draw.token, t.first, t.second);
    var b1 := Renew(b, h, q.expires, t.second).1;
    var op := Replace(c0.tokenID, q.draw.token, q.expires);
    SlotMoves(b1, p, op, svc.epoch, t.third);
    var b2 := Account(b1, p, op, svc.epoch, t.third).1;
    SameLeasesResume(b1, b2, c0);
    SameLeasesResume(b1, b2, ServeRenew(svc, b, q, t).0.capability);
    StandingIsResumable(b2, ServeRenew(svc, b, q, t).0.capability);
  }

  /** A Release that succeeds: the presented capability is dead and its slot is gone. */
  lemma DoneByRelease(svc: Service, b: Backend, q: Request, t: Times)
    requires q.ReleaseLease? && Sound(b, svc.budgetKey(q.identity)) && Counted(b.ml)
    requires ServeRelease(svc, b, q, t).0.Done?
    ensures var b' := ServeRelease(svc, b, q, t).1;
            && b'.OnMemory? && Dead(b', q.presented)
            && (forall x :: x in SlotsOf(b', svc.budgetKey(q.identity)) ==> x.token != q.presented.tokenID)
  {
    hide Account, Resume, Renew, Release, ValidCapability, ValidIdentity, SlotsOf, Resumable, Standing, Dead;
    var p, c0 := svc.budgetKey(q.identity), q.presented;
    var h := Resume(b, c0.key, ResumeOf(c0), t.first).value;
    RenewedReplaces(b, c0, 0, b.ml.epoch, 1, t.first, t.second);
    var b1 := Release(b, h).1;
    SlotMoves(b1, p, Retire(c0.tokenID), svc.epoch, t.third);
    SameLeasesResume(b1, Account(b1, p, Retire(c0.tokenID), svc.epoch, t.third).1, c0);
  }

  // ---------------------------------------------------------- what requests keep

  ghost predicate Healthy(b: Backend) {
    b.OnMemory? && Counted(b.ml) && forall p :: Sound(b, p)
  }

  lemma AccountKeepsHealthy(b: Backend, p: Digest, op: Op, epoch: nat, now: Time)
    requires Healthy(b)
    ensures Healthy(Account(b, p, op, epoch, now).1)
  {
    AccountMeans(b, p, op, epoch, now);
    hide Change, Prune, Distinct, Meaning, Live;
    var b' := Account(b, p, op, epoch, now).1;
    forall x ensures Sound(b', x) {
      assert Sound(b, x);
      if x != p { assert MB.EntriesOf(b'.mb, x) == MB.EntriesOf(b.mb, x); }
    }
  }

  lemma SameBudgetIsHealthy(b: Backend, b': Backend)
    requires Healthy(b) && b'.OnMemory? && b'.mb == b.mb && Counted(b'.ml)
    ensures Healthy(b')
  {
    hide Distinct;
    forall x ensures Sound(b', x) { assert Sound(b, x); }
  }

  lemma LeaseCallsKeepHealthy(b: Backend, key: Digest, v: Candidate, h: Held, expires: Time, now: Time)
    requires Healthy(b)
    ensures Healthy(Acquire(b, key, v, now).1) && Healthy(Renew(b, h, expires, now).1) && Healthy(Release(b, h).1)
  {
    SameBudgetIsHealthy(b, Acquire(b, key, v, now).1);
    SameBudgetIsHealthy(b, Renew(b, h, expires, now).1);
    SameBudgetIsHealthy(b, Release(b, h).1);
  }

  /** Every request keeps what the lemmas above ask of the stores. */
  lemma ServeKeepsHealthy(svc: Service, b: Backend, q: Request, t: Times)
    requires Healthy(b)
    ensures Healthy(Serve(svc, b, q, t).1)
  {
    hide Healthy, Account, Acquire, Renew, Release, Resume, ValidCapability, ValidIdentity, ValidDigest;
    match q {
      case AcquireLease(identity, scope, holder, expires, draw, _) =>
        if draw.Drawn? {
          var p, key, v := svc.budgetKey(identity), svc.leaseKey(identity, scope),
              Candidate(holder, expires, svc.epoch);
          AccountKeepsHealthy(b, p, Reserve(draw.token, expires), svc.epoch, t.first);
          var b1 := Account(b, p, Reserve(draw.token, expires), svc.epoch, t.first).1;
          LeaseCallsKeepHealthy(b1, key, v, Held(key, holder, expires, 0, false), expires, t.second);
          var b2 := Acquire(b1, key, v, t.second).1;
          AccountKeepsHealthy(b2, p, Cancel(draw.token), svc.epoch, t.third);
          AccountKeepsHealthy(b2, p, Commit(draw.token), svc.epoch, t.third);
        }
      case RenewLease(identity, c, expires, draw, _) =>
        var resumed := Resume(b, c.key, ResumeOf(c), t.first);
        if resumed.Ok? && draw.Drawn? {
          LeaseCallsKeepHealthy(b, c.key, Candidate(c.holder, expires, svc.epoch), resumed.value, expires, t.second);
          var b1 := Renew(b, resumed.value, expires, t.second).1;
          AccountKeepsHealthy(b1, svc.budgetKey(identity), Replace(c.tokenID, draw.token, expires), svc.epoch, t.third);
        } else if resumed.Ok? {
          LeaseCallsKeepHealthy(b, c.key, Candidate(c.holder, expires, svc.epoch), resumed.value, expires, t.second);
        }
      case ReleaseLease(identity, c) =>
        var resumed := Resume(b, c.key, ResumeOf(c), t.first);
        if resumed.Ok? {
          LeaseCallsKeepHealthy(b, c.key, Candidate(c.holder, c.expires, svc.epoch), resumed.value, c.expires,
                                t.second);
          AccountKeepsHealthy(Release(b, resumed.value).1, svc.budgetKey(identity), Retire(c.tokenID), svc.epoch,
                              t.third);
        }
      case InspectLease(_) =>
    }
  }

  // ------------------------------------------------------------------ whole runs

  lemma SupersededIsDead(b: Backend, c: Capability)
    requires Superseded(b, c)
    ensures Dead(b, c)
  {}

  lemma StandingIsResumable(b: Backend, c: Capability)
    requires Standing(b, c)
    ensures Resumable(b, c)
  {}

  lemma AccountKeepsLeases(b: Backend, p: Digest, op: Op, epoch: nat, now: Time)
    requires b.OnMemory?
    ensures Account(b, p, op, epoch, now).1.OnMemory? && Account(b, p, op, epoch, now).1.ml == b.ml
  {
    hide MB.Operate;
  }

  lemma AcquireKeeps(b: Backend, key: Digest, v: Candidate, now: Time, c: Capability)
    requires b.OnMemory? && Counted(b.ml)
    ensures Superseded(b, c) ==> Superseded(Acquire(b, key, v, now).1, c)
    ensures Standing(b, c) && now < c.expires ==> Standing(Acquire(b, key, v, now).1, c)
  {}

  /** A write on a resumed handle supersedes the capability presented, and touches no other standing one. */
  lemma ResumedWriteKeeps(b: Backend, shown: Capability, now: Time, expires: Time, later: Time, c: Capability)
    requires b.OnMemory? && Counted(b.ml) && Resume(b, shown.key, ResumeOf(shown), now).Ok?
    ensures var h := Resume(b, shown.key, ResumeOf(shown), now).value;
            && (Superseded(b, c) ==> Superseded(Renew(b, h, expires, later).1, c) && Superseded(Release(b, h).1, c))
            && (Renew(b, h, expires, later).0.Ok? ==> Superseded(Renew(b, h, expires, later).1, shown))
            && (Release(b, h).0.Ok? ==> Superseded(Release(b, h).1, shown))
            && (Standing(b, c) && (shown.key != c.key || shown.fence != c.fence) ==>
                Standing(Renew(b, h, expires, later).1, c) && Standing(Release(b, h).1, c))
  {}

  /** The lease store a request leaves is the one its lease call leaves. */
  ghost function LeasesAfter(svc: Service, b: Backend, q: Request, t: Times): Backend {
    match q
    case AcquireLease(_, _, _, _, _, _) =>
      Acquire(b, svc.leaseKey(q.identity, q.scope), Candidate(q.holder, q.expires, svc.epoch), t.second).1
    case RenewLease(_, c, expires, _, _) =>
      var r := Resume(b, c.key, ResumeOf(c), t.first);
      if r.Ok? then Renew(b, r.value, expires, t.second).1 else b
    case ReleaseLease(_, c) =>
      var r := Resume(b, c.key, ResumeOf(c), t.first);
      if r.Ok? then Release(b, r.value).1 else b
    case InspectLease(_) => b
  }

  lemma SameLeasesAcquire(b: Backend, b': Backend, key: Digest, v: Candidate, now: Time)
    requires b.OnMemory? && b'.OnMemory? && b'.ml == b.ml
    ensures Acquire(b', key, v, now).0 == Acquire(b, key, v, now).0 && Acquire(b', key, v, now).1.OnMemory?
    ensures Acquire(b', key, v, now).1.ml == Acquire(b, key, v, now).1.ml
  {
    hide ML.Acquire;
  }

  lemma LeasesOfAcquire(svc: Service, b: Backend, q: Request, t: Times)
    requires b.OnMemory? && q.AcquireLease?
    ensures var b' := ServeAcquire(svc, b, q, t).1;
            b'.OnMemory? && (b'.ml == b.ml || b'.ml == LeasesAfter(svc, b, q, t).ml)
  {
    hide Account, Acquire, ValidCapability, ValidIdentity, ValidDigest;
    if q.draw.Drawn? {
      var p, token, key := svc.budgetKey(q.identity), q.draw.token, svc.leaseKey(q.identity, q.scope);
      var v := Candidate(q.holder, q.expires, svc.epoch);
      AccountKeepsLeases(b, p, Reserve(token, q.expires), svc.epoch, t.first);
      var b1 := Account(b, p, Reserve(token, q.expires), svc.epoch, t.first).1;
      SameLeasesAcquire(b, b1, key, v, t.second);
      var b2 := Acquire(b1, key, v, t.second).1;
      AccountKeepsLeases(b2, p, Cancel(token), svc.epoch, t.third);
      AccountKeepsLeases(b2, p, Commit(token), svc.epoch, t.third);
    }
  }

  lemma LeasesOfRenew(svc: Service, b: Backend, q: Request, t: Times)
    requires b.OnMemory? && q.RenewLease?
    ensures var b' := ServeRenew(svc, b, q, t).1;
            b'.OnMemory? && (b'.ml == b.ml || b'.ml == LeasesAfter(svc, b, q, t).ml)
  {
    var c, r := q.presented, Resume(b, q.presented.key, ResumeOf(q.presented), t.first);
    assert r.Ok? ==> Renew(b, r.value, q.expires, t.second).1.OnMemory?;
    hide Account, Resume, Renew, ValidCapability, ValidIdentity, ValidDigest;
    if r.Ok? && q.draw.Drawn? {
      AccountKeepsLeases(Renew(b, r.value, q.expires, t.second).1, svc.budgetKey(q.identity),
                         Replace(c.tokenID, q.draw.token, q.expires), svc.epoch, t.third);
    }
  }

  lemma LeasesOfRelease(svc: Service, b: Backend, q: Request, t: Times)
    requires b.OnMemory? && q.ReleaseLease?
    ensures var b' := ServeRelease(svc, b, q, t).1;
            b'.OnMemory? && (b'.ml == b.ml || b'.ml == LeasesAfter(svc, b, q, t).ml)
  {
    var c, r := q.presented, Resume(b, q.presented.key, ResumeOf(q.presented), t.first);
    assert r.Ok? ==> Release(b, r.value).1.OnMemory?;
    hide Account, Resume, Release, ValidCapability, ValidIdentity, ValidDigest;
    if r.Ok? {
      AccountKeepsLeases(Release(b, r.value).1, svc.budgetKey(q.identity), Retire(c.tokenID), svc.epoch, t.third);
    }
  }

  lemma LeasesOfServe(svc: Service, b: Backend, q: Request, t: Times)
    requires b.OnMemory?
    ensures var b' := Serve(svc, b, q, t).1;
            b'.OnMemory? && (b'.ml == b.ml || b'.ml == LeasesAfter(svc, b, q, t).ml)
  {
    hide ServeAcquire, ServeRenew, ServeRelease, LeasesAfter;
    if q.AcquireLease? {
      LeasesOfAcquire(svc, b, q, t);
    } else if q.RenewLease? {
      LeasesOfRenew(svc, b, q, t);
    } else if q.ReleaseLease? {
      LeasesOfRelease(svc, b, q, t);
    }
  }

  lemma OnlyLeasesMatter(b: Backend, b': Backend, c: Capability)
    requires b.OnMemory? && b'.OnMemory? && b'.ml == b.ml
    ensures Superseded(b', c) == Superseded(b, c) && Standing(b', c) == Standing(b, c)
  {}

  /** This request presents the capability, or one with its key and token, to renew or release it. */
  predicate Spends(q: Request, c: Capability) {
    (q.RenewLease? || q.ReleaseLease?) && q.presented.key == c.key && q.presented.fence == c.fence
  }

  /** Superseded capabilities stay so, and a standing one stays until it expires or is presented to be
      renewed or released. */
  lemma ServeKeeps(svc: Service, b: Backend, q: Request, t: Times, c: Capability)
    requires b.OnMemory? && Counted(b.ml)
    ensures Superseded(b, c) ==> Superseded(Serve(svc, b, q, t).1, c)
    ensures Standing(b, c) && !Spends(q, c) && t.second < c.expires ==> Standing(Serve(svc, b, q, t).1, c)
  {
    LeasesOfServe(svc, b, q, t);
    var b', a := Serve(svc, b, q, t).1, LeasesAfter(svc, b, q, t);
    if q.AcquireLease? {
      AcquireKeeps(b, svc.leaseKey(q.identity, q.scope), Candidate(q.holder, q.expires, svc.epoch), t.second, c);
    } else if (q.RenewLease? || q.ReleaseLease?) && Resume(b, q.presented.key, ResumeOf(q.presented), t.first).Ok? {
      ResumedWriteKeeps(b, q.presented, t.first, if q.RenewLease? then q.expires else 0, t.second, c);
    }
    hide Serve, Acquire, Renew, Release, Resume, Superseded, Standing;
    if b'.ml == b.ml { OnlyLeasesMatter(b, b', c); } else { OnlyLeasesMatter(a, b', c); }
  }

  lemma {:induction false} RunKeepsHealthy(svc: Service, b: Backend, visits: seq<Visit>, n: nat)
    requires Healthy(b) && n <= |visits|
    ensures Healthy(Before(svc, b, visits, n))
  {
    hide Healthy, Serve;
    if n > 0 {
      RunKeepsHealthy(svc, b, visits, n - 1);
      ServeKeepsHealthy(svc, Before(svc, b, visits, n - 1), visits[n - 1].request, visits[n - 1].times);
    }
  }

  lemma {:induction false} SupersededForever(svc: Service, b: Backend, visits: seq<Visit>, i: nat, n: nat,
                                             c: Capability)
    requires Healthy(b) && i <= n <= |visits| && Superseded(Before(svc, b, visits, i), c)
    ensures Superseded(Before(svc, b, visits, n), c)
    decreases n
  {
    hide Serve, Superseded, Sound;
    if i < n {
      SupersededForever(svc, b, visits, i, n - 1, c);
      RunKeepsHealthy(svc, b, visits, n - 1);
      ServeKeeps(svc, Before(svc, b, visits, n - 1), visits[n - 1].request, visits[n - 1].times, c);
    }
  }

  /** A request that ends a capability leaves it superseded. */
  lemma EndedIsSuperseded(svc: Service, b: Backend, q: Request, t: Times)
    requires b.OnMemory? && Counted(b.ml) && Ends(q, Serve(svc, b, q, t).0)
    ensures Superseded(Serve(svc, b, q, t).1, q.presented)
  {
    var c := q.presented;
    var r := Resume(b, c.key, ResumeOf(c), t.first);
    ResumedWriteKeeps(b, c, t.first, if q.RenewLease? then q.expires else 0, t.second, c);
    if q.RenewLease? {
      var b1 := Renew(b, r.value, q.expires, t.second).1;
      assert b1.OnMemory?;
      hide Account, Resume, Renew, Release, ValidCapability, ValidIdentity, Superseded;
      var op := Replace(c.tokenID, q.draw.token, q.expires);
      AccountKeepsLeases(b1, svc.budgetKey(q.identity), op, svc.epoch, t.third);
      OnlyLeasesMatter(b1, Account(b1, svc.budgetKey(q.identity), op, svc.epoch, t.third).1, c);
    } else {
      var b1 := Release(b, r.value).1;
      assert b1.OnMemory?;
      hide Account, Resume, Renew, Release, ValidCapability, ValidIdentity, Superseded;
      AccountKeepsLeases(b1, svc.budgetKey(q.identity), Retire(c.tokenID), svc.epoch, t.third);
      OnlyLeasesMatter(b1, Account(b1, svc.budgetKey(q.identity), Retire(c.tokenID), svc.epoch, t.third).1, c);
    }
  }

  /** A granted Renew and a completed Release end the capability they were shown. */
  predicate Ends(q: Request, reply: Reply) {
    (q.RenewLease? && reply.Granted?) || (q.ReleaseLease? && reply.Done?)
  }

  /** The reply treats the presented capability as a live lease. */
  predicate Honours(reply: Reply) {
    reply.Granted? || reply.Done? || reply == Answer(Status.Valid)
  }

  lemma DeadIsNotHonoured(svc: Service, b: Backend, q: Request, t: Times)
    requires b.OnMemory? && !q.AcquireLease? && Dead(b, q.presented)
    ensures !Honours(Serve(svc, b, q, t).0)
  {
    var v := ResumeOf(q.presented);
    assert Resume(b, q.presented.key, v, t.first).Err?;
    if q.InspectLease? {
      assert Inspect(b, q.presented.key, v, t.first) != Ok(Status.Valid);
    }
    hide Resume, Renew, Release, Account, ValidCapability;
  }

  /** In every run, once a capability has been renewed or released, no later request that presents it is
      granted, completed or told that it is valid. */
  lemma NeverHonouredAgain(svc: Service, b: Backend, visits: seq<Visit>, i: nat, j: nat)
    requires Healthy(b) && i < j < |visits| && Ends(visits[i].request, ReplyAt(svc, b, visits, i))
    requires !visits[j].request.AcquireLease? && visits[j].request.presented == visits[i].request.presented
    ensures Dead(Before(svc, b, visits, j), visits[j].request.presented) && !Honours(ReplyAt(svc, b, visits, j))
  {
    var c := visits[i].request.presented;
    hide Serve, Superseded, Dead, Ends, Honours, Sound;
    RunKeepsHealthy(svc, b, visits, i);
    EndedIsSuperseded(svc, Before(svc, b, visits, i), visits[i].request, visits[i].times);
    SupersededForever(svc, b, visits, i + 1, j, c);
    SupersededIsDead(Before(svc, b, visits, j), c);
    RunKeepsHealthy(svc, b, visits, j);
    DeadIsNotHonoured(svc, Before(svc, b, visits, j), visits[j].request, visits[j].times);
  }

  /** The same of the replies of the bucket backend. */
  lemma NeverHonouredAgainByBuckets(lim: Limits, svc: Service, x: Backend, y: Backend, visits: seq<Visit>, start: Time,
                                    i: nat, j: nat)
    requires Healthy(x) && Related(lim, x, y, start) && Schedule(lim, visits, start) && i < j < |visits|
    requires Ends(visits[i].request, ReplyAt(svc, y, visits, i))
    requires !visits[j].request.AcquireLease? && visits[j].request.presented == visits[i].request.presented
    ensures !Honours(ReplyAt(svc, y, visits, j))
  {
    hide Healthy, Related, Serve, ReplyAt;
    ServiceRunsAgree(lim, svc, x, y, visits, start, i);
    ServiceRunsAgree(lim, svc, x, y, visits, start, j);
    NeverHonouredAgain(svc, x, visits, i, j);
  }

  lemma {:induction false} StandingUntilSpent(svc: Service, b: Backend, visits: seq<Visit>, i: nat, n: nat,
                                              c: Capability)
    requires Healthy(b) && i <= n <= |visits| && Standing(Before(svc, b, visits, i), c)
    requires forall j :: i <= j < n ==> !Spends(visits[j].request, c) && visits[j].times.second < c.expires
    ensures Standing(Before(svc, b, visits, n), c)
    decreases n
  {
    hide Serve, Standing, Sound, Spends;
    if i < n {
      StandingUntilSpent(svc, b, visits, i, n - 1, c);
      RunKeepsHealthy(svc, b, visits, n - 1);
      ServeKeeps(svc, Before(svc, b, visits, n - 1), visits[n - 1].request, visits[n - 1].times, c);
    }
  }

  lemma LeaseEpochStays(svc: Service, b: Backend, q: Request, t: Times)
    requires b.OnMemory?
    ensures Serve(svc, b, q, t).1.OnMemory? && Serve(svc, b, q, t).1.ml.epoch == b.ml.epoch
  {
    LeasesOfServe(svc, b, q, t);
    hide Serve;
  }

  lemma {:induction false} RunKeepsEpoch(svc: Service, b: Backend, visits: seq<Visit>, n: nat)
    requires b.OnMemory? && n <= |visits|
    ensures Before(svc, b, visits, n).OnMemory? && Before(svc, b, visits, n).ml.epoch == b.ml.epoch
  {
    hide Serve;
    if n > 0 {
      RunKeepsEpoch(svc, b, visits, n - 1);
      LeaseEpochStays(svc, Before(svc, b, visits, n - 1), visits[n - 1].request, visits[n - 1].times);
    }
  }

  lemma GrantedStands(svc: Service, b: Backend, q: Request, t: Times)
    requires Healthy(b) && b.ml.epoch == svc.epoch && Timely(t) && Serve(svc, b, q, t).0.Granted?
    ensures Standing(Serve(svc, b, q, t).1, Serve(svc, b, q, t).0.capability)
  {
    hide ServeAcquire, ServeRenew, ServeRelease, Standing, Resumable, Dead, SlotsOf, Inspect;
    if q.AcquireLease? {
      GrantedByAcquire(svc, b, q, t);
    } else if q.RenewLease? {
      GrantedByRenew(svc, b, q, t);
    } else {
      NotGranted(svc, b, q, t);
    }
  }

  lemma NotGranted(svc: Service, b: Backend, q: Request, t: Times)
    requires q.ReleaseLease? || q.InspectLease?
    ensures !Serve(svc, b, q, t).0.Granted?
  {
    hide Account, Resume, Release, Inspect, ValidCapability, ValidIdentity;
  }

  /** In every run a granted capability keeps resuming, at every time before it expires, until it is itself
      presented to be renewed or released; no other request can take it away. */
  lemma GrantedResumesUntilSpent(svc: Service, b: Backend, visits: seq<Visit>, i: nat, n: nat)
    requires Healthy(b) && b.ml.epoch == svc.epoch && i < n <= |visits| && Timely(visits[i].times)
    requires ReplyAt(svc, b, visits, i).Granted?
    requires var c := ReplyAt(svc, b, visits, i).capability;
             forall j :: i < j < n ==> !Spends(visits[j].request, c) && visits[j].times.second < c.expires
    ensures Resumable(Before(svc, b, visits, n), ReplyAt(svc, b, visits, i).capability)
  {
    hide Serve, Standing, Resumable, Spends, Sound;
    RunKeepsHealthy(svc, b, visits, i);
    RunKeepsEpoch(svc, b, visits, i);
    GrantedStands(svc, Before(svc, b, visits, i), visits[i].request, visits[i].times);
    var c := ReplyAt(svc, b, visits, i).capability;
    StandingUntilSpent(svc, b, visits, i + 1, n, c);
    StandingIsResumable(Before(svc, b, visits, n), c);
  }

  /** Fresh stores are healthy. */
  lemma FreshIsHealthy(lim: Limits, epoch: nat, maxLifetime: Time)
    ensures Healthy(OnMemory(ML.Memory(maxLifetime, epoch, map[], 0), MB.Memory(lim, epoch, map[])))
  {}
}
