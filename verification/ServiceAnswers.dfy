/**
 What internal/primitives/service.go answers, said over the lease table and the live budget
 slots of the memory stores: exactly when a request succeeds, and which failure each refusal
 gives.  The bucket stores answer alike by PrimitivesService.ServeAgrees.
 */
module ServiceAnswers {
  import opened Coordination
  import opened BudgetSlots
  import MB = MemoryBudget
  import ML = MemoryStore
  import BR = BudgetRefinement
  import opened PrimitivesService
  import opened ServiceEffects

  /** The service and its stores were opened for one epoch, and the budget's principals are digests. */
  ghost predicate Deployed(svc: Service, b: Backend, identity: Identity) {
    && b.OnMemory? && b.ml.epoch == b.mb.epoch == svc.epoch && 0 < svc.epoch < 9_007_199_254_740_992
    && Sound(b, svc.budgetKey(identity)) && ValidDigest(svc.budgetKey(identity))
  }

  /** Nobody holds the key at this time. */
  predicate Free(b: Backend, key: Digest, now: Time)
    requires b.OnMemory?
  {
    key in b.ml.leases ==> b.ml.leases[key].released || b.ml.leases[key].expires <= now
  }

  ghost predicate Used(b: Backend, p: Digest, token: Token, now: Time)
    requires b.OnMemory?
  {
    exists s :: s in SlotsOf(b, p) && s.expires > now && s.token == token
  }

  /** The token has an active slot that has not expired. */
  ghost predicate Owned(b: Backend, p: Digest, token: Token, now: Time)
    requires b.OnMemory?
  {
    exists s :: s in SlotsOf(b, p) && s.expires > now && s.token == token && s.active
  }

  ghost function LiveCount(b: Backend, p: Digest, now: Time): nat
    requires b.OnMemory?
  {
    |set s | s in SlotsOf(b, p) && s.expires > now|
  }

  // ------------------------------------------------------------- budget calls

  lemma ReserveAnswers(b: Backend, p: Digest, token: Token, expires: Time, now: Time)
    requires Sound(b, p) && ValidDigest(p)
    ensures var r := Account(b, p, Reserve(token, expires), b.mb.epoch, now).0;
            if !MillisecondAligned(expires) || expires <= now then r == Err(InvalidArgument)
            else if Used(b, p, token, now) then r == Err(Conflict)
            else if LiveCount(b, p, now) >= b.mb.limits.limit then r == Err(Unavailable)
            else r.Ok?
  {
    var live := Live(SlotsOf(b, p), now);
    if MB.ValidReserve(expires, now) { BR.MemoryComputes(b.mb, p, Reserve(token, expires), now); }
    hide Prune, Change, Distinct;
    assert Used(b, p, token, now) <==> Holds(live, token, true) || Holds(live, token, false) by {
      if Used(b, p, token, now) {
        var s :| s in SlotsOf(b, p) && s.expires > now && s.token == token;
        assert s in live && Holds(live, token, s.active);
      }
    }
  }

  /** A reservation can be settled, either way, exactly until it expires. */
  lemma SettleAnswers(b: Backend, b1: Backend, p: Digest, s: Slot, first: Time, third: Time)
    requires Reserving(b, b1, p, s, first) && first <= third && ValidDigest(p)
    ensures var cancelled := Account(b1, p, Cancel(s.token), b1.mb.epoch, third).0;
            var committed := Account(b1, p, Commit(s.token), b1.mb.epoch, third).0;
            if s.expires > third then cancelled.Ok? && committed.Ok?
            else cancelled == Err(Conflict) && committed == Err(Conflict)
  {
    BR.MemoryComputes(b1.mb, p, Cancel(s.token), third);
    BR.MemoryComputes(b1.mb, p, Commit(s.token), third);
    LiveAfterReserve(SlotsOf(b, p), s, first, third);
    hide Account, Distinct, Prune, Change, MB.Operate;
    var live := Live(SlotsOf(b1, p), third);
    if s.expires > third {
      assert s in live;
    } else {
      assert !Holds(live, s.token, false);
    }
  }

  lemma MoveAnswers(b: Backend, p: Digest, op: Op, now: Time)
    requires Sound(b, p) && ValidDigest(p) && (op.Replace? || op.Retire?)
    ensures var r := Account(b, p, op, b.mb.epoch, now).0;
            if !Owned(b, p, op.token, now) || (op.Replace? && Used(b, p, op.next, now)) then r == Err(Conflict)
            else if op.Replace? && (!MillisecondAligned(op.expires) || op.expires <= now) then r == Err(InvalidArgument)
            else r.Ok?
  {
    var live, entries := Live(SlotsOf(b, p), now), Prune(MB.EntriesOf(b.mb, p), now);
    PruneMeans(MB.EntriesOf(b.mb, p), now);
    ChangeMeans(b.mb.limits, entries, op, now);
    hide Prune, Change, Distinct;
    assert Owned(b, p, op.token, now) <==> Holds(live, op.token, true);
    if op.Replace? {
      assert Used(b, p, op.next, now) <==> Holds(live, op.next, true) || Holds(live, op.next, false) by {
        if Used(b, p, op.next, now) {
          var s :| s in SlotsOf(b, p) && s.expires > now && s.token == op.next;
          assert s in live && Holds(live, op.next, s.active);
        }
      }
    }
  }

  // ----------------------------------------------------------------- names and digests

  predicate Over(s: string, letters: string) {
    forall i :: 0 <= i < |s| ==> s[i] in letters
  }

  /** Digests are 64 lower-case hexadecimal digits; tenants and principals are 1 to 256 letters, digits and four
      punctuation marks. */
  lemma NamesAndDigests(s: string)
    ensures ValidDigest(s) <==> |s| == 64 && Over(s, "0123456789abcdef")
    ensures ValidIdentifier(s) <==>
            && 1 <= |s| <= 256
            && Over(s, "abcdefghijklmnopqrstuvwxyz" + "ABCDEFGHIJKLMNOPQRSTUVWXYZ" + "0123456789" + "._:-")
  {
    forall c: char ensures c in "0123456789abcdef" <==> '0' <= c <= '9' || 'a' <= c <= 'f' { Hexadecimal(c); }
    forall c: char
      ensures c in "abcdefghijklmnopqrstuvwxyz" + "ABCDEFGHIJKLMNOPQRSTUVWXYZ" + "0123456789" + "._:-" <==>
              'a' <= c <= 'z' || 'A' <= c <= 'Z' || '0' <= c <= '9' || c == '.' || c == '_' || c == ':' || c == '-'
    {
      Letters(c);
    }
  }

  lemma Hexadecimal(c: char)
    ensures c in "0123456789abcdef" <==> '0' <= c <= '9' || 'a' <= c <= 'f'
  {
    var all := "0123456789abcdef";
    assert |all| == 16;
    if '0' <= c <= '9' { assert all[c as int - '0' as int] == c; }
    if 'a' <= c <= 'f' { assert all[c as int - 'a' as int + 10] == c; }
  }

  lemma Letters(c: char)
    ensures c in "abcdefghijklmnopqrstuvwxyz" <==> 'a' <= c <= 'z'
    ensures c in "ABCDEFGHIJKLMNOPQRSTUVWXYZ" <==> 'A' <= c <= 'Z'
    ensures c in "0123456789" <==> '0' <= c <= '9'
    ensures c in "._:-" <==> c == '.' || c == '_' || c == ':' || c == '-'
  {
    Run("abcdefghijklmnopqrstuvwxyz", 'a', c);
    Run("ABCDEFGHIJKLMNOPQRSTUVWXYZ", 'A', c);
    Run("0123456789", '0', c);
    assert "._:-"[0] == '.' && "._:-"[1] == '_' && "._:-"[2] == ':' && "._:-"[3] == '-';
  }

  /** Consecutive letters are the ones between the first and the last. */
  lemma Run(all: string, first: char, c: char)
    requires 0 < |all| < 1000 && first as int + |all| < 1000
    requires forall i :: 0 <= i < |all| ==> all[i] as int == first as int + i
    ensures c in all <==> first as int <= c as int < first as int + |all|
  {
    if first as int <= c as int < first as int + |all| { assert all[c as int - first as int] == c; }
  }

  // -------------------------------------------------------------------- Acquire

  /** What an Acquire must meet before any store is called. */
  predicate WellFormed(svc: Service, q: Request, t: Times)
    requires q.AcquireLease?
  {
    && ValidIdentity(q.identity) && ValidDigest(q.scope) && ValidDigest(q.holder)
    && q.expires % 1_000_000 == 0 && t.entry < q.expires <= t.entry + svc.maxTTL
  }

  /** When the reservation of an Acquire lapses. */
  function Lapses(b: Backend, q: Request, t: Times): Time
    requires b.OnMemory? && q.AcquireLease?
  {
    if q.expires < t.first + b.mb.limits.pendingTTL then q.expires else t.first + b.mb.limits.pendingTTL
  }

  /** The answer to an Acquire whose reservation was made. */
  function Reserved(svc: Service, b: Backend, q: Request, t: Times): Reply
    requires b.OnMemory? && q.AcquireLease? && q.draw.Drawn?
  {
    var key := svc.leaseKey(q.identity, q.scope);
    if Lapses(b, q, t) <= t.third then Failed(TemporarilyUnavailable)
    else if q.expires > t.second + b.ml.maxLifetime then Failed(InvalidRequest)
    else if !Free(b, key, t.second) then Failed(Refused)
    else if b.ml.revision >= 9_007_199_254_740_991 then Failed(InvariantViolation)
    else match q.seal
      case BadLength => Failed(InvariantViolation)
      case SealFailed => Failed(TemporarilyUnavailable)
      case Sealed => Granted(Capability(key, q.holder, q.expires, svc.epoch, b.ml.revision + 1, q.draw.token))
  }

  lemma ReservedAnswers(svc: Service, b: Backend, q: Request, t: Times)
    requires q.AcquireLease? && Deployed(svc, b, q.identity) && Timely(t) && WellFormed(svc, q, t)
    requires ValidDigest(svc.leaseKey(q.identity, q.scope)) && q.draw.Drawn? && q.draw.token != 0
    requires Account(b, svc.budgetKey(q.identity), Reserve(q.draw.token, q.expires), svc.epoch, t.first).0.Ok?
    ensures ServeAcquire(svc, b, q, t).0 == Reserved(svc, b, q, t)
  {
    hide Account, ValidDigest, ValidIdentity, SlotsOf, Sound, Reserving;
    var p, token, key := svc.budgetKey(q.identity), q.draw.token, svc.leaseKey(q.identity, q.scope);
    SoundIsMemory(b, p);
    var b1 := Account(b, p, Reserve(token, q.expires), svc.epoch, t.first).1;
    ReserveMeans(b, p, token, q.expires, svc.epoch, t.first);
    AccountMeans(b, p, Reserve(token, q.expires), svc.epoch, t.first);
    SoundIsMemory(b1, p);
    var s := Slot(token, PendingExpiry(b.mb.limits, q.expires, t.first), q.expires, false);
    var v := Candidate(q.holder, q.expires, svc.epoch);
    var (held, b2) := Acquire(b1, key, v, t.second);
    LeaseKeepsReserving(b, b1, b2, key, v, t.second, p, s, t.first);
    SettleAnswers(b, b2, p, s, t.first, t.third);
    AccountMeans(b2, p, Cancel(token), svc.epoch, t.third);
  }

  /** Exactly when an Acquire is granted, and which failure each refusal gives. */
  lemma AcquireAnswersExactly(svc: Service, b: Backend, q: Request, t: Times)
    requires q.AcquireLease? && Deployed(svc, b, q.identity) && Timely(t)
    requires ValidDigest(svc.leaseKey(q.identity, q.scope))
    ensures var reply, p := ServeAcquire(svc, b, q, t).0, svc.budgetKey(q.identity);
            if !WellFormed(svc, q, t) then reply == Failed(InvalidRequest)
            else if q.draw.NoToken? then reply == Failed(TemporarilyUnavailable)
            else if q.draw.token == 0 || q.expires <= t.first then reply == Failed(InvariantViolation)
            else if Used(b, p, q.draw.token, t.first) || LiveCount(b, p, t.first) >= b.mb.limits.limit
            then reply == Failed(TemporarilyUnavailable)
            else reply == Reserved(svc, b, q, t)
  {
    hide Account, ValidIdentity, SlotsOf, Reserved, Used, LiveCount;
    if WellFormed(svc, q, t) && q.draw.Drawn? && q.draw.token != 0 {
      ReserveAnswers(b, svc.budgetKey(q.identity), q.draw.token, q.expires, t.first);
      if Account(b, svc.budgetKey(q.identity), Reserve(q.draw.token, q.expires), svc.epoch, t.first).0.Ok? {
        ReservedAnswers(svc, b, q, t);
      }
    }
    hide ValidDigest, Sound, Compensate;
  }

  /** An Acquire that got its slot takes a free key, whatever becomes of it later; otherwise leases stay. */
  lemma AcquireTakesExactly(svc: Service, b: Backend, q: Request, t: Times)
    requires q.AcquireLease? && Deployed(svc, b, q.identity) && Timely(t)
    requires ValidDigest(svc.leaseKey(q.identity, q.scope))
    ensures var b', p, next := ServeAcquire(svc, b, q, t).1, svc.budgetKey(q.identity), b.ml.revision + 1;
            var key := svc.leaseKey(q.identity, q.scope);
            && b'.OnMemory?
            && b'.ml == if && WellFormed(svc, q, t) && q.draw.Drawn? && q.draw.token != 0 && t.second < q.expires
                           && q.expires <= t.second + b.ml.maxLifetime && !Used(b, p, q.draw.token, t.first)
                           && LiveCount(b, p, t.first) < b.mb.limits.limit && Free(b, key, t.second)
                        then b.ml.(revision := next, leases := b.ml.leases[key :=
                               ML.LeaseRecord(q.holder, q.expires, svc.epoch, next, false)])
                        else b.ml
  {
    hide Account, ValidIdentity, Used, LiveCount, Sound, SlotsOf, ValidDigest, Live, Meaning;
    if WellFormed(svc, q, t) && q.draw.Drawn? && q.draw.token != 0 {
      var p, token, key := svc.budgetKey(q.identity), q.draw.token, svc.leaseKey(q.identity, q.scope);
      var op := Reserve(token, q.expires);
      ReserveAnswers(b, p, token, q.expires, t.first);
      MovingKeepsLeases(b, p, op, svc.epoch, t.first);
      var b1 := Account(b, p, op, svc.epoch, t.first).1;
      var b2 := Acquire(b1, key, Candidate(q.holder, q.expires, svc.epoch), t.second).1;
      MovingKeepsLeases(b2, p, Cancel(token), svc.epoch, t.third);
      MovingKeepsLeases(b2, p, Commit(token), svc.epoch, t.third);
    }
  }

  // ------------------------------------------------------ Renew, Release, Inspect

  /** Resume accepts exactly the stored, unexpired lease of the capability. */
  lemma ResumeAnswers(b: Backend, c: Capability, now: Time)
    requires b.OnMemory? && ValidDigest(c.key)
    ensures var r := Resume(b, c.key, ResumeOf(c), now);
            if c.epoch != b.ml.epoch then r == Err(InvalidArgument)
            else if Standing(b, c) && now < c.expires then r == Ok(Held(c.key, c.holder, c.expires, c.fence, false))
            else r == Err(Conflict)
  {
    hide ValidDigest;
  }

  /** The answer to a Renew that moved the lease. */
  ghost function Renewed(svc: Service, b: Backend, q: Request, t: Times): Reply
    requires b.OnMemory? && q.RenewLease?
  {
    var c, p, fence := q.presented, svc.budgetKey(q.identity), b.ml.revision + 1;
    if q.draw.NoToken? then Failed(TemporarilyUnavailable)
    else if q.draw.token == 0 then Failed(InvariantViolation)
    else if !ValidIdentity(q.identity) then Failed(InvalidRequest)
    else if fence > 9_007_199_254_740_991 || q.seal.BadLength? then Failed(InvariantViolation)
    else if q.seal.SealFailed? then Failed(TemporarilyUnavailable)
    else if !Owned(b, p, c.tokenID, t.third) || Used(b, p, q.draw.token, t.third) then Failed(TemporarilyUnavailable)
    else if q.expires <= t.third then Failed(InvariantViolation)
    else Granted(Capability(c.key, c.holder, q.expires, svc.epoch, fence, q.draw.token))
  }

  /** Exactly when a Renew is granted, and which failure each refusal gives. */
  lemma RenewAnswersExactly(svc: Service, b: Backend, q: Request, t: Times)
    requires q.RenewLease? && Deployed(svc, b, q.identity)
    ensures var reply, c := ServeRenew(svc, b, q, t).0, q.presented;
            if q.expires % 1_000_000 != 0 || q.expires <= t.entry || q.expires > t.entry + svc.maxTTL
            then reply == Failed(InvalidRequest)
            else if !ValidCapability(c) then reply == Failed(InvariantViolation)
            else if c.epoch != svc.epoch then reply == Failed(InvalidRequest)
            else if !Standing(b, c) || c.expires <= t.first then reply == Failed(Refused)
            else if q.expires <= t.second || q.expires > t.second + b.ml.maxLifetime then reply == Failed(Refused)
            else reply == Renewed(svc, b, q, t)
  {
    hide Account, ValidIdentity, SlotsOf, Sound, Used, Owned, Standing, Resume;
    var c, p := q.presented, svc.budgetKey(q.identity);
    if ValidCapability(c) {
      ResumeAnswers(b, c, t.first);
      if Resume(b, c.key, ResumeOf(c), t.first).Ok? {
        StandingIsStored(b, c);
        var b1 := Renew(b, Held(c.key, c.holder, c.expires, c.fence, false), q.expires, t.second).1;
        assert b1.mb == b.mb;
        SameBudget(b, b1, p, c.tokenID, t.third);
        if q.draw.Drawn? {
          SameBudget(b, b1, p, q.draw.token, t.third);
          MoveAnswers(b1, p, Replace(c.tokenID, q.draw.token, q.expires), t.third);
        }
      }
    }
    hide ValidDigest;
  }

  lemma StandingIsStored(b: Backend, c: Capability)
    requires Standing(b, c)
    ensures c.key in b.ml.leases && b.ml.leases[c.key] == ML.LeaseRecord(c.holder, c.expires, c.epoch, c.fence, false)
  {}

  lemma SameBudget(b: Backend, b': Backend, p: Digest, token: Token, now: Time)
    requires b.OnMemory? && b'.OnMemory? && b'.mb == b.mb
    ensures Sound(b', p) == Sound(b, p)
    ensures Owned(b', p, token, now) == Owned(b, p, token, now) && Used(b', p, token, now) == Used(b, p, token, now)
  {}

  /** Exactly when a Release is done, and which failure each refusal gives. */
  lemma ReleaseAnswersExactly(svc: Service, b: Backend, q: Request, t: Times)
    requires q.ReleaseLease? && Deployed(svc, b, q.identity)
    ensures var reply, c := ServeRelease(svc, b, q, t).0, q.presented;
            if !ValidCapability(c) then reply == Failed(InvariantViolation)
            else if c.epoch != svc.epoch then reply == Failed(InvalidRequest)
            else if !Standing(b, c) || c.expires <= t.first then reply == Failed(Refused)
            else if !ValidIdentity(q.identity) then reply == Failed(InvariantViolation)
            else if !Owned(b, svc.budgetKey(q.identity), c.tokenID, t.third)
            then reply == Failed(TemporarilyUnavailable)
            else reply == Done
  {
    hide Account, ValidIdentity, SlotsOf, Sound, Used, Owned, Standing, Resume;
    var c, p := q.presented, svc.budgetKey(q.identity);
    if ValidCapability(c) {
      ResumeAnswers(b, c, t.first);
      if Resume(b, c.key, ResumeOf(c), t.first).Ok? {
        StandingIsStored(b, c);
        var b1 := Release(b, Held(c.key, c.holder, c.expires, c.fence, false)).1;
        assert b1.mb == b.mb;
        SameBudget(b, b1, p, c.tokenID, t.third);
        MoveAnswers(b1, p, Retire(c.tokenID), t.third);
      }
    }
    hide ValidDigest;
  }

  /** A standing lease is renewed or released even if the request fails later; otherwise leases stay. */
  lemma ContinuedMovesExactly(svc: Service, b: Backend, q: Request, t: Times)
    requires (q.RenewLease? || q.ReleaseLease?) && Deployed(svc, b, q.identity)
    ensures var b', c, next := Serve(svc, b, q, t).1, q.presented, b.ml.revision + 1;
            && b'.OnMemory?
            && b'.ml == if !ValidCapability(c) || !Standing(b, c) || c.expires <= t.first then b.ml
                        else if q.ReleaseLease? then
                          b.ml.(revision := next, leases := b.ml.leases[c.key :=
                            ML.LeaseRecord(c.holder, c.expires, c.epoch, next, true)])
                        else if && q.expires % 1_000_000 == 0 && t.entry < q.expires <= t.entry + svc.maxTTL
                                && t.second < q.expires <= t.second + b.ml.maxLifetime then
                          b.ml.(revision := next, leases := b.ml.leases[c.key :=
                            ML.LeaseRecord(c.holder, q.expires, c.epoch, next, false)])
                        else b.ml
  {
    hide Account, ValidIdentity, SlotsOf, Sound;
    var c, p := q.presented, svc.budgetKey(q.identity);
    if ValidCapability(c) {
      ResumeAnswers(b, c, t.first);
      if Resume(b, c.key, ResumeOf(c), t.first).Ok? {
        var h := Held(c.key, c.holder, c.expires, c.fence, false);
        MovingKeepsLeases(Release(b, h).1, p, Retire(c.tokenID), svc.epoch, t.third);
        if q.RenewLease? && q.draw.Drawn? {
          var op := Replace(c.tokenID, q.draw.token, q.expires);
          MovingKeepsLeases(Renew(b, h, q.expires, t.second).1, p, op, svc.epoch, t.third);
        }
      }
    }
    hide ValidDigest;
  }

  lemma MovingKeepsLeases(b: Backend, p: Digest, op: Op, epoch: nat, now: Time)
    requires b.OnMemory?
    ensures var (_, b') := Account(b, p, op, epoch, now); b'.OnMemory? && b'.ml == b.ml
  {
    hide Prune, Change;
  }

  /** Inspect says what became of the lease of a capability, and changes nothing. */
  lemma InspectAnswersExactly(svc: Service, b: Backend, c: Capability, t: Times)
    requires b.OnMemory?
    ensures var (reply, b') := Serve(svc, b, InspectLease(c), t);
            && b' == b
            && if !ValidCapability(c) then reply == Failed(InvariantViolation)
               else if c.epoch != b.ml.epoch then reply == Failed(InvalidRequest)
               else if Standing(b, c)
               then reply == Answer(if t.first < c.expires then Status.Valid else Status.Expired)
               else if c.key in b.ml.leases &&
                       b.ml.leases[c.key] == ML.LeaseRecord(c.holder, c.expires, c.epoch, c.fence + 1, true)
               then reply == Answer(Status.Released)
               else reply == Answer(Status.Stale)
  {
    hide ValidDigest;
  }

  // ---------------------------------------------------------------- progress

  /** New stores grant the first well-formed Acquire that is sealed before its reservation lapses. */
  lemma FirstAcquireIsGranted(svc: Service, lim: Limits, maxLifetime: Time, q: Request, t: Times)
    requires q.AcquireLease? && Timely(t) && WellFormed(svc, q, t) && q.draw.Drawn? && q.draw.token != 0
    requires 0 < svc.epoch < 9_007_199_254_740_992 && lim.limit > 0
    requires ValidDigest(svc.budgetKey(q.identity)) && ValidDigest(svc.leaseKey(q.identity, q.scope))
    requires q.seal.Sealed? && q.expires <= t.second + maxLifetime
    requires t.third < q.expires && t.third < t.first + lim.pendingTTL
    ensures var b := OnMemory(ML.Memory(maxLifetime, svc.epoch, map[], 0), MB.Memory(lim, svc.epoch, map[]));
            ServeAcquire(svc, b, q, t).0.Granted?
  {
    var b := OnMemory(ML.Memory(maxLifetime, svc.epoch, map[], 0), MB.Memory(lim, svc.epoch, map[]));
    AcquireAnswersExactly(svc, b, q, t);
    assert (set s | s in SlotsOf(b, svc.budgetKey(q.identity)) && s.expires > t.first) == {};
    hide ServeAcquire;
  }

  /** Once a capability was released its key is free again. */
  lemma ReleaseFrees(svc: Service, b: Backend, q: Request, t: Times, now: Time)
    requires q.ReleaseLease? && b.OnMemory? && ServeRelease(svc, b, q, t).0.Done?
    ensures var b' := ServeRelease(svc, b, q, t).1; b'.OnMemory? && Free(b', q.presented.key, now)
  {
    hide ValidDigest, ValidIdentity, Prune, Change;
  }
}
