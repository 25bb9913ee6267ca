/**
 The fenced leases of internal/coordination/jetstreamkv/store.go under concurrency and
 ambiguous compare-and-swap: every Create or Update that has been sent may commit at any
 later time if its comparison still holds, whether or not an error was reported, and the
 bucket forgets a record only after its retention.  All clients read one clock.
 */
module LeaseProtocol {
  import opened Coordination

  /** A lease record's bytes; kind, schema and epoch are the same for the whole bucket. */
  datatype Value = Value(holder: Digest, expires: Time, released: bool)

  datatype Stored = Stored(value: Value, revision: nat, at: Time)

  datatype Kind = Takeover | Renewal | Retirement

  /** A put with the revision it expects; 0 expects an absent key. */
  datatype Message = Message(op: nat, key: Digest, expected: nat, value: Value, kind: Kind)

  /** A committed message, its revision and the time it committed. */
  datatype Write = Write(message: Message, revision: nat, at: Time)

  datatype Handle = Handle(key: Digest, holder: Digest, expires: Time, revision: nat, released: bool)

  datatype Request =
    | Acquire(key: Digest, holder: Digest, expires: Time)
    | Resume(key: Digest, holder: Digest, expires: Time, token: nat)
    | Renew(handle: nat, expires: Time)
    | Release(handle: nat)

  datatype Step =
    | Putting(message: Message)
    | Looking(existed: bool)
    | Reconciling(message: Message)
    | Done(ok: bool)

  datatype Op = Op(request: Request, step: Step)

  /** A success reported to a caller: the put it stands for and the revision that becomes the token. */
  datatype Won = Won(message: Message, revision: nat)

  datatype Config = Config(maxLifetime: Time, retention: Time)

  datatype World = World(
    clock: Time, sequence: nat,
    bucket: map<Digest, Stored>,
    writes: seq<Write>,
    sent: set<Message>,
    ops: map<nat, Op>,
    handles: map<nat, Handle>,
    locked: set<nat>,
    wins: set<Won>)

  // ------------------------------------------------- what the client computes

  predicate ValidExpiry(cfg: Config, expires: Time, now: Time) {
    now < expires <= now + cfg.maxLifetime
  }

  /** After a failed Create: own the record, give up, or try to replace this revision. */
  datatype Look = Owned | Taken | Replace

  function AfterGet(candidate: Value, existed: bool, entry: Stored, now: Time): Look {
    if !existed && entry.value == candidate then Owned
    else if !entry.value.released && entry.value.expires > now then Taken
    else Replace
  }

  /** reconcileLeaseMutation: only a newer record with exactly the expected bytes counts. */
  predicate Reconciled(entry: Stored, m: Message) {
    entry.revision > m.expected && entry.value == m.value
  }

  predicate Resumable(entry: Stored, r: Request, now: Time)
    requires r.Resume?
  {
    !entry.value.released && entry.value.holder == r.holder && entry.value.expires == r.expires
    && entry.revision == r.token && r.expires > now
  }

  /** The broker's comparison. */
  predicate Matches(bucket: map<Digest, Stored>, m: Message) {
    if m.expected == 0 then m.key !in bucket
    else m.key in bucket && bucket[m.key].revision == m.expected
  }

  // ------------------------------------------------------------------- steps

  ghost predicate Init(w: World) {
    && w.sequence == 0 && w.bucket == map[] && w.writes == [] && w.sent == {}
    && w.ops == map[] && w.handles == map[] && w.locked == {} && w.wins == {}
  }

  ghost predicate Tick(w: World, w': World) {
    w'.clock >= w.clock && w' == w.(clock := w'.clock)
  }

  ghost predicate Purge(cfg: Config, w: World, w': World, key: Digest) {
    && key in w.bucket && w.bucket[key].at + cfg.retention <= w.clock
    && w' == w.(bucket := w.bucket - {key})
  }

  ghost predicate Deliver(w: World, w': World, m: Message) {
    && m in w.sent
    && (if Matches(w.bucket, m)
        then w'.sequence > w.sequence &&
             w' == w.(sequence := w'.sequence,
                      bucket := w.bucket[m.key := Stored(m.value, w'.sequence, w.clock)],
                      writes := w.writes + [Write(m, w'.sequence, w.clock)])
        else w' == w)
  }

  ghost predicate Send(w: World, w': World, c: nat, request: Request, m: Message) {
    w' == w.(sent := w.sent + {m}, ops := w.ops[c := Op(request, Putting(m))])
  }

  ghost predicate StartAcquire(cfg: Config, w: World, w': World, c: nat, r: Request) {
    && c !in w.ops && c !in w.handles && r.Acquire? && ValidExpiry(cfg, r.expires, w.clock)
    && Send(w, w', c, r, FirstPut(c, r))
  }

  ghost predicate DoResume(w: World, w': World, c: nat, r: Request) {
    && c !in w.ops && c !in w.handles && r.Resume? && r.key in w.bucket && Resumable(w.bucket[r.key], r, w.clock)
    && w' == w.(ops := w.ops[c := Op(r, Done(true))],
                handles := w.handles[c := Handle(r.key, r.holder, r.expires, r.token, false)])
  }

  ghost predicate StartRenew(cfg: Config, w: World, w': World, c: nat, r: Request) {
    && c !in w.ops && r.Renew? && r.handle in w.handles && r.handle !in w.locked
    && var h := w.handles[r.handle];
       && !h.released && ValidExpiry(cfg, r.expires, w.clock)
       && Send(w.(locked := w.locked + {r.handle}), w', c, r,
               Message(c, h.key, h.revision, Value(h.holder, r.expires, false), Renewal))
  }

  ghost predicate StartRelease(w: World, w': World, c: nat, r: Request) {
    && c !in w.ops && r.Release? && r.handle in w.handles && r.handle !in w.locked
    && var h := w.handles[r.handle];
       && !h.released
       && Send(w.(locked := w.locked + {r.handle}), w', c, r,
               Message(c, h.key, h.revision, Value(h.holder, h.expires, true), Retirement))
  }

  /** The operation ends well with this revision: the handle is made or moved on, and its lock released. */
  ghost function Win(w: World, c: nat, m: Message, revision: nat): (w': World)
    requires c in w.ops
    requires w.ops[c].request.Renew? || w.ops[c].request.Release? ==> w.ops[c].request.handle in w.handles
    ensures w'.writes == w.writes && w'.clock == w.clock && w'.sequence == w.sequence
  {
    var r := w.ops[c].request;
    var done, wins := w.ops[c := Op(r, Done(true))], w.wins + {Won(m, revision)};
    match r
    case Acquire(key, holder, expires) =>
      w.(ops := done, wins := wins, handles := w.handles[c := Handle(key, holder, expires, revision, false)])
    case Resume(_, _, _, _) => w
    case Renew(h, expires) =>
      w.(ops := done, wins := wins, locked := w.locked - {h},
         handles := w.handles[h := w.handles[h].(revision := revision, expires := expires)])
    case Release(h) =>
      w.(ops := done, wins := wins, locked := w.locked - {h},
         handles := w.handles[h := w.handles[h].(revision := revision, released := true)])
  }

  ghost function Lose(w: World, c: nat): (w': World)
    requires c in w.ops
    ensures w'.writes == w.writes && w'.clock == w.clock && w'.sequence == w.sequence
  {
    var r := w.ops[c].request;
    w.(ops := w.ops[c := Op(r, Done(false))],
       locked := if r.Renew? || r.Release? then w.locked - {r.handle} else w.locked)
  }

  ghost predicate HandleThere(w: World, c: nat) {
    && c in w.ops
    && (w.ops[c].request.Renew? || w.ops[c].request.Release? ==> w.ops[c].request.handle in w.handles)
  }

  /** Success is reported with the revision of a commit of this very message. */
  ghost predicate Ack(w: World, w': World, c: nat, i: nat) {
    && HandleThere(w, c) && w.ops[c].step.Putting?
    && i < |w.writes| && w.writes[i].message == w.ops[c].step.message
    && w' == Win(w, c, w.ops[c].step.message, w.writes[i].revision)
  }

  /** An error is reported, committed or not.  For the first put of an Acquire it may be ErrKeyExists. */
  ghost predicate Fail(w: World, w': World, c: nat, existed: bool) {
    && HandleThere(w, c) && w.ops[c].step.Putting?
    && var m := w.ops[c].step.message;
       w' == w.(ops := w.ops[c := Op(w.ops[c].request, if m.expected == 0 then Looking(existed) else Reconciling(m))])
  }

  /** Acquire reads the record that stood in its way. */
  ghost predicate DoLook(w: World, w': World, c: nat) {
    && c in w.ops && w.ops[c].request.Acquire? && w.ops[c].step.Looking?
    && var r := w.ops[c].request;
       var candidate := Value(r.holder, r.expires, false);
       if r.key !in w.bucket then w' == Lose(w, c)
       else match AfterGet(candidate, w.ops[c].step.existed, w.bucket[r.key], w.clock)
         case Owned => w' == Win(w, c, FirstPut(c, r), w.bucket[r.key].revision)
         case Taken => w' == Lose(w, c)
         case Replace => Send(w, w', c, r, Message(c, r.key, w.bucket[r.key].revision, candidate, Takeover))
  }

  ghost predicate Reconcile(w: World, w': World, c: nat) {
    && HandleThere(w, c) && w.ops[c].step.Reconciling?
    && var m := w.ops[c].step.message;
       if m.key in w.bucket && Reconciled(w.bucket[m.key], m)
       then w' == Win(w, c, m, w.bucket[m.key].revision)
       else w' == Lose(w, c)
  }

  /** A read fails, or the caller goes away, before the outcome is known. */
  ghost predicate Abandon(w: World, w': World, c: nat) {
    && c in w.ops && (w.ops[c].step.Looking? || w.ops[c].step.Reconciling?)
    && w' == Lose(w, c)
  }

  ghost predicate Next(cfg: Config, w: World, w': World) {
    || Tick(w, w')
    || (exists key :: Purge(cfg, w, w', key))
    || (exists m :: Deliver(w, w', m))
    || (exists c, r ::
          || StartAcquire(cfg, w, w', c, r) || DoResume(w, w', c, r)
          || StartRenew(cfg, w, w', c, r) || StartRelease(w, w', c, r))
    || (exists c, i :: Ack(w, w', c, i))
    || (exists c, existed :: Fail(w, w', c, existed))
    || (exists c :: DoLook(w, w', c) || Reconcile(w, w', c) || Abandon(w, w', c))
  }

  // --------------------------------------------------------------- invariant

  /** The last write to a key, if any. */
  ghost function Last(writes: seq<Write>, key: Digest): (r: seq<Write>)
    ensures |r| <= 1
    decreases |writes|
  {
    if writes == [] then []
    else if writes[|writes| - 1].message.key == key then [writes[|writes| - 1]]
    else Last(writes[..|writes| - 1], key)
  }

  ghost predicate Wrote(writes: seq<Write>, revision: nat, key: Digest, value: Value) {
    exists i ::
      && 0 <= i < |writes| && writes[i].revision == revision
      && writes[i].message.key == key && writes[i].message.value == value
  }

  /** A put of this kind may follow `prev` at time `now`. */
  predicate MayFollow(prev: Value, m: Message, now: Time) {
    match m.kind
    case Takeover => !m.value.released && (prev.released || prev.expires <= now)
    case Renewal => !prev.released && !m.value.released && m.value.holder == prev.holder
    case Retirement => !prev.released && m.value == prev.(released := true)
  }

  ghost predicate Increasing(w: World) {
    && (forall i, j :: 0 <= i < j < |w.writes| ==> w.writes[i].revision < w.writes[j].revision)
    && (forall i :: 0 <= i < |w.writes| ==> 0 < w.writes[i].revision <= w.sequence && w.writes[i].at <= w.clock)
  }

  ghost predicate Bounded(cfg: Config, w: World) {
    && (forall i :: 0 <= i < |w.writes| ==> w.writes[i].message.value.expires <= w.writes[i].at + cfg.maxLifetime)
    && (forall m :: m in w.sent ==> m.value.expires <= w.clock + cfg.maxLifetime)
  }

  /** The bucket shows the last write of a key, or nothing once that is past its retention. */
  ghost predicate BucketShowsLast(cfg: Config, w: World) {
    && (forall key :: key in w.bucket ==>
          var last := Last(w.writes, key);
          last != [] && w.bucket[key] == Stored(last[0].message.value, last[0].revision, last[0].at))
    && (forall key :: key !in w.bucket && Last(w.writes, key) != [] ==>
       Last(w.writes, key)[0].at + cfg.retention <= w.clock)
  }

  ghost predicate MessageInv(w: World, m: Message) {
    if m.expected == 0 then m.kind.Takeover? && !m.value.released
    else exists prev :: Wrote(w.writes, m.expected, m.key, prev) && MayFollow(prev, m, w.clock)
  }

  /** What a handle claims is what was written at its revision. */
  ghost predicate HandleInv(w: World, h: Handle) {
    Wrote(w.writes, h.revision, h.key, Value(h.holder, h.expires, h.released))
  }

  /** The value an operation puts, as the current handle has it. */
  ghost predicate PutInv(w: World, c: nat, r: Request, m: Message) {
    && m in w.sent
    && match r
       case Acquire(key, holder, expires) =>
         m.op == c && m.key == key && m.value == Value(holder, expires, false) && m.kind == Takeover
       case Resume(_, _, _, _) => false
       case Renew(h, expires) =>
         && h in w.handles && m.key == w.handles[h].key && m.kind == Renewal
         && m.value == Value(w.handles[h].holder, expires, false) && !w.handles[h].released
       case Release(h) =>
         && h in w.handles && m.key == w.handles[h].key && m.kind == Retirement
         && m.value == Value(w.handles[h].holder, w.handles[h].expires, true) && !w.handles[h].released
  }

  function FirstPut(c: nat, r: Request): Message
    requires r.Acquire?
  {
    Message(c, r.key, 0, Value(r.holder, r.expires, false), Takeover)
  }

  ghost predicate OpInv(w: World, c: nat, op: Op) {
    && (op.request.Renew? || op.request.Release? ==> op.step.Done? || op.request.handle in w.locked)
    && match op.step
       case Putting(m) => PutInv(w, c, op.request, m)
       case Looking(_) => op.request.Acquire? && FirstPut(c, op.request) in w.sent
       case Reconciling(m) => PutInv(w, c, op.request, m)
       case Done(_) => true
  }

  ghost predicate WorksOn(op: Op, h: nat) {
    !op.step.Done? && (op.request.Renew? || op.request.Release?) && op.request.handle == h
  }

  /** At most one unfinished operation works on a handle. */
  ghost predicate Exclusive(w: World) {
    forall c, d, h :: c in w.ops && d in w.ops && WorksOn(w.ops[c], h) && WorksOn(w.ops[d], h) ==> c == d
  }

  /** Every write follows the previous write of its key as its kind allows, even across a purge. */
  ghost predicate Handover(writes: seq<Write>) {
    forall j :: 0 <= j < |writes| ==>
      var prior := Last(writes[..j], writes[j].message.key);
      prior != [] ==> MayFollow(prior[0].message.value, writes[j].message, writes[j].at)
  }

  /** A committed put is newer than the record it expected. */
  ghost predicate Newer(writes: seq<Write>) {
    forall i :: 0 <= i < |writes| ==> writes[i].message.expected < writes[i].revision
  }

  /** A reported success names a newer write of exactly its bytes. */
  ghost predicate WinsInv(w: World) {
    forall x :: x in w.wins ==>
      Wrote(w.writes, x.revision, x.message.key, x.message.value) && x.message.expected < x.revision
  }

  ghost predicate StoreInv(cfg: Config, w: World) {
    && Newer(w.writes) && Increasing(w) && Bounded(cfg, w) && BucketShowsLast(cfg, w) && Handover(w.writes)
    && (forall m :: m in w.sent ==> MessageInv(w, m))
  }

  ghost predicate ClientInv(w: World) {
    && (forall k :: k in w.handles ==> HandleInv(w, w.handles[k]))
    && (forall c :: c in w.ops ==> OpInv(w, c, w.ops[c]))
    && (forall c :: c in w.ops && w.ops[c].request.Acquire? && !w.ops[c].step.Done? ==> c !in w.handles)
    && Exclusive(w) && WinsInv(w)
  }

  ghost predicate Inv(cfg: Config, w: World) {
    StoreInv(cfg, w) && ClientInv(w)
  }

  // ------------------------------------------------------------ the store side

  lemma {:induction false} LastIsWritten(writes: seq<Write>, key: Digest)
    requires Last(writes, key) != []
    ensures var last := Last(writes, key)[0];
            last in writes && last.message.key == key && Wrote(writes, last.revision, key, last.message.value)
    decreases |writes|
  {
    if writes[|writes| - 1].message.key != key {
      LastIsWritten(writes[..|writes| - 1], key);
    }
  }

  lemma SameRevisionSameValue(w: World, revision: nat, k1: Digest, v1: Value, k2: Digest, v2: Value)
    requires Increasing(w) && Wrote(w.writes, revision, k1, v1) && Wrote(w.writes, revision, k2, v2)
    ensures k1 == k2 && v1 == v2
  {}

  lemma WroteGrows(writes: seq<Write>, e: Write)
    ensures forall r, k, v :: Wrote(writes, r, k, v) ==> Wrote(writes + [e], r, k, v)
    ensures Wrote(writes + [e], e.revision, e.message.key, e.message.value)
  {
    forall r, k, v | Wrote(writes, r, k, v) ensures Wrote(writes + [e], r, k, v) {
      var i :| 0 <= i < |writes| && writes[i].revision == r && writes[i].message.key == k
          && writes[i].message.value == v;
      assert (writes + [e])[i] == writes[i];
    }
    assert (writes + [e])[|writes|] == e;
  }

  /** Messages stay justified as time passes and writes are added. */
  lemma MessagesStay(w: World, w': World)
    requires forall m :: m in w.sent ==> MessageInv(w, m)
    requires forall r, k, v :: Wrote(w.writes, r, k, v) ==> Wrote(w'.writes, r, k, v)
    requires w'.sent == w.sent && w.clock <= w'.clock
    ensures forall m :: m in w'.sent ==> MessageInv(w', m)
  {
    forall m | m in w'.sent ensures MessageInv(w', m) {
      assert MessageInv(w, m);
      if m.expected != 0 {
        var prev :| Wrote(w.writes, m.expected, m.key, prev) && MayFollow(prev, m, w.clock);
        assert Wrote(w'.writes, m.expected, m.key, prev) && MayFollow(prev, m, w'.clock);
      }
    }
  }

  /** A commit follows the last write of its key, purged or not, as its kind allows. */
  lemma CommitMayFollow(cfg: Config, w: World, m: Message)
    requires StoreInv(cfg, w) && cfg.maxLifetime < cfg.retention && m in w.sent && Matches(w.bucket, m)
    ensures Last(w.writes, m.key) != [] ==> MayFollow(Last(w.writes, m.key)[0].message.value, m, w.clock)
  {
    assert MessageInv(w, m);
    if Last(w.writes, m.key) != [] {
      LastIsWritten(w.writes, m.key);
      var last := Last(w.writes, m.key)[0];
      if m.expected == 0 {
        assert last.at + cfg.retention <= w.clock;
      } else {
        var prev :| Wrote(w.writes, m.expected, m.key, prev) && MayFollow(prev, m, w.clock);
        SameRevisionSameValue(w, m.expected, m.key, prev, m.key, last.message.value);
      }
    }
  }

  lemma HandoverGrows(writes: seq<Write>, e: Write)
    requires Handover(writes)
    requires Last(writes, e.message.key) != [] ==>
              MayFollow(Last(writes, e.message.key)[0].message.value, e.message, e.at)
    ensures Handover(writes + [e])
  {
    var all := writes + [e];
    forall j | 0 <= j < |all|
      ensures var prior := Last(all[..j], all[j].message.key);
              prior != [] ==> MayFollow(prior[0].message.value, all[j].message, all[j].at)
    {
      if j < |writes| { assert all[..j] == writes[..j]; } else { assert all[..j] == writes; }
    }
  }

  lemma LastGrows(writes: seq<Write>, e: Write, key: Digest)
    ensures Last(writes + [e], key) == if e.message.key == key then [e] else Last(writes, key)
  {
    assert (writes + [e])[..|writes|] == writes;
  }

  lemma DeliverKeepsOrder(cfg: Config, w: World, w': World, m: Message)
    requires Increasing(w) && Bounded(cfg, w) && Deliver(w, w', m)
    ensures Increasing(w') && Bounded(cfg, w')
  {}

  lemma DeliverKeepsBucket(cfg: Config, w: World, w': World, m: Message)
    requires BucketShowsLast(cfg, w) && Deliver(w, w', m)
    ensures BucketShowsLast(cfg, w')
  {
    if w' != w {
      var e := Write(m, w'.sequence, w.clock);
      forall key ensures Last(w'.writes, key) == if m.key == key then [e] else Last(w.writes, key) {
        LastGrows(w.writes, e, key);
      }
      hide Last;
      assert BucketShowsLast(cfg, w');
    }
  }

  lemma DeliverKeepsNewer(cfg: Config, w: World, w': World, m: Message)
    requires Newer(w.writes) && Increasing(w) && BucketShowsLast(cfg, w) && Deliver(w, w', m)
    ensures Newer(w'.writes)
  {
    if m.key in w.bucket { LastIsWritten(w.writes, m.key); }
  }

  lemma DeliverKeepsStore(cfg: Config, w: World, w': World, m: Message)
    requires StoreInv(cfg, w) && cfg.maxLifetime < cfg.retention && Deliver(w, w', m)
    ensures StoreInv(cfg, w')
  {
    hide Newer, Increasing, Bounded, BucketShowsLast, Handover, MessageInv, Wrote, Last;
    if w' == w {
      return;
    }
    var e := Write(m, w'.sequence, w.clock);
    CommitMayFollow(cfg, w, m);
    HandoverGrows(w.writes, e);
    DeliverKeepsOrder(cfg, w, w', m);
    DeliverKeepsNewer(cfg, w, w', m);
    DeliverKeepsBucket(cfg, w, w', m);
    WroteGrows(w.writes, e);
    MessagesStay(w, w');
  }

  lemma TimeKeepsStore(cfg: Config, w: World, w': World, key: Digest)
    requires StoreInv(cfg, w) && (Tick(w, w') || Purge(cfg, w, w', key))
    ensures StoreInv(cfg, w')
  {
    MessagesStay(w, w');
    hide MessageInv, Handover, Last;
    assert Increasing(w') && Bounded(cfg, w') && BucketShowsLast(cfg, w');
  }

  /** A client step adds at most one message to a store it otherwise leaves alone. */
  ghost predicate OnlySends(w: World, w': World, m: Message) {
    && w'.clock == w.clock && w'.sequence == w.sequence
    && w'.bucket == w.bucket && w'.writes == w.writes && w'.sent <= w.sent + {m}
  }

  lemma SendKeepsStore(cfg: Config, w: World, w': World, m: Message)
    requires StoreInv(cfg, w) && OnlySends(w, w', m)
    requires m in w'.sent ==> MessageInv(w, m) && m.value.expires <= w.clock + cfg.maxLifetime
    ensures StoreInv(cfg, w')
  {
    hide Last, Handover, MayFollow;
    forall x | x in w'.sent ensures MessageInv(w', x) { assert MessageInv(w, x); }
  }

  // ----------------------------------------------------------- the client side

  /** Store steps leave handles and operations alone and only add writes. */
  lemma StoreStepKeepsClients(w: World, w': World)
    requires ClientInv(w) && w'.handles == w.handles && w'.ops == w.ops && w'.locked == w.locked
    requires w'.sent == w.sent && w'.wins == w.wins
    requires forall r, k, v :: Wrote(w.writes, r, k, v) ==> Wrote(w'.writes, r, k, v)
    ensures ClientInv(w')
  {
    hide Wrote;
    forall c | c in w'.ops ensures OpInv(w', c, w'.ops[c]) { assert OpInv(w, c, w.ops[c]); }
    forall k | k in w'.handles ensures HandleInv(w', w'.handles[k]) { assert HandleInv(w, w.handles[k]); }
  }

  lemma BucketIsWritten(cfg: Config, w: World, key: Digest)
    requires BucketShowsLast(cfg, w) && key in w.bucket
    ensures Wrote(w.writes, w.bucket[key].revision, key, w.bucket[key].value)
  {
    LastIsWritten(w.writes, key);
  }

  /** Starting an operation on a free handle, or one that has no handle yet. */
  lemma StartKeepsClients(w: World, w': World, c: nat, r: Request, m: Message)
    requires ClientInv(w) && c !in w.ops && OnlySends(w, w', m) && m in w'.sent && w.sent <= w'.sent
    requires w'.wins == w.wins && w'.handles == w.handles && w'.ops == w.ops[c := Op(r, Putting(m))]
    requires PutInv(w', c, r, m)
    requires r.Acquire? ==> c !in w.handles
    requires if r.Renew? || r.Release? then r.handle !in w.locked && w'.locked == w.locked + {r.handle}
             else w'.locked == w.locked
    ensures ClientInv(w')
  {
    hide Wrote;
    forall k | k in w'.handles ensures HandleInv(w', w'.handles[k]) { assert HandleInv(w, w.handles[k]); }
    forall d | d in w'.ops ensures OpInv(w', d, w'.ops[d]) { if d != c { assert OpInv(w, d, w.ops[d]); } }
    forall x, y, h | x in w'.ops && y in w'.ops && WorksOn(w'.ops[x], h) && WorksOn(w'.ops[y], h) ensures x == y {
      assert x != c ==> OpInv(w, x, w.ops[x]);
      assert y != c ==> OpInv(w, y, w.ops[y]);
    }
  }

  /** An operation that moves on without touching a handle. */
  lemma MoveKeepsClients(w: World, w': World, c: nat, m: Message)
    requires ClientInv(w) && c in w.ops && !w.ops[c].step.Done? && OnlySends(w, w', m) && w.sent <= w'.sent
    requires w'.handles == w.handles && w'.locked == w.locked && w'.wins == w.wins
    requires c in w'.ops && w'.ops == w.ops[c := w'.ops[c]] && w'.ops[c].request == w.ops[c].request
    requires !w'.ops[c].step.Done?
    requires OpInv(w', c, w'.ops[c])
    ensures ClientInv(w')
  {
    hide Wrote;
    forall k | k in w'.handles ensures HandleInv(w', w'.handles[k]) { assert HandleInv(w, w.handles[k]); }
    forall d | d in w'.ops ensures OpInv(w', d, w'.ops[d]) { if d != c { assert OpInv(w, d, w.ops[d]); } }
    forall x, y, h | x in w'.ops && y in w'.ops && WorksOn(w'.ops[x], h) && WorksOn(w'.ops[y], h) ensures x == y {
      assert WorksOn(w.ops[x], h) && WorksOn(w.ops[y], h);
    }
  }

  lemma LoseKeepsClients(w: World, c: nat)
    requires ClientInv(w) && c in w.ops && !w.ops[c].step.Done?
    ensures ClientInv(Lose(w, c))
  {
    hide Wrote;
    var w' := Lose(w, c);
    forall k | k in w'.handles ensures HandleInv(w', w'.handles[k]) { assert HandleInv(w, w.handles[k]); }
    forall d | d in w'.ops ensures OpInv(w', d, w'.ops[d]) { OthersKeepLock(w, c, d); }
    forall x, y, h | x in w'.ops && y in w'.ops && WorksOn(w'.ops[x], h) && WorksOn(w'.ops[y], h) ensures x == y {
      assert WorksOn(w.ops[x], h) && WorksOn(w.ops[y], h);
    }
  }

  /** The lock of the finishing operation is not the lock of another one. */
  lemma OthersKeepLock(w: World, c: nat, d: nat)
    requires ClientInv(w) && c in w.ops && !w.ops[c].step.Done? && d in w.ops
    ensures OpInv(w, d, w.ops[d])
    ensures d != c && (w.ops[c].request.Renew? || w.ops[c].request.Release?) ==>
              !WorksOn(w.ops[d], w.ops[c].request.handle)
  {
    if w.ops[c].request.Renew? || w.ops[c].request.Release? {
      assert WorksOn(w.ops[c], w.ops[c].request.handle);
    }
  }

  /** An operation ends well: what its handle now claims was written at its revision. */
  lemma WinKeepsClients(w: World, c: nat, revision: nat, m: Message)
    requires ClientInv(w) && c in w.ops && !w.ops[c].step.Done?
    requires !w.ops[c].request.Resume?
    requires var r := w.ops[c].request;
             if r.Acquire? then m.key == r.key && m.value == Value(r.holder, r.expires, false) else PutInv(w, c, r, m)
    requires Wrote(w.writes, revision, m.key, m.value) && m.expected < revision
    ensures ClientInv(Win(w, c, m, revision))
  {
    hide Wrote;
    var w', r := Win(w, c, m, revision), w.ops[c].request;
    forall k | k in w'.handles ensures HandleInv(w', w'.handles[k]) {
      if k in w.handles { assert HandleInv(w, w.handles[k]); }
    }
    forall d | d in w'.ops ensures OpInv(w', d, w'.ops[d]) {
      OthersKeepLock(w, c, d);
    }
    forall x, y, h | x in w'.ops && y in w'.ops && WorksOn(w'.ops[x], h) && WorksOn(w'.ops[y], h) ensures x == y {
      assert WorksOn(w.ops[x], h) && WorksOn(w.ops[y], h);
    }
  }

  lemma StartKeepsInv(cfg: Config, w: World, w': World, c: nat, r: Request)
    requires Inv(cfg, w)
    requires (StartAcquire(cfg, w, w', c, r) || StartRenew(cfg, w, w', c, r) || StartRelease(w, w', c, r))
    ensures Inv(cfg, w')
  {
    hide Wrote, Last, Handover, Exclusive, BucketShowsLast;
    var m := w'.ops[c].step.message;
    if !r.Acquire? {
      var h := w.handles[r.handle];
      assert HandleInv(w, h) && MayFollow(Value(h.holder, h.expires, h.released), m, w.clock);
      WrittenIsBounded(cfg, w, h.revision, h.key, Value(h.holder, h.expires, h.released));
    }
    SendKeepsStore(cfg, w, w', m);
    StartKeepsClients(w, w', c, r, m);
  }

  lemma WrittenIsBounded(cfg: Config, w: World, revision: nat, key: Digest, value: Value)
    requires Increasing(w) && Bounded(cfg, w) && Wrote(w.writes, revision, key, value)
    ensures value.expires <= w.clock + cfg.maxLifetime && revision > 0
  {}

  lemma ResumeKeepsClients(w: World, w': World, c: nat, r: Request)
    requires ClientInv(w) && DoResume(w, w', c, r)
    requires Wrote(w.writes, r.token, r.key, Value(r.holder, r.expires, false))
    ensures ClientInv(w')
  {
    hide Wrote, Resumable;
    forall k | k in w'.handles ensures HandleInv(w', w'.handles[k]) { if k != c { assert HandleInv(w, w.handles[k]); } }
    forall d | d in w'.ops ensures OpInv(w', d, w'.ops[d]) { if d != c { assert OpInv(w, d, w.ops[d]); } }
    forall x, y, h | x in w'.ops && y in w'.ops && WorksOn(w'.ops[x], h) && WorksOn(w'.ops[y], h) ensures x == y {
      assert WorksOn(w.ops[x], h) && WorksOn(w.ops[y], h);
    }
  }

  lemma ResumeKeepsInv(cfg: Config, w: World, w': World, c: nat, r: Request)
    requires Inv(cfg, w) && DoResume(w, w', c, r)
    ensures Inv(cfg, w')
  {
    hide ClientInv, Wrote, Last, Increasing, Bounded, Handover, MessageInv;
    BucketIsWritten(cfg, w, r.key);
    assert w.bucket[r.key].value == Value(r.holder, r.expires, false);
    ResumeKeepsClients(w, w', c, r);
    SameStoreKeepsStore(cfg, w, w');
  }

  lemma AckKeepsInv(cfg: Config, w: World, w': World, c: nat, i: nat)
    requires Inv(cfg, w) && Ack(w, w', c, i)
    ensures Inv(cfg, w')
  {
    var m := w.ops[c].step.message;
    assert OpInv(w, c, w.ops[c]);
    assert Wrote(w.writes, w.writes[i].revision, m.key, m.value);
    hide Wrote, Last, Handover, Exclusive, BucketShowsLast, Increasing, Bounded;
    WinKeepsClients(w, c, w.writes[i].revision, m);
    SameStoreKeepsStore(cfg, w, w');
  }

  lemma SameStoreKeepsStore(cfg: Config, w: World, w': World)
    requires StoreInv(cfg, w)
    requires w'.clock == w.clock && w'.sequence == w.sequence && w'.bucket == w.bucket && w'.writes == w.writes
    requires w'.sent == w.sent
    ensures StoreInv(cfg, w')
  {
    hide Last, Wrote, Handover;
    forall m | m in w'.sent ensures MessageInv(w', m) { assert MessageInv(w, m); }
  }

  lemma FailKeepsInv(cfg: Config, w: World, w': World, c: nat, existed: bool)
    requires Inv(cfg, w) && Fail(w, w', c, existed)
    ensures Inv(cfg, w')
  {
    assert OpInv(w, c, w.ops[c]);
    var m := w.ops[c].step.message;
    assert m.expected == 0 ==> w.ops[c].request.Acquire? by {
      if m.expected == 0 { assert MessageInv(w, m); }
    }
    hide Wrote, Last, Handover, Exclusive, BucketShowsLast, Increasing, Bounded;
    SameStoreKeepsStore(cfg, w, w');
    MoveKeepsClients(w, w', c, m);
  }

  lemma LookKeepsInv(cfg: Config, w: World, w': World, c: nat)
    requires Inv(cfg, w) && DoLook(w, w', c)
    ensures Inv(cfg, w')
  {
    var r := w.ops[c].request;
    assert OpInv(w, c, w.ops[c]);
    var candidate := Value(r.holder, r.expires, false);
    if r.key in w.bucket {
      BucketIsWritten(cfg, w, r.key);
      WrittenIsBounded(cfg, w, w.bucket[r.key].revision, r.key, w.bucket[r.key].value);
    }
    if r.key in w.bucket && AfterGet(candidate, w.ops[c].step.existed, w.bucket[r.key], w.clock).Replace? {
      var m := Message(c, r.key, w.bucket[r.key].revision, candidate, Takeover);
      assert MessageInv(w, m) by { assert MayFollow(w.bucket[r.key].value, m, w.clock); }
      assert FirstPut(c, r) in w.sent;
      hide Wrote, Last, Handover, Exclusive, BucketShowsLast;
      SendKeepsStore(cfg, w, w', m);
      MoveKeepsClients(w, w', c, m);
    } else {
      hide Wrote, Last, Handover, Exclusive, BucketShowsLast, Increasing, Bounded;
      if r.key in w.bucket && AfterGet(candidate, w.ops[c].step.existed, w.bucket[r.key], w.clock).Owned? {
        WinKeepsClients(w, c, w.bucket[r.key].revision, FirstPut(c, r));
      } else {
        LoseKeepsClients(w, c);
      }
      SameStoreKeepsStore(cfg, w, w');
    }
  }

  lemma ReconcileKeepsInv(cfg: Config, w: World, w': World, c: nat)
    requires Inv(cfg, w) && Reconcile(w, w', c)
    ensures Inv(cfg, w')
  {
    var m := w.ops[c].step.message;
    assert OpInv(w, c, w.ops[c]);
    if m.key in w.bucket { BucketIsWritten(cfg, w, m.key); }
    hide Wrote, Last, Handover, Exclusive, BucketShowsLast, Increasing, Bounded;
    if m.key in w.bucket && Reconciled(w.bucket[m.key], m) {
      WinKeepsClients(w, c, w.bucket[m.key].revision, m);
    } else {
      LoseKeepsClients(w, c);
    }
    SameStoreKeepsStore(cfg, w, w');
  }

  lemma AbandonKeepsInv(cfg: Config, w: World, w': World, c: nat)
    requires Inv(cfg, w) && Abandon(w, w', c)
    ensures Inv(cfg, w')
  {
    hide Wrote, Last, Handover, Exclusive, BucketShowsLast, Increasing, Bounded;
    LoseKeepsClients(w, c);
    SameStoreKeepsStore(cfg, w, w');
  }

  lemma NextKeepsInv(cfg: Config, w: World, w': World)
    requires Inv(cfg, w) && cfg.maxLifetime < cfg.retention && Next(cfg, w, w')
    ensures Inv(cfg, w')
  {
    hide Inv, Purge, Deliver, StartAcquire, DoResume, StartRenew, StartRelease, Ack, Fail, DoLook, Reconcile, Abandon;
    if Tick(w, w') {
      StoreSideKeepsInv(cfg, w, w', "", Message(0, "", 0, Value("", 0, false), Takeover));
    } else if key :| Purge(cfg, w, w', key) {
      StoreSideKeepsInv(cfg, w, w', key, Message(0, "", 0, Value("", 0, false), Takeover));
    } else if m :| Deliver(w, w', m) {
      StoreSideKeepsInv(cfg, w, w', "", m);
    } else if c, r :| StartAcquire(cfg, w, w', c, r) || StartRenew(cfg, w, w', c, r) || StartRelease(w, w', c, r) {
      StartKeepsInv(cfg, w, w', c, r);
    } else if c, r :| DoResume(w, w', c, r) {
      ResumeKeepsInv(cfg, w, w', c, r);
    } else if c, i :| Ack(w, w', c, i) {
      AckKeepsInv(cfg, w, w', c, i);
    } else if c, existed :| Fail(w, w', c, existed) {
      FailKeepsInv(cfg, w, w', c, existed);
    } else if c :| DoLook(w, w', c) {
      LookKeepsInv(cfg, w, w', c);
    } else if c :| Reconcile(w, w', c) {
      ReconcileKeepsInv(cfg, w, w', c);
    } else {
      var c :| Abandon(w, w', c);
      AbandonKeepsInv(cfg, w, w', c);
    }
  }

  lemma StoreSideKeepsInv(cfg: Config, w: World, w': World, key: Digest, m: Message)
    requires Inv(cfg, w) && cfg.maxLifetime < cfg.retention
    requires (Tick(w, w') || Purge(cfg, w, w', key) || Deliver(w, w', m))
    ensures Inv(cfg, w')
  {
    hide StoreInv, ClientInv, Wrote;
    if Deliver(w, w', m) {
      DeliverKeepsStore(cfg, w, w', m);
      if w' != w { WroteGrows(w.writes, Write(m, w'.sequence, w.clock)); }
    } else {
      TimeKeepsStore(cfg, w, w', key);
    }
    StoreStepKeepsClients(w, w');
  }

  // --------------------------------------------------------------- whole runs

  ghost predicate IsRun(cfg: Config, run: seq<World>) {
    && cfg.maxLifetime < cfg.retention
    && |run| > 0 && Init(run[0])
    && forall i :: 0 <= i < |run| - 1 ==> Next(cfg, run[i], run[i + 1])
  }

  lemma {:induction false} RunKeepsInv(cfg: Config, run: seq<World>, i: nat)
    requires IsRun(cfg, run) && i < |run|
    ensures Inv(cfg, run[i])
  {
    if i > 0 {
      RunKeepsInv(cfg, run, i - 1);
      assert Next(cfg, run[i - 1], run[i - 1 + 1]);
      hide Inv, Next;
      NextKeepsInv(cfg, run[i - 1], run[i]);
    }
  }

  /** Writes are only added, so stored revisions of a key only grow. */
  lemma {:induction false} WritesOnlyGrow(cfg: Config, run: seq<World>, i: nat, j: nat)
    requires IsRun(cfg, run) && i <= j < |run|
    ensures run[i].writes <= run[j].writes && run[i].clock <= run[j].clock && run[i].sequence <= run[j].sequence
    decreases j
  {
    hide Next;
    if i < j {
      WritesOnlyGrow(cfg, run, i, j - 1);
      assert Next(cfg, run[j - 1], run[j - 1 + 1]);
      NextOnlyAdds(cfg, run[j - 1], run[j]);
    }
  }

  lemma NextOnlyAdds(cfg: Config, w: World, w': World)
    requires Next(cfg, w, w')
    ensures w.writes <= w'.writes && w.clock <= w'.clock && w.sequence <= w'.sequence
  {
    hide Win, Lose, Matches, Resumable, Reconciled, ValidExpiry;
  }

  /** A lease passes to another holder, or is replaced at all, only by an Acquire over a released or
      expired record; other writes renew or release the previous holder's own unreleased lease. */
  lemma HandoverOnlyWhenOver(cfg: Config, run: seq<World>, i: nat, j: nat, k: nat)
    requires IsRun(cfg, run) && i < |run| && j < k < |run[i].writes|
    requires run[i].writes[j].message.key == run[i].writes[k].message.key
    requires forall x :: j < x < k ==> run[i].writes[x].message.key != run[i].writes[k].message.key
    ensures var prev, next, at := run[i].writes[j].message.value, run[i].writes[k].message, run[i].writes[k].at;
            && run[i].writes[j].revision < run[i].writes[k].revision
            && MayFollow(prev, next, at)
            && (next.value.holder != prev.holder ==> prev.released || prev.expires <= at)
  {
    RunKeepsInv(cfg, run, i);
    LastSkips(run[i].writes[..k], j, run[i].writes[k].message.key);
  }

  lemma {:induction false} LastSkips(writes: seq<Write>, j: nat, key: Digest)
    requires j < |writes| && writes[j].message.key == key
    requires forall x :: j < x < |writes| ==> writes[x].message.key != key
    ensures Last(writes, key) == [writes[j]]
    decreases |writes|
  {
    if j < |writes| - 1 {
      LastSkips(writes[..|writes| - 1], j, key);
    }
  }

  /** Handles with equal tokens agree on key, holder, expiry and release. */
  lemma EqualTokensAgree(cfg: Config, run: seq<World>, i: nat, a: nat, b: nat)
    requires IsRun(cfg, run) && i < |run| && a in run[i].handles && b in run[i].handles
    requires run[i].handles[a].revision == run[i].handles[b].revision
    ensures run[i].handles[a] == run[i].handles[b]
  {
    RunKeepsInv(cfg, run, i);
    var w := run[i];
    var x, y := w.handles[a], w.handles[b];
    assert HandleInv(w, x) && HandleInv(w, y);
    SameRevisionSameValue(w, x.revision, x.key, Value(x.holder, x.expires, x.released),
                          y.key, Value(y.holder, y.expires, y.released));
  }

  /** Two handles that are both current for a key are the same lease: mutual exclusion by token. */
  lemma CurrentHandlesAgree(cfg: Config, run: seq<World>, i: nat, a: nat, b: nat)
    requires IsRun(cfg, run) && i < |run| && a in run[i].handles && b in run[i].handles
    requires run[i].handles[a].key == run[i].handles[b].key && run[i].handles[a].key in run[i].bucket
    requires run[i].bucket[run[i].handles[a].key].revision == run[i].handles[a].revision
    requires run[i].bucket[run[i].handles[b].key].revision == run[i].handles[b].revision
    ensures run[i].handles[a] == run[i].handles[b]
    ensures run[i].bucket[run[i].handles[a].key].value ==
              Value(run[i].handles[a].holder, run[i].handles[a].expires, run[i].handles[a].released)
  {
    EqualTokensAgree(cfg, run, i, a, b);
    RunKeepsInv(cfg, run, i);
    var w, h := run[i], run[i].handles[a];
    assert HandleInv(w, h);
    BucketIsWritten(cfg, w, h.key);
    SameRevisionSameValue(w, h.revision, h.key, Value(h.holder, h.expires, h.released), h.key, w.bucket[h.key].value);
  }

  /** Once a key has a write newer than the revision a message expects, the message never commits. */
  lemma StaleNeverCommits(cfg: Config, run: seq<World>, i: nat, j: nat, m: Message, k: nat)
    requires IsRun(cfg, run) && i <= j < |run| - 1 && k < |run[i].writes|
    requires run[i].writes[k].message.key == m.key && 0 < m.expected < run[i].writes[k].revision
    requires Deliver(run[j], run[j + 1], m)
    ensures run[j + 1] == run[j]
  {
    WritesOnlyGrow(cfg, run, i, j);
    RunKeepsInv(cfg, run, j);
    var w := run[j];
    assert w.writes[k] == run[i].writes[k];
    if m.key in w.bucket {
      LastIsNewest(w.writes, k, m.key);
      hide Handover, MessageInv;
      assert w.bucket[m.key].revision == Last(w.writes, m.key)[0].revision;
      LastIsWritten(w.writes, m.key);
    }
  }

  lemma {:induction false} LastIsNewest(writes: seq<Write>, k: nat, key: Digest)
    requires k < |writes| && writes[k].message.key == key
    requires forall a, b :: 0 <= a < b < |writes| ==> writes[a].revision < writes[b].revision
    ensures Last(writes, key) != [] && writes[k].revision <= Last(writes, key)[0].revision
    decreases |writes|
  {
    if writes[|writes| - 1].message.key != key {
      LastIsNewest(writes[..|writes| - 1], k, key);
    }
  }

  /** Every success reported to a caller names a write of exactly the caller's own bytes, newer than the
      revision its put expected. */
  lemma SuccessHoldsOwnBytes(cfg: Config, run: seq<World>, i: nat, x: Won)
    requires IsRun(cfg, run) && i < |run| && x in run[i].wins
    ensures x.message.expected < x.revision
    ensures exists k :: 0 <= k < |run[i].writes| && run[i].writes[k].revision == x.revision
                        && run[i].writes[k].message.key == x.message.key
                        && run[i].writes[k].message.value == x.message.value
  {
    RunKeepsInv(cfg, run, i);
  }
}
