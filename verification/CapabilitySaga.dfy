/**
 The reserve, acquire, seal and commit saga of internal/primitives/service.go, run by any
 number of callers at once over the leases of LeaseProtocol and the compare-and-swap
 budget of internal/coordination/jetstreamkv/budget.go.  Every step may fail, every put
 may commit late, and budget records are forgotten after their retention.
 */
module CapabilitySaga {
  import LP = LeaseProtocol
  import opened BudgetSlots
  import opened Coordination

  datatype Kind = Acquiring | Renewing(prior: Token) | Releasing(prior: Token)

  /** A put of a principal's slots; `expected` counts the writes it has seen, 0 for an absent record. */
  datatype Message = Message(saga: Token, principal: Digest, expected: nat, slots: set<Slot>, op: Op)

  datatype Step = Ready(op: Op) | Putting(message: Message) | Looking(message: Message) | Leasing | Ended

  /** A call of Acquire, Renew or Release, named by the token it draws. */
  datatype Saga = Saga(principal: Digest, kind: Kind, key: Digest, holder: Digest, expires: Time, step: Step)

  datatype Entry = Entry(slots: set<Slot>, at: Time)

  datatype Config = Config(lease: LP.Config, limits: Limits)

  datatype World = World(
    lease: LP.World,
    log: map<Digest, seq<Entry>>,
    present: set<Digest>,
    sent: set<Message>,
    committed: set<Message>,
    sagas: map<Token, Saga>,
    fences: map<Token, nat>,
    returned: set<Token>)

  function Log(w: World, p: Digest): seq<Entry> {
    if p in w.log then w.log[p] else []
  }

  function Version(w: World, p: Digest): nat {
    if p in w.present then |Log(w, p)| else 0
  }

  /** The slots after `n` writes; none when the record is absent. */
  function SlotsAt(log: seq<Entry>, n: nat): set<Slot> {
    if 0 < n <= |log| then log[n - 1].slots else {}
  }

  function Current(w: World, p: Digest): set<Slot> {
    SlotsAt(Log(w, p), Version(w, p))
  }

  // ------------------------------------------------------------------------ steps

  ghost predicate Init(w: World) {
    && LP.Init(w.lease) && w.log == map[] && w.present == {} && w.sent == {} && w.committed == {}
    && w.sagas == map[] && w.fences == map[] && w.returned == {}
  }

  ghost predicate LeaseStep(cfg: Config, w: World, w': World) {
    LP.Next(cfg.lease, w.lease, w'.lease) && w' == w.(lease := w'.lease)
  }

  ghost predicate Forget(cfg: Config, w: World, w': World, p: Digest) {
    && p in w.present && Log(w, p) != [] && Log(w, p)[|Log(w, p)| - 1].at + cfg.lease.retention <= w.lease.clock
    && w' == w.(present := w.present - {p})
  }

  ghost predicate Deliver(w: World, w': World, m: Message) {
    && m in w.sent
    && (if m.expected == Version(w, m.principal)
        then w' == w.(log := w.log[m.principal := Log(w, m.principal) + [Entry(m.slots, w.lease.clock)]],
                      present := w.present + {m.principal}, committed := w.committed + {m})
        else w' == w)
  }

  ghost predicate StartAcquire(w: World, w': World, id: Token, s: Saga) {
    && id !in w.sagas && s.kind.Acquiring? && s.step == Ready(Reserve(id, s.expires))
    && w' == w.(sagas := w.sagas[id := s])
  }

  /** Renew or Release of a capability that was returned, by the principal it was sealed for. */
  ghost predicate StartNext(w: World, w': World, id: Token, s: Saga) {
    && id !in w.sagas && !s.kind.Acquiring? && s.kind.prior in w.returned && s.kind.prior in w.sagas
    && var prior := w.sagas[s.kind.prior];
       && s.principal == prior.principal && s.key == prior.key && s.holder == prior.holder && s.step == Leasing
       && (s.kind.Releasing? ==> s.expires == prior.expires)
       && w' == w.(sagas := w.sagas[id := s])
  }

  ghost function At(w: World, id: Token, step: Step): World
    requires id in w.sagas
  {
    w.(sagas := w.sagas[id := w.sagas[id].(step := step)])
  }

  /** Read the record, change its slots and send the put, or end with the error of the change. */
  ghost predicate Compute(cfg: Config, w: World, w': World, id: Token) {
    && id in w.sagas && w.sagas[id].step.Ready?
    && var p, op, now := w.sagas[id].principal, w.sagas[id].step.op, w.lease.clock;
       match Meaning(cfg.limits, Live(Current(w, p), now), op, now)
       case Err(_) => w' == At(w, id, Ended)
       case Ok(slots) =>
         var m := Message(id, p, Version(w, p), slots, op);
         w' == At(w.(sent := w.sent + {m}), id, Putting(m))
  }

  /** The budget call of this saga succeeds. */
  ghost function Succeed(w: World, id: Token, op: Op): World
    requires id in w.sagas
  {
    if op.Reserve? then At(w, id, Leasing)
    else if op.Commit? || op.Replace? then At(w.(returned := w.returned + {id}), id, Ended)
    else At(w, id, Ended)
  }

  ghost predicate Ack(w: World, w': World, id: Token) {
    && id in w.sagas && w.sagas[id].step.Putting? && w.sagas[id].step.message in w.committed
    && w' == Succeed(w, id, w.sagas[id].step.message.op)
  }

  ghost predicate Fail(w: World, w': World, id: Token) {
    && id in w.sagas && w.sagas[id].step.Putting?
    && w' == At(w, id, Looking(w.sagas[id].step.message))
  }

  ghost predicate Reconcile(w: World, w': World, id: Token) {
    && id in w.sagas && w.sagas[id].step.Looking?
    && var m := w.sagas[id].step.message;
       w' == if Version(w, m.principal) > m.expected && Current(w, m.principal) == m.slots
             then Succeed(w, id, m.op) else At(w, id, Ended)
  }

  /** The success this saga's lease call reports. */
  ghost predicate Answers(w: World, s: Saga, x: LP.Won) {
    && x.message.key == s.key
    && match s.kind
       case Acquiring => x.message.value == LP.Value(s.holder, s.expires, false)
       case Renewing(prior) =>
         && x.message.value == LP.Value(s.holder, s.expires, false)
         && prior in w.fences && x.message.expected == w.fences[prior]
       case Releasing(prior) =>
         && x.message.value == LP.Value(s.holder, s.expires, true)
         && prior in w.fences && x.message.expected == w.fences[prior]
  }

  /** The lease call succeeded; sealing may still fail. */
  ghost predicate LeaseWon(w: World, w': World, id: Token, x: LP.Won, sealed: bool) {
    && id in w.sagas && w.sagas[id].step.Leasing? && x in w.lease.wins && Answers(w, w.sagas[id], x)
    && match w.sagas[id].kind
       case Acquiring =>
         w' == At(w.(fences := w.fences[id := x.revision]), id, Ready(if sealed then Commit(id) else Cancel(id)))
       case Renewing(prior) =>
         w' == At(w.(fences := w.fences[id := x.revision]), id,
                  if sealed then Ready(Replace(prior, id, w.sagas[id].expires)) else Ended)
       case Releasing(prior) => w' == At(w, id, Ready(Retire(prior)))
  }

  ghost predicate LeaseLost(w: World, w': World, id: Token) {
    && id in w.sagas && w.sagas[id].step.Leasing?
    && w' == At(w, id, if w.sagas[id].kind.Acquiring? then Ready(Cancel(id)) else Ended)
  }

  /** Any error that ends a call early, at any step. */
  ghost predicate Crash(w: World, w': World, id: Token) {
    id in w.sagas && w' == At(w, id, Ended)
  }

  ghost predicate Next(cfg: Config, w: World, w': World) {
    || LeaseStep(cfg, w, w')
    || (exists p :: Forget(cfg, w, w', p))
    || (exists m :: Deliver(w, w', m))
    || (exists id, s :: StartAcquire(w, w', id, s) || StartNext(w, w', id, s))
    || (exists id ::
          || Compute(cfg, w, w', id) || Ack(w, w', id) || Fail(w, w', id)
          || Reconcile(w, w', id) || LeaseLost(w, w', id) || Crash(w, w', id))
    || (exists id, x, sealed :: LeaseWon(w, w', id, x, sealed))
  }

  // -------------------------------------------------------------------- invariant

  ghost predicate NewerWrite(w: World, id: Token, i: int)
    requires id in w.fences && id in w.sagas
  {
    && 0 <= i < |w.lease.writes| && w.lease.writes[i].message.key == w.sagas[id].key
    && w.lease.writes[i].revision > w.fences[id]
  }

  /** The lease of a granted saga has been written over, so its capability can no longer be resumed. */
  ghost predicate Superseded(w: World, id: Token) {
    && id in w.fences && id in w.sagas
    && exists i :: NewerWrite(w, id, i)
  }

  ghost predicate FenceInv(w: World) {
    forall id :: id in w.fences ==>
      && id in w.sagas && !Early(w.sagas[id].step)
      && LP.Wrote(w.lease.writes, w.fences[id], w.sagas[id].key,
                  LP.Value(w.sagas[id].holder, w.sagas[id].expires, false))
  }

  /** Steps before the lease is held. */
  predicate Early(step: Step) {
    match step
    case Leasing => true
    case Ready(op) => op.Reserve?
    case Putting(m) => m.op.Reserve?
    case Looking(m) => m.op.Reserve?
    case Ended => false
  }

  ghost predicate OpInv(w: World, id: Token, op: Op) {
    && id in w.sagas
    && var s := w.sagas[id];
       match op
       case Reserve(t, e) => t == id && e == s.expires && s.kind.Acquiring?
       case Commit(t) => t == id && id in w.fences
       case Cancel(t) => t == id
       case Replace(t, n, e) => n == id && e == s.expires && id in w.fences && Superseded(w, t)
       case Retire(t) => Superseded(w, t)
  }

  ghost predicate SlotInv(w: World, p: Digest, s: Slot) {
    && s.token in w.sagas && w.sagas[s.token].principal == p && s.leaseExpires == w.sagas[s.token].expires
    && (s.active ==> s.expires == s.leaseExpires && s.token in w.fences)
  }

  ghost predicate Unique(v: set<Slot>) {
    forall s, t :: s in v && t in v && s.token == t.token ==> s == t
  }

  ghost predicate SlotsInv(cfg: Config, w: World, p: Digest, v: set<Slot>) {
    |v| <= cfg.limits.limit && Unique(v) && forall s :: s in v ==> SlotInv(w, p, s)
  }

  ghost predicate EntryInv(cfg: Config, w: World, p: Digest, e: Entry) {
    && SlotsInv(cfg, w, p, e.slots) && e.at <= w.lease.clock
    && (forall s :: s in e.slots && s.active ==> s.expires <= e.at + cfg.lease.maxLifetime)
  }

  ghost predicate LogInv(cfg: Config, w: World) {
    forall p, i :: 0 <= i < |Log(w, p)| ==> EntryInv(cfg, w, p, Log(w, p)[i])
  }

  /** A put was computed from the slots at its version, at some earlier time. */
  ghost predicate Computed(cfg: Config, w: World, m: Message, t: Time) {
    t <= w.lease.clock && Meaning(cfg.limits, Live(SlotsAt(Log(w, m.principal), m.expected), t), m.op, t) == Ok(m.slots)
  }

  ghost predicate MessageInv(cfg: Config, w: World, m: Message) {
    && OpInv(w, m.saga, m.op) && m.principal == w.sagas[m.saga].principal && m.expected <= |Log(w, m.principal)|
    && (exists t :: Computed(cfg, w, m, t))
  }

  ghost predicate Written(w: World, p: Digest, v: set<Slot>) {
    exists i :: 0 <= i < |Log(w, p)| && Log(w, p)[i].slots == v
  }

  /** An active slot stays until it expires or its lease is superseded. */
  ghost predicate Kept(w: World) {
    forall p, i, s :: 0 <= i < |Log(w, p)| && s in Log(w, p)[i].slots && s.active ==> Safe(w, p, s)
  }

  ghost predicate Safe(w: World, p: Digest, s: Slot) {
    s in Current(w, p) || s.expires <= w.lease.clock || Superseded(w, s.token)
  }

  ghost predicate BudgetInv(cfg: Config, w: World) {
    && LogInv(cfg, w) && Kept(w)
    && (forall m :: m in w.sent ==> MessageInv(cfg, w, m))
    && (forall m :: m in w.committed ==> m in w.sent && Written(w, m.principal, m.slots))
  }

  ghost function ActiveSlot(w: World, id: Token): Slot
    requires id in w.sagas
  {
    Slot(id, w.sagas[id].expires, w.sagas[id].expires, true)
  }

  ghost predicate StepInv(w: World, id: Token) {
    && id in w.sagas
    && match w.sagas[id].step
       case Ready(op) => OpInv(w, id, op)
       case Putting(m) => m in w.sent && m.saga == id
       case Looking(m) => m in w.sent && m.saga == id
       case Leasing => !w.sagas[id].kind.Acquiring? ==> Continues(w, w.sagas[id])
       case Ended => true
  }

  ghost predicate Continues(w: World, s: Saga) {
    !s.kind.Acquiring? && s.kind.prior in w.sagas && s.kind.prior in w.fences && w.sagas[s.kind.prior].key == s.key
  }

  ghost predicate ReturnedInv(w: World, id: Token) {
    && id in w.sagas
    && var log := Log(w, w.sagas[id].principal);
       exists i :: 0 <= i < |log| && ActiveSlot(w, id) in log[i].slots
  }

  ghost predicate SagaInv(w: World) {
    && FenceInv(w)
    && (forall id :: id in w.sagas ==> StepInv(w, id))
    && (forall id :: id in w.returned ==> ReturnedInv(w, id))
  }

  ghost predicate Inv(cfg: Config, w: World) {
    LP.Inv(cfg.lease, w.lease) && BudgetInv(cfg, w) && SagaInv(w)
  }

  // ------------------------------------------------------------ what time preserves

  /** Sagas keep their request, fences are fixed once known, writes and time only grow. */
  ghost predicate Later(w: World, w': World) {
    && (forall id :: id in w.sagas ==> id in w'.sagas && w'.sagas[id].(step := w.sagas[id].step) == w.sagas[id])
    && (forall id :: id in w.fences ==> id in w'.fences && w'.fences[id] == w.fences[id])
    && w.lease.writes <= w'.lease.writes && w.lease.clock <= w'.lease.clock
  }

  lemma LaterSuperseded(w: World, w': World, id: Token)
    requires Later(w, w') && Superseded(w, id)
    ensures Superseded(w', id)
  {
    var i :| NewerWrite(w, id, i);
    assert w'.lease.writes[i] == w.lease.writes[i];
    assert NewerWrite(w', id, i);
  }

  lemma LaterOp(w: World, w': World, id: Token, op: Op)
    requires Later(w, w') && OpInv(w, id, op)
    ensures OpInv(w', id, op)
  {
    if op.Replace? || op.Retire? { LaterSuperseded(w, w', op.token); }
    hide Superseded;
  }

  lemma LaterSlots(cfg: Config, w: World, w': World, p: Digest, v: set<Slot>)
    requires Later(w, w') && SlotsInv(cfg, w, p, v)
    ensures SlotsInv(cfg, w', p, v)
  {
    hide Unique;
    forall s | s in v ensures SlotInv(w', p, s) { assert SlotInv(w, p, s); }
  }

  lemma LaterLog(cfg: Config, w: World, w': World)
    requires Later(w, w') && LogInv(cfg, w) && w'.log == w.log
    ensures LogInv(cfg, w')
  {
    hide SlotsInv;
    forall p, i | 0 <= i < |Log(w', p)| ensures EntryInv(cfg, w', p, Log(w', p)[i]) {
      assert EntryInv(cfg, w, p, Log(w, p)[i]);
      LaterSlots(cfg, w, w', p, Log(w, p)[i].slots);
    }
  }

  lemma LaterMessage(cfg: Config, w: World, w': World, m: Message)
    requires Later(w, w') && MessageInv(cfg, w, m)
    requires Log(w, m.principal) <= Log(w', m.principal)
    ensures MessageInv(cfg, w', m)
  {
    assert m.saga in w.sagas;
    LaterOp(w, w', m.saga, m.op);
    hide OpInv, Meaning;
    var t :| Computed(cfg, w, m, t);
    assert SlotsAt(Log(w', m.principal), m.expected) == SlotsAt(Log(w, m.principal), m.expected);
    assert Computed(cfg, w', m, t);
  }

  lemma LaterKept(w: World, w': World)
    requires Later(w, w') && Kept(w) && w'.log == w.log && w'.present == w.present
    ensures Kept(w')
  {
    hide Superseded;
    forall p, i, s | 0 <= i < |Log(w', p)| && s in Log(w', p)[i].slots && s.active ensures Safe(w', p, s) {
      assert s in Log(w, p)[i].slots && Safe(w, p, s);
      if Superseded(w, s.token) { LaterSuperseded(w, w', s.token); }
    }
  }

  lemma SameLogWritten(w: World, w': World, m: Message)
    requires w'.log == w.log && Written(w, m.principal, m.slots)
    ensures Written(w', m.principal, m.slots)
  {
    var i :| 0 <= i < |Log(w, m.principal)| && Log(w, m.principal)[i].slots == m.slots;
    assert Log(w', m.principal)[i].slots == m.slots;
  }

  /** A step that leaves the budget records and puts alone. */
  lemma SameBudgetKeepsBudget(cfg: Config, w: World, w': World)
    requires Later(w, w') && BudgetInv(cfg, w)
    requires w'.log == w.log && w'.present == w.present && w'.sent == w.sent && w'.committed == w.committed
    ensures BudgetInv(cfg, w')
  {
    hide LogInv, Kept, MessageInv, Later;
    LaterLog(cfg, w, w');
    LaterKept(w, w');
    forall m | m in w'.sent ensures MessageInv(cfg, w', m) { LaterMessage(cfg, w, w', m); }
    forall m | m in w'.committed ensures Written(w', m.principal, m.slots) { SameLogWritten(w, w', m); }
  }

  lemma LaterStep(w: World, w': World, id: Token)
    requires Later(w, w') && StepInv(w, id) && w.sent <= w'.sent && w'.sagas[id] == w.sagas[id]
    ensures StepInv(w', id)
  {
    if w.sagas[id].step.Ready? { LaterOp(w, w', id, w.sagas[id].step.op); }
    hide OpInv;
  }

  lemma LaterReturned(w: World, w': World, id: Token)
    requires Later(w, w') && ReturnedInv(w, id) && Log(w, w.sagas[id].principal) <= Log(w', w.sagas[id].principal)
    ensures ReturnedInv(w', id)
  {
    var log, log' := Log(w, w.sagas[id].principal), Log(w', w.sagas[id].principal);
    var i :| 0 <= i < |log| && ActiveSlot(w, id) in log[i].slots;
    assert log'[i] == log[i];
  }

  lemma LaterFences(w: World, w': World, id: Token)
    requires Later(w, w') && id in w.fences && FenceInv(w)
    ensures LP.Wrote(w'.lease.writes, w'.fences[id], w'.sagas[id].key,
                     LP.Value(w'.sagas[id].holder, w'.sagas[id].expires, false))
  {
    var s := w.sagas[id];
    assert LP.Wrote(w.lease.writes, w.fences[id], s.key, LP.Value(s.holder, s.expires, false));
    var i :| 0 <= i < |w.lease.writes| && w.lease.writes[i].revision == w.fences[id]
        && w.lease.writes[i].message.key == s.key
             && w.lease.writes[i].message.value == LP.Value(s.holder, s.expires, false);
    assert w'.lease.writes[i] == w.lease.writes[i];
  }

  /** Steps of other parties leave every saga where it is. */
  lemma SameSagasKeepsSagas(w: World, w': World)
    requires Later(w, w') && SagaInv(w) && w'.sagas == w.sagas && w'.fences == w.fences && w'.returned == w.returned
    requires w.sent <= w'.sent
    requires forall p :: Log(w, p) <= Log(w', p)
    ensures SagaInv(w')
  {
    hide Later, StepInv, ReturnedInv, LP.Wrote;
    forall id | id in w'.sagas ensures StepInv(w', id) { LaterStep(w, w', id); }
    forall id | id in w'.returned ensures ReturnedInv(w', id) { LaterReturned(w, w', id); }
    forall id | id in w'.fences
      ensures LP.Wrote(w'.lease.writes, w'.fences[id], w'.sagas[id].key,
                       LP.Value(w'.sagas[id].holder, w'.sagas[id].expires, false))
    {
      LaterFences(w, w', id);
    }
  }

  /** One saga moves on, possibly learning its fence or being granted. */
  lemma OneSagaKeepsSagas(w: World, w': World, id: Token)
    requires Later(w, w') && SagaInv(w) && w.sent <= w'.sent && w'.log == w.log
    requires w'.sagas.Keys == w.sagas.Keys + {id} && forall d :: d in w.sagas && d != id ==> w'.sagas[d] == w.sagas[d]
    requires w'.fences.Keys <= w.fences.Keys + {id} && w'.returned <= w.returned + {id}
    requires StepInv(w', id)
    requires id in w'.returned ==> ReturnedInv(w', id)
    requires id in w'.fences ==> !Early(w'.sagas[id].step)
    requires id in w'.fences && id !in w.fences ==>
               var s := w'.sagas[id];
               LP.Wrote(w'.lease.writes, w'.fences[id], s.key, LP.Value(s.holder, s.expires, false))
    ensures SagaInv(w')
  {
    hide StepInv, ReturnedInv, LP.Wrote, Early;
    forall d | d in w'.sagas ensures StepInv(w', d) { if d != id { assert d in w.sagas; LaterStep(w, w', d); } }
    forall d | d in w'.returned ensures ReturnedInv(w', d) { if d != id { LaterReturned(w, w', d); } }
    forall d | d in w'.fences
      ensures !Early(w'.sagas[d].step)
      ensures LP.Wrote(w'.lease.writes, w'.fences[d], w'.sagas[d].key,
                       LP.Value(w'.sagas[d].holder, w'.sagas[d].expires, false))
    {
      if d in w.fences { LaterFences(w, w', d); }
    }
  }

  // --------------------------------------------------------- what a budget change keeps

  lemma LiveIsFewer(v: set<Slot>, now: Time)
    ensures |Live(v, now)| <= |v|
  {
    Fewer(Live(v, now), v);
  }

  lemma {:induction false} Fewer<T>(a: set<T>, b: set<T>)
    requires a <= b
    ensures |a| <= |b|
  {
    if a != {} {
      var x :| x in a;
      Fewer(a - {x}, b - {x});
    }
  }

  /** The changed slots are again those of this principal, one per token, within the limit. */
  lemma ChangeKeepsSlots(cfg: Config, w: World, p: Digest, base: set<Slot>, id: Token, op: Op, t: Time)
    requires SlotsInv(cfg, w, p, base) && OpInv(w, id, op) && w.sagas[id].principal == p
    requires Meaning(cfg.limits, Live(base, t), op, t).Ok?
    ensures SlotsInv(cfg, w, p, Meaning(cfg.limits, Live(base, t), op, t).value)
  {
    var live := Live(base, t);
    var v := Meaning(cfg.limits, live, op, t).value;
    LiveIsFewer(base, t);
    assert SlotsInv(cfg, w, p, live);
    hide Live, Superseded;
    match op {
      case Reserve(token, expires) =>
        AddKeepsSlots(cfg, w, p, live, Slot(token, PendingExpiry(cfg.limits, expires, t), expires, false));
      case Commit(token) =>
        var s := The(live, token, false);
        assert SlotInv(w, p, s);
        RemoveKeepsSlots(cfg, w, p, live, s);
        AddKeepsSlots(cfg, w, p, live - {s}, Slot(token, s.leaseExpires, s.leaseExpires, true));
      case Cancel(token) => RemoveKeepsSlots(cfg, w, p, live, The(live, token, false));
      case Replace(token, next, expires) =>
        var s := The(live, token, true);
        RemoveKeepsSlots(cfg, w, p, live, s);
        AddKeepsSlots(cfg, w, p, live - {s}, Slot(next, expires, expires, true));
      case Retire(token) => RemoveKeepsSlots(cfg, w, p, live, The(live, token, true));
    }
  }

  lemma RemoveKeepsSlots(cfg: Config, w: World, p: Digest, v: set<Slot>, s: Slot)
    requires SlotsInv(cfg, w, p, v) && s in v
    ensures SlotsInv(cfg, w, p, v - {s}) && |v - {s}| < cfg.limits.limit
  {}

  lemma AddKeepsSlots(cfg: Config, w: World, p: Digest, v: set<Slot>, s: Slot)
    requires SlotsInv(cfg, w, p, v) && |v| < cfg.limits.limit && SlotInv(w, p, s)
    requires forall x :: x in v ==> x.token != s.token
    ensures SlotsInv(cfg, w, p, v + {s})
  {
    hide SlotInv;
  }

  /** Only Replace and Retire of its own token take a live active slot away; Commit and Replace leave one in place. */
  lemma ChangeKeepsActive(lim: Limits, base: set<Slot>, op: Op, t: Time, s: Slot)
    requires Unique(base) && Meaning(lim, Live(base, t), op, t).Ok? && s in base && s.active && s.expires > t
    ensures s in Meaning(lim, Live(base, t), op, t).value || ((op.Replace? || op.Retire?) && op.token == s.token)
  {}

  lemma ChangeGrants(cfg: Config, w: World, p: Digest, base: set<Slot>, id: Token, op: Op, t: Time)
    requires SlotsInv(cfg, w, p, base) && OpInv(w, id, op) && (op.Commit? || op.Replace?)
    requires Meaning(cfg.limits, Live(base, t), op, t).Ok?
    ensures ActiveSlot(w, id) in Meaning(cfg.limits, Live(base, t), op, t).value
  {
    hide Unique, Superseded;
    if op.Commit? { assert SlotInv(w, p, The(Live(base, t), op.token, false)); }
  }

  // -------------------------------------------------------------------- budget steps

  lemma SlotsAtInv(cfg: Config, w: World, p: Digest, n: nat)
    requires LogInv(cfg, w)
    ensures SlotsInv(cfg, w, p, SlotsAt(Log(w, p), n))
  {
    if 0 < n <= |Log(w, p)| { assert EntryInv(cfg, w, p, Log(w, p)[n - 1]); }
  }

  lemma ActiveIsBounded(cfg: Config, w: World, p: Digest, s: Slot)
    requires LP.Inv(cfg.lease, w.lease) && FenceInv(w) && SlotInv(w, p, s) && s.active
    ensures s.expires <= w.lease.clock + cfg.lease.maxLifetime
  {
    var saga := w.sagas[s.token];
    LP.WrittenIsBounded(cfg.lease, w.lease, w.fences[s.token], saga.key, LP.Value(saga.holder, saga.expires, false));
  }

  lemma DeliveredEntry(cfg: Config, w: World, m: Message)
    requires LP.Inv(cfg.lease, w.lease) && FenceInv(w) && LogInv(cfg, w) && MessageInv(cfg, w, m)
    ensures EntryInv(cfg, w, m.principal, Entry(m.slots, w.lease.clock))
  {
    hide LP.Inv, LogInv, FenceInv, OpInv, SlotInv, Meaning, Unique;
    var t :| Computed(cfg, w, m, t);
    SlotsAtInv(cfg, w, m.principal, m.expected);
    ChangeKeepsSlots(cfg, w, m.principal, SlotsAt(Log(w, m.principal), m.expected), m.saga, m.op, t);
    forall s | s in m.slots && s.active ensures s.expires <= w.lease.clock + cfg.lease.maxLifetime {
      ActiveIsBounded(cfg, w, m.principal, s);
    }
  }

  /** A commit keeps every active slot that is neither expired nor superseded. */
  lemma DeliverKeepsSafe(cfg: Config, w: World, w': World, m: Message, s: Slot)
    requires LogInv(cfg, w) && MessageInv(cfg, w, m) && Deliver(w, w', m) && w' != w
    requires Safe(w, m.principal, s) && s.active
    ensures Safe(w', m.principal, s)
  {
    hide LogInv, Meaning, Unique, SlotInv;
    var p := m.principal;
    var t :| Computed(cfg, w, m, t);
    SlotsAtInv(cfg, w, p, m.expected);
    assert Current(w', p) == m.slots;
    if Superseded(w, s.token) {
      LaterSuperseded(w, w', s.token);
    } else if s in Current(w, p) && s.expires > w.lease.clock {
      ChangeKeepsActive(cfg.limits, Current(w, p), m.op, t, s);
    }
  }

  lemma DeliverKeepsLog(cfg: Config, w: World, w': World, m: Message)
    requires LogInv(cfg, w) && Deliver(w, w', m) && w' != w
    requires EntryInv(cfg, w, m.principal, Entry(m.slots, w.lease.clock))
    ensures LogInv(cfg, w')
  {
    hide SlotsInv;
    forall p, i | 0 <= i < |Log(w', p)| ensures EntryInv(cfg, w', p, Log(w', p)[i]) {
      var e := Log(w', p)[i];
      assert EntryInv(cfg, w, p, e) by {
        if p != m.principal || i < |Log(w, p)| { assert e == Log(w, p)[i]; }
      }
      LaterSlots(cfg, w, w', p, e.slots);
    }
  }

  lemma DeliverKeepsKept(cfg: Config, w: World, w': World, m: Message)
    requires LogInv(cfg, w) && Kept(w) && MessageInv(cfg, w, m) && Deliver(w, w', m) && w' != w
    ensures Kept(w')
  {
    hide LogInv, MessageInv, Superseded;
    forall p, i, s | 0 <= i < |Log(w', p)| && s in Log(w', p)[i].slots && s.active ensures Safe(w', p, s) {
      if p != m.principal {
        assert Safe(w, p, s) by { assert s in Log(w, p)[i].slots; }
        if Superseded(w, s.token) { LaterSuperseded(w, w', s.token); }
      } else if i < |Log(w, p)| {
        assert Safe(w, p, s) by { assert s in Log(w, p)[i].slots; }
        DeliverKeepsSafe(cfg, w, w', m, s);
      }
    }
  }

  lemma DeliverKeepsInv(cfg: Config, w: World, w': World, m: Message)
    requires Inv(cfg, w) && Deliver(w, w', m)
    ensures Inv(cfg, w')
  {
    hide LP.Inv, LogInv, Kept, MessageInv, SagaInv;
    if w' == w {
      return;
    }
    FencesOf(w);
    DeliveredEntry(cfg, w, m);
    DeliverKeepsLog(cfg, w, w', m);
    DeliverKeepsKept(cfg, w, w', m);
    forall x | x in w'.sent ensures MessageInv(cfg, w', x) { LaterMessage(cfg, w, w', x); }
    forall x | x in w'.committed ensures x in w'.sent && Written(w', x.principal, x.slots) {
      WrittenGrows(w, w', m, x);
    }
    SameSagasKeepsSagas(w, w');
  }

  lemma FencesOf(w: World)
    requires SagaInv(w)
    ensures FenceInv(w)
  {}

  lemma WrittenGrows(w: World, w': World, m: Message, x: Message)
    requires Deliver(w, w', m) && w' != w && (x == m || Written(w, x.principal, x.slots))
    ensures Written(w', x.principal, x.slots)
  {
    if x == m {
      assert Log(w', x.principal)[|Log(w, x.principal)|].slots == x.slots;
    } else {
      var i :| 0 <= i < |Log(w, x.principal)| && Log(w, x.principal)[i].slots == x.slots;
      assert Log(w', x.principal)[i] == Log(w, x.principal)[i];
    }
  }

  /** When a record is forgotten its slots have all expired. */
  lemma ForgetKeepsKept(cfg: Config, w: World, w': World, p: Digest)
    requires LogInv(cfg, w) && Kept(w) && Forget(cfg, w, w', p) && cfg.lease.maxLifetime < cfg.lease.retention
    ensures Kept(w')
  {
    hide Superseded, SlotsInv;
    forall q, i, s | 0 <= i < |Log(w', q)| && s in Log(w', q)[i].slots && s.active ensures Safe(w', q, s) {
      assert s in Log(w, q)[i].slots && Safe(w, q, s);
      if Superseded(w, s.token) {
        LaterSuperseded(w, w', s.token);
      } else if q == p && s in Current(w, p) {
        assert EntryInv(cfg, w, p, Log(w, p)[|Log(w, p)| - 1]);
      }
    }
  }

  lemma ForgetKeepsInv(cfg: Config, w: World, w': World, p: Digest)
    requires Inv(cfg, w) && Forget(cfg, w, w', p) && cfg.lease.maxLifetime < cfg.lease.retention
    ensures Inv(cfg, w')
  {
    hide LP.Inv, LogInv, Kept, MessageInv, SagaInv;
    ForgetKeepsKept(cfg, w, w', p);
    LaterLog(cfg, w, w');
    forall x | x in w'.sent ensures MessageInv(cfg, w', x) { LaterMessage(cfg, w, w', x); }
    forall x | x in w'.committed ensures Written(w', x.principal, x.slots) { SameLogWritten(w, w', x); }
    SameSagasKeepsSagas(w, w');
  }

  lemma LeaseStepKeepsInv(cfg: Config, w: World, w': World)
    requires Inv(cfg, w) && LeaseStep(cfg, w, w') && cfg.lease.maxLifetime < cfg.lease.retention
    ensures Inv(cfg, w')
  {
    hide LP.Inv, LP.Next, BudgetInv, SagaInv;
    LP.NextKeepsInv(cfg.lease, w.lease, w'.lease);
    LP.NextOnlyAdds(cfg.lease, w.lease, w'.lease);
    SameBudgetKeepsBudget(cfg, w, w');
    SameSagasKeepsSagas(w, w');
  }

  // ---------------------------------------------------------------------- saga steps

  /** One saga takes a step; it may learn its fence. */
  lemma MovedIsLater(w: World, w': World, id: Token, step: Step)
    requires id in w.sagas && w'.lease == w.lease && w'.sagas == w.sagas[id := w.sagas[id].(step := step)]
    requires w'.fences == w.fences || (id !in w.fences && id in w'.fences && w'.fences == w.fences[id := w'.fences[id]])
    ensures Later(w, w')
  {}

  lemma LeasingIsUnfenced(w: World, id: Token)
    requires SagaInv(w) && id in w.sagas && Early(w.sagas[id].step)
    ensures id !in w.fences
  {}

  lemma ReturnedOf(w: World, id: Token)
    requires SagaInv(w) && id in w.returned
    ensures ReturnedInv(w, id)
  {}

  lemma NewIsUnknown(w: World, id: Token)
    requires SagaInv(w) && id !in w.sagas
    ensures id !in w.fences && id !in w.returned
  {}

  lemma StartKeepsInv(cfg: Config, w: World, w': World, id: Token, s: Saga)
    requires Inv(cfg, w) && (StartAcquire(w, w', id, s) || StartNext(w, w', id, s))
    ensures Inv(cfg, w')
  {
    hide LP.Inv, BudgetInv, SagaInv, ReturnedInv, LP.Wrote;
    NewIsUnknown(w, id);
    if StartNext(w, w', id, s) { ReturnedIsFenced(cfg, w, s.kind.prior); }
    SameBudgetKeepsBudget(cfg, w, w');
    OneSagaKeepsSagas(w, w', id);
  }

  lemma ReturnedIsFenced(cfg: Config, w: World, id: Token)
    requires BudgetInv(cfg, w) && id in w.returned && SagaInv(w)
    ensures id in w.fences
  {
    assert ReturnedInv(w, id);
    var p := w.sagas[id].principal;
    var i :| 0 <= i < |Log(w, p)| && ActiveSlot(w, id) in Log(w, p)[i].slots;
    hide Kept, MessageInv;
    assert EntryInv(cfg, w, p, Log(w, p)[i]);
    assert SlotInv(w, p, ActiveSlot(w, id));
  }

  lemma SendKeepsBudget(cfg: Config, w: World, w': World, m: Message)
    requires Later(w, w') && BudgetInv(cfg, w) && MessageInv(cfg, w, m)
    requires w'.log == w.log && w'.present == w.present && w'.sent == w.sent + {m} && w'.committed == w.committed
    ensures BudgetInv(cfg, w')
  {
    hide LogInv, Kept, MessageInv, Later;
    LaterLog(cfg, w, w');
    LaterKept(w, w');
    forall x | x in w'.sent ensures MessageInv(cfg, w', x) { LaterMessage(cfg, w, w', x); }
    forall x | x in w'.committed ensures Written(w', x.principal, x.slots) { SameLogWritten(w, w', x); }
  }

  lemma ComputedMessage(cfg: Config, w: World, id: Token, op: Op, slots: set<Slot>)
    requires OpInv(w, id, op)
    requires var p, now := w.sagas[id].principal, w.lease.clock;
             Meaning(cfg.limits, Live(Current(w, p), now), op, now) == Ok(slots)
    ensures var p := w.sagas[id].principal; MessageInv(cfg, w, Message(id, p, Version(w, p), slots, op))
  {
    var p := w.sagas[id].principal;
    hide Meaning, Live, OpInv;
    assert Computed(cfg, w, Message(id, p, Version(w, p), slots, op), w.lease.clock);
  }

  lemma SendKeepsInv(cfg: Config, w: World, w': World, id: Token, m: Message)
    requires Inv(cfg, w) && MessageInv(cfg, w, m) && id in w.sagas && w.sagas[id].step == Ready(m.op) && m.saga == id
    requires w' == At(w.(sent := w.sent + {m}), id, Putting(m))
    ensures Inv(cfg, w')
  {
    hide LP.Inv, BudgetInv, SagaInv, MessageInv, LP.Wrote, ReturnedInv, Later, OpInv, Continues;
    if m.op.Reserve? { LeasingIsUnfenced(w, id); }
    if id in w.returned { ReturnedOf(w, id); }
    MovedIsLater(w, w', id, Putting(m));
    assert StepInv(w', id) && (id in w'.fences ==> !Early(w'.sagas[id].step));
    hide StepInv, Early;
    SendKeepsBudget(cfg, w, w', m);
    if id in w.returned { LaterReturned(w, w', id); }
    OneSagaKeepsSagas(w, w', id);
  }

  lemma ComputeKeepsInv(cfg: Config, w: World, w': World, id: Token)
    requires Inv(cfg, w) && Compute(cfg, w, w', id)
    ensures Inv(cfg, w')
  {
    StepOf(cfg, w, id);
    hide Inv, OpInv, MessageInv, At;
    var op, p, now := w.sagas[id].step.op, w.sagas[id].principal, w.lease.clock;
    match Meaning(cfg.limits, Live(Current(w, p), now), op, now) {
      case Err(_) => MoveKeepsInv(cfg, w, w', id, Ended);
      case Ok(slots) =>
        hide Meaning, Live;
        ComputedMessage(cfg, w, id, op, slots);
        SendKeepsInv(cfg, w, w', id, Message(id, p, Version(w, p), slots, op));
    }
  }

  lemma StepOf(cfg: Config, w: World, id: Token)
    requires Inv(cfg, w) && id in w.sagas
    ensures StepInv(w, id)
  {}

  /** A saga that moves to another step and changes nothing else. */
  lemma MoveKeepsInv(cfg: Config, w: World, w': World, id: Token, step: Step)
    requires Inv(cfg, w) && id in w.sagas && w' == At(w, id, step)
    requires StepInv(w', id) && (Early(step) ==> Early(w.sagas[id].step))
    ensures Inv(cfg, w')
  {
    hide LP.Inv, BudgetInv, SagaInv, StepInv, LP.Wrote, ReturnedInv, Later, Early;
    if Early(step) { LeasingIsUnfenced(w, id); }
    if id in w.returned { ReturnedOf(w, id); }
    MovedIsLater(w, w', id, step);
    SameBudgetKeepsBudget(cfg, w, w');
    if id in w.returned { LaterReturned(w, w', id); }
    OneSagaKeepsSagas(w, w', id);
  }

  lemma GrantKeepsInv(cfg: Config, w: World, w': World, id: Token)
    requires Inv(cfg, w) && id in w.sagas && w' == At(w.(returned := w.returned + {id}), id, Ended)
    requires ReturnedInv(w, id)
    ensures Inv(cfg, w')
  {
    hide LP.Inv, BudgetInv, SagaInv, LP.Wrote, ReturnedInv, Later, OpInv, Continues;
    MovedIsLater(w, w', id, Ended);
    assert StepInv(w', id) && !Early(w'.sagas[id].step);
    hide StepInv, Early;
    SameBudgetKeepsBudget(cfg, w, w');
    LaterReturned(w, w', id);
    OneSagaKeepsSagas(w, w', id);
  }

  lemma SucceedKeepsInv(cfg: Config, w: World, w': World, id: Token, m: Message)
    requires Inv(cfg, w) && id in w.sagas && m in w.sent && m.saga == id && Early(w.sagas[id].step) == m.op.Reserve?
    requires Written(w, m.principal, m.slots) && w' == Succeed(w, id, m.op)
    ensures Inv(cfg, w')
  {
    assert MessageInv(cfg, w, m);
    if m.op.Commit? || m.op.Replace? {
      var t :| Computed(cfg, w, m, t);
      SlotsAtInv(cfg, w, m.principal, m.expected);
      hide LP.Inv, LogInv, Kept, SagaInv, Meaning, Live, OpInv;
      ChangeGrants(cfg, w, m.principal, SlotsAt(Log(w, m.principal), m.expected), id, m.op, t);
      assert ReturnedInv(w, id) by {
        var i :| 0 <= i < |Log(w, m.principal)| && Log(w, m.principal)[i].slots == m.slots;
        assert ActiveSlot(w, id) in Log(w, m.principal)[i].slots;
      }
      hide BudgetInv, MessageInv, Computed, ReturnedInv;
      GrantKeepsInv(cfg, w, w', id);
    } else {
      hide Inv, MessageInv;
      MoveKeepsInv(cfg, w, w', id, w'.sagas[id].step);
    }
  }

  lemma BudgetAnswerKeepsInv(cfg: Config, w: World, w': World, id: Token)
    requires Inv(cfg, w) && (Ack(w, w', id) || Fail(w, w', id) || Reconcile(w, w', id))
    ensures Inv(cfg, w')
  {
    hide Inv, At, Succeed, Written, Current, Version;
    StepOf(cfg, w, id);
    var m := w.sagas[id].step.message;
    if m in w.committed { CommittedIsWritten(cfg, w, m); }
    if Fail(w, w', id) {
      LookingStep(w, id, m);
      MoveKeepsInv(cfg, w, w', id, Looking(m));
    } else if Ack(w, w', id) {
      SucceedKeepsInv(cfg, w, w', id, m);
    } else if Version(w, m.principal) > m.expected && Current(w, m.principal) == m.slots {
      CurrentIsWritten(w, m.principal);
      SucceedKeepsInv(cfg, w, w', id, m);
    } else {
      AtStep(w, id, Ended);
      MoveKeepsInv(cfg, w, w', id, Ended);
    }
  }

  lemma LookingStep(w: World, id: Token, m: Message)
    requires id in w.sagas && m in w.sent && m.saga == id
    ensures StepInv(At(w, id, Looking(m)), id)
  {}

  lemma CommittedIsWritten(cfg: Config, w: World, m: Message)
    requires Inv(cfg, w) && m in w.committed
    ensures Written(w, m.principal, m.slots)
  {}

  lemma CurrentIsWritten(w: World, p: Digest)
    requires Version(w, p) > 0
    ensures Written(w, p, Current(w, p))
  {
    assert Log(w, p)[Version(w, p) - 1].slots == Current(w, p);
  }

  /** A lease call that succeeds on a capability supersedes it. */
  lemma WonSupersedes(cfg: Config, w: World, s: Saga, x: LP.Won)
    requires LP.Inv(cfg.lease, w.lease) && x in w.lease.wins && Continues(w, s) && Answers(w, s, x)
    ensures Superseded(w, s.kind.prior)
  {
    WinIsWritten(cfg, w.lease, x);
    hide LP.Inv;
    var i :| 0 <= i < |w.lease.writes| && w.lease.writes[i].revision == x.revision
        && w.lease.writes[i].message.key == x.message.key;
    assert NewerWrite(w, s.kind.prior, i);
  }

  lemma WinIsWritten(cfg: Config, l: LP.World, x: LP.Won)
    requires LP.Inv(cfg.lease, l) && x in l.wins
    ensures LP.Wrote(l.writes, x.revision, x.message.key, x.message.value) && x.message.expected < x.revision
  {}

  /** A saga learns the fence of the lease it holds. */
  lemma FenceKeepsInv(cfg: Config, w: World, w': World, id: Token, revision: nat, step: Step)
    requires Inv(cfg, w) && id in w.sagas && w.sagas[id].step.Leasing? && !Early(step)
    requires w' == At(w.(fences := w.fences[id := revision]), id, step) && StepInv(w', id)
    requires LP.Wrote(w.lease.writes, revision, w.sagas[id].key,
                      LP.Value(w.sagas[id].holder, w.sagas[id].expires, false))
    ensures Inv(cfg, w')
  {
    hide LP.Inv, BudgetInv, SagaInv, LP.Wrote, StepInv, ReturnedInv, Later;
    LeasingIsUnfenced(w, id);
    hide Early;
    if id in w.returned { ReturnedOf(w, id); }
    MovedIsLater(w, w', id, step);
    SameBudgetKeepsBudget(cfg, w, w');
    if id in w.returned { LaterReturned(w, w', id); }
    OneSagaKeepsSagas(w, w', id);
  }

  lemma LeaseAnswerKeepsInv(cfg: Config, w: World, w': World, id: Token, x: LP.Won, sealed: bool)
    requires Inv(cfg, w) && LeaseWon(w, w', id, x, sealed)
    ensures Inv(cfg, w')
  {
    hide Inv, SagaInv, BudgetInv, LP.Inv, LP.Wrote, Superseded;
    StepOf(cfg, w, id);
    var s := w.sagas[id];
    UnfencedOf(cfg, w, id);
    WinIsWrittenIn(cfg, w, x);
    if s.kind.Releasing? {
      MovedIsLater(w, w', id, Ready(Retire(s.kind.prior)));
      hide Later;
      WonSupersedes(cfg, w, s, x);
      LaterSuperseded(w, w', s.kind.prior);
      MoveKeepsInv(cfg, w, w', id, Ready(Retire(s.kind.prior)));
    } else {
      var step := w'.sagas[id].step;
      MovedIsLater(w, w', id, step);
      hide Later;
      if s.kind.Renewing? {
        WonSupersedes(cfg, w, s, x);
        LaterSuperseded(w, w', s.kind.prior);
      }
      FenceKeepsInv(cfg, w, w', id, x.revision, step);
    }
  }

  lemma UnfencedOf(cfg: Config, w: World, id: Token)
    requires Inv(cfg, w) && id in w.sagas && w.sagas[id].step.Leasing?
    ensures id !in w.fences
  {}

  lemma WinIsWrittenIn(cfg: Config, w: World, x: LP.Won)
    requires Inv(cfg, w) && x in w.lease.wins
    ensures LP.Wrote(w.lease.writes, x.revision, x.message.key, x.message.value) && x.message.expected < x.revision
    ensures LP.Inv(cfg.lease, w.lease)
  {
    hide BudgetInv, SagaInv;
  }

  lemma NextKeepsInv(cfg: Config, w: World, w': World)
    requires Inv(cfg, w) && Next(cfg, w, w') && cfg.lease.maxLifetime < cfg.lease.retention
    ensures Inv(cfg, w')
  {
    hide Inv, LeaseStep, Forget, Deliver, StartAcquire, StartNext, Compute, Ack, Fail, Reconcile, LeaseWon, At;
    if LeaseStep(cfg, w, w') {
      LeaseStepKeepsInv(cfg, w, w');
    } else if p :| Forget(cfg, w, w', p) {
      ForgetKeepsInv(cfg, w, w', p);
    } else if m :| Deliver(w, w', m) {
      DeliverKeepsInv(cfg, w, w', m);
    } else if id, s :| StartAcquire(w, w', id, s) || StartNext(w, w', id, s) {
      StartKeepsInv(cfg, w, w', id, s);
    } else if id :| Compute(cfg, w, w', id) {
      ComputeKeepsInv(cfg, w, w', id);
    } else if id :| Ack(w, w', id) || Fail(w, w', id) || Reconcile(w, w', id) {
      BudgetAnswerKeepsInv(cfg, w, w', id);
    } else if id, x, sealed :| LeaseWon(w, w', id, x, sealed) {
      LeaseAnswerKeepsInv(cfg, w, w', id, x, sealed);
    } else if id :| LeaseLost(w, w', id) {
      AtStep(w, id, if w.sagas[id].kind.Acquiring? then Ready(Cancel(id)) else Ended);
      MoveKeepsInv(cfg, w, w', id, w'.sagas[id].step);
    } else {
      var id :| Crash(w, w', id);
      AtStep(w, id, Ended);
      MoveKeepsInv(cfg, w, w', id, Ended);
    }
  }

  lemma AtStep(w: World, id: Token, step: Step)
    requires id in w.sagas
    ensures At(w, id, step).sagas == w.sagas[id := w.sagas[id].(step := step)]
  {}

  // ---------------------------------------------------------------------- whole runs

  ghost predicate IsRun(cfg: Config, run: seq<World>) {
    && cfg.lease.maxLifetime < cfg.lease.retention
    && |run| > 0 && Init(run[0])
    && forall i :: 0 <= i < |run| - 1 ==> Next(cfg, run[i], run[i + 1])
  }

  lemma {:induction false} RunKeepsInv(cfg: Config, run: seq<World>, i: nat)
    requires IsRun(cfg, run) && i < |run|
    ensures Inv(cfg, run[i])
  {
    if i > 0 {
      RunKeepsInv(cfg, run, i - 1);
      assert Next(cfg, run[i - 1], run[i - 1 + 1]);
      hide Inv, Next;
      NextKeepsInv(cfg, run[i - 1], run[i]);
    }
  }

  /** A returned capability that Resume would still accept. */
  ghost predicate Outstanding(w: World, id: Token) {
    && id in w.returned && id in w.sagas && id in w.fences && w.sagas[id].key in w.lease.bucket
    && LP.Resumable(w.lease.bucket[w.sagas[id].key],
                    LP.Resume(w.sagas[id].key, w.sagas[id].holder, w.sagas[id].expires, w.fences[id]), w.lease.clock)
  }

  lemma SupersededIsNotOutstanding(cfg: Config, w: World, id: Token)
    requires LP.Inv(cfg.lease, w.lease) && Superseded(w, id)
    ensures !Outstanding(w, id)
  {
    var i :| NewerWrite(w, id, i);
    LP.LastIsNewest(w.lease.writes, i, w.sagas[id].key);
  }

  /** An outstanding capability owns an active slot of its principal, which expires with its lease. */
  lemma OutstandingOwnsSlot(cfg: Config, run: seq<World>, i: nat, id: Token)
    requires IsRun(cfg, run) && i < |run| && Outstanding(run[i], id)
    ensures var s := run[i].sagas[id]; Slot(id, s.expires, s.expires, true) in Current(run[i], s.principal)
    ensures run[i].lease.bucket[run[i].sagas[id].key].value.expires == run[i].sagas[id].expires
  {
    RunKeepsInv(cfg, run, i);
    var w := run[i];
    if Superseded(w, id) { SupersededIsNotOutstanding(cfg, w, id); }
    hide LP.Inv, LogInv, MessageInv, Superseded;
    assert ReturnedInv(w, id);
    assert Safe(w, w.sagas[id].principal, ActiveSlot(w, id));
  }

  ghost function OutstandingOf(w: World, p: Digest): set<Token> {
    set id | id in w.returned && Outstanding(w, id) && w.sagas[id].principal == p
  }

  lemma {:induction false} TokensOf(ids: set<Token>, v: set<Slot>)
    requires forall id :: id in ids ==> exists s :: s in v && s.token == id
    ensures |ids| <= |v|
  {
    if ids != {} {
      var id :| id in ids;
      var s :| s in v && s.token == id;
      forall d | d in ids - {id} ensures exists x :: x in v - {s} && x.token == d {
        var x :| x in v && x.token == d;
        assert x in v - {s};
      }
      TokensOf(ids - {id}, v - {s});
    }
  }

  /** In every reachable state no principal has more outstanding capabilities than its limit,
      whichever steps of whichever calls failed, crashed or committed late. */
  lemma CapabilityBound(cfg: Config, run: seq<World>, i: nat, p: Digest)
    requires IsRun(cfg, run) && i < |run|
    ensures |OutstandingOf(run[i], p)| <= cfg.limits.limit
  {
    var w := run[i];
    var ids, v := OutstandingOf(w, p), Current(w, p);
    forall id | id in ids ensures exists s :: s in v && s.token == id {
      OutstandingOwnsSlot(cfg, run, i, id);
      assert Slot(id, w.sagas[id].expires, w.sagas[id].expires, true) in v;
    }
    TokensOf(ids, v);
    RunKeepsInv(cfg, run, i);
    hide OutstandingOf;
    SlotsAtInv(cfg, w, p, Version(w, p));
  }
}
