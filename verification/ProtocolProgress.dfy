/**
 The concurrent protocols get things done: a call that nothing disturbs ends as it should,
 from every state they can reach.
 */
module ProtocolProgress {
  import opened Coordination
  import RR = RelayReducer
  import RL = RelayLog
  import RP = RelayProtocol
  import LP = LeaseProtocol
  import BudgetSlots
  import CS = CapabilitySaga

  // -------------------------------------------------------------------- the relay log

  ghost predicate RelaySteps(su: RP.Setup, run: seq<RP.World>) {
    forall i :: 0 <= i < |run| - 1 ==> RP.Next(su, run[i], run[i + 1])
  }

  lemma Loadable(su: RP.Setup, w: RP.World)
    requires RP.Inv(su, w)
    ensures RP.StateAt(su, w.log).Ok?
    ensures RP.StateAt(su, w.log).tenant.revision == RL.LastRevision(RP.Entries(w.log))
  {
    hide RP.CallInv, RP.JustifiedMessage, RR.Agree, RL.Replay;
    RL.ReplayAgrees(su.env, su.tenantID, RP.Entries(w.log));
  }

  /** A call enters and loads the present state. */
  lemma Loaded(su: RP.Setup, w: RP.World, c: nat) returns (w1: RP.World, w2: RP.World)
    requires c !in w.calls && RP.ValidCall(su.calls(c)) && RP.KeyOf(su.calls(c)).tenantID == su.tenantID
    requires RP.StateAt(su, w.log).Ok?
    ensures RP.Next(su, w, w1) && RP.Next(su, w1, w2)
    ensures w2 == w.(calls := w.calls[c := RP.Deciding(0, |w.log|, RP.StateAt(su, w.log).tenant)])
  {
    hide RP.StateAt, RP.Decide, RP.ValidCall;
    w1 := w.(calls := w.calls[c := RP.Loading(0)]);
    w2 := w1.(calls := w1.calls[c := RP.Deciding(0, |w.log|, RP.StateAt(su, w.log).tenant)]);
    assert RP.Start(su, w, w1, c);
    assert RP.LoadStep(su, w1, w2, c);
  }

  lemma Returned(su: RP.Setup, w: RP.World, c: nat) returns (w': RP.World)
    requires c in w.calls && w.calls[c].Deciding? && RP.Decide(su.env, w.calls[c].snapshot, su.calls(c)).Return?
    ensures var d := RP.Decide(su.env, w.calls[c].snapshot, su.calls(c));
            RP.Next(su, w, w') && w' == w.(calls := w.calls[c := RP.Finished(d.outcome)])
  {
    hide RP.Decide;
    w' := w.(calls := w.calls[c := RP.Finished(RP.Decide(su.env, w.calls[c].snapshot, su.calls(c)).outcome)]);
    assert RP.DecideStep(su, w, w', c);
  }

  /** What a call decided on the present state commits and is acknowledged. */
  lemma Published(su: RP.Setup, w: RP.World, c: nat, revision: nat)
    returns (w1: RP.World, w2: RP.World, w3: RP.World, m: RP.Message)
    requires c in w.calls && w.calls[c].Deciding? && revision > w.calls[c].snapshot.revision
    requires w.calls[c].snapshot.revision == RL.LastRevision(RP.Entries(w.log))
    requires RP.Decide(su.env, w.calls[c].snapshot, su.calls(c)).Publish?
    ensures var d := RP.Decide(su.env, w.calls[c].snapshot, su.calls(c));
            && RP.Next(su, w, w1) && RP.Next(su, w1, w2) && RP.Next(su, w2, w3) && m.cmd == d.cmd
            && w3 == w.(sent := w.sent + {m}, log := w.log + [RP.Commit(revision, m)],
                        calls := w.calls[c := RP.Finished(d.onCommit)])
  {
    hide RP.Decide;
    var p, d := w.calls[c], RP.Decide(su.env, w.calls[c].snapshot, su.calls(c));
    m := RP.Message(c, p.attempt, p.at, p.snapshot.revision, d.cmd);
    w1 := w.(sent := w.sent + {m}, calls := w.calls[c := RP.Sent(m, d.onCommit)]);
    w2 := w1.(log := w1.log + [RP.Commit(revision, m)]);
    w3 := w2.(calls := w2.calls[c := RP.Finished(d.onCommit)]);
    assert RP.DecideStep(su, w, w1, c);
    assert RP.DeliverStep(w1, w2, m, revision);
    assert w2.log[|w.log|].message == m;
    assert RP.AckStep(w2, w3, c);
  }

  /** An undisturbed call ends in one attempt with what is decided on the present state, and publishes just that. */
  lemma UndisturbedCall(su: RP.Setup, w: RP.World, c: nat, revision: nat) returns (run: seq<RP.World>)
    requires RP.Inv(su, w) && c !in w.calls && RP.ValidCall(su.calls(c))
    requires RP.KeyOf(su.calls(c)).tenantID == su.tenantID && revision > RL.LastRevision(RP.Entries(w.log))
    ensures |run| > 0 && run[0] == w && RelaySteps(su, run) && RP.StateAt(su, w.log).Ok?
    ensures var s, last := RP.StateAt(su, w.log).tenant, run[|run| - 1];
            && c in last.calls
            && match RP.Decide(su.env, s, su.calls(c))
               case Return(outcome) => last.calls[c] == RP.Finished(outcome) && last.log == w.log
               case Publish(cmd, onCommit) =>
                 && last.calls[c] == RP.Finished(onCommit) && |last.log| == |w.log| + 1
                 && last.log[..|w.log|] == w.log && last.log[|w.log|].revision == revision
                 && last.log[|w.log|].message.cmd == cmd
  {
    hide RP.Inv, RP.Decide, RP.Next, RP.StateAt, RP.ValidCall;
    Loadable(su, w);
    var s := RP.StateAt(su, w.log).tenant;
    var w1, w2 := Loaded(su, w, c);
    if RP.Decide(su.env, s, su.calls(c)).Return? {
      var w3 := Returned(su, w2, c);
      run := [w, w1, w2, w3];
    } else {
      var w3, w4, w5, m := Published(su, w2, c, revision);
      run := [w, w1, w2, w3, w4, w5];
    }
  }

  // -------------------------------------------------------------------------- leases

  ghost predicate LeaseSteps(cfg: LP.Config, run: seq<LP.World>) {
    forall i :: 0 <= i < |run| - 1 ==> LP.Next(cfg, run[i], run[i + 1])
  }

  /** An Acquire sends its put: at once for an absent key, after a look at the record otherwise. */
  lemma Asked(cfg: LP.Config, w: LP.World, c: nat, r: LP.Request) returns (run: seq<LP.World>, m: LP.Message)
    requires c !in w.ops && c !in w.handles && r.Acquire? && LP.ValidExpiry(cfg, r.expires, w.clock)
    requires r.key in w.bucket ==>
               && (w.bucket[r.key].value.released || w.bucket[r.key].value.expires <= w.clock)
               && w.bucket[r.key].revision > 0
    ensures |run| > 0 && run[0] == w && LeaseSteps(cfg, run)
    ensures m.key == r.key && m.value == LP.Value(r.holder, r.expires, false) && LP.Matches(w.bucket, m)
    ensures var last := run[|run| - 1];
            && m in last.sent && c in last.ops && last.ops[c] == LP.Op(r, LP.Putting(m))
            && last == w.(sent := last.sent, ops := last.ops)
  {
    var first := LP.FirstPut(c, r);
    var w1 := w.(sent := w.sent + {first}, ops := w.ops[c := LP.Op(r, LP.Putting(first))]);
    assert LP.StartAcquire(cfg, w, w1, c, r);
    assert LP.Next(cfg, w, w1);
    if r.key in w.bucket {
      var w2, w3;
      w2, w3, m := Looked(cfg, w1, c, r, first);
      hide LP.Next;
      run := [w, w1, w2, w3];
    } else {
      hide LP.Next;
      run, m := [w, w1], first;
    }
  }

  lemma Looked(cfg: LP.Config, w: LP.World, c: nat, r: LP.Request, first: LP.Message)
    returns (w1: LP.World, w2: LP.World, m: LP.Message)
    requires c in w.ops && w.ops[c] == LP.Op(r, LP.Putting(first)) && r.Acquire? && first.expected == 0
    requires r.key in w.bucket && (w.bucket[r.key].value.released || w.bucket[r.key].value.expires <= w.clock)
    ensures LP.Next(cfg, w, w1) && LP.Next(cfg, w1, w2)
    ensures m.key == r.key && m.value == LP.Value(r.holder, r.expires, false)
    ensures m.expected == w.bucket[r.key].revision
    ensures w2 == w.(sent := w.sent + {m}, ops := w.ops[c := LP.Op(r, LP.Putting(m))])
  {
    w1 := w.(ops := w.ops[c := LP.Op(r, LP.Looking(true))]);
    assert LP.Fail(w, w1, c, true);
    m := LP.Message(c, r.key, w.bucket[r.key].revision, LP.Value(r.holder, r.expires, false), LP.Takeover);
    w2 := w1.(sent := w1.sent + {m}, ops := w1.ops[c := LP.Op(r, LP.Putting(m))]);
    assert LP.DoLook(w1, w2, c);
  }

  lemma RevisionIsPositive(cfg: LP.Config, w: LP.World, key: Digest)
    requires LP.Inv(cfg, w)
    ensures key in w.bucket ==> w.bucket[key].revision > 0
  {
    hide LP.ClientInv, LP.Handover, LP.MessageInv, LP.Newer;
    if key in w.bucket {
      LP.LastIsWritten(w.writes, key);
      var e := LP.Last(w.writes, key)[0];
      hide LP.Last;
      LP.WrittenIsBounded(cfg, w, e.revision, key, e.message.value);
    }
  }

  /** An undisturbed Acquire of a key that nobody holds ends with a handle for it, at the next revision. */
  lemma UndisturbedAcquire(cfg: LP.Config, w: LP.World, c: nat, key: Digest, holder: Digest, expires: Time)
    returns (run: seq<LP.World>, m: LP.Message)
    requires LP.Inv(cfg, w) && c !in w.ops && c !in w.handles && LP.ValidExpiry(cfg, expires, w.clock)
    requires key in w.bucket ==> w.bucket[key].value.released || w.bucket[key].value.expires <= w.clock
    ensures |run| > 0 && run[0] == w && LeaseSteps(cfg, run)
    ensures var last := run[|run| - 1];
            && last.clock == w.clock && c in last.handles
            && last.handles[c] == LP.Handle(key, holder, expires, w.sequence + 1, false)
            && m.key == key && m.value == LP.Value(holder, expires, false)
            && LP.Won(m, w.sequence + 1) in last.wins
            && key in last.bucket && last.bucket[key] == LP.Stored(m.value, w.sequence + 1, w.clock)
  {
    hide LP.Inv, LP.Next, LP.Matches;
    RevisionIsPositive(cfg, w, key);
    var before;
    before, m := Asked(cfg, w, c, LP.Acquire(key, holder, expires));
    var w3, w4 := Landed(cfg, before[|before| - 1], c, m);
    run := before + [w3, w4];
  }

  /** The put of an Acquire commits and is acknowledged. */
  lemma Landed(cfg: LP.Config, w: LP.World, c: nat, m: LP.Message) returns (w1: LP.World, w2: LP.World)
    requires c in w.ops && w.ops[c].request.Acquire? && w.ops[c].step == LP.Putting(m)
    requires m in w.sent && LP.Matches(w.bucket, m) && m.key == w.ops[c].request.key
    ensures LP.Next(cfg, w, w1) && LP.Next(cfg, w1, w2)
    ensures var r, next := w.ops[c].request, w.sequence + 1;
            && w2.clock == w.clock && w2.handles == w.handles[c := LP.Handle(r.key, r.holder, r.expires, next, false)]
            && w2.wins == w.wins + {LP.Won(m, next)}
            && w2.bucket == w.bucket[m.key := LP.Stored(m.value, next, w.clock)]
  {
    hide LP.Next, LP.Matches;
    w1 := Delivered(cfg, w, m);
    w2 := Acked(cfg, w1, c, m);
  }

  lemma Delivered(cfg: LP.Config, w: LP.World, m: LP.Message) returns (w': LP.World)
    requires m in w.sent && LP.Matches(w.bucket, m)
    ensures LP.Next(cfg, w, w')
    ensures w' == w.(sequence := w.sequence + 1,
                     bucket := w.bucket[m.key := LP.Stored(m.value, w.sequence + 1, w.clock)],
                     writes := w.writes + [LP.Write(m, w.sequence + 1, w.clock)])
  {
    w' := w.(sequence := w.sequence + 1,
             bucket := w.bucket[m.key := LP.Stored(m.value, w.sequence + 1, w.clock)],
             writes := w.writes + [LP.Write(m, w.sequence + 1, w.clock)]);
    assert LP.Deliver(w, w', m);
  }

  lemma Acked(cfg: LP.Config, w: LP.World, c: nat, m: LP.Message) returns (w': LP.World)
    requires LP.HandleThere(w, c) && w.ops[c].step == LP.Putting(m) && w.writes != []
    requires w.writes[|w.writes| - 1].message == m
    ensures LP.Next(cfg, w, w') && w' == LP.Win(w, c, m, w.writes[|w.writes| - 1].revision)
  {
    w' := LP.Win(w, c, m, w.writes[|w.writes| - 1].revision);
    assert LP.Ack(w, w', c, |w.writes| - 1);
  }

  lemma MoveStarts(cfg: LP.Config, w: LP.World, w1: LP.World, c: nat, r: LP.Request)
    requires LP.StartRenew(cfg, w, w1, c, r) || LP.StartRelease(w, w1, c, r)
    ensures LP.Next(cfg, w, w1)
  {
    hide LP.StartRenew, LP.StartRelease;
  }

  /** An undisturbed Renew or Release through a current handle ends with the handle moved on. */
  lemma UndisturbedMove(cfg: LP.Config, w: LP.World, c: nat, r: LP.Request) returns (run: seq<LP.World>)
    requires c !in w.ops && (r.Renew? || r.Release?) && r.handle in w.handles && r.handle !in w.locked
    requires r.Renew? ==> LP.ValidExpiry(cfg, r.expires, w.clock)
    requires var h := w.handles[r.handle];
             !h.released && h.revision > 0 && h.key in w.bucket && w.bucket[h.key].revision == h.revision
    ensures |run| > 0 && run[0] == w && LeaseSteps(cfg, run)
    ensures var h, last := w.handles[r.handle], run[|run| - 1];
            && r.handle in last.handles && r.handle !in last.locked
            && last.handles[r.handle] ==
               (if r.Renew? then h.(revision := w.sequence + 1, expires := r.expires)
                else h.(revision := w.sequence + 1, released := true))
            && h.key in last.bucket
            && last.bucket[h.key].value == LP.Value(h.holder, if r.Renew? then r.expires else h.expires, r.Release?)
  {
    hide LP.Next;
    var h := w.handles[r.handle];
    var value := LP.Value(h.holder, if r.Renew? then r.expires else h.expires, r.Release?);
    var m := LP.Message(c, h.key, h.revision, value, if r.Renew? then LP.Renewal else LP.Retirement);
    var w1 := w.(locked := w.locked + {r.handle}, sent := w.sent + {m}, ops := w.ops[c := LP.Op(r, LP.Putting(m))]);
    MoveStarts(cfg, w, w1, c, r);
    var w2 := Delivered(cfg, w1, m);
    var w3 := Acked(cfg, w2, c, m);
    run := [w, w1, w2, w3];
  }

  // ---------------------------------------------------------------------- capabilities

  ghost predicate SagaSteps(cfg: CS.Config, run: seq<CS.World>) {
    forall i :: 0 <= i < |run| - 1 ==> CS.Next(cfg, run[i], run[i + 1])
  }

  ghost predicate Leads(cfg: CS.Config, run: seq<CS.World>, w: CS.World, w': CS.World) {
    |run| > 0 && run[0] == w && run[|run| - 1] == w' && SagaSteps(cfg, run)
  }

  lemma Joined(cfg: CS.Config, a: seq<CS.World>, b: seq<CS.World>, w: CS.World, mid: CS.World, w': CS.World)
    returns (run: seq<CS.World>)
    requires Leads(cfg, a, w, mid) && Leads(cfg, b, mid, w')
    ensures Leads(cfg, run, w, w')
  {
    hide CS.Next;
    run := a + b[1..];
    forall i | 0 <= i < |run| - 1 ensures CS.Next(cfg, run[i], run[i + 1]) {
      if i >= |a| - 1 { assert run[i] == b[i - |a| + 1] && run[i + 1] == b[i - |a| + 2]; }
    }
  }

  /** A budget call of a saga that meets no other: computed, committed and acknowledged. */
  lemma BudgetCall(cfg: CS.Config, w: CS.World, id: Token, slots: set<BudgetSlots.Slot>)
    returns (run: seq<CS.World>, w': CS.World)
    requires id in w.sagas && w.sagas[id].step.Ready?
    requires var p, now := w.sagas[id].principal, w.lease.clock;
             BudgetSlots.Meaning(cfg.limits, BudgetSlots.Live(CS.Current(w, p), now), w.sagas[id].step.op, now)
             == Ok(slots)
    ensures Leads(cfg, run, w, w')
    ensures w'.lease == w.lease && w'.fences == w.fences && CS.Current(w', w.sagas[id].principal) == slots
    ensures var op := w.sagas[id].step.op;
            && w'.sagas == w.sagas[id := w.sagas[id].(step := if op.Reserve? then CS.Leasing else CS.Ended)]
            && w'.returned == if op.Commit? || op.Replace? then w.returned + {id} else w.returned
  {
    hide BudgetSlots.Meaning, BudgetSlots.Live, CS.Next;
    var p, now, op := w.sagas[id].principal, w.lease.clock, w.sagas[id].step.op;
    var m := CS.Message(id, p, CS.Version(w, p), slots, op);
    var w1 := CS.At(w.(sent := w.sent + {m}), id, CS.Putting(m));
    var w2 := w1.(log := w1.log[p := CS.Log(w1, p) + [CS.Entry(slots, now)]], present := w1.present + {p},
                  committed := w1.committed + {m});
    w' := CS.Succeed(w2, id, op);
    assert CS.Compute(cfg, w, w1, id);
    assert CS.Deliver(w1, w2, m);
    assert CS.Ack(w2, w', id);
    assert CS.Log(w', p) == CS.Log(w, p) + [CS.Entry(slots, now)];
    BudgetSteps(cfg, w, w1, w2, w', id, m);
    run := [w, w1, w2, w'];
  }

  lemma BudgetSteps(cfg: CS.Config, w: CS.World, w1: CS.World, w2: CS.World, w3: CS.World, id: Token, m: CS.Message)
    requires CS.Compute(cfg, w, w1, id) && CS.Deliver(w1, w2, m) && CS.Ack(w2, w3, id)
    ensures CS.Next(cfg, w, w1) && CS.Next(cfg, w1, w2) && CS.Next(cfg, w2, w3)
  {
    hide CS.Compute, CS.Deliver, CS.Ack;
  }

  /** Lease steps are saga steps that leave everything else alone. */
  lemma Lifted(cfg: CS.Config, w: CS.World, leases: seq<LP.World>) returns (run: seq<CS.World>)
    requires |leases| > 0 && leases[0] == w.lease && LeaseSteps(cfg.lease, leases)
    ensures |run| == |leases| && run[0] == w && SagaSteps(cfg, run)
    ensures run[|run| - 1] == w.(lease := leases[|leases| - 1])
  {
    hide LP.Next;
    run := seq(|leases|, i requires 0 <= i < |leases| => w.(lease := leases[i]));
    forall i | 0 <= i < |run| - 1 ensures CS.Next(cfg, run[i], run[i + 1]) {
      assert CS.LeaseStep(cfg, run[i], run[i + 1]);
    }
  }

  /** What an undisturbed Acquire asks of the state it starts in. */
  ghost predicate Room(cfg: CS.Config, w: CS.World, id: Token, s: CS.Saga) {
    var now, live := w.lease.clock, BudgetSlots.Live(CS.Current(w, s.principal), w.lease.clock);
    && id !in w.sagas && s.kind.Acquiring? && s.step == CS.Ready(BudgetSlots.Reserve(id, s.expires))
    && |live| < cfg.limits.limit && (forall x :: x in live ==> x.token != id)
    && cfg.limits.pendingTTL > 0 && LP.ValidExpiry(cfg.lease, s.expires, now)
    && LP.Inv(cfg.lease, w.lease)
    && (s.key in w.lease.bucket ==> w.lease.bucket[s.key].value.released || w.lease.bucket[s.key].value.expires <= now)
  }

  lemma ReserveMeans(lim: BudgetSlots.Limits, base: set<BudgetSlots.Slot>, id: Token, expires: Time, now: Time)
    requires var live := BudgetSlots.Live(base, now); |live| < lim.limit && forall x :: x in live ==> x.token != id
    requires lim.pendingTTL > 0 && expires > now
    ensures var live := BudgetSlots.Live(base, now);
            var slot := BudgetSlots.Slot(id, BudgetSlots.PendingExpiry(lim, expires, now), expires, false);
            && BudgetSlots.Meaning(lim, live, BudgetSlots.Reserve(id, expires), now) == Ok(live + {slot})
            && BudgetSlots.Live(live + {slot}, now) == live + {slot}
            && BudgetSlots.Meaning(lim, live + {slot}, BudgetSlots.Commit(id), now) ==
               Ok(live + {BudgetSlots.Slot(id, expires, expires, true)})
  {
    var live := BudgetSlots.Live(base, now);
    var slot := BudgetSlots.Slot(id, BudgetSlots.PendingExpiry(lim, expires, now), expires, false);
    assert slot in live + {slot} && BudgetSlots.Holds(live + {slot}, id, false);
    assert BudgetSlots.The(live + {slot}, id, false) == slot;
    assert live + {slot} - {slot} == live;
  }

  lemma Started(cfg: CS.Config, w: CS.World, w0: CS.World, id: Token, s: CS.Saga)
    requires CS.StartAcquire(w, w0, id, s)
    ensures Leads(cfg, [w, w0], w, w0) && CS.Current(w0, s.principal) == CS.Current(w, s.principal)
  {}

  lemma ReservePhase(cfg: CS.Config, w: CS.World, id: Token, s: CS.Saga) returns (run: seq<CS.World>, w': CS.World)
    requires Room(cfg, w, id, s)
    ensures Leads(cfg, run, w, w') && w'.lease == w.lease
    ensures w'.sagas == w.sagas[id := s.(step := CS.Leasing)]
    ensures var now := w.lease.clock;
            var slot := BudgetSlots.Slot(id, BudgetSlots.PendingExpiry(cfg.limits, s.expires, now), s.expires, false);
            CS.Current(w', s.principal) == BudgetSlots.Live(CS.Current(w, s.principal), now) + {slot}
  {
    hide LP.Inv, Leads, CS.Current, BudgetSlots.Live, BudgetSlots.Meaning;
    var base, now := CS.Current(w, s.principal), w.lease.clock;
    ReserveMeans(cfg.limits, base, id, s.expires, now);
    var w0 := w.(sagas := w.sagas[id := s]);
    Started(cfg, w, w0, id, s);
    var slot := BudgetSlots.Slot(id, BudgetSlots.PendingExpiry(cfg.limits, s.expires, now), s.expires, false);
    var call;
    call, w' := BudgetCall(cfg, w0, id, BudgetSlots.Live(base, now) + {slot});
    run := Joined(cfg, [w, w0], call, w, w0, w');
  }

  lemma LeasePhase(cfg: CS.Config, w: CS.World, id: Token, c: nat) returns (run: seq<CS.World>, w': CS.World)
    requires id in w.sagas && w.sagas[id].step.Leasing? && w.sagas[id].kind.Acquiring?
    requires c !in w.lease.ops && c !in w.lease.handles
    requires LP.ValidExpiry(cfg.lease, w.sagas[id].expires, w.lease.clock)
    requires var key, now := w.sagas[id].key, w.lease.clock;
             && LP.Inv(cfg.lease, w.lease)
             && (key in w.lease.bucket ==>
                   w.lease.bucket[key].value.released || w.lease.bucket[key].value.expires <= now)
    ensures Leads(cfg, run, w, w') && w'.lease.clock == w.lease.clock
    ensures w'.sagas == w.sagas[id := w.sagas[id].(step := CS.Ready(BudgetSlots.Commit(id)))]
    ensures id in w'.fences && w'.fences[id] == w.lease.sequence + 1
    ensures CS.Current(w', w.sagas[id].principal) == CS.Current(w, w.sagas[id].principal)
  {
    hide LP.Inv;
    var s := w.sagas[id];
    var leases, m := UndisturbedAcquire(cfg.lease, w.lease, c, s.key, s.holder, s.expires);
    hide LP.Next;
    var leasing := Lifted(cfg, w, leases);
    var last, x := w.(lease := leases[|leases| - 1]), LP.Won(m, w.lease.sequence + 1);
    w' := CS.At(last.(fences := last.fences[id := x.revision]), id, CS.Ready(BudgetSlots.Commit(id)));
    assert CS.LeaseWon(last, w', id, x, true);
    assert CS.Next(cfg, last, w');
    hide CS.Next;
    run := Joined(cfg, leasing, [last, w'], w, last, w');
  }

  /** An undisturbed Acquire of a free key, by a principal with room, returns a capability that owns an active slot. */
  lemma UndisturbedCapability(cfg: CS.Config, w: CS.World, id: Token, s: CS.Saga, c: nat)
    returns (run: seq<CS.World>, w': CS.World)
    requires Room(cfg, w, id, s) && c !in w.lease.ops && c !in w.lease.handles
    ensures Leads(cfg, run, w, w')
    ensures id in w'.returned && id in w'.fences && w'.fences[id] == w.lease.sequence + 1
    ensures BudgetSlots.Slot(id, s.expires, s.expires, true) in CS.Current(w', s.principal)
  {
    hide LP.Inv, Leads, BudgetSlots.Live, BudgetSlots.Meaning, CS.Current;
    var live := BudgetSlots.Live(CS.Current(w, s.principal), w.lease.clock);
    ReserveMeans(cfg.limits, CS.Current(w, s.principal), id, s.expires, w.lease.clock);
    var reserving, w1 := ReservePhase(cfg, w, id, s);
    var leasing, w2 := LeasePhase(cfg, w1, id, c);
    var slots := live + {BudgetSlots.Slot(id, s.expires, s.expires, true)};
    var committing;
    committing, w' := BudgetCall(cfg, w2, id, slots);
    run := Joined(cfg, leasing, committing, w1, w2, w');
    run := Joined(cfg, reserving, run, w, w1, w');
  }
}
