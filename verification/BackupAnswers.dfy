/**
 What the backup classifier answers, said over the receipts and the verifier's verdicts alone:
 which reason it reports for which domain, and which status the reasons amount to.
 */
module BackupAnswers {
  import opened Options
  import opened BackupRecovery

  /** The earliest verified receipt of a domain. */
  ghost predicate Earliest(c: Checks, rs: seq<Receipt>, d: Domain, i: int) {
    && 0 <= i < |rs| && rs[i].domain == d && c.verify(rs[i]) == Verified
    && forall j :: 0 <= j < i ==> rs[j].domain != d || c.verify(rs[j]) != Verified
  }

  /** Two verified receipts of a domain with different identifiers or digests. */
  ghost predicate Differ(c: Checks, rs: seq<Receipt>, d: Domain) {
    exists x, y ::
      && x in rs && x.domain == d && c.verify(x) == Verified
      && y in rs && y.domain == d && c.verify(y) == Verified
      && (x.id != y.id || c.digest(x) != c.digest(y))
  }

  ghost predicate Unanswered(c: Checks, rs: seq<Receipt>, d: Domain) {
    exists r :: r in rs && r.domain == d && c.verify(r) == Unavailable
  }

  /** The reason a domain deserves, if any. */
  ghost predicate Deserves(c: Checks, rs: seq<Receipt>, d: Domain, deadline: int, reason: Reason) {
    match reason
    case EvidenceMissing => forall r :: r in rs ==> r.domain != d
    case ContradictoryEvidence => Differ(c, rs, d)
    case ReceiptFailed => !Differ(c, rs, d) && exists i :: Earliest(c, rs, d, i) && rs[i].outcome.Failed?
    case DeadlineMissed =>
      !Differ(c, rs, d) && exists i :: Earliest(c, rs, d, i) && rs[i].outcome.Succeeded? && deadline < rs[i].time
    case VerificationUnavailable =>
      && Unanswered(c, rs, d) && !Differ(c, rs, d)
      && forall i :: Earliest(c, rs, d, i) ==> rs[i].outcome.Succeeded? && rs[i].time <= deadline
    case InvalidEvidence => false
  }

  lemma {:induction false} NoFirst(c: Checks, rs: seq<Receipt>, d: Domain)
    requires First(c, rs, d).None?
    ensures forall i :: 0 <= i < |rs| && rs[i].domain == d ==> Signature(c, rs[i]) != Verified
    decreases |rs|
  {
    hide Signature;
    if rs != [] {
      var before := rs[..|rs| - 1];
      NoFirst(c, before, d);
      assert forall i :: 0 <= i < |before| ==> before[i] == rs[i];
    }
  }

  lemma {:induction false} FirstIsEarliest(c: Checks, rs: seq<Receipt>, d: Domain) returns (k: nat)
    requires First(c, rs, d).Some?
    ensures k < |rs| && rs[k] == First(c, rs, d).value && rs[k].domain == d && Signature(c, rs[k]) == Verified
    ensures forall i :: 0 <= i < k && rs[i].domain == d ==> Signature(c, rs[i]) != Verified
    decreases |rs|
  {
    hide Signature;
    var before := rs[..|rs| - 1];
    if First(c, before, d).Some? {
      k := FirstIsEarliest(c, before, d);
      assert forall i :: 0 <= i <= k ==> before[i] == rs[i];
    } else {
      k := |rs| - 1;
      NoFirst(c, before, d);
      assert forall i :: 0 <= i < |before| ==> before[i] == rs[i];
    }
  }

  lemma OneEarliest(c: Checks, rs: seq<Receipt>, d: Domain, i: int, j: int)
    requires Earliest(c, rs, d, i) && Earliest(c, rs, d, j)
    ensures i == j && rs[i] in rs && rs[i].domain == d
  {}

  lemma WaitingIsUnanswered(c: Checks, rs: seq<Receipt>, d: Domain)
    requires forall r :: r in rs ==> Signature(c, r) == c.verify(r)
    ensures Waiting(c, rs, d) <==> Unanswered(c, rs, d)
  {}

  lemma SoundVerdicts(c: Checks, obligations: seq<Obligation>, rs: seq<Receipt>)
    requires |obligations| == 3 && Sound(c, obligations, rs)
    ensures forall r :: r in rs ==> c.digest(r).Some? && c.verify(r) == Signature(c, r) != Rejected
  {}

  lemma DifferIsDisagreement(c: Checks, rs: seq<Receipt>, d: Domain)
    requires forall r :: r in rs ==> c.digest(r).Some? && Signature(c, r) == c.verify(r)
    ensures Differ(c, rs, d) <==> Contradicted(c, rs, d)
  {
    ContradictedExactly(c, rs, d);
    if Differ(c, rs, d) {
      var x, y :| && x in rs && x.domain == d && c.verify(x) == Verified
                  && y in rs && y.domain == d && c.verify(y) == Verified
                  && (x.id != y.id || c.digest(x) != c.digest(y));
      assert VerifiedIn(c, rs, d, x) && VerifiedIn(c, rs, d, y) && !SameReceipt(c, x, y);
    }
    if Disagrees(c, rs, d) {
      var x, y :| VerifiedIn(c, rs, d, x) && VerifiedIn(c, rs, d, y) && !SameReceipt(c, x, y);
      assert x in rs && y in rs;
    }
  }

  lemma VerdictsAgree(c: Checks, rs: seq<Receipt>, d: Domain, k: nat)
    requires forall r :: r in rs ==> c.verify(r) == Signature(c, r)
    requires k < |rs| && rs[k].domain == d && Signature(c, rs[k]) == Verified
    requires forall i :: 0 <= i < k && rs[i].domain == d ==> Signature(c, rs[i]) != Verified
    ensures Earliest(c, rs, d, k)
  {
    hide Signature;
    assert forall i :: 0 <= i <= k ==> rs[i] in rs;
  }

  lemma NoneVerified(c: Checks, rs: seq<Receipt>, d: Domain)
    requires forall r :: r in rs ==> c.verify(r) == Signature(c, r) != Rejected
    requires forall i :: 0 <= i < |rs| && rs[i].domain == d ==> Signature(c, rs[i]) != Verified
    ensures Unanswered(c, rs, d) <==> !forall r :: r in rs ==> r.domain != d
    ensures !Differ(c, rs, d) && forall i :: !Earliest(c, rs, d, i)
  {}

  /** What is found of a domain is the reason it deserves. */
  lemma FindingIsDeserved(c: Checks, rs: seq<Receipt>, d: Domain, deadline: int, reason: Reason)
    requires forall r :: r in rs ==> c.digest(r).Some? && c.verify(r) == Signature(c, r) != Rejected
    ensures FindingOf(c, rs, d, deadline) == Some(reason) <==> Deserves(c, rs, d, deadline, reason)
  {
    hide First, Differ, Contradicted, Earliest, Signature, Waiting, Unanswered;
    DifferIsDisagreement(c, rs, d);
    WaitingIsUnanswered(c, rs, d);
    if First(c, rs, d).Some? {
      var i := FirstIsEarliest(c, rs, d);
      assert Earliest(c, rs, d, i) by { VerdictsAgree(c, rs, d, i); }
      forall j | Earliest(c, rs, d, j) ensures j == i { OneEarliest(c, rs, d, i, j); }
      OneEarliest(c, rs, d, i, i);
    } else {
      NoFirst(c, rs, d);
      NoneVerified(c, rs, d);
    }
  }

  lemma FindingsListed(c: Checks, obligations: seq<Obligation>, rs: seq<Receipt>, d: Domain, reason: Reason, n: nat)
    requires |obligations| == 3 && n <= 3
    ensures Finding(d, reason) in FindingsOf(c, obligations, rs, n) <==>
            ValidDomain(d) && IndexDomain(d) < n
            && FindingOf(c, rs, d, obligations[IndexDomain(d)].deadline) == Some(reason)
  {
    hide FindingOf;
    if n > 0 { FindingsListed(c, obligations, rs, d, reason, n - 1); }
  }

  /** On sound evidence a domain is reported for a reason exactly if its receipts deserve it. */
  lemma FindingsExactly(c: Checks, obligations: seq<Obligation>, rs: seq<Receipt>, d: Domain, reason: Reason)
    requires |obligations| == 3 && Sound(c, obligations, rs)
    ensures Finding(d, reason) in FindingsOf(c, obligations, rs, 3) <==>
            ValidDomain(d) && Deserves(c, rs, d, obligations[IndexDomain(d)].deadline, reason)
  {
    SoundVerdicts(c, obligations, rs);
    FindingsListed(c, obligations, rs, d, reason, 3);
    FindingIsDeserved(c, rs, d, obligations[IndexDomain(d)].deadline, reason);
  }

  predicate Serious(reason: Reason) {
    reason == ReceiptFailed || reason == DeadlineMissed || reason == ContradictoryEvidence
  }

  lemma SeriousIsIncident(c: Checks, rs: seq<Receipt>, d: Domain, deadline: int)
    ensures IncidentOf(c, rs, d, deadline).Some? <==>
            FindingOf(c, rs, d, deadline).Some? && Serious(FindingOf(c, rs, d, deadline).value)
  {
    hide First, Contradicted, Waiting;
  }

  /** Each domain is reported at most once, in the order of the obligations. */
  lemma FindingsInOrder(c: Checks, obligations: seq<Obligation>, rs: seq<Receipt>, n: nat)
    requires |obligations| == 3 && n <= 3
    ensures var fs := FindingsOf(c, obligations, rs, n);
            && (forall i :: 0 <= i < |fs| ==> ValidDomain(fs[i].domain) && IndexDomain(fs[i].domain) < n)
            && (forall i, j :: 0 <= i < j < |fs| ==> IndexDomain(fs[i].domain) < IndexDomain(fs[j].domain))
  {
    hide FindingOf;
    if n > 0 {
      FindingsInOrder(c, obligations, rs, n - 1);
      assert IndexDomain(WANT[n - 1]) == n - 1;
    }
  }

  lemma IncidentsAreListed(c: Checks, obligations: seq<Obligation>, rs: seq<Receipt>)
    requires |obligations| == 3
    ensures var fs := FindingsOf(c, obligations, rs, 3);
            InIncident(c, obligations, rs) <==> exists f :: f in fs && Serious(f.reason)
  {
    var fs := FindingsOf(c, obligations, rs, 3);
    hide FindingOf, IncidentOf, FindingsOf, Serious;
    forall i | 0 <= i < 3 && IncidentOf(c, rs, WANT[i], obligations[i].deadline).Some?
      ensures exists f :: f in fs && Serious(f.reason)
    {
      var deadline := obligations[i].deadline;
      SeriousIsIncident(c, rs, WANT[i], deadline);
      var reason := FindingOf(c, rs, WANT[i], deadline).value;
      FindingsListed(c, obligations, rs, WANT[i], reason, 3);
      assert Finding(WANT[i], reason) in fs;
    }
    if f :| f in fs && Serious(f.reason) {
      FindingsListed(c, obligations, rs, f.domain, f.reason, 3);
      SeriousIsIncident(c, rs, f.domain, obligations[IndexDomain(f.domain)].deadline);
      assert WANT[IndexDomain(f.domain)] == f.domain;
    }
  }

  lemma UnfinishedIsListed(c: Checks, obligations: seq<Obligation>, rs: seq<Receipt>)
    requires |obligations| == 3
    ensures Unfinished(c, obligations, rs) <==> FindingsOf(c, obligations, rs, 3) != []
  {
    var fs := FindingsOf(c, obligations, rs, 3);
    hide FindingOf, FindingsOf;
    if Unfinished(c, obligations, rs) {
      var i :| 0 <= i < 3 && FindingOf(c, rs, WANT[i], obligations[i].deadline).Some?;
      FindingsListed(c, obligations, rs, WANT[i], FindingOf(c, rs, WANT[i], obligations[i].deadline).value, 3);
    }
    if fs != [] {
      FindingsListed(c, obligations, rs, fs[0].domain, fs[0].reason, 3);
      assert fs[0] == Finding(fs[0].domain, fs[0].reason) && fs[0] in fs;
      assert WANT[IndexDomain(fs[0].domain)] == fs[0].domain;
    }
  }

  /** The status of sound evidence is what its findings amount to. */
  lemma StatusExactly(c: Checks, ref: Reference, obligations: seq<Obligation>, rs: seq<Receipt>)
    requires HeaderOk(c, ref, obligations) && Sound(c, obligations, rs)
    ensures var fs := FindingsOf(c, obligations, rs, 3);
            StatusOf(c, ref, obligations, rs) ==
            if exists f :: f in fs && Serious(f.reason) then Incident else if fs != [] then Pending else Completable
  {
    IncidentsAreListed(c, obligations, rs);
    UnfinishedIsListed(c, obligations, rs);
    hide HeaderOk, Sound, InIncident, Unfinished, FindingsOf, Serious;
  }

  // ------------------------------------------------------------- completion

  /** Three bound obligations of one policy, one for each domain in order. */
  ghost predicate Obliged(c: Checks, operation: string, intent: string, obligations: seq<Obligation>) {
    && c.referenceOk(Reference(operation, intent)) && |obligations| == 3
    && obligations[0].domain == EventDomain && obligations[1].domain == IdentityDomain
    && obligations[2].domain == AuditDomain
    && forall o :: o in obligations ==>
         && c.obligationDigest(o).Some? && o.operation == operation && o.intent == intent
         && o.policy == obligations[0].policy
  }

  /** A verified success in time that fits its obligation. */
  ghost predicate Good(c: Checks, obligations: seq<Obligation>, r: Receipt)
    requires |obligations| == 3
  {
    && !r.domain.OtherDomain? && c.digest(r).Some? && c.verify(r) == Verified
    && var o := obligations[IndexDomain(r.domain)];
       && c.obligationDigest(o).Some? && c.bound(r, o, c.obligationDigest(o).value)
       && r.outcome.Succeeded? && r.time <= o.deadline
  }

  /** Every receipt is good, and there is exactly one for each domain, with its own identifier. */
  ghost predicate Complete(c: Checks, obligations: seq<Obligation>, rs: seq<Receipt>)
    requires |obligations| == 3
  {
    && (forall r :: r in rs ==> Good(c, obligations, r))
    && (forall x, y :: x in rs && y in rs ==> (x.domain == y.domain <==> x == y) && (x.id == y.id <==> x == y))
    && (exists r :: r in rs && r.domain == EventDomain)
    && (exists r :: r in rs && r.domain == IdentityDomain)
    && (exists r :: r in rs && r.domain == AuditDomain)
  }

  lemma CompletableIsComplete(c: Checks, ref: Reference, obligations: seq<Obligation>, rs: seq<Receipt>)
    requires !Collision(c, rs)
    ensures StatusOf(c, ref, obligations, rs).Completable? <==>
            Obliged(c, ref.operation, ref.intent, obligations) && Complete(c, obligations, rs)
  {
    NoCollisionIsUnambiguous(c, obligations, rs);
    CompletableExactly(c, ref, obligations, rs);
    hide StatusOf, AllUnambiguous;
    assert HeaderOk(c, ref, obligations) <==> Obliged(c, ref.operation, ref.intent, obligations);
    if HeaderOk(c, ref, obligations) {
      hide HeaderOk, Obliged;
      SettledIsComplete(c, obligations, rs);
    }
  }

  lemma SettledIsComplete(c: Checks, obligations: seq<Obligation>, rs: seq<Receipt>)
    requires |obligations| == 3 && !Collision(c, rs)
    ensures Sound(c, obligations, rs) && (forall i :: 0 <= i < 3 ==> Settled(c, rs, WANT[i], obligations[i].deadline))
            <==> Complete(c, obligations, rs)
  {
    if Sound(c, obligations, rs) && (forall i :: 0 <= i < 3 ==> Settled(c, rs, WANT[i], obligations[i].deadline)) {
      SettledMeansComplete(c, obligations, rs);
    }
    if Complete(c, obligations, rs) { CompleteMeansSettled(c, obligations, rs); }
  }

  lemma SettledMeansComplete(c: Checks, obligations: seq<Obligation>, rs: seq<Receipt>)
    requires |obligations| == 3 && !Collision(c, rs) && Sound(c, obligations, rs)
    requires forall i :: 0 <= i < 3 ==> Settled(c, rs, WANT[i], obligations[i].deadline)
    ensures Complete(c, obligations, rs)
  {
    assert Settled(c, rs, EventDomain, obligations[0].deadline);
    assert Settled(c, rs, IdentityDomain, obligations[1].deadline);
    assert Settled(c, rs, AuditDomain, obligations[2].deadline);
    forall r | r in rs ensures Good(c, obligations, r) {
      var k := IndexDomain(r.domain);
      assert ReceiptOk(c, obligations, r) && WANT[k] == r.domain;
      var s :| OnlySuccess(c, rs, r.domain, obligations[k].deadline, s);
      assert s == r;
    }
    forall x, y | x in rs && y in rs && x.domain == y.domain ensures x == y {
      var k := IndexDomain(x.domain);
      assert ReceiptOk(c, obligations, x) && WANT[k] == x.domain;
      var s :| OnlySuccess(c, rs, x.domain, obligations[k].deadline, s);
      assert s == x && s == y;
    }
  }

  lemma CompleteMeansSettled(c: Checks, obligations: seq<Obligation>, rs: seq<Receipt>)
    requires |obligations| == 3 && Complete(c, obligations, rs)
    ensures Sound(c, obligations, rs)
    ensures forall i :: 0 <= i < 3 ==> Settled(c, rs, WANT[i], obligations[i].deadline)
  {
    CompleteIsSound(c, obligations, rs);
    forall i | 0 <= i < 3 ensures Settled(c, rs, WANT[i], obligations[i].deadline) {
      var r :| r in rs && r.domain == WANT[i];
      OneIsSettled(c, obligations, rs, r);
    }
  }

  lemma CompleteIsSound(c: Checks, obligations: seq<Obligation>, rs: seq<Receipt>)
    requires |obligations| == 3 && Complete(c, obligations, rs)
    ensures Sound(c, obligations, rs)
  {
    forall r | r in rs ensures ReceiptOk(c, obligations, r) { assert Good(c, obligations, r); }
    hide Good, ReceiptOk;
  }

  lemma OneIsSettled(c: Checks, obligations: seq<Obligation>, rs: seq<Receipt>, r: Receipt)
    requires |obligations| == 3 && Complete(c, obligations, rs) && r in rs
    ensures Settled(c, rs, r.domain, obligations[IndexDomain(r.domain)].deadline)
  {
    assert Good(c, obligations, r);
    assert forall x :: x in rs && x.domain == r.domain ==> x == r;
    assert OnlySuccess(c, rs, r.domain, obligations[IndexDomain(r.domain)].deadline, r);
  }

  /** The receipt an entry of the completion cites. */
  ghost predicate CitedBy(c: Checks, e: Evidence, x: ReceiptEvidence, r: Receipt) {
    && r.domain == x.domain && r.id == x.id && c.digest(r) == Some(x.digest)
    && r.operation == e.operation && r.intent == e.intent && r.policy == e.policy && r.time <= e.completedAt
  }

  /** A completion is accepted exactly if its contract is valid, the evidence is complete, and each entry cites a
      receipt of the evidence for this operation, intent and policy, no later than the completion. */
  lemma AcceptedExactly(c: Checks, e: Evidence, obligations: seq<Obligation>, rs: seq<Receipt>)
    requires !Collision(c, rs)
    ensures CompletionOf(c, e, obligations, rs) ==
            if !c.evidenceOk(e) then InvalidContract
            else if && Obliged(c, e.operation, e.intent, obligations) && Complete(c, obligations, rs)
                    && forall i :: 0 <= i < |e.receipts| ==> exists r :: r in rs && CitedBy(c, e, e.receipts[i], r)
            then Accepted else Conflict
  {
    CompletableIsComplete(c, Reference(e.operation, e.intent), obligations, rs);
    hide StatusOf, Obliged;
    if Obliged(c, e.operation, e.intent, obligations) && |obligations| == 3 && Complete(c, obligations, rs) {
      forall i | 0 <= i < |e.receipts|
        ensures Cited(c, e, Last(rs, e.receipts[i].domain), e.receipts[i]) <==>
                exists r :: r in rs && CitedBy(c, e, e.receipts[i], r)
      {
        LastIsTheOne(c, obligations, rs, e.receipts[i].domain);
      }
    }
  }

  lemma LastIsTheOne(c: Checks, obligations: seq<Obligation>, rs: seq<Receipt>, d: Domain)
    requires |obligations| == 3 && Complete(c, obligations, rs)
    ensures forall r :: Last(rs, d) == Some(r) <==> r in rs && r.domain == d
  {}
}
