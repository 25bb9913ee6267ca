/**
 internal/relay/lifecycle/backup.go: classifying the custodian receipts of a removed backup.
 Canonical forms, digests, the binding of a receipt to its obligation and signature
 verification are parameters; time stamps of the one fixed format are numbers.
 */
module BackupRecovery {
  import opened Options

  datatype Domain = EventDomain | IdentityDomain | AuditDomain | OtherDomain(name: string)

  datatype Outcome = Succeeded | Failed

  datatype Receipt = Receipt(
    id: string, domain: Domain, operation: string, intent: string, policy: string,
    time: int, outcome: Outcome, rest: string)

  datatype Reference = Reference(operation: string, intent: string)

  datatype Obligation = Obligation(domain: Domain, operation: string, intent: string, policy: string, deadline: int,
      rest: string)

  datatype Verdict = Verified | Unavailable | Rejected

  datatype Checks = Checks(
    referenceOk: Reference -> bool,
    obligationDigest: Obligation -> Option<string>,
    bound: (Receipt, Obligation, string) -> bool,
    verify: Receipt -> Verdict,
    digest: Receipt -> Option<string>,
    evidenceOk: Evidence -> bool)

  datatype Status = Pending | Incident | Corrupt | Completable

  datatype Reason = EvidenceMissing | ReceiptFailed | DeadlineMissed | ContradictoryEvidence | InvalidEvidence
    | VerificationUnavailable

  datatype Finding = Finding(domain: Domain, reason: Reason)

  datatype Recovery = Recovery(status: Status, findings: seq<Finding>)

  const WANT: seq<Domain> := [EventDomain, IdentityDomain, AuditDomain]

  predicate ValidDomain(d: Domain) { !d.OtherDomain? }

  function IndexDomain(d: Domain): (i: nat)
    ensures i < 3 && (ValidDomain(d) ==> WANT[i] == d)
  {
    if d.IdentityDomain? then 1 else if d.AuditDomain? then 2 else 0
  }

  // ------------------------------------------------------- single receipts

  function Signature(c: Checks, r: Receipt): Verdict {
    if c.digest(r).None? then Rejected else c.verify(r)
  }

  /** ValidateCustodianReceiptRetry: the same identifier and the same digest. */
  predicate SameReceipt(c: Checks, a: Receipt, b: Receipt) {
    c.digest(a).Some? && c.digest(b) == c.digest(a) && a.id == b.id
  }

  /** The receipt is of a known domain and fits its obligation. */
  predicate Bound(c: Checks, obligations: seq<Obligation>, r: Receipt)
    requires |obligations| == 3
  {
    && ValidDomain(r.domain)
    && var o := obligations[IndexDomain(r.domain)];
       c.obligationDigest(o).Some? && c.bound(r, o, c.obligationDigest(o).value)
  }

  predicate ReceiptOk(c: Checks, obligations: seq<Obligation>, r: Receipt)
    requires |obligations| == 3
  {
    Bound(c, obligations, r) && Signature(c, r) != Rejected
  }

  predicate HeaderOk(c: Checks, ref: Reference, obligations: seq<Obligation>) {
    && c.referenceOk(ref) && |obligations| == 3
    && forall i :: 0 <= i < 3 ==>
         && c.obligationDigest(obligations[i]).Some? && obligations[i].domain == WANT[i]
         && obligations[i].operation == ref.operation && obligations[i].intent == ref.intent
         && obligations[i].policy == obligations[0].policy
  }

  predicate Fit(r: Receipt, deadline: int) { r.outcome.Succeeded? && r.time <= deadline }

  // --------------------------------------------------- what the receipts say

  ghost predicate VerifiedIn(c: Checks, rs: seq<Receipt>, d: Domain, r: Receipt) {
    r in rs && r.domain == d && Signature(c, r) == Verified
  }

  ghost predicate Waiting(c: Checks, rs: seq<Receipt>, d: Domain) {
    exists r :: r in rs && r.domain == d && Signature(c, r) == Unavailable
  }

  /** The first verified receipt of a domain. */
  function First(c: Checks, rs: seq<Receipt>, d: Domain): (f: Option<Receipt>)
    ensures f.Some? ==> f.value in rs && f.value.domain == d && Signature(c, f.value) == Verified
  {
    if rs == [] then None
    else
      var before, last := First(c, rs[..|rs| - 1], d), rs[|rs| - 1];
      if before.Some? then before else if last.domain == d && Signature(c, last) == Verified then Some(last) else None
  }

  ghost predicate Contradicted(c: Checks, rs: seq<Receipt>, d: Domain) {
    First(c, rs, d).Some? && exists r :: VerifiedIn(c, rs, d, r) && !SameReceipt(c, First(c, rs, d).value, r)
  }

  /** The incident a lone receipt is. */
  function ReasonOf(r: Receipt, deadline: int): Option<Reason> {
    if r.outcome.Failed? then Some(ReceiptFailed) else if r.time > deadline then Some(DeadlineMissed) else None
  }

  ghost function IncidentOf(c: Checks, rs: seq<Receipt>, d: Domain, deadline: int): Option<Reason> {
    var f := First(c, rs, d);
    if f.None? then None
    else if Contradicted(c, rs, d) then Some(ContradictoryEvidence)
    else ReasonOf(f.value, deadline)
  }

  ghost predicate Sound(c: Checks, obligations: seq<Obligation>, rs: seq<Receipt>)
    requires |obligations| == 3
  {
    && (forall r :: r in rs ==> ReceiptOk(c, obligations, r))
    && (forall a, b :: a in rs && b in rs && a.id == b.id ==> a.domain == b.domain)
  }

  /** What one domain contributes to the findings. */
  ghost function FindingOf(c: Checks, rs: seq<Receipt>, d: Domain, deadline: int): Option<Reason> {
    if IncidentOf(c, rs, d, deadline).Some? then IncidentOf(c, rs, d, deadline)
    else if Waiting(c, rs, d) then Some(VerificationUnavailable)
    else if First(c, rs, d).None? then Some(EvidenceMissing)
    else None
  }

  ghost predicate InIncident(c: Checks, obligations: seq<Obligation>, rs: seq<Receipt>)
    requires |obligations| == 3
  {
    exists i :: 0 <= i < 3 && IncidentOf(c, rs, WANT[i], obligations[i].deadline).Some?
  }

  ghost predicate Unfinished(c: Checks, obligations: seq<Obligation>, rs: seq<Receipt>)
    requires |obligations| == 3
  {
    exists i :: 0 <= i < 3 && FindingOf(c, rs, WANT[i], obligations[i].deadline).Some?
  }

  ghost function FindingsOf(c: Checks, obligations: seq<Obligation>, rs: seq<Receipt>, n: nat): seq<Finding>
    requires |obligations| == 3 && n <= 3
  {
    if n == 0 then []
    else match FindingOf(c, rs, WANT[n - 1], obligations[n - 1].deadline)
      case None => FindingsOf(c, obligations, rs, n - 1)
      case Some(reason) => FindingsOf(c, obligations, rs, n - 1) + [Finding(WANT[n - 1], reason)]
  }

  ghost function StatusOf(c: Checks, ref: Reference, obligations: seq<Obligation>, rs: seq<Receipt>): Status {
    if !HeaderOk(c, ref, obligations) || !Sound(c, obligations, rs) then Corrupt
    else if InIncident(c, obligations, rs) then Incident
    else if Unfinished(c, obligations, rs) then Pending
    else Completable
  }

  // --------------------------------------------------------- order and repetition

  ghost predicate SameReceipts(a: seq<Receipt>, b: seq<Receipt>) {
    forall r :: r in a <==> r in b
  }

  /** Two different receipts of one identifier whose digests agree. */
  ghost predicate Collision(c: Checks, rs: seq<Receipt>) {
    exists x, y :: x in rs && y in rs && x != y && SameReceipt(c, x, y)
  }

  lemma {:induction false} FirstExists(c: Checks, rs: seq<Receipt>, d: Domain, r: Receipt)
    requires VerifiedIn(c, rs, d, r)
    ensures First(c, rs, d).Some?
    decreases |rs|
  {
    var before, last := rs[..|rs| - 1], rs[|rs| - 1];
    assert rs == before + [last];
    if r in before { FirstExists(c, before, d, r); }
  }

  /** Two verified receipts of a domain that are not the same. */
  ghost predicate Disagrees(c: Checks, rs: seq<Receipt>, d: Domain) {
    exists x, y :: VerifiedIn(c, rs, d, x) && VerifiedIn(c, rs, d, y) && !SameReceipt(c, x, y)
  }

  /** Its verified receipts disagree openly, or each of them alone says the same. */
  ghost predicate Unambiguous(c: Checks, rs: seq<Receipt>, d: Domain, deadline: int) {
    || Disagrees(c, rs, d)
    || forall x, y :: VerifiedIn(c, rs, d, x) && VerifiedIn(c, rs, d, y) ==>
       ReasonOf(x, deadline) == ReasonOf(y, deadline)
  }

  /** Whichever receipt comes first, a domain is contradicted exactly when two of its verified receipts disagree. */
  lemma ContradictedExactly(c: Checks, rs: seq<Receipt>, d: Domain)
    ensures Contradicted(c, rs, d) <==> Disagrees(c, rs, d)
  {
    var f := First(c, rs, d);
    if Contradicted(c, rs, d) {
      var r :| VerifiedIn(c, rs, d, r) && !SameReceipt(c, f.value, r);
      assert VerifiedIn(c, rs, d, f.value);
    }
    if Disagrees(c, rs, d) {
      var x, y :| VerifiedIn(c, rs, d, x) && VerifiedIn(c, rs, d, y) && !SameReceipt(c, x, y);
      FirstExists(c, rs, d, x);
      assert !SameReceipt(c, f.value, x) || !SameReceipt(c, f.value, y);
    }
  }

  lemma SameVerified(c: Checks, a: seq<Receipt>, b: seq<Receipt>, d: Domain)
    requires SameReceipts(a, b)
    ensures forall x :: VerifiedIn(c, a, d, x) <==> VerifiedIn(c, b, d, x)
    ensures Disagrees(c, a, d) == Disagrees(c, b, d) && Waiting(c, a, d) == Waiting(c, b, d)
    ensures First(c, a, d).Some? == First(c, b, d).Some?
  {
    assert forall x :: VerifiedIn(c, a, d, x) <==> VerifiedIn(c, b, d, x);
    var fa, fb := First(c, a, d), First(c, b, d);
    if fa.Some? { FirstExists(c, b, d, fa.value); }
    if fb.Some? { FirstExists(c, a, d, fb.value); }
  }

  lemma DomainAlike(c: Checks, a: seq<Receipt>, b: seq<Receipt>, d: Domain, deadline: int)
    requires SameReceipts(a, b) && Unambiguous(c, a, d, deadline)
    ensures IncidentOf(c, a, d, deadline) == IncidentOf(c, b, d, deadline)
    ensures FindingOf(c, a, d, deadline) == FindingOf(c, b, d, deadline)
  {
    SameVerified(c, a, b, d);
    ContradictedExactly(c, a, d);
    ContradictedExactly(c, b, d);
    var fa, fb := First(c, a, d), First(c, b, d);
    if fa.Some? { assert VerifiedIn(c, a, d, fa.value) && VerifiedIn(c, a, d, fb.value); }
    hide Contradicted, Disagrees, Waiting, First;
  }

  /** Put first, a verified receipt speaks for a domain whose receipts do not disagree. */
  lemma PutFirst(c: Checks, rs: seq<Receipt>, d: Domain, deadline: int, x: Receipt)
    requires VerifiedIn(c, rs, d, x) && !Disagrees(c, rs, d)
    ensures SameReceipts(rs, [x] + rs) && IncidentOf(c, [x] + rs, d, deadline) == ReasonOf(x, deadline)
  {
    assert First(c, [x], d) == Some(x) by { assert [x][..0] == []; }
    FirstStays(c, [x], rs, d);
    SameVerified(c, rs, [x] + rs, d);
    ContradictedExactly(c, [x] + rs, d);
  }

  /** The order and repetition of the receipts do not matter to what a domain reports exactly when it is unambiguous. */
  lemma DomainIndependentExactly(c: Checks, rs: seq<Receipt>, d: Domain, deadline: int)
    ensures (forall b :: SameReceipts(rs, b) ==> FindingOf(c, b, d, deadline) == FindingOf(c, rs, d, deadline))
            <==> Unambiguous(c, rs, d, deadline)
  {
    if Unambiguous(c, rs, d, deadline) {
      forall b | SameReceipts(rs, b) ensures FindingOf(c, b, d, deadline) == FindingOf(c, rs, d, deadline) {
        DomainAlike(c, rs, b, d, deadline);
      }
    } else {
      var x, y :| VerifiedIn(c, rs, d, x) && VerifiedIn(c, rs, d, y) && ReasonOf(x, deadline) != ReasonOf(y, deadline);
      PutFirst(c, rs, d, deadline, x);
      PutFirst(c, rs, d, deadline, y);
      FirstExists(c, [x] + rs, d, x);
      FirstExists(c, [y] + rs, d, y);
      hide First, Contradicted, Waiting, SameReceipts, Disagrees, Unambiguous, IncidentOf;
      assert FindingOf(c, [x] + rs, d, deadline) != FindingOf(c, [y] + rs, d, deadline);
    }
  }

  ghost predicate AllUnambiguous(c: Checks, obligations: seq<Obligation>, rs: seq<Receipt>) {
    |obligations| == 3 ==> forall i :: 0 <= i < 3 ==> Unambiguous(c, rs, WANT[i], obligations[i].deadline)
  }

  /** Neither order nor repetition of receipts changes the status or any finding, when every domain is unambiguous. */
  lemma OrderIndependent(c: Checks, ref: Reference, obligations: seq<Obligation>, a: seq<Receipt>, b: seq<Receipt>)
    requires SameReceipts(a, b) && AllUnambiguous(c, obligations, a)
    ensures StatusOf(c, ref, obligations, a) == StatusOf(c, ref, obligations, b)
    ensures |obligations| == 3 ==> FindingsOf(c, obligations, a, 3) == FindingsOf(c, obligations, b, 3)
  {
    if |obligations| == 3 {
      assert Sound(c, obligations, a) == Sound(c, obligations, b);
      forall i | 0 <= i < 3
        ensures IncidentOf(c, a, WANT[i], obligations[i].deadline) == IncidentOf(c, b, WANT[i], obligations[i].deadline)
        ensures FindingOf(c, a, WANT[i], obligations[i].deadline) == FindingOf(c, b, WANT[i], obligations[i].deadline)
      {
        DomainAlike(c, a, b, WANT[i], obligations[i].deadline);
      }
      hide IncidentOf, FindingOf, Sound, HeaderOk, Unambiguous;
      FindingsAlike(c, obligations, a, b, 3);
    }
  }

  lemma {:induction false} FindingsAlike(c: Checks, obligations: seq<Obligation>, a: seq<Receipt>, b: seq<Receipt>,
                                         n: nat)
    requires |obligations| == 3 && n <= 3
    requires forall i :: 0 <= i < 3 ==>
               FindingOf(c, a, WANT[i], obligations[i].deadline) == FindingOf(c, b, WANT[i], obligations[i].deadline)
    ensures FindingsOf(c, obligations, a, n) == FindingsOf(c, obligations, b, n)
  {
    if n > 0 { FindingsAlike(c, obligations, a, b, n - 1); }
  }

  /** Without two different receipts of one identifier and digest, every domain is unambiguous. */
  lemma NoCollisionIsUnambiguous(c: Checks, obligations: seq<Obligation>, rs: seq<Receipt>)
    requires !Collision(c, rs)
    ensures AllUnambiguous(c, obligations, rs)
  {}

  /** Any two verified receipts of one identifier and digest, one a timely success and the other not, are told
      apart only by their order. */
  lemma CollisionChangesStatus(c: Checks, ref: Reference, obligations: seq<Obligation>, good: Receipt, bad: Receipt)
    requires HeaderOk(c, ref, obligations) && ReceiptOk(c, obligations, good) && ReceiptOk(c, obligations, bad)
    requires good.domain == bad.domain && Signature(c, good) == Verified && Signature(c, bad) == Verified
    requires SameReceipt(c, good, bad)
    requires var deadline := obligations[IndexDomain(good.domain)].deadline; Fit(good, deadline) && !Fit(bad, deadline)
    ensures SameReceipts([bad, good], [good, bad])
    ensures StatusOf(c, ref, obligations, [bad, good]).Incident? && StatusOf(c, ref, obligations, [good, bad]).Pending?
  {
    PairSpeaks(c, ref, obligations, bad, good);
    PairSpeaks(c, ref, obligations, good, bad);
  }

  /** Of two receipts that pass for the same, the first decides; the other two domains are still missing. */
  lemma PairSpeaks(c: Checks, ref: Reference, obligations: seq<Obligation>, x: Receipt, y: Receipt)
    requires HeaderOk(c, ref, obligations) && ReceiptOk(c, obligations, x) && ReceiptOk(c, obligations, y)
    requires x.domain == y.domain && Signature(c, x) == Verified && Signature(c, y) == Verified && SameReceipt(c, x, y)
    ensures var deadline := obligations[IndexDomain(x.domain)].deadline;
            StatusOf(c, ref, obligations, [x, y]) == if Fit(x, deadline) then Pending else Incident
  {
    var rs, k := [x, y], IndexDomain(x.domain);
    assert rs[..1] == [x] && [x][..0] == [];
    forall d ensures First(c, rs, d) == if d == x.domain then Some(x) else None {
      assert First(c, [x], d) == if d == x.domain then Some(x) else None;
    }
    assert !Contradicted(c, rs, x.domain);
    var other := if k == 0 then 1 else 0;
    assert FindingOf(c, rs, WANT[other], obligations[other].deadline) == Some(EvidenceMissing);
    assert forall i :: 0 <= i < 3 && i != k ==> IncidentOf(c, rs, WANT[i], obligations[i].deadline).None?;
    assert IncidentOf(c, rs, WANT[k], obligations[k].deadline) == ReasonOf(x, obligations[k].deadline);
    assert Sound(c, obligations, rs);
    hide First, Contradicted, Waiting, IncidentOf, Sound, HeaderOk;
  }

  // ------------------------------------------------------------------ appending

  lemma {:induction false} FirstStays(c: Checks, rs: seq<Receipt>, more: seq<Receipt>, d: Domain)
    requires First(c, rs, d).Some?
    ensures First(c, rs + more, d) == First(c, rs, d)
    decreases |more|
  {
    if more == [] {
      assert rs + more == rs;
    } else {
      var before := more[..|more| - 1];
      FirstStays(c, rs, before, d);
      assert (rs + more)[..|rs + more| - 1] == rs + before;
    }
  }

  lemma IncidentStays(c: Checks, rs: seq<Receipt>, more: seq<Receipt>, d: Domain, deadline: int)
    requires IncidentOf(c, rs, d, deadline).Some?
    ensures IncidentOf(c, rs + more, d, deadline).Some?
  {
    FirstStays(c, rs, more, d);
    if Contradicted(c, rs, d) {
      var r :| VerifiedIn(c, rs, d, r) && !SameReceipt(c, First(c, rs, d).value, r);
      assert VerifiedIn(c, rs + more, d, r);
    }
  }

  /** To one verifier evidence is append-only: corrupt stays corrupt, and an incident never becomes pending
      or completable. */
  lemma NeverResolvedByReceipts(c: Checks, ref: Reference, obligations: seq<Obligation>, rs: seq<Receipt>,
                                more: seq<Receipt>)
    ensures StatusOf(c, ref, obligations, rs).Corrupt? ==> StatusOf(c, ref, obligations, rs + more).Corrupt?
    ensures StatusOf(c, ref, obligations, rs).Incident? ==>
              StatusOf(c, ref, obligations, rs + more).Incident? || StatusOf(c, ref, obligations, rs + more).Corrupt?
  {
    if HeaderOk(c, ref, obligations) {
      assert Sound(c, obligations, rs + more) ==> Sound(c, obligations, rs) by {
        assert forall r :: r in rs ==> r in rs + more;
      }
      if InIncident(c, obligations, rs) {
        var i :| 0 <= i < 3 && IncidentOf(c, rs, WANT[i], obligations[i].deadline).Some?;
        IncidentStays(c, rs, more, WANT[i], obligations[i].deadline);
      }
    }
  }

  // ------------------------------------------------- verifiers that change their mind

  /** Two classifications of one deployment: only the verifier may answer differently. */
  ghost predicate SameButVerifier(c: Checks, c': Checks) {
    c' == c.(verify := c'.verify)
  }

  ghost predicate Refuted(c: Checks, rs: seq<Receipt>) {
    exists r :: r in rs && Signature(c, r) == Rejected
  }

  /** Faults that no verifier can mend. */
  ghost predicate Unacceptable(c: Checks, obligations: seq<Obligation>, rs: seq<Receipt>)
    requires |obligations| == 3
  {
    || (exists r :: r in rs && !Bound(c, obligations, r))
    || (exists a, b :: a in rs && b in rs && a.id == b.id && a.domain != b.domain)
  }

  /** Receipts that are verified show an incident: two that disagree, or a failed or late one. */
  ghost predicate Shown(c: Checks, obligations: seq<Obligation>, rs: seq<Receipt>)
    requires |obligations| == 3
  {
    exists i :: 0 <= i < 3 && ShownIn(c, rs, WANT[i], obligations[i].deadline)
  }

  ghost predicate ShownIn(c: Checks, rs: seq<Receipt>, d: Domain, deadline: int) {
    Disagrees(c, rs, d) || exists r :: VerifiedIn(c, rs, d, r) && ReasonOf(r, deadline).Some?
  }

  lemma SoundExactly(c: Checks, obligations: seq<Obligation>, rs: seq<Receipt>)
    requires |obligations| == 3
    ensures Sound(c, obligations, rs) <==> !Unacceptable(c, obligations, rs) && !Refuted(c, rs)
  {
    hide Bound;
  }

  lemma IncidentIsShown(c: Checks, rs: seq<Receipt>, d: Domain, deadline: int)
    ensures IncidentOf(c, rs, d, deadline).Some? ==> ShownIn(c, rs, d, deadline)
    ensures ShownIn(c, rs, d, deadline) && Unambiguous(c, rs, d, deadline) ==> IncidentOf(c, rs, d, deadline).Some?
  {
    ContradictedExactly(c, rs, d);
    var f := First(c, rs, d);
    if f.Some? { assert VerifiedIn(c, rs, d, f.value); }
    if r :| VerifiedIn(c, rs, d, r) && ReasonOf(r, deadline).Some? { FirstExists(c, rs, d, r); }
  }

  lemma IncidentsAreShown(c: Checks, obligations: seq<Obligation>, rs: seq<Receipt>)
    requires |obligations| == 3
    ensures InIncident(c, obligations, rs) ==> Shown(c, obligations, rs)
    ensures Shown(c, obligations, rs) && AllUnambiguous(c, obligations, rs) ==> InIncident(c, obligations, rs)
  {
    hide IncidentOf, ShownIn, Unambiguous;
    forall i | 0 <= i < 3
      ensures var dl := obligations[i].deadline;
              && (IncidentOf(c, rs, WANT[i], dl).Some? ==> ShownIn(c, rs, WANT[i], dl))
              && (ShownIn(c, rs, WANT[i], dl) && Unambiguous(c, rs, WANT[i], dl) ==>
                 IncidentOf(c, rs, WANT[i], dl).Some?)
    {
      IncidentIsShown(c, rs, WANT[i], obligations[i].deadline);
    }
  }

  ghost predicate Unresolved(s: Status) { s.Incident? || s.Corrupt? }

  ghost predicate StaysCorrupt(c: Checks, ref: Reference, obligations: seq<Obligation>, rs: seq<Receipt>) {
    forall more :: StatusOf(c, ref, obligations, rs + more).Corrupt?
  }

  ghost predicate StaysUnresolved(c: Checks, ref: Reference, obligations: seq<Obligation>, rs: seq<Receipt>) {
    forall more :: Unresolved(StatusOf(c, ref, obligations, rs + more))
  }

  lemma StaysExactly(c: Checks, ref: Reference, obligations: seq<Obligation>, rs: seq<Receipt>)
    ensures StaysCorrupt(c, ref, obligations, rs) <==> StatusOf(c, ref, obligations, rs).Corrupt?
    ensures StaysUnresolved(c, ref, obligations, rs) <==> Unresolved(StatusOf(c, ref, obligations, rs))
  {
    assert rs + [] == rs;
    forall more
      ensures StatusOf(c, ref, obligations, rs).Corrupt? ==> StatusOf(c, ref, obligations, rs + more).Corrupt?
      ensures Unresolved(StatusOf(c, ref, obligations, rs)) ==> Unresolved(StatusOf(c, ref, obligations, rs + more))
    {
      NeverResolvedByReceipts(c, ref, obligations, rs, more);
    }
    hide StatusOf;
  }

  /** A later classification, with a verifier that may answer differently, finds corrupt evidence corrupt under
      every further receipt exactly if it is unacceptable anyway or this verifier too rejects one of the receipts;
      and finds an incident unresolved exactly if this verifier rejects a receipt or still verifies receipts
      that show an incident. */
  lemma ChangedVerifierExactly(c: Checks, c': Checks, ref: Reference, obligations: seq<Obligation>, rs: seq<Receipt>)
    requires SameButVerifier(c, c')
    ensures StaysCorrupt(c', ref, obligations, rs) <==>
              !HeaderOk(c, ref, obligations) || Unacceptable(c, obligations, rs) || Refuted(c', rs)
    ensures StatusOf(c, ref, obligations, rs).Incident? && AllUnambiguous(c', obligations, rs) ==>
              (StaysUnresolved(c', ref, obligations, rs) <==> Refuted(c', rs) || Shown(c', obligations, rs))
  {
    StaysExactly(c', ref, obligations, rs);
    SameHeader(c, c', ref, obligations);
    if HeaderOk(c, ref, obligations) {
      SoundExactly(c, obligations, rs);
      SoundExactly(c', obligations, rs);
      SameFaults(c, c', obligations, rs);
      IncidentsAreShown(c', obligations, rs);
    }
    hide HeaderOk, Sound, Unacceptable, Refuted, Shown, InIncident, Unfinished, AllUnambiguous, StaysCorrupt,
         StaysUnresolved;
  }

  lemma SameHeader(c: Checks, c': Checks, ref: Reference, obligations: seq<Obligation>)
    requires SameButVerifier(c, c')
    ensures HeaderOk(c, ref, obligations) == HeaderOk(c', ref, obligations)
  {}

  lemma SameFaults(c: Checks, c': Checks, obligations: seq<Obligation>, rs: seq<Receipt>)
    requires SameButVerifier(c, c') && |obligations| == 3
    ensures Unacceptable(c, obligations, rs) == Unacceptable(c', obligations, rs)
  {
    assert forall r :: Bound(c, obligations, r) == Bound(c', obligations, r);
    hide Bound;
  }

  /** The verifier stands by the verdicts it gave; what it could not decide it may decide now. */
  ghost predicate Firm(c: Checks, c': Checks, rs: seq<Receipt>) {
    && SameButVerifier(c, c')
    && forall r :: r in rs && Signature(c, r) != Unavailable ==> Signature(c', r) == Signature(c, r)
  }

  /** Between classifications whose verifier stands by its verdicts, with more receipts or verdicts, corrupt
      evidence stays corrupt and an incident never becomes pending or completable. */
  lemma NeverResolved(c: Checks, c': Checks, ref: Reference, obligations: seq<Obligation>, rs: seq<Receipt>,
                      more: seq<Receipt>)
    requires Firm(c, c', rs)
    ensures StatusOf(c, ref, obligations, rs).Corrupt? ==> StatusOf(c', ref, obligations, rs + more).Corrupt?
    ensures StatusOf(c, ref, obligations, rs).Incident? && AllUnambiguous(c', obligations, rs) ==>
              Unresolved(StatusOf(c', ref, obligations, rs + more))
  {
    ChangedVerifierExactly(c, c', ref, obligations, rs);
    if HeaderOk(c, ref, obligations) {
      SoundExactly(c, obligations, rs);
      IncidentsAreShown(c, obligations, rs);
      FirmKeepsShown(c, c', obligations, rs);
    }
    hide HeaderOk, Sound, Unacceptable, Shown, InIncident, Unfinished, AllUnambiguous, Firm;
  }

  lemma FirmKeepsShown(c: Checks, c': Checks, obligations: seq<Obligation>, rs: seq<Receipt>)
    requires |obligations| == 3 && Firm(c, c', rs)
    ensures Shown(c, obligations, rs) ==> Shown(c', obligations, rs)
    ensures Refuted(c, rs) ==> Refuted(c', rs)
  {
    forall i | 0 <= i < 3 && ShownIn(c, rs, WANT[i], obligations[i].deadline)
      ensures ShownIn(c', rs, WANT[i], obligations[i].deadline)
    {
      FirmKeepsShownIn(c, c', rs, WANT[i], obligations[i].deadline);
    }
    hide ShownIn, ReceiptOk;
  }

  lemma FirmKeepsShownIn(c: Checks, c': Checks, rs: seq<Receipt>, d: Domain, deadline: int)
    requires Firm(c, c', rs) && ShownIn(c, rs, d, deadline)
    ensures ShownIn(c', rs, d, deadline)
  {
    assert forall x :: VerifiedIn(c, rs, d, x) ==> VerifiedIn(c', rs, d, x);
    if Disagrees(c, rs, d) {
      var x, y :| VerifiedIn(c, rs, d, x) && VerifiedIn(c, rs, d, y) && !SameReceipt(c, x, y);
      assert VerifiedIn(c', rs, d, x) && VerifiedIn(c', rs, d, y) && !SameReceipt(c', x, y);
    }
  }

  /** An outage reopens: one bound, failed receipt is an incident while it verifies, corrupt while it is
      rejected, and pending while the verifier is unavailable. */
  lemma OutageReopens(c: Checks, ref: Reference, obligations: seq<Obligation>, r: Receipt)
    requires HeaderOk(c, ref, obligations) && Bound(c, obligations, r) && c.digest(r).Some? && r.outcome.Failed?
    ensures StatusOf(c.(verify := _ => Verified), ref, obligations, [r]).Incident?
    ensures StatusOf(c.(verify := _ => Rejected), ref, obligations, [r]).Corrupt?
    ensures StatusOf(c.(verify := _ => Unavailable), ref, obligations, [r]).Pending?
  {
    var up, down, no := c.(verify := _ => Verified), c.(verify := _ => Unavailable), c.(verify := _ => Rejected);
    SameHeader(c, up, ref, obligations);
    SameHeader(c, down, ref, obligations);
    SameHeader(c, no, ref, obligations);
    assert [r][..0] == [];
    assert Sound(up, obligations, [r]) && Sound(down, obligations, [r]);
    assert !Sound(no, obligations, [r]) by { assert r in [r] && !ReceiptOk(no, obligations, r); }
    var k := IndexDomain(r.domain);
    assert First(up, [r], WANT[k]) == Some(r);
    assert IncidentOf(up, [r], WANT[k], obligations[k].deadline).Some?;
    assert forall d :: First(down, [r], d).None?;
    assert FindingOf(down, [r], WANT[k], obligations[k].deadline).Some?;
    hide HeaderOk, Sound, First;
  }

  // ---------------------------------------------------------------- completability

  /** The one receipt of a domain, up to identifier and digest: a verified, timely success. */
  ghost predicate OnlySuccess(c: Checks, rs: seq<Receipt>, d: Domain, deadline: int, r: Receipt) {
    && VerifiedIn(c, rs, d, r) && Fit(r, deadline)
    && (forall x :: x in rs && x.domain == d ==> Signature(c, x) == Verified && SameReceipt(c, r, x))
  }

  ghost predicate Settled(c: Checks, rs: seq<Receipt>, d: Domain, deadline: int) {
    exists r :: OnlySuccess(c, rs, d, deadline, r)
  }

  lemma SettledExactly(c: Checks, rs: seq<Receipt>, d: Domain, deadline: int)
    requires forall r :: r in rs ==> Signature(c, r) != Rejected
    ensures FindingOf(c, rs, d, deadline).None? ==> Settled(c, rs, d, deadline)
    ensures Settled(c, rs, d, deadline) && Unambiguous(c, rs, d, deadline) ==> FindingOf(c, rs, d, deadline).None?
  {
    var f := First(c, rs, d);
    if FindingOf(c, rs, d, deadline).None? {
      forall x | x in rs && x.domain == d ensures Signature(c, x) == Verified && SameReceipt(c, f.value, x) {
        assert VerifiedIn(c, rs, d, x) || Signature(c, x) == Unavailable;
      }
      assert OnlySuccess(c, rs, d, deadline, f.value);
    } else if r :| OnlySuccess(c, rs, d, deadline, r) {
      FirstExists(c, rs, d, r);
      assert SameReceipt(c, r, f.value) && VerifiedIn(c, rs, d, f.value);
    }
  }

  lemma IncidentIsUnfinished(c: Checks, obligations: seq<Obligation>, rs: seq<Receipt>)
    requires |obligations| == 3 && InIncident(c, obligations, rs)
    ensures Unfinished(c, obligations, rs)
  {
    hide IncidentOf, First, Waiting;
    var i :| 0 <= i < 3 && IncidentOf(c, rs, WANT[i], obligations[i].deadline).Some?;
    assert FindingOf(c, rs, WANT[i], obligations[i].deadline).Some?;
  }

  /** Completable exactly when every obligation has one distinct receipt, verified, successful and in time. */
  lemma CompletableExactly(c: Checks, ref: Reference, obligations: seq<Obligation>, rs: seq<Receipt>)
    requires AllUnambiguous(c, obligations, rs)
    ensures StatusOf(c, ref, obligations, rs).Completable? <==>
              && HeaderOk(c, ref, obligations) && Sound(c, obligations, rs)
              && forall i :: 0 <= i < 3 ==> Settled(c, rs, WANT[i], obligations[i].deadline)
  {
    if HeaderOk(c, ref, obligations) && Sound(c, obligations, rs) {
      forall i | 0 <= i < 3 ensures FindingOf(c, rs, WANT[i], obligations[i].deadline).None? <==>
          Settled(c, rs, WANT[i], obligations[i].deadline) {
        SettledExactly(c, rs, WANT[i], obligations[i].deadline);
      }
      hide Settled, InIncident, FindingOf, HeaderOk, Sound;
      if InIncident(c, obligations, rs) { IncidentIsUnfinished(c, obligations, rs); }
    }
  }

  // --------------------------------------------------------------- completion

  datatype ReceiptEvidence = ReceiptEvidence(domain: Domain, id: string, digest: string)

  datatype Evidence = Evidence(operation: string, intent: string, policy: string, completedAt: int,
      receipts: seq<ReceiptEvidence>)

  datatype Completion = Accepted | InvalidContract | Conflict

  /** The last receipt of a domain, verified or not. */
  function Last(rs: seq<Receipt>, d: Domain): (l: Option<Receipt>)
    ensures l.Some? ==> l.value in rs && l.value.domain == d
    ensures l.None? ==> forall r :: r in rs ==> r.domain != d
  {
    if rs == [] then None
    else if rs[|rs| - 1].domain == d then Some(rs[|rs| - 1])
    else
      assert rs == rs[..|rs| - 1] + [rs[|rs| - 1]];
      Last(rs[..|rs| - 1], d)
  }

  predicate Cited(c: Checks, e: Evidence, l: Option<Receipt>, x: ReceiptEvidence) {
    && l.Some?
    && var r := l.value;
       && c.digest(r) == Some(x.digest) && r.id == x.id && r.operation == e.operation && r.intent == e.intent
       && r.policy == e.policy && r.time <= e.completedAt
  }

  ghost function CompletionOf(c: Checks, e: Evidence, obligations: seq<Obligation>, rs: seq<Receipt>): Completion {
    if !c.evidenceOk(e) then InvalidContract
    else if !StatusOf(c, Reference(e.operation, e.intent), obligations, rs).Completable? then Conflict
    else if forall i :: 0 <= i < |e.receipts| ==> Cited(c, e, Last(rs, e.receipts[i].domain), e.receipts[i])
    then Accepted
    else Conflict
  }

  /** With only one distinct receipt, the last one is that receipt. */
  lemma LastIsOnly(c: Checks, rs: seq<Receipt>, d: Domain, deadline: int, r: Receipt)
    requires OnlySuccess(c, rs, d, deadline, r) && !Collision(c, rs)
    ensures Last(rs, d) == Some(r)
  {
    assert SameReceipt(c, r, Last(rs, d).value);
  }

  lemma LastAlike(c: Checks, ref: Reference, obligations: seq<Obligation>, a: seq<Receipt>, b: seq<Receipt>, d: Domain)
    requires SameReceipts(a, b) && !Collision(c, a) && StatusOf(c, ref, obligations, a).Completable?
    ensures Last(a, d) == Last(b, d)
  {
    NoCollisionIsUnambiguous(c, obligations, a);
    CompletableExactly(c, ref, obligations, a);
    if ValidDomain(d) {
      var i := IndexDomain(d);
      assert Settled(c, a, WANT[i], obligations[i].deadline);
      var r :| OnlySuccess(c, a, WANT[i], obligations[i].deadline, r);
      assert OnlySuccess(c, b, WANT[i], obligations[i].deadline, r);
      LastIsOnly(c, a, d, obligations[i].deadline, r);
      LastIsOnly(c, b, d, obligations[i].deadline, r);
    } else {
      assert forall x :: x in a ==> ReceiptOk(c, obligations, x);
    }
  }

  /** The completion check inherits the independence. */
  lemma CompletionIndependent(c: Checks, e: Evidence, obligations: seq<Obligation>, a: seq<Receipt>, b: seq<Receipt>)
    requires SameReceipts(a, b) && !Collision(c, a)
    ensures CompletionOf(c, e, obligations, a) == CompletionOf(c, e, obligations, b)
  {
    var ref := Reference(e.operation, e.intent);
    NoCollisionIsUnambiguous(c, obligations, a);
    OrderIndependent(c, ref, obligations, a, b);
    hide StatusOf, Cited, Collision;
    if StatusOf(c, ref, obligations, a).Completable? {
      forall d ensures Last(a, d) == Last(b, d) { LastAlike(c, ref, obligations, a, b, d); }
    }
  }

  /** An accepted completion cites, in each domain it lists, the identifier and digest of the domain's one
      distinct receipt, which is a verified success in time. */
  lemma AcceptedCitesSuccess(c: Checks, e: Evidence, obligations: seq<Obligation>, rs: seq<Receipt>, i: nat)
    requires CompletionOf(c, e, obligations, rs).Accepted? && i < |e.receipts|
    ensures |obligations| == 3 && ValidDomain(e.receipts[i].domain)
    ensures var x := e.receipts[i];
            var deadline := obligations[IndexDomain(x.domain)].deadline;
            exists r :: OnlySuccess(c, rs, x.domain, deadline, r) && r.id == x.id && c.digest(r) == Some(x.digest)
  {
    var x, ref := e.receipts[i], Reference(e.operation, e.intent);
    var l := Last(rs, x.domain).value;
    assert Cited(c, e, Last(rs, x.domain), x);
    assert ReceiptOk(c, obligations, l);
    var k := IndexDomain(x.domain);
    assert FindingOf(c, rs, WANT[k], obligations[k].deadline).None?;
    SettledExactly(c, rs, WANT[k], obligations[k].deadline);
    var r :| OnlySuccess(c, rs, x.domain, obligations[k].deadline, r);
    assert SameReceipt(c, r, l);
  }

  // ------------------------------------------------------------------ the loops

  /** What the maps of the loop hold after the receipts in `rs`. */
  ghost predicate Recorded(c: Checks, obligations: seq<Obligation>, rs: seq<Receipt>, seen: map<Domain, Receipt>,
                           incidents: map<Domain, Reason>, pending: set<Domain>, ids: map<string, Domain>)
    requires |obligations| == 3
  {
    && Sound(c, obligations, rs)
    && (forall d :: RecordedAt(c, obligations, rs, seen, incidents, pending, d))
    && (forall r :: r in rs ==> r.id in ids && ids[r.id] == r.domain)
    && (forall id :: id in ids ==> exists r :: r in rs && r.id == id)
  }

  ghost predicate RecordedAt(c: Checks, obligations: seq<Obligation>, rs: seq<Receipt>, seen: map<Domain, Receipt>,
                             incidents: map<Domain, Reason>, pending: set<Domain>, d: Domain)
    requires |obligations| == 3
  {
    && First(c, rs, d) == (if d in seen then Some(seen[d]) else None)
    && IncidentOf(c, rs, d, obligations[IndexDomain(d)].deadline) ==
       (if d in incidents then Some(incidents[d]) else None)
    && (d in pending <==> Waiting(c, rs, d))
  }

  method CheckObligations(c: Checks, ref: Reference, obligations: seq<Obligation>) returns (ok: bool)
    ensures ok == HeaderOk(c, ref, obligations)
  {
    if !c.referenceOk(ref) || |obligations| != 3 {
      return false;
    }
    var i := 0;
    while i < 3
      invariant 0 <= i <= 3
      invariant forall j :: 0 <= j < i ==>
                  && c.obligationDigest(obligations[j]).Some? && obligations[j].domain == WANT[j]
                  && obligations[j].operation == ref.operation && obligations[j].intent == ref.intent
                  && obligations[j].policy == obligations[0].policy
    {
      var o := obligations[i];
      if c.obligationDigest(o).None? || o.domain != WANT[i] || o.operation != ref.operation || o.intent != ref.intent
         || (i > 0 && o.policy != obligations[0].policy) {
        return false;
      }
      i := i + 1;
    }
    return true;
  }

  lemma Grown(c: Checks, rs: seq<Receipt>, r: Receipt, d: Domain)
    ensures First(c, rs + [r], d) ==
            if First(c, rs, d).Some? then First(c, rs, d)
            else if r.domain == d && Signature(c, r) == Verified then Some(r) else None
    ensures Waiting(c, rs + [r], d) <==> Waiting(c, rs, d) || (r.domain == d && Signature(c, r) == Unavailable)
    ensures Contradicted(c, rs + [r], d) <==>
              || Contradicted(c, rs, d)
              || (First(c, rs, d).Some? && r.domain == d && Signature(c, r) == Verified
                 && !SameReceipt(c, First(c, rs, d).value, r))
  {
    var all := rs + [r];
    assert all[..|rs|] == rs && all[|rs|] == r;
    forall x ensures x in all <==> x in rs || x == r {}
    GrownContradiction(c, rs, r, d);
  }

  lemma GrownContradiction(c: Checks, rs: seq<Receipt>, r: Receipt, d: Domain)
    ensures Contradicted(c, rs + [r], d) <==>
              || Contradicted(c, rs, d)
              || (First(c, rs, d).Some? && r.domain == d && Signature(c, r) == Verified
                 && !SameReceipt(c, First(c, rs, d).value, r))
  {
    var all := rs + [r];
    assert all[..|rs|] == rs && all[|rs|] == r;
    forall x ensures VerifiedIn(c, all, d, x) <==>
        VerifiedIn(c, rs, d, x) || (x == r && r.domain == d && Signature(c, r) == Verified) {}
    if First(c, rs, d).None? {
      forall x ensures !VerifiedIn(c, rs, d, x) { if VerifiedIn(c, rs, d, x) { FirstExists(c, rs, d, x); } }
    }
  }

  /** The loop body on an acceptable receipt keeps the maps recording. */
  lemma Noted(c: Checks, obligations: seq<Obligation>, rs: seq<Receipt>, r: Receipt,
              seen: map<Domain, Receipt>, incidents: map<Domain, Reason>, pending: set<Domain>,
              ids: map<string, Domain>,
              seen': map<Domain, Receipt>, incidents': map<Domain, Reason>, pending': set<Domain>)
    requires |obligations| == 3 && Recorded(c, obligations, rs, seen, incidents, pending, ids)
    requires ReceiptOk(c, obligations, r)
    requires r.id in ids ==> ids[r.id] == r.domain
    requires var deadline := obligations[IndexDomain(r.domain)].deadline;
             if Signature(c, r) == Unavailable then
               && seen' == seen && pending' == pending + {r.domain} && incidents' == incidents
             else if r.domain in seen then
               && seen' == seen && pending' == pending
               && incidents' == if SameReceipt(c, seen[r.domain], r) then incidents
                                else incidents[r.domain := ContradictoryEvidence]
             else
               && seen' == seen[r.domain := r] && pending' == pending
               && incidents' == if r.outcome.Failed? then incidents[r.domain := ReceiptFailed]
                                else if r.time > deadline then incidents[r.domain := DeadlineMissed] else incidents
    ensures Recorded(c, obligations, rs + [r], seen', incidents', pending', ids[r.id := r.domain])
  {
    var all, ids' := rs + [r], ids[r.id := r.domain];
    forall d ensures RecordedAt(c, obligations, all, seen', incidents', pending', d) {
      assert RecordedAt(c, obligations, rs, seen, incidents, pending, d);
      Grown(c, rs, r, d);
      GrownContradiction(c, rs, r, d);
      assert First(c, rs, d).None? ==> !Contradicted(c, rs, d);
      hide First, Contradicted, Waiting, SameReceipt;
    }
    hide RecordedAt, ReceiptOk;
    forall x | x in all
      ensures ReceiptOk(c, obligations, x) && x.id in ids' && ids'[x.id] == x.domain { assert x in rs || x == r; }
    assert Sound(c, obligations, all);
    forall id | id in ids' ensures exists x :: x in all && x.id == id {
      if id == r.id { assert all[|rs|] == r; } else { var x :| x in rs && x.id == id; assert x in all; }
    }
  }

  /** An unacceptable receipt, or an identifier used in two domains, makes the evidence unsound. */
  lemma Unsound(c: Checks, obligations: seq<Obligation>, receipts: seq<Receipt>, i: nat, ids: map<string, Domain>)
    requires |obligations| == 3 && i < |receipts|
    requires (forall id :: id in ids ==> exists r :: r in receipts[..i] && r.id == id)
    requires forall r :: r in receipts[..i] ==> r.id in ids && ids[r.id] == r.domain
    requires !ReceiptOk(c, obligations, receipts[i])
              || (receipts[i].id in ids && ids[receipts[i].id] != receipts[i].domain)
    ensures !Sound(c, obligations, receipts) && !Sound(c, obligations, receipts[..i + 1])
    ensures receipts[i].id in ids && ids[receipts[i].id] != receipts[i].domain ==> Clashes(receipts, i)
  {
    var r, upto := receipts[i], receipts[..i + 1];
    assert upto[i] == r;
    assert r in receipts && r in upto;
    if r.id in ids && ids[r.id] != r.domain {
      var x :| x in receipts[..i] && x.id == r.id;
      assert x in receipts && upto == receipts[..i] + [r];
    }
  }

  datatype Maps = Maps(seen: map<Domain, Receipt>, incidents: map<Domain, Reason>, pending: set<Domain>)

  /** Read the receipts one by one; a finding or none where the evidence is unsound. */
  method Examine(c: Checks, obligations: seq<Obligation>, receipts: seq<Receipt>) returns (sound: bool, maps: Maps,
                 bad: seq<Finding>)
    requires |obligations| == 3 && forall j :: 0 <= j < 3 ==> c.obligationDigest(obligations[j]).Some?
    ensures sound == Sound(c, obligations, receipts)
    ensures sound ==> forall d :: RecordedAt(c, obligations, receipts, maps.seen, maps.incidents, maps.pending, d)
    ensures !sound ==> Blames(c, obligations, receipts, bad)
  {
    hide Sound, RecordedAt;
    var seen: map<Domain, Receipt>, incidents: map<Domain, Reason>, pending: set<Domain>, ids: map<string, Domain> :=
        map[], map[], {}, map[];
    NothingRecorded(c, obligations);
    bad := [];
    var i := 0;
    while i < |receipts|
      invariant 0 <= i <= |receipts| && Recorded(c, obligations, receipts[..i], seen, incidents, pending, ids)
    {
      var r := receipts[i];
      assert receipts[..i + 1] == receipts[..i] + [r];
      maps := Maps(seen, incidents, pending);
      if !ValidDomain(r.domain) || (r.id in ids && ids[r.id] != r.domain) {
        Unsound(c, obligations, receipts, i, ids);
        return false, maps, [];
      }
      assert !Clashes(receipts, i);
      var o := obligations[IndexDomain(r.domain)];
      var signature := Signature(c, r);
      if !c.bound(r, o, c.obligationDigest(o).value) || signature == Rejected {
        Unsound(c, obligations, receipts, i, ids);
        return false, maps, [Finding(r.domain, InvalidEvidence)];
      }
      hide Signature, SameReceipt;
      if signature == Unavailable {
        pending := pending + {r.domain};
      } else if r.domain in seen {
        if !SameReceipt(c, seen[r.domain], r) {
          incidents := incidents[r.domain := ContradictoryEvidence];
        }
      } else {
        seen := seen[r.domain := r];
        if r.outcome.Failed? {
          incidents := incidents[r.domain := ReceiptFailed];
        }
        if r.outcome.Succeeded? && r.time > o.deadline {
          incidents := incidents[r.domain := DeadlineMissed];
        }
      }
      Noted(c, obligations, receipts[..i], r, maps.seen, maps.incidents, maps.pending, ids, seen, incidents, pending);
      ids := ids[r.id := r.domain];
      i := i + 1;
    }
    assert receipts[..i] == receipts;
    return true, Maps(seen, incidents, pending), [];
  }

  /** The receipt is of no known domain, or an earlier one of another domain has its identifier. */
  ghost predicate Clashes(receipts: seq<Receipt>, i: nat)
    requires i < |receipts|
  {
    || !ValidDomain(receipts[i].domain)
    || exists r :: r in receipts[..i] && r.id == receipts[i].id && r.domain != receipts[i].domain
  }

  /** The first receipt that makes the evidence unsound; reading stops there. */
  ghost predicate FirstFault(c: Checks, obligations: seq<Obligation>, receipts: seq<Receipt>, i: int)
    requires |obligations| == 3
  {
    0 <= i < |receipts| && Sound(c, obligations, receipts[..i]) && !Sound(c, obligations, receipts[..i + 1])
  }

  /** A clash is not blamed on a domain; any other first fault is invalid evidence of its domain. */
  ghost predicate Blames(c: Checks, obligations: seq<Obligation>, receipts: seq<Receipt>, bad: seq<Finding>)
    requires |obligations| == 3
  {
    exists i ::
      && FirstFault(c, obligations, receipts, i)
      && bad == if Clashes(receipts, i) then [] else [Finding(receipts[i].domain, InvalidEvidence)]
  }

  lemma NothingRecorded(c: Checks, obligations: seq<Obligation>)
    requires |obligations| == 3
    ensures Recorded(c, obligations, [], map[], map[], {}, map[])
  {}

  /** One finding per domain that is not settled, from the maps of the loop. */
  method Summarize(c: Checks, obligations: seq<Obligation>, receipts: seq<Receipt>,
                   maps: Maps) returns (findings: seq<Finding>, incident: bool)
    requires |obligations| == 3
    requires forall d :: RecordedAt(c, obligations, receipts, maps.seen, maps.incidents, maps.pending, d)
    ensures findings == FindingsOf(c, obligations, receipts, 3)
    ensures incident <==> InIncident(c, obligations, receipts)
    ensures findings != [] <==> Unfinished(c, obligations, receipts)
  {
    hide First, Waiting, IncidentOf;
    findings, incident := [], false;
    var i := 0;
    while i < 3
      invariant 0 <= i <= 3 && findings == FindingsOf(c, obligations, receipts, i)
      invariant incident <==> exists j :: 0 <= j < i && IncidentOf(c, receipts, WANT[j], obligations[j].deadline).Some?
      invariant findings != [] <==>
                exists j :: 0 <= j < i && FindingOf(c, receipts, WANT[j], obligations[j].deadline).Some?
    {
      var d := WANT[i];
      assert RecordedAt(c, obligations, receipts, maps.seen, maps.incidents, maps.pending, d) && IndexDomain(d) == i;
      if d in maps.incidents {
        findings := findings + [Finding(d, maps.incidents[d])];
        incident := true;
      } else if d in maps.pending {
        findings := findings + [Finding(d, VerificationUnavailable)];
      } else if d !in maps.seen {
        findings := findings + [Finding(d, EvidenceMissing)];
      }
      i := i + 1;
    }
  }

  method Classify(c: Checks, ref: Reference, obligations: seq<Obligation>,
                  receipts: seq<Receipt>) returns (recovery: Recovery)
    ensures recovery.status == StatusOf(c, ref, obligations, receipts)
    ensures recovery.status != Corrupt ==>
              |obligations| == 3 && recovery.findings == FindingsOf(c, obligations, receipts, 3)
    ensures recovery.status == Corrupt ==>
              if HeaderOk(c, ref, obligations) then Blames(c, obligations, receipts, recovery.findings)
              else recovery.findings == []
  {
    var ok := CheckObligations(c, ref, obligations);
    if !ok {
      return Recovery(Corrupt, []);
    }
    var sound, maps, bad := Examine(c, obligations, receipts);
    hide Sound, Blames, RecordedAt, InIncident, Unfinished, FindingsOf;
    if !sound {
      return Recovery(Corrupt, bad);
    }
    var findings, incident := Summarize(c, obligations, receipts, maps);
    return Recovery(if incident then Incident else if findings != [] then Pending else Completable, findings);
  }

  method LastByDomain(receipts: seq<Receipt>) returns (byDomain: map<Domain, Receipt>)
    ensures forall d :: Last(receipts, d) == if d in byDomain then Some(byDomain[d]) else None
  {
    byDomain := map[];
    var i := 0;
    while i < |receipts|
      invariant 0 <= i <= |receipts|
      invariant forall d :: Last(receipts[..i], d) == if d in byDomain then Some(byDomain[d]) else None
    {
      assert receipts[..i + 1][..i] == receipts[..i];
      byDomain := byDomain[receipts[i].domain := receipts[i]];
      i := i + 1;
    }
    assert receipts[..i] == receipts;
  }

  method ValidateCompletion(c: Checks, e: Evidence, obligations: seq<Obligation>,
                            receipts: seq<Receipt>) returns (r: Completion)
    ensures r == CompletionOf(c, e, obligations, receipts)
  {
    hide StatusOf, FindingsOf, Blames, Last, Cited;
    if !c.evidenceOk(e) {
      return InvalidContract;
    }
    var recovery := Classify(c, Reference(e.operation, e.intent), obligations, receipts);
    if recovery.status != Completable {
      return Conflict;
    }
    var byDomain := LastByDomain(receipts);
    var i := 0;
    while i < |e.receipts|
      invariant 0 <= i <= |e.receipts|
      invariant forall j :: 0 <= j < i ==> Cited(c, e, Last(receipts, e.receipts[j].domain), e.receipts[j])
    {
      var x := e.receipts[i];
      if !Cited(c, e, if x.domain in byDomain then Some(byDomain[x.domain]) else None, x) {
        return Conflict;
      }
      i := i + 1;
    }
    return Accepted;
  }
}
