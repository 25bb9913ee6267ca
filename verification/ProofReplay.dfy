/**
 internal/primitivesstaging: the store of proofs already seen and the acceptance window
 in front of it.  Times are milliseconds and wall-clock readings are arbitrary: they may
 step backwards between requests.
 */
module ProofReplay {
  import opened Interop

  type Key = (string, string)

  /** thumbprint and jti name a row. */
  datatype Row = Row(issued: int, retain: int)

  datatype Store = Store(rows: map<Key, Row>, highWater: int)

  /** How long before and after its reading a proof is accepted, how far the clock may step back, and how
      long a proof is kept. */
  datatype Limits = Limits(past: nat, ahead: nat, guard: nat, retention: nat, maxEntries: nat)

  const PURGE_LIMIT: nat := 256

  datatype Answer = Accepted | Unauthenticated | Replayed | Unavailable

  /** What the database does: everything asked of it, the same but reporting an error, or an error and a rollback. */
  datatype Database = Works | CommitsUnreported | Fails

  datatype Proof = Proof(thumbprint: string, jti: string, issued: int)

  function KeyOf(p: Proof): Key { (p.thumbprint, p.jti) }

  predicate ValidJti(jti: string) {
    16 <= |jti| <= 128 && forall i :: 0 <= i < |jti| ==>
      'a' <= jti[i] <= 'z' || 'A' <= jti[i] <= 'Z' || '0' <= jti[i] <= '9' || jti[i] == '-' || jti[i] == '_'
  }

  predicate Readable(p: Proof, now: int) { ValidJti(p.jti) && now != ZERO_TIME && p.issued != ZERO_TIME }

  /** The window of verifyDPoP. */
  predicate InWindow(lim: Limits, issued: int, now: int) {
    now - lim.past <= issued <= now + lim.ahead
  }

  function RetainUntil(lim: Limits, issued: int, now: int): int {
    if issued + lim.retention <= now then now + 5_000 else issued + lim.retention
  }

  /** The table's own checks on an inserted row. */
  predicate RowOk(r: Row) {
    0 <= r.issued < r.retain <= MAX_SAFE_INTEGER
  }

  function Expired(rows: map<Key, Row>, now: int): set<Key> {
    set k | k in rows && rows[k].retain <= now
  }

  /** Some of the rows expired for longest have been taken away, `n` of them. */
  ghost predicate Purging(rows: map<Key, Row>, now: int, kept: map<Key, Row>, n: nat) {
    && (forall k :: k in kept ==> k in rows && kept[k] == rows[k])
    && (forall k :: k in rows && k !in kept ==> rows[k].retain <= now)
    && (forall k, l :: k in rows && k !in kept && l in Expired(kept, now) ==> rows[k].retain <= kept[l].retain)
    && |Expired(kept, now)| == |Expired(rows, now)| - n
  }

  /** A purge takes away the longest expired rows, at most 256 of them. */
  ghost predicate Purged(rows: map<Key, Row>, now: int, kept: map<Key, Row>) {
    exists n: nat :: n <= PURGE_LIMIT && Purging(rows, now, kept, n) && (n == PURGE_LIMIT || Expired(kept, now) == {})
  }

  // ------------------------------------------------------------- one transaction

  function Inserted(lim: Limits, s: Store, kept: map<Key, Row>, p: Proof, now: int): Store {
    Store(kept[KeyOf(p) := Row(p.issued, RetainUntil(lim, p.issued, now))],
          if now > s.highWater then now else s.highWater)
  }

  /** Reserve as one transaction: every answer but a commit leaves the table and the high water alone. */
  ghost predicate Reserved(lim: Limits, s: Store, p: Proof, now: int, kept: map<Key, Row>, db: Database, s': Store,
                           answer: Answer) {
    if db.Fails? || !Readable(p, now) || now < s.highWater - lim.guard then s' == s && answer == Unavailable
    else
      && Purged(s.rows, now, kept)
      && if |kept| >= lim.maxEntries then s' == s && answer == Unavailable
         else if KeyOf(p) in kept then s' == s && answer == Replayed
         else if !RowOk(Row(p.issued, RetainUntil(lim, p.issued, now))) then s' == s && answer == Unavailable
         else s' == Inserted(lim, s, kept, p, now) && answer == if db.Works? then Accepted else Unavailable
  }

  /** Authenticate: the window first, then the store. */
  ghost predicate Authenticated(lim: Limits, s: Store, p: Proof, now: int, s': Store, answer: Answer) {
    if now == ZERO_TIME || !ValidJti(p.jti) || !InWindow(lim, p.issued, now) then s' == s && answer == Unauthenticated
    else exists kept, db, stored :: Reserved(lim, s, p, now, kept, db, s', stored) && answer == Shown(stored)
  }

  /** The same for a database known to behave in one way. */
  ghost predicate AuthenticatedBy(lim: Limits, s: Store, p: Proof, now: int, db: Database, s': Store, answer: Answer) {
    if now == ZERO_TIME || !ValidJti(p.jti) || !InWindow(lim, p.issued, now) then s' == s && answer == Unauthenticated
    else exists kept, stored :: Reserved(lim, s, p, now, kept, db, s', stored) && answer == Shown(stored)
  }

  function Shown(a: Answer): Answer { if a.Replayed? then Unauthenticated else a }

  // ------------------------------------------------------------------ whole runs

  datatype Visit = Visit(proof: Proof, now: int, answer: Answer, after: Store)

  ghost function Before(start: Store, visits: seq<Visit>, i: nat): Store
    requires i <= |visits|
  {
    if i == 0 then start else visits[i - 1].after
  }

  ghost predicate IsRun(lim: Limits, start: Store, visits: seq<Visit>) {
    forall i :: 0 <= i < |visits| ==>
      Authenticated(lim, Before(start, visits, i), visits[i].proof, visits[i].now, visits[i].after, visits[i].answer)
  }

  /** A proof that can never be accepted again: its row is kept, or time has passed it for good. */
  ghost predicate Spent(lim: Limits, s: Store, p: Proof) {
    || s.highWater >= p.issued + lim.retention
    || (KeyOf(p) in s.rows && s.rows[KeyOf(p)].retain >= p.issued + lim.retention)
  }

  lemma SpentStays(lim: Limits, s: Store, p: Proof, q: Proof, now: int, s': Store, answer: Answer)
    requires Spent(lim, s, p) && Authenticated(lim, s, q, now, s', answer)
    ensures Spent(lim, s', p)
  {
    if s' != s {
      var kept, db, stored :| Reserved(lim, s, q, now, kept, db, s', stored) && answer == Shown(stored);
      assert KeyOf(p) in s.rows && KeyOf(p) !in kept ==> s.rows[KeyOf(p)].retain <= now;
    }
  }

  lemma SpentIsRefused(lim: Limits, s: Store, p: Proof, now: int, s': Store, answer: Answer)
    requires lim.past + lim.guard < lim.retention && Spent(lim, s, p) && Authenticated(lim, s, p, now, s', answer)
    ensures answer != Accepted
  {
    if now != ZERO_TIME && InWindow(lim, p.issued, now) && ValidJti(p.jti) {
      var kept, db, stored :| Reserved(lim, s, p, now, kept, db, s', stored) && answer == Shown(stored);
      if KeyOf(p) in s.rows && s.rows[KeyOf(p)].retain > now && Purged(s.rows, now, kept) {
        assert KeyOf(p) in kept;
      }
    }
  }

  lemma AcceptedIsSpent(lim: Limits, s: Store, p: Proof, now: int, s': Store)
    requires lim.past < lim.retention && Authenticated(lim, s, p, now, s', Accepted)
    ensures Spent(lim, s', p)
  {
    var kept, db, stored :| Reserved(lim, s, p, now, kept, db, s', stored) && Accepted == Shown(stored);
  }

  lemma RunStep(lim: Limits, start: Store, visits: seq<Visit>, i: nat)
    requires IsRun(lim, start, visits) && i < |visits|
    ensures Authenticated(lim, Before(start, visits, i), visits[i].proof, visits[i].now, Before(start, visits, i + 1),
              visits[i].answer)
  {
    hide Authenticated;
  }

  lemma {:induction false} SpentForever(lim: Limits, start: Store, visits: seq<Visit>, i: nat, j: nat, p: Proof)
    requires IsRun(lim, start, visits) && i <= j <= |visits| && Spent(lim, Before(start, visits, i), p)
    ensures Spent(lim, Before(start, visits, j), p)
    decreases j
  {
    hide Authenticated, Spent, Before, IsRun;
    if i < j {
      SpentForever(lim, start, visits, i, j - 1, p);
      RunStep(lim, start, visits, j - 1);
      var v := visits[j - 1];
      SpentStays(lim, Before(start, visits, j - 1), p, v.proof, v.now, Before(start, visits, j), v.answer);
    }
  }

  /** For every sequence of clock readings, no proof is accepted twice, as long as a proof is kept for longer
      than the window reaches back plus what the clock may step back. */
  lemma NeverAcceptedTwice(lim: Limits, start: Store, visits: seq<Visit>, i: nat, j: nat)
    requires IsRun(lim, start, visits) && i < j < |visits| && lim.past + lim.guard < lim.retention
    requires visits[i].proof == visits[j].proof && visits[i].answer == Accepted
    ensures visits[j].answer != Accepted
  {
    hide Authenticated, Spent, Before, IsRun;
    var p := visits[i].proof;
    RunStep(lim, start, visits, i);
    RunStep(lim, start, visits, j);
    AcceptedIsSpent(lim, Before(start, visits, i), p, visits[i].now, Before(start, visits, i + 1));
    SpentForever(lim, start, visits, i + 1, j, p);
    SpentIsRefused(lim, Before(start, visits, j), p, visits[j].now, Before(start, visits, j + 1), visits[j].answer);
  }

  /** The limits the authenticator and the store use. */
  function Deployed(maxEntries: nat): Limits { Limits(60_000, 5_000, 5_000, 70_000, maxEntries) }

  lemma DeployedNeverAcceptsTwice(maxEntries: nat, start: Store, visits: seq<Visit>, i: nat, j: nat)
    requires IsRun(Deployed(maxEntries), start, visits) && i < j < |visits|
    requires visits[i].proof == visits[j].proof && visits[i].answer == Accepted
    ensures visits[j].answer != Accepted
  {
    NeverAcceptedTwice(Deployed(maxEntries), start, visits, i, j);
  }

  lemma Accepting(lim: Limits, s: Store, p: Proof, now: int, kept: map<Key, Row>)
    requires Readable(p, now) && InWindow(lim, p.issued, now) && now >= s.highWater - lim.guard
    requires Purged(s.rows, now, kept) && |kept| < lim.maxEntries && KeyOf(p) !in kept
    requires RowOk(Row(p.issued, RetainUntil(lim, p.issued, now)))
    ensures Authenticated(lim, s, p, now, Inserted(lim, s, kept, p, now), Accepted)
  {
    hide Purged, ValidJti, RowOk, Inserted;
    assert Reserved(lim, s, p, now, kept, Works, Inserted(lim, s, kept, p, now), Accepted);
  }

  lemma PurgesLone(k: Key, row: Row, now: int)
    ensures Purged(map[k := row], now, if row.retain <= now then map[] else map[k := row])
    ensures Purged(map[], now, map[])
  {
    var rows: map<Key, Row> := map[k := row];
    assert Expired(map[], now) == {};
    assert Expired(rows, now) == if row.retain <= now then {k} else {};
    assert Purging(map[], now, map[], 0);
    assert if row.retain <= now then Purging(rows, now, map[], 1) else Purging(rows, now, rows, 0);
  }

  /** The bound is exact: with any shorter retention, and room for two rows, some run accepts a proof twice. */
  lemma AcceptedTwiceOtherwise(lim: Limits) returns (start: Store, visits: seq<Visit>)
    requires 0 < lim.retention <= lim.past + lim.guard && lim.maxEntries >= 2 && 2 * lim.retention <= MAX_SAFE_INTEGER
    ensures IsRun(lim, start, visits) && |visits| == 3
    ensures visits[0].proof == visits[2].proof && visits[0].answer == Accepted && visits[2].answer == Accepted
  {
    var r := lim.retention;
    var p, q := Proof("key", "aaaaaaaaaaaaaaaa", 0), Proof("key", "bbbbbbbbbbbbbbbb", r);
    var late := if r >= lim.guard then r - lim.guard else 0;
    start := Store(map[], 0);
    var s1 := Inserted(lim, start, map[], p, 0);
    var s2 := Inserted(lim, s1, map[], q, r);
    var s3 := Inserted(lim, s2, s2.rows, p, late);
    visits := [Visit(p, 0, Accepted, s1), Visit(q, r, Accepted, s2), Visit(p, late, Accepted, s3)];
    hide Purged, Authenticated, ValidJti;
    assert ValidJti(p.jti) && ValidJti(q.jti) by { LiteralsAreValid(); }
    PurgesLone(KeyOf(p), Row(0, r), r);
    PurgesLone(KeyOf(p), Row(0, r), 0);
    PurgesLone(KeyOf(q), Row(r, 2 * r), late);
    assert s1.rows == map[KeyOf(p) := Row(0, r)] && s2.rows == map[KeyOf(q) := Row(r, 2 * r)];
    Accepting(lim, start, p, 0, map[]);
    Accepting(lim, s1, q, r, map[]);
    Accepting(lim, s2, p, late, s2.rows);
  }

  lemma LiteralsAreValid()
    ensures ValidJti("aaaaaaaaaaaaaaaa") && ValidJti("bbbbbbbbbbbbbbbb")
  {}

  // --------------------------------------------------------------- what is answered

  /** How many rows a purge leaves. */
  function Left(rows: map<Key, Row>, now: int): nat {
    assert Expired(rows, now) <= rows.Keys;
    Difference(rows.Keys, Expired(rows, now));
    |rows| - if |Expired(rows, now)| < 256 then |Expired(rows, now)| else 256
  }

  lemma PurgedCount(rows: map<Key, Row>, now: int, kept: map<Key, Row>)
    requires Purged(rows, now, kept)
    ensures |kept| == Left(rows, now)
    ensures |Expired(rows, now)| <= 256 ==> Expired(kept, now) == {}
  {
    var n: nat :| n <= PURGE_LIMIT && Purging(rows, now, kept, n) && (n == PURGE_LIMIT || Expired(kept, now) == {});
    PurgingCount(rows, now, kept, n);
    hide Purging;
    if |Expired(rows, now)| == 256 && n == 256 { assert |Expired(kept, now)| == 0; }
  }

  lemma PurgingCount(rows: map<Key, Row>, now: int, kept: map<Key, Row>, n: nat)
    requires Purging(rows, now, kept, n)
    ensures |kept| == |rows| - n && |Expired(kept, now)| == |Expired(rows, now)| - n
  {
    KeptCount(rows, now, kept);
  }

  lemma KeptCount(rows: map<Key, Row>, now: int, kept: map<Key, Row>)
    requires forall k :: k in kept ==> k in rows && kept[k] == rows[k]
    requires forall k :: k in rows && k !in kept ==> rows[k].retain <= now
    ensures |rows| - |kept| == |Expired(rows, now)| - |Expired(kept, now)|
  {
    assert rows.Keys - kept.Keys == Expired(rows, now) - Expired(kept, now);
    Difference(rows.Keys, kept.Keys);
    Difference(Expired(rows, now), Expired(kept, now));
    assert |kept| == |kept.Keys| && |rows| == |rows.Keys|;
  }

  lemma Difference(a: set<Key>, b: set<Key>)
    requires b <= a
    ensures |a - b| == |a| - |b|
  {
    assert a == b + (a - b);
  }

  lemma PurgedKeeps(rows: map<Key, Row>, now: int, kept: map<Key, Row>)
    requires Purged(rows, now, kept)
    ensures forall k :: k in rows && rows[k].retain > now ==> k in kept && kept[k] == rows[k]
    ensures forall k :: k in kept ==> k in rows && kept[k] == rows[k]
    ensures |Expired(rows, now)| <= 256 ==> forall k :: k in kept ==> rows[k].retain > now
  {
    PurgedCount(rows, now, kept);
    assert forall k :: k in kept && kept[k].retain <= now <==> k in Expired(kept, now);
  }

  /** What a working store answers, over its rows and the ones a purge keeps: a proof whose row is kept is a replay,
      and so is every proof whose row is retained; with at most 256 expired rows no other proof is. */
  lemma ReserveAnswersExactly(lim: Limits, s: Store, p: Proof, now: int, kept: map<Key, Row>, s': Store, answer: Answer)
    requires Reserved(lim, s, p, now, kept, Works, s', answer)
    ensures var row := Row(p.issued, RetainUntil(lim, p.issued, now));
            if !Readable(p, now) || now < s.highWater - lim.guard || Left(s.rows, now) >= lim.maxEntries
            then answer == Unavailable && s' == s
            else
              && (KeyOf(p) in s.rows && s.rows[KeyOf(p)].retain > now ==> KeyOf(p) in kept)
              && (KeyOf(p) in kept ==> KeyOf(p) in s.rows)
              && (KeyOf(p) in kept && |Expired(s.rows, now)| <= 256 ==> s.rows[KeyOf(p)].retain > now)
              && if KeyOf(p) in kept then answer == Replayed && s' == s
                 else if !RowOk(row) then answer == Unavailable && s' == s
                 else && answer == Accepted && s'.rows == kept[KeyOf(p) := row]
                      && s'.highWater == if now > s.highWater then now else s.highWater
  {
    if Readable(p, now) && now >= s.highWater - lim.guard {
      PurgedCount(s.rows, now, kept);
      PurgedKeeps(s.rows, now, kept);
    }
    hide Purged, ValidJti, Left;
  }

  /** The deployed limits: a new proof issued at most 60 seconds ago and 5 ahead is accepted and kept for 70
      seconds from its issue, unless the clock stepped back by more than 5 seconds or the table is full. */
  lemma DeployedAcceptsExactly(maxEntries: nat, s: Store, p: Proof, now: int, s': Store, answer: Answer)
    requires AuthenticatedBy(Deployed(maxEntries), s, p, now, Works, s', answer)
    requires (p.thumbprint, p.jti) !in s.rows
    requires 0 < now < 9_007_199_254_000_000 && 0 <= p.issued && ValidJti(p.jti)
    ensures answer == if p.issued < now - 60_000 || now + 5_000 < p.issued then Unauthenticated
                      else if now < s.highWater - 5_000 || Left(s.rows, now) >= maxEntries then Unavailable
                      else Accepted
    ensures answer == Accepted ==>
              var key := (p.thumbprint, p.jti); key in s'.rows && s'.rows[key] == Row(p.issued, p.issued + 70_000)
  {
    var lim := Deployed(maxEntries);
    hide ValidJti, Purged, Left;
    if InWindow(lim, p.issued, now) {
      var kept, stored :| Reserved(lim, s, p, now, kept, Works, s', stored) && answer == Shown(stored);
      ReserveAnswersExactly(lim, s, p, now, kept, s', stored);
      hide Reserved;
    }
  }

  // ------------------------------------------------------------------- the store

  /** An expired row that has been expired for longest. */
  predicate Oldest(rows: map<Key, Row>, now: int, k: Key) {
    k in Expired(rows, now) && forall l :: l in Expired(rows, now) ==> rows[k].retain <= rows[l].retain
  }

  lemma {:induction false} SomeOldest(rows: map<Key, Row>, now: int, among: set<Key>) returns (k: Key)
    requires among != {} && among <= Expired(rows, now)
    ensures k in among && forall l :: l in among ==> rows[k].retain <= rows[l].retain
    decreases |among|
  {
    k :| k in among;
    if among != {k} {
      var rest := SomeOldest(rows, now, among - {k});
      if rows[rest].retain < rows[k].retain { k := rest; }
    }
  }

  lemma PurgeOne(rows: map<Key, Row>, now: int, kept: map<Key, Row>, k: Key, n: nat)
    requires Purging(rows, now, kept, n) && Oldest(kept, now, k)
    ensures Purging(rows, now, kept - {k}, n + 1)
  {
    var left := kept - {k};
    assert Expired(left, now) == Expired(kept, now) - {k};
    forall x | x in rows && x !in left ensures rows[x].retain <= now { assert x == k || x !in kept; }
    forall x, l | x in rows && x !in left && l in Expired(left, now) ensures rows[x].retain <= left[l].retain {
      assert x == k || x !in kept;
      assert l in Expired(kept, now);
    }
  }

  class ReplayStore {
    const limits: Limits
    var rows: map<Key, Row>
    var highWater: int

    constructor (limits: Limits, now: int)
      ensures this.limits == limits && View() == Store(map[], now)
    {
      this.limits := limits;
      rows, highWater := map[], now;
    }

    function View(): Store
      reads this
    {
      Store(rows, highWater)
    }

    /** The deletion of expired rows, oldest first. */
    method Purge(now: int) returns (kept: map<Key, Row>)
      ensures Purged(rows, now, kept)
    {
      kept := rows;
      var n: nat := 0;
      while n < PURGE_LIMIT && Expired(kept, now) != {}
        invariant n <= PURGE_LIMIT && Purging(rows, now, kept, n)
      {
        ghost var oldest := SomeOldest(kept, now, Expired(kept, now));
        assert Oldest(kept, now, oldest);
        var k :| k in kept && Oldest(kept, now, k);
        PurgeOne(rows, now, kept, k, n);
        kept, n := kept - {k}, n + 1;
      }
    }

    method Reserve(p: Proof, now: int, db: Database) returns (answer: Answer, ghost kept: map<Key, Row>)
      modifies this
      ensures Reserved(limits, old(View()), p, now, kept, db, View(), answer)
    {
      hide Purged, ValidJti;
      kept := map[];
      if db.Fails? || !Readable(p, now) || now < highWater - limits.guard {
        return Unavailable, kept;
      }
      var remaining := Purge(now);
      kept := remaining;
      if |remaining| >= limits.maxEntries {
        return Unavailable, kept;
      }
      if KeyOf(p) in remaining {
        return Replayed, kept;
      }
      var row := Row(p.issued, RetainUntil(limits, p.issued, now));
      if !RowOk(row) {
        return Unavailable, kept;
      }
      rows := remaining[KeyOf(p) := row];
      if now > highWater {
        highWater := now;
      }
      return if db.Works? then Accepted else Unavailable, kept;
    }

    method Authenticate(p: Proof, now: int, db: Database) returns (answer: Answer)
      modifies this
      ensures AuthenticatedBy(limits, old(View()), p, now, db, View(), answer)
      ensures Authenticated(limits, old(View()), p, now, View(), answer)
    {
      hide Reserved, ValidJti;
      if now == ZERO_TIME || !ValidJti(p.jti) || !InWindow(limits, p.issued, now) {
        return Unauthenticated;
      }
      var stored, kept := Reserve(p, now, db);
      answer := Shown(stored);
    }
  }
}
