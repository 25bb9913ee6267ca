/**
 encodeSession and decodeSession of internal/clientauth/gcpworkload/credential_store.go,
 with the record rules of internal/clientauth/credentials.go.  Participant and token
 patterns are parameters beside their lengths; instants are milliseconds.
 */
module SessionCodec {
  import opened Interop
  import opened Options
  import opened WireFormat
  import opened WorkloadCodec

  const SESSION_MAGIC: Bytes := [89, 71, 83, 69, 83, 49]
  const SPEC_VERSION: Bytes := [48, 46, 49]
  const MAX_PLAINTEXT: nat := 4096
  const MAX_RECORD_REFERENCE: nat := 1024
  const TWO_63: int := 0x8000_0000_0000_0000
  const TWO_64: int := 0x1_0000_0000_0000_0000

  datatype Rules = Rules(participant: Bytes -> bool, token: Bytes -> bool)

  datatype SessionRecord = SessionRecord(
    participant: Bytes, epoch: nat, token: Bytes, issued: int, expires: int, reference: Bytes, thumbprint: Bytes)

  datatype Session = Session(operation: Bytes, record: SessionRecord)

  predicate Instant(t: int) { -TWO_63 <= t < TWO_63 && t != ZERO_TIME }

  predicate Visible(b: Bytes) { forall i :: 0 <= i < |b| ==> 0x21 <= b[i] <= 0x7e }

  /** NewSessionRecord; it allows key references of up to 1024 bytes. */
  predicate ValidRecord(rules: Rules, r: SessionRecord) {
    && |r.participant| == 36 && rules.participant(r.participant) && 0 < r.epoch <= MAX_SAFE_INTEGER
    && |r.token| == 43 && rules.token(r.token)
    && Instant(r.issued) && Instant(r.expires) && r.issued < r.expires <= r.issued + 900_000
    && 0 < |r.reference| <= MAX_RECORD_REFERENCE && Visible(r.reference) && Digest32(r.thumbprint)
  }

  predicate ValidOperation(b: Bytes) { |b| == 16 && exists i :: 0 <= i < 16 && b[i] != 0 }

  /** A signed 64-bit number as the unsigned one with the same bits, and back. */
  function Unsigned(t: int): nat
    requires -TWO_63 <= t < TWO_63
  {
    if t >= 0 then t else t + TWO_64
  }

  function Signed(n: nat): int { if n < TWO_63 then n else n - TWO_64 }

  function SessionLayout(s: Session): Bytes
    requires Instant(s.record.issued) && Instant(s.record.expires)
  {
    var r := s.record;
    SESSION_MAGIC + (s.operation + (Prefixed(SPEC_VERSION, 2) + (Prefixed(r.participant, 2) + (BigEndian(r.epoch, 8)
    + (Prefixed(r.token, 2) + (BigEndian(Unsigned(r.issued), 8) + (BigEndian(Unsigned(r.expires), 8)
    + (Prefixed(r.reference, 2) + (r.thumbprint + [])))))))))
  }

  function Encode(s: Session): Option<Bytes>
    requires Instant(s.record.issued) && Instant(s.record.expires)
  {
    if !ValidOperation(s.operation) || |SessionLayout(s)| > MAX_PLAINTEXT then None else Some(SessionLayout(s))
  }

  function SessionFields(raw: Bytes): Option<Session> {
    var magic :- Take(raw, 6);
    if magic.value != SESSION_MAGIC then None
    else
      var operation :- Take(magic.rest, 16);
      var spec :- Field(operation.rest, 2, 16);
      var participant :- Field(spec.rest, 2, 64);
      if spec.value != SPEC_VERSION then None
      else
        var epoch :- Take(participant.rest, 8);
        var token :- Field(epoch.rest, 2, 64);
        var issued :- Take(token.rest, 8);
        var expires :- Take(issued.rest, 8);
        var reference :- Field(expires.rest, 2, MAX_REFERENCE);
        var thumbprint :- Take(reference.rest, 32);
        if thumbprint.rest != [] then None
        else
          var record := SessionRecord(participant.value, FromBigEndian(epoch.value), token.value,
                                      Signed(FromBigEndian(issued.value)), Signed(FromBigEndian(expires.value)),
                                      reference.value, thumbprint.value);
          Some(Session(operation.value, record))
  }

  function Decode(rules: Rules, raw: Bytes): Option<Session> {
    if |raw| == 0 || |raw| > MAX_PLAINTEXT then None
    else
      var s :- SessionFields(raw);
      if !ValidOperation(s.operation) || !ValidRecord(rules, s.record) then None else Some(s)
  }

  ghost predicate SizedSession(s: Session) {
    var r := s.record;
    && |s.operation| == 16 && 0 < |r.participant| <= 64 && r.epoch < TWO_64 && 0 < |r.token| <= 64
    && -TWO_63 <= r.issued < TWO_63 && -TWO_63 <= r.expires < TWO_63
    && 0 < |r.reference| <= MAX_REFERENCE && |r.thumbprint| == 32
  }

  lemma FieldsOfSession(s: Session)
    requires SizedSession(s) && Instant(s.record.issued) && Instant(s.record.expires)
    ensures SessionFields(SessionLayout(s)) == Some(s)
  {
    hide Take, Field, Prefixed, Pow256, BigEndian, FromBigEndian;
    Widths();
    var r := s.record;
    var r9 := r.thumbprint + [];
    var r8 := Prefixed(r.reference, 2) + r9;
    var r7 := BigEndian(Unsigned(r.expires), 8) + r8;
    var r6 := BigEndian(Unsigned(r.issued), 8) + r7;
    var r5 := Prefixed(r.token, 2) + r6;
    var r4 := BigEndian(r.epoch, 8) + r5;
    var r3 := Prefixed(r.participant, 2) + r4;
    var r2 := Prefixed(SPEC_VERSION, 2) + r3;
    var r1 := s.operation + r2;
    TakeExactly(SESSION_MAGIC + r1, 6, SESSION_MAGIC, r1);
    TakeExactly(r1, 16, s.operation, r2);
    FieldExactly(r2, 2, 16, SPEC_VERSION, r3);
    FieldExactly(r3, 2, 64, r.participant, r4);
    TakeExactly(r4, 8, BigEndian(r.epoch, 8), r5);
    NumberRoundTrip(r.epoch, 8);
    FieldExactly(r5, 2, 64, r.token, r6);
    TakeExactly(r6, 8, BigEndian(Unsigned(r.issued), 8), r7);
    NumberRoundTrip(Unsigned(r.issued), 8);
    TakeExactly(r7, 8, BigEndian(Unsigned(r.expires), 8), r8);
    NumberRoundTrip(Unsigned(r.expires), 8);
    FieldExactly(r8, 2, MAX_REFERENCE, r.reference, r9);
    TakeExactly(r9, 32, r.thumbprint, []);
  }

  lemma SessionOfFields(raw: Bytes)
    requires SessionFields(raw).Some?
    requires var r := SessionFields(raw).value.record; Instant(r.issued) && Instant(r.expires)
    ensures SizedSession(SessionFields(raw).value) && SessionLayout(SessionFields(raw).value) == raw
  {
    hide Take, Field, Prefixed, Pow256, BigEndian, FromBigEndian;
    Widths();
    var magic := Take(raw, 6).value;
    TakeExactly(raw, 6, magic.value, magic.rest);
    var operation := Take(magic.rest, 16).value;
    TakeExactly(magic.rest, 16, operation.value, operation.rest);
    var spec := Field(operation.rest, 2, 16).value;
    FieldExactly(operation.rest, 2, 16, spec.value, spec.rest);
    var participant := Field(spec.rest, 2, 64).value;
    FieldExactly(spec.rest, 2, 64, participant.value, participant.rest);
    var epoch := Take(participant.rest, 8).value;
    TakeExactly(participant.rest, 8, epoch.value, epoch.rest);
    BytesRoundTrip(epoch.value);
    var token := Field(epoch.rest, 2, 64).value;
    FieldExactly(epoch.rest, 2, 64, token.value, token.rest);
    var issued := Take(token.rest, 8).value;
    TakeExactly(token.rest, 8, issued.value, issued.rest);
    BytesRoundTrip(issued.value);
    var expires := Take(issued.rest, 8).value;
    TakeExactly(issued.rest, 8, expires.value, expires.rest);
    BytesRoundTrip(expires.value);
    var reference := Field(expires.rest, 2, MAX_REFERENCE).value;
    FieldExactly(expires.rest, 2, MAX_REFERENCE, reference.value, reference.rest);
    var thumbprint := Take(reference.rest, 32).value;
    TakeExactly(reference.rest, 32, thumbprint.value, thumbprint.rest);
  }

  lemma SessionSize(rules: Rules, s: Session)
    requires ValidOperation(s.operation) && ValidRecord(rules, s.record)
    ensures 0 < |SessionLayout(s)| <= 1192
  {
    hide Pow256, BigEndian;
  }

  /** Decoding accepts exactly the encodings of valid sessions whose key reference has at most 512 bytes. */
  lemma DecodeExactly(rules: Rules, raw: Bytes, s: Session)
    ensures Decode(rules, raw) == Some(s) <==>
              && ValidOperation(s.operation) && ValidRecord(rules, s.record)
              && |s.record.reference| <= MAX_REFERENCE && raw == SessionLayout(s)
  {
    if ValidOperation(s.operation) && ValidRecord(rules, s.record) {
      hide SessionFields, SessionLayout;
      if |s.record.reference| <= MAX_REFERENCE && raw == SessionLayout(s) {
        FieldsOfSession(s);
        SessionSize(rules, s);
      } else if SessionFields(raw) == Some(s) {
        SessionOfFields(raw);
      }
    }
  }

  /** A session byte by byte: the magic, the operation, version 0.1, and the fields of the record in order. */
  lemma SessionOnTheWire(rules: Rules, s: Session)
    requires ValidOperation(s.operation) && ValidRecord(rules, s.record)
    ensures var r := s.record;
            SessionLayout(s) ==
            [89, 71, 83, 69, 83, 49] + (s.operation + ([0, 3] + ([48, 46, 49] + ([0, 36] + (r.participant
            + (BigEndian(r.epoch, 8) + ([0, 43] + (r.token + (BigEndian(Unsigned(r.issued), 8)
            + (BigEndian(Unsigned(r.expires), 8) + (Size16(r.reference) + (r.reference + r.thumbprint))))))))))))
  {
    var r := s.record;
    SizeOf(SPEC_VERSION, 3);
    SizeOf(r.participant, 36);
    SizeOf(r.token, 43);
    hide Prefixed, Size16, BigEndian, Digest32, Visible;
    assert r.thumbprint + [] == r.thumbprint;
    PrefixedFront(r.reference, r.thumbprint);
    var t7 := BigEndian(Unsigned(r.expires), 8) + (Size16(r.reference) + (r.reference + r.thumbprint));
    var t6 := BigEndian(Unsigned(r.issued), 8) + t7;
    PrefixedFront(r.token, t6);
    var t4 := BigEndian(r.epoch, 8) + ([0, 43] + (r.token + t6));
    PrefixedFront(r.participant, t4);
    PrefixedFront(SPEC_VERSION, [0, 36] + (r.participant + t4));
  }

  /** Which sessions some bytes decode to. */
  lemma ReadableSession(rules: Rules, s: Session)
    ensures (exists raw :: Decode(rules, raw) == Some(s)) <==>
            var r := s.record;
            && |s.operation| == 16 && (exists i :: 0 <= i < 16 && s.operation[i] != 0)
            && |r.participant| == 36 && rules.participant(r.participant) && |r.token| == 43 && rules.token(r.token)
            && 1 <= r.epoch <= 9_007_199_254_740_991 && r.issued < r.expires <= r.issued + 900_000
            && -0x8000_0000_0000_0000 <= r.issued && r.expires < 0x8000_0000_0000_0000
            && r.issued != -62_135_596_800_000 && r.expires != -62_135_596_800_000
            && 1 <= |r.reference| <= 512 && (forall i :: 0 <= i < |r.reference| ==> 0x21 <= r.reference[i] <= 0x7e)
            && |r.thumbprint| == 32 && (exists i :: 0 <= i < 32 && r.thumbprint[i] != 0)
  {
    if Instant(s.record.issued) && Instant(s.record.expires) { DecodeExactly(rules, SessionLayout(s), s); }
    if raw :| Decode(rules, raw) == Some(s) { DecodeExactly(rules, raw, s); }
    hide Decode, SessionLayout;
  }

  /** Every valid session encodes, but it decodes again exactly when its key reference has at most 512 bytes;
      a longer one, which the record allows, cannot be read back at all. */
  lemma DecodeInvertsEncodeExactly(rules: Rules, s: Session)
    requires ValidOperation(s.operation) && ValidRecord(rules, s.record)
    ensures Encode(s) == Some(SessionLayout(s))
    ensures Decode(rules, SessionLayout(s)) == Some(s) <==> |s.record.reference| <= MAX_REFERENCE
    ensures Decode(rules, SessionLayout(s)).Some? <==> |s.record.reference| <= MAX_REFERENCE
  {
    SessionSize(rules, s);
    DecodeExactly(rules, SessionLayout(s), s);
    if Decode(rules, SessionLayout(s)).Some? {
      var t := Decode(rules, SessionLayout(s)).value;
      DecodeExactly(rules, SessionLayout(s), t);
      LayoutLength(rules, s);
      LayoutLength(rules, t);
      hide SessionLayout, SessionFields;
    }
  }

  lemma LayoutLength(rules: Rules, s: Session)
    requires ValidOperation(s.operation) && ValidRecord(rules, s.record)
    ensures |SessionLayout(s)| == 168 + |s.record.reference|
  {
    hide Pow256, BigEndian;
  }

  /** A version 7 UUID, 01890a5d-ac96-774b-bcce-b302099a8057, and the token of 32 zero bytes in base64url. */
  const SOME_PARTICIPANT: Bytes :=
    [48, 49, 56, 57, 48, 97, 53, 100, 45, 97, 99, 57, 54, 45, 55, 55, 52, 98,
     45, 98, 99, 99, 101, 45, 98, 51, 48, 50, 48, 57, 57, 97, 56, 48, 53, 55]

  const SOME_TOKEN: Bytes := seq(43, _ => 65)

  /** Under any rules that accept this UUID and this token, some record is valid whose encoding cannot be decoded. */
  lemma LongReferenceIsLost(rules: Rules) returns (s: Session)
    requires rules.participant(SOME_PARTICIPANT) && rules.token(SOME_TOKEN)
    ensures ValidOperation(s.operation) && ValidRecord(rules, s.record) && Decode(rules, SessionLayout(s)).None?
  {
    var ones := seq(32, _ => 1);
    s := Session(seq(16, _ => 1), SessionRecord(SOME_PARTICIPANT, 1, SOME_TOKEN, 0, 1, seq(513, _ => 97), ones));
    assert ones[0] != 0 && s.operation[0] != 0;
    hide SessionLayout, SessionFields;
    DecodeInvertsEncodeExactly(rules, s);
  }

  /** Save encodes only records bound to its own associated data: their key reference is the signing key version. */
  predicate Savable(p: Patterns, a: AssociatedData, rules: Rules, s: Session) {
    && ValidData(p, a) && ValidOperation(s.operation) && ValidRecord(rules, s.record)
    && s.record.reference == a.signing && s.record.thumbprint == a.thumbprint
  }

  /** So through the store the long reference never arises: everything Save encodes is read back. */
  lemma SavedSessionsDecode(p: Patterns, a: AssociatedData, rules: Rules, s: Session)
    requires Savable(p, a, rules, s)
    ensures Encode(s).Some? && Decode(rules, Encode(s).value) == Some(s)
  {
    hide SessionLayout, SessionFields;
    DecodeInvertsEncodeExactly(rules, s);
  }

  // ----------------------------------------------------------- printing and reading

  method EncodeSession(s: Session) returns (raw: Option<Bytes>)
    requires Instant(s.record.issued) && Instant(s.record.expires)
    ensures raw == Encode(s)
  {
    hide Prefixed, BigEndian;
    if !ValidOperation(s.operation) {
      return None;
    }
    var r := s.record;
    ghost var r7 := BigEndian(Unsigned(r.expires), 8) + (Prefixed(r.reference, 2) + (r.thumbprint + []));
    ghost var r6 := BigEndian(Unsigned(r.issued), 8) + r7;
    ghost var r3 := Prefixed(r.participant, 2) + (BigEndian(r.epoch, 8) + (Prefixed(r.token, 2) + r6));
    var out := new Buffer();
    out.Write(SESSION_MAGIC);
    out.Write(s.operation);
    out.WritePrefixed(SPEC_VERSION, 2);
    Regroup([], SESSION_MAGIC, s.operation, Prefixed(SPEC_VERSION, 2), r3);
    assert out.data + r3 == SessionLayout(s);
    hide SessionLayout;
    ghost var head := out.data;
    out.WritePrefixed(r.participant, 2);
    out.WriteNumber(r.epoch, 8);
    out.WritePrefixed(r.token, 2);
    Regroup(head, Prefixed(r.participant, 2), BigEndian(r.epoch, 8), Prefixed(r.token, 2), r6);
    assert out.data + r6 == SessionLayout(s);
    head := out.data;
    out.WriteNumber(Unsigned(r.issued), 8);
    out.WriteNumber(Unsigned(r.expires), 8);
    out.WritePrefixed(r.reference, 2);
    Regroup(head, BigEndian(Unsigned(r.issued), 8), BigEndian(Unsigned(r.expires), 8), Prefixed(r.reference, 2),
            r.thumbprint + []);
    out.Write(r.thumbprint);
    assert r.thumbprint + [] == r.thumbprint;
    assert out.data == SessionLayout(s);
    if |out.data| > MAX_PLAINTEXT {
      return None;
    }
    return Some(out.data);
  }

  method DecodeSession(rules: Rules, raw: Bytes) returns (r: Option<Session>)
    ensures r == Decode(rules, raw)
  {
    hide Take, Field, ValidRecord, ValidOperation, FromBigEndian;
    if |raw| == 0 || |raw| > MAX_PLAINTEXT {
      return None;
    }
    var reader := new Reader(raw);
    var magic := reader.ReadFull(6);
    if magic != Some(SESSION_MAGIC) { return None; }
    var operation := reader.ReadFull(16);
    if operation.None? || !ValidOperation(operation.value) { return None; }
    var spec := reader.ReadField(2, 16);
    if spec.None? { return None; }
    var participant := reader.ReadField(2, 64);
    if participant.None? || spec.value != SPEC_VERSION { return None; }
    var epoch := reader.ReadFull(8);
    if epoch.None? { return None; }
    var token := reader.ReadField(2, 64);
    if token.None? { return None; }
    var issued := reader.ReadFull(8);
    if issued.None? { return None; }
    var expires := reader.ReadFull(8);
    if expires.None? { return None; }
    var reference := reader.ReadField(2, MAX_REFERENCE);
    if reference.None? { return None; }
    var thumbprint := reader.ReadFull(32);
    if thumbprint.None? || reader.Rest() != [] { return None; }
    var record := SessionRecord(
      participant.value, FromBigEndian(epoch.value), token.value, Signed(FromBigEndian(issued.value)),
      Signed(FromBigEndian(expires.value)), reference.value, thumbprint.value);
    if !ValidRecord(rules, record) { return None; }
    return Some(Session(operation.value, record));
  }
}
