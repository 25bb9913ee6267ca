/**
 internal/clientauth/gcpworkload/foundation.go: the associated data and the stored envelope.
 Strings are their bytes; the patterns of key versions, buckets and object paths are
 parameters beside their length limits.
 */
module WorkloadCodec {
  import opened Options
  import opened WireFormat

  const AAD_MAGIC: Bytes := [89, 71, 65, 65, 68, 49]
  const ENVELOPE_MAGIC: Bytes := [89, 71, 69, 78, 86, 49]
  const AAD_DOMAIN: Bytes := [121, 117, 107, 104, 45, 103, 99, 112, 45, 119, 111, 114, 107, 108, 111, 97, 100, 45, 99,
      117, 115, 116, 111, 100, 121, 45, 118, 49]
  const ALGORITHM: Bytes := [65, 69, 83, 95, 50, 53, 54, 95, 71, 67, 77]
  const MAX_AAD: nat := 4096
  const MAX_CIPHERTEXT: nat := 4112
  const MAX_ENVELOPE: nat := 12288
  const MAX_OBJECT: nat := 1024
  const MAX_REFERENCE: nat := 512
  const IV_BYTES: nat := 12
  const TAG_BYTES: nat := 16

  datatype Patterns = Patterns(keyVersion: Bytes -> bool, bucket: Bytes -> bool, path: Bytes -> bool)

  datatype AssociatedData = AssociatedData(profile: Bytes, bucket: Bytes, path: Bytes, encryption: Bytes,
      signing: Bytes, thumbprint: Bytes)

  predicate Digest32(b: Bytes) { |b| == 32 && exists i :: 0 <= i < 32 && b[i] != 0 }

  predicate ValidKeyVersion(p: Patterns, v: Bytes) { 0 < |v| <= MAX_REFERENCE && p.keyVersion(v) }

  predicate ValidData(p: Patterns, a: AssociatedData) {
    && Digest32(a.profile) && Digest32(a.thumbprint)
    && 0 < |a.bucket| <= 63 && p.bucket(a.bucket) && 0 < |a.path| <= MAX_OBJECT && p.path(a.path)
    && ValidKeyVersion(p, a.encryption) && ValidKeyVersion(p, a.signing) && a.encryption != a.signing
  }

  /** The bytes of associated data, before the length limit is applied. */
  function DataLayout(a: AssociatedData): Bytes {
    AAD_MAGIC + (Prefixed(AAD_DOMAIN, 2) + (a.profile + (Prefixed(a.bucket, 2) + (Prefixed(a.path, 2)
    + (Prefixed(a.encryption, 2) + (Prefixed(a.signing, 2) + (a.thumbprint + [])))))))
  }

  function DataCanonical(p: Patterns, a: AssociatedData): Option<Bytes> {
    if !ValidData(p, a) || |DataLayout(a)| > MAX_AAD then None else Some(DataLayout(a))
  }

  /** Reading the fields one after another, without checking what they hold. */
  function DataFields(raw: Bytes): Option<AssociatedData> {
    var magic :- Take(raw, 6);
    if magic.value != AAD_MAGIC then None
    else
      var domain :- Field(magic.rest, 2, 64);
      if domain.value != AAD_DOMAIN then None
      else
        var profile :- Take(domain.rest, 32);
        var bucket :- Field(profile.rest, 2, 63);
        var path :- Field(bucket.rest, 2, MAX_OBJECT);
        var encryption :- Field(path.rest, 2, MAX_REFERENCE);
        var signing :- Field(encryption.rest, 2, MAX_REFERENCE);
        var thumbprint :- Take(signing.rest, 32);
        if thumbprint.rest != [] then None
        else Some(AssociatedData(profile.value, bucket.value, path.value, encryption.value, signing.value,
            thumbprint.value))
  }

  function ParseData(p: Patterns, raw: Bytes): Option<AssociatedData> {
    if |raw| == 0 || |raw| > MAX_AAD then None
    else
      var a :- DataFields(raw);
      if !ValidData(p, a) then None
      else if DataCanonical(p, a) != Some(raw) then None
      else Some(a)
  }

  lemma Widths()
    ensures Pow256(2) == 65536 && Pow256(4) == 4294967296 && Pow256(8) == 18446744073709551616
  {
    assert Pow256(1) == 256 * Pow256(0);
    assert Pow256(2) == 256 * Pow256(1) && Pow256(3) == 256 * Pow256(2) && Pow256(4) == 256 * Pow256(3);
    assert Pow256(5) == 256 * Pow256(4) && Pow256(6) == 256 * Pow256(5) && Pow256(7) == 256 * Pow256(6)
        && Pow256(8) == 256 * Pow256(7);
  }

  ghost predicate Sized(a: AssociatedData) {
    && |a.profile| == 32 && |a.thumbprint| == 32 && 0 < |a.bucket| <= 63 && 0 < |a.path| <= MAX_OBJECT
    && 0 < |a.encryption| <= MAX_REFERENCE && 0 < |a.signing| <= MAX_REFERENCE
  }

  lemma FieldsOfLayout(a: AssociatedData)
    requires Sized(a)
    ensures DataFields(DataLayout(a)) == Some(a)
  {
    hide Take, Field, Prefixed, Pow256;
    Widths();
    var r7 := a.thumbprint + [];
    var r6 := Prefixed(a.signing, 2) + r7;
    var r5 := Prefixed(a.encryption, 2) + r6;
    var r4 := Prefixed(a.path, 2) + r5;
    var r3 := Prefixed(a.bucket, 2) + r4;
    var r2 := a.profile + r3;
    var r1 := Prefixed(AAD_DOMAIN, 2) + r2;
    TakeExactly(AAD_MAGIC + r1, 6, AAD_MAGIC, r1);
    FieldExactly(r1, 2, 64, AAD_DOMAIN, r2);
    TakeExactly(r2, 32, a.profile, r3);
    FieldExactly(r3, 2, 63, a.bucket, r4);
    FieldExactly(r4, 2, MAX_OBJECT, a.path, r5);
    FieldExactly(r5, 2, MAX_REFERENCE, a.encryption, r6);
    FieldExactly(r6, 2, MAX_REFERENCE, a.signing, r7);
    TakeExactly(r7, 32, a.thumbprint, []);
  }

  lemma LayoutOfFields(raw: Bytes)
    requires DataFields(raw).Some?
    ensures Sized(DataFields(raw).value) && DataLayout(DataFields(raw).value) == raw
  {
    hide Take, Field, Prefixed, Pow256;
    Widths();
    var magic := Take(raw, 6).value;
    TakeExactly(raw, 6, magic.value, magic.rest);
    var domain := Field(magic.rest, 2, 64).value;
    FieldExactly(magic.rest, 2, 64, domain.value, domain.rest);
    var profile := Take(domain.rest, 32).value;
    TakeExactly(domain.rest, 32, profile.value, profile.rest);
    var bucket := Field(profile.rest, 2, 63).value;
    FieldExactly(profile.rest, 2, 63, bucket.value, bucket.rest);
    var path := Field(bucket.rest, 2, MAX_OBJECT).value;
    FieldExactly(bucket.rest, 2, MAX_OBJECT, path.value, path.rest);
    var encryption := Field(path.rest, 2, MAX_REFERENCE).value;
    FieldExactly(path.rest, 2, MAX_REFERENCE, encryption.value, encryption.rest);
    var signing := Field(encryption.rest, 2, MAX_REFERENCE).value;
    FieldExactly(encryption.rest, 2, MAX_REFERENCE, signing.value, signing.rest);
    var thumbprint := Take(signing.rest, 32).value;
    TakeExactly(signing.rest, 32, thumbprint.value, thumbprint.rest);
  }

  lemma DataSize(a: AssociatedData)
    requires Sized(a)
    ensures |DataLayout(a)| <= 2219
  {
    hide Pow256, BigEndian;
  }

  /** Parsing accepts exactly the layouts of valid data: it inverts the printer, and no other bytes are read. */
  lemma ParseDataExactly(p: Patterns, raw: Bytes, a: AssociatedData)
    ensures ParseData(p, raw) == Some(a) <==> ValidData(p, a) && raw == DataLayout(a)
  {
    hide DataFields, DataLayout;
    if ValidData(p, a) && raw == DataLayout(a) {
      FieldsOfLayout(a);
      DataSize(a);
      NotEmpty(a);
    } else if DataFields(raw) == Some(a) {
      LayoutOfFields(raw);
    }
  }

  /** Associated data byte by byte: the magic, the domain, and the six fields in order. */
  lemma DataOnTheWire(p: Patterns, a: AssociatedData)
    requires ValidData(p, a)
    ensures DataLayout(a) ==
            [89, 71, 65, 65, 68, 49] + ([0, 28] + ([121, 117, 107, 104, 45, 103, 99, 112, 45, 119, 111, 114, 107, 108,
             111, 97, 100, 45, 99, 117, 115, 116, 111, 100, 121, 45, 118, 49]
            + (a.profile + (Size16(a.bucket) + (a.bucket + (Size16(a.path) + (a.path + (Size16(a.encryption)
            + (a.encryption + (Size16(a.signing) + (a.signing + a.thumbprint)))))))))))
  {
    SizeOf(AAD_DOMAIN, 28);
    hide Prefixed, Size16, Digest32;
    assert a.thumbprint + [] == a.thumbprint;
    PrefixedFront(a.signing, a.thumbprint);
    var t5 := Size16(a.signing) + (a.signing + a.thumbprint);
    PrefixedFront(a.encryption, t5);
    var t4 := Size16(a.encryption) + (a.encryption + t5);
    PrefixedFront(a.path, t4);
    var t3 := Size16(a.path) + (a.path + t4);
    PrefixedFront(a.bucket, t3);
    PrefixedFront(AAD_DOMAIN, a.profile + (Size16(a.bucket) + (a.bucket + t3)));
  }

  /** Which associated data some bytes parse to. */
  lemma ReadableData(p: Patterns, a: AssociatedData)
    ensures (exists raw :: ParseData(p, raw) == Some(a)) <==>
            && |a.profile| == 32 && (exists i :: 0 <= i < 32 && a.profile[i] != 0)
            && |a.thumbprint| == 32 && (exists i :: 0 <= i < 32 && a.thumbprint[i] != 0)
            && 1 <= |a.bucket| <= 63 && p.bucket(a.bucket) && 1 <= |a.path| <= 1024 && p.path(a.path)
            && 1 <= |a.encryption| <= 512 && p.keyVersion(a.encryption)
            && 1 <= |a.signing| <= 512 && p.keyVersion(a.signing) && a.encryption != a.signing
  {
    ParseDataExactly(p, DataLayout(a), a);
    if raw :| ParseData(p, raw) == Some(a) { ParseDataExactly(p, raw, a); }
    hide ParseData, DataLayout;
  }

  lemma NotEmpty(a: AssociatedData)
    ensures |DataLayout(a)| > 0
  {}

  /** Bytes whose fields parse are already canonical, so comparing with the re-encoding never refuses them,
      and the 4096-byte limit never refuses valid data. */
  lemma DataChecksNeverFire(p: Patterns, raw: Bytes, a: AssociatedData)
    ensures DataFields(raw) == Some(a) && ValidData(p, a) ==> DataCanonical(p, a) == Some(raw)
    ensures ValidData(p, a) ==> DataCanonical(p, a) == Some(DataLayout(a)) && ParseData(p, DataLayout(a)) == Some(a)
  {
    hide DataLayout, DataFields, ParseData;
    if DataFields(raw) == Some(a) {
      LayoutOfFields(raw);
      DataSize(a);
    }
    if ValidData(p, a) {
      DataSize(a);
      ParseDataExactly(p, DataLayout(a), a);
    }
  }

  // ------------------------------------------------------------------- envelopes

  datatype Envelope = Envelope(version: Bytes, iv: Bytes, tag: nat, ciphertext: Bytes, aad: Bytes)

  predicate ValidEnvelope(p: Patterns, e: Envelope) {
    && ParseData(p, e.aad).Some? && ValidKeyVersion(p, e.version) && ParseData(p, e.aad).value.encryption == e.version
    && |e.iv| == IV_BYTES && e.tag == TAG_BYTES && TAG_BYTES < |e.ciphertext| <= MAX_CIPHERTEXT
  }

  function EnvelopeLayout(e: Envelope): Bytes {
    ENVELOPE_MAGIC + (Prefixed(ALGORITHM, 2) + (Prefixed(e.version, 2) + (BigEndian(e.tag, 2)
    + (Prefixed(e.iv, 2) + (Prefixed(e.ciphertext, 4) + (Prefixed(e.aad, 4) + []))))))
  }

  function EnvelopeCanonical(p: Patterns, e: Envelope): Option<Bytes> {
    if !ValidEnvelope(p, e) || |EnvelopeLayout(e)| > MAX_ENVELOPE then None else Some(EnvelopeLayout(e))
  }

  function EnvelopeFields(raw: Bytes): Option<Envelope> {
    var magic :- Take(raw, 6);
    if magic.value != ENVELOPE_MAGIC then None
    else
      var algorithm :- Field(magic.rest, 2, 32);
      var version :- Field(algorithm.rest, 2, MAX_REFERENCE);
      if algorithm.value != ALGORITHM then None
      else
        var tag :- Take(version.rest, 2);
        var iv :- Field(tag.rest, 2, IV_BYTES);
        var ciphertext :- Field(iv.rest, 4, MAX_CIPHERTEXT);
        var aad :- Field(ciphertext.rest, 4, MAX_AAD);
        if aad.rest != [] then None
        else Some(Envelope(version.value, iv.value, FromBigEndian(tag.value), ciphertext.value, aad.value))
  }

  function ParseEnvelope(p: Patterns, raw: Bytes): Option<Envelope> {
    if |raw| == 0 || |raw| > MAX_ENVELOPE then None
    else
      var e :- EnvelopeFields(raw);
      if !ValidEnvelope(p, e) then None
      else if EnvelopeCanonical(p, e) != Some(raw) then None
      else Some(e)
  }

  ghost predicate SizedEnvelope(e: Envelope) {
    && 0 < |e.version| <= MAX_REFERENCE && e.tag < 65536 && 0 < |e.iv| <= IV_BYTES
    && 0 < |e.ciphertext| <= MAX_CIPHERTEXT && 0 < |e.aad| <= MAX_AAD
  }

  lemma ValidIsSized(p: Patterns, e: Envelope)
    requires ValidEnvelope(p, e)
    ensures SizedEnvelope(e)
  {
    hide DataFields, DataCanonical;
  }

  lemma FieldsOfEnvelope(e: Envelope)
    requires SizedEnvelope(e)
    ensures EnvelopeFields(EnvelopeLayout(e)) == Some(e)
  {
    hide Take, Field, Prefixed, Pow256, BigEndian, FromBigEndian;
    Widths();
    var r6 := Prefixed(e.aad, 4) + [];
    var r5 := Prefixed(e.ciphertext, 4) + r6;
    var r4 := Prefixed(e.iv, 2) + r5;
    var r3 := BigEndian(e.tag, 2) + r4;
    var r2 := Prefixed(e.version, 2) + r3;
    var r1 := Prefixed(ALGORITHM, 2) + r2;
    TakeExactly(ENVELOPE_MAGIC + r1, 6, ENVELOPE_MAGIC, r1);
    FieldExactly(r1, 2, 32, ALGORITHM, r2);
    FieldExactly(r2, 2, MAX_REFERENCE, e.version, r3);
    TakeExactly(r3, 2, BigEndian(e.tag, 2), r4);
    NumberRoundTrip(e.tag, 2);
    FieldExactly(r4, 2, IV_BYTES, e.iv, r5);
    FieldExactly(r5, 4, MAX_CIPHERTEXT, e.ciphertext, r6);
    FieldExactly(r6, 4, MAX_AAD, e.aad, []);
  }

  lemma EnvelopeOfFields(raw: Bytes)
    requires EnvelopeFields(raw).Some?
    ensures SizedEnvelope(EnvelopeFields(raw).value) && EnvelopeLayout(EnvelopeFields(raw).value) == raw
  {
    hide Take, Field, Prefixed, Pow256, BigEndian, FromBigEndian;
    Widths();
    var magic := Take(raw, 6).value;
    TakeExactly(raw, 6, magic.value, magic.rest);
    var algorithm := Field(magic.rest, 2, 32).value;
    FieldExactly(magic.rest, 2, 32, algorithm.value, algorithm.rest);
    var version := Field(algorithm.rest, 2, MAX_REFERENCE).value;
    FieldExactly(algorithm.rest, 2, MAX_REFERENCE, version.value, version.rest);
    var tag := Take(version.rest, 2).value;
    TakeExactly(version.rest, 2, tag.value, tag.rest);
    BytesRoundTrip(tag.value);
    var iv := Field(tag.rest, 2, IV_BYTES).value;
    FieldExactly(tag.rest, 2, IV_BYTES, iv.value, iv.rest);
    var ciphertext := Field(iv.rest, 4, MAX_CIPHERTEXT).value;
    FieldExactly(iv.rest, 4, MAX_CIPHERTEXT, ciphertext.value, ciphertext.rest);
    var aad := Field(ciphertext.rest, 4, MAX_AAD).value;
    FieldExactly(ciphertext.rest, 4, MAX_AAD, aad.value, aad.rest);
  }

  lemma EnvelopeSize(e: Envelope)
    requires SizedEnvelope(e)
    ensures 0 < |EnvelopeLayout(e)| <= 8765
  {
    hide Pow256, BigEndian;
  }

  /** Parsing accepts exactly the layouts of valid envelopes. */
  lemma ParseEnvelopeExactly(p: Patterns, raw: Bytes, e: Envelope)
    ensures ParseEnvelope(p, raw) == Some(e) <==> ValidEnvelope(p, e) && raw == EnvelopeLayout(e)
  {
    hide EnvelopeFields, EnvelopeLayout, ValidEnvelope;
    if ValidEnvelope(p, e) && raw == EnvelopeLayout(e) {
      ValidIsSized(p, e);
      FieldsOfEnvelope(e);
      EnvelopeSize(e);
    } else if EnvelopeFields(raw) == Some(e) {
      EnvelopeOfFields(raw);
    }
  }

  /** An envelope byte by byte: the magic, the algorithm, and the five fields in order. */
  lemma EnvelopeOnTheWire(p: Patterns, e: Envelope)
    requires ValidEnvelope(p, e)
    ensures |e.aad| < 0x1_0000
    ensures EnvelopeLayout(e) ==
            [89, 71, 69, 78, 86, 49] + ([0, 11] + ([65, 69, 83, 95, 50, 53, 54, 95, 71, 67, 77]
            + (Size16(e.version) + (e.version + ([0, 16] + ([0, 12] + (e.iv + ([0, 0] + (Size16(e.ciphertext)
            + (e.ciphertext + ([0, 0] + (Size16(e.aad) + e.aad))))))))))))
  {
    ParseDataExactly(p, e.aad, ParseData(p, e.aad).value);
    DataSize(ParseData(p, e.aad).value);
    SizeOf(ALGORITHM, 11);
    SizeOf(e.iv, 12);
    NumberOf16(e.tag);
    hide ParseData, DataLayout, Prefixed, Size16, BigEndian;
    PrefixedFront(e.aad, []);
    assert e.aad + [] == e.aad;
    var t5 := [0, 0] + (Size16(e.aad) + e.aad);
    PrefixedFront(e.ciphertext, t5);
    var t4 := [0, 0] + (Size16(e.ciphertext) + (e.ciphertext + t5));
    PrefixedFront(e.iv, t4);
    var t3 := [0, 16] + ([0, 12] + (e.iv + t4));
    PrefixedFront(e.version, t3);
    PrefixedFront(ALGORITHM, Size16(e.version) + (e.version + t3));
  }

  /** Which envelopes some bytes parse to. */
  lemma ReadableEnvelope(p: Patterns, e: Envelope)
    ensures (exists raw :: ParseEnvelope(p, raw) == Some(e)) <==>
            && |e.iv| == 12 && e.tag == 16 && 17 <= |e.ciphertext| <= 4112
            && (exists a :: ParseData(p, e.aad) == Some(a) && a.encryption == e.version)
  {
    ParseEnvelopeExactly(p, EnvelopeLayout(e), e);
    if raw :| ParseEnvelope(p, raw) == Some(e) { ParseEnvelopeExactly(p, raw, e); }
    if a :| ParseData(p, e.aad) == Some(a) { ParseDataExactly(p, e.aad, a); }
    hide ParseData, DataLayout, ParseEnvelope, EnvelopeLayout;
  }

  /** Neither the re-encoding comparison nor the 12288-byte limit ever refuses a valid envelope. */
  lemma EnvelopeChecksNeverFire(p: Patterns, raw: Bytes, e: Envelope)
    ensures EnvelopeFields(raw) == Some(e) && ValidEnvelope(p, e) ==> EnvelopeCanonical(p, e) == Some(raw)
    ensures ValidEnvelope(p, e) ==>
              EnvelopeCanonical(p, e) == Some(EnvelopeLayout(e)) && ParseEnvelope(p, EnvelopeLayout(e)) == Some(e)
  {
    hide EnvelopeLayout, EnvelopeFields, ParseEnvelope, ValidEnvelope;
    if EnvelopeFields(raw) == Some(e) {
      EnvelopeOfFields(raw);
      EnvelopeSize(e);
    }
    if ValidEnvelope(p, e) {
      ValidIsSized(p, e);
      EnvelopeSize(e);
      ParseEnvelopeExactly(p, EnvelopeLayout(e), e);
    }
  }

  // ------------------------------------------------------- printers and parsers

  method PrintData(p: Patterns, a: AssociatedData) returns (raw: Option<Bytes>)
    ensures raw == DataCanonical(p, a)
  {
    hide Prefixed, ValidData;
    if !ValidData(p, a) {
      return None;
    }
    ghost var t5 := Prefixed(a.encryption, 2) + (Prefixed(a.signing, 2) + (a.thumbprint + []));
    ghost var t3 := Prefixed(a.bucket, 2) + (Prefixed(a.path, 2) + t5);
    var out := new Buffer();
    out.Write(AAD_MAGIC);
    out.WritePrefixed(AAD_DOMAIN, 2);
    out.Write(a.profile);
    assert out.data + t3 == DataLayout(a);
    out.WritePrefixed(a.bucket, 2);
    out.WritePrefixed(a.path, 2);
    assert out.data + t5 == DataLayout(a);
    out.WritePrefixed(a.encryption, 2);
    out.WritePrefixed(a.signing, 2);
    out.Write(a.thumbprint);
    assert out.data == DataLayout(a);
    if |out.data| > MAX_AAD {
      return None;
    }
    return Some(out.data);
  }

  method ReadData(p: Patterns, raw: Bytes) returns (r: Option<AssociatedData>)
    ensures r == ParseData(p, raw)
  {
    hide Take, Field, ValidData, DataLayout;
    if |raw| == 0 || |raw| > MAX_AAD {
      return None;
    }
    var reader := new Reader(raw);
    var magic := reader.ReadFull(6);
    if magic != Some(AAD_MAGIC) { return None; }
    var domain := reader.ReadField(2, 64);
    if domain != Some(AAD_DOMAIN) { return None; }
    var profile := reader.ReadFull(32);
    if profile.None? { return None; }
    var bucket := reader.ReadField(2, 63);
    if bucket.None? { return None; }
    var path := reader.ReadField(2, MAX_OBJECT);
    if path.None? { return None; }
    var encryption := reader.ReadField(2, MAX_REFERENCE);
    if encryption.None? { return None; }
    var signing := reader.ReadField(2, MAX_REFERENCE);
    if signing.None? { return None; }
    var thumbprint := reader.ReadFull(32);
    if thumbprint.None? || reader.Rest() != [] { return None; }
    var a := AssociatedData(profile.value, bucket.value, path.value, encryption.value, signing.value, thumbprint.value);
    if !ValidData(p, a) { return None; }
    var canonical := PrintData(p, a);
    if canonical != Some(raw) { return None; }
    return Some(a);
  }

  method PrintEnvelope(p: Patterns, e: Envelope) returns (raw: Option<Bytes>)
    ensures raw == EnvelopeCanonical(p, e)
  {
    hide Prefixed, BigEndian, ParseData;
    var parsed := ReadData(p, e.aad);
    if parsed.None? || !ValidKeyVersion(p, e.version) || parsed.value.encryption != e.version
       || |e.iv| != IV_BYTES || e.tag != TAG_BYTES || |e.ciphertext| <= TAG_BYTES || |e.ciphertext| > MAX_CIPHERTEXT {
      return None;
    }
    var out := new Buffer();
    out.Write(ENVELOPE_MAGIC);
    out.WritePrefixed(ALGORITHM, 2);
    out.WritePrefixed(e.version, 2);
    out.WriteNumber(e.tag, 2);
    out.WritePrefixed(e.iv, 2);
    out.WritePrefixed(e.ciphertext, 4);
    out.WritePrefixed(e.aad, 4);
    assert out.data == EnvelopeLayout(e);
    if |out.data| > MAX_ENVELOPE {
      return None;
    }
    return Some(out.data);
  }

  method ReadEnvelope(p: Patterns, raw: Bytes) returns (r: Option<Envelope>)
    ensures r == ParseEnvelope(p, raw)
  {
    hide Take, Field, ValidEnvelope, EnvelopeLayout, FromBigEndian;
    if |raw| == 0 || |raw| > MAX_ENVELOPE {
      return None;
    }
    var reader := new Reader(raw);
    var magic := reader.ReadFull(6);
    if magic != Some(ENVELOPE_MAGIC) { return None; }
    var algorithm := reader.ReadField(2, 32);
    if algorithm.None? { return None; }
    var version := reader.ReadField(2, MAX_REFERENCE);
    if version.None? || algorithm.value != ALGORITHM { return None; }
    var tag := reader.ReadFull(2);
    if tag.None? { return None; }
    var iv := reader.ReadField(2, IV_BYTES);
    if iv.None? { return None; }
    var ciphertext := reader.ReadField(4, MAX_CIPHERTEXT);
    if ciphertext.None? { return None; }
    var aad := reader.ReadField(4, MAX_AAD);
    if aad.None? || reader.Rest() != [] { return None; }
    var e := Envelope(version.value, iv.value, FromBigEndian(tag.value), ciphertext.value, aad.value);
    if !ValidEnvelope(p, e) { return None; }
    var canonical := PrintEnvelope(p, e);
    if canonical != Some(raw) { return None; }
    return Some(e);
  }
}
