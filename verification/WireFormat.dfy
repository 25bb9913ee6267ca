/**
 The length-prefixed fields of internal/clientauth/gcpworkload/foundation.go: what is
 written is what is read, and nothing else is read.
 */
module WireFormat {
  import opened Options

  type byte = x: int | 0 <= x < 256

  type Bytes = seq<byte>

  function Pow256(k: nat): nat { if k == 0 then 1 else 256 * Pow256(k - 1) }

  function BigEndian(n: nat, width: nat): (b: Bytes)
    ensures |b| == width
  {
    if width == 0 then [] else BigEndian(n / 256, width - 1) + [n % 256]
  }

  function FromBigEndian(b: Bytes): nat {
    if b == [] then 0 else FromBigEndian(b[..|b| - 1]) * 256 + b[|b| - 1]
  }

  lemma {:induction false} NumberRoundTrip(n: nat, width: nat)
    requires n < Pow256(width)
    ensures FromBigEndian(BigEndian(n, width)) == n
    decreases width
  {
    if width > 0 {
      NumberRoundTrip(n / 256, width - 1);
      var b := BigEndian(n, width);
      assert b[..width - 1] == BigEndian(n / 256, width - 1);
    }
  }

  lemma {:induction false} BytesRoundTrip(b: Bytes)
    ensures FromBigEndian(b) < Pow256(|b|) && BigEndian(FromBigEndian(b), |b|) == b
    decreases |b|
  {
    if b != [] {
      var before, last := b[..|b| - 1], b[|b| - 1];
      BytesRoundTrip(before);
      assert FromBigEndian(b) / 256 == FromBigEndian(before) && FromBigEndian(b) % 256 == last;
      assert b == before + [last];
    }
  }

  /** A value read and what is left to read. */
  datatype Piece = Piece(value: Bytes, rest: Bytes)

  function Take(raw: Bytes, n: nat): Option<Piece> {
    if |raw| < n then None else Some(Piece(raw[..n], raw[n..]))
  }

  /** A value behind its length, which is truncated to the width as the writer does. */
  function Prefixed(v: Bytes, width: nat): Bytes {
    BigEndian(Truncated(|v|, width), width) + v
  }

  /** A number as an unsigned integer of that many bytes. */
  function Truncated(n: nat, width: nat): nat {
    if n < Pow256(width) then n else n % Positive(width)
  }

  function Positive(width: nat): (p: nat)
    ensures p > 0 && p == Pow256(width)
  {
    PowPositive(width);
    Pow256(width)
  }

  /** The two bytes in front of a value of fewer than 65536 bytes. */
  function Size16(v: Bytes): Bytes
    requires |v| < 0x1_0000
  {
    [|v| / 256, |v| % 256]
  }

  lemma SizeOf(v: Bytes, n: byte)
    requires |v| == n
    ensures Size16(v) == [0, n]
  {}

  lemma PrefixedSize(v: Bytes)
    requires |v| < 0x1_0000
    ensures Prefixed(v, 2) == Size16(v) + v && Prefixed(v, 4) == [0, 0] + Size16(v) + v
  {
    assert Pow256(2) == 0x1_0000 && Pow256(4) == 0x1_0000_0000;
    NumberOf16(|v|);
  }

  /** A prefixed value in front of the rest. */
  lemma PrefixedFront(v: Bytes, rest: Bytes)
    requires |v| < 0x1_0000
    ensures Prefixed(v, 2) + rest == Size16(v) + (v + rest)
    ensures Prefixed(v, 4) + rest == [0, 0] + (Size16(v) + (v + rest))
  {
    PrefixedSize(v);
    hide Prefixed, Size16;
    assert (Size16(v) + v) + rest == Size16(v) + (v + rest);
    assert ([0, 0] + Size16(v) + v) + rest == [0, 0] + (Size16(v) + (v + rest));
  }

  lemma NumberOf16(n: nat)
    requires n < 0x1_0000
    ensures BigEndian(n, 2) == [n / 256, n % 256] && BigEndian(n, 4) == [0, 0, n / 256, n % 256]
  {
    var high := n / 256;
    assert BigEndian(high, 1) == [high] && high / 256 == 0;
    assert BigEndian(0, 2) == [0, 0] && BigEndian(high, 3) == BigEndian(0, 2) + [high];
  }

  lemma {:induction false} PowPositive(k: nat)
    ensures Pow256(k) > 0
  {
    if k > 0 { PowPositive(k - 1); }
  }

  /** Read a length and then that many bytes; an empty, oversized or cut off value is refused. */
  function Field(raw: Bytes, width: nat, max: nat): Option<Piece> {
    var head :- Take(raw, width);
    var size := FromBigEndian(head.value);
    if size == 0 || size > max || size > |head.rest| then None else Take(head.rest, size)
  }

  lemma TakeExactly(raw: Bytes, n: nat, v: Bytes, tail: Bytes)
    ensures Take(raw, n) == Some(Piece(v, tail)) <==> |v| == n && raw == v + tail
  {
    if |v| == n && raw == v + tail {
      assert raw[..n] == v && raw[n..] == tail;
    }
    if n <= |raw| { assert raw == raw[..n] + raw[n..]; }
  }

  lemma FieldOfWritten(width: nat, max: nat, v: Bytes, tail: Bytes)
    requires max < Pow256(width) && 0 < |v| <= max
    ensures Field(Prefixed(v, width) + tail, width, max) == Some(Piece(v, tail))
  {
    var head := BigEndian(|v|, width);
    assert Prefixed(v, width) == head + v;
    hide Prefixed, BigEndian, Pow256, FromBigEndian;
    assert (head + v) + tail == head + (v + tail);
    TakeExactly(head + (v + tail), width, head, v + tail);
    NumberRoundTrip(|v|, width);
    TakeExactly(v + tail, |v|, v, tail);
  }

  lemma FieldIsWritten(raw: Bytes, width: nat, max: nat)
    requires max < Pow256(width) && Field(raw, width, max).Some?
    ensures var piece := Field(raw, width, max).value;
            0 < |piece.value| <= max && raw == Prefixed(piece.value, width) + piece.rest
  {
    var piece, head := Field(raw, width, max).value, Take(raw, width).value;
    TakeExactly(raw, width, head.value, head.rest);
    TakeExactly(head.rest, |piece.value|, piece.value, piece.rest);
    BytesRoundTrip(head.value);
    assert Prefixed(piece.value, width) == head.value + piece.value;
    hide Prefixed, BigEndian, Pow256, FromBigEndian;
    assert (head.value + piece.value) + piece.rest == head.value + (piece.value + piece.rest);
  }

  /** A field reads as `v` exactly when it was written from `v`, and `v` is neither empty nor too long. */
  lemma FieldExactly(raw: Bytes, width: nat, max: nat, v: Bytes, tail: Bytes)
    requires max < Pow256(width)
    ensures Field(raw, width, max) == Some(Piece(v, tail)) <==> 0 < |v| <= max && raw == Prefixed(v, width) + tail
  {
    hide Field, Prefixed, Pow256;
    if 0 < |v| <= max { FieldOfWritten(width, max, v, tail); }
    if Field(raw, width, max).Some? { FieldIsWritten(raw, width, max); }
  }

  lemma Regroup(d: Bytes, x: Bytes, y: Bytes, z: Bytes, tail: Bytes)
    ensures d + (x + (y + (z + tail))) == d + x + y + z + tail
  {}

  // ------------------------------------------------------- buffers and readers

  class Buffer {
    var data: Bytes

    constructor ()
      ensures data == []
    {
      data := [];
    }

    method Write(v: Bytes)
      modifies this
      ensures data == old(data) + v
    {
      data := data + v;
    }

    method WriteNumber(n: nat, width: nat)
      modifies this
      ensures data == old(data) + BigEndian(n, width)
    {
      data := data + BigEndian(n, width);
    }

    method WritePrefixed(v: Bytes, width: nat)
      modifies this
      ensures data == old(data) + Prefixed(v, width)
    {
      WriteNumber(Truncated(|v|, width), width);
      Write(v);
      assert data == old(data) + Prefixed(v, width);
    }
  }

  class Reader {
    const raw: Bytes
    var pos: nat

    ghost predicate Valid()
      reads this
    {
      pos <= |raw|
    }

    function Rest(): Bytes
      requires Valid()
      reads this
    {
      raw[pos..]
    }

    constructor (raw: Bytes)
      ensures Valid() && Rest() == raw
    {
      this.raw := raw;
      pos := 0;
    }

    /** The read `r` succeeded with `v` and moved the cursor, or failed. */
    ghost predicate Reads(r: Option<Piece>, v: Option<Bytes>)
      requires Valid()
      reads this
    {
      match r
      case None => v.None?
      case Some(piece) => v == Some(piece.value) && Rest() == piece.rest
    }

    method ReadFull(n: nat) returns (v: Option<Bytes>)
      requires Valid()
      modifies this
      ensures Valid() && Reads(Take(old(Rest()), n), v)
    {
      if |raw| - pos < n {
        return None;
      }
      v := Some(raw[pos..pos + n]);
      assert raw[pos..][..n] == raw[pos..pos + n];
      pos := pos + n;
    }

    method ReadField(width: nat, max: nat) returns (v: Option<Bytes>)
      requires Valid()
      modifies this
      ensures Valid() && Reads(Field(old(Rest()), width, max), v)
    {
      var head := ReadFull(width);
      if head.None? {
        return None;
      }
      var size := FromBigEndian(head.value);
      if size == 0 || size > max || size > |raw| - pos {
        return None;
      }
      v := ReadFull(size);
    }
  }
}
