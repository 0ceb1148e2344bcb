/** Little-endian numbers and length-prefixed byte strings, read and written at a moving
    offset (encoding/binary as waddrmgr/db.go uses it). */
module Bytes {
  import opened Optional

  type Byte = x: int | 0 <= x < 256

  const TWO_TO_THE_32: nat := 0x1_0000_0000
  const TWO_TO_THE_64: nat := 0x1_0000_0000_0000_0000

  /** The n-byte little-endian form of a number, low byte first. */
  function Little(v: nat, n: nat): (r: seq<Byte>)
    ensures |r| == n
  {
    if n == 0 then [] else [v % 256] + Little(v / 256, n - 1)
  }

  function Value(bytes: seq<Byte>): nat {
    if bytes == [] then 0 else bytes[0] + 256 * Value(bytes[1..])
  }

  function Power256(n: nat): (r: nat)
    ensures r >= 1
  {
    if n == 0 then 1 else 256 * Power256(n - 1)
  }

  lemma {:induction false} LittleRoundTrip(v: nat, n: nat)
    requires v < Power256(n)
    ensures Value(Little(v, n)) == v
  {
    if n > 0 {
      LittleRoundTrip(v / 256, n - 1);
    }
  }

  lemma {:induction false} ValueRoundTrip(bytes: seq<Byte>)
    ensures Value(bytes) < Power256(|bytes|)
    ensures Little(Value(bytes), |bytes|) == bytes
  {
    if bytes != [] {
      ValueRoundTrip(bytes[1..]);
      assert Value(bytes) / 256 == Value(bytes[1..]) && Value(bytes) % 256 == bytes[0];
    }
  }

  lemma Powers()
    ensures Power256(1) == 256 && Power256(4) == TWO_TO_THE_32 && Power256(8) == TWO_TO_THE_64
  {
    assert Power256(2) == 65536 && Power256(3) == 16777216;
    assert Power256(5) == 1099511627776 && Power256(6) == 281474976710656;
    assert Power256(7) == 72057594037927936;
  }

  /** A number and then the rest. */
  function Num(v: nat, n: nat, tail: seq<Byte>): seq<Byte> {
    Little(v, n) + tail
  }

  /** A byte string with its 32-bit length before it, and then the rest. */
  function Blob(bytes: seq<Byte>, tail: seq<Byte>): seq<Byte> {
    Num(|bytes|, 4, bytes + tail)
  }

  /** Reading a number off the front: its value, and what follows. */
  function ReadNum(raw: seq<Byte>, n: nat): Option<(nat, seq<Byte>)> {
    if |raw| < n then None else Some((Value(raw[..n]), raw[n..]))
  }

  function ReadBlob(raw: seq<Byte>): Option<(seq<Byte>, seq<Byte>)> {
    if |raw| < 4 || |raw| < 4 + Value(raw[..4]) then None
    else Some((raw[4..4 + Value(raw[..4])], raw[4 + Value(raw[..4])..]))
  }

  /** Reading succeeds with a value and a rest exactly on what writing them makes. */
  lemma {:induction false} NumExactly(raw: seq<Byte>, n: nat, v: nat, tail: seq<Byte>)
    ensures ReadNum(raw, n) == Some((v, tail)) <==> v < Power256(n) && raw == Num(v, n, tail)
  {
    if v < Power256(n) && raw == Num(v, n, tail) {
      LittleRoundTrip(v, n);
      assert raw[..n] == Little(v, n) && raw[n..] == tail;
    }
    if |raw| >= n {
      ValueRoundTrip(raw[..n]);
      assert raw == raw[..n] + raw[n..];
    }
  }

  lemma BlobReadBack(bytes: seq<Byte>, tail: seq<Byte>)
    requires |bytes| < TWO_TO_THE_32
    ensures ReadBlob(Blob(bytes, tail)) == Some((bytes, tail))
  {
    var raw := Blob(bytes, tail);
    Powers();
    NumExactly(raw, 4, |bytes|, bytes + tail);
    assert raw[4..4 + |bytes|] == raw[4..][..|bytes|] && raw[4 + |bytes|..] == raw[4..][|bytes|..];
  }

  lemma BlobExactly(raw: seq<Byte>, bytes: seq<Byte>, tail: seq<Byte>)
    ensures ReadBlob(raw) == Some((bytes, tail)) <==> |bytes| < TWO_TO_THE_32 && raw == Blob(bytes, tail)
  {
    if |bytes| < TWO_TO_THE_32 {
      BlobReadBack(bytes, tail);
    }
    if ReadBlob(raw) == Some((bytes, tail)) {
      var len := Value(raw[..4]);
      Powers();
      ValueRoundTrip(raw[..4]);
      assert |raw[..4]| == 4 && |bytes| == len;
      assert raw == raw[..4] + (raw[4..4 + len] + raw[4 + len..]);
    }
  }

  /** Copies bytes to an offset. */
  method PutBytes(buf: array<Byte>, offset: nat, bytes: seq<Byte>)
    requires offset + |bytes| <= buf.Length
    modifies buf
    ensures buf[..offset + |bytes|] == old(buf[..offset]) + bytes
  {
    for i := 0 to |bytes|
      invariant buf[..offset + i] == old(buf[..offset]) + bytes[..i]
    {
      buf[offset + i] := bytes[i];
    }
  }

  /** Writes a number and moves on. Whatever is still to come, what has been written and
      what is still to come now makes what it made with the number in between. */
  method PutNum(buf: array<Byte>, offset: nat, v: nat, n: nat, ghost tail: seq<Byte>) returns (next: nat)
    requires offset + n <= buf.Length
    modifies buf
    ensures next == offset + n
    ensures buf[..next] + tail == old(buf[..offset]) + Num(v, n, tail)
  {
    PutBytes(buf, offset, Little(v, n));
    next := offset + n;
    assert old(buf[..offset]) + Little(v, n) + tail == old(buf[..offset]) + Num(v, n, tail);
  }

  method PutByte(buf: array<Byte>, offset: nat, b: Byte, ghost tail: seq<Byte>) returns (next: nat)
    requires offset < buf.Length
    modifies buf
    ensures next == offset + 1
    ensures buf[..next] + tail == old(buf[..offset]) + ([b] + tail)
  {
    buf[offset] := b;
    next := offset + 1;
    assert buf[..next] == old(buf[..offset]) + [b];
  }

  /** Writes a byte string with its length before it, and moves on. */
  method PutBlob(buf: array<Byte>, offset: nat, bytes: seq<Byte>, ghost tail: seq<Byte>) returns (next: nat)
    requires offset + 4 + |bytes| <= buf.Length
    modifies buf
    ensures next == offset + 4 + |bytes|
    ensures buf[..next] + tail == old(buf[..offset]) + Blob(bytes, tail)
  {
    var start := PutNum(buf, offset, |bytes|, 4, bytes + tail);
    ghost var done := buf[..start];
    PutBytes(buf, start, bytes);
    next := start + |bytes|;
    assert done + bytes + tail == done + (bytes + tail);
  }

  /** Reads a number at an offset. */
  method NumAt(raw: seq<Byte>, offset: nat, n: nat) returns (v: Option<nat>, next: nat)
    requires offset <= |raw|
    ensures next <= |raw| && (v.Some? ==> next == offset + n)
    ensures ReadNum(raw[offset..], n) == if v.Some? then Some((v.value, raw[next..])) else None
  {
    if |raw| - offset < n {
      return None, offset;
    }
    v, next := Some(Value(raw[offset..offset + n])), offset + n;
    assert raw[offset..][..n] == raw[offset..offset + n] && raw[offset..][n..] == raw[next..];
  }

  /** Reads a length-prefixed byte string at an offset. */
  method BlobAt(raw: seq<Byte>, offset: nat) returns (bytes: Option<seq<Byte>>, next: nat)
    requires offset <= |raw|
    ensures next <= |raw|
    ensures ReadBlob(raw[offset..]) == if bytes.Some? then Some((bytes.value, raw[next..])) else None
  {
    var length, start := NumAt(raw, offset, 4);
    if length.None? || |raw| - start < length.value {
      return None, offset;
    }
    next := start + length.value;
    bytes := Some(raw[start..next]);
    assert raw[offset..][4..4 + length.value] == raw[start..next] && raw[offset..][4 + length.value..] == raw[next..];
  }
}
