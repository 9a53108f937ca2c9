/** Document ids over length-prefixed parts (crates/tinyagents-harness/src/driver_ids.rs). */
module HashedId {
  import opened Text

  type byte = b: int | 0 <= b < 256

  function Pow256(k: nat): nat {
    if k == 0 then 1 else 256 * Pow256(k - 1)
  }

  /** `n` in `k` bytes, most significant first, as `to_be_bytes`. */
  function BigEndian(n: nat, k: nat): (bytes: seq<byte>)
    ensures |bytes| == k
  {
    if k == 0 then [] else BigEndian(n / 256, k - 1) + [n % 256]
  }

  function Value(bytes: seq<byte>): nat {
    if bytes == [] then 0 else 256 * Value(bytes[..|bytes| - 1]) + bytes[|bytes| - 1]
  }

  lemma {:induction false} ValueOfBigEndian(n: nat, k: nat)
    requires n < Pow256(k)
    ensures Value(BigEndian(n, k)) == n
  {
    if k == 0 {
    } else {
      ValueOfBigEndian(n / 256, k - 1);
      var front := BigEndian(n / 256, k - 1);
      assert (front + [n % 256])[..k - 1] == front;
    }
  }

  lemma {:induction false} BigEndianOfValue(bytes: seq<byte>)
    ensures BigEndian(Value(bytes), |bytes|) == bytes && Value(bytes) < Pow256(|bytes|)
  {
    if bytes == [] {
    } else {
      var front, last := bytes[..|bytes| - 1], bytes[|bytes| - 1];
      BigEndianOfValue(front);
      assert (256 * Value(front) + last) / 256 == Value(front);
      assert (256 * Value(front) + last) % 256 == last;
    }
  }

  /** A part as it is hashed: its length in `width` bytes, then its bytes. */
  function Framed(part: seq<byte>, width: nat): seq<byte> {
    BigEndian(|part|, width) + part
  }

  /** The bytes hashed for a list of parts. The source uses eight-byte lengths. */
  function Encode(parts: seq<seq<byte>>, width: nat): seq<byte> {
    if parts == [] then [] else Framed(parts[0], width) + Encode(parts[1..], width)
  }

  /** Reads a list of parts back from hashed bytes. */
  function Decode(bytes: seq<byte>, width: nat): Option<seq<seq<byte>>>
    requires 0 < width
    decreases |bytes|
  {
    if bytes == [] then Some([])
    else if |bytes| < width then None
    else
      var n := Value(bytes[..width]);
      if |bytes| < width + n then None
      else match Decode(bytes[width + n..], width)
        case None => None
        case Some(rest) => Some([bytes[width..width + n]] + rest)
  }

  /** Lengths fit the prefix, as every Rust string length does. */
  predicate Sized(parts: seq<seq<byte>>, width: nat) {
    forall i :: 0 <= i < |parts| ==> |parts[i]| < Pow256(width)
  }

  /** The decoder undoes the encoding. */
  lemma {:induction false} DecodeEncode(parts: seq<seq<byte>>, width: nat)
    requires 0 < width && Sized(parts, width)
    ensures Decode(Encode(parts, width), width) == Some(parts)
    decreases |parts|
  {
    if parts == [] {
    } else {
      DecodeEncode(parts[1..], width);
      DecodeFramed(Encode(parts, width), parts[0], Encode(parts[1..], width), parts[1..], width);
      FirstAndRest(parts);
    }
  }

  lemma FirstAndRest(parts: seq<seq<byte>>)
    requires parts != []
    ensures parts == [parts[0]] + parts[1..]
  {
  }

  lemma DecodeFramed(bytes: seq<byte>, part: seq<byte>, rest: seq<byte>, decoded: seq<seq<byte>>, width: nat)
    requires 0 < width && |part| < Pow256(width)
    requires bytes == Framed(part, width) + rest && Decode(rest, width) == Some(decoded)
    ensures Decode(bytes, width) == Some([part] + decoded)
  {
    var prefix := BigEndian(|part|, width);
    ValueOfBigEndian(|part|, width);
    assert bytes[..width] == prefix;
    assert bytes[width..width + |part|] == part && bytes[width + |part|..] == rest;
  }

  /** And everything it reads was encoded that way: the format has no second spelling. */
  lemma {:induction false} EncodeDecode(bytes: seq<byte>, width: nat)
    requires 0 < width && Decode(bytes, width).Some?
    ensures Encode(Decode(bytes, width).value, width) == bytes && Sized(Decode(bytes, width).value, width)
    decreases |bytes|
  {
    if bytes == [] {
    } else {
      var n := Value(bytes[..width]);
      var rest := bytes[width + n..];
      EncodeDecode(rest, width);
      EncodeFramed(bytes, n, Decode(rest, width).value, width);
    }
  }

  lemma EncodeFramed(bytes: seq<byte>, n: nat, decoded: seq<seq<byte>>, width: nat)
    requires width + n <= |bytes| && n == Value(bytes[..width])
    requires Encode(decoded, width) == bytes[width + n..] && Sized(decoded, width)
    ensures var parts := [bytes[width..width + n]] + decoded;
      Encode(parts, width) == bytes && Sized(parts, width)
  {
    var part := bytes[width..width + n];
    BigEndianOfValue(bytes[..width]);
    assert ([part] + decoded)[1..] == decoded;
    FrameSplit(bytes, width, n);
  }

  lemma FrameSplit(bytes: seq<byte>, width: nat, n: nat)
    requires width + n <= |bytes|
    ensures bytes == (bytes[..width] + bytes[width..width + n]) + bytes[width + n..]
  {
  }

  lemma EncodeInjective(a: seq<seq<byte>>, b: seq<seq<byte>>, width: nat)
    requires 0 < width && Sized(a, width) && Sized(b, width)
    ensures Encode(a, width) == Encode(b, width) <==> a == b
  {
    DecodeEncode(a, width);
    DecodeEncode(b, width);
  }

  function HexDigit(d: int): char
    requires 0 <= d < 16
  {
    if d < 10 then ('0' as int + d) as char else ('a' as int + d - 10) as char
  }

  function Hex(bytes: seq<byte>): string {
    if bytes == [] then "" else HexByte(bytes[0]) + Hex(bytes[1..])
  }

  function HexByte(b: byte): string {
    [HexDigit(b / 16), HexDigit(b % 16)]
  }

  lemma HexByteInjective(a: byte, b: byte)
    requires HexByte(a) == HexByte(b)
    ensures a == b
  {
    assert HexByte(a)[0] == HexByte(b)[0] && HexByte(a)[1] == HexByte(b)[1];
  }

  lemma {:induction false} HexInjective(a: seq<byte>, b: seq<byte>)
    requires Hex(a) == Hex(b)
    ensures a == b
  {
    if a == [] || b == [] {
    } else {
      assert Hex(a)[..2] == HexByte(a[0]) && Hex(b)[..2] == HexByte(b[0]);
      HexByteInjective(a[0], b[0]);
      assert Hex(a)[2..] == Hex(a[1..]) && Hex(b)[2..] == Hex(b[1..]);
      HexInjective(a[1..], b[1..]);
      assert a == [a[0]] + a[1..] && b == [b[0]] + b[1..];
    }
  }

  lemma {:induction false} EncodePush(parts: seq<seq<byte>>, part: seq<byte>, width: nat)
    ensures Encode(parts + [part], width) == Encode(parts, width) + Framed(part, width)
    decreases |parts|
  {
    if parts == [] {
      assert parts + [part] == [part] && [part][1..] == [];
    } else {
      EncodePush(parts[1..], part, width);
      assert (parts + [part])[1..] == parts[1..] + [part];
    }
  }

  const LENGTH_BYTES: nat := 8

  /** The id: the digest of the framed parts, fed in one after the other, in hex. */
  method Id(parts: seq<seq<byte>>, digest: seq<byte> -> seq<byte>) returns (id: string)
    ensures id == Hex(digest(Encode(parts, LENGTH_BYTES)))
  {
    var fed := Feed(parts, LENGTH_BYTES);
    id := Hex(digest(fed));
  }

  method Feed(parts: seq<seq<byte>>, width: nat) returns (fed: seq<byte>)
    ensures fed == Encode(parts, width)
  {
    fed := [];
    for i := 0 to |parts|
      invariant fed == Encode(parts[..i], width)
    {
      EncodePush(parts[..i], parts[i], width);
      assert parts[..i + 1] == parts[..i] + [parts[i]];
      fed := fed + BigEndian(|parts[i]|, width);
      fed := fed + parts[i];
    }
    assert parts[..|parts|] == parts;
  }

  /** Two different lists of parts always feed different bytes to the digest, so they share an
      id exactly when the digest itself collides on those bytes. */
  lemma IdsMeetOnlyByCollision(a: seq<seq<byte>>, b: seq<seq<byte>>, digest: seq<byte> -> seq<byte>)
    requires Sized(a, LENGTH_BYTES) && Sized(b, LENGTH_BYTES) && a != b
    ensures Encode(a, LENGTH_BYTES) != Encode(b, LENGTH_BYTES)
    ensures var x, y := Encode(a, LENGTH_BYTES), Encode(b, LENGTH_BYTES);
            Hex(digest(x)) == Hex(digest(y)) <==> digest(x) == digest(y)
  {
    var x, y := Encode(a, LENGTH_BYTES), Encode(b, LENGTH_BYTES);
    EncodeInjective(a, b, LENGTH_BYTES);
    if Hex(digest(x)) == Hex(digest(y)) {
      HexInjective(digest(x), digest(y));
    }
  }
}
