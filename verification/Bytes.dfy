/** Bytes, big-endian integers and the failure datatypes shared by every other module. */
module Bytes {

  type byte = bv8

  type bytes = seq<byte>

  datatype Option<+T> = None | Some(value: T)

  const U16: nat := 0x1_0000
  const U32: nat := 0x1_0000_0000
  const U64: nat := 0x1_0000_0000_0000_0000

  /** A 20-byte Ethereum address. */
  type Address = s: bytes | |s| == 20 witness Zeros(20)

  /** A GCM nonce. */
  type Nonce = s: bytes | |s| == 12 witness Zeros(12)

  /** Go's `make([]byte, n)`. */
  function Zeros(n: nat): (r: bytes)
    ensures |r| == n
  {
    seq(n, _ => 0)
  }

  function Pow256(n: nat): (r: nat)
    ensures r > 0
  {
    if n == 0 then 1 else 256 * Pow256(n - 1)
  }

  /** The number a big-endian byte string denotes. */
  function Value(s: bytes): nat {
    if s == [] then 0 else Value(s[..|s| - 1]) * 256 + s[|s| - 1] as int
  }

  /** The low byte of a number. */
  function ByteOf(x: nat): byte {
    if x == 0 then 0 else ByteOf(x - 1) + 1
  }

  /** `v` in `n` big-endian bytes, truncated to its low `n` bytes as a Go conversion would. */
  function BigEndian(v: nat, n: nat): (r: bytes)
    ensures |r| == n
  {
    if n == 0 then [] else BigEndian(v / 256, n - 1) + [ByteOf(v % 256)]
  }

  lemma ByteSuccessor(b: byte)
    requires (b as int) < 255
    ensures (b + 1) as int == b as int + 1
  {
  }

  lemma {:induction false} ByteRoundTrip(x: nat)
    requires x < 256
    ensures ByteOf(x) as int == x
  {
    if x > 0 {
      ByteRoundTrip(x - 1);
      ByteSuccessor(ByteOf(x - 1));
    }
  }

  lemma {:induction false} BigEndianRoundTrip(v: nat, n: nat)
    requires v < Pow256(n)
    ensures Value(BigEndian(v, n)) == v
  {
    if n > 0 {
      BigEndianRoundTrip(v / 256, n - 1);
      var s := BigEndian(v, n);
      assert s[..|s| - 1] == BigEndian(v / 256, n - 1);
      ByteRoundTrip(v % 256);
    }
  }

  lemma SameByte(x: byte, y: byte)
    requires x as int == y as int
    ensures x == y
  {
  }

  /** Every byte string is the encoding of the number it denotes. */
  lemma {:induction false} ValueRoundTrip(s: bytes)
    ensures BigEndian(Value(s), |s|) == s
  {
    if s != [] {
      var n := |s| - 1;
      ValueRoundTrip(s[..n]);
      var last := s[n] as int;
      assert Value(s) / 256 == Value(s[..n]) && Value(s) % 256 == last;
      ByteRoundTrip(last);
      SameByte(ByteOf(last), s[n]);
      assert s == s[..n] + [s[n]];
    }
  }

  lemma Pow256Values()
    ensures Pow256(1) == 256 && Pow256(2) == U16 && Pow256(4) == U32 && Pow256(8) == U64
  {
    assert Pow256(3) == 256 * Pow256(2);
    assert Pow256(4) == 256 * Pow256(3);
    assert Pow256(5) == 256 * Pow256(4);
    assert Pow256(6) == 256 * Pow256(5);
    assert Pow256(7) == 256 * Pow256(6);
  }

  lemma {:induction false} ValueBound(s: bytes)
    ensures Value(s) < Pow256(|s|)
  {
    if s != [] {
      ValueBound(s[..|s| - 1]);
    }
  }

  lemma TailOfConcat<T>(x: seq<T>, y: seq<T>)
    requires x != []
    ensures (x + y)[0] == x[0] && (x + y)[1..] == x[1..] + y
  {
  }

  lemma ConcatAssoc<T>(x: seq<T>, y: seq<T>, z: seq<T>)
    ensures x + (y + z) == x + y + z
  {
  }
}
