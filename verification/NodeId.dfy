/** 160-bit Kademlia ids: the XOR metric, its order and its prefix lengths. */
module NodeId {
  import opened Bytes

  const ID_BYTES: nat := 20
  const ID_BITS: nat := 160

  type NodeId = s: bytes | |s| == ID_BYTES witness Zeros(ID_BYTES)

  function XorBytes(x: bytes, y: bytes): (r: bytes)
    requires |x| == |y|
    ensures |r| == |x|
  {
    seq(|x|, i requires 0 <= i < |x| => x[i] ^ y[i])
  }

  function Xor(a: NodeId, b: NodeId): NodeId {
    XorBytes(a, b)
  }

  /** The XOR distance as a number. */
  function Distance(a: NodeId, b: NodeId): nat {
    Value(Xor(a, b))
  }

  ghost predicate Closer(a: NodeId, b: NodeId, target: NodeId) {
    Distance(a, target) < Distance(b, target)
  }

  // ---- Numbers and their bits ----

  function Pow2(n: nat): (r: nat)
    ensures r > 0
  {
    if n == 0 then 1 else 2 * Pow2(n - 1)
  }

  function BitLength(v: nat): nat {
    if v == 0 then 0 else 1 + BitLength(v / 2)
  }

  /** The number of leading bits two ids share. */
  function SharedBits(a: NodeId, b: NodeId): int {
    ID_BITS - BitLength(Distance(a, b))
  }

  lemma {:induction false} BitLengthIs(v: nat, k: nat)
    requires Pow2(k) <= v < Pow2(k + 1)
    ensures BitLength(v) == k + 1
    decreases k
  {
    if k > 0 {
      BitLengthIs(v / 2, k - 1);
    }
  }

  lemma {:induction false} BitLengthBounds(v: nat)
    ensures v > 0 ==> Pow2(BitLength(v) - 1) <= v
    ensures v < Pow2(BitLength(v))
  {
    if v > 1 {
      BitLengthBounds(v / 2);
    }
  }

  lemma {:induction false} BitLengthAtMost(v: nat, n: nat)
    ensures v < Pow2(n) <==> BitLength(v) <= n
    decreases v
  {
    if v > 0 && n > 0 {
      BitLengthAtMost(v / 2, n - 1);
    }
  }

  lemma {:induction false} Pow2Eight(n: nat)
    ensures Pow2(n + 8) == 256 * Pow2(n)
  {
    assert Pow2(n + 1) == 2 * Pow2(n);
    assert Pow2(n + 2) == 2 * Pow2(n + 1);
    assert Pow2(n + 3) == 2 * Pow2(n + 2);
    assert Pow2(n + 4) == 2 * Pow2(n + 3);
    assert Pow2(n + 5) == 2 * Pow2(n + 4);
    assert Pow2(n + 6) == 2 * Pow2(n + 5);
    assert Pow2(n + 7) == 2 * Pow2(n + 6);
  }

  lemma {:induction false} Pow2Bytes(n: nat)
    ensures Pow256(n) == Pow2(8 * n)
  {
    if n > 0 {
      Pow2Bytes(n - 1);
      Pow2Eight(8 * n - 8);
    }
  }

  lemma Pow2Small()
    ensures Pow2(0) == 1 && Pow2(1) == 2 && Pow2(2) == 4 && Pow2(3) == 8 && Pow2(4) == 16
    ensures Pow2(5) == 32 && Pow2(6) == 64 && Pow2(7) == 128 && Pow2(8) == 256
  {
    Pow2Eight(0);
    assert Pow2(2) == 2 * Pow2(1);
    assert Pow2(3) == 2 * Pow2(2);
    assert Pow2(4) == 2 * Pow2(3);
    assert Pow2(5) == 2 * Pow2(4);
    assert Pow2(6) == 2 * Pow2(5);
    assert Pow2(7) == 2 * Pow2(6);
  }

  lemma ByteOrder(x: byte, y: byte)
    ensures x < y <==> (x as int) < (y as int)
  {
  }

  /** Testing bit `j` of a byte below 2^(j+1) compares it with 2^j. */
  lemma TestBit(b: byte, j: nat)
    requires j < 8 && (b as int) < Pow2(j + 1)
    ensures b & ((1 as byte) << j) != 0 <==> (b as int) >= Pow2(j)
  {
    Pow2Small();
    var lo: byte := (1 as byte) << j;
    ByteOrder(b, lo);
    if j < 7 {
      var hi: byte := (1 as byte) << (j + 1);
      ByteOrder(b, hi);
      assert hi as int == Pow2(j + 1);
    }
    assert lo as int == Pow2(j);
  }

  /** XOR of bytes below 2^n stays below 2^n. */
  lemma XorByteBound(x: byte, y: byte, z: byte, n: nat)
    requires n < 8 && (x as int) < Pow2(n) && (y as int) < Pow2(n) && z == x ^ y
    ensures (z as int) < Pow2(n)
  {
    Pow2Small();
    var lim: byte := (1 as byte) << n;
    assert lim as int == Pow2(n);
    ByteOrder(x, lim);
    ByteOrder(y, lim);
    ByteOrder(z, lim);
  }

  // ---- Byte strings and the numbers they denote ----

  /** The first byte where two strings differ decides which number is smaller. */
  lemma {:induction false} FirstDifference(x: bytes, y: bytes, i: nat)
    requires |x| == |y| && i < |x| && x[..i] == y[..i] && (x[i] as int) < (y[i] as int)
    ensures Value(x) < Value(y)
    decreases |x|
  {
    var n := |x| - 1;
    if i == n {
      assert x[..n] == y[..n];
    } else {
      assert x[..n][..i] == x[..i] && y[..n][..i] == y[..i];
      FirstDifference(x[..n], y[..n], i);
    }
  }

  lemma LastByte(u: nat, x: byte, v: nat, y: byte)
    requires u * 256 + x as int == v * 256 + y as int
    ensures u == v && x == y
  {
    ByteOrder(x, y);
    ByteOrder(y, x);
  }

  lemma {:induction false} ValueInjective(x: bytes, y: bytes)
    requires |x| == |y| && Value(x) == Value(y)
    ensures x == y
    decreases |x|
  {
    if x != [] {
      var n := |x| - 1;
      LastByte(Value(x[..n]), x[n], Value(y[..n]), y[n]);
      ValueInjective(x[..n], y[..n]);
      assert x == x[..n] + [x[n]] && y == y[..n] + [y[n]];
    }
  }

  /** Leading zero bytes, then a byte whose highest bit is bit `j`, put the number between two powers of two. */
  lemma {:induction false} TopBit(s: bytes, i: nat, j: nat)
    requires i < |s| && (forall k :: 0 <= k < i ==> s[k] == 0)
    requires Pow2(j) <= s[i] as int < Pow2(j + 1)
    ensures Pow2(8 * (|s| - 1 - i) + j) <= Value(s) < Pow2(8 * (|s| - 1 - i) + j + 1)
    decreases |s|
  {
    var n := |s| - 1;
    if i == n {
      ZeroValue(s[..n]);
    } else {
      TopBit(s[..n], i, j);
      Pow2Eight(8 * (n - 1 - i) + j);
      Pow2Eight(8 * (n - 1 - i) + j + 1);
    }
  }

  lemma {:induction false} ZeroValue(s: bytes)
    ensures Value(s) == 0 <==> forall k :: 0 <= k < |s| ==> s[k] == 0
    decreases |s|
  {
    if s != [] {
      ZeroValue(s[..|s| - 1]);
      assert forall k :: 0 <= k < |s| - 1 ==> s[k] == s[..|s| - 1][k];
    }
  }

  /** Dropping the last byte drops eight bits. */
  lemma DropByte(s: bytes, n: nat)
    requires s != [] && n >= 8
    ensures Value(s) < Pow2(n) <==> Value(s[..|s| - 1]) < Pow2(n - 8)
  {
    Pow2Eight(n - 8);
  }

  /** A number below 2^n with n < 8 is its last byte. */
  lemma OneByte(s: bytes, n: nat)
    requires s != [] && n < 8
    ensures Value(s) < Pow2(n) <==> Value(s[..|s| - 1]) == 0 && (s[|s| - 1] as int) < Pow2(n)
  {
    Pow2Below(n);
  }

  lemma XorOneByte(x: bytes, y: bytes, n: nat)
    requires |x| == |y| > 0 && n < 8 && Value(x) < Pow2(n) && Value(y) < Pow2(n)
    requires Value(XorBytes(x, y)[..|x| - 1]) == 0
    ensures Value(XorBytes(x, y)) < Pow2(n)
  {
    var m, z := |x| - 1, XorBytes(x, y);
    OneByte(x, n);
    OneByte(y, n);
    XorByteBound(x[m], y[m], z[m], n);
    OneByte(z, n);
  }

  lemma {:induction false} XorBound(x: bytes, y: bytes, n: nat)
    requires |x| == |y| && Value(x) < Pow2(n) && Value(y) < Pow2(n)
    ensures Value(XorBytes(x, y)) < Pow2(n)
    decreases |x|
  {
    if x != [] {
      var m, z := |x| - 1, XorBytes(x, y);
      assert z[..m] == XorBytes(x[..m], y[..m]);
      if n >= 8 {
        DropByte(x, n);
        DropByte(y, n);
        XorBound(x[..m], y[..m], n - 8);
        DropByte(z, n);
      } else {
        OneByte(x, n);
        OneByte(y, n);
        XorBound(x[..m], y[..m], 0);
        XorOneByte(x, y, n);
      }
    }
  }

  lemma Pow2Below(n: nat)
    requires n < 8
    ensures Pow2(n) <= 128
  {
    Pow2Small();
  }

  // ---- The metric ----

  lemma DistanceBound(a: NodeId, b: NodeId)
    ensures Distance(a, b) < Pow2(ID_BITS)
  {
    ValueBound(Xor(a, b));
    Pow2Bytes(ID_BYTES);
  }

  /** XOR with a fixed target is one-to-one, so ids at one distance are one id: CloserTo orders ids strictly and totally. */
  lemma DistanceInjective(a: NodeId, b: NodeId, target: NodeId)
    requires Distance(a, target) == Distance(b, target)
    ensures a == b
  {
    ValueInjective(Xor(a, target), Xor(b, target));
    forall k | 0 <= k < ID_BYTES
      ensures a[k] == b[k]
    {
      assert Xor(a, target)[k] == Xor(b, target)[k];
    }
  }

  lemma DistanceZero(a: NodeId, b: NodeId)
    ensures Distance(a, b) == 0 <==> a == b
  {
    ZeroValue(Xor(a, b));
    if Distance(a, b) == 0 {
      forall k | 0 <= k < ID_BYTES
        ensures a[k] == b[k]
      {
        assert Xor(a, b)[k] == 0;
      }
    }
  }

  lemma DistanceSymmetric(a: NodeId, b: NodeId)
    ensures Distance(a, b) == Distance(b, a)
  {
    assert Xor(a, b) == Xor(b, a);
  }

  /** Sharing i bits means lying between 2^(159-i) and 2^(160-i); equal ids share all 160. */
  lemma SharedBitsMeaning(a: NodeId, b: NodeId)
    ensures 0 <= SharedBits(a, b) <= ID_BITS
    ensures SharedBits(a, b) == ID_BITS <==> a == b
    ensures a != b ==> Pow2(ID_BITS - 1 - SharedBits(a, b)) <= Distance(a, b) < Pow2(ID_BITS - SharedBits(a, b))
  {
    var d := Distance(a, b);
    DistanceBound(a, b);
    BitLengthAtMost(d, ID_BITS);
    BitLengthBounds(d);
    DistanceZero(a, b);
  }

  /** Prefix length is an ultrametric. */
  lemma SharedBitsUltrametric(a: NodeId, b: NodeId, c: NodeId)
    ensures SharedBits(a, c) >= SharedBits(a, b) || SharedBits(a, c) >= SharedBits(b, c)
  {
    var x, y := Xor(a, b), Xor(b, c);
    var n := if BitLength(Value(x)) < BitLength(Value(y)) then BitLength(Value(y)) else BitLength(Value(x));
    BitLengthAtMost(Value(x), n);
    BitLengthAtMost(Value(y), n);
    XorBound(x, y, n);
    assert XorBytes(x, y) == Xor(a, c);
    BitLengthAtMost(Distance(a, c), n);
  }

  // ---- The loops of node_id.go ----

  method XorLoop(a: NodeId, b: NodeId) returns (r: array<byte>)
    ensures fresh(r) && r[..] == Xor(a, b)
  {
    r := new byte[ID_BYTES];
    for i := 0 to ID_BYTES
      invariant forall k :: 0 <= k < i ==> r[k] == a[k] ^ b[k]
    {
      r[i] := a[i] ^ b[i];
    }
  }

  /** Byte-by-byte comparison of two distances decides which is the smaller number. */
  method CloserTo(id: NodeId, target: NodeId, other: NodeId) returns (r: bool)
    ensures r <==> Closer(id, other, target)
  {
    var x, y := Xor(id, target), Xor(other, target);
    for i := 0 to ID_BYTES
      invariant x[..i] == y[..i]
    {
      var d1 := id[i] ^ target[i];
      var d2 := other[i] ^ target[i];
      ByteOrder(d1, d2);
      ByteOrder(d2, d1);
      if d1 < d2 {
        FirstDifference(x, y, i);
        return true;
      }
      if d1 > d2 {
        FirstDifference(y, x, i);
        return false;
      }
    }
    assert x[..ID_BYTES] == x && y[..ID_BYTES] == y;
    return false;
  }

  /** Ids compare as the numbers they denote. */
  method Less(id: NodeId, other: NodeId) returns (r: bool)
    ensures r <==> Value(id) < Value(other)
  {
    for i := 0 to ID_BYTES
      invariant id[..i] == other[..i]
    {
      ByteOrder(id[i], other[i]);
      ByteOrder(other[i], id[i]);
      if id[i] < other[i] {
        FirstDifference(id, other, i);
        return true;
      }
      if id[i] > other[i] {
        FirstDifference(other, id, i);
        return false;
      }
    }
    assert id[..ID_BYTES] == id && other[..ID_BYTES] == other;
    return false;
  }

  /** First non-zero byte of the XOR, then its highest set bit. */
  method CommonPrefixLen(id: NodeId, other: NodeId) returns (r: int)
    ensures r == SharedBits(id, other)
  {
    var xor := Xor(id, other);
    for i := 0 to ID_BYTES
      invariant forall k :: 0 <= k < i ==> xor[k] == 0
    {
      if xor[i] != 0 {
        var b := xor[i];
        Pow2Small();
        for j := 8 downto 0
          invariant (b as int) < Pow2(j)
        {
          TestBit(b, j);
          if b & ((1 as byte) << j) != 0 {
            TopBit(xor, i, j);
            BitLengthIs(Value(xor), 8 * (ID_BYTES - 1 - i) + j);
            return i * 8 + (7 - j);
          }
        }
      }
    }
    ZeroValue(xor);
    return ID_BITS;
  }

  /** The same length counted up bit by bit. */
  method PrefixLen(id: NodeId, other: NodeId) returns (r: int)
    ensures r == SharedBits(id, other)
  {
    var xor := Xor(id, other);
    var prefixLen := 0;
    for i := 0 to ID_BYTES
      invariant prefixLen == 8 * i
      invariant forall k :: 0 <= k < i ==> xor[k] == 0
    {
      var b := xor[i];
      if b == 0 {
        prefixLen := prefixLen + 8;
      } else {
        Pow2Small();
        for j := 8 downto 0
          invariant prefixLen == 8 * i + 8 - j
          invariant (b as int) < Pow2(j)
        {
          TestBit(b, j);
          if b & ((1 as byte) << j) != 0 {
            TopBit(xor, i, j);
            BitLengthIs(Value(xor), 8 * (ID_BYTES - 1 - i) + j);
            return prefixLen;
          }
          prefixLen := prefixLen + 1;
        }
        return prefixLen;
      }
    }
    ZeroValue(xor);
    return prefixLen;
  }
}
