/** Choice of storage nodes by XOR distance, of pkg/meshstorage/node.go. */
module Placement {
  import opened Bytes
  import NodeId

  const HASH_LEN: nat := 32

  type KeyHash = s: bytes | |s| == HASH_LEN witness Zeros(HASH_LEN)

  // ---- Distances ----

  function At(s: bytes, i: nat): byte {
    if i < |s| then s[i] else 0
  }

  /** The shorter string is padded with zero bytes. */
  function XorDistance(x: bytes, y: bytes): (r: bytes)
    ensures |r| == if |x| < |y| then |y| else |x|
  {
    seq(if |x| < |y| then |y| else |x|, i requires 0 <= i => At(x, i) ^ At(y, i))
  }

  method XorDistanceBytes(x: bytes, y: bytes) returns (d: array<byte>)
    ensures fresh(d) && d[..] == XorDistance(x, y)
  {
    var maxLen := |x|;
    if |y| > maxLen {
      maxLen := |y|;
    }
    d := new byte[maxLen];
    for i := 0 to maxLen
      invariant forall k :: 0 <= k < i ==> d[k] == At(x, k) ^ At(y, k)
    {
      var b1, b2: byte := 0, 0;
      if i < |x| {
        b1 := x[i];
      }
      if i < |y| {
        b2 := y[i];
      }
      d[i] := b1 ^ b2;
    }
  }

  function Padded(id: bytes): bytes {
    if |id| < HASH_LEN then id + Zeros(HASH_LEN - |id|) else id
  }

  lemma PaddedAt(id: bytes, i: nat)
    ensures At(Padded(id), i) == At(id, i)
  {
  }

  lemma XorCancels(k: byte, x: byte, y: byte)
    ensures k ^ x == k ^ y <==> x == y
  {
  }

  /** Two peers are at one distance from a key exactly when their ids agree after padding to 32 bytes. */
  lemma SameDistance(key: KeyHash, x: bytes, y: bytes)
    ensures XorDistance(key, x) == XorDistance(key, y) <==> Padded(x) == Padded(y)
  {
    var dx, dy, px, py := XorDistance(key, x), XorDistance(key, y), Padded(x), Padded(y);
    assert |dx| == |px| && |dy| == |py|;
    if |px| == |py| {
      forall i | 0 <= i < |px|
        ensures dx[i] == dy[i] <==> px[i] == py[i]
      {
        SameByte(key, x, y, i);
      }
    }
  }

  lemma SameByte(key: KeyHash, x: bytes, y: bytes, i: nat)
    requires i < |Padded(x)| && i < |Padded(y)|
    ensures XorDistance(key, x)[i] == XorDistance(key, y)[i] <==> Padded(x)[i] == Padded(y)[i]
  {
    PaddedAt(x, i);
    PaddedAt(y, i);
    var k, a, b := At(key, i), At(x, i), At(y, i);
    var p, q := k ^ a, k ^ b;
    assert XorDistance(key, x)[i] == p && XorDistance(key, y)[i] == q;
    assert Padded(x)[i] == a && Padded(y)[i] == b;
    assert p == q <==> a == b by {
      XorCancels(k, a, b);
    }
  }

  lemma XorTwice(k: byte, x: byte)
    ensures (k ^ x) ^ k == x
  {
  }

  /** The distance is the XOR with the key: taking the key away again gives the id, byte by byte. */
  lemma DistanceIsXor(key: KeyHash, x: bytes, i: nat)
    requires i < |XorDistance(key, x)|
    ensures XorDistance(key, x)[i] ^ At(key, i) == At(x, i)
  {
    XorTwice(At(key, i), At(x, i));
  }

  /** So from one peer no two keys are at one distance. */
  lemma KeyMatters(k1: KeyHash, k2: KeyHash, x: bytes)
    requires XorDistance(k1, x) == XorDistance(k2, x)
    ensures k1 == k2
  {
    forall i | 0 <= i < HASH_LEN
      ensures k1[i] == k2[i]
    {
      KeyByte(k1, k2, x, i);
    }
  }

  lemma KeyByte(k1: KeyHash, k2: KeyHash, x: bytes, i: nat)
    requires i < HASH_LEN && XorDistance(k1, x) == XorDistance(k2, x)
    ensures k1[i] == k2[i]
  {
    DistanceIsXor(k1, x, i);
    DistanceIsXor(k2, x, i);
    XorCancels(XorDistance(k1, x)[i], k1[i], k2[i]);
  }

  /** Lexicographic order, a proper prefix first. */
  ghost predicate Before(x: bytes, y: bytes) {
    y != [] && (x == [] || if x[0] == y[0] then Before(x[1..], y[1..]) else x[0] < y[0])
  }

  lemma {:induction false} BeforeTotal(x: bytes, y: bytes)
    ensures !(Before(x, y) && Before(y, x))
    ensures Before(x, y) || Before(y, x) || x == y
    ensures x == y ==> !Before(x, y)
    decreases |x|
  {
    if x != [] && y != [] && x[0] == y[0] {
      BeforeTotal(x[1..], y[1..]);
      assert x == [x[0]] + x[1..] && y == [y[0]] + y[1..];
    }
  }

  lemma {:induction false} BeforeTransitive(x: bytes, y: bytes, z: bytes)
    requires Before(x, y) && Before(y, z)
    ensures Before(x, z)
    decreases |x|
  {
    if x != [] && x[0] == y[0] && y[0] == z[0] {
      BeforeTransitive(x[1..], y[1..], z[1..]);
    }
  }

  /** Where two strings of one length first differ. */
  lemma {:induction false} FirstDifferent(x: bytes, y: bytes) returns (i: nat)
    requires |x| == |y| && Before(x, y)
    ensures i < |x| && x[..i] == y[..i] && x[i] < y[i]
    decreases |x|
  {
    if x[0] == y[0] {
      i := FirstDifferent(x[1..], y[1..]);
      assert x[..i + 1] == [x[0]] + x[1..][..i] && y[..i + 1] == [y[0]] + y[1..][..i];
      i := i + 1;
    } else {
      i := 0;
    }
  }

  lemma BeforeGivesLess(x: bytes, y: bytes)
    requires |x| == |y| && Before(x, y)
    ensures Value(x) < Value(y)
  {
    var i := FirstDifferent(x, y);
    NodeId.ByteOrder(x[i], y[i]);
    NodeId.FirstDifference(x, y, i);
  }

  /** Of two strings of one length the smaller number comes first. */
  lemma BeforeIsLess(x: bytes, y: bytes)
    requires |x| == |y|
    ensures Before(x, y) <==> Value(x) < Value(y)
  {
    BeforeTotal(x, y);
    if Before(x, y) {
      BeforeGivesLess(x, y);
    } else if x != y {
      BeforeGivesLess(y, x);
    }
  }

  /** The comparison is a total order on distances. */
  method CompareDistances(x: bytes, y: bytes) returns (r: int)
    ensures -1 <= r <= 1
    ensures r == -1 <==> Before(x, y)
    ensures r == 0 <==> x == y
    ensures r == 1 <==> Before(y, x)
  {
    BeforeTotal(x, y);
    var minLen := |x|;
    if |y| < minLen {
      minLen := |y|;
    }
    for i := 0 to minLen
      invariant x[..i] == y[..i]
      invariant Before(x, y) <==> Before(x[i..], y[i..])
      invariant Before(y, x) <==> Before(y[i..], x[i..])
    {
      if x[i] < y[i] {
        return -1;
      }
      if x[i] > y[i] {
        return 1;
      }
      assert x[i..][1..] == x[i + 1..] && y[i..][1..] == y[i + 1..];
      assert x[..i + 1] == x[..i] + [x[i]] && y[..i + 1] == y[..i] + [y[i]];
    }
    if |x| < |y| {
      return -1;
    }
    if |x| > |y| {
      return 1;
    }
    assert x[..|x|] == x && y[..|x|] == y;
    return 0;
  }

  // ---- Sorting ----

  datatype Entry = Entry(peer: bytes, distance: bytes)

  ghost predicate Ordered(x: Entry, y: Entry) {
    !Before(y.distance, x.distance)
  }

  ghost predicate Sorted(s: seq<Entry>) {
    forall i, j :: 0 <= i < j < |s| ==> Ordered(s[i], s[j])
  }

  /** The entries at one distance, in order. */
  ghost function Only(s: seq<Entry>, d: bytes): seq<Entry> {
    if s == [] then [] else (if s[0].distance == d then [s[0]] else []) + Only(s[1..], d)
  }

  /** Sorted, a permutation, and stable: the entries at each distance are the same and in the same order. */
  ghost predicate Sorting(s: seq<Entry>, of: seq<Entry>) {
    Sorted(s) && forall d :: Only(s, d) == Only(of, d)
  }

  lemma {:induction false} OnlyConcat(x: seq<Entry>, y: seq<Entry>, d: bytes)
    ensures Only(x + y, d) == Only(x, d) + Only(y, d)
    decreases |x|
  {
    if x == [] {
      assert x + y == y;
    } else {
      OnlyConcat(x[1..], y, d);
      assert (x + y)[1..] == x[1..] + y;
      ConcatAssoc(if x[0].distance == d then [x[0]] else [], Only(x[1..], d), Only(y, d));
    }
  }

  lemma OnlyPair(u: Entry, v: Entry, d: bytes)
    requires u.distance != v.distance
    ensures Only([u, v], d) == Only([v, u], d)
  {
    assert [u, v][1..] == [v] && [v, u][1..] == [u];
  }

  function SwapNext(s: seq<Entry>, j: nat): seq<Entry>
    requires j + 1 < |s|
  {
    s[j := s[j + 1]][j + 1 := s[j]]
  }

  lemma SwapKeepsOnly(s: seq<Entry>, j: nat, d: bytes)
    requires j + 1 < |s| && s[j].distance != s[j + 1].distance
    ensures Only(SwapNext(s, j), d) == Only(s, d)
  {
    var p, q := s[..j], s[j + 2..];
    assert s == p + ([s[j], s[j + 1]] + q);
    assert SwapNext(s, j) == p + ([s[j + 1], s[j]] + q);
    OnlyPair(s[j], s[j + 1], d);
    OnlyConcat(p, [s[j], s[j + 1]] + q, d);
    OnlyConcat(p, [s[j + 1], s[j]] + q, d);
    OnlyConcat([s[j], s[j + 1]], q, d);
    OnlyConcat([s[j + 1], s[j]], q, d);
  }

  /** Positions from `top` on are final, and `s[j]` is no nearer than anything before it. */
  ghost predicate Bubbled(s: seq<Entry>, top: int, j: int) {
    && (forall p, q :: 0 <= p < q < |s| && top <= q ==> Ordered(s[p], s[q]))
    && (forall p :: 0 <= p < j < |s| ==> Ordered(s[p], s[j]))
  }

  lemma OrderedTransitive(x: Entry, y: Entry, z: Entry)
    requires Ordered(x, y) && Ordered(y, z)
    ensures Ordered(x, z)
  {
    if Before(z.distance, x.distance) {
      BeforeTotal(x.distance, y.distance);
      BeforeTotal(y.distance, z.distance);
      if Before(x.distance, y.distance) {
        BeforeTransitive(z.distance, x.distance, y.distance);
      }
    }
  }

  lemma BubbleSwap(s: seq<Entry>, top: int, j: nat)
    requires j + 1 < top <= |s| && Bubbled(s, top, j) && Before(s[j + 1].distance, s[j].distance)
    ensures Bubbled(SwapNext(s, j), top, j + 1)
    ensures forall d :: Only(SwapNext(s, j), d) == Only(s, d)
  {
    BeforeTotal(s[j].distance, s[j + 1].distance);
    forall d: bytes
      ensures Only(SwapNext(s, j), d) == Only(s, d)
    {
      SwapKeepsOnly(s, j, d);
    }
  }

  lemma BubbleStay(s: seq<Entry>, top: int, j: nat)
    requires j + 1 < top <= |s| && Bubbled(s, top, j) && Ordered(s[j], s[j + 1])
    ensures Bubbled(s, top, j + 1)
  {
    forall p | 0 <= p < j
      ensures Ordered(s[p], s[j + 1])
    {
      OrderedTransitive(s[p], s[j], s[j + 1]);
    }
  }

  /** The bubble sort of node.go, in place. */
  method SortPeersByDistance(a: array<Entry>)
    modifies a
    ensures Sorting(a[..], old(a[..]))
  {
    var n := a.Length;
    ghost var s := a[..];
    var i := 0;
    while i < n - 1
      invariant 0 <= i <= n && (n > 0 ==> i < n) && a[..] == s
      invariant Bubbled(s, n - i, 0)
      invariant forall d :: Only(s, d) == Only(old(a[..]), d)
    {
      for j := 0 to n - i - 1
        invariant a[..] == s && Bubbled(s, n - i, j)
        invariant forall d :: Only(s, d) == Only(old(a[..]), d)
      {
        var order := CompareDistances(a[j].distance, a[j + 1].distance);
        if order > 0 {
          BubbleSwap(s, n - i, j);
          a[j], a[j + 1] := a[j + 1], a[j];
          s := SwapNext(s, j);
        } else {
          BubbleStay(s, n - i, j);
        }
      }
      i := i + 1;
    }
  }

  // ---- The chosen nodes ----

  lemma {:induction false} OnlyMembers(s: seq<Entry>, d: bytes)
    ensures forall e :: e in Only(s, d) <==> e in s && e.distance == d
    decreases |s|
  {
    if s != [] {
      OnlyMembers(s[1..], d);
      assert s == [s[0]] + s[1..];
    }
  }

  /** A sorted stable arrangement is unique. */
  lemma {:induction false} SortingUnique(s1: seq<Entry>, s2: seq<Entry>, of: seq<Entry>)
    requires Sorting(s1, of) && Sorting(s2, of)
    ensures s1 == s2
    decreases |s1|
  {
    if s2 != [] {
      NotEmpty(s1, s2, of);
    }
    if s1 != [] {
      NotEmpty(s2, s1, of);
      SameHead(s1, s2, of);
      forall d: bytes
        ensures Only(s1[1..], d) == Only(s2[1..], d)
      {
        assert Only(s1, d) == Only(of, d) && Only(s2, d) == Only(of, d);
        var h := if s1[0].distance == d then [s1[0]] else [];
        assert Only(s1[1..], d) == Only(s1, d)[|h|..] && Only(s2[1..], d) == Only(s2, d)[|h|..];
      }
      SortingUnique(s1[1..], s2[1..], s2[1..]);
      assert s1 == [s1[0]] + s1[1..] && s2 == [s2[0]] + s2[1..];
    }
  }

  lemma NotEmpty(s1: seq<Entry>, s2: seq<Entry>, of: seq<Entry>)
    requires s2 != [] && forall d :: Only(s1, d) == Only(of, d) && Only(s2, d) == Only(of, d)
    ensures s1 != []
  {
    var d := s2[0].distance;
    assert Only(s2, d)[0] == s2[0];
    assert Only(s1, d) == Only(of, d) == Only(s2, d);
  }

  lemma SameHead(s1: seq<Entry>, s2: seq<Entry>, of: seq<Entry>)
    requires Sorting(s1, of) && Sorting(s2, of) && s1 != [] && s2 != []
    ensures s1[0] == s2[0]
  {
    NoFarther(s1, s2, of);
    NoFarther(s2, s1, of);
    BeforeTotal(s1[0].distance, s2[0].distance);
    var d := s1[0].distance;
    assert Only(s1, d) == Only(of, d) && Only(s2, d) == Only(of, d);
    assert Only(s1, d)[0] == s1[0] && Only(s2, d)[0] == s2[0];
  }

  lemma NoFarther(s1: seq<Entry>, s2: seq<Entry>, of: seq<Entry>)
    requires Sorting(s1, of) && Sorting(s2, of) && s1 != [] && s2 != []
    ensures !Before(s1[0].distance, s2[0].distance)
  {
    var d := s1[0].distance;
    assert Only(s1, d) == Only(of, d) && Only(s2, d) == Only(of, d);
    OnlyMembers(s1, d);
    OnlyMembers(s2, d);
    assert s1[0] in s2;
    BeforeTotal(d, s2[0].distance);
    if s2[0] != s1[0] {
      var k :| 0 <= k < |s2| && s2[k] == s1[0];
      assert Ordered(s2[0], s2[k]);
    }
  }

  /** The connected peers with known addresses, at their distances from the key. */
  function Entries(key: KeyHash, peers: seq<bytes>): (r: seq<Entry>)
    ensures |r| == |peers|
  {
    if peers == [] then [] else Entries(key, peers[..|peers| - 1]) + [Entry(peers[|peers| - 1], XorDistance(key, peers[|peers| - 1]))]
  }

  lemma {:induction false} EntryAt(key: KeyHash, peers: seq<bytes>, i: nat)
    requires i < |peers|
    ensures Entries(key, peers)[i] == Entry(peers[i], XorDistance(key, peers[i]))
    decreases |peers|
  {
    if i < |peers| - 1 {
      EntryAt(key, peers[..|peers| - 1], i);
    }
  }

  /** Distinct even after padding, as ids of at least 32 bytes, or of one length, are. */
  ghost predicate DistinctPeers(peers: seq<bytes>) {
    forall i, j :: 0 <= i < j < |peers| ==> Padded(peers[i]) != Padded(peers[j])
  }

  lemma LongIdsAreDistinct(peers: seq<bytes>)
    requires forall i, j :: 0 <= i < j < |peers| ==> peers[i] != peers[j]
    requires (forall i :: 0 <= i < |peers| ==> |peers[i]| >= HASH_LEN) || (forall i, j :: 0 <= i < j < |peers| ==> |peers[i]| == |peers[j]|)
    ensures DistinctPeers(peers)
  {
    forall i, j | 0 <= i < j < |peers|
      ensures Padded(peers[i]) != Padded(peers[j])
    {
      assert peers[i] == Padded(peers[i])[..|peers[i]|] && peers[j] == Padded(peers[j])[..|peers[j]|];
    }
  }

  ghost predicate SamePeers(p1: seq<bytes>, p2: seq<bytes>) {
    forall x :: x in p1 <==> x in p2
  }

  ghost predicate DistinctDistances(s: seq<Entry>) {
    forall i, j :: 0 <= i < j < |s| ==> s[i].distance != s[j].distance
  }

  lemma {:induction false} OnlyOne(s: seq<Entry>, i: nat)
    requires i < |s| && DistinctDistances(s)
    ensures Only(s, s[i].distance) == [s[i]]
    decreases |s|
  {
    if i == 0 {
      OnlyNone(s[1..], s[0].distance);
    } else {
      OnlyOne(s[1..], i - 1);
    }
  }

  lemma {:induction false} OnlyNone(s: seq<Entry>, d: bytes)
    requires forall k :: 0 <= k < |s| ==> s[k].distance != d
    ensures Only(s, d) == []
    decreases |s|
  {
    if s != [] {
      OnlyNone(s[1..], d);
    }
  }

  lemma EntriesDistinct(key: KeyHash, peers: seq<bytes>)
    requires DistinctPeers(peers)
    ensures DistinctDistances(Entries(key, peers))
  {
    forall i, j | 0 <= i < j < |peers|
      ensures Entries(key, peers)[i].distance != Entries(key, peers)[j].distance
    {
      EntryAt(key, peers, i);
      EntryAt(key, peers, j);
      SameDistance(key, peers[i], peers[j]);
    }
  }

  lemma SameOnly(key: KeyHash, p1: seq<bytes>, p2: seq<bytes>, d: bytes)
    requires DistinctPeers(p1) && DistinctPeers(p2) && SamePeers(p1, p2)
    ensures Only(Entries(key, p1), d) == Only(Entries(key, p2), d)
  {
    var e1, e2 := Entries(key, p1), Entries(key, p2);
    EntriesDistinct(key, p1);
    EntriesDistinct(key, p2);
    if i :| 0 <= i < |p1| && e1[i].distance == d {
      EntryAt(key, p1, i);
      assert p1[i] in p2;
      var j :| 0 <= j < |p2| && p2[j] == p1[i];
      EntryAt(key, p2, j);
      OnlyOne(e1, i);
      OnlyOne(e2, j);
    } else {
      OnlyNone(e1, d);
      forall j | 0 <= j < |p2|
        ensures e2[j].distance != d
      {
        EntryAt(key, p2, j);
        assert p2[j] in p1;
        var i :| 0 <= i < |p1| && p1[i] == p2[j];
        EntryAt(key, p1, i);
      }
      OnlyNone(e2, d);
    }
  }

  /** The nodes chosen depend on the set of connected peers, not on the order in which they are listed. */
  lemma PlacementIndependent(key: KeyHash, p1: seq<bytes>, p2: seq<bytes>, s1: seq<Entry>, s2: seq<Entry>)
    requires DistinctPeers(p1) && DistinctPeers(p2) && SamePeers(p1, p2)
    requires Sorting(s1, Entries(key, p1)) && Sorting(s2, Entries(key, p2))
    ensures s1 == s2
  {
    forall d: bytes
      ensures Only(s2, d) == Only(Entries(key, p1), d)
    {
      SameOnly(key, p1, p2, d);
    }
    SortingUnique(s1, s2, Entries(key, p1));
  }

  lemma OnlyAt(s: seq<Entry>, i: nat)
    requires i < |s|
    ensures var d := s[i].distance;
            var m := |Only(s[..i], d)|;
            m < |Only(s, d)| && Only(s, d)[m] == s[i]
  {
    var d := s[i].distance;
    assert s == s[..i] + ([s[i]] + s[i + 1..]);
    OnlyConcat(s[..i], [s[i]] + s[i + 1..], d);
    assert ([s[i]] + s[i + 1..])[1..] == s[i + 1..];
  }

  lemma {:induction false} EntriesPrefix(key: KeyHash, peers: seq<bytes>, i: nat)
    requires i <= |peers|
    ensures Entries(key, peers)[..i] == Entries(key, peers[..i])
    decreases |peers|
  {
    if i < |peers| {
      EntriesPrefix(key, peers[..|peers| - 1], i);
      assert peers[..|peers| - 1][..i] == peers[..i];
    } else {
      assert peers[..i] == peers;
    }
  }

  /** Listing two different peers the other way round changes the outcome if they agree after padding. */
  lemma ListingDecidesTies(key: KeyHash, peers: seq<bytes>, i: nat, j: nat, s1: seq<Entry>, s2: seq<Entry>)
    requires i < j < |peers| && peers[i] != peers[j] && Padded(peers[i]) == Padded(peers[j])
    requires Sorting(s1, Entries(key, peers)) && Sorting(s2, Entries(key, peers[i := peers[j]][j := peers[i]]))
    ensures SamePeers(peers, peers[i := peers[j]][j := peers[i]]) && s1 != s2
  {
    var swapped := peers[i := peers[j]][j := peers[i]];
    SwapSamePeers(peers, i, j);
    var e1, e2, d := Entries(key, peers), Entries(key, swapped), XorDistance(key, peers[i]);
    SameDistance(key, peers[i], peers[j]);
    EntryAt(key, peers, i);
    EntryAt(key, swapped, i);
    EntriesPrefix(key, peers, i);
    EntriesPrefix(key, swapped, i);
    assert peers[..i] == swapped[..i];
    OnlyAt(e1, i);
    OnlyAt(e2, i);
    assert Only(e1, d) != Only(e2, d);
  }

  lemma SwapSamePeers(peers: seq<bytes>, i: nat, j: nat)
    requires i < j < |peers|
    ensures SamePeers(peers, peers[i := peers[j]][j := peers[i]])
  {
    var swapped := peers[i := peers[j]][j := peers[i]];
    forall x
      ensures x in peers <==> x in swapped
    {
      if k :| 0 <= k < |peers| && peers[k] == x {
        assert swapped[if k == i then j else if k == j then i else k] == x;
      }
    }
  }

  /** Ids below 32 bytes that differ only in trailing zero bytes do so. */
  lemma ShortIdsTie()
    ensures var x: bytes, y: bytes := [1], [1, 0]; x != y && Padded(x) == Padded(y)
  {
    var x: bytes, y: bytes := [1], [1, 0];
    assert forall i :: 0 <= i < HASH_LEN ==> Padded(x)[i] == Padded(y)[i];
  }

  /** The connected peers whose addresses are known. */
  function Addressed(connected: seq<bytes>, known: set<bytes>): seq<bytes> {
    if connected == [] then []
    else
      var rest, last := Addressed(connected[..|connected| - 1], known), connected[|connected| - 1];
      if last in known then rest + [last] else rest
  }

  /** `r` lists the peers of the first `count` entries. */
  ghost predicate FirstOf(r: seq<bytes>, sorted: seq<Entry>, count: int) {
    && |r| == (if count <= 0 then 0 else if |sorted| < count then |sorted| else count)
    && forall i :: 0 <= i < |r| ==> r[i] == sorted[i].peer
  }

  ghost predicate Nearest(r: seq<bytes>, key: KeyHash, peers: seq<bytes>, count: int) {
    exists sorted :: Sorting(sorted, Entries(key, peers)) && FirstOf(r, sorted, count)
  }

  /** No peer left out is nearer to the key than one that is chosen. */
  lemma ChosenAreNearest(key: KeyHash, peers: seq<bytes>, count: int, r: seq<bytes>, x: bytes, y: bytes)
    requires Nearest(r, key, peers, count) && x in r && y in peers && y !in r
    ensures !Before(XorDistance(key, y), XorDistance(key, x))
    ensures |x| == |y| ==> Value(XorDistance(key, x)) <= Value(XorDistance(key, y))
  {
    var s :| Sorting(s, Entries(key, peers)) && FirstOf(r, s, count);
    SortingPermutes(s, Entries(key, peers));
    var i :| 0 <= i < |r| && r[i] == x;
    EntryOfPeer(key, peers, s, i);
    var k :| 0 <= k < |peers| && peers[k] == y;
    EntryAt(key, peers, k);
    assert Entries(key, peers)[k] in multiset(Entries(key, peers));
    assert Entries(key, peers)[k] in s;
    var j :| 0 <= j < |s| && s[j] == Entries(key, peers)[k];
    assert j >= |r| && Ordered(s[i], s[j]);
    if |x| == |y| {
      BeforeIsLess(XorDistance(key, y), XorDistance(key, x));
    }
  }

  /** Whatever the listing order, the same nodes are chosen, in the same order. */
  lemma ChoiceIndependent(key: KeyHash, p1: seq<bytes>, p2: seq<bytes>, count: int, r1: seq<bytes>, r2: seq<bytes>)
    requires DistinctPeers(p1) && DistinctPeers(p2) && SamePeers(p1, p2)
    requires Nearest(r1, key, p1, count) && Nearest(r2, key, p2, count)
    ensures r1 == r2
  {
    var s1 :| Sorting(s1, Entries(key, p1)) && FirstOf(r1, s1, count);
    var s2 :| Sorting(s2, Entries(key, p2)) && FirstOf(r2, s2, count);
    PlacementIndependent(key, p1, p2, s1, s2);
  }

  lemma {:induction false} OnlyCount(s: seq<Entry>, e: Entry)
    ensures multiset(Only(s, e.distance))[e] == multiset(s)[e]
    decreases |s|
  {
    if s != [] {
      OnlyCount(s[1..], e);
      assert s == [s[0]] + s[1..];
    }
  }

  /** A stable arrangement has the same entries, as often as before. */
  lemma SortingPermutes(s: seq<Entry>, of: seq<Entry>)
    requires Sorting(s, of)
    ensures multiset(s) == multiset(of) && |s| == |of|
  {
    forall e: Entry
      ensures multiset(s)[e] == multiset(of)[e]
    {
      OnlyCount(s, e);
      OnlyCount(of, e);
    }
    assert multiset(s) == multiset(of);
    assert |multiset(s)| == |s| && |multiset(of)| == |of|;
  }

  /** The peer fixes the entry. */
  lemma EntryOfPeer(key: KeyHash, peers: seq<bytes>, s: seq<Entry>, i: nat)
    requires Sorting(s, Entries(key, peers)) && i < |s|
    ensures s[i] == Entry(s[i].peer, XorDistance(key, s[i].peer))
  {
    SortingPermutes(s, Entries(key, peers));
    assert s[i] in multiset(s);
    assert s[i] in Entries(key, peers);
    var j :| 0 <= j < |peers| && Entries(key, peers)[j] == s[i];
    EntryAt(key, peers, j);
  }

  /** If two listed peers agree after padding, listing them the other way round changes the nodes chosen. */
  lemma ListingDecidesChoice(key: KeyHash, peers: seq<bytes>, i: nat, j: nat, count: int, r1: seq<bytes>, r2: seq<bytes>)
    requires i < j < |peers| <= count && peers[i] != peers[j] && Padded(peers[i]) == Padded(peers[j])
    requires Nearest(r1, key, peers, count) && Nearest(r2, key, peers[i := peers[j]][j := peers[i]], count)
    ensures SamePeers(peers, peers[i := peers[j]][j := peers[i]]) && r1 != r2
  {
    var swapped := peers[i := peers[j]][j := peers[i]];
    var s1 :| Sorting(s1, Entries(key, peers)) && FirstOf(r1, s1, count);
    var s2 :| Sorting(s2, Entries(key, swapped)) && FirstOf(r2, s2, count);
    ListingDecidesTies(key, peers, i, j, s1, s2);
    SortingPermutes(s1, Entries(key, peers));
    SortingPermutes(s2, Entries(key, swapped));
    if r1 == r2 {
      forall k | 0 <= k < |s1|
        ensures s1[k] == s2[k]
      {
        EntryOfPeer(key, peers, s1, k);
        EntryOfPeer(key, swapped, s2, k);
      }
    }
  }

  /** Skipping works peer by peer, and so keeps the order of the listing. */
  lemma {:induction false} AddressedInOrder(x: seq<bytes>, y: seq<bytes>, known: set<bytes>)
    ensures Addressed(x + y, known) == Addressed(x, known) + Addressed(y, known)
    ensures forall p :: Addressed([p], known) == if p in known then [p] else []
    decreases |y|
  {
    assert forall p: bytes :: [p][..0] == [];
    if y == [] {
      assert x + y == x && Addressed(x, known) + [] == Addressed(x, known);
    } else {
      var n := |y| - 1;
      AddressedInOrder(x, y[..n], known);
      assert (x + y)[..|x + y| - 1] == x + y[..n];
      ConcatAssoc(Addressed(x, known), Addressed(y[..n], known), [y[n]]);
    }
  }

  lemma {:induction false} AddressedMembers(connected: seq<bytes>, known: set<bytes>)
    ensures forall x :: x in Addressed(connected, known) <==> x in connected && x in known
    decreases |connected|
  {
    if connected != [] {
      var n := |connected| - 1;
      AddressedMembers(connected[..n], known);
      assert connected == connected[..n] + [connected[n]];
    }
  }

  lemma {:induction false} AddressedDistinct(connected: seq<bytes>, known: set<bytes>)
    requires DistinctPeers(connected)
    ensures DistinctPeers(Addressed(connected, known))
    decreases |connected|
  {
    if connected != [] {
      var n := |connected| - 1;
      AddressedDistinct(connected[..n], known);
      AddressedMembers(connected[..n], known);
      var rest := Addressed(connected[..n], known);
      forall i | 0 <= i < |rest|
        ensures Padded(rest[i]) != Padded(connected[n])
      {
        assert rest[i] in connected[..n];
      }
    }
  }

  /** FindClosestNodes chooses by the set of connected peers, whatever the order in which they are listed. */
  lemma ConnectedChoice(key: KeyHash, c1: seq<bytes>, c2: seq<bytes>, known: set<bytes>, count: int, r1: seq<bytes>, r2: seq<bytes>)
    requires DistinctPeers(c1) && DistinctPeers(c2) && SamePeers(c1, c2)
    requires Nearest(r1, key, Addressed(c1, known), count) && Nearest(r2, key, Addressed(c2, known), count)
    ensures r1 == r2
  {
    AddressedDistinct(c1, known);
    AddressedDistinct(c2, known);
    AddressedMembers(c1, known);
    AddressedMembers(c2, known);
    ChoiceIndependent(key, Addressed(c1, known), Addressed(c2, known), count, r1, r2);
  }

  /** FindClosestNodes: the first `count` of the sorted peers with addresses. */
  method FindClosestNodes(key: KeyHash, connected: seq<bytes>, known: set<bytes>, count: int)
    returns (r: seq<bytes>)
    ensures Nearest(r, key, Addressed(connected, known), count)
  {
    var entries := Measure(key, connected, known);
    var a := new Entry[|entries|](i requires 0 <= i < |entries| => entries[i]);
    assert a[..] == entries;
    SortPeersByDistance(a);
    ghost var sorted := a[..];
    r := [];
    var i := 0;
    while i < a.Length && i < count
      invariant i == |r| <= a.Length && (i == 0 || i <= count)
      invariant a[..] == sorted
      invariant forall k :: 0 <= k < i ==> r[k] == sorted[k].peer
    {
      r := r + [a[i].peer];
      i := i + 1;
    }
    assert FirstOf(r, sorted, count);
  }

  /** The distances of the connected peers; those without addresses are skipped. */
  method Measure(key: KeyHash, connected: seq<bytes>, known: set<bytes>) returns (entries: seq<Entry>)
    ensures entries == Entries(key, Addressed(connected, known))
  {
    entries := [];
    for i := 0 to |connected|
      invariant entries == Entries(key, Addressed(connected[..i], known))
    {
      assert connected[..i + 1][..i] == connected[..i];
      if connected[i] !in known {
        continue;
      }
      ghost var before := Addressed(connected[..i], known);
      assert (before + [connected[i]])[..|before|] == before;
      var d := XorDistanceBytes(key, connected[i]);
      entries := entries + [Entry(connected[i], d[..])];
    }
    assert connected[..|connected|] == connected;
  }
}
