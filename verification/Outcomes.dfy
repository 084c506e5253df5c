/** Which peers the shards go to, and which result a store or a repair reports. */
module Outcomes {
  import opened Bytes
  import opened Erasure
  import opened Distributed
  import opened Repair

  // ---- The peers chosen ----

  /** How many peers listed before the k-th are not the node itself. */
  function Rank(self: PeerId, closest: seq<PeerId>, k: nat): int
    requires k <= |closest|
  {
    k - multiset(closest[..k])[self]
  }

  lemma RankNext(self: PeerId, closest: seq<PeerId>, k: nat)
    requires k < |closest|
    ensures Rank(self, closest, k + 1) == Rank(self, closest, k) + if closest[k] == self then 0 else 1
  {
    assert closest[..k + 1] == closest[..k] + [closest[k]];
  }

  lemma {:induction false} OthersCount(self: PeerId, closest: seq<PeerId>, k: nat)
    requires k <= |closest|
    ensures |Others(self, closest[..k])| == Rank(self, closest, k)
    decreases k
  {
    if k > 0 {
      OthersCount(self, closest, k - 1);
      RankNext(self, closest, k - 1);
      assert closest[..k][..k - 1] == closest[..k - 1];
    }
  }

  /** The peer listed at `k` stands behind exactly the other peers listed before it. */
  lemma {:induction false} OthersAt(self: PeerId, closest: seq<PeerId>, k: nat, n: nat)
    requires k < n <= |closest| && closest[k] != self
    ensures 0 <= Rank(self, closest, k) < |Others(self, closest[..n])|
    ensures Others(self, closest[..n])[Rank(self, closest, k)] == closest[k]
    decreases n
  {
    assert closest[..n][..n - 1] == closest[..n - 1];
    if k < n - 1 {
      OthersAt(self, closest, k, n - 1);
    } else {
      OthersCount(self, closest, k);
    }
  }

  lemma OthersRank(self: PeerId, closest: seq<PeerId>, k: nat)
    requires k <= |closest|
    ensures 0 <= Rank(self, closest, k) && Rank(self, closest, |closest|) == |Others(self, closest)|
    ensures k < |closest| && closest[k] != self ==>
      Rank(self, closest, k) < |Others(self, closest)| && Others(self, closest)[Rank(self, closest, k)] == closest[k]
  {
    assert closest[..|closest|] == closest;
    OthersCount(self, closest, k);
    OthersCount(self, closest, |closest|);
    if k < |closest| && closest[k] != self {
      OthersAt(self, closest, k, |closest|);
    }
  }

  /** Shards go to the peers listed, the node itself left out, in the order listed. */
  lemma PeerForShard(self: PeerId, closest: seq<PeerId>, k: nat)
    requires k < |closest| && closest[k] != self
    ensures Rank(self, closest, k) >= 0
    ensures NodeFor(self, StorageNodes(self, closest), Rank(self, closest, k)) == closest[k]
  {
    OthersRank(self, closest, k);
  }

  /** The shards for which there is no other peer stay with the node. */
  lemma SelfForShard(self: PeerId, closest: seq<PeerId>, i: nat)
    requires i >= Rank(self, closest, |closest|)
    ensures NodeFor(self, StorageNodes(self, closest), i) == self
  {
    OthersRank(self, closest, |closest|);
  }

  /** With another peer for each shard none goes to the node itself. */
  lemma {:induction false} OthersAreOthers(self: PeerId, closest: seq<PeerId>)
    ensures self !in Others(self, closest)
    decreases |closest|
  {
    if closest != [] {
      OthersAreOthers(self, closest[..|closest| - 1]);
    }
  }

  lemma NotSelf(self: PeerId, closest: seq<PeerId>, i: nat)
    requires Rank(self, closest, |closest|) >= TOTAL && i < TOTAL
    ensures NodeFor(self, StorageNodes(self, closest), i) != self
  {
    OthersRank(self, closest, |closest|);
    OthersAreOthers(self, closest);
    assert Others(self, closest)[i] in Others(self, closest);
  }

  // ---- Storing ----

  /** A successful store records each acknowledged shard at the peer listed for it, which holds it. */
  lemma StorePlaces(c: Chunk, code: Code, w: World, data: bytes, closest: seq<PeerId>, localOk: seq<bool>, out: seq<Outcome>,
                    k: nat, i: nat)
    requires code.Lawful() && |localOk| == |out| == TOTAL
    requires StoreChunk(c, code, w, data, closest, localOk, out).1.Done?
    requires k < |closest| && closest[k] != c.self && closest[k] in w.up
    requires i == Rank(c.self, closest, k) && i < TOTAL && out[i].Acked?
    ensures var w' := StoreChunk(c, code, w, data, closest, localOk, out).0;
            && data != [] && |w'.locations| == TOTAL && w'.locations[i] == Location(i, closest[k])
            && (w'.locations[i] != NOWHERE ==> Held(c, w', code.Codeword(Split(data)), i))
  {
    PeerForShard(c.self, closest, k);
    assert Reaches(c, w, closest[k], out[i]);
    StorePlacesAt(c, code, w, data, closest, localOk, out, i);
  }

  lemma StorePlacesAt(c: Chunk, code: Code, w: World, data: bytes, closest: seq<PeerId>, localOk: seq<bool>, out: seq<Outcome>,
                      i: nat)
    requires code.Lawful() && |localOk| == |out| == TOTAL && i < TOTAL
    requires StoreChunk(c, code, w, data, closest, localOk, out).1.Done?
    ensures var w' := StoreChunk(c, code, w, data, closest, localOk, out).0;
            var p := NodeFor(c.self, StorageNodes(c.self, closest), i);
            && data != [] && |w'.locations| == TOTAL
            && w'.locations[i] == (if Reaches(c, w, p, out[i]) && out[i].Acked? then Location(i, p) else NOWHERE)
            && (w'.locations[i] != NOWHERE ==> Held(c, w', code.Codeword(Split(data)), i))
  {
    var shards := code.Codeword(Split(data));
    var nodes := StorageNodes(c.self, closest);
    PlaceAt(c, PrestoreRest(c, w, shards, nodes, localOk).0, shards, nodes, out, i);
  }

  lemma PlaceAt(c: Chunk, w: World, shards: seq<bytes>, nodes: seq<PeerId>, out: seq<Outcome>, i: nat)
    requires |shards| == |out| == TOTAL && i < TOTAL
    ensures var w' := Place(c, w, shards, nodes, out);
            var p := NodeFor(c.self, nodes, i);
            && |w'.locations| == TOTAL
            && w'.locations[i] == (if Reaches(c, w, p, out[i]) && out[i].Acked? then Location(i, p) else NOWHERE)
            && (Reaches(c, w, p, out[i]) && out[i].Acked? ==> Held(c, w', shards, i))
  {
    DistributeHeldIff(c, w.(locations := Repeat(NOWHERE, TOTAL)), shards, nodes, out, Repeat(false, TOTAL), TOTAL, i);
  }

  /** The stores of a peer that no shard goes to stay as they are. */
  lemma {:induction false} DistributeSpares(c: Chunk, w: World, shards: seq<bytes>, nodes: seq<PeerId>, out: seq<Outcome>,
                                            skip: seq<bool>, n: nat, q: PeerId)
    requires n <= TOTAL && |shards| == |skip| == |out| == |w.locations| == TOTAL
    requires forall i :: 0 <= i < n ==> NodeFor(c.self, nodes, i) != q
    ensures StoreOf(Distribute(c, w, shards, nodes, out, skip, n), q) == StoreOf(w, q)
    decreases n
  {
    if n > 0 {
      DistributeSpares(c, w, shards, nodes, out, skip, n - 1, q);
    }
  }

  /** With fifteen other peers nothing enters the node's own store, whatever the outcome. */
  lemma StoreSparesSelf(c: Chunk, code: Code, w: World, data: bytes, closest: seq<PeerId>, localOk: seq<bool>, out: seq<Outcome>)
    requires code.Lawful() && |localOk| == |out| == TOTAL && Rank(c.self, closest, |closest|) >= TOTAL
    ensures StoreOf(StoreChunk(c, code, w, data, closest, localOk, out).0, c.self) == StoreOf(w, c.self)
  {
    if data != [] {
      OthersRank(c.self, closest, |closest|);
      PlaceSpares(c, w, code.Codeword(Split(data)), closest, out);
    }
  }

  lemma PlaceSpares(c: Chunk, w: World, shards: seq<bytes>, closest: seq<PeerId>, out: seq<Outcome>)
    requires |shards| == |out| == TOTAL && Rank(c.self, closest, |closest|) >= TOTAL
    ensures StoreOf(Place(c, w, shards, StorageNodes(c.self, closest), out), c.self) == StoreOf(w, c.self)
  {
    var nodes := StorageNodes(c.self, closest);
    forall i | 0 <= i < TOTAL
      ensures NodeFor(c.self, nodes, i) != c.self
    {
      NotSelf(c.self, closest, i);
    }
    DistributeSpares(c, w.(locations := Repeat(NOWHERE, TOTAL)), shards, nodes, out, Repeat(false, TOTAL), TOTAL, c.self);
  }

  /** How many of the first `n` store calls fail. */
  function FailedStores(c: Chunk, w: World, nodes: seq<PeerId>, out: seq<Outcome>, n: nat): nat
    requires n <= |out|
  {
    if n == 0 then 0
    else
      FailedStores(c, w, nodes, out, n - 1) +
        if Reaches(c, w, NodeFor(c.self, nodes, n - 1), out[n - 1]) && out[n - 1].Acked? then 0 else 1
  }

  lemma {:induction false} UnplacedAreFailed(c: Chunk, w: World, nodes: seq<PeerId>, out: seq<Outcome>, ls: seq<Location>, n: nat)
    requires n <= |out| == |ls| && c.self != NO_PEER && NO_PEER !in nodes
    requires forall i :: 0 <= i < n ==>
      var p := NodeFor(c.self, nodes, i);
      ls[i] == if Reaches(c, w, p, out[i]) && out[i].Acked? then Location(i, p) else NOWHERE
    ensures Unplaced(ls[..n]) == FailedStores(c, w, nodes, out, n)
    decreases n
  {
    if n > 0 {
      UnplacedAreFailed(c, w, nodes, out, ls, n - 1);
      assert ls[..n][..n - 1] == ls[..n - 1];
      assert ls[n - 1] == ls[..n][n - 1];
    }
  }

  ghost predicate AllOk(localOk: seq<bool>, from: nat, n: nat)
    requires n <= |localOk|
  {
    forall i :: from <= i < n ==> localOk[i]
  }

  lemma AllOkNext(localOk: seq<bool>, from: nat, n: nat)
    requires from < n <= |localOk|
    ensures AllOk(localOk, from, n) <==> AllOk(localOk, from, n - 1) && localOk[n - 1]
  {
  }

  lemma {:induction false} PrestoreDone(c: Chunk, w: World, shards: seq<bytes>, from: nat, n: nat, localOk: seq<bool>)
    requires from <= n <= TOTAL && |shards| == |localOk| == TOTAL
    ensures AllOk(localOk, from, n) <==> Prestore(c, w, shards, from, n, localOk).1
    decreases n
  {
    if n > from {
      PrestoreDone(c, w, shards, from, n - 1, localOk);
      AllOkNext(localOk, from, n);
    }
  }

  /** What is put aside locally is the shards, and nothing else changes. */
  lemma {:induction false} PrestoreHolds(c: Chunk, w: World, shards: seq<bytes>, from: nat, n: nat, localOk: seq<bool>, i: nat)
    requires from <= i < n <= TOTAL && |shards| == |localOk| == TOTAL && Prestore(c, w, shards, from, n, localOk).1
    ensures var own := StoreOf(Prestore(c, w, shards, from, n, localOk).0, c.self); c.Key(i) in own && own[c.Key(i)] == shards[i]
    decreases n
  {
    var w1 := Prestore(c, w, shards, from, n - 1, localOk).0;
    assert Prestore(c, w, shards, from, n, localOk).0 == Put(w1, c.self, c.Key(n - 1), shards[n - 1]);
    if i < n - 1 {
      PrestoreHolds(c, w, shards, from, n - 1, localOk, i);
      PutKeeps(c, w1, n - 1, shards[n - 1], i);
    }
  }

  lemma PutKeeps(c: Chunk, w: World, j: nat, data: bytes, i: nat)
    requires i != j
    ensures var own, own' := StoreOf(w, c.self), StoreOf(Put(w, c.self, c.Key(j), data), c.self);
            (c.Key(i) in own <==> c.Key(i) in own') && (c.Key(i) in own ==> own'[c.Key(i)] == own[c.Key(i)])
  {
    assert c.Key(i) != c.Key(j);
  }

  lemma {:induction false} PrestoreSpares(c: Chunk, w: World, shards: seq<bytes>, from: nat, n: nat, localOk: seq<bool>, q: PeerId)
    requires from <= n <= TOTAL && |shards| == |localOk| == TOTAL && q != c.self
    ensures StoreOf(Prestore(c, w, shards, from, n, localOk).0, q) == StoreOf(w, q)
    decreases n
  {
    if n > from {
      PrestoreSpares(c, w, shards, from, n - 1, localOk, q);
    }
  }

  /**
   A store succeeds if and only if there is something to store, the shards without a peer of their own could be put aside
   locally, and at most five of the fifteen store calls failed.
   */
  lemma StoreDoneIff(c: Chunk, code: Code, w: World, data: bytes, closest: seq<PeerId>, localOk: seq<bool>, out: seq<Outcome>)
    requires code.Lawful() && c.self != NO_PEER && RealPeers(closest) && |localOk| == |out| == TOTAL
    ensures var nodes := StorageNodes(c.self, closest);
            StoreChunk(c, code, w, data, closest, localOk, out).1.Done? <==>
              && data != [] && AllOk(localOk, |nodes|, TOTAL)
              && FailedStores(c, w, nodes, out, TOTAL) <= PARITY
  {
    if data != [] {
      var shards, nodes := code.Codeword(Split(data)), StorageNodes(c.self, closest);
      if |nodes| < TOTAL {
        PrestoreDone(c, w, shards, |nodes|, TOTAL, localOk);
      }
      NodesAreReal(c.self, closest);
      PlaceFails(c, w, PrestoreRest(c, w, shards, nodes, localOk).0, shards, nodes, out);
    }
  }

  lemma PlaceFails(c: Chunk, w: World, w1: World, shards: seq<bytes>, nodes: seq<PeerId>, out: seq<Outcome>)
    requires |shards| == |out| == TOTAL && c.self != NO_PEER && NO_PEER !in nodes && w1.up == w.up
    ensures Unplaced(Place(c, w1, shards, nodes, out).locations) == FailedStores(c, w, nodes, out, TOTAL)
  {
    var ls := Place(c, w1, shards, nodes, out).locations;
    forall i | 0 <= i < TOTAL
      ensures |ls| == TOTAL
      ensures var p := NodeFor(c.self, nodes, i);
              ls[i] == if Reaches(c, w, p, out[i]) && out[i].Acked? then Location(i, p) else NOWHERE
    {
      PlaceAt(c, w1, shards, nodes, out, i);
    }
    PlaceAt(c, w1, shards, nodes, out, 0);
    UnplacedAreFailed(c, w, nodes, out, ls, TOTAL);
    assert ls[..TOTAL] == ls;
  }

  // ---- Repairing ----

  /** A repair that proceeds records a missing shard whose store call is acknowledged at the peer listed for it. */
  lemma RepairPlaces(c: Chunk, code: Code, w: World, data: bytes, p: Plan, k: nat)
    requires code.Lawful() && data != [] && p.Legal() && Safe(c, w, code.Codeword(Split(data))) && Indexed(w)
    requires Repairable(c, w, p) && k < |p.closest| && p.closest[k] != c.self && p.closest[k] in w.up
    requires 0 <= Rank(c.self, p.closest, k) < TOTAL && p.out[Rank(c.self, p.closest, k)].Acked?
    requires !Status(c, w, p.order, p.pings, |p.order|)[Rank(c.self, p.closest, k)]
    ensures var w' := RepairChunk(c, code, w, p).0;
            var i := Rank(c.self, p.closest, k);
            && |w'.locations| == TOTAL && w'.locations[i] == Location(i, p.closest[k])
            && Held(c, w', code.Codeword(Split(data)), i)
  {
    PeerForShard(c.self, p.closest, k);
    RepairRestores(c, code, w, data, p, Rank(c.self, p.closest, k));
    RepairKeepsSafe(c, code, w, data, p);
  }

  lemma RepairSparesSelf(c: Chunk, code: Code, w: World, data: bytes, p: Plan)
    requires code.Lawful() && data != [] && p.Legal() && Safe(c, w, code.Codeword(Split(data))) && Indexed(w)
    requires Rank(c.self, p.closest, |p.closest|) >= TOTAL
    ensures StoreOf(RepairChunk(c, code, w, p).0, c.self) == StoreOf(w, c.self)
  {
    RepairRebuilds(c, code, w, data, p);
    forall i | 0 <= i < TOTAL
      ensures NodeFor(c.self, StorageNodes(c.self, p.closest), i) != c.self
    {
      NotSelf(c.self, p.closest, i);
    }
    DistributeSpares(c, w, code.Codeword(Split(data)), StorageNodes(c.self, p.closest), p.out,
                     Status(c, w, p.order, p.pings, |p.order|), TOTAL, c.self);
  }

  lemma {:induction false} StoredSome(c: Chunk, w: World, shards: seq<bytes>, nodes: seq<PeerId>, out: seq<Outcome>,
                                      skip: seq<bool>, n: nat)
    requires n <= TOTAL && |shards| == |skip| == |out| == |w.locations| == TOTAL
    ensures Stored(c, w, shards, nodes, out, skip, n) > 0 <==> exists i :: 0 <= i < n && Succeeds(c, w, nodes, out, skip, i)
    decreases n
  {
    if n > 0 {
      StoredSome(c, w, shards, nodes, out, skip, n - 1);
      StoredNext(c, w, shards, nodes, out, skip, n);
    }
  }

  /** The shard is missing and its store call is acknowledged. */
  ghost predicate Succeeds(c: Chunk, w: World, nodes: seq<PeerId>, out: seq<Outcome>, skip: seq<bool>, i: nat)
    requires i < |skip| && i < |out|
  {
    !skip[i] && out[i].Acked? && Reaches(c, w, NodeFor(c.self, nodes, i), out[i])
  }

  lemma StoredNext(c: Chunk, w: World, shards: seq<bytes>, nodes: seq<PeerId>, out: seq<Outcome>, skip: seq<bool>, n: nat)
    requires 0 < n <= TOTAL && |shards| == |skip| == |out| == |w.locations| == TOTAL
    ensures Stored(c, w, shards, nodes, out, skip, n)
            == Stored(c, w, shards, nodes, out, skip, n - 1) + if Succeeds(c, w, nodes, out, skip, n - 1) then 1 else 0
  {
    assert Distribute(c, w, shards, nodes, out, skip, n - 1).up == w.up by {
      DistributeHeldIff(c, w, shards, nodes, out, skip, n - 1, 0);
    }
  }

  /** Which result a repair reports. */
  lemma RepairReports(c: Chunk, code: Code, w: World, data: bytes, p: Plan)
    requires code.Lawful() && data != [] && p.Legal() && Safe(c, w, code.Codeword(Split(data))) && Indexed(w)
    ensures var status := Status(c, w, p.order, p.pings, |p.order|);
            RepairChunk(c, code, w, p).1
            == if Count(status) >= TOTAL then Done(())
               else if !Repairable(c, w, p) then Failed(TooFewRetrieved)
               else if Stored(c, w, code.Codeword(Split(data)), StorageNodes(c.self, p.closest), p.out, status, TOTAL) == 0
               then Failed(NothingStored) else Done(())
  {
    RepairIs(c, code, w, data, p);
  }

  /** The store call of some missing shard is acknowledged. */
  ghost predicate SomeStored(c: Chunk, w: World, p: Plan)
    requires p.Legal() && Indexed(w)
  {
    exists i :: 0 <= i < TOTAL &&
      Succeeds(c, w, StorageNodes(c.self, p.closest), p.out, Status(c, w, p.order, p.pings, |p.order|), i)
  }

  /**
   A repair reports success if and only if all shards count as available, or it proceeds and the store call of at least
   one missing shard is acknowledged.
   */
  lemma RepairDoneIff(c: Chunk, code: Code, w: World, data: bytes, p: Plan)
    requires code.Lawful() && data != [] && p.Legal() && Safe(c, w, code.Codeword(Split(data))) && Indexed(w)
    ensures RepairChunk(c, code, w, p).1.Done? <==>
            Count(Status(c, w, p.order, p.pings, |p.order|)) >= TOTAL || (Repairable(c, w, p) && SomeStored(c, w, p))
  {
    RepairReports(c, code, w, data, p);
    StoredSome(c, w, code.Codeword(Split(data)), StorageNodes(c.self, p.closest), p.out,
               Status(c, w, p.order, p.pings, |p.order|), TOTAL);
  }
}
