/** Erasure-coded storage spread over peers, with retrieval and repair, of pkg/meshstorage/distributed.go. */
module Distributed {
  import opened Bytes
  import opened ShardKeys
  import opened Erasure

  type PeerId = string

  /** The zero peer.ID, which no connected peer has. */
  const NO_PEER: PeerId := ""

  /** LocalStorage rows: (shard key, shard index) to bytes. */
  type Store = map<(string, int), bytes>

  datatype Location = Location(index: nat, peer: PeerId)

  /** A shard that could not be stored leaves the zero value in the location list. */
  const NOWHERE := Location(0, NO_PEER)

  /** What every node holds, which peers answer, and the chunk's list of shard locations. */
  datatype World = World(stores: map<PeerId, Store>, up: set<PeerId>, locations: seq<Location>)

  /** The chunk and the node that manages it. */
  datatype Chunk = Chunk(self: PeerId, user: string, id: int) {
    function Key(i: nat): (string, int) {
      (ShardKey(user, id, i), i)
    }
  }

  /** Outcome of a store call: done and acknowledged, not done, or done with the acknowledgement lost. */
  datatype Outcome = Acked | Refused | Unacknowledged

  function StoreOf(w: World, p: PeerId): Store {
    if p in w.stores then w.stores[p] else map[]
  }

  function Put(w: World, p: PeerId, key: (string, int), data: bytes): World {
    w.(stores := w.stores[p := StoreOf(w, p)[key := data]])
  }

  /** A local store, or a StoreChunk RPC to a peer that may be down; true when the caller sees success. */
  function StoreShard(c: Chunk, w: World, p: PeerId, i: nat, data: bytes, out: Outcome): (World, bool) {
    if p == c.self then (if out.Acked? then Put(w, p, c.Key(i), data) else w, out.Acked?)
    else if p !in w.up || out.Refused? then (w, false)
    else (Put(w, p, c.Key(i), data), out.Acked?)
  }

  /** A local read, or a GetChunk RPC that may fail. */
  function FetchShard(c: Chunk, w: World, p: PeerId, i: nat, answers: bool): Option<bytes> {
    if (p == c.self || (p in w.up && answers)) && c.Key(i) in StoreOf(w, p) then Some(StoreOf(w, p)[c.Key(i)]) else None
  }

  // ---- Placing shards ----

  /** The peers found nearest, without the node itself, which is added once when they are too few. */
  function StorageNodes(self: PeerId, closest: seq<PeerId>): seq<PeerId> {
    var others := Others(self, closest);
    if |others| < TOTAL then others + [self] else others
  }

  function Others(self: PeerId, closest: seq<PeerId>): seq<PeerId> {
    if closest == [] then []
    else
      var rest := Others(self, closest[..|closest| - 1]);
      if closest[|closest| - 1] != self then rest + [closest[|closest| - 1]] else rest
  }

  /** The node for shard i; shards beyond the list stay local. */
  function NodeFor(self: PeerId, nodes: seq<PeerId>, i: nat): PeerId {
    if i < |nodes| then nodes[i] else self
  }

  /** Store the shards below `n` that are not marked `skip`, recording a location for each success. */
  function Distribute(c: Chunk, w: World, shards: seq<bytes>, nodes: seq<PeerId>, out: seq<Outcome>, skip: seq<bool>, n: nat)
    : (r: World)
    requires n <= TOTAL && |shards| == |skip| == |out| == |w.locations| == TOTAL
    ensures |r.locations| == TOTAL
    decreases n
  {
    if n == 0 then w
    else
      var w1 := Distribute(c, w, shards, nodes, out, skip, n - 1);
      if skip[n - 1] then w1 else PlaceOne(c, w1, NodeFor(c.self, nodes, n - 1), n - 1, shards[n - 1], out[n - 1])
  }

  /** Store one shard, and record where it went if that succeeded. */
  function PlaceOne(c: Chunk, w: World, p: PeerId, i: nat, data: bytes, out: Outcome): World
    requires i < |w.locations|
  {
    var (w', ok) := StoreShard(c, w, p, i, data, out);
    if ok then w'.(locations := w'.locations[i := Location(i, p)]) else w'
  }

  // ---- Safety of what is recorded ----

  /** A recorded location never holds other bytes than the shard it is recorded for. */
  ghost predicate Sound(c: Chunk, w: World, shards: seq<bytes>, i: nat)
    requires i < |w.locations| && i < |shards|
  {
    var l := w.locations[i];
    || l == NOWHERE
    || (l.index == i && l.peer != NO_PEER
        && (c.Key(i) in StoreOf(w, l.peer) ==> StoreOf(w, l.peer)[c.Key(i)] == shards[i]))
  }

  ghost predicate Safe(c: Chunk, w: World, shards: seq<bytes>) {
    && |w.locations| == TOTAL && |shards| == TOTAL
    && c.self != NO_PEER && NO_PEER !in w.up
    && forall i :: 0 <= i < TOTAL ==> Sound(c, w, shards, i)
  }

  /** Storing the right bytes for one shard keeps every recorded location sound. */
  lemma StoreKeepsSafe(c: Chunk, w: World, shards: seq<bytes>, p: PeerId, i: nat, out: Outcome)
    requires Safe(c, w, shards) && i < TOTAL && (p == c.self || p != NO_PEER)
    ensures var (w', ok) := StoreShard(c, w, p, i, shards[i], out);
            && Safe(c, w', shards) && w'.locations == w.locations && w'.up == w.up
            && (ok ==> c.Key(i) in StoreOf(w', p) && StoreOf(w', p)[c.Key(i)] == shards[i])
            && (ok ==> Safe(c, w'.(locations := w'.locations[i := Location(i, p)]), shards))
  {
    var (w', ok) := StoreShard(c, w, p, i, shards[i], out);
    forall j | 0 <= j < TOTAL
      ensures Sound(c, w', shards, j)
    {
      assert Sound(c, w, shards, j);
    }
    if ok {
      var w2 := w'.(locations := w'.locations[i := Location(i, p)]);
      forall j | 0 <= j < TOTAL
        ensures Sound(c, w2, shards, j)
      {
        assert Sound(c, w', shards, j);
      }
    }
  }

  /** Storing and recording one shard keeps the other locations, what they hold, and soundness. */
  lemma PlaceOneKeepsSafe(c: Chunk, w: World, shards: seq<bytes>, p: PeerId, i: nat, out: Outcome)
    requires Safe(c, w, shards) && i < TOTAL && (p == c.self || p != NO_PEER)
    ensures var w' := PlaceOne(c, w, p, i, shards[i], out);
            && Safe(c, w', shards) && w'.up == w.up
            && (w'.locations[i] != w.locations[i] ==> Held(c, w', shards, i))
            && (forall j :: 0 <= j < TOTAL && j != i ==> w'.locations[j] == w.locations[j])
            && (forall j :: 0 <= j < TOTAL && Held(c, w, shards, j) ==> Held(c, w', shards, j))
  {
    StoreKeepsSafe(c, w, shards, p, i, out);
    forall j | 0 <= j < TOTAL && Held(c, w, shards, j)
      ensures Held(c, PlaceOne(c, w, p, i, shards[i], out), shards, j)
    {
      PlaceOneKeepsHeld(c, w, shards, p, i, out, j);
    }
  }

  /** The store call leaves the shard at the peer, acknowledged or not. */
  predicate Reaches(c: Chunk, w: World, p: PeerId, out: Outcome) {
    if p == c.self then out.Acked? else p in w.up && !out.Refused?
  }

  /** The i-th store call puts its shard where it is, or is then, recorded. */
  predicate Restores(c: Chunk, w: World, p: PeerId, out: Outcome, i: nat)
    requires i < |w.locations|
  {
    Reaches(c, w, p, out) && (out.Acked? || w.locations[i] == Location(i, p))
  }

  /** Neither where the shard is recorded nor whether it is held has changed. */
  ghost predicate Untouched(c: Chunk, w: World, w': World, shards: seq<bytes>, i: nat)
    requires |w.locations| == |shards| == TOTAL && i < TOTAL
  {
    && |w'.locations| == TOTAL && w'.up == w.up && w'.locations[i] == w.locations[i]
    && (Held(c, w', shards, i) <==> Held(c, w, shards, i))
  }

  /** The shard's store call has run: it is recorded anew if that was acknowledged, and held if it was or is restored. */
  ghost predicate Attempted(c: Chunk, w: World, w': World, shards: seq<bytes>, p: PeerId, out: Outcome, i: nat)
    requires |w.locations| == |shards| == TOTAL && i < TOTAL
  {
    && |w'.locations| == TOTAL && w'.up == w.up
    && w'.locations[i] == (if Reaches(c, w, p, out) && out.Acked? then Location(i, p) else w.locations[i])
    && (Held(c, w', shards, i) <==> Held(c, w, shards, i) || Restores(c, w, p, out, i))
  }

  /** Storing and recording one shard changes neither the location of another nor whether it is held. */
  lemma PlaceOther(c: Chunk, w: World, shards: seq<bytes>, p: PeerId, j: nat, out: Outcome, i: nat)
    requires |w.locations| == |shards| == TOTAL && i < TOTAL && j < TOTAL && i != j
    ensures Untouched(c, w, PlaceOne(c, w, p, j, shards[j], out), shards, i)
  {
    assert c.Key(i) != c.Key(j);
    var w1, q := StoreShard(c, w, p, j, shards[j], out).0, w.locations[i].peer;
    assert c.Key(i) in StoreOf(w1, q) <==> c.Key(i) in StoreOf(w, q);
    assert c.Key(i) in StoreOf(w, q) ==> StoreOf(w1, q)[c.Key(i)] == StoreOf(w, q)[c.Key(i)];
  }

  lemma PlaceOwn(c: Chunk, w: World, shards: seq<bytes>, p: PeerId, out: Outcome, i: nat)
    requires |w.locations| == |shards| == TOTAL && i < TOTAL
    ensures Attempted(c, w, PlaceOne(c, w, p, i, shards[i], out), shards, p, out, i)
  {
    if Reaches(c, w, p, out) {
      PutHolds(c, w, p, i, shards[i], w.locations[i].peer);
    }
  }

  lemma PutHolds(c: Chunk, w: World, p: PeerId, i: nat, data: bytes, q: PeerId)
    ensures var w' := Put(w, p, c.Key(i), data);
            && w'.locations == w.locations && w'.up == w.up
            && c.Key(i) in StoreOf(w', p) && StoreOf(w', p)[c.Key(i)] == data
            && (q != p ==> StoreOf(w', q) == StoreOf(w, q))
  {
  }

  /** A shard that is held stays held, whatever happens to the store of this or another shard. */
  lemma PlaceOneKeepsHeld(c: Chunk, w: World, shards: seq<bytes>, p: PeerId, i: nat, out: Outcome, j: nat)
    requires |w.locations| == |shards| == TOTAL && i < TOTAL && j < TOTAL && Held(c, w, shards, j)
    ensures Held(c, PlaceOne(c, w, p, i, shards[i], out), shards, j)
  {
    if i == j {
      PlaceOwn(c, w, shards, p, out, i);
    } else {
      PlaceOther(c, w, shards, p, i, out, j);
    }
  }

  /** Storing any selection of the shards keeps every recorded location sound, and records only what is held. */
  lemma {:induction false} DistributeKeepsSafe(c: Chunk, w: World, shards: seq<bytes>, nodes: seq<PeerId>, out: seq<Outcome>,
                                               skip: seq<bool>, n: nat)
    requires Safe(c, w, shards) && n <= TOTAL && |skip| == |out| == TOTAL && NO_PEER !in nodes
    ensures var w' := Distribute(c, w, shards, nodes, out, skip, n);
            && Safe(c, w', shards) && w'.up == w.up
            && forall i :: 0 <= i < TOTAL && w'.locations[i] != w.locations[i] ==>
                 i < n && !skip[i] && Held(c, w', shards, i)
    decreases n
  {
    if n > 0 {
      DistributeKeepsSafe(c, w, shards, nodes, out, skip, n - 1);
      var w1 := Distribute(c, w, shards, nodes, out, skip, n - 1);
      if !skip[n - 1] {
        PlaceOneKeepsSafe(c, w1, shards, NodeFor(c.self, nodes, n - 1), n - 1, out[n - 1]);
      }
    }
  }

  /** The recorded node holds the shard. */
  ghost predicate Held(c: Chunk, w: World, shards: seq<bytes>, i: nat)
    requires i < |w.locations| && i < |shards|
  {
    var p := w.locations[i].peer;
    w.locations[i].index == i && c.Key(i) in StoreOf(w, p) && StoreOf(w, p)[c.Key(i)] == shards[i]
  }

  // ---- Storing ----

  datatype Error = CodingFailed(error: Failure) | LocalStoreFailed | TooManyFailures | TooFewRetrieved | NothingStored

  datatype Done<+T> = Done(value: T) | Failed(error: Error)

  /** Shards without a peer of their own are first stored locally, one by one, stopping at the first error. */
  function Prestore(c: Chunk, w: World, shards: seq<bytes>, from: nat, n: nat, localOk: seq<bool>): (r: (World, bool))
    requires from <= n <= TOTAL && |shards| == |localOk| == TOTAL
    ensures r.0.locations == w.locations && r.0.up == w.up
    decreases n
  {
    if n == from then (w, true)
    else
      var (w1, ok) := Prestore(c, w, shards, from, n - 1, localOk);
      if ok && localOk[n - 1] then (Put(w1, c.self, c.Key(n - 1), shards[n - 1]), true) else (w1, false)
  }

  function Unplaced(ls: seq<Location>): nat {
    if ls == [] then 0 else Unplaced(ls[..|ls| - 1]) + if ls[|ls| - 1] == NOWHERE then 1 else 0
  }

  function Repeat<T>(x: T, n: nat): (r: seq<T>)
    ensures |r| == n && forall i :: 0 <= i < n ==> r[i] == x
  {
    if n == 0 then [] else Repeat(x, n - 1) + [x]
  }

  function PrestoreRest(c: Chunk, w: World, shards: seq<bytes>, nodes: seq<PeerId>, localOk: seq<bool>): (r: (World, bool))
    requires |shards| == |localOk| == TOTAL
    ensures r.0.locations == w.locations && r.0.up == w.up
  {
    if |nodes| < TOTAL then Prestore(c, w, shards, |nodes|, TOTAL, localOk) else (w, true)
  }

  /** Place all shards anew. */
  function Place(c: Chunk, w: World, shards: seq<bytes>, nodes: seq<PeerId>, out: seq<Outcome>): World
    requires |shards| == |out| == TOTAL
  {
    Distribute(c, w.(locations := Repeat(NOWHERE, TOTAL)), shards, nodes, out, Repeat(false, TOTAL), TOTAL)
  }

  /** StoreDistributed; the world's locations are those of the chunk returned. */
  function StoreChunk(c: Chunk, code: Code, w: World, data: bytes, closest: seq<PeerId>, localOk: seq<bool>, out: seq<Outcome>)
    : (World, Done<()>)
    requires |localOk| == |out| == TOTAL
  {
    match Encode(code, data)
    case Err(e) => (w, Failed(CodingFailed(e)))
    case Ok(shards) =>
      if |shards| != TOTAL then (w, Failed(CodingFailed(WrongShardCount)))
      else
        var nodes := StorageNodes(c.self, closest);
        var (w1, ok) := PrestoreRest(c, w, shards, nodes, localOk);
        if !ok then (w1, Failed(LocalStoreFailed))
        else
          var w2 := Place(c, w1, shards, nodes, out);
          if Unplaced(w2.locations) > PARITY then (w2, Failed(TooManyFailures)) else (w2, Done(()))
  }

  /** Peers that are connected have a non-empty id. */
  ghost predicate RealPeers(closest: seq<PeerId>) {
    NO_PEER !in closest
  }

  lemma {:induction false} NodesAreReal(self: PeerId, closest: seq<PeerId>)
    requires RealPeers(closest)
    ensures NO_PEER !in Others(self, closest)
    decreases |closest|
  {
    if closest != [] {
      NodesAreReal(self, closest[..|closest| - 1]);
    }
  }

  /** After a successful store every recorded location holds its shard, and at most five shards are unplaced. */
  lemma StoreChunkSafe(c: Chunk, code: Code, w: World, data: bytes, closest: seq<PeerId>, localOk: seq<bool>, out: seq<Outcome>)
    requires code.Lawful() && c.self != NO_PEER && NO_PEER !in w.up && RealPeers(closest) && |localOk| == |out| == TOTAL
    requires StoreChunk(c, code, w, data, closest, localOk, out).1.Done?
    ensures var w' := StoreChunk(c, code, w, data, closest, localOk, out).0;
            var shards := code.Codeword(Split(data));
            && data != [] && Safe(c, w', shards) && Unplaced(w'.locations) <= PARITY
            && forall i :: 0 <= i < TOTAL && w'.locations[i] != NOWHERE ==> Held(c, w', shards, i)
  {
    var shards := code.Codeword(Split(data));
    var nodes := StorageNodes(c.self, closest);
    NodesAreReal(c.self, closest);
    PlaceSafe(c, PrestoreRest(c, w, shards, nodes, localOk).0, shards, nodes, out);
  }

  /** Placing anew forgets the old locations, so each location is empty or holds its shard. */
  lemma PlaceSafe(c: Chunk, w: World, shards: seq<bytes>, nodes: seq<PeerId>, out: seq<Outcome>)
    requires c.self != NO_PEER && NO_PEER !in w.up && NO_PEER !in nodes && |shards| == |out| == TOTAL
    ensures var w' := Place(c, w, shards, nodes, out);
            Safe(c, w', shards) && forall i :: 0 <= i < TOTAL && w'.locations[i] != NOWHERE ==> Held(c, w', shards, i)
  {
    DistributeKeepsSafe(c, w.(locations := Repeat(NOWHERE, TOTAL)), shards, nodes, out, Repeat(false, TOTAL), TOTAL);
  }

  // ---- Retrieving ----

  /** The shard slots after the first `n` locations have been asked: a slot is filled under the location's own index. */
  function Fetched(c: Chunk, w: World, answers: seq<bool>, n: nat): (r: (Partial, nat))
    requires n <= |w.locations| == |answers| == TOTAL && forall i :: 0 <= i < TOTAL ==> w.locations[i].index < TOTAL
    ensures |r.0| == TOTAL
    decreases n
  {
    if n == 0 then (Repeat(None, TOTAL), 0)
    else
      var (slots, count) := Fetched(c, w, answers, n - 1);
      var l := w.locations[n - 1];
      AddFetched(slots, count, l.index, FetchShard(c, w, l.peer, l.index, answers[n - 1]))
  }

  function AddFetched(slots: Partial, count: nat, i: nat, got: Option<bytes>): (r: (Partial, nat))
    requires i < |slots|
    ensures |r.0| == |slots|
  {
    if got.Some? then (slots[i := got], count + 1) else (slots, count)
  }

  function Retrieve(c: Chunk, code: Code, w: World, size: nat, answers: seq<bool>): Done<bytes>
    requires |w.locations| == |answers| == TOTAL && forall i :: 0 <= i < TOTAL ==> w.locations[i].index < TOTAL
  {
    var (slots, count) := Fetched(c, w, answers, TOTAL);
    if count < MIN_FOR_RECOVERY then Failed(TooFewRetrieved)
    else
      match Decode(code, EncodedData(slots, size))
      case Err(e) => Failed(CodingFailed(e))
      case Ok(data) => Done(data)
  }

  /** Shard i is recorded somewhere, that place can be asked, and it has the shard. */
  ghost predicate Reachable(c: Chunk, w: World, answers: seq<bool>, i: nat)
    requires i < |w.locations| == |answers|
  {
    var p := w.locations[i].peer;
    w.locations[i] != NOWHERE && (p == c.self || (p in w.up && answers[i])) && c.Key(i) in StoreOf(w, p)
  }

  ghost function ReachableCount(c: Chunk, w: World, answers: seq<bool>, n: nat): nat
    requires n <= |w.locations| == |answers|
  {
    if n == 0 then 0 else ReachableCount(c, w, answers, n - 1) + if Reachable(c, w, answers, n - 1) then 1 else 0
  }

  lemma {:induction false} PresentAfterFilling(p: Partial, i: nat, data: bytes)
    requires i < |p| && p[i].None?
    ensures Present(p[i := Some(data)]) == Present(p) + 1
    decreases |p|
  {
    var n := |p| - 1;
    if i < n {
      PresentAfterFilling(p[..n], i, data);
      assert p[i := Some(data)][..n] == p[..n][i := Some(data)];
    } else {
      assert p[i := Some(data)][..n] == p[..n];
    }
  }

  lemma {:induction false} NothingPresent(p: Partial)
    requires forall i :: 0 <= i < |p| ==> p[i].None?
    ensures Present(p) == 0
    decreases |p|
  {
    if p != [] {
      NothingPresent(p[..|p| - 1]);
    }
  }

  lemma IndexedIfSafe(c: Chunk, w: World, shards: seq<bytes>)
    requires Safe(c, w, shards)
    ensures forall i :: 0 <= i < TOTAL ==> w.locations[i].index < TOTAL
  {
    forall i | 0 <= i < TOTAL
      ensures w.locations[i].index < TOTAL
    {
      assert Sound(c, w, shards, i);
    }
  }

  /** In a safe world a location that answers at all answers with its own shard, and is reachable. */
  lemma FetchOneSafe(c: Chunk, w: World, shards: seq<bytes>, answers: seq<bool>, i: nat)
    requires Safe(c, w, shards) && i < |answers| == TOTAL
    ensures var l := w.locations[i];
            var got := FetchShard(c, w, l.peer, l.index, answers[i]);
            && (got.Some? <==> Reachable(c, w, answers, i))
            && (got.Some? ==> l.index == i && got.value == shards[i])
  {
    assert Sound(c, w, shards, i);
  }

  /** The slots agree with the shards, `count` of them are filled, and those from the n-th on are not. */
  ghost predicate Filled(slots: Partial, count: nat, shards: seq<bytes>, n: nat) {
    Agrees(slots, shards) && count == Present(slots) && forall i :: n <= i < |slots| ==> slots[i].None?
  }

  lemma FilledNext(slots: Partial, count: nat, shards: seq<bytes>, n: nat, got: Option<bytes>)
    requires Filled(slots, count, shards, n) && n < |slots| && (got.Some? ==> got.value == shards[n])
    ensures var (slots', count') := AddFetched(slots, count, n, got);
            Filled(slots', count', shards, n + 1) && count' == count + if got.Some? then 1 else 0
  {
    if got.Some? {
      PresentAfterFilling(slots, n, got.value);
    }
  }

  /** What has been fetched agrees with the shards, and is exactly the reachable shards asked so far. */
  lemma {:induction false} FetchedIsReachable(c: Chunk, w: World, shards: seq<bytes>, answers: seq<bool>, n: nat)
    requires Safe(c, w, shards) && n <= |answers| == TOTAL
    ensures forall i :: 0 <= i < TOTAL ==> w.locations[i].index < TOTAL
    ensures var (slots, count) := Fetched(c, w, answers, n);
            Filled(slots, count, shards, n) && count == ReachableCount(c, w, answers, n)
    decreases n
  {
    IndexedIfSafe(c, w, shards);
    if n == 0 {
      NothingPresent(Fetched(c, w, answers, 0).0);
    } else {
      FetchedIsReachable(c, w, shards, answers, n - 1);
      var (slots, count) := Fetched(c, w, answers, n - 1);
      FetchOneSafe(c, w, shards, answers, n - 1);
      var l := w.locations[n - 1];
      var got := FetchShard(c, w, l.peer, l.index, answers[n - 1]);
      FilledNext(slots, count, shards, n - 1, got);
      assert AddFetched(slots, count, l.index, got) == AddFetched(slots, count, n - 1, got);
    }
  }

  /** A retrieval gives exactly the stored bytes when ten recorded shards can be fetched, and nothing otherwise. */
  lemma RetrieveExact(c: Chunk, code: Code, w: World, data: bytes, answers: seq<bool>)
    requires code.Lawful() && data != [] && Safe(c, w, code.Codeword(Split(data))) && |answers| == TOTAL
    ensures forall i :: 0 <= i < TOTAL ==> w.locations[i].index < TOTAL
    ensures Retrieve(c, code, w, |data|, answers)
            == if ReachableCount(c, w, answers, TOTAL) >= MIN_FOR_RECOVERY then Done(data) else Failed(TooFewRetrieved)
  {
    var shards := code.Codeword(Split(data));
    FetchedIsReachable(c, w, shards, answers, TOTAL);
    DecodeEncode(code, data, Fetched(c, w, answers, TOTAL).0);
  }
}
