/** The storage manager as an object: the loops of distributed.go, each proved against its function. */
module StorageNode {
  import opened Bytes
  import opened Erasure
  import opened Distributed
  import opened Repair

  class DistributedChunk {
    const user: string
    const id: int
    const originalSize: nat
    var locations: seq<Location>

    constructor (user: string, id: int, size: nat, locations: seq<Location>)
      ensures this.user == user && this.id == id && originalSize == size && this.locations == locations
    {
      this.user, this.id, this.originalSize, this.locations := user, id, size, locations;
    }
  }

  /** `stores` and `up` are the network: what every node holds and which peers answer. */
  class DistributedStorage {
    const self: PeerId
    const code: Code
    var stores: map<PeerId, Store>
    var up: set<PeerId>

    constructor (self: PeerId, code: Code, stores: map<PeerId, Store>, up: set<PeerId>)
      ensures this.self == self && this.code == code && this.stores == stores && this.up == up
    {
      this.self, this.code, this.stores, this.up := self, code, stores, up;
    }

    ghost function WorldWith(locations: seq<Location>): World
      reads this
    {
      World(stores, up, locations)
    }

    /** One store call, local or remote. */
    method StoreOne(c: Chunk, p: PeerId, i: nat, data: bytes, out: Outcome, ghost ls: seq<Location>) returns (ok: bool)
      requires c.self == self
      modifies this`stores
      ensures (WorldWith(ls), ok) == StoreShard(c, old(WorldWith(ls)), p, i, data, out)
    {
      if p == self {
        ok := out.Acked?;
        if ok {
          stores := stores[p := (if p in stores then stores[p] else map[])[c.Key(i) := data]];
        }
      } else if p !in up || out.Refused? {
        ok := false;
      } else {
        stores := stores[p := (if p in stores then stores[p] else map[])[c.Key(i) := data]];
        ok := out.Acked?;
      }
    }

    /** One get call, local or remote. */
    method FetchOne(c: Chunk, p: PeerId, i: nat, answers: bool, ghost ls: seq<Location>) returns (data: Option<bytes>)
      requires c.self == self
      ensures data == FetchShard(c, WorldWith(ls), p, i, answers)
    {
      if p != self && !(p in up && answers) {
        return None;
      }
      if p !in stores || c.Key(i) !in stores[p] {
        return None;
      }
      return Some(stores[p][c.Key(i)]);
    }

    /** The peers found nearest, without the node itself, which is added once when they are too few. */
    method FindStorageNodes(closest: seq<PeerId>) returns (nodes: seq<PeerId>)
      ensures nodes == StorageNodes(self, closest)
    {
      nodes := [];
      for i := 0 to |closest|
        invariant nodes == Others(self, closest[..i])
      {
        assert closest[..i + 1][..i] == closest[..i];
        if closest[i] != self {
          nodes := nodes + [closest[i]];
        }
      }
      assert closest[..|closest|] == closest;
      if |nodes| < TOTAL {
        nodes := nodes + [self];
      }
    }

    /** The store loop shared by StoreDistributed and RepairChunk: record a location for each success. */
    method StoreMissing(c: Chunk, shards: seq<bytes>, nodes: seq<PeerId>, out: seq<Outcome>, skip: seq<bool>, locations: seq<Location>)
      returns (ls: seq<Location>, count: nat)
      requires c.self == self && |shards| == |skip| == |out| == |locations| == TOTAL
      modifies this`stores
      ensures WorldWith(ls) == Distribute(c, old(WorldWith(locations)), shards, nodes, out, skip, TOTAL)
      ensures count == Stored(c, old(WorldWith(locations)), shards, nodes, out, skip, TOTAL)
    {
      ls, count := locations, 0;
      for i := 0 to TOTAL
        invariant |ls| == TOTAL
        invariant WorldWith(ls) == Distribute(c, old(WorldWith(locations)), shards, nodes, out, skip, i)
        invariant count == Stored(c, old(WorldWith(locations)), shards, nodes, out, skip, i)
      {
        if !skip[i] {
          var target := if i < |nodes| then nodes[i] else self;
          var ok := StoreOne(c, target, i, shards[i], out[i], ls);
          if ok {
            ls := ls[i := Location(i, target)];
            count := count + 1;
          }
        }
      }
    }

    /** The shards beyond the peers found, stored locally first. */
    method StoreRest(c: Chunk, shards: seq<bytes>, nodes: seq<PeerId>, localOk: seq<bool>, ghost ls: seq<Location>) returns (ok: bool)
      requires c.self == self && |shards| == |localOk| == TOTAL
      modifies this`stores
      ensures (WorldWith(ls), ok) == PrestoreRest(c, old(WorldWith(ls)), shards, nodes, localOk)
    {
      ok := true;
      if |nodes| < TOTAL {
        var i := |nodes|;
        while i < TOTAL && ok
          invariant |nodes| <= i <= TOTAL
          invariant ok ==> (WorldWith(ls), true) == Prestore(c, old(WorldWith(ls)), shards, |nodes|, i, localOk)
          invariant !ok ==> (WorldWith(ls), false) == Prestore(c, old(WorldWith(ls)), shards, |nodes|, TOTAL, localOk)
          decreases TOTAL - i, ok
        {
          if localOk[i] {
            stores := stores[self := (if self in stores then stores[self] else map[])[c.Key(i) := shards[i]]];
            i := i + 1;
          } else {
            ok := false;
            PrestoreStays(c, old(WorldWith(ls)), shards, |nodes|, i, localOk, TOTAL);
          }
        }
      }
    }

    method StoreDistributed(user: string, id: int, data: bytes, closest: seq<PeerId>, localOk: seq<bool>, out: seq<Outcome>)
      returns (r: Done<DistributedChunk>)
      requires |localOk| == |out| == TOTAL
      modifies this`stores
      ensures var (w, done) := StoreChunk(Chunk(self, user, id), code, old(WorldWith([])), data, closest, localOk, out);
              && stores == w.stores
              && (done.Failed? ==> r == Failed(done.error))
              && (done.Done? ==> r.Done? && fresh(r.value) && r.value.locations == w.locations
                                 && r.value.user == user && r.value.id == id && r.value.originalSize == |data|)
    {
      var c := Chunk(self, user, id);
      var encoded := Encode(code, data);
      if encoded.Err? {
        return Failed(CodingFailed(encoded.error));
      }
      var shards := encoded.value;
      if |shards| != TOTAL {
        return Failed(CodingFailed(WrongShardCount));
      }
      var nodes := FindStorageNodes(closest);
      var ok := StoreRest(c, shards, nodes, localOk, []);
      if !ok {
        return Failed(LocalStoreFailed);
      }
      var ls, count := StoreMissing(c, shards, nodes, out, Repeat(false, TOTAL), Repeat(NOWHERE, TOTAL));
      if Unplaced(ls) > PARITY {
        return Failed(TooManyFailures);
      }
      var chunk := new DistributedChunk(user, id, |data|, ls);
      return Done(chunk);
    }

    /** Ask every recorded location for its shard. */
    method FetchAll(c: Chunk, locations: seq<Location>, answers: seq<bool>) returns (slots: Partial, successCount: nat)
      requires c.self == self && |answers| == TOTAL && Indexed(WorldWith(locations))
      ensures (slots, successCount) == Fetched(c, WorldWith(locations), answers, TOTAL)
    {
      ghost var w := WorldWith(locations);
      slots, successCount := Repeat(None, TOTAL), 0;
      for i := 0 to TOTAL
        invariant |slots| == TOTAL
        invariant (slots, successCount) == Fetched(c, w, answers, i)
      {
        var l := locations[i];
        var shard := FetchOne(c, l.peer, l.index, answers[i], locations);
        assert (slots, successCount) == Fetched(c, w, answers, i);
        ghost var next := AddFetched(slots, successCount, l.index, shard);
        assert next == Fetched(c, w, answers, i + 1);
        if shard.Some? {
          slots := slots[l.index := shard];
          successCount := successCount + 1;
        }
        assert (slots, successCount) == next;
      }
    }

    method RetrieveDistributed(chunk: DistributedChunk, answers: seq<bool>) returns (r: Done<bytes>)
      requires |answers| == TOTAL && Indexed(WorldWith(chunk.locations))
      ensures r == Retrieve(Chunk(self, chunk.user, chunk.id), code, WorldWith(chunk.locations), chunk.originalSize, answers)
    {
      var slots, successCount := FetchAll(Chunk(self, chunk.user, chunk.id), chunk.locations, answers);
      if successCount < MIN_FOR_RECOVERY {
        return Failed(TooFewRetrieved);
      }
      var decoded := DecodeLoop(code, EncodedData(slots, chunk.originalSize));
      match decoded
      case Err(e) => return Failed(CodingFailed(e));
      case Ok(data) => return Done(data);
    }

    method GetShardStatus(chunk: DistributedChunk, order: seq<nat>, pings: seq<bool>) returns (status: seq<bool>)
      requires |pings| == TOTAL && Indexed(WorldWith(chunk.locations)) && forall k :: 0 <= k < |order| ==> order[k] < TOTAL
      ensures status == Status(Chunk(self, chunk.user, chunk.id), WorldWith(chunk.locations), order, pings, |order|)
    {
      status := Repeat(false, TOTAL);
      for k := 0 to |order|
        invariant status == Status(Chunk(self, chunk.user, chunk.id), WorldWith(chunk.locations), order, pings, k)
      {
        var l := chunk.locations[order[k]];
        var available := if l.peer == self then true else l.peer in up && pings[order[k]];
        status := status[l.index := available];
      }
    }

    /** Read back the shards that count as available. */
    method Collect(chunk: DistributedChunk, status: seq<bool>, answers: seq<bool>) returns (got: Partial, count: nat)
      requires |status| == |answers| == |chunk.locations| == TOTAL
      ensures got == Gather(Chunk(self, chunk.user, chunk.id), WorldWith(chunk.locations), status, answers, TOTAL)
      ensures count == Present(got)
    {
      var c := Chunk(self, chunk.user, chunk.id);
      got, count := [], 0;
      for i := 0 to TOTAL
        invariant got == Gather(c, WorldWith(chunk.locations), status, answers, i)
        invariant count == Present(got)
      {
        var shard := None;
        if status[i] {
          shard := FetchOne(c, chunk.locations[i].peer, i, answers[i], chunk.locations);
        }
        assert (got + [shard])[..|got|] == got;
        got := got + [shard];
        if shard.Some? {
          count := count + 1;
        }
      }
    }

    method RepairChunk(chunk: DistributedChunk, p: Plan) returns (r: Done<()>)
      requires p.Legal() && Indexed(WorldWith(chunk.locations))
      modifies this`stores, chunk`locations
      ensures (WorldWith(chunk.locations), r)
              == Repair.RepairChunk(Chunk(self, chunk.user, chunk.id), code, old(WorldWith(chunk.locations)), p)
    {
      var c := Chunk(self, chunk.user, chunk.id);
      var status := GetShardStatus(chunk, p.order, p.pings);
      var available := Count(status);
      if available >= TOTAL {
        return Done(());
      }
      if available < MIN_FOR_RECOVERY {
        return Failed(TooFewRetrieved);
      }
      var got, retrieved := Collect(chunk, status, p.answers);
      if retrieved < MIN_FOR_RECOVERY {
        return Failed(TooFewRetrieved);
      }
      var rebuilt := code.Reconstruct(got);
      if rebuilt.None? || |rebuilt.value| != TOTAL {
        return Failed(CodingFailed(ReconstructionFailed));
      }
      var nodes := FindStorageNodes(p.closest);
      var ls, successCount := StoreMissing(c, rebuilt.value, nodes, p.out, status, chunk.locations);
      chunk.locations := ls;
      if successCount == 0 {
        return Failed(NothingStored);
      }
      return Done(());
    }
  }

  lemma {:induction false} PrestoreStays(c: Chunk, w: World, shards: seq<bytes>, from: nat, i: nat, localOk: seq<bool>, n: nat)
    requires from <= i < n <= TOTAL && |shards| == |localOk| == TOTAL && !localOk[i]
    requires Prestore(c, w, shards, from, i, localOk).1
    ensures Prestore(c, w, shards, from, n, localOk) == (Prestore(c, w, shards, from, i, localOk).0, false)
    decreases n
  {
    if n > i + 1 {
      PrestoreStays(c, w, shards, from, i, localOk, n - 1);
    }
  }
}
