/** Repair of a degraded chunk, and what every run of losses, peer changes, other traffic and repairs keeps. */
module Repair {
  import opened Bytes
  import opened ShardKeys
  import opened Erasure
  import opened Distributed

  /** Ping of one location; the local node always counts as available. */
  function Available(c: Chunk, w: World, l: Location, answers: bool): bool {
    l.peer == c.self || (l.peer in w.up && answers)
  }

  /** Every location is recorded under an index of the chunk. */
  ghost predicate Indexed(w: World) {
    |w.locations| == TOTAL && forall i :: 0 <= i < TOTAL ==> w.locations[i].index < TOTAL
  }

  /**
   GetShardStatus after its first `n` goroutines, which write under the location's own index in any order: the zero
   location of a failed shard also writes to index 0.
   */
  function Status(c: Chunk, w: World, order: seq<nat>, pings: seq<bool>, n: nat): (r: seq<bool>)
    requires n <= |order| && |pings| == TOTAL && Indexed(w) && forall k :: 0 <= k < |order| ==> order[k] < TOTAL
    ensures |r| == TOTAL
    decreases n
  {
    if n == 0 then Repeat(false, TOTAL)
    else
      var l := w.locations[order[n - 1]];
      Status(c, w, order, pings, n - 1)[l.index := Available(c, w, l, pings[order[n - 1]])]
  }

  function Count(bs: seq<bool>): nat {
    if bs == [] then 0 else Count(bs[..|bs| - 1]) + if bs[|bs| - 1] then 1 else 0
  }

  lemma {:induction false} CountIs(bs: seq<bool>)
    ensures Count(bs) == multiset(bs)[true]
    decreases |bs|
  {
    if bs != [] {
      CountIs(bs[..|bs| - 1]);
      assert bs == bs[..|bs| - 1] + [bs[|bs| - 1]];
    }
  }

  /** The shards read back from the locations that count as available. */
  function Gather(c: Chunk, w: World, status: seq<bool>, answers: seq<bool>, n: nat): (r: Partial)
    requires n <= |status| == |answers| == |w.locations| == TOTAL
    ensures |r| == n
    decreases n
  {
    if n == 0 then []
    else
      var i := n - 1;
      Gather(c, w, status, answers, i) +
        [if status[i] then FetchShard(c, w, w.locations[i].peer, i, answers[i]) else None]
  }

  /** How many of the missing shards below `n` were stored and recorded. */
  function Stored(c: Chunk, w: World, shards: seq<bytes>, nodes: seq<PeerId>, out: seq<Outcome>, skip: seq<bool>, n: nat): nat
    requires n <= TOTAL && |shards| == |skip| == |out| == |w.locations| == TOTAL
    decreases n
  {
    if n == 0 then 0
    else
      var w1 := Distribute(c, w, shards, nodes, out, skip, n - 1);
      Stored(c, w, shards, nodes, out, skip, n - 1) +
        if !skip[n - 1] && StoreShard(c, w1, NodeFor(c.self, nodes, n - 1), n - 1, shards[n - 1], out[n - 1]).1 then 1 else 0
  }

  /** Everything the network decides during one repair. */
  datatype Plan = Plan(order: seq<nat>, pings: seq<bool>, answers: seq<bool>, closest: seq<PeerId>, out: seq<Outcome>) {
    ghost predicate Legal() {
      && (forall k :: 0 <= k < |order| ==> order[k] < TOTAL)
      && |pings| == |answers| == |out| == TOTAL
      && RealPeers(closest)
    }
  }

  function RepairChunk(c: Chunk, code: Code, w: World, p: Plan): (World, Done<()>)
    requires p.Legal() && Indexed(w)
  {
    var status := Status(c, w, p.order, p.pings, |p.order|);
    if Count(status) >= TOTAL then (w, Done(()))
    else if Count(status) < MIN_FOR_RECOVERY then (w, Failed(TooFewRetrieved))
    else Mend(c, code, w, StorageNodes(c.self, p.closest), p.out, status, Gather(c, w, status, p.answers, TOTAL))
  }

  /** Rebuild the shards from what was read back, and store the missing ones. */
  function Mend(c: Chunk, code: Code, w: World, nodes: seq<PeerId>, out: seq<Outcome>, status: seq<bool>, got: Partial)
    : (World, Done<()>)
    requires |out| == |status| == |w.locations| == TOTAL
  {
    if Present(got) < MIN_FOR_RECOVERY then (w, Failed(TooFewRetrieved))
    else
      var rebuilt := code.Reconstruct(got);
      if rebuilt.None? || |rebuilt.value| != TOTAL then (w, Failed(CodingFailed(ReconstructionFailed)))
      else Restore(c, w, nodes, out, status, rebuilt.value)
  }

  function Restore(c: Chunk, w: World, nodes: seq<PeerId>, out: seq<Outcome>, status: seq<bool>, shards: seq<bytes>)
    : (World, Done<()>)
    requires |out| == |status| == |w.locations| == |shards| == TOTAL
  {
    (Distribute(c, w, shards, nodes, out, status, TOTAL),
     if Stored(c, w, shards, nodes, out, status, TOTAL) == 0 then Failed(NothingStored) else Done(()))
  }

  lemma {:induction false} GatherAt(c: Chunk, w: World, status: seq<bool>, answers: seq<bool>, n: nat, i: nat)
    requires i < n <= |status| == |answers| == |w.locations| == TOTAL
    ensures Gather(c, w, status, answers, n)[i]
            == if status[i] then FetchShard(c, w, w.locations[i].peer, i, answers[i]) else None
    decreases n
  {
    if i < n - 1 {
      GatherAt(c, w, status, answers, n - 1, i);
    }
  }

  /** What is read back agrees with the shards. */
  lemma GatherAgrees(c: Chunk, w: World, shards: seq<bytes>, status: seq<bool>, answers: seq<bool>)
    requires Safe(c, w, shards) && |status| == |answers| == TOTAL
    ensures Agrees(Gather(c, w, status, answers, TOTAL), shards)
  {
    var got := Gather(c, w, status, answers, TOTAL);
    forall i | 0 <= i < TOTAL && got[i].Some?
      ensures got[i].value == shards[i]
    {
      GatherAt(c, w, status, answers, TOTAL, i);
      FetchOwn(c, w, shards, answers[i], i);
    }
  }

  /** A recorded place that answers for a shard answers with that shard. */
  lemma FetchOwn(c: Chunk, w: World, shards: seq<bytes>, answers: bool, i: nat)
    requires Safe(c, w, shards) && i < TOTAL
    ensures var got := FetchShard(c, w, w.locations[i].peer, i, answers); got.Some? ==> got.value == shards[i]
  {
    assert Sound(c, w, shards, i);
  }

  lemma RebuildGives(code: Code, data: bytes, got: Partial)
    requires code.Lawful() && data != [] && Agrees(got, code.Codeword(Split(data))) && Present(got) >= MIN_FOR_RECOVERY
    ensures code.Reconstruct(got) == Some(code.Codeword(Split(data)))
  {
    assert DataShards(Split(data));
  }

  /** Shard i counts as available, its place can be asked, and has it. */
  ghost predicate Readable(c: Chunk, w: World, status: seq<bool>, answers: seq<bool>, i: nat)
    requires i < |status| == |answers| == |w.locations|
  {
    var p := w.locations[i].peer;
    status[i] && (p == c.self || (p in w.up && answers[i])) && c.Key(i) in StoreOf(w, p)
  }

  ghost function ReadableCount(c: Chunk, w: World, status: seq<bool>, answers: seq<bool>, n: nat): nat
    requires n <= |status| == |answers| == |w.locations|
  {
    if n == 0 then 0
    else ReadableCount(c, w, status, answers, n - 1) + if Readable(c, w, status, answers, n - 1) then 1 else 0
  }

  lemma {:induction false} GatherIsReadable(c: Chunk, w: World, status: seq<bool>, answers: seq<bool>, n: nat)
    requires n <= |status| == |answers| == |w.locations| == TOTAL
    ensures Present(Gather(c, w, status, answers, n)) == ReadableCount(c, w, status, answers, n)
    decreases n
  {
    if n > 0 {
      GatherIsReadable(c, w, status, answers, n - 1);
      var got := Gather(c, w, status, answers, n);
      assert got[..n - 1] == Gather(c, w, status, answers, n - 1);
    }
  }

  /** The repair finds shards missing and reads back enough of the others. */
  ghost predicate Repairable(c: Chunk, w: World, p: Plan)
    requires p.Legal() && Indexed(w)
  {
    var status := Status(c, w, p.order, p.pings, |p.order|);
    && MIN_FOR_RECOVERY <= Count(status) < TOTAL
    && ReadableCount(c, w, status, p.answers, TOTAL) >= MIN_FOR_RECOVERY
  }

  lemma MendGives(c: Chunk, code: Code, w: World, data: bytes, nodes: seq<PeerId>, out: seq<Outcome>, status: seq<bool>, got: Partial)
    requires code.Lawful() && data != [] && |out| == |status| == |w.locations| == TOTAL && |code.Codeword(Split(data))| == TOTAL
    requires Agrees(got, code.Codeword(Split(data)))
    ensures Mend(c, code, w, nodes, out, status, got)
            == if Present(got) < MIN_FOR_RECOVERY then (w, Failed(TooFewRetrieved))
               else Restore(c, w, nodes, out, status, code.Codeword(Split(data)))
  {
    if Present(got) >= MIN_FOR_RECOVERY {
      RebuildGives(code, data, got);
    }
  }

  /** What a repair does and reports, in every case. */
  lemma RepairIs(c: Chunk, code: Code, w: World, data: bytes, p: Plan)
    requires code.Lawful() && data != [] && p.Legal() && Safe(c, w, code.Codeword(Split(data))) && Indexed(w)
    ensures var status := Status(c, w, p.order, p.pings, |p.order|);
            RepairChunk(c, code, w, p)
            == if Count(status) >= TOTAL then (w, Done(()))
               else if !Repairable(c, w, p) then (w, Failed(TooFewRetrieved))
               else Restore(c, w, StorageNodes(c.self, p.closest), p.out, status, code.Codeword(Split(data)))
  {
    var shards, status := code.Codeword(Split(data)), Status(c, w, p.order, p.pings, |p.order|);
    var got := Gather(c, w, status, p.answers, TOTAL);
    GatherAgrees(c, w, shards, status, p.answers);
    GatherIsReadable(c, w, status, p.answers, TOTAL);
    MendGives(c, code, w, data, StorageNodes(c.self, p.closest), p.out, status, got);
  }

  /** What a repair stores is what was stored first. */
  lemma RepairRebuilds(c: Chunk, code: Code, w: World, data: bytes, p: Plan)
    requires code.Lawful() && data != [] && p.Legal() && Safe(c, w, code.Codeword(Split(data))) && Indexed(w)
    ensures RepairChunk(c, code, w, p).0
            == if Repairable(c, w, p)
               then Distribute(c, w, code.Codeword(Split(data)), StorageNodes(c.self, p.closest), p.out,
                               Status(c, w, p.order, p.pings, |p.order|), TOTAL)
               else w
  {
    RepairIs(c, code, w, data, p);
  }

  /** A repair, successful or not, leaves every recorded location sound, and records only nodes that hold the shard. */
  lemma RepairKeepsSafe(c: Chunk, code: Code, w: World, data: bytes, p: Plan)
    requires code.Lawful() && data != [] && p.Legal() && Safe(c, w, code.Codeword(Split(data)))
    ensures forall i :: 0 <= i < TOTAL ==> w.locations[i].index < TOTAL
    ensures var shards := code.Codeword(Split(data));
            var w' := RepairChunk(c, code, w, p).0;
            && Safe(c, w', shards)
            && forall i :: 0 <= i < TOTAL && w'.locations[i] != w.locations[i] ==> Held(c, w', shards, i)
  {
    var shards := code.Codeword(Split(data));
    IndexedIfSafe(c, w, shards);
    RepairRebuilds(c, code, w, data, p);
    DistributedSafe(c, w, shards, p.closest, p.out, Status(c, w, p.order, p.pings, |p.order|));
  }

  lemma DistributedSafe(c: Chunk, w: World, shards: seq<bytes>, closest: seq<PeerId>, out: seq<Outcome>, skip: seq<bool>)
    requires Safe(c, w, shards) && RealPeers(closest) && |out| == |skip| == TOTAL
    ensures var w' := Distribute(c, w, shards, StorageNodes(c.self, closest), out, skip, TOTAL);
            && Safe(c, w', shards)
            && forall i :: 0 <= i < TOTAL && w'.locations[i] != w.locations[i] ==> Held(c, w', shards, i)
  {
    NodesAreReal(c.self, closest);
    DistributeKeepsSafe(c, w, shards, StorageNodes(c.self, closest), out, skip, TOTAL);
  }

  // ---- Which shards a repair leaves held ----

  /** The shard's own store call decides; the others, before and after it, change nothing about it. */
  lemma {:induction false} DistributeHeldIff(c: Chunk, w: World, shards: seq<bytes>, nodes: seq<PeerId>, out: seq<Outcome>,
                                             skip: seq<bool>, n: nat, i: nat)
    requires n <= TOTAL && i < TOTAL && |shards| == |skip| == |out| == |w.locations| == TOTAL
    ensures var w' := Distribute(c, w, shards, nodes, out, skip, n);
            if i < n && !skip[i] then Attempted(c, w, w', shards, NodeFor(c.self, nodes, i), out[i], i)
            else Untouched(c, w, w', shards, i)
    decreases n
  {
    if n > 0 {
      DistributeHeldIff(c, w, shards, nodes, out, skip, n - 1, i);
      if !skip[n - 1] {
        var w1, p := Distribute(c, w, shards, nodes, out, skip, n - 1), NodeFor(c.self, nodes, n - 1);
        var w2 := PlaceOne(c, w1, p, n - 1, shards[n - 1], out[n - 1]);
        if i == n - 1 {
          PlaceOwn(c, w1, shards, p, out[i], i);
          AttemptedLast(c, w, w1, w2, shards, p, out[i], i);
        } else {
          PlaceOther(c, w1, shards, p, n - 1, out[n - 1], i);
          UntouchedLast(c, w, w1, w2, shards, NodeFor(c.self, nodes, i), out[i], i);
        }
      }
    }
  }

  lemma AttemptedLast(c: Chunk, w: World, w1: World, w2: World, shards: seq<bytes>, p: PeerId, out: Outcome, i: nat)
    requires |w.locations| == |w1.locations| == |shards| == TOTAL && i < TOTAL
    requires Untouched(c, w, w1, shards, i) && Attempted(c, w1, w2, shards, p, out, i)
    ensures Attempted(c, w, w2, shards, p, out, i)
  {
  }

  lemma UntouchedLast(c: Chunk, w: World, w1: World, w2: World, shards: seq<bytes>, p: PeerId, out: Outcome, i: nat)
    requires |w.locations| == |w1.locations| == |shards| == TOTAL && i < TOTAL
    requires Untouched(c, w1, w2, shards, i)
    ensures Untouched(c, w, w1, shards, i) ==> Untouched(c, w, w2, shards, i)
    ensures Attempted(c, w, w1, shards, p, out, i) ==> Attempted(c, w, w2, shards, p, out, i)
  {
  }

  /** A repair that gets ten shards and whose store call for a missing shard goes through places that shard anew. */
  lemma RepairRestores(c: Chunk, code: Code, w: World, data: bytes, p: Plan, i: nat)
    requires code.Lawful() && data != [] && p.Legal() && Safe(c, w, code.Codeword(Split(data))) && Indexed(w) && i < TOTAL
    requires Repairable(c, w, p) && !Status(c, w, p.order, p.pings, |p.order|)[i]
    requires var q := NodeFor(c.self, StorageNodes(c.self, p.closest), i);
             p.out[i].Acked? && (q == c.self || q in w.up)
    ensures var w' := RepairChunk(c, code, w, p).0;
            && w'.locations[i] == Location(i, NodeFor(c.self, StorageNodes(c.self, p.closest), i))
            && Held(c, w', code.Codeword(Split(data)), i)
  {
    RepairRebuilds(c, code, w, data, p);
    DistributeHeldIff(c, w, code.Codeword(Split(data)), StorageNodes(c.self, p.closest), p.out,
                      Status(c, w, p.order, p.pings, |p.order|), TOTAL, i);
  }

  /**
   After a repair a shard is held where it is recorded if and only if it was before, or the repair proceeded, counted the
   shard as missing and its store call went through. What a live peer has lost is not missing to it.
   */
  lemma RepairHeldIff(c: Chunk, code: Code, w: World, data: bytes, p: Plan, i: nat)
    requires code.Lawful() && data != [] && p.Legal() && Safe(c, w, code.Codeword(Split(data))) && Indexed(w) && i < TOTAL
    ensures var w' := RepairChunk(c, code, w, p).0;
            var shards := code.Codeword(Split(data));
            && |w'.locations| == TOTAL
            && (Held(c, w', shards, i) <==>
                  || Held(c, w, shards, i)
                  || (Repairable(c, w, p) && !Status(c, w, p.order, p.pings, |p.order|)[i]
                      && Restores(c, w, NodeFor(c.self, StorageNodes(c.self, p.closest), i), p.out[i], i)))
  {
    RepairRebuilds(c, code, w, data, p);
    DistributeHeldIff(c, w, code.Codeword(Split(data)), StorageNodes(c.self, p.closest), p.out,
                      Status(c, w, p.order, p.pings, |p.order|), TOTAL, i);
  }

  // ---- What a repair cannot see ----

  /** The last goroutine that writes under an index decides its status: the node itself, or a peer that answers, is available. */
  lemma {:induction false} StatusLast(c: Chunk, w: World, order: seq<nat>, pings: seq<bool>, n: nat, j: nat)
    requires j < n <= |order| && |pings| == TOTAL && Indexed(w) && forall k :: 0 <= k < |order| ==> order[k] < TOTAL
    requires forall k :: j < k < n ==> w.locations[order[k]].index != w.locations[order[j]].index
    ensures var l := w.locations[order[j]];
            Status(c, w, order, pings, n)[l.index] <==> l.peer == c.self || (l.peer in w.up && pings[order[j]])
    decreases n
  {
    if j < n - 1 {
      StatusLast(c, w, order, pings, n - 1, j);
    }
  }

  /** An index under which none writes is unavailable. */
  lemma {:induction false} StatusNever(c: Chunk, w: World, order: seq<nat>, pings: seq<bool>, n: nat, i: nat)
    requires n <= |order| && |pings| == TOTAL && Indexed(w) && forall k :: 0 <= k < |order| ==> order[k] < TOTAL
    requires i < TOTAL && forall j :: 0 <= j < n ==> w.locations[order[j]].index != i
    ensures !Status(c, w, order, pings, n)[i]
    decreases n
  {
    if n > 0 {
      StatusNever(c, w, order, pings, n - 1, i);
    }
  }

  lemma {:induction false} StatusOf(c: Chunk, w: World, order: seq<nat>, pings: seq<bool>, n: nat, i: nat)
    requires n <= |order| && |pings| == TOTAL && Indexed(w) && forall k :: 0 <= k < |order| ==> order[k] < TOTAL
    requires i < TOTAL && forall k :: 0 <= k < TOTAL ==> w.locations[k].index == k
    ensures Status(c, w, order, pings, n)[i] <==> i in order[..n] && Available(c, w, w.locations[i], pings[i])
    decreases n
  {
    if n > 0 {
      StatusOf(c, w, order, pings, n - 1, i);
      assert order[..n] == order[..n - 1] + [order[n - 1]];
    }
  }

  lemma {:induction false} CountAll(bs: seq<bool>)
    requires forall i :: 0 <= i < |bs| ==> bs[i]
    ensures Count(bs) == |bs|
    decreases |bs|
  {
    if bs != [] {
      CountAll(bs[..|bs| - 1]);
    }
  }

  /** Every location is recorded, and every peer recorded answers its ping. */
  ghost predicate AllPinged(c: Chunk, w: World, p: Plan)
    requires p.Legal() && |w.locations| == TOTAL
  {
    forall i :: 0 <= i < TOTAL ==>
      w.locations[i].index == i && i in p.order
      && (w.locations[i].peer == c.self || (w.locations[i].peer in w.up && p.pings[i]))
  }

  /** Then a repair says it is done and does nothing, whatever the peers still hold. */
  lemma PingedIsDone(c: Chunk, code: Code, w: World, p: Plan)
    requires p.Legal() && Indexed(w) && AllPinged(c, w, p)
    ensures RepairChunk(c, code, w, p) == (w, Done(()))
  {
    var status := Status(c, w, p.order, p.pings, |p.order|);
    forall i | 0 <= i < TOTAL
      ensures status[i]
    {
      StatusOf(c, w, p.order, p.pings, |p.order|, i);
      assert p.order[..|p.order|] == p.order;
    }
    CountAll(status);
  }

  /** Even when no recorded peer holds its shard any more, and nothing can be retrieved. */
  lemma DoneButLost(c: Chunk, code: Code, w: World, p: Plan, size: nat, answers: seq<bool>)
    requires p.Legal() && Indexed(w) && AllPinged(c, w, p) && |answers| == TOTAL
    requires forall i :: 0 <= i < TOTAL ==> c.Key(i) !in StoreOf(w, w.locations[i].peer)
    ensures RepairChunk(c, code, w, p) == (w, Done(()))
    ensures Retrieve(c, code, w, size, answers) == Failed(TooFewRetrieved)
  {
    PingedIsDone(c, code, w, p);
    NothingFetched(c, w, answers, TOTAL);
  }

  lemma {:induction false} NothingFetched(c: Chunk, w: World, answers: seq<bool>, n: nat)
    requires Indexed(w) && n <= TOTAL == |answers| && forall i :: 0 <= i < TOTAL ==> w.locations[i].index == i
    requires forall i :: 0 <= i < TOTAL ==> c.Key(i) !in StoreOf(w, w.locations[i].peer)
    ensures Fetched(c, w, answers, n).1 == 0
    decreases n
  {
    if n > 0 {
      NothingFetched(c, w, answers, n - 1);
    }
  }

  // ---- Whole runs ----

  datatype Event =
    | Lose(peer: PeerId, key: (string, int))
    | Peers(up: set<PeerId>)
    | OtherChunk(peer: PeerId, user: string, id: int, index: nat, data: bytes)
    | Repair(plan: Plan)

  ghost predicate Legal(c: Chunk, e: Event) {
    match e
    case Lose(_, _) => true
    case Peers(up) => NO_PEER !in up
    case OtherChunk(_, user, id, _, _) => (user, id) != (c.user, c.id)
    case Repair(plan) => plan.Legal()
  }

  ghost function Next(c: Chunk, code: Code, w: World, e: Event): World
    requires Legal(c, e)
  {
    match e
    case Lose(p, key) => w.(stores := w.stores[p := StoreOf(w, p) - {key}])
    case Peers(up) => w.(up := up)
    case OtherChunk(p, user, id, i, data) => Put(w, p, Chunk(c.self, user, id).Key(i), data)
    case Repair(plan) => if Indexed(w) then RepairChunk(c, code, w, plan).0 else w
  }

  ghost function Run(c: Chunk, code: Code, w: World, es: seq<Event>): World
    requires forall k :: 0 <= k < |es| ==> Legal(c, es[k])
  {
    if es == [] then w else Next(c, code, Run(c, code, w, es[..|es| - 1]), es[|es| - 1])
  }

  lemma OthersKeepSafe(c: Chunk, w: World, shards: seq<bytes>, p: PeerId, user: string, id: int, index: nat, data: bytes)
    requires Safe(c, w, shards) && (user, id) != (c.user, c.id)
    ensures Safe(c, Put(w, p, Chunk(c.self, user, id).Key(index), data), shards)
  {
    var w' := Put(w, p, Chunk(c.self, user, id).Key(index), data);
    forall i | 0 <= i < TOTAL
      ensures Sound(c, w', shards, i)
    {
      assert Sound(c, w, shards, i);
      if ShardKey(user, id, index) == ShardKey(c.user, c.id, i) {
        ShardKeyInjective(user, id, index, c.user, c.id, i);
      }
    }
  }

  lemma LossKeepsSafe(c: Chunk, w: World, shards: seq<bytes>, p: PeerId, key: (string, int))
    requires Safe(c, w, shards)
    ensures Safe(c, w.(stores := w.stores[p := StoreOf(w, p) - {key}]), shards)
  {
    var w' := w.(stores := w.stores[p := StoreOf(w, p) - {key}]);
    forall i | 0 <= i < TOTAL
      ensures Sound(c, w', shards, i)
    {
      assert Sound(c, w, shards, i);
    }
  }

  lemma PeersKeepSafe(c: Chunk, w: World, shards: seq<bytes>, up: set<PeerId>)
    requires Safe(c, w, shards) && NO_PEER !in up
    ensures Safe(c, w.(up := up), shards)
  {
    forall i | 0 <= i < TOTAL
      ensures Sound(c, w.(up := up), shards, i)
    {
      assert Sound(c, w, shards, i);
    }
  }

  lemma {:induction false} RunKeepsSafe(c: Chunk, code: Code, w: World, data: bytes, es: seq<Event>)
    requires code.Lawful() && data != [] && Safe(c, w, code.Codeword(Split(data)))
    requires forall k :: 0 <= k < |es| ==> Legal(c, es[k])
    ensures Safe(c, Run(c, code, w, es), code.Codeword(Split(data)))
    decreases |es|
  {
    if es != [] {
      var w1 := Run(c, code, w, es[..|es| - 1]);
      RunKeepsSafe(c, code, w, data, es[..|es| - 1]);
      match es[|es| - 1]
      case Lose(p, key) => LossKeepsSafe(c, w1, code.Codeword(Split(data)), p, key);
      case Peers(up) => PeersKeepSafe(c, w1, code.Codeword(Split(data)), up);
      case OtherChunk(p, user, id, i, bytes) => OthersKeepSafe(c, w1, code.Codeword(Split(data)), p, user, id, i, bytes);
      case Repair(plan) => RepairKeepsSafe(c, code, w1, data, plan);
    }
  }

  /**
   After one successful store, under any interleaving of shard loss, peers coming and going, traffic for other chunks
   and repairs that may fail, a retrieval returns exactly the stored bytes when ten recorded shards can be fetched and
   an error otherwise.
   */
  lemma StorageSurvives(c: Chunk, code: Code, w: World, data: bytes, closest: seq<PeerId>, localOk: seq<bool>,
                        out: seq<Outcome>, es: seq<Event>, answers: seq<bool>)
    requires code.Lawful() && c.self != NO_PEER && NO_PEER !in w.up && RealPeers(closest)
    requires |localOk| == |out| == |answers| == TOTAL
    requires StoreChunk(c, code, w, data, closest, localOk, out).1.Done?
    requires forall k :: 0 <= k < |es| ==> Legal(c, es[k])
    ensures var w' := Run(c, code, StoreChunk(c, code, w, data, closest, localOk, out).0, es);
            && Indexed(w')
            && Retrieve(c, code, w', |data|, answers)
               == if ReachableCount(c, w', answers, TOTAL) >= MIN_FOR_RECOVERY then Done(data) else Failed(TooFewRetrieved)
  {
    StoreChunkSafe(c, code, w, data, closest, localOk, out);
    var w0 := StoreChunk(c, code, w, data, closest, localOk, out).0;
    RunKeepsSafe(c, code, w0, data, es);
    RetrieveExact(c, code, Run(c, code, w0, es), data, answers);
  }
}
