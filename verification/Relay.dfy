/** Relay servers of pkg/network: forwarding one onion layer, final delivery, and the offline queue. */
module Relay {
  import opened Bytes
  import opened Onion

  const ZERO_ADDRESS: Address := Zeros(20)

  datatype ClientType = User | RelayPeer

  datatype Kind = RelayForward | DirectMessage

  /** What a relay wrote on the connection of a peer. */
  datatype Frame = Frame(to: Address, kind: Kind, payload: bytes)

  datatype Queued = Queued(recipient: Address, payload: bytes)

  /** A relay: its key, its connected peers, its queue if it has one, what it wrote, and its counter. */
  datatype Server = Server(priv: bytes, peers: map<Address, ClientType>, queue: Option<seq<Queued>>, sent: seq<Frame>, relayed: nat)

  /** deliverMessage: write to a connected recipient, queue for an absent one. `writes` is whether the connection works. */
  function Deliver(r: Server, to: Address, payload: bytes, writes: bool): Server {
    if to !in r.peers then
      if r.queue.Some? then r.(queue := Some(r.queue.value + [Queued(to, payload)])) else r
    else if writes then r.(sent := r.sent + [Frame(to, DirectMessage, payload)])
    else r
  }

  /** forwardToNextHop. */
  function Forward(r: Server, to: Address, payload: bytes, writes: bool): Server {
    if to in r.peers && writes then r.(sent := r.sent + [Frame(to, RelayForward, payload)]) else r
  }

  /** handleRelayForward: the counter moves even when the write fails, but not for an absent next hop. */
  function Handle(s: Ciphers, r: Server, box: bytes, writes: bool): Server {
    match Peel(s, box, r.priv)
    case Err(_) => r
    case Ok(layer) =>
      if layer.nextHop == ZERO_ADDRESS then r
      else if layer.nextHop !in r.peers then Deliver(r, layer.nextHop, layer.payload, writes)
      else
        var r1 := if r.peers[layer.nextHop].RelayPeer? then Forward(r, layer.nextHop, layer.payload, writes)
                  else Deliver(r, layer.nextHop, layer.payload, writes);
        r1.(relayed := r1.relayed + 1)
  }

  /** The mutable server. */
  class RelayServer {
    const ciphers: Ciphers
    const priv: bytes
    var peers: map<Address, ClientType>
    var queue: Option<seq<Queued>>
    var messagesRelayed: nat
    ghost var sent: seq<Frame>

    constructor (ciphers: Ciphers, priv: bytes, withQueue: bool)
      ensures this.ciphers == ciphers && View() == Server(priv, map[], if withQueue then Some([]) else None, [], 0)
    {
      this.ciphers, this.priv := ciphers, priv;
      peers, queue, messagesRelayed, sent := map[], if withQueue then Some([]) else None, 0, [];
    }

    ghost function View(): Server
      reads this
    {
      Server(priv, peers, queue, sent, messagesRelayed)
    }

    method DeliverMessage(to: Address, payload: bytes, writes: bool)
      modifies this`queue, this`sent
      ensures View() == Deliver(old(View()), to, payload, writes)
    {
      if to !in peers {
        if queue.Some? {
          queue := Some(queue.value + [Queued(to, payload)]);
        }
        return;
      }
      if writes {
        sent := sent + [Frame(to, DirectMessage, payload)];
      }
    }

    method ForwardToNextHop(to: Address, payload: bytes, writes: bool)
      modifies this`sent
      ensures View() == Forward(old(View()), to, payload, writes)
    {
      if to in peers && writes {
        sent := sent + [Frame(to, RelayForward, payload)];
      }
    }

    method HandleRelayForward(box: bytes, writes: bool)
      modifies this`queue, this`sent, this`messagesRelayed
      ensures View() == Handle(ciphers, old(View()), box, writes)
    {
      var peeled := Peel(ciphers, box, priv);
      if peeled.Err? {
        return;
      }
      var layer := peeled.value;
      if layer.nextHop == ZERO_ADDRESS {
        return;
      }
      if layer.nextHop !in peers {
        DeliverMessage(layer.nextHop, layer.payload, writes);
        return;
      }
      if peers[layer.nextHop].RelayPeer? {
        ForwardToNextHop(layer.nextHop, layer.payload, writes);
      } else {
        DeliverMessage(layer.nextHop, layer.payload, writes);
      }
      messagesRelayed := messagesRelayed + 1;
    }
  }

  // ---- A network of relays ----

  type Network = map<Address, Server>

  /** A message on the wire to a relay. */
  datatype Transit = Transit(at: Address, box: bytes)

  /** One relay handles a message; if that wrote a forward frame, the frame is on the wire next. Connections work. */
  function Hop(s: Ciphers, net: Network, t: Transit): (Network, Option<Transit>) {
    if t.at !in net then (net, None)
    else
      var r := Handle(s, net[t.at], t.box, true);
      var next :=
        if |r.sent| > |net[t.at].sent| && r.sent[|r.sent| - 1].kind == RelayForward
        then Some(Transit(r.sent[|r.sent| - 1].to, r.sent[|r.sent| - 1].payload))
        else None;
      (net[t.at := r], next)
  }

  function Travel(s: Ciphers, net: Network, t: Option<Transit>, n: nat): (Network, Option<Transit>)
    decreases n
  {
    if n == 0 || t.None? then (net, t)
    else
      var (net', t') := Hop(s, net, t.value);
      Travel(s, net', t', n - 1)
  }

  /** Relay `k` of the path runs with its key and is connected to the next one as to a relay. */
  ghost predicate LinkedAt(net: Network, path: seq<RelayInfo>, privs: seq<bytes>, k: nat)
    requires k < |path| == |privs|
  {
    && path[k].address in net && net[path[k].address].priv == privs[k]
    && (k + 1 < |path| ==>
          && path[k + 1].address != ZERO_ADDRESS
          && path[k + 1].address in net[path[k].address].peers
          && net[path[k].address].peers[path[k + 1].address].RelayPeer?)
  }

  /** So are all relays from hop `i` on. */
  ghost predicate Linked(net: Network, path: seq<RelayInfo>, privs: seq<bytes>, i: nat)
    requires |path| == |privs|
  {
    && (forall k :: i <= k < |path| ==> path[k].address in net)
    && (forall k :: i <= k < |path| ==> LinkedAt(net, path, privs, k))
  }

  /** The last relay can serve the recipient: connected, or absent with a queue to keep the message. */
  predicate Serves(r: Server, recipient: Address) {
    recipient in r.peers || r.queue.Some?
  }

  /** A recipient that is itself a relay gets the payload as a forward frame. */
  function KindFor(t: ClientType): Kind {
    if t.RelayPeer? then RelayForward else DirectMessage
  }

  /** What is then on the wire between relays. */
  function OnWire(r: Server, recipient: Address, payload: bytes): Option<Transit> {
    if recipient in r.peers && r.peers[recipient].RelayPeer? then Some(Transit(recipient, payload)) else None
  }

  /** A layer for a connected relay goes on the wire to it. */
  lemma HopForwards(s: Ciphers, net: Network, at: Address, box: bytes, layer: Layer)
    requires at in net && Peel(s, box, net[at].priv) == Ok(layer) && layer.nextHop != ZERO_ADDRESS
    requires layer.nextHop in net[at].peers && net[at].peers[layer.nextHop].RelayPeer?
    ensures var (net', t) := Hop(s, net, Transit(at, box));
            && t == Some(Transit(layer.nextHop, layer.payload))
            && net' == net[at := net[at].(sent := net[at].sent + [Frame(layer.nextHop, RelayForward, layer.payload)],
                                          relayed := net[at].relayed + 1)]
  {
  }

  /** What cannot be peeled, or names no next hop, changes nothing. */
  lemma NothingToRelay(s: Ciphers, r: Server, box: bytes, writes: bool)
    requires Peel(s, box, r.priv).Err? || Peel(s, box, r.priv).value.nextHop == ZERO_ADDRESS
    ensures Handle(s, r, box, writes) == r
  {
  }

  /** A connection that does not take the frame loses the message; only the counter tells. */
  lemma LostOnTheWay(s: Ciphers, r: Server, box: bytes)
    requires Peel(s, box, r.priv).Ok? && Peel(s, box, r.priv).value.nextHop in r.peers
    ensures Handle(s, r, box, false)
            == if Peel(s, box, r.priv).value.nextHop == ZERO_ADDRESS then r else r.(relayed := r.relayed + 1)
  {
  }

  lemma MiddleHop(s: Ciphers, net: Network, path: seq<RelayInfo>, recipient: Address, payload: bytes, privs: seq<bytes>,
                  ds: seq<Draw>, i: nat)
    requires s.Lawful() && Fits(s, path, privs, ds) && Linked(net, path, privs, i) && i + 1 < |path|
    ensures var (net', t) := Hop(s, net, Transit(path[i].address, OnionFrom(s, path, recipient, payload, ds, i)));
            && t == Some(Transit(path[i + 1].address, OnionFrom(s, path, recipient, payload, ds, i + 1)))
            && Linked(net', path, privs, i + 1)
            && net'.Keys == net.Keys
            && forall a :: a in net ==> net'[a].peers == net[a].peers && net'[a].queue == net[a].queue
  {
    assert LinkedAt(net, path, privs, i);
    PeelOne(s, path, recipient, payload, privs, ds, i);
    var inner := OnionFrom(s, path, recipient, payload, ds, i + 1);
    HopForwards(s, net, path[i].address, OnionFrom(s, path, recipient, payload, ds, i),
                Layer(path[i + 1].address, inner, s.Hash(inner)));
    var net' := Hop(s, net, Transit(path[i].address, OnionFrom(s, path, recipient, payload, ds, i))).0;
    StillLinked(net, net', path, privs, i);
  }

  lemma StillLinked(net: Network, net': Network, path: seq<RelayInfo>, privs: seq<bytes>, i: nat)
    requires |path| == |privs| && Linked(net, path, privs, i) && net'.Keys == net.Keys
    requires forall a :: a in net ==> net'[a].priv == net[a].priv && net'[a].peers == net[a].peers
    ensures Linked(net', path, privs, i + 1)
  {
    forall k | i + 1 <= k < |path|
      ensures LinkedAt(net', path, privs, k)
    {
      assert LinkedAt(net, path, privs, k);
    }
  }

  /** What the last relay does with the payload: the new relay, and what it puts on the wire between relays. */
  function Served(r: Server, recipient: Address, payload: bytes): (Server, Option<Transit>) {
    if recipient == ZERO_ADDRESS || !Serves(r, recipient) then (r, None)
    else if recipient in r.peers then
      (r.(sent := r.sent + [Frame(recipient, KindFor(r.peers[recipient]), payload)], relayed := r.relayed + 1),
       OnWire(r, recipient, payload))
    else (r.(queue := Some(r.queue.value + [Queued(recipient, payload)])), None)
  }

  lemma HandleServes(s: Ciphers, r: Server, box: bytes, layer: Layer)
    requires Peel(s, box, r.priv) == Ok(layer)
    ensures Handle(s, r, box, true) == Served(r, layer.nextHop, layer.payload).0
  {
  }

  lemma HopServes(s: Ciphers, net: Network, at: Address, box: bytes, layer: Layer)
    requires at in net && Peel(s, box, net[at].priv) == Ok(layer)
    ensures var (r, t) := Served(net[at], layer.nextHop, layer.payload); Hop(s, net, Transit(at, box)) == (net[at := r], t)
  {
    HandleServes(s, net[at], box, layer);
  }

  lemma LastHop(s: Ciphers, net: Network, path: seq<RelayInfo>, recipient: Address, payload: bytes, privs: seq<bytes>, ds: seq<Draw>)
    requires s.Lawful() && Fits(s, path, privs, ds) && path != [] && Linked(net, path, privs, |path| - 1)
    ensures var last := path[|path| - 1].address;
            var (r, t) := Served(net[last], recipient, payload);
            Hop(s, net, Transit(last, OnionFrom(s, path, recipient, payload, ds, |path| - 1))) == (net[last := r], t)
  {
    var i := |path| - 1;
    assert LinkedAt(net, path, privs, i);
    PeelOne(s, path, recipient, payload, privs, ds, i);
    var inner := OnionFrom(s, path, recipient, payload, ds, i + 1);
    HopServes(s, net, path[i].address, OnionFrom(s, path, recipient, payload, ds, i), Layer(recipient, inner, s.Hash(inner)));
  }

  /** The relay `last`, which was `before`, has served the recipient, and nothing else is on the wire. */
  ghost predicate Ends(r: (Network, Option<Transit>), last: Address, before: Server, recipient: Address, payload: bytes) {
    last in r.0 && (r.0[last], r.1) == Served(before, recipient, payload)
  }

  /** The message on its way to hop `i`. */
  function ToHop(s: Ciphers, path: seq<RelayInfo>, recipient: Address, payload: bytes, ds: seq<Draw>, i: nat): Transit
    requires i < |path| == |ds|
  {
    Transit(path[i].address, OnionFrom(s, path, recipient, payload, ds, i))
  }

  lemma TravelLast(s: Ciphers, net: Network, path: seq<RelayInfo>, recipient: Address, payload: bytes, privs: seq<bytes>,
                   ds: seq<Draw>, i: nat)
    requires s.Lawful() && Fits(s, path, privs, ds) && i + 1 == |path| && Linked(net, path, privs, i)
    ensures var last := path[i].address;
            Ends(Travel(s, net, Some(ToHop(s, path, recipient, payload, ds, i)), 1), last, net[last], recipient, payload)
  {
    LastHop(s, net, path, recipient, payload, privs, ds);
    var (net1, t1) := Hop(s, net, ToHop(s, path, recipient, payload, ds, i));
    assert Travel(s, net, Some(ToHop(s, path, recipient, payload, ds, i)), 1) == Travel(s, net1, t1, 0);
  }

  /** A middle hop leads to a network from which the rest of the way is the same. */
  lemma TravelMiddle(s: Ciphers, net: Network, path: seq<RelayInfo>, recipient: Address, payload: bytes, privs: seq<bytes>,
                     ds: seq<Draw>, i: nat, n: nat)
    returns (net1: Network)
    requires s.Lawful() && Fits(s, path, privs, ds) && Linked(net, path, privs, i) && i + 1 < |path| && n > 0
    ensures Linked(net1, path, privs, i + 1)
    ensures var last := path[|path| - 1].address; net1[last].peers == net[last].peers && net1[last].queue == net[last].queue
    ensures Travel(s, net, Some(ToHop(s, path, recipient, payload, ds, i)), n)
            == Travel(s, net1, Some(ToHop(s, path, recipient, payload, ds, i + 1)), n - 1)
  {
    MiddleHop(s, net, path, recipient, payload, privs, ds, i);
    net1 := Hop(s, net, ToHop(s, path, recipient, payload, ds, i)).0;
  }

  lemma {:induction false} TravelFrom(s: Ciphers, net: Network, path: seq<RelayInfo>, recipient: Address, payload: bytes,
                                      privs: seq<bytes>, ds: seq<Draw>, i: nat, n: nat)
    returns (before: Server)
    requires s.Lawful() && Fits(s, path, privs, ds) && i < |path| == i + n && Linked(net, path, privs, i)
    ensures var last := path[|path| - 1].address;
            && before.peers == net[last].peers && before.queue == net[last].queue
            && Ends(Travel(s, net, Some(ToHop(s, path, recipient, payload, ds, i)), n), last, before, recipient, payload)
    decreases n
  {
    if n == 1 {
      TravelLast(s, net, path, recipient, payload, privs, ds, i);
      before := net[path[i].address];
    } else {
      var net1 := TravelMiddle(s, net, path, recipient, payload, privs, ds, i, n);
      before := TravelFrom(s, net1, path, recipient, payload, privs, ds, i + 1, n - 1);
    }
  }

  /** The payload is on the recipient's connection, or queued for it. */
  ghost predicate Arrived(before: Server, after: Server, recipient: Address, payload: bytes) {
    || (recipient in before.peers && after.sent == before.sent + [Frame(recipient, KindFor(before.peers[recipient]), payload)])
    || (before.queue.Some? && after.queue == Some(before.queue.value + [Queued(recipient, payload)]))
  }

  /**
   End to end: an onion built for a path of any length, handed to the first relay, is consumed after as many hops as
   the path has relays. The last relay, which has its peers and queue as at first and is `before` when the message comes,
   then has the exact payload on the recipient's connection or last in its queue, if and only if the recipient is a real
   address that is connected or finds a queue; otherwise it is unchanged.
   */
  lemma OnionDelivered(s: Ciphers, net: Network, path: seq<RelayInfo>, recipient: Address, payload: bytes, privs: seq<bytes>,
                       ds: seq<Draw>)
    returns (before: Server)
    requires s.Lawful() && Fits(s, path, privs, ds) && path != [] && Linked(net, path, privs, 0)
    ensures var last := path[|path| - 1].address;
            var (net', t) := Travel(s, net, Some(ToHop(s, path, recipient, payload, ds, 0)), |path|);
            var served := recipient != ZERO_ADDRESS && Serves(net[last], recipient);
            && before.peers == net[last].peers && before.queue == net[last].queue
            && last in net'
            && (Arrived(before, net'[last], recipient, payload) <==> served)
            && (!served ==> net'[last] == before)
            && t == if served then OnWire(net[last], recipient, payload) else None
  {
    before := TravelFrom(s, net, path, recipient, payload, privs, ds, 0, |path|);
    ServedArrives(before, recipient, payload);
  }

  lemma ServedArrives(r: Server, recipient: Address, payload: bytes)
    ensures Arrived(r, Served(r, recipient, payload).0, recipient, payload) <==> recipient != ZERO_ADDRESS && Serves(r, recipient)
  {
    var q := [Queued(recipient, payload)];
    assert r.queue.Some? ==> |r.queue.value + q| == |r.queue.value| + 1;
    assert |r.sent + [Frame(recipient, RelayForward, payload)]| == |r.sent| + 1;
  }
}
