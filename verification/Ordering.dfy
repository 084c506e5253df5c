/** Ordered, deduplicated delivery of pkg/network/message_handler.go, and the numbering in message_sender.go. */
module Ordering {
  import opened Bytes

  /** A uint64 sequence number. */
  type Number = n: nat | n < U64

  datatype Message = Message(from: Address, num: Number, content: bytes)

  /** The next uint64, wrapping around. */
  function Successor(n: Number): Number {
    if n + 1 == U64 then 0 else n + 1
  }

  // ---- One sender ----

  /** What the client keeps for one sender, and what it has delivered from it. */
  datatype Peer = Peer(expected: Number, buffer: map<Number, Message>, received: set<Number>, log: seq<Message>)

  const NEW_PEER := Peer(0, map[], {}, [])

  /** One pass of the loop of deliverBufferedMessages. */
  function DrainOne(p: Peer): Peer
    requires p.expected in p.buffer
  {
    Peer(Successor(p.expected), p.buffer - {p.expected}, p.received, p.log + [p.buffer[p.expected]])
  }

  /** deliverBufferedMessages. */
  function Drain(p: Peer): Peer
    decreases |p.buffer|
  {
    if p.expected in p.buffer then Drain(DrainOne(p)) else p
  }

  /** handleOrderedMessage, for a message of this sender. */
  function Receive(p: Peer, msg: Message): Peer {
    if msg.num in p.received then p
    else
      var q := p.(received := p.received + {msg.num});
      if msg.num == p.expected then Drain(q.(expected := Successor(p.expected), log := p.log + [msg]))
      else if msg.num > p.expected then q.(buffer := p.buffer[msg.num := msg])
      else q
  }

  function ReceiveAll(h: seq<Message>): Peer {
    if h == [] then NEW_PEER else Receive(ReceiveAll(h[..|h| - 1]), h[|h| - 1])
  }

  // ---- What an arrival sequence should give ----

  ghost predicate Arrived(h: seq<Message>, n: nat) {
    exists i :: 0 <= i < |h| && h[i].num == n
  }

  /** The first arrival with number `n`. */
  ghost function First(h: seq<Message>, n: nat): (m: Message)
    requires Arrived(h, n)
    ensures m in h && m.num == n
  {
    if h[0].num == n then h[0] else First(h[1..], n)
  }

  lemma {:induction false} FirstStays(h: seq<Message>, msg: Message, n: nat)
    requires Arrived(h, n)
    ensures Arrived(h + [msg], n) && First(h + [msg], n) == First(h, n)
    decreases |h|
  {
    assert (h + [msg])[0] == h[0];
    if h[0].num != n {
      FirstStays(h[1..], msg, n);
      assert (h + [msg])[1..] == h[1..] + [msg];
    }
  }

  lemma {:induction false} FirstIsNew(h: seq<Message>, msg: Message)
    requires !Arrived(h, msg.num)
    ensures Arrived(h + [msg], msg.num) && First(h + [msg], msg.num) == msg
    decreases |h|
  {
    assert (h + [msg])[|h|] == msg;
    if h != [] {
      assert h[0].num != msg.num;
      FirstIsNew(h[1..], msg);
      assert (h + [msg])[1..] == h[1..] + [msg];
    }
  }

  /** Delivered: the first arrivals of 0, 1, .. in order. Buffered: the first arrivals from number `low` on. */
  ghost predicate Holds(p: Peer, h: seq<Message>, low: nat) {
    && |p.log| <= U64
    && p.expected == (if |p.log| == U64 then 0 else |p.log|)
    && (forall n: Number :: n in p.received <==> Arrived(h, n))
    && (forall n :: 0 <= n < |p.log| ==> Arrived(h, n) && p.log[n] == First(h, n))
    && (forall n :: n in p.buffer <==> n >= low && Arrived(h, n))
    && (forall n :: n in p.buffer ==> p.buffer[n] == First(h, n))
  }

  /** The log stops at the least number that has not arrived. */
  ghost predicate Reflects(p: Peer, h: seq<Message>) {
    Holds(p, h, |p.log|) && !Arrived(h, |p.log|)
  }

  lemma DrainStep(p: Peer, h: seq<Message>)
    requires Holds(p, h, |p.log|) && p.expected in p.buffer
    ensures Holds(DrainOne(p), h, |DrainOne(p).log|)
  {
    assert |p.log| < U64;
    var q := DrainOne(p);
    forall n | 0 <= n < |q.log|
      ensures Arrived(h, n) && q.log[n] == First(h, n)
    {
    }
  }

  lemma {:induction false} DrainReflects(p: Peer, h: seq<Message>)
    requires Holds(p, h, |p.log|)
    ensures Reflects(Drain(p), h)
    decreases |p.buffer|
  {
    if p.expected in p.buffer {
      DrainStep(p, h);
      DrainReflects(DrainOne(p), h);
    }
  }

  /** A message whose number has arrived before changes nothing. */
  lemma DuplicateReflects(p: Peer, h: seq<Message>, msg: Message)
    requires Reflects(p, h) && Arrived(h, msg.num)
    ensures Reflects(p, h + [msg])
  {
    ArrivedNext(h, msg);
    forall n: nat | Arrived(h, n)
      ensures First(h + [msg], n) == First(h, n)
    {
      FirstStays(h, msg, n);
    }
  }

  lemma ArrivedNext(h: seq<Message>, msg: Message)
    ensures forall n: nat :: Arrived(h + [msg], n) <==> Arrived(h, n) || n == msg.num
  {
    forall n: nat
      ensures Arrived(h + [msg], n) <==> Arrived(h, n) || n == msg.num
    {
      if Arrived(h, n) {
        FirstStays(h, msg, n);
      }
      if n == msg.num {
        assert (h + [msg])[|h|] == msg;
      }
    }
  }

  lemma NewReflects(p: Peer, h: seq<Message>, msg: Message)
    requires Reflects(p, h) && !Arrived(h, msg.num)
    ensures Reflects(Receive(p, msg), h + [msg])
  {
    var h' := h + [msg];
    ArrivedNext(h, msg);
    FirstIsNew(h, msg);
    forall n: nat | Arrived(h, n)
      ensures First(h', n) == First(h, n)
    {
      FirstStays(h, msg, n);
    }
    if msg.num == |p.log| {
      NextHolds(p, h, msg);
      DrainReflects(Peer(Successor(p.expected), p.buffer, p.received + {msg.num}, p.log + [msg]), h');
    } else {
      assert msg.num > |p.log|;
    }
  }

  lemma NextHolds(p: Peer, h: seq<Message>, msg: Message)
    requires Reflects(p, h) && !Arrived(h, msg.num) && msg.num == |p.log|
    requires forall n: nat :: Arrived(h + [msg], n) <==> Arrived(h, n) || n == msg.num
    requires forall n: nat :: Arrived(h, n) ==> First(h + [msg], n) == First(h, n)
    requires First(h + [msg], msg.num) == msg
    ensures Holds(Peer(Successor(p.expected), p.buffer, p.received + {msg.num}, p.log + [msg]), h + [msg], |p.log| + 1)
  {
  }

  /** For every arrival sequence, with duplication and reordering, the state is the one the arrivals determine. */
  lemma {:induction false} ReceiveAllReflects(h: seq<Message>)
    ensures Reflects(ReceiveAll(h), h)
    decreases |h|
  {
    if h != [] {
      var n := |h| - 1;
      ReceiveAllReflects(h[..n]);
      assert h[..n] + [h[n]] == h;
      if Arrived(h[..n], h[n].num) {
        DuplicateReflects(ReceiveAll(h[..n]), h[..n], h[n]);
      } else {
        NewReflects(ReceiveAll(h[..n]), h[..n], h[n]);
      }
    }
  }

  /** Two arrival sequences with the same first arrivals leave the same log, buffer and expected number. */
  lemma OrderIndependent(h1: seq<Message>, h2: seq<Message>)
    requires forall n: Number :: Arrived(h1, n) <==> Arrived(h2, n)
    requires forall n: Number :: Arrived(h1, n) ==> First(h1, n) == First(h2, n)
    ensures ReceiveAll(h1) == ReceiveAll(h2)
  {
    ReceiveAllReflects(h1);
    ReceiveAllReflects(h2);
    var p1, p2 := ReceiveAll(h1), ReceiveAll(h2);
    assert |p1.log| == |p2.log|;
    assert p1.log == p2.log;
    assert p1.buffer == p2.buffer;
    assert p1.received == p2.received;
  }

  // ---- From sender to receiver ----

  /** Messages numbered as GetNextSequenceNumber does, from 0 up with uint64 wrap-around. */
  ghost predicate Numbered(sent: seq<Message>) {
    forall i :: 0 <= i < |sent| ==> sent[i].num == i % U64
  }

  /** The network may drop, repeat and reorder, but every arrival was sent. */
  ghost predicate Carried(h: seq<Message>, sent: seq<Message>) {
    forall i :: 0 <= i < |h| ==> h[i] in sent
  }

  /** A number used twice, after the counter wraps, is used for the same message. */
  ghost predicate NoReuse(sent: seq<Message>) {
    forall i :: 0 <= i < |sent| ==> sent[i] == sent[i % U64]
  }

  lemma NumberFixesMessage(sent: seq<Message>, k: nat)
    requires Numbered(sent) && NoReuse(sent) && k < |sent|
    ensures sent[k].num < |sent| && sent[k] == sent[sent[k].num]
  {
    assert sent[k].num == k % U64 <= k;
  }

  lemma LogIsSent(sent: seq<Message>, h: seq<Message>, i: nat)
    requires Numbered(sent) && NoReuse(sent) && Carried(h, sent) && i < |ReceiveAll(h).log|
    ensures i < |sent| && ReceiveAll(h).log[i] == sent[i]
  {
    ReceiveAllReflects(h);
    var m := First(h, i);
    var k :| 0 <= k < |sent| && sent[k] == m;
    NumberFixesMessage(sent, k);
  }

  lemma PrefixIfNoReuse(sent: seq<Message>, h: seq<Message>)
    requires Numbered(sent) && NoReuse(sent) && Carried(h, sent)
    ensures ReceiveAll(h).log <= sent
  {
    var log := ReceiveAll(h).log;
    forall i: nat | i < |log|
      ensures i < |sent| && log[i] == sent[i]
    {
      LogIsSent(sent, h, i);
    }
    if log != [] {
      LogIsSent(sent, h, |log| - 1);
    }
    assert log == sent[..|log|];
  }

  lemma LastIsDelivered(h: seq<Message>)
    requires h != [] && forall j :: 0 <= j < |h| ==> h[j].num == j
    ensures var log := ReceiveAll(h).log; |log| >= |h| && log[|h| - 1] == h[|h| - 1]
  {
    var n := |h| - 1;
    ReceiveAllReflects(h);
    FirstIsNew(h[..n], h[n]);
    assert h[..n] + [h[n]] == h;
    assert forall j: nat :: j <= n ==> h[j].num == j && Arrived(h, j);
  }

  /** If only the later use of a number arrives, after all earlier numbers, it is delivered in the earlier one's place. */
  lemma ReuseIsDelivered(sent: seq<Message>, i: nat) returns (h: seq<Message>)
    requires Numbered(sent) && i < |sent|
    ensures Carried(h, sent)
    ensures var log := ReceiveAll(h).log; |log| > i % U64 && log[i % U64] == sent[i]
  {
    var n := i % U64;
    h := sent[..n] + [sent[i]];
    LastIsDelivered(h);
  }

  lemma NoReuseIfPrefix(sent: seq<Message>, i: nat)
    requires Numbered(sent) && i < |sent|
    requires forall h :: Carried(h, sent) ==> ReceiveAll(h).log <= sent
    ensures sent[i] == sent[i % U64]
  {
    var h := ReuseIsDelivered(sent, i);
    assert ReceiveAll(h).log <= sent;
  }

  /**
   Over a network that drops, repeats and reorders, the delivered log is always a prefix of what was sent if and only
   if no number is used for two different messages.
   */
  lemma PrefixIffNoReuse(sent: seq<Message>)
    requires Numbered(sent)
    ensures (forall h :: Carried(h, sent) ==> ReceiveAll(h).log <= sent) <==> NoReuse(sent)
  {
    if NoReuse(sent) {
      forall h | Carried(h, sent)
        ensures ReceiveAll(h).log <= sent
      {
        PrefixIfNoReuse(sent, h);
      }
    } else {
      var i :| 0 <= i < |sent| && sent[i] != sent[i % U64];
      if forall h :: Carried(h, sent) ==> ReceiveAll(h).log <= sent {
        NoReuseIfPrefix(sent, i);
      }
    }
  }

  lemma NoReuseBelowWrap(sent: seq<Message>)
    requires |sent| <= U64
    ensures NoReuse(sent)
  {
    forall i | 0 <= i < |sent|
      ensures sent[i] == sent[i % U64]
    {
      assert i % U64 == i;
    }
  }

  /** GetNextSequenceNumber after so many calls for one recipient. */
  function Counter(calls: nat): Number {
    if calls == 0 then 0 else Successor(Counter(calls - 1))
  }

  function SendAll(from: Address, contents: seq<bytes>): (sent: seq<Message>)
    ensures |sent| == |contents|
  {
    if contents == [] then []
    else
      var n := |contents| - 1;
      SendAll(from, contents[..n]) + [Message(from, Counter(n), contents[n])]
  }

  lemma SendAllNext(from: Address, contents: seq<bytes>, content: bytes)
    ensures SendAll(from, contents + [content]) == SendAll(from, contents) + [Message(from, Counter(|contents|), content)]
    ensures Counter(|contents| + 1) == Successor(Counter(|contents|))
  {
    assert (contents + [content])[..|contents|] == contents;
  }

  lemma NextModulo(n: nat)
    ensures (n + 1) % U64 == if n % U64 + 1 == U64 then 0 else n % U64 + 1
  {
  }

  lemma {:induction false} CounterWraps(calls: nat)
    ensures Counter(calls) == calls % U64
  {
    if calls > 0 {
      CounterWraps(calls - 1);
      NextModulo(calls - 1);
    }
  }

  lemma {:induction false} SendAllNumbers(from: Address, contents: seq<bytes>)
    ensures Numbered(SendAll(from, contents))
    decreases |contents|
  {
    if contents != [] {
      SendAllNumbers(from, contents[..|contents| - 1]);
      CounterWraps(|contents| - 1);
    }
  }

  /** What a receiver delivers of at most 2^64 numbered messages is a prefix of them, whatever the network does. */
  lemma DeliveredIsPrefix(from: Address, contents: seq<bytes>, h: seq<Message>)
    requires |contents| <= U64 && Carried(h, SendAll(from, contents))
    ensures ReceiveAll(h).log <= SendAll(from, contents)
  {
    SendAllNumbers(from, contents);
    NoReuseBelowWrap(SendAll(from, contents));
    PrefixIfNoReuse(SendAll(from, contents), h);
  }

  /** Once the first `n` numbers have each arrived, the first `n` messages have been delivered. */
  lemma FirstArrivedAreDelivered(sent: seq<Message>, h: seq<Message>, n: nat)
    requires Numbered(sent) && NoReuse(sent) && Carried(h, sent) && n <= |sent|
    requires forall i :: 0 <= i < n ==> Arrived(h, i)
    ensures sent[..n] <= ReceiveAll(h).log
  {
    ReceiveAllReflects(h);
    PrefixIfNoReuse(sent, h);
  }

  // ---- The client object ----

  ghost function Only(ms: seq<Message>, from: Address): seq<Message> {
    if ms == [] then []
    else
      var rest := Only(ms[..|ms| - 1], from);
      if ms[|ms| - 1].from == from then rest + [ms[|ms| - 1]] else rest
  }

  lemma OnlyNext(ms: seq<Message>, m: Message, from: Address)
    ensures Only(ms + [m], from) == if m.from == from then Only(ms, from) + [m] else Only(ms, from)
  {
    assert (ms + [m])[..|ms|] == ms;
  }

  /** What the arrivals of one sender determine. */
  ghost function Truth(arrivals: seq<Message>, from: Address): Peer {
    ReceiveAll(Only(arrivals, from))
  }

  class Client {
    var receiveSequenceNumbers: map<Address, Number>
    var messageBuffer: map<Address, map<Number, Message>>
    var receivedMessageIDs: map<Address, set<Number>>
    var sendSequenceNumbers: map<Address, Number>
    /** What has been numbered for each recipient. */
    ghost var outbox: map<Address, seq<bytes>>
    ghost var arrivals: seq<Message>
    ghost var delivered: seq<Message>

    /** The state kept for one sender; an absent entry is Go's zero value. */
    ghost function PeerOf(from: Address): Peer
      reads this`receiveSequenceNumbers, this`messageBuffer, this`receivedMessageIDs, this`delivered
    {
      Peer(if from in receiveSequenceNumbers then receiveSequenceNumbers[from] else 0,
           if from in messageBuffer then messageBuffer[from] else map[],
           if from in receivedMessageIDs then receivedMessageIDs[from] else {},
           Only(delivered, from))
    }

    /** Every sender's state is what its own arrivals determine. */
    ghost predicate Valid()
      reads this
    {
      Matches(arrivals)
    }

    ghost predicate Matches(ms: seq<Message>)
      reads this`receiveSequenceNumbers, this`messageBuffer, this`receivedMessageIDs, this`delivered
    {
      forall from: Address :: PeerOf(from) == Truth(ms, from)
    }

    ghost function Outbox(to: Address): seq<bytes>
      reads this`outbox
    {
      if to in outbox then outbox[to] else []
    }

    /** The counter of every recipient is what the messages numbered for it make it. */
    ghost predicate Counts()
      reads this`sendSequenceNumbers, this`outbox
    {
      forall to: Address :: (if to in sendSequenceNumbers then sendSequenceNumbers[to] else 0) == Counter(|Outbox(to)|)
    }

    constructor ()
      ensures Valid() && Counts() && arrivals == [] && delivered == [] && outbox == map[]
    {
      outbox := map[];
      receiveSequenceNumbers, messageBuffer, receivedMessageIDs, sendSequenceNumbers := map[], map[], map[], map[];
      arrivals, delivered := [], [];
    }

    method Deliver(msg: Message)
      modifies this`delivered
      ensures delivered == old(delivered) + [msg]
    {
      delivered := delivered + [msg];
    }

    method GetNextSequenceNumber(to: Address) returns (n: Number)
      modifies this`sendSequenceNumbers
      ensures n == if to in old(sendSequenceNumbers) then old(sendSequenceNumbers)[to] else 0
      ensures sendSequenceNumbers == old(sendSequenceNumbers)[to := Successor(n)]
    {
      n := if to in sendSequenceNumbers then sendSequenceNumbers[to] else 0;
      sendSequenceNumbers := sendSequenceNumbers[to := Successor(n)];
    }

    /**
     SendMessage, up to the point where the message goes out: in any interleaving of recipients the messages for one of
     them are numbered as SendAll numbers them.
     */
    method NumberMessage(from: Address, to: Address, content: bytes) returns (msg: Message)
      requires Counts()
      modifies this`sendSequenceNumbers, this`outbox
      ensures Counts() && outbox == old(outbox)[to := old(Outbox(to)) + [content]]
      ensures SendAll(from, Outbox(to)) == SendAll(from, old(Outbox(to))) + [msg]
    {
      SendAllNext(from, Outbox(to), content);
      var n := GetNextSequenceNumber(to);
      msg := Message(from, n, content);
      outbox := outbox[to := Outbox(to) + [content]];
    }

    method DeliverBufferedMessages(from: Address)
      requires from in messageBuffer && from in receiveSequenceNumbers
      requires forall n :: n in messageBuffer[from] ==> messageBuffer[from][n].from == from
      modifies this`receiveSequenceNumbers, this`messageBuffer, this`delivered
      ensures PeerOf(from) == Drain(old(PeerOf(from)))
      ensures forall a: Address :: a != from ==> PeerOf(a) == old(PeerOf(a))
    {
      while true
        invariant from in messageBuffer && from in receiveSequenceNumbers
        invariant forall n :: n in messageBuffer[from] ==> messageBuffer[from][n].from == from
        invariant Drain(PeerOf(from)) == Drain(old(PeerOf(from)))
        invariant forall a: Address :: a != from ==> PeerOf(a) == old(PeerOf(a))
        decreases |messageBuffer[from]|
      {
        var expectedSeq := receiveSequenceNumbers[from];
        if expectedSeq !in messageBuffer[from] {
          break;
        }
        var msg := messageBuffer[from][expectedSeq];
        forall a: Address {
          OnlyNext(delivered, msg, a);
        }
        Deliver(msg);
        messageBuffer := messageBuffer[from := messageBuffer[from] - {expectedSeq}];
        receiveSequenceNumbers := receiveSequenceNumbers[from := Successor(expectedSeq)];
      }
    }

    /** One arrival, after which every sender's state, log included, is again what its own arrivals determine. */
    method HandleOrderedMessage(msg: Message)
      requires Valid()
      modifies this`receiveSequenceNumbers, this`messageBuffer, this`receivedMessageIDs, this`delivered, this`arrivals
      ensures arrivals == old(arrivals) + [msg] && Valid()
    {
      AcceptArrival(msg, arrivals);
      arrivals := arrivals + [msg];
    }

    method AcceptArrival(msg: Message, ghost ms: seq<Message>)
      requires Matches(ms)
      modifies this`receiveSequenceNumbers, this`messageBuffer, this`receivedMessageIDs, this`delivered
      ensures Matches(ms + [msg])
    {
      TruthNext(ms, msg);
      assert PeerOf(msg.from) == Truth(ms, msg.from);
      Accept(msg);
      forall a: Address
        ensures PeerOf(a) == Truth(ms + [msg], a)
      {
        assert old(PeerOf(a)) == Truth(ms, a);
      }
    }

    /** Go's nil maps become empty ones; nothing observable changes. */
    method EnsureEntries(from: Address)
      modifies this`messageBuffer, this`receivedMessageIDs
      ensures from in messageBuffer && from in receivedMessageIDs
      ensures forall a: Address :: PeerOf(a) == old(PeerOf(a))
    {
      if from !in messageBuffer {
        messageBuffer := messageBuffer[from := map[]];
      }
      if from !in receivedMessageIDs {
        receivedMessageIDs := receivedMessageIDs[from := {}];
      }
    }

    /** The body of handleOrderedMessage, without the bookkeeping of arrivals. */
    method Accept(msg: Message)
      requires forall n :: n in PeerOf(msg.from).buffer ==> PeerOf(msg.from).buffer[n].from == msg.from
      modifies this`receiveSequenceNumbers, this`messageBuffer, this`receivedMessageIDs, this`delivered
      ensures PeerOf(msg.from) == Receive(old(PeerOf(msg.from)), msg)
      ensures forall a: Address :: a != msg.from ==> PeerOf(a) == old(PeerOf(a))
    {
      var from, seqNum := msg.from, msg.num;
      EnsureEntries(from);
      assert messageBuffer[from] == PeerOf(from).buffer && receivedMessageIDs[from] == PeerOf(from).received;
      if seqNum in receivedMessageIDs[from] {
        return;
      }
      receivedMessageIDs := receivedMessageIDs[from := receivedMessageIDs[from] + {seqNum}];
      var expectedSeq := if from in receiveSequenceNumbers then receiveSequenceNumbers[from] else 0;
      if seqNum == expectedSeq {
        DeliverInOrder(msg, expectedSeq);
        DeliverBufferedMessages(from);
        return;
      }
      if seqNum > expectedSeq {
        var buffer: map<Number, Message> := messageBuffer[from];
        messageBuffer := messageBuffer[from := buffer[seqNum := msg]];
      }
    }

    method DeliverInOrder(msg: Message, expectedSeq: Number)
      modifies this`receiveSequenceNumbers, this`delivered
      ensures msg.from in receiveSequenceNumbers
      ensures PeerOf(msg.from) == old(PeerOf(msg.from)).(expected := Successor(expectedSeq), log := old(PeerOf(msg.from)).log + [msg])
      ensures forall a: Address :: a != msg.from ==> PeerOf(a) == old(PeerOf(a))
    {
      forall a: Address {
        OnlyNext(delivered, msg, a);
      }
      Deliver(msg);
      receiveSequenceNumbers := receiveSequenceNumbers[msg.from := Successor(expectedSeq)];
    }
  }

  lemma {:induction false} OnlyFrom(ms: seq<Message>, from: Address)
    ensures forall m :: m in Only(ms, from) ==> m.from == from
    decreases |ms|
  {
    if ms != [] {
      OnlyFrom(ms[..|ms| - 1], from);
    }
  }

  /** An arrival advances its sender's state only; buffered messages are the sender's own. */
  lemma TruthNext(arrivals: seq<Message>, msg: Message)
    ensures forall a: Address :: a != msg.from ==> Truth(arrivals + [msg], a) == Truth(arrivals, a)
    ensures Truth(arrivals + [msg], msg.from) == Receive(Truth(arrivals, msg.from), msg)
    ensures var p := Truth(arrivals, msg.from); forall n :: n in p.buffer ==> p.buffer[n].from == msg.from
  {
    forall a: Address {
      OnlyNext(arrivals, msg, a);
    }
    var h := Only(arrivals, msg.from);
    assert (h + [msg])[..|h|] == h;
    ReceiveAllReflects(h);
    OnlyFrom(arrivals, msg.from);
    var p := ReceiveAll(h);
    forall n | n in p.buffer
      ensures p.buffer[n].from == msg.from
    {
      assert p.buffer[n] == First(h, n);
    }
  }
}
