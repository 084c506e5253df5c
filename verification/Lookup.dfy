/** Iterative lookups of pkg/dht/protocol.go against arbitrary replies, failures and goroutine schedules. */
module Lookup {
  import opened Bytes
  import opened NodeId
  import opened Closest
  import opened RoutingTable

  const ALPHA: nat := 3

  /** In a round each query first marks its contact as queried and later handles its reply, both under one lock. */
  datatype RoundEvent = Mark(query: nat) | Handle(query: nat)

  /** An interleaving of the `n` queries of a round. */
  ghost predicate Interleaving(order: seq<RoundEvent>, n: nat) {
    && (forall i :: 0 <= i < |order| ==> order[i].query < n)
    && (forall q :: 0 <= q < n ==> Mark(q) in order && Handle(q) in order)
    && (forall i, j :: 0 <= i < j < |order| ==> order[i] != order[j])
    && (forall i, j :: 0 <= i < j < |order| && order[i].Handle? ==> order[j] != Mark(order[i].query))
  }

  /** The clock readings of successive table updates. */
  datatype Clock = Clock(readings: nat -> int) {
    function At(i: nat): int { readings(i) }
  }

  /** Reply to query `q` of round `r` (None: the RPC failed), schedule of each round, and time of each table update. */
  datatype Network = Network(
    replies: (nat, nat) -> Option<seq<Contact>>,
    orders: (nat, nat) -> seq<RoundEvent>,
    clock: Clock)
  {
    function Reply(r: nat, q: nat): Option<seq<Contact>> { replies(r, q) }

    function Order(r: nat, n: nat): seq<RoundEvent> { orders(r, n) }

    ghost predicate Legal() {
      forall r: nat, n: nat :: Interleaving(Order(r, n), n)
    }
  }

  /** The first `n` contacts of the shortlist that have not been queried. */
  function Select(shortlist: seq<Contact>, queried: set<NodeId>, n: nat): (r: seq<Contact>)
    ensures |r| <= n
    ensures forall c :: c in r ==> c in shortlist && c.id !in queried
  {
    if shortlist == [] || n == 0 then []
    else if shortlist[0].id in queried then Select(shortlist[1..], queried, n)
    else [shortlist[0]] + Select(shortlist[1..], queried, n - 1)
  }

  lemma SortedTail(target: NodeId, s: seq<Contact>)
    requires s != [] && Sorted(target, s)
    ensures Sorted(target, s[1..]) && forall c :: c in s[1..] ==> Dist(target, s[0]) <= Dist(target, c)
    ensures forall c :: c in s <==> c == s[0] || c in s[1..]
  {
    assert s == [s[0]] + s[1..];
  }

  /** Those taken are the nearest of those not queried. */
  lemma {:induction false} SelectTakesNearest(target: NodeId, shortlist: seq<Contact>, queried: set<NodeId>, n: nat, c: Contact, d: Contact)
    requires Sorted(target, shortlist)
    ensures d in Select(shortlist, queried, n) && c in shortlist && c.id !in queried && c !in Select(shortlist, queried, n) ==>
            Dist(target, d) <= Dist(target, c)
    decreases |shortlist|
  {
    if shortlist != [] && n > 0 {
      SortedTail(target, shortlist);
      SelectStep(shortlist, queried, n, c);
      SelectStep(shortlist, queried, n, d);
      SelectTakesNearest(target, shortlist[1..], queried, if shortlist[0].id in queried then n else n - 1, c, d);
    }
  }

  /** One that was not queried is left out only when `n` others were found, so taking none means that all were queried. */
  lemma {:induction false} SelectLeavesOut(shortlist: seq<Contact>, queried: set<NodeId>, n: nat, c: Contact)
    requires c in shortlist && c.id !in queried && c !in Select(shortlist, queried, n)
    ensures |Select(shortlist, queried, n)| == n
    decreases |shortlist|
  {
    if n > 0 {
      SelectStep(shortlist, queried, n, c);
      assert shortlist == [shortlist[0]] + shortlist[1..];
      SelectLeavesOut(shortlist[1..], queried, if shortlist[0].id in queried then n else n - 1, c);
    }
  }

  lemma SelectStep(shortlist: seq<Contact>, queried: set<NodeId>, n: nat, x: Contact)
    requires shortlist != [] && n > 0
    ensures x in Select(shortlist, queried, n) <==>
            if shortlist[0].id in queried then x in Select(shortlist[1..], queried, n)
            else x == shortlist[0] || x in Select(shortlist[1..], queried, n - 1)
  {
  }

  lemma SortedCons(target: NodeId, first: Contact, rest: seq<Contact>)
    requires Sorted(target, rest) && forall c :: c in rest ==> Dist(target, first) <= Dist(target, c)
    ensures Sorted(target, [first] + rest)
  {
  }

  /** They are taken in order, and none more often than it is listed. */
  lemma {:induction false} SelectInOrder(target: NodeId, shortlist: seq<Contact>, queried: set<NodeId>, n: nat)
    requires Sorted(target, shortlist)
    ensures Sorted(target, Select(shortlist, queried, n)) && multiset(Select(shortlist, queried, n)) <= multiset(shortlist)
    decreases |shortlist|
  {
    if shortlist != [] && n > 0 {
      var rest := shortlist[1..];
      SortedTail(target, shortlist);
      assert multiset(shortlist) == multiset{shortlist[0]} + multiset(rest) by {
        assert shortlist == [shortlist[0]] + rest;
      }
      if shortlist[0].id in queried {
        SelectInOrder(target, rest, queried, n);
      } else {
        SelectInOrder(target, rest, queried, n - 1);
        SortedCons(target, shortlist[0], Select(rest, queried, n - 1));
      }
    }
  }

  /** The contacts of a reply that are neither queried nor the node itself. */
  function Accept(contacts: seq<Contact>, queried: set<NodeId>, self: NodeId): (r: seq<Contact>)
    ensures forall c :: c in r <==> c in contacts && c.id !in queried && c.id != self
  {
    if contacts == [] then []
    else
      var rest := Accept(contacts[..|contacts| - 1], queried, self);
      var c := contacts[|contacts| - 1];
      if c.id !in queried && c.id != self then rest + [c] else rest
  }

  /** A round step by step: which ids are then queried, and which contacts have been accepted. */
  function RunOrder(net: Network, r: nat, toQuery: seq<Contact>, self: NodeId, order: seq<RoundEvent>, queried: set<NodeId>)
    : (set<NodeId>, seq<Contact>)
    requires forall i :: 0 <= i < |order| ==> order[i].query < |toQuery|
    decreases |order|
  {
    if order == [] then (queried, [])
    else
      var (seen, accepted) := RunOrder(net, r, toQuery, self, order[..|order| - 1], queried);
      match order[|order| - 1]
      case Mark(q) => (seen + {toQuery[q].id}, accepted)
      case Handle(q) =>
        match net.Reply(r, q)
        case None => (seen, accepted)
        case Some(contacts) => (seen, accepted + Accept(contacts, seen, self))
  }

  lemma {:induction false} RunOrderMarks(net: Network, r: nat, toQuery: seq<Contact>, self: NodeId, order: seq<RoundEvent>,
                                         queried: set<NodeId>, x: NodeId)
    requires forall i :: 0 <= i < |order| ==> order[i].query < |toQuery|
    ensures x in RunOrder(net, r, toQuery, self, order, queried).0 <==>
            x in queried || exists q :: 0 <= q < |toQuery| && Mark(q) in order && toQuery[q].id == x
    decreases |order|
  {
    if order != [] {
      RunOrderMarks(net, r, toQuery, self, order[..|order| - 1], queried, x);
      assert order == order[..|order| - 1] + [order[|order| - 1]];
    }
  }

  /** Everything accepted came in a reply of this round and is neither the node itself nor queried before the round. */
  lemma {:induction false} RunOrderAccepts(net: Network, r: nat, toQuery: seq<Contact>, self: NodeId, order: seq<RoundEvent>,
                                           queried: set<NodeId>, c: Contact)
    requires forall i :: 0 <= i < |order| ==> order[i].query < |toQuery|
    requires c in RunOrder(net, r, toQuery, self, order, queried).1
    ensures c.id != self && c.id !in queried && exists q :: 0 <= q < |toQuery| && Replied(net, r, q, c)
    decreases |order|
  {
    var n := |order| - 1;
    var (seen, accepted) := RunOrder(net, r, toQuery, self, order[..n], queried);
    if c in accepted {
      RunOrderAccepts(net, r, toQuery, self, order[..n], queried, c);
    } else {
      RunOrderMarks(net, r, toQuery, self, order[..n], queried, c.id);
      assert Replied(net, r, order[n].query, c);
    }
  }

  // ---- Nothing replied is dropped ----

  lemma {:induction false} AcceptCount(contacts: seq<Contact>, queried: set<NodeId>, self: NodeId, c: Contact)
    ensures multiset(Accept(contacts, queried, self))[c]
            == if c.id !in queried && c.id != self then multiset(contacts)[c] else 0
    decreases |contacts|
  {
    if contacts != [] {
      var n := |contacts| - 1;
      AcceptCount(contacts[..n], queried, self, c);
      assert contacts == contacts[..n] + [contacts[n]];
    }
  }

  /** How often `c` stands in one reply; never when the RPC failed. */
  function TimesIn(net: Network, r: nat, q: nat, c: Contact): nat {
    if net.Reply(r, q).Some? then multiset(net.Reply(r, q).value)[c] else 0
  }

  /** How often `c` stands in the replies to the round's first `n` queries. */
  function Times(net: Network, r: nat, n: nat, c: Contact): nat {
    if n == 0 then 0 else Times(net, r, n - 1, c) + TimesIn(net, r, n - 1, c)
  }

  /** How often `c` stands in the replies handled by these events. */
  function Handled(net: Network, r: nat, order: seq<RoundEvent>, c: Contact): nat {
    if order == [] then 0
    else Handled(net, r, order[..|order| - 1], c) + HandledBy(net, r, order[|order| - 1], c)
  }

  function HandledBy(net: Network, r: nat, e: RoundEvent, c: Contact): nat {
    if e.Handle? then TimesIn(net, r, e.query, c) else 0
  }

  lemma {:induction false} RunOrderCount(net: Network, r: nat, toQuery: seq<Contact>, self: NodeId, order: seq<RoundEvent>,
                                         queried: set<NodeId>, c: Contact)
    requires forall i :: 0 <= i < |order| ==> order[i].query < |toQuery|
    ensures var (seen, accepted) := RunOrder(net, r, toQuery, self, order, queried);
            && queried <= seen && multiset(accepted)[c] <= Handled(net, r, order, c)
            && (c.id != self && c.id !in seen ==> multiset(accepted)[c] == Handled(net, r, order, c))
    decreases |order|
  {
    if order != [] {
      var n := |order| - 1;
      RunOrderCount(net, r, toQuery, self, order[..n], queried, c);
      var (seen, accepted) := RunOrder(net, r, toQuery, self, order[..n], queried);
      if order[n].Handle? && net.Reply(r, order[n].query).Some? {
        AcceptCount(net.Reply(r, order[n].query).value, seen, self, c);
      }
    }
  }

  lemma {:induction false} HandledWithout(net: Network, r: nat, order: seq<RoundEvent>, k: nat, c: Contact)
    requires k < |order|
    ensures Handled(net, r, order, c) == Handled(net, r, order[..k] + order[k + 1..], c) + HandledBy(net, r, order[k], c)
    decreases |order|
  {
    var n := |order| - 1;
    if k == n {
      assert order[..k] + order[k + 1..] == order[..n];
    } else {
      HandledWithout(net, r, order[..n], k, c);
      var rest := order[..k] + order[k + 1..];
      assert rest[..|rest| - 1] == order[..n][..k] + order[..n][k + 1..] && rest[|rest| - 1] == order[n];
    }
  }

  lemma {:induction false} OnlyMarks(net: Network, r: nat, order: seq<RoundEvent>, c: Contact)
    requires forall i :: 0 <= i < |order| ==> order[i].Mark?
    ensures Handled(net, r, order, c) == 0
    decreases |order|
  {
    if order != [] {
      OnlyMarks(net, r, order[..|order| - 1], c);
    }
  }

  /** Each of the first `n` queries is handled, once, and no other is. */
  ghost predicate HandlesAll(order: seq<RoundEvent>, n: nat) {
    && (forall i :: 0 <= i < |order| && order[i].Handle? ==> order[i].query < n)
    && (forall q :: 0 <= q < n ==> Handle(q) in order)
    && (forall i, j :: 0 <= i < j < |order| && order[i].Handle? ==> order[i] != order[j])
  }

  lemma HandlesOneLess(order: seq<RoundEvent>, n: nat, k: nat)
    requires n > 0 && HandlesAll(order, n) && k < |order| && order[k] == Handle(n - 1)
    ensures HandlesAll(order[..k] + order[k + 1..], n - 1)
  {
    var rest := order[..k] + order[k + 1..];
    assert forall i :: 0 <= i < |rest| ==> rest[i] == order[if i < k then i else i + 1];
    forall q | 0 <= q < n - 1
      ensures Handle(q) in rest
    {
      var i :| 0 <= i < |order| && order[i] == Handle(q);
      assert rest[if i < k then i else i - 1] == Handle(q);
    }
  }

  /** Whatever the schedule, what is handled in a round is all of its replies. */
  lemma {:induction false} HandledIsReplies(net: Network, r: nat, order: seq<RoundEvent>, n: nat, c: Contact)
    requires HandlesAll(order, n)
    ensures Handled(net, r, order, c) == Times(net, r, n, c)
    decreases n
  {
    if n == 0 {
      OnlyMarks(net, r, order, c);
    } else {
      var k :| 0 <= k < |order| && order[k] == Handle(n - 1);
      HandledWithout(net, r, order, k, c);
      HandlesOneLess(order, n, k);
      HandledIsReplies(net, r, order[..k] + order[k + 1..], n - 1, c);
    }
  }

  /** Every reply contact that is not the node and was not queried by the end of the round is accepted, as often as it came. */
  lemma RoundComplete(net: Network, r: nat, toQuery: seq<Contact>, self: NodeId, queried: set<NodeId>, c: Contact)
    requires Interleaving(net.Order(r, |toQuery|), |toQuery|)
    ensures var (queried', accepted) := RunOrder(net, r, toQuery, self, net.Order(r, |toQuery|), queried);
            && queried <= queried' && multiset(accepted)[c] <= Times(net, r, |toQuery|, c)
            && (c.id != self && c.id !in queried' ==> multiset(accepted)[c] == Times(net, r, |toQuery|, c))
  {
    RunOrderCount(net, r, toQuery, self, net.Order(r, |toQuery|), queried, c);
    HandledIsReplies(net, r, net.Order(r, |toQuery|), |toQuery|, c);
  }

  /** How often `c` was replied in all these rounds. */
  function AllTimes(net: Network, rounds: seq<seq<Contact>>, c: Contact): nat {
    if rounds == [] then 0
    else AllTimes(net, rounds[..|rounds| - 1], c) + Times(net, |rounds| - 1, |rounds[|rounds| - 1]|, c)
  }

  /** Accepted is what was replied, as often as it was, but for the node itself and what was queried by the end. */
  ghost predicate Complete(net: Network, self: NodeId, rounds: seq<seq<Contact>>, accepted: seq<Contact>, queried: set<NodeId>) {
    forall c: Contact ::
      && multiset(accepted)[c] <= AllTimes(net, rounds, c)
      && (c.id != self && c.id !in queried ==> multiset(accepted)[c] == AllTimes(net, rounds, c))
  }

  /** A contact that some peer replied was replied at least once. */
  lemma {:induction false} RepliedCounts(net: Network, r: nat, n: nat, q: nat, c: Contact)
    requires q < n && Replied(net, r, q, c)
    ensures Times(net, r, n, c) > 0
    decreases n
  {
    if q < n - 1 {
      RepliedCounts(net, r, n - 1, q, c);
    }
  }

  lemma {:induction false} RepliedInRun(net: Network, rounds: seq<seq<Contact>>, r: nat, q: nat, c: Contact)
    requires r < |rounds| && q < |rounds[r]| && Replied(net, r, q, c)
    ensures AllTimes(net, rounds, c) > 0
    decreases |rounds|
  {
    var n := |rounds| - 1;
    if r < n {
      RepliedInRun(net, rounds[..n], r, q, c);
    } else {
      RepliedCounts(net, r, |rounds[r]|, q, c);
    }
  }

  /** So everything replied in any round, never asked and not the node, was accepted. */
  lemma NothingDropped(net: Network, self: NodeId, rounds: seq<seq<Contact>>, accepted: seq<Contact>, queried: set<NodeId>,
                       r: nat, q: nat, c: Contact)
    requires Complete(net, self, rounds, accepted, queried)
    requires r < |rounds| && q < |rounds[r]| && Replied(net, r, q, c) && c.id != self && c.id !in queried
    ensures c in accepted
  {
    RepliedInRun(net, rounds, r, q, c);
    assert multiset(accepted)[c] > 0;
  }

  /** Contacts added to the table one after the other, the i-th at reading `i` of the clock. */
  function AddAll(self: NodeId, t: Table, cs: seq<Contact>, clock: Clock): (t': Table)
    requires |t| == ID_BITS
    ensures |t'| == ID_BITS
  {
    if cs == [] then t
    else TableAdd(self, AddAll(self, t, cs[..|cs| - 1], clock), cs[|cs| - 1], clock.At(|cs| - 1))
  }

  lemma AddAllNext(self: NodeId, t: Table, cs: seq<Contact>, c: Contact, clock: Clock)
    requires |t| == ID_BITS
    ensures AddAll(self, t, cs + [c], clock) == TableAdd(self, AddAll(self, t, cs, clock), c, clock.At(|cs|))
  {
    assert (cs + [c])[..|cs|] == cs;
  }

  /** What the adds do to the table: no id leaves it, and every contact added is in it or met a full bucket. */
  lemma {:induction false} AddAllHas(self: NodeId, t: Table, cs: seq<Contact>, clock: Clock)
    requires TableOk(self, t)
    ensures var t' := AddAll(self, t, cs, clock);
            && TableOk(self, t')
            && (forall id :: HasId(Flatten(t), id) ==> HasId(Flatten(t'), id))
            && (forall c :: c in cs && c.id != self ==> HasId(Flatten(t'), c.id) || |t'[BucketIndex(self, c.id)]| >= K)
    decreases |cs|
  {
    if cs != [] {
      var n := |cs| - 1;
      AddAllHas(self, t, cs[..n], clock);
      var t1 := AddAll(self, t, cs[..n], clock);
      AddOneHas(self, t1, cs[n], clock.At(n));
      assert cs == cs[..n] + [cs[n]];
    }
  }

  lemma AddOneHas(self: NodeId, t: Table, c: Contact, now: int)
    requires TableOk(self, t)
    ensures var t' := TableAdd(self, t, c, now);
            && TableOk(self, t')
            && (forall id :: HasId(Flatten(t), id) ==> HasId(Flatten(t'), id))
            && (forall j :: 0 <= j < |t| ==> |t[j]| <= |t'[j]|)
            && (c.id != self ==> HasId(Flatten(t'), c.id) || |t'[BucketIndex(self, c.id)]| >= K)
  {
    AddKeepsOthers(self, t, c, now);
    forall id | HasId(Flatten(t), id)
      ensures HasId(Flatten(TableAdd(self, t, c, now)), id)
    {
      AddKeepsIds(self, t, c, now, id);
    }
  }

  /** No id is queried in two rounds, and the node never queries itself. */
  ghost predicate QueriesDistinct(rounds: seq<seq<Contact>>, self: NodeId) {
    && (forall i, j, c, d :: 0 <= i < j < |rounds| && c in rounds[i] && d in rounds[j] ==> c.id != d.id)
    && (forall i, c :: 0 <= i < |rounds| && c in rounds[i] ==> c.id != self)
    && (forall i :: 0 <= i < |rounds| ==> 0 < |rounds[i]| <= ALPHA)
  }

  ghost predicate Queried(queried: set<NodeId>, rounds: seq<seq<Contact>>, self: NodeId) {
    forall id :: id in queried <==> id == self || AskedFor(rounds, id)
  }

  lemma RoundIsNew(rounds: seq<seq<Contact>>, queried: set<NodeId>, self: NodeId, round: seq<Contact>, queried': set<NodeId>)
    requires QueriesDistinct(rounds, self) && Queried(queried, rounds, self) && 0 < |round| <= ALPHA
    requires forall c :: c in round ==> c.id !in queried
    requires forall id :: id in queried' <==> id in queried || exists c :: c in round && c.id == id
    ensures QueriesDistinct(rounds + [round], self) && Queried(queried', rounds + [round], self)
  {
    forall id: NodeId
      ensures id in queried' <==> id == self || AskedFor(rounds + [round], id)
    {
      AskedForNext(rounds, round, id);
      assert id in queried <==> id == self || AskedFor(rounds, id);
    }
    RoundIsDistinct(rounds, queried, self, round);
  }

  ghost predicate AskedFor(rounds: seq<seq<Contact>>, id: NodeId) {
    exists i, c :: 0 <= i < |rounds| && c in rounds[i] && c.id == id
  }

  lemma AskedForNext(rounds: seq<seq<Contact>>, round: seq<Contact>, id: NodeId)
    ensures AskedFor(rounds + [round], id) <==> AskedFor(rounds, id) || exists c :: c in round && c.id == id
  {
    var all := rounds + [round];
    if AskedFor(rounds, id) {
      var i, c :| 0 <= i < |rounds| && c in rounds[i] && c.id == id;
      assert c in all[i];
    }
    if c :| c in round && c.id == id {
      assert c in all[|rounds|];
    }
  }

  lemma RoundIsDistinct(rounds: seq<seq<Contact>>, queried: set<NodeId>, self: NodeId, round: seq<Contact>)
    requires QueriesDistinct(rounds, self) && Queried(queried, rounds, self) && 0 < |round| <= ALPHA
    requires forall c :: c in round ==> c.id !in queried
    ensures QueriesDistinct(rounds + [round], self)
  {
    forall i, c, d | 0 <= i < |rounds| && c in rounds[i] && d in round
      ensures c.id != d.id
    {
      assert AskedFor(rounds, c.id);
    }
  }

  /** Everything accepted was in some reply the lookup received. */
  ghost predicate FromReplies(net: Network, rounds: seq<seq<Contact>>, accepted: seq<Contact>) {
    forall c :: c in accepted ==> exists r, q :: 0 <= r < |rounds| && 0 <= q < |rounds[r]| && Replied(net, r, q, c)
  }

  ghost predicate Replied(net: Network, r: nat, q: nat, c: Contact) {
    net.Reply(r, q).Some? && c in net.Reply(r, q).value
  }

  ghost predicate NonIncreasing(heads: seq<nat>) {
    forall i, j :: 0 <= i < j < |heads| ==> heads[j] <= heads[i]
  }

  /** Each distance is below the one before. */
  ghost predicate Falling(heads: seq<nat>) {
    forall i :: 0 <= i < |heads| - 1 ==> heads[i + 1] < heads[i]
  }

  /**
   A lookup's history: every contact accepted, the contacts queried in each round and the shortlist they were chosen
   from, and the nearest distance at first and after each round.
   */
  datatype Trace = Trace(accepted: seq<Contact>, rounds: seq<seq<Contact>>, lists: seq<seq<Contact>>, heads: seq<nat>)

  /** The ids marked and the contacts accepted once these rounds are over. */
  ghost function Walk(net: Network, self: NodeId, rounds: seq<seq<Contact>>): (set<NodeId>, seq<Contact>)
    requires net.Legal()
  {
    if rounds == [] then ({self}, [])
    else
      var r := |rounds| - 1;
      var (queried, accepted) := Walk(net, self, rounds[..r]);
      assert Interleaving(net.Order(r, |rounds[r]|), |rounds[r]|);
      var (queried', more) := RunOrder(net, r, rounds[r], self, net.Order(r, |rounds[r]|), queried);
      (queried', accepted + more)
  }

  /** The shortlist is the k closest of all then known, and the round asks the nearest of it that were not asked before. */
  ghost predicate Chosen(net: Network, self: NodeId, target: NodeId, k: nat, known: seq<Contact>, list: seq<Contact>,
                         before: seq<seq<Contact>>, round: seq<Contact>)
    requires net.Legal()
  {
    var (queried, accepted) := Walk(net, self, before);
    TopK(target, k, list, multiset(known) + multiset(accepted)) && round == Select(list, queried, ALPHA)
  }

  /** What is marked and accepted is what the rounds determine, and every round was chosen from its shortlist. */
  ghost predicate Steered(net: Network, self: NodeId, target: NodeId, k: nat, known: seq<Contact>, t: Trace, queried: set<NodeId>)
    requires net.Legal()
  {
    (queried, t.accepted) == Walk(net, self, t.rounds) && AllChosen(net, self, target, k, known, t.lists, t.rounds)
  }

  ghost predicate AllChosen(net: Network, self: NodeId, target: NodeId, k: nat, known: seq<Contact>, lists: seq<seq<Contact>>,
                            rounds: seq<seq<Contact>>)
    requires net.Legal()
  {
    |lists| == |rounds| &&
    forall i :: 0 <= i < |rounds| ==> Chosen(net, self, target, k, known, lists[i], rounds[..i], rounds[i])
  }

  lemma NextChosen(net: Network, self: NodeId, target: NodeId, k: nat, known: seq<Contact>, lists: seq<seq<Contact>>,
                   rounds: seq<seq<Contact>>, list: seq<Contact>, round: seq<Contact>)
    requires net.Legal() && AllChosen(net, self, target, k, known, lists, rounds)
    requires Chosen(net, self, target, k, known, list, rounds, round)
    ensures AllChosen(net, self, target, k, known, lists + [list], rounds + [round])
  {
    var lists', rounds' := lists + [list], rounds + [round];
    forall i | 0 <= i < |rounds'|
      ensures Chosen(net, self, target, k, known, lists'[i], rounds'[..i], rounds'[i])
    {
      assert rounds'[..i] == if i < |rounds| then rounds[..i] else rounds;
    }
  }

  lemma NextSteered(net: Network, self: NodeId, target: NodeId, k: nat, known: seq<Contact>, t: Trace, queried: set<NodeId>,
                    list: seq<Contact>, toQuery: seq<Contact>, queried': set<NodeId>, newContacts: seq<Contact>, head: nat)
    requires net.Legal() && Steered(net, self, target, k, known, t, queried)
    requires TopK(target, k, list, multiset(known) + multiset(t.accepted)) && toQuery == Select(list, queried, ALPHA)
    requires Interleaving(net.Order(|t.rounds|, |toQuery|), |toQuery|)
    requires (queried', newContacts) == RunOrder(net, |t.rounds|, toQuery, self, net.Order(|t.rounds|, |toQuery|), queried)
    ensures Steered(net, self, target, k, known,
                    Trace(t.accepted + newContacts, t.rounds + [toQuery], t.lists + [list], t.heads + [head]), queried')
  {
    WalkNext(net, self, t.rounds, toQuery);
    NextChosen(net, self, target, k, known, t.lists, t.rounds, list, toQuery);
  }

  lemma {:induction false} WalkComplete(net: Network, self: NodeId, rounds: seq<seq<Contact>>)
    requires net.Legal()
    ensures Complete(net, self, rounds, Walk(net, self, rounds).1, Walk(net, self, rounds).0)
    decreases |rounds|
  {
    if rounds != [] {
      var r := |rounds| - 1;
      WalkComplete(net, self, rounds[..r]);
      assert Interleaving(net.Order(r, |rounds[r]|), |rounds[r]|);
      forall c: Contact {
        RoundComplete(net, r, rounds[r], self, Walk(net, self, rounds[..r]).0, c);
      }
    }
  }

  lemma WalkNext(net: Network, self: NodeId, rounds: seq<seq<Contact>>, toQuery: seq<Contact>)
    requires net.Legal() && Interleaving(net.Order(|rounds|, |toQuery|), |toQuery|)
    ensures var (queried, accepted) := Walk(net, self, rounds);
            var (queried', more) := RunOrder(net, |rounds|, toQuery, self, net.Order(|rounds|, |toQuery|), queried);
            Walk(net, self, rounds + [toQuery]) == (queried', accepted + more)
  {
    assert (rounds + [toQuery])[..|rounds|] == rounds;
  }

  /** The lookup stops when all of its shortlist has been asked, or at the first round that brings nothing nearer. */
  ghost predicate Finished(shortlist: seq<Contact>, queried: set<NodeId>, heads: seq<nat>) {
    || (Falling(heads) && Select(shortlist, queried, ALPHA) == [])
    || (|heads| >= 2 && Falling(heads[..|heads| - 1]) && heads[|heads| - 1] == heads[|heads| - 2])
  }

  /** The shortlist is the k closest of what is known and accepted, never the node itself, and its head never receded. */
  ghost predicate Nearest(self: NodeId, target: NodeId, k: nat, known: seq<Contact>, shortlist: seq<Contact>,
                          accepted: seq<Contact>, heads: seq<nat>) {
    && TopK(target, k, shortlist, multiset(known) + multiset(accepted))
    && (forall c :: c in shortlist ==> c.id != self)
    && NonIncreasing(heads)
    && (shortlist != [] ==> heads != [] && heads[|heads| - 1] == Dist(target, shortlist[0]))
  }

  /** No id was queried in two rounds, `queried` lists them all, and everything accepted came in replies. */
  ghost predicate Asked(net: Network, self: NodeId, rounds: seq<seq<Contact>>, accepted: seq<Contact>, queried: set<NodeId>) {
    QueriesDistinct(rounds, self) && Queried(queried, rounds, self) && FromReplies(net, rounds, accepted)
  }

  lemma HeadsFall(heads: seq<nat>, head: nat, shortlist: seq<Contact>, queried: set<NodeId>)
    requires heads != [] && Falling(heads) && head <= heads[|heads| - 1]
    ensures if head < heads[|heads| - 1] then Falling(heads + [head]) else Finished(shortlist, queried, heads + [head])
  {
    assert (heads + [head])[..|heads|] == heads;
  }

  /** Everything a lookup keeps from round to round. */
  ghost predicate Progress(net: Network, self: NodeId, target: NodeId, k: nat, known: seq<Contact>, shortlist: seq<Contact>,
                           t: Trace, queried: set<NodeId>)
    requires net.Legal()
  {
    && Nearest(self, target, k, known, shortlist, t.accepted, t.heads)
    && Asked(net, self, t.rounds, t.accepted, queried)
    && Steered(net, self, target, k, known, t, queried)
  }

  lemma NextNearest(self: NodeId, target: NodeId, k: nat, known: seq<Contact>, last: seq<Contact>, accepted: seq<Contact>,
                    heads: seq<nat>, newContacts: seq<Contact>, shortlist: seq<Contact>)
    requires last != [] && Nearest(self, target, k, known, last, accepted, heads)
    requires forall c :: c in newContacts ==> c.id != self
    requires TopK(target, k, shortlist, multiset(last) + multiset(newContacts))
    ensures shortlist != [] && Dist(target, shortlist[0]) <= Dist(target, last[0])
    ensures Nearest(self, target, k, known, shortlist, accepted + newContacts, heads + [Dist(target, shortlist[0])])
  {
    Streaming(target, k, last, multiset(known) + multiset(accepted), shortlist, multiset(newContacts));
    HeadNeverRecedes(target, k, shortlist, multiset(last) + multiset(newContacts), last[0]);
    NoSelf(self, last, newContacts, shortlist);
    assert multiset(known) + multiset(accepted) + multiset(newContacts) == multiset(known) + multiset(accepted + newContacts);
    HeadsNext(heads, Dist(target, shortlist[0]));
  }

  lemma HeadsNext(heads: seq<nat>, head: nat)
    requires NonIncreasing(heads) && heads != [] && head <= heads[|heads| - 1]
    ensures NonIncreasing(heads + [head])
  {
  }

  lemma NextAsked(net: Network, self: NodeId, shortlist: seq<Contact>, rounds: seq<seq<Contact>>, accepted: seq<Contact>,
                  queried: set<NodeId>, toQuery: seq<Contact>, queried': set<NodeId>, newContacts: seq<Contact>)
    requires Asked(net, self, rounds, accepted, queried)
    requires toQuery == Select(shortlist, queried, ALPHA) && toQuery != []
    requires Interleaving(net.Order(|rounds|, |toQuery|), |toQuery|)
    requires (queried', newContacts) == RunOrder(net, |rounds|, toQuery, self, net.Order(|rounds|, |toQuery|), queried)
    ensures Asked(net, self, rounds + [toQuery], accepted + newContacts, queried')
    ensures forall c :: c in newContacts ==> c.id != self
  {
    RoundFacts(net, |rounds|, toQuery, self, queried, queried', newContacts);
    RoundIsNew(rounds, queried, self, toQuery, queried');
    MoreReplies(net, rounds, accepted, toQuery, newContacts);
  }

  /** One round keeps everything, and either brings a nearer contact or is the last. */
  lemma NextProgress(net: Network, self: NodeId, target: NodeId, k: nat, known: seq<Contact>, last: seq<Contact>, t: Trace,
                     queried: set<NodeId>, toQuery: seq<Contact>, queried': set<NodeId>, newContacts: seq<Contact>,
                     shortlist: seq<Contact>)
    returns (t': Trace)
    requires net.Legal() && last != [] && Progress(net, self, target, k, known, last, t, queried) && Falling(t.heads)
    requires toQuery == Select(last, queried, ALPHA) && toQuery != []
    requires Interleaving(net.Order(|t.rounds|, |toQuery|), |toQuery|)
    requires (queried', newContacts) == RunOrder(net, |t.rounds|, toQuery, self, net.Order(|t.rounds|, |toQuery|), queried)
    requires TopK(target, k, shortlist, multiset(last) + multiset(newContacts))
    ensures t'.accepted == t.accepted + newContacts && t'.rounds == t.rounds + [toQuery] && shortlist != []
    ensures Progress(net, self, target, k, known, shortlist, t', queried')
    ensures if Dist(target, shortlist[0]) < Dist(target, last[0]) then Falling(t'.heads)
            else Finished(shortlist, queried', t'.heads)
  {
    assert Asked(net, self, t.rounds + [toQuery], t.accepted + newContacts, queried')
           && forall c :: c in newContacts ==> c.id != self by {
      NextAsked(net, self, last, t.rounds, t.accepted, queried, toQuery, queried', newContacts);
    }
    NextHead(self, target, k, known, last, t.accepted, t.heads, newContacts, shortlist, queried');
    var head := Dist(target, shortlist[0]);
    t' := Trace(t.accepted + newContacts, t.rounds + [toQuery], t.lists + [last], t.heads + [head]);
    assert Steered(net, self, target, k, known, t', queried') by {
      NextSteered(net, self, target, k, known, t, queried, last, toQuery, queried', newContacts, head);
    }
  }

  /** The part of it that concerns the shortlist. */
  lemma NextHead(self: NodeId, target: NodeId, k: nat, known: seq<Contact>, last: seq<Contact>, accepted: seq<Contact>,
                 heads: seq<nat>, newContacts: seq<Contact>, shortlist: seq<Contact>, queried': set<NodeId>)
    requires last != [] && Nearest(self, target, k, known, last, accepted, heads) && Falling(heads)
    requires forall c :: c in newContacts ==> c.id != self
    requires TopK(target, k, shortlist, multiset(last) + multiset(newContacts))
    ensures shortlist != []
    ensures var heads' := heads + [Dist(target, shortlist[0])];
            && Nearest(self, target, k, known, shortlist, accepted + newContacts, heads')
            && if Dist(target, shortlist[0]) < Dist(target, last[0]) then Falling(heads')
               else Finished(shortlist, queried', heads')
  {
    NextNearest(self, target, k, known, last, accepted, heads, newContacts, shortlist);
    HeadsFall(heads, Dist(target, shortlist[0]), shortlist, queried');
  }

  class Node {
    const id: NodeId
    const table: Routing

    ghost predicate Valid()
      reads table.buckets
    {
      table.Valid() && table.self == id
    }

    constructor (id: NodeId)
      ensures Valid() && this.id == id && table.View() == EMPTY && fresh(table) && fresh(table.buckets)
    {
      this.id := id;
      table := new Routing(id);
    }

    /** One round: `toQuery` is queried, the replies are filtered as they come, accepted contacts enter the table. */
    method QueryRound(net: Network, r: nat, toQuery: seq<Contact>, queried: set<NodeId>, added: nat,
                      ghost before: Table, ghost sofar: seq<Contact>)
      returns (queried': set<NodeId>, newContacts: seq<Contact>)
      requires Grown(net.clock, before, sofar) && |sofar| == added
      requires forall i :: 0 <= i < |net.Order(r, |toQuery|)| ==> net.Order(r, |toQuery|)[i].query < |toQuery|
      modifies table.buckets
      ensures Grown(net.clock, before, sofar + newContacts)
      ensures (queried', newContacts) == RunOrder(net, r, toQuery, id, net.Order(r, |toQuery|), queried)
    {
      queried', newContacts := queried, [];
      assert sofar + newContacts == sofar;
      var order := net.Order(r, |toQuery|);
      for i := 0 to |order|
        invariant Grown(net.clock, before, sofar + newContacts)
        invariant (queried', newContacts) == RunOrder(net, r, toQuery, id, order[..i], queried)
      {
        assert order[..i + 1][..i] == order[..i];
        assert order[..i + 1][i] == order[i];
        if order[i].Mark? {
          queried' := queried' + {toQuery[order[i].query].id};
        } else {
          var reply := net.Reply(r, order[i].query);
          if reply.Some? {
            newContacts := HandleReply(net.clock, reply.value, queried', newContacts, added, before, sofar);
          }
        }
      }
      assert order[..|order|] == order;
    }

    /** A contact enters the table after those in `all`. */
    method AddOne(clock: Clock, c: Contact, i: nat, ghost before: Table, ghost all: seq<Contact>)
      requires Valid() && |before| == ID_BITS && |all| == i
      requires table.View() == AddAll(id, before, all, clock)
      modifies table.buckets
      ensures Valid() && table.View() == AddAll(id, before, all + [c], clock)
    {
      AddAllNext(id, before, all, c, clock);
      ghost var next := AddAll(id, before, all + [c], clock);
      assert next == TableAdd(table.self, table.View(), c, clock.At(i));
      var ok := table.AddContact(c, clock.At(i));
    }

    /** The body of the critical section that handles one reply. */
    method HandleReply(clock: Clock, contacts: seq<Contact>, queried: set<NodeId>, newContacts: seq<Contact>, added: nat,
                       ghost before: Table, ghost sofar: seq<Contact>)
      returns (r: seq<Contact>)
      requires Grown(clock, before, sofar + newContacts) && |sofar| == added
      modifies table.buckets
      ensures Grown(clock, before, sofar + r)
      ensures r == newContacts + Accept(contacts, queried, id)
    {
      r := newContacts;
      assert contacts[..0] == [];
      for i := 0 to |contacts|
        invariant Grown(clock, before, sofar + r)
        invariant r == newContacts + Accept(contacts[..i], queried, id)
      {
        var c := contacts[i];
        assert contacts[..i + 1][..i] == contacts[..i];
        if c.id !in queried && c.id != id {
          ghost var all := sofar + r;
          AddOne(clock, c, added + |r|, before, all);
          ConcatAssoc(sofar, r, [c]);
          ConcatAssoc(newContacts, Accept(contacts[..i], queried, id), [c]);
          r := r + [c];
        }
      }
      assert contacts[..|contacts|] == contacts;
    }

    /** The table has received exactly the accepted contacts since it was `before`. */
    ghost predicate Grown(clock: Clock, before: Table, accepted: seq<Contact>)
      reads table.buckets
    {
      Valid() && |before| == ID_BITS && table.View() == AddAll(id, before, accepted, clock)
    }

    /** Query, sort, trim: the part of a round that follows the choice of contacts. */
    method QueryAndTrim(net: Network, target: NodeId, k: nat, r: nat, toQuery: seq<Contact>, last: seq<Contact>,
                        queried: set<NodeId>, added: nat, ghost before: Table, ghost sofar: seq<Contact>)
      returns (shortlist: seq<Contact>, queried': set<NodeId>, newContacts: seq<Contact>)
      requires Grown(net.clock, before, sofar) && |sofar| == added && Interleaving(net.Order(r, |toQuery|), |toQuery|)
      modifies table.buckets
      ensures Grown(net.clock, before, sofar + newContacts)
      ensures (queried', newContacts) == RunOrder(net, r, toQuery, id, net.Order(r, |toQuery|), queried)
      ensures TopK(target, k, shortlist, multiset(last) + multiset(newContacts))
    {
      queried', newContacts := QueryRound(net, r, toQuery, queried, added, before, sofar);
      label Asked:
      shortlist := SortAndTrim(last, newContacts, target, k);
      assert Valid() && table.View() == old@Asked(table.View());
    }

    method NextShortlist(net: Network, target: NodeId, k: nat, r: nat, toQuery: seq<Contact>, last: seq<Contact>,
                         queried: set<NodeId>, added: nat, ghost before: Table, ghost t: Trace)
      returns (shortlist: seq<Contact>, queried': set<NodeId>, added': nat, ghost t': Trace)
      requires Grown(net.clock, before, t.accepted) && net.Legal()
      requires r == |t.rounds| && added == |t.accepted| && last != []
      requires toQuery == Select(last, queried, ALPHA) && toQuery != []
      requires Progress(net, id, target, k, Flatten(before), last, t, queried) && Falling(t.heads)
      modifies table.buckets
      ensures Grown(net.clock, before, t'.accepted)
      ensures Progress(net, id, target, k, Flatten(before), shortlist, t', queried')
      ensures |t'.rounds| == r + 1 && added' == |t'.accepted| && shortlist != []
      ensures if Dist(target, shortlist[0]) < Dist(target, last[0]) then Falling(t'.heads)
              else Finished(shortlist, queried', t'.heads)
    {
      assert Interleaving(net.Order(r, |toQuery|), |toQuery|);
      var newContacts;
      shortlist, queried', newContacts := QueryAndTrim(net, target, k, r, toQuery, last, queried, added, before, t.accepted);
      t' := NextProgress(net, id, target, k, Flatten(before), last, t, queried, toQuery, queried', newContacts, shortlist);
      added' := added + |newContacts|;
    }

    /** One pass of the loop of iterativeFindNode; `more` says whether it goes round again. */
    method FindNodeRound(net: Network, target: NodeId, k: nat, r: nat, last: seq<Contact>, queried: set<NodeId>, added: nat,
                         closestSeen: Contact, ghost before: Table, ghost t: Trace)
      returns (more: bool, shortlist: seq<Contact>, queried': set<NodeId>, added': nat, ghost t': Trace)
      requires Grown(net.clock, before, t.accepted) && net.Legal()
      requires r == |t.rounds| && added == |t.accepted| && last != [] && closestSeen == last[0]
      requires Progress(net, id, target, k, Flatten(before), last, t, queried) && Falling(t.heads)
      modifies table.buckets
      ensures Grown(net.clock, before, t'.accepted)
      ensures Progress(net, id, target, k, Flatten(before), shortlist, t', queried')
      ensures added' == |t'.accepted| && shortlist != []
      ensures more ==> |t'.rounds| == r + 1 && Dist(target, shortlist[0]) < Dist(target, closestSeen)
      ensures if more then Falling(t'.heads) else Finished(shortlist, queried', t'.heads)
    {
      shortlist, queried', added', t' := last, queried, added, t;
      var toQuery := ChooseQueries(shortlist, queried);
      if |toQuery| == 0 {
        more := false;
      } else {
        shortlist, queried', added', t' := NextShortlist(net, target, k, r, toQuery, shortlist, queried, added, before, t);
        more := CloserTo(shortlist[0].id, target, closestSeen.id);
      }
    }

    /** The shortlist a lookup starts from. */
    method BeginLookup(net: Network, target: NodeId, k: nat) returns (shortlist: seq<Contact>, ghost t: Trace)
      requires Valid() && net.Legal()
      ensures t.accepted == [] && t.rounds == [] && |t.heads| <= 1 && Grown(net.clock, table.View(), t.accepted)
      ensures Progress(net, id, target, k, Flatten(table.View()), shortlist, t, {id})
    {
      shortlist := table.FindClosest(target, k);
      t := Trace([], [], [], if shortlist == [] then [] else [Dist(target, shortlist[0])]);
      assert multiset(Flatten(table.View())) + multiset(t.accepted) == multiset(Flatten(table.View()));
    }

    /**
     iterativeFindNode: the k closest, in order and with multiplicity, of the table it started from and of every contact
     accepted. It terminates because the nearest contact seen gets strictly nearer on every further round.
     */
    method IterativeFindNode(target: NodeId, k: nat, net: Network)
      returns (shortlist: seq<Contact>, ghost t: Trace, ghost asked: set<NodeId>)
      requires Valid() && net.Legal()
      modifies table.buckets
      ensures Grown(net.clock, old(table.View()), t.accepted)
      ensures Nearest(id, target, k, Flatten(old(table.View())), shortlist, t.accepted, t.heads)
      ensures Asked(net, id, t.rounds, t.accepted, asked)
      ensures Steered(net, id, target, k, Flatten(old(table.View())), t, asked)
      ensures Finished(shortlist, asked, t.heads)
      ensures Complete(net, id, t.rounds, t.accepted, asked)
    {
      shortlist, t := BeginLookup(net, target, k);
      var queried := {id};
      asked := queried;
      if |shortlist| == 0 {
        WalkComplete(net, id, t.rounds);
        return;
      }
      var closestSeen := shortlist[0];
      var r, added, more := 0, 0, true;
      while more
        invariant Grown(net.clock, old(table.View()), t.accepted)
        invariant shortlist != [] && added == |t.accepted| && asked == queried
        invariant more ==> r == |t.rounds| && closestSeen == shortlist[0]
        invariant Progress(net, id, target, k, Flatten(old(table.View())), shortlist, t, queried)
        invariant if more then Falling(t.heads) else Finished(shortlist, queried, t.heads)
        decreases Dist(target, closestSeen), more
      {
        more, shortlist, queried, added, t :=
          FindNodeRound(net, target, k, r, shortlist, queried, added, closestSeen, old(table.View()), t);
        asked := queried;
        r := r + 1;
        if more {
          closestSeen := shortlist[0];
        }
      }
      WalkComplete(net, id, t.rounds);
    }

    method ChooseQueries(shortlist: seq<Contact>, queried: set<NodeId>) returns (toQuery: seq<Contact>)
      ensures toQuery == Select(shortlist, queried, ALPHA)
    {
      toQuery := [];
      assert shortlist[0..] == shortlist;
      for i := 0 to |shortlist|
        invariant |toQuery| <= ALPHA
        invariant toQuery + Select(shortlist[i..], queried, ALPHA - |toQuery|) == Select(shortlist, queried, ALPHA)
      {
        var c := shortlist[i];
        assert shortlist[i..][1..] == shortlist[i + 1..];
        if c.id !in queried && |toQuery| < ALPHA {
          ConcatAssoc(toQuery, [c], Select(shortlist[i + 1..], queried, ALPHA - |toQuery| - 1));
          toQuery := toQuery + [c];
        }
      }
    }

    /** Append, sort by distance, keep the k closest. */
    method SortAndTrim(shortlist: seq<Contact>, newContacts: seq<Contact>, target: NodeId, k: nat) returns (r: seq<Contact>)
      ensures TopK(target, k, r, multiset(shortlist) + multiset(newContacts))
    {
      var all := shortlist + newContacts;
      var a := new Contact[|all|](i requires 0 <= i < |all| => all[i]);
      assert a[..] == all;
      SortByDistance(a, target);
      r := if a.Length > k then a[..k] else a[..];
      TakeIsTopK(target, k, a[..], multiset(shortlist) + multiset(newContacts));
    }
  }

  lemma NoSelf(self: NodeId, last: seq<Contact>, newContacts: seq<Contact>, r: seq<Contact>)
    requires forall c :: c in last ==> c.id != self
    requires forall c :: c in newContacts ==> c.id != self
    requires multiset(r) <= multiset(last) + multiset(newContacts)
    ensures forall c :: c in r ==> c.id != self
  {
    forall c | c in r
      ensures c.id != self
    {
      assert c in multiset(r);
      assert c in last || c in newContacts;
    }
  }

  lemma RoundFacts(net: Network, r: nat, toQuery: seq<Contact>, self: NodeId, queried: set<NodeId>, queried': set<NodeId>,
                   newContacts: seq<Contact>)
    requires Interleaving(net.Order(r, |toQuery|), |toQuery|)
    requires (queried', newContacts) == RunOrder(net, r, toQuery, self, net.Order(r, |toQuery|), queried)
    ensures forall x :: x in queried' <==> x in queried || exists c :: c in toQuery && c.id == x
    ensures forall c :: c in newContacts ==> c.id != self && exists q :: 0 <= q < |toQuery| && Replied(net, r, q, c)
  {
    var order := net.Order(r, |toQuery|);
    forall x: NodeId
      ensures x in queried' <==> x in queried || exists c :: c in toQuery && c.id == x
    {
      RunOrderMarks(net, r, toQuery, self, order, queried, x);
      if c :| c in toQuery && c.id == x {
        var q :| 0 <= q < |toQuery| && toQuery[q] == c;
        assert Mark(q) in order;
      }
    }
    forall c | c in newContacts
      ensures c.id != self && exists q :: 0 <= q < |toQuery| && Replied(net, r, q, c)
    {
      RunOrderAccepts(net, r, toQuery, self, order, queried, c);
    }
  }

  lemma MoreReplies(net: Network, rounds: seq<seq<Contact>>, accepted: seq<Contact>, toQuery: seq<Contact>, newContacts: seq<Contact>)
    requires FromReplies(net, rounds, accepted)
    requires forall c :: c in newContacts ==> exists q :: 0 <= q < |toQuery| && Replied(net, |rounds|, q, c)
    ensures FromReplies(net, rounds + [toQuery], accepted + newContacts)
  {
    var all := rounds + [toQuery];
    forall c | c in accepted + newContacts
      ensures exists r, q :: 0 <= r < |all| && 0 <= q < |all[r]| && Replied(net, r, q, c)
    {
      if c in accepted {
        var r, q :| 0 <= r < |rounds| && 0 <= q < |rounds[r]| && Replied(net, r, q, c);
        assert all[r] == rounds[r];
      } else {
        var q :| 0 <= q < |toQuery| && Replied(net, |rounds|, q, c);
        assert all[|rounds|] == toQuery;
      }
    }
  }
}
