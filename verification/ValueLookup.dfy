/** iterativeFindValue of pkg/dht/protocol.go against arbitrary answers. */
module ValueLookup {
  import opened Bytes
  import opened NodeId
  import opened Closest
  import opened RoutingTable
  import opened Lookup

  datatype Answer = Answer(found: bool, value: bytes, contacts: seq<Contact>)

  /** Answer to query `q` of round `r` (None: the RPC failed), the order in which a round's results are read, the clock. */
  datatype Answers = Answers(answers: (nat, nat) -> Option<Answer>, orders: (nat, nat) -> seq<nat>, clock: Clock) {
    function Get(r: nat, q: nat): Option<Answer> { answers(r, q) }

    function Order(r: nat, n: nat): seq<nat> { orders(r, n) }

    ghost predicate Legal() {
      forall r: nat, n: nat :: ReadsAll(Order(r, n), n)
    }
  }

  /** The result of each of the first `n` queries is read, once. */
  ghost predicate ReadsAll(order: seq<nat>, n: nat) {
    && (forall i :: 0 <= i < |order| ==> order[i] < n)
    && (forall q: nat :: q < n ==> q in order)
    && (forall i, j :: 0 <= i < j < |order| ==> order[i] != order[j])
  }

  ghost predicate HasValue(net: Answers, r: nat, q: nat, value: bytes) {
    net.Get(r, q).Some? && net.Get(r, q).value.found && net.Get(r, q).value.value == value
  }

  /** No answer to round `r` of `n` queries carries a value. */
  ghost predicate NoValue(net: Answers, r: nat, n: nat) {
    forall q: nat, v :: q < n ==> !HasValue(net, r, q, v)
  }

  /** No query of any round so far was answered with a value. */
  ghost predicate Silent(net: Answers, rounds: seq<seq<Contact>>) {
    forall r :: 0 <= r < |rounds| ==> NoValue(net, r, |rounds[r]|)
  }

  /** Some query was answered with this value. */
  ghost predicate Answered(net: Answers, rounds: seq<seq<Contact>>, value: bytes) {
    exists r, q :: 0 <= r < |rounds| && 0 <= q < |rounds[r]| && HasValue(net, r, q, value)
  }

  lemma RoundRead(net: Answers, rounds: seq<seq<Contact>>, toQuery: seq<Contact>, found: bool, value: bytes)
    requires Silent(net, rounds)
    requires found ==> exists q: nat :: q < |toQuery| && HasValue(net, |rounds|, q, value)
    requires !found ==> NoValue(net, |rounds|, |toQuery|)
    ensures found ==> Answered(net, rounds + [toQuery], value)
    ensures !found ==> Silent(net, rounds + [toQuery])
  {
    var all := rounds + [toQuery];
    assert all[|rounds|] == toQuery;
    forall r | 0 <= r < |rounds|
      ensures all[r] == rounds[r]
    {
    }
  }

  lemma {:induction false} IdsBounded(s: set<NodeId>)
    ensures |s| <= Pow2(ID_BITS)
  {
    var values := set x | x in s :: Value(x);
    SameSize(s, values);
    forall v | v in values
      ensures 0 <= v < Pow2(ID_BITS)
    {
      var x :| x in s && Value(x) == v;
      ValueBound(x);
      Pow2Bytes(ID_BYTES);
    }
    RangeSize(values, 0, Pow2(ID_BITS));
  }

  lemma {:induction false} SameSize(s: set<NodeId>, values: set<nat>)
    requires values == set x | x in s :: Value(x)
    ensures |values| == |s|
    decreases |s|
  {
    if s != {} {
      var x :| x in s;
      var rest := set y | y in s - {x} :: Value(y);
      SameSize(s - {x}, rest);
      if Value(x) in rest {
        var y :| y in s - {x} && Value(y) == Value(x);
        ValueInjective(x, y);
        assert false;
      }
      assert values == rest + {Value(x)};
    }
  }

  ghost function Ids(cs: seq<Contact>): set<NodeId> {
    set c | c in cs :: c.id
  }

  // ---- What a run determines ----

  /** The results of a round read in order, until one carries the value: that value, or the contacts accepted. */
  function Read(net: Answers, r: nat, order: seq<nat>, self: NodeId, queried: set<NodeId>): (Option<bytes>, seq<Contact>)
    decreases |order|
  {
    if order == [] then (None, [])
    else
      var (value, accepted) := Read(net, r, order[..|order| - 1], self, queried);
      if value.Some? then (value, accepted)
      else
        match net.Get(r, order[|order| - 1])
        case None => (None, accepted)
        case Some(a) =>
          if a.found then (Some(a.value), accepted) else (None, accepted + Accept(a.contacts, queried, self))
  }

  lemma {:induction false} ReadStays(net: Answers, r: nat, order: seq<nat>, i: nat, self: NodeId, queried: set<NodeId>)
    requires i <= |order| && Read(net, r, order[..i], self, queried).0.Some?
    ensures Read(net, r, order, self, queried) == Read(net, r, order[..i], self, queried)
    decreases |order|
  {
    if i < |order| {
      assert order[..|order| - 1][..i] == order[..i];
      ReadStays(net, r, order[..|order| - 1], i, self, queried);
    } else {
      assert order[..i] == order;
    }
  }

  /** How often `c` stands in one answer; never when the RPC failed. */
  function ContactsIn(net: Answers, r: nat, q: nat, c: Contact): nat {
    if net.Get(r, q).Some? then multiset(net.Get(r, q).value.contacts)[c] else 0
  }

  function AnsweredBy(net: Answers, r: nat, n: nat, c: Contact): nat {
    if n == 0 then 0 else AnsweredBy(net, r, n - 1, c) + ContactsIn(net, r, n - 1, c)
  }

  function AnsweredIn(net: Answers, r: nat, order: seq<nat>, c: Contact): nat {
    if order == [] then 0
    else AnsweredIn(net, r, order[..|order| - 1], c) + ContactsIn(net, r, order[|order| - 1], c)
  }

  /** When no answer has the value, every contact answered that is not the node and not marked is accepted, as often as it came. */
  lemma {:induction false} ReadCount(net: Answers, r: nat, order: seq<nat>, self: NodeId, queried: set<NodeId>, c: Contact)
    requires Read(net, r, order, self, queried).0 == None
    ensures multiset(Read(net, r, order, self, queried).1)[c]
            == if c.id != self && c.id !in queried then AnsweredIn(net, r, order, c) else 0
    decreases |order|
  {
    if order != [] {
      var n := |order| - 1;
      ReadCount(net, r, order[..n], self, queried, c);
      if net.Get(r, order[n]).Some? {
        AcceptCount(net.Get(r, order[n]).value.contacts, queried, self, c);
      }
    }
  }

  lemma {:induction false} AnsweredWithout(net: Answers, r: nat, order: seq<nat>, k: nat, c: Contact)
    requires k < |order|
    ensures AnsweredIn(net, r, order, c) == AnsweredIn(net, r, order[..k] + order[k + 1..], c) + ContactsIn(net, r, order[k], c)
    decreases |order|
  {
    var n := |order| - 1;
    if k == n {
      assert order[..k] + order[k + 1..] == order[..n];
    } else {
      AnsweredWithout(net, r, order[..n], k, c);
      var rest := order[..k] + order[k + 1..];
      assert rest[..|rest| - 1] == order[..n][..k] + order[..n][k + 1..] && rest[|rest| - 1] == order[n];
    }
  }

  lemma ReadsOneLess(order: seq<nat>, n: nat, k: nat)
    requires n > 0 && ReadsAll(order, n) && k < |order| && order[k] == n - 1
    ensures ReadsAll(order[..k] + order[k + 1..], n - 1)
  {
    var rest := order[..k] + order[k + 1..];
    assert forall i :: 0 <= i < |rest| ==> rest[i] == order[if i < k then i else i + 1];
    forall q: nat | q < n - 1
      ensures q in rest
    {
      assert q in order;
      var i :| 0 <= i < |order| && order[i] == q;
      assert rest[if i < k then i else i - 1] == q;
    }
  }

  lemma {:induction false} AnsweredInAnyOrder(net: Answers, r: nat, order: seq<nat>, n: nat, c: Contact)
    requires ReadsAll(order, n)
    ensures AnsweredIn(net, r, order, c) == AnsweredBy(net, r, n, c)
    decreases n
  {
    if n > 0 {
      assert n - 1 in order;
      var k :| 0 <= k < |order| && order[k] == n - 1;
      AnsweredWithout(net, r, order, k, c);
      ReadsOneLess(order, n, k);
      AnsweredInAnyOrder(net, r, order[..k] + order[k + 1..], n - 1, c);
    }
  }

  /** So a round without the value accepts exactly the contacts answered, but for the node itself and those marked. */
  lemma RoundAccepts(net: Answers, self: NodeId, rounds: seq<seq<Contact>>, c: Contact)
    requires net.Legal() && rounds != [] && LastRead(net, self, rounds).0 == None
    ensures multiset(LastRead(net, self, rounds).1)[c]
            == if c.id != self && c.id !in Marked(self, rounds)
               then AnsweredBy(net, |rounds| - 1, |rounds[|rounds| - 1]|, c) else 0
  {
    var r := |rounds| - 1;
    var order := net.Order(r, |rounds[r]|);
    assert ReadsAll(order, |rounds[r]|);
    ReadCount(net, r, order, self, Marked(self, rounds), c);
    AnsweredInAnyOrder(net, r, order, |rounds[r]|, c);
  }

  /** The ids marked once these rounds have been queried. */
  ghost function Marked(self: NodeId, rounds: seq<seq<Contact>>): set<NodeId> {
    if rounds == [] then {self} else Marked(self, rounds[..|rounds| - 1]) + Ids(rounds[|rounds| - 1])
  }

  /** What reading the last of these rounds gave. */
  ghost function LastRead(net: Answers, self: NodeId, rounds: seq<seq<Contact>>): (Option<bytes>, seq<Contact>)
    requires rounds != []
  {
    var r := |rounds| - 1;
    Read(net, r, net.Order(r, |rounds[r]|), self, Marked(self, rounds))
  }

  /** All contacts accepted in these rounds, in order. */
  ghost function Accepted(net: Answers, self: NodeId, rounds: seq<seq<Contact>>): seq<Contact> {
    if rounds == [] then [] else Accepted(net, self, rounds[..|rounds| - 1]) + LastRead(net, self, rounds).1
  }

  /** The shortlist is the K closest of the contacts known at first and all accepted since. */
  ghost predicate Ranked(net: Answers, key: NodeId, self: NodeId, known: seq<Contact>, shortlist: seq<Contact>,
                         rounds: seq<seq<Contact>>) {
    TopK(key, K, shortlist, multiset(known) + multiset(Accepted(net, self, rounds)))
  }

  /** Each round asked the nearest few, not asked before, of the shortlist as it then was. */
  ghost predicate Guided(net: Answers, key: NodeId, self: NodeId, known: seq<Contact>, lists: seq<seq<Contact>>,
                         rounds: seq<seq<Contact>>) {
    |lists| == |rounds| && forall i :: 0 <= i < |rounds| ==> Chosen(net, key, self, known, lists[i], rounds[..i], rounds[i])
  }

  ghost predicate Chosen(net: Answers, key: NodeId, self: NodeId, known: seq<Contact>, list: seq<Contact>,
                         before: seq<seq<Contact>>, round: seq<Contact>) {
    Ranked(net, key, self, known, list, before) && round == Select(list, Marked(self, before), ALPHA)
  }

  lemma GuidedNext(net: Answers, key: NodeId, self: NodeId, known: seq<Contact>, lists: seq<seq<Contact>>,
                   rounds: seq<seq<Contact>>, shortlist: seq<Contact>, toQuery: seq<Contact>)
    requires Guided(net, key, self, known, lists, rounds) && Ranked(net, key, self, known, shortlist, rounds)
    requires toQuery == Select(shortlist, Marked(self, rounds), ALPHA)
    ensures Guided(net, key, self, known, lists + [shortlist], rounds + [toQuery])
  {
    var lists', rounds' := lists + [shortlist], rounds + [toQuery];
    forall i | 0 <= i < |rounds'|
      ensures Chosen(net, key, self, known, lists'[i], rounds'[..i], rounds'[i])
    {
      assert rounds'[..i] == if i < |rounds| then rounds[..i] else rounds;
    }
  }

  lemma RankedNext(net: Answers, key: NodeId, self: NodeId, known: seq<Contact>, rounds: seq<seq<Contact>>,
                   shortlist: seq<Contact>, toQuery: seq<Contact>, newContacts: seq<Contact>, shortlist': seq<Contact>)
    requires Ranked(net, key, self, known, shortlist, rounds)
    requires newContacts == LastRead(net, self, rounds + [toQuery]).1
    requires TopK(key, K, shortlist', multiset(shortlist) + multiset(newContacts))
    ensures Ranked(net, key, self, known, shortlist', rounds + [toQuery])
  {
    var all := multiset(known) + multiset(Accepted(net, self, rounds));
    Streaming(key, K, shortlist, all, shortlist', multiset(newContacts));
    assert (rounds + [toQuery])[..|rounds|] == rounds;
    assert all + multiset(newContacts) == multiset(known) + multiset(Accepted(net, self, rounds + [toQuery]));
  }

  /** Between two rounds, with the value not yet found. */
  ghost predicate Running(net: Answers, key: NodeId, self: NodeId, known: seq<Contact>, lists: seq<seq<Contact>>,
                          rounds: seq<seq<Contact>>, shortlist: seq<Contact>, queried: set<NodeId>) {
    && Guided(net, key, self, known, lists, rounds) && Searching(net, self, rounds, queried)
    && queried == Marked(self, rounds) && Ranked(net, key, self, known, shortlist, rounds)
  }

  /** After a round that brought the value, or nothing new. */
  ghost predicate Over(net: Answers, key: NodeId, self: NodeId, known: seq<Contact>, lists: seq<seq<Contact>>,
                       rounds: seq<seq<Contact>>, found: bool, value: bytes) {
    && Guided(net, key, self, known, lists, rounds) && QueriesDistinct(rounds, self)
    && if found then Answered(net, rounds, value)
       else Silent(net, rounds) && rounds != [] && LastRead(net, self, rounds).1 == []
  }

  class Finder {
    const node: Node

    constructor (n: Node)
      ensures node == n
    {
      node := n;
    }

    /** Read a round's results in order until one carries the value. */
    method ReadResults(net: Answers, r: nat, n: nat, queried: set<NodeId>, added: nat, ghost before: Table, ghost sofar: seq<Contact>)
      returns (found: bool, value: bytes, newContacts: seq<Contact>)
      requires node.Grown(net.clock, before, sofar) && |sofar| == added && ReadsAll(net.Order(r, n), n)
      modifies node.table.buckets
      ensures node.Grown(net.clock, before, sofar + newContacts)
      ensures Read(net, r, net.Order(r, n), node.id, queried) == (if found then Some(value) else None, newContacts)
    {
      found, value, newContacts := false, [], [];
      assert sofar + [] == sofar;
      var order := net.Order(r, n);
      for i := 0 to |order|
        invariant node.Grown(net.clock, before, sofar + newContacts)
        invariant Read(net, r, order[..i], node.id, queried) == (None, newContacts)
      {
        var answer := net.Get(r, order[i]);
        assert order[..i + 1][..i] == order[..i];
        if answer.Some? {
          if answer.value.found {
            ReadStays(net, r, order, i + 1, node.id, queried);
            return true, answer.value.value, newContacts;
          }
          newContacts := node.HandleReply(net.clock, answer.value.contacts, queried, newContacts, added, before, sofar);
        }
      }
      assert order[..|order|] == order;
    }

    /** Mark and query the chosen contacts, then read the results. */
    method ValueRound(net: Answers, r: nat, toQuery: seq<Contact>, queried: set<NodeId>, added: nat, ghost before: Table,
                      ghost rounds: seq<seq<Contact>>)
      returns (found: bool, value: bytes, newContacts: seq<Contact>, queried': set<NodeId>)
      requires net.Legal() && r == |rounds| && Received(net, before, rounds, added) && queried == Marked(node.id, rounds)
      modifies node.table.buckets
      ensures Received(net, before, rounds + [toQuery], added + |newContacts|)
      ensures queried' == Marked(node.id, rounds + [toQuery])
      ensures LastRead(net, node.id, rounds + [toQuery]) == (if found then Some(value) else None, newContacts)
    {
      MarkedNext(net, node.id, rounds, toQuery);
      queried' := MarkAll(toQuery, queried);
      assert ReadsAll(net.Order(r, |toQuery|), |toQuery|);
      found, value, newContacts := ReadResults(net, r, |toQuery|, queried', added, before, Accepted(net, node.id, rounds));
    }

    /** The table has received exactly the contacts accepted in these rounds since it was `before`. */
    ghost predicate Received(net: Answers, before: Table, rounds: seq<seq<Contact>>, added: nat)
      reads node.table.buckets
    {
      node.Grown(net.clock, before, Accepted(net, node.id, rounds)) && added == |Accepted(net, node.id, rounds)|
    }

    /** One pass of the loop of iterativeFindValue; `more` says whether it goes round again. */
    method FindValueRound(key: NodeId, net: Answers, shortlist: seq<Contact>, toQuery: seq<Contact>, queried: set<NodeId>,
                          r: nat, added: nat, ghost before: Table, ghost lists: seq<seq<Contact>>, ghost rounds: seq<seq<Contact>>)
      returns (more: bool, value: bytes, found: bool, shortlist': seq<Contact>, queried': set<NodeId>, added': nat)
      requires net.Legal() && r == |rounds| && Received(net, before, rounds, added)
      requires toQuery == Select(shortlist, queried, ALPHA) && toQuery != []
      requires Running(net, key, node.id, Flatten(before), lists, rounds, shortlist, queried)
      modifies node.table.buckets
      ensures Received(net, before, rounds + [toQuery], added') && |queried| < |queried'| <= Pow2(ID_BITS)
      ensures more ==>
        !found && Running(net, key, node.id, Flatten(before), lists + [shortlist], rounds + [toQuery], shortlist', queried')
      ensures !more ==> Over(net, key, node.id, Flatten(before), lists + [shortlist], rounds + [toQuery], found, value)
    {
      var newContacts;
      found, value, newContacts, queried' := ValueRound(net, r, toQuery, queried, added, before, rounds);
      RoundOver(net, key, node.id, Flatten(before), lists, rounds, shortlist, queried, toQuery, queried');
      more, shortlist', added' := !found && |newContacts| > 0, shortlist, added + |newContacts|;
      if more {
        shortlist' := Shorten(net, before, shortlist, newContacts, key, added', rounds + [toQuery]);
        RankedNext(net, key, node.id, Flatten(before), rounds, shortlist, toQuery, newContacts, shortlist');
      }
    }

    method Shorten(net: Answers, ghost before: Table, shortlist: seq<Contact>, newContacts: seq<Contact>, key: NodeId, ghost added: nat,
                   ghost rounds: seq<seq<Contact>>)
      returns (shortlist': seq<Contact>)
      requires Received(net, before, rounds, added)
      ensures Received(net, before, rounds, added)
      ensures TopK(key, K, shortlist', multiset(shortlist) + multiset(newContacts))
    {
      shortlist' := node.SortAndTrim(shortlist, newContacts, key, K);
      assert node.Valid() && node.table.View() == old(node.table.View());
    }

    /** The shortlist a lookup starts from. */
    method BeginValueLookup(key: NodeId, net: Answers) returns (shortlist: seq<Contact>)
      requires node.Valid()
      ensures Running(net, key, node.id, Flatten(node.table.View()), [], [], shortlist, {node.id})
    {
      shortlist := node.table.FindClosest(key, K);
      NothingAsked(net, key, node.id, Flatten(node.table.View()), shortlist);
    }

    /**
     iterativeFindValue: each round asks the nearest contacts not asked before of the K closest known so far, and the
     table receives exactly the contacts accepted. A value returned was the answer to some query; "not found" means that
     no answer carried one, and that the last round brought nothing new or all of the K closest have been asked. It ends
     because every round marks a new id.
     */
    method IterativeFindValue(key: NodeId, net: Answers)
      returns (value: bytes, found: bool, ghost rounds: seq<seq<Contact>>, ghost lists: seq<seq<Contact>>,
               ghost closest: seq<Contact>)
      requires node.Valid() && net.Legal()
      modifies node.table.buckets
      ensures node.Grown(net.clock, old(node.table.View()), Accepted(net, node.id, rounds))
      ensures QueriesDistinct(rounds, node.id)
      ensures Guided(net, key, node.id, Flatten(old(node.table.View())), lists, rounds)
      ensures found ==> Answered(net, rounds, value)
      ensures !found ==> Silent(net, rounds)
      ensures !found ==>
        || (rounds != [] && LastRead(net, node.id, rounds).1 == [])
        || (Ranked(net, key, node.id, Flatten(old(node.table.View())), closest, rounds)
            && Select(closest, Marked(node.id, rounds), ALPHA) == [])
    {
      value, found, rounds, lists := [], false, [], [];
      ghost var before := node.table.View();
      var shortlist := BeginValueLookup(key, net);
      closest := shortlist;
      if |shortlist| == 0 {
        return;
      }
      var queried := {node.id};
      IdsBounded(queried);
      var r, added, more := 0, 0, true;
      while more
        invariant Received(net, before, rounds, added) && r == |rounds| && |queried| <= Pow2(ID_BITS)
        invariant more ==> !found && Running(net, key, node.id, Flatten(before), lists, rounds, shortlist, queried)
        invariant !more ==> Over(net, key, node.id, Flatten(before), lists, rounds, found, value)
        decreases Pow2(ID_BITS) - |queried|
      {
        var toQuery := node.ChooseQueries(shortlist, queried);
        if |toQuery| == 0 {
          closest := shortlist;
          return;
        }
        ghost var last := shortlist;
        more, value, found, shortlist, queried, added :=
          FindValueRound(key, net, shortlist, toQuery, queried, r, added, before, lists, rounds);
        lists, rounds, r := lists + [last], rounds + [toQuery], r + 1;
      }
    }

    method MarkAll(toQuery: seq<Contact>, queried: set<NodeId>) returns (queried': set<NodeId>)
      ensures queried' == queried + Ids(toQuery)
    {
      queried' := queried;
      for i := 0 to |toQuery|
        invariant queried' == queried + Ids(toQuery[..i])
      {
        queried' := queried' + {toQuery[i].id};
        assert toQuery[..i + 1] == toQuery[..i] + [toQuery[i]];
      }
      assert toQuery[..|toQuery|] == toQuery;
    }
  }

  /** Between rounds: no id asked twice, all of them marked, and no value yet. */
  ghost predicate Searching(net: Answers, self: NodeId, rounds: seq<seq<Contact>>, queried: set<NodeId>) {
    QueriesDistinct(rounds, self) && Queried(queried, rounds, self) && Silent(net, rounds)
  }

  lemma NothingAsked(net: Answers, key: NodeId, self: NodeId, known: seq<Contact>, shortlist: seq<Contact>)
    requires TopK(key, K, shortlist, multiset(known))
    ensures Running(net, key, self, known, [], [], shortlist, {self})
  {
    assert multiset(known) + multiset(Accepted(net, self, [])) == multiset(known);
  }

  lemma MarkedNext(net: Answers, self: NodeId, rounds: seq<seq<Contact>>, toQuery: seq<Contact>)
    ensures var all := rounds + [toQuery];
            && Marked(self, all) == Marked(self, rounds) + Ids(toQuery)
            && Accepted(net, self, all) == Accepted(net, self, rounds) + LastRead(net, self, all).1
            && LastRead(net, self, all)
               == Read(net, |rounds|, net.Order(|rounds|, |toQuery|), self, Marked(self, rounds) + Ids(toQuery))
  {
    assert (rounds + [toQuery])[..|rounds|] == rounds;
  }

  /** A value read was an answer of the round; if none was read, no answer had one. */
  lemma {:induction false} ReadMeaning(net: Answers, r: nat, order: seq<nat>, self: NodeId, queried: set<NodeId>)
    ensures var v := Read(net, r, order, self, queried).0;
            && (v.Some? ==> exists q :: q in order && HasValue(net, r, q, v.value))
            && (v.None? ==> forall q, x :: q in order ==> !HasValue(net, r, q, x))
    decreases |order|
  {
    if order != [] {
      var n := |order| - 1;
      ReadMeaning(net, r, order[..n], self, queried);
      assert order == order[..n] + [order[n]];
      var v := Read(net, r, order[..n], self, queried).0;
      if v.Some? {
        var q :| q in order[..n] && HasValue(net, r, q, v.value);
        assert q in order;
      } else if net.Get(r, order[n]).Some? && net.Get(r, order[n]).value.found {
        assert HasValue(net, r, order[n], net.Get(r, order[n]).value.value);
      }
    }
  }

  lemma LastReadMeaning(net: Answers, self: NodeId, rounds: seq<seq<Contact>>, toQuery: seq<Contact>)
    requires net.Legal() && Silent(net, rounds)
    ensures var v := LastRead(net, self, rounds + [toQuery]).0;
            && (v.Some? ==> Answered(net, rounds + [toQuery], v.value))
            && (v.None? ==> Silent(net, rounds + [toQuery]))
  {
    var r, n := |rounds|, |toQuery|;
    assert ReadsAll(net.Order(r, n), n);
    MarkedNext(net, self, rounds, toQuery);
    ReadMeaning(net, r, net.Order(r, n), self, Marked(self, rounds + [toQuery]));
    var v := LastRead(net, self, rounds + [toQuery]).0;
    RoundRead(net, rounds, toQuery, v.Some?, if v.Some? then v.value else []);
  }

  /** What a round does to the history, whatever was read. */
  lemma RoundOver(net: Answers, key: NodeId, self: NodeId, known: seq<Contact>, lists: seq<seq<Contact>>,
                  rounds: seq<seq<Contact>>, shortlist: seq<Contact>, queried: set<NodeId>, toQuery: seq<Contact>, queried': set<NodeId>)
    requires net.Legal() && Running(net, key, self, known, lists, rounds, shortlist, queried)
    requires toQuery == Select(shortlist, queried, ALPHA) && toQuery != [] && queried' == Marked(self, rounds + [toQuery])
    ensures |queried| < |queried'| <= Pow2(ID_BITS)
    ensures var all := rounds + [toQuery];
            var v := LastRead(net, self, all).0;
            && Guided(net, key, self, known, lists + [shortlist], all) && QueriesDistinct(all, self)
            && (v.Some? ==> Answered(net, all, v.value))
            && (v.None? ==> Searching(net, self, all, queried'))
  {
    MarkedNext(net, self, rounds, toQuery);
    MarkingGrows(queried, toQuery, queried');
    RoundIsNew(rounds, queried, self, toQuery, queried');
    LastReadMeaning(net, self, rounds, toQuery);
    GuidedNext(net, key, self, known, lists, rounds, shortlist, toQuery);
  }

  lemma MarkingGrows(before: set<NodeId>, toQuery: seq<Contact>, queried: set<NodeId>)
    requires toQuery != [] && queried == before + Ids(toQuery) && forall c :: c in toQuery ==> c.id !in before
    ensures |before| < |queried| <= Pow2(ID_BITS)
    ensures forall id :: id in queried <==> id in before || exists c :: c in toQuery && c.id == id
  {
    assert toQuery[0].id in Ids(toQuery);
    IdsBounded(queried);
    assert |queried| == |before| + |queried - before|;
    assert toQuery[0].id in queried - before;
  }
}
