/** The k-bucket routing table of pkg/dht/routing_table.go. */
module RoutingTable {
  import opened Bytes
  import opened NodeId
  import opened Closest

  const K: nat := 20

  // ---- Buckets ----

  /** The first position of an id in a bucket, or the bucket's length. */
  function Find(cs: seq<Contact>, id: NodeId): (i: nat)
    ensures i <= |cs| && (i < |cs| ==> cs[i].id == id)
    ensures forall k :: 0 <= k < i ==> cs[k].id != id
  {
    if cs == [] || cs[0].id == id then 0 else 1 + Find(cs[1..], id)
  }

  function Without(cs: seq<Contact>, i: nat): seq<Contact>
    requires i < |cs|
  {
    cs[..i] + cs[i + 1..]
  }

  /** A known contact moves to the back, keeping its address; a new one is added while there is room. */
  function BucketAdd(cs: seq<Contact>, c: Contact, now: int): seq<Contact> {
    var i := Find(cs, c.id);
    if i < |cs| then Without(cs, i) + [cs[i].(lastSeen := now, failedPings := 0)]
    else if |cs| < K then cs + [c]
    else cs
  }

  function BucketRemove(cs: seq<Contact>, id: NodeId): seq<Contact> {
    var i := Find(cs, id);
    if i < |cs| then Without(cs, i) else cs
  }

  class Bucket {
    var contacts: seq<Contact>

    constructor ()
      ensures contacts == []
    {
      contacts := [];
    }

    method AddContact(contact: Contact, now: int) returns (ok: bool)
      modifies this
      ensures contacts == BucketAdd(old(contacts), contact, now)
      ensures ok <==> exists c :: c in contacts && c.id == contact.id
    {
      var i := 0;
      while i < |contacts|
        invariant 0 <= i <= |contacts| && contacts == old(contacts)
        invariant forall k :: 0 <= k < i ==> contacts[k].id != contact.id
      {
        var c := contacts[i];
        if c.id == contact.id {
          contacts := contacts[..i] + contacts[i + 1..] + [c.(lastSeen := now, failedPings := 0)];
          assert contacts[|contacts| - 1].id == contact.id;
          return true;
        }
        i := i + 1;
      }
      if |contacts| < K {
        contacts := contacts + [contact];
        assert contacts[|contacts| - 1] == contact;
        return true;
      }
      return false;
    }

    method RemoveContact(id: NodeId)
      modifies this
      ensures contacts == BucketRemove(old(contacts), id)
    {
      var i := 0;
      while i < |contacts|
        invariant 0 <= i <= |contacts| && contacts == old(contacts)
        invariant forall k :: 0 <= k < i ==> contacts[k].id != id
      {
        if contacts[i].id == id {
          contacts := contacts[..i] + contacts[i + 1..];
          return;
        }
        i := i + 1;
      }
    }
  }

  // ---- The table ----

  type Table = seq<seq<Contact>>

  /** The bucket an id selects; the node's own id would select the last one. */
  function BucketIndex(self: NodeId, id: NodeId): (i: nat)
    ensures i < ID_BITS
  {
    SharedBitsMeaning(self, id);
    if id == self then ID_BITS - 1 else SharedBits(self, id)
  }

  /** Bucket i is for the ids at a distance from 2^(159-i) up to 2^(160-i); the node's own id selects the last. */
  lemma BucketIndexMeaning(self: NodeId, id: NodeId)
    ensures id != self ==> var i := BucketIndex(self, id); Pow2(ID_BITS - 1 - i) <= Distance(self, id) < Pow2(ID_BITS - i)
    ensures BucketIndex(self, self) == 159
  {
    SharedBitsMeaning(self, id);
  }

  function TableAdd(self: NodeId, t: Table, c: Contact, now: int): Table
    requires |t| == ID_BITS
  {
    if c.id == self then t
    else
      var i := BucketIndex(self, c.id);
      t[i := BucketAdd(t[i], c, now)]
  }

  function TableRemove(self: NodeId, t: Table, id: NodeId): Table
    requires |t| == ID_BITS
  {
    var i := BucketIndex(self, id);
    t[i := BucketRemove(t[i], id)]
  }

  ghost predicate DistinctIds(cs: seq<Contact>) {
    forall j, k :: 0 <= j < k < |cs| ==> cs[j].id != cs[k].id
  }

  ghost predicate BucketOk(self: NodeId, i: nat, cs: seq<Contact>) {
    && |cs| <= K
    && DistinctIds(cs)
    && forall k :: 0 <= k < |cs| ==> cs[k].id != self && SharedBits(self, cs[k].id) == i
  }

  ghost predicate TableOk(self: NodeId, t: Table) {
    |t| == ID_BITS && forall i :: 0 <= i < |t| ==> BucketOk(self, i, t[i])
  }

  lemma AddKeepsBucket(self: NodeId, i: nat, cs: seq<Contact>, c: Contact, now: int)
    requires BucketOk(self, i, cs) && c.id != self && SharedBits(self, c.id) == i
    ensures BucketOk(self, i, BucketAdd(cs, c, now))
  {
    var k := Find(cs, c.id);
    if k < |cs| {
      MoveToBackKeepsBucket(self, i, cs, k, cs[k].(lastSeen := now, failedPings := 0));
    }
  }

  lemma MoveToBackKeepsBucket(self: NodeId, i: nat, cs: seq<Contact>, k: nat, moved: Contact)
    requires BucketOk(self, i, cs) && k < |cs| && moved.id == cs[k].id
    ensures BucketOk(self, i, Without(cs, k) + [moved])
  {
    assert forall j :: 0 <= j < |cs| - 1 ==> Without(cs, k)[j] == cs[if j < k then j else j + 1];
  }

  lemma RemoveKeepsBucket(self: NodeId, i: nat, cs: seq<Contact>, id: NodeId)
    requires BucketOk(self, i, cs)
    ensures BucketOk(self, i, BucketRemove(cs, id))
    ensures forall k :: 0 <= k < |BucketRemove(cs, id)| ==> BucketRemove(cs, id)[k].id != id
  {
    var i := Find(cs, id);
    if i < |cs| {
      assert forall j :: 0 <= j < |cs| - 1 ==> Without(cs, i)[j] == cs[if j < i then j else j + 1];
    }
  }

  datatype TableEvent = Add(contact: Contact, now: int) | Remove(id: NodeId)

  function TableStep(self: NodeId, t: Table, e: TableEvent): (t': Table)
    requires |t| == ID_BITS
    ensures |t'| == ID_BITS
  {
    match e
    case Add(c, now) => TableAdd(self, t, c, now)
    case Remove(id) => TableRemove(self, t, id)
  }

  function TableRun(self: NodeId, t: Table, es: seq<TableEvent>): (t': Table)
    requires |t| == ID_BITS
    ensures |t'| == ID_BITS
  {
    if es == [] then t else TableStep(self, TableRun(self, t, es[..|es| - 1]), es[|es| - 1])
  }

  const EMPTY: Table := seq(ID_BITS, _ => [])

  /** Over every run from the empty table: buckets hold at most K distinct foreign ids, each the ids it selects. */
  lemma {:induction false} RunsKeepTable(self: NodeId, es: seq<TableEvent>)
    ensures TableOk(self, TableRun(self, EMPTY, es))
  {
    if es != [] {
      var t := TableRun(self, EMPTY, es[..|es| - 1]);
      RunsKeepTable(self, es[..|es| - 1]);
      match es[|es| - 1]
      case Add(c, now) =>
        if c.id != self {
          AddKeepsBucket(self, BucketIndex(self, c.id), t[BucketIndex(self, c.id)], c, now);
        }
      case Remove(id) =>
        RemoveKeepsBucket(self, BucketIndex(self, id), t[BucketIndex(self, id)], id);
    }
  }

  /** No id stands in two places of the table. */
  lemma NoIdTwice(self: NodeId, t: Table, i: nat, k: nat, i': nat, k': nat)
    requires TableOk(self, t) && i < |t| && i' < |t| && k < |t[i]| && k' < |t[i']| && (i, k) != (i', k')
    ensures t[i][k].id != t[i'][k'].id
  {
    assert BucketOk(self, i, t[i]) && BucketOk(self, i', t[i']);
  }

  // ---- How large a table can be ----

  function Size(t: Table): nat {
    if t == [] then 0 else Size(t[..|t| - 1]) + |t[|t| - 1]|
  }

  lemma {:induction false} RangeSize(s: set<nat>, lo: nat, n: nat)
    requires forall x :: x in s ==> lo <= x < lo + n
    ensures |s| <= n
    decreases n
  {
    if n == 0 {
      assert s == {};
    } else {
      RangeSize(s - {lo + n - 1}, lo, n - 1);
    }
  }

  lemma LastIsApart(self: NodeId, cs: seq<Contact>, c: Contact)
    requires cs != [] && DistinctIds(cs) && c in cs[..|cs| - 1]
    ensures Dist(self, c) != Dist(self, cs[|cs| - 1])
  {
    if Dist(self, c) == Dist(self, cs[|cs| - 1]) {
      DistanceInjective(c.id, cs[|cs| - 1].id, self);
    }
  }

  lemma {:induction false} DistinctSize(self: NodeId, cs: seq<Contact>, s: set<nat>)
    requires DistinctIds(cs) && s == set c | c in cs :: Dist(self, c)
    ensures |s| == |cs|
    decreases |cs|
  {
    if cs != [] {
      var n := |cs| - 1;
      var rest := set c | c in cs[..n] :: Dist(self, c);
      DistinctSize(self, cs[..n], rest);
      forall c | c in cs[..n]
        ensures Dist(self, c) != Dist(self, cs[n])
      {
        LastIsApart(self, cs, c);
      }
      assert cs == cs[..n] + [cs[n]];
      assert Dist(self, cs[n]) !in rest && s == rest + {Dist(self, cs[n])};
    }
  }

  /** Bucket i can hold no more ids than there are distances in its range, 2^(159-i). */
  lemma BucketCapacity(self: NodeId, i: nat, cs: seq<Contact>)
    requires BucketOk(self, i, cs) && i < ID_BITS
    ensures |cs| <= K && |cs| <= Pow2(ID_BITS - 1 - i)
  {
    var s := set c | c in cs :: Dist(self, c);
    DistinctSize(self, cs, s);
    forall x | x in s
      ensures Pow2(ID_BITS - 1 - i) <= x < Pow2(ID_BITS - i)
    {
      var c :| c in cs && Dist(self, c) == x;
      SharedBitsMeaning(self, c.id);
      DistanceSymmetric(self, c.id);
    }
    assert Pow2(ID_BITS - i) == 2 * Pow2(ID_BITS - 1 - i);
    RangeSize(s, Pow2(ID_BITS - 1 - i), Pow2(ID_BITS - 1 - i));
  }

  lemma {:induction false} SizeBound(t: Table, n: nat)
    requires n <= |t| && forall i :: 0 <= i < n ==> |t[i]| <= K
    ensures Size(t[..n]) <= n * K
  {
    if n > 0 {
      SizeBound(t, n - 1);
      assert t[..n][..n - 1] == t[..n - 1];
    }
  }

  lemma SizeNext(t: Table, n: nat)
    requires n < |t|
    ensures Size(t[..n + 1]) == Size(t[..n]) + |t[n]|
  {
    assert t[..n + 1][..n] == t[..n];
  }

  /** 155 buckets of 20, then 16 + 8 + 4 + 2 + 1. */
  lemma TableSize(self: NodeId, t: Table)
    requires TableOk(self, t)
    ensures Size(t) <= 3131
  {
    SizeBound(t, 155);
    Pow2Small();
    BucketCapacity(self, 155, t[155]);
    BucketCapacity(self, 156, t[156]);
    BucketCapacity(self, 157, t[157]);
    BucketCapacity(self, 158, t[158]);
    BucketCapacity(self, 159, t[159]);
    SizeNext(t, 155);
    SizeNext(t, 156);
    SizeNext(t, 157);
    SizeNext(t, 158);
    SizeNext(t, 159);
    assert t[..160] == t;
  }

  // ---- The table object ----

  function Flatten(t: Table): seq<Contact> {
    if t == [] then [] else Flatten(t[..|t| - 1]) + t[|t| - 1]
  }

  lemma {:induction false} FlattenSize(t: Table)
    ensures |Flatten(t)| == Size(t)
  {
    if t != [] {
      FlattenSize(t[..|t| - 1]);
    }
  }

  lemma {:induction false} InFlatten(t: Table, c: Contact)
    ensures c in Flatten(t) <==> exists i :: 0 <= i < |t| && c in t[i]
  {
    if t != [] {
      var n := |t| - 1;
      InFlatten(t[..n], c);
      if i :| 0 <= i < |t| && c in t[i] {
        assert i < n ==> c in t[..n][i];
      }
    }
  }

  lemma {:induction false} FlattenDistinct(self: NodeId, t: Table)
    requires forall i :: 0 <= i < |t| ==> BucketOk(self, i, t[i])
    ensures DistinctIds(Flatten(t))
  {
    if t != [] {
      var n := |t| - 1;
      FlattenDistinct(self, t[..n]);
      forall j, k | 0 <= j < |Flatten(t[..n])| && 0 <= k < |t[n]|
        ensures Flatten(t[..n])[j].id != t[n][k].id
      {
        InFlatten(t[..n], Flatten(t[..n])[j]);
        var i :| 0 <= i < n && Flatten(t[..n])[j] in t[..n][i];
        assert BucketOk(self, i, t[i]) && BucketOk(self, n, t[n]);
      }
    }
  }

  // ---- What an add or a remove leaves alone ----

  /** The contacts with other ids, in order. */
  function Except(cs: seq<Contact>, id: NodeId): seq<Contact> {
    if cs == [] then [] else (if cs[0].id == id then [] else [cs[0]]) + Except(cs[1..], id)
  }

  lemma {:induction false} ExceptAbsent(cs: seq<Contact>, id: NodeId)
    requires forall c :: c in cs ==> c.id != id
    ensures Except(cs, id) == cs
    decreases |cs|
  {
    if cs != [] {
      ExceptAbsent(cs[1..], id);
      assert cs == [cs[0]] + cs[1..];
    }
  }

  lemma {:induction false} ExceptAt(cs: seq<Contact>, i: nat)
    requires i < |cs| && DistinctIds(cs)
    ensures Except(cs, cs[i].id) == Without(cs, i)
    decreases |cs|
  {
    if i == 0 {
      ExceptAbsent(cs[1..], cs[0].id);
      assert Without(cs, 0) == cs[1..];
    } else {
      ExceptAt(cs[1..], i - 1);
      assert Without(cs, i) == [cs[0]] + Without(cs[1..], i - 1);
    }
  }

  lemma {:induction false} ExceptMembers(cs: seq<Contact>, id: NodeId)
    ensures forall c :: c in Except(cs, id) <==> c in cs && c.id != id
    decreases |cs|
  {
    if cs != [] {
      ExceptMembers(cs[1..], id);
      assert cs == [cs[0]] + cs[1..];
    }
  }

  lemma FindKnown(cs: seq<Contact>, j: nat)
    requires j < |cs| && DistinctIds(cs)
    ensures Find(cs, cs[j].id) == j
  {
  }

  /** A known contact goes behind all the others, which keep their order, with its old address and a new time. */
  lemma BucketAddKnown(cs: seq<Contact>, c: Contact, now: int, j: nat)
    requires DistinctIds(cs) && j < |cs| && cs[j].id == c.id
    ensures BucketAdd(cs, c, now) == Except(cs, c.id) + [Contact(c.id, cs[j].address, now, 0)]
  {
    FindKnown(cs, j);
    ExceptAt(cs, j);
  }

  /**
   Adding to a bucket: a known contact goes behind all the others, which keep their order, with its old address and a new
   time; an unknown one goes behind everything while there is room; a full bucket stays as it is.
   */
  lemma BucketAddMeaning(cs: seq<Contact>, c: Contact, now: int)
    requires DistinctIds(cs)
    ensures forall known :: known in cs && known.id == c.id ==>
      BucketAdd(cs, c, now) == Except(cs, c.id) + [Contact(c.id, known.address, now, 0)]
    ensures (forall x :: x in cs ==> x.id != c.id) ==> BucketAdd(cs, c, now) == if |cs| < K then cs + [c] else cs
  {
    forall known | known in cs && known.id == c.id
      ensures BucketAdd(cs, c, now) == Except(cs, c.id) + [Contact(c.id, known.address, now, 0)]
    {
      var j :| 0 <= j < |cs| && cs[j] == known;
      BucketAddKnown(cs, c, now, j);
    }
  }

  /** Removing from a bucket leaves the contacts with other ids, in order. */
  lemma BucketRemoveMeaning(cs: seq<Contact>, id: NodeId)
    requires DistinctIds(cs)
    ensures BucketRemove(cs, id) == Except(cs, id)
  {
    var i := Find(cs, id);
    if i < |cs| {
      ExceptAt(cs, i);
    } else {
      ExceptAbsent(cs, id);
    }
  }

  ghost predicate HasId(cs: seq<Contact>, id: NodeId) {
    exists c :: c in cs && c.id == id
  }

  lemma BucketAddMembers(cs: seq<Contact>, c: Contact, now: int)
    requires DistinctIds(cs)
    ensures forall x: Contact :: x.id != c.id ==> (x in BucketAdd(cs, c, now) <==> x in cs)
    ensures HasId(BucketAdd(cs, c, now), c.id) <==> HasId(cs, c.id) || |cs| < K
  {
    BucketAddMeaning(cs, c, now);
    if known :| known in cs && known.id == c.id {
      ExceptMembers(cs, c.id);
      AppendedHas(Except(cs, c.id), Contact(c.id, known.address, now, 0));
    } else if |cs| < K {
      AppendedHas(cs, c);
    }
  }

  lemma AppendedHas(cs: seq<Contact>, c: Contact)
    ensures HasId(cs + [c], c.id) && forall x :: x in cs + [c] <==> x in cs || x == c
  {
    assert (cs + [c])[|cs|] == c;
  }

  /** A contact that stands in one bucket of a sound table stands in the bucket its id selects. */
  lemma InOwnBucket(self: NodeId, t: Table, c: Contact)
    requires TableOk(self, t)
    ensures c in Flatten(t) <==> c.id != self && c in t[BucketIndex(self, c.id)]
  {
    InFlatten(t, c);
    if c in Flatten(t) {
      var i :| 0 <= i < |t| && c in t[i];
      assert BucketOk(self, i, t[i]);
    }
  }

  /** Adding to the table: contacts with other ids stay exactly as they are, and no other bucket changes. */
  lemma AddKeepsOthers(self: NodeId, t: Table, c: Contact, now: int)
    requires TableOk(self, t)
    ensures var t' := TableAdd(self, t, c, now);
            && TableOk(self, t')
            && (forall x: Contact :: x.id != c.id ==> (x in Flatten(t') <==> x in Flatten(t)))
            && (forall j :: 0 <= j < |t| && j != BucketIndex(self, c.id) ==> t'[j] == t[j])
            && (HasId(Flatten(t'), c.id) <==>
                  HasId(Flatten(t), c.id) || (c.id != self && |t[BucketIndex(self, c.id)]| < K))
  {
    var t', i := TableAdd(self, t, c, now), BucketIndex(self, c.id);
    if c.id != self {
      assert BucketOk(self, i, t[i]);
      AddKeepsBucket(self, i, t[i], c, now);
      BucketAddMembers(t[i], c, now);
      forall x: Contact
        ensures x in Flatten(t') <==> x.id != self && x in t'[BucketIndex(self, x.id)]
        ensures x in Flatten(t) <==> x.id != self && x in t[BucketIndex(self, x.id)]
      {
        InOwnBucket(self, t', x);
        InOwnBucket(self, t, x);
      }
      HasIdInBucket(self, t, c.id);
      HasIdInBucket(self, t', c.id);
    }
  }

  lemma HasIdInBucket(self: NodeId, t: Table, id: NodeId)
    requires TableOk(self, t) && id != self
    ensures HasId(Flatten(t), id) <==> HasId(t[BucketIndex(self, id)], id)
  {
    if c :| c in Flatten(t) && c.id == id {
      InOwnBucket(self, t, c);
    }
    if c :| c in t[BucketIndex(self, id)] && c.id == id {
      InOwnBucket(self, t, c);
    }
  }

  /** So no id that is in the table leaves it by an add. */
  lemma AddKeepsIds(self: NodeId, t: Table, c: Contact, now: int, id: NodeId)
    requires TableOk(self, t) && HasId(Flatten(t), id)
    ensures HasId(Flatten(TableAdd(self, t, c, now)), id)
  {
    AddKeepsOthers(self, t, c, now);
    var x :| x in Flatten(t) && x.id == id;
    if id != c.id {
      assert x in Flatten(TableAdd(self, t, c, now));
    }
  }

  /** Removing from the table leaves exactly the contacts with other ids, and the other buckets. */
  lemma RemoveKeepsOthers(self: NodeId, t: Table, id: NodeId)
    requires TableOk(self, t)
    ensures var t' := TableRemove(self, t, id);
            && TableOk(self, t')
            && (forall x :: x in Flatten(t') <==> x in Flatten(t) && x.id != id)
            && (forall j :: 0 <= j < |t| && j != BucketIndex(self, id) ==> t'[j] == t[j])
  {
    var t', i := TableRemove(self, t, id), BucketIndex(self, id);
    assert BucketOk(self, i, t[i]);
    RemoveKeepsBucket(self, i, t[i], id);
    BucketRemoveMeaning(t[i], id);
    ExceptMembers(t[i], id);
    forall x: Contact
      ensures x in Flatten(t') <==> x in Flatten(t) && x.id != id
    {
      InOwnBucket(self, t', x);
      InOwnBucket(self, t, x);
    }
  }

  /** Positions below `i` hold their final values, and `a[i]` is nearest among positions `i..j`. */
  ghost predicate Exchanged(target: NodeId, a: seq<Contact>, i: nat, j: nat) {
    && (forall p, q :: 0 <= p < i && p < q < |a| ==> Dist(target, a[p]) <= Dist(target, a[q]))
    && (forall q :: i < q < j && q < |a| && i < |a| ==> Dist(target, a[i]) <= Dist(target, a[q]))
  }

  function Swapped(a: seq<Contact>, i: nat, j: nat): seq<Contact>
    requires i < |a| && j < |a|
  {
    a[i := a[j]][j := a[i]]
  }

  lemma SwapKeeps(target: NodeId, a: seq<Contact>, i: nat, j: nat)
    requires i < j < |a| && Exchanged(target, a, i, j) && Dist(target, a[j]) < Dist(target, a[i])
    ensures Exchanged(target, Swapped(a, i, j), i, j + 1) && multiset(Swapped(a, i, j)) == multiset(a)
  {
  }

  lemma NoSwapKeeps(target: NodeId, a: seq<Contact>, i: nat, j: nat)
    requires i < j < |a| && Exchanged(target, a, i, j) && Dist(target, a[i]) <= Dist(target, a[j])
    ensures Exchanged(target, a, i, j + 1)
  {
  }

  lemma NextRow(target: NodeId, a: seq<Contact>, i: nat)
    requires i < |a| && Exchanged(target, a, i, |a|)
    ensures Exchanged(target, a, i + 1, i + 2)
  {
  }

  /** The exchange sort of FindClosest, in place. */
  method SortByDistance(a: array<Contact>, target: NodeId)
    modifies a
    ensures Sorted(target, a[..]) && multiset(a[..]) == old(multiset(a[..]))
  {
    ghost var s := a[..];
    for i := 0 to a.Length
      invariant a[..] == s && multiset(s) == old(multiset(a[..])) && Exchanged(target, s, i, i + 1)
    {
      for j := i + 1 to a.Length
        invariant a[..] == s && multiset(s) == old(multiset(a[..])) && Exchanged(target, s, i, j)
      {
        var closer := CloserTo(a[j].id, target, a[i].id);
        if closer {
          SwapKeeps(target, s, i, j);
          a[i], a[j] := a[j], a[i];
          s := Swapped(s, i, j);
        } else {
          NoSwapKeeps(target, s, i, j);
        }
      }
      NextRow(target, s, i);
    }
  }

  class Routing {
    const self: NodeId
    const buckets: seq<Bucket>

    ghost function View(): Table
      reads buckets
    {
      seq(|buckets|, i requires 0 <= i < |buckets| reads buckets => buckets[i].contacts)
    }

    ghost predicate Valid()
      reads buckets
    {
      (forall i, j :: 0 <= i < j < |buckets| ==> buckets[i] != buckets[j]) && TableOk(self, View())
    }

    constructor (id: NodeId)
      ensures Valid() && self == id && View() == EMPTY && fresh(buckets)
    {
      self := id;
      var bs: seq<Bucket> := [];
      for i := 0 to ID_BITS
        invariant |bs| == i && fresh(bs)
        invariant forall j, k :: 0 <= j < k < i ==> bs[j] != bs[k]
        invariant forall j :: 0 <= j < i ==> bs[j].contacts == []
      {
        var b := new Bucket();
        bs := bs + [b];
      }
      buckets := bs;
    }

    /** The first set bit of the XOR, found by scanning bytes then bits. */
    method GetBucketIndex(id: NodeId) returns (r: nat)
      ensures r == BucketIndex(self, id)
    {
      var xor := Xor(self, id);
      for i := 0 to ID_BYTES
        invariant forall k :: 0 <= k < i ==> xor[k] == 0
      {
        if xor[i] != 0 {
          var b := xor[i];
          Pow2Small();
          for j := 8 downto 0
            invariant (b as int) < Pow2(j)
          {
            TestBit(b, j);
            if b & ((1 as byte) << j) != 0 {
              TopBit(xor, i, j);
              BitLengthIs(Value(xor), 8 * (ID_BYTES - 1 - i) + j);
              SharedBitsMeaning(self, id);
              return i * 8 + (7 - j);
            }
          }
        }
      }
      ZeroValue(xor);
      DistanceZero(self, id);
      return ID_BITS - 1;
    }

    method AddContact(contact: Contact, now: int) returns (ok: bool)
      requires Valid()
      modifies buckets
      ensures Valid() && View() == TableAdd(self, old(View()), contact, now)
      ensures ok <==> contact.id != self && exists c :: c in View()[BucketIndex(self, contact.id)] && c.id == contact.id
    {
      if contact.id == self {
        return false;
      }
      var i := GetBucketIndex(contact.id);
      assert BucketOk(self, i, View()[i]);
      AddKeepsBucket(self, i, View()[i], contact, now);
      ok := buckets[i].AddContact(contact, now);
      assert View() == TableAdd(self, old(View()), contact, now);
    }

    method RemoveContact(id: NodeId)
      requires Valid()
      modifies buckets
      ensures Valid() && View() == TableRemove(self, old(View()), id)
      ensures forall c :: c in Flatten(View()) ==> c.id != id
    {
      var i := GetBucketIndex(id);
      assert BucketOk(self, i, View()[i]);
      RemoveKeepsBucket(self, i, View()[i], id);
      buckets[i].RemoveContact(id);
      assert View() == TableRemove(self, old(View()), id);
      forall c | c in Flatten(View())
        ensures c.id != id
      {
        InFlatten(View(), c);
        var j :| 0 <= j < |View()| && c in View()[j];
        assert BucketOk(self, j, View()[j]);
      }
    }

    method GetAllContacts() returns (all: seq<Contact>)
      ensures all == Flatten(View())
    {
      all := [];
      for i := 0 to |buckets|
        invariant all == Flatten(View()[..i])
      {
        assert View()[..i + 1][..i] == View()[..i];
        all := all + buckets[i].contacts;
      }
      assert View()[..|buckets|] == View();
    }

    /** The `count` closest contacts, strictly sorted; nothing left in the table is closer than any of them. */
    method FindClosest(target: NodeId, count: nat) returns (r: seq<Contact>)
      requires Valid()
      ensures TopK(target, count, r, multiset(Flatten(View())))
      ensures |r| == Min(count, Size(View()))
      ensures forall i, j :: 0 <= i < j < |r| ==> Dist(target, r[i]) < Dist(target, r[j])
      ensures forall c :: c in r ==> c.id != self
    {
      var all := GetAllContacts();
      ghost var t := View();
      var sorted := SortedCopy(all, target);
      r := if |sorted| > count then sorted[..count] else sorted;
      ClosestOf(self, t, target, count, sorted);
    }

    method SortedCopy(all: seq<Contact>, target: NodeId) returns (sorted: seq<Contact>)
      ensures Sorted(target, sorted) && multiset(sorted) == multiset(all)
    {
      var a := new Contact[|all|](i requires 0 <= i < |all| => all[i]);
      assert a[..] == all;
      SortByDistance(a, target);
      sorted := a[..];
    }

    /** One bucket is enough: an id is found exactly when it is anywhere in the table. */
    method GetContact(id: NodeId) returns (r: Option<Contact>)
      requires Valid()
      ensures r.Some? ==> r.value in Flatten(View()) && r.value.id == id
      ensures r.None? ==> forall c :: c in Flatten(View()) ==> c.id != id
    {
      var i := GetBucketIndex(id);
      var contacts := buckets[i].contacts;
      assert contacts == View()[i];
      for k := 0 to |contacts|
        invariant forall m :: 0 <= m < k ==> contacts[m].id != id
      {
        if contacts[k].id == id {
          InFlatten(View(), contacts[k]);
          return Some(contacts[k]);
        }
      }
      forall c | c in Flatten(View())
        ensures c.id != id
      {
        InFlatten(View(), c);
        var j :| 0 <= j < |View()| && c in View()[j];
        assert BucketOk(self, j, View()[j]);
      }
      return None;
    }
  }

  lemma TakeIsTopK(target: NodeId, k: nat, a: seq<Contact>, all: multiset<Contact>)
    requires Sorted(target, a) && multiset(a) == all
    ensures TopK(target, k, if |a| > k then a[..k] else a, all)
  {
    if |a| > k {
      assert a == a[..k] + a[k..];
      forall c, d | LeftOut(a[..k], all, c) && d in a[..k]
        ensures Dist(target, d) <= Dist(target, c)
      {
        assert c in multiset(a[k..]);
        PrefixIsCloser(target, k, a, c, d);
      }
    }
  }

  lemma PrefixIsCloser(target: NodeId, k: nat, a: seq<Contact>, c: Contact, d: Contact)
    requires Sorted(target, a) && k <= |a| && d in a[..k] && c in a[k..]
    ensures Dist(target, d) <= Dist(target, c)
  {
  }

  /** The first `count` of the sorted table contents. */
  lemma ClosestOf(self: NodeId, t: Table, target: NodeId, count: nat, a: seq<Contact>)
    requires TableOk(self, t) && Sorted(target, a) && multiset(a) == multiset(Flatten(t))
    ensures var r := if |a| > count then a[..count] else a;
            && TopK(target, count, r, multiset(Flatten(t)))
            && |r| == Min(count, Size(t))
            && (forall i, j :: 0 <= i < j < |r| ==> Dist(target, r[i]) < Dist(target, r[j]))
            && (forall c :: c in r ==> c.id != self)
  {
    TakeIsTopK(target, count, a, multiset(Flatten(t)));
    FlattenDistinct(self, t);
    StrictlySorted(target, a, Flatten(t));
    FlattenSize(t);
    assert |multiset(a)| == |a| && |multiset(Flatten(t))| == |Flatten(t)|;
    forall c | c in a
      ensures c.id != self
    {
      assert c in multiset(a);
      assert c in Flatten(t);
      InFlatten(t, c);
      var i :| 0 <= i < |t| && c in t[i];
      assert BucketOk(self, i, t[i]);
    }
  }

  lemma StrictlySorted(target: NodeId, a: seq<Contact>, all: seq<Contact>)
    requires Sorted(target, a) && multiset(a) == multiset(all) && DistinctIds(all)
    ensures forall i, j :: 0 <= i < j < |a| ==> Dist(target, a[i]) < Dist(target, a[j])
  {
    forall i, j | 0 <= i < j < |a|
      ensures Dist(target, a[i]) < Dist(target, a[j])
    {
      if Dist(target, a[i]) == Dist(target, a[j]) {
        DistanceInjective(a[i].id, a[j].id, target);
        TwiceInPermutation(a, all, i, j);
        assert false;
      }
    }
  }

  /** Two positions with one id in a permutation mean two positions with that id in the original. */
  lemma TwiceInPermutation(a: seq<Contact>, all: seq<Contact>, i: nat, j: nat)
    requires i < j < |a| && a[i].id == a[j].id && multiset(a) == multiset(all)
    ensures !DistinctIds(all)
  {
    if DistinctIds(all) {
      assert a[i] in multiset(a) && a[j] in multiset(a);
      assert a[i] in all && a[j] in all;
      assert a[i] == a[j];
      var c := a[i];
      assert multiset(a)[c] >= 2 by {
        assert a == a[..i] + [c] + a[i + 1..j] + [c] + a[j + 1..];
      }
      AtMostOnce(all, c);
      assert false;
    }
  }

  lemma {:induction false} AtMostOnce(cs: seq<Contact>, c: Contact)
    requires DistinctIds(cs)
    ensures multiset(cs)[c] <= 1
    decreases |cs|
  {
    if cs != [] {
      var n := |cs| - 1;
      AtMostOnce(cs[..n], c);
      assert cs == cs[..n] + [cs[n]];
      if cs[n] == c {
        assert c !in cs[..n];
      }
    }
  }
}
