/** The k contacts closest to a target: what it means, that it is unique, and that it can be kept up incrementally. */
module Closest {
  import opened NodeId

  datatype Contact = Contact(id: NodeId, address: string, lastSeen: int, failedPings: int)

  function Dist(target: NodeId, c: Contact): nat {
    Distance(c.id, target)
  }

  ghost predicate Sorted(target: NodeId, cs: seq<Contact>) {
    forall i, j :: 0 <= i < j < |cs| ==> Dist(target, cs[i]) <= Dist(target, cs[j])
  }

  function Min(a: nat, b: nat): nat {
    if a <= b then a else b
  }

  /** `c` occurs in `all` more often than in `r`. */
  ghost predicate LeftOut(r: seq<Contact>, all: multiset<Contact>, c: Contact) {
    all[c] > multiset(r)[c]
  }

  /** `r` is sorted, drawn from `all` with multiplicity, as long as it can be up to `k`, and nothing left out is closer. */
  ghost predicate TopK(target: NodeId, k: nat, r: seq<Contact>, all: multiset<Contact>) {
    && Sorted(target, r)
    && multiset(r) <= all
    && |r| == Min(k, |all|)
    && forall c, d :: LeftOut(r, all, c) && d in r ==> Dist(target, d) <= Dist(target, c)
  }

  lemma SameSizeSubset(a: multiset<Contact>, b: multiset<Contact>)
    requires a <= b && |a| == |b|
    ensures a == b
  {
    assert b == a + (b - a);
  }

  lemma SomeMissing(a: multiset<Contact>, b: multiset<Contact>, d: Contact) returns (e: Contact)
    requires |a| == |b| && b[d] > a[d]
    ensures a[e] > b[e]
  {
    if a <= b {
      SameSizeSubset(a, b);
      assert false;
    }
    e :| a[e] > b[e];
  }

  lemma SubsetSize(a: multiset<Contact>, b: multiset<Contact>)
    requires a <= b
    ensures |a| <= |b|
  {
    assert b == a + (b - a);
  }

  lemma MissingMakesFull(target: NodeId, k: nat, r: seq<Contact>, all: multiset<Contact>, c: Contact)
    requires TopK(target, k, r, all) && LeftOut(r, all, c)
    ensures |r| == k
  {
    if |r| == |all| {
      SameSizeSubset(multiset(r), all);
      assert false;
    }
  }

  /** Keeping only the k closest so far loses nothing: the k closest of the rest plus these are the k closest of all. */
  lemma Streaming(target: NodeId, k: nat, s: seq<Contact>, a: multiset<Contact>, s': seq<Contact>, b: multiset<Contact>)
    requires TopK(target, k, s, a) && TopK(target, k, s', multiset(s) + b)
    ensures TopK(target, k, s', a + b)
  {
    var m := multiset(s) + b;
    assert |m| == |s| + |b|;
    forall c, d | LeftOut(s', a + b, c) && d in s'
      ensures Dist(target, d) <= Dist(target, c)
    {
      if !LeftOut(s', m, c) {
        assert LeftOut(s, a, c);
        MissingMakesFull(target, k, s, a, c);
        if d !in s {
          // something of s gave way to d, so it is no closer than d, and it is no farther than c
          var e := SomeMissing(multiset(s), multiset(s'), d);
          assert e in s && LeftOut(s', m, e);
        }
      }
    }
  }

  /** The distances, hence the ids, of the k closest are determined. */
  lemma TopKUnique(target: NodeId, k: nat, r1: seq<Contact>, r2: seq<Contact>, all: multiset<Contact>, i: nat)
    requires TopK(target, k, r1, all) && TopK(target, k, r2, all) && i < |r1|
    ensures r1[i].id == r2[i].id
  {
    NotCloser(target, k, r1, r2, all, i);
    NotCloser(target, k, r2, r1, all, i);
    DistanceInjective(r1[i].id, r2[i].id, target);
  }

  /** What lies nearer than r2[i] stands before index i in r2, as often as in `all`. */
  lemma StandsBefore(target: NodeId, k: nat, r2: seq<Contact>, all: multiset<Contact>, i: nat, x: Contact)
    requires TopK(target, k, r2, all) && i < |r2| && Dist(target, x) < Dist(target, r2[i])
    ensures all[x] <= multiset(r2[..i])[x]
  {
    assert !LeftOut(r2, all, x);
    assert x !in r2[i..];
    assert multiset(r2) == multiset(r2[..i]) + multiset(r2[i..]) by {
      assert r2 == r2[..i] + r2[i..];
    }
  }

  lemma NotCloser(target: NodeId, k: nat, r1: seq<Contact>, r2: seq<Contact>, all: multiset<Contact>, i: nat)
    requires TopK(target, k, r1, all) && TopK(target, k, r2, all) && i < |r1|
    ensures Dist(target, r1[i]) >= Dist(target, r2[i])
  {
    if Dist(target, r1[i]) < Dist(target, r2[i]) {
      var near, before := multiset(r1[..i + 1]), multiset(r2[..i]);
      PrefixWithin(r1, i + 1, all);
      forall x | x in near
        ensures near[x] <= before[x]
      {
        assert x in r1[..i + 1];
        StandsBefore(target, k, r2, all, i, x);
      }
      SubsetSize(near, before);
      assert false;
    }
  }

  lemma PrefixWithin(r: seq<Contact>, n: nat, all: multiset<Contact>)
    requires multiset(r) <= all && n <= |r|
    ensures multiset(r[..n]) <= all
  {
    assert r == r[..n] + r[n..];
  }

  /** The first of a longer list is at least as close: adding contacts never moves the head away. */
  lemma HeadNeverRecedes(target: NodeId, k: nat, r: seq<Contact>, all: multiset<Contact>, c: Contact)
    requires TopK(target, k, r, all) && c in all && k > 0
    ensures r != [] && Dist(target, r[0]) <= Dist(target, c)
  {
    if c !in r {
      assert LeftOut(r, all, c);
      assert |all| > 0;
    }
  }
}
