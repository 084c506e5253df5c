/**
 Messages of one chain in any order. SkipMessageKeys advances the chain but not ReceivingMsgNum, so the chain runs
 ahead of the counter by the width of every gap filled so far.
 */
module RatchetGaps {
  import opened Bytes
  import opened Ratchet
  import opened RatchetLedger

  /** The ledger of one chain: the counter, how far the chain is ahead of it, and the position of each stored number. */
  datatype Position = Position(count: Counter, ahead: nat, stored: map<Counter, nat>)

  function FillGap(p: Position, n: Counter): Position {
    if n <= p.count then p
    else Position(p.count, p.ahead + (n - p.count),
                  map i: Counter | i in p.stored || p.count <= i < n ::
                    if p.count <= i < n then p.ahead + i else p.stored[i])
  }

  /** Once the gap is filled: the chain position whose key is used for message `n`, and where that leaves the chain. */
  function TakeKey(q: Position, n: Counter): (nat, Position) {
    if n in q.stored then (q.stored[n], q.(stored := q.stored - {n}))
    else (q.count + q.ahead,
          if q.count + 1 < U32 then q.(count := q.count + 1) else q.(count := 0, ahead := q.ahead + U32))
  }

  /** The position whose key opens message `n`; None when it lies too far ahead, and nothing changes. */
  function Used(p: Position, n: Counter): Option<nat> {
    if n > p.count + MAX_SKIP then None else Some(TakeKey(FillGap(p, n), n).0)
  }

  function Arrive(p: Position, n: Counter): Position {
    if n > p.count + MAX_SKIP then p else TakeKey(FillGap(p, n), n).1
  }

  /** `p` is the part of the ledger that concerns the chain of `remote`. */
  ghost predicate Covers(l: Ledger, remote: Key, p: Position) {
    && l.Ahead() == p.ahead
    && forall i: Counter ::
         && (KeyId(remote, i) in l.stored <==> i in p.stored)
         && (i in p.stored ==> l.stored[KeyId(remote, i)] == Origin(l.start, p.stored[i]))
  }

  /** The session's account is right, and `p` is its part for the chain being received. */
  ghost predicate At(c: Suite, s: State, l: Ledger, p: Position) {
    Accounted(c, s, l) && s.recvNum == p.count && Covers(l, s.dhRemote, p)
  }

  lemma FillCovers(l: Ledger, remote: Key, p: Position, n: Counter)
    requires Covers(l, remote, p)
    ensures Covers(Fill(l, remote, p.count, n), remote, FillGap(p, n))
  {
    forall i: Counter {
      FillCoversAt(l, remote, p, n, i);
    }
  }

  lemma FillCoversAt(l: Ledger, remote: Key, p: Position, n: Counter, i: Counter)
    requires Covers(l, remote, p)
    ensures var m, q := Fill(l, remote, p.count, n).stored, FillGap(p, n).stored;
            (KeyId(remote, i) in m <==> i in q) && (i in q ==> m[KeyId(remote, i)] == Origin(l.start, q[i]))
  {
    FillAt(l, remote, p.count, n, KeyId(remote, i));
  }

  lemma TakeCovers(l: Ledger, remote: Key, q: Position, n: Counter)
    requires Covers(l, remote, q)
    ensures var (l', o) := Take(l, q.count, KeyId(remote, n));
            o == Origin(l.start, TakeKey(q, n).0) && l'.start == l.start && Covers(l', remote, TakeKey(q, n).1)
  {
  }

  // ---- Runs on one chain ----

  /** A message as it reaches RatchetDecrypt. */
  datatype Delivery = Delivery(header: bytes, body: bytes)

  ghost predicate OnChain(d: Delivery, remote: Key) {
    DecodeHeader(d.header).Some? && DecodeHeader(d.header).value.dhPublic == remote
  }

  function Num(d: Delivery): Counter {
    match DecodeHeader(d.header)
    case Some(h) => h.num
    case None => 0
  }

  ghost predicate AllOnChain(ds: seq<Delivery>, remote: Key) {
    forall i :: 0 <= i < |ds| ==> OnChain(ds[i], remote)
  }

  /** No key pair is needed on a chain already known. */
  function Received(c: Suite, s: State, d: Delivery): Step<bytes> {
    Decrypt(c, s, d.header, d.body, None)
  }

  function Results(c: Suite, s: State, ds: seq<Delivery>): (r: seq<Outcome<bytes>>)
    ensures |r| == |ds|
    decreases |ds|
  {
    if ds == [] then [] else [Received(c, s, ds[0]).result] + Results(c, Received(c, s, ds[0]).state, ds[1..])
  }

  function Final(c: Suite, s: State, ds: seq<Delivery>): State
    decreases |ds|
  {
    if ds == [] then s else Final(c, Received(c, s, ds[0]).state, ds[1..])
  }

  function Positions(p: Position, ds: seq<Delivery>): (r: seq<Option<nat>>)
    ensures |r| == |ds|
    decreases |ds|
  {
    if ds == [] then [] else [Used(p, Num(ds[0]))] + Positions(Arrive(p, Num(ds[0])), ds[1..])
  }

  function ArriveAll(p: Position, ds: seq<Delivery>): Position
    decreases |ds|
  {
    if ds == [] then p else ArriveAll(Arrive(p, Num(ds[0])), ds[1..])
  }

  lemma PositionsNext(p: Position, ds: seq<Delivery>)
    requires ds != []
    ensures Positions(p, ds)[0] == Used(p, Num(ds[0]))
    ensures forall k :: 1 <= k < |ds| ==> Positions(p, ds)[k] == Positions(Arrive(p, Num(ds[0])), ds[1..])[k - 1]
  {
    var first, rest := Used(p, Num(ds[0])), Positions(Arrive(p, Num(ds[0])), ds[1..]);
    assert Positions(p, ds) == [first] + rest;
    assert forall k :: 1 <= k < |ds| ==> ([first] + rest)[k] == rest[k - 1];
  }

  /** The outcome for a message opened at this position of the chain that began at `start`. */
  function OpenedAt(c: Suite, start: Key, body: bytes, position: Option<nat>): Outcome<bytes> {
    match position
    case None => Err(TooManySkipped)
    case Some(n) => Open(c, body, MessageKeyAt(c, start, n))
  }

  lemma InChainCovers(l: Ledger, p: Position, h: Header)
    requires Covers(l, h.dhPublic, p)
    ensures var (l', o) := InChain(l, p.count, h);
            && l'.start == l.start && Covers(l', h.dhPublic, Arrive(p, h.num))
            && o == match Used(p, h.num) case None => None case Some(n) => Some(Origin(l.start, n))
  {
    if h.num <= p.count + MAX_SKIP {
      FillCovers(l, h.dhPublic, p, h.num);
      TakeCovers(Fill(l, h.dhPublic, p.count, h.num), h.dhPublic, FillGap(p, h.num), h.num);
    }
  }

  /** The counter moves only when the key comes from the chain. */
  lemma CountMoves(c: Suite, s: State, l: Ledger, p: Position, h: Header, body: bytes)
    requires At(c, s, l, p) && h.dhPublic == s.dhRemote
    ensures var step := DecryptInChain(c, s, h, body);
            && step.state.dhRemote == s.dhRemote && step.state.recvNum == Arrive(p, h.num).count
            && (Used(p, h.num).None? ==> step.result == Err(TooManySkipped))
  {
    StoredKeys(c, s.skipped, s.recvChain, h.dhPublic, s.recvNum, h.num, KeyId(h.dhPublic, h.num));
    assert KeyId(s.dhRemote, h.num) in s.skipped <==> h.num in p.stored;
  }

  /** One arrival on the chain being received is the account of the whole session, seen on that chain. */
  lemma ArriveAt(c: Suite, s: State, l: Ledger, p: Position, d: Delivery) returns (l': Ledger)
    requires At(c, s, l, p) && OnChain(d, s.dhRemote)
    ensures var step := Received(c, s, d);
            && step.result == OpenedAt(c, l.start, d.body, Used(p, Num(d)))
            && step.state.dhRemote == s.dhRemote && l'.start == l.start && At(c, step.state, l', Arrive(p, Num(d)))
  {
    var h := DecodeHeader(d.header).value;
    l' := InChain(l, p.count, h).0;
    DecryptAccounted(c, s, l, d.header, d.body, None);
    InChainCovers(l, p, h);
    CountMoves(c, s, l, p, h, d.body);
  }

  /** Each message was opened at its position. */
  ghost predicate OpenedAll(c: Suite, start: Key, ds: seq<Delivery>, results: seq<Outcome<bytes>>, positions: seq<Option<nat>>) {
    && |results| == |positions| == |ds|
    && forall i :: 0 <= i < |ds| ==> results[i] == OpenedAt(c, start, ds[i].body, positions[i])
  }

  lemma OpenedNext(c: Suite, start: Key, ds: seq<Delivery>, result: Outcome<bytes>, results: seq<Outcome<bytes>>,
                   position: Option<nat>, positions: seq<Option<nat>>)
    requires ds != [] && result == OpenedAt(c, start, ds[0].body, position)
    requires OpenedAll(c, start, ds[1..], results, positions)
    ensures OpenedAll(c, start, ds, [result] + results, [position] + positions)
  {
  }

  ghost predicate StandsAt(c: Suite, s: State, start: Key, p: Position) {
    s.recvNum == p.count && s.recvChain == ChainAt(c, start, p.count + p.ahead)
  }

  lemma AtStands(c: Suite, s: State, l: Ledger, p: Position)
    requires At(c, s, l, p)
    ensures StandsAt(c, s, l.start, p)
  {
  }

  /** For every arrival order on a chain: which key opens each message, and where the chain stands in the end. */
  lemma {:induction false} RunAt(c: Suite, s: State, l: Ledger, p: Position, ds: seq<Delivery>)
    requires At(c, s, l, p) && AllOnChain(ds, s.dhRemote)
    ensures OpenedAll(c, l.start, ds, Results(c, s, ds), Positions(p, ds))
    ensures StandsAt(c, Final(c, s, ds), l.start, ArriveAll(p, ds))
    decreases |ds|
  {
    if ds == [] {
      AtStands(c, s, l, p);
    } else {
      var l' := ArriveAt(c, s, l, p, ds[0]);
      var s', p' := Received(c, s, ds[0]).state, Arrive(p, Num(ds[0]));
      RunAt(c, s', l', p', ds[1..]);
      OpenedNext(c, l.start, ds, Received(c, s, ds[0]).result, Results(c, s', ds[1..]), Used(p, Num(ds[0])),
                 Positions(p', ds[1..]));
    }
  }

  /**
   A message is opened with the key at its own number exactly when it is in reach and either its own key is stored for
   it, or none is stored and it is not late and no gap was filled before.
   */
  lemma OwnKeyIffNoGap(c: Suite, s: State, l: Ledger, p: Position, d: Delivery)
    requires At(c, s, l, p) && OnChain(d, s.dhRemote)
    ensures Received(c, s, d).result == OpenedAt(c, l.start, d.body, Used(p, Num(d)))
    ensures Used(p, Num(d)) == Some(Num(d)) <==>
            && Num(d) <= p.count + MAX_SKIP
            && if Num(d) in p.stored then p.stored[Num(d)] == Num(d) else p.ahead == 0 && p.count <= Num(d)
  {
    var l' := ArriveAt(c, s, l, p, d);
    OwnPosition(p, Num(d));
  }

  lemma OwnPosition(p: Position, n: Counter)
    ensures Used(p, n) == Some(n) <==>
            n <= p.count + MAX_SKIP && if n in p.stored then p.stored[n] == n else p.ahead == 0 && p.count <= n
  {
  }

  // ---- One gap ----

  ghost predicate Distinct(ds: seq<Delivery>) {
    forall i, j :: 0 <= i < j < |ds| ==> Num(ds[i]) != Num(ds[j])
  }

  /**
   The skipped messages still under way all have a stored key, and it is their own for those below the counter and
   those from `top` on: a late message beyond the counter fills the gap below it a second time, with wrong keys.
   */
  ghost predicate Pending(p: Position, ds: seq<Delivery>, top: nat) {
    forall i :: 0 <= i < |ds| ==>
      var n := Num(ds[i]);
      n in p.stored && (p.stored[n] == n <==> n < p.count || top <= n)
  }

  lemma PendingNext(p: Position, ds: seq<Delivery>, top: nat)
    requires ds != [] && p.ahead > 0 && Distinct(ds) && Pending(p, ds, top) && Num(ds[0]) <= p.count + MAX_SKIP
    ensures var n := Num(ds[0]);
            && Used(p, n) == Some(p.stored[n]) && Arrive(p, n).count == p.count && Arrive(p, n).ahead > 0
            && Pending(Arrive(p, n), ds[1..], if top < n then n else top)
  {
    var n := Num(ds[0]);
    var q, top' := Arrive(p, n), if top < n then n else top;
    forall i | 1 <= i < |ds|
      ensures var m := Num(ds[i]); m in q.stored && (q.stored[m] == m <==> m < q.count || top' <= m)
    {
      assert Num(ds[i]) != n;
    }
  }

  lemma {:induction false} LateRun(p: Position, ds: seq<Delivery>, top: nat)
    requires p.ahead > 0 && Distinct(ds) && Pending(p, ds, top)
    requires forall i :: 0 <= i < |ds| ==> Num(ds[i]) <= p.count + MAX_SKIP
    ensures forall k :: 0 <= k < |ds| ==>
      (Positions(p, ds)[k] == Some(Num(ds[k])) <==> Num(ds[k]) < p.count || (top <= Num(ds[k]) && Highest(ds, k)))
    decreases |ds|
  {
    if ds != [] {
      var n := Num(ds[0]);
      var q, top' := Arrive(p, n), if top < n then n else top;
      PendingNext(p, ds, top);
      LateRun(q, ds[1..], top');
      PositionsNext(p, ds);
      forall k | 1 <= k < |ds|
        ensures Positions(p, ds)[k] == Some(Num(ds[k])) <==>
                Num(ds[k]) < p.count || (top <= Num(ds[k]) && Highest(ds, k))
      {
        assert ds[k] == ds[1..][k - 1];
        HighestNext(ds, k);
      }
    }
  }

  /** No message before the k-th has a higher number. */
  ghost predicate Highest(ds: seq<Delivery>, k: nat)
    requires k < |ds|
  {
    forall j :: 0 <= j < k ==> Num(ds[j]) < Num(ds[k])
  }

  lemma HighestNext(ds: seq<Delivery>, k: nat)
    requires 1 <= k < |ds|
    ensures Highest(ds, k) <==> Num(ds[0]) < Num(ds[k]) && Highest(ds[1..], k - 1)
  {
    assert forall j :: 1 <= j < k ==> ds[j] == ds[1..][j - 1];
  }

  lemma GapOpened(p: Position, n: Counter)
    requires p.ahead == 0 && p.stored == map[] && p.count < n <= p.count + MAX_SKIP
    ensures var q := Arrive(p, n);
            && Used(p, n) == Some(n) && q.count == p.count + 1 && q.ahead > 0
            && forall i: Counter :: p.count <= i < n ==> i in q.stored && q.stored[i] == i
  {
  }

  /** The numbers of one gap: the first message opens it, and the others are distinct messages that it skipped. */
  ghost predicate OneGap(p: Position, ds: seq<Delivery>) {
    && p.ahead == 0 && p.stored == map[] && ds != []
    && p.count < Num(ds[0]) <= p.count + MAX_SKIP
    && Distinct(ds)
    && forall i :: 1 <= i < |ds| ==> p.count <= Num(ds[i]) < Num(ds[0])
  }

  lemma GapPending(p: Position, ds: seq<Delivery>)
    requires OneGap(p, ds)
    ensures var q := Arrive(p, Num(ds[0]));
            && Used(p, Num(ds[0])) == Some(Num(ds[0])) && q.ahead > 0 && q.count == p.count + 1
            && Distinct(ds[1..]) && Pending(q, ds[1..], 0)
  {
    GapOpened(p, Num(ds[0]));
    assert forall i :: 0 <= i < |ds| - 1 ==> ds[1..][i] == ds[i + 1];
  }

  lemma GapPositions(p: Position, ds: seq<Delivery>)
    requires OneGap(p, ds)
    ensures Positions(p, ds)[0] == Some(Num(ds[0]))
    ensures forall k :: 1 <= k < |ds| ==>
      (Positions(p, ds)[k] == Some(Num(ds[k])) <==> Num(ds[k]) == p.count || Highest(ds[1..], k - 1))
  {
    GapPending(p, ds);
    LateRun(Arrive(p, Num(ds[0])), ds[1..], 0);
    PositionsNext(p, ds);
  }

  /**
   One gap of at most MAX_SKIP on a chain without earlier gaps: the message that opens the gap decrypts, and a
   skipped message is opened with the key its sender used exactly when it is the first one skipped or no skipped
   message with a higher number came before it. In ascending order, therefore, they all decrypt.
   */
  lemma OneGapRecovers(c: Suite, s: State, l: Ledger, p: Position, ds: seq<Delivery>)
    requires At(c, s, l, p) && AllOnChain(ds, s.dhRemote) && OneGap(p, ds)
    ensures forall k :: 0 <= k < |ds| ==>
      && Results(c, s, ds)[k] == OpenedAt(c, l.start, ds[k].body, Positions(p, ds)[k])
      && (Positions(p, ds)[k] == Some(Num(ds[k])) <==> k == 0 || Num(ds[k]) == p.count || Highest(ds[1..], k - 1))
  {
    GapPositions(p, ds);
    RunAt(c, s, l, p, ds);
  }

  // ---- The shortest order that fails ----

  const NONCE: Nonce := Zeros(12)

  /** A suite whose n-th message key shows its number in its first byte, and whose ciphertexts show their key. */
  function Transparent(): Suite {
    Suite(x => x, (x, y) => ZERO_KEY, (x, y) => (ZERO_KEY, ZERO_KEY), x => ([x[0] + 1] + x[1..], x), x => ZERO_KEY,
          (m, k, n) => k + m, (b, k) => if |b| >= 32 && b[..32] == k then Some(b[32..]) else None)
  }

  lemma TransparentIsLawful()
    ensures Transparent().Lawful()
  {
    var c := Transparent();
    forall m, k: Key, n: Nonce
      ensures c.Open(c.Seal(m, k, n), k) == Some(m)
    {
      assert (k + m)[..32] == k && (k + m)[32..] == m;
    }
  }

  /** The message `a` sends after `n` others, and the key it is sealed with. */
  function Sender(c: Suite, a: State, n: nat): State {
    if n == 0 then a else Encrypt(c, Sender(c, a, n - 1), [], None).state
  }

  function Sent(c: Suite, a: State, n: nat, plain: bytes): Delivery {
    var sealed := Encrypt(c, Sender(c, a, n), plain, Some(NONCE)).result.value;
    Delivery(sealed.header, sealed.body)
  }

  lemma {:induction false} SenderAt(c: Suite, a: State, n: nat)
    requires a.sendNum == 0 && n < U32
    ensures var s := Sender(c, a, n); s == a.(sendChain := ChainAt(c, a.sendChain, n), sendNum := n)
  {
    if n > 0 {
      SenderAt(c, a, n - 1);
      ChainSuccessor(c, a.sendChain, n - 1);
    }
  }

  /** Message `n` carries its number and is sealed with the n-th key of the sending chain. */
  lemma SentAt(c: Suite, a: State, n: Counter, plain: bytes)
    requires a.sendNum == 0
    ensures var d := Sent(c, a, n, plain);
            OnChain(d, a.dhPublic) && Num(d) == n && d.body == c.Seal(plain, MessageKeyAt(c, a.sendChain, n), NONCE)
  {
    SenderAt(c, a, n);
    var h := Header(a.dhPublic, a.previousLen, n);
    HeaderRoundTrip(h, []);
    assert EncodeHeader(h) + [] == EncodeHeader(h);
  }

  /** A session that sends on the chain `b` receives on, both at its beginning. */
  ghost predicate Paired(a: State, b: State) {
    a.sendChain == b.recvChain && a.dhPublic == b.dhRemote && a.sendNum == b.recvNum == 0 && b.skipped == map[]
  }

  lemma KeysDiffer(ck: Key, n: nat)
    ensures MessageKeyAt(Transparent(), ck, n) != MessageKeyAt(Transparent(), ck, n + 1)
  {
    var c := Transparent();
    ChainSuccessor(c, ck, n);
    assert c.KdfChain(ChainAt(c, ck, n)).0[0] != ChainAt(c, ck, n)[0];
  }

  lemma OpensOnlyOwn(plain: bytes, k: Key, k': Key)
    ensures var c := Transparent(); Open(c, c.Seal(plain, k, NONCE), k') == if k == k' then Ok(plain) else Err(Decryption)
  {
    assert (k + plain)[..32] == k && (k + plain)[32..] == plain;
  }

  lemma OneThenTwo(p: Position, ds: seq<Delivery>)
    requires p.count == 0 && p.ahead == 0 && p.stored == map[] && |ds| == 2 && Num(ds[0]) == 1 && Num(ds[1]) == 2
    ensures Positions(p, ds)[0] == Some(1) && Positions(p, ds)[1] == Some(3)
  {
    var q := Arrive(p, Num(ds[0]));
    assert q.count == 1 && q.ahead == 1;
    PositionsNext(p, ds);
    PositionsNext(q, ds[1..]);
  }

  /** When only messages 1 and 2 arrive, in order, they are opened with the keys of numbers 1 and 3. */
  lemma OpenedWithThird(c: Suite, a: State, b: State, plain: bytes)
    requires Paired(a, b)
    ensures var r := Results(c, b, [Sent(c, a, 1, plain), Sent(c, a, 2, plain)]);
            var ck := a.sendChain;
            && r[0] == Open(c, c.Seal(plain, MessageKeyAt(c, ck, 1), NONCE), MessageKeyAt(c, ck, 1))
            && r[1] == Open(c, c.Seal(plain, MessageKeyAt(c, ck, 2), NONCE), MessageKeyAt(c, ck, 3))
  {
    SentAt(c, a, 1, plain);
    SentAt(c, a, 2, plain);
    OpenedInOrder(c, b, [Sent(c, a, 1, plain), Sent(c, a, 2, plain)]);
  }

  lemma OpenedInOrder(c: Suite, b: State, ds: seq<Delivery>)
    requires b.recvNum == 0 && b.skipped == map[] && AllOnChain(ds, b.dhRemote)
    requires |ds| == 2 && Num(ds[0]) == 1 && Num(ds[1]) == 2
    ensures Results(c, b, ds)[0] == Open(c, ds[0].body, MessageKeyAt(c, b.recvChain, 1))
    ensures Results(c, b, ds)[1] == Open(c, ds[1].body, MessageKeyAt(c, b.recvChain, 3))
  {
    var l, p := Ledger(b.recvChain, 0, 0, map[]), Position(0, 0, map[]);
    assert At(c, b, l, p);
    OneThenTwo(p, ds);
    RunAt(c, b, l, p, ds);
  }

  /** Of messages 0, 1 and 2 the last two arrive, in order: 1 decrypts, and 2, opened with key number 3, does not. */
  lemma SecondAfterGapFails(a: State, b: State, plain: bytes)
    requires Paired(a, b)
    ensures var c := Transparent();
            var r := Results(c, b, [Sent(c, a, 1, plain), Sent(c, a, 2, plain)]);
            c.Lawful() && r[0] == Ok(plain) && r[1] == Err(Decryption)
  {
    var c, ck := Transparent(), a.sendChain;
    TransparentIsLawful();
    OpenedWithThird(c, a, b, plain);
    KeysDiffer(ck, 2);
    OpensOnlyOwn(plain, MessageKeyAt(c, ck, 1), MessageKeyAt(c, ck, 1));
    OpensOnlyOwn(plain, MessageKeyAt(c, ck, 2), MessageKeyAt(c, ck, 3));
  }
}
