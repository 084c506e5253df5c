/**
 Two ratchet sessions joined by two FIFO channels, one per direction. A message of a sending chain may be lost
 only when the rest of that chain is lost too; a message that will never arrive does not enter its channel.
 */
module RatchetSystem {
  import opened Bytes
  import opened Ratchet

  /** A message under way, with the plaintext it was made from. */
  datatype Flight = Flight(header: bytes, body: bytes, plain: bytes)

  /** For each lost message the key its sender used for it, and the chains whose counter wrapped on a lost message. */
  datatype Losses = Losses(keys: map<KeyId, Key>, wrapped: set<Key>) {
    function Add(chain: Key, num: Counter, key: Key): Losses {
      Losses(keys[KeyId(chain, num) := key], if num + 1 == U32 then wrapped + {chain} else wrapped)
    }
  }

  const NO_LOSS := Losses(map[], {})

  /** One direction: what is under way, and what was lost. */
  datatype Link = Link(inflight: seq<Flight>, lost: Losses)

  /** Party `a`, party `b`, the links between them and every DH public key published so far. */
  datatype System = System(a: State, b: State, ab: Link, ba: Link, used: set<Key>) {
    function Swap(): System {
      System(b, a, ba, ab, used)
    }
  }

  /** `Send` with `arrives` false is a lost message, or one whose encryption failed. */
  datatype Action =
    | Send(plain: bytes, nonce: Option<Nonce>, arrives: bool)
    | Receive(gen: Key)

  datatype Event = Event(byA: bool, action: Action)

  /** What the network and the key generator may do, seen from party `a`. */
  ghost predicate EnabledForA(c: Suite, s: System, act: Action) {
    match act
    case Send(_, nonce, true) => nonce.Some? && forall id :: id in s.ab.lost.keys ==> id.dhPublic != s.a.dhPublic
    case Send(_, _, false) =>
      // the chain loses at most MAX_SKIP messages
      forall id :: id in s.ab.lost.keys && id.dhPublic == s.a.dhPublic ==> Gap(id.num, s.a.sendNum) < MAX_SKIP
    case Receive(gen) => s.ba.inflight != [] && c.Pub(gen) !in s.used
  }

  function NextForA(c: Suite, s: System, act: Action): System {
    match act
    case Send(plain, nonce, arrives) =>
      var step := Encrypt(c, s.a, plain, nonce);
      var link :=
        if arrives && step.result.Ok? then
          s.ab.(inflight := s.ab.inflight + [Flight(step.result.value.header, step.result.value.body, plain)])
        else
          s.ab.(lost := s.ab.lost.Add(s.a.dhPublic, s.a.sendNum, c.KdfChain(s.a.sendChain).1));
      s.(a := step.state, ab := link)
    case Receive(gen) =>
      if s.ba.inflight == [] then s
      else
        var a := Receipt(c, s, gen).state;
        s.(a := a, ba := s.ba.(inflight := s.ba.inflight[1..]), used := s.used + {a.dhPublic})
  }

  /** The RatchetDecrypt call by which `a` takes the next message. */
  function Receipt(c: Suite, s: System, gen: Key): Step<bytes>
    requires s.ba.inflight != []
  {
    Decrypt(c, s.a, s.ba.inflight[0].header, s.ba.inflight[0].body, Some(gen))
  }

  ghost predicate Enabled(c: Suite, s: System, e: Event) {
    EnabledForA(c, if e.byA then s else s.Swap(), e.action)
  }

  function Next(c: Suite, s: System, e: Event): System {
    if e.byA then NextForA(c, s, e.action) else NextForA(c, s.Swap(), e.action).Swap()
  }

  ghost predicate Enables(c: Suite, s: System, run: seq<Event>)
    decreases |run|
  {
    run == [] || (Enabled(c, s, run[0]) && Enables(c, Next(c, s, run[0]), run[1..]))
  }

  function Exec(c: Suite, s: System, run: seq<Event>): System
    decreases |run|
  {
    if run == [] then s else Exec(c, Next(c, s, run[0]), run[1..])
  }

  /** Every receive of the run returned the plaintext of the message it took. */
  ghost predicate AllDecrypt(c: Suite, s: System, run: seq<Event>)
    decreases |run|
  {
    run == [] ||
    (var v := if run[0].byA then s else s.Swap();
     && (run[0].action.Receive? && v.ba.inflight != [] ==>
           Receipt(c, v, run[0].action.gen).result == Ok(v.ba.inflight[0].plain))
     && AllDecrypt(c, Next(c, s, run[0]), run[1..]))
  }

  // ---- The invariant ----

  /** A counter after `d` increments. */
  function Plus(n: Counter, d: nat): Counter
    decreases d
  {
    if d == 0 then n else Plus(Increment(n), d - 1)
  }

  lemma {:induction false} PlusSuccessor(n: Counter, d: nat)
    ensures Plus(n, d + 1) == Increment(Plus(n, d))
    decreases d
  {
    if d > 0 {
      PlusSuccessor(Increment(n), d - 1);
    }
  }

  /** The message opens with the chain key's first message key and carries this DH key and number. */
  ghost predicate Opens(c: Suite, m: Flight, ck: Key, key: Key, num: Counter) {
    && DecodeHeader(m.header).Some?
    && DecodeHeader(m.header).value.dhPublic == key
    && DecodeHeader(m.header).value.num == num
    && c.Open(m.body, c.KdfChain(ck).1) == Some(m.plain)
  }

  /** The messages open, in order, with the keys of the chain at `ck`, and are numbered from `from`. */
  ghost predicate Synced(c: Suite, msgs: seq<Flight>, ck: Key, key: Key, from: Counter)
    decreases |msgs|
  {
    msgs == [] || (Opens(c, msgs[0], ck, key, from) && Synced(c, msgs[1..], c.KdfChain(ck).0, key, Increment(from)))
  }

  /** A number of at most one turn too many, wrapped around. */
  function Wrap(n: nat): Counter {
    if n < U32 then n else if n < 2 * U32 then n - U32 else 0
  }

  /**
   The `t` lost messages of the chain of `key` start at number `first`. Unless the counter has wrapped on one of them,
   they are all that is lost of the chain, and their keys are those of the chain at `ck`.
   */
  ghost predicate Tail(c: Suite, lost: Losses, ck: Key, key: Key, first: Counter, t: nat) {
    && t <= MAX_SKIP
    && (t > 0 ==> KeyId(key, first) in lost.keys)
    && (key in lost.wrapped <==> first + t >= U32)
    && (key !in lost.wrapped ==> AllOfTail(c, lost.keys, ck, key, first, t))
  }

  ghost predicate AllOfTail(c: Suite, lost: map<KeyId, Key>, ck: Key, key: Key, first: nat, t: nat) {
    && (forall n: Counter :: first <= n < first + t ==> KeyId(key, n) in lost)
    && (forall id :: id in lost && id.dhPublic == key ==>
          first <= id.num < first + t && lost[id] == MessageKeyAt(c, ck, id.num - first))
  }

  /** A sending chain under way, from the receiver's position (`ck`, `from`) to the sender's (`end`, `to`). */
  ghost predicate Chain(c: Suite, msgs: seq<Flight>, lost: Losses, ck: Key, key: Key, from: Counter,
                        end: Key, to: Counter, t: nat) {
    && Synced(c, msgs, ck, key, from)
    && to == Wrap(Plus(from, |msgs|) + t)
    && end == ChainAt(c, ChainAt(c, ck, |msgs|), t)
    && Tail(c, lost, ChainAt(c, ck, |msgs|), key, Plus(from, |msgs|), t)
  }

  /**
   The keys a receiver should hold: those of lost messages in chains it has moved past. Of a chain whose counter wrapped
   on a lost message it holds none, because the loop of SkipMessageKeys is then empty.
   */
  ghost function Expected(lost: Losses, current: Key, newest: Key): map<KeyId, Key> {
    map id | id in lost.keys && id.dhPublic !in lost.wrapped && id.dhPublic != current && id.dhPublic != newest ::
      lost.keys[id]
  }

  /** What holds of every reachable state, whoever leads. */
  ghost predicate Common(c: Suite, s: System) {
    && s.a.dhPublic == c.Pub(s.a.dhPrivate)
    && s.b.dhPublic == c.Pub(s.b.dhPrivate)
    && {s.a.dhPublic, s.b.dhPublic, s.a.dhRemote, s.b.dhRemote} <= s.used
    && (forall id :: id in s.ab.lost.keys ==> id.dhPublic in s.used) && s.ab.lost.wrapped <= s.used
    && (forall id :: id in s.ba.lost.keys ==> id.dhPublic in s.used) && s.ba.lost.wrapped <= s.used
    && s.b.skipped == Expected(s.ab.lost, s.b.dhRemote, s.a.dhPublic)
    && s.a.skipped == Expected(s.ba.lost, s.a.dhRemote, s.b.dhPublic)
  }

  /** `a` sends on one chain, and `b` already receives on it. */
  ghost predicate OneChain(c: Suite, a: State, b: State, ab: Link, t: nat) {
    && b.dhRemote == a.dhPublic
    && Chain(c, ab.inflight, ab.lost, b.recvChain, a.dhPublic, b.recvNum, a.sendChain, a.sendNum, t)
  }

  /**
   `a` has published a key that `b` has not seen: of what is under way from `a`, the messages `older` belong to the
   chain `b` receives on, and `newer` to the chain `b` will derive when it sees the new key.
   */
  ghost predicate TwoChains(c: Suite, a: State, b: State, ab: Link, older: seq<Flight>, newer: seq<Flight>,
                            end: Key, tp: nat, t: nat) {
    var (root, ck) := c.KdfRoot(b.root, c.Dh(b.dhPrivate, a.dhPublic));
    && a.dhPublic != b.dhRemote
    && a.root == root
    && ab.inflight == older + newer
    && Chain(c, older, ab.lost, b.recvChain, b.dhRemote, b.recvNum, end, a.previousLen, tp)
    && Chain(c, newer, ab.lost, ck, a.dhPublic, 0, a.sendChain, a.sendNum, t)
    && Announce(newer, a.previousLen)
  }

  /** Every message of a chain announces the length of the sender's previous chain. */
  ghost predicate Announce(msgs: seq<Flight>, len: Counter) {
    forall j :: 0 <= j < |msgs| ==>
      DecodeHeader(msgs[j].header).Some? && DecodeHeader(msgs[j].header).value.previousLen == len
  }

  ghost predicate Leads(c: Suite, s: System, older: seq<Flight>, newer: seq<Flight>, end: Key, tp: nat, t: nat, tb: nat) {
    Common(c, s) && TwoChains(c, s.a, s.b, s.ab, older, newer, end, tp, t) && OneChain(c, s.b, s.a, s.ba, tb)
  }

  ghost predicate Settled(c: Suite, s: System, t: nat, tb: nat) {
    Common(c, s) && OneChain(c, s.a, s.b, s.ab, t) && OneChain(c, s.b, s.a, s.ba, tb)
  }

  ghost predicate InSync(c: Suite, s: System) {
    || (exists older, newer, end, tp, t, tb :: Leads(c, s, older, newer, end, tp, t, tb))
    || (exists older, newer, end, tp, t, tb :: Leads(c, s.Swap(), older, newer, end, tp, t, tb))
    || (exists t, tb :: Settled(c, s, t, tb))
  }

  // ---- Chain steps ----

  lemma {:induction false} SyncedAppend(c: Suite, msgs: seq<Flight>, ck: Key, key: Key, from: Counter, f: Flight)
    requires Synced(c, msgs, ck, key, from)
    requires Opens(c, f, ChainAt(c, ck, |msgs|), key, Plus(from, |msgs|))
    ensures Synced(c, msgs + [f], ck, key, from)
    decreases |msgs|
  {
    if msgs == [] {
      assert (msgs + [f])[1..] == [];
    } else {
      SyncedAppend(c, msgs[1..], c.KdfChain(ck).0, key, Increment(from), f);
      assert (msgs + [f])[1..] == msgs[1..] + [f];
    }
  }

  lemma ChainKeep(c: Suite, msgs: seq<Flight>, lost: Losses, ck: Key, key: Key, from: Counter, end: Key, to: Counter,
                  t: nat, f: Flight)
    requires Chain(c, msgs, lost, ck, key, from, end, to, t)
    requires forall id :: id in lost.keys ==> id.dhPublic != key
    requires Opens(c, f, end, key, to)
    ensures Chain(c, msgs + [f], lost, ck, key, from, c.KdfChain(end).0, Increment(to), 0)
  {
    assert t == 0;
    SyncedAppend(c, msgs, ck, key, from, f);
    PlusSuccessor(from, |msgs|);
    ChainSuccessor(c, ck, |msgs|);
  }

  lemma ChainLose(c: Suite, msgs: seq<Flight>, lost: Losses, ck: Key, key: Key, from: Counter, end: Key, to: Counter, t: nat)
    requires Chain(c, msgs, lost, ck, key, from, end, to, t)
    requires forall id :: id in lost.keys && id.dhPublic == key ==> Gap(id.num, to) < MAX_SKIP
    ensures Chain(c, msgs, lost.Add(key, to, c.KdfChain(end).1), ck, key, from, c.KdfChain(end).0, Increment(to), t + 1)
  {
    TailGrows(c, lost, ChainAt(c, ck, |msgs|), key, Plus(from, |msgs|), t);
    ChainSuccessor(c, ChainAt(c, ck, |msgs|), t);
  }

  lemma TailGrows(c: Suite, lost: Losses, ck: Key, key: Key, first: Counter, t: nat)
    requires Tail(c, lost, ck, key, first, t)
    requires forall id :: id in lost.keys && id.dhPublic == key ==> Gap(id.num, Wrap(first + t)) < MAX_SKIP
    ensures Increment(Wrap(first + t)) == Wrap(first + (t + 1))
    ensures Tail(c, lost.Add(key, Wrap(first + t), MessageKeyAt(c, ck, t)), ck, key, first, t + 1)
  {
    assert t > 0 ==> Gap(KeyId(key, first).num, Wrap(first + t)) == t;
  }

  lemma ChainKeepsOther(c: Suite, msgs: seq<Flight>, lost: Losses, ck: Key, key: Key, from: Counter, end: Key,
                        to: Counter, t: nat, other: Key, num: Counter, k: Key)
    requires Chain(c, msgs, lost, ck, key, from, end, to, t) && other != key
    ensures Chain(c, msgs, lost.Add(other, num, k), ck, key, from, end, to, t)
  {
  }

  lemma ChainTake(c: Suite, msgs: seq<Flight>, lost: Losses, ck: Key, key: Key, from: Counter, end: Key, to: Counter,
                  t: nat)
    requires msgs != [] && Chain(c, msgs, lost, ck, key, from, end, to, t)
    ensures Opens(c, msgs[0], ck, key, from)
    ensures Chain(c, msgs[1..], lost, c.KdfChain(ck).0, key, Increment(from), end, to, t)
  {
  }

  // ---- One action of party a ----

  lemma SendIsSealed(c: Suite, a: State, plain: bytes, nonce: Nonce)
    requires c.Lawful()
    ensures var r := Encrypt(c, a, plain, Some(nonce)).result;
            && r.Ok?
            && Opens(c, Flight(r.value.header, r.value.body, plain), a.sendChain, a.dhPublic, a.sendNum)
            && DecodeHeader(r.value.header).value.previousLen == a.previousLen
  {
    var h := Header(a.dhPublic, a.previousLen, a.sendNum);
    HeaderRoundTrip(h, []);
    assert EncodeHeader(h) + [] == EncodeHeader(h);
  }

  lemma SendOneChain(c: Suite, s: System, act: Action, t: nat) returns (t': nat)
    requires c.Lawful() && act.Send? && EnabledForA(c, s, act)
    requires OneChain(c, s.a, s.b, s.ab, t)
    ensures var s' := NextForA(c, s, act); OneChain(c, s'.a, s'.b, s'.ab, t')
  {
    if act.arrives {
      KeepOneChain(c, s, act.plain, act.nonce.value, t);
      t' := 0;
    } else {
      LoseOneChain(c, s, act, t);
      t' := t + 1;
    }
  }

  lemma KeepOneChain(c: Suite, s: System, plain: bytes, nonce: Nonce, t: nat)
    requires c.Lawful() && EnabledForA(c, s, Send(plain, Some(nonce), true)) && OneChain(c, s.a, s.b, s.ab, t)
    ensures var s' := NextForA(c, s, Send(plain, Some(nonce), true)); OneChain(c, s'.a, s'.b, s'.ab, 0)
  {
    SendIsSealed(c, s.a, plain, nonce);
    var r := Encrypt(c, s.a, plain, Some(nonce)).result.value;
    ChainKeep(c, s.ab.inflight, s.ab.lost, s.b.recvChain, s.a.dhPublic, s.b.recvNum, s.a.sendChain, s.a.sendNum, t,
              Flight(r.header, r.body, plain));
  }

  lemma LoseOneChain(c: Suite, s: System, act: Action, t: nat)
    requires act.Send? && !act.arrives && EnabledForA(c, s, act) && OneChain(c, s.a, s.b, s.ab, t)
    ensures var s' := NextForA(c, s, act); OneChain(c, s'.a, s'.b, s'.ab, t + 1)
  {
    ChainLose(c, s.ab.inflight, s.ab.lost, s.b.recvChain, s.a.dhPublic, s.b.recvNum, s.a.sendChain, s.a.sendNum, t);
  }

  lemma KeepTwoChains(c: Suite, s: System, plain: bytes, nonce: Nonce,
                      older: seq<Flight>, newer: seq<Flight>, end: Key, tp: nat, t: nat)
    returns (f: Flight)
    requires c.Lawful() && EnabledForA(c, s, Send(plain, Some(nonce), true))
    requires TwoChains(c, s.a, s.b, s.ab, older, newer, end, tp, t)
    ensures var s' := NextForA(c, s, Send(plain, Some(nonce), true));
            TwoChains(c, s'.a, s'.b, s'.ab, older, newer + [f], end, tp, 0)
  {
    var ck := c.KdfRoot(s.b.root, c.Dh(s.b.dhPrivate, s.a.dhPublic)).1;
    SendIsSealed(c, s.a, plain, nonce);
    var r := Encrypt(c, s.a, plain, Some(nonce)).result.value;
    f := Flight(r.header, r.body, plain);
    ChainKeep(c, newer, s.ab.lost, ck, s.a.dhPublic, 0, s.a.sendChain, s.a.sendNum, t, f);
    assert older + newer + [f] == older + (newer + [f]);
    assert Announce(newer + [f], s.a.previousLen);
  }

  lemma LoseTwoChains(c: Suite, s: System, act: Action, older: seq<Flight>, newer: seq<Flight>, end: Key, tp: nat, t: nat)
    requires act.Send? && !act.arrives && EnabledForA(c, s, act)
    requires TwoChains(c, s.a, s.b, s.ab, older, newer, end, tp, t)
    ensures var s' := NextForA(c, s, act); TwoChains(c, s'.a, s'.b, s'.ab, older, newer, end, tp, t + 1)
  {
    var ck := c.KdfRoot(s.b.root, c.Dh(s.b.dhPrivate, s.a.dhPublic)).1;
    ChainLose(c, newer, s.ab.lost, ck, s.a.dhPublic, 0, s.a.sendChain, s.a.sendNum, t);
    ChainKeepsOther(c, older, s.ab.lost, s.b.recvChain, s.b.dhRemote, s.b.recvNum, end, s.a.previousLen, tp,
                    s.a.dhPublic, s.a.sendNum, c.KdfChain(s.a.sendChain).1);
  }

  lemma SendKeepsCommon(c: Suite, s: System, act: Action)
    requires act.Send? && EnabledForA(c, s, act) && Common(c, s)
    ensures Common(c, NextForA(c, s, act))
  {
  }

  /** A message of the chain in hand that opens is decrypted, and moves only the receiving chain. */
  lemma TakeInChain(c: Suite, s: State, m: Flight, gen: Key)
    requires Opens(c, m, s.recvChain, s.dhRemote, s.recvNum)
    requires KeyId(s.dhRemote, s.recvNum) !in s.skipped
    ensures Decrypt(c, s, m.header, m.body, Some(gen))
            == Step(s.(recvChain := c.KdfChain(s.recvChain).0, recvNum := Increment(s.recvNum)), Ok(m.plain))
  {
  }

  /** `a` receives on the chain it already follows. */
  lemma ReceiveOneChain(c: Suite, s: System, gen: Key, tb: nat)
    requires EnabledForA(c, s, Receive(gen)) && Common(c, s) && OneChain(c, s.b, s.a, s.ba, tb)
    ensures Receipt(c, s, gen).result == Ok(s.ba.inflight[0].plain)
    ensures var s' := NextForA(c, s, Receive(gen));
            && s' == s.(a := s'.a, ba := s.ba.(inflight := s.ba.inflight[1..]))
            && s'.a == s.a.(recvChain := s'.a.recvChain, recvNum := s'.a.recvNum)
            && Common(c, s') && OneChain(c, s'.b, s'.a, s'.ba, tb)
  {
    ChainTake(c, s.ba.inflight, s.ba.lost, s.a.recvChain, s.b.dhPublic, s.a.recvNum, s.b.sendChain, s.b.sendNum, tb);
    TakeInChain(c, s.a, s.ba.inflight[0], gen);
    assert s.used + {s.a.dhPublic} == s.used;
  }

  /** `a` receives a message of the chain that `b` has already left. */
  lemma ReceiveOlder(c: Suite, s: System, gen: Key, older: seq<Flight>, newer: seq<Flight>, end: Key, tp: nat, t: nat)
    requires EnabledForA(c, s, Receive(gen)) && Common(c, s) && older != []
    requires TwoChains(c, s.b, s.a, s.ba, older, newer, end, tp, t)
    ensures Receipt(c, s, gen).result == Ok(s.ba.inflight[0].plain)
    ensures var s' := NextForA(c, s, Receive(gen));
            && s' == s.(a := s'.a, ba := s.ba.(inflight := s.ba.inflight[1..]))
            && s'.a == s.a.(recvChain := s'.a.recvChain, recvNum := s'.a.recvNum)
            && Common(c, s') && TwoChains(c, s'.b, s'.a, s'.ba, older[1..], newer, end, tp, t)
  {
    TailOfConcat(older, newer);
    ChainTake(c, older, s.ba.lost, s.a.recvChain, s.a.dhRemote, s.a.recvNum, end, s.b.previousLen, tp);
    TakeInChain(c, s.a, s.ba.inflight[0], gen);
    assert s.used + {s.a.dhPublic} == s.used;
  }

  lemma LeaveChainAt(c: Suite, a: State, lost: Losses, to: Counter, tp: nat, newest: Key, id: KeyId)
    requires to == a.recvNum + tp && AllOfTail(c, lost.keys, a.recvChain, a.dhRemote, a.recvNum, tp)
    requires a.dhRemote !in lost.wrapped
    requires a.skipped == Expected(lost, a.dhRemote, newest) && newest != a.dhRemote
    ensures var m, e := StoreKeys(c, a.skipped, a.recvChain, a.dhRemote, a.recvNum, to), Expected(lost, newest, newest);
            (id in m <==> id in e) && (id in m ==> m[id] == e[id])
  {
    StoredKeys(c, a.skipped, a.recvChain, a.dhRemote, a.recvNum, to, id);
  }

  /** Leaving a chain stores exactly the keys its sender used for the lost tail, or none if the counter wrapped on it. */
  lemma LeaveChain(c: Suite, a: State, lost: Losses, end: Key, to: Counter, tp: nat, newest: Key)
    requires Chain(c, [], lost, a.recvChain, a.dhRemote, a.recvNum, end, to, tp)
    requires a.skipped == Expected(lost, a.dhRemote, newest) && newest != a.dhRemote
    ensures Gap(a.recvNum, to) <= MAX_SKIP
    ensures StoreKeys(c, a.skipped, a.recvChain, a.dhRemote, a.recvNum, to) == Expected(lost, newest, newest)
  {
    assert to == Wrap(a.recvNum + tp) && Tail(c, lost, a.recvChain, a.dhRemote, a.recvNum, tp);
    if a.dhRemote in lost.wrapped {
      assert to < a.recvNum;
      assert Expected(lost, a.dhRemote, newest) == Expected(lost, newest, newest);
    } else {
      LeaveUnwrapped(c, a, lost, to, tp, newest);
    }
  }

  lemma LeaveUnwrapped(c: Suite, a: State, lost: Losses, to: Counter, tp: nat, newest: Key)
    requires to == a.recvNum + tp && AllOfTail(c, lost.keys, a.recvChain, a.dhRemote, a.recvNum, tp)
    requires a.dhRemote !in lost.wrapped
    requires a.skipped == Expected(lost, a.dhRemote, newest) && newest != a.dhRemote
    ensures StoreKeys(c, a.skipped, a.recvChain, a.dhRemote, a.recvNum, to) == Expected(lost, newest, newest)
  {
    var m, e := StoreKeys(c, a.skipped, a.recvChain, a.dhRemote, a.recvNum, to), Expected(lost, newest, newest);
    forall id: KeyId
      ensures id in m <==> id in e
      ensures id in m ==> m[id] == e[id]
    {
      LeaveChainAt(c, a, lost, to, tp, newest, id);
    }
    assert m == e;
  }

  /** The state of `a` after it takes the first message of a new chain of `b`. */
  function Ratcheted(c: Suite, s: System, gen: Key): State {
    var (root, ck) := c.KdfRoot(s.a.root, c.Dh(s.a.dhPrivate, s.b.dhPublic));
    var (root2, send) := c.KdfRoot(root, c.Dh(gen, s.b.dhPublic));
    State(root2, send, 0, c.KdfChain(ck).0, 1, gen, c.Pub(gen), s.b.dhPublic, s.a.sendNum,
          StoreKeys(c, s.a.skipped, s.a.recvChain, s.a.dhRemote, s.a.recvNum, s.b.previousLen))
  }

  lemma TakeNewer(c: Suite, s: System, gen: Key)
    requires s.ba.inflight != [] && s.b.dhPublic != s.a.dhRemote
    requires var m := s.ba.inflight[0];
             && Opens(c, m, c.KdfRoot(s.a.root, c.Dh(s.a.dhPrivate, s.b.dhPublic)).1, s.b.dhPublic, 0)
             && DecodeHeader(m.header).value.previousLen == s.b.previousLen
    requires Gap(s.a.recvNum, s.b.previousLen) <= MAX_SKIP
    requires KeyId(s.b.dhPublic, 0) !in Ratcheted(c, s, gen).skipped
    ensures Receipt(c, s, gen) == Step(Ratcheted(c, s, gen), Ok(s.ba.inflight[0].plain))
  {
    var m := s.ba.inflight[0];
    var h := DecodeHeader(m.header).value;
    var filled := Skip(c, s.a, s.a.dhRemote, s.a.recvNum, h.previousLen).value;
    var s1 := BeginRatchet(c, filled, h.dhPublic);
    TakeInChain(c, FinishRatchet(c, s1, gen), m, gen);
  }

  /** The first message of a new chain of `b` makes `a` ratchet, store the keys of the old chain's tail, and decrypt. */
  lemma ReceiptRatchets(c: Suite, s: System, gen: Key, newer: seq<Flight>, end: Key, tp: nat, t: nat)
    requires s.ba.inflight != [] && TwoChains(c, s.b, s.a, s.ba, [], newer, end, tp, t)
    requires s.a.skipped == Expected(s.ba.lost, s.a.dhRemote, s.b.dhPublic)
    ensures Receipt(c, s, gen) == Step(Ratcheted(c, s, gen), Ok(s.ba.inflight[0].plain))
    ensures Ratcheted(c, s, gen).skipped == Expected(s.ba.lost, s.b.dhPublic, s.b.dhPublic)
    ensures OneChain(c, s.b, Ratcheted(c, s, gen), s.ba.(inflight := s.ba.inflight[1..]), t)
  {
    var ck := c.KdfRoot(s.a.root, c.Dh(s.a.dhPrivate, s.b.dhPublic)).1;
    assert [] + newer == newer;
    LeaveChain(c, s.a, s.ba.lost, end, s.b.previousLen, tp, s.b.dhPublic);
    ChainTake(c, newer, s.ba.lost, ck, s.b.dhPublic, 0, s.b.sendChain, s.b.sendNum, t);
    TakeNewer(c, s, gen);
  }

  /** `a` takes the first message of a chain it has not seen: it ratchets, and from then on it leads. */
  lemma ReceiveNewer(c: Suite, s: System, gen: Key, newer: seq<Flight>, end: Key, tp: nat, t: nat, tb: nat)
    requires c.Lawful() && EnabledForA(c, s, Receive(gen))
    requires Leads(c, s.Swap(), [], newer, end, tp, t, tb)
    ensures Receipt(c, s, gen).result == Ok(s.ba.inflight[0].plain)
    ensures var s' := NextForA(c, s, Receive(gen));
            Leads(c, s', s.ab.inflight, [], s.a.sendChain, tb, 0, t)
  {
    ReceiptRatchets(c, s, gen, newer, end, tp, t);
    NewChain(c, s, gen, tb);
    RatchetKeepsCommon(c, s, gen);
  }

  lemma RatchetKeepsCommon(c: Suite, s: System, gen: Key)
    requires Common(c, s.Swap()) && EnabledForA(c, s, Receive(gen)) && s.b.dhRemote == s.a.dhPublic
    requires Receipt(c, s, gen).state == Ratcheted(c, s, gen)
    requires Ratcheted(c, s, gen).skipped == Expected(s.ba.lost, s.b.dhPublic, s.b.dhPublic)
    ensures Common(c, NextForA(c, s, Receive(gen)))
  {
    assert Expected(s.ab.lost, s.b.dhRemote, c.Pub(gen)) == Expected(s.ab.lost, s.b.dhRemote, s.a.dhPublic);
  }

  /** Having ratcheted, `a` has a new and empty sending chain, which `b` will derive when it sees the new key. */
  lemma NewChain(c: Suite, s: System, gen: Key, tb: nat)
    requires c.Lawful() && OneChain(c, s.a, s.b, s.ab, tb) && s.b.dhPublic == c.Pub(s.b.dhPrivate) && c.Pub(gen) != s.b.dhRemote
    requires s.b.root == c.KdfRoot(s.a.root, c.Dh(s.a.dhPrivate, s.b.dhPublic)).0
    requires c.Pub(gen) !in s.ab.lost.wrapped && forall id :: id in s.ab.lost.keys ==> id.dhPublic != c.Pub(gen)
    ensures TwoChains(c, Ratcheted(c, s, gen), s.b, s.ab, s.ab.inflight, [], s.a.sendChain, tb, 0)
  {
    assert s.ab.inflight + [] == s.ab.inflight;
    assert c.Dh(gen, s.b.dhPublic) == c.Dh(s.b.dhPrivate, c.Pub(gen));
  }

  lemma LeaderActs(c: Suite, s: System, act: Action, older: seq<Flight>, newer: seq<Flight>, end: Key, tp: nat, t: nat, tb: nat)
    requires c.Lawful() && EnabledForA(c, s, act) && Leads(c, s, older, newer, end, tp, t, tb)
    ensures act.Receive? ==> Receipt(c, s, act.gen).result == Ok(s.ba.inflight[0].plain)
    ensures exists newer', t' :: Leads(c, NextForA(c, s, act), older, newer', end, tp, t', tb)
  {
    var s' := NextForA(c, s, act);
    match act
    case Send(plain, nonce, arrives) =>
      SendKeepsCommon(c, s, act);
      if arrives {
        var f := KeepTwoChains(c, s, plain, nonce.value, older, newer, end, tp, t);
        assert Leads(c, s', older, newer + [f], end, tp, 0, tb);
      } else {
        LoseTwoChains(c, s, act, older, newer, end, tp, t);
        assert Leads(c, s', older, newer, end, tp, t + 1, tb);
      }
    case Receive(gen) =>
      ReceiveOneChain(c, s, gen, tb);
      assert Leads(c, s', older, newer, end, tp, t, tb);
  }

  lemma FollowerActs(c: Suite, s: System, act: Action, older: seq<Flight>, newer: seq<Flight>, end: Key, tp: nat, t: nat, tb: nat)
    requires c.Lawful() && EnabledForA(c, s, act) && Leads(c, s.Swap(), older, newer, end, tp, t, tb)
    ensures act.Receive? ==> Receipt(c, s, act.gen).result == Ok(s.ba.inflight[0].plain)
    ensures InSync(c, NextForA(c, s, act))
  {
    var s' := NextForA(c, s, act);
    match act
    case Send(_, _, _) =>
      SendKeepsCommon(c, s, act);
      var t' := SendOneChain(c, s, act, tb);
      assert Leads(c, s'.Swap(), older, newer, end, tp, t, t');
    case Receive(gen) =>
      if older == [] {
        ReceiveNewer(c, s, gen, newer, end, tp, t, tb);
        assert Leads(c, s', s.ab.inflight, [], s.a.sendChain, tb, 0, t);
      } else {
        ReceiveOlder(c, s, gen, older, newer, end, tp, t);
        assert Leads(c, s'.Swap(), older[1..], newer, end, tp, t, tb);
      }
  }

  /** No key is ever new to its receiver again, so neither side ratchets. */
  lemma SettledActs(c: Suite, s: System, act: Action, t: nat, tb: nat)
    requires c.Lawful() && EnabledForA(c, s, act) && Settled(c, s, t, tb)
    ensures act.Receive? ==> Receipt(c, s, act.gen).result == Ok(s.ba.inflight[0].plain)
    ensures var s' := NextForA(c, s, act);
            (exists t', tb' :: Settled(c, s', t', tb')) && s'.a.root == s.a.root && s'.a.dhPublic == s.a.dhPublic
            && s'.b == s.b
  {
    var s' := NextForA(c, s, act);
    match act
    case Send(_, _, _) =>
      SendKeepsCommon(c, s, act);
      var t' := SendOneChain(c, s, act, t);
      assert Settled(c, s', t', tb);
    case Receive(gen) =>
      ReceiveOneChain(c, s, gen, tb);
      assert Settled(c, s', t, tb);
  }

  lemma StepInSync(c: Suite, s: System, act: Action)
    requires c.Lawful() && EnabledForA(c, s, act) && InSync(c, s)
    ensures act.Receive? ==> Receipt(c, s, act.gen).result == Ok(s.ba.inflight[0].plain)
    ensures InSync(c, NextForA(c, s, act))
  {
    if older, newer, end, tp, t, tb :| Leads(c, s, older, newer, end, tp, t, tb) {
      LeaderActs(c, s, act, older, newer, end, tp, t, tb);
    } else if older, newer, end, tp, t, tb :| Leads(c, s.Swap(), older, newer, end, tp, t, tb) {
      FollowerActs(c, s, act, older, newer, end, tp, t, tb);
    } else {
      var t, tb :| Settled(c, s, t, tb);
      SettledActs(c, s, act, t, tb);
    }
  }

  lemma InSyncSwap(c: Suite, s: System)
    requires InSync(c, s)
    ensures InSync(c, s.Swap())
  {
    assert s.Swap().Swap() == s;
    if t, tb :| Settled(c, s, t, tb) {
      assert Settled(c, s.Swap(), tb, t);
    }
  }

  /** One send, loss or receive by either party: the invariant stays, and a receive gives the plaintext. */
  lemma EventInSync(c: Suite, s: System, e: Event)
    requires c.Lawful() && InSync(c, s) && Enabled(c, s, e)
    ensures InSync(c, Next(c, s, e))
    ensures var v := if e.byA then s else s.Swap();
            e.action.Receive? ==> Receipt(c, v, e.action.gen).result == Ok(v.ba.inflight[0].plain)
  {
    if e.byA {
      StepInSync(c, s, e.action);
    } else {
      InSyncSwap(c, s);
      StepInSync(c, s.Swap(), e.action);
      InSyncSwap(c, NextForA(c, s.Swap(), e.action));
    }
  }

  // ---- Whole runs ----

  /** Tail loss: every message that arrives decrypts, whatever tails of earlier chains were lost, in any interleaving. */
  lemma {:induction false} RunDecrypts(c: Suite, s: System, run: seq<Event>)
    requires c.Lawful() && InSync(c, s) && Enables(c, s, run)
    ensures AllDecrypt(c, s, run) && InSync(c, Exec(c, s, run))
    decreases |run|
  {
    if run != [] {
      EventInSync(c, s, run[0]);
      RunDecrypts(c, Next(c, s, run[0]), run[1..]);
    }
  }

  /**
   After every run the keys a party holds are exactly those its peer used for the lost messages of chains the party has
   left, except chains whose counter wrapped on a lost message, of which it holds none.
   */
  lemma StoredAreLost(c: Suite, s: System, run: seq<Event>)
    requires c.Lawful() && InSync(c, s) && Enables(c, s, run)
    ensures var e := Exec(c, s, run);
            && e.b.skipped == Expected(e.ab.lost, e.b.dhRemote, e.a.dhPublic)
            && e.a.skipped == Expected(e.ba.lost, e.a.dhRemote, e.b.dhPublic)
  {
    RunDecrypts(c, s, run);
  }

  ghost predicate Lossless(run: seq<Event>) {
    forall i :: 0 <= i < |run| && run[i].action.Send? ==> run[i].action.arrives && run[i].action.nonce.Some?
  }

  lemma {:induction false} LosslessLosesNothing(c: Suite, s: System, run: seq<Event>)
    requires Lossless(run) && s.ab.lost == NO_LOSS && s.ba.lost == NO_LOSS
    ensures Exec(c, s, run).ab.lost == NO_LOSS && Exec(c, s, run).ba.lost == NO_LOSS
    decreases |run|
  {
    if run != [] {
      assert Lossless(run[1..]);
      LosslessLosesNothing(c, Next(c, s, run[0]), run[1..]);
    }
  }

  /** Lockstep: over lossless channels every message decrypts and no key is ever stored. */
  lemma Lockstep(c: Suite, s: System, run: seq<Event>)
    requires c.Lawful() && InSync(c, s) && Enables(c, s, run)
    requires Lossless(run) && s.ab.lost == NO_LOSS && s.ba.lost == NO_LOSS
    ensures AllDecrypt(c, s, run)
    ensures Exec(c, s, run).a.skipped == map[] && Exec(c, s, run).b.skipped == map[]
  {
    RunDecrypts(c, s, run);
    LosslessLosesNothing(c, s, run);
    StoredAreLost(c, s, run);
  }

  /** A session whose two sides already know each other's key keeps its root and its DH keys for ever. */
  lemma {:induction false} SettledNeverRatchets(c: Suite, s: System, run: seq<Event>)
    requires c.Lawful() && Enables(c, s, run) && exists t, tb :: Settled(c, s, t, tb)
    ensures var e := Exec(c, s, run);
            && e.a.root == s.a.root && e.a.dhPublic == s.a.dhPublic
            && e.b.root == s.b.root && e.b.dhPublic == s.b.dhPublic
    decreases |run|
  {
    if run != [] {
      var t, tb :| Settled(c, s, t, tb);
      var e := run[0];
      if e.byA {
        SettledActs(c, s, e.action, t, tb);
      } else {
        assert Settled(c, s.Swap(), tb, t);
        SettledActs(c, s.Swap(), e.action, tb, t);
        var s1 := NextForA(c, s.Swap(), e.action);
        var t1, tb1 :| Settled(c, s1, t1, tb1);
        assert Settled(c, s1.Swap(), tb1, t1);
      }
      SettledNeverRatchets(c, Next(c, s, e), run[1..]);
    }
  }

  /** NewRatchetState and NewRatchetStateReceiver on one secret, with nothing sent. */
  function FreshPair(c: Suite, secret: Key, aPriv: Key, bPriv: Key): System {
    System(NewInitiator(c, secret, c.Pub(bPriv), aPriv, c.Pub(aPriv)), NewReceiver(secret, bPriv, c.Pub(bPriv)),
           Link([], NO_LOSS), Link([], NO_LOSS), {ZERO_KEY, c.Pub(aPriv), c.Pub(bPriv)})
  }

  /** Such a pair is in sync, with the DH ratchet still to run. */
  lemma FreshPairInSync(c: Suite, secret: Key, aPriv: Key, bPriv: Key)
    requires c.Lawful() && c.Pub(aPriv) != ZERO_KEY
    ensures InSync(c, FreshPair(c, secret, aPriv, bPriv))
  {
    assert Leads(c, FreshPair(c, secret, aPriv, bPriv), [], [], ZERO_KEY, 0, 0, 0);
  }

  /**
   A pair of sessions made from one secret: whatever tails of chains are lost, every message that arrives decrypts and
   the keys held are exactly those of lost messages; if nothing is lost, none is ever held.
   */
  lemma FreshPairDecrypts(c: Suite, secret: Key, aPriv: Key, bPriv: Key, run: seq<Event>)
    requires c.Lawful() && c.Pub(aPriv) != ZERO_KEY
    requires Enables(c, FreshPair(c, secret, aPriv, bPriv), run)
    ensures var s := FreshPair(c, secret, aPriv, bPriv);
            var e := Exec(c, s, run);
            && AllDecrypt(c, s, run)
            && e.a.skipped == Expected(e.ba.lost, e.a.dhRemote, e.b.dhPublic)
            && e.b.skipped == Expected(e.ab.lost, e.b.dhRemote, e.a.dhPublic)
            && (Lossless(run) ==> e.a.skipped == map[] && e.b.skipped == map[])
  {
    var s := FreshPair(c, secret, aPriv, bPriv);
    FreshPairInSync(c, secret, aPriv, bPriv);
    RunDecrypts(c, s, run);
    StoredAreLost(c, s, run);
    if Lossless(run) {
      LosslessLosesNothing(c, s, run);
    }
  }

  lemma TwoEvents(c: Suite, s: System, e1: Event, e2: Event)
    requires Enabled(c, s, e1) && Enabled(c, Next(c, s, e1), e2)
    ensures Enables(c, s, [e1, e2]) && Exec(c, s, [e1, e2]) == Next(c, Next(c, s, e1), e2)
  {
    var run := [e1, e2];
    assert run[1..] == [e2] && [e2][1..] == [];
    var s1 := Next(c, s, e1);
    assert Enables(c, s1, [e2]);
    assert Exec(c, s1, [e2]) == Exec(c, Next(c, s1, e2), []);
  }

  /** In such a pair the DH ratchet does run: the first message from `a` gives `b` a new key pair. */
  lemma FirstMessageRatchets(c: Suite, secret: Key, aPriv: Key, bPriv: Key, plain: bytes, nonce: Nonce, gen: Key)
    requires c.Lawful() && c.Pub(aPriv) != ZERO_KEY && c.Pub(gen) !in FreshPair(c, secret, aPriv, bPriv).used
    ensures var s := FreshPair(c, secret, aPriv, bPriv);
            var run := [Event(true, Send(plain, Some(nonce), true)), Event(false, Receive(gen))];
            Enables(c, s, run) && Exec(c, s, run).b.dhPublic == c.Pub(gen) && Exec(c, s, run).b.dhRemote == c.Pub(aPriv)
  {
    var s := FreshPair(c, secret, aPriv, bPriv);
    var send := Send(plain, Some(nonce), true);
    assert Leads(c, s, [], [], ZERO_KEY, 0, 0, 0);
    var f := KeepTwoChains(c, s, plain, nonce, [], [], ZERO_KEY, 0, 0);
    var s1 := NextForA(c, s, send);
    SendKeepsCommon(c, s, send);
    assert [] + ([] + [f]) == [f];
    ReceiptRatchets(c, s1.Swap(), gen, [] + [f], ZERO_KEY, 0, 0);
    TwoEvents(c, s, Event(true, send), Event(false, Receive(gen)));
  }

  /** The laws can be met, by a suite that protects nothing. */
  lemma SomeSuiteIsLawful() returns (c: Suite)
    ensures c.Lawful()
  {
    c := Suite(x => x, (x, y) => ZERO_KEY, (x, y) => (ZERO_KEY, ZERO_KEY), x => (ZERO_KEY, ZERO_KEY), x => ZERO_KEY,
               (m, k, n) => m, (b, k) => Some(b));
  }
}
