/** The client's one-time prekey pool over its whole life: refills and responder runs in any order. */
module PreKeyPool {
  import opened Bytes
  import opened Ratchet
  import opened RatchetSystem
  import opened X3dh

  /** The first one-time key id InitializeX3DH uses. */
  const FIRST_ID: Counter := 100

  ghost predicate IsMaxId(pool: Pool, m: Counter) {
    (forall id :: id in pool ==> id <= m) && (m == 0 || m in pool)
  }

  /** GenerateOneTimePreKeys from `start`, added to the pool: ids count up as uint32. */
  function Insert(c: Suite, pool: Pool, start: Counter, privs: seq<Key>): Pool
    decreases |privs|
  {
    if privs == [] then pool
    else Insert(c, pool[start := KeyPair(start, c.Pub(privs[0]), privs[0])], Increment(start), privs[1..])
  }

  /** Exactly the ids within |privs| of `start` get a new key, each its own; the others keep theirs. */
  lemma {:induction false} InsertAt(c: Suite, pool: Pool, start: Counter, privs: seq<Key>, id: Counter)
    requires |privs| < U32
    ensures var p := Insert(c, pool, start, privs);
            && (Gap(start, id) < |privs| ==> id in p && p[id] == KeyPair(id, c.Pub(privs[Gap(start, id)]), privs[Gap(start, id)]))
            && (Gap(start, id) >= |privs| ==> (id in p <==> id in pool) && (id in p ==> p[id] == pool[id]))
    decreases |privs|
  {
    if privs != [] {
      InsertAt(c, pool[start := KeyPair(start, c.Pub(privs[0]), privs[0])], Increment(start), privs[1..], id);
    }
  }

  /** A client's X3DH state. `served` is the history of private one-time keys used by successful responder runs. */
  datatype Client = Client(identity: Option<KeyPair>, signed: Option<KeyPair>, pool: Pool,
                           sessions: map<Address, State>, served: seq<Key>, generated: set<Key>)

  /** The keys are what the key generator returns, None where it fails. */
  datatype ClientEvent =
    | Initialize(identity: Option<Key>, signed: Option<Key>, privs: Option<seq<Key>>)
    | Refill(threshold: int, privs: Option<seq<Key>>)
    | Incoming(from: Address, msg: InitialMessage)

  /** InitializeX3DH: what was generated before a failure stays. */
  function Initialized(c: Suite, s: Client, identity: Option<Key>, signed: Option<Key>, privs: Option<seq<Key>>): Client {
    if identity.None? then s
    else
      var s1 := s.(identity := Some(KeyPair(0, c.Pub(identity.value), identity.value)));
      if signed.None? then s1
      else
        var s2 := s1.(signed := Some(KeyPair(1, c.Pub(signed.value), signed.value)));
        if privs.None? then s2
        else s2.(pool := Insert(c, s2.pool, FIRST_ID, privs.value), generated := s2.generated + set k | k in privs.value)
  }

  /** The event puts new one-time keys into the pool. */
  predicate Fills(s: Client, e: ClientEvent) {
    match e
    case Initialize(identity, signed, privs) => identity.Some? && signed.Some? && privs.Some?
    case Refill(threshold, privs) => |s.pool| < threshold && privs.Some?
    case Incoming(_, _) => false
  }

  /** InitializeRatchetSession: no effect on an existing session, and none on failure. */
  function Establish(c: Suite, s: Client, from: Address, msg: InitialMessage): (Client, Result<()>) {
    if s.identity.None? || s.signed.None? then (s, Failed(NotInitialized))
    else if from in s.sessions then (s, Success(()))
    else
      match Respond(c, s.identity.value, s.signed.value, s.pool, msg)
      case Failed(f) => (s, Failed(f))
      case Success((secret, pool)) =>
        var session := ResponderSession(c, secret, s.signed.value, msg.ephemeral);
        (s.(pool := pool,
            sessions := s.sessions[from := session],
            served := s.served + if msg.usedOneTime == 0 then [] else [s.pool[msg.usedOneTime].private]),
         Success(()))
  }

  ghost predicate NoDuplicates(s: seq<Key>) {
    forall i, j :: 0 <= i < j < |s| ==> s[i] != s[j]
  }

  /** Key generation gives keys never generated before. */
  ghost predicate Fresh(s: Client, privs: seq<Key>) {
    |privs| == REFILL && NoDuplicates(privs) && forall k :: k in privs ==> k !in s.generated
  }

  /** Fifty new keys, from id `start` on. */
  function Filled(c: Suite, s: Client, start: Counter, privs: seq<Key>): Client {
    s.(pool := Insert(c, s.pool, start, privs), generated := s.generated + set k | k in privs)
  }

  ghost predicate NextClient(c: Suite, s: Client, e: ClientEvent, s': Client) {
    match e
    case Incoming(from, msg) => s' == Establish(c, s, from, msg).0
    case Initialize(identity, signed, privs) =>
      s' == Initialized(c, s, identity, signed, privs) && (Fills(s, e) ==> Fresh(s, privs.value))
    case Refill(threshold, privs) =>
      if !Fills(s, e) then s' == s
      else Fresh(s, privs.value) && exists m :: IsMaxId(s.pool, m) && s' == Filled(c, s, Increment(m), privs.value)
  }

  ghost predicate UsesEachKeyOnce(s: Client) {
    && (forall i, j :: i in s.pool && j in s.pool && i != j ==> s.pool[i].private != s.pool[j].private)
    && (forall i :: i in s.pool ==> s.pool[i].private in s.generated && s.pool[i].private !in s.served)
    && (forall k :: k in s.served ==> k in s.generated)
    && NoDuplicates(s.served)
  }

  /** A filling event inserts fifty fresh keys from the id it chooses, and otherwise concerns no one-time key. */
  lemma FillingStep(c: Suite, s: Client, e: ClientEvent, s': Client) returns (start: Counter, privs: seq<Key>)
    requires NextClient(c, s, e, s') && Fills(s, e)
    ensures Fresh(s, privs) && s'.pool == Insert(c, s.pool, start, privs) && s'.served == s.served
    ensures s'.generated == s.generated + set k | k in privs
    ensures e.Initialize? ==> start == FIRST_ID
    ensures e.Refill? ==> exists m :: IsMaxId(s.pool, m) && start == Increment(m)
  {
    match e
    case Initialize(_, _, some) => start, privs := FIRST_ID, some.value;
    case Refill(_, some) =>
      var m :| IsMaxId(s.pool, m) && s' == Filled(c, s, Increment(m), some.value);
      start, privs := Increment(m), some.value;
  }

  lemma FillKeepsOnce(c: Suite, s: Client, start: Counter, privs: seq<Key>, s': Client)
    requires UsesEachKeyOnce(s) && Fresh(s, privs) && s'.pool == Insert(c, s.pool, start, privs) && s'.served == s.served
    requires s'.generated == s.generated + set k | k in privs
    ensures UsesEachKeyOnce(s')
  {
    forall i: Counter {
      InsertAt(c, s.pool, start, privs, i);
    }
  }

  lemma ClientStepKeepsOnce(c: Suite, s: Client, e: ClientEvent, s': Client)
    requires UsesEachKeyOnce(s) && NextClient(c, s, e, s')
    ensures UsesEachKeyOnce(s')
  {
    if Fills(s, e) {
      var start, privs := FillingStep(c, s, e, s');
      FillKeepsOnce(c, s, start, privs, s');
    } else if e.Initialize? {
      assert s'.pool == s.pool && s'.served == s.served && s'.generated == s.generated;
    }
  }

  ghost predicate ClientRun(c: Suite, states: seq<Client>, events: seq<ClientEvent>) {
    && |states| == |events| + 1
    && forall i :: 0 <= i < |events| ==> NextClient(c, states[i], events[i], states[i + 1])
  }

  /** Each private one-time key serves at most one successful responder run, over every life of the client. */
  lemma {:induction false} EachKeyServesOnce(c: Suite, states: seq<Client>, events: seq<ClientEvent>)
    requires ClientRun(c, states, events) && UsesEachKeyOnce(states[0])
    ensures UsesEachKeyOnce(states[|events|])
    decreases |events|
  {
    var n := |events|;
    if n > 0 {
      EachKeyServesOnce(c, states[..n], events[..n - 1]);
      ClientStepKeepsOnce(c, states[n - 1], events[n - 1], states[n]);
    }
  }

  // ---- Live keys ----

  /** No live id lies where the event's new ids will be, wrapped around where they wrap. */
  ghost predicate Spares(s: Client, e: ClientEvent) {
    Fills(s, e) ==>
      match e
      case Initialize(_, _, _) => forall id :: id in s.pool ==> id < FIRST_ID || FIRST_ID + REFILL <= id
      case Refill(_, _) => forall m: Counter, id :: IsMaxId(s.pool, m) && id in s.pool ==> id + U32 > m + REFILL
      case Incoming(_, _) => true
  }

  /** The ids from `start` on meet no live id. */
  ghost predicate Clear(pool: Pool, start: Counter) {
    forall id :: id in pool ==> Gap(start, id) >= REFILL
  }

  lemma SparesIsClear(c: Suite, s: Client, e: ClientEvent, start: Counter)
    requires Fills(s, e)
    requires e.Initialize? ==> start == FIRST_ID
    requires e.Refill? ==> exists m :: IsMaxId(s.pool, m) && start == Increment(m)
    ensures Spares(s, e) <==> Clear(s.pool, start)
  {
    if e.Refill? {
      var m :| IsMaxId(s.pool, m) && start == Increment(m);
      forall m': Counter | IsMaxId(s.pool, m')
        ensures s.pool != map[] ==> m' == m
      {
        MaxIdUnique(s.pool, m, m');
      }
    }
  }

  lemma MaxIdUnique(pool: Pool, m: Counter, m': Counter)
    requires IsMaxId(pool, m) && IsMaxId(pool, m')
    ensures m == m'
  {
  }

  /** The key is still there under its id, or it has served. */
  ghost predicate Kept(s: Client, id: Counter, k: KeyPair) {
    (id in s.pool && s.pool[id] == k) || k.private in s.served
  }

  /** The key was generated and is neither in the pool nor served. */
  ghost predicate Gone(s: Client, priv: Key) {
    priv in s.generated && priv !in s.served && forall id :: id in s.pool ==> s.pool[id].private != priv
  }

  lemma StepKeeps(c: Suite, s: Client, e: ClientEvent, s': Client, id: Counter, k: KeyPair)
    requires NextClient(c, s, e, s') && Spares(s, e) && Kept(s, id, k)
    ensures Kept(s', id, k)
  {
    if Fills(s, e) {
      var start, privs := FillingStep(c, s, e, s');
      SparesIsClear(c, s, e, start);
      InsertAt(c, s.pool, start, privs, id);
    }
  }

  lemma StepLeavesGone(c: Suite, s: Client, e: ClientEvent, s': Client, priv: Key)
    requires UsesEachKeyOnce(s) && NextClient(c, s, e, s') && Gone(s, priv)
    ensures Gone(s', priv)
  {
    if Fills(s, e) {
      var start, privs := FillingStep(c, s, e, s');
      forall id: Counter {
        InsertAt(c, s.pool, start, privs, id);
      }
    }
  }

  /** An event that does not spare the live keys makes one of them disappear. */
  lemma StepLoses(c: Suite, s: Client, e: ClientEvent, s': Client) returns (id: Counter)
    requires UsesEachKeyOnce(s) && NextClient(c, s, e, s') && !Spares(s, e)
    ensures id in s.pool && Gone(s', s.pool[id].private)
  {
    var start, privs := FillingStep(c, s, e, s');
    SparesIsClear(c, s, e, start);
    id :| id in s.pool && Gap(start, id) < REFILL;
    OverwrittenIsGone(c, s, start, privs, s', id);
  }

  lemma OverwrittenIsGone(c: Suite, s: Client, start: Counter, privs: seq<Key>, s': Client, id: Counter)
    requires UsesEachKeyOnce(s) && Fresh(s, privs) && s'.pool == Insert(c, s.pool, start, privs) && s'.served == s.served
    requires s'.generated == s.generated + set k | k in privs
    requires id in s.pool && Gap(start, id) < REFILL
    ensures Gone(s', s.pool[id].private)
  {
    forall i: Counter | i in s'.pool
      ensures s'.pool[i].private != s.pool[id].private
    {
      InsertAt(c, s.pool, start, privs, i);
      assert Gap(start, i) < REFILL ==> s'.pool[i].private in privs;
    }
  }

  lemma {:induction false} RunKeeps(c: Suite, states: seq<Client>, events: seq<ClientEvent>, i: nat, id: Counter, k: KeyPair)
    requires ClientRun(c, states, events) && i <= |events| && Kept(states[i], id, k)
    requires forall j :: 0 <= j < |events| ==> Spares(states[j], events[j])
    ensures Kept(states[|events|], id, k)
    decreases |events| - i
  {
    if i < |events| {
      StepKeeps(c, states[i], events[i], states[i + 1], id, k);
      RunKeeps(c, states, events, i + 1, id, k);
    }
  }

  lemma {:induction false} RunLeavesGone(c: Suite, states: seq<Client>, events: seq<ClientEvent>, i: nat, priv: Key)
    requires ClientRun(c, states, events) && UsesEachKeyOnce(states[0]) && i <= |events| && Gone(states[i], priv)
    ensures Gone(states[|events|], priv)
    decreases |events| - i
  {
    if i < |events| {
      OnceAt(c, states, events, i);
      StepLeavesGone(c, states[i], events[i], states[i + 1], priv);
      RunLeavesGone(c, states, events, i + 1, priv);
    }
  }

  lemma OnceAt(c: Suite, states: seq<Client>, events: seq<ClientEvent>, i: nat)
    requires ClientRun(c, states, events) && UsesEachKeyOnce(states[0]) && i <= |events|
    ensures UsesEachKeyOnce(states[i])
  {
    EachKeyServesOnce(c, states[..i + 1], events[..i]);
  }

  /**
   Over every life of a client, in any interleaving of initialisations, refills and responder runs: every key that was
   ever live is in the end still in the pool under its id or has served, if and only if each event that adds keys found
   no live id where its new ids lie.
   */
  lemma LiveKeysKeptIff(c: Suite, states: seq<Client>, events: seq<ClientEvent>)
    requires ClientRun(c, states, events) && UsesEachKeyOnce(states[0])
    ensures (forall i, id :: 0 <= i <= |events| && id in states[i].pool ==> Kept(states[|events|], id, states[i].pool[id]))
            <==> (forall i :: 0 <= i < |events| ==> Spares(states[i], events[i]))
  {
    if forall i :: 0 <= i < |events| ==> Spares(states[i], events[i]) {
      forall i, id | 0 <= i <= |events| && id in states[i].pool
        ensures Kept(states[|events|], id, states[i].pool[id])
      {
        RunKeeps(c, states, events, i, id, states[i].pool[id]);
      }
    } else {
      var i :| 0 <= i < |events| && !Spares(states[i], events[i]);
      OnceAt(c, states, events, i);
      var id := StepLoses(c, states[i], events[i], states[i + 1]);
      RunLeavesGone(c, states, events, i + 1, states[i].pool[id].private);
      assert !Kept(states[|events|], id, states[i].pool[id]);
    }
  }

  /** A single refill overwrites no live key exactly when no live id lies where the new ids wrap to. */
  lemma RefillKeepsLive(c: Suite, s: Client, privs: seq<Key>, m: Counter)
    requires UsesEachKeyOnce(s) && Fresh(s, privs) && IsMaxId(s.pool, m)
    ensures var p := Insert(c, s.pool, Increment(m), privs);
            (forall id :: id in s.pool ==> id in p && p[id] == s.pool[id])
            <==> (forall id :: id in s.pool ==> id + U32 > m + REFILL)
  {
    var p := Insert(c, s.pool, Increment(m), privs);
    forall id: Counter
      ensures id in s.pool ==> ((id in p && p[id] == s.pool[id]) <==> id + U32 > m + REFILL)
    {
      InsertAt(c, s.pool, Increment(m), privs, id);
    }
  }

  /** Initialising a second time overwrites every live key with an id from 100 to 149. */
  lemma SecondInitializeOverwrites(c: Suite, s: Client, identity: Key, signed: Key, privs: seq<Key>, id: Counter)
    requires UsesEachKeyOnce(s) && Fresh(s, privs) && id in s.pool && FIRST_ID <= id < FIRST_ID + REFILL
    ensures var s' := Initialized(c, s, Some(identity), Some(signed), Some(privs)); Gone(s', s.pool[id].private)
  {
    OverwrittenIsGone(c, s, FIRST_ID, privs, Initialized(c, s, Some(identity), Some(signed), Some(privs)), id);
  }

  /** With live ids 1 and 2^32 - 1 a refill's new ids wrap to 0..49 and the key under id 1 is replaced. */
  lemma RefillOverwritesAtWrap(c: Suite, s: Client, privs: seq<Key>, first: KeyPair, last: KeyPair)
    requires s.pool == map[1 := first, U32 - 1 := last] && UsesEachKeyOnce(s) && Fresh(s, privs)
    ensures IsMaxId(s.pool, U32 - 1)
    ensures var p := Filled(c, s, Increment(U32 - 1), privs).pool; 1 in p && p[1] != first
  {
    InsertAt(c, s.pool, Increment(U32 - 1), privs, 1);
    assert s.pool[1].private in s.generated;
  }

  // ---- From the published bundle to the stored session ----

  /** Key pairs are generated ones, and stand under their own ids. */
  ghost predicate Keyed(c: Suite, s: Client) {
    && (s.identity.Some? ==> Generated(c, s.identity.value))
    && (s.signed.Some? ==> Generated(c, s.signed.value))
    && forall id :: id in s.pool ==> s.pool[id].keyId == id && Generated(c, s.pool[id])
  }

  lemma ClientStepKeepsKeyed(c: Suite, s: Client, e: ClientEvent, s': Client)
    requires Keyed(c, s) && NextClient(c, s, e, s')
    ensures Keyed(c, s')
  {
    if Fills(s, e) {
      var start, privs := FillingStep(c, s, e, s');
      forall id: Counter {
        InsertAt(c, s.pool, start, privs, id);
      }
    }
  }

  lemma {:induction false} RunKeepsKeyed(c: Suite, states: seq<Client>, events: seq<ClientEvent>)
    requires ClientRun(c, states, events) && Keyed(c, states[0])
    ensures Keyed(c, states[|events|])
    decreases |events|
  {
    var n := |events|;
    if n > 0 {
      RunKeepsKeyed(c, states[..n], events[..n - 1]);
      ClientStepKeepsKeyed(c, states[n - 1], events[n - 1], states[n]);
    }
  }

  /** A first initialisation gives exactly the keys drawn: signed prekey 1 and one-time keys from 100 on. */
  lemma InitializeGives(c: Suite, s: Client, identity: Key, signed: Key, privs: seq<Key>, j: nat)
    requires |privs| == REFILL && j < REFILL && s.pool == map[]
    ensures var s' := Initialized(c, s, Some(identity), Some(signed), Some(privs));
            && s'.identity == Some(KeyPair(0, c.Pub(identity), identity))
            && s'.signed == Some(KeyPair(1, c.Pub(signed), signed))
            && 100 + j in s'.pool && s'.pool[100 + j] == KeyPair(100 + j, c.Pub(privs[j]), privs[j])
            && (forall id :: id in s'.pool ==> 100 <= id < 150)
            && s'.sessions == s.sessions
  {
    forall id: Counter {
      InsertAt(c, s.pool, FIRST_ID, privs, id);
    }
  }

  /** The ids of the pool, in the order in which the map happens to be walked. */
  ghost predicate Lists(pool: Pool, ids: seq<Counter>) {
    (forall id :: id in ids <==> id in pool) && forall i, j :: 0 <= i < j < |ids| ==> ids[i] != ids[j]
  }

  /** GetKeyBundle. */
  function BundleOf(s: Client, ids: seq<Counter>): Result<Bundle>
    requires forall id :: id in ids ==> id in s.pool
  {
    if s.identity.None? || s.signed.None? then Failed(NotInitialized)
    else Success(Bundle(s.identity.value.public, PublicKey(s.signed.value.keyId, s.signed.value.public),
                        seq(|ids|, i requires 0 <= i < |ids| => assert ids[i] in ids; PublicKey(ids[i], s.pool[ids[i]].public))))
  }

  lemma BundleIsHonest(c: Suite, s: Client, ids: seq<Counter>)
    requires Keyed(c, s) && Lists(s.pool, ids) && s.identity.Some? && s.signed.Some?
    ensures BundleOf(s, ids).Success?
    ensures Honest(c, BundleOf(s, ids).value, s.identity.value, s.signed.value, s.pool)
  {
    assert forall i :: 0 <= i < |ids| ==> ids[i] in s.pool;
  }

  /** The two sessions, with nothing sent. */
  function Joined(a: State, b: State): System {
    System(a, b, Link([], NO_LOSS), Link([], NO_LOSS), {a.dhPublic, b.dhPublic})
  }

  /**
   A client publishes its bundle, somebody initiates with it, and the client handles the initial message: the session it
   then stores is in step with the initiator's, the one-time key used is gone from the pool and counted as served, and
   every other address keeps the session it had.
   */
  lemma StoredSessionSettled(c: Suite, s: Client, ids: seq<Counter>, from: Address, alice: KeyPair, eph: Key)
    requires c.Lawful() && Keyed(c, s) && Lists(s.pool, ids) && s.identity.Some? && s.signed.Some?
    requires Generated(c, alice) && from !in s.sessions && (ids == [] || ids[0] != 0)
    ensures var bundle := BundleOf(s, ids).value;
            var i := Initiate(c, from, alice, bundle, eph);
            var (s', r) := Establish(c, s, from, i.message);
            && r.Success? && from in s'.sessions
            && Settled(c, Joined(InitiatorSession(c, i, bundle), s'.sessions[from]), 0, 0)
            && s'.pool == s.pool - (if ids == [] then {} else {ids[0]})
            && s'.served == s.served + (if ids == [] then [] else [s.pool[ids[0]].private])
            && s'.sessions == s.sessions[from := s'.sessions[from]]
            && s'.identity == s.identity && s'.signed == s.signed
  {
    BundleIsHonest(c, s, ids);
    var bundle := BundleOf(s, ids).value;
    var i := Initiate(c, from, alice, bundle, eph);
    Agreement(c, from, alice, bundle, eph, s.identity.value, s.signed.value, s.pool);
    SessionsAgree(c, i, bundle, s.signed.value);
  }

  /** And from there every lossless exchange decrypts. */
  lemma StoredSessionDecrypts(c: Suite, s: Client, ids: seq<Counter>, from: Address, alice: KeyPair, eph: Key, run: seq<Event>)
    requires c.Lawful() && Keyed(c, s) && Lists(s.pool, ids) && s.identity.Some? && s.signed.Some?
    requires Generated(c, alice) && from !in s.sessions && (ids == [] || ids[0] != 0) && Lossless(run)
    requires var bundle := BundleOf(s, ids).value;
             var i := Initiate(c, from, alice, bundle, eph);
             var s' := Establish(c, s, from, i.message).0;
             from in s'.sessions && Enables(c, Joined(InitiatorSession(c, i, bundle), s'.sessions[from]), run)
    ensures var bundle := BundleOf(s, ids).value;
            var i := Initiate(c, from, alice, bundle, eph);
            var s' := Establish(c, s, from, i.message).0;
            AllDecrypt(c, Joined(InitiatorSession(c, i, bundle), s'.sessions[from]), run)
  {
    StoredSessionSettled(c, s, ids, from, alice, eph);
    var bundle := BundleOf(s, ids).value;
    var i := Initiate(c, from, alice, bundle, eph);
    Lockstep(c, Joined(InitiatorSession(c, i, bundle), Establish(c, s, from, i.message).0.sessions[from]), run);
  }

  /** When an initial message changes nothing, and what is then reported. */
  lemma EstablishRefuses(c: Suite, s: Client, from: Address, msg: InitialMessage)
    ensures var (s', r) := Establish(c, s, from, msg);
            && (r.Failed? <==>
                  || s.identity.None? || s.signed.None?
                  || (from !in s.sessions && msg.usedOneTime != 0 && msg.usedOneTime !in s.pool))
            && (r.Failed? || from in s.sessions ==> s' == s)
  {
  }

  /** The class of pkg/network/client.go, as far as X3DH reaches. */
  class X3dhClient {
    const suite: Suite
    var identity: Option<KeyPair>
    var signedPreKey: Option<KeyPair>
    var oneTimePreKeys: Pool
    var sessions: map<Address, State>
    ghost var served: seq<Key>
    ghost var generated: set<Key>

    ghost function View(): Client
      reads this
    {
      Client(identity, signedPreKey, oneTimePreKeys, sessions, served, generated)
    }

    constructor (c: Suite)
      ensures suite == c && View() == Client(None, None, map[], map[], [], {})
    {
      suite := c;
      identity, signedPreKey, oneTimePreKeys, sessions := None, None, map[], map[];
      served, generated := [], {};
    }

    /** `privs` are the keys the generator will return, None when it fails. */
    method RefillOneTimePreKeys(threshold: int, privs: Option<seq<Key>>) returns (err: Option<Failure>)
      requires privs.Some? ==> Fresh(View(), privs.value)
      modifies this`oneTimePreKeys, this`generated
      ensures err.Some? <==> privs.None? && |old(oneTimePreKeys)| < threshold
      ensures NextClient(suite, old(View()), Refill(threshold, privs), View())
    {
      if |oneTimePreKeys| >= threshold {
        return None;
      }
      var maxId: Counter := 0;
      var ids := oneTimePreKeys.Keys;
      while ids != {}
        invariant ids <= oneTimePreKeys.Keys
        invariant forall id :: id in oneTimePreKeys && id !in ids ==> id <= maxId
        invariant maxId == 0 || maxId in oneTimePreKeys
      {
        var id :| id in ids;
        if id > maxId {
          maxId := id;
        }
        ids := ids - {id};
      }
      if privs.None? {
        return Some(KeyGenerationFailed);
      }
      assert IsMaxId(oneTimePreKeys, maxId);
      AddKeys(Increment(maxId), privs.value);
      assert IsMaxId(old(oneTimePreKeys), maxId) && View() == Filled(suite, old(View()), Increment(maxId), privs.value);
      return None;
    }

    /** GenerateOneTimePreKeys and the loop that puts its keys into the map. */
    method AddKeys(start: Counter, privs: seq<Key>)
      modifies this`oneTimePreKeys, this`generated
      ensures View() == Filled(suite, old(View()), start, privs)
    {
      var i := 0;
      var keyId := start;
      assert privs[i..] == privs;
      while i < |privs|
        invariant 0 <= i <= |privs|
        invariant generated == old(generated)
        invariant Insert(suite, oneTimePreKeys, keyId, privs[i..]) == Insert(suite, old(oneTimePreKeys), start, privs)
      {
        assert privs[i..][1..] == privs[i + 1..];
        oneTimePreKeys := oneTimePreKeys[keyId := KeyPair(keyId, suite.Pub(privs[i]), privs[i])];
        keyId := Increment(keyId);
        i := i + 1;
      }
      assert privs[i..] == [];
      generated := generated + set k | k in privs;
    }

    /** The arguments are what the key generator returns, None where it fails. */
    method InitializeX3DH(identityKey: Option<Key>, signedKey: Option<Key>, privs: Option<seq<Key>>) returns (err: Option<Failure>)
      modifies this`identity, this`signedPreKey, this`oneTimePreKeys, this`generated
      ensures View() == Initialized(suite, old(View()), identityKey, signedKey, privs)
      ensures err.None? <==> identityKey.Some? && signedKey.Some? && privs.Some?
    {
      if identityKey.None? {
        return Some(KeyGenerationFailed);
      }
      identity := Some(KeyPair(0, suite.Pub(identityKey.value), identityKey.value));
      if signedKey.None? {
        return Some(KeyGenerationFailed);
      }
      signedPreKey := Some(KeyPair(1, suite.Pub(signedKey.value), signedKey.value));
      if privs.None? {
        return Some(KeyGenerationFailed);
      }
      AddKeys(FIRST_ID, privs.value);
      return None;
    }

    method InitializeRatchetSession(from: Address, msg: InitialMessage) returns (r: Result<()>)
      modifies this`oneTimePreKeys, this`sessions, this`served
      ensures (View(), r) == Establish(suite, old(View()), from, msg)
    {
      if identity.None? || signedPreKey.None? {
        return Failed(NotInitialized);
      }
      if from in sessions {
        return Success(());
      }
      var agreed := Respond(suite, identity.value, signedPreKey.value, oneTimePreKeys, msg);
      if agreed.Failed? {
        return Failed(agreed.failure);
      }
      assert served + [] == served;
      if msg.usedOneTime != 0 {
        served := served + [oneTimePreKeys[msg.usedOneTime].private];
      }
      var (secret, pool) := agreed.value;
      oneTimePreKeys := pool;
      sessions := sessions[from := ResponderSession(suite, secret, signedPreKey.value, msg.ephemeral)];
      return Success(());
    }
  }
}
