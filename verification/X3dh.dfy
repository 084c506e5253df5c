/** X3DH key agreement, the one-time prekey pool, and the ratchet sessions started from it. */
module X3dh {
  import opened Bytes
  import opened Ratchet
  import opened RatchetSystem

  /** A DH key pair under a key id; `IdentityKeyPair` has no id and uses 0. */
  datatype KeyPair = KeyPair(keyId: Counter, public: Key, private: Key)

  datatype PublicKey = PublicKey(keyId: Counter, public: Key)

  datatype Bundle = Bundle(identity: Key, signed: PublicKey, oneTime: seq<PublicKey>)

  datatype InitialMessage = InitialMessage(sender: Address, identity: Key, ephemeral: Key, usedSigned: Counter, usedOneTime: Counter)

  datatype Failure = NotInitialized | OneTimeKeyNotFound | KeyGenerationFailed

  datatype Result<+T> = Success(value: T) | Failed(failure: Failure)

  type Pool = map<Counter, KeyPair>

  const REFILL: nat := 50

  ghost predicate Generated(c: Suite, k: KeyPair) {
    k.public == c.Pub(k.private)
  }

  // ---- Agreement ----

  datatype Initiation = Initiation(secret: Key, ephemeral: KeyPair, message: InitialMessage)

  /** The initiator's side, with the ephemeral private key as an argument. */
  function Initiate(c: Suite, sender: Address, alice: KeyPair, bundle: Bundle, eph: Key): Initiation {
    var dh1 := c.Dh(alice.private, bundle.signed.public);
    var dh2 := c.Dh(eph, bundle.identity);
    var dh3 := c.Dh(eph, bundle.signed.public);
    var used := if bundle.oneTime == [] then 0 else bundle.oneTime[0].keyId;
    var material := dh1 + dh2 + dh3 + if bundle.oneTime == [] then [] else c.Dh(eph, bundle.oneTime[0].public);
    Initiation(c.KdfSecret(material), KeyPair(0, c.Pub(eph), eph),
               InitialMessage(sender, alice.public, c.Pub(eph), bundle.signed.keyId, used))
  }

  /** The responder's secret and the pool that remains. */
  function Respond(c: Suite, bob: KeyPair, signed: KeyPair, pool: Pool, msg: InitialMessage): Result<(Key, Pool)> {
    if msg.usedOneTime != 0 && msg.usedOneTime !in pool then Failed(OneTimeKeyNotFound)
    else
      var dh1 := c.Dh(signed.private, msg.identity);
      var dh2 := c.Dh(bob.private, msg.ephemeral);
      var dh3 := c.Dh(signed.private, msg.ephemeral);
      if msg.usedOneTime == 0 then Success((c.KdfSecret(dh1 + dh2 + dh3 + []), pool))
      else
        var dh4 := c.Dh(pool[msg.usedOneTime].private, msg.ephemeral);
        Success((c.KdfSecret(dh1 + dh2 + dh3 + dh4), pool - {msg.usedOneTime}))
  }

  /** A bundle that Bob published and whose one-time keys he still holds. */
  ghost predicate Honest(c: Suite, bundle: Bundle, bob: KeyPair, signed: KeyPair, pool: Pool) {
    && Generated(c, bob) && Generated(c, signed)
    && bundle.identity == bob.public
    && bundle.signed == PublicKey(signed.keyId, signed.public)
    && (forall i :: 0 <= i < |bundle.oneTime| ==>
          && bundle.oneTime[i].keyId in pool
          && Generated(c, pool[bundle.oneTime[i].keyId])
          && bundle.oneTime[i].public == pool[bundle.oneTime[i].keyId].public)
  }

  /** The two inputs of the key derivation when the first one-time key has id 0: with and without the fourth DH. */
  ghost predicate Collides(c: Suite, alice: KeyPair, bundle: Bundle, eph: Key)
    requires bundle.oneTime != []
  {
    var three := c.Dh(alice.private, bundle.signed.public) + c.Dh(eph, bundle.identity) + c.Dh(eph, bundle.signed.public);
    c.KdfSecret(three + []) == c.KdfSecret(three + c.Dh(eph, bundle.oneTime[0].public))
  }

  /** Both sides derive one secret, unless the one-time key used has id 0, which Bob reads as no one-time key. */
  lemma Agreement(c: Suite, sender: Address, alice: KeyPair, bundle: Bundle, eph: Key, bob: KeyPair, signed: KeyPair, pool: Pool)
    requires c.Lawful() && Generated(c, alice) && Honest(c, bundle, bob, signed, pool)
    ensures var i := Initiate(c, sender, alice, bundle, eph);
            var r := Respond(c, bob, signed, pool, i.message);
            && i.message == InitialMessage(sender, alice.public, c.Pub(eph), bundle.signed.keyId,
                                           if bundle.oneTime == [] then 0 else bundle.oneTime[0].keyId)
            && r.Success?
            && (r.value.0 == i.secret <==>
                 bundle.oneTime == [] || bundle.oneTime[0].keyId != 0 || Collides(c, alice, bundle, eph))
            && r.value.1 == pool - (if bundle.oneTime == [] || bundle.oneTime[0].keyId == 0 then {} else {bundle.oneTime[0].keyId})
  {
    assert c.Dh(alice.private, c.Pub(signed.private)) == c.Dh(signed.private, c.Pub(alice.private));
    assert c.Dh(eph, c.Pub(bob.private)) == c.Dh(bob.private, c.Pub(eph));
    assert c.Dh(eph, c.Pub(signed.private)) == c.Dh(signed.private, c.Pub(eph));
    if bundle.oneTime != [] {
      var opk := pool[bundle.oneTime[0].keyId];
      assert c.Dh(eph, c.Pub(opk.private)) == c.Dh(opk.private, c.Pub(eph));
    }
    assert pool - {} == pool;
  }

  /** A suite whose secret depends on whether there was a fourth DH. */
  function Counting(): Suite {
    Suite(x => x, (x, y) => ZERO_KEY, (x, y) => (ZERO_KEY, ZERO_KEY), x => (ZERO_KEY, ZERO_KEY),
          m => if |m| == 96 then ZERO_KEY else ONE_KEY, (m, k, n) => m, (b, k) => Some(b))
  }

  const ONE_KEY: Key := [1] + Zeros(31)

  /** With a one-time key of id 0 the two sides do come to different secrets. */
  lemma IdZeroDisagrees(sender: Address, alice: KeyPair, bob: KeyPair, signed: KeyPair, opk: KeyPair, eph: Key)
    requires var c := Counting(); Generated(c, alice) && Generated(c, bob) && Generated(c, signed) && Generated(c, opk)
    requires opk.keyId == 0
    ensures var c := Counting();
            var bundle := Bundle(bob.public, PublicKey(signed.keyId, signed.public), [PublicKey(0, opk.public)]);
            var pool: Pool := map[0 := opk];
            var i := Initiate(c, sender, alice, bundle, eph);
            var r := Respond(c, bob, signed, pool, i.message);
            c.Lawful() && Honest(c, bundle, bob, signed, pool) && r.Success? && r.value.0 != i.secret
  {
    assert ONE_KEY[0] != ZERO_KEY[0];
  }

  // ---- Sessions ----

  /** What InitializeRatchetSession stores: the receiver's state with the first receiving chain already derived. */
  function ResponderSession(c: Suite, secret: Key, signed: KeyPair, ephemeral: Key): State {
    var s := NewReceiver(secret, signed.private, signed.public);
    var (root, chain) := c.KdfRoot(s.root, c.Dh(s.dhPrivate, ephemeral));
    s.(dhRemote := ephemeral, root := root, recvChain := chain)
  }

  function InitiatorSession(c: Suite, i: Initiation, bundle: Bundle): State {
    NewInitiator(c, i.secret, bundle.signed.public, i.ephemeral.private, i.ephemeral.public)
  }

  /** One secret gives one root, and the initiator's sending chain is the responder's receiving chain. */
  lemma SessionsAgree(c: Suite, i: Initiation, bundle: Bundle, signed: KeyPair)
    requires c.Lawful() && Generated(c, signed) && Generated(c, i.ephemeral) && bundle.signed.public == signed.public
    ensures var a := InitiatorSession(c, i, bundle);
            var b := ResponderSession(c, i.secret, signed, i.ephemeral.public);
            var s := System(a, b, Link([], NO_LOSS), Link([], NO_LOSS), {a.dhPublic, b.dhPublic});
            && a.root == b.root && a.sendChain == b.recvChain && a.recvChain == b.sendChain
            && Settled(c, s, 0, 0)
  {
    assert c.Dh(i.ephemeral.private, c.Pub(signed.private)) == c.Dh(signed.private, c.Pub(i.ephemeral.private));
  }

  /** From an honest bundle to any lossless exchange: every message decrypts, and the DH keys never change. */
  lemma AgreementThenLockstep(c: Suite, sender: Address, alice: KeyPair, bundle: Bundle, eph: Key, bob: KeyPair,
                              signed: KeyPair, pool: Pool, run: seq<Event>)
    requires c.Lawful() && Generated(c, alice) && Honest(c, bundle, bob, signed, pool)
    requires bundle.oneTime == [] || bundle.oneTime[0].keyId != 0
    requires var i := Initiate(c, sender, alice, bundle, eph);
             var a := InitiatorSession(c, i, bundle);
             var b := ResponderSession(c, Respond(c, bob, signed, pool, i.message).value.0, signed, i.message.ephemeral);
             Lossless(run) && Enables(c, System(a, b, Link([], NO_LOSS), Link([], NO_LOSS), {a.dhPublic, b.dhPublic}), run)
    ensures var i := Initiate(c, sender, alice, bundle, eph);
            var a := InitiatorSession(c, i, bundle);
            var b := ResponderSession(c, Respond(c, bob, signed, pool, i.message).value.0, signed, i.message.ephemeral);
            var s := System(a, b, Link([], NO_LOSS), Link([], NO_LOSS), {a.dhPublic, b.dhPublic});
            AllDecrypt(c, s, run) && Exec(c, s, run).a.dhPublic == a.dhPublic && Exec(c, s, run).b.dhPublic == b.dhPublic
  {
    var i := Initiate(c, sender, alice, bundle, eph);
    Agreement(c, sender, alice, bundle, eph, bob, signed, pool);
    SessionsAgree(c, i, bundle, signed);
    var a := InitiatorSession(c, i, bundle);
    var b := ResponderSession(c, i.secret, signed, i.ephemeral.public);
    var s := System(a, b, Link([], NO_LOSS), Link([], NO_LOSS), {a.dhPublic, b.dhPublic});
    Lockstep(c, s, run);
    SettledNeverRatchets(c, s, run);
  }
}
