/** The Double Ratchet of pkg/protocol/ratchet.go: chains, DH ratchet steps and skipped message keys. */
module Ratchet {
  import opened Bytes

  type Key = s: bytes | |s| == 32 witness Zeros(32)

  /** A 32-bit counter. Go's uint32 arithmetic wraps; every use below says so. */
  type Counter = n: nat | n < U32

  const ZERO_KEY: Key := Zeros(32)
  const MAX_SKIP: nat := 1000

  /** The cryptographic primitives, as functions of their arguments. The nonce of `Seal` is an argument. */
  datatype Suite = Suite(
    public: Key -> Key,
    agree: (Key, Key) -> Key,
    root: (Key, Key) -> (Key, Key),
    chain: Key -> (Key, Key),
    derive: bytes -> Key,
    encrypt: (bytes, Key, Nonce) -> bytes,
    decrypt: (bytes, Key) -> Option<bytes>)
  {
    /** X25519 base-point multiplication. */
    function Pub(priv: Key): Key { public(priv) }

    /** X25519 of a private and a public key. */
    function Dh(priv: Key, pub: Key): Key { agree(priv, pub) }

    /** KDF_RK: the next root key and a chain key. */
    function KdfRoot(rk: Key, dh: Key): (Key, Key) { root(rk, dh) }

    /** KDF_CK: the next chain key and a message key. */
    function KdfChain(ck: Key): (Key, Key) { chain(ck) }

    /** HKDF with a zero salt and the X3DH info string. */
    function KdfSecret(material: bytes): Key { derive(material) }

    function Seal(plain: bytes, key: Key, nonce: Nonce): bytes { encrypt(plain, key, nonce) }

    function Open(body: bytes, key: Key): Option<bytes> { decrypt(body, key) }

    /** X25519 commutes and opening inverts sealing: all that is assumed of the primitives. */
    ghost predicate Lawful() {
      && (forall x, y :: Dh(x, Pub(y)) == Dh(y, Pub(x)))
      && (forall m, k, n :: Open(Seal(m, k, n), k) == Some(m))
    }
  }

  datatype KeyId = KeyId(dhPublic: Key, num: Counter)

  datatype Header = Header(dhPublic: Key, previousLen: Counter, num: Counter)

  function EncodeHeader(h: Header): (r: bytes)
    ensures |r| == 40
  {
    h.dhPublic + BigEndian(h.previousLen, 4) + BigEndian(h.num, 4)
  }

  function DecodeHeader(buf: bytes): Option<Header> {
    if |buf| < 40 then None
    else
      ValueBound(buf[32..36]);
      ValueBound(buf[36..40]);
      Pow256Values();
      Some(Header(buf[..32], Value(buf[32..36]), Value(buf[36..40])))
  }

  lemma HeaderRoundTrip(h: Header, rest: bytes)
    ensures DecodeHeader(EncodeHeader(h) + rest) == Some(h)
  {
    var buf := EncodeHeader(h) + rest;
    Pow256Values();
    BigEndianRoundTrip(h.previousLen, 4);
    BigEndianRoundTrip(h.num, 4);
    assert buf[..32] == h.dhPublic;
    assert buf[32..36] == BigEndian(h.previousLen, 4);
    assert buf[36..40] == BigEndian(h.num, 4);
  }

  // ---- Chains ----

  /** The chain key after `n` steps of KDF_CK. */
  function ChainAt(c: Suite, ck: Key, n: nat): Key
    decreases n
  {
    if n == 0 then ck else ChainAt(c, c.KdfChain(ck).0, n - 1)
  }

  /** The message key number `n` of the chain that starts at `ck`. */
  function MessageKeyAt(c: Suite, ck: Key, n: nat): Key {
    c.KdfChain(ChainAt(c, ck, n)).1
  }

  lemma {:induction false} ChainSplit(c: Suite, ck: Key, m: nat, n: nat)
    ensures ChainAt(c, ck, m + n) == ChainAt(c, ChainAt(c, ck, m), n)
    ensures MessageKeyAt(c, ck, m + n) == MessageKeyAt(c, ChainAt(c, ck, m), n)
    decreases m
  {
    if m > 0 {
      ChainSplit(c, c.KdfChain(ck).0, m - 1, n);
    }
  }

  lemma ChainSuccessor(c: Suite, ck: Key, n: nat)
    ensures ChainAt(c, ck, n + 1) == c.KdfChain(ChainAt(c, ck, n)).0
  {
    ChainSplit(c, ck, n, 1);
    assert ChainAt(c, ChainAt(c, ck, n), 1) == ChainAt(c, c.KdfChain(ChainAt(c, ck, n)).0, 0);
  }

  // ---- Session state as a value ----

  datatype State = State(
    root: Key,
    sendChain: Key, sendNum: Counter,
    recvChain: Key, recvNum: Counter,
    dhPrivate: Key, dhPublic: Key, dhRemote: Key,
    previousLen: Counter,
    skipped: map<KeyId, Key>)

  datatype Error = ShortHeader | TooManySkipped | KeyGeneration | Decryption | Encryption

  datatype Outcome<+T> = Ok(value: T) | Err(error: Error)

  function Increment(n: Counter): Counter {
    if n + 1 == U32 then 0 else n + 1
  }

  /** Initiator: the sending chain comes from the first DH; the receiving chain is still the zero key. */
  function NewInitiator(c: Suite, secret: Key, remote: Key, priv: Key, public: Key): State {
    var (root, chain) := c.KdfRoot(secret, c.Dh(priv, remote));
    State(root, chain, 0, ZERO_KEY, 0, priv, public, remote, 0, map[])
  }

  /** Responder: no chain yet, and the remote key is the zero key until a header arrives. */
  function NewReceiver(secret: Key, priv: Key, public: Key): State {
    State(secret, ZERO_KEY, 0, ZERO_KEY, 0, priv, public, ZERO_KEY, 0, map[])
  }

  /** Go's `to - from` on uint32. */
  function Gap(from: Counter, to: Counter): nat {
    if from <= to then to - from else to - from + U32
  }

  /** Message keys `from`, `from + 1`, .. below `to`, read off the chain that stands at `ck`, added to `base`. */
  function StoreKeys(c: Suite, base: map<KeyId, Key>, ck: Key, id: Key, from: Counter, to: Counter): map<KeyId, Key>
    decreases U32 - from
  {
    if from >= to then base
    else
      var (next, key) := c.KdfChain(ck);
      StoreKeys(c, base[KeyId(id, from) := key], next, id, from + 1, to)
  }

  /** SkipMessageKeys. Its numeric loop is empty when `to` has wrapped below `from`. */
  function Skip(c: Suite, s: State, id: Key, from: Counter, to: Counter): Outcome<State> {
    if Gap(from, to) > MAX_SKIP then Err(TooManySkipped)
    else Ok(s.(recvChain := ChainAt(c, s.recvChain, if from <= to then to - from else 0),
               skipped := StoreKeys(c, s.skipped, s.recvChain, id, from, to)))
  }

  /** Exactly the numbers `from..to` are stored, each with the chain's key for it; the rest is untouched. */
  lemma {:induction false} StoredKeys(c: Suite, base: map<KeyId, Key>, ck: Key, id: Key, from: Counter, to: Counter, k: KeyId)
    ensures var m := StoreKeys(c, base, ck, id, from, to);
            && (k.dhPublic == id && from <= k.num < to ==> k in m && m[k] == MessageKeyAt(c, ck, k.num - from))
            && (!(k.dhPublic == id && from <= k.num < to) ==>
                  (k in m <==> k in base) && (k in m ==> m[k] == base[k]))
    decreases U32 - from
  {
    if from < to {
      var (next, key) := c.KdfChain(ck);
      StoredKeys(c, base[KeyId(id, from) := key], next, id, from + 1, to, k);
    }
  }

  /** The half of DHRatchet that runs before a key pair is generated. */
  function BeginRatchet(c: Suite, s: State, remote: Key): State {
    var (root, chain) := c.KdfRoot(s.root, c.Dh(s.dhPrivate, remote));
    s.(previousLen := s.sendNum, sendNum := 0, recvNum := 0, dhRemote := remote, root := root, recvChain := chain)
  }

  /** The half of DHRatchet that runs once the new private key is known. */
  function FinishRatchet(c: Suite, s: State, priv: Key): State {
    var (root, chain) := c.KdfRoot(s.root, c.Dh(priv, s.dhRemote));
    s.(dhPrivate := priv, dhPublic := c.Pub(priv), root := root, sendChain := chain)
  }

  /** The state and the result of an operation. A failed operation may still have changed the state. */
  datatype Step<+T> = Step(state: State, result: Outcome<T>)

  datatype Sealed = Sealed(header: bytes, body: bytes)

  /** `nonce` is None when the cipher reports an error; the chain has advanced all the same. */
  function Encrypt(c: Suite, s: State, plain: bytes, nonce: Option<Nonce>): Step<Sealed> {
    var (chain, key) := c.KdfChain(s.sendChain);
    var s' := s.(sendChain := chain, sendNum := Increment(s.sendNum));
    if nonce.None? then Step(s', Err(Encryption))
    else Step(s', Ok(Sealed(EncodeHeader(Header(s.dhPublic, s.previousLen, s.sendNum)), c.Seal(plain, key, nonce.value))))
  }

  function Open(c: Suite, body: bytes, key: Key): Outcome<bytes> {
    match c.Open(body, key)
    case None => Err(Decryption)
    case Some(plain) => Ok(plain)
  }

  /** Use the stored key of this message if there is one, the next key of the receiving chain otherwise. */
  function UseKey(c: Suite, s: State, h: Header, body: bytes): Step<bytes> {
    var id := KeyId(h.dhPublic, h.num);
    if id in s.skipped then
      Step(s.(skipped := s.skipped - {id}), Open(c, body, s.skipped[id]))
    else
      var (chain, key) := c.KdfChain(s.recvChain);
      Step(s.(recvChain := chain, recvNum := Increment(s.recvNum)), Open(c, body, key))
  }

  /** RatchetDecrypt after the possible DH ratchet. */
  function DecryptInChain(c: Suite, s: State, h: Header, body: bytes): Step<bytes> {
    if h.num <= s.recvNum then UseKey(c, s, h, body)
    else
      match Skip(c, s, h.dhPublic, s.recvNum, h.num)
      case Err(e) => Step(s, Err(e))
      case Ok(filled) => UseKey(c, filled, h, body)
  }

  /** `gen` is the private key GenerateDHKeyPair would return now, None when it fails. */
  function Decrypt(c: Suite, s: State, header: bytes, body: bytes, gen: Option<Key>): Step<bytes> {
    var decoded := DecodeHeader(header);
    if decoded.None? then Step(s, Err(ShortHeader))
    else
      var h := decoded.value;
      if h.dhPublic == s.dhRemote then DecryptInChain(c, s, h, body)
      else
        var filled := Skip(c, s, s.dhRemote, s.recvNum, h.previousLen);
        if filled.Err? then Step(s, Err(filled.error))
        else
          var s1 := BeginRatchet(c, filled.value, h.dhPublic);
          if gen.None? then Step(s1, Err(KeyGeneration))
          else DecryptInChain(c, FinishRatchet(c, s1, gen.value), h, body)
  }

  // ---- What a call leaves alone ----

  /** RatchetEncrypt touches the sending chain and its counter only. */
  lemma EncryptKeepsReceiving(c: Suite, s: State, plain: bytes, nonce: Option<Nonce>)
    ensures var s' := Encrypt(c, s, plain, nonce).state; s'.(sendChain := s.sendChain, sendNum := s.sendNum) == s
  {
  }

  /** RatchetDecrypt on the chain being received, gap or no gap, error or not, touches the receiving side only. */
  lemma DecryptKeepsSending(c: Suite, s: State, header: bytes, body: bytes, gen: Option<Key>)
    requires DecodeHeader(header).Some? ==> DecodeHeader(header).value.dhPublic == s.dhRemote
    ensures var s' := Decrypt(c, s, header, body, gen).state;
            s'.(recvChain := s.recvChain, recvNum := s.recvNum, skipped := s.skipped) == s
  {
  }

  /**
   With another key the sending side and the keys become those of the DH ratchet, whatever the number of the message and
   whether or not it then decrypts; a refused gap changes nothing, and failed key generation leaves the sending chain.
   */
  lemma RatchetSetsSending(c: Suite, s: State, header: bytes, body: bytes, gen: Option<Key>)
    requires DecodeHeader(header).Some? && DecodeHeader(header).value.dhPublic != s.dhRemote
    ensures var h, s' := DecodeHeader(header).value, Decrypt(c, s, header, body, gen).state;
            var root := c.KdfRoot(s.root, c.Dh(s.dhPrivate, h.dhPublic)).0;
            if Gap(s.recvNum, h.previousLen) > MAX_SKIP then s' == s
            else
              && s'.dhRemote == h.dhPublic && s'.previousLen == s.sendNum && s'.sendNum == 0
              && match gen
                 case None =>
                   s'.root == root && s'.sendChain == s.sendChain && s'.dhPrivate == s.dhPrivate && s'.dhPublic == s.dhPublic
                 case Some(priv) =>
                   && (s'.root, s'.sendChain) == c.KdfRoot(root, c.Dh(priv, h.dhPublic))
                   && s'.dhPrivate == priv && s'.dhPublic == c.Pub(priv)
  {
  }

  // ---- The session object ----

  /** The mutable RatchetState; each method is proved against the function of the same name above. */
  class RatchetState {
    const suite: Suite
    var root: Key
    var sendChain: Key
    var sendNum: Counter
    var recvChain: Key
    var recvNum: Counter
    var dhPrivate: Key
    var dhPublic: Key
    var dhRemote: Key
    var previousLen: Counter
    var skipped: map<KeyId, Key>

    ghost function View(): State
      reads this
    {
      State(root, sendChain, sendNum, recvChain, recvNum, dhPrivate, dhPublic, dhRemote, previousLen, skipped)
    }

    constructor Initiator(c: Suite, secret: Key, remote: Key, priv: Key, public: Key)
      ensures suite == c && View() == NewInitiator(c, secret, remote, priv, public)
    {
      suite := c;
      dhPrivate, dhPublic, dhRemote := priv, public, remote;
      skipped := map[];
      var (newRoot, chain) := c.KdfRoot(secret, c.Dh(priv, remote));
      root, sendChain := newRoot, chain;
      recvChain, sendNum, recvNum, previousLen := ZERO_KEY, 0, 0, 0;
    }

    constructor Receiver(c: Suite, secret: Key, priv: Key, public: Key)
      ensures suite == c && View() == NewReceiver(secret, priv, public)
    {
      suite := c;
      dhPrivate, dhPublic, dhRemote := priv, public, ZERO_KEY;
      skipped := map[];
      root, sendChain, recvChain := secret, ZERO_KEY, ZERO_KEY;
      sendNum, recvNum, previousLen := 0, 0, 0;
    }

    method SkipMessageKeys(id: Key, from: Counter, to: Counter) returns (err: Option<Error>)
      modifies this`recvChain, this`skipped
      ensures match Skip(suite, old(View()), id, from, to)
              case Err(e) => err == Some(e) && View() == old(View())
              case Ok(s) => err == None && View() == s
    {
      if Gap(from, to) > MAX_SKIP {
        return Some(TooManySkipped);
      }
      var chainKey := recvChain;
      var i: Counter := from;
      while i < to
        invariant from <= i
        invariant ChainAt(suite, chainKey, if i <= to then to - i else 0)
                  == ChainAt(suite, recvChain, if from <= to then to - from else 0)
        invariant StoreKeys(suite, skipped, chainKey, id, i, to)
                  == StoreKeys(suite, old(skipped), recvChain, id, from, to)
        invariant recvChain == old(recvChain)
      {
        var (newChainKey, messageKey) := suite.KdfChain(chainKey);
        chainKey := newChainKey;
        skipped := skipped[KeyId(id, i) := messageKey];
        i := i + 1;
      }
      recvChain := chainKey;
      return None;
    }

    method DHRatchet(remote: Key, gen: Option<Key>) returns (err: Option<Error>)
      modifies this
      ensures gen.None? ==> err == Some(KeyGeneration) && View() == BeginRatchet(suite, old(View()), remote)
      ensures gen.Some? ==> err == None
                            && View() == FinishRatchet(suite, BeginRatchet(suite, old(View()), remote), gen.value)
    {
      previousLen := sendNum;
      sendNum := 0;
      recvNum := 0;
      dhRemote := remote;
      var (root1, newRecvChain) := suite.KdfRoot(root, suite.Dh(dhPrivate, dhRemote));
      root := root1;
      recvChain := newRecvChain;
      assert View() == BeginRatchet(suite, old(View()), remote);
      if gen.None? {
        return Some(KeyGeneration);
      }
      dhPrivate, dhPublic := gen.value, suite.Pub(gen.value);
      var (root2, newSendChain) := suite.KdfRoot(root, suite.Dh(dhPrivate, dhRemote));
      root := root2;
      sendChain := newSendChain;
      return None;
    }

    method RatchetEncrypt(plain: bytes, nonce: Option<Nonce>) returns (r: Outcome<Sealed>)
      modifies this`sendChain, this`sendNum
      ensures Step(View(), r) == Encrypt(suite, old(View()), plain, nonce)
    {
      var (newChainKey, messageKey) := suite.KdfChain(sendChain);
      sendChain := newChainKey;
      var header := Header(dhPublic, previousLen, sendNum);
      sendNum := Increment(sendNum);
      if nonce.None? {
        return Err(Encryption);
      }
      return Ok(Sealed(EncodeHeader(header), suite.Seal(plain, messageKey, nonce.value)));
    }

    method RatchetDecrypt(headerBytes: bytes, body: bytes, gen: Option<Key>) returns (r: Outcome<bytes>)
      modifies this
      ensures Step(View(), r) == Decrypt(suite, old(View()), headerBytes, body, gen)
    {
      var decoded := DecodeHeader(headerBytes);
      if decoded.None? {
        return Err(ShortHeader);
      }
      var header := decoded.value;
      if header.dhPublic != dhRemote {
        var err := SkipMessageKeys(dhRemote, recvNum, header.previousLen);
        if err.Some? {
          return Err(err.value);
        }
        err := DHRatchet(header.dhPublic, gen);
        if err.Some? {
          return Err(err.value);
        }
      }
      if header.num > recvNum {
        var err := SkipMessageKeys(header.dhPublic, recvNum, header.num);
        if err.Some? {
          return Err(err.value);
        }
      }
      var id := KeyId(header.dhPublic, header.num);
      if id in skipped {
        var messageKey := skipped[id];
        skipped := skipped - {id};
        r := Open(suite, body, messageKey);
        return;
      }
      var (newChainKey, messageKey) := suite.KdfChain(recvChain);
      recvChain := newChainKey;
      recvNum := Increment(recvNum);
      r := Open(suite, body, messageKey);
    }
  }
}
