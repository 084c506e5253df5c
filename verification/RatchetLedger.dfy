/**
 Which chain, and which position on it, every key of a session was read from: an account kept along every run of
 RatchetEncrypt and RatchetDecrypt, whatever headers arrive and whenever key generation fails.
 */
module RatchetLedger {
  import opened Bytes
  import opened Ratchet

  /** The message key of the chain that began at `start`, after `steps` steps of KDF_CK. */
  datatype Origin = Origin(start: Key, steps: nat)

  /**
   Where the current receiving chain began, the total width of the gaps SkipMessageKeys has filled on it, how often its
   counter has wrapped, and the origin of every stored key.
   */
  datatype Ledger = Ledger(start: Key, gaps: nat, wraps: nat, stored: map<KeyId, Origin>) {
    /** How far the chain has run ahead of ReceivingMsgNum. */
    function Ahead(): nat { gaps + wraps * U32 }
  }

  ghost predicate ChainAccounted(c: Suite, s: State, l: Ledger) {
    s.recvChain == ChainAt(c, l.start, s.recvNum + l.Ahead())
  }

  ghost predicate StoreAccounted(c: Suite, skipped: map<KeyId, Key>, stored: map<KeyId, Origin>) {
    && skipped.Keys == stored.Keys
    && forall k :: k in stored ==> skipped[k] == MessageKeyAt(c, stored[k].start, stored[k].steps)
  }

  /** KDF_CK steps taken equal ReceivingMsgNum plus the gaps filled, and every stored key is where the ledger says. */
  ghost predicate Accounted(c: Suite, s: State, l: Ledger) {
    ChainAccounted(c, s, l) && StoreAccounted(c, s.skipped, l.stored)
  }

  // ---- How a call changes the account ----

  /** SkipMessageKeys from the counter to `to`, once its width test has passed. */
  ghost function Fill(l: Ledger, id: Key, count: Counter, to: Counter): Ledger {
    if to <= count then l
    else Ledger(l.start, l.gaps + (to - count), l.wraps,
                l.stored + map i: Counter | count <= i < to :: KeyId(id, i) := Origin(l.start, l.Ahead() + i))
  }

  /** The key used for a message once the gap before it is filled, and the account after that. */
  ghost function Take(l: Ledger, count: Counter, id: KeyId): (Ledger, Origin) {
    if id in l.stored then (l.(stored := l.stored - {id}), l.stored[id])
    else (if count + 1 == U32 then l.(wraps := l.wraps + 1) else l, Origin(l.start, count + l.Ahead()))
  }

  /** RatchetDecrypt after the possible DH ratchet: the new account, and the origin of the key used, if one is. */
  ghost function InChain(l: Ledger, count: Counter, h: Header): (Ledger, Option<Origin>) {
    if h.num > count + MAX_SKIP then (l, None)
    else
      var (l', origin) := Take(Fill(l, h.dhPublic, count, h.num), count, KeyId(h.dhPublic, h.num));
      (l', Some(origin))
  }

  /** RatchetDecrypt: a DH ratchet closes the account of the chain it leaves and opens one with no gap. */
  ghost function Account(c: Suite, s: State, l: Ledger, header: bytes, gen: Option<Key>): (Ledger, Option<Origin>) {
    match DecodeHeader(header)
    case None => (l, None)
    case Some(h) =>
      if h.dhPublic == s.dhRemote then InChain(l, s.recvNum, h)
      else if Gap(s.recvNum, h.previousLen) > MAX_SKIP then (l, None)
      else
        var begun := Ledger(c.KdfRoot(s.root, c.Dh(s.dhPrivate, h.dhPublic)).1, 0, 0,
                             Fill(l, s.dhRemote, s.recvNum, h.previousLen).stored);
        if gen.None? then (begun, None) else InChain(begun, 0, h)
  }

  // ---- The account is right ----

  lemma FillAt(l: Ledger, id: Key, count: Counter, to: Counter, k: KeyId)
    ensures var q := Fill(l, id, count, to).stored;
            if k.dhPublic == id && count <= k.num < to then k in q && q[k] == Origin(l.start, l.Ahead() + k.num)
            else (k in q <==> k in l.stored) && (k in q ==> q[k] == l.stored[k])
  {
    if k.dhPublic == id && count <= k.num < to {
      assert k == KeyId(id, k.num);
    }
  }

  lemma FillStores(c: Suite, s: State, l: Ledger, id: Key, to: Counter, k: KeyId)
    requires Accounted(c, s, l)
    ensures var m, q := StoreKeys(c, s.skipped, s.recvChain, id, s.recvNum, to), Fill(l, id, s.recvNum, to).stored;
            (k in m <==> k in q) && (k in q ==> m[k] == MessageKeyAt(c, q[k].start, q[k].steps))
  {
    if k.dhPublic == id && s.recvNum <= k.num < to {
      NewlyStored(c, s, l, id, to, k.num);
    } else {
      StoredKeys(c, s.skipped, s.recvChain, id, s.recvNum, to, k);
      FillAt(l, id, s.recvNum, to, k);
    }
  }

  lemma NewlyStored(c: Suite, s: State, l: Ledger, id: Key, to: Counter, n: Counter)
    requires ChainAccounted(c, s, l) && s.recvNum <= n < to
    ensures var m, q := StoreKeys(c, s.skipped, s.recvChain, id, s.recvNum, to), Fill(l, id, s.recvNum, to).stored;
            var k := KeyId(id, n);
            k in m && k in q && m[k] == MessageKeyAt(c, q[k].start, q[k].steps)
  {
    StoredKeys(c, s.skipped, s.recvChain, id, s.recvNum, to, KeyId(id, n));
    FillAt(l, id, s.recvNum, to, KeyId(id, n));
    KeyFromHere(c, s, l, n);
  }

  /** Counting from where the chain stands is counting from where it began. */
  lemma KeyFromHere(c: Suite, s: State, l: Ledger, n: Counter)
    requires ChainAccounted(c, s, l) && s.recvNum <= n
    ensures MessageKeyAt(c, s.recvChain, n - s.recvNum) == MessageKeyAt(c, l.start, l.Ahead() + n)
  {
    ChainSplit(c, l.start, s.recvNum + l.Ahead(), n - s.recvNum);
    assert s.recvNum + l.Ahead() + (n - s.recvNum) == l.Ahead() + n;
  }

  lemma FillAccounted(c: Suite, s: State, l: Ledger, id: Key, to: Counter)
    requires Accounted(c, s, l) && Skip(c, s, id, s.recvNum, to).Ok?
    ensures Accounted(c, Skip(c, s, id, s.recvNum, to).value, Fill(l, id, s.recvNum, to))
  {
    forall k: KeyId {
      FillStores(c, s, l, id, to, k);
    }
    if s.recvNum < to {
      ChainSplit(c, l.start, s.recvNum + l.Ahead(), to - s.recvNum);
    }
  }

  lemma TakeAccounted(c: Suite, s: State, l: Ledger, h: Header, body: bytes)
    requires Accounted(c, s, l)
    ensures var (l', o) := Take(l, s.recvNum, KeyId(h.dhPublic, h.num));
            var step := UseKey(c, s, h, body);
            Accounted(c, step.state, l') && step.result == Open(c, body, MessageKeyAt(c, o.start, o.steps))
  {
    ChainSuccessor(c, l.start, s.recvNum + l.Ahead());
  }

  /** The outcome of a call whose key has this origin; without a key the call failed before it came to decrypt. */
  ghost predicate OpenedWith(c: Suite, result: Outcome<bytes>, body: bytes, origin: Option<Origin>) {
    match origin
    case Some(o) => result == Open(c, body, MessageKeyAt(c, o.start, o.steps))
    case None => result in [Err(ShortHeader), Err(TooManySkipped), Err(KeyGeneration)]
  }

  lemma InChainAccounted(c: Suite, s: State, l: Ledger, h: Header, body: bytes)
    requires Accounted(c, s, l)
    ensures var (l', o) := InChain(l, s.recvNum, h);
            var step := DecryptInChain(c, s, h, body);
            Accounted(c, step.state, l') && OpenedWith(c, step.result, body, o)
  {
    if h.num <= s.recvNum {
      TakeAccounted(c, s, l, h, body);
    } else if h.num <= s.recvNum + MAX_SKIP {
      FillAccounted(c, s, l, h.dhPublic, h.num);
      TakeAccounted(c, Skip(c, s, h.dhPublic, s.recvNum, h.num).value, Fill(l, h.dhPublic, s.recvNum, h.num), h, body);
    }
  }

  /**
   A DH ratchet resets counter and gaps, both after its first half and when it is complete, and keeps the stored keys.
   That holds for every remote key, one under which keys are stored included.
   */
  lemma RatchetResets(c: Suite, s: State, l: Ledger, remote: Key, priv: Key)
    requires StoreAccounted(c, s.skipped, l.stored)
    ensures var s1 := BeginRatchet(c, s, remote);
            var s2 := FinishRatchet(c, s1, priv);
            && s1.recvNum == s2.recvNum == 0
            && Accounted(c, s1, Ledger(s1.recvChain, 0, 0, l.stored))
            && Accounted(c, s2, Ledger(s1.recvChain, 0, 0, l.stored))
  {
  }

  /** One call of RatchetDecrypt, on any path: the account stays right and names the key that was used. */
  lemma DecryptAccounted(c: Suite, s: State, l: Ledger, header: bytes, body: bytes, gen: Option<Key>)
    requires Accounted(c, s, l)
    ensures var (l', o) := Account(c, s, l, header, gen);
            var step := Decrypt(c, s, header, body, gen);
            Accounted(c, step.state, l') && OpenedWith(c, step.result, body, o)
  {
    var decoded := DecodeHeader(header);
    if decoded.Some? {
      var h := decoded.value;
      if h.dhPublic == s.dhRemote {
        InChainAccounted(c, s, l, h, body);
      } else if Gap(s.recvNum, h.previousLen) <= MAX_SKIP {
        RatchetAccounted(c, s, l, h, body, gen);
      }
    }
  }

  /** The path through the DH ratchet, which may fail half way. */
  lemma RatchetAccounted(c: Suite, s: State, l: Ledger, h: Header, body: bytes, gen: Option<Key>)
    requires Accounted(c, s, l) && Gap(s.recvNum, h.previousLen) <= MAX_SKIP
    ensures var f := Fill(l, s.dhRemote, s.recvNum, h.previousLen);
            var s1 := BeginRatchet(c, Skip(c, s, s.dhRemote, s.recvNum, h.previousLen).value, h.dhPublic);
            var l1 := Ledger(c.KdfRoot(s.root, c.Dh(s.dhPrivate, h.dhPublic)).1, 0, 0, f.stored);
            && Accounted(c, s1, l1)
            && (gen.Some? ==>
                  var (l', o) := InChain(l1, 0, h);
                  var step := DecryptInChain(c, FinishRatchet(c, s1, gen.value), h, body);
                  Accounted(c, step.state, l') && OpenedWith(c, step.result, body, o))
  {
    FillAccounted(c, s, l, s.dhRemote, h.previousLen);
    var f := Fill(l, s.dhRemote, s.recvNum, h.previousLen);
    var s0 := Skip(c, s, s.dhRemote, s.recvNum, h.previousLen).value;
    var s1 := BeginRatchet(c, s0, h.dhPublic);
    if gen.Some? {
      RatchetResets(c, s0, f, h.dhPublic, gen.value);
      InChainAccounted(c, FinishRatchet(c, s1, gen.value), Ledger(s1.recvChain, 0, 0, f.stored), h, body);
    }
  }

  // ---- Whole runs ----

  datatype Call =
    | Encrypting(plain: bytes, nonce: Option<Nonce>)
    | Decrypting(header: bytes, body: bytes, gen: Option<Key>)

  function Called(c: Suite, s: State, call: Call): State {
    match call
    case Encrypting(plain, nonce) => Encrypt(c, s, plain, nonce).state
    case Decrypting(header, body, gen) => Decrypt(c, s, header, body, gen).state
  }

  function Run(c: Suite, s: State, calls: seq<Call>): State
    decreases |calls|
  {
    if calls == [] then s else Run(c, Called(c, s, calls[0]), calls[1..])
  }

  ghost function NextLedger(c: Suite, s: State, l: Ledger, call: Call): Ledger {
    match call
    case Encrypting(_, _) => l
    case Decrypting(header, _, gen) => Account(c, s, l, header, gen).0
  }

  ghost function RunLedger(c: Suite, s: State, l: Ledger, calls: seq<Call>): Ledger
    decreases |calls|
  {
    if calls == [] then l else RunLedger(c, Called(c, s, calls[0]), NextLedger(c, s, l, calls[0]), calls[1..])
  }

  /** Every RatchetDecrypt of the run used the key the account names. */
  ghost predicate AllOpened(c: Suite, s: State, l: Ledger, calls: seq<Call>)
    decreases |calls|
  {
    calls == [] ||
    (&& (match calls[0]
         case Encrypting(_, _) => true
         case Decrypting(header, body, gen) =>
           OpenedWith(c, Decrypt(c, s, header, body, gen).result, body, Account(c, s, l, header, gen).1))
     && AllOpened(c, Called(c, s, calls[0]), NextLedger(c, s, l, calls[0]), calls[1..]))
  }

  /**
   Chain position accounting, over every run of a session: with any headers, bodies and key generation failures, the
   steps taken on the receiving chain equal ReceivingMsgNum plus the gaps filled on it (and 2^32 for each wrap), and
   every message was opened with the key the account names.
   */
  lemma {:induction false} RunAccounted(c: Suite, s: State, l: Ledger, calls: seq<Call>)
    requires Accounted(c, s, l)
    ensures Accounted(c, Run(c, s, calls), RunLedger(c, s, l, calls)) && AllOpened(c, s, l, calls)
    decreases |calls|
  {
    if calls != [] {
      match calls[0] {
        case Encrypting(_, _) =>
        case Decrypting(header, body, gen) => DecryptAccounted(c, s, l, header, body, gen);
      }
      RunAccounted(c, Called(c, s, calls[0]), NextLedger(c, s, l, calls[0]), calls[1..]);
    }
  }

  /** New sessions start an account with nothing in it. */
  lemma NewAccounted(c: Suite, secret: Key, remote: Key, priv: Key, public: Key)
    ensures Accounted(c, NewInitiator(c, secret, remote, priv, public), Ledger(ZERO_KEY, 0, 0, map[]))
    ensures Accounted(c, NewReceiver(secret, priv, public), Ledger(ZERO_KEY, 0, 0, map[]))
  {
  }

  // ---- Late messages of a chain already left ----

  /**
   A late message of another chain whose key is stored is opened with that key, yet the receiver ratchets back: the old
   key becomes the remote key, root and key pair are replaced, and every key stored for the lower numbers of that chain
   is overwritten with keys of a chain derived from the current root. Beyond MAX_SKIP the receiver ratchets back and then
   reports an error, and so it does, half way, when key generation fails; only a refused gap in the chain it leaves keeps
   it where it is.
   */
  lemma LateRatchetsBack(c: Suite, s: State, header: bytes, body: bytes, gen: Option<Key>)
    requires DecodeHeader(header).Some?
    requires var h := DecodeHeader(header).value; h.dhPublic != s.dhRemote && KeyId(h.dhPublic, h.num) in s.skipped
    ensures var h := DecodeHeader(header).value;
            var step := Decrypt(c, s, header, body, gen);
            if Gap(s.recvNum, h.previousLen) > MAX_SKIP then step == Step(s, Err(TooManySkipped))
            else
              var (root, chain) := c.KdfRoot(s.root, c.Dh(s.dhPrivate, h.dhPublic));
              && step.state.dhRemote == h.dhPublic && step.state.recvNum == 0
              && match gen
                 case None =>
                   && step.result == Err(KeyGeneration) && step.state.root == root && step.state.recvChain == chain
                   && step.state.dhPrivate == s.dhPrivate && step.state.dhPublic == s.dhPublic
                 case Some(priv) =>
                   && step.state.dhPrivate == priv && step.state.dhPublic == c.Pub(priv)
                   && step.state.root == c.KdfRoot(root, c.Dh(priv, h.dhPublic)).0
                   && if h.num > MAX_SKIP then step.result == Err(TooManySkipped)
                      else step.result == Open(c, body, s.skipped[KeyId(h.dhPublic, h.num)])
                           && Overwritten(c, step.state.skipped, h, chain)
  {
    var h := DecodeHeader(header).value;
    if Gap(s.recvNum, h.previousLen) <= MAX_SKIP && gen.Some? {
      var s0 := Skip(c, s, s.dhRemote, s.recvNum, h.previousLen).value;
      var s2 := FinishRatchet(c, BeginRatchet(c, s0, h.dhPublic), gen.value);
      StoredKeys(c, s.skipped, s.recvChain, s.dhRemote, s.recvNum, h.previousLen, KeyId(h.dhPublic, h.num));
      forall i: Counter {
        StoredKeys(c, s2.skipped, s2.recvChain, h.dhPublic, 0, h.num, KeyId(h.dhPublic, i));
      }
    }
  }

  /** A message of a chain other than the current one, without a stored key, is opened with a key derived from the root. */
  lemma OtherChainFromRoot(c: Suite, s: State, header: bytes, body: bytes, gen: Key)
    requires DecodeHeader(header).Some?
    requires var h := DecodeHeader(header).value;
             && h.dhPublic != s.dhRemote && KeyId(h.dhPublic, h.num) !in s.skipped
             && Gap(s.recvNum, h.previousLen) <= MAX_SKIP && h.num <= MAX_SKIP
    ensures var h := DecodeHeader(header).value;
            Decrypt(c, s, header, body, Some(gen)).result
            == Open(c, body, MessageKeyAt(c, c.KdfRoot(s.root, c.Dh(s.dhPrivate, h.dhPublic)).1, h.num))
  {
    var h := DecodeHeader(header).value;
    var s0 := Skip(c, s, s.dhRemote, s.recvNum, h.previousLen).value;
    var s2 := FinishRatchet(c, BeginRatchet(c, s0, h.dhPublic), gen);
    StoredKeys(c, s.skipped, s.recvChain, s.dhRemote, s.recvNum, h.previousLen, KeyId(h.dhPublic, h.num));
    StoredKeys(c, s2.skipped, s2.recvChain, h.dhPublic, 0, h.num, KeyId(h.dhPublic, h.num));
  }

  /**
   One delayed message puts the session out of step: after it, every further message of the chain just left whose key is
   not stored is opened with a key derived from the replaced root and the new key pair.
   */
  lemma LateDesynchronises(c: Suite, s: State, late: bytes, lateBody: bytes, gen: Key, header: bytes, body: bytes, gen2: Key)
    requires DecodeHeader(late).Some? && DecodeHeader(header).Some?
    requires var h := DecodeHeader(late).value;
             && h.dhPublic != s.dhRemote && KeyId(h.dhPublic, h.num) in s.skipped
             && Gap(s.recvNum, h.previousLen) <= MAX_SKIP && h.num <= MAX_SKIP
    requires var h, s' := DecodeHeader(header).value, Decrypt(c, s, late, lateBody, Some(gen)).state;
             && h.dhPublic == s.dhRemote && KeyId(h.dhPublic, h.num) !in s'.skipped
             && h.previousLen <= MAX_SKIP && h.num <= MAX_SKIP
    ensures var h, s' := DecodeHeader(header).value, Decrypt(c, s, late, lateBody, Some(gen)).state;
            && s'.root == c.KdfRoot(c.KdfRoot(s.root, c.Dh(s.dhPrivate, DecodeHeader(late).value.dhPublic)).0,
                                    c.Dh(gen, DecodeHeader(late).value.dhPublic)).0
            && Decrypt(c, s', header, body, Some(gen2)).result
               == Open(c, body, MessageKeyAt(c, c.KdfRoot(s'.root, c.Dh(gen, s.dhRemote)).1, h.num))
  {
    LateRatchetsBack(c, s, late, lateBody, Some(gen));
    OtherChainFromRoot(c, Decrypt(c, s, late, lateBody, Some(gen)).state, header, body, gen2);
  }

  /** The key of the message is used up, and those of the lower numbers are the first keys of `chain`. */
  ghost predicate Overwritten(c: Suite, skipped: map<KeyId, Key>, h: Header, chain: Key) {
    && KeyId(h.dhPublic, h.num) !in skipped
    && forall i: Counter :: i < h.num ==>
         KeyId(h.dhPublic, i) in skipped && skipped[KeyId(h.dhPublic, i)] == MessageKeyAt(c, chain, i)
  }
}
