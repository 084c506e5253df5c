/** Onion layers of pkg/crypto/onion.go: building inside out, peeling in path order. */
module Onion {
  import opened Bytes

  /** A key as GenerateAESKey makes it. */
  type AesKey = s: bytes | |s| == 32 witness Zeros(32)

  /** One decrypted layer. */
  datatype Layer = Layer(nextHop: Address, payload: bytes, payloadHash: bytes)

  /** RSA, AES-GCM, JSON and BLAKE2b, as functions; the random inputs of encryption are arguments. */
  datatype Ciphers = Ciphers(
    public: bytes -> bytes,
    rsaEncrypt: (AesKey, bytes, bytes) -> bytes,
    rsaDecrypt: (bytes, bytes) -> Option<bytes>,
    aesEncrypt: (bytes, AesKey, Nonce) -> bytes,
    aesDecrypt: (bytes, bytes) -> Option<bytes>,
    marshal: Layer -> bytes,
    unmarshal: bytes -> Option<Layer>,
    digest: bytes -> bytes)
  {
    function Pub(priv: bytes): bytes { public(priv) }

    function Wrap(key: AesKey, pub: bytes, random: bytes): bytes { rsaEncrypt(key, pub, random) }

    function Unwrap(box: bytes, priv: bytes): Option<bytes> { rsaDecrypt(box, priv) }

    function Seal(plain: bytes, key: AesKey, nonce: Nonce): bytes { aesEncrypt(plain, key, nonce) }

    function Open(box: bytes, key: bytes): Option<bytes> { aesDecrypt(box, key) }

    function ToJson(l: Layer): bytes { marshal(l) }

    function FromJson(text: bytes): Option<Layer> { unmarshal(text) }

    function Hash(data: bytes): bytes { digest(data) }

    /** Decryption inverts encryption, and JSON decoding inverts encoding. */
    ghost predicate Lawful() {
      && (forall k: AesKey, p, r :: Unwrap(Wrap(k, Pub(p), r), p) == Some(k))
      && (forall m, k: AesKey, n :: Open(Seal(m, k, n), k) == Some(m))
      && (forall l :: FromJson(ToJson(l)) == Some(l))
    }
  }

  datatype RelayInfo = RelayInfo(address: Address, pub: bytes)

  /** The AES key, the GCM nonce and the RSA randomness drawn for one layer. */
  datatype Draw = Draw(aesKey: AesKey, nonce: Nonce, random: bytes)

  datatype Error = EmptyPath | CipherFailed | TooShort | Incomplete | SliceOutOfRange | KeyUnreadable | DataUnreadable | InvalidLayer | HashMismatch

  datatype Result<+T> = Ok(value: T) | Err(error: Error)

  // ---- The laws can be met ----

  /** The length of the payload in unary, then payload and hash: a stand-in for JSON without bounds. */
  function Write(l: Layer): bytes {
    l.nextHop + (Ones(|l.payload|) + ([0] + (l.payload + l.payloadHash)))
  }

  function Ones(n: nat): (r: bytes)
    ensures |r| == n
  {
    if n == 0 then [] else [1] + Ones(n - 1)
  }

  function CountOnes(s: bytes): (n: nat)
    ensures n <= |s|
  {
    if s == [] || s[0] != 1 then 0 else 1 + CountOnes(s[1..])
  }

  function Read(text: bytes): Option<Layer> {
    if |text| < 20 then None
    else
      var n := CountOnes(text[20..]);
      var rest := text[20..][n..];
      if |rest| < 1 + n then None else Some(Layer(text[..20], rest[1..1 + n], rest[1 + n..]))
  }

  lemma {:induction false} CountsOnes(n: nat, rest: bytes)
    requires rest != [] && rest[0] != 1
    ensures CountOnes(Ones(n) + rest) == n
  {
    if n == 0 {
      assert [] + rest == rest;
    } else {
      CountsOnes(n - 1, rest);
      assert ([1] + Ones(n - 1) + rest)[1..] == Ones(n - 1) + rest;
    }
  }

  lemma ReadWrite(l: Layer)
    ensures Read(Write(l)) == Some(l)
  {
    var n, tail := |l.payload|, [0] + (l.payload + l.payloadHash);
    assert Write(l)[..20] == l.nextHop && Write(l)[20..] == Ones(n) + tail;
    CountsOnes(n, tail);
    assert (Ones(n) + tail)[n..] == tail;
    assert tail[1..1 + n] == l.payload && tail[1 + n..] == l.payloadHash;
  }

  /** Ciphers with the laws, which protect nothing. */
  lemma SomeCiphersAreLawful() returns (s: Ciphers)
    ensures s.Lawful()
  {
    s := Ciphers(p => p, (k, p, r) => k, (b, p) => Some(b), (m, k, n) => m, (b, k) => Some(b), l => Write(l), t => Read(t), d => []);
    forall l: Layer
      ensures s.FromJson(s.ToJson(l)) == Some(l)
    {
      ReadWrite(l);
    }
  }

  // ---- The box around a layer ----

  /** Key length as a uint16, then the encrypted key, then the encrypted data. */
  function Combine(key: bytes, data: bytes): bytes {
    BigEndian(|key|, 2) + key + data
  }

  /** The cut Go makes: `2 + keyLen` is computed in uint16 before it is used as an index. */
  function Separate(box: bytes): Result<(bytes, bytes)> {
    if |box| < 2 then Err(TooShort) else CutAt(box, (2 + Value(box[..2])) % U16)
  }

  function CutAt(box: bytes, end: nat): Result<(bytes, bytes)> {
    if |box| < end then Err(Incomplete)
    else if end < 2 then Err(SliceOutOfRange)
    else Ok((box[2..end], box[end..]))
  }

  lemma LowByte(n: nat)
    ensures Value(BigEndian(n, 1)) == n % 256
  {
    ByteRoundTrip(n % 256);
    var s := BigEndian(n, 1);
    assert s[..0] == [];
  }

  lemma TwoDigits(n: nat)
    ensures ((n / 256) % 256) * 256 + n % 256 == n % U16
  {
    var q, r := n / U16, n % U16;
    assert n / 256 == 256 * q + r / 256;
  }

  lemma LowSixteenBits(n: nat)
    ensures Value(BigEndian(n, 2)) == n % U16
  {
    var s := BigEndian(n, 2);
    assert s[..1] == BigEndian(n / 256, 1);
    LowByte(n / 256);
    ByteRoundTrip(n % 256);
    TwoDigits(n);
  }

  lemma CombinedParts(key: bytes, data: bytes)
    ensures var box := Combine(key, data);
            && |box| == 2 + |key| + |data| && Value(box[..2]) == |key| % U16
            && box[2..2 + |key|] == key && box[2 + |key|..] == data
  {
    LowSixteenBits(|key|);
    assert Combine(key, data)[..2] == BigEndian(|key|, 2);
  }

  lemma EndOfKey(n: nat)
    ensures n <= 65533 ==> (2 + n % U16) % U16 == 2 + n
    ensures n > 65533 ==> (2 + n % U16) % U16 < 2 + n
  {
  }

  /** Cutting at the right place, and only there, gives the two parts. */
  lemma CutAtEnd(key: bytes, data: bytes, end: nat)
    requires end <= 2 + |key|
    ensures CutAt(Combine(key, data), end) == Ok((key, data)) <==> end == 2 + |key|
  {
    CombinedParts(key, data);
    if end != 2 + |key| && CutAt(Combine(key, data), end).Ok? {
      assert |CutAt(Combine(key, data), end).value.0| == end - 2;
    }
  }

  /** The two parts come back exactly when the encrypted key is at most 65533 bytes long. */
  lemma SeparateCombine(key: bytes, data: bytes)
    ensures Separate(Combine(key, data)) == Ok((key, data)) <==> |key| <= 65533
  {
    CombinedParts(key, data);
    EndOfKey(|key|);
    CutAtEnd(key, data, (2 + |key| % U16) % U16);
  }

  // ---- Layers ----

  function SealLayer(s: Ciphers, pub: bytes, hop: Address, payload: bytes, d: Draw): bytes {
    Combine(s.Wrap(d.aesKey, pub, d.random), s.Seal(s.ToJson(Layer(hop, payload, s.Hash(payload))), d.aesKey, d.nonce))
  }

  /** DecryptOnionLayer. */
  function Peel(s: Ciphers, box: bytes, priv: bytes): Result<Layer> {
    match Separate(box)
    case Err(e) => Err(e)
    case Ok((key, data)) =>
      match s.Unwrap(key, priv)
      case None => Err(KeyUnreadable)
      case Some(aesKey) =>
        match s.Open(data, aesKey)
        case None => Err(DataUnreadable)
        case Some(text) =>
          match s.FromJson(text)
          case None => Err(InvalidLayer)
          case Some(layer) => if s.Hash(layer.payload) == layer.payloadHash then Ok(layer) else Err(HashMismatch)
  }

  lemma PeelSeal(s: Ciphers, priv: bytes, hop: Address, payload: bytes, d: Draw)
    requires s.Lawful() && |s.Wrap(d.aesKey, s.Pub(priv), d.random)| <= 65533
    ensures Peel(s, SealLayer(s, s.Pub(priv), hop, payload, d), priv) == Ok(Layer(hop, payload, s.Hash(payload)))
  {
    var key := s.Wrap(d.aesKey, s.Pub(priv), d.random);
    var layer := Layer(hop, payload, s.Hash(payload));
    SeparateCombine(key, s.Seal(s.ToJson(layer), d.aesKey, d.nonce));
    assert s.Unwrap(key, priv) == Some(d.aesKey);
  }

  /** A layer is handed out only if its payload has the hash it announces. */
  lemma PeelChecksHash(s: Ciphers, box: bytes, priv: bytes)
    ensures var r := Peel(s, box, priv); r.Ok? ==> r.value.payloadHash == s.Hash(r.value.payload)
  {
  }

  /** A layer sealed with another hash than its payload's is refused. */
  lemma WrongHashRefused(s: Ciphers, priv: bytes, layer: Layer, d: Draw)
    requires s.Lawful() && |s.Wrap(d.aesKey, s.Pub(priv), d.random)| <= 65533 && layer.payloadHash != s.Hash(layer.payload)
    ensures Peel(s, Combine(s.Wrap(d.aesKey, s.Pub(priv), d.random), s.Seal(s.ToJson(layer), d.aesKey, d.nonce)), priv)
            == Err(HashMismatch)
  {
    var key := s.Wrap(d.aesKey, s.Pub(priv), d.random);
    SeparateCombine(key, s.Seal(s.ToJson(layer), d.aesKey, d.nonce));
    assert s.Unwrap(key, priv) == Some(d.aesKey);
  }

  // ---- The whole onion ----

  /** Where hop `i` sends: the next relay, or the recipient after the last. */
  function NextHop(path: seq<RelayInfo>, recipient: Address, i: nat): Address
    requires i < |path|
  {
    if i == |path| - 1 then recipient else path[i + 1].address
  }

  /** The onion as seen by hop `i`; beyond the last hop it is the payload itself. */
  function OnionFrom(s: Ciphers, path: seq<RelayInfo>, recipient: Address, payload: bytes, ds: seq<Draw>, i: nat): bytes
    requires i <= |path| == |ds|
    decreases |path| - i
  {
    if i == |path| then payload
    else SealLayer(s, path[i].pub, NextHop(path, recipient, i), OnionFrom(s, path, recipient, payload, ds, i + 1), ds[i])
  }

  /** The draws, when none of them failed. */
  function Drawn(ds: seq<Option<Draw>>): seq<Draw>
    requires None !in ds
  {
    seq(|ds|, i requires 0 <= i < |ds| => assert ds[i] in ds; ds[i].value)
  }

  /**
   BuildOnionLayers: a reverse loop that wraps the current payload for one relay after the other. A draw is None where the
   random source, the cipher or the RSA encryption of that layer fails.
   */
  method BuildOnionLayers(s: Ciphers, path: seq<RelayInfo>, recipient: Address, payload: bytes, ds: seq<Option<Draw>>)
    returns (r: Result<bytes>)
    requires |ds| == |path|
    ensures r == if path == [] then Err(EmptyPath)
                 else if None in ds then Err(CipherFailed)
                 else Ok(OnionFrom(s, path, recipient, payload, Drawn(ds), 0))
  {
    if |path| == 0 {
      return Err(EmptyPath);
    }
    var current := payload;
    for i := |path| downto 0
      invariant forall k :: i <= k < |ds| ==> ds[k].Some?
      invariant None !in ds ==> current == OnionFrom(s, path, recipient, payload, Drawn(ds), i)
    {
      if ds[i].None? {
        return Err(CipherFailed);
      }
      var d := ds[i].value;
      var hop := if i == |path| - 1 then recipient else path[i + 1].address;
      var layer := Layer(hop, current, s.Hash(current));
      var encryptedData := s.Seal(s.ToJson(layer), d.aesKey, d.nonce);
      var encryptedKey := s.Wrap(d.aesKey, path[i].pub, d.random);
      current := BigEndian(|encryptedKey|, 2) + encryptedKey + encryptedData;
    }
    return Ok(current);
  }

  /** The relays hold the private keys of the path, and every encrypted key fits its length field. */
  ghost predicate Fits(s: Ciphers, path: seq<RelayInfo>, privs: seq<bytes>, ds: seq<Draw>) {
    |path| == |privs| == |ds| && forall i :: 0 <= i < |path| ==>
      path[i].pub == s.Pub(privs[i]) && |s.Wrap(ds[i].aesKey, path[i].pub, ds[i].random)| <= 65533
  }

  /** Hop `i` finds the next address and the onion for the next hop. */
  lemma PeelOne(s: Ciphers, path: seq<RelayInfo>, recipient: Address, payload: bytes, privs: seq<bytes>, ds: seq<Draw>, i: nat)
    requires s.Lawful() && Fits(s, path, privs, ds) && i < |path|
    ensures var inner := OnionFrom(s, path, recipient, payload, ds, i + 1);
            Peel(s, OnionFrom(s, path, recipient, payload, ds, i), privs[i])
            == Ok(Layer(NextHop(path, recipient, i), inner, s.Hash(inner)))
  {
    PeelSeal(s, privs[i], NextHop(path, recipient, i), OnionFrom(s, path, recipient, payload, ds, i + 1), ds[i]);
  }

  /** Peel with each key in turn: the hops announced, and what is left at the end. */
  function PeelAll(s: Ciphers, box: bytes, privs: seq<bytes>): Result<(seq<Address>, bytes)>
    decreases |privs|
  {
    if privs == [] then Ok(([], box))
    else
      match Peel(s, box, privs[0])
      case Err(e) => Err(e)
      case Ok(layer) =>
        match PeelAll(s, layer.payload, privs[1..])
        case Err(e) => Err(e)
        case Ok((hops, rest)) => Ok(([layer.nextHop] + hops, rest))
  }

  function Addresses(path: seq<RelayInfo>): seq<Address> {
    seq(|path|, i requires 0 <= i < |path| => path[i].address)
  }

  lemma {:induction false} PeelFrom(s: Ciphers, path: seq<RelayInfo>, recipient: Address, payload: bytes, privs: seq<bytes>,
                                    ds: seq<Draw>, i: nat)
    requires s.Lawful() && Fits(s, path, privs, ds) && i < |path|
    ensures PeelAll(s, OnionFrom(s, path, recipient, payload, ds, i), privs[i..])
            == Ok((Addresses(path)[i + 1..] + [recipient], payload))
    decreases |path| - i
  {
    PeelOne(s, path, recipient, payload, privs, ds, i);
    assert privs[i..][0] == privs[i] && privs[i..][1..] == privs[i + 1..];
    if i + 1 < |path| {
      PeelFrom(s, path, recipient, payload, privs, ds, i + 1);
      assert [path[i + 1].address] + (Addresses(path)[i + 2..] + [recipient]) == Addresses(path)[i + 1..] + [recipient];
    } else {
      assert privs[i + 1..] == [] && Addresses(path)[i + 1..] == [];
      assert [recipient] + [] == [] + [recipient];
    }
  }

  /** Peeling in path order gives the later relays' addresses, then the recipient, then the exact payload. */
  lemma OnionPeels(s: Ciphers, path: seq<RelayInfo>, recipient: Address, payload: bytes, privs: seq<bytes>, ds: seq<Draw>)
    requires s.Lawful() && Fits(s, path, privs, ds) && path != []
    ensures PeelAll(s, OnionFrom(s, path, recipient, payload, ds, 0), privs)
            == Ok((Addresses(path)[1..] + [recipient], payload))
  {
    PeelFrom(s, path, recipient, payload, privs, ds, 0);
    assert privs[0..] == privs;
  }
}
