/** The messages of pkg/protocol by their field names, and the bytes each of them is on the wire. */
module Wire {
  import opened Bytes
  import opened Codec

  /** The parts one after the other. */
  function Joined(parts: seq<bytes>): bytes {
    if parts == [] then [] else parts[0] + Joined(parts[1..])
  }

  ghost predicate PartsOf(fs: seq<Field>, vs: seq<Val>, parts: seq<bytes>)
    requires ShapedAll(fs, vs)
  {
    |parts| == |fs| && forall i :: 0 <= i < |fs| ==> Shaped(fs[i], vs[i]) && parts[i] == EncodeField(fs[i], vs[i])
  }

  /** A message is its fields' encodings, in the order of its layout. */
  lemma {:induction false} EncodedParts(fs: seq<Field>, vs: seq<Val>, parts: seq<bytes>)
    requires ShapedAll(fs, vs) && PartsOf(fs, vs, parts)
    ensures Encode(fs, vs) == Joined(parts)
    decreases |fs|
  {
    if fs != [] {
      assert forall i :: 0 <= i < |fs| - 1 ==> fs[1..][i] == fs[i + 1] && vs[1..][i] == vs[i + 1] && parts[1..][i] == parts[i + 1];
      EncodedParts(fs[1..], vs[1..], parts[1..]);
    }
  }

  lemma {:induction false} ShapedByIndex(fs: seq<Field>, vs: seq<Val>)
    requires |fs| == |vs| && forall i :: 0 <= i < |fs| ==> Shaped(fs[i], vs[i])
    ensures ShapedAll(fs, vs)
    decreases |fs|
  {
    if fs != [] {
      assert forall i :: 0 <= i < |fs| - 1 ==> fs[1..][i] == fs[i + 1] && vs[1..][i] == vs[i + 1];
      ShapedByIndex(fs[1..], vs[1..]);
    }
  }

  /** From field by field to the whole message. */
  lemma OnWire(fs: seq<Field>, vs: seq<Val>, parts: seq<bytes>)
    requires |fs| == |vs| == |parts| && forall i :: 0 <= i < |fs| ==> Shaped(fs[i], vs[i]) && parts[i] == EncodeField(fs[i], vs[i])
    ensures ShapedAll(fs, vs) && Encode(fs, vs) == Joined(parts)
  {
    ShapedByIndex(fs, vs);
    EncodedParts(fs, vs, parts);
  }

  /** A string behind its length. */
  function Prefixed(s: bytes, width: nat): bytes {
    BigEndian(|s|, width) + s
  }

  datatype Header = Header(magic: nat, version: nat, kind: nat, length: nat, flags: nat, messageID: bytes,
    reserved: nat) {
    function Fields(): seq<Val> { [Num(magic), Num(version), Num(kind), Num(length), Num(flags),
        Raw(messageID), Num(reserved)] }
  }

  lemma HeaderOnWire(m: Header)
    ensures ShapedAll(HEADER, m.Fields())
    ensures Encode(HEADER, m.Fields()) == Joined([BigEndian(m.magic, 4), BigEndian(m.version, 2), BigEndian(m.kind,
              2), BigEndian(m.length, 4), BigEndian(m.flags, 2), m.messageID, BigEndian(m.reserved, 2)])
  {
    OnWire(HEADER, m.Fields(), [BigEndian(m.magic, 4), BigEndian(m.version, 2), BigEndian(m.kind, 2),
           BigEndian(m.length, 4), BigEndian(m.flags, 2), m.messageID, BigEndian(m.reserved, 2)]);
  }

  datatype DirectMessage = DirectMessage(from: bytes, to: bytes, timestamp: nat, sequenceNumber: nat,
    contentType: nat, replyTo: bytes, content: bytes, signature: bytes) {
    function Fields(): seq<Val> { [Raw(from), Raw(to), Num(timestamp), Num(sequenceNumber),
        Num(contentType), Raw(replyTo), Raw(content), Raw(signature)] }
  }

  lemma DirectMessageOnWire(m: DirectMessage)
    ensures ShapedAll(DIRECT_MESSAGE, m.Fields())
    ensures Encode(DIRECT_MESSAGE, m.Fields()) == Joined([m.from, m.to, BigEndian(m.timestamp, 8),
              BigEndian(m.sequenceNumber, 8), BigEndian(m.contentType, 1), m.replyTo, Prefixed(m.content, 4),
              Prefixed(m.signature, 4)])
  {
    OnWire(DIRECT_MESSAGE, m.Fields(), [m.from, m.to, BigEndian(m.timestamp, 8), BigEndian(m.sequenceNumber, 8),
           BigEndian(m.contentType, 1), m.replyTo, Prefixed(m.content, 4), Prefixed(m.signature, 4)]);
  }

  datatype GroupMessage = GroupMessage(from: bytes, groupID: bytes, timestamp: nat, contentType: nat, content: bytes,
    signature: bytes) {
    function Fields(): seq<Val> { [Raw(from), Raw(groupID), Num(timestamp), Num(contentType), Raw(content),
        Raw(signature)] }
  }

  lemma GroupMessageOnWire(m: GroupMessage)
    ensures ShapedAll(GROUP_MESSAGE, m.Fields())
    ensures Encode(GROUP_MESSAGE, m.Fields()) == Joined([m.from, m.groupID, BigEndian(m.timestamp, 8),
              BigEndian(m.contentType, 1), Prefixed(m.content, 4), Prefixed(m.signature, 4)])
  {
    OnWire(GROUP_MESSAGE, m.Fields(), [m.from, m.groupID, BigEndian(m.timestamp, 8), BigEndian(m.contentType, 1),
           Prefixed(m.content, 4), Prefixed(m.signature, 4)]);
  }

  datatype AckMessage = AckMessage(from: bytes, to: bytes, messageID: bytes, sequenceNumber: nat, timestamp: nat) {
    function Fields(): seq<Val> { [Raw(from), Raw(to), Raw(messageID), Num(sequenceNumber),
        Num(timestamp)] }
  }

  lemma AckMessageOnWire(m: AckMessage)
    ensures ShapedAll(ACK, m.Fields())
    ensures Encode(ACK, m.Fields()) == Joined([m.from, m.to, m.messageID, BigEndian(m.sequenceNumber, 8),
              BigEndian(m.timestamp, 8)])
  {
    OnWire(ACK, m.Fields(), [m.from, m.to, m.messageID, BigEndian(m.sequenceNumber, 8), BigEndian(m.timestamp, 8)]);
  }

  datatype NackMessage = NackMessage(from: bytes, to: bytes, messageID: bytes, sequenceNumber: nat, timestamp: nat,
    errorCode: nat, errorMessage: bytes) {
    function Fields(): seq<Val> { [Raw(from), Raw(to), Raw(messageID), Num(sequenceNumber), Num(timestamp),
        Num(errorCode), Raw(errorMessage)] }
  }

  lemma NackMessageOnWire(m: NackMessage)
    ensures ShapedAll(NACK, m.Fields())
    ensures Encode(NACK, m.Fields()) == Joined([m.from, m.to, m.messageID, BigEndian(m.sequenceNumber, 8),
              BigEndian(m.timestamp, 8), BigEndian(m.errorCode, 1), Prefixed(m.errorMessage, 2)])
  {
    OnWire(NACK, m.Fields(), [m.from, m.to, m.messageID, BigEndian(m.sequenceNumber, 8), BigEndian(m.timestamp, 8),
           BigEndian(m.errorCode, 1), Prefixed(m.errorMessage, 2)]);
  }

  datatype ReadReceipt = ReadReceipt(from: bytes, to: bytes, messageID: bytes, timestamp: nat, readStatus: nat) {
    function Fields(): seq<Val> { [Unit, Raw(from), Raw(to), Raw(messageID), Num(timestamp),
        Num(readStatus)] }
  }

  lemma ReadReceiptOnWire(m: ReadReceipt)
    ensures ShapedAll(READ_RECEIPT, m.Fields())
    ensures Encode(READ_RECEIPT, m.Fields()) == Joined([[2], m.from, m.to, m.messageID, BigEndian(m.timestamp, 8),
              BigEndian(m.readStatus, 1)])
  {
    OnWire(READ_RECEIPT, m.Fields(), [[2], m.from, m.to, m.messageID, BigEndian(m.timestamp, 8),
           BigEndian(m.readStatus, 1)]);
  }

  datatype GroupJoin = GroupJoin(groupID: bytes, member: bytes, timestamp: nat, signature: bytes) {
    function Fields(): seq<Val> { [Raw(groupID), Raw(member), Num(timestamp), Raw(signature)] }
  }

  lemma GroupJoinOnWire(m: GroupJoin)
    ensures ShapedAll(GROUP_JOIN_OR_LEAVE, m.Fields())
    ensures Encode(GROUP_JOIN_OR_LEAVE, m.Fields()) == Joined([m.groupID, m.member, BigEndian(m.timestamp, 8),
              Prefixed(m.signature, 4)])
  {
    OnWire(GROUP_JOIN_OR_LEAVE, m.Fields(), [m.groupID, m.member, BigEndian(m.timestamp, 8), Prefixed(m.signature,
           4)]);
  }

  datatype GroupUpdate = GroupUpdate(groupID: bytes, updateType: nat, updatedBy: bytes, timestamp: nat,
    newGroupName: bytes, member: bytes, signature: bytes) {
    function Fields(): seq<Val> { [Raw(groupID), Num(updateType), Raw(updatedBy), Num(timestamp),
        Raw(newGroupName), Raw(member), Raw(signature)] }
  }

  lemma GroupUpdateOnWire(m: GroupUpdate)
    ensures ShapedAll(GROUP_UPDATE, m.Fields())
    ensures Encode(GROUP_UPDATE, m.Fields()) == Joined([m.groupID, BigEndian(m.updateType, 1), m.updatedBy,
              BigEndian(m.timestamp, 8), Prefixed(m.newGroupName, 4), m.member, Prefixed(m.signature, 4)])
  {
    OnWire(GROUP_UPDATE, m.Fields(), [m.groupID, BigEndian(m.updateType, 1), m.updatedBy, BigEndian(m.timestamp, 8),
           Prefixed(m.newGroupName, 4), m.member, Prefixed(m.signature, 4)]);
  }

  datatype Handshake = Handshake(protocolVersion: nat, address: bytes, publicKey: bytes, clientType: nat,
    timestamp: nat, signature: bytes) {
    function Fields(): seq<Val> { [Num(protocolVersion), Raw(address), Raw(publicKey), Num(clientType),
        Num(timestamp), Raw(signature)] }
  }

  lemma HandshakeOnWire(m: Handshake)
    ensures ShapedAll(HANDSHAKE, m.Fields())
    ensures Encode(HANDSHAKE, m.Fields()) == Joined([BigEndian(m.protocolVersion, 2), m.address,
              Prefixed(m.publicKey, 4), BigEndian(m.clientType, 1), BigEndian(m.timestamp, 8), Prefixed(m.signature,
              4)])
  {
    OnWire(HANDSHAKE, m.Fields(), [BigEndian(m.protocolVersion, 2), m.address, Prefixed(m.publicKey, 4),
           BigEndian(m.clientType, 1), BigEndian(m.timestamp, 8), Prefixed(m.signature, 4)]);
  }

  datatype RelayForward = RelayForward(nextHop: bytes, ttl: nat, payload: bytes, payloadHash: bytes) {
    function Fields(): seq<Val> { [Raw(nextHop), Num(ttl), Raw(payload), Raw(payloadHash)] }
  }

  lemma RelayForwardOnWire(m: RelayForward)
    ensures ShapedAll(RELAY_FORWARD, m.Fields())
    ensures Encode(RELAY_FORWARD, m.Fields()) == Joined([m.nextHop, BigEndian(m.ttl, 1), Prefixed(m.payload, 4),
              m.payloadHash])
  {
    OnWire(RELAY_FORWARD, m.Fields(), [m.nextHop, BigEndian(m.ttl, 1), Prefixed(m.payload, 4), m.payloadHash]);
  }

  datatype ProfileUpdate = ProfileUpdate(address: bytes, username: bytes, avatarChunkID: nat, avatarKey: bytes,
    bio: bytes, publicKey: bytes, timestamp: nat, signature: bytes) {
    function Fields(): seq<Val> { [Raw(address), Raw(username), Num(avatarChunkID), Raw(avatarKey),
        Raw(bio), Raw(publicKey), Num(timestamp), Raw(signature)] }
  }

  lemma ProfileUpdateOnWire(m: ProfileUpdate)
    ensures ShapedAll(PROFILE_UPDATE, m.Fields())
    ensures Encode(PROFILE_UPDATE, m.Fields()) == Joined([m.address, m.username, BigEndian(m.avatarChunkID, 8),
              m.avatarKey, m.bio, Prefixed(m.publicKey, 4), BigEndian(m.timestamp, 8), Prefixed(m.signature, 4)])
  {
    OnWire(PROFILE_UPDATE, m.Fields(), [m.address, m.username, BigEndian(m.avatarChunkID, 8), m.avatarKey, m.bio,
           Prefixed(m.publicKey, 4), BigEndian(m.timestamp, 8), Prefixed(m.signature, 4)]);
  }

  datatype InitialMessage = InitialMessage(sender: bytes, identityKey: bytes, ephemeralKey: bytes,
    usedSignedPreKeyID: nat, usedOneTimePreKeyID: nat, ciphertext: bytes) {
    function Fields(): seq<Val> { [Raw(sender), Raw(identityKey), Raw(ephemeralKey), Num(usedSignedPreKeyID),
        Num(usedOneTimePreKeyID), Raw(ciphertext)] }
  }

  lemma InitialMessageOnWire(m: InitialMessage)
    ensures ShapedAll(INITIAL_MESSAGE, m.Fields())
    ensures Encode(INITIAL_MESSAGE, m.Fields()) == Joined([m.sender, m.identityKey, m.ephemeralKey,
              BigEndian(m.usedSignedPreKeyID, 4), BigEndian(m.usedOneTimePreKeyID, 4), Prefixed(m.ciphertext, 4)])
  {
    OnWire(INITIAL_MESSAGE, m.Fields(), [m.sender, m.identityKey, m.ephemeralKey, BigEndian(m.usedSignedPreKeyID, 4),
           BigEndian(m.usedOneTimePreKeyID, 4), Prefixed(m.ciphertext, 4)]);
  }

  // ---- Messages with counted records ----

  function MemberRows(members: seq<bytes>): (rows: seq<seq<Val>>)
    ensures |rows| == |members|
  {
    seq(|members|, i requires 0 <= i < |members| => [Raw(members[i])])
  }

  lemma OneMember(member: bytes)
    ensures ShapedAll([Fixed(20)], [Raw(member)]) && Encode([Fixed(20)], [Raw(member)]) == member
  {
    OnWire([Fixed(20)], [Raw(member)], [member]);
    JoinedOne(member);
  }

  lemma JoinedOne(x: bytes)
    ensures Joined([x]) == x
  {
    assert [x][1..] == [] && x + [] == x;
  }

  lemma {:induction false} MembersOnWire(members: seq<bytes>)
    ensures forall i :: 0 <= i < |members| ==> ShapedAll([Fixed(20)], MemberRows(members)[i])
    ensures EncodeRows([Fixed(20)], MemberRows(members)) == Joined(members)
    decreases |members|
  {
    forall i | 0 <= i < |members|
      ensures ShapedAll([Fixed(20)], MemberRows(members)[i])
    {
      OneMember(members[i]);
    }
    if members != [] {
      OneMember(members[0]);
      MembersOnWire(members[1..]);
      assert MemberRows(members)[1..] == MemberRows(members[1..]);
    }
  }

  datatype GroupCreate = GroupCreate(groupID: bytes, groupName: bytes, creator: bytes, timestamp: nat, members: seq<bytes>) {
    function Fields(): seq<Val> { [Raw(groupID), Raw(groupName), Raw(creator), Num(timestamp), Many(MemberRows(members))] }
  }

  lemma GroupCreateOnWire(m: GroupCreate)
    ensures ShapedAll(GROUP_CREATE, m.Fields())
    ensures Encode(GROUP_CREATE, m.Fields()) == Joined([m.groupID, Prefixed(m.groupName, 4), m.creator,
              BigEndian(m.timestamp, 8), BigEndian(|m.members|, 4) + Joined(m.members)])
  {
    MembersOnWire(m.members);
    OnWire(GROUP_CREATE, m.Fields(), [m.groupID, Prefixed(m.groupName, 4), m.creator, BigEndian(m.timestamp, 8),
           BigEndian(|m.members|, 4) + Joined(m.members)]);
  }

  datatype OneTimeKey = OneTimeKey(keyID: nat, publicKey: bytes)

  const PRE_KEY: seq<Field> := [Number(4), Fixed(32)]

  function PreKeyRows(keys: seq<OneTimeKey>): (rows: seq<seq<Val>>)
    ensures |rows| == |keys|
  {
    seq(|keys|, i requires 0 <= i < |keys| => [Num(keys[i].keyID), Raw(keys[i].publicKey)])
  }

  function PreKeyParts(keys: seq<OneTimeKey>): bytes {
    if keys == [] then [] else BigEndian(keys[0].keyID, 4) + keys[0].publicKey + PreKeyParts(keys[1..])
  }

  lemma OnePreKey(key: OneTimeKey)
    ensures ShapedAll(PRE_KEY, [Num(key.keyID), Raw(key.publicKey)])
    ensures Encode(PRE_KEY, [Num(key.keyID), Raw(key.publicKey)]) == BigEndian(key.keyID, 4) + key.publicKey
  {
    var parts := [BigEndian(key.keyID, 4), key.publicKey];
    OnWire(PRE_KEY, [Num(key.keyID), Raw(key.publicKey)], parts);
    assert parts[1..] == [key.publicKey];
    JoinedOne(key.publicKey);
  }

  lemma {:induction false} PreKeysOnWire(keys: seq<OneTimeKey>)
    ensures forall i :: 0 <= i < |keys| ==> ShapedAll(PRE_KEY, PreKeyRows(keys)[i])
    ensures EncodeRows(PRE_KEY, PreKeyRows(keys)) == PreKeyParts(keys)
    decreases |keys|
  {
    forall i | 0 <= i < |keys|
      ensures ShapedAll(PRE_KEY, PreKeyRows(keys)[i])
    {
      OnePreKey(keys[i]);
    }
    if keys != [] {
      OnePreKey(keys[0]);
      PreKeysOnWire(keys[1..]);
      assert PreKeyRows(keys)[1..] == PreKeyRows(keys[1..]);
    }
  }

  datatype KeyBundle = KeyBundle(address: bytes, identityKey: bytes, registrationID: nat, signedKeyID: nat, signedPublicKey: bytes,
    signature: bytes, timestamp: nat, oneTimePreKeys: seq<OneTimeKey>) {
    function Fields(): seq<Val> { [Raw(address), Raw(identityKey), Num(registrationID), Num(signedKeyID),
        Raw(signedPublicKey), Raw(signature), Num(timestamp), Many(PreKeyRows(oneTimePreKeys))] }
  }

  lemma KeyBundleOnWire(m: KeyBundle)
    ensures ShapedAll(KEY_BUNDLE, m.Fields())
    ensures Encode(KEY_BUNDLE, m.Fields()) == Joined([m.address, m.identityKey, BigEndian(m.registrationID, 4),
              BigEndian(m.signedKeyID, 4), m.signedPublicKey, m.signature, BigEndian(m.timestamp, 8),
              BigEndian(|m.oneTimePreKeys|, 4) + PreKeyParts(m.oneTimePreKeys)])
  {
    PreKeysOnWire(m.oneTimePreKeys);
    OnWire(KEY_BUNDLE, m.Fields(), [m.address, m.identityKey, BigEndian(m.registrationID, 4), BigEndian(m.signedKeyID, 4),
           m.signedPublicKey, m.signature, BigEndian(m.timestamp, 8),
           BigEndian(|m.oneTimePreKeys|, 4) + PreKeyParts(m.oneTimePreKeys)]);
  }
}
