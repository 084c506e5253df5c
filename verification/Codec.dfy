/** The wire layouts of pkg/protocol, as lists of fields, with one encoder and one decoder for all of them. */
module Codec {
  import opened Bytes

  /** A field of a message: a type byte, a fixed array, a big-endian number, a length-prefixed string, counted records. */
  datatype Field =
    | Tag(value: byte)
    | Fixed(width: nat)
    | Number(width: nat)
    | Blob(prefix: nat)
    | Records(prefix: nat, record: seq<Field>)

  datatype Val = Unit | Raw(data: bytes) | Num(n: nat) | Many(rows: seq<seq<Val>>)

  // ---- Layouts ----

  const HEADER: seq<Field> := [Number(4), Number(2), Number(2), Number(4), Number(2), Fixed(16), Number(2)]
  const DIRECT_MESSAGE: seq<Field> := [Fixed(20), Fixed(20), Number(8), Number(8), Number(1), Fixed(16), Blob(4), Blob(4)]
  const GROUP_MESSAGE: seq<Field> := [Fixed(20), Fixed(32), Number(8), Number(1), Blob(4), Blob(4)]
  const ACK: seq<Field> := [Fixed(20), Fixed(20), Fixed(16), Number(8), Number(8)]
  const NACK: seq<Field> := [Fixed(20), Fixed(20), Fixed(16), Number(8), Number(8), Number(1), Blob(2)]
  const READ_RECEIPT: seq<Field> := [Tag(2), Fixed(20), Fixed(20), Fixed(16), Number(8), Number(1)]
  const GROUP_CREATE: seq<Field> := [Fixed(32), Blob(4), Fixed(20), Number(8), Records(4, [Fixed(20)])]
  const GROUP_JOIN_OR_LEAVE: seq<Field> := [Fixed(32), Fixed(20), Number(8), Blob(4)]
  const GROUP_UPDATE: seq<Field> := [Fixed(32), Number(1), Fixed(20), Number(8), Blob(4), Fixed(20), Blob(4)]
  const HANDSHAKE: seq<Field> := [Number(2), Fixed(20), Blob(4), Number(1), Number(8), Blob(4)]
  const RELAY_FORWARD: seq<Field> := [Fixed(20), Number(1), Blob(4), Fixed(32)]
  const PROFILE_UPDATE: seq<Field> := [Fixed(20), Fixed(32), Number(8), Fixed(32), Fixed(256), Blob(4), Number(8), Blob(4)]
  const KEY_BUNDLE: seq<Field> :=
    [Fixed(20), Fixed(32), Number(4), Number(4), Fixed(32), Fixed(64), Number(8), Records(4, [Number(4), Fixed(32)])]
  const INITIAL_MESSAGE: seq<Field> := [Fixed(20), Fixed(32), Fixed(32), Number(4), Number(4), Blob(4)]

  // ---- Which values a field can hold ----

  /** The value has the field's Go type. */
  predicate Shaped(f: Field, v: Val)
    decreases f, 1
  {
    match f
    case Tag(_) => v.Unit?
    case Fixed(_) => v.Raw?
    case Number(_) => v.Num?
    case Blob(_) => v.Raw?
    case Records(_, record) => v.Many? && forall i :: 0 <= i < |v.rows| ==> ShapedAll(record, v.rows[i])
  }

  predicate ShapedAll(fs: seq<Field>, vs: seq<Val>)
    decreases fs, 0
  {
    |fs| == |vs| && (fs == [] || (Shaped(fs[0], vs[0]) && ShapedAll(fs[1..], vs[1..])))
  }

  /** The value fits its width, or its length fits the length prefix. */
  predicate Fits(f: Field, v: Val)
    requires Shaped(f, v)
    decreases f, 1
  {
    match f
    case Tag(_) => true
    case Fixed(w) => |v.data| == w
    case Number(w) => v.n < Pow256(w)
    case Blob(p) => |v.data| < Pow256(p)
    case Records(p, record) => |v.rows| < Pow256(p) && forall i :: 0 <= i < |v.rows| ==> FitsAll(record, v.rows[i])
  }

  predicate FitsAll(fs: seq<Field>, vs: seq<Val>)
    requires ShapedAll(fs, vs)
    decreases fs, 0
  {
    fs == [] || (Fits(fs[0], vs[0]) && FitsAll(fs[1..], vs[1..]))
  }

  // ---- Encoding ----

  /** Numbers and lengths are truncated to their width, as Go's conversions do. */
  function EncodeField(f: Field, v: Val): bytes
    requires Shaped(f, v)
    decreases f, 1, 0
  {
    match f
    case Tag(b) => [b]
    case Fixed(_) => v.data
    case Number(w) => BigEndian(v.n, w)
    case Blob(p) => BigEndian(|v.data|, p) + v.data
    case Records(p, record) => BigEndian(|v.rows|, p) + EncodeRows(record, v.rows)
  }

  function EncodeRows(fs: seq<Field>, rows: seq<seq<Val>>): bytes
    requires forall i :: 0 <= i < |rows| ==> ShapedAll(fs, rows[i])
    decreases fs, 1, |rows|
  {
    if rows == [] then [] else Encode(fs, rows[0]) + EncodeRows(fs, rows[1..])
  }

  function Encode(fs: seq<Field>, vs: seq<Val>): bytes
    requires ShapedAll(fs, vs)
    decreases fs, 0, 0
  {
    if fs == [] then [] else EncodeField(fs[0], vs[0]) + Encode(fs[1..], vs[1..])
  }

  // ---- Decoding: the value and the bytes after it, None where Go returns an error or runs off the buffer ----

  function DecodeField(f: Field, b: bytes): (r: Option<(Val, bytes)>)
    ensures r.Some? ==> Shaped(f, r.value.0)
    decreases f, 1, 0
  {
    match f
    case Tag(t) => if |b| < 1 || b[0] != t then None else Some((Unit, b[1..]))
    case Fixed(w) => if |b| < w then None else Some((Raw(b[..w]), b[w..]))
    case Number(w) => if |b| < w then None else Some((Num(Value(b[..w])), b[w..]))
    case Blob(p) =>
      if |b| < p || |b| < p + Value(b[..p]) then None
      else Some((Raw(b[p..p + Value(b[..p])]), b[p + Value(b[..p])..]))
    case Records(p, record) =>
      if |b| < p then None
      else
        match DecodeRows(record, Value(b[..p]), b[p..])
        case None => None
        case Some((rows, rest)) => Some((Many(rows), rest))
  }

  function DecodeRows(fs: seq<Field>, count: nat, b: bytes): (r: Option<(seq<seq<Val>>, bytes)>)
    ensures r.Some? ==> |r.value.0| == count && forall i :: 0 <= i < count ==> ShapedAll(fs, r.value.0[i])
    decreases fs, 1, count
  {
    if count == 0 then Some(([], b))
    else
      match Decode(fs, b)
      case None => None
      case Some((row, rest)) =>
        match DecodeRows(fs, count - 1, rest)
        case None => None
        case Some((rows, left)) => Some(([row] + rows, left))
  }

  function Decode(fs: seq<Field>, b: bytes): (r: Option<(seq<Val>, bytes)>)
    ensures r.Some? ==> ShapedAll(fs, r.value.0)
    decreases fs, 0, 0
  {
    if fs == [] then Some(([], b))
    else
      match DecodeField(fs[0], b)
      case None => None
      case Some((v, rest)) =>
        match Decode(fs[1..], rest)
        case None => None
        case Some((vs, left)) => Some(([v] + vs, left))
  }

  // ---- Round trips ----

  /** Cutting a string behind its first part gives both parts back. */
  lemma Cut(x: bytes, y: bytes)
    ensures (x + y)[..|x|] == x && (x + y)[|x|..] == y
  {
  }

  lemma PrefixedRoundTrip(n: nat, p: nat, y: bytes)
    requires n < Pow256(p)
    ensures var b := BigEndian(n, p) + y; Value(b[..p]) == n && b[p..] == y
  {
    Cut(BigEndian(n, p), y);
    BigEndianRoundTrip(n, p);
  }

  lemma {:induction false} FieldRoundTrip(f: Field, v: Val, rest: bytes)
    requires Shaped(f, v) && Fits(f, v)
    ensures DecodeField(f, EncodeField(f, v) + rest) == Some((v, rest))
    decreases f, 1, 0
  {
    match f
    case Tag(b) => Cut([b], rest);
    case Fixed(w) => Cut(v.data, rest);
    case Number(w) => PrefixedRoundTrip(v.n, w, rest);
    case Blob(p) =>
      ConcatAssoc(BigEndian(|v.data|, p), v.data, rest);
      PrefixedRoundTrip(|v.data|, p, v.data + rest);
      var b := BigEndian(|v.data|, p) + (v.data + rest);
      Cut(v.data, rest);
      assert b[p..p + |v.data|] == b[p..][..|v.data|] && b[p + |v.data|..] == b[p..][|v.data|..];
    case Records(p, record) =>
      ConcatAssoc(BigEndian(|v.rows|, p), EncodeRows(record, v.rows), rest);
      PrefixedRoundTrip(|v.rows|, p, EncodeRows(record, v.rows) + rest);
      RowsRoundTrip(record, v.rows, rest);
  }

  lemma {:induction false} RowsRoundTrip(fs: seq<Field>, rows: seq<seq<Val>>, rest: bytes)
    requires forall i :: 0 <= i < |rows| ==> ShapedAll(fs, rows[i]) && FitsAll(fs, rows[i])
    ensures DecodeRows(fs, |rows|, EncodeRows(fs, rows) + rest) == Some((rows, rest))
    decreases fs, 1, |rows|
  {
    if rows == [] {
      assert [] + rest == rest;
    } else {
      ConcatAssoc(Encode(fs, rows[0]), EncodeRows(fs, rows[1..]), rest);
      RoundTrip(fs, rows[0], EncodeRows(fs, rows[1..]) + rest);
      RowsRoundTrip(fs, rows[1..], rest);
      assert [rows[0]] + rows[1..] == rows;
    }
  }

  /** For every layout and every value that fits it, decoding the encoding followed by any bytes gives the value back. */
  lemma {:induction false} RoundTrip(fs: seq<Field>, vs: seq<Val>, rest: bytes)
    requires ShapedAll(fs, vs) && FitsAll(fs, vs)
    ensures Decode(fs, Encode(fs, vs) + rest) == Some((vs, rest))
    decreases fs, 0, 0
  {
    if fs == [] {
      assert [] + rest == rest;
    } else {
      ConcatAssoc(EncodeField(fs[0], vs[0]), Encode(fs[1..], vs[1..]), rest);
      FieldRoundTrip(fs[0], vs[0], Encode(fs[1..], vs[1..]) + rest);
      RoundTrip(fs[1..], vs[1..], rest);
      assert [vs[0]] + vs[1..] == vs;
    }
  }

  // ---- What a decoder accepts ----

  lemma PrefixedCanonical(b: bytes, p: nat)
    requires p <= |b|
    ensures Value(b[..p]) < Pow256(p) && b == BigEndian(Value(b[..p]), p) + b[p..]
  {
    ValueBound(b[..p]);
    ValueRoundTrip(b[..p]);
  }

  lemma BlobCanonical(b: bytes, p: nat)
    requires p <= |b| && p + Value(b[..p]) <= |b|
    ensures var n := Value(b[..p]); n < Pow256(p) && b == (BigEndian(n, p) + b[p..p + n]) + b[p + n..]
  {
    PrefixedCanonical(b, p);
    var n := Value(b[..p]);
    Between(b, p, p + n);
    ConcatAssoc(BigEndian(n, p), b[p..p + n], b[p + n..]);
  }

  lemma Between(b: bytes, i: nat, j: nat)
    requires i <= j <= |b|
    ensures b[i..] == b[i..j] + b[j..]
  {
  }

  lemma {:induction false} FieldCanonical(f: Field, b: bytes)
    requires DecodeField(f, b).Some?
    ensures var (v, rest) := DecodeField(f, b).value; Fits(f, v) && b == EncodeField(f, v) + rest
    decreases f, 1, 0
  {
    match f
    case Tag(t) => assert b == [t] + b[1..];
    case Fixed(w) => assert b == b[..w] + b[w..];
    case Number(w) => PrefixedCanonical(b, w);
    case Blob(p) => BlobCanonical(b, p);
    case Records(p, record) =>
      PrefixedCanonical(b, p);
      var n := Value(b[..p]);
      RowsCanonical(record, n, b[p..]);
      var (rows, rest) := DecodeRows(record, n, b[p..]).value;
      ConcatAssoc(BigEndian(n, p), EncodeRows(record, rows), rest);
  }

  lemma {:induction false} RowsCanonical(fs: seq<Field>, count: nat, b: bytes)
    requires DecodeRows(fs, count, b).Some?
    ensures var (rows, rest) := DecodeRows(fs, count, b).value;
            (forall i :: 0 <= i < count ==> FitsAll(fs, rows[i])) && b == EncodeRows(fs, rows) + rest
    decreases fs, 1, count
  {
    if count == 0 {
      assert [] + b == b;
    } else {
      Canonical(fs, b);
      var (row, rest) := Decode(fs, b).value;
      RowsCanonical(fs, count - 1, rest);
      var (rows, left) := DecodeRows(fs, count - 1, rest).value;
      assert ([row] + rows)[1..] == rows;
      ConcatAssoc(Encode(fs, row), EncodeRows(fs, rows), left);
    }
  }

  /** Whatever decodes is the encoding of what it decodes to, which fits: no two byte strings mean one message. */
  lemma {:induction false} Canonical(fs: seq<Field>, b: bytes)
    requires Decode(fs, b).Some?
    ensures var (vs, rest) := Decode(fs, b).value; FitsAll(fs, vs) && b == Encode(fs, vs) + rest
    decreases fs, 0, 0
  {
    if fs == [] {
      assert [] + b == b;
    } else {
      FieldCanonical(fs[0], b);
      var (v, rest) := DecodeField(fs[0], b).value;
      Canonical(fs[1..], rest);
      var (vs, left) := Decode(fs[1..], rest).value;
      assert ([v] + vs)[1..] == vs;
      ConcatAssoc(EncodeField(fs[0], v), Encode(fs[1..], vs), left);
    }
  }

  /** A message survives the wire exactly when its lengths fit their prefix fields. */
  lemma RoundTripIffFits(fs: seq<Field>, vs: seq<Val>, rest: bytes)
    requires ShapedAll(fs, vs)
    ensures Decode(fs, Encode(fs, vs) + rest) == Some((vs, rest)) <==> FitsAll(fs, vs)
  {
    if FitsAll(fs, vs) {
      RoundTrip(fs, vs, rest);
    } else if Decode(fs, Encode(fs, vs) + rest) == Some((vs, rest)) {
      Canonical(fs, Encode(fs, vs) + rest);
    }
  }

  /** Messages that fit have different encodings. */
  lemma EncodeInjective(fs: seq<Field>, v1: seq<Val>, v2: seq<Val>)
    requires ShapedAll(fs, v1) && ShapedAll(fs, v2) && FitsAll(fs, v1) && FitsAll(fs, v2) && Encode(fs, v1) == Encode(fs, v2)
    ensures v1 == v2
  {
    RoundTrip(fs, v1, []);
    RoundTrip(fs, v2, []);
  }

  /** A message cut short does not decode. */
  lemma TruncatedFails(fs: seq<Field>, vs: seq<Val>, n: nat)
    requires ShapedAll(fs, vs) && FitsAll(fs, vs) && n < |Encode(fs, vs)|
    ensures Decode(fs, Encode(fs, vs)[..n]).None?
  {
    var b := Encode(fs, vs);
    RoundTrip(fs, vs, []);
    assert b + [] == b && b[..n] + b[n..] == b;
    if Decode(fs, b[..n]).Some? {
      Canonical(fs, b[..n]);
      var (vs', rest) := Decode(fs, b[..n]).value;
      ConcatAssoc(Encode(fs, vs'), rest, b[n..]);
      RoundTrip(fs, vs', rest + b[n..]);
      assert false;
    }
  }

  function Shortest(f: Field): nat {
    match f
    case Tag(_) => 1
    case Fixed(w) => w
    case Number(w) => w
    case Blob(p) => p
    case Records(p, _) => p
  }

  /** The bytes taken by the fields from the i-th on when their strings and lists are empty. */
  function MinSize(fs: seq<Field>, i: nat): nat
    requires i <= |fs|
    decreases |fs| - i
  {
    if i == |fs| then 0 else Shortest(fs[i]) + MinSize(fs, i + 1)
  }

  lemma {:induction false} DecodedIsLong(fs: seq<Field>, i: nat, b: bytes)
    requires i <= |fs| && Decode(fs[i..], b).Some?
    ensures MinSize(fs, i) <= |b|
    decreases |fs| - i
  {
    if i < |fs| {
      assert fs[i..][1..] == fs[i + 1..];
      FieldCanonical(fs[i], b);
      DecodedIsLong(fs, i + 1, DecodeField(fs[i], b).value.1);
    }
  }

  /** Testing the length first, as some decoders do, refuses nothing that reading on would accept. */
  lemma TooShort(fs: seq<Field>, b: bytes)
    requires |b| < MinSize(fs, 0)
    ensures Decode(fs, b).None?
  {
    if Decode(fs, b).Some? {
      assert fs[0..] == fs;
      DecodedIsLong(fs, 0, b);
    }
  }

  /** The fixed parts of the sizes the encoders compute, which are also the lengths some decoders test for. */
  lemma LengthTests()
    ensures MinSize(HEADER, 0) == 32 && MinSize(ACK, 0) == 72 && MinSize(NACK, 0) == 75 && MinSize(READ_RECEIPT, 0) == 66
    ensures MinSize(KEY_BUNDLE, 0) == 168 && MinSize(INITIAL_MESSAGE, 0) == 96
  {
    assert MinSize(HEADER, 4) == 20;
    assert MinSize(NACK, 4) == 11;
    assert MinSize(READ_RECEIPT, 3) == 25;
    assert MinSize(KEY_BUNDLE, 4) == 108;
    assert MinSize(INITIAL_MESSAGE, 3) == 12;
  }

  lemma EmptySizes()
    ensures MinSize(DIRECT_MESSAGE, 0) == 81 && MinSize(GROUP_MESSAGE, 0) == 69 && MinSize(GROUP_CREATE, 0) == 68
    ensures MinSize(GROUP_JOIN_OR_LEAVE, 0) == 64 && MinSize(GROUP_UPDATE, 0) == 89 && MinSize(HANDSHAKE, 0) == 39
    ensures MinSize(RELAY_FORWARD, 0) == 57 && MinSize(PROFILE_UPDATE, 0) == 364
  {
    assert MinSize(DIRECT_MESSAGE, 4) == 25;
    assert MinSize(GROUP_MESSAGE, 3) == 9;
    assert MinSize(GROUP_UPDATE, 4) == 28;
    assert MinSize(HANDSHAKE, 3) == 13;
    assert MinSize(PROFILE_UPDATE, 4) == 272;
  }

  // ---- Every message type ----

  const LAYOUTS: seq<seq<Field>> :=
    [HEADER, DIRECT_MESSAGE, GROUP_MESSAGE, ACK, NACK, READ_RECEIPT, GROUP_CREATE, GROUP_JOIN_OR_LEAVE, GROUP_UPDATE,
     HANDSHAKE, RELAY_FORWARD, PROFILE_UPDATE, KEY_BUNDLE, INITIAL_MESSAGE]

  /** Each of the message types round-trips exactly when it fits, and different messages that fit look different. */
  lemma EveryTypeRoundTrips(i: nat, v: seq<Val>, w: seq<Val>, rest: bytes)
    requires i < |LAYOUTS| && ShapedAll(LAYOUTS[i], v) && ShapedAll(LAYOUTS[i], w)
    ensures Decode(LAYOUTS[i], Encode(LAYOUTS[i], v) + rest) == Some((v, rest)) <==> FitsAll(LAYOUTS[i], v)
    ensures FitsAll(LAYOUTS[i], v) && FitsAll(LAYOUTS[i], w) && v != w ==> Encode(LAYOUTS[i], v) != Encode(LAYOUTS[i], w)
  {
    RoundTripIffFits(LAYOUTS[i], v, rest);
    if FitsAll(LAYOUTS[i], v) && FitsAll(LAYOUTS[i], w) && Encode(LAYOUTS[i], v) == Encode(LAYOUTS[i], w) {
      EncodeInjective(LAYOUTS[i], v, w);
    }
  }

  // ---- The size an encoder allocates ----

  /** Go's array types fix the length of the fields that are arrays. */
  predicate Typed(f: Field, v: Val)
    requires Shaped(f, v)
    decreases f, 1
  {
    match f
    case Fixed(w) => |v.data| == w
    case Records(_, record) => forall i :: 0 <= i < |v.rows| ==> TypedAll(record, v.rows[i])
    case _ => true
  }

  predicate TypedAll(fs: seq<Field>, vs: seq<Val>)
    requires ShapedAll(fs, vs)
    decreases fs, 0
  {
    fs == [] || (Typed(fs[0], vs[0]) && TypedAll(fs[1..], vs[1..]))
  }

  /** The field has one size whatever its value. */
  predicate OneSize(f: Field) {
    f.Tag? || f.Fixed? || f.Number?
  }

  /** Repeated records consist of fields of one size, as members and prekeys do. */
  predicate FlatRecords(fs: seq<Field>) {
    forall i :: 0 <= i < |fs| ==> fs[i].Records? ==> forall j :: 0 <= j < |fs[i].record| ==> OneSize(fs[i].record[j])
  }

  lemma LayoutsAreFlat(i: nat)
    requires i < |LAYOUTS|
    ensures FlatRecords(LAYOUTS[i])
  {
  }

  /** The encoders' own sum: fixed parts, lengths of strings, and a count times the size of one record. */
  function Size(fs: seq<Field>, vs: seq<Val>): nat
    requires ShapedAll(fs, vs)
  {
    if fs == [] then 0 else FieldSize(fs[0], vs[0]) + Size(fs[1..], vs[1..])
  }

  function FieldSize(f: Field, v: Val): nat
    requires Shaped(f, v)
  {
    match f
    case Tag(_) => 1
    case Fixed(w) => w
    case Number(w) => w
    case Blob(p) => p + |v.data|
    case Records(p, record) => p + |v.rows| * MinSize(record, 0)
  }

  lemma {:induction false} FlatSize(fs: seq<Field>, i: nat, vs: seq<Val>)
    requires i <= |fs| && ShapedAll(fs[i..], vs) && TypedAll(fs[i..], vs) && forall j :: 0 <= j < |fs| ==> OneSize(fs[j])
    ensures |Encode(fs[i..], vs)| == MinSize(fs, i)
    decreases |fs| - i
  {
    if i < |fs| {
      assert fs[i..][1..] == fs[i + 1..];
      FlatSize(fs, i + 1, vs[1..]);
    }
  }

  lemma OneMore(n: nat, size: nat)
    ensures (n + 1) * size == size + n * size
  {
  }

  lemma {:induction false} RowsSize(fs: seq<Field>, rows: seq<seq<Val>>)
    requires forall i :: 0 <= i < |rows| ==> ShapedAll(fs, rows[i]) && TypedAll(fs, rows[i])
    requires forall j :: 0 <= j < |fs| ==> OneSize(fs[j])
    ensures |EncodeRows(fs, rows)| == |rows| * MinSize(fs, 0)
    decreases |rows|
  {
    if rows != [] {
      assert fs[0..] == fs;
      FlatSize(fs, 0, rows[0]);
      RowsSize(fs, rows[1..]);
      OneMore(|rows| - 1, MinSize(fs, 0));
    }
  }

  /** What an encoder allocates is what its writes fill. */
  lemma {:induction false} SizeIsEncoded(fs: seq<Field>, vs: seq<Val>)
    requires ShapedAll(fs, vs) && TypedAll(fs, vs) && FlatRecords(fs)
    ensures Size(fs, vs) == |Encode(fs, vs)|
  {
    if fs != [] {
      if fs[0].Records? {
        RowsSize(fs[0].record, vs[0].rows);
      }
      assert forall i :: 0 <= i < |fs| - 1 ==> fs[1..][i] == fs[i + 1];
      SizeIsEncoded(fs[1..], vs[1..]);
    }
  }

  // ---- Signing ----

  lemma {:induction false} ShapedSplit(fs: seq<Field>, vs: seq<Val>, k: nat)
    requires ShapedAll(fs, vs) && k <= |fs|
    ensures ShapedAll(fs[..k], vs[..k]) && ShapedAll(fs[k..], vs[k..])
    decreases k
  {
    if k > 0 {
      ShapedSplit(fs[1..], vs[1..], k - 1);
      assert fs[..k][1..] == fs[1..][..k - 1] && vs[..k][1..] == vs[1..][..k - 1];
    }
  }

  /** Leaving out the last fields leaves out the last bytes. */
  lemma {:induction false} EncodeSplit(fs: seq<Field>, vs: seq<Val>, k: nat)
    requires ShapedAll(fs, vs) && k <= |fs|
    requires ShapedAll(fs[..k], vs[..k]) && ShapedAll(fs[k..], vs[k..])
    ensures Encode(fs, vs) == Encode(fs[..k], vs[..k]) + Encode(fs[k..], vs[k..])
    decreases k
  {
    if k == 0 {
      assert fs[0..] == fs && vs[0..] == vs;
    } else {
      ShapedSplit(fs[1..], vs[1..], k - 1);
      EncodeSplit(fs[1..], vs[1..], k - 1);
      assert fs[..k][1..] == fs[1..][..k - 1] && vs[..k][1..] == vs[1..][..k - 1];
      assert fs[1..][k - 1..] == fs[k..] && vs[1..][k - 1..] == vs[k..];
      ConcatAssoc(EncodeField(fs[0], vs[0]), Encode(fs[1..][..k - 1], vs[1..][..k - 1]), Encode(fs[k..], vs[k..]));
    }
  }

  /** EncodeForSigning: the layout without its signature. */
  function EncodeForSigning(fs: seq<Field>, vs: seq<Val>): bytes
    requires ShapedAll(fs, vs) && fs != []
  {
    ShapedSplit(fs, vs, |fs| - 1);
    Encode(fs[..|fs| - 1], vs[..|vs| - 1])
  }

  /** What is signed is a prefix of what is sent: only the length-prefixed signature follows. */
  lemma SigningPrefix(fs: seq<Field>, vs: seq<Val>)
    requires ShapedAll(fs, vs) && fs in [GROUP_JOIN_OR_LEAVE, GROUP_UPDATE, PROFILE_UPDATE]
    ensures vs[|vs| - 1].Raw?
    ensures var sig := vs[|vs| - 1].data; Encode(fs, vs) == EncodeForSigning(fs, vs) + (BigEndian(|sig|, 4) + sig)
  {
    var k := |fs| - 1;
    ShapedSplit(fs, vs, k);
    EncodeSplit(fs, vs, k);
    assert fs[k..] == [Blob(4)] && vs[k..] == [vs[k]];
    assert Shaped(fs[k..][0], vs[k..][0]);
    var sig := vs[k].data;
    assert fs[k..][1..] == [] && vs[k..][1..] == [];
    assert (BigEndian(|sig|, 4) + sig) + [] == BigEndian(|sig|, 4) + sig;
  }
}
