/** The encoders and decoders as they run: a buffer and a moving offset, with loops over counted records. */
module CodecLoops {
  import opened Bytes
  import opened Codec

  method WriteBytes(buf: array<byte>, offset: nat, s: bytes)
    requires offset + |s| <= buf.Length
    modifies buf
    ensures buf[..offset + |s|] == old(buf[..offset]) + s
  {
    for i := 0 to |s|
      invariant buf[..offset] == old(buf[..offset])
      invariant forall k :: 0 <= k < i ==> buf[offset + k] == s[k]
    {
      buf[offset + i] := s[i];
    }
  }

  /** Writes one field at the offset, and leaves everything before it alone. */
  method WriteField(buf: array<byte>, offset: nat, f: Field, v: Val) returns (next: nat)
    requires Shaped(f, v) && offset + |EncodeField(f, v)| <= buf.Length
    modifies buf
    ensures next == offset + |EncodeField(f, v)|
    ensures buf[..next] == old(buf[..offset]) + EncodeField(f, v)
    decreases f, 1
  {
    match f
    case Tag(b) =>
      WriteBytes(buf, offset, [b]);
      next := offset + 1;
    case Fixed(_) =>
      WriteBytes(buf, offset, v.data);
      next := offset + |v.data|;
    case Number(w) =>
      WriteBytes(buf, offset, BigEndian(v.n, w));
      next := offset + w;
    case Blob(p) =>
      WriteBytes(buf, offset, BigEndian(|v.data|, p));
      WriteBytes(buf, offset + p, v.data);
      next := offset + p + |v.data|;
      ConcatAssoc(old(buf[..offset]), BigEndian(|v.data|, p), v.data);
    case Records(p, record) =>
      WriteBytes(buf, offset, BigEndian(|v.rows|, p));
      next := WriteRows(buf, offset + p, record, v.rows);
      ConcatAssoc(old(buf[..offset]), BigEndian(|v.rows|, p), EncodeRows(record, v.rows));
  }

  /** The loop over the members of a group, or over the one-time prekeys of a bundle. */
  method WriteRows(buf: array<byte>, offset: nat, record: seq<Field>, rows: seq<seq<Val>>) returns (next: nat)
    requires forall i :: 0 <= i < |rows| ==> ShapedAll(record, rows[i])
    requires offset + |EncodeRows(record, rows)| <= buf.Length
    modifies buf
    ensures next == offset + |EncodeRows(record, rows)|
    ensures buf[..next] == old(buf[..offset]) + EncodeRows(record, rows)
    decreases record, 1
  {
    next := offset;
    ghost var start := old(buf[..offset]);
    assert rows[..0] == [] && start + [] == start;
    for i := 0 to |rows|
      invariant next == offset + |EncodeRows(record, rows[..i])|
      invariant next + |EncodeRows(record, rows[i..])| <= buf.Length
      invariant EncodeRows(record, rows) == EncodeRows(record, rows[..i]) + EncodeRows(record, rows[i..])
      invariant buf[..next] == start + EncodeRows(record, rows[..i])
    {
      RowsNext(record, rows, i);
      ConcatAssoc(start, EncodeRows(record, rows[..i]), Encode(record, rows[i]));
      next := WriteFields(buf, next, record, rows[i]);
    }
    assert rows[..|rows|] == rows;
  }

  method WriteFields(buf: array<byte>, offset: nat, fs: seq<Field>, vs: seq<Val>) returns (next: nat)
    requires ShapedAll(fs, vs) && offset + |Encode(fs, vs)| <= buf.Length
    modifies buf
    ensures next == offset + |Encode(fs, vs)|
    ensures buf[..next] == old(buf[..offset]) + Encode(fs, vs)
    decreases fs, 0
  {
    next := offset;
    if fs == [] {
      assert old(buf[..offset]) + [] == old(buf[..offset]);
    } else {
      next := WriteField(buf, next, fs[0], vs[0]);
      ConcatAssoc(old(buf[..offset]), EncodeField(fs[0], vs[0]), Encode(fs[1..], vs[1..]));
      next := WriteFields(buf, next, fs[1..], vs[1..]);
    }
  }

  lemma {:induction false} RowsAppend(fs: seq<Field>, rows: seq<seq<Val>>, row: seq<Val>)
    requires forall i :: 0 <= i < |rows| ==> ShapedAll(fs, rows[i])
    requires ShapedAll(fs, row)
    ensures EncodeRows(fs, rows + [row]) == EncodeRows(fs, rows) + Encode(fs, row)
    decreases |rows|
  {
    if rows == [] {
      assert (rows + [row])[1..] == [];
      assert Encode(fs, row) + [] == [] + Encode(fs, row);
    } else {
      RowsAppend(fs, rows[1..], row);
      assert (rows + [row])[1..] == rows[1..] + [row];
      ConcatAssoc(Encode(fs, rows[0]), EncodeRows(fs, rows[1..]), Encode(fs, row));
    }
  }

  lemma RowsNext(fs: seq<Field>, rows: seq<seq<Val>>, i: nat)
    requires i < |rows| && forall k :: 0 <= k < |rows| ==> ShapedAll(fs, rows[k])
    ensures EncodeRows(fs, rows[..i + 1]) == EncodeRows(fs, rows[..i]) + Encode(fs, rows[i])
    ensures EncodeRows(fs, rows[i..]) == Encode(fs, rows[i]) + EncodeRows(fs, rows[i + 1..])
    ensures EncodeRows(fs, rows) == EncodeRows(fs, rows[..i]) + EncodeRows(fs, rows[i..]) ==>
            EncodeRows(fs, rows) == EncodeRows(fs, rows[..i + 1]) + EncodeRows(fs, rows[i + 1..])
  {
    assert rows[..i + 1] == rows[..i] + [rows[i]];
    assert rows[i..][1..] == rows[i + 1..];
    RowsAppend(fs, rows[..i], rows[i]);
    ConcatAssoc(EncodeRows(fs, rows[..i]), Encode(fs, rows[i]), EncodeRows(fs, rows[i + 1..]));
  }

  /** Allocates the size summed up beforehand, which the writes then fill exactly. */
  method EncodeMessage(fs: seq<Field>, vs: seq<Val>) returns (buf: array<byte>)
    requires ShapedAll(fs, vs) && TypedAll(fs, vs) && FlatRecords(fs)
    ensures fresh(buf) && buf[..] == Encode(fs, vs)
  {
    SizeIsEncoded(fs, vs);
    buf := new byte[Size(fs, vs)];
    var n := WriteFields(buf, 0, fs, vs);
    assert buf[..n] == buf[..];
  }

  /** The encoder of each of the message types. */
  method EncodeLayout(i: nat, vs: seq<Val>) returns (buf: array<byte>)
    requires i < |LAYOUTS| && ShapedAll(LAYOUTS[i], vs) && TypedAll(LAYOUTS[i], vs)
    ensures fresh(buf) && buf.Length == Size(LAYOUTS[i], vs) && buf[..] == Encode(LAYOUTS[i], vs)
  {
    LayoutsAreFlat(i);
    SizeIsEncoded(LAYOUTS[i], vs);
    buf := EncodeMessage(LAYOUTS[i], vs);
  }

  // ---- Reading ----

  /** Positions counted from an offset. */
  lemma Window(buf: bytes, offset: nat, i: nat, j: nat)
    requires i <= j && offset + j <= |buf|
    ensures buf[offset..][i..j] == buf[offset + i..offset + j] && buf[offset..][j..] == buf[offset + j..]
  {
  }

  /** Reads one field at the offset and says where the next one starts. */
  method ReadField(f: Field, buf: bytes, offset: nat) returns (r: Option<(Val, nat)>)
    requires offset <= |buf|
    ensures r.None? <==> DecodeField(f, buf[offset..]).None?
    ensures r.Some? ==> offset <= r.value.1 <= |buf| && DecodeField(f, buf[offset..]) == Some((r.value.0, buf[r.value.1..]))
    decreases f, 1
  {
    match f
    case Tag(t) =>
      if |buf| < offset + 1 || buf[offset] != t {
        return None;
      }
      return Some((Unit, offset + 1));
    case Fixed(w) => r := ReadFixed(w, buf, offset);
    case Number(w) => r := ReadNumber(w, buf, offset);
    case Blob(p) => r := ReadBlob(p, buf, offset);
    case Records(p, record) => r := ReadRecords(p, record, buf, offset);
  }

  method ReadFixed(w: nat, buf: bytes, offset: nat) returns (r: Option<(Val, nat)>)
    requires offset <= |buf|
    ensures r.None? <==> DecodeField(Fixed(w), buf[offset..]).None?
    ensures r.Some? ==> offset <= r.value.1 <= |buf| &&
                        DecodeField(Fixed(w), buf[offset..]) == Some((r.value.0, buf[r.value.1..]))
  {
    if |buf| < offset + w {
      return None;
    }
    Window(buf, offset, 0, w);
    return Some((Raw(buf[offset..offset + w]), offset + w));
  }

  method ReadNumber(w: nat, buf: bytes, offset: nat) returns (r: Option<(Val, nat)>)
    requires offset <= |buf|
    ensures r.None? <==> DecodeField(Number(w), buf[offset..]).None?
    ensures r.Some? ==> offset <= r.value.1 <= |buf| &&
                        DecodeField(Number(w), buf[offset..]) == Some((r.value.0, buf[r.value.1..]))
  {
    if |buf| < offset + w {
      return None;
    }
    Window(buf, offset, 0, w);
    return Some((Num(Value(buf[offset..offset + w])), offset + w));
  }

  /** A count, then as many records. */
  method ReadRecords(p: nat, record: seq<Field>, buf: bytes, offset: nat) returns (r: Option<(Val, nat)>)
    requires offset <= |buf|
    ensures r.None? <==> DecodeField(Records(p, record), buf[offset..]).None?
    ensures r.Some? ==> offset <= r.value.1 <= |buf| &&
                        DecodeField(Records(p, record), buf[offset..]) == Some((r.value.0, buf[r.value.1..]))
    decreases record, 2
  {
    if |buf| < offset + p {
      return None;
    }
    Window(buf, offset, 0, p);
    var rows := ReadRows(record, Value(buf[offset..offset + p]), buf, offset + p);
    if rows.None? {
      return None;
    }
    return Some((Many(rows.value.0), rows.value.1));
  }

  /** A length, then as many bytes. */
  method ReadBlob(p: nat, buf: bytes, offset: nat) returns (r: Option<(Val, nat)>)
    requires offset <= |buf|
    ensures r.None? <==> DecodeField(Blob(p), buf[offset..]).None?
    ensures r.Some? ==> offset <= r.value.1 <= |buf| &&
                        DecodeField(Blob(p), buf[offset..]) == Some((r.value.0, buf[r.value.1..]))
  {
    if |buf| < offset + p {
      return None;
    }
    Window(buf, offset, 0, p);
    var n := Value(buf[offset..offset + p]);
    if |buf| < offset + p + n {
      return None;
    }
    Window(buf, offset, p, p + n);
    return Some((Raw(buf[offset + p..offset + p + n]), offset + p + n));
  }

  /** Reads the announced number of records, one after the other. */
  method ReadRows(record: seq<Field>, count: nat, buf: bytes, offset: nat) returns (r: Option<(seq<seq<Val>>, nat)>)
    requires offset <= |buf|
    ensures r.None? <==> DecodeRows(record, count, buf[offset..]).None?
    ensures r.Some? ==> offset <= r.value.1 <= |buf| &&
                        DecodeRows(record, count, buf[offset..]) == Some((r.value.0, buf[r.value.1..]))
    decreases record, 1
  {
    var rows, next := [], offset;
    AfterNothing(DecodeRows(record, count, buf[offset..]));
    for i := 0 to count
      invariant offset <= next <= |buf|
      invariant DecodeRows(record, count, buf[offset..]) == After(rows, DecodeRows(record, count - i, buf[next..]))
    {
      var row := ReadFields(record, buf, next);
      if row.None? {
        return None;
      }
      AfterNext(rows, row.value.0, DecodeRows(record, count - i - 1, buf[row.value.1..]));
      rows, next := rows + [row.value.0], row.value.1;
    }
    assert rows + [] == rows;
    return Some((rows, next));
  }

  /** Items already read, followed by the result of reading the rest. */
  function After<T>(items: seq<T>, r: Option<(seq<T>, bytes)>): Option<(seq<T>, bytes)> {
    match r
    case None => None
    case Some((more, rest)) => Some((items + more, rest))
  }

  lemma AfterNothing<T>(r: Option<(seq<T>, bytes)>)
    ensures After([], r) == r
  {
    if r.Some? {
      assert [] + r.value.0 == r.value.0;
    }
  }

  lemma AfterNext<T>(items: seq<T>, x: T, r: Option<(seq<T>, bytes)>)
    ensures After(items, After([x], r)) == After(items + [x], r)
  {
    if r.Some? {
      ConcatAssoc(items, [x], r.value.0);
    }
  }

  method ReadFields(fs: seq<Field>, buf: bytes, offset: nat) returns (r: Option<(seq<Val>, nat)>)
    requires offset <= |buf|
    ensures r.None? <==> Decode(fs, buf[offset..]).None?
    ensures r.Some? ==> offset <= r.value.1 <= |buf| && Decode(fs, buf[offset..]) == Some((r.value.0, buf[r.value.1..]))
    decreases fs, 0
  {
    if fs == [] {
      return Some(([], offset));
    }
    var first := ReadField(fs[0], buf, offset);
    if first.None? {
      return None;
    }
    var others := ReadFields(fs[1..], buf, first.value.1);
    if others.None? {
      return None;
    }
    return Some(([first.value.0] + others.value.0, others.value.1));
  }
}
