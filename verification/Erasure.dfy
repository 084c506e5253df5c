/** Reed-Solomon 10+5 as used by pkg/meshstorage/erasure.go: split, encode, reconstruct, join and trim. */
module Erasure {
  import opened Bytes

  const DATA: nat := 10
  const PARITY: nat := 5
  const TOTAL: nat := 15
  const MIN_FOR_RECOVERY: nat := 10

  type Partial = seq<Option<bytes>>

  /** Ten non-empty shards of one size. */
  ghost predicate DataShards(d: seq<bytes>) {
    |d| == DATA && |d[0]| > 0 && forall i :: 0 <= i < DATA ==> |d[i]| == |d[0]|
  }

  /** The Reed-Solomon library: parity of ten data shards, and reconstruction from what is present. */
  datatype Code = Code(parity: seq<bytes> -> seq<bytes>, reconstruct: Partial -> Option<seq<bytes>>) {
    function Parity(d: seq<bytes>): seq<bytes> { parity(d) }

    function Reconstruct(p: Partial): Option<seq<bytes>> { reconstruct(p) }

    function Codeword(d: seq<bytes>): seq<bytes> { d + Parity(d) }

    /** Five parity shards of the same size; any ten shards of a codeword determine all fifteen. */
    ghost predicate Lawful() {
      && (forall d :: DataShards(d) ==>
            |Parity(d)| == PARITY && forall i :: 0 <= i < PARITY ==> |Parity(d)[i]| == |d[0]|)
      && (forall d, p :: DataShards(d) && Agrees(p, Codeword(d)) && Present(p) >= MIN_FOR_RECOVERY ==>
            Reconstruct(p) == Some(Codeword(d)))
    }
  }

  function Present(p: Partial): nat {
    if p == [] then 0 else Present(p[..|p| - 1]) + if p[|p| - 1].Some? then 1 else 0
  }

  ghost predicate Agrees(p: Partial, shards: seq<bytes>) {
    |p| == |shards| && forall i :: 0 <= i < |p| && p[i].Some? ==> p[i].value == shards[i]
  }

  // ---- Split, join and trim ----

  /** Bytes per shard, rounded up. */
  function PerShard(n: nat): nat {
    (n + DATA - 1) / DATA
  }

  /** The data, zero-padded to a multiple of ten, cut into `n` pieces of `size` bytes. */
  function Pieces(s: bytes, size: nat, n: nat): (r: seq<bytes>)
    requires |s| == n * size
    ensures |r| == n && forall i :: 0 <= i < n ==> |r[i]| == size
    decreases n
  {
    if n == 0 then [] else
      PiecesFit(n, size);
      [s[..size]] + Pieces(s[size..], size, n - 1)
  }

  lemma PiecesFit(n: nat, size: nat)
    requires n > 0
    ensures n * size >= size && n * size - size == (n - 1) * size
  {
  }

  function Split(data: bytes): (r: seq<bytes>)
    requires data != []
    ensures DataShards(r)
  {
    var size := PerShard(|data|);
    Pieces(data + Zeros(DATA * size - |data|), size, DATA)
  }

  function Join(d: seq<bytes>): bytes {
    if d == [] then [] else Join(d[..|d| - 1]) + d[|d| - 1]
  }

  lemma {:induction false} JoinFront(x: bytes, d: seq<bytes>)
    ensures Join([x] + d) == x + Join(d)
    decreases |d|
  {
    if d == [] {
      assert ([x] + d)[..0] == [];
    } else {
      var n := |d| - 1;
      JoinFront(x, d[..n]);
      assert ([x] + d)[..n + 1] == [x] + d[..n];
      ConcatAssoc(x, Join(d[..n]), d[n]);
    }
  }

  lemma {:induction false} JoinPieces(s: bytes, size: nat, n: nat)
    requires |s| == n * size
    ensures Join(Pieces(s, size, n)) == s
    decreases n
  {
    if n > 0 {
      PiecesFit(n, size);
      JoinPieces(s[size..], size, n - 1);
      JoinFront(s[..size], Pieces(s[size..], size, n - 1));
      assert s[..size] + s[size..] == s;
    }
  }

  function Trim(buf: bytes, size: nat): bytes {
    if |buf| > size then buf[..size] else buf
  }

  /** The shards are the data, padded with as few zeros as make them ten of one size. */
  lemma SplitPadsWithZeros(data: bytes)
    requires data != []
    ensures var size := |Split(data)[0]|;
            && DATA * (size - 1) < |data| <= DATA * size && (forall i :: 0 <= i < DATA ==> |Split(data)[i]| == size)
            && Join(Split(data)) == data + Zeros(DATA * size - |data|)
  {
    var size := PerShard(|data|);
    JoinPieces(data + Zeros(DATA * size - |data|), size, DATA);
  }

  /** Padding, cutting, joining and trimming give the data back. */
  lemma SplitJoinTrim(data: bytes)
    requires data != []
    ensures Trim(Join(Split(data)), |data|) == data
  {
    var size := PerShard(|data|);
    var padded := data + Zeros(DATA * size - |data|);
    JoinPieces(padded, size, DATA);
    assert padded[..|data|] == data;
  }

  // ---- Encode and Decode ----

  datatype EncodedData = EncodedData(shards: Partial, originalSize: nat)

  datatype Failure = EmptyData | WrongShardCount | TooFewShards | ReconstructionFailed | VerificationFailed

  datatype Result<+T> = Ok(value: T) | Err(error: Failure)

  function Encode(c: Code, data: bytes): Result<seq<bytes>> {
    if data == [] then Err(EmptyData) else Ok(c.Codeword(Split(data)))
  }

  function Decode(c: Code, e: EncodedData): Result<bytes> {
    if |e.shards| != TOTAL then Err(WrongShardCount)
    else if Present(e.shards) < MIN_FOR_RECOVERY then Err(TooFewShards)
    else
      match c.Reconstruct(e.shards)
      case None => Err(ReconstructionFailed)
      case Some(s) =>
        if |s| != TOTAL || c.Parity(s[..DATA]) != s[DATA..] then Err(VerificationFailed)
        else Ok(Trim(Join(s[..DATA]), e.originalSize))
  }

  /** Any ten shards of an encoding decode to the data; fewer are refused. */
  lemma DecodeEncode(c: Code, data: bytes, p: Partial)
    requires c.Lawful() && data != [] && Agrees(p, Encode(c, data).value)
    ensures Decode(c, EncodedData(p, |data|)) == if Present(p) >= MIN_FOR_RECOVERY then Ok(data) else Err(TooFewShards)
  {
    var d := Split(data);
    var s := c.Codeword(d);
    assert |c.Parity(d)| == PARITY;
    assert s[..DATA] == d && s[DATA..] == c.Parity(d);
    SplitJoinTrim(data);
  }

  /** Nothing is decoded but from fifteen slots, ten of them filled, whose reconstruction passes verification. */
  lemma DecodeVerifies(c: Code, e: EncodedData)
    ensures Decode(c, e).Ok? <==>
            && |e.shards| == TOTAL && Present(e.shards) >= MIN_FOR_RECOVERY && c.Reconstruct(e.shards).Some?
            && |c.Reconstruct(e.shards).value| == TOTAL
            && c.Codeword(c.Reconstruct(e.shards).value[..DATA]) == c.Reconstruct(e.shards).value
    ensures Decode(c, e).Ok? ==> |Decode(c, e).value| <= e.originalSize
  {
    if c.Reconstruct(e.shards).Some? && |c.Reconstruct(e.shards).value| == TOTAL {
      var s := c.Reconstruct(e.shards).value;
      assert s[..DATA] + s[DATA..] == s;
      assert (s[..DATA] + c.Parity(s[..DATA]))[DATA..] == c.Parity(s[..DATA]);
    }
  }

  /** Decode as the code runs it: counting loop, reconstruction, verification, appending loop, trim. */
  method DecodeLoop(c: Code, e: EncodedData) returns (r: Result<bytes>)
    ensures r == Decode(c, e)
  {
    if |e.shards| != TOTAL {
      return Err(WrongShardCount);
    }
    var available := 0;
    for i := 0 to |e.shards|
      invariant available == Present(e.shards[..i])
    {
      assert e.shards[..i + 1][..i] == e.shards[..i];
      if e.shards[i].Some? {
        available := available + 1;
      }
    }
    assert e.shards[..|e.shards|] == e.shards;
    if available < MIN_FOR_RECOVERY {
      return Err(TooFewShards);
    }
    var rebuilt := c.Reconstruct(e.shards);
    if rebuilt.None? {
      return Err(ReconstructionFailed);
    }
    var s := rebuilt.value;
    if |s| != TOTAL || c.Parity(s[..DATA]) != s[DATA..] {
      return Err(VerificationFailed);
    }
    var buf: bytes := [];
    for i := 0 to DATA
      invariant buf == Join(s[..i])
    {
      assert s[..i + 1][..i] == s[..i];
      buf := buf + s[i];
    }
    if |buf| > e.originalSize {
      buf := buf[..e.originalSize];
    }
    return Ok(buf);
  }
}
