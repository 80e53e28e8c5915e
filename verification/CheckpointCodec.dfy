/** The two checkpoint file formats. The checksum is an arbitrary function: nothing here rests on
    its values. */
module CheckpointCodec {
  import opened Int64
  import opened Elements
  import opened ByteOrder

  type uint32 = n: int | 0 <= n < 0x1_0000_0000
  type Checksum = Bytes -> uint32

  datatype Error = ShortFile | BadMagic | CrcMismatch | BadVersion | WrongCheckpoint | WrongSubtask
  datatype Result<+T> = Ok(value: T) | Err(error: Error)

  /** "TDMK", then the format version. */
  const HEADER: Bytes := [84, 68, 77, 75, 0, 1]

  const MAX_ID_BYTES: nat := 0xFFFF

  function Uint16(n: nat): (b: Bytes)
    ensures |b| == 2
  {
    Spans();
    BigEndian(n % 0x1_0000, 2)
  }

  function Uint32(n: nat): (b: Bytes)
    ensures |b| == 4
  {
    Spans();
    BigEndian(n % 0x1_0000_0000, 4)
  }

  function Uint64(n: nat): (b: Bytes)
    ensures |b| == 8
  {
    Spans();
    BigEndian(n % TWO_64, 8)
  }

  /** A value that fits its field is read back; and bytes are what their value is written as. */
  lemma {:induction false} Fields(n: nat)
    ensures n < 0x1_0000 ==> ReadBigEndian(Uint16(n)) == n
    ensures n < 0x1_0000_0000 ==> ReadBigEndian(Uint32(n)) == n
    ensures n < TWO_64 ==> ReadBigEndian(Uint64(n)) == n
  {
    hide BigEndian, ReadBigEndian;
    Spans();
    if n < 0x1_0000 { ReadBack(n, 2); }
    if n < 0x1_0000_0000 { ReadBack(n, 4); }
    if n < TWO_64 { ReadBack(n, 8); }
  }

  lemma {:induction false} FieldBytes(b: Bytes)
    ensures |b| == 2 ==> Uint16(ReadBigEndian(b)) == b && ReadBigEndian(b) <= MAX_ID_BYTES
    ensures |b| == 4 ==> Uint32(ReadBigEndian(b)) == b && ReadBigEndian(b) < 0x1_0000_0000
    ensures |b| == 8 ==> Uint64(ReadBigEndian(b)) == b && ReadBigEndian(b) < TWO_64
  {
    hide BigEndian, ReadBigEndian;
    Spans();
    WriteBack(b);
  }

  // ----- Framing ---------------------------------------------------------------------------

  /** Every byte before it is covered by the checksum at the end. */
  function Frame(crc: Checksum, rest: Bytes): Bytes {
    HEADER + rest + Uint32(crc(HEADER + rest))
  }

  /** What lies between the header and the checksum, once both have been verified. */
  function Unframe(crc: Checksum, raw: Bytes): Result<Bytes> {
    if |raw| < 10 then Err(ShortFile)
    else if raw[..4] != HEADER[..4] then Err(BadMagic)
    else if crc(raw[..|raw| - 4]) != ReadBigEndian(raw[|raw| - 4..]) then Err(CrcMismatch)
    else if ReadBigEndian(raw[4..6]) != 1 then Err(BadVersion)
    else Ok(raw[6..|raw| - 4])
  }

  lemma {:induction false} UnframeIff(crc: Checksum, raw: Bytes, rest: Bytes)
    ensures Unframe(crc, raw) == Ok(rest) <==> raw == Frame(crc, rest)
  {
    if raw == Frame(crc, rest) {
      Framed(crc, rest);
    }
    if Unframe(crc, raw) == Ok(rest) {
      Unframed(crc, raw, rest);
    }
  }

  lemma {:induction false} Framed(crc: Checksum, rest: Bytes)
    ensures Unframe(crc, Frame(crc, rest)) == Ok(rest)
  {
    var raw := Frame(crc, rest);
    assert raw[..|raw| - 4] == HEADER + rest && raw[|raw| - 4..] == Uint32(crc(HEADER + rest));
    Fields(crc(HEADER + rest));
    assert raw[..4] == HEADER[..4] && raw[4..6] == [0, 1] && raw[6..|raw| - 4] == rest;
    Spans();
    VersionOne();
  }

  lemma {:induction false} VersionOne()
    ensures ReadBigEndian([0, 1]) == 1 && Uint16(1) == [0, 1]
  {
    assert [0, 1][..1] == [0] && [0][..0] == [];
    assert ReadBigEndian([]) == 0;
    FieldBytes([0, 1]);
  }

  lemma {:induction false} Unframed(crc: Checksum, raw: Bytes, rest: Bytes)
    requires Unframe(crc, raw) == Ok(rest)
    ensures raw == Frame(crc, rest)
  {
    VersionOne();
    FieldBytes(raw[4..6]);
    FieldBytes(raw[|raw| - 4..]);
    assert raw[..4] + raw[4..6] == HEADER;
    assert raw[..|raw| - 4] == HEADER + rest;
  }

  // ----- State files -----------------------------------------------------------------------

  function SubtaskBody(id: int64, key: SubtaskKey, payload: Bytes): Bytes {
    Uint64(ToUint64(id)) + (Uint16(|key.vertexId|) + key.vertexId + (Uint32(key.index) + (Uint64(|payload|) + payload)))
  }

  function EncodeSubtaskState(crc: Checksum, id: int64, key: SubtaskKey, payload: Bytes): Bytes {
    Frame(crc, SubtaskBody(id, key, payload))
  }

  /** The payload must run to the end of the body, no further and no less. */
  function ParsePayload(b: Bytes): Result<Bytes> {
    if |b| < 8 || ReadBigEndian(b[..8]) != |b| - 8 then Err(ShortFile) else Ok(b[8..])
  }

  function ParseSubtask(b: Bytes, want: SubtaskKey): Result<Bytes> {
    if |b| < 2 || |b| < 2 + ReadBigEndian(b[..2]) + 4 then Err(ShortFile)
    else
      var n := ReadBigEndian(b[..2]);
      if b[2..2 + n] != want.vertexId || ReadBigEndian(b[2 + n..2 + n + 4]) != want.index then Err(WrongSubtask)
      else ParsePayload(b[2 + n + 4..])
  }

  function DecodeSubtaskState(crc: Checksum, raw: Bytes, wantId: int64, want: SubtaskKey): Result<Bytes> {
    var b := Unframe(crc, raw);
    if b.Err? then b
    else if |b.value| < 8 then Err(ShortFile)
    else if Wrap(ReadBigEndian(b.value[..8])) != wantId then Err(WrongCheckpoint)
    else ParseSubtask(b.value[8..], want)
  }

  /** An identity that fits the length fields, as checkVertexID makes sure of. */
  predicate Fits(key: SubtaskKey) {
    |key.vertexId| <= MAX_ID_BYTES && key.index < 0x1_0000_0000
  }

  lemma {:induction false} PayloadIff(b: Bytes, payload: Bytes)
    requires |payload| < TWO_64
    ensures ParsePayload(b) == Ok(payload) <==> b == Uint64(|payload|) + payload
  {
    Fields(|payload|);
    if b == Uint64(|payload|) + payload {
      assert b[..8] == Uint64(|payload|) && b[8..] == payload;
    }
    if ParsePayload(b) == Ok(payload) {
      FieldBytes(b[..8]);
      assert b == b[..8] + b[8..];
    }
  }

  lemma {:induction false} SubtaskIff(b: Bytes, key: SubtaskKey, payload: Bytes)
    requires Fits(key) && |payload| < TWO_64
    ensures ParseSubtask(b, key) == Ok(payload) <==>
            b == Uint16(|key.vertexId|) + key.vertexId + (Uint32(key.index) + (Uint64(|payload|) + payload))
  {
    hide Uint16, Uint32, Uint64, ReadBigEndian, ParsePayload;
    var tail := Uint64(|payload|) + payload;
    Fields(|key.vertexId|);
    Fields(key.index);
    var n := |key.vertexId|;
    if b == Uint16(n) + key.vertexId + (Uint32(key.index) + tail) {
      assert b[..2] == Uint16(n) && b[2..2 + n] == key.vertexId;
      assert b[2 + n..2 + n + 4] == Uint32(key.index) && b[2 + n + 4..] == tail;
      PayloadIff(tail, payload);
    }
    if ParseSubtask(b, key) == Ok(payload) {
      var m := ReadBigEndian(b[..2]);
      FieldBytes(b[..2]);
      FieldBytes(b[2 + m..2 + m + 4]);
      PayloadIff(b[2 + m + 4..], payload);
      assert b == b[..2] + b[2..2 + m] + (b[2 + m..2 + m + 4] + b[2 + m + 4..]);
    }
  }

  lemma {:induction false} FittingStateIff(crc: Checksum, raw: Bytes, id: int64, key: SubtaskKey, payload: Bytes)
    requires Fits(key) && |payload| < TWO_64
    ensures DecodeSubtaskState(crc, raw, id, key) == Ok(payload) <==> raw == EncodeSubtaskState(crc, id, key, payload)
  {
    hide Frame, Unframe, Uint64, Uint32, Uint16, ReadBigEndian, ParseSubtask;
    var rest := Uint16(|key.vertexId|) + key.vertexId + (Uint32(key.index) + (Uint64(|payload|) + payload));
    var body := SubtaskBody(id, key, payload);
    assert body == Uint64(ToUint64(id)) + rest;
    if raw == EncodeSubtaskState(crc, id, key, payload) {
      UnframeIff(crc, raw, body);
      assert body[..8] == Uint64(ToUint64(id)) && body[8..] == rest;
      Fields(ToUint64(id));
      SubtaskIff(rest, key, payload);
    }
    if DecodeSubtaskState(crc, raw, id, key) == Ok(payload) {
      var b := Unframe(crc, raw).value;
      UnframeIff(crc, raw, b);
      SubtaskIff(b[8..], key, payload);
      FieldBytes(b[..8]);
      WrapInverse(ReadBigEndian(b[..8]));
      assert b == b[..8] + b[8..];
    }
  }

  /** What is accepted fits the fields of the format. */
  lemma {:induction false} DecodedFits(crc: Checksum, raw: Bytes, id: int64, key: SubtaskKey)
    ensures DecodeSubtaskState(crc, raw, id, key).Ok? ==> Fits(key) && |DecodeSubtaskState(crc, raw, id, key).value| < TWO_64
  {
    hide Unframe, ReadBigEndian;
    if DecodeSubtaskState(crc, raw, id, key).Ok? {
      var b := Unframe(crc, raw).value[8..];
      FieldBytes(b[..2]);
      var n := ReadBigEndian(b[..2]);
      FieldBytes(b[2 + n..2 + n + 4]);
      FieldBytes(b[2 + n + 4..][..8]);
    }
  }

  /** Canonical: the decoder accepts a file with a payload exactly when the file is what the
      encoder writes for that checkpoint, subtask and payload, and those fit its length fields. */
  lemma {:induction false} SubtaskStateIff(crc: Checksum, raw: Bytes, id: int64, key: SubtaskKey, payload: Bytes)
    ensures DecodeSubtaskState(crc, raw, id, key) == Ok(payload) <==>
            Fits(key) && |payload| < TWO_64 && raw == EncodeSubtaskState(crc, id, key, payload)
  {
    hide DecodeSubtaskState, EncodeSubtaskState, Fits;
    DecodedFits(crc, raw, id, key);
    if Fits(key) && |payload| < TWO_64 {
      FittingStateIff(crc, raw, id, key, payload);
    }
  }

  // ----- Metadata --------------------------------------------------------------------------

  datatype VertexMeta = VertexMeta(id: Bytes, parallelism: nat, count: int64)
  datatype Metadata = Metadata(vertices: seq<VertexMeta>, seed: nat)

  function VertexBytes(v: VertexMeta): Bytes {
    Uint16(|v.id|) + v.id + (Uint32(v.parallelism) + Uint64(ToUint64(v.count)))
  }

  function VerticesBytes(vs: seq<VertexMeta>): Bytes {
    if vs == [] then [] else VertexBytes(vs[0]) + VerticesBytes(vs[1..])
  }

  function MetadataBody(m: Metadata): Bytes {
    Uint64(m.seed) + (Uint32(|m.vertices|) + VerticesBytes(m.vertices))
  }

  function EncodeMetadata(crc: Checksum, m: Metadata): Bytes {
    Frame(crc, MetadataBody(m))
  }

  predicate VertexFits(v: VertexMeta) {
    |v.id| <= MAX_ID_BYTES && v.parallelism < 0x1_0000_0000
  }

  predicate MetadataFits(m: Metadata) {
    |m.vertices| < 0x1_0000_0000 && m.seed < TWO_64 && forall i :: 0 <= i < |m.vertices| ==> VertexFits(m.vertices[i])
  }

  datatype Parsed<+T> = Parsed(value: T, rest: Bytes)

  function ParseVertex(b: Bytes): Result<Parsed<VertexMeta>> {
    if |b| < 2 || |b| < 2 + ReadBigEndian(b[..2]) + 12 then Err(ShortFile)
    else
      var n := ReadBigEndian(b[..2]);
      Ok(Parsed(VertexMeta(b[2..2 + n], ReadBigEndian(b[2 + n..2 + n + 4]), Wrap64(b[2 + n + 4..2 + n + 12])), b[2 + n + 12..]))
  }

  function Wrap64(b: Bytes): int64
    requires |b| == 8
  {
    Spans();
    Wrap(ReadBigEndian(b))
  }

  function ParseVertices(b: Bytes, n: nat): Result<Parsed<seq<VertexMeta>>> {
    if n == 0 then Ok(Parsed([], b))
    else
      var v := ParseVertex(b);
      if v.Err? then Err(v.error)
      else
        var vs := ParseVertices(v.value.rest, n - 1);
        if vs.Err? then vs else Ok(Parsed([v.value.value] + vs.value.value, vs.value.rest))
  }

  /** Reads as many vertices as the file says, and does not look at what follows them. */
  function DecodeMetadata(crc: Checksum, raw: Bytes): Result<Metadata> {
    var b := Unframe(crc, raw);
    if b.Err? then Err(b.error)
    else if |b.value| < 12 then Err(ShortFile)
    else
      var vs := ParseVertices(b.value[12..], ReadBigEndian(b.value[8..12]));
      if vs.Err? then Err(vs.error) else Ok(Metadata(vs.value.value, ReadBigEndian(b.value[..8])))
  }

  lemma {:induction false} VertexIff(b: Bytes, v: VertexMeta, rest: Bytes)
    requires VertexFits(v)
    ensures ParseVertex(b) == Ok(Parsed(v, rest)) <==> b == VertexBytes(v) + rest
  {
    hide Uint16, Uint32, Uint64, ReadBigEndian;
    var n := |v.id|;
    Fields(n);
    Fields(v.parallelism);
    Fields(ToUint64(v.count));
    if b == VertexBytes(v) + rest {
      assert b[..2] == Uint16(n) && b[2..2 + n] == v.id && b[2 + n..2 + n + 4] == Uint32(v.parallelism);
      assert b[2 + n + 4..2 + n + 12] == Uint64(ToUint64(v.count)) && b[2 + n + 12..] == rest;
    }
    if ParseVertex(b) == Ok(Parsed(v, rest)) {
      FieldBytes(b[..2]);
      FieldBytes(b[2 + n..2 + n + 4]);
      FieldBytes(b[2 + n + 4..2 + n + 12]);
      WrapInverse(ReadBigEndian(b[2 + n + 4..2 + n + 12]));
      VertexSplits(b, n);
    }
  }

  lemma {:induction false} VertexSplits(b: Bytes, n: nat)
    requires 2 + n + 12 <= |b|
    ensures b == b[..2] + b[2..2 + n] + (b[2 + n..2 + n + 4] + b[2 + n + 4..2 + n + 12]) + b[2 + n + 12..]
  {}

  lemma {:induction false} ParsedVertexFits(b: Bytes)
    ensures ParseVertex(b).Ok? ==> VertexFits(ParseVertex(b).value.value)
  {
    if ParseVertex(b).Ok? {
      var n := ReadBigEndian(b[..2]);
      FieldBytes(b[..2]);
      FieldBytes(b[2 + n..2 + n + 4]);
    }
  }

  lemma {:induction false} VerticesIff(b: Bytes, vs: seq<VertexMeta>, rest: Bytes)
    requires forall i :: 0 <= i < |vs| ==> VertexFits(vs[i])
    ensures ParseVertices(b, |vs|) == Ok(Parsed(vs, rest)) <==> b == VerticesBytes(vs) + rest
    decreases |vs|
  {
    hide VertexBytes, ParseVertex, VertexFits;
    if vs == [] {
      assert VerticesBytes(vs) + rest == rest;
    } else {
      var tail := VerticesBytes(vs[1..]) + rest;
      assert VerticesBytes(vs) + rest == VertexBytes(vs[0]) + tail;
      assert vs == [vs[0]] + vs[1..];
      VertexIff(b, vs[0], tail);
      VerticesIff(tail, vs[1..], rest);
      if ParseVertices(b, |vs|) == Ok(Parsed(vs, rest)) {
        FirstVertex(b, vs, rest);
        VerticesIff(ParseVertex(b).value.rest, vs[1..], rest);
      }
    }
  }

  lemma {:induction false} FirstVertex(b: Bytes, vs: seq<VertexMeta>, rest: Bytes)
    requires vs != [] && ParseVertices(b, |vs|) == Ok(Parsed(vs, rest))
    ensures ParseVertex(b).Ok? && ParseVertex(b).value.value == vs[0]
    ensures ParseVertices(ParseVertex(b).value.rest, |vs| - 1) == Ok(Parsed(vs[1..], rest))
  {
    hide ParseVertex;
    var first := ParseVertex(b).value;
    var others := ParseVertices(first.rest, |vs| - 1).value;
    assert ([first.value] + others.value)[0] == vs[0];
    assert ([first.value] + others.value)[1..] == others.value;
  }

  lemma {:induction false} ParsedVerticesFit(b: Bytes, n: nat)
    ensures ParseVertices(b, n).Ok? ==> forall i :: 0 <= i < |ParseVertices(b, n).value.value| ==> VertexFits(ParseVertices(b, n).value.value[i])
    decreases n
  {
    hide ParseVertex, VertexFits;
    if n > 0 && ParseVertex(b).Ok? {
      ParsedVertexFits(b);
      ParsedVerticesFit(ParseVertex(b).value.rest, n - 1);
    }
  }

  /** The decoder yields nothing the fields of the format could not hold. */
  lemma {:induction false} DecodedMetadataFits(crc: Checksum, raw: Bytes)
    ensures DecodeMetadata(crc, raw).Ok? ==> MetadataFits(DecodeMetadata(crc, raw).value)
  {
    hide Unframe, ReadBigEndian, ParseVertices, VertexFits;
    if DecodeMetadata(crc, raw).Ok? {
      var b := Unframe(crc, raw).value;
      FieldBytes(b[..8]);
      FieldBytes(b[8..12]);
      VerticesCount(b[12..], ReadBigEndian(b[8..12]));
      ParsedVerticesFit(b[12..], ReadBigEndian(b[8..12]));
    }
  }

  /** Exactly what the metadata decoder accepts: the encoding of metadata that fits its fields, with
      anything at all between the last vertex and the checksum. */
  lemma {:induction false} MetadataIff(crc: Checksum, raw: Bytes, m: Metadata)
    ensures DecodeMetadata(crc, raw) == Ok(m) <==> MetadataFits(m) && exists extra :: raw == Frame(crc, MetadataBody(m) + extra)
  {
    hide Frame, Unframe, Uint32, Uint64, ReadBigEndian, ParseVertices, VerticesBytes;
    DecodedMetadataFits(crc, raw);
    if MetadataFits(m) {
      Fields(m.seed);
      Fields(|m.vertices|);
      if extra :| raw == Frame(crc, MetadataBody(m) + extra) {
        var b := MetadataBody(m) + extra;
        UnframeIff(crc, raw, b);
        assert b[..8] == Uint64(m.seed) && b[8..12] == Uint32(|m.vertices|) && b[12..] == VerticesBytes(m.vertices) + extra;
        VerticesIff(b[12..], m.vertices, extra);
      }
      if DecodeMetadata(crc, raw) == Ok(m) {
        var b := Unframe(crc, raw).value;
        UnframeIff(crc, raw, b);
        FieldBytes(b[..8]);
        FieldBytes(b[8..12]);
        var vs := ParseVertices(b[12..], ReadBigEndian(b[8..12])).value;
        VerticesCount(b[12..], ReadBigEndian(b[8..12]));
        VerticesIff(b[12..], m.vertices, vs.rest);
        assert b == b[..8] + (b[8..12] + b[12..]);
        assert b == MetadataBody(m) + vs.rest;
      }
    }
  }

  lemma {:induction false} VerticesCount(b: Bytes, n: nat)
    ensures ParseVertices(b, n).Ok? ==> |ParseVertices(b, n).value.value| == n
    decreases n
  {
    if n > 0 && ParseVertex(b).Ok? {
      VerticesCount(ParseVertex(b).value.rest, n - 1);
    }
  }

  lemma {:induction false} MetadataRoundTrip(crc: Checksum, m: Metadata)
    requires MetadataFits(m)
    ensures DecodeMetadata(crc, EncodeMetadata(crc, m)) == Ok(m)
  {
    assert MetadataBody(m) + [] == MetadataBody(m);
    MetadataIff(crc, EncodeMetadata(crc, m), m);
  }

  /** Unlike a state file, metadata has more than one accepted form. */
  lemma {:induction false} MetadataIsNotCanonical(crc: Checksum, m: Metadata)
    requires MetadataFits(m)
    ensures var longer := Frame(crc, MetadataBody(m) + [0]);
            longer != EncodeMetadata(crc, m) && DecodeMetadata(crc, longer) == Ok(m)
  {
    MetadataIff(crc, Frame(crc, MetadataBody(m) + [0]), m);
    assert |Frame(crc, MetadataBody(m) + [0])| == |EncodeMetadata(crc, m)| + 1;
  }
}
