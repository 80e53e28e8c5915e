/** The decoders as they run: a reader whose position advances over a verified body. */
module CheckpointReader {
  import opened Int64
  import opened Elements
  import opened ByteOrder
  import opened CheckpointCodec

  /** Slicing twice. */
  lemma {:induction false} SliceAgain(b: Bytes, i: nat, n: nat)
    requires i + n <= |b|
    ensures b[i..][..n] == b[i..i + n] && b[i..][n..] == b[i + n..]
  {}

  class Reader {
    const buf: Bytes
    var pos: nat

    ghost predicate Valid()
      reads this
    {
      pos <= |buf|
    }

    /** What has not been read yet. */
    ghost function Rest(): Bytes
      requires Valid()
      reads this
    {
      buf[pos..]
    }

    constructor (body: Bytes)
      ensures Valid() && Rest() == body && buf == body
    {
      buf, pos := body, 0;
    }

    /** The next `n` bytes; too few left is an error and nothing is consumed. */
    method Take(n: nat) returns (out: Option<Bytes>)
      requires Valid()
      modifies this
      ensures Valid()
      ensures if n > |old(Rest())| then out == None && pos == old(pos)
              else out == Some(old(Rest())[..n]) && Rest() == old(Rest())[n..]
    {
      if pos + n > |buf| {
        return None;
      }
      SliceAgain(buf, pos, n);
      out := Some(buf[pos..pos + n]);
      pos := pos + n;
    }

    method TakeNumber(width: nat) returns (out: Option<nat>)
      requires Valid()
      modifies this
      ensures Valid()
      ensures if width > |old(Rest())| then out == None && pos == old(pos)
              else out == Some(ReadBigEndian(old(Rest())[..width])) && Rest() == old(Rest())[width..]
    {
      var b := Take(width);
      out := if b.Some? then Some(ReadBigEndian(b.value)) else None;
    }

    /** A string behind its two-byte length. */
    method ShortString() returns (out: Option<Bytes>)
      requires Valid()
      modifies this
      ensures Valid()
      ensures var b := old(Rest());
              if |b| < 2 || |b| < 2 + ReadBigEndian(b[..2]) then out == None
              else out == Some(b[2..2 + ReadBigEndian(b[..2])]) && Rest() == b[2 + ReadBigEndian(b[..2])..]
    {
      ghost var b := Rest();
      var n := TakeNumber(2);
      if n.None? {
        return None;
      }
      if 2 + n.value <= |b| {
        SliceAgain(b, 2, n.value);
      }
      out := Take(n.value);
    }
  }

  /** Verifies one state file and returns its payload. */
  method DecodeState(crc: Checksum, raw: Bytes, wantId: int64, want: SubtaskKey) returns (payload: Result<Bytes>)
    ensures payload == DecodeSubtaskState(crc, raw, wantId, want)
  {
    hide ReadBigEndian, ParseSubtask, Unframe, Wrap;
    var body := Unframe(crc, raw);
    if body.Err? {
      return Err(body.error);
    }
    var r := new Reader(body.value);
    var id := r.TakeNumber(8);
    if id.None? {
      return Err(ShortFile);
    }
    if Wrap(id.value) != wantId {
      return Err(WrongCheckpoint);
    }
    payload := DecodeSubtask(r, want);
  }

  /** The identity the file claims, then its payload, which must end the body. */
  method DecodeSubtask(r: Reader, want: SubtaskKey) returns (payload: Result<Bytes>)
    requires r.Valid()
    modifies r
    ensures payload == ParseSubtask(old(r.Rest()), want)
  {
    hide ReadBigEndian, ParsePayload;
    ghost var b := r.Rest();
    var vertexId := r.ShortString();
    if vertexId.None? {
      return Err(ShortFile);
    }
    var n := |vertexId.value|;
    var index := r.TakeNumber(4);
    if index.None? {
      return Err(ShortFile);
    }
    SliceAgain(b, 2 + n, 4);
    if vertexId.value != want.vertexId || index.value != want.index {
      return Err(WrongSubtask);
    }
    payload := TakePayload(r);
  }

  method TakePayload(r: Reader) returns (payload: Result<Bytes>)
    requires r.Valid()
    modifies r
    ensures payload == ParsePayload(old(r.Rest()))
  {
    hide ReadBigEndian;
    ghost var b := r.Rest();
    var n := r.TakeNumber(8);
    if n.None? || n.value > |r.buf| - r.pos {
      return Err(ShortFile);
    }
    ghost var left := r.Rest();
    var out := r.Take(n.value);
    assert |left[n.value..]| == |r.buf| - r.pos;
    assert left[..|left|] == left;
    if out.None? || r.pos != |r.buf| {
      return Err(ShortFile);
    }
    payload := Ok(out.value);
  }

  /** Verifies and reads metadata, one vertex at a time. */
  method DecodeMeta(crc: Checksum, raw: Bytes) returns (meta: Result<Metadata>)
    ensures meta == DecodeMetadata(crc, raw)
  {
    hide ReadBigEndian, ParseVertices, Unframe;
    var body := Unframe(crc, raw);
    if body.Err? {
      return Err(body.error);
    }
    var r := new Reader(body.value);
    var seed := r.TakeNumber(8);
    if seed.None? {
      return Err(ShortFile);
    }
    var n := r.TakeNumber(4);
    if n.None? {
      return Err(ShortFile);
    }
    SliceAgain(body.value, 8, 4);
    var vertices := ReadVertices(r, n.value);
    meta := if vertices.Ok? then Ok(Metadata(vertices.value, seed.value)) else Err(ShortFile);
  }

  method ReadVertices(r: Reader, n: nat) returns (vertices: Result<seq<VertexMeta>>)
    requires r.Valid()
    modifies r
    ensures match ParseVertices(old(r.Rest()), n)
            case Ok(parsed) => vertices == Ok(parsed.value)
            case Err(e) => vertices == Err(e) && e == ShortFile
  {
    hide ParseVertex;
    ghost var start := r.Rest();
    var vs: seq<VertexMeta> := [];
    PrependNone(ParseVertices(start, n));
    for i := 0 to n
      invariant r.Valid() && |vs| == i
      invariant ParseVertices(start, n) == Prepend(vs, ParseVertices(r.Rest(), n - i))
    {
      ghost var before := vs;
      var v := ReadVertex(r);
      if v.None? {
        return Err(ShortFile);
      }
      vs := vs + [v.value];
      PrependOne(before, v.value, ParseVertices(r.Rest(), n - i - 1));
    }
    assert vs + [] == vs;
    vertices := Ok(vs);
  }

  method ReadVertex(r: Reader) returns (v: Option<VertexMeta>)
    requires r.Valid()
    modifies r
    ensures r.Valid()
    ensures if v.None? then ParseVertex(old(r.Rest())) == Err(ShortFile)
            else ParseVertex(old(r.Rest())) == Ok(Parsed(v.value, r.Rest()))
  {
    hide ReadBigEndian, Wrap64;
    ghost var b := r.Rest();
    var id := r.ShortString();
    if id.None? {
      return None;
    }
    var n := |id.value|;
    var parallelism := r.TakeNumber(4);
    if parallelism.None? {
      return None;
    }
    SliceAgain(b, 2 + n, 4);
    var count := r.Take(8);
    if count.None? {
      return None;
    }
    SliceAgain(b, 2 + n + 4, 8);
    v := Some(VertexMeta(id.value, parallelism.value, Wrap64(count.value)));
  }

  /** Vertices already read, in front of what the rest parses to. */
  function Prepend(vs: seq<VertexMeta>, rest: Result<Parsed<seq<VertexMeta>>>): Result<Parsed<seq<VertexMeta>>> {
    if rest.Err? then rest else Ok(Parsed(vs + rest.value.value, rest.value.rest))
  }

  lemma {:induction false} PrependNone(rest: Result<Parsed<seq<VertexMeta>>>)
    ensures Prepend([], rest) == rest
  {
    if rest.Ok? {
      assert [] + rest.value.value == rest.value.value;
    }
  }

  lemma {:induction false} PrependOne(vs: seq<VertexMeta>, v: VertexMeta, rest: Result<Parsed<seq<VertexMeta>>>)
    ensures Prepend(vs, Prepend([v], rest)) == Prepend(vs + [v], rest)
  {
    if rest.Ok? {
      assert vs + ([v] + rest.value.value) == vs + [v] + rest.value.value;
    }
  }
}
