/** The record format of a committed file: one checksum for each record. */
module RecordCodec {
  import opened Int64
  import opened Elements
  import opened ByteOrder
  import opened CheckpointCodec

  const MIN_RECORD_BYTES: nat := 20

  function RecordBody(rec: Record): Bytes {
    Uint64(ToUint64(rec.eventTime)) + (Uint32(|rec.key|) + rec.key + (Uint32(|rec.value|) + rec.value))
  }

  function EncodeRecord(crc: Checksum, rec: Record): Bytes {
    RecordBody(rec) + Uint32(crc(RecordBody(rec)))
  }

  /** One record and how many bytes it took; None for bytes that are not one. */
  function DecodeRecord(crc: Checksum, raw: Bytes): (r: Option<(Record, nat)>)
    ensures r.Some? ==> MIN_RECORD_BYTES <= r.value.1 <= |raw|
  {
    if |raw| < MIN_RECORD_BYTES then None
    else
      var keyLen := ReadBigEndian(raw[8..12]);
      if 12 + keyLen + 8 > |raw| then None
      else
        var start := 12 + keyLen + 4;
        var valueLen := ReadBigEndian(raw[12 + keyLen..start]);
        if start + valueLen + 4 > |raw| then None
        else
          var n := start + valueLen + 4;
          if crc(raw[..n - 4]) != ReadBigEndian(raw[n - 4..n]) then None
          else Some((Record(raw[12..12 + keyLen], raw[start..start + valueLen], Wrap64(raw[..8])), n))
  }

  function DecodeRecords(crc: Checksum, raw: Bytes): Option<seq<Record>> {
    if raw == [] then Some([])
    else
      var first := DecodeRecord(crc, raw);
      if first.None? then None
      else
        var others := DecodeRecords(crc, raw[first.value.1..]);
        if others.None? then None else Some([first.value.0] + others.value)
  }

  function EncodeRecords(crc: Checksum, recs: seq<Record>): Bytes {
    if recs == [] then [] else EncodeRecord(crc, recs[0]) + EncodeRecords(crc, recs[1..])
  }

  predicate RecordFits(rec: Record) {
    |rec.key| < 0x1_0000_0000 && |rec.value| < 0x1_0000_0000
  }

  lemma {:induction false} BodySplits(rec: Record, rest: Bytes)
    ensures var raw := RecordBody(rec) + rest;
            var k, v := |rec.key|, |rec.value|;
            && |RecordBody(rec)| == 16 + k + v
            && raw[..8] == Uint64(ToUint64(rec.eventTime)) && raw[8..12] == Uint32(k) && raw[12..12 + k] == rec.key
            && raw[12 + k..16 + k] == Uint32(v) && raw[16 + k..16 + k + v] == rec.value
            && raw[..16 + k + v] == RecordBody(rec) && raw[16 + k + v..] == rest
  {
    hide Uint32, Uint64;
  }

  /** A record followed by anything is read back, and exactly its bytes are taken. */
  lemma {:induction false} RecordRoundTrip(crc: Checksum, rec: Record, rest: Bytes)
    requires RecordFits(rec)
    ensures DecodeRecord(crc, EncodeRecord(crc, rec) + rest) == Some((rec, |EncodeRecord(crc, rec)|))
  {
    hide Uint32, Uint64, ReadBigEndian, RecordBody, Wrap;
    var sum := Uint32(crc(RecordBody(rec)));
    var raw := EncodeRecord(crc, rec) + rest;
    var n := |RecordBody(rec)| + 4;
    assert raw == RecordBody(rec) + (sum + rest);
    BodySplits(rec, sum + rest);
    assert raw[n - 4..n] == sum;
    Fields(|rec.key|);
    Fields(|rec.value|);
    Fields(crc(RecordBody(rec)));
    Fields(ToUint64(rec.eventTime));
  }

  /** A whole file is read back as the records written to it, in order. */
  lemma {:induction false} RecordsRoundTrip(crc: Checksum, recs: seq<Record>)
    requires forall i :: 0 <= i < |recs| ==> RecordFits(recs[i])
    ensures DecodeRecords(crc, EncodeRecords(crc, recs)) == Some(recs)
  {
    hide DecodeRecord, EncodeRecord;
    if recs != [] {
      var head, tail := EncodeRecord(crc, recs[0]), EncodeRecords(crc, recs[1..]);
      RecordRoundTrip(crc, recs[0], tail);
      RecordsRoundTrip(crc, recs[1..]);
      assert (head + tail)[|head|..] == tail;
      assert recs == [recs[0]] + recs[1..];
    }
  }

  /** Canonical: bytes decode to these records exactly when they are their encoding. */
  lemma {:induction false} RecordBytesCanonical(crc: Checksum, raw: Bytes)
    requires DecodeRecord(crc, raw).Some?
    ensures var r := DecodeRecord(crc, raw).value;
            RecordFits(r.0) && raw[..r.1] == EncodeRecord(crc, r.0)
  {
    hide Uint32, Uint64, ReadBigEndian;
    var r := DecodeRecord(crc, raw).value;
    var k := |r.0.key|;
    FieldBytes(raw[..8]);
    FieldBytes(raw[8..12]);
    FieldBytes(raw[12 + k..16 + k]);
    FieldBytes(raw[r.1 - 4..r.1]);
    WrapInverse(ReadBigEndian(raw[..8]));
    RecordSplits(raw, k, |r.0.value|);
  }

  lemma {:induction false} RecordSplits(raw: Bytes, k: nat, v: nat)
    requires 20 + k + v <= |raw|
    ensures raw[..16 + k + v] == raw[..8] + (raw[8..12] + raw[12..12 + k] + (raw[12 + k..16 + k] + raw[16 + k..16 + k + v]))
    ensures raw[..20 + k + v] == raw[..16 + k + v] + raw[16 + k + v..20 + k + v]
  {}

  lemma {:induction false} RecordsCanonical(crc: Checksum, raw: Bytes)
    requires DecodeRecords(crc, raw).Some?
    ensures raw == EncodeRecords(crc, DecodeRecords(crc, raw).value)
  {
    hide DecodeRecord, EncodeRecord;
    if raw != [] {
      RecordBytesCanonical(crc, raw);
      var n := DecodeRecord(crc, raw).value.1;
      RecordsCanonical(crc, raw[n..]);
      assert raw == raw[..n] + raw[n..];
      var all := DecodeRecords(crc, raw).value;
      assert all[1..] == DecodeRecords(crc, raw[n..]).value;
    }
  }
}
