/** The snapshot of a subtask's keyed state: what is written, and what restoring it gives back. */
module StateSnapshot {
  import opened Int64
  import opened Elements
  import opened ByteOrder
  import opened StateStore
  import opened CheckpointCodec

  const MAX_LENGTH: nat := 0xFFFF_FFFF

  function EntryBytes(key: Bytes, value: Bytes): Bytes {
    Uint32(|key|) + key + (Uint32(|value|) + value)
  }

  function EntriesBytes(entries: map<Bytes, Bytes>, keys: seq<Bytes>): Bytes
    requires forall k :: k in keys ==> k in entries
  {
    if keys == [] then []
    else
      var last := keys[|keys| - 1];
      EntriesBytes(entries, keys[..|keys| - 1]) + EntryBytes(last, entries[last])
  }

  lemma {:induction false} NoEntries(entries: map<Bytes, Bytes>)
    ensures EntriesBytes(entries, []) == []
  {}

  lemma {:induction false} OneMoreEntry(entries: map<Bytes, Bytes>, keys: seq<Bytes>, key: Bytes)
    requires key in entries && forall k :: k in keys ==> k in entries
    ensures EntriesBytes(entries, keys + [key]) == EntriesBytes(entries, keys) + EntryBytes(key, entries[key])
  {
    assert (keys + [key])[..|keys|] == keys;
  }

  function SnapshotBytes(entries: map<Bytes, Bytes>, keys: seq<Bytes>): Bytes
    requires forall k :: k in keys ==> k in entries
  {
    Uint64(|keys|) + EntriesBytes(entries, keys)
  }

  /** A key and value whose lengths fit their fields. */
  predicate EntryFits(entries: map<Bytes, Bytes>, k: Bytes)
    requires k in entries
  {
    |k| <= MAX_LENGTH && |entries[k]| <= MAX_LENGTH
  }

  predicate AllFit(entries: map<Bytes, Bytes>) {
    forall k :: k in entries ==> EntryFits(entries, k)
  }

  /** The bytes depend on the contents of the state and on nothing else. */
  lemma {:induction false} BytesDependOnContents(entries: map<Bytes, Bytes>, a: seq<Bytes>, b: seq<Bytes>)
    requires ScanOrder(entries, a) && ScanOrder(entries, b)
    ensures SnapshotBytes(entries, a) == SnapshotBytes(entries, b)
  {
    ScanOrderUnique(entries, a, b);
  }

  // ----- Writing ---------------------------------------------------------------------------

  /** Counts in a first scan and writes in a second; None if an entry does not fit. */
  method WriteTo(m: Memory) returns (out: Option<Bytes>, ghost keys: seq<Bytes>)
    ensures ScanOrder(m.entries, keys)
    ensures out.Some? <==> AllFit(m.entries)
    ensures out.Some? ==> out.value == SnapshotBytes(m.entries, keys)
  {
    hide Uint32, Uint64, EntriesBytes, EntryBytes, Before, Ascending;
    var first := m.SortedKeys();
    var count := 0;
    for i := 0 to |first|
      invariant count == i
    {
      count := count + 1;
    }
    var scan := m.SortedKeys();
    ScanOrderUnique(m.entries, first, scan);
    keys := scan;
    var written := Uint64(count);
    NoEntries(m.entries);
    assert scan[..0] == [];
    for i := 0 to |scan|
      invariant forall k :: k in scan[..i] ==> EntryFits(m.entries, k)
      invariant written == Uint64(|scan|) + EntriesBytes(m.entries, scan[..i])
    {
      var key := scan[i];
      assert key in m.entries;
      var value := m.entries[key];
      if |key| > MAX_LENGTH || |value| > MAX_LENGTH {
        return None, keys;
      }
      assert scan[..i + 1] == scan[..i] + [key];
      OneMoreEntry(m.entries, scan[..i], key);
      written := written + EntryBytes(key, value);
    }
    assert scan[..|scan|] == scan;
    out := Some(written);
  }

  // ----- Reading ---------------------------------------------------------------------------

  /** One length-prefixed string. */
  function ReadBytes(b: Bytes): Option<Parsed<Bytes>> {
    if |b| < 4 || |b| < 4 + ReadBigEndian(b[..4]) then None
    else Some(Parsed(b[4..4 + ReadBigEndian(b[..4])], b[4 + ReadBigEndian(b[..4])..]))
  }

  /** What putting `n` entries read from `b` makes of `into`; None if the bytes run out. */
  function EntriesRead(b: Bytes, n: nat, into: map<Bytes, Bytes>): Option<map<Bytes, Bytes>>
    decreases n
  {
    if n == 0 then Some(into)
    else
      var key := ReadBytes(b);
      if key.None? then None
      else
        var value := ReadBytes(key.value.rest);
        if value.None? then None
        else EntriesRead(value.value.rest, n - 1, into[key.value.value := value.value.value])
  }

  /** Restores into an empty state; one that already holds something is refused. */
  method ReadFrom(m: Memory, raw: Bytes) returns (ok: bool)
    modifies m
    ensures old(m.entries) != map[] ==> !ok && m.entries == old(m.entries)
    ensures old(m.entries) == map[] && |raw| < 8 ==> !ok
    ensures old(m.entries) == map[] && |raw| >= 8 ==> (ok <==> EntriesRead(raw[8..], ReadBigEndian(raw[..8]), map[]).Some?)
    ensures ok ==> Some(m.entries) == EntriesRead(raw[8..], ReadBigEndian(raw[..8]), map[])
  {
    hide ReadBigEndian, ReadBytes;
    if m.entries != map[] {
      return false;
    }
    if |raw| < 8 {
      return false;
    }
    var count := ReadBigEndian(raw[..8]);
    var rest := raw[8..];
    for i := 0 to count
      invariant EntriesRead(raw[8..], count, map[]) == EntriesRead(rest, count - i, m.entries)
    {
      var key := ReadBytes(rest);
      if key.None? {
        return false;
      }
      var value := ReadBytes(key.value.rest);
      if value.None? {
        return false;
      }
      m.Put(key.value.value, value.value.value);
      rest := value.value.rest;
    }
    ok := true;
  }

  // ----- Round trip ------------------------------------------------------------------------

  lemma {:induction false} ReadBytesOf(b: Bytes, rest: Bytes)
    requires |b| <= MAX_LENGTH
    ensures ReadBytes(Uint32(|b|) + b + rest) == Some(Parsed(b, rest))
  {
    hide Uint32, ReadBigEndian;
    var all := Uint32(|b|) + b + rest;
    Fields(|b|);
    assert all[..4] == Uint32(|b|) && all[4..4 + |b|] == b && all[4 + |b|..] == rest;
  }

  /** The part of a state under the given keys. */
  function Part(entries: map<Bytes, Bytes>, keys: seq<Bytes>): map<Bytes, Bytes> {
    map k | k in keys && k in entries :: entries[k]
  }

  lemma {:induction false} FirstEntry(entries: map<Bytes, Bytes>, keys: seq<Bytes>, rest: Bytes)
    requires keys != [] && forall k :: k in keys ==> k in entries
    ensures EntriesBytes(entries, keys) + rest == EntryBytes(keys[0], entries[keys[0]]) + (EntriesBytes(entries, keys[1..]) + rest)
    decreases |keys|
  {
    hide EntryBytes;
    if |keys| == 1 {
      assert keys[..0] == [] && keys[1..] == [];
    } else {
      var init, last := keys[..|keys| - 1], keys[|keys| - 1];
      FirstEntry(entries, init, EntryBytes(last, entries[last]) + rest);
      assert keys[1..][..|keys| - 2] == init[1..];
      assert EntriesBytes(entries, keys[1..]) == EntriesBytes(entries, init[1..]) + EntryBytes(last, entries[last]);
      Regroup(EntriesBytes(entries, init), EntryBytes(last, entries[last]), rest);
      Regroup(EntriesBytes(entries, init[1..]), EntryBytes(last, entries[last]), rest);
    }
  }

  lemma {:induction false} Regroup(a: Bytes, b: Bytes, c: Bytes)
    ensures (a + b) + c == a + (b + c)
  {}

  lemma {:induction false} EntriesReadBack(entries: map<Bytes, Bytes>, keys: seq<Bytes>, rest: Bytes, into: map<Bytes, Bytes>)
    requires forall k :: k in keys ==> k in entries && EntryFits(entries, k)
    ensures EntriesRead(EntriesBytes(entries, keys) + rest, |keys|, into) == Some(into + Part(entries, keys))
    decreases |keys|
  {
    hide Uint32, ReadBytes, EntriesBytes;
    if keys == [] {
      assert into + Part(entries, keys) == into;
    } else {
      var k, v, tail := keys[0], entries[keys[0]], EntriesBytes(entries, keys[1..]) + rest;
      FirstEntry(entries, keys, rest);
      assert EntryFits(entries, k);
      Regroup(Uint32(|k|) + k, Uint32(|v|) + v, tail);
      ReadBytesOf(k, Uint32(|v|) + v + tail);
      ReadBytesOf(v, tail);
      EntriesReadBack(entries, keys[1..], rest, into[k := v]);
      PartOf(entries, keys, into);
    }
  }

  lemma {:induction false} PartOf(entries: map<Bytes, Bytes>, keys: seq<Bytes>, into: map<Bytes, Bytes>)
    requires keys != [] && keys[0] in entries
    ensures into[keys[0] := entries[keys[0]]] + Part(entries, keys[1..]) == into + Part(entries, keys)
  {
    assert forall k :: k in keys <==> k == keys[0] || k in keys[1..];
  }

  /** Restoring what was written gives back the same state, whatever follows it. */
  lemma {:induction false} SnapshotRoundTrip(entries: map<Bytes, Bytes>, keys: seq<Bytes>, rest: Bytes)
    requires ScanOrder(entries, keys) && AllFit(entries) && |keys| < TWO_64
    ensures var raw := SnapshotBytes(entries, keys) + rest;
            |raw| >= 8 && EntriesRead(raw[8..], ReadBigEndian(raw[..8]), map[]) == Some(entries)
  {
    hide Uint64, ReadBigEndian, EntriesRead, EntriesBytes;
    var raw := SnapshotBytes(entries, keys) + rest;
    Fields(|keys|);
    assert raw[..8] == Uint64(|keys|) && raw[8..] == EntriesBytes(entries, keys) + rest;
    EntriesReadBack(entries, keys, rest, map[]);
    assert map[] + Part(entries, keys) == entries;
  }

  // ----- From one state to another -----------------------------------------------------------

  /** Every length, and the number of entries, fits its field. */
  predicate Fitting(entries: map<Bytes, Bytes>) {
    AllFit(entries) && |entries| < TWO_64
  }

  /** These are the bytes written for a state with these entries. */
  ghost predicate Snapshots(raw: Bytes, entries: map<Bytes, Bytes>) {
    exists keys :: ScanOrder(entries, keys) && AllFit(entries) && |keys| < TWO_64 && raw == SnapshotBytes(entries, keys)
  }

  /** What is recorded under a barrier. */
  method TakeSnapshot(m: Memory) returns (raw: Option<Bytes>)
    ensures raw.Some? <==> Fitting(m.entries)
    ensures raw.Some? ==> Snapshots(raw.value, m.entries)
  {
    ghost var keys;
    raw, keys := WriteTo(m);
    ScanLength(m.entries, keys);
    if |m.entries| >= TWO_64 {
      raw := None;
    }
  }

  lemma {:induction false} ScanLength(entries: map<Bytes, Bytes>, keys: seq<Bytes>)
    requires ScanOrder(entries, keys)
    ensures |keys| == |entries|
    decreases |keys|
  {
    if keys == [] {
      assert entries.Keys == {};
    } else {
      var rest := entries - {keys[0]};
      TailMembers(keys);
      ScanLength(rest, keys[1..]);
      assert entries.Keys == rest.Keys + {keys[0]};
      assert |entries.Keys| == |entries| && |rest.Keys| == |rest|;
    }
  }

  /** A subtask that is restored starts from nothing and gets back exactly what was recorded. */
  method RestoreInto(m: Memory, raw: Bytes, ghost entries: map<Bytes, Bytes>)
    requires m.entries == map[] && Snapshots(raw, entries)
    modifies m
    ensures m.entries == entries
  {
    hide EntriesRead, SnapshotBytes, ReadBigEndian, AllFit;
    ghost var keys :| ScanOrder(entries, keys) && AllFit(entries) && |keys| < TWO_64 && raw == SnapshotBytes(entries, keys);
    SnapshotRoundTrip(entries, keys, []);
    assert raw + [] == raw;
    var ok := ReadFrom(m, raw);
    assert ok;
  }
}
