/** Writing a checkpoint: whatever the crash, a marker that can be seen vouches for a checkpoint
    that loads. */
module CrashSafety {
  import opened Int64
  import opened Elements
  import opened CheckpointCodec
  import opened DurableFiles

  // ----- What is written -------------------------------------------------------------------

  /** Create, write, sync, and only then rename. */
  function WriteFileSynced(n: Name, data: Bytes): seq<Op> {
    [Create(Temp(n)), Append(Temp(n), data), SyncFile(Temp(n)), Rename(Temp(n), n)]
  }

  /** A checkpoint to be written: its metadata, and the payload of each subtask in the order the
      acknowledgements come. */
  datatype Checkpoint = Checkpoint(id: int64, meta: Metadata, order: seq<SubtaskKey>, payloads: map<SubtaskKey, Bytes>)

  predicate CheckpointFits(c: Checkpoint) {
    && MetadataFits(c.meta)
    && (forall k :: k in c.order ==> k in c.payloads && Fits(k) && |c.payloads[k]| < TWO_64)
    && (forall k :: k in Subtasks(c.meta) ==> k in c.order)
  }

  /** Every subtask of the job, in vertex order and then index order. */
  function Subtasks(m: Metadata): seq<SubtaskKey> {
    SubtasksOf(m.vertices)
  }

  function SubtasksOf(vs: seq<VertexMeta>): seq<SubtaskKey> {
    if vs == [] then []
    else SubtasksOf(vs[..|vs| - 1]) + seq(vs[|vs| - 1].parallelism, i requires 0 <= i => SubtaskKey(vs[|vs| - 1].id, i))
  }

  /** The state file of one subtask. */
  function StateBytes(crc: Checksum, c: Checkpoint, k: SubtaskKey): Bytes {
    if k in c.payloads then EncodeSubtaskState(crc, c.id, k, c.payloads[k]) else []
  }

  function StateOps(crc: Checksum, c: Checkpoint, n: nat): seq<Op>
    requires CheckpointFits(c) && n <= |c.order|
  {
    if n == 0 then []
    else
      var k := c.order[n - 1];
      StateOps(crc, c, n - 1) + WriteFileSynced(StateFile(k), StateBytes(crc, c, k))
  }

  function MetadataOps(crc: Checksum, c: Checkpoint): seq<Op> {
    WriteFileSynced(MetadataFile, EncodeMetadata(crc, c.meta))
  }

  /** Everything before the first directory sync: the state files, then the metadata. */
  function VouchedOps(crc: Checksum, c: Checkpoint): seq<Op>
    requires CheckpointFits(c)
  {
    StateOps(crc, c, |c.order|) + MetadataOps(crc, c)
  }

  /** The marker, between two directory syncs. Nothing reads its contents. */
  function MarkerOps(text: Bytes): seq<Op> {
    [SyncDir] + WriteFileSynced(CompleteMarker, text) + [SyncDir]
  }

  function AllOps(crc: Checksum, c: Checkpoint, text: Bytes): seq<Op>
    requires CheckpointFits(c)
  {
    VouchedOps(crc, c) + MarkerOps(text)
  }

  // ----- What is read ----------------------------------------------------------------------

  /** Each named subtask's payload; None if a file is missing or refused. */
  function LoadPayloads(crc: Checksum, id: int64, disk: map<Name, Bytes>, keys: seq<SubtaskKey>): Option<map<SubtaskKey, Bytes>> {
    if keys == [] then Some(map[])
    else
      var k := keys[|keys| - 1];
      var others := LoadPayloads(crc, id, disk, keys[..|keys| - 1]);
      if others.None? || StateFile(k) !in disk then None
      else
        var payload := DecodeSubtaskState(crc, disk[StateFile(k)], id, k);
        if payload.Err? then None else Some(others.value[k := payload.value])
  }

  datatype Loaded = Loaded(meta: Metadata, payloads: map<SubtaskKey, Bytes>)

  function Load(crc: Checksum, id: int64, disk: map<Name, Bytes>): Option<Loaded> {
    if CompleteMarker !in disk || MetadataFile !in disk then None
    else
      var meta := DecodeMetadata(crc, disk[MetadataFile]);
      if meta.Err? then None
      else
        var payloads := LoadPayloads(crc, id, disk, Subtasks(meta.value));
        if payloads.None? then None else Some(Loaded(meta.value, payloads.value))
  }

  /** Its metadata, and the payload handed in for every subtask of the job. */
  function Whole(c: Checkpoint): Loaded {
    Loaded(c.meta, map k | k in Subtasks(c.meta) && k in c.payloads :: c.payloads[k])
  }

  // ----- One file --------------------------------------------------------------------------

  lemma {:induction false} ApplyAllConcat(s: FS, a: seq<Op>, b: seq<Op>)
    ensures ApplyAll(s, a + b) == ApplyAll(ApplyAll(s, a), b)
  {
    hide Apply;
    if b == [] {
      assert a + b == a;
    } else {
      ApplyAllConcat(s, a, b[..|b| - 1]);
      assert (a + b)[..|a + b| - 1] == a + b[..|b| - 1];
    }
  }

  lemma {:induction false} ApplyAllFirst(s: FS, op: Op, ops: seq<Op>)
    ensures ApplyAll(s, [op] + ops) == ApplyAll(Apply(s, op), ops)
  {
    ApplyAllConcat(s, [op], ops);
    assert [op][..0] == [];
    assert ApplyAll(s, [op]) == Apply(s, op);
  }

  predicate AllTidy(ops: seq<Op>) {
    forall i :: 0 <= i < |ops| ==> Tidy(ops[i])
  }

  lemma {:induction false} ApplyAllCoherent(s: FS, ops: seq<Op>)
    requires Coherent(s) && AllTidy(ops)
    ensures Coherent(ApplyAll(s, ops))
  {
    hide Coherent, Apply;
    if ops != [] {
      ApplyAllCoherent(s, ops[..|ops| - 1]);
      ApplyCoherent(ApplyAll(s, ops[..|ops| - 1]), ops[|ops| - 1]);
    }
  }

  lemma {:induction false} FourSteps(s: FS, n: Name, data: Bytes)
    ensures ApplyAll(s, WriteFileSynced(n, data)) ==
            Apply(Apply(Apply(Apply(s, Create(Temp(n))), Append(Temp(n), data)), SyncFile(Temp(n))), Rename(Temp(n), n))
  {
    hide Apply;
    var ops := WriteFileSynced(n, data);
    assert ops == [ops[0]] + ([ops[1]] + ([ops[2]] + ([ops[3]] + [])));
    ApplyAllFirst(s, ops[0], [ops[1]] + ([ops[2]] + ([ops[3]] + [])));
    var s1 := Apply(s, ops[0]);
    ApplyAllFirst(s1, ops[1], [ops[2]] + ([ops[3]] + []));
    var s2 := Apply(s1, ops[1]);
    ApplyAllFirst(s2, ops[2], [ops[3]] + []);
    ApplyAllFirst(Apply(s2, ops[2]), ops[3], []);
  }

  /** A file written this way is in place with its contents synced. */
  lemma {:induction false} WrittenIsStored(s: FS, n: Name, data: Bytes)
    ensures Stored(ApplyAll(s, WriteFileSynced(n, data)), n, data)
  {
    FourSteps(s, n, data);
    var s1 := Apply(s, Create(Temp(n)));
    assert Temp(n) in s1.entries && ContentOf(s1, s1.entries[Temp(n)]) == [];
    var s2 := Apply(s1, Append(Temp(n), data));
    assert [] + data == data;
    assert ContentOf(s2, s2.entries[Temp(n)]) == data;
    assert Temp(n) != n by { TempDiffers(n); }
  }

  lemma {:induction false} TempDiffers(n: Name)
    ensures Temp(n) != n
  {
    if n.Temp? {
      TempDiffers(n.of);
    }
  }

  predicate AllElsewhere(ops: seq<Op>, n: Name) {
    forall i :: 0 <= i < |ops| ==> Elsewhere(ops[i], n)
  }

  lemma {:induction false} StoredThroughout(s: FS, ops: seq<Op>, n: Name, data: Bytes)
    requires Coherent(s) && AllTidy(ops) && Stored(s, n, data) && AllElsewhere(ops, n)
    ensures Stored(ApplyAll(s, ops), n, data)
  {
    hide Coherent, Apply, Stored, Elsewhere;
    if ops != [] {
      var init := ops[..|ops| - 1];
      StoredThroughout(s, init, n, data);
      ApplyAllCoherent(s, init);
      StoredElsewhere(ApplyAll(s, init), ops[|ops| - 1], n, data);
    }
  }

  lemma {:induction false} DurableThroughout(s: FS, ops: seq<Op>, n: Name, data: Bytes)
    requires Coherent(s) && AllTidy(ops) && Durable(s, n, data) && AllElsewhere(ops, n)
    ensures Durable(ApplyAll(s, ops), n, data)
  {
    hide Coherent, Apply, Durable, Elsewhere;
    if ops != [] {
      var init := ops[..|ops| - 1];
      DurableThroughout(s, init, n, data);
      ApplyAllCoherent(s, init);
      DurableElsewhere(ApplyAll(s, init), ops[|ops| - 1], n, data);
    }
  }

  // ----- Up to the first directory sync ----------------------------------------------------

  /** What holds of every operation that writes one file. */
  lemma {:induction false} FileOps(n: Name, data: Bytes, m: Name)
    requires Base(n) != Base(m) && !m.Temp?
    ensures AllTidy(WriteFileSynced(n, data)) && AllElsewhere(WriteFileSynced(n, data), m)
    ensures forall i :: 0 <= i < 4 ==> NeverPuts(WriteFileSynced(n, data)[i], m)
  {
    assert Base(Temp(n)) == Base(n);
  }

  lemma {:induction false} StateOpsTidy(crc: Checksum, c: Checkpoint, n: nat)
    requires CheckpointFits(c) && n <= |c.order|
    ensures AllTidy(StateOps(crc, c, n)) && AllElsewhere(StateOps(crc, c, n), MetadataFile)
    ensures forall i :: 0 <= i < |StateOps(crc, c, n)| ==> NeverPuts(StateOps(crc, c, n)[i], CompleteMarker)
  {
    hide CheckpointFits, Tidy, Elsewhere, NeverPuts, WriteFileSynced, StateBytes;
    if n > 0 {
      var k := c.order[n - 1];
      StateOpsTidy(crc, c, n - 1);
      FileOps(StateFile(k), StateBytes(crc, c, k), MetadataFile);
      FileOps(StateFile(k), StateBytes(crc, c, k), CompleteMarker);
      FourOps(StateFile(k), StateBytes(crc, c, k));
    }
  }

  lemma {:induction false} FourOps(n: Name, data: Bytes)
    ensures |WriteFileSynced(n, data)| == 4
  {}

  /** The operation cannot bring the name into being. */
  predicate NeverPuts(op: Op, n: Name) {
    (op.Create? ==> op.name != n) && (op.Rename? ==> op.to != n)
  }

  lemma {:induction false} AbsentThroughout(s: FS, ops: seq<Op>, n: Name)
    requires Absent(s, n) && forall i :: 0 <= i < |ops| ==> NeverPuts(ops[i], n)
    ensures Absent(ApplyAll(s, ops), n)
  {
    hide Absent, Apply;
    if ops != [] {
      AbsentThroughout(s, ops[..|ops| - 1], n);
      AbsentStays(ApplyAll(s, ops[..|ops| - 1]), ops[|ops| - 1], n);
    }
  }

  /** Each state file written so far is in place, whatever was written after it. */
  lemma {:induction false} StatesStored(s: FS, crc: Checksum, c: Checkpoint, n: nat, k: SubtaskKey)
    requires Coherent(s) && CheckpointFits(c) && n <= |c.order| && k in c.order[..n]
    ensures Stored(ApplyAll(s, StateOps(crc, c, n)), StateFile(k), StateBytes(crc, c, k))
  {
    hide Coherent, Stored, StateBytes, CheckpointFits;
    var last := c.order[n - 1];
    assert c.order[..n] == c.order[..n - 1] + [last];
    var before, ops := ApplyAll(s, StateOps(crc, c, n - 1)), WriteFileSynced(StateFile(last), StateBytes(crc, c, last));
    ApplyAllConcat(s, StateOps(crc, c, n - 1), ops);
    if k == last {
      WrittenIsStored(before, StateFile(k), StateBytes(crc, c, k));
    } else {
      StateOpsTidy(crc, c, n - 1);
      ApplyAllCoherent(s, StateOps(crc, c, n - 1));
      StatesStored(s, crc, c, n - 1, k);
      FileOps(StateFile(last), StateBytes(crc, c, last), StateFile(k));
      StoredThroughout(before, ops, StateFile(k), StateBytes(crc, c, k));
    }
  }

  /** What must be on the disk for the checkpoint to load. */
  ghost predicate AllDurable(s: FS, crc: Checksum, c: Checkpoint)
    requires CheckpointFits(c)
  {
    && Durable(s, MetadataFile, EncodeMetadata(crc, c.meta))
    && forall k :: k in c.order ==> Durable(s, StateFile(k), StateBytes(crc, c, k))
  }

  /** The directory sync makes all of it durable at once. */
  lemma {:induction false} SyncMakesDurable(s: FS, crc: Checksum, c: Checkpoint)
    requires Coherent(s) && CheckpointFits(c)
    ensures var vouched := ApplyAll(s, VouchedOps(crc, c));
            Coherent(vouched) && AllDurable(Apply(vouched, SyncDir), crc, c)
  {
    hide Coherent, Stored, Durable, StateBytes, EncodeMetadata, Apply, CheckpointFits;
    var states := StateOps(crc, c, |c.order|);
    var s1 := ApplyAll(s, states);
    var vouched := ApplyAll(s, VouchedOps(crc, c));
    ApplyAllConcat(s, states, MetadataOps(crc, c));
    StateOpsTidy(crc, c, |c.order|);
    ApplyAllCoherent(s, states);
    FileOps(MetadataFile, EncodeMetadata(crc, c.meta), CompleteMarker);
    ApplyAllCoherent(s1, MetadataOps(crc, c));
    WrittenIsStored(s1, MetadataFile, EncodeMetadata(crc, c.meta));
    StoredBecomesDurable(vouched, MetadataFile, EncodeMetadata(crc, c.meta));
    assert c.order[..|c.order|] == c.order;
    forall k | k in c.order
      ensures Durable(Apply(vouched, SyncDir), StateFile(k), StateBytes(crc, c, k))
    {
      var data := StateBytes(crc, c, k);
      StatesStored(s, crc, c, |c.order|, k);
      FileOps(MetadataFile, EncodeMetadata(crc, c.meta), StateFile(k));
      StoredThroughout(s1, MetadataOps(crc, c), StateFile(k), data);
      StoredBecomesDurable(vouched, StateFile(k), data);
    }
  }

  // ----- Loading what survived -------------------------------------------------------------

  lemma {:induction false} PayloadsLoad(crc: Checksum, c: Checkpoint, disk: map<Name, Bytes>, keys: seq<SubtaskKey>)
    requires CheckpointFits(c) && forall k :: k in keys ==> k in c.order
    requires forall k :: k in c.order ==> StateFile(k) in disk && disk[StateFile(k)] == StateBytes(crc, c, k)
    ensures LoadPayloads(crc, c.id, disk, keys) == Some(map k | k in keys && k in c.payloads :: c.payloads[k])
  {
    hide EncodeSubtaskState, DecodeSubtaskState, MetadataFits, Subtasks, Fits, SubtaskBody, Base;
    if keys != [] {
      var init, k := keys[..|keys| - 1], keys[|keys| - 1];
      PayloadsLoad(crc, c, disk, init);
      SubtaskStateIff(crc, disk[StateFile(k)], c.id, k, c.payloads[k]);
      assert (map x | x in init && x in c.payloads :: c.payloads[x])[k := c.payloads[k]] == map x | x in keys && x in c.payloads :: c.payloads[x];
    }
  }

  /** The state files a crash leaves, once they are durable. */
  lemma {:induction false} StateSurvives(s: FS, crc: Checksum, c: Checkpoint, disk: map<Name, Bytes>, k: SubtaskKey)
    requires CheckpointFits(c) && AllDurable(s, crc, c) && Survives(s, disk) && k in c.order
    ensures StateFile(k) in disk && disk[StateFile(k)] == StateBytes(crc, c, k)
  {
    hide Durable, NameSurvives, StateBytes, CheckpointFits;
    assert NameSurvives(s, StateFile(k), disk);
    DurableSurvives(s, StateFile(k), StateBytes(crc, c, k), disk);
  }

  lemma {:induction false} MetadataSurvives(s: FS, crc: Checksum, c: Checkpoint, disk: map<Name, Bytes>)
    requires CheckpointFits(c) && AllDurable(s, crc, c) && Survives(s, disk)
    ensures MetadataFile in disk && DecodeMetadata(crc, disk[MetadataFile]) == Ok(c.meta)
  {
    hide Durable, NameSurvives, EncodeMetadata, DecodeMetadata;
    assert NameSurvives(s, MetadataFile, disk);
    DurableSurvives(s, MetadataFile, EncodeMetadata(crc, c.meta), disk);
    MetadataRoundTrip(crc, c.meta);
  }

  /** Once all is durable, any crash leaves a disk that loads, if it shows the marker. */
  lemma {:induction false} DurableLoads(s: FS, crc: Checksum, c: Checkpoint, disk: map<Name, Bytes>)
    requires CheckpointFits(c) && AllDurable(s, crc, c) && Survives(s, disk) && CompleteMarker in disk
    ensures Load(crc, c.id, disk) == Some(Whole(c))
  {
    hide AllDurable, Survives, StateBytes, DecodeMetadata, LoadPayloads, MetadataFits, Fits;
    MetadataSurvives(s, crc, c, disk);
    forall k | k in c.order ensures StateFile(k) in disk && disk[StateFile(k)] == StateBytes(crc, c, k) {
      StateSurvives(s, crc, c, disk, k);
    }
    PayloadsLoad(crc, c, disk, Subtasks(c.meta));
  }

  // ----- The theorem -----------------------------------------------------------------------

  /** Before the marker's rename it cannot be seen; from the first directory sync on, all it
      vouches for is durable. */
  lemma {:induction false} AbsentOrDurable(s: FS, crc: Checksum, c: Checkpoint, text: Bytes, n: nat)
    requires Coherent(s) && Absent(s, CompleteMarker) && CheckpointFits(c) && n <= |AllOps(crc, c, text)|
    ensures var after := ApplyAll(s, AllOps(crc, c, text)[..n]);
            Absent(after, CompleteMarker) || AllDurable(after, crc, c)
  {
    hide Coherent, Absent, AllDurable, Apply, VouchedOps, CheckpointFits;
    hide MarkerOps, AboutMarker;
    var vouched, ops := VouchedOps(crc, c), AllOps(crc, c, text);
    VouchedTidy(crc, c);
    if n <= |vouched| {
      assert ops[..n] == vouched[..n];
      AbsentThroughout(s, vouched[..n], CompleteMarker);
    } else {
      SyncMakesDurable(s, crc, c);
      var synced := Apply(ApplyAll(s, vouched), SyncDir);
      var rest := PastTheSync(vouched, text, n);
      ApplyAllConcat(s, vouched, [SyncDir] + rest);
      ApplyAllFirst(ApplyAll(s, vouched), SyncDir, rest);
      ApplyCoherent(ApplyAll(s, vouched), SyncDir);
      MarkerLeavesDurable(synced, crc, c, rest);
    }
  }

  /** What has been done beyond the first directory sync concerns the marker alone. */
  lemma {:induction false} PastTheSync(vouched: seq<Op>, text: Bytes, n: nat) returns (rest: seq<Op>)
    requires |vouched| < n <= |vouched + MarkerOps(text)|
    ensures (vouched + MarkerOps(text))[..n] == vouched + ([SyncDir] + rest)
    ensures forall i :: 0 <= i < |rest| ==> AboutMarker(rest[i])
  {
    var marker, m := MarkerOps(text), n - |vouched|;
    rest := marker[1..m];
    assert marker[0] == SyncDir;
    assert marker[..m] == [SyncDir] + rest;
    assert (vouched + marker)[..n] == vouched + marker[..m];
  }

  lemma {:induction false} VouchedTidy(crc: Checksum, c: Checkpoint)
    requires CheckpointFits(c)
    ensures forall i :: 0 <= i < |VouchedOps(crc, c)| ==> NeverPuts(VouchedOps(crc, c)[i], CompleteMarker)
  {
    hide NeverPuts, CheckpointFits;
    StateOpsTidy(crc, c, |c.order|);
    FileOps(MetadataFile, EncodeMetadata(crc, c.meta), CompleteMarker);
  }

  /** The operation concerns the marker alone. */
  predicate AboutMarker(op: Op) {
    op.SyncDir? || (op.Rename? && Base(op.from) == Base(op.to) == CompleteMarker) || (!op.SyncDir? && !op.Rename? && Base(op.name) == CompleteMarker)
  }

  lemma {:induction false} MarkerLeavesDurable(s: FS, crc: Checksum, c: Checkpoint, ops: seq<Op>)
    requires Coherent(s) && CheckpointFits(c) && AllDurable(s, crc, c)
    requires forall i :: 0 <= i < |ops| ==> AboutMarker(ops[i])
    ensures AllDurable(ApplyAll(s, ops), crc, c)
  {
    hide Coherent, Durable, StateBytes, EncodeMetadata, CheckpointFits;
    DurableThroughout(s, ops, MetadataFile, EncodeMetadata(crc, c.meta));
    forall k | k in c.order ensures Durable(ApplyAll(s, ops), StateFile(k), StateBytes(crc, c, k)) {
      DurableThroughout(s, ops, StateFile(k), StateBytes(crc, c, k));
    }
  }

  /** Crash safety. Whatever the directory held before, short of a marker; however far the writes
      got; whichever of the entries not yet synced survived and whatever was left in the files
      not yet synced: if the marker can be seen, the checkpoint loads, and gives back exactly the
      metadata and the payload of every subtask of the job. */
  lemma {:induction false} VisibleImpliesLoadable(s: FS, crc: Checksum, c: Checkpoint, text: Bytes, n: nat, disk: map<Name, Bytes>)
    requires Coherent(s) && Absent(s, CompleteMarker) && CheckpointFits(c) && n <= |AllOps(crc, c, text)|
    requires Survives(ApplyAll(s, AllOps(crc, c, text)[..n]), disk)
    ensures CompleteMarker in disk ==>
              Load(crc, c.id, disk) == Some(Whole(c))
  {
    hide Coherent, Absent, AllDurable, NameSurvives, AllOps, Load, CheckpointFits, Subtasks, Whole;
    var after := ApplyAll(s, AllOps(crc, c, text)[..n]);
    AbsentOrDurable(s, crc, c, text, n);
    assert NameSurvives(after, CompleteMarker, disk);
    if Absent(after, CompleteMarker) {
      AbsentIsGone(after, CompleteMarker, disk);
    } else if CompleteMarker in disk {
      DurableLoads(after, crc, c, disk);
    }
  }

  /** The order is what makes it so: with the marker written before the directory is first synced,
      a crash can show the marker and no metadata. */
  lemma {:induction false} MarkerFirstIsUnsafe(crc: Checksum, meta: Metadata, text: Bytes)
    ensures var empty := FS(map[], map[], map[], 0);
            var early := ApplyAll(empty, WriteFileSynced(MetadataFile, EncodeMetadata(crc, meta)) + WriteFileSynced(CompleteMarker, text));
            Coherent(empty) && Absent(empty, CompleteMarker) && Survives(early, map[CompleteMarker := text])
  {
    hide EncodeMetadata, WriteFileSynced;
    var empty := FS(map[], map[], map[], 0);
    var meta1 := WriteFileSynced(MetadataFile, EncodeMetadata(crc, meta));
    var s1 := ApplyAll(empty, meta1);
    ApplyAllConcat(empty, meta1, WriteFileSynced(CompleteMarker, text));
    FileMayBeMissing(empty, MetadataFile, EncodeMetadata(crc, meta));
    FileMayBeMissing(s1, CompleteMarker, text);
    WrittenIsStored(s1, CompleteMarker, text);
    OnlyMarkerSurvives(ApplyAll(s1, WriteFileSynced(CompleteMarker, text)), text);
  }

  /** Until the directory is synced, any file may be missing after a crash, and the one just
      written may be there. */
  lemma {:induction false} FileMayBeMissing(s: FS, n: Name, data: Bytes)
    requires forall m :: None in Possible(s, m)
    ensures forall m :: None in Possible(ApplyAll(s, WriteFileSynced(n, data)), m)
    ensures var after := ApplyAll(s, WriteFileSynced(n, data)); n in after.entries ==> Some(after.entries[n]) in Possible(after, n)
  {
    FourSteps(s, n, data);
    MissingStays(s, Create(Temp(n)));
    var s1 := Apply(s, Create(Temp(n)));
    MissingStays(s1, Append(Temp(n), data));
    var s2 := Apply(s1, Append(Temp(n), data));
    MissingStays(s2, SyncFile(Temp(n)));
    var s3 := Apply(s2, SyncFile(Temp(n)));
    MissingStays(s3, Rename(Temp(n), n));
    TempDiffers(n);
    assert Temp(n) in s3.entries;
    RenamePossible(s3, Temp(n), n, n);
  }

  lemma {:induction false} MissingStays(s: FS, op: Op)
    requires (forall m :: None in Possible(s, m)) && !op.SyncDir?
    ensures forall m :: None in Possible(Apply(s, op), m)
  {
    forall m ensures None in Possible(Apply(s, op), m) {
      assert None in Possible(s, m);
      match op {
        case Create(n) =>
        case Append(n, _) =>
        case SyncFile(n) =>
        case Rename(from, to) => if from in s.entries && from != to { RenamePossible(s, from, to, m); }
        case Remove(n) =>
      }
    }
  }

  lemma {:induction false} OnlyMarkerSurvives(s: FS, text: Bytes)
    requires forall m :: None in Possible(s, m)
    requires Stored(s, CompleteMarker, text) && Some(s.entries[CompleteMarker]) in Possible(s, CompleteMarker)
    ensures Survives(s, map[CompleteMarker := text])
  {
    var disk: map<Name, Bytes> := map[CompleteMarker := text];
    forall n ensures NameSurvives(s, n, disk) {
      if n == CompleteMarker {
        assert Some(s.entries[n]) in Possible(s, n);
      } else {
        assert None in Possible(s, n);
      }
    }
  }
}
