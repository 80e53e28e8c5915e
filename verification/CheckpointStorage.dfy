/** The storage object writing through its file system, any call of which may fail. Whatever it
    has done when it stops is a stretch of the sequence CrashSafety.dfy reasons about, give or take
    the removal of a temporary file, so what is proved there holds of every attempt. */
module CheckpointStorage {
  import opened Int64
  import opened Elements
  import opened CheckpointCodec
  import opened DurableFiles
  import opened CrashSafety

  class FileSystem {
    var fs: FS
    /** How many more calls succeed, and whether the cleanup after a failure does. */
    var budget: nat
    var cleansUp: bool
    ghost var trace: seq<Op>

    constructor (fs: FS, budget: nat, cleansUp: bool)
      ensures this.fs == fs && this.budget == budget && trace == []
    {
      this.fs, this.budget, this.cleansUp, trace := fs, budget, cleansUp, [];
    }

    method Call(op: Op) returns (ok: bool)
      modifies this
      ensures ok <==> old(budget) > 0
      ensures fs == if ok then Apply(old(fs), op) else old(fs)
      ensures trace == if ok then old(trace) + [op] else old(trace)
    {
      ok := budget > 0;
      if ok {
        fs, budget, trace := Apply(fs, op), budget - 1, trace + [op];
      }
    }

    /** Closing a file changes nothing on the disk, but can fail like any other call. */
    method Close() returns (ok: bool)
      modifies this`budget
      ensures ok <==> old(budget) > 0
    {
      ok := budget > 0;
      if ok {
        budget := budget - 1;
      }
    }

    /** The error of a cleanup is dropped. */
    method Cleanup(n: Name)
      modifies this
      ensures (fs == old(fs) && trace == old(trace)) || (fs == Apply(old(fs), Remove(n)) && trace == old(trace) + [Remove(n)])
    {
      if cleansUp {
        fs, trace := Apply(fs, Remove(n)), trace + [Remove(n)];
      }
    }
  }

  /** How far the writing of one file got: a prefix of its calls, then perhaps the removal of its
      temporary. */
  ghost predicate FileAttempt(done: seq<Op>, n: Name, data: Bytes) {
    exists m :: 0 <= m < 4 &&
      (done == WriteFileSynced(n, data)[..m] || (m > 0 && done == WriteFileSynced(n, data)[..m] + [Remove(Temp(n))]))
  }

  /** How far a sequence of calls got. */
  ghost predicate Attempt(done: seq<Op>, all: seq<Op>) {
    exists m :: 0 <= m <= |all| &&
      (done == all[..m] || (m > 0 && exists n :: About(all[m - 1], n) && done == all[..m] + [Remove(Temp(n))]))
  }

  /** A call on the temporary of a file. */
  predicate About(op: Op, n: Name) {
    (op.Create? || op.Append? || op.SyncFile?) && op.name == Temp(n)
  }

  /** An ID that can be half of a file name. */
  predicate GoodVertexId(id: Bytes) {
    id != [] && id != [46] && id != [46, 46] && 47 !in id && |id| <= MAX_ID_BYTES
  }

  /** To a temporary file, synced and closed, then renamed; the temporary is removed if a step
      before the rename fails. */
  method WriteFile(f: FileSystem, n: Name, data: Bytes) returns (ok: bool)
    modifies f
    ensures ok ==> f.trace == old(f.trace) + WriteFileSynced(n, data) && f.fs == ApplyAll(old(f.fs), WriteFileSynced(n, data))
    ensures !ok ==> exists done :: FileAttempt(done, n, data) && f.trace == old(f.trace) + done && f.fs == ApplyAll(old(f.fs), done)
  {
    hide Apply, ApplyAll, WriteFileSynced, FileAttempt;
    var all := WriteFileSynced(n, data);
    FourOps(n, data);
    ghost var s := f.fs;
    NothingApplied(s);
    assert f.trace + all[..0] == f.trace;
    for i := 0 to 4
      invariant f.trace == old(f.trace) + all[..i] && f.fs == ApplyAll(s, all[..i])
    {
      ok := f.Call(all[i]);
      if !ok {
        StoppedAfter(n, data, i);
        if 0 < i < 3 {
          AppliedOneMore(s, all[..i], Remove(Temp(n)));
          f.Cleanup(Temp(n));
        }
        return false;
      }
      AppliedOneMore(s, all[..i], all[i]);
      assert all[..i + 1] == all[..i] + [all[i]];
      if i == 2 {
        ok := f.Close();
        if !ok {
          StoppedAfter(n, data, 3);
          AppliedOneMore(s, all[..3], Remove(Temp(n)));
          f.Cleanup(Temp(n));
          return;
        }
      }
    }
    assert all[..4] == all;
    ok := true;
  }

  lemma {:induction false} StoppedAfter(n: Name, data: Bytes, i: nat)
    requires i < 4
    ensures FileAttempt(WriteFileSynced(n, data)[..i], n, data)
    ensures i > 0 ==> FileAttempt(WriteFileSynced(n, data)[..i] + [Remove(Temp(n))], n, data)
  {}

  lemma {:induction false} AppliedOneMore(s: FS, done: seq<Op>, op: Op)
    ensures ApplyAll(s, done + [op]) == Apply(ApplyAll(s, done), op)
  {
    assert (done + [op])[..|done|] == done;
  }

  /** What a file's attempt means for the whole sequence it is part of. */
  lemma {:induction false} AttemptIn(before: seq<Op>, n: Name, data: Bytes, after: seq<Op>, done: seq<Op>)
    requires FileAttempt(done, n, data)
    ensures Attempt(before + done, before + WriteFileSynced(n, data) + after)
  {
    var file := WriteFileSynced(n, data);
    var all := before + file + after;
    var m :| 0 <= m < 4 && (done == file[..m] || (m > 0 && done == file[..m] + [Remove(Temp(n))]));
    var k := |before| + m;
    assert all[..k] == before + file[..m];
    if done == file[..m] {
      assert before + done == all[..k];
    } else {
      assert all[k - 1] == file[m - 1];
      if m == 4 { } else { assert About(all[k - 1], n); }
      assert before + done == all[..k] + [Remove(Temp(n))];
    }
  }

  lemma {:induction false} AttemptPrefix(all: seq<Op>, m: nat)
    requires m <= |all|
    ensures Attempt(all[..m], all)
  {}

  class Storage {
    const files: FileSystem
    const crc: Checksum

    constructor (files: FileSystem, crc: Checksum)
      ensures this.files == files && this.crc == crc
    {
      this.files, this.crc := files, crc;
    }

    /** Records one subtask's snapshot; an ID that cannot be in a file name is refused. */
    method WriteSubtaskState(id: int64, key: SubtaskKey, payload: Bytes) returns (ok: bool)
      modifies files
      ensures !GoodVertexId(key.vertexId) ==> !ok && files.trace == old(files.trace) && files.fs == old(files.fs)
      ensures ok ==>
                var ops := WriteFileSynced(StateFile(key), EncodeSubtaskState(crc, id, key, payload));
                files.trace == old(files.trace) + ops && files.fs == ApplyAll(old(files.fs), ops)
      ensures !ok && GoodVertexId(key.vertexId) ==>
                exists done ::
                  && FileAttempt(done, StateFile(key), EncodeSubtaskState(crc, id, key, payload))
                  && files.trace == old(files.trace) + done && files.fs == ApplyAll(old(files.fs), done)
    {
      if !GoodVertexId(key.vertexId) {
        return false;
      }
      ok := WriteFile(files, StateFile(key), EncodeSubtaskState(crc, id, key, payload));
    }

    method SyncDirectory(ghost all: seq<Op>, ghost s: FS) returns (ok: bool)
      requires |files.trace| < |all| && files.trace == all[..|files.trace|] && all[|files.trace|] == SyncDir && files.fs == ApplyAll(s, files.trace)
      modifies files
      ensures files.trace == (if ok then all[..|old(files.trace)| + 1] else old(files.trace)) && files.fs == ApplyAll(s, files.trace)
      ensures Attempt(files.trace, all)
    {
      hide Apply;
      ghost var m := |files.trace|;
      AppliedOneMore(s, files.trace, SyncDir);
      ok := files.Call(SyncDir);
      assert all[..m + 1] == all[..m] + [SyncDir];
      AttemptPrefix(all, |files.trace|);
    }

    /** One file of a longer sequence of calls. */
    method WriteNext(n: Name, data: Bytes, ghost before: seq<Op>, ghost after: seq<Op>, ghost s: FS) returns (ok: bool)
      requires files.trace == before && files.fs == ApplyAll(s, before)
      modifies files
      ensures files.fs == ApplyAll(s, files.trace)
      ensures ok ==> files.trace == before + WriteFileSynced(n, data)
      ensures Attempt(files.trace, before + WriteFileSynced(n, data) + after)
    {
      hide Attempt, ApplyAll, FileAttempt;
      ghost var all := before + WriteFileSynced(n, data) + after;
      ok := WriteFile(files, n, data);
      if ok {
        ApplyAllConcat(s, before, WriteFileSynced(n, data));
        assert all[..|before| + 4] == before + WriteFileSynced(n, data);
        AttemptPrefix(all, |before| + 4);
      } else {
        ghost var done :| FileAttempt(done, n, data) && files.trace == before + done && files.fs == ApplyAll(ApplyAll(s, before), done);
        ApplyAllConcat(s, before, done);
        AttemptIn(before, n, data, after, done);
      }
    }

    /** Metadata, directory sync, marker, directory sync. */
    method Complete(c: Checkpoint, text: Bytes, ghost s: FS) returns (ok: bool)
      requires CheckpointFits(c) && files.trace == StateOps(crc, c, |c.order|) && files.fs == ApplyAll(s, files.trace)
      modifies files
      ensures Attempt(files.trace, AllOps(crc, c, text)) && files.fs == ApplyAll(s, files.trace)
      ensures ok ==> files.trace == AllOps(crc, c, text)
    {
      hide Attempt, ApplyAll, EncodeMetadata, StateOps, CheckpointFits, WriteFileSynced, FileAttempt, Apply, AllOps, VouchedOps, MarkerOps;
      ghost var states, all := StateOps(crc, c, |c.order|), AllOps(crc, c, text);
      ghost var vouched := VouchedOps(crc, c);
      ghost var marker := WriteFileSynced(CompleteMarker, text);
      OrderOfCompletion(crc, c, text);
      ok := WriteNext(MetadataFile, EncodeMetadata(crc, c.meta), states, MarkerOps(text), s);
      if !ok {
        return;
      }
      ok := SyncDirectory(all, s);
      if !ok {
        return;
      }
      ok := WriteNext(CompleteMarker, text, vouched + [SyncDir], [SyncDir], s);
      if !ok {
        return;
      }
      ok := SyncDirectory(all, s);
    }

    /** A whole checkpoint. Whichever call fails, and whatever a crash at that point leaves: if the
        marker can be seen, the checkpoint loads and is the one handed in. */
    method WriteCheckpoint(c: Checkpoint, text: Bytes) returns (ok: bool)
      requires CheckpointFits(c) && files.trace == [] && Coherent(files.fs) && Absent(files.fs, CompleteMarker)
      modifies files
      ensures ok ==> files.trace == AllOps(crc, c, text)
      ensures forall disk :: Survives(files.fs, disk) && CompleteMarker in disk ==>
                Load(crc, c.id, disk) == Some(Whole(c))
    {
      hide Attempt, ApplyAll, EncodeMetadata, CheckpointFits, AllOps, Survives, Load, Subtasks, Coherent, Absent, Whole;
      ghost var s, all := files.fs, AllOps(crc, c, text);
      ok := WriteStates(c, text, s);
      if ok {
        ok := Complete(c, text, s);
      }
      AttemptIsSafe(s, crc, c, text, files.trace);
    }

    method WriteStates(c: Checkpoint, ghost text: Bytes, ghost s: FS) returns (ok: bool)
      requires CheckpointFits(c) && files.trace == [] && files.fs == s
      modifies files
      ensures files.fs == ApplyAll(s, files.trace)
      ensures ok ==> files.trace == StateOps(crc, c, |c.order|)
      ensures !ok ==> Attempt(files.trace, AllOps(crc, c, text))
    {
      hide Attempt, EncodeSubtaskState, CheckpointFits, AllOps, WriteFileSynced, FileAttempt, ApplyAll, GoodVertexId, RestOps;
      assert ApplyAll(s, []) == s by { NothingApplied(s); }
      for n := 0 to |c.order|
        invariant files.trace == StateOps(crc, c, n) && files.fs == ApplyAll(s, files.trace)
      {
        var k := c.order[n];
        ghost var before := files.trace;
        InOrder(c, k);
        StatesSplit(crc, c, text, n);
        ok := WriteSubtaskState(c.id, k, c.payloads[k]);
        if !ok {
          if GoodVertexId(k.vertexId) {
            ghost var done :| FileAttempt(done, StateFile(k), EncodeSubtaskState(crc, c.id, k, c.payloads[k]))
                           && files.trace == before + done && files.fs == ApplyAll(ApplyAll(s, before), done);
            ApplyAllConcat(s, before, done);
            AttemptIn(before, StateFile(k), StateBytes(crc, c, k), RestOps(crc, c, text, n + 1), done);
          } else {
            assert AllOps(crc, c, text)[..|before|] == before;
            AttemptPrefix(AllOps(crc, c, text), |before|);
          }
          return;
        }
        ApplyAllConcat(s, before, WriteFileSynced(StateFile(k), StateBytes(crc, c, k)));
      }
      ok := true;
    }
  }

  /** The calls of a completion, in their places. */
  lemma {:induction false} OrderOfCompletion(crc: Checksum, c: Checkpoint, text: Bytes)
    requires CheckpointFits(c)
    ensures var states, vouched, all := StateOps(crc, c, |c.order|), VouchedOps(crc, c), AllOps(crc, c, text);
            var marker := WriteFileSynced(CompleteMarker, text);
            && vouched == states + WriteFileSynced(MetadataFile, EncodeMetadata(crc, c.meta))
            && all == vouched + MarkerOps(text) == (vouched + [SyncDir]) + marker + [SyncDir]
            && all[..|vouched|] == vouched && all[|vouched|] == SyncDir
            && all[..|vouched| + 1] == vouched + [SyncDir]
            && all[..|all| - 1] == vouched + [SyncDir] + marker && all[|all| - 1] == SyncDir && all[..|all|] == all
  {
    hide StateOps, CheckpointFits, EncodeMetadata, WriteFileSynced;
  }

  lemma {:induction false} NothingApplied(s: FS)
    ensures ApplyAll(s, []) == s
  {}

  lemma {:induction false} InOrder(c: Checkpoint, k: SubtaskKey)
    requires CheckpointFits(c) && k in c.order
    ensures k in c.payloads
  {}

  /** What is still to be done once the first `n` state files are written. */
  function RestOps(crc: Checksum, c: Checkpoint, text: Bytes, n: nat): seq<Op>
    requires CheckpointFits(c) && n <= |c.order|
    decreases |c.order| - n
  {
    if n == |c.order| then MetadataOps(crc, c) + MarkerOps(text)
    else WriteFileSynced(StateFile(c.order[n]), StateBytes(crc, c, c.order[n])) + RestOps(crc, c, text, n + 1)
  }

  lemma {:induction false} RestCompletes(crc: Checksum, c: Checkpoint, text: Bytes, n: nat)
    requires CheckpointFits(c) && n <= |c.order|
    ensures StateOps(crc, c, n) + RestOps(crc, c, text, n) == AllOps(crc, c, text)
    decreases |c.order| - n
  {
    hide CheckpointFits, WriteFileSynced, StateBytes, MetadataOps, MarkerOps;
    if n < |c.order| {
      RestCompletes(crc, c, text, n + 1);
      var file := WriteFileSynced(StateFile(c.order[n]), StateBytes(crc, c, c.order[n]));
      assert StateOps(crc, c, n) + (file + RestOps(crc, c, text, n + 1)) == (StateOps(crc, c, n) + file) + RestOps(crc, c, text, n + 1);
    } else {
      assert StateOps(crc, c, n) + (MetadataOps(crc, c) + MarkerOps(text)) == VouchedOps(crc, c) + MarkerOps(text);
    }
  }

  lemma {:induction false} StatesSplit(crc: Checksum, c: Checkpoint, text: Bytes, n: nat)
    requires CheckpointFits(c) && n < |c.order|
    ensures AllOps(crc, c, text) ==
            StateOps(crc, c, n) + WriteFileSynced(StateFile(c.order[n]), StateBytes(crc, c, c.order[n])) + RestOps(crc, c, text, n + 1)
  {
    hide CheckpointFits, WriteFileSynced, StateBytes;
    RestCompletes(crc, c, text, n + 1);
  }

  /** Stopping anywhere, with or without removing the temporary at hand, is crash safe. */
  lemma {:induction false} AttemptIsSafe(s: FS, crc: Checksum, c: Checkpoint, text: Bytes, done: seq<Op>)
    requires Coherent(s) && Absent(s, CompleteMarker) && CheckpointFits(c) && Attempt(done, AllOps(crc, c, text))
    ensures forall disk :: Survives(ApplyAll(s, done), disk) && CompleteMarker in disk ==>
              Load(crc, c.id, disk) == Some(Whole(c))
  {
    hide Coherent, Absent, CheckpointFits, ApplyAll, NameSurvives, Load, Subtasks, AllDurable, Apply, Whole;
    var all := AllOps(crc, c, text);
    var m :| 0 <= m <= |all| && (done == all[..m] || (m > 0 && exists n :: About(all[m - 1], n) && done == all[..m] + [Remove(Temp(n))]));
    AbsentOrDurable(s, crc, c, text, m);
    if done != all[..m] {
      var n :| About(all[m - 1], n) && done == all[..m] + [Remove(Temp(n))];
      RemovalIsHarmless(s, crc, c, text, m, n);
    }
    var after := ApplyAll(s, done);
    forall disk | Survives(after, disk) && CompleteMarker in disk
      ensures Load(crc, c.id, disk) == Some(Whole(c))
    {
      assert NameSurvives(after, CompleteMarker, disk);
      if Absent(after, CompleteMarker) {
        AbsentIsGone(after, CompleteMarker, disk);
      }
      DurableLoads(after, crc, c, disk);
    }
  }

  lemma {:induction false} RemovalIsHarmless(s: FS, crc: Checksum, c: Checkpoint, text: Bytes, m: nat, n: Name)
    requires Coherent(s) && Absent(s, CompleteMarker) && CheckpointFits(c) && 0 < m <= |AllOps(crc, c, text)|
    requires About(AllOps(crc, c, text)[m - 1], n)
    ensures var after := ApplyAll(s, AllOps(crc, c, text)[..m] + [Remove(Temp(n))]);
            Absent(after, CompleteMarker) || AllDurable(after, crc, c)
  {
    hide Coherent, Absent, AllDurable, Apply, CheckpointFits, ApplyAll, StateOps, MetadataOps;
    var all, vouched := AllOps(crc, c, text), VouchedOps(crc, c);
    var before := ApplyAll(s, all[..m]);
    AppliedOneMore(s, all[..m], Remove(Temp(n)));
    AbsentOrDurable(s, crc, c, text, m);
    if Absent(before, CompleteMarker) {
      AbsentStays(before, Remove(Temp(n)), CompleteMarker);
    } else {
      if m <= |vouched| {
        VouchedTidy(crc, c);
        assert all[..m] == vouched[..m];
        AbsentThroughout(s, vouched[..m], CompleteMarker);
      } else {
        assert all[m - 1] == MarkerOps(text)[m - 1 - |vouched|];
        assert n == CompleteMarker;
        AllTidyOps(crc, c, text);
        ApplyAllCoherent(s, all[..m]);
        OneOp(before, Remove(Temp(n)));
        MarkerLeavesDurable(before, crc, c, [Remove(Temp(n))]);
      }
    }
  }

  lemma {:induction false} OneOp(s: FS, op: Op)
    ensures ApplyAll(s, [op]) == Apply(s, op)
  {
    assert [op][..0] == [];
  }

  lemma {:induction false} AllTidyOps(crc: Checksum, c: Checkpoint, text: Bytes)
    requires CheckpointFits(c)
    ensures AllTidy(AllOps(crc, c, text))
  {
    hide CheckpointFits, StateOps, Tidy;
    StateOpsTidy(crc, c, |c.order|);
    FileOps(MetadataFile, EncodeMetadata(crc, c.meta), CompleteMarker);
    FileOps(CompleteMarker, text, MetadataFile);
    assert Tidy(SyncDir) by { SyncIsTidy(); }
  }

  lemma {:induction false} SyncIsTidy()
    ensures Tidy(SyncDir)
  {}
}
