/** The transactional sink on its two directories, where its files are found by name among those
    of the other subtasks. Every method is tied to the two-phase commit over epochs that
    TwoPhaseCommit.dfy describes, and leaves the files of other subtasks alone. */
module TransactionalSink {
  import opened Int64
  import opened Elements
  import opened ByteOrder
  import opened FileNames
  import opened TwoPhaseCommit

  type Files = map<string, seq<Record>>

  /** The staging and committed directories, shared by every subtask of every sink. */
  class Directories {
    var staging: Files
    var committed: Files

    constructor (leavings: Files)
      ensures staging == leavings && committed == map[]
    {
      staging, committed := leavings, map[];
    }

    method Rename(from: string, to: string) returns (ok: bool)
      modifies this
      ensures ok <==> from in old(staging)
      ensures ok ==> staging == old(staging) - {from} && committed == old(committed)[to := old(staging)[from]]
      ensures !ok ==> staging == old(staging) && committed == old(committed)
    {
      if from !in staging {
        return false;
      }
      committed := committed[to := staging[from]];
      staging := staging - {from};
      ok := true;
    }
  }

  /** The files of one subtask under one suffix are those of these epochs. */
  ghost predicate Shows(v: string, i: nat, suffix: string, files: Files, m: Epochs) {
    && (forall e :: e in m ==> 0 <= e <= MAX_INT64)
    && (forall e: int64 :: e >= 0 ==> (TransactionName(v, i, e, suffix) in files <==> e in m))
    && (forall e: int64 :: e >= 0 && e in m ==> files[TransactionName(v, i, e, suffix)] == m[e])
  }

  /** Every staging file taken for this subtask's has the name the sink would give it. */
  ghost predicate OnlyOwnNames(v: string, i: nat, files: Files) {
    forall n :: n in files && CheckpointOf(v, i, n).Some? ==>
      CheckpointOf(v, i, n).value >= 0 && n == TransactionName(v, i, CheckpointOf(v, i, n).value, STAGING_SUFFIX)
  }

  /** A name no transaction of this subtask has. */
  ghost predicate Foreign(v: string, i: nat, suffix: string, n: string) {
    forall e: int64 :: e >= 0 ==> n != TransactionName(v, i, e, suffix)
  }

  ghost predicate ForeignSame(v: string, i: nat, suffix: string, before: Files, after: Files) {
    forall n :: Foreign(v, i, suffix, n) ==> (n in before <==> n in after) && (n in before ==> before[n] == after[n])
  }

  lemma {:induction false} ForeignTogether(v: string, i: nat, suffix: string, a: Files, b: Files, c: Files)
    requires ForeignSame(v, i, suffix, a, b) && ForeignSame(v, i, suffix, b, c)
    ensures ForeignSame(v, i, suffix, a, c)
  {
    hide Foreign;
  }

  lemma {:induction false} PutShows(v: string, i: nat, suffix: string, files: Files, m: Epochs, k: int64, rs: seq<Record>)
    requires Shows(v, i, suffix, files, m) && k >= 0
    ensures Shows(v, i, suffix, files[TransactionName(v, i, k, suffix) := rs], m[k := rs])
    ensures ForeignSame(v, i, suffix, files, files[TransactionName(v, i, k, suffix) := rs])
  {
    hide TransactionName;
    forall e: int64 | e >= 0 ensures TransactionName(v, i, e, suffix) == TransactionName(v, i, k, suffix) ==> e == k {
      if TransactionName(v, i, e, suffix) == TransactionName(v, i, k, suffix) {
        TransactionNameInjective(v, i, e, v, i, k, suffix);
      }
    }
  }

  lemma {:induction false} DropShows(v: string, i: nat, suffix: string, files: Files, m: Epochs, k: int64)
    requires Shows(v, i, suffix, files, m) && k >= 0
    ensures Shows(v, i, suffix, files - {TransactionName(v, i, k, suffix)}, m - {k})
    ensures ForeignSame(v, i, suffix, files, files - {TransactionName(v, i, k, suffix)})
  {
    hide TransactionName;
    forall e: int64 | e >= 0 ensures TransactionName(v, i, e, suffix) == TransactionName(v, i, k, suffix) ==> e == k {
      if TransactionName(v, i, e, suffix) == TransactionName(v, i, k, suffix) {
        TransactionNameInjective(v, i, e, v, i, k, suffix);
      }
    }
  }

  lemma {:induction false} OwnNameAdded(v: string, i: nat, files: Files, k: int64, rs: seq<Record>)
    requires OnlyOwnNames(v, i, files) && k >= 0
    ensures OnlyOwnNames(v, i, files[TransactionName(v, i, k, STAGING_SUFFIX) := rs])
  {
    CheckpointOfStagingIff(v, i, k);
  }

  class Transactional {
    const dirs: Directories
    const vertexId: string
    const index: nat
    var epoch: int
    var firstEpoch: int
    var written: set<int>
    /** Whether the staging file of the current epoch is open, and what has been written to it. */
    var open: bool
    var buf: seq<Record>
    /** This subtask's files, by epoch. */
    ghost var own: Disk

    ghost function Sink(): Instance
      reads this
    {
      Instance(epoch, firstEpoch, written, open, buf)
    }

    ghost predicate Valid()
      reads this, dirs
    {
      && 0 < firstEpoch <= epoch <= MAX_INT64
      && Shows(vertexId, index, STAGING_SUFFIX, dirs.staging, own.staging)
      && Shows(vertexId, index, COMMIT_SUFFIX, dirs.committed, own.committed)
      && OnlyOwnNames(vertexId, index, dirs.staging)
    }

    /** No other subtask's file has been touched. */
    twostate predicate OthersKept()
      reads this, dirs
    {
      && ForeignSame(vertexId, index, STAGING_SUFFIX, old(dirs.staging), dirs.staging)
      && ForeignSame(vertexId, index, COMMIT_SUFFIX, old(dirs.committed), dirs.committed)
    }

    constructor (dirs: Directories, vertexId: string, index: nat, ghost own: Disk)
      requires Shows(vertexId, index, STAGING_SUFFIX, dirs.staging, own.staging)
      requires Shows(vertexId, index, COMMIT_SUFFIX, dirs.committed, own.committed)
      requires OnlyOwnNames(vertexId, index, dirs.staging)
      ensures Valid() && Sink() == Fresh(0) && this.own == own && this.dirs == dirs
    {
      this.dirs, this.vertexId, this.index := dirs, vertexId, index;
      epoch, firstEpoch, written, open, buf := 1, 1, {}, false, [];
      this.own := own;
    }

    method Write(rec: Record)
      requires Valid()
      modifies this, dirs
      ensures Valid() && OthersKept() && Effect(Sink(), own) == WriteRecord(old(Sink()), old(own), rec)
    {
      hide Shows, OnlyOwnNames, TransactionName, Foreign;
      if !open {
        OpenEpoch();
      }
      buf := buf + [rec];
    }

    method OpenEpoch()
      requires Valid() && !open
      modifies this, dirs
      ensures Valid() && OthersKept()
      ensures Sink() == old(Sink()).(open := true, buffer := [], written := old(written) + {epoch})
      ensures own == old(own).(staging := old(own).staging[epoch := []])
    {
      hide Shows, OnlyOwnNames, TransactionName, Foreign;
      Stage([]);
      open, buf := true, [];
      written := written + {epoch};
    }

    /** Sets the contents of the current epoch's staging file. */
    method Stage(rs: seq<Record>)
      requires Valid()
      modifies this`own, dirs
      ensures Valid() && OthersKept() && own == old(own).(staging := old(own).staging[epoch := rs])
    {
      hide Shows, OnlyOwnNames, TransactionName, Foreign;
      PutShows(vertexId, index, STAGING_SUFFIX, dirs.staging, own.staging, epoch, rs);
      OwnNameAdded(vertexId, index, dirs.staging, epoch, rs);
      dirs.staging := dirs.staging[TransactionName(vertexId, index, epoch, STAGING_SUFFIX) := rs];
      own := own.(staging := own.staging[epoch := rs]);
    }

    method CloseEpoch()
      requires Valid()
      modifies this, dirs
      ensures Valid() && OthersKept() && Effect(Sink(), own) == TwoPhaseCommit.CloseEpoch(old(Sink()), old(own))
    {
      hide Shows, OnlyOwnNames, TransactionName, Foreign;
      if !open {
        return;
      }
      Stage(buf);
      open, buf := false, [];
    }

    /** The payload is the epoch that ends here; nothing is committed. */
    method Snapshot() returns (payload: Bytes)
      requires Valid() && epoch < MAX_INT64
      modifies this, dirs
      ensures Valid() && OthersKept() && Effect(Sink(), own) == TwoPhaseCommit.Snapshot(old(Sink()), old(own))
      ensures |payload| == 8 && ReadBigEndian(payload) == old(epoch)
    {
      hide Shows, OnlyOwnNames, TransactionName, Foreign;
      CloseEpoch();
      Spans();
      ReadBack(epoch, 8);
      payload := BigEndian(epoch, 8);
      epoch := epoch + 1;
    }

    /** Renames one staged epoch into committed, if it is there. */
    method CommitOne(k: int) returns (renamed: bool)
      requires Valid() && 0 <= k <= MAX_INT64
      modifies this`own, dirs
      ensures Valid() && OthersKept() && own == Commit(old(own), k)
      ensures renamed <==> k in old(own).staging
    {
      hide OnlyOwnNames, TransactionName, Foreign;
      var from, to := TransactionName(vertexId, index, k, STAGING_SUFFIX), TransactionName(vertexId, index, k, COMMIT_SUFFIX);
      ghost var s, c := dirs.staging, dirs.committed;
      renamed := dirs.Rename(from, to);
      if renamed {
        DropShows(vertexId, index, STAGING_SUFFIX, s, own.staging, k);
        PutShows(vertexId, index, COMMIT_SUFFIX, c, own.committed, k, s[from]);
        FewerOwnNames(vertexId, index, s, from);
        own := Commit(own, k);
      }
    }

    /** Commits checkpoint `id`. Committing it again, or one with no records, is not an error; it
        is one only when this instance wrote the epoch and its file is in neither directory. */
    method NotifyCheckpointComplete(id: int) returns (ok: bool)
      requires Valid() && 0 <= id <= MAX_INT64
      modifies this`own, dirs
      ensures Valid() && OthersKept() && own == Commit(old(own), id)
      ensures ok <==> !NotifyFails(Sink(), old(own), id)
    {
      hide OnlyOwnNames, TransactionName, Foreign;
      var renamed := CommitOne(id);
      if renamed {
        return true;
      }
      if TransactionName(vertexId, index, id, COMMIT_SUFFIX) in dirs.committed {
        return true;
      }
      ok := !(firstEpoch <= id < epoch && id in written);
    }

    /** Resumes at the checkpoint the payload names; no payload at all is a job that is not
        resuming. Any other length, or a negative checkpoint, is refused. */
    method Restore(payload: Bytes) returns (ok: bool)
      requires Valid() && (|payload| == 8 ==> ReadBigEndian(payload) != MAX_INT64)
      modifies this, dirs
      ensures Valid() && OthersKept()
      ensures ok <==> payload == [] || (|payload| == 8 && ReadBigEndian(payload) < TWO_63)
      ensures ok ==> var k := if payload == [] then 0 else ReadBigEndian(payload);
                     Effect(Sink(), own) == Effect(Fresh(k).(open := old(open), buffer := old(buf)), Settle(old(own), k, old(own).staging.Keys))
      ensures !ok ==> Effect(Sink(), own) == old(Effect(Sink(), own))
    {
      hide Shows, OnlyOwnNames, TransactionName, Foreign, Settle;
      var k := 0;
      if |payload| != 0 {
        if |payload| != 8 {
          return false;
        }
        k := ReadBigEndian(payload);
        if k >= TWO_63 {
          return false;
        }
      }
      SettleStaged(k);
      epoch, firstEpoch := k + 1, k + 1;
      written := {};
      ok := true;
    }

    /** Every staged epoch of this subtask at or below `k` is committed and every one above it
        discarded, in whatever order the directory lists them. */
    method SettleStaged(k: int)
      requires Valid() && k >= 0
      modifies this`own, dirs
      ensures Valid() && OthersKept() && own == Settle(old(own), k, old(own).staging.Keys)
    {
      hide Shows, OnlyOwnNames, TransactionName, Foreign, CheckpointOf, Settle, SettleOne, ForeignSame;
      assert OthersKept() by { NothingChanged(); }
      var left := dirs.staging.Keys;
      ghost var done: set<int> := {};
      SettleNothing(own, k);
      while left != {}
        invariant Valid() && OthersKept() && own == Settle(old(own), k, done)
        invariant forall n :: n in left ==> n in dirs.staging
        invariant forall n :: n in dirs.staging && CheckpointOf(vertexId, index, n).Some? ==> n in left
        decreases |left|
      {
        var name :| name in left;
        left := left - {name};
        var id := CheckpointOf(vertexId, index, name);
        if id.Some? {
          label Before:
          SettleEntry(k, name, id.value);
          KeptTogether(dirs.staging, old@Before(dirs.staging), old(dirs.staging), dirs.committed, old@Before(dirs.committed), old(dirs.committed));
          SettleOneMore(old(own), k, done, id.value);
          done := done + {id.value};
        }
      }
      SettledAll(k, old(own), done);
    }

    lemma {:induction false} NothingChanged()
      ensures ForeignSame(vertexId, index, STAGING_SUFFIX, dirs.staging, dirs.staging)
      ensures ForeignSame(vertexId, index, COMMIT_SUFFIX, dirs.committed, dirs.committed)
    {}

    lemma {:induction false} KeptTogether(s2: Files, s1: Files, s0: Files, c2: Files, c1: Files, c0: Files)
      requires ForeignSame(vertexId, index, STAGING_SUFFIX, s0, s1) && ForeignSame(vertexId, index, STAGING_SUFFIX, s1, s2)
      requires ForeignSame(vertexId, index, COMMIT_SUFFIX, c0, c1) && ForeignSame(vertexId, index, COMMIT_SUFFIX, c1, c2)
      ensures ForeignSame(vertexId, index, STAGING_SUFFIX, s0, s2) && ForeignSame(vertexId, index, COMMIT_SUFFIX, c0, c2)
    {
      ForeignTogether(vertexId, index, STAGING_SUFFIX, s0, s1, s2);
      ForeignTogether(vertexId, index, COMMIT_SUFFIX, c0, c1, c2);
    }

    /** Nothing of this subtask's is left in staging. */
    lemma {:induction false} SettledAll(k: int, before: Disk, done: set<int>)
      requires Valid() && own == Settle(before, k, done)
      requires forall n :: n in dirs.staging ==> CheckpointOf(vertexId, index, n).None?
      ensures own == Settle(before, k, before.staging.Keys)
    {
      hide TransactionName, Foreign, CheckpointOf, OnlyOwnNames;
      forall e | e in own.staging ensures false {
        CheckpointOfStagingIff(vertexId, index, e);
      }
      forall e | e in before.staging ensures e in done {
        assert e !in own.staging;
      }
    }

    /** One entry of the directory. */
    method SettleEntry(k: int, name: string, id: int)
      requires Valid() && name in dirs.staging && CheckpointOf(vertexId, index, name) == Some(id)
      modifies this`own, dirs
      ensures Valid() && OthersKept() && own == SettleOne(old(own), k, id)
      ensures id in old(own).staging
      ensures dirs.staging == old(dirs.staging) - {name}
    {
      hide Foreign, CheckpointOf, TransactionName;
      if id > k {
        ghost var s := dirs.staging;
        dirs.staging := dirs.staging - {name};
        DropShows(vertexId, index, STAGING_SUFFIX, s, own.staging, id);
        FewerOwnNames(vertexId, index, s, name);
        own := own.(staging := own.staging - {id});
      } else {
        ghost var s, c := dirs.staging, dirs.committed;
        var to := TransactionName(vertexId, index, id, COMMIT_SUFFIX);
        var renamed := dirs.Rename(name, to);
        DropShows(vertexId, index, STAGING_SUFFIX, s, own.staging, id);
        PutShows(vertexId, index, COMMIT_SUFFIX, c, own.committed, id, s[name]);
        FewerOwnNames(vertexId, index, s, name);
        own := Commit(own, id);
      }
    }

    /** Every epoch this instance still has staged, once the whole job has succeeded. */
    method CommitFinalEpoch()
      requires Valid()
      modifies this, dirs
      ensures Valid() && OthersKept() && Effect(Sink(), own) == TwoPhaseCommit.CommitFinalEpoch(old(Sink()), old(own))
    {
      hide Shows, OnlyOwnNames, TransactionName, Foreign, CommitRange, Commit;
      CloseEpoch();
      ghost var closed := own;
      RangeOfNone(own, firstEpoch);
      var id := firstEpoch;
      while id <= epoch
        invariant firstEpoch <= id <= epoch + 1 && Valid() && OthersKept()
        invariant own == CommitRange(closed, firstEpoch, id - 1)
        invariant Sink() == TwoPhaseCommit.CloseEpoch(old(Sink()), old(own)).sink
      {
        var _ := CommitOne(id);
        RangeOneMore(closed, firstEpoch, id);
        id := id + 1;
      }
    }
  }

  lemma {:induction false} FewerOwnNames(v: string, i: nat, files: Files, n: string)
    requires OnlyOwnNames(v, i, files)
    ensures OnlyOwnNames(v, i, files - {n})
  {
    hide CheckpointOf, TransactionName;
  }

  lemma {:induction false} SettleNothing(d: Disk, k: int)
    ensures Settle(d, k, {}) == d
  {}

  lemma {:induction false} SettleOneMore(d: Disk, k: int, done: set<int>, id: int)
    requires id in Settle(d, k, done).staging
    ensures SettleOne(Settle(d, k, done), k, id) == Settle(d, k, done + {id})
  {
    SettleOneStaging(d, k, done, id);
    SettleOneCommitted(d, k, done, id);
  }

  lemma {:induction false} SettleOneStaging(d: Disk, k: int, done: set<int>, id: int)
    ensures Settle(d, k, done).staging - {id} == Settle(d, k, done + {id}).staging
  {}

  lemma {:induction false} SettleOneCommitted(d: Disk, k: int, done: set<int>, id: int)
    requires id in d.staging
    ensures Settle(d, k, done + {id}).committed ==
            if id > k then Settle(d, k, done).committed else Settle(d, k, done).committed[id := d.staging[id]]
  {
    var a, b := Settle(d, k, done).committed, Settle(d, k, done + {id}).committed;
    assert forall e :: e in b <==> e in a || (e == id && id <= k);
  }

  lemma {:induction false} RangeOfNone(d: Disk, from: int)
    ensures CommitRange(d, from, from - 1) == d
  {}

  lemma {:induction false} RangeOneMore(d: Disk, from: int, id: int)
    requires from <= id
    ensures Commit(CommitRange(d, from, id - 1), id) == CommitRange(d, from, id)
  {
    RangeStaging(d, from, id);
    RangeCommitted(d, from, id);
    if id !in d.staging {
      assert CommitRange(d, from, id - 1).staging - {id} == CommitRange(d, from, id - 1).staging;
    }
  }

  lemma {:induction false} RangeStaging(d: Disk, from: int, id: int)
    requires from <= id
    ensures id in CommitRange(d, from, id - 1).staging <==> id in d.staging
    ensures CommitRange(d, from, id - 1).staging - {id} == CommitRange(d, from, id).staging
  {}

  lemma {:induction false} RangeCommitted(d: Disk, from: int, id: int)
    requires from <= id
    ensures CommitRange(d, from, id).committed ==
            if id in d.staging then CommitRange(d, from, id - 1).committed[id := d.staging[id]] else CommitRange(d, from, id - 1).committed
  {
    var a, b := CommitRange(d, from, id - 1).committed, CommitRange(d, from, id).committed;
    assert forall e :: e in b <==> e in a || (e == id && id in d.staging);
  }
}
