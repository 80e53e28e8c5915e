/** One subtask of the transactional sink over any sequence of crashed runs: staging and committed
    files by epoch, against a ledger that knows only which run wrote what. */
module TwoPhaseCommit {
  import opened Elements

  type Epochs = map<int, seq<Record>>

  /** The two directories, as far as this subtask's files go. */
  datatype Disk = Disk(staging: Epochs, committed: Epochs)

  datatype Instance = Instance(epoch: int, firstEpoch: int, written: set<int>, open: bool, buffer: seq<Record>)

  // ----- The sink's operations --------------------------------------------------------------

  datatype Effect = Effect(sink: Instance, disk: Disk)

  /** The first write of an epoch creates its staging file. */
  function WriteRecord(i: Instance, d: Disk, rec: Record): Effect {
    if i.open then Effect(i.(buffer := i.buffer + [rec]), d)
    else Effect(i.(open := true, buffer := [rec], written := i.written + {i.epoch}), d.(staging := d.staging[i.epoch := []]))
  }

  /** Flushes and syncs the open staging file, if there is one. */
  function CloseEpoch(i: Instance, d: Disk): Effect {
    if i.open then Effect(i.(open := false, buffer := []), d.(staging := d.staging[i.epoch := i.buffer]))
    else Effect(i, d)
  }

  /** Ends the epoch and commits nothing. */
  function Snapshot(i: Instance, d: Disk): Effect {
    var closed := CloseEpoch(i, d);
    closed.(sink := closed.sink.(epoch := i.epoch + 1))
  }

  /** The rename that is the commit; nothing to rename is not an error here. */
  function Commit(d: Disk, k: int): Disk {
    if k in d.staging then Disk(d.staging - {k}, d.committed[k := d.staging[k]]) else d
  }

  /** A notification is in error only for an epoch of this instance that it wrote and whose file
      is in neither directory. */
  predicate NotifyFails(i: Instance, d: Disk, k: int) {
    k !in d.staging && k !in d.committed && i.firstEpoch <= k < i.epoch && k in i.written
  }

  /** What restoring at checkpoint `k` does to one staged epoch. */
  function SettleOne(d: Disk, k: int, id: int): Disk {
    if id > k then d.(staging := d.staging - {id}) else Commit(d, id)
  }

  /** Every staged epoch at or below `k` committed and every one above it discarded. */
  function Settle(d: Disk, k: int, ids: set<int>): Disk {
    Disk(map e | e in d.staging && e !in ids :: d.staging[e],
         d.committed + map e | e in d.staging && e in ids && e <= k :: d.staging[e])
  }

  function Fresh(k: int): Instance {
    Instance(k + 1, k + 1, {}, false, [])
  }

  function CommitRange(d: Disk, from: int, to: int): Disk {
    Disk(map e | e in d.staging && !(from <= e <= to) :: d.staging[e],
         d.committed + map e | e in d.staging && from <= e <= to :: d.staging[e])
  }

  /** Every epoch of this instance, once the whole job has succeeded. */
  function CommitFinalEpoch(i: Instance, d: Disk): Effect {
    var closed := CloseEpoch(i, d);
    closed.(disk := CommitRange(closed.disk, i.firstEpoch, i.epoch))
  }

  // ----- Runs ------------------------------------------------------------------------------

  /** What can happen to the sink. A crash leaves the open staging file missing or holding
      anything; a crash during a restore leaves some staged epochs settled and others not. */
  datatype Event =
    | Write(rec: Record)
    | Barrier
    | Completes(id: int)
    | Notify(id: int)
    | Crash(tail: Option<seq<Record>>)
    | InterruptedRestore(settled: set<int>)
    | Restore
    | Succeed

  /** Which run wrote what, and which checkpoints completed: read off the events alone. `past`
      are the epochs earlier runs own, `current` those of the run under way. */
  datatype Ledger = Ledger(running: bool, finished: bool, base: int, epoch: int, highest: int, complete: set<int>, past: Epochs, current: Epochs)

  const EMPTY := Ledger(false, false, 0, 1, 0, {}, map[], map[])

  function UpTo(m: Epochs, k: int): Epochs {
    map e | e in m && e <= k :: m[e]
  }

  function Note(l: Ledger, e: Event): Ledger {
    match e
    case Write(rec) => l.(current := l.current[l.epoch := (if l.epoch in l.current then l.current[l.epoch] else []) + [rec]])
    case Barrier => l.(epoch := l.epoch + 1)
    case Completes(id) => l.(complete := l.complete + {id}, highest := if id > l.highest then id else l.highest)
    case Notify(_) => l
    case Crash(_) => l.(running := false, past := l.past + UpTo(l.current, l.highest), current := map[])
    case InterruptedRestore(_) => l
    case Restore => l.(running := true, base := l.highest, epoch := l.highest + 1)
    case Succeed => l.(running := false, finished := true)
  }

  function LedgerOf(events: seq<Event>): Ledger {
    if events == [] then EMPTY else Note(LedgerOf(events[..|events| - 1]), events[|events| - 1])
  }

  /** A checkpoint completes after this sink's barrier for it, is notified, if at all, after it
      completes, and a run is restored at the highest complete one. */
  predicate Allowed(l: Ledger, e: Event) {
    !l.finished &&
    match e
    case Write(_) => l.running
    case Barrier => l.running
    case Completes(id) => l.running && l.base < id < l.epoch && id !in l.complete
    case Notify(id) => l.running && id in l.complete
    case Crash(_) => l.running
    case InterruptedRestore(_) => !l.running
    case Restore => !l.running
    case Succeed => l.running
  }

  predicate ValidEvents(events: seq<Event>) {
    events == [] || (ValidEvents(events[..|events| - 1]) && Allowed(LedgerOf(events[..|events| - 1]), events[|events| - 1]))
  }

  function AfterCrash(i: Instance, d: Disk, tail: Option<seq<Record>>): Disk {
    if !i.open then d
    else if tail.None? then d.(staging := d.staging - {i.epoch})
    else d.(staging := d.staging[i.epoch := tail.value])
  }

  function Happen(x: Effect, l: Ledger, e: Event): Effect {
    match e
    case Write(rec) => WriteRecord(x.sink, x.disk, rec)
    case Barrier => Snapshot(x.sink, x.disk)
    case Completes(_) => x
    case Notify(id) => x.(disk := Commit(x.disk, id))
    case Crash(tail) => x.(disk := AfterCrash(x.sink, x.disk, tail))
    case InterruptedRestore(settled) => x.(disk := Settle(x.disk, l.highest, settled))
    case Restore => Effect(Fresh(l.highest), Settle(x.disk, l.highest, x.disk.staging.Keys))
    case Succeed => CommitFinalEpoch(x.sink, x.disk)
  }

  /** A job starts with nothing committed; staging may hold the leavings of dead runs. */
  function RunOf(leavings: Epochs, events: seq<Event>): Effect {
    if events == [] then Effect(Fresh(0), Disk(leavings, map[]))
    else
      var init := events[..|events| - 1];
      Happen(RunOf(leavings, init), LedgerOf(init), events[|events| - 1])
  }

  // ----- The invariant ---------------------------------------------------------------------

  ghost predicate LedgerOK(l: Ledger) {
    && 0 <= l.highest && 0 <= l.base && (forall c :: c in l.complete ==> c <= l.highest)
    && (forall e :: e in l.past ==> 1 <= e <= (if l.running then l.base else l.highest) && l.past[e] != [])
    && (forall e :: e in l.current ==> l.running && l.base < e <= l.epoch && l.current[e] != [])
    && (l.running ==> l.base <= l.highest < l.epoch)
    && (l.running ==> forall c :: c in l.complete ==> c < l.epoch)
  }

  /** Whatever is committed is at or below the highest complete checkpoint and holds what its
      owner wrote. */
  ghost predicate CommittedOK(x: Effect, l: Ledger) {
    forall e :: e in x.disk.committed ==>
      && e <= l.highest
      && ((e in l.past && x.disk.committed[e] == l.past[e]) || (e in l.current && x.disk.committed[e] == l.current[e]))
  }

  /** Down: every epoch the next run will not produce again is committed or staged. */
  ghost predicate DownOK(x: Effect, l: Ledger) {
    && (forall e :: e in l.past ==> e in x.disk.committed || e in x.disk.staging)
    && (forall e :: e in x.disk.staging && e <= l.highest ==> e in l.past && x.disk.staging[e] == l.past[e])
  }

  /** Running: earlier epochs are committed, each closed epoch of this run is staged or committed,
      and the open one is in the buffer. */
  ghost predicate RunningOK(x: Effect, l: Ledger) {
    && x.sink.epoch == l.epoch && x.sink.firstEpoch == l.base + 1
    && (forall e :: e in l.past ==> e in x.disk.committed)
    && (forall e :: e in l.current && e < l.epoch ==> (e in x.disk.staging && x.disk.staging[e] == l.current[e]) || e in x.disk.committed)
    && (forall e :: e in x.disk.staging ==> e in l.current && (e < l.epoch ==> x.disk.staging[e] == l.current[e]))
    && (x.sink.open <==> l.epoch in l.current) && (x.sink.open <==> l.epoch in x.disk.staging)
    && (x.sink.open ==> x.sink.buffer == l.current[l.epoch])
    && x.sink.written == l.current.Keys
  }

  ghost predicate Good(x: Effect, l: Ledger) {
    && LedgerOK(l)
    && !l.finished
    && CommittedOK(x, l)
    && (if l.running then RunningOK(x, l) else DownOK(x, l))
  }

  lemma {:induction false} WriteGood(x: Effect, l: Ledger, rec: Record)
    requires Good(x, l) && Allowed(l, Write(rec))
    ensures Good(Happen(x, l, Write(rec)), Note(l, Write(rec)))
  {}

  lemma {:induction false} BarrierGood(x: Effect, l: Ledger)
    requires Good(x, l) && Allowed(l, Barrier)
    ensures Good(Happen(x, l, Barrier), Note(l, Barrier))
  {}

  lemma {:induction false} CompletesGood(x: Effect, l: Ledger, id: int)
    requires Good(x, l) && Allowed(l, Completes(id))
    ensures Good(Happen(x, l, Completes(id)), Note(l, Completes(id)))
  {}

  lemma {:induction false} NotifyGood(x: Effect, l: Ledger, id: int)
    requires Good(x, l) && Allowed(l, Notify(id))
    ensures Good(Happen(x, l, Notify(id)), Note(l, Notify(id)))
  {}

  lemma {:induction false} CrashGood(x: Effect, l: Ledger, tail: Option<seq<Record>>)
    requires Good(x, l) && Allowed(l, Crash(tail))
    ensures Good(Happen(x, l, Crash(tail)), Note(l, Crash(tail)))
  {}

  lemma {:induction false} InterruptedGood(x: Effect, l: Ledger, settled: set<int>)
    requires Good(x, l) && Allowed(l, InterruptedRestore(settled))
    ensures Good(Happen(x, l, InterruptedRestore(settled)), Note(l, InterruptedRestore(settled)))
  {}

  lemma {:induction false} RestoreGood(x: Effect, l: Ledger)
    requires Good(x, l) && Allowed(l, Restore)
    ensures Good(Happen(x, l, Restore), Note(l, Restore))
  {}

  /** Every reachable state before success is good. */
  lemma {:induction false} RunIsGood(leavings: Epochs, events: seq<Event>)
    requires ValidEvents(events) && !LedgerOf(events).finished
    requires forall e :: e in leavings ==> e >= 1
    ensures Good(RunOf(leavings, events), LedgerOf(events))
  {
    hide Good, Allowed;
    if events == [] {
      StartGood(leavings);
    } else {
      var init, last := events[..|events| - 1], events[|events| - 1];
      NotFinishedBefore(LedgerOf(init), last);
      RunIsGood(leavings, init);
      var x, l := RunOf(leavings, init), LedgerOf(init);
      match last {
        case Write(rec) => WriteGood(x, l, rec);
        case Barrier => BarrierGood(x, l);
        case Completes(id) => CompletesGood(x, l, id);
        case Notify(id) => NotifyGood(x, l, id);
        case Crash(tail) => CrashGood(x, l, tail);
        case InterruptedRestore(settled) => InterruptedGood(x, l, settled);
        case Restore => RestoreGood(x, l);
        case Succeed =>
      }
    }
  }

  lemma {:induction false} StartGood(leavings: Epochs)
    requires forall e :: e in leavings ==> e >= 1
    ensures Good(Effect(Fresh(0), Disk(leavings, map[])), EMPTY)
  {}

  lemma {:induction false} NotFinishedBefore(l: Ledger, e: Event)
    requires Allowed(l, e)
    ensures !l.finished && (e.Succeed? ==> Note(l, e).finished)
  {}

  // ----- Main results ----------------------------------------------------------------------

  /** Before the job succeeds no epoch above the highest complete checkpoint is committed, and
      what is committed is what its owner wrote. */
  lemma {:induction false} NothingCommittedAboveComplete(leavings: Epochs, events: seq<Event>)
    requires ValidEvents(events) && !LedgerOf(events).finished
    requires forall e :: e in leavings ==> e >= 1
    ensures forall e :: e in RunOf(leavings, events).disk.committed ==> e <= LedgerOf(events).highest
    ensures forall e :: e in RunOf(leavings, events).disk.committed ==>
              RunOf(leavings, events).disk.committed[e] ==
                if e in LedgerOf(events).past then LedgerOf(events).past[e] else
                if e in LedgerOf(events).current then LedgerOf(events).current[e] else []
  {
    RunIsGood(leavings, events);
  }

  /** A notification of a complete checkpoint, first or repeated, never reports a missing file. */
  lemma {:induction false} NotifyNeverFails(leavings: Epochs, events: seq<Event>, id: int)
    requires ValidEvents(events) && Allowed(LedgerOf(events), Notify(id))
    requires forall e :: e in leavings ==> e >= 1
    ensures !NotifyFails(RunOf(leavings, events).sink, RunOf(leavings, events).disk, id)
  {
    RunIsGood(leavings, events);
  }

  /** Exactly once: whatever crashed before, with notifications lost or repeated and restores
      interrupted, a run that succeeds leaves committed holding, for each epoch, exactly the
      records of the last run that owned it, and no file for any other epoch. */
  lemma {:induction false} CommittedExactlyOnce(leavings: Epochs, events: seq<Event>)
    requires ValidEvents(events) && events != [] && events[|events| - 1].Succeed?
    requires forall e :: e in leavings ==> e >= 1
    ensures RunOf(leavings, events).disk.committed == LedgerOf(events).past + LedgerOf(events).current
    ensures LedgerOf(events).past.Keys !! LedgerOf(events).current.Keys
  {
    hide Good, RunOf, LedgerOf, CommitRange, CloseEpoch;
    var init := events[..|events| - 1];
    LastStep(leavings, events);
    NotFinishedBefore(LedgerOf(init), events[|events| - 1]);
    RunIsGood(leavings, init);
    SuccessCommitsAll(RunOf(leavings, init), LedgerOf(init));
  }

  lemma {:induction false} LastStep(leavings: Epochs, events: seq<Event>)
    requires ValidEvents(events) && events != []
    ensures var init, last := events[..|events| - 1], events[|events| - 1];
            && ValidEvents(init) && Allowed(LedgerOf(init), last)
            && RunOf(leavings, events) == Happen(RunOf(leavings, init), LedgerOf(init), last)
            && LedgerOf(events) == Note(LedgerOf(init), last)
  {}

  lemma {:induction false} SuccessCommitsAll(x: Effect, l: Ledger)
    requires Good(x, l) && l.running
    ensures CommitFinalEpoch(x.sink, x.disk).disk.committed == l.past + l.current
    ensures l.past.Keys !! l.current.Keys
  {
    hide Good, LedgerOK, CommittedOK, CommitRange, CloseEpoch;
    ClosedGood(x, l);
    RangeCommits(CloseEpoch(x.sink, x.disk).disk, l);
  }

  /** Once its last epoch is closed, all that the run wrote is staged or committed. */
  lemma {:induction false} ClosedGood(x: Effect, l: Ledger)
    requires Good(x, l) && l.running
    ensures var d := CloseEpoch(x.sink, x.disk).disk;
            && LedgerOK(l) && CommittedOK(Effect(Fresh(0), d), l) && (forall e :: e in l.past ==> e in d.committed)
            && x.sink.firstEpoch == l.base + 1 && x.sink.epoch == l.epoch
            && (forall e :: e in d.staging ==> e in l.current && d.staging[e] == l.current[e])
            && (forall e :: e in l.current ==> e in d.staging || e in d.committed)
  {}

  lemma {:induction false} RangeCommits(d: Disk, l: Ledger)
    requires LedgerOK(l) && l.running && CommittedOK(Effect(Fresh(0), d), l)
    requires forall e :: e in d.staging ==> e in l.current && d.staging[e] == l.current[e]
    requires forall e :: e in l.current ==> e in d.staging || e in d.committed
    requires forall e :: e in l.past ==> e in d.committed
    ensures CommitRange(d, l.base + 1, l.epoch).committed == l.past + l.current
    ensures l.past.Keys !! l.current.Keys
  {
    var after := CommitRange(d, l.base + 1, l.epoch).committed;
    forall e ensures e in after <==> e in l.past + l.current {}
    forall e | e in after ensures after[e] == (l.past + l.current)[e] {}
    forall e | e in l.past.Keys ensures e !in l.current.Keys {}
  }
}
