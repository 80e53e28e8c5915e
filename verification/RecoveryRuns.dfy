/** The recovery theorem: over any crashed runs every record is folded into an operator's state
    exactly once. */
module RecoveryRuns {
  import opened Elements
  import opened Routing
  import opened CrashedRuns
  import opened Operators
  import opened Stages
  import Gate
  import GT = GateTheorems
  import GR = GateRecords
  import opened Recovery

  /** What every source sends in every run of a job. */
  function JobRuns(job: Job, marks: seq<nat>): seq<seq<seq<Element>>>
    requires forall i :: 0 <= i < |job| ==> ValidSource(job[i])
  {
    seq(|job|, i requires 0 <= i < |job| => SourceRuns(job[i], marks))
  }

  /** The records of every source between the positions recorded for two checkpoints. */
  function Between(job: Job, from: nat, to: nat, mine: Record -> bool): seq<seq<Record>>
    requires forall i :: 0 <= i < |job| ==> ValidSource(job[i])
    requires forall i :: 0 <= i < |job| ==> Position(job[i], from) <= Position(job[i], to) <= |job[i].config.data|
  {
    seq(|job|, i requires 0 <= i < |job| => Select(job[i].config.data[Position(job[i], from)..Position(job[i], to)], mine))
  }

  function WholeOf(s: SourceSubtask, mine: Record -> bool): seq<Record>
    requires ValidSource(s)
  {
    Select(s.config.data[s.start..s.config.end], mine)
  }

  /** Everything routed here, from the start of every source's range to its end. */
  function WholeInput(job: Job, mine: Record -> bool): seq<seq<Record>>
    requires forall i :: 0 <= i < |job| ==> ValidSource(job[i])
  {
    seq(|job|, i requires 0 <= i < |job| => WholeOf(job[i], mine))
  }

  /** Positions only grow with the checkpoint, inside every source's range. */
  ghost predicate PositionsOrdered(job: Job, from: nat, to: nat)
    requires ValidJob(job)
  {
    forall i :: 0 <= i < |job| ==> Position(job[i], from) <= Position(job[i], to) <= |job[i].config.data|
  }

  lemma {:induction false} PositionsGrow(job: Job, k: nat, j: nat)
    requires ValidJob(job)
    ensures PositionsOrdered(job, k, k + j)
  {
    forall i | 0 <= i < |job| ensures Position(job[i], k) <= Position(job[i], k + j) <= |job[i].config.data| {
      CutRecords(job[i], k, j);
    }
  }

  /** What the sources of a job send one subtask in a run from checkpoint `k`. */
  function StreamsFrom(job: Job, mine: Record -> bool, k: nat): seq<seq<Element>>
    requires forall i :: 0 <= i < |job| ==> ValidSource(job[i])
  {
    seq(|job|, i requires 0 <= i < |job| => Routed(StreamFrom(job[i], k), mine))
  }

  /** In a run resumed at checkpoint `k`, the records received before barrier `k + j` are exactly
      those between the source positions of the two checkpoints, whatever the interleaving. */
  lemma {:induction false} DeliveredBetween(job: Job, mine: Record -> bool, k: nat, received: seq<Element>, j: nat)
    requires ValidJob(job) && Merges(StreamsFrom(job, mine, k), k, received) && j <= NumBarriers(received)
    ensures PositionsOrdered(job, k, k + j)
    ensures multiset(Records(CutAt(received, j))) == GR.Bag(Between(job, k, k + j, mine))
  {
    hide Records, Gate.DeliveredFrom, Gate.Output, GR.Bag, Select, Position, ValidSource, CutAt, Routed, NumBarriers, GT.Interleaves, GT.AfterRun;
    var streams := StreamsFrom(job, mine, k);
    var arrivals :| GT.Interleaves(arrivals, streams, k) && received <= Gate.Output(GT.AfterRun(arrivals, streams, k).history);
    PositionsGrow(job, k, j);
    var h := RunToCut(arrivals, streams, k, received, j);
    GR.OutputBag(h, |job|);
    forall i: nat | i < |job| ensures Records(Gate.DeliveredFrom(h, i)) == Between(job, k, k + j, mine)[i] {
      RoutedCut(StreamFrom(job[i], k), j, mine);
      RoutedCounts(CutAt(StreamFrom(job[i], k), j), mine);
      CutRecords(job[i], k, j);
    }
    assert GR.DeliveredRecords(h, |job|) == Between(job, k, k + j, mine);
  }

  /** The barrier that closes a run's checkpoint carries the ID the next run resumes from. */
  lemma {:induction false} BarrierNamesCheckpoint(received: seq<Element>, k: nat, j: nat)
    requires WellFormed(received, k) && 0 < j <= NumBarriers(received)
    ensures var cut := CutAt(received, j);
            cut != [] && cut <= received && cut[|cut| - 1].BarrierElement? && cut[|cut| - 1].id == k + j
  {
    var q := CutIsPrefix(received, j);
    NumBarriersPrefix(received, q);
    assert received[q - 1].id == k + NumBarriers(received[..q - 1 + 1]);
  }

  /** `folded` holds exactly the records routed here that lie below every source's position for
      checkpoint `k`. */
  ghost predicate IsTheCut(job: Job, mine: Record -> bool, k: nat, folded: seq<Record>)
    requires ValidJob(job)
  {
    PositionsOrdered(job, 0, k) && multiset(folded) == GR.Bag(Between(job, 0, k, mine))
  }

  /** What is left of the crashed runs at a subtask holds exactly the records routed to it that lie
      below the source positions of the checkpoint. */
  lemma {:induction false} KeptIsTheCut(job: Job, mine: Record -> bool, marks: seq<nat>, received: seq<seq<Element>>)
    requires ValidJob(job) && ReceivesCrashed(JobRuns(job, marks), mine, marks, received)
    ensures IsTheCut(job, mine, Base(marks), Records(Kept(received, marks)))
  {
    hide Records, Kept, Select, Position, ReceivesRun, SourceRuns, GR.Bag;
    var k := Base(marks);
    PositionsGrow(job, 0, k);
    CrashedStagePasses(JobRuns(job, marks), mine, marks, received);
    var x, y := KeptRecords(JobRuns(job, marks), mine, marks), Between(job, 0, k, mine);
    assert marks[..|marks|] == marks;
    forall i: nat | i < |job| ensures x[i] == y[i] {
      KeptIsData(job[i], marks, |marks|);
      NothingRead(job[i]);
    }
    assert x == y;
  }

  // ----- From records to state -------------------------------------------------------------

  function Fold<S>(step: (S, Record) -> S, init: S, rs: seq<Record>): S {
    if rs == [] then init else step(Fold(step, init, rs[..|rs| - 1]), rs[|rs| - 1])
  }

  /** The operator's effect on its state does not depend on the order of two records. */
  ghost predicate Commutes<S(!new)>(step: (S, Record) -> S) {
    forall s, a, b :: step(step(s, a), b) == step(step(s, b), a)
  }

  lemma {:induction false} FoldMoveLast<S(!new)>(step: (S, Record) -> S, init: S, rs: seq<Record>, i: nat)
    requires Commutes(step) && i < |rs|
    ensures Fold(step, init, rs) == step(Fold(step, init, rs[..i] + rs[i + 1..]), rs[i])
  {
    var last := |rs| - 1;
    var rest := rs[..i] + rs[i + 1..];
    if i == last {
      assert rest == rs[..last];
    } else {
      FoldMoveLast(step, init, rs[..last], i);
      assert rest[..|rest| - 1] == rs[..last][..i] + rs[..last][i + 1..];
      assert rest[|rest| - 1] == rs[last];
    }
  }

  /** For such an operator the state is a function of the bag of records alone. */
  lemma {:induction false} FoldOfBag<S(!new)>(step: (S, Record) -> S, start: S, a: seq<Record>, b: seq<Record>)
    requires Commutes(step) && multiset(a) == multiset(b)
    ensures Fold(step, start, a) == Fold(step, start, b)
    decreases |a|
  {
    if a == [] {
      assert |multiset(b)| == 0;
    } else {
      var init, r := a[..|a| - 1], a[|a| - 1];
      assert r in multiset(b);
      var i :| 0 <= i < |b| && b[i] == r;
      var rest := b[..i] + b[i + 1..];
      assert a == init + [r];
      assert multiset(init) == multiset(a) - multiset{r};
      assert b == b[..i] + [r] + b[i + 1..];
      assert multiset(b) == multiset(b[..i]) + multiset{r} + multiset(b[i + 1..]);
      assert multiset(rest) == multiset(b) - multiset{r};
      FoldOfBag(step, start, init, rest);
      FoldMoveLast(step, start, b, i);
    }
  }

  lemma {:induction false} FoldAppend<S>(step: (S, Record) -> S, init: S, rs: seq<Record>, r: Record)
    ensures Fold(step, init, rs + [r]) == step(Fold(step, init, rs), r)
  {
    assert (rs + [r])[..|rs|] == rs;
  }

  /** An operator whose state is changed by records alone. */
  ghost predicate RecordsOnly<S(!new)>(op: Operator<S>) {
    forall s, wm :: op.onWatermark(s, wm).0 == s
  }

  /** What one record does to the operator's state. */
  function StateStep<S>(op: Operator<S>): (S, Record) -> S {
    (s, r) => op.onRecord(s, r).0
  }

  lemma {:induction false} StateIsFold<S(!new)>(op: Operator<S>, s: S, inputs: seq<Element>)
    requires RecordsOnly(op)
    ensures StateAfter(op, s, inputs) == Fold(StateStep(op), s, Records(inputs))
  {
    if inputs != [] {
      var init, e := inputs[..|inputs| - 1], inputs[|inputs| - 1];
      StateIsFold(op, s, init);
      if e.RecordElement? {
        FoldAppend(StateStep(op), s, Records(init), e.rec);
      }
    }
  }

  /** The state a checkpoint restores is the fold of exactly the records below the source positions
      recorded for it, after any number of crashes and under every interleaving of every run. */
  lemma {:induction false} SnapshotIsTheCut<S(!new)>(op: Operator<S>, job: Job, mine: Record -> bool, marks: seq<nat>, received: seq<seq<Element>>)
    requires ValidJob(job) && ReceivesCrashed(JobRuns(job, marks), mine, marks, received)
    requires RecordsOnly(op) && Commutes(StateStep(op))
    ensures Resumable(received, marks) && PositionsOrdered(job, 0, Base(marks))
    ensures Restored(op, marks, received) == Fold(StateStep(op), op.init, GR.Flat(Between(job, 0, Base(marks), mine)))
  {
    hide Records, Kept, ReceivesRun, GR.Bag, GR.Flat, Fold, StateAfter, Commutes, RecordsOnly, Resumable, Restored;
    ReceivedResumable(JobRuns(job, marks), mine, marks, received);
    KeptIsTheCut(job, mine, marks, received);
    RestoredIsKept(op, marks, received);
    StateIsFold(op, op.init, Kept(received, marks));
    GR.FlatBag(Between(job, 0, Base(marks), mine));
    FoldOfBag(StateStep(op), op.init, Records(Kept(received, marks)), GR.Flat(Between(job, 0, Base(marks), mine)));
  }

  /** What is left of all the runs of a job holds every record routed here once. */
  lemma {:induction false} EffectiveIsTheInput(job: Job, mine: Record -> bool, marks: seq<nat>, received: seq<seq<Element>>)
    requires ValidJob(job) && Receives(JobRuns(job, marks), mine, marks, received)
    ensures multiset(Records(Effective(received, marks))) == GR.Bag(WholeInput(job, mine))
  {
    hide Records, Select, ReceivesRun, MergesAll, SourceRuns, GR.Bag, Effective, Ended;
    forall i | 0 <= i < |job| ensures Ended(SourceRuns(job[i], marks)[|marks|]) {
      EffectiveIsData(job[i], marks);
    }
    StageRecords(JobRuns(job, marks), mine, marks, received);
    var x, y := RoutedRecords(JobRuns(job, marks), mine, marks), WholeInput(job, mine);
    forall i: nat | i < |job| ensures x[i] == y[i] {
      EffectiveIsData(job[i], marks);
    }
    assert x == y;
  }

  /** Exactly once: resume from the last completed checkpoint of any crashed runs, run to the end
      of every stream, and every record of every source has been folded into the state once. */
  lemma {:induction false} EveryRecordOnce<S(!new)>(op: Operator<S>, job: Job, mine: Record -> bool, marks: seq<nat>, received: seq<seq<Element>>)
    requires ValidJob(job) && Receives(JobRuns(job, marks), mine, marks, received)
    requires RecordsOnly(op) && Commutes(StateStep(op))
    ensures Resumable(received, marks)
    ensures StateAfter(op, Restored(op, marks, received), received[|marks|]) == Fold(StateStep(op), op.init, GR.Flat(WholeInput(job, mine)))
  {
    hide Records, Kept, ReceivesRun, MergesAll, GR.Bag, GR.Flat, Fold, StateAfter, Commutes, RecordsOnly, Resumable, Restored;
    ReceivedResumable(JobRuns(job, marks), mine, marks, received);
    EffectiveIsTheInput(job, mine, marks, received);
    RestoredIsKept(op, marks, received);
    var all := Effective(received, marks);
    StateConcat(op, op.init, Kept(received, marks), received[|marks|]);
    StateIsFold(op, op.init, all);
    GR.FlatBag(WholeInput(job, mine));
    FoldOfBag(StateStep(op), op.init, Records(all), GR.Flat(WholeInput(job, mine)));
  }
}
