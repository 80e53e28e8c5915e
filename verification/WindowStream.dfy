/** The window count operator over a whole stream: its counts equal the batch answer, and what it
    sends downstream is late for nobody. */
module WindowStream {
  import opened Int64
  import opened Elements
  import opened CrashedRuns
  import opened StateSnapshot
  import opened Operators
  import opened WindowAssign
  import opened WindowCounting
  import opened WindowKeys
  import opened WindowLayout
  import opened WindowMachine
  import opened WindowOperators

  /** Counting over sliding windows. */
  function Counting(size: int64, slide: int64, lateness: int64): Windows
    requires ValidSpec(size, slide) && lateness >= 0
  {
    Windows(Config(size, lateness), (rec: Record) => PanesFor(size, slide, rec), (row: Row) => [Emitted(Config(size, lateness), row)])
  }

  lemma {:induction false} CountingIsValid(size: int64, slide: int64, lateness: int64)
    requires ValidSpec(size, slide) && lateness >= 0
    ensures ValidWindows(Counting(size, slide, lateness))
  {
    hide WindowsFor, PanesFor, FireTime;
    var w := Counting(size, slide, lateness);
    forall rec ensures Distinct(w.panes(rec)) && forall p :: p in w.panes(rec) ==> rec.eventTime <= FireTime(w.conf, p.start) {
      PanesSound(size, slide, w.conf, rec);
    }
  }

  /** The records that carry the pane's key and belong to its window. */
  function OfPane(size: int64, slide: int64, p: Pane): Record -> bool
    requires ValidSpec(size, slide)
  {
    (r: Record) => r.key == p.key && p.start in WindowsFor(size, slide, r.eventTime)
  }

  lemma {:induction false} InPanes(size: int64, slide: int64, rec: Record, p: Pane)
    requires ValidSpec(size, slide)
    ensures p in PanesFor(size, slide, rec) <==> rec.key == p.key && p.start in WindowsFor(size, slide, rec.eventTime)
  {
    hide WindowsFor, ValidSpec;
    var starts := WindowsFor(size, slide, rec.eventTime);
    if rec.key == p.key && p.start in starts {
      var i :| 0 <= i < |starts| && starts[i] == p.start;
      assert PanesFor(size, slide, rec)[i] == p;
    }
  }

  lemma {:induction false} GivenIsOfPane(size: int64, slide: int64, lateness: int64, rs: seq<Record>, p: Pane)
    requires ValidSpec(size, slide) && lateness >= 0
    ensures Select(rs, Given(Counting(size, slide, lateness), p)) == Select(rs, OfPane(size, slide, p))
  {
    hide WindowsFor, ValidSpec, PanesFor;
    forall r ensures Given(Counting(size, slide, lateness), p)(r) == OfPane(size, slide, p)(r) {
      InPanes(size, slide, r, p);
    }
    SelectSame(rs, Given(Counting(size, slide, lateness), p), OfPane(size, slide, p));
  }

  lemma {:induction false} EmitsOnePerRow(c: Config, rows: seq<Row>)
    requires ValidConfig(c)
    ensures EmitRows((row: Row) => [Emitted(c, row)], rows) == EmittedAll(c, rows)
  {
    hide Emitted;
    if rows != [] {
      EmitsOnePerRow(c, rows[..|rows| - 1]);
    }
  }

  // ----- The operator on a stream ----------------------------------------------------------

  /** The operator object stands where the operator does that started at `start` and received
      `inputs`, and has emitted what it has. */
  ghost predicate UpToDate(op: WindowCount, start: State, inputs: seq<Element>)
    reads op, op.store
  {
    && op.Valid() && op.WellSpecified() && ArmedHeld(start)
    && var windowed := Windowed(Counting(op.size, op.slide, op.lateness));
       op.model == StateAfter(windowed, start, inputs) && op.emitted == Records(SentBy(windowed, start, inputs))
  }

  /** Give the operator a whole stream from where it stands. It never fails, whatever the stream
      holds. */
  method RunFrom(op: WindowCount, ghost start: State, inputs: seq<Element>)
    requires op.Valid() && op.WellSpecified() && op.model == start && op.emitted == [] && ArmedHeld(start)
    modifies op, op.store
    ensures UpToDate(op, start, inputs)
  {
    hide Represents, WindowsFor, PanesFor, StateAfter, SentBy, Records, ArmedHeld;
    ghost var w := Counting(op.size, op.slide, op.lateness);
    TakenNothing(w, start);
    for i := 0 to |inputs|
      invariant UpToDate(op, start, inputs[..i])
    {
      assert inputs[..i + 1] == inputs[..i] + [inputs[i]];
      match inputs[i] {
        case RecordElement(rec) => TakeRecord(op, start, inputs[..i], rec);
        case WatermarkElement(wm) => TakeWatermark(op, start, inputs[..i], wm);
        case BarrierElement(_, _) => TakenControl(w, start, inputs[..i], inputs[i]);
        case EndOfStream => TakenControl(w, start, inputs[..i], inputs[i]);
      }
    }
    assert inputs[..|inputs|] == inputs;
  }

  /** A new operator, given a whole stream. */
  method RunWindowCount(size: int64, slide: int64, lateness: int64, inputs: seq<Element>) returns (op: WindowCount)
    requires ValidSpec(size, slide) && lateness >= 0
    ensures UpToDate(op, INITIAL, inputs) && op.size == size && op.slide == slide && op.lateness == lateness
  {
    op := new WindowCount(size, slide, lateness);
    RunFrom(op, INITIAL, inputs);
  }

  method TakeRecord(op: WindowCount, ghost start: State, ghost inputs: seq<Element>, rec: Record)
    requires UpToDate(op, start, inputs)
    modifies op, op.store
    ensures UpToDate(op, start, inputs + [RecordElement(rec)])
  {
    hide Represents, WindowsFor, ValidSpec, PanesFor, StateAfter, SentBy, Records, ApplyArrive, ArmedHeld;
    TakenRecord(Counting(op.size, op.slide, op.lateness), start, inputs, rec);
    op.ProcessElement(rec);
  }

  method TakeWatermark(op: WindowCount, ghost start: State, ghost inputs: seq<Element>, wm: int64)
    requires UpToDate(op, start, inputs)
    modifies op, op.store
    ensures UpToDate(op, start, inputs + [WatermarkElement(wm)])
  {
    hide Represents, WindowsFor, ValidSpec, PanesFor, StateAfter, SentBy, Records, ApplyAdvance, EmitRows;
    ghost var w, before := Counting(op.size, op.slide, op.lateness), op.model;
    CountingIsValid(op.size, op.slide, op.lateness);
    StaysHeld(w, start, inputs);
    TakenWatermark(w, start, inputs, wm);
    var ok, due := op.ProcessWatermark(wm);
    assert ok;
    DueIsUnique(op.Conf(), before, wm, due, DueInOrder(op.Conf(), before, wm));
    EmitsOnePerRow(op.Conf(), RowsFor(before, due));
  }

  // ----- The operator across crashes ---------------------------------------------------------

  /** What a run of the operator starts from: nothing, or bytes recorded for a state. */
  ghost predicate Recorded(c: Config, snapshot: Option<Bytes>, entries: map<Bytes, Bytes>, s: State)
    requires ValidConfig(c)
  {
    && ArmedHeld(s)
    && if snapshot.None? then Alike(s, INITIAL) else Snapshots(snapshot.value, entries) && Represents(c, CountOf, entries, s)
  }

  /** A new operator, restored from a snapshot if there is one. */
  method Restart(size: int64, slide: int64, lateness: int64, snapshot: Option<Bytes>, ghost entries: map<Bytes, Bytes>, ghost s: State)
    returns (op: WindowCount)
    requires ValidSpec(size, slide) && lateness >= 0 && Recorded(Config(size, lateness), snapshot, entries, s)
    ensures op.Valid() && op.WellSpecified() && op.emitted == [] && Alike(op.model, s) && ArmedHeld(op.model)
    ensures op.size == size && op.slide == slide && op.lateness == lateness && fresh(op) && fresh(op.store)
  {
    hide AggregatesStored, TimersStored, WatermarkStored, Snapshots, ValidSpec;
    op := new WindowCount(size, slide, lateness);
    if snapshot.Some? {
      RestoreInto(op.store, snapshot.value, entries);
      op.model := s.(dropped := 0);
    }
  }

  /** Any number of crashed runs and a last one, on the operator's bytes: each run starts from the
      snapshot an earlier one took at the barrier it was given up for. The last run stands where the
      restored operator leads, late counter apart, and has emitted what it does; it fails only if
      some snapshot does not fit its length fields. */
  method RunAcrossCrashes(size: int64, slide: int64, lateness: int64, marks: seq<nat>, received: seq<seq<Element>>) returns (op: WindowCount, ok: bool)
    requires ValidSpec(size, slide) && lateness >= 0 && |received| == |marks| + 1 && Resumable(received, marks)
    ensures !ok ==> !Fitting(op.store.entries)
    ensures ok ==>
              && op.Valid() && op.size == size && op.slide == slide && op.lateness == lateness
              && var windowed := Windowed(Counting(size, slide, lateness));
                 && Alike(op.model, StateAfter(windowed, Restored(windowed, marks, received), received[|marks|]))
                 && op.emitted == Records(SentInRun(windowed, marks, received, |marks|))
  {
    hide Represents, StateAfter, SentBy, Records, Restored, CutAt, Resumable, ArmedHeld, Snapshots, PanesFor, Windowed;
    ghost var w := Counting(size, slide, lateness);
    CountingIsValid(size, slide, lateness);
    StartsRestored(w, marks, received);
    var snapshot: Option<Bytes> := None;
    ghost var entries: map<Bytes, Bytes>, s := map[], INITIAL;
    NothingArmed();
    for r := 0 to |marks|
      invariant Resumable(received, marks[..r]) && Recorded(Config(size, lateness), snapshot, entries, s)
      invariant Alike(s, Restored(Windowed(w), marks[..r], received))
    {
      RunOn(w, marks, received, r, s);
      if marks[r] > 0 {
        op := Restart(size, slide, lateness, snapshot, entries, s);
        RunOn(w, marks, received, r, op.model);
        RunFrom(op, op.model, CutAt(received[r], marks[r]));
        snapshot := TakeSnapshot(op.store);
        if snapshot.None? {
          return op, false;
        }
        entries, s := op.store.entries, op.model;
      }
    }
    assert marks[..|marks|] == marks;
    op := Restart(size, slide, lateness, snapshot, entries, s);
    RunLast(w, marks, received, op.model);
    RunFrom(op, op.model, received[|marks|]);
    ok := true;
  }

  // ----- Main result -----------------------------------------------------------------------

  /** Window counts equal the batch answer: on a stream with nothing late and a final MAX_INT64
      watermark, one row for each key and window that received a record, carrying the exact count
      and the window's last instant, and none for any other. */
  lemma {:induction false} CountsAreTheBatchAnswer(size: int64, slide: int64, lateness: int64, inputs: seq<Element>, p: Pane)
    requires ValidSpec(size, slide) && lateness >= 0 && Punctual(inputs) && LastWatermark(inputs) == MAX_INT64
    ensures var w, n := Counting(size, slide, lateness), |Select(Records(inputs), OfPane(size, slide, p))|;
            var own := RowsOf(Run(w.conf, StepsOf(w, inputs)).rows, p);
            && |own| == (if n > 0 then 1 else 0)
            && forall row :: row in own ==> w.emits(row) == [Record(p.key, CountBytes(n), FireTime(w.conf, p.start))]
  {
    hide WindowsFor, ValidSpec, PanesFor, FireTime, Run, StepsOf, Select, Records, Punctual;
    CountingIsValid(size, slide, lateness);
    RowsAreTheBatchAnswer(Counting(size, slide, lateness), inputs, p);
    GivenIsOfPane(size, slide, lateness, Records(inputs), p);
  }
}
