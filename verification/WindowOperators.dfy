/** Windowed operators as operators: whatever the windows and whatever is made of a fired one, the
    rows are those of the batch answer and late for nobody downstream. */
module WindowOperators {
  import opened Int64
  import opened Elements
  import opened CrashedRuns
  import opened Operators
  import opened WindowMachine
  import opened WindowLayout

  /** The panes a record is given, and what goes out when one fires. */
  datatype Windows = Windows(conf: Config, panes: Record -> seq<Pane>, emits: Row -> seq<Record>)

  /** A record is given distinct panes none of which has fired at its event time, and what a pane
      emits carries the pane's last instant. */
  ghost predicate ValidWindows(w: Windows) {
    && ValidConfig(w.conf)
    && (forall rec :: Distinct(w.panes(rec)))
    && (forall rec, p :: p in w.panes(rec) ==> rec.eventTime <= FireTime(w.conf, p.start))
    && (forall row, rec :: rec in w.emits(row) ==> rec.eventTime == FireTime(w.conf, row.pane.start))
  }

  function EmitRows(emits: Row -> seq<Record>, rows: seq<Row>): seq<Record> {
    if rows == [] then [] else EmitRows(emits, rows[..|rows| - 1]) + emits(rows[|rows| - 1])
  }

  lemma {:induction false} EmitRowsConcat(emits: Row -> seq<Record>, a: seq<Row>, b: seq<Row>)
    ensures EmitRows(emits, a + b) == EmitRows(emits, a) + EmitRows(emits, b)
  {
    if b == [] {
      assert a + b == a;
    } else {
      EmitRowsConcat(emits, a, b[..|b| - 1]);
      assert (a + b)[..|a + b| - 1] == a + b[..|b| - 1];
    }
  }

  /** The operator: a record joins its panes, a watermark fires what it makes due. */
  ghost function Windowed(w: Windows): Operator<State>
    requires ValidConfig(w.conf)
  {
    Operator(INITIAL,
             (s: State, rec: Record) => (ApplyArrive(w.conf, s, rec, w.panes(rec)), []),
             (s: State, wm: int64) => (ApplyAdvance(w.conf, s, wm, DueInOrder(w.conf, s, wm)), EmitRows(w.emits, RowsFor(s, DueInOrder(w.conf, s, wm)))))
  }

  // ----- From the stream to the machine ----------------------------------------------------

  /** The machine's steps: a record goes to its panes, a watermark advances time, and barriers and
      the end of stream do nothing here. */
  ghost function StepsOf(w: Windows, inputs: seq<Element>): seq<WindowMachine.Step>
    requires ValidConfig(w.conf)
  {
    if inputs == [] then []
    else
      var before := StepsOf(w, inputs[..|inputs| - 1]);
      match inputs[|inputs| - 1]
      case RecordElement(rec) => before + [Arrive(rec, w.panes(rec))]
      case WatermarkElement(wm) => before + [Advance(wm, DueInOrder(w.conf, Run(w.conf, before).state, wm))]
      case BarrierElement(_, _) => before
      case EndOfStream => before
  }

  lemma {:induction false} OneMoreStep(w: Windows, inputs: seq<Element>, e: Element)
    requires ValidConfig(w.conf)
    ensures StepsOf(w, inputs + [e]) ==
            match e {
              case RecordElement(rec) => StepsOf(w, inputs) + [Arrive(rec, w.panes(rec))]
              case WatermarkElement(wm) => StepsOf(w, inputs) + [Advance(wm, DueInOrder(w.conf, Run(w.conf, StepsOf(w, inputs)).state, wm))]
              case BarrierElement(_, _) => StepsOf(w, inputs)
              case EndOfStream => StepsOf(w, inputs)
            }
  {
    assert (inputs + [e])[..|inputs|] == inputs;
  }

  lemma {:induction false} StepsAreValid(w: Windows, inputs: seq<Element>)
    requires ValidWindows(w)
    ensures ValidSteps(w.conf, StepsOf(w, inputs))
  {
    hide Run, FireTime, ValidStep;
    if inputs != [] {
      var init, e := inputs[..|inputs| - 1], inputs[|inputs| - 1];
      StepsAreValid(w, init);
      var before := StepsOf(w, init);
      assert inputs == init + [e];
      OneMoreStep(w, init, e);
      var after := StepsOf(w, inputs);
      if e.RecordElement? || e.WatermarkElement? {
        assert after[..|after| - 1] == before;
        assert ValidStep(w.conf, Run(w.conf, before).state, after[|after| - 1]) by { OwnStepIsValid(w, Run(w.conf, before).state, e); }
      }
    }
  }

  lemma {:induction false} OwnStepIsValid(w: Windows, s: State, e: Element)
    requires ValidWindows(w)
    ensures e.RecordElement? ==> ValidStep(w.conf, s, Arrive(e.rec, w.panes(e.rec)))
    ensures e.WatermarkElement? ==> ValidStep(w.conf, s, Advance(e.wm, DueInOrder(w.conf, s, e.wm)))
  {}

  lemma {:induction false} RunOneMore(c: Config, steps: seq<WindowMachine.Step>, step: WindowMachine.Step)
    requires ValidConfig(c)
    ensures Run(c, steps + [step]).state ==
            match step { case Arrive(rec, panes) => ApplyArrive(c, Run(c, steps).state, rec, panes)
                         case Advance(wm, due) => ApplyAdvance(c, Run(c, steps).state, wm, due) }
    ensures Run(c, steps + [step]).rows ==
            match step { case Arrive(_, _) => Run(c, steps).rows
                         case Advance(_, due) => Run(c, steps).rows + RowsFor(Run(c, steps).state, due) }
  {
    assert (steps + [step])[..|steps|] == steps;
  }

  /** The operator is where the machine's run leads, and has emitted what its rows make. */
  lemma {:induction false} OperatorIsRun(w: Windows, inputs: seq<Element>)
    requires ValidConfig(w.conf)
    ensures StateAfter(Windowed(w), INITIAL, inputs) == Run(w.conf, StepsOf(w, inputs)).state
    ensures Records(SentBy(Windowed(w), INITIAL, inputs)) == EmitRows(w.emits, Run(w.conf, StepsOf(w, inputs)).rows)
  {
    hide ApplyArrive, ApplyAdvance, DueInOrder, EmitRows, StateAfter, SentBy, StepsOf, Records, Sends, Run, RowsFor;
    if inputs == [] {
      NothingRun(w, inputs);
    } else {
      var op, init, e := Windowed(w), inputs[..|inputs| - 1], inputs[|inputs| - 1];
      OperatorIsRun(w, init);
      assert inputs == init + [e];
      OneMoreStep(w, init, e);
      OneMoreInput(op, INITIAL, init, e);
      var before := StepsOf(w, init);
      var s := StateAfter(op, INITIAL, init);
      RecordsConcat(SentBy(op, INITIAL, init), Sends(op, s, e));
      SentRecords(op, s, e);
      match e {
        case RecordElement(rec) => RunOneMore(w.conf, before, Arrive(rec, w.panes(rec)));
        case WatermarkElement(wm) =>
          var due := DueInOrder(w.conf, s, wm);
          RunOneMore(w.conf, before, Advance(wm, due));
          EmitRowsConcat(w.emits, Run(w.conf, before).rows, RowsFor(s, due));
        case BarrierElement(_, _) =>
        case EndOfStream =>
      }
    }
  }

  lemma {:induction false} NothingRun(w: Windows, inputs: seq<Element>)
    requires ValidConfig(w.conf) && inputs == []
    ensures StateAfter(Windowed(w), INITIAL, inputs) == INITIAL && SentBy(Windowed(w), INITIAL, inputs) == []
    ensures Records(SentBy(Windowed(w), INITIAL, inputs)) == []
    ensures StepsOf(w, inputs) == [] && Run(w.conf, StepsOf(w, inputs)) == Outcome(INITIAL, [])
    ensures EmitRows(w.emits, []) == []
  {}

  /** Of what was received, the records given this pane. */
  function Given(w: Windows, p: Pane): Record -> bool {
    (r: Record) => p in w.panes(r)
  }

  lemma {:induction false} AssignedIsGiven(w: Windows, inputs: seq<Element>, p: Pane)
    requires ValidConfig(w.conf)
    ensures Assigned(StepsOf(w, inputs), p) == Select(Records(inputs), Given(w, p))
  {
    hide DueInOrder, Run;
    if inputs != [] {
      var init, e := inputs[..|inputs| - 1], inputs[|inputs| - 1];
      AssignedIsGiven(w, init, p);
      var before := StepsOf(w, init);
      var after := StepsOf(w, inputs);
      if e.RecordElement? || e.WatermarkElement? {
        assert after[..|after| - 1] == before;
      }
      if e.RecordElement? {
        assert (Records(init) + [e.rec])[..|Records(init)|] == Records(init);
      }
    }
  }

  /** A window has been passed exactly if some watermark of the stream is at or past its end. */
  lemma {:induction false} PassedIff(w: Windows, inputs: seq<Element>, start: int64)
    requires ValidConfig(w.conf)
    ensures Passed(w.conf, StepsOf(w, inputs), start) <==>
            exists i :: 0 <= i < |inputs| && inputs[i].WatermarkElement? && inputs[i].wm >= FireTime(w.conf, start)
  {
    hide FireTime, DueInOrder, Run;
    if inputs != [] {
      var init, e := inputs[..|inputs| - 1], inputs[|inputs| - 1];
      PassedIff(w, init, start);
      var before := StepsOf(w, init);
      var after := StepsOf(w, inputs);
      if e.RecordElement? || e.WatermarkElement? {
        assert after[..|after| - 1] == before;
      }
      assert forall i :: 0 <= i < |init| ==> inputs[i] == init[i];
      assert e.WatermarkElement? && e.wm >= FireTime(w.conf, start) ==> inputs[|init|].wm >= FireTime(w.conf, start);
    }
  }

  /** A stream with no record behind a watermark has no late assignment either. */
  lemma {:induction false} PunctualMeansNoneLate(w: Windows, inputs: seq<Element>)
    requires ValidWindows(w) && Punctual(inputs)
    ensures NoneLate(w.conf, StepsOf(w, inputs))
  {
    hide FireTime, DueInOrder, Run, Passed;
    if inputs != [] {
      var init, e := inputs[..|inputs| - 1], inputs[|inputs| - 1];
      PunctualPrefix(init, inputs);
      PunctualMeansNoneLate(w, init);
      var before := StepsOf(w, init);
      var after := StepsOf(w, inputs);
      if e.RecordElement? || e.WatermarkElement? {
        assert after[..|after| - 1] == before;
      }
      if e.RecordElement? {
        forall p | p in w.panes(e.rec) ensures !Passed(w.conf, before, p.start) {
          PassedIff(w, init, p.start);
          forall i | 0 <= i < |init| && init[i].WatermarkElement? ensures init[i].wm < FireTime(w.conf, p.start) {
            assert Admits(inputs[i], inputs[|init|].rec);
          }
        }
      }
    }
  }

  /** On a stream with nothing late, only barriers and the end can follow a MAX_INT64 watermark, so
      the machine's last step is that watermark. */
  lemma {:induction false} ClosedLast(w: Windows, inputs: seq<Element>)
    requires ValidConfig(w.conf) && Punctual(inputs) && LastWatermark(inputs) == MAX_INT64
    ensures var steps := StepsOf(w, inputs); steps != [] && steps[|steps| - 1].Advance? && steps[|steps| - 1].wm == MAX_INT64
  {
    hide DueInOrder, Run;
    var init, last := inputs[..|inputs| - 1], inputs[|inputs| - 1];
    NoRecordLast(inputs);
    if !last.WatermarkElement? {
      PunctualPrefix(init, inputs);
      ClosedLast(w, init);
    }
  }

  lemma {:induction false} NoRecordLast(inputs: seq<Element>)
    requires Punctual(inputs) && LastWatermark(inputs) == MAX_INT64
    ensures inputs != [] && !inputs[|inputs| - 1].RecordElement?
  {
    LastWatermarkIsPromised(inputs);
  }

  /** A pending timer always has its window's state, late records and receding watermarks or not:
      the operators' "fired with no state" errors cannot happen. */
  lemma {:induction false} TimersHaveState(c: Config, steps: seq<WindowMachine.Step>, p: Pane)
    requires ValidConfig(c) && ValidSteps(c, steps) && p in Run(c, steps).state.armed
    ensures p in Run(c, steps).state.held
  {
    var init, last := steps[..|steps| - 1], steps[|steps| - 1];
    var before := Run(c, init).state;
    if p in before.armed {
      TimersHaveState(c, init, p);
    }
    match last {
      case Arrive(rec, panes) => ArriveEffect(c, before, rec, panes, p);
      case Advance(wm, due) =>
        if IsPurged(c, wm, p.start) {
          FiresBeforePurge(c, wm, p.start);
        }
    }
  }

  /** Every pending timer has its window's state. */
  ghost predicate ArmedHeld(s: State) {
    forall p :: p in s.armed ==> p in s.held
  }

  lemma {:induction false} NothingArmed()
    ensures ArmedHeld(INITIAL)
  {}

  lemma {:induction false} StepKeepsHeld(w: Windows, s: State, e: Element)
    requires ValidWindows(w) && ArmedHeld(s)
    ensures ArmedHeld(Operators.Step(Windowed(w), s, e))
  {
    match e {
      case RecordElement(rec) =>
        forall p | p in ApplyArrive(w.conf, s, rec, w.panes(rec)).armed ensures p in ApplyArrive(w.conf, s, rec, w.panes(rec)).held {
          ArriveEffect(w.conf, s, rec, w.panes(rec), p);
        }
      case WatermarkElement(wm) =>
        forall p: Pane | IsPurged(w.conf, wm, p.start) ensures FireTime(w.conf, p.start) < wm {
          FiresBeforePurge(w.conf, wm, p.start);
        }
      case _ =>
    }
  }

  lemma {:induction false} StaysHeld(w: Windows, s: State, inputs: seq<Element>)
    requires ValidWindows(w) && ArmedHeld(s)
    ensures ArmedHeld(StateAfter(Windowed(w), s, inputs))
  {
    hide Windowed, Operators.Step, ArmedHeld;
    if inputs != [] {
      StaysHeld(w, s, inputs[..|inputs| - 1]);
      StepKeepsHeld(w, StateAfter(Windowed(w), s, inputs[..|inputs| - 1]), inputs[|inputs| - 1]);
    }
  }

  /** The same state but for the count of late records, which a restored operator starts afresh. */
  predicate Alike(a: State, b: State) {
    a == b.(dropped := a.dropped)
  }

  lemma {:induction false} ArriveAlike(c: Config, a: State, b: State, rec: Record, panes: seq<Pane>)
    requires ValidConfig(c) && Alike(a, b)
    ensures Alike(ApplyArrive(c, a, rec, panes), ApplyArrive(c, b, rec, panes))
  {
    hide IsPurged;
    if panes != [] {
      ArriveAlike(c, a, b, rec, panes[..|panes| - 1]);
    }
  }

  /** Nothing an operator does depends on that count. */
  lemma {:induction false} StepAlike(w: Windows, a: State, b: State, e: Element)
    requires ValidConfig(w.conf) && Alike(a, b)
    ensures Alike(Operators.Step(Windowed(w), a, e), Operators.Step(Windowed(w), b, e))
    ensures Sends(Windowed(w), a, e) == Sends(Windowed(w), b, e)
  {
    hide EmitRows, FireTime, IsPurged, InFireOrder, ApplyArrive;
    match e {
      case RecordElement(rec) => ArriveAlike(w.conf, a, b, rec, w.panes(rec));
      case WatermarkElement(wm) =>
        var due := DueInOrder(w.conf, a, wm);
        DueIsUnique(w.conf, a, wm, due, DueInOrder(w.conf, b, wm));
        assert RowsFor(a, due) == RowsFor(b, due);
      case _ =>
    }
  }

  lemma {:induction false} AlikeAfter(w: Windows, a: State, b: State, inputs: seq<Element>)
    requires ValidConfig(w.conf) && Alike(a, b)
    ensures Alike(StateAfter(Windowed(w), a, inputs), StateAfter(Windowed(w), b, inputs))
    ensures SentBy(Windowed(w), a, inputs) == SentBy(Windowed(w), b, inputs)
  {
    hide Windowed, Operators.Step, Sends, Alike;
    if inputs != [] {
      var init := inputs[..|inputs| - 1];
      AlikeAfter(w, a, b, init);
      StepAlike(w, StateAfter(Windowed(w), a, init), StateAfter(Windowed(w), b, init), inputs[|inputs| - 1]);
    }
  }

  /** An object started like the restored operator, given a crashed run up to the barrier it was given
      up for, stands like the operator the next run is restored to. */
  lemma {:induction false} RunOn(w: Windows, marks: seq<nat>, received: seq<seq<Element>>, r: nat, start: State)
    requires ValidWindows(w) && Resumable(received, marks) && r < |marks| <= |received| && ArmedHeld(start)
    requires Resumable(received, marks[..r]) && Alike(start, Restored(Windowed(w), marks[..r], received))
    ensures Resumable(received, marks[..r + 1])
    ensures var after := StateAfter(Windowed(w), start, CutAt(received[r], marks[r]));
            ArmedHeld(after) && Alike(after, Restored(Windowed(w), marks[..r + 1], received))
    ensures marks[r] == 0 ==> Alike(start, Restored(Windowed(w), marks[..r + 1], received))
  {
    hide Windowed, StateAfter, Restored, CutAt, Resumable, ArmedHeld;
    RestoredNext(Windowed(w), marks, received, r);
    AlikeAfter(w, start, Restored(Windowed(w), marks[..r], received), CutAt(received[r], marks[r]));
    StaysHeld(w, start, CutAt(received[r], marks[r]));
    if marks[r] == 0 {
      CutNothing(received[r]);
      TakenNothing(w, Restored(Windowed(w), marks[..r], received));
    }
  }

  /** The last run, from a start like the restored operator's. */
  lemma {:induction false} RunLast(w: Windows, marks: seq<nat>, received: seq<seq<Element>>, start: State)
    requires ValidConfig(w.conf) && Resumable(received, marks) && |received| == |marks| + 1
    requires Alike(start, Restored(Windowed(w), marks, received))
    ensures Alike(StateAfter(Windowed(w), start, received[|marks|]), StateAfter(Windowed(w), Restored(Windowed(w), marks, received), received[|marks|]))
    ensures SentBy(Windowed(w), start, received[|marks|]) == SentInRun(Windowed(w), marks, received, |marks|)
  {
    hide Windowed, StateAfter, Restored, Resumable;
    AlikeAfter(w, start, Restored(Windowed(w), marks, received), received[|marks|]);
    assert marks[..|marks|] == marks;
  }

  lemma {:induction false} StartsRestored(w: Windows, marks: seq<nat>, received: seq<seq<Element>>)
    requires ValidConfig(w.conf) && Resumable(received, marks)
    ensures Resumable(received, marks[..0]) && Restored(Windowed(w), marks[..0], received) == INITIAL
  {}

  // ----- One more element ----------------------------------------------------------------------

  lemma {:induction false} TakenRecord(w: Windows, start: State, inputs: seq<Element>, rec: Record)
    requires ValidConfig(w.conf)
    ensures var op, more := Windowed(w), inputs + [RecordElement(rec)];
            && StateAfter(op, start, more) == ApplyArrive(w.conf, StateAfter(op, start, inputs), rec, w.panes(rec))
            && Records(SentBy(op, start, more)) == Records(SentBy(op, start, inputs))
  {
    hide StateAfter, SentBy, ApplyArrive, ApplyAdvance, DueInOrder, EmitRows;
    var op, e := Windowed(w), RecordElement(rec);
    OneMoreInput(op, start, inputs, e);
    assert SentBy(op, start, inputs) + Sends(op, StateAfter(op, start, inputs), e) == SentBy(op, start, inputs);
  }

  lemma {:induction false} TakenWatermark(w: Windows, start: State, inputs: seq<Element>, wm: int64)
    requires ValidConfig(w.conf)
    ensures var op, more := Windowed(w), inputs + [WatermarkElement(wm)];
            var s := StateAfter(op, start, inputs);
            var due := DueInOrder(w.conf, s, wm);
            && StateAfter(op, start, more) == ApplyAdvance(w.conf, s, wm, due)
            && Records(SentBy(op, start, more)) == Records(SentBy(op, start, inputs)) + EmitRows(w.emits, RowsFor(s, due))
  {
    hide StateAfter, SentBy, ApplyArrive, ApplyAdvance, DueInOrder, EmitRows, Records;
    var op, e := Windowed(w), WatermarkElement(wm);
    OneMoreInput(op, start, inputs, e);
    RecordsConcat(SentBy(op, start, inputs), Sends(op, StateAfter(op, start, inputs), e));
    SentRecords(op, StateAfter(op, start, inputs), e);
  }

  lemma {:induction false} TakenControl(w: Windows, start: State, inputs: seq<Element>, e: Element)
    requires ValidConfig(w.conf) && (e.BarrierElement? || e.EndOfStream?)
    ensures var op := Windowed(w);
            && StateAfter(op, start, inputs + [e]) == StateAfter(op, start, inputs)
            && Records(SentBy(op, start, inputs + [e])) == Records(SentBy(op, start, inputs))
  {
    hide StateAfter, SentBy, ApplyArrive, ApplyAdvance, DueInOrder, EmitRows, Records;
    var op := Windowed(w);
    OneMoreInput(op, start, inputs, e);
    RecordsAppend(SentBy(op, start, inputs), e);
  }

  lemma {:induction false} TakenNothing(w: Windows, start: State)
    requires ValidConfig(w.conf)
    ensures StateAfter(Windowed(w), start, []) == start && Records(SentBy(Windowed(w), start, [])) == []
  {}

  // ----- What every windowed operator does ---------------------------------------------------

  /** On a stream with nothing late that ends behind a final watermark, every pane that was given
      a record has one row holding exactly its records, no other has any, and nothing is dropped. */
  lemma {:induction false} RowsAreTheBatchAnswer(w: Windows, inputs: seq<Element>, p: Pane)
    requires ValidWindows(w) && Punctual(inputs) && LastWatermark(inputs) == MAX_INT64
    ensures var own := Select(Records(inputs), Given(w, p));
            RowsOf(Run(w.conf, StepsOf(w, inputs)).rows, p) == if own == [] then [] else [Row(p, own)]
    ensures Run(w.conf, StepsOf(w, inputs)).state.dropped == 0
  {
    hide FireTime, Run, ValidSteps, NoneLate, StepsOf, Select, Records, Punctual;
    StepsAreValid(w, inputs);
    PunctualMeansNoneLate(w, inputs);
    ClosedLast(w, inputs);
    BatchAnswer(w.conf, StepsOf(w, inputs));
    AssignedIsGiven(w, inputs, p);
  }

  lemma {:induction false} SentControls<S>(op: Operator<S>, s: S, inputs: seq<Element>, e: Element)
    requires e in SentBy(op, s, inputs) && !e.RecordElement?
    ensures e in inputs
  {
    if inputs != [] && e in SentBy(op, s, inputs[..|inputs| - 1]) {
      SentControls(op, s, inputs[..|inputs| - 1], e);
    }
  }

  lemma {:induction false} EmitsFromRow(emits: Row -> seq<Record>, rows: seq<Row>, rec: Record) returns (i: nat)
    requires rec in EmitRows(emits, rows)
    ensures i < |rows| && rec in emits(rows[i])
  {
    if rec in emits(rows[|rows| - 1]) {
      i := |rows| - 1;
    } else {
      i := EmitsFromRow(emits, rows[..|rows| - 1], rec);
    }
  }

  /** No row goes out behind anything sent before it. */
  lemma {:induction false} RowsAdmitted(w: Windows, inputs: seq<Element>, wm: int64, rec: Record, e: Element)
    requires ValidWindows(w) && Punctual(inputs) && Flushed(inputs) && e in inputs
    requires var s := Run(w.conf, StepsOf(w, inputs)).state; rec in EmitRows(w.emits, RowsFor(s, DueInOrder(w.conf, s, wm)))
    ensures Admits(e, rec)
  {
    hide FireTime, Run, Passed, StepsOf, NoneLate, ValidSteps;
    var steps := StepsOf(w, inputs);
    var s := Run(w.conf, steps).state;
    var due := DueInOrder(w.conf, s, wm);
    var i := EmitsFromRow(w.emits, RowsFor(s, due), rec);
    var p := due[i];
    assert p in due;
    StepsAreValid(w, inputs);
    PunctualMeansNoneLate(w, inputs);
    PaneByPane(w.conf, steps, p);
    PassedIff(w, inputs, p.start);
    var x :| 0 <= x < |inputs| && inputs[x] == e;
  }

  /** The promise passes through: nothing a windowed operator emits is behind anything it has
      already sent on, so a second event-time stage sees nothing late. */
  lemma {:induction false} PromisePassesThrough(w: Windows, inputs: seq<Element>)
    requires ValidWindows(w) && Punctual(inputs) && Flushed(inputs)
    ensures Punctual(SentBy(Windowed(w), INITIAL, inputs))
  {
    hide Run, StepsOf, Punctual, Flushed, Admits, SentBy, StateAfter, FireTime, Sends;
    if inputs == [] {
      NothingRun(w, inputs);
      NothingLate();
    } else {
      var init, e := inputs[..|inputs| - 1], inputs[|inputs| - 1];
      assert inputs == init + [e];
      PunctualPrefix(init, inputs);
      FlushedPrefix(init, inputs);
      PromisePassesThrough(w, init);
      OneMoreInput(Windowed(w), INITIAL, init, e);
      SendsPunctual(w, init, e);
    }
  }

  lemma {:induction false} SendsPunctual(w: Windows, inputs: seq<Element>, e: Element)
    requires ValidWindows(w) && Punctual(inputs) && Flushed(inputs)
    requires Punctual(SentBy(Windowed(w), INITIAL, inputs))
    ensures Punctual(SentBy(Windowed(w), INITIAL, inputs) + Sends(Windowed(w), StateAfter(Windowed(w), INITIAL, inputs), e))
  {
    hide Run, StepsOf, Punctual, Flushed, Admits, SentBy, StateAfter, FireTime, ApplyArrive, ApplyAdvance, EmitRows, DueInOrder;
    var op := Windowed(w);
    var sent, s := SentBy(op, INITIAL, inputs), StateAfter(op, INITIAL, inputs);
    OperatorIsRun(w, inputs);
    match e {
      case RecordElement(rec) => assert sent + Sends(op, s, e) == sent;
      case WatermarkElement(wm) =>
        var rows := EmitRows(w.emits, RowsFor(s, DueInOrder(w.conf, s, wm)));
        forall x, rec | x in sent && !x.RecordElement? && rec in rows ensures Admits(x, rec) {
          SentControls(op, INITIAL, inputs, x);
          RowsAdmitted(w, inputs, wm, rec, x);
        }
        RowsPunctual(sent, rows);
        ControlPunctual(sent + AsElements(rows), e);
        assert sent + Sends(op, s, e) == (sent + AsElements(rows)) + [e];
      case BarrierElement(_, _) => ControlPunctual(sent, e);
      case EndOfStream => ControlPunctual(sent, e);
    }
  }

  lemma {:induction false} ControlPunctual(s: seq<Element>, e: Element)
    requires Punctual(s) && !e.RecordElement?
    ensures Punctual(s + [e])
  {
    var t := s + [e];
    forall a, b | 0 <= a < b < |t| && t[b].RecordElement? ensures Admits(t[a], t[b].rec) {
      assert t[a] == s[a] && t[b] == s[b];
    }
  }

  lemma {:induction false} RowsPunctual(s: seq<Element>, rows: seq<Record>)
    requires Punctual(s) && forall x, rec :: x in s && !x.RecordElement? && rec in rows ==> Admits(x, rec)
    ensures Punctual(s + AsElements(rows))
  {
    var t := s + AsElements(rows);
    forall a, b | 0 <= a < b < |t| && t[b].RecordElement? ensures Admits(t[a], t[b].rec) {
      if b < |s| {
        assert t[a] == s[a] && t[b] == s[b];
      } else {
        assert rows[b - |s|] in rows;
        if a < |s| {
          assert t[a] == s[a] && s[a] in s;
        }
      }
    }
  }
}
