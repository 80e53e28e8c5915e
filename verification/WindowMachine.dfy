/** What every windowed operator does, free of how its state is laid out in bytes: panes of
    records, timers that fire once the watermark passes a pane's end, and purging. */
module WindowMachine {
  import opened Int64
  import opened Elements

  /** One window of one key. */
  datatype Pane = Pane(key: Bytes, start: int64)

  datatype Config = Config(size: int64, lateness: int64)

  predicate ValidConfig(c: Config) {
    c.size > 0 && c.lateness >= 0
  }

  /** The watermark at which a window is complete: its end minus one, saturating. */
  function FireTime(c: Config, start: int64): int64
    requires ValidConfig(c)
  {
    AddCeil(start, c.size - 1)
  }

  predicate IsPurged(c: Config, watermark: int64, start: int64)
    requires ValidConfig(c)
  {
    watermark > AddCeil(AddCeil(start, c.size), c.lateness)
  }

  /** A window is never purged before it could fire, even when both limits saturate. */
  lemma {:induction false} FiresBeforePurge(c: Config, watermark: int64, start: int64)
    requires ValidConfig(c) && IsPurged(c, watermark, start)
    ensures FireTime(c, start) < watermark
  {}

  // ----- Steps -----------------------------------------------------------------------------

  /** A record arriving for its panes, or a watermark together with the timers it found due, in
      the order they fire. */
  datatype Step = Arrive(rec: Record, panes: seq<Pane>) | Advance(wm: int64, due: seq<Pane>)

  /** `held` keeps the records of each pane in arrival order; an operator keeps what it makes of
      them. `armed` are the panes with a pending timer. */
  datatype State = State(watermark: int64, held: map<Pane, seq<Record>>, armed: set<Pane>, dropped: nat)

  datatype Row = Row(pane: Pane, records: seq<Record>)

  datatype Outcome = Outcome(state: State, rows: seq<Row>)

  const INITIAL := State(MIN_INT64, map[], {}, 0)

  function HeldFor(s: State, p: Pane): seq<Record> {
    if p in s.held then s.held[p] else []
  }

  function CountPurged(c: Config, watermark: int64, panes: seq<Pane>): nat
    requires ValidConfig(c)
  {
    if panes == [] then 0
    else CountPurged(c, watermark, panes[..|panes| - 1]) + if IsPurged(c, watermark, panes[|panes| - 1].start) then 1 else 0
  }

  /** A pane not yet purged takes the record and is armed; a purged one only counts it. */
  function ApplyOne(c: Config, s: State, rec: Record, p: Pane): State
    requires ValidConfig(c)
  {
    if IsPurged(c, s.watermark, p.start) then s.(dropped := s.dropped + 1)
    else s.(held := s.held[p := HeldFor(s, p) + [rec]], armed := s.armed + {p})
  }

  function ApplyArrive(c: Config, s: State, rec: Record, panes: seq<Pane>): State
    requires ValidConfig(c)
  {
    if panes == [] then s
    else ApplyOne(c, ApplyArrive(c, s, rec, panes[..|panes| - 1]), rec, panes[|panes| - 1])
  }

  lemma {:induction false} ArriveCounts(c: Config, s: State, rec: Record, panes: seq<Pane>)
    requires ValidConfig(c)
    ensures ApplyArrive(c, s, rec, panes).watermark == s.watermark
    ensures ApplyArrive(c, s, rec, panes).dropped == s.dropped + CountPurged(c, s.watermark, panes)
  {
    if panes != [] {
      ArriveCounts(c, s, rec, panes[..|panes| - 1]);
    }
  }

  /** What a record does to one pane. */
  lemma {:induction false} ArriveEffect(c: Config, s: State, rec: Record, panes: seq<Pane>, p: Pane)
    requires ValidConfig(c) && Distinct(panes)
    ensures var r := ApplyArrive(c, s, rec, panes);
            if p in panes && !IsPurged(c, s.watermark, p.start)
            then p in r.held && r.held[p] == HeldFor(s, p) + [rec] && p in r.armed
            else (p in r.held <==> p in s.held) && HeldFor(r, p) == HeldFor(s, p) && (p in r.armed <==> p in s.armed)
  {
    if panes != [] {
      var init := panes[..|panes| - 1];
      ArriveEffect(c, s, rec, init, p);
      ArriveCounts(c, s, rec, init);
    }
  }

  function RowsFor(s: State, due: seq<Pane>): seq<Row> {
    seq(|due|, i requires 0 <= i < |due| => Row(due[i], HeldFor(s, due[i])))
  }

  lemma {:induction false} RowsForOneMore(s: State, due: seq<Pane>, i: nat)
    requires i < |due|
    ensures RowsFor(s, due[..i + 1]) == RowsFor(s, due[..i]) + [Row(due[i], HeldFor(s, due[i]))]
  {}

  /** What the purge leaves. */
  function Kept(c: Config, held: map<Pane, seq<Record>>, wm: int64): map<Pane, seq<Record>>
    requires ValidConfig(c)
  {
    map p | p in held && !IsPurged(c, wm, p.start) :: held[p]
  }

  /** The due timers are removed and fired, then what the watermark has moved past is dropped. */
  function ApplyAdvance(c: Config, s: State, wm: int64, due: seq<Pane>): State
    requires ValidConfig(c)
  {
    s.(watermark := wm,
       held := Kept(c, s.held, wm),
       armed := set p | p in s.armed && p !in due)
  }

  function Run(c: Config, steps: seq<Step>): Outcome
    requires ValidConfig(c)
  {
    if steps == [] then Outcome(INITIAL, [])
    else
      var before := Run(c, steps[..|steps| - 1]);
      match steps[|steps| - 1]
      case Arrive(rec, panes) => Outcome(ApplyArrive(c, before.state, rec, panes), before.rows)
      case Advance(wm, due) =>
        Outcome(ApplyAdvance(c, before.state, wm, due), before.rows + RowsFor(before.state, due))
  }

  /** `due` lists each armed pane whose fire time the watermark has reached, once. */
  ghost predicate IsDue(c: Config, s: State, wm: int64, due: seq<Pane>)
    requires ValidConfig(c)
  {
    Distinct(due) && forall p :: p in due <==> p in s.armed && FireTime(c, p.start) <= wm
  }

  /** What each step may be: records list distinct panes, watermarks list exactly the due ones. */
  ghost predicate ValidStep(c: Config, s: State, step: Step)
    requires ValidConfig(c)
  {
    match step
    case Arrive(_, panes) => Distinct(panes)
    case Advance(wm, due) => IsDue(c, s, wm, due)
  }

  ghost predicate ValidSteps(c: Config, steps: seq<Step>)
    requires ValidConfig(c)
  {
    steps == [] ||
    (ValidSteps(c, steps[..|steps| - 1]) && ValidStep(c, Run(c, steps[..|steps| - 1]).state, steps[|steps| - 1]))
  }

  // ----- What a stream says, read without running it ----------------------------------------

  /** The records of one pane, in arrival order: the batch answer. */
  function Assigned(steps: seq<Step>, p: Pane): seq<Record> {
    if steps == [] then []
    else
      var last := steps[|steps| - 1];
      if last.Arrive? && p in last.panes then Assigned(steps[..|steps| - 1], p) + [last.rec]
      else Assigned(steps[..|steps| - 1], p)
  }

  /** Some watermark of the stream completes the window. */
  predicate Passed(c: Config, steps: seq<Step>, start: int64)
    requires ValidConfig(c)
  {
    steps != [] &&
    (Passed(c, steps[..|steps| - 1], start) ||
     (steps[|steps| - 1].Advance? && steps[|steps| - 1].wm >= FireTime(c, start)))
  }

  /** No record arrives for a window a watermark has already completed. Watermarks themselves may
      go backwards, as they do when an operator is restored. */
  ghost predicate NoneLate(c: Config, steps: seq<Step>)
    requires ValidConfig(c)
  {
    steps == [] ||
    (NoneLate(c, steps[..|steps| - 1]) &&
     (steps[|steps| - 1].Arrive? ==>
        forall p :: p in steps[|steps| - 1].panes ==> !Passed(c, steps[..|steps| - 1], p.start)))
  }

  function RowsOf(rows: seq<Row>, p: Pane): seq<Row> {
    if rows == [] then []
    else if rows[|rows| - 1].pane == p then RowsOf(rows[..|rows| - 1], p) + [rows[|rows| - 1]]
    else RowsOf(rows[..|rows| - 1], p)
  }

  // ----- Rows of one pane ------------------------------------------------------------------

  lemma {:induction false} RowsOfConcat(a: seq<Row>, b: seq<Row>, p: Pane)
    ensures RowsOf(a + b, p) == RowsOf(a, p) + RowsOf(b, p)
  {
    if b == [] {
      assert a + b == a;
    } else {
      RowsOfConcat(a, b[..|b| - 1], p);
      assert (a + b)[..|a + b| - 1] == a + b[..|b| - 1];
    }
  }

  /** Firing a list of distinct panes gives one row to each, and none to any other. */
  lemma {:induction false} RowsOfDue(s: State, due: seq<Pane>, p: Pane)
    requires Distinct(due)
    ensures RowsOf(RowsFor(s, due), p) == if p in due then [Row(p, HeldFor(s, p))] else []
  {
    if due != [] {
      var init := due[..|due| - 1];
      RowsOfDue(s, init, p);
      assert RowsFor(s, due)[..|due| - 1] == RowsFor(s, init);
    }
  }

  // ----- Batch equality --------------------------------------------------------------------

  /** The state of one pane after a stream in which nothing was late. */
  ghost predicate PaneIsBatch(c: Config, steps: seq<Step>, out: Outcome, p: Pane)
    requires ValidConfig(c)
  {
    if Passed(c, steps, p.start) then
      && p !in out.state.armed
      && RowsOf(out.rows, p) == if Assigned(steps, p) == [] then [] else [Row(p, Assigned(steps, p))]
    else
      && (p in out.state.held <==> Assigned(steps, p) != [])
      && (p in out.state.armed <==> Assigned(steps, p) != [])
      && HeldFor(out.state, p) == Assigned(steps, p)
      && RowsOf(out.rows, p) == []
  }

  /** The stored watermark is one the stream carried, or the initial one. */
  lemma {:induction false} NotPurgedBeforePassed(c: Config, steps: seq<Step>, start: int64)
    requires ValidConfig(c) && !Passed(c, steps, start)
    ensures !IsPurged(c, Run(c, steps).state.watermark, start)
  {
    if steps != [] && steps[|steps| - 1].Arrive? {
      var last := steps[|steps| - 1];
      NotPurgedBeforePassed(c, steps[..|steps| - 1], start);
      ArriveCounts(c, Run(c, steps[..|steps| - 1]).state, last.rec, last.panes);
    }
  }

  lemma {:induction false} BatchArrive(c: Config, steps: seq<Step>, rec: Record, panes: seq<Pane>, p: Pane)
    requires ValidConfig(c) && PaneIsBatch(c, steps, Run(c, steps), p)
    requires Distinct(panes) && (p in panes ==> !Passed(c, steps, p.start))
    ensures PaneIsBatch(c, steps + [Arrive(rec, panes)], Run(c, steps + [Arrive(rec, panes)]), p)
  {
    var after := steps + [Arrive(rec, panes)];
    assert after[..|after| - 1] == steps;
    ArriveEffect(c, Run(c, steps).state, rec, panes, p);
    ArriveCounts(c, Run(c, steps).state, rec, panes);
    if p in panes {
      NotPurgedBeforePassed(c, steps, p.start);
    }
  }

  lemma {:induction false} BatchAdvance(c: Config, steps: seq<Step>, wm: int64, due: seq<Pane>, p: Pane)
    requires ValidConfig(c) && PaneIsBatch(c, steps, Run(c, steps), p) && IsDue(c, Run(c, steps).state, wm, due)
    ensures PaneIsBatch(c, steps + [Advance(wm, due)], Run(c, steps + [Advance(wm, due)]), p)
  {
    var after := steps + [Advance(wm, due)];
    assert after[..|after| - 1] == steps;
    var before := Run(c, steps);
    RowsOfConcat(before.rows, RowsFor(before.state, due), p);
    RowsOfDue(before.state, due, p);
    if IsPurged(c, wm, p.start) {
      FiresBeforePurge(c, wm, p.start);
    }
  }

  lemma {:induction false} PaneByPane(c: Config, steps: seq<Step>, p: Pane)
    requires ValidConfig(c) && ValidSteps(c, steps) && NoneLate(c, steps)
    ensures PaneIsBatch(c, steps, Run(c, steps), p)
  {
    if steps != [] {
      var init, last := steps[..|steps| - 1], steps[|steps| - 1];
      PaneByPane(c, init, p);
      assert steps == init + [last];
      match last {
        case Arrive(rec, panes) => BatchArrive(c, init, rec, panes, p);
        case Advance(wm, due) => BatchAdvance(c, init, wm, due, p);
      }
    }
  }

  lemma {:induction false} NothingDropped(c: Config, steps: seq<Step>)
    requires ValidConfig(c) && NoneLate(c, steps)
    ensures Run(c, steps).state.dropped == 0
  {
    if steps != [] {
      var init := steps[..|steps| - 1];
      NothingDropped(c, init);
      match steps[|steps| - 1] {
        case Arrive(rec, panes) =>
          ArriveCounts(c, Run(c, init).state, rec, panes);
          NonePurged(c, init, panes, |panes|);
        case Advance(_, _) =>
      }
    }
  }

  lemma {:induction false} NonePurged(c: Config, steps: seq<Step>, panes: seq<Pane>, n: nat)
    requires ValidConfig(c) && n <= |panes|
    requires forall p :: p in panes ==> !Passed(c, steps, p.start)
    ensures CountPurged(c, Run(c, steps).state.watermark, panes[..n]) == 0
    ensures CountPurged(c, Run(c, steps).state.watermark, panes) == 0 || n < |panes|
  {
    assert panes[..|panes|] == panes;
    if n > 0 {
      NonePurged(c, steps, panes, n - 1);
      assert panes[..n][..n - 1] == panes[..n - 1];
      assert panes[n - 1] in panes;
      NotPurgedBeforePassed(c, steps, panes[n - 1].start);
    }
  }

  /** The windowed answer is the batch answer: on a stream where nothing is late and a final
      MAX_INT64 watermark closes it, each pane that received a record is reported exactly once,
      with exactly its records, each other pane never, and nothing is dropped or left pending.
      It holds for every allowed lateness and every arrival order. */
  lemma {:induction false} BatchAnswer(c: Config, steps: seq<Step>)
    requires ValidConfig(c) && ValidSteps(c, steps) && NoneLate(c, steps)
    requires steps != [] && steps[|steps| - 1].Advance? && steps[|steps| - 1].wm == MAX_INT64
    ensures forall p :: RowsOf(Run(c, steps).rows, p) == if Assigned(steps, p) == [] then [] else [Row(p, Assigned(steps, p))]
    ensures Run(c, steps).state.armed == {} && Run(c, steps).state.dropped == 0
  {
    NothingDropped(c, steps);
    forall p ensures PaneIsBatch(c, steps, Run(c, steps), p) && Passed(c, steps, p.start) {
      PaneByPane(c, steps, p);
    }
  }

  /** When a row goes out, no watermark before the one releasing it had reached its event time,
      so it is late for nobody downstream. */
  lemma {:induction false} RowsAreNeverLate(c: Config, steps: seq<Step>, p: Pane)
    requires ValidConfig(c) && ValidSteps(c, steps) && NoneLate(c, steps)
    requires steps != [] && steps[|steps| - 1].Advance? && p in steps[|steps| - 1].due
    ensures !Passed(c, steps[..|steps| - 1], p.start) && FireTime(c, p.start) <= steps[|steps| - 1].wm
    ensures HeldFor(Run(c, steps[..|steps| - 1]).state, p) == Assigned(steps, p) != []
  {
    PaneByPane(c, steps[..|steps| - 1], p);
  }

  // ----- Late records ----------------------------------------------------------------------

  function WatermarkAt(steps: seq<Step>): int64 {
    if steps == [] then MIN_INT64
    else if steps[|steps| - 1].Advance? then steps[|steps| - 1].wm
    else WatermarkAt(steps[..|steps| - 1])
  }

  /** Within one run the gate's watermarks never go backwards. */
  ghost predicate Rising(steps: seq<Step>) {
    steps == [] ||
    (Rising(steps[..|steps| - 1]) &&
     (steps[|steps| - 1].Advance? ==> WatermarkAt(steps[..|steps| - 1]) <= steps[|steps| - 1].wm))
  }

  /** The records of a pane that came before the watermark put it out of reach. */
  function OnTime(c: Config, steps: seq<Step>, p: Pane): seq<Record>
    requires ValidConfig(c)
  {
    if steps == [] then []
    else
      var init, last := steps[..|steps| - 1], steps[|steps| - 1];
      if last.Arrive? && p in last.panes && !IsPurged(c, WatermarkAt(init), p.start) then OnTime(c, init, p) + [last.rec]
      else OnTime(c, init, p)
  }

  /** How many assignments came too late. */
  function TooLate(c: Config, steps: seq<Step>): nat
    requires ValidConfig(c)
  {
    if steps == [] then 0
    else
      var init, last := steps[..|steps| - 1], steps[|steps| - 1];
      TooLate(c, init) + if last.Arrive? then CountPurged(c, WatermarkAt(init), last.panes) else 0
  }

  function LastReport(rows: seq<Row>, p: Pane): seq<Record> {
    var own := RowsOf(rows, p);
    if own == [] then [] else own[|own| - 1].records
  }

  /** Each report of a pane holds strictly more than the one before it. */
  ghost predicate Growing(own: seq<Row>) {
    && (forall i :: 0 <= i < |own| ==> own[i].records != [])
    && (forall i :: 0 <= i < |own| - 1 ==> own[i].records < own[i + 1].records)
  }

  ghost predicate PaneIsCurrent(c: Config, steps: seq<Step>, out: Outcome, p: Pane)
    requires ValidConfig(c)
  {
    && out.state.watermark == WatermarkAt(steps)
    && (if IsPurged(c, WatermarkAt(steps), p.start) then p !in out.state.held && p !in out.state.armed
        else (p in out.state.held <==> OnTime(c, steps, p) != []) && HeldFor(out.state, p) == OnTime(c, steps, p))
    && Growing(RowsOf(out.rows, p))
    && (if p in out.state.armed then LastReport(out.rows, p) < OnTime(c, steps, p)
        else LastReport(out.rows, p) == OnTime(c, steps, p))
  }

  lemma {:induction false} CurrentArrive(c: Config, steps: seq<Step>, rec: Record, panes: seq<Pane>, p: Pane)
    requires ValidConfig(c) && PaneIsCurrent(c, steps, Run(c, steps), p) && Distinct(panes)
    ensures PaneIsCurrent(c, steps + [Arrive(rec, panes)], Run(c, steps + [Arrive(rec, panes)]), p)
  {
    var after := steps + [Arrive(rec, panes)];
    assert after[..|after| - 1] == steps;
    ArriveEffect(c, Run(c, steps).state, rec, panes, p);
    ArriveCounts(c, Run(c, steps).state, rec, panes);
    if p in panes && !IsPurged(c, WatermarkAt(steps), p.start) {
      var seen := OnTime(c, steps, p);
      assert seen < seen + [rec];
      assert LastReport(Run(c, steps).rows, p) <= seen;
    }
  }

  lemma {:induction false} StaysPurged(c: Config, watermark: int64, later: int64, start: int64)
    requires ValidConfig(c) && watermark <= later
    ensures IsPurged(c, watermark, start) ==> IsPurged(c, later, start)
  {}

  lemma {:induction false} GrowingAppend(own: seq<Row>, r: Row)
    requires Growing(own) && r.records != []
    requires own != [] ==> own[|own| - 1].records < r.records
    ensures Growing(own + [r])
  {}

  /** What a watermark does to one pane's rows. */
  lemma {:induction false} RowsAfterAdvance(c: Config, steps: seq<Step>, wm: int64, due: seq<Pane>, p: Pane)
    requires ValidConfig(c) && Distinct(due)
    ensures var before, after := Run(c, steps), Run(c, steps + [Advance(wm, due)]);
            && after.state == ApplyAdvance(c, before.state, wm, due)
            && RowsOf(after.rows, p) == if p in due then RowsOf(before.rows, p) + [Row(p, HeldFor(before.state, p))] else RowsOf(before.rows, p)
    ensures WatermarkAt(steps + [Advance(wm, due)]) == wm && OnTime(c, steps + [Advance(wm, due)], p) == OnTime(c, steps, p)
  {
    var after := steps + [Advance(wm, due)];
    assert after[..|after| - 1] == steps;
    var before := Run(c, steps);
    RowsOfConcat(before.rows, RowsFor(before.state, due), p);
    RowsOfDue(before.state, due, p);
    assert RowsOf(before.rows, p) + [] == RowsOf(before.rows, p);
  }

  lemma {:induction false} CurrentAdvance(c: Config, steps: seq<Step>, wm: int64, due: seq<Pane>, p: Pane)
    requires ValidConfig(c) && PaneIsCurrent(c, steps, Run(c, steps), p) && IsDue(c, Run(c, steps).state, wm, due)
    requires WatermarkAt(steps) <= wm
    ensures PaneIsCurrent(c, steps + [Advance(wm, due)], Run(c, steps + [Advance(wm, due)]), p)
  {
    hide Growing, AddCeil, Run, OnTime, WatermarkAt, RowsOf;
    RowsAfterAdvance(c, steps, wm, due, p);
    var before := Run(c, steps);
    StaysPurged(c, WatermarkAt(steps), wm, p.start);
    if IsPurged(c, wm, p.start) {
      FiresBeforePurge(c, wm, p.start);
    }
    if p in due {
      GrowingAppend(RowsOf(before.rows, p), Row(p, HeldFor(before.state, p)));
    }
  }

  /** Every reachable state, pane by pane, whatever arrives late: a pending timer always has
      something new to report, so firing never finds its state missing; each report of a pane
      strictly extends the one before; and a purged pane holds nothing and is never armed again. */
  lemma {:induction false} LateRecordInvariant(c: Config, steps: seq<Step>, p: Pane)
    requires ValidConfig(c) && ValidSteps(c, steps) && Rising(steps)
    ensures PaneIsCurrent(c, steps, Run(c, steps), p)
    ensures p in Run(c, steps).state.armed ==> p in Run(c, steps).state.held
  {
    if steps != [] {
      var init, last := steps[..|steps| - 1], steps[|steps| - 1];
      LateRecordInvariant(c, init, p);
      assert steps == init + [last];
      match last {
        case Arrive(rec, panes) => CurrentArrive(c, init, rec, panes, p);
        case Advance(wm, due) => CurrentAdvance(c, init, wm, due, p);
      }
    }
  }

  /** Nothing is reported for a pane once it has been purged. */
  lemma {:induction false} SilentAfterPurge(c: Config, steps: seq<Step>, n: nat, p: Pane)
    requires ValidConfig(c) && ValidSteps(c, steps) && Rising(steps) && n <= |steps|
    requires IsPurged(c, WatermarkAt(steps[..n]), p.start)
    ensures IsPurged(c, WatermarkAt(steps), p.start)
    ensures RowsOf(Run(c, steps).rows, p) == RowsOf(Run(c, steps[..n]).rows, p)
  {
    if n == |steps| {
      assert steps[..n] == steps;
    } else {
      var init, last := steps[..|steps| - 1], steps[|steps| - 1];
      assert init[..n] == steps[..n];
      SilentAfterPurge(c, init, n, p);
      LateRecordInvariant(c, init, p);
      if last.Advance? {
        RowsOfConcat(Run(c, init).rows, RowsFor(Run(c, init).state, last.due), p);
        RowsOfDue(Run(c, init).state, last.due, p);
      }
    }
  }

  /** Accepted and dropped: the counter is exactly the number of assignments that came too late,
      and once a final MAX_INT64 watermark has passed, the last report of every pane holds every
      record that did not. */
  lemma {:induction false} AcceptedAreReported(c: Config, steps: seq<Step>)
    requires ValidConfig(c) && ValidSteps(c, steps) && Rising(steps)
    ensures Run(c, steps).state.dropped == TooLate(c, steps)
    ensures steps != [] && steps[|steps| - 1].Advance? && steps[|steps| - 1].wm == MAX_INT64 ==>
              forall p :: LastReport(Run(c, steps).rows, p) == OnTime(c, steps, p)
  {
    DroppedIsTooLate(c, steps);
    if steps != [] && steps[|steps| - 1].Advance? && steps[|steps| - 1].wm == MAX_INT64 {
      forall p ensures LastReport(Run(c, steps).rows, p) == OnTime(c, steps, p) {
        LateRecordInvariant(c, steps, p);
      }
    }
  }

  lemma {:induction false} DroppedIsTooLate(c: Config, steps: seq<Step>)
    requires ValidConfig(c)
    ensures Run(c, steps).state.dropped == TooLate(c, steps)
    ensures Run(c, steps).state.watermark == WatermarkAt(steps)
  {
    if steps != [] {
      var init, last := steps[..|steps| - 1], steps[|steps| - 1];
      DroppedIsTooLate(c, init);
      match last {
        case Arrive(rec, panes) => ArriveCounts(c, Run(c, init).state, rec, panes);
        case Advance(_, _) =>
      }
    }
  }

  /** How many of a pane's records came too late for it. */
  function TooLateFor(c: Config, steps: seq<Step>, p: Pane): nat
    requires ValidConfig(c)
  {
    if steps == [] then 0
    else
      var init, last := steps[..|steps| - 1], steps[|steps| - 1];
      TooLateFor(c, init, p) + if last.Arrive? && p in last.panes && IsPurged(c, WatermarkAt(init), p.start) then 1 else 0
  }

  /** For every pane, what was accepted and what was dropped add up to what was assigned. */
  lemma {:induction false} AcceptedPlusDropped(c: Config, steps: seq<Step>, p: Pane)
    requires ValidConfig(c)
    ensures |OnTime(c, steps, p)| + TooLateFor(c, steps, p) == |Assigned(steps, p)|
  {
    if steps != [] {
      AcceptedPlusDropped(c, steps[..|steps| - 1], p);
    }
  }
}
