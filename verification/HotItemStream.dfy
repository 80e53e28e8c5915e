/** The second stage of the hot-items query over a whole stream. */
module HotItemStream {
  import opened Int64
  import opened Elements
  import opened CrashedRuns
  import opened StateSnapshot
  import opened Operators
  import opened WindowKeys
  import opened WindowLayout
  import opened WindowMachine
  import opened WindowOperators
  import opened WindowVertices
  import opened Bids
  import opened AuctionCounts
  import opened HotLayout
  import opened HotItemCounting

  // ----- The hottest auctions of a window ------------------------------------------------------

  lemma {:induction false} LargestAuction(auctions: set<uint64>) returns (a: uint64)
    requires auctions != {}
    ensures a in auctions && forall x :: x in auctions ==> x <= a
  {
    a :| a in auctions;
    if auctions != {a} {
      var rest := LargestAuction(auctions - {a});
      assert forall x :: x in auctions ==> x == a || x in auctions - {a};
      if rest > a {
        a := rest;
      }
    }
  }

  /** Every collection of counts has an answer. */
  lemma {:induction false} HottestExists(counts: map<uint64, int64>)
    ensures exists max, winners :: IsHottest(counts, max, winners)
    decreases |counts|
  {
    if counts == map[] {
      assert IsHottest(counts, 0, []);
    } else {
      var a := LargestAuction(counts.Keys);
      var rest := counts - {a};
      HottestExists(rest);
      var max, winners :| IsHottest(rest, max, winners);
      HottestStep(rest, max, winners, a, counts[a]);
      assert counts == rest[a := counts[a]];
      assert IsHottest(counts, counts[a], [a]) || IsHottest(counts, max, winners + [a]) || IsHottest(counts, max, winners);
    }
  }

  /** The auctions attaining the maximum count, in ascending order, and that count. */
  ghost function Hottest(counts: map<uint64, int64>): (w: HotWindow)
    ensures IsHottest(counts, w.max, w.winners)
  {
    HottestExists(counts);
    var max, winners :| IsHottest(counts, max, winners);
    HotWindow(max, winners)
  }

  // ----- The stage as an operator --------------------------------------------------------------

  /** The panes of a record: the window its key names, unless the stage refuses it. */
  function RankedIn(c: Config, rec: Record): seq<Pane>
    requires ValidConfig(c)
  {
    if Refuses(c, rec) then [] else [HotPane(WindowKeyStart(rec.key).value)]
  }

  /** What a fired window emits. */
  ghost function RankedRow(c: Config, row: Row): seq<Record>
    requires ValidConfig(c)
  {
    HotRows(c, row.pane.start, Hottest(Latest(row.records)))
  }

  ghost function RankEmits(c: Config): Row -> seq<Record>
    requires ValidConfig(c)
  {
    (row: Row) => RankedRow(c, row)
  }

  ghost function Ranking(size: int64, lateness: int64): Windows
    requires size > 0 && lateness >= 0
  {
    var c := Config(size, lateness);
    Windows(c, (rec: Record) => RankedIn(c, rec), RankEmits(c))
  }

  lemma {:induction false} RankingIsValid(size: int64, lateness: int64)
    requires size > 0 && lateness >= 0
    ensures ValidWindows(Ranking(size, lateness)) && KeyedPanes(Ranking(size, lateness))
  {
    hide FireTime;
    var w := Ranking(size, lateness);
    forall rec, p | p in w.panes(rec) ensures p.key == rec.key && rec.eventTime <= FireTime(w.conf, p.start) {
      Int64Onto(rec.key);
    }
  }

  // ----- The operator on a stream ----------------------------------------------------------

  /** The operator object stands where the operator does that started at `start` and received
      `inputs`, and has emitted what it has. */
  ghost predicate UpToDate(op: HotItems, start: State, inputs: seq<Element>)
    reads op, op.store
  {
    && op.Valid() && ArmedHeld(start)
    && var windowed := Windowed(Ranking(op.size, op.lateness));
       op.model == StateAfter(windowed, start, inputs) && op.emitted == Records(SentBy(windowed, start, inputs))
  }

  predicate AllAccepted(c: Config, inputs: seq<Element>)
    requires ValidConfig(c)
  {
    forall i :: 0 <= i < |inputs| && inputs[i].RecordElement? ==> !Refuses(c, inputs[i].rec)
  }

  /** Give the operator a whole stream from where it stands. It fails exactly if it refuses a
      record. */
  method RunFrom(op: HotItems, ghost start: State, inputs: seq<Element>) returns (ok: bool)
    requires op.Valid() && op.model == start && op.emitted == [] && ArmedHeld(start)
    modifies op, op.store
    ensures ok <==> AllAccepted(op.Conf(), inputs)
    ensures ok ==> UpToDate(op, start, inputs)
  {
    hide HotRepresents, StateAfter, SentBy, Records, Refuses, ArmedHeld;
    ghost var w := Ranking(op.size, op.lateness);
    TakenNothing(w, start);
    for i := 0 to |inputs|
      invariant UpToDate(op, start, inputs[..i]) && AllAccepted(op.Conf(), inputs[..i])
    {
      assert inputs[..i + 1] == inputs[..i] + [inputs[i]];
      match inputs[i] {
        case RecordElement(rec) =>
          ok := TakeRecord(op, start, inputs[..i], rec);
          if !ok {
            return;
          }
        case WatermarkElement(wm) => TakeWatermark(op, start, inputs[..i], wm);
        case BarrierElement(_, _) => TakenControl(w, start, inputs[..i], inputs[i]);
        case EndOfStream => TakenControl(w, start, inputs[..i], inputs[i]);
      }
    }
    assert inputs[..|inputs|] == inputs;
    ok := true;
  }

  /** A new operator, given a whole stream. */
  method RunHotItems(size: int64, lateness: int64, inputs: seq<Element>) returns (op: HotItems, ok: bool)
    requires size > 0 && lateness >= 0
    ensures ok <==> AllAccepted(Config(size, lateness), inputs)
    ensures ok ==> UpToDate(op, INITIAL, inputs) && op.size == size && op.lateness == lateness
  {
    op := new HotItems(size, lateness);
    ok := RunFrom(op, INITIAL, inputs);
  }

  method TakeRecord(op: HotItems, ghost start: State, ghost inputs: seq<Element>, rec: Record) returns (ok: bool)
    requires UpToDate(op, start, inputs)
    modifies op, op.store
    ensures ok <==> !Refuses(op.Conf(), rec)
    ensures ok ==> UpToDate(op, start, inputs + [RecordElement(rec)])
  {
    hide HotRepresents, StateAfter, SentBy, Records, Refuses, ArmedHeld;
    TakenRecord(Ranking(op.size, op.lateness), start, inputs, rec);
    ok := op.ProcessElement(rec);
  }

  method TakeWatermark(op: HotItems, ghost start: State, ghost inputs: seq<Element>, wm: int64)
    requires UpToDate(op, start, inputs)
    modifies op, op.store
    ensures UpToDate(op, start, inputs + [WatermarkElement(wm)])
  {
    hide HotRepresents, StateAfter, SentBy, Records, ApplyAdvance, EmitRows, Answers, AllHotRows;
    ghost var w, before := Ranking(op.size, op.lateness), op.model;
    RankingIsValid(op.size, op.lateness);
    HotFacts(op.Conf(), op.store.entries, op.model);
    StaysHeld(w, start, inputs);
    TakenWatermark(w, start, inputs, wm);
    var ok, due, hot := op.ProcessWatermark(wm);
    assert ok;
    DueIsUnique(op.Conf(), before, wm, due, DueInOrder(op.Conf(), before, wm));
    AnswersAreRows(op.size, op.lateness, before, due, hot);
  }

  /** Answering each due window by its maximum emits what its row does. */
  lemma {:induction false} AnswersAreRows(size: int64, lateness: int64, s: State, due: seq<Pane>, hot: seq<HotWindow>)
    requires size > 0 && lateness >= 0 && Answers(s.held, due, hot) && forall p :: p in due ==> p == HotPane(p.start)
    ensures AllHotRows(Config(size, lateness), due, hot) == EmitRows(Ranking(size, lateness).emits, RowsFor(s, due))
  {
    hide IsHottest, Latest, HotRows;
    if due != [] {
      var n := |due| - 1;
      var c := Config(size, lateness);
      AnswersAreRows(size, lateness, s, due[..n], hot[..n]);
      assert RowsFor(s, due)[..n] == RowsFor(s, due[..n]);
      var p, w := due[n], hot[n];
      assert p in due;
      NothingCounted();
      var best := Hottest(Latest(HeldFor(s, p)));
      HottestUnique(CountsFor(s.held, p.start), w.max, w.winners, best.max, best.winners);
      assert w == best;
    }
  }

  lemma {:induction false} NothingCounted()
    ensures Latest([]) == map[]
  {}

  // ----- The operator across crashes ---------------------------------------------------------

  /** What a run of the operator starts from: nothing, or bytes recorded for a state. */
  ghost predicate Recorded(c: Config, snapshot: Option<Bytes>, entries: map<Bytes, Bytes>, s: State)
    requires ValidConfig(c)
  {
    && ArmedHeld(s)
    && if snapshot.None? then Alike(s, INITIAL) else Snapshots(snapshot.value, entries) && HotRepresents(c, entries, s)
  }

  /** A new operator, restored from a snapshot if there is one. */
  method Restart(size: int64, lateness: int64, snapshot: Option<Bytes>, ghost entries: map<Bytes, Bytes>, ghost s: State) returns (op: HotItems)
    requires size > 0 && lateness >= 0 && Recorded(Config(size, lateness), snapshot, entries, s)
    ensures op.Valid() && op.emitted == [] && Alike(op.model, s) && ArmedHeld(op.model)
    ensures op.size == size && op.lateness == lateness && fresh(op) && fresh(op.store)
  {
    hide HotStored, TimersStored, WatermarkStored, HoldsCounts, Snapshots;
    op := new HotItems(size, lateness);
    if snapshot.Some? {
      RestoreInto(op.store, snapshot.value, entries);
      op.model := s.(dropped := 0);
    }
  }

  /** Any number of crashed runs and a last one, on the operator's bytes: each run starts from the
      snapshot an earlier one took at the barrier it was given up for. If it accepts every record
      and every snapshot fits its length fields, the last run stands where the restored operator
      leads, late counter apart, and has emitted what it does. */
  method RunAcrossCrashes(size: int64, lateness: int64, marks: seq<nat>, received: seq<seq<Element>>) returns (op: HotItems, ok: bool)
    requires size > 0 && lateness >= 0 && |received| == |marks| + 1 && Resumable(received, marks)
    requires forall r :: 0 <= r < |marks| ==> AllAccepted(Config(size, lateness), CutAt(received[r], marks[r]))
    requires AllAccepted(Config(size, lateness), received[|marks|])
    ensures !ok ==> !Fitting(op.store.entries)
    ensures ok ==>
              && op.Valid() && op.size == size && op.lateness == lateness
              && var windowed := Windowed(Ranking(size, lateness));
                 && Alike(op.model, StateAfter(windowed, Restored(windowed, marks, received), received[|marks|]))
                 && op.emitted == Records(SentInRun(windowed, marks, received, |marks|))
  {
    hide HotRepresents, StateAfter, SentBy, Records, Restored, CutAt, Resumable, ArmedHeld, Snapshots, Windowed, Refuses;
    ghost var w := Ranking(size, lateness);
    RankingIsValid(size, lateness);
    StartsRestored(w, marks, received);
    var snapshot: Option<Bytes> := None;
    ghost var entries: map<Bytes, Bytes>, s := map[], INITIAL;
    NothingArmed();
    for r := 0 to |marks|
      invariant Resumable(received, marks[..r]) && Recorded(Config(size, lateness), snapshot, entries, s)
      invariant Alike(s, Restored(Windowed(w), marks[..r], received))
    {
      RunOn(w, marks, received, r, s);
      if marks[r] > 0 {
        op := Restart(size, lateness, snapshot, entries, s);
        RunOn(w, marks, received, r, op.model);
        var accepted := RunFrom(op, op.model, CutAt(received[r], marks[r]));
        assert accepted;
        snapshot := TakeSnapshot(op.store);
        if snapshot.None? {
          return op, false;
        }
        entries, s := op.store.entries, op.model;
      }
    }
    assert marks[..|marks|] == marks;
    op := Restart(size, lateness, snapshot, entries, s);
    RunLast(w, marks, received, op.model);
    ok := RunFrom(op, op.model, received[|marks|]);
    assert ok;
  }
}
