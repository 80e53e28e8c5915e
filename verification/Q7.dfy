/** The highest-bid query as a whole: its answer depends neither on the order bids arrive in, nor
    on how many subtasks share them, nor on crashes. */
module Q7 {
  import opened Int64
  import opened Elements
  import opened CrashedRuns
  import opened StateSnapshot
  import opened Operators
  import opened Recovery
  import opened ExactlyOnce
  import Commit = TwoPhaseCommit
  import opened WindowAssign
  import opened WindowCounting
  import opened WindowLayout
  import opened WindowMachine
  import opened WindowOperators
  import opened WindowVertices
  import opened WindowRecovery
  import opened Bids
  import opened MaxBidding

  /** A tumbling window is the sliding assignment with one window per record. */
  lemma {:induction false} TumblingPane(c: Config, rec: Record)
    requires ValidConfig(c)
    ensures ValidSpec(c.size, c.size)
    ensures PanesFor(c.size, c.size, rec) == [Pane(rec.key, WindowStartOfTime(c, rec.eventTime))]
  {
    ModuloUnique(c.size, c.size, 1, 0);
    TumblingWindow(c.size, rec.eventTime);
  }

  lemma {:induction false} TumblingWindow(size: int64, t: int64)
    requires size > 0 && size / size == 1 && size % size == 0
    ensures WindowsFor(size, size, t) == [SubFloor(t, FloorMod(t, size))]
  {
    var start := SubFloor(t, FloorMod(t, size));
    assert StartsFrom(start, size, 1) == [start];
  }

  /** The highest bid per auction and tumbling window. Events that are not bids join no window. */
  function Bidding(size: int64, lateness: int64, bidOf: Record -> Parsed): Windows
    requires size > 0 && lateness >= 0
  {
    var c := Config(size, lateness);
    Windows(c, (rec: Record) => if bidOf(rec).Bid? then [Pane(rec.key, WindowStartOfTime(c, rec.eventTime))] else [],
            (row: Row) => [EmittedBid(c, bidOf, row)])
  }

  lemma {:induction false} BiddingIsValid(size: int64, lateness: int64, bidOf: Record -> Parsed)
    requires size > 0 && lateness >= 0
    ensures ValidWindows(Bidding(size, lateness, bidOf)) && KeyedPanes(Bidding(size, lateness, bidOf))
  {
    hide WindowsFor, ValidSpec, PanesFor, FireTime, WindowStartOfTime;
    var w := Bidding(size, lateness, bidOf);
    forall rec, p | p in w.panes(rec) ensures rec.eventTime <= FireTime(w.conf, p.start) {
      TumblingPane(w.conf, rec);
      PanesSound(size, size, w.conf, rec);
    }
  }

  lemma {:induction false} EmitsBidPerRow(c: Config, bidOf: Record -> Parsed, rows: seq<Row>)
    requires ValidConfig(c)
    ensures EmitRows((row: Row) => [EmittedBid(c, bidOf, row)], rows) == EmittedBids(c, bidOf, rows)
  {
    hide EmittedBid;
    if rows != [] {
      EmitsBidPerRow(c, bidOf, rows[..|rows| - 1]);
    }
  }

  // ----- The operator on a stream ----------------------------------------------------------

  /** The operator object stands where the operator does that started at `start` and received
      `inputs`, and has emitted what it has. */
  ghost predicate UpToDate(op: MaxBid, start: State, inputs: seq<Element>)
    reads op, op.store
  {
    && op.Valid() && ArmedHeld(start)
    && var windowed := Windowed(Bidding(op.size, op.lateness, op.bidOf));
       op.model == StateAfter(windowed, start, inputs) && op.emitted == Records(SentBy(windowed, start, inputs))
  }

  predicate AllDecode(bidOf: Record -> Parsed, inputs: seq<Element>) {
    forall i :: 0 <= i < |inputs| && inputs[i].RecordElement? ==> !bidOf(inputs[i].rec).Malformed?
  }

  /** Give the operator a whole stream from where it stands. It fails exactly if some value does not
      decode. */
  method RunFrom(op: MaxBid, ghost start: State, inputs: seq<Element>) returns (ok: bool)
    requires op.Valid() && op.model == start && op.emitted == [] && ArmedHeld(start)
    modifies op, op.store
    ensures ok <==> AllDecode(op.bidOf, inputs)
    ensures ok ==> UpToDate(op, start, inputs)
  {
    hide Represents, StateAfter, SentBy, Records, WinnerBytes, HoldsBids, ArmedHeld;
    ghost var w := Bidding(op.size, op.lateness, op.bidOf);
    TakenNothing(w, start);
    for i := 0 to |inputs|
      invariant UpToDate(op, start, inputs[..i]) && AllDecode(op.bidOf, inputs[..i])
    {
      assert inputs[..i + 1] == inputs[..i] + [inputs[i]];
      match inputs[i] {
        case RecordElement(rec) =>
          ok := TakeRecord(op, start, inputs[..i], rec);
          if !ok {
            return;
          }
        case WatermarkElement(wm) => TakeWatermark(op, start, inputs[..i], wm);
        case BarrierElement(_, _) => TakenControl(w, start, inputs[..i], inputs[i]);
        case EndOfStream => TakenControl(w, start, inputs[..i], inputs[i]);
      }
    }
    assert inputs[..|inputs|] == inputs;
    ok := true;
  }

  /** A new operator, given a whole stream. */
  method RunMaxBid(size: int64, lateness: int64, bidOf: Record -> Parsed, inputs: seq<Element>) returns (op: MaxBid, ok: bool)
    requires size > 0 && lateness >= 0
    ensures ok <==> AllDecode(bidOf, inputs)
    ensures ok ==> UpToDate(op, INITIAL, inputs) && op.size == size && op.lateness == lateness && op.bidOf == bidOf
  {
    op := new MaxBid(size, lateness, bidOf);
    ok := RunFrom(op, INITIAL, inputs);
  }

  method TakeRecord(op: MaxBid, ghost start: State, ghost inputs: seq<Element>, rec: Record) returns (ok: bool)
    requires UpToDate(op, start, inputs)
    modifies op, op.store
    ensures ok <==> !op.bidOf(rec).Malformed?
    ensures ok ==> UpToDate(op, start, inputs + [RecordElement(rec)])
  {
    hide Represents, StateAfter, SentBy, Records, WinnerBytes, HoldsBids, WindowStartOfTime, ArmedHeld;
    TakenRecord(Bidding(op.size, op.lateness, op.bidOf), start, inputs, rec);
    NoPanes(op.Conf(), op.model, rec);
    ok := op.ProcessElement(rec);
  }

  lemma {:induction false} NoPanes(c: Config, s: State, rec: Record)
    requires ValidConfig(c)
    ensures ApplyArrive(c, s, rec, []) == s
  {}

  method TakeWatermark(op: MaxBid, ghost start: State, ghost inputs: seq<Element>, wm: int64)
    requires UpToDate(op, start, inputs)
    modifies op, op.store
    ensures UpToDate(op, start, inputs + [WatermarkElement(wm)])
  {
    hide Represents, StateAfter, SentBy, Records, WinnerBytes, HoldsBids, ApplyAdvance, EmitRows, EmittedBid;
    ghost var w, before := Bidding(op.size, op.lateness, op.bidOf), op.model;
    BiddingIsValid(op.size, op.lateness, op.bidOf);
    StaysHeld(w, start, inputs);
    TakenWatermark(w, start, inputs, wm);
    var ok, due := op.ProcessWatermark(wm);
    assert ok;
    DueIsUnique(op.Conf(), before, wm, due, DueInOrder(op.Conf(), before, wm));
    EmitsBidPerRow(op.Conf(), op.bidOf, RowsFor(before, due));
  }

  // ----- The operator across crashes ---------------------------------------------------------

  /** What a run of the operator starts from: nothing, or bytes recorded for a state. */
  ghost predicate Recorded(c: Config, bidOf: Record -> Parsed, snapshot: Option<Bytes>, entries: map<Bytes, Bytes>, s: State)
    requires ValidConfig(c)
  {
    && ArmedHeld(s)
    && if snapshot.None? then Alike(s, INITIAL)
       else Snapshots(snapshot.value, entries) && Represents(c, Winners(bidOf), entries, s) && HoldsBids(bidOf, s.held)
  }

  /** A new operator, restored from a snapshot if there is one. */
  method Restart(size: int64, lateness: int64, bidOf: Record -> Parsed, snapshot: Option<Bytes>, ghost entries: map<Bytes, Bytes>, ghost s: State)
    returns (op: MaxBid)
    requires size > 0 && lateness >= 0 && Recorded(Config(size, lateness), bidOf, snapshot, entries, s)
    ensures op.Valid() && op.emitted == [] && Alike(op.model, s) && ArmedHeld(op.model)
    ensures op.size == size && op.lateness == lateness && op.bidOf == bidOf && fresh(op) && fresh(op.store)
  {
    hide AggregatesStored, TimersStored, WatermarkStored, Snapshots, WinnerBytes;
    op := new MaxBid(size, lateness, bidOf);
    if snapshot.Some? {
      RestoreInto(op.store, snapshot.value, entries);
      op.model := s.(dropped := 0);
    }
  }

  /** Any number of crashed runs and a last one, on the operator's bytes: each run starts from the
      snapshot an earlier one took at the barrier it was given up for. If every value read decodes
      and every snapshot fits its length fields, the last run stands where the restored operator
      leads, late counter apart, and has emitted what it does. */
  method RunAcrossCrashes(size: int64, lateness: int64, bidOf: Record -> Parsed, marks: seq<nat>, received: seq<seq<Element>>) returns (op: MaxBid, ok: bool)
    requires size > 0 && lateness >= 0 && |received| == |marks| + 1 && Resumable(received, marks)
    requires forall r :: 0 <= r < |marks| ==> AllDecode(bidOf, CutAt(received[r], marks[r]))
    requires AllDecode(bidOf, received[|marks|])
    ensures !ok ==> !Fitting(op.store.entries)
    ensures ok ==>
              && op.Valid() && op.size == size && op.lateness == lateness && op.bidOf == bidOf
              && var windowed := Windowed(Bidding(size, lateness, bidOf));
                 && Alike(op.model, StateAfter(windowed, Restored(windowed, marks, received), received[|marks|]))
                 && op.emitted == Records(SentInRun(windowed, marks, received, |marks|))
  {
    hide Represents, StateAfter, SentBy, Records, Restored, CutAt, Resumable, ArmedHeld, Snapshots, Windowed, WinnerBytes, HoldsBids;
    ghost var w := Bidding(size, lateness, bidOf);
    BiddingIsValid(size, lateness, bidOf);
    StartsRestored(w, marks, received);
    var snapshot: Option<Bytes> := None;
    ghost var entries: map<Bytes, Bytes>, s := map[], INITIAL;
    NothingArmed();
    for r := 0 to |marks|
      invariant Resumable(received, marks[..r]) && Recorded(Config(size, lateness), bidOf, snapshot, entries, s)
      invariant Alike(s, Restored(Windowed(w), marks[..r], received))
    {
      RunOn(w, marks, received, r, s);
      if marks[r] > 0 {
        op := Restart(size, lateness, bidOf, snapshot, entries, s);
        RunOn(w, marks, received, r, op.model);
        var decoded := RunFrom(op, op.model, CutAt(received[r], marks[r]));
        assert decoded;
        snapshot := TakeSnapshot(op.store);
        if snapshot.None? {
          return op, false;
        }
        entries, s := op.store.entries, op.model;
      }
    }
    assert marks[..|marks|] == marks;
    op := Restart(size, lateness, bidOf, snapshot, entries, s);
    RunLast(w, marks, received, op.model);
    ok := RunFrom(op, op.model, received[|marks|]);
    assert ok;
  }

  // ----- The answer ------------------------------------------------------------------------

  /** The bids of one auction's window. */
  function InPane(c: Config, bidOf: Record -> Parsed, p: Pane): Record -> bool
    requires ValidConfig(c)
  {
    (r: Record) => bidOf(r).Bid? && r.key == p.key && WindowStartOfTime(c, r.eventTime) == p.start
  }

  lemma {:induction false} GivenIsInPane(size: int64, lateness: int64, bidOf: Record -> Parsed, rs: seq<Record>, p: Pane)
    requires size > 0 && lateness >= 0
    ensures Select(rs, Given(Bidding(size, lateness, bidOf), p)) == Select(rs, InPane(Config(size, lateness), bidOf, p))
  {
    hide WindowStartOfTime;
    SelectSame(rs, Given(Bidding(size, lateness, bidOf), p), InPane(Config(size, lateness), bidOf, p));
  }

  lemma {:induction false} SelectedAreBids(c: Config, bidOf: Record -> Parsed, rs: seq<Record>, p: Pane)
    requires ValidConfig(c)
    ensures Select(rs, InPane(c, bidOf, p)) != [] ==> BidsOf(bidOf, Select(rs, InPane(c, bidOf, p))) != []
  {
    hide WindowStartOfTime;
    if rs != [] {
      SelectedAreBids(c, bidOf, rs[..|rs| - 1], p);
      var last := rs[|rs| - 1];
      if InPane(c, bidOf, p)(last) {
        BidsOfAppend(bidOf, Select(rs[..|rs| - 1], InPane(c, bidOf, p)), last);
      }
    }
  }

  /** One row for the auction's window if it has a bid, with the best of its bids. */
  ghost predicate BestBidFor(c: Config, bidOf: Record -> Parsed, rows: seq<Row>, p: Pane, bids: seq<WinningBid>)
    requires ValidConfig(c)
  {
    && |RowsOf(rows, p)| == (if bids == [] then 0 else 1)
    && forall row :: row in RowsOf(rows, p) ==>
         bids != [] && EmittedBid(c, bidOf, row) == Record(p.key, EncodeWinningBid(Best(bids)), FireTime(c, p.start))
  }

  lemma {:induction false} BestOfRow(c: Config, bidOf: Record -> Parsed, rows: seq<Row>, p: Pane, own: seq<Record>)
    requires ValidConfig(c) && HasItsRow(rows, p, own) && (own != [] ==> BidsOf(bidOf, own) != [])
    ensures BestBidFor(c, bidOf, rows, p, BidsOf(bidOf, own))
  {
    hide RowsOf, FireTime, Best, BidsOf;
    if own == [] {
      NoBids(bidOf);
    } else {
      var r := RowsOf(rows, p)[0].records;
      BidsOfAnyOrder(bidOf, own, r);
      BestOfAnyOrder(BidsOf(bidOf, own), BidsOf(bidOf, r));
    }
  }

  lemma {:induction false} NoBids(bidOf: Record -> Parsed)
    ensures BidsOf(bidOf, []) == []
  {}

  /** For every order of the bids, every number of subtasks behind the hash partition, and whatever
      crashed: once a run has succeeded, the sink has committed the rows routed to it, each once;
      and over all subtasks each auction and window that received a bid has exactly one row, with
      the best of its bids, and nothing else has any. A run that succeeds has met no value that
      does not decode. */
  lemma {:induction false} AnswerIsTheBestBid(job: Job, hash: Bytes -> nat, received: seq<seq<seq<Element>>>,
                                              size: int64, lateness: int64, bidOf: Record -> Parsed, mine: Record -> bool, sink: SinkRuns, staged: Commit.Epochs)
    returns (rows: seq<Row>)
    requires size > 0 && lateness >= 0
    requires WindowedJob(job, hash, received, Bidding(size, lateness, bidOf), mine, sink) && Leavings(staged)
    ensures multiset(sink.Committed(staged)) == multiset(Select(EmittedBids(Config(size, lateness), bidOf, rows), mine))
    ensures forall p :: BestBidFor(Config(size, lateness), bidOf, rows, p, BidsOf(bidOf, Select(JobData(job), InPane(Config(size, lateness), bidOf, p))))
  {
    hide Select, RowsOf, EmitRows, WindowedJob, JobData, WindowStartOfTime, FireTime, BidsOf, InPane, Given, BestBidFor;
    JobIsValid(job, hash, received, Bidding(size, lateness, bidOf), mine, sink);
    var w := Bidding(size, lateness, bidOf);
    BiddingIsValid(size, lateness, bidOf);
    rows := CommittedRows(job, hash, received, w, mine, sink, staged);
    EmitsBidPerRow(w.conf, bidOf, rows);
    forall p ensures BestBidFor(w.conf, bidOf, rows, p, BidsOf(bidOf, Select(JobData(job), InPane(w.conf, bidOf, p)))) {
      GivenIsInPane(size, lateness, bidOf, JobData(job), p);
      SelectedAreBids(w.conf, bidOf, JobData(job), p);
      BestOfRow(w.conf, bidOf, rows, p, Select(JobData(job), InPane(w.conf, bidOf, p)));
    }
  }
}
