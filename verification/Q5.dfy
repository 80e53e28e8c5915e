/** The hot-items query end to end, at any parallelism and over any crashes, against what the data
    of the sources say. */
module Q5 {
  import opened Int64
  import opened Elements
  import opened CrashedRuns
  import opened Stages
  import opened Vertices
  import opened Recovery
  import opened RecoveryRuns
  import opened ExactlyOnce
  import Commit = TwoPhaseCommit
  import opened WindowAssign
  import opened WindowKeys
  import opened WindowCounting
  import opened WindowMachine
  import opened WindowOperators
  import opened WindowStream
  import opened WindowVertices
  import opened WindowRecovery
  import opened Bids
  import opened AuctionCounts
  import opened HotLayout
  import opened HotItemCounting
  import opened HotItemStream
  import opened RankedCounts

  /** A job running the query: its sources, and what each subtask of each vertex received in each
      run. Records go from one vertex to the next by the hash of their keys. */
  datatype HotJob = HotJob(
    job: Job, marks: seq<nat>, hash: Bytes -> nat,
    size: int64, slide: int64, lateness: int64, lateness2: int64, bidOf: Record -> Parsed,
    filtered: seq<seq<seq<Element>>>, counted: seq<seq<seq<Element>>>,
    rekeyed: seq<seq<seq<Element>>>, ranked: seq<seq<seq<Element>>>)
  {
    predicate WellSpecified() { ValidSpec(size, slide) && size > 0 && lateness >= 0 && lateness2 >= 0 }

    function Stage1(): Config { Config(size, lateness) }

    function Stage2(): Config { Config(size, lateness2) }
  }

  /** The filter in front of the count. */
  function KeepBids(bidOf: Record -> Parsed): Record -> Option<Record> {
    (rec: Record) => if bidOf(rec).Bid? then Some(rec) else None
  }

  ghost function BidsSent(q: HotJob): seq<seq<seq<Element>>>
    requires AllResumable(q.filtered, q.marks)
  {
    SentByVertex(Mapping(KeepBids(q.bidOf)), q.marks, q.filtered)
  }

  ghost function CountsSent(q: HotJob): seq<seq<seq<Element>>>
    requires q.WellSpecified() && AllResumable(q.counted, q.marks)
  {
    SentByVertex(Windowed(Counting(q.size, q.slide, q.lateness)), q.marks, q.counted)
  }

  ghost function RekeyedSent(q: HotJob): seq<seq<seq<Element>>>
    requires q.WellSpecified() && AllResumable(q.rekeyed, q.marks)
  {
    SentByVertex(Mapping(Rekeying(q.size)), q.marks, q.rekeyed)
  }

  ghost function RanksSent(q: HotJob): seq<seq<seq<Element>>>
    requires q.WellSpecified() && AllResumable(q.ranked, q.marks)
  {
    SentByVertex(Windowed(Ranking(q.size, q.lateness2)), q.marks, q.ranked)
  }

  /** The streams of each vertex are what the one before it sent. */
  ghost predicate Filtered(q: HotJob): (ok: bool)
    ensures ok ==> q.WellSpecified() && ValidJob(q.job) && AllResumable(q.filtered, q.marks)
  {
    && ValidJob(q.job) && Orderly(q.job) && q.WellSpecified() && Shuffled(JobRuns(q.job, q.marks), q.hash, q.marks, q.filtered)
    && (ShuffledResumable(JobRuns(q.job, q.marks), q.hash, q.marks, q.filtered); true)
  }

  ghost predicate Counted(q: HotJob): (ok: bool)
    ensures ok ==> Filtered(q) && AllResumable(q.counted, q.marks)
  {
    && Filtered(q) && Shuffled(BidsSent(q), q.hash, q.marks, q.counted)
    && (ShuffledResumable(BidsSent(q), q.hash, q.marks, q.counted); true)
  }

  ghost predicate Rekeyed(q: HotJob): (ok: bool)
    ensures ok ==> Counted(q) && AllResumable(q.rekeyed, q.marks)
  {
    && Counted(q) && Shuffled(CountsSent(q), q.hash, q.marks, q.rekeyed)
    && (ShuffledResumable(CountsSent(q), q.hash, q.marks, q.rekeyed); true)
  }

  ghost predicate Ranked(q: HotJob): (ok: bool)
    ensures ok ==> Rekeyed(q) && AllResumable(q.ranked, q.marks)
  {
    && Rekeyed(q) && Shuffled(RekeyedSent(q), q.hash, q.marks, q.ranked)
    && (ShuffledResumable(RekeyedSent(q), q.hash, q.marks, q.ranked); true)
  }

  function IsBid(bidOf: Record -> Parsed): Record -> bool {
    (rec: Record) => bidOf(rec).Bid?
  }

  /** All the bids of the sources. */
  function AllBids(q: HotJob): seq<Record>
    requires ValidJob(q.job)
  {
    Select(JobData(q.job), IsBid(q.bidOf))
  }

  /** Every bid's key is an auction, and each of its windows has a representable end. */
  ghost predicate OrdinaryBids(q: HotJob)
    requires ValidJob(q.job) && q.WellSpecified()
  {
    && |AllBids(q)| <= MAX_INT64
    && forall r :: r in AllBids(q) ==>
         && |r.key| == 8
         && forall s :: s in WindowsFor(q.size, q.slide, r.eventTime) ==> s + q.size - 1 <= MAX_INT64
  }

  /** The bids of one auction's window. */
  function BidsIn(q: HotJob, p: Pane): seq<Record>
    requires ValidJob(q.job) && q.WellSpecified()
  {
    Select(AllBids(q), OfPane(q.size, q.slide, p))
  }

  // ----- Vertex by vertex ----------------------------------------------------------------------

  lemma {:induction false} KeptAreBids(bidOf: Record -> Parsed, rs: seq<Record>)
    ensures MapRecords(KeepBids(bidOf), rs) == Select(rs, IsBid(bidOf))
  {
    if rs != [] {
      KeptAreBids(bidOf, rs[..|rs| - 1]);
    }
  }

  /** The filter sends on all the bids, on time. */
  lemma {:induction false} BidsVertex(q: HotJob)
    requires Filtered(q)
    ensures AllSound(BidsSent(q), q.marks)
    ensures multiset(AllOf(BidsSent(q), q.marks)) == multiset(AllBids(q))
  {
    hide Shuffled, Orderly, SentByVertex, AllOf, Select, MapRecords;
    var sources := JobRuns(q.job, q.marks);
    JobIsSound(q.job, q.marks);
    MappedAll(KeepBids(q.bidOf), sources, q.hash, q.marks, q.filtered);
    KeptAreBids(q.bidOf, JobData(q.job));
  }

  /** The count has one row for each auction's window with a bid, holding all its bids, and none
      for any other. */
  lemma {:induction false} CountVertex(q: HotJob) returns (rows: seq<Row>)
    requires Counted(q)
    ensures AllSound(CountsSent(q), q.marks)
    ensures AllOf(CountsSent(q), q.marks) == EmittedAll(q.Stage1(), rows)
    ensures forall p :: HasItsRow(rows, p, BidsIn(q, p))
  {
    hide Shuffled, SentByVertex, AllOf, Select, Filtered, BidsIn, RowsOf, AllRows, EmitRows, ValidSpec, Windowed, BidsSent;
    var w := Counting(q.size, q.slide, q.lateness);
    BidsVertex(q);
    CountingIsValid(q.size, q.slide, q.lateness);
    CountingIsKeyed(q.size, q.slide, q.lateness);
    VertexEmits(w, BidsSent(q), q.hash, q.marks, q.counted);
    rows := AllRows(w, q.marks, q.counted);
    EmitsOnePerRow(w.conf, rows);
    forall p ensures HasItsRow(rows, p, BidsIn(q, p)) {
      VertexRows(w, BidsSent(q), q.hash, q.marks, q.counted, p);
      OwnBids(q, p);
    }
  }

  /** The records a pane is given are the bids of its auction's window. */
  lemma {:induction false} OwnBids(q: HotJob, p: Pane)
    requires Filtered(q) && AllSound(BidsSent(q), q.marks)
    requires multiset(AllOf(BidsSent(q), q.marks)) == multiset(AllBids(q))
    ensures var own := Select(AllOf(BidsSent(q), q.marks), Given(Counting(q.size, q.slide, q.lateness), p));
            multiset(own) == multiset(BidsIn(q, p)) && (own == [] <==> BidsIn(q, p) == [])
  {
    hide Select, AllOf, BidsSent, Given, OfPane, ValidSpec, AllBids, Filtered;
    var all := AllOf(BidsSent(q), q.marks);
    GivenIsOfPane(q.size, q.slide, q.lateness, all, p);
    SelectBag(all, AllBids(q), OfPane(q.size, q.slide, p));
    SameSize(Select(all, OfPane(q.size, q.slide, p)), BidsIn(q, p));
  }

  lemma {:induction false} SameSize(a: seq<Record>, b: seq<Record>)
    requires multiset(a) == multiset(b)
    ensures |a| == |b|
  {
    assert |multiset(a)| == |a| && |multiset(b)| == |b|;
  }

  lemma {:induction false} SelectedOne(rs: seq<Record>, keep: Record -> bool)
    requires Select(rs, keep) != []
    ensures exists r :: r in rs && keep(r)
  {
    if keep(rs[|rs| - 1]) {
      assert rs[|rs| - 1] in rs;
    } else {
      SelectedOne(rs[..|rs| - 1], keep);
    }
  }

  lemma {:induction false} SelectShorter(rs: seq<Record>, keep: Record -> bool)
    ensures |Select(rs, keep)| <= |rs|
  {
    if rs != [] {
      SelectShorter(rs[..|rs| - 1], keep);
    }
  }

  lemma {:induction false} RowInRowsOf(rows: seq<Row>, i: nat)
    requires i < |rows|
    ensures rows[i] in RowsOf(rows, rows[i].pane)
  {
    var a, b := rows[..i + 1], rows[i + 1..];
    RowsOfConcat(a, b, rows[i].pane);
    assert a + b == rows;
    assert a[|a| - 1] == rows[i];
  }

  /** Every row of the count is for an auction's window that a bid belongs to. */
  lemma {:induction false} CountsAreOrdinary(q: HotJob, rows: seq<Row>)
    requires ValidJob(q.job) && q.WellSpecified() && OrdinaryBids(q) && forall p :: HasItsRow(rows, p, BidsIn(q, p))
    ensures forall i :: 0 <= i < |rows| ==> OrdinaryRow(q.Stage1(), rows[i])
  {
    hide WindowsFor, ValidSpec, Select, RowsOf, AllBids;
    forall i: nat | i < |rows| ensures OrdinaryRow(q.Stage1(), rows[i]) {
      RowInRowsOf(rows, i);
      assert HasItsRow(rows, rows[i].pane, BidsIn(q, rows[i].pane));
      SelectedOne(AllBids(q), OfPane(q.size, q.slide, rows[i].pane));
    }
  }

  /** The re-key refuses nothing and sends on every row, on time. */
  lemma {:induction false} RekeyVertex(q: HotJob, rows: seq<Row>)
    requires Rekeyed(q) && OrdinaryBids(q)
    requires AllSound(CountsSent(q), q.marks) && AllOf(CountsSent(q), q.marks) == EmittedAll(q.Stage1(), rows)
    requires forall p :: HasItsRow(rows, p, BidsIn(q, p))
    ensures forall rec :: rec in AllOf(CountsSent(q), q.marks) ==> Rekey(q.size, rec).Some?
    ensures AllSound(RekeyedSent(q), q.marks)
    ensures multiset(AllOf(RekeyedSent(q), q.marks)) == multiset(AllRekeyed(q.Stage1(), rows))
  {
    hide Shuffled, SentByVertex, AllOf, Filtered, BidsIn, HasItsRow, CountsSent, OrdinaryBids, OrdinaryRow, EmittedAll, Rekey, BidsSent;
    RekeyKeepsTimes(q.size);
    MappedAll(Rekeying(q.size), CountsSent(q), q.hash, q.marks, q.rekeyed);
    CountsAreOrdinary(q, rows);
    RowsRekey(q.Stage1(), rows);
  }

  /** The ranking stage refuses nothing and drops nothing, and has one row for each window with a
      count, holding all its counts. */
  lemma {:induction false} RankVertex(q: HotJob, rows: seq<Row>) returns (ranks: seq<Row>)
    requires Ranked(q) && OrdinaryBids(q)
    requires AllSound(RekeyedSent(q), q.marks)
    requires multiset(AllOf(RekeyedSent(q), q.marks)) == multiset(AllRekeyed(q.Stage1(), rows))
    ensures AllSound(RanksSent(q), q.marks)
    ensures AllOf(RanksSent(q), q.marks) == EmitRows(RankEmits(q.Stage2()), ranks)
    ensures forall p :: HasItsRow(ranks, p, Select(AllRekeyed(q.Stage1(), rows), Given(Ranking(q.size, q.lateness2), p)))
    ensures forall j :: 0 <= j < |q.ranked| ==> DropsNothing(q, j)
  {
    hide Shuffled, SentByVertex, AllOf, Select, Filtered, BidsIn, RowsOf, AllRows, EmitRows, ValidSpec, Windowed, RekeyedSent, CountsSent, BidsSent, OrdinaryBids, RekeyedRow, RankedRow, RankedIn, Run, StepsOf, Effective;
    var w := Ranking(q.size, q.lateness2);
    var sent := RekeyedSent(q);
    RankingIsValid(q.size, q.lateness2);
    VertexEmits(w, sent, q.hash, q.marks, q.ranked);
    ranks := AllRows(w, q.marks, q.ranked);
    var mid := AllRekeyed(q.Stage1(), rows);
    forall p ensures HasItsRow(ranks, p, Select(mid, Given(w, p))) {
      VertexRows(w, sent, q.hash, q.marks, q.ranked, p);
      SelectBag(AllOf(sent, q.marks), mid, Given(w, p));
      SameSize(Select(AllOf(sent, q.marks), Given(w, p)), Select(mid, Given(w, p)));
    }
    forall j: nat | j < |q.ranked| ensures DropsNothing(q, j) {
      SubtaskRows(w, sent, q.hash, q.marks, q.ranked, j, HotPane(0));
    }
  }

  /** No record came too late for the j-th ranking subtask. */
  ghost predicate DropsNothing(q: HotJob, j: nat)
    requires q.WellSpecified() && j < |q.ranked|
  {
    var w := Ranking(q.size, q.lateness2);
    |q.ranked[j]| == |q.marks| + 1 && Run(w.conf, StepsOf(w, Effective(q.ranked[j], q.marks))).state.dropped == 0
  }

  // ----- The answer ----------------------------------------------------------------------------

  /** The auctions with the most bids in a window, each once and in ascending order, and how many
      those are; none if the window has no bid. */
  ghost predicate MostBidOn(q: HotJob, s: int64, max: int64, winners: seq<uint64>)
    requires ValidJob(q.job) && q.WellSpecified()
  {
    && (forall i, k :: 0 <= i < k < |winners| ==> winners[i] < winners[k])
    && (forall a: uint64 :: a in winners <==>
          && BidsIn(q, Pane(Uint64Bytes(a), s)) != []
          && forall b: uint64 :: |BidsIn(q, Pane(Uint64Bytes(b), s))| <= |BidsIn(q, Pane(Uint64Bytes(a), s))|)
    && (forall a: uint64 :: a in winners ==> |BidsIn(q, Pane(Uint64Bytes(a), s))| == max)
  }

  /** The records a window is ranked on: those of its one row, if it has one. */
  function RankedOn(ranks: seq<Row>, s: int64): seq<Record> {
    var found := RowsOf(ranks, HotPane(s));
    if found == [] then [] else found[0].records
  }

  /** The counts of a window are the numbers of bids of its auctions. */
  lemma {:induction false} CountsAreBids(q: HotJob, rows: seq<Row>, s: int64, a: uint64, rs: seq<Record>)
    requires ValidJob(q.job) && q.WellSpecified() && OrdinaryBids(q) && forall p :: HasItsRow(rows, p, BidsIn(q, p))
    requires multiset(rs) == multiset(Select(AllRekeyed(q.Stage1(), rows), KeyedBy(s)))
    ensures var n := |BidsIn(q, Pane(Uint64Bytes(a), s))|; (a in Latest(rs) <==> n > 0) && (a in Latest(rs) ==> Latest(rs)[a] == n)
  {
    hide ValidSpec, Select, AllBids, OfPane, KeyedBy, Latest, RekeyedRow, OrdinaryRow, BidsIn, RowsOf;
    var p := Pane(Uint64Bytes(a), s);
    var own := RowsOf(rows, p);
    assert HasItsRow(rows, p, BidsIn(q, p));
    CountsAreOrdinary(q, rows);
    RowOfRows(rows, p);
    forall row | row in own ensures row.pane == p && |row.records| == |BidsIn(q, p)| && OrdinaryRow(q.Stage1(), row) {
      SameSize(row.records, BidsIn(q, p));
    }
    FewBids(q, p);
    RankedOnCounts(q.Stage1(), rows, s, a, rs, |BidsIn(q, p)|);
  }

  lemma {:induction false} FewBids(q: HotJob, p: Pane)
    requires ValidJob(q.job) && q.WellSpecified() && OrdinaryBids(q)
    ensures |BidsIn(q, p)| <= MAX_INT64
  {
    hide ValidSpec, OfPane;
    SelectShorter(AllBids(q), OfPane(q.size, q.slide, p));
  }

  lemma {:induction false} RowOfRows(rows: seq<Row>, p: Pane)
    ensures forall r :: r in RowsOf(rows, p) ==> r in rows
  {
    if rows != [] {
      RowOfRows(rows[..|rows| - 1], p);
    }
  }

  /** So what is hottest by them is what has the most bids. */
  lemma {:induction false} HottestIsMostBidOn(q: HotJob, rows: seq<Row>, s: int64, rs: seq<Record>)
    requires ValidJob(q.job) && q.WellSpecified() && OrdinaryBids(q) && forall p :: HasItsRow(rows, p, BidsIn(q, p))
    requires multiset(rs) == multiset(Select(AllRekeyed(q.Stage1(), rows), KeyedBy(s)))
    ensures MostBidOn(q, s, Hottest(Latest(rs)).max, Hottest(Latest(rs)).winners)
  {
    hide ValidSpec, Select, KeyedBy, Latest, AllRekeyed, BidsIn, OrdinaryBids, HasItsRow;
    var counts := Latest(rs);
    var w := Hottest(counts);
    forall a: uint64
      ensures (a in counts <==> BidsIn(q, Pane(Uint64Bytes(a), s)) != []) && (a in counts ==> counts[a] == |BidsIn(q, Pane(Uint64Bytes(a), s))|)
    {
      CountsAreBids(q, rows, s, a, rs);
    }
    forall a: uint64
      ensures a in w.winners <==>
              && BidsIn(q, Pane(Uint64Bytes(a), s)) != []
              && forall b: uint64 :: |BidsIn(q, Pane(Uint64Bytes(b), s))| <= |BidsIn(q, Pane(Uint64Bytes(a), s))|
    {
      if BidsIn(q, Pane(Uint64Bytes(a), s)) != [] && w.winners != [] {
        assert w.winners[0] in w.winners;
      }
    }
  }

  /** Every row of the ranking stage is for a window with a representable end. */
  lemma {:induction false} RanksAreOrdinary(q: HotJob, rows: seq<Row>, ranks: seq<Row>)
    requires q.WellSpecified() && forall i :: 0 <= i < |rows| ==> OrdinaryRow(q.Stage1(), rows[i])
    requires forall p :: HasItsRow(ranks, p, Select(AllRekeyed(q.Stage1(), rows), Given(Ranking(q.size, q.lateness2), p)))
    ensures forall i :: 0 <= i < |ranks| ==> OrdinaryWindow(q.Stage2(), ranks[i])
  {
    hide ValidSpec, Select, RowsOf, RekeyedRow, OrdinaryRow, Refuses, WindowKey;
    var mid := AllRekeyed(q.Stage1(), rows);
    forall i: nat | i < |ranks| ensures OrdinaryWindow(q.Stage2(), ranks[i]) {
      var p := ranks[i].pane;
      RowInRowsOf(ranks, i);
      assert HasItsRow(ranks, p, Select(mid, Given(Ranking(q.size, q.lateness2), p)));
      SelectedOne(mid, Given(Ranking(q.size, q.lateness2), p));
      var r :| r in mid && Given(Ranking(q.size, q.lateness2), p)(r);
      RekeyedIsAccepted(q.Stage1(), q.lateness2, rows, r);
      var s: int64 :| r.key == WindowKey(s) && s + q.size - 1 <= MAX_INT64;
      Int64RoundTripOfKey(s);
    }
  }

  lemma {:induction false} Int64RoundTripOfKey(s: int64)
    ensures WindowKeyStart(WindowKey(s)) == Some(s)
  {
    Int64RoundTrip(s);
  }

  /** What the query says of the window that ends at `t`: its rows are those of the auctions with
      the most bids in it; there is no such window if its start is not representable. */
  ghost predicate Answers(q: HotJob, t: int64, out: seq<Record>)
    requires ValidJob(q.job) && q.WellSpecified()
  {
    var s := t - (q.size - 1);
    if s < MIN_INT64 then out == []
    else exists w: HotWindow :: MostBidOn(q, s, w.max, w.winners) && out == HotRows(q.Stage2(), s, w)
  }

  lemma {:induction false} RanksAnswer(q: HotJob, rows: seq<Row>, ranks: seq<Row>, t: int64)
    requires ValidJob(q.job) && q.WellSpecified() && OrdinaryBids(q) && forall p :: HasItsRow(rows, p, BidsIn(q, p))
    requires forall p :: HasItsRow(ranks, p, Select(AllRekeyed(q.Stage1(), rows), Given(Ranking(q.size, q.lateness2), p)))
    ensures Answers(q, t, Select(EmitRows(RankEmits(q.Stage2()), ranks), AtTime(t)))
  {
    hide ValidSpec, Select, RowsOf, RekeyedRow, OrdinaryRow, BidsIn, OrdinaryBids, MostBidOn, EmitRows, Given, HotRows, Latest, OrdinaryWindow, AllRekeyed, KeyedBy;
    CountsAreOrdinary(q, rows);
    RanksAreOrdinary(q, rows, ranks);
    RowsAtTime(q.Stage2(), ranks, t);
    var s := t - (q.size - 1);
    if s >= MIN_INT64 {
      assert HasItsRow(ranks, HotPane(s), Select(AllRekeyed(q.Stage1(), rows), Given(Ranking(q.size, q.lateness2), HotPane(s))));
      GivenIsKeyedBy(q.Stage1(), q.lateness2, rows, s);
      var rs := RankedOn(ranks, s);
      HottestIsMostBidOn(q, rows, s, rs);
      OneRowEmits(q.Stage2(), RowsOf(ranks, HotPane(s)), s);
    }
  }

  lemma {:induction false} OneRowEmits(c: Config, found: seq<Row>, s: int64)
    requires ValidConfig(c) && |found| <= 1 && forall row :: row in found ==> row.pane == HotPane(s)
    ensures EmitRows(RankEmits(c), found) == HotRows(c, s, Hottest(Latest(if found == [] then [] else found[0].records)))
  {
    if found == [] {
      assert Hottest(Latest([])).winners == [];
    } else {
      assert found[..0] == [];
    }
  }

  /** The query's answer. Whatever crashed and whenever, at any parallelism, on sources no more out
      of order than they declare: once a run has succeeded, what the sink has committed for the
      window that ends at any moment is what is routed to it of that window's answer, the auctions
      with the most bids and their number, each once. */
  lemma {:induction false} HottestAreTheMostBidOn(q: HotJob, mine: Record -> bool, sink: SinkRuns, staged: Commit.Epochs) returns (answer: seq<Record>)
    requires Ranked(q) && OrdinaryBids(q) && sink.Valid() && Leavings(staged) && sink.Marks() == q.marks
    requires Receives(RanksSent(q), mine, q.marks, sink.Received())
    ensures multiset(sink.Committed(staged)) == multiset(Select(answer, mine))
    ensures forall t: int64 :: Answers(q, t, Select(answer, AtTime(t)))
  {
    hide ValidSpec, Select, RowsOf, OrdinaryBids, Filtered, EmitRows, RanksSent, RekeyedSent, CountsSent, BidsSent, AllRekeyed, BidsIn, AtTime, Answers, HasItsRow,
         DropsNothing, Receives, AllOf, Given, EmittedAll;
    var rows := CountVertex(q);
    RekeyVertex(q, rows);
    var ranks := RankVertex(q, rows);
    SoundEnds(RanksSent(q), q.marks);
    CommittedIsSent(RanksSent(q), mine, sink, staged);
    RoutedIsSelected(RanksSent(q), mine, q.marks);
    answer := EmitRows(RankEmits(q.Stage2()), ranks);
    forall t: int64 ensures Answers(q, t, Select(answer, AtTime(t))) {
      RanksAnswer(q, rows, ranks, t);
    }
  }

  /** On the way nothing is refused and nothing dropped: every count can be re-keyed, the ranking
      stage accepts all it is sent, and none of it comes too late. */
  lemma {:induction false} NothingRefused(q: HotJob)
    requires Ranked(q) && OrdinaryBids(q)
    ensures forall rec :: rec in AllOf(CountsSent(q), q.marks) ==> Rekey(q.size, rec).Some?
    ensures forall rec :: rec in AllOf(RekeyedSent(q), q.marks) ==> !Refuses(q.Stage2(), rec)
    ensures forall j :: 0 <= j < |q.ranked| ==> DropsNothing(q, j)
  {
    hide ValidSpec, Select, RowsOf, Filtered, EmitRows, RanksSent, RekeyedSent, CountsSent, BidsSent, BidsIn, HasItsRow,
         DropsNothing, AllOf, Given, EmittedAll, Refuses, Rekey, OrdinaryBids, OrdinaryRow, RekeyedRow;
    var rows := CountVertex(q);
    RekeyVertex(q, rows);
    var _ := RankVertex(q, rows);
    CountsAreOrdinary(q, rows);
    forall rec | rec in AllOf(RekeyedSent(q), q.marks) ensures !Refuses(q.Stage2(), rec) {
      assert rec in multiset(AllRekeyed(q.Stage1(), rows));
      RekeyedIsAccepted(q.Stage1(), q.lateness2, rows, rec);
    }
  }
}
