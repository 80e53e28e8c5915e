/** Windowed counting across crashes: sources, any number of counting subtasks and a transactional
    sink, and what the sink has committed once a run has succeeded. */
module WindowRecovery {
  import opened Int64
  import opened Elements
  import opened CrashedRuns
  import opened Stages
  import opened Operators
  import GR = GateRecords
  import opened Vertices
  import Src = Source
  import opened Recovery
  import opened RecoveryRuns
  import opened ExactlyOnce
  import Commit = TwoPhaseCommit
  import opened WindowAssign
  import opened WindowCounting
  import opened WindowKeys
  import opened WindowMachine
  import opened WindowOperators
  import opened WindowStream
  import opened WindowVertices

  /** No source is more out of order than its vertex declares. */
  ghost predicate Orderly(job: Job) {
    forall i :: 0 <= i < |job| ==> Src.BoundedDisorder(job[i].config, job[i].start)
  }

  /** The data of all the sources, one after the other. */
  function JobData(job: Job): seq<Record>
    requires forall i :: 0 <= i < |job| ==> ValidSource(job[i])
  {
    GR.Flat(seq(|job|, i requires 0 <= i < |job| => DataOf(job[i])))
  }

  function DataOf(s: SourceSubtask): seq<Record>
    requires ValidSource(s)
  {
    s.config.data[s.start..s.config.end]
  }

  /** What is left of the sources' runs is their data, and none of it is late. */
  lemma {:induction false} JobIsSound(job: Job, marks: seq<nat>)
    requires ValidJob(job) && Orderly(job)
    ensures AllSound(JobRuns(job, marks), marks) && AllOf(JobRuns(job, marks), marks) == JobData(job)
  {
    hide Records, SourceRuns, Effective, Punctual, WellFormed, Src.BoundedDisorder;
    forall i: nat | i < |job| ensures Sound(SourceRuns(job[i], marks), marks) {
      SourceIsSound(job[i], marks);
    }
    var xs := seq(|job|, i requires 0 <= i < |job| => DataOf(job[i]));
    var ys := seq(|job|, i requires 0 <= i < |job| => Records(Effective(JobRuns(job, marks)[i], marks)));
    forall i: nat | i < |job| ensures xs[i] == ys[i] {
      EffectiveIsData(job[i], marks);
    }
    assert xs == ys;
  }

  /** The job: sources, the subtasks of a windowed vertex fed by the hash of a record's key, and one
      sink subtask fed by whatever routing is behind them, all resumed at the checkpoints the sink
      is restored at. */
  ghost predicate WindowedJob(job: Job, hash: Bytes -> nat, received: seq<seq<seq<Element>>>, w: Windows, mine: Record -> bool, sink: SinkRuns)
    requires ValidConfig(w.conf)
  {
    && ValidJob(job) && Orderly(job) && sink.Valid()
    && Shuffled(JobRuns(job, sink.Marks()), hash, sink.Marks(), received)
    && (ShuffledResumable(JobRuns(job, sink.Marks()), hash, sink.Marks(), received);
        Receives(SentByVertex(Windowed(w), sink.Marks(), received), mine, sink.Marks(), sink.Received()))
  }

  lemma {:induction false} JobIsValid(job: Job, hash: Bytes -> nat, received: seq<seq<seq<Element>>>, w: Windows, mine: Record -> bool, sink: SinkRuns)
    requires ValidConfig(w.conf) && WindowedJob(job, hash, received, w, mine, sink)
    ensures ValidJob(job)
  {}

  /** `own` are a pane's records: it has one row, with exactly those, or none if there are none. */
  ghost predicate HasItsRow(rows: seq<Row>, p: Pane, own: seq<Record>) {
    var found := RowsOf(rows, p);
    if own == [] then found == [] else |found| == 1 && found[0].pane == p && multiset(found[0].records) == multiset(own)
  }

  /** Whatever crashed and whenever: once a run has succeeded, the sink has committed what the rows
      of the windowed vertex emit and is routed to it, each record once; and over all its subtasks
      the vertex has one row for each pane that was given source data, holding exactly that. */
  lemma {:induction false} CommittedRows(job: Job, hash: Bytes -> nat, received: seq<seq<seq<Element>>>, w: Windows, mine: Record -> bool, sink: SinkRuns, staged: Commit.Epochs)
    returns (rows: seq<Row>)
    requires ValidWindows(w) && KeyedPanes(w) && WindowedJob(job, hash, received, w, mine, sink) && Leavings(staged)
    ensures multiset(sink.Committed(staged)) == multiset(Select(EmitRows(w.emits, rows), mine))
    ensures forall p :: HasItsRow(rows, p, Select(JobData(job), Given(w, p)))
  {
    hide Records, Run, StepsOf, Select, RowsOf, GR.Bag, GR.Flat, Orderly, Windowed, Receives, Effective, Punctual, SentRuns, Resumable,
         EmitRows, AllRows, Sound, ValidWindows;
    var marks := sink.Marks();
    var sources := JobRuns(job, marks);
    ConfigIsValid(w);
    JobIsSound(job, marks);
    ShuffledResumable(sources, hash, marks, received);
    VertexEmits(w, sources, hash, marks, received);
    rows := AllRows(w, marks, received);
    var sent := SentByVertex(Windowed(w), marks, received);
    SoundEnds(sent, marks);
    CommittedIsSent(sent, mine, sink, staged);
    RoutedIsSelected(sent, mine, marks);
    forall p ensures HasItsRow(rows, p, Select(JobData(job), Given(w, p))) {
      VertexRows(w, sources, hash, marks, received, p);
    }
  }

  lemma {:induction false} SoundEnds(sent: seq<seq<seq<Element>>>, marks: seq<nat>)
    requires AllSound(sent, marks)
    ensures forall i :: 0 <= i < |sent| ==> |sent[i]| == |marks| + 1 && Ended(sent[i][|marks|])
  {}

  // ----- Counts --------------------------------------------------------------------------------

  lemma {:induction false} CountingIsKeyed(size: int64, slide: int64, lateness: int64)
    requires ValidSpec(size, slide) && lateness >= 0
    ensures KeyedPanes(Counting(size, slide, lateness))
  {
    hide WindowsFor, ValidSpec;
  }

  /** Exactly-once windowed counts. Once a run has succeeded the sink has committed the rows routed
      to it, each once; and over all counting subtasks there is exactly one row for each key and
      window that has data, carrying the number of source records in it, and no other row. */
  lemma {:induction false} ExactlyOnceCounts(job: Job, hash: Bytes -> nat, counted: seq<seq<seq<Element>>>,
                                             size: int64, slide: int64, lateness: int64, mine: Record -> bool, sink: SinkRuns, staged: Commit.Epochs)
    returns (rows: seq<Row>)
    requires ValidSpec(size, slide) && lateness >= 0
    requires WindowedJob(job, hash, counted, Counting(size, slide, lateness), mine, sink) && Leavings(staged)
    ensures multiset(sink.Committed(staged)) == multiset(Select(EmittedAll(Config(size, lateness), rows), mine))
    ensures forall p :: OneRowFor(Config(size, lateness), rows, p, |Select(JobData(job), OfPane(size, slide, p))|)
  {
    JobIsValid(job, hash, counted, Counting(size, slide, lateness), mine, sink);
    hide Select, RowsOf, Emitted, WindowsFor, PanesFor, EmitRows, OfPane, WindowedJob, JobData;
    var w := Counting(size, slide, lateness);
    CountingIsValid(size, slide, lateness);
    CountingIsKeyed(size, slide, lateness);
    rows := CommittedRows(job, hash, counted, w, mine, sink, staged);
    EmitsOnePerRow(w.conf, rows);
    forall p ensures OneRowFor(w.conf, rows, p, |Select(JobData(job), OfPane(size, slide, p))|) {
      GivenIsOfPane(size, slide, lateness, JobData(job), p);
      RowHolds(w.conf, rows, p, Select(JobData(job), OfPane(size, slide, p)));
    }
  }

  /** One row for the pane if it has records, none otherwise, carrying how many and the window's
      last instant. */
  ghost predicate OneRowFor(c: Config, rows: seq<Row>, p: Pane, n: nat)
    requires ValidConfig(c)
  {
    && |RowsOf(rows, p)| == (if n > 0 then 1 else 0)
    && forall row :: row in RowsOf(rows, p) ==> Emitted(c, row) == Record(p.key, CountBytes(n), FireTime(c, p.start))
  }

  lemma {:induction false} RowHolds(c: Config, rows: seq<Row>, p: Pane, own: seq<Record>)
    requires ValidConfig(c) && HasItsRow(rows, p, own)
    ensures OneRowFor(c, rows, p, |own|)
  {
    hide RowsOf, FireTime;
    if own != [] {
      var r := RowsOf(rows, p)[0].records;
      assert |multiset(r)| == |r| && |multiset(own)| == |own|;
    }
  }
}
