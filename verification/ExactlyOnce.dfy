/** The transactional sink at the end of a job: what one that succeeds has committed. */
module ExactlyOnce {
  import opened Elements
  import opened CrashedRuns
  import opened Stages
  import GR = GateRecords
  import Commit = TwoPhaseCommit
  import Sink = SinkStreams
  import opened Recovery
  import opened RecoveryRuns

  /** All the runs of one sink subtask: crashed runs and interrupted restores, notifications lost
      or repeated, and a last run that is restored, reads its input to the end and succeeds. */
  datatype SinkRuns = SinkRuns(past: Sink.Past, received: seq<Element>, events: seq<Commit.Event>) {
    function Received(): seq<seq<Element>> { Sink.RunsOf(past) + [received] }

    function Marks(): seq<nat> { Sink.MarksOf(past) }

    function Events(): seq<Commit.Event> { Sink.EventsOf(past) + [Commit.Restore] + events + [Commit.Succeed] }

    ghost predicate Valid() {
      Sink.ValidPast(past) && Sink.Drives(received, events) && Commit.ValidEvents(Events())
    }

    /** The highest epoch of the last run. */
    function Last(): int { Sink.Resume(past) + 1 + NumBarriers(received) }

    /** What is committed once the last run has succeeded, epoch after epoch. */
    function Committed(leavings: Commit.Epochs): seq<Record> {
      Sink.Content(Commit.RunOf(leavings, Events()).disk.committed, 0, Last())
    }
  }

  /** Staging may hold the leavings of dead runs. */
  predicate Leavings(staged: Commit.Epochs) {
    forall e :: e in staged ==> e >= 1
  }

  /** Exactly once at the sink, for whatever vertices are upstream of it: a job that succeeds has
      committed exactly the records left of what they sent that are routed to this subtask, and in
      no epoch that it did not write. */
  lemma {:induction false} CommittedIsSent(sent: seq<seq<seq<Element>>>, mine: Record -> bool, sink: SinkRuns, staged: Commit.Epochs)
    requires sink.Valid() && Leavings(staged)
    requires Receives(sent, mine, sink.Marks(), sink.Received()) && forall i :: 0 <= i < |sent| ==> Ended(sent[i][|sink.Marks()|])
    ensures multiset(sink.Committed(staged)) == GR.Bag(RoutedRecords(sent, mine, sink.Marks()))
    ensures forall e :: e in Commit.RunOf(staged, sink.Events()).disk.committed ==> 1 <= e <= sink.Last()
  {
    hide Sink.EventsOf, Sink.Drives, Commit.RunOf, Sink.Content, Records, GR.Bag, Commit.ValidEvents, Sink.RunsOf, Sink.MarksOf, Receives;
    Sink.CommittedIsEffective(staged, sink.past, sink.received, sink.events);
    StageRecords(sent, mine, sink.Marks(), sink.Received());
  }

  /** What a sink fed by sources has kept of all crashed runs is exactly the source records below
      the positions of the checkpoint the next run resumes at. */
  lemma {:induction false} SurvivingIsTheCut(job: Job, mine: Record -> bool, past: Sink.Past)
    requires ValidJob(job) && Sink.ValidPast(past)
    requires ReceivesCrashed(JobRuns(job, Sink.MarksOf(past)), mine, Sink.MarksOf(past), Sink.RunsOf(past))
    ensures Sink.Resume(past) >= 0 && IsTheCut(job, mine, Sink.Resume(past), Sink.Surviving(past))
  {
    hide IsTheCut, Sink.Resume, Records, Sink.EventsOf, Sink.MarksOf, Sink.RunsOf, ReceivesCrashed, Kept, JobRuns;
    Sink.OwnedIsSurviving(past);
    KeptIsTheCut(job, mine, Sink.MarksOf(past), Sink.RunsOf(past));
  }

  /** Exactly once, end to end. Let any number of runs crash, each resuming sources and sink at the
      highest complete checkpoint, with inputs interleaved in any way. A run that then reads every
      stream to its end and succeeds leaves committed every record of every source routed to this
      sink exactly once. */
  lemma {:induction false} OutputIsTheInput(job: Job, mine: Record -> bool, sink: SinkRuns, staged: Commit.Epochs)
    requires ValidJob(job) && sink.Valid() && Leavings(staged)
    requires Receives(JobRuns(job, sink.Marks()), mine, sink.Marks(), sink.Received())
    ensures multiset(sink.Committed(staged)) == GR.Bag(WholeInput(job, mine))
    ensures forall e :: e in Commit.RunOf(staged, sink.Events()).disk.committed ==> 1 <= e <= sink.Last()
  {
    hide Sink.EventsOf, Sink.Drives, Commit.RunOf, Sink.Content, Records, GR.Bag, Commit.ValidEvents, Sink.RunsOf, Sink.MarksOf, Receives, JobRuns;
    Sink.CommittedIsEffective(staged, sink.past, sink.received, sink.events);
    EffectiveIsTheInput(job, mine, sink.Marks(), sink.Received());
  }
}
