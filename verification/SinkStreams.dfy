/** What a sink subtask commits, as a stream: the records of the stretches that survived, in the
    order they were received. */
module SinkStreams {
  import opened Elements
  import opened CrashedRuns
  import opened TwoPhaseCommit

  /** The records of the epochs after `from` up to `last`, epoch after epoch. */
  function Content(m: Epochs, from: int, last: int): seq<Record>
    decreases last - from
  {
    if last <= from then [] else Content(m, from, last - 1) + (if last in m then m[last] else [])
  }

  /** The sink takes what it receives in order, with completions and notifications coming at any
      moment in between. Watermarks and the end of stream ask nothing of it. */
  predicate Drives(received: seq<Element>, events: seq<Event>)
    decreases |received| + |events|
  {
    if events != [] && (events[|events| - 1].Completes? || events[|events| - 1].Notify?) then
      Drives(received, events[..|events| - 1])
    else if received == [] then events == []
    else
      var init := received[..|received| - 1];
      match received[|received| - 1]
      case RecordElement(rec) => events != [] && events[|events| - 1] == Write(rec) && Drives(init, events[..|events| - 1])
      case BarrierElement(_, _) => events != [] && events[|events| - 1] == Barrier && Drives(init, events[..|events| - 1])
      case WatermarkElement(_) => Drives(init, events)
      case EndOfStream => Drives(init, events)
  }

  /** Crashed runs and interrupted restores, oldest first. */
  datatype Past =
    | Begin
    | Crashed(before: Past, received: seq<Element>, events: seq<Event>, tail: Option<seq<Record>>)
    | Interrupted(before: Past, settled: set<int>)

  function EventsOf(past: Past): seq<Event> {
    match past
    case Begin => []
    case Crashed(before, _, events, tail) => EventsOf(before) + [Restore] + events + [Crash(tail)]
    case Interrupted(before, settled) => EventsOf(before) + [InterruptedRestore(settled)]
  }

  /** The highest complete checkpoint: where the next run is restored. */
  function Resume(past: Past): int {
    LedgerOf(EventsOf(past)).highest
  }

  ghost predicate ValidPast(past: Past) {
    && ValidEvents(EventsOf(past))
    && match past
       case Begin => true
       case Crashed(before, received, events, _) => ValidPast(before) && Drives(received, events)
       case Interrupted(before, _) => ValidPast(before)
  }

  /** What the sink received in each crashed run, and how far past the checkpoint it was restored
      at the run after it was restored. */
  function RunsOf(past: Past): seq<seq<Element>> {
    match past
    case Begin => []
    case Crashed(before, received, _, _) => RunsOf(before) + [received]
    case Interrupted(before, _) => RunsOf(before)
  }

  function MarksOf(past: Past): (marks: seq<nat>)
    ensures |marks| == |RunsOf(past)|
  {
    match past
    case Begin => []
    case Crashed(before, _, _, _) => MarksOf(before) + [if Resume(past) < Resume(before) then 0 else Resume(past) - Resume(before)]
    case Interrupted(before, _) => MarksOf(before)
  }

  /** The records of what is left of the crashed runs. */
  function Surviving(past: Past): seq<Record> {
    Records(Kept(RunsOf(past), MarksOf(past)))
  }

  // ----- Contents --------------------------------------------------------------------------

  lemma {:induction false} ContentSame(m: Epochs, m': Epochs, from: int, last: int)
    requires forall e :: from < e <= last ==> (e in m <==> e in m') && (e in m ==> m[e] == m'[e])
    ensures Content(m, from, last) == Content(m', from, last)
    decreases last - from
  {
    if from < last {
      ContentSame(m, m', from, last - 1);
    }
  }

  lemma {:induction false} ContentSplit(m: Epochs, from: int, mid: int, last: int)
    requires from <= mid <= last
    ensures Content(m, from, last) == Content(m, from, mid) + Content(m, mid, last)
    decreases last - mid
  {
    if mid < last {
      ContentSplit(m, from, mid, last - 1);
      var tail := if last in m then m[last] else [];
      assert (Content(m, from, mid) + Content(m, mid, last - 1)) + tail == Content(m, from, mid) + (Content(m, mid, last - 1) + tail);
    } else {
      assert Content(m, from, mid) + [] == Content(m, from, mid);
    }
  }

  lemma {:induction false} ContentOfNone(m: Epochs, from: int, last: int)
    requires forall e :: e !in m
    ensures Content(m, from, last) == []
    decreases last - from
  {
    if from < last {
      ContentOfNone(m, from, last - 1);
    }
  }

  // ----- One run ---------------------------------------------------------------------------

  function NoteAll(l: Ledger, events: seq<Event>): Ledger {
    if events == [] then l else Note(NoteAll(l, events[..|events| - 1]), events[|events| - 1])
  }

  lemma {:induction false} LedgerAppend(a: seq<Event>, b: seq<Event>)
    ensures LedgerOf(a + b) == NoteAll(LedgerOf(a), b)
  {
    hide Note;
    if b == [] {
      assert a + b == a;
    } else {
      LedgerAppend(a, b[..|b| - 1]);
      assert (a + b)[..|a + b| - 1] == a + b[..|b| - 1];
    }
  }

  /** After a run from checkpoint `k` has received `received`, its epochs up to any of its barriers
      hold what came before that barrier. */
  ghost predicate Holds(l: Ledger, k: int, received: seq<Element>) {
    && l.epoch == k + 1 + NumBarriers(received)
    && (forall e :: e in l.current ==> e <= l.epoch)
    && forall j: nat :: j <= NumBarriers(received) + 1 ==> Content(l.current, k, k + j) == Records(CutAt(received, j))
  }

  lemma {:induction false} WholeCut(s: seq<Element>, j: nat)
    requires j > NumBarriers(s)
    ensures CutAt(s, j) == s
  {}

  lemma {:induction false} WriteHolds(l: Ledger, k: int, received: seq<Element>, rec: Record)
    requires Holds(l, k, received)
    ensures Holds(Note(l, Write(rec)), k, received + [RecordElement(rec)])
  {
    hide NumBarriers, CutAt, Records;
    var e := RecordElement(rec);
    var l' := Note(l, Write(rec));
    NumBarriersAppend(received, e);
    RecordsAppend(received, e);
    forall j: nat | j <= NumBarriers(received) + 1 ensures Content(l'.current, k, k + j) == Records(CutAt(received + [e], j)) {
      CutOfMore(received, e, j);
      if j <= NumBarriers(received) {
        ContentSame(l.current, l'.current, k, k + j);
      } else {
        WholeCut(received, j);
        ContentSame(l.current, l'.current, k, k + j - 1);
        var was := if l.epoch in l.current then l.current[l.epoch] else [];
        assert (Content(l.current, k, k + j - 1) + was) + [rec] == Content(l.current, k, k + j - 1) + (was + [rec]);
      }
    }
  }

  lemma {:induction false} BarrierHolds(l: Ledger, k: int, received: seq<Element>, e: Element)
    requires Holds(l, k, received) && e.BarrierElement?
    ensures Holds(Note(l, Barrier), k, received + [e])
  {
    hide NumBarriers, CutAt, Records;
    var n := NumBarriers(received);
    NumBarriersAppend(received, e);
    RecordsAppend(received, e);
    forall j: nat | j <= n + 2 ensures Content(l.current, k, k + j) == Records(CutAt(received + [e], j)) {
      CutOfMore(received, e, j);
      if j > n {
        WholeCut(received, n + 1);
        assert k + n + 2 !in l.current;
        assert Content(l.current, k, k + n + 1) + [] == Content(l.current, k, k + n + 1);
      }
    }
  }

  lemma {:induction false} QuietHolds(l: Ledger, k: int, received: seq<Element>, e: Element)
    requires Holds(l, k, received) && (e.WatermarkElement? || e.EndOfStream?)
    ensures Holds(l, k, received + [e])
  {
    hide NumBarriers, CutAt, Records, Content;
    NumBarriersAppend(received, e);
    RecordsAppend(received, e);
    forall j: nat | j <= NumBarriers(received) + 1 ensures Content(l.current, k, k + j) == Records(CutAt(received + [e], j)) {
      CutOfMore(received, e, j);
      if j > NumBarriers(received) {
        WholeCut(received, j);
      }
    }
  }

  lemma {:induction false} DriveHolds(l: Ledger, k: int, received: seq<Element>, events: seq<Event>)
    requires (forall e :: e !in l.current) && l.epoch == k + 1 && Drives(received, events)
    ensures Holds(NoteAll(l, events), k, received)
    ensures NoteAll(l, events).past == l.past && NoteAll(l, events).base == l.base
    decreases |received| + |events|
  {
    hide Holds, NumBarriers, CutAt, Records;
    if events != [] && (events[|events| - 1].Completes? || events[|events| - 1].Notify?) {
      DriveHolds(l, k, received, events[..|events| - 1]);
      SameHolds(NoteAll(l, events[..|events| - 1]), NoteAll(l, events), k, received);
    } else if received == [] {
      NothingHeld(l, k);
    } else {
      var init, e := received[..|received| - 1], received[|received| - 1];
      assert received == init + [e];
      match e {
        case RecordElement(rec) =>
          DriveHolds(l, k, init, events[..|events| - 1]);
          WriteHolds(NoteAll(l, events[..|events| - 1]), k, init, rec);
        case BarrierElement(_, _) =>
          DriveHolds(l, k, init, events[..|events| - 1]);
          BarrierHolds(NoteAll(l, events[..|events| - 1]), k, init, e);
        case WatermarkElement(_) =>
          DriveHolds(l, k, init, events);
          QuietHolds(NoteAll(l, events), k, init, e);
        case EndOfStream =>
          DriveHolds(l, k, init, events);
          QuietHolds(NoteAll(l, events), k, init, e);
      }
    }
  }

  lemma {:induction false} SameHolds(l: Ledger, l': Ledger, k: int, received: seq<Element>)
    requires Holds(l, k, received) && l'.current == l.current && l'.epoch == l.epoch
    ensures Holds(l', k, received)
  {}

  lemma {:induction false} NothingHeld(l: Ledger, k: int)
    requires (forall e :: e !in l.current) && l.epoch == k + 1
    ensures Holds(l, k, [])
  {
    forall j: nat | j <= 1 ensures Content(l.current, k, k + j) == Records(CutAt([], j)) {
      ContentOfNone(l.current, k, k + j);
    }
  }

  // ----- Over all runs ---------------------------------------------------------------------

  lemma {:induction false} ValidPrefix(a: seq<Event>, b: seq<Event>)
    requires ValidEvents(a + b)
    ensures ValidEvents(a)
    decreases |b|
  {
    if b == [] {
      assert a + b == a;
    } else {
      assert (a + b)[..|a + b| - 1] == a + b[..|b| - 1];
      ValidPrefix(a, b[..|b| - 1]);
    }
  }

  /** The ledger of a run under way. */
  lemma {:induction false} RunUnderWay(before: Past, received: seq<Element>, events: seq<Event>, last: Event)
    requires ValidPast(before) && Drives(received, events) && ValidEvents(EventsOf(before) + [Restore] + events + [last])
    requires last.Crash? || last.Succeed?
    ensures var l := LedgerOf(EventsOf(before) + [Restore] + events);
            && LedgerOf(EventsOf(before) + [Restore] + events + [last]) == Note(l, last)
            && LedgerOK(l) && l.running && l.base == Resume(before)
            && l.past == LedgerOf(EventsOf(before)).past
            && Holds(l, l.base, received)
  {
    hide Holds, Drives, NumBarriers, CutAt, LedgerOK, UpTo;
    var prior := EventsOf(before);
    var es := prior + [Restore] + events;
    assert (es + [last])[..|es + [last]| - 1] == es;
    ValidPrefix(prior + [Restore], events);
    assert (prior + [Restore])[..|prior + [Restore]| - 1] == prior;
    ValidPrefix(prior, [Restore]);
    LedgerAppend(prior + [Restore], events);
    AtRest(prior);
    DriveHolds(LedgerOf(prior + [Restore]), Resume(before), received, events);
    RunningLedger(es, last);
  }

  lemma {:induction false} AtRest(events: seq<Event>)
    requires ValidEvents(events) && Allowed(LedgerOf(events), Restore)
    ensures forall e :: e !in LedgerOf(events).current
  {
    RunIsGood(map[], events);
  }

  lemma {:induction false} RunningLedger(events: seq<Event>, last: Event)
    requires ValidEvents(events) && Allowed(LedgerOf(events), last) && (last.Crash? || last.Succeed?)
    ensures LedgerOK(LedgerOf(events)) && LedgerOf(events).running
  {
    RunIsGood(map[], events);
  }

  lemma {:induction false} KeptOneMore(runs: seq<seq<Element>>, marks: seq<nat>, run: seq<Element>, mark: nat)
    requires |runs| == |marks|
    ensures Kept(runs + [run], marks + [mark]) == Kept(runs, marks) + CutAt(run, mark)
    ensures Base(marks + [mark]) == Base(marks) + mark
  {
    assert (marks + [mark])[..|marks|] == marks;
    KeptSame(runs, runs + [run], marks);
  }

  lemma {:induction false} KeptSame(runs: seq<seq<Element>>, more: seq<seq<Element>>, marks: seq<nat>)
    requires |marks| <= |runs| && runs <= more
    ensures Kept(more, marks) == Kept(runs, marks)
  {
    if marks != [] {
      KeptSame(runs, more, marks[..|marks| - 1]);
    }
  }

  /** The epochs that runs own behind them hold exactly what is left of those runs, and the
      checkpoint the next run is restored at is the sum of what each completed. */
  lemma {:induction false} OwnedIsSurviving(past: Past)
    requires ValidPast(past)
    ensures Resume(past) == Base(MarksOf(past)) && Content(LedgerOf(EventsOf(past)).past, 0, Resume(past)) == Surviving(past)
    ensures past.Crashed? ==> Resume(past.before) <= Resume(past) <= Resume(past.before) + NumBarriers(past.received)
  {
    hide Holds, Drives, NumBarriers, CutAt, Records, LedgerOK, UpTo, Content, Surviving, MarksOf, Base;
    match past {
      case Begin =>
        NothingOwned();
      case Crashed(before, received, events, tail) =>
        OwnedIsSurviving(before);
        RunUnderWay(before, received, events, Crash(tail));
        CrashKeeps(LedgerOf(EventsOf(before) + [Restore] + events), received, tail);
        CrashSurvives(before, received, events, tail);
      case Interrupted(before, settled) =>
        OwnedIsSurviving(before);
        InterruptedResumes(before, settled);
        InterruptedSurvives(before, settled);
    }
  }

  /** A crashed run adds to what survives what it had received up to where it was given up. */
  lemma {:induction false} CrashSurvives(before: Past, received: seq<Element>, events: seq<Event>, tail: Option<seq<Record>>)
    requires Resume(before) <= Resume(Crashed(before, received, events, tail))
    ensures var past := Crashed(before, received, events, tail);
            var mark: nat := Resume(past) - Resume(before);
            && Surviving(past) == Surviving(before) + Records(CutAt(received, mark))
            && Base(MarksOf(past)) == Base(MarksOf(before)) + mark
  {
    hide Resume, CutAt, Records, Kept, Base, EventsOf;
    var mark: nat := Resume(Crashed(before, received, events, tail)) - Resume(before);
    KeptOneMore(RunsOf(before), MarksOf(before), received, mark);
    RecordsConcat(Kept(RunsOf(before), MarksOf(before)), CutAt(received, mark));
  }

  /** An interrupted restore completes nothing. */
  lemma {:induction false} InterruptedResumes(before: Past, settled: set<int>)
    ensures Resume(Interrupted(before, settled)) == Resume(before)
    ensures LedgerOf(EventsOf(Interrupted(before, settled))).past == LedgerOf(EventsOf(before)).past
  {
    LedgerAppend(EventsOf(before), [InterruptedRestore(settled)]);
    assert [InterruptedRestore(settled)][..0] == [];
  }

  lemma {:induction false} InterruptedSurvives(before: Past, settled: set<int>)
    ensures Surviving(Interrupted(before, settled)) == Surviving(before) && MarksOf(Interrupted(before, settled)) == MarksOf(before)
  {}

  lemma {:induction false} NothingOwned()
    ensures Content(EMPTY.past, 0, 0) == [] && Surviving(Begin) == [] && Resume(Begin) == Base(MarksOf(Begin)) == 0
  {}

  lemma {:induction false} CrashKeeps(l: Ledger, received: seq<Element>, tail: Option<seq<Record>>)
    requires LedgerOK(l) && l.running && Holds(l, l.base, received)
    ensures var l' := Note(l, Crash(tail));
            && 0 <= l.base <= l'.highest <= l.base + NumBarriers(received)
            && Content(l'.past, 0, l'.highest) == Content(l.past, 0, l.base) + Records(CutAt(received, l'.highest - l.base))
  {
    hide NumBarriers, CutAt, Records;
    var l' := Note(l, Crash(tail));
    ContentSplit(l'.past, 0, l.base, l'.highest);
    ContentSame(l'.past, l.past, 0, l.base);
    ContentSame(l'.past, l.current, l.base, l'.highest);
    var j := l'.highest - l.base;
    assert Content(l.current, l.base, l.base + j) == Records(CutAt(received, j));
  }

  /** A run that succeeds leaves committed holding, epoch after epoch, exactly what is left of all
      the runs: of the crashed ones up to where they were given up, of the last one everything. */
  lemma {:induction false} CommittedIsEffective(leavings: Epochs, past: Past, received: seq<Element>, events: seq<Event>)
    requires ValidPast(past) && Drives(received, events) && ValidEvents(EventsOf(past) + [Restore] + events + [Succeed])
    requires forall e :: e in leavings ==> e >= 1
    ensures var committed := RunOf(leavings, EventsOf(past) + [Restore] + events + [Succeed]).disk.committed;
            var last := Resume(past) + 1 + NumBarriers(received);
            && Content(committed, 0, last) == Records(Effective(RunsOf(past) + [received], MarksOf(past)))
            && forall e :: e in committed ==> 1 <= e <= last
  {
    hide Drives, NumBarriers, CutAt, Records, Content, RunOf, Kept;
    var all := EventsOf(past) + [Restore] + events + [Succeed];
    OwnedIsSurviving(past);
    RunUnderWay(past, received, events, Succeed);
    CommittedExactlyOnce(leavings, all);
    var l := LedgerOf(EventsOf(past) + [Restore] + events);
    SuccessHolds(l, received);
    KeptSame(RunsOf(past), RunsOf(past) + [received], MarksOf(past));
    RecordsConcat(Kept(RunsOf(past), MarksOf(past)), received);
  }

  lemma {:induction false} SuccessHolds(l: Ledger, received: seq<Element>)
    requires LedgerOK(l) && l.running && Holds(l, l.base, received)
    ensures Content(l.past + l.current, 0, l.epoch) == Content(l.past, 0, l.base) + Records(received)
    ensures forall e :: e in l.past + l.current ==> 1 <= e <= l.epoch
  {
    hide NumBarriers, CutAt, Records;
    ContentSplit(l.past + l.current, 0, l.base, l.epoch);
    ContentSame(l.past + l.current, l.past, 0, l.base);
    ContentSame(l.past + l.current, l.current, l.base, l.epoch);
    WholeCut(received, NumBarriers(received) + 1);
    var j := NumBarriers(received) + 1;
    assert Content(l.current, l.base, l.base + j) == Records(CutAt(received, j));
  }
}
