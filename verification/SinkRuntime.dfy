/** The element loop of a sink subtask over the transactional sink: what it writes, closes and
    notifies, against the stream it receives and what the coordinator answers, and which of the
    checkpoints whose barriers it received have been notified. */
module SinkRuntime {
  import opened Int64
  import opened Elements
  import opened ByteOrder
  import opened TwoPhaseCommit
  import opened TransactionalSink
  import opened SinkStreams

  /** What a run's events do to the sink and its files. */
  function Work(x: Effect, events: seq<Event>): Effect {
    if events == [] then x else Happen(Work(x, events[..|events| - 1]), EMPTY, events[|events| - 1])
  }

  lemma {:induction false} WorkOneMore(x: Effect, events: seq<Event>, e: Event)
    ensures Work(x, events + [e]) == Happen(Work(x, events), EMPTY, e)
  {
    assert (events + [e])[..|events|] == events;
  }

  lemma {:induction false} DrivesOneMore(received: seq<Element>, events: seq<Event>, e: Element)
    requires Drives(received, events)
    ensures e.RecordElement? ==> Drives(received + [e], events + [Write(e.rec)])
    ensures e.BarrierElement? ==> Drives(received + [e], events + [Barrier])
    ensures e.WatermarkElement? || e.EndOfStream? ==> Drives(received + [e], events)
    decreases |events|
  {
    assert (received + [e])[..|received|] == received;
    if e.RecordElement? {
      assert (events + [Write(e.rec)])[..|events|] == events;
    } else if e.BarrierElement? {
      assert (events + [Barrier])[..|events|] == events;
    } else if events != [] && (events[|events| - 1].Completes? || events[|events| - 1].Notify?) {
      DrivesOneMore(received, events[..|events| - 1], e);
    }
  }

  lemma {:induction false} DrivesNotified(received: seq<Element>, events: seq<Event>, id: int)
    requires Drives(received, events)
    ensures Drives(received, events + [Notify(id)])
  {
    assert (events + [Notify(id)])[..|events|] == events;
  }

  /** The events so far are those of `received`, and the sink is where they lead. */
  ghost predicate UpToDate(sink: Transactional, start: Effect, received: seq<Element>, events: seq<Event>)
    reads sink, sink.dirs
  {
    sink.Valid() && Drives(received, events) && Effect(sink.Sink(), sink.own) == Work(start, events)
  }

  /** Staged checkpoints are epochs this instance has closed, so they can be notified. */
  predicate Closed(staged: seq<int>, first: int, epoch: int) {
    forall i :: 0 <= i < |staged| ==> first <= staged[i] < epoch
  }

  /** Of the staged checkpoints, those the coordinator reports complete, in order. */
  function CompleteOf(staged: seq<int>, complete: set<int>): seq<int> {
    if staged == [] then []
    else if staged[|staged| - 1] in complete then CompleteOf(staged[..|staged| - 1], complete) + [staged[|staged| - 1]]
    else CompleteOf(staged[..|staged| - 1], complete)
  }

  function StillStaged(staged: seq<int>, complete: set<int>): seq<int> {
    if staged == [] then []
    else if staged[|staged| - 1] in complete then StillStaged(staged[..|staged| - 1], complete)
    else StillStaged(staged[..|staged| - 1], complete) + [staged[|staged| - 1]]
  }

  function Notifications(ids: seq<int>): seq<Event> {
    seq(|ids|, i requires 0 <= i < |ids| => Notify(ids[i]))
  }

  lemma {:induction false} OneMoreNotification(ids: seq<int>, i: nat)
    requires i < |ids|
    ensures Notifications(ids[..i + 1]) == Notifications(ids[..i]) + [Notify(ids[i])]
  {}

  /** What is still staged, and what has been done, once a stream has been received. `complete` is
      what the coordinator answers at the barrier in each place of the stream, and `final` what it
      answers once the stream has ended and the sink has waited. */
  datatype Trace = Trace(staged: seq<int>, events: seq<Event>)

  function TraceOf(received: seq<Element>, complete: nat -> set<int>, final: set<int>): Trace {
    if received == [] then Trace([], [])
    else
      var at := |received| - 1;
      var t := TraceOf(received[..at], complete, final);
      match received[at]
      case RecordElement(rec) => Trace(t.staged, t.events + [Write(rec)])
      case BarrierElement(id, _) =>
        Trace(StillStaged(t.staged + [id], complete(at)),
              t.events + [Barrier] + Notifications(CompleteOf(t.staged + [id], complete(at))))
      case WatermarkElement(_) => t
      case EndOfStream =>
        Trace(StillStaged(t.staged, final), t.events + Notifications(CompleteOf(t.staged, final)))
  }

  lemma {:induction false} PartsClosed(staged: seq<int>, complete: set<int>, first: int, epoch: int)
    requires Closed(staged, first, epoch)
    ensures Closed(CompleteOf(staged, complete), first, epoch) && Closed(StillStaged(staged, complete), first, epoch)
  {
    if staged != [] {
      PartsClosed(staged[..|staged| - 1], complete, first, epoch);
    }
  }

  /** Tells the sink of each completed checkpoint. A notification that fails is let go: the
      checkpoint is complete, and its transaction is committed on restore or at the end. */
  method NotifyCompleted(sink: Transactional, completed: seq<int>, ghost start: Effect, ghost received: seq<Element>, ghost events: seq<Event>)
    requires UpToDate(sink, start, received, events) && Closed(completed, 0, sink.epoch)
    modifies sink, sink.dirs
    ensures UpToDate(sink, start, received, events + Notifications(completed)) && sink.OthersKept()
    ensures sink.epoch == old(sink.epoch)
  {
    hide Drives, Work, Shows, OnlyOwnNames, Foreign, ForeignSame;
    ghost var after := events;
    assert sink.OthersKept() by { sink.NothingChanged(); }
    assert events + Notifications(completed[..0]) == events;
    for i := 0 to |completed|
      invariant UpToDate(sink, start, received, after) && sink.OthersKept() && sink.epoch == old(sink.epoch)
      invariant after == events + Notifications(completed[..i])
    {
      label Before:
      var _ := sink.NotifyCheckpointComplete(completed[i]);
      sink.KeptTogether(sink.dirs.staging, old@Before(sink.dirs.staging), old(sink.dirs.staging),
                        sink.dirs.committed, old@Before(sink.dirs.committed), old(sink.dirs.committed));
      WorkOneMore(start, after, Notify(completed[i]));
      DrivesNotified(received, after, completed[i]);
      OneMoreNotification(completed, i);
      after := after + [Notify(completed[i])];
    }
    assert completed[..|completed|] == completed;
  }

  /** One barrier: the epoch is closed and acknowledged, and only then is the coordinator asked
      which of those staged may be committed. */
  method TakeBarrier(sink: Transactional, staged: seq<int>, e: Element, complete: set<int>, ghost start: Effect, ghost received: seq<Element>, ghost events: seq<Event>)
    returns (left: seq<int>, payload: Bytes)
    requires UpToDate(sink, start, received, events) && e.BarrierElement? && e.id == sink.epoch < MAX_INT64
    requires Closed(staged, 0, sink.epoch)
    modifies sink, sink.dirs
    ensures UpToDate(sink, start, received + [e], events + [Barrier] + Notifications(CompleteOf(staged + [e.id], complete)))
    ensures sink.OthersKept() && sink.epoch == old(sink.epoch) + 1
    ensures |payload| == 8 && ReadBigEndian(payload) == e.id
    ensures left == StillStaged(staged + [e.id], complete) && Closed(left, 0, sink.epoch)
  {
    hide Drives, Work, Shows, OnlyOwnNames, Foreign, ForeignSame, ReadBigEndian, CompleteOf, StillStaged;
    payload := sink.Snapshot();
    WorkOneMore(start, events, Barrier);
    DrivesOneMore(received, events, e);
    var now := staged + [e.id];
    PartsClosed(now, complete, 0, sink.epoch);
    label Closed:
    NotifyCompleted(sink, CompleteOf(now, complete), start, received + [e], events + [Barrier]);
    sink.KeptTogether(sink.dirs.staging, old@Closed(sink.dirs.staging), old(sink.dirs.staging),
                      sink.dirs.committed, old@Closed(sink.dirs.committed), old(sink.dirs.committed));
    left := StillStaged(now, complete);
  }

  method TakeRecord(sink: Transactional, e: Element, ghost start: Effect, ghost received: seq<Element>, ghost events: seq<Event>)
    requires UpToDate(sink, start, received, events) && e.RecordElement?
    modifies sink, sink.dirs
    ensures UpToDate(sink, start, received + [e], events + [Write(e.rec)])
    ensures sink.OthersKept() && sink.epoch == old(sink.epoch)
  {
    hide Drives, Work, Shows, OnlyOwnNames, Foreign, ForeignSame;
    sink.Write(e.rec);
    WorkOneMore(start, events, Write(e.rec));
    DrivesOneMore(received, events, e);
  }

  /** The loop of a sink subtask. It does exactly what the stream and the coordinator's answers ask,
      in that order, and every payload it acknowledges with names the checkpoint of the barrier. */
  method RunSink(sink: Transactional, received: seq<Element>, complete: nat -> set<int>, final: set<int>) returns (payloads: map<int, Bytes>)
    requires sink.Valid() && WellFormed(received, sink.epoch - 1)
    requires sink.epoch + NumBarriers(received) <= MAX_INT64
    modifies sink, sink.dirs
    ensures UpToDate(sink, old(Effect(sink.Sink(), sink.own)), received, TraceOf(received, complete, final).events)
    ensures sink.OthersKept() && sink.epoch == old(sink.epoch) + NumBarriers(received)
    ensures forall p :: 0 <= p < |received| && received[p].BarrierElement? ==>
              received[p].id in payloads && |payloads[received[p].id]| == 8 && ReadBigEndian(payloads[received[p].id]) == received[p].id
  {
    hide Drives, Work, Shows, OnlyOwnNames, Foreign, ForeignSame, ReadBigEndian, NumBarriers, StillStaged, CompleteOf, Notifications;
    ghost var start := Effect(sink.Sink(), sink.own);
    var staged: seq<int> := [];
    payloads := map[];
    NothingYet(start);
    assert sink.OthersKept() by { sink.NothingChanged(); }
    assert received[..0] == [];
    for p := 0 to |received|
      invariant UpToDate(sink, start, received[..p], TraceOf(received[..p], complete, final).events) && sink.OthersKept()
      invariant staged == TraceOf(received[..p], complete, final).staged
      invariant sink.epoch == old(sink.epoch) + NumBarriers(received[..p]) && Closed(staged, 0, sink.epoch)
      invariant forall q :: 0 <= q < p && received[q].BarrierElement? ==>
                  received[q].id in payloads && |payloads[received[q].id]| == 8 && ReadBigEndian(payloads[received[q].id]) == received[q].id
    {
      var e := received[p];
      assert received[..p + 1] == received[..p] + [e] && received[..p + 1][..p] == received[..p];
      NumBarriersAppend(received[..p], e);
      NumBarriersPrefix(received, p + 1);
      ghost var events := TraceOf(received[..p], complete, final).events;
      label Before:
      match e {
        case RecordElement(rec) =>
          TakeRecord(sink, e, start, received[..p], events);
        case BarrierElement(id, _) =>
          var payload;
          staged, payload := TakeBarrier(sink, staged, e, complete(p), start, received[..p], events);
          payloads := payloads[id := payload];
        case WatermarkElement(_) =>
          DrivesOneMore(received[..p], events, e);
        case EndOfStream =>
          DrivesOneMore(received[..p], events, e);
          PartsClosed(staged, final, 0, sink.epoch);
          NotifyCompleted(sink, CompleteOf(staged, final), start, received[..p + 1], events);
          staged := StillStaged(staged, final);
      }
      sink.KeptTogether(sink.dirs.staging, old@Before(sink.dirs.staging), old(sink.dirs.staging),
                        sink.dirs.committed, old@Before(sink.dirs.committed), old(sink.dirs.committed));
    }
    assert received[..|received|] == received;
  }

  lemma {:induction false} NothingYet(start: Effect)
    ensures Drives([], []) && Work(start, []) == start && NumBarriers([]) == 0
  {}

  // ----- Every complete checkpoint is notified once ------------------------------------------

  function NotifiedIds(events: seq<Event>): seq<int> {
    if events == [] then []
    else if events[|events| - 1].Notify? then NotifiedIds(events[..|events| - 1]) + [events[|events| - 1].id]
    else NotifiedIds(events[..|events| - 1])
  }

  function BarrierIds(received: seq<Element>): seq<int> {
    if received == [] then []
    else if received[|received| - 1].BarrierElement? then BarrierIds(received[..|received| - 1]) + [received[|received| - 1].id]
    else BarrierIds(received[..|received| - 1])
  }

  lemma {:induction false} NotifiedConcat(a: seq<Event>, b: seq<Event>)
    ensures NotifiedIds(a + b) == NotifiedIds(a) + NotifiedIds(b)
  {
    if b == [] {
      assert a + b == a;
    } else {
      NotifiedConcat(a, b[..|b| - 1]);
      assert (a + b)[..|a + b| - 1] == a + b[..|b| - 1];
    }
  }

  lemma {:induction false} NotifiedOf(ids: seq<int>)
    ensures NotifiedIds(Notifications(ids)) == ids
  {
    if ids != [] {
      NotifiedOf(ids[..|ids| - 1]);
      OneMoreNotification(ids, |ids| - 1);
      assert ids[..|ids| - 1 + 1] == ids;
      NotifiedOne(Notifications(ids[..|ids| - 1]), Notify(ids[|ids| - 1]));
    }
  }

  lemma {:induction false} NotifiedOne(events: seq<Event>, e: Event)
    ensures NotifiedIds(events + [e]) == if e.Notify? then NotifiedIds(events) + [e.id] else NotifiedIds(events)
  {
    assert (events + [e])[..|events|] == events;
  }

  /** The two parts are the whole. */
  lemma {:induction false} PartsAreAll(staged: seq<int>, complete: set<int>)
    ensures multiset(CompleteOf(staged, complete)) + multiset(StillStaged(staged, complete)) == multiset(staged)
    ensures forall id :: id in CompleteOf(staged, complete) ==> id in complete
    ensures forall id :: id in StillStaged(staged, complete) ==> id !in complete
  {
    if staged != [] {
      var init, last := staged[..|staged| - 1], staged[|staged| - 1];
      PartsAreAll(init, complete);
      assert staged == init + [last];
    }
  }

  lemma {:induction false} Moved(notified: seq<int>, staged: seq<int>, all: seq<int>, added: seq<int>, done: seq<int>, left: seq<int>)
    requires multiset(notified) + multiset(staged) == multiset(all)
    requires multiset(done) + multiset(left) == multiset(staged + added)
    ensures multiset(notified + done) + multiset(left) == multiset(all + added)
  {
    assert multiset(notified + done) == multiset(notified) + multiset(done);
    assert multiset(staged + added) == multiset(staged) + multiset(added);
    assert multiset(all + added) == multiset(all) + multiset(added);
    calc {
      multiset(notified + done) + multiset(left);
      multiset(notified) + (multiset(done) + multiset(left));
      multiset(notified) + (multiset(staged) + multiset(added));
      multiset(all + added);
    }
  }

  /** What a pass over the staged checkpoints moves from staged to notified. */
  lemma {:induction false} PassMoves(events: seq<Event>, staged: seq<int>, added: seq<int>, complete: set<int>, all: seq<int>)
    requires multiset(NotifiedIds(events)) + multiset(staged) == multiset(all)
    ensures multiset(NotifiedIds(events + Notifications(CompleteOf(staged + added, complete)))) + multiset(StillStaged(staged + added, complete))
         == multiset(all + added)
  {
    hide Notifications, CompleteOf, StillStaged, NotifiedIds;
    var now := staged + added;
    NotifiedConcat(events, Notifications(CompleteOf(now, complete)));
    NotifiedOf(CompleteOf(now, complete));
    PartsAreAll(now, complete);
    Moved(NotifiedIds(events), staged, all, added, CompleteOf(now, complete), StillStaged(now, complete));
  }

  /** No barrier's checkpoint is forgotten or notified twice: each is notified once or still staged. */
  lemma {:induction false} NotifiedOrStaged(received: seq<Element>, complete: nat -> set<int>, final: set<int>)
    ensures var t := TraceOf(received, complete, final);
            multiset(NotifiedIds(t.events)) + multiset(t.staged) == multiset(BarrierIds(received))
  {
    hide Notifications, CompleteOf, StillStaged, NotifiedIds;
    if received == [] {
      NothingNotified([]);
    } else {
      var at := |received| - 1;
      NotifiedOrStaged(received[..at], complete, final);
      var t, ids := TraceOf(received[..at], complete, final), BarrierIds(received[..at]);
      match received[at] {
        case RecordElement(rec) => NotifiedOne(t.events, Write(rec));
        case BarrierElement(id, _) =>
          NotifiedOne(t.events, Barrier);
          PassMoves(t.events + [Barrier], t.staged, [id], complete(at), ids);
        case WatermarkElement(_) =>
        case EndOfStream =>
          assert t.staged + [] == t.staged && ids + [] == ids;
          PassMoves(t.events, t.staged, [], final, ids);
      }
    }
  }

  lemma {:induction false} NothingNotified(events: seq<Event>)
    requires events == []
    ensures NotifiedIds(events) == []
  {}

  /** At the end of the stream every checkpoint that turned out complete has been notified once, and
      none that did not. */
  lemma {:induction false} CompleteAreNotified(received: seq<Element>, complete: nat -> set<int>, final: set<int>)
    requires Ended(received) && forall n: nat :: complete(n) <= final
    ensures var t := TraceOf(received, complete, final);
            && (forall id :: id in NotifiedIds(t.events) ==> id in final)
            && (forall id :: id in t.staged ==> id !in final)
            && multiset(NotifiedIds(t.events)) + multiset(t.staged) == multiset(BarrierIds(received))
  {
    hide CompleteOf, StillStaged;
    NotifiedOrStaged(received, complete, final);
    OnlyCompleteNotified(received, complete, final);
    PartsAreAll(TraceOf(received[..|received| - 1], complete, final).staged, final);
  }

  lemma {:induction false} OnlyCompleteNotified(received: seq<Element>, complete: nat -> set<int>, final: set<int>)
    requires forall n: nat :: complete(n) <= final
    ensures forall id :: id in NotifiedIds(TraceOf(received, complete, final).events) ==> id in final
  {
    hide Notifications, CompleteOf, StillStaged;
    if received != [] {
      var at := |received| - 1;
      OnlyCompleteNotified(received[..at], complete, final);
      var t := TraceOf(received[..at], complete, final);
      match received[at] {
        case RecordElement(rec) => NotifiedOne(t.events, Write(rec));
        case BarrierElement(id, _) =>
          var now := t.staged + [id];
          NotifiedConcat(t.events + [Barrier], Notifications(CompleteOf(now, complete(at))));
          NotifiedOne(t.events, Barrier);
          NotifiedOf(CompleteOf(now, complete(at)));
          PartsAreAll(now, complete(at));
        case WatermarkElement(_) =>
        case EndOfStream =>
          NotifiedConcat(t.events, Notifications(CompleteOf(t.staged, final)));
          NotifiedOf(CompleteOf(t.staged, final));
          PartsAreAll(t.staged, final);
      }
    }
  }
}
