/** One run of a sink subtask beside the coordinator, step by step: the sink's loop, with calls into
    the coordinator by every other subtask at any moment. It is a run of the two-phase commit. */
module SinkCoordination {
  import opened Elements
  import Co = Coordination
  import opened TwoPhaseCommit
  import opened SinkStreams
  import opened SinkRuntime
  import opened ExactlyOnce

  /** A call into the coordinator. `seen` are the checkpoints it puts a marker in place for that a
      later run finds: each that completes, and, when only the sync of the directory failed and the
      checkpoint was given up, perhaps one that does not. */
  datatype Call = Call(event: Co.Event, seen: seq<int>)

  /** Where the sink's loop stands: about to receive, with a barrier closed but not acknowledged,
      about to ask what has completed, or with notifications still to make. */
  datatype Phase = Ready | Unacknowledged(id: int) | Asking | Telling(left: seq<int>)

  datatype Step = Receive(elem: Element) | Acknowledge(call: Call) | Ask | Tell | Elsewhere(call: Call)

  /** The coordinator, the sink's loop, and what has happened to the sink. `answers` has, for each
      element dealt with, what was complete when the sink asked. */
  datatype Joint = Joint(co: Co.State, phase: Phase, staged: seq<int>, received: seq<Element>, answers: seq<set<int>>, events: seq<Event>)

  function Start(expected: set<SubtaskKey>): Joint {
    Joint(Co.Initial(expected), Ready, [], [], [], [])
  }

  function Completions(ids: seq<int>): seq<Event> {
    seq(|ids|, i requires 0 <= i < |ids| => Completes(ids[i]))
  }

  function CallMade(j: Joint, c: Call): Joint {
    j.(co := Co.Step(j.co, c.event), events := j.events + Completions(c.seen))
  }

  function Received(j: Joint, e: Element): Joint {
    var j1 := j.(received := j.received + [e]);
    match e
    case RecordElement(rec) => j1.(events := j.events + [Write(rec)], answers := j.answers + [{}])
    case BarrierElement(id, _) => j1.(events := j.events + [Barrier], staged := j.staged + [id], phase := Unacknowledged(id))
    case WatermarkElement(_) => j1.(answers := j.answers + [{}])
    case EndOfStream => j1.(phase := Asking)
  }

  function Notifying(left: seq<int>): Phase {
    if left == [] then Ready else Telling(left)
  }

  function Left(phase: Phase): seq<int> {
    if phase.Telling? then phase.left else []
  }

  function CompleteNow(s: Co.State): set<int> {
    set id | id in s.progress && s.progress[id].complete
  }

  function Asked(j: Joint): Joint {
    j.(phase := Notifying(Co.CompletedOf(j.co, j.staged)), staged := StillStaged(j.staged, CompleteNow(j.co)),
       answers := j.answers + [CompleteNow(j.co)])
  }

  function Told(j: Joint): Joint {
    var left := Left(j.phase);
    if left == [] then j else j.(phase := Notifying(left[1..]), events := j.events + [Notify(left[0])])
  }

  function Taken(j: Joint, s: Step): Joint {
    match s
    case Receive(e) => Received(j, e)
    case Acknowledge(c) => CallMade(j, c).(phase := Asking)
    case Ask => Asked(j)
    case Tell => Told(j)
    case Elsewhere(c) => CallMade(j, c)
  }

  function JointOf(expected: set<SubtaskKey>, steps: seq<Step>): Joint {
    if steps == [] then Start(expected) else Taken(JointOf(expected, steps[..|steps| - 1]), steps[|steps| - 1])
  }

  ghost predicate ValidCall(s: Co.State, c: Call) {
    && Co.ValidEvent(s, c.event) && Distinct(c.seen)
    && (forall id :: id in c.seen ==> id in Co.Step(s, c.event).markers - s.markers)
    && (forall id :: id in CompleteNow(Co.Step(s, c.event)) - CompleteNow(s) ==> id in c.seen)
  }

  /** Only the sink acknowledges in its own name, and a sink never reports itself finished. */
  predicate ByAnother(e: Co.Event, key: SubtaskKey) {
    match e
    case Ack(_, k, _, _, _) => k != key
    case Finish(k, _, _, _, _) => k != key
    case Failure(_) => true
  }

  ghost predicate MayTake(j: Joint, s: Step, key: SubtaskKey) {
    match s
    case Receive(_) => j.phase.Ready?
    case Acknowledge(c) => j.phase.Unacknowledged? && c.event.Ack? && c.event.id == j.phase.id && c.event.key == key && ValidCall(j.co, c)
    case Ask => j.phase.Asking?
    case Tell => j.phase.Telling?
    case Elsewhere(c) => ByAnother(c.event, key) && ValidCall(j.co, c)
  }

  ghost predicate ValidSteps(expected: set<SubtaskKey>, steps: seq<Step>, key: SubtaskKey) {
    steps == [] ||
    (ValidSteps(expected, steps[..|steps| - 1], key) && MayTake(JointOf(expected, steps[..|steps| - 1]), steps[|steps| - 1], key))
  }

  // ----- The invariant ---------------------------------------------------------------------

  /** A run that resumed at checkpoint `k`, after the events `prior` and with `earlier` complete. */
  datatype Resumed = Resumed(prior: seq<Event>, k: int, earlier: set<int>, key: SubtaskKey)

  /** The sink's events are allowed, the completed checkpoints are those whose markers are seen, and
      this sink acknowledged each of them at its own barrier. */
  ghost predicate Agrees(r: Resumed, j: Joint) {
    && ValidEvents(r.prior + j.events)
    && LedgerAgrees(r, j.co, LedgerOf(r.prior + j.events), NumBarriers(j.received))
    && Drives(j.received, j.events)
    && CoordinatorAgrees(r, j.co, NumBarriers(j.received))
    && (j.phase.Unacknowledged? ==> r.k < j.phase.id < r.k + 1 + NumBarriers(j.received))
    && (forall id :: id in Left(j.phase) ==> id in CompleteNow(j.co))
  }

  ghost predicate LedgerAgrees(r: Resumed, s: Co.State, l: Ledger, barriers: nat) {
    && l.running && !l.finished && l.base == r.k && l.epoch == r.k + 1 + barriers
    && r.earlier <= l.complete && CompleteNow(s) <= l.complete && (forall id :: id in l.complete ==> id in r.earlier || id in s.markers) && (forall id :: id in r.earlier ==> id <= r.k)
    && r.k <= l.highest && (forall id :: id in l.complete ==> id <= l.highest) && (l.highest == r.k || l.highest in s.markers)
  }

  ghost predicate CoordinatorAgrees(r: Resumed, s: Co.State, barriers: nat) {
    && Co.Safe(s) && r.key in s.expected && r.key !in s.done
    && forall id :: (id, r.key) in s.acknowledged ==> r.k < id < r.k + 1 + barriers
  }

  // ----- Completions and notifications -------------------------------------------------------

  lemma {:induction false} AllowedMore(events: seq<Event>, e: Event)
    requires ValidEvents(events) && Allowed(LedgerOf(events), e)
    ensures ValidEvents(events + [e]) && LedgerOf(events + [e]) == Note(LedgerOf(events), e)
  {
    assert (events + [e])[..|events|] == events;
  }

  /** What completing checkpoints makes of the ledger. */
  ghost predicate Completed(l: Ledger, l': Ledger, ids: seq<int>) {
    && l' == l.(complete := l'.complete, highest := l'.highest)
    && l'.complete == l.complete + (set id | id in ids)
    && l.highest <= l'.highest && (forall id :: id in ids ==> id <= l'.highest) && (l'.highest == l.highest || l'.highest in ids)
  }

  /** Checkpoints this sink has passed the barrier of complete, each once. */
  lemma {:induction false} CompletionsAllowed(events: seq<Event>, ids: seq<int>)
    requires ValidEvents(events) && Distinct(ids)
    requires var l := LedgerOf(events);
             l.running && !l.finished && forall id :: id in ids ==> l.base < id < l.epoch && id !in l.complete
    ensures ValidEvents(events + Completions(ids)) && Completed(LedgerOf(events), LedgerOf(events + Completions(ids)), ids)
  {
    hide LedgerOf, ValidEvents, Completed, Distinct;
    if ids == [] {
      assert events + Completions(ids) == events;
      NoneCompleted(LedgerOf(events));
    } else {
      var init, id := ids[..|ids| - 1], ids[|ids| - 1];
      LastOfDistinct(ids);
      assert forall x :: x in init ==> x in ids;
      CompletionsAllowed(events, init);
      var l, l1 := LedgerOf(events), LedgerOf(events + Completions(init));
      OneMoreCompleted(l, l1, init, id);
      AllowedMore(events + Completions(init), Completes(id));
      assert ids == init + [id];
      assert events + Completions(ids) == (events + Completions(init)) + [Completes(id)];
    }
  }

  lemma {:induction false} LastOfDistinct(ids: seq<int>)
    requires Distinct(ids) && ids != []
    ensures Distinct(ids[..|ids| - 1]) && ids[|ids| - 1] !in ids[..|ids| - 1] && ids[|ids| - 1] in ids
  {}

  lemma {:induction false} NoneCompleted(l: Ledger)
    ensures Completed(l, l, [])
  {}

  lemma {:induction false} OneMoreCompleted(l: Ledger, l1: Ledger, ids: seq<int>, id: int)
    requires Completed(l, l1, ids)
    ensures Completed(l, Note(l1, Completes(id)), ids + [id]) && l1 == l.(complete := l1.complete, highest := l1.highest)
    ensures forall x :: x in l1.complete <==> x in l.complete || x in ids
  {}

  /** Neither asks anything of the stream. */
  lemma {:induction false} DrivesQuiet(received: seq<Element>, events: seq<Event>, quiet: seq<Event>)
    requires Drives(received, events) && forall i :: 0 <= i < |quiet| ==> quiet[i].Completes? || quiet[i].Notify?
    ensures Drives(received, events + quiet)
  {
    if quiet == [] {
      assert events + quiet == events;
    } else {
      DrivesQuiet(received, events, quiet[..|quiet| - 1]);
      assert (events + quiet)[..|events + quiet| - 1] == events + quiet[..|quiet| - 1];
    }
  }

  // ----- Step by step --------------------------------------------------------------------------

  /** Whatever a call completes, this sink has acknowledged at its own barrier in this run. */
  lemma {:induction false} CompletedHere(r: Resumed, s: Co.State, c: Call, barriers: nat)
    requires CoordinatorAgrees(r, s, barriers) && ValidCall(s, c)
    requires ByAnother(c.event, r.key) || (c.event.Ack? && c.event.key == r.key && r.k < c.event.id < r.k + 1 + barriers)
    ensures CoordinatorAgrees(r, Co.Step(s, c.event), barriers)
    ensures forall id :: id in c.seen ==> r.k < id < r.k + 1 + barriers
    ensures s.markers <= Co.Step(s, c.event).markers && CompleteNow(s) <= CompleteNow(Co.Step(s, c.event))
  {
    hide Co.Step, Co.CheckpointSafe, Co.ValidEvent;
    var s' := Co.Step(s, c.event);
    Co.StepSafe(s, c.event);
    Co.StepSays(s, c.event);
    StepExpects(s, c.event);
    forall id ensures (id in s.markers ==> id in s'.markers) && (id in CompleteNow(s) ==> id in CompleteNow(s')) {
      Co.StepMoves(s, c.event, id);
    }
    forall id | id in c.seen ensures (id, r.key) in s'.acknowledged {
      VouchedHere(s', id, r.key);
    }
  }

  lemma {:induction false} VouchedHere(s: Co.State, id: int, key: SubtaskKey)
    requires Co.Safe(s) && id in s.markers && key in s.expected && key !in s.done
    ensures (id, key) in s.acknowledged
  {
    assert Co.CheckpointSafe(s, id);
  }

  lemma {:induction false} StepExpects(s: Co.State, e: Co.Event)
    ensures Co.Step(s, e).expected == s.expected
  {
    hide Co.Step;
    Co.RunExpects(s, [e]);
    Co.RunOne(s, e);
  }

  lemma {:induction false} CompletionsAgree(r: Resumed, s: Co.State, s': Co.State, l: Ledger, l': Ledger, seen: seq<int>, barriers: nat)
    requires LedgerAgrees(r, s, l, barriers) && Completed(l, l', seen) && s.markers <= s'.markers && CompleteNow(s) <= CompleteNow(s')
    requires forall id :: id in seen ==> id in s'.markers - s.markers
    requires forall id :: id in CompleteNow(s') - CompleteNow(s) ==> id in seen
    ensures LedgerAgrees(r, s', l', barriers)
  {
    hide CompleteNow;
    forall id | id in CompleteNow(s') ensures id in l'.complete {
      assert id in CompleteNow(s) || id in CompleteNow(s') - CompleteNow(s);
    }
  }

  lemma {:induction false} CallKeeps(r: Resumed, j: Joint, c: Call)
    requires Agrees(r, j) && ValidCall(j.co, c)
    requires ByAnother(c.event, r.key) || (c.event.Ack? && c.event.key == r.key && r.k < c.event.id < r.k + 1 + NumBarriers(j.received))
    ensures Agrees(r, CallMade(j, c))
  {
    hide Co.Step, NumBarriers, Drives, Co.Safe, Co.ValidEvent, ValidEvents, LedgerOf, CompleteNow, Distinct;
    CompletedHere(r, j.co, c, NumBarriers(j.received));
    CompletionsAllowed(r.prior + j.events, c.seen);
    assert r.prior + (j.events + Completions(c.seen)) == (r.prior + j.events) + Completions(c.seen);
    CompletionsAgree(r, j.co, Co.Step(j.co, c.event), LedgerOf(r.prior + j.events), LedgerOf(r.prior + (j.events + Completions(c.seen))), c.seen, NumBarriers(j.received));
    DrivesQuiet(j.received, j.events, Completions(c.seen));
  }

  lemma {:induction false} AskKeeps(r: Resumed, j: Joint)
    requires Agrees(r, j)
    ensures Agrees(r, Asked(j))
  {
    hide NumBarriers, Drives, ValidEvents, LedgerOf, StillStaged, LedgerAgrees, CoordinatorAgrees;
    AskedAre(j.co, j.staged);
    PartsAreAll(j.staged, CompleteNow(j.co));
  }

  /** The coordinator's answer is the staged checkpoints that are complete. */
  lemma {:induction false} AskedAre(s: Co.State, staged: seq<int>)
    ensures Co.CompletedOf(s, staged) == CompleteOf(staged, CompleteNow(s))
  {
    if staged != [] {
      AskedAre(s, staged[..|staged| - 1]);
    }
  }

  lemma {:induction false} TellKeeps(r: Resumed, j: Joint)
    requires Agrees(r, j) && j.phase.Telling?
    ensures Agrees(r, Told(j))
  {
    hide NumBarriers, Drives, ValidEvents, LedgerOf, CoordinatorAgrees, CompleteNow;
    if j.phase.left != [] {
      var id := j.phase.left[0];
      assert id in Left(j.phase);
      AllowedMore(r.prior + j.events, Notify(id));
      assert r.prior + (j.events + [Notify(id)]) == (r.prior + j.events) + [Notify(id)];
      DrivesNotified(j.received, j.events, id);
    }
  }

  lemma {:induction false} ReceiveKeeps(r: Resumed, j: Joint, e: Element)
    requires Agrees(r, j) && (e.BarrierElement? ==> e.id == r.k + NumBarriers(j.received) + 1)
    ensures Agrees(r, Received(j, e))
  {
    hide Co.Safe, Drives, ValidEvents, LedgerOf, NumBarriers, CompleteNow;
    NumBarriersAppend(j.received, e);
    DrivesOneMore(j.received, j.events, e);
    if e.RecordElement? {
      AllowedMore(r.prior + j.events, Write(e.rec));
      assert r.prior + (j.events + [Write(e.rec)]) == (r.prior + j.events) + [Write(e.rec)];
    } else if e.BarrierElement? {
      AllowedMore(r.prior + j.events, Barrier);
      assert r.prior + (j.events + [Barrier]) == (r.prior + j.events) + [Barrier];
    }
  }

  lemma {:induction false} PhaseKeeps(r: Resumed, j: Joint)
    requires Agrees(r, j)
    ensures Agrees(r, j.(phase := Asking))
  {}

  lemma {:induction false} TakeKeeps(r: Resumed, j: Joint, s: Step)
    requires Agrees(r, j) && MayTake(j, s, r.key) && WellFormed(Taken(j, s).received, r.k)
    ensures Agrees(r, Taken(j, s))
  {
    hide ValidCall, CallMade, Asked, Told, NumBarriers, Drives, ValidEvents, LedgerOf, LedgerAgrees, CoordinatorAgrees, CompleteNow;
    match s {
      case Receive(e) =>
        var all := j.received + [e];
        assert all[..|j.received| + 1] == all && all[|j.received|] == e;
        NumBarriersAppend(j.received, e);
        ReceiveKeeps(r, j, e);
      case Acknowledge(c) =>
        CallKeeps(r, j, c);
        PhaseKeeps(r, CallMade(j, c));
      case Ask => AskKeeps(r, j);
      case Tell => TellKeeps(r, j);
      case Elsewhere(c) => CallKeeps(r, j, c);
    }
  }

  lemma {:induction false} ReceivedBefore(j: Joint, s: Step, k: int)
    requires WellFormed(Taken(j, s).received, k)
    ensures WellFormed(j.received, k)
  {
    hide WellFormed, Asked, Told, CallMade;
    OnlyReceiveReceives(j, s);
    WellFormedPrefix(Taken(j, s).received, k, |j.received|);
  }

  lemma {:induction false} OnlyReceiveReceives(j: Joint, s: Step)
    ensures Taken(j, s).received == if s.Receive? then j.received + [s.elem] else j.received
  {}

  lemma {:induction false} StepsKeep(r: Resumed, expected: set<SubtaskKey>, steps: seq<Step>)
    requires Agrees(r, Start(expected)) && ValidSteps(expected, steps, r.key) && WellFormed(JointOf(expected, steps).received, r.k)
    ensures Agrees(r, JointOf(expected, steps))
  {
    hide Agrees, MayTake, Taken, WellFormed;
    if steps != [] {
      var j, s := JointOf(expected, steps[..|steps| - 1]), steps[|steps| - 1];
      ReceivedBefore(j, s, r.k);
      StepsKeep(r, expected, steps[..|steps| - 1]);
      TakeKeeps(r, j, s);
    }
  }

  lemma {:induction false} StartAgrees(past: Past, key: SubtaskKey, expected: set<SubtaskKey>)
    requires ValidEvents(EventsOf(past)) && Allowed(LedgerOf(EventsOf(past)), Restore) && key in expected
    ensures Agrees(Resumed(EventsOf(past) + [Restore], Resume(past), LedgerOf(EventsOf(past)).complete, key), Start(expected))
  {
    hide Co.CheckpointSafe, EventsOf;
    var prior := EventsOf(past);
    AllowedMore(prior, Restore);
    RunIsGood(map[], prior);
    Co.InitialSafe(expected);
    assert (prior + [Restore]) + [] == prior + [Restore];
  }

  // ----- What the loop itself does ------------------------------------------------------------

  /** What the sink does, without what completes beside it. */
  function OwnEvents(events: seq<Event>): seq<Event> {
    if events == [] then []
    else if events[|events| - 1].Completes? then OwnEvents(events[..|events| - 1])
    else OwnEvents(events[..|events| - 1]) + [events[|events| - 1]]
  }

  function Answer(answers: seq<set<int>>): nat -> set<int> {
    (n: nat) => if n < |answers| then answers[n] else {}
  }

  function Final(answers: seq<set<int>>): set<int> {
    if answers == [] then {} else answers[|answers| - 1]
  }

  /** What the sink's loop makes of a stream when it is given these answers. */
  function Trail(received: seq<Element>, answers: seq<set<int>>): Trace {
    TraceOf(received, Answer(answers), Final(answers))
  }

  /** Between elements the sink has done what its loop asks for, up to the notifications that are
      still to come; with a barrier or the end of the stream taken, it has yet to ask. */
  ghost predicate InLoop(j: Joint) {
    if j.phase.Unacknowledged? || j.phase.Asking? then
      j.received != [] && |j.answers| == |j.received| - 1 && AboutToAsk(j, j.received[|j.received| - 1], Trail(j.received[..|j.received| - 1], j.answers))
    else
      |j.answers| == |j.received| && Trail(j.received, j.answers) == Trace(j.staged, OwnEvents(j.events) + Notifications(Left(j.phase)))
  }

  predicate AboutToAsk(j: Joint, e: Element, t: Trace) {
    match e
    case BarrierElement(id, _) => j.staged == t.staged + [id] && OwnEvents(j.events) == t.events + [Barrier]
    case EndOfStream => j.staged == t.staged && OwnEvents(j.events) == t.events
    case _ => false
  }

  lemma {:induction false} OwnOneMore(events: seq<Event>, e: Event)
    ensures OwnEvents(events + [e]) == if e.Completes? then OwnEvents(events) else OwnEvents(events) + [e]
  {
    assert (events + [e])[..|events|] == events;
  }

  lemma {:induction false} OwnOfCompletions(events: seq<Event>, ids: seq<int>)
    ensures OwnEvents(events + Completions(ids)) == OwnEvents(events)
  {
    if ids == [] {
      assert events + Completions(ids) == events;
    } else {
      var init := ids[..|ids| - 1];
      OwnOfCompletions(events, init);
      OwnOneMore(events + Completions(init), Completes(ids[|ids| - 1]));
      assert events + Completions(ids) == (events + Completions(init)) + [Completes(ids[|ids| - 1])];
    }
  }

  /** Only the answers at the stream's own elements matter, and the final one only at its end. */
  lemma {:induction false} SameAnswers(received: seq<Element>, complete: nat -> set<int>, complete': nat -> set<int>, final: set<int>, final': set<int>)
    requires forall n :: 0 <= n < |received| ==> complete(n) == complete'(n) && !received[n].EndOfStream?
    ensures TraceOf(received, complete, final) == TraceOf(received, complete', final')
  {
    hide Notifications, CompleteOf, StillStaged;
    if received != [] {
      SameAnswers(received[..|received| - 1], complete, complete', final, final');
    }
  }

  lemma {:induction false} TrailOneMore(received: seq<Element>, answers: seq<set<int>>, e: Element, a: set<int>)
    requires |answers| == |received| && forall n :: 0 <= n < |received| ==> !received[n].EndOfStream?
    ensures var t := Trail(received, answers);
            Trail(received + [e], answers + [a]) ==
              match e
              case RecordElement(rec) => Trace(t.staged, t.events + [Write(rec)])
              case BarrierElement(id, _) => Trace(StillStaged(t.staged + [id], a), t.events + [Barrier] + Notifications(CompleteOf(t.staged + [id], a)))
              case WatermarkElement(_) => t
              case EndOfStream => Trace(StillStaged(t.staged, a), t.events + Notifications(CompleteOf(t.staged, a)))
  {
    hide Notifications, CompleteOf, StillStaged;
    assert (received + [e])[..|received|] == received;
    SameAnswers(received, Answer(answers + [a]), Answer(answers), Final(answers + [a]), Final(answers));
  }

  lemma {:induction false} CallInLoop(j: Joint, c: Call)
    requires InLoop(j)
    ensures InLoop(CallMade(j, c)) && CallMade(j, c).phase == j.phase
  {
    hide Co.Step, Trail, OwnEvents, Completions;
    OwnOfCompletions(j.events, c.seen);
  }

  lemma {:induction false} ReceiveInLoop(j: Joint, e: Element, k: int)
    requires InLoop(j) && j.phase.Ready? && WellFormed(j.received + [e], k)
    ensures InLoop(Received(j, e))
  {
    hide Trail, OwnEvents, NumBarriers;
    assert (j.received + [e])[..|j.received|] == j.received;
    forall n | 0 <= n < |j.received| ensures !j.received[n].EndOfStream? {
      assert (j.received + [e])[n] == j.received[n];
    }
    assert Notifications(Left(Ready)) == [];
    assert OwnEvents(j.events) + [] == OwnEvents(j.events);
    match e {
      case RecordElement(rec) =>
        TrailOneMore(j.received, j.answers, e, {});
        OwnOneMore(j.events, Write(rec));
        assert OwnEvents(j.events + [Write(rec)]) + [] == OwnEvents(j.events + [Write(rec)]);
      case BarrierElement(_, _) => OwnOneMore(j.events, Barrier);
      case WatermarkElement(_) => TrailOneMore(j.received, j.answers, e, {});
      case EndOfStream =>
    }
  }

  lemma {:induction false} AskInLoop(j: Joint, k: int)
    requires InLoop(j) && j.phase.Asking? && WellFormed(j.received, k)
    ensures InLoop(Asked(j))
  {
    hide Trail, OwnEvents, Notifications, NumBarriers, CompleteOf, StillStaged, Co.CompletedOf, CompleteNow;
    var init, e := j.received[..|j.received| - 1], j.received[|j.received| - 1];
    assert init + [e] == j.received;
    TrailOneMore(init, j.answers, e, CompleteNow(j.co));
    AskedAre(j.co, j.staged);
    assert Left(Notifying(Co.CompletedOf(j.co, j.staged))) == Co.CompletedOf(j.co, j.staged);
  }

  lemma {:induction false} FirstNotification(ids: seq<int>)
    requires ids != []
    ensures Notifications(ids) == [Notify(ids[0])] + Notifications(ids[1..])
  {
    forall i | 0 <= i < |ids| ensures Notifications(ids)[i] == ([Notify(ids[0])] + Notifications(ids[1..]))[i] {}
  }

  lemma {:induction false} TellInLoop(j: Joint)
    requires InLoop(j) && j.phase.Telling?
    ensures InLoop(Told(j))
  {
    hide Trail, OwnEvents;
    var left := Left(j.phase);
    if left != [] {
      OwnOneMore(j.events, Notify(left[0]));
      assert Left(Notifying(left[1..])) == left[1..];
      FirstNotification(left);
      assert OwnEvents(j.events) + Notifications(left) == (OwnEvents(j.events) + [Notify(left[0])]) + Notifications(left[1..]);
    }
  }

  lemma {:induction false} StepsInLoop(expected: set<SubtaskKey>, steps: seq<Step>, key: SubtaskKey, k: int)
    requires ValidSteps(expected, steps, key) && WellFormed(JointOf(expected, steps).received, k)
    ensures InLoop(JointOf(expected, steps))
  {
    hide InLoop, WellFormed, ValidCall, Told, Asked, CallMade, Received;
    if steps == [] {
      StartInLoop(expected);
    } else {
      var j, s := JointOf(expected, steps[..|steps| - 1]), steps[|steps| - 1];
      ReceivedBefore(j, s, k);
      OnlyReceiveReceives(j, s);
      StepsInLoop(expected, steps[..|steps| - 1], key, k);
      match s {
        case Receive(e) => ReceiveInLoop(j, e, k);
        case Acknowledge(c) =>
          CallInLoop(j, c);
          AcknowledgedInLoop(CallMade(j, c), j.phase.id);
        case Ask => AskInLoop(j, k);
        case Tell => TellInLoop(j);
        case Elsewhere(c) => CallInLoop(j, c);
      }
    }
  }

  lemma {:induction false} StartInLoop(expected: set<SubtaskKey>)
    ensures InLoop(Start(expected))
  {}

  lemma {:induction false} AcknowledgedInLoop(j: Joint, id: int)
    requires InLoop(j) && j.phase == Unacknowledged(id)
    ensures InLoop(j.(phase := Asking))
  {
    hide Trail, OwnEvents;
  }

  predicate WhileRunning(events: seq<Event>) {
    forall i :: 0 <= i < |events| ==> events[i].Write? || events[i].Barrier? || events[i].Completes? || events[i].Notify?
  }

  lemma {:induction false} DrivenWhileRunning(received: seq<Element>, events: seq<Event>)
    requires Drives(received, events)
    ensures WhileRunning(events)
    decreases |received| + |events|
  {
    if events != [] && (events[|events| - 1].Completes? || events[|events| - 1].Notify?) {
      DrivenWhileRunning(received, events[..|events| - 1]);
    } else if received != [] {
      var init, e := received[..|received| - 1], received[|received| - 1];
      DrivenWhileRunning(init, if e.RecordElement? || e.BarrierElement? then events[..|events| - 1] else events);
    }
  }

  /** Completions leave the sink and its files alone, and beside them a run does what `Work` says. */
  lemma {:induction false} RunIsWork(leavings: Epochs, prior: seq<Event>, events: seq<Event>)
    requires WhileRunning(events)
    ensures RunOf(leavings, prior + events) == Work(RunOf(leavings, prior), OwnEvents(events))
  {
    hide Happen, LedgerOf;
    if events == [] {
      assert prior + events == prior;
    } else {
      var init, last := events[..|events| - 1], events[|events| - 1];
      RunIsWork(leavings, prior, init);
      assert (prior + events)[..|prior + events| - 1] == prior + init;
      WorkOneMore(RunOf(leavings, prior), OwnEvents(init), last);
      QuietOrOwn(RunOf(leavings, prior + init), LedgerOf(prior + init), last);
    }
  }

  lemma {:induction false} QuietOrOwn(x: Effect, l: Ledger, e: Event)
    ensures e.Completes? ==> Happen(x, l, e) == x
    ensures e.Write? || e.Barrier? || e.Notify? ==> Happen(x, l, e) == Happen(x, EMPTY, e)
  {}

  // ----- All the runs ------------------------------------------------------------------------

  /** Crashed runs, each stopped between any two steps, and interrupted restores, oldest first. The
      coordinator starts anew with each run. */
  datatype History =
    | Begun
    | Stopped(before: History, expected: set<SubtaskKey>, steps: seq<Step>, tail: Option<seq<Record>>)
    | Unsettled(before: History, settled: set<int>)

  function PastOf(h: History): Past {
    match h
    case Begun => Begin
    case Stopped(before, expected, steps, tail) =>
      Crashed(PastOf(before), JointOf(expected, steps).received, JointOf(expected, steps).events, tail)
    case Unsettled(before, settled) => Interrupted(PastOf(before), settled)
  }

  /** The sink is one of the job's subtasks and each run resumes at the highest complete checkpoint. */
  ghost predicate ValidRun(h: History, expected: set<SubtaskKey>, steps: seq<Step>, key: SubtaskKey) {
    key in expected && ValidSteps(expected, steps, key) && WellFormed(JointOf(expected, steps).received, Resume(PastOf(h)))
  }

  ghost predicate ValidHistory(h: History, key: SubtaskKey) {
    match h
    case Begun => true
    case Stopped(before, expected, steps, _) => ValidHistory(before, key) && ValidRun(before, expected, steps, key)
    case Unsettled(before, _) => ValidHistory(before, key)
  }

  /** A run that ends, one way or the other. */
  lemma {:induction false} RunEnds(h: History, expected: set<SubtaskKey>, steps: seq<Step>, key: SubtaskKey, last: Event)
    requires ValidEvents(EventsOf(PastOf(h))) && Allowed(LedgerOf(EventsOf(PastOf(h))), Restore)
    requires ValidRun(h, expected, steps, key) && (last.Succeed? || last.Crash?)
    ensures var j := JointOf(expected, steps);
            var all := EventsOf(PastOf(h)) + [Restore] + j.events;
            && Drives(j.received, j.events) && ValidEvents(all + [last])
            && LedgerOf(all + [last]) == Note(LedgerOf(all), last)
            && LedgerAgrees(Resumed([], Resume(PastOf(h)), LedgerOf(EventsOf(PastOf(h))).complete, key), j.co, LedgerOf(all), NumBarriers(j.received))
  {
    hide ValidSteps, JointOf, WellFormed, EventsOf, Drives, ValidEvents, LedgerOf, CoordinatorAgrees, NumBarriers, CompleteNow;
    var past := PastOf(h);
    var r := Resumed(EventsOf(past) + [Restore], Resume(past), LedgerOf(EventsOf(past)).complete, key);
    StartAgrees(past, key, expected);
    StepsKeep(r, expected, steps);
    AllowedMore(r.prior + JointOf(expected, steps).events, last);
  }

  lemma {:induction false} HistoryIsValid(h: History, key: SubtaskKey)
    requires ValidHistory(h, key)
    ensures ValidPast(PastOf(h)) && Allowed(LedgerOf(EventsOf(PastOf(h))), Restore)
  {
    hide ValidRun, JointOf, Drives, LedgerOf, ValidEvents;
    match h {
      case Begun => NothingYetValid();
      case Stopped(before, expected, steps, tail) =>
        HistoryIsValid(before, key);
        assert ValidEvents(EventsOf(PastOf(before))) by { PastEvents(PastOf(before)); }
        RunEnds(before, expected, steps, key, Crash(tail));
      case Unsettled(before, settled) =>
        HistoryIsValid(before, key);
        assert ValidEvents(EventsOf(PastOf(before))) by { PastEvents(PastOf(before)); }
        AllowedMore(EventsOf(PastOf(before)), InterruptedRestore(settled));
    }
  }

  lemma {:induction false} NothingYetValid()
    ensures ValidEvents([]) && Allowed(LedgerOf([]), Restore)
  {}

  lemma {:induction false} PastEvents(past: Past)
    requires ValidPast(past)
    ensures ValidEvents(EventsOf(past))
  {}

  // ----- Main results ------------------------------------------------------------------------

  /** The sink's loop and the coordinator together are a run of the two-phase commit. Stop them
      anywhere, any number of times: the sink's events come in the order of its stream, no
      checkpoint completes before its barrier here, and none is notified before it completes. So
      all that holds of valid runs of a sink holds of these. */
  lemma {:induction false} JointRunsAreValid(h: History, expected: set<SubtaskKey>, steps: seq<Step>, key: SubtaskKey)
    requires ValidHistory(h, key) && ValidRun(h, expected, steps, key)
    ensures SinkRuns(PastOf(h), JointOf(expected, steps).received, JointOf(expected, steps).events).Valid()
  {
    hide ValidRun, JointOf, Drives, LedgerAgrees, ValidEvents, LedgerOf, EventsOf;
    HistoryIsValid(h, key);
    RunEnds(h, expected, steps, key, Succeed);
  }

  /** After a crash the next run resumes at the highest checkpoint with a marker in sight: at or above
      every one the coordinator completed, and at one that a marker vouches for. */
  lemma {:induction false} ResumesAtTheHighest(h: History, expected: set<SubtaskKey>, steps: seq<Step>, tail: Option<seq<Record>>, key: SubtaskKey)
    requires ValidHistory(h, key) && ValidRun(h, expected, steps, key)
    ensures var co, next := JointOf(expected, steps).co, Resume(PastOf(Stopped(h, expected, steps, tail)));
            && (forall id :: id in CompleteNow(co) ==> id <= next)
            && (next == Resume(PastOf(h)) || (next > Resume(PastOf(h)) && next in co.markers))
  {
    hide ValidRun, JointOf, Drives, ValidEvents, LedgerOf, ValidPast, CompleteNow;
    HistoryIsValid(h, key);
    assert ValidEvents(EventsOf(PastOf(h))) by { PastEvents(PastOf(h)); }
    RunEnds(h, expected, steps, key, Crash(tail));
  }

  /** Between elements, the sink's loop over what it has received, with the coordinator's answers, has
      left the sink and its files exactly where the run of the two-phase commit has them. */
  lemma {:induction false} TheLoopIsTheRun(h: History, expected: set<SubtaskKey>, steps: seq<Step>, key: SubtaskKey, leavings: Epochs)
    requires ValidHistory(h, key) && ValidRun(h, expected, steps, key) && JointOf(expected, steps).phase.Ready?
    ensures var j, prior := JointOf(expected, steps), EventsOf(PastOf(h)) + [Restore];
            && Trail(j.received, j.answers).staged == j.staged
            && RunOf(leavings, prior + j.events) == Work(RunOf(leavings, prior), Trail(j.received, j.answers).events)
  {
    hide JointOf, Drives, RunOf, EventsOf, WellFormed, ValidSteps, OwnEvents, Trail, Work, LedgerAgrees, ValidEvents, LedgerOf;
    var j := JointOf(expected, steps);
    HistoryIsValid(h, key);
    RunEnds(h, expected, steps, key, Succeed);
    StepsInLoop(expected, steps, key, Resume(PastOf(h)));
    DrivenWhileRunning(j.received, j.events);
    RunIsWork(leavings, EventsOf(PastOf(h)) + [Restore], j.events);
    assert Notifications(Left(Ready)) == [] && OwnEvents(j.events) + [] == OwnEvents(j.events);
  }
}
