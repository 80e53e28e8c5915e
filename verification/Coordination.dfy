/** The checkpoint coordinator as a state machine: acknowledgements, finished subtasks and
    failures in any order, with any storage call free to fail. What it vouches for, that nothing
    is undone and nobody left waiting, when a checkpoint is left open, and where payloads come from. */
module Coordination {
  import opened Elements

  /** One checkpoint's progress. The per-subtask record is dropped once it is terminal. */
  datatype Progress = Progress(acked: set<SubtaskKey>, complete: bool, abandoned: bool) {
    predicate Terminal() { complete || abandoned }
  }

  /** A call into storage that an operation may find failing. The marker can fail before it is in
      place or, when only the directory sync after it fails, once it is. */
  datatype Call = StateFile(id: int, key: SubtaskKey) | Marker(id: int) | MarkerSync(id: int)

  /** `files` and `markers` are what storage holds. `acknowledged` records, for the proof alone,
      the payload each counted acknowledgement carried. */
  datatype State = State(
    expected: set<SubtaskKey>,
    progress: map<int, Progress>,
    done: map<SubtaskKey, Bytes>,
    generation: nat,
    files: map<(int, SubtaskKey), Bytes>,
    markers: set<int>,
    acknowledged: map<(int, SubtaskKey), Bytes>)

  datatype Outcome = Outcome(state: State, ok: bool)

  function Initial(expected: set<SubtaskKey>): State {
    State(expected, map[], map[], 0, map[], {}, map[])
  }

  /** The record for a checkpoint, made on first mention. */
  function ProgressFor(s: State, id: int): Progress {
    if id in s.progress then s.progress[id] else Progress({}, false, false)
  }

  /** The live subtasks that have not acknowledged. */
  function Outstanding(s: State, p: Progress): set<SubtaskKey> {
    set k | k in s.expected && k !in p.acked && k !in s.done
  }

  function DonePayload(s: State, k: SubtaskKey): Bytes {
    if k in s.done then s.done[k] else []
  }

  function WithProgress(s: State, id: int, p: Progress): State {
    s.(progress := s.progress[id := p])
  }

  function WriteFile(s: State, id: int, k: SubtaskKey, payload: Bytes): State {
    s.(files := s.files[(id, k) := payload])
  }

  /** Given up on: every waiter is woken. */
  function Abandon(s: State, id: int): State {
    WithProgress(s, id, Progress({}, ProgressFor(s, id).complete, true)).(generation := s.generation + 1)
  }

  /** Writes the final payload of each finished subtask that did not acknowledge, stopping at the
      first write that fails. */
  function WriteMissing(s: State, id: int, keys: seq<SubtaskKey>, faults: set<Call>): Outcome {
    if keys == [] then Outcome(s, true)
    else
      var r := WriteMissing(s, id, keys[..|keys| - 1], faults);
      var k := keys[|keys| - 1];
      if !r.ok || k in ProgressFor(s, id).acked then r
      else if StateFile(id, k) in faults then Outcome(r.state, false)
      else Outcome(WriteFile(r.state, id, k, DonePayload(s, k)), true)
  }

  /** The missing files, then the marker, and only then is anyone told. */
  function Complete(s: State, id: int, keys: seq<SubtaskKey>, faults: set<Call>): Outcome {
    var r := WriteMissing(s, id, keys, faults);
    if !r.ok || Marker(id) in faults then Outcome(Abandon(r.state, id), false)
    else
      var marked := r.state.(markers := r.state.markers + {id});
      if MarkerSync(id) in faults then Outcome(Abandon(marked, id), false)
      else Outcome(WithProgress(marked, id, Progress({}, true, ProgressFor(s, id).abandoned)).(generation := s.generation + 1), true)
  }

  /** The acknowledgement of a subtask whose payload has been written is counted. */
  function Count(s: State, id: int, k: SubtaskKey, payload: Bytes): State {
    var p := ProgressFor(s, id);
    WithProgress(WriteFile(s, id, k, payload), id, p.(acked := p.acked + {k}))
      .(acknowledged := s.acknowledged[(id, k) := payload])
  }

  /** The payload is written before the acknowledgement is counted; the last one outstanding
      completes the checkpoint. An acknowledgement of an abandoned checkpoint is nothing to record
      and nothing wrong. */
  function Acknowledge(s: State, id: int, k: SubtaskKey, payload: Bytes, keys: seq<SubtaskKey>, faults: set<Call>): Outcome {
    if k !in s.expected then Outcome(s, false)
    else
      var p := ProgressFor(s, id);
      var s1 := WithProgress(s, id, p);
      if p.abandoned then Outcome(s1, true)
      else if p.complete || k in p.acked then Outcome(s1, false)
      else if StateFile(id, k) in faults then Outcome(Abandon(s1, id), false)
      else
        var counted := Count(s1, id, k, payload);
        if Outstanding(counted, ProgressFor(counted, id)) != {} then Outcome(counted, true)
        else Complete(counted, id, keys, faults)
  }

  /** Completes, in the order given, the open checkpoints that no live subtask owes; a failure
      stops the sweep. */
  function Sweep(s: State, ids: seq<int>, orders: int -> seq<SubtaskKey>, faults: set<Call>): Outcome {
    if ids == [] then Outcome(s, true)
    else
      var r := Sweep(s, ids[..|ids| - 1], orders, faults);
      var id := ids[|ids| - 1];
      if !r.ok || !Owed(r.state, id) then r else Complete(r.state, id, orders(id), faults)
  }

  /** An open checkpoint that waits for nobody. */
  predicate Owed(s: State, id: int) {
    id in s.progress && !s.progress[id].Terminal() && Outstanding(s, s.progress[id]) == {}
  }

  function Finished(s: State, k: SubtaskKey, payload: Bytes, ids: seq<int>, orders: int -> seq<SubtaskKey>, faults: set<Call>): Outcome {
    if k !in s.expected || k in s.done then Outcome(s, false)
    else Sweep(s.(done := s.done[k := payload]), ids, orders, faults)
  }

  function Fail(s: State, id: int): State {
    var s1 := WithProgress(s, id, ProgressFor(s, id));
    if s1.progress[id].complete then s1 else Abandon(s1, id)
  }

  // ----- Runs ------------------------------------------------------------------------------

  /** `keys` and `ids` are the orders in which the two maps happen to be walked. */
  datatype Event =
    | Ack(id: int, key: SubtaskKey, payload: Bytes, keys: seq<SubtaskKey>, faults: set<Call>)
    | Finish(key: SubtaskKey, payload: Bytes, ids: seq<int>, orders: int -> seq<SubtaskKey>, faults: set<Call>)
    | Failure(id: int)

  predicate Enumerates<T(==)>(order: seq<T>, all: set<T>) {
    && (forall x :: x in all ==> x in order) && (forall x :: x in order ==> x in all)
    && Distinct(order)
  }

  ghost predicate ValidEvent(s: State, e: Event) {
    match e
    case Ack(_, _, _, keys, _) => Enumerates(keys, s.expected)
    case Finish(_, _, ids, orders, _) => (forall id :: Enumerates(orders(id), s.expected)) && Enumerates(ids, s.progress.Keys)
    case Failure(_) => true
  }

  function Step(s: State, e: Event): State {
    match e
    case Ack(id, k, payload, keys, faults) => Acknowledge(s, id, k, payload, keys, faults).state
    case Finish(k, payload, ids, orders, faults) => Finished(s, k, payload, ids, orders, faults).state
    case Failure(id) => Fail(s, id)
  }

  function RunOf(s: State, events: seq<Event>): State {
    if events == [] then s else Step(RunOf(s, events[..|events| - 1]), events[|events| - 1])
  }

  ghost predicate ValidRun(s: State, events: seq<Event>) {
    events == [] ||
    (ValidRun(s, events[..|events| - 1]) && ValidEvent(RunOf(s, events[..|events| - 1]), events[|events| - 1]))
  }

  // ----- Safety ----------------------------------------------------------------------------

  /** Storage holds, for every subtask of the job, the payload it acknowledged this checkpoint
      with, or else the one it finished with. */
  ghost predicate Vouched(s: State, id: int) {
    forall k :: k in s.expected ==>
      && (id, k) in s.files
      && ((id, k) in s.acknowledged || k in s.done)
      && s.files[(id, k)] == if (id, k) in s.acknowledged then s.acknowledged[(id, k)] else s.done[k]
  }

  /** The files of the subtasks counted so far are the payloads they acknowledged. */
  ghost predicate CountedStored(s: State, id: int) {
    forall k :: k in ProgressFor(s, id).acked ==>
      k in s.expected && (id, k) in s.acknowledged && (id, k) in s.files && s.files[(id, k)] == s.acknowledged[(id, k)]
  }

  /** Of an open checkpoint, the acknowledgements counted are all there have been. */
  ghost predicate OpenIsExact(s: State, id: int) {
    !ProgressFor(s, id).Terminal() ==> forall k :: (id, k) in s.acknowledged ==> k in ProgressFor(s, id).acked
  }

  ghost predicate CheckpointSafe(s: State, id: int) {
    var p := ProgressFor(s, id);
    && !(p.complete && p.abandoned)
    && (p.Terminal() ==> p.acked == {})
    && CountedStored(s, id) && OpenIsExact(s, id)
    && (p.complete ==> id in s.markers)
    && (id in s.markers ==> p.Terminal() && Vouched(s, id))
  }

  ghost predicate Safe(s: State) {
    forall id :: CheckpointSafe(s, id)
  }

  /** What one operation leaves of another checkpoint. */
  ghost predicate SameFor(s: State, s': State, id: int) {
    && s'.expected == s.expected && s'.done == s.done
    && ProgressFor(s', id) == ProgressFor(s, id)
    && (id in s.markers <==> id in s'.markers)
    && (forall k :: (id, k) in s.files <==> (id, k) in s'.files)
    && (forall k :: (id, k) in s.files ==> s.files[(id, k)] == s'.files[(id, k)])
    && (forall k :: (id, k) in s.acknowledged <==> (id, k) in s'.acknowledged)
    && (forall k :: (id, k) in s.acknowledged ==> s.acknowledged[(id, k)] == s'.acknowledged[(id, k)])
  }

  lemma {:induction false} SameKeepsSafe(s: State, s': State, id: int)
    requires CheckpointSafe(s, id) && SameFor(s, s', id)
    ensures CheckpointSafe(s', id)
  {}

  lemma {:induction false} WriteMissingEffect(s: State, id: int, keys: seq<SubtaskKey>, faults: set<Call>)
    ensures var r := WriteMissing(s, id, keys, faults);
            && r.state == s.(files := r.state.files)
            && (forall j, k :: j != id || k !in keys || k in ProgressFor(s, id).acked ==>
                  ((j, k) in r.state.files <==> (j, k) in s.files) && ((j, k) in s.files ==> r.state.files[(j, k)] == s.files[(j, k)]))
            && (r.ok ==> forall k :: k in keys && k !in ProgressFor(s, id).acked ==>
                  (id, k) in r.state.files && r.state.files[(id, k)] == DonePayload(s, k))
  {
    if keys != [] {
      var init := keys[..|keys| - 1];
      WriteMissingEffect(s, id, init, faults);
      assert forall k :: k in keys <==> k in init || k == keys[|keys| - 1];
    }
  }

  lemma {:induction false} CompleteElsewhere(s: State, id: int, keys: seq<SubtaskKey>, faults: set<Call>, j: int)
    requires j != id
    ensures SameFor(s, Complete(s, id, keys, faults).state, j)
  {
    WriteMissingEffect(s, id, keys, faults);
  }

  /** Completing a checkpoint that waits for nobody vouches for it, or abandons it. */
  lemma {:induction false} CompleteHere(s: State, id: int, keys: seq<SubtaskKey>, faults: set<Call>)
    requires CheckpointSafe(s, id) && Owed(s, id) && Enumerates(keys, s.expected)
    ensures CheckpointSafe(Complete(s, id, keys, faults).state, id)
  {
    WriteMissingEffect(s, id, keys, faults);
    var r := WriteMissing(s, id, keys, faults);
    if r.ok {
      forall k | k in s.expected
        ensures (id, k) in r.state.files && ((id, k) in s.acknowledged || k in s.done)
        ensures r.state.files[(id, k)] == if (id, k) in s.acknowledged then s.acknowledged[(id, k)] else s.done[k]
      {
        assert k !in Outstanding(s, s.progress[id]);
      }
    }
  }

  lemma {:induction false} CompleteSafe(s: State, id: int, keys: seq<SubtaskKey>, faults: set<Call>)
    requires Safe(s) && Owed(s, id) && Enumerates(keys, s.expected)
    ensures Safe(Complete(s, id, keys, faults).state)
  {
    hide CheckpointSafe, SameFor, Complete, Owed, Enumerates;
    var s' := Complete(s, id, keys, faults).state;
    forall j ensures CheckpointSafe(s', j) {
      if j == id {
        CompleteHere(s, id, keys, faults);
      } else {
        CompleteElsewhere(s, id, keys, faults, j);
        SameKeepsSafe(s, s', j);
      }
    }
  }

  lemma {:induction false} AbandonSafe(s: State, id: int)
    requires Safe(s) && !ProgressFor(s, id).complete
    ensures Safe(Abandon(s, id))
  {
    var s' := Abandon(s, id);
    forall j ensures CheckpointSafe(s', j) {
      assert CheckpointSafe(s, j);
    }
  }

  lemma {:induction false} MentionSafe(s: State, id: int)
    requires Safe(s)
    ensures Safe(WithProgress(s, id, ProgressFor(s, id)))
  {
    hide CheckpointSafe;
    var s' := WithProgress(s, id, ProgressFor(s, id));
    forall j ensures CheckpointSafe(s', j) {
      SameKeepsSafe(s, s', j);
    }
  }

  lemma {:induction false} CountSafe(s: State, id: int, k: SubtaskKey, payload: Bytes)
    requires Safe(s) && k in s.expected && !ProgressFor(s, id).Terminal()
    ensures Safe(Count(s, id, k, payload))
  {
    var s' := Count(s, id, k, payload);
    forall j ensures CheckpointSafe(s', j) {
      assert CheckpointSafe(s, j);
      if j != id {
        assert SameFor(s, s', j);
        SameKeepsSafe(s, s', j);
      }
    }
  }

  lemma {:induction false} AcknowledgeSafe(s: State, id: int, k: SubtaskKey, payload: Bytes, keys: seq<SubtaskKey>, faults: set<Call>)
    requires Safe(s) && Enumerates(keys, s.expected)
    ensures Safe(Acknowledge(s, id, k, payload, keys, faults).state)
  {
    hide CheckpointSafe, Complete, Enumerates;
    if k in s.expected {
      MentionSafe(s, id);
      var s1 := WithProgress(s, id, ProgressFor(s, id));
      if !ProgressFor(s1, id).Terminal() {
        if StateFile(id, k) in faults {
          AbandonSafe(s1, id);
        } else {
          CountSafe(s1, id, k, payload);
          var counted := Count(s1, id, k, payload);
          if Outstanding(counted, ProgressFor(counted, id)) == {} {
            CompleteSafe(counted, id, keys, faults);
          }
        }
      }
    }
  }

  lemma {:induction false} DoneSafe(s: State, k: SubtaskKey, payload: Bytes)
    requires Safe(s) && k !in s.done
    ensures Safe(s.(done := s.done[k := payload]))
  {
    var s' := s.(done := s.done[k := payload]);
    forall j ensures CheckpointSafe(s', j) {
      assert CheckpointSafe(s, j);
    }
  }

  lemma {:induction false} CompleteKeeps(s: State, id: int, keys: seq<SubtaskKey>, faults: set<Call>)
    ensures var s' := Complete(s, id, keys, faults).state;
            s'.expected == s.expected && s'.done == s.done && s'.generation == s.generation + 1 && s'.acknowledged == s.acknowledged
            && (forall j :: j != id ==> (j in s'.markers <==> j in s.markers))
    ensures Complete(s, id, keys, faults).state.progress ==
            s.progress[id := Progress({}, ProgressFor(s, id).complete || Complete(s, id, keys, faults).ok, ProgressFor(s, id).abandoned || !Complete(s, id, keys, faults).ok)]
  {
    WriteMissingEffect(s, id, keys, faults);
  }

  lemma {:induction false} SweepSafe(s: State, ids: seq<int>, orders: int -> seq<SubtaskKey>, faults: set<Call>)
    requires Safe(s) && (forall id :: Enumerates(orders(id), s.expected))
    ensures Safe(Sweep(s, ids, orders, faults).state) && Sweep(s, ids, orders, faults).state.expected == s.expected
  {
    hide CheckpointSafe, Complete, Enumerates, Owed;
    if ids != [] {
      var init, id := ids[..|ids| - 1], ids[|ids| - 1];
      SweepSafe(s, init, orders, faults);
      var r := Sweep(s, init, orders, faults);
      if r.ok && Owed(r.state, id) {
        CompleteSafe(r.state, id, orders(id), faults);
        CompleteKeeps(r.state, id, orders(id), faults);
      }
    }
  }

  lemma {:induction false} StepSafe(s: State, e: Event)
    requires Safe(s) && ValidEvent(s, e)
    ensures Safe(Step(s, e))
  {
    hide CheckpointSafe, Sweep, Enumerates;
    match e {
      case Ack(id, k, payload, keys, faults) => AcknowledgeSafe(s, id, k, payload, keys, faults);
      case Finish(k, payload, ids, orders, faults) =>
        if k in s.expected && k !in s.done {
          DoneSafe(s, k, payload);
          SweepSafe(s.(done := s.done[k := payload]), ids, orders, faults);
        }
      case Failure(id) =>
        MentionSafe(s, id);
        var s1 := WithProgress(s, id, ProgressFor(s, id));
        if !s1.progress[id].complete {
          AbandonSafe(s1, id);
        }
    }
  }

  /** Over any interleaving of acknowledgements, finished subtasks and failures, with any storage
      call failing: a marker is in place, and so a checkpoint complete, only when storage holds
      for every subtask of the job the payload it acknowledged, or else finished, with. Complete
      and abandoned exclude one another. */
  lemma {:induction false} RunIsSafe(expected: set<SubtaskKey>, events: seq<Event>)
    requires ValidRun(Initial(expected), events)
    ensures Safe(RunOf(Initial(expected), events))
  {
    hide CheckpointSafe, Step;
    if events == [] {
      InitialSafe(expected);
    } else {
      var init := events[..|events| - 1];
      RunIsSafe(expected, init);
      StepSafe(RunOf(Initial(expected), init), events[|events| - 1]);
    }
  }

  lemma {:induction false} InitialSafe(expected: set<SubtaskKey>)
    ensures Safe(Initial(expected))
  {
    forall id ensures CheckpointSafe(Initial(expected), id) {}
  }

  // ----- Permanence and waking -------------------------------------------------------------

  /** What a step may do to a checkpoint: nothing to a terminal one, and it wakes the waiters
      whenever one becomes terminal. */
  ghost predicate Moves(s: State, s': State, id: int) {
    var p, p' := ProgressFor(s, id), ProgressFor(s', id);
    && (p.complete ==> p'.complete) && (p.abandoned ==> p'.abandoned)
    && (p.complete && !p.abandoned ==> !p'.abandoned)
    && s'.generation >= s.generation
    && (p.Terminal() != p'.Terminal() ==> s'.generation > s.generation)
    && (id in s.markers ==> id in s'.markers)
  }

  lemma {:induction false} CompleteMoves(s: State, id: int, keys: seq<SubtaskKey>, faults: set<Call>, j: int)
    requires !ProgressFor(s, id).Terminal()
    ensures Moves(s, Complete(s, id, keys, faults).state, j)
  {
    WriteMissingEffect(s, id, keys, faults);
  }

  lemma {:induction false} MovesTogether(a: State, b: State, c: State, id: int)
    requires Moves(a, b, id) && Moves(b, c, id)
    requires ProgressFor(a, id).complete ==> !ProgressFor(a, id).abandoned
    ensures Moves(a, c, id)
  {}

  lemma {:induction false} SweepMoves(s: State, ids: seq<int>, orders: int -> seq<SubtaskKey>, faults: set<Call>, j: int)
    requires ProgressFor(s, j).complete ==> !ProgressFor(s, j).abandoned
    ensures Moves(s, Sweep(s, ids, orders, faults).state, j)
  {
    hide Complete, Moves;
    if ids == [] {
      MovesNothing(s, j);
    } else {
      var init, id := ids[..|ids| - 1], ids[|ids| - 1];
      SweepMoves(s, init, orders, faults, j);
      var r := Sweep(s, init, orders, faults);
      if r.ok && Owed(r.state, id) {
        CompleteMoves(r.state, id, orders(id), faults, j);
        MovesTogether(s, r.state, Complete(r.state, id, orders(id), faults).state, j);
      }
    }
  }

  lemma {:induction false} MovesNothing(s: State, j: int)
    ensures Moves(s, s, j)
  {}

  lemma {:induction false} AcknowledgeMoves(s: State, id: int, k: SubtaskKey, payload: Bytes, keys: seq<SubtaskKey>, faults: set<Call>, j: int)
    ensures Moves(s, Acknowledge(s, id, k, payload, keys, faults).state, j)
  {
    hide Complete;
    if k in s.expected && !ProgressFor(s, id).Terminal() && StateFile(id, k) !in faults {
      var counted := Count(WithProgress(s, id, ProgressFor(s, id)), id, k, payload);
      if Outstanding(counted, ProgressFor(counted, id)) == {} {
        CompleteMoves(counted, id, keys, faults, j);
      }
    }
  }

  /** Complete and abandoned are permanent, and no step that makes a checkpoint terminal leaves a
      waiter asleep: the channel it read beforehand is closed. */
  lemma {:induction false} StepMoves(s: State, e: Event, id: int)
    requires Safe(s)
    ensures Moves(s, Step(s, e), id)
  {
    hide Complete, Sweep;
    assert CheckpointSafe(s, id);
    match e {
      case Ack(i, k, payload, keys, faults) => AcknowledgeMoves(s, i, k, payload, keys, faults, id);
      case Finish(k, payload, ids, orders, faults) =>
        if k in s.expected && k !in s.done {
          SweepMoves(s.(done := s.done[k := payload]), ids, orders, faults, id);
        }
      case Failure(i) =>
    }
  }

  predicate Settled(s: State, ids: seq<int>) {
    forall i :: 0 <= i < |ids| ==> ProgressFor(s, ids[i]).Terminal()
  }

  lemma {:induction false} RunMoves(s: State, events: seq<Event>, id: int)
    requires Safe(s) && ValidRun(s, events)
    ensures Safe(RunOf(s, events)) && Moves(s, RunOf(s, events), id)
  {
    hide Step, CheckpointSafe, Moves, ValidEvent;
    if events == [] {
      MovesNothing(s, id);
    } else {
      var init := events[..|events| - 1];
      RunMoves(s, init, id);
      StepSafe(RunOf(s, init), events[|events| - 1]);
      StepMoves(RunOf(s, init), events[|events| - 1], id);
      assert !(ProgressFor(s, id).complete && ProgressFor(s, id).abandoned) by { SafeExcludes(s, id); }
      MovesTogether(s, RunOf(s, init), RunOf(s, events), id);
    }
  }

  lemma {:induction false} SafeExcludes(s: State, id: int)
    requires Safe(s)
    ensures !(ProgressFor(s, id).complete && ProgressFor(s, id).abandoned)
  {
    assert CheckpointSafe(s, id);
  }

  /** A waiter never misses a transition. It found its checkpoints not settled and took the
      channel of that moment; if they are settled at any later moment, that channel has been
      closed since. And once settled they stay so. */
  lemma {:induction false} WaiterIsWoken(s: State, events: seq<Event>, ids: seq<int>)
    requires Safe(s) && ValidRun(s, events)
    ensures !Settled(s, ids) && Settled(RunOf(s, events), ids) ==> RunOf(s, events).generation > s.generation
    ensures Settled(s, ids) ==> Settled(RunOf(s, events), ids)
  {
    hide Step, CheckpointSafe, ValidEvent, RunOf;
    forall i | 0 <= i < |ids| ensures Moves(s, RunOf(s, events), ids[i]) {
      RunMoves(s, events, ids[i]);
    }
  }

  // ----- Progress --------------------------------------------------------------------------

  /** No checkpoint stays open once nobody owes it anything. */
  predicate NoneOwed(s: State) {
    forall id :: id in s.progress ==> !Owed(s, id)
  }

  /** Without a write failure the sweep completes everything it is given. */
  lemma {:induction false} SweepClears(s: State, ids: seq<int>, orders: int -> seq<SubtaskKey>, faults: set<Call>)
    ensures var r := Sweep(s, ids, orders, faults);
            && r.state.expected == s.expected && r.state.done == s.done
            && r.state.progress.Keys == s.progress.Keys
            && (forall id :: id in s.progress ==> r.state.progress[id] == s.progress[id] || (id in ids && Owed(s, id) && r.state.progress[id].Terminal()))
            && (r.ok ==> forall id :: id in ids ==> !Owed(r.state, id))
            && (faults == {} ==> r.ok)
  {
    hide Complete;
    if ids != [] {
      var init, id := ids[..|ids| - 1], ids[|ids| - 1];
      SweepClears(s, init, orders, faults);
      var r := Sweep(s, init, orders, faults);
      assert forall x :: x in ids <==> x in init || x == id;
      if r.ok && Owed(r.state, id) {
        CompleteKeeps(r.state, id, orders(id), faults);
        NoFaultCompletes(r.state, id, orders(id), faults);
      }
    }
  }

  lemma {:induction false} NoFaultCompletes(s: State, id: int, keys: seq<SubtaskKey>, faults: set<Call>)
    ensures faults == {} ==> Complete(s, id, keys, faults).ok && WriteMissing(s, id, keys, faults).ok
  {
    if keys != [] {
      NoFaultCompletes(s, id, keys[..|keys| - 1], faults);
    }
  }

  /** An acknowledgement never leaves its own or another checkpoint open and owed by nobody, even
      when a write fails. */
  lemma {:induction false} AcknowledgeLeavesNoneOwed(s: State, id: int, k: SubtaskKey, payload: Bytes, keys: seq<SubtaskKey>, faults: set<Call>)
    requires Safe(s) && NoneOwed(s)
    ensures NoneOwed(Acknowledge(s, id, k, payload, keys, faults).state)
  {
    hide Complete, CheckpointSafe;
    if k in s.expected {
      SafeExcludes(s, id);
      var s1 := WithProgress(s, id, ProgressFor(s, id));
      if !ProgressFor(s, id).Terminal() && StateFile(id, k) !in faults && k !in ProgressFor(s, id).acked {
        var counted := Count(s1, id, k, payload);
        CompleteKeeps(counted, id, keys, faults);
      }
    }
  }

  /** Some storage call that completing this checkpoint makes is one of the failing ones. */
  predicate Broken(s: State, id: int, keys: seq<SubtaskKey>, faults: set<Call>) {
    Marker(id) in faults || MarkerSync(id) in faults || exists k :: k in keys && k !in ProgressFor(s, id).acked && StateFile(id, k) in faults
  }

  lemma {:induction false} WriteMissingOk(s: State, id: int, keys: seq<SubtaskKey>, faults: set<Call>)
    ensures WriteMissing(s, id, keys, faults).ok <==> forall k :: k in keys && k !in ProgressFor(s, id).acked ==> StateFile(id, k) !in faults
  {
    if keys != [] {
      WriteMissingOk(s, id, keys[..|keys| - 1], faults);
      assert forall k :: k in keys <==> k in keys[..|keys| - 1] || k == keys[|keys| - 1];
    }
  }

  /** The sweep reaches its end exactly if none of the checkpoints it completes is broken. */
  lemma {:induction false} SweepOk(s: State, ids: seq<int>, orders: int -> seq<SubtaskKey>, faults: set<Call>)
    requires Distinct(ids)
    ensures Sweep(s, ids, orders, faults).ok <==> forall i :: 0 <= i < |ids| && Owed(s, ids[i]) ==> !Broken(s, ids[i], orders(ids[i]), faults)
  {
    hide Complete, WriteMissing;
    if ids != [] {
      var init, id := ids[..|ids| - 1], ids[|ids| - 1];
      SweepOk(s, init, orders, faults);
      SweepClears(s, init, orders, faults);
      var r := Sweep(s, init, orders, faults);
      assert id !in init;
      CompleteOk(r.state, id, orders(id), faults);
      assert forall i :: 0 <= i < |init| ==> init[i] == ids[i];
      if r.ok && id in s.progress {
        assert Broken(r.state, id, orders(id), faults) == Broken(s, id, orders(id), faults);
      }
    }
  }

  lemma {:induction false} CompleteOk(s: State, id: int, keys: seq<SubtaskKey>, faults: set<Call>)
    ensures Complete(s, id, keys, faults).ok <==> !Broken(s, id, keys, faults)
  {
    WriteMissingOk(s, id, keys, faults);
  }

  /** The i-th checkpoint of a sweep is still owed by nobody afterwards exactly if it was before
      and the sweep had already stopped. */
  lemma {:induction false} LeftOwed(s: State, ids: seq<int>, orders: int -> seq<SubtaskKey>, faults: set<Call>, i: nat)
    requires i < |ids| && ids[i] in s.progress
    requires Distinct(ids)
    ensures Owed(Sweep(s, ids, orders, faults).state, ids[i]) <==> Owed(s, ids[i]) && !Sweep(s, ids[..i], orders, faults).ok
  {
    hide Complete;
    var init, id := ids[..|ids| - 1], ids[|ids| - 1];
    var r := Sweep(s, init, orders, faults);
    SweepClears(s, init, orders, faults);
    CompleteKeeps(r.state, id, orders(id), faults);
    if i < |init| {
      LeftOwed(s, init, orders, faults, i);
      assert init[..i] == ids[..i];
    } else {
      assert init == ids[..i] && id !in init;
    }
  }

  /** Exactly when a sweep leaves open a checkpoint that nobody owes: storage failed while it
      completed one, and another was still to be swept. In particular never without a failure. */
  lemma {:induction false} SweepLeavesNoneOwedIff(s: State, ids: seq<int>, orders: int -> seq<SubtaskKey>, faults: set<Call>)
    requires Enumerates(ids, s.progress.Keys)
    ensures NoneOwed(Sweep(s, ids, orders, faults).state) <==>
            forall i, j :: 0 <= i < j < |ids| && Owed(s, ids[i]) && Owed(s, ids[j]) ==> !Broken(s, ids[i], orders(ids[i]), faults)
    ensures faults == {} ==> NoneOwed(Sweep(s, ids, orders, faults).state)
  {
    hide Broken, Owed;
    SweepClears(s, ids, orders, faults);
    var after := Sweep(s, ids, orders, faults).state;
    forall j | 0 <= j < |ids| ensures Owed(after, ids[j]) <==>
      Owed(s, ids[j]) && exists i :: 0 <= i < j && Owed(s, ids[i]) && Broken(s, ids[i], orders(ids[i]), faults)
    {
      LeftOwed(s, ids, orders, faults, j);
      SweepOk(s, ids[..j], orders, faults);
      assert forall i :: 0 <= i < j ==> ids[..j][i] == ids[i];
    }
    if faults == {} {
      forall i | 0 <= i < |ids| ensures !Broken(s, ids[i], orders(ids[i]), faults) {
        NothingBroken(s, ids[i], orders(ids[i]));
      }
    }
  }

  lemma {:induction false} NothingBroken(s: State, id: int, keys: seq<SubtaskKey>)
    ensures !Broken(s, id, keys, {})
  {}

  /** After any run of the coordinator, exactly when a call of Finished leaves open a checkpoint that
      nobody owes: one that the finished subtask was the last to owe cannot be written, and another
      such is still to be swept. */
  lemma {:induction false} FinishedLeavesNoneOwedIff(expected: set<SubtaskKey>, events: seq<Event>, k: SubtaskKey, payload: Bytes, ids: seq<int>, orders: int -> seq<SubtaskKey>, faults: set<Call>)
    requires ValidRun(Initial(expected), events + [Finish(k, payload, ids, orders, faults)])
    ensures var s := RunOf(Initial(expected), events);
            var waiting := s.(done := s.done[k := payload]);
            NoneOwed(RunOf(Initial(expected), events + [Finish(k, payload, ids, orders, faults)])) <==>
              if k !in s.expected || k in s.done then NoneOwed(s)
              else forall i, j :: 0 <= i < j < |ids| && Owed(waiting, ids[i]) && Owed(waiting, ids[j]) ==> !Broken(waiting, ids[i], orders(ids[i]), faults)
  {
    hide Sweep, Owed, Broken;
    var last := Finish(k, payload, ids, orders, faults);
    assert (events + [last])[..|events|] == events;
    var s := RunOf(Initial(expected), events);
    if k in s.expected && k !in s.done {
      SweepLeavesNoneOwedIff(s.(done := s.done[k := payload]), ids, orders, faults);
    }
  }

  /** A checkpoint on record and not settled has been acknowledged by someone. */
  predicate OpenAcknowledged(s: State) {
    forall id :: id in s.progress ==> s.progress[id].Terminal() || s.progress[id].acked != {}
  }

  /** The coordinator makes a record only to count an acknowledgement or to give the checkpoint up,
      so with a single subtask to wait for none ever stays open. */
  lemma {:induction false} OpenIsAcknowledged(expected: set<SubtaskKey>, events: seq<Event>)
    requires ValidRun(Initial(expected), events)
    ensures OpenAcknowledged(RunOf(Initial(expected), events))
  {
    hide Acknowledge, Finished, Fail, ValidEvent, OpenAcknowledged;
    if events == [] {
      NoneOnRecord(expected);
    } else {
      var init := events[..|events| - 1];
      OpenIsAcknowledged(expected, init);
      StepKeepsAcknowledged(RunOf(Initial(expected), init), events[|events| - 1]);
    }
  }

  lemma {:induction false} NoneOnRecord(expected: set<SubtaskKey>)
    ensures OpenAcknowledged(Initial(expected))
  {}

  lemma {:induction false} StepKeepsAcknowledged(s: State, e: Event)
    requires OpenAcknowledged(s)
    ensures OpenAcknowledged(Step(s, e))
  {
    hide Acknowledge, Sweep;
    match e {
      case Ack(id, k, payload, keys, faults) => AcknowledgeKeepsOpen(s, id, k, payload, keys, faults);
      case Finish(k, payload, ids, orders, faults) => SweepClears(s.(done := s.done[k := payload]), ids, orders, faults);
      case Failure(id) =>
    }
  }

  lemma {:induction false} AcknowledgeKeepsOpen(s: State, id: int, k: SubtaskKey, payload: Bytes, keys: seq<SubtaskKey>, faults: set<Call>)
    requires OpenAcknowledged(s)
    ensures OpenAcknowledged(Acknowledge(s, id, k, payload, keys, faults).state)
  {
    hide Complete;
    var counted := Count(WithProgress(s, id, ProgressFor(s, id)), id, k, payload);
    assert k in counted.progress[id].acked;
    CompleteKeeps(counted, id, keys, faults);
  }

  /** It does happen: two subtasks, of which one has acknowledged two checkpoints and the other
      finishes while the first of the two cannot be written. The second stays open with nobody left
      to acknowledge it. */
  lemma {:induction false} AFailedWriteCanStrandACheckpoint(a: SubtaskKey, b: SubtaskKey, payload: Bytes)
    requires a != b
    ensures var events := [Ack(1, b, payload, [a, b], {}), Ack(2, b, payload, [a, b], {}), Finish(a, payload, [1, 2], _ => [a, b], {Marker(1)})];
            var after := RunOf(Initial({a, b}), events);
            ValidRun(Initial({a, b}), events) && 2 in after.progress && Owed(after, 2)
  {
    hide Acknowledge, Finished, Sweep, Complete;
    var orders: int -> seq<SubtaskKey> := _ => [a, b];
    var first, second, last := Ack(1, b, payload, [a, b], {}), Ack(2, b, payload, [a, b], {}), Finish(a, payload, [1, 2], orders, {Marker(1)});
    var s0 := Initial({a, b});
    AckStaysOpen(s0, 1, b, a, payload, [a, b]);
    var s1 := Step(s0, first);
    AckStaysOpen(s1, 2, b, a, payload, [a, b]);
    var s2 := Step(s1, second);
    assert [first, second, last][..2] == [first, second] && [first, second][..1] == [first];
    RunOne(s0, first);
    FinishStrands(s2, a, payload, orders);
  }

  /** An acknowledgement with another still owed is counted and that is all. */
  lemma {:induction false} AckStaysOpen(s: State, id: int, k: SubtaskKey, other: SubtaskKey, payload: Bytes, keys: seq<SubtaskKey>)
    requires k in s.expected && other in s.expected && other != k && other !in s.done
    requires id !in s.progress
    ensures Acknowledge(s, id, k, payload, keys, {}).state.progress == s.progress[id := Progress({k}, false, false)]
    ensures Acknowledge(s, id, k, payload, keys, {}).state.expected == s.expected && Acknowledge(s, id, k, payload, keys, {}).state.done == s.done
  {
    hide Complete;
    var s1 := WithProgress(s, id, ProgressFor(s, id));
    var counted := Count(s1, id, k, payload);
    assert counted.expected == s.expected && counted.done == s.done && ProgressFor(counted, id) == Progress({k}, false, false);
    assert other in Outstanding(counted, ProgressFor(counted, id));
    assert Acknowledge(s, id, k, payload, keys, {}).state == counted;
  }

  lemma {:induction false} FinishStrands(s: State, a: SubtaskKey, payload: Bytes, orders: int -> seq<SubtaskKey>)
    requires a in s.expected && a !in s.done
    requires Owed(s.(done := s.done[a := payload]), 1) && Owed(s.(done := s.done[a := payload]), 2)
    ensures var after := Finished(s, a, payload, [1, 2], orders, {Marker(1)}).state; 2 in after.progress && Owed(after, 2)
  {
    hide Complete;
    var waiting := s.(done := s.done[a := payload]);
    assert [1, 2][..1] == [1] && [1][..0] == [];
    assert Sweep(waiting, [], orders, {Marker(1)}) == Outcome(waiting, true);
    CompleteOk(waiting, 1, orders(1), {Marker(1)});
    CompleteKeeps(waiting, 1, orders(1), {Marker(1)});
    assert Sweep(waiting, [1], orders, {Marker(1)}) == Complete(waiting, 1, orders(1), {Marker(1)});
  }

  lemma {:induction false} RunOne(s: State, e: Event)
    ensures RunOf(s, [e]) == Step(s, e) && RunOf(s, []) == s
    ensures ValidRun(s, [e]) <==> ValidEvent(s, e)
  {
    assert [e][..0] == [];
  }

  /** While no storage call fails, no checkpoint ever stays open with nobody owing it. */
  lemma {:induction false} NoneLeftOpen(expected: set<SubtaskKey>, events: seq<Event>)
    requires ValidRun(Initial(expected), events)
    requires forall e :: e in events && e.Finish? ==> e.faults == {}
    ensures NoneOwed(RunOf(Initial(expected), events))
  {
    hide Complete, CheckpointSafe, Sweep, Acknowledge;
    if events != [] {
      var init, last := events[..|events| - 1], events[|events| - 1];
      NoneLeftOpen(expected, init);
      var s := RunOf(Initial(expected), init);
      RunIsSafe(expected, init);
      match last {
        case Ack(id, k, payload, keys, faults) => AcknowledgeLeavesNoneOwed(s, id, k, payload, keys, faults);
        case Finish(k, payload, ids, orders, faults) =>
          assert last in events;
          SweepLeavesNoneOwedIff(s.(done := s.done[k := payload]), ids, orders, faults);
        case Failure(id) =>
      }
    }
  }

  // ----- Where a payload comes from ----------------------------------------------------------

  /** What counts as acknowledged was said by an acknowledgement, and what counts as finished by a
      call of Finished. */
  ghost predicate Said(s: State, events: seq<Event>) {
    && (forall id, k :: (id, k) in s.acknowledged ==>
          exists e :: e in events && e.Ack? && e.id == id && e.key == k && e.payload == s.acknowledged[(id, k)])
    && (forall k :: k in s.done ==> exists e :: e in events && e.Finish? && e.key == k && e.payload == s.done[k])
  }

  lemma {:induction false} SweepKeepsSaid(s: State, ids: seq<int>, orders: int -> seq<SubtaskKey>, faults: set<Call>)
    ensures var r := Sweep(s, ids, orders, faults).state; r.acknowledged == s.acknowledged && r.done == s.done
  {
    hide Complete, Owed;
    if ids != [] {
      var init, id := ids[..|ids| - 1], ids[|ids| - 1];
      SweepKeepsSaid(s, init, orders, faults);
      CompleteKeeps(Sweep(s, init, orders, faults).state, id, orders(id), faults);
    }
  }

  lemma {:induction false} StepSays(s: State, e: Event)
    ensures var s' := Step(s, e);
            && (forall x :: x in s'.acknowledged && (x !in s.acknowledged || s'.acknowledged[x] != s.acknowledged[x]) ==>
                  e.Ack? && x == (e.id, e.key) && s'.acknowledged[x] == e.payload)
            && (forall k :: k in s'.done && (k !in s.done || s'.done[k] != s.done[k]) ==> e.Finish? && k == e.key && s'.done[k] == e.payload)
            && s.acknowledged.Keys <= s'.acknowledged.Keys
  {
    hide Complete, Sweep;
    match e {
      case Ack(id, k, payload, keys, faults) =>
        CompleteKeeps(Count(WithProgress(s, id, ProgressFor(s, id)), id, k, payload), id, keys, faults);
      case Finish(k, payload, ids, orders, faults) => SweepKeepsSaid(s.(done := s.done[k := payload]), ids, orders, faults);
      case Failure(_) =>
    }
  }

  lemma {:induction false} RunSays(s: State, events: seq<Event>)
    requires s.acknowledged == map[] && s.done == map[]
    ensures Said(RunOf(s, events), events)
  {
    hide Step;
    if events != [] {
      var init, last := events[..|events| - 1], events[|events| - 1];
      RunSays(s, init);
      StepSays(RunOf(s, init), last);
      SaidMore(RunOf(s, init), RunOf(s, events), init, last);
      assert init + [last] == events;
    }
  }

  lemma {:induction false} SaidMore(s: State, s': State, events: seq<Event>, e: Event)
    requires Said(s, events)
    requires forall x :: x in s'.acknowledged && (x !in s.acknowledged || s'.acknowledged[x] != s.acknowledged[x]) ==>
               e.Ack? && x == (e.id, e.key) && s'.acknowledged[x] == e.payload
    requires forall k :: k in s'.done && (k !in s.done || s'.done[k] != s.done[k]) ==> e.Finish? && k == e.key && s'.done[k] == e.payload
    ensures Said(s', events + [e])
  {
    forall id, k | (id, k) in s'.acknowledged
      ensures exists x :: x in events + [e] && x.Ack? && x.id == id && x.key == k && x.payload == s'.acknowledged[(id, k)]
    {
      if (id, k) in s.acknowledged && s'.acknowledged[(id, k)] == s.acknowledged[(id, k)] {
        var x :| x in events && x.Ack? && x.id == id && x.key == k && x.payload == s.acknowledged[(id, k)];
        assert x in events + [e];
      } else {
        assert e in events + [e];
      }
    }
    forall k | k in s'.done ensures exists x :: x in events + [e] && x.Finish? && x.key == k && x.payload == s'.done[k] {
      if k in s.done && s'.done[k] == s.done[k] {
        var x :| x in events && x.Finish? && x.key == k && x.payload == s.done[k];
        assert x in events + [e];
      } else {
        assert e in events + [e];
      }
    }
  }

  /** A checkpoint given up without a marker never gets one. */
  ghost predicate Lost(s: State, id: int) {
    ProgressFor(s, id).Terminal() && id !in s.markers
  }

  lemma {:induction false} SweepKeepsLost(s: State, ids: seq<int>, orders: int -> seq<SubtaskKey>, faults: set<Call>, id: int)
    requires Lost(s, id)
    ensures Lost(Sweep(s, ids, orders, faults).state, id)
  {
    hide Complete;
    if ids != [] {
      var init, last := ids[..|ids| - 1], ids[|ids| - 1];
      SweepKeepsLost(s, init, orders, faults, id);
      CompleteKeeps(Sweep(s, init, orders, faults).state, last, orders(last), faults);
    }
  }

  lemma {:induction false} StepKeepsLost(s: State, e: Event, id: int)
    requires Lost(s, id)
    ensures Lost(Step(s, e), id)
  {
    hide Complete, Sweep;
    match e {
      case Ack(i, k, payload, keys, faults) =>
        CompleteKeeps(Count(WithProgress(s, i, ProgressFor(s, i)), i, k, payload), i, keys, faults);
      case Finish(k, payload, ids, orders, faults) => SweepKeepsLost(s.(done := s.done[k := payload]), ids, orders, faults, id);
      case Failure(_) =>
    }
  }

  /** An acknowledgement by a subtask that has not finished is counted, unless the checkpoint is
      given up without a marker. */
  lemma {:induction false} AcknowledgedOrLost(s: State, id: int, k: SubtaskKey, payload: Bytes, keys: seq<SubtaskKey>, faults: set<Call>)
    requires Safe(s) && k in s.expected && k !in s.done
    ensures var s' := Acknowledge(s, id, k, payload, keys, faults).state; (id, k) in s'.acknowledged || Lost(s', id)
  {
    hide Complete;
    assert CheckpointSafe(s, id);
    CompleteKeeps(Count(WithProgress(s, id, ProgressFor(s, id)), id, k, payload), id, keys, faults);
  }

  lemma {:induction false} StaysAcknowledgedOrLost(expected: set<SubtaskKey>, events: seq<Event>, y: nat)
    requires ValidRun(Initial(expected), events) && y < |events| && events[y].Ack?
    requires events[y].key in expected && events[y].key !in RunOf(Initial(expected), events[..y]).done
    ensures var s := RunOf(Initial(expected), events); (events[y].id, events[y].key) in s.acknowledged || Lost(s, events[y].id)
  {
    hide Acknowledge, Finished, Fail, ValidEvent, Lost, Safe;
    var init, last := events[..|events| - 1], events[|events| - 1];
    var before := RunOf(Initial(expected), init);
    if y < |init| {
      assert init[..y] == events[..y];
      StaysAcknowledgedOrLost(expected, init, y);
      StepSays(before, last);
      if Lost(before, events[y].id) {
        StepKeepsLost(before, last, events[y].id);
      }
    } else {
      assert init == events[..y];
      RunIsSafe(expected, init);
      RunExpects(Initial(expected), init);
      var Ack(id, k, payload, keys, faults) := last;
      AcknowledgedOrLost(before, id, k, payload, keys, faults);
    }
  }

  lemma {:induction false} RunExpects(s: State, events: seq<Event>)
    ensures RunOf(s, events).expected == s.expected
  {
    hide Complete, Sweep;
    if events != [] {
      var before := RunOf(s, events[..|events| - 1]);
      RunExpects(s, events[..|events| - 1]);
      match events[|events| - 1] {
        case Ack(id, k, payload, keys, faults) =>
          CompleteKeeps(Count(WithProgress(before, id, ProgressFor(before, id)), id, k, payload), id, keys, faults);
        case Finish(k, payload, ids, orders, faults) => SweepClears(before.(done := before.done[k := payload]), ids, orders, faults);
        case Failure(_) =>
      }
    }
  }

  // ----- What a sink asks ------------------------------------------------------------------

  /** The checkpoints among `ids` that are complete, in the order given. */
  function CompletedOf(s: State, ids: seq<int>): seq<int> {
    if ids == [] then []
    else if ProgressFor(s, ids[|ids| - 1]).complete then CompletedOf(s, ids[..|ids| - 1]) + [ids[|ids| - 1]]
    else CompletedOf(s, ids[..|ids| - 1])
  }
}
