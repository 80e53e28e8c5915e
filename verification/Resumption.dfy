/** How a source gets back to where it was: the position it acknowledges, through coordinator and
    storage and a crash, is the one the next run starts it at. */
module Resumption {
  import opened Int64
  import opened Elements
  import opened WindowKeys
  import Src = Source
  import Runtime = SourceRuntime
  import opened Recovery
  import RecoveryRuns
  import Co = Coordination
  import opened CheckpointCodec
  import opened DurableFiles
  import opened CrashSafety

  function EncodePosition(p: int64): (b: Bytes)
    ensures |b| == 8
  {
    Int64Bytes(p)
  }

  /** Exactly eight bytes. */
  function DecodePosition(payload: Bytes): (p: Option<int64>)
    ensures p.None? <==> |payload| != 8
  {
    if |payload| != 8 then None else Some(ReadInt64(payload))
  }

  lemma {:induction false} PositionRoundTrip(p: int64)
    ensures DecodePosition(EncodePosition(p)) == Some(p)
  {
    Int64RoundTrip(p);
  }

  /** What a source subtask resumed at checkpoint `k` tells the coordinator: it acknowledges every
      barrier it sends, with the position it goes out at, and when it is done with them all, that
      it has finished, with its last position. */
  ghost predicate Speaks(s: SourceSubtask, k: nat, key: SubtaskKey, events: seq<Co.Event>)
    requires ValidSource(s) && s.config.end <= MAX_INT64
  {
    && (forall e :: e in events && e.Ack? && e.key == key ==> AcknowledgesBarrier(s, k, e.id, e.payload))
    && (forall x :: 0 <= x < |events| && events[x].Finish? && events[x].key == key ==>
          && events[x].payload == EncodePosition(s.config.end)
          && forall i :: 0 <= i < |SentFrom(s, k)| && SentFrom(s, k)[i].elem.BarrierElement? ==>
               AcknowledgedBefore(events, x, key, SentFrom(s, k)[i].elem.id))
  }

  ghost predicate AcknowledgesBarrier(s: SourceSubtask, k: nat, id: int, payload: Bytes)
    requires ValidSource(s) && s.config.end <= MAX_INT64
  {
    exists i :: 0 <= i < |SentFrom(s, k)| && SentFrom(s, k)[i].elem.BarrierElement? && SentFrom(s, k)[i].elem.id == id
                && SentFrom(s, k)[i].position <= MAX_INT64 && payload == EncodePosition(SentFrom(s, k)[i].position)
  }

  ghost predicate AcknowledgedBefore(events: seq<Co.Event>, x: nat, key: SubtaskKey, id: int)
    requires x <= |events|
  {
    exists y :: 0 <= y < x && events[y].Ack? && events[y].key == key && events[y].id == id
  }

  lemma {:induction false} FirstFinish(events: seq<Co.Event>, key: SubtaskKey) returns (x: nat)
    requires exists e :: e in events && e.Finish? && e.key == key
    ensures x < |events| && events[x].Finish? && events[x].key == key
    ensures forall y :: 0 <= y < x && events[y].Finish? ==> events[y].key != key
  {
    if events[0].Finish? && events[0].key == key {
      x := 0;
    } else {
      var e :| e in events && e.Finish? && e.key == key;
      assert e in events[1..];
      var rest := FirstFinish(events[1..], key);
      x := rest + 1;
    }
  }

  /** A source that reaches a checkpoint sends its barrier. */
  lemma {:induction false} BarrierOf(s: SourceSubtask, k: nat, id: nat) returns (i: nat)
    requires ValidSource(s) && k < id && Src.Reaches(s.config, s.start, id)
    ensures i < |SentFrom(s, k)| && SentFrom(s, k)[i].elem.BarrierElement? && SentFrom(s, k)[i].elem.id == id
  {
    var stream := StreamFrom(s, k);
    ReachesEnough(s, k, id - k);
    SentWellFormed(s.config, Src.Start(Position(s, k), k));
    RecoveryRuns.BarrierNamesCheckpoint(stream, k, id - k);
    i := |CutAt(stream, id - k)| - 1;
    assert stream[i] == CutAt(stream, id - k)[i];
  }

  /** What storage holds for a source under a complete checkpoint is the position recorded for it:
      the one it acknowledged the barrier with, or the end of its range if it had none. */
  lemma {:induction false} VouchedPosition(s: SourceSubtask, k: nat, key: SubtaskKey, expected: set<SubtaskKey>, events: seq<Co.Event>, id: nat)
    requires ValidSource(s) && s.config.end <= MAX_INT64 && key in expected && k < id
    requires Co.ValidRun(Co.Initial(expected), events) && Speaks(s, k, key, events)
    requires id in Co.RunOf(Co.Initial(expected), events).markers
    ensures var after := Co.RunOf(Co.Initial(expected), events);
            (id, key) in after.files && after.files[(id, key)] == EncodePosition(Position(s, id))
  {
    hide Co.Step, Position, SentFrom, Src.Reaches;
    var after := Co.RunOf(Co.Initial(expected), events);
    Co.RunIsSafe(expected, events);
    Co.RunSays(Co.Initial(expected), events);
    Co.RunExpects(Co.Initial(expected), events);
    assert Co.CheckpointSafe(after, id);
    AcknowledgedPositions(s, k);
    if (id, key) in after.acknowledged {
      var e :| e in events && e.Ack? && e.id == id && e.key == key && e.payload == after.acknowledged[(id, key)];
      assert AcknowledgesBarrier(s, k, id, e.payload);
    } else {
      FinishedAtTheEnd(s, k, key, expected, events, id);
    }
  }

  lemma {:induction false} FinishedAtTheEnd(s: SourceSubtask, k: nat, key: SubtaskKey, expected: set<SubtaskKey>, events: seq<Co.Event>, id: nat)
    requires ValidSource(s) && s.config.end <= MAX_INT64 && key in expected && k < id
    requires Co.ValidRun(Co.Initial(expected), events) && Speaks(s, k, key, events)
    requires var after := Co.RunOf(Co.Initial(expected), events);
             id in after.markers && (id, key) !in after.acknowledged && key in after.done && Co.Said(after, events)
    ensures Co.RunOf(Co.Initial(expected), events).done[key] == EncodePosition(Position(s, id))
  {
    hide Co.Step, SentFrom;
    var after := Co.RunOf(Co.Initial(expected), events);
    var e :| e in events && e.Finish? && e.key == key && e.payload == after.done[key];
    if Src.Reaches(s.config, s.start, id) {
      var i := BarrierOf(s, k, id);
      var x := FirstFinish(events, key);
      assert AcknowledgedBefore(events, x, key, SentFrom(s, k)[i].elem.id);
      var y :| 0 <= y < x && events[y].Ack? && events[y].key == key && events[y].id == id;
      NotYetFinished(expected, events, key, x, y);
      Co.StaysAcknowledgedOrLost(expected, events, y);
    }
  }

  lemma {:induction false} NotYetFinished(expected: set<SubtaskKey>, events: seq<Co.Event>, key: SubtaskKey, x: nat, y: nat)
    requires y < x <= |events| && forall z :: 0 <= z < x && events[z].Finish? ==> events[z].key != key
    ensures key !in Co.RunOf(Co.Initial(expected), events[..y]).done
  {
    hide Co.Step;
    Co.RunSays(Co.Initial(expected), events[..y]);
  }

  /** From an acknowledgement to the next run. Once a checkpoint is complete, whatever a crash leaves
      of its directory: if its marker can be seen, loading it yields for each source a payload that
      decodes to the position recorded for the checkpoint. */
  lemma {:induction false} LoadedPosition(s: SourceSubtask, k: nat, key: SubtaskKey, expected: set<SubtaskKey>, events: seq<Co.Event>,
                                          crc: Checksum, c: Checkpoint, text: Bytes, fs: FS, n: nat, disk: map<Name, Bytes>)
    requires ValidSource(s) && s.config.end <= MAX_INT64 && key in expected && k < c.id
    requires Co.ValidRun(Co.Initial(expected), events) && Speaks(s, k, key, events)
    requires var after := Co.RunOf(Co.Initial(expected), events);
             && c.id in after.markers && key in Subtasks(c.meta)
             && (key in c.payloads && (c.id, key) in after.files ==> c.payloads[key] == after.files[(c.id, key)])
    requires Coherent(fs) && Absent(fs, CompleteMarker) && CheckpointFits(c) && n <= |AllOps(crc, c, text)|
    requires Survives(ApplyAll(fs, AllOps(crc, c, text)[..n]), disk) && CompleteMarker in disk
    ensures Load(crc, c.id, disk).Some? && key in Load(crc, c.id, disk).value.payloads
    ensures DecodePosition(Load(crc, c.id, disk).value.payloads[key]) == Some(Position(s, c.id))
  {
    hide Co.RunOf, Co.ValidRun, Speaks, Position, Coherent, Absent, Load, AllOps, Survives, Subtasks;
    VouchedPosition(s, k, key, expected, events, c.id);
    VisibleImpliesLoadable(fs, crc, c, text, n, disk);
    PositionRoundTrip(Position(s, c.id));
  }

  /** And the subtask started with that payload sends what a source resumed at the checkpoint does. */
  method ResumeSource(s: SourceSubtask, bounded: bool, id: nat, payload: Bytes) returns (src: Runtime.SourceSubtask)
    requires ValidSource(s) && (!bounded ==> s.start == 0 && s.config.end == |s.config.data|)
    requires DecodePosition(payload) == Some(Position(s, id))
    ensures src.sent == SentFrom(s, id)
  {
    hide Src.Emissions;
    src := new Runtime.SourceSubtask(s.config, s.start, bounded);
    var position := DecodePosition(payload);
    var ok := src.Apply(position.value, id);
    assert ok;
    src.RunToEnd();
  }
}
