/** An operator subtask and its loop: what it sends and records in one run, and over several runs
    each restored from what an earlier one recorded. */
module Operators {
  import opened Int64
  import opened Elements
  import opened CrashedRuns

  /** What an operator makes of its state and what it emits, for a record and for a watermark. */
  datatype Operator<!S> = Operator(init: S, onRecord: (S, Record) -> (S, seq<Record>), onWatermark: (S, int64) -> (S, seq<Record>))

  function AsElements(rs: seq<Record>): seq<Element> {
    seq(|rs|, i requires 0 <= i < |rs| => RecordElement(rs[i]))
  }

  function Step<S>(op: Operator<S>, s: S, e: Element): S {
    match e
    case RecordElement(rec) => op.onRecord(s, rec).0
    case WatermarkElement(wm) => op.onWatermark(s, wm).0
    case BarrierElement(_, _) => s
    case EndOfStream => s
  }

  /** Control elements are sent on, a watermark behind the records it releases. */
  function Sends<S>(op: Operator<S>, s: S, e: Element): seq<Element> {
    match e
    case RecordElement(rec) => AsElements(op.onRecord(s, rec).1)
    case WatermarkElement(wm) => AsElements(op.onWatermark(s, wm).1) + [e]
    case BarrierElement(_, _) => [e]
    case EndOfStream => [e]
  }

  function StateAfter<S>(op: Operator<S>, s: S, inputs: seq<Element>): S {
    if inputs == [] then s else Step(op, StateAfter(op, s, inputs[..|inputs| - 1]), inputs[|inputs| - 1])
  }

  function SentBy<S>(op: Operator<S>, s: S, inputs: seq<Element>): seq<Element> {
    if inputs == [] then []
    else
      var init := inputs[..|inputs| - 1];
      SentBy(op, s, init) + Sends(op, StateAfter(op, s, init), inputs[|inputs| - 1])
  }

  /** The state recorded under each barrier: what was there when it arrived. */
  function SnapshotsOf<S>(op: Operator<S>, s: S, inputs: seq<Element>): map<int, S> {
    if inputs == [] then map[]
    else
      var init, last := inputs[..|inputs| - 1], inputs[|inputs| - 1];
      var before := SnapshotsOf(op, s, init);
      if last.BarrierElement? then before[last.id := StateAfter(op, s, init)] else before
  }

  lemma {:induction false} OneMoreInput<S>(op: Operator<S>, s: S, inputs: seq<Element>, e: Element)
    ensures StateAfter(op, s, inputs + [e]) == Step(op, StateAfter(op, s, inputs), e)
    ensures SentBy(op, s, inputs + [e]) == SentBy(op, s, inputs) + Sends(op, StateAfter(op, s, inputs), e)
    ensures SnapshotsOf(op, s, inputs + [e]) ==
            if e.BarrierElement? then SnapshotsOf(op, s, inputs)[e.id := StateAfter(op, s, inputs)] else SnapshotsOf(op, s, inputs)
  {
    assert (inputs + [e])[..|inputs|] == inputs;
  }

  /** The element loop of an operator subtask. On a barrier it records its state first and sends
      the barrier on second; a watermark goes on behind what it released. */
  method OperatorLoop<S>(op: Operator<S>, restored: S, received: seq<Element>) returns (state: S, snapshots: map<int, S>, sent: seq<Element>)
    ensures state == StateAfter(op, restored, received)
    ensures snapshots == SnapshotsOf(op, restored, received)
    ensures sent == SentBy(op, restored, received)
  {
    state, snapshots, sent := restored, map[], [];
    for p := 0 to |received|
      invariant state == StateAfter(op, restored, received[..p])
      invariant snapshots == SnapshotsOf(op, restored, received[..p])
      invariant sent == SentBy(op, restored, received[..p])
    {
      OneMoreInput(op, restored, received[..p], received[p]);
      assert received[..p + 1] == received[..p] + [received[p]];
      match received[p] {
        case RecordElement(rec) =>
          var (s, out) := op.onRecord(state, rec);
          state := s;
          sent := sent + AsElements(out);
        case WatermarkElement(wm) =>
          var (s, out) := op.onWatermark(state, wm);
          state := s;
          sent := sent + AsElements(out);
          sent := sent + [received[p]];
        case BarrierElement(id, _) =>
          snapshots := snapshots[id := state];
          sent := sent + [received[p]];
        case EndOfStream =>
          sent := sent + [received[p]];
      }
    }
    assert received[..|received|] == received;
  }

  // ----- What is sent ------------------------------------------------------------------------

  lemma {:induction false} StateConcat<S>(op: Operator<S>, s: S, a: seq<Element>, b: seq<Element>)
    ensures StateAfter(op, s, a + b) == StateAfter(op, StateAfter(op, s, a), b)
    ensures SentBy(op, s, a + b) == SentBy(op, s, a) + SentBy(op, StateAfter(op, s, a), b)
  {
    hide Step, Sends, StateAfter, SentBy;
    if b == [] {
      assert a + b == a;
      NothingSent(op, StateAfter(op, s, a));
    } else {
      var init, last := b[..|b| - 1], b[|b| - 1];
      StateConcat(op, s, a, init);
      OneMoreInput(op, s, a + init, last);
      OneMoreInput(op, StateAfter(op, s, a), init, last);
      assert a + b == (a + init) + [last] && b == init + [last];
    }
  }

  /** Nothing but a barrier moves a cut. */
  lemma {:induction false} CutOfQuiet(s: seq<Element>, quiet: seq<Element>, k: nat)
    requires forall i :: 0 <= i < |quiet| ==> !quiet[i].BarrierElement?
    ensures NumBarriers(s + quiet) == NumBarriers(s)
    ensures CutAt(s + quiet, k) == if k <= NumBarriers(s) then CutAt(s, k) else s + quiet
  {
    if quiet == [] {
      assert s + quiet == s;
    } else {
      var init, last := quiet[..|quiet| - 1], quiet[|quiet| - 1];
      CutOfQuiet(s, init, k);
      assert s + quiet == (s + init) + [last];
      CutOfMore(s + init, last, k);
      NumBarriersAppend(s + init, last);
    }
  }

  lemma {:induction false} SendsCut<S>(op: Operator<S>, s: S, e: Element, before: seq<Element>, k: nat)
    ensures var after := before + Sends(op, s, e);
            && NumBarriers(after) == NumBarriers(before) + (if e.BarrierElement? then 1 else 0)
            && CutAt(after, k) == if k <= NumBarriers(before) then CutAt(before, k) else after
  {
    if e.BarrierElement? {
      CutOfMore(before, e, k);
      NumBarriersAppend(before, e);
    } else {
      CutOfQuiet(before, Sends(op, s, e), k);
    }
  }

  /** An operator sends before its k-th barrier what it makes of what it receives before it. */
  lemma {:induction false} SentCut<S>(op: Operator<S>, s: S, inputs: seq<Element>, k: nat)
    ensures NumBarriers(SentBy(op, s, inputs)) == NumBarriers(inputs)
    ensures CutAt(SentBy(op, s, inputs), k) == SentBy(op, s, CutAt(inputs, k))
  {
    hide Sends;
    if inputs != [] {
      var init, last := inputs[..|inputs| - 1], inputs[|inputs| - 1];
      SentCut(op, s, init, k);
      SendsCut(op, StateAfter(op, s, init), last, SentBy(op, s, init), k);
    }
  }

  lemma {:induction false} RecordsWellFormed(s: seq<Element>, base: int, rs: seq<Record>)
    requires WellFormed(s, base) && !Ended(s)
    ensures WellFormed(s + AsElements(rs), base) && !Ended(s + AsElements(rs))
    ensures NumBarriers(s + AsElements(rs)) == NumBarriers(s)
  {
    if rs == [] {
      assert s + AsElements(rs) == s;
    } else {
      var init := rs[..|rs| - 1];
      RecordsWellFormed(s, base, init);
      var last := RecordElement(rs[|rs| - 1]);
      assert s + AsElements(rs) == (s + AsElements(init)) + [last];
      WellFormedAppend(s + AsElements(init), base, last);
      NumBarriersAppend(s + AsElements(init), last);
    }
  }

  /** What an operator sends is numbered and closed as what it receives. */
  lemma {:induction false} SentWellFormed<S>(op: Operator<S>, s: S, inputs: seq<Element>, base: int)
    requires WellFormed(inputs, base)
    ensures WellFormed(SentBy(op, s, inputs), base)
    ensures Ended(SentBy(op, s, inputs)) <==> Ended(inputs)
  {
    hide WellFormed, NumBarriers;
    if inputs != [] {
      var init, e := inputs[..|inputs| - 1], inputs[|inputs| - 1];
      InitNotEnded(inputs, base);
      SentWellFormed(op, s, init, base);
      SentCut(op, s, init, 0);
      var before := SentBy(op, s, init);
      match e {
        case RecordElement(rec) =>
          RecordsWellFormed(before, base, op.onRecord(StateAfter(op, s, init), rec).1);
        case WatermarkElement(wm) =>
          var rows := AsElements(op.onWatermark(StateAfter(op, s, init), wm).1);
          RecordsWellFormed(before, base, op.onWatermark(StateAfter(op, s, init), wm).1);
          WellFormedAppend(before + rows, base, e);
          assert before + Sends(op, StateAfter(op, s, init), e) == (before + rows) + [e];
        case BarrierElement(_, _) => WellFormedAppend(before, base, e);
        case EndOfStream => WellFormedAppend(before, base, e);
      }
    }
  }

  lemma {:induction false} InitNotEnded(s: seq<Element>, base: int)
    requires WellFormed(s, base) && s != []
    ensures WellFormed(s[..|s| - 1], base) && !Ended(s[..|s| - 1])
    ensures s[|s| - 1].BarrierElement? ==> s[|s| - 1].id == base + NumBarriers(s[..|s| - 1]) + 1
  {
    WellFormedPrefix(s, base, |s| - 1);
    assert s[..|s| - 1 + 1] == s;
    assert NumBarriers(s) == NumBarriers(s[..|s| - 1]) + if s[|s| - 1].BarrierElement? then 1 else 0;
  }

  /** The records an operator emits. */
  function EmittedBy<S>(op: Operator<S>, s: S, inputs: seq<Element>): seq<Record> {
    Records(SentBy(op, s, inputs))
  }

  lemma {:induction false} RecordsOfElements(rs: seq<Record>)
    ensures Records(AsElements(rs)) == rs
  {
    if rs != [] {
      RecordsOfElements(rs[..|rs| - 1]);
      assert AsElements(rs)[..|rs| - 1] == AsElements(rs[..|rs| - 1]);
    }
  }

  lemma {:induction false} SentRecords<S>(op: Operator<S>, s: S, e: Element)
    ensures Records(Sends(op, s, e)) ==
            match e { case RecordElement(rec) => op.onRecord(s, rec).1 case WatermarkElement(wm) => op.onWatermark(s, wm).1 case _ => [] }
  {
    match e {
      case RecordElement(rec) => RecordsOfElements(op.onRecord(s, rec).1);
      case WatermarkElement(wm) =>
        RecordsOfElements(op.onWatermark(s, wm).1);
        RecordsAppend(AsElements(op.onWatermark(s, wm).1), e);
      case _ => assert [e][..0] == [];
    }
  }

  // ----- Several runs ------------------------------------------------------------------------

  lemma {:induction false} ResumableBefore(received: seq<seq<Element>>, marks: seq<nat>, n: nat)
    requires Resumable(received, marks) && n <= |marks|
    ensures Resumable(received, marks[..n])
  {
    forall r | 0 <= r < n ensures WellFormed(received[r], Base(marks[..n][..r])) && marks[..n][r] <= NumBarriers(received[r]) {
      assert marks[..n][..r] == marks[..r];
    }
  }

  /** The state recorded under the j-th barrier of a run. */
  lemma {:induction false} SnapshotAt<S>(op: Operator<S>, s: S, inputs: seq<Element>, base: int, j: nat)
    requires WellFormed(inputs, base) && 0 < j <= NumBarriers(inputs)
    ensures base + j in SnapshotsOf(op, s, inputs)
    ensures SnapshotsOf(op, s, inputs)[base + j] == StateAfter(op, s, CutAt(inputs, j))
  {
    hide WellFormed;
    var init := inputs[..|inputs| - 1];
    InitNotEnded(inputs, base);
    if j <= NumBarriers(init) {
      SnapshotAt(op, s, init, base, j);
    }
  }

  /** The state the run after the crashed ones is restored with: what the last of them recorded
      under the barrier of the checkpoint it was given up for, each started the same way. */
  ghost function Restored<S>(op: Operator<S>, marks: seq<nat>, received: seq<seq<Element>>): S
    requires Resumable(received, marks)
  {
    if marks == [] then op.init
    else
      var r := |marks| - 1;
      ResumableBefore(received, marks, r);
      var start := Restored(op, marks[..r], received);
      if marks[r] == 0 then start
      else
        SnapshotAt(op, start, received[r], Base(marks[..r]), marks[r]);
        SnapshotsOf(op, start, received[r])[Base(marks)]
  }

  /** A restored operator stands where one would that had received what is left of the crashed runs
      and nothing else. */
  lemma {:induction false} RestoredIsKept<S>(op: Operator<S>, marks: seq<nat>, received: seq<seq<Element>>)
    requires Resumable(received, marks)
    ensures Restored(op, marks, received) == StateAfter(op, op.init, Kept(received, marks))
  {
    hide SnapshotsOf, CutAt, StateAfter, SentBy, WellFormed, NumBarriers;
    if marks == [] {
      NothingSent(op, op.init);
    } else {
      var r := |marks| - 1;
      ResumableBefore(received, marks, r);
      RestoredIsKept(op, marks[..r], received);
      var start := Restored(op, marks[..r], received);
      StateConcat(op, op.init, Kept(received, marks[..r]), CutAt(received[r], marks[r]));
      if marks[r] == 0 {
        CutNothing(received[r]);
        NothingSent(op, start);
      } else {
        SnapshotAt(op, start, received[r], Base(marks[..r]), marks[r]);
      }
    }
  }

  /** From one run's restored state to the next: the elements up to the barrier the run was given up
      for are what lies between. */
  lemma {:induction false} RestoredNext<S>(op: Operator<S>, marks: seq<nat>, received: seq<seq<Element>>, r: nat)
    requires Resumable(received, marks) && r < |marks|
    ensures Resumable(received, marks[..r]) && Resumable(received, marks[..r + 1])
    ensures Restored(op, marks[..r + 1], received) == StateAfter(op, Restored(op, marks[..r], received), CutAt(received[r], marks[r]))
  {
    hide SnapshotsOf, CutAt, StateAfter, SentBy, Restored, Kept, Resumable;
    ResumableBefore(received, marks, r);
    ResumableBefore(received, marks, r + 1);
    RestoredIsKept(op, marks[..r], received);
    RestoredIsKept(op, marks[..r + 1], received);
    AtLeastRuns(received, marks);
    KeptMore(received, marks, r);
    StateConcat(op, op.init, Kept(received, marks[..r]), CutAt(received[r], marks[r]));
  }

  lemma {:induction false} AtLeastRuns(received: seq<seq<Element>>, marks: seq<nat>)
    requires Resumable(received, marks)
    ensures |marks| <= |received|
  {}

  /** What the operator sends in each run, every run restored from the ones before it. */
  ghost function SentRuns<S>(op: Operator<S>, marks: seq<nat>, received: seq<seq<Element>>): seq<seq<Element>>
    requires Resumable(received, marks) && |received| == |marks| + 1
  {
    seq(|received|, (r: nat) requires r < |received| => SentInRun(op, marks, received, r))
  }

  ghost function SentInRun<S>(op: Operator<S>, marks: seq<nat>, received: seq<seq<Element>>, r: nat): seq<Element>
    requires Resumable(received, marks) && r <= |marks| && r < |received|
  {
    ResumableBefore(received, marks, r);
    SentBy(op, Restored(op, marks[..r], received), received[r])
  }

  lemma {:induction false} SentKept<S>(op: Operator<S>, marks: seq<nat>, received: seq<seq<Element>>, n: nat)
    requires Resumable(received, marks) && |received| == |marks| + 1 && n <= |marks|
    ensures Kept(SentRuns(op, marks, received), marks[..n]) == SentBy(op, op.init, Kept(received, marks[..n]))
  {
    hide SentBy, StateAfter, CutAt, Resumable, Restored;
    var sent := SentRuns(op, marks, received);
    if n == 0 {
      NothingSent(op, op.init);
    } else {
      var r := n - 1;
      SentKept(op, marks, received, r);
      ResumableBefore(received, marks, r);
      RestoredIsKept(op, marks[..r], received);
      KeptMore(sent, marks, r);
      KeptMore(received, marks, r);
      SentCut(op, Restored(op, marks[..r], received), received[r], marks[r]);
      StateConcat(op, op.init, Kept(received, marks[..r]), CutAt(received[r], marks[r]));
    }
  }

  lemma {:induction false} NothingSent<S>(op: Operator<S>, s: S)
    ensures SentBy(op, s, []) == [] && StateAfter(op, s, []) == s
  {}

  /** Crashes do not show: what is left of what the operator sent is what it would have sent had it
      received what is left of its input in one run. */
  lemma {:induction false} CrashesDoNotShow<S>(op: Operator<S>, marks: seq<nat>, received: seq<seq<Element>>)
    requires Resumable(received, marks) && Sound(received, marks)
    ensures Effective(SentRuns(op, marks, received), marks) == SentBy(op, op.init, Effective(received, marks))
    ensures Punctual(SentBy(op, op.init, Effective(received, marks))) ==> Sound(SentRuns(op, marks, received), marks)
  {
    hide SentBy, StateAfter, CutAt, Resumable, Restored, WellFormed, Punctual;
    var n := |marks|;
    assert marks[..n] == marks;
    SentKept(op, marks, received, n);
    RestoredIsKept(op, marks, received);
    StateConcat(op, op.init, Kept(received, marks), received[n]);
    var sent := SentRuns(op, marks, received);
    forall r | 0 <= r < |sent| ensures WellFormed(sent[r], Base(marks[..r])) {
      ResumableBefore(received, marks, r);
      SentWellFormed(op, Restored(op, marks[..r], received), received[r], Base(marks[..r]));
    }
    SentWellFormed(op, Restored(op, marks, received), received[n], Base(marks));
  }
}
