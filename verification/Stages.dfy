/** One stage of a job over any number of crashed runs: a subtask's gate merges what the upstream
    subtasks send it, and what is left of that is one stream. */
module Stages {
  import opened Int64
  import opened Elements
  import opened Routing
  import opened CrashedRuns
  import opened Gate
  import opened GateAlignment
  import opened GateWatermarks
  import GateRecords
  import opened GateTheorems

  /** What the upstream subtasks send this one in run `r`. */
  function Inputs(sent: seq<seq<seq<Element>>>, mine: Record -> bool, r: nat): seq<seq<Element>>
    requires forall i :: 0 <= i < |sent| ==> r < |sent[i]|
  {
    seq(|sent|, i requires 0 <= i < |sent| => Routed(sent[i][r], mine))
  }

  /** Under some interleaving of some of what the inputs sent, the gate had handed over this much. */
  ghost predicate Merges(streams: seq<seq<Element>>, base: int, received: seq<Element>) {
    exists arrivals :: Interleaves(arrivals, streams, base) && received <= Output(AfterRun(arrivals, streams, base).history)
  }

  /** The same with every input read to its end. */
  ghost predicate MergesAll(streams: seq<seq<Element>>, base: int, received: seq<Element>) {
    exists arrivals :: Interleaves(arrivals, streams, base) && ReadsAll(arrivals, streams) && received == Output(AfterRun(arrivals, streams, base).history)
  }

  ghost predicate ReadsAll(arrivals: seq<Tagged>, streams: seq<seq<Element>>) {
    forall i: nat :: i < |streams| ==> QueuedFrom(arrivals, i) == streams[i]
  }

  /** `received` is what one subtask received in each run. A crashed run was given up for a
      checkpoint whose barrier the subtask had received. */
  ghost predicate ReceivesCrashed(sent: seq<seq<seq<Element>>>, mine: Record -> bool, marks: seq<nat>, received: seq<seq<Element>>) {
    && |sent| > 0 && |marks| <= |received| && (forall i :: 0 <= i < |sent| ==> |marks| <= |sent[i]|)
    && forall r :: 0 <= r < |marks| ==> ReceivesRun(sent, mine, marks, received, r)
  }

  ghost predicate ReceivesRun(sent: seq<seq<seq<Element>>>, mine: Record -> bool, marks: seq<nat>, received: seq<seq<Element>>, r: nat)
    requires r < |marks| <= |received| && forall i :: 0 <= i < |sent| ==> r < |sent[i]|
  {
    Merges(Inputs(sent, mine, r), Base(marks[..r]), received[r]) && marks[r] <= NumBarriers(received[r])
  }

  /** The same, with a last run that read all its inputs. */
  ghost predicate Receives(sent: seq<seq<seq<Element>>>, mine: Record -> bool, marks: seq<nat>, received: seq<seq<Element>>) {
    && |received| == |marks| + 1 && (forall i :: 0 <= i < |sent| ==> |sent[i]| == |marks| + 1)
    && ReceivesCrashed(sent, mine, marks, received)
    && MergesAll(Inputs(sent, mine, |marks|), Base(marks), received[|marks|])
  }

  // ----- Histories -------------------------------------------------------------------------

  /** What a stretch of history must satisfy to be joined to others: no record is the gate's own,
      no watermark goes out ahead of an input, and the end only behind a final watermark. */
  ghost predicate Honest(h: seq<Event>, n: nat) {
    GateRecords.CleanHistory(h, n) && BackedAlong(h, n) && Flushed(Output(h))
  }

  lemma {:induction false} OutputConcat(a: seq<Event>, b: seq<Event>)
    ensures Output(a + b) == Output(a) + Output(b)
  {
    if b == [] {
      assert a + b == a;
    } else {
      OutputConcat(a, b[..|b| - 1]);
      assert (a + b)[..|a + b| - 1] == a + b[..|b| - 1];
    }
  }

  lemma {:induction false} DeliveredConcat(a: seq<Event>, b: seq<Event>, i: nat)
    ensures DeliveredFrom(a + b, i) == DeliveredFrom(a, i) + DeliveredFrom(b, i)
  {
    if b == [] {
      assert a + b == a;
    } else {
      DeliveredConcat(a, b[..|b| - 1], i);
      assert (a + b)[..|a + b| - 1] == a + b[..|b| - 1];
    }
  }

  lemma {:induction false} StandsBehindAfter(a: seq<Element>, b: seq<Element>, wm: int64)
    requires StandsBehind(b, wm)
    ensures StandsBehind(a + b, wm)
  {
    if Promised(b, wm) {
      var x :| 0 <= x < |b| && b[x].WatermarkElement? && b[x].wm >= wm;
      assert (a + b)[|a| + x] == b[x];
    }
  }

  lemma {:induction false} BackedConcat(a: seq<Event>, b: seq<Event>, n: nat)
    requires BackedAlong(a, n) && BackedAlong(b, n)
    ensures BackedAlong(a + b, n)
  {
    hide StandsBehind, DeliveredFrom;
    if b == [] {
      assert a + b == a;
    } else {
      var before, last := b[..|b| - 1], b[|b| - 1];
      BackedConcat(a, before, n);
      assert a + b == (a + before) + [last];
      if last.Forwarded? && last.elem.WatermarkElement? {
        forall i: nat | i < n ensures StandsBehind(DeliveredFrom(a + before, i), last.elem.wm) {
          DeliveredConcat(a, before, i);
          StandsBehindAfter(DeliveredFrom(a, i), DeliveredFrom(before, i), last.elem.wm);
        }
      }
      BackedAlongAppend(a + before, last, n);
    }
  }

  lemma {:induction false} BackedPrefix(h: seq<Event>, n: nat, p: nat)
    requires BackedAlong(h, n) && p <= |h|
    ensures BackedAlong(h[..p], n)
  {
    if p < |h| {
      BackedPrefix(h[..|h| - 1], n, p);
      assert h[..|h| - 1][..p] == h[..p];
    } else {
      assert h[..p] == h;
    }
  }

  lemma {:induction false} HonestConcat(a: seq<Event>, b: seq<Event>, n: nat)
    requires Honest(a, n) && Honest(b, n)
    ensures Honest(a + b, n)
  {
    hide BackedAlong, Output;
    BackedConcat(a, b, n);
    OutputConcat(a, b);
    var x := Output(a);
    var y := Output(b);
    var z: seq<Element> := x + y;
    forall q | 0 <= q < |z| && z[q].EndOfStream?
      ensures exists p :: 0 <= p < q && z[p] == WatermarkElement(MAX_INT64)
    {
      if q < |x| {
        var p :| 0 <= p < q && x[p] == WatermarkElement(MAX_INT64);
        assert z[p] == x[p];
      } else {
        var p :| 0 <= p < q - |x| && y[p] == WatermarkElement(MAX_INT64);
        assert z[|x| + p] == y[p];
      }
    }
  }

  lemma {:induction false} HonestPrefix(h: seq<Event>, n: nat, p: nat)
    requires Honest(h, n) && p <= |h|
    ensures Honest(h[..p], n)
  {
    hide BackedAlong, Output;
    BackedPrefix(h, n, p);
    DeliveredPrefix(h, p, 0);
    var o := Output(h);
    var part := Output(h[..p]);
    forall b | 0 <= b < |part| && part[b].EndOfStream?
      ensures exists a :: 0 <= a < b && part[a] == WatermarkElement(MAX_INT64)
    {
      assert o[b] == part[b];
      var a :| 0 <= a < b && o[a] == WatermarkElement(MAX_INT64);
      assert part[a] == o[a];
    }
  }

  /** Every run of a gate is honest. */
  lemma {:induction false} RunIsHonest(arrivals: seq<Tagged>, streams: seq<seq<Element>>, base: int)
    requires Interleaves(arrivals, streams, base)
    ensures Honest(AfterRun(arrivals, streams, base).history, |streams|)
  {
    hide InvInputs, TimeInv, PromiseInv, BackedAlong, Output, WellFormed, LastWatermark;
    var h := AfterRun(arrivals, streams, base).history;
    AfterRunFull(arrivals, streams, base);
    CleanRun(arrivals, streams, base);
    forall b | 0 <= b < |Output(h)| && Output(h)[b].EndOfStream?
      ensures exists a :: 0 <= a < b && Output(h)[a] == WatermarkElement(MAX_INT64)
    {
      OnlyLast(Output(h), base, b);
      EndIsFlushed(arrivals, streams, base);
      LastWatermarkIsPromised(Output(h));
    }
  }

  lemma {:induction false} CleanRun(arrivals: seq<Tagged>, streams: seq<seq<Element>>, base: int)
    requires Interleaves(arrivals, streams, base)
    ensures GateRecords.CleanHistory(AfterRun(arrivals, streams, base).history, |streams|)
  {
    assert GateRecords.Clean(Init(|streams|));
    GateRecords.RunClean(Init(|streams|), arrivals);
  }

  lemma {:induction false} OnlyLast(s: seq<Element>, base: int, b: nat)
    requires WellFormed(s, base) && b < |s| && s[b].EndOfStream?
    ensures b == |s| - 1
  {}

  // ----- The cut of one run ------------------------------------------------------------------

  /** The place in a history where its j-th barrier went out. */
  lemma {:induction false} FindBarrier(h: seq<Event>, j: nat) returns (p: nat)
    requires 0 < j <= ForwardedBarriers(h)
    ensures p < |h| && h[p].Forwarded? && h[p].elem.BarrierElement? && ForwardedBarriers(h[..p + 1]) == j
  {
    var init, last := h[..|h| - 1], h[|h| - 1];
    assert h == init + [last];
    OutputAppend(init, last);
    NumBarriersAppend(Output(init), last.elem);
    if j <= ForwardedBarriers(init) {
      p := FindBarrier(init, j);
      assert init[..p + 1] == h[..p + 1];
    } else {
      p := |h| - 1;
      assert h[..p + 1] == h;
    }
  }

  /** The history of a run up to the barrier it was given up for: what went out is the cut of what
      was received, and what came in is the cut of each input. */
  lemma {:induction false} RunToCut(arrivals: seq<Tagged>, streams: seq<seq<Element>>, base: int, received: seq<Element>, j: nat) returns (h: seq<Event>)
    requires Interleaves(arrivals, streams, base) && received <= Output(AfterRun(arrivals, streams, base).history)
    requires j <= NumBarriers(received)
    ensures Honest(h, |streams|) && Output(h) == CutAt(received, j)
    ensures forall i: nat :: i < |streams| ==> DeliveredFrom(h, i) == CutAt(streams[i], j)
  {
    hide Output, NumBarriers, CutAt, WellFormed, DeliveredFrom, Interleaves, AfterRun, Honest;
    var full := AfterRun(arrivals, streams, base).history;
    RunIsHonest(arrivals, streams, base);
    CutOfPrefix(received, Output(full), j);
    if j == 0 {
      h := full[..0];
      HonestPrefix(full, |streams|, 0);
      CutNothing(received);
      NothingYet(h);
      forall i: nat | i < |streams| ensures DeliveredFrom(h, i) == CutAt(streams[i], j) {
        CutNothing(streams[i]);
      }
    } else {
      assert received == Output(full)[..|received|];
      NumBarriersPrefix(Output(full), |received|);
      var p := FindBarrier(full, j);
      h := full[..p + 1];
      HonestPrefix(full, |streams|, p + 1);
      ConsistentCut(arrivals, streams, base, p);
      assert h == full[..p] + [full[p]];
      forall i: nat | i < |streams| ensures DeliveredFrom(h, i) == CutAt(streams[i], j) {
        DeliveredAppend(full[..p], full[p], i);
      }
      OutputAppend(full[..p], full[p]);
      DeliveredPrefix(full, p + 1, 0);
      OutputWellFormed(arrivals, streams, base);
      PrefixIsCut(Output(h), Output(full), base, j);
    }
  }

  lemma {:induction false} NothingYet(h: seq<Event>)
    requires h == []
    ensures Output(h) == [] && forall i: nat :: DeliveredFrom(h, i) == []
  {}

  /** The history of a run that read all its inputs. */
  lemma {:induction false} RunToEnd(streams: seq<seq<Element>>, base: int, received: seq<Element>) returns (h: seq<Event>)
    requires MergesAll(streams, base, received) && forall i: nat :: i < |streams| ==> Ended(streams[i])
    ensures Honest(h, |streams|) && Output(h) == received
    ensures forall i: nat :: i < |streams| ==> DeliveredFrom(h, i) == streams[i]
    ensures WellFormed(received, base) && Ended(received) && LastWatermark(received) == MAX_INT64
  {
    hide Output, NumBarriers, WellFormed, DeliveredFrom, Interleaves, AfterRun, Honest, LastWatermark;
    var arrivals :| Interleaves(arrivals, streams, base) && ReadsAll(arrivals, streams) && received == Output(AfterRun(arrivals, streams, base).history);
    h := AfterRun(arrivals, streams, base).history;
    RunIsHonest(arrivals, streams, base);
    Completion(arrivals, streams, base);
    FinalWatermark(arrivals, streams, base);
  }

  // ----- All the runs together ---------------------------------------------------------------

  /** What is left of the crashed runs is one honest history: it takes in what is left of each
      input and sends on what is left of what the subtask received. */
  lemma {:induction false} KeptHistory(sent: seq<seq<seq<Element>>>, mine: Record -> bool, marks: seq<nat>, received: seq<seq<Element>>, n: nat)
    returns (h: seq<Event>)
    requires ReceivesCrashed(sent, mine, marks, received) && n <= |marks|
    ensures Honest(h, |sent|) && Output(h) == Kept(received, marks[..n])
    ensures forall i: nat :: i < |sent| ==> DeliveredFrom(h, i) == Kept(RoutedRuns(sent[i], mine), marks[..n])
  {
    hide Output, NumBarriers, CutAt, DeliveredFrom, Honest, Merges, MergesAll;
    if n == 0 {
      h := [];
      NothingIsHonest(|sent|);
      NothingYet(h);
    } else {
      var r := n - 1;
      var before := KeptHistory(sent, mine, marks, received, r);
      assert ReceivesRun(sent, mine, marks, received, r);
      var stretch := RunHistory(sent, mine, marks, received, r);
      h := before + stretch;
      HonestConcat(before, stretch, |sent|);
      OutputConcat(before, stretch);
      KeptMore(received, marks, r);
      forall i: nat | i < |sent| ensures DeliveredFrom(h, i) == Kept(RoutedRuns(sent[i], mine), marks[..n]) {
        DeliveredConcat(before, stretch, i);
        KeptMore(RoutedRuns(sent[i], mine), marks, r);
      }
    }
  }

  lemma {:induction false} NothingIsHonest(n: nat)
    ensures Honest([], n)
  {
    NothingYet([]);
  }

  lemma {:induction false} RunHistory(sent: seq<seq<seq<Element>>>, mine: Record -> bool, marks: seq<nat>, received: seq<seq<Element>>, r: nat)
    returns (h: seq<Event>)
    requires ReceivesCrashed(sent, mine, marks, received) && r < |marks|
    ensures Honest(h, |sent|) && Output(h) == CutAt(received[r], marks[r])
    ensures forall i: nat :: i < |sent| ==> DeliveredFrom(h, i) == CutAt(RoutedRuns(sent[i], mine)[r], marks[r])
  {
    hide Output, NumBarriers, CutAt, DeliveredFrom, Honest, Interleaves, AfterRun;
    var streams := Inputs(sent, mine, r);
    assert ReceivesRun(sent, mine, marks, received, r);
    var arrivals :| Interleaves(arrivals, streams, Base(marks[..r])) && received[r] <= Output(AfterRun(arrivals, streams, Base(marks[..r])).history);
    h := RunToCut(arrivals, streams, Base(marks[..r]), received[r], marks[r]);
  }

  lemma {:induction false} EffectiveHistory(sent: seq<seq<seq<Element>>>, mine: Record -> bool, marks: seq<nat>, received: seq<seq<Element>>)
    returns (h: seq<Event>)
    requires Receives(sent, mine, marks, received) && forall i :: 0 <= i < |sent| ==> Ended(sent[i][|marks|])
    ensures Honest(h, |sent|) && Output(h) == Effective(received, marks)
    ensures forall i: nat :: i < |sent| ==> DeliveredFrom(h, i) == Routed(Effective(sent[i], marks), mine)
    ensures WellFormed(received[|marks|], Base(marks)) && Ended(received[|marks|]) && LastWatermark(received[|marks|]) == MAX_INT64
  {
    hide Output, DeliveredFrom, Honest, WellFormed, MergesAll, Routed, LastWatermark, Kept, Punctual;
    var n := |marks|;
    assert marks[..n] == marks;
    var before := KeptHistory(sent, mine, marks, received, n);
    var streams := Inputs(sent, mine, n);
    forall i: nat | i < |sent| ensures Ended(streams[i]) {
      RoutedEnded(sent[i][n], mine);
    }
    var last := RunToEnd(streams, Base(marks), received[n]);
    h := before + last;
    HonestConcat(before, last, |sent|);
    OutputConcat(before, last);
    forall i: nat | i < |sent| ensures DeliveredFrom(h, i) == Routed(Effective(sent[i], marks), mine) {
      DeliveredConcat(before, last, i);
      RoutedEffective(sent[i], marks, mine);
    }
  }

  // ----- What passes through the stage -------------------------------------------------------

  lemma {:induction false} SentByGate(h: seq<Event>, e: Element) returns (q: nat)
    requires e in Output(h) && e.WatermarkElement?
    ensures q < |h| && h[q] == Forwarded(e)
  {
    var last := h[|h| - 1];
    if last == Forwarded(e) {
      q := |h| - 1;
    } else {
      q := SentByGate(h[..|h| - 1], e);
    }
  }

  /** An input that stands behind a watermark delivers nothing it would make late. */
  lemma {:induction false} StoodBehind(d: seq<Element>, part: seq<Element>, wm: int64, rec: Record)
    requires StandsBehind(part, wm) && part <= d && Punctual(d + [RecordElement(rec)])
    ensures rec.eventTime > wm
  {
    var more := d + [RecordElement(rec)];
    var x: nat;
    if Ended(part) {
      x := |part| - 1;
    } else {
      x :| x < |part| && part[x].WatermarkElement? && part[x].wm >= wm;
    }
    assert more[x] == part[x] && more[|d|].RecordElement?;
  }

  /** A record delivered now is behind no watermark already sent. */
  lemma {:induction false} NotBehind(h: seq<Event>, n: nat, t: nat, rec: Record)
    requires BackedAlong(h, n) && t < n && Punctual(DeliveredFrom(h, t) + [RecordElement(rec)])
    ensures forall a :: 0 <= a < |Output(h)| && Output(h)[a].WatermarkElement? ==> rec.eventTime > Output(h)[a].wm
  {
    hide Punctual, StandsBehind, BackedAlong, Output, DeliveredFrom;
    var o := Output(h);
    forall a | 0 <= a < |o| && o[a].WatermarkElement? ensures rec.eventTime > o[a].wm {
      var q := SentByGate(h, o[a]);
      BackedAlongAt(h, n, q);
      DeliveredPrefix(h, q, t);
      StoodBehind(DeliveredFrom(h, t), DeliveredFrom(h[..q], t), o[a].wm, rec);
    }
  }

  lemma {:induction false} NoneBehind(h: seq<Event>, n: nat)
    requires GateRecords.CleanHistory(h, n) && BackedAlong(h, n)
    requires forall i: nat :: i < n ==> Punctual(DeliveredFrom(h, i))
    ensures KeepsPromise(Output(h))
  {
    hide Punctual, StandsBehind, BackedAlong, Output, DeliveredFrom;
    if h == [] {
      NothingYet(h);
    } else {
      var init, e := h[..|h| - 1], h[|h| - 1];
      assert h == init + [e];
      BackedPrefix(h, n, |init|);
      forall i: nat | i < n ensures Punctual(DeliveredFrom(init, i)) {
        DeliveredPrefix(h, |init|, i);
        PunctualPrefix(DeliveredFrom(init, i), DeliveredFrom(h, i));
      }
      NoneBehind(init, n);
      OutputAppend(init, e);
      if e.elem.RecordElement? {
        DeliveredAppend(init, e, e.input);
        NotBehind(init, n, e.input, e.elem.rec);
      }
    }
  }

  lemma {:induction false} FlushedPunctual(s: seq<Element>)
    requires KeepsPromise(s) && Flushed(s)
    ensures Punctual(s)
  {
  }

  /** The records routed to this subtask, input by input. */
  function RoutedRecords(sent: seq<seq<seq<Element>>>, mine: Record -> bool, marks: seq<nat>): seq<seq<Record>>
    requires forall i :: 0 <= i < |sent| ==> |sent[i]| == |marks| + 1
  {
    seq(|sent|, i requires 0 <= i < |sent| => Select(Records(Effective(sent[i], marks)), mine))
  }

  /** What is left of all the runs holds exactly the records routed here that are left of the
      inputs, each once. */
  lemma {:induction false} StageRecords(sent: seq<seq<seq<Element>>>, mine: Record -> bool, marks: seq<nat>, received: seq<seq<Element>>)
    requires Receives(sent, mine, marks, received) && forall i :: 0 <= i < |sent| ==> Ended(sent[i][|marks|])
    ensures multiset(Records(Effective(received, marks))) == GateRecords.Bag(RoutedRecords(sent, mine, marks))
  {
    hide Output, DeliveredFrom, BackedAlong, Merges, MergesAll, Routed, Effective, Records, GateRecords.Bag, Ended;
    var h := EffectiveHistory(sent, mine, marks, received);
    GateRecords.OutputBag(h, |sent|);
    var x, y := GateRecords.DeliveredRecords(h, |sent|), RoutedRecords(sent, mine, marks);
    forall i: nat | i < |sent| ensures x[i] == y[i] {
      RoutedCounts(Effective(sent[i], marks), mine);
    }
    assert x == y;
  }

  /** A stage passes on all it promised. Whatever crashed and whenever, however each run's inputs
      were interleaved: if what is left of every input has nothing late in it, then so has what is
      left of what the subtask received, it ends behind a final watermark, and it holds exactly
      the records routed here. */
  lemma {:induction false} StagePasses(sent: seq<seq<seq<Element>>>, mine: Record -> bool, marks: seq<nat>, received: seq<seq<Element>>)
    requires Receives(sent, mine, marks, received) && forall i :: 0 <= i < |sent| ==> Sound(sent[i], marks)
    ensures Sound(received, marks) && Flushed(Effective(received, marks)) && LastWatermark(Effective(received, marks)) == MAX_INT64
    ensures multiset(Records(Effective(received, marks))) == GateRecords.Bag(RoutedRecords(sent, mine, marks))
  {
    hide Output, DeliveredFrom, BackedAlong, WellFormed, Merges, MergesAll, Routed, LastWatermark, Punctual, Flushed, Kept, KeepsPromise, Records, GateRecords.Bag;
    StageRecords(sent, mine, marks, received);
    var h := EffectiveHistory(sent, mine, marks, received);
    forall i: nat | i < |sent| ensures Punctual(DeliveredFrom(h, i)) {
      RoutedPunctual(Effective(sent[i], marks), mine);
    }
    NoneBehind(h, |sent|);
    FlushedPunctual(Output(h));
    forall r | 0 <= r < |received| ensures WellFormed(received[r], Base(marks[..r])) {
      ReceivedWellFormed(sent, mine, marks, received, r);
    }
    LastWatermarkConcat(Kept(received, marks), received[|marks|]);
  }

  function KeptRecords(sent: seq<seq<seq<Element>>>, mine: Record -> bool, marks: seq<nat>): seq<seq<Record>>
    requires forall i :: 0 <= i < |sent| ==> |marks| <= |sent[i]|
  {
    seq(|sent|, i requires 0 <= i < |sent| => Select(Records(Kept(sent[i], marks)), mine))
  }

  /** What is left of the crashed runs alone: the records routed here that are left of the inputs. */
  lemma {:induction false} CrashedStagePasses(sent: seq<seq<seq<Element>>>, mine: Record -> bool, marks: seq<nat>, received: seq<seq<Element>>)
    requires ReceivesCrashed(sent, mine, marks, received)
    ensures multiset(Records(Kept(received, marks))) == GateRecords.Bag(KeptRecords(sent, mine, marks))
  {
    hide Output, DeliveredFrom, BackedAlong, Merges, Routed, Kept, Records, GateRecords.Bag;
    assert marks[..|marks|] == marks;
    var h := KeptHistory(sent, mine, marks, received, |marks|);
    GateRecords.OutputBag(h, |sent|);
    var x, y := GateRecords.DeliveredRecords(h, |sent|), KeptRecords(sent, mine, marks);
    forall i: nat | i < |sent| ensures x[i] == y[i] {
      RoutedKept(sent[i], marks, mine);
      RoutedCounts(Kept(sent[i], marks), mine);
    }
    assert x == y;
  }

  lemma {:induction false} PartWellFormed(streams: seq<seq<Element>>, base: int, received: seq<Element>)
    requires Merges(streams, base, received)
    ensures WellFormed(received, base)
  {
    hide Output, WellFormed, Interleaves, AfterRun;
    var arrivals :| Interleaves(arrivals, streams, base) && received <= Output(AfterRun(arrivals, streams, base).history);
    var o := Output(AfterRun(arrivals, streams, base).history);
    OutputWellFormed(arrivals, streams, base);
    assert received == o[..|received|];
    WellFormedPrefix(o, base, |received|);
  }

  lemma {:induction false} AllMerges(streams: seq<seq<Element>>, base: int, received: seq<Element>)
    requires MergesAll(streams, base, received)
    ensures Merges(streams, base, received)
  {
    hide Output, Interleaves, AfterRun;
    var arrivals :| Interleaves(arrivals, streams, base) && ReadsAll(arrivals, streams) && received == Output(AfterRun(arrivals, streams, base).history);
    assert received <= Output(AfterRun(arrivals, streams, base).history);
  }

  /** Every run of the subtask received its barriers under that run's numbering, and a crashed one
      the barrier it was given up for. */
  lemma {:induction false} ReceivedResumable(sent: seq<seq<seq<Element>>>, mine: Record -> bool, marks: seq<nat>, received: seq<seq<Element>>)
    requires ReceivesCrashed(sent, mine, marks, received)
    ensures Resumable(received, marks)
  {
    hide WellFormed, Merges, NumBarriers;
    forall r | 0 <= r < |marks| ensures WellFormed(received[r], Base(marks[..r])) && marks[r] <= NumBarriers(received[r]) {
      assert ReceivesRun(sent, mine, marks, received, r);
      PartWellFormed(Inputs(sent, mine, r), Base(marks[..r]), received[r]);
    }
  }

  lemma {:induction false} ReceivedWellFormed(sent: seq<seq<seq<Element>>>, mine: Record -> bool, marks: seq<nat>, received: seq<seq<Element>>, r: nat)
    requires Receives(sent, mine, marks, received) && r < |received|
    ensures WellFormed(received[r], Base(marks[..r]))
  {
    hide WellFormed, Merges, MergesAll, NumBarriers;
    if r < |marks| {
      ReceivedResumable(sent, mine, marks, received);
    } else {
      assert marks[..r] == marks;
      AllMerges(Inputs(sent, mine, r), Base(marks), received[r]);
      PartWellFormed(Inputs(sent, mine, r), Base(marks), received[r]);
    }
  }

  lemma {:induction false} LastWatermarkConcat(a: seq<Element>, b: seq<Element>)
    requires LastWatermark(b) != MIN_INT64
    ensures LastWatermark(a + b) == LastWatermark(b)
  {
    assert (a + b)[..|a + b| - 1] == a + b[..|b| - 1];
    if !b[|b| - 1].WatermarkElement? {
      LastWatermarkConcat(a, b[..|b| - 1]);
    }
  }
}
