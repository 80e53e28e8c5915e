/** What the input gate guarantees over every interleaving of any number of inputs. */
module GateTheorems {
  import opened Int64
  import opened Elements
  import opened Gate
  import opened GateAlignment
  import opened GateWatermarks

  ghost predicate FullInv(s: State, base: int) {
    Inv(s, base) && TimeInv(s) && PromiseInv(s) && BackedAlong(s.history, |s.eos|)
  }

  /** Every input has handed over a well-formed stream so far. */
  ghost predicate InputsWellFormed(s: State, base: int)
    requires Shape(s)
  {
    forall i: nat :: i < |s.eos| ==> WellFormed(Accepted(s, i), base)
  }

  lemma {:induction false} InitFull(n: nat, base: int)
    requires n > 0
    ensures FullInv(Init(n), base)
    ensures forall i: nat :: i < n ==> Accepted(Init(n), i) == []
  {
    InitInv(n, base);
    var s := Init(n);
    assert seq(n, (i: nat) => LastWatermark(DeliveredFrom([], i))) == seq(n, _ => MIN_INT64);
    assert MinLiveOf([], n) == MinLive(s.watermarks, s.eos, n) by {
      MinLiveTracks(s);
    }
    assert MinLive(s.watermarks, s.eos, n) == MIN_INT64 by {
      assert !s.eos[0] && s.watermarks[0] == MIN_INT64;
    }
  }

  lemma {:induction false} DeliverDelivered(s: State, t: Tagged)
    requires Usable(s) && t.input < |s.eos| && !s.eos[t.input]
    ensures forall i: nat :: DeliveredFrom(Deliver(s, t).history, i) == DeliveredFrom(s.history + [Delivered(t.input, t.elem)], i)
  {
    hide DeliveredFrom, MinLive, Awaiting, Flatten;
    var s1 := Log(s, Delivered(t.input, t.elem));
    match t.elem {
      case BarrierElement(_, _) =>
        var s2 := MarkAligned(s1, t);
        ForwardKeepsDelivered(s2.history, s2.barrier.value);
      case EndOfStream =>
        MarkEndedKeepsDelivered(s1, t.input);
        MarksUsable(s1, t);
        var s2 := MarkEnded(s1, t.input);
        if s2.aligning {
          ForwardKeepsDelivered(s2.history, s2.barrier.value);
        }
      case WatermarkElement(wm) =>
        var s2 := s1.(watermarks := s1.watermarks[t.input := wm]);
        ForwardKeepsDelivered(s2.history, WatermarkElement(MinLive(s2.watermarks, s2.eos, |s2.eos|)));
      case RecordElement(_) =>
    }
  }

  lemma {:induction false} HandleFull(s: State, t: Tagged, base: int)
    requires FullInv(s, base) && t.input < |s.eos|
    requires WellFormed(DeliveredFrom(s.history, t.input) + s.buffered[t.input] + [t.elem], base)
    ensures FullInv(Handle(s, t), base)
  {
    hide BackedAlong, InvOutput, RunningMin, Output, CountLive, OutIsLast, NumBarriers, QueuedFrom;
    HandleKeeps(s, t, base);
    if !(s.aligning && s.alignedFor[t.input]) {
      assert InputOK(s, t.input, ForwardedBarriers(s.history));
      assert DeliveredFrom(s.history, t.input) + s.buffered[t.input] == DeliveredFrom(s.history, t.input);
      DeliveringIsLive(s, t, base);
      DeliverTime(s, t);
      DeliverDelivered(s, t);
      DeliverPromise(s, t);
      DeliverStandsBehind(s, t);
    }
  }

  lemma {:induction false} QueuedHead(q: seq<Tagged>)
    requires q != []
    ensures QueuedFrom(q, q[0].input) == [q[0].elem] + QueuedFrom(q[1..], q[0].input)
  {
  }

  lemma {:induction false} PoppedFull(s: State, base: int)
    requires FullInv(s, base) && InputsWellFormed(s, base) && s.replay != []
    ensures FullInv(s.(replay := s.replay[1..]), base)
    ensures var t := s.replay[0];
            WellFormed(DeliveredFrom(s.history, t.input) + s.buffered[t.input] + [t.elem], base)
  {
    hide WellFormed, DeliveredFrom, NumBarriers, Output, QueuedFrom, BackedAlong;
    QueuedHead(s.replay);
    var t := s.replay[0];
    var popped := s.(replay := s.replay[1..]);
    forall i: nat | i < |s.eos| ensures InputOK(popped, i, ForwardedBarriers(s.history)) {
      assert InputOK(s, i, ForwardedBarriers(s.history));
    }
    var x := DeliveredFrom(s.history, t.input) + s.buffered[t.input];
    var whole := Accepted(s, t.input);
    assert whole == (x + [t.elem]) + QueuedFrom(s.replay[1..], t.input);
    assert whole[..|x| + 1] == x + [t.elem];
    WellFormedPrefix(whole, base, |x| + 1);
  }

  /** The state after the element at the head of the queue has passed back through the gate. */
  ghost function ReplayOne(s: State): State
    requires Usable(s) && s.replay != []
  {
    Handle(s.(replay := s.replay[1..]), s.replay[0])
  }

  lemma {:induction false} AcceptedSplit(s: State, i: nat)
    requires s.replay != [] && i < |s.buffered|
    ensures Accepted(s, i) ==
            AfterOne(DeliveredFrom(s.history, i) + s.buffered[i], s.replay[0], i) + QueuedFrom(s.replay[1..], i)
  {
    var x := DeliveredFrom(s.history, i) + s.buffered[i];
    var t := s.replay[0];
    assert (x + [t.elem]) + QueuedFrom(s.replay[1..], i) == x + ([t.elem] + QueuedFrom(s.replay[1..], i));
  }

  lemma {:induction false} ReplayAccepts(s: State, base: int)
    requires FullInv(s, base) && InputsWellFormed(s, base) && s.replay != []
    ensures forall i: nat :: i < |s.eos| ==> Accepted(ReplayOne(s), i) == Accepted(s, i)
  {
    PoppedFull(s, base);
    HandleKeeps(s.(replay := s.replay[1..]), s.replay[0], base);
    forall i: nat | i < |s.eos| ensures Accepted(ReplayOne(s), i) == Accepted(s, i) {
      AcceptedSplit(s, i);
    }
  }

  lemma {:induction false} ReplayFull(s: State, base: int)
    requires FullInv(s, base) && InputsWellFormed(s, base) && s.replay != []
    ensures FullInv(ReplayOne(s), base)
  {
    PoppedFull(s, base);
    HandleFull(s.(replay := s.replay[1..]), s.replay[0], base);
  }

  /** Replaying what was held back loses nothing, reorders nothing within an input, and keeps
      the invariant at every element, even when an alignment completes on the way. */
  lemma {:induction false} SettleKeeps(s: State, base: int)
    requires FullInv(s, base) && InputsWellFormed(s, base)
    ensures FullInv(Settle(s), base)
    ensures forall i: nat :: i < |s.eos| ==> Accepted(Settle(s), i) == Accepted(s, i)
    decreases Load(s), |s.replay|
  {
    if s.replay != [] {
      ReplayAccepts(s, base);
      ReplayFull(s, base);
      HandleUsable(s.(replay := s.replay[1..]), s.replay[0]);
      SettleKeeps(ReplayOne(s), base);
    }
  }

  lemma {:induction false} ArriveAccepts(s: State, t: Tagged, base: int)
    requires FullInv(s, base) && s.replay == [] && t.input < |s.eos|
    requires WellFormed(Accepted(s, t.input) + [t.elem], base)
    ensures forall i: nat :: i < |s.eos| ==> Accepted(Handle(s, t), i) == AfterOne(Accepted(s, i), t, i)
  {
    forall i: nat | i < |s.eos| ensures Accepted(s, i) == DeliveredFrom(s.history, i) + s.buffered[i] {
      assert DeliveredFrom(s.history, i) + s.buffered[i] + [] == DeliveredFrom(s.history, i) + s.buffered[i];
    }
    HandleKeeps(s, t, base);
    forall i: nat | i < |s.eos| ensures Accepted(Handle(s, t), i) == AfterOne(Accepted(s, i), t, i) {
      var x := AfterOne(Accepted(s, i), t, i);
      assert x + [] == x;
    }
  }

  lemma {:induction false} ArriveFull(s: State, t: Tagged, base: int)
    requires FullInv(s, base) && s.replay == [] && t.input < |s.eos|
    requires WellFormed(Accepted(s, t.input) + [t.elem], base)
    ensures FullInv(Handle(s, t), base)
  {
    var x := DeliveredFrom(s.history, t.input) + s.buffered[t.input];
    assert x + [] == x;
    HandleFull(s, t, base);
  }

  /** One arrival and the replay it sets off. */
  lemma {:induction false} ArriveAndSettle(s: State, t: Tagged, rest: seq<Tagged>, base: int)
    requires FullInv(s, base) && s.replay == [] && t.input < |s.eos|
    requires forall i: nat :: i < |s.eos| ==> WellFormed(Accepted(s, i) + QueuedFrom([t] + rest, i), base)
    ensures Usable(Handle(s, t))
    ensures FullInv(Settle(Handle(s, t)), base)
    ensures forall i: nat :: i < |s.eos| ==>
              Accepted(Settle(Handle(s, t)), i) + QueuedFrom(rest, i) == Accepted(s, i) + QueuedFrom([t] + rest, i)
  {
    hide TimeInv, PromiseInv, BackedAlong, InvInputs, InvOutput, Settle, WellFormed, Handle, DeliveredFrom;
    assert ([t] + rest)[1..] == rest;
    var s1 := Handle(s, t);
    forall i: nat | i < |s.eos|
      ensures AfterOne(Accepted(s, i), t, i) + QueuedFrom(rest, i) == Accepted(s, i) + QueuedFrom([t] + rest, i)
      ensures WellFormed(AfterOne(Accepted(s, i), t, i), base)
    {
      var x := AfterOne(Accepted(s, i), t, i);
      assert x + QueuedFrom(rest, i) == Accepted(s, i) + QueuedFrom([t] + rest, i);
      assert (x + QueuedFrom(rest, i))[..|x|] == x;
      WellFormedPrefix(x + QueuedFrom(rest, i), base, |x|);
    }
    ArriveAccepts(s, t, base);
    ArriveFull(s, t, base);
    SettleKeeps(s1, base);
  }

  /** Conservation and the invariant over a whole run of arrivals. */
  lemma {:induction false} RunKeeps(s: State, arrivals: seq<Tagged>, base: int)
    requires FullInv(s, base) && s.replay == []
    requires forall j :: 0 <= j < |arrivals| ==> arrivals[j].input < |s.eos|
    requires forall i: nat :: i < |s.eos| ==> WellFormed(Accepted(s, i) + QueuedFrom(arrivals, i), base)
    ensures FullInv(Run(s, arrivals), base)
    ensures forall i: nat :: i < |s.eos| ==> Accepted(Run(s, arrivals), i) == Accepted(s, i) + QueuedFrom(arrivals, i)
    decreases |arrivals|
  {
    if arrivals == [] {
      forall i: nat | i < |s.eos| ensures Accepted(s, i) == Accepted(s, i) + QueuedFrom(arrivals, i) {}
    } else {
      assert [arrivals[0]] + arrivals[1..] == arrivals;
      ArriveAndSettle(s, arrivals[0], arrivals[1..], base);
      RunKeeps(Settle(Handle(s, arrivals[0])), arrivals[1..], base);
    }
  }

  // ----- The theorems ----------------------------------------------------------------------

  /** The inputs' streams, of which `arrivals` is any interleaving of any prefixes. */
  ghost predicate Interleaves(arrivals: seq<Tagged>, streams: seq<seq<Element>>, base: int) {
    && |streams| > 0
    && (forall j :: 0 <= j < |arrivals| ==> arrivals[j].input < |streams|)
    && (forall i: nat :: i < |streams| ==> QueuedFrom(arrivals, i) <= streams[i] && WellFormed(streams[i], base))
  }

  ghost function AfterRun(arrivals: seq<Tagged>, streams: seq<seq<Element>>, base: int): (s: State)
    requires Interleaves(arrivals, streams, base)
    ensures Usable(s) && |s.eos| == |streams| && s.replay == []
  {
    Run(Init(|streams|), arrivals)
  }

  lemma {:induction false} AfterRunFull(arrivals: seq<Tagged>, streams: seq<seq<Element>>, base: int)
    requires Interleaves(arrivals, streams, base)
    ensures FullInv(AfterRun(arrivals, streams, base), base)
    ensures var s := AfterRun(arrivals, streams, base);
            forall i: nat :: i < |streams| ==> DeliveredFrom(s.history, i) + s.buffered[i] == QueuedFrom(arrivals, i)
  {
    var n := |streams|;
    InitFull(n, base);
    forall i: nat | i < n ensures WellFormed(Accepted(Init(n), i) + QueuedFrom(arrivals, i), base) {
      assert [] + QueuedFrom(arrivals, i) == streams[i][..|QueuedFrom(arrivals, i)|];
      WellFormedPrefix(streams[i], base, |QueuedFrom(arrivals, i)|);
    }
    RunKeeps(Init(n), arrivals, base);
    var s := AfterRun(arrivals, streams, base);
    forall i: nat | i < n ensures DeliveredFrom(s.history, i) + s.buffered[i] == QueuedFrom(arrivals, i) {
      var x := DeliveredFrom(s.history, i) + s.buffered[i];
      assert x + [] == x && [] + QueuedFrom(arrivals, i) == QueuedFrom(arrivals, i);
    }
  }

  /** Nothing is lost, duplicated or reordered: what input `i` has delivered, followed by what
      is held back for it, is what it handed over. */
  lemma {:induction false} Conservation(arrivals: seq<Tagged>, streams: seq<seq<Element>>, base: int, i: nat)
    requires Interleaves(arrivals, streams, base) && i < |streams|
    ensures var s := AfterRun(arrivals, streams, base);
            DeliveredFrom(s.history, i) + s.buffered[i] == QueuedFrom(arrivals, i)
  {
    AfterRunFull(arrivals, streams, base);
  }

  lemma {:induction false} CutsOKAt(h: seq<Event>, n: nat, p: nat)
    requires CutsOK(h, n) && p < |h| && h[p].Forwarded? && h[p].elem.BarrierElement?
    ensures forall i: nat :: i < n ==> StopsAtCut(DeliveredFrom(h[..p], i), ForwardedBarriers(h[..p + 1]))
    decreases |h|
  {
    var before := h[..|h| - 1];
    if p < |h| - 1 {
      CutsOKAt(before, n, p);
      assert before[..p] == h[..p] && before[..p + 1] == h[..p + 1];
    } else {
      assert h[..p + 1] == h;
    }
  }

  lemma {:induction false} DeliveredPrefix(h: seq<Event>, p: nat, i: nat)
    requires p <= |h|
    ensures DeliveredFrom(h[..p], i) <= DeliveredFrom(h, i)
    ensures |Output(h[..p])| <= |Output(h)| && Output(h[..p]) == Output(h)[..|Output(h[..p])|]
  {
    if p < |h| {
      DeliveredPrefix(h[..|h| - 1], p, i);
      assert h[..|h| - 1][..p] == h[..p];
    } else {
      assert h[..p] == h;
    }
  }

  /** The consistent cut. When the k-th barrier leaves the gate it is barrier `base + k`, and
      the elements already delivered from every input are exactly those up to and including
      that input's own k-th barrier, or its whole stream if it has fewer. The right-hand side
      mentions the streams alone, so no interleaving can move the cut. */
  lemma {:induction false} ConsistentCut(arrivals: seq<Tagged>, streams: seq<seq<Element>>, base: int, p: nat)
    requires Interleaves(arrivals, streams, base)
    requires var h := AfterRun(arrivals, streams, base).history;
             p < |h| && h[p].Forwarded? && h[p].elem.BarrierElement?
    ensures var h := AfterRun(arrivals, streams, base).history;
            var k := ForwardedBarriers(h[..p + 1]);
            && h[p].elem.id == base + k
            && forall i: nat :: i < |streams| ==> DeliveredFrom(h[..p], i) == CutAt(streams[i], k)
  {
    hide TimeInv, PromiseInv, BackedAlong, InvInputs, NumBarriers, CutAt, WellFormed, DeliveredFrom, Output, QueuedFrom, Ended, AfterRun;
    var s := AfterRun(arrivals, streams, base);
    var h := s.history;
    var k := ForwardedBarriers(h[..p + 1]);
    AfterRunFull(arrivals, streams, base);
    CutsOKAt(h, |streams|, p);
    forall i: nat | i < |streams| ensures DeliveredFrom(h[..p], i) == CutAt(streams[i], k) {
      var d := DeliveredFrom(h[..p], i);
      DeliveredPrefix(h, p, i);
      assert d <= streams[i] by {
        assert DeliveredFrom(h, i) <= QueuedFrom(arrivals, i) <= streams[i];
      }
      PrefixIsCut(d, streams[i], base, k);
    }
    ForwardedAt(h, p, base);
  }

  /** The barrier at position `p` carries the number of barriers sent up to it. */
  lemma {:induction false} ForwardedAt(h: seq<Event>, p: nat, base: int)
    requires WellFormed(Output(h), base) && p < |h| && h[p].Forwarded? && h[p].elem.BarrierElement?
    ensures h[p].elem.id == base + ForwardedBarriers(h[..p + 1])
  {
    DeliveredPrefix(h, p + 1, 0);
    assert h[..p + 1][..p] == h[..p];
    var o := Output(h[..p + 1]);
    assert o == Output(h[..p]) + [h[p].elem];
    assert Output(h)[|o| - 1] == o[|o| - 1] && Output(h)[..|o|] == o;
  }

  /** Once every input has ended the gate has delivered everything: nothing is held back, as
      many barriers left as the input with the most had, and one end of stream is last. */
  lemma {:induction false} Completion(arrivals: seq<Tagged>, streams: seq<seq<Element>>, base: int)
    requires Interleaves(arrivals, streams, base)
    requires forall i: nat :: i < |streams| ==> QueuedFrom(arrivals, i) == streams[i] && Ended(streams[i])
    ensures var s := AfterRun(arrivals, streams, base);
            && s.replay == [] && !s.aligning
            && (forall i: nat :: i < |streams| ==> s.buffered[i] == [] && DeliveredFrom(s.history, i) == streams[i])
            && WellFormed(Output(s.history), base) && Ended(Output(s.history))
            && (forall i: nat :: i < |streams| ==> NumBarriers(streams[i]) <= ForwardedBarriers(s.history))
            && (exists i: nat :: i < |streams| && NumBarriers(streams[i]) == ForwardedBarriers(s.history))
  {
    var s := AfterRun(arrivals, streams, base);
    var f := ForwardedBarriers(s.history);
    AfterRunFull(arrivals, streams, base);
    forall i: nat | i < |streams| ensures s.alignedFor[i] || s.eos[i] {
      assert InputOK(s, i, f);
      assert DeliveredFrom(s.history, i) + [] == DeliveredFrom(s.history, i);
    }
    assert !Awaiting(s);
    forall i: nat | i < |streams|
      ensures s.buffered[i] == [] && DeliveredFrom(s.history, i) == streams[i] && NumBarriers(streams[i]) <= f && s.eos[i]
    {
      assert InputOK(s, i, f);
      assert DeliveredFrom(s.history, i) + [] == DeliveredFrom(s.history, i);
    }
    CountLiveZero(s.eos);
    if f > 0 {
      var i: nat :| i < |streams| && NumBarriers(DeliveredFrom(s.history, i)) >= f;
      assert NumBarriers(streams[i]) == f;
    } else {
      assert NumBarriers(streams[0]) == f;
    }
  }

  /** The end of stream goes out only behind the largest watermark there is, which no source
      sends. */
  lemma {:induction false} EndIsFlushed(arrivals: seq<Tagged>, streams: seq<seq<Element>>, base: int)
    requires Interleaves(arrivals, streams, base)
    requires Ended(Output(AfterRun(arrivals, streams, base).history))
    ensures LastWatermark(Output(AfterRun(arrivals, streams, base).history)) == MAX_INT64
  {
    hide PromiseInv, BackedAlong, WellFormed, Output, DeliveredFrom, QueuedFrom, Interleaves, AfterRun, LastWatermark, Increasing, InvInputs, InvHistory;
    var s := AfterRun(arrivals, streams, base);
    AfterRunFull(arrivals, streams, base);
    CountLiveZero(s.eos);
    MinLiveTracks(s);
    assert MinLiveOf(s.history, |streams|) == MAX_INT64;
  }

  /** The end of input flushes everything: once every input has ended the last watermark sent is
      that one. */
  lemma {:induction false} FinalWatermark(arrivals: seq<Tagged>, streams: seq<seq<Element>>, base: int)
    requires Interleaves(arrivals, streams, base)
    requires forall i: nat :: i < |streams| ==> QueuedFrom(arrivals, i) == streams[i] && Ended(streams[i])
    ensures LastWatermark(Output(AfterRun(arrivals, streams, base).history)) == MAX_INT64
  {
    Completion(arrivals, streams, base);
    EndIsFlushed(arrivals, streams, base);
  }

  /** The output watermark is always the running maximum of the minimum over live inputs; the
      watermarks sent strictly increase, and the last one sent is that maximum. */
  lemma {:induction false} OutputWatermark(arrivals: seq<Tagged>, streams: seq<seq<Element>>, base: int)
    requires Interleaves(arrivals, streams, base)
    ensures var s := AfterRun(arrivals, streams, base);
            && Increasing(Output(s.history))
            && LastWatermark(Output(s.history)) == RunningMin(s.history, |streams|)
  {
    AfterRunFull(arrivals, streams, base);
  }

  /** The promise is passed on: if on every input no record follows a watermark at or above its
      event time, then none does on the output, so no operator behind the gate sees a late
      record. The output is itself a well-formed stream, so this holds at every later gate. */
  lemma {:induction false} PromisePassedOn(arrivals: seq<Tagged>, streams: seq<seq<Element>>, base: int)
    requires Interleaves(arrivals, streams, base)
    requires forall i: nat :: i < |streams| ==> KeepsPromise(streams[i])
    ensures var s := AfterRun(arrivals, streams, base);
            WellFormed(Output(s.history), base) && KeepsPromise(Output(s.history))
  {
    AfterRunFull(arrivals, streams, base);
    var s := AfterRun(arrivals, streams, base);
    forall i: nat | i < |streams| ensures KeepsPromise(DeliveredFrom(s.history, i)) {
      var d := DeliveredFrom(s.history, i);
      assert d <= QueuedFrom(arrivals, i) <= streams[i];
      assert d == streams[i][..|d|];
      PromisePrefix(streams[i], |d|);
    }
  }

  /** What the gate has sent numbers its barriers as its inputs do and ends at most once. */
  lemma {:induction false} OutputWellFormed(arrivals: seq<Tagged>, streams: seq<seq<Element>>, base: int)
    requires Interleaves(arrivals, streams, base)
    ensures WellFormed(Output(AfterRun(arrivals, streams, base).history), base)
  {
    hide InvInputs, TimeInv, PromiseInv, BackedAlong, WellFormed, Interleaves, AfterRun;
    AfterRunFull(arrivals, streams, base);
  }

  /** No watermark goes out ahead of an input: when the gate sends one, every input has either ended
      or promised at least as much itself. */
  lemma {:induction false} SentIsBacked(arrivals: seq<Tagged>, streams: seq<seq<Element>>, base: int, q: nat, i: nat)
    requires Interleaves(arrivals, streams, base) && i < |streams|
    requires var h := AfterRun(arrivals, streams, base).history;
             q < |h| && h[q].Forwarded? && h[q].elem.WatermarkElement?
    ensures var h := AfterRun(arrivals, streams, base).history;
            StandsBehind(DeliveredFrom(h[..q], i), h[q].elem.wm)
  {
    hide Inv, TimeInv, PromiseInv, BackedAlong, StandsBehind, DeliveredFrom, Interleaves, AfterRun;
    AfterRunFull(arrivals, streams, base);
    BackedAlongAt(AfterRun(arrivals, streams, base).history, |streams|, q);
  }
}
