/** Event time at the input gate: the output watermark is the running maximum of the minimum over
    the live inputs, and it promises nothing the inputs did not. Each step of the gate is taken in
    turn: a delivered element, a completed alignment, the end of an input. */
module GateWatermarks {
  import opened Int64
  import opened Elements
  import opened Gate
  import opened GateAlignment

  ghost predicate Increasing(o: seq<Element>) {
    forall a, b :: 0 <= a < b < |o| && o[a].WatermarkElement? && o[b].WatermarkElement? ==> o[a].wm < o[b].wm
  }

  /** The minimum of the last watermarks of the inputs that have not ended, read off a history. */
  ghost function MinLiveOf(h: seq<Event>, n: nat): int64 {
    MinLive(seq(n, (i: nat) => LastWatermark(DeliveredFrom(h, i))), seq(n, (i: nat) => Ended(DeliveredFrom(h, i))), n)
  }

  /** The largest that minimum has ever been. */
  ghost function RunningMin(h: seq<Event>, n: nat): int64 {
    if h == [] then MinLiveOf(h, n) else Max(RunningMin(h[..|h| - 1], n), MinLiveOf(h, n))
  }

  ghost predicate TracksInputs(s: State) {
    && Shape(s)
    && (forall i: nat :: i < |s.eos| ==> s.watermarks[i] == LastWatermark(DeliveredFrom(s.history, i)))
    && (forall i: nat :: i < |s.eos| ==> (s.eos[i] <==> Ended(DeliveredFrom(s.history, i))))
  }

  /** `out` is the last of the strictly increasing watermarks sent. */
  ghost predicate OutIsLast(o: seq<Element>, out: int64) {
    && LastWatermark(o) == out
    && Increasing(o)
    && (forall a :: 0 <= a < |o| && o[a].WatermarkElement? ==> MIN_INT64 < o[a].wm <= out)
  }

  ghost predicate TimeInv(s: State) {
    TracksInputs(s) && OutIsLast(Output(s.history), s.out) && s.out == RunningMin(s.history, |s.eos|)
  }

  /** Every live input has itself promised at least the output watermark. */
  ghost predicate Backed(s: State) {
    Shape(s) && forall i: nat :: i < |s.eos| && !s.eos[i] ==> s.out == MIN_INT64 || Promised(DeliveredFrom(s.history, i), s.out)
  }

  ghost predicate InputsPromise(s: State) {
    forall i: nat :: i < |s.eos| ==> KeepsPromise(DeliveredFrom(s.history, i))
  }

  ghost predicate PromiseInv(s: State) {
    Backed(s) && (InputsPromise(s) ==> KeepsPromise(Output(s.history)))
  }

  lemma {:induction false} MinLiveTracks(s: State)
    requires TracksInputs(s)
    ensures MinLive(s.watermarks, s.eos, |s.eos|) == MinLiveOf(s.history, |s.eos|)
  {
    var n := |s.eos|;
    assert s.watermarks == seq(n, (i: nat) => LastWatermark(DeliveredFrom(s.history, i)));
    assert s.eos == seq(n, (i: nat) => Ended(DeliveredFrom(s.history, i)));
  }

  /** An event that changes no input's last watermark and ends no input leaves the running
      minimum where it is. */
  lemma {:induction false} QuietEvent(h: seq<Event>, ev: Event, n: nat)
    requires forall i: nat :: i < n ==> LastWatermark(DeliveredFrom(h + [ev], i)) == LastWatermark(DeliveredFrom(h, i))
    requires forall i: nat :: i < n ==> (Ended(DeliveredFrom(h + [ev], i)) <==> Ended(DeliveredFrom(h, i)))
    ensures RunningMin(h + [ev], n) == RunningMin(h, n)
  {
    assert seq(n, (i: nat) => LastWatermark(DeliveredFrom(h + [ev], i))) == seq(n, (i: nat) => LastWatermark(DeliveredFrom(h, i)));
    assert seq(n, (i: nat) => Ended(DeliveredFrom(h + [ev], i))) == seq(n, (i: nat) => Ended(DeliveredFrom(h, i)));
    assert (h + [ev])[..|h|] == h;
  }

  lemma {:induction false} OutIsLastAppend(o: seq<Element>, out: int64, e: Element)
    requires OutIsLast(o, out)
    requires e.WatermarkElement? ==> e.wm > out
    ensures OutIsLast(o + [e], if e.WatermarkElement? then e.wm else out)
  {
    LastWatermarkAppend(o, e);
  }

  lemma {:induction false} ForwardTime(s: State, e: Element)
    requires TimeInv(s) && (e.BarrierElement? || e.EndOfStream?)
    ensures TimeInv(Log(s, Forwarded(e)))
  {
    ForwardKeepsDelivered(s.history, e);
    QuietEvent(s.history, Forwarded(e), |s.eos|);
    OutputAppend(s.history, Forwarded(e));
    OutIsLastAppend(Output(s.history), s.out, e);
  }

  /** `Advance`, called once the inputs' watermarks and ends have been brought up to date with
      a history one event longer than the one `out` was computed for. */
  lemma {:induction false} AdvanceTime(s: State, h: seq<Event>, ev: Event)
    requires TracksInputs(s) && s.history == h + [ev]
    requires s.out == RunningMin(h, |s.eos|) && OutIsLast(Output(s.history), s.out)
    ensures TimeInv(Advance(s))
  {
    var n := |s.eos|;
    MinLiveTracks(s);
    var m := MinLiveOf(s.history, n);
    assert s.history[..|h|] == h;
    if m > s.out {
      var e := WatermarkElement(m);
      var s' := Advance(s);
      ForwardKeepsDelivered(s.history, e);
      QuietEvent(s.history, Forwarded(e), n);
      OutputAppend(s.history, Forwarded(e));
      OutIsLastAppend(Output(s.history), s.out, e);
      assert s'.history == s.history + [Forwarded(e)];
    }
  }

  /** What logging one delivered element does to the per-input view. */
  lemma {:induction false} LogTracks(s: State, t: Tagged)
    requires TracksInputs(s) && t.input < |s.eos| && !s.eos[t.input]
    ensures forall i: nat :: i < |s.eos| ==>
              LastWatermark(DeliveredFrom(s.history + [Delivered(t.input, t.elem)], i)) ==
                (if i == t.input && t.elem.WatermarkElement? then t.elem.wm else s.watermarks[i])
    ensures forall i: nat :: i < |s.eos| ==>
              (Ended(DeliveredFrom(s.history + [Delivered(t.input, t.elem)], i)) <==>
                s.eos[i] || (i == t.input && t.elem.EndOfStream?))
  {
    var ev := Delivered(t.input, t.elem);
    forall i: nat | i < |s.eos|
      ensures LastWatermark(DeliveredFrom(s.history + [ev], i)) ==
                (if i == t.input && t.elem.WatermarkElement? then t.elem.wm else s.watermarks[i])
      ensures Ended(DeliveredFrom(s.history + [ev], i)) <==> s.eos[i] || (i == t.input && t.elem.EndOfStream?)
    {
      DeliveredAppend(s.history, ev, i);
      LastWatermarkAppend(DeliveredFrom(s.history, i), t.elem);
    }
  }

  lemma {:induction false} LogOutput(s: State, t: Tagged)
    requires OutIsLast(Output(s.history), s.out)
    ensures OutIsLast(Output(s.history + [Delivered(t.input, t.elem)]), s.out)
  {
    OutputAppend(s.history, Delivered(t.input, t.elem));
    if t.elem.RecordElement? {
      OutIsLastAppend(Output(s.history), s.out, t.elem);
    }
  }

  lemma {:induction false} QuietLog(s: State, t: Tagged)
    requires TimeInv(s) && t.input < |s.eos| && !s.eos[t.input]
    requires t.elem.RecordElement? || t.elem.BarrierElement?
    ensures TimeInv(Log(s, Delivered(t.input, t.elem)))
  {
    LogTracks(s, t);
    LogOutput(s, t);
    QuietEvent(s.history, Delivered(t.input, t.elem), |s.eos|);
  }

  lemma {:induction false} CompleteAlignmentTime(s: State)
    requires TimeInv(s) && Usable(s) && (s.aligning ==> s.barrier.value.BarrierElement?)
    ensures TimeInv(CompleteAlignment(s))
  {
    if s.aligning && !Awaiting(s) {
      ForwardTime(s, s.barrier.value);
    }
  }

  lemma {:induction false} CloseTime(s: State)
    requires TimeInv(s)
    ensures TimeInv(CloseIfDone(s))
  {
    ForwardTime(s, EndOfStream);
    assert TimeInv(Log(s, Forwarded(EndOfStream)).(closed := true));
  }

  lemma {:induction false} EndAdvances(s: State, t: Tagged, s2: State)
    requires TimeInv(s) && t.input < |s.eos| && !s.eos[t.input] && t.elem.EndOfStream?
    requires s2 == Log(s, Delivered(t.input, t.elem)).(eos := s.eos[t.input := true], remaining := s.remaining - 1)
    ensures TimeInv(Advance(s2))
  {
    LogTracks(s, t);
    LogOutput(s, t);
    AdvanceTime(s2, s.history, Delivered(t.input, t.elem));
  }

  lemma {:induction false} WatermarkTime(s: State, t: Tagged)
    requires TimeInv(s) && t.input < |s.eos| && !s.eos[t.input] && t.elem.WatermarkElement?
    ensures TimeInv(Advance(Log(s, Delivered(t.input, t.elem)).(watermarks := s.watermarks[t.input := t.elem.wm])))
  {
    LogTracks(s, t);
    LogOutput(s, t);
    var ev := Delivered(t.input, t.elem);
    AdvanceTime(Log(s, ev).(watermarks := s.watermarks[t.input := t.elem.wm]), s.history, ev);
  }

  lemma {:induction false} EndTime(s: State, t: Tagged, s2: State)
    requires Usable(s) && t.input < |s.eos| && !s.eos[t.input]
    requires s2 == s.(eos := s.eos[t.input := true], remaining := s.remaining - 1) && TimeInv(Advance(s2))
    requires s.aligning ==> s.barrier.value.BarrierElement?
    ensures TimeInv(OnEndOfStream(s, t))
  {
    hide TimeInv, Awaiting;
    CloseTime(Advance(s2));
    MarksUsable(s, t);
    CompleteAlignmentTime(MarkEnded(s, t.input));
  }

  /** Every delivered element keeps the output watermark at the running maximum. */
  lemma {:induction false} DeliverTime(s: State, t: Tagged)
    requires Usable(s) && TimeInv(s) && t.input < |s.eos| && !s.eos[t.input]
    requires s.aligning ==> s.barrier.value.BarrierElement?
    ensures TimeInv(Deliver(s, t))
  {
    var s1 := Log(s, Delivered(t.input, t.elem));
    match t.elem {
      case BarrierElement(_, _) =>
        QuietLog(s, t);
        CompleteAlignmentTime(MarkAligned(s1, t));
      case EndOfStream =>
        var s2 := s1.(eos := s1.eos[t.input := true], remaining := s1.remaining - 1);
        EndAdvances(s, t, s2);
        EndTime(s1, t, s2);
      case WatermarkElement(wm) =>
        WatermarkTime(s, t);
      case RecordElement(_) =>
        QuietLog(s, t);
    }
  }

  // ----- The promise -----------------------------------------------------------------------

  lemma {:induction false} KeepsPromiseAppend(o: seq<Element>, e: Element)
    requires KeepsPromise(o)
    requires e.RecordElement? ==> forall a :: 0 <= a < |o| && o[a].WatermarkElement? ==> e.rec.eventTime > o[a].wm
    ensures KeepsPromise(o + [e])
  {
    var x := o + [e];
    forall a, b | 0 <= a < b < |x| && x[a].WatermarkElement? && x[b].RecordElement? ensures x[b].rec.eventTime > x[a].wm {
      assert x[a] == o[a];
    }
  }

  /** Watermarks and ends keep what the gate has sent within what live inputs have promised. */
  lemma {:induction false} AdvanceBacked(s: State)
    requires TracksInputs(s) && Backed(s)
    ensures Backed(Advance(s))
  {
    var m := MinLive(s.watermarks, s.eos, |s.eos|);
    if m > s.out {
      var s' := Advance(s);
      ForwardKeepsDelivered(s.history, WatermarkElement(m));
      forall i: nat | i < |s.eos| && !s.eos[i] ensures Promised(DeliveredFrom(s'.history, i), m) {
        LastWatermarkIsPromised(DeliveredFrom(s.history, i));
        var d := DeliveredFrom(s.history, i);
        var a :| 0 <= a < |d| && d[a].WatermarkElement? && d[a].wm >= LastWatermark(d);
        assert d[a].wm >= m;
      }
    }
  }

  lemma {:induction false} LogBacked(s: State, ev: Event)
    requires Shape(s) && Backed(s)
    ensures Backed(Log(s, ev))
  {
    forall i: nat | i < |s.eos| && !s.eos[i] && s.out != MIN_INT64
      ensures Promised(DeliveredFrom(Log(s, ev).history, i), s.out)
    {
      var d := DeliveredFrom(s.history, i);
      var a :| 0 <= a < |d| && d[a].WatermarkElement? && d[a].wm >= s.out;
      DeliveredAppend(s.history, ev, i);
      assert DeliveredFrom(Log(s, ev).history, i)[a] == d[a];
    }
  }

  lemma {:induction false} CompleteAlignmentBacked(s: State)
    requires Usable(s) && Backed(s)
    ensures Backed(CompleteAlignment(s))
  {
    if s.aligning && !Awaiting(s) {
      LogBacked(s, Forwarded(s.barrier.value));
    }
  }

  lemma {:induction false} FewerLiveBacked(s: State, i: nat)
    requires Backed(s) && i < |s.eos|
    ensures Backed(s.(eos := s.eos[i := true], remaining := s.remaining - 1))
    ensures Backed(s.(closed := true))
  {}

  lemma {:induction false} EndBacked(s: State, t: Tagged)
    requires TracksInputs(s) && Backed(s) && t.input < |s.eos| && !s.eos[t.input] && t.elem.EndOfStream?
    ensures Backed(MarkEnded(Log(s, Delivered(t.input, t.elem)), t.input))
  {
    hide Backed, Promised, DeliveredFrom, Output, MinLive, LastWatermark;
    var ev := Delivered(t.input, t.elem);
    LogBacked(s, ev);
    LogTracks(s, t);
    var s2 := Log(s, ev).(eos := s.eos[t.input := true], remaining := s.remaining - 1);
    FewerLiveBacked(Log(s, ev), t.input);
    AdvanceBacked(s2);
    LogBacked(Advance(s2), Forwarded(EndOfStream));
    FewerLiveBacked(Log(Advance(s2), Forwarded(EndOfStream)), t.input);
  }

  lemma {:induction false} DeliverBacked(s: State, t: Tagged)
    requires Usable(s) && TracksInputs(s) && Backed(s) && t.input < |s.eos| && !s.eos[t.input]
    ensures Backed(Deliver(s, t))
  {
    hide Backed, Advance, CompleteAlignment, Awaiting;
    var s1 := Log(s, Delivered(t.input, t.elem));
    LogBacked(s, Delivered(t.input, t.elem));
    match t.elem {
      case BarrierElement(_, e) =>
        CompleteAlignmentBacked(MarkAligned(s1, t));
      case EndOfStream =>
        EndBacked(s, t);
        MarksUsable(s1, t);
        CompleteAlignmentBacked(MarkEnded(s1, t.input));
      case WatermarkElement(wm) =>
        LogTracks(s, t);
        AdvanceBacked(s1.(watermarks := s1.watermarks[t.input := wm]));
      case RecordElement(_) =>
    }
  }

  /** Control elements never break the promise of what has been sent. */
  lemma {:induction false} ControlsKeepPromise(s: State)
    requires Usable(s) && KeepsPromise(Output(s.history))
    ensures KeepsPromise(Output(Advance(s).history))
    ensures KeepsPromise(Output(CloseIfDone(s).history))
    ensures s.aligning && !s.barrier.value.RecordElement? ==> KeepsPromise(Output(CompleteAlignment(s).history))
  {
    var m := WatermarkElement(MinLive(s.watermarks, s.eos, |s.eos|));
    OutputAppend(s.history, Forwarded(m));
    KeepsPromiseAppend(Output(s.history), m);
    OutputAppend(s.history, Forwarded(EndOfStream));
    KeepsPromiseAppend(Output(s.history), EndOfStream);
    if s.aligning && !s.barrier.value.RecordElement? {
      OutputAppend(s.history, Forwarded(s.barrier.value));
      KeepsPromiseAppend(Output(s.history), s.barrier.value);
    }
  }

  lemma {:induction false} EndPromise(s: State, t: Tagged)
    requires Usable(s) && t.input < |s.eos| && !s.eos[t.input] && KeepsPromise(Output(s.history))
    requires s.aligning ==> s.barrier.value.BarrierElement?
    ensures KeepsPromise(Output(OnEndOfStream(s, t).history))
  {
    hide KeepsPromise;
    var s2 := s.(eos := s.eos[t.input := true], remaining := s.remaining - 1);
    ControlsKeepPromise(s2);
    ControlsKeepPromise(Advance(s2));
    MarksUsable(s, t);
    ControlsKeepPromise(MarkEnded(s, t.input));
  }

  lemma {:induction false} DeliverControlPromise(s: State, t: Tagged)
    requires Usable(s) && t.input < |s.eos| && !t.elem.RecordElement? && !s.eos[t.input]
    requires s.aligning ==> s.barrier.value.BarrierElement?
    requires KeepsPromise(Output(s.history))
    ensures KeepsPromise(Output(Deliver(s, t).history))
  {
    var s1 := Log(s, Delivered(t.input, t.elem));
    OutputAppend(s.history, Delivered(t.input, t.elem));
    match t.elem {
      case BarrierElement(_, _) =>
        ControlsKeepPromise(MarkAligned(s1, t));
      case EndOfStream =>
        EndPromise(s1, t);
      case WatermarkElement(wm) =>
        ControlsKeepPromise(s1.(watermarks := s1.watermarks[t.input := wm]));
    }
  }

  /** What the gate sends on breaks no promise that its inputs kept. */
  lemma {:induction false} DeliverPromise(s: State, t: Tagged)
    requires Usable(s) && TimeInv(s) && PromiseInv(s) && t.input < |s.eos| && !s.eos[t.input]
    requires s.aligning ==> s.barrier.value.BarrierElement?
    requires forall i: nat :: DeliveredFrom(Deliver(s, t).history, i) == DeliveredFrom(s.history + [Delivered(t.input, t.elem)], i)
    ensures PromiseInv(Deliver(s, t))
  {
    DeliverBacked(s, t);
    var s' := Deliver(s, t);
    if InputsPromise(s') {
      forall i: nat | i < |s.eos| ensures KeepsPromise(DeliveredFrom(s.history, i)) {
        DeliveredAppend(s.history, Delivered(t.input, t.elem), i);
        PromisePrefix(DeliveredFrom(s'.history, i), |DeliveredFrom(s.history, i)|);
      }
      if t.elem.RecordElement? {
        RecordPromise(s, t);
      } else {
        DeliverControlPromise(s, t);
      }
    }
  }

  lemma {:induction false} PromisePrefix(d: seq<Element>, p: nat)
    requires KeepsPromise(d) && p <= |d|
    ensures KeepsPromise(d[..p])
  {}

  lemma {:induction false} RecordPromise(s: State, t: Tagged)
    requires TimeInv(s) && Backed(s) && t.input < |s.eos| && !s.eos[t.input] && t.elem.RecordElement?
    requires KeepsPromise(Output(s.history))
    requires KeepsPromise(DeliveredFrom(s.history + [Delivered(t.input, t.elem)], t.input))
    ensures KeepsPromise(Output(s.history + [Delivered(t.input, t.elem)]))
  {
    var ev := Delivered(t.input, t.elem);
    var d := DeliveredFrom(s.history, t.input);
    DeliveredAppend(s.history, ev, t.input);
    OutputAppend(s.history, ev);
    if s.out != MIN_INT64 {
      var a :| 0 <= a < |d| && d[a].WatermarkElement? && d[a].wm >= s.out;
      assert (d + [t.elem])[a] == d[a] && (d + [t.elem])[|d|] == t.elem;
      assert t.elem.rec.eventTime > s.out;
    }
    KeepsPromiseAppend(Output(s.history), t.elem);
  }

  // ----- Who stands behind a watermark ------------------------------------------------------

  /** An input that has delivered `d` stands behind `wm`: it has ended, or promised as much itself. */
  ghost predicate StandsBehind(d: seq<Element>, wm: int64) {
    Ended(d) || Promised(d, wm)
  }

  /** Every one of `n` inputs stood behind each watermark the gate sent, at the moment it went out. */
  ghost predicate BackedAlong(h: seq<Event>, n: nat) {
    h == [] ||
    (var before, last := h[..|h| - 1], h[|h| - 1];
     && BackedAlong(before, n)
     && (last.Forwarded? && last.elem.WatermarkElement? ==>
           forall i: nat :: i < n ==> StandsBehind(DeliveredFrom(before, i), last.elem.wm)))
  }

  lemma {:induction false} BackedAlongAppend(h: seq<Event>, ev: Event, n: nat)
    requires BackedAlong(h, n)
    requires ev.Forwarded? && ev.elem.WatermarkElement? ==> forall i: nat :: i < n ==> StandsBehind(DeliveredFrom(h, i), ev.elem.wm)
    ensures BackedAlong(h + [ev], n)
  {
    assert (h + [ev])[..|h|] == h;
  }

  lemma {:induction false} BackedAlongAt(h: seq<Event>, n: nat, q: nat)
    requires BackedAlong(h, n) && q < |h| && h[q].Forwarded? && h[q].elem.WatermarkElement?
    ensures forall i: nat :: i < n ==> StandsBehind(DeliveredFrom(h[..q], i), h[q].elem.wm)
    decreases |h|
  {
    var before := h[..|h| - 1];
    if q < |h| - 1 {
      BackedAlongAt(before, n, q);
      assert before[..q] == h[..q];
    }
  }

  lemma {:induction false} AdvanceStandsBehind(s: State)
    requires TracksInputs(s) && BackedAlong(s.history, |s.eos|)
    ensures BackedAlong(Advance(s).history, |s.eos|)
  {
    hide BackedAlong, Promised, Ended, DeliveredFrom, LastWatermark;
    var m := MinLive(s.watermarks, s.eos, |s.eos|);
    if m > s.out {
      forall i: nat | i < |s.eos| ensures StandsBehind(DeliveredFrom(s.history, i), m) {
        LastWatermarkIsPromised(DeliveredFrom(s.history, i));
        if !s.eos[i] {
          PromisedLess(DeliveredFrom(s.history, i), s.watermarks[i], m);
        }
      }
      BackedAlongAppend(s.history, Forwarded(WatermarkElement(m)), |s.eos|);
    }
  }

  lemma {:induction false} PromisedLess(d: seq<Element>, wm: int64, less: int64)
    requires Promised(d, wm) && less <= wm
    ensures Promised(d, less)
  {
    var a :| 0 <= a < |d| && d[a].WatermarkElement? && d[a].wm >= wm;
    assert d[a].wm >= less;
  }

  lemma {:induction false} ControlStandsBehind(s: State)
    requires Usable(s) && BackedAlong(s.history, |s.eos|) && (s.aligning ==> s.barrier.value.BarrierElement?)
    ensures BackedAlong(CloseIfDone(s).history, |s.eos|)
    ensures BackedAlong(CompleteAlignment(s).history, |s.eos|)
  {
    hide BackedAlong, Awaiting, Flatten;
    BackedAlongAppend(s.history, Forwarded(EndOfStream), |s.eos|);
    if s.aligning {
      BackedAlongAppend(s.history, Forwarded(s.barrier.value), |s.eos|);
    }
  }

  lemma {:induction false} EndStandsBehind(s: State, t: Tagged)
    requires Usable(s) && TracksInputs(s) && BackedAlong(s.history, |s.eos|)
    requires t.input < |s.eos| && !s.eos[t.input] && t.elem.EndOfStream?
    requires s.aligning ==> s.barrier.value.BarrierElement?
    ensures BackedAlong(OnEndOfStream(Log(s, Delivered(t.input, t.elem)), t).history, |s.eos|)
  {
    hide BackedAlong, DeliveredFrom, Output, MinLive, LastWatermark, CompleteAlignment;
    var s1 := Log(s, Delivered(t.input, t.elem));
    BackedAlongAppend(s.history, Delivered(t.input, t.elem), |s.eos|);
    LogTracks(s, t);
    var s2 := s1.(eos := s1.eos[t.input := true], remaining := s1.remaining - 1);
    AdvanceStandsBehind(s2);
    ControlStandsBehind(Advance(s2));
    MarksUsable(s1, t);
    ControlStandsBehind(MarkEnded(s1, t.input));
  }

  /** Delivering an element keeps every watermark sent backed by every input. */
  lemma {:induction false} DeliverStandsBehind(s: State, t: Tagged)
    requires Usable(s) && TracksInputs(s) && BackedAlong(s.history, |s.eos|) && t.input < |s.eos| && !s.eos[t.input]
    requires s.aligning ==> s.barrier.value.BarrierElement?
    ensures BackedAlong(Deliver(s, t).history, |s.eos|)
  {
    hide BackedAlong, Advance, CompleteAlignment, OnEndOfStream, DeliveredFrom, LastWatermark;
    var s1 := Log(s, Delivered(t.input, t.elem));
    BackedAlongAppend(s.history, Delivered(t.input, t.elem), |s.eos|);
    match t.elem {
      case BarrierElement(_, _) =>
        MarksUsable(s1, t);
        ControlStandsBehind(MarkAligned(s1, t));
      case EndOfStream =>
        EndStandsBehind(s, t);
      case WatermarkElement(wm) =>
        LogTracks(s, t);
        AdvanceStandsBehind(s1.(watermarks := s1.watermarks[t.input := wm]));
      case RecordElement(_) =>
    }
  }
}
