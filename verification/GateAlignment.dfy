/** Order, conservation and alignment of the input gate, over every interleaving of its inputs.

    All inputs number their barriers consecutively from a common base and stop at their end of
    stream. Nothing else is assumed about them: lengths and numbers of barriers may differ. What
    holds between any two changes the gate makes to itself is shown for each kind of element. */
module GateAlignment {
  import opened Elements
  import opened Gate

  /** The part of the replay queue that belongs to input `i`. */
  function QueuedFrom(q: seq<Tagged>, i: nat): seq<Element> {
    if q == [] then []
    else if q[0].input == i then [q[0].elem] + QueuedFrom(q[1..], i)
    else QueuedFrom(q[1..], i)
  }

  /** All that input `i` has handed over: delivered, then held back, then queued for replay. */
  ghost function Accepted(s: State, i: nat): seq<Element>
    requires i < |s.buffered|
  {
    DeliveredFrom(s.history, i) + s.buffered[i] + QueuedFrom(s.replay, i)
  }

  /** `x` with `t` added, when `t` is of input `i`. */
  function AfterOne(x: seq<Element>, t: Tagged, i: nat): seq<Element> {
    if t.input == i then x + [t.elem] else x
  }

  function ForwardedBarriers(h: seq<Event>): nat {
    NumBarriers(Output(h))
  }

  // ----- History bookkeeping ---------------------------------------------------------------

  lemma {:induction false} OutputAppend(h: seq<Event>, e: Event)
    ensures Output(h + [e]) == if e.Forwarded? || e.elem.RecordElement? then Output(h) + [e.elem] else Output(h)
  {
    assert (h + [e])[..|h|] == h;
  }

  lemma {:induction false} DeliveredAppend(h: seq<Event>, e: Event, i: nat)
    ensures DeliveredFrom(h + [e], i) ==
            if e.Delivered? && e.input == i then DeliveredFrom(h, i) + [e.elem] else DeliveredFrom(h, i)
  {
    assert (h + [e])[..|h|] == h;
  }

  lemma {:induction false} QueuedConcat(q: seq<Tagged>, r: seq<Tagged>, i: nat)
    ensures QueuedFrom(q + r, i) == QueuedFrom(q, i) + QueuedFrom(r, i)
  {
    if q == [] {
      assert q + r == r;
    } else {
      QueuedConcat(q[1..], r, i);
      assert (q + r)[0] == q[0] && (q + r)[1..] == q[1..] + r;
      var rest := QueuedFrom(q[1..], i);
      assert [q[0].elem] + (rest + QueuedFrom(r, i)) == ([q[0].elem] + rest) + QueuedFrom(r, i);
    }
  }

  lemma {:induction false} QueuedOfOne(x: seq<Element>, owner: nat, i: nat)
    ensures QueuedFrom(seq(|x|, j requires 0 <= j < |x| => Tagged(owner, x[j])), i) == if i == owner then x else []
  {
    var q := seq(|x|, j requires 0 <= j < |x| => Tagged(owner, x[j]));
    if x != [] {
      QueuedOfOne(x[1..], owner, i);
      assert q[1..] == seq(|x[1..]|, j requires 0 <= j < |x[1..]| => Tagged(owner, x[1..][j]));
    }
  }

  /** Draining the buffers keeps each input's elements together and in order. */
  lemma {:induction false} FlattenKeepsOrder(b: seq<seq<Element>>, n: nat, i: nat)
    requires n <= |b|
    ensures QueuedFrom(Flatten(b, n), i) == if i < n then b[i] else []
  {
    if n > 0 {
      FlattenKeepsOrder(b, n - 1, i);
      QueuedOfOne(b[n - 1], n - 1, i);
      QueuedConcat(Flatten(b, n - 1), seq(|b[n - 1]|, j requires 0 <= j < |b[n - 1]| => Tagged(n - 1, b[n - 1][j])), i);
    }
  }

  // ----- The invariant ---------------------------------------------------------------------

  /** Where input `i` stands relative to the `f` barriers forwarded so far. */
  ghost predicate InputOK(s: State, i: nat, f: nat)
    requires Shape(s) && i < |s.eos|
  {
    var d := DeliveredFrom(s.history, i);
    && (s.eos[i] <==> Ended(d))
    && (s.alignedFor[i] ==> s.aligning && !s.eos[i] && NumBarriers(d) == f + 1 && d[|d| - 1].BarrierElement?)
    && (!s.alignedFor[i] ==> s.buffered[i] == [])
    && (!s.alignedFor[i] && !s.eos[i] ==> NumBarriers(d) == f)
    && (s.eos[i] ==> NumBarriers(d) <= f)
  }

  /** The elements delivered from one input stop exactly at its k-th barrier, or at its end if
      it has fewer. */
  ghost predicate StopsAtCut(d: seq<Element>, k: nat) {
    d != [] && ((NumBarriers(d) == k && d[|d| - 1].BarrierElement?) || (NumBarriers(d) < k && Ended(d)))
  }

  /** Every barrier was forwarded exactly when all `n` inputs stood at the cut it names. */
  ghost predicate CutsOK(h: seq<Event>, n: nat) {
    h == [] ||
    (var before := h[..|h| - 1];
     && CutsOK(before, n)
     && (h[|h| - 1].Forwarded? && h[|h| - 1].elem.BarrierElement? ==>
           forall i: nat :: i < n ==> StopsAtCut(DeliveredFrom(before, i), ForwardedBarriers(h))))
  }

  function CountLive(eos: seq<bool>): nat {
    if eos == [] then 0 else CountLive(eos[..|eos| - 1]) + if eos[|eos| - 1] then 0 else 1
  }

  ghost predicate InvInputs(s: State)
    requires Shape(s)
  {
    forall i: nat :: i < |s.eos| ==> InputOK(s, i, ForwardedBarriers(s.history))
  }

  /** Some input has delivered as many barriers as have been forwarded. */
  ghost predicate Reached(h: seq<Event>, n: nat) {
    ForwardedBarriers(h) > 0 ==> exists i: nat :: i < n && NumBarriers(DeliveredFrom(h, i)) >= ForwardedBarriers(h)
  }

  ghost predicate InvHistory(h: seq<Event>, n: nat, base: int) {
    WellFormed(Output(h), base) && CutsOK(h, n) && Reached(h, n)
  }

  ghost predicate InvOutput(s: State, base: int) {
    InvHistory(s.history, |s.eos|, base) && (Ended(Output(s.history)) <==> s.closed)
  }

  /** What holds between any two changes the gate makes to itself. */
  ghost predicate MidInv(s: State, base: int) {
    && Usable(s) && |s.eos| > 0
    && s.remaining == CountLive(s.eos)
    && (s.closed <==> s.remaining == 0)
    && InvInputs(s)
    && InvOutput(s, base)
    && (s.aligning ==> s.barrier.value.BarrierElement? && s.barrier.value.id == base + ForwardedBarriers(s.history) + 1)
    && (s.aligning ==> exists i :: 0 <= i < |s.eos| && s.alignedFor[i])
  }

  /** What holds after every handled element: an alignment still open awaits a live input. */
  ghost predicate Inv(s: State, base: int) {
    MidInv(s, base) && (s.aligning ==> Awaiting(s))
  }

  lemma {:induction false} CountLiveUpdate(eos: seq<bool>, i: nat)
    requires i < |eos| && !eos[i]
    ensures CountLive(eos[i := true]) == CountLive(eos) - 1
  {
    var last := |eos| - 1;
    if i == last {
      assert eos[i := true][..last] == eos[..last];
    } else {
      CountLiveUpdate(eos[..last], i);
      assert eos[i := true][..last] == eos[..last][i := true];
    }
  }

  lemma {:induction false} CountLiveZero(eos: seq<bool>)
    ensures CountLive(eos) == 0 <==> forall i :: 0 <= i < |eos| ==> eos[i]
  {
    if eos != [] {
      var last := |eos| - 1;
      CountLiveZero(eos[..last]);
      assert forall i :: 0 <= i < last ==> eos[..last][i] == eos[i];
    }
  }

  lemma {:induction false} CountLiveAll(n: nat)
    ensures CountLive(seq(n, _ => false)) == n
  {
    if n > 0 {
      CountLiveAll(n - 1);
      assert seq(n, _ => false)[..n - 1] == seq(n - 1, _ => false);
    }
  }

  lemma {:induction false} InitInv(n: nat, base: int)
    requires n > 0
    ensures Inv(Init(n), base)
  {
    CountLiveAll(n);
  }

  // ----- Preservation ----------------------------------------------------------------------

  /** Appending a forwarded element changes no input's delivered elements. */
  lemma {:induction false} ForwardKeepsDelivered(h: seq<Event>, e: Element)
    ensures forall i: nat :: DeliveredFrom(h + [Forwarded(e)], i) == DeliveredFrom(h, i)
  {
    forall i: nat ensures DeliveredFrom(h + [Forwarded(e)], i) == DeliveredFrom(h, i) {
      DeliveredAppend(h, Forwarded(e), i);
    }
  }

  /** Forwarding a control element extends the history soundly, provided a barrier goes out
      under the next ID and with every input standing at its cut. */
  lemma {:induction false} ForwardKeeps(h: seq<Event>, n: nat, base: int, e: Element)
    requires InvHistory(h, n, base) && !Ended(Output(h)) && !e.RecordElement?
    requires e.BarrierElement? ==> e.id == base + ForwardedBarriers(h) + 1 && n > 0
    requires e.BarrierElement? ==> forall i: nat :: i < n ==> StopsAtCut(DeliveredFrom(h, i), ForwardedBarriers(h) + 1)
    requires e.BarrierElement? ==> exists i: nat :: i < n && NumBarriers(DeliveredFrom(h, i)) > ForwardedBarriers(h)
    ensures InvHistory(h + [Forwarded(e)], n, base)
    ensures Output(h + [Forwarded(e)]) == Output(h) + [e]
    ensures ForwardedBarriers(h + [Forwarded(e)]) == ForwardedBarriers(h) + if e.BarrierElement? then 1 else 0
  {
    var h' := h + [Forwarded(e)];
    ForwardKeepsDelivered(h, e);
    OutputAppend(h, Forwarded(e));
    NumBarriersAppend(Output(h), e);
    WellFormedAppend(Output(h), base, e);
    assert h'[..|h|] == h;
    if ForwardedBarriers(h') > 0 {
      var i: nat :| i < n && NumBarriers(DeliveredFrom(h, i)) >= ForwardedBarriers(h');
      assert NumBarriers(DeliveredFrom(h', i)) >= ForwardedBarriers(h');
    }
  }

  /** A watermark forwarded by `Advance` disturbs nothing about alignment. */
  lemma {:induction false} AdvanceKeeps(s: State, base: int)
    requires Shape(s) && InvOutput(s, base) && !s.closed
    ensures Shape(Advance(s)) && InvOutput(Advance(s), base)
    ensures forall i: nat :: DeliveredFrom(Advance(s).history, i) == DeliveredFrom(s.history, i)
    ensures ForwardedBarriers(Advance(s).history) == ForwardedBarriers(s.history)
    ensures Advance(s) == s.(out := Advance(s).out, history := Advance(s).history)
  {
    var m := MinLive(s.watermarks, s.eos, |s.eos|);
    if m > s.out {
      ForwardKeepsDelivered(s.history, WatermarkElement(m));
      ForwardKeeps(s.history, |s.eos|, base, WatermarkElement(m));
    }
  }

  /** The alignment that is about to complete has every input at its cut. */
  lemma {:induction false} ReadyToComplete(s: State, base: int)
    requires MidInv(s, base) && s.aligning && !Awaiting(s)
    ensures !s.closed
    ensures forall i: nat :: i < |s.eos| ==> StopsAtCut(DeliveredFrom(s.history, i), ForwardedBarriers(s.history) + 1)
    ensures exists i: nat :: i < |s.eos| && NumBarriers(DeliveredFrom(s.history, i)) > ForwardedBarriers(s.history)
  {
    var f := ForwardedBarriers(s.history);
    forall i: nat | i < |s.eos| ensures StopsAtCut(DeliveredFrom(s.history, i), f + 1) {
      assert InputOK(s, i, f);
    }
    var w :| 0 <= w < |s.eos| && s.alignedFor[w];
    assert InputOK(s, w, f);
    CountLiveZero(s.eos);
  }

  lemma {:induction false} CompletedInputs(s: State, base: int, i: nat)
    requires MidInv(s, base) && s.aligning && !Awaiting(s) && i < |s.eos|
    requires ForwardedBarriers(Completed(s).history) == ForwardedBarriers(s.history) + 1
    ensures InputOK(Completed(s), i, ForwardedBarriers(s.history) + 1)
    ensures Accepted(Completed(s), i) == Accepted(s, i)
  {
    ForwardKeepsDelivered(s.history, s.barrier.value);
    assert InputOK(s, i, ForwardedBarriers(s.history));
    FlattenKeepsOrder(s.buffered, |s.buffered|, i);
    QueuedConcat(Flatten(s.buffered, |s.buffered|), s.replay, i);
    var d := DeliveredFrom(s.history, i);
    assert d + [] + (s.buffered[i] + QueuedFrom(s.replay, i)) == d + s.buffered[i] + QueuedFrom(s.replay, i);
  }

  /** Completing an alignment closes the cut and opens the next epoch with empty buffers. */
  lemma {:induction false} CompleteAlignmentKeeps(s: State, base: int)
    requires MidInv(s, base)
    ensures Inv(CompleteAlignment(s), base)
    ensures |CompleteAlignment(s).eos| == |s.eos|
    ensures forall i: nat :: i < |s.eos| ==> Accepted(CompleteAlignment(s), i) == Accepted(s, i)
  {
    if s.aligning && !Awaiting(s) {
      CompleteAlignmentUsable(s);
      ReadyToComplete(s, base);
      ForwardKeeps(s.history, |s.eos|, base, s.barrier.value);
      var s' := Completed(s);
      assert s'.history == s.history + [Forwarded(s.barrier.value)];
      forall i: nat | i < |s.eos|
        ensures InputOK(s', i, ForwardedBarriers(s'.history)) && Accepted(s', i) == Accepted(s, i)
      {
        CompletedInputs(s, base, i);
      }
      assert InvOutput(s', base);
      assert MidInv(s', base);
    }
  }

  /** A barrier from a live, unaligned input keeps the invariant up to completion. */
  lemma {:induction false} BarrierMid(s: State, t: Tagged, base: int)
    requires Inv(s, base) && t.input < |s.eos| && !s.alignedFor[t.input] && t.elem.BarrierElement?
    requires WellFormed(DeliveredFrom(s.history, t.input) + [t.elem], base)
    ensures MidInv(MarkAligned(Log(s, Delivered(t.input, t.elem)), t), base)
  {
    hide InvHistory, CountLive, DeliveredFrom, NumBarriers, Output;
    var ev := Delivered(t.input, t.elem);
    var s1 := MarkAligned(Log(s, ev), t);
    var f := ForwardedBarriers(s.history);
    DeliveringIsLive(s, t, base);
    LogKeepsOutput(s, ev, base);
    forall i: nat | i < |s.eos| ensures InputOK(s1, i, f) {
      assert InputOK(s, i, f);
      DeliveredAppend(s.history, ev, i);
      NumBarriersAppend(DeliveredFrom(s.history, i), t.elem);
    }
    var d := DeliveredFrom(s.history, t.input);
    assert InputOK(s, t.input, f);
    NumBarriersAppend(d, t.elem);
    assert (d + [t.elem])[|d|] == t.elem && (d + [t.elem])[..|d| + 1] == d + [t.elem];
    assert s1.alignedFor[t.input];
  }

  /** An element is delivered only by an input that has not ended. */
  lemma {:induction false} DeliveringIsLive(s: State, t: Tagged, base: int)
    requires Inv(s, base) && t.input < |s.eos|
    requires WellFormed(DeliveredFrom(s.history, t.input) + [t.elem], base)
    ensures !s.eos[t.input] && !s.closed
  {
    var d := DeliveredFrom(s.history, t.input);
    assert InputOK(s, t.input, ForwardedBarriers(s.history));
    assert d != [] ==> (d + [t.elem])[|d| - 1] == d[|d| - 1];
    CountLiveZero(s.eos);
  }

  lemma {:induction false} DeliveryKeepsCuts(h: seq<Event>, ev: Event, n: nat)
    requires CutsOK(h, n) && ev.Delivered?
    ensures CutsOK(h + [ev], n)
  {
    hide DeliveredFrom, ForwardedBarriers;
    assert (h + [ev])[..|h|] == h;
  }

  lemma {:induction false} DeliveryReaches(h: seq<Event>, ev: Event, n: nat)
    requires Reached(h, n) && ev.Delivered? && ForwardedBarriers(h + [ev]) == ForwardedBarriers(h)
    ensures Reached(h + [ev], n)
  {
    hide NumBarriers, DeliveredFrom, Output, ForwardedBarriers;
    var f := ForwardedBarriers(h);
    if f > 0 {
      var i: nat :| i < n && NumBarriers(DeliveredFrom(h, i)) >= f;
      DeliveredAppend(h, ev, i);
      NumBarriersAppend(DeliveredFrom(h, i), ev.elem);
      assert NumBarriers(DeliveredFrom(h + [ev], i)) >= f;
    }
  }

  /** Delivering an element forwards no barrier and reopens no cut. */
  lemma {:induction false} LogKeepsOutput(s: State, ev: Event, base: int)
    requires InvOutput(s, base) && !s.closed && ev.Delivered? && ev.input < |s.eos|
    ensures InvOutput(Log(s, ev), base)
    ensures ForwardedBarriers(Log(s, ev).history) == ForwardedBarriers(s.history)
  {
    hide CutsOK, Reached, NumBarriers, DeliveredFrom, Output, WellFormed;
    var h := s.history;
    OutputAppend(h, ev);
    if ev.elem.RecordElement? {
      NumBarriersAppend(Output(h), ev.elem);
      WellFormedAppend(Output(h), base, ev.elem);
    }
    DeliveryKeepsCuts(h, ev, |s.eos|);
    DeliveryReaches(h, ev, |s.eos|);
  }

  /** The end of an input keeps the invariant up to completion, and the end of the last one is
      the last thing the gate sends. */
  lemma {:induction false} EndMid(s: State, t: Tagged, base: int)
    requires Inv(s, base) && t.input < |s.eos| && !s.alignedFor[t.input] && t.elem.EndOfStream?
    requires WellFormed(DeliveredFrom(s.history, t.input) + [t.elem], base)
    ensures MidInv(MarkEnded(Log(s, Delivered(t.input, t.elem)), t.input), base)
  {
    hide InvHistory, NumBarriers, Output, DeliveredFrom, WellFormed, MinLive;
    var s1 := Log(s, Delivered(t.input, t.elem));
    var s4 := MarkEnded(s1, t.input);
    DeliveringIsLive(s, t, base);
    EndOutput(s, t, base);
    CountLiveUpdate(s.eos, t.input);
    forall i: nat | i < |s.eos| ensures InputOK(s4, i, ForwardedBarriers(s.history)) {
      EndInputs(s, t, base, i);
    }
    assert forall i :: 0 <= i < |s.eos| && s.alignedFor[i] ==> s4.alignedFor[i];
  }

  lemma {:induction false} EndInputs(s: State, t: Tagged, base: int, i: nat)
    requires Inv(s, base) && t.input < |s.eos| && !s.alignedFor[t.input] && t.elem.EndOfStream? && i < |s.eos|
    requires WellFormed(DeliveredFrom(s.history, t.input) + [t.elem], base)
    ensures InputOK(MarkEnded(Log(s, Delivered(t.input, t.elem)), t.input), i, ForwardedBarriers(s.history))
  {
    hide InvHistory, CountLive, DeliveredFrom, NumBarriers, Output;
    var ev := Delivered(t.input, t.elem);
    DeliveringIsLive(s, t, base);
    assert InputOK(s, i, ForwardedBarriers(s.history));
    DeliveredAppend(s.history, ev, i);
    NumBarriersAppend(DeliveredFrom(s.history, i), t.elem);
    MarkEndedKeepsDelivered(Log(s, ev), t.input);
  }

  lemma {:induction false} EndOutput(s: State, t: Tagged, base: int)
    requires Inv(s, base) && t.input < |s.eos| && !s.alignedFor[t.input] && t.elem.EndOfStream?
    requires WellFormed(DeliveredFrom(s.history, t.input) + [t.elem], base)
    ensures var s' := MarkEnded(Log(s, Delivered(t.input, t.elem)), t.input);
            && InvOutput(s', base)
            && (s'.closed <==> s'.remaining == 0)
            && ForwardedBarriers(s'.history) == ForwardedBarriers(s.history)
  {
    hide InvHistory, InvInputs, NumBarriers, Output, DeliveredFrom, WellFormed, CountLive, MinLive;
    var ev := Delivered(t.input, t.elem);
    DeliveringIsLive(s, t, base);
    LogKeepsOutput(s, ev, base);
    var s1 := Log(s, ev);
    var s2 := s1.(eos := s1.eos[t.input := true], remaining := s1.remaining - 1);
    AdvanceKeeps(s2, base);
    var s3 := Advance(s2);
    if s3.remaining == 0 {
      ForwardKeeps(s3.history, |s.eos|, base, EndOfStream);
    }
  }

  /** Records and watermarks do not touch the alignment. */
  lemma {:induction false} PlainKeeps(s: State, t: Tagged, base: int)
    requires Inv(s, base) && t.input < |s.eos| && !s.alignedFor[t.input]
    requires t.elem.RecordElement? || t.elem.WatermarkElement?
    requires WellFormed(DeliveredFrom(s.history, t.input) + [t.elem], base)
    ensures Inv(Deliver(s, t), base)
    ensures Deliver(s, t).buffered == s.buffered && Deliver(s, t).replay == s.replay
    ensures forall i: nat :: DeliveredFrom(Deliver(s, t).history, i) == DeliveredFrom(s.history + [Delivered(t.input, t.elem)], i)
  {
    var ev := Delivered(t.input, t.elem);
    DeliveringIsLive(s, t, base);
    LogKeepsOutput(s, ev, base);
    var s1 := if t.elem.WatermarkElement? then Log(s, ev).(watermarks := s.watermarks[t.input := t.elem.wm]) else Log(s, ev);
    if t.elem.WatermarkElement? {
      AdvanceKeeps(s1, base);
    }
    var s' := Deliver(s, t);
    forall i: nat | i < |s.eos| ensures InputOK(s', i, ForwardedBarriers(s.history)) {
      PlainInputs(s, s', t, i);
    }
  }

  lemma {:induction false} PlainInputs(s: State, s': State, t: Tagged, i: nat)
    requires Shape(s) && Shape(s') && InvInputs(s) && i < |s.eos| == |s'.eos|
    requires t.elem.RecordElement? || t.elem.WatermarkElement?
    requires t.input < |s.eos| ==> !s.eos[t.input] && !s.alignedFor[t.input]
    requires s'.eos == s.eos && s'.alignedFor == s.alignedFor && s'.aligning == s.aligning && s'.buffered == s.buffered
    requires DeliveredFrom(s'.history, i) == DeliveredFrom(s.history + [Delivered(t.input, t.elem)], i)
    ensures InputOK(s', i, ForwardedBarriers(s.history))
  {
    assert InputOK(s, i, ForwardedBarriers(s.history));
    DeliveredAppend(s.history, Delivered(t.input, t.elem), i);
    NumBarriersAppend(DeliveredFrom(s.history, i), t.elem);
  }

  /** One handled element keeps the invariant and lands behind everything its input handed over
      before it and ahead of what is queued. */
  lemma {:induction false} HandleKeeps(s: State, t: Tagged, base: int)
    requires Inv(s, base) && t.input < |s.eos|
    requires WellFormed(DeliveredFrom(s.history, t.input) + s.buffered[t.input] + [t.elem], base)
    ensures Inv(Handle(s, t), base) && |Handle(s, t).eos| == |s.eos|
    ensures forall i: nat :: i < |s.eos| ==>
              Accepted(Handle(s, t), i) ==
              AfterOne(DeliveredFrom(s.history, i) + s.buffered[i], t, i) + QueuedFrom(s.replay, i)
  {
    hide InvHistory, NumBarriers, Output, DeliveredFrom, WellFormed, CountLive, QueuedFrom, Deliver;
    HandleUsable(s, t);
    var f := ForwardedBarriers(s.history);
    assert InputOK(s, t.input, f);
    if s.aligning && s.alignedFor[t.input] {
      var s' := Handle(s, t);
      forall i: nat | i < |s.eos| ensures InputOK(s', i, f) {
        assert InputOK(s, i, f);
      }
      var w :| 0 <= w < |s.eos| && !s.eos[w] && !s.alignedFor[w];
      assert !s'.eos[w] && !s'.alignedFor[w];
    } else {
      assert !s.alignedFor[t.input];
      assert DeliveredFrom(s.history, t.input) + s.buffered[t.input] == DeliveredFrom(s.history, t.input);
      DeliverKeeps(s, t, base);
    }
  }

  lemma {:induction false} DeliverKeeps(s: State, t: Tagged, base: int)
    requires Inv(s, base) && t.input < |s.eos| && !s.alignedFor[t.input] && s.buffered[t.input] == []
    requires WellFormed(DeliveredFrom(s.history, t.input) + [t.elem], base)
    ensures Inv(Deliver(s, t), base) && |Deliver(s, t).eos| == |s.eos|
    ensures forall i: nat :: i < |s.eos| ==>
              Accepted(Deliver(s, t), i) == AfterOne(DeliveredFrom(s.history, i) + s.buffered[i], t, i) + QueuedFrom(s.replay, i)
  {
    var s1 := Log(s, Delivered(t.input, t.elem));
    match t.elem {
      case BarrierElement(_, _) =>
        BarrierMid(s, t, base);
        CompleteAlignmentKeeps(MarkAligned(s1, t), base);
        forall i: nat | i < |s.eos|
          ensures Accepted(Deliver(s, t), i) == AfterOne(DeliveredFrom(s.history, i) + s.buffered[i], t, i) + QueuedFrom(s.replay, i)
        {
          AcceptedAfter(s, t, MarkAligned(s1, t), i);
        }
      case EndOfStream =>
        DeliveringIsLive(s, t, base);
        EndMid(s, t, base);
        MarkEndedKeepsDelivered(s1, t.input);
        CompleteAlignmentKeeps(MarkEnded(s1, t.input), base);
        forall i: nat | i < |s.eos|
          ensures Accepted(Deliver(s, t), i) == AfterOne(DeliveredFrom(s.history, i) + s.buffered[i], t, i) + QueuedFrom(s.replay, i)
        {
          AcceptedAfter(s, t, MarkEnded(s1, t.input), i);
        }
      case _ =>
        PlainKeeps(s, t, base);
        forall i: nat | i < |s.eos|
          ensures Accepted(Deliver(s, t), i) == AfterOne(DeliveredFrom(s.history, i) + s.buffered[i], t, i) + QueuedFrom(s.replay, i)
        {
          DeliveredAppend(s.history, Delivered(t.input, t.elem), i);
          AcceptedAfter(s, t, Deliver(s, t), i);
        }
    }
  }

  lemma {:induction false} AcceptedAfter(s: State, t: Tagged, s': State, i: nat)
    requires Shape(s) && Shape(s') && |s.eos| == |s'.eos| && i < |s.eos| && t.input < |s.eos|
    requires s.buffered[t.input] == [] && s'.buffered == s.buffered && s'.replay == s.replay
    requires DeliveredFrom(s'.history, i) == DeliveredFrom(s.history + [Delivered(t.input, t.elem)], i)
    ensures Accepted(s', i) == AfterOne(DeliveredFrom(s.history, i) + s.buffered[i], t, i) + QueuedFrom(s.replay, i)
  {
    DeliveredAppend(s.history, Delivered(t.input, t.elem), i);
    if i == t.input {
      assert DeliveredFrom(s.history, i) + s.buffered[i] == DeliveredFrom(s.history, i);
      var d := DeliveredFrom(s.history, i) + [t.elem];
      assert d + s.buffered[i] == d;
    }
  }

  lemma {:induction false} MarkEndedKeepsDelivered(s: State, e: nat)
    requires Shape(s) && e < |s.eos|
    ensures forall i: nat :: DeliveredFrom(MarkEnded(s, e).history, i) == DeliveredFrom(s.history, i)
    ensures MarkEnded(s, e).buffered == s.buffered && MarkEnded(s, e).replay == s.replay
  {
    var s1 := s.(eos := s.eos[e := true], remaining := s.remaining - 1);
    var m := MinLive(s1.watermarks, s1.eos, |s1.eos|);
    ForwardKeepsDelivered(s.history, WatermarkElement(m));
    ForwardKeepsDelivered(Advance(s1).history, EndOfStream);
  }
}
