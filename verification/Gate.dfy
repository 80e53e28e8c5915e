/** The input gate of one subtask as a state machine: alignment, held-back buffers, replay queue
    and output watermark, with the history of what came in and went out. The class in
    GateRuntime.dfy performs its steps in place. */
module Gate {
  import opened Int64
  import opened Elements

  datatype Tagged = Tagged(input: nat, elem: Element)

  /** One entry of a gate's history: an element of an input accepted by `Deliver`, or a control
      element the gate itself sent on. */
  datatype Event = Delivered(input: nat, elem: Element) | Forwarded(elem: Element)

  datatype State = State(
    eos: seq<bool>,
    remaining: int,
    closed: bool,
    watermarks: seq<int64>,
    out: int64,
    aligning: bool,
    barrier: Option<Element>,
    alignedFor: seq<bool>,
    buffered: seq<seq<Element>>,
    replay: seq<Tagged>,
    history: seq<Event>)

  function Init(n: nat): State {
    State(seq(n, _ => false), n, false, seq(n, _ => MIN_INT64), MIN_INT64,
          false, None, seq(n, _ => false), seq(n, _ => []), [], [])
  }

  predicate Shape(s: State) {
    |s.eos| == |s.watermarks| == |s.alignedFor| == |s.buffered|
  }

  /** What the gate has sent downstream. Records go out as they are delivered; watermarks,
      barriers and the end of stream only when the gate forwards them. */
  function Output(h: seq<Event>): seq<Element> {
    if h == [] then []
    else
      var last := h[|h| - 1];
      if last.Forwarded? || last.elem.RecordElement? then Output(h[..|h| - 1]) + [last.elem]
      else Output(h[..|h| - 1])
  }

  /** The elements of input `i` that have been delivered, in order. */
  function DeliveredFrom(h: seq<Event>, i: nat): seq<Element> {
    if h == [] then []
    else
      var last := h[|h| - 1];
      if last.Delivered? && last.input == i then DeliveredFrom(h[..|h| - 1], i) + [last.elem]
      else DeliveredFrom(h[..|h| - 1], i)
  }

  function Log(s: State, e: Event): State {
    s.(history := s.history + [e])
  }

  // ----- The watermark minimum -------------------------------------------------------------

  /** The least watermark over the inputs below `n` that are still live, or MAX_INT64. */
  function MinLive(watermarks: seq<int64>, eos: seq<bool>, n: nat): (m: int64)
    requires n <= |watermarks| == |eos|
    ensures forall i :: 0 <= i < n && !eos[i] ==> m <= watermarks[i]
    ensures m == MAX_INT64 || exists i :: 0 <= i < n && !eos[i] && m == watermarks[i]
  {
    if n == 0 then MAX_INT64
    else
      var m := MinLive(watermarks, eos, n - 1);
      if !eos[n - 1] && watermarks[n - 1] < m then watermarks[n - 1] else m
  }

  function Advance(s: State): (r: State)
    requires Shape(s)
    ensures Shape(r) && |r.eos| == |s.eos|
  {
    var m := MinLive(s.watermarks, s.eos, |s.eos|);
    if m <= s.out then s else Log(s.(out := m), Forwarded(WatermarkElement(m)))
  }

  // ----- Barrier alignment -----------------------------------------------------------------

  /** A live input has still to deliver the barrier being aligned. */
  predicate Awaiting(s: State)
    requires Shape(s)
  {
    s.aligning && exists i :: 0 <= i < |s.eos| && !s.eos[i] && !s.alignedFor[i]
  }

  /** The held-back elements in input order, each input's in its own order. */
  function Flatten(buffered: seq<seq<Element>>, n: nat): seq<Tagged>
    requires n <= |buffered|
  {
    if n == 0 then []
    else Flatten(buffered, n - 1) + seq(|buffered[n - 1]|, j requires 0 <= j < |buffered[n - 1]| => Tagged(n - 1, buffered[n - 1][j]))
  }

  function Drain(s: State): State {
    s.(replay := Flatten(s.buffered, |s.buffered|) + s.replay,
       buffered := seq(|s.buffered|, _ => []))
  }

  /** The one barrier goes out, and what was held back becomes the head of the queue. */
  function Completed(s: State): State
    requires s.barrier.Some?
  {
    var s1 := Log(s, Forwarded(s.barrier.value));
    Drain(s1.(aligning := false, barrier := None, alignedFor := seq(|s.alignedFor|, _ => false)))
  }

  function CompleteAlignment(s: State): (r: State)
    requires Shape(s) && (s.aligning ==> s.barrier.Some?)
    ensures Shape(r) && |r.eos| == |s.eos|
  {
    if !s.aligning || Awaiting(s) then s else Completed(s)
  }

  /** Input `t.input` has reached the boundary; the first to do so supplies the barrier. */
  function MarkAligned(s: State, t: Tagged): (r: State)
    requires Shape(s) && t.input < |s.eos|
    ensures Shape(r) && |r.eos| == |s.eos|
  {
    var s1 := if s.aligning then s else s.(aligning := true, barrier := Some(t.elem));
    s1.(alignedFor := s1.alignedFor[t.input := true])
  }

  function OnBarrier(s: State, t: Tagged): (r: State)
    requires Shape(s) && t.input < |s.eos| && (s.aligning ==> s.barrier.Some?)
    ensures Shape(r) && |r.eos| == |s.eos|
  {
    CompleteAlignment(MarkAligned(s, t))
  }

  /** The end of stream goes out once, when no input is left. */
  function CloseIfDone(s: State): (r: State)
    requires Shape(s)
    ensures Shape(r) && |r.eos| == |s.eos|
  {
    if s.remaining == 0 && !s.closed then Log(s.(closed := true), Forwarded(EndOfStream)) else s
  }

  /** Input `i` is exhausted: it leaves the minimum, and the last one to go closes the gate. */
  function MarkEnded(s: State, i: nat): (r: State)
    requires Shape(s) && i < |s.eos|
    ensures Shape(r) && |r.eos| == |s.eos|
  {
    CloseIfDone(Advance(s.(eos := s.eos[i := true], remaining := s.remaining - 1)))
  }

  function OnEndOfStream(s: State, t: Tagged): (r: State)
    requires Shape(s) && t.input < |s.eos| && (s.aligning ==> s.barrier.Some?)
    ensures Shape(r) && |r.eos| == |s.eos|
  {
    if s.eos[t.input] then s else CompleteAlignment(MarkEnded(s, t.input))
  }

  // ----- One element -----------------------------------------------------------------------

  function Deliver(s: State, t: Tagged): (r: State)
    requires Shape(s) && t.input < |s.eos| && (s.aligning ==> s.barrier.Some?)
    ensures Shape(r) && |r.eos| == |s.eos|
  {
    var s1 := Log(s, Delivered(t.input, t.elem));
    match t.elem
    case WatermarkElement(wm) => Advance(s1.(watermarks := s1.watermarks[t.input := wm]))
    case BarrierElement(_, _) => OnBarrier(s1, t)
    case EndOfStream => OnEndOfStream(s1, t)
    case RecordElement(_) => s1
  }

  function Handle(s: State, t: Tagged): (r: State)
    requires Shape(s) && t.input < |s.eos| && (s.aligning ==> s.barrier.Some?)
    ensures Shape(r) && |r.eos| == |s.eos|
  {
    if s.aligning && s.alignedFor[t.input] then
      s.(buffered := s.buffered[t.input := s.buffered[t.input] + [t.elem]])
    else Deliver(s, t)
  }

  /** Everything the gate holds without having delivered it. */
  function Held(buffered: seq<seq<Element>>): nat {
    if buffered == [] then 0 else |buffered[|buffered| - 1]| + Held(buffered[..|buffered| - 1])
  }

  ghost predicate Usable(s: State) {
    && Shape(s)
    && (s.aligning ==> s.barrier.Some?)
    && (forall j :: 0 <= j < |s.replay| ==> s.replay[j].input < |s.eos|)
  }

  lemma {:induction false} HeldUpdate(b: seq<seq<Element>>, i: nat, x: seq<Element>)
    requires i < |b|
    ensures Held(b[i := x]) == Held(b) - |b[i]| + |x|
  {
    var last := |b| - 1;
    if i == last {
      assert b[i := x][..last] == b[..last];
    } else {
      HeldUpdate(b[..last], i, x);
      assert b[i := x][..last] == b[..last][i := x];
    }
  }

  lemma {:induction false} FlattenSize(b: seq<seq<Element>>, n: nat)
    requires n <= |b|
    ensures |Flatten(b, n)| == Held(b[..n])
    ensures forall j :: 0 <= j < |Flatten(b, n)| ==> Flatten(b, n)[j].input < n
  {
    if n > 0 {
      FlattenSize(b, n - 1);
      assert b[..n][..n - 1] == b[..n - 1];
    }
  }

  lemma {:induction false} HeldOfEmpty(n: nat)
    ensures Held(seq(n, _ => [])) == 0
  {
    if n > 0 {
      HeldOfEmpty(n - 1);
      assert seq(n, _ => [])[..n - 1] == seq<seq<Element>>(n - 1, _ => []);
    }
  }

  /** One step keeps the state usable, and holds one element fewer unless it held it back. */
  lemma {:induction false} CompleteAlignmentUsable(s: State)
    requires Usable(s)
    ensures Usable(CompleteAlignment(s)) && |CompleteAlignment(s).eos| == |s.eos|
    ensures Load(CompleteAlignment(s)) == Load(s)
  {
    FlattenSize(s.buffered, |s.buffered|);
    assert s.buffered[..|s.buffered|] == s.buffered;
    HeldOfEmpty(|s.buffered|);
  }

  /** What changing only the watermark, the alignment marks or the history leaves alone. */
  ghost predicate SameHeld(s: State, s': State) {
    Usable(s') && |s'.eos| == |s.eos| && s'.buffered == s.buffered && s'.replay == s.replay
  }

  lemma {:induction false} MarksUsable(s: State, t: Tagged)
    requires Usable(s) && t.input < |s.eos|
    ensures SameHeld(s, MarkAligned(s, t)) && SameHeld(s, MarkEnded(s, t.input))
  {}

  function Load(s: State): nat {
    Held(s.buffered) + |s.replay|
  }

  lemma {:induction false} DeliverUsable(s: State, t: Tagged)
    requires Usable(s) && t.input < |s.eos|
    ensures Usable(Deliver(s, t)) && |Deliver(s, t).eos| == |s.eos|
    ensures Load(Deliver(s, t)) == Load(s)
  {
    var s1 := Log(s, Delivered(t.input, t.elem));
    assert SameHeld(s, s1);
    match t.elem {
      case BarrierElement(_, _) =>
        MarksUsable(s1, t);
        CompleteAlignmentUsable(MarkAligned(s1, t));
      case EndOfStream =>
        if !s1.eos[t.input] {
          MarksUsable(s1, t);
          CompleteAlignmentUsable(MarkEnded(s1, t.input));
        }
      case WatermarkElement(wm) =>
        assert SameHeld(s, s1.(watermarks := s1.watermarks[t.input := wm]));
        assert SameHeld(s, Advance(s1.(watermarks := s1.watermarks[t.input := wm])));
      case RecordElement(_) =>
    }
  }

  lemma {:induction false} HandleUsable(s: State, t: Tagged)
    requires Usable(s) && t.input < |s.eos|
    ensures Usable(Handle(s, t)) && |Handle(s, t).eos| == |s.eos|
    ensures Load(Handle(s, t)) == Load(s) || (Load(Handle(s, t)) == Load(s) + 1 && Handle(s, t).replay == s.replay)
  {
    if s.aligning && s.alignedFor[t.input] {
      HeldUpdate(s.buffered, t.input, s.buffered[t.input] + [t.elem]);
    } else {
      DeliverUsable(s, t);
    }
  }

  /** Pass the replay queue back through the gate until it is empty. It terminates because a
      replayed element is either delivered, leaving fewer held, or held back again, leaving
      fewer in the queue. */
  ghost function Settle(s: State): (r: State)
    requires Usable(s)
    ensures Usable(r) && |r.eos| == |s.eos| && r.replay == []
    decreases Load(s), |s.replay|
  {
    if s.replay == [] then s
    else
      var popped := s.(replay := s.replay[1..]);
      HandleUsable(popped, s.replay[0]);
      Settle(Handle(popped, s.replay[0]))
  }

  /** Feed a whole sequence of arrivals. An arrival is taken only once the queue is empty. */
  ghost function Run(s: State, arrivals: seq<Tagged>): (r: State)
    requires Usable(s) && s.replay == []
    requires forall j :: 0 <= j < |arrivals| ==> arrivals[j].input < |s.eos|
    ensures Usable(r) && |r.eos| == |s.eos| && r.replay == []
    decreases |arrivals|
  {
    if arrivals == [] then s
    else
      HandleUsable(s, arrivals[0]);
      Run(Settle(Handle(s, arrivals[0])), arrivals[1..])
  }
}
