/** The gate object itself: its fields change in place, one call of `Recv` at a time. */
module GateRuntime {
  import opened Int64
  import opened Elements
  import opened Gate
  import opened GateTheorems

  class InputGate {
    /** Arrivals not yet taken off the merged channel; empty stands for a closed channel. */
    var merged: seq<Tagged>
    var endOfStream: seq<bool>
    var remaining: int
    var closed: bool
    var watermarks: seq<int64>
    var out: int64
    var aligning: bool
    var barrier: Option<Element>
    var alignedFor: seq<bool>
    var buffered: seq<seq<Element>>
    var replay: seq<Tagged>
    /** Decided but not yet returned by `Recv`. */
    var pending: seq<Element>

    ghost var history: seq<Event>
    ghost var returned: seq<Element>

    ghost function View(): State
      reads this
    {
      State(endOfStream, remaining, closed, watermarks, out, aligning, barrier, alignedFor, buffered, replay, history)
    }

    ghost predicate Valid()
      reads this
    {
      && Usable(View())
      && returned + pending == Output(history)
      && forall j :: 0 <= j < |merged| ==> merged[j].input < |endOfStream|
    }

    /** Where the gate will be once everything that has arrived has been handled. */
    ghost function Future(): State
      requires Valid()
      reads this
    {
      Run(Settle(View()), merged)
    }

    constructor (n: nat, arrivals: seq<Tagged>)
      requires forall j :: 0 <= j < |arrivals| ==> arrivals[j].input < n
      ensures Valid() && View() == Init(n) && merged == arrivals && returned == []
    {
      merged := arrivals;
      endOfStream, remaining, closed := seq(n, _ => false), n, false;
      watermarks, out := seq(n, _ => MIN_INT64), MIN_INT64;
      aligning, barrier, alignedFor := false, None, seq(n, _ => false);
      buffered, replay, pending := seq(n, _ => []), [], [];
      history, returned := [], [];
    }

    /** Strictly less left to do than in an earlier state: fewer arrivals, or as many with fewer
        elements held, or those equal with a shorter queue. */
    ghost predicate HandledSince(merged0: nat, load0: nat, replay0: nat)
      reads this
    {
      || |merged| < merged0
      || (|merged| == merged0 && Load(View()) < load0)
      || (|merged| == merged0 && Load(View()) == load0 && |replay| < replay0)
    }

    /** The next element to process, or None once every arrival has been handled and returned.
        However many elements are handled inside one call, the outcome of the run is unchanged. */
    method Recv() returns (e: Option<Element>)
      requires Valid()
      modifies this
      ensures Valid() && Future() == old(Future())
      ensures HandledSince(|old(merged)|, old(Load(View())), |old(replay)|) || unchanged(this)
           || (View() == old(View()) && merged == old(merged) && |pending| < |old(pending)|)
      ensures e.Some? ==> returned == old(returned) + [e.value] && !unchanged(this)
      ensures e.None? ==> returned == old(returned) && merged == [] && replay == [] && returned == Output(history)
    {
      while |pending| == 0
        invariant Valid() && Future() == old(Future()) && returned == old(returned)
        invariant HandledSince(|old(merged)|, old(Load(View())), |old(replay)|) || unchanged(this)
        decreases |merged|, Load(View()), |replay|
      {
        var more := HandleNext();
        if !more {
          assert returned + [] == returned;
          return None;
        }
      }
      e := TakePending();
    }

    /** Hands over the first element already decided on. */
    method TakePending() returns (e: Option<Element>)
      requires Valid() && pending != []
      modifies this`pending, this`returned
      ensures Valid() && View() == old(View()) && merged == old(merged)
      ensures e == Some(old(pending)[0]) && pending == old(pending)[1..] && returned == old(returned) + [e.value]
    {
      e := Some(pending[0]);
      assert returned + pending == (returned + [pending[0]]) + pending[1..];
      returned := returned + [pending[0]];
      pending := pending[1..];
    }

    /** What was held back comes before anything still in flight. */
    method HandleNext() returns (more: bool)
      requires Valid()
      modifies this
      ensures Valid() && Future() == old(Future()) && returned == old(returned)
      ensures more ==> HandledSince(|old(merged)|, old(Load(View())), |old(replay)|)
      ensures !more ==> unchanged(this) && merged == [] && replay == []
    {
      if |replay| > 0 {
        ReplayNext();
        more := true;
      } else if |merged| == 0 {
        more := false;
      } else {
        ArriveNext();
        more := true;
      }
    }

    method ReplayNext()
      requires Valid() && replay != []
      modifies this
      ensures Valid() && Future() == old(Future()) && returned == old(returned)
      ensures HandledSince(|old(merged)|, old(Load(View())), |old(replay)|) && merged == old(merged)
    {
      ghost var s := View();
      var t := replay[0];
      replay := replay[1..];
      HandleUsable(View(), t);
      assert Settle(s) == Settle(Handle(View(), t));
      HandleElement(t);
    }

    method ArriveNext()
      requires Valid() && replay == [] && merged != []
      modifies this
      ensures Valid() && Future() == old(Future()) && returned == old(returned)
      ensures HandledSince(|old(merged)|, old(Load(View())), |old(replay)|)
    {
      var t := merged[0];
      merged := merged[1..];
      HandleUsable(View(), t);
      HandleElement(t);
    }

    /** An input that has delivered its barrier is in the next epoch: all it sends is held. */
    method HandleElement(t: Tagged)
      requires Valid() && t.input < |endOfStream|
      modifies this
      ensures Valid() && View() == Handle(old(View()), t)
      ensures returned == old(returned) && merged == old(merged)
    {
      HandleUsable(View(), t);
      if aligning && alignedFor[t.input] {
        buffered := buffered[t.input := buffered[t.input] + [t.elem]];
        return;
      }
      DeliverElement(t);
    }

    method DeliverElement(t: Tagged)
      requires Valid() && t.input < |endOfStream|
      modifies this
      ensures Valid() && View() == Deliver(old(View()), t)
      ensures returned == old(returned) && merged == old(merged)
    {
      hide Output, MinLive, Awaiting, Flatten, Advance, CompleteAlignment, OnEndOfStream;
      ghost var s := Log(View(), Delivered(t.input, t.elem));
      DeliverUsable(View(), t);
      LogEvent(Delivered(t.input, t.elem));
      assert View() == s;
      match t.elem {
        case WatermarkElement(wm) =>
          watermarks := watermarks[t.input := wm];
          assert View() == s.(watermarks := s.watermarks[t.input := wm]);
          AdvanceWatermark();
        case BarrierElement(_, _) =>
          BarrierArrived(t);
        case EndOfStream =>
          EndOfStreamArrived(t);
        case RecordElement(_) =>
          assert (returned + pending) + [t.elem] == returned + (pending + [t.elem]);
          pending := pending + [t.elem];
      }
    }

    /** History is kept for the proof alone. */
    ghost method LogEvent(ev: Event)
      modifies this`history
      ensures history == old(history) + [ev]
      ensures Output(history) == if ev.Forwarded? || ev.elem.RecordElement? then Output(old(history)) + [ev.elem] else Output(old(history))
    {
      assert (history + [ev])[..|history|] == history;
      history := history + [ev];
    }

    method BarrierArrived(t: Tagged)
      requires Valid() && t.input < |endOfStream|
      modifies this
      ensures Valid() && View() == OnBarrier(old(View()), t)
      ensures returned == old(returned) && merged == old(merged)
    {
      if !aligning {
        aligning := true;
        barrier := Some(t.elem);
      }
      alignedFor := alignedFor[t.input := true];
      var awaiting := AwaitingBarrier();
      if awaiting {
        return;
      }
      TryComplete();
    }

    method AwaitingBarrier() returns (b: bool)
      requires Valid()
      ensures b <==> Awaiting(View())
    {
      if !aligning {
        return false;
      }
      for i := 0 to |alignedFor|
        invariant forall j :: 0 <= j < i ==> endOfStream[j] || alignedFor[j]
      {
        if !endOfStream[i] && !alignedFor[i] {
          return true;
        }
      }
      return false;
    }

    method EndOfStreamArrived(t: Tagged)
      requires Valid() && t.input < |endOfStream|
      modifies this
      ensures Valid() && View() == OnEndOfStream(old(View()), t)
      ensures returned == old(returned) && merged == old(merged)
    {
      hide Usable, Output, Advance, CloseIfDone, CompleteAlignment;
      UsableShape(View());
      EndedUsable(View(), t.input);
      if endOfStream[t.input] {
        return;
      }
      endOfStream := endOfStream[t.input := true];
      remaining := remaining - 1;
      AdvanceWatermark();
      CloseIfAllEnded();
      TryComplete();
    }

    method CloseIfAllEnded()
      requires Valid()
      modifies this`closed, this`pending, this`history
      ensures Valid() && View() == CloseIfDone(old(View()))
    {
      if remaining == 0 && !closed {
        closed := true;
        assert (returned + pending) + [EndOfStream] == returned + (pending + [EndOfStream]);
        pending := pending + [EndOfStream];
        LogEvent(Forwarded(EndOfStream));
      }
    }

    method TryComplete()
      requires Valid()
      modifies this
      ensures Valid() && View() == CompleteAlignment(old(View()))
      ensures returned == old(returned) && merged == old(merged)
    {
      hide Usable, Output, Flatten, Awaiting;
      UsableShape(View());
      CompleteAlignmentUsable(View());
      var awaiting := AwaitingBarrier();
      if !aligning || awaiting {
        return;
      }
      ForwardBarrier();
      aligning := false;
      barrier := None;
      alignedFor := seq(|alignedFor|, _ => false);
      DrainBuffers();
    }

    method ForwardBarrier()
      requires Valid() && barrier.Some?
      modifies this`pending, this`history
      ensures Valid() && View() == Log(old(View()), Forwarded(barrier.value))
    {
      assert (returned + pending) + [barrier.value] == returned + (pending + [barrier.value]);
      pending := pending + [barrier.value];
      LogEvent(Forwarded(barrier.value));
    }

    /** Everything held back goes ahead of the queue, in input order. */
    method DrainBuffers()
      modifies this`buffered, this`replay
      ensures View() == Drain(old(View()))
    {
      var released: seq<Tagged> := [];
      for i := 0 to |buffered|
        invariant |buffered| == |old(buffered)| && replay == old(replay)
        invariant released == Flatten(old(buffered), i)
        invariant forall j :: 0 <= j < |buffered| ==> buffered[j] == if j < i then [] else old(buffered)[j]
      {
        var tagged := TagAll(i, buffered[i]);
        released := released + tagged;
        buffered := buffered[i := []];
      }
      assert buffered == seq(|buffered|, _ => []);
      if |released| == 0 {
        assert released + replay == replay;
        return;
      }
      replay := released + replay;
    }

    method TagAll(i: nat, buf: seq<Element>) returns (tagged: seq<Tagged>)
      ensures tagged == seq(|buf|, j requires 0 <= j < |buf| => Tagged(i, buf[j]))
    {
      tagged := [];
      for j := 0 to |buf|
        invariant |tagged| == j && forall k :: 0 <= k < j ==> tagged[k] == Tagged(i, buf[k])
      {
        tagged := tagged + [Tagged(i, buf[j])];
      }
    }

    /** The least watermark over the inputs still live. */
    method MinimumLive() returns (min: int64)
      requires Shape(View())
      ensures min == MinLive(watermarks, endOfStream, |endOfStream|)
    {
      min := MAX_INT64;
      for i := 0 to |watermarks|
        invariant min == MinLive(watermarks, endOfStream, i)
      {
        if !endOfStream[i] {
          if watermarks[i] < min {
            min := watermarks[i];
          }
        }
      }
    }

    /** Moves the output watermark if the minimum over live inputs has passed it. */
    method AdvanceWatermark()
      requires Valid()
      modifies this`out, this`pending, this`history
      ensures Valid() && View() == Advance(old(View()))
    {
      hide Usable, Output, MinLive;
      UsableShape(View());
      AdvanceUsable(View());
      var min := MinimumLive();
      if min <= out {
        return;
      }
      out := min;
      assert (returned + pending) + [WatermarkElement(min)] == returned + (pending + [WatermarkElement(min)]);
      pending := pending + [WatermarkElement(min)];
      LogEvent(Forwarded(WatermarkElement(min)));
    }
  }

  lemma {:induction false} UsableShape(s: State)
    requires Usable(s)
    ensures Shape(s) && (s.aligning ==> s.barrier.Some?)
  {}

  lemma {:induction false} AdvanceUsable(s: State)
    requires Usable(s)
    ensures Usable(Advance(s))
  {}

  lemma {:induction false} EndedUsable(s: State, i: nat)
    requires Usable(s) && i < |s.eos|
    ensures Usable(s.(eos := s.eos[i := true], remaining := s.remaining - 1))
  {}

  /** Receiving until nothing is left yields exactly what the gate's state machine sends, so the
      theorems about its history are theorems about what the subtask receives. */
  method ReceiveAll(arrivals: seq<Tagged>, ghost streams: seq<seq<Element>>, ghost base: int, n: nat) returns (received: seq<Element>)
    requires n == |streams| && Interleaves(arrivals, streams, base)
    ensures received == Output(AfterRun(arrivals, streams, base).history)
  {
    var g := new InputGate(n, arrivals);
    received := [];
    var e := g.Recv();
    while e.Some?
      invariant g.Valid() && fresh(g) && g.Future() == AfterRun(arrivals, streams, base)
      invariant g.returned == if e.Some? then received + [e.value] else received
      invariant e.None? ==> g.merged == [] && g.replay == [] && received == Output(g.history)
      decreases |g.merged|, Load(g.View()), |g.replay|, |g.pending|, e.Some?
    {
      received := received + [e.value];
      e := g.Recv();
    }
  }
}
