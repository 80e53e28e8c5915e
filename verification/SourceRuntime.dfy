/** The source subtask as it runs: a loop that reads, sends and counts in place. */
module SourceRuntime {
  import opened Int64
  import opened Elements
  import opened Source

  /** The acknowledgements once the record at `s.position` has been dealt with. */
  function AcksAfter(c: Config, s: State, acks: map<int, nat>): map<int, nat>
    requires ValidConfig(c) && s.position < c.end
  {
    if BarrierDue(c, s) then acks[s.injected + 1 := s.position + 1] else acks
  }

  /** Every barrier in `ems` was acknowledged with the position it went out at. */
  ghost predicate Acknowledges(ems: seq<Emission>, acks: map<int, nat>, upTo: int) {
    forall i :: 0 <= i < |ems| && ems[i].elem.BarrierElement? ==>
      ems[i].elem.id <= upTo && ems[i].elem.id in acks && acks[ems[i].elem.id] == ems[i].position
  }

  lemma {:induction false} AcknowledgesStep(c: Config, s: State, ems: seq<Emission>, acks: map<int, nat>)
    requires ValidConfig(c) && s.position < c.end && Acknowledges(ems, acks, s.injected)
    ensures Acknowledges(ems + EmittedBy(c, s), AcksAfter(c, s, acks), Next(c, s).injected)
  {
    var now := EmittedBy(c, s);
    var acks' := AcksAfter(c, s, acks);
    forall i | 0 <= i < |ems + now| && (ems + now)[i].elem.BarrierElement?
      ensures var e := (ems + now)[i]; e.elem.id <= Next(c, s).injected && e.elem.id in acks' && acks'[e.elem.id] == e.position
    {
      if i < |ems| {
        assert ems[i].elem.id <= s.injected;
      }
    }
  }

  class SourceSubtask {
    const c: Config
    const start: nat
    /** Whether the source reports a count, and so has a range to stay inside. */
    const bounded: bool

    var position: nat
    var sinceBarrier: int
    var injected: int
    var sinceWatermark: int
    var maxEventTime: int64
    var lastEmitted: int64
    /** Everything broadcast or routed downstream, in order. */
    var sent: seq<Emission>
    /** The position acknowledged to the coordinator for each checkpoint, and the final one. */
    var acknowledged: map<int, nat>
    var finished: Option<nat>

    ghost predicate Valid()
      reads this
    {
      ValidConfig(c) && start <= c.end && (!bounded ==> start == 0 && c.end == |c.data|)
    }

    ghost function View(): State
      reads this
    {
      State(position, sinceBarrier, injected, sinceWatermark, maxEventTime, lastEmitted)
    }

    constructor (c: Config, start: nat, bounded: bool)
      requires ValidConfig(c) && start <= c.end && (!bounded ==> start == 0 && c.end == |c.data|)
      ensures Valid() && View() == Start(start, 0) && sent == [] && acknowledged == map[] && finished == None
      ensures this.c == c && this.start == start && this.bounded == bounded
    {
      this.c, this.start, this.bounded := c, start, bounded;
      position, sinceBarrier, injected, sinceWatermark := start, 0, 0, 0;
      maxEventTime, lastEmitted := MIN_INT64, MIN_INT64;
      sent, acknowledged, finished := [], map[], None;
    }

    /** Takes up a restored offset and continues the barrier numbering. An offset outside this
        subtask's own range, or a negative one, is refused and nothing changes. */
    method Apply(restored: int, barriersInjected: int) returns (ok: bool)
      requires Valid() && View() == Start(start, 0)
      modifies this`position, this`injected, this`sinceBarrier
      ensures ok <==> restored >= 0 && (bounded ==> start <= restored <= c.end)
      ensures ok ==> View() == Start(restored, barriersInjected)
      ensures !ok ==> View() == old(View())
    {
      if bounded && (restored < start || restored > c.end) {
        return false;
      }
      if restored < 0 {
        return false;
      }
      position := restored;
      injected, sinceBarrier := barriersInjected, 0;
      return true;
    }

    method BarrierOnRecord() returns (due: bool)
      modifies this`sinceBarrier, this`injected
      ensures View() == CountForBarrier(c, old(View()))
      ensures due <==> BarrierDue(c, old(View()))
    {
      if c.barrierInterval <= 0 {
        return false;
      }
      if c.maxBarriers != UNBOUNDED && injected >= c.maxBarriers {
        return false;
      }
      sinceBarrier := sinceBarrier + 1;
      if sinceBarrier < c.barrierInterval {
        return false;
      }
      sinceBarrier := 0;
      injected := injected + 1;
      return true;
    }

    method WatermarkOnRecord(t: int64) returns (due: bool)
      modifies this`sinceWatermark, this`maxEventTime, this`lastEmitted
      ensures View() == ObserveTime(c, old(View()), t)
      ensures due <==> WatermarkDue(c, old(View()), t)
    {
      if t > maxEventTime {
        maxEventTime := t;
      }
      if c.watermarkInterval <= 0 {
        return false;
      }
      sinceWatermark := sinceWatermark + 1;
      if sinceWatermark < c.watermarkInterval {
        return false;
      }
      sinceWatermark := 0;
      var candidate := SubClamp(SubClamp(maxEventTime, c.maxOutOfOrderness), 1);
      if candidate <= lastEmitted {
        return false;
      }
      lastEmitted := candidate;
      return true;
    }

    /** One turn of the loop: the record, then the watermark it makes due, then the barrier,
        whose position is captured before anything else can move the source. */
    method ReadOne()
      requires Valid() && position < c.end
      modifies this
      ensures View() == Next(c, old(View())) && sent == old(sent) + EmittedBy(c, old(View()))
      ensures acknowledged == AcksAfter(c, old(View()), old(acknowledged)) && finished == old(finished)
    {
      ghost var s := View();
      var rec := c.data[position];
      position := position + 1;
      var out := [Emission(RecordElement(rec), position)];
      var wm := WatermarkOnRecord(rec.eventTime);
      ghost var s1 := ObserveTime(c, s, rec.eventTime);
      assert View() == s1.(position := s.position + 1);
      if wm {
        out := out + [Emission(WatermarkElement(lastEmitted), position)];
      }
      ghost var w := if wm then [Emission(WatermarkElement(s1.lastEmitted), position)] else [];
      assert out == [Emission(RecordElement(rec), position)] + w;
      var barrier := BarrierOnRecord();
      assert barrier <==> BarrierDue(c, s1);
      if barrier {
        acknowledged := acknowledged[injected := position];
        out := out + [Emission(BarrierElement(injected, lastEmitted), position)];
      } else {
        assert out + [] == out;
      }
      sent := sent + out;
    }

    /** Reads the range to its end. What it sends is the stream its state describes; each barrier
        is acknowledged at its own position, and the final position is reported before the end of
        stream goes out. */
    method RunToEnd()
      requires Valid() && sent == []
      modifies this
      ensures sent == Emissions(c, old(View())) && Acknowledges(sent, acknowledged, injected)
      ensures finished == Some(position) && (old(position) <= c.end ==> position == c.end)
    {
      ghost var all := Emissions(c, View());
      while !(bounded && position >= c.end) && position < |c.data|
        invariant Valid() && sent + Emissions(c, View()) == all && Acknowledges(sent, acknowledged, injected)
        invariant old(position) <= c.end ==> position <= c.end
        decreases |c.data| - position
      {
        ghost var s, before := View(), sent;
        AcknowledgesStep(c, s, sent, acknowledged);
        ReadOne();
        EmissionsAssociate(before, EmittedBy(c, s), Emissions(c, View()));
      }
      finished := Some(position);
      assert Emissions(c, View()) == [Emission(EndOfStream, position)];
      sent := sent + [Emission(EndOfStream, position)];
    }
  }

  lemma {:induction false} EmissionsAssociate(a: seq<Emission>, b: seq<Emission>, c: seq<Emission>)
    ensures a + (b + c) == (a + b) + c
  {}
}
