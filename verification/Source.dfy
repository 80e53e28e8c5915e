/** One subtask of a source vertex: its share of the offset space, the barriers and watermarks it
    injects among its records, the promise its watermarks make, and what a run of it that is resumed
    at a checkpoint produces. */
module Source {
  import opened Int64
  import opened Elements

  // ----- Splitting the offset space --------------------------------------------------------

  /** Bounds of the half-open range of subtask `index`, in wrapping 64-bit arithmetic. */
  function RangeStart(count: int64, parallelism: nat, index: nat): int
    requires parallelism > 0
  {
    TruncDiv(Wrap(index * count), parallelism)
  }

  function RangeEnd(count: int64, parallelism: nat, index: nat): int
    requires parallelism > 0
  {
    TruncDiv(Wrap((index + 1) * count), parallelism)
  }

  /** Without overflow the ranges are adjacent, cover [0, count) and are each at least as long as
      the rounded-down share. */
  lemma {:induction false} RangesPartition(count: int64, parallelism: nat, index: nat)
    requires index < parallelism && 0 <= count && parallelism * count <= MAX_INT64
    ensures RangeStart(count, parallelism, 0) == 0
    ensures RangeEnd(count, parallelism, parallelism - 1) == count
    ensures index + 1 < parallelism ==> RangeEnd(count, parallelism, index) == RangeStart(count, parallelism, index + 1)
    ensures 0 <= RangeStart(count, parallelism, index) <= RangeEnd(count, parallelism, index) <= count
    ensures RangeEnd(count, parallelism, index) - RangeStart(count, parallelism, index) >= count / parallelism
  {
    BoundIsExact(count, parallelism, 0);
    BoundIsExact(count, parallelism, index);
    BoundIsExact(count, parallelism, index + 1);
    BoundIsExact(count, parallelism, parallelism);
    BoundsGrow(count, parallelism, index);
  }

  lemma {:induction false} BoundsGrow(count: int, parallelism: nat, index: nat)
    requires index < parallelism && 0 <= count
    ensures 0 <= (index * count) / parallelism <= ((index + 1) * count) / parallelism <= count
    ensures ((index + 1) * count) / parallelism - (index * count) / parallelism >= count / parallelism
    ensures (parallelism * count) / parallelism == count
  {
    assert (index + 1) * count == index * count + count;
    QuotientOfSum(index * count, count, parallelism);
    ModuloUnique(parallelism * count, parallelism, count, 0);
    MulMonotone(index + 1, parallelism, count);
    QuotientMonotone((index + 1) * count, parallelism * count, parallelism);
    MulMonotone(0, index, count);
    QuotientMonotone(0, index * count, parallelism);
    QuotientMonotone(0, count, parallelism);
  }

  /** Without overflow a bound is the plain rounded-down quotient. */
  lemma {:induction false} BoundIsExact(count: int64, parallelism: nat, i: nat)
    requires 0 < parallelism && i <= parallelism && 0 <= count && parallelism * count <= MAX_INT64
    ensures 0 <= i * count <= parallelism * count
    ensures TruncDiv(Wrap(i * count), parallelism) == (i * count) / parallelism
  {
    MulMonotone(i, parallelism, count);
    MulMonotone(0, i, count);
  }

  /** The last range reaches the end of the input exactly when the product does not overflow. */
  lemma {:induction false} RangesCoverIff(count: int64, parallelism: nat)
    requires parallelism > 0 && 0 <= count
    ensures RangeEnd(count, parallelism, parallelism - 1) == count <==> parallelism * count <= MAX_INT64
  {
    var product := parallelism * count;
    var w := Wrap(product);
    assert 0 <= product by { MulMonotone(0, parallelism, count); }
    if product <= MAX_INT64 {
      ModuloUnique(product, parallelism, count, 0);
    } else {
      var m := (product - w) / TWO_64;
      assert product - w == m * TWO_64 && m >= 1;
      assert w < product;
      if w >= 0 {
        assert w == parallelism * (w / parallelism) + w % parallelism;
        assert w / parallelism == count ==> w >= product;
      } else {
        QuotientMonotone(0, -w, parallelism);
        assert count > 0;
      }
    }
  }

  lemma {:induction false} QuotientMonotone(a: int, b: int, p: int)
    requires a <= b && p > 0
    ensures a / p <= b / p
  {
    var q, r := a / p, b / p;
    if r < q {
      assert b < p * (r + 1) && p * (r + 1) <= p * q by { MulMonotone(r + 1, q, p); }
      assert false;
    }
  }

  lemma {:induction false} QuotientOfSum(a: int, b: int, p: int)
    requires p > 0 && b >= 0
    ensures a / p + b / p <= (a + b) / p
  {
    var q := a / p + b / p;
    assert p * q == p * (a / p) + p * (b / p);
    QuotientMonotone(p * q, a + b, p);
    ModuloUnique(p * q, p, q, 0);
  }

  const UNBOUNDED: int := -1

  /** How many barriers every subtask of the vertex injects. */
  function MaxBarriers(count: int64, parallelism: nat, interval: int, bounded: bool): int
    requires parallelism > 0
  {
    if !bounded then UNBOUNDED
    else if interval <= 0 then 0
    else TruncDiv(TruncDiv(count, parallelism), interval)
  }

  /** The common budget fits every subtask's own range, however the remainder falls. */
  lemma {:induction false} BudgetFitsEveryRange(count: int64, parallelism: nat, index: nat, interval: int)
    requires index < parallelism && 0 <= count && parallelism * count <= MAX_INT64 && interval > 0
    ensures var b := MaxBarriers(count, parallelism, interval, true);
            b >= 0 && RangeStart(count, parallelism, index) + b * interval <= RangeEnd(count, parallelism, index)
  {
    RangesPartition(count, parallelism, index);
    var share := count / parallelism;
    ShareBound(count, parallelism);
    ShareBound(share, interval);
  }

  lemma {:induction false} ShareBound(a: int, b: int)
    requires 0 <= a && b > 0
    ensures 0 <= a / b && (a / b) * b <= a && TruncDiv(a, b) == a / b
  {
    assert a == b * (a / b) + a % b;
    QuotientMonotone(0, a, b);
  }

  // ----- Generators ------------------------------------------------------------------------

  datatype Config = Config(
    data: seq<Record>,
    end: nat,
    barrierInterval: int,
    maxBarriers: int,
    watermarkInterval: int,
    maxOutOfOrderness: int64)

  datatype State = State(
    position: nat,
    sinceBarrier: int,
    injected: int,
    sinceWatermark: int,
    maxEventTime: int64,
    lastEmitted: int64)

  /** An element as sent, with the position of the source at that moment. */
  datatype Emission = Emission(elem: Element, position: nat)

  predicate ValidConfig(c: Config) {
    c.end <= |c.data| && c.maxOutOfOrderness >= 0
  }

  /** A fresh generator pair at `position`, with `injected` barriers behind it. */
  function Start(position: nat, injected: int): State {
    State(position, 0, injected, 0, MIN_INT64, MIN_INT64)
  }

  /** Counts one element towards the next barrier. */
  function CountForBarrier(c: Config, s: State): State {
    if c.barrierInterval <= 0 then s
    else if c.maxBarriers != UNBOUNDED && s.injected >= c.maxBarriers then s
    else if s.sinceBarrier + 1 < c.barrierInterval then s.(sinceBarrier := s.sinceBarrier + 1)
    else s.(sinceBarrier := 0, injected := s.injected + 1)
  }

  predicate BarrierDue(c: Config, s: State) {
    CountForBarrier(c, s).injected > s.injected
  }

  /** Observes one event time. A watermark is held the allowed disorder behind the maximum, and
      one further because an element at exactly that distance may still come. */
  function ObserveTime(c: Config, s: State, t: int64): State {
    var s1 := s.(maxEventTime := if t > s.maxEventTime then t else s.maxEventTime);
    if c.watermarkInterval <= 0 then s1
    else if s.sinceWatermark + 1 < c.watermarkInterval then s1.(sinceWatermark := s.sinceWatermark + 1)
    else
      var candidate := SubClamp(SubClamp(s1.maxEventTime, c.maxOutOfOrderness), 1);
      var s2 := s1.(sinceWatermark := 0);
      if candidate <= s.lastEmitted then s2 else s2.(lastEmitted := candidate)
  }

  predicate WatermarkDue(c: Config, s: State, t: int64) {
    ObserveTime(c, s, t).lastEmitted > s.lastEmitted
  }

  /** The state after the record at `s.position` and everything it triggers. */
  function Next(c: Config, s: State): State
    requires ValidConfig(c) && s.position < c.end
  {
    CountForBarrier(c, ObserveTime(c, s, c.data[s.position].eventTime)).(position := s.position + 1)
  }

  /** What goes out for that record: the record, the watermark it makes due, the barrier it makes
      due, in that order. */
  function EmittedBy(c: Config, s: State): seq<Emission>
    requires ValidConfig(c) && s.position < c.end
  {
    var rec := c.data[s.position];
    var s1 := ObserveTime(c, s, rec.eventTime);
    var p := s.position + 1;
    [Emission(RecordElement(rec), p)] +
    (if WatermarkDue(c, s, rec.eventTime) then [Emission(WatermarkElement(s1.lastEmitted), p)] else []) +
    (if BarrierDue(c, s1) then [Emission(BarrierElement(s1.injected + 1, s1.lastEmitted), p)] else [])
  }

  /** The whole stream from a state on, closed by the end of stream. */
  function Emissions(c: Config, s: State): seq<Emission>
    requires ValidConfig(c)
    decreases c.end - s.position
  {
    if s.position >= c.end then [Emission(EndOfStream, s.position)]
    else EmittedBy(c, s) + Emissions(c, Next(c, s))
  }

  function Elems(ems: seq<Emission>): seq<Element> {
    seq(|ems|, i requires 0 <= i < |ems| => ems[i].elem)
  }

  // ----- The watermark promise -------------------------------------------------------------

  /** No record is further behind an earlier one than the vertex allows for. */
  ghost predicate BoundedDisorder(c: Config, from: nat) {
    forall a, b :: from <= a < b < c.end <= |c.data| ==> c.data[b].eventTime >= c.data[a].eventTime - c.maxOutOfOrderness
  }

  /** Everything observed so far leaves room for everything still to come. */
  ghost predicate Roomy(c: Config, s: State) {
    && c.end <= |c.data|
    && (forall b :: s.position <= b < c.end ==> s.lastEmitted == MIN_INT64 || c.data[b].eventTime > s.lastEmitted)
    && (forall b :: s.position <= b < c.end ==> c.data[b].eventTime >= s.maxEventTime - c.maxOutOfOrderness)
  }

  /** Every watermark is strictly below every record the source has still to read when it goes
      out. This mentions the data alone, so it also bounds the records of a resumed run. */
  ghost predicate WatermarksSafe(c: Config, ems: seq<Emission>) {
    c.end <= |c.data| &&
    forall i, b :: 0 <= i < |ems| && ems[i].elem.WatermarkElement? && ems[i].position <= b < c.end ==>
      c.data[b].eventTime > ems[i].elem.wm
  }

  lemma {:induction false} NextRoomy(c: Config, s: State, from: nat)
    requires ValidConfig(c) && from <= s.position < c.end && Roomy(c, s) && BoundedDisorder(c, from)
    ensures Roomy(c, Next(c, s)) && WatermarksSafe(c, EmittedBy(c, s))
  {
    hide ObserveTime;
    var t := c.data[s.position].eventTime;
    var s1 := ObserveTime(c, s, t);
    forall b | s.position + 1 <= b < c.end
      ensures c.data[b].eventTime >= s1.maxEventTime - c.maxOutOfOrderness
      ensures s1.lastEmitted == MIN_INT64 || c.data[b].eventTime > s1.lastEmitted
    {
      assert c.data[b].eventTime >= t - c.maxOutOfOrderness;
      LeavesRoom(c, s, t, c.data[b].eventTime);
    }
    assert Next(c, s).maxEventTime == s1.maxEventTime && Next(c, s).lastEmitted == s1.lastEmitted;
  }

  /** A time that is no further behind than the allowed disorder stays above the watermark. */
  lemma {:induction false} LeavesRoom(c: Config, s: State, t: int64, later: int64)
    requires c.maxOutOfOrderness >= 0
    requires later >= t - c.maxOutOfOrderness && later >= s.maxEventTime - c.maxOutOfOrderness
    requires s.lastEmitted == MIN_INT64 || later > s.lastEmitted
    ensures var s1 := ObserveTime(c, s, t);
            later >= s1.maxEventTime - c.maxOutOfOrderness && (s1.lastEmitted == MIN_INT64 || later > s1.lastEmitted)
  {}

  lemma {:induction false} SourceWatermarksSafe(c: Config, s: State, from: nat)
    requires ValidConfig(c) && from <= s.position && Roomy(c, s) && BoundedDisorder(c, from)
    ensures WatermarksSafe(c, Emissions(c, s))
    decreases c.end - s.position
  {
    if s.position < c.end {
      NextRoomy(c, s, from);
      SourceWatermarksSafe(c, Next(c, s), from);
    }
  }

  /** Positions never go back, and a record is sent with its own offset just behind. */
  ghost predicate Positioned(c: Config, ems: seq<Emission>, from: nat) {
    && c.end <= |c.data|
    && (forall i :: 0 <= i < |ems| ==> from <= ems[i].position)
    && (forall i, j :: 0 <= i < j < |ems| ==> ems[i].position <= ems[j].position)
    && (forall i :: 0 <= i < |ems| && ems[i].elem.RecordElement? ==>
          0 < ems[i].position <= c.end && ems[i].elem.rec == c.data[ems[i].position - 1])
    && (forall i, j :: 0 <= i < j < |ems| && ems[j].elem.RecordElement? ==> ems[i].position < ems[j].position)
  }

  /** What one record makes the source send: the record first, the rest control elements, all with
      the offset just behind it. */
  lemma {:induction false} StepShape(c: Config, s: State)
    requires ValidConfig(c) && s.position < c.end
    ensures Next(c, s).position == s.position + 1
    ensures var now := EmittedBy(c, s);
            && now != [] && now[0].elem == RecordElement(c.data[s.position])
            && (forall i :: 0 <= i < |now| ==> now[i].position == s.position + 1)
            && (forall i :: 1 <= i < |now| ==> !now[i].elem.RecordElement?)
  {}

  lemma {:induction false} EmissionsPositioned(c: Config, s: State)
    requires ValidConfig(c)
    ensures Positioned(c, Emissions(c, s), s.position)
    ensures forall i :: 0 <= i < |Emissions(c, s)| && Emissions(c, s)[i].elem.RecordElement? ==> s.position < Emissions(c, s)[i].position
    decreases c.end - s.position
  {
    hide Next, EmittedBy;
    if s.position < c.end {
      StepShape(c, s);
      EmissionsPositioned(c, Next(c, s));
      PositionedPrepend(c, EmittedBy(c, s), Emissions(c, Next(c, s)), s.position + 1);
    }
  }

  lemma {:induction false} PositionedPrepend(c: Config, now: seq<Emission>, later: seq<Emission>, p: nat)
    requires Positioned(c, later, p) && 0 < p <= c.end
    requires forall i :: 0 <= i < |later| && later[i].elem.RecordElement? ==> p < later[i].position
    requires now != [] && now[0].elem == RecordElement(c.data[p - 1])
    requires forall i :: 0 <= i < |now| ==> now[i].position == p
    requires forall i :: 1 <= i < |now| ==> !now[i].elem.RecordElement?
    ensures Positioned(c, now + later, p - 1)
    ensures forall i :: 0 <= i < |now + later| && (now + later)[i].elem.RecordElement? ==> p - 1 < (now + later)[i].position
  {
    var all := now + later;
    forall i, j | 0 <= i < j < |all| && all[j].elem.RecordElement? ensures all[i].position < all[j].position {
      if j >= |now| {
        assert all[j] == later[j - |now|];
        if i >= |now| {
          assert all[i] == later[i - |now|];
        }
      }
    }
  }

  /** The promise is made: with disorder bounded by what the vertex declares, no record follows
      a watermark at or above its event time. */
  lemma {:induction false} SourceKeepsPromise(c: Config, position: nat, injected: int)
    requires ValidConfig(c) && BoundedDisorder(c, position)
    ensures KeepsPromise(Elems(Emissions(c, Start(position, injected))))
  {
    var s := Start(position, injected);
    SourceWatermarksSafe(c, s, position);
    EmissionsPositioned(c, s);
    var ems := Emissions(c, s);
    forall a, b | 0 <= a < b < |ems| && ems[a].elem.WatermarkElement? && ems[b].elem.RecordElement?
      ensures ems[b].elem.rec.eventTime > ems[a].elem.wm
    {
      assert ems[a].position <= ems[b].position - 1 < c.end;
      assert c.data[ems[b].position - 1].eventTime > ems[a].elem.wm;
    }
  }

  // ----- Barriers and resumption -----------------------------------------------------------

  /** The stream with watermarks left out and barriers reduced to their IDs: what a resumed run,
      whose watermark generator starts afresh, has to agree on. */
  datatype Item = Rec(rec: Record) | Bar(id: int) | End

  function Items(e: Element): seq<Item> {
    match e
    case RecordElement(r) => [Rec(r)]
    case BarrierElement(id, _) => [Bar(id)]
    case EndOfStream => [End]
    case WatermarkElement(_) => []
  }

  function Plain(ems: seq<Emission>): seq<Item> {
    if ems == [] then [] else Items(ems[0].elem) + Plain(ems[1..])
  }

  /** The same stream computed from the position and the barrier count alone. */
  function PlainFrom(c: Config, position: nat, sinceBarrier: int, injected: int): seq<Item>
    requires ValidConfig(c)
    decreases c.end - position
  {
    if position >= c.end then [End]
    else
      var s := CountForBarrier(c, State(position, sinceBarrier, injected, 0, MIN_INT64, MIN_INT64));
      [Rec(c.data[position])] + (if s.injected > injected then [Bar(injected + 1)] else []) +
      PlainFrom(c, position + 1, s.sinceBarrier, s.injected)
  }

  lemma {:induction false} PlainConcat(a: seq<Emission>, b: seq<Emission>)
    ensures Plain(a + b) == Plain(a) + Plain(b)
  {
    hide Items;
    if a == [] {
      assert a + b == b;
    } else {
      PlainConcat(a[1..], b);
      assert (a + b)[1..] == a[1..] + b;
      ItemsAssociate(Items(a[0].elem), Plain(a[1..]), Plain(b));
    }
  }

  lemma {:induction false} PlainOne(e: Emission)
    ensures Plain([e]) == Items(e.elem)
  {
    assert [e][1..] == [];
    assert Items(e.elem) + [] == Items(e.elem);
  }

  lemma {:induction false} PlainOfStep(c: Config, s: State)
    requires ValidConfig(c) && s.position < c.end
    ensures Plain(EmittedBy(c, s)) ==
            [Rec(c.data[s.position])] + (if BarrierDue(c, s) then [Bar(s.injected + 1)] else [])
  {
    hide Plain;
    var rec := c.data[s.position];
    var s1 := ObserveTime(c, s, rec.eventTime);
    var p := s.position + 1;
    var r, w, b := Emission(RecordElement(rec), p), Emission(WatermarkElement(s1.lastEmitted), p), Emission(BarrierElement(s1.injected + 1, s1.lastEmitted), p);
    var ws := if WatermarkDue(c, s, rec.eventTime) then [w] else [];
    var bs := if BarrierDue(c, s1) then [b] else [];
    PlainOne(r);
    PlainOne(w);
    PlainOne(b);
    NothingPlain();
    PlainConcat([r] + ws, bs);
    PlainConcat([r], ws);
    assert Plain([r]) + Plain(ws) == Plain([r]);
  }

  lemma {:induction false} NothingPlain()
    ensures Plain([]) == []
  {}

  lemma {:induction false} PlainStep(c: Config, s: State)
    requires ValidConfig(c) && s.position < c.end
    ensures var n := Next(c, s);
            PlainFrom(c, s.position, s.sinceBarrier, s.injected) ==
            Plain(EmittedBy(c, s)) + PlainFrom(c, n.position, n.sinceBarrier, n.injected)
  {
    PlainOfStep(c, s);
    var bare := CountForBarrier(c, State(s.position, s.sinceBarrier, s.injected, 0, MIN_INT64, MIN_INT64));
    assert Next(c, s).sinceBarrier == bare.sinceBarrier && Next(c, s).injected == bare.injected;
  }

  lemma {:induction false} NextPosition(c: Config, s: State)
    requires ValidConfig(c) && s.position < c.end
    ensures Next(c, s).position == s.position + 1
  {}

  lemma {:induction false} PlainIsPlainFrom(c: Config, s: State)
    requires ValidConfig(c)
    ensures Plain(Emissions(c, s)) == PlainFrom(c, s.position, s.sinceBarrier, s.injected)
    decreases c.end - s.position
  {
    hide Plain, EmittedBy, Next;
    if s.position < c.end {
      NextPosition(c, s);
      PlainIsPlainFrom(c, Next(c, s));
      PlainStep(c, s);
      PlainConcat(EmittedBy(c, s), Emissions(c, Next(c, s)));
    } else {
      PlainOne(Emission(EndOfStream, s.position));
    }
  }

  /** `n` records in a row. */
  function Stretch(c: Config, position: nat, n: nat): seq<Item>
    requires ValidConfig(c) && position + n <= c.end
  {
    seq(n, j requires 0 <= j < n => Rec(c.data[position + j]))
  }

  /** The first `k` barriers and all before them, starting right behind barrier `injected`. */
  function PlainEpochs(c: Config, position: nat, injected: int, k: nat): seq<Item>
    requires ValidConfig(c) && c.barrierInterval > 0 && position + k * c.barrierInterval <= c.end
    decreases k
  {
    if k == 0 then []
    else
      EpochFits(position, k, c.barrierInterval, c.end);
      Stretch(c, position, c.barrierInterval) + [Bar(injected + 1)] + PlainEpochs(c, position + c.barrierInterval, injected + 1, k - 1)
  }

  lemma {:induction false} EpochFits(position: nat, k: nat, interval: int, end: nat)
    requires k > 0 && interval > 0 && position + k * interval <= end
    ensures position + interval <= end && (position + interval) + (k - 1) * interval == position + k * interval
  {
    assert k * interval == (k - 1) * interval + interval;
    MulMonotone(0, k - 1, interval);
  }

  lemma {:induction false} StretchFirst(c: Config, position: nat, n: nat)
    requires ValidConfig(c) && n > 0 && position + n <= c.end
    ensures Stretch(c, position, n) == [Rec(c.data[position])] + Stretch(c, position + 1, n - 1)
  {}

  /** One element short of the next barrier, or at it. */
  lemma {:induction false} PlainOneRecord(c: Config, position: nat, done: int, injected: int)
    requires ValidConfig(c) && 0 <= done < c.barrierInterval && position < c.end
    requires c.maxBarriers == UNBOUNDED || injected < c.maxBarriers
    ensures PlainFrom(c, position, done, injected) ==
            if done + 1 < c.barrierInterval then [Rec(c.data[position])] + PlainFrom(c, position + 1, done + 1, injected)
            else [Rec(c.data[position])] + ([Bar(injected + 1)] + PlainFrom(c, position + 1, 0, injected + 1))
  {
    assert [Rec(c.data[position])] + [] == [Rec(c.data[position])];
    ItemsAssociate([Rec(c.data[position])], [Bar(injected + 1)], PlainFrom(c, position + 1, 0, injected + 1));
  }

  /** One epoch: exactly `barrierInterval` records, then the next barrier. */
  lemma {:induction false} OneEpoch(c: Config, position: nat, done: int, injected: int)
    requires ValidConfig(c) && 0 <= done < c.barrierInterval && position + (c.barrierInterval - done) <= c.end
    requires c.maxBarriers == UNBOUNDED || injected < c.maxBarriers
    ensures PlainFrom(c, position, done, injected) ==
            Stretch(c, position, c.barrierInterval - done) +
            ([Bar(injected + 1)] + PlainFrom(c, position + (c.barrierInterval - done), 0, injected + 1))
    decreases c.barrierInterval - done
  {
    hide PlainFrom, Stretch;
    var left := c.barrierInterval - done;
    StretchFirst(c, position, left);
    PlainOneRecord(c, position, done, injected);
    var tail := [Bar(injected + 1)] + PlainFrom(c, position + left, 0, injected + 1);
    if left == 1 {
      StretchOfNone(c, position + 1);
      assert [Rec(c.data[position])] + [] == [Rec(c.data[position])];
    } else {
      OneEpoch(c, position + 1, done + 1, injected);
      ItemsAssociate([Rec(c.data[position])], Stretch(c, position + 1, left - 1), tail);
    }
  }

  lemma {:induction false} StretchOfNone(c: Config, position: nat)
    requires ValidConfig(c) && position <= c.end
    ensures Stretch(c, position, 0) == []
  {}

  lemma {:induction false} ItemsAssociate(a: seq<Item>, b: seq<Item>, c: seq<Item>)
    ensures a + (b + c) == (a + b) + c
  {}

  /** Barrier j follows exactly j * interval of the subtask's elements, and what follows barrier
      k is the stream of a source started afresh at that offset with k barriers behind it. */
  lemma {:induction false} EpochsThenResume(c: Config, position: nat, injected: int, k: nat)
    requires ValidConfig(c) && c.barrierInterval > 0 && position + k * c.barrierInterval <= c.end
    requires c.maxBarriers == UNBOUNDED || injected + k <= c.maxBarriers
    ensures PlainFrom(c, position, 0, injected) ==
            PlainEpochs(c, position, injected, k) + PlainFrom(c, position + k * c.barrierInterval, 0, injected + k)
    decreases k
  {
    hide PlainFrom, Stretch;
    if k > 0 {
      EpochFits(position, k, c.barrierInterval, c.end);
      var next := position + c.barrierInterval;
      OneEpoch(c, position, 0, injected);
      EpochsThenResume(c, next, injected + 1, k - 1);
      var e := Stretch(c, position, c.barrierInterval) + [Bar(injected + 1)];
      var more := PlainEpochs(c, next, injected + 1, k - 1);
      var tail := PlainFrom(c, next + (k - 1) * c.barrierInterval, 0, injected + 1 + (k - 1));
      ItemsAssociate(Stretch(c, position, c.barrierInterval), [Bar(injected + 1)], more + tail);
      ItemsAssociate(e, more, tail);
    } else {
      assert [] + PlainFrom(c, position, 0, injected) == PlainFrom(c, position, 0, injected);
    }
  }

  /** The subtask injects a k-th barrier: within its budget and before its elements run out. */
  predicate Reaches(c: Config, start: nat, k: nat) {
    (c.maxBarriers == UNBOUNDED || k <= c.maxBarriers) && start + k * c.barrierInterval <= c.end
  }

  /** The offset a source records for checkpoint `k`: behind its k-th barrier, or the end of its
      range when it has fewer and reports itself finished instead. */
  function CutPosition(c: Config, start: nat, k: nat): nat
    requires c.barrierInterval > 0
  {
    MulMonotone(0, k, c.barrierInterval);
    if Reaches(c, start, k) then start + k * c.barrierInterval else c.end
  }

  /** The run that resumes at checkpoint `k` produces exactly the rest of the original run:
      the original is what came up to the cut followed by the resumed stream, and a source that
      had finished resumes with nothing but its end. */
  lemma {:induction false} ResumeIsTheRest(c: Config, start: nat, k: nat)
    requires ValidConfig(c) && c.barrierInterval > 0 && start <= c.end
    ensures var all := Plain(Emissions(c, Start(start, 0)));
            var resumed := Plain(Emissions(c, Start(CutPosition(c, start, k), k)));
            if Reaches(c, start, k) then all == PlainEpochs(c, start, 0, k) + resumed
            else resumed == [End] && all[|all| - 1] == End
  {
    hide Plain, Emissions, PlainEpochs;
    PlainIsPlainFrom(c, Start(start, 0));
    PlainIsPlainFrom(c, Start(CutPosition(c, start, k), k));
    if Reaches(c, start, k) {
      EpochsThenResume(c, start, 0, k);
    } else {
      PlainEndsOnce(c, start, 0, 0);
    }
  }

  lemma {:induction false} PlainEndsOnce(c: Config, position: nat, sinceBarrier: int, injected: int)
    requires ValidConfig(c)
    ensures var p := PlainFrom(c, position, sinceBarrier, injected);
            p != [] && p[|p| - 1] == End
    decreases c.end - position
  {
    if position < c.end {
      var s := CountForBarrier(c, State(position, sinceBarrier, injected, 0, MIN_INT64, MIN_INT64));
      PlainEndsOnce(c, position + 1, s.sinceBarrier, s.injected);
    }
  }

  lemma {:induction false} InjectsWhatFits(c: Config, start: nat)
    requires ValidConfig(c) && c.barrierInterval > 0 && 0 <= c.maxBarriers
    requires start + c.maxBarriers * c.barrierInterval <= c.end
    ensures NumBars(PlainFrom(c, start, 0, 0)) == c.maxBarriers
  {
    EpochsThenResume(c, start, 0, c.maxBarriers);
    var p := start + c.maxBarriers * c.barrierInterval;
    NoMoreBars(c, p, 0);
    BarsOfEpochs(c, start, 0, c.maxBarriers);
    NumBarsConcat(PlainEpochs(c, start, 0, c.maxBarriers), PlainFrom(c, p, 0, c.maxBarriers));
  }

  /** Every subtask of a countable source injects the whole common budget, never more and never
      fewer, whichever share of the offset space is its own. */
  lemma {:induction false} InjectsWholeBudget(c: Config, count: int64, parallelism: nat, index: nat)
    requires ValidConfig(c) && c.barrierInterval > 0
    requires index < parallelism && 0 <= count && parallelism * count <= MAX_INT64
    requires c.end == RangeEnd(count, parallelism, index) && c.maxBarriers == MaxBarriers(count, parallelism, c.barrierInterval, true)
    ensures 0 <= RangeStart(count, parallelism, index)
    ensures NumBars(Plain(Emissions(c, Start(RangeStart(count, parallelism, index), 0)))) == c.maxBarriers
  {
    hide RangeStart, RangeEnd, MaxBarriers, Plain, PlainFrom, Emissions;
    RangesPartition(count, parallelism, index);
    BudgetFitsEveryRange(count, parallelism, index, c.barrierInterval);
    var start := RangeStart(count, parallelism, index);
    InjectsWhatFits(c, start);
    PlainIsPlainFrom(c, Start(start, 0));
  }

  function NumBars(items: seq<Item>): nat {
    if items == [] then 0 else (if items[0].Bar? then 1 else 0) + NumBars(items[1..])
  }

  lemma {:induction false} NumBarsConcat(a: seq<Item>, b: seq<Item>)
    ensures NumBars(a + b) == NumBars(a) + NumBars(b)
  {
    if a == [] {
      assert a + b == b;
    } else {
      NumBarsConcat(a[1..], b);
      assert (a + b)[1..] == a[1..] + b;
    }
  }

  lemma {:induction false} NoBars(items: seq<Item>)
    requires forall i :: 0 <= i < |items| ==> !items[i].Bar?
    ensures NumBars(items) == 0
  {
    if items != [] {
      NoBars(items[1..]);
    }
  }

  lemma {:induction false} NoMoreBars(c: Config, position: nat, sinceBarrier: int)
    requires ValidConfig(c) && 0 <= c.maxBarriers
    ensures NumBars(PlainFrom(c, position, sinceBarrier, c.maxBarriers)) == 0
    decreases c.end - position
  {
    if position < c.end {
      NoMoreBars(c, position + 1, sinceBarrier);
      var tail := PlainFrom(c, position + 1, sinceBarrier, c.maxBarriers);
      assert [Rec(c.data[position])] + [] + tail == [Rec(c.data[position])] + tail;
      assert ([Rec(c.data[position])] + tail)[1..] == tail;
    } else {
      assert [End][1..] == [];
    }
  }

  lemma {:induction false} BarsOfEpochs(c: Config, position: nat, injected: int, k: nat)
    requires ValidConfig(c) && c.barrierInterval > 0 && position + k * c.barrierInterval <= c.end
    ensures NumBars(PlainEpochs(c, position, injected, k)) == k
    decreases k
  {
    if k > 0 {
      EpochFits(position, k, c.barrierInterval, c.end);
      BarsOfEpochs(c, position + c.barrierInterval, injected + 1, k - 1);
      var e := Stretch(c, position, c.barrierInterval);
      NoBars(e);
      NumBarsConcat(e, [Bar(injected + 1)]);
      NumBarsConcat(e + [Bar(injected + 1)], PlainEpochs(c, position + c.barrierInterval, injected + 1, k - 1));
      assert [Bar(injected + 1)][1..] == [];
      assert NumBars([Bar(injected + 1)]) == 1;
    }
  }
}
