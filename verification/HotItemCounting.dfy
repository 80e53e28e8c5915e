/** The second stage of the hot-items query: per window, every auction attaining the maximum. */
module HotItemCounting {
  import opened Int64
  import opened Elements
  import opened ByteOrder
  import opened StateStore
  import opened WindowKeys
  import opened WindowLayout
  import opened WindowMachine
  import opened Bids
  import opened AuctionCounts
  import opened HotLayout

  /** The rows of one fired window: its hottest auctions in ascending order, each with the maximum
      count and the window's last instant. */
  function HotRows(c: Config, start: int64, w: HotWindow): seq<Record>
    requires ValidConfig(c)
  {
    seq(|w.winners|, i requires 0 <= i < |w.winners| => Record(Uint64Bytes(w.winners[i]), Int64Bytes(w.max), FireTime(c, start)))
  }

  function AllHotRows(c: Config, due: seq<Pane>, hot: seq<HotWindow>): seq<Record>
    requires ValidConfig(c) && |hot| == |due|
  {
    if due == [] then []
    else AllHotRows(c, due[..|due| - 1], hot[..|hot| - 1]) + HotRows(c, due[|due| - 1].start, hot[|hot| - 1])
  }

  /** `hot` answers each due window: the auctions at the maximum of the counts held for it. */
  ghost predicate Answers(held: map<Pane, seq<Record>>, due: seq<Pane>, hot: seq<HotWindow>) {
    |hot| == |due| && forall i :: 0 <= i < |due| ==> IsHottest(CountsFor(held, due[i].start), hot[i].max, hot[i].winners) && hot[i].winners != []
  }

  lemma {:induction false} OneMoreWindow(c: Config, due: seq<Pane>, hot: seq<HotWindow>, p: Pane, w: HotWindow)
    requires ValidConfig(c) && |hot| == |due|
    ensures AllHotRows(c, due + [p], hot + [w]) == AllHotRows(c, due, hot) + HotRows(c, p.start, w)
  {
    assert (due + [p])[..|due|] == due && (hot + [w])[..|hot|] == hot;
  }

  datatype Outcome = Folded | Late | Refused

  /** The key, the event time or the value is not what the re-key sends. */
  predicate Refuses(c: Config, rec: Record)
    requires ValidConfig(c)
  {
    var start := WindowKeyStart(rec.key);
    start.None? || rec.eventTime != FireTime(c, start.value) || DecodeAuctionCount(rec.value).None?
  }

  /** What the stage makes of a record: late when its window has been purged. */
  function OutcomeOf(c: Config, watermark: int64, rec: Record): Outcome
    requires ValidConfig(c)
  {
    if Refuses(c, rec) then Refused
    else if IsPurged(c, watermark, WindowKeyStart(rec.key).value) then Late
    else Folded
  }

  class HotItems {
    const size: int64
    const lateness: int64
    const store: Memory
    var dropped: nat
    var onTime: nat
    var emitted: seq<Record>
    ghost var model: State

    ghost function Conf(): Config {
      Config(size, lateness)
    }

    ghost predicate Valid()
      reads this, store
    {
      ValidConfig(Conf()) && HotRepresents(Conf(), store.entries, model) && dropped == model.dropped
    }

    constructor (size: int64, lateness: int64)
      requires size > 0 && lateness >= 0
      ensures Valid() && fresh(store) && store.entries == map[] && model == INITIAL && emitted == []
      ensures this.size == size && this.lateness == lateness
    {
      this.size, this.lateness := size, lateness;
      store := new Memory();
      dropped, onTime, emitted := 0, 0, [];
      model := INITIAL;
    }

    method ProcessElement(rec: Record) returns (ok: bool)
      requires Valid()
      modifies this`dropped, this`onTime, this`model, store
      ensures Valid() && (ok <==> OutcomeOf(Conf(), old(model).watermark, rec) != Refused)
      ensures model == if ok then ApplyArrive(Conf(), old(model), rec, [HotPane(WindowKeyStart(rec.key).value)]) else old(model)
      ensures dropped - old(dropped) == if OutcomeOf(Conf(), old(model).watermark, rec) == Late then 1 else 0
      ensures onTime - old(onTime) == if OutcomeOf(Conf(), old(model).watermark, rec) == Folded then 1 else 0
    {
      hide HotRepresents;
      var windowStart := WindowKeyStart(rec.key);
      if windowStart.None? || rec.eventTime != FireTime(Config(size, lateness), windowStart.value) {
        return false;
      }
      var ac := DecodeAuctionCount(rec.value);
      if ac.None? {
        return false;
      }
      OneHotPane(Conf(), model, rec, windowStart.value);
      var wm := StoredWatermark();
      if IsPurged(Config(size, lateness), wm, windowStart.value) {
        DropLate();
      } else {
        onTime := onTime + 1;
        Replace(rec, windowStart.value, ac.value);
      }
      ok := true;
    }

    method StoredWatermark() returns (wm: int64)
      requires Valid()
      ensures wm == model.watermark
    {
      wm := CurrentWatermark(store, model.watermark);
    }

    method DropLate()
      requires Valid()
      modifies this`dropped, this`model
      ensures Valid() && model == old(model).(dropped := old(model).dropped + 1) && dropped == old(dropped) + 1
    {
      dropped := dropped + 1;
      model := model.(dropped := model.dropped + 1);
    }

    /** The count replaces the auction's earlier one in the window, and the window is armed. */
    method Replace(rec: Record, start: int64, ac: AuctionCount)
      requires Valid() && DecodeAuctionCount(rec.value) == Some(ac)
      requires rec.key == WindowKey(start) && rec.eventTime == FireTime(Conf(), start)
      modifies this`model, store
      ensures Valid()
      ensures var p := HotPane(start);
              model == old(model).(held := old(model).held[p := HeldFor(old(model), p) + [rec]], armed := old(model).armed + {p})
    {
      hide HotRepresents;
      PutCountIn(rec, start, ac);
      ArmHot(rec.eventTime, rec.key, start);
    }

    method PutCountIn(rec: Record, start: int64, ac: AuctionCount)
      requires Valid() && DecodeAuctionCount(rec.value) == Some(ac)
      modifies this`model, store
      ensures Valid() && model == old(model).(held := Adding(old(model).held, start, rec))
    {
      hide HotStored, HoldsCounts, TimersStored;
      ghost var e, s := store.entries, model;
      var k := HotKey(start, ac.auction);
      store.Put(k, Int64Bytes(ac.count));
      PutCount(e, s.held, start, rec, ac);
      HoldsAfterPut(s.held, start, rec);
      AggregateWrite(Conf(), e, store.entries, s.armed, s.watermark, k);
      model := s.(held := Adding(s.held, start, rec));
    }

    method ArmHot(fireTime: int64, key: Bytes, start: int64)
      requires Valid() && key == WindowKey(start) && fireTime == FireTime(Conf(), start)
      modifies this`model, store
      ensures Valid() && model == old(model).(armed := old(model).armed + {HotPane(start)})
    {
      hide HotStored, HoldsCounts, TimersStored;
      ghost var e, s := store.entries, model;
      var timer := TimerKey(fireTime, key, start);
      store.Put(timer, []);
      PutTimer(Conf(), e, s.armed, HotPane(start));
      HotTimerWrite(e, store.entries, s.held, s.watermark, timer);
      model := s.(armed := s.armed + {HotPane(start)});
    }

    /** Fires every window the watermark completes and purges those it puts out of reach. It fails
        only if some pending timer has lost its window's counts. */
    method ProcessWatermark(wm: int64) returns (ok: bool, ghost due: seq<Pane>, ghost hot: seq<HotWindow>)
      requires Valid()
      modifies this`emitted, this`model, store
      ensures (forall p :: p in old(model).armed ==> p in old(model).held) ==> ok
      ensures ok ==> Valid() && IsDue(Conf(), old(model), wm, due) && model == ApplyAdvance(Conf(), old(model), wm, due)
      ensures ok ==> Answers(old(model).held, due, hot) && InFireOrder(Conf(), due)
      ensures ok ==> emitted == old(emitted) + AllHotRows(Conf(), due, hot)
    {
      hide HotStored, TimersStored, IsHottest, HoldsCounts, CountsFor, AllHotRows;
      ghost var before := model;
      StoreHotWatermark(wm);
      var timers := DueTimers(store, wm, Conf(), model);
      due, hot := PanesOf(timers), [];
      if |timers| == 0 {
        PurgeWindowsPast(wm);
        NothingDue(Conf(), before, wm, due);
        return true, due, hot;
      }
      var best := FindHottest(store, timers, model.held);
      var fired, answers := FireAll(timers, best);
      if !fired {
        return false, due, hot;
      }
      hot := answers;
      PurgeWindowsPast(wm);
      ok := true;
      assert model == ApplyAdvance(Conf(), before, wm, due);
    }

    method StoreHotWatermark(wm: int64)
      requires Valid()
      modifies this`model, store
      ensures Valid() && model == old(model).(watermark := wm)
    {
      hide HotStored, HoldsCounts, TimersStored;
      ghost var e := store.entries;
      store.Put(WATERMARK_KEY, EncodeOrderedInt64(wm));
      PutWatermark(e, model.watermark, wm);
      HotUntouched(e, store.entries, model.held);
      TimersUntouched(Conf(), e, store.entries, model.armed);
      model := model.(watermark := wm);
    }

    method PurgeWindowsPast(wm: int64)
      requires Valid()
      modifies this`model, store
      ensures Valid() && model == old(model).(held := Kept(Conf(), old(model).held, wm))
    {
      hide HotStored, TimersStored, OnlyPartition, SamePartition, IsPurged, Latest;
      ghost var e := store.entries;
      PurgeHot(store, Config(size, lateness), wm, model.held);
      OtherPartition(e, store.entries, USER_STATE, TIMER);
      TimersUntouched(Conf(), e, store.entries, model.armed);
      WatermarkUntouched(e, store.entries, model.watermark, USER_STATE);
      model := model.(held := Kept(Conf(), model.held, wm));
    }

    method DeleteHotTimer(stateKey: Bytes, ghost p: Pane)
      requires Valid() && stateKey == PaneTimer(Conf(), p)
      modifies this`model, store
      ensures Valid() && model == old(model).(armed := old(model).armed - {p})
    {
      hide HotStored, TimersStored, HoldsCounts;
      ghost var e := store.entries;
      store.Delete(stateKey);
      DropTimer(Conf(), e, model.armed, p);
      HotTimerWrite(e, store.entries, model.held, model.watermark, stateKey);
      model := model.(armed := model.armed - {p});
    }

    /** Each timer is deleted before its window's rows go out. */
    method FireAll(timers: seq<DueTimer>, best: map<Bytes, HotWindow>) returns (ok: bool, ghost hot: seq<HotWindow>)
      requires Valid() && TimersOf(Conf(), timers) && forall t :: t in timers ==> t.key in best
      requires forall s: int64 :: WindowKey(s) in best ==>
                 IsHottest(CountsFor(model.held, s), best[WindowKey(s)].max, best[WindowKey(s)].winners)
      requires forall i :: 0 <= i < |timers| ==> PanesOf(timers)[i] in model.armed
      modifies this`emitted, this`model, store
      ensures (forall p :: p in old(model).armed ==> p in old(model).held) ==> ok
      ensures ok ==> Valid() && model == old(model).(armed := ArmedWithout(old(model).armed, PanesOf(timers)))
      ensures ok ==> Answers(old(model).held, PanesOf(timers), hot)
      ensures ok ==> emitted == old(emitted) + AllHotRows(Conf(), PanesOf(timers), hot)
    {
      hide HotRepresents, IsHottest, CountsFor, WindowKey, HoldsCounts, Answers, AllHotRows, ArmedWithout;
      ghost var due := PanesOf(timers);
      ghost var before := model;
      hot := [];
      HotFacts(Conf(), store.entries, model);
      NothingFired(Conf(), before, hot);
      for i := 0 to |timers|
        invariant Valid() && model == before.(armed := ArmedWithout(before.armed, due[..i]))
        invariant Answers(before.held, due[..i], hot) && |hot| == i
        invariant emitted == old(emitted) + AllHotRows(Conf(), due[..i], hot)
      {
        assert timers[i] in timers && due[i] in before.armed;
        var w := best[timers[i].key];
        ArmedWithoutOne(before.armed, due, i);
        var done := FireOne(timers[i], w, due[i]);
        if !done {
          NoCounts(before.held, due[i].start, w);
          return false, hot;
        }
        assert due[..i + 1] == due[..i] + [due[i]];
        AnswersOneMore(before.held, due[..i], hot, due[i], w);
        OneMoreWindow(Conf(), due[..i], hot, due[i], w);
        hot := hot + [w];
      }
      assert due[..|due|] == due;
      ok := true;
    }

    method FireOne(t: DueTimer, w: HotWindow, ghost p: Pane) returns (ok: bool)
      requires Valid() && t.stateKey == PaneTimer(Conf(), p) && p == Pane(t.key, t.start)
      modifies this`emitted, this`model, store
      ensures Valid() && model == old(model).(armed := old(model).armed - {p})
      ensures ok <==> w.winners != []
      ensures ok ==> emitted == old(emitted) + HotRows(Conf(), p.start, w)
    {
      hide HotRepresents;
      DeleteHotTimer(t.stateKey, p);
      if |w.winners| == 0 {
        return false;
      }
      emitted := emitted + HotRows(Config(size, lateness), t.start, w);
      ok := true;
    }
  }

  lemma {:induction false} NothingFired(c: Config, s: State, hot: seq<HotWindow>)
    requires ValidConfig(c) && hot == []
    ensures s == s.(armed := ArmedWithout(s.armed, [])) && Answers(s.held, [], hot) && AllHotRows(c, [], hot) == []
  {
    assert ArmedWithout(s.armed, []) == s.armed;
  }

  lemma {:induction false} AnswersOneMore(held: map<Pane, seq<Record>>, due: seq<Pane>, hot: seq<HotWindow>, p: Pane, w: HotWindow)
    requires Answers(held, due, hot) && IsHottest(CountsFor(held, p.start), w.max, w.winners) && w.winners != []
    ensures Answers(held, due + [p], hot + [w])
  {
    hide IsHottest, CountsFor;
  }

  lemma {:induction false} HotFacts(c: Config, e: map<Bytes, Bytes>, s: State)
    requires ValidConfig(c) && HotRepresents(c, e, s)
    ensures HoldsCounts(s.held) && forall p :: p in s.armed ==> p == HotPane(p.start)
  {}

  /** A window with no winners holds no counts, so it is not held at all. */
  lemma {:induction false} NoCounts(held: map<Pane, seq<Record>>, start: int64, w: HotWindow)
    requires HoldsCounts(held) && IsHottest(CountsFor(held, start), w.max, w.winners) && w.winners == []
    ensures HotPane(start) !in held
  {}

  lemma {:induction false} NothingDue(c: Config, s: State, wm: int64, due: seq<Pane>)
    requires ValidConfig(c) && |due| == 0
    ensures ApplyAdvance(c, s, wm, due) == s.(watermark := wm, held := Kept(c, s.held, wm))
    ensures AllHotRows(c, due, []) == []
  {
    assert (set p | p in s.armed && p !in due) == s.armed;
  }

  lemma {:induction false} OneHotPane(c: Config, s: State, rec: Record, start: int64)
    requires ValidConfig(c)
    ensures ApplyArrive(c, s, rec, [HotPane(start)]) == ApplyOne(c, s, rec, HotPane(start))
    ensures |rec.key| == 8 && WindowKeyStart(rec.key) == Some(start) ==> rec.key == WindowKey(start)
  {
    assert [HotPane(start)][..0] == [];
    assert ApplyArrive(c, s, rec, []) == s;
    if |rec.key| == 8 {
      Int64Onto(rec.key);
    }
  }
}
