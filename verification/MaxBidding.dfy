/** The highest bid of each auction and tumbling window, on its bytes. */
module MaxBidding {
  import opened Int64
  import opened Elements
  import opened StateStore
  import opened WindowKeys
  import opened WindowLayout
  import opened WindowMachine
  import opened Bids

  function Winners(bidOf: Record -> Parsed): seq<Record> -> Bytes {
    rs => WinnerBytes(bidOf, rs)
  }

  /** A fired window: the stored winner verbatim, stamped with the window's last instant. */
  function EmittedBid(c: Config, bidOf: Record -> Parsed, row: Row): Record
    requires ValidConfig(c)
  {
    Record(row.pane.key, WinnerBytes(bidOf, row.records), FireTime(c, row.pane.start))
  }

  function EmittedBids(c: Config, bidOf: Record -> Parsed, rows: seq<Row>): seq<Record>
    requires ValidConfig(c)
  {
    seq(|rows|, i requires 0 <= i < |rows| => EmittedBid(c, bidOf, rows[i]))
  }

  /** The start of the tumbling window containing `t`. */
  function WindowStartOfTime(c: Config, t: int64): int64
    requires ValidConfig(c)
  {
    SubFloor(t, FloorMod(t, c.size))
  }

  /** Every held pane has at least one bid. */
  ghost predicate HoldsBids(bidOf: Record -> Parsed, held: map<Pane, seq<Record>>) {
    forall p :: p in held ==> BidsOf(bidOf, held[p]) != []
  }

  /** Folding one more bid into a stored winner. */
  lemma {:induction false} FoldBid(bidOf: Record -> Parsed, was: seq<Record>, rec: Record)
    requires bidOf(rec).Bid?
    ensures BidsOf(bidOf, was + [rec]) != []
    ensures WinnerBytes(bidOf, was + [rec]) ==
            EncodeWinningBid(
              if BidsOf(bidOf, was) == [] || BetterBid(bidOf(rec).bid, Best(BidsOf(bidOf, was)))
              then bidOf(rec).bid else Best(BidsOf(bidOf, was)))
  {
    BidsOfAppend(bidOf, was, rec);
    var more := BidsOf(bidOf, was + [rec]);
    assert more[..|more| - 1] == BidsOf(bidOf, was);
  }

  class MaxBid {
    const size: int64
    const lateness: int64
    const bidOf: Record -> Parsed
    const store: Memory
    var dropped: nat
    var onTime: nat
    var emitted: seq<Record>
    ghost var model: State

    ghost function Conf(): Config {
      Config(size, lateness)
    }

    ghost predicate Valid()
      reads this, store
    {
      && ValidConfig(Conf())
      && Represents(Conf(), Winners(bidOf), store.entries, model)
      && HoldsBids(bidOf, model.held)
      && dropped == model.dropped
    }

    constructor (size: int64, lateness: int64, bidOf: Record -> Parsed)
      requires size > 0 && lateness >= 0
      ensures Valid() && fresh(store) && store.entries == map[] && model == INITIAL && emitted == []
      ensures this.size == size && this.lateness == lateness && this.bidOf == bidOf
    {
      this.size, this.lateness, this.bidOf := size, lateness, bidOf;
      store := new Memory();
      dropped, onTime, emitted := 0, 0, [];
      model := INITIAL;
    }

    /** Folds one bid into its window's running maximum. Other events are ignored, and a value
        that does not decode is an error. */
    method ProcessElement(rec: Record) returns (ok: bool)
      requires Valid()
      modifies this`dropped, this`onTime, this`model, store
      ensures Valid() && (ok <==> !bidOf(rec).Malformed?)
      ensures model == if bidOf(rec).Bid? then ApplyArrive(Conf(), old(model), rec, [Pane(rec.key, WindowStartOfTime(Conf(), rec.eventTime))])
                       else old(model)
      ensures dropped - old(dropped) + onTime - old(onTime) == if bidOf(rec).Bid? then 1 else 0
    {
      hide Represents;
      var parsed := bidOf(rec);
      if !parsed.Bid? {
        return parsed.NotABid?;
      }
      var start := WindowStartOfTime(Config(size, lateness), rec.eventTime);
      ghost var p := Pane(rec.key, start);
      assert ApplyArrive(Conf(), model, rec, [p]) == ApplyOne(Conf(), model, rec, p) by { OnePane(Conf(), model, rec, p); }
      var wm := StoredWatermark();
      if IsPurged(Config(size, lateness), wm, start) {
        DropLate();
      } else {
        onTime := onTime + 1;
        FoldIn(rec, start, parsed.bid);
      }
      ok := true;
    }

    method StoredWatermark() returns (wm: int64)
      requires Valid()
      ensures wm == model.watermark
    {
      wm := CurrentWatermark(store, model.watermark);
    }

    method DropLate()
      requires Valid()
      modifies this`dropped, this`model
      ensures Valid() && model == old(model).(dropped := old(model).dropped + 1) && dropped == old(dropped) + 1
    {
      dropped := dropped + 1;
      model := model.(dropped := model.dropped + 1);
    }

    method FoldIn(rec: Record, start: int64, bid: WinningBid)
      requires Valid() && bidOf(rec) == Bid(bid)
      modifies this`model, store
      ensures Valid()
      ensures var p := Pane(rec.key, start);
              model == old(model).(held := old(model).held[p := HeldFor(old(model), p) + [rec]], armed := old(model).armed + {p})
    {
      hide Represents, WinnerBytes, Best;
      ghost var p := Pane(rec.key, start);
      ghost var was := HeldFor(model, p);
      var key := StateKey(rec.key, start);
      var held := StoredBid(key, p);
      var candidate := if held.Some? && !BetterBid(bid, held.value) then held.value else bid;
      FoldBid(bidOf, was, rec);
      StoreAggregate(Conf(), Winners(bidOf), store.entries, model, p, was + [rec]);
      store.Put(key, EncodeWinningBid(candidate));
      model := model.(held := model.held[p := was + [rec]]);
      ArmTimer(store, Config(size, lateness), rec.key, start, Winners(bidOf), model);
      model := model.(armed := model.armed + {p});
    }

    method StoredBid(key: Bytes, ghost p: Pane) returns (w: Option<WinningBid>)
      requires Valid() && key == PaneKey(p)
      ensures w.Some? <==> p in model.held
      ensures w == if BidsOf(bidOf, HeldFor(model, p)) == [] then None else Some(Best(BidsOf(bidOf, HeldFor(model, p))))
    {
      StoredAggregate(Conf(), Winners(bidOf), store.entries, model, p);
      if key !in store.entries {
        return None;
      }
      WinningBidRoundTrip(Best(BidsOf(bidOf, HeldFor(model, p))));
      w := DecodeWinningBid(store.entries[key]);
    }

    /** Emits the winner of one window; it fails exactly when the window has no state. */
    method Fire(key: Bytes, start: int64) returns (ok: bool)
      requires Valid()
      modifies this`emitted
      ensures Valid() && (ok <==> Pane(key, start) in model.held)
      ensures emitted == if ok then old(emitted) + [EmittedBid(Conf(), bidOf, Row(Pane(key, start), HeldFor(model, Pane(key, start))))]
                         else old(emitted)
    {
      hide Represents, AddCeil;
      var winner := StoredBid(StateKey(key, start), Pane(key, start));
      if winner.None? {
        return false;
      }
      emitted := emitted + [Record(key, EncodeWinningBid(winner.value), FireTime(Config(size, lateness), start))];
      return true;
    }

    method ProcessWatermark(wm: int64) returns (ok: bool, ghost due: seq<Pane>)
      requires Valid()
      modifies this`emitted, this`model, store
      ensures (forall p :: p in old(model).armed ==> p in old(model).held) ==> ok
      ensures ok ==> Valid() && IsDue(Conf(), old(model), wm, due) && model == ApplyAdvance(Conf(), old(model), wm, due)
      ensures ok ==> emitted == old(emitted) + EmittedBids(Conf(), bidOf, RowsFor(old(model), due))
      ensures ok ==> InFireOrder(Conf(), due)
    {
      hide AggregatesStored, TimersStored, WinnerBytes, InFireOrder, FireTime, IsPurged, EmittedBids;
      ghost var before := model;
      SetWatermark(store, wm, Conf(), Winners(bidOf), model);
      model := model.(watermark := wm);
      var timers := DueTimers(store, wm, Conf(), model);
      due := PanesOf(timers);
      assert RowsFor(model, due) == RowsFor(before, due);
      var fired := FireAll(timers);
      if !fired {
        return false, due;
      }
      Purged(store, Config(size, lateness), wm, Winners(bidOf), model);
      model := model.(held := Kept(Conf(), model.held, wm));
      ok := true;
      assert model == ApplyAdvance(Conf(), before, wm, due);
    }

    method FireAll(timers: seq<DueTimer>) returns (ok: bool)
      requires Valid() && TimersOf(Conf(), timers)
      requires forall i :: 0 <= i < |timers| ==> PanesOf(timers)[i] in model.armed
      modifies this`emitted, this`model, store
      ensures (forall p :: p in old(model).armed ==> p in old(model).held) ==> ok
      ensures ok ==> Valid() && model == old(model).(armed := ArmedWithout(old(model).armed, PanesOf(timers)))
      ensures ok ==> emitted == old(emitted) + EmittedBids(Conf(), bidOf, RowsFor(old(model), PanesOf(timers)))
    {
      hide Represents, WinnerBytes;
      ghost var due := PanesOf(timers);
      ghost var before := model;
      assert ArmedWithout(before.armed, due[..0]) == before.armed;
      assert emitted + EmittedBids(Conf(), bidOf, RowsFor(before, due[..0])) == emitted;
      for i := 0 to |timers|
        invariant Valid() && model == before.(armed := ArmedWithout(before.armed, due[..i]))
        invariant emitted == old(emitted) + EmittedBids(Conf(), bidOf, RowsFor(before, due[..i]))
      {
        DeleteTimer(store, timers[i].stateKey, Conf(), Winners(bidOf), model, due[i]);
        model := model.(armed := model.armed - {due[i]});
        ArmedWithoutOne(before.armed, due, i);
        var done := Fire(timers[i].key, timers[i].start);
        if !done {
          assert due[i] in before.armed && due[i] !in before.held;
          return false;
        }
        RowsForOneMore(before, due, i);
        assert EmittedBids(Conf(), bidOf, RowsFor(before, due[..i + 1])) ==
               EmittedBids(Conf(), bidOf, RowsFor(before, due[..i])) + [EmittedBid(Conf(), bidOf, Row(due[i], HeldFor(before, due[i])))];
      }
      assert due[..|due|] == due;
      ok := true;
    }
  }

  lemma {:induction false} OnePane(c: Config, s: State, rec: Record, p: Pane)
    requires ValidConfig(c)
    ensures ApplyArrive(c, s, rec, [p]) == ApplyOne(c, s, rec, p)
  {
    assert [p][..0] == [];
    assert ApplyArrive(c, s, rec, []) == s;
  }
}
