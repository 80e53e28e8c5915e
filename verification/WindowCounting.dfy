/** The window count operator on its bytes: whatever the record keys, each call takes the stored
    key space from one state of the window machine to the next. */
module WindowCounting {
  import opened Int64
  import opened Elements
  import opened StateStore
  import opened WindowKeys
  import opened WindowLayout
  import opened WindowMachine
  import opened WindowAssign

  /** The stored aggregate of a pane. */
  function CountOf(rs: seq<Record>): Bytes {
    CountBytes(|rs|)
  }

  /** A fired window: the key unchanged, the count as the value, and the window's last instant as
      the event time. */
  function Emitted(c: Config, row: Row): Record
    requires ValidConfig(c)
  {
    Record(row.pane.key, CountOf(row.records), FireTime(c, row.pane.start))
  }

  function EmittedAll(c: Config, rows: seq<Row>): seq<Record>
    requires ValidConfig(c)
  {
    seq(|rows|, i requires 0 <= i < |rows| => Emitted(c, rows[i]))
  }

  function PanesAt(key: Bytes, starts: seq<int64>): seq<Pane> {
    seq(|starts|, i requires 0 <= i < |starts| => Pane(key, starts[i]))
  }

  function PanesFor(size: int64, slide: int64, rec: Record): seq<Pane>
    requires ValidSpec(size, slide)
  {
    PanesAt(rec.key, WindowsFor(size, slide, rec.eventTime))
  }

  lemma {:induction false} DescendingDistinct(key: Bytes, starts: seq<int64>)
    requires forall i, j :: 0 <= i < j < |starts| ==> starts[i] > starts[j]
    ensures Distinct(PanesAt(key, starts))
  {
    forall i, j | 0 <= i < j < |starts| ensures PanesAt(key, starts)[i] != PanesAt(key, starts)[j] {
      assert starts[i] > starts[j];
    }
  }

  /** The panes of one record are distinct, and it is not past the fire time of any. */
  lemma {:induction false} PanesSound(size: int64, slide: int64, c: Config, rec: Record)
    requires ValidSpec(size, slide) && ValidConfig(c) && c.size == size
    ensures Distinct(PanesFor(size, slide, rec))
    ensures forall p :: p in PanesFor(size, slide, rec) ==> rec.eventTime <= FireTime(c, p.start)
  {
    AssignmentSound(size, slide, rec.eventTime);
    DescendingDistinct(rec.key, WindowsFor(size, slide, rec.eventTime));
    forall p | p in PanesFor(size, slide, rec) ensures rec.eventTime <= FireTime(c, p.start) {
      assert p.start in WindowsFor(size, slide, rec.eventTime);
    }
  }

  lemma {:induction false} ArriveOneMore(c: Config, s: State, rec: Record, panes: seq<Pane>, i: nat)
    requires ValidConfig(c) && i < |panes|
    ensures ApplyArrive(c, s, rec, panes[..i + 1]) == ApplyOne(c, ApplyArrive(c, s, rec, panes[..i]), rec, panes[i])
  {
    assert panes[..i + 1][..i] == panes[..i];
  }

  class WindowCount {
    const size: int64
    const slide: int64
    const lateness: int64
    const store: Memory
    var dropped: nat
    /** What the operator has emitted, oldest first. */
    var emitted: seq<Record>
    ghost var model: State

    ghost function Conf(): Config {
      Config(size, lateness)
    }

    ghost predicate Valid()
      reads this, store
    {
      && ValidConfig(Conf())
      && Represents(Conf(), CountOf, store.entries, model)
      && dropped == model.dropped
    }

    /** What the constructor demands of the specification. */
    ghost predicate WellSpecified() {
      ValidSpec(size, slide)
    }

    constructor (size: int64, slide: int64, lateness: int64)
      requires ValidSpec(size, slide) && lateness >= 0
      ensures Valid() && fresh(store) && store.entries == map[] && model == INITIAL && emitted == [] && WellSpecified()
      ensures this.size == size && this.slide == slide && this.lateness == lateness
    {
      this.size, this.slide, this.lateness := size, slide, lateness;
      store := new Memory();
      dropped, emitted := 0, [];
      model := INITIAL;
    }

    method ProcessElement(rec: Record)
      requires Valid() && WellSpecified()
      modifies this`dropped, this`model, store
      ensures Valid() && model == ApplyArrive(Conf(), old(model), rec, PanesFor(size, slide, rec))
    {
      hide AggregatesStored, TimersStored, WindowsFor, ValidSpec;
      var c := Config(size, lateness);
      var wm := CurrentWatermark(store, model.watermark);
      var starts := CollectWindows(size, slide, rec.eventTime);
      ghost var panes := PanesFor(size, slide, rec);
      ghost var before := model;
      for i := 0 to |starts|
        invariant Valid() && model == ApplyArrive(c, before, rec, panes[..i])
      {
        ArriveOneMore(c, before, rec, panes, i);
        ArriveCounts(c, before, rec, panes[..i]);
        assert panes[i] == Pane(rec.key, starts[i]);
        if IsPurged(c, wm, starts[i]) {
          DropLate();
        } else {
          CountIn(rec, starts[i]);
        }
      }
      assert panes[..|panes|] == panes;
    }

    method DropLate()
      requires Valid()
      modifies this`dropped, this`model
      ensures Valid() && model == old(model).(dropped := old(model).dropped + 1)
    {
      dropped := dropped + 1;
      model := model.(dropped := model.dropped + 1);
    }

    /** Counts the record in one window and arms it. */
    method CountIn(rec: Record, start: int64)
      requires Valid()
      modifies this`model, store
      ensures Valid()
      ensures var p := Pane(rec.key, start);
              model == old(model).(held := old(model).held[p := HeldFor(old(model), p) + [rec]], armed := old(model).armed + {p})
    {
      hide Represents;
      ghost var p := Pane(rec.key, start);
      ghost var was := HeldFor(model, p);
      var key := StateKey(rec.key, start);
      var n := CurrentCount(key, p);
      StoreAggregate(Conf(), CountOf, store.entries, model, p, was + [rec]);
      CountStep(|was|);
      store.Put(key, Int64Bytes(Wrap(n + 1)));
      model := model.(held := model.held[p := was + [rec]]);
      ArmTimer(store, Config(size, lateness), rec.key, start, CountOf, model);
      model := model.(armed := model.armed + {p});
    }

    /** The count stored for one window, or zero if it has none. */
    method CurrentCount(key: Bytes, ghost p: Pane) returns (n: int)
      requires Valid() && key == PaneKey(p)
      ensures n == Wrap(|HeldFor(model, p)|)
    {
      StoredAggregate(Conf(), CountOf, store.entries, model, p);
      if key !in store.entries {
        return 0;
      }
      CountRoundTrip(|HeldFor(model, p)|);
      n := DecodeCount(store.entries[key]).value;
    }

    /** Emits the current count of one window; it fails exactly when the window has no state. */
    method Fire(key: Bytes, start: int64) returns (ok: bool)
      requires Valid()
      modifies this`emitted
      ensures Valid() && (ok <==> Pane(key, start) in model.held)
      ensures emitted == if ok then old(emitted) + [Emitted(Conf(), Row(Pane(key, start), HeldFor(model, Pane(key, start))))]
                         else old(emitted)
    {
      hide Represents, AddCeil;
      ghost var p := Pane(key, start);
      var stateKey := StateKey(key, start);
      StoredAggregate(Conf(), CountOf, store.entries, model, p);
      if stateKey !in store.entries {
        return false;
      }
      var n := CurrentCount(stateKey, p);
      emitted := emitted + [Record(key, Int64Bytes(n), FireTime(Config(size, lateness), start))];
      return true;
    }

    /** Fires every window the watermark completes, in fire-time order, then purges. It fails only
        if some pending timer has lost its window's state, which no run of the machine allows. */
    method ProcessWatermark(wm: int64) returns (ok: bool, ghost due: seq<Pane>)
      requires Valid()
      modifies this`emitted, this`model, store
      ensures (forall p :: p in old(model).armed ==> p in old(model).held) ==> ok
      ensures ok ==> Valid() && IsDue(Conf(), old(model), wm, due) && model == ApplyAdvance(Conf(), old(model), wm, due)
      ensures ok ==> emitted == old(emitted) + EmittedAll(Conf(), RowsFor(old(model), due))
      ensures ok ==> InFireOrder(Conf(), due)
    {
      hide AggregatesStored, TimersStored, InFireOrder, FireTime, IsPurged, EmittedAll;
      ghost var before := model;
      SetWatermark(store, wm, Conf(), CountOf, model);
      model := model.(watermark := wm);
      var timers := DueTimers(store, wm, Conf(), model);
      due := PanesOf(timers);
      assert RowsFor(model, due) == RowsFor(before, due);
      var fired := FireAll(timers);
      if !fired {
        return false, due;
      }
      Purged(store, Config(size, lateness), wm, CountOf, model);
      model := model.(held := Kept(Conf(), model.held, wm));
      ok := true;
      assert model == ApplyAdvance(Conf(), before, wm, due);
    }

    /** Each timer is deleted before its window fires. */
    method FireAll(timers: seq<DueTimer>) returns (ok: bool)
      requires Valid() && TimersOf(Conf(), timers)
      requires forall i :: 0 <= i < |timers| ==> PanesOf(timers)[i] in model.armed
      modifies this`emitted, this`model, store
      ensures (forall p :: p in old(model).armed ==> p in old(model).held) ==> ok
      ensures ok ==> Valid() && model == old(model).(armed := ArmedWithout(old(model).armed, PanesOf(timers)))
      ensures ok ==> emitted == old(emitted) + EmittedAll(Conf(), RowsFor(old(model), PanesOf(timers)))
    {
      hide Represents;
      ghost var due := PanesOf(timers);
      ghost var before := model;
      assert ArmedWithout(before.armed, due[..0]) == before.armed;
      assert emitted + EmittedAll(Conf(), RowsFor(before, due[..0])) == emitted;
      for i := 0 to |timers|
        invariant Valid() && model == before.(armed := ArmedWithout(before.armed, due[..i]))
        invariant emitted == old(emitted) + EmittedAll(Conf(), RowsFor(before, due[..i]))
      {
        DeleteTimer(store, timers[i].stateKey, Conf(), CountOf, model, due[i]);
        model := model.(armed := model.armed - {due[i]});
        ArmedWithoutOne(before.armed, due, i);
        var done := Fire(timers[i].key, timers[i].start);
        if !done {
          assert due[i] in before.armed && due[i] !in before.held;
          return false;
        }
        RowsForOneMore(before, due, i);
        assert EmittedAll(Conf(), RowsFor(before, due[..i + 1])) ==
               EmittedAll(Conf(), RowsFor(before, due[..i])) + [Emitted(Conf(), Row(due[i], HeldFor(before, due[i])))];
      }
      assert due[..|due|] == due;
      ok := true;
    }
  }
}
