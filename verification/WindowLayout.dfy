/** How the panes, timers and watermark of a windowed operator lie in its key space, and the scans
    over it that the operators share: collecting the due timers, purging, and reading and writing
    single entries. Each is tied to what it does to the pane map of the window machine. */
module WindowLayout {
  import opened Int64
  import opened Elements
  import opened ByteOrder
  import opened StateStore
  import opened WindowKeys
  import opened WindowMachine

  function PaneKey(p: Pane): Bytes {
    StateKey(p.key, p.start)
  }

  function PaneTimer(c: Config, p: Pane): Bytes
    requires ValidConfig(c)
  {
    TimerKey(FireTime(c, p.start), p.key, p.start)
  }

  /** The window of a timer key. */
  function TimerPane(b: Bytes): Pane
    requires |b| >= TIMER_KEY_MIN_BYTES
  {
    Pane(ParseTimerKey(b).value.key, ParseTimerKey(b).value.start)
  }

  /** Each held pane has one aggregate entry, the encoding of what the operator makes of its
      records, and there are no others. */
  ghost predicate AggregatesStored(enc: seq<Record> -> Bytes, e: map<Bytes, Bytes>, held: map<Pane, seq<Record>>) {
    && (forall p :: PaneKey(p) in e <==> p in held)
    && (forall p :: p in held ==> e[PaneKey(p)] == enc(held[p]))
    && (forall b :: b in e && b != [] && b[0] == USER_STATE ==> |b| >= STATE_KEY_MIN_BYTES)
  }

  ghost predicate TimersStored(c: Config, e: map<Bytes, Bytes>, armed: set<Pane>)
    requires ValidConfig(c)
  {
    && (forall p :: PaneTimer(c, p) in e <==> p in armed)
    && (forall b :: b in e && b != [] && b[0] == TIMER ==> |b| >= TIMER_KEY_MIN_BYTES && b == PaneTimer(c, TimerPane(b)))
  }

  ghost predicate WatermarkStored(e: map<Bytes, Bytes>, wm: int64) {
    && (forall b :: b in e ==> b != [])
    && (forall b :: b in e && b[0] >= OPERATOR_STATE ==> b == WATERMARK_KEY)
    && if WATERMARK_KEY in e then e[WATERMARK_KEY] == EncodeOrderedInt64(wm) else wm == MIN_INT64
  }

  ghost predicate Represents(c: Config, enc: seq<Record> -> Bytes, e: map<Bytes, Bytes>, s: State)
    requires ValidConfig(c)
  {
    AggregatesStored(enc, e, s.held) && TimersStored(c, e, s.armed) && WatermarkStored(e, s.watermark)
  }

  lemma {:induction false} PaneKeysDiffer(p: Pane, q: Pane)
    ensures PaneKey(p) == PaneKey(q) ==> p == q
  {
    StateKeyRoundTrip(p.key, p.start);
    StateKeyRoundTrip(q.key, q.start);
  }

  lemma {:induction false} PaneTimerParses(c: Config, p: Pane)
    requires ValidConfig(c)
    ensures |PaneTimer(c, p)| >= TIMER_KEY_MIN_BYTES
    ensures TimerPane(PaneTimer(c, p)) == p && ParseTimerKey(PaneTimer(c, p)).value.fireTime == FireTime(c, p.start)
  {
    TimerKeyRoundTrip(FireTime(c, p.start), p.key, p.start);
  }

  lemma {:induction false} PaneTimersDiffer(c: Config, p: Pane, q: Pane)
    requires ValidConfig(c)
    ensures PaneTimer(c, p) == PaneTimer(c, q) ==> p == q
  {
    PaneTimerParses(c, p);
    PaneTimerParses(c, q);
  }

  // ----- Writes ----------------------------------------------------------------------------

  lemma {:induction false} PutAggregate(enc: seq<Record> -> Bytes, e: map<Bytes, Bytes>, held: map<Pane, seq<Record>>, p: Pane, h: seq<Record>)
    requires AggregatesStored(enc, e, held)
    ensures AggregatesStored(enc, e[PaneKey(p) := enc(h)], held[p := h])
  {
    forall q ensures PaneKey(p) == PaneKey(q) ==> p == q { PaneKeysDiffer(p, q); }
  }

  lemma {:induction false} DropAggregate(enc: seq<Record> -> Bytes, e: map<Bytes, Bytes>, held: map<Pane, seq<Record>>, p: Pane)
    requires AggregatesStored(enc, e, held)
    ensures AggregatesStored(enc, e - {PaneKey(p)}, held - {p})
  {
    forall q ensures PaneKey(p) == PaneKey(q) ==> p == q { PaneKeysDiffer(p, q); }
  }

  lemma {:induction false} PutTimer(c: Config, e: map<Bytes, Bytes>, armed: set<Pane>, p: Pane)
    requires ValidConfig(c) && TimersStored(c, e, armed)
    ensures TimersStored(c, e[PaneTimer(c, p) := []], armed + {p})
  {
    hide PaneTimer, TimerPane;
    forall q ensures PaneTimer(c, p) == PaneTimer(c, q) ==> p == q { PaneTimersDiffer(c, p, q); }
    PaneTimerParses(c, p);
  }

  lemma {:induction false} DropTimer(c: Config, e: map<Bytes, Bytes>, armed: set<Pane>, p: Pane)
    requires ValidConfig(c) && TimersStored(c, e, armed)
    ensures TimersStored(c, e - {PaneTimer(c, p)}, armed - {p})
  {
    var k := PaneTimer(c, p);
    var e' := e - {k};
    forall q ensures PaneTimer(c, q) in e' <==> q in armed - {p} {
      PaneTimersDiffer(c, p, q);
    }
    forall b | b in e' && b != [] && b[0] == TIMER
      ensures |b| >= TIMER_KEY_MIN_BYTES && b == PaneTimer(c, TimerPane(b))
    {
      assert b in e;
    }
  }

  /** A write to one partition leaves what the others store alone. */
  ghost predicate SamePartition(e: map<Bytes, Bytes>, e': map<Bytes, Bytes>, prefix: Byte) {
    forall b :: b != [] && b[0] == prefix ==> (b in e <==> b in e') && (b in e ==> e[b] == e'[b])
  }

  lemma {:induction false} AggregatesUntouched(enc: seq<Record> -> Bytes, e: map<Bytes, Bytes>, e': map<Bytes, Bytes>, held: map<Pane, seq<Record>>)
    requires AggregatesStored(enc, e, held) && SamePartition(e, e', USER_STATE)
    ensures AggregatesStored(enc, e', held)
  {
    forall p ensures PaneKey(p) in e' <==> p in held {
      assert PaneKey(p)[0] == USER_STATE;
      assert PaneKey(p) in e <==> PaneKey(p) in e';
    }
    forall p | p in held ensures e'[PaneKey(p)] == enc(held[p]) {
      assert PaneKey(p)[0] == USER_STATE;
    }
  }

  lemma {:induction false} TimersUntouched(c: Config, e: map<Bytes, Bytes>, e': map<Bytes, Bytes>, armed: set<Pane>)
    requires ValidConfig(c) && TimersStored(c, e, armed) && SamePartition(e, e', TIMER)
    ensures TimersStored(c, e', armed)
  {
    forall p ensures PaneTimer(c, p) in e' <==> p in armed {
      assert PaneTimer(c, p)[0] == TIMER;
      assert PaneTimer(c, p) in e <==> PaneTimer(c, p) in e';
    }
  }

  /** Only entries under `prefix` changed. */
  ghost predicate OnlyPartition(e: map<Bytes, Bytes>, e': map<Bytes, Bytes>, prefix: Byte) {
    forall b :: b == [] || b[0] != prefix ==> (b in e <==> b in e') && (b in e ==> e[b] == e'[b])
  }

  lemma {:induction false} WatermarkUntouched(e: map<Bytes, Bytes>, e': map<Bytes, Bytes>, wm: int64, prefix: Byte)
    requires WatermarkStored(e, wm) && OnlyPartition(e, e', prefix) && prefix < OPERATOR_STATE
    ensures WatermarkStored(e', wm)
  {
    assert WATERMARK_KEY in e <==> WATERMARK_KEY in e';
    forall b | b in e' ensures b != [] && (b[0] >= OPERATOR_STATE ==> b == WATERMARK_KEY) {
      assert b == [] || b[0] != prefix ==> b in e;
    }
  }

  lemma {:induction false} PutWatermark(e: map<Bytes, Bytes>, old_wm: int64, wm: int64)
    requires WatermarkStored(e, old_wm)
    ensures WatermarkStored(e[WATERMARK_KEY := EncodeOrderedInt64(wm)], wm)
  {}

  /** A single key differs. */
  ghost predicate OnlyKey(e: map<Bytes, Bytes>, e': map<Bytes, Bytes>, k: Bytes) {
    forall b :: b != k ==> (b in e <==> b in e') && (b in e ==> e[b] == e'[b])
  }

  lemma {:induction false} KeyInPartition(e: map<Bytes, Bytes>, e': map<Bytes, Bytes>, k: Bytes, other: Byte)
    requires OnlyKey(e, e', k) && k != [] && k[0] != other
    ensures SamePartition(e, e', other) && OnlyPartition(e, e', k[0])
  {}

  lemma {:induction false} StoreWatermark(c: Config, enc: seq<Record> -> Bytes, e: map<Bytes, Bytes>, s: State, wm: int64)
    requires ValidConfig(c) && Represents(c, enc, e, s)
    ensures Represents(c, enc, e[WATERMARK_KEY := EncodeOrderedInt64(wm)], s.(watermark := wm))
  {
    var e' := e[WATERMARK_KEY := EncodeOrderedInt64(wm)];
    PutWatermark(e, s.watermark, wm);
    AggregatesUntouched(enc, e, e', s.held);
    TimersUntouched(c, e, e', s.armed);
  }

  /** A write under the timer prefix leaves the aggregates and the watermark as they were. */
  lemma {:induction false} TimerWrite(enc: seq<Record> -> Bytes, e: map<Bytes, Bytes>, e': map<Bytes, Bytes>, held: map<Pane, seq<Record>>, wm: int64, k: Bytes)
    requires AggregatesStored(enc, e, held) && WatermarkStored(e, wm)
    requires OnlyKey(e, e', k) && k != [] && k[0] == TIMER
    ensures AggregatesStored(enc, e', held) && WatermarkStored(e', wm)
  {
    KeyInPartition(e, e', k, USER_STATE);
    AggregatesUntouched(enc, e, e', held);
    WatermarkUntouched(e, e', wm, TIMER);
  }

  /** A write under the aggregate prefix leaves the timers and the watermark as they were. */
  lemma {:induction false} AggregateWrite(c: Config, e: map<Bytes, Bytes>, e': map<Bytes, Bytes>, armed: set<Pane>, wm: int64, k: Bytes)
    requires ValidConfig(c) && TimersStored(c, e, armed) && WatermarkStored(e, wm)
    requires OnlyKey(e, e', k) && k != [] && k[0] == USER_STATE
    ensures TimersStored(c, e', armed) && WatermarkStored(e', wm)
  {
    KeyInPartition(e, e', k, TIMER);
    TimersUntouched(c, e, e', armed);
    WatermarkUntouched(e, e', wm, USER_STATE);
  }

  lemma {:induction false} StoreTimer(c: Config, enc: seq<Record> -> Bytes, e: map<Bytes, Bytes>, s: State, p: Pane)
    requires ValidConfig(c) && Represents(c, enc, e, s)
    ensures Represents(c, enc, e[PaneTimer(c, p) := []], s.(armed := s.armed + {p}))
  {
    var k := PaneTimer(c, p);
    PutTimer(c, e, s.armed, p);
    TimerWrite(enc, e, e[k := []], s.held, s.watermark, k);
  }

  lemma {:induction false} RemoveTimer(c: Config, enc: seq<Record> -> Bytes, e: map<Bytes, Bytes>, s: State, p: Pane)
    requires ValidConfig(c) && Represents(c, enc, e, s)
    ensures Represents(c, enc, e - {PaneTimer(c, p)}, s.(armed := s.armed - {p}))
  {
    var k := PaneTimer(c, p);
    DropTimer(c, e, s.armed, p);
    TimerWrite(enc, e, e - {k}, s.held, s.watermark, k);
  }

  lemma {:induction false} StoreAggregate(c: Config, enc: seq<Record> -> Bytes, e: map<Bytes, Bytes>, s: State, p: Pane, h: seq<Record>)
    requires ValidConfig(c) && Represents(c, enc, e, s)
    ensures Represents(c, enc, e[PaneKey(p) := enc(h)], s.(held := s.held[p := h]))
  {
    var k := PaneKey(p);
    PutAggregate(enc, e, s.held, p, h);
    AggregateWrite(c, e, e[k := enc(h)], s.armed, s.watermark, k);
  }

  /** What is stored for one pane. */
  lemma {:induction false} StoredAggregate(c: Config, enc: seq<Record> -> Bytes, e: map<Bytes, Bytes>, s: State, p: Pane)
    requires ValidConfig(c) && Represents(c, enc, e, s)
    ensures PaneKey(p) in e <==> p in s.held
    ensures p in s.held ==> e[PaneKey(p)] == enc(HeldFor(s, p))
  {}

  // ----- Reading the watermark -------------------------------------------------------------

  /** The stored watermark, or the least value before any has arrived. None stands for a value
      too short to decode. */
  method LoadWatermark(m: Memory) returns (wm: Option<int64>)
    ensures forall w: int64 :: WatermarkStored(m.entries, w) ==> wm == Some(w)
    ensures wm.None? <==> WATERMARK_KEY in m.entries && |m.entries[WATERMARK_KEY]| < ORDERED_INT64_BYTES
  {
    if WATERMARK_KEY !in m.entries {
      return Some(MIN_INT64);
    }
    var v := m.entries[WATERMARK_KEY];
    if |v| < ORDERED_INT64_BYTES {
      return None;
    }
    wm := Some(DecodeOrderedInt64(v));
    forall w: int64 | WatermarkStored(m.entries, w) ensures wm == Some(w) {
      OrderedInt64RoundTrip(w, []);
      assert EncodeOrderedInt64(w) + [] == EncodeOrderedInt64(w);
    }
  }

  // ----- Collecting due timers -------------------------------------------------------------

  datatype DueTimer = DueTimer(stateKey: Bytes, key: Bytes, start: int64)

  predicate IsDueKey(b: Bytes, wm: int64) {
    |b| >= TIMER_KEY_MIN_BYTES && b[0] == TIMER && ParseTimerKey(b).value.fireTime <= wm
  }

  /** Once a timer is not due, nothing after it in byte order is. */
  lemma {:induction false} NoneDueAfter(b: Bytes, b': Bytes, wm: int64)
    requires |b| >= TIMER_KEY_MIN_BYTES && b[0] == TIMER && ParseTimerKey(b).value.fireTime > wm
    requires Before(b, b')
    ensures !IsDueKey(b', wm)
  {
    if |b'| >= TIMER_KEY_MIN_BYTES && b'[0] == TIMER {
      var t, t' := ParseTimerKey(b).value, ParseTimerKey(b').value;
      TimerKeyOnto(b);
      TimerKeyOnto(b');
      TimerKeyOrder(t.fireTime, t.key, t.start, t'.fireTime, t'.key, t'.start);
    }
  }

  predicate KeysOf(due: seq<DueTimer>, keys: seq<Bytes>) {
    |keys| == |due| && forall i :: 0 <= i < |due| ==>
      && due[i].stateKey == keys[i] && |keys[i]| >= TIMER_KEY_MIN_BYTES
      && Pane(due[i].key, due[i].start) == TimerPane(keys[i])
  }

  /** Neither of the two keys the scan refuses: an empty one, and a timer too short to parse. */
  predicate Scannable(b: Bytes) {
    b != [] && (b[0] == TIMER ==> |b| >= TIMER_KEY_MIN_BYTES)
  }

  /** Where the scan may stop: past the timers, or at one that is not due. */
  predicate StopsScan(b: Bytes, wm: int64) {
    b != [] && (b[0] > TIMER || (b[0] == TIMER && |b| >= TIMER_KEY_MIN_BYTES && ParseTimerKey(b).value.fireTime > wm))
  }

  /** What the scan has found when it stops is all there is to find. */
  lemma {:induction false} FoundAll(e: map<Bytes, Bytes>, scan: seq<Bytes>, i: nat, keys: seq<Bytes>, wm: int64)
    requires ScanOrder(e, scan) && i <= |scan| && (i < |scan| ==> StopsScan(scan[i], wm))
    requires forall b :: b in keys ==> b in scan[..i]
    requires forall j :: 0 <= j < i ==> (scan[j] in keys <==> IsDueKey(scan[j], wm))
    ensures forall b :: b in keys <==> b in e && IsDueKey(b, wm)
  {
    forall b ensures b in keys <==> b in e && IsDueKey(b, wm) {
      if b in e {
        var j :| 0 <= j < |scan| && scan[j] == b;
        if j >= i {
          NotEarlier(scan, i, j);
          if j > i && scan[i][0] == TIMER {
            NoneDueAfter(scan[i], b, wm);
          }
        }
      }
    }
  }

  /** The scan stops at the first timer that is not due, and still misses none: it returns
      exactly the timers with fire time at or before `wm`, in byte order and so in fire-time
      order, for record keys of any length. */
  method CollectDueTimers(m: Memory, wm: int64) returns (due: Option<seq<DueTimer>>, ghost keys: seq<Bytes>)
    ensures due.None? ==> exists b :: b in m.entries && !Scannable(b)
    ensures due.Some? ==> KeysOf(due.value, keys) && Ascending(keys)
    ensures due.Some? ==> forall b :: b in keys <==> b in m.entries && IsDueKey(b, wm)
  {
    hide DecodeOrderedInt64, ReadInt64, Before;
    var scan := m.SortedKeys();
    var found: seq<DueTimer> := [];
    keys := [];
    var i := 0;
    while i < |scan|
      invariant 0 <= i <= |scan|
      invariant KeysOf(found, keys) && Ascending(keys)
      invariant forall b :: b in keys ==> b in scan[..i]
      invariant forall j :: 0 <= j < i ==> (scan[j] in keys <==> IsDueKey(scan[j], wm))
    {
      var b := scan[i];
      assert b in m.entries;
      if !Scannable(b) {
        return None, keys;
      }
      if b[0] > TIMER {
        break;
      }
      if b[0] == TIMER {
        var t := ParseTimerKey(b).value;
        if t.fireTime > wm {
          assert StopsScan(b, wm);
          break;
        }
        forall x | x in keys ensures Before(x, b) {}
        found := found + [DueTimer(b, t.key, t.start)];
        keys := keys + [b];
      }
      NotRepeated(scan, i);
      i := i + 1;
    }
    FoundAll(m.entries, scan, i, keys, wm);
    due := Some(found);
  }

  lemma {:induction false} NotRepeated(scan: seq<Bytes>, i: nat)
    requires Ascending(scan) && i < |scan|
    ensures scan[i] !in scan[..i]
  {
    BeforeIrreflexive(scan[i]);
  }

  lemma {:induction false} NotEarlier(scan: seq<Bytes>, i: nat, j: nat)
    requires Ascending(scan) && i <= j < |scan|
    ensures scan[j] !in scan[..i]
  {
    BeforeIrreflexive(scan[j]);
  }

  /** Ascending timer keys have non-decreasing fire times. */
  lemma {:induction false} FireTimeOrder(a: Bytes, b: Bytes)
    requires |a| >= TIMER_KEY_MIN_BYTES && a[0] == TIMER && |b| >= TIMER_KEY_MIN_BYTES && b[0] == TIMER && Before(a, b)
    ensures ParseTimerKey(a).value.fireTime <= ParseTimerKey(b).value.fireTime
  {
    var t, t' := ParseTimerKey(a).value, ParseTimerKey(b).value;
    TimerKeyOnto(a);
    TimerKeyOnto(b);
    TimerKeyOrder(t.fireTime, t.key, t.start, t'.fireTime, t'.key, t'.start);
  }

  /** The panes a scan found due. */
  function PanesOf(due: seq<DueTimer>): seq<Pane> {
    seq(|due|, i requires 0 <= i < |due| => Pane(due[i].key, due[i].start))
  }

  /** Read as panes, what the scan finds is exactly what is due. */
  lemma {:induction false} ScanIsDue(c: Config, e: map<Bytes, Bytes>, s: State, wm: int64, due: seq<DueTimer>, keys: seq<Bytes>)
    requires ValidConfig(c) && TimersStored(c, e, s.armed)
    requires KeysOf(due, keys) && Ascending(keys) && forall b :: b in keys <==> b in e && IsDueKey(b, wm)
    ensures IsDue(c, s, wm, PanesOf(due))
    ensures forall i :: 0 <= i < |due| ==> keys[i] == PaneTimer(c, PanesOf(due)[i])
  {
    hide Before, PaneTimer, TimerPane, FireTime, IsDueKey;
    var panes := PanesOf(due);
    forall i | 0 <= i < |due| ensures keys[i] == PaneTimer(c, panes[i]) && panes[i] in s.armed && FireTime(c, panes[i].start) <= wm {
      assert keys[i] in keys;
      DueKeyIs(c, e, s.armed, wm, keys[i]);
      PaneTimerParses(c, panes[i]);
    }
    forall i, j | 0 <= i < j < |due| ensures panes[i] != panes[j] {
      BeforeIrreflexive(keys[i]);
    }
    forall p | p in s.armed && FireTime(c, p.start) <= wm ensures p in panes {
      PaneTimerParses(c, p);
      ArmedIsDueKey(c, e, s.armed, wm, p);
      assert PaneTimer(c, p) in keys;
      var i :| 0 <= i < |keys| && keys[i] == PaneTimer(c, p);
      assert panes[i] == p;
    }
  }

  lemma {:induction false} DueKeyIs(c: Config, e: map<Bytes, Bytes>, armed: set<Pane>, wm: int64, b: Bytes)
    requires ValidConfig(c) && TimersStored(c, e, armed) && b in e && IsDueKey(b, wm)
    ensures |b| >= TIMER_KEY_MIN_BYTES && b == PaneTimer(c, TimerPane(b)) && TimerPane(b) in armed
    ensures FireTime(c, TimerPane(b).start) <= wm
  {
    PaneTimerParses(c, TimerPane(b));
  }

  lemma {:induction false} ArmedIsDueKey(c: Config, e: map<Bytes, Bytes>, armed: set<Pane>, wm: int64, p: Pane)
    requires ValidConfig(c) && TimersStored(c, e, armed) && p in armed && FireTime(c, p.start) <= wm
    ensures PaneTimer(c, p) in e && IsDueKey(PaneTimer(c, p), wm)
  {
    PaneTimerParses(c, p);
  }

  // ----- Purging ---------------------------------------------------------------------------

  /** The panes still held after a scan has purged the keys `done` it has walked so far. */
  ghost function KeptAfter(c: Config, held: map<Pane, seq<Record>>, wm: int64, done: seq<Bytes>): map<Pane, seq<Record>>
    requires ValidConfig(c)
  {
    map p | p in held && !(IsPurged(c, wm, p.start) && PaneKey(p) in done) :: held[p]
  }

  lemma {:induction false} KeptAfterOne(c: Config, held: map<Pane, seq<Record>>, wm: int64, done: seq<Bytes>, p: Pane)
    requires ValidConfig(c)
    ensures KeptAfter(c, held, wm, done + [PaneKey(p)]) ==
            if IsPurged(c, wm, p.start) then KeptAfter(c, held, wm, done) - {p} else KeptAfter(c, held, wm, done)
  {
    forall q ensures PaneKey(q) == PaneKey(p) <==> p == q { PaneKeysDiffer(p, q); }
    assert forall b :: b in done + [PaneKey(p)] <==> b in done || b == PaneKey(p);
  }

  lemma {:induction false} KeptAtFirst(c: Config, held: map<Pane, seq<Record>>, wm: int64)
    requires ValidConfig(c)
    ensures KeptAfter(c, held, wm, []) == held
  {}

  lemma {:induction false} KeptAfterOther(c: Config, held: map<Pane, seq<Record>>, wm: int64, done: seq<Bytes>, all: seq<Bytes>)
    requires ValidConfig(c)
    requires forall p :: p in held ==> PaneKey(p) in all
    requires forall b :: b in all && b !in done ==> b == [] || b[0] != USER_STATE
    ensures KeptAfter(c, held, wm, done) == Kept(c, held, wm)
  {
    forall p | p in held ensures PaneKey(p) in done {
      assert PaneKey(p)[0] == USER_STATE;
    }
  }

  /** One entry of the scan. */
  method PurgeEntry(m: Memory, c: Config, wm: int64, b: Bytes, ghost enc: seq<Record> -> Bytes, ghost held: map<Pane, seq<Record>>, ghost done: seq<Bytes>)
    requires ValidConfig(c) && AggregatesStored(enc, m.entries, KeptAfter(c, held, wm, done))
    requires b in m.entries && b != [] && b[0] == USER_STATE
    modifies m
    ensures AggregatesStored(enc, m.entries, KeptAfter(c, held, wm, done + [b]))
    ensures m.entries == old(m.entries) || m.entries == old(m.entries) - {b}
  {
    var start := WindowStartOf(b).value;
    ghost var p := Pane(b[1..|b| - 8], start);
    StateKeyOnto(b);
    KeptAfterOne(c, held, wm, done, p);
    if IsPurged(c, wm, start) {
      DropAggregate(enc, m.entries, KeptAfter(c, held, wm, done), p);
      m.Delete(b);
    }
  }

  /** Drops the aggregate of every window the watermark has moved past, and nothing else: the
      scan stops at the first key outside the aggregates. */
  method PurgeWindows(m: Memory, c: Config, wm: int64, ghost enc: seq<Record> -> Bytes, ghost held: map<Pane, seq<Record>>)
    requires ValidConfig(c) && AggregatesStored(enc, m.entries, held) && [] !in m.entries
    modifies m
    ensures AggregatesStored(enc, m.entries, Kept(c, held, wm))
    ensures OnlyPartition(old(m.entries), m.entries, USER_STATE)
  {
    hide AggregatesStored, Ascending, KeptAfter, Kept, PaneKey, Before;
    var scan := m.SortedKeys();
    var i := 0;
    KeptAtFirst(c, held, wm);
    assert scan[..0] == [];
    HeldInScan(enc, m.entries, held, scan);
    while i < |scan|
      invariant 0 <= i <= |scan|
      invariant AggregatesStored(enc, m.entries, KeptAfter(c, held, wm, scan[..i]))
      invariant OnlyPartition(old(m.entries), m.entries, USER_STATE)
      invariant forall j :: i <= j < |scan| ==> scan[j] in m.entries && scan[j] != []
    {
      if scan[i][0] != USER_STATE {
        break;
      }
      NotRepeatedLater(scan, i);
      PurgeEntry(m, c, wm, scan[i], enc, held, scan[..i]);
      assert scan[..i + 1] == scan[..i] + [scan[i]];
      i := i + 1;
    }
    RestIsElsewhere(scan, i);
    KeptAfterOther(c, held, wm, scan[..i], scan);
  }

  /** The same on everything an operator stores. */
  method Purged(m: Memory, c: Config, wm: int64, ghost enc: seq<Record> -> Bytes, ghost s: State)
    requires ValidConfig(c) && Represents(c, enc, m.entries, s)
    modifies m
    ensures Represents(c, enc, m.entries, s.(held := Kept(c, s.held, wm)))
  {
    hide AggregatesStored, TimersStored, OnlyPartition, SamePartition;
    ghost var e := m.entries;
    PurgeWindows(m, c, wm, enc, s.held);
    OtherPartition(e, m.entries, USER_STATE, TIMER);
    TimersUntouched(c, e, m.entries, s.armed);
    WatermarkUntouched(e, m.entries, s.watermark, USER_STATE);
  }

  lemma {:induction false} OtherPartition(e: map<Bytes, Bytes>, e': map<Bytes, Bytes>, prefix: Byte, other: Byte)
    requires OnlyPartition(e, e', prefix) && other != prefix
    ensures SamePartition(e, e', other)
  {}

  lemma {:induction false} RestIsElsewhere(scan: seq<Bytes>, i: nat)
    requires Ascending(scan) && i <= |scan| && (i < |scan| ==> scan[i] != [] && scan[i][0] != USER_STATE)
    ensures forall b :: b in scan && b !in scan[..i] ==> b == [] || b[0] != USER_STATE
  {
    forall b | b in scan && b !in scan[..i] ensures b == [] || b[0] != USER_STATE {
      var j :| 0 <= j < |scan| && scan[j] == b;
      assert forall k :: 0 <= k < i ==> scan[..i][k] in scan[..i];
      if i < j {
        assert Before(scan[i], scan[j]);
      }
    }
  }

  lemma {:induction false} HeldInScan(enc: seq<Record> -> Bytes, e: map<Bytes, Bytes>, held: map<Pane, seq<Record>>, scan: seq<Bytes>)
    requires AggregatesStored(enc, e, held) && ScanOrder(e, scan)
    ensures forall p :: p in held ==> PaneKey(p) in scan
  {}

  lemma {:induction false} NotRepeatedLater(scan: seq<Bytes>, i: nat)
    requires Ascending(scan) && i < |scan|
    ensures forall j :: i < j < |scan| ==> scan[j] != scan[i]
  {
    BeforeIrreflexive(scan[i]);
  }

  // ----- What every operator does to its store ----------------------------------------------

  /** The watermark of an operator whose store is in order. */
  method CurrentWatermark(m: Memory, ghost wm: int64) returns (w: int64)
    requires WatermarkStored(m.entries, wm)
    ensures w == wm
  {
    var stored := LoadWatermark(m);
    assert stored == Some(wm);
    w := stored.value;
  }

  method SetWatermark(m: Memory, wm: int64, ghost c: Config, ghost enc: seq<Record> -> Bytes, ghost s: State)
    requires ValidConfig(c) && Represents(c, enc, m.entries, s)
    modifies m
    ensures Represents(c, enc, m.entries, s.(watermark := wm))
  {
    hide Represents;
    StoreWatermark(c, enc, m.entries, s, wm);
    m.Put(WATERMARK_KEY, EncodeOrderedInt64(wm));
  }

  /** Arming a window again rewrites the same key. */
  method ArmTimer(m: Memory, c: Config, key: Bytes, start: int64, ghost enc: seq<Record> -> Bytes, ghost s: State)
    requires ValidConfig(c) && Represents(c, enc, m.entries, s)
    modifies m
    ensures Represents(c, enc, m.entries, s.(armed := s.armed + {Pane(key, start)}))
  {
    hide Represents;
    StoreTimer(c, enc, m.entries, s, Pane(key, start));
    m.Put(TimerKey(FireTime(c, start), key, start), []);
  }

  method DeleteTimer(m: Memory, stateKey: Bytes, ghost c: Config, ghost enc: seq<Record> -> Bytes, ghost s: State, ghost p: Pane)
    requires ValidConfig(c) && Represents(c, enc, m.entries, s) && stateKey == PaneTimer(c, p)
    modifies m
    ensures Represents(c, enc, m.entries, s.(armed := s.armed - {p}))
  {
    hide Represents;
    RemoveTimer(c, enc, m.entries, s, p);
    m.Delete(stateKey);
  }

  /** A due list and the keys it was parsed from. */
  predicate TimersOf(c: Config, timers: seq<DueTimer>)
    requires ValidConfig(c)
  {
    forall i :: 0 <= i < |timers| ==> timers[i].stateKey == PaneTimer(c, PanesOf(timers)[i])
  }

  function TimerKeys(c: Config, due: seq<Pane>): seq<Bytes>
    requires ValidConfig(c)
  {
    seq(|due|, i requires 0 <= i < |due| => PaneTimer(c, due[i]))
  }

  /** Panes fire in the byte order of their timers, which is fire-time order. */
  ghost predicate InFireOrder(c: Config, due: seq<Pane>)
    requires ValidConfig(c)
  {
    Ascending(TimerKeys(c, due))
  }

  lemma {:induction false} FireTimesAscend(c: Config, due: seq<Pane>, i: nat, j: nat)
    requires ValidConfig(c) && InFireOrder(c, due) && i < j < |due|
    ensures FireTime(c, due[i].start) <= FireTime(c, due[j].start)
  {
    PaneTimerParses(c, due[i]);
    PaneTimerParses(c, due[j]);
    assert Before(TimerKeys(c, due)[i], TimerKeys(c, due)[j]);
    FireTimeOrder(PaneTimer(c, due[i]), PaneTimer(c, due[j]));
  }

  method DueTimers(m: Memory, wm: int64, ghost c: Config, ghost s: State) returns (timers: seq<DueTimer>)
    requires ValidConfig(c) && TimersStored(c, m.entries, s.armed) && [] !in m.entries
    ensures IsDue(c, s, wm, PanesOf(timers)) && TimersOf(c, timers) && InFireOrder(c, PanesOf(timers))
  {
    hide Before, PaneTimer, TimersStored, IsDueKey, TimerPane;
    var found, keys := CollectDueTimers(m, wm);
    StoredScannable(c, m.entries, s.armed);
    timers := found.value;
    ScanIsDue(c, m.entries, s, wm, timers, keys);
    assert TimerKeys(c, PanesOf(timers)) == keys;
  }

  lemma {:induction false} StoredScannable(c: Config, e: map<Bytes, Bytes>, armed: set<Pane>)
    requires ValidConfig(c) && TimersStored(c, e, armed) && [] !in e
    ensures forall b :: b in e ==> Scannable(b)
  {}

  /** There is one list of what is due, in the order it fires. */
  lemma {:induction false} DueIsUnique(c: Config, s: State, wm: int64, a: seq<Pane>, b: seq<Pane>)
    requires ValidConfig(c) && IsDue(c, s, wm, a) && IsDue(c, s, wm, b) && InFireOrder(c, a) && InFireOrder(c, b)
    ensures a == b
  {
    hide Ascending, PaneTimer;
    var x, y := TimerKeys(c, a), TimerKeys(c, b);
    forall k ensures k in x <==> k in y {
      if k in x {
        var i :| 0 <= i < |x| && x[i] == k;
        assert a[i] in b;
        var j :| 0 <= j < |b| && b[j] == a[i];
        assert y[j] == k;
      }
      if k in y {
        var i :| 0 <= i < |y| && y[i] == k;
        assert b[i] in a;
        var j :| 0 <= j < |a| && a[j] == b[i];
        assert x[j] == k;
      }
    }
    AscendingUnique(x, y);
    forall i | 0 <= i < |a| ensures a[i] == b[i] {
      assert x[i] == y[i];
      PaneTimersDiffer(c, a[i], b[i]);
    }
  }

  ghost function Listed(keys: set<Bytes>): seq<Bytes> {
    if keys == {} then []
    else
      var k :| k in keys;
      Insert(Listed(keys - {k}), k)
  }

  lemma {:induction false} ListedAscends(keys: set<Bytes>)
    ensures Ascending(Listed(keys)) && forall k :: k in Listed(keys) <==> k in keys
  {
    if keys != {} {
      var k :| k in keys && Listed(keys) == Insert(Listed(keys - {k}), k);
      ListedAscends(keys - {k});
      InsertSorted(Listed(keys - {k}), k);
    }
  }

  /** What a watermark makes due, in the order it fires. */
  ghost function DueInOrder(c: Config, s: State, wm: int64): (due: seq<Pane>)
    requires ValidConfig(c)
    ensures IsDue(c, s, wm, due) && InFireOrder(c, due)
  {
    var keys := Listed(set p | p in s.armed && FireTime(c, p.start) <= wm :: PaneTimer(c, p));
    var due := seq(|keys|, (i: nat) requires i < |keys| => if |keys[i]| >= TIMER_KEY_MIN_BYTES then TimerPane(keys[i]) else Pane([], 0));
    ListedIsDue(c, s, wm, keys, due);
    due
  }

  lemma {:induction false} ListedIsDue(c: Config, s: State, wm: int64, keys: seq<Bytes>, due: seq<Pane>)
    requires ValidConfig(c) && keys == Listed(set p | p in s.armed && FireTime(c, p.start) <= wm :: PaneTimer(c, p))
    requires |due| == |keys| && forall i :: 0 <= i < |keys| && |keys[i]| >= TIMER_KEY_MIN_BYTES ==> due[i] == TimerPane(keys[i])
    ensures IsDue(c, s, wm, due) && InFireOrder(c, due)
  {
    hide PaneTimer, TimerPane, Before, FireTime, Listed;
    var all := set p | p in s.armed && FireTime(c, p.start) <= wm :: PaneTimer(c, p);
    ListedAscends(all);
    forall i | 0 <= i < |keys| ensures due[i] in s.armed && FireTime(c, due[i].start) <= wm && PaneTimer(c, due[i]) == keys[i] {
      assert keys[i] in all;
      var p :| p in s.armed && FireTime(c, p.start) <= wm && PaneTimer(c, p) == keys[i];
      PaneTimerParses(c, p);
    }
    assert TimerKeys(c, due) == keys;
    forall i, j | 0 <= i < j < |due| ensures due[i] != due[j] {
      BeforeIrreflexive(keys[i]);
      assert Before(keys[i], keys[j]);
    }
    forall p | p in s.armed && FireTime(c, p.start) <= wm ensures p in due {
      assert PaneTimer(c, p) in keys;
      var i :| 0 <= i < |keys| && keys[i] == PaneTimer(c, p);
      PaneTimersDiffer(c, p, due[i]);
    }
  }

  // ----- Firing part of a due list -----------------------------------------------------------

  function ArmedWithout(armed: set<Pane>, due: seq<Pane>): set<Pane> {
    set p | p in armed && p !in due
  }

  lemma {:induction false} ArmedWithoutOne(armed: set<Pane>, due: seq<Pane>, i: nat)
    requires i < |due|
    ensures ArmedWithout(armed, due[..i + 1]) == ArmedWithout(armed, due[..i]) - {due[i]}
  {
    assert due[..i + 1] == due[..i] + [due[i]];
  }
}
