/** The key space of the hot-items stage: one entry per window and auction, beside the timers and
    the watermark every windowed operator keeps. The prefix scan that finds each due window's
    maximum and the scan that purges are tied to maps from windows to counts. */
module HotLayout {
  import opened Int64
  import opened Elements
  import opened ByteOrder
  import opened StateStore
  import opened WindowKeys
  import opened WindowLayout
  import opened WindowMachine
  import opened Bids
  import opened AuctionCounts

  const HOT_KEY_BYTES: nat := 17

  function HotKey(start: int64, auction: uint64): (b: Bytes)
    ensures |b| == HOT_KEY_BYTES && b[0] == USER_STATE
  {
    [USER_STATE] + WindowKey(start) + Uint64Bytes(auction)
  }

  datatype HotEntry = HotEntry(windowKey: Bytes, auction: uint64)

  function ParseHotKey(b: Bytes): (h: Option<HotEntry>)
    ensures h.None? <==> |b| != HOT_KEY_BYTES
    ensures h.Some? ==> |h.value.windowKey| == 8
  {
    if |b| != HOT_KEY_BYTES then None else Some(HotEntry(b[1..9], ReadUint64(b[9..])))
  }

  lemma {:induction false} HotKeyRoundTrip(start: int64, auction: uint64)
    ensures ParseHotKey(HotKey(start, auction)) == Some(HotEntry(WindowKey(start), auction))
    ensures WindowKeyStart(WindowKey(start)) == Some(start)
  {
    var b := HotKey(start, auction);
    assert b[1..9] == WindowKey(start) && b[9..] == Uint64Bytes(auction);
    Uint64RoundTrip(auction);
    Int64RoundTrip(start);
  }

  lemma {:induction false} HotKeyOnto(b: Bytes)
    requires |b| == HOT_KEY_BYTES && b[0] == USER_STATE
    ensures HotKey(ReadInt64(b[1..9]), ReadUint64(b[9..])) == b && WindowKey(ReadInt64(b[1..9])) == b[1..9]
  {
    Spans();
    Int64Onto(b[1..9]);
    WriteBack(b[9..]);
    assert b == [b[0]] + b[1..9] + b[9..];
  }

  lemma {:induction false} HotKeysDiffer(s: int64, a: uint64, s': int64, a': uint64)
    ensures HotKey(s, a) == HotKey(s', a') ==> s == s' && a == a'
  {
    HotKeyRoundTrip(s, a);
    HotKeyRoundTrip(s', a');
  }

  /** Within one window, byte order is auction order: that is where the emission order comes
      from. */
  lemma {:induction false} HotKeyOrder(s: int64, a: uint64, a': uint64)
    ensures Before(HotKey(s, a), HotKey(s, a')) <==> a < a'
  {
    Spans();
    var head := [USER_STATE] + WindowKey(s);
    assert HotKey(s, a) == head + Uint64Bytes(a) && HotKey(s, a') == head + Uint64Bytes(a');
    HeadsDecide(head, head, Uint64Bytes(a), Uint64Bytes(a'));
    BigEndianOrder(a, a', 8);
  }

  // ----- What is stored --------------------------------------------------------------------

  /** The counts held for one window. */
  function CountsFor(held: map<Pane, seq<Record>>, start: int64): map<uint64, int64> {
    if HotPane(start) in held then Latest(held[HotPane(start)]) else map[]
  }

  ghost predicate HotStored(e: map<Bytes, Bytes>, held: map<Pane, seq<Record>>) {
    && (forall s: int64, a: uint64 :: HotKey(s, a) in e <==> a in CountsFor(held, s))
    && (forall s: int64, a: uint64 :: a in CountsFor(held, s) ==> e[HotKey(s, a)] == Int64Bytes(CountsFor(held, s)[a]))
    && (forall b :: b in e && b != [] && b[0] == USER_STATE ==> |b| == HOT_KEY_BYTES)
  }

  /** Every window held has a count. */
  ghost predicate HoldsCounts(held: map<Pane, seq<Record>>) {
    forall p :: p in held ==> p == HotPane(p.start) && Latest(held[p]) != map[]
  }

  ghost predicate HotRepresents(c: Config, e: map<Bytes, Bytes>, s: State)
    requires ValidConfig(c)
  {
    && HotStored(e, s.held) && HoldsCounts(s.held)
    && TimersStored(c, e, s.armed) && (forall p :: p in s.armed ==> p == HotPane(p.start))
    && WatermarkStored(e, s.watermark)
  }

  lemma {:induction false} HotUntouched(e: map<Bytes, Bytes>, e': map<Bytes, Bytes>, held: map<Pane, seq<Record>>)
    requires HotStored(e, held) && SamePartition(e, e', USER_STATE)
    ensures HotStored(e', held)
  {
    forall s: int64, a: uint64 ensures HotKey(s, a) in e' <==> a in CountsFor(held, s) {
      assert HotKey(s, a)[0] == USER_STATE;
      assert HotKey(s, a) in e <==> HotKey(s, a) in e';
    }
    forall s: int64, a: uint64 | a in CountsFor(held, s) ensures e'[HotKey(s, a)] == Int64Bytes(CountsFor(held, s)[a]) {
      assert HotKey(s, a)[0] == USER_STATE;
    }
  }

  lemma {:induction false} HotTimerWrite(e: map<Bytes, Bytes>, e': map<Bytes, Bytes>, held: map<Pane, seq<Record>>, wm: int64, k: Bytes)
    requires HotStored(e, held) && WatermarkStored(e, wm)
    requires OnlyKey(e, e', k) && k != [] && k[0] == TIMER
    ensures HotStored(e', held) && WatermarkStored(e', wm)
  {
    KeyInPartition(e, e', k, USER_STATE);
    HotUntouched(e, e', held);
    WatermarkUntouched(e, e', wm, TIMER);
  }

  /** What a record leaves held. */
  function Adding(held: map<Pane, seq<Record>>, start: int64, rec: Record): map<Pane, seq<Record>> {
    held[HotPane(start) := (if HotPane(start) in held then held[HotPane(start)] else []) + [rec]]
  }

  lemma {:induction false} HoldsAfterPut(held: map<Pane, seq<Record>>, start: int64, rec: Record)
    requires HoldsCounts(held) && |rec.value| == AUCTION_COUNT_BYTES
    ensures HoldsCounts(Adding(held, start, rec))
  {
    var p := HotPane(start);
    var was := if p in held then held[p] else [];
    LatestAppend(was, rec);
    assert DecodeAuctionCount(rec.value).value.auction in Latest(was + [rec]);
  }

  /** A stored count replaces the one before it. */
  lemma {:induction false} PutCount(e: map<Bytes, Bytes>, held: map<Pane, seq<Record>>, start: int64, rec: Record, ac: AuctionCount)
    requires HotStored(e, held) && DecodeAuctionCount(rec.value) == Some(ac)
    ensures HotStored(e[HotKey(start, ac.auction) := Int64Bytes(ac.count)], Adding(held, start, rec))
  {
    hide HotStored;
    CountsAfterPut(held, start, rec, ac);
    PutCountStored(e, held, Adding(held, start, rec), start, ac);
  }

  lemma {:induction false} CountsAfterPut(held: map<Pane, seq<Record>>, start: int64, rec: Record, ac: AuctionCount)
    requires DecodeAuctionCount(rec.value) == Some(ac)
    ensures forall s :: CountsFor(Adding(held, start, rec), s) ==
              if s == start then CountsFor(held, s)[ac.auction := ac.count] else CountsFor(held, s)
  {
    LatestAppend(if HotPane(start) in held then held[HotPane(start)] else [], rec);
  }

  lemma {:induction false} PutCountStored(e: map<Bytes, Bytes>, held: map<Pane, seq<Record>>, more: map<Pane, seq<Record>>, start: int64, ac: AuctionCount)
    requires HotStored(e, held)
    requires forall s :: CountsFor(more, s) == if s == start then CountsFor(held, s)[ac.auction := ac.count] else CountsFor(held, s)
    ensures HotStored(e[HotKey(start, ac.auction) := Int64Bytes(ac.count)], more)
  {
    hide CountsFor, HotKey;
    var k := HotKey(start, ac.auction);
    var e' := e[k := Int64Bytes(ac.count)];
    forall s: int64, a: uint64
      ensures (HotKey(s, a) in e' <==> a in CountsFor(more, s)) &&
              (a in CountsFor(more, s) ==> e'[HotKey(s, a)] == Int64Bytes(CountsFor(more, s)[a]))
    {
      HotKeysDiffer(s, a, start, ac.auction);
    }
    assert |k| == HOT_KEY_BYTES;
  }

  // ----- The single scan -------------------------------------------------------------------

  datatype HotWindow = HotWindow(max: int64, winners: seq<uint64>)

  /** The counts of a window among the keys a scan has walked. */
  ghost function SeenCounts(held: map<Pane, seq<Record>>, start: int64, done: seq<Bytes>): map<uint64, int64> {
    map a | a in CountsFor(held, start) && HotKey(start, a) in done :: CountsFor(held, start)[a]
  }

  lemma {:induction false} SeenOneMore(held: map<Pane, seq<Record>>, start: int64, done: seq<Bytes>, s: int64, a: uint64)
    requires a in CountsFor(held, s)
    ensures SeenCounts(held, start, done + [HotKey(s, a)]) ==
            if s == start then SeenCounts(held, start, done)[a := CountsFor(held, s)[a]] else SeenCounts(held, start, done)
  {
    hide CountsFor, HotKey;
    forall x: uint64 | x in CountsFor(held, start)
      ensures HotKey(start, x) in done + [HotKey(s, a)] <==> HotKey(start, x) in done || (start == s && x == a)
    {
      HotKeysDiffer(start, x, s, a);
    }
  }

  lemma {:induction false} SeenAll(e: map<Bytes, Bytes>, held: map<Pane, seq<Record>>, start: int64, scan: seq<Bytes>, i: nat)
    requires HotStored(e, held) && ScanOrder(e, scan) && i <= |scan|
    requires forall b :: b in scan && b !in scan[..i] ==> b == [] || b[0] != USER_STATE
    ensures SeenCounts(held, start, scan[..i]) == CountsFor(held, start)
  {
    forall a | a in CountsFor(held, start) ensures HotKey(start, a) in scan[..i] {
      assert HotKey(start, a) in e;
      assert HotKey(start, a)[0] == USER_STATE;
    }
  }

  /** All auctions of a window seen before a key of that window are below its auction. */
  lemma {:induction false} SeenBelow(held: map<Pane, seq<Record>>, scan: seq<Bytes>, i: nat, s: int64, a: uint64)
    requires Ascending(scan) && i < |scan| && scan[i] == HotKey(s, a)
    ensures forall x :: x in SeenCounts(held, s, scan[..i]) ==> x < a
  {
    hide CountsFor, HotKey;
    forall x | x in SeenCounts(held, s, scan[..i]) ensures x < a {
      var j :| 0 <= j < i && scan[j] == HotKey(s, x);
      assert Before(scan[j], scan[i]);
      HotKeyOrder(s, x, a);
    }
  }

  /** How the scan updates a window it meets another count of. */
  function Meet(w: HotWindow, a: uint64, n: int64): HotWindow {
    if |w.winners| == 0 || n > w.max then HotWindow(n, [a])
    else if n == w.max then HotWindow(w.max, w.winners + [a])
    else w
  }

  /** The windows being maximised, part way through a scan. */
  ghost predicate Maxima(held: map<Pane, seq<Record>>, done: seq<Bytes>, best: map<Bytes, HotWindow>) {
    forall s: int64 :: WindowKey(s) in best ==>
      IsHottest(SeenCounts(held, s, done), best[WindowKey(s)].max, best[WindowKey(s)].winners)
  }

  lemma {:induction false} MaximaAtFirst(held: map<Pane, seq<Record>>, best: map<Bytes, HotWindow>)
    requires forall k :: k in best ==> best[k] == HotWindow(0, [])
    ensures Maxima(held, [], best)
  {
    forall s: int64 | WindowKey(s) in best
      ensures IsHottest(SeenCounts(held, s, []), best[WindowKey(s)].max, best[WindowKey(s)].winners)
    {
      assert SeenCounts(held, s, []) == map[];
    }
  }

  lemma {:induction false} WindowKeysDiffer(s: int64, s': int64)
    ensures WindowKey(s) == WindowKey(s') ==> s == s'
  {
    Int64RoundTrip(s);
    Int64RoundTrip(s');
  }

  lemma {:induction false} MaximaStep(held: map<Pane, seq<Record>>, scan: seq<Bytes>, i: nat, best: map<Bytes, HotWindow>, s: int64, a: uint64)
    requires Ascending(scan) && i < |scan| && scan[i] == HotKey(s, a) && a in CountsFor(held, s)
    requires Maxima(held, scan[..i], best)
    ensures var k, n := WindowKey(s), CountsFor(held, s)[a];
            Maxima(held, scan[..i + 1], if k in best then best[k := Meet(best[k], a, n)] else best)
  {
    hide CountsFor, HotKey, WindowKey, SeenCounts, IsHottest, Ascending;
    var k, n := WindowKey(s), CountsFor(held, s)[a];
    var best' := if k in best then best[k := Meet(best[k], a, n)] else best;
    assert scan[..i + 1] == scan[..i] + [scan[i]];
    forall s': int64 | WindowKey(s') in best'
      ensures IsHottest(SeenCounts(held, s', scan[..i + 1]), best'[WindowKey(s')].max, best'[WindowKey(s')].winners)
    {
      SeenOneMore(held, s', scan[..i], s, a);
      WindowKeysDiffer(s', s);
      if s' == s {
        SeenBelow(held, scan, i, s, a);
        HottestStep(SeenCounts(held, s, scan[..i]), best[k].max, best[k].winners, a, n);
      }
    }
  }

  /** One pass over the aggregates finds every due window's maximum together, the same as a
      separate maximum for each. */
  method FindHottest(m: Memory, due: seq<DueTimer>, ghost held: map<Pane, seq<Record>>) returns (best: map<Bytes, HotWindow>)
    requires HotStored(m.entries, held) && [] !in m.entries
    ensures best.Keys == set t | t in due :: t.key
    ensures forall s: int64 :: WindowKey(s) in best ==>
              IsHottest(CountsFor(held, s), best[WindowKey(s)].max, best[WindowKey(s)].winners)
  {
    hide IsHottest, Ascending, HotStored, SeenCounts, CountsFor, HotKey, WindowKey, Before, Meet;
    best := map t | t in due :: t.key := HotWindow(0, []);
    var scan := m.SortedKeys();
    MaximaAtFirst(held, best);
    var i := 0;
    assert scan[..0] == [];
    while i < |scan|
      invariant 0 <= i <= |scan|
      invariant best.Keys == set t | t in due :: t.key
      invariant Maxima(held, scan[..i], best)
    {
      var b := scan[i];
      assert b in m.entries && b != [];
      if b[0] != USER_STATE {
        break;
      }
      var entry, n := ReadEntry(m, b, held);
      ghost var s := ReadInt64(entry.windowKey);
      MaximaStep(held, scan, i, best, s, entry.auction);
      if entry.windowKey in best {
        best := best[entry.windowKey := Meet(best[entry.windowKey], entry.auction, n)];
      }
      i := i + 1;
    }
    RestIsElsewhere(scan, i);
    forall s: int64 | WindowKey(s) in best
      ensures IsHottest(CountsFor(held, s), best[WindowKey(s)].max, best[WindowKey(s)].winners)
    {
      SeenAll(m.entries, held, s, scan, i);
    }
  }

  method ReadEntry(m: Memory, b: Bytes, ghost held: map<Pane, seq<Record>>) returns (entry: HotEntry, n: int64)
    requires HotStored(m.entries, held) && b in m.entries && b != [] && b[0] == USER_STATE
    ensures |entry.windowKey| == 8
    ensures var s := ReadInt64(entry.windowKey);
            && b == HotKey(s, entry.auction) && WindowKey(s) == entry.windowKey
            && entry.auction in CountsFor(held, s) && n == CountsFor(held, s)[entry.auction]
  {
    hide Latest, IsHottest, BigEndian, ReadBigEndian, Wrap, ToUint64, Before;
    entry := ParseHotKey(b).value;
    HotKeyOnto(b);
    ghost var s := ReadInt64(entry.windowKey);
    assert entry.auction in CountsFor(held, s);
    Int64RoundTrip(CountsFor(held, s)[entry.auction]);
    var v := m.entries[b];
    assert v[..8] == v;
    n := DecodeCount(v).value;
  }

  // ----- Purging ---------------------------------------------------------------------------

  /** The window start is read out of the window key, which leads, and not off the end of the key,
      where the auction is. */
  predicate PurgedKey(c: Config, wm: int64, b: Bytes)
    requires ValidConfig(c)
  {
    |b| == HOT_KEY_BYTES && b[0] == USER_STATE && IsPurged(c, wm, ReadInt64(b[1..9]))
  }

  method PurgeHot(m: Memory, c: Config, wm: int64, ghost held: map<Pane, seq<Record>>)
    requires ValidConfig(c) && HotStored(m.entries, held) && [] !in m.entries
    modifies m
    ensures HotStored(m.entries, Kept(c, held, wm)) && OnlyPartition(old(m.entries), m.entries, USER_STATE)
  {
    hide Before, IsPurged;
    var scan := m.SortedKeys();
    ghost var e := m.entries;
    var i := 0;
    while i < |scan|
      invariant 0 <= i <= |scan|
      invariant forall b :: b in m.entries <==> b in e && !(b in scan[..i] && PurgedKey(c, wm, b))
      invariant forall b :: b in m.entries ==> m.entries[b] == e[b]
    {
      var b := scan[i];
      assert b in e && b != [];
      if b[0] != USER_STATE {
        break;
      }
      var windowKey := ParseHotKey(b).value.windowKey;
      if IsPurged(c, wm, WindowKeyStart(windowKey).value) {
        m.Delete(b);
      }
      assert forall x :: x in scan[..i + 1] <==> x in scan[..i] || x == b;
      i := i + 1;
    }
    RestIsElsewhere(scan, i);
    HotAfterPurge(e, m.entries, c, wm, held);
  }

  lemma {:induction false} HotAfterPurge(e: map<Bytes, Bytes>, e': map<Bytes, Bytes>, c: Config, wm: int64, held: map<Pane, seq<Record>>)
    requires ValidConfig(c) && HotStored(e, held)
    requires forall b :: b in e' <==> b in e && !PurgedKey(c, wm, b)
    requires forall b :: b in e' ==> e'[b] == e[b]
    ensures HotStored(e', Kept(c, held, wm)) && OnlyPartition(e, e', USER_STATE)
  {
    hide IsPurged, HotKey, Latest;
    forall s: int64, a: uint64
      ensures (HotKey(s, a) in e' <==> a in CountsFor(Kept(c, held, wm), s)) &&
              (a in CountsFor(Kept(c, held, wm), s) ==> e'[HotKey(s, a)] == Int64Bytes(CountsFor(Kept(c, held, wm), s)[a]))
    {
      HotKeyRoundTrip(s, a);
      assert PurgedKey(c, wm, HotKey(s, a)) <==> IsPurged(c, wm, s);
    }
  }
}
