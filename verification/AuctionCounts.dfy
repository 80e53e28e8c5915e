/** What passes between the two stages of the hot-items query, and which auctions of a window are
    the hottest. */
module AuctionCounts {
  import opened Int64
  import opened Elements
  import opened WindowKeys
  import opened WindowMachine
  import opened Bids

  datatype AuctionCount = AuctionCount(auction: uint64, count: int64)

  const AUCTION_COUNT_BYTES: nat := 16

  function EncodeAuctionCount(ac: AuctionCount): (b: Bytes)
    ensures |b| == AUCTION_COUNT_BYTES
  {
    Uint64Bytes(ac.auction) + Int64Bytes(ac.count)
  }

  /** Exactly sixteen bytes, not at least. */
  function DecodeAuctionCount(value: Bytes): (ac: Option<AuctionCount>)
    ensures ac.None? <==> |value| != AUCTION_COUNT_BYTES
  {
    if |value| != AUCTION_COUNT_BYTES then None
    else Some(AuctionCount(ReadUint64(value[..8]), ReadInt64(value[8..])))
  }

  lemma {:induction false} AuctionCountRoundTrip(ac: AuctionCount)
    ensures DecodeAuctionCount(EncodeAuctionCount(ac)) == Some(ac)
  {
    var b := EncodeAuctionCount(ac);
    assert b[..8] == Uint64Bytes(ac.auction) && b[8..] == Int64Bytes(ac.count);
    Uint64RoundTrip(ac.auction);
    Int64RoundTrip(ac.count);
  }

  /** The key of a window in the second stage. */
  function WindowKey(start: int64): (b: Bytes)
    ensures |b| == 8
  {
    Int64Bytes(start)
  }

  function WindowKeyStart(key: Bytes): Option<int64> {
    if |key| != 8 then None else Some(ReadInt64(key))
  }

  function HotPane(start: int64): Pane {
    Pane(WindowKey(start), start)
  }

  // ----- Re-keying -------------------------------------------------------------------------

  /** Moves the auction out of the key and the window in; the event time, a window's last instant,
      is how the start is recovered. None stands for a key or value that does not decode. */
  function Rekey(size: int64, rec: Record): Option<Record>
    requires size > 0
  {
    if |rec.key| != 8 then None
    else if |rec.value| < 8 then None
    else Some(Record(WindowKey(SubFloor(rec.eventTime, size - 1)),
                     EncodeAuctionCount(AuctionCount(ReadUint64(rec.key), ReadInt64(rec.value[..8]))),
                     rec.eventTime))
  }

  /** The window comes back from the event time exactly when its end is representable. */
  lemma {:induction false} RekeyRecoversIff(c: Config, start: int64)
    requires ValidConfig(c)
    ensures SubFloor(FireTime(c, start), c.size - 1) == start <==> start + c.size - 1 <= MAX_INT64
  {}

  /** Saturated windows all come back as one: the last whose end is representable. */
  lemma {:induction false} SaturatedWindowsMerge(c: Config, start: int64)
    requires ValidConfig(c) && start + c.size - 1 > MAX_INT64
    ensures SubFloor(FireTime(c, start), c.size - 1) == MAX_INT64 - (c.size - 1)
    ensures FireTime(c, SubFloor(FireTime(c, start), c.size - 1)) == FireTime(c, start)
  {}

  // ----- The counts held for a window -------------------------------------------------------

  /** A later count for an auction replaces the earlier one: it is a re-fire, not an increment. */
  function Latest(rs: seq<Record>): map<uint64, int64> {
    if rs == [] then map[]
    else
      var last := DecodeAuctionCount(rs[|rs| - 1].value);
      if last.None? then Latest(rs[..|rs| - 1])
      else Latest(rs[..|rs| - 1])[last.value.auction := last.value.count]
  }

  lemma {:induction false} LatestAppend(rs: seq<Record>, r: Record)
    requires |r.value| == AUCTION_COUNT_BYTES
    ensures Latest(rs + [r]) == Latest(rs)[DecodeAuctionCount(r.value).value.auction := DecodeAuctionCount(r.value).value.count]
  {
    assert (rs + [r])[..|rs|] == rs;
  }

  /** `winners` are the auctions attaining the maximum count, each once and in ascending order. */
  ghost predicate IsHottest(counts: map<uint64, int64>, max: int64, winners: seq<uint64>) {
    && (forall i, j :: 0 <= i < j < |winners| ==> winners[i] < winners[j])
    && (forall a :: a in winners <==> a in counts && counts[a] == max)
    && (forall a :: a in counts ==> counts[a] <= max)
    && (winners == [] <==> counts == map[])
  }

  /** There is one such answer. */
  lemma {:induction false} HottestUnique(counts: map<uint64, int64>, m: int64, w: seq<uint64>, m': int64, w': seq<uint64>)
    requires IsHottest(counts, m, w) && IsHottest(counts, m', w')
    ensures w == w' && (w != [] ==> m == m')
  {
    if w != [] {
      assert w[0] in w && w'[0] in w';
      assert m == m';
    }
    AscendingUnique(w, w');
  }

  lemma {:induction false} AscendingUnique(a: seq<uint64>, b: seq<uint64>)
    requires forall i, j :: 0 <= i < j < |a| ==> a[i] < a[j]
    requires forall i, j :: 0 <= i < j < |b| ==> b[i] < b[j]
    requires forall x :: x in a <==> x in b
    ensures a == b
  {
    if a == [] {
      assert forall i :: 0 <= i < |b| ==> b[i] in b;
    } else {
      assert a[0] in b;
      assert b[0] in a;
      assert a == [a[0]] + a[1..] && b == [b[0]] + b[1..];
      assert a[0] == b[0];
      forall x ensures x in a[1..] <==> x in b[1..] {
        assert x in a <==> x == a[0] || x in a[1..];
        assert x in b <==> x == b[0] || x in b[1..];
        assert a[0] !in a[1..] && b[0] !in b[1..];
      }
      AscendingUnique(a[1..], b[1..]);
    }
  }

  /** One more auction, above all those seen. */
  lemma {:induction false} HottestStep(counts: map<uint64, int64>, max: int64, winners: seq<uint64>, a: uint64, n: int64)
    requires IsHottest(counts, max, winners) && forall x :: x in counts ==> x < a
    ensures winners == [] || n > max ==> IsHottest(counts[a := n], n, [a])
    ensures winners != [] && n == max ==> IsHottest(counts[a := n], max, winners + [a])
    ensures winners != [] && n < max ==> IsHottest(counts[a := n], max, winners)
  {
    var more := counts[a := n];
    assert a in more && a !in counts;
    if winners == [] || n > max {
      assert forall x :: x in more && x != a ==> more[x] < n;
    } else if n == max {
      forall i | 0 <= i < |winners| ensures winners[i] < a {
        assert winners[i] in winners;
        assert winners[i] in counts;
      }
      assert forall x :: x in winners + [a] <==> x in winners || x == a;
    } else {
      assert forall x :: x in winners <==> x in more && more[x] == max;
      assert more != map[];
    }
  }
}
