/** What the hot-items query makes of the rows of its count: how they are re-keyed, the counts a
    window is ranked on, and the rows that come out of a window. */
module RankedCounts {
  import opened Int64
  import opened Elements
  import opened WindowKeys
  import opened WindowCounting
  import opened WindowMachine
  import opened WindowOperators
  import opened WindowVertices
  import opened Vertices
  import opened Bids
  import opened AuctionCounts
  import opened HotLayout
  import opened HotItemCounting
  import opened HotItemStream
  import ByteOrder

  /** A row of the count as the ranking stage receives it. */
  function RekeyedRow(c: Config, row: Row): Record
    requires ValidConfig(c)
  {
    var out := Rekey(c.size, Emitted(c, row));
    if out.Some? then out.value else Emitted(c, row)
  }

  function AllRekeyed(c: Config, rows: seq<Row>): seq<Record>
    requires ValidConfig(c)
  {
    seq(|rows|, i requires 0 <= i < |rows| => RekeyedRow(c, rows[i]))
  }

  /** Rows are for auctions and windows whose end is representable. */
  ghost predicate OrdinaryRow(c: Config, row: Row)
    requires ValidConfig(c)
  {
    |row.pane.key| == 8 && row.pane.start + c.size - 1 <= MAX_INT64
  }

  // ----- The re-key ------------------------------------------------------------------------

  /** The re-key between the two stages. */
  function Rekeying(size: int64): Record -> Option<Record>
    requires size > 0
  {
    (rec: Record) => Rekey(size, rec)
  }

  lemma {:induction false} RekeyKeepsTimes(size: int64)
    requires size > 0
    ensures KeepsEventTimes(Rekeying(size))
  {}

  lemma {:induction false} RowRekeys(c: Config, row: Row)
    requires ValidConfig(c) && OrdinaryRow(c, row)
    ensures Rekey(c.size, Emitted(c, row)) == Some(RekeyedRow(c, row))
  {
    hide FireTime;
    CountRoundTrip(|row.records|);
  }

  /** No row of the count is refused by it. */
  lemma {:induction false} RowsRekey(c: Config, rows: seq<Row>)
    requires ValidConfig(c) && forall i :: 0 <= i < |rows| ==> OrdinaryRow(c, rows[i])
    ensures forall rec :: rec in EmittedAll(c, rows) ==> Rekey(c.size, rec).Some?
    ensures MapRecords(Rekeying(c.size), EmittedAll(c, rows)) == AllRekeyed(c, rows)
  {
    hide Emitted, Rekey, RekeyedRow, OrdinaryRow, MapRecords;
    if rows == [] {
      NothingMapped(Rekeying(c.size));
    } else {
      var n := |rows| - 1;
      RowsRekey(c, rows[..n]);
      RowRekeys(c, rows[n]);
      OneMoreMapped(Rekeying(c.size), EmittedAll(c, rows[..n]), Emitted(c, rows[n]));
      assert EmittedAll(c, rows) == EmittedAll(c, rows[..n]) + [Emitted(c, rows[n])];
      assert AllRekeyed(c, rows) == AllRekeyed(c, rows[..n]) + [RekeyedRow(c, rows[n])];
    }
  }

  lemma {:induction false} RekeyedIs(c: Config, row: Row)
    requires ValidConfig(c) && OrdinaryRow(c, row)
    ensures RekeyedRow(c, row) ==
            Record(WindowKey(row.pane.start),
                   EncodeAuctionCount(AuctionCount(ReadUint64(row.pane.key), Wrap(|row.records|))),
                   FireTime(c, row.pane.start))
  {
    RekeyRecoversIff(c, row.pane.start);
    CountRoundTrip(|row.records|);
  }

  function OfAuction(s: int64, a: uint64): Record -> bool {
    (r: Record) => r.key == WindowKey(s) && DecodeAuctionCount(r.value).Some? && DecodeAuctionCount(r.value).value.auction == a
  }

  /** The re-keyed records of an auction in a window are the count's rows for it. */
  lemma {:induction false} RekeyedOfAuction(c: Config, rows: seq<Row>, s: int64, a: uint64)
    requires ValidConfig(c) && forall i :: 0 <= i < |rows| ==> OrdinaryRow(c, rows[i])
    ensures Select(AllRekeyed(c, rows), OfAuction(s, a)) == AllRekeyed(c, RowsOf(rows, Pane(Uint64Bytes(a), s)))
  {
    hide RekeyedRow, OrdinaryRow;
    if rows != [] {
      var init, last := rows[..|rows| - 1], rows[|rows| - 1];
      RekeyedOfAuction(c, init, s, a);
      assert AllRekeyed(c, rows)[..|rows| - 1] == AllRekeyed(c, init);
      RowOfAuction(c, last, s, a);
      var own := RowsOf(init, Pane(Uint64Bytes(a), s));
      assert AllRekeyed(c, own + [last]) == AllRekeyed(c, own) + [RekeyedRow(c, last)];
    }
  }

  lemma {:induction false} RowOfAuction(c: Config, row: Row, s: int64, a: uint64)
    requires ValidConfig(c) && OrdinaryRow(c, row)
    ensures OfAuction(s, a)(RekeyedRow(c, row)) <==> row.pane == Pane(Uint64Bytes(a), s)
  {
    hide FireTime;
    RekeyedIs(c, row);
    AuctionCountRoundTrip(AuctionCount(ReadUint64(row.pane.key), Wrap(|row.records|)));
    WindowKeysDiffer(row.pane.start, s);
    Uint64RoundTrip(a);
    Uint64Onto(row.pane.key);
  }

  lemma {:induction false} Uint64Onto(b: Bytes)
    requires |b| == 8
    ensures Uint64Bytes(ReadUint64(b)) == b
  {
    ByteOrder.Spans();
    ByteOrder.WriteBack(b);
  }

  /** The ranking stage refuses nothing of it. */
  lemma {:induction false} RekeyedIsAccepted(c: Config, lateness: int64, rows: seq<Row>, rec: Record)
    requires ValidConfig(c) && lateness >= 0 && forall i :: 0 <= i < |rows| ==> OrdinaryRow(c, rows[i])
    requires rec in AllRekeyed(c, rows)
    ensures !Refuses(Config(c.size, lateness), rec)
    ensures exists s: int64 :: rec.key == WindowKey(s) && s + c.size - 1 <= MAX_INT64
  {
    var i :| 0 <= i < |rows| && AllRekeyed(c, rows)[i] == rec;
    RekeyedIs(c, rows[i]);
    Int64RoundTrip(rows[i].pane.start);
  }

  // ----- The counts a window is ranked on ----------------------------------------------------

  /** The latest count of an auction is that of the last record naming it. */
  lemma {:induction false} LatestOfAuction(rs: seq<Record>, s: int64, a: uint64)
    requires forall r :: r in rs ==> r.key == WindowKey(s)
    ensures var own := Select(rs, OfAuction(s, a));
            && (forall r :: r in own ==> |r.value| == AUCTION_COUNT_BYTES)
            && (a in Latest(rs) <==> own != [])
            && (own != [] ==> Latest(rs)[a] == DecodeAuctionCount(own[|own| - 1].value).value.count)
  {
    hide WindowKey, ReadUint64, ReadInt64;
    if rs != [] {
      LatestOfAuction(rs[..|rs| - 1], s, a);
    }
  }

  lemma {:induction false} OneOfBag(rs: seq<Record>, r: Record)
    requires multiset(rs) == multiset([r])
    ensures rs == [r]
  {
    assert |multiset(rs)| == |rs|;
    assert rs[0] in multiset(rs);
  }

  function KeyedBy(s: int64): Record -> bool {
    (r: Record) => r.key == WindowKey(s)
  }

  /** Of the records re-keyed to a window, those of one auction are its rows in the count. */
  lemma {:induction false} OwnRecords(c: Config, rows: seq<Row>, s: int64, a: uint64, rs: seq<Record>)
    requires ValidConfig(c) && forall i :: 0 <= i < |rows| ==> OrdinaryRow(c, rows[i])
    requires multiset(rs) == multiset(Select(AllRekeyed(c, rows), KeyedBy(s)))
    ensures forall r :: r in rs ==> r.key == WindowKey(s)
    ensures multiset(Select(rs, OfAuction(s, a))) == multiset(AllRekeyed(c, RowsOf(rows, Pane(Uint64Bytes(a), s))))
  {
    hide RekeyedRow, WindowKey, Select, RowsOf, OrdinaryRow;
    var mid := AllRekeyed(c, rows);
    forall r | r in rs ensures r.key == WindowKey(s) {
      assert r in multiset(rs);
      SelectCount(mid, KeyedBy(s), r);
    }
    SelectBag(rs, Select(mid, KeyedBy(s)), OfAuction(s, a));
    SelectTwice(mid, KeyedBy(s), OfAuction(s, a));
    RekeyedOfAuction(c, rows, s, a);
  }

  /** If the count has one row of `n` records for an auction in a window, that is the count the
      window ranks the auction by, in whatever order the rows came in. */
  lemma {:induction false} RankedOnCounts(c: Config, rows: seq<Row>, s: int64, a: uint64, rs: seq<Record>, n: nat)
    requires ValidConfig(c) && forall i :: 0 <= i < |rows| ==> OrdinaryRow(c, rows[i])
    requires multiset(rs) == multiset(Select(AllRekeyed(c, rows), KeyedBy(s)))
    requires var own := RowsOf(rows, Pane(Uint64Bytes(a), s));
             && |own| == (if n > 0 then 1 else 0)
             && forall row :: row in own ==> row.pane == Pane(Uint64Bytes(a), s) && |row.records| == n && OrdinaryRow(c, row)
    requires n <= MAX_INT64
    ensures a in Latest(rs) <==> n > 0
    ensures a in Latest(rs) ==> Latest(rs)[a] == n
  {
    hide RekeyedRow, WindowKey, Select, RowsOf, Latest, OfAuction, FireTime, OrdinaryRow;
    var own := RowsOf(rows, Pane(Uint64Bytes(a), s));
    OwnRecords(c, rows, s, a, rs);
    LatestOfAuction(rs, s, a);
    if n == 0 {
      NoneOfBag(Select(rs, OfAuction(s, a)));
    } else {
      assert own[0] in own;
      assert AllRekeyed(c, own) == [RekeyedRow(c, own[0])];
      OneOfBag(Select(rs, OfAuction(s, a)), RekeyedRow(c, own[0]));
      RekeyedIs(c, own[0]);
      AuctionCountRoundTrip(AuctionCount(ReadUint64(own[0].pane.key), Wrap(n)));
      Uint64RoundTrip(a);
    }
  }

  /** A record that is not refused is ranked in the window its key names. */
  lemma {:induction false} RankedByKey(size: int64, lateness: int64, rec: Record, s: int64)
    requires size > 0 && lateness >= 0 && !Refuses(Config(size, lateness), rec)
    ensures Given(Ranking(size, lateness), HotPane(s))(rec) <==> rec.key == WindowKey(s)
  {
    Int64RoundTrip(s);
    Int64Onto(rec.key);
  }

  lemma {:induction false} GivenIsKeyedBy(c: Config, lateness: int64, rows: seq<Row>, s: int64)
    requires ValidConfig(c) && lateness >= 0 && forall i :: 0 <= i < |rows| ==> OrdinaryRow(c, rows[i])
    ensures Select(AllRekeyed(c, rows), Given(Ranking(c.size, lateness), HotPane(s))) == Select(AllRekeyed(c, rows), KeyedBy(s))
  {
    hide RekeyedRow, WindowKey, Refuses, OrdinaryRow, Given;
    forall r | r in AllRekeyed(c, rows) ensures Given(Ranking(c.size, lateness), HotPane(s))(r) == KeyedBy(s)(r) {
      RekeyedIsAccepted(c, lateness, rows, r);
      RankedByKey(c.size, lateness, r, s);
    }
    SelectSame(AllRekeyed(c, rows), Given(Ranking(c.size, lateness), HotPane(s)), KeyedBy(s));
  }

  // ----- The rows of a window --------------------------------------------------------------------

  function AtTime(t: int64): Record -> bool {
    (r: Record) => r.eventTime == t
  }

  lemma {:induction false} SelectAllOrNone(rs: seq<Record>, keep: Record -> bool, all: bool)
    requires forall r :: r in rs ==> keep(r) == all
    ensures Select(rs, keep) == if all then rs else []
  {
    if rs != [] {
      SelectAllOrNone(rs[..|rs| - 1], keep, all);
    }
  }

  lemma {:induction false} RowAtTime(c: Config, row: Row, t: int64)
    requires ValidConfig(c) && row.pane.start + c.size - 1 <= MAX_INT64
    ensures Select(RankedRow(c, row), AtTime(t)) == if row.pane.start + c.size - 1 == t then RankedRow(c, row) else []
  {
    SelectAllOrNone(RankedRow(c, row), AtTime(t), row.pane.start + c.size - 1 == t);
  }

  lemma {:induction false} OneMoreEmits(emits: Row -> seq<Record>, rows: seq<Row>, row: Row)
    ensures EmitRows(emits, rows + [row]) == EmitRows(emits, rows) + emits(row)
  {
    assert (rows + [row])[..|rows|] == rows;
  }

  /** The windows a row can be for: each its own key, and with a representable end. */
  predicate OrdinaryWindow(c: Config, row: Row) {
    row.pane == HotPane(row.pane.start) && row.pane.start + c.size - 1 <= MAX_INT64
  }

  /** The rows that come out at one moment are those of the one window that ends then, if there can
      be such a window. */
  lemma {:induction false} RowsAtTime(c: Config, rows: seq<Row>, t: int64)
    requires ValidConfig(c) && forall i :: 0 <= i < |rows| ==> OrdinaryWindow(c, rows[i])
    ensures var s := t - (c.size - 1);
            Select(EmitRows(RankEmits(c), rows), AtTime(t)) == if s < MIN_INT64 then [] else EmitRows(RankEmits(c), RowsOf(rows, HotPane(s)))
  {
    hide WindowKey, RankedRow, EmitRows, Select, AtTime, RowsOf;
    if rows == [] {
      NoRowsAtAll(c, t);
    } else {
      var init, last := rows[..|rows| - 1], rows[|rows| - 1];
      RowsAtTime(c, init, t);
      assert rows == init + [last];
      OneMoreEmits(RankEmits(c), init, last);
      SelectConcat(EmitRows(RankEmits(c), init), RankedRow(c, last), AtTime(t));
      RowAtTime(c, last, t);
      var s := t - (c.size - 1);
      if s >= MIN_INT64 {
        OneMoreOf(init, last, HotPane(s));
        OneMoreEmits(RankEmits(c), RowsOf(init, HotPane(s)), last);
      }
    }
  }

  lemma {:induction false} OneMoreOf(rows: seq<Row>, row: Row, p: Pane)
    ensures RowsOf(rows + [row], p) == if row.pane == p then RowsOf(rows, p) + [row] else RowsOf(rows, p)
  {
    assert (rows + [row])[..|rows|] == rows;
  }

  lemma {:induction false} NoRowsAtAll(c: Config, t: int64)
    requires ValidConfig(c)
    ensures EmitRows(RankEmits(c), []) == [] && Select([], AtTime(t)) == [] && forall p :: RowsOf([], p) == []
  {}
}
