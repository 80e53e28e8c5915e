/** The winning bid of a window, and the rule that picks it: price, then bidder, then auction. The
    rule is a strict total order, so the winner does not depend on the order of arrival. */
module Bids {
  import opened Int64
  import opened Elements
  import opened ByteOrder

  type uint64 = n: int | 0 <= n < TWO_64

  datatype WinningBid = WinningBid(price: uint64, bidder: uint64, auction: uint64)

  /** What decoding a record yields. Persons and auctions share the stream with bids and are
      ordinary; a value that does not decode is an error. */
  datatype Parsed = Bid(bid: WinningBid) | NotABid | Malformed

  /** The highest price wins, then the lowest bidder, then the lowest auction. */
  predicate BetterBid(a: WinningBid, b: WinningBid) {
    if a.price != b.price then a.price > b.price
    else if a.bidder != b.bidder then a.bidder < b.bidder
    else a.auction < b.auction
  }

  /** The winner of a non-empty list, as bids are folded in one by one: a bid replaces the one
      held only if it beats it. */
  function Best(bids: seq<WinningBid>): WinningBid
    requires bids != []
  {
    if |bids| == 1 then bids[0]
    else
      var held := Best(bids[..|bids| - 1]);
      if BetterBid(bids[|bids| - 1], held) then bids[|bids| - 1] else held
  }

  /** A strict total order. */
  lemma {:induction false} BetterBidIsATotalOrder(a: WinningBid, b: WinningBid, c: WinningBid)
    ensures !BetterBid(a, a)
    ensures BetterBid(a, b) && BetterBid(b, c) ==> BetterBid(a, c)
    ensures a == b || BetterBid(a, b) || BetterBid(b, a)
    ensures !(BetterBid(a, b) && BetterBid(b, a))
  {}

  lemma {:induction false} BestBeatsAll(bids: seq<WinningBid>)
    requires bids != []
    ensures Best(bids) in bids
    ensures forall b :: b in bids ==> b == Best(bids) || BetterBid(Best(bids), b)
  {
    if |bids| > 1 {
      var init, last := bids[..|bids| - 1], bids[|bids| - 1];
      BestBeatsAll(init);
      forall b | b in bids ensures b == Best(bids) || BetterBid(Best(bids), b) {
        assert b in init || b == last;
        BetterBidIsATotalOrder(last, Best(init), b);
      }
    }
  }

  /** The winner does not depend on the order bids arrived in. */
  lemma {:induction false} BestOfAnyOrder(a: seq<WinningBid>, b: seq<WinningBid>)
    requires a != [] && multiset(a) == multiset(b)
    ensures b != [] && Best(a) == Best(b)
  {
    assert a[0] in multiset(b);
    BestBeatsAll(a);
    BestBeatsAll(b);
    assert Best(a) in multiset(b) && Best(b) in multiset(a);
    BetterBidIsATotalOrder(Best(a), Best(b), Best(a));
  }

  // ----- Bids of records -------------------------------------------------------------------

  function BidsOf(bidOf: Record -> Parsed, rs: seq<Record>): seq<WinningBid> {
    if rs == [] then []
    else if bidOf(rs[|rs| - 1]).Bid? then BidsOf(bidOf, rs[..|rs| - 1]) + [bidOf(rs[|rs| - 1]).bid]
    else BidsOf(bidOf, rs[..|rs| - 1])
  }

  lemma {:induction false} BidsOfAppend(bidOf: Record -> Parsed, rs: seq<Record>, r: Record)
    ensures BidsOf(bidOf, rs + [r]) == if bidOf(r).Bid? then BidsOf(bidOf, rs) + [bidOf(r).bid] else BidsOf(bidOf, rs)
  {
    assert (rs + [r])[..|rs|] == rs;
  }

  lemma {:induction false} BidsOfConcat(bidOf: Record -> Parsed, a: seq<Record>, b: seq<Record>)
    ensures BidsOf(bidOf, a + b) == BidsOf(bidOf, a) + BidsOf(bidOf, b)
  {
    if b == [] {
      assert a + b == a;
    } else {
      BidsOfConcat(bidOf, a, b[..|b| - 1]);
      assert (a + b)[..|a + b| - 1] == a + b[..|b| - 1];
    }
  }

  /** Rearranged records give rearranged bids. */
  lemma {:induction false} BidsOfAnyOrder(bidOf: Record -> Parsed, a: seq<Record>, b: seq<Record>)
    requires multiset(a) == multiset(b)
    ensures multiset(BidsOf(bidOf, a)) == multiset(BidsOf(bidOf, b))
    decreases |a|
  {
    if a == [] {
      assert |multiset(b)| == 0;
    } else {
      var init, r := a[..|a| - 1], a[|a| - 1];
      assert a == init + [r];
      assert r in multiset(b);
      var i :| 0 <= i < |b| && b[i] == r;
      Removed(b, i);
      assert multiset(init) == multiset(a) - multiset{r};
      BidsOfAnyOrder(bidOf, init, b[..i] + b[i + 1..]);
      BidsWithout(bidOf, b, i);
    }
  }

  lemma {:induction false} Removed(b: seq<Record>, i: nat)
    requires i < |b|
    ensures multiset(b[..i] + b[i + 1..]) == multiset(b) - multiset{b[i]}
  {
    assert b == b[..i] + [b[i]] + b[i + 1..];
    assert multiset(b) == multiset(b[..i]) + multiset{b[i]} + multiset(b[i + 1..]);
  }

  lemma {:induction false} BidsWithout(bidOf: Record -> Parsed, b: seq<Record>, i: nat)
    requires i < |b|
    ensures var rest := multiset(BidsOf(bidOf, b[..i] + b[i + 1..]));
            multiset(BidsOf(bidOf, b)) == if bidOf(b[i]).Bid? then rest + multiset{bidOf(b[i]).bid} else rest
  {
    assert b == (b[..i] + [b[i]]) + b[i + 1..];
    BidsOfConcat(bidOf, b[..i] + [b[i]], b[i + 1..]);
    BidsOfAppend(bidOf, b[..i], b[i]);
    BidsOfConcat(bidOf, b[..i], b[i + 1..]);
  }

  // ----- Encoding --------------------------------------------------------------------------

  const WINNING_BID_BYTES: nat := 24

  function Uint64Bytes(n: uint64): (b: Bytes)
    ensures |b| == 8
  {
    Spans();
    BigEndian(n, 8)
  }

  function ReadUint64(b: Bytes): uint64
    requires |b| == 8
  {
    Spans();
    ReadBigEndian(b)
  }

  lemma {:induction false} Uint64RoundTrip(n: uint64)
    ensures ReadUint64(Uint64Bytes(n)) == n
  {
    Spans();
    ReadBack(n, 8);
  }

  function EncodeWinningBid(w: WinningBid): (b: Bytes)
    ensures |b| == WINNING_BID_BYTES
  {
    Uint64Bytes(w.price) + Uint64Bytes(w.bidder) + Uint64Bytes(w.auction)
  }

  /** Exactly 24 bytes, not at least. */
  function DecodeWinningBid(value: Bytes): (w: Option<WinningBid>)
    ensures w.None? <==> |value| != WINNING_BID_BYTES
  {
    if |value| != WINNING_BID_BYTES then None
    else Some(WinningBid(ReadUint64(value[..8]), ReadUint64(value[8..16]), ReadUint64(value[16..])))
  }

  lemma {:induction false} WinningBidRoundTrip(w: WinningBid)
    ensures DecodeWinningBid(EncodeWinningBid(w)) == Some(w)
  {
    var b := EncodeWinningBid(w);
    assert b[..8] == Uint64Bytes(w.price) && b[8..16] == Uint64Bytes(w.bidder) && b[16..] == Uint64Bytes(w.auction);
    Uint64RoundTrip(w.price);
    Uint64RoundTrip(w.bidder);
    Uint64RoundTrip(w.auction);
  }

  /** The stored aggregate of a pane: its winner, or nothing if no record of it is a bid. */
  function WinnerBytes(bidOf: Record -> Parsed, rs: seq<Record>): Bytes {
    if BidsOf(bidOf, rs) == [] then [] else EncodeWinningBid(Best(BidsOf(bidOf, rs)))
  }
}
