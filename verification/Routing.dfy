/** The part of a producer's stream that one subtask of a downstream vertex receives. */
module Routing {
  import opened Elements

  /** The channel to one downstream subtask carries the records routed to it and every control
      element. */
  function Routed(s: seq<Element>, mine: Record -> bool): seq<Element> {
    if s == [] then []
    else
      var last := s[|s| - 1];
      if last.RecordElement? && !mine(last.rec) then Routed(s[..|s| - 1], mine)
      else Routed(s[..|s| - 1], mine) + [last]
  }

  lemma {:induction false} RoutedCounts(s: seq<Element>, mine: Record -> bool)
    ensures NumBarriers(Routed(s, mine)) == NumBarriers(s)
    ensures Records(Routed(s, mine)) == Select(Records(s), mine)
  {
    if s != [] {
      var init, last := s[..|s| - 1], s[|s| - 1];
      var r := Routed(init, mine);
      RoutedCounts(init, mine);
      assert (r + [last])[..|r|] == r;
      if last.RecordElement? {
        assert (Records(init) + [last.rec])[..|Records(init)|] == Records(init);
      }
    }
  }

  lemma {:induction false} RoutedNoEnd(s: seq<Element>, mine: Record -> bool)
    requires forall i :: 0 <= i < |s| ==> !s[i].EndOfStream?
    ensures forall i :: 0 <= i < |Routed(s, mine)| ==> !Routed(s, mine)[i].EndOfStream?
  {
    if s != [] {
      RoutedNoEnd(s[..|s| - 1], mine);
    }
  }

  lemma {:induction false} RoutedWellFormed(s: seq<Element>, base: int, mine: Record -> bool)
    requires WellFormed(s, base)
    ensures WellFormed(Routed(s, mine), base)
    ensures Ended(s) ==> Ended(Routed(s, mine))
  {
    if s != [] {
      var init, last := s[..|s| - 1], s[|s| - 1];
      WellFormedPrefix(s, base, |init|);
      RoutedWellFormed(init, base, mine);
      RoutedCounts(init, mine);
      RoutedNoEnd(init, mine);
      assert last.BarrierElement? ==> last.id == base + NumBarriers(s[..|s| - 1 + 1]);
      assert s[..|s|] == s;
      WellFormedAppend(Routed(init, mine), base, last);
    }
  }

  lemma {:induction false} WholeIsCut(s: seq<Element>, k: nat)
    requires k > NumBarriers(s)
    ensures CutAt(s, k) == s
  {}

  lemma {:induction false} RoutedEnded(s: seq<Element>, mine: Record -> bool)
    requires Ended(s)
    ensures Ended(Routed(s, mine))
  {}

  /** Cutting a stream and routing it commute. */
  lemma {:induction false} RoutedCut(s: seq<Element>, k: nat, mine: Record -> bool)
    ensures CutAt(Routed(s, mine), k) == Routed(CutAt(s, k), mine)
  {
    if s != [] {
      var init, last := s[..|s| - 1], s[|s| - 1];
      RoutedCut(init, k, mine);
      RoutedCounts(init, mine);
      var r := Routed(init, mine);
      assert (r + [last])[..|r|] == r;
      if k > NumBarriers(init) && Routed(s, mine) == r {
        WholeIsCut(r, k);
      }
    }
  }

  lemma {:induction false} RoutedAppend(s: seq<Element>, e: Element, mine: Record -> bool)
    ensures Routed(s + [e], mine) == if e.RecordElement? && !mine(e.rec) then Routed(s, mine) else Routed(s, mine) + [e]
  {
    assert (s + [e])[..|s|] == s;
  }

  lemma {:induction false} RoutedConcat(a: seq<Element>, b: seq<Element>, mine: Record -> bool)
    ensures Routed(a + b, mine) == Routed(a, mine) + Routed(b, mine)
  {
    if b == [] {
      assert a + b == a;
    } else {
      RoutedConcat(a, b[..|b| - 1], mine);
      assert (a + b)[..|a + b| - 1] == a + b[..|b| - 1];
    }
  }

  /** Routing takes records out and moves nothing, so what follows what is inherited. */
  lemma {:induction false} RoutedPunctual(s: seq<Element>, mine: Record -> bool)
    requires Punctual(s)
    ensures Punctual(Routed(s, mine))
    ensures forall e :: e in Routed(s, mine) ==> e in s
  {
    if s != [] {
      var init, last := s[..|s| - 1], s[|s| - 1];
      RoutedPunctual(init, mine);
      forall e | e in Routed(init, mine) && last.RecordElement? ensures Admits(e, last.rec) {
        var a :| 0 <= a < |init| && init[a] == e;
        assert Admits(s[a], s[|s| - 1].rec);
      }
    }
  }
}
