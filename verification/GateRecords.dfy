/** What the gate sends on, as a bag of records: the sum of what its inputs have delivered. The
    gate interleaves its inputs and neither makes, loses nor repeats a record, so an operator whose
    steps commute cannot tell one interleaving from another. */
module GateRecords {
  import opened Elements
  import opened Gate
  import opened GateAlignment

  /** Deliveries come from real inputs, and what the gate adds of its own is never a record. */
  ghost predicate CleanHistory(h: seq<Event>, n: nat) {
    forall j :: 0 <= j < |h| ==> if h[j].Delivered? then h[j].input < n else !h[j].elem.RecordElement?
  }

  ghost predicate Clean(s: State) {
    Usable(s) && CleanHistory(s.history, |s.eos|) && (s.aligning ==> s.barrier.value.BarrierElement?)
  }

  lemma {:induction false} CompleteClean(s: State)
    requires Clean(s)
    ensures Clean(CompleteAlignment(s))
  {
    CompleteAlignmentUsable(s);
  }

  lemma {:induction false} EndClean(s: State, i: nat)
    requires Clean(s) && i < |s.eos|
    ensures Clean(MarkEnded(s, i))
  {
    hide MinLive;
    MarksUsable(s, Tagged(i, EndOfStream));
    var s2 := s.(eos := s.eos[i := true], remaining := s.remaining - 1);
    assert CleanHistory(Advance(s2).history, |s.eos|);
    assert CleanHistory(CloseIfDone(Advance(s2)).history, |s.eos|);
  }

  lemma {:induction false} HandleClean(s: State, t: Tagged)
    requires Clean(s) && t.input < |s.eos|
    ensures Clean(Handle(s, t))
  {
    HandleUsable(s, t);
    var s1 := Log(s, Delivered(t.input, t.elem));
    assert Clean(s1);
    match t.elem {
      case BarrierElement(_, _) =>
        CompleteClean(MarkAligned(s1, t));
      case EndOfStream =>
        if !s.eos[t.input] {
          EndClean(s1, t.input);
          CompleteClean(MarkEnded(s1, t.input));
        }
      case _ =>
    }
  }

  lemma {:induction false} SettleClean(s: State)
    requires Clean(s)
    ensures Clean(Settle(s))
    decreases Load(s), |s.replay|
  {
    if s.replay != [] {
      var popped := s.(replay := s.replay[1..]);
      HandleUsable(popped, s.replay[0]);
      HandleClean(popped, s.replay[0]);
      SettleClean(Handle(popped, s.replay[0]));
    }
  }

  lemma {:induction false} RunClean(s: State, arrivals: seq<Tagged>)
    requires Clean(s) && s.replay == []
    requires forall j :: 0 <= j < |arrivals| ==> arrivals[j].input < |s.eos|
    ensures Clean(Run(s, arrivals))
    decreases |arrivals|
  {
    if arrivals != [] {
      HandleUsable(s, arrivals[0]);
      HandleClean(s, arrivals[0]);
      SettleClean(Handle(s, arrivals[0]));
      RunClean(Settle(Handle(s, arrivals[0])), arrivals[1..]);
    }
  }

  /** The records of several sequences, counted together. */
  function Bag(xs: seq<seq<Record>>): multiset<Record> {
    if xs == [] then multiset{} else Bag(xs[..|xs| - 1]) + multiset(xs[|xs| - 1])
  }

  /** The same in a row, one sequence after the other. */
  function Flat(xs: seq<seq<Record>>): seq<Record> {
    if xs == [] then [] else Flat(xs[..|xs| - 1]) + xs[|xs| - 1]
  }

  lemma {:induction false} FlatBag(xs: seq<seq<Record>>)
    ensures multiset(Flat(xs)) == Bag(xs)
  {
    if xs != [] {
      FlatBag(xs[..|xs| - 1]);
    }
  }

  lemma {:induction false} BagUpdate(xs: seq<seq<Record>>, i: nat, r: Record)
    requires i < |xs|
    ensures Bag(xs[i := xs[i] + [r]]) == Bag(xs) + multiset{r}
  {
    var last := |xs| - 1;
    if i == last {
      assert xs[i := xs[i] + [r]][..last] == xs[..last];
    } else {
      BagUpdate(xs[..last], i, r);
      assert xs[i := xs[i] + [r]][..last] == xs[..last][i := xs[..last][i] + [r]];
    }
  }

  /** Bags add up column by column. */
  lemma {:induction false} BagConcat(xs: seq<seq<Record>>, ys: seq<seq<Record>>, zs: seq<seq<Record>>)
    requires |xs| == |ys| == |zs|
    requires forall i :: 0 <= i < |xs| ==> zs[i] == xs[i] + ys[i]
    ensures Bag(zs) == Bag(xs) + Bag(ys)
  {
    if xs != [] {
      var last := |xs| - 1;
      BagConcat(xs[..last], ys[..last], zs[..last]);
    }
  }

  lemma {:induction false} EmptyBag(xs: seq<seq<Record>>)
    requires forall i :: 0 <= i < |xs| ==> xs[i] == []
    ensures Bag(xs) == multiset{}
  {
    if xs != [] {
      EmptyBag(xs[..|xs| - 1]);
    }
  }

  function DeliveredRecords(h: seq<Event>, n: nat): seq<seq<Record>> {
    seq(n, (i: nat) => Records(DeliveredFrom(h, i)))
  }

  /** Records pass through the gate one for one. */
  lemma {:induction false} OutputBag(h: seq<Event>, n: nat)
    requires CleanHistory(h, n)
    ensures multiset(Records(Output(h))) == Bag(DeliveredRecords(h, n))
  {
    if h == [] {
      EmptyBag(DeliveredRecords(h, n));
    } else {
      var init, e := h[..|h| - 1], h[|h| - 1];
      OutputBag(init, n);
      assert init + [e] == h;
      OutputAppend(init, e);
      RecordsAppend(Output(init), e.elem);
      DeliveredRecordsAppend(init, e, n);
      if e.elem.RecordElement? {
        BagUpdate(DeliveredRecords(init, n), e.input, e.elem.rec);
      }
    }
  }

  lemma {:induction false} DeliveredRecordsAppend(h: seq<Event>, e: Event, n: nat)
    requires e.Delivered? ==> e.input < n
    requires e.Forwarded? ==> !e.elem.RecordElement?
    ensures var xs := DeliveredRecords(h, n);
            DeliveredRecords(h + [e], n) == if e.elem.RecordElement? then xs[e.input := xs[e.input] + [e.elem.rec]] else xs
  {
    var xs, ys := DeliveredRecords(h, n), DeliveredRecords(h + [e], n);
    forall i: nat | i < n
      ensures ys[i] == if e.elem.RecordElement? && e.input == i then xs[i] + [e.elem.rec] else xs[i]
    {
      DeliveredAppend(h, e, i);
      RecordsAppend(DeliveredFrom(h, i), e.elem);
    }
  }
}
