/** The vertices of a job over any number of crashed runs: every subtask of one receives from every
    subtask of the one before it, records by the hash of their keys. */
module Vertices {
  import opened Int64
  import opened Elements
  import opened CrashedRuns
  import opened Stages
  import opened Operators
  import opened GateRecords

  /** What is left of all that a vertex sent, one subtask after the other. */
  function AllOf(sent: seq<seq<seq<Element>>>, marks: seq<nat>): seq<Record>
    requires forall i :: 0 <= i < |sent| ==> |sent[i]| == |marks| + 1
  {
    Flat(seq(|sent|, i requires 0 <= i < |sent| => Records(Effective(sent[i], marks))))
  }

  ghost predicate AllSound(sent: seq<seq<seq<Element>>>, marks: seq<nat>) {
    |sent| > 0 && forall i :: 0 <= i < |sent| ==> Sound(sent[i], marks)
  }

  /** `received` is what each subtask of a vertex received in each run. */
  ghost predicate Shuffled(sent: seq<seq<seq<Element>>>, hash: Bytes -> nat, marks: seq<nat>, received: seq<seq<seq<Element>>>) {
    && |received| > 0
    && forall j :: 0 <= j < |received| ==> Receives(sent, ToSubtask(hash, |received|, j), marks, received[j])
  }

  // ----- Bags of records -------------------------------------------------------------------

  lemma {:induction false} FlatSelect(xs: seq<seq<Record>>, keep: Record -> bool)
    ensures Select(Flat(xs), keep) == Flat(seq(|xs|, i requires 0 <= i < |xs| => Select(xs[i], keep)))
  {
    var ys := seq(|xs|, i requires 0 <= i < |xs| => Select(xs[i], keep));
    if xs != [] {
      var init := xs[..|xs| - 1];
      FlatSelect(init, keep);
      assert ys[..|xs| - 1] == seq(|init|, i requires 0 <= i < |init| => Select(init[i], keep));
      SelectConcat(Flat(init), xs[|xs| - 1], keep);
    }
  }

  /** The shares of the subtasks of a vertex are all there is. */
  function Shares(all: seq<Record>, hash: Bytes -> nat, n: nat, m: nat): multiset<Record>
    requires 0 < n
  {
    if m == 0 then multiset{} else Shares(all, hash, n, m - 1) + multiset(Select(all, ToSubtask(hash, n, m - 1)))
  }

  lemma {:induction false} SharesCount(all: seq<Record>, hash: Bytes -> nat, n: nat, m: nat, r: Record)
    requires 0 < n
    ensures Shares(all, hash, n, m)[r] == if hash(r.key) % n < m then multiset(all)[r] else 0
  {
    if m > 0 {
      SharesCount(all, hash, n, m - 1, r);
      SelectCount(all, ToSubtask(hash, n, m - 1), r);
    }
  }

  lemma {:induction false} BagOfShares(all: seq<Record>, hash: Bytes -> nat, n: nat, xs: seq<seq<Record>>)
    requires 0 < n && forall j :: 0 <= j < |xs| ==> multiset(xs[j]) == multiset(Select(all, ToSubtask(hash, n, j)))
    ensures Bag(xs) == Shares(all, hash, n, |xs|)
  {
    if xs != [] {
      BagOfShares(all, hash, n, xs[..|xs| - 1]);
    }
  }

  // ----- From one vertex to the next -----------------------------------------------------------

  /** What is routed to a subtask, sender by sender, is what is routed to it of everything sent. */
  lemma {:induction false} RoutedIsSelected(sent: seq<seq<seq<Element>>>, mine: Record -> bool, marks: seq<nat>)
    requires forall i :: 0 <= i < |sent| ==> |sent[i]| == |marks| + 1
    ensures Bag(RoutedRecords(sent, mine, marks)) == multiset(Select(AllOf(sent, marks), mine))
  {
    hide Records, Select, Effective, Bag, Flat;
    var xs := seq(|sent|, i requires 0 <= i < |sent| => Records(Effective(sent[i], marks)));
    FlatSelect(xs, mine);
    var ys := seq(|xs|, i requires 0 <= i < |xs| => Select(xs[i], mine));
    assert ys == RoutedRecords(sent, mine, marks);
    FlatBag(ys);
  }

  /** What one subtask of the next vertex is left with. */
  lemma {:induction false} ShareReceived(sent: seq<seq<seq<Element>>>, hash: Bytes -> nat, marks: seq<nat>, received: seq<seq<seq<Element>>>, j: nat)
    requires AllSound(sent, marks) && Shuffled(sent, hash, marks, received) && j < |received|
    ensures Sound(received[j], marks) && Resumable(received[j], marks) && Flushed(Effective(received[j], marks))
    ensures LastWatermark(Effective(received[j], marks)) == MAX_INT64
    ensures multiset(Records(Effective(received[j], marks))) == multiset(Select(AllOf(sent, marks), ToSubtask(hash, |received|, j)))
  {
    hide Records, Select, Effective, Punctual, Flushed, LastWatermark, Bag, Flat, ReceivesRun, MergesAll, Resumable;
    var mine := ToSubtask(hash, |received|, j);
    StagePasses(sent, mine, marks, received[j]);
    ReceivedResumable(sent, mine, marks, received[j]);
    RoutedIsSelected(sent, mine, marks);
  }

  /** Everything sent is received by exactly one subtask. */
  lemma {:induction false} AllReceived(sent: seq<seq<seq<Element>>>, hash: Bytes -> nat, marks: seq<nat>, received: seq<seq<seq<Element>>>)
    requires AllSound(sent, marks) && Shuffled(sent, hash, marks, received)
    ensures AllSound(received, marks) && multiset(AllOf(received, marks)) == multiset(AllOf(sent, marks))
  {
    hide Records, Select, Effective, Bag, Flat, Receives, Shares, ToSubtask;
    var n := |received|;
    var all := AllOf(sent, marks);
    forall j | 0 <= j < n
      ensures Sound(received[j], marks)
      ensures multiset(Records(Effective(received[j], marks))) == multiset(Select(all, ToSubtask(hash, n, j)))
    {
      ShareReceived(sent, hash, marks, received, j);
    }
    var xs := seq(n, j requires 0 <= j < n => Records(Effective(received[j], marks)));
    FlatBag(xs);
    BagOfShares(all, hash, n, xs);
    forall r ensures Shares(all, hash, n, n)[r] == multiset(all)[r] {
      SharesCount(all, hash, n, n, r);
    }
  }

  // ----- What a vertex sends -------------------------------------------------------------------

  ghost predicate AllResumable(received: seq<seq<seq<Element>>>, marks: seq<nat>) {
    forall j :: 0 <= j < |received| ==> |received[j]| == |marks| + 1 && Resumable(received[j], marks)
  }

  /** Every subtask had received the barriers its crashed runs were given up for. */
  lemma {:induction false} ShuffledResumable(sent: seq<seq<seq<Element>>>, hash: Bytes -> nat, marks: seq<nat>, received: seq<seq<seq<Element>>>)
    requires Shuffled(sent, hash, marks, received)
    ensures AllResumable(received, marks)
  {
    hide ReceivesRun, MergesAll, Resumable;
    forall j | 0 <= j < |received| ensures |received[j]| == |marks| + 1 && Resumable(received[j], marks) {
      ReceivedResumable(sent, ToSubtask(hash, |received|, j), marks, received[j]);
    }
  }

  /** What the subtasks of an operator vertex send in each run. */
  ghost function SentByVertex<S>(op: Operator<S>, marks: seq<nat>, received: seq<seq<seq<Element>>>): seq<seq<seq<Element>>>
    requires AllResumable(received, marks)
  {
    seq(|received|, (j: nat) requires j < |received| => SentRuns(op, marks, received[j]))
  }

  /** An operator that lets nothing late through a punctual stream. */
  ghost predicate KeepsTime<S>(op: Operator<S>) {
    forall inputs :: Punctual(inputs) && Flushed(inputs) ==> Punctual(SentBy(op, op.init, inputs))
  }

  /** A vertex passes on what it is sent, crashes or no crashes: each subtask's streams come to what
      the operator would have sent in one run, and none of it is late. */
  lemma {:induction false} VertexPasses<S>(op: Operator<S>, sent: seq<seq<seq<Element>>>, hash: Bytes -> nat, marks: seq<nat>, received: seq<seq<seq<Element>>>)
    requires AllSound(sent, marks) && Shuffled(sent, hash, marks, received) && KeepsTime(op)
    ensures AllSound(received, marks) && AllResumable(received, marks)
    ensures AllSound(SentByVertex(op, marks, received), marks)
    ensures forall j :: 0 <= j < |received| ==>
              Effective(SentByVertex(op, marks, received)[j], marks) == SentBy(op, op.init, Effective(received[j], marks))
  {
    hide Records, Effective, Punctual, Flushed, Receives, Resumable, SentRuns, SentBy, AllOf, LastWatermark, Select;
    forall j | 0 <= j < |received|
      ensures Sound(received[j], marks) && Resumable(received[j], marks)
      ensures Sound(SentRuns(op, marks, received[j]), marks)
      ensures Effective(SentRuns(op, marks, received[j]), marks) == SentBy(op, op.init, Effective(received[j], marks))
    {
      ShareReceived(sent, hash, marks, received, j);
      CrashesDoNotShow(op, marks, received[j]);
    }
  }

  // ----- Stateless vertices ----------------------------------------------------------------------

  /** Sends on what `f` makes of each record, or nothing. */
  function Mapping(f: Record -> Option<Record>): Operator<()> {
    Operator((), (s, rec) => (s, if f(rec).Some? then [f(rec).value] else []), (s, wm) => (s, []))
  }

  /** Event times are left alone. */
  ghost predicate KeepsEventTimes(f: Record -> Option<Record>) {
    forall rec :: f(rec).Some? ==> f(rec).value.eventTime == rec.eventTime
  }

  function MapRecords(f: Record -> Option<Record>, rs: seq<Record>): seq<Record> {
    if rs == [] then []
    else MapRecords(f, rs[..|rs| - 1]) + if f(rs[|rs| - 1]).Some? then [f(rs[|rs| - 1]).value] else []
  }

  lemma {:induction false} NothingMapped(f: Record -> Option<Record>)
    ensures MapRecords(f, []) == []
  {}

  lemma {:induction false} OneMoreMapped(f: Record -> Option<Record>, rs: seq<Record>, rec: Record)
    ensures MapRecords(f, rs + [rec]) == MapRecords(f, rs) + if f(rec).Some? then [f(rec).value] else []
  {
    assert (rs + [rec])[..|rs|] == rs;
  }

  lemma {:induction false} MappingSends(f: Record -> Option<Record>, inputs: seq<Element>)
    ensures Records(SentBy(Mapping(f), (), inputs)) == MapRecords(f, Records(inputs))
  {
    hide StateAfter, SentBy, Sends, Records, MapRecords;
    var op := Mapping(f);
    if inputs == [] {
      NothingSent(op, ());
      NothingMapped(f);
      assert Records([]) == [] by { NoneRecorded(); }
    } else {
      var init, e := inputs[..|inputs| - 1], inputs[|inputs| - 1];
      MappingSends(f, init);
      assert inputs == init + [e];
      OneMoreInput(op, (), init, e);
      RecordsConcat(SentBy(op, (), init), Sends(op, StateAfter(op, (), init), e));
      SentRecords(op, StateAfter(op, (), init), e);
      RecordsAppend(init, e);
      if e.RecordElement? {
        OneMoreMapped(f, Records(init), e.rec);
      }
    }
  }

  lemma {:induction false} NoneRecorded()
    ensures Records([]) == []
  {}

  /** Everything sent before comes from something received before. */
  lemma {:induction false} MappingPunctual(f: Record -> Option<Record>, inputs: seq<Element>)
    requires KeepsEventTimes(f) && Punctual(inputs)
    ensures Punctual(SentBy(Mapping(f), (), inputs))
    ensures forall e :: e in SentBy(Mapping(f), (), inputs) && !e.RecordElement? ==> e in inputs
  {
    hide StateAfter, Admits;
    var op := Mapping(f);
    if inputs != [] {
      var init, e := inputs[..|inputs| - 1], inputs[|inputs| - 1];
      PunctualPrefix(init, inputs);
      MappingPunctual(f, init);
      assert inputs == init + [e];
      OneMoreInput(op, (), init, e);
      OneMappedPunctual(f, init, e, SentBy(op, (), init));
    }
  }

  lemma {:induction false} OneMappedPunctual(f: Record -> Option<Record>, inputs: seq<Element>, e: Element, sent: seq<Element>)
    requires KeepsEventTimes(f) && Punctual(inputs + [e]) && Punctual(sent)
    requires forall x :: x in sent && !x.RecordElement? ==> x in inputs
    ensures Punctual(sent + Sends(Mapping(f), (), e))
  {
    var more := sent + Sends(Mapping(f), (), e);
    forall a, b | 0 <= a < b < |more| && more[b].RecordElement? ensures Admits(more[a], more[b].rec) {
      assert more[a] == sent[a];
      if b < |sent| {
        assert more[b] == sent[b];
      } else if !sent[a].RecordElement? {
        assert sent[a] in inputs;
        var x :| 0 <= x < |inputs| && inputs[x] == sent[a];
        assert Admits((inputs + [e])[x], (inputs + [e])[|inputs|].rec);
      }
    }
  }

  lemma {:induction false} MappingKeepsTime(f: Record -> Option<Record>)
    requires KeepsEventTimes(f)
    ensures KeepsTime(Mapping(f))
  {
    hide Punctual, Flushed;
    forall inputs | Punctual(inputs) && Flushed(inputs) ensures Punctual(SentBy(Mapping(f), (), inputs)) {
      MappingPunctual(f, inputs);
    }
  }

  lemma {:induction false} MapConcat(f: Record -> Option<Record>, a: seq<Record>, b: seq<Record>)
    ensures MapRecords(f, a + b) == MapRecords(f, a) + MapRecords(f, b)
  {
    if b == [] {
      assert a + b == a;
    } else {
      MapConcat(f, a, b[..|b| - 1]);
      assert (a + b)[..|a + b| - 1] == a + b[..|b| - 1];
    }
  }

  lemma {:induction false} MapWithout(f: Record -> Option<Record>, b: seq<Record>, i: nat)
    requires i < |b|
    ensures multiset(b[..i] + b[i + 1..]) == multiset(b) - multiset{b[i]}
    ensures multiset(MapRecords(f, b)) == multiset(MapRecords(f, b[..i] + b[i + 1..])) + multiset(MapRecords(f, [b[i]]))
  {
    assert b == (b[..i] + [b[i]]) + b[i + 1..];
    assert multiset(b) == multiset(b[..i]) + multiset{b[i]} + multiset(b[i + 1..]);
    MapConcat(f, b[..i] + [b[i]], b[i + 1..]);
    MapConcat(f, b[..i], [b[i]]);
    MapConcat(f, b[..i], b[i + 1..]);
  }

  /** Rearranged records give rearranged results. */
  lemma {:induction false} MapBag(f: Record -> Option<Record>, a: seq<Record>, b: seq<Record>)
    requires multiset(a) == multiset(b)
    ensures multiset(MapRecords(f, a)) == multiset(MapRecords(f, b))
    decreases |a|
  {
    hide MapRecords;
    if a == [] {
      assert |multiset(b)| == 0;
    } else {
      var init, r := a[..|a| - 1], a[|a| - 1];
      assert a == init + [r];
      assert r in multiset(b);
      var i :| 0 <= i < |b| && b[i] == r;
      MapWithout(f, b, i);
      assert multiset(init) == multiset(a) - multiset{r};
      MapBag(f, init, b[..i] + b[i + 1..]);
      MapConcat(f, init, [r]);
    }
  }

  lemma {:induction false} MapFlat(f: Record -> Option<Record>, xs: seq<seq<Record>>)
    ensures MapRecords(f, Flat(xs)) == Flat(seq(|xs|, i requires 0 <= i < |xs| => MapRecords(f, xs[i])))
  {
    var ys := seq(|xs|, i requires 0 <= i < |xs| => MapRecords(f, xs[i]));
    if xs != [] {
      var init := xs[..|xs| - 1];
      MapFlat(f, init);
      assert ys[..|xs| - 1] == seq(|init|, i requires 0 <= i < |init| => MapRecords(f, init[i]));
      MapConcat(f, Flat(init), xs[|xs| - 1]);
    }
  }

  /** A stateless vertex, at any parallelism, sends on what it makes of all it is sent. */
  lemma {:induction false} MappedAll(f: Record -> Option<Record>, sent: seq<seq<seq<Element>>>, hash: Bytes -> nat, marks: seq<nat>, received: seq<seq<seq<Element>>>)
    requires AllSound(sent, marks) && Shuffled(sent, hash, marks, received) && KeepsEventTimes(f)
    ensures AllSound(received, marks) && AllResumable(received, marks)
    ensures AllSound(SentByVertex(Mapping(f), marks, received), marks)
    ensures multiset(AllOf(SentByVertex(Mapping(f), marks, received), marks)) == multiset(MapRecords(f, AllOf(sent, marks)))
  {
    hide Records, Effective, Shuffled, Punctual, WellFormed, Ended, SentRuns, SentBy, Mapping, MapRecords, Flat, KeepsTime, KeepsEventTimes, Resumable;
    MappingKeepsTime(f);
    VertexPasses(Mapping(f), sent, hash, marks, received);
    AllReceived(sent, hash, marks, received);
    var out := SentByVertex(Mapping(f), marks, received);
    var xs := seq(|received|, j requires 0 <= j < |received| => Records(Effective(received[j], marks)));
    var ys := seq(|out|, j requires 0 <= j < |out| => Records(Effective(out[j], marks)));
    assert Mapping(f).init == () by { MappingInit(f); }
    forall j | 0 <= j < |received| ensures ys[j] == MapRecords(f, xs[j]) {
      MappingSends(f, Effective(received[j], marks));
    }
    MapFlat(f, xs);
    assert ys == seq(|xs|, j requires 0 <= j < |xs| => MapRecords(f, xs[j]));
    MapBag(f, Flat(xs), AllOf(sent, marks));
  }

  lemma {:induction false} MappingInit(f: Record -> Option<Record>)
    ensures Mapping(f).init == ()
  {}
}
