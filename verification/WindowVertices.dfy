/** A windowed vertex at any parallelism and over any number of crashed runs: the rows of all its
    subtasks are those of the batch answer over everything it was sent. */
module WindowVertices {
  import opened Elements
  import opened CrashedRuns
  import opened Operators
  import opened GateRecords
  import opened Vertices
  import opened WindowMachine
  import opened WindowOperators

  /** A record's panes carry its key, so one subtask receives all the records of a pane. */
  ghost predicate KeyedPanes(w: Windows) {
    forall rec, p :: p in w.panes(rec) ==> p.key == rec.key
  }

  /** The rows of all the subtasks, one after the other. */
  ghost function AllRows(w: Windows, marks: seq<nat>, received: seq<seq<seq<Element>>>): seq<Row>
    requires ValidConfig(w.conf) && forall j :: 0 <= j < |received| ==> |received[j]| == |marks| + 1
  {
    if received == [] then []
    else AllRows(w, marks, received[..|received| - 1]) + RowsAt(w, marks, received[|received| - 1])
  }

  ghost function RowsAt(w: Windows, marks: seq<nat>, received: seq<seq<Element>>): seq<Row>
    requires ValidConfig(w.conf) && |received| == |marks| + 1
  {
    Run(w.conf, StepsOf(w, Effective(received, marks))).rows
  }

  lemma {:induction false} ConfigIsValid(w: Windows)
    requires ValidWindows(w)
    ensures ValidConfig(w.conf)
  {}

  lemma {:induction false} ShuffledShape(sent: seq<seq<seq<Element>>>, hash: Bytes -> nat, marks: seq<nat>, received: seq<seq<seq<Element>>>)
    requires Shuffled(sent, hash, marks, received)
    ensures |received| > 0 && forall j :: 0 <= j < |received| ==> |received[j]| == |marks| + 1
  {}

  lemma {:induction false} WindowedKeepsTime(w: Windows)
    requires ValidWindows(w)
    ensures KeepsTime(Windowed(w))
  {
    hide Punctual, Flushed, SentBy, ValidWindows;
    ConfigIsValid(w);
    StartsEmpty(w);
    forall inputs | Punctual(inputs) && Flushed(inputs) ensures Punctual(SentBy(Windowed(w), INITIAL, inputs)) {
      PromisePassesThrough(w, inputs);
    }
  }

  lemma {:induction false} SelectTwice(rs: seq<Record>, f: Record -> bool, g: Record -> bool)
    ensures (forall r :: g(r) ==> f(r)) ==> Select(Select(rs, f), g) == Select(rs, g)
    ensures (forall r :: g(r) ==> !f(r)) ==> Select(Select(rs, f), g) == []
  {
    if rs != [] {
      var init, last := rs[..|rs| - 1], rs[|rs| - 1];
      SelectTwice(init, f, g);
      assert (Select(init, f) + [last])[..|Select(init, f)|] == Select(init, f);
    }
  }

  lemma {:induction false} NoneOfBag(rs: seq<Record>)
    requires multiset(rs) == multiset{}
    ensures rs == []
  {
    assert |multiset(rs)| == |rs|;
  }

  /** The rows of one pane on one subtask: all its records in one row where its key belongs, and
      nothing anywhere else. */
  lemma {:induction false} SubtaskRows(w: Windows, sent: seq<seq<seq<Element>>>, hash: Bytes -> nat, marks: seq<nat>, received: seq<seq<seq<Element>>>, j: nat, p: Pane)
    requires ValidWindows(w) && KeyedPanes(w) && AllSound(sent, marks) && Shuffled(sent, hash, marks, received) && j < |received|
    ensures |received[j]| == |marks| + 1
    ensures var own, rows := Select(AllOf(sent, marks), Given(w, p)), RowsOf(RowsAt(w, marks, received[j]), p);
            if hash(p.key) % |received| != j || own == [] then rows == []
            else |rows| == 1 && rows[0].pane == p && multiset(rows[0].records) == multiset(own)
    ensures Run(w.conf, StepsOf(w, Effective(received[j], marks))).state.dropped == 0
  {
    hide Records, Select, Effective, Punctual, LastWatermark, Run, StepsOf, RowsOf, ValidWindows, AllOf, Flushed;
    var mine, g := ToSubtask(hash, |received|, j), Given(w, p);
    var all, inputs := AllOf(sent, marks), Effective(received[j], marks);
    ShareReceived(sent, hash, marks, received, j);
    RowsAreTheBatchAnswer(w, inputs, p);
    SelectBag(Records(inputs), Select(all, mine), g);
    SelectTwice(all, mine, g);
    if hash(p.key) % |received| != j || Select(all, g) == [] {
      NoneOfBag(Select(Records(inputs), g));
    } else {
      assert |multiset(Select(all, g))| == |Select(all, g)|;
    }
  }

  lemma {:induction false} RowsBelow(w: Windows, sent: seq<seq<seq<Element>>>, hash: Bytes -> nat, marks: seq<nat>, received: seq<seq<seq<Element>>>, n: nat, p: Pane)
    requires ValidWindows(w) && KeyedPanes(w) && AllSound(sent, marks) && Shuffled(sent, hash, marks, received) && n <= |received|
    ensures var home := hash(p.key) % |received|;
            RowsOf(AllRows(w, marks, received[..n]), p) == if home < n then RowsOf(RowsAt(w, marks, received[home]), p) else []
  {
    hide Select, RowsOf, ValidWindows, AllOf, KeyedPanes, RowsAt, StepsOf, Run, Effective, Shuffled, AllSound;
    ConfigIsValid(w);
    ShuffledShape(sent, hash, marks, received);
    if n == 0 {
      NoRows(p);
    } else {
      RowsBelow(w, sent, hash, marks, received, n - 1, p);
      assert received[..n][..n - 1] == received[..n - 1];
      RowsOfConcat(AllRows(w, marks, received[..n - 1]), RowsAt(w, marks, received[n - 1]), p);
      SubtaskRows(w, sent, hash, marks, received, n - 1, p);
    }
  }

  lemma {:induction false} NoRows(p: Pane)
    ensures RowsOf([], p) == []
  {}

  /** Over all the subtasks of a windowed vertex, every pane that was given a record has one row,
      with exactly its records, and no other pane has any, whatever crashed and whenever, at any
      parallelism and in any order of arrival. */
  lemma {:induction false} VertexRows(w: Windows, sent: seq<seq<seq<Element>>>, hash: Bytes -> nat, marks: seq<nat>, received: seq<seq<seq<Element>>>, p: Pane)
    requires ValidWindows(w) && KeyedPanes(w) && AllSound(sent, marks) && Shuffled(sent, hash, marks, received)
    ensures var own, rows := Select(AllOf(sent, marks), Given(w, p)), RowsOf(AllRows(w, marks, received), p);
            if own == [] then rows == [] else |rows| == 1 && rows[0].pane == p && multiset(rows[0].records) == multiset(own)
  {
    hide Select, RowsOf, ValidWindows, AllOf, KeyedPanes, RowsAt, AllRows, Shuffled;
    ConfigIsValid(w);
    RowsBelow(w, sent, hash, marks, received, |received|, p);
    assert received[..|received|] == received;
    ShuffledShape(sent, hash, marks, received);
    SubtaskRows(w, sent, hash, marks, received, hash(p.key) % |received|, p);
  }

  lemma {:induction false} EmitAllRows(w: Windows, marks: seq<nat>, received: seq<seq<seq<Element>>>, xs: seq<seq<Record>>)
    requires ValidConfig(w.conf) && |xs| == |received| && forall j :: 0 <= j < |received| ==> |received[j]| == |marks| + 1
    requires forall j :: 0 <= j < |received| ==> xs[j] == EmitRows(w.emits, RowsAt(w, marks, received[j]))
    ensures Flat(xs) == EmitRows(w.emits, AllRows(w, marks, received))
  {
    hide RowsAt;
    if received != [] {
      var n := |received| - 1;
      EmitAllRows(w, marks, received[..n], xs[..n]);
      EmitRowsConcat(w.emits, AllRows(w, marks, received[..n]), RowsAt(w, marks, received[n]));
    }
  }

  /** What is left of what a windowed vertex sent is what its rows emit, and none of it is late. */
  lemma {:induction false} VertexEmits(w: Windows, sent: seq<seq<seq<Element>>>, hash: Bytes -> nat, marks: seq<nat>, received: seq<seq<seq<Element>>>)
    requires ValidWindows(w) && AllSound(sent, marks) && Shuffled(sent, hash, marks, received)
    ensures AllSound(received, marks) && AllResumable(received, marks)
    ensures AllSound(SentByVertex(Windowed(w), marks, received), marks)
    ensures AllOf(SentByVertex(Windowed(w), marks, received), marks) == EmitRows(w.emits, AllRows(w, marks, received))
  {
    hide Records, Effective, Shuffled, Punctual, WellFormed, Ended, SentRuns, SentBy, Windowed, Flat, KeepsTime, Resumable, EmitRows, AllRows, ValidWindows, StepsOf, Run;
    ConfigIsValid(w);
    WindowedKeepsTime(w);
    VertexPasses(Windowed(w), sent, hash, marks, received);
    var out := SentByVertex(Windowed(w), marks, received);
    var xs := seq(|out|, j requires 0 <= j < |out| => Records(Effective(out[j], marks)));
    forall j | 0 <= j < |received| ensures xs[j] == EmitRows(w.emits, RowsAt(w, marks, received[j])) {
      OperatorIsRun(w, Effective(received[j], marks));
      StartsEmpty(w);
    }
    EmitAllRows(w, marks, received, xs);
  }

  lemma {:induction false} StartsEmpty(w: Windows)
    requires ValidConfig(w.conf)
    ensures Windowed(w).init == INITIAL
  {}
}
