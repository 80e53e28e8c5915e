/** The streams of one subtask over several runs of a job, all but the last of them crashed, and
    the one stream that is left of them. */
module CrashedRuns {
  import opened Elements
  import opened Routing

  /** Of each crashed run, how many checkpoints past the one it resumed from had completed when the
      next run took over. Together they are the checkpoint that one resumes from. */
  function Base(marks: seq<nat>): nat {
    if marks == [] then 0 else Base(marks[..|marks| - 1]) + marks[|marks| - 1]
  }

  /** What is left of the crashed runs: each up to the barrier of the checkpoint it was given up for. */
  function Kept(runs: seq<seq<Element>>, marks: seq<nat>): seq<Element>
    requires |marks| <= |runs|
  {
    if marks == [] then []
    else
      var r := |marks| - 1;
      Kept(runs, marks[..r]) + CutAt(runs[r], marks[r])
  }

  /** What is left of the crashed runs, then all of the last one. */
  function Effective(runs: seq<seq<Element>>, marks: seq<nat>): seq<Element>
    requires |runs| == |marks| + 1
  {
    Kept(runs, marks) + runs[|marks|]
  }

  /** Each run numbers its barriers from the checkpoint it resumed from, the last one reached its
      end, and what is left has no record behind a watermark or an end of stream. */
  ghost predicate Sound(runs: seq<seq<Element>>, marks: seq<nat>) {
    && |runs| == |marks| + 1
    && (forall r :: 0 <= r < |runs| ==> WellFormed(runs[r], Base(marks[..r])))
    && Ended(runs[|marks|])
    && Punctual(Effective(runs, marks))
  }

  /** Each crashed run had received, under its own numbering, the barrier it was given up for. */
  ghost predicate Resumable(received: seq<seq<Element>>, marks: seq<nat>) {
    && |marks| <= |received|
    && forall r :: 0 <= r < |marks| ==> WellFormed(received[r], Base(marks[..r])) && marks[r] <= NumBarriers(received[r])
  }

  lemma {:induction false} KeptMore(runs: seq<seq<Element>>, marks: seq<nat>, r: nat)
    requires r < |marks| <= |runs|
    ensures Kept(runs, marks[..r + 1]) == Kept(runs, marks[..r]) + CutAt(runs[r], marks[r])
    ensures Base(marks[..r + 1]) == Base(marks[..r]) + marks[r]
  {
    assert marks[..r + 1][..r] == marks[..r];
  }

  lemma {:induction false} CutNothing(s: seq<Element>)
    ensures CutAt(s, 0) == []
  {
    if s != [] {
      CutNothing(s[..|s| - 1]);
    }
  }

  /** What had been received when the cut was reached is cut the same, however much more came. */
  lemma {:induction false} CutOfPrefix(part: seq<Element>, whole: seq<Element>, k: nat)
    requires part <= whole && k <= NumBarriers(part)
    ensures CutAt(whole, k) == CutAt(part, k)
    decreases |whole|
  {
    if |part| < |whole| {
      var init := whole[..|whole| - 1];
      assert part <= init && part == init[..|part|];
      NumBarriersPrefix(init, |part|);
      CutOfPrefix(part, init, k);
    } else {
      assert part == whole;
    }
  }

  // ----- Routing ---------------------------------------------------------------------------

  function RoutedRuns(runs: seq<seq<Element>>, mine: Record -> bool): seq<seq<Element>> {
    seq(|runs|, r requires 0 <= r < |runs| => Routed(runs[r], mine))
  }

  lemma {:induction false} RoutedKept(runs: seq<seq<Element>>, marks: seq<nat>, mine: Record -> bool)
    requires |marks| <= |runs|
    ensures Kept(RoutedRuns(runs, mine), marks) == Routed(Kept(runs, marks), mine)
  {
    if marks != [] {
      var r := |marks| - 1;
      RoutedKept(runs, marks[..r], mine);
      RoutedCut(runs[r], marks[r], mine);
      RoutedConcat(Kept(runs, marks[..r]), CutAt(runs[r], marks[r]), mine);
    }
  }

  /** Routing commutes with crashing. */
  lemma {:induction false} RoutedEffective(runs: seq<seq<Element>>, marks: seq<nat>, mine: Record -> bool)
    requires |runs| == |marks| + 1
    ensures Effective(RoutedRuns(runs, mine), marks) == Routed(Effective(runs, marks), mine)
  {
    RoutedKept(runs, marks, mine);
    RoutedConcat(Kept(runs, marks), runs[|marks|], mine);
  }
}
