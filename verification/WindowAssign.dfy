/** Which windows an event time belongs to. Starts are found by stepping down from the last aligned
    one, stopping at the bottom of the int64 range; away from there they are exactly the aligned
    starts whose window holds the event time, each once and in descending order. */
module WindowAssign {
  import opened Int64

  /** Step back by `slide`, at most `n` starts, stopping once a step cannot go lower. */
  function StartsFrom(start: int64, slide: int64, n: nat): (r: seq<int64>)
    requires slide > 0
    ensures |r| <= n
    decreases n
  {
    if n == 0 then []
    else
      var next := SubFloor(start, slide);
      if next == start then [start] else [start] + StartsFrom(next, slide, n - 1)
  }

  predicate ValidSpec(size: int64, slide: int64) {
    size > 0 && slide > 0 && size % slide == 0
  }

  function WindowsFor(size: int64, slide: int64, t: int64): seq<int64>
    requires ValidSpec(size, slide)
  {
    StartsFrom(SubFloor(t, FloorMod(t, slide)), slide, size / slide)
  }

  /** The same starts, as the operator's loop appends them. */
  method CollectWindows(size: int64, slide: int64, eventTime: int64) returns (dst: seq<int64>)
    requires ValidSpec(size, slide)
    ensures dst == WindowsFor(size, slide, eventTime)
  {
    dst := [];
    var start := SubFloor(eventTime, FloorMod(eventTime, slide));
    var n := size / slide;
    while n > 0
      invariant 0 <= n
      invariant WindowsFor(size, slide, eventTime) == dst + StartsFrom(start, slide, n)
    {
      ghost var before := dst;
      dst := dst + [start];
      var next := SubFloor(start, slide);
      if next == start {
        assert StartsFrom(start, slide, n) == [start];
        return;
      }
      assert before + ([start] + StartsFrom(next, slide, n - 1)) == dst + StartsFrom(next, slide, n - 1);
      start := next;
      n := n - 1;
    }
    assert dst + [] == dst;
  }

  // ----- What the list contains ------------------------------------------------------------

  /** The k-th start, counting down from the event time, clamped at the bottom of the range. */
  function KthStart(start: int, slide: int64, k: nat): int {
    Max(MIN_INT64, start - k * slide)
  }

  lemma {:induction false} KthStartStep(start: int64, slide: int64, k: nat)
    requires slide > 0
    ensures KthStart(SubFloor(start, slide), slide, k) == KthStart(start, slide, k + 1)
  {
    assert (k + 1) * slide == k * slide + slide;
    assert k * slide >= 0;
  }

  lemma {:induction false} KthOfFloor(slide: int64, k: nat)
    requires slide > 0
    ensures KthStart(MIN_INT64, slide, k) == MIN_INT64
  {
    assert k * slide >= 0;
  }

  lemma {:induction false} StartsAre(start: int64, slide: int64, n: nat, k: nat)
    requires slide > 0
    ensures k < |StartsFrom(start, slide, n)| ==> StartsFrom(start, slide, n)[k] == KthStart(start, slide, k)
    ensures k < n ==> KthStart(start, slide, k) in StartsFrom(start, slide, n)
    decreases n
  {
    if n > 0 {
      var next := SubFloor(start, slide);
      if next == start {
        KthOfFloor(slide, k);
      } else if k > 0 {
        StartsAre(next, slide, n - 1, k - 1);
        KthStartStep(start, slide, k - 1);
      }
    }
  }

  lemma {:induction false} StartsDescend(start: int64, slide: int64, n: nat)
    requires slide > 0
    ensures forall i :: 0 <= i < |StartsFrom(start, slide, n)| ==> StartsFrom(start, slide, n)[i] <= start
    ensures forall i, j :: 0 <= i < j < |StartsFrom(start, slide, n)| ==>
              StartsFrom(start, slide, n)[i] > StartsFrom(start, slide, n)[j]
    decreases n
  {
    if n > 0 && SubFloor(start, slide) != start {
      StartsDescend(SubFloor(start, slide), slide, n - 1);
    }
  }

  /** An aligned window that contains `t`, with its start free to lie below the range. */
  predicate AlignedAround(size: int64, slide: int64, t: int64, a: int)
    requires slide > 0
  {
    a % slide == 0 && a <= t < a + size
  }

  lemma {:induction false} MultipleBetween(x: int, slide: int, n: nat) returns (k: nat)
    requires slide > 0 && x % slide == 0 && -slide < x < n * slide
    ensures k < n && x == k * slide
  {
    var q := x / slide;
    assert x == q * slide;
    assert q <= -1 ==> q * slide <= -slide;
    assert q >= n ==> q * slide >= n * slide by {
      if q >= n { MulMonotone(n, q, slide); }
    }
    k := q;
  }

  lemma {:induction false} ModOfDifference(a: int, b: int, m: int)
    requires m > 0 && a % m == 0 && b % m == 0
    ensures (a - b) % m == 0
  {
    ModuloUnique(a - b, m, a / m - b / m, 0);
  }

  lemma {:induction false} ModOfStepBack(a: int, m: int, k: int)
    requires m > 0 && a % m == 0
    ensures (a - k * m) % m == 0
  {
    assert m * (a / m - k) == m * (a / m) - k * m;
    ModuloUnique(a - k * m, m, a / m - k, 0);
  }

  /** The aligned windows around `t` are its greatest aligned start stepped back fewer than
      size / slide times. */
  lemma {:induction false} AlignedIsAStep(size: int64, slide: int64, t: int64, a: int) returns (k: nat)
    requires ValidSpec(size, slide) && AlignedAround(size, slide, t, a)
    ensures k < size / slide && a == (t - FloorMod(t, slide)) - k * slide
  {
    var top := t - FloorMod(t, slide);
    AlignedTop(t, slide);
    ModOfDifference(top, a, slide);
    assert (size / slide) * slide == size;
    k := MultipleBetween(top - a, slide, size / slide);
  }

  lemma {:induction false} AlignedTop(t: int64, slide: int64)
    requires slide > 0
    ensures (t - FloorMod(t, slide)) % slide == 0 && t - slide < t - FloorMod(t, slide) <= t
  {}

  lemma {:induction false} StepIsAligned(size: int64, slide: int64, t: int64, k: nat)
    requires ValidSpec(size, slide) && k < size / slide
    ensures AlignedAround(size, slide, t, (t - FloorMod(t, slide)) - k * slide)
  {
    AlignedTop(t, slide);
    ModOfStepBack(t - FloorMod(t, slide), slide, k);
    assert (size / slide) * slide == size;
    MulMonotone(k + 1, size / slide, slide);
    assert (k + 1) * slide == k * slide + slide;
    assert k * slide >= 0;
  }

  /** Exactly which starts are assigned, over all of int64: those of the aligned windows that
      contain the event time, clamped to the bottom of the range. No subtraction wraps. */
  lemma {:induction false} AssignedExactly(size: int64, slide: int64, t: int64, s: int64)
    requires ValidSpec(size, slide)
    ensures s in WindowsFor(size, slide, t) <==> exists a :: AlignedAround(size, slide, t, a) && s == Max(MIN_INT64, a)
  {
    var top := t - FloorMod(t, slide);
    var first := SubFloor(t, FloorMod(t, slide));
    var starts := WindowsFor(size, slide, t);
    if s in starts {
      var i :| 0 <= i < |starts| && starts[i] == s;
      StartsAre(first, slide, size / slide, i);
      ClampOnce(top, slide, i);
      StepIsAligned(size, slide, t, i);
      assert AlignedAround(size, slide, t, top - i * slide);
    }
    if a :| AlignedAround(size, slide, t, a) && s == Max(MIN_INT64, a) {
      var k := AlignedIsAStep(size, slide, t, a);
      ClampOnce(top, slide, k);
      StartsAre(first, slide, size / slide, k);
    }
  }

  lemma {:induction false} ClampOnce(top: int, slide: int64, k: nat)
    requires slide > 0
    ensures KthStart(Max(MIN_INT64, top), slide, k) == KthStart(top, slide, k)
  {
    assert k * slide >= 0;
  }

  /** The starts are strictly descending, hence distinct, and every window contains the event
      time, which therefore does not exceed the window's last instant even when that saturates. */
  lemma {:induction false} AssignmentSound(size: int64, slide: int64, t: int64)
    requires ValidSpec(size, slide)
    ensures forall i, j :: 0 <= i < j < |WindowsFor(size, slide, t)| ==> WindowsFor(size, slide, t)[i] > WindowsFor(size, slide, t)[j]
    ensures forall s :: s in WindowsFor(size, slide, t) ==> s <= t < s + size && t <= AddCeil(s, size - 1)
    ensures |WindowsFor(size, slide, t)| > 0
  {
    StartsDescend(SubFloor(t, FloorMod(t, slide)), slide, size / slide);
    forall s | s in WindowsFor(size, slide, t) ensures s <= t < s + size {
      AssignedExactly(size, slide, t, s);
    }
    AtLeastOneWindow(size, slide);
  }

  lemma {:induction false} AtLeastOneWindow(size: int64, slide: int64)
    requires ValidSpec(size, slide)
    ensures size / slide >= 1
  {
    var q := size / slide;
    assert q * slide == size;
    assert q <= 0 ==> q * slide <= 0;
  }

  /** Away from the bottom of the range the starts are exactly the aligned ones: `size / slide`
      of them. */
  lemma {:induction false} AwayFromTheFloor(size: int64, slide: int64, t: int64, s: int64)
    requires ValidSpec(size, slide) && t - size >= MIN_INT64
    ensures s in WindowsFor(size, slide, t) <==> AlignedAround(size, slide, t, s)
  {
    AssignedExactly(size, slide, t, s);
    if AlignedAround(size, slide, t, s) {
      assert s == Max(MIN_INT64, s);
    }
  }
}
