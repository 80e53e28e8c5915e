/** The sources of a job over several runs, each resumed at the positions recorded for a checkpoint:
    what is left of their streams is their data, in order and on time. */
module Recovery {
  import opened Int64
  import opened Elements
  import opened CrashedRuns
  import Src = Source

  datatype SourceSubtask = SourceSubtask(config: Src.Config, start: nat)

  type Job = seq<SourceSubtask>

  predicate ValidSource(s: SourceSubtask) {
    && Src.ValidConfig(s.config) && s.config.barrierInterval > 0 && s.start <= s.config.end
    && (s.config.maxBarriers == Src.UNBOUNDED || 0 <= s.config.maxBarriers)
  }

  ghost predicate ValidJob(job: Job) {
    |job| > 0 && forall i :: 0 <= i < |job| ==> ValidSource(job[i])
  }

  // ----- The stream of one source ----------------------------------------------------------

  /** What source `s` sends when the job runs from checkpoint `k`. */
  function SentFrom(s: SourceSubtask, k: nat): seq<Src.Emission>
    requires ValidSource(s)
  {
    Src.Emissions(s.config, Src.Start(Position(s, k), k))
  }

  function StreamFrom(s: SourceSubtask, k: nat): seq<Element>
    requires ValidSource(s)
  {
    Src.Elems(SentFrom(s, k))
  }

  /** The offset recorded for checkpoint `k`; checkpoint zero is the start of the job. */
  function Position(s: SourceSubtask, k: nat): (p: nat)
    requires ValidSource(s)
    ensures s.start <= p <= s.config.end
  {
    Src.CutPosition(s.config, s.start, k)
  }

  /** Barriers sent from here on come out at the offsets recorded for them. */
  ghost predicate OnSchedule(s: SourceSubtask, st: Src.State)
    requires ValidSource(s)
  {
    var c := s.config;
    && 0 <= st.injected && st.position <= c.end
    && (c.maxBarriers == Src.UNBOUNDED || st.injected < c.maxBarriers ==>
          (st.position == s.start + st.injected * c.barrierInterval + st.sinceBarrier && 0 <= st.sinceBarrier < c.barrierInterval)
          || st.position == c.end)
  }

  ghost predicate BarriersAtPositions(s: SourceSubtask, ems: seq<Src.Emission>)
    requires ValidSource(s)
  {
    forall i :: 0 <= i < |ems| && ems[i].elem.BarrierElement? ==>
      0 <= ems[i].elem.id && Src.Reaches(s.config, s.start, ems[i].elem.id) && ems[i].position == Position(s, ems[i].elem.id)
  }

  lemma {:induction false} StepOnSchedule(s: SourceSubtask, st: Src.State)
    requires ValidSource(s) && OnSchedule(s, st) && st.position < s.config.end
    ensures OnSchedule(s, Src.Next(s.config, st)) && BarriersAtPositions(s, Src.EmittedBy(s.config, st))
  {
    hide Src.ObserveTime;
    var c := s.config;
    ObserveKeeps(c, st, c.data[st.position].eventTime);
    assert (st.injected + 1) * c.barrierInterval == st.injected * c.barrierInterval + c.barrierInterval;
  }

  /** Watermarks have nothing to do with barriers. */
  lemma {:induction false} ObserveKeeps(c: Src.Config, st: Src.State, t: int64)
    ensures var s1 := Src.ObserveTime(c, st, t);
            s1.position == st.position && s1.sinceBarrier == st.sinceBarrier && s1.injected == st.injected
  {}

  lemma {:induction false} BarriersOnSchedule(s: SourceSubtask, st: Src.State)
    requires ValidSource(s) && OnSchedule(s, st)
    ensures BarriersAtPositions(s, Src.Emissions(s.config, st))
    decreases s.config.end - st.position
  {
    if st.position < s.config.end {
      StepOnSchedule(s, st);
      BarriersOnSchedule(s, Src.Next(s.config, st));
    }
  }

  /** The position acknowledged with barrier `id` is the recorded cut position, in the first run
      and in every resumed one. */
  lemma {:induction false} AcknowledgedPositions(s: SourceSubtask, k: nat)
    requires ValidSource(s)
    ensures BarriersAtPositions(s, SentFrom(s, k))
  {
    BarriersOnSchedule(s, Src.Start(Position(s, k), k));
  }

  function PositionAt(ems: seq<Src.Emission>, q: nat, from: nat): nat
    requires q <= |ems|
  {
    if q == 0 then from else ems[q - 1].position
  }

  /** The records sent up to any point are the data between the two positions. */
  lemma {:induction false} SentRecords(c: Src.Config, st: Src.State, q: nat)
    requires Src.ValidConfig(c) && st.position <= c.end && q <= |Src.Emissions(c, st)|
    ensures var ems := Src.Emissions(c, st);
            && st.position <= PositionAt(ems, q, st.position) <= c.end
            && Records(Src.Elems(ems[..q])) == c.data[st.position..PositionAt(ems, q, st.position)]
    decreases c.end - st.position
  {
    hide Src.EmittedBy, Src.Next;
    var ems := Src.Emissions(c, st);
    if q == 0 {
      assert Src.Elems(ems[..0]) == [];
    } else if st.position >= c.end {
      assert Src.Elems(ems[..1]) == [EndOfStream];
      assert [EndOfStream][..0] == [];
    } else {
      Src.StepShape(c, st);
      var now, later := Src.EmittedBy(c, st), Src.Emissions(c, Src.Next(c, st));
      if q <= |now| {
        StepRecords(c, st, q);
        assert ems[..q] == now[..q];
      } else {
        SentRecords(c, Src.Next(c, st), q - |now|);
        StepRecords(c, st, |now|);
        assert now[..|now|] == now;
        SentConcat(now, later, q, c.data, st.position);
      }
    }
  }

  lemma {:induction false} SentConcat(now: seq<Src.Emission>, later: seq<Src.Emission>, q: nat, data: seq<Record>, p: nat)
    requires |now| < q <= |now| + |later| && p < |data| && Records(Src.Elems(now)) == [data[p]]
    requires var to := PositionAt(later, q - |now|, p + 1);
             p + 1 <= to <= |data| && Records(Src.Elems(later[..q - |now|])) == data[p + 1..to]
    ensures var to := PositionAt(later, q - |now|, p + 1);
            PositionAt(now + later, q, p) == to && Records(Src.Elems((now + later)[..q])) == data[p..to]
  {
    hide Records;
    var to := PositionAt(later, q - |now|, p + 1);
    assert (now + later)[..q] == now + later[..q - |now|];
    assert Src.Elems((now + later)[..q]) == Src.Elems(now) + Src.Elems(later[..q - |now|]);
    RecordsConcat(Src.Elems(now), Src.Elems(later[..q - |now|]));
    assert data[p..to] == [data[p]] + data[p + 1..to];
  }

  lemma {:induction false} StepRecords(c: Src.Config, st: Src.State, q: nat)
    requires Src.ValidConfig(c) && st.position < c.end && 0 < q <= |Src.EmittedBy(c, st)|
    ensures Records(Src.Elems(Src.EmittedBy(c, st)[..q])) == [c.data[st.position]]
    ensures Src.EmittedBy(c, st)[q - 1].position == st.position + 1
    decreases q
  {
    var now := Src.EmittedBy(c, st);
    var x := Src.Elems(now[..q]);
    assert x[..q - 1] == Src.Elems(now[..q - 1]);
    if q > 1 {
      StepRecords(c, st, q - 1);
      assert !now[q - 1].elem.RecordElement?;
    } else {
      assert x[..0] == [];
    }
  }

  // ----- The cut of one channel ------------------------------------------------------------

  lemma {:induction false} WellFormedConcat(a: seq<Element>, b: seq<Element>, base: int)
    requires WellFormed(a, base) && WellFormed(b, base + NumBarriers(a))
    requires forall i :: 0 <= i < |a| ==> !a[i].EndOfStream?
    ensures WellFormed(a + b, base)
  {
    forall q | 0 <= q < |a + b| && (a + b)[q].BarrierElement?
      ensures (a + b)[q].id == base + NumBarriers((a + b)[..q + 1])
    {
      if q < |a| {
        assert (a + b)[..q + 1] == a[..q + 1];
      } else {
        assert (a + b)[..q + 1] == a + b[..q + 1 - |a|];
        NumBarriersConcat(a, b[..q + 1 - |a|]);
      }
    }
  }

  lemma {:induction false} StepWellFormed(c: Src.Config, st: Src.State)
    requires Src.ValidConfig(c) && st.position < c.end
    ensures var now := Src.Elems(Src.EmittedBy(c, st));
            && WellFormed(now, st.injected)
            && NumBarriers(now) == Src.Next(c, st).injected - st.injected
            && forall i :: 0 <= i < |now| ==> !now[i].EndOfStream?
  {
    var now := Src.Elems(Src.EmittedBy(c, st));
    var last := |now| - 1;
    NoBarriers(now[..last]);
    assert now[..last + 1] == now;
  }

  lemma {:induction false} NoBarriers(s: seq<Element>)
    requires forall i :: 0 <= i < |s| ==> !s[i].BarrierElement?
    ensures NumBarriers(s) == 0
  {
    if s != [] {
      NoBarriers(s[..|s| - 1]);
    }
  }

  /** A source's stream numbers its barriers from the one it resumed behind and ends once. */
  lemma {:induction false} SentWellFormed(c: Src.Config, st: Src.State)
    requires Src.ValidConfig(c)
    ensures WellFormed(Src.Elems(Src.Emissions(c, st)), st.injected) && Ended(Src.Elems(Src.Emissions(c, st)))
    decreases c.end - st.position
  {
    hide Src.EmittedBy, Src.Next, WellFormed, NumBarriers;
    if st.position >= c.end {
      EndWellFormed(st);
    } else {
      StepWellFormed(c, st);
      Src.NextPosition(c, st);
      SentWellFormed(c, Src.Next(c, st));
      var now, later := Src.EmittedBy(c, st), Src.Emissions(c, Src.Next(c, st));
      assert Src.Elems(now + later) == Src.Elems(now) + Src.Elems(later);
      WellFormedConcat(Src.Elems(now), Src.Elems(later), st.injected);
    }
  }

  lemma {:induction false} EndWellFormed(st: Src.State)
    ensures WellFormed(Src.Elems([Src.Emission(EndOfStream, st.position)]), st.injected)
  {}

  /** A cut is a prefix: empty, ending at barrier number `k`, or the whole stream. */
  lemma {:induction false} CutIsPrefix(s: seq<Element>, k: nat) returns (q: nat)
    requires s != []
    ensures q <= |s| && CutAt(s, k) == s[..q]
    ensures k > 0 ==> q > 0 && ((NumBarriers(s[..q]) == k && s[q - 1].BarrierElement?) || (q == |s| && NumBarriers(s) < k))
    ensures k == 0 ==> q == 0
  {
    var init := s[..|s| - 1];
    if k <= NumBarriers(init) {
      if init == [] {
        q := 0;
      } else {
        q := CutIsPrefix(init, k);
        assert init[..q] == s[..q];
      }
    } else {
      q := |s|;
      assert s[..q] == s;
    }
  }

  lemma {:induction false} BarsOfElement(e: Element)
    ensures Src.NumBars(Src.Items(e)) == NumBarriers([e])
  {
    assert [e][..0] == [];
    if e.RecordElement? || e.BarrierElement? {
      assert Src.Items(e)[1..] == [];
    }
  }

  lemma {:induction false} BarsAreBarriers(ems: seq<Src.Emission>)
    ensures Src.NumBars(Src.Plain(ems)) == NumBarriers(Src.Elems(ems))
  {
    hide Src.NumBars, Src.Items, NumBarriers;
    if ems == [] {
      NoBarsInNothing();
    } else {
      BarsAreBarriers(ems[1..]);
      var e := ems[0].elem;
      assert Src.Elems(ems) == [e] + Src.Elems(ems[1..]);
      NumBarriersConcat([e], Src.Elems(ems[1..]));
      Src.NumBarsConcat(Src.Items(e), Src.Plain(ems[1..]));
      BarsOfElement(e);
    }
  }

  lemma {:induction false} NoBarsInNothing()
    ensures Src.NumBars([]) == 0 && NumBarriers([]) == 0
  {
  }

  /** A source that reaches checkpoint `k + j` sends at least `j` barriers from checkpoint `k` on. */
  lemma {:induction false} ReachesEnough(s: SourceSubtask, k: nat, j: nat)
    requires ValidSource(s) && Src.Reaches(s.config, s.start, k + j)
    ensures NumBarriers(Src.Elems(SentFrom(s, k))) >= j
    ensures Position(s, k) == s.start + k * s.config.barrierInterval
  {
    var c := s.config;
    MulMonotone(k, k + j, c.barrierInterval);
    assert (k + j) * c.barrierInterval == k * c.barrierInterval + j * c.barrierInterval;
    var p := Position(s, k);
    Src.PlainIsPlainFrom(c, Src.Start(p, k));
    Src.EpochsThenResume(c, p, k, j);
    Src.BarsOfEpochs(c, p, k, j);
    Src.NumBarsConcat(Src.PlainEpochs(c, p, k, j), Src.PlainFrom(c, p + j * c.barrierInterval, 0, k + j));
    BarsAreBarriers(SentFrom(s, k));
  }

  /** The records before the j-th barrier of a run resumed at checkpoint `k` are exactly the data
      between the positions recorded for `k` and for `k + j`. */
  lemma {:induction false} CutRecords(s: SourceSubtask, k: nat, j: nat)
    requires ValidSource(s)
    ensures Position(s, k) <= Position(s, k + j) <= s.config.end
    ensures Records(CutAt(StreamFrom(s, k), j)) == s.config.data[Position(s, k)..Position(s, k + j)]
  {
    var c, from := s.config, Position(s, k);
    var ems := SentFrom(s, k);
    var stream := Src.Elems(ems);
    SentWellFormed(c, Src.Start(from, k));
    var q := CutIsPrefix(stream, j);
    SentRecords(c, Src.Start(from, k), q);
    assert Src.Elems(ems[..q]) == stream[..q];
    CutPositionReached(s, k, j, q);
  }

  lemma {:induction false} CutPositionReached(s: SourceSubtask, k: nat, j: nat, q: nat)
    requires ValidSource(s) && q <= |SentFrom(s, k)|
    requires WellFormed(Src.Elems(SentFrom(s, k)), k)
    requires var stream := Src.Elems(SentFrom(s, k));
             && (j == 0 ==> q == 0)
             && (j > 0 ==> q > 0 && ((NumBarriers(stream[..q]) == j && stream[q - 1].BarrierElement?) || (q == |stream| && NumBarriers(stream) < j)))
    ensures PositionAt(SentFrom(s, k), q, Position(s, k)) == Position(s, k + j)
  {
    var ems := SentFrom(s, k);
    var stream := Src.Elems(ems);
    if j > 0 {
      if q == |stream| && NumBarriers(stream) < j {
        if Src.Reaches(s.config, s.start, k + j) {
          ReachesEnough(s, k, j);
        }
        LastPosition(s.config, Src.Start(Position(s, k), k));
      } else {
        AcknowledgedPositions(s, k);
        assert stream[q - 1].id == k + NumBarriers(stream[..q - 1 + 1]);
        assert ems[q - 1].elem == stream[q - 1];
      }
    }
  }

  lemma {:induction false} LastPosition(c: Src.Config, st: Src.State)
    requires Src.ValidConfig(c) && st.position <= c.end
    ensures var ems := Src.Emissions(c, st); ems != [] && ems[|ems| - 1].position == c.end
    decreases c.end - st.position
  {
    if st.position < c.end {
      LastPosition(c, Src.Next(c, st));
    }
  }

  /** A whole stream holds all the data from the position it was resumed at. */
  lemma {:induction false} RestRecords(s: SourceSubtask, k: nat)
    requires ValidSource(s)
    ensures Records(StreamFrom(s, k)) == s.config.data[Position(s, k)..s.config.end]
  {
    hide Records, Src.Emissions, Position;
    var ems, st := SentFrom(s, k), Src.Start(Position(s, k), k);
    LastPosition(s.config, st);
    SentRecords(s.config, st, |ems|);
    assert ems[..|ems|] == ems;
  }

  // ----- In time -----------------------------------------------------------------------------

  /** Everything the source still has to read from checkpoint `k` on may come after `e`. */
  ghost predicate Ahead(s: SourceSubtask, k: nat, e: Element)
    requires ValidSource(s)
  {
    forall b :: Position(s, k) <= b < s.config.end ==> Admits(e, s.config.data[b])
  }

  /** A source sends nothing that its own later records could contradict, in this run or in one
      resumed from the checkpoint. */
  lemma {:induction false} CutAhead(s: SourceSubtask, k: nat, j: nat)
    requires ValidSource(s) && Src.BoundedDisorder(s.config, s.start)
    ensures forall e :: e in CutAt(StreamFrom(s, k), j) ==> Ahead(s, k + j, e)
  {
    hide Src.Emissions, CutAt, Position;
    var c, ems, st := s.config, SentFrom(s, k), Src.Start(Position(s, k), k);
    var stream := Src.Elems(ems);
    SentWellFormed(c, st);
    var q := CutIsPrefix(stream, j);
    CutPositionReached(s, k, j, q);
    LastPosition(c, st);
    Src.SourceWatermarksSafe(c, st, s.start);
    Src.EmissionsPositioned(c, st);
    forall e | e in CutAt(stream, j) ensures Ahead(s, k + j, e) {
      var x :| 0 <= x < q && stream[x] == e;
      assert ems[x].elem == e && ems[x].position <= ems[q - 1].position;
      if e.EndOfStream? {
        assert x == |stream| - 1;
      }
    }
  }

  lemma {:induction false} StreamPunctual(s: SourceSubtask, k: nat)
    requires ValidSource(s) && Src.BoundedDisorder(s.config, s.start)
    ensures Punctual(StreamFrom(s, k))
  {
    hide Src.Emissions, Position;
    var st := Src.Start(Position(s, k), k);
    Src.SourceKeepsPromise(s.config, Position(s, k), k);
    SentWellFormed(s.config, st);
    var x := StreamFrom(s, k);
    assert forall a :: 0 <= a < |x| - 1 ==> !x[a].EndOfStream?;
  }

  /** A record a resumed source sends is data from its resume position on. */
  lemma {:induction false} StreamRecord(s: SourceSubtask, k: nat, i: nat) returns (b: nat)
    requires ValidSource(s) && i < |StreamFrom(s, k)| && StreamFrom(s, k)[i].RecordElement?
    ensures Position(s, k) <= b < s.config.end && s.config.data[b] == StreamFrom(s, k)[i].rec
  {
    hide Src.Emissions;
    var ems := SentFrom(s, k);
    Src.EmissionsPositioned(s.config, Src.Start(Position(s, k), k));
    b := ems[i].position - 1;
  }

  // ----- All the runs of a source ------------------------------------------------------------

  /** What a source sends in each run of a job. */
  function SourceRuns(s: SourceSubtask, marks: seq<nat>): (runs: seq<seq<Element>>)
    requires ValidSource(s)
    ensures |runs| == |marks| + 1
  {
    seq(|marks| + 1, r requires 0 <= r < |marks| + 1 => StreamFrom(s, Base(marks[..r])))
  }

  /** What is left of the crashed runs is the data below the position of the checkpoint. */
  lemma {:induction false} KeptIsData(s: SourceSubtask, marks: seq<nat>, n: nat)
    requires ValidSource(s) && n <= |marks|
    ensures Records(Kept(SourceRuns(s, marks), marks[..n])) == s.config.data[s.start..Position(s, Base(marks[..n]))]
  {
    hide Src.Emissions, CutAt, Records, StreamFrom;
    if n == 0 {
      NothingRead(s);
    } else {
      var r := n - 1;
      var k := Base(marks[..r]);
      KeptIsData(s, marks, r);
      KeptMore(SourceRuns(s, marks), marks, r);
      CutRecords(s, k, marks[r]);
      RecordsConcat(Kept(SourceRuns(s, marks), marks[..r]), CutAt(StreamFrom(s, k), marks[r]));
      var d := s.config.data;
      assert d[s.start..Position(s, k)] + d[Position(s, k)..Position(s, k + marks[r])] == d[s.start..Position(s, k + marks[r])];
    }
  }

  lemma {:induction false} NothingRead(s: SourceSubtask)
    requires ValidSource(s)
    ensures Records([]) == [] && Position(s, 0) == s.start
  {}

  /** Every record that is still to be sent may come after everything that is left. */
  lemma {:induction false} KeptAhead(s: SourceSubtask, marks: seq<nat>, n: nat)
    requires ValidSource(s) && Src.BoundedDisorder(s.config, s.start) && n <= |marks|
    ensures Punctual(Kept(SourceRuns(s, marks), marks[..n]))
    ensures forall e :: e in Kept(SourceRuns(s, marks), marks[..n]) ==> Ahead(s, Base(marks[..n]), e)
  {
    hide CutAt, StreamFrom, Punctual, Position, Admits;
    if n == 0 {
      assert Punctual([]) by { NothingLate(); }
    } else {
      var r := n - 1;
      var k := Base(marks[..r]);
      var before, stream := Kept(SourceRuns(s, marks), marks[..r]), StreamFrom(s, k);
      KeptAhead(s, marks, r);
      KeptMore(SourceRuns(s, marks), marks, r);
      CutAhead(s, k, marks[r]);
      CutRecords(s, k, marks[r]);
      JoinedPunctual(s, k, before, marks[r]);
    }
  }

  lemma {:induction false} JoinedPunctual(s: SourceSubtask, k: nat, before: seq<Element>, j: nat)
    requires ValidSource(s) && Src.BoundedDisorder(s.config, s.start)
    requires Punctual(before) && forall e :: e in before ==> Ahead(s, k, e)
    ensures Punctual(before + CutAt(StreamFrom(s, k), j)) && Punctual(before + StreamFrom(s, k))
  {
    hide StreamFrom, Position, CutAt, Admits;
    var stream := StreamFrom(s, k);
    StreamPunctual(s, k);
    StartOfCut(stream, j);
    var all := before + stream;
    forall a, b | 0 <= a < b < |all| && all[b].RecordElement? ensures Admits(all[a], all[b].rec) {
      if b >= |before| {
        if a < |before| {
          var d := StreamRecord(s, k, b - |before|);
          assert Ahead(s, k, before[a]);
        } else {
          assert all[a] == stream[a - |before|] && all[b] == stream[b - |before|];
        }
      } else {
        assert all[a] == before[a] && all[b] == before[b];
      }
    }
    var part := before + CutAt(stream, j);
    assert part == all[..|part|];
    assert forall a :: 0 <= a < |part| ==> part[a] == all[a];
  }

  /** What is left of a source's streams is all its data, once and in order. */
  lemma {:induction false} EffectiveIsData(s: SourceSubtask, marks: seq<nat>)
    requires ValidSource(s)
    ensures Ended(SourceRuns(s, marks)[|marks|])
    ensures Records(Effective(SourceRuns(s, marks), marks)) == s.config.data[s.start..s.config.end]
  {
    hide Src.Emissions, CutAt, Records, WellFormed, Position;
    var n, k := |marks|, Base(marks);
    assert marks[..n] == marks;
    var runs := SourceRuns(s, marks);
    SentWellFormed(s.config, Src.Start(Position(s, k), k));
    KeptIsData(s, marks, n);
    RestRecords(s, k);
    RecordsConcat(Kept(runs, marks), StreamFrom(s, k));
    CutRecords(s, 0, k);
    NothingRead(s);
    var d := s.config.data;
    assert d[s.start..Position(s, k)] + d[Position(s, k)..s.config.end] == d[s.start..s.config.end];
  }

  /** Nothing of it is late: the disorder a vertex declares bounds what all its runs sent, whatever
      the crashes. */
  lemma {:induction false} SourceIsSound(s: SourceSubtask, marks: seq<nat>)
    requires ValidSource(s) && Src.BoundedDisorder(s.config, s.start)
    ensures Sound(SourceRuns(s, marks), marks)
  {
    hide Src.Emissions, CutAt, Punctual, WellFormed, Position;
    var n, k := |marks|, Base(marks);
    assert marks[..n] == marks;
    var runs := SourceRuns(s, marks);
    KeptAhead(s, marks, n);
    JoinedPunctual(s, k, Kept(runs, marks), 0);
    forall r | 0 <= r < |runs| ensures WellFormed(runs[r], Base(marks[..r])) && Ended(runs[r]) {
      SentWellFormed(s.config, Src.Start(Position(s, Base(marks[..r])), Base(marks[..r])));
    }
  }
}
