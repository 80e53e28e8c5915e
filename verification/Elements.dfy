/** What travels on a channel, and how a whole stream of it is read: its records, its barriers and
    their numbering, the last watermark, whether it has ended, and whether it keeps the promises
    its watermarks make. A few lemmas say how each of these grows by one element. */
module Elements {
  import opened Int64

  type Byte = b: int | 0 <= b < 256
  type Bytes = seq<Byte>

  datatype Record = Record(key: Bytes, value: Bytes, eventTime: int64)

  /** Records and control elements share one stream, so they stay ordered relative to one
      another on every channel. */
  datatype Element =
    | RecordElement(rec: Record)
    | WatermarkElement(wm: int64)
    | BarrierElement(id: int, timestamp: int64)
    | EndOfStream

  datatype Option<+T> = None | Some(value: T)

  /** One parallel instance of a vertex. */
  datatype SubtaskKey = SubtaskKey(vertexId: Bytes, index: nat)

  predicate Distinct<T(==)>(xs: seq<T>) {
    forall i, j :: 0 <= i < j < |xs| ==> xs[i] != xs[j]
  }

  function NumBarriers(s: seq<Element>): nat {
    if s == [] then 0
    else NumBarriers(s[..|s| - 1]) + if s[|s| - 1].BarrierElement? then 1 else 0
  }

  /** Checkpoint IDs are consecutive from `base + 1` and nothing follows the end of stream. */
  ghost predicate WellFormed(s: seq<Element>, base: int) {
    && (forall p :: 0 <= p < |s| && s[p].BarrierElement? ==> s[p].id == base + NumBarriers(s[..p + 1]))
    && (forall p :: 0 <= p < |s| - 1 ==> !s[p].EndOfStream?)
  }

  /** The stream has been read to its end. */
  predicate Ended(s: seq<Element>) {
    s != [] && s[|s| - 1].EndOfStream?
  }

  /** Every record comes after only watermarks strictly below its event time. */
  ghost predicate KeepsPromise(s: seq<Element>) {
    forall a, b :: 0 <= a < b < |s| && s[a].WatermarkElement? && s[b].RecordElement? ==> s[b].rec.eventTime > s[a].wm
  }

  /** Whether the record may come after the element: it is later than a watermark, and it never
      comes after an end of stream. */
  predicate Admits(e: Element, rec: Record) {
    match e
    case WatermarkElement(wm) => rec.eventTime > wm
    case EndOfStream => false
    case _ => true
  }

  /** No record follows a watermark it is not later than, or an end of stream. */
  ghost predicate Punctual(s: seq<Element>) {
    forall a, b :: 0 <= a < b < |s| && s[b].RecordElement? ==> Admits(s[a], s[b].rec)
  }

  /** The end of stream comes only behind the largest watermark there is. */
  ghost predicate Flushed(s: seq<Element>) {
    forall b :: 0 <= b < |s| && s[b].EndOfStream? ==> exists a :: 0 <= a < b && s[a] == WatermarkElement(MAX_INT64)
  }

  /** The part of a stream that belongs to the first `k` checkpoints: up to and including its
      k-th barrier, or all of it when it has fewer than `k`. */
  function CutAt(s: seq<Element>, k: nat): seq<Element>
    decreases |s|
  {
    if s == [] then s
    else if k <= NumBarriers(s[..|s| - 1]) then CutAt(s[..|s| - 1], k)
    else s
  }

  /** The last watermark of a stream, MIN_INT64 before the first. */
  function LastWatermark(d: seq<Element>): int64 {
    if d == [] then MIN_INT64
    else if d[|d| - 1].WatermarkElement? then d[|d| - 1].wm
    else LastWatermark(d[..|d| - 1])
  }

  /** Some watermark of the stream is at or past `wm`. */
  ghost predicate Promised(d: seq<Element>, wm: int64) {
    exists a :: 0 <= a < |d| && d[a].WatermarkElement? && d[a].wm >= wm
  }

  function Records(s: seq<Element>): seq<Record> {
    if s == [] then []
    else if s[|s| - 1].RecordElement? then Records(s[..|s| - 1]) + [s[|s| - 1].rec]
    else Records(s[..|s| - 1])
  }

  /** The records that satisfy `keep`, in order. */
  function Select(rs: seq<Record>, keep: Record -> bool): seq<Record> {
    if rs == [] then []
    else if keep(rs[|rs| - 1]) then Select(rs[..|rs| - 1], keep) + [rs[|rs| - 1]]
    else Select(rs[..|rs| - 1], keep)
  }

  /** The records a writer sends to subtask `i` of `n`. */
  function ToSubtask(hash: Bytes -> nat, n: nat, i: nat): Record -> bool
    requires n > 0
  {
    (r: Record) => hash(r.key) % n == i
  }

  lemma {:induction false} NothingLate()
    ensures Punctual([])
  {}

  lemma {:induction false} PunctualPrefix(part: seq<Element>, s: seq<Element>)
    requires Punctual(s) && part <= s
    ensures Punctual(part)
  {
    forall a, b | 0 <= a < b < |part| && part[b].RecordElement? ensures Admits(part[a], part[b].rec) {
      assert Admits(s[a], s[b].rec);
    }
  }

  lemma {:induction false} FlushedPrefix(part: seq<Element>, s: seq<Element>)
    requires Flushed(s) && part <= s
    ensures Flushed(part)
  {
    forall b | 0 <= b < |part| && part[b].EndOfStream?
      ensures exists a :: 0 <= a < b && part[a] == WatermarkElement(MAX_INT64)
    {
      assert s[b] == part[b];
      var a :| 0 <= a < b && s[a] == WatermarkElement(MAX_INT64);
      assert part[a] == s[a];
    }
  }

  lemma {:induction false} SelectConcat(a: seq<Record>, b: seq<Record>, keep: Record -> bool)
    ensures Select(a + b, keep) == Select(a, keep) + Select(b, keep)
  {
    if b == [] {
      assert a + b == a;
    } else {
      var init := b[..|b| - 1];
      SelectConcat(a, init, keep);
      assert (a + b)[..|a + b| - 1] == a + init;
    }
  }

  lemma {:induction false} SelectSame(rs: seq<Record>, f: Record -> bool, g: Record -> bool)
    requires forall r :: r in rs ==> f(r) == g(r)
    ensures Select(rs, f) == Select(rs, g)
  {
    if rs != [] {
      SelectSame(rs[..|rs| - 1], f, g);
    }
  }

  lemma {:induction false} SelectCount(rs: seq<Record>, keep: Record -> bool, r: Record)
    ensures multiset(Select(rs, keep))[r] == if keep(r) then multiset(rs)[r] else 0
  {
    if rs != [] {
      SelectCount(rs[..|rs| - 1], keep, r);
      assert rs == rs[..|rs| - 1] + [rs[|rs| - 1]];
    }
  }

  /** Selecting from a rearrangement gives a rearrangement of the selection. */
  lemma {:induction false} SelectBag(a: seq<Record>, b: seq<Record>, keep: Record -> bool)
    requires multiset(a) == multiset(b)
    ensures multiset(Select(a, keep)) == multiset(Select(b, keep))
  {
    forall r ensures multiset(Select(a, keep))[r] == multiset(Select(b, keep))[r] {
      SelectCount(a, keep, r);
      SelectCount(b, keep, r);
    }
  }

  lemma {:induction false} LastWatermarkAppend(d: seq<Element>, e: Element)
    ensures LastWatermark(d + [e]) == if e.WatermarkElement? then e.wm else LastWatermark(d)
  {
    assert (d + [e])[..|d|] == d;
  }

  lemma {:induction false} LastWatermarkIsPromised(d: seq<Element>)
    ensures LastWatermark(d) == MIN_INT64 || Promised(d, LastWatermark(d))
  {
    if d != [] && !d[|d| - 1].WatermarkElement? {
      LastWatermarkIsPromised(d[..|d| - 1]);
      if LastWatermark(d) != MIN_INT64 {
        var a :| 0 <= a < |d| - 1 && d[..|d| - 1][a].WatermarkElement? && d[..|d| - 1][a].wm >= LastWatermark(d);
        assert d[a].WatermarkElement?;
      }
    }
  }

  lemma {:induction false} NumBarriersAppend(s: seq<Element>, e: Element)
    ensures NumBarriers(s + [e]) == NumBarriers(s) + if e.BarrierElement? then 1 else 0
  {
    assert (s + [e])[..|s|] == s;
  }

  lemma {:induction false} StartOfCut(s: seq<Element>, k: nat)
    ensures CutAt(s, k) <= s
  {
    if s != [] && CutAt(s, k) != s {
      StartOfCut(s[..|s| - 1], k);
    }
  }

  lemma {:induction false} CutOfMore(s: seq<Element>, e: Element, k: nat)
    ensures CutAt(s + [e], k) == if k <= NumBarriers(s) then CutAt(s, k) else s + [e]
  {
    assert (s + [e])[..|s|] == s;
  }

  lemma {:induction false} RecordsAppend(s: seq<Element>, e: Element)
    ensures Records(s + [e]) == if e.RecordElement? then Records(s) + [e.rec] else Records(s)
  {
    assert (s + [e])[..|s|] == s;
  }

  lemma {:induction false} RecordsConcat(s: seq<Element>, t: seq<Element>)
    ensures Records(s + t) == Records(s) + Records(t)
  {
    if t == [] {
      assert s + t == s;
    } else {
      var u := t[..|t| - 1];
      RecordsConcat(s, u);
      assert (s + t)[..|s + t| - 1] == s + u;
    }
  }

  lemma {:induction false} NumBarriersConcat(s: seq<Element>, t: seq<Element>)
    ensures NumBarriers(s + t) == NumBarriers(s) + NumBarriers(t)
  {
    if t == [] {
      assert s + t == s;
    } else {
      var u := t[..|t| - 1];
      NumBarriersConcat(s, u);
      assert (s + t)[..|s + t| - 1] == s + u;
    }
  }

  lemma {:induction false} NumBarriersPrefix(s: seq<Element>, p: nat)
    requires p <= |s|
    ensures NumBarriers(s[..p]) <= NumBarriers(s)
  {
    NumBarriersConcat(s[..p], s[p..]);
    assert s[..p] + s[p..] == s;
  }

  /** Well-formedness is inherited by every prefix. */
  lemma {:induction false} WellFormedPrefix(s: seq<Element>, base: int, p: nat)
    requires WellFormed(s, base) && p <= |s|
    ensures WellFormed(s[..p], base)
  {
    forall q | 0 <= q < p && s[..p][q].BarrierElement?
      ensures s[..p][q].id == base + NumBarriers(s[..p][..q + 1])
    {
      assert s[..p][..q + 1] == s[..q + 1];
    }
  }

  lemma {:induction false} WellFormedAppend(s: seq<Element>, base: int, e: Element)
    requires WellFormed(s, base) && !Ended(s)
    requires e.BarrierElement? ==> e.id == base + NumBarriers(s) + 1
    ensures WellFormed(s + [e], base)
  {
    var t := s + [e];
    forall q | 0 <= q < |t| && t[q].BarrierElement?
      ensures t[q].id == base + NumBarriers(t[..q + 1])
    {
      if q < |s| {
        assert t[..q + 1] == s[..q + 1];
      } else {
        assert t[..q + 1] == t;
        NumBarriersAppend(s, e);
      }
    }
  }

  /** A prefix that stops right at its k-th barrier, or that is a whole finished stream with
      fewer, is exactly the cut of any well-formed stream it begins. */
  lemma {:induction false} PrefixIsCut(d: seq<Element>, s: seq<Element>, base: int, k: nat)
    requires d <= s && WellFormed(s, base) && d != []
    requires (NumBarriers(d) == k && d[|d| - 1].BarrierElement?) || (NumBarriers(d) < k && Ended(d))
    ensures d == CutAt(s, k)
    decreases |s|
  {
    if d == s {
      return;
    }
    var u := s[..|s| - 1];
    assert d <= u;
    assert d[|d| - 1] == s[|d| - 1] && !s[|d| - 1].EndOfStream?;
    assert d == u[..|d|];
    NumBarriersPrefix(u, |d|);
    WellFormedPrefix(s, base, |u|);
    PrefixIsCut(d, u, base, k);
  }
}
