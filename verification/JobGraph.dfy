/** The job graph and its topological order: Kahn's algorithm, taking the smallest ready vertex. */
module JobGraph {
  import opened Elements
  import opened ByteOrder

  type Id = Bytes

  datatype Shape = Shape(vertices: set<Id>, edges: set<(Id, Id)>)

  predicate ValidShape(g: Shape) {
    forall e :: e in g.edges ==> e.0 in g.vertices && e.1 in g.vertices
  }

  // ----- What an order is ------------------------------------------------------------------

  function Placed(order: seq<Id>): set<Id> {
    set i | 0 <= i < |order| :: order[i]
  }

  /** Everything an already placed vertex depends on comes before it. */
  ghost predicate Forward(g: Shape, order: seq<Id>) {
    forall u, j :: 0 <= j < |order| && (u, order[j]) in g.edges ==> u in order[..j]
  }

  /** Every vertex once, every edge forward. */
  ghost predicate Topological(g: Shape, order: seq<Id>) {
    Distinct(order) && Placed(order) == g.vertices && Forward(g, order)
  }

  /** The predecessors of `v` not placed yet. */
  function Missing(g: Shape, placed: set<Id>, v: Id): set<Id> {
    set e | e in g.edges && e.1 == v && e.0 !in placed :: e.0
  }

  lemma {:induction false} MissingIs(g: Shape, placed: set<Id>, v: Id, u: Id)
    ensures u in Missing(g, placed, v) <==> (u, v) in g.edges && u !in placed
  {
    if u in Missing(g, placed, v) {
      var e :| e in g.edges && e.1 == v && e.0 !in placed && e.0 == u;
      assert e == (u, v);
    }
    if (u, v) in g.edges && u !in placed {
      assert (u, v).0 == u && (u, v).1 == v;
    }
  }

  function Ready(g: Shape, placed: set<Id>): set<Id> {
    set v | v in g.vertices && v !in placed && Missing(g, placed, v) == {}
  }

  ghost predicate Smallest(s: set<Id>, v: Id) {
    v in s && forall w :: w in s ==> w == v || Before(v, w)
  }

  lemma {:induction false} SmallestExists(s: set<Id>)
    requires s != {}
    ensures exists v :: Smallest(s, v)
    decreases |s|
  {
    var v :| v in s;
    if s == {v} {
      assert Smallest(s, v);
    } else {
      var rest := s - {v};
      assert rest != {};
      SmallestExists(rest);
      var w :| Smallest(rest, w);
      BeforeTotal(v, w);
      if Before(v, w) {
        forall x | x in s ensures x == v || Before(v, x) {
          if x != v && x != w { BeforeTransitive(v, w, x); }
        }
        assert Smallest(s, v);
      } else {
        assert Smallest(s, w);
      }
    }
  }

  lemma {:induction false} SmallestUnique(s: set<Id>, v: Id, w: Id)
    requires Smallest(s, v) && Smallest(s, w)
    ensures v == w
  {
    if v != w {
      BeforeAsymmetric(v, w);
    }
  }

  ghost function SmallestOf(s: set<Id>): (v: Id)
    requires s != {}
    ensures Smallest(s, v)
  {
    SmallestExists(s);
    var v :| Smallest(s, v);
    v
  }

  // ----- The order -------------------------------------------------------------------------

  /** What has been placed so far is sound. */
  ghost predicate Sound(g: Shape, order: seq<Id>) {
    Distinct(order) && Placed(order) <= g.vertices && Forward(g, order)
  }

  lemma {:induction false} PlacedAppend(order: seq<Id>, v: Id)
    ensures Placed(order + [v]) == Placed(order) + {v}
  {
    var more := order + [v];
    forall x ensures x in Placed(more) <==> x in Placed(order) + {v} {
      if x in Placed(order) {
        var i :| 0 <= i < |order| && order[i] == x;
        assert more[i] == x;
      }
      if x == v {
        assert more[|order|] == x;
      }
      if x in Placed(more) {
        var i :| 0 <= i < |more| && more[i] == x;
        assert i < |order| ==> order[i] == x;
      }
    }
  }

  lemma {:induction false} InPlaced(order: seq<Id>, v: Id)
    ensures v in Placed(order) <==> v in order
  {}

  lemma {:induction false} AppendSound(g: Shape, order: seq<Id>, v: Id)
    requires Sound(g, order) && v in Ready(g, Placed(order))
    ensures Sound(g, order + [v]) && Placed(order + [v]) == Placed(order) + {v} && v !in Placed(order)
  {
    PlacedAppend(order, v);
    var more := order + [v];
    InPlaced(order, v);
    forall u, j | 0 <= j < |more| && (u, more[j]) in g.edges ensures u in more[..j] {
      if j < |order| {
        assert more[..j] == order[..j];
      } else {
        MissingIs(g, Placed(order), v, u);
        InPlaced(order, u);
        assert more[..j] == order;
      }
    }
  }

  /** Take the smallest ready vertex until none is ready. */
  ghost function Kahn(g: Shape, order: seq<Id>): (r: seq<Id>)
    requires Sound(g, order)
    ensures Sound(g, r) && Ready(g, Placed(r)) == {} && order <= r
    decreases g.vertices - Placed(order)
  {
    var ready := Ready(g, Placed(order));
    if ready == {} then order
    else
      AppendSound(g, order, SmallestOf(ready));
      Kahn(g, order + [SmallestOf(ready)])
  }

  /** At every position the order takes the smallest vertex that is ready there. */
  lemma {:induction false} KahnTakesSmallest(g: Shape, order: seq<Id>, i: nat)
    requires Sound(g, order) && |order| <= i < |Kahn(g, order)|
    ensures Smallest(Ready(g, Placed(Kahn(g, order)[..i])), Kahn(g, order)[i])
    decreases g.vertices - Placed(order)
  {
    var v := SmallestOf(Ready(g, Placed(order)));
    AppendSound(g, order, v);
    var r := Kahn(g, order);
    if i == |order| {
      assert r[..i] == order && (order + [v])[i] == v;
    } else {
      KahnTakesSmallest(g, order + [v], i);
    }
  }

  // ----- Cycles ----------------------------------------------------------------------------

  ghost predicate Cycle(g: Shape, c: seq<Id>) {
    && c != []
    && (forall i :: 0 <= i < |c| - 1 ==> (c[i], c[i + 1]) in g.edges)
    && (c[|c| - 1], c[0]) in g.edges
  }

  function Position(order: seq<Id>, v: Id): nat
    requires v in order
    ensures Position(order, v) < |order| && order[Position(order, v)] == v
  {
    if order[|order| - 1] == v then |order| - 1 else Position(order[..|order| - 1], v)
  }

  /** In an order with every edge forward, an edge goes to a later position. */
  lemma {:induction false} EdgesGoForward(g: Shape, order: seq<Id>, u: Id, v: Id)
    requires Topological(g, order) && (u, v) in g.edges && ValidShape(g)
    ensures u in order && v in order && Position(order, u) < Position(order, v)
  {
    assert (u, v).0 in g.vertices && (u, v).1 in g.vertices;
    InPlaced(order, v);
    var j := Position(order, v);
    assert u in order[..j];
    var i :| 0 <= i < j && order[i] == u;
    assert i == Position(order, u);
  }

  lemma {:induction false} CycleHasNoOrder(g: Shape, order: seq<Id>, c: seq<Id>, i: nat)
    requires ValidShape(g) && Topological(g, order) && Cycle(g, c) && i < |c|
    ensures c[0] in order && c[i] in order && Position(order, c[0]) + i <= Position(order, c[i])
  {
    if i == 0 {
      assert (c[|c| - 1], c[0]) in g.edges;
      EdgesGoForward(g, order, c[|c| - 1], c[0]);
    } else {
      CycleHasNoOrder(g, order, c, i - 1);
      assert (c[i - 1], c[i - 1 + 1]) in g.edges;
      EdgesGoForward(g, order, c[i - 1], c[i]);
    }
  }

  lemma {:induction false} NoOrderWithACycle(g: Shape, order: seq<Id>, c: seq<Id>)
    requires ValidShape(g) && Topological(g, order)
    ensures !Cycle(g, c)
  {
    if Cycle(g, c) {
      EdgesGoForward(g, order, c[|c| - 1], c[0]);
      CycleHasNoOrder(g, order, c, |c| - 1);
    }
  }

  /** Some vertex of `left` has an edge to this one. */
  ghost predicate FedBy(g: Shape, left: set<Id>, v: Id) {
    exists u :: u in left && (u, v) in g.edges
  }

  lemma {:induction false} Feeder(g: Shape, left: set<Id>, v: Id) returns (u: Id)
    requires FedBy(g, left, v)
    ensures u in left && (u, v) in g.edges
  {
    u :| u in left && (u, v) in g.edges;
  }

  /** A walk along edges, every vertex of it in `left`. */
  ghost predicate Walk(g: Shape, left: set<Id>, w: seq<Id>) {
    && (forall i :: 0 <= i < |w| ==> w[i] in left)
    && (forall i :: 0 <= i < |w| - 1 ==> (w[i], w[i + 1]) in g.edges)
  }

  /** Where every vertex has a predecessor there are walks of any length. */
  lemma {:induction false} LongWalk(g: Shape, left: set<Id>, n: nat) returns (w: seq<Id>)
    requires left != {} && forall v :: v in left ==> FedBy(g, left, v)
    ensures Walk(g, left, w) && |w| == n
  {
    hide FedBy;
    if n == 0 {
      w := [];
    } else {
      var rest := LongWalk(g, left, n - 1);
      if rest == [] {
        var v :| v in left;
        w := [v];
      } else {
        assert rest[0] in left;
        var u := Feeder(g, left, rest[0]);
        w := [u] + rest;
      }
    }
  }

  lemma {:induction false} FewDistinct(w: seq<Id>, left: set<Id>)
    requires Distinct(w) && forall i :: 0 <= i < |w| ==> w[i] in left
    ensures |w| <= |left|
  {
    if w != [] {
      var last := w[|w| - 1];
      FewDistinct(w[..|w| - 1], left - {last});
    }
  }

  /** A walk longer than the vertices it stays among closes on itself. */
  lemma {:induction false} WalkCloses(g: Shape, left: set<Id>) returns (c: seq<Id>)
    requires left != {} && forall v :: v in left ==> FedBy(g, left, v)
    ensures Cycle(g, c)
  {
    hide FedBy;
    var w := LongWalk(g, left, |left| + 1);
    if Distinct(w) {
      FewDistinct(w, left);
    }
    var i, j :| 0 <= i < j < |w| && w[i] == w[j];
    c := w[i..j];
    assert (w[j - 1], w[j - 1 + 1]) in g.edges;
    forall k | 0 <= k < |c| - 1 ensures (c[k], c[k + 1]) in g.edges {
      assert (w[i + k], w[i + k + 1]) in g.edges;
    }
  }

  lemma {:induction false} NothingLeft(all: set<Id>, some: set<Id>)
    requires some <= all
    ensures all - some == {} ==> some == all
  {
    if all - some == {} {
      forall v | v in all ensures v in some {
        assert v !in all - some;
      }
    }
  }

  /** Kahn's algorithm leaves a vertex out exactly when the graph has a cycle. */
  lemma {:induction false} IncompleteIffCycle(g: Shape)
    requires ValidShape(g)
    ensures Sound(g, [])
    ensures !Topological(g, Kahn(g, [])) <==> exists c :: Cycle(g, c)
  {
    var r := Kahn(g, []);
    if Topological(g, r) {
      forall c ensures !Cycle(g, c) {
        NoOrderWithACycle(g, r, c);
      }
    } else {
      var left := g.vertices - Placed(r);
      forall v | v in left ensures FedBy(g, left, v) {
        assert v !in Ready(g, Placed(r));
        var u :| u in Missing(g, Placed(r), v);
        MissingIs(g, Placed(r), v, u);
        assert (u, v).0 in g.vertices;
      }
      NothingLeft(g.vertices, Placed(r));
      var c := WalkCloses(g, left);
    }
  }

  // ----- The smallest order ----------------------------------------------------------------

  /** Lexicographic order of vertex sequences. */
  ghost predicate SmallerOrder(a: seq<Id>, b: seq<Id>) {
    exists i :: 0 <= i < |a| && i < |b| && a[..i] == b[..i] && Before(a[i], b[i])
  }

  /** What comes next in a topological order is ready there. */
  lemma {:induction false} NextIsReady(g: Shape, t: seq<Id>, i: nat)
    requires Topological(g, t) && i < |t|
    ensures t[i] in Ready(g, Placed(t[..i]))
  {
    InPlaced(t, t[i]);
    InPlaced(t[..i], t[i]);
    forall u ensures u !in Missing(g, Placed(t[..i]), t[i]) {
      MissingIs(g, Placed(t[..i]), t[i], u);
      InPlaced(t[..i], u);
    }
  }

  lemma {:induction false} SameLength(g: Shape, a: seq<Id>, b: seq<Id>)
    requires Topological(g, a) && Topological(g, b)
    ensures |a| == |b|
  {
    FewDistinct(a, g.vertices);
    FewDistinct(b, g.vertices);
    AllOf(a);
    AllOf(b);
  }

  lemma {:induction false} AllOf(a: seq<Id>)
    requires Distinct(a)
    ensures |Placed(a)| == |a|
  {
    if a != [] {
      var init, last := a[..|a| - 1], a[|a| - 1];
      AllOf(init);
      PlacedAppend(init, last);
      assert init + [last] == a;
      InPlaced(init, last);
    }
  }

  lemma {:induction false} FirstDifference(a: seq<Id>, b: seq<Id>) returns (i: nat)
    requires a != b && |a| == |b|
    ensures i < |a| && a[..i] == b[..i] && a[i] != b[i]
  {
    if a[0] != b[0] {
      i := 0;
    } else {
      assert a == [a[0]] + a[1..] && b == [b[0]] + b[1..];
      var k := FirstDifference(a[1..], b[1..]);
      i := k + 1;
      assert a[..i] == [a[0]] + a[1..][..k] && b[..i] == [b[0]] + b[1..][..k];
    }
  }

  /** Of all topological orders it is the lexicographically smallest. */
  lemma {:induction false} KahnIsSmallest(g: Shape, t: seq<Id>)
    requires ValidShape(g) && Topological(g, t) && Sound(g, []) && Topological(g, Kahn(g, []))
    ensures t == Kahn(g, []) || SmallerOrder(Kahn(g, []), t)
  {
    var r := Kahn(g, []);
    if t != r {
      SameLength(g, r, t);
      var i := FirstDifference(r, t);
      KahnTakesSmallest(g, [], i);
      NextIsReady(g, t, i);
      assert Before(r[i], t[i]);
    }
  }

  /** Counting down: placing `u` takes it from what its successors miss and from nothing else. */
  lemma {:induction false} MissingAfter(g: Shape, placed: set<Id>, u: Id, v: Id)
    ensures Missing(g, placed + {u}, v) == Missing(g, placed, v) - {u}
    ensures u in Missing(g, placed, v) <==> (u, v) in g.edges && u !in placed
  {
    MissingIs(g, placed, v, u);
    forall x ensures x in Missing(g, placed + {u}, v) <==> x in Missing(g, placed, v) - {u} {
      MissingIs(g, placed, v, x);
      MissingIs(g, placed + {u}, v, x);
    }
  }
}
