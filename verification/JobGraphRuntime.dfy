/** The graph object: edges kept in both directions, and Kahn's algorithm as a loop over in-degrees
    and a list of ready vertices. The loop's order is shown to be the one JobGraph.dfy defines, and
    what it reports when there is a cycle to be exactly the vertices it could not place. */
module JobGraphRuntime {
  import opened Elements
  import opened ByteOrder
  import opened JobGraph

  datatype Refusal = Accepted | EmptyId | DuplicateId | UnknownVertex | DuplicateEdge

  /** The order, or the vertices left when there is none. */
  datatype Ordering = Order(order: seq<Id>) | Cyclic(left: seq<Id>)

  function Sorted(ids: seq<Id>): seq<Id> {
    if ids == [] then [] else Insert(Sorted(ids[1..]), ids[0])
  }

  lemma {:induction false} SortedSound(ids: seq<Id>)
    requires Distinct(ids)
    ensures Ascending(Sorted(ids)) && Distinct(Sorted(ids)) && forall x :: x in Sorted(ids) <==> x in ids
  {
    if ids != [] {
      SortedSound(ids[1..]);
      assert forall x :: x in ids <==> x == ids[0] || x in ids[1..];
      InsertSorted(Sorted(ids[1..]), ids[0]);
      AscendingDistinct(Sorted(ids));
    }
  }

  lemma {:induction false} AscendingDistinct(ids: seq<Id>)
    requires Ascending(ids)
    ensures Distinct(ids)
  {
    forall i, j | 0 <= i < j < |ids| ensures ids[i] != ids[j] {
      BeforeAsymmetric(ids[i], ids[j]);
    }
  }

  /** The first of a sorted list of ready vertices is the smallest ready one. */
  lemma {:induction false} FirstIsSmallest(ids: seq<Id>, ready: set<Id>)
    requires Ascending(ids) && ids != [] && forall x :: x in ids <==> x in ready
    ensures Smallest(ready, ids[0])
  {
    forall w | w in ready ensures w == ids[0] || Before(ids[0], w) {
      var i :| 0 <= i < |ids| && ids[i] == w;
    }
  }

  /** The far ends of the edges kept under a vertex. */
  function Adjacent(m: map<Id, seq<Id>>, v: Id): seq<Id> {
    if v in m then m[v] else []
  }

  ghost function EdgesOf(out: map<Id, seq<Id>>): set<(Id, Id)> {
    set u, i | u in out && 0 <= i < |out[u]| :: (u, out[u][i])
  }

  lemma {:induction false} EdgeIs(out: map<Id, seq<Id>>, u: Id, v: Id)
    ensures (u, v) in EdgesOf(out) <==> v in Adjacent(out, u)
  {
    if v in Adjacent(out, u) {
      var i :| 0 <= i < |out[u]| && out[u][i] == v;
      assert (u, out[u][i]) in EdgesOf(out);
    }
  }

  /** Every edge is kept once from each end, between known vertices. */
  ghost predicate Mirrored(byId: set<Id>, out: map<Id, seq<Id>>, into: map<Id, seq<Id>>) {
    && (forall u :: Adjacent(out, u) != [] ==> u in byId)
    && (forall v :: Adjacent(into, v) != [] ==> v in byId)
    && (forall u, v :: v in Adjacent(out, u) <==> u in Adjacent(into, v))
    && (forall v :: Distinct(Adjacent(out, v)) && Distinct(Adjacent(into, v)))
  }

  function Keep(m: map<Id, seq<Id>>, k: Id, x: Id): map<Id, seq<Id>> {
    m[k := Adjacent(m, k) + [x]]
  }

  lemma {:induction false} KeepAdjacent(m: map<Id, seq<Id>>, k: Id, x: Id, v: Id)
    ensures Adjacent(Keep(m, k, x), v) == if v == k then Adjacent(m, k) + [x] else Adjacent(m, v)
  {}

  /** An edge kept at both ends is in both directions, once. */
  lemma {:induction false} EdgeMirrored(byId: set<Id>, out: map<Id, seq<Id>>, into: map<Id, seq<Id>>, from: Id, to: Id)
    requires Mirrored(byId, out, into) && from in byId && to in byId && to !in Adjacent(out, from)
    ensures Mirrored(byId, Keep(out, from, to), Keep(into, to, from))
  {
    hide Keep, Adjacent;
    var out', into' := Keep(out, from, to), Keep(into, to, from);
    assert from !in Adjacent(into, to);
    forall u, v
      ensures v in Adjacent(out', u) <==> v in Adjacent(out, u) || (u == from && v == to)
      ensures u in Adjacent(into', v) <==> u in Adjacent(into, v) || (u == from && v == to)
    {
      KeepAdjacent(out, from, to, u);
      KeepAdjacent(into, to, from, v);
    }
    forall v
      ensures Distinct(Adjacent(out', v)) && Distinct(Adjacent(into', v))
      ensures (Adjacent(out', v) != [] ==> v in byId) && (Adjacent(into', v) != [] ==> v in byId)
    {
      KeepAdjacent(out, from, to, v);
      KeepAdjacent(into, to, from, v);
    }
  }

  lemma {:induction false} EdgeAdded(byId: set<Id>, out: map<Id, seq<Id>>, into: map<Id, seq<Id>>, from: Id, to: Id)
    requires Mirrored(byId, out, into) && from in byId && to in byId && to !in Adjacent(out, from)
    ensures Mirrored(byId, Keep(out, from, to), Keep(into, to, from))
    ensures EdgesOf(Keep(out, from, to)) == EdgesOf(out) + {(from, to)}
  {
    hide Keep, EdgesOf, Adjacent, Mirrored;
    EdgeMirrored(byId, out, into, from, to);
    var out' := Keep(out, from, to);
    forall e ensures e in EdgesOf(out') <==> e in EdgesOf(out) + {(from, to)} {
      var u, v := e.0, e.1;
      assert e == (u, v);
      EdgeIs(out, u, v);
      EdgeIs(out', u, v);
      KeepAdjacent(out, from, to, u);
    }
  }

  class Graph {
    var byId: set<Id>
    var out: map<Id, seq<Id>>
    var into: map<Id, seq<Id>>

    /** The graph as it stands, whatever order it was built in. */
    ghost function View(): Shape
      reads this
    {
      Shape(byId, EdgesOf(out))
    }

    ghost predicate Valid()
      reads this
    {
      Mirrored(byId, out, into)
    }

    constructor ()
      ensures Valid() && View() == Shape({}, {})
    {
      byId, out, into := {}, map[], map[];
    }

    method AddVertex(id: Id) returns (r: Refusal)
      requires Valid()
      modifies this
      ensures Valid()
      ensures r == if id == [] then EmptyId else if id in old(byId) then DuplicateId else Accepted
      ensures View() == if r == Accepted then Shape(old(View()).vertices + {id}, old(View()).edges) else old(View())
    {
      if |id| == 0 {
        return EmptyId;
      }
      if id in byId {
        return DuplicateId;
      }
      byId := byId + {id};
      r := Accepted;
    }

    method Connect(from: Id, to: Id) returns (r: Refusal)
      requires Valid()
      modifies this
      ensures Valid()
      ensures r == if from !in old(byId) || to !in old(byId) then UnknownVertex
                   else if (from, to) in old(View()).edges then DuplicateEdge else Accepted
      ensures View() == if r == Accepted then Shape(old(View()).vertices, old(View()).edges + {(from, to)}) else old(View())
    {
      hide Mirrored, EdgesOf, Keep;
      if from !in byId || to !in byId {
        return UnknownVertex;
      }
      EdgeIs(out, from, to);
      if to in Adjacent(out, from) {
        return DuplicateEdge;
      }
      EdgeAdded(byId, out, into, from, to);
      out, into := Keep(out, from, to), Keep(into, to, from);
      r := Accepted;
    }

    method Downstream(id: Id) returns (ids: seq<Id>)
      requires Valid()
      ensures Ascending(ids) && Distinct(ids) && forall v :: v in ids <==> (id, v) in EdgesOf(out)
    {
      SortedSound(Adjacent(out, id));
      ids := Sorted(Adjacent(out, id));
      forall v ensures v in ids <==> (id, v) in EdgesOf(out) { EdgeIs(out, id, v); }
    }

    method SortedIds() returns (ids: seq<Id>)
      ensures Ascending(ids) && Distinct(ids) && forall v :: v in ids <==> v in byId
    {
      ids := [];
      var left := byId;
      while left != {}
        invariant Ascending(ids) && left <= byId && forall v :: v in ids <==> v in byId && v !in left
        decreases |left|
      {
        var v :| v in left;
        InsertSorted(ids, v);
        ids := Insert(ids, v);
        left := left - {v};
      }
      AscendingDistinct(ids);
    }

    /** The in-degree of a vertex is what it misses when nothing has been placed. */
    lemma {:induction false} InDegree(v: Id)
      requires Valid()
      ensures |Missing(View(), {}, v)| == |Adjacent(into, v)|
    {
      var g := View();
      forall u ensures u in Missing(g, {}, v) <==> u in Placed(Adjacent(into, v)) {
        MissingIs(g, {}, v, u);
        EdgeIs(out, u, v);
        InPlaced(Adjacent(into, v), u);
      }
      assert Missing(g, {}, v) == Placed(Adjacent(into, v));
      AllOf(Adjacent(into, v));
    }

    lemma {:induction false} ViewIsValid()
      requires Valid()
      ensures ValidShape(View())
    {
      forall e | e in EdgesOf(out) ensures e.0 in byId && e.1 in byId {
        var u, v := e.0, e.1;
        EdgeIs(out, u, v);
        assert (u, v) == e;
        assert v in Adjacent(out, u);
      }
    }

    /** Kahn's algorithm with a lexicographic tie-break. The result is a function of the graph
        alone: its smallest order, or, exactly when there is a cycle, the vertices on or behind
        one. */
    method Kahn() returns (r: Ordering)
      requires Valid()
      ensures Sound(View(), [])
      ensures r.Order? ==> r.order == JobGraph.Kahn(View(), []) && Topological(View(), r.order)
      ensures r.Cyclic? <==> exists c :: Cycle(View(), c)
      ensures r.Cyclic? ==> Ascending(r.left) && forall v :: v in r.left <==> v in byId && v !in JobGraph.Kahn(View(), [])
    {
      hide Cycle, JobGraph.Kahn, Forward, Missing, EdgesOf;
      ViewIsValid();
      IncompleteIffCycle(View());
      ghost var g := View();
      var indeg, ready := Degrees();
      var order: seq<Id> := [];
      assert Placed(order) == {};
      while |ready| > 0
        invariant Sound(g, order) && JobGraph.Kahn(g, order) == JobGraph.Kahn(g, [])
        invariant Tracks(g, Placed(order), indeg) && Distinct(ready)
        invariant forall v :: v in ready <==> v in Ready(g, Placed(order))
        decreases g.vertices - Placed(order)
      {
        SortedSound(ready);
        ready := Sorted(ready);
        var id := ready[0];
        FirstIsSmallest(ready, Ready(g, Placed(order)));
        KahnStep(g, order, id);
        AppendSound(g, order, id);
        PlacedMissNothing(g, order);
        indeg, ready := Release(id, indeg, ready, Placed(order));
        order := order + [id];
      }
      KahnDone(g, order);
      if |order| != |byId| {
        r := Left(order, indeg);
      } else {
        r := Order(order);
      }
      CompleteByCount(g, order);
    }

    /** The in-degree of every vertex, and those with none, in order. */
    method Degrees() returns (indeg: map<Id, int>, ready: seq<Id>)
      requires Valid()
      ensures Tracks(View(), {}, indeg) && Distinct(ready)
      ensures forall v :: v in ready <==> v in Ready(View(), Placed([]))
    {
      hide Missing, EdgesOf;
      var ids := SortedIds();
      indeg, ready := map[], [];
      for i := 0 to |ids|
        invariant forall v :: v in indeg <==> v in ids[..i]
        invariant forall v :: v in indeg ==> indeg[v] == |Missing(View(), {}, v)|
        invariant Distinct(ready) && forall v :: v in ready <==> v in ids[..i] && |Missing(View(), {}, v)| == 0
      {
        InDegree(ids[i]);
        assert forall v :: v in ids[..i + 1] <==> v in ids[..i] || v == ids[i];
        assert ids[i] !in ids[..i];
        indeg := indeg[ids[i] := |Adjacent(into, ids[i])|];
        if indeg[ids[i]] == 0 {
          ready := ready + [ids[i]];
        }
      }
      assert ids[..|ids|] == ids;
      assert Placed([]) == {};
    }

    /** Places `id`: each of its successors misses one fewer, and those that miss none are ready. */
    method Release(id: Id, degrees: map<Id, int>, waiting: seq<Id>, ghost placed: set<Id>) returns (indeg: map<Id, int>, ready: seq<Id>)
      requires Valid() && Tracks(View(), placed, degrees)
      requires waiting != [] && waiting[0] == id && Distinct(waiting) && id !in placed
      requires forall v :: v in waiting <==> v in Ready(View(), placed)
      requires forall v :: v in placed ==> Missing(View(), placed, v) == {}
      ensures Tracks(View(), placed + {id}, indeg) && Distinct(ready)
      ensures forall v :: v in ready <==> v in Ready(View(), placed + {id})
    {
      hide Missing, EdgesOf, Valid, Ready;
      ghost var g := View();
      indeg, ready := degrees, waiting[1..];
      assert forall v :: v in waiting <==> v == id || v in ready;
      var outs := Downstream(id);
      InVertices(id, outs);
      for j := 0 to |outs|
        invariant indeg.Keys == byId
        invariant forall v :: v in byId ==> indeg[v] == |Missing(g, placed, v)| - (if v in outs[..j] then 1 else 0)
        invariant Distinct(ready)
        invariant forall v :: v in ready <==> v != id && (v in waiting || (v in outs[..j] && indeg[v] == 0))
      {
        var to := outs[j];
        assert to in outs && to !in outs[..j];
        assert forall v :: v in outs[..j + 1] <==> v in outs[..j] || v == to;
        SuccessorMisses(g, placed, id, to, waiting);
        indeg := indeg[to := indeg[to] - 1];
        if indeg[to] == 0 {
          ready := ready + [to];
        }
      }
      assert outs[..|outs|] == outs;
      forall v | v in byId ensures indeg[v] == |Missing(g, placed + {id}, v)| {
        MissingAfter(g, placed, id, v);
        CardAfter(Missing(g, placed, v), id);
      }
      forall v ensures v in ready <==> v in Ready(g, placed + {id}) {
        ReadyAfter(g, placed, id, v);
        ReadyIsVertex(g, placed, v);
        MissingIs(g, placed, v, id);
      }
    }

    lemma {:induction false} InVertices(id: Id, outs: seq<Id>)
      requires Valid() && forall v :: v in outs <==> (id, v) in EdgesOf(out)
      ensures forall v :: v in outs ==> v in byId
    {
      forall v | v in outs ensures v in byId { EdgeIs(out, id, v); }
    }

    /** The vertices with an in-degree left over, in order. */
    method Left(ghost order: seq<Id>, indeg: map<Id, int>) returns (r: Ordering)
      requires Valid() && Sound(View(), order) && Tracks(View(), Placed(order), indeg) && Ready(View(), Placed(order)) == {}
      ensures r.Cyclic? && Ascending(r.left) && forall v :: v in r.left <==> v in byId && v !in order
    {
      hide Forward;
      var left: seq<Id> := [];
      var todo := indeg.Keys;
      while todo != {}
        invariant todo <= indeg.Keys && Ascending(left)
        invariant forall v :: v in left <==> v in indeg && v !in todo && indeg[v] > 0
        decreases |todo|
      {
        var v :| v in todo;
        if indeg[v] > 0 {
          InsertSorted(left, v);
          left := Insert(left, v);
        }
        todo := todo - {v};
      }
      forall v ensures v in left <==> v in byId && v !in order {
        InPlaced(order, v);
        if v in byId {
          if v in order {
            NothingMissing(View(), order, v);
          } else {
            assert v !in Ready(View(), Placed(order));
          }
        }
      }
      r := Cyclic(left);
    }
  }

  /** In-degrees count what each vertex still misses. */
  ghost predicate Tracks(g: Shape, placed: set<Id>, indeg: map<Id, int>) {
    indeg.Keys == g.vertices && forall v :: v in g.vertices ==> indeg[v] == |Missing(g, placed, v)|
  }

  lemma {:induction false} CardAfter(s: set<Id>, u: Id)
    ensures |s - {u}| == |s| - if u in s then 1 else 0
  {
    if u !in s {
      assert s - {u} == s;
    }
  }

  /** A successor of the vertex being placed misses it, so it is not ready yet. */
  lemma {:induction false} SuccessorMisses(g: Shape, placed: set<Id>, id: Id, to: Id, waiting: seq<Id>)
    requires (id, to) in g.edges && id !in placed
    requires forall v :: v in waiting <==> v in Ready(g, placed)
    ensures to !in waiting && |Missing(g, placed, to)| > 0
  {
    MissingIs(g, placed, to, id);
  }

  lemma {:induction false} ReadyAfter(g: Shape, placed: set<Id>, id: Id, v: Id)
    requires id !in placed
    ensures v in Ready(g, placed + {id}) <==>
            v in g.vertices && v != id && (v in Ready(g, placed) || ((id, v) in g.edges && v !in placed && |Missing(g, placed, v)| == 1))
  {
    MissingAfter(g, placed, id, v);
    CardAfter(Missing(g, placed, v), id);
    if (id, v) in g.edges && |Missing(g, placed, v)| == 1 {
      assert |Missing(g, placed, v) - {id}| == 0;
    }
  }

  lemma {:induction false} ReadyIsVertex(g: Shape, placed: set<Id>, v: Id)
    ensures v in Ready(g, placed) ==> v in g.vertices && v !in placed
  {}

  lemma {:induction false} NothingMissing(g: Shape, order: seq<Id>, v: Id)
    requires Sound(g, order) && v in order
    ensures Missing(g, Placed(order), v) == {}
  {
    var j :| 0 <= j < |order| && order[j] == v;
    forall u ensures u !in Missing(g, Placed(order), v) {
      MissingIs(g, Placed(order), v, u);
      if (u, v) in g.edges {
        assert u in order[..j];
        InPlaced(order, u);
      }
    }
  }

  lemma {:induction false} PlacedMissNothing(g: Shape, order: seq<Id>)
    requires Sound(g, order)
    ensures forall v :: v in Placed(order) ==> Missing(g, Placed(order), v) == {}
  {
    forall v | v in Placed(order) ensures Missing(g, Placed(order), v) == {} {
      InPlaced(order, v);
      NothingMissing(g, order, v);
    }
  }

  lemma {:induction false} KahnStep(g: Shape, order: seq<Id>, v: Id)
    requires Sound(g, order) && Smallest(Ready(g, Placed(order)), v)
    ensures Sound(g, order + [v]) && JobGraph.Kahn(g, order + [v]) == JobGraph.Kahn(g, order)
  {
    var ready := Ready(g, Placed(order));
    AppendSound(g, order, v);
    SmallestUnique(ready, v, SmallestOf(ready));
  }

  lemma {:induction false} KahnDone(g: Shape, order: seq<Id>)
    requires Sound(g, order) && forall v :: v !in Ready(g, Placed(order))
    ensures JobGraph.Kahn(g, order) == order && Ready(g, Placed(order)) == {}
  {}

  /** All vertices are placed exactly when as many are. */
  lemma {:induction false} CompleteByCount(g: Shape, order: seq<Id>)
    requires Sound(g, order)
    ensures |order| == |g.vertices| <==> Topological(g, order)
  {
    AllOf(order);
    SubsetOfSize(Placed(order), g.vertices);
  }

  lemma {:induction false} SubsetOfSize(a: set<Id>, b: set<Id>)
    requires a <= b
    ensures |a| == |b| <==> a == b
  {
    if a != b {
      assert b == a + (b - a);
      assert |b| == |a| + |b - a|;
      var x :| x in b - a;
    }
  }
}
