/** The writer behind a producing subtask: a record goes to one output of every group, a control
    element to all of them. */
module Transport {
  import opened Elements
  import opened Routing

  datatype SendResult = Sent | EmptyKey | Failed

  class Output {
    var sent: seq<Element>
    var closed: bool
    /** The job is being torn down: a send fails. */
    var broken: bool

    constructor ()
      ensures sent == [] && !closed && !broken
    {
      sent, closed, broken := [], false, false;
    }

    method Send(e: Element) returns (ok: bool)
      modifies this`sent
      ensures ok <==> !broken
      ensures sent == if ok then old(sent) + [e] else old(sent)
    {
      ok := !broken;
      if ok {
        sent := sent + [e];
      }
    }

    method Close()
      modifies this`closed
      ensures closed
    {
      closed := true;
    }
  }

  class Writer {
    /** One group for each downstream vertex, holding its channel to each subtask there. */
    const groups: seq<seq<Output>>
    const hash: Bytes -> nat

    ghost function Outputs(): set<Output> {
      set g, i | 0 <= g < |groups| && 0 <= i < |groups[g]| :: groups[g][i]
    }

    /** No group is empty and no output appears twice. */
    ghost predicate WellWired() {
      && (forall g :: 0 <= g < |groups| ==> |groups[g]| > 0)
      && (forall g, i, h, j | 0 <= g < |groups| && 0 <= i < |groups[g]| && 0 <= h < |groups| && 0 <= j < |groups[h]| ::
            groups[g][i] == groups[h][j] ==> g == h && i == j)
    }

    constructor (groups: seq<seq<Output>>, hash: Bytes -> nat)
      ensures this.groups == groups && this.hash == hash
    {
      this.groups, this.hash := groups, hash;
    }

    /** The output of group `g` that a record with this key is for. */
    function Target(g: nat, key: Bytes): (i: nat)
      requires WellWired() && g < |groups|
      ensures i < |groups[g]|
    {
      hash(key) % |groups[g]|
    }

    /** The groups before `k` have received the record, each at its target and nowhere else; the
        later ones have nothing. */
    twostate predicate ServedUpTo(k: nat, r: Record)
      requires WellWired() && k <= |groups|
      reads Outputs()
    {
      forall g, i :: 0 <= g < |groups| && 0 <= i < |groups[g]| ==>
        groups[g][i].sent == if g < k && i == Target(g, r.key) then old(groups[g][i].sent) + [RecordElement(r)] else old(groups[g][i].sent)
    }

    /** Partitioned within each group and copied across them. The first failing send returns at
        once, with the earlier groups served and the later ones untouched. */
    method EmitRecord(r: Record) returns (res: SendResult)
      requires WellWired()
      modifies Outputs()`sent
      ensures res == EmptyKey <==> groups != [] && r.key == []
      ensures res == EmptyKey ==> ServedUpTo(0, r)
      ensures res == Sent ==> ServedUpTo(|groups|, r)
      ensures res == Failed ==> exists k: nat :: k < |groups| && groups[k][Target(k, r.key)].broken && ServedUpTo(k, r)
    {
      hide Target;
      if |groups| == 0 {
        return Sent;
      }
      if |r.key| == 0 {
        return EmptyKey;
      }
      for k: nat := 0 to |groups|
        invariant ServedUpTo(k, r)
      {
        var i := Target(k, r.key);
        assert groups[k][i] in Outputs();
        var ok := groups[k][i].Send(RecordElement(r));
        if !ok {
          assert groups[k][Target(k, r.key)].broken && ServedUpTo(k, r);
          return Failed;
        }
      }
      res := Sent;
    }

    /** Every output up to output `i` of group `g`, in the order they are sent to. */
    twostate predicate ReachedUpTo(g: nat, i: nat, e: Element)
      requires g <= |groups|
      reads Outputs()
    {
      forall h, j :: 0 <= h < |groups| && 0 <= j < |groups[h]| ==>
        groups[h][j].sent == if h < g || (h == g && j < i) then old(groups[h][j].sent) + [e] else old(groups[h][j].sent)
    }

    method Broadcast(e: Element) returns (ok: bool)
      requires WellWired()
      modifies Outputs()`sent
      ensures ok ==> ReachedUpTo(|groups|, 0, e)
      ensures !ok ==> exists g: nat, i: nat :: g < |groups| && i < |groups[g]| && groups[g][i].broken && ReachedUpTo(g, i, e)
    {
      for g: nat := 0 to |groups|
        invariant ReachedUpTo(g, 0, e)
      {
        for i: nat := 0 to |groups[g]|
          invariant ReachedUpTo(g, i, e)
        {
          assert groups[g][i] in Outputs();
          var sent := groups[g][i].Send(e);
          if !sent {
            return false;
          }
        }
      }
      ok := true;
    }

    method CloseAll()
      modifies Outputs()`closed
      ensures forall o :: o in Outputs() ==> o.closed
    {
      for g := 0 to |groups|
        invariant forall h, j :: 0 <= h < g && 0 <= j < |groups[h]| ==> groups[h][j].closed
      {
        for i := 0 to |groups[g]|
          invariant forall h, j :: 0 <= h < g && 0 <= j < |groups[h]| ==> groups[h][j].closed
          invariant forall j :: 0 <= j < i ==> groups[g][j].closed
        {
          assert groups[g][i] in Outputs();
          groups[g][i].Close();
        }
      }
    }

    /** Each output holds the part of the stream routed to it. */
    ghost predicate Carries(stream: seq<Element>)
      requires WellWired()
      reads Outputs()
    {
      forall g, i :: 0 <= g < |groups| && 0 <= i < |groups[g]| ==>
        groups[g][i].sent == Routed(stream, ToSubtask(hash, |groups[g]|, i))
    }

    method SendOne(e: Element, ghost before: seq<Element>) returns (ok: bool)
      requires WellWired() && Carries(before) && (e.RecordElement? ==> e.rec.key != [])
      modifies Outputs()`sent
      ensures ok ==> Carries(before + [e])
    {
      hide Routed;
      if e.RecordElement? {
        var res := EmitRecord(e.rec);
        ok := res == Sent;
        if ok {
          forall g: nat, i | g < |groups| && 0 <= i < |groups[g]|
            ensures groups[g][i].sent == Routed(before + [e], ToSubtask(hash, |groups[g]|, i))
          {
            assert groups[g][i].sent == if i == Target(g, e.rec.key) then old(groups[g][i].sent) + [e] else old(groups[g][i].sent);
            RoutedAppend(before, e, ToSubtask(hash, |groups[g]|, i));
          }
        }
      } else {
        ok := Broadcast(e);
        forall g: nat, i | g < |groups| && 0 <= i < |groups[g]|
          ensures Routed(before + [e], ToSubtask(hash, |groups[g]|, i)) == Routed(before, ToSubtask(hash, |groups[g]|, i)) + [e]
        {
          RoutedAppend(before, e, ToSubtask(hash, |groups[g]|, i));
        }
      }
    }

    /** A whole stream of keyed records and control elements: every subtask of every downstream
        vertex receives exactly the records whose keys hash to it, in order, and every control
        element in its place among them. */
    method SendStream(stream: seq<Element>) returns (ok: bool)
      requires WellWired() && Carries([])
      requires forall e :: e in stream && e.RecordElement? ==> e.rec.key != []
      modifies Outputs()`sent
      ensures ok ==> Carries(stream)
    {
      for n := 0 to |stream|
        invariant Carries(stream[..n])
      {
        assert stream[..n + 1] == stream[..n] + [stream[n]] && stream[n] in stream;
        ok := SendOne(stream[n], stream[..n]);
        if !ok {
          return;
        }
      }
      assert stream[..|stream|] == stream;
      ok := true;
    }
  }

  /** Every keyed record of a stream is carried by exactly one output of a group. */
  lemma {:induction false} EachRecordOnce(stream: seq<Element>, hash: Bytes -> nat, n: nat, i: nat, r: Record)
    requires n > 0 && i < n
    ensures multiset(Records(Routed(stream, ToSubtask(hash, n, i))))[r] ==
            if hash(r.key) % n == i then multiset(Records(stream))[r] else 0
  {
    RoutedCounts(stream, ToSubtask(hash, n, i));
    SelectCount(Records(stream), ToSubtask(hash, n, i), r);
  }
}
