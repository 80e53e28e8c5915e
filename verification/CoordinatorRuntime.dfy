/** The coordinator object, its storage, and the loops over the maps it keeps. */
module CoordinatorRuntime {
  import opened Elements
  import opened Coordination

  /** Storage as the coordinator sees it: state files and markers, and which calls fail. */
  class CheckpointStore {
    var files: map<(int, SubtaskKey), Bytes>
    var markers: set<int>
    var failing: set<Call>

    constructor ()
      ensures files == map[] && markers == {} && failing == {}
    {
      files, markers, failing := map[], {}, {};
    }

    method WriteSubtaskState(id: int, k: SubtaskKey, payload: Bytes) returns (ok: bool)
      modifies this`files
      ensures ok <==> StateFile(id, k) !in failing
      ensures files == if ok then old(files)[(id, k) := payload] else old(files)
    {
      ok := StateFile(id, k) !in failing;
      if ok {
        files := files[(id, k) := payload];
      }
    }

    method Complete(id: int) returns (ok: bool)
      modifies this`markers
      ensures ok <==> Marker(id) !in failing && MarkerSync(id) !in failing
      ensures markers == if Marker(id) in failing then old(markers) else old(markers) + {id}
    {
      if Marker(id) in failing {
        return false;
      }
      markers := markers + {id};
      ok := MarkerSync(id) !in failing;
    }
  }

  class Coordinator {
    const store: CheckpointStore
    const expected: set<SubtaskKey>
    var progress: map<int, Progress>
    var done: map<SubtaskKey, Bytes>
    /** How often the channel waiters select on has been closed and replaced. */
    var changed: nat
    ghost var acknowledged: map<(int, SubtaskKey), Bytes>

    ghost function View(): State
      reads this, store
    {
      State(expected, progress, done, changed, store.files, store.markers, acknowledged)
    }

    constructor (expected: set<SubtaskKey>)
      ensures View() == Initial(expected) && fresh(store)
    {
      this.expected := expected;
      store := new CheckpointStore();
      progress, done, changed := map[], map[], 0;
      acknowledged := map[];
    }

    method Acknowledge(id: int, k: SubtaskKey, payload: Bytes) returns (ok: bool, keys: seq<SubtaskKey>)
      modifies this, store
      ensures Enumerates(keys, expected) && store.failing == old(store.failing)
      ensures View() == Coordination.Acknowledge(old(View()), id, k, payload, keys, store.failing).state
      ensures ok == Coordination.Acknowledge(old(View()), id, k, payload, keys, store.failing).ok
    {
      hide Coordination.Complete, Enumerates;
      keys := SomeOrder(expected);
      if k !in expected {
        return false, keys;
      }
      StateFor(id);
      if progress[id].abandoned {
        return true, keys;
      }
      if progress[id].complete || k in progress[id].acked {
        return false, keys;
      }
      var written := store.WriteSubtaskState(id, k, payload);
      if !written {
        AbandonCheckpoint(id);
        return false, keys;
      }
      acknowledged := acknowledged[(id, k) := payload];
      progress := progress[id := progress[id].(acked := progress[id].acked + {k})];
      var n := CountOutstanding(progress[id]);
      if n > 0 {
        return true, keys;
      }
      ok := CompleteInOrder(id, keys);
    }

    method Finished(k: SubtaskKey, payload: Bytes) returns (ok: bool, ids: seq<int>, keys: seq<SubtaskKey>)
      modifies this, store
      ensures Enumerates(keys, expected) && Enumerates(ids, old(progress).Keys) && store.failing == old(store.failing)
      ensures Outcome(View(), ok) == Coordination.Finished(old(View()), k, payload, ids, _ => keys, store.failing)
    {
      hide Coordination.Complete, Enumerates;
      keys := SomeOrder(expected);
      ids := SomeOrder(progress.Keys);
      if k !in expected || k in done {
        return false, ids, keys;
      }
      done := done[k := payload];
      ghost var before := View();
      ghost var orders: int -> seq<SubtaskKey> := _ => keys;
      for n := 0 to |ids|
        invariant store.failing == old(store.failing)
        invariant Outcome(View(), true) == Sweep(before, ids[..n], orders, store.failing)
        invariant progress.Keys == before.progress.Keys
      {
        assert ids[..n + 1][..n] == ids[..n];
        ok := SettleIfOwed(ids[n], keys);
        if !ok {
          SweepStops(before, ids, n + 1, orders, store.failing);
          return;
        }
      }
      assert ids[..|ids|] == ids;
      ok := true;
    }

    /** Completes the checkpoint if it is open and no live subtask owes it. */
    method SettleIfOwed(id: int, keys: seq<SubtaskKey>) returns (ok: bool)
      requires id in progress
      modifies this`progress, this`changed, store`files, store`markers
      ensures progress.Keys == old(progress).Keys
      ensures Outcome(View(), ok) == if Owed(old(View()), id) then Coordination.Complete(old(View()), id, keys, store.failing)
                                     else Outcome(old(View()), true)
    {
      hide Coordination.Complete;
      if progress[id].Terminal() {
        return true;
      }
      var left := CountOutstanding(progress[id]);
      if left > 0 {
        return true;
      }
      CompleteKeeps(View(), id, keys, store.failing);
      ok := CompleteInOrder(id, keys);
    }

    method Fail(id: int)
      modifies this
      ensures View() == Coordination.Fail(old(View()), id)
    {
      StateFor(id);
      if progress[id].complete {
        return;
      }
      AbandonCheckpoint(id);
    }

    method CompletedAmong(ids: seq<int>) returns (out: seq<int>)
      ensures out == CompletedOf(View(), ids)
    {
      out := [];
      for n := 0 to |ids|
        invariant out == CompletedOf(View(), ids[..n])
      {
        assert ids[..n + 1][..n] == ids[..n];
        if ids[n] in progress && progress[ids[n]].complete {
          out := out + [ids[n]];
        }
      }
      assert ids[..|ids|] == ids;
    }

    method StateFor(id: int)
      modifies this`progress
      ensures View() == WithProgress(old(View()), id, ProgressFor(old(View()), id))
    {
      if id !in progress {
        progress := progress[id := Progress({}, false, false)];
      }
      assert progress == old(progress)[id := progress[id]];
    }

    method CountOutstanding(p: Progress) returns (n: nat)
      ensures n > 0 <==> Outstanding(View(), p) != {}
    {
      n := 0;
      var left := expected;
      while left != {}
        invariant left <= expected
        invariant n > 0 <==> exists k :: k in Outstanding(View(), p) && k !in left
      {
        var k :| k in left;
        if k !in p.acked && k !in done {
          assert k in Outstanding(View(), p);
          n := n + 1;
        }
        left := left - {k};
      }
    }

    /** Writes what the finished subtasks left, then the marker, and only then tells anyone. */
    method CompleteInOrder(id: int, order: seq<SubtaskKey>) returns (ok: bool)
      modifies this`progress, this`changed, store`files, store`markers
      ensures Outcome(View(), ok) == Coordination.Complete(old(View()), id, order, store.failing)
    {
      hide WriteMissing;
      WriteMissingEffect(View(), id, order, store.failing);
      ok := WriteFinished(id, order);
      if !ok {
        AbandonCheckpoint(id);
        return;
      }
      ok := store.Complete(id);
      if !ok {
        AbandonCheckpoint(id);
        return;
      }
      progress := progress[id := Progress({}, true, if id in progress then progress[id].abandoned else false)];
      changed := changed + 1;
    }

    method WriteFinished(id: int, order: seq<SubtaskKey>) returns (ok: bool)
      modifies store`files
      ensures Outcome(View(), ok) == WriteMissing(old(View()), id, order, store.failing)
    {
      ghost var before := View();
      var acked := if id in progress then progress[id].acked else {};
      for n := 0 to |order|
        invariant Outcome(View(), true) == WriteMissing(before, id, order[..n], store.failing)
      {
        var k := order[n];
        assert order[..n + 1][..n] == order[..n];
        if k in acked {
          continue;
        }
        ok := store.WriteSubtaskState(id, k, if k in done then done[k] else []);
        if !ok {
          WriteMissingStops(before, id, order, n + 1, store.failing);
          return;
        }
      }
      assert order[..|order|] == order;
      ok := true;
    }

    method AbandonCheckpoint(id: int)
      modifies this`progress, this`changed
      ensures View() == Abandon(old(View()), id)
    {
      progress := progress[id := Progress({}, if id in progress then progress[id].complete else false, true)];
      changed := changed + 1;
    }
  }

  /** The order in which a map happens to be walked. */
  method SomeOrder<T(==)>(all: set<T>) returns (order: seq<T>)
    ensures Enumerates(order, all)
  {
    order := [];
    var left := all;
    while left != {}
      invariant left <= all && forall x :: x in order <==> x in all && x !in left
      invariant Distinct(order)
    {
      var x :| x in left;
      order := order + [x];
      left := left - {x};
    }
  }

  lemma {:induction false} WriteMissingStops(s: State, id: int, keys: seq<SubtaskKey>, n: nat, faults: set<Call>)
    requires n <= |keys| && !WriteMissing(s, id, keys[..n], faults).ok
    ensures WriteMissing(s, id, keys, faults) == WriteMissing(s, id, keys[..n], faults)
    decreases |keys|
  {
    if n < |keys| {
      assert keys[..|keys| - 1][..n] == keys[..n];
      WriteMissingStops(s, id, keys[..|keys| - 1], n, faults);
    } else {
      assert keys[..n] == keys;
    }
  }

  lemma {:induction false} SweepStops(s: State, ids: seq<int>, n: nat, orders: int -> seq<SubtaskKey>, faults: set<Call>)
    requires n <= |ids| && !Sweep(s, ids[..n], orders, faults).ok
    ensures Sweep(s, ids, orders, faults) == Sweep(s, ids[..n], orders, faults)
    decreases |ids|
  {
    if n < |ids| {
      assert ids[..|ids| - 1][..n] == ids[..n];
      SweepStops(s, ids[..|ids| - 1], n, orders, faults);
    } else {
      assert ids[..n] == ids;
    }
  }
}
