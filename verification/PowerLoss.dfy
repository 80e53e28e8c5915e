/** The sink's two directories when the power can fail. A rename or a removal that has not been
    synced may be undone; what a run owns is found in one of the directories all the same. */
module PowerLoss {
  import opened Elements
  import opened TwoPhaseCommit

  /** What is not durable yet: staging files created, renames into committed, and staging names that
      renames and removals have taken away. */
  datatype Loose = Loose(created: set<int>, moved: set<int>, removed: set<int>)

  const FIRM := Loose({}, {}, {})

  datatype State = State(now: Effect, loose: Loose, ledger: Ledger)

  /** What happens to the sink, `synced` saying whether the sync of the committed directory that
      follows its renames is made, or a loss of power. That leaves `shown` for staging files that
      were not durable, brings `back` the staging names of epochs that had been renamed, and undoes
      the renames of those `lost` from the committed directory. */
  datatype Deed = Does(event: Event, synced: bool) | Lose(shown: Epochs, back: set<int>, lost: set<int>)

  function Staged(x: Effect): set<int> {
    x.disk.staging.Keys
  }

  function Within(s: set<int>, low: int, high: int): set<int> {
    set e | e in s && low <= e <= high
  }

  function UpToHighest(s: set<int>, highest: int): set<int> {
    set e | e in s && e <= highest
  }

  /** Closing a file syncs it and the staging directory; a notification that renames syncs the
      committed one; a restore that finds anything staged syncs what it has changed; and the final
      commit syncs the committed directory if it renames anything. With the staging directory synced
      no rename can be undone: its old name is gone for good, and one of the two names is left. */
  function LooseAfter(x: Effect, loose: Loose, highest: int, e: Event, synced: bool): Loose {
    match e
    case Write(_) => if x.sink.open then loose else loose.(created := loose.created + {x.sink.epoch})
    case Barrier => if x.sink.open then FIRM else loose
    case Completes(_) => loose
    case Notify(id) => if id in Staged(x) then Renamed(loose, {id}, synced) else loose
    case Crash(_) => loose
    case InterruptedRestore(settled) =>
      var gone := Staged(x) * settled;
      Renamed(loose, UpToHighest(gone, highest), synced && UpToHighest(gone, highest) != {}).(removed := loose.removed + gone)
    case Restore => if Staged(x) == {} then loose else FIRM
    case Succeed =>
      var renamed := Within(Staged(CloseEpoch(x.sink, x.disk)), x.sink.firstEpoch, x.sink.epoch);
      if renamed == {} then loose else Renamed(if x.sink.open then FIRM else loose, renamed, true)
  }

  function Renamed(loose: Loose, ids: set<int>, synced: bool): Loose {
    Loose(loose.created, if synced then {} else loose.moved + ids, loose.removed + ids)
  }

  /** Staging names of which a loss of power may leave anything. */
  function Uncertain(s: State): set<int> {
    (s.loose.created + s.loose.removed) - s.now.disk.committed.Keys
  }

  /** Until it is synced a rename may leave the file under its old name, its new one or both; it
      never leaves it under neither. */
  predicate Possible(s: State, d: Deed)
    requires d.Lose?
  {
    d.shown.Keys <= Uncertain(s) && d.back <= s.loose.removed * s.now.disk.committed.Keys && d.lost <= d.back * s.loose.moved
  }

  function Fallen(s: State, d: Deed): Disk
    requires d.Lose?
  {
    var now := s.now.disk;
    Disk((now.staging - Uncertain(s)) + d.shown + (map e | e in d.back && e in now.committed :: now.committed[e]), now.committed - d.lost)
  }

  predicate MayDo(s: State, d: Deed) {
    match d
    case Does(e, _) => Allowed(s.ledger, e)
    case Lose(_, _, _) => !s.ledger.finished && Possible(s, d)
  }

  function Done(s: State, d: Deed): State {
    match d
    case Does(e, synced) =>
      State(Happen(s.now, s.ledger, e), LooseAfter(s.now, s.loose, s.ledger.highest, e, synced), Note(s.ledger, e))
    case Lose(_, _, _) =>
      State(s.now.(disk := Fallen(s, d)), FIRM, if s.ledger.running then Note(s.ledger, Crash(None)) else s.ledger)
  }

  /** The leavings of dead runs need not be durable. */
  function Begun(leavings: Epochs): State {
    State(Effect(Fresh(0), Disk(leavings, map[])), Loose(leavings.Keys, {}, {}), EMPTY)
  }

  function StateOf(s: State, deeds: seq<Deed>): State {
    if deeds == [] then s else Done(StateOf(s, deeds[..|deeds| - 1]), deeds[|deeds| - 1])
  }

  predicate ValidDeeds(s: State, deeds: seq<Deed>) {
    deeds == [] ||
    (ValidDeeds(s, deeds[..|deeds| - 1]) && MayDo(StateOf(s, deeds[..|deeds| - 1]), deeds[|deeds| - 1]))
  }

  /** A restore finds something staged, so that it syncs the staging directory, or there is nothing
      that a restore cut short before it removed without syncing. */
  predicate FindsAll(s: State) {
    Staged(s.now) != {} || Uncertain(s) == {}
  }

  predicate EachRestoreFindsAll(s: State, deeds: seq<Deed>) {
    deeds == [] ||
    (EachRestoreFindsAll(s, deeds[..|deeds| - 1]) &&
     (deeds[|deeds| - 1].Does? && deeds[|deeds| - 1].event.Restore? ==> FindsAll(StateOf(s, deeds[..|deeds| - 1]))))
  }

  // ----- The invariant ---------------------------------------------------------------------

  /** Epochs that will not be produced again, once the checkpoints that cover them are complete. */
  predicate Owned(l: Ledger, e: int) {
    e in l.past || (e in l.current && e < l.epoch)
  }

  function OwnedRecords(l: Ledger, e: int): seq<Record>
    requires Owned(l, e)
  {
    if e in l.past then l.past[e] else l.current[e]
  }

  /** An owned epoch is in one of the directories, never with anything but its records. */
  predicate InPlace(d: Disk, l: Ledger, e: int)
    requires Owned(l, e)
  {
    && (e in d.staging || e in d.committed)
    && (e in d.staging ==> d.staging[e] == OwnedRecords(l, e))
    && (e in d.committed ==> d.committed[e] == OwnedRecords(l, e))
  }

  ghost predicate Kept(s: State) {
    && LedgerOK(s.ledger) && !s.ledger.finished
    && (forall e :: e in s.now.disk.committed ==> e <= s.ledger.highest)
    && (forall e :: Owned(s.ledger, e) ==> InPlace(s.now.disk, s.ledger, e) && e !in Uncertain(s))
    && (forall e :: e in s.loose.moved ==> e in s.loose.removed && e in s.now.disk.committed)
    && (s.ledger.running ==> RunningKept(s.now, s.ledger))
  }

  ghost predicate RunningKept(x: Effect, l: Ledger) {
    && x.sink.epoch == l.epoch && x.sink.firstEpoch == l.base + 1
    && (forall e :: e in l.past ==> e in x.disk.committed) && (forall e :: e in x.disk.staging ==> e in l.current)
    && (x.sink.open <==> l.epoch in l.current) && (x.sink.open ==> l.epoch in x.disk.staging && x.sink.buffer == l.current[l.epoch])
  }

  /** And nothing but what a run owns is committed or ever will be. */
  ghost predicate Exact(s: State) {
    && (forall e :: e in s.now.disk.committed ==> Owned(s.ledger, e))
    && (s.ledger.running ==> forall e :: e in Uncertain(s) ==> e in s.ledger.current)
    && (!s.ledger.running ==> forall e :: e in Staged(s.now) + Uncertain(s) && e <= s.ledger.highest ==> Owned(s.ledger, e))
  }

  lemma {:induction false} WriteKept(s: State, rec: Record, synced: bool)
    requires Kept(s) && s.ledger.running
    ensures Kept(Done(s, Does(Write(rec), synced))) && (Exact(s) ==> Exact(Done(s, Does(Write(rec), synced))))
  {
    var s' := Done(s, Does(Write(rec), synced));
    forall e | Owned(s'.ledger, e) ensures InPlace(s'.now.disk, s'.ledger, e) && e !in Uncertain(s') {
      assert Owned(s.ledger, e) || e == s.ledger.epoch;
    }
  }

  lemma {:induction false} BarrierKept(s: State, synced: bool)
    requires Kept(s) && s.ledger.running
    ensures Kept(Done(s, Does(Barrier, synced))) && (Exact(s) ==> Exact(Done(s, Does(Barrier, synced))))
  {
    var s' := Done(s, Does(Barrier, synced));
    forall e | Owned(s'.ledger, e) ensures InPlace(s'.now.disk, s'.ledger, e) && e !in Uncertain(s') {
      assert Owned(s.ledger, e) || e == s.ledger.epoch;
    }
  }

  lemma {:induction false} CompletesKept(s: State, id: int, synced: bool)
    requires Kept(s) && Allowed(s.ledger, Completes(id))
    ensures Kept(Done(s, Does(Completes(id), synced))) && (Exact(s) ==> Exact(Done(s, Does(Completes(id), synced))))
  {
    var s' := Done(s, Does(Completes(id), synced));
    forall e | Owned(s'.ledger, e) ensures InPlace(s'.now.disk, s'.ledger, e) && e !in Uncertain(s') {
      assert Owned(s.ledger, e) || e == s.ledger.epoch;
    }
  }

  lemma {:induction false} NotifyKept(s: State, id: int, synced: bool)
    requires Kept(s) && Allowed(s.ledger, Notify(id))
    ensures Kept(Done(s, Does(Notify(id), synced))) && (Exact(s) ==> Exact(Done(s, Does(Notify(id), synced))))
  {}

  lemma {:induction false} CrashKept(s: State, tail: Option<seq<Record>>, synced: bool)
    requires Kept(s) && s.ledger.running
    ensures Kept(Done(s, Does(Crash(tail), synced))) && (Exact(s) ==> Exact(Done(s, Does(Crash(tail), synced))))
  {
    var s' := Done(s, Does(Crash(tail), synced));
    forall e | Owned(s'.ledger, e) ensures InPlace(s'.now.disk, s'.ledger, e) && e !in Uncertain(s') {
      assert Owned(s.ledger, e) || e == s.ledger.epoch;
    }
  }

  lemma {:induction false} InterruptedKept(s: State, settled: set<int>, synced: bool)
    requires Kept(s) && !s.ledger.running
    ensures Kept(Done(s, Does(InterruptedRestore(settled), synced))) && (Exact(s) ==> Exact(Done(s, Does(InterruptedRestore(settled), synced))))
  {}

  lemma {:induction false} RestoreKept(s: State, synced: bool)
    requires Kept(s) && !s.ledger.running
    ensures Kept(Done(s, Does(Restore, synced)))
  {
    var s' := Done(s, Does(Restore, synced));
    forall e | Owned(s'.ledger, e) ensures InPlace(s'.now.disk, s'.ledger, e) && e !in Uncertain(s') {
      assert Owned(s.ledger, e) || e == s.ledger.epoch;
    }
    forall e | e in s'.ledger.past ensures e in s'.now.disk.committed {
      assert Owned(s.ledger, e);
    }
  }

  lemma {:induction false} LossKept(s: State, d: Deed)
    requires Kept(s) && d.Lose? && Possible(s, d)
    ensures Kept(Done(s, d)) && (Exact(s) ==> Exact(Done(s, d)))
  {
    var s' := Done(s, d);
    forall e | Owned(s'.ledger, e) ensures InPlace(s'.now.disk, s'.ledger, e) && e !in Uncertain(s') {
      assert Owned(s.ledger, e) || e == s.ledger.epoch;
    }
  }

  /** Exactly when a restore leaves nothing behind that this run does not own. */
  lemma {:induction false} RestoreIsExactIff(s: State, synced: bool)
    requires Kept(s) && Exact(s) && !s.ledger.running
    ensures Exact(Done(s, Does(Restore, synced))) <==> FindsAll(s)
  {
    var s' := Done(s, Does(Restore, synced));
    RestoreKept(s, synced);
    if FindsAll(s) {
      assert forall e :: e !in Uncertain(s');
      forall e | e in s'.now.disk.committed ensures Owned(s'.ledger, e) {
        assert e in s.now.disk.committed || e in Staged(s.now) + Uncertain(s);
      }
    } else {
      assert Uncertain(s') == Uncertain(s);
      NoneIn(Uncertain(s));
    }
  }

  lemma {:induction false} NoneIn(s: set<int>)
    ensures s == {} <==> forall e :: e !in s
  {
    if forall e :: e !in s {
      assert s == {};
    }
  }

  lemma {:induction false} DoneKept(s: State, d: Deed)
    requires Kept(s) && MayDo(s, d) && !Done(s, d).ledger.finished
    ensures Kept(Done(s, d))
    ensures Exact(s) && (d.Does? && d.event.Restore? ==> FindsAll(s)) ==> Exact(Done(s, d))
  {
    hide Kept, Exact, Happen, LooseAfter, FindsAll, Possible, Fallen;
    match d {
      case Lose(_, _, _) => LossKept(s, d);
      case Does(event, synced) =>
        match event {
          case Write(rec) => WriteKept(s, rec, synced);
          case Barrier => BarrierKept(s, synced);
          case Completes(id) => CompletesKept(s, id, synced);
          case Notify(id) => NotifyKept(s, id, synced);
          case Crash(tail) => CrashKept(s, tail, synced);
          case InterruptedRestore(settled) => InterruptedKept(s, settled, synced);
          case Restore =>
            RestoreKept(s, synced);
            if Exact(s) { RestoreIsExactIff(s, synced); }
          case Succeed =>
        }
    }
  }

  lemma {:induction false} BegunKept(leavings: Epochs)
    requires forall e :: e in leavings ==> e >= 1
    ensures Kept(Begun(leavings)) && Exact(Begun(leavings))
  {}

  lemma {:induction false} FinishedStays(s: State, d: Deed)
    requires MayDo(s, d)
    ensures !s.ledger.finished
  {}

  // ----- Main results ----------------------------------------------------------------------

  /** Whatever is lost and whenever, an epoch that will not be produced again is in one of the two
      directories, with exactly its records. */
  lemma {:induction false} OwnedEpochsSurvive(leavings: Epochs, deeds: seq<Deed>)
    requires ValidDeeds(Begun(leavings), deeds) && !StateOf(Begun(leavings), deeds).ledger.finished
    requires forall e :: e in leavings ==> e >= 1
    ensures Kept(StateOf(Begun(leavings), deeds))
    ensures EachRestoreFindsAll(Begun(leavings), deeds) ==> Exact(StateOf(Begun(leavings), deeds))
  {
    hide Kept, Exact, MayDo, Done, FindsAll;
    if deeds == [] {
      BegunKept(leavings);
    } else {
      var init, d := deeds[..|deeds| - 1], deeds[|deeds| - 1];
      FinishedStays(StateOf(Begun(leavings), init), d);
      OwnedEpochsSurvive(leavings, init);
      DoneKept(StateOf(Begun(leavings), init), d);
    }
  }

  /** In particular an epoch that has been settled or notified: a loss of power leaves it in one of
      the directories, and the next restore commits it. */
  lemma {:induction false} CommittedSurvives(leavings: Epochs, deeds: seq<Deed>, loss: Deed, synced: bool)
    requires ValidDeeds(Begun(leavings), deeds) && loss.Lose? && MayDo(StateOf(Begun(leavings), deeds), loss)
    requires forall e :: e in leavings ==> e >= 1
    ensures var s := StateOf(Begun(leavings), deeds);
            var fallen := Done(s, loss);
            var restored := Done(fallen, Does(Restore, synced));
            forall e :: e in s.now.disk.committed && Owned(s.ledger, e) ==>
              && InPlace(fallen.now.disk, s.ledger, e)
              && e in restored.now.disk.committed && restored.now.disk.committed[e] == OwnedRecords(s.ledger, e)
  {
    hide Kept, Exact, Done, MayDo, StateOf, InPlace, OwnedRecords;
    var s := StateOf(Begun(leavings), deeds);
    FinishedStays(s, loss);
    OwnedEpochsSurvive(leavings, deeds);
    DoneKept(s, loss) by { StillUnfinished(s, loss); }
    forall e | e in s.now.disk.committed && Owned(s.ledger, e)
      ensures InPlace(Done(s, loss).now.disk, s.ledger, e)
      ensures e in Done(Done(s, loss), Does(Restore, synced)).now.disk.committed
      ensures Done(Done(s, loss), Does(Restore, synced)).now.disk.committed[e] == OwnedRecords(s.ledger, e)
    {
      CommittedStaysOwned(s, loss, e);
      RestoreCommits(Done(s, loss), synced, e);
    }
  }

  lemma {:induction false} StillUnfinished(s: State, loss: Deed)
    requires loss.Lose? && MayDo(s, loss)
    ensures !Done(s, loss).ledger.finished && !Done(s, loss).ledger.running
  {}

  lemma {:induction false} CommittedStaysOwned(s: State, loss: Deed, e: int)
    requires Kept(s) && loss.Lose? && MayDo(s, loss) && Kept(Done(s, loss))
    requires e in s.now.disk.committed && Owned(s.ledger, e)
    ensures Owned(Done(s, loss).ledger, e) && OwnedRecords(Done(s, loss).ledger, e) == OwnedRecords(s.ledger, e)
    ensures InPlace(Done(s, loss).now.disk, s.ledger, e) && !Done(s, loss).ledger.running
  {}

  lemma {:induction false} RestoreCommits(s: State, synced: bool, e: int)
    requires Kept(s) && !s.ledger.running && Owned(s.ledger, e)
    ensures var d := Done(s, Does(Restore, synced)).now.disk;
            e in d.committed && d.committed[e] == OwnedRecords(s.ledger, e)
  {}

  /** A run that succeeds has committed every epoch with its owner's records, whatever was lost on
      the way; and nothing else, if each restore found all there was to settle. */
  lemma {:induction false} SuccessCommitsEveryEpoch(leavings: Epochs, deeds: seq<Deed>, synced: bool)
    requires ValidDeeds(Begun(leavings), deeds) && MayDo(StateOf(Begun(leavings), deeds), Does(Succeed, synced))
    requires forall e :: e in leavings ==> e >= 1
    ensures var s := Done(StateOf(Begun(leavings), deeds), Does(Succeed, synced));
            var all := s.ledger.past + s.ledger.current;
            && (forall e :: e in all ==> e in s.now.disk.committed && s.now.disk.committed[e] == all[e])
            && (EachRestoreFindsAll(Begun(leavings), deeds) ==> s.now.disk.committed == all)
  {
    hide Kept, Exact, StateOf, Done;
    OwnedEpochsSurvive(leavings, deeds);
    SucceedCommits(StateOf(Begun(leavings), deeds), synced);
  }

  lemma {:induction false} SucceedCommits(s: State, synced: bool)
    requires Kept(s) && s.ledger.running
    ensures var s' := Done(s, Does(Succeed, synced));
            var all := s'.ledger.past + s'.ledger.current;
            && (forall e :: e in all ==> e in s'.now.disk.committed && s'.now.disk.committed[e] == all[e])
            && (Exact(s) ==> s'.now.disk.committed == all)
  {
    var s' := Done(s, Does(Succeed, synced));
    var all := s'.ledger.past + s'.ledger.current;
    forall e | e in all ensures e in s'.now.disk.committed && s'.now.disk.committed[e] == all[e] {
      assert Owned(s.ledger, e) || e == s.ledger.epoch;
    }
    if Exact(s) {
      forall e | e in s'.now.disk.committed ensures e in all {
        assert e in s.now.disk.committed || e in Staged(s.now);
      }
    }
  }

  // ----- Where a sync is left out ------------------------------------------------------------

  /** What is committed when a run succeeds stays so exactly if something was left for the final
      commit to rename, so that it syncs the directory, or every earlier rename had been synced. */
  lemma {:induction false} SuccessIsDurableIff(s: State, synced: bool)
    requires Kept(s) && s.ledger.running
    ensures var s' := Done(s, Does(Succeed, synced));
            (forall d: Deed :: d.Lose? && Possible(s', d) ==> Fallen(s', d).committed == s'.now.disk.committed) <==>
            s.loose.moved == {} || Within(Staged(CloseEpoch(s.now.sink, s.now.disk)), s.now.sink.firstEpoch, s.now.sink.epoch) != {}
  {
    var s' := Done(s, Does(Succeed, synced));
    if s'.loose.moved == {} {
      forall d: Deed | d.Lose? && Possible(s', d) ensures Fallen(s', d).committed == s'.now.disk.committed {
        assert d.lost == {};
      }
    } else {
      forall e | e in s'.loose.moved ensures exists d: Deed :: d.Lose? && Possible(s', d) && Fallen(s', d).committed != s'.now.disk.committed {
        var d := Lose(map[], {e}, {e});
        assert Possible(s', d) && e !in Fallen(s', d).committed;
      }
      NoneIn(s'.loose.moved);
    }
  }

  /** What a run may do after a restore that overlooked a removal. */
  function Overlooked(k: int, e: int, records: seq<Record>): seq<Deed>
    requires k < e
  {
    [Does(Restore, true)] + seq(e - k, i => Does(Barrier, true)) + [Does(Completes(e), true), Lose(map[e := records], {}, {}), Does(Restore, true), Does(Succeed, true)]
  }

  /** A restore that finds nothing staged, while a removal by one cut short before it is not yet
      synced, syncs nothing. The run need only write nothing up to that epoch and lose power: the
      dead run's file is back, at or below the checkpoint restored at next, and is committed. */
  lemma {:induction false} OverlookedIsCommitted(s: State, e: int, records: seq<Record>)
    requires Kept(s) && Exact(s) && !s.ledger.running && Staged(s.now) == {} && e in Uncertain(s)
    ensures e > s.ledger.highest && ValidDeeds(s, Overlooked(s.ledger.highest, e, records))
    ensures var s' := StateOf(s, Overlooked(s.ledger.highest, e, records));
            && s'.ledger.finished && e !in s'.ledger.past + s'.ledger.current
            && e in s'.now.disk.committed && s'.now.disk.committed[e] == records
  {
    hide StateOf, ValidDeeds, Kept, Exact, LooseAfter, Happen, Possible, Fallen;
    assert Staged(s.now) + Uncertain(s) >= {e};
    UncertainIsAhead(s, e);
    var k := s.ledger.highest;
    RestoreOverlooks(s);
    OneMore(s, [], Does(Restore, true));
    assert [] + [Does(Restore, true)] == [Does(Restore, true)];
    NothingDone(s);
    EmptyEpochs(s, Done(s, Does(Restore, true)), e - k);
    var deeds := [Does(Restore, true)] + seq(e - k, i => Does(Barrier, true));
    var s2 := StateOf(s, deeds);
    PhantomReturns(s, s2, e, records);
    PhantomCommitted(Done(Done(s2, Does(Completes(e), true)), Lose(map[e := records], {}, {})), e, records);
    OneMore(s, deeds, Does(Completes(e), true));
    OneMore(s, deeds + [Does(Completes(e), true)], Lose(map[e := records], {}, {}));
    OneMore(s, deeds + [Does(Completes(e), true)] + [Lose(map[e := records], {}, {})], Does(Restore, true));
    OneMore(s, deeds + [Does(Completes(e), true)] + [Lose(map[e := records], {}, {})] + [Does(Restore, true)], Does(Succeed, true));
    assert Overlooked(k, e, records) == deeds + [Does(Completes(e), true)] + [Lose(map[e := records], {}, {})] + [Does(Restore, true)] + [Does(Succeed, true)];
  }

  lemma {:induction false} NothingDone(s: State)
    ensures StateOf(s, []) == s && ValidDeeds(s, [])
  {}

  lemma {:induction false} UncertainIsAhead(s: State, e: int)
    requires Kept(s) && Exact(s) && !s.ledger.running && e in Uncertain(s)
    ensures e > s.ledger.highest && e !in s.ledger.past && e !in s.ledger.current && e !in s.ledger.complete && !s.ledger.finished
  {
    assert e in Staged(s.now) + Uncertain(s);
  }

  lemma {:induction false} RestoreOverlooks(s: State)
    requires Kept(s) && !s.ledger.running && Staged(s.now) == {}
    ensures var k := s.ledger.highest;
            && MayDo(s, Does(Restore, true))
            && Done(s, Does(Restore, true)) == State(Effect(Fresh(k), s.now.disk), s.loose, s.ledger.(running := true, base := k, epoch := k + 1))
  {
    assert s.now.disk.staging == map[];
    assert Settle(s.now.disk, s.ledger.highest, {}) == s.now.disk;
  }

  /** The checkpoint of an epoch nothing was written in completes, and the power fails. */
  lemma {:induction false} PhantomReturns(s: State, s2: State, e: int, records: seq<Record>)
    requires !s.ledger.finished && e in Uncertain(s) && e > s.ledger.highest && e !in s.ledger.past && e !in s.ledger.current && e !in s.ledger.complete
    requires var k := s.ledger.highest;
             s2 == State(Effect(Fresh(k).(epoch := e + 1), s.now.disk), s.loose, s.ledger.(running := true, base := k, epoch := e + 1))
    ensures var s3 := Done(s2, Does(Completes(e), true));
            var s4 := Done(s3, Lose(map[e := records], {}, {}));
            && MayDo(s2, Does(Completes(e), true)) && MayDo(s3, Lose(map[e := records], {}, {}))
            && !s4.ledger.running && !s4.ledger.finished && s4.ledger.highest == e && e !in s4.ledger.past && s4.ledger.current == map[]
            && e in s4.now.disk.staging && s4.now.disk.staging[e] == records
  {
    var s3 := Done(s2, Does(Completes(e), true));
    assert Uncertain(s3) == Uncertain(s);
  }

  /** The next restore settles what came back. */
  lemma {:induction false} PhantomCommitted(s4: State, e: int, records: seq<Record>)
    requires !s4.ledger.running && !s4.ledger.finished && s4.ledger.highest == e && e !in s4.ledger.past && s4.ledger.current == map[]
    requires e in s4.now.disk.staging && s4.now.disk.staging[e] == records
    ensures var s5 := Done(s4, Does(Restore, true));
            var s6 := Done(s5, Does(Succeed, true));
            && MayDo(s4, Does(Restore, true)) && MayDo(s5, Does(Succeed, true))
            && s6.ledger.finished && e !in s6.ledger.past + s6.ledger.current
            && e in s6.now.disk.committed && s6.now.disk.committed[e] == records
  {
    hide LooseAfter;
    var s5 := Done(s4, Does(Restore, true));
    assert e in s5.now.disk.committed && s5.now.disk.committed[e] == records;
  }

  lemma {:induction false} OneMore(s: State, deeds: seq<Deed>, d: Deed)
    ensures StateOf(s, deeds + [d]) == Done(StateOf(s, deeds), d)
    ensures ValidDeeds(s, deeds + [d]) <==> ValidDeeds(s, deeds) && MayDo(StateOf(s, deeds), d)
  {
    assert (deeds + [d])[..|deeds|] == deeds;
  }

  /** Barriers with nothing written in between change no file and sync none. */
  lemma {:induction false} EmptyEpochs(s: State, s1: State, n: nat)
    requires ValidDeeds(s, [Does(Restore, true)]) && s1 == StateOf(s, [Does(Restore, true)])
    requires s1.ledger.running && !s1.ledger.finished && !s1.now.sink.open
    ensures var deeds := [Does(Restore, true)] + seq(n, i => Does(Barrier, true));
            && ValidDeeds(s, deeds)
            && StateOf(s, deeds) == State(Effect(s1.now.sink.(epoch := s1.now.sink.epoch + n), s1.now.disk), s1.loose, s1.ledger.(epoch := s1.ledger.epoch + n))
  {
    var barriers := seq(n, i => Does(Barrier, true));
    if n == 0 {
      assert [Does(Restore, true)] + barriers == [Does(Restore, true)];
    } else {
      EmptyEpochs(s, s1, n - 1);
      var before := [Does(Restore, true)] + seq(n - 1, i => Does(Barrier, true));
      OneMore(s, before, Does(Barrier, true));
      assert [Does(Restore, true)] + barriers == before + [Does(Barrier, true)];
    }
  }

  /** Both happen. A sweep of a dead run's file is cut short before its sync, and the file ends up
      committed though no run of this job wrote it. */
  lemma {:induction false} ADeadRunCanBeCommitted(rec: Record)
    ensures var begun := Begun(map[1 := [rec]]);
            var swept := Done(begun, Does(InterruptedRestore({1}), false));
            && MayDo(begun, Does(InterruptedRestore({1}), false)) && ValidDeeds(swept, Overlooked(0, 1, [rec]))
            && var s := StateOf(swept, Overlooked(0, 1, [rec]));
               s.ledger.finished && 1 in s.now.disk.committed && 1 !in s.ledger.past + s.ledger.current
  {
    hide Kept, Exact, StateOf, ValidDeeds;
    var begun := Begun(map[1 := [rec]]);
    var swept := Done(begun, Does(InterruptedRestore({1}), false));
    BegunKept(map[1 := [rec]]);
    InterruptedKept(begun, {1}, false);
    assert Staged(swept.now) == {} && 1 in swept.loose.removed && 1 in Uncertain(swept);
    OverlookedIsCommitted(swept, 1, [rec]);
  }

  /** And a notification whose sync failed, in a run with nothing left for the final commit to rename:
      the run succeeds, and a loss of power takes the epoch out of committed. */
  lemma {:induction false} ASuccessCanFallBack(rec: Record)
    ensures var deeds := [Does(Restore, true), Does(Write(rec), true), Does(Barrier, true), Does(Completes(1), true), Does(Notify(1), false), Does(Succeed, true)];
            var s := StateOf(Begun(map[]), deeds);
            && ValidDeeds(Begun(map[]), deeds) && s.now.disk.committed == map[1 := [rec]]
            && Possible(s, Lose(map[], {1}, {1})) && 1 !in Fallen(s, Lose(map[], {1}, {1})).committed
  {
    hide ValidDeeds, StateOf;
    var s0 := Begun(map[]);
    var k1 := Does(Restore, true);
    var s1 := Done(s0, k1);
    var s2 := Done(s1, Does(Write(rec), true));
    var s3 := Done(s2, Does(Barrier, true));
    var s4 := Done(s3, Does(Completes(1), true));
    var s5 := Done(s4, Does(Notify(1), false));
    NothingDone(s0);
    OneMore(s0, [], k1);
    assert [] + [k1] == [k1];
    OneMore(s0, [k1], Does(Write(rec), true));
    OneMore(s0, [k1] + [Does(Write(rec), true)], Does(Barrier, true));
    OneMore(s0, [k1] + [Does(Write(rec), true)] + [Does(Barrier, true)], Does(Completes(1), true));
    OneMore(s0, [k1] + [Does(Write(rec), true)] + [Does(Barrier, true)] + [Does(Completes(1), true)], Does(Notify(1), false));
    OneMore(s0, [k1] + [Does(Write(rec), true)] + [Does(Barrier, true)] + [Does(Completes(1), true)] + [Does(Notify(1), false)], Does(Succeed, true));
    assert s3.now == Effect(Instance(2, 1, {1}, false, []), Disk(map[1 := [rec]], map[]));
    assert s5.now.disk == Disk(map[], map[1 := [rec]]) && s5.loose == Loose({}, {1}, {1});
    assert [k1] + [Does(Write(rec), true)] + [Does(Barrier, true)] + [Does(Completes(1), true)] + [Does(Notify(1), false)] + [Does(Succeed, true)]
        == [Does(Restore, true), Does(Write(rec), true), Does(Barrier, true), Does(Completes(1), true), Does(Notify(1), false), Does(Succeed, true)];
  }
}
