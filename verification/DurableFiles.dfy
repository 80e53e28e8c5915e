/** A directory whose contents become durable when a file is synced and whose entries become
    durable when the directory is. Any subset of the entries changed since may survive a crash. */
module DurableFiles {
  import opened Elements

  /** The files of one checkpoint directory, each with the temporary it is written under. */
  datatype Name = StateFile(key: SubtaskKey) | MetadataFile | CompleteMarker | Temp(of: Name)

  function Base(n: Name): Name {
    if n.Temp? then Base(n.of) else n
  }

  datatype Inode = Inode(content: Bytes, synced: bool)

  /** `entries` is the directory as it is now; `possible` are, for each name, the entries a crash
      may leave it with, None standing for no entry. */
  datatype FS = FS(entries: map<Name, nat>, possible: map<Name, set<Option<nat>>>, inodes: map<nat, Inode>, next: nat)

  datatype Op = Create(name: Name) | Append(name: Name, data: Bytes) | SyncFile(name: Name) | Rename(from: Name, to: Name) | SyncDir | Remove(name: Name)

  function Possible(s: FS, n: Name): set<Option<nat>> {
    if n in s.possible then s.possible[n] else {None}
  }

  function Entry(s: FS, n: Name): Option<nat> {
    if n in s.entries then Some(s.entries[n]) else None
  }

  function ContentOf(s: FS, i: nat): Bytes {
    if i in s.inodes then s.inodes[i].content else []
  }

  function MayBe(s: FS, n: Name, e: Option<nat>): map<Name, set<Option<nat>>> {
    s.possible[n := Possible(s, n) + {e}]
  }

  /** Truncates the file if the name is there, makes a new one otherwise. */
  function ApplyCreate(s: FS, n: Name): FS {
    if n in s.entries then s.(inodes := s.inodes[s.entries[n] := Inode([], false)])
    else s.(entries := s.entries[n := s.next], possible := MayBe(s, n, Some(s.next)),
            inodes := s.inodes[s.next := Inode([], false)], next := s.next + 1)
  }

  function ApplyRename(s: FS, from: Name, to: Name): FS {
    if from !in s.entries || from == to then s
    else
      var s1 := s.(possible := MayBe(s, from, None));
      s1.(entries := (s.entries - {from})[to := s.entries[from]], possible := MayBe(s1, to, Some(s.entries[from])))
  }

  function Apply(s: FS, op: Op): FS {
    match op
    case Create(n) => ApplyCreate(s, n)
    case Append(n, data) =>
      if n in s.entries then s.(inodes := s.inodes[s.entries[n] := Inode(ContentOf(s, s.entries[n]) + data, false)]) else s
    case SyncFile(n) =>
      if n in s.entries then s.(inodes := s.inodes[s.entries[n] := Inode(ContentOf(s, s.entries[n]), true)]) else s
    case Rename(from, to) => ApplyRename(s, from, to)
    case SyncDir => s.(possible := map n | n in s.possible.Keys + s.entries.Keys :: {Entry(s, n)})
    case Remove(n) => s.(entries := s.entries - {n}, possible := MayBe(s, n, None))
  }

  function ApplyAll(s: FS, ops: seq<Op>): FS {
    if ops == [] then s else Apply(ApplyAll(s, ops[..|ops| - 1]), ops[|ops| - 1])
  }

  /** One name after a crash: an entry it may have, with the file's contents if they were synced
      and anything at all if they were not. */
  ghost predicate NameSurvives(s: FS, n: Name, disk: map<Name, Bytes>) {
    exists e :: e in Possible(s, n) && match e
      case None => n !in disk
      case Some(i) => n in disk && (i in s.inodes && s.inodes[i].synced ==> disk[n] == s.inodes[i].content)
  }

  ghost predicate Survives(s: FS, disk: map<Name, Bytes>) {
    forall n :: NameSurvives(s, n, disk)
  }

  /** Entries point at files, the present entry is always a possible one, and no file is ever
      reached by two names but a file's own and its temporary. */
  ghost predicate Coherent(s: FS) {
    && (forall n, i :: Some(i) in Possible(s, n) ==> i < s.next && i in s.inodes)
    && (forall n :: Entry(s, n) in Possible(s, n))
    && (forall n, m, i :: Some(i) in Possible(s, n) && Some(i) in Possible(s, m) ==> Base(n) == Base(m))
  }

  lemma {:induction false} CreateCoherent(s: FS, n: Name)
    requires Coherent(s)
    ensures Coherent(ApplyCreate(s, n))
  {
    hide Base;
    if n in s.entries {
      assert Entry(s, n) == Some(s.entries[n]);
      var s' := ApplyCreate(s, n);
      forall m ensures Possible(s', m) == Possible(s, m) && Entry(s', m) == Entry(s, m) {}
    } else {
      var s' := ApplyCreate(s, n);
      forall m ensures Possible(s', m) == (if m == n then Possible(s, n) + {Some(s.next)} else Possible(s, m)) {}
    }
  }

  lemma {:induction false} ContentCoherent(s: FS, n: Name, inode: Inode)
    requires Coherent(s) && n in s.entries
    ensures Coherent(s.(inodes := s.inodes[s.entries[n] := inode]))
  {
    var s' := s.(inodes := s.inodes[s.entries[n] := inode]);
    forall m ensures Possible(s', m) == Possible(s, m) && Entry(s', m) == Entry(s, m) {}
  }

  lemma {:induction false} RenamePossible(s: FS, from: Name, to: Name, m: Name)
    requires from in s.entries && from != to
    ensures Possible(ApplyRename(s, from, to), m) ==
      if m == from then Possible(s, from) + {None} else if m == to then Possible(s, to) + {Some(s.entries[from])} else Possible(s, m)
    ensures Entry(ApplyRename(s, from, to), m) ==
      if m == from then None else if m == to then Some(s.entries[from]) else Entry(s, m)
    ensures ApplyRename(s, from, to).inodes == s.inodes && ApplyRename(s, from, to).next == s.next
  {}

  lemma {:induction false} RenameCoherent(s: FS, from: Name, to: Name)
    requires Coherent(s) && Base(from) == Base(to)
    ensures Coherent(ApplyRename(s, from, to))
  {
    if from in s.entries && from != to {
      hide ApplyRename, Possible, Base;
      var s' := ApplyRename(s, from, to);
      assert Entry(s, from) == Some(s.entries[from]) && Entry(s, from) in Possible(s, from);
      forall m
        ensures Entry(s', m) in Possible(s', m)
        ensures forall i :: Some(i) in Possible(s', m) ==> Some(i) in Possible(s, m) || (m == to && Some(i) in Possible(s, from))
      {
        RenamePossible(s, from, to, m);
        assert Entry(s, m) in Possible(s, m);
      }
      RenamePossible(s, from, to, to);
    }
  }

  lemma {:induction false} SyncDirCoherent(s: FS)
    requires Coherent(s)
    ensures Coherent(Apply(s, SyncDir))
    ensures forall n :: Possible(Apply(s, SyncDir), n) == {Entry(s, n)}
  {
    var s' := Apply(s, SyncDir);
    forall n ensures Possible(s', n) == {Entry(s, n)} && Entry(s', n) == Entry(s, n) {}
  }

  lemma {:induction false} RemoveCoherent(s: FS, n: Name)
    requires Coherent(s)
    ensures Coherent(Apply(s, Remove(n)))
  {
    var s' := Apply(s, Remove(n));
    forall m ensures Possible(s', m) == (if m == n then Possible(s, n) + {None} else Possible(s, m)) {}
  }

  /** Renames are only ever from a file's temporary to the file. */
  predicate Tidy(op: Op) {
    op.Rename? ==> Base(op.from) == Base(op.to)
  }

  lemma {:induction false} ApplyCoherent(s: FS, op: Op)
    requires Coherent(s) && Tidy(op)
    ensures Coherent(Apply(s, op))
  {
    hide Coherent;
    match op {
      case Create(n) => CreateCoherent(s, n);
      case Append(n, data) => if n in s.entries { ContentCoherent(s, n, Inode(ContentOf(s, s.entries[n]) + data, false)); }
      case SyncFile(n) => if n in s.entries { ContentCoherent(s, n, Inode(ContentOf(s, s.entries[n]), true)); }
      case Rename(from, to) => RenameCoherent(s, from, to);
      case SyncDir => SyncDirCoherent(s);
      case Remove(n) => RemoveCoherent(s, n);
    }
  }

  // ----- What survives other writes --------------------------------------------------------

  /** The file is in place with these contents, synced. */
  ghost predicate Stored(s: FS, n: Name, data: Bytes) {
    n in s.entries && s.entries[n] in s.inodes && s.inodes[s.entries[n]] == Inode(data, true)
  }

  /** And no crash can leave anything else under its name. */
  ghost predicate Durable(s: FS, n: Name, data: Bytes) {
    exists i :: Possible(s, n) == {Some(i)} && i in s.inodes && s.inodes[i] == Inode(data, true)
  }

  /** The operation is about another file. */
  predicate Elsewhere(op: Op, n: Name) {
    match op
    case Create(m) => Base(m) != Base(n)
    case Append(m, _) => Base(m) != Base(n)
    case SyncFile(m) => Base(m) != Base(n)
    case Rename(from, to) => Base(from) != Base(n) && Base(to) != Base(n)
    case SyncDir => true
    case Remove(m) => Base(m) != Base(n)
  }

  lemma {:induction false} StoredElsewhere(s: FS, op: Op, n: Name, data: Bytes)
    requires Coherent(s) && Stored(s, n, data) && Elsewhere(op, n)
    ensures Stored(Apply(s, op), n, data)
  {
    assert Entry(s, n) == Some(s.entries[n]) && Entry(s, n) in Possible(s, n);
    match op {
      case Create(m) => OtherFile(s, n, m);
      case Append(m, _) => OtherFile(s, n, m);
      case SyncFile(m) => OtherFile(s, n, m);
      case Rename(_, _) =>
      case SyncDir =>
      case Remove(_) =>
    }
  }

  lemma {:induction false} OtherFile(s: FS, n: Name, m: Name)
    requires Coherent(s) && n in s.entries && Base(m) != Base(n)
    ensures m in s.entries ==> s.entries[m] != s.entries[n]
    ensures s.entries[n] != s.next
  {
    assert Entry(s, n) in Possible(s, n) && Entry(s, m) in Possible(s, m);
  }

  lemma {:induction false} DurableElsewhere(s: FS, op: Op, n: Name, data: Bytes)
    requires Coherent(s) && Durable(s, n, data) && Elsewhere(op, n)
    ensures Durable(Apply(s, op), n, data)
  {
    var i :| Possible(s, n) == {Some(i)} && i in s.inodes && s.inodes[i] == Inode(data, true);
    assert Some(i) in Possible(s, n);
    assert Entry(s, n) in Possible(s, n);
    assert Entry(s, n) == Some(i);
    var s' := Apply(s, op);
    match op {
      case Create(m) => OtherFile(s, n, m); assert Possible(s', n) == {Some(i)};
      case Append(m, _) => OtherFile(s, n, m); assert Possible(s', n) == {Some(i)};
      case SyncFile(m) => OtherFile(s, n, m); assert Possible(s', n) == {Some(i)};
      case Rename(_, _) => assert Possible(s', n) == {Some(i)};
      case SyncDir => assert Possible(s', n) == {Some(i)};
      case Remove(_) => assert Possible(s', n) == {Some(i)};
    }
  }

  /** Syncing the directory makes what is stored durable. */
  lemma {:induction false} StoredBecomesDurable(s: FS, n: Name, data: Bytes)
    requires Stored(s, n, data)
    ensures Durable(Apply(s, SyncDir), n, data)
  {
    assert Possible(Apply(s, SyncDir), n) == {Some(s.entries[n])};
  }

  /** Durable files are read back after any crash. */
  lemma {:induction false} DurableSurvives(s: FS, n: Name, data: Bytes, disk: map<Name, Bytes>)
    requires Durable(s, n, data) && NameSurvives(s, n, disk)
    ensures n in disk && disk[n] == data
  {
    var i :| Possible(s, n) == {Some(i)} && i in s.inodes && s.inodes[i] == Inode(data, true);
  }

  /** No crash can leave the name. */
  ghost predicate Absent(s: FS, n: Name) {
    Possible(s, n) == {None} && n !in s.entries
  }

  lemma {:induction false} AbsentStays(s: FS, op: Op, n: Name)
    requires Absent(s, n) && (op.Create? ==> op.name != n) && (op.Rename? ==> op.to != n)
    ensures Absent(Apply(s, op), n)
  {
    match op {
      case Create(m) => assert Possible(Apply(s, op), n) == {None};
      case Append(m, _) => assert Possible(Apply(s, op), n) == {None};
      case SyncFile(m) => assert Possible(Apply(s, op), n) == {None};
      case Rename(from, to) => assert Possible(Apply(s, op), n) == {None};
      case SyncDir => assert Possible(Apply(s, op), n) == {None};
      case Remove(m) => assert Possible(Apply(s, op), n) == {None};
    }
  }

  lemma {:induction false} AbsentIsGone(s: FS, n: Name, disk: map<Name, Bytes>)
    requires Absent(s, n) && NameSurvives(s, n, disk)
    ensures n !in disk
  {
    assert forall e :: e in Possible(s, n) ==> e == None;
  }
}
