/** Which checkpoint a restart resumes from. */
module CheckpointSelection {
  import opened Int64
  import opened Elements
  import opened FileNames

  const DIR_PREFIX := "chk-"

  /** An entry of the checkpoint root: its name, and whether it is a directory with a marker. */
  datatype RootEntry = RootEntry(name: string, isDir: bool, marked: bool)

  function DirName(id: int64): string {
    DIR_PREFIX + Itoa(id)
  }

  function IdOf(name: string): Option<int64> {
    if |name| < 4 || name[..4] != DIR_PREFIX then None else ParseInt(name[4..])
  }

  lemma {:induction false} DirNameRoundTrip(id: int64)
    ensures IdOf(DirName(id)) == Some(id)
  {
    ParseIntRoundTrip(id);
    assert DirName(id)[..4] == DIR_PREFIX && DirName(id)[4..] == Itoa(id);
  }

  /** The checkpoint of a directory that may be selected; None for one without the marker, which
      is in flight or abandoned, and for anything that is not a checkpoint. */
  function Selectable(e: RootEntry): Option<int64> {
    if e.isDir && e.marked then IdOf(e.name) else None
  }

  /** The highest checkpoint with a marker, whatever higher ones without it sit beside it. */
  method Latest(entries: seq<RootEntry>) returns (best: Option<int64>)
    ensures best.None? <==> forall e :: e in entries ==> Selectable(e).None?
    ensures best.Some? ==> exists e :: e in entries && Selectable(e) == best
    ensures best.Some? ==> forall e :: e in entries && Selectable(e).Some? ==> Selectable(e).value <= best.value
  {
    best := None;
    for i := 0 to |entries|
      invariant best.None? <==> forall j :: 0 <= j < i ==> Selectable(entries[j]).None?
      invariant best.Some? ==> exists j :: 0 <= j < i && Selectable(entries[j]) == best
      invariant best.Some? ==> forall j :: 0 <= j < i && Selectable(entries[j]).Some? ==> Selectable(entries[j]).value <= best.value
    {
      var id := Selectable(entries[i]);
      if id.Some? && (best.None? || id.value > best.value) {
        best := id;
      }
    }
  }
}
