/** The names of state files and of staged and committed transactions, and how one is read back.
    Different subtasks and different checkpoints never share a name, and decimal numbers, the
    negative ones included, are read back as they were written. */
module FileNames {
  import opened Int64
  import opened Elements

  // ----- Decimal numbers -------------------------------------------------------------------

  function Digit(d: nat): char
    requires d < 10
  {
    '0' + d as char
  }

  predicate IsDigit(c: char) {
    '0' <= c <= '9'
  }

  function DigitValue(c: char): nat
    requires IsDigit(c)
  {
    (c - '0') as nat
  }

  function Decimal(n: nat): (s: string)
    ensures |s| > 0 && forall i :: 0 <= i < |s| ==> IsDigit(s[i])
  {
    if n < 10 then [Digit(n)] else Decimal(n / 10) + [Digit(n % 10)]
  }

  function ReadDecimal(s: string): nat
    requires forall i :: 0 <= i < |s| ==> IsDigit(s[i])
  {
    if s == "" then 0 else ReadDecimal(s[..|s| - 1]) * 10 + DigitValue(s[|s| - 1])
  }

  /** A number as it appears in a name. */
  function Itoa(n: int): (s: string)
    ensures |s| > 0
  {
    if n < 0 then "-" + Decimal(0 - n) else Decimal(n)
  }

  /** Decimal digits after an optional sign, in the range of an int64. */
  function ParseInt(s: string): Option<int64> {
    var negative := s != "" && s[0] == '-';
    var digits := if s != "" && (s[0] == '-' || s[0] == '+') then s[1..] else s;
    if digits == "" || exists i :: 0 <= i < |digits| && !IsDigit(digits[i]) then None
    else
      var size: int := ReadDecimal(digits);
      var n: int := if negative then 0 - size else size;
      if MIN_INT64 <= n <= MAX_INT64 then Some(n) else None
  }

  lemma {:induction false} DecimalRoundTrip(n: nat)
    ensures ReadDecimal(Decimal(n)) == n
  {
    if n >= 10 {
      DecimalRoundTrip(n / 10);
      var s := Decimal(n);
      assert s[..|s| - 1] == Decimal(n / 10);
    } else {
      var s := Decimal(n);
      assert s[..0] == "";
    }
  }

  lemma {:induction false} ParseIntRoundTrip(n: int64)
    ensures ParseInt(Itoa(n)) == Some(n)
  {
    var size: int := n;
    if n >= 0 {
      DecimalRoundTrip(n);
      assert IsDigit(Itoa(n)[0]);
    } else {
      DecimalRoundTrip(0 - size);
      assert Itoa(n)[1..] == Decimal(0 - size);
    }
  }

  // ----- Splitting at the last separator ---------------------------------------------------

  function LastIndex(s: string, c: char): Option<nat> {
    if s == "" then None
    else if s[|s| - 1] == c then Some(|s| - 1)
    else LastIndex(s[..|s| - 1], c)
  }

  function CutSuffix(s: string, suffix: string): Option<string> {
    if |suffix| <= |s| && s[|s| - |suffix|..] == suffix then Some(s[..|s| - |suffix|]) else None
  }

  /** The last separator is the one before a tail that holds none. */
  lemma {:induction false} LastIndexBefore(head: string, c: char, tail: string)
    requires forall i :: 0 <= i < |tail| ==> tail[i] != c
    ensures LastIndex(head + [c] + tail, c) == Some(|head|)
  {
    var s := head + [c] + tail;
    if tail == "" {
      assert s[|s| - 1] == c;
    } else {
      var init := tail[..|tail| - 1];
      LastIndexBefore(head, c, init);
      assert s[..|s| - 1] == head + [c] + init;
      assert s[|s| - 1] == tail[|tail| - 1];
    }
  }

  lemma {:induction false} CutSuffixOf(s: string, suffix: string)
    ensures CutSuffix(s + suffix, suffix) == Some(s)
  {
    assert (s + suffix)[|s|..] == suffix && (s + suffix)[..|s|] == s;
  }

  // ----- State files -----------------------------------------------------------------------

  const STATE_SUFFIX := ".state"
  const STAGING_SUFFIX := ".tmp"
  const COMMIT_SUFFIX := ".out"

  /** One parallel instance of a vertex, as it appears in a name. */
  function SubtaskName(vertexId: string, index: nat): string {
    vertexId + "-" + Itoa(index)
  }

  function StateFileName(vertexId: string, index: nat): string {
    SubtaskName(vertexId, index) + STATE_SUFFIX
  }

  /** The mapping is injective without escaping: an index carries no '-', so the last one always
      splits the name, whatever the vertex ID contains. */
  lemma {:induction false} SubtaskNameInjective(v: string, i: nat, v': string, i': nat)
    requires SubtaskName(v, i) == SubtaskName(v', i')
    ensures v == v' && i == i'
  {
    var s := SubtaskName(v, i);
    LastIndexBefore(v, '-', Decimal(i));
    LastIndexBefore(v', '-', Decimal(i'));
    assert s == v + ['-'] + Decimal(i) && s == v' + ['-'] + Decimal(i');
    assert s[..|v|] == v && s[..|v'|] == v';
    assert s[|v| + 1..] == Decimal(i) && s[|v'| + 1..] == Decimal(i');
    DecimalRoundTrip(i);
    DecimalRoundTrip(i');
  }

  lemma {:induction false} StateFileNameInjective(v: string, i: nat, v': string, i': nat)
    requires StateFileName(v, i) == StateFileName(v', i')
    ensures v == v' && i == i'
  {
    CutSuffixOf(SubtaskName(v, i), STATE_SUFFIX);
    CutSuffixOf(SubtaskName(v', i'), STATE_SUFFIX);
    SubtaskNameInjective(v, i, v', i');
  }

  // ----- Transactions ----------------------------------------------------------------------

  function TransactionName(vertexId: string, index: nat, checkpoint: int64, suffix: string): string {
    SubtaskName(vertexId, index) + "-" + Itoa(checkpoint) + suffix
  }

  /** The checkpoint of a staging file that belongs to this subtask; None for any other name. */
  function CheckpointOf(vertexId: string, index: nat, name: string): Option<int64> {
    var rest := CutSuffix(name, STAGING_SUFFIX);
    if rest.None? then None
    else
      var cut := LastIndex(rest.value, '-');
      if cut.None? || cut.value >= |rest.value| then None
      else
        var id := ParseInt(rest.value[cut.value + 1..]);
        if id.None? || rest.value[..cut.value] != SubtaskName(vertexId, index) then None else id
  }

  /** A staging name is read back exactly when its checkpoint is not negative: the sign of a
      negative one is itself a separator. */
  lemma {:induction false} CheckpointOfStagingIff(v: string, i: nat, k: int64)
    ensures CheckpointOf(v, i, TransactionName(v, i, k, STAGING_SUFFIX)) == (if k >= 0 then Some(k) else None)
  {
    var head := SubtaskName(v, i);
    CutSuffixOf(head + "-" + Itoa(k), STAGING_SUFFIX);
    if k >= 0 {
      var rest := head + ['-'] + Decimal(k);
      LastIndexBefore(head, '-', Decimal(k));
      assert rest[|head| + 1..] == Itoa(k) && rest[..|head|] == head;
      ParseIntRoundTrip(k);
    } else {
      var size: int := k;
      var rest := (head + ['-']) + ['-'] + Decimal(0 - size);
      assert head + "-" + Itoa(k) == rest;
      LastIndexBefore(head + ['-'], '-', Decimal(0 - size));
      assert |rest[..|head| + 1]| != |head|;
    }
  }

  function Size(k: int64): nat {
    var n: int := k;
    if n < 0 then 0 - n else n
  }

  /** What comes before the last separator of a transaction's name: the sign of a negative checkpoint
      stays with it. */
  function Head(v: string, i: nat, k: int64): string {
    if k < 0 then SubtaskName(v, i) + "-" else SubtaskName(v, i)
  }

  lemma {:induction false} NameSplits(v: string, i: nat, k: int64)
    ensures var s, head := SubtaskName(v, i) + "-" + Itoa(k), Head(v, i, k);
            LastIndex(s, '-') == Some(|head|) && s[..|head|] == head && s[|head| + 1..] == Decimal(Size(k))
    ensures |SubtaskName(v, i)| > 0 && IsDigit(SubtaskName(v, i)[|SubtaskName(v, i)| - 1])
  {
    hide LastIndex, Decimal;
    var name, digits := SubtaskName(v, i), Decimal(Size(k));
    LastIndexBefore(Head(v, i, k), '-', digits);
    if k < 0 {
      assert name + "-" + ("-" + digits) == (name + "-") + ['-'] + digits;
    } else {
      assert name + "-" + digits == name + ['-'] + digits;
    }
    AfterTheCut(Head(v, i, k), digits);
  }

  lemma {:induction false} AfterTheCut(head: string, tail: string)
    ensures var s := head + ['-'] + tail; s[..|head|] == head && s[|head| + 1..] == tail
  {}

  lemma {:induction false} SameHead(v: string, i: nat, k: int64, v': string, i': nat, k': int64)
    requires Head(v, i, k) == Head(v', i', k')
    ensures v == v' && i == i' && (k < 0 <==> k' < 0)
  {
    hide SubtaskName, IsDigit;
    NameSplits(v, i, k);
    NameSplits(v', i', k');
    var s, s' := SubtaskName(v, i), SubtaskName(v', i');
    assert !IsDigit('-') by { SignIsNoDigit(); }
    assert (s + "-")[|s|] == '-' && (s' + "-")[|s'|] == '-';
    assert (s + "-")[..|s|] == s && (s' + "-")[..|s'|] == s';
    SubtaskNameInjective(v, i, v', i');
  }

  lemma {:induction false} SignIsNoDigit()
    ensures !IsDigit('-')
  {}

  /** No staging file of another subtask is taken for this one's. */
  lemma {:induction false} OtherSubtaskRejected(v: string, i: nat, v': string, i': nat, k: int64)
    requires v != v' || i != i'
    ensures CheckpointOf(v, i, TransactionName(v', i', k, STAGING_SUFFIX)) == None
  {
    CutSuffixOf(SubtaskName(v', i') + "-" + Itoa(k), STAGING_SUFFIX);
    NameSplits(v', i', k);
    NameSplits(v, i, k);
    if SubtaskName(v, i) == SubtaskName(v', i') {
      SubtaskNameInjective(v, i, v', i');
    }
  }

  /** A transaction has one name: two subtasks, or two checkpoints of one, never share a file. */
  lemma {:induction false} TransactionNameInjective(v: string, i: nat, k: int64, v': string, i': nat, k': int64, suffix: string)
    requires TransactionName(v, i, k, suffix) == TransactionName(v', i', k', suffix)
    ensures v == v' && i == i' && k == k'
  {
    hide SubtaskName, LastIndex, Decimal, ReadDecimal, Itoa, Head;
    CutSuffixOf(SubtaskName(v, i) + "-" + Itoa(k), suffix);
    CutSuffixOf(SubtaskName(v', i') + "-" + Itoa(k'), suffix);
    NameSplits(v, i, k);
    NameSplits(v', i', k');
    SameHead(v, i, k, v', i', k');
    DecimalRoundTrip(Size(k));
    DecimalRoundTrip(Size(k'));
  }
}
