/** The byte layout of a windowed operator's one key space: aggregates, then timers, then its
    stored watermark. Each kind of key is taken apart to exactly what it was put together from,
    whatever the length of the record key, and the three kinds never meet. */
module WindowKeys {
  import opened Int64
  import opened Elements
  import opened ByteOrder

  const USER_STATE: Byte := 0
  const TIMER: Byte := 1
  const OPERATOR_STATE: Byte := 2

  /** The name "watermark" under the operator-state prefix. */
  const WATERMARK_KEY: Bytes := [OPERATOR_STATE, 119, 97, 116, 101, 114, 109, 97, 114, 107]

  const STATE_KEY_MIN_BYTES: nat := 9
  const TIMER_KEY_MIN_BYTES: nat := 17

  /** Plain big-endian two's complement. */
  function Int64Bytes(v: int64): (b: Bytes)
    ensures |b| == 8
  {
    Spans();
    BigEndian(ToUint64(v), 8)
  }

  function ReadInt64(b: Bytes): int64
    requires |b| == 8
  {
    Spans();
    Wrap(ReadBigEndian(b))
  }

  lemma {:induction false} Int64RoundTrip(v: int64)
    ensures ReadInt64(Int64Bytes(v)) == v
  {
    Spans();
    ReadBack(ToUint64(v), 8);
  }

  lemma {:induction false} Int64Onto(b: Bytes)
    requires |b| == 8
    ensures Int64Bytes(ReadInt64(b)) == b
  {
    Spans();
    WrapInverse(ReadBigEndian(b));
    WriteBack(b);
  }

  function StateKey(key: Bytes, start: int64): (b: Bytes)
    ensures |b| == STATE_KEY_MIN_BYTES + |key| && b[0] == USER_STATE
  {
    [USER_STATE] + key + Int64Bytes(start)
  }

  function WindowStartOf(stateKey: Bytes): Option<int64> {
    if |stateKey| < STATE_KEY_MIN_BYTES then None
    else Some(ReadInt64(stateKey[|stateKey| - 8..]))
  }

  function TimerKey(fireTime: int64, key: Bytes, start: int64): (b: Bytes)
    ensures |b| == TIMER_KEY_MIN_BYTES + |key| && b[0] == TIMER
  {
    [TIMER] + EncodeOrderedInt64(fireTime) + key + Int64Bytes(start)
  }

  datatype Timer = Timer(fireTime: int64, key: Bytes, start: int64)

  /** The two fixed-width fields are read off the ends, and the record key is what is between. */
  function ParseTimerKey(timerKey: Bytes): (t: Option<Timer>)
    ensures t.None? <==> |timerKey| < TIMER_KEY_MIN_BYTES
  {
    if |timerKey| < TIMER_KEY_MIN_BYTES then None
    else Some(Timer(DecodeOrderedInt64(timerKey[1..]), timerKey[9..|timerKey| - 8], ReadInt64(timerKey[|timerKey| - 8..])))
  }

  lemma {:induction false} TimerKeyRoundTrip(fireTime: int64, key: Bytes, start: int64)
    ensures ParseTimerKey(TimerKey(fireTime, key, start)) == Some(Timer(fireTime, key, start))
  {
    var b := TimerKey(fireTime, key, start);
    assert b[1..] == EncodeOrderedInt64(fireTime) + (key + Int64Bytes(start));
    OrderedInt64RoundTrip(fireTime, key + Int64Bytes(start));
    assert b[9..|b| - 8] == key;
    assert b[|b| - 8..] == Int64Bytes(start);
    Int64RoundTrip(start);
  }

  /** Every long enough key of the timer partition is the timer key of what it parses to. */
  lemma {:induction false} TimerKeyOnto(b: Bytes)
    requires |b| >= TIMER_KEY_MIN_BYTES && b[0] == TIMER
    ensures var t := ParseTimerKey(b).value; TimerKey(t.fireTime, t.key, t.start) == b
  {
    assert b[1..][..8] == b[1..9];
    OrderedInt64Onto(b[1..9]);
    assert DecodeOrderedInt64(b[1..]) == DecodeOrderedInt64(b[1..9]) by {
      assert b[1..9][..8] == b[1..9];
    }
    Int64Onto(b[|b| - 8..]);
    assert b == [b[0]] + b[1..9] + b[9..|b| - 8] + b[|b| - 8..];
  }

  lemma {:induction false} StateKeyRoundTrip(key: Bytes, start: int64)
    ensures var b := StateKey(key, start); b[1..|b| - 8] == key && WindowStartOf(b) == Some(start)
  {
    var b := StateKey(key, start);
    assert b[|b| - 8..] == Int64Bytes(start);
    Int64RoundTrip(start);
  }

  lemma {:induction false} StateKeyOnto(b: Bytes)
    requires |b| >= STATE_KEY_MIN_BYTES && b[0] == USER_STATE
    ensures StateKey(b[1..|b| - 8], WindowStartOf(b).value) == b
  {
    Int64Onto(b[|b| - 8..]);
    assert b == [b[0]] + b[1..|b| - 8] + b[|b| - 8..];
  }

  /** Timer keys sort by fire time, for negative fire times and record keys of any length. */
  lemma {:induction false} TimerKeyOrder(f: int64, k: Bytes, s: int64, f': int64, k': Bytes, s': int64)
    ensures f < f' ==> Before(TimerKey(f, k, s), TimerKey(f', k', s'))
    ensures Before(TimerKey(f, k, s), TimerKey(f', k', s')) ==> f <= f'
  {
    var a, a' := [TIMER] + EncodeOrderedInt64(f), [TIMER] + EncodeOrderedInt64(f');
    assert TimerKey(f, k, s) == a + (k + Int64Bytes(s));
    assert TimerKey(f', k', s') == a' + (k' + Int64Bytes(s'));
    HeadsDecide(a, a', k + Int64Bytes(s), k' + Int64Bytes(s'));
    HeadsDecide([TIMER], [TIMER], EncodeOrderedInt64(f), EncodeOrderedInt64(f'));
    OrderedInt64Order(f, f');
    if a == a' {
      assert a[1..] == EncodeOrderedInt64(f) && a'[1..] == EncodeOrderedInt64(f');
      OrderedInt64RoundTrip(f, []);
      OrderedInt64RoundTrip(f', []);
    }
  }

  // ----- Counts ----------------------------------------------------------------------------

  /** A count as it is stored: an int64 that wraps, eight bytes. */
  function CountBytes(n: nat): (b: Bytes)
    ensures |b| == 8
  {
    Int64Bytes(Wrap(n))
  }

  function DecodeCount(value: Bytes): Option<int64> {
    if |value| < 8 then None else Some(ReadInt64(value[..8]))
  }

  lemma {:induction false} CountRoundTrip(n: nat)
    ensures DecodeCount(CountBytes(n)) == Some(Wrap(n))
  {
    assert CountBytes(n)[..8] == CountBytes(n);
    Int64RoundTrip(Wrap(n));
  }

  /** Adding one to the decoded count and storing it again counts one more, wrapping as int64. */
  lemma {:induction false} CountStep(n: nat)
    ensures Int64Bytes(Wrap(Wrap(n) + 1)) == CountBytes(n + 1)
  {
    WrapPlusOne(n);
  }

  lemma {:induction false} WrapPlusOne(n: nat)
    ensures Wrap(Wrap(n) + 1) == Wrap(n + 1)
  {
    var q := (n + 0x8000_0000_0000_0000) / 0x1_0000_0000_0000_0000;
    assert Wrap(n) == n - q * 0x1_0000_0000_0000_0000;
  }
}
