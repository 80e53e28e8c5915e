/** Big-endian integers and the byte order of the keys built from them. Signed integers are written
    with the sign bit flipped, so that byte order is numeric order for negative ones too. */
module ByteOrder {
  import opened Int64
  import opened Elements

  /** The number of values `width` bytes can hold. */
  function Span(width: nat): (s: nat)
    ensures s > 0
  {
    if width == 0 then 1 else 256 * Span(width - 1)
  }

  function BigEndian(n: nat, width: nat): (b: Bytes)
    requires n < Span(width)
    ensures |b| == width
  {
    if width == 0 then [] else BigEndian(n / 256, width - 1) + [n % 256]
  }

  function ReadBigEndian(b: Bytes): (n: nat)
    ensures n < Span(|b|)
  {
    if b == [] then 0 else ReadBigEndian(b[..|b| - 1]) * 256 + b[|b| - 1]
  }

  lemma {:induction false} Spans()
    ensures Span(2) == 0x1_0000 && Span(4) == 0x1_0000_0000 && Span(8) == TWO_64
  {
    assert Span(1) == 256;
    assert Span(3) == 0x100_0000;
    assert Span(5) == 0x100_0000_0000;
    assert Span(6) == 0x1_0000_0000_0000;
    assert Span(7) == 0x100_0000_0000_0000;
  }

  lemma {:induction false} ReadBack(n: nat, width: nat)
    requires n < Span(width)
    ensures ReadBigEndian(BigEndian(n, width)) == n
  {
    if width > 0 {
      ReadBack(n / 256, width - 1);
      assert BigEndian(n, width)[..width - 1] == BigEndian(n / 256, width - 1);
    }
  }

  lemma {:induction false} WriteBack(b: Bytes)
    ensures BigEndian(ReadBigEndian(b), |b|) == b
  {
    if b != [] {
      WriteBack(b[..|b| - 1]);
      assert b == b[..|b| - 1] + [b[|b| - 1]];
    }
  }

  // ----- Byte order ------------------------------------------------------------------------

  /** Ascending byte order, a proper prefix coming first. */
  predicate Before(a: Bytes, b: Bytes) {
    if b == [] then false
    else if a == [] then true
    else a[0] < b[0] || (a[0] == b[0] && Before(a[1..], b[1..]))
  }

  lemma {:induction false} BeforeIrreflexive(a: Bytes)
    ensures !Before(a, a)
  {
    if a != [] {
      BeforeIrreflexive(a[1..]);
    }
  }

  lemma {:induction false} BeforeTransitive(a: Bytes, b: Bytes, c: Bytes)
    requires Before(a, b) && Before(b, c)
    ensures Before(a, c)
  {
    if a != [] && a[0] == b[0] == c[0] {
      BeforeTransitive(a[1..], b[1..], c[1..]);
    }
  }

  lemma {:induction false} BeforeTotal(a: Bytes, b: Bytes)
    ensures a == b || Before(a, b) || Before(b, a)
  {
    if a != [] && b != [] && a[0] == b[0] {
      BeforeTotal(a[1..], b[1..]);
      assert a == [a[0]] + a[1..] && b == [b[0]] + b[1..];
    }
  }

  lemma {:induction false} BeforeAsymmetric(a: Bytes, b: Bytes)
    requires Before(a, b)
    ensures !Before(b, a) && a != b
  {
    BeforeIrreflexive(a);
    if Before(b, a) {
      BeforeTransitive(a, b, a);
    }
  }

  /** Heads of one length decide the order whenever they differ, whatever follows them. */
  lemma {:induction false} HeadsDecide(a: Bytes, b: Bytes, x: Bytes, y: Bytes)
    requires |a| == |b|
    ensures Before(a + x, b + y) == if a == b then Before(x, y) else Before(a, b)
  {
    if a == [] {
      assert a + x == x && b + y == y;
    } else {
      assert (a + x)[1..] == a[1..] + x && (b + y)[1..] == b[1..] + y;
      HeadsDecide(a[1..], b[1..], x, y);
      assert a == [a[0]] + a[1..] && b == [b[0]] + b[1..];
    }
  }

  lemma {:induction false} LastByte(n: nat, width: nat)
    requires width > 0 && n < Span(width)
    ensures n / 256 < Span(width - 1) && BigEndian(n, width) == BigEndian(n / 256, width - 1) + [n % 256]
  {}

  lemma {:induction false} NoBytes(m: nat, n: nat)
    requires m < Span(0) && n < Span(0)
    ensures m == n == 0 && !Before(BigEndian(m, 0), BigEndian(n, 0))
  {}

  lemma {:induction false} SingleBytes(x: Byte, y: Byte)
    ensures Before([x], [y]) <==> x < y
  {}

  /** Big-endian bytes of one width sort as the numbers they stand for. */
  lemma {:induction false} BigEndianOrder(m: nat, n: nat, width: nat)
    requires m < Span(width) && n < Span(width)
    ensures Before(BigEndian(m, width), BigEndian(n, width)) <==> m < n
  {
    hide Before, BigEndian, ReadBigEndian;
    if width == 0 {
      NoBytes(m, n);
    } else {
      LastByte(m, width);
      LastByte(n, width);
      SingleBytes(m % 256, n % 256);
      BigEndianOrder(m / 256, n / 256, width - 1);
      ReadBack(m / 256, width - 1);
      ReadBack(n / 256, width - 1);
      HeadsDecide(BigEndian(m / 256, width - 1), BigEndian(n / 256, width - 1), [m % 256], [n % 256]);
    }
  }

  // ----- Sorted lists -----------------------------------------------------------------------

  /** Strictly ascending. */
  predicate Ascending(keys: seq<Bytes>) {
    forall i, j :: 0 <= i < j < |keys| ==> Before(keys[i], keys[j])
  }

  function Insert(keys: seq<Bytes>, k: Bytes): seq<Bytes> {
    if keys == [] || Before(k, keys[0]) then [k] + keys else [keys[0]] + Insert(keys[1..], k)
  }

  lemma {:induction false} InsertSorted(keys: seq<Bytes>, k: Bytes)
    requires Ascending(keys) && k !in keys
    ensures Ascending(Insert(keys, k))
    ensures forall x :: x in Insert(keys, k) <==> x == k || x in keys
  {
    if keys == [] {
    } else if Before(k, keys[0]) {
      forall j | 0 < j < |keys| ensures Before(k, keys[j]) {
        BeforeTransitive(k, keys[0], keys[j]);
      }
    } else {
      BeforeTotal(k, keys[0]);
      InsertSorted(keys[1..], k);
      assert forall x :: x in keys[1..] ==> Before(keys[0], x);
    }
  }

  lemma {:induction false} SmallestFirst(a: seq<Bytes>, b: seq<Bytes>)
    requires Ascending(a) && Ascending(b) && a != [] && b != [] && forall k :: k in a <==> k in b
    ensures a[0] == b[0]
  {
    assert a[0] in b && b[0] in a;
    var i :| 0 <= i < |b| && b[i] == a[0];
    var j :| 0 <= j < |a| && a[j] == b[0];
    if i > 0 && j > 0 {
      BeforeAsymmetric(a[0], b[0]);
    }
  }

  /** There is one ascending list of given members. */
  lemma {:induction false} AscendingUnique(a: seq<Bytes>, b: seq<Bytes>)
    requires Ascending(a) && Ascending(b) && forall k :: k in a <==> k in b
    ensures a == b
  {
    if a == [] {
      assert forall i :: 0 <= i < |b| ==> b[i] in b;
    } else {
      assert a[0] in b && b != [];
      SmallestFirst(a, b);
      assert a == [a[0]] + a[1..] && b == [b[0]] + b[1..];
      TailMembers(a);
      TailMembers(b);
      AscendingUnique(a[1..], b[1..]);
    }
  }

  lemma {:induction false} TailMembers(a: seq<Bytes>)
    requires Ascending(a) && a != []
    ensures Ascending(a[1..]) && forall k :: k in a[1..] <==> k in a && k != a[0]
  {
    BeforeIrreflexive(a[0]);
    assert a[0] !in a[1..];
    assert forall k :: k in a <==> k == a[0] || k in a[1..];
  }

  // ----- Ordered int64 ---------------------------------------------------------------------

  const ORDERED_INT64_BYTES: nat := 8

  /** Exclusive or with the top bit of a 64-bit word. */
  function FlipSignBit(u: nat): (f: nat)
    requires u < TWO_64
    ensures f < TWO_64
  {
    if u >= TWO_63 then u - TWO_63 else u + TWO_63
  }

  function EncodeOrderedInt64(v: int64): (b: Bytes)
    ensures |b| == ORDERED_INT64_BYTES
  {
    Spans();
    BigEndian(FlipSignBit(ToUint64(v)), 8)
  }

  /** Reads the first eight bytes; what follows them is the rest of a composite key. */
  function DecodeOrderedInt64(b: Bytes): int64
    requires |b| >= ORDERED_INT64_BYTES
  {
    Spans();
    Wrap(FlipSignBit(ReadBigEndian(b[..8])))
  }

  lemma {:induction false} FlipShifts(v: int64)
    ensures FlipSignBit(ToUint64(v)) == v + TWO_63
    ensures Wrap(FlipSignBit(v + TWO_63)) == v
  {}

  /** Byte order of the encodings is numeric order of the values, negative ones included. */
  lemma {:induction false} OrderedInt64Order(a: int64, b: int64)
    ensures Before(EncodeOrderedInt64(a), EncodeOrderedInt64(b)) <==> a < b
  {
    Spans();
    FlipShifts(a);
    FlipShifts(b);
    BigEndianOrder(a + TWO_63, b + TWO_63, 8);
  }

  lemma {:induction false} OrderedInt64RoundTrip(v: int64, rest: Bytes)
    ensures DecodeOrderedInt64(EncodeOrderedInt64(v) + rest) == v
  {
    Spans();
    FlipShifts(v);
    ReadBack(v + TWO_63, 8);
    assert (EncodeOrderedInt64(v) + rest)[..8] == EncodeOrderedInt64(v);
  }

  /** No eight bytes are left over: each is the encoding of the value it decodes to. */
  lemma {:induction false} OrderedInt64Onto(b: Bytes)
    requires |b| == ORDERED_INT64_BYTES
    ensures EncodeOrderedInt64(DecodeOrderedInt64(b)) == b
  {
    Spans();
    assert b[..8] == b;
    var n := ReadBigEndian(b);
    FlipShifts(n - TWO_63);
    WriteBack(b);
  }
}
