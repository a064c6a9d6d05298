/**
  The store's encodings: timestamps as 8-byte big-endian keys, samples as 16-byte values.

  The cursor walks keys in byte order, so the store is chronological only as far as byte order and
  time order coincide.  They do for instants from 1970 on; `KeyOrderIsTimeOrder` says exactly when.
 */
module ByteKeys {
  import opened Common
  import opened Samples
  import Order

  type byte = n: int | 0 <= n < 256
  type Bytes = seq<byte>

  const KEY_LEN := 8
  const VALUE_LEN := 16

  /** Instants from the epoch to the last one an int64 can hold. */
  predicate InEpoch(t: int) {
    0 <= t < 0x8000_0000_0000_0000
  }

  predicate FitsInt64(t: int) {
    -0x8000_0000_0000_0000 <= t < 0x8000_0000_0000_0000
  }

  function ByteCode(b: byte): int {
    b as int
  }

  function BigEndian(n: nat, width: nat): (bs: Bytes)
    ensures |bs| == width
  {
    if width == 0 then [] else BigEndian(n / 256, width - 1) + [n % 256]
  }

  /** A zeroed buffer, and the library call that fills one with a big-endian number. */
  function Make(n: nat): (b: Bytes)
    ensures |b| == n
  {
    seq(n, _ => 0)
  }

  function PutUint64(buffer: Bytes, n: u64): (bs: Bytes)
    ensures |bs| == |buffer|
  {
    BigEndian(n, |buffer|)
  }

  function FromBigEndian(bs: Bytes): nat {
    if bs == [] then 0 else FromBigEndian(bs[..|bs| - 1]) * 256 + bs[|bs| - 1]
  }

  function Capacity(width: nat): nat {
    if width == 0 then 1 else 256 * Capacity(width - 1)
  }

  /**
    uint64(t) for an int64 t: two's complement.  Instants that an int64 of nanoseconds cannot hold have
    no defined conversion; they all get the key 0.
   */
  function Wrap(t: int): u64 {
    if InEpoch(t) then t
    else if FitsInt64(t) then t + 0x1_0000_0000_0000_0000
    else 0
  }

  function MkKey(t: int): (k: Bytes)
    ensures |k| == KEY_LEN
  {
    PutUint64(Make(KEY_LEN), Wrap(t))
  }

  function DecodeSampleKey(k: Bytes): int {
    var n := FromBigEndian(k);
    if n < 0x8000_0000_0000_0000 then n else n - 0x1_0000_0000_0000_0000
  }

  function EncodeSample(s: Sample): (v: Bytes)
    ensures |v| == VALUE_LEN
  {
    PutUint64(Make(8), s.powerW.bits) + PutUint64(Make(8), s.activeW.bits)
  }

  /** The last n bytes. */
  function Last(bs: Bytes, n: nat): (last: Bytes)
    requires n <= |bs|
    ensures |last| == n
  {
    if n == 0 then [] else Last(bs[..|bs| - 1], n - 1) + [bs[|bs| - 1]]
  }

  lemma {:induction false} LastOfAppend(a: Bytes, b: Bytes)
    ensures Last(a + b, |b|) == b
  {
    if b != [] {
      var n := |b| - 1;
      assert (a + b)[..|a| + n] == a + b[..n];
      LastOfAppend(a, b[..n]);
    }
  }

  function DecodeSample(k: Bytes, v: Bytes): Result<Sample> {
    if |v| != VALUE_LEN then Failure("invalid sample value length")
    else Success(Sample(DecodeSampleKey(k), Float64frombits(v[..8]), Float64frombits(Last(v, 8))))
  }

  function Float64frombits(bs: Bytes): Float64
    requires |bs| == 8
  {
    FromBigEndianBound(bs);
    Float64(FromBigEndian(bs))
  }

  lemma {:induction false} FromBigEndianBound(bs: Bytes)
    ensures FromBigEndian(bs) < Capacity(|bs|)
    ensures |bs| == 8 ==> FromBigEndian(bs) < 0x1_0000_0000_0000_0000
  {
    if bs != [] {
      FromBigEndianBound(bs[..|bs| - 1]);
    }
    EightBytes();
  }

  lemma EightBytes()
    ensures Capacity(8) == 0x1_0000_0000_0000_0000
  {
  }

  /** Decoding inverts encoding. */
  lemma {:induction false} BigEndianRoundTrip(n: nat, width: nat)
    requires n < Capacity(width)
    ensures FromBigEndian(BigEndian(n, width)) == n
  {
    if width > 0 {
      BigEndianRoundTrip(n / 256, width - 1);
      var bs := BigEndian(n, width);
      assert bs[..|bs| - 1] == BigEndian(n / 256, width - 1);
    }
  }

  /** Every 8-byte key and 16-byte value that the store writes decodes to the sample it was made from. */
  lemma SampleRoundTrip(s: Sample)
    requires FitsInt64(s.at)
    ensures DecodeSampleKey(MkKey(s.at)) == s.at
    ensures DecodeSample(MkKey(s.at), EncodeSample(s)) == Success(s)
  {
    EightBytes();
    BigEndianRoundTrip(Wrap(s.at), 8);
    BigEndianRoundTrip(s.powerW.bits, 8);
    BigEndianRoundTrip(s.activeW.bits, 8);
    var v := EncodeSample(s);
    assert v[..8] == PutUint64(Make(8), s.powerW.bits);
    LastOfAppend(v[..8], PutUint64(Make(8), s.activeW.bits));
  }

  // ----- order -----

  lemma {:induction false} LessOnLast(a: Bytes, b: Bytes, x: byte, y: byte)
    requires |a| == |b|
    ensures Order.Less(a + [x], b + [y], ByteCode) <==> Order.Less(a, b, ByteCode) || (a == b && x < y)
  {
    if a == [] {
      assert (a + [x])[1..] == [] && (b + [y])[1..] == [];
    } else {
      LessOnLast(a[1..], b[1..], x, y);
      assert (a + [x])[1..] == a[1..] + [x] && (b + [y])[1..] == b[1..] + [y];
      assert a == [a[0]] + a[1..] && b == [b[0]] + b[1..];
    }
  }

  /** Big-endian byte strings of one length compare as the numbers they write. */
  lemma {:induction false} ByteOrderIsNumeric(a: Bytes, b: Bytes)
    requires |a| == |b|
    ensures Order.Less(a, b, ByteCode) <==> FromBigEndian(a) < FromBigEndian(b)
    ensures FromBigEndian(a) == FromBigEndian(b) ==> a == b
  {
    if a != [] {
      var n := |a| - 1;
      ByteOrderIsNumeric(a[..n], b[..n]);
      LessOnLast(a[..n], b[..n], a[n], b[n]);
      assert a == a[..n] + [a[n]] && b == b[..n] + [b[n]];
    }
  }

  lemma MkKeyNumber(t: int)
    ensures FromBigEndian(MkKey(t)) == Wrap(t)
    ensures InEpoch(t) ==> FromBigEndian(MkKey(t)) == t
  {
    EightBytes();
    BigEndianRoundTrip(Wrap(t), 8);
  }

  /** What is on disk: eight key bytes with the nanoseconds, and the bits of draw and threshold, eight bytes each. */
  lemma DiskFormat(s: Sample)
    requires 0 <= s.at < 0x8000_0000_0000_0000
    ensures |MkKey(s.at)| == 8 && FromBigEndian(MkKey(s.at)) == s.at
    ensures var v := EncodeSample(s);
            |v| == 16 && FromBigEndian(v[..8]) == s.powerW.bits && FromBigEndian(v[8..]) == s.activeW.bits
  {
    MkKeyNumber(s.at);
    BigEndianRoundTrip(s.powerW.bits, 8);
    BigEndianRoundTrip(s.activeW.bits, 8);
    assert EncodeSample(s)[..8] == BigEndian(s.powerW.bits, 8);
    assert EncodeSample(s)[8..] == BigEndian(s.activeW.bits, 8);
  }

  lemma KeyOrderIsWrappedOrder(a: int, b: int)
    ensures Order.Less(MkKey(a), MkKey(b), ByteCode) <==> Wrap(a) < Wrap(b)
  {
    MkKeyNumber(a);
    MkKeyNumber(b);
    ByteOrderIsNumeric(MkKey(a), MkKey(b));
  }

  /** Byte order of two keys is time order exactly when the instants lie on the same side of the epoch. */
  lemma KeyOrderIsTimeOrder(a: int, b: int)
    requires FitsInt64(a) && FitsInt64(b)
    ensures (Order.Less(MkKey(a), MkKey(b), ByteCode) <==> a < b) <==> (a < 0 <==> b < 0)
  {
    KeyOrderIsWrappedOrder(a, b);
  }
}
