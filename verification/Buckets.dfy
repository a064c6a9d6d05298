/**
  A bucket of the embedded database: byte keys in ascending order, each with a value.  `Put`, `Delete`
  and `Seek` are the library's operations, `Range` and `Kept` what a bounded read and a prune leave of
  a bucket, by comparing keys as bytes.  The lemmas say what that means in time.
 */
module Buckets {
  import opened Common
  import opened Samples
  import Archives
  import Order
  import opened ByteKeys

  datatype Entry = Entry(key: Bytes, value: Bytes) {
    function Number(): nat {
      FromBigEndian(key)
    }

    function Decoded(): Result<Sample> {
      DecodeSample(key, value)
    }

    /** Written by an append, at an instant where key order is time order. */
    predicate Sound() {
      |key| == KEY_LEN && |value| == VALUE_LEN && InEpoch(Number())
    }
  }

  type Entries = seq<Entry>

  /** Keys of sample-key length, in ascending order: what the library guarantees of a bucket. */
  type Bucket = b: Entries | InOrder(b) witness []

  ghost predicate InOrder(b: Entries) {
    if b == [] then true
    else
      var n := |b| - 1;
      |b[n].key| == KEY_LEN && (n > 0 ==> Order.Less(b[n - 1].key, b[n].key, ByteCode)) && InOrder(b[..n])
  }

  /** Every value has the length of an encoded sample. */
  predicate Intact(b: Entries) {
    forall i :: 0 <= i < |b| ==> |b[i].value| == VALUE_LEN
  }

  ghost predicate Chronological(b: Entries) {
    InOrder(b) && forall i :: 0 <= i < |b| ==> b[i].Sound()
  }

  /** The number of keys below k: where a cursor lands that seeks k. */
  function Seek(b: Entries, k: Bytes): (i: nat)
    ensures i <= |b|
  {
    if b == [] then 0
    else if Order.Less(b[|b| - 1].key, k, ByteCode) then |b|
    else Seek(b[..|b| - 1], k)
  }

  /** Inserts the pair at its place in key order, replacing the value of an existing key. */
  function Put(b: Entries, k: Bytes, v: Bytes): Entries {
    if b == [] then [Entry(k, v)]
    else
      var n := |b| - 1;
      if Order.Less(b[n].key, k, ByteCode) then b + [Entry(k, v)]
      else if b[n].key == k then b[..n] + [Entry(k, v)]
      else Put(b[..n], k, v) + [b[n]]
  }

  function Delete(b: Entries, k: Bytes): Entries {
    if b == [] then []
    else
      var e, rest := b[|b| - 1], Delete(b[..|b| - 1], k);
      if e.key == k then rest else rest + [e]
  }

  /** The samples of an intact bucket, in cursor order. */
  function View(b: Entries): (xs: seq<Sample>)
    ensures |xs| == |b|
  {
    if b == [] then []
    else View(b[..|b| - 1]) + [if b[|b| - 1].Decoded().Success? then b[|b| - 1].Decoded().value else NO_SAMPLE]
  }

  const NO_SAMPLE := Sample(0, Float64(0), Float64(0))

  /** The guard of a range read: the entry lies before the end key. */
  predicate BeforeEnd(e: Entry, end: Option<int>) {
    end.None? || Order.Less(e.key, MkKey(end.value), ByteCode)
  }

  predicate InRange(e: Entry, start: int, end: Option<int>) {
    !Order.Less(e.key, MkKey(start), ByteCode) && BeforeEnd(e, end)
  }

  /** The entries from the start key up to, but not including, the end key. */
  function Range(b: Entries, start: int, end: Option<int>): Entries {
    if b == [] then []
    else
      var e, rest := b[|b| - 1], Range(b[..|b| - 1], start, end);
      if InRange(e, start, end) then rest + [e] else rest
  }

  /** The entries from the cut-off key on. */
  function Kept(b: Entries, cutoff: int): Entries {
    if b == [] then []
    else
      var e, rest := b[|b| - 1], Kept(b[..|b| - 1], cutoff);
      if Order.Less(e.key, MkKey(cutoff), ByteCode) then rest else rest + [e]
  }

  // ----- order -----

  /** A key below the last key is below every later one: byte order read as numbers. */
  lemma {:induction false} NumbersAscend(b: Entries, i: nat, j: nat)
    requires InOrder(b) && i < j < |b|
    ensures b[i].Number() < b[j].Number() && |b[i].key| == |b[j].key| == KEY_LEN
    decreases |b|
  {
    var n := |b| - 1;
    if j < n {
      NumbersAscend(b[..n], i, j);
    } else {
      assert b[..n][n - 1] == b[n - 1];
      ByteOrderIsNumeric(b[n - 1].key, b[n].key);
      if i < n - 1 {
        NumbersAscend(b[..n], i, n - 1);
      }
    }
  }

  /** Once an entry is not below a key, no later entry is. */
  lemma NotBelowFromHereOn(b: Entries, k: Bytes, i: nat, j: nat)
    requires InOrder(b) && |k| == KEY_LEN && i <= j < |b|
    requires !Order.Less(b[i].key, k, ByteCode)
    ensures !Order.Less(b[j].key, k, ByteCode)
  {
    if i < j {
      NumbersAscend(b, i, j);
      ByteOrderIsNumeric(b[i].key, k);
      ByteOrderIsNumeric(b[j].key, k);
    }
  }

  /** A cursor that seeks k has only entries below k behind it, and none in front of it. */
  lemma {:induction false} SeekSplits(b: Entries, k: Bytes, j: nat)
    requires InOrder(b) && |k| == KEY_LEN && j < |b|
    ensures Order.Less(b[j].key, k, ByteCode) <==> j < Seek(b, k)
    decreases |b|
  {
    var n := |b| - 1;
    if Order.Less(b[n].key, k, ByteCode) {
      if !Order.Less(b[j].key, k, ByteCode) {
        NotBelowFromHereOn(b, k, j, n);
      }
    } else if j < n {
      SeekSplits(b[..n], k, j);
    }
  }

  /** Entries taken in order from an ordered bucket are in order. */
  lemma {:induction false} RangeInOrder(b: Entries, start: int, end: Option<int>)
    requires InOrder(b)
    ensures InOrder(Range(b, start, end))
    ensures forall e :: e in Range(b, start, end) ==> e in b
  {
    if b != [] {
      var n := |b| - 1;
      RangeInOrder(b[..n], start, end);
      assert b == b[..n] + [b[n]];
      ExtendInOrder(b, Range(b[..n], start, end));
    }
  }

  lemma {:induction false} KeptInOrder(b: Entries, cutoff: int)
    requires InOrder(b)
    ensures InOrder(Kept(b, cutoff))
    ensures forall e :: e in Kept(b, cutoff) ==> e in b
  {
    if b != [] {
      var n := |b| - 1;
      KeptInOrder(b[..n], cutoff);
      assert b == b[..n] + [b[n]];
      ExtendInOrder(b, Kept(b[..n], cutoff));
    }
  }

  lemma {:induction false} ExtendInOrder(b: Entries, c: Entries)
    requires InOrder(b) && b != [] && InOrder(c)
    requires c != [] ==> c[|c| - 1] in b[..|b| - 1]
    ensures InOrder(c + [b[|b| - 1]])
  {
    var d := c + [b[|b| - 1]];
    assert d[..|c|] == c;
    assert |d[|c|].key| == KEY_LEN;
    if c != [] {
      BelowLast(b, c[|c| - 1]);
    }
  }

  lemma {:induction false} BelowLast(b: Entries, e: Entry)
    requires InOrder(b) && b != [] && e in b[..|b| - 1]
    ensures Order.Less(e.key, b[|b| - 1].key, ByteCode)
  {
    var n := |b| - 1;
    var i :| 0 <= i < n && b[..n][i] == e;
    NumbersAscend(b, i, n);
    ByteOrderIsNumeric(e.key, b[n].key);
  }

  lemma {:induction false} PutInOrder(b: Entries, k: Bytes, v: Bytes)
    requires InOrder(b) && |k| == KEY_LEN
    ensures InOrder(Put(b, k, v)) && Put(b, k, v) != []
    ensures forall e :: e in Put(b, k, v) ==> e in b || e == Entry(k, v)
  {
    if b != [] {
      var n := |b| - 1;
      assert b == b[..n] + [b[n]];
      if Order.Less(b[n].key, k, ByteCode) {
        assert (b + [Entry(k, v)])[..|b|] == b;
      } else if b[n].key == k {
        assert (b[..n] + [Entry(k, v)])[..n] == b[..n];
        assert n > 0 ==> b[..n][n - 1] == b[n - 1];
      } else {
        PutInOrder(b[..n], k, v);
        var c := Put(b[..n], k, v);
        var last := c[|c| - 1];
        assert last in c;
        assert (c + [b[n]])[..|c|] == c;
        if last == Entry(k, v) {
          ByteOrderIsNumeric(b[n].key, k);
          ByteOrderIsNumeric(k, b[n].key);
        } else {
          BelowLast(b, last);
        }
      }
    }
  }

  // ----- reading in time order -----

  lemma SoundEntry(e: Entry, t: int)
    requires e.Sound() && InEpoch(t)
    ensures e.Decoded().Success? && e.Decoded().value.at == e.Number()
    ensures Order.Less(e.key, MkKey(t), ByteCode) <==> e.Number() < t
  {
    MkKeyNumber(t);
    ByteOrderIsNumeric(e.key, MkKey(t));
  }

  lemma ChronologicalPrefix(b: Entries)
    requires Chronological(b) && b != []
    ensures Chronological(b[..|b| - 1])
  {
  }

  lemma {:induction false} ViewAt(b: Entries, i: nat)
    requires Chronological(b) && i < |b|
    ensures View(b)[i].at == b[i].Number() && b[i].Decoded() == Success(View(b)[i])
    decreases |b|
  {
    if i == |b| - 1 {
      SoundEntry(b[i], 0);
    } else {
      ChronologicalPrefix(b);
      ViewAt(b[..|b| - 1], i);
    }
  }

  lemma {:induction false} ViewIsChronological(b: Entries)
    requires Chronological(b)
    ensures StrictlyAscending(View(b)) && Ascending(View(b))
    ensures b != [] ==> 0 <= View(b)[0].at
  {
    if b != [] {
      var n := |b| - 1;
      ChronologicalPrefix(b);
      ViewIsChronological(b[..n]);
      ViewAt(b, n);
      assert b[n].Sound() && View(b)[..n] == View(b[..n]);
      if n > 0 {
        NumbersAscend(b, n - 1, n);
        ViewAt(b, n - 1);
      }
      StrictIsAscending(View(b));
    }
  }

  lemma {:induction false} KeptIsChronological(b: Entries, cutoff: int)
    requires Chronological(b)
    ensures Chronological(Kept(b, cutoff))
  {
    KeptInOrder(b, cutoff);
    var c := Kept(b, cutoff);
    forall i | 0 <= i < |c| ensures c[i].Sound() {
      assert c[i] in b;
    }
  }

  /** From the epoch on, pruning by key is trimming by time. */
  lemma {:induction false} KeptIsSince(b: Entries, cutoff: int)
    requires Chronological(b) && InEpoch(cutoff)
    ensures View(Kept(b, cutoff)) == Since(View(b), cutoff)
  {
    if b != [] {
      var n := |b| - 1;
      ChronologicalPrefix(b);
      KeptIsSince(b[..n], cutoff);
      SoundEntry(b[n], cutoff);
      ViewAppend(Kept(b[..n], cutoff), b[n]);
      assert View(b)[..n] == View(b[..n]);
    }
  }

  lemma ViewAppend(b: Entries, e: Entry)
    ensures View(b + [e]) == View(b) + [if e.Decoded().Success? then e.Decoded().value else NO_SAMPLE]
  {
  }

  /** A cut-off before the epoch has a key above every sample: everything goes. */
  lemma {:induction false} KeptBeforeTheEpoch(b: Entries, cutoff: int)
    requires Chronological(b) && FitsInt64(cutoff) && cutoff < 0
    ensures Kept(b, cutoff) == []
  {
    if b != [] {
      var n := |b| - 1;
      ChronologicalPrefix(b);
      KeptBeforeTheEpoch(b[..n], cutoff);
      BelowTheKey(b[n], cutoff);
    }
  }

  /** And yet nothing in the bucket is older than such a cut-off. */
  lemma NoneBeforeTheEpoch(b: Entries, cutoff: int)
    requires Chronological(b) && cutoff < 0
    ensures Since(View(b), cutoff) == View(b)
  {
    ViewIsChronological(b);
    AllSince(View(b), cutoff);
  }

  /**
    Pruning leaves exactly the samples at or after the cut-off, unless the cut-off lies before the
    epoch: then a bucket with samples, all of them newer, is emptied.
   */
  lemma PruneIsExactFromTheEpochOn(b: Entries, cutoff: int)
    requires Chronological(b) && FitsInt64(cutoff)
    ensures View(Kept(b, cutoff)) == Since(View(b), cutoff) <==> 0 <= cutoff || b == []
  {
    if 0 <= cutoff {
      KeptIsSince(b, cutoff);
    } else {
      KeptBeforeTheEpoch(b, cutoff);
      NoneBeforeTheEpoch(b, cutoff);
    }
  }

  lemma InRangeInTime(e: Entry, start: int, end: Option<int>)
    requires e.Sound() && InEpoch(start) && (end.Some? ==> InEpoch(end.value))
    ensures InRange(e, start, end) <==> start <= e.Number() && (end.None? || e.Number() < end.value)
    ensures e.Decoded().Success? && e.Decoded().value.at == e.Number() && |e.value| == VALUE_LEN
  {
    SoundEntry(e, start);
    if end.Some? {
      SoundEntry(e, end.value);
    }
  }

  /** A range read returns exactly the samples in [start, end), oldest first. */
  lemma {:induction false} RangeIsWithin(b: Entries, start: int, end: Option<int>)
    requires Chronological(b) && InEpoch(start) && (end.Some? ==> InEpoch(end.value))
    ensures View(Range(b, start, end)) == Archives.Within(View(b), start, end)
  {
    if b != [] {
      var n := |b| - 1;
      ChronologicalPrefix(b);
      RangeIsWithin(b[..n], start, end);
      InRangeInTime(b[n], start, end);
      var x := b[n].Decoded().value;
      if InRange(b[n], start, end) {
        ViewAppend(Range(b[..n], start, end), b[n]);
      }
      WithinAppend(View(b[..n]), x, start, end);
      assert View(b) == View(b[..n]) + [x];
    }
  }

  /** A start before the epoch has a key above every sample: the read finds nothing. */
  lemma {:induction false} NothingFromBeforeTheEpoch(b: Entries, start: int, end: Option<int>)
    requires Chronological(b) && FitsInt64(start) && start < 0
    ensures Range(b, start, end) == []
  {
    if b != [] {
      var n := |b| - 1;
      ChronologicalPrefix(b);
      NothingFromBeforeTheEpoch(b[..n], start, end);
      BelowTheKey(b[n], start);
    }
  }

  /** An end before the epoch has such a key too: the read does not stop. */
  lemma {:induction false} NoEndBeforeTheEpoch(b: Entries, start: int, end: int)
    requires Chronological(b) && FitsInt64(end) && end < 0
    ensures Range(b, start, Some(end)) == Kept(b, start)
  {
    if b != [] {
      var n := |b| - 1;
      ChronologicalPrefix(b);
      NoEndBeforeTheEpoch(b[..n], start, end);
      BelowTheKey(b[n], end);
    }
  }

  /** The key of an instant before the epoch is above that of every instant from the epoch on. */
  lemma BelowTheKey(e: Entry, t: int)
    requires e.Sound() && FitsInt64(t) && t < 0
    ensures Order.Less(e.key, MkKey(t), ByteCode)
  {
    MkKeyNumber(t);
    ByteOrderIsNumeric(e.key, MkKey(t));
  }

  /**
    A read returns the samples of [start, end) exactly when no bound lies before the epoch, or the bucket
    happens to have no sample that the misplaced bound lets through or keeps out.
   */
  lemma RangeIsExactIff(b: Entries, start: int, end: Option<int>)
    requires Chronological(b) && FitsInt64(start) && (end.Some? ==> FitsInt64(end.value))
    ensures View(Range(b, start, end)) == Archives.Within(View(b), start, end)
       <==> || (0 <= start && (end.Some? ==> 0 <= end.value))
            || b == []
            || (start < 0 && end.Some? && end.value <= View(b)[0].at)
            || (0 <= start && end.Some? && end.value < 0 && View(b)[|b| - 1].at < start)
  {
    ViewIsChronological(b);
    if 0 <= start && (end.Some? ==> 0 <= end.value) {
      RangeIsWithin(b, start, end);
    } else if start < 0 {
      NothingFromBeforeTheEpoch(b, start, end);
      WithinFromTheFirst(View(b), start, end);
    } else {
      NoEndBeforeTheEpoch(b, start, end.value);
      KeptIsSince(b, start);
      NothingWithin(View(b), start, end.value);
      if b != [] && View(b)[|b| - 1].at < start {
        NoneSince(View(b), start);
      }
    }
  }

  /** A range that starts no later than the list is empty exactly when it ends there. */
  lemma WithinFromTheFirst(xs: seq<Sample>, start: int, end: Option<int>)
    requires Ascending(xs) && (xs != [] ==> start <= xs[0].at)
    ensures Archives.Within(xs, start, end) == [] <==> xs == [] || (end.Some? && end.value <= xs[0].at)
  {
    var w := Archives.Within(xs, start, end);
    if xs != [] {
      Archives.WithinMembers(xs, start, end, xs[0]);
    }
    if w != [] {
      Archives.WithinMembers(xs, start, end, w[0]);
      assert w[0] in w;
      var i :| 0 <= i < |xs| && xs[i] == w[0];
      AscendingPair(xs, 0, i);
    }
  }

  lemma NothingWithin(xs: seq<Sample>, start: int, end: int)
    requires end <= start
    ensures Archives.Within(xs, start, Some(end)) == []
  {
    var w := Archives.Within(xs, start, Some(end));
    if w != [] {
      assert w[0] in w;
      Archives.WithinMembers(xs, start, Some(end), w[0]);
    }
  }

  lemma WithinAppend(xs: seq<Sample>, x: Sample, start: int, end: Option<int>)
    ensures Archives.Within(xs + [x], start, end)
         == if start <= x.at && (end.None? || x.at < end.value) then Archives.Within(xs, start, end) + [x]
             else Archives.Within(xs, start, end)
  {
  }

  lemma {:induction false} RangeIsIntact(b: Entries, start: int, end: Option<int>)
    requires Chronological(b)
    ensures Intact(Range(b, start, end))
  {
    RangeInOrder(b, start, end);
    var r := Range(b, start, end);
    forall i | 0 <= i < |r| ensures |r[i].value| == VALUE_LEN {
      assert r[i] in r;
    }
  }

  // ----- writing -----

  function Written(b: Entries, s: Sample): Entries {
    Put(b, MkKey(s.at), EncodeSample(s))
  }

  lemma StoredEntry(s: Sample)
    requires InEpoch(s.at)
    ensures Entry(MkKey(s.at), EncodeSample(s)).Sound()
    ensures Entry(MkKey(s.at), EncodeSample(s)).Number() == s.at
    ensures Entry(MkKey(s.at), EncodeSample(s)).Decoded() == Success(s)
  {
    SampleRoundTrip(s);
    MkKeyNumber(s.at);
  }

  lemma WrittenIsChronological(b: Entries, s: Sample)
    requires Chronological(b) && InEpoch(s.at)
    ensures Chronological(Written(b, s))
  {
    PutInOrder(b, MkKey(s.at), EncodeSample(s));
    StoredEntry(s);
    var c := Written(b, s);
    forall i | 0 <= i < |c| ensures c[i].Sound() {
      assert c[i] in c;
    }
  }

  /** Which way a write goes depends on how the sample compares with the last one. */
  lemma WrittenAtLast(b: Entries, s: Sample)
    requires Chronological(b) && InEpoch(s.at) && b != []
    ensures var e, n := Entry(MkKey(s.at), EncodeSample(s)), |b| - 1;
            Written(b, s) == if b[n].Number() < s.at then b + [e]
                             else if b[n].Number() == s.at then b[..n] + [e]
                             else Written(b[..n], s) + [b[n]]
  {
    var n := |b| - 1;
    assert b[n].Sound();
    MkKeyNumber(s.at);
    ByteOrderIsNumeric(b[n].key, MkKey(s.at));
  }

  /** A write by key is an insertion in time order. */
  lemma {:induction false} WrittenIsFiled(b: Entries, s: Sample)
    requires Chronological(b) && InEpoch(s.at)
    ensures View(Written(b, s)) == Archives.Upsert(View(b), s)
  {
    var e := Entry(MkKey(s.at), EncodeSample(s));
    StoredEntry(s);
    if b == [] {
      ViewAppend([], e);
      assert [] + [e] == [e];
    } else {
      var n := |b| - 1;
      ChronologicalPrefix(b);
      ViewAt(b, n);
      WrittenAtLast(b, s);
      assert View(b)[..n] == View(b[..n]);
      if s.at < b[n].Number() {
        WrittenIsFiled(b[..n], s);
        ViewAppend(Written(b[..n], s), b[n]);
      } else if s.at == b[n].Number() {
        ViewAppend(b[..n], e);
      } else {
        ViewAppend(b, e);
      }
    }
  }
}
