/**
  The durable side of the sampler: one bucket of samples per profile key, in a database file that
  only this process writes.  A write transaction either commits or leaves the file as it was; whether
  it commits is the environment's choice and comes in as a parameter.
 */
module SampleStore {
  import opened Common
  import opened Samples
  import opened Order
  import opened ByteKeys
  import opened Buckets

  type Db = map<string, Bucket>

  function BucketOf(db: Db, key: string): Bucket {
    if key in db then db[key] else []
  }

  function WithSample(b: Bucket, s: Sample): Bucket {
    PutInOrder(b, MkKey(s.at), EncodeSample(s));
    Written(b, s)
  }

  function WithoutStale(b: Bucket, cutoff: int): Bucket {
    KeptInOrder(b, cutoff);
    Kept(b, cutoff)
  }

  function Appended(db: Db, key: string, s: Sample): Db {
    db[key := WithSample(BucketOf(db, key), s)]
  }

  function Pruned(db: Db, cutoff: int): Db {
    map key | key in db :: WithoutStale(db[key], cutoff)
  }

  class Store {
    var db: Db
    var isOpen: bool

    /** Opens the file with whatever it holds. */
    constructor Open(file: Db)
      ensures isOpen && db == file
    {
      db, isOpen := file, true;
    }

    method Close()
      modifies this`isOpen
      ensures !isOpen
    {
      isOpen := false;
    }

    /** Writes one sample; a sample of the same instant is overwritten. */
    method Append(key: string, sample: Sample, commits: bool) returns (ok: bool)
      modifies this`db
      ensures ok <==> isOpen && commits
      ensures db == if ok then Appended(old(db), key, sample) else old(db)
    {
      if !isOpen || !commits {
        return false;
      }
      db := db[key := WithSample(BucketOf(db, key), sample)];
      return true;
    }

    /** The samples of a key in [start, end), oldest first; no end means no upper bound. */
    method LoadRange(key: string, start: int, end: Option<int>) returns (r: Result<seq<Sample>>)
      ensures r.Success? <==> isOpen && Intact(Range(BucketOf(db, key), start, end))
      ensures r.Success? ==> r.value == View(Range(BucketOf(db, key), start, end))
    {
      if !isOpen {
        return Failure("database not open");
      }
      if key !in db {
        return Success([]);
      }
      r := ReadRange(db[key], start, end);
    }

    /** The profile keys that have a bucket, each once, in the order of the file; pruning can leave a bucket empty. */
    method Keys() returns (r: Result<seq<string>>)
      ensures r.Success? <==> isOpen
      ensures r.Success? ==> multiset(r.value) == multiset(db.Keys) && SortedBy(r.value, StringLeq)
      ensures r.Success? ==> forall key :: key in r.value <==> key in db
    {
      if !isOpen {
        return Failure("database not open");
      }
      var rest, keys := db.Keys, [];
      while rest != {}
        invariant rest <= db.Keys && multiset(keys) == multiset(db.Keys - rest)
      {
        var key :| key in rest;
        assert db.Keys - (rest - {key}) == db.Keys - rest + {key};
        rest, keys := rest - {key}, keys + [key];
      }
      assert db.Keys - rest == db.Keys;
      StringLeqIsAnOrder();
      var sorted := Sort(keys, StringLeq);
      forall key ensures key in sorted <==> key in db {
        assert key in sorted <==> key in multiset(sorted);
        assert key in db.Keys <==> key in multiset(db.Keys);
      }
      return Success(sorted);
    }

    /** Removes every sample whose key is below the cut-off key, in all buckets or in none. */
    method Prune(cutoff: int, commits: bool) returns (ok: bool)
      modifies this`db
      ensures ok <==> isOpen && commits
      ensures db == if ok then Pruned(old(db), cutoff) else old(db)
    {
      if !isOpen || !commits {
        return false;
      }
      var buckets := db;
      var rest, tx := buckets.Keys, map[];
      while rest != {}
        invariant rest <= buckets.Keys && tx.Keys == buckets.Keys - rest
        invariant forall key :: key in tx ==> tx[key] == WithoutStale(buckets[key], cutoff)
      {
        var key :| key in rest;
        var kept := PruneBucket(buckets[key], cutoff);
        rest, tx := rest - {key}, tx[key := kept];
      }
      assert tx == Pruned(buckets, cutoff);
      db := tx;
      return true;
    }
  }

  /** One cursor pass from the start key; a value of the wrong length fails the whole read. */
  method ReadRange(b: Bucket, start: int, end: Option<int>) returns (r: Result<seq<Sample>>)
    ensures r.Success? <==> Intact(Range(b, start, end))
    ensures r.Success? ==> r.value == View(Range(b, start, end))
  {
    var i, out := Seek(b, MkKey(start)), [];
    RangeBeforeSeek(b, start, end, i);
    while i < |b| && BeforeEnd(b[i], end)
      invariant Seek(b, MkKey(start)) <= i <= |b|
      invariant Intact(Range(b[..i], start, end)) && out == View(Range(b[..i], start, end))
    {
      ReadStep(b, start, end, i);
      var sample := DecodeSample(b[i].key, b[i].value);
      if sample.Failure? {
        return Failure(sample.error);
      }
      out := out + [sample.value];
      i := i + 1;
    }
    RangeAfterEnd(b, start, end, i);
    return Success(out);
  }

  lemma {:induction false} RangeBeforeSeek(b: Bucket, start: int, end: Option<int>, i: nat)
    requires i <= Seek(b, MkKey(start))
    ensures Range(b[..i], start, end) == []
  {
    if i > 0 {
      RangeBeforeSeek(b, start, end, i - 1);
      SeekSplits(b, MkKey(start), i - 1);
      assert b[..i][..i - 1] == b[..i - 1];
    }
  }

  lemma RangeStep(b: Bucket, start: int, end: Option<int>, i: nat)
    requires Seek(b, MkKey(start)) <= i < |b|
    ensures Range(b[..i + 1], start, end)
         == if BeforeEnd(b[i], end) then Range(b[..i], start, end) + [b[i]] else Range(b[..i], start, end)
  {
    SeekSplits(b, MkKey(start), i);
    assert b[..i + 1][..i] == b[..i];
  }

  /** What a prefix of the pass has found stays part of the answer. */
  lemma {:induction false} RangeGrows(b: Bucket, start: int, end: Option<int>, i: nat)
    requires Seek(b, MkKey(start)) <= i <= |b|
    ensures |Range(b[..i], start, end)| <= |Range(b, start, end)|
    ensures Range(b, start, end)[..|Range(b[..i], start, end)|] == Range(b[..i], start, end)
    decreases |b| - i
  {
    if i < |b| {
      RangeGrows(b, start, end, i + 1);
      RangeStep(b, start, end, i);
    } else {
      assert b[..i] == b;
    }
  }

  lemma ReadStep(b: Bucket, start: int, end: Option<int>, i: nat)
    requires Seek(b, MkKey(start)) <= i < |b| && BeforeEnd(b[i], end) && Intact(Range(b[..i], start, end))
    ensures b[i].Decoded().Failure? ==> !Intact(Range(b, start, end))
    ensures b[i].Decoded().Success? ==>
              && Intact(Range(b[..i + 1], start, end))
              && View(Range(b[..i + 1], start, end)) == View(Range(b[..i], start, end)) + [b[i].Decoded().value]
  {
    var r := Range(b[..i], start, end);
    RangeStep(b, start, end, i);
    ViewAppend(r, b[i]);
    if b[i].Decoded().Failure? {
      RangeGrows(b, start, end, i + 1);
      assert Range(b, start, end)[..|r| + 1][|r|] == b[i];
    }
  }

  /** Past the end key the pass has found everything. */
  lemma {:induction false} RangeAfterEnd(b: Bucket, start: int, end: Option<int>, i: nat)
    requires Seek(b, MkKey(start)) <= i <= |b|
    requires i < |b| ==> !BeforeEnd(b[i], end)
    ensures Range(b[..i], start, end) == Range(b, start, end)
    decreases |b| - i
  {
    if i < |b| {
      if i + 1 < |b| {
        NotBelowFromHereOn(b, MkKey(end.value), i, i + 1);
      }
      RangeAfterEnd(b, start, end, i + 1);
      RangeStep(b, start, end, i);
    } else {
      assert b[..i] == b;
    }
  }

  /** Collects the stale keys first and deletes them afterwards, as the cursor demands. */
  method PruneBucket(b: Bucket, cutoff: int) returns (kept: Entries)
    ensures kept == WithoutStale(b, cutoff)
  {
    var stale := CollectStale(b, MkKey(cutoff));
    kept := b;
    WithoutNone(b);
    for n := 0 to |stale|
      invariant kept == Without(b, stale[..n])
    {
      WithoutOneMore(b, stale[..n], stale[n]);
      assert stale[..n + 1] == stale[..n] + [stale[n]];
      kept := Delete(kept, stale[n]);
    }
    assert stale[..|stale|] == stale;
    WithoutStaleIsKept(b, cutoff, stale);
  }

  method CollectStale(b: Bucket, cutoffKey: Bytes) returns (stale: seq<Bytes>)
    requires |cutoffKey| == KEY_LEN
    ensures forall j :: 0 <= j < |b| ==> (b[j].key in stale <==> Less(b[j].key, cutoffKey, ByteCode))
  {
    var i := 0;
    stale := [];
    while i < |b| && Less(b[i].key, cutoffKey, ByteCode)
      invariant i <= |b|
      invariant forall k :: k in stale ==> Less(k, cutoffKey, ByteCode)
      invariant forall j :: 0 <= j < i ==> b[j].key in stale
    {
      stale := stale + [b[i].key];
      i := i + 1;
    }
    forall j | i <= j < |b| ensures !Less(b[j].key, cutoffKey, ByteCode) {
      NotBelowFromHereOn(b, cutoffKey, i, j);
    }
  }

  /** The entries whose keys are not listed. */
  function Without(b: Entries, keys: seq<Bytes>): Entries {
    if b == [] then []
    else
      var e, rest := b[|b| - 1], Without(b[..|b| - 1], keys);
      if e.key in keys then rest else rest + [e]
  }

  lemma {:induction false} WithoutNone(b: Entries)
    ensures Without(b, []) == b
  {
    if b != [] {
      WithoutNone(b[..|b| - 1]);
    }
  }

  lemma {:induction false} WithoutOneMore(b: Entries, keys: seq<Bytes>, k: Bytes)
    ensures Delete(Without(b, keys), k) == Without(b, keys + [k])
  {
    if b != [] {
      var n := |b| - 1;
      WithoutOneMore(b[..n], keys, k);
      var c := Without(b[..n], keys);
      assert (c + [b[n]])[..|c|] == c;
    }
  }

  lemma {:induction false} WithoutStaleIsKept(b: Entries, cutoff: int, stale: seq<Bytes>)
    requires forall j :: 0 <= j < |b| ==> (b[j].key in stale <==> Less(b[j].key, MkKey(cutoff), ByteCode))
    ensures Without(b, stale) == Kept(b, cutoff)
  {
    if b != [] {
      var n := |b| - 1;
      assert forall j :: 0 <= j < n ==> b[..n][j] == b[j];
      WithoutStaleIsKept(b[..n], cutoff, stale);
    }
  }
}
