/**
 Content-stable batching (src/impact/ingest/github_source.py): number buckets, their shard names, and
 what reading an existing shard by name does to a later run.
 */
module Batches {
  import opened Decimal
  import opened Collections
  import opened Ordering

  const PR_CORE_BATCH: nat := 25

  // ----- _number_buckets -----

  /** The numbers that fall in bucket `key`, in the order given. */
  function InBucket(numbers: seq<nat>, size: nat, key: nat): (r: seq<nat>)
    requires size > 0
    ensures forall n :: n in r <==> n in numbers && n / size == key
  {
    if numbers == [] then []
    else
      var last := numbers[|numbers| - 1];
      InBucket(numbers[..|numbers| - 1], size, key) + if last / size == key then [last] else []
  }

  ghost function BucketKeys(numbers: seq<nat>, size: nat): set<nat>
    requires size > 0
  {
    set i | 0 <= i < |numbers| :: numbers[i] / size
  }

  function BatchOf(numbers: seq<nat>, size: nat, key: nat): seq<nat>
    requires size > 0
  {
    Sort(InBucket(numbers, size, key), NatLe)
  }

  ghost function BatchesFor(numbers: seq<nat>, size: nat, keys: seq<nat>): seq<seq<nat>>
    requires size > 0
  {
    seq(|keys|, i requires 0 <= i < |keys| => BatchOf(numbers, size, keys[i]))
  }

  ghost function Buckets(numbers: seq<nat>, size: nat): seq<seq<nat>>
    requires size > 0
  {
    BatchesFor(numbers, size, SortedSet(BucketKeys(numbers, size), NatLe))
  }

  lemma NextKey(numbers: seq<nat>, size: nat, i: nat)
    requires size > 0 && i < |numbers|
    ensures BucketKeys(numbers[..i + 1], size) == BucketKeys(numbers[..i], size) + {numbers[i] / size}
    ensures forall key :: InBucket(numbers[..i + 1], size, key)
              == InBucket(numbers[..i], size, key) + if numbers[i] / size == key then [numbers[i]] else []
  {
    assert numbers[..i + 1][..i] == numbers[..i];
    var before, after := numbers[..i], numbers[..i + 1];
    forall k ensures k in BucketKeys(after, size) <==> k in BucketKeys(before, size) || k == numbers[i] / size {
      if k in BucketKeys(before, size) {
        var j :| 0 <= j < i && before[j] / size == k;
        assert after[j] / size == k;
      }
      if k in BucketKeys(after, size) {
        var j :| 0 <= j < i + 1 && after[j] / size == k;
        if j < i { assert before[j] / size == k; }
      }
      assert after[i] == numbers[i];
    }
  }

  /** `buckets.setdefault(number // size, []).append(number)` */
  method FillBuckets(numbers: seq<nat>, size: nat) returns (buckets: map<nat, seq<nat>>)
    requires size > 0
    ensures buckets.Keys == BucketKeys(numbers, size)
    ensures forall key :: key in buckets ==> buckets[key] == InBucket(numbers, size, key)
  {
    buckets := map[];
    for i := 0 to |numbers|
      invariant buckets.Keys == BucketKeys(numbers[..i], size)
      invariant forall key :: key in buckets ==> buckets[key] == InBucket(numbers[..i], size, key)
    {
      var key := numbers[i] / size;
      NextKey(numbers, size, i);
      EmptyBucket(numbers[..i], size, key);
      buckets := buckets[key := (if key in buckets then buckets[key] else []) + [numbers[i]]];
    }
    assert numbers[..|numbers|] == numbers;
  }

  lemma {:induction false} EmptyBucket(numbers: seq<nat>, size: nat, key: nat)
    requires size > 0
    ensures key in BucketKeys(numbers, size) <==> InBucket(numbers, size, key) != []
  {
    if key in BucketKeys(numbers, size) {
      var i :| 0 <= i < |numbers| && numbers[i] / size == key;
      assert numbers[i] in InBucket(numbers, size, key);
    }
    if InBucket(numbers, size, key) != [] {
      var n := InBucket(numbers, size, key)[0];
      assert n in InBucket(numbers, size, key);
      var i :| 0 <= i < |numbers| && numbers[i] == n;
    }
  }

  lemma BatchesNext(numbers: seq<nat>, size: nat, keys: seq<nat>, i: nat)
    requires size > 0 && i < |keys|
    ensures BatchesFor(numbers, size, keys[..i + 1])
         == BatchesFor(numbers, size, keys[..i]) + [BatchOf(numbers, size, keys[i])]
  {
  }

  /** `[sorted(buckets[key]) for key in sorted(buckets)]` */
  method SortBuckets(ghost numbers: seq<nat>, ghost size: nat, buckets: map<nat, seq<nat>>, keys: seq<nat>)
      returns (out: seq<seq<nat>>)
    requires size > 0 && (forall k :: k in keys ==> k in buckets)
    requires forall key :: key in buckets ==> buckets[key] == InBucket(numbers, size, key)
    ensures out == BatchesFor(numbers, size, keys)
  {
    out := [];
    for i := 0 to |keys|
      invariant out == BatchesFor(numbers, size, keys[..i])
    {
      assert keys[i] in keys;
      BatchesNext(numbers, size, keys, i);
      out := out + [Sort(buckets[keys[i]], NatLe)];
    }
    assert keys[..|keys|] == keys;
  }

  method NumberBuckets(numbers: seq<nat>, size: nat) returns (out: seq<seq<nat>>)
    requires size > 0
    ensures out == Buckets(numbers, size)
  {
    var buckets := FillBuckets(numbers, size);
    assert IsTotalOrder(NatLe);
    var keys := SortSet(buckets.Keys, NatLe);
    SortedSetElements(buckets.Keys, NatLe);
    out := SortBuckets(numbers, size, buckets, keys);
  }

  /** A batch depends only on the numbers in its bucket, in any order. */
  lemma BatchIsContentStable(a: seq<nat>, b: seq<nat>, size: nat, key: nat)
    requires size > 0
    requires multiset(InBucket(a, size, key)) == multiset(InBucket(b, size, key))
    ensures BatchOf(a, size, key) == BatchOf(b, size, key)
  {
    assert IsTotalOrder(NatLe);
    SortOrderFree(InBucket(a, size, key), InBucket(b, size, key), NatLe);
  }

  /** Adding numbers leaves every bucket they do not fall in exactly as it was. */
  lemma {:induction false} AddedNumbersStayInTheirBuckets(numbers: seq<nat>, extra: seq<nat>, size: nat, key: nat)
    requires size > 0 && key !in BucketKeys(extra, size)
    ensures BatchOf(numbers + extra, size, key) == BatchOf(numbers, size, key)
    ensures key in BucketKeys(numbers + extra, size) <==> key in BucketKeys(numbers, size)
  {
    InBucketAppend(numbers, extra, size, key);
    EmptyBucket(extra, size, key);
    assert InBucket(numbers, size, key) + [] == InBucket(numbers, size, key);
    EmptyBucket(numbers, size, key);
    EmptyBucket(numbers + extra, size, key);
  }

  lemma {:induction false} InBucketAppend(a: seq<nat>, b: seq<nat>, size: nat, key: nat)
    requires size > 0
    ensures InBucket(a + b, size, key) == InBucket(a, size, key) + InBucket(b, size, key)
  {
    if b == [] {
      assert a + b == a;
    } else {
      var n := |b| - 1;
      assert (a + b)[..|a + b| - 1] == a + b[..n];
      InBucketAppend(a, b[..n], size, key);
    }
  }

  ghost function KeysInOrder(numbers: seq<nat>, size: nat): seq<nat>
    requires size > 0
  {
    SortedSet(BucketKeys(numbers, size), NatLe)
  }

  lemma KeysAscend(numbers: seq<nat>, size: nat)
    requires size > 0
    ensures forall k :: k in KeysInOrder(numbers, size) <==> k in BucketKeys(numbers, size)
    ensures forall i, j ::
      0 <= i < j < |KeysInOrder(numbers, size)| ==> KeysInOrder(numbers, size)[i] < KeysInOrder(numbers, size)[j]
  {
    assert IsTotalOrder(NatLe);
    SortedSetSorted(BucketKeys(numbers, size), NatLe);
    SortedSetElements(BucketKeys(numbers, size), NatLe);
    SortedSetDistinct(BucketKeys(numbers, size), NatLe);
    var keys := KeysInOrder(numbers, size);
    forall i, j | 0 <= i < j < |keys| ensures keys[i] < keys[j] {
      assert NatLe(keys[i], keys[j]) && keys[i] != keys[j];
    }
  }

  /** The batch at `i` is sorted, not empty, and holds each number of the `i`-th key as often as it occurs. */
  lemma BatchAt(numbers: seq<nat>, size: nat, i: nat)
    requires size > 0 && i < |Buckets(numbers, size)|
    ensures |Buckets(numbers, size)| == |KeysInOrder(numbers, size)|
    ensures Buckets(numbers, size)[i] != [] && SortedBy(Buckets(numbers, size)[i], NatLe)
    ensures forall n: nat :: multiset(Buckets(numbers, size)[i])[n]
              == if n / size == KeysInOrder(numbers, size)[i] then multiset(numbers)[n] else 0
  {
    KeysAscend(numbers, size);
    assert KeysInOrder(numbers, size)[i] in KeysInOrder(numbers, size);
    BatchHolds(numbers, size, KeysInOrder(numbers, size)[i]);
  }

  /** Every number is in a batch; with `BatchAt` and `KeysAscend`, in exactly one. */
  lemma EveryNumberHasABatch(numbers: seq<nat>, size: nat, n: nat)
    requires size > 0 && n in numbers
    ensures exists i :: 0 <= i < |Buckets(numbers, size)| && n in Buckets(numbers, size)[i]
  {
    KeysAscend(numbers, size);
    NumberHasKey(numbers, size, n);
    var i :| 0 <= i < |KeysInOrder(numbers, size)| && KeysInOrder(numbers, size)[i] == n / size;
    BatchHolds(numbers, size, n / size);
    assert Buckets(numbers, size)[i] == BatchOf(numbers, size, n / size);
  }

  lemma BatchHolds(numbers: seq<nat>, size: nat, key: nat)
    requires size > 0 && key in BucketKeys(numbers, size)
    ensures BatchOf(numbers, size, key) != [] && SortedBy(BatchOf(numbers, size, key), NatLe)
    ensures forall n: nat ::
      multiset(BatchOf(numbers, size, key))[n] == if n / size == key then multiset(numbers)[n] else 0
    ensures forall n :: n in BatchOf(numbers, size, key) <==> n in numbers && n / size == key
  {
    EmptyBucket(numbers, size, key);
    assert IsTotalOrder(NatLe);
    var part: seq<nat> := InBucket(numbers, size, key);
    var counts: multiset<nat> := multiset(part);
    SortSorted(part, NatLe);
    SameElements(part, Sort(part, NatLe));
    forall n: nat ensures counts[n] == if n / size == key then multiset(numbers)[n] else 0 {
      InBucketCount(numbers, size, key, n);
    }
  }

  lemma {:induction false} InBucketCount(numbers: seq<nat>, size: nat, key: nat, n: nat)
    requires size > 0
    ensures multiset(InBucket(numbers, size, key))[n] == if n / size == key then multiset(numbers)[n] else 0
  {
    if numbers != [] {
      var m := |numbers| - 1;
      InBucketCount(numbers[..m], size, key, n);
      assert numbers == numbers[..m] + [numbers[m]];
    }
  }

  // ----- _bucket_shard -----

  function Zeros(n: nat): (r: string)
    ensures |r| == n && forall i :: 0 <= i < |r| ==> r[i] == '0'
  {
    seq(n, i => '0')
  }

  /** Zero-padded to eight digits, as the format `:08d` does. */
  function Padded(n: nat): (r: string)
    ensures AllDigits(r)
  {
    if |Show(n)| < 8 then Zeros(8 - |Show(n)|) + Show(n) else Show(n)
  }

  function ShardOf(key: nat, size: nat): string { "b" + Padded(key * size) }

  /** The name is taken from the first number of the batch. */
  function BucketShard(batch: seq<nat>, size: nat): string
    requires size > 0 && batch != []
  {
    ShardOf(batch[0] / size, size)
  }

  lemma {:induction false} ReadZeros(n: nat, s: string)
    requires AllDigits(s)
    ensures AllDigits(Zeros(n) + s) && Read(Zeros(n) + s) == Read(s)
    decreases n + |s|
  {
    var r := Zeros(n) + s;
    if s == [] {
      assert r == Zeros(n);
      if n > 0 {
        assert r[..n - 1] == Zeros(n - 1) + s;
        ReadZeros(n - 1, s);
      }
    } else {
      assert r[..|r| - 1] == Zeros(n) + s[..|s| - 1];
      ReadZeros(n, s[..|s| - 1]);
    }
  }

  lemma ReadPadded(n: nat)
    ensures Read(Padded(n)) == n
  {
    ReadShow(n);
    if |Show(n)| < 8 { ReadZeros(8 - |Show(n)|, Show(n)); }
  }

  /** Different buckets are stored in different shards. */
  lemma ShardsAreDistinct(j: nat, k: nat, size: nat)
    requires size > 0
    ensures ShardOf(j, size) == ShardOf(k, size) <==> j == k
  {
    if ShardOf(j, size) == ShardOf(k, size) {
      assert ShardOf(j, size)[1..] == Padded(j * size) && ShardOf(k, size)[1..] == Padded(k * size);
      ReadPadded(j * size);
      ReadPadded(k * size);
      SameProduct(j, k, size);
    }
  }

  lemma SameProduct(j: nat, k: nat, size: nat)
    requires size > 0 && j * size == k * size
    ensures j == k
  {
    assert (j - k) * size == 0;
  }

  // ----- fetch_pr_core: shards are looked up by name only -----

  /** The numbers stored in each shard file. */
  type Store = map<string, seq<nat>>

  datatype Fetch = Fetch(store: Store, collected: seq<nat>)

  /**
   One run: the numbers asked for, the order in which their batches complete, and the buckets whose request
   fails, if it is made. A run that is cut short leaves what it would leave if the rest had failed.
   */
  datatype Run = Run(numbers: seq<nat>, order: seq<nat>, fails: set<nat>)

  /** Every batch completes once, in any order. */
  ghost predicate IsRun(run: Run, size: nat)
    requires size > 0
  {
    Distinct(run.order) && forall k :: k in run.order <==> k in BucketKeys(run.numbers, size)
  }

  /**
   An existing shard is read whatever it holds. Otherwise one node per number of the batch, resolved or
   marked unresolvable, is stored and returned, unless the request fails.
   */
  function OneBatch(mid: Fetch, shard: string, batch: seq<nat>, fails: bool): Fetch {
    if shard in mid.store then Fetch(mid.store, mid.collected + mid.store[shard])
    else if fails then mid
    else Fetch(mid.store[shard := batch], mid.collected + batch)
  }

  /** The batches as they complete. */
  ghost function FetchAll(store: Store, run: Run, size: nat, keys: seq<nat>): Fetch
    requires size > 0
  {
    if keys == [] then Fetch(store, [])
    else
      var n := |keys| - 1;
      OneBatch(FetchAll(store, run, size, keys[..n]), ShardOf(keys[n], size), BatchOf(run.numbers, size, keys[n]),
        keys[n] in run.fails)
  }

  ghost function After(store: Store, run: Run, size: nat): Fetch
    requires size > 0
  {
    FetchAll(store, run, size, run.order)
  }

  /** `sorted(set(numbers))` */
  ghost function Unique(numbers: seq<nat>): seq<nat> { SortedSet((set n: nat | n in numbers), NatLe) }

  lemma UniqueNumbers(numbers: seq<nat>)
    ensures forall n :: n in Unique(numbers) <==> n in numbers
    ensures Distinct(Unique(numbers))
  {
    SortedSetElements((set n: nat | n in numbers), NatLe);
    SortedSetDistinct((set n: nat | n in numbers), NatLe);
  }

  /** The result of one run over the numbers, in some order of completion. */
  ghost predicate IsFetch(store: Store, numbers: seq<nat>, size: nat, fails: set<nat>, result: Fetch)
    requires size > 0
  {
    exists order ::
      IsRun(Run(Unique(numbers), order, fails), size)
      && result == After(store, Run(Unique(numbers), order, fails), size)
  }

  /** `completes` gives the indexes of the batches in the order of completion. */
  method FetchCore(store: Store, numbers: seq<nat>, size: nat, completes: seq<nat>, fails: set<nat>)
      returns (store': Store, collected: seq<nat>)
    requires size > 0 && Distinct(completes)
      && forall i: nat :: i in completes <==> i < |Buckets(Unique(numbers), size)|
    ensures IsFetch(store, numbers, size, fails, Fetch(store', collected))
  {
    var unique := SortSet((set n: nat | n in numbers), NatLe);
    var batches := NumberBuckets(unique, size);
    ghost var order := CompletedKeys(unique, size, completes, fails);
    store', collected := FetchBatches(store, batches, size, completes, fails, Run(unique, order, fails));
  }

  lemma CompletedKeys(numbers: seq<nat>, size: nat, completes: seq<nat>, fails: set<nat>) returns (order: seq<nat>)
    requires size > 0 && Distinct(completes) && forall i: nat :: i in completes <==> i < |Buckets(numbers, size)|
    ensures |order| == |completes|
    ensures forall j :: 0 <= j < |order| ==>
              completes[j] < |Buckets(numbers, size)| && order[j] == KeysInOrder(numbers, size)[completes[j]]
    ensures IsRun(Run(numbers, order, fails), size)
  {
    var keys := KeysInOrder(numbers, size);
    KeysAscend(numbers, size);
    assert forall j :: 0 <= j < |completes| ==> completes[j] in completes;
    order := Permuted(keys, completes);
    forall k ensures k in order <==> k in keys { PermutedMembers(keys, completes, k); }
  }

  function Permuted(keys: seq<nat>, completes: seq<nat>): seq<nat>
    requires forall j :: 0 <= j < |completes| ==> completes[j] < |keys|
  {
    seq(|completes|, j requires 0 <= j < |completes| => keys[completes[j]])
  }

  lemma PermutedMembers(keys: seq<nat>, completes: seq<nat>, k: nat)
    requires forall j :: 0 <= j < |completes| ==> completes[j] < |keys|
    requires forall i: nat :: i < |keys| ==> i in completes
    ensures k in Permuted(keys, completes) <==> k in keys
  {
    var order := Permuted(keys, completes);
    if k in keys {
      var i :| 0 <= i < |keys| && keys[i] == k;
      assert i in completes;
      var j :| 0 <= j < |completes| && completes[j] == i;
      assert order[j] == k;
    }
  }

  method FetchBatches(store: Store, batches: seq<seq<nat>>, size: nat, completes: seq<nat>, fails: set<nat>,
      ghost run: Run)
      returns (store': Store, collected: seq<nat>)
    requires size > 0 && batches == Buckets(run.numbers, size) && |completes| == |run.order| && fails == run.fails
    requires forall j ::
      0 <= j < |completes| ==> completes[j] < |batches| && run.order[j] == KeysInOrder(run.numbers, size)[completes[j]]
    ensures Fetch(store', collected) == After(store, run, size)
  {
    store', collected := store, [];
    for j := 0 to |completes|
      invariant Fetch(store', collected) == FetchAll(store, run, size, run.order[..j])
    {
      NextBatch(store, run, size, completes[j], j);
      var batch := batches[completes[j]];
      var shard := BucketShard(batch, size);
      if shard in store' {
        collected := collected + store'[shard];
      } else if batch[0] / size !in fails {
        store' := store'[shard := batch];
        collected := collected + batch;
      }
    }
    assert run.order[..|completes|] == run.order;
  }

  lemma BatchAtKey(numbers: seq<nat>, size: nat, i: nat)
    requires size > 0 && i < |Buckets(numbers, size)|
    ensures i < |KeysInOrder(numbers, size)|
    ensures var key := KeysInOrder(numbers, size)[i]; var batch := Buckets(numbers, size)[i];
            batch != [] && batch == BatchOf(numbers, size, key) && BucketShard(batch, size) == ShardOf(key, size)
              && batch[0] / size == key
  {
    var key := KeysInOrder(numbers, size)[i];
    KeysAscend(numbers, size);
    assert key in KeysInOrder(numbers, size);
    BatchHolds(numbers, size, key);
    assert BatchOf(numbers, size, key)[0] in BatchOf(numbers, size, key);
  }

  lemma FetchNext(store: Store, run: Run, size: nat, keys: seq<nat>, j: nat)
    requires size > 0 && j < |keys|
    ensures FetchAll(store, run, size, keys[..j + 1])
         == OneBatch(FetchAll(store, run, size, keys[..j]), ShardOf(keys[j], size),
           BatchOf(run.numbers, size, keys[j]), keys[j] in run.fails)
  {
    assert keys[..j + 1][..j] == keys[..j];
  }

  lemma NextBatch(store: Store, run: Run, size: nat, i: nat, j: nat)
    requires size > 0 && i < |Buckets(run.numbers, size)| && j < |run.order|
      && run.order[j] == KeysInOrder(run.numbers, size)[i]
    ensures var batch := Buckets(run.numbers, size)[i];
            && batch != []
            && FetchAll(store, run, size, run.order[..j + 1])
            == OneBatch(FetchAll(store, run, size, run.order[..j]), BucketShard(batch, size), batch,
              batch[0] / size in run.fails)
  {
    FetchNext(store, run, size, run.order, j);
    BatchAtKey(run.numbers, size, i);
  }

  /** What a run reads for the bucket `key`. */
  ghost function Answer(store: Store, run: Run, size: nat, key: nat): seq<nat>
    requires size > 0
  {
    if ShardOf(key, size) in store then store[ShardOf(key, size)]
    else if key in run.fails then []
    else BatchOf(run.numbers, size, key)
  }

  ghost predicate HasAnswers(before: Store, run: Run, size: nat, keys: seq<nat>, after: Fetch)
    requires size > 0
  {
    && (forall k: nat ::
      ShardOf(k, size) in after.store <==> ShardOf(k, size) in before || (k in keys && k !in run.fails))
    && (forall k: nat ::
      ShardOf(k, size) in after.store ==> after.store[ShardOf(k, size)] == Answer(before, run, size, k))
    && (forall n: nat :: n in after.collected <==> exists k :: k in keys && n in Answer(before, run, size, k))
  }

  lemma AnswerStep(before: Store, run: Run, size: nat, keys: seq<nat>, mid: Fetch, key: nat)
    requires size > 0 && key !in keys && HasAnswers(before, run, size, keys, mid)
    ensures HasAnswers(before, run, size, keys
      + [key], OneBatch(mid, ShardOf(key, size), BatchOf(run.numbers, size, key), key in run.fails))
  {
    var after := OneBatch(mid, ShardOf(key, size), BatchOf(run.numbers, size, key), key in run.fails);
    forall k: nat ensures ShardOf(k, size) == ShardOf(key, size) <==> k == key { ShardsAreDistinct(k, key, size); }
    CollectedStep(before, run, size, keys, mid, key, after);
  }

  lemma CollectedStep(before: Store, run: Run, size: nat, keys: seq<nat>, mid: Fetch, key: nat, after: Fetch)
    requires size > 0
    requires forall n: nat :: n in mid.collected <==> exists k :: k in keys && n in Answer(before, run, size, k)
    requires forall n: nat :: n in after.collected <==> n in mid.collected || n in Answer(before, run, size, key)
    ensures forall n: nat ::
      n in after.collected <==> exists k :: k in keys + [key] && n in Answer(before, run, size, k)
  {
    var more := keys + [key];
    forall n: nat ensures n in after.collected <==> exists k :: k in more && n in Answer(before, run, size, k) {
      assert key in more && forall k :: k in keys ==> k in more;
    }
  }

  lemma {:induction false} FetchAnswers(store: Store, run: Run, size: nat, keys: seq<nat>)
    requires size > 0 && Distinct(keys)
    ensures HasAnswers(store, run, size, keys, FetchAll(store, run, size, keys))
  {
    if keys != [] {
      var n := |keys| - 1;
      FetchAnswers(store, run, size, keys[..n]);
      assert keys[..n] + [keys[n]] == keys;
      AnswerStep(store, run, size, keys[..n], FetchAll(store, run, size, keys[..n]), keys[n]);
    }
  }

  /** What the batches of some buckets return together. */
  ghost function Total(answer: nat -> seq<nat>, keys: set<nat>): multiset<nat> {
    if keys == {} then multiset{}
    else
      var k :| k in keys;
      multiset(answer(k)) + Total(answer, keys - {k})
  }

  lemma {:induction false} TotalSplit(answer: nat -> seq<nat>, keys: set<nat>, key: nat)
    requires key in keys
    ensures Total(answer, keys) == multiset(answer(key)) + Total(answer, keys - {key})
  {
    var k :| k in keys && Total(answer, keys) == multiset(answer(k)) + Total(answer, keys - {k});
    if k != key {
      TotalSplit(answer, keys - {k}, key);
      TotalSplit(answer, keys - {key}, k);
      assert keys - {k} - {key} == keys - {key} - {k};
    }
  }

  ghost function Elements(s: seq<nat>): set<nat> { set x: nat | x in s }

  lemma ElementsNext(s: seq<nat>)
    requires Distinct(s) && s != []
    ensures s[|s| - 1] in Elements(s) && Elements(s) - {s[|s| - 1]} == Elements(s[..|s| - 1])
  {
    var n := |s| - 1;
    assert s == s[..n] + [s[n]];
  }

  lemma BatchAnswer(store: Store, run: Run, size: nat, keys: seq<nat>)
    requires size > 0 && Distinct(keys) && keys != []
    ensures multiset(FetchAll(store, run, size, keys).collected)
         == multiset(Answer(store, run, size, keys[|keys| - 1]))
           + multiset(FetchAll(store, run, size, keys[..|keys| - 1]).collected)
  {
    FetchAnswers(store, run, size, keys[..|keys| - 1]);
  }

  lemma {:induction false} CollectedTotal(store: Store, run: Run, size: nat, answer: nat -> seq<nat>, keys: seq<nat>)
    requires size > 0 && Distinct(keys) && forall k :: answer(k) == Answer(store, run, size, k)
    ensures multiset(FetchAll(store, run, size, keys).collected) == Total(answer, Elements(keys))
  {
    if keys == [] {
      assert Elements(keys) == {};
    } else {
      var n := |keys| - 1;
      CollectedTotal(store, run, size, answer, keys[..n]);
      BatchAnswer(store, run, size, keys);
      ElementsNext(keys);
      TotalSplit(answer, Elements(keys), keys[n]);
    }
  }

  /** Only the shards of the batches are added, and nothing stored is changed. */
  ghost predicate AddsShards(store: Store, after: Store, shard: nat -> string, keys: seq<nat>, name: string) {
    && (name in store ==> name in after && after[name] == store[name])
    && (name in after && name !in store ==> exists k :: k in keys && name == shard(k))
  }

  lemma ShardAdded(store: Store, mid: Fetch, shard: nat -> string, keys: seq<nat>, batch: seq<nat>, fails: bool,
      name: string)
    requires keys != [] && AddsShards(store, mid.store, shard, keys[..|keys| - 1], name)
    ensures AddsShards(store, OneBatch(mid, shard(keys[|keys| - 1]), batch, fails).store, shard, keys, name)
  {
    assert keys[|keys| - 1] in keys && forall k :: k in keys[..|keys| - 1] ==> k in keys;
  }

  lemma {:induction false} StoredNames(store: Store, run: Run, size: nat, shard: nat -> string, keys: seq<nat>,
      name: string)
    requires size > 0 && forall k :: shard(k) == ShardOf(k, size)
    ensures AddsShards(store, FetchAll(store, run, size, keys).store, shard, keys, name)
  {
    if keys != [] {
      var n := |keys| - 1;
      var mid := FetchAll(store, run, size, keys[..n]);
      StoredNames(store, run, size, shard, keys[..n], name);
      ShardAdded(store, mid, shard, keys, BatchOf(run.numbers, size, keys[n]), keys[n] in run.fails, name);
    }
  }

  lemma SameShards(store: Store, run: Run, other: Run, size: nat, name: string)
    requires size > 0 && IsRun(run, size) && IsRun(other, size) && other == run.(order := other.order)
    ensures var a, b := After(store, run, size).store, After(store, other, size).store;
            name in a ==> name in b && a[name] == b[name]
  {
    var shard := (k: nat) => ShardOf(k, size);
    StoredNames(store, run, size, shard, run.order, name);
    StoredNames(store, other, size, shard, other.order, name);
    if name in After(store, run, size).store && name !in store {
      var k :| k in run.order && name == shard(k);
      ShardAfter(store, run, size, k);
      ShardAfter(store, other, size, k);
    }
  }

  lemma SameStore(store: Store, run: Run, other: Run, size: nat)
    requires size > 0 && IsRun(run, size) && IsRun(other, size) && other == run.(order := other.order)
    ensures After(store, run, size).store == After(store, other, size).store
  {
    var a, b := After(store, run, size).store, After(store, other, size).store;
    forall name ensures name in a <==> name in b {
      SameShards(store, run, other, size, name);
      SameShards(store, other, run, size, name);
    }
    forall name | name in a && name in b ensures a[name] == b[name] { SameShards(store, run, other, size, name); }
  }

  lemma SameTotal(store: Store, run: Run, other: Run, size: nat)
    requires size > 0 && IsRun(run, size) && IsRun(other, size) && other == run.(order := other.order)
    ensures multiset(After(store, run, size).collected) == multiset(After(store, other, size).collected)
  {
    var answer := (k: nat) => Answer(store, run, size, k);
    assert forall k :: answer(k) == Answer(store, other, size, k);
    CollectedTotal(store, run, size, answer, run.order);
    CollectedTotal(store, other, size, answer, other.order);
    assert Elements(run.order) == Elements(other.order);
  }

  /** The order of completion matters neither for what is stored nor for what is returned, up to its order. */
  lemma OrderDoesNotMatter(store: Store, run: Run, other: Run, size: nat)
    requires size > 0 && IsRun(run, size) && IsRun(other, size) && other == run.(order := other.order)
    ensures After(store, run, size).store == After(store, other, size).store
    ensures multiset(After(store, run, size).collected) == multiset(After(store, other, size).collected)
  {
    SameStore(store, run, other, size);
    SameTotal(store, run, other, size);
  }

  lemma FirstRunReturns(run: Run, size: nat, n: nat)
    requires size > 0 && IsRun(run, size)
    ensures n in After(map[], run, size).collected <==> n in run.numbers && n / size !in run.fails
  {
    FetchAnswers(map[], run, size, run.order);
    AnswerNumbers(map[], _ => run.numbers, run, size, n);
    if n in run.numbers { NumberHasKey(run.numbers, size, n); }
  }

  /** A first run, with nothing stored, returns the numbers asked for, but those of failed batches. */
  lemma FirstRunIsComplete(numbers: seq<nat>, size: nat, fails: set<nat>, result: Fetch, n: nat)
    requires size > 0 && IsFetch(map[], numbers, size, fails, result)
    ensures n in result.collected <==> n in numbers && n / size !in fails
  {
    var order :| IsRun(Run(Unique(numbers), order, fails), size)
      && result == After(map[], Run(Unique(numbers), order, fails), size);
    FirstRunReturns(Run(Unique(numbers), order, fails), size, n);
    UniqueNumbers(numbers);
  }

  /** Every stored shard holds the batch that the numbers of its own source have in its bucket. */
  ghost predicate StoredBy(store: Store, source: nat -> seq<nat>, size: nat)
    requires size > 0
  {
    forall k: nat :: (ShardOf(k, size) in store ==> store[ShardOf(k, size)] == BatchOf(source(k), size, k))
  }

  ghost predicate Returns(store: Store, source: nat -> seq<nat>, run: Run, size: nat, n: nat)
    requires size > 0
  {
    if ShardOf(n / size, size) in store then n in source(n / size) else n in run.numbers && n / size !in run.fails
  }

  lemma AnswerNumbers(store: Store, source: nat -> seq<nat>, run: Run, size: nat, n: nat)
    requires size > 0 && StoredBy(store, source, size) && IsRun(run, size)
    ensures (exists k :: k in run.order && n in Answer(store, run, size, k)) <==>
              n / size in BucketKeys(run.numbers, size) && Returns(store, source, run, size, n)
  {
    forall k | k in run.order
      ensures n in Answer(store, run, size, k) <==> n / size == k && Returns(store, source, run, size, n)
    {
      AnswerMembers(store, source, run, size, k, n);
    }
  }

  lemma AnswerMembers(store: Store, source: nat -> seq<nat>, run: Run, size: nat, k: nat, n: nat)
    requires size > 0 && StoredBy(store, source, size)
    ensures n in Answer(store, run, size, k) <==> n / size == k && Returns(store, source, run, size, n)
  {
    BatchMembers(source(k), size, k, n);
    BatchMembers(run.numbers, size, k, n);
  }

  lemma BatchMembers(numbers: seq<nat>, size: nat, key: nat, n: nat)
    requires size > 0
    ensures n in BatchOf(numbers, size, key) <==> n in numbers && n / size == key
  {
    SameElements(InBucket(numbers, size, key), BatchOf(numbers, size, key));
  }

  lemma NumberHasKey(numbers: seq<nat>, size: nat, n: nat)
    requires size > 0 && n in numbers
    ensures n / size in BucketKeys(numbers, size)
  {
    var i :| 0 <= i < |numbers| && numbers[i] == n;
  }

  /** What a sequence of runs leaves on disk. */
  ghost function StoreAfter(runs: seq<Run>, size: nat): Store
    requires size > 0
  {
    if runs == [] then map[]
    else
      var n := |runs| - 1;
      After(StoreAfter(runs[..n], size), runs[n], size).store
  }

  /** The run had a number in the bucket and stored or would have stored its batch. */
  ghost predicate Fills(run: Run, size: nat, key: nat)
    requires size > 0
  {
    key in BucketKeys(run.numbers, size) && key !in run.fails
  }

  /** The numbers of the first run that filled the bucket. */
  ghost function FirstWith(runs: seq<Run>, size: nat, key: nat): Option<seq<nat>>
    requires size > 0
  {
    if runs == [] then None
    else
      var n := |runs| - 1;
      var earlier := FirstWith(runs[..n], size, key);
      if earlier.Some? then earlier else if Fills(runs[n], size, key) then Some(runs[n].numbers) else None
  }

  ghost predicate IsFirstWith(runs: seq<Run>, size: nat, key: nat, i: nat)
    requires size > 0
  {
    i < |runs| && Fills(runs[i], size, key) && forall j :: 0 <= j < i ==> !Fills(runs[j], size, key)
  }

  lemma {:induction false} FirstWithIsFirst(runs: seq<Run>, size: nat, key: nat)
    requires size > 0
    ensures match FirstWith(runs, size, key)
            case Some(r) => exists i: nat :: IsFirstWith(runs, size, key, i) && runs[i].numbers == r
            case None => forall i :: 0 <= i < |runs| ==> !Fills(runs[i], size, key)
  {
    if runs != [] {
      var n := |runs| - 1;
      FirstWithIsFirst(runs[..n], size, key);
      assert forall j :: 0 <= j < n ==> runs[..n][j] == runs[j];
      match FirstWith(runs[..n], size, key)
      case Some(r) =>
        var i: nat :| IsFirstWith(runs[..n], size, key, i) && runs[..n][i].numbers == r;
        assert IsFirstWith(runs, size, key, i) && runs[i].numbers == r;
      case None =>
        if Fills(runs[n], size, key) { assert IsFirstWith(runs, size, key, n); }
    }
  }

  ghost predicate AreRuns(runs: seq<Run>, size: nat)
    requires size > 0
  {
    forall i :: 0 <= i < |runs| ==> IsRun(runs[i], size)
  }

  /** The bucket's shard holds the batch of the first run that filled the bucket, or does not exist. */
  ghost predicate HoldsFirst(store: Store, runs: seq<Run>, size: nat, k: nat)
    requires size > 0
  {
    match FirstWith(runs, size, k)
    case Some(r) => ShardOf(k, size) in store && store[ShardOf(k, size)] == BatchOf(r, size, k)
    case None => ShardOf(k, size) !in store
  }

  lemma {:induction false} StoreHoldsFirst(runs: seq<Run>, size: nat, k: nat)
    requires size > 0 && AreRuns(runs, size)
    ensures HoldsFirst(StoreAfter(runs, size), runs, size, k)
  {
    if runs != [] {
      var n := |runs| - 1;
      StoreHoldsFirst(runs[..n], size, k);
      ShardAfter(StoreAfter(runs[..n], size), runs[n], size, k);
    }
  }

  lemma ShardAfter(before: Store, run: Run, size: nat, k: nat)
    requires size > 0 && IsRun(run, size)
    ensures var after := After(before, run, size).store;
            && (ShardOf(k, size) in after <==> ShardOf(k, size) in before || Fills(run, size, k))
            && (ShardOf(k, size) in after ==> after[ShardOf(k, size)] == Answer(before, run, size, k))
  {
    FetchAnswers(before, run, size, run.order);
  }

  /**
   After any earlier runs, a run returns a requested number if and only if the first of them that filled its
   bucket had the number, or none filled it and the request does not fail now. Widening a bucket that is
   already stored loses the new numbers.
   */
  lemma RerunExact(runs: seq<Run>, run: Run, size: nat, n: nat)
    requires size > 0 && AreRuns(runs, size) && IsRun(run, size) && n in run.numbers
    ensures n in After(StoreAfter(runs, size), run, size).collected <==>
              match FirstWith(runs, size, n / size)
              case Some(r) => n in r
              case None => n / size !in run.fails
  {
    StoreHoldsFirst(runs, size, n / size);
    StoredByFirst(runs, size);
    RunReturns(StoreAfter(runs, size), FirstSource(runs, size), run, size, n);
  }

  ghost function FirstSource(runs: seq<Run>, size: nat): nat -> seq<nat>
    requires size > 0
  {
    k => match FirstWith(runs, size, k) case Some(r) => r case None => []
  }

  lemma StoredByFirst(runs: seq<Run>, size: nat)
    requires size > 0 && AreRuns(runs, size)
    ensures StoredBy(StoreAfter(runs, size), FirstSource(runs, size), size)
  {
    var store, source := StoreAfter(runs, size), FirstSource(runs, size);
    forall k: nat ensures ShardOf(k, size) in store ==> store[ShardOf(k, size)] == BatchOf(source(k), size, k) {
      StoreHoldsFirst(runs, size, k);
    }
  }

  lemma RunReturns(store: Store, source: nat -> seq<nat>, run: Run, size: nat, n: nat)
    requires size > 0 && StoredBy(store, source, size) && IsRun(run, size) && n in run.numbers
    ensures n in After(store, run, size).collected <==> Returns(store, source, run, size, n)
  {
    FetchAnswers(store, run, size, run.order);
    AnswerNumbers(store, source, run, size, n);
    NumberHasKey(run.numbers, size, n);
  }

  lemma OneRun(first: Run, size: nat, m: nat)
    requires size > 0 && m in first.numbers && m / size !in first.fails
    ensures FirstWith([first], size, m / size) == Some(first.numbers)
  {
    NumberHasKey(first.numbers, size, m);
    assert [first][..0] == [];
  }

  /** The smallest instance: number 2 joins bucket 0 after number 1 has been stored there. */
  lemma WidenedBucketLosesNumber()
    ensures var first, second := Run([1], [0], {}), Run([1, 2], [0], {});
            && IsRun(first, PR_CORE_BATCH) && IsRun(second, PR_CORE_BATCH)
            && 2 !in After(StoreAfter([first], PR_CORE_BATCH), second, PR_CORE_BATCH).collected
  {
    var first, second := Run([1], [0], {}), Run([1, 2], [0], {});
    NumberHasKey(first.numbers, PR_CORE_BATCH, 1);
    NumberHasKey(second.numbers, PR_CORE_BATCH, 1);
    OneRun(first, PR_CORE_BATCH, 1);
    RerunExact([first], second, PR_CORE_BATCH, 2);
  }
}
