/**
 * `cmd_prepare` (scripts/generate-descriptions.py:167-229): the existing-state
 * guard, the split of the scanned brands into chunks of at most BATCH_SIZE,
 * one request per brand, and the initial batch records.
 */
module Prepare {
  import opened Wrappers
  import opened Brands
  import opened Batches

  const BATCH_SIZE: nat := 10000
  const MODEL: string := "claude-haiku-4-5-20251001"
  const MAX_TOKENS: nat := 120

  /** One line of a batch request file: the slug as `custom_id`, and the message parameters. */
  datatype Request = Request(customId: string, model: string, maxTokens: nat, prompt: string)

  datatype PrepareOutcome =
    | KeptExisting(existing: StateDoc)
    | NothingToScan
    | Prepared(doc: StateDoc, requests: seq<seq<Request>>)

  /** The concatenation of the chunks, in order. */
  function Concat<T>(cs: seq<seq<T>>): seq<T> {
    if cs == [] then [] else cs[0] + Concat(cs[1..])
  }

  function TotalLength<T>(cs: seq<seq<T>>): nat {
    if cs == [] then 0 else TotalLength(cs[..|cs| - 1]) + |cs[|cs| - 1]|
  }

  function Min(a: int, b: int): int {
    if a <= b then a else b
  }

  /** `[brands[i : i + BATCH_SIZE] for i in range(0, n, BATCH_SIZE)]`. */
  function Chunks<T>(xs: seq<T>): seq<seq<T>>
    decreases |xs|
  {
    if |xs| == 0 then []
    else if |xs| <= BATCH_SIZE then [xs]
    else [xs[..BATCH_SIZE]] + Chunks(xs[BATCH_SIZE..])
  }

  /**
   * The chunks concatenate back to `xs`, there are ceil(n / BATCH_SIZE) of
   * them, each holds 1 to BATCH_SIZE elements and all but the last hold
   * exactly BATCH_SIZE.
   */
  lemma {:induction false} ChunksShape<T>(xs: seq<T>)
    ensures Concat(Chunks(xs)) == xs
    ensures |Chunks(xs)| == (|xs| + BATCH_SIZE - 1) / BATCH_SIZE
    ensures forall j | 0 <= j < |Chunks(xs)| :: 0 < |Chunks(xs)[j]| <= BATCH_SIZE
    ensures forall j | 0 <= j < |Chunks(xs)| - 1 :: |Chunks(xs)[j]| == BATCH_SIZE
    decreases |xs|
  {
    if |xs| == 0 {
    } else if |xs| <= BATCH_SIZE {
      assert Concat([xs]) == xs + Concat([xs][1..]);
    } else {
      var rest := xs[BATCH_SIZE..];
      ChunksShape(rest);
      var r := Chunks(xs);
      assert r == [xs[..BATCH_SIZE]] + Chunks(rest);
      assert r[1..] == Chunks(rest);
      assert xs[..BATCH_SIZE] + rest == xs;
      forall j | 0 <= j < |r| ensures 0 < |r[j]| <= BATCH_SIZE && (j < |r| - 1 ==> |r[j]| == BATCH_SIZE) {
        if j > 0 { assert r[j] == Chunks(rest)[j - 1]; }
      }
    }
  }

  /** Chunk j is exactly the slice starting at j * BATCH_SIZE, as the comprehension takes it. */
  lemma {:induction false} ChunkAt<T>(xs: seq<T>, j: nat)
    requires j < |Chunks(xs)|
    ensures j * BATCH_SIZE < |xs|
    ensures Chunks(xs)[j] == xs[j * BATCH_SIZE .. Min(j * BATCH_SIZE + BATCH_SIZE, |xs|)]
    decreases j
  {
    if j == 0 {
      ChunkFirst(xs);
    } else {
      var rest := xs[BATCH_SIZE..];
      ChunkShift(xs, j);
      ChunkAt(rest, j - 1);
      var lo := (j - 1) * BATCH_SIZE;
      var hi := Min(lo + BATCH_SIZE, |rest|);
      MulStep(j);
      SliceOfSuffix(xs, BATCH_SIZE, lo, hi);
    }
  }

  lemma ChunkFirst<T>(xs: seq<T>)
    requires 0 < |Chunks(xs)|
    ensures 0 < |xs| && Chunks(xs)[0] == xs[..Min(BATCH_SIZE, |xs|)]
  {
    if |xs| <= BATCH_SIZE {
      assert Chunks(xs) == [xs];
    }
  }

  /** Past the first chunk, the chunks are those of the rest of the input. */
  lemma ChunkShift<T>(xs: seq<T>, j: nat)
    requires 0 < j < |Chunks(xs)|
    ensures |xs| > BATCH_SIZE && j - 1 < |Chunks(xs[BATCH_SIZE..])|
    ensures Chunks(xs)[j] == Chunks(xs[BATCH_SIZE..])[j - 1]
  {
  }

  lemma MulStep(j: nat)
    requires j > 0
    ensures (j - 1) * BATCH_SIZE + BATCH_SIZE == j * BATCH_SIZE
  {
  }

  lemma SliceOfSuffix<T>(xs: seq<T>, d: nat, lo: nat, hi: nat)
    requires d <= |xs| && lo <= hi <= |xs| - d
    ensures xs[d..][lo..hi] == xs[d + lo .. d + hi]
  {
  }

  /** 25,000 brands make three batches: 10,000, 10,000 and 5,000. */
  lemma ChunksExample<T>(xs: seq<T>)
    requires |xs| == 25000
    ensures |Chunks(xs)| == 3
    ensures |Chunks(xs)[0]| == 10000 && |Chunks(xs)[1]| == 10000
    ensures |Chunks(xs)[2]| == 5000
  {
    ChunksShape(xs);
    ChunkAt(xs, 2);
  }

  lemma {:induction false} ConcatSnoc<T>(cs: seq<seq<T>>, c: seq<T>)
    ensures Concat(cs + [c]) == Concat(cs) + c
  {
    if cs == [] {
      assert Concat([c]) == c + Concat([c][1..]);
    } else {
      assert (cs + [c])[1..] == cs[1..] + [c];
      ConcatSnoc(cs[1..], c);
    }
  }

  lemma {:induction false} ConcatLength<T>(cs: seq<seq<T>>)
    ensures |Concat(cs)| == TotalLength(cs)
  {
    if cs != [] {
      var n := |cs| - 1;
      assert cs == cs[..n] + [cs[n]];
      ConcatLength(cs[..n]);
      ConcatSnoc(cs[..n], cs[n]);
    }
  }

  /** The request for one brand: its slug as correlation id and the built prompt. */
  function RequestFor(b: Brand): (q: Request)
    ensures q.customId == b.slug && q.model == MODEL && q.maxTokens == MAX_TOKENS
  {
    Request(b.slug, MODEL, MAX_TOKENS, BuildPrompt(b))
  }

  /** The lines of one batch request file, in brand order. */
  function RequestsFor(chunk: seq<Brand>): (rs: seq<Request>)
    ensures |rs| == |chunk|
    ensures forall k | 0 <= k < |chunk| :: rs[k] == RequestFor(chunk[k])
  {
    seq(|chunk|, k requires 0 <= k < |chunk| => RequestFor(chunk[k]))
  }

  /** Writing the chunks' requests file by file gives one request per brand, in brand order. */
  lemma {:induction false} RequestFilesCoverBrands(cs: seq<seq<Brand>>)
    ensures Concat(seq(|cs|, i requires 0 <= i < |cs| => RequestsFor(cs[i]))) == RequestsFor(Concat(cs))
  {
    var files := seq(|cs|, i requires 0 <= i < |cs| => RequestsFor(cs[i]));
    if cs != [] {
      var tail := seq(|cs| - 1, i requires 0 <= i < |cs| - 1 => RequestsFor(cs[1..][i]));
      assert files[1..] == tail;
      RequestFilesCoverBrands(cs[1..]);
      assert RequestsFor(cs[0] + Concat(cs[1..])) == RequestsFor(cs[0]) + RequestsFor(Concat(cs[1..]));
    }
  }

  function DigitChar(d: nat): char
    requires d < 10
  {
    "0123456789"[d]
  }

  /** `str(n)` for a natural number. */
  function Decimal(n: nat): string
    decreases n
  {
    if n < 10 then [DigitChar(n)] else Decimal(n / 10) + [DigitChar(n % 10)]
  }

  /** `DATA_DIR / f".desc-batch-{i}.jsonl"`. */
  function BatchFile(i: nat): string {
    "data/.desc-batch-" + Decimal(i) + ".jsonl"
  }

  /** A batch record as `prepare` writes it. */
  function FreshBatch(i: nat, count: nat): (b: Batch)
    ensures b.index == i && b.batchId == None && b.status == Pending && b.count == count
    ensures b.ok == None && b.errors == None
  {
    Batch(i, None, BatchFile(i), Pending, count, None, None)
  }

  /** The `batch_meta` loop: one pending record per chunk, whose counts add up to the brands split. */
  method BuildBatchMeta<T>(chunks: seq<seq<T>>) returns (meta: seq<Batch>)
    ensures |meta| == |chunks|
    ensures forall i | 0 <= i < |chunks| :: meta[i] == FreshBatch(i, |chunks[i]|)
    ensures SumCounts(meta) == |Concat(chunks)|
  {
    meta := [];
    var i := 0;
    while i < |chunks|
      invariant 0 <= i <= |chunks|
      invariant |meta| == i
      invariant forall k | 0 <= k < i :: meta[k] == FreshBatch(k, |chunks[k]|)
      invariant SumCounts(meta) == TotalLength(chunks[..i])
    {
      assert chunks[..i + 1][..i] == chunks[..i];
      meta := meta + [FreshBatch(i, |chunks[i]|)];
      i := i + 1;
    }
    assert chunks[..i] == chunks;
    ConcatLength(chunks);
  }

  /**
   * `cmd_prepare`: keep an existing state unless forced; otherwise scan the
   * brand files, split the brands needing a description into chunks and
   * build the request files and the initial state.
   */
  method Prepare(existing: Option<StateDoc>, force: bool, files: seq<BrandFile>) returns (r: PrepareOutcome)
    ensures r.KeptExisting? <==> existing.Some? && !force
    ensures existing.Some? && !force ==> r == KeptExisting(existing.value)
    ensures existing.None? || force ==> (r.NothingToScan? <==> files == [])
    ensures (existing.None? || force) && files != [] ==> r.Prepared?
    ensures r.Prepared? ==>
              var needs := ScanSpec(Flatten(files));
              var chunks := Chunks(needs);
              && r.doc.totalBrands == |needs|
              && r.doc.model == MODEL
              && |r.doc.batches| == |chunks|
              && (forall i | 0 <= i < |chunks| :: r.doc.batches[i] == FreshBatch(i, |chunks[i]|))
              && |r.requests| == |chunks|
              && (forall i | 0 <= i < |chunks| :: r.requests[i] == RequestsFor(chunks[i]))
              && Concat(r.requests) == RequestsFor(needs)
              && WellFormed(r.doc)
  {
    if existing.Some? && !force {
      return KeptExisting(existing.value);
    }
    var scanned := ScanBrands(files);
    if scanned.Failure? {
      return NothingToScan;
    }
    var brands := scanned.value.needs;
    var n := |brands|;
    var chunks := Chunks(brands);
    ChunksShape(brands);
    var meta := BuildBatchMeta(chunks);
    var requests := seq(|chunks|, i requires 0 <= i < |chunks| => RequestsFor(chunks[i]));
    RequestFilesCoverBrands(chunks);
    var doc := StateDoc(n, MODEL, meta);
    r := Prepared(doc, requests);
  }
}
