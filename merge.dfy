/**
 * `cmd_merge` (scripts/generate-descriptions.py:375-450): downloading the
 * results of ended batches into the slug -> description cache, and filling
 * blank descriptions in the brand files from that cache.
 */
module Merge {
  import opened Wrappers
  import opened Text
  import opened Brands
  import opened Batches

  /** `result.result`: a succeeded message with its content blocks' text, or any other outcome. */
  datatype Outcome = Succeeded(texts: seq<string>) | NotSucceeded

  /** One entry of `client.messages.batches.results`. */
  datatype BatchResult = BatchResult(customId: string, outcome: Outcome)

  /** `content[0].text if content else ""`. */
  function RawText(o: Outcome): string
    requires o.Succeeded?
  {
    if o.texts == [] then "" else o.texts[0]
  }

  /** A succeeded result with non-blank text: it is cached and counted as ok. */
  predicate Usable(r: BatchResult) {
    r.outcome.Succeeded? && !IsBlank(RawText(r.outcome))
  }

  function CachedText(r: BatchResult): string
    requires r.outcome.Succeeded?
  {
    Sanitize(RawText(r.outcome))
  }

  /** The cache after the results `rs` are read in order (later results overwrite earlier ones). */
  function Absorb(cache: map<string, string>, rs: seq<BatchResult>): map<string, string> {
    if rs == [] then cache
    else
      var m := Absorb(cache, rs[..|rs| - 1]);
      var r := rs[|rs| - 1];
      if Usable(r) then m[r.customId := CachedText(r)] else m
  }

  /** The `ok` counter: succeeded results with non-blank text. */
  function OkCount(rs: seq<BatchResult>): nat {
    if rs == [] then 0 else OkCount(rs[..|rs| - 1]) + (if Usable(rs[|rs| - 1]) then 1 else 0)
  }

  /** The `errors` counter: results that did not succeed. */
  function ErrorCount(rs: seq<BatchResult>): nat {
    if rs == [] then 0
    else ErrorCount(rs[..|rs| - 1]) + (if rs[|rs| - 1].outcome.NotSucceeded? then 1 else 0)
  }

  function UsableIds(rs: seq<BatchResult>): set<string> {
    set r | r in rs && Usable(r) :: r.customId
  }

  /** The cache keeps every key, and gains exactly the ids of the usable results. */
  lemma {:induction false} AbsorbKeys(cache: map<string, string>, rs: seq<BatchResult>)
    ensures Absorb(cache, rs).Keys == cache.Keys + UsableIds(rs)
  {
    if rs != [] {
      var n := |rs| - 1;
      AbsorbKeys(cache, rs[..n]);
      assert rs == rs[..n] + [rs[n]];
      assert UsableIds(rs) == UsableIds(rs[..n]) + (if Usable(rs[n]) then {rs[n].customId} else {});
    }
  }

  /** The last usable result for a key is the one whose sanitised text the cache holds. */
  predicate LastUsable(rs: seq<BatchResult>, i: nat)
    requires i < |rs|
  {
    Usable(rs[i]) && forall j | i < j < |rs| :: !(Usable(rs[j]) && rs[j].customId == rs[i].customId)
  }

  /**
   * The cache's values: a key that no usable result names keeps its old
   * value; otherwise it holds the sanitised text of the last usable result
   * for it.
   */
  lemma {:induction false} AbsorbValues(cache: map<string, string>, rs: seq<BatchResult>)
    ensures forall k | k in cache && k !in UsableIds(rs) :: k in Absorb(cache, rs) && Absorb(cache, rs)[k] == cache[k]
    ensures forall i | 0 <= i < |rs| && LastUsable(rs, i) ::
              rs[i].customId in Absorb(cache, rs) && Absorb(cache, rs)[rs[i].customId] == CachedText(rs[i])
  {
    if rs != [] {
      var n := |rs| - 1;
      var prior := rs[..n];
      AbsorbValues(cache, prior);
      assert rs == prior + [rs[n]];
      assert forall r | r in prior :: r in rs;
      forall i | 0 <= i < |rs| && LastUsable(rs, i)
        ensures rs[i].customId in Absorb(cache, rs) && Absorb(cache, rs)[rs[i].customId] == CachedText(rs[i])
      {
        if i < n {
          assert prior[i] == rs[i];
          assert LastUsable(prior, i);
        }
      }
    }
  }

  /** Every result is counted at most once: as ok, as an error, or (blank success) not at all. */
  lemma {:induction false} CountsBounded(rs: seq<BatchResult>)
    ensures OkCount(rs) + ErrorCount(rs) <= |rs|
    ensures OkCount(rs) == |rs| - ErrorCount(rs) <==> forall i | 0 <= i < |rs| :: rs[i].outcome.Succeeded? ==> Usable(rs[i])
  {
    if rs != [] {
      var n := |rs| - 1;
      CountsBounded(rs[..n]);
      assert forall i | 0 <= i < n :: rs[..n][i] == rs[i];
    }
  }

  /** The values `_sanitize` produces are never blank, so the cache only ever holds non-blank text. */
  ghost predicate NonBlankValues(m: map<string, string>) {
    forall k | k in m :: !IsBlank(m[k])
  }

  lemma {:induction false} AbsorbNonBlank(cache: map<string, string>, rs: seq<BatchResult>)
    requires NonBlankValues(cache)
    ensures NonBlankValues(Absorb(cache, rs))
  {
    if rs != [] {
      AbsorbNonBlank(cache, rs[..|rs| - 1]);
      var r := rs[|rs| - 1];
      if Usable(r) {
        assert CachedText(r) != "";
        assert !IsSpace(CachedText(r)[0]);
      }
    }
  }

  /** A batch the merge loop downloads: ended and with a `batch_id`. */
  predicate Downloadable(b: Batch) {
    b.status == Ended && HasId(b)
  }

  /**
   * One iteration of the merge loop on the batch record: merged batches,
   * batches not ended and batches without an id are skipped; a downloaded
   * batch becomes merged with its ok and error counts.
   */
  function MergedBatch(b: Batch, fetch: string -> seq<BatchResult>): (r: Batch)
    ensures !Downloadable(b) ==> r == b
    ensures Downloadable(b) ==>
              r.status == Merged
              && r.ok == Some(OkCount(fetch(b.batchId.value)))
              && r.errors == Some(ErrorCount(fetch(b.batchId.value)))
    ensures r.index == b.index && r.count == b.count && r.batchId == b.batchId && r.file == b.file
  {
    if b.status == Merged then b
    else if b.status != Ended then b
    else if !HasId(b) then b
    else
      var rs := fetch(b.batchId.value);
      b.(status := Merged, ok := Some(OkCount(rs)), errors := Some(ErrorCount(rs)))
  }

  /** The results cache after the merge loop over `bs`. */
  function MergedCache(bs: seq<Batch>, cache: map<string, string>, fetch: string -> seq<BatchResult>): map<string, string> {
    if bs == [] then cache
    else
      var m := MergedCache(bs[..|bs| - 1], cache, fetch);
      var b := bs[|bs| - 1];
      if Downloadable(b) then Absorb(m, fetch(b.batchId.value)) else m
  }

  /** `newly_downloaded`: the ok counts of the batches downloaded. */
  function Downloaded(bs: seq<Batch>, fetch: string -> seq<BatchResult>): nat {
    if bs == [] then 0
    else
      var b := bs[|bs| - 1];
      Downloaded(bs[..|bs| - 1], fetch) + (if Downloadable(b) then OkCount(fetch(b.batchId.value)) else 0)
  }

  function MergedBatches(bs: seq<Batch>, fetch: string -> seq<BatchResult>): seq<Batch>
  {
    seq(|bs|, i requires 0 <= i < |bs| => MergedBatch(bs[i], fetch))
  }

  /** No key ever leaves the results cache. */
  lemma {:induction false} MergeKeepsKeys(bs: seq<Batch>, cache: map<string, string>, fetch: string -> seq<BatchResult>)
    ensures cache.Keys <= MergedCache(bs, cache, fetch).Keys
    ensures NonBlankValues(cache) ==> NonBlankValues(MergedCache(bs, cache, fetch))
  {
    if bs != [] {
      var n := |bs| - 1;
      MergeKeepsKeys(bs[..n], cache, fetch);
      var m := MergedCache(bs[..n], cache, fetch);
      if Downloadable(bs[n]) {
        AbsorbKeys(m, fetch(bs[n].batchId.value));
        if NonBlankValues(cache) {
          AbsorbNonBlank(m, fetch(bs[n].batchId.value));
        }
      }
    }
  }

  /** Statuses only move forward: a downloaded ended batch becomes merged, nothing else moves. */
  lemma MergeMonotone(b: Batch, fetch: string -> seq<BatchResult>)
    ensures Rank(b.status) <= Rank(MergedBatch(b, fetch).status)
    ensures MergedBatch(b, fetch).status != b.status ==> b.status == Ended && MergedBatch(b, fetch).status == Merged
  {
  }

  /**
   * Merging again downloads nothing: every batch is unchanged and the cache
   * is left as it is, whatever the service would now return.
   */
  lemma {:induction false} MergeIdempotent(bs: seq<Batch>, cache: map<string, string>,
                                           fetch: string -> seq<BatchResult>, again: string -> seq<BatchResult>,
                                           later: map<string, string>)
    ensures MergedBatches(MergedBatches(bs, fetch), again) == MergedBatches(bs, fetch)
    ensures MergedCache(MergedBatches(bs, fetch), later, again) == later
    ensures Downloaded(MergedBatches(bs, fetch), again) == 0
  {
    var once := MergedBatches(bs, fetch);
    NothingDownloadable(once, later, again);
  }

  lemma {:induction false} NothingDownloadable(bs: seq<Batch>, cache: map<string, string>, fetch: string -> seq<BatchResult>)
    requires forall i | 0 <= i < |bs| :: !Downloadable(bs[i])
    ensures MergedCache(bs, cache, fetch) == cache
    ensures Downloaded(bs, fetch) == 0
  {
    if bs != [] {
      NothingDownloadable(bs[..|bs| - 1], cache, fetch);
    }
  }

  lemma ExampleCounts(rs: seq<BatchResult>, a: string, c: string, e: string, ta: string, tc: string)
    requires rs == [BatchResult(a, Succeeded([ta])), BatchResult(c, Succeeded([tc])), BatchResult(e, NotSucceeded)]
    requires !IsBlank(ta) && !IsBlank(tc)
    ensures OkCount(rs) == 2 && ErrorCount(rs) == 1 && UsableIds(rs) == {a, c}
  {
    assert Usable(rs[0]) && Usable(rs[1]) && !Usable(rs[2]);
    assert rs[..1][..0] == [] && rs[..2][..1] == rs[..1] && rs[..2] == rs[..|rs| - 1];
    assert rs[..1][0] == rs[0] && rs[..2][1] == rs[1];
    assert OkCount(rs[..1]) == 1;
    assert ErrorCount(rs[..1][..0]) == 0;
    assert ErrorCount(rs[..1]) == 0;
    assert OkCount(rs[..2]) == 2 && ErrorCount(rs[..2]) == 0;
    assert forall r | r in rs :: r == rs[0] || r == rs[1] || r == rs[2];
  }

  /** Scenario: two succeeded results and one error add two keys and report ok = 2, errors = 1. */
  lemma MergeExample(b: Batch, cache: map<string, string>, fetch: string -> seq<BatchResult>,
                     a: string, c: string, e: string, ta: string, tc: string)
    requires Downloadable(b)
    requires fetch(b.batchId.value)
          == [BatchResult(a, Succeeded([ta])), BatchResult(c, Succeeded([tc])), BatchResult(e, NotSucceeded)]
    requires !IsBlank(ta) && !IsBlank(tc) && a != c
    requires a !in cache && c !in cache
    ensures MergedBatch(b, fetch).status == Merged
    ensures MergedBatch(b, fetch).ok == Some(2) && MergedBatch(b, fetch).errors == Some(1)
    ensures |MergedCache([b], cache, fetch)| == |cache| + 2
  {
    var rs := fetch(b.batchId.value);
    ExampleCounts(rs, a, c, e, ta, tc);
    assert MergedCache([b], cache, fetch) == Absorb(cache, rs) by {
      assert [b][..0] == [];
    }
    AbsorbTwoNew(cache, rs, a, c);
  }

  lemma AbsorbTwoNew(cache: map<string, string>, rs: seq<BatchResult>, a: string, c: string)
    requires UsableIds(rs) == {a, c} && a != c && a !in cache && c !in cache
    ensures |Absorb(cache, rs)| == |cache| + 2
  {
    AbsorbKeys(cache, rs);
    var keys := Absorb(cache, rs).Keys;
    assert keys == cache.Keys + {a} + {c};
    assert |cache.Keys + {a}| == |cache.Keys| + 1;
  }

  // ------------------------------------------------------- apply to files

  /** `not b.get("description", "").strip() and b["slug"] in results`. */
  predicate NeedsFill(b: BrandRecord, results: map<string, string>) {
    !HasDescription(b) && b.slug in results
  }

  /** One record after the update loop: a blank description is filled from the cache. */
  function Filled(b: BrandRecord, results: map<string, string>): (r: BrandRecord)
    ensures NeedsFill(b, results) ==> r == b.(description := Some(results[b.slug]))
    ensures !NeedsFill(b, results) ==> r == b
  {
    if NeedsFill(b, results) then b.(description := Some(results[b.slug])) else b
  }

  function FilledFile(f: BrandFile, results: map<string, string>): (g: BrandFile)
  {
    seq(|f|, k requires 0 <= k < |f| => Filled(f[k], results))
  }

  /** The `updated` counter of one file. */
  function FillCount(f: BrandFile, results: map<string, string>): nat {
    if f == [] then 0 else FillCount(f[..|f| - 1], results) + (if NeedsFill(f[|f| - 1], results) then 1 else 0)
  }

  /** The number of positions where two files differ. */
  function ChangedCount(f: BrandFile, g: BrandFile): nat
    requires |f| == |g|
  {
    if f == [] then 0
    else ChangedCount(f[..|f| - 1], g[..|g| - 1]) + (if f[|f| - 1] != g[|g| - 1] then 1 else 0)
  }

  /**
   * With a cache of non-blank descriptions, `updated` is the number of
   * records the loop changed; in particular a file is rewritten exactly
   * when some record changed.
   */
  lemma {:induction false} FillCountIsChanges(f: BrandFile, results: map<string, string>)
    requires NonBlankValues(results)
    ensures FillCount(f, results) == ChangedCount(f, FilledFile(f, results))
    ensures FillCount(f, results) == 0 <==> FilledFile(f, results) == f
  {
    if f != [] {
      var n := |f| - 1;
      FillCountIsChanges(f[..n], results);
      var g := FilledFile(f, results);
      assert g[..n] == FilledFile(f[..n], results);
      if NeedsFill(f[n], results) {
        assert !IsBlank(results[f[n].slug]);
        assert g[n].description != f[n].description;
      }
      assert FilledFile(f, results) == f <==> (FilledFile(f[..n], results) == f[..n] && g[n] == f[n]) by {
        if FilledFile(f[..n], results) == f[..n] && g[n] == f[n] {
          assert g == g[..n] + [g[n]];
          assert f == f[..n] + [f[n]];
        }
      }
    }
  }

  /** Filling twice is filling once: filled records are no longer blank. */
  lemma FillIdempotent(f: BrandFile, results: map<string, string>)
    requires NonBlankValues(results)
    ensures FilledFile(FilledFile(f, results), results) == FilledFile(f, results)
  {
    var g := FilledFile(f, results);
    forall k | 0 <= k < |f| ensures Filled(g[k], results) == g[k] {
      if NeedsFill(f[k], results) {
        assert !IsBlank(results[f[k].slug]);
      }
    }
  }

  /** The update loop over the records of one brand file, and its `updated` count. */
  method FillFile(file: BrandFile, results: map<string, string>) returns (brands: BrandFile, updated: nat)
    ensures brands == FilledFile(file, results)
    ensures updated == FillCount(file, results)
  {
    brands := file;
    updated := 0;
    var j := 0;
    while j < |brands|
      invariant 0 <= j <= |brands| && |brands| == |file|
      invariant forall k | 0 <= k < |brands| :: brands[k] == if k < j then Filled(file[k], results) else file[k]
      invariant updated == FillCount(file[..j], results)
    {
      var b := brands[j];
      assert file[..j + 1][..j] == file[..j];
      if !HasDescription(b) && b.slug in results {
        brands := brands[j := b.(description := Some(results[b.slug]))];
        updated := updated + 1;
      }
      j := j + 1;
    }
    assert file[..j] == file;
  }

  /** What is written for one brand file: its filled contents when some record was updated, nothing otherwise. */
  predicate WrittenAs(write: Option<BrandFile>, file: BrandFile, results: map<string, string>) {
    && (write.Some? <==> FillCount(file, results) > 0)
    && (write.Some? ==> write.value == FilledFile(file, results))
  }

  /**
   * One brand file: its records are filled, and the file is written back,
   * as `Some` of its new contents, only when some record was updated.
   */
  method UpdateFile(file: BrandFile, results: map<string, string>) returns (write: Option<BrandFile>, updated: nat)
    ensures updated == FillCount(file, results)
    ensures write.Some? <==> updated > 0
    ensures write.Some? ==> write.value == FilledFile(file, results)
    ensures WrittenAs(write, file, results)
  {
    var brands;
    brands, updated := FillFile(file, results);
    write := if updated > 0 then Some(brands) else None;
  }

  /** The brand-file update loop of `cmd_merge`, for every file. */
  method ApplyResults(files: seq<BrandFile>, results: map<string, string>)
    returns (writes: seq<Option<BrandFile>>, totalUpdated: nat)
    ensures |writes| == |files|
    ensures forall i | 0 <= i < |files| :: WrittenAs(writes[i], files[i], results)
    ensures totalUpdated == FillCount(Flatten(files), results)
  {
    writes, totalUpdated := [], 0;
    var i := 0;
    while i < |files|
      invariant 0 <= i <= |files| && |writes| == i
      invariant forall k | 0 <= k < i :: WrittenAs(writes[k], files[k], results)
      invariant totalUpdated == FillCount(Flatten(files[..i]), results)
    {
      var write, updated := UpdateFile(files[i], results);
      TotalStep(files, i, results);
      writes := writes + [write];
      totalUpdated := totalUpdated + updated;
      i := i + 1;
    }
    assert files[..i] == files;
  }

  /** One more file adds its own fill count to the total. */
  lemma TotalStep(files: seq<BrandFile>, i: nat, results: map<string, string>)
    requires i < |files|
    ensures FillCount(Flatten(files[..i + 1]), results) == FillCount(Flatten(files[..i]), results) + FillCount(files[i], results)
  {
    assert files[..i + 1][..i] == files[..i];
    FillCountAppend(Flatten(files[..i]), files[i], results);
  }

  lemma {:induction false} FillCountAppend(f: BrandFile, g: BrandFile, results: map<string, string>)
    ensures FillCount(f + g, results) == FillCount(f, results) + FillCount(g, results)
    decreases |g|
  {
    if g != [] {
      var n := |g| - 1;
      assert (f + g)[..|f + g| - 1] == f + g[..n];
      FillCountAppend(f, g[..n], results);
    } else {
      assert f + g == f;
    }
  }
}
