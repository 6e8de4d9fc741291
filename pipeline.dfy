/**
 * The commands that load the state document, change its batch records in
 * place and save it again: `cmd_submit`, `_check_status` and `cmd_merge`
 * (scripts/generate-descriptions.py:232-450). Saving is not modelled; the
 * fields hold what the next save would write.
 */
module Pipeline {
  import opened Wrappers
  import opened Brands
  import opened Batches
  import opened Lifecycle
  import opened Merge

  /**
   * The inner loop of `cmd_merge` over one batch's results: usable results
   * are sanitised into the cache, and the ok and error counters kept.
   */
  method DownloadBatch(cache: map<string, string>, rs: seq<BatchResult>)
    returns (results: map<string, string>, ok: nat, errors: nat)
    ensures results == Absorb(cache, rs)
    ensures ok == OkCount(rs) && errors == ErrorCount(rs)
  {
    results, ok, errors := cache, 0, 0;
    var j := 0;
    while j < |rs|
      invariant 0 <= j <= |rs|
      invariant results == Absorb(cache, rs[..j])
      invariant ok == OkCount(rs[..j]) && errors == ErrorCount(rs[..j])
    {
      var r := rs[j];
      assert rs[..j + 1][..j] == rs[..j];
      if r.outcome.Succeeded? {
        if Usable(r) {
          results := results[r.customId := CachedText(r)];
          ok := ok + 1;
        }
      } else {
        errors := errors + 1;
      }
      j := j + 1;
    }
    assert rs[..j] == rs;
  }

  /** The loaded `.desc-batch-state.json`. */
  class PipelineState {
    var totalBrands: nat
    var model: string
    var batches: seq<Batch>

    /** `_load_state`: the fields hold the document read. */
    constructor Load(doc: StateDoc)
      ensures Doc() == doc
    {
      totalBrands := doc.totalBrands;
      model := doc.model;
      batches := doc.batches;
    }

    /** The document `_save_state` would write. */
    function Doc(): StateDoc
      reads this
    {
      StateDoc(totalBrands, model, batches)
    }

    ghost predicate Valid()
      reads this
    {
      WellFormed(Doc())
    }

    /**
     * `cmd_submit` after the cost estimate: unless the user declines, every
     * pending batch, in order, is sent with the next `create` call and
     * becomes submitted with the id returned.
     */
    method Submit(proceed: bool, created: nat -> string) returns (calls: nat)
      requires Valid()
      modifies this
      ensures Valid()
      ensures batches == (if proceed then SubmitAll(old(batches), created) else old(batches))
      ensures calls == (if proceed then CountPending(old(batches)) else 0)
      ensures totalBrands == old(totalBrands) && model == old(model)
    {
      calls := 0;
      if !proceed {
        return;
      }
      ghost var before := batches;
      ghost var after := SubmitAll(before, created);
      SubmitStep(before, 0, created);
      var i := 0;
      while i < |batches|
        invariant 0 <= i <= |batches| == |before| == |after|
        invariant forall k | 0 <= k < |batches| :: batches[k] == if k < i then after[k] else before[k]
        invariant calls == CountPending(before[..i])
        invariant totalBrands == old(totalBrands) && model == old(model)
      {
        calls := SubmitNext(i, before, created, calls);
        i := i + 1;
      }
      assert before[..i] == before;
      SubmitProgress(before, created);
      SameShapeKeepsWellFormed(totalBrands, model, before, batches);
    }

    /**
     * One iteration of the submit loop: a pending batch at `i` is sent with
     * the next `create` call and becomes submitted with the id returned.
     */
    method SubmitNext(i: nat, ghost before: seq<Batch>, created: nat -> string, callsSoFar: nat) returns (calls: nat)
      requires i < |batches| == |before| == |SubmitAll(before, created)|
      requires forall k | 0 <= k < |batches| :: batches[k] == if k < i then SubmitAll(before, created)[k] else before[k]
      requires callsSoFar == CountPending(before[..i])
      modifies this
      ensures |batches| == |before| == |SubmitAll(before, created)|
      ensures forall k | 0 <= k < |batches| :: batches[k] == if k <= i then SubmitAll(before, created)[k] else before[k]
      ensures calls == CountPending(before[..i + 1])
      ensures totalBrands == old(totalBrands) && model == old(model)
    {
      PendingStep(before, i);
      SubmitStep(before, i, created);
      calls := callsSoFar;
      var b := batches[i];
      if b.status == Pending {
        batches := batches[i := b.(batchId := Some(created(calls)), status := Submitted)];
        calls := calls + 1;
      }
    }

    /**
     * `_check_status`: refreshes every submitted or in-progress batch from
     * the service, fetches missing counts of ended batches, and reports
     * whether anything changed and whether every submitted batch is done.
     */
    method CheckStatus(live: string -> LiveBatch) returns (allDone: bool, changed: bool)
      requires Valid()
      modifies this
      ensures Valid()
      ensures batches == RefreshAll(old(batches), live)
      ensures changed <==> exists i | 0 <= i < |old(batches)| :: RefreshChanged(old(batches)[i], live)
      ensures allDone == AllDone(batches)
      ensures totalBrands == old(totalBrands) && model == old(model)
    {
      ghost var before := batches;
      changed := false;
      var i := 0;
      while i < |batches|
        invariant 0 <= i <= |batches| == |before|
        invariant forall k | 0 <= k < |batches| :: batches[k] == if k < i then Refresh(before[k], live) else before[k]
        invariant changed <==> exists k | 0 <= k < i :: RefreshChanged(before[k], live)
        invariant totalBrands == old(totalBrands) && model == old(model)
      {
        var changedHere := RefreshBatch(i, live);
        changed := changed || changedHere;
        i := i + 1;
      }
      SameShapeKeepsWellFormed(totalBrands, model, before, batches);
      allDone := AllSubmittedDone(batches);
    }

    /**
     * One iteration of the `_check_status` loop: a submitted or in-progress
     * batch takes the live status and counts, an ended batch without counts
     * takes the counts; `changedHere` is whether this iteration sets `changed`.
     */
    method RefreshBatch(i: nat, live: string -> LiveBatch) returns (changedHere: bool)
      requires i < |batches|
      modifies this
      ensures batches == old(batches)[i := Refresh(old(batches)[i], live)]
      ensures changedHere == RefreshChanged(old(batches)[i], live)
      ensures totalBrands == old(totalBrands) && model == old(model)
    {
      changedHere := false;
      var b := batches[i];
      if HasId(b) && (b.status == Submitted || b.status == InProgress) {
        var l := live(b.batchId.value);
        if l.status != b.status {
          changedHere := true;
        }
        batches := batches[i := b.(status := l.status, ok := Some(l.succeeded), errors := Some(l.errored))];
      } else if HasId(b) && b.status == Ended {
        if b.ok == None {
          var l := live(b.batchId.value);
          batches := batches[i := b.(ok := Some(l.succeeded), errors := Some(l.errored))];
          changedHere := true;
        }
      }
    }

    /**
     * One downloaded batch: its results are absorbed into the cache and it
     * becomes merged with its ok and error counts.
     */
    method DownloadAt(i: nat, cache: map<string, string>, fetch: string -> seq<BatchResult>)
      returns (results: map<string, string>, ok: nat)
      requires i < |batches| && Downloadable(batches[i])
      modifies this
      ensures batches == old(batches)[i := MergedBatch(old(batches)[i], fetch)]
      ensures results == Absorb(cache, fetch(old(batches)[i].batchId.value))
      ensures ok == OkCount(fetch(old(batches)[i].batchId.value))
      ensures totalBrands == old(totalBrands) && model == old(model)
    {
      var b := batches[i];
      var errors;
      results, ok, errors := DownloadBatch(cache, fetch(b.batchId.value));
      MergedFromCounts(b, fetch, ok, errors);
      batches := batches[i := b.(status := Merged, ok := Some(ok), errors := Some(errors))];
    }

    /**
     * The download loop of `cmd_merge`: every ended batch with an id has its
     * results absorbed into the cache and becomes merged with its counts;
     * `newly` is the sum of their ok counts.
     */
    method DownloadResults(cache: map<string, string>, fetch: string -> seq<BatchResult>)
      returns (results: map<string, string>, newly: nat)
      requires Valid()
      modifies this
      ensures Valid()
      ensures batches == MergedBatches(old(batches), fetch)
      ensures results == MergedCache(old(batches), cache, fetch)
      ensures newly == Downloaded(old(batches), fetch)
      ensures totalBrands == old(totalBrands) && model == old(model)
    {
      ghost var before := batches;
      results, newly := cache, 0;
      var i := 0;
      while i < |batches|
        invariant 0 <= i <= |batches| == |before|
        invariant forall k | 0 <= k < |batches| :: batches[k] == if k < i then MergedBatch(before[k], fetch) else before[k]
        invariant results == MergedCache(before[..i], cache, fetch)
        invariant newly == Downloaded(before[..i], fetch)
        invariant totalBrands == old(totalBrands) && model == old(model)
      {
        results, newly := DownloadNext(i, before, cache, fetch, results, newly);
        i := i + 1;
      }
      assert before[..i] == before;
      SameShapeKeepsWellFormed(totalBrands, model, before, batches);
    }

    /**
     * One iteration of the download loop: the batch at `i` is skipped or
     * downloaded, and the loop's results and count extend to it.
     */
    method DownloadNext(i: nat, ghost before: seq<Batch>, cache: map<string, string>, fetch: string -> seq<BatchResult>,
                        resultsSoFar: map<string, string>, newlySoFar: nat)
      returns (results: map<string, string>, newly: nat)
      requires i < |batches| == |before|
      requires forall k | 0 <= k < |batches| :: batches[k] == if k < i then MergedBatch(before[k], fetch) else before[k]
      requires resultsSoFar == MergedCache(before[..i], cache, fetch)
      requires newlySoFar == Downloaded(before[..i], fetch)
      modifies this
      ensures |batches| == |before|
      ensures forall k | 0 <= k < |batches| :: batches[k] == if k <= i then MergedBatch(before[k], fetch) else before[k]
      ensures results == MergedCache(before[..i + 1], cache, fetch)
      ensures newly == Downloaded(before[..i + 1], fetch)
      ensures totalBrands == old(totalBrands) && model == old(model)
    {
      MergeStep(before, i, cache, fetch);
      results, newly := resultsSoFar, newlySoFar;
      var b := batches[i];
      // Skipped, in the source's order: already merged, not ended, no batch id.
      if b.status != Merged && b.status == Ended && HasId(b) {
        var ok;
        results, ok := DownloadAt(i, results, fetch);
        newly := newly + ok;
      }
    }

    /**
     * `cmd_merge`: download, then, unless the cache is still empty, fill the
     * blank descriptions of every brand file from it.
     */
    method Merge(cache: map<string, string>, fetch: string -> seq<BatchResult>, files: seq<BrandFile>)
      returns (results: map<string, string>, writes: seq<Option<BrandFile>>, totalUpdated: nat)
      requires Valid()
      modifies this
      ensures Valid()
      ensures batches == MergedBatches(old(batches), fetch)
      ensures results == MergedCache(old(batches), cache, fetch)
      ensures |results| == 0 ==> writes == [] && totalUpdated == 0
      ensures |results| > 0 ==>
                && |writes| == |files|
                && (forall i | 0 <= i < |files| :: WrittenAs(writes[i], files[i], results))
                && totalUpdated == FillCount(Flatten(files), results)
    ensures totalBrands == old(totalBrands) && model == old(model)
    {
      var newly;
      results, newly := DownloadResults(cache, fetch);
      if |results| == 0 {
        return results, [], 0;
      }
      writes, totalUpdated := ApplyResults(files, results);
    }
  }

  lemma MergedFromCounts(b: Batch, fetch: string -> seq<BatchResult>, ok: nat, errors: nat)
    requires Downloadable(b)
    requires ok == OkCount(fetch(b.batchId.value)) && errors == ErrorCount(fetch(b.batchId.value))
    ensures MergedBatch(b, fetch) == b.(status := Merged, ok := Some(ok), errors := Some(errors))
  {
  }

  lemma SubmitStep(bs: seq<Batch>, i: nat, created: nat -> string)
    ensures |SubmitAll(bs, created)| == |bs|
    ensures i < |bs| ==>
              SubmitAll(bs, created)[i]
                == if bs[i].status == Pending then SubmitOne(bs[i], created(CountPending(bs[..i]))) else bs[i]
  {
    SubmitAllAt(bs, created);
  }

  lemma PendingStep(bs: seq<Batch>, i: nat)
    requires i < |bs|
    ensures CountPending(bs[..i + 1]) == CountPending(bs[..i]) + (if bs[i].status == Pending then 1 else 0)
  {
    assert bs[..i + 1][..i] == bs[..i];
  }

  lemma MergeStep(bs: seq<Batch>, i: nat, cache: map<string, string>, fetch: string -> seq<BatchResult>)
    requires i < |bs|
    ensures MergedCache(bs[..i + 1], cache, fetch)
              == if Downloadable(bs[i]) then Absorb(MergedCache(bs[..i], cache, fetch), fetch(bs[i].batchId.value))
                 else MergedCache(bs[..i], cache, fetch)
    ensures Downloaded(bs[..i + 1], fetch)
              == Downloaded(bs[..i], fetch) + (if Downloadable(bs[i]) then OkCount(fetch(bs[i].batchId.value)) else 0)
  {
    assert bs[..i + 1][..i] == bs[..i];
  }

  /** The value `_check_status` returns, computed as the source's `submitted and all(...)`. */
  method AllSubmittedDone(bs: seq<Batch>) returns (done: bool)
    ensures done == AllDone(bs)
  {
    var any := false;
    var all := true;
    var i := 0;
    while i < |bs|
      invariant 0 <= i <= |bs|
      invariant any <==> exists k | 0 <= k < i :: HasId(bs[k])
      invariant all <==> forall k | 0 <= k < i && HasId(bs[k]) :: bs[k].status == Ended || bs[k].status == Merged
    {
      if HasId(bs[i]) {
        any := true;
        if !(bs[i].status == Ended || bs[i].status == Merged) {
          all := false;
        }
      }
      i := i + 1;
    }
    done := any && all;
  }
}
