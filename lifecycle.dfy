/**
 * The batch lifecycle pending -> submitted -> in_progress -> ended -> merged,
 * as value-level specifications of the loops in `cmd_submit`
 * (scripts/generate-descriptions.py:238, 274-285) and `_check_status` (:294-340).
 */
module Lifecycle {
  import opened Wrappers
  import opened Batches

  // ---------------------------------------------------------------- submit

  function CountPending(bs: seq<Batch>): nat {
    if bs == [] then 0
    else CountPending(bs[..|bs| - 1]) + (if bs[|bs| - 1].status == Pending then 1 else 0)
  }

  /** A pending batch after its `create` call returned `id`. */
  function SubmitOne(b: Batch, id: string): (s: Batch)
    requires b.status == Pending
    ensures s.status == Submitted && s.batchId == Some(id)
    ensures s.index == b.index && s.file == b.file && s.count == b.count && s.ok == b.ok && s.errors == b.errors
  {
    b.(batchId := Some(id), status := Submitted)
  }

  /**
   * The submit loop: every pending batch, in order, is submitted; the k-th
   * `create` call (counting from 0) returns `created(k)`.
   */
  function SubmitAll(bs: seq<Batch>, created: nat -> string): seq<Batch> {
    if bs == [] then []
    else
      var prefix := bs[..|bs| - 1];
      var b := bs[|bs| - 1];
      SubmitAll(prefix, created) + [if b.status == Pending then SubmitOne(b, created(CountPending(prefix))) else b]
  }

  /**
   * Submitting changes exactly the pending batches: each becomes submitted
   * with the id of its own `create` call; every other batch is unchanged.
   */
  lemma {:induction false} SubmitAllAt(bs: seq<Batch>, created: nat -> string)
    ensures |SubmitAll(bs, created)| == |bs|
    ensures forall i | 0 <= i < |bs| ::
              SubmitAll(bs, created)[i]
                == if bs[i].status == Pending then SubmitOne(bs[i], created(CountPending(bs[..i]))) else bs[i]
  {
    if bs != [] {
      var n := |bs| - 1;
      SubmitAllAt(bs[..n], created);
      forall i | 0 <= i < n ensures bs[..n][i] == bs[i] && bs[..n][..i] == bs[..i] { }
    }
  }

  /** The k-th pending batch is the one the k-th `create` call serves: distinct pending batches get distinct calls. */
  lemma {:induction false} PendingOrdinalsIncrease(bs: seq<Batch>, i: nat, j: nat)
    requires i < j <= |bs| && bs[i].status == Pending
    ensures CountPending(bs[..i]) < CountPending(bs[..j])
    decreases j
  {
    assert bs[..j][..j - 1] == bs[..j - 1];
    if j - 1 > i {
      PendingOrdinalsIncrease(bs, i, j - 1);
    } else {
      assert bs[..j][j - 1] == bs[i];
    }
  }

  /** After a submit run no batch is pending, and no status moved backwards. */
  lemma SubmitProgress(bs: seq<Batch>, created: nat -> string)
    ensures |SubmitAll(bs, created)| == |bs|
    ensures forall i | 0 <= i < |SubmitAll(bs, created)| :: SubmitAll(bs, created)[i].status != Pending
    ensures forall i | 0 <= i < |bs| :: Rank(bs[i].status) <= Rank(SubmitAll(bs, created)[i].status)
    ensures SameShape(bs, SubmitAll(bs, created))
  {
    SubmitAllAt(bs, created);
  }

  /** A second submit run changes nothing, whatever ids it would be given. */
  lemma SubmitIdempotent(bs: seq<Batch>, created: nat -> string, again: nat -> string)
    ensures SubmitAll(SubmitAll(bs, created), again) == SubmitAll(bs, created)
  {
    var once := SubmitAll(bs, created);
    SubmitProgress(bs, created);
    SubmitAllAt(once, again);
  }

  // ---------------------------------------------------------------- status

  /** What `client.messages.batches.retrieve` reports: processing status and request counts. */
  datatype LiveBatch = LiveBatch(status: Status, succeeded: nat, errored: nat)

  predicate Refreshable(b: Batch) {
    HasId(b) && (b.status == Submitted || b.status == InProgress)
  }

  predicate MissingCounts(b: Batch) {
    HasId(b) && b.status == Ended && b.ok == None
  }

  /**
   * One iteration of the `_check_status` loop. A submitted or in-progress
   * batch takes the live status and counts; an ended batch without counts
   * takes the counts only; any other batch is left alone.
   */
  function Refresh(b: Batch, live: string -> LiveBatch): (r: Batch)
    ensures !Refreshable(b) && !MissingCounts(b) ==> r == b
    ensures Refreshable(b) ==>
              r == b.(status := live(b.batchId.value).status,
                      ok := Some(live(b.batchId.value).succeeded),
                      errors := Some(live(b.batchId.value).errored))
    ensures MissingCounts(b) ==>
              r.status == Ended && r.ok == Some(live(b.batchId.value).succeeded)
              && r.errors == Some(live(b.batchId.value).errored)
    ensures r.index == b.index && r.count == b.count && r.batchId == b.batchId && r.file == b.file
    ensures b.status == Pending || b.status == Merged ==> r == b
  {
    if Refreshable(b) then
      var l := live(b.batchId.value);
      b.(status := l.status, ok := Some(l.succeeded), errors := Some(l.errored))
    else if HasId(b) && b.status == Ended then
      if b.ok == None then
        var l := live(b.batchId.value);
        b.(ok := Some(l.succeeded), errors := Some(l.errored))
      else b
    else b
  }

  /** Whether the iteration sets `changed`: a new status, or counts fetched for an ended batch. */
  predicate RefreshChanged(b: Batch, live: string -> LiveBatch) {
    (Refreshable(b) && live(b.batchId.value).status != b.status) || MissingCounts(b)
  }

  function RefreshAll(bs: seq<Batch>, live: string -> LiveBatch): seq<Batch>
  {
    seq(|bs|, i requires 0 <= i < |bs| => Refresh(bs[i], live))
  }

  /** A status the service reports: `in_progress` or `ended`. */
  predicate ServiceStatus(s: Status) {
    s == InProgress || s == Ended
  }

  /**
   * With the service reporting only in_progress or ended, a refresh never
   * moves a status backwards, never produces `merged`, and never touches a
   * pending or merged batch.
   */
  lemma RefreshMonotone(b: Batch, live: string -> LiveBatch)
    requires HasId(b) ==> ServiceStatus(live(b.batchId.value).status)
    ensures Rank(b.status) <= Rank(Refresh(b, live).status)
    ensures Refresh(b, live).status == Merged <==> b.status == Merged
    ensures Refresh(b, live).status == Pending <==> b.status == Pending
  {
  }

  /**
   * `_check_status`'s result: at least one batch has a `batch_id`, and every
   * such batch is ended or merged (the empty list the source returns when
   * none has an id is false).
   */
  predicate AllDone(bs: seq<Batch>) {
    && (exists i | 0 <= i < |bs| :: HasId(bs[i]))
    && (forall i | 0 <= i < |bs| && HasId(bs[i]) :: bs[i].status == Ended || bs[i].status == Merged)
  }

  /**
   * Once the service reports every batch ended, one status check completes
   * the pipeline exactly when something was submitted (for states whose
   * submitted batches are not left pending).
   */
  lemma RefreshCompletes(bs: seq<Batch>, live: string -> LiveBatch)
    requires forall i | 0 <= i < |bs| && HasId(bs[i]) :: bs[i].status != Pending
    requires forall i | 0 <= i < |bs| && HasId(bs[i]) :: live(bs[i].batchId.value).status == Ended
    ensures AllDone(RefreshAll(bs, live)) <==> exists i | 0 <= i < |bs| :: HasId(bs[i])
  {
    var rs := RefreshAll(bs, live);
    if exists i | 0 <= i < |bs| :: HasId(bs[i]) {
      var i :| 0 <= i < |bs| && HasId(bs[i]);
      assert HasId(rs[i]);
    }
  }

  /** A status check never undoes completion. */
  lemma RefreshKeepsDone(bs: seq<Batch>, live: string -> LiveBatch)
    requires AllDone(bs)
    ensures AllDone(RefreshAll(bs, live))
  {
    var rs := RefreshAll(bs, live);
    var i :| 0 <= i < |bs| && HasId(bs[i]);
    assert HasId(rs[i]);
  }
}
