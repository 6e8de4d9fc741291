/**
 * The pipeline state document (`.desc-batch-state.json`) and the batch
 * records it holds (scripts/generate-descriptions.py:210-226).
 */
module Batches {
  import opened Wrappers

  /** `pending | submitted | in_progress | ended | merged`. */
  datatype Status = Pending | Submitted | InProgress | Ended | Merged

  /** The position of a status in the lifecycle order. */
  function Rank(s: Status): nat {
    match s
    case Pending => 0
    case Submitted => 1
    case InProgress => 2
    case Ended => 3
    case Merged => 4
  }

  /** One batch entry: `index`, `batch_id`, `file`, `status`, `count`, `ok`, `errors`. */
  datatype Batch = Batch(
    index: nat,
    batchId: Option<string>,
    file: string,
    status: Status,
    count: nat,
    ok: Option<nat>,
    errors: Option<nat>)

  /** The state document; the `prepared_at` timestamp is not represented. */
  datatype StateDoc = StateDoc(totalBrands: nat, model: string, batches: seq<Batch>)

  /** `b["batch_id"]` is truthy: present and not the empty string. */
  predicate HasId(b: Batch) {
    b.batchId.Some? && b.batchId.value != ""
  }

  function SumCounts(bs: seq<Batch>): nat {
    if bs == [] then 0 else SumCounts(bs[..|bs| - 1]) + bs[|bs| - 1].count
  }

  /**
   * What `prepare` establishes and no later command changes: batch indices
   * are 0, 1, 2, … in order, and `total_brands` is the sum of the counts.
   */
  ghost predicate WellFormed(doc: StateDoc) {
    && (forall i | 0 <= i < |doc.batches| :: doc.batches[i].index == i)
    && doc.totalBrands == SumCounts(doc.batches)
  }

  /** Two batch lists agree on everything that only `prepare` sets. */
  ghost predicate SameShape(bs: seq<Batch>, cs: seq<Batch>) {
    |bs| == |cs| && forall i | 0 <= i < |bs| :: bs[i].index == cs[i].index && bs[i].count == cs[i].count
  }

  /** A lifecycle step never touches `index` or `count`, so it keeps a state well formed. */
  lemma {:induction false} SameShapeKeepsWellFormed(total: nat, model: string, bs: seq<Batch>, cs: seq<Batch>)
    requires SameShape(bs, cs)
    ensures WellFormed(StateDoc(total, model, bs)) <==> WellFormed(StateDoc(total, model, cs))
  {
    SameShapeSum(bs, cs);
  }

  lemma {:induction false} SameShapeSum(bs: seq<Batch>, cs: seq<Batch>)
    requires SameShape(bs, cs)
    ensures SumCounts(bs) == SumCounts(cs)
  {
    if bs != [] {
      SameShapeSum(bs[..|bs| - 1], cs[..|cs| - 1]);
    }
  }
}
