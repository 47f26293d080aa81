/** One batch of delete jobs from the claim to the last recorded outcome, when nobody else acts on the job table. */
module Batches {
  import opened Records
  import Outbox
  import Weights

  /** The row of a claimed job after its outcome was recorded. */
  predicate OutcomeOf(cfg: Settings, claimed: Job, row: Job) {
    && row == claimed.(status := row.status, lease := None, availableAt := row.availableAt)
    && (row.status.Completed? || row.status == Outbox.FailureStatus(cfg, claimed))
  }

  /** A recorded outcome uses up weight. */
  lemma OutcomeWeighsLess(cfg: Settings, job: Job, now: Time, row: Job)
    requires Outbox.Claimable(job, now) && OutcomeOf(cfg, Outbox.ClaimRow(cfg, job, now), row)
    ensures Weights.JobWeight(cfg, row) < Weights.JobWeight(cfg, job) && row.createdAt == job.createdAt
  {
  }

  /** One batch: the jobs claimed at `now`, every outcome recorded. */
  datatype Round = Round(before: seq<Job>, now: Time, ids: seq<JobId>, after: seq<Job>)

  predicate Worked(cfg: Settings, r: Round) {
    && Weights.OldestFirst(r.before, Weights.Eligible(r.before, r.now, {}), cfg.batchSize, r.ids)
    && |r.after| == |r.before|
    && (forall j :: 0 <= j < |r.before| && j !in r.ids ==> r.after[j] == r.before[j])
    && (forall k :: 0 <= k < |r.ids| ==>
          OutcomeOf(cfg, Outbox.ClaimRow(cfg, r.before[r.ids[k]], r.now), r.after[r.ids[k]]))
  }

  /** The table with the first k outcomes of the batch recorded. */
  function Recorded(r: Round, k: nat): seq<Job>
    requires |r.after| == |r.before| && k <= |r.ids|
  {
    seq(|r.before|, i requires 0 <= i < |r.before| => if i in r.ids[..k] then r.after[i] else r.before[i])
  }

  lemma {:induction false} RecordedWeight(cfg: Settings, r: Round, k: nat)
    requires Worked(cfg, r) && k <= |r.ids|
    ensures Weights.Weight(cfg, Recorded(r, k), None) + k <= Weights.Weight(cfg, r.before, None)
  {
    if k == 0 {
      assert Recorded(r, 0) == r.before;
    } else {
      RecordedWeight(cfg, r, k - 1);
      var j := r.ids[k - 1];
      assert r.ids[..k] == r.ids[..k - 1] + [j];
      assert Recorded(r, k - 1)[j] == r.before[j];
      assert Recorded(r, k) == Recorded(r, k - 1)[j := r.after[j]];
      OutcomeWeighsLess(cfg, r.before[j], r.now, r.after[j]);
      Weights.WeightUpdate(cfg, Recorded(r, k - 1), j, r.after[j], None);
    }
  }

  /** Every outcome of a batch uses up weight. */
  lemma BatchWeight(cfg: Settings, r: Round)
    requires Worked(cfg, r)
    ensures Weights.Weight(cfg, r.after, None) + |r.ids| <= Weights.Weight(cfg, r.before, None)
  {
    RecordedWeight(cfg, r, |r.ids|);
    assert r.ids[..|r.ids|] == r.ids;
    assert Recorded(r, |r.ids|) == r.after;
  }
}
