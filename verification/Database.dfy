/** The scan's database rows, updated in place, one method per transaction (engine/open_kritt_engine/db.py). */
module Database {
  import opened Wrappers
  import opened Findings
  import opened JobLedger
  import Clusters = DedupePayloads
  import Partition = DedupePartition
  import Ranks = RankPayloads
  import Queue = WorkflowQueue

  /** As many of the ids are waiting as there are ids: the count the claim compares. */
  lemma WaitingCount(kind: Kind, ids: set<Id>, now: Table)
    ensures |(set id | id in ids && id in now && Wants(kind, now[id]))| == |ids|
      <==> forall id | id in ids :: id in now && Wants(kind, now[id])
  {
    var waiting := set id | id in ids && id in now && Wants(kind, now[id]);
    assert ids == waiting + (ids - waiting);
    if |waiting| == |ids| {
      assert |ids - waiting| == 0;
      assert forall id | id in ids :: id in waiting;
    } else if forall id | id in ids :: id in now && Wants(kind, now[id]) {
      assert forall id :: id in waiting <==> id in ids;
    }
  }

  class Database {
    var status: Status
    var jobLimit: Option<nat>
    var jobsStarted: nat
    var nextId: nat
    var metadata: map<nat, Meta>
    var findings: Table

    constructor (status: Status, jobLimit: Option<nat>, findings: Table)
      ensures View() == Ledger(status, jobLimit, 0, 0, map[]) && this.findings == findings
    {
      this.status, this.jobLimit, this.jobsStarted := status, jobLimit, 0;
      this.nextId, this.metadata, this.findings := 0, map[], findings;
    }

    /** The rows the job ledger is about. */
    ghost function View(): Ledger
      reads this
    {
      Ledger(status, jobLimit, jobsStarted, nextId, metadata)
    }

    /** `claim_logical_job_slot`. */
    method ClaimLogicalJobSlot(alreadyStarted: bool) returns (ok: bool)
      modifies `jobsStarted, `status
      ensures (View(), ok) == ClaimSlot(old(View()), alreadyStarted)
    {
      if alreadyStarted {
        return true;
      }
      if jobLimit.Some? && jobsStarted >= jobLimit.value {
        var running := exists id | id in metadata :: metadata[id].state.Live?;
        if !running && Claimable(status) {
          status := Stopped;
        }
        return false;
      }
      jobsStarted := jobsStarted + 1;
      ok := true;
    }

    /** The insert of both kinds of metadata. */
    method InsertMetadata(job: Job) returns (id: nat)
      modifies `nextId, `metadata
      ensures id == old(nextId) && View() == Insert(old(View()), job)
    {
      id := nextId;
      nextId := nextId + 1;
      metadata := metadata[id := Meta(job, Live)];
    }

    /** `claim_step_metadata`. */
    method ClaimStepMetadata(key: Queue.Key) returns (id: Option<nat>)
      modifies this
      ensures (View(), id) == Claim(old(View()), StepJob(key), true)
      ensures findings == old(findings)
    {
      var job := StepJob(key);
      if !Claimable(status) {
        return None;
      }
      if exists row | row in metadata :: metadata[row].job == job && !metadata[row].state.Abandoned? {
        return None;
      }
      var previous := exists row | row in metadata :: metadata[row].job == job;
      assert previous <==> job in Jobs(View());
      var paid := ClaimLogicalJobSlot(previous);
      if !paid {
        return None;
      }
      var inserted := InsertMetadata(job);
      id := Some(inserted);
    }

    /** `claim_post_process_metadata`, for a batch or a script; a batch names the findings it was chosen from. */
    method ClaimPostProcessMetadata(job: Job, targets: seq<Id>) returns (id: Option<nat>)
      requires !job.StepJob?
      modifies this
      ensures (View(), id) == Claim(
        old(View()), job, job.BatchJob? ==> AllWaiting(job.kind, Clusters.IdSet(targets), old(findings)))
      ensures findings == old(findings)
    {
      if !Claimable(status) {
        return None;
      }
      if job.ScriptJob? {
        if exists row | row in metadata :: metadata[row].job == job && !metadata[row].state.Abandoned? {
          return None;
        }
      } else {
        if exists row | row in metadata ::
          metadata[row].job.BatchJob? && metadata[row].job.kind == job.kind
          && (metadata[row].state.Live? || (metadata[row].job.index == job.index && metadata[row].state.Done?))
        {
          assert Blocked(View(), job);
          return None;
        }
        assert !Blocked(View(), job);
        var expected := Clusters.IdSet(targets);
        if expected == {} {
          return None;
        }
        var waiting := set finding | finding in expected && finding in findings && Wants(job.kind, findings[finding]);
        WaitingCount(job.kind, expected, findings);
        if |waiting| != |expected| {
          return None;
        }
      }
      var previous := exists row | row in metadata :: metadata[row].job == job;
      assert previous <==> job in Jobs(View());
      var paid := ClaimLogicalJobSlot(previous);
      if !paid {
        return None;
      }
      var inserted := InsertMetadata(job);
      id := Some(inserted);
    }

    /** `update_metadata` and `update_post_process_metadata`, as a worker ends the row it claimed. */
    method EndMetadata(id: nat, ok: bool)
      requires IsLive(View(), id)
      modifies `metadata
      ensures View() == Settle(old(View()), id, ok)
    {
      metadata := metadata[id := metadata[id].(state := if ok then Done else Abandoned)];
    }

    /** `apply_dedupe_mapping`. */
    method ApplyDedupeMapping(mapping: map<Id, Clusters.Assignment>) returns (count: nat)
      modifies `findings
      ensures findings == Partition.ApplyMapping(old(findings), mapping) && count == |mapping|
    {
      if mapping == map[] {
        return 0;
      }
      var before := findings;
      findings := map id | id in before ::
        if id !in mapping then before[id]
        else before[id].(canonical := Some(mapping[id].isCanonical),
                         canonicalId := Some(mapping[id].canonicalId), cluster := Some(mapping[id].cluster));
      assert forall id :: id in findings <==> id in before;
      assert forall id | id in before :: findings[id] == Partition.ApplyMapping(before, mapping)[id];
      count := |mapping|;
    }

    /** `apply_rank_updates`. */
    method ApplyRankUpdates(updates: seq<Ranks.Update>) returns (count: nat)
      modifies `findings
      ensures findings == Ranks.ApplyRanks(old(findings), updates) && count == |updates|
    {
      for i := 0 to |updates|
        invariant findings == Ranks.ApplyRanks(old(findings), updates[..i])
      {
        var u := updates[i];
        if u.id in findings {
          findings := findings[u.id :=
            findings[u.id].(bountyRank := Some(u.rank), total := Some(u.total), rank := Some(u.rank))];
        }
        assert updates[..i + 1][..i] == updates[..i];
      }
      assert updates[..|updates|] == updates;
      count := |updates|;
    }

    /** `set_scan_status_if_current`. */
    method SetScanStatusIfCurrent(current: Status, next: Status) returns (changed: bool)
      modifies `status
      ensures changed <==> old(status) == current
      ensures View() == if changed then old(View()).(status := next) else old(View())
    {
      changed := status == current;
      if changed {
        status := next;
      }
    }
  }
}
