/**
 Metadata rows and the job ledger of a scan (engine/open_kritt_engine/db.py, `claim_logical_job_slot`,
 `claim_step_metadata`, `claim_post_process_metadata`), each transaction as one step.
 */
module JobLedger {
  import opened Wrappers
  import opened Findings
  import Queue = WorkflowQueue

  datatype Status = Prewarming | Running | PostProcessing | Completed | Stopped | Paused | Failed | RateLimited | Queued

  /** What a job limit counts: a step key, a batch of a kind, or a finding under a script. */
  datatype Job = StepJob(key: Queue.Key) | BatchJob(kind: Kind, index: nat) | ScriptJob(finding: Id, script: nat)

  datatype State = Live | Done | Abandoned

  datatype Meta = Meta(job: Job, state: State)

  datatype Ledger = Ledger(status: Status, limit: Option<nat>, started: nat, next: nat, metas: map<nat, Meta>)

  predicate Claimable(s: Status) {
    s.Prewarming? || s.Running? || s.PostProcessing?
  }

  function Jobs(l: Ledger): set<Job> {
    set id | id in l.metas :: l.metas[id].job
  }

  predicate IsLive(l: Ledger, id: nat) {
    id in l.metas && l.metas[id].state.Live?
  }

  predicate AnyLive(l: Ledger) {
    exists id | id in l.metas :: l.metas[id].state.Live?
  }

  predicate LiveBatch(l: Ledger, kind: Kind) {
    exists id | id in l.metas :: l.metas[id].state.Live? && l.metas[id].job.BatchJob? && l.metas[id].job.kind == kind
  }

  predicate LiveScript(l: Ledger) {
    exists id | id in l.metas :: l.metas[id].state.Live? && l.metas[id].job.ScriptJob?
  }

  /** A running or completed row of the job. */
  predicate Taken(l: Ledger, job: Job) {
    exists id | id in l.metas :: l.metas[id].job == job && !l.metas[id].state.Abandoned?
  }

  /** The row a claim refuses on: for batches also any running batch of the kind. */
  predicate Blocked(l: Ledger, job: Job) {
    match job
    case BatchJob(kind, index) =>
      LiveBatch(l, kind) || exists id | id in l.metas :: l.metas[id] == Meta(job, Done)
    case _ => Taken(l, job)
  }

  // ---- Transactions ----

  /** `claim_logical_job_slot`: a retry is free; at the limit nothing starts, and an idle scan stops. */
  function ClaimSlot(l: Ledger, alreadyStarted: bool): (Ledger, bool) {
    if alreadyStarted then (l, true)
    else if l.limit.Some? && l.started >= l.limit.value then
      (if AnyLive(l) || !Claimable(l.status) then l else l.(status := Stopped), false)
    else (l.(started := l.started + 1), true)
  }

  function Insert(l: Ledger, job: Job): Ledger {
    l.(next := l.next + 1, metas := l.metas[l.next := Meta(job, Live)])
  }

  /** A claim: the ledger after it, and the id of the new row if there is one. */
  function Claim(l: Ledger, job: Job, eligible: bool): (Ledger, Option<nat>) {
    if !Claimable(l.status) || Blocked(l, job) || !eligible then (l, None)
    else
      var (paid, ok) := ClaimSlot(l, job in Jobs(l));
      if ok then (Insert(paid, job), Some(paid.next)) else (paid, None)
  }

  /** A worker, or the clean-up of a dead worker's rows, ends a running row. */
  function Settle(l: Ledger, id: nat, ok: bool): Ledger
    requires IsLive(l, id)
  {
    l.(metas := l.metas[id := l.metas[id].(state := if ok then Done else Abandoned)])
  }

  // ---- The ledger's invariant ----

  ghost predicate Conserved(l: Ledger) {
    && l.started == |Jobs(l)|
    && (l.limit.Some? ==> l.started <= l.limit.value)
    && (forall id | id in l.metas :: id < l.next)
  }

  /** No job has two rows running or completed, and no kind has two batches running. */
  ghost predicate Exclusive(l: Ledger) {
    && (forall a, b | a in l.metas && b in l.metas && a != b && l.metas[a].job == l.metas[b].job ::
          l.metas[a].state.Abandoned? || l.metas[b].state.Abandoned?)
    && (forall a, b | IsLive(l, a) && IsLive(l, b) && a != b :: !SameKind(l.metas[a].job, l.metas[b].job))
  }

  predicate SameKind(a: Job, b: Job) {
    a.BatchJob? && b.BatchJob? && a.kind == b.kind
  }

  ghost predicate LedgerOk(l: Ledger) {
    Conserved(l) && Exclusive(l)
  }

  lemma InsertedJobs(l: Ledger, job: Job)
    requires l.next !in l.metas
    ensures Jobs(Insert(l, job)) == Jobs(l) + {job}
  {
    var after := Insert(l, job);
    forall id | id in after.metas ensures after.metas[id].job in Jobs(l) + {job} {
      if id != l.next {
        assert l.metas[id].job in Jobs(l);
      }
    }
    forall j | j in Jobs(l) + {job} ensures j in Jobs(after) {
      if j == job {
        assert after.metas[l.next].job == job;
      } else {
        var id :| id in l.metas && l.metas[id].job == j;
        assert after.metas[id].job == j;
      }
    }
  }

  /** A successful claim pays one slot for a new job and none for a retry. */
  lemma ClaimPays(l: Ledger, job: Job, eligible: bool)
    requires Conserved(l)
    ensures Conserved(Claim(l, job, eligible).0)
    ensures Claim(l, job, eligible).1.Some? ==>
      Claim(l, job, eligible).0.started == l.started + (if job in Jobs(l) then 0 else 1)
    ensures Claim(l, job, eligible).1.None? ==>
      Claim(l, job, eligible).0.started == l.started && Claim(l, job, eligible).0.metas == l.metas
  {
    var (paid, ok) := ClaimSlot(l, job in Jobs(l));
    if Claim(l, job, eligible).1.Some? {
      InsertedJobs(paid, job);
      assert Jobs(paid) == Jobs(l);
      if job in Jobs(l) {
        assert Jobs(l) + {job} == Jobs(l);
      }
    } else {
      assert Jobs(Claim(l, job, eligible).0) == Jobs(l);
    }
  }

  lemma InsertExcludes(l: Ledger, job: Job)
    requires Exclusive(l) && l.next !in l.metas
    requires forall a | a in l.metas && l.metas[a].job == job :: l.metas[a].state.Abandoned?
    requires forall a | IsLive(l, a) :: !SameKind(l.metas[a].job, job)
    ensures Exclusive(Insert(l, job))
  {
  }

  lemma UnblockedMeans(l: Ledger, job: Job)
    requires !Blocked(l, job) && Exclusive(l)
    ensures forall a | a in l.metas && l.metas[a].job == job :: l.metas[a].state.Abandoned?
    ensures forall a | IsLive(l, a) :: !SameKind(l.metas[a].job, job)
  {
  }

  lemma ClaimExcludes(l: Ledger, job: Job, eligible: bool)
    requires LedgerOk(l)
    ensures Exclusive(Claim(l, job, eligible).0)
  {
    var (paid, ok) := ClaimSlot(l, job in Jobs(l));
    assert Exclusive(paid) && paid.metas == l.metas && paid.next == l.next;
    if Claim(l, job, eligible).1.Some? {
      UnblockedMeans(l, job);
      InsertExcludes(paid, job);
    }
  }

  lemma ClaimKeeps(l: Ledger, job: Job, eligible: bool)
    requires LedgerOk(l)
    ensures LedgerOk(Claim(l, job, eligible).0)
  {
    ClaimPays(l, job, eligible);
    ClaimExcludes(l, job, eligible);
  }

  lemma SettleKeeps(l: Ledger, id: nat, ok: bool)
    requires LedgerOk(l) && IsLive(l, id)
    ensures LedgerOk(Settle(l, id, ok))
    ensures Jobs(Settle(l, id, ok)) == Jobs(l)
  {
    var after := Settle(l, id, ok);
    forall j ensures j in Jobs(after) <==> j in Jobs(l) {
      if j in Jobs(l) {
        var i :| i in l.metas && l.metas[i].job == j;
        assert after.metas[i].job == j;
      }
      if j in Jobs(after) {
        var i :| i in after.metas && after.metas[i].job == j;
        assert l.metas[i].job == j;
      }
    }
    assert Jobs(after) == Jobs(l);
  }

  // ---- Runs of the ledger ----

  datatype Op =
    | ClaimOp(job: Job, eligible: bool)
    | SettleOp(id: nat, ok: bool)
    | StatusOp(status: Status)

  ghost predicate OpEnabled(l: Ledger, op: Op) {
    op.SettleOp? ==> IsLive(l, op.id)
  }

  function Apply(l: Ledger, op: Op): Ledger
    requires op.SettleOp? ==> IsLive(l, op.id)
  {
    match op
    case ClaimOp(job, eligible) => Claim(l, job, eligible).0
    case SettleOp(id, ok) => Settle(l, id, ok)
    case StatusOp(status) => l.(status := status)
  }

  ghost predicate LedgerRun(states: seq<Ledger>, ops: seq<Op>) {
    && |states| == |ops| + 1
    && states[0].started == 0 && states[0].metas == map[]
    && forall i | 0 <= i < |ops| :: OpEnabled(states[i], ops[i]) && states[i + 1] == Apply(states[i], ops[i])
  }

  /** In every run: jobs started are the distinct jobs with a row, within the fixed limit, none taken twice. */
  lemma {:induction false} LedgerHolds(states: seq<Ledger>, ops: seq<Op>, i: nat)
    requires LedgerRun(states, ops) && i < |states|
    ensures LedgerOk(states[i]) && states[i].limit == states[0].limit
  {
    if i == 0 {
      assert Jobs(states[0]) == {};
    } else {
      LedgerHolds(states, ops, i - 1);
      var l, op := states[i - 1], ops[i - 1];
      assert OpEnabled(l, op);
      match op
      case ClaimOp(job, eligible) => ClaimKeeps(l, job, eligible);
      case SettleOp(id, ok) => SettleKeeps(l, id, ok);
      case StatusOp(status) => assert Jobs(states[i]) == Jobs(l);
    }
  }

  // ---- When a claim succeeds ----

  /** No row stands in the way: none running or completed of the job; of a batch, none running of its kind. */
  ghost predicate Free(l: Ledger, job: Job) {
    forall id | id in l.metas ::
      var m := l.metas[id];
      if job.BatchJob? then
        && !(m.job.BatchJob? && m.job.kind == job.kind && m.state == Live)
        && !(m.job == job && m.state == Done)
      else m.job == job ==> m.state == Abandoned
  }

  /** The job has had a row before. */
  ghost predicate Started(l: Ledger, job: Job) {
    exists id :: id in l.metas && l.metas[id].job == job
  }

  /** A claim that nothing but the limit can refuse. */
  ghost predicate Open(l: Ledger, job: Job, eligible: bool) {
    l.status in {Prewarming, Running, PostProcessing} && Free(l, job) && eligible
  }

  lemma FreeIffUnblocked(l: Ledger, job: Job)
    ensures Free(l, job) <==> !Blocked(l, job)
  {
    if !Free(l, job) {
      var id :| id in l.metas && !(
        var m := l.metas[id];
        if job.BatchJob? then
          && !(m.job.BatchJob? && m.job.kind == job.kind && m.state == Live)
          && !(m.job == job && m.state == Done)
        else m.job == job ==> m.state == Abandoned);
      assert l.metas[id] == Meta(l.metas[id].job, l.metas[id].state);
    }
  }

  lemma StartedIffCounted(l: Ledger, job: Job)
    ensures Started(l, job) <==> job in Jobs(l)
  {
    if Started(l, job) {
      var id :| id in l.metas && l.metas[id].job == job;
      assert l.metas[id].job in Jobs(l);
    }
  }

  /**
   A claim succeeds exactly when the scan is active, no row stands in the way, the claim is eligible,
   and the job was started before or fewer jobs are started than the limit allows. It then adds one
   running row under the next id.
   */
  lemma ClaimSucceedsIff(l: Ledger, job: Job, eligible: bool)
    requires LedgerOk(l)
    ensures Claim(l, job, eligible).1.Some? <==>
      Open(l, job, eligible) && (Started(l, job) || l.limit.None? || |Jobs(l)| < l.limit.value)
    ensures Claim(l, job, eligible).1.Some? ==>
      && Claim(l, job, eligible).1 == Some(l.next) && l.next !in l.metas
      && Claim(l, job, eligible).0.metas == l.metas[l.next := Meta(job, Live)]
      && Claim(l, job, eligible).0.next == l.next + 1
      && Claim(l, job, eligible).0.status == l.status && Claim(l, job, eligible).0.limit == l.limit
  {
    FreeIffUnblocked(l, job);
    StartedIffCounted(l, job);
  }

  /** A claim stops the scan exactly when it would start one job more than the limit and nothing is running. */
  lemma ClaimStopsIff(l: Ledger, job: Job, eligible: bool)
    requires LedgerOk(l)
    ensures Claim(l, job, eligible).0.status != l.status <==>
      && Open(l, job, eligible) && !Started(l, job) && l.limit == Some(|Jobs(l)|)
      && forall id | id in l.metas :: l.metas[id].state != Live
    ensures Claim(l, job, eligible).0.status != l.status ==> Claim(l, job, eligible) == (l.(status := Stopped), None)
    ensures Claim(l, job, eligible).1.None? && Claim(l, job, eligible).0.status == l.status ==>
      Claim(l, job, eligible) == (l, None)
  {
    FreeIffUnblocked(l, job);
    StartedIffCounted(l, job);
  }

  /** An ended row is completed or abandoned; its job, all other rows and the counters stay. */
  lemma SettleIs(l: Ledger, id: nat, ok: bool, other: nat)
    requires IsLive(l, id)
    ensures Settle(l, id, ok).metas.Keys == l.metas.Keys && Settle(l, id, ok).metas[id].job == l.metas[id].job
    ensures Settle(l, id, ok).metas[id].state == Done <==> ok
    ensures Settle(l, id, ok).metas[id].state == Abandoned <==> !ok
    ensures other in l.metas && other != id ==> Settle(l, id, ok).metas[other] == l.metas[other]
    ensures Settle(l, id, ok).(metas := l.metas) == l
  {
  }

  /** At the limit no new job starts, retries still do, and the scan stops once nothing is running. */
  lemma LimitHolds(l: Ledger, job: Job)
    requires LedgerOk(l) && l.limit == Some(l.started) && Claimable(l.status) && !Blocked(l, job)
    ensures job in Jobs(l) <==> Claim(l, job, true).1.Some?
    ensures job !in Jobs(l) ==> (Claim(l, job, true).0.status.Stopped? <==> !AnyLive(l))
  {
  }
}
