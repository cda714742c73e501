/**
 Whole runs of a workflow: many workers claim, finish and give up jobs in any interleaving, each
 working from a snapshot that may be arbitrarily old.
 */
module QueueRuns {
  import opened WorkflowQueue
  import opened QueueProperties

  /** The step job rows of a scan: the completed keys, and the keys a worker is running. */
  datatype Moment = Moment(done: set<Key>, running: set<Key>)

  /** What a worker does in one transaction; a claim names the moment its snapshot was taken. */
  datatype Event =
    | Claim(job: Job, snapshot: nat)
    | Finish(key: Key)
    | Release(key: Key) // the job failed, was interrupted, or lost its worker

  datatype History = History(moments: seq<Moment>, events: seq<Event>)

  /** A workflow run: its workload, and the rows each job writes when it finishes. */
  datatype Run = Run(workload: Workload, rows: Key -> seq<Row>)

  ghost function ProgressAt(run: Run, m: Moment): Progress {
    Progress(KeysOf(m.done), run.rows)
  }

  function JobKey(job: Job): Key {
    TaskKey(job, job.state.repeatRun)
  }

  /** The effect of an event; `claim_step_metadata` re-checks the key, not the snapshot. */
  ghost predicate Step(run: Run, h: History, t: nat)
    requires t < |h.events| < |h.moments|
  {
    var m, n := h.moments[t], h.moments[t + 1];
    match h.events[t]
    case Claim(job, u) =>
      && u <= t
      && job in Pending(run.workload, ProgressAt(run, h.moments[u]), iset{})
      && JobKey(job) !in m.done + m.running
      && n == Moment(m.done, m.running + {JobKey(job)})
    case Finish(k) => k in m.running && n == Moment(m.done + {k}, m.running - {k})
    case Release(k) => k in m.running && n == Moment(m.done, m.running - {k})
  }

  ghost predicate Valid(run: Run, h: History) {
    && StageGrows(run.workload)
    && |h.moments| == |h.events| + 1
    && h.moments[0] == Moment({}, {})
    && forall t | 0 <= t < |h.events| :: Step(run, h, t)
  }

  // ---- Snapshots ----

  lemma {:induction false} Monotone(run: Run, h: History, u: nat, t: nat)
    requires Valid(run, h) && u <= t < |h.moments|
    ensures h.moments[u].done <= h.moments[t].done
    ensures Extends(ProgressAt(run, h.moments[u]), ProgressAt(run, h.moments[t]))
  {
    if u < t {
      Monotone(run, h, u, t - 1);
      assert Step(run, h, t - 1);
    }
  }

  /**
   A claim made from a stale snapshot is exact: when it is granted, the job it claims is on the list
   the scheduler would compute from the current state, with the same context.
   */
  lemma StaleClaimIsExact(run: Run, h: History, t: nat)
    requires Valid(run, h) && t < |h.events| && h.events[t].Claim?
    ensures h.events[t].job in Pending(
              run.workload, ProgressAt(run, h.moments[t]),
              KeysOf(h.moments[t].done + h.moments[t].running))
  {
    assert Step(run, h, t);
    var job, u := h.events[t].job, h.events[t].snapshot;
    var p, q := ProgressAt(run, h.moments[u]), ProgressAt(run, h.moments[t]);
    Monotone(run, h, u, t);
    PendingIsReady(run.workload, p, iset{}, job);
    var task :| Visited(run.workload, p, task) && Ready(job, task, p, iset{}, run.workload.runs);
    var i: nat :| i < run.workload.depths && VisitedAt(run.workload, p, i, task);
    TasksPersist(run.workload, p, q, i);
    assert VisitedAt(run.workload, q, i, task);
    var claimed := KeysOf(h.moments[t].done + h.moments[t].running);
    assert Ready(job, task, q, claimed, run.workload.runs);
    PendingIsReady(run.workload, q, claimed, job);
  }

  // ---- The keys of the plain reading ----

  ghost function TaskKeys(tasks: seq<Job>, runs: nat): set<Key> {
    set t, r | t in tasks && 1 <= r <= runs :: TaskKey(t, r)
  }

  ghost function KeysBelow(run: Run, n: nat): set<Key> {
    if n == 0 then {}
    else KeysBelow(run, n - 1) + TaskKeys(PlainTasks(run.workload, run.rows, n - 1), run.workload.runs)
  }

  /** Every job key of the workflow, read without barriers or bookkeeping. */
  ghost function PlainKeys(run: Run): set<Key> {
    KeysBelow(run, run.workload.depths)
  }

  lemma {:induction false} KeysBelowMember(run: Run, i: nat, n: nat)
    requires i < n
    ensures TaskKeys(PlainTasks(run.workload, run.rows, i), run.workload.runs) <= KeysBelow(run, n)
  {
    if i < n - 1 {
      KeysBelowMember(run, i, n - 1);
    }
  }

  lemma ClaimIsPlain(run: Run, h: History, t: nat)
    requires Valid(run, h) && t < |h.events| && h.events[t].Claim?
    ensures JobKey(h.events[t].job) in PlainKeys(run)
  {
    var job := h.events[t].job;
    var p, claimed := ProgressAt(run, h.moments[t]), KeysOf(h.moments[t].done + h.moments[t].running);
    StaleClaimIsExact(run, h, t);
    PendingIsReady(run.workload, p, claimed, job);
    var task :| Visited(run.workload, p, task) && Ready(job, task, p, claimed, run.workload.runs);
    var i: nat :| i < run.workload.depths && VisitedAt(run.workload, p, i, task);
    VisitedIsPlain(run.workload, p, i);
    assert JobKey(job) == TaskKey(task, job.state.repeatRun);
    KeysBelowMember(run, i, run.workload.depths);
  }

  /** In every reachable state: no key is both finished and running, and every key is a plain one. */
  lemma {:induction false} KeysStayPlain(run: Run, h: History, t: nat)
    requires Valid(run, h) && t < |h.moments|
    ensures h.moments[t].done !! h.moments[t].running
    ensures h.moments[t].done + h.moments[t].running <= PlainKeys(run)
  {
    if t > 0 {
      KeysStayPlain(run, h, t - 1);
      assert Step(run, h, t - 1);
      if h.events[t - 1].Claim? {
        ClaimIsPlain(run, h, t - 1);
      }
    }
  }

  // ---- Draining, and the hand-over to post-processing ----

  ghost predicate Drained(run: Run, m: Moment) {
    m.running == {} && Pending(run.workload, ProgressAt(run, m), KeysOf(m.done)) == []
  }

  lemma DoneKeys(tasks: seq<Job>, p: Progress, runs: nat, done: set<Key>)
    requires AllDone(tasks, p, runs) && forall k :: k in p.done <==> k in done
    ensures TaskKeys(tasks, runs) <= done
  {
    forall t, r | t in tasks && 1 <= r <= runs ensures TaskKey(t, r) in done {
      assert TaskDone(t, p.done, runs);
    }
  }

  lemma FinishedDepth(run: Run, m: Moment, i: nat)
    requires i < run.workload.depths && AllFinished(run.workload, ProgressAt(run, m))
    ensures TaskKeys(PlainTasks(run.workload, run.rows, i), run.workload.runs) <= m.done
  {
    var p := ProgressAt(run, m);
    CompleteMeansDone(run.workload, p, i);
    CompleteIsPlain(run.workload, p, i);
    assert DoneAt(run.workload, p, i);
    DoneKeys(PlainTasks(run.workload, run.rows, i), p, run.workload.runs, m.done);
  }

  lemma {:induction false} FinishedKeys(run: Run, m: Moment, n: nat)
    requires n <= run.workload.depths && AllFinished(run.workload, ProgressAt(run, m))
    ensures KeysBelow(run, n) <= m.done
  {
    if n > 0 {
      FinishedKeys(run, m, n - 1);
      FinishedDepth(run, m, n - 1);
    }
  }

  /** A drained run has finished every job of the workflow, and nothing else. */
  lemma DrainedIsPlain(run: Run, h: History, t: nat)
    requires Valid(run, h) && t < |h.moments| && Drained(run, h.moments[t])
    ensures h.moments[t].done == PlainKeys(run)
  {
    KeysStayPlain(run, h, t);
    DrainedIff(run.workload, ProgressAt(run, h.moments[t]));
    FinishedKeys(run, h.moments[t], run.workload.depths);
  }

  /** Whatever the order of the completions, two drained runs have finished the same jobs. */
  lemma OrderDoesNotMatter(run: Run, g: History, h: History, s: nat, t: nat)
    requires Valid(run, g) && Valid(run, h) && s < |g.moments| && t < |h.moments|
    requires Drained(run, g.moments[s]) && Drained(run, h.moments[t])
    ensures g.moments[s] == h.moments[t]
  {
    DrainedIsPlain(run, g, s);
    DrainedIsPlain(run, h, t);
  }

  /** How many completions a run has made. */
  function Completions(events: seq<Event>): nat {
    if events == [] then 0
    else Completions(events[..|events| - 1]) + (if events[|events| - 1].Finish? then 1 else 0)
  }

  /** A run stops: it makes at most one completion per job of the workflow. */
  lemma CompletionsBounded(run: Run, h: History)
    requires Valid(run, h)
    ensures Completions(h.events) <= |PlainKeys(run)|
  {
    var n := |h.events|;
    CompletionsCount(run, h, n);
    KeysStayPlain(run, h, n);
    Sorting.SubsetCount(h.moments[n].done, PlainKeys(run));
    assert h.events[..n] == h.events;
  }

  lemma {:induction false} CompletionsCount(run: Run, h: History, t: nat)
    requires Valid(run, h) && t < |h.moments|
    ensures Completions(h.events[..t]) == |h.moments[t].done|
  {
    if t > 0 {
      CompletionsCount(run, h, t - 1);
      KeysStayPlain(run, h, t - 1);
      assert Step(run, h, t - 1);
      assert h.events[..t][..t - 1] == h.events[..t - 1];
      match h.events[t - 1]
      case Finish(k) => assert k !in h.moments[t - 1].done;
      case _ =>
    }
  }

  /** A drained run stays as it is: nothing is running, and no snapshot of it yields a claimable job. */
  lemma {:induction false} DrainedStays(run: Run, h: History, v: nat, t: nat)
    requires Valid(run, h) && v <= t < |h.moments| && Drained(run, h.moments[v])
    ensures h.moments[t] == h.moments[v]
  {
    if v < t {
      DrainedStays(run, h, v, t - 1);
      assert Step(run, h, t - 1);
      assert h.moments[v].done + h.moments[v].running == h.moments[v].done;
      if h.events[t - 1].Claim? {
        StaleClaimIsExact(run, h, t - 1);
        assert false;
      }
    }
  }

  // ---- Every run can be drained ----

  function Grown(h: History, e: Event, m: Moment): History {
    History(h.moments + [m], h.events + [e])
  }

  lemma {:induction false} GrownIsValid(run: Run, h: History, e: Event, m: Moment)
    requires Valid(run, h) && Step(run, Grown(h, e, m), |h.events|)
    ensures Valid(run, Grown(h, e, m))
  {
    var g := Grown(h, e, m);
    forall t | 0 <= t < |g.events| ensures Step(run, g, t) {
      if t < |h.events| {
        assert Step(run, h, t);
        assert g.moments[t] == h.moments[t] && g.moments[t + 1] == h.moments[t + 1] && g.events[t] == h.events[t];
      }
    }
  }

  ghost predicate Extended(h: History, g: History) {
    h.moments <= g.moments && h.events <= g.events
  }

  function Last(h: History): Moment
    requires h.moments != []
  {
    h.moments[|h.moments| - 1]
  }

  /** The job of a pending task is claimed and finished. */
  lemma {:induction false} FinishOne(run: Run, h: History, job: Job) returns (g: History)
    requires Valid(run, h) && Last(h).running == {}
    requires job in Pending(run.workload, ProgressAt(run, Last(h)), KeysOf(Last(h).done))
    ensures Valid(run, g) && Extended(h, g)
    ensures JobKey(job) !in Last(h).done && Last(g) == Moment(Last(h).done + {JobKey(job)}, {})
  {
    var m, k, n := Last(h), JobKey(job), |h.events|;
    PendingNotClaimed(run.workload, ProgressAt(run, m), KeysOf(m.done), job);
    var claimed := Grown(h, Claim(job, n), Moment(m.done, {k}));
    assert m.running + {k} == {k};
    GrownIsValid(run, h, Claim(job, n), Moment(m.done, {k}));
    assert {k} - {k} == {};
    GrownIsValid(run, claimed, Finish(k), Moment(m.done + {k}, {}));
    g := Grown(claimed, Finish(k), Moment(m.done + {k}, {}));
  }

  lemma PendingNotClaimed(w: Workload, p: Progress, claimed: iset<Key>, job: Job)
    requires job in Pending(w, p, claimed)
    ensures JobKey(job) !in claimed && job in Pending(w, p, iset{})
  {
    PendingIsReady(w, p, claimed, job);
    var task :| Visited(w, p, task) && Ready(job, task, p, claimed, w.runs);
    assert Ready(job, task, p, iset{}, w.runs);
    PendingIsReady(w, p, iset{}, job);
  }

  /** Whatever is running may be given up. */
  lemma {:induction false} GiveUpAll(run: Run, h: History) returns (g: History)
    requires Valid(run, h)
    ensures Valid(run, g) && Extended(h, g) && Last(g) == Moment(Last(h).done, {})
    decreases Last(h).running
  {
    g := h;
    if k :| k in Last(h).running {
      var m := Moment(Last(h).done, Last(h).running - {k});
      GrownIsValid(run, h, Release(k), m);
      g := GiveUpAll(run, Grown(h, Release(k), m));
    }
  }

  lemma {:induction false} FewerKeys(all: set<Key>, done: set<Key>, k: Key)
    requires done + {k} <= all && k !in done
    ensures |all - (done + {k})| < |all - done|
  {
    assert all - done == (all - (done + {k})) + {k};
  }

  lemma {:induction false} IdleDrains(run: Run, h: History) returns (g: History)
    requires Valid(run, h) && Last(h).running == {}
    ensures Valid(run, g) && Extended(h, g) && Drained(run, Last(g))
    decreases |PlainKeys(run) - Last(h).done|
  {
    g := h;
    var pending := Pending(run.workload, ProgressAt(run, Last(h)), KeysOf(Last(h).done));
    if pending != [] {
      var next := FinishOne(run, h, pending[0]);
      KeysStayPlain(run, next, |next.moments| - 1);
      FewerKeys(PlainKeys(run), Last(h).done, JobKey(pending[0]));
      g := IdleDrains(run, next);
    } else {
      assert Last(h).done + Last(h).running == Last(h).done;
    }
  }

  /** Every run can be continued until it is drained. */
  lemma EveryRunCanDrain(run: Run, h: History) returns (g: History)
    requires Valid(run, h)
    ensures Valid(run, g) && Extended(h, g) && Drained(run, g.moments[|g.moments| - 1])
  {
    g := GiveUpAll(run, h);
    g := IdleDrains(run, g);
  }

  /** A worker that holds more keys back is offered a part of the same list, so its runs are runs of the model. */
  lemma HoldingBackOffersLess(w: Workload, p: Progress, claimed: iset<Key>, skipped: iset<Key>, job: Job)
    requires job in Pending(w, p, claimed + skipped)
    ensures job in Pending(w, p, claimed) && TaskKey(job, job.state.repeatRun) !in skipped
  {
    PendingIsReady(w, p, claimed + skipped, job);
    var t :| Visited(w, p, t) && Ready(job, t, p, claimed + skipped, w.runs);
    assert Ready(job, t, p, claimed, w.runs);
    PendingIsReady(w, p, claimed, job);
  }

  /**
   The worker that starts post-processing read the completed keys at `u`, the claimed keys at a later
   `v`, added attempted keys of steps that are not tried again, whichever these are, found the sets
   equal and found no job to start. Whatever happened in between, and whatever happens until it changes
   the status at `t`: no job is in flight and every job of the workflow has finished.
   */
  lemma HandOverIsSafe(run: Run, h: History, u: nat, v: nat, t: nat, skipped: set<Key>)
    requires Valid(run, h) && u <= v <= t < |h.moments|
    requires h.moments[v].done + h.moments[v].running + skipped == h.moments[u].done
    requires Pending(
      run.workload, ProgressAt(run, h.moments[u]),
      KeysOf(h.moments[v].done + h.moments[v].running + skipped)) == []
    ensures h.moments[t].running == {} && h.moments[t].done == PlainKeys(run)
  {
    Monotone(run, h, u, v);
    KeysStayPlain(run, h, v);
    var claimed := h.moments[v].done + h.moments[v].running;
    assert claimed + skipped == claimed;
    assert h.moments[v].done == h.moments[u].done;
    assert h.moments[v].running == {};
    DrainedIsPlain(run, h, v);
    DrainedStays(run, h, v, t);
  }

  // ---- The database view ----

  /** Only the rows of finished jobs are looked at. */
  lemma {:induction false} FrontsAgree(w: Workload, p: Progress, q: Progress, i: nat)
    requires Extends(p, q) && Extends(q, p)
    ensures FrontAt(w, p, i) == FrontAt(w, q, i)
    decreases i
  {
    if i > 0 {
      FrontsAgree(w, p, q, i - 1);
      OutputsAgree(TasksAt(w, p, i - 1), p, q, w.runs);
    }
  }

  lemma {:induction false} OutputsAgree(tasks: seq<Job>, p: Progress, q: Progress, runs: nat)
    requires Extends(p, q) && Extends(q, p)
    ensures DepthOutputs(tasks, p, runs) == DepthOutputs(tasks, q, runs)
    ensures AllDone(tasks, p, runs) == AllDone(tasks, q, runs)
  {
    if tasks != [] {
      OutputsAgree(tasks[1..], p, q, runs);
      if TaskDone(tasks[0], p.done, runs) {
        OutputsStable(tasks[0], p, q, runs);
      }
    }
  }

  lemma {:induction false} OffersAgree(
    tasks: seq<Job>, p: Progress, q: Progress, claimed: iset<Key>, runs: nat)
    requires p.done == q.done
    ensures Offers(tasks, p, claimed, runs) == Offers(tasks, q, claimed, runs)
  {
    if tasks != [] {
      OffersAgree(tasks[1..], p, q, claimed, runs);
    }
  }

  lemma {:induction false} PendingAgrees(w: Workload, p: Progress, q: Progress, claimed: iset<Key>, n: nat)
    requires Extends(p, q) && Extends(q, p)
    ensures PendingBelow(w, p, claimed, n) == PendingBelow(w, q, claimed, n)
    decreases n
  {
    if n > 0 {
      PendingAgrees(w, p, q, claimed, n - 1);
      FrontsAgree(w, p, q, n - 1);
      OffersAgree(TasksAt(w, p, n - 1), p, q, claimed, w.runs);
    }
  }

  /** The list `BuildPendingJobs` sorts is the pending list of the run, whatever else the tables hold. */
  lemma DatabaseViewAgrees(run: Run, m: Moment, results: map<Key, seq<Row>>, claimed: set<Key>)
    requires forall k | k in m.done :: RowsIn(results)(k) == run.rows(k)
    ensures Pending(run.workload, ProgressOf(m.done, results), KeysOf(claimed))
         == Pending(run.workload, ProgressAt(run, m), KeysOf(claimed))
  {
    PendingAgrees(
      run.workload, ProgressOf(m.done, results), ProgressAt(run, m), KeysOf(claimed), run.workload.depths);
  }
}
