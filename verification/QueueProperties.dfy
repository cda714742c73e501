/**
 What the scheduler guarantees about every scan, at one moment and between two moments of a run.
 */
module QueueProperties {
  import opened JsonValues
  import opened WorkflowQueue
  import opened Sorting

  /** Later progress: more keys are done, and a finished key keeps the rows it wrote. */
  ghost predicate Extends(p: Progress, q: Progress) {
    p.done <= q.done && forall k | k in p.done :: q.rows(k) == p.rows(k)
  }

  function StepTag(s: Step): int {
    s.id
  }

  ghost predicate UniqueIds(steps: seq<Step>) {
    Distinct(steps, StepTag)
  }

  /** Row ids are a primary key: a row id names one position of one job's rows. */
  ghost predicate UniqueRows(rows: Key -> seq<Row>) {
    forall k, l, i, j | 0 <= i < |rows(k)| && 0 <= j < |rows(l)| && rows(k)[i].id == rows(l)[j].id ::
      k == l && i == j
  }

  // ---- Membership ----

  predicate Accepts(step: Step, s: State) {
    step.boundSource.None? || s.source == step.boundSource
  }

  lemma {:induction false} RouteMember(step: Step, states: seq<State>, s: State)
    ensures s in Route(step, states) <==> s in states && Accepts(step, s)
  {
    if states != [] {
      RouteMember(step, states[1..], s);
      assert s in states <==> s == states[0] || s in states[1..];
    }
  }

  lemma {:induction false} TasksMember(steps: seq<Step>, states: seq<State>, t: Job)
    ensures t in Tasks(steps, states) <==> t.step in steps && t.state in states && Accepts(t.step, t.state)
  {
    if steps != [] {
      TasksMember(steps[1..], states, t);
      var routed := Route(steps[0], states);
      RouteMember(steps[0], states, t.state);
      assert t.step in steps <==> t.step == steps[0] || t.step in steps[1..];
      assert t in TasksOf(steps[0], routed) <==> t.step == steps[0] && t.state in routed by {
        if t.step == steps[0] && t.state in routed {
          var i :| 0 <= i < |routed| && routed[i] == t.state;
          assert TasksOf(steps[0], routed)[i] == t;
        }
      }
    }
  }

  lemma {:induction false} OutputsMember(task: Job, rows: Key -> seq<Row>, runs: nat, s: State)
    ensures s in Outputs(task, rows, runs) <==>
            (!task.step.isLast && exists r, j ::
               1 <= r <= runs && 0 <= j < |rows(TaskKey(task, r))| &&
               s == NextState(task.step, task.state, rows(TaskKey(task, r))[j]))
  {
    if runs > 0 {
      OutputsMember(task, rows, runs - 1, s);
      var last := NextStates(task, rows(TaskKey(task, runs)));
      if s in last {
        var j :| 0 <= j < |last| && last[j] == s;
        assert rows(TaskKey(task, runs))[j] == rows(TaskKey(task, runs))[j];
      }
      if !task.step.isLast {
        forall j | 0 <= j < |rows(TaskKey(task, runs))|
          ensures NextState(task.step, task.state, rows(TaskKey(task, runs))[j]) in last
        {
          assert last[j] in last;
        }
      }
    }
  }

  lemma {:induction false} DepthOutputsMember(tasks: seq<Job>, p: Progress, runs: nat, s: State)
    ensures s in DepthOutputs(tasks, p, runs) <==>
            exists t :: t in tasks && TaskDone(t, p.done, runs) && s in Outputs(t, p.rows, runs)
  {
    if tasks != [] {
      DepthOutputsMember(tasks[1..], p, runs, s);
      assert forall t :: t in tasks <==> t == tasks[0] || t in tasks[1..];
    }
  }

  lemma {:induction false} OffersMember(tasks: seq<Job>, p: Progress, claimed: iset<Key>, runs: nat, job: Job)
    ensures job in Offers(tasks, p, claimed, runs) <==>
            exists t :: t in tasks && job in Offer(t, p, claimed, runs)
  {
    if tasks != [] {
      OffersMember(tasks[1..], p, claimed, runs, job);
      assert forall t :: t in tasks <==> t == tasks[0] || t in tasks[1..];
    }
  }

  /** The walk visits `task` at the `i`-th depth. */
  ghost predicate VisitedAt(w: Workload, p: Progress, i: nat, task: Job) {
    task in TasksAt(w, p, i)
  }

  ghost predicate OfferedAt(
    w: Workload, p: Progress, claimed: iset<Key>, i: nat, job: Job)
  {
    exists t :: VisitedAt(w, p, i, t) && job in Offer(t, p, claimed, w.runs)
  }

  lemma {:induction false} PendingMember(
    w: Workload, p: Progress, claimed: iset<Key>, n: nat, job: Job)
    ensures job in PendingBelow(w, p, claimed, n) <==>
            exists i :: 0 <= i < n && OfferedAt(w, p, claimed, i, job)
  {
    if n > 0 {
      PendingMember(w, p, claimed, n - 1, job);
      var tasks := TasksAt(w, p, n - 1);
      OffersMember(tasks, p, claimed, w.runs, job);
      assert forall t :: t in tasks <==> VisitedAt(w, p, n - 1, t);
      assert OfferedAt(w, p, claimed, n - 1, job)
        <==> job in Offers(tasks, p, claimed, w.runs);
    }
  }

  /** `job` is repeat `r` of `task`, the first that is not done, and nobody holds it. */
  ghost predicate Ready(job: Job, task: Job, p: Progress, claimed: iset<Key>, runs: nat) {
    var r := job.state.repeatRun;
    && job == Job(task.step, StateForRepeat(task.state, r))
    && 1 <= r <= runs
    && (forall q | 1 <= q < r :: TaskKey(task, q) in p.done)
    && TaskKey(task, r) !in p.done
    && TaskKey(task, r) !in claimed
  }

  lemma OfferIsReady(task: Job, p: Progress, claimed: iset<Key>, runs: nat, job: Job)
    ensures job in Offer(task, p, claimed, runs) <==> Ready(job, task, p, claimed, runs)
  {
    var m := Missing(task, p.done, runs, 1);
    if Ready(job, task, p, claimed, runs) {
      var r := job.state.repeatRun;
      assert m == r by {
        assert m < r ==> TaskKey(task, m) in p.done;
        assert r < m ==> TaskKey(task, r) in p.done;
      }
    }
  }

  ghost predicate Visited(w: Workload, p: Progress, task: Job) {
    exists i :: 0 <= i < w.depths && VisitedAt(w, p, i, task)
  }

  /** A job is pending exactly when it is the first unfinished repeat of a visited task and unclaimed. */
  lemma PendingIsReady(w: Workload, p: Progress, claimed: iset<Key>, job: Job)
    ensures job in Pending(w, p, claimed) <==>
            exists t :: Visited(w, p, t) && Ready(job, t, p, claimed, w.runs)
  {
    PendingMember(w, p, claimed, w.depths, job);
    if job in Pending(w, p, claimed) {
      var i :| 0 <= i < w.depths && OfferedAt(w, p, claimed, i, job);
      var t :| VisitedAt(w, p, i, t) && job in Offer(t, p, claimed, w.runs);
      OfferIsReady(t, p, claimed, w.runs, job);
    }
    if t :| Visited(w, p, t) && Ready(job, t, p, claimed, w.runs) {
      var i: nat :| i < w.depths && VisitedAt(w, p, i, t);
      OfferIsReady(t, p, claimed, w.runs, job);
      assert OfferedAt(w, p, claimed, i, job);
    }
  }

  // ---- Stability between two moments ----

  lemma {:induction false} OutputsStable(task: Job, p: Progress, q: Progress, runs: nat)
    requires Extends(p, q) && TaskDone(task, p.done, runs)
    ensures TaskDone(task, q.done, runs)
    ensures Outputs(task, p.rows, runs) == Outputs(task, q.rows, runs)
  {
    if runs > 0 {
      OutputsStable(task, p, q, runs - 1);
    }
  }

  lemma {:induction false} DepthOutputsStable(tasks: seq<Job>, p: Progress, q: Progress, runs: nat)
    requires Extends(p, q) && AllDone(tasks, p, runs)
    ensures AllDone(tasks, q, runs) && DepthOutputs(tasks, p, runs) == DepthOutputs(tasks, q, runs)
  {
    if tasks != [] {
      assert tasks[0] in tasks;
      OutputsStable(tasks[0], p, q, runs);
      DepthOutputsStable(tasks[1..], p, q, runs);
    }
  }

  lemma DepthOutputsGrow(tasks: seq<Job>, more: seq<Job>, p: Progress, q: Progress, runs: nat)
    requires Extends(p, q) && forall t | t in tasks :: t in more
    ensures forall s | s in DepthOutputs(tasks, p, runs) :: s in DepthOutputs(more, q, runs)
  {
    forall s | s in DepthOutputs(tasks, p, runs) ensures s in DepthOutputs(more, q, runs) {
      DepthOutputsMember(tasks, p, runs, s);
      var t :| t in tasks && TaskDone(t, p.done, runs) && s in Outputs(t, p.rows, runs);
      OutputsStable(t, p, q, runs);
      DepthOutputsMember(more, q, runs, s);
    }
  }

  /** A depth that has received more visits more, and one that has received everything is settled. */
  ghost predicate Grows(f: Front, g: Front) {
    (f.complete ==> f == g) && forall s | s in f.states :: s in g.states
  }

  ghost predicate StageGrows(w: Workload) {
    forall i: nat, f: Front, g: Front, t: Job {:trigger w.stage(i, f), w.stage(i, g), t in w.stage(i, f)} ::
      Grows(f, g) && t in w.stage(i, f) ==> t in w.stage(i, g)
  }

  lemma LevelTasksGrow(scan: Scan, level: Level, f: Front, g: Front)
    requires Grows(f, g)
    ensures forall t | t in LevelTasks(scan, level, f) :: t in LevelTasks(scan, level, g)
  {
    forall t | t in LevelTasks(scan, level, f) ensures t in LevelTasks(scan, level, g) {
      TasksMember(level.steps, LevelInputs(scan, level, f), t);
      TasksMember(level.steps, LevelInputs(scan, level, g), t);
    }
  }

  /** Every workflow's walk grows. */
  lemma WorkflowGrows(scan: Scan, steps: seq<Step>)
    ensures StageGrows(WorkloadOf(scan, steps))
  {
    var w, plan := WorkloadOf(scan, steps), Plan(steps);
    forall i: nat, f: Front, g: Front, t | Grows(f, g) && t in w.stage(i, f) ensures t in w.stage(i, g) {
      LevelTasksGrow(scan, plan[i], f, g);
    }
  }

  /**
   Once every task before a depth is finished, what that depth receives never changes again; before
   that, it only grows.
   */
  lemma {:induction false} FrontStable(w: Workload, p: Progress, q: Progress, i: nat)
    requires Extends(p, q) && StageGrows(w)
    ensures Grows(FrontAt(w, p, i), FrontAt(w, q, i))
    decreases i
  {
    if i > 0 {
      FrontStable(w, p, q, i - 1);
      var f, g := FrontAt(w, p, i - 1), FrontAt(w, q, i - 1);
      DepthOutputsGrow(w.stage(i - 1, f), w.stage(i - 1, g), p, q, w.runs);
      if FrontAt(w, p, i).complete {
        DepthOutputsStable(w.stage(i - 1, f), p, q, w.runs);
      }
    }
  }

  /** A task, once visited, is visited with the very same context in every later state of the run. */
  lemma TasksPersist(w: Workload, p: Progress, q: Progress, i: nat)
    requires Extends(p, q) && StageGrows(w)
    ensures forall t | t in TasksAt(w, p, i) :: t in TasksAt(w, q, i)
  {
    FrontStable(w, p, q, i);
  }

  // ---- The barrier ----

  ghost predicate DoneAt(w: Workload, p: Progress, i: nat) {
    AllDone(TasksAt(w, p, i), p, w.runs)
  }

  lemma {:induction false} CompleteMeansDone(w: Workload, p: Progress, i: nat)
    ensures FrontAt(w, p, i).complete <==> forall j | 0 <= j < i :: DoneAt(w, p, j)
  {
    if i > 0 {
      CompleteMeansDone(w, p, i - 1);
      assert FrontAt(w, p, i).complete
        <==> FrontAt(w, p, i - 1).complete && DoneAt(w, p, i - 1);
    }
  }

  /** The payloads a depth wrote, task by task and repeat by repeat. */
  ghost function TaskPayloads(task: Job, rows: Key -> seq<Row>, runs: nat): seq<Json> {
    if runs == 0 || task.step.isLast then []
    else
      var own := rows(TaskKey(task, runs));
      TaskPayloads(task, rows, runs - 1)
      + seq(|own|, i requires 0 <= i < |own| => if own[i].answer.Obj? then own[i].answer else Obj(map[]))
  }

  ghost function Payloads(tasks: seq<Job>, rows: Key -> seq<Row>, runs: nat): seq<Json> {
    if tasks == [] then []
    else TaskPayloads(tasks[0], rows, runs) + Payloads(tasks[1..], rows, runs)
  }

  function StateOutputs(states: seq<State>): seq<Json> {
    seq(|states|, i requires 0 <= i < |states| => StateOutput(states[i]))
  }

  lemma StateOutputsJoin(a: seq<State>, b: seq<State>)
    ensures StateOutputs(a + b) == StateOutputs(a) + StateOutputs(b)
  {
  }

  lemma {:induction false} OutputsArePayloads(task: Job, rows: Key -> seq<Row>, runs: nat)
    ensures StateOutputs(Outputs(task, rows, runs)) == TaskPayloads(task, rows, runs)
  {
    if runs > 0 {
      OutputsArePayloads(task, rows, runs - 1);
      StateOutputsJoin(Outputs(task, rows, runs - 1), NextStates(task, rows(TaskKey(task, runs))));
      if task.step.isLast {
        assert Outputs(task, rows, runs) == Outputs(task, rows, runs - 1) + [];
      }
    }
  }

  lemma {:induction false} DepthOutputsArePayloads(tasks: seq<Job>, p: Progress, runs: nat)
    requires AllDone(tasks, p, runs)
    ensures StateOutputs(DepthOutputs(tasks, p, runs)) == Payloads(tasks, p.rows, runs)
  {
    if tasks != [] {
      assert tasks[0] in tasks;
      OutputsArePayloads(tasks[0], p.rows, runs);
      DepthOutputsArePayloads(tasks[1..], p, runs);
      StateOutputsJoin(Outputs(tasks[0], p.rows, runs), DepthOutputs(tasks[1..], p, runs));
    }
  }

  lemma BatchOfFront(scan: Scan, level: Level, front: Front, task: Job)
    requires ConsumesAll(level) && task in LevelTasks(scan, level, front)
    ensures front.complete && front.states != []
    ensures task.state == BatchState(scan, front.states, level.depth - 1)
  {
    TasksMember(level.steps, LevelInputs(scan, level, front), task);
  }

  /**
   A job of a consume-all depth exists only when every visited task of every earlier depth has
   finished every repeat, and its array is the concatenation of all previous-depth payloads, in order.
   */
  lemma BarrierHolds(scan: Scan, steps: seq<Step>, w: Workload, p: Progress, i: nat, task: Job)
    requires w == WorkloadOf(scan, steps) && VisitedAt(w, p, i, task)
    requires 0 < i < |Plan(steps)| && ConsumesAll(Plan(steps)[i])
    ensures forall j | 0 <= j < i :: DoneAt(w, p, j)
    ensures var name := BatchKey(Plan(steps)[i].depth - 1);
            name in task.state.context && task.state.context[name]
              == Arr(Payloads(TasksAt(w, p, i - 1), p.rows, w.runs))
  {
    var front := FrontAt(w, p, i);
    BatchOfFront(scan, Plan(steps)[i], front, task);
    CompleteMeansDone(w, p, i);
    DepthOutputsArePayloads(TasksAt(w, p, i - 1), p, w.runs);
    assert StateOutputs(front.states) == Payloads(TasksAt(w, p, i - 1), p.rows, w.runs);
  }

  /** ... and in every later state of the run the depth has exactly the same batch and the same tasks. */
  lemma BarrierStable(
    scan: Scan, steps: seq<Step>, w: Workload, p: Progress, q: Progress, i: nat, task: Job)
    requires w == WorkloadOf(scan, steps) && Extends(p, q) && VisitedAt(w, p, i, task)
    requires i < |Plan(steps)| && ConsumesAll(Plan(steps)[i])
    ensures FrontAt(w, q, i) == FrontAt(w, p, i) && TasksAt(w, q, i) == TasksAt(w, p, i)
  {
    BatchOfFront(scan, Plan(steps)[i], FrontAt(w, p, i), task);
    WorkflowGrows(scan, steps);
    FrontStable(w, p, q, i);
  }

  // ---- Draining ----

  /** Every visited task of every depth has finished every repeat. */
  ghost predicate AllFinished(w: Workload, p: Progress) {
    forall i | 0 <= i < w.depths :: DoneAt(w, p, i)
  }

  /** Nothing is on offer to an idle engine exactly when everything has finished. */
  lemma DrainedIff(w: Workload, p: Progress)
    ensures Pending(w, p, p.done) == [] <==> AllFinished(w, p)
  {
    if Pending(w, p, p.done) == [] {
      forall i: nat, t | i < w.depths && t in TasksAt(w, p, i)
        ensures TaskDone(t, p.done, w.runs)
      {
        NothingOffered(w, p, i, t);
      }
    } else {
      var job := Pending(w, p, p.done)[0];
      PendingIsReady(w, p, p.done, job);
      var t :| Visited(w, p, t) && Ready(job, t, p, p.done, w.runs);
      var i: nat :| i < w.depths && VisitedAt(w, p, i, t);
      assert !DoneAt(w, p, i);
    }
  }

  lemma NothingOffered(w: Workload, p: Progress, i: nat, task: Job)
    requires Pending(w, p, p.done) == [] && i < w.depths && VisitedAt(w, p, i, task)
    ensures TaskDone(task, p.done, w.runs)
  {
    var offer := Offer(task, p, p.done, w.runs);
    if offer != [] {
      PendingMember(w, p, p.done, w.depths, offer[0]);
      assert OfferedAt(w, p, p.done, i, offer[0]);
    }
  }

  // ---- The plain reading of a workflow: no barrier, no bookkeeping ----

  ghost function PlainStates(w: Workload, rows: Key -> seq<Row>, i: nat): seq<State> {
    if i == 0 then [w.root]
    else PlainOutputs(w.stage(i - 1, Front(PlainStates(w, rows, i - 1), true)), rows, w.runs)
  }

  ghost function PlainTasks(w: Workload, rows: Key -> seq<Row>, i: nat): seq<Job> {
    w.stage(i, Front(PlainStates(w, rows, i), true))
  }

  ghost function PlainOutputs(tasks: seq<Job>, rows: Key -> seq<Row>, runs: nat): seq<State> {
    if tasks == [] then [] else Outputs(tasks[0], rows, runs) + PlainOutputs(tasks[1..], rows, runs)
  }

  lemma {:induction false} PlainOutputsAreOutputs(tasks: seq<Job>, p: Progress, runs: nat)
    requires AllDone(tasks, p, runs)
    ensures DepthOutputs(tasks, p, runs) == PlainOutputs(tasks, p.rows, runs)
  {
    if tasks != [] {
      assert tasks[0] in tasks;
      PlainOutputsAreOutputs(tasks[1..], p, runs);
    }
  }

  /** As far as a scan is complete, the walk has computed the plain reading of the workflow. */
  lemma {:induction false} CompleteIsPlain(w: Workload, p: Progress, i: nat)
    requires FrontAt(w, p, i).complete
    ensures FrontAt(w, p, i) == Front(PlainStates(w, p.rows, i), true)
    ensures TasksAt(w, p, i) == PlainTasks(w, p.rows, i)
    decreases i
  {
    if i > 0 {
      CompleteIsPlain(w, p, i - 1);
      PlainOutputsAreOutputs(TasksAt(w, p, i - 1), p, w.runs);
    }
  }

  /** At every moment, every visited task is a task of the plain reading. */
  lemma VisitedIsPlain(w: Workload, p: Progress, i: nat)
    requires StageGrows(w)
    ensures forall t | t in TasksAt(w, p, i) :: t in PlainTasks(w, p.rows, i)
  {
    var all := Progress((iset k: Key | p.rows(k) == p.rows(k)), p.rows);
    TasksPersist(w, p, all, i);
    CompleteMeansDone(w, all, i);
    CompleteIsPlain(w, all, i);
  }
}
