/**
 The workflow scheduler: which jobs of a scan may start, given the completed and the claimed
 job keys and the result rows (engine/open_kritt_engine/queue.py).

 `FrontAt` and `Pending` say what the depth-by-depth walk computes; `BuildPendingJobs` is the walk.
 */
module WorkflowQueue {
  import opened Wrappers
  import opened JsonValues
  import opened Text
  import Sorting

  type Context = map<string, Json>

  datatype Step = Step(
    id: int, depth: nat, order: nat, isLast: bool, consumesAll: bool, boundSource: Option<int>)

  /** One persisted result row; rows are keyed by the job that wrote them. */
  datatype Row = Row(id: int, answer: Json)

  /** `metadata_key`: step, incoming lineage, repeat. */
  datatype Key = Key(stepId: int, prevId: int, prevTable: Option<string>, repeatRun: nat)

  datatype State = State(
    prevId: int, prevTable: Option<string>, repeatRun: nat,
    context: Context, output: Option<Context>, source: Option<int>)

  datatype Job = Job(step: Step, state: State)

  /** The scan settings the scheduler reads: `repeat_runs(scan)` and `scan_context(scan)`. */
  datatype Scan = Scan(repeatRuns: nat, context: Context)

  /** The progress of a scan: the finished job keys and the rows each key wrote. */
  datatype Progress = Progress(done: iset<Key>, rows: Key -> seq<Row>)

  const STEP_RESULTS_TABLE := "workflows.step_results"
  const BATCH_PREFIX := "multi_output_depth_"

  // ---- Steps and depths ----

  function StepsAt(steps: seq<Step>, depth: nat): seq<Step> {
    if steps == [] then []
    else (if steps[0].depth == depth then [steps[0]] else []) + StepsAt(steps[1..], depth)
  }

  lemma {:induction false} StepsAtMember(steps: seq<Step>, depth: nat)
    ensures forall s :: s in StepsAt(steps, depth) <==> s in steps && s.depth == depth
  {
    if steps != [] {
      StepsAtMember(steps[1..], depth);
      assert steps == [steps[0]] + steps[1..];
    }
  }

  predicate HasDepth(steps: seq<Step>, depth: nat) {
    exists s :: s in steps && s.depth == depth
  }

  function DepthsBelow(steps: seq<Step>, n: nat): (r: seq<nat>)
    ensures forall d: nat :: d in r <==> d < n && HasDepth(steps, d)
    ensures forall i, j | 0 <= i < j < |r| :: r[i] < r[j]
  {
    if n == 0 then []
    else
      var below := DepthsBelow(steps, n - 1);
      assert forall i | 0 <= i < |below| :: below[i] in below;
      if HasDepth(steps, n - 1) then below + [n - 1] else below
  }

  function DepthBound(steps: seq<Step>): (r: nat)
    ensures forall s | s in steps :: s.depth < r
  {
    if steps == [] then 0
    else
      var rest := DepthBound(steps[1..]);
      if steps[0].depth < rest then rest else steps[0].depth + 1
  }

  /** `Workflow.depths`: the distinct depths, ascending. */
  function Depths(steps: seq<Step>): (r: seq<nat>)
    ensures forall d: nat :: d in r <==> HasDepth(steps, d)
    ensures forall i, j | 0 <= i < j < |r| :: r[i] < r[j]
  {
    DepthsBelow(steps, DepthBound(steps))
  }

  /** One depth of a workflow with its sibling steps. */
  datatype Level = Level(depth: nat, steps: seq<Step>)

  /** The depths of a workflow, ascending, each with `steps_at_depth`. */
  function Plan(steps: seq<Step>): (r: seq<Level>)
    ensures |r| == |Depths(steps)|
    ensures forall i | 0 <= i < |r| :: r[i] == Level(Depths(steps)[i], StepsAt(steps, Depths(steps)[i]))
  {
    var depths := Depths(steps);
    seq(|depths|, i requires 0 <= i < |depths| => Level(depths[i], StepsAt(steps, depths[i])))
  }

  predicate ConsumesAll(level: Level) {
    level.depth > 0 && level.steps != [] && forall s | s in level.steps :: s.consumesAll
  }

  // ---- Bindings ----

  /** The reasons `validate_workflow_bindings` raises for. */
  datatype BindingFault = RootBound | IncompleteRouting | BoundBatch | TooFewSteps | NotOneToOne

  function IdTag(s: Step): Option<int> {
    Some(s.id)
  }

  function SourceTag(s: Step): Option<int> {
    s.boundSource
  }

  function StepIds(steps: seq<Step>): set<Option<int>> {
    Sorting.TagSet(steps, IdTag)
  }

  function Sources(steps: seq<Step>): set<Option<int>> {
    Sorting.TagSet(steps, SourceTag)
  }

  predicate Bound(steps: seq<Step>) {
    exists s :: s in steps && s.boundSource.Some?
  }

  /** Every step of the previous depth is the source of one step here; nothing here batches. */
  predicate BoundOk(here: seq<Step>, previous: seq<Step>) {
    && (forall s | s in here :: s.boundSource.Some? && !s.consumesAll)
    && 2 <= |previous| == |here|
    && Sources(here) == StepIds(previous)
  }

  predicate BindingOk(steps: seq<Step>, depth: nat) {
    Bound(StepsAt(steps, depth)) ==>
      depth > 0 && BoundOk(StepsAt(steps, depth), StepsAt(steps, depth - 1))
  }

  predicate BindingsAt(steps: seq<Step>, depths: seq<nat>) {
    forall d | d in depths :: BindingOk(steps, d)
  }

  predicate BindingsOk(steps: seq<Step>) {
    BindingsAt(steps, Depths(steps))
  }

  lemma BindingsJoin(steps: seq<Step>, depths: seq<nat>, i: nat)
    requires i < |depths|
    ensures BindingsAt(steps, depths[..i + 1]) <==> BindingsAt(steps, depths[..i]) && BindingOk(steps, depths[i])
    ensures BindingsAt(steps, depths) ==> BindingOk(steps, depths[i])
  {
    assert depths[..i + 1] == depths[..i] + [depths[i]];
    assert depths[i] in depths;
  }

  method ValidateWorkflowBindings(steps: seq<Step>) returns (r: Result<(), BindingFault>)
    ensures r.Ok? <==> BindingsOk(steps)
  {
    var depths := Depths(steps);
    for i := 0 to |depths|
      invariant BindingsAt(steps, depths[..i])
    {
      BindingsJoin(steps, depths, i);
      r := ValidateBinding(steps, depths[i]);
      if r.Err? {
        return;
      }
    }
    assert depths[..|depths|] == depths;
    r := Ok(());
  }

  method ValidateBinding(steps: seq<Step>, depth: nat) returns (r: Result<(), BindingFault>)
    ensures r.Ok? <==> BindingOk(steps, depth)
  {
    var here := StepsAt(steps, depth);
    if forall s | s in here :: s.boundSource.None? {
      return Ok(());
    }
    if depth == 0 {
      return Err(RootBound);
    }
    if exists s | s in here :: s.boundSource.None? {
      return Err(IncompleteRouting);
    }
    if exists s | s in here :: s.consumesAll {
      return Err(BoundBatch);
    }
    var previous := StepsAt(steps, depth - 1);
    if |previous| < 2 || |here| < 2 {
      return Err(TooFewSteps);
    }
    if |previous| != |here| || Sources(here) != StepIds(previous) {
      return Err(NotOneToOne);
    }
    r := Ok(());
  }

  // ---- States ----

  function TaskKey(task: Job, repeatRun: nat): Key {
    Key(task.step.id, task.state.prevId, task.state.prevTable, repeatRun)
  }

  function StateForRepeat(state: State, repeatRun: nat): State {
    state.(repeatRun := repeatRun)
  }

  function OutputPayload(row: Row): Context {
    if row.answer.Obj? then row.answer.fields else map[]
  }

  function NextState(step: Step, state: State, row: Row): State {
    State(row.id, Some(STEP_RESULTS_TABLE), 1,
          state.context + OutputPayload(row), Some(OutputPayload(row)), Some(step.id))
  }

  /** `_next_states`: one state per result row; the last step feeds nothing. */
  function NextStates(task: Job, rows: seq<Row>): (r: seq<State>)
    ensures |r| == if task.step.isLast then 0 else |rows|
    ensures forall i | 0 <= i < |r| :: r[i] == NextState(task.step, task.state, rows[i])
  {
    if task.step.isLast then []
    else seq(|rows|, i requires 0 <= i < |rows| => NextState(task.step, task.state, rows[i]))
  }

  predicate IsBatchKey(name: string) {
    |name| > |BATCH_PREFIX| && name[..|BATCH_PREFIX|] == BATCH_PREFIX &&
    forall i | |BATCH_PREFIX| <= i < |name| :: IsDigit(name[i])
  }

  function BatchKey(depth: nat): string {
    BATCH_PREFIX + NatText(depth)
  }

  function StateOutput(state: State): Json {
    Obj(if state.output.Some? then state.output.value else map[])
  }

  /** `_batch_state`: a whole depth collapsed into one array. */
  function BatchState(scan: Scan, states: seq<State>, previousDepth: int): State
    requires states != [] && previousDepth >= 0
  {
    var older := map k | k in states[0].context && IsBatchKey(k) :: states[0].context[k];
    var outputs := Arr(seq(|states|, i requires 0 <= i < |states| => StateOutput(states[i])));
    State(0, None, 1, scan.context + older + map[BatchKey(previousDepth) := outputs], None, None)
  }

  function RootState(scan: Scan): State {
    State(0, None, 1, scan.context, None, None)
  }

  // ---- Tasks of one depth ----

  function Route(step: Step, states: seq<State>): seq<State> {
    if states == [] then []
    else
      (if step.boundSource.None? || states[0].source == step.boundSource then [states[0]] else [])
      + Route(step, states[1..])
  }

  function TasksOf(step: Step, states: seq<State>): (r: seq<Job>)
    ensures |r| == |states|
    ensures forall i | 0 <= i < |r| :: r[i] == Job(step, states[i])
  {
    seq(|states|, i requires 0 <= i < |states| => Job(step, states[i]))
  }

  /** Every (step, routed state) pair of a depth, in the order the walk visits them. */
  function Tasks(steps: seq<Step>, states: seq<State>): seq<Job> {
    if steps == [] then []
    else TasksOf(steps[0], Route(steps[0], states)) + Tasks(steps[1..], states)
  }

  /** The first repeat in `from..runs` whose key is not done; `runs + 1` when there is none. */
  ghost function Missing(task: Job, done: iset<Key>, runs: nat, from: nat): (m: nat)
    requires 1 <= from <= runs + 1
    ensures from <= m <= runs + 1
    ensures forall r | from <= r < m :: TaskKey(task, r) in done
    ensures m <= runs ==> TaskKey(task, m) !in done
    decreases runs + 1 - from
  {
    if from <= runs && TaskKey(task, from) in done then Missing(task, done, runs, from + 1) else from
  }

  ghost predicate TaskDone(task: Job, done: iset<Key>, runs: nat) {
    forall r | 1 <= r <= runs :: TaskKey(task, r) in done
  }

  /** The accumulated output of the first `runs` repeats of a task. */
  ghost function Outputs(task: Job, rows: Key -> seq<Row>, runs: nat): seq<State> {
    if runs == 0 then []
    else Outputs(task, rows, runs - 1) + NextStates(task, rows(TaskKey(task, runs)))
  }

  /** What the finished tasks of a depth hand to the next depth. */
  ghost function DepthOutputs(tasks: seq<Job>, p: Progress, runs: nat): seq<State> {
    if tasks == [] then []
    else
      (if TaskDone(tasks[0], p.done, runs) then Outputs(tasks[0], p.rows, runs) else [])
      + DepthOutputs(tasks[1..], p, runs)
  }

  ghost predicate AllDone(tasks: seq<Job>, p: Progress, runs: nat) {
    forall t | t in tasks :: TaskDone(t, p.done, runs)
  }

  /** What one task offers: its first repeat that is not done, unless a worker holds it. */
  ghost function Offer(task: Job, p: Progress, claimed: iset<Key>, runs: nat): seq<Job> {
    var m := Missing(task, p.done, runs, 1);
    if m <= runs && TaskKey(task, m) !in claimed
    then [Job(task.step, StateForRepeat(task.state, m))]
    else []
  }

  ghost function Offers(tasks: seq<Job>, p: Progress, claimed: iset<Key>, runs: nat): seq<Job> {
    if tasks == [] then []
    else Offer(tasks[0], p, claimed, runs) + Offers(tasks[1..], p, claimed, runs)
  }

  // ---- The walk over the depths ----

  /** What stands before a depth: the incoming states, and whether every earlier task has finished. */
  datatype Front = Front(states: seq<State>, complete: bool)

  /** The barrier: a consume-all depth sees one batch, and only once all earlier depths are complete. */
  function LevelInputs(scan: Scan, level: Level, front: Front): seq<State> {
    if !ConsumesAll(level) then front.states
    else if front.complete && front.states != [] then [BatchState(scan, front.states, level.depth - 1)]
    else []
  }

  function LevelTasks(scan: Scan, level: Level, front: Front): seq<Job> {
    Tasks(level.steps, LevelInputs(scan, level, front))
  }

  /**
   A workload: the state it starts from; the tasks its `i`-th depth holds, given what stands before
   that depth; how many depths; how often each task runs.
   */
  datatype Workload = Workload(root: State, stage: (nat, Front) -> seq<Job>, depths: nat, runs: nat)

  function WorkloadOf(scan: Scan, steps: seq<Step>): Workload {
    var plan := Plan(steps);
    Workload(
      RootState(scan),
      (i: nat, front: Front) => if i < |plan| then LevelTasks(scan, plan[i], front) else [],
      |plan|, scan.repeatRuns)
  }

  ghost function NextFront(tasks: seq<Job>, front: Front, p: Progress, runs: nat): Front {
    Front(DepthOutputs(tasks, p, runs), front.complete && AllDone(tasks, p, runs))
  }

  /** What stands before the `i`-th depth. */
  ghost function FrontAt(w: Workload, p: Progress, i: nat): Front {
    if i == 0 then Front([w.root], true)
    else
      var front := FrontAt(w, p, i - 1);
      NextFront(w.stage(i - 1, front), front, p, w.runs)
  }

  /** The tasks the walk visits at the `i`-th depth. */
  ghost function TasksAt(w: Workload, p: Progress, i: nat): seq<Job> {
    w.stage(i, FrontAt(w, p, i))
  }

  ghost function PendingBelow(w: Workload, p: Progress, claimed: iset<Key>, i: nat): seq<Job> {
    if i == 0 then []
    else PendingBelow(w, p, claimed, i - 1) + Offers(TasksAt(w, p, i - 1), p, claimed, w.runs)
  }

  /** The jobs that may start, in the order the walk finds them. */
  ghost function Pending(w: Workload, p: Progress, claimed: iset<Key>): seq<Job> {
    PendingBelow(w, p, claimed, w.depths)
  }

  // ---- The priority order ----

  /** The last three components of the sort key: `_pending_order_value`. */
  type OrderValue = Job -> (int, int, int)

  function Priority(job: Job, value: OrderValue): (int, int, int, int, int, int) {
    var v := value(job);
    (-(job.step.depth as int), job.state.repeatRun as int, job.step.order as int, v.0, v.1, v.2)
  }

  predicate LexLeq(a: (int, int, int, int, int, int), b: (int, int, int, int, int, int)) {
    a.0 < b.0 || (a.0 == b.0 && (a.1 < b.1 || (a.1 == b.1 && (a.2 < b.2 || (a.2 == b.2 &&
      (a.3 < b.3 || (a.3 == b.3 && (a.4 < b.4 || (a.4 == b.4 && a.5 <= b.5)))))))))
  }

  predicate Before(a: Job, b: Job, value: OrderValue) {
    LexLeq(Priority(a, value), Priority(b, value))
  }

  function SortJobs(jobs: seq<Job>, value: OrderValue): seq<Job> {
    Sorting.Sort(jobs, (a, b) => Before(a, b, value))
  }

  // ---- build_pending_jobs ----

  function RowsIn(results: map<Key, seq<Row>>): Key -> seq<Row> {
    k => if k in results then results[k] else []
  }

  ghost function ProgressOf(completed: set<Key>, results: map<Key, seq<Row>>): Progress {
    Progress(KeysOf(completed), RowsIn(results))
  }

  ghost function KeysOf(keys: set<Key>): iset<Key> {
    iset k | k in keys
  }

  /** The repeats of one task, in sequence, up to the first that is not done. */
  method RunTask(
    task: Job, runs: nat, completed: set<Key>, claimed: set<Key>, results: map<Key, seq<Row>>)
    returns (complete: bool, offered: seq<Job>, outputs: seq<State>)
    ensures complete == TaskDone(task, ProgressOf(completed, results).done, runs)
    ensures offered == Offer(task, ProgressOf(completed, results), KeysOf(claimed), runs)
    ensures complete ==> outputs == Outputs(task, RowsIn(results), runs)
  {
    ghost var p := ProgressOf(completed, results);
    complete, offered, outputs := true, [], [];
    var repeatRun := 1;
    while repeatRun <= runs
      invariant 1 <= repeatRun <= runs + 1
      invariant complete && offered == []
      invariant forall r | 1 <= r < repeatRun :: TaskKey(task, r) in p.done
      invariant Missing(task, p.done, runs, 1) == Missing(task, p.done, runs, repeatRun)
      invariant outputs == Outputs(task, RowsIn(results), repeatRun - 1)
    {
      var key := TaskKey(task, repeatRun);
      if key !in completed {
        complete := false;
        if key !in claimed {
          offered := [Job(task.step, StateForRepeat(task.state, repeatRun))];
        }
        break;
      }
      var rows := if key in results then results[key] else [];
      outputs := outputs + NextStates(task, rows);
      repeatRun := repeatRun + 1;
    }
  }

  lemma {:induction false} OffersSplit(a: seq<Job>, b: seq<Job>, p: Progress, claimed: iset<Key>, runs: nat)
    ensures Offers(a + b, p, claimed, runs) == Offers(a, p, claimed, runs) + Offers(b, p, claimed, runs)
  {
    if a == [] {
      assert a + b == b;
    } else {
      assert (a + b)[0] == a[0] && (a + b)[1..] == a[1..] + b;
      OffersSplit(a[1..], b, p, claimed, runs);
    }
  }

  lemma {:induction false} OutputsSplit(a: seq<Job>, b: seq<Job>, p: Progress, runs: nat)
    ensures DepthOutputs(a + b, p, runs) == DepthOutputs(a, p, runs) + DepthOutputs(b, p, runs)
  {
    if a == [] {
      assert a + b == b;
    } else {
      assert (a + b)[0] == a[0] && (a + b)[1..] == a[1..] + b;
      OutputsSplit(a[1..], b, p, runs);
    }
  }

  lemma OneMoreTask(tasks: seq<Job>, t: Job, p: Progress, claimed: iset<Key>, runs: nat)
    ensures Offers(tasks + [t], p, claimed, runs) == Offers(tasks, p, claimed, runs) + Offer(t, p, claimed, runs)
    ensures DepthOutputs(tasks + [t], p, runs)
         == DepthOutputs(tasks, p, runs) + (if TaskDone(t, p.done, runs) then Outputs(t, p.rows, runs) else [])
    ensures AllDone(tasks + [t], p, runs) <==> AllDone(tasks, p, runs) && TaskDone(t, p.done, runs)
  {
    OffersSplit(tasks, [t], p, claimed, runs);
    OutputsSplit(tasks, [t], p, runs);
    assert [t][1..] == [];
  }

  lemma {:induction false} TasksSplit(steps: seq<Step>, states: seq<State>, k: nat)
    requires k < |steps|
    ensures Tasks(steps[..k + 1], states)
         == Tasks(steps[..k], states) + TasksOf(steps[k], Route(steps[k], states))
  {
    if k == 0 {
      assert steps[..1] == [steps[0]];
      assert steps[..1][1..] == [];
    } else {
      assert steps[..k + 1][1..] == steps[1..][..k] && steps[..k][1..] == steps[1..][..k - 1];
      TasksSplit(steps[1..], states, k - 1);
    }
  }

  /** The routed states of one step, in order. */
  method RunTasks(
    tasks: seq<Job>, runs: nat, completed: set<Key>, claimed: set<Key>, results: map<Key, seq<Row>>)
    returns (complete: bool, offered: seq<Job>, outputs: seq<State>)
    ensures complete == AllDone(tasks, ProgressOf(completed, results), runs)
    ensures offered == Offers(tasks, ProgressOf(completed, results), KeysOf(claimed), runs)
    ensures outputs == DepthOutputs(tasks, ProgressOf(completed, results), runs)
  {
    ghost var p, c := ProgressOf(completed, results), KeysOf(claimed);
    complete, offered, outputs := true, [], [];
    for j := 0 to |tasks|
      invariant complete == AllDone(tasks[..j], p, runs)
      invariant offered == Offers(tasks[..j], p, c, runs)
      invariant outputs == DepthOutputs(tasks[..j], p, runs)
    {
      var done, offer, next := RunTask(tasks[j], runs, completed, claimed, results);
      assert tasks[..j + 1] == tasks[..j] + [tasks[j]];
      OneMoreTask(tasks[..j], tasks[j], p, c, runs);
      offered := offered + offer;
      if done {
        outputs := outputs + next;
      } else {
        complete := false;
      }
    }
    assert tasks[..|tasks|] == tasks;
  }

  /** One depth of the walk: every routed state of every step. */
  method RunDepth(
    steps: seq<Step>, inputs: seq<State>, runs: nat,
    completed: set<Key>, claimed: set<Key>, results: map<Key, seq<Row>>)
    returns (complete: bool, offered: seq<Job>, outputs: seq<State>)
    ensures complete == AllDone(Tasks(steps, inputs), ProgressOf(completed, results), runs)
    ensures offered == Offers(Tasks(steps, inputs), ProgressOf(completed, results), KeysOf(claimed), runs)
    ensures outputs == DepthOutputs(Tasks(steps, inputs), ProgressOf(completed, results), runs)
  {
    ghost var p, c := ProgressOf(completed, results), KeysOf(claimed);
    complete, offered, outputs := true, [], [];
    for i := 0 to |steps|
      invariant complete == AllDone(Tasks(steps[..i], inputs), p, runs)
      invariant offered == Offers(Tasks(steps[..i], inputs), p, c, runs)
      invariant outputs == DepthOutputs(Tasks(steps[..i], inputs), p, runs)
    {
      var own := TasksOf(steps[i], Route(steps[i], inputs));
      var done, offer, next := RunTasks(own, runs, completed, claimed, results);
      TasksSplit(steps, inputs, i);
      OffersSplit(Tasks(steps[..i], inputs), own, p, c, runs);
      OutputsSplit(Tasks(steps[..i], inputs), own, p, runs);
      complete, offered, outputs := complete && done, offered + offer, outputs + next;
    }
    assert steps[..|steps|] == steps;
  }

  /** One turn of the walk: a depth's tasks are run over the incoming states, batched first if it consumes all. */
  method WalkDepth(
    scan: Scan, level: Level, front: Front, completed: set<Key>, claimed: set<Key>, results: map<Key, seq<Row>>)
    returns (offered: seq<Job>, next: Front)
    ensures var tasks, p := LevelTasks(scan, level, front), ProgressOf(completed, results);
            && offered == Offers(tasks, p, KeysOf(claimed), scan.repeatRuns)
            && next == NextFront(tasks, front, p, scan.repeatRuns)
  {
    var inputs := LevelInputs(scan, level, front);
    var complete, found, outputs :=
      RunDepth(level.steps, inputs, scan.repeatRuns, completed, claimed, results);
    offered, next := found, Front(outputs, front.complete && complete);
  }

  method Walk(
    scan: Scan, plan: seq<Level>, ghost w: Workload,
    completed: set<Key>, claimed: set<Key>, results: map<Key, seq<Row>>)
    returns (pending: seq<Job>)
    requires w.depths == |plan| && w.runs == scan.repeatRuns && w.root == RootState(scan)
    requires forall i: nat, front: Front | i < |plan| :: w.stage(i, front) == LevelTasks(scan, plan[i], front)
    ensures pending == Pending(w, ProgressOf(completed, results), KeysOf(claimed))
  {
    ghost var p, c := ProgressOf(completed, results), KeysOf(claimed);
    pending := [];
    var front := Front([RootState(scan)], true);
    for i := 0 to |plan|
      invariant front == FrontAt(w, p, i)
      invariant pending == PendingBelow(w, p, c, i)
    {
      var offered, next := WalkDepth(scan, plan[i], front, completed, claimed, results);
      assert TasksAt(w, p, i) == LevelTasks(scan, plan[i], front);
      pending, front := pending + offered, next;
    }
  }

  method BuildPendingJobs(
    scan: Scan, steps: seq<Step>, completed: set<Key>, results: map<Key, seq<Row>>,
    claimedKeys: Option<set<Key>>, value: OrderValue)
    returns (r: Result<seq<Job>, BindingFault>)
    ensures r.Err? <==> !BindingsOk(steps)
    ensures r.Ok? ==>
      var claimed := if claimedKeys.Some? then claimedKeys.value else completed;
      r.value == SortJobs(
        Pending(WorkloadOf(scan, steps), ProgressOf(completed, results), KeysOf(claimed)), value)
  {
    var valid := ValidateWorkflowBindings(steps);
    if valid.Err? {
      return Err(valid.error);
    }
    var claimed := if claimedKeys.Some? then claimedKeys.value else completed;
    var pending := Walk(scan, Plan(steps), WorkloadOf(scan, steps), completed, claimed, results);
    r := Ok(SortJobs(pending, value));
  }
}
