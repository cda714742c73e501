/**
 What a job's prompt is given: every value of the context of a visited task, from the rows of its
 lineage, the batches at the barriers before it and the settings of the scan.
 */
module QueueContexts {
  import opened Wrappers
  import opened JsonValues
  import opened Text
  import opened WorkflowQueue
  import opened QueueProperties

  /** A row of a lineage, with the task and the repeat that wrote it. */
  datatype Link = Link(task: Job, repeat: nat, row: Row)

  predicate Answers(row: Row, name: string) {
    row.answer.Obj? && name in row.answer.fields
  }

  ghost predicate Done(task: Job, p: Progress, runs: nat) {
    forall r | 1 <= r <= runs :: Key(task.step.id, task.state.prevId, task.state.prevTable, r) in p.done
  }

  /** A state that comes from a row of a finished task of a depth. */
  ghost predicate Follows(w: Workload, p: Progress, i: nat, link: Link, next: State) {
    && VisitedAt(w, p, i, link.task) && Done(link.task, p, w.runs) && !link.task.step.isLast
    && 1 <= link.repeat <= w.runs
    && link.row in p.rows(
         Key(link.task.step.id, link.task.state.prevId, link.task.state.prevTable, link.repeat))
    && next.prevId == link.row.id && next.prevTable == Some("workflows.step_results")
    && next.source == Some(link.task.step.id)
  }

  /** A state that comes from no row: of the scan itself, or of a batch. */
  predicate Fresh(s: State) {
    s.prevId == 0 && s.prevTable.None? && s.source.None?
  }

  ghost predicate LastBarrier(plan: seq<Level>, b: nat, i: nat) {
    && b <= i < |plan| && (b == 0 || ConsumesAll(plan[b]))
    && forall k | b < k <= i :: !ConsumesAll(plan[k])
  }

  function StateAfter(trail: seq<Link>, k: nat, last: State): State {
    if k < |trail| then trail[k].task.state else last
  }

  ghost predicate Chained(w: Workload, p: Progress, depth: nat, trail: seq<Link>, k: nat, last: State)
    requires k < |trail|
  {
    Follows(w, p, depth, trail[k], StateAfter(trail, k + 1, last))
  }

  /** The lineage of a state at a depth: one row of every depth since the last barrier, each from the one before. */
  ghost predicate Lineage(
    plan: seq<Level>, w: Workload, p: Progress, b: nat, i: nat, trail: seq<Link>, last: State)
  {
    && LastBarrier(plan, b, i) && |trail| == i - b
    && Fresh(StateAfter(trail, 0, last))
    && forall k, depth | 0 <= k < |trail| && depth == b + k :: Chained(w, p, depth, trail, k, last)
  }

  lemma {:induction false} LineageFollows(
    plan: seq<Level>, w: Workload, p: Progress, b: nat, i: nat, trail: seq<Link>, last: State, k: nat, depth: nat)
    requires Lineage(plan, w, p, b, i, trail, last) && k < |trail| && depth == b + k
    ensures depth < i && Follows(w, p, depth, trail[k], StateAfter(trail, k + 1, last))
  {
    assert Chained(w, p, depth, trail, k, last);
  }

  /** The latest row of a lineage that answers a name. */
  ghost predicate LatestAnswer(trail: seq<Link>, k: nat, name: string) {
    k < |trail| && Answers(trail[k].row, name) && forall j | k < j < |trail| :: !Answers(trail[j].row, name)
  }

  ghost predicate Unanswered(trail: seq<Link>, name: string) {
    forall k | 0 <= k < |trail| :: !Answers(trail[k].row, name)
  }

  /** The name of the batch formed at a barrier, one of the first `n` depths. */
  ghost predicate BatchNamed(plan: seq<Level>, n: nat, c: nat, name: string) {
    c < n <= |plan| && ConsumesAll(plan[c]) && name == BatchKey(plan[c].depth - 1)
  }

  ghost predicate IsBatch(plan: seq<Level>, n: nat, name: string) {
    exists c: nat :: BatchNamed(plan, n, c, name)
  }

  /** The array formed at a barrier: the answers of the depth before; at the first depth, one empty answer. */
  ghost function BatchArray(w: Workload, p: Progress, c: nat): Json {
    if c == 0 then Arr([Obj(map[])]) else Arr(Payloads(TasksAt(w, p, c - 1), p.rows, w.runs))
  }

  /** The batches of the first `n` depths, and no other batch names. */
  ghost predicate CarriesBatches(plan: seq<Level>, w: Workload, p: Progress, n: nat, context: Context) {
    && (forall c: nat, name | BatchNamed(plan, n, c, name) :: name in context && context[name] == BatchArray(w, p, c))
    && forall name | name in context && IsBatchKey(name) :: IsBatch(plan, n, name)
  }

  /** Answered by the lineage, the latest row winning; or set for the scan; and no other names but batches. */
  ghost predicate CarriesAnswers(scan: Scan, trail: seq<Link>, context: Context) {
    && (forall k: nat, name | LatestAnswer(trail, k, name) ::
          name in context && context[name] == trail[k].row.answer.fields[name])
    && (forall name | name in scan.context && Unanswered(trail, name) ::
          name in context && context[name] == scan.context[name])
    && forall name | name in context :: !Unanswered(trail, name) || name in scan.context || IsBatchKey(name)
  }

  /** The values of the context of a task at the depth numbered `n - 1`. */
  ghost predicate ContextIs(
    scan: Scan, plan: seq<Level>, w: Workload, p: Progress, n: nat, trail: seq<Link>, context: Context)
  {
    CarriesAnswers(scan, trail, context) && CarriesBatches(plan, w, p, n, context)
  }

  /** Neither the scan's settings nor the answers of the workflow's steps take the name of a batch. */
  ghost predicate NoBatchNames(scan: Scan, steps: seq<Step>, rows: Key -> seq<Row>) {
    && (forall name | name in scan.context :: !IsBatchKey(name))
    && forall s, k: Key, row | s in steps && k.stepId == s.id && row in rows(k) :: NoBatchAnswer(row)
  }

  predicate NoBatchAnswer(row: Row) {
    row.answer.Obj? ==> forall name | name in row.answer.fields :: !IsBatchKey(name)
  }

  lemma BatchKeysAreBatchKeys(depth: nat)
    ensures IsBatchKey(BatchKey(depth))
  {
  }

  lemma BatchKeyInjective(a: nat, b: nat)
    requires BatchKey(a) == BatchKey(b)
    ensures a == b
  {
    assert NatText(a) == BatchKey(a)[|BATCH_PREFIX|..];
    assert NatText(b) == BatchKey(b)[|BATCH_PREFIX|..];
    NatTextInjective(a, b);
  }

  ghost predicate DifferentDepths(plan: seq<Level>) {
    forall c, d | 0 <= c < d < |plan| :: plan[c].depth != plan[d].depth
  }

  lemma BatchesDiffer(plan: seq<Level>, n: nat, c: nat, d: nat, name: string)
    requires DifferentDepths(plan) && BatchNamed(plan, n, c, name) && BatchNamed(plan, n, d, name)
    ensures c == d
  {
    BatchKeyInjective(plan[c].depth - 1, plan[d].depth - 1);
  }

  lemma BatchNameIsBatchKey(plan: seq<Level>, n: nat, c: nat, name: string)
    requires BatchNamed(plan, n, c, name)
    ensures IsBatchKey(name)
  {
    BatchKeysAreBatchKeys(plan[c].depth - 1);
  }

  // ---- One depth further ----

  lemma AnswersExtend(trail: seq<Link>, link: Link, k: nat, name: string)
    ensures LatestAnswer(trail + [link], k, name) <==>
      if k == |trail| then Answers(link.row, name)
      else LatestAnswer(trail, k, name) && !Answers(link.row, name)
    ensures Unanswered(trail + [link], name) <==> Unanswered(trail, name) && !Answers(link.row, name)
  {
    var more := trail + [link];
    assert forall j | 0 <= j < |trail| :: more[j] == trail[j];
    assert more[|trail|] == link;
  }

  /** A row adds its answers to what its task was given. */
  lemma NextAnswers(scan: Scan, trail: seq<Link>, link: Link, context: Context, next: Context)
    requires CarriesAnswers(scan, trail, context) && next == context + OutputPayload(link.row)
    ensures CarriesAnswers(scan, trail + [link], next)
  {
    forall k: nat, name | LatestAnswer(trail + [link], k, name)
      ensures name in next && next[name] == (trail + [link])[k].row.answer.fields[name]
    {
      AnswersExtend(trail, link, k, name);
    }
    forall name ensures Unanswered(trail + [link], name) <==> Unanswered(trail, name) && !Answers(link.row, name) {
      AnswersExtend(trail, link, 0, name);
    }
  }

  /** It leaves the batches alone. */
  lemma NextBatches(
    plan: seq<Level>, w: Workload, p: Progress, n: nat, row: Row, context: Context, next: Context)
    requires CarriesBatches(plan, w, p, n, context) && NoBatchAnswer(row) && next == context + OutputPayload(row)
    ensures CarriesBatches(plan, w, p, n, next)
  {
    forall c: nat, name | BatchNamed(plan, n, c, name)
      ensures name in next && next[name] == BatchArray(w, p, c)
    {
      BatchNameIsBatchKey(plan, n, c, name);
    }
  }

  /** A depth that is no barrier has the batches of the depth before. */
  lemma SameBatches(plan: seq<Level>, w: Workload, p: Progress, n: nat, m: nat, context: Context)
    requires CarriesBatches(plan, w, p, n, context) && m == n + 1 <= |plan| && !ConsumesAll(plan[n])
    ensures CarriesBatches(plan, w, p, m, context)
  {
    forall c: nat, name | BatchNamed(plan, m, c, name) ensures name in context && context[name] == BatchArray(w, p, c) {
      assert BatchNamed(plan, n, c, name);
    }
    forall name | name in context && IsBatchKey(name) ensures IsBatch(plan, m, name) {
      var c: nat :| BatchNamed(plan, n, c, name);
      assert BatchNamed(plan, m, c, name);
    }
  }

  /** A barrier adds its own batch to those before. */
  lemma OneBatchMore(
    plan: seq<Level>, w: Workload, p: Progress, n: nat, m: nat, own: string, older: Context, context: Context)
    requires DifferentDepths(plan) && CarriesBatches(plan, w, p, n, older)
    requires m == n + 1 && BatchNamed(plan, m, n, own)
    requires forall name | IsBatchKey(name) && name != own ::
      (name in context <==> name in older) && (name in context ==> context[name] == older[name])
    requires own in context && context[own] == BatchArray(w, p, n)
    ensures CarriesBatches(plan, w, p, m, context)
  {
    forall c: nat, name | BatchNamed(plan, m, c, name) ensures name in context && context[name] == BatchArray(w, p, c) {
      BatchNameIsBatchKey(plan, m, c, name);
      if c < n {
        assert BatchNamed(plan, n, c, name);
        if name == own {
          BatchesDiffer(plan, m, c, n, name);
        }
      }
    }
    forall name | name in context && IsBatchKey(name) ensures IsBatch(plan, m, name) {
      if name != own {
        var c: nat :| BatchNamed(plan, n, c, name);
        assert BatchNamed(plan, m, c, name);
      }
    }
  }

  lemma BatchStateIs(scan: Scan, states: seq<State>, depth: nat)
    requires states != [] && forall name | name in scan.context :: !IsBatchKey(name)
    ensures var own, context := BatchKey(depth), BatchState(scan, states, depth).context;
            && own in context && context[own] == Arr(StateOutputs(states))
            && (forall name | IsBatchKey(name) && name != own ::
                  (name in context <==> name in states[0].context) &&
                  (name in context ==> context[name] == states[0].context[name]))
            && CarriesAnswers(scan, [], context)
  {
    BatchKeysAreBatchKeys(depth);
  }

  /** A barrier keeps the earlier batches, adds its own, and lets go of everything else but the scan's settings. */
  lemma BatchContext(
    scan: Scan, plan: seq<Level>, w: Workload, p: Progress, n: nat, m: nat, states: seq<State>)
    requires DifferentDepths(plan) && m == n + 1 <= |plan| && ConsumesAll(plan[n]) && states != []
    requires CarriesBatches(plan, w, p, n, states[0].context)
    requires Arr(StateOutputs(states)) == BatchArray(w, p, n)
    requires forall name | name in scan.context :: !IsBatchKey(name)
    ensures ContextIs(scan, plan, w, p, m, [], BatchState(scan, states, plan[n].depth - 1).context)
  {
    var own, context := BatchKey(plan[n].depth - 1), BatchState(scan, states, plan[n].depth - 1).context;
    BatchStateIs(scan, states, plan[n].depth - 1);
    assert BatchNamed(plan, m, n, own);
    OneBatchMore(plan, w, p, n, m, own, states[0].context, context);
  }

  // ---- Where a state comes from ----

  lemma DoneIsDone(task: Job, p: Progress, runs: nat)
    ensures Done(task, p, runs) <==> TaskDone(task, p.done, runs)
  {
    assert forall r: nat :: TaskKey(task, r) == Key(task.step.id, task.state.prevId, task.state.prevTable, r);
  }

  lemma OutputRow(t: Job, p: Progress, runs: nat, s: State) returns (r: nat, row: Row)
    requires s in Outputs(t, p.rows, runs)
    ensures !t.step.isLast && 1 <= r <= runs && row in p.rows(TaskKey(t, r)) && s == NextState(t.step, t.state, row)
  {
    OutputsMember(t, p.rows, runs, s);
    var q, j :| 1 <= q <= runs && 0 <= j < |p.rows(TaskKey(t, q))| &&
                s == NextState(t.step, t.state, p.rows(TaskKey(t, q))[j]);
    r, row := q, p.rows(TaskKey(t, q))[j];
  }

  lemma OutputTask(tasks: seq<Job>, p: Progress, runs: nat, s: State) returns (t: Job)
    requires s in DepthOutputs(tasks, p, runs)
    ensures t in tasks && Done(t, p, runs) && s in Outputs(t, p.rows, runs)
  {
    DepthOutputsMember(tasks, p, runs, s);
    t :| t in tasks && TaskDone(t, p.done, runs) && s in Outputs(t, p.rows, runs);
    DoneIsDone(t, p, runs);
  }

  /** A state that reaches a depth after the first follows from a row of the depth before. */
  lemma StateFollows(w: Workload, p: Progress, i: nat, s: State) returns (link: Link)
    requires i > 0 && s in FrontAt(w, p, i).states
    ensures Follows(w, p, i - 1, link, s) && s.context == link.task.state.context + OutputPayload(link.row)
  {
    var t := OutputTask(TasksAt(w, p, i - 1), p, w.runs, s);
    var r, row := OutputRow(t, p, w.runs, s);
    link := Link(t, r, row);
  }

  /** A task takes a state of its depth's front, or the batch of them all. */
  ghost predicate Takes(scan: Scan, level: Level, front: Front, s: State) {
    if ConsumesAll(level)
    then front.complete && front.states != [] && s == BatchState(scan, front.states, level.depth - 1)
    else s in front.states
  }

  /** A walk over a plan, with the facts about its tasks and rows that the contexts rest on. */
  ghost predicate Walks(scan: Scan, plan: seq<Level>, w: Workload, p: Progress) {
    && DifferentDepths(plan) && w.root == RootState(scan)
    && (forall name | name in scan.context :: !IsBatchKey(name))
    && (forall i: nat, t | i < |plan| && VisitedAt(w, p, i, t) :: Takes(scan, plan[i], FrontAt(w, p, i), t.state))
    && forall i: nat, link, s | i < |plan| && Follows(w, p, i, link, s) :: NoBatchAnswer(link.row)
  }

  lemma WorkflowWalks(scan: Scan, steps: seq<Step>, w: Workload, p: Progress)
    requires w == WorkloadOf(scan, steps) && NoBatchNames(scan, steps, p.rows)
    ensures Walks(scan, Plan(steps), w, p)
  {
    var plan := Plan(steps);
    forall i: nat, t | i < |plan| && VisitedAt(w, p, i, t) ensures Takes(scan, plan[i], FrontAt(w, p, i), t.state) {
      TasksMember(plan[i].steps, LevelInputs(scan, plan[i], FrontAt(w, p, i)), t);
    }
    forall i: nat, link, s | i < |plan| && Follows(w, p, i, link, s) ensures NoBatchAnswer(link.row) {
      TasksMember(plan[i].steps, LevelInputs(scan, plan[i], FrontAt(w, p, i)), link.task);
      StepsAtMember(steps, plan[i].depth);
    }
  }

  lemma LongerLineage(
    plan: seq<Level>, w: Workload, p: Progress, b: nat, i: nat, j: nat, trail: seq<Link>, link: Link, last: State)
    requires Lineage(plan, w, p, b, i, trail, link.task.state) && Follows(w, p, i, link, last)
    requires j == i + 1 < |plan| && !ConsumesAll(plan[j])
    ensures Lineage(plan, w, p, b, j, trail + [link], last)
  {
    var more := trail + [link];
    assert forall k | 0 <= k < |trail| :: more[k] == trail[k];
    forall k, depth | 0 <= k < |more| && depth == b + k ensures Chained(w, p, depth, more, k, last) {
      if k < |trail| {
        assert Chained(w, p, depth, trail, k, link.task.state);
        assert StateAfter(more, k + 1, last) == StateAfter(trail, k + 1, link.task.state);
      }
    }
  }

  /** The array of a barrier holds the answers of the depth before. */
  lemma FrontIsBatch(w: Workload, p: Progress, i: nat)
    requires FrontAt(w, p, i).complete && w.root.output.None?
    ensures Arr(StateOutputs(FrontAt(w, p, i).states)) == BatchArray(w, p, i)
  {
    CompleteMeansDone(w, p, i);
    if i > 0 {
      DepthOutputsArePayloads(TasksAt(w, p, i - 1), p, w.runs);
    }
  }

  /** The values of a state that a row leads to, at a depth that is no barrier. */
  lemma RowContext(
    scan: Scan, plan: seq<Level>, w: Workload, p: Progress, n: nat, m: nat, trail: seq<Link>, link: Link, s: State)
    requires m == n + 1 <= |plan| && !ConsumesAll(plan[n]) && NoBatchAnswer(link.row)
    requires ContextIs(scan, plan, w, p, n, trail, link.task.state.context)
    requires s.context == link.task.state.context + OutputPayload(link.row)
    ensures ContextIs(scan, plan, w, p, m, trail + [link], s.context)
  {
    NextAnswers(scan, trail, link, link.task.state.context, s.context);
    NextBatches(plan, w, p, n, link.row, link.task.state.context, s.context);
    SameBatches(plan, w, p, n, m, s.context);
  }

  lemma RootContext(scan: Scan, plan: seq<Level>, w: Workload, p: Progress)
    requires forall name | name in scan.context :: !IsBatchKey(name)
    ensures CarriesAnswers(scan, [], scan.context) && CarriesBatches(plan, w, p, 0, scan.context)
  {
  }

  lemma TakesRow(scan: Scan, plan: seq<Level>, w: Workload, p: Progress, i: nat, t: Job) returns (link: Link)
    requires Walks(scan, plan, w, p) && 0 < i < |plan| && VisitedAt(w, p, i, t) && !ConsumesAll(plan[i])
    ensures Follows(w, p, i - 1, link, t.state) && NoBatchAnswer(link.row)
    ensures t.state.context == link.task.state.context + OutputPayload(link.row)
  {
    assert Takes(scan, plan[i], FrontAt(w, p, i), t.state);
    link := StateFollows(w, p, i, t.state);
  }

  lemma TakesRoot(scan: Scan, plan: seq<Level>, w: Workload, p: Progress, t: Job)
    requires Walks(scan, plan, w, p) && plan != [] && VisitedAt(w, p, 0, t) && !ConsumesAll(plan[0])
    ensures Lineage(plan, w, p, 0, 0, [], t.state) && ContextIs(scan, plan, w, p, 1, [], t.state.context)
  {
    assert Takes(scan, plan[0], FrontAt(w, p, 0), t.state);
    RootContext(scan, plan, w, p);
    SameBatches(plan, w, p, 0, 1, scan.context);
  }

  lemma {:induction false} TaskContext(scan: Scan, plan: seq<Level>, w: Workload, p: Progress, i: nat, t: Job)
    returns (b: nat, trail: seq<Link>)
    requires Walks(scan, plan, w, p) && i < |plan| && VisitedAt(w, p, i, t)
    ensures Lineage(plan, w, p, b, i, trail, t.state)
    ensures ContextIs(scan, plan, w, p, i + 1, trail, t.state.context)
    decreases i, 2
  {
    if ConsumesAll(plan[i]) {
      b, trail := i, [];
      BatchTaskContext(scan, plan, w, p, i, t);
    } else if i == 0 {
      b, trail := 0, [];
      TakesRoot(scan, plan, w, p, t);
    } else {
      var link := TakesRow(scan, plan, w, p, i, t);
      b, trail := TaskContext(scan, plan, w, p, i - 1, link.task);
      LongerLineage(plan, w, p, b, i - 1, i, trail, link, t.state);
      RowContext(scan, plan, w, p, i, i + 1, trail, link, t.state);
      trail := trail + [link];
    }
  }

  lemma FirstState(w: Workload, p: Progress, i: nat, s: State) returns (link: Link)
    requires i > 0 && FrontAt(w, p, i).states != [] && s == FrontAt(w, p, i).states[0]
    ensures Follows(w, p, i - 1, link, s) && s.context == link.task.state.context + OutputPayload(link.row)
  {
    assert s in FrontAt(w, p, i).states;
    link := StateFollows(w, p, i, s);
  }

  lemma RootBatches(scan: Scan, plan: seq<Level>, w: Workload, p: Progress, s: State)
    requires Walks(scan, plan, w, p) && s == FrontAt(w, p, 0).states[0]
    ensures CarriesBatches(plan, w, p, 0, s.context)
  {
    RootContext(scan, plan, w, p);
  }

  lemma {:induction false} FrontBatches(
    scan: Scan, plan: seq<Level>, w: Workload, p: Progress, i: nat, s: State)
    requires Walks(scan, plan, w, p) && i < |plan|
    requires FrontAt(w, p, i).states != [] && s == FrontAt(w, p, i).states[0]
    ensures CarriesBatches(plan, w, p, i, s.context)
    decreases i, 0
  {
    if i == 0 {
      RootBatches(scan, plan, w, p, s);
    } else {
      var link := FirstState(w, p, i, s);
      RowBatches(scan, plan, w, p, i - 1, i, link, s.context);
    }
  }

  lemma {:induction false} RowBatches(
    scan: Scan, plan: seq<Level>, w: Workload, p: Progress, i: nat, next: nat, link: Link, context: Context)
    requires Walks(scan, plan, w, p) && next == i + 1 < |plan|
    requires VisitedAt(w, p, i, link.task) && NoBatchAnswer(link.row)
    requires context == link.task.state.context + OutputPayload(link.row)
    ensures CarriesBatches(plan, w, p, next, context)
    decreases i, 3
  {
    var b, trail := TaskContext(scan, plan, w, p, i, link.task);
    NextBatches(plan, w, p, next, link.row, link.task.state.context, context);
  }

  lemma {:induction false} BatchTaskContext(scan: Scan, plan: seq<Level>, w: Workload, p: Progress, i: nat, t: Job)
    requires Walks(scan, plan, w, p) && i < |plan| && VisitedAt(w, p, i, t) && ConsumesAll(plan[i])
    ensures Fresh(t.state) && ContextIs(scan, plan, w, p, i + 1, [], t.state.context)
    decreases i, 1
  {
    assert Takes(scan, plan[i], FrontAt(w, p, i), t.state);
    FrontBatches(scan, plan, w, p, i, FrontAt(w, p, i).states[0]);
    FrontIsBatch(w, p, i);
    BatchContext(scan, plan, w, p, i, i + 1, FrontAt(w, p, i).states);
  }

  /**
   What every job is given: in every state of every run, the context of a task is made of the answers
   of one row of every depth since the last barrier, each row following from the one before and a later
   answer to a name replacing an earlier one, of the arrays formed at the barriers up to its depth, and
   of the scan's settings.
   */
  lemma EveryContextIs(scan: Scan, steps: seq<Step>, w: Workload, p: Progress, i: nat, t: Job)
    returns (b: nat, trail: seq<Link>)
    requires w == WorkloadOf(scan, steps) && NoBatchNames(scan, steps, p.rows)
    requires i < |Plan(steps)| && VisitedAt(w, p, i, t)
    ensures Lineage(Plan(steps), w, p, b, i, trail, t.state)
    ensures ContextIs(scan, Plan(steps), w, p, i + 1, trail, t.state.context)
  {
    WorkflowWalks(scan, steps, w, p);
    b, trail := TaskContext(scan, Plan(steps), w, p, i, t);
  }

  // ---- Nothing is lost on the way ----

  lemma {:induction false} StateServed(scan: Scan, steps: seq<Step>, w: Workload, p: Progress, i: nat, t: Job)
    requires w == WorkloadOf(scan, steps) && i < |Plan(steps)| && !ConsumesAll(Plan(steps)[i])
    requires t.step in Plan(steps)[i].steps && t.state in FrontAt(w, p, i).states && Accepts(t.step, t.state)
    ensures VisitedAt(w, p, i, t)
  {
    TasksMember(Plan(steps)[i].steps, LevelInputs(scan, Plan(steps)[i], FrontAt(w, p, i)), t);
  }

  lemma {:induction false} BatchServed(scan: Scan, steps: seq<Step>, w: Workload, p: Progress, i: nat, t: Job)
    requires w == WorkloadOf(scan, steps) && i < |Plan(steps)| && ConsumesAll(Plan(steps)[i])
    requires FrontAt(w, p, i).complete && FrontAt(w, p, i).states != []
    requires t.step in Plan(steps)[i].steps && t.step.boundSource.None?
    requires t.state == BatchState(scan, FrontAt(w, p, i).states, Plan(steps)[i].depth - 1)
    ensures VisitedAt(w, p, i, t)
  {
    TasksMember(Plan(steps)[i].steps, LevelInputs(scan, Plan(steps)[i], FrontAt(w, p, i)), t);
  }

  /** The scan itself reaches every step of the first depth. */
  lemma RootReaches(scan: Scan, steps: seq<Step>, w: Workload, p: Progress, step: Step) returns (t: Job)
    requires w == WorkloadOf(scan, steps) && Plan(steps) != [] && !ConsumesAll(Plan(steps)[0])
    requires step in Plan(steps)[0].steps && step.boundSource.None?
    ensures VisitedAt(w, p, 0, t) && t.step == step && Fresh(t.state) && t.state.context == scan.context
  {
    t := Job(step, RootState(scan));
    StateServed(scan, steps, w, p, 0, t);
  }

  lemma RowIsOutput(task: Job, p: Progress, runs: nat, r: nat, row: Row)
    requires !task.step.isLast && 1 <= r <= runs && row in p.rows(TaskKey(task, r))
    ensures NextState(task.step, task.state, row) in Outputs(task, p.rows, runs)
  {
    var j :| 0 <= j < |p.rows(TaskKey(task, r))| && p.rows(TaskKey(task, r))[j] == row;
    OutputsMember(task, p.rows, runs, NextState(task.step, task.state, row));
  }

  /** A row of a finished task is in the front of the next depth. */
  lemma RowIsFront(w: Workload, p: Progress, i: nat, next: nat, link: Link)
    requires Feeds(w, p, i, link) && next == i + 1
    ensures var s := NextState(link.task.step, link.task.state, link.row);
            s in FrontAt(w, p, next).states && Follows(w, p, i, link, s)
  {
    var s := NextState(link.task.step, link.task.state, link.row);
    DoneIsDone(link.task, p, w.runs);
    RowIsOutput(link.task, p, w.runs, link.repeat, link.row);
    DepthOutputsMember(TasksAt(w, p, i), p, w.runs, s);
  }

  /** A finished task has a row for the next depth. */
  ghost predicate Feeds(w: Workload, p: Progress, i: nat, link: Link) {
    && VisitedAt(w, p, i, link.task) && Done(link.task, p, w.runs) && !link.task.step.isLast
    && 1 <= link.repeat <= w.runs
    && link.row in p.rows(
         Key(link.task.step.id, link.task.state.prevId, link.task.state.prevTable, link.repeat))
  }

  /** Every row of every repeat of a finished task reaches every step of the next depth that takes it. */
  lemma RowReaches(scan: Scan, steps: seq<Step>, w: Workload, p: Progress, i: nat, next: nat, link: Link, step: Step)
    returns (t: Job)
    requires w == WorkloadOf(scan, steps) && next == i + 1 < |Plan(steps)| && !ConsumesAll(Plan(steps)[next])
    requires Feeds(w, p, i, link) && step in Plan(steps)[next].steps
    requires step.boundSource.None? || step.boundSource == Some(link.task.step.id)
    ensures VisitedAt(w, p, next, t) && t.step == step && Follows(w, p, i, link, t.state)
  {
    t := Job(step, NextState(link.task.step, link.task.state, link.row));
    RowIsFront(w, p, i, next, link);
    StateServed(scan, steps, w, p, next, t);
  }

  lemma EarlierAreComplete(w: Workload, p: Progress, n: nat)
    requires forall j, task | 0 <= j < n && VisitedAt(w, p, j, task) :: Done(task, p, w.runs)
    ensures FrontAt(w, p, n).complete
  {
    forall j | 0 <= j < n ensures DoneAt(w, p, j) {
      forall task | task in TasksAt(w, p, j) ensures TaskDone(task, p.done, w.runs) {
        assert VisitedAt(w, p, j, task);
        DoneIsDone(task, p, w.runs);
      }
    }
    CompleteMeansDone(w, p, n);
  }

  /** Once every earlier task is finished, a depth that consumes all runs its steps, if a row came in. */
  lemma BatchReaches(
    scan: Scan, steps: seq<Step>, w: Workload, p: Progress, i: nat, next: nat, link: Link, step: Step)
    returns (t: Job)
    requires w == WorkloadOf(scan, steps) && next == i + 1 < |Plan(steps)| && ConsumesAll(Plan(steps)[next])
    requires forall j, task | 0 <= j < next && VisitedAt(w, p, j, task) :: Done(task, p, w.runs)
    requires Feeds(w, p, i, link) && step in Plan(steps)[next].steps && step.boundSource.None?
    ensures VisitedAt(w, p, next, t) && t.step == step
  {
    EarlierAreComplete(w, p, next);
    RowIsFront(w, p, i, next, link);
    var states := FrontAt(w, p, next).states;
    t := Job(step, BatchState(scan, states, Plan(steps)[next].depth - 1));
    BatchServed(scan, steps, w, p, next, t);
  }

  /** A pending job is its task with a repeat: the first that is not finished, and one nobody holds. */
  lemma PendingJobIs(w: Workload, p: Progress, claimed: iset<Key>, job: Job) returns (i: nat, t: Job)
    requires job in Pending(w, p, claimed)
    ensures i < w.depths && VisitedAt(w, p, i, t) && job.step == t.step
    ensures var s, r := job.state, job.state.repeatRun;
            && s.prevId == t.state.prevId && s.prevTable == t.state.prevTable && s.source == t.state.source
            && s.context == t.state.context && s.output == t.state.output
            && 1 <= r <= w.runs
            && (forall q | 1 <= q < r :: Key(t.step.id, s.prevId, s.prevTable, q) in p.done)
            && Key(t.step.id, s.prevId, s.prevTable, r) !in p.done
            && Key(t.step.id, s.prevId, s.prevTable, r) !in claimed
  {
    PendingIsReady(w, p, claimed, job);
    t :| Visited(w, p, t) && Ready(job, t, p, claimed, w.runs);
    i :| 0 <= i < w.depths && VisitedAt(w, p, i, t);
    assert forall q: nat :: TaskKey(t, q) == Key(t.step.id, t.state.prevId, t.state.prevTable, q);
  }

  // ---- The order of the walk ----

  /** Where a task stands: its step's position among the steps, its state's among the states. */
  datatype Place = Place(step: nat, state: nat)

  predicate PlaceBefore(a: Place, b: Place) {
    a.step < b.step || (a.step == b.step && a.state < b.state)
  }

  /** A task stands at its place. */
  ghost predicate StandsAt(steps: seq<Step>, states: seq<State>, task: Job, place: Place) {
    && place.step < |steps| && place.state < |states|
    && task == Job(steps[place.step], states[place.state]) && Accepts(steps[place.step], states[place.state])
  }

  /** Every routed pair once, step by step, and for each step state by state. */
  ghost predicate Placed(steps: seq<Step>, states: seq<State>, tasks: seq<Job>, places: seq<Place>) {
    && |places| == |tasks|
    && (forall x | 0 <= x < |places| :: StandsAt(steps, states, tasks[x], places[x]))
    && (forall x, y | 0 <= x < y < |places| :: PlaceBefore(places[x], places[y]))
    && forall a: nat, b: nat | a < |steps| && b < |states| && Accepts(steps[a], states[b]) :: Place(a, b) in places
  }

  /** The positions a step takes, in order. */
  ghost predicate Routed(step: Step, states: seq<State>, routed: seq<State>, at: seq<nat>) {
    && |at| == |routed|
    && (forall x | 0 <= x < |at| :: at[x] < |states| && routed[x] == states[at[x]] && Accepts(step, states[at[x]]))
    && (forall x, y | 0 <= x < y < |at| :: at[x] < at[y])
    && forall b: nat | b < |states| && Accepts(step, states[b]) :: b in at
  }

  function Shift(at: seq<nat>): seq<nat> {
    seq(|at|, x requires 0 <= x < |at| => at[x] + 1)
  }

  lemma {:induction false} ShiftIs(at: seq<nat>, b: nat)
    requires b > 0 && b - 1 in at
    ensures b in Shift(at)
  {
    var x :| 0 <= x < |at| && at[x] == b - 1;
    assert Shift(at)[x] == b;
  }

  lemma {:induction false} RoutedSkip(step: Step, states: seq<State>, routed: seq<State>, rest: seq<nat>)
    requires states != [] && !Accepts(step, states[0]) && Routed(step, states[1..], routed, rest)
    ensures Routed(step, states, routed, Shift(rest))
  {
    forall b: nat | b < |states| && Accepts(step, states[b]) ensures b in Shift(rest) {
      assert Accepts(step, states[1..][b - 1]);
      ShiftIs(rest, b);
    }
  }

  lemma {:induction false} RoutedCovers(step: Step, states: seq<State>, rest: seq<nat>, b: nat)
    requires b < |states| && Accepts(step, states[b])
    requires forall b: nat | b < |states[1..]| && Accepts(step, states[1..][b]) :: b in rest
    ensures b in [0] + Shift(rest)
  {
    if b > 0 {
      assert Accepts(step, states[1..][b - 1]);
      ShiftIs(rest, b);
    } else {
      assert ([0] + Shift(rest))[0] == 0;
    }
  }

  lemma {:induction false} RoutedStands(step: Step, states: seq<State>, routed: seq<State>, rest: seq<nat>, x: nat)
    requires states != [] && Accepts(step, states[0]) && x <= |rest| && |routed| == |rest|
    requires forall x | 0 <= x < |rest| ::
      rest[x] < |states[1..]| && routed[x] == states[1..][rest[x]] && Accepts(step, states[1..][rest[x]])
    ensures var at, more := [0] + Shift(rest), [states[0]] + routed;
            |at| == |more| && at[x] < |states| && more[x] == states[at[x]] && Accepts(step, states[at[x]])
  {
    if x > 0 {
      assert ([0] + Shift(rest))[x] == rest[x - 1] + 1;
      assert states[1..][rest[x - 1]] == states[rest[x - 1] + 1];
    }
  }

  lemma {:induction false} RoutedAscend(rest: seq<nat>)
    requires forall x, y | 0 <= x < y < |rest| :: rest[x] < rest[y]
    ensures var at := [0] + Shift(rest); forall x, y | 0 <= x < y < |at| :: at[x] < at[y]
  {
  }

  lemma {:induction false} RoutedTake(step: Step, states: seq<State>, routed: seq<State>, rest: seq<nat>)
    requires states != [] && Accepts(step, states[0]) && Routed(step, states[1..], routed, rest)
    ensures Routed(step, states, [states[0]] + routed, [0] + Shift(rest))
  {
    var at := [0] + Shift(rest);
    RoutedAscend(rest);
    assert |at| == |[states[0]] + routed|;
    forall x | 0 <= x < |at|
      ensures at[x] < |states| && ([states[0]] + routed)[x] == states[at[x]] && Accepts(step, states[at[x]])
    {
      RoutedStands(step, states, routed, rest, x);
    }
    forall b: nat | b < |states| && Accepts(step, states[b]) ensures b in at {
      RoutedCovers(step, states, rest, b);
    }
  }

  lemma {:induction false} RouteInOrder(step: Step, states: seq<State>) returns (at: seq<nat>)
    ensures Routed(step, states, Route(step, states), at)
  {
    if states == [] {
      at := [];
    } else {
      var rest := RouteInOrder(step, states[1..]);
      var routed := Route(step, states[1..]);
      if Accepts(step, states[0]) {
        at := [0] + Shift(rest);
        RoutedTake(step, states, routed, rest);
      } else {
        at := Shift(rest);
        assert [] + routed == routed;
        RoutedSkip(step, states, routed, rest);
      }
    }
  }

  function FirstStep(at: seq<nat>): seq<Place> {
    seq(|at|, x requires 0 <= x < |at| => Place(0, at[x]))
  }

  function NextStep(places: seq<Place>): seq<Place> {
    seq(|places|, x requires 0 <= x < |places| => Place(places[x].step + 1, places[x].state))
  }

  lemma {:induction false} PlacesCover(
    steps: seq<Step>, states: seq<State>, at: seq<nat>, rest: seq<Place>, a: nat, b: nat)
    requires steps != [] && a < |steps| && b < |states| && Accepts(steps[a], states[b])
    requires forall b: nat | b < |states| && Accepts(steps[0], states[b]) :: b in at
    requires forall a: nat, b: nat | a < |steps[1..]| && b < |states| && Accepts(steps[1..][a], states[b]) ::
      Place(a, b) in rest
    ensures Place(a, b) in FirstStep(at) + NextStep(rest)
  {
    if a == 0 {
      var x :| 0 <= x < |at| && at[x] == b;
      assert FirstStep(at)[x] == Place(0, b);
    } else {
      assert Accepts(steps[1..][a - 1], states[b]);
      var x :| 0 <= x < |rest| && rest[x] == Place(a - 1, b);
      assert NextStep(rest)[x] == Place(a, b);
    }
  }

  lemma {:induction false} PlacesAscend(at: seq<nat>, rest: seq<Place>)
    requires forall x, y | 0 <= x < y < |at| :: at[x] < at[y]
    requires forall x, y | 0 <= x < y < |rest| :: PlaceBefore(rest[x], rest[y])
    ensures var places := FirstStep(at) + NextStep(rest);
            forall x, y | 0 <= x < y < |places| :: PlaceBefore(places[x], places[y])
  {
  }

  lemma {:induction false} PlacesStand(
    steps: seq<Step>, states: seq<State>, own: seq<Job>, others: seq<Job>, at: seq<nat>, rest: seq<Place>, x: nat)
    requires steps != [] && |own| == |at| && |others| == |rest| && x < |own + others|
    requires x < |at| ==> StandsAt(steps, states, own[x], Place(0, at[x]))
    requires x >= |at| ==> StandsAt(steps[1..], states, others[x - |at|], rest[x - |at|])
    ensures |FirstStep(at) + NextStep(rest)| == |own + others|
    ensures StandsAt(steps, states, (own + others)[x], (FirstStep(at) + NextStep(rest))[x])
  {
    assert x >= |at| ==> (FirstStep(at) + NextStep(rest))[x] == NextStep(rest)[x - |at|];
  }

  lemma {:induction false} PlacedMore(steps: seq<Step>, states: seq<State>, at: seq<nat>, rest: seq<Place>)
    requires steps != [] && Routed(steps[0], states, Route(steps[0], states), at)
    requires Placed(steps[1..], states, Tasks(steps[1..], states), rest)
    ensures Placed(steps, states, Tasks(steps, states), FirstStep(at) + NextStep(rest))
  {
    var places := FirstStep(at) + NextStep(rest);
    var own, others := TasksOf(steps[0], Route(steps[0], states)), Tasks(steps[1..], states);
    PlacesAscend(at, rest);
    assert |places| == |own + others|;
    forall x | 0 <= x < |places| ensures StandsAt(steps, states, (own + others)[x], places[x]) {
      PlacesStand(steps, states, own, others, at, rest, x);
    }
    forall a: nat, b: nat | a < |steps| && b < |states| && Accepts(steps[a], states[b]) ensures Place(a, b) in places {
      PlacesCover(steps, states, at, rest, a, b);
    }
  }

  /** The tasks of a depth are walked step by step, and for each step in the order in which the states come in. */
  lemma {:induction false} TasksInOrder(steps: seq<Step>, states: seq<State>) returns (places: seq<Place>)
    ensures Placed(steps, states, Tasks(steps, states), places)
  {
    if steps == [] {
      places := [];
    } else {
      var at := RouteInOrder(steps[0], states);
      var rest := TasksInOrder(steps[1..], states);
      PlacedMore(steps, states, at, rest);
      places := FirstStep(at) + NextStep(rest);
    }
  }
}
