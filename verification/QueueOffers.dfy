/**
 The list the scheduler returns: no duplicates, repeats in sequence, deepest first; and bound
 routing, which loses and duplicates nothing.
 */
module QueueOffers {
  import opened Wrappers
  import opened WorkflowQueue
  import opened Sorting
  import opened QueueProperties

  function StateTag(s: State): int {
    s.prevId
  }

  /** The task a job belongs to: the same step and lineage, whatever the repeat. */
  function TaskTag(j: Job): (int, int, Option<string>) {
    (j.step.id, j.state.prevId, j.state.prevTable)
  }

  /** A depth never visits a task twice, and a step id belongs to one depth, which `level` gives. */
  ghost predicate StageDistinct(w: Workload, level: int -> nat) {
    && (forall i: nat, f: Front {:trigger w.stage(i, f)} ::
          Distinct(f.states, StateTag) ==> Distinct(w.stage(i, f), TaskTag))
    && (forall i: nat, f: Front, t: Job {:trigger t in w.stage(i, f)} ::
          t in w.stage(i, f) ==> level(t.step.id) == i)
  }

  lemma {:induction false} StepsAtDistinct(steps: seq<Step>, depth: nat)
    requires UniqueIds(steps)
    ensures Distinct(StepsAt(steps, depth), StepTag)
  {
    if steps != [] {
      StepsAtDistinct(steps[1..], depth);
      StepsAtMember(steps[1..], depth);
      forall t | t in steps[1..] ensures t.id != steps[0].id {
        HeadDiffers(steps, StepTag, t);
      }
      DistinctJoin(if steps[0].depth == depth then [steps[0]] else [], StepsAt(steps[1..], depth), StepTag);
    }
  }

  lemma SameStep(steps: seq<Step>, s: Step, t: Step)
    requires UniqueIds(steps) && s in steps && t in steps && s.id == t.id
    ensures s == t
  {
    var i :| 0 <= i < |steps| && steps[i] == s;
    var j :| 0 <= j < |steps| && steps[j] == t;
    assert StepTag(steps[i]) == StepTag(steps[j]);
  }

  // ---- Tasks and states have pairwise different lineages ----

  lemma {:induction false} RouteDistinct(step: Step, states: seq<State>)
    requires Distinct(states, StateTag)
    ensures Distinct(Route(step, states), StateTag)
  {
    if states != [] {
      RouteDistinct(step, states[1..]);
      forall s | s in Route(step, states[1..]) ensures StateTag(states[0]) != StateTag(s) {
        RouteMember(step, states[1..], s);
        HeadDiffers(states, StateTag, s);
      }
      DistinctJoin(if Accepts(step, states[0]) then [states[0]] else [], Route(step, states[1..]), StateTag);
    }
  }

  lemma {:induction false} TasksDistinct(steps: seq<Step>, states: seq<State>)
    requires Distinct(steps, StepTag) && Distinct(states, StateTag)
    ensures Distinct(Tasks(steps, states), TaskTag)
  {
    if steps != [] {
      TasksDistinct(steps[1..], states);
      RouteDistinct(steps[0], states);
      var own := TasksOf(steps[0], Route(steps[0], states));
      assert forall i | 0 <= i < |own| :: StateTag(own[i].state) == TaskTag(own[i]).1;
      forall x, y | x in own && y in Tasks(steps[1..], states) ensures TaskTag(x) != TaskTag(y) {
        TasksMember(steps[1..], states, y);
        HeadDiffers(steps, StepTag, y.step);
      }
      DistinctJoin(own, Tasks(steps[1..], states), TaskTag);
    }
  }

  lemma {:induction false} OutputsDistinct(task: Job, rows: Key -> seq<Row>, runs: nat)
    requires UniqueRows(rows)
    ensures Distinct(Outputs(task, rows, runs), StateTag)
  {
    if runs > 0 {
      OutputsDistinct(task, rows, runs - 1);
      var before, last := Outputs(task, rows, runs - 1), NextStates(task, rows(TaskKey(task, runs)));
      forall x, y | x in before && y in last ensures StateTag(x) != StateTag(y) {
        OutputsMember(task, rows, runs - 1, x);
      }
      DistinctJoin(before, last, StateTag);
    }
  }

  lemma {:induction false} DepthOutputsDistinct(tasks: seq<Job>, p: Progress, runs: nat)
    requires UniqueRows(p.rows) && Distinct(tasks, TaskTag)
    ensures Distinct(DepthOutputs(tasks, p, runs), StateTag)
  {
    if tasks != [] {
      DepthOutputsDistinct(tasks[1..], p, runs);
      OutputsDistinct(tasks[0], p.rows, runs);
      var own := if TaskDone(tasks[0], p.done, runs) then Outputs(tasks[0], p.rows, runs) else [];
      var rest := DepthOutputs(tasks[1..], p, runs);
      forall x, y | x in own && y in rest ensures StateTag(x) != StateTag(y) {
        OutputsMember(tasks[0], p.rows, runs, x);
        DepthOutputsMember(tasks[1..], p, runs, y);
        var t :| t in tasks[1..] && y in Outputs(t, p.rows, runs);
        OutputsMember(t, p.rows, runs, y);
        HeadDiffers(tasks, TaskTag, t);
      }
      DistinctJoin(own, rest, StateTag);
    }
  }

  lemma LevelDistinct(scan: Scan, steps: seq<Step>, depth: nat, front: Front)
    requires UniqueIds(steps) && Distinct(front.states, StateTag)
    ensures Distinct(LevelTasks(scan, Level(depth, StepsAt(steps, depth)), front), TaskTag)
  {
    StepsAtDistinct(steps, depth);
    TasksDistinct(StepsAt(steps, depth), LevelInputs(scan, Level(depth, StepsAt(steps, depth)), front));
  }

  lemma StepOfLevel(scan: Scan, steps: seq<Step>, depth: nat, front: Front, task: Job)
    requires task in LevelTasks(scan, Level(depth, StepsAt(steps, depth)), front)
    ensures task.step in steps && task.step.depth == depth
  {
    var level := Level(depth, StepsAt(steps, depth));
    StepsAtMember(steps, depth);
    TasksMember(level.steps, LevelInputs(scan, level, front), task);
  }

  ghost function LevelOfId(steps: seq<Step>, id: int): nat {
    if i: nat :| i < |Depths(steps)| && exists s :: s in steps && s.id == id && s.depth == Depths(steps)[i]
    then i else 0
  }

  lemma LevelOfIdIs(steps: seq<Step>, s: Step, i: nat)
    requires UniqueIds(steps) && s in steps && i < |Depths(steps)| && s.depth == Depths(steps)[i]
    ensures LevelOfId(steps, s.id) == i
  {
    var j := LevelOfId(steps, s.id);
    assert exists t :: t in steps && t.id == s.id && t.depth == Depths(steps)[i];
    var t :| t in steps && t.id == s.id && t.depth == Depths(steps)[j];
    SameStep(steps, s, t);
  }

  ghost function LevelsOf(steps: seq<Step>): int -> nat {
    id => LevelOfId(steps, id)
  }

  /** Every workflow with unique step ids has the property. */
  lemma WorkflowDistinct(scan: Scan, steps: seq<Step>)
    requires UniqueIds(steps)
    ensures StageDistinct(WorkloadOf(scan, steps), LevelsOf(steps))
  {
    var w, depths := WorkloadOf(scan, steps), Depths(steps);
    forall i: nat, f: Front | Distinct(f.states, StateTag) ensures Distinct(w.stage(i, f), TaskTag) {
      if i < |depths| {
        LevelDistinct(scan, steps, depths[i], f);
      }
    }
    forall i: nat, f: Front, t | t in w.stage(i, f) ensures LevelsOf(steps)(t.step.id) == i {
      StepOfLevel(scan, steps, depths[i], f, t);
      LevelOfIdIs(steps, t.step, i);
    }
  }

  lemma {:induction false} FrontDistinct(w: Workload, level: int -> nat, p: Progress, i: nat)
    requires StageDistinct(w, level) && UniqueRows(p.rows)
    ensures Distinct(FrontAt(w, p, i).states, StateTag)
  {
    if i > 0 {
      FrontDistinct(w, level, p, i - 1);
      DepthOutputsDistinct(TasksAt(w, p, i - 1), p, w.runs);
    }
  }

  lemma {:induction false} OffersDistinct(tasks: seq<Job>, p: Progress, claimed: iset<Key>, runs: nat)
    requires Distinct(tasks, TaskTag)
    ensures Distinct(Offers(tasks, p, claimed, runs), TaskTag)
  {
    if tasks != [] {
      OffersDistinct(tasks[1..], p, claimed, runs);
      var own, rest := Offer(tasks[0], p, claimed, runs), Offers(tasks[1..], p, claimed, runs);
      forall x, y | x in own && y in rest ensures TaskTag(x) != TaskTag(y) {
        OffersMember(tasks[1..], p, claimed, runs, y);
        var t :| t in tasks[1..] && y in Offer(t, p, claimed, runs);
        HeadDiffers(tasks, TaskTag, t);
      }
      DistinctJoin(own, rest, TaskTag);
    }
  }

  lemma OffersLevel(
    w: Workload, level: int -> nat, p: Progress, claimed: iset<Key>, i: nat, f: Front, x: Job)
    requires StageDistinct(w, level) && x in Offers(w.stage(i, f), p, claimed, w.runs)
    ensures level(x.step.id) == i
  {
    OffersMember(w.stage(i, f), p, claimed, w.runs, x);
    var t :| t in w.stage(i, f) && x in Offer(t, p, claimed, w.runs);
    assert t.step == x.step;
  }

  lemma PendingLevel(w: Workload, level: int -> nat, p: Progress, claimed: iset<Key>, n: nat, x: Job)
    requires StageDistinct(w, level) && x in PendingBelow(w, p, claimed, n)
    ensures level(x.step.id) < n
  {
    PendingMember(w, p, claimed, n, x);
    var i: nat :| i < n && OfferedAt(w, p, claimed, i, x);
    OffersMember(w.stage(i, FrontAt(w, p, i)), p, claimed, w.runs, x);
    OffersLevel(w, level, p, claimed, i, FrontAt(w, p, i), x);
  }

  lemma NextOffersDistinct(
    w: Workload, level: int -> nat, p: Progress, claimed: iset<Key>, n: nat, front: Front)
    requires StageDistinct(w, level) && Distinct(front.states, StateTag)
    requires Distinct(PendingBelow(w, p, claimed, n), TaskTag)
    ensures Distinct(PendingBelow(w, p, claimed, n) + Offers(w.stage(n, front), p, claimed, w.runs), TaskTag)
  {
    var before, offers := PendingBelow(w, p, claimed, n), Offers(w.stage(n, front), p, claimed, w.runs);
    OffersDistinct(w.stage(n, front), p, claimed, w.runs);
    forall x, y | x in before && y in offers ensures TaskTag(x) != TaskTag(y) {
      PendingLevel(w, level, p, claimed, n, x);
      OffersLevel(w, level, p, claimed, n, front, y);
    }
    DistinctJoin(before, offers, TaskTag);
  }

  ghost predicate FrontsDistinct(w: Workload, p: Progress) {
    forall i: nat :: Distinct(FrontAt(w, p, i).states, StateTag)
  }

  lemma {:induction false} PendingDistinct(
    w: Workload, level: int -> nat, p: Progress, claimed: iset<Key>, n: nat)
    requires StageDistinct(w, level) && FrontsDistinct(w, p)
    ensures Distinct(PendingBelow(w, p, claimed, n), TaskTag)
    decreases n
  {
    if n > 0 {
      PendingDistinct(w, level, p, claimed, n - 1);
      NextOffersDistinct(w, level, p, claimed, n - 1, FrontAt(w, p, n - 1));
    }
  }

  // ---- The returned list ----

  lemma BeforeIsTotal(value: OrderValue)
    ensures TotalPreorder((a, b) => Before(a, b, value))
  {
  }

  /** The order of the jobs: the deepest first, then the earliest repeat, then the first step, then by the value. */
  predicate InPriority(a: Job, b: Job, value: OrderValue) {
    var u, v := value(a), value(b);
    if a.step.depth != b.step.depth then a.step.depth > b.step.depth
    else if a.state.repeatRun != b.state.repeatRun then a.state.repeatRun < b.state.repeatRun
    else if a.step.order != b.step.order then a.step.order < b.step.order
    else if u.0 != v.0 then u.0 < v.0
    else if u.1 != v.1 then u.1 < v.1
    else u.2 <= v.2
  }

  lemma BeforeIsPriority(a: Job, b: Job, value: OrderValue)
    ensures Before(a, b, value) <==> InPriority(a, b, value)
  {
  }

  /** The jobs of the same priority as one, in order. */
  function Tied(jobs: seq<Job>, job: Job, value: OrderValue): seq<Job> {
    if jobs == [] then []
    else
      (if InPriority(jobs[0], job, value) && InPriority(job, jobs[0], value) then [jobs[0]] else [])
      + Tied(jobs[1..], job, value)
  }

  lemma {:induction false} TiedArePeers(jobs: seq<Job>, leq: (Job, Job) -> bool, job: Job, value: OrderValue)
    requires forall a, b :: leq(a, b) <==> Before(a, b, value)
    ensures Peers(jobs, leq, job) == Tied(jobs, job, value)
  {
    if jobs != [] {
      TiedArePeers(jobs[1..], leq, job, value);
      BeforeIsPriority(jobs[0], job, value);
      BeforeIsPriority(job, jobs[0], value);
    }
  }

  /** Jobs of the same priority stay in the order of the walk. */
  lemma TiesKeepOrder(found: seq<Job>, value: OrderValue, job: Job)
    ensures Tied(SortJobs(found, value), job, value) == Tied(found, job, value)
  {
    var leq := (a, b) => Before(a, b, value);
    BeforeIsTotal(value);
    SortStable(found, leq, job);
    TiedArePeers(found, leq, job, value);
    TiedArePeers(Sort(found, leq), leq, job, value);
    assert SortJobs(found, value) == Sort(found, leq);
  }

  lemma SortedByPriority(found: seq<Job>, value: OrderValue, i: nat, j: nat)
    requires i < j < |SortJobs(found, value)|
    ensures InPriority(SortJobs(found, value)[i], SortJobs(found, value)[j], value)
  {
    var leq := (a, b) => Before(a, b, value);
    BeforeIsTotal(value);
    SortSorted(found, leq);
    assert SortJobs(found, value) == Sort(found, leq);
    assert leq(Sort(found, leq)[i], Sort(found, leq)[j]);
    BeforeIsPriority(SortJobs(found, value)[i], SortJobs(found, value)[j], value);
  }

  /**
   The list handed to the workers: no task twice (so no key twice, and no two repeats of one task),
   exactly the first unfinished unclaimed repeats, sorted by priority, deepest jobs first.
   */
  lemma PendingListSound(
    scan: Scan, steps: seq<Step>, w: Workload, p: Progress, claimed: iset<Key>, value: OrderValue,
    jobs: seq<Job>)
    requires UniqueIds(steps) && UniqueRows(p.rows) && w == WorkloadOf(scan, steps)
    requires jobs == SortJobs(Pending(w, p, claimed), value)
    ensures Distinct(jobs, TaskTag)
    ensures forall job :: job in jobs <==> exists t :: Visited(w, p, t) && Ready(job, t, p, claimed, w.runs)
    ensures forall i, j | 0 <= i < j < |jobs| :: InPriority(jobs[i], jobs[j], value)
  {
    var leq := (a, b) => Before(a, b, value);
    var found := Pending(w, p, claimed);
    WorkflowDistinct(scan, steps);
    forall i: nat ensures Distinct(FrontAt(w, p, i).states, StateTag) {
      FrontDistinct(w, LevelsOf(steps), p, i);
    }
    PendingDistinct(w, LevelsOf(steps), p, claimed, w.depths);
    SortDistinct(found, leq, TaskTag);
    SameElements(found, leq);
    forall job
      ensures job in jobs <==> exists t :: Visited(w, p, t) && Ready(job, t, p, claimed, w.runs)
    {
      PendingIsReady(w, p, claimed, job);
    }
    forall i, j | 0 <= i < j < |jobs| ensures InPriority(jobs[i], jobs[j], value) {
      SortedByPriority(found, value, i, j);
    }
  }

  // ---- Bound routing ----

  /** How often the steps together take a state that came in so many times. */
  function Taken(steps: seq<Step>, s: State, times: nat): nat {
    if steps == [] then 0 else (if Accepts(steps[0], s) then times else 0) + Taken(steps[1..], s, times)
  }

  function StatesOf(tasks: seq<Job>): seq<State> {
    seq(|tasks|, i requires 0 <= i < |tasks| => tasks[i].state)
  }

  lemma {:induction false} RouteCount(step: Step, states: seq<State>, s: State)
    ensures multiset(Route(step, states))[s] == if Accepts(step, s) then multiset(states)[s] else 0
  {
    if states != [] {
      assert states == [states[0]] + states[1..];
      RouteCount(step, states[1..], s);
    }
  }

  lemma StatesOfJoin(a: seq<Job>, b: seq<Job>)
    ensures StatesOf(a + b) == StatesOf(a) + StatesOf(b)
  {
  }

  lemma OwnCount(step: Step, states: seq<State>, rest: seq<Job>, s: State)
    ensures multiset(StatesOf(TasksOf(step, Route(step, states)) + rest))[s]
         == (if Accepts(step, s) then multiset(states)[s] else 0) + multiset(StatesOf(rest))[s]
  {
    var routed := Route(step, states);
    RouteCount(step, states, s);
    assert StatesOf(TasksOf(step, routed)) == routed;
    StatesOfJoin(TasksOf(step, routed), rest);
  }

  lemma {:induction false} TasksCount(steps: seq<Step>, states: seq<State>, s: State)
    ensures multiset(StatesOf(Tasks(steps, states)))[s] == Taken(steps, s, multiset(states)[s])
  {
    if steps != [] {
      TasksCount(steps[1..], states, s);
      OwnCount(steps[0], states, Tasks(steps[1..], states), s);
    }
  }

  lemma {:induction false} OneTaker(steps: seq<Step>, s: State, times: nat)
    requires Distinct(steps, SourceTag) && forall t | t in steps :: t.boundSource.Some?
    ensures Taken(steps, s, times) == if s.source in Sources(steps) then times else 0
  {
    if steps != [] {
      OneTaker(steps[1..], s, times);
      forall t | t in steps[1..] ensures t.boundSource != steps[0].boundSource {
        HeadDiffers(steps, SourceTag, t);
      }
      TagSetMember(steps[1..], SourceTag, steps[0].boundSource);
    }
  }

  /** The source map of a bound depth is a bijection onto the steps of the previous depth. */
  ghost predicate Bijective(here: seq<Step>, previous: seq<Step>) {
    && Distinct(here, SourceTag)
    && (forall s | s in previous :: Some(s.id) in Sources(here))
    && (forall t | t in here :: t.boundSource in StepIds(previous))
  }

  lemma SourcesBijective(here: seq<Step>, previous: seq<Step>)
    requires BoundOk(here, previous) && Distinct(previous, StepTag)
    ensures Bijective(here, previous)
  {
    assert Distinct(previous, IdTag) by {
      forall i, j | 0 <= i < j < |previous| ensures IdTag(previous[i]) != IdTag(previous[j]) {
        assert StepTag(previous[i]) != StepTag(previous[j]);
      }
    }
    TagCount(previous, IdTag);
    TagCount(here, SourceTag);
    forall t | t in here ensures t.boundSource in StepIds(previous) {
      TagSetMember(here, SourceTag, SourceTag(t));
    }
    forall s | s in previous ensures Some(s.id) in Sources(here) {
      TagSetMember(previous, IdTag, IdTag(s));
    }
  }

  lemma BindingIsBijective(steps: seq<Step>, depth: nat)
    requires UniqueIds(steps) && BindingOk(steps, depth) && Bound(StepsAt(steps, depth))
    ensures depth > 0 && Bijective(StepsAt(steps, depth), StepsAt(steps, depth - 1))
  {
    StepsAtDistinct(steps, depth - 1);
    SourcesBijective(StepsAt(steps, depth), StepsAt(steps, depth - 1));
  }

  lemma SourceOfOutput(tasks: seq<Job>, steps: seq<Step>, p: Progress, runs: nat, s: State)
    requires s in DepthOutputs(tasks, p, runs) && forall t | t in tasks :: t.step in steps
    ensures exists t :: t in steps && s.source == Some(t.id)
  {
    DepthOutputsMember(tasks, p, runs, s);
    var task :| task in tasks && s in Outputs(task, p.rows, runs);
    OutputsMember(task, p.rows, runs, s);
  }

  lemma {:induction false} Position(r: seq<nat>, d: nat, i: nat)
    requires forall i, j | 0 <= i < j < |r| :: r[i] < r[j]
    requires d in r && i < |r| && r[i] == d + 1
    ensures i > 0 && r[i - 1] == d
  {
    var j :| 0 <= j < |r| && r[j] == d;
    assert j < i;
    assert r[i - 1] <= d;
  }

  lemma PreviousDepth(steps: seq<Step>, i: nat, depth: nat)
    requires i < |Depths(steps)| && Depths(steps)[i] == depth + 1 && StepsAt(steps, depth) != []
    ensures i > 0 && Depths(steps)[i - 1] == depth
  {
    StepsAtMember(steps, depth);
    var s := StepsAt(steps, depth)[0];
    assert s in steps && s.depth == depth && HasDepth(steps, depth);
    Position(Depths(steps), depth, i);
  }

  lemma LevelRouting(scan: Scan, level: Level, front: Front)
    requires !ConsumesAll(level) && Distinct(level.steps, SourceTag)
    requires forall t | t in level.steps :: t.boundSource.Some?
    requires forall s | s in front.states :: s.source in Sources(level.steps)
    ensures multiset(StatesOf(LevelTasks(scan, level, front))) == multiset(front.states)
    ensures |LevelTasks(scan, level, front)| == |front.states|
  {
    var tasks := LevelTasks(scan, level, front);
    forall s ensures multiset(StatesOf(tasks))[s] == multiset(front.states)[s] {
      TasksCount(level.steps, front.states, s);
      OneTaker(level.steps, s, multiset(front.states)[s]);
    }
    assert |multiset(StatesOf(tasks))| == |tasks| && |multiset(front.states)| == |front.states|;
  }

  /** One bound depth: the tasks before it are those of the steps its own steps are bound to. */
  lemma BoundLevelIsExact(
    scan: Scan, level: Level, before: seq<Step>, tasks: seq<Job>, front: Front, p: Progress, runs: nat)
    requires !ConsumesAll(level) && Bijective(level.steps, before)
    requires forall t | t in level.steps :: t.boundSource.Some?
    requires forall t | t in tasks :: t.step in before
    requires front.states == DepthOutputs(tasks, p, runs)
    ensures multiset(StatesOf(LevelTasks(scan, level, front))) == multiset(front.states)
    ensures |LevelTasks(scan, level, front)| == |front.states|
  {
    forall s | s in front.states ensures s.source in Sources(level.steps) {
      SourceOfOutput(tasks, before, p, runs, s);
    }
    LevelRouting(scan, level, front);
  }

  lemma TasksOfLevel(scan: Scan, level: Level, front: Front)
    ensures forall t | t in LevelTasks(scan, level, front) :: t.step in level.steps
  {
    forall t | t in LevelTasks(scan, level, front) ensures t.step in level.steps {
      TasksMember(level.steps, LevelInputs(scan, level, front), t);
    }
  }

  lemma StageIs(scan: Scan, steps: seq<Step>, i: nat, depth: nat, f: Front)
    requires i < |Depths(steps)| && Depths(steps)[i] == depth
    ensures WorkloadOf(scan, steps).stage(i, f) == LevelTasks(scan, Level(depth, StepsAt(steps, depth)), f)
  {
  }

  /**
   When the bindings are accepted, a bound depth takes every incoming state to exactly one step: its
   tasks carry the same states, each as often as it came in.
   */
  lemma BoundRoutingIsExact(scan: Scan, steps: seq<Step>, w: Workload, p: Progress, i: nat, depth: nat)
    requires UniqueIds(steps) && BindingsOk(steps) && w == WorkloadOf(scan, steps)
    requires i < |Depths(steps)| && Depths(steps)[i] == depth && Bound(StepsAt(steps, depth))
    ensures multiset(StatesOf(TasksAt(w, p, i))) == multiset(FrontAt(w, p, i).states)
    ensures |TasksAt(w, p, i)| == |FrontAt(w, p, i).states|
  {
    BoundDepth(steps, i, depth);
    LevelStages(scan, steps, w, i, depth);
    LevelStages(scan, steps, w, i - 1, depth - 1);
    BoundTasksAreExact(
      scan, Level(depth, StepsAt(steps, depth)), Level(depth - 1, StepsAt(steps, depth - 1)), w, p, i);
  }

  /** At this depth the walk runs a level's tasks on whatever states reach it. */
  ghost predicate Stages(scan: Scan, level: Level, w: Workload, i: nat) {
    forall f :: w.stage(i, f) == LevelTasks(scan, level, f)
  }

  lemma LevelStages(scan: Scan, steps: seq<Step>, w: Workload, i: nat, depth: nat)
    requires w == WorkloadOf(scan, steps) && i < |Depths(steps)| && Depths(steps)[i] == depth
    ensures Stages(scan, Level(depth, StepsAt(steps, depth)), w, i)
  {
    forall f ensures w.stage(i, f) == LevelTasks(scan, Level(depth, StepsAt(steps, depth)), f) {
      StageIs(scan, steps, i, depth, f);
    }
  }

  lemma BoundTasksAreExact(scan: Scan, level: Level, above: Level, w: Workload, p: Progress, i: nat)
    requires i > 0 && Stages(scan, level, w, i) && Stages(scan, above, w, i - 1)
    requires !ConsumesAll(level) && Bijective(level.steps, above.steps)
    requires forall t | t in level.steps :: t.boundSource.Some?
    ensures multiset(StatesOf(TasksAt(w, p, i))) == multiset(FrontAt(w, p, i).states)
    ensures |TasksAt(w, p, i)| == |FrontAt(w, p, i).states|
  {
    FrontIs(w, p, i);
    TasksOfLevel(scan, above, FrontAt(w, p, i - 1));
    BoundLevelIsExact(scan, level, above.steps, TasksAt(w, p, i - 1), FrontAt(w, p, i), p, w.runs);
  }

  lemma FrontIs(w: Workload, p: Progress, i: nat)
    requires i > 0
    ensures FrontAt(w, p, i).states == DepthOutputs(TasksAt(w, p, i - 1), p, w.runs)
  {
  }

  /** What an accepted binding says about a bound depth and the depth before it. */
  lemma BoundDepth(steps: seq<Step>, i: nat, depth: nat)
    requires UniqueIds(steps) && BindingsOk(steps)
    requires i < |Depths(steps)| && Depths(steps)[i] == depth && Bound(StepsAt(steps, depth))
    ensures i > 0 && depth > 0 && Depths(steps)[i - 1] == depth - 1
    ensures !ConsumesAll(Level(depth, StepsAt(steps, depth)))
    ensures Bijective(StepsAt(steps, depth), StepsAt(steps, depth - 1))
    ensures forall t | t in StepsAt(steps, depth) :: t.boundSource.Some?
  {
    assert depth in Depths(steps) && BindingOk(steps, depth);
    BindingIsBijective(steps, depth);
    PreviousDepth(steps, i, depth - 1);
  }
}
