/**
 Post-processing as a transition system: any number of workers, each transaction one step
 (engine/open_kritt_engine/post_processing.py, `PostProcessor.process_once` and the three operations it runs).

 The findings of the scan are fixed; the model's answers and the stored enrichments are arbitrary.
 */
module PostProcessRuns {
  import opened Wrappers
  import opened Findings
  import opened JobLedger
  import Clusters = DedupePayloads
  import Partition = DedupePartition
  import Ranks = RankPayloads
  import Stages = PipelineStages

  /** What stays fixed: the scan, its configured scripts and its pipeline. */
  datatype Config = Config(scan: int, scripts: seq<nat>, pipeline: Option<Stages.Pipeline>)

  datatype Pair = Pair(finding: Id, script: nat)

  type Enriched = map<Pair, Stages.Enrichment>

  datatype Db = Db(ledger: Ledger, findings: Table, enriched: Enriched)

  /** Where a worker is in `process_once`, with what it has read so far. */
  datatype Phase =
    | Idle
    | Entering(kind: Kind)
    | Loaded(kind: Kind, table: Table)
    | Indexed(kind: Kind, table: Table, index: nat)
    | InBatch(kind: Kind, table: Table, row: nat)
    | Scripts(allowComplete: bool)
    | Selected(finding: Id, script: nat)
    | InScript(finding: Id, script: nat, row: nat)

  datatype System = System(db: Db, workers: seq<Phase>)

  datatype Event =
    | Look(w: nat)
    | GiveUp(w: nat)
    | Load(w: nat)
    | ReadIndex(w: nat, index: nat)
    | ClaimBatch(w: nat)
    | FinishDedupe(w: nat, clusters: seq<Clusters.Cluster>)
    | FinishRanks(w: nat, items: seq<Ranks.Item>)
    | Choose(w: nat, finding: Id, script: nat)
    | ClaimScript(w: nat)
    | FinishScript(w: nat, enrichment: Stages.Enrichment)
    | BlockScript(w: nat, enrichment: Stages.Enrichment)
    | FailJob(w: nat)
    | Complete(w: nat)
    | Die(w: nat)
    | CleanUp(row: nat)
    | SetStatus(status: Status)

  // ---- What the queries see ----

  ghost function TargetIds(kind: Kind, t: Table): set<Id> {
    Ids(BatchIn(kind, t).targets)
  }

  ghost function AnchorIds(kind: Kind, t: Table): set<Id> {
    Ids(BatchIn(kind, t).anchors)
  }

  /** The claim's count of eligible targets: all of them are still waiting. */
  ghost predicate Eligible(kind: Kind, t: Table, now: Table) {
    AllWaiting(kind, TargetIds(kind, t), now)
  }

  /** `next_post_process_batch_index`. */
  ghost predicate IsNextIndex(l: Ledger, kind: Kind, n: nat) {
    && n >= 1
    && (forall id | id in l.metas && l.metas[id].job.BatchJob? && l.metas[id].job.kind == kind ::
          l.metas[id].job.index < n)
    && (n > 1 ==> exists id | id in l.metas :: l.metas[id].job == BatchJob(kind, n - 1))
  }

  /** The enrichments of one finding, by script. */
  function RowsOf(e: Enriched, finding: Id): map<nat, Stages.Enrichment> {
    map p | p in e && p.finding == finding :: p.script := e[p]
  }

  /** A row of the candidate query for one script. */
  ghost predicate Candidate(c: Config, db: Db, finding: Id, script: nat) {
    && finding in db.findings && db.findings[finding].canonical == Some(true)
    && Pair(finding, script) !in db.enriched
    && !Taken(db.ledger, ScriptJob(finding, script))
    && Stages.SqlEligible(c.pipeline, script, RowsOf(db.enriched, finding))
  }

  ghost predicate NoCandidate(c: Config, db: Db, script: nat) {
    forall finding :: !Candidate(c, db, finding, script)
  }

  predicate RankedBefore(t: Table, a: Id, b: Id)
    requires a in t && b in t
  {
    match (t[a].bountyRank, t[b].bountyRank)
    case (Some(x), Some(y)) => x < y || (x == y && a <= b)
    case (Some(_), None) => true
    case (None, Some(_)) => false
    case (None, None) => a <= b
  }

  /** The first configured script with a candidate, and its first candidate by rank. */
  ghost predicate IsChoice(c: Config, db: Db, finding: Id, script: nat) {
    && Candidate(c, db, finding, script)
    && (exists i | 0 <= i < |c.scripts| ::
          c.scripts[i] == script && forall j | 0 <= j < i :: NoCandidate(c, db, c.scripts[j]))
    && forall other | Candidate(c, db, other, script) :: RankedBefore(db.findings, finding, other)
  }

  // ---- The steps ----

  function Owned(p: Phase): Option<nat> {
    match p
    case InBatch(_, _, row) => Some(row)
    case InScript(_, _, row) => Some(row)
    case _ => None
  }

  /** Where a worker goes when an operation returns False: after the ranker it may still enrich findings. */
  function Beaten(p: Phase): Phase {
    match p
    case Entering(kind) => if kind.Ranker? then Scripts(false) else Idle
    case Loaded(kind, _) => if kind.Ranker? then Scripts(false) else Idle
    case Indexed(kind, _, _) => if kind.Ranker? then Scripts(false) else Idle
    case _ => Idle
  }

  ghost predicate Enabled(c: Config, s: System, e: Event) {
    match e
    case Look(w) =>
      w < |s.workers| && s.workers[w].Idle?
      && s.db.ledger.status !in {Paused, Stopped, Failed, Completed}
    case GiveUp(w) => w < |s.workers| && Owned(s.workers[w]).None?
    case Load(w) => w < |s.workers| && s.workers[w].Entering?
    case ReadIndex(w, index) =>
      w < |s.workers| && s.workers[w].Loaded? && IsNextIndex(s.db.ledger, s.workers[w].kind, index)
    case ClaimBatch(w) => w < |s.workers| && s.workers[w].Indexed?
    case FinishDedupe(w, clusters) =>
      w < |s.workers| && s.workers[w].InBatch? && s.workers[w].kind.Dedupe? && IsLive(s.db.ledger, s.workers[w].row)
      && var t := s.workers[w].table;
         Clusters.ClustersOk(clusters, AnchorIds(Dedupe, t), TargetIds(Dedupe, t))
    case FinishRanks(w, items) =>
      w < |s.workers| && s.workers[w].InBatch? && s.workers[w].kind.Ranker? && IsLive(s.db.ledger, s.workers[w].row)
      && Ranks.RankingsOk(items, TargetIds(Ranker, s.workers[w].table))
    case Choose(w, finding, script) =>
      w < |s.workers| && s.workers[w].Scripts? && s.db.ledger.status.PostProcessing?
      && IsChoice(c, s.db, finding, script)
    case ClaimScript(w) => w < |s.workers| && s.workers[w].Selected?
    case FinishScript(w, _) => w < |s.workers| && s.workers[w].InScript? && IsLive(s.db.ledger, s.workers[w].row)
    case BlockScript(w, _) => w < |s.workers| && s.workers[w].InScript? && IsLive(s.db.ledger, s.workers[w].row)
    case FailJob(w) =>
      w < |s.workers| && Owned(s.workers[w]).Some? && IsLive(s.db.ledger, Owned(s.workers[w]).value)
    case Complete(w) =>
      && w < |s.workers| && s.workers[w].Scripts? && s.workers[w].allowComplete
      && s.db.ledger.status.PostProcessing?
      && (forall script | script in c.scripts :: NoCandidate(c, s.db, script))
      && (c.scripts == [] || !LiveScript(s.db.ledger))
      && !LiveBatch(s.db.ledger, Ranker)
    case Die(w) => w < |s.workers|
    case CleanUp(row) =>
      IsLive(s.db.ledger, row) && forall w | 0 <= w < |s.workers| :: Owned(s.workers[w]) != Some(row)
    case SetStatus(status) => !status.Completed? && !s.db.ledger.status.Completed?
  }

  function To(s: System, w: nat, p: Phase): System
    requires w < |s.workers|
  {
    s.(workers := s.workers[w := p])
  }

  function WithLedger(s: System, l: Ledger): System {
    s.(db := s.db.(ledger := l))
  }

  ghost function LookPhase(t: Table): Phase {
    if t == map[] then Idle
    else if !AllDone(Dedupe, t) then Entering(Dedupe)
    else if !AllDone(Ranker, t) then Entering(Ranker)
    else Scripts(true)
  }

  function Completing(l: Ledger): Ledger {
    if l.status.PostProcessing? then l.(status := Completed) else l
  }

  /** The mapping and the ranks come from the worker's snapshot and are written to the current findings. */
  ghost function DedupeWritten(c: Config, now: Table, t: Table, clusters: seq<Clusters.Cluster>): Table
    requires Clusters.ClustersOk(clusters, AnchorIds(Dedupe, t), TargetIds(Dedupe, t))
  {
    Partition.ApplyMapping(
      now, Partition.MappingFor(clusters, c.scan, AnchorIds(Dedupe, t), TargetIds(Dedupe, t)))
  }

  ghost function RanksWritten(now: Table, t: Table, items: seq<Ranks.Item>): Table
    requires Ranks.RankingsOk(items, TargetIds(Ranker, t))
  {
    var b := BatchIn(Ranker, t);
    PlacedTargets(items, t);
    Ranks.ApplyRanks(now, Ranks.Updates(items, b.anchors, b.targets))
  }

  lemma PlacedTargets(items: seq<Ranks.Item>, t: Table)
    requires Ranks.RankingsOk(items, TargetIds(Ranker, t))
    ensures Ranks.AllPlaced(items, BatchIn(Ranker, t).targets)
  {
    Ranks.ByIdIs(items);
    forall r | r in BatchIn(Ranker, t).targets ensures r.id in Ranks.ById(items) {
      assert r.id in TargetIds(Ranker, t);
    }
  }

  ghost function Next(c: Config, s: System, e: Event): System
    requires Enabled(c, s, e)
  {
    var l := s.db.ledger;
    match e
    case Look(w) =>
      var next := if s.db.findings == map[] then WithLedger(s, Completing(l)) else s;
      To(next, w, LookPhase(s.db.findings))
    case GiveUp(w) => To(s, w, Beaten(s.workers[w]))
    case Load(w) =>
      var kind := s.workers[w].kind;
      To(s, w, if TargetIds(kind, s.db.findings) == {} then Beaten(s.workers[w]) else Loaded(kind, s.db.findings))
    case ReadIndex(w, index) => To(s, w, Indexed(s.workers[w].kind, s.workers[w].table, index))
    case ClaimBatch(w) =>
      var p := s.workers[w];
      var (after, row) := Claim(l, BatchJob(p.kind, p.index), Eligible(p.kind, p.table, s.db.findings));
      To(WithLedger(s, after), w, if row.Some? then InBatch(p.kind, p.table, row.value) else Beaten(p))
    case FinishDedupe(w, clusters) =>
      var p := s.workers[w];
      To(s.(db := s.db.(ledger := Settle(l, p.row, true),
                        findings := DedupeWritten(c, s.db.findings, p.table, clusters))), w, Idle)
    case FinishRanks(w, items) =>
      var p := s.workers[w];
      To(s.(db := s.db.(ledger := Settle(l, p.row, true),
                        findings := RanksWritten(s.db.findings, p.table, items))), w, Idle)
    case Choose(w, finding, script) => To(s, w, Selected(finding, script))
    case ClaimScript(w) =>
      var p := s.workers[w];
      var (after, row) := Claim(l, ScriptJob(p.finding, p.script), true);
      To(WithLedger(s, after), w, if row.Some? then InScript(p.finding, p.script, row.value) else Idle)
    case FinishScript(w, enrichment) =>
      var p := s.workers[w];
      To(s.(db := s.db.(ledger := Settle(l, p.row, true),
                        enriched := s.db.enriched[Pair(p.finding, p.script) := enrichment])), w, Idle)
    case BlockScript(w, enrichment) =>
      var p := s.workers[w];
      To(s.(db := s.db.(ledger := Settle(l, p.row, false),
                        enriched := s.db.enriched[Pair(p.finding, p.script) := enrichment])), w, Idle)
    case FailJob(w) => To(WithLedger(s, Settle(l, Owned(s.workers[w]).value, false)), w, Idle)
    case Complete(w) => To(WithLedger(s, Completing(l)), w, Idle)
    case Die(w) => To(s, w, Idle)
    case CleanUp(row) => WithLedger(s, Settle(l, row, false))
    case SetStatus(status) => WithLedger(s, l.(status := status))
  }

  // ---- Runs ----

  /** The findings as the workflow leaves them, and no post-processing row yet. */
  ghost predicate Initial(s: System) {
    && LedgerOk(s.db.ledger) && !s.db.ledger.status.Completed?
    && (forall id | id in s.db.ledger.metas :: s.db.ledger.metas[id].job.StepJob?)
    && (forall id | id in s.db.findings ::
          var f := s.db.findings[id];
          f.canonical.None? && f.canonicalId.None? && f.cluster.None? && f.bountyRank.None?)
    && s.db.enriched == map[]
    && forall w | 0 <= w < |s.workers| :: s.workers[w].Idle?
  }

  ghost predicate IsRun(c: Config, states: seq<System>, events: seq<Event>) {
    && |states| == |events| + 1
    && Initial(states[0])
    && forall i | 0 <= i < |events| ::
         Enabled(c, states[i], events[i]) && states[i + 1] == Next(c, states[i], events[i])
  }
}
