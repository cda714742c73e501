/**
 Post-processing never gets stuck: from every state of every run, with room under the job limit, there
 is a way on to a completed scan.
 */
module PostProcessEnds {
  import opened Wrappers
  import opened Findings
  import opened JobLedger
  import opened PostProcessRuns
  import opened PostProcessSafety
  import opened PostProcessProgress
  import Clusters = DedupePayloads
  import Ranks = RankPayloads
  import RankLedger
  import Sorting
  import Stages = PipelineStages

  // ---- Ways through the system ----

  /** The events lead from one state to another. */
  ghost predicate Path(c: Config, s: System, events: seq<Event>, t: System)
    decreases |events|
  {
    if events == [] then s == t
    else Enabled(c, s, events[0]) && Path(c, Next(c, s, events[0]), events[1..], t)
  }

  lemma {:induction false} PathJoin(c: Config, s: System, a: seq<Event>, t: System, b: seq<Event>, u: System)
    requires Path(c, s, a, t) && Path(c, t, b, u)
    ensures Path(c, s, a + b, u)
    decreases |a|
  {
    if a == [] {
      assert a + b == b;
    } else {
      assert (a + b)[0] == a[0] && (a + b)[1..] == a[1..] + b;
      PathJoin(c, Next(c, s, a[0]), a[1..], t, b, u);
    }
  }

  lemma {:induction false} PathMore(c: Config, s: System, events: seq<Event>, t: System, e: Event, u: System)
    requires Path(c, s, events, t) && Enabled(c, t, e) && u == Next(c, t, e)
    ensures Path(c, s, events + [e], u)
  {
    assert [e][1..] == [];
    assert Path(c, t, [e], u);
    PathJoin(c, s, events, t, [e], u);
  }

  lemma {:induction false} PathKeeps(c: Config, s: System, events: seq<Event>, t: System)
    requires Inv(c, s) && Path(c, s, events, t)
    ensures Inv(c, t)
    decreases |events|
  {
    if events != [] {
      StepKeeps(c, s, events[0]);
      PathKeeps(c, Next(c, s, events[0]), events[1..], t);
    }
  }

  // ---- What is left to do ----

  /** The pairs of a finding and a configured script without an enrichment. */
  ghost function Missing(c: Config, db: Db): set<Pair> {
    set f, script | f in db.findings && script in c.scripts && Pair(f, script) !in db.enriched :: Pair(f, script)
  }

  ghost function Work(c: Config, db: Db): nat {
    |Waiting(Dedupe, db.findings)| + |Waiting(Ranker, db.findings)| + |Missing(c, db)|
  }

  /** The limit leaves room for so many more jobs. */
  predicate Room(l: Ledger, n: nat) {
    l.limit.Some? ==> l.started + n <= l.limit.value
  }

  ghost predicate Settled(l: Ledger) {
    forall id | id in l.metas :: !l.metas[id].state.Live?
  }

  ghost predicate AllIdle(s: System) {
    s.workers != [] && forall w | 0 <= w < |s.workers| :: s.workers[w].Idle?
  }

  /** Nobody is at work, and the limit leaves room for what is left to do. */
  ghost predicate Quiet(c: Config, s: System) {
    && Inv(c, s) && AllIdle(s) && Settled(s.db.ledger) && s.db.ledger.status.PostProcessing?
    && Room(s.db.ledger, Work(c, s.db))
  }

  // ---- A round of the ledger ----

  /** A free job is claimed by the next row. */
  lemma {:induction false} FreeIsClaimed(l: Ledger, job: Job)
    requires LedgerOk(l) && Settled(l) && l.status.PostProcessing? && Free(l, job) && Room(l, 1)
    ensures Claim(l, job, true).1 == Some(l.next) && IsLive(Claim(l, job, true).0, l.next)
    ensures Claim(l, job, true).0.metas[l.next].job == job
  {
    ClaimSucceedsIff(l, job, true);
  }

  /** The ledger after a job was claimed and completed. */
  ghost function Round(l: Ledger, job: Job): Ledger
    requires IsLive(Claim(l, job, true).0, l.next)
  {
    Settle(Claim(l, job, true).0, l.next, true)
  }

  lemma {:induction false} RoundIs(l: Ledger, job: Job, n: nat, m: nat)
    requires LedgerOk(l) && Settled(l) && l.status.PostProcessing? && Free(l, job)
    requires Room(l, n) && m < n
    ensures IsLive(Claim(l, job, true).0, l.next)
    ensures var after := Round(l, job); Settled(after) && after.status.PostProcessing? && Room(after, m)
  {
    FreeIsClaimed(l, job);
    ClaimSucceedsIff(l, job, true);
    ClaimPays(l, job, true);
  }

  // ---- Batches ----

  function Single(id: Id): Clusters.Cluster {
    Clusters.Cluster([id], "")
  }

  function Singles(ids: seq<Id>): seq<Clusters.Cluster> {
    if ids == [] then [] else Singles(ids[..|ids| - 1]) + [Single(ids[|ids| - 1])]
  }

  lemma {:induction false} SinglesAre(ids: seq<Id>)
    ensures Clusters.Flat(Singles(ids)) == ids
    ensures forall x | x in Singles(ids) :: |x.ids| == 1 && x.ids[0] in ids
  {
    if ids != [] {
      var front, last := ids[..|ids| - 1], ids[|ids| - 1];
      SinglesAre(front);
      var all := Singles(ids);
      assert all[..|all| - 1] == Singles(front) && all[|all| - 1] == Single(last);
      assert ids == front + [last];
    }
  }

  function RowIds(rows: seq<Row>): seq<Id> {
    seq(|rows|, i requires 0 <= i < |rows| => rows[i].id)
  }

  lemma {:induction false} RowIdsAre(rows: seq<Row>)
    requires Sorting.Distinct(rows, RowId)
    ensures Clusters.AllDifferent(RowIds(rows)) && Clusters.IdSet(RowIds(rows)) == Ids(rows)
  {
    var ids := RowIds(rows);
    forall i, j | 0 <= i < j < |ids| ensures ids[i] != ids[j] {
      assert RowId(rows[i]) != RowId(rows[j]);
    }
    forall id ensures id in ids <==> id in Ids(rows) {
      if id in Ids(rows) {
        var r :| r in rows && r.id == id;
        var i :| 0 <= i < |rows| && rows[i] == r;
        assert ids[i] == id;
      }
    }
  }

  /** Each target in a cluster of its own is an answer that is accepted. */
  lemma {:induction false} SomeClusters(t: Table) returns (clusters: seq<Clusters.Cluster>)
    ensures Clusters.ClustersOk(clusters, AnchorIds(Dedupe, t), TargetIds(Dedupe, t))
  {
    BatchInFits(Dedupe, t);
    var rows := BatchIn(Dedupe, t).targets;
    RowIdsAre(rows);
    clusters := Singles(RowIds(rows));
    SinglesAre(RowIds(rows));
    forall x | x in clusters
      ensures Clusters.HasTarget(x, TargetIds(Dedupe, t)) && !Clusters.MergesTwo(x, AnchorIds(Dedupe, t))
    {
      assert x.ids[0] in x.ids && x.ids[0] in Clusters.IdSet(RowIds(rows));
    }
  }

  function Items(rows: seq<Row>): seq<Ranks.Item> {
    seq(|rows|, i requires 0 <= i < |rows| => Ranks.Item(rows[i].id, 1.0, 0, 0))
  }

  lemma {:induction false} ItemsAre(rows: seq<Row>)
    requires Sorting.Distinct(rows, RowId)
    ensures Sorting.Distinct(Items(rows), Ranks.ItemId) && Ranks.ItemIds(Items(rows)) == Ids(rows)
  {
    var items := Items(rows);
    forall i, j | 0 <= i < j < |items| ensures Ranks.ItemId(items[i]) != Ranks.ItemId(items[j]) {
      assert RowId(rows[i]) != RowId(rows[j]);
    }
    forall id ensures id in Ranks.ItemIds(items) <==> id in Ids(rows) {
      if id in Ids(rows) {
        var r :| r in rows && r.id == id;
        var i :| 0 <= i < |rows| && rows[i] == r;
        assert items[i].id == id && items[i] in items;
      }
    }
  }

  /** Any positions rank the targets. */
  lemma {:induction false} SomeRanks(t: Table) returns (items: seq<Ranks.Item>)
    ensures Ranks.RankingsOk(items, TargetIds(Ranker, t))
  {
    BatchInFits(Ranker, t);
    items := Items(BatchIn(Ranker, t).targets);
    ItemsAre(BatchIn(Ranker, t).targets);
  }

  /** The greatest index used by a kind, or none. */
  lemma {:induction false} TopIndex(metas: map<nat, Meta>, ids: set<nat>, kind: Kind) returns (n: nat)
    requires ids <= metas.Keys
    ensures n >= 1
    ensures forall id | id in ids && metas[id].job.BatchJob? && metas[id].job.kind == kind :: metas[id].job.index < n
    ensures n > 1 ==> exists id | id in metas :: metas[id].job == BatchJob(kind, n - 1)
    decreases ids
  {
    if ids == {} {
      n := 1;
    } else {
      var id :| id in ids;
      n := TopIndex(metas, ids - {id}, kind);
      var job := metas[id].job;
      if job.BatchJob? && job.kind == kind && job.index >= n {
        n := job.index + 1;
        assert metas[id].job == BatchJob(kind, n - 1);
      }
    }
  }

  lemma {:induction false} NewIndexIsFree(l: Ledger, kind: Kind, n: nat)
    requires Settled(l) && IsNextIndex(l, kind, n)
    ensures Free(l, BatchJob(kind, n))
  {
  }

  /** The kind of batch the findings ask for. */
  ghost predicate Asks(kind: Kind, t: Table) {
    !AllDone(kind, t) && (kind.Ranker? ==> AllDone(Dedupe, t))
  }

  lemma {:induction false} BatchLook(c: Config, s: System, kind: Kind)
    requires AllIdle(s) && s.db.ledger.status.PostProcessing? && Asks(kind, s.db.findings)
    ensures Enabled(c, s, Look(0)) && Next(c, s, Look(0)) == To(s, 0, Entering(kind))
  {
    assert s.db.findings != map[];
  }

  lemma {:induction false} BatchLoad(c: Config, s: System, kind: Kind)
    requires s.workers != [] && s.workers[0] == Entering(kind) && Asks(kind, s.db.findings)
    ensures Enabled(c, s, PostProcessRuns.Event.Load(0))
    ensures Next(c, s, PostProcessRuns.Event.Load(0)) == To(s, 0, Loaded(kind, s.db.findings))
  {
    TargetsWait(kind, s.db.findings);
  }

  lemma {:induction false} BatchIndex(c: Config, s: System, kind: Kind, index: nat)
    requires s.workers != [] && s.workers[0] == Loaded(kind, s.db.findings) && IsNextIndex(s.db.ledger, kind, index)
    ensures Enabled(c, s, ReadIndex(0, index))
    ensures Next(c, s, ReadIndex(0, index)) == To(s, 0, Indexed(kind, s.db.findings, index))
  {
  }

  lemma {:induction false} BatchClaim(c: Config, s: System, kind: Kind, index: nat)
    requires s.workers != [] && s.workers[0] == Indexed(kind, s.db.findings, index) && Asks(kind, s.db.findings)
    requires Claim(s.db.ledger, BatchJob(kind, index), true).1 == Some(s.db.ledger.next)
    ensures Enabled(c, s, ClaimBatch(0))
    ensures Next(c, s, ClaimBatch(0)) ==
      To(WithLedger(s, Claim(s.db.ledger, BatchJob(kind, index), true).0), 0,
         InBatch(kind, s.db.findings, s.db.ledger.next))
  {
    TargetsWait(kind, s.db.findings);
    assert Eligible(kind, s.db.findings, s.db.findings);
  }

  lemma {:induction false} ToTwice(s: System, p: Phase, q: Phase)
    requires s.workers != []
    ensures To(To(s, 0, p), 0, q) == To(s, 0, q)
  {
    assert s.workers[0 := p][0 := q] == s.workers[0 := q];
  }

  lemma {:induction false} ToIdle(s: System, p: Phase, db: Db)
    requires AllIdle(s)
    ensures To(To(s, 0, p).(db := db), 0, Idle) == s.(db := db)
  {
    assert s.workers[0 := p][0 := Idle] == s.workers;
  }

  /** A quiet scan claims the batch its findings ask for. */
  lemma {:induction false} BatchStarts(c: Config, s: System, kind: Kind, index: nat) returns (events: seq<Event>)
    requires Quiet(c, s) && Asks(kind, s.db.findings) && IsNextIndex(s.db.ledger, kind, index)
    requires Claim(s.db.ledger, BatchJob(kind, index), true).1 == Some(s.db.ledger.next)
    ensures Path(c, s, events,
      To(WithLedger(s, Claim(s.db.ledger, BatchJob(kind, index), true).0), 0,
         InBatch(kind, s.db.findings, s.db.ledger.next)))
  {
    var now := s.db.findings;
    var s1, s2, s3 := To(s, 0, Entering(kind)), To(s, 0, Loaded(kind, now)), To(s, 0, Indexed(kind, now, index));
    BatchLook(c, s, kind);
    PathMore(c, s, [], s, Look(0), s1);
    BatchLoad(c, s1, kind);
    ToTwice(s, Entering(kind), Loaded(kind, now));
    PathMore(c, s, [] + [Look(0)], s1, PostProcessRuns.Event.Load(0), s2);
    events := [] + [Look(0)] + [PostProcessRuns.Event.Load(0)];
    BatchIndex(c, s2, kind, index);
    ToTwice(s, Loaded(kind, now), Indexed(kind, now, index));
    PathMore(c, s, events, s2, ReadIndex(0, index), s3);
    events := events + [ReadIndex(0, index)];
    BatchClaim(c, s3, kind, index);
    var claimed := WithLedger(s, Claim(s.db.ledger, BatchJob(kind, index), true).0);
    ToTwice(claimed, Indexed(kind, now, index), InBatch(kind, now, s.db.ledger.next));
    PathMore(c, s, events, s3, ClaimBatch(0), To(claimed, 0, InBatch(kind, now, s.db.ledger.next)));
    events := events + [ClaimBatch(0)];
  }

  lemma {:induction false} MissingStays(c: Config, db: Db, after: Db)
    requires after.findings.Keys == db.findings.Keys && after.enriched == db.enriched
    ensures Missing(c, after) == Missing(c, db)
  {
  }

  lemma {:induction false} DedupeDone(c: Config, db: Db, clusters: seq<Clusters.Cluster>, l: Ledger)
    requires !AllDone(Dedupe, db.findings)
    requires Clusters.ClustersOk(clusters, AnchorIds(Dedupe, db.findings), TargetIds(Dedupe, db.findings))
    ensures var after := db.(ledger := l, findings := DedupeWritten(c, db.findings, db.findings, clusters));
            Work(c, after) < Work(c, db)
  {
    var after := db.(ledger := l, findings := DedupeWritten(c, db.findings, db.findings, clusters));
    DedupeEvolves(c, FinishDedupe(0, clusters), db.findings);
    MissingStays(c, db, after);
  }

  lemma {:induction false} RanksDone(c: Config, db: Db, items: seq<Ranks.Item>, l: Ledger)
    requires !AllDone(Ranker, db.findings) && RankLedger.Ledger(db.findings)
    requires Ranks.RankingsOk(items, TargetIds(Ranker, db.findings))
    ensures var after := db.(ledger := l, findings := RanksWritten(db.findings, db.findings, items));
            Work(c, after) < Work(c, db)
  {
    var after := db.(ledger := l, findings := RanksWritten(db.findings, db.findings, items));
    RanksEvolve(FinishRanks(0, items), db.findings);
    MissingStays(c, db, after);
  }

  lemma {:induction false} FinishesDedupe(
    c: Config, s: System, clusters: seq<Clusters.Cluster>, l: Ledger, row: nat, before: System)
    requires AllIdle(s) && before == To(WithLedger(s, l), 0, InBatch(Dedupe, s.db.findings, row)) && IsLive(l, row)
    requires Clusters.ClustersOk(clusters, AnchorIds(Dedupe, s.db.findings), TargetIds(Dedupe, s.db.findings))
    ensures Enabled(c, before, FinishDedupe(0, clusters))
    ensures Next(c, before, FinishDedupe(0, clusters)) == s.(db := s.db.(
      ledger := Settle(l, row, true), findings := DedupeWritten(c, s.db.findings, s.db.findings, clusters)))
  {
    ToIdle(WithLedger(s, l), InBatch(Dedupe, s.db.findings, row), s.db.(
      ledger := Settle(l, row, true), findings := DedupeWritten(c, s.db.findings, s.db.findings, clusters)));
  }

  lemma {:induction false} FinishesRanks(
    c: Config, s: System, items: seq<Ranks.Item>, l: Ledger, row: nat, before: System)
    requires AllIdle(s) && before == To(WithLedger(s, l), 0, InBatch(Ranker, s.db.findings, row)) && IsLive(l, row)
    requires Ranks.RankingsOk(items, TargetIds(Ranker, s.db.findings))
    ensures Enabled(c, before, FinishRanks(0, items))
    ensures Next(c, before, FinishRanks(0, items)) == s.(db := s.db.(
      ledger := Settle(l, row, true), findings := RanksWritten(s.db.findings, s.db.findings, items)))
  {
    ToIdle(WithLedger(s, l), InBatch(Ranker, s.db.findings, row), s.db.(
      ledger := Settle(l, row, true), findings := RanksWritten(s.db.findings, s.db.findings, items)));
  }

  /** A finished round leaves the scan quiet, with less to do. */
  lemma {:induction false} QuietAgain(c: Config, s: System, events: seq<Event>, t: System, job: Job)
    requires Quiet(c, s) && Free(s.db.ledger, job) && Path(c, s, events, t)
    requires IsLive(Claim(s.db.ledger, job, true).0, s.db.ledger.next)
    requires t.workers == s.workers && t.db.ledger == Round(s.db.ledger, job) && Work(c, t.db) < Work(c, s.db)
    ensures Quiet(c, t)
  {
    PathKeeps(c, s, events, t);
    RoundIs(s.db.ledger, job, Work(c, s.db), Work(c, t.db));
  }

  lemma {:induction false} WaitingWork(c: Config, db: Db, kind: Kind)
    requires !AllDone(kind, db.findings)
    ensures Work(c, db) > 0
  {
    var id :| id in db.findings && Wants(kind, db.findings[id]);
    assert id in Waiting(kind, db.findings);
  }

  lemma {:induction false} BatchRound(c: Config, s: System, kind: Kind) returns (events: seq<Event>, t: System)
    requires Quiet(c, s) && Asks(kind, s.db.findings)
    ensures Path(c, s, events, t) && Quiet(c, t) && Work(c, t.db) < Work(c, s.db)
  {
    var l, now := s.db.ledger, s.db.findings;
    var index := TopIndex(l.metas, l.metas.Keys, kind);
    NewIndexIsFree(l, kind, index);
    WaitingWork(c, s.db, kind);
    var job := BatchJob(kind, index);
    FreeIsClaimed(l, job);
    var claimed := Claim(l, job, true).0;
    events := BatchStarts(c, s, kind, index);
    var before := To(WithLedger(s, claimed), 0, InBatch(kind, now, l.next));
    var e: Event;
    if kind.Dedupe? {
      var clusters := SomeClusters(now);
      e := FinishDedupe(0, clusters);
      t := s.(db := s.db.(ledger := Round(l, job), findings := DedupeWritten(c, now, now, clusters)));
      FinishesDedupe(c, s, clusters, claimed, l.next, before);
      DedupeDone(c, s.db, clusters, Round(l, job));
    } else {
      var items := SomeRanks(now);
      e := FinishRanks(0, items);
      t := s.(db := s.db.(ledger := Round(l, job), findings := RanksWritten(now, now, items)));
      FinishesRanks(c, s, items, claimed, l.next, before);
      RanksDone(c, s.db, items, Round(l, job));
    }
    PathMore(c, s, events, before, e, t);
    events := events + [e];
    QuietAgain(c, s, events, t, job);
  }

  // ---- Scripts ----

  /** A finding of a set of findings that no other goes before. */
  lemma {:induction false} FirstRanked(t: Table, ids: set<Id>, some: Id) returns (a: Id)
    requires some in ids && ids <= t.Keys
    ensures a in ids && forall b | b in ids :: RankedBefore(t, a, b)
    decreases ids
  {
    a := some;
    if other :| other in ids - {some} {
      var b := FirstRanked(t, ids - {some}, other);
      if RankedBefore(t, b, a) {
        a := b;
      }
    }
    assert forall x | x in ids :: x in ids - {some} || x == some;
  }

  lemma {:induction false} SomeChoice(c: Config, db: Db, script: nat) returns (finding: Id, chosen: nat)
    requires script in c.scripts && !NoCandidate(c, db, script)
    ensures IsChoice(c, db, finding, chosen) && chosen in c.scripts
  {
    var i :| 0 <= i < |c.scripts| && c.scripts[i] == script;
    var k := FirstScript(c, db, i);
    chosen := c.scripts[k];
    var ids := set f | f in db.findings && Candidate(c, db, f, chosen);
    assert !NoCandidate(c, db, chosen);
    var f: Id :| Candidate(c, db, f, chosen);
    assert f in ids;
    finding := FirstRanked(db.findings, ids, f);
  }

  lemma {:induction false} FirstScript(c: Config, db: Db, i: nat) returns (k: nat)
    requires i < |c.scripts| && !NoCandidate(c, db, c.scripts[i])
    ensures k < |c.scripts| && !NoCandidate(c, db, c.scripts[k])
    ensures forall j | 0 <= j < k :: NoCandidate(c, db, c.scripts[j])
    decreases i
  {
    if j: nat :| j < i && !NoCandidate(c, db, c.scripts[j]) {
      k := FirstScript(c, db, j);
    } else {
      k := i;
    }
  }

  const ENRICHED := Stages.Enrichment(false, map[], None)

  lemma {:induction false} ScriptDone(c: Config, db: Db, finding: Id, script: nat, l: Ledger)
    requires finding in db.findings && script in c.scripts && Pair(finding, script) !in db.enriched
    ensures var after := db.(ledger := l, enriched := db.enriched[Pair(finding, script) := ENRICHED]);
            Work(c, after) < Work(c, db)
  {
    var after := db.(ledger := l, enriched := db.enriched[Pair(finding, script) := ENRICHED]);
    var p := Pair(finding, script);
    assert Missing(c, after) == Missing(c, db) - {p};
    assert p in Missing(c, db);
  }

  lemma {:induction false} ScriptSteps(c: Config, s: System, finding: Id, script: nat) returns (events: seq<Event>)
    requires Quiet(c, s) && s.db.findings != map[]
    requires AllDone(Dedupe, s.db.findings) && AllDone(Ranker, s.db.findings) && IsChoice(c, s.db, finding, script)
    requires Claim(s.db.ledger, ScriptJob(finding, script), true).1 == Some(s.db.ledger.next)
    ensures Path(c, s, events,
      To(WithLedger(s, Claim(s.db.ledger, ScriptJob(finding, script), true).0), 0,
         InScript(finding, script, s.db.ledger.next)))
  {
    var s1, s2 := To(s, 0, Scripts(true)), To(s, 0, Selected(finding, script));
    PathMore(c, s, [], s, Look(0), s1);
    ToTwice(s, Scripts(true), Selected(finding, script));
    PathMore(c, s, [] + [Look(0)], s1, Choose(0, finding, script), s2);
    events := [] + [Look(0)] + [Choose(0, finding, script)];
    var claimed := WithLedger(s, Claim(s.db.ledger, ScriptJob(finding, script), true).0);
    ToTwice(claimed, Selected(finding, script), InScript(finding, script, s.db.ledger.next));
    PathMore(c, s, events, s2, ClaimScript(0), To(claimed, 0, InScript(finding, script, s.db.ledger.next)));
    events := events + [ClaimScript(0)];
  }

  lemma {:induction false} FinishesScript(
    c: Config, s: System, finding: Id, script: nat, l: Ledger, row: nat, before: System)
    requires AllIdle(s) && before == To(WithLedger(s, l), 0, InScript(finding, script, row)) && IsLive(l, row)
    ensures Enabled(c, before, FinishScript(0, ENRICHED))
    ensures Next(c, before, FinishScript(0, ENRICHED)) == s.(db := s.db.(
      ledger := Settle(l, row, true), enriched := s.db.enriched[Pair(finding, script) := ENRICHED]))
  {
    ToIdle(WithLedger(s, l), InScript(finding, script, row), s.db.(
      ledger := Settle(l, row, true), enriched := s.db.enriched[Pair(finding, script) := ENRICHED]));
  }

  lemma {:induction false} ScriptRound(c: Config, s: System, script: nat) returns (events: seq<Event>, t: System)
    requires Quiet(c, s) && script in c.scripts && !NoCandidate(c, s.db, script)
    requires AllDone(Dedupe, s.db.findings) && AllDone(Ranker, s.db.findings)
    ensures Path(c, s, events, t) && Quiet(c, t) && Work(c, t.db) < Work(c, s.db)
  {
    var l := s.db.ledger;
    var finding, chosen := SomeChoice(c, s.db, script);
    var job := ScriptJob(finding, chosen);
    FreeIffUnblocked(l, job);
    ScriptDone(c, s.db, finding, chosen, l);
    FreeIsClaimed(l, job);
    var claimed := Claim(l, job, true).0;
    events := ScriptSteps(c, s, finding, chosen);
    var before := To(WithLedger(s, claimed), 0, InScript(finding, chosen, l.next));
    t := s.(db := s.db.(ledger := Round(l, job), enriched := s.db.enriched[Pair(finding, chosen) := ENRICHED]));
    FinishesScript(c, s, finding, chosen, claimed, l.next, before);
    ScriptDone(c, s.db, finding, chosen, Round(l, job));
    PathMore(c, s, events, before, FinishScript(0, ENRICHED), t);
    events := events + [FinishScript(0, ENRICHED)];
    QuietAgain(c, s, events, t, job);
  }

  // ---- Completing ----

  lemma {:induction false} Completes(c: Config, s: System) returns (events: seq<Event>, t: System)
    requires Quiet(c, s) && AllDone(Dedupe, s.db.findings) && AllDone(Ranker, s.db.findings)
    requires forall script | script in c.scripts :: NoCandidate(c, s.db, script)
    ensures Path(c, s, events, t) && t.db.ledger.status.Completed?
  {
    var s1 := Next(c, s, Look(0));
    PathMore(c, s, [], s, Look(0), s1);
    if s.db.findings == map[] {
      events, t := [] + [Look(0)], s1;
    } else {
      t := Next(c, s1, Complete(0));
      PathMore(c, s, [] + [Look(0)], s1, Complete(0), t);
      events := [] + [Look(0)] + [Complete(0)];
    }
  }

  /** A quiet scan can be completed. */
  lemma {:induction false} QuietEnds(c: Config, s: System) returns (events: seq<Event>, t: System)
    requires Quiet(c, s)
    ensures Path(c, s, events, t) && t.db.ledger.status.Completed?
    decreases Work(c, s.db)
  {
    var more: seq<Event>, mid: System;
    if !AllDone(Dedupe, s.db.findings) {
      events, mid := BatchRound(c, s, Dedupe);
    } else if !AllDone(Ranker, s.db.findings) {
      events, mid := BatchRound(c, s, Ranker);
    } else if script :| script in c.scripts && !NoCandidate(c, s.db, script) {
      events, mid := ScriptRound(c, s, script);
    } else {
      events, t := Completes(c, s);
      return;
    }
    more, t := QuietEnds(c, mid);
    PathJoin(c, s, events, mid, more, t);
    events := events + more;
  }

  // ---- Coming to rest ----

  ghost predicate SameWork(s: System, t: System) {
    && t.db.findings == s.db.findings && t.db.enriched == s.db.enriched && |t.workers| == |s.workers|
    && t.db.ledger.limit == s.db.ledger.limit && t.db.ledger.started == s.db.ledger.started
  }

  /** Workers may die. */
  lemma {:induction false} WorkersRest(c: Config, s: System, n: nat) returns (events: seq<Event>, t: System)
    requires n <= |s.workers| && forall w | 0 <= w < n :: s.workers[w].Idle?
    ensures Path(c, s, events, t) && SameWork(s, t) && t.db == s.db
    ensures forall w | 0 <= w < |t.workers| :: t.workers[w].Idle?
    decreases |s.workers| - n
  {
    if n == |s.workers| {
      events, t := [], s;
    } else {
      var mid := To(s, n, Idle);
      PathMore(c, s, [], s, Die(n), mid);
      var more;
      more, t := WorkersRest(c, mid, n + 1);
      PathJoin(c, s, [] + [Die(n)], mid, more, t);
      events := [] + [Die(n)] + more;
    }
  }

  function LiveRows(l: Ledger): set<nat> {
    set id | id in l.metas && l.metas[id].state.Live?
  }

  lemma {:induction false} SettledRowIsGone(l: Ledger, row: nat)
    requires IsLive(l, row)
    ensures LiveRows(Settle(l, row, false)) == LiveRows(l) - {row}
  {
  }

  /** Their rows are cleaned up. */
  lemma {:induction false} RowsRest(c: Config, s: System) returns (events: seq<Event>, t: System)
    requires AllIdle(s)
    ensures Path(c, s, events, t) && SameWork(s, t) && t.workers == s.workers && Settled(t.db.ledger)
    ensures t.db.ledger.status == s.db.ledger.status
    decreases LiveRows(s.db.ledger)
  {
    if row :| row in LiveRows(s.db.ledger) {
      var mid := Next(c, s, CleanUp(row));
      PathMore(c, s, [], s, CleanUp(row), mid);
      SettledRowIsGone(s.db.ledger, row);
      var more;
      more, t := RowsRest(c, mid);
      PathJoin(c, s, [] + [CleanUp(row)], mid, more, t);
      events := [] + [CleanUp(row)] + more;
    } else {
      events, t := [], s;
      forall id | id in s.db.ledger.metas ensures !s.db.ledger.metas[id].state.Live? {
        assert id !in LiveRows(s.db.ledger);
      }
    }
  }

  lemma {:induction false} Rests(c: Config, s: System) returns (events: seq<Event>, t: System)
    requires Inv(c, s) && s.workers != [] && !s.db.ledger.status.Completed? && Room(s.db.ledger, Work(c, s.db))
    ensures Path(c, s, events, t) && Quiet(c, t)
  {
    var a, s1 := WorkersRest(c, s, 0);
    var b, s2 := RowsRest(c, s1);
    PathJoin(c, s, a, s1, b, s2);
    t := Next(c, s2, SetStatus(PostProcessing));
    PathMore(c, s, a + b, s2, SetStatus(PostProcessing), t);
    events := a + b + [SetStatus(PostProcessing)];
    PathKeeps(c, s, events, t);
    assert Missing(c, t.db) == Missing(c, s.db);
  }

  // ---- Every run can be continued to completion ----

  lemma {:induction false} Regroup(events: seq<Event>, more: seq<Event>)
    requires more != []
    ensures events + [more[0]] + more[1..] == events + more
  {
  }

  lemma {:induction false} Continues(c: Config, states: seq<System>, events: seq<Event>, more: seq<Event>, t: System)
    returns (all: seq<System>)
    requires IsRun(c, states, events) && Path(c, states[|states| - 1], more, t)
    ensures IsRun(c, all, events + more) && states <= all && all[|all| - 1] == t
    decreases |more|
  {
    if more == [] {
      all := states;
      assert events + more == events;
    } else {
      var last := states[|states| - 1];
      OneMoreStep(c, states, events, more[0]);
      var next := states + [Next(c, last, more[0])];
      all := Continues(c, next, events + [more[0]], more[1..], t);
      Regroup(events, more);
      assert states <= next <= all;
    }
  }

  lemma {:induction false} OneMoreStep(c: Config, states: seq<System>, events: seq<Event>, e: Event)
    requires IsRun(c, states, events) && Enabled(c, states[|states| - 1], e)
    ensures IsRun(c, states + [Next(c, states[|states| - 1], e)], events + [e])
  {
    var all, es := states + [Next(c, states[|states| - 1], e)], events + [e];
    forall i | 0 <= i < |es| ensures Enabled(c, all[i], es[i]) && all[i + 1] == Next(c, all[i], es[i]) {
      if i < |events| {
        assert all[i] == states[i] && all[i + 1] == states[i + 1] && es[i] == events[i];
      }
    }
  }

  lemma {:induction false} CanEnd(c: Config, s: System) returns (more: seq<Event>, t: System)
    requires Inv(c, s) && s.workers != [] && Room(s.db.ledger, Work(c, s.db))
    ensures Path(c, s, more, t) && t.db.ledger.status.Completed? && Finished(c, t.db)
  {
    if s.db.ledger.status.Completed? {
      more, t := [], s;
    } else {
      var a, mid := Rests(c, s);
      var b;
      b, t := QuietEnds(c, mid);
      PathJoin(c, s, a, mid, b, t);
      more := a + b;
    }
    PathKeeps(c, s, more, t);
  }

  /**
   Whatever has happened, a run of at least one worker whose job limit leaves room for the findings to
   be deduplicated and ranked and for the missing enrichments can be continued until the scan is completed.
   */
  lemma {:induction false} EveryRunCanEnd(c: Config, states: seq<System>, events: seq<Event>)
    returns (all: seq<System>, more: seq<Event>)
    requires IsRun(c, states, events)
    requires var s := states[|states| - 1]; s.workers != [] && Room(s.db.ledger, Work(c, s.db))
    ensures IsRun(c, all, events + more) && states <= all
    ensures var db := all[|all| - 1].db; db.ledger.status.Completed? && Finished(c, db)
  {
    InvHolds(c, states, events, |states| - 1);
    var t: System;
    more, t := CanEnd(c, states[|states| - 1]);
    all := Continues(c, states, events, more, t);
  }
}
