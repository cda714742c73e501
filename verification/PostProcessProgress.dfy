/** How the findings evolve over a run of post-processing, and why the batches come to an end. */
module PostProcessProgress {
  import Sorting
  import opened Wrappers
  import opened Findings
  import opened JobLedger
  import opened PostProcessRuns
  import opened PostProcessSafety
  import Clusters = DedupePayloads
  import Partition = DedupePartition
  import Ranks = RankPayloads
  import RankLedger

  /** No canonical is demoted, replaced or merged: a processed finding keeps its canonical and its cluster id. */
  ghost predicate KeepsFiling(before: Table, after: Table) {
    && after.Keys == before.Keys
    && forall id | id in before && before[id].canonical.Some? :: Partition.SameFiling(before[id], after[id])
  }

  /** Ranked findings stay ranked, in their relative order. */
  ghost predicate KeepsOrder(before: Table, after: Table) {
    forall a, b | a in RankLedger.Ranked(before) && b in RankLedger.Ranked(before) ::
      && a in RankLedger.Ranked(after) && b in RankLedger.Ranked(after)
      && (before[a].bountyRank.value < before[b].bountyRank.value ==>
            after[a].bountyRank.value < after[b].bountyRank.value)
  }

  predicate Undone(kind: Kind, f: Finding) {
    if kind.Dedupe? then f.canonical.None? else f.bountyRank.None?
  }

  /** What a kind of batch still has to do, whether or not it may start. */
  function Waiting(kind: Kind, t: Table): set<Id> {
    set id | id in t && Undone(kind, t[id])
  }

  lemma WaitingShrinks(kind: Kind, t: Table, after: Table, targets: set<Id>)
    requires after.Keys == t.Keys
    requires forall id | id in t :: Undone(kind, after[id]) <==> Undone(kind, t[id]) && id !in targets
    ensures Waiting(kind, after) == Waiting(kind, t) - targets
  {
    assert forall id :: id in Waiting(kind, after) <==> id in Waiting(kind, t) - targets;
  }

  lemma WaitingStays(kind: Kind, t: Table, after: Table)
    requires after.Keys == t.Keys
    requires forall id | id in t :: Undone(kind, after[id]) <==> Undone(kind, t[id])
    ensures Waiting(kind, after) == Waiting(kind, t)
  {
    WaitingShrinks(kind, t, after, {});
  }

  /** An accepted dedupe batch shrinks the unprocessed findings by exactly its targets. */
  lemma DedupeShrinks(c: Config, t: Table, clusters: seq<Clusters.Cluster>)
    requires Clusters.ClustersOk(clusters, AnchorIds(Dedupe, t), TargetIds(Dedupe, t))
    ensures var after := DedupeWritten(c, t, t, clusters);
      && KeepsFiling(t, after) && KeepsOrder(t, after)
      && Waiting(Dedupe, after) == Waiting(Dedupe, t) - TargetIds(Dedupe, t)
      && Waiting(Ranker, after) == Waiting(Ranker, t)
  {
    var after := DedupeWritten(c, t, t, clusters);
    assert Partition.Parts(t, AnchorIds(Dedupe, t), TargetIds(Dedupe, t)) by {
      TargetsWait(Dedupe, t);
    }
    Partition.BatchOnlyFilesTargets(t, c.scan, clusters, AnchorIds(Dedupe, t), TargetIds(Dedupe, t));
    DedupeOnly(t, after, TargetIds(Dedupe, t));
  }

  lemma DedupeOnly(t: Table, after: Table, targets: set<Id>)
    requires after.Keys == t.Keys
    requires forall id | id in t && t[id].canonical.Some? :: after[id] == t[id]
    requires forall id | id in t :: after[id].canonical.None? <==> t[id].canonical.None? && id !in targets
    requires forall id | id in t :: Partition.SameRanks(t[id], after[id])
    ensures KeepsFiling(t, after) && KeepsOrder(t, after)
    ensures Waiting(Dedupe, after) == Waiting(Dedupe, t) - targets
    ensures Waiting(Ranker, after) == Waiting(Ranker, t)
  {
    WaitingShrinks(Dedupe, t, after, targets);
    WaitingStays(Ranker, t, after);
  }

  /** An accepted ranker batch ranks exactly its targets. */
  lemma RanksShrink(t: Table, items: seq<Ranks.Item>)
    requires Ranks.RankingsOk(items, TargetIds(Ranker, t)) && RankLedger.Ledger(t)
    ensures var after := RanksWritten(t, t, items);
      && KeepsFiling(t, after) && KeepsOrder(t, after)
      && Waiting(Dedupe, after) == Waiting(Dedupe, t)
      && Waiting(Ranker, after) == Waiting(Ranker, t) - TargetIds(Ranker, t)
  {
    var after := RanksWritten(t, t, items);
    RanksEffect(t, items);
    RanksKeepFiling(t, items, 0);
    RanksKeepOrder(t, items);
    RanksOnlyRank(t, after, TargetIds(Ranker, t));
  }

  lemma RanksOnlyRank(t: Table, after: Table, targets: set<Id>)
    requires after.Keys == t.Keys
    requires RankLedger.Ranked(after) == RankLedger.Ranked(t) + targets
    requires forall id | id in t :: Partition.SameFiling(t[id], after[id])
    ensures Waiting(Dedupe, after) == Waiting(Dedupe, t)
    ensures Waiting(Ranker, after) == Waiting(Ranker, t) - targets
  {
    forall id | id in t ensures Undone(Ranker, after[id]) <==> Undone(Ranker, t[id]) && id !in targets {
      assert id in RankLedger.Ranked(after) <==> id in RankLedger.Ranked(t) || id in targets;
    }
    WaitingShrinks(Ranker, t, after, targets);
    WaitingStays(Dedupe, t, after);
  }

  lemma RanksKeepOrder(t: Table, items: seq<Ranks.Item>)
    requires Ranks.RankingsOk(items, TargetIds(Ranker, t)) && RankLedger.Ledger(t)
    ensures KeepsOrder(t, RanksWritten(t, t, items))
  {
    var b := BatchIn(Ranker, t);
    var after := RanksWritten(t, t, items);
    PlacedTargets(items, t);
    BatchIsPlaced(t, items);
    RanksEffect(t, items);
    forall x, y | x in RankLedger.Ranked(t) && y in RankLedger.Ranked(t)
      ensures x in RankLedger.Ranked(after) && y in RankLedger.Ranked(after)
      ensures t[x].bountyRank.value < t[y].bountyRank.value ==>
        after[x].bountyRank.value < after[y].bountyRank.value
    {
      if t[x].bountyRank.value < t[y].bountyRank.value {
        RankLedger.RankedOrderKept(t, items, b.anchors, b.targets, x, y);
      }
    }
  }

  /** A finished batch works off at least one waiting finding of its kind; nothing else changes the findings. */
  ghost predicate Evolves(e: Event, t: Table, after: Table) {
    && KeepsFiling(t, after) && KeepsOrder(t, after)
    && |Waiting(Dedupe, after)| + (if e.FinishDedupe? then 1 else 0) <= |Waiting(Dedupe, t)|
    && |Waiting(Ranker, after)| + (if e.FinishRanks? then 1 else 0) <= |Waiting(Ranker, t)|
  }

  lemma DedupeEvolves(c: Config, e: Event, t: Table)
    requires e.FinishDedupe? && !AllDone(Dedupe, t)
    requires Clusters.ClustersOk(e.clusters, AnchorIds(Dedupe, t), TargetIds(Dedupe, t))
    ensures Evolves(e, t, DedupeWritten(c, t, t, e.clusters))
  {
    DedupeShrinks(c, t, e.clusters);
    Removed(Waiting(Dedupe, t), TargetIds(Dedupe, t), Dedupe, t);
  }

  lemma RanksEvolve(e: Event, t: Table)
    requires e.FinishRanks? && !AllDone(Ranker, t) && RankLedger.Ledger(t)
    requires Ranks.RankingsOk(e.items, TargetIds(Ranker, t))
    ensures Evolves(e, t, RanksWritten(t, t, e.items))
  {
    RanksShrink(t, e.items);
    Removed(Waiting(Ranker, t), TargetIds(Ranker, t), Ranker, t);
  }

  /** A worker in a batch works on the current findings, which have something left for it. */
  lemma InBatchIsCurrent(c: Config, s: System, w: nat)
    requires Inv(c, s) && w < |s.workers| && s.workers[w].InBatch?
    ensures s.workers[w].table == s.db.findings && !AllDone(s.workers[w].kind, s.db.findings)
    ensures RankLedger.Ledger(s.db.findings)
  {
    assert PhaseOk(c, s.db.findings, s.db.ledger, s.workers[w]);
  }

  lemma OtherStepEvolves(c: Config, s: System, e: Event)
    requires Enabled(c, s, e) && !e.FinishDedupe? && !e.FinishRanks?
    ensures Next(c, s, e).db.findings == s.db.findings
  {
  }

  lemma StepEvolves(c: Config, s: System, e: Event)
    requires Inv(c, s) && Enabled(c, s, e)
    ensures Evolves(e, s.db.findings, Next(c, s, e).db.findings)
  {
    if e.FinishDedupe? {
      InBatchIsCurrent(c, s, e.w);
      DedupeEvolves(c, e, s.db.findings);
    } else if e.FinishRanks? {
      InBatchIsCurrent(c, s, e.w);
      RanksEvolve(e, s.db.findings);
    } else {
      OtherStepEvolves(c, s, e);
    }
  }

  lemma Removed(waiting: set<Id>, targets: set<Id>, kind: Kind, t: Table)
    requires waiting == Waiting(kind, t) && targets == TargetIds(kind, t) && !AllDone(kind, t)
    ensures |waiting - targets| + 1 <= |waiting|
  {
    TargetsWait(kind, t);
    forall id | id in targets ensures id in waiting {
      assert Wants(kind, t[id]);
    }
    FewerLeft(waiting, targets);
  }

  lemma FewerLeft(waiting: set<Id>, targets: set<Id>)
    requires targets <= waiting && targets != {}
    ensures |waiting - targets| + 1 <= |waiting|
  {
    assert waiting == (waiting - targets) + targets;
    assert |targets| > 0;
  }

  // ---- Runs ----

  function Batches(events: seq<Event>, kind: Kind): nat {
    if events == [] then 0
    else
      var last := events[|events| - 1];
      Batches(events[..|events| - 1], kind)
      + if (kind.Dedupe? && last.FinishDedupe?) || (kind.Ranker? && last.FinishRanks?) then 1 else 0
  }

  /** The findings of a run, step by step. */
  ghost predicate TablesOf(events: seq<Event>, tables: seq<Table>) {
    |tables| == |events| + 1 && forall i | 0 <= i < |events| :: Evolves(events[i], tables[i], tables[i + 1])
  }

  lemma RunTables(c: Config, states: seq<System>, events: seq<Event>) returns (tables: seq<Table>)
    requires IsRun(c, states, events)
    ensures TablesOf(events, tables)
    ensures forall i | 0 <= i < |states| :: tables[i] == states[i].db.findings
  {
    tables := seq(|states|, i requires 0 <= i < |states| => states[i].db.findings);
    forall i | 0 <= i < |events| ensures Evolves(events[i], tables[i], tables[i + 1]) {
      InvHolds(c, states, events, i);
      assert Enabled(c, states[i], events[i]);
      StepEvolves(c, states[i], events[i]);
    }
  }

  lemma {:induction false} BatchesSpent(events: seq<Event>, tables: seq<Table>, kind: Kind, i: nat)
    requires TablesOf(events, tables) && i < |tables|
    ensures Batches(events[..i], kind) + |Waiting(kind, tables[i])| <= |tables[0]|
  {
    if i == 0 {
      Sorting.SubsetCount(Waiting(kind, tables[0]), tables[0].Keys);
    } else {
      BatchesSpent(events, tables, kind, i - 1);
      assert Evolves(events[i - 1], tables[i - 1], tables[i]);
      assert events[..i][..i - 1] == events[..i - 1];
    }
  }

  /** Deduplication and ranking come to an end: a run finishes no more batches of a kind than there are findings. */
  lemma BatchesEnd(c: Config, states: seq<System>, events: seq<Event>, kind: Kind)
    requires IsRun(c, states, events)
    ensures Batches(events, kind) <= |states[0].db.findings|
  {
    var tables := RunTables(c, states, events);
    BatchesSpent(events, tables, kind, |events|);
    assert events[..|events|] == events;
  }

  lemma {:induction false} TablesEvolve(events: seq<Event>, tables: seq<Table>, i: nat, j: nat)
    requires TablesOf(events, tables) && i <= j < |tables|
    ensures KeepsFiling(tables[i], tables[j]) && KeepsOrder(tables[i], tables[j])
    decreases j
  {
    if i < j {
      TablesEvolve(events, tables, i, j - 1);
      assert Evolves(events[j - 1], tables[j - 1], tables[j]);
    }
  }

  /** Over any stretch of a run, filings and the relative order of ranks stay. */
  lemma RunEvolves(c: Config, states: seq<System>, events: seq<Event>, i: nat, j: nat)
    requires IsRun(c, states, events) && i <= j < |states|
    ensures KeepsFiling(states[i].db.findings, states[j].db.findings)
    ensures KeepsOrder(states[i].db.findings, states[j].db.findings)
  {
    var tables := RunTables(c, states, events);
    TablesEvolve(events, tables, i, j);
  }

  // ---- What each transaction touches ----

  /** The row an event ends, and whether as completed. */
  function Ends(s: System, e: Event): Option<(nat, bool)> {
    match e
    case FinishDedupe(w, _) => OwnRow(s, w, true)
    case FinishRanks(w, _) => OwnRow(s, w, true)
    case FinishScript(w, _) => OwnRow(s, w, true)
    case BlockScript(w, _) => OwnRow(s, w, false)
    case FailJob(w) => OwnRow(s, w, false)
    case CleanUp(row) => Some((row, false))
    case _ => None
  }

  function OwnRow(s: System, w: nat, ok: bool): Option<(nat, bool)> {
    if w < |s.workers| && Owned(s.workers[w]).Some? then Some((Owned(s.workers[w]).value, ok)) else None
  }

  lemma {:induction false} EndingSettles(c: Config, s: System, e: Event)
    requires Enabled(c, s, e) && Ends(s, e).Some?
    ensures IsLive(s.db.ledger, Ends(s, e).value.0)
    ensures Next(c, s, e).db.ledger == Settle(s.db.ledger, Ends(s, e).value.0, Ends(s, e).value.1)
  {
  }

  lemma {:induction false} OtherKeepsRows(c: Config, s: System, e: Event)
    requires Enabled(c, s, e) && Ends(s, e).None? && !e.ClaimBatch? && !e.ClaimScript?
    ensures Next(c, s, e).db.ledger == s.db.ledger.(status := Next(c, s, e).db.ledger.status)
  {
  }

  /** An event that ends a row completes or abandons just that row; apart from claims no other event touches a row. */
  lemma {:induction false} EndsItsRow(c: Config, s: System, e: Event, id: nat)
    requires Enabled(c, s, e) && !e.ClaimBatch? && !e.ClaimScript? && id in s.db.ledger.metas
    ensures var before, after := s.db.ledger, Next(c, s, e).db.ledger;
            && after.metas.Keys == before.metas.Keys && after.started == before.started
            && after.metas[id].job == before.metas[id].job
            && after.metas[id].state ==
                 if Ends(s, e) == Some((id, true)) then Done
                 else if Ends(s, e) == Some((id, false)) then Abandoned
                 else before.metas[id].state
  {
    if Ends(s, e).Some? {
      EndingSettles(c, s, e);
      SettleIs(s.db.ledger, Ends(s, e).value.0, Ends(s, e).value.1, id);
    } else {
      OtherKeepsRows(c, s, e);
    }
  }

  /** Only a finished or blocked script writes an enrichment, and only its own. */
  lemma {:induction false} WritesItsPair(c: Config, s: System, e: Event)
    requires Enabled(c, s, e)
    ensures var after := Next(c, s, e).db.enriched;
            if e.FinishScript? then
              after == s.db.enriched[Pair(s.workers[e.w].finding, s.workers[e.w].script) := e.enrichment]
            else if e.BlockScript? then
              after == s.db.enriched[Pair(s.workers[e.w].finding, s.workers[e.w].script) := e.enrichment]
            else after == s.db.enriched
  {
  }

  /** From there a worker may choose a script's finding, and may not complete the scan. */
  lemma {:induction false} GoesOn(c: Config, s: System, w: nat, finding: Id, script: nat)
    requires w < |s.workers| && s.workers[w] == Scripts(false) && s.db.ledger.status.PostProcessing?
    ensures IsChoice(c, s.db, finding, script) ==> Enabled(c, s, Choose(w, finding, script))
    ensures !Enabled(c, s, Complete(w))
  {
  }

  /** A worker that is beaten to a ranker batch goes on to the scripts, without leave to complete the scan. */
  lemma {:induction false} BeatenGoesOn(c: Config, s: System, w: nat)
    requires Enabled(c, s, ClaimBatch(w)) && s.workers[w].kind.Ranker?
    requires var p := s.workers[w];
             Claim(s.db.ledger, BatchJob(Ranker, p.index), Eligible(Ranker, p.table, s.db.findings))
             == (s.db.ledger, None)
    ensures Next(c, s, ClaimBatch(w)) == To(s, w, Scripts(false))
  {
  }
}
