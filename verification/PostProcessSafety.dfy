/** What every run of post-processing keeps, and what a completed scan has. */
module PostProcessSafety {
  import opened Wrappers
  import opened Findings
  import opened JobLedger
  import opened PostProcessRuns
  import Clusters = DedupePayloads
  import Partition = DedupePartition
  import Ranks = RankPayloads
  import RankLedger
  import Stages = PipelineStages

  // ---- The invariant ----

  /** A worker's snapshot is the current table, or one of its targets has been processed since. */
  ghost predicate Fresh(kind: Kind, t: Table, now: Table) {
    t == now || exists id :: id in TargetIds(kind, t) && (id !in now || !Wants(kind, now[id]))
  }

  ghost predicate KindOpen(kind: Kind, now: Table) {
    kind.Ranker? ==> AllDone(Dedupe, now)
  }

  ghost predicate PhaseOk(c: Config, now: Table, l: Ledger, p: Phase) {
    match p
    case Idle => true
    case Entering(kind) => KindOpen(kind, now)
    case Loaded(kind, t) => KindOpen(kind, now) && TargetIds(kind, t) != {} && Fresh(kind, t, now)
    case Indexed(kind, t, _) => KindOpen(kind, now) && TargetIds(kind, t) != {} && Fresh(kind, t, now)
    case InBatch(kind, t, row) =>
      && KindOpen(kind, now) && !AllDone(kind, now) && t == now
      && IsLive(l, row) && l.metas[row].job.BatchJob? && l.metas[row].job.kind == kind
    case Scripts(allowComplete) => AllDone(Dedupe, now) && (allowComplete ==> AllDone(Ranker, now))
    case Selected(finding, script) => AllDone(Dedupe, now) && finding in now && script in c.scripts
    case InScript(finding, script, row) =>
      && AllDone(Dedupe, now) && finding in now && script in c.scripts
      && IsLive(l, row) && l.metas[row].job == ScriptJob(finding, script)
  }

  /** What a metadata row of post-processing tells about the findings and the enrichments. */
  ghost predicate RowOk(c: Config, db: Db, m: Meta) {
    match m.job
    case StepJob(_) => true
    case BatchJob(kind, _) => m.state.Live? ==> KindOpen(kind, db.findings) && !AllDone(kind, db.findings)
    case ScriptJob(finding, script) =>
      && (m.state.Live? ==> finding in db.findings && script in c.scripts)
      && (m.state.Done? ==> Pair(finding, script) in db.enriched)
  }

  ghost predicate RowsOk(c: Config, db: Db) {
    forall id | id in db.ledger.metas :: RowOk(c, db, db.ledger.metas[id])
  }

  /** All that a completed scan promises. */
  ghost predicate Finished(c: Config, db: Db) {
    && AllDone(Dedupe, db.findings) && AllDone(Ranker, db.findings)
    && (forall kind :: !LiveBatch(db.ledger, kind)) && !LiveScript(db.ledger)
    && forall finding, script |
         finding in db.findings && db.findings[finding].canonical == Some(true) && script in c.scripts ::
         Pair(finding, script) in db.enriched
         || !Stages.SqlEligible(c.pipeline, script, RowsOf(db.enriched, finding))
  }

  ghost predicate DbOk(c: Config, db: Db) {
    && LedgerOk(db.ledger) && RowsOk(c, db)
    && Partition.Partition(db.findings, c.scan) && RankLedger.Ledger(db.findings)
  }

  ghost predicate WorkersOk(c: Config, s: System) {
    && (forall w | 0 <= w < |s.workers| :: PhaseOk(c, s.db.findings, s.db.ledger, s.workers[w]))
    && forall v, w | 0 <= v < w < |s.workers| && Owned(s.workers[v]).Some? :: Owned(s.workers[v]) != Owned(s.workers[w])
  }

  ghost predicate Inv(c: Config, s: System) {
    && DbOk(c, s.db) && WorkersOk(c, s)
    && (s.db.ledger.status.Completed? ==> Finished(c, s.db))
  }

  // ---- Claims are exact ----

  /** A claim that finds its targets waiting was made from the current findings. */
  lemma EligibleIsCurrent(kind: Kind, t: Table, now: Table)
    requires Fresh(kind, t, now) && Eligible(kind, t, now)
    ensures t == now
  {
  }

  lemma TargetsWait(kind: Kind, t: Table)
    ensures forall id | id in TargetIds(kind, t) :: id in t && Wants(kind, t[id])
    ensures forall id | id in AnchorIds(kind, t) :: id in t && Anchors(kind, t[id])
    ensures TargetIds(kind, t) == {} <==> AllDone(kind, t)
  {
    BatchInFits(kind, t);
    var b := BatchIn(kind, t);
    if b.targets != [] {
      assert b.targets[0] in b.targets;
      assert b.targets[0].id in TargetIds(kind, t);
    }
  }

  // ---- Steps that leave the findings alone ----

  /** Every row another worker owns is still there, as it was. */
  ghost predicate KeepsRows(before: Ledger, after: Ledger, p: Phase) {
    Owned(p).Some? && IsLive(before, Owned(p).value) ==>
      Owned(p).value in after.metas && after.metas[Owned(p).value] == before.metas[Owned(p).value]
  }

  lemma PhaseStays(c: Config, now: Table, before: Ledger, after: Ledger, p: Phase)
    requires PhaseOk(c, now, before, p) && KeepsRows(before, after, p)
    ensures PhaseOk(c, now, after, p)
  {
  }

  /** One worker moves to a good phase, the others keep theirs. */
  lemma OneMoves(c: Config, s: System, l: Ledger, enriched: Enriched, w: nat, p: Phase)
    requires WorkersOk(c, s) && w < |s.workers|
    requires PhaseOk(c, s.db.findings, l, p)
    requires forall v | 0 <= v < |s.workers| && v != w :: KeepsRows(s.db.ledger, l, s.workers[v])
    requires Owned(p).Some? ==> Owned(p) == Owned(s.workers[w]) || !IsLive(s.db.ledger, Owned(p).value)
    ensures WorkersOk(c, To(s.(db := s.db.(ledger := l, enriched := enriched)), w, p))
  {
    var after := To(s.(db := s.db.(ledger := l, enriched := enriched)), w, p);
    forall v | 0 <= v < |s.workers| ensures PhaseOk(c, s.db.findings, l, after.workers[v]) {
      if v != w {
        PhaseStays(c, s.db.findings, s.db.ledger, l, s.workers[v]);
      }
    }
    forall u, v | 0 <= u < v < |s.workers| && Owned(after.workers[u]).Some?
      ensures Owned(after.workers[u]) != Owned(after.workers[v])
    {
      OwnedIsLive(c, s, u);
      OwnedIsLive(c, s, v);
    }
  }

  lemma OwnedIsLive(c: Config, s: System, w: nat)
    requires WorkersOk(c, s) && w < |s.workers|
    ensures Owned(s.workers[w]).Some? ==> IsLive(s.db.ledger, Owned(s.workers[w]).value)
  {
    assert PhaseOk(c, s.db.findings, s.db.ledger, s.workers[w]);
  }

  // ---- Reading, giving up, choosing ----

  lemma MoveKeeps(c: Config, s: System, w: nat, p: Phase)
    requires Inv(c, s) && w < |s.workers|
    requires PhaseOk(c, s.db.findings, s.db.ledger, p) && Owned(p).None?
    ensures Inv(c, To(s, w, p))
  {
    OneMoves(c, s, s.db.ledger, s.db.enriched, w, p);
  }

  lemma BeatenIsOk(c: Config, now: Table, l: Ledger, p: Phase)
    requires PhaseOk(c, now, l, p)
    ensures PhaseOk(c, now, l, Beaten(p)) && Owned(Beaten(p)).None?
  {
  }

  lemma GiveUpKeeps(c: Config, s: System, w: nat)
    requires Inv(c, s) && Enabled(c, s, GiveUp(w))
    ensures Inv(c, Next(c, s, GiveUp(w)))
  {
    assert PhaseOk(c, s.db.findings, s.db.ledger, s.workers[w]);
    BeatenIsOk(c, s.db.findings, s.db.ledger, s.workers[w]);
    MoveKeeps(c, s, w, Beaten(s.workers[w]));
  }

  lemma LoadKeeps(c: Config, s: System, w: nat)
    requires Inv(c, s) && Enabled(c, s, Load(w))
    ensures Inv(c, Next(c, s, Load(w)))
  {
    var p := s.workers[w];
    assert PhaseOk(c, s.db.findings, s.db.ledger, p);
    BeatenIsOk(c, s.db.findings, s.db.ledger, p);
    MoveKeeps(
      c, s, w, if TargetIds(p.kind, s.db.findings) == {} then Beaten(p) else Loaded(p.kind, s.db.findings));
  }

  lemma ReadIndexKeeps(c: Config, s: System, w: nat, index: nat)
    requires Inv(c, s) && Enabled(c, s, ReadIndex(w, index))
    ensures Inv(c, Next(c, s, ReadIndex(w, index)))
  {
    assert PhaseOk(c, s.db.findings, s.db.ledger, s.workers[w]);
    MoveKeeps(c, s, w, Indexed(s.workers[w].kind, s.workers[w].table, index));
  }

  lemma ChooseKeeps(c: Config, s: System, w: nat, finding: Id, script: nat)
    requires Inv(c, s) && Enabled(c, s, Choose(w, finding, script))
    ensures Inv(c, Next(c, s, Choose(w, finding, script)))
  {
    assert PhaseOk(c, s.db.findings, s.db.ledger, s.workers[w]);
    assert Candidate(c, s.db, finding, script);
    MoveKeeps(c, s, w, Selected(finding, script));
  }

  // ---- Completion ----

  lemma NothingLeft(c: Config, db: Db, finding: Id, script: nat)
    requires RowsOk(c, db) && !LiveScript(db.ledger) && NoCandidate(c, db, script)
    requires finding in db.findings && db.findings[finding].canonical == Some(true)
    ensures Pair(finding, script) in db.enriched
      || !Stages.SqlEligible(c.pipeline, script, RowsOf(db.enriched, finding))
  {
    assert !Candidate(c, db, finding, script);
    if Taken(db.ledger, ScriptJob(finding, script)) {
      var id :| id in db.ledger.metas && db.ledger.metas[id].job == ScriptJob(finding, script)
        && !db.ledger.metas[id].state.Abandoned?;
      assert RowOk(c, db, db.ledger.metas[id]);
    }
  }

  lemma NoLiveBatches(c: Config, db: Db)
    requires RowsOk(c, db) && AllDone(Dedupe, db.findings) && AllDone(Ranker, db.findings)
    ensures forall kind :: !LiveBatch(db.ledger, kind)
  {
    forall id | id in db.ledger.metas ensures db.ledger.metas[id].job.BatchJob? ==> !db.ledger.metas[id].state.Live? {
      assert RowOk(c, db, db.ledger.metas[id]);
    }
  }

  lemma NoScriptsLive(c: Config, db: Db)
    requires RowsOk(c, db) && (c.scripts == [] || db.findings == map[])
    ensures !LiveScript(db.ledger)
  {
    forall id | id in db.ledger.metas ensures db.ledger.metas[id].job.ScriptJob? ==> !db.ledger.metas[id].state.Live? {
      assert RowOk(c, db, db.ledger.metas[id]);
    }
  }

  lemma DoneIsFinished(c: Config, db: Db)
    requires DbOk(c, db) && AllDone(Dedupe, db.findings) && AllDone(Ranker, db.findings)
    requires forall script | script in c.scripts :: NoCandidate(c, db, script)
    requires !LiveScript(db.ledger)
    ensures Finished(c, db)
  {
    NoLiveBatches(c, db);
    forall finding, script |
      finding in db.findings && db.findings[finding].canonical == Some(true) && script in c.scripts
      ensures Pair(finding, script) in db.enriched
        || !Stages.SqlEligible(c.pipeline, script, RowsOf(db.enriched, finding))
    {
      NothingLeft(c, db, finding, script);
    }
  }

  lemma CompletingKeeps(c: Config, s: System, w: nat, p: Phase)
    requires Inv(c, s) && w < |s.workers| && PhaseOk(c, s.db.findings, s.db.ledger, p) && Owned(p).None?
    requires Finished(c, s.db)
    ensures Inv(c, To(WithLedger(s, Completing(s.db.ledger)), w, p))
  {
    var l := Completing(s.db.ledger);
    var after := To(WithLedger(s, l), w, p);
    OneMoves(c, s, l, s.db.enriched, w, p);
    SameMetas(c, s.db, l);
    FinishedStays(c, s.db, l);
  }

  /** Status and counters do not matter to the rows. */
  lemma SameMetas(c: Config, db: Db, l: Ledger)
    requires DbOk(c, db) && l == db.ledger.(status := l.status)
    ensures DbOk(c, db.(ledger := l))
  {
    assert Jobs(l) == Jobs(db.ledger);
    forall id | id in l.metas ensures RowOk(c, db.(ledger := l), l.metas[id]) {
      assert RowOk(c, db, db.ledger.metas[id]);
    }
  }

  lemma FinishedStays(c: Config, db: Db, l: Ledger)
    requires Finished(c, db) && l.metas == db.ledger.metas
    ensures Finished(c, db.(ledger := l))
  {
    assert forall kind :: LiveBatch(l, kind) ==> LiveBatch(db.ledger, kind);
    assert LiveScript(l) ==> LiveScript(db.ledger);
  }

  lemma LookKeeps(c: Config, s: System, w: nat)
    requires Inv(c, s) && Enabled(c, s, Look(w))
    ensures Inv(c, Next(c, s, Look(w)))
  {
    if s.db.findings == map[] {
      NoScriptsLive(c, s.db);
      forall script | script in c.scripts ensures NoCandidate(c, s.db, script) {
      }
      DoneIsFinished(c, s.db);
      CompletingKeeps(c, s, w, Idle);
    } else {
      MoveKeeps(c, s, w, LookPhase(s.db.findings));
    }
  }

  lemma CompleteKeeps(c: Config, s: System, w: nat)
    requires Inv(c, s) && Enabled(c, s, Complete(w))
    ensures Inv(c, Next(c, s, Complete(w)))
  {
    assert PhaseOk(c, s.db.findings, s.db.ledger, s.workers[w]);
    if c.scripts == [] {
      NoScriptsLive(c, s.db);
    }
    DoneIsFinished(c, s.db);
    CompletingKeeps(c, s, w, Idle);
  }

  /**
   The completion transaction of a worker whose permission comes from an older snapshot: it sets the
   scan to completed, and everything is finished.
   */
  lemma CompletionIsFinished(c: Config, s: System, w: nat)
    requires Inv(c, s) && Enabled(c, s, Complete(w))
    ensures var after := Next(c, s, Complete(w)).db; after.ledger.status.Completed? && Finished(c, after)
  {
    CompleteKeeps(c, s, w);
  }

  lemma SetStatusKeeps(c: Config, s: System, status: Status)
    requires Inv(c, s) && Enabled(c, s, SetStatus(status))
    ensures Inv(c, Next(c, s, SetStatus(status)))
  {
    var l := s.db.ledger.(status := status);
    SameMetas(c, s.db, l);
    forall w | 0 <= w < |s.workers| ensures PhaseOk(c, s.db.findings, l, s.workers[w]) {
      PhaseStays(c, s.db.findings, s.db.ledger, l, s.workers[w]);
    }
  }

  // ---- Claims ----

  /** A claim adds its row, and leaves all others. */
  lemma ClaimAdds(l: Ledger, job: Job, eligible: bool)
    requires LedgerOk(l)
    ensures var (after, row) := Claim(l, job, eligible);
      && (row.Some? ==> eligible && row.value !in l.metas && after.metas == l.metas[row.value := Meta(job, Live)])
      && (row.None? ==> after.metas == l.metas)
      && (l.status.Completed? ==> after == l)
      && (after.status.Completed? ==> l.status.Completed?)
  {
  }

  lemma RowsWithClaim(c: Config, db: Db, after: Ledger, row: Option<nat>, job: Job)
    requires RowsOk(c, db)
    requires row.None? ==> after.metas == db.ledger.metas
    requires row.Some? ==> after.metas == db.ledger.metas[row.value := Meta(job, Live)] && RowOk(c, db, Meta(job, Live))
    ensures RowsOk(c, db.(ledger := after))
  {
    forall id | id in after.metas ensures RowOk(c, db.(ledger := after), after.metas[id]) {
      assert id in db.ledger.metas ==> RowOk(c, db, db.ledger.metas[id]);
    }
  }

  lemma ClaimedRows(c: Config, db: Db, job: Job, eligible: bool)
    requires DbOk(c, db)
    requires eligible ==> RowOk(c, db, Meta(job, Live))
    ensures DbOk(c, db.(ledger := Claim(db.ledger, job, eligible).0))
  {
    var (after, row) := Claim(db.ledger, job, eligible);
    ClaimKeeps(db.ledger, job, eligible);
    ClaimAdds(db.ledger, job, eligible);
    RowsWithClaim(c, db, after, row, job);
  }

  lemma ClaimMoves(c: Config, s: System, w: nat, job: Job, eligible: bool, p: Phase)
    requires Inv(c, s) && w < |s.workers|
    requires eligible ==> RowOk(c, s.db, Meta(job, Live))
    requires var (after, row) := Claim(s.db.ledger, job, eligible);
      PhaseOk(c, s.db.findings, after, p) && Owned(p) == row
    ensures Inv(c, To(WithLedger(s, Claim(s.db.ledger, job, eligible).0), w, p))
  {
    var (after, row) := Claim(s.db.ledger, job, eligible);
    ClaimAdds(s.db.ledger, job, eligible);
    ClaimedRows(c, s.db, job, eligible);
    forall v | 0 <= v < |s.workers| ensures KeepsRows(s.db.ledger, after, s.workers[v]) {
    }
    OneMoves(c, s, after, s.db.enriched, w, p);
  }

  /** The row a batch claim inserts, and the phase it leads to, for a claim whose targets are waiting. */
  lemma ClaimedBatchIsOk(c: Config, db: Db, kind: Kind, t: Table, index: nat, after: Ledger, row: nat)
    requires KindOpen(kind, db.findings) && Fresh(kind, t, db.findings) && Eligible(kind, t, db.findings)
    requires IsLive(after, row) && after.metas[row].job == BatchJob(kind, index)
    ensures t == db.findings
    ensures RowOk(c, db, Meta(BatchJob(kind, index), Live))
    ensures PhaseOk(c, db.findings, after, InBatch(kind, t, row))
  {
    EligibleIsCurrent(kind, t, db.findings);
    TargetsWait(kind, t);
  }

  lemma ClaimBatchKeeps(c: Config, s: System, w: nat)
    requires Inv(c, s) && Enabled(c, s, ClaimBatch(w))
    ensures Inv(c, Next(c, s, ClaimBatch(w)))
  {
    var p := s.workers[w];
    var job, eligible := BatchJob(p.kind, p.index), Eligible(p.kind, p.table, s.db.findings);
    var (after, row) := Claim(s.db.ledger, job, eligible);
    assert PhaseOk(c, s.db.findings, s.db.ledger, p);
    ClaimAdds(s.db.ledger, job, eligible);
    if eligible {
      var shown := Insert(s.db.ledger, job);
      ClaimedBatchIsOk(c, s.db, p.kind, p.table, p.index, shown, s.db.ledger.next);
    }
    if row.Some? {
      ClaimedBatchIsOk(c, s.db, p.kind, p.table, p.index, after, row.value);
      ClaimMoves(c, s, w, job, eligible, InBatch(p.kind, p.table, row.value));
    } else {
      BeatenIsOk(c, s.db.findings, s.db.ledger, p);
      PhaseStays(c, s.db.findings, s.db.ledger, after, Beaten(p));
      ClaimMoves(c, s, w, job, eligible, Beaten(p));
    }
  }

  lemma ClaimScriptKeeps(c: Config, s: System, w: nat)
    requires Inv(c, s) && Enabled(c, s, ClaimScript(w))
    ensures Inv(c, Next(c, s, ClaimScript(w)))
  {
    var p := s.workers[w];
    var job := ScriptJob(p.finding, p.script);
    assert PhaseOk(c, s.db.findings, s.db.ledger, p);
    ClaimAdds(s.db.ledger, job, true);
    var (after, row) := Claim(s.db.ledger, job, true);
    ClaimMoves(c, s, w, job, true, if row.Some? then InScript(p.finding, p.script, row.value) else Idle);
  }

  /** No worker is in a batch while a claim of a batch succeeds. */
  lemma ClaimIsAlone(c: Config, s: System, kind: Kind, index: nat, v: nat)
    requires WorkersOk(c, s) && v < |s.workers| && KindOpen(kind, s.db.findings) && !AllDone(kind, s.db.findings)
    requires !Blocked(s.db.ledger, BatchJob(kind, index))
    ensures !s.workers[v].InBatch?
  {
    assert PhaseOk(c, s.db.findings, s.db.ledger, s.workers[v]);
    assert !LiveBatch(s.db.ledger, kind);
  }

  lemma ClaimedWhen(l: Ledger, job: Job, eligible: bool)
    requires Claim(l, job, eligible).1.Some?
    ensures eligible && !Blocked(l, job)
  {
  }

  /**
   Optimistic claims are exact: whatever happened since a worker loaded its snapshot, a batch claim that
   succeeds was chosen from the findings as they are now, so its anchors and targets are the current ones.
   */
  lemma ClaimIsExact(c: Config, s: System, p: Phase, w: nat)
    requires Inv(c, s) && w < |s.workers| && p == s.workers[w] && p.Indexed?
    requires Claim(
      s.db.ledger, BatchJob(p.kind, p.index), Eligible(p.kind, p.table, s.db.findings)).1.Some?
    ensures p.table == s.db.findings && BatchIn(p.kind, p.table) == BatchIn(p.kind, s.db.findings)
    ensures forall v | 0 <= v < |s.workers| :: !s.workers[v].InBatch?
  {
    assert PhaseOk(c, s.db.findings, s.db.ledger, p);
    ClaimedWhen(s.db.ledger, BatchJob(p.kind, p.index), Eligible(p.kind, p.table, s.db.findings));
    EligibleIsCurrent(p.kind, p.table, s.db.findings);
    TargetsWait(p.kind, p.table);
    forall v | 0 <= v < |s.workers| ensures !s.workers[v].InBatch? {
      ClaimIsAlone(c, s, p.kind, p.index, v);
    }
  }

  // ---- Ending a row ----

  lemma SettledRows(c: Config, db: Db, row: nat, ok: bool, enriched: Enriched)
    requires DbOk(c, db) && IsLive(db.ledger, row)
    requires db.enriched.Keys <= enriched.Keys
    requires ok && db.ledger.metas[row].job.ScriptJob? ==>
      Pair(db.ledger.metas[row].job.finding, db.ledger.metas[row].job.script) in enriched
    ensures DbOk(c, db.(ledger := Settle(db.ledger, row, ok), enriched := enriched))
  {
    var l := Settle(db.ledger, row, ok);
    SettleKeeps(db.ledger, row, ok);
    forall id | id in l.metas ensures RowOk(c, db.(ledger := l, enriched := enriched), l.metas[id]) {
      assert RowOk(c, db, db.ledger.metas[id]);
    }
  }

  lemma SettledWorkers(c: Config, s: System, w: nat, ok: bool, enriched: Enriched)
    requires WorkersOk(c, s) && w < |s.workers| && Owned(s.workers[w]).Some?
    requires IsLive(s.db.ledger, Owned(s.workers[w]).value)
    ensures var l := Settle(s.db.ledger, Owned(s.workers[w]).value, ok);
      WorkersOk(c, To(s.(db := s.db.(ledger := l, enriched := enriched)), w, Idle))
  {
    var row := Owned(s.workers[w]).value;
    forall v | 0 <= v < |s.workers| && v != w
      ensures KeepsRows(s.db.ledger, Settle(s.db.ledger, row, ok), s.workers[v])
    {
      assert v < w ==> Owned(s.workers[v]) != Owned(s.workers[w]);
    }
    OneMoves(c, s, Settle(s.db.ledger, row, ok), enriched, w, Idle);
  }

  lemma SettledFinished(c: Config, db: Db, row: nat)
    requires Finished(c, db) && IsLive(db.ledger, row)
    ensures db.ledger.metas[row].job.StepJob?
    ensures Finished(c, db.(ledger := Settle(db.ledger, row, false)))
  {
    var l := Settle(db.ledger, row, false);
    assert db.ledger.metas[row].job.BatchJob? ==> LiveBatch(db.ledger, db.ledger.metas[row].job.kind);
    forall kind ensures !LiveBatch(l, kind) {
      assert !LiveBatch(db.ledger, kind);
    }
  }

  lemma FailKeeps(c: Config, s: System, w: nat)
    requires Inv(c, s) && Enabled(c, s, FailJob(w))
    ensures Inv(c, Next(c, s, FailJob(w)))
  {
    var row := Owned(s.workers[w]).value;
    SettledRows(c, s.db, row, false, s.db.enriched);
    SettledWorkers(c, s, w, false, s.db.enriched);
    if s.db.ledger.status.Completed? {
      SettledFinished(c, s.db, row);
    }
  }

  lemma CleanUpKeeps(c: Config, s: System, row: nat)
    requires Inv(c, s) && Enabled(c, s, CleanUp(row))
    ensures Inv(c, Next(c, s, CleanUp(row)))
  {
    var l := Settle(s.db.ledger, row, false);
    SettledRows(c, s.db, row, false, s.db.enriched);
    forall w | 0 <= w < |s.workers| ensures PhaseOk(c, s.db.findings, l, s.workers[w]) {
      PhaseStays(c, s.db.findings, s.db.ledger, l, s.workers[w]);
    }
    if s.db.ledger.status.Completed? {
      SettledFinished(c, s.db, row);
    }
  }

  lemma EnrichKeeps(c: Config, s: System, w: nat, ok: bool, enrichment: Stages.Enrichment)
    requires Inv(c, s) && w < |s.workers| && s.workers[w].InScript? && IsLive(s.db.ledger, s.workers[w].row)
    ensures var p := s.workers[w];
      Inv(c, To(s.(db := s.db.(ledger := Settle(s.db.ledger, p.row, ok),
                          enriched := s.db.enriched[Pair(p.finding, p.script) := enrichment])), w, Idle))
  {
    var p := s.workers[w];
    assert PhaseOk(c, s.db.findings, s.db.ledger, p);
    var enriched := s.db.enriched[Pair(p.finding, p.script) := enrichment];
    SettledRows(c, s.db, p.row, ok, enriched);
    SettledWorkers(c, s, w, ok, enriched);
    assert LiveScript(s.db.ledger);
  }

  // ---- Finishing a batch ----

  /** What both kinds of batch do to the findings: their targets are done, nothing that was done is undone. */
  ghost predicate Effect(kind: Kind, now: Table, after: Table) {
    && after.Keys == now.Keys
    && (forall id | id in now && !Wants(kind, now[id]) :: !Wants(kind, after[id]))
    && (forall id | id in TargetIds(kind, now) && id in now :: !Wants(kind, after[id]))
    && (kind.Ranker? ==> forall id | id in now :: Wants(Dedupe, after[id]) <==> Wants(Dedupe, now[id]))
  }

  lemma FreshAfter(kind: Kind, mine: Kind, t: Table, now: Table, after: Table)
    requires Effect(mine, now, after) && KindOpen(mine, now) && !AllDone(mine, now)
    requires KindOpen(kind, now) && TargetIds(kind, t) != {} && Fresh(kind, t, now)
    ensures Fresh(kind, t, after) && KindOpen(kind, after)
  {
    TargetsWait(kind, t);
    if kind == mine {
      if t == now {
        var id :| id in TargetIds(kind, t);
        assert id in after && !Wants(kind, after[id]);
      }
    } else {
      assert kind.Dedupe? && mine.Ranker?;
      var id :| id in TargetIds(kind, t);
      assert t[id].canonical.None? && id in t;
    }
  }

  lemma PhaseAfterBatch(c: Config, mine: Kind, now: Table, after: Table, l: Ledger, row: nat, p: Phase)
    requires Effect(mine, now, after) && KindOpen(mine, now) && !AllDone(mine, now)
    requires LedgerOk(l) && IsLive(l, row) && l.metas[row].job.BatchJob? && l.metas[row].job.kind == mine
    requires PhaseOk(c, now, l, p) && Owned(p) != Some(row)
    ensures PhaseOk(c, after, Settle(l, row, true), p)
  {
    match p
    case Idle =>
    case Entering(kind) =>
    case Loaded(kind, t) => FreshAfter(kind, mine, t, now, after);
    case Indexed(kind, t, _) => FreshAfter(kind, mine, t, now, after);
    case InBatch(kind, t, other) =>
      assert false;
    case Scripts(allowComplete) =>
    case Selected(finding, script) =>
    case InScript(finding, script, _) =>
  }

  lemma RowAfterBatch(c: Config, mine: Kind, db: Db, after: Table, row: nat, id: nat)
    requires Effect(mine, db.findings, after) && KindOpen(mine, db.findings) && !AllDone(mine, db.findings)
    requires LedgerOk(db.ledger) && IsLive(db.ledger, row)
    requires db.ledger.metas[row].job.BatchJob? && db.ledger.metas[row].job.kind == mine
    requires id in db.ledger.metas && RowOk(c, db, db.ledger.metas[id])
    ensures RowOk(c, db.(ledger := Settle(db.ledger, row, true), findings := after),
                  Settle(db.ledger, row, true).metas[id])
  {
    if id != row && IsLive(db.ledger, id) {
      assert !SameKind(db.ledger.metas[id].job, db.ledger.metas[row].job);
    }
  }

  lemma BatchKeepsDb(c: Config, mine: Kind, db: Db, after: Table, row: nat)
    requires DbOk(c, db) && KindOpen(mine, db.findings) && !AllDone(mine, db.findings)
    requires Effect(mine, db.findings, after)
    requires IsLive(db.ledger, row) && db.ledger.metas[row].job.BatchJob? && db.ledger.metas[row].job.kind == mine
    requires Partition.Partition(after, c.scan) && RankLedger.Ledger(after)
    ensures DbOk(c, db.(ledger := Settle(db.ledger, row, true), findings := after))
  {
    var l := Settle(db.ledger, row, true);
    SettleKeeps(db.ledger, row, true);
    forall id | id in l.metas ensures RowOk(c, db.(ledger := l, findings := after), l.metas[id]) {
      RowAfterBatch(c, mine, db, after, row, id);
    }
  }

  lemma BatchKeepsWorkers(c: Config, s: System, w: nat, after: Table)
    requires WorkersOk(c, s) && LedgerOk(s.db.ledger)
    requires w < |s.workers| && s.workers[w].InBatch? && IsLive(s.db.ledger, s.workers[w].row)
    requires Effect(s.workers[w].kind, s.db.findings, after)
    ensures WorkersOk(
      c, To(s.(db := s.db.(ledger := Settle(s.db.ledger, s.workers[w].row, true), findings := after)), w, Idle))
  {
    var p := s.workers[w];
    var l := Settle(s.db.ledger, p.row, true);
    assert PhaseOk(c, s.db.findings, s.db.ledger, p);
    forall v | 0 <= v < |s.workers| && v != w ensures PhaseOk(c, after, l, s.workers[v]) {
      assert v < w ==> Owned(s.workers[v]) != Owned(s.workers[w]);
      PhaseAfterBatch(c, p.kind, s.db.findings, after, s.db.ledger, p.row, s.workers[v]);
    }
  }

  lemma BatchKeeps(c: Config, s: System, w: nat, after: Table)
    requires Inv(c, s) && w < |s.workers| && s.workers[w].InBatch? && IsLive(s.db.ledger, s.workers[w].row)
    requires Effect(s.workers[w].kind, s.db.findings, after)
    requires Partition.Partition(after, c.scan) && RankLedger.Ledger(after)
    ensures var l := Settle(s.db.ledger, s.workers[w].row, true);
      Inv(c, To(s.(db := s.db.(ledger := l, findings := after)), w, Idle))
  {
    assert PhaseOk(c, s.db.findings, s.db.ledger, s.workers[w]);
    assert !s.db.ledger.status.Completed?;
    BatchKeepsDb(c, s.workers[w].kind, s.db, after, s.workers[w].row);
    BatchKeepsWorkers(c, s, w, after);
  }

  lemma DedupeEffect(c: Config, t: Table, clusters: seq<Clusters.Cluster>)
    requires Clusters.ClustersOk(clusters, AnchorIds(Dedupe, t), TargetIds(Dedupe, t))
    requires Partition.Partition(t, c.scan)
    ensures Effect(Dedupe, t, DedupeWritten(c, t, t, clusters))
    ensures Partition.Partition(DedupeWritten(c, t, t, clusters), c.scan)
  {
    TargetsWait(Dedupe, t);
    Partition.BatchKeepsPartition(t, c.scan, clusters, AnchorIds(Dedupe, t), TargetIds(Dedupe, t));
    Partition.BatchOnlyFilesTargets(t, c.scan, clusters, AnchorIds(Dedupe, t), TargetIds(Dedupe, t));
  }

  lemma DedupeKeepsRanks(c: Config, t: Table, clusters: seq<Clusters.Cluster>)
    requires Clusters.ClustersOk(clusters, AnchorIds(Dedupe, t), TargetIds(Dedupe, t))
    requires RankLedger.Ledger(t)
    ensures RankLedger.Ledger(DedupeWritten(c, t, t, clusters))
  {
    TargetsWait(Dedupe, t);
    Partition.BatchOnlyFilesTargets(t, c.scan, clusters, AnchorIds(Dedupe, t), TargetIds(Dedupe, t));
    RankLedger.SameRanksKeepLedger(t, DedupeWritten(c, t, t, clusters));
  }

  lemma RanksKeepFiling(t: Table, items: seq<Ranks.Item>, scan: int)
    requires Ranks.RankingsOk(items, TargetIds(Ranker, t)) && RankLedger.Ledger(t)
    ensures RanksWritten(t, t, items).Keys == t.Keys
    ensures forall id | id in t :: Partition.SameFiling(t[id], RanksWritten(t, t, items)[id])
    ensures Partition.Partition(t, scan) ==> Partition.Partition(RanksWritten(t, t, items), scan)
  {
    var b, after := BatchIn(Ranker, t), RanksWritten(t, t, items);
    PlacedTargets(items, t);
    BatchIsPlaced(t, items);
    forall id | id in t ensures after.Keys == t.Keys && Partition.SameFiling(t[id], after[id]) {
      RankLedger.RanksOnly(t, items, b.anchors, b.targets, id);
    }
    NoNewKeys(t, items);
    if Partition.Partition(t, scan) {
      Partition.SameFilingKeepsPartition(t, after, scan);
    }
  }

  lemma NoNewKeys(t: Table, items: seq<Ranks.Item>)
    requires Ranks.RankingsOk(items, TargetIds(Ranker, t)) && RankLedger.Ledger(t)
    ensures RanksWritten(t, t, items).Keys == t.Keys
  {
    var b := BatchIn(Ranker, t);
    PlacedTargets(items, t);
    BatchIsPlaced(t, items);
    RankLedger.OrderIs(t, items, b.anchors, b.targets);
  }

  lemma RanksEffect(t: Table, items: seq<Ranks.Item>)
    requires Ranks.RankingsOk(items, TargetIds(Ranker, t)) && RankLedger.Ledger(t)
    ensures Effect(Ranker, t, RanksWritten(t, t, items))
    ensures RankLedger.Ledger(RanksWritten(t, t, items))
    ensures RankLedger.Ranked(RanksWritten(t, t, items)) == RankLedger.Ranked(t) + TargetIds(Ranker, t)
  {
    var b := BatchIn(Ranker, t);
    PlacedTargets(items, t);
    BatchIsPlaced(t, items);
    RankLedger.BatchKeepsLedger(t, items, b.anchors, b.targets);
    RanksKeepFiling(t, items, 0);
    EffectOfRanks(t, RanksWritten(t, t, items));
  }

  lemma EffectOfRanks(t: Table, after: Table)
    requires after.Keys == t.Keys
    requires RankLedger.Ranked(after) == RankLedger.Ranked(t) + TargetIds(Ranker, t)
    requires forall id | id in t :: Partition.SameFiling(t[id], after[id])
    ensures Effect(Ranker, t, after)
  {
    forall id | id in t && !Wants(Ranker, t[id]) ensures !Wants(Ranker, after[id]) {
      if id in RankLedger.Ranked(t) {
        assert id in RankLedger.Ranked(after);
      }
    }
    forall id | id in TargetIds(Ranker, t) && id in t ensures !Wants(Ranker, after[id]) {
      assert id in RankLedger.Ranked(after);
    }
  }

  lemma BatchIsPlaced(t: Table, items: seq<Ranks.Item>)
    requires Ranks.RankingsOk(items, TargetIds(Ranker, t)) && RankLedger.Ledger(t)
    ensures RankLedger.Placed(t, items, BatchIn(Ranker, t).anchors, BatchIn(Ranker, t).targets)
  {
    BatchInFits(Ranker, t);
    assert (set id | id in t && Anchors(Ranker, t[id])) == RankLedger.Ranked(t) by {
      assert forall id | id in RankLedger.Ranked(t) :: t[id].canonical == Some(true);
    }
  }

  lemma FinishDedupeKeeps(c: Config, s: System, w: nat, clusters: seq<Clusters.Cluster>)
    requires Inv(c, s) && Enabled(c, s, FinishDedupe(w, clusters))
    ensures Inv(c, Next(c, s, FinishDedupe(w, clusters)))
  {
    var p := s.workers[w];
    assert PhaseOk(c, s.db.findings, s.db.ledger, p);
    DedupeEffect(c, s.db.findings, clusters);
    DedupeKeepsRanks(c, s.db.findings, clusters);
    BatchKeeps(c, s, w, DedupeWritten(c, s.db.findings, p.table, clusters));
  }

  lemma FinishRanksKeeps(c: Config, s: System, w: nat, items: seq<Ranks.Item>)
    requires Inv(c, s) && Enabled(c, s, FinishRanks(w, items))
    ensures Inv(c, Next(c, s, FinishRanks(w, items)))
  {
    var p := s.workers[w];
    assert PhaseOk(c, s.db.findings, s.db.ledger, p);
    RanksEffect(s.db.findings, items);
    RanksKeepFiling(s.db.findings, items, c.scan);
    BatchKeeps(c, s, w, RanksWritten(s.db.findings, p.table, items));
  }

  // ---- Every run ----

  /** Steps of the batch operations. */
  lemma BatchStepKeeps(c: Config, s: System, e: Event)
    requires Inv(c, s) && Enabled(c, s, e)
    requires e.Load? || e.ReadIndex? || e.ClaimBatch? || e.FinishDedupe? || e.FinishRanks?
    ensures Inv(c, Next(c, s, e))
  {
    match e
    case Load(w) => LoadKeeps(c, s, w);
    case ReadIndex(w, index) => ReadIndexKeeps(c, s, w, index);
    case ClaimBatch(w) => ClaimBatchKeeps(c, s, w);
    case FinishDedupe(w, clusters) => FinishDedupeKeeps(c, s, w, clusters);
    case FinishRanks(w, items) => FinishRanksKeeps(c, s, w, items);
  }

  /** Steps of the script operation. */
  lemma ScriptStepKeeps(c: Config, s: System, e: Event)
    requires Inv(c, s) && Enabled(c, s, e)
    requires e.Choose? || e.ClaimScript? || e.FinishScript? || e.BlockScript? || e.Complete?
    ensures Inv(c, Next(c, s, e))
  {
    match e
    case Choose(w, finding, script) => ChooseKeeps(c, s, w, finding, script);
    case ClaimScript(w) => ClaimScriptKeeps(c, s, w);
    case FinishScript(w, enrichment) => EnrichKeeps(c, s, w, true, enrichment);
    case BlockScript(w, enrichment) => EnrichKeeps(c, s, w, false, enrichment);
    case Complete(w) => CompleteKeeps(c, s, w);
  }

  /** Every other step. */
  lemma OtherStepKeeps(c: Config, s: System, e: Event)
    requires Inv(c, s) && Enabled(c, s, e)
    requires e.Look? || e.GiveUp? || e.FailJob? || e.Die? || e.CleanUp? || e.SetStatus?
    ensures Inv(c, Next(c, s, e))
  {
    match e
    case Look(w) => LookKeeps(c, s, w);
    case GiveUp(w) => GiveUpKeeps(c, s, w);
    case FailJob(w) => FailKeeps(c, s, w);
    case Die(w) => MoveKeeps(c, s, w, Idle);
    case CleanUp(row) => CleanUpKeeps(c, s, row);
    case SetStatus(status) => SetStatusKeeps(c, s, status);
  }

  lemma StepKeeps(c: Config, s: System, e: Event)
    requires Inv(c, s) && Enabled(c, s, e)
    ensures Inv(c, Next(c, s, e))
  {
    if e.Load? || e.ReadIndex? || e.ClaimBatch? || e.FinishDedupe? || e.FinishRanks? {
      BatchStepKeeps(c, s, e);
    } else if e.Choose? || e.ClaimScript? || e.FinishScript? || e.BlockScript? || e.Complete? {
      ScriptStepKeeps(c, s, e);
    } else {
      OtherStepKeeps(c, s, e);
    }
  }

  lemma InitialIsOk(c: Config, s: System)
    requires Initial(s)
    ensures Inv(c, s)
  {
    NothingRanked(s.db.findings);
  }

  lemma NothingRanked(t: Table)
    requires forall id | id in t :: t[id].bountyRank.None?
    ensures RankLedger.Ledger(t)
  {
    assert forall id :: id !in RankLedger.Ranked(t);
    assert RankLedger.Ranked(t) == {};
  }

  lemma {:induction false} InvHolds(c: Config, states: seq<System>, events: seq<Event>, i: nat)
    requires IsRun(c, states, events) && i < |states|
    ensures Inv(c, states[i])
  {
    if i == 0 {
      InitialIsOk(c, states[0]);
    } else {
      InvHolds(c, states, events, i - 1);
      assert Enabled(c, states[i - 1], events[i - 1]);
      StepKeeps(c, states[i - 1], events[i - 1]);
    }
  }

  /**
   In every reachable state the processed findings are partitioned by their canonicals, the ranks are a
   bijection onto 1..n, the job ledger is conserved, and a completed scan is finished.
   */
  lemma EveryRunIsSafe(c: Config, states: seq<System>, events: seq<Event>, i: nat)
    requires IsRun(c, states, events) && i < |states|
    ensures var db := states[i].db;
      && Partition.Partition(db.findings, c.scan) && RankLedger.Ledger(db.findings) && LedgerOk(db.ledger)
      && (db.ledger.status.Completed? ==> Finished(c, db))
  {
    InvHolds(c, states, events, i);
  }

  /** In every run, a batch claim that succeeds was chosen from the current findings, by the only batch worker. */
  lemma EveryClaimIsExact(c: Config, states: seq<System>, events: seq<Event>, i: nat)
    requires IsRun(c, states, events) && i < |events| && events[i].ClaimBatch?
    requires states[i + 1].workers[events[i].w].InBatch?
    ensures var p := states[i].workers[events[i].w];
      && p.table == states[i].db.findings
      && BatchIn(p.kind, p.table) == BatchIn(p.kind, states[i].db.findings)
      && forall v | 0 <= v < |states[i].workers| :: !states[i].workers[v].InBatch?
  {
    InvHolds(c, states, events, i);
    assert Enabled(c, states[i], events[i]);
    ClaimIsExact(c, states[i], states[i].workers[events[i].w], events[i].w);
  }

  lemma BatchPermits(c: Config, s: System, e: Event, w: nat)
    requires e.Load? || e.ReadIndex?
    requires Enabled(c, s, e) && w < |Next(c, s, e).workers| && Next(c, s, e).workers[w] == Scripts(true)
    ensures w < |s.workers| && s.workers[w] == Scripts(true)
  {
  }

  lemma BatchClaimPermits(c: Config, s: System, e: Event, w: nat)
    requires e.ClaimBatch?
    requires Enabled(c, s, e) && w < |Next(c, s, e).workers| && Next(c, s, e).workers[w] == Scripts(true)
    ensures w < |s.workers| && s.workers[w] == Scripts(true)
  {
  }

  lemma BatchEndPermits(c: Config, s: System, e: Event, w: nat)
    requires e.FinishDedupe? || e.FinishRanks?
    requires Enabled(c, s, e) && w < |Next(c, s, e).workers| && Next(c, s, e).workers[w] == Scripts(true)
    ensures w < |s.workers| && s.workers[w] == Scripts(true)
  {
  }

  lemma ScriptPermits(c: Config, s: System, e: Event, w: nat)
    requires e.Choose? || e.ClaimScript? || e.FinishScript? || e.BlockScript? || e.Complete?
    requires Enabled(c, s, e) && w < |Next(c, s, e).workers| && Next(c, s, e).workers[w] == Scripts(true)
    ensures w < |s.workers| && s.workers[w] == Scripts(true)
  {
  }

  lemma OtherPermits(c: Config, s: System, e: Event, w: nat)
    requires e.GiveUp? || e.FailJob? || e.Die? || e.CleanUp? || e.SetStatus?
    requires Enabled(c, s, e) && w < |Next(c, s, e).workers| && Next(c, s, e).workers[w] == Scripts(true)
    ensures w < |s.workers| && s.workers[w] == Scripts(true)
  {
  }

  lemma PermissionStep(c: Config, s: System, e: Event, w: nat)
    requires Enabled(c, s, e) && w < |Next(c, s, e).workers| && Next(c, s, e).workers[w] == Scripts(true)
    ensures w < |s.workers|
    ensures || s.workers[w] == Scripts(true)
            || (e == Look(w) && AllDone(Dedupe, s.db.findings) && AllDone(Ranker, s.db.findings))
  {
    if e.Load? || e.ReadIndex? {
      BatchPermits(c, s, e, w);
    } else if e.ClaimBatch? {
      BatchClaimPermits(c, s, e, w);
    } else if e.FinishDedupe? || e.FinishRanks? {
      BatchEndPermits(c, s, e, w);
    } else if e.Choose? || e.ClaimScript? || e.FinishScript? || e.BlockScript? || e.Complete? {
      ScriptPermits(c, s, e, w);
    } else if !e.Look? {
      OtherPermits(c, s, e, w);
    }
  }

  /** What holds now and did not at first was granted at some point and has held since. */
  lemma {:induction false} Granted(holds: nat -> bool, grants: nat -> bool, i: nat) returns (j: nat)
    requires holds(i) && !holds(0)
    requires forall k: nat | k < i && holds(k + 1) :: holds(k) || grants(k)
    ensures j < i && grants(j) && forall k: nat | j < k <= i :: holds(k)
  {
    if holds(i - 1) {
      j := Granted(holds, grants, i - 1);
    } else {
      j := i - 1;
    }
  }

  ghost predicate Permitted(states: seq<System>, w: nat, k: nat) {
    k < |states| && w < |states[k].workers| && states[k].workers[w] == Scripts(true)
  }

  ghost predicate Permits(states: seq<System>, events: seq<Event>, w: nat, k: nat) {
    && k < |events| && k < |states| && events[k] == Look(w)
    && AllDone(Dedupe, states[k].db.findings) && AllDone(Ranker, states[k].db.findings)
  }

  lemma PermissionIsOld(c: Config, states: seq<System>, events: seq<Event>, i: nat, w: nat) returns (j: nat)
    requires IsRun(c, states, events) && Permitted(states, w, i)
    ensures j < i && Permits(states, events, w, j) && forall k: nat | j < k <= i :: Permitted(states, w, k)
  {
    forall k: nat | k < i && Permitted(states, w, k + 1)
      ensures Permitted(states, w, k) || Permits(states, events, w, k)
    {
      assert Enabled(c, states[k], events[k]);
      PermissionStep(c, states[k], events[k], w);
    }
    var holds := (k: nat) => Permitted(states, w, k);
    j := Granted(holds, (k: nat) => Permits(states, events, w, k), i);
    forall k: nat | j < k <= i ensures Permitted(states, w, k) {
      assert holds(k);
    }
  }

  /**
   In every run, whenever a worker completes the scan, by a permission it was given at an earlier
   look, everything is deduplicated, ranked, enriched or gated out, and nothing is running.
   */
  lemma EveryCompletionIsFinished(c: Config, states: seq<System>, events: seq<Event>, i: nat, w: nat)
    returns (j: nat)
    requires IsRun(c, states, events) && i < |events| && events[i] == Complete(w)
    ensures j < i && Permits(states, events, w, j) && forall k: nat | j < k <= i :: Permitted(states, w, k)
    ensures states[i + 1].db.ledger.status.Completed? && Finished(c, states[i + 1].db)
  {
    InvHolds(c, states, events, i);
    assert Enabled(c, states[i], events[i]);
    CompletionIsFinished(c, states[i], w);
    j := PermissionIsOld(c, states, events, i, w);
  }
}
