/** The conditional stages of the v2.7 pipeline (engine/open_kritt_engine/v27_pipeline.py). */
module PipelineStages {
  import opened Wrappers
  import opened JsonValues
  import opened ImpactEvidence

  /** The three stage scripts of a gated scan. */
  datatype Pipeline = Pipeline(d3: nat, d4: nat, d5: nat)

  datatype Stage = D3 | D4 | D5 | Ungated

  /** `pipeline_ids`: three positive, pairwise different script ids, or no pipeline. */
  function PipelineIds(configured: Option<(int, int, int)>): (r: Option<Pipeline>)
    ensures r.Some? <==>
      && configured.Some?
      && (var ids := configured.value; 0 < ids.0 && 0 < ids.1 && 0 < ids.2 && |{ids.0, ids.1, ids.2}| == 3)
    ensures r.Some? ==> (r.value.d3, r.value.d4, r.value.d5) == configured.value
  {
    if configured.None? then None
    else
      var (d3, d4, d5) := configured.value;
      if d3 <= 0 || d4 <= 0 || d5 <= 0 || d3 == d4 || d4 == d5 || d3 == d5 then None
      else Some(Pipeline(d3, d4, d5))
  }

  function StageForScript(pipeline: Option<Pipeline>, script: nat): Stage {
    if pipeline.None? then Ungated
    else if pipeline.value.d3 == script then D3
    else if pipeline.value.d4 == script then D4
    else if pipeline.value.d5 == script then D5
    else Ungated
  }

  /** A stored enrichment: the model's result, and the evidence the engine put beside it. */
  datatype Enrichment = Enrichment(stub: bool, result: Dict, evidence: Option<Evidence>)

  /** A stage is open when the stage before it has a row that passes. */
  predicate Gate(
    pipeline: Option<Pipeline>, script: nat, rows: map<nat, Enrichment>,
    d3Passes: Enrichment -> bool, d4Passes: Enrichment -> bool)
  {
    match StageForScript(pipeline, script)
    case D4 => pipeline.value.d3 in rows && d3Passes(rows[pipeline.value.d3])
    case D5 => pipeline.value.d4 in rows && d4Passes(rows[pipeline.value.d4])
    case _ => true
  }

  predicate D3Passes(row: Enrichment) {
    IsOneOf(row.result, "verdict", D3_PASS_VERDICTS)
  }

  predicate D4Passes(row: Enrichment) {
    row.evidence.Some? && D5Eligible(row.evidence.value)
  }

  predicate D3SqlPasses(row: Enrichment) {
    !row.stub && D4Sql(row.result)
  }

  predicate D4SqlPasses(row: Enrichment) {
    !row.stub && row.evidence.Some? && D5Sql(row.evidence.value)
  }

  /** `prior_results`: the enrichments that are not stubs. */
  function PriorResults(rows: map<nat, Enrichment>): map<nat, Enrichment> {
    map s | s in rows && !rows[s].stub :: rows[s]
  }

  /** The gate `eligible_for_stage` states, over the results that are not stubs. */
  predicate EligibleForStage(pipeline: Option<Pipeline>, script: nat, results: map<nat, Enrichment>) {
    Gate(pipeline, script, results, D3Passes, D4Passes)
  }

  /** The gate the candidate query applies: an existing enrichment of the stage before, not a stub. */
  predicate SqlEligible(pipeline: Option<Pipeline>, script: nat, rows: map<nat, Enrichment>) {
    Gate(pipeline, script, rows, D3SqlPasses, D4SqlPasses)
  }

  /** Evidence the engine itself wrote. */
  ghost predicate Engine(e: Evidence) {
    exists d4, manifest, complete, dir, legacy :: e == EvidenceOf(d4, manifest, complete, dir, legacy)
  }

  lemma D3RowsAgree(row: Enrichment)
    ensures D3SqlPasses(row) <==> !row.stub && D3Passes(row)
  {
  }

  lemma D4RowsAgree(row: Enrichment)
    requires row.evidence.Some? ==> Engine(row.evidence.value)
    ensures D4SqlPasses(row) <==> !row.stub && D4Passes(row)
  {
    if row.evidence.Some? {
      var d4, manifest, complete, dir, legacy :|
        row.evidence.value == EvidenceOf(d4, manifest, complete, dir, legacy);
      SqlAgreesOnBlocks(d4, manifest, complete, dir, legacy);
    }
  }

  lemma GateOfPriorResults(
    pipeline: Option<Pipeline>, script: nat, rows: map<nat, Enrichment>,
    f3: Enrichment -> bool, f4: Enrichment -> bool, g3: Enrichment -> bool, g4: Enrichment -> bool)
    requires forall s | s in rows :: f3(rows[s]) <==> !rows[s].stub && g3(rows[s])
    requires forall s | s in rows :: f4(rows[s]) <==> !rows[s].stub && g4(rows[s])
    ensures Gate(pipeline, script, rows, f3, f4) <==> Gate(pipeline, script, PriorResults(rows), g3, g4)
  {
  }

  /** The candidate query and the stated gate select the same stages when all evidence is the engine's. */
  lemma GatesAgree(pipeline: Option<Pipeline>, script: nat, rows: map<nat, Enrichment>)
    requires forall s | s in rows && rows[s].evidence.Some? :: Engine(rows[s].evidence.value)
    ensures SqlEligible(pipeline, script, rows) <==> EligibleForStage(pipeline, script, PriorResults(rows))
  {
    forall s | s in rows
      ensures D3SqlPasses(rows[s]) <==> !rows[s].stub && D3Passes(rows[s])
      ensures D4SqlPasses(rows[s]) <==> !rows[s].stub && D4Passes(rows[s])
    {
      D3RowsAgree(rows[s]);
      D4RowsAgree(rows[s]);
    }
    GateOfPriorResults(pipeline, script, rows, D3SqlPasses, D4SqlPasses, D3Passes, D4Passes);
  }

  // ---- What opens a stage ----

  /** A D3 result that is no stub and confirms the finding, or finds it worth a proof. */
  predicate Confirmed(rows: map<nat, Enrichment>, script: nat) {
    && script in rows && !rows[script].stub
    && "verdict" in rows[script].result
    && (rows[script].result["verdict"] == Str("confirmed")
        || rows[script].result["verdict"] == Str("plausible_needs_poc"))
  }

  /** A D4 result that is no stub, with evidence of a reproduced bug, captured completely into a directory. */
  predicate Demonstrated(rows: map<nat, Enrichment>, script: nat) {
    && script in rows && !rows[script].stub && rows[script].evidence.Some?
    && var e := rows[script].evidence.value;
       && e.bugStatus == Some(Str("reproduced"))
       && (e.impactStatus == Some(Str("proven")) || e.impactStatus == Some(Str("partial"))
           || e.impactStatus == Some(Str("not_proven")))
       && (e.captureComplete == Bool(true) || e.captureComplete == Str("true"))
       && e.artifactDir != Null && e.artifactDir != Str("")
  }

  lemma ConfirmedIs(row: Enrichment)
    ensures D3SqlPasses(row) <==>
      && !row.stub && "verdict" in row.result
      && (row.result["verdict"] == Str("confirmed") || row.result["verdict"] == Str("plausible_needs_poc"))
  {
    WordsMirror(Some(Get(row.result, "verdict")), D3_PASS_VERDICTS);
  }

  lemma DemonstratedIs(e: Evidence)
    ensures D5Sql(e) <==>
      && e.bugStatus == Some(Str("reproduced"))
      && (e.impactStatus == Some(Str("proven")) || e.impactStatus == Some(Str("partial"))
          || e.impactStatus == Some(Str("not_proven")))
      && (e.captureComplete == Bool(true) || e.captureComplete == Str("true"))
      && e.artifactDir != Null && e.artifactDir != Str("")
  {
    ReproducedMirrors(e.bugStatus);
    ImpactMirrors(e.impactStatus);
    FlagMirrors(e.captureComplete);
  }

  /** The query admits D4 after a confirming D3, D5 after a demonstrating D4, and every other script always. */
  lemma QueryAdmits(pipeline: Option<Pipeline>, script: nat, rows: map<nat, Enrichment>)
    requires pipeline.Some? ==> |{pipeline.value.d3, pipeline.value.d4, pipeline.value.d5}| == 3
    ensures SqlEligible(pipeline, script, rows) <==>
      && (pipeline.Some? && script == pipeline.value.d4 ==> Confirmed(rows, pipeline.value.d3))
      && (pipeline.Some? && script == pipeline.value.d5 ==> Demonstrated(rows, pipeline.value.d4))
  {
    if pipeline.Some? {
      DifferentStages(pipeline.value);
      if pipeline.value.d3 in rows {
        ConfirmedIs(rows[pipeline.value.d3]);
      }
      if pipeline.value.d4 in rows && rows[pipeline.value.d4].evidence.Some? {
        DemonstratedIs(rows[pipeline.value.d4].evidence.value);
      }
    }
  }

  lemma DifferentStages(p: Pipeline)
    requires |{p.d3, p.d4, p.d5}| == 3
    ensures p.d3 != p.d4 && p.d4 != p.d5 && p.d3 != p.d5
  {
    assert p.d3 == p.d4 ==> {p.d3, p.d4, p.d5} == {p.d4, p.d5};
    assert p.d4 == p.d5 ==> {p.d3, p.d4, p.d5} == {p.d3, p.d4};
    assert p.d3 == p.d5 ==> {p.d3, p.d4, p.d5} == {p.d3, p.d4};
    assert |{p.d4, p.d5}| <= 2 && |{p.d3, p.d4}| <= 2;
  }
}
