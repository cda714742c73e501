/** A ready finding, key by key, that the D5 predicate refuses (impact_gate.py). */
module ReadinessWitness {
  import opened Wrappers
  import opened JsonValues
  import opened Text
  import opened EvidencePaths
  import opened ReadinessPolicies
  import opened ImpactEvidence
  import opened ImpactGate

  // ---- The documents ----

  function Row(d: Dict): Json {
    Arr([Obj(d)])
  }

  function Texts(s: string): Json {
    Arr([Str(s)])
  }

  const HOP: Dict := map[
    "id" := Str("h"), "status" := Str("proven"), "evidence_paths" := Texts("p"), "covers" := Texts(TERMINAL_OUTCOME)]
  const OBJECTIVE: Dict := map[
    "claim" := Str("c"), "terminal_outcome" := Str("o"), "required_evidence" := Texts("e"),
    "source_type" := Str("threat_model")]
  const DIMENSION: Dict := map["tag" := Str(TERMINAL_OUTCOME), "status" := Str("required")]
  const MAPPING: Dict := map["status" := Str("proven")]
  const D3: Dict := map[
    "verdict" := Str("confirmed"), "impact_definition_status" := Str("defined"), "impact_objective" := Obj(OBJECTIVE),
    "impact_family" := Str("other"), "evidence_dimensions" := Row(DIMENSION)]
  const D4: Dict := map[
    "bug_status" := Str("reproduced"), "impact_status" := Str("proven"), "observed_terminal_outcome" := Str("o"),
    "negative_control_status" := Str("passed"), "repeatability_status" := Str("deterministic"),
    "impact_chain" := Row(HOP)]
  const D5: Dict := map[
    "impact_match_status" := Str("exact"), "impact_evidence_status" := Str("verified"),
    "impact_mapping" := Row(MAPPING), "artifact_reference" := Str("d")]

  /** The evidence, without statuses of its own. */
  function Bare(): Evidence {
    Evidence(None, None, Str("none"), Str("d"), Texts("p"), Arr([]), Bool(true), Bool(false))
  }

  predicate HopStates(hop: Dict) {
    && Get(hop, "id") == Str("h") && Get(hop, "status") == Str("proven")
    && Get(hop, "evidence_paths") == Texts("p") && Get(hop, "covers") == Texts(TERMINAL_OUTCOME)
  }

  predicate ObjectiveStates(o: Dict) {
    && Get(o, "claim") == Str("c") && Get(o, "terminal_outcome") == Str("o")
    && Get(o, "required_evidence") == Texts("e") && Get(o, "source_type") == Str("threat_model")
  }

  predicate DimensionStates(row: Dict) {
    Get(row, "tag") == Str(TERMINAL_OUTCOME) && Get(row, "status") == Str("required")
  }

  predicate D3States(d3: Dict, o: Dict, row: Dict) {
    && Get(d3, "verdict") == Str("confirmed") && Get(d3, "impact_definition_status") == Str("defined")
    && Get(d3, "impact_objective") == Obj(o) && Get(d3, "impact_family") == Str("other")
    && Get(d3, "evidence_dimensions") == Row(row)
    && Get(d3, "impact_chain_plan") == Null && Get(d3, "unverified_assumptions") == Null
  }

  predicate D4States(d4: Dict, hop: Dict) {
    && Get(d4, "bug_status") == Str("reproduced") && Get(d4, "impact_status") == Str("proven")
    && Get(d4, "observed_terminal_outcome") == Str("o") && Get(d4, "negative_control_status") == Str("passed")
    && Get(d4, "repeatability_status") == Str("deterministic") && Get(d4, "impact_chain") == Row(hop)
    && Get(d4, "missing_impact_links") == Null && Get(d4, "unverified_assumptions") == Null
  }

  predicate D5States(d5: Dict, mapping: Dict) {
    && Get(d5, "impact_match_status") == Str("exact") && Get(d5, "impact_evidence_status") == Str("verified")
    && Get(d5, "impact_mapping") == Row(mapping) && Get(d5, "artifact_reference") == Str("d")
    && Get(d5, "missing_requirements") == Null
    && Get(mapping, "status") == Str("proven") && PathsOf(mapping) == []
  }

  lemma HopIs()
    ensures HopStates(HOP)
  {
  }

  lemma ObjectiveIs()
    ensures ObjectiveStates(OBJECTIVE) && DimensionStates(DIMENSION)
  {
  }

  lemma D3Is()
    ensures D3States(D3, OBJECTIVE, DIMENSION)
  {
  }

  lemma D4Is()
    ensures D4States(D4, HOP)
  {
  }

  lemma D5Is()
    ensures D5States(D5, MAPPING)
  {
  }

  // ---- The rules ----

  lemma OneRow(d: Dict)
    ensures Rows(Row(d)) == [d]
  {
    assert DictsOf([Obj(d)]) == [d] + DictsOf([Obj(d)][1..]);
  }

  lemma OneText(s: string)
    ensures Strings(Texts(s)) == [s]
  {
    assert StringsOf([Str(s)]) == [s] + StringsOf([Str(s)][1..]);
  }

  lemma PlainText(s: string)
    requires s != [] && !BlankStart(s) && !BlankEnd(s)
    ensures TextOf(Str(s)) == s && !Blank(s)
  {
    StripFixed(s);
    assert IsSpace(s[0]) ==> BlankStart(s);
  }

  lemma ObjectiveHolds(o: Dict)
    requires ObjectiveStates(o)
    ensures HasText(o, "claim") && HasText(o, "terminal_outcome")
    ensures SomeText(Get(o, "required_evidence"))
  {
    PlainText("c");
    PlainText("o");
    PlainText("e");
    OneText("e");
    assert "e" in Strings(Get(o, "required_evidence"));
  }

  lemma SourceHolds(o: Dict)
    requires ObjectiveStates(o)
    ensures TextOf(Get(o, "source_type")) == "threat_model"
  {
    PlainText("threat_model");
  }

  lemma Target(policy: Policy, d3: Dict, o: Dict, row: Dict)
    requires "threat_model" in policy.sources && D3States(d3, o, row) && ObjectiveStates(o)
    ensures TargetDefined(Found(policy), d3)
  {
    ObjectiveHolds(o);
    SourceHolds(o);
  }

  lemma Proved(policy: Lookup<Policy>, d4: Dict, hop: Dict, e: Evidence)
    requires e.bugStatus.None? && e.impactStatus.None? && D4States(d4, hop)
    ensures Proof(policy, d4, Some(e))
  {
    PlainText("o");
  }

  lemma HopHolds(hop: Dict)
    requires HopStates(hop)
    ensures HopOk(hop) && Covers(hop, TERMINAL_OUTCOME) && PathsOf(hop) == ["p"]
  {
    PlainText("h");
    PlainText("p");
    OneText("p");
    OneText(TERMINAL_OUTCOME);
    assert "p" in PathsOf(hop);
  }

  lemma Chained(d3: Dict, d4: Dict, hop: Dict)
    requires HopOk(hop) && D4States(d4, hop)
    requires Get(d3, "impact_chain_plan") == Null && Get(d3, "unverified_assumptions") == Null
    ensures ChainComplete(d3, d4)
  {
    OneRow(hop);
    assert Rows(Get(d3, "impact_chain_plan")) == [];
    assert Assumptions(d3, d4) == [];
  }

  lemma Cited(d4: Dict, d5: Dict, hop: Dict, mapping: Dict, e: Evidence)
    requires PathsOf(hop) == ["p"] && D4States(d4, hop) && D5States(d5, mapping)
    requires e.captureComplete == Bool(true) && e.capturedPaths == Texts("p")
    ensures Provenance(d4, d5, Some(e))
  {
    OneRow(hop);
    OneRow(mapping);
    OneText("p");
    assert AllPaths([hop]) == ["p"] + AllPaths([hop][1..]);
    assert AllPaths([mapping]) == [] + AllPaths([mapping][1..]);
    SplitNone("p", '/');
    assert Component("p");
    PlainEndsAreKept(["p"]);
    assert "p" in CapturedNames(Some(e));
    assert "p" in Normalized(CapturedNames(Some(e)));
  }

  lemma RowHolds(row: Dict, hop: Dict)
    requires DimensionStates(row) && Covers(hop, TERMINAL_OUTCOME)
    ensures DimensionsOk([row], [TERMINAL_OUTCOME], [hop])
  {
    PlainText(TERMINAL_OUTCOME);
    assert hop in [hop] && row in [row];
    assert Covered([hop], TERMINAL_OUTCOME);
    assert DimensionOk(row, [TERMINAL_OUTCOME], [hop]);
  }

  lemma OtherFamily()
    ensures FamilyDimensions(POLICY_VERSION, "other") == Found([TERMINAL_OUTCOME])
  {
  }

  lemma Resolved(settings: Settings, d3: Dict, o: Dict, d4: Dict, row: Dict, hop: Dict)
    requires PolicyFor(settings.version, settings.kind).Found? && settings.version == POLICY_VERSION
    requires D3States(d3, o, row) && D4States(d4, hop)
    requires DimensionStates(row) && Covers(hop, TERMINAL_OUTCOME)
    ensures DimensionsResolved(settings, d3, d4)
  {
    PlainText("other");
    OtherFamily();
    OneRow(row);
    OneRow(hop);
    RowHolds(row, hop);
  }

  lemma MatchedExactly(d5: Dict, mapping: Dict, e: Evidence)
    requires D5States(d5, mapping) && e.artifactDir == Str("d")
    ensures Matched(d5, Some(e))
  {
    OneRow(mapping);
    PlainText("d");
  }

  lemma ResearchPolicy() returns (policy: Policy)
    ensures PolicyFor(POLICY_VERSION, "internal_research") == Found(policy) && "threat_model" in policy.sources
    ensures !policy.requiresScope && !policy.requiresNovelty
  {
    policy := PolicyFor(POLICY_VERSION, "internal_research").value;
  }

  lemma Assembled(
    settings: Settings, d3: Dict, o: Dict, row: Dict, d4: Dict, hop: Dict, e: Evidence, d5: Dict, mapping: Dict)
    requires settings == Settings("internal_research", "user", POLICY_VERSION, false) && e == Bare()
    requires D3States(d3, o, row) && ObjectiveStates(o) && DimensionStates(row)
    requires D4States(d4, hop) && HopStates(hop) && D5States(d5, mapping)
    ensures IsReady(settings, d3, d4, Some(e), d5)
  {
    var policy := ResearchPolicy();
    Target(policy, d3, o, row);
    Proved(Found(policy), d4, hop, e);
    HopHolds(hop);
    Chained(d3, d4, hop);
    Cited(d4, d5, hop, mapping, e);
    Resolved(settings, d3, o, d4, row, hop);
    MatchedExactly(d5, mapping, e);
  }

  /**
   A finding of an internal investigation that is ready, with both statuses stated by D4 only; the
   D5 predicate, which reads the evidence alone, refuses it.
   */
  lemma ReadyAndRefused() returns (settings: Settings, d3: Dict, d4: Dict, e: Evidence, d5: Dict)
    ensures settings == Settings("internal_research", "user", POLICY_VERSION, false)
    ensures d3 == D3 && d4 == D4 && e == Bare() && d5 == D5
    ensures IsReady(settings, d3, d4, Some(e), d5) && !D5Eligible(e)
  {
    settings := Settings("internal_research", "user", POLICY_VERSION, false);
    d3, d4, e, d5 := D3, D4, Bare(), D5;
    D3Is();
    D4Is();
    D5Is();
    ObjectiveIs();
    HopIs();
    Assembled(settings, d3, OBJECTIVE, DIMENSION, d4, HOP, e, d5, MAPPING);
  }
}
