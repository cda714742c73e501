/** The versioned readiness policy tables (engine/open_kritt_engine/readiness_policies.py). */
module ReadinessPolicies {
  import opened Wrappers

  const POLICY_VERSION := "v2.7-impact-gate-1"
  const LEGACY_POLICY_VERSION := "legacy-unverified"
  const TERMINAL_OUTCOME := "terminal_outcome"

  datatype Policy = Policy(
    sources: set<string>, requiresScope: bool, requiresNovelty: bool, allowsProbabilistic: bool, readyLabel: string)

  /** A table lookup: an unknown version never falls back to the latest policy. */
  datatype Lookup<T> = Found(value: T) | UnsupportedVersion | UnknownRow

  function PolicyFor(version: string, kind: string): Lookup<Policy> {
    if version != POLICY_VERSION then UnsupportedVersion
    else if kind == "public_bounty" then Found(Policy({"bounty_rule"}, true, true, false, "submission_ready"))
    else if kind == "audit_competition" then
      Found(Policy({"audit_spec", "engagement_scope"}, true, true, false, "submission_ready"))
    else if kind == "private_audit" then
      Found(Policy({"audit_spec", "engagement_scope", "threat_model", "researcher_hypothesis"},
                   true, false, false, "report_ready"))
    else if kind == "threat_model_validation" then
      Found(Policy({"threat_model", "engagement_scope"}, false, false, false, "report_ready"))
    else if kind == "internal_research" then
      Found(Policy({"threat_model", "researcher_hypothesis", "engagement_scope"},
                   false, false, false, "report_ready"))
    else UnknownRow
  }

  /** The kinds of investigation whose findings are submitted to somebody else's programme. */
  predicate ForSubmission(version: string, kind: string) {
    version == POLICY_VERSION && (kind == "public_bounty" || kind == "audit_competition")
  }

  /** The label of a policy, or of no policy. */
  function ReadyLabel(policy: Lookup<Policy>): string {
    if policy.Found? then policy.value.readyLabel else "report_ready"
  }

  /** Novelty is asked for, and the label is that of a submission, exactly where findings are submitted. */
  lemma LabelIs(version: string, kind: string)
    ensures var policy := PolicyFor(version, kind);
            policy.Found? ==>
              && (policy.value.requiresNovelty <==> ForSubmission(version, kind))
              && (policy.value.requiresScope <==> ForSubmission(version, kind) || kind == "private_audit")
              && !policy.value.allowsProbabilistic
    ensures ForSubmission(version, kind) ==> PolicyFor(version, kind).Found?
    ensures ReadyLabel(PolicyFor(version, kind))
      == if ForSubmission(version, kind) then "submission_ready" else "report_ready"
  {
  }

  function FamilyTable(family: string): Option<seq<string>> {
    if family == "unauthorized_action" then
      Some(["initial_actor", "permission_boundary", "protected_operation", "unauthorized_result"])
    else if family == "funds_loss" then
      Some(["balance_before", "balance_after", "asset_ownership", "net_change", "recipient_control"])
    else if family == "availability_loss" then
      Some(["attacker_workload", "measurable_degradation", "duration", "affected_component", "recovery"])
    else if family == "resource_exhaustion" then
      Some(["pool_size", "attacker_cost_per_iteration", "iterations_required", "replenishment", "recovery"])
    else if family == "consensus_failure" then
      Some(["conflicting_state", "halt_or_divergence", "affected_participants", "recovery_requirements"])
    else if family == "integrity_violation" then
      Some(["trusted_value_before", "trusted_value_after", "unauthorized_mutation", "downstream_consumer"])
    else if family == "confidentiality_loss" then
      Some(["protected_data", "unauthorized_actor", "disclosure_boundary"])
    else if family == "privilege_escalation" then
      Some(["initial_role", "acquired_capability", "protected_operation"])
    else if family == "temporary_freezing" then
      Some(["affected_value", "duration", "release_conditions", "recovery_path"])
    else if family == "permanent_freezing" then
      Some(["affected_value", "irrecoverability_under_recovery_model"])
    else if family == "other" then Some([])
    else None
  }

  predicate OtherLengths(tags: Option<seq<string>>) {
    tags.Some? ==> forall i | 0 <= i < |tags.value| :: |tags.value[i]| != 16
  }

  lemma FirstTags(family: string)
    requires
      || family == "unauthorized_action" || family == "funds_loss" || family == "availability_loss"
      || family == "resource_exhaustion"
    ensures OtherLengths(FamilyTable(family))
  {
  }

  lemma MoreTags(family: string)
    requires
      || family == "consensus_failure" || family == "integrity_violation" || family == "confidentiality_loss"
    ensures OtherLengths(FamilyTable(family))
  {
  }

  lemma OtherTags(family: string)
    requires
      && family != "unauthorized_action" && family != "funds_loss" && family != "availability_loss"
      && family != "resource_exhaustion" && family != "consensus_failure" && family != "integrity_violation"
      && family != "confidentiality_loss"
    ensures OtherLengths(FamilyTable(family))
  {
  }

  lemma TagLengths(family: string)
    ensures OtherLengths(FamilyTable(family))
  {
    if family == "unauthorized_action" || family == "funds_loss" || family == "availability_loss"
       || family == "resource_exhaustion" {
      FirstTags(family);
    } else if family == "consensus_failure" || family == "integrity_violation" || family == "confidentiality_loss" {
      MoreTags(family);
    } else {
      OtherTags(family);
    }
  }

  lemma TablesLeaveOutTerminal(family: string)
    ensures FamilyTable(family).Some? ==> TERMINAL_OUTCOME !in FamilyTable(family).value
  {
    TagLengths(family);
    assert |TERMINAL_OUTCOME| == 16;
  }

  /** A family's own dimensions and then the terminal outcome; a version or family that is not listed is refused. */
  function FamilyDimensions(version: string, family: string): (r: Lookup<seq<string>>)
    ensures r.UnsupportedVersion? <==> version != POLICY_VERSION
    ensures r.UnknownRow? <==> version == POLICY_VERSION && FamilyTable(family).None?
    ensures r.Found? ==>
      && |r.value| > 0 && r.value[|r.value| - 1] == TERMINAL_OUTCOME
      && TERMINAL_OUTCOME !in r.value[..|r.value| - 1]
      && Some(r.value[..|r.value| - 1]) == FamilyTable(family)
  {
    TablesLeaveOutTerminal(family);
    if version != POLICY_VERSION then UnsupportedVersion
    else if FamilyTable(family).None? then UnknownRow
    else
      var defaults := FamilyTable(family).value;
      Found(if TERMINAL_OUTCOME in defaults then defaults else defaults + [TERMINAL_OUTCOME])
  }
}
