/** Where a finding stands between hypothesis and report (impact_gate.py, `lifecycle_status`). */
module Lifecycles {
  import opened Wrappers
  import opened JsonValues
  import opened Text
  import opened ImpactEvidence

  datatype Lifecycle =
    | Hypothesis | FalsePositive | NotAdvanced | CodeConfirmed
    | BugNotReproduced | BugFalsified | BugBlocked | BugProvenImpactUnproven
    | ImpactPartial | ImpactFalsified | ImpactBlockedByConfiguration | ImpactBlockedByDeploymentFact | ImpactBlocked
    | ImpactProven | ReportReady | LegacyImpactUnverified

  function OfImpact(e: Evidence): Lifecycle {
    if e.impactStatus == Some(Str("proven")) then ImpactProven
    else if e.impactStatus == Some(Str("partial")) then ImpactPartial
    else if e.impactStatus == Some(Str("falsified")) then ImpactFalsified
    else if e.impactStatus == Some(Str("blocked")) then
      if e.blockerKind == Str("missing_configuration") then ImpactBlockedByConfiguration
      else if e.blockerKind == Str("deployment_fact") then ImpactBlockedByDeploymentFact
      else ImpactBlocked
    else if e.impactStatus == Some(Str("unverified")) && e.legacy == Bool(true) then LegacyImpactUnverified
    else BugProvenImpactUnproven
  }

  function OfEvidence(e: Evidence): Lifecycle {
    if e.bugStatus != Some(Str("reproduced")) then
      if e.bugStatus == Some(Str("not_reproduced")) then BugNotReproduced
      else if e.bugStatus == Some(Str("falsified")) then BugFalsified
      else BugBlocked
    else OfImpact(e)
  }

  function OfVerdict(d3: Dict): Lifecycle {
    if IsOneOf(d3, "verdict", D3_PASS_VERDICTS) then CodeConfirmed
    else if Is(d3, "verdict", "false_positive") then FalsePositive
    else NotAdvanced
  }

  /** `lifecycle_status`: readiness first, then the evidence, then the D3 verdict. */
  function LifecycleStatus(d3: Option<Dict>, evidence: Option<Evidence>, ready: bool): Lifecycle {
    if ready then ReportReady
    else if evidence.Some? then OfEvidence(evidence.value)
    else if d3.None? then Hypothesis
    else OfVerdict(d3.value)
  }

  // ---- When a finding stands where ----

  predicate HasBug(e: Evidence, name: string) {
    e.bugStatus == Some(Str(name))
  }

  /** The evidence of a reproduced bug has an impact status. */
  predicate HasImpact(e: Evidence, name: string) {
    e.bugStatus == Some(Str("reproduced")) && e.impactStatus == Some(Str(name))
  }

  predicate Judged(d3: Dict, verdict: string) {
    "verdict" in d3 && d3["verdict"] == Str(verdict)
  }

  predicate ByVerdict(d3: Dict, l: Lifecycle) {
    match l
    case CodeConfirmed => Judged(d3, "confirmed") || Judged(d3, "plausible_needs_poc")
    case FalsePositive => Judged(d3, "false_positive")
    case NotAdvanced =>
      !Judged(d3, "confirmed") && !Judged(d3, "plausible_needs_poc") && !Judged(d3, "false_positive")
    case _ => false
  }

  /** Evidence puts a finding at exactly one place, each described on its own. */
  predicate ByEvidence(e: Evidence, l: Lifecycle) {
    match l
    case BugNotReproduced => HasBug(e, "not_reproduced")
    case BugFalsified => HasBug(e, "falsified")
    case BugBlocked => !HasBug(e, "reproduced") && !HasBug(e, "not_reproduced") && !HasBug(e, "falsified")
    case ImpactProven => HasImpact(e, "proven")
    case ImpactPartial => HasImpact(e, "partial")
    case ImpactFalsified => HasImpact(e, "falsified")
    case ImpactBlockedByConfiguration => HasImpact(e, "blocked") && e.blockerKind == Str("missing_configuration")
    case ImpactBlockedByDeploymentFact => HasImpact(e, "blocked") && e.blockerKind == Str("deployment_fact")
    case ImpactBlocked =>
      && HasImpact(e, "blocked")
      && e.blockerKind != Str("missing_configuration") && e.blockerKind != Str("deployment_fact")
    case LegacyImpactUnverified => HasImpact(e, "unverified") && e.legacy == Bool(true)
    case BugProvenImpactUnproven =>
      && HasBug(e, "reproduced") && !HasImpact(e, "proven") && !HasImpact(e, "partial")
      && !HasImpact(e, "falsified") && !HasImpact(e, "blocked")
      && !(HasImpact(e, "unverified") && e.legacy == Bool(true))
    case _ => false
  }

  lemma ByImpactIs(e: Evidence, l: Lifecycle)
    requires HasBug(e, "reproduced")
    ensures OfImpact(e) == l <==> ByEvidence(e, l)
  {
  }

  lemma ByEvidenceIs(e: Evidence, l: Lifecycle)
    ensures OfEvidence(e) == l <==> ByEvidence(e, l)
  {
    if HasBug(e, "reproduced") {
      ByImpactIs(e, l);
    }
  }

  lemma ByVerdictIs(d3: Dict, l: Lifecycle)
    ensures OfVerdict(d3) == l <==> ByVerdict(d3, l)
  {
  }

  /** When a finding stands at each of the sixteen places. */
  lemma LifecycleIs(d3: Option<Dict>, evidence: Option<Evidence>, ready: bool, l: Lifecycle)
    ensures LifecycleStatus(d3, evidence, ready) == l <==>
      || (ready && l == ReportReady)
      || (!ready && evidence.Some? && ByEvidence(evidence.value, l))
      || (!ready && evidence.None? && d3.Some? && ByVerdict(d3.value, l))
      || (!ready && evidence.None? && d3.None? && l == Hypothesis)
  {
    if evidence.Some? {
      ByEvidenceIs(evidence.value, l);
    } else if d3.Some? {
      ByVerdictIs(d3.value, l);
    }
  }

  lemma ReportReadyIffReady(d3: Option<Dict>, evidence: Option<Evidence>, ready: bool)
    ensures LifecycleStatus(d3, evidence, ready) == ReportReady <==> ready
  {
  }

  /** Where an engine block puts a finding, from the fields of the D4 result. */
  predicate ByResult(d4: Dict, captured: bool, legacy: bool, l: Lifecycle) {
    match l
    case BugNotReproduced => BugIs(d4, "not_reproduced")
    case BugFalsified => BugIs(d4, "falsified")
    case BugBlocked => BugIs(d4, "blocked")
    case ImpactProven => BugIs(d4, "reproduced") && captured && Claims(d4, "proven")
    case ImpactPartial => BugIs(d4, "reproduced") && captured && Claims(d4, "partial")
    case ImpactFalsified => BugIs(d4, "reproduced") && Claims(d4, "falsified")
    case LegacyImpactUnverified => BugIs(d4, "reproduced") && Claims(d4, "unverified") && legacy
    case BugProvenImpactUnproven =>
      BugIs(d4, "reproduced") && ((captured && Claims(d4, "not_proven")) || (Claims(d4, "unverified") && !legacy))
    case _ => false
  }

  predicate Blocked(l: Lifecycle) {
    l.ImpactBlocked? || l.ImpactBlockedByConfiguration? || l.ImpactBlockedByDeploymentFact?
  }

  /** A block states a bug status for which the D4 result is the ground, and a claim it makes or has lost. */
  lemma BlockWords(d4: Dict, captured: bool, e: Evidence)
    requires e.bugStatus == Some(Str(BugStatus(d4))) && e.impactStatus == Some(Str(ImpactStatus(d4, captured)))
    ensures HasBug(e, "reproduced") <==> BugIs(d4, "reproduced")
    ensures HasBug(e, "not_reproduced") <==> BugIs(d4, "not_reproduced")
    ensures HasBug(e, "falsified") <==> BugIs(d4, "falsified")
    ensures BugIs(d4, "blocked") <==>
      !HasBug(e, "reproduced") && !HasBug(e, "not_reproduced") && !HasBug(e, "falsified")
  {
    BugStatusIs(d4, "reproduced");
    BugStatusIs(d4, "not_reproduced");
    BugStatusIs(d4, "falsified");
    BugStatusIs(d4, "blocked");
  }

  lemma BlockClaims(d4: Dict, captured: bool, e: Evidence)
    requires e.bugStatus == Some(Str(BugStatus(d4))) && e.impactStatus == Some(Str(ImpactStatus(d4, captured)))
    requires BugIs(d4, "reproduced")
    ensures HasImpact(e, "proven") <==> captured && Claims(d4, "proven")
    ensures HasImpact(e, "partial") <==> captured && Claims(d4, "partial")
    ensures HasImpact(e, "not_proven") <==> captured && Claims(d4, "not_proven")
    ensures HasImpact(e, "falsified") <==> Claims(d4, "falsified")
    ensures HasImpact(e, "unverified") <==> Claims(d4, "unverified")
    ensures HasImpact(e, "blocked") <==> Claims(d4, "blocked") || TakenBack(d4, captured)
  {
    BugStatusIs(d4, "reproduced");
    ImpactStatusIs(d4, captured, "proven");
    ImpactStatusIs(d4, captured, "partial");
    ImpactStatusIs(d4, captured, "not_proven");
    ImpactStatusIs(d4, captured, "falsified");
    ImpactStatusIs(d4, captured, "unverified");
    ImpactStatusIs(d4, captured, "blocked");
  }

  lemma OneOfSix(d4: Dict, captured: bool, e: Evidence)
    requires e.impactStatus == Some(Str(ImpactStatus(d4, captured))) && e.bugStatus == Some(Str("reproduced"))
    ensures
      || HasImpact(e, "proven") || HasImpact(e, "partial") || HasImpact(e, "not_proven")
      || HasImpact(e, "blocked") || HasImpact(e, "falsified") || HasImpact(e, "unverified")
  {
  }

  lemma BlockIsBlocked(d4: Dict, captured: bool, e: Evidence)
    requires e.bugStatus == Some(Str(BugStatus(d4))) && e.impactStatus == Some(Str(ImpactStatus(d4, captured)))
    ensures Blocked(OfEvidence(e)) <==>
      BugIs(d4, "reproduced") && (Claims(d4, "blocked") || TakenBack(d4, captured))
  {
    ByEvidenceIs(e, OfEvidence(e));
    BlockWords(d4, captured, e);
    if BugIs(d4, "reproduced") {
      BlockClaims(d4, captured, e);
      assert Blocked(OfEvidence(e)) <==> HasImpact(e, "blocked");
    }
  }

  lemma BlockStands(d4: Dict, captured: bool, legacy: bool, e: Evidence, l: Lifecycle)
    requires e.bugStatus == Some(Str(BugStatus(d4))) && e.impactStatus == Some(Str(ImpactStatus(d4, captured)))
    requires e.legacy == Bool(legacy)
    ensures !Blocked(l) ==> (ByEvidence(e, l) <==> ByResult(d4, captured, legacy, l))
  {
    BlockWords(d4, captured, e);
    if BugIs(d4, "reproduced") {
      BlockClaims(d4, captured, e);
      OneOfSix(d4, captured, e);
    }
  }

  /** The lifecycle the engine writes into a block, from the fields of the D4 result alone. */
  lemma BlockLifecycle(
    d4: Dict, manifest: set<string>, captureComplete: bool, artifactDir: string, legacy: bool, l: Lifecycle)
    ensures var e := EvidenceOf(d4, manifest, captureComplete, artifactDir, legacy);
            var stands := LifecycleStatus(None, Some(e), false);
            var captured := captureComplete && !Blank(artifactDir);
            && (!Blocked(l) ==> (stands == l <==> ByResult(d4, captured, legacy, l)))
            && (Blocked(stands) <==> BugIs(d4, "reproduced") && (Claims(d4, "blocked") || TakenBack(d4, captured)))
  {
    var e := EvidenceOf(d4, manifest, captureComplete, artifactDir, legacy);
    var captured := captureComplete && !Blank(artifactDir);
    StripEmptyIff(artifactDir);
    BlockStands(d4, captured, legacy, e, l);
    ByEvidenceIs(e, l);
    BlockIsBlocked(d4, captured, e);
  }
}
