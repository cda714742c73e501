/**
 The readiness gate: from the evidence and the D3, D4 and D5 results of a finding to a verdict with
 its reasons (engine/open_kritt_engine/impact_gate.py).
 */
module ImpactGate {
  import opened Wrappers
  import opened JsonValues
  import opened Text
  import opened EvidencePaths
  import opened ReadinessPolicies
  import opened ImpactEvidence
  import L = Lifecycles
  import Sorting

  const HOP_STATUSES: set<string> := {"proven", "falsified", "partial", "unverified", "blocked", "not_applicable"}
  const HOP_ASSESSMENT_REQUIRED: set<string> := {"not_applicable", "falsified", "partial", "blocked"}

  // ---- The rules of readiness ----

  /** Why a readiness check fails. */
  datatype Reason =
    | UnsupportedPolicy | UnknownKind | LegacyKind
    | VerdictNotPassing | ImpactUndefined | NoClaim | NoTerminalOutcome | NoRequiredEvidence | SourceNotAllowed
    | BugNotReproduced | ImpactNotProven | NoObservedOutcome | NegativeControlNotPassed | NotRepeatable
    | PlanIdsNotUnique | ChainIdsNotUnique | PlanHopMissing(id: string) | HopWithoutId
    | HopStatusUnknown(id: string, status: Json) | HopNotProven(id: string, status: Json)
    | HopWithoutAssessment(id: string, status: Json) | HopWithoutEvidence(id: string)
    | NoChain | MissingLinks | AssumptionOpen(id: string)
    | CaptureIncomplete | PathNotRelative(path: string) | PathNotCaptured(path: string)
    | DimensionsUnverifiable | UnknownFamily | DimensionNotInFamily(tag: string)
    | DimensionNotCovered(tag: string) | TerminalExcused | NoRationale(tag: string)
    | DimensionStatusUnknown(tag: string, status: Json) | DimensionUnresolved(tag: string)
    | MatchNotExact | EvidenceNotVerified | NoMapping | MappingNotProven(entry: nat) | ReferenceMismatch
    | RequirementsMalformed | RequirementsMissing
    | ScopeNotVerified | NoveltyNotVerified

  type Reasons = seq<Reason>

  /** The source's `UnsupportedPolicyVersion`. */
  datatype Unsupported = Unsupported(version: string)

  function When(failed: bool, reason: Reason): (reasons: Reasons)
    ensures reasons == [] <==> !failed
  {
    if failed then [reason] else []
  }

  lemma TwoWhens(a: bool, x: Reason, b: bool, y: Reason, r: Reason)
    ensures r in When(a, x) + When(b, y) <==> (a && r == x) || (b && r == y)
  {
  }

  lemma ThreeWhens(a: bool, x: Reason, b: bool, y: Reason, c: bool, z: Reason, r: Reason)
    ensures r in When(a, x) + When(b, y) + When(c, z) <==> (a && r == x) || (b && r == y) || (c && r == z)
  {
  }

  lemma TwoMore(xs: Reasons, a: bool, x: Reason, b: bool, y: Reason, r: Reason)
    ensures r in xs + When(a, x) + When(b, y) <==> r in xs || (a && r == x) || (b && r == y)
  {
  }

  lemma ThreeMore(xs: Reasons, a: bool, x: Reason, b: bool, y: Reason, c: bool, z: Reason, r: Reason)
    ensures r in xs + When(a, x) + When(b, y) + When(c, z) <==>
      r in xs || (a && r == x) || (b && r == y) || (c && r == z)
  {
  }

  /** The reasons of every row, appended in order. */
  function Each<T>(rows: seq<T>, f: T -> Reasons): Reasons {
    if rows == [] then [] else Each(rows[..|rows| - 1], f) + f(rows[|rows| - 1])
  }

  lemma EachAdd<T>(rows: seq<T>, x: T, f: T -> Reasons)
    ensures Each(rows + [x], f) == Each(rows, f) + f(x)
  {
    assert (rows + [x])[..|rows|] == rows;
  }

  lemma {:induction false} EachMember<T>(rows: seq<T>, f: T -> Reasons, r: Reason)
    ensures r in Each(rows, f) <==> exists x :: x in rows && r in f(x)
  {
    if rows != [] {
      var before, last := rows[..|rows| - 1], rows[|rows| - 1];
      EachMember(before, f, r);
      assert rows == before + [last];
    }
  }

  lemma {:induction false} EachEmpty<T>(rows: seq<T>, f: T -> Reasons)
    ensures Each(rows, f) == [] <==> forall x | x in rows :: f(x) == []
  {
    if rows != [] {
      var before, last := rows[..|rows| - 1], rows[|rows| - 1];
      EachEmpty(before, f);
      assert rows == before + [last];
    }
  }

  /** Each reason once, where it is first given. */
  function Unique(reasons: Reasons): Reasons {
    if reasons == [] then []
    else
      var before, last := Unique(reasons[..|reasons| - 1]), reasons[|reasons| - 1];
      before + (if last in before then [] else [last])
  }

  predicate IsUnique(reasons: Reasons) {
    forall i, j | 0 <= i < j < |reasons| :: reasons[i] != reasons[j]
  }

  /** The first occurrences in order: no repetition, nothing lost, and a longer list only adds at the end. */
  lemma {:induction false} UniqueIs(reasons: Reasons, n: nat)
    requires n <= |reasons|
    ensures forall r :: r in Unique(reasons) <==> r in reasons
    ensures IsUnique(Unique(reasons))
    ensures Unique(reasons[..n]) <= Unique(reasons)
  {
    if reasons != [] {
      var before := reasons[..|reasons| - 1];
      UniqueIs(before, if n < |reasons| then n else n - 1);
      assert reasons == before + [reasons[|reasons| - 1]];
      if n < |reasons| {
        assert before[..n] == reasons[..n];
      } else {
        assert reasons[..n] == reasons;
      }
    }
  }

  lemma UniqueStep(reasons: Reasons, r: Reason)
    ensures Unique(reasons + [r]) == Unique(reasons) + if r in Unique(reasons) then [] else [r]
  {
    assert (reasons + [r])[..|reasons|] == reasons;
  }

  method Collect<T>(rows: seq<T>, f: T -> Reasons) returns (reasons: Reasons)
    ensures reasons == Each(rows, f)
  {
    reasons := [];
    for i := 0 to |rows|
      invariant reasons == Each(rows[..i], f)
    {
      EachAdd(rows[..i], rows[i], f);
      assert rows[..i + 1] == rows[..i] + [rows[i]];
      reasons := reasons + f(rows[i]);
    }
    assert rows[..|rows|] == rows;
  }

  lemma OneMore(before: Reasons, more: Reasons, k: nat)
    requires k < |more|
    ensures before + more[..k + 1] == before + more[..k] + [more[k]]
  {
  }

  /** The given reasons and what is new in some more. */
  method AddNew(given: Reasons, more: Reasons, ghost before: Reasons) returns (reasons: Reasons)
    requires given == Unique(before)
    ensures reasons == Unique(before + more)
  {
    reasons := given;
    assert before + more[..0] == before && more[..|more|] == more;
    for k := 0 to |more|
      invariant reasons == Unique(before + more[..k])
    {
      UniqueStep(before + more[..k], more[k]);
      OneMore(before, more, k);
      if more[k] !in reasons {
        reasons := reasons + [more[k]];
      }
    }
  }

  /** The reasons of every row, a repeated reason kept once. */
  method Gather<T>(rows: seq<T>, f: T -> Reasons) returns (reasons: Reasons)
    ensures reasons == Unique(Each(rows, f))
  {
    reasons := [];
    for i := 0 to |rows|
      invariant reasons == Unique(Each(rows[..i], f))
    {
      EachAdd(rows[..i], rows[i], f);
      assert rows[..i + 1] == rows[..i] + [rows[i]];
      reasons := AddNew(reasons, f(rows[i]), Each(rows[..i], f));
    }
    assert rows[..|rows|] == rows;
  }

  lemma UniqueEmpty(reasons: Reasons)
    ensures Unique(reasons) == [] <==> reasons == []
  {
    UniqueIs(reasons, 0);
    assert reasons != [] ==> reasons[0] in Unique(reasons);
  }

  // ---- Rule 5: the chain ----

  function HopId(row: Dict): string {
    TextOf(Get(row, "id"))
  }

  function HopIds(rows: seq<Dict>): set<string> {
    Sorting.TagSet(rows, HopId)
  }

  predicate HasEvidence(row: Dict) {
    exists p :: p in PathsOf(row) && !Blank(p)
  }

  predicate Proven(row: Dict) {
    Is(row, "status", "proven")
  }

  /** A hop with an id that is proven with evidence, or excused with an assessment. */
  predicate HopOk(row: Dict) {
    && HopId(row) != ""
    && ((Proven(row) && HasEvidence(row)) || (Is(row, "status", "not_applicable") && HasText(row, "assessment")))
  }

  predicate HopsOk(chain: seq<Dict>) {
    forall row | row in chain :: HopOk(row)
  }

  predicate Planned(plan: seq<Dict>, chainIds: set<string>) {
    forall row | row in plan :: HopId(row) == "" || HopId(row) in chainIds
  }

  ghost predicate ChainOk(plan: seq<Dict>, chain: seq<Dict>) {
    && Sorting.Distinct(plan, HopId) && Sorting.Distinct(chain, HopId)
    && Planned(plan, HopIds(chain))
    && HopsOk(chain)
  }

  /** What is wrong with a hop, reason by reason. */
  predicate HopFault(row: Dict, r: Reason) {
    if HopId(row) == "" then r == HopWithoutId
    else if !IsOneOf(row, "status", HOP_STATUSES) then r == HopStatusUnknown(HopId(row), Get(row, "status"))
    else StatusFault(row, HopId(row), Get(row, "status"), r)
  }

  predicate StatusFault(row: Dict, id: string, status: Json, r: Reason) {
    || (r == HopNotProven(id, status) && !Proven(row) && !Is(row, "status", "not_applicable"))
    || (r == HopWithoutAssessment(id, status) && IsOneOf(row, "status", HOP_ASSESSMENT_REQUIRED)
        && !HasText(row, "assessment"))
    || (r == HopWithoutEvidence(id) && Proven(row) && !HasEvidence(row))
  }

  function StatusReasons(row: Dict, id: string, status: Json): Reasons {
    When(!Proven(row) && !Is(row, "status", "not_applicable"), HopNotProven(id, status))
    + When(IsOneOf(row, "status", HOP_ASSESSMENT_REQUIRED) && !HasText(row, "assessment"),
           HopWithoutAssessment(id, status))
    + When(Proven(row) && !HasEvidence(row), HopWithoutEvidence(id))
  }

  lemma StatusReasonsAre(row: Dict, id: string, status: Json, r: Reason)
    ensures r in StatusReasons(row, id, status) <==> StatusFault(row, id, status, r)
  {
    ThreeWhens(
      !Proven(row) && !Is(row, "status", "not_applicable"), HopNotProven(id, status),
      IsOneOf(row, "status", HOP_ASSESSMENT_REQUIRED) && !HasText(row, "assessment"), HopWithoutAssessment(id, status),
      Proven(row) && !HasEvidence(row), HopWithoutEvidence(id), r);
  }

  function HopReasons(row: Dict): Reasons {
    if HopId(row) == "" then [HopWithoutId]
    else if !IsOneOf(row, "status", HOP_STATUSES) then [HopStatusUnknown(HopId(row), Get(row, "status"))]
    else StatusReasons(row, HopId(row), Get(row, "status"))
  }

  lemma HopWords(row: Dict)
    ensures Proven(row) ==>
      && IsOneOf(row, "status", HOP_STATUSES) && !Is(row, "status", "not_applicable")
      && !IsOneOf(row, "status", HOP_ASSESSMENT_REQUIRED)
    ensures Is(row, "status", "not_applicable") ==>
      IsOneOf(row, "status", HOP_STATUSES) && IsOneOf(row, "status", HOP_ASSESSMENT_REQUIRED)
  {
  }

  lemma HopReasonsEmpty(row: Dict)
    ensures HopReasons(row) == [] <==> HopOk(row)
  {
    HopWords(row);
  }

  lemma HopReasonsAre(row: Dict, r: Reason)
    ensures r in HopReasons(row) <==> HopFault(row, r)
  {
    StatusReasonsAre(row, HopId(row), Get(row, "status"), r);
  }

  function PlanReasons(chainIds: set<string>): Dict -> Reasons {
    row => When(HopId(row) != "" && HopId(row) !in chainIds, PlanHopMissing(HopId(row)))
  }

  lemma PlanIs(plan: seq<Dict>, chainIds: set<string>)
    ensures Each(plan, PlanReasons(chainIds)) == [] <==> Planned(plan, chainIds)
  {
    EachEmpty(plan, PlanReasons(chainIds));
  }

  lemma HopsAre(chain: seq<Dict>)
    ensures Each(chain, HopReasons) == [] <==> HopsOk(chain)
  {
    EachEmpty(chain, HopReasons);
    forall row ensures HopReasons(row) == [] <==> HopOk(row) {
      HopReasonsEmpty(row);
    }
  }

  lemma HopFaults(chain: seq<Dict>, r: Reason)
    ensures r in Each(chain, HopReasons) <==> exists row :: row in chain && HopFault(row, r)
  {
    EachMember(chain, HopReasons, r);
    forall row ensures r in HopReasons(row) <==> HopFault(row, r) {
      HopReasonsAre(row, r);
    }
  }

  predicate IsMissing(plan: seq<Dict>, chainIds: set<string>, r: Reason) {
    r.PlanHopMissing? && r.id != "" && r.id !in chainIds && exists row :: row in plan && HopId(row) == r.id
  }

  lemma PlanFaults(plan: seq<Dict>, chainIds: set<string>, r: Reason)
    ensures r in Each(plan, PlanReasons(chainIds)) <==> IsMissing(plan, chainIds, r)
  {
    EachMember(plan, PlanReasons(chainIds), r);
    if IsMissing(plan, chainIds, r) {
      var row :| row in plan && HopId(row) == r.id;
      assert r in PlanReasons(chainIds)(row);
    }
  }

  /** What is wrong with a chain, reason by reason. */
  ghost predicate ChainFault(plan: seq<Dict>, chain: seq<Dict>, r: Reason) {
    || (r == PlanIdsNotUnique && !Sorting.Distinct(plan, HopId))
    || (r == ChainIdsNotUnique && !Sorting.Distinct(chain, HopId))
    || IsMissing(plan, HopIds(chain), r)
    || exists row :: row in chain && HopFault(row, r)
  }

  lemma ChainFaults(plan: seq<Dict>, chain: seq<Dict>, missing: Reasons, hops: Reasons, r: Reason)
    requires missing == Each(plan, PlanReasons(HopIds(chain))) && hops == Each(chain, HopReasons)
    ensures ChainFault(plan, chain, r) <==>
      r in When(|HopIds(plan)| != |plan|, PlanIdsNotUnique) + When(|HopIds(chain)| != |chain|, ChainIdsNotUnique)
           + missing + hops
  {
    Sorting.TagCount(plan, HopId);
    Sorting.TagCount(chain, HopId);
    HopFaults(chain, r);
    PlanFaults(plan, HopIds(chain), r);
    TwoWhens(|HopIds(plan)| != |plan|, PlanIdsNotUnique, |HopIds(chain)| != |chain|, ChainIdsNotUnique, r);
  }

  method ChainReasons(plan: seq<Dict>, chain: seq<Dict>) returns (reasons: Reasons)
    ensures reasons == [] <==> ChainOk(plan, chain)
    ensures forall r :: r in reasons <==> ChainFault(plan, chain, r)
  {
    var chainIds := HopIds(chain);
    Sorting.TagCount(plan, HopId);
    Sorting.TagCount(chain, HopId);
    PlanIs(plan, chainIds);
    var missing := Collect(plan, PlanReasons(chainIds));
    HopsAre(chain);
    var hops := Collect(chain, HopReasons);
    reasons := When(|HopIds(plan)| != |plan|, PlanIdsNotUnique) + When(|chainIds| != |chain|, ChainIdsNotUnique)
               + missing + hops;
    forall r ensures r in reasons <==> ChainFault(plan, chain, r) {
      ChainFaults(plan, chain, missing, hops, r);
    }
  }

  // ---- Rule 6: provenance ----

  predicate ProvenanceOk(paths: seq<string>, captured: set<string>) {
    forall p | p in paths :: Captures(Normalized(captured), p)
  }

  function PathReason(raw: string, names: set<string>): (r: Reasons)
    ensures r == [] <==> Captures(names, raw)
  {
    if NormalizePath(raw).None? then [PathNotRelative(raw)]
    else if NormalizePath(raw).value !in names then [PathNotCaptured(NormalizePath(raw).value)]
    else []
  }

  function PathReasons(names: set<string>): string -> Reasons {
    raw => PathReason(raw, names)
  }

  lemma PathsAre(paths: seq<string>, captured: set<string>)
    ensures Each(paths, PathReasons(Normalized(captured))) == [] <==> ProvenanceOk(paths, captured)
  {
    EachEmpty(paths, PathReasons(Normalized(captured)));
  }

  /** What is wrong with the cited paths, reason by reason. */
  predicate PathFault(paths: seq<string>, names: set<string>, r: Reason) {
    exists raw :: raw in paths && IsPathFault(raw, names, r)
  }

  predicate IsPathFault(raw: string, names: set<string>, r: Reason) {
    || (r == PathNotRelative(raw) && NormalizePath(raw).None?)
    || (r.PathNotCaptured? && NormalizePath(raw) == Some(r.path) && r.path !in names)
  }

  lemma PathReasonIs(raw: string, names: set<string>, r: Reason)
    ensures r in PathReason(raw, names) <==> IsPathFault(raw, names, r)
  {
  }

  lemma PathFaults(paths: seq<string>, names: set<string>, r: Reason)
    ensures r in Each(paths, PathReasons(names)) <==> PathFault(paths, names, r)
  {
    EachMember(paths, PathReasons(names), r);
    forall raw ensures r in PathReasons(names)(raw) <==> IsPathFault(raw, names, r) {
      PathReasonIs(raw, names, r);
    }
  }

  method ProvenanceReasons(paths: seq<string>, captured: set<string>) returns (reasons: Reasons)
    ensures reasons == [] <==> ProvenanceOk(paths, captured)
    ensures IsUnique(reasons) && forall r :: r in reasons <==> PathFault(paths, Normalized(captured), r)
  {
    var names := Normalized(captured);
    reasons := Gather(paths, PathReasons(names));
    PathsAre(paths, captured);
    UniqueEmpty(Each(paths, PathReasons(names)));
    UniqueIs(Each(paths, PathReasons(names)), 0);
    forall r ensures r in reasons <==> PathFault(paths, names, r) {
      PathFaults(paths, names, r);
    }
  }

  // ---- Rule 7: dimensions ----

  predicate Covers(row: Dict, tag: string) {
    Proven(row) && tag in Strings(Get(row, "covers"))
  }

  predicate Covered(chain: seq<Dict>, tag: string) {
    exists row :: row in chain && Covers(row, tag)
  }

  function TagOf(row: Dict): string {
    TextOf(Get(row, "tag"))
  }

  predicate DimensionOk(row: Dict, allowed: seq<string>, chain: seq<Dict>) {
    var tag := TagOf(row);
    && tag in allowed
    && if Is(row, "status", "required") then Covered(chain, tag)
       else Is(row, "status", "not_applicable") && tag != TERMINAL_OUTCOME && HasText(row, "rationale")
  }

  predicate RowsOk(rows: seq<Dict>, allowed: seq<string>, chain: seq<Dict>) {
    forall row | row in rows :: DimensionOk(row, allowed, chain)
  }

  predicate AllResolved(rows: seq<Dict>, allowed: seq<string>) {
    forall tag | tag in allowed :: exists row :: row in rows && TagOf(row) == tag
  }

  predicate DimensionsOk(rows: seq<Dict>, allowed: seq<string>, chain: seq<Dict>) {
    RowsOk(rows, allowed, chain) && AllResolved(rows, allowed)
  }

  /** The dimensions a family resolves, each proven or excused. */
  predicate FamilyOk(rows: seq<Dict>, family: string, chain: seq<Dict>, version: string) {
    var table := FamilyDimensions(version, family);
    table.Found? && DimensionsOk(rows, table.value, chain)
  }

  /** What is wrong with a dimension row, reason by reason. */
  predicate DimensionFault(row: Dict, allowed: seq<string>, chain: seq<Dict>, r: Reason) {
    var tag, required, excused := TagOf(row), Is(row, "status", "required"), Is(row, "status", "not_applicable");
    if tag !in allowed then r == DimensionNotInFamily(tag)
    else
      || (required && r == DimensionNotCovered(tag) && !Covered(chain, tag))
      || (excused && r == TerminalExcused && tag == TERMINAL_OUTCOME)
      || (excused && r == NoRationale(tag) && !HasText(row, "rationale"))
      || (!required && !excused && r == DimensionStatusUnknown(tag, Get(row, "status")))
  }

  function DimensionReason(row: Dict, allowed: seq<string>, chain: seq<Dict>): (r: Reasons)
    ensures r == [] <==> DimensionOk(row, allowed, chain)
  {
    var tag := TagOf(row);
    if tag !in allowed then [DimensionNotInFamily(tag)]
    else if Is(row, "status", "required") then When(!Covered(chain, tag), DimensionNotCovered(tag))
    else if Is(row, "status", "not_applicable") then
      When(tag == TERMINAL_OUTCOME, TerminalExcused) + When(!HasText(row, "rationale"), NoRationale(tag))
    else [DimensionStatusUnknown(tag, Get(row, "status"))]
  }

  lemma RequiredIsNotExcused(row: Dict)
    ensures !(Is(row, "status", "required") && Is(row, "status", "not_applicable"))
  {
    assert "required"[0] != "not_applicable"[0];
  }

  lemma DimensionReasonIs(row: Dict, allowed: seq<string>, chain: seq<Dict>, r: Reason)
    ensures r in DimensionReason(row, allowed, chain) <==> DimensionFault(row, allowed, chain, r)
  {
    var tag := TagOf(row);
    RequiredIsNotExcused(row);
    TwoWhens(tag == TERMINAL_OUTCOME, TerminalExcused, !HasText(row, "rationale"), NoRationale(tag), r);
  }

  function RowReasons(allowed: seq<string>, chain: seq<Dict>): Dict -> Reasons {
    row => DimensionReason(row, allowed, chain)
  }

  lemma RowsAre(rows: seq<Dict>, allowed: seq<string>, chain: seq<Dict>)
    ensures Each(rows, RowReasons(allowed, chain)) == [] <==> RowsOk(rows, allowed, chain)
  {
    EachEmpty(rows, RowReasons(allowed, chain));
  }

  lemma DimensionFaults(rows: seq<Dict>, allowed: seq<string>, chain: seq<Dict>, r: Reason)
    ensures r in Each(rows, RowReasons(allowed, chain)) <==>
      exists row :: row in rows && DimensionFault(row, allowed, chain, r)
  {
    EachMember(rows, RowReasons(allowed, chain), r);
    forall row ensures r in RowReasons(allowed, chain)(row) <==> DimensionFault(row, allowed, chain, r) {
      DimensionReasonIs(row, allowed, chain, r);
    }
  }

  /** What is wrong with a family's dimensions, reason by reason, under a supported version. */
  predicate FamilyFault(rows: seq<Dict>, family: string, chain: seq<Dict>, version: string, r: Reason) {
    var table := FamilyDimensions(version, family);
    if !table.Found? then r == UnknownFamily
    else
      || (exists row :: row in rows && DimensionFault(row, table.value, chain, r))
      || (r.DimensionUnresolved? && r.tag in table.value && r.tag !in ResolvedTags(rows, table.value))
  }

  /** An unsupported version is an error of its own, and never a reason. */
  method DimensionReasons(rows: seq<Dict>, family: string, chain: seq<Dict>, version: string)
    returns (result: Result<Reasons, Unsupported>)
    ensures result.Err? <==> version != POLICY_VERSION
    ensures result.Err? ==> result.error == Unsupported(version)
    ensures result.Ok? ==> (result.value == [] <==> FamilyOk(rows, family, chain, version))
    ensures result.Ok? ==> forall r :: r in result.value <==> FamilyFault(rows, family, chain, version, r)
  {
    var table := FamilyDimensions(version, family);
    if table.UnsupportedVersion? {
      return Err(Unsupported(version));
    }
    if table.UnknownRow? {
      return Ok([UnknownFamily]);
    }
    var reasons := TableReasons(rows, table.value, chain);
    result := Ok(reasons);
  }

  method TableReasons(rows: seq<Dict>, allowed: seq<string>, chain: seq<Dict>) returns (reasons: Reasons)
    ensures reasons == [] <==> DimensionsOk(rows, allowed, chain)
    ensures forall r :: r in reasons <==>
      || (exists row :: row in rows && DimensionFault(row, allowed, chain, r))
      || (r.DimensionUnresolved? && r.tag in allowed && r.tag !in ResolvedTags(rows, allowed))
  {
    RowsAre(rows, allowed, chain);
    var rowReasons := Collect(rows, RowReasons(allowed, chain));
    var unresolved := UnresolvedTags(allowed, ResolvedTags(rows, allowed));
    assert unresolved == [] <==> AllResolved(rows, allowed);
    reasons := rowReasons + unresolved;
    forall r ensures r in rowReasons <==> exists row :: row in rows && DimensionFault(row, allowed, chain, r) {
      DimensionFaults(rows, allowed, chain, r);
    }
  }

  function ResolvedTags(rows: seq<Dict>, allowed: seq<string>): (r: set<string>)
    ensures forall tag :: tag in r <==> tag in allowed && exists row :: row in rows && TagOf(row) == tag
  {
    if rows == [] then {}
    else
      assert rows == [rows[0]] + rows[1..];
      ResolvedTags(rows[1..], allowed) + (if TagOf(rows[0]) in allowed then {TagOf(rows[0])} else {})
  }

  method UnresolvedTags(allowed: seq<string>, resolved: set<string>) returns (reasons: Reasons)
    ensures reasons == [] <==> forall tag | tag in allowed :: tag in resolved
    ensures forall r :: r in reasons <==> r.DimensionUnresolved? && r.tag in allowed && r.tag !in resolved
  {
    reasons := [];
    for i := 0 to |allowed|
      invariant reasons == [] <==> forall j | 0 <= j < i :: allowed[j] in resolved
      invariant forall r :: r in reasons <==> r.DimensionUnresolved? && r.tag in allowed[..i] && r.tag !in resolved
    {
      assert allowed[..i + 1] == allowed[..i] + [allowed[i]];
      if allowed[i] !in resolved {
        reasons := reasons + [DimensionUnresolved(allowed[i])];
      }
    }
    assert allowed[..|allowed|] == allowed;
  }

  // ---- Settings and the remaining rules ----

  datatype Settings = Settings(kind: string, source: string, version: string, legacy: bool)

  /** `investigation_settings`, over a scan's configuration. */
  function InvestigationSettings(configuration: Dict): Settings {
    var kind, version := TextOf(Get(configuration, "investigation_kind")),
                         TextOf(Get(configuration, "readiness_policy_version"));
    var source := TextOf(Get(configuration, "investigation_kind_source"));
    if kind == "" || version == "" then
      Settings("internal_research", "legacy_default", LEGACY_POLICY_VERSION, true)
    else Settings(kind, if source == "" then "legacy_default" else source, version, source != "user")
  }

  function AsDict(v: Json): Dict {
    if v.Obj? then v.fields else map[]
  }

  predicate SomeText(v: Json) {
    exists s :: s in Strings(v) && !Blank(s)
  }

  /** Rule 3: D3 defines a passing proof target, from a source the policy allows. */
  predicate TargetDefined(policy: Lookup<Policy>, d3: Dict) {
    var objective := AsDict(Get(d3, "impact_objective"));
    && IsOneOf(d3, "verdict", D3_PASS_VERDICTS)
    && Is(d3, "impact_definition_status", "defined")
    && HasText(objective, "claim") && HasText(objective, "terminal_outcome")
    && SomeText(Get(objective, "required_evidence"))
    && (policy.Found? ==> TextOf(Get(objective, "source_type")) in policy.value.sources)
  }

  function TargetReasons(policy: Lookup<Policy>, d3: Dict): (r: Reasons)
    ensures r == [] <==> TargetDefined(policy, d3)
  {
    var objective := AsDict(Get(d3, "impact_objective"));
    When(!IsOneOf(d3, "verdict", D3_PASS_VERDICTS), VerdictNotPassing)
    + When(!Is(d3, "impact_definition_status", "defined"), ImpactUndefined)
    + When(!HasText(objective, "claim"), NoClaim)
    + When(!HasText(objective, "terminal_outcome"), NoTerminalOutcome)
    + When(!SomeText(Get(objective, "required_evidence")), NoRequiredEvidence)
    + When(policy.Found? && TextOf(Get(objective, "source_type")) !in policy.value.sources, SourceNotAllowed)
  }

  predicate TargetFault(policy: Lookup<Policy>, d3: Dict, r: Reason) {
    var objective := AsDict(Get(d3, "impact_objective"));
    || (r == VerdictNotPassing && !IsOneOf(d3, "verdict", D3_PASS_VERDICTS))
    || (r == ImpactUndefined && !Is(d3, "impact_definition_status", "defined"))
    || (r == NoClaim && !HasText(objective, "claim"))
    || (r == NoTerminalOutcome && !HasText(objective, "terminal_outcome"))
    || (r == NoRequiredEvidence && !SomeText(Get(objective, "required_evidence")))
    || (r == SourceNotAllowed && policy.Found? &&
        TextOf(Get(objective, "source_type")) !in policy.value.sources)
  }

  lemma TargetReasonsAre(policy: Lookup<Policy>, d3: Dict, r: Reason)
    ensures r in TargetReasons(policy, d3) <==> TargetFault(policy, d3, r)
  {
    var objective := AsDict(Get(d3, "impact_objective"));
    var verdict, undefined := !IsOneOf(d3, "verdict", D3_PASS_VERDICTS), !Is(d3, "impact_definition_status", "defined");
    var claim := !HasText(objective, "claim");
    ThreeWhens(verdict, VerdictNotPassing, undefined, ImpactUndefined, claim, NoClaim, r);
    ThreeMore(
      When(verdict, VerdictNotPassing) + When(undefined, ImpactUndefined) + When(claim, NoClaim),
      !HasText(objective, "terminal_outcome"), NoTerminalOutcome,
      !SomeText(Get(objective, "required_evidence")), NoRequiredEvidence,
      policy.Found? && TextOf(Get(objective, "source_type")) !in policy.value.sources, SourceNotAllowed, r);
  }

  /** The evidence's own status, or the D4 result's when the evidence has none. */
  function BugOf(evidence: Option<Evidence>, d4: Dict): Json {
    if evidence.Some? && evidence.value.bugStatus.Some? then evidence.value.bugStatus.value
    else Get(d4, "bug_status")
  }

  function ImpactOf(evidence: Option<Evidence>, d4: Dict): Json {
    if evidence.Some? && evidence.value.impactStatus.Some? then evidence.value.impactStatus.value
    else Get(d4, "impact_status")
  }

  predicate Repeatable(policy: Lookup<Policy>, d4: Dict) {
    || Is(d4, "repeatability_status", "deterministic")
    || (policy.Found? && policy.value.allowsProbabilistic && Is(d4, "repeatability_status", "non_deterministic"))
  }

  /** Rule 4: the bug is reproduced, the impact proven, controlled and repeatable. */
  predicate Proof(policy: Lookup<Policy>, d4: Dict, evidence: Option<Evidence>) {
    && BugOf(evidence, d4) == Str("reproduced")
    && ImpactOf(evidence, d4) == Str("proven")
    && HasText(d4, "observed_terminal_outcome")
    && Is(d4, "negative_control_status", "passed")
    && Repeatable(policy, d4)
  }

  function ProofReasons(policy: Lookup<Policy>, d4: Dict, evidence: Option<Evidence>): (r: Reasons)
    ensures r == [] <==> Proof(policy, d4, evidence)
  {
    When(BugOf(evidence, d4) != Str("reproduced"), BugNotReproduced)
    + When(ImpactOf(evidence, d4) != Str("proven"), ImpactNotProven)
    + When(!HasText(d4, "observed_terminal_outcome"), NoObservedOutcome)
    + When(!Is(d4, "negative_control_status", "passed"), NegativeControlNotPassed)
    + When(!Repeatable(policy, d4), NotRepeatable)
  }

  predicate ProofFault(policy: Lookup<Policy>, d4: Dict, evidence: Option<Evidence>, r: Reason) {
    || (r == BugNotReproduced && BugOf(evidence, d4) != Str("reproduced"))
    || (r == ImpactNotProven && ImpactOf(evidence, d4) != Str("proven"))
    || (r == NoObservedOutcome && !HasText(d4, "observed_terminal_outcome"))
    || (r == NegativeControlNotPassed && !Is(d4, "negative_control_status", "passed"))
    || (r == NotRepeatable && !Repeatable(policy, d4))
  }

  lemma ProofReasonsAre(policy: Lookup<Policy>, d4: Dict, evidence: Option<Evidence>, r: Reason)
    ensures r in ProofReasons(policy, d4, evidence) <==> ProofFault(policy, d4, evidence, r)
  {
    var bug, impact := BugOf(evidence, d4) != Str("reproduced"), ImpactOf(evidence, d4) != Str("proven");
    var outcome := !HasText(d4, "observed_terminal_outcome");
    ThreeWhens(bug, BugNotReproduced, impact, ImpactNotProven, outcome, NoObservedOutcome, r);
    TwoMore(
      When(bug, BugNotReproduced) + When(impact, ImpactNotProven) + When(outcome, NoObservedOutcome),
      !Is(d4, "negative_control_status", "passed"), NegativeControlNotPassed,
      !Repeatable(policy, d4), NotRepeatable, r);
  }

  // The assumptions of D3 and D4 are merged by id: the last row with an id decides.

  predicate MaterialOpen(row: Dict) {
    Get(row, "material") == Bool(true) && Is(row, "status", "open")
  }

  /** The source prints the position as text, `#` and the number; an id can be that very text. */
  function KeyText(row: Dict, index: nat): string {
    var id := TextOf(Get(row, "id"));
    if id == "" then "#" + NatText(index) else id
  }

  function KeyTexts(rows: seq<Dict>): seq<string> {
    seq(|rows|, i requires 0 <= i < |rows| => KeyText(rows[i], i))
  }

  /** Where a key is stated last. */
  function LastIndex(keys: seq<string>, k: string): (i: nat)
    requires k in keys
    ensures i < |keys| && keys[i] == k && forall j | i < j < |keys| :: keys[j] != k
  {
    if keys[|keys| - 1] == k then |keys| - 1
    else
      assert keys == keys[..|keys| - 1] + [keys[|keys| - 1]];
      LastIndex(keys[..|keys| - 1], k)
  }

  /** Some assumption is, in its last statement, material and open. */
  predicate SomeOpen(rows: seq<Dict>, keys: seq<string>)
    requires |keys| == |rows|
  {
    exists k :: k in keys && MaterialOpen(rows[LastIndex(keys, k)])
  }

  method MergeAssumptions(rows: seq<Dict>, keys: seq<string>) returns (merged: map<string, Dict>)
    requires |keys| == |rows|
    ensures forall k :: k in merged <==> k in keys
    ensures forall k | k in keys :: merged[k] == rows[LastIndex(keys, k)]
  {
    merged := map[];
    for n := 0 to |rows|
      invariant forall k :: k in merged <==> k in keys[..n]
      invariant forall k | k in merged :: exists i: nat :: LastAt(keys, n, k, i) && merged[k] == rows[i]
    {
      assert keys[..n + 1] == keys[..n] + [keys[n]];
      ghost var before := merged;
      merged := merged[keys[n] := rows[n]];
      forall k | k in merged ensures exists i: nat :: LastAt(keys, n + 1, k, i) && merged[k] == rows[i] {
        if k == keys[n] {
          assert LastAt(keys, n + 1, k, n);
        } else {
          var i: nat :| LastAt(keys, n, k, i) && before[k] == rows[i];
          assert LastAt(keys, n + 1, k, i);
        }
      }
    }
    assert keys[..|keys|] == keys;
    forall k | k in keys ensures merged[k] == rows[LastIndex(keys, k)] {
      var i: nat :| LastAt(keys, |rows|, k, i) && merged[k] == rows[i];
      assert i == LastIndex(keys, k);
    }
  }

  predicate LastAt(keys: seq<string>, n: nat, k: string, i: nat)
    requires n <= |keys|
  {
    i < n && keys[i] == k && forall j | i < j < n :: keys[j] != k
  }

  function Assumptions(d3: Dict, d4: Dict): seq<Dict> {
    Rows(Get(d3, "unverified_assumptions")) + Rows(Get(d4, "unverified_assumptions"))
  }

  /** A key whose last statement is material and open. */
  predicate OpenAt(rows: seq<Dict>, keys: seq<string>, k: string)
    requires |keys| == |rows|
  {
    k in keys && MaterialOpen(rows[LastIndex(keys, k)])
  }

  /** The open keys in the order in which they are first stated. */
  method OpenKeys(keys: seq<string>, merged: map<string, Dict>) returns (reasons: Reasons)
    requires forall k :: k in merged <==> k in keys
    ensures forall r :: r in reasons <==> r.AssumptionOpen? && r.id in merged && MaterialOpen(merged[r.id])
    ensures IsUnique(reasons)
  {
    reasons := [];
    for i := 0 to |keys|
      invariant forall r :: r in reasons <==>
        r.AssumptionOpen? && r.id in keys[..i] && r.id in merged && MaterialOpen(merged[r.id])
      invariant IsUnique(reasons)
    {
      assert keys[..i + 1] == keys[..i] + [keys[i]];
      if keys[i] !in keys[..i] && MaterialOpen(merged[keys[i]]) {
        assert AssumptionOpen(keys[i]) !in reasons;
        reasons := reasons + [AssumptionOpen(keys[i])];
      }
    }
    assert keys[..|keys|] == keys;
  }

  method OpenAssumptions(rows: seq<Dict>) returns (reasons: Reasons)
    ensures reasons == [] <==> !SomeOpen(rows, KeyTexts(rows))
    ensures forall r :: r in reasons <==> r.AssumptionOpen? && OpenAt(rows, KeyTexts(rows), r.id)
  {
    var keys := KeyTexts(rows);
    var merged := MergeAssumptions(rows, keys);
    reasons := OpenKeys(keys, merged);
    if k :| k in keys && MaterialOpen(rows[LastIndex(keys, k)]) {
      assert AssumptionOpen(k) in reasons;
    }
    assert reasons != [] ==> reasons[0] in reasons;
  }

  /** Rule 5: the chain is complete, nothing is reported missing, no material assumption is open. */
  ghost predicate ChainComplete(d3: Dict, d4: Dict) {
    var chain := Rows(Get(d4, "impact_chain"));
    && ChainOk(Rows(Get(d3, "impact_chain_plan")), chain)
    && chain != []
    && !SomeText(Get(d4, "missing_impact_links"))
    && !SomeOpen(Assumptions(d3, d4), KeyTexts(Assumptions(d3, d4)))
  }

  /** What is wrong with the chain, the links and the assumptions, reason by reason. */
  ghost predicate ChainRuleFault(d3: Dict, d4: Dict, r: Reason) {
    || ChainFault(Rows(Get(d3, "impact_chain_plan")), Rows(Get(d4, "impact_chain")), r)
    || (r == NoChain && Rows(Get(d4, "impact_chain")) == [])
    || (r == MissingLinks && SomeText(Get(d4, "missing_impact_links")))
    || (r.AssumptionOpen? && OpenAt(Assumptions(d3, d4), KeyTexts(Assumptions(d3, d4)), r.id))
  }

  method ChainRule(d3: Dict, d4: Dict) returns (reasons: Reasons)
    ensures reasons == [] <==> ChainComplete(d3, d4)
    ensures forall r :: r in reasons <==> ChainRuleFault(d3, d4, r)
  {
    var chain := Rows(Get(d4, "impact_chain"));
    var hops := ChainReasons(Rows(Get(d3, "impact_chain_plan")), chain);
    var open := OpenAssumptions(Assumptions(d3, d4));
    var links := SomeText(Get(d4, "missing_impact_links"));
    reasons := hops + When(chain == [], NoChain) + When(links, MissingLinks) + open;
    forall r ensures r in reasons <==> ChainRuleFault(d3, d4, r) {
      TwoMore(hops, chain == [], NoChain, links, MissingLinks, r);
    }
  }

  /** The evidence paths cited by the chain and by the D5 mapping. */
  function CitedPaths(d4: Dict, d5: Dict): seq<string> {
    AllPaths(Rows(Get(d4, "impact_chain"))) + AllPaths(Rows(Get(d5, "impact_mapping")))
  }

  function SetOf(texts: seq<string>): set<string> {
    set t | t in texts
  }

  function CapturedNames(evidence: Option<Evidence>): set<string> {
    if evidence.Some? then SetOf(Strings(evidence.value.capturedPaths)) else {}
  }

  /** Rule 6: the capture is complete and every cited path was captured. */
  predicate Provenance(d4: Dict, d5: Dict, evidence: Option<Evidence>) {
    && evidence.Some? && evidence.value.captureComplete == Bool(true)
    && ProvenanceOk(CitedPaths(d4, d5), CapturedNames(evidence))
  }

  predicate ProvenanceFault(d4: Dict, d5: Dict, evidence: Option<Evidence>, r: Reason) {
    || (r == CaptureIncomplete && (evidence.None? || evidence.value.captureComplete != Bool(true)))
    || PathFault(CitedPaths(d4, d5), Normalized(CapturedNames(evidence)), r)
  }

  method ProvenanceRule(d4: Dict, d5: Dict, evidence: Option<Evidence>) returns (reasons: Reasons)
    ensures reasons == [] <==> Provenance(d4, d5, evidence)
    ensures forall r :: r in reasons <==> ProvenanceFault(d4, d5, evidence, r)
  {
    reasons := ProvenanceReasons(CitedPaths(d4, d5), CapturedNames(evidence));
    reasons := When(evidence.None? || evidence.value.captureComplete != Bool(true), CaptureIncomplete) + reasons;
  }

  /** Rule 7: the family's dimensions are all resolved. */
  predicate DimensionsResolved(settings: Settings, d3: Dict, d4: Dict) {
    && PolicyFor(settings.version, settings.kind).Found?
    && FamilyOk(Rows(Get(d3, "evidence_dimensions")), TextOf(Get(d3, "impact_family")),
                Rows(Get(d4, "impact_chain")), settings.version)
  }

  predicate DimensionRuleFault(settings: Settings, d3: Dict, d4: Dict, r: Reason) {
    if !PolicyFor(settings.version, settings.kind).Found? then r == DimensionsUnverifiable
    else
      FamilyFault(Rows(Get(d3, "evidence_dimensions")), TextOf(Get(d3, "impact_family")),
                  Rows(Get(d4, "impact_chain")), settings.version, r)
  }

  method DimensionRule(settings: Settings, d3: Dict, d4: Dict) returns (reasons: Reasons)
    ensures reasons == [] <==> DimensionsResolved(settings, d3, d4)
    ensures forall r :: r in reasons <==> DimensionRuleFault(settings, d3, d4, r)
  {
    if !PolicyFor(settings.version, settings.kind).Found? {
      return [DimensionsUnverifiable];
    }
    var result := DimensionReasons(
      Rows(Get(d3, "evidence_dimensions")), TextOf(Get(d3, "impact_family")),
      Rows(Get(d4, "impact_chain")), settings.version);
    reasons := result.value;
  }

  /** `normalize_missing_requirements`: nothing, or a list; anything else is malformed. */
  function MissingRequirements(v: Json): Option<seq<string>> {
    match v
    case Null => Some([])
    case Str(s) => Some(if Blank(s) then [] else [s])
    case Arr(items) => if forall x | x in items :: x.Str? then Some(StringsOf(items)) else None
    case _ => None
  }

  predicate MappingOk(mapping: seq<Dict>) {
    forall i | 0 <= i < |mapping| :: Proven(mapping[i])
  }

  predicate ReferencesDirectory(d5: Dict, evidence: Option<Evidence>) {
    && evidence.Some? && TextOf(evidence.value.artifactDir) != ""
    && TextOf(Get(d5, "artifact_reference")) == TextOf(evidence.value.artifactDir)
  }

  /** Rule 8: D5 matches the target exactly, with verified evidence in the captured directory. */
  predicate Matched(d5: Dict, evidence: Option<Evidence>) {
    && Is(d5, "impact_match_status", "exact") && Is(d5, "impact_evidence_status", "verified")
    && Rows(Get(d5, "impact_mapping")) != [] && MappingOk(Rows(Get(d5, "impact_mapping")))
    && ReferencesDirectory(d5, evidence)
    && MissingRequirements(Get(d5, "missing_requirements")) == Some([])
  }

  predicate MappingFault(mapping: seq<Dict>, r: Reason) {
    r.MappingNotProven? && 0 < r.entry <= |mapping| && !Proven(mapping[r.entry - 1])
  }

  method MappingReasons(mapping: seq<Dict>) returns (reasons: Reasons)
    ensures reasons == [] <==> MappingOk(mapping)
    ensures forall r :: r in reasons <==> MappingFault(mapping, r)
  {
    reasons := [];
    for i := 0 to |mapping|
      invariant reasons == [] <==> forall j | 0 <= j < i :: Proven(mapping[j])
      invariant forall r :: r in reasons <==> MappingFault(mapping, r) && r.entry <= i
    {
      if !Proven(mapping[i]) {
        reasons := reasons + [MappingNotProven(i + 1)];
      }
    }
  }

  /** What is wrong with the D5 match, reason by reason. */
  predicate MatchFault(d5: Dict, evidence: Option<Evidence>, r: Reason) {
    var mapping, missing := Rows(Get(d5, "impact_mapping")), MissingRequirements(Get(d5, "missing_requirements"));
    || (r == MatchNotExact && !Is(d5, "impact_match_status", "exact"))
    || (r == EvidenceNotVerified && !Is(d5, "impact_evidence_status", "verified"))
    || (r == NoMapping && mapping == [])
    || MappingFault(mapping, r)
    || (r == ReferenceMismatch && !ReferencesDirectory(d5, evidence))
    || (r == RequirementsMalformed && missing.None?)
    || (r == RequirementsMissing && missing.Some? && missing.value != [])
  }

  function MatchTests(d5: Dict, evidence: Option<Evidence>, unproven: Reasons): Reasons {
    var mapping, missing := Rows(Get(d5, "impact_mapping")), MissingRequirements(Get(d5, "missing_requirements"));
    When(!Is(d5, "impact_match_status", "exact"), MatchNotExact)
    + When(!Is(d5, "impact_evidence_status", "verified"), EvidenceNotVerified)
    + When(mapping == [], NoMapping) + unproven
    + When(!ReferencesDirectory(d5, evidence), ReferenceMismatch)
    + When(missing.None?, RequirementsMalformed)
    + When(missing.Some? && missing.value != [], RequirementsMissing)
  }

  lemma MatchTestsAre(d5: Dict, evidence: Option<Evidence>, unproven: Reasons, r: Reason)
    requires r in unproven <==> MappingFault(Rows(Get(d5, "impact_mapping")), r)
    ensures r in MatchTests(d5, evidence, unproven) <==> MatchFault(d5, evidence, r)
  {
    var mapping, missing := Rows(Get(d5, "impact_mapping")), MissingRequirements(Get(d5, "missing_requirements"));
    var matched, verified := !Is(d5, "impact_match_status", "exact"), !Is(d5, "impact_evidence_status", "verified");
    ThreeWhens(matched, MatchNotExact, verified, EvidenceNotVerified, mapping == [], NoMapping, r);
    ThreeMore(
      When(matched, MatchNotExact) + When(verified, EvidenceNotVerified) + When(mapping == [], NoMapping) + unproven,
      !ReferencesDirectory(d5, evidence), ReferenceMismatch, missing.None?, RequirementsMalformed,
      missing.Some? && missing.value != [], RequirementsMissing, r);
  }

  method MatchReasons(d5: Dict, evidence: Option<Evidence>) returns (reasons: Reasons)
    ensures reasons == [] <==> Matched(d5, evidence)
    ensures forall r :: r in reasons <==> MatchFault(d5, evidence, r)
  {
    var unproven := MappingReasons(Rows(Get(d5, "impact_mapping")));
    reasons := MatchTests(d5, evidence, unproven);
    forall r ensures r in reasons <==> MatchFault(d5, evidence, r) {
      MatchTestsAre(d5, evidence, unproven, r);
    }
  }

  /** Rule 9: scope and novelty, where the policy asks for them. */
  predicate ScopeAndNovelty(policy: Lookup<Policy>, d5: Dict) {
    policy.Found? ==>
      && (policy.value.requiresScope ==> Is(d5, "scope_status", "in_scope_verified") && HasText(d5, "scope_evidence"))
      && (policy.value.requiresNovelty ==>
            Is(d5, "novelty_status", "novel_verified") && HasText(d5, "novelty_evidence"))
  }

  function ScopeReasons(policy: Lookup<Policy>, d5: Dict): (r: Reasons)
    ensures r == [] <==> ScopeAndNovelty(policy, d5)
  {
    When(policy.Found? && policy.value.requiresScope &&
         !(Is(d5, "scope_status", "in_scope_verified") && HasText(d5, "scope_evidence")), ScopeNotVerified)
    + When(policy.Found? && policy.value.requiresNovelty &&
           !(Is(d5, "novelty_status", "novel_verified") && HasText(d5, "novelty_evidence")), NoveltyNotVerified)
  }

  predicate ScopeFault(policy: Lookup<Policy>, d5: Dict, r: Reason) {
    || (r == ScopeNotVerified && policy.Found? && policy.value.requiresScope &&
        !(Is(d5, "scope_status", "in_scope_verified") && HasText(d5, "scope_evidence")))
    || (r == NoveltyNotVerified && policy.Found? && policy.value.requiresNovelty &&
        !(Is(d5, "novelty_status", "novel_verified") && HasText(d5, "novelty_evidence")))
  }

  lemma ScopeReasonsAre(policy: Lookup<Policy>, d5: Dict, r: Reason)
    ensures r in ScopeReasons(policy, d5) <==> ScopeFault(policy, d5, r)
  {
  }

  // ---- Readiness ----

  /** The nine checks, each with its reasons. */
  datatype Checks = Checks(
    policyVersion: Reasons, kindExplicit: Reasons, d3Defined: Reasons, d4Proof: Reasons, chain: Reasons,
    provenance: Reasons, dimensions: Reasons, d5Match: Reasons, scopeNovelty: Reasons)

  datatype Readiness = Readiness(
    ready: bool, readyLabel: string, lifecycle: L.Lifecycle, blocking: Reasons, checks: Checks,
    kind: string, version: string)

  predicate AllPass(c: Checks) {
    c.policyVersion == [] && c.kindExplicit == [] && c.d3Defined == [] && c.d4Proof == [] && c.chain == []
    && c.provenance == [] && c.dimensions == [] && c.d5Match == [] && c.scopeNovelty == []
  }

  predicate KindExplicit(settings: Settings) {
    PolicyFor(settings.version, settings.kind).Found? && !settings.legacy && settings.source == "user"
  }

  /** What a finding must show to be ready. */
  ghost predicate IsReady(settings: Settings, d3: Dict, d4: Dict, evidence: Option<Evidence>, d5: Dict) {
    var policy := PolicyFor(settings.version, settings.kind);
    && KindExplicit(settings)
    && TargetDefined(policy, d3) && Proof(policy, d4, evidence) && ChainComplete(d3, d4)
    && Provenance(d4, d5, evidence) && DimensionsResolved(settings, d3, d4) && Matched(d5, evidence)
    && ScopeAndNovelty(policy, d5)
  }

  predicate VersionFault(policy: Lookup<Policy>, r: Reason) {
    r == UnsupportedPolicy && policy.UnsupportedVersion?
  }

  predicate KindFault(settings: Settings, policy: Lookup<Policy>, r: Reason) {
    || (r == UnknownKind && policy.UnknownRow?)
    || (r == LegacyKind && (settings.legacy || settings.source != "user"))
  }

  /** Every check gives exactly the reasons of its own rule that are true of the finding. */
  ghost predicate Placed(
    settings: Settings, d3: Dict, d4: Dict, evidence: Option<Evidence>, d5: Dict, c: Checks, r: Reason)
  {
    var policy := PolicyFor(settings.version, settings.kind);
    && (r in c.policyVersion <==> VersionFault(policy, r))
    && (r in c.kindExplicit <==> KindFault(settings, policy, r))
    && (r in c.d3Defined <==> TargetFault(policy, d3, r))
    && (r in c.d4Proof <==> ProofFault(policy, d4, evidence, r))
    && (r in c.chain <==> ChainRuleFault(d3, d4, r))
    && (r in c.provenance <==> ProvenanceFault(d4, d5, evidence, r))
    && (r in c.dimensions <==> DimensionRuleFault(settings, d3, d4, r))
    && (r in c.d5Match <==> MatchFault(d5, evidence, r))
    && (r in c.scopeNovelty <==> ScopeFault(policy, d5, r))
  }

  /** A reason that is true of a finding. */
  ghost predicate Fault(
    settings: Settings, d3: Dict, d4: Dict, evidence: Option<Evidence>, d5: Dict, r: Reason)
  {
    var policy := PolicyFor(settings.version, settings.kind);
    || VersionFault(policy, r) || KindFault(settings, policy, r)
    || TargetFault(policy, d3, r) || ProofFault(policy, d4, evidence, r) || ChainRuleFault(d3, d4, r)
    || ProvenanceFault(d4, d5, evidence, r) || DimensionRuleFault(settings, d3, d4, r)
    || MatchFault(d5, evidence, r) || ScopeFault(policy, d5, r)
  }

  /** A reason of one of the nine checks. */
  predicate Given(c: Checks, r: Reason) {
    || r in c.policyVersion || r in c.kindExplicit || r in c.d3Defined || r in c.d4Proof || r in c.chain
    || r in c.provenance || r in c.dimensions || r in c.d5Match || r in c.scopeNovelty
  }

  lemma SettingsReasonsAre(settings: Settings, policy: Lookup<Policy>, r: Reason)
    ensures r in When(policy.UnsupportedVersion?, UnsupportedPolicy) <==> VersionFault(policy, r)
    ensures KindFault(settings, policy, r) <==>
      r in When(policy.UnknownRow?, UnknownKind) + When(settings.legacy || settings.source != "user", LegacyKind)
  {
    TwoWhens(policy.UnknownRow?, UnknownKind, settings.legacy || settings.source != "user", LegacyKind, r);
  }

  method EvaluateChecks(settings: Settings, d3: Dict, d4: Dict, evidence: Option<Evidence>, d5: Dict)
    returns (checks: Checks)
    ensures AllPass(checks) <==> IsReady(settings, d3, d4, evidence, d5)
    ensures forall r :: Placed(settings, d3, d4, evidence, d5, checks, r)
  {
    var policy := PolicyFor(settings.version, settings.kind);
    var chain := ChainRule(d3, d4);
    var provenance := ProvenanceRule(d4, d5, evidence);
    var dimensions := DimensionRule(settings, d3, d4);
    var matched := MatchReasons(d5, evidence);
    checks := Checks(
      When(policy.UnsupportedVersion?, UnsupportedPolicy),
      When(policy.UnknownRow?, UnknownKind) + When(settings.legacy || settings.source != "user", LegacyKind),
      TargetReasons(policy, d3), ProofReasons(policy, d4, evidence), chain, provenance, dimensions, matched,
      ScopeReasons(policy, d5));
    assert checks.policyVersion == [] && checks.kindExplicit == [] <==> KindExplicit(settings);
    forall r ensures Placed(settings, d3, d4, evidence, d5, checks, r) {
      SettingsReasonsAre(settings, policy, r);
      TargetReasonsAre(policy, d3, r);
      ProofReasonsAre(policy, d4, evidence, r);
      ScopeReasonsAre(policy, d5, r);
    }
  }

  function Groups(c: Checks): seq<Reasons> {
    [] + [c.policyVersion] + [c.kindExplicit] + [c.d3Defined] + [c.d4Proof] + [c.chain] + [c.provenance]
    + [c.dimensions] + [c.d5Match] + [c.scopeNovelty]
  }

  /** All reasons, check by check. */
  function AllReasons(c: Checks): Reasons {
    c.policyVersion + c.kindExplicit + c.d3Defined + c.d4Proof + c.chain + c.provenance + c.dimensions + c.d5Match
    + c.scopeNovelty
  }

  function Itself(reasons: Reasons): Reasons {
    reasons
  }

  lemma AllReasonsAre(c: Checks)
    ensures Each(Groups(c), Itself) == AllReasons(c)
  {
    var g1 := [] + [c.policyVersion];
    var g3 := g1 + [c.kindExplicit] + [c.d3Defined];
    var g5 := g3 + [c.d4Proof] + [c.chain];
    var g7 := g5 + [c.provenance] + [c.dimensions];
    EachAdd([], c.policyVersion, Itself);
    EachAdd(g1, c.kindExplicit, Itself);
    EachAdd(g1 + [c.kindExplicit], c.d3Defined, Itself);
    EachAdd(g3, c.d4Proof, Itself);
    EachAdd(g3 + [c.d4Proof], c.chain, Itself);
    EachAdd(g5, c.provenance, Itself);
    EachAdd(g5 + [c.provenance], c.dimensions, Itself);
    EachAdd(g7, c.d5Match, Itself);
    EachAdd(g7 + [c.d5Match], c.scopeNovelty, Itself);
    assert [] + c.policyVersion == c.policyVersion;
  }

  /** The blocking reasons: those of the checks in their order, each where it is first given. */
  method BlockingReasons(c: Checks) returns (blocking: Reasons)
    ensures blocking == Unique(AllReasons(c))
    ensures IsUnique(blocking) && forall r :: r in blocking <==> Given(c, r)
    ensures blocking == [] <==> AllPass(c)
  {
    blocking := Gather(Groups(c), Itself);
    AllReasonsAre(c);
    UniqueIs(AllReasons(c), 0);
    UniqueEmpty(AllReasons(c));
  }

  method EvaluateReadiness(configuration: Dict, d3: Dict, d4: Dict, evidence: Option<Evidence>, d5: Dict)
    returns (r: Readiness)
    ensures r.ready <==> IsReady(InvestigationSettings(configuration), d3, d4, evidence, d5)
    ensures r.ready <==> r.blocking == []
    ensures IsUnique(r.blocking) && forall reason ::
      reason in r.blocking <==> Fault(InvestigationSettings(configuration), d3, d4, evidence, d5, reason)
    ensures r.blocking == Unique(AllReasons(r.checks)) && forall reason ::
      Placed(InvestigationSettings(configuration), d3, d4, evidence, d5, r.checks, reason)
    ensures r.lifecycle == L.LifecycleStatus(Some(d3), evidence, r.ready)
    ensures r.lifecycle == L.ReportReady <==> r.ready
    ensures r.kind == InvestigationSettings(configuration).kind
    ensures r.version == InvestigationSettings(configuration).version
    ensures r.readyLabel == ReadyLabel(PolicyFor(r.version, r.kind))
  {
    var settings := InvestigationSettings(configuration);
    var c := EvaluateChecks(settings, d3, d4, evidence, d5);
    var ready := AllPass(c);
    var blocking := BlockingReasons(c);
    forall reason ensures reason in blocking <==> Fault(settings, d3, d4, evidence, d5, reason) {
      assert Placed(settings, d3, d4, evidence, d5, c, reason);
    }
    L.ReportReadyIffReady(Some(d3), evidence, ready);
    r := Readiness(
      ready, ReadyLabel(PolicyFor(settings.version, settings.kind)),
      L.LifecycleStatus(Some(d3), evidence, ready), blocking, c, settings.kind, settings.version);
  }

  // ---- What readiness guarantees ----

  /** A ready finding is one the D5 stage may run on, exactly when its evidence states both statuses itself. */
  lemma ReadyIsEligible(settings: Settings, d3: Dict, d4: Dict, evidence: Option<Evidence>, d5: Dict)
    requires IsReady(settings, d3, d4, evidence, d5)
    ensures evidence.Some?
    ensures D5Eligible(evidence.value) <==> evidence.value.bugStatus.Some? && evidence.value.impactStatus.Some?
  {
    ProofIsEligible(PolicyFor(settings.version, settings.kind), d4, evidence, d5);
  }

  /** Readiness is evaluated on rows the candidate query has selected, and those are eligible when ready. */
  lemma SelectedReadyIsEligible(settings: Settings, d3: Dict, d4: Dict, e: Evidence, d5: Dict)
    requires D5Sql(e) && IsReady(settings, d3, d4, Some(e), d5)
    ensures D5Eligible(e)
  {
    ReadyIsEligible(settings, d3, d4, Some(e), d5);
  }

  /**
   Evidence that states no status falls back to the D4 result: a ready finding stays ready without
   the two statuses, and the D5 predicate, which reads the evidence alone, refuses it.
   */
  lemma ReadyWithoutStatuses(settings: Settings, d3: Dict, d4: Dict, e: Evidence, d5: Dict)
    requires IsReady(settings, d3, d4, Some(e), d5)
    requires Is(d4, "bug_status", "reproduced") && Is(d4, "impact_status", "proven")
    ensures var bare := e.(bugStatus := None, impactStatus := None);
            IsReady(settings, d3, d4, Some(bare), d5) && !D5Eligible(bare)
  {
    var bare := e.(bugStatus := None, impactStatus := None);
    ProofWithoutStatuses(PolicyFor(settings.version, settings.kind), d4, e);
    CaptureWithoutStatuses(d4, d5, e);
  }

  lemma ProofWithoutStatuses(policy: Lookup<Policy>, d4: Dict, e: Evidence)
    requires Proof(policy, d4, Some(e))
    requires Is(d4, "bug_status", "reproduced") && Is(d4, "impact_status", "proven")
    ensures Proof(policy, d4, Some(e.(bugStatus := None, impactStatus := None)))
  {
  }

  lemma CaptureWithoutStatuses(d4: Dict, d5: Dict, e: Evidence)
    ensures var bare := e.(bugStatus := None, impactStatus := None);
            && (Provenance(d4, d5, Some(e)) <==> Provenance(d4, d5, Some(bare)))
            && (Matched(d5, Some(e)) <==> Matched(d5, Some(bare)))
  {
    assert CapturedNames(Some(e)) == CapturedNames(Some(e.(bugStatus := None, impactStatus := None)));
  }

  lemma ProofIsEligible(policy: Lookup<Policy>, d4: Dict, evidence: Option<Evidence>, d5: Dict)
    requires Proof(policy, d4, evidence) && Matched(d5, evidence)
    requires evidence.Some? && evidence.value.captureComplete == Bool(true)
    ensures D5Eligible(evidence.value) <==> evidence.value.bugStatus.Some? && evidence.value.impactStatus.Some?
  {
  }

  /** A dimension that a proven hop covers, or that is excused with a rationale. */
  predicate DimensionResolved(rows: seq<Dict>, tag: string, chain: seq<Dict>) {
    || Covered(chain, tag)
    || (tag != TERMINAL_OUTCOME &&
        exists row ::
          row in rows && TagOf(row) == tag && Is(row, "status", "not_applicable") && HasText(row, "rationale"))
  }

  /** Every dimension of the finding's family is resolved, the terminal outcome by a hop with evidence. */
  predicate OutcomeProven(rows: seq<Dict>, table: Lookup<seq<string>>, chain: seq<Dict>) {
    && table.Found? && TERMINAL_OUTCOME in table.value
    && (forall tag | tag in table.value :: DimensionResolved(rows, tag, chain))
    && (exists hop :: hop in chain && Covers(hop, TERMINAL_OUTCOME) && HasEvidence(hop))
  }

  lemma FamilyResolved(rows: seq<Dict>, family: string, chain: seq<Dict>, version: string)
    requires FamilyOk(rows, family, chain, version) && HopsOk(chain)
    ensures OutcomeProven(rows, FamilyDimensions(version, family), chain)
  {
    var table := FamilyDimensions(version, family);
    forall tag | tag in table.value ensures DimensionResolved(rows, tag, chain) {
      var row :| row in rows && TagOf(row) == tag;
      assert DimensionOk(row, table.value, chain);
    }
    assert DimensionResolved(rows, TERMINAL_OUTCOME, chain);
    var hop :| hop in chain && Covers(hop, TERMINAL_OUTCOME);
    assert HopOk(hop);
  }

  /**
   A ready finding, with the evidence block the engine wrote: it was eligible for D5; no planned hop
   was dropped; each dimension of the family is covered by a proven hop, or excused with a rationale;
   a proven hop covers the terminal outcome and names evidence for it; every cited path is captured.
   */
  lemma ReadinessSound(
    settings: Settings, d3: Dict, d4: Dict, manifest: set<string>, captureComplete: bool,
    artifactDir: string, legacy: bool, d5: Dict, e: Evidence)
    requires e == EvidenceOf(d4, manifest, captureComplete, artifactDir, legacy)
    requires IsReady(settings, d3, d4, Some(e), d5)
    ensures D5Eligible(e) && captureComplete
    ensures Planned(Rows(Get(d3, "impact_chain_plan")), HopIds(Rows(Get(d4, "impact_chain"))))
    ensures OutcomeProven(
      Rows(Get(d3, "evidence_dimensions")), FamilyDimensions(settings.version, TextOf(Get(d3, "impact_family"))),
      Rows(Get(d4, "impact_chain")))
    ensures forall p | p in CitedPaths(d4, d5) ::
      Captures(Normalized(SetOf(CapturedOf(DeclaredPaths(d4), Normalized(manifest)))), p)
  {
    ReadyIsEligible(settings, d3, d4, Some(e), d5);
    FamilyResolved(
      Rows(Get(d3, "evidence_dimensions")), TextOf(Get(d3, "impact_family")),
      Rows(Get(d4, "impact_chain")), settings.version);
    StringsOfStrItems(CapturedOf(DeclaredPaths(d4), Normalized(manifest)));
  }

  predicate CleanNames(names: set<string>) {
    forall n | n in names :: NormalizePath(n) == Some(n)
  }

  /** When the manifest lists canonical names, every path a ready finding cites is one of them. */
  lemma CitedPathsAreInManifest(
    settings: Settings, d3: Dict, d4: Dict, manifest: set<string>, captureComplete: bool,
    artifactDir: string, legacy: bool, d5: Dict, p: string)
    requires CleanNames(manifest) && p in CitedPaths(d4, d5)
    requires IsReady(settings, d3, d4, Some(EvidenceOf(d4, manifest, captureComplete, artifactDir, legacy)), d5)
    ensures Captures(manifest, p)
  {
    ReadinessSound(
      settings, d3, d4, manifest, captureComplete, artifactDir, legacy, d5,
      EvidenceOf(d4, manifest, captureComplete, artifactDir, legacy));
    CapturedIsManifest(DeclaredPaths(d4), manifest);
  }

  lemma CapturedIsManifest(declared: seq<string>, manifest: set<string>)
    requires CleanNames(manifest)
    ensures Normalized(SetOf(CapturedOf(declared, Normalized(manifest)))) <= manifest
  {
    var captured := SetOf(CapturedOf(declared, Normalized(manifest)));
    assert Normalized(manifest) <= manifest;
    forall p | p in captured ensures p in manifest {
      CapturedMember(declared, Normalized(manifest), p);
    }
  }

  /** The reasons of some rows come in the order of the rows. */
  lemma {:induction false} EachInOrder<T>(a: seq<T>, x: T, b: seq<T>, f: T -> Reasons)
    ensures Each(a + [x] + b, f) == Each(a, f) + f(x) + Each(b, f)
    decreases |b|
  {
    if b == [] {
      assert a + [x] + b == a + [x];
      EachAdd(a, x, f);
    } else {
      var front, last := b[..|b| - 1], b[|b| - 1];
      EachInOrder(a, x, front, f);
      assert a + [x] + b == (a + [x] + front) + [last] && b == front + [last];
      EachAdd(a + [x] + front, last, f);
      EachAdd(front, last, f);
    }
  }
}
