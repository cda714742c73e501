/**
 Evidence: how the engine reads loosely typed results, what it records about a D4 result, and when
 the D5 stage may run on it (impact_gate.py and v27_pipeline.py).
 */
module ImpactEvidence {
  import opened Wrappers
  import opened JsonValues
  import opened Text
  import opened EvidencePaths
  import Sorting

  type Dict = map<string, Json>

  const D3_PASS_VERDICTS: set<string> := {"confirmed", "plausible_needs_poc"}
  const D5_ELIGIBLE_IMPACTS: set<string> := {"proven", "partial", "not_proven"}
  const BUG_STATUSES: set<string> := {"reproduced", "not_reproduced", "blocked", "falsified"}
  const IMPACT_STATUSES: set<string> := {"proven", "partial", "not_proven", "blocked", "falsified", "unverified"}

  // ---- Reading loosely typed results ----

  function Get(d: Dict, k: string): Json {
    if k in d then d[k] else Null
  }

  /** `_text`. */
  function TextOf(v: Json): string {
    if v.Str? then Strip(v.s) else ""
  }

  predicate HasText(d: Dict, k: string) {
    TextOf(Get(d, k)) != ""
  }

  predicate Is(d: Dict, k: string, s: string) {
    Get(d, k) == Str(s)
  }

  predicate IsOneOf(d: Dict, k: string, names: set<string>) {
    Get(d, k).Str? && Get(d, k).s in names
  }

  /** `_rows`. */
  function Rows(v: Json): seq<Dict> {
    if v.Arr? then DictsOf(v.items) else []
  }

  function DictsOf(items: seq<Json>): (r: seq<Dict>)
    ensures forall d :: d in r <==> Obj(d) in items
  {
    if items == [] then []
    else (if items[0].Obj? then [items[0].fields] else []) + DictsOf(items[1..])
  }

  /** `_strings`. */
  function Strings(v: Json): seq<string> {
    if v.Arr? then StringsOf(v.items) else []
  }

  function StringsOf(items: seq<Json>): (r: seq<string>)
    ensures forall s :: s in r <==> Str(s) in items
  {
    if items == [] then []
    else (if items[0].Str? then [items[0].s] else []) + StringsOf(items[1..])
  }

  function PathsOf(row: Dict): seq<string> {
    Strings(Get(row, "evidence_paths"))
  }

  function AllPaths(rows: seq<Dict>): seq<string> {
    if rows == [] then [] else PathsOf(rows[0]) + AllPaths(rows[1..])
  }

  // ---- Evidence ----

  /** An evidence document, by the keys the gate reads; a missing key is none, or null. */
  datatype Evidence = Evidence(
    bugStatus: Option<Json>, impactStatus: Option<Json>, blockerKind: Json, artifactDir: Json,
    capturedPaths: Json, unresolvedPaths: Json, captureComplete: Json, legacy: Json)

  function StrItems(texts: seq<string>): seq<Json> {
    if texts == [] then [] else [Str(texts[0])] + StrItems(texts[1..])
  }

  lemma {:induction false} StringsOfStrItems(texts: seq<string>)
    ensures StringsOf(StrItems(texts)) == texts
  {
    if texts != [] {
      StringsOfStrItems(texts[1..]);
    }
  }

  function PathKey(raw: string): string {
    if NormalizePath(raw).Some? then NormalizePath(raw).value else Strip(raw)
  }

  /** A declared path: the key it is recognized by, and the text that is kept. */
  datatype Declared = Declared(key: string, text: string)

  function DeclaredRaw(d4: Dict): seq<string> {
    Strings(Get(d4, "poc_artifact_paths")) + Strings(Get(d4, "impact_artifact_paths"))
    + AllPaths(Rows(Get(d4, "impact_chain")))
  }

  function NonBlank(raws: seq<string>): seq<Declared> {
    if raws == [] then []
    else (if Blank(raws[0]) then [] else [Declared(PathKey(raws[0]), Strip(raws[0]))]) + NonBlank(raws[1..])
  }

  function KeySet(items: seq<Declared>): set<string> {
    set d | d in items :: d.key
  }

  /** Each key once, at its first declaration. */
  function FirstOfEachKey(items: seq<Declared>): seq<string> {
    if items == [] then []
    else
      var before, last := items[..|items| - 1], items[|items| - 1];
      FirstOfEachKey(before) + (if last.key in KeySet(before) then [] else [last.text])
  }

  /** The declaration that states a key first. */
  predicate FirstAt(items: seq<Declared>, i: int) {
    0 <= i < |items| && items[i].key !in KeySet(items[..i])
  }

  lemma FirstAtBefore(items: seq<Declared>, i: nat)
    requires i + 1 < |items|
    ensures FirstAt(items[..|items| - 1], i) <==> FirstAt(items, i)
  {
    assert items[..|items| - 1][..i] == items[..i];
  }

  lemma {:induction false} FirstTextsAreKept(items: seq<Declared>, i: int)
    requires FirstAt(items, i)
    ensures items[i].text in FirstOfEachKey(items)
  {
    if i < |items| - 1 {
      FirstAtBefore(items, i);
      FirstTextsAreKept(items[..|items| - 1], i);
    }
  }

  lemma {:induction false} KeptTextsAreFirst(items: seq<Declared>, t: string) returns (i: nat)
    requires t in FirstOfEachKey(items)
    ensures FirstAt(items, i) && items[i].text == t
  {
    var n := |items| - 1;
    if t in FirstOfEachKey(items[..n]) {
      i := KeptTextsAreFirst(items[..n], t);
      FirstAtBefore(items, i);
    } else {
      i := n;
    }
  }

  /** Every key has a first declaration. */
  lemma {:induction false} EveryKeyIsFirst(items: seq<Declared>, k: string) returns (i: nat)
    requires k in KeySet(items)
    ensures FirstAt(items, i) && items[i].key == k
  {
    var n := |items| - 1;
    KeySetStep(items, n);
    assert items[..n + 1] == items;
    if k in KeySet(items[..n]) {
      i := EveryKeyIsFirst(items[..n], k);
      FirstAtBefore(items, i);
    } else {
      i := n;
    }
  }

  lemma AddOne(names: set<string>, k: string)
    ensures |names + {k}| == |names| + if k in names then 0 else 1
  {
    if k in names {
      assert names + {k} == names;
    }
  }

  /** As many texts are kept as there are keys. */
  lemma {:induction false} KeptAreCounted(items: seq<Declared>)
    ensures |FirstOfEachKey(items)| == |KeySet(items)|
  {
    if items != [] {
      var n := |items| - 1;
      KeptAreCounted(items[..n]);
      KeySetStep(items, n);
      AddOne(KeySet(items[..n]), items[n].key);
      assert items[..n + 1] == items;
    }
  }

  /** What is kept is the text of each key's first declaration, one for every key. */
  lemma FirstOfEachKeyIs(items: seq<Declared>)
    ensures forall t :: t in FirstOfEachKey(items) <==> exists i :: FirstAt(items, i) && items[i].text == t
    ensures forall k :: k in KeySet(items) ==> exists i :: FirstAt(items, i) && items[i].key == k
    ensures |FirstOfEachKey(items)| == |KeySet(items)|
  {
    forall t ensures t in FirstOfEachKey(items) <==> exists i :: FirstAt(items, i) && items[i].text == t {
      if t in FirstOfEachKey(items) {
        var i := KeptTextsAreFirst(items, t);
      }
      if i :| FirstAt(items, i) && items[i].text == t {
        FirstTextsAreKept(items, i);
      }
    }
    forall k | k in KeySet(items) ensures exists i :: FirstAt(items, i) && items[i].key == k {
      var i := EveryKeyIsFirst(items, k);
    }
    KeptAreCounted(items);
  }

  lemma KeySetStep(items: seq<Declared>, i: nat)
    requires i < |items|
    ensures KeySet(items[..i + 1]) == KeySet(items[..i]) + {items[i].key}
  {
    assert items[..i + 1] == items[..i] + [items[i]];
  }

  method FirstDeclarations(items: seq<Declared>) returns (ordered: seq<string>)
    ensures ordered == FirstOfEachKey(items)
  {
    var seen: set<string> := {};
    ordered := [];
    for i := 0 to |items|
      invariant ordered == FirstOfEachKey(items[..i])
      invariant seen == KeySet(items[..i])
    {
      assert items[..i + 1][..i] == items[..i];
      KeySetStep(items, i);
      if items[i].key !in seen {
        ordered := ordered + [items[i].text];
      }
      seen := seen + {items[i].key};
    }
    assert items[..|items|] == items;
  }

  /** `declared_evidence_paths`. */
  function DeclaredPaths(d4: Dict): seq<string> {
    FirstOfEachKey(NonBlank(DeclaredRaw(d4)))
  }

  function Normalized(names: set<string>): set<string> {
    set n | n in names && NormalizePath(n).Some? :: NormalizePath(n).value
  }

  predicate Captures(names: set<string>, raw: string) {
    NormalizePath(raw).Some? && NormalizePath(raw).value in names
  }

  function CapturedOf(declared: seq<string>, names: set<string>): seq<string> {
    if declared == [] then []
    else
      var before, last := declared[..|declared| - 1], declared[|declared| - 1];
      CapturedOf(before, names) + (if Captures(names, last) then [NormalizePath(last).value] else [])
  }

  lemma {:induction false} CapturedMember(declared: seq<string>, names: set<string>, p: string)
    requires p in CapturedOf(declared, names)
    ensures exists raw :: raw in declared && Captures(names, raw) && NormalizePath(raw).value == p
  {
    var before, last := declared[..|declared| - 1], declared[|declared| - 1];
    assert last in declared;
    if p in CapturedOf(before, names) {
      CapturedMember(before, names, p);
    }
  }

  function UnresolvedOf(declared: seq<string>, names: set<string>): seq<string> {
    if declared == [] then []
    else
      var before, last := declared[..|declared| - 1], declared[|declared| - 1];
      UnresolvedOf(before, names) + (if Captures(names, last) then [] else [last])
  }

  /** A declared path goes to the captured paths in canonical form if it was captured, else to the unresolved. */
  lemma {:induction false} DeclaredAreSplit(declared: seq<string>, names: set<string>)
    ensures |CapturedOf(declared, names)| + |UnresolvedOf(declared, names)| == |declared|
    ensures forall raw | raw in declared && Captures(names, raw) ::
      NormalizePath(raw).value in CapturedOf(declared, names)
    ensures forall raw :: raw in UnresolvedOf(declared, names) <==> raw in declared && !Captures(names, raw)
  {
    if declared != [] {
      var before, last := declared[..|declared| - 1], declared[|declared| - 1];
      DeclaredAreSplit(before, names);
      assert declared == before + [last];
    }
  }

  method SplitDeclared(declared: seq<string>, names: set<string>)
    returns (captured: seq<string>, unresolved: seq<string>)
    ensures captured == CapturedOf(declared, names) && unresolved == UnresolvedOf(declared, names)
  {
    captured, unresolved := [], [];
    for i := 0 to |declared|
      invariant captured == CapturedOf(declared[..i], names)
      invariant unresolved == UnresolvedOf(declared[..i], names)
    {
      assert declared[..i + 1][..i] == declared[..i];
      var normalized := NormalizePath(declared[i]);
      if normalized.Some? && normalized.value in names {
        captured := captured + [normalized.value];
      } else {
        unresolved := unresolved + [declared[i]];
      }
    }
    assert declared[..|declared|] == declared;
  }

  function BugStatus(d4: Dict): string {
    if IsOneOf(d4, "bug_status", BUG_STATUSES) then d4["bug_status"].s
    else if IsOneOf(d4, "poc_status", {"reproduced", "blocked", "falsified"}) then d4["poc_status"].s
    else "not_reproduced"
  }

  /** The claimed impact, taken back when the proof was not completely captured. */
  function ImpactStatus(d4: Dict, complete: bool): string {
    var claimed := if IsOneOf(d4, "impact_status", IMPACT_STATUSES) then d4["impact_status"].s else "unverified";
    if BugStatus(d4) == "reproduced" && !complete && claimed in D5_ELIGIBLE_IMPACTS then "blocked" else claimed
  }

  /** What an evidence block is, for a D4 result and the names in the captured manifest. */
  function EvidenceOf(
    d4: Dict, manifest: set<string>, captureComplete: bool, artifactDir: string, legacy: bool): Evidence
  {
    var complete := captureComplete && Strip(artifactDir) != "";
    Evidence(
      Some(Str(BugStatus(d4))), Some(Str(ImpactStatus(d4, complete))),
      Str(if HasText(d4, "blocker_kind") then TextOf(d4["blocker_kind"]) else "none"), Str(Strip(artifactDir)),
      Arr(StrItems(CapturedOf(DeclaredPaths(d4), Normalized(manifest)))),
      Arr(StrItems(UnresolvedOf(DeclaredPaths(d4), Normalized(manifest)))), Bool(complete), Bool(legacy))
  }

  method EvidenceBlock(
    d4: Dict, manifest: set<string>, captureComplete: bool, artifactDir: string, legacy: bool)
    returns (e: Evidence)
    ensures e == EvidenceOf(d4, manifest, captureComplete, artifactDir, legacy)
  {
    var dir := Strip(artifactDir);
    var complete := captureComplete && dir != "";
    var declared := FirstDeclarations(NonBlank(DeclaredRaw(d4)));
    var captured, unresolved := SplitDeclared(declared, Normalized(manifest));
    var blocker := TextOf(Get(d4, "blocker_kind"));
    e := Evidence(
      Some(Str(BugStatus(d4))), Some(Str(ImpactStatus(d4, complete))),
      Str(if blocker == "" then "none" else blocker), Str(dir),
      Arr(StrItems(captured)), Arr(StrItems(unresolved)), Bool(complete), Bool(legacy));
  }

  predicate Names(v: Option<Json>, names: set<string>) {
    v.Some? && v.value.Str? && v.value.s in names
  }

  /** `d5_eligible`. */
  predicate D5Eligible(e: Evidence) {
    && e.bugStatus == Some(Str("reproduced"))
    && TextOf(e.artifactDir) != ""
    && e.captureComplete == Bool(true)
    && Names(e.impactStatus, D5_ELIGIBLE_IMPACTS)
  }

  /** PostgreSQL's `->>`: SQL null, a text, or the text of a number, array or object, which is no word. */
  datatype SqlValue = SqlNull | SqlText(s: string) | SqlStructure

  function Sql(v: Json): SqlValue {
    match v
    case Null => SqlNull
    case Str(s) => SqlText(s)
    case Bool(b) => SqlText(if b then "true" else "false")
    case _ => SqlStructure
  }

  predicate SqlIn(v: Json, names: set<string>) {
    Sql(v).SqlText? && Sql(v).s in names
  }

  function OrNull(v: Option<Json>): Json {
    if v.Some? then v.value else Null
  }

  /** The predicate meant by `d4_eligibility_sql`, over a D3 result. */
  predicate D4Sql(result: Dict) {
    SqlIn(Get(result, "verdict"), D3_PASS_VERDICTS)
  }

  /** The predicate meant by `d5_eligibility_sql`, over the evidence of a D4 result. */
  predicate D5Sql(e: Evidence) {
    && SqlIn(OrNull(e.bugStatus), {"reproduced"})
    && SqlIn(OrNull(e.impactStatus), D5_ELIGIBLE_IMPACTS)
    && SqlIn(e.captureComplete, {"true"})
    && !Sql(e.artifactDir).SqlNull? && Sql(e.artifactDir) != SqlText("")
  }

  lemma StripEmptyIff(s: string)
    ensures Strip(s) == "" <==> Blank(s)
    ensures Strip("") == ""
  {
    BlankIffNothingLeft(s);
  }

  /** A word of the engine is selected by the SQL test of the same words, and by no other JSON value. */
  lemma WordsMirror(v: Option<Json>, names: set<string>)
    requires "true" !in names && "false" !in names
    ensures SqlIn(OrNull(v), names) <==> Names(v, names)
  {
  }

  lemma FlagMirrors(v: Json)
    ensures SqlIn(v, {"true"}) <==> v == Bool(true) || v == Str("true")
  {
  }

  lemma DirectoryMirrors(v: Json)
    ensures TextOf(v) != "" ==> !Sql(v).SqlNull? && Sql(v) != SqlText("")
    ensures TextOf(v) != "" <==> v.Str? && !Blank(v.s)
  {
    if v.Str? {
      StripEmptyIff(v.s);
    }
  }

  lemma ReproducedMirrors(v: Option<Json>)
    ensures SqlIn(OrNull(v), {"reproduced"}) <==> v == Some(Str("reproduced"))
  {
    WordsMirror(v, {"reproduced"});
  }

  lemma ImpactMirrors(v: Option<Json>)
    ensures SqlIn(OrNull(v), D5_ELIGIBLE_IMPACTS) <==> Names(v, D5_ELIGIBLE_IMPACTS)
  {
    WordsMirror(v, D5_ELIGIBLE_IMPACTS);
  }

  /** What the engine's predicate asks beyond the SQL gate: a Boolean flag, and a directory that is text. */
  predicate Stored(e: Evidence) {
    e.captureComplete.Bool? && e.artifactDir.Str? && !Blank(e.artifactDir.s)
  }

  /**
   The SQL gate selects everything the engine's predicate accepts. They agree on a row exactly when
   it is not selected or stores a Boolean completeness flag and a directory that is text.
   */
  lemma D5SqlMirrors(e: Evidence)
    ensures D5Eligible(e) ==> D5Sql(e)
    ensures (D5Sql(e) <==> D5Eligible(e)) <==> (D5Sql(e) ==> Stored(e))
  {
    ReproducedMirrors(e.bugStatus);
    ImpactMirrors(e.impactStatus);
    FlagMirrors(e.captureComplete);
    DirectoryMirrors(e.artifactDir);
  }

  /** A row with both statuses proven, a directory and a completeness flag. */
  function ProvenRow(artifactDir: Json, captureComplete: Json): Evidence {
    Evidence(
      Some(Str("reproduced")), Some(Str("proven")), Str("none"), artifactDir, Arr([]), Arr([]), captureComplete,
      Bool(false))
  }

  lemma FlagDiffers(e: Evidence)
    requires e == ProvenRow(Str("d"), Str("true"))
    ensures D5Sql(e) && !D5Eligible(e)
  {
    FlagMirrors(e.captureComplete);
  }

  lemma DirectoryDiffers(e: Evidence, dir: Json)
    requires e == ProvenRow(dir, Bool(true))
    requires dir != Null && dir != Str("") && (dir.Str? ==> Blank(dir.s))
    ensures D5Sql(e) && !D5Eligible(e)
  {
    DirectoryMirrors(dir);
  }

  lemma SpaceIsBlank(s: string)
    requires s == " "
    ensures Blank(s) && s != ""
  {
    assert |s| == 1 && s[0] == ' ';
  }

  /** They disagree on a flag that is the text `true`, on a blank directory and on one that is no text. */
  lemma D5SqlDiffers(e: Evidence)
    requires
      || e == ProvenRow(Str("d"), Str("true"))
      || e == ProvenRow(Str(" "), Bool(true))
      || e == ProvenRow(Arr([]), Bool(true))
    ensures D5Sql(e) && !D5Eligible(e)
  {
    if e.captureComplete.Str? {
      FlagDiffers(e);
    } else {
      if e.artifactDir.Str? {
        SpaceIsBlank(e.artifactDir.s);
      }
      DirectoryDiffers(e, e.artifactDir);
    }
  }

  lemma {:induction false} StripTwice(s: string)
    ensures Strip(Strip(s)) == Strip(s)
  {
    var t := Strip(s);
    if t != "" {
      var left := StripLeft(s);
      assert t[0] == left[0];
      StripFixed(t);
    }
  }

  // ---- What a block states ----

  predicate IsNoneOf(d: Dict, k: string, names: set<string>) {
    Get(d, k).Str? ==> Get(d, k).s !in names
  }

  /** A D4 result names a bug status: by `bug_status`, or where that is none of the four by `poc_status`. */
  predicate BugIs(d4: Dict, name: string) {
    || Get(d4, "bug_status") == Str(name)
    || (IsNoneOf(d4, "bug_status", {"reproduced", "not_reproduced", "blocked", "falsified"}) &&
        if name == "not_reproduced" then IsNoneOf(d4, "poc_status", {"reproduced", "blocked", "falsified"})
        else Get(d4, "poc_status") == Str(name))
  }

  /** A D4 result claims an impact; a claim that is none of the six is unverified. */
  predicate Claims(d4: Dict, name: string) {
    || Get(d4, "impact_status") == Str(name)
    || (name == "unverified" && IsNoneOf(
          d4, "impact_status", {"proven", "partial", "not_proven", "blocked", "falsified", "unverified"}))
  }

  /** The claim the D5 stage would accept of a reproduced bug, made without a complete capture. */
  predicate TakenBack(d4: Dict, captured: bool) {
    BugIs(d4, "reproduced") && !captured &&
    (Claims(d4, "proven") || Claims(d4, "partial") || Claims(d4, "not_proven"))
  }

  lemma BugStatusIs(d4: Dict, name: string)
    requires name in {"reproduced", "not_reproduced", "blocked", "falsified"}
    ensures BugStatus(d4) == name <==> BugIs(d4, name)
  {
  }

  lemma ClaimIs(d4: Dict, name: string)
    requires name in {"proven", "partial", "not_proven", "blocked", "falsified", "unverified"}
    ensures ImpactStatus(d4, true) == name <==> Claims(d4, name)
  {
  }

  lemma ImpactStatusIs(d4: Dict, captured: bool, name: string)
    requires name in {"proven", "partial", "not_proven", "blocked", "falsified", "unverified"}
    ensures ImpactStatus(d4, captured) == name <==>
      if TakenBack(d4, captured) then name == "blocked" else Claims(d4, name)
  {
    BugStatusIs(d4, "reproduced");
    ClaimIs(d4, name);
    ClaimIs(d4, "proven");
    ClaimIs(d4, "partial");
    ClaimIs(d4, "not_proven");
  }

  /** The statuses an engine block states, from the fields of the D4 result alone. */
  lemma BlockStates(
    d4: Dict, manifest: set<string>, captureComplete: bool, artifactDir: string, legacy: bool, bug: string,
    impact: string)
    requires bug in {"reproduced", "not_reproduced", "blocked", "falsified"}
    requires impact in {"proven", "partial", "not_proven", "blocked", "falsified", "unverified"}
    ensures var e := EvidenceOf(d4, manifest, captureComplete, artifactDir, legacy);
            var captured := captureComplete && !Blank(artifactDir);
            && (e.bugStatus == Some(Str(bug)) <==> BugIs(d4, bug))
            && (e.impactStatus == Some(Str(impact)) <==>
                  if TakenBack(d4, captured) then impact == "blocked" else Claims(d4, impact))
            && e.captureComplete == Bool(captured) && e.legacy == Bool(legacy)
  {
    StripEmptyIff(artifactDir);
    BugStatusIs(d4, bug);
    ImpactStatusIs(d4, captureComplete && !Blank(artifactDir), impact);
  }

  /** The directory and the blocker, without outer blanks; a blank blocker is none. */
  lemma BlockTexts(d4: Dict, manifest: set<string>, captureComplete: bool, artifactDir: string, legacy: bool)
    ensures var e := EvidenceOf(d4, manifest, captureComplete, artifactDir, legacy);
            && e.artifactDir.Str? && Trimmed(IsSpace, artifactDir, e.artifactDir.s)
            && e.blockerKind.Str?
            && if Get(d4, "blocker_kind").Str? && !Blank(Get(d4, "blocker_kind").s)
               then Trimmed(IsSpace, Get(d4, "blocker_kind").s, e.blockerKind.s)
               else e.blockerKind.s == "none"
  {
    StripIs(artifactDir);
    if Get(d4, "blocker_kind").Str? {
      StripIs(Get(d4, "blocker_kind").s);
      StripEmptyIff(Get(d4, "blocker_kind").s);
    }
  }

  lemma EligibleIs(e: Evidence)
    ensures D5Eligible(e) <==>
      && e.bugStatus == Some(Str("reproduced")) && e.captureComplete == Bool(true)
      && e.artifactDir.Str? && !Blank(e.artifactDir.s)
      && (e.impactStatus == Some(Str("proven")) || e.impactStatus == Some(Str("partial"))
          || e.impactStatus == Some(Str("not_proven")))
  {
    DirectoryMirrors(e.artifactDir);
  }

  /** The directory an engine block states is blank exactly when the given one is. */
  lemma BlockDirectory(artifactDir: string)
    ensures Blank(Strip(artifactDir)) <==> Blank(artifactDir)
  {
    StripTwice(artifactDir);
    StripEmptyIff(artifactDir);
    StripEmptyIff(Strip(artifactDir));
  }

  /**
   An engine block is eligible for D5 exactly when the bug is reproduced, the capture is complete, the
   directory is not blank and the claimed impact is one of the three.
   */
  lemma BlockIsEligible(d4: Dict, manifest: set<string>, captureComplete: bool, artifactDir: string, legacy: bool)
    ensures D5Eligible(EvidenceOf(d4, manifest, captureComplete, artifactDir, legacy)) <==>
      && BugIs(d4, "reproduced") && captureComplete && !Blank(artifactDir)
      && (Get(d4, "impact_status") == Str("proven") || Get(d4, "impact_status") == Str("partial")
          || Get(d4, "impact_status") == Str("not_proven"))
  {
    var e := EvidenceOf(d4, manifest, captureComplete, artifactDir, legacy);
    EligibleIs(e);
    BlockDirectory(artifactDir);
    assert e.artifactDir == Str(Strip(artifactDir));
    BlockStates(d4, manifest, captureComplete, artifactDir, legacy, "reproduced", "proven");
    BlockStates(d4, manifest, captureComplete, artifactDir, legacy, "reproduced", "partial");
    BlockStates(d4, manifest, captureComplete, artifactDir, legacy, "reproduced", "not_proven");
  }

  // ---- Each path is captured once ----

  /** A kept text has the key it was kept for. */
  predicate KeyedByText(items: seq<Declared>, key: string -> string) {
    forall d | d in items :: key(d.text) == d.key
  }

  lemma KeyOfStripped(raw: string)
    ensures PathKey(Strip(raw)) == PathKey(raw)
  {
    StripTwice(raw);
    assert Parts(Strip(raw)) == Parts(raw);
  }

  lemma NonBlankAreKeyed(raws: seq<string>)
    ensures KeyedByText(NonBlank(raws), PathKey)
  {
    forall d | d in NonBlank(raws) ensures PathKey(d.text) == d.key {
      var raw := NonBlankComes(raws, d);
      KeyOfStripped(raw);
    }
  }

  lemma KeptKey(items: seq<Declared>, key: string -> string, t: string)
    requires KeyedByText(items, key) && t in FirstOfEachKey(items)
    ensures key(t) in KeySet(items)
  {
    var i := KeptTextsAreFirst(items, t);
    assert items[i] in items;
  }

  lemma {:induction false} KeptKeysDiffer(items: seq<Declared>, key: string -> string)
    requires KeyedByText(items, key)
    ensures Sorting.Distinct(FirstOfEachKey(items), key)
  {
    if items != [] {
      var before, last := items[..|items| - 1], items[|items| - 1];
      assert last in items && KeyedByText(before, key);
      KeptKeysDiffer(before, key);
      if last.key !in KeySet(before) {
        forall t | t in FirstOfEachKey(before) ensures key(t) != key(last.text) {
          KeptKey(before, key, t);
        }
        Sorting.DistinctJoin(FirstOfEachKey(before), [last.text], key);
      }
    }
  }

  lemma CapturedKey(declared: seq<string>, names: set<string>, p: string) returns (raw: string)
    requires p in CapturedOf(declared, names)
    ensures raw in declared && PathKey(raw) == p
  {
    CapturedMember(declared, names, p);
    raw :| raw in declared && Captures(names, raw) && NormalizePath(raw).value == p;
  }

  function AsIs(p: string): string {
    p
  }

  lemma {:induction false} CapturedDiffer(declared: seq<string>, names: set<string>)
    requires Sorting.Distinct(declared, PathKey)
    ensures Sorting.Distinct(CapturedOf(declared, names), AsIs)
  {
    if declared != [] {
      var n := |declared| - 1;
      CapturedDiffer(declared[..n], names);
      if Captures(names, declared[n]) {
        NewlyCaptured(declared, names);
        Sorting.DistinctJoin(CapturedOf(declared[..n], names), [NormalizePath(declared[n]).value], AsIs);
      }
    }
  }

  lemma NewlyCaptured(declared: seq<string>, names: set<string>)
    requires declared != [] && Sorting.Distinct(declared, PathKey) && Captures(names, declared[|declared| - 1])
    ensures NormalizePath(declared[|declared| - 1]).value !in CapturedOf(declared[..|declared| - 1], names)
  {
    var n := |declared| - 1;
    forall p | p in CapturedOf(declared[..n], names) ensures p != PathKey(declared[n]) {
      var raw := CapturedKey(declared[..n], names, p);
      var i :| 0 <= i < n && declared[i] == raw;
    }
  }

  /** However often a path is declared, in whatever spelling, its canonical form is captured once. */
  lemma CapturedOnce(d4: Dict, names: set<string>)
    ensures Sorting.Distinct(DeclaredPaths(d4), PathKey)
    ensures Sorting.Distinct(CapturedOf(DeclaredPaths(d4), names), AsIs)
  {
    NonBlankAreKeyed(DeclaredRaw(d4));
    KeptKeysDiffer(NonBlank(DeclaredRaw(d4)), PathKey);
    CapturedDiffer(DeclaredPaths(d4), names);
  }

  // ---- Which paths are captured ----

  /** A list in a document has a text. */
  predicate Lists(v: Json, text: string) {
    v.Arr? && Str(text) in v.items
  }

  /** A list of rows in a document cites an evidence path. */
  ghost predicate Cites(v: Json, path: string) {
    v.Arr? && exists row: Dict :: Obj(row) in v.items && Lists(Get(row, "evidence_paths"), path)
  }

  lemma {:induction false} AllPathsMember(rows: seq<Dict>, path: string)
    ensures path in AllPaths(rows) <==> exists row :: row in rows && Lists(Get(row, "evidence_paths"), path)
  {
    if rows != [] {
      AllPathsMember(rows[1..], path);
      assert forall row :: row in rows <==> row == rows[0] || row in rows[1..];
    }
  }

  lemma AllPathsAreCited(v: Json, path: string)
    ensures path in AllPaths(Rows(v)) <==> Cites(v, path)
  {
    AllPathsMember(Rows(v), path);
    assert forall row :: row in Rows(v) <==> v.Arr? && Obj(row) in v.items;
  }

  /** A path the D4 result declares: as an artifact of the bug or the impact, or in its chain. */
  ghost predicate Declares(d4: Dict, raw: string) {
    || Lists(Get(d4, "poc_artifact_paths"), raw) || Lists(Get(d4, "impact_artifact_paths"), raw)
    || Cites(Get(d4, "impact_chain"), raw)
  }

  lemma DeclaredRawIs(d4: Dict, raw: string)
    ensures raw in DeclaredRaw(d4) <==> Declares(d4, raw)
  {
    AllPathsAreCited(Get(d4, "impact_chain"), raw);
  }

  lemma {:induction false} NonBlankKeeps(raws: seq<string>, raw: string)
    requires raw in raws && !Blank(raw)
    ensures Declared(PathKey(raw), Strip(raw)) in NonBlank(raws)
  {
    if raws[0] != raw {
      NonBlankKeeps(raws[1..], raw);
    }
  }

  lemma NonBlankComes(raws: seq<string>, d: Declared) returns (raw: string)
    requires d in NonBlank(raws)
    ensures raw in raws && !Blank(raw) && d == Declared(PathKey(raw), Strip(raw))
  {
    if d in NonBlank(raws[1..]) {
      raw := NonBlankComes(raws[1..], d);
    } else {
      raw := raws[0];
    }
  }

  lemma NormalizeStripped(raw: string)
    ensures NormalizePath(Strip(raw)) == NormalizePath(raw)
  {
    StripTwice(raw);
    assert Parts(Strip(raw)) == Parts(raw);
  }

  /** A text that normalizes to nothing shares its key with no canonical path. */
  lemma KeysApart(raw: string, other: string, p: string)
    requires NormalizePath(raw) == Some(p) && PathKey(other) == p
    ensures NormalizePath(other) == Some(p)
  {
    if NormalizePath(other).None? {
      NormalizeStripped(other);
      TwiceIffEnds(raw, p);
      StripIs(other);
      assert NormalizePath(p) == Some(p);
    }
  }

  /** A declared path in canonical form stays declared: one of its spellings is kept. */
  lemma DeclaredStays(d4: Dict, raw: string, p: string) returns (text: string)
    requires raw in DeclaredRaw(d4) && NormalizePath(raw) == Some(p)
    ensures text in DeclaredPaths(d4) && NormalizePath(text) == Some(p)
  {
    var items := NonBlank(DeclaredRaw(d4));
    StripEmptyIff(raw);
    NonBlankKeeps(DeclaredRaw(d4), raw);
    var i := EveryKeyIsFirst(items, p);
    FirstTextsAreKept(items, i);
    NonBlankAreKeyed(DeclaredRaw(d4));
    assert items[i] in items;
    text := items[i].text;
    KeysApart(raw, text, p);
  }

  lemma DeclaredComes(d4: Dict, text: string) returns (raw: string)
    requires text in DeclaredPaths(d4)
    ensures raw in DeclaredRaw(d4) && NormalizePath(raw) == NormalizePath(text)
  {
    var items := NonBlank(DeclaredRaw(d4));
    var i := KeptTextsAreFirst(items, text);
    assert items[i] in items;
    raw := NonBlankComes(DeclaredRaw(d4), items[i]);
    NormalizeStripped(raw);
  }

  /** A block captures exactly the canonical forms that both the D4 result declares and the manifest has. */
  lemma BlockCaptures(
    d4: Dict, manifest: set<string>, captureComplete: bool, artifactDir: string, legacy: bool, p: string)
    ensures p in Strings(EvidenceOf(d4, manifest, captureComplete, artifactDir, legacy).capturedPaths) <==>
      && (exists name :: name in manifest && NormalizePath(name) == Some(p))
      && (exists raw :: Declares(d4, raw) && NormalizePath(raw) == Some(p))
  {
    var names, declared := Normalized(manifest), DeclaredPaths(d4);
    StringsOfStrItems(CapturedOf(declared, names));
    if p in CapturedOf(declared, names) {
      CapturedMember(declared, names, p);
      var text :| text in declared && Captures(names, text) && NormalizePath(text).value == p;
      var raw := DeclaredComes(d4, text);
      DeclaredRawIs(d4, raw);
    }
    if name, raw :| name in manifest && NormalizePath(name) == Some(p) && Declares(d4, raw)
                    && NormalizePath(raw) == Some(p) {
      DeclaredRawIs(d4, raw);
      var text := DeclaredStays(d4, raw, p);
      DeclaredAreSplit(declared, names);
      assert Captures(names, text);
    }
  }

  // ---- In which order, and which are not ----

  /** The positions of the first statements of the keys, in order. */
  ghost predicate KeptAt(items: seq<Declared>, kept: seq<string>, at: seq<nat>) {
    && |at| == |kept|
    && (forall k | 0 <= k < |at| :: FirstAt(items, at[k]) && items[at[k]].text == kept[k])
    && Ascending(at)
    && forall i: nat | FirstAt(items, i) :: i in at
  }

  lemma {:induction false} KeptFront(items: seq<Declared>, kept: seq<string>, at: seq<nat>)
    requires items != [] && KeptAt(items[..|items| - 1], kept, at)
    ensures forall k | 0 <= k < |at| ::
      at[k] < |items| - 1 && FirstAt(items, at[k]) && items[at[k]].text == kept[k]
    ensures forall i: nat | i < |items| - 1 && FirstAt(items, i) :: i in at
  {
    forall i: nat | i < |items| - 1 ensures FirstAt(items[..|items| - 1], i) <==> FirstAt(items, i) {
      FirstAtBefore(items, i);
    }
  }

  ghost predicate Ascending(at: seq<nat>) {
    forall j, k | 0 <= j < k < |at| :: at[j] < at[k]
  }

  lemma {:induction false} OneMoreAt(at: seq<nat>, n: nat)
    requires Ascending(at) && forall k | 0 <= k < |at| :: at[k] < n
    ensures Ascending(at + [n]) && n in at + [n] && forall i | i in at :: i in at + [n]
  {
    assert (at + [n])[|at|] == n;
  }

  /** The kept texts stand in the order in which their keys are first stated. */
  lemma {:induction false} KeptInOrder(items: seq<Declared>) returns (at: seq<nat>)
    ensures KeptAt(items, FirstOfEachKey(items), at)
  {
    if items == [] {
      at := [];
    } else {
      var n := |items| - 1;
      var before := FirstOfEachKey(items[..n]);
      at := KeptInOrder(items[..n]);
      KeptFront(items, before, at);
      if FirstAt(items, n) {
        OneMoreAt(at, n);
        KeptLast(items, before, at, n);
        at := at + [n];
      }
    }
  }

  lemma {:induction false} KeptLast(items: seq<Declared>, before: seq<string>, at: seq<nat>, n: nat)
    requires n == |items| - 1 && FirstAt(items, n) && |at| == |before| && Ascending(at + [n])
    requires forall k | 0 <= k < |at| :: FirstAt(items, at[k]) && items[at[k]].text == before[k]
    requires forall i: nat | i < n && FirstAt(items, i) :: i in at
    ensures KeptAt(items, before + [items[n].text], at + [n])
  {
    forall i: nat | FirstAt(items, i) ensures i in at + [n] {
      assert i < n ==> i in at;
      assert (at + [n])[|at|] == n;
    }
  }

  type Picker = string -> Option<string>

  /** What is made of the texts that are taken, in order. */
  function Picked(pick: Picker, texts: seq<string>): seq<string> {
    if texts == [] then []
    else
      var before, last := texts[..|texts| - 1], texts[|texts| - 1];
      Picked(pick, before) + (if pick(last).Some? then [pick(last).value] else [])
  }

  /** The positions of the texts that are taken, in order. */
  ghost predicate PickedAt(pick: Picker, texts: seq<string>, picked: seq<string>, at: seq<nat>) {
    && |at| == |picked| && Ascending(at)
    && (forall k | 0 <= k < |at| :: at[k] < |texts| && pick(texts[at[k]]) == Some(picked[k]))
    && forall i: nat | i < |texts| && pick(texts[i]).Some? :: i in at
  }

  lemma {:induction false} PickedLast(pick: Picker, texts: seq<string>, picked: seq<string>, at: seq<nat>, last: string)
    requires PickedAt(pick, texts, picked, at)
    ensures pick(last).None? ==> PickedAt(pick, texts + [last], picked, at)
    ensures pick(last).Some? ==> PickedAt(pick, texts + [last], picked + [pick(last).value], at + [|texts|])
  {
    OneMoreAt(at, |texts|);
    assert forall i | 0 <= i < |texts| :: (texts + [last])[i] == texts[i];
    if pick(last).Some? {
      var more, positions := picked + [pick(last).value], at + [|texts|];
      forall k | 0 <= k < |positions|
        ensures positions[k] < |texts| + 1 && pick((texts + [last])[positions[k]]) == Some(more[k])
      {
        if k < |at| {
          assert positions[k] == at[k] && more[k] == picked[k];
        }
      }
    }
  }

  lemma {:induction false} PickedInOrder(pick: Picker, texts: seq<string>) returns (at: seq<nat>)
    ensures PickedAt(pick, texts, Picked(pick, texts), at)
  {
    if texts == [] {
      at := [];
    } else {
      var n := |texts| - 1;
      var before, last := texts[..n], texts[n];
      var some := PickedInOrder(pick, before);
      PickedLast(pick, before, Picked(pick, before), some, last);
      assert texts == before + [last];
      at := if pick(last).Some? then some + [n] else some;
      assert Picked(pick, before) + [] == Picked(pick, before);
    }
  }

  /** A captured text's canonical form. */
  function CapturedForm(names: set<string>): Picker {
    raw => if Captures(names, raw) then NormalizePath(raw) else None
  }

  lemma {:induction false} CapturedArePicked(declared: seq<string>, names: set<string>)
    ensures CapturedOf(declared, names) == Picked(CapturedForm(names), declared)
  {
    if declared != [] {
      CapturedArePicked(declared[..|declared| - 1], names);
    }
  }

  /** The captured paths stand in the order of their declarations. */
  lemma CapturedInOrder(declared: seq<string>, names: set<string>) returns (at: seq<nat>)
    ensures PickedAt(CapturedForm(names), declared, CapturedOf(declared, names), at)
  {
    CapturedArePicked(declared, names);
    at := PickedInOrder(CapturedForm(names), declared);
  }

  /** A declared text, without its outer blanks, that no name in the manifest stands for. */
  ghost predicate Unresolved(d4: Dict, manifest: set<string>, text: string) {
    && (exists raw :: Declares(d4, raw) && !Blank(raw) && Trimmed(IsSpace, raw, text))
    && !(NormalizePath(text).Some? &&
         exists name :: name in manifest && NormalizePath(name) == NormalizePath(text))
  }

  lemma {:induction false} NormalizedHas(manifest: set<string>, text: string)
    ensures Captures(Normalized(manifest), text) <==>
      NormalizePath(text).Some? && exists name :: name in manifest && NormalizePath(name) == NormalizePath(text)
  {
  }

  lemma {:induction false} KeptIsDeclared(d4: Dict, text: string)
    requires text in DeclaredPaths(d4)
    ensures exists raw :: Declares(d4, raw) && !Blank(raw) && Trimmed(IsSpace, raw, text)
  {
    var items := NonBlank(DeclaredRaw(d4));
    var i := KeptTextsAreFirst(items, text);
    assert items[i] in items;
    var raw := NonBlankComes(DeclaredRaw(d4), items[i]);
    DeclaredRawIs(d4, raw);
    StripIs(raw);
  }

  /**
   A block leaves unresolved only declared texts that nothing captured stands for; and of every such
   text it leaves one spelling, that is, one with the same key.
   */
  lemma {:induction false} BlockLeaves(
    d4: Dict, manifest: set<string>, captureComplete: bool, artifactDir: string, legacy: bool, text: string)
    ensures var left := Strings(EvidenceOf(d4, manifest, captureComplete, artifactDir, legacy).unresolvedPaths);
            && (text in left ==> Unresolved(d4, manifest, text))
            && (Unresolved(d4, manifest, text) ==>
                  exists other :: other in left && PathKey(other) == PathKey(text))
  {
    var names, declared := Normalized(manifest), DeclaredPaths(d4);
    StringsOfStrItems(UnresolvedOf(declared, names));
    DeclaredAreSplit(declared, names);
    NormalizedHas(manifest, text);
    if text in UnresolvedOf(declared, names) {
      KeptIsDeclared(d4, text);
    }
    if Unresolved(d4, manifest, text) {
      var other := LeftSpelling(d4, manifest, text);
    }
  }

  lemma {:induction false} LeftSpelling(d4: Dict, manifest: set<string>, text: string) returns (other: string)
    requires Unresolved(d4, manifest, text)
    ensures other in UnresolvedOf(DeclaredPaths(d4), Normalized(manifest)) && PathKey(other) == PathKey(text)
  {
    var raw :| Declares(d4, raw) && !Blank(raw) && Trimmed(IsSpace, raw, text);
    StripIs(raw);
    TrimmedOnce(IsSpace, raw, text, Strip(raw));
    DeclaredRawIs(d4, raw);
    var items := NonBlank(DeclaredRaw(d4));
    NonBlankKeeps(DeclaredRaw(d4), raw);
    assert Declared(PathKey(raw), Strip(raw)) in items;
    KeyOfStripped(raw);
    var i := EveryKeyIsFirst(items, PathKey(raw));
    FirstTextsAreKept(items, i);
    NonBlankAreKeyed(DeclaredRaw(d4));
    assert items[i] in items;
    other := items[i].text;
    SameKeyCaptured(Normalized(manifest), text, other);
    NormalizedHas(manifest, text);
    DeclaredAreSplit(DeclaredPaths(d4), Normalized(manifest));
  }

  /** Texts with the same key are captured alike. */
  lemma {:induction false} SameKeyCaptured(names: set<string>, text: string, other: string)
    requires PathKey(other) == PathKey(text)
    ensures Captures(names, other) <==> Captures(names, text)
  {
    if NormalizePath(text).Some? {
      KeysApart(text, other, PathKey(text));
    } else if NormalizePath(other).Some? {
      KeysApart(other, text, PathKey(other));
    }
  }

  /** For every block the engine writes, the SQL gate and the engine's predicate agree. */
  lemma SqlAgreesOnBlocks(d4: Dict, manifest: set<string>, captureComplete: bool, artifactDir: string, legacy: bool)
    ensures var e := EvidenceOf(d4, manifest, captureComplete, artifactDir, legacy);
            D5Sql(e) <==> D5Eligible(e)
  {
    D5SqlMirrors(EvidenceOf(d4, manifest, captureComplete, artifactDir, legacy));
    StripTwice(artifactDir);
    StripEmptyIff(Strip(artifactDir));
  }
}
