/**
 The static checker of generated workflows: which names the prompts of each depth may mention
 (engine/open_kritt_engine/generation.py), and why every accepted name is there at run time.
 */
module WorkflowScope {
  import opened Wrappers
  import opened JsonValues
  import opened Text
  import opened WorkflowQueue
  import opened QueueProperties
  import Schemas = OutputSchema
  import Formats = OutputFormats
  import opened QueueContexts
  import Sorting

  const BUILTIN_KEYS: set<string> := {
    "repo_full", "commit_sha", "repo_scope", "dependencies", "configuration",
    "workspace_root", "workspace_layout", "workspace_manifest_json"}
  const EXTRA_KEY := "extra"
  const UNSAFE_KEYS: set<string> := {"__proto__", "constructor", "prototype"}
  const REQUIRED_KEYS: map<string, string> := map[
    "explanation" := "string", "file_path" := "string", "line" := "number",
    "malicious_input_example" := "string", "summary" := "string", "trigger_flow" := "array",
    "vulnerability_type" := "string", "malicious_actor" := "string"]
  const EXPLOITABLE := "exploitable"

  /** A drafted step: its prompt, already scanned for `{{...}}` references. */
  datatype StepDraft = StepDraft(name: string, content: string, refs: seq<string>, strayBraces: bool)

  datatype LevelDraft = LevelDraft(
    depth: int, multiOutput: bool, consumesAll: bool, outputFormat: Schemas.Format, steps: seq<StepDraft>)

  /** What the checker reports about a draft, and where. */
  datatype DraftFault =
    | NoName | NoDescription | NoLevels | NegativeDepth | DuplicateDepth | NoRootDepth | MissingDepth(depth: int)
    | EmptyFormat(depth: int) | InvalidKey(depth: int, key: string) | ReservedName(depth: int, key: string)
    | DuplicateKey(depth: int, key: string) | InvalidDefinition(depth: int, key: string, cause: Schemas.Located)
    | NoSteps(depth: int) | NoStepName(depth: int, step: nat) | NoContent(depth: int, step: nat)
    | MalformedReference(depth: int, step: nat) | UndefinedReferences(depth: int, step: nat, refs: set<string>)
    | RequiredKeysMissing(keys: set<string>) | WrongTerminalType(key: string)

  // ---- Names and references ----

  predicate IsWordStart(c: char) {
    'a' <= c <= 'z' || 'A' <= c <= 'Z' || c == '_'
  }

  predicate IsIdentifier(s: string) {
    s != [] && IsWordStart(s[0]) && forall i | 0 < i < |s| :: IsWordStart(s[i]) || IsDigit(s[i])
  }

  /** `is_valid_key`. */
  predicate IsValidKey(s: string) {
    IsIdentifier(s) && s !in UNSAFE_KEYS
  }

  predicate IsReservedName(s: string) {
    s in BUILTIN_KEYS || s == EXTRA_KEY || IsBatchKey(s)
  }

  /** `VALID_REF_RE`. */
  predicate IsValidRef(s: string) {
    s != [] && forall i | 0 <= i < |s| :: IsWordStart(s[i]) || IsDigit(s[i]) || s[i] == '.'
  }

  /** `is_extra_ref`: `extra`, or `extra.` followed by a valid key. */
  predicate IsExtraRef(s: string) {
    s == EXTRA_KEY || (EXTRA_KEY + "." <= s && IsValidKey(s[|EXTRA_KEY| + 1..]))
  }

  /** `resolve_ref`: walk the parts; a missing or non-object step renders as null. */
  function ResolveParts(parts: seq<string>, value: Json): Json {
    if parts == [] then value
    else if value.Obj? then
      ResolveParts(parts[1..], if parts[0] in value.fields then value.fields[parts[0]] else Null)
    else Null
  }

  function ResolveRef(ref: string, context: Context): Json {
    ResolveParts(Split(ref, '.'), Obj(context))
  }

  // ---- Depths ----

  function DepthTag(level: LevelDraft): int {
    level.depth
  }

  function DepthSet(levels: seq<LevelDraft>): (r: set<int>)
    ensures forall d :: d in r <==> HasLevel(levels, d)
  {
    assert forall d :: d in Sorting.TagSet(levels, DepthTag) <==> HasLevel(levels, d) by {
      forall d ensures d in Sorting.TagSet(levels, DepthTag) <==> HasLevel(levels, d) {
        Sorting.TagSetMember(levels, DepthTag, d);
        if d in Sorting.TagSet(levels, DepthTag) {
          var l :| l in levels && DepthTag(l) == d;
        }
        if HasLevel(levels, d) {
          var l :| l in levels && l.depth == d;
          assert DepthTag(l) == d;
        }
      }
    }
    Sorting.TagSet(levels, DepthTag)
  }

  predicate HasLevel(levels: seq<LevelDraft>, depth: int) {
    exists l :: l in levels && l.depth == depth
  }

  /** `levels_by_depth`: the last level drafted for a depth. */
  function LevelAt(levels: seq<LevelDraft>, depth: int): (r: Option<LevelDraft>)
    ensures r.Some? ==> r.value in levels && r.value.depth == depth
    ensures r.None? ==> !HasLevel(levels, depth)
  {
    if levels == [] then None
    else if levels[|levels| - 1].depth == depth then Some(levels[|levels| - 1])
    else
      assert forall l | l in levels :: l == levels[|levels| - 1] || l in levels[..|levels| - 1];
      LevelAt(levels[..|levels| - 1], depth)
  }

  ghost predicate UniqueDepths(levels: seq<LevelDraft>) {
    Sorting.Distinct(levels, DepthTag)
  }

  /** Each depth once, and contiguous from 0. */
  ghost predicate DepthsOk(levels: seq<LevelDraft>) {
    UniqueDepths(levels) && forall d | 0 <= d < |levels| :: HasLevel(levels, d)
  }

  // ---- Scopes ----

  function BatchKeys(names: set<string>): set<string> {
    set k | k in names && IsBatchKey(k)
  }

  predicate Collapses(levels: seq<LevelDraft>, depth: nat) {
    depth > 0 && LevelAt(levels, depth - 1).Some? &&
    LevelAt(levels, depth).Some? && LevelAt(levels, depth).value.consumesAll
  }

  /** A collapsing depth keeps the built-in names and the batches, and adds the batch of the depth before. */
  function Collapsed(base: set<string>, levels: seq<LevelDraft>, depth: nat, names: set<string>): set<string> {
    if Collapses(levels, depth) then base + BatchKeys(names) + {BatchKey(depth - 1)} else names
  }

  function KeysAt(levels: seq<LevelDraft>, depth: nat): set<string> {
    if LevelAt(levels, depth).Some? then LevelAt(levels, depth).value.outputFormat.Keys else {}
  }

  /** The names that reach a depth, before it collapses anything; `base` is the built-in names. */
  function Arriving(base: set<string>, levels: seq<LevelDraft>, depth: nat): set<string> {
    if depth == 0 then base
    else Collapsed(base, levels, depth - 1, Arriving(base, levels, depth - 1)) + KeysAt(levels, depth - 1)
  }

  /** The names a prompt of this depth may mention. */
  function Scope(base: set<string>, levels: seq<LevelDraft>, depth: nat): set<string> {
    Collapsed(base, levels, depth, Arriving(base, levels, depth))
  }

  // ---- Accepted drafts ----

  predicate StepOk(step: StepDraft, scope: set<string>) {
    && !Blank(step.name) && !Blank(step.content) && !step.strayBraces
    && forall ref | ref in step.refs :: IsValidRef(ref) && (ref in scope || IsExtraRef(ref))
  }

  /** How many levels declare a key. */
  function KeyCount(levels: seq<LevelDraft>, key: string): nat {
    if levels == [] then 0
    else (if key in levels[|levels| - 1].outputFormat then 1 else 0) + KeyCount(levels[..|levels| - 1], key)
  }

  /** Some level declares the key; two levels do. */
  lemma {:induction false} KeyCountIs(levels: seq<LevelDraft>, key: string)
    ensures KeyCount(levels, key) == 0 <==> forall i | 0 <= i < |levels| :: key !in levels[i].outputFormat
    ensures KeyCount(levels, key) <= 1 <==> forall i, j | 0 <= i < j < |levels| ::
      !(key in levels[i].outputFormat && key in levels[j].outputFormat)
  {
    if levels != [] {
      var n := |levels| - 1;
      KeyCountIs(levels[..n], key);
      assert forall i | 0 <= i < n :: levels[..n][i] == levels[i];
      if key in levels[n].outputFormat && KeyCount(levels[..n], key) > 0 {
        var i :| 0 <= i < n && key in levels[..n][i].outputFormat;
        assert key in levels[i].outputFormat;
      }
    }
  }

  ghost predicate KeyOk(levels: seq<LevelDraft>, key: string, definition: Json) {
    IsValidKey(key) && !IsReservedName(key) && KeyCount(levels, key) <= 1 && Schemas.ValidField(key, definition)
  }

  ghost predicate FormatOk(levels: seq<LevelDraft>, format: Schemas.Format) {
    format != map[] && forall k | k in format :: KeyOk(levels, k, format[k])
  }

  ghost predicate LevelOk(levels: seq<LevelDraft>, level: LevelDraft) {
    && level.depth >= 0
    && FormatOk(levels, level.outputFormat)
    && level.steps != []
    && forall step | step in level.steps :: StepOk(step, Scope(BUILTIN_KEYS, levels, level.depth))
  }

  ghost predicate LevelsOk(levels: seq<LevelDraft>, some: seq<LevelDraft>) {
    forall l | l in some :: LevelOk(levels, l)
  }

  function MissingKeys(format: Schemas.Format, required: map<string, string>): set<string> {
    required.Keys - format.Keys
  }

  /** A required key of another type, where a null definition is passed over; or a flag that is not Boolean. */
  predicate WrongType(format: Schemas.Format, required: map<string, string>, key: string) {
    || (key in required && key in format && format[key] != Null && format[key] != Str(required[key]))
    || (key == EXPLOITABLE && key in format && format[key] != Str("boolean"))
  }

  predicate TerminalOk(format: Schemas.Format) {
    && MissingKeys(format, REQUIRED_KEYS) == {}
    && forall key | key in format :: !WrongType(format, REQUIRED_KEYS, key)
  }

  /** The level at this depth, if there is one, ends in the required keys. */
  predicate TerminalAt(levels: seq<LevelDraft>, depth: int) {
    LevelAt(levels, depth).Some? ==> TerminalOk(LevelAt(levels, depth).value.outputFormat)
  }

  /** The drafts the checker accepts. */
  ghost predicate ArtifactOk(name: string, description: string, levels: seq<LevelDraft>) {
    && !Blank(name) && !Blank(description) && levels != []
    && DepthsOk(levels)
    && LevelsOk(levels, levels)
    && LevelAt(levels, |levels| - 1).Some? && TerminalOk(LevelAt(levels, |levels| - 1).value.outputFormat)
  }

  // ---- What each fault says of a draft ----

  /** The names a prompt of a level may mention; a negative depth has the built-in names. */
  function ScopeAt(base: set<string>, levels: seq<LevelDraft>, depth: int): set<string> {
    if depth < 0 then base else Scope(base, levels, depth)
  }

  function MaxDepth(levels: seq<LevelDraft>): (greatest: int)
    requires levels != []
    ensures HasLevel(levels, greatest) && forall l | l in levels :: l.depth <= greatest
  {
    var before, last := levels[..|levels| - 1], levels[|levels| - 1];
    assert levels == before + [last];
    if before == [] || MaxDepth(before) <= last.depth then last.depth else MaxDepth(before)
  }

  predicate MalformedRef(step: StepDraft) {
    step.strayBraces || exists ref :: ref in step.refs && !IsValidRef(ref)
  }

  function UndefinedRefs(step: StepDraft, scope: set<string>): set<string> {
    set ref | ref in step.refs && IsValidRef(ref) && ref !in scope && !IsExtraRef(ref)
  }

  predicate StepFault(step: StepDraft, depth: int, i: nat, scope: set<string>, f: DraftFault) {
    || (f == NoStepName(depth, i) && Blank(step.name))
    || (f == NoContent(depth, i) && Blank(step.content))
    || (f == MalformedReference(depth, i) && !Blank(step.content) && MalformedRef(step))
    || (f == UndefinedReferences(depth, i, UndefinedRefs(step, scope)) && !Blank(step.content)
        && UndefinedRefs(step, scope) != {})
  }

  ghost predicate KeyFault(levels: seq<LevelDraft>, depth: int, key: string, definition: Json, f: DraftFault) {
    || (f == InvalidKey(depth, key) && !IsValidKey(key))
    || (f == ReservedName(depth, key) && IsReservedName(key))
    || (f == DuplicateKey(depth, key) && KeyCount(levels, key) > 1)
    || (f.InvalidDefinition? && f.depth == depth && f.key == key && Schemas.KeyFault(key, definition, f.cause))
  }

  ghost predicate FormatFault(levels: seq<LevelDraft>, depth: int, format: Schemas.Format, f: DraftFault) {
    || (f == EmptyFormat(depth) && format == map[])
    || exists k :: k in format && KeyFault(levels, depth, k, format[k], f)
  }

  ghost predicate StepsFault(steps: seq<StepDraft>, depth: int, scope: set<string>, f: DraftFault) {
    exists i :: 0 <= i < |steps| && StepFault(steps[i], depth, i, scope, f)
  }

  ghost predicate LevelFault(levels: seq<LevelDraft>, level: LevelDraft, f: DraftFault) {
    || FormatFault(levels, level.depth, level.outputFormat, f)
    || (f == NoSteps(level.depth) && level.steps == [])
    || StepsFault(level.steps, level.depth, ScopeAt(BUILTIN_KEYS, levels, level.depth), f)
  }

  ghost predicate LevelsFault(levels: seq<LevelDraft>, some: seq<LevelDraft>, f: DraftFault) {
    exists level :: level in some && LevelFault(levels, level, f)
  }

  ghost predicate DepthFault(levels: seq<LevelDraft>, f: DraftFault)
    requires levels != []
  {
    || (f == NegativeDepth && exists l :: l in levels && l.depth < 0)
    || (f == DuplicateDepth && !UniqueDepths(levels))
    || (f == NoRootDepth && !HasLevel(levels, 0))
    || (f.MissingDepth? && 0 <= f.depth <= MaxDepth(levels) && !HasLevel(levels, f.depth))
  }

  predicate FormatTerminalFault(format: Schemas.Format, required: map<string, string>, f: DraftFault) {
    || (f == RequiredKeysMissing(MissingKeys(format, required)) && MissingKeys(format, required) != {})
    || (f.WrongTerminalType? && WrongType(format, required, f.key))
  }

  predicate TerminalFault(levels: seq<LevelDraft>, f: DraftFault)
    requires levels != []
  {
    && LevelAt(levels, MaxDepth(levels)).Some?
    && FormatTerminalFault(LevelAt(levels, MaxDepth(levels)).value.outputFormat, REQUIRED_KEYS, f)
  }

  /** What the checker reports of a draft, fault by fault. */
  ghost predicate ArtifactFault(name: string, description: string, levels: seq<LevelDraft>, f: DraftFault) {
    || (f == NoName && Blank(name))
    || (f == NoDescription && Blank(description))
    || if levels == [] then f == NoLevels
       else
         DepthFault(levels, f) || LevelsFault(levels, levels, f) || TerminalFault(levels, f)
  }

  // ---- The checker ----

  method AvailableAt(base: set<string>, levels: seq<LevelDraft>, depth: int) returns (available: set<string>)
    ensures available == ScopeAt(base, levels, depth)
  {
    available := base;
    var previousDepth := 0;
    while previousDepth < depth
      invariant 0 <= previousDepth && (if depth >= 0 then previousDepth <= depth else previousDepth == 0)
      invariant available == Scope(base, levels, previousDepth)
    {
      var previous := LevelAt(levels, previousDepth);
      if previous.Some? {
        available := available + previous.value.outputFormat.Keys;
        var consumer := LevelAt(levels, previousDepth + 1);
        if consumer.Some? && consumer.value.consumesAll {
          available := base + BatchKeys(available) + {BatchKey(previousDepth)};
        }
      }
      previousDepth := previousDepth + 1;
    }
  }

  method CountKeys(levels: seq<LevelDraft>) returns (counts: map<string, nat>)
    ensures forall k | k in counts :: counts[k] == KeyCount(levels, k)
    ensures forall k | KeyCount(levels, k) > 0 :: k in counts
  {
    counts := map[];
    for i := 0 to |levels|
      invariant forall k | k in counts :: counts[k] == KeyCount(levels[..i], k)
      invariant forall k | KeyCount(levels[..i], k) > 0 :: k in counts
    {
      assert levels[..i + 1][..i] == levels[..i];
      var keys := levels[i].outputFormat.Keys;
      counts := map k | k in counts.Keys + keys ::
        (if k in counts then counts[k] else 0) + (if k in keys then 1 else 0);
    }
    assert levels[..|levels|] == levels;
  }

  function Upto(n: nat): (r: set<int>)
    ensures |r| == n && forall d :: d in r <==> 0 <= d < n
  {
    if n == 0 then {} else Upto(n - 1) + {n - 1}
  }

  /** Each depth once and no gap below the greatest. */
  ghost predicate NoGaps(levels: seq<LevelDraft>, greatest: int) {
    && UniqueDepths(levels)
    && (forall l | l in levels :: 0 <= l.depth)
    && (forall d | 0 <= d <= greatest :: HasLevel(levels, d))
  }

  lemma OkHasNoGaps(levels: seq<LevelDraft>, greatest: int)
    requires levels != [] && (forall l | l in levels :: l.depth <= greatest) && HasLevel(levels, greatest)
    requires DepthsOk(levels)
    ensures NoGaps(levels, greatest) && greatest == |levels| - 1
  {
    forall l | l in levels ensures 0 <= l.depth < |levels| {
      AllDepths(levels, l);
    }
    assert HasLevel(levels, |levels| - 1);
  }

  lemma FullDepthSet(levels: seq<LevelDraft>, greatest: int)
    requires greatest >= 0 && forall l | l in levels :: 0 <= l.depth <= greatest
    requires forall d | 0 <= d <= greatest :: HasLevel(levels, d)
    ensures |DepthSet(levels)| == greatest + 1
  {
    forall d ensures d in DepthSet(levels) <==> d in Upto(greatest + 1) {
      assert d in DepthSet(levels) ==> HasLevel(levels, d);
    }
    assert DepthSet(levels) == Upto(greatest + 1);
  }

  /** Unique depths with no gap below the greatest are exactly 0, 1, ..., one per level. */
  lemma NoGapsIsOk(levels: seq<LevelDraft>, greatest: int)
    requires levels != [] && (forall l | l in levels :: l.depth <= greatest) && HasLevel(levels, greatest)
    requires NoGaps(levels, greatest)
    ensures DepthsOk(levels)
  {
    Sorting.TagCount(levels, DepthTag);
    FullDepthSet(levels, greatest);
  }

  /** The first three checks on the depths. */
  method ValidateDepthSet(levels: seq<LevelDraft>) returns (errors: seq<DraftFault>)
    ensures errors == [] <==> (forall l | l in levels :: l.depth >= 0) && UniqueDepths(levels) && HasLevel(levels, 0)
    ensures forall f :: f in errors <==>
      || (f == NegativeDepth && exists l :: l in levels && l.depth < 0)
      || (f == DuplicateDepth && !UniqueDepths(levels))
      || (f == NoRootDepth && !HasLevel(levels, 0))
  {
    errors := if forall l | l in levels :: l.depth >= 0 then []
              else [NegativeDepth];
    var depths := DepthSet(levels);
    Sorting.TagCount(levels, DepthTag);
    if |depths| != |levels| {
      errors := errors + [DuplicateDepth];
    }
    if 0 !in depths {
      errors := errors + [NoRootDepth];
    }
  }

  method ValidateDepths(levels: seq<LevelDraft>) returns (errors: seq<DraftFault>, greatest: int)
    requires levels != []
    ensures errors == [] <==> DepthsOk(levels)
    ensures DepthsOk(levels) ==> greatest == |levels| - 1
    ensures greatest == MaxDepth(levels) && forall f :: f in errors <==> DepthFault(levels, f)
  {
    errors := ValidateDepthSet(levels);
    greatest := Greatest(levels);
    var gaps := MissingDepths(levels, greatest);
    if DepthsOk(levels) {
      OkHasNoGaps(levels, greatest);
      assert HasLevel(levels, 0);
    }
    if errors + gaps == [] {
      NoGapsIsOk(levels, greatest);
    }
    errors := errors + gaps;
  }

  method Greatest(levels: seq<LevelDraft>) returns (greatest: int)
    requires levels != []
    ensures greatest == MaxDepth(levels)
  {
    greatest := levels[0].depth;
    for i := 0 to |levels|
      invariant HasLevel(levels, greatest)
      invariant forall j | 0 <= j < i :: levels[j].depth <= greatest
    {
      assert levels[i] in levels;
      if levels[i].depth > greatest {
        greatest := levels[i].depth;
      }
    }
  }

  method MissingDepths(levels: seq<LevelDraft>, greatest: int) returns (errors: seq<DraftFault>)
    ensures errors == [] <==> forall d | 0 <= d <= greatest :: HasLevel(levels, d)
    ensures forall f :: f in errors <==> f.MissingDepth? && 0 <= f.depth <= greatest && !HasLevel(levels, f.depth)
  {
    errors := [];
    var depth := 0;
    while depth <= greatest
      invariant 0 <= depth
      invariant errors == [] <==> forall d | 0 <= d < depth && d <= greatest :: HasLevel(levels, d)
      invariant forall f :: f in errors <==>
        f.MissingDepth? && 0 <= f.depth < depth && f.depth <= greatest && !HasLevel(levels, f.depth)
    {
      if depth !in DepthSet(levels) {
        errors := errors + [MissingDepth(depth)];
      }
      depth := depth + 1;
    }
  }

  function Definitions(depth: int, key: string, causes: seq<Schemas.Located>): (r: seq<DraftFault>)
    ensures r == [] <==> causes == []
  {
    seq(|causes|, i requires 0 <= i < |causes| => InvalidDefinition(depth, key, causes[i]))
  }

  lemma DefinitionsMember(depth: int, key: string, causes: seq<Schemas.Located>, f: DraftFault)
    ensures f in Definitions(depth, key, causes) <==>
      f.InvalidDefinition? && f.depth == depth && f.key == key && f.cause in causes
  {
    if f.InvalidDefinition? && f.depth == depth && f.key == key && f.cause in causes {
      var i :| 0 <= i < |causes| && causes[i] == f.cause;
      assert Definitions(depth, key, causes)[i] == f;
    }
  }

  method ValidateKey(levels: seq<LevelDraft>, depth: int, key: string, definition: Json, counts: map<string, nat>)
    returns (errors: seq<DraftFault>)
    requires (if key in counts then counts[key] else 0) == KeyCount(levels, key)
    ensures errors == [] <==> KeyOk(levels, key, definition)
    ensures forall f :: f in errors <==> KeyFault(levels, depth, key, definition, f)
  {
    errors := if IsValidKey(key) then [] else [InvalidKey(depth, key)];
    if IsReservedName(key) {
      errors := errors + [ReservedName(depth, key)];
    }
    if (if key in counts then counts[key] else 0) > 1 {
      errors := errors + [DuplicateKey(depth, key)];
    }
    var causes := Schemas.ValidateFieldDefinition(key, definition);
    errors := errors + Definitions(depth, key, causes);
    forall f ensures f in Definitions(depth, key, causes) <==>
      f.InvalidDefinition? && f.depth == depth && f.key == key && f.cause in causes
    {
      DefinitionsMember(depth, key, causes, f);
    }
  }

  method ValidateFormat(levels: seq<LevelDraft>, depth: int, format: Schemas.Format, counts: map<string, nat>)
    returns (errors: seq<DraftFault>)
    requires forall k | k in counts :: counts[k] == KeyCount(levels, k)
    requires forall k | KeyCount(levels, k) > 0 :: k in counts
    ensures errors == [] <==> FormatOk(levels, format)
    ensures forall f :: f in errors <==> FormatFault(levels, depth, format, f)
  {
    errors := if format == map[] then [EmptyFormat(depth)] else [];
    var keys := format.Keys;
    ghost var nonEmpty := errors == [];
    while keys != {}
      invariant keys <= format.Keys
      invariant errors == [] <==> nonEmpty && forall k | k in format.Keys - keys :: KeyOk(levels, k, format[k])
      invariant forall f :: f in errors <==>
        (f == EmptyFormat(depth) && format == map[])
        || exists k :: k in format && k !in keys && KeyFault(levels, depth, k, format[k], f)
    {
      var key :| key in keys;
      keys := keys - {key};
      var keyErrors := ValidateKey(levels, depth, key, format[key], counts);
      errors := errors + keyErrors;
    }
  }

  method ValidateStep(step: StepDraft, depth: int, i: nat, available: set<string>) returns (errors: seq<DraftFault>)
    ensures errors == [] <==> StepOk(step, available)
    ensures forall f :: f in errors <==> StepFault(step, depth, i, available, f)
  {
    errors := if Blank(step.name) then [NoStepName(depth, i)] else [];
    if Blank(step.content) {
      return errors + [NoContent(depth, i)];
    }
    if step.strayBraces || exists ref | ref in step.refs :: !IsValidRef(ref) {
      errors := errors + [MalformedReference(depth, i)];
    }
    var unknown := UndefinedRefs(step, available);
    if unknown != {} {
      errors := errors + [UndefinedReferences(depth, i, unknown)];
    }
    assert forall ref | ref in step.refs && IsValidRef(ref) && ref !in unknown :: ref in available || IsExtraRef(ref);
  }

  method ValidateSteps(steps: seq<StepDraft>, depth: int, available: set<string>) returns (errors: seq<DraftFault>)
    ensures errors == [] <==> forall step | step in steps :: StepOk(step, available)
    ensures forall f :: f in errors <==> StepsFault(steps, depth, available, f)
  {
    errors := [];
    for i := 0 to |steps|
      invariant errors == [] <==> forall j | 0 <= j < i :: StepOk(steps[j], available)
      invariant forall f :: f in errors <==> exists j :: 0 <= j < i && StepFault(steps[j], depth, j, available, f)
    {
      var stepErrors := ValidateStep(steps[i], depth, i, available);
      errors := errors + stepErrors;
    }
  }

  method ValidateLevel(levels: seq<LevelDraft>, level: LevelDraft, counts: map<string, nat>)
    returns (errors: seq<DraftFault>)
    requires forall k | k in counts :: counts[k] == KeyCount(levels, k)
    requires forall k | KeyCount(levels, k) > 0 :: k in counts
    ensures DepthsOk(levels) && level in levels ==> (errors == [] <==> LevelOk(levels, level))
    ensures forall f :: f in errors <==> LevelFault(levels, level, f)
  {
    if DepthsOk(levels) && level in levels {
      AllDepths(levels, level);
    }
    errors := ValidateFormat(levels, level.depth, level.outputFormat, counts);
    if level.steps == [] {
      errors := errors + [NoSteps(level.depth)];
    }
    var available := AvailableAt(BUILTIN_KEYS, levels, level.depth);
    var stepErrors := ValidateSteps(level.steps, level.depth, available);
    errors := errors + stepErrors;
  }

  lemma LevelsOkJoin(levels: seq<LevelDraft>, some: seq<LevelDraft>, l: LevelDraft)
    ensures LevelsOk(levels, some + [l]) <==> LevelsOk(levels, some) && LevelOk(levels, l)
  {
    assert forall m :: m in some + [l] <==> m in some || m == l;
  }

  method ValidateLevels(levels: seq<LevelDraft>) returns (errors: seq<DraftFault>)
    ensures DepthsOk(levels) ==> (errors == [] <==> LevelsOk(levels, levels))
    ensures forall f :: f in errors <==> LevelsFault(levels, levels, f)
  {
    errors := [];
    var counts := CountKeys(levels);
    for i := 0 to |levels|
      invariant DepthsOk(levels) ==> (errors == [] <==> LevelsOk(levels, levels[..i]))
      invariant forall f :: f in errors <==> LevelsFault(levels, levels[..i], f)
    {
      var levelErrors := ValidateLevel(levels, levels[i], counts);
      LevelsOkJoin(levels, levels[..i], levels[i]);
      assert levels[..i + 1] == levels[..i] + [levels[i]];
      errors := errors + levelErrors;
    }
    assert levels[..|levels|] == levels;
  }

  method WrongTypes(format: Schemas.Format, required: map<string, string>) returns (errors: seq<DraftFault>)
    ensures errors == [] <==> forall key | key in format :: !WrongType(format, required, key)
    ensures forall f :: f in errors <==> f.WrongTerminalType? && WrongType(format, required, f.key)
  {
    errors := [];
    var keys := required.Keys + {EXPLOITABLE};
    ghost var all := keys;
    while keys != {}
      invariant forall f :: f in errors <==>
        f.WrongTerminalType? && f.key in all - keys && WrongType(format, required, f.key)
    {
      var key :| key in keys;
      keys := keys - {key};
      if WrongType(format, required, key) {
        errors := errors + [WrongTerminalType(key)];
      }
    }
    if key :| key in format && WrongType(format, required, key) {
      assert WrongTerminalType(key) in errors;
    }
    assert errors != [] ==> errors[0] in errors;
  }

  method ValidateTerminalFormat(format: Schemas.Format, required: map<string, string>)
    returns (errors: seq<DraftFault>)
    ensures errors == [] <==>
      MissingKeys(format, required) == {} && forall key | key in format :: !WrongType(format, required, key)
    ensures forall f :: f in errors <==> FormatTerminalFault(format, required, f)
  {
    var missing := MissingKeys(format, required);
    var wrong := WrongTypes(format, required);
    errors := (if missing == {} then [] else [RequiredKeysMissing(missing)]) + wrong;
  }

  method ValidateTerminal(levels: seq<LevelDraft>, greatest: int) returns (errors: seq<DraftFault>)
    requires levels != [] && greatest == MaxDepth(levels)
    ensures errors == [] <==> TerminalAt(levels, greatest)
    ensures forall f :: f in errors <==> TerminalFault(levels, f)
  {
    var terminal := LevelAt(levels, greatest);
    if terminal.None? {
      return [];
    }
    errors := ValidateTerminalFormat(terminal.value.outputFormat, REQUIRED_KEYS);
  }

  lemma InThree(a: seq<DraftFault>, b: seq<DraftFault>, c: seq<DraftFault>, f: DraftFault)
    ensures f in a + b + c <==> f in a || f in b || f in c
  {
  }

  lemma NoneInThree(a: seq<DraftFault>, b: seq<DraftFault>, c: seq<DraftFault>, p: bool, q: bool, r: bool)
    requires (a == [] <==> p) && (p ==> (b == [] <==> q)) && (p ==> (c == [] <==> r))
    ensures a + b + c == [] <==> p && q && r
  {
  }

  lemma LastDepth(levels: seq<LevelDraft>)
    requires levels != [] && DepthsOk(levels)
    ensures LevelAt(levels, |levels| - 1).Some?
  {
    assert HasLevel(levels, |levels| - 1);
  }

  method ValidateAllLevels(levels: seq<LevelDraft>) returns (errors: seq<DraftFault>)
    requires levels != []
    ensures errors == [] <==> DepthsOk(levels) && LevelsOk(levels, levels) && TerminalAt(levels, |levels| - 1)
    ensures forall f :: f in errors <==>
      DepthFault(levels, f) || LevelsFault(levels, levels, f) || TerminalFault(levels, f)
  {
    var depthErrors, greatest := ValidateDepths(levels);
    var levelErrors := ValidateLevels(levels);
    var terminalErrors := ValidateTerminal(levels, greatest);
    errors := depthErrors + levelErrors + terminalErrors;
    NoneInThree(
      depthErrors, levelErrors, terminalErrors, DepthsOk(levels), LevelsOk(levels, levels),
      TerminalAt(levels, |levels| - 1));
    forall f ensures f in errors <==>
      DepthFault(levels, f) || LevelsFault(levels, levels, f) || TerminalFault(levels, f)
    {
      InThree(depthErrors, levelErrors, terminalErrors, f);
    }
  }

  method ValidateWorkflowArtifact(name: string, description: string, levels: seq<LevelDraft>)
    returns (errors: seq<DraftFault>)
    ensures errors == [] <==> ArtifactOk(name, description, levels)
    ensures forall f :: f in errors <==> ArtifactFault(name, description, levels, f)
  {
    errors := if Blank(name) then [NoName] else [];
    if Blank(description) {
      errors := errors + [NoDescription];
    }
    if levels == [] {
      return errors + [NoLevels];
    }
    var levelErrors := ValidateAllLevels(levels);
    if DepthsOk(levels) {
      LastDepth(levels);
    }
    errors := errors + levelErrors;
  }

  /** The last level of an accepted draft has every required key at its type: no null passes both checks. */
  lemma AcceptedEndsInRequiredKeys(name: string, description: string, levels: seq<LevelDraft>, key: string)
    requires ArtifactOk(name, description, levels) && key in REQUIRED_KEYS
    ensures var format := LevelAt(levels, |levels| - 1).value.outputFormat;
            key in format && format[key] == Str(REQUIRED_KEYS[key])
  {
    var last := LevelAt(levels, |levels| - 1).value;
    RequiredKeyIsTyped(last.outputFormat, REQUIRED_KEYS, key);
    assert LevelOk(levels, last);
    assert KeyOk(levels, key, last.outputFormat[key]);
  }

  lemma RequiredKeyIsTyped(format: Schemas.Format, required: map<string, string>, key: string)
    requires MissingKeys(format, required) == {} && key in required
    requires forall k | k in format :: !WrongType(format, required, k)
    ensures key in format && (format[key] == Null || format[key] == Str(required[key]))
  {
    assert key !in MissingKeys(format, required);
  }

  lemma AllDepths(levels: seq<LevelDraft>, level: LevelDraft)
    requires DepthsOk(levels) && level in levels
    ensures 0 <= level.depth < |levels|
  {
    var all := Upto(|levels|);
    Sorting.TagCount(levels, DepthTag);
    assert all <= DepthSet(levels) by {
      assert forall d | d in all :: HasLevel(levels, d);
    }
    assert |DepthSet(levels) - all| == 0;
    assert level.depth in DepthSet(levels);
  }

  // ---- Soundness of the scopes ----

  /** The steps of an accepted draft, as saved: every depth is populated, siblings share the level's setting. */
  ghost predicate Lowers(levels: seq<LevelDraft>, steps: seq<Step>) {
    && (forall s | s in steps ::
          && LevelAt(levels, s.depth).Some?
          && s.consumesAll == (LevelAt(levels, s.depth).value.consumesAll && s.depth > 0))
    && (forall l | l in levels :: l.depth >= 0 && HasDepth(steps, l.depth))
  }

  /** Every row carries exactly the keys its step's level declares. */
  ghost predicate DeclaredRows(levels: seq<LevelDraft>, steps: seq<Step>, rows: Key -> seq<Row>) {
    forall s, k: Key, row | s in steps && k.stepId == s.id && row in rows(k) && LevelAt(levels, s.depth).Some? ::
      row.answer.Obj? && row.answer.fields.Keys == LevelAt(levels, s.depth).value.outputFormat.Keys
  }

  lemma {:induction false} Ascending(r: seq<nat>, n: nat, i: nat)
    requires forall d: nat :: d in r <==> d < n
    requires forall i, j | 0 <= i < j < |r| :: r[i] < r[j]
    requires i < |r|
    ensures r[i] == i
  {
    if i > 0 {
      Ascending(r, n, i - 1);
    }
    assert r[i] in r && i in r;
    var j :| 0 <= j < |r| && r[j] == i;
    if j < i {
      Ascending(r, n, j);
    }
  }

  lemma DepthsOfPlan(levels: seq<LevelDraft>, steps: seq<Step>, i: nat)
    requires DepthsOk(levels) && Lowers(levels, steps) && i < |Plan(steps)|
    ensures Plan(steps)[i] == Level(i, StepsAt(steps, i)) && i < |levels|
    ensures HasDepth(steps, i)
  {
    var depths := Depths(steps);
    forall d: nat ensures d in depths <==> d < |levels| {
      if HasDepth(steps, d) {
        var s :| s in steps && s.depth == d;
        AllDepths(levels, LevelAt(levels, d).value);
      }
      if d < |levels| {
        assert HasLevel(levels, d);
      }
    }
    Ascending(depths, |levels|, i);
    assert i in depths;
  }

  lemma SiblingsAgree(levels: seq<LevelDraft>, steps: seq<Step>, i: nat)
    requires Lowers(levels, steps) && HasDepth(steps, i)
    ensures StepsAt(steps, i) != [] && LevelAt(levels, i).Some?
    ensures ConsumesAll(Level(i, StepsAt(steps, i))) <==> LevelAt(levels, i).value.consumesAll && i > 0
  {
    StepsAtMember(steps, i);
    var s :| s in steps && s.depth == i;
    assert s in StepsAt(steps, i);
  }

  /** In a lowered draft the i-th depth is i, and it consumes all exactly when its level collapses. */
  lemma LevelOfPlan(levels: seq<LevelDraft>, steps: seq<Step>, i: nat)
    requires DepthsOk(levels) && Lowers(levels, steps) && i < |Plan(steps)|
    ensures Plan(steps)[i].depth == i
    ensures ConsumesAll(Plan(steps)[i]) <==> Collapses(levels, i)
    ensures Plan(steps)[i].steps != [] && LevelAt(levels, i).Some?
  {
    DepthsOfPlan(levels, steps, i);
    SiblingsAgree(levels, steps, i);
    assert i > 0 ==> HasLevel(levels, i - 1);
  }

  /** An accepted, lowered workflow, and a scan whose rows carry the declared keys. */
  ghost predicate Deployed(
    base: set<string>, levels: seq<LevelDraft>, scan: Scan, steps: seq<Step>, rows: Key -> seq<Row>) {
    && DepthsOk(levels) && Lowers(levels, steps) && DeclaredRows(levels, steps, rows)
    && scan.context.Keys == base + {EXTRA_KEY}
  }

  lemma OutputScope(
    levels: seq<LevelDraft>, steps: seq<Step>, rows: Key -> seq<Row>, task: Job, runs: nat, s: State)
    requires DeclaredRows(levels, steps, rows) && task.step in steps
    requires LevelAt(levels, task.step.depth).Some? && s in Outputs(task, rows, runs)
    ensures s.context.Keys
         == task.state.context.Keys + LevelAt(levels, task.step.depth).value.outputFormat.Keys
  {
    OutputsMember(task, rows, runs, s);
    var r, j :| 1 <= r <= runs && 0 <= j < |rows(TaskKey(task, r))| &&
                s == NextState(task.step, task.state, rows(TaskKey(task, r))[j]);
    assert rows(TaskKey(task, r))[j] in rows(TaskKey(task, r));
  }

  lemma BatchScope(
    base: set<string>, scan: Scan, states: seq<State>, names: set<string>, previousDepth: nat)
    requires states != [] && states[0].context.Keys == names + {EXTRA_KEY}
    requires scan.context.Keys == base + {EXTRA_KEY}
    ensures BatchState(scan, states, previousDepth).context.Keys
         == base + BatchKeys(names) + {BatchKey(previousDepth)} + {EXTRA_KEY}
  {
    assert !IsBatchKey(EXTRA_KEY);
    assert BatchKeys(states[0].context.Keys) == BatchKeys(names);
  }

  ghost predicate InScope(states: seq<State>, names: set<string>) {
    forall s | s in states :: s.context.Keys == names + {EXTRA_KEY}
  }

  lemma BatchInScope(
    base: set<string>, levels: seq<LevelDraft>, scan: Scan, states: seq<State>, i: nat)
    requires scan.context.Keys == base + {EXTRA_KEY} && Collapses(levels, i)
    requires states != [] && InScope(states, Arriving(base, levels, i))
    ensures InScope([BatchState(scan, states, i - 1)], Scope(base, levels, i))
  {
    BatchScope(base, scan, states, Arriving(base, levels, i), i - 1);
  }

  lemma NoBatchScope(base: set<string>, levels: seq<LevelDraft>, i: nat)
    requires !Collapses(levels, i)
    ensures Scope(base, levels, i) == Arriving(base, levels, i)
  {
  }

  lemma LevelInputsInScope(
    base: set<string>, levels: seq<LevelDraft>, scan: Scan, level: Level, i: nat, front: Front)
    requires scan.context.Keys == base + {EXTRA_KEY}
    requires (ConsumesAll(level) <==> Collapses(levels, i)) && level.depth == i
    requires InScope(front.states, Arriving(base, levels, i))
    ensures InScope(LevelInputs(scan, level, front), Scope(base, levels, i))
  {
    if ConsumesAll(level) {
      if front.complete && front.states != [] {
        BatchInScope(base, levels, scan, front.states, i);
      }
    } else {
      NoBatchScope(base, levels, i);
    }
  }

  lemma TasksInScope(
    base: set<string>, levels: seq<LevelDraft>, scan: Scan, level: Level, i: nat, front: Front, t: Job)
    requires scan.context.Keys == base + {EXTRA_KEY}
    requires (ConsumesAll(level) <==> Collapses(levels, i)) && level.depth == i
    requires InScope(front.states, Arriving(base, levels, i)) && t in LevelTasks(scan, level, front)
    ensures t.step in level.steps && t.state.context.Keys == Scope(base, levels, i) + {EXTRA_KEY}
  {
    TasksMember(level.steps, LevelInputs(scan, level, front), t);
    LevelInputsInScope(base, levels, scan, level, i, front);
  }

  lemma OutputsInScope(
    base: set<string>, levels: seq<LevelDraft>, steps: seq<Step>, p: Progress, tasks: seq<Job>, runs: nat, depth: nat)
    requires DeclaredRows(levels, steps, p.rows) && LevelAt(levels, depth).Some?
    requires forall t | t in tasks ::
      t.step in steps && t.step.depth == depth && t.state.context.Keys == Scope(base, levels, depth) + {EXTRA_KEY}
    ensures InScope(DepthOutputs(tasks, p, runs), Arriving(base, levels, depth + 1))
  {
    forall s | s in DepthOutputs(tasks, p, runs)
      ensures s.context.Keys == Arriving(base, levels, depth + 1) + {EXTRA_KEY}
    {
      DepthOutputsMember(tasks, p, runs, s);
      var t :| t in tasks && s in Outputs(t, p.rows, runs);
      OutputScope(levels, steps, p.rows, t, runs, s);
    }
  }

  /** Each depth of the walk takes states with that depth's names to states with the next depth's. */
  ghost predicate KeepsScope(names: nat -> set<string>, w: Workload, p: Progress) {
    forall i: nat, front: Front {:trigger w.stage(i, front)} ::
      i + 1 < w.depths && InScope(front.states, names(i)) ==>
      InScope(DepthOutputs(w.stage(i, front), p, w.runs), names(i + 1))
  }

  lemma {:induction false} FrontInScope(names: nat -> set<string>, w: Workload, p: Progress, i: nat)
    requires KeepsScope(names, w, p) && i < w.depths && w.root.context.Keys == names(0) + {EXTRA_KEY}
    ensures InScope(FrontAt(w, p, i).states, names(i))
    decreases i
  {
    if i > 0 {
      FrontInScope(names, w, p, i - 1);
    }
  }

  function ArrivingNames(base: set<string>, levels: seq<LevelDraft>): nat -> set<string> {
    (i: nat) => Arriving(base, levels, i)
  }

  lemma LevelInScope(
    base: set<string>, levels: seq<LevelDraft>, scan: Scan, steps: seq<Step>, i: nat, front: Front, t: Job)
    requires DepthsOk(levels) && Lowers(levels, steps) && i < |Plan(steps)|
    requires scan.context.Keys == base + {EXTRA_KEY} && InScope(front.states, Arriving(base, levels, i))
    requires t in LevelTasks(scan, Plan(steps)[i], front)
    ensures t.step in steps && t.step.depth == i
    ensures t.state.context.Keys == Scope(base, levels, i) + {EXTRA_KEY}
  {
    LevelOfPlan(levels, steps, i);
    StepsAtMember(steps, i);
    TasksInScope(base, levels, scan, Plan(steps)[i], i, front, t);
  }

  lemma WorkflowKeepsScope(
    base: set<string>, levels: seq<LevelDraft>, scan: Scan, steps: seq<Step>, p: Progress)
    requires Deployed(base, levels, scan, steps, p.rows)
    ensures KeepsScope(ArrivingNames(base, levels), WorkloadOf(scan, steps), p)
  {
    var w := WorkloadOf(scan, steps);
    forall i: nat, front: Front | i + 1 < w.depths && InScope(front.states, Arriving(base, levels, i))
      ensures InScope(DepthOutputs(w.stage(i, front), p, w.runs), Arriving(base, levels, i + 1))
    {
      forall t | t in w.stage(i, front)
        ensures t.step in steps && t.step.depth == i && t.state.context.Keys == Scope(base, levels, i) + {EXTRA_KEY}
      {
        LevelInScope(base, levels, scan, steps, i, front, t);
      }
      LevelOfPlan(levels, steps, i);
      OutputsInScope(base, levels, steps, p, w.stage(i, front), scan.repeatRuns, i);
    }
  }

  /**
   Scope soundness: in every state of every run, each task the scheduler visits at a depth has a
   context with exactly the names the checker computed for that depth, and `extra`.
   */
  lemma ScopeSound(
    base: set<string>, levels: seq<LevelDraft>, scan: Scan, steps: seq<Step>, w: Workload, p: Progress,
    i: nat, task: Job)
    requires w == WorkloadOf(scan, steps) && Deployed(base, levels, scan, steps, p.rows)
    requires i < w.depths && VisitedAt(w, p, i, task)
    ensures task.step in steps && task.step.depth == i
    ensures task.state.context.Keys == Scope(base, levels, i) + {EXTRA_KEY}
  {
    WorkflowKeepsScope(base, levels, scan, steps, p);
    FrontInScope(ArrivingNames(base, levels), w, p, i);
    LevelInScope(base, levels, scan, steps, i, FrontAt(w, p, i), task);
  }

  // ---- The values a prompt is given ----

  /** No declared key is a built-in name, `extra` or the name of a batch. */
  ghost predicate Unreserved(levels: seq<LevelDraft>) {
    forall l, k | l in levels && k in l.outputFormat :: !IsReservedName(k)
  }

  lemma AcceptedIsUnreserved(levels: seq<LevelDraft>)
    requires LevelsOk(levels, levels)
    ensures Unreserved(levels)
  {
    forall l, k | l in levels && k in l.outputFormat ensures !IsReservedName(k) {
      assert LevelOk(levels, l);
    }
  }

  lemma BatchKeysBegin(n: string)
    requires IsBatchKey(n)
    ensures n != "" && n[0] == 'm'
  {
    assert n[..|BATCH_PREFIX|][0] == BATCH_PREFIX[0];
  }

  lemma BuiltinsAreNoBatches()
    ensures forall n | n in BUILTIN_KEYS + {EXTRA_KEY} :: !IsBatchKey(n)
  {
    assert forall n | n in BUILTIN_KEYS + {EXTRA_KEY} :: n != "" && n[0] != 'm';
    forall n | IsBatchKey(n) ensures n != "" && n[0] == 'm' {
      BatchKeysBegin(n);
    }
  }

  lemma DeclaredRowsAreNoBatches(
    levels: seq<LevelDraft>, scan: Scan, steps: seq<Step>, rows: Key -> seq<Row>)
    requires Unreserved(levels) && Deployed(BUILTIN_KEYS, levels, scan, steps, rows)
    ensures NoBatchNames(scan, steps, rows)
  {
    BuiltinsAreNoBatches();
    forall s, k: Key, row | s in steps && k.stepId == s.id && row in rows(k) ensures NoBatchAnswer(row) {
      var level := LevelAt(levels, s.depth).value;
      assert level in levels;
      forall name | name in level.outputFormat ensures !IsBatchKey(name) {
        assert !IsReservedName(name);
      }
    }
  }

  /** A row of a lineage answers exactly the keys its depth declares. */
  lemma LinkAnswers(
    base: set<string>, levels: seq<LevelDraft>, scan: Scan, steps: seq<Step>, w: Workload, p: Progress,
    i: nat, link: Link, s: State)
    requires w == WorkloadOf(scan, steps) && Deployed(base, levels, scan, steps, p.rows)
    requires i < w.depths && Follows(w, p, i, link, s)
    ensures LevelAt(levels, i).Some?
    ensures link.row.answer.Obj? && link.row.answer.fields.Keys == LevelAt(levels, i).value.outputFormat.Keys
  {
    ScopeSound(base, levels, scan, steps, w, p, i, link.task);
  }

  lemma OneLevelDeclares(levels: seq<LevelDraft>, a: LevelDraft, b: LevelDraft, key: string)
    requires LevelsOk(levels, levels) && a in levels && b in levels && a.depth != b.depth
    ensures !(key in a.outputFormat && key in b.outputFormat)
  {
    if key in a.outputFormat {
      assert LevelOk(levels, a) && KeyOk(levels, key, a.outputFormat[key]);
      KeyCountIs(levels, key);
      var i :| 0 <= i < |levels| && levels[i] == a;
      var j :| 0 <= j < |levels| && levels[j] == b;
    }
  }

  ghost predicate DeclaredOnce(levels: seq<LevelDraft>) {
    forall a, c, key | a in levels && c in levels && a.depth != c.depth ::
      !(key in a.outputFormat && key in c.outputFormat)
  }

  lemma AcceptedDeclaresOnce(levels: seq<LevelDraft>)
    requires LevelsOk(levels, levels)
    ensures DeclaredOnce(levels)
  {
    forall a, c, key | a in levels && c in levels && a.depth != c.depth
      ensures !(key in a.outputFormat && key in c.outputFormat)
    {
      OneLevelDeclares(levels, a, c, key);
    }
  }

  /** The rows of a lineage answer what the depths declare, one depth after another. */
  ghost predicate RowsAnswer(levels: seq<LevelDraft>, b: nat, trail: seq<Link>) {
    forall k | 0 <= k < |trail| :: RowAnswers(levels, b + k, trail[k].row)
  }

  ghost predicate RowAnswers(levels: seq<LevelDraft>, depth: nat, row: Row) {
    && LevelAt(levels, depth).Some? && LevelAt(levels, depth).value in levels
    && LevelAt(levels, depth).value.depth == depth
    && row.answer.Obj? && row.answer.fields.Keys == LevelAt(levels, depth).value.outputFormat.Keys
  }

  /** Every row that leads anywhere answers what its depth declares. */
  ghost predicate AnswersDeclared(levels: seq<LevelDraft>, w: Workload, p: Progress) {
    forall i: nat, link, s {:trigger Follows(w, p, i, link, s)} ::
      i < w.depths && Follows(w, p, i, link, s) ==> RowAnswers(levels, i, link.row)
  }

  lemma LinkAnswersAt(
    levels: seq<LevelDraft>, scan: Scan, steps: seq<Step>, w: Workload, p: Progress, i: nat, link: Link, s: State)
    requires w == WorkloadOf(scan, steps) && i < w.depths && Follows(w, p, i, link, s)
    requires Deployed(BUILTIN_KEYS, levels, scan, steps, p.rows)
    ensures RowAnswers(levels, i, link.row)
  {
    LinkAnswers(BUILTIN_KEYS, levels, scan, steps, w, p, i, link, s);
  }

  lemma DeployedAnswers(levels: seq<LevelDraft>, scan: Scan, steps: seq<Step>, w: Workload, p: Progress)
    requires w == WorkloadOf(scan, steps) && Deployed(BUILTIN_KEYS, levels, scan, steps, p.rows)
    ensures AnswersDeclared(levels, w, p)
  {
    forall i: nat, link, s | i < w.depths && Follows(w, p, i, link, s) ensures RowAnswers(levels, i, link.row) {
      LinkAnswersAt(levels, scan, steps, w, p, i, link, s);
    }
  }

  lemma {:induction false} TrailAnswers(
    levels: seq<LevelDraft>, plan: seq<Level>, w: Workload, p: Progress, b: nat, i: nat, trail: seq<Link>, s: State)
    requires AnswersDeclared(levels, w, p) && i < w.depths && Lineage(plan, w, p, b, i, trail, s)
    ensures RowsAnswer(levels, b, trail)
  {
    forall k | 0 <= k < |trail| ensures RowAnswers(levels, b + k, trail[k].row) {
      LineageFollows(plan, w, p, b, i, trail, s, k, b + k);
    }
  }

  lemma NothingAnswers(levels: seq<LevelDraft>, b: nat, trail: seq<Link>, n: string)
    requires Unreserved(levels) && RowsAnswer(levels, b, trail) && IsReservedName(n)
    ensures Unanswered(trail, n)
  {
    forall k | 0 <= k < |trail| ensures !Answers(trail[k].row, n) {
      assert RowAnswers(levels, b + k, trail[k].row);
    }
  }

  lemma OnlyAnswer(levels: seq<LevelDraft>, b: nat, trail: seq<Link>, k: nat, n: string)
    requires DeclaredOnce(levels) && RowsAnswer(levels, b, trail) && k < |trail|
    requires n in KeysAt(levels, b + k)
    ensures LatestAnswer(trail, k, n)
  {
    assert RowAnswers(levels, b + k, trail[k].row);
    forall j | k < j < |trail| ensures !Answers(trail[j].row, n) {
      assert RowAnswers(levels, b + j, trail[j].row);
      assert LevelAt(levels, b + k).value.depth != LevelAt(levels, b + j).value.depth;
    }
  }

  /** The built-in names and `extra` carry the scan's values. */
  ghost predicate ScanValues(scan: Scan, context: Context) {
    forall n | n in BUILTIN_KEYS + {EXTRA_KEY} :: n in context && n in scan.context && context[n] == scan.context[n]
  }

  /** A declared key carries the answer of the lineage's row at the depth that declares it. */
  ghost predicate DeclaredValues(levels: seq<LevelDraft>, b: nat, trail: seq<Link>, context: Context) {
    forall k: nat, n | k < |trail| && n in KeysAt(levels, b + k) ::
      Answers(trail[k].row, n) && n in context && context[n] == trail[k].row.answer.fields[n]
  }

  /** A batch carries the array formed at its barrier. */
  ghost predicate BatchValues(plan: seq<Level>, w: Workload, p: Progress, n: nat, context: Context) {
    forall c: nat, name | BatchNamed(plan, n, c, name) :: name in context && context[name] == BatchArray(w, p, c)
  }

  lemma ScanValuesHold(levels: seq<LevelDraft>, scan: Scan, b: nat, trail: seq<Link>, context: Context)
    requires Unreserved(levels) && RowsAnswer(levels, b, trail) && CarriesAnswers(scan, trail, context)
    requires BUILTIN_KEYS + {EXTRA_KEY} <= scan.context.Keys
    ensures ScanValues(scan, context)
  {
    forall n | n in BUILTIN_KEYS + {EXTRA_KEY}
      ensures n in context && n in scan.context && context[n] == scan.context[n]
    {
      NothingAnswers(levels, b, trail, n);
    }
  }

  lemma DeclaredValuesHold(levels: seq<LevelDraft>, scan: Scan, b: nat, trail: seq<Link>, context: Context)
    requires DeclaredOnce(levels) && RowsAnswer(levels, b, trail) && CarriesAnswers(scan, trail, context)
    ensures DeclaredValues(levels, b, trail, context)
  {
    forall k: nat, n | k < |trail| && n in KeysAt(levels, b + k)
      ensures Answers(trail[k].row, n) && n in context && context[n] == trail[k].row.answer.fields[n]
    {
      OnlyAnswer(levels, b, trail, k, n);
    }
  }

  /**
   What the prompts of an accepted draft are given, in every state of every run: the scan's values, the
   answers of the lineage's rows since the last barrier, and the arrays of the barriers so far.
   */
  lemma PromptValues(
    name: string, description: string, levels: seq<LevelDraft>, scan: Scan, steps: seq<Step>,
    w: Workload, p: Progress, i: nat, task: Job)
    returns (b: nat, trail: seq<Link>)
    requires ArtifactOk(name, description, levels)
    requires w == WorkloadOf(scan, steps) && Deployed(BUILTIN_KEYS, levels, scan, steps, p.rows)
    requires i < w.depths && VisitedAt(w, p, i, task)
    ensures Lineage(Plan(steps), w, p, b, i, trail, task.state)
    ensures ScanValues(scan, task.state.context) && DeclaredValues(levels, b, trail, task.state.context)
    ensures BatchValues(Plan(steps), w, p, i + 1, task.state.context)
  {
    AcceptedIsUnreserved(levels);
    AcceptedDeclaresOnce(levels);
    DeclaredRowsAreNoBatches(levels, scan, steps, p.rows);
    b, trail := EveryContextIs(scan, steps, w, p, i, task);
    DeployedAnswers(levels, scan, steps, w, p);
    TrailAnswers(levels, Plan(steps), w, p, b, i, trail, task.state);
    ScanValuesHold(levels, scan, b, trail, task.state.context);
    DeclaredValuesHold(levels, scan, b, trail, task.state.context);
  }

  // ---- References resolve ----

  lemma BatchKeysArePlain(name: string)
    requires IsBatchKey(name)
    ensures '.' !in name
  {
    assert forall i | 0 <= i < |BATCH_PREFIX| :: name[i] == BATCH_PREFIX[i];
    assert '.' !in BATCH_PREFIX;
  }

  lemma {:induction false} ArrivingNamesArePlain(base: set<string>, levels: seq<LevelDraft>, name: string, depth: nat)
    requires name in Arriving(base, levels, depth) && forall n | n in base :: '.' !in n
    requires forall l, k | l in levels && k in l.outputFormat :: IsValidKey(k)
    ensures '.' !in name
    decreases depth
  {
    if depth > 0 {
      if name in KeysAt(levels, depth - 1) {
        assert IsValidKey(name);
      } else if IsBatchKey(name) {
        BatchKeysArePlain(name);
      } else if name !in base {
        ArrivingNamesArePlain(base, levels, name, depth - 1);
      }
    }
  }

  lemma ScopeNamesArePlain(base: set<string>, levels: seq<LevelDraft>, name: string, depth: nat)
    requires name in Scope(base, levels, depth) && forall n | n in base :: '.' !in n
    requires forall l, k | l in levels && k in l.outputFormat :: IsValidKey(k)
    ensures '.' !in name
  {
    if name in Arriving(base, levels, depth) {
      ArrivingNamesArePlain(base, levels, name, depth);
    } else if name !in base {
      BatchKeysArePlain(name);
    }
  }

  lemma PlainRefResolves(context: Context, ref: string)
    requires ref in context && '.' !in ref
    ensures ResolveRef(ref, context) == context[ref]
  {
    SplitNone(ref, '.');
    assert Split(ref, '.')[1..] == [];
    assert ResolveParts([ref], Obj(context)) == ResolveParts([], context[ref]);
  }

  /** What a reference into the scan's extra settings renders: all of them, or one of them, or nothing. */
  predicate ExtraValue(ref: string, extra: Json, v: Json)
    requires IsExtraRef(ref)
  {
    if ref == EXTRA_KEY then v == extra
    else
      var key := ref[|EXTRA_KEY| + 1..];
      if extra.Obj? && key in extra.fields then v == extra.fields[key] else v == Null
  }

  lemma ExtraRefResolves(ref: string, context: Context)
    requires IsExtraRef(ref) && EXTRA_KEY in context
    ensures ExtraValue(ref, context[EXTRA_KEY], ResolveRef(ref, context))
  {
    if ref == EXTRA_KEY {
      PlainRefResolves(context, ref);
    } else {
      var key := ref[|EXTRA_KEY| + 1..];
      assert ref == EXTRA_KEY + "." + key && '.' !in key;
      SplitAt(EXTRA_KEY, '.', key);
      SplitNone(key, '.');
      assert Split(ref, '.') == [EXTRA_KEY, key];
      TwoParts(EXTRA_KEY, key, context);
    }
  }

  lemma TwoParts(first: string, key: string, context: Context)
    requires first in context
    ensures ResolveParts([first, key], Obj(context)) ==
      if !context[first].Obj? || key !in context[first].fields then Null else context[first].fields[key]
  {
    assert [first, key][1..] == [key] && [key][1..] == [];
    assert ResolveParts([first, key], Obj(context)) == ResolveParts([key], context[first]);
    if context[first].Obj? && key in context[first].fields {
      assert ResolveParts([key], context[first]) == ResolveParts([], context[first].fields[key]);
    }
  }

  lemma BuiltinsArePlain()
    ensures forall n | n in BUILTIN_KEYS :: '.' !in n
  {
  }

  /**
   Every reference of an accepted prompt resolves at run time: a scoped name is a key of the job's
   context and renders that key's value; any other renders what the scan's extra settings hold for it.
   */
  lemma ReferencesResolve(
    name: string, description: string, levels: seq<LevelDraft>, scan: Scan, steps: seq<Step>,
    w: Workload, p: Progress, i: nat, task: Job, level: LevelDraft, draft: StepDraft, ref: string)
    requires ArtifactOk(name, description, levels)
    requires w == WorkloadOf(scan, steps) && Deployed(BUILTIN_KEYS, levels, scan, steps, p.rows)
    requires i < w.depths && VisitedAt(w, p, i, task)
    requires level in levels && level.depth == i && draft in level.steps && ref in draft.refs
    ensures var context := task.state.context;
            || (ref in context && ResolveRef(ref, context) == context[ref])
            || (EXTRA_KEY in scan.context && IsExtraRef(ref) &&
                ExtraValue(ref, scan.context[EXTRA_KEY], ResolveRef(ref, context)))
  {
    ScopeSound(BUILTIN_KEYS, levels, scan, steps, w, p, i, task);
    assert LevelOk(levels, level);
    assert StepOk(draft, Scope(BUILTIN_KEYS, levels, i));
    if ref in Scope(BUILTIN_KEYS, levels, i) {
      forall l, k | l in levels && k in l.outputFormat ensures IsValidKey(k) {
        assert LevelOk(levels, l);
      }
      BuiltinsArePlain();
      ScopeNamesArePlain(BUILTIN_KEYS, levels, ref, i);
      PlainRefResolves(task.state.context, ref);
    } else {
      var b, trail := PromptValues(name, description, levels, scan, steps, w, p, i, task);
      ExtraRefResolves(ref, task.state.context);
    }
  }

  // ---- Rows carry the declared keys ----

  /**
   Saving a workflow normalizes its formats key by key. Rows that pass the payload validator against
   a saved format, its keys stored in any order, carry exactly the keys the draft declares.
   */
  lemma ValidatedRowsAreDeclared(
    payload: Json, format: Schemas.Format, saved: seq<Formats.Entry>, multiOutput: bool, row: Json)
    requires Formats.Lists(saved, Formats.NormalizeAll(format))
    requires var r := Schemas.ValidatePayload(payload, Formats.NormalizeFormat(saved), multiOutput);
             r.Ok? && row in r.value
    ensures row.Obj? && row.fields.Keys == format.Keys
  {
    forall k | k in format ensures Schemas.Normalize(Schemas.Normalize(format[k])) == Schemas.Normalize(format[k]) {
      Schemas.NormalizeIdempotent(format[k]);
    }
    Formats.NormalFormatIsKept(saved, Formats.NormalizeAll(format));
    Schemas.AcceptedRowKeys(payload, Formats.NormalizeFormat(saved), multiOutput, row);
  }

  /**
   Against the drafted format itself they do if and only if the `fields` wrapper, taken as empty
   where there is none, wraps every wrapper's key and no key that is not declared.
   */
  lemma DraftedRowsAreDeclaredIff(
    payload: Json, format: Schemas.Format, drafted: seq<Formats.Entry>, multiOutput: bool, row: Json)
    requires Formats.Lists(drafted, format)
    requires var r := Schemas.ValidatePayload(payload, Formats.NormalizeFormat(drafted), multiOutput);
             r.Ok? && row in r.value
    ensures row.Obj?
    ensures row.fields.Keys == format.Keys <==>
      Formats.WrapperKeys(format) <= Formats.Wrapped(format).Keys <= format.Keys
  {
    Schemas.AcceptedRowKeys(payload, Formats.NormalizeFormat(drafted), multiOutput, row);
    Formats.DeclaredKeysIff(drafted, format);
  }

  lemma OptionsIsAName()
    ensures IsValidKey("options") && !IsReservedName("options")
  {
    assert "options"[0] == 'o';
  }

  /** An accepted format whose one key is a wrapper, and is dropped before rows are validated. */
  lemma DraftedOptionsAreLost(levels: seq<LevelDraft>)
    returns (format: Schemas.Format, drafted: seq<Formats.Entry>)
    requires KeyCount(levels, "options") <= 1
    ensures format == map["options" := Obj(map[])] && FormatOk(levels, format)
    ensures Formats.Lists(drafted, format) && Formats.NormalizeFormat(drafted) == map[]
  {
    format := map["options" := Obj(map[])];
    drafted := Formats.OptionsAreDropped();
    OptionsIsAName();
  }
}
