/** What the readiness gate reads, field by field, from the documents (engine/open_kritt_engine/impact_gate.py). */
module ReadinessFields {
  import opened Wrappers
  import opened JsonValues
  import opened Text
  import opened EvidencePaths
  import opened ReadinessPolicies
  import opened ImpactEvidence
  import opened ImpactGate

  /** A field holds a text that is more than blanks. */
  predicate Filled(d: Dict, k: string) {
    k in d && d[k].Str? && !Blank(d[k].s)
  }

  /** A field's text without its outer blanks. */
  ghost predicate FilledWith(d: Dict, k: string, text: string) {
    Filled(d, k) && Trimmed(IsSpace, d[k].s, text)
  }

  lemma HasTextIs(d: Dict, k: string)
    ensures HasText(d, k) <==> Filled(d, k)
    ensures Filled(d, k) ==> FilledWith(d, k, TextOf(Get(d, k)))
  {
    if k in d && d[k].Str? {
      StripEmptyIff(d[k].s);
      StripIs(d[k].s);
    }
  }

  lemma OnlyText(d: Dict, k: string, text: string)
    requires FilledWith(d, k, text)
    ensures TextOf(Get(d, k)) == text
  {
    StripIs(d[k].s);
    TrimmedOnce(IsSpace, d[k].s, text, Strip(d[k].s));
  }

  /**
   The settings of a scan: both the kind and the version must be given, or the scan counts as internal
   research under the legacy policy; and only a choice of the user is not legacy.
   */
  lemma SettingsAre(c: Dict, settings: Settings)
    requires settings == InvestigationSettings(c)
    ensures var given := Filled(c, "investigation_kind") && Filled(c, "readiness_policy_version");
            && (given ==> FilledWith(c, "investigation_kind", settings.kind))
            && (given ==> FilledWith(c, "readiness_policy_version", settings.version))
            && (!given ==> settings.kind == "internal_research" && settings.version == "legacy-unverified")
            && (!settings.legacy <==> given && FilledWith(c, "investigation_kind_source", "user"))
            && (!settings.legacy <==> settings.source == "user")
  {
    HasTextIs(c, "investigation_kind");
    HasTextIs(c, "readiness_policy_version");
    HasTextIs(c, "investigation_kind_source");
    if FilledWith(c, "investigation_kind_source", "user") {
      OnlyText(c, "investigation_kind_source", "user");
    }
  }

  /** D5 lists no requirement: nothing, a blank text or an empty list. Only other texts and lists of texts are read. */
  lemma MissingRequirementsAre(v: Json)
    ensures MissingRequirements(v) == Some([]) <==>
      v == Null || (v.Str? && Blank(v.s)) || v == Arr([])
    ensures MissingRequirements(v).None? <==>
      v.Bool? || v.Num? || v.Obj? || (v.Arr? && exists x :: x in v.items && !x.Str?)
  {
    if v.Arr? && v.items != [] && v.items[0].Str? {
      assert v.items[0].s in StringsOf(v.items);
    }
  }

  /** The cited paths are those of the chain and those of the mapping. */
  lemma CitedPathsAre(d4: Dict, d5: Dict, path: string)
    ensures path in CitedPaths(d4, d5) <==>
      Cites(Get(d4, "impact_chain"), path) || Cites(Get(d5, "impact_mapping"), path)
  {
    AllPathsAreCited(Get(d4, "impact_chain"), path);
    AllPathsAreCited(Get(d5, "impact_mapping"), path);
  }

  lemma {:induction false} RowsFirst(items: seq<Json>)
    requires items != []
    ensures DictsOf(items) == (if items[0].Obj? then [items[0].fields] else []) + DictsOf(items[1..])
  {
  }

  /** The objects of a list are read in their order, and nothing else. */
  lemma {:induction false} RowsInOrder(a: seq<Json>, x: Json, b: seq<Json>)
    ensures DictsOf(a + [x] + b) == DictsOf(a) + (if x.Obj? then [x.fields] else []) + DictsOf(b)
    decreases |a|
  {
    var items := a + [x] + b;
    RowsFirst(items);
    if a == [] {
      assert items[0] == x && items[1..] == b;
    } else {
      RowsFirst(a);
      assert items[0] == a[0] && items[1..] == a[1..] + [x] + b;
      RowsInOrder(a[1..], x, b);
      var own := if x.Obj? then [x.fields] else [];
      var first := if a[0].Obj? then [a[0].fields] else [];
      Associate(first, DictsOf(a[1..]) + own, DictsOf(b));
      Associate(first, DictsOf(a[1..]), own);
    }
  }

  lemma {:induction false} StringsFirst(items: seq<Json>)
    requires items != []
    ensures StringsOf(items) == (if items[0].Str? then [items[0].s] else []) + StringsOf(items[1..])
  {
  }

  lemma {:induction false} StringsInOrder(a: seq<Json>, x: Json, b: seq<Json>)
    ensures StringsOf(a + [x] + b) == StringsOf(a) + (if x.Str? then [x.s] else []) + StringsOf(b)
    decreases |a|
  {
    var items := a + [x] + b;
    StringsFirst(items);
    if a == [] {
      assert items[0] == x && items[1..] == b;
    } else {
      StringsFirst(a);
      assert items[0] == a[0] && items[1..] == a[1..] + [x] + b;
      StringsInOrder(a[1..], x, b);
      var own := if x.Str? then [x.s] else [];
      var first := if a[0].Str? then [a[0].s] else [];
      Associate(first, StringsOf(a[1..]) + own, StringsOf(b));
      Associate(first, StringsOf(a[1..]), own);
    }
  }

  /** The key an assumption goes by: its id, or its position where it has none. */
  ghost predicate GoesBy(rows: seq<Dict>, i: nat, key: string) {
    && i < |rows|
    && if Filled(rows[i], "id") then FilledWith(rows[i], "id", key)
       else |key| > 0 && key[0] == '#' && Numeral(key[1..], i)
  }

  lemma KeyTextIs(rows: seq<Dict>, i: nat, key: string)
    requires i < |rows|
    ensures KeyText(rows[i], i) == key <==> GoesBy(rows, i, key)
  {
    HasTextIs(rows[i], "id");
    if Filled(rows[i], "id") {
      if FilledWith(rows[i], "id", key) {
        OnlyText(rows[i], "id", key);
      }
    } else {
      NatTextIs(i);
      var text := "#" + NatText(i);
      assert text[1..] == NatText(i);
      if GoesBy(rows, i, key) {
        NumeralOnce(key[1..], NatText(i), i);
        assert key == [key[0]] + key[1..];
      }
    }
  }

  /** The last row that goes by a key. */
  ghost predicate LastToGoBy(rows: seq<Dict>, i: nat, key: string) {
    GoesBy(rows, i, key) && forall j: nat | i < j < |rows| :: !GoesBy(rows, j, key)
  }

  /** An assumption is open when the last row that goes by its key, of D3's and then D4's, is material and open. */
  ghost predicate StaysOpen(rows: seq<Dict>, key: string) {
    exists i: nat ::
      && LastToGoBy(rows, i, key)
      && "material" in rows[i] && rows[i]["material"] == Bool(true)
      && "status" in rows[i] && rows[i]["status"] == Str("open")
  }

  lemma KeysAre(rows: seq<Dict>, key: string)
    ensures forall i: nat | i < |rows| :: KeyTexts(rows)[i] == key <==> GoesBy(rows, i, key)
  {
    forall i: nat | i < |rows| ensures KeyTexts(rows)[i] == key <==> GoesBy(rows, i, key) {
      KeyTextIs(rows, i, key);
    }
  }

  lemma {:induction false} LastIs(rows: seq<Dict>, i: nat, key: string)
    ensures LastToGoBy(rows, i, key) <==> key in KeyTexts(rows) && i == LastIndex(KeyTexts(rows), key)
  {
    var keys := KeyTexts(rows);
    KeysAre(rows, key);
    if LastToGoBy(rows, i, key) {
      assert keys[i] == key;
      var last := LastIndex(keys, key);
      assert GoesBy(rows, last, key);
    }
  }

  lemma {:induction false} OpenAtIs(rows: seq<Dict>, key: string)
    ensures OpenAt(rows, KeyTexts(rows), key) <==> StaysOpen(rows, key)
  {
    if key in KeyTexts(rows) {
      var last := LastIndex(KeyTexts(rows), key);
      LastIs(rows, last, key);
    }
    if i: nat :| LastToGoBy(rows, i, key) {
      LastIs(rows, i, key);
    }
    if StaysOpen(rows, key) {
      var i: nat :| LastToGoBy(rows, i, key) && MaterialOpen(rows[i]);
      LastIs(rows, i, key);
    }
  }
}
