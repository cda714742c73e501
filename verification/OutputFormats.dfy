/**
 The normalization of a whole output format (engine/open_kritt_engine/schema.py,
 `normalize_output_format`): the entries of its JSON object in order, and the legacy wrappers among them.
 */
module OutputFormats {
  import opened JsonValues
  import opened OutputSchema

  datatype Entry = Entry(key: string, value: Json)

  /** `_is_legacy_wrapper`: `fields` or `options` around an object that is no descriptor. */
  predicate LegacyWrapper(key: string, value: Json) {
    key in {"fields", "options"} && value.Obj? && !IsDescriptor(value)
  }

  function NormalizeAll(fields: map<string, Json>): Format {
    map k | k in fields :: Normalize(fields[k])
  }

  /** Entries in order, a later one winning: `fields` is replaced by what it wraps, `options` is dropped. */
  function NormalizeFormat(entries: seq<Entry>): Format {
    if entries == [] then map[]
    else
      var out, e := NormalizeFormat(entries[..|entries| - 1]), entries[|entries| - 1];
      if !LegacyWrapper(e.key, e.value) then out[e.key := Normalize(e.value)]
      else if e.key == "fields" then out + NormalizeAll(e.value.fields)
      else out
  }

  method AddNested(out: Format, fields: map<string, Json>) returns (after: Format)
    ensures after == out + NormalizeAll(fields)
  {
    after := out;
    var names := fields.Keys;
    while names != {}
      invariant names <= fields.Keys
      invariant after.Keys == out.Keys + (fields.Keys - names)
      invariant forall k | k in after ::
        after[k] == if k in fields && k !in names then Normalize(fields[k]) else out[k]
    {
      var name :| name in names;
      after, names := after[name := Normalize(fields[name])], names - {name};
    }
    assert after == out + NormalizeAll(fields);
  }

  method NormalizeOutputFormat(entries: seq<Entry>) returns (out: Format)
    ensures out == NormalizeFormat(entries)
  {
    out := map[];
    for i := 0 to |entries|
      invariant out == NormalizeFormat(entries[..i])
    {
      assert entries[..i + 1][..i] == entries[..i];
      var e := entries[i];
      if LegacyWrapper(e.key, e.value) {
        if e.key == "fields" {
          out := AddNested(out, e.value.fields);
        }
      } else {
        out := out[e.key := Normalize(e.value)];
      }
    }
    assert entries[..|entries|] == entries;
  }

  // ---- Which keys a format has, and their definitions ----

  /** An entry gives a key a definition: its own, or one it wraps. */
  predicate Supplies(e: Entry, k: string, d: Json) {
    if LegacyWrapper(e.key, e.value) then e.key == "fields" && k in e.value.fields && d == e.value.fields[k]
    else e.key == k && d == e.value
  }

  /** Every key has a supplier, whose definition it carries in normal form, and every supplied key is there. */
  lemma {:induction false} FormatIs(entries: seq<Entry>, k: string)
    ensures k in NormalizeFormat(entries) ==>
      exists e, d :: e in entries && Supplies(e, k, d) && NormalizeFormat(entries)[k] == Normalize(d)
    ensures forall e, d | e in entries && Supplies(e, k, d) :: k in NormalizeFormat(entries)
  {
    if entries != [] {
      var before, e := entries[..|entries| - 1], entries[|entries| - 1];
      FormatIs(before, k);
      assert entries == before + [e];
      var out := NormalizeFormat(entries);
      if k in out && k in NormalizeFormat(before) && out[k] == NormalizeFormat(before)[k] {
        var e0, d :| e0 in before && Supplies(e0, k, d) && out[k] == Normalize(d);
        assert e0 in entries;
      } else if k in out {
        assert Supplies(e, k, if LegacyWrapper(e.key, e.value) then e.value.fields[k] else e.value);
      }
    }
  }

  /** The last entry that supplies a key decides. */
  lemma {:induction false} LastSupplierDecides(entries: seq<Entry>, k: string, i: nat, d: Json)
    requires i < |entries| && Supplies(entries[i], k, d)
    requires forall j, other | i < j < |entries| :: !Supplies(entries[j], k, other)
    ensures k in NormalizeFormat(entries) && NormalizeFormat(entries)[k] == Normalize(d)
  {
    var before, e := entries[..|entries| - 1], entries[|entries| - 1];
    if i < |entries| - 1 {
      LastSupplierDecides(before, k, i, d);
      if LegacyWrapper(e.key, e.value) && e.key == "fields" {
        assert k in e.value.fields ==> Supplies(e, k, e.value.fields[k]);
      } else {
        assert !Supplies(e, k, e.value);
      }
    }
  }

  lemma FormatIsNormal(entries: seq<Entry>)
    ensures NormalFormat(NormalizeFormat(entries))
  {
    forall k | k in NormalizeFormat(entries)
      ensures Normalize(NormalizeFormat(entries)[k]) == NormalizeFormat(entries)[k]
    {
      FormatIs(entries, k);
      var e, d :| e in entries && Supplies(e, k, d) && NormalizeFormat(entries)[k] == Normalize(d);
      NormalizeIdempotent(d);
    }
  }

  /** The entries are those of a JSON object, in some order. */
  predicate Lists(entries: seq<Entry>, format: Format) {
    && (forall e | e in entries :: e.key in format && format[e.key] == e.value)
    && (forall k | k in format :: Entry(k, format[k]) in entries)
  }

  predicate NoWrapper(format: Format) {
    forall k | k in format :: !LegacyWrapper(k, format[k])
  }

  /** Without a wrapper a format is normalized key by key, in any order of its entries. */
  lemma PlainFormatKeyByKey(entries: seq<Entry>, format: Format)
    requires Lists(entries, format) && NoWrapper(format)
    ensures NormalizeFormat(entries) == NormalizeAll(format)
  {
    var out := NormalizeFormat(entries);
    forall k ensures (k in out <==> k in format) && (k in out ==> out[k] == Normalize(format[k])) {
      FormatIs(entries, k);
      if k in out {
        var e, d :| e in entries && Supplies(e, k, d) && out[k] == Normalize(d);
        assert !LegacyWrapper(e.key, format[e.key]);
      }
      if k in format {
        assert Supplies(Entry(k, format[k]), k, format[k]);
      }
    }
  }

  lemma NormalValueIsNoWrapper(key: string, value: Json)
    requires Normalize(value) == value
    ensures !LegacyWrapper(key, value)
  {
  }

  /** A normalized format is kept as it is, in any order of its entries. */
  lemma NormalFormatIsKept(entries: seq<Entry>, format: Format)
    requires Lists(entries, format) && NormalFormat(format)
    ensures NormalizeFormat(entries) == format
  {
    forall k | k in format ensures !LegacyWrapper(k, format[k]) {
      NormalValueIsNoWrapper(k, format[k]);
    }
    PlainFormatKeyByKey(entries, format);
    assert NormalizeAll(format) == format;
  }

  /** Normalizing a format twice is normalizing it once, whatever it holds. */
  lemma FormatTwice(entries: seq<Entry>, again: seq<Entry>)
    requires Lists(again, NormalizeFormat(entries))
    ensures NormalizeFormat(again) == NormalizeFormat(entries)
  {
    FormatIsNormal(entries);
    NormalFormatIsKept(again, NormalizeFormat(entries));
  }

  // ---- When the declared keys survive ----

  function WrapperKeys(format: Format): set<string> {
    set k | k in format && LegacyWrapper(k, format[k])
  }

  /** What the `fields` wrapper wraps, if there is one. */
  function Wrapped(format: Format): map<string, Json> {
    if "fields" in format && LegacyWrapper("fields", format["fields"]) then format["fields"].fields else map[]
  }

  lemma KeysAre(entries: seq<Entry>, format: Format)
    requires Lists(entries, format)
    ensures NormalizeFormat(entries).Keys == format.Keys - WrapperKeys(format) + Wrapped(format).Keys
  {
    forall k ensures k in NormalizeFormat(entries) <==> k in format.Keys - WrapperKeys(format) + Wrapped(format).Keys {
      FormatIs(entries, k);
      if k in format.Keys - WrapperKeys(format) {
        assert Supplies(Entry(k, format[k]), k, format[k]);
      }
      if k in Wrapped(format) {
        assert Supplies(Entry("fields", format["fields"]), k, Wrapped(format)[k]);
      }
    }
  }

  /**
   The normalized format has exactly the declared keys if and only if the `fields` wrapper, taken as
   empty where there is none, wraps every wrapper's key and no key that is not declared.
   */
  lemma DeclaredKeysIff(entries: seq<Entry>, format: Format)
    requires Lists(entries, format)
    ensures NormalizeFormat(entries).Keys == format.Keys <==>
      WrapperKeys(format) <= Wrapped(format).Keys <= format.Keys
  {
    KeysAre(entries, format);
  }

  /** An accepted definition of `options` is dropped, and the format is empty. */
  lemma OptionsAreDropped() returns (entries: seq<Entry>)
    ensures entries == [Entry("options", Obj(map[]))] && NormalizeFormat(entries) == map[]
    ensures ValidField("options", Obj(map[]))
  {
    entries := [Entry("options", Obj(map[]))];
    assert entries[..0] == [];
    assert NormalizeFormat([]) == map[];
    assert Normalize(Obj(map[])) == Str("object");
  }

  /** Valid definitions and no `fields` wrapper: what is compiled is a valid format. */
  lemma ValidAfterNormalizing(entries: seq<Entry>, format: Format)
    requires Lists(entries, format) && Wrapped(format) == map[]
    requires forall k | k in format :: ValidField(k, format[k])
    ensures ValidFormat(NormalizeFormat(entries))
  {
    var out := NormalizeFormat(entries);
    FormatIsNormal(entries);
    forall k | k in out ensures ValidField(k, out[k]) {
      FormatIs(entries, k);
      var e, d :| e in entries && Supplies(e, k, d) && out[k] == Normalize(d);
      assert e.key == k && d == format[k];
      NormalFieldIsValid(k, d);
    }
  }

  lemma NormalFieldIsValid(key: string, value: Json)
    requires ValidField(key, value)
    ensures ValidField(key, Normalize(value))
  {
    NormalizeIdempotent(value);
  }
}
