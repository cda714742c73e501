/**
 The output-format language of prompts: descriptors, their validity, their compilation to a JSON
 Schema, and the validation of model payloads (engine/open_kritt_engine/schema.py).
 */
module OutputSchema {
  import opened Wrappers
  import opened JsonValues
  import opened Text

  const FIELD_TYPES := {"string", "number", "boolean", "array", "object"}
  const DESCRIPTOR_KEYS := {"type", "items", "fields", "required", "enum"}
  const MAX_DESCRIPTOR_DEPTH := 4
  const MAX_DESCRIPTOR_FIELDS := 64
  const HELPER_FIELD := "_kritt_extractor_helper"
  const RESERVED_PREFIX := "_engine_"
  const RESERVED_KEY := "_chip_lifecycle"

  predicate IsReserved(key: string) {
    key == RESERVED_KEY || RESERVED_PREFIX <= key
  }

  predicate IsTypeName(v: Json) {
    v.Str? && v.s in FIELD_TYPES
  }

  predicate IsDescriptor(v: Json) {
    v.Obj? && "type" in v.fields
  }

  // ---- Normalization ----

  /** `normalize_field_definition`: a type name, or a descriptor with normalized parts. */
  function Normalize(v: Json): Json {
    match v
    case Str(_) => v
    case Arr(_) => Str("array")
    case Bool(_) => Str("boolean")
    case Num(_) => Str("number")
    case Null => Str("string")
    case Obj(fields) =>
      if "type" !in fields then Str("object")
      else if fields.Keys == {"type"} && IsTypeName(fields["type"]) then fields["type"]
      else
        Obj(map k | k in fields ::
              if k == "items" then Normalize(fields[k])
              else if k == "fields" && fields[k].Obj? then 
                Obj(map name | name in fields[k].fields :: Normalize(fields[k].fields[name]))
              else fields[k])
  }

  lemma {:induction false} NormalizeIdempotent(v: Json)
    ensures Normalize(Normalize(v)) == Normalize(v)
  {
    if IsDescriptor(v) && !(v.fields.Keys == {"type"} && IsTypeName(v.fields["type"])) {
      var fields, n := v.fields, Normalize(v).fields;
      assert n.Keys == fields.Keys && n["type"] == fields["type"];
      if "items" in fields {
        NormalizeIdempotent(fields["items"]);
      }
      if "fields" in fields && fields["fields"].Obj? {
        forall name | name in fields["fields"].fields
          ensures Normalize(Normalize(fields["fields"].fields[name])) == Normalize(fields["fields"].fields[name])
        {
          NormalizeIdempotent(fields["fields"].fields[name]);
        }
      }
      var again := Normalize(Normalize(v)).fields;
      assert again.Keys == n.Keys;
      forall k | k in n ensures again[k] == n[k] {
        if k == "fields" && n[k].Obj? {
          assert again[k].fields.Keys == n[k].fields.Keys;
        }
      }
      assert again == n;
    }
  }

  // ---- Validity ----

  /** What the checker reports about a definition. */
  datatype DefinitionFault =
    | ReservedKey | TooManyFields | UnsupportedType | NotADefinition | TooDeep | UnknownKey
    | MisplacedKey | MissingItems | MissingFields | BadRequired | MisplacedEnum | BadEnum

  predicate HasFields(d: Json) {
    d.Obj? && "fields" in d.fields && d.fields["fields"].Obj?
  }

  function DeclaredFields(d: Json): map<string, Json> {
    if HasFields(d) then d.fields["fields"].fields else map[]
  }

  /** The field counts of the named declared fields, added up in any order. */
  ghost function SumCounts(d: Json, names: set<string>): nat
    requires names <= DeclaredFields(d).Keys
    decreases d, 0, names
  {
    if names == {} then 0
    else
      var name :| name in names;
      FieldCount(DeclaredFields(d)[name]) + SumCounts(d, names - {name})
  }

  /** `_count_definitions`: the declared `fields` entries of a whole descriptor. */
  ghost function FieldCount(d: Json): nat
    decreases d, 1
  {
    (if d.Obj? && "items" in d.fields then FieldCount(d.fields["items"]) else 0)
    + |DeclaredFields(d)| + SumCounts(d, DeclaredFields(d).Keys)
  }

  lemma {:induction false} SumCountsRemove(d: Json, names: set<string>, name: string)
    requires name in names && names <= DeclaredFields(d).Keys
    ensures SumCounts(d, names) == FieldCount(DeclaredFields(d)[name]) + SumCounts(d, names - {name})
    decreases names
  {
    var first :| first in names &&
      SumCounts(d, names) == FieldCount(DeclaredFields(d)[first]) + SumCounts(d, names - {first});
    if first != name {
      SumCountsRemove(d, names - {first}, name);
      SumCountsRemove(d, names - {name}, first);
      assert names - {first} - {name} == names - {name} - {first};
    }
  }

  method CountDefinitions(d: Json) returns (total: nat)
    ensures total == FieldCount(d)
    decreases d
  {
    total := 0;
    if d.Obj? && "items" in d.fields {
      total := CountDefinitions(d.fields["items"]);
    }
    if HasFields(d) {
      var fields := d.fields["fields"].fields;
      ghost var before := total;
      total := total + |fields|;
      var names := fields.Keys;
      while names != {}
        invariant names <= fields.Keys
        invariant total + SumCounts(d, names) == before + |fields| + SumCounts(d, fields.Keys)
      {
        var name :| name in names;
        SumCountsRemove(d, names, name);
        var nested := CountDefinitions(fields[name]);
        total, names := total + nested, names - {name};
      }
    }
  }

  predicate UniqueStrings(v: Json) {
    && v.Arr?
    && (forall x | x in v.items :: x.Str?)
    && (forall i, j | 0 <= i < j < |v.items| :: v.items[i] != v.items[j])
  }

  /** The required list of an object descriptor names declared fields, each once. */
  predicate RequiredOk(d: Json)
    requires d.Obj?
  {
    "required" in d.fields && d.fields["required"] != Null ==>
      UniqueStrings(d.fields["required"]) &&
      forall x | x in d.fields["required"].items :: x.s in DeclaredFields(d)
  }

  predicate ArrayOk(d: Json)
    requires d.Obj?
  {
    d.fields.Keys <= {"type", "items"}
  }

  predicate ObjectOk(d: Json)
    requires d.Obj?
  {
    && d.fields.Keys <= {"type", "fields", "required"}
    && (d.fields.Keys != {"type"} ==> DeclaredFields(d) != map[])
    && RequiredOk(d)
  }

  predicate StringOk(d: Json)
    requires d.Obj?
  {
    && d.fields.Keys <= {"type", "enum"}
    && ("enum" in d.fields ==> UniqueStrings(d.fields["enum"]) && d.fields["enum"].items != [])
  }

  /** A definition, at a nesting depth, without any of the faults the checker reports. */
  predicate ValidDefinition(d: Json, depth: nat)
    decreases d
  {
    if d.Str? then d.s in FIELD_TYPES
    else
      && d.Obj?
      && depth <= MAX_DESCRIPTOR_DEPTH
      && "type" in d.fields && IsTypeName(d.fields["type"])
      && var kind := d.fields["type"].s;
         if kind == "array" then
           ArrayOk(d) && ("items" in d.fields ==> ValidDefinition(d.fields["items"], depth + 1))
         else if kind == "object" then
           ObjectOk(d) && forall name | name in DeclaredFields(d) ::
                            !IsReserved(name) && ValidDefinition(DeclaredFields(d)[name], depth + 1)
         else if kind == "string" then StringOk(d)
         else d.fields.Keys == {"type"}
  }

  /** `validate_field_definition`, for the last segment of the path and the raw definition. */
  ghost predicate ValidField(key: string, value: Json) {
    && !IsReserved(key)
    && (value.Str? || value.Obj?)
    && FieldCount(Normalize(value)) <= MAX_DESCRIPTOR_FIELDS
    && ValidDefinition(Normalize(value), 1)
  }

  // ---- The checker ----

  /** The one type a structural key belongs to. */
  function Owner(key: string): string {
    if key == "items" then "array" else if key == "enum" then "string" else "object"
  }

  /** A structural key under a type that does not own it; an enum under a number or Boolean is told apart. */
  predicate Misplaced(d: Json, kind: string, key: string)
    requires d.Obj?
  {
    && key in {"items", "fields", "required", "enum"} && key in d.fields && Owner(key) != kind
    && (key == "enum" ==> kind == "array" || kind == "object")
  }

  /** What each fault says of the keys of a descriptor of a type. */
  ghost predicate LocalFault(d: Json, kind: string, f: DefinitionFault)
    requires d.Obj?
  {
    || (f == MisplacedKey && exists key :: Misplaced(d, kind, key))
    || (f == MissingItems && kind == "array" && d.fields.Keys != {"type"} && "items" !in d.fields)
    || (f == MissingFields && kind == "object" && d.fields.Keys != {"type"} && DeclaredFields(d) == map[])
    || (f == BadRequired && kind == "object" && !RequiredOk(d))
    || (f == MisplacedEnum && kind in {"number", "boolean"} && "enum" in d.fields)
    || (f == BadEnum && kind == "string" && "enum" in d.fields &&
        !(UniqueStrings(d.fields["enum"]) && d.fields["enum"].items != []))
  }

  /** A fault, and the descriptor it is found in. */
  datatype Located = Located(path: seq<string>, fault: DefinitionFault)

  /** What each fault says of a definition at a path and nesting depth: of itself, its items or a declared field. */
  ghost predicate HasFault(d: Json, path: seq<string>, depth: nat, f: Located)
    decreases d, 2
  {
    if d.Str? then f == Located(path, UnsupportedType) && d.s !in FIELD_TYPES
    else if !d.Obj? then f == Located(path, NotADefinition)
    else if depth > MAX_DESCRIPTOR_DEPTH then f == Located(path, TooDeep)
    else
      || (f == Located(path, UnknownKey) && !(d.fields.Keys <= DESCRIPTOR_KEYS))
      || if "type" !in d.fields || !IsTypeName(d.fields["type"]) then f == Located(path, UnsupportedType)
         else
           var kind := d.fields["type"].s;
           || (f.path == path && LocalFault(d, kind, f.fault))
           || (kind == "array" && "items" in d.fields &&
               HasFault(d.fields["items"], path + ["items"], depth + 1, f))
           || (kind == "object" && SomeFieldFault(d, path, depth + 1, f))
  }

  /** A reserved or faulty declared field. */
  ghost predicate FieldFault(d: Json, path: seq<string>, name: string, depth: nat, f: Located)
    decreases d, 0
  {
    name in DeclaredFields(d) &&
    var at := path + ["fields", name];
    if IsReserved(name) then f == Located(at, ReservedKey) else HasFault(DeclaredFields(d)[name], at, depth, f)
  }

  ghost predicate SomeFieldFault(d: Json, path: seq<string>, depth: nat, f: Located)
    decreases d, 1
  {
    exists name :: FieldFault(d, path, name, depth, f)
  }

  /** What `validate_field_definition` reports of a key and its raw definition. */
  ghost predicate KeyFault(key: string, value: Json, f: Located) {
    var definition := if value.Str? || value.Obj? then Normalize(value) else value;
    if IsReserved(key) then f == Located([key], ReservedKey)
    else if FieldCount(definition) > MAX_DESCRIPTOR_FIELDS then f == Located([key], TooManyFields)
    else HasFault(definition, [key], 1, f)
  }

  method ValidateFieldDefinition(key: string, value: Json) returns (errors: seq<Located>)
    ensures errors == [] <==> ValidField(key, value)
    ensures forall f :: f in errors <==> KeyFault(key, value, f)
  {
    if IsReserved(key) {
      return [Located([key], ReservedKey)];
    }
    var definition := if value.Str? || value.Obj? then Normalize(value) else value;
    if definition.Obj? {
      var total := CountDefinitions(definition);
      if total > MAX_DESCRIPTOR_FIELDS {
        return [Located([key], TooManyFields)];
      }
    }
    errors := ValidateDefinition(definition, [key], 1);
  }

  method ValidateFields(d: Json, path: seq<string>, depth: nat) returns (errors: seq<Located>)
    requires d.Obj?
    ensures errors == [] <==> forall name | name in DeclaredFields(d) ::
      !IsReserved(name) && ValidDefinition(DeclaredFields(d)[name], depth)
    ensures forall f :: f in errors <==> SomeFieldFault(d, path, depth, f)
    decreases d, 0
  {
    var fields := DeclaredFields(d);
    var names := fields.Keys;
    errors := [];
    while names != {}
      invariant names <= fields.Keys
      invariant errors == [] <==> forall name | name in fields.Keys - names ::
        !IsReserved(name) && ValidDefinition(fields[name], depth)
      invariant forall f :: f in errors <==> exists name :: name !in names && FieldFault(d, path, name, depth, f)
    {
      var name :| name in names;
      names := names - {name};
      if IsReserved(name) {
        errors := errors + [Located(path + ["fields", name], ReservedKey)];
      } else {
        var nested := ValidateDefinition(fields[name], path + ["fields", name], depth);
        errors := errors + nested;
      }
    }
  }

  method ValidateDefinition(d: Json, path: seq<string>, depth: nat) returns (errors: seq<Located>)
    ensures errors == [] <==> ValidDefinition(d, depth)
    ensures forall f :: f in errors <==> HasFault(d, path, depth, f)
    decreases d, 1
  {
    if d.Str? {
      return if d.s in FIELD_TYPES then [] else [Located(path, UnsupportedType)];
    }
    if !d.Obj? {
      return [Located(path, NotADefinition)];
    }
    if depth > MAX_DESCRIPTOR_DEPTH {
      return [Located(path, TooDeep)];
    }
    errors := if d.fields.Keys <= DESCRIPTOR_KEYS then [] else [Located(path, UnknownKey)];
    if "type" !in d.fields || !IsTypeName(d.fields["type"]) {
      return errors + [Located(path, UnsupportedType)];
    }
    var kind := d.fields["type"].s;
    var nested := [];
    if kind == "array" && "items" in d.fields {
      nested := ValidateDefinition(d.fields["items"], path + ["items"], depth + 1);
    } else if kind == "object" {
      nested := ValidateFields(d, path, depth + 1);
    }
    errors := errors + Locate(path, LocalErrors(d, kind)) + nested;
    forall f ensures f in Locate(path, LocalErrors(d, kind)) <==> f.path == path && LocalFault(d, kind, f.fault) {
      LocalFaults(d, kind, f.fault);
      LocateMember(path, LocalErrors(d, kind), f);
    }
  }

  function Locate(path: seq<string>, faults: seq<DefinitionFault>): (r: seq<Located>)
    ensures r == [] <==> faults == []
  {
    seq(|faults|, i requires 0 <= i < |faults| => Located(path, faults[i]))
  }

  lemma LocateMember(path: seq<string>, faults: seq<DefinitionFault>, f: Located)
    ensures f in Locate(path, faults) <==> f.path == path && f.fault in faults
  {
    if f.path == path && f.fault in faults {
      var i :| 0 <= i < |faults| && faults[i] == f.fault;
      assert Locate(path, faults)[i] == f;
    }
  }

  function Only(d: Json, forbidden: set<string>): seq<DefinitionFault>
    requires d.Obj?
  {
    if d.fields.Keys !! forbidden then [] else [MisplacedKey]
  }

  function ArrayErrors(d: Json): seq<DefinitionFault>
    requires d.Obj?
  {
    (if d.fields.Keys != {"type"} && "items" !in d.fields then [MissingItems] else [])
    + Only(d, {"fields", "required", "enum"})
  }

  function ObjectErrors(d: Json): seq<DefinitionFault>
    requires d.Obj?
  {
    Only(d, {"items", "enum"})
    + (if d.fields.Keys != {"type"} && DeclaredFields(d) == map[]
       then [MissingFields] else [])
    + (if RequiredOk(d) then [] else [BadRequired])
  }

  function ScalarErrors(d: Json, kind: string): seq<DefinitionFault>
    requires d.Obj?
  {
    Only(d, {"items", "fields", "required"})
    + (if "enum" !in d.fields then []
       else if kind != "string" then [MisplacedEnum]
       else if UniqueStrings(d.fields["enum"]) && d.fields["enum"].items != [] then []
       else [BadEnum])
  }

  function LocalErrors(d: Json, kind: string): seq<DefinitionFault>
    requires d.Obj?
  {
    if kind == "array" then ArrayErrors(d) else if kind == "object" then ObjectErrors(d) else ScalarErrors(d, kind)
  }

  lemma MisplacedIs(d: Json, kind: string, forbidden: set<string>)
    requires d.Obj?
    requires forall key :: key in forbidden <==>
      key in {"items", "fields", "required", "enum"} && Owner(key) != kind &&
      (key == "enum" ==> kind == "array" || kind == "object")
    ensures Only(d, forbidden) == [MisplacedKey] <==> exists key :: Misplaced(d, kind, key)
  {
    if !(d.fields.Keys !! forbidden) {
      var key :| key in d.fields.Keys && key in forbidden;
      assert Misplaced(d, kind, key);
    }
  }

  lemma ArrayFaults(d: Json, f: DefinitionFault)
    requires d.Obj?
    ensures f in ArrayErrors(d) <==> LocalFault(d, "array", f)
  {
    MisplacedIs(d, "array", {"fields", "required", "enum"});
  }

  lemma ObjectFaults(d: Json, f: DefinitionFault)
    requires d.Obj?
    ensures f in ObjectErrors(d) <==> LocalFault(d, "object", f)
  {
    MisplacedIs(d, "object", {"items", "enum"});
  }

  lemma ScalarFaults(d: Json, kind: string, f: DefinitionFault)
    requires d.Obj? && kind in {"string", "number", "boolean"}
    ensures f in ScalarErrors(d, kind) <==> LocalFault(d, kind, f)
  {
    MisplacedIs(d, kind, {"items", "fields", "required"});
  }

  lemma LocalFaults(d: Json, kind: string, f: DefinitionFault)
    requires d.Obj? && kind in FIELD_TYPES
    ensures f in LocalErrors(d, kind) <==> LocalFault(d, kind, f)
  {
    if kind == "array" {
      ArrayFaults(d, f);
    } else if kind == "object" {
      ObjectFaults(d, f);
    } else {
      ScalarFaults(d, kind, f);
    }
  }

  // ---- Compilation ----

  /** The JSON Schema keywords the compiler emits; an absent keyword asserts nothing. */
  datatype Schema = Schema(
    kind: string, enumValues: Option<seq<Json>>, constant: Option<Json>,
    items: Option<Schema>, properties: map<string, Schema>, required: set<string>,
    additional: bool, maxItems: Option<nat>)

  function OfType(kind: string): Schema {
    Schema(kind, None, None, None, map[], {}, true, None)
  }

  /** `FIELD_TYPE_MAP`, with its fallback. */
  function TypeSchema(name: string): Schema {
    if name == "array" then OfType(name).(items := Some(OfType("string")))
    else if name in FIELD_TYPES then OfType(name)
    else OfType("string")
  }

  function StringsOf(v: Json): set<string> {
    if v.Arr? then set x | x in v.items && x.Str? :: x.s else {}
  }

  /** The required keys of an object schema. */
  function Listed(d: Json): set<string>
    requires d.Obj?
  {
    if "required" in d.fields && d.fields["required"].Arr? then StringsOf(d.fields["required"])
    else DeclaredFields(d).Keys
  }

  /** `field_definition_schema`, on a normalized definition. */
  function NormalSchema(d: Json): Schema {
    if d.Str? then TypeSchema(d.s)
    else if !IsDescriptor(d) || !d.fields["type"].Str? then OfType("string")
    else
      var kind := d.fields["type"].s;
      if kind == "array" then
        OfType("array").(items := Some(
          if "items" in d.fields then NormalSchema(d.fields["items"]) else OfType("string")))
      else if kind == "object" && DeclaredFields(d) != map[] then
        var fields := DeclaredFields(d);
        OfType("object").(
          properties := map name | name in fields :: NormalSchema(fields[name]),
          required := Listed(d), additional := false)
      else if kind == "string" && "enum" in d.fields && d.fields["enum"].Arr? && d.fields["enum"].items != [] then
        OfType("string").(enumValues := Some(d.fields["enum"].items))
      else TypeSchema(kind)
  }

  function FieldSchema(d: Json): Schema {
    NormalSchema(Normalize(d))
  }

  /** The source normalizes again at every level; on the parts of a normalized definition that is the identity. */
  lemma RenormalizingIsIdentity(d: Json)
    ensures var n := Normalize(d);
            && (n.Obj? && "items" in n.fields ==> FieldSchema(n.fields["items"]) == NormalSchema(n.fields["items"]))
            && (forall name | name in DeclaredFields(n) ::
                  FieldSchema(DeclaredFields(n)[name]) == NormalSchema(DeclaredFields(n)[name]))
  {
    var n := Normalize(d);
    if n.Obj? && "items" in n.fields {
      NormalizeIdempotent(d.fields["items"]);
    }
    forall name | name in DeclaredFields(n)
      ensures Normalize(DeclaredFields(n)[name]) == DeclaredFields(n)[name]
    {
      NormalizeIdempotent(d.fields["fields"].fields[name]);
    }
  }

  /**
   The compiler as it recurs: it normalizes the definition it is given, then each part again. A
   relation between a definition and the schema it gives, by recursion on the schema.
   */
  predicate Compiles(d: Json, s: Schema)
    decreases s
  {
    var n := Normalize(d);
    if n.Str? then s == TypeSchema(n.s)
    else if !IsDescriptor(n) || !n.fields["type"].Str? then s == OfType("string")
    else
      var kind, fields := n.fields["type"].s, DeclaredFields(n);
      if kind == "array" then
        && s.items.Some? && s == OfType("array").(items := s.items)
        && Compiles(if "items" in n.fields then n.fields["items"] else Str("string"), s.items.value)
      else if kind == "object" && fields != map[] then
        && s == OfType("object").(properties := s.properties, required := Listed(n), additional := false)
        && s.properties.Keys == fields.Keys
        && forall name | name in fields :: Compiles(fields[name], s.properties[name])
      else if kind == "string" && "enum" in n.fields && n.fields["enum"].Arr? && n.fields["enum"].items != [] then
        s == OfType("string").(enumValues := Some(n.fields["enum"].items))
      else s == TypeSchema(kind)
  }

  /** Normalizing once, at the top, gives the schema that normalizing at every level gives, and no other does. */
  lemma {:induction false} CompilesIff(d: Json, s: Schema)
    ensures Compiles(d, s) <==> s == FieldSchema(d)
    decreases s
  {
    var n := Normalize(d);
    if IsDescriptor(n) && n.fields["type"].Str? {
      RenormalizingIsIdentity(d);
      if n.fields["type"].s == "array" && s.items.Some? {
        CompilesIff(if "items" in n.fields then n.fields["items"] else Str("string"), s.items.value);
      } else if n.fields["type"].s == "object" && s.properties.Keys == DeclaredFields(n).Keys {
        CompilesFields(d, n, s);
      }
    }
  }

  lemma SameProperties(fields: map<string, Json>, properties: map<string, Schema>)
    requires properties.Keys == fields.Keys
    ensures (forall name | name in fields :: properties[name] == NormalSchema(fields[name])) <==>
      properties == map name | name in fields :: NormalSchema(fields[name])
  {
  }

  lemma {:induction false} CompilesFields(d: Json, n: Json, s: Schema)
    requires n == Normalize(d) && IsDescriptor(n) && n.fields["type"] == Str("object")
    requires s.properties.Keys == DeclaredFields(n).Keys
    ensures Compiles(d, s) <==> s == FieldSchema(d)
    decreases s, 0
  {
    var fields := DeclaredFields(n);
    RenormalizingIsIdentity(d);
    forall name | name in fields
      ensures Compiles(fields[name], s.properties[name]) <==> s.properties[name] == NormalSchema(fields[name])
    {
      CompilesIff(fields[name], s.properties[name]);
    }
    SameProperties(fields, s.properties);
  }

  // ---- JSON Schema, for the keywords above ----

  predicate TypeMatches(kind: string, v: Json) {
    match v
    case Str(_) => kind == "string"
    case Num(_) => kind == "number"
    case Bool(_) => kind == "boolean"
    case Arr(_) => kind == "array"
    case Obj(_) => kind == "object"
    case Null => kind == "null"
  }

  /** Each keyword asserts by itself, and only about values of the type it applies to. */
  predicate Accepts(schema: Schema, v: Json)
    decreases v
  {
    && TypeMatches(schema.kind, v)
    && (schema.enumValues.Some? ==> v in schema.enumValues.value)
    && (schema.constant.Some? ==> v == schema.constant.value)
    && (v.Arr? ==>
          && (schema.maxItems.Some? ==> |v.items| <= schema.maxItems.value)
          && (schema.items.Some? ==> forall x | x in v.items :: Accepts(schema.items.value, x)))
    && (v.Obj? ==>
          && schema.required <= v.fields.Keys
          && (forall k | k in v.fields && k in schema.properties :: Accepts(schema.properties[k], v.fields[k]))
          && (schema.additional || v.fields.Keys <= schema.properties.Keys))
  }

  // ---- What a definition means ----

  predicate MeansType(name: string, v: Json) {
    match name
    case "string" => v.Str?
    case "number" => v.Num?
    case "boolean" => v.Bool?
    case "array" => v.Arr? && forall x | x in v.items :: x.Str?
    case "object" => v.Obj?
    case _ => false
  }

  /** Which fields a declared object must carry: all of them, unless a list says otherwise. */
  function MustHave(d: Json): set<string>
    requires d.Obj?
  {
    if "required" in d.fields && d.fields["required"] != Null then StringsOf(d.fields["required"])
    else DeclaredFields(d).Keys
  }

  /** The values a valid normalized definition stands for. */
  predicate Means(d: Json, v: Json)
    decreases d
  {
    if d.Str? then MeansType(d.s, v)
    else if !IsDescriptor(d) || !d.fields["type"].Str? then false
    else if "items" in d.fields then v.Arr? && forall x | x in v.items :: Means(d.fields["items"], x)
    else if HasFields(d) then
      && v.Obj?
      && MustHave(d) <= v.fields.Keys <= DeclaredFields(d).Keys
      && forall k | k in v.fields && k in DeclaredFields(d) :: Means(DeclaredFields(d)[k], v.fields[k])
    else if "enum" in d.fields then d.fields["enum"].Arr? && v in d.fields["enum"].items
    else MeansType(d.fields["type"].s, v)
  }

  lemma {:induction false} NormalSchemaCorrect(d: Json, depth: nat, v: Json)
    requires ValidDefinition(d, depth)
    ensures Accepts(NormalSchema(d), v) <==> Means(d, v)
    decreases d
  {
    if d.Str? {
    } else if d.fields["type"].s == "array" {
      ArraySchemaCorrect(d, depth, v);
    } else if d.fields["type"].s == "object" {
      ObjectSchemaCorrect(d, depth, v);
    } else if "enum" in d.fields {
      assert forall x | x in d.fields["enum"].items :: x.Str?;
    }
  }

  lemma {:induction false} ArraySchemaCorrect(d: Json, depth: nat, v: Json)
    requires ValidDefinition(d, depth) && d.Obj? && d.fields["type"].s == "array"
    ensures Accepts(NormalSchema(d), v) <==> Means(d, v)
    decreases d, 0
  {
    if "items" in d.fields && v.Arr? {
      forall x | x in v.items
        ensures Accepts(NormalSchema(d.fields["items"]), x) <==> Means(d.fields["items"], x)
      {
        NormalSchemaCorrect(d.fields["items"], depth + 1, x);
      }
    }
  }

  lemma {:induction false} ObjectSchemaCorrect(d: Json, depth: nat, v: Json)
    requires ValidDefinition(d, depth) && d.Obj? && d.fields["type"].s == "object"
    ensures Accepts(NormalSchema(d), v) <==> Means(d, v)
    decreases d, 0
  {
    var fields := DeclaredFields(d);
    if fields != map[] && v.Obj? {
      forall k | k in v.fields && k in fields
        ensures Accepts(NormalSchema(fields[k]), v.fields[k]) <==> Means(fields[k], v.fields[k])
      {
        NormalSchemaCorrect(fields[k], depth + 1, v.fields[k]);
      }
      var schema := NormalSchema(d);
      assert schema.properties.Keys == fields.Keys;
      assert schema.required == MustHave(d);
    } else if fields == map[] {
      assert d.fields.Keys == {"type"};
    }
  }

  // ---- What a raw definition means, and when it is valid, without normalizing it ----

  /** A definition that stands for a type by name: the name, or the type of a sample value. */
  function NamedType(d: Json): string {
    match d
    case Str(s) => s
    case Num(_) => "number"
    case Bool(_) => "boolean"
    case Null => "string"
    case Arr(_) => "array"
    case Obj(_) => "object"
  }

  /** An object carries the required fields: those listed, or all declared ones where nothing is listed. */
  predicate Carries(d: Json, fields: map<string, Json>, v: map<string, Json>)
    requires d.Obj?
  {
    if "required" in d.fields && d.fields["required"] != Null then
      d.fields["required"].Arr? ==> forall x | x in d.fields["required"].items && x.Str? :: x.s in v
    else forall name | name in fields :: name in v
  }

  /** The values a definition stands for, as it is written. */
  predicate RawMeans(d: Json, v: Json)
    decreases d
  {
    if !(d.Obj? && "type" in d.fields) then MeansType(NamedType(d), v)
    else if !d.fields["type"].Str? then false
    else if "items" in d.fields then v.Arr? && forall x | x in v.items :: RawMeans(d.fields["items"], x)
    else if "fields" in d.fields && d.fields["fields"].Obj? then
      var fields := d.fields["fields"].fields;
      && v.Obj? && Carries(d, fields, v.fields)
      && forall k | k in v.fields :: k in fields && RawMeans(fields[k], v.fields[k])
    else if "enum" in d.fields then d.fields["enum"].Arr? && v in d.fields["enum"].items
    else MeansType(d.fields["type"].s, v)
  }

  /** A list of different texts. */
  predicate DifferentTexts(items: seq<Json>) {
    && (forall i | 0 <= i < |items| :: items[i].Str?)
    && forall i, j | 0 <= i < j < |items| :: items[i] != items[j]
  }

  /** The required list is null, or names declared fields, each once. */
  predicate RawRequiredOk(d: Json, fields: map<string, Json>)
    requires d.Obj?
  {
    "required" in d.fields && d.fields["required"] != Null ==>
      && d.fields["required"].Arr? && DifferentTexts(d.fields["required"].items)
      && forall x | x in d.fields["required"].items :: x.Str? && x.s in fields
  }

  /** The keys of an object descriptor that is more than a type name. */
  predicate RawObjectOk(d: Json)
    requires d.Obj?
  {
    && {"type", "fields"} <= d.fields.Keys <= {"type", "fields", "required"}
    && d.fields["fields"].Obj? && d.fields["fields"].fields != map[]
    && RawRequiredOk(d, d.fields["fields"].fields)
  }

  /** A raw definition at a nesting depth without a fault; a type by name may stand at any depth. */
  predicate RawValid(d: Json, depth: nat)
    decreases d
  {
    if !(d.Obj? && "type" in d.fields) then NamedType(d) in FIELD_TYPES
    else
      && d.fields["type"].Str? && d.fields["type"].s in FIELD_TYPES
      && (d.fields.Keys == {"type"} ||
          (depth <= MAX_DESCRIPTOR_DEPTH &&
           match d.fields["type"].s
           case "array" => d.fields.Keys == {"type", "items"} && RawValid(d.fields["items"], depth + 1)
           case "object" =>
             && RawObjectOk(d)
             && forall name | name in d.fields["fields"].fields ::
                  !IsReserved(name) && RawValid(d.fields["fields"].fields[name], depth + 1)
           case "string" =>
             && d.fields.Keys == {"type", "enum"} && d.fields["enum"].Arr?
             && d.fields["enum"].items != [] && DifferentTexts(d.fields["enum"].items)
           case _ => false))
  }

  /** A descriptor that is only a type name. */
  predicate Collapses(d: Json) {
    IsDescriptor(d) && d.fields.Keys == {"type"} && IsTypeName(d.fields["type"])
  }

  lemma NormalParts(d: Json)
    requires IsDescriptor(d) && !Collapses(d)
    ensures var n := Normalize(d);
            && n.Obj? && n.fields.Keys == d.fields.Keys && n.fields["type"] == d.fields["type"]
            && ("items" in d.fields ==> n.fields["items"] == Normalize(d.fields["items"]))
            && ("required" in d.fields ==> n.fields["required"] == d.fields["required"])
            && ("enum" in d.fields ==> n.fields["enum"] == d.fields["enum"])
            && (HasFields(d) <==> HasFields(n))
            && DeclaredFields(n).Keys == DeclaredFields(d).Keys
            && forall name | name in DeclaredFields(d) ::
                 DeclaredFields(n)[name] == Normalize(DeclaredFields(d)[name])
  {
  }

  lemma {:induction false} MeansIsRaw(d: Json, v: Json)
    ensures Means(Normalize(d), v) <==> RawMeans(d, v)
    decreases d
  {
    if IsDescriptor(d) && !Collapses(d) && d.fields["type"].Str? {
      NormalParts(d);
      if "items" in d.fields {
        if v.Arr? {
          forall x | x in v.items ensures Means(Normalize(d.fields["items"]), x) <==> RawMeans(d.fields["items"], x) {
            MeansIsRaw(d.fields["items"], x);
          }
        }
      } else if HasFields(d) {
        FieldsMeanRaw(d, v);
      }
    }
  }

  lemma CarriesIsRaw(d: Json, v: map<string, Json>)
    requires HasFields(d)
    ensures MustHave(d) <= v.Keys <==> Carries(d, d.fields["fields"].fields, v)
  {
    if "required" in d.fields && d.fields["required"].Arr? {
      forall x | x in d.fields["required"].items && x.Str? ensures x.s in StringsOf(d.fields["required"]) {
      }
    }
  }

  lemma {:induction false} FieldsMeanRaw(d: Json, v: Json)
    requires IsDescriptor(d) && !Collapses(d) && d.fields["type"].Str? && "items" !in d.fields && HasFields(d)
    ensures Means(Normalize(d), v) <==> RawMeans(d, v)
    decreases d, 0
  {
    NormalParts(d);
    if v.Obj? {
      forall k | k in v.fields && k in DeclaredFields(d)
        ensures Means(Normalize(DeclaredFields(d)[k]), v.fields[k]) <==> RawMeans(DeclaredFields(d)[k], v.fields[k])
      {
        MeansIsRaw(DeclaredFields(d)[k], v.fields[k]);
      }
      assert MustHave(Normalize(d)) == MustHave(d);
      CarriesIsRaw(d, v.fields);
    }
  }

  /** The compiled schema of every accepted definition accepts exactly the values the definition, as written, means. */
  lemma CompilerCorrect(key: string, d: Json, v: Json)
    requires ValidField(key, d)
    ensures Accepts(FieldSchema(d), v) <==> RawMeans(d, v)
  {
    NormalSchemaCorrect(Normalize(d), 1, v);
    MeansIsRaw(d, v);
  }

  lemma UniqueIsDifferent(v: Json)
    ensures UniqueStrings(v) <==> v.Arr? && DifferentTexts(v.items)
  {
    if v.Arr? {
      assert forall x :: x in v.items <==> exists i :: 0 <= i < |v.items| && v.items[i] == x;
    }
  }

  lemma RequiredIsRaw(d: Json)
    requires IsDescriptor(d) && !Collapses(d)
    ensures RequiredOk(Normalize(d)) <==> RawRequiredOk(d, DeclaredFields(d))
  {
    NormalParts(d);
    if "required" in d.fields {
      UniqueIsDifferent(d.fields["required"]);
    }
  }

  lemma {:induction false} ArrayValidIsRaw(d: Json, depth: nat)
    requires IsDescriptor(d) && !Collapses(d) && d.fields["type"] == Str("array")
    ensures ValidDefinition(Normalize(d), depth) <==> RawValid(d, depth)
    decreases d, 0
  {
    NormalParts(d);
    if "items" in d.fields {
      ValidIsRaw(d.fields["items"], depth + 1);
    }
    assert d.fields.Keys <= {"type", "items"} ==> d.fields.Keys == {"type", "items"} by {
      assert d.fields.Keys != {"type"};
    }
  }

  lemma ObjectKeysAreRaw(d: Json)
    requires IsDescriptor(d) && d.fields.Keys != {"type"}
    ensures RawObjectOk(d) <==>
      && d.fields.Keys <= {"type", "fields", "required"} && DeclaredFields(d) != map[]
      && RawRequiredOk(d, DeclaredFields(d))
  {
    assert DeclaredFields(d) != map[] ==> "fields" in d.fields;
  }

  lemma ObjectOkIsRaw(d: Json)
    requires IsDescriptor(d) && !Collapses(d) && d.fields["type"] == Str("object")
    ensures Normalize(d).Obj? && (ObjectOk(Normalize(d)) <==> RawObjectOk(d))
  {
    NormalParts(d);
    RequiredIsRaw(d);
    ObjectKeysAreRaw(d);
    assert DeclaredFields(Normalize(d)) == map[] <==> DeclaredFields(Normalize(d)).Keys == {};
  }

  lemma {:induction false} FieldsValidAreRaw(d: Json, depth: nat)
    requires IsDescriptor(d) && !Collapses(d)
    ensures DeclaredFields(Normalize(d)).Keys == DeclaredFields(d).Keys
    ensures forall name | name in DeclaredFields(d) ::
      ValidDefinition(DeclaredFields(Normalize(d))[name], depth) <==> RawValid(DeclaredFields(d)[name], depth)
    decreases d, 0, 0
  {
    NormalParts(d);
    forall name | name in DeclaredFields(d)
      ensures ValidDefinition(DeclaredFields(Normalize(d))[name], depth) <==> RawValid(DeclaredFields(d)[name], depth)
    {
      ValidIsRaw(DeclaredFields(d)[name], depth);
    }
  }

  lemma {:induction false} ObjectValidIsRaw(d: Json, depth: nat)
    requires IsDescriptor(d) && !Collapses(d) && d.fields["type"] == Str("object")
    ensures ValidDefinition(Normalize(d), depth) <==> RawValid(d, depth)
    decreases d, 0, 1
  {
    NormalParts(d);
    ObjectOkIsRaw(d);
    FieldsValidAreRaw(d, depth + 1);
  }

  lemma ScalarValidIsRaw(d: Json, depth: nat)
    requires IsDescriptor(d) && !Collapses(d)
    requires d.fields["type"].Str? && d.fields["type"].s in {"string", "number", "boolean"}
    ensures ValidDefinition(Normalize(d), depth) <==> RawValid(d, depth)
  {
    NormalParts(d);
    if "enum" in d.fields {
      UniqueIsDifferent(d.fields["enum"]);
    }
    assert d.fields.Keys <= {"type", "enum"} ==> d.fields.Keys == {"type", "enum"} by {
      assert d.fields.Keys != {"type"};
    }
  }

  /** Normalizing neither loses nor adds a fault: a raw definition is accepted exactly when it is valid as written. */
  lemma {:induction false} ValidIsRaw(d: Json, depth: nat)
    ensures ValidDefinition(Normalize(d), depth) <==> RawValid(d, depth)
    decreases d, 1
  {
    if IsDescriptor(d) && !Collapses(d) {
      var kind := d.fields["type"];
      if kind == Str("array") {
        ArrayValidIsRaw(d, depth);
      } else if kind == Str("object") {
        ObjectValidIsRaw(d, depth);
      } else if kind.Str? && kind.s in FIELD_TYPES {
        ScalarValidIsRaw(d, depth);
      } else {
        NormalParts(d);
      }
    }
  }

  /** The declared fields of a raw definition, nested ones included; a sample value declares none. */
  ghost function RawCount(d: Json): nat
    decreases d, 1
  {
    if !(d.Obj? && "type" in d.fields) then 0
    else
      (if "items" in d.fields then RawCount(d.fields["items"]) else 0)
      + if "fields" in d.fields && d.fields["fields"].Obj?
        then |d.fields["fields"].fields| + RawSum(d, d.fields["fields"].fields.Keys) else 0
  }

  ghost function RawSum(d: Json, names: set<string>): nat
    requires d.Obj? && "fields" in d.fields && d.fields["fields"].Obj? && names <= d.fields["fields"].fields.Keys
    decreases d, 0, names
  {
    if names == {} then 0
    else
      var name :| name in names;
      RawCount(d.fields["fields"].fields[name]) + RawSum(d, names - {name})
  }

  lemma {:induction false} SumIsRaw(d: Json, names: set<string>)
    requires IsDescriptor(d) && !Collapses(d) && HasFields(d) && names <= DeclaredFields(d).Keys
    ensures names <= DeclaredFields(Normalize(d)).Keys
    ensures SumCounts(Normalize(d), names) == RawSum(d, names)
    decreases d, 0, names
  {
    NormalParts(d);
    if names != {} {
      var name :| name in names &&
        RawSum(d, names) == RawCount(DeclaredFields(d)[name]) + RawSum(d, names - {name});
      SumCountsRemove(Normalize(d), names, name);
      SumIsRaw(d, names - {name});
      CountIsRaw(DeclaredFields(d)[name]);
    }
  }

  lemma {:induction false} CountIsRaw(d: Json)
    ensures FieldCount(Normalize(d)) == RawCount(d)
    decreases d, 1
  {
    if IsDescriptor(d) {
      if Collapses(d) {
        assert DeclaredFields(d) == map[];
      } else {
        NormalParts(d);
        if HasFields(d) {
          SumIsRaw(d, DeclaredFields(d).Keys);
        }
        if "items" in d.fields {
          CountIsRaw(d.fields["items"]);
        }
        assert |DeclaredFields(Normalize(d)).Keys| == |DeclaredFields(d).Keys|;
      }
    }
  }

  /** What is accepted, in terms of the definition as it is written. */
  lemma AcceptedIff(key: string, d: Json)
    ensures ValidField(key, d) <==>
      && !IsReserved(key) && (d.Str? || d.Obj?)
      && RawCount(d) <= MAX_DESCRIPTOR_FIELDS && RawValid(d, 1)
  {
    ValidIsRaw(d, 1);
    CountIsRaw(d);
  }

  // ---- Payloads ----

  /** Why a payload is refused. */
  datatype PayloadFault = SchemaMismatch | StubWithResults | StubWithoutReason | NoResults | TooManyResults

  /** A normalized output format: the declared keys of a result row and their definitions. */
  type Format = map<string, Json>

  predicate NormalFormat(format: Format) {
    forall k | k in format :: Normalize(format[k]) == format[k]
  }

  ghost predicate ValidFormat(format: Format) {
    NormalFormat(format) && forall k | k in format :: ValidField(k, format[k])
  }

  function RowSchema(format: Format): Schema {
    OfType("object").(
      properties := map k | k in format :: FieldSchema(format[k]), required := format.Keys, additional := false)
  }

  const STUB := "stub"
  const EXPLANATION := "stub_explanation"
  const RESULTS := "results"
  const PAYLOAD_KEYS := {HELPER_FIELD, STUB, EXPLANATION, RESULTS}

  function PayloadProperty(format: Format, multiOutput: bool, k: string): Schema {
    if k == RESULTS then
      OfType("array").(items := Some(RowSchema(format)), maxItems := if multiOutput then None else Some(1))
    else if k == EXPLANATION then OfType("string")
    else if k == STUB then OfType("boolean")
    else OfType("boolean").(constant := Some(Bool(true)))
  }

  /** `output_schema`, for a format that has been normalized (see `OutputFormats`). */
  function PayloadSchema(format: Format, multiOutput: bool): Schema {
    OfType("object").(
      properties := map k | k in PAYLOAD_KEYS :: PayloadProperty(format, multiOutput, k),
      required := PAYLOAD_KEYS, additional := false)
  }

  /** The four keys of a payload, with values of the right JSON types. */
  predicate Shaped(payload: Json) {
    && payload.Obj? && payload.fields.Keys == PAYLOAD_KEYS
    && payload.fields[STUB].Bool? && payload.fields[EXPLANATION].Str? && payload.fields[RESULTS].Arr?
  }

  lemma AcceptedIsShaped(format: Format, multiOutput: bool, payload: Json)
    requires Accepts(PayloadSchema(format, multiOutput), payload)
    ensures Shaped(payload)
  {
    var schema := PayloadSchema(format, multiOutput);
    assert schema.properties.Keys == PAYLOAD_KEYS;
    forall k | k in PAYLOAD_KEYS ensures Accepts(PayloadProperty(format, multiOutput, k), payload.fields[k]) {
      assert k in schema.properties;
    }
    assert STUB in PAYLOAD_KEYS && EXPLANATION in PAYLOAD_KEYS && RESULTS in PAYLOAD_KEYS;
  }

  /** `validate_payload` against the format's own schema. */
  function ValidatePayload(payload: Json, format: Format, multiOutput: bool): Result<seq<Json>, PayloadFault> {
    if !Accepts(PayloadSchema(format, multiOutput), payload) then Err(SchemaMismatch)
    else
      AcceptedIsShaped(format, multiOutput, payload);
      var stub, results := payload.fields[STUB].b, payload.fields[RESULTS].items;
      if stub && results != [] then Err(StubWithResults)
      else if stub && Blank(payload.fields[EXPLANATION].s) then
        Err(StubWithoutReason)
      else if !stub && results == [] then Err(NoResults)
      else if !multiOutput && |results| > 1 then Err(TooManyResults)
      else Ok(results)
  }

  /** A row carries exactly the declared keys, each with a value its definition means. */
  predicate RowMeans(format: Format, row: Json) {
    row.Obj? && row.fields.Keys == format.Keys &&
    forall k | k in format :: RawMeans(format[k], row.fields[k])
  }

  /** A stub with a reason, or rows of the declared format: one row, or more for a multi-output step. */
  predicate PayloadMeans(format: Format, multiOutput: bool, payload: Json) {
    && Shaped(payload)
    && payload.fields[HELPER_FIELD] == Bool(true)
    && (forall row | row in payload.fields[RESULTS].items :: RowMeans(format, row))
    && var rows := payload.fields[RESULTS].items;
       if payload.fields[STUB].b then rows == [] && !Blank(payload.fields[EXPLANATION].s)
       else |rows| == 1 || (multiOutput && |rows| > 1)
  }

  lemma RowSchemaCorrect(format: Format, row: Json)
    requires ValidFormat(format)
    ensures Accepts(RowSchema(format), row) <==> RowMeans(format, row)
  {
    var schema := RowSchema(format);
    assert schema.properties.Keys == format.Keys;
    if row.Obj? {
      forall k | k in format && k in row.fields
        ensures Accepts(schema.properties[k], row.fields[k]) <==> RawMeans(format[k], row.fields[k])
      {
        CompilerCorrect(k, format[k], row.fields[k]);
      }
    }
  }

  lemma SchemaIff(format: Format, multiOutput: bool, payload: Json)
    requires Shaped(payload)
    ensures Accepts(PayloadSchema(format, multiOutput), payload) <==>
      forall k | k in PAYLOAD_KEYS :: Accepts(PayloadProperty(format, multiOutput, k), payload.fields[k])
  {
    var schema := PayloadSchema(format, multiOutput);
    assert schema.properties.Keys == PAYLOAD_KEYS;
    assert forall k | k in PAYLOAD_KEYS :: schema.properties[k] == PayloadProperty(format, multiOutput, k);
  }

  lemma ResultsIff(format: Format, multiOutput: bool, v: Json)
    requires ValidFormat(format) && v.Arr?
    ensures Accepts(PayloadProperty(format, multiOutput, RESULTS), v) <==>
      (multiOutput || |v.items| <= 1) && forall row | row in v.items :: RowMeans(format, row)
  {
    forall row | row in v.items ensures Accepts(RowSchema(format), row) <==> RowMeans(format, row) {
      RowSchemaCorrect(format, row);
    }
  }

  lemma ShapedSchemaIff(format: Format, multiOutput: bool, payload: Json)
    requires ValidFormat(format) && Shaped(payload)
    ensures var rows := payload.fields[RESULTS].items;
            Accepts(PayloadSchema(format, multiOutput), payload) <==>
            && payload.fields[HELPER_FIELD] == Bool(true)
            && (multiOutput || |rows| <= 1)
            && forall row | row in rows :: RowMeans(format, row)
  {
    SchemaIff(format, multiOutput, payload);
    ResultsIff(format, multiOutput, payload.fields[RESULTS]);
    assert Accepts(PayloadProperty(format, multiOutput, STUB), payload.fields[STUB]);
    assert Accepts(PayloadProperty(format, multiOutput, EXPLANATION), payload.fields[EXPLANATION]);
    assert Accepts(PayloadProperty(format, multiOutput, HELPER_FIELD), payload.fields[HELPER_FIELD])
      <==> payload.fields[HELPER_FIELD] == Bool(true);
  }

  /** The validator passes exactly the payloads that mean a stub or declared rows, and returns the rows. */
  lemma PayloadAcceptedIff(payload: Json, format: Format, multiOutput: bool)
    requires ValidFormat(format)
    ensures ValidatePayload(payload, format, multiOutput).Ok? <==> PayloadMeans(format, multiOutput, payload)
    ensures PayloadMeans(format, multiOutput, payload) ==>
      ValidatePayload(payload, format, multiOutput) == Ok(payload.fields[RESULTS].items)
  {
    if Shaped(payload) {
      ShapedSchemaIff(format, multiOutput, payload);
    } else if Accepts(PayloadSchema(format, multiOutput), payload) {
      AcceptedIsShaped(format, multiOutput, payload);
      assert false;
    }
  }

  /** Rows that pass carry exactly the keys of the format they are validated against, valid or not. */
  lemma AcceptedRowKeys(payload: Json, format: Format, multiOutput: bool, row: Json)
    requires var r := ValidatePayload(payload, format, multiOutput); r.Ok? && row in r.value
    ensures row.Obj? && row.fields.Keys == format.Keys
  {
    AcceptedIsShaped(format, multiOutput, payload);
    SchemaIff(format, multiOutput, payload);
    assert RESULTS in PAYLOAD_KEYS;
    assert Accepts(PayloadProperty(format, multiOutput, RESULTS), payload.fields[RESULTS]);
    assert Accepts(RowSchema(format), row);
    assert RowSchema(format).properties.Keys == format.Keys;
  }

  function StripRow(row: Json): Json {
    if row.Obj? then Obj(map k | k in row.fields && !IsReserved(k) :: row.fields[k]) else row
  }

  /** `strip_reserved_keys`: engine-owned keys leave the payload and every result row. */
  function StripReserved(payload: map<string, Json>): map<string, Json> {
    map k | k in payload && !IsReserved(k) ::
      if k == RESULTS && payload[k].Arr?
      then Arr(seq(|payload[k].items|, i requires 0 <= i < |payload[k].items| => StripRow(payload[k].items[i])))
      else payload[k]
  }

  /** Stripping leaves every payload of an accepted format as it is. */
  lemma StripIsIdentity(payload: Json, format: Format, multiOutput: bool)
    requires ValidFormat(format) && ValidatePayload(payload, format, multiOutput).Ok?
    ensures StripReserved(payload.fields) == payload.fields
  {
    PayloadAcceptedIff(payload, format, multiOutput);
    PayloadKeysArePlain();
    forall row | row in payload.fields[RESULTS].items ensures StripRow(row) == row {
      RowKeysArePlain(format, row);
      StripPlainRow(row);
    }
    StripPlain(payload.fields);
  }

  lemma PayloadKeysArePlain()
    ensures forall k | k in PAYLOAD_KEYS :: !IsReserved(k)
  {
    forall k | k in PAYLOAD_KEYS ensures !IsReserved(k) {
      assert k[0] != '_' || k[1] == 'k';
    }
  }

  lemma RowKeysArePlain(format: Format, row: Json)
    requires ValidFormat(format) && RowMeans(format, row)
    ensures row.Obj? && forall k | k in row.fields :: !IsReserved(k)
  {
  }

  lemma StripPlainRow(row: Json)
    requires row.Obj? ==> forall k | k in row.fields :: !IsReserved(k)
    ensures StripRow(row) == row
  {
    assert row.Obj? ==> StripRow(row).fields == row.fields;
  }

  lemma StripPlain(fields: map<string, Json>)
    requires forall k | k in fields :: !IsReserved(k)
    requires RESULTS in fields && fields[RESULTS].Arr?
    requires forall row | row in fields[RESULTS].items :: StripRow(row) == row
    ensures StripReserved(fields) == fields
  {
    var stripped := StripReserved(fields);
    assert stripped.Keys == fields.Keys;
    assert stripped[RESULTS].items == fields[RESULTS].items;
  }

  /** What survives stripping never carries an engine-owned key, whatever the model returned. */
  lemma StripRemovesReserved(payload: map<string, Json>)
    ensures forall k | k in StripReserved(payload) :: !IsReserved(k)
    ensures RESULTS in StripReserved(payload) && StripReserved(payload)[RESULTS].Arr? ==>
      forall row | row in StripReserved(payload)[RESULTS].items && row.Obj? ::
        forall k | k in row.fields :: !IsReserved(k)
  {
  }

  /** Only those keys go: every other key of the payload and of its rows keeps its value, and every row its place. */
  lemma {:induction false} StripKeepsRest(payload: map<string, Json>, k: string)
    requires k in payload && !IsReserved(k)
    ensures k in StripReserved(payload)
    ensures (k != RESULTS || !payload[k].Arr?) ==> StripReserved(payload)[k] == payload[k]
    ensures k == RESULTS && payload[k].Arr? ==>
      && StripReserved(payload)[k].Arr? && |StripReserved(payload)[k].items| == |payload[k].items|
      && forall i | 0 <= i < |payload[k].items| ::
           SameButReserved(payload[k].items[i], StripReserved(payload)[k].items[i])
  {
  }

  /** A row without its engine-owned keys; what is no object stays as it is. */
  ghost predicate SameButReserved(row: Json, stripped: Json) {
    if !row.Obj? then stripped == row
    else stripped.Obj? && forall k :: !IsReserved(k) ==>
      (k in stripped.fields <==> k in row.fields) && (k in row.fields ==> stripped.fields[k] == row.fields[k])
  }
}
