/** The JSON values that prompts, results, descriptors and enrichments are made of. */
module JsonValues {
  datatype Json =
    | Null
    | Bool(b: bool)
    | Num(n: real)
    | Str(s: string)
    | Arr(items: seq<Json>)
    | Obj(fields: map<string, Json>)
}
