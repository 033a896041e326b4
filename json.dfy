/**
 * JSON documents as trees, and what Go's encoding/json does when it decodes
 * a document into a `map[string]interface{}`.
 */
module JsonModel {
  import opened Wrappers

  /** A decoded JSON value. Objects are maps, so a repeated key keeps one value. */
  datatype Json =
    | Null
    | Bool(b: bool)
    | Num(n: real)
    | Str(s: string)
    | Arr(items: seq<Json>)
    | Obj(fields: map<string, Json>)

  /**
   * The outcome of the byte-level JSON parser, which is not part of this model.
   * `SyntaxError` stands for every failure of Go's decoder below the shape of
   * the document: malformed bytes, and numbers outside the float64 range.
   */
  datatype Parse = Parsed(doc: Json) | SyntaxError

  /**
   * Decoding into `map[string]interface{}`: a parse failure fails, so does any
   * well-formed document that is not an object, except `null`, which leaves
   * the map nil (and a nil map behaves as an empty one for lookups). A number
   * that does not fit a float64 also makes Go's decoding fail; such a document
   * is represented by `SyntaxError`, never by `Parsed`.
   */
  function ToObject(p: Parse): (r: Option<map<string, Json>>)
    ensures r.None? <==> p.SyntaxError? || !(p.doc.Obj? || p.doc.Null?)
    ensures p.Parsed? && p.doc.Obj? ==> r == Some(p.doc.fields)
    ensures p.Parsed? && p.doc.Null? ==> r == Some(map[])
  {
    match p
    case SyntaxError => None
    case Parsed(Obj(fields)) => Some(fields)
    case Parsed(Null) => Some(map[])
    case Parsed(_) => None
  }

  /** `m[key].(string)` with the comma-ok form: present and a string. */
  function StringField(m: map<string, Json>, key: string): (r: Option<string>)
    ensures r.Some? <==> key in m && m[key].Str?
    ensures r.Some? ==> m[key] == Str(r.value)
  {
    if key in m && m[key].Str? then Some(m[key].s) else None
  }

  /** `m[key].(map[string]interface{})`: present and an object (a JSON null is not). */
  function ObjectField(m: map<string, Json>, key: string): (r: Option<map<string, Json>>)
    ensures r.Some? <==> key in m && m[key].Obj?
    ensures r.Some? ==> m[key] == Obj(r.value)
  {
    if key in m && m[key].Obj? then Some(m[key].fields) else None
  }

  /** `m[key].([]interface{})`: present and an array (a JSON null is not). */
  function ArrayField(m: map<string, Json>, key: string): (r: Option<seq<Json>>)
    ensures r.Some? <==> key in m && m[key].Arr?
    ensures r.Some? ==> m[key] == Arr(r.value)
  {
    if key in m && m[key].Arr? then Some(m[key].items) else None
  }
}
