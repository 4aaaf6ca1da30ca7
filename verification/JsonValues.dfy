/**
 JSON values and the Go decoding rules the gateway relies on.

 A decoded object is a map from field names to values.  JSON text itself is
 handled by a `Codec`: any pair of functions from text to values and back.
 */
module JsonValues {
  import opened Options

  datatype Json =
    | Null
    | Bool(b: bool)
    | Int(n: int)
    | Fraction(r: real)
    | Str(s: string)
    | Arr(items: seq<Json>)
    | Obj(fields: map<string, Json>)

  type Object = map<string, Json>

  datatype Codec = Codec(parse: string -> Option<Json>, marshal: Json -> string)

  const MIN_INT64 := -0x8000_0000_0000_0000
  const MAX_INT64 := 0x7fff_ffff_ffff_ffff

  /** The field is present and not `null`. */
  predicate NonNull(o: Object, key: string) {
    key in o && !o[key].Null?
  }

  /** The field is present and neither `null` nor an empty array or object. */
  predicate Active(o: Object, key: string) {
    NonNull(o, key) && o[key] != Arr([]) && o[key] != Obj(map[])
  }

  /** `json.Unmarshal(o[key], &s)`: an absent field is an error, `null` leaves "". */
  function StringField(o: Object, key: string): Option<string> {
    if key !in o then None
    else match o[key]
      case Null => Some("")
      case Str(s) => Some(s)
      case _ => None
  }

  /** A string field of a decoded struct: absent and `null` both leave "". */
  function StructString(o: Object, key: string): Option<string> {
    if key !in o then Some("") else StringField(o, key)
  }

  function IntField(o: Object, key: string): Option<int> {
    if key !in o then None
    else match o[key]
      case Null => Some(0)
      case Int(n) => if MIN_INT64 <= n <= MAX_INT64 then Some(n) else None
      case _ => None
  }

  /** Decoding into a map that must come out non-nil. */
  function ObjectField(o: Object, key: string): Option<Object> {
    if key in o && o[key].Obj? then Some(o[key].fields) else None
  }

  /** Every field outside `allowed` is `null`. */
  predicate OnlyFields(o: Object, allowed: set<string>) {
    forall k :: k in o && k !in allowed ==> o[k].Null?
  }
}
