/** Decoded JSON, as Go's `map[string]any` holds it. */
module Json {
  import opened Prelude

  datatype Json =
    | Null
    | Bool(flag: bool)
    | Num(number: real)
    | Str(text: string)
    | Arr(items: seq<Json>)
    | Obj(fields: map<string, Json>)

  type Object = map<string, Json>

  /** `v, ok := o[key].(string)`. */
  function TextAt(o: Object, key: string): Option<string> {
    if key in o && o[key].Str? then Some(o[key].text) else None
  }

  /** The string at `key`, or the empty string. */
  function TextOr(o: Object, key: string): string {
    if key in o && o[key].Str? then o[key].text else ""
  }

  function NumberAt(o: Object, key: string): Option<real> {
    if key in o && o[key].Num? then Some(o[key].number) else None
  }

  function ObjectAt(o: Object, key: string): Option<Object> {
    if key in o && o[key].Obj? then Some(o[key].fields) else None
  }

  function ItemsAt(o: Object, key: string): seq<Json> {
    if key in o && o[key].Arr? then o[key].items else []
  }

  /** The strings of the array at `key`; anything else in it is ignored. */
  function StringsAt(o: Object, key: string): set<string> {
    set x | x in ItemsAt(o, key) && x.Str? :: x.text
  }
}
