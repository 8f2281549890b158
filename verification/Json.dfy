/** JSON values as the TDLib adapters see them, with the Python idioms they use on them. */
module Json {
  datatype Json =
    | JNull
    | JBool(b: bool)
    | JInt(i: int)
    | JString(s: string)
    | JList(items: seq<Json>)
    | JObject(fields: Dict)

  type Dict = map<string, Json>

  /** `d.get(key)`: a missing key and a null value look the same. */
  function Get(d: Dict, key: string): Json {
    if key in d then d[key] else JNull
  }

  /** `_dict_or_empty`. */
  function DictOrEmpty(j: Json): Dict {
    if j.JObject? then j.fields else map[]
  }

  predicate HasType(d: Dict, kind: string) {
    Get(d, "@type") == JString(kind)
  }

  /** Python's `j == n` for an integer `n`: `True` and `False` equal 1 and 0. */
  predicate EqualsInt(j: Json, n: int) {
    match j
    case JInt(i) => i == n
    case JBool(b) => (if b then 1 else 0) == n
    case _ => false
  }

  /** Python's truth value. */
  predicate Truthy(j: Json) {
    match j
    case JNull => false
    case JBool(b) => b
    case JInt(i) => i != 0
    case JString(s) => s != ""
    case JList(items) => items != []
    case JObject(fields) => fields != map[]
  }
}
