/** The decoded JSON that the homework API returns, and the few Python
    built-ins the bot applies to it. */
module Json {
  import opened Text

  /** A JSON value as `requests`' `.json()` hands it to the bot. JSON
      numbers are modelled as integers only. */
  datatype Json =
    | JNull
    | JBool(b: bool)
    | JInt(n: int)
    | JStr(s: string)
    | JArr(items: seq<Json>)
    | JObj(fields: map<string, Json>)

  /** `obj.get(key)`: the value, or `None` when the key is absent. */
  function Get(obj: map<string, Json>, key: string): Json {
    if key in obj then obj[key] else JNull
  }

  /** Python's name for the type of a decoded JSON value. */
  function TypeName(j: Json): string {
    match j
    case JNull => "NoneType"
    case JBool(_) => "bool"
    case JInt(_) => "int"
    case JStr(_) => "str"
    case JArr(_) => "list"
    case JObj(_) => "dict"
  }

  /** Python's `str(j)`. Exact for scalars; lists and dicts are shown by a
      placeholder naming their type. */
  function Show(j: Json): (r: string)
    ensures j.JStr? ==> r == j.s
    ensures j.JInt? ==> r == IntText(j.n)
    ensures j.JNull? ==> r == "None"
    ensures j.JBool? ==> r == (if j.b then "True" else "False")
  {
    match j
    case JNull => "None"
    case JBool(b) => if b then "True" else "False"
    case JInt(n) => IntText(n)
    case JStr(s) => s
    case JArr(_) => "[...]"
    case JObj(_) => "{...}"
  }
}
