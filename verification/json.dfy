/** Decoded JSON as Python's `json` module hands it to the program, and the
    few Python operations the program applies to such values.  An object is
    a `map`: decoding keeps the last of repeated keys, and nothing in the
    program depends on key order.  Numbers are integers (the feed sends
    every number as a string, so fractional numbers never matter). */
module JsonValues {
  import opened Results

  datatype Json =
    | JNull
    | JBool(b: bool)
    | JNum(n: int)
    | JStr(s: string)
    | JArr(items: seq<Json>)
    | JObj(fields: map<string, Json>)

  /** `value[key]` with a string key. Only a dict holding the key answers;
      a dict without it raises `KeyError`, every other value `TypeError`. */
  function Index(j: Json, key: string): Option<Json> {
    if j.JObj? && key in j.fields then Some(j.fields[key]) else None
  }

  /** `value[0]`. A non-empty list gives its first item and a non-empty
      string its first character; an empty list or string raises
      `IndexError`, a dict `KeyError` (decoded keys are strings), anything
      else `TypeError`. */
  function First(j: Json): Option<Json> {
    match j
    case JArr(items) => if |items| > 0 then Some(items[0]) else None
    case JStr(s) => if |s| > 0 then Some(JStr([s[0]])) else None
    case _ => None
  }

  /** `value.get(key, default)`. Only dicts have `.get`; on anything else
      the attribute lookup raises. */
  function GetOr(j: Json, key: string, default: Json): Option<Json> {
    if !j.JObj? then None
    else if key in j.fields then Some(j.fields[key])
    else Some(default)
  }

  /** Python truthiness of a decoded value. */
  predicate Truthy(j: Json) {
    match j
    case JNull => false
    case JBool(b) => b
    case JNum(n) => n != 0
    case JStr(s) => |s| > 0
    case JArr(items) => |items| > 0
    case JObj(fields) => |fields| > 0
  }

  /** The items a loop `for row in value: row[key] ...` visits before it
      either finishes or raises. A list yields its items. An empty dict or
      string yields nothing. A non-empty string yields a one-character
      string and a non-empty dict yields a key, and indexing either with a
      string key raises, so both are `None` here, as is every value that
      cannot be iterated at all. */
  function Rows(j: Json): (r: Option<seq<Json>>)
    ensures j.JArr? ==> r == Some(j.items)
    ensures r.Some? && |r.value| > 0 ==> j.JArr?
  {
    match j
    case JArr(items) => Some(items)
    case JObj(fields) => if |fields| == 0 then Some([]) else None
    case JStr(s) => if |s| == 0 then Some([]) else None
    case _ => None
  }
}
