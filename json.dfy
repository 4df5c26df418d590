/** Decoded JSON values, as Python's json.loads produces them, and the
    Python operations on them that the CDC scripts rely on. Non-integral
    numbers are not modelled. */
module Json {

  datatype JSON =
    | Null
    | Bool(b: bool)
    | Int(i: int)
    | Str(s: string)
    | Arr(items: seq<JSON>)
    | Obj(fields: map<string, JSON>)

  /** Python truthiness: None, False, 0, "", [] and {} are false. */
  predicate Truthy(v: JSON) {
    match v
    case Null => false
    case Bool(b) => b
    case Int(i) => i != 0
    case Str(s) => s != ""
    case Arr(a) => a != []
    case Obj(m) => m != map[]
  }

  /** Python's `d.get(k, default)`. */
  function GetOr(m: map<string, JSON>, k: string, default: JSON): (r: JSON)
    ensures k in m ==> r == m[k]
    ensures k !in m ==> r == default
  {
    if k in m then m[k] else default
  }

  /** Python's `d.get(k)`: None when the key is absent. */
  function Get(m: map<string, JSON>, k: string): JSON {
    GetOr(m, k, Null)
  }

  /** Python's `a or b`: the first operand when it is truthy, else the second. */
  function Or(a: JSON, b: JSON): (r: JSON)
    ensures Truthy(a) ==> r == a
    ensures !Truthy(a) ==> r == b
  {
    if Truthy(a) then a else b
  }

  /** A consumed Kafka record: its topic and its value as decoded by the
      consumer's deserializer (`json.loads(...) if m else None`, so an empty
      record body, a tombstone, is Null). */
  datatype Message = Message(topic: string, value: JSON)
}
