/** The JSON-like values that flow through the pipeline: context variables,
    step definitions, memory facts and model output after parsing. Ruby's
    truthiness, `present?`/`blank?` and `to_s` are defined on them here. */
module Values {
  import opened Optional
  import Text

  /** A parsed JSON value (numbers are integers only). */
  datatype Value =
    | Null
    | Bool(b: bool)
    | Int(i: int)
    | Str(s: string)
    | List(items: seq<Value>)
    | Hash(fields: map<string, Value>)

  /** Ruby truthiness: everything except `nil` and `false`. */
  predicate Truthy(v: Value) {
    !(v.Null? || v == Bool(false))
  }

  /** ActiveSupport's `blank?`. */
  predicate Blank(v: Value) {
    match v
    case Null => true
    case Bool(b) => !b
    case Int(_) => false
    case Str(s) => Text.Blank(s)
    case List(xs) => |xs| == 0
    case Hash(m) => |m| == 0
  }

  predicate Present(v: Value) {
    !Blank(v)
  }

  /** Ruby's `String#present?`. */
  predicate PresentText(s: string) {
    !Text.Blank(s)
  }

  /** Ruby's `Hash#[]` with string keys: the entry, or `nil`. */
  function At(m: map<string, Value>, k: string): (r: Value)
    ensures k !in m ==> r == Null
    ensures k in m ==> r == m[k]
  {
    if k in m then m[k] else Null
  }

  /** Ruby's `to_s` of an array or a hash (`inspect` formatting, which
      depends on the hash's insertion order) is not modelled; callers pass
      it in. */
  type Inspector = Value -> string

  /** Ruby's `to_s`, which string interpolation also uses. */
  function ToS(v: Value, inspect: Inspector): (r: string)
    ensures v.Null? ==> r == ""
    ensures v.Str? ==> r == v.s
  {
    match v
    case Null => ""
    case Bool(b) => if b then "true" else "false"
    case Int(n) => Text.IntToString(n)
    case Str(s) => s
    case List(_) => inspect(v)
    case Hash(_) => inspect(v)
  }

  /** A context or registry key as the caller writes it: a symbol such as
      `:last_question` or a string. Both normalise through `to_s`. */
  datatype Key = Symbol(name: string) | StringKey(text: string)

  function KeyName(k: Key): string {
    match k
    case Symbol(n) => n
    case StringKey(t) => t
  }
}
