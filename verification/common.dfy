/** Values shared by every part of the model: optional values, bytes, request
    fields as a JSON body delivers them, and the JavaScript truthiness rules
    that the handlers branch on. */
module Common {

  /** An optional value; `None` stands for `undefined` or `null`. */
  datatype Option<+T> = None | Some(value: T) {

    /** The value, or `default` when absent (a parameter default in TypeScript). */
    function GetOr(default: T): T {
      match this
      case Some(v) => v
      case None => default
    }
  }

  newtype byte = b: int | 0 <= b < 256

  type Bytes = seq<byte>

  /** A field of a parsed JSON request body: absent, a string, or some other
      JSON value (number, boolean, null, object) of which only its
      truthiness matters to the handlers. */
  datatype Field = Missing | Text(text: string) | NonText(truthy: bool)

  /** `!!f` in JavaScript. */
  predicate FieldTruthy(f: Field) {
    match f
    case Missing => false
    case Text(s) => s != ""
    case NonText(t) => t
  }

  /** `!!o` for an optional string: absent and the empty string are falsy. */
  predicate Truthy(o: Option<string>) {
    o.Some? && o.value != ""
  }

  /** `o || fallback` for an optional string. */
  function Or(o: Option<string>, fallback: string): string {
    if Truthy(o) then o.value else fallback
  }

  /** `!!n` for an optional number: absent and zero are falsy. */
  predicate NumTruthy(n: Option<int>) {
    n.Some? && n.value != 0
  }

  /** `p` is a prefix of `s` (`s.startsWith(p)`). */
  predicate StartsWith(s: string, p: string) {
    |p| <= |s| && s[..|p|] == p
  }
}
