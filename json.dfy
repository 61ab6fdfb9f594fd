/** A field of a parsed JSON request body, as far as the handlers look at it. */
module Json {

  /** Absent (`undefined`), a string, or any other JSON value together with its JavaScript truthiness. */
  datatype JsonField = Absent | Text(text: string) | Other(truthy: bool)

  /** JavaScript truthiness: `undefined`, the empty string and falsy values such as `0`, `false`, `null`. */
  predicate Truthy(f: JsonField) {
    match f
    case Absent => false
    case Text(s) => s != ""
    case Other(t) => t
  }
}
