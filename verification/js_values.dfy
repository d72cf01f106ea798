/** The few JavaScript value rules the client and the gateway depend on:
    how a string-valued JSON property looks once parsed, when it is truthy,
    what `x || fallback` yields and how `+` or a template literal turns it
    into text. */
module JsValues {

  /** A string-valued JSON property as the code reads it: missing
      (`undefined`), explicitly `null`, or a string. */
  datatype Field = Absent | Null | Text(text: string)

  /** JavaScript truthiness of such a property: only a non-empty string. */
  predicate Truthy(f: Field) {
    f.Text? && f.text != ""
  }

  /** The value of `f || fallback`. */
  function OrElse(f: Field, fallback: string): string {
    if Truthy(f) then f.text else fallback
  }

  /** The text `String(f)` produced by `+` on strings and by `${f}`. */
  function Coerce(f: Field): string {
    match f
    case Absent => "undefined"
    case Null => "null"
    case Text(s) => s
  }
}
