/**
 * The PHP values a repository field can hold, and PHP's conversion of such a
 * value to a boolean, which is what `! $users->field( 'privacy_flag' )` tests.
 */
module PhpValues {

  datatype Value = Null | Bool(b: bool) | Int(i: int) | Str(s: string)

  /** PHP truthiness: null, false, 0, "" and "0" are falsy, everything else is truthy. */
  predicate Truthy(v: Value) {
    match v
    case Null => false
    case Bool(b) => b
    case Int(i) => i != 0
    case Str(s) => s != "" && s != "0"
  }
}
