/** Shared value types: optional values and the truthiness rules the UI
    code applies to them (an absent value and an empty string are both
    falsy, as is an absent or false flag). */
module Base {

  datatype Option<+T> = None | Some(value: T) {
    function GetOr(default: T): T {
      match this
      case Some(v) => v
      case None => default
    }
  }

  /** An optional string used as a condition: present and non-empty. */
  predicate IsPresent(s: Option<string>) {
    s.Some? && s.value != ""
  }

  /** An optional flag used as a condition: present and true. */
  predicate IsSet(b: Option<bool>) {
    b == Some(true)
  }
}
