/** Vocabulary shared by the console's components: values that JavaScript
    may leave `undefined`, JavaScript truthiness of strings, and the transient
    notices the components raise through antd's `message` API. */
module Common {

  /** A value that may be absent (`undefined` or `null` in the source). */
  datatype Option<T> = None | Some(value: T) {

    /** `x || default` for a value whose only falsy form is absence. */
    function GetOr(default: T): (r: T)
      ensures Some? ==> r == value
      ensures None? ==> r == default
    {
      if Some? then value else default
    }
  }

  /** A JavaScript string is truthy iff it is present and non-empty. */
  predicate Truthy(s: Option<string>) {
    s.Some? && s.value != ""
  }

  /** `s || default` on a string that may be absent. */
  function OrDefault(s: Option<string>, default: string): (r: string)
    ensures Truthy(s) ==> r == s.value
    ensures !Truthy(s) ==> r == default
  {
    if Truthy(s) then s.value else default
  }

  /** The three kinds of `message.success`, `message.info` and `message.error`. */
  datatype Level = Success | Info | Error

  /** A toast shown to the operator. */
  datatype Notice = Notice(level: Level, text: string)
}
