/** JavaScript values the screens test: nullable strings, optional fields and truthiness. */
module JsValues {

  /** A value that may be missing. It stands for `null` or `undefined`, depending on where it is used:
      an optional record field (`subCategoryId?: string`) is `undefined` when absent, while a React
      state or prop typed `string | null` is `null`. */
  datatype Option<+T> = None | Some(value: T) {

    /** JavaScript `a || b` on two "object or undefined" values: the first when it is present. */
    function OrElse(other: Option<T>): (r: Option<T>)
      ensures Some? ==> r == this
      ensures None? ==> r == other
    {
      if Some? then this else other
    }
  }

  /** JavaScript truthiness of an optional string: `undefined`, `null` and `""` are falsy. */
  predicate IsTruthy(s: Option<string>) {
    s.Some? && s.value != ""
  }

  /** `a === b` where `a` is an optional field (absent means `undefined`) and `b` is a nullable
      value (absent means `null`). `undefined === null` is false, so an absent side never matches. */
  predicate StrictEqualsNullable(field: Option<string>, nullable: Option<string>) {
    field.Some? && nullable.Some? && field.value == nullable.value
  }

  /** `a === b` where `a` is a plain string and `b` is `string | null`. */
  predicate StringEqualsNullable(a: string, nullable: Option<string>) {
    nullable.Some? && nullable.value == a
  }

  /** The value of `cond ? s : fallback` when `cond` is the truthiness of `s`. */
  function OrDefault(s: Option<string>, fallback: string): (r: string)
    ensures IsTruthy(s) ==> r == s.value
    ensures !IsTruthy(s) ==> r == fallback
  {
    if IsTruthy(s) then s.value else fallback
  }
}
