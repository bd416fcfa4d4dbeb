/** The optional value used wherever the source has an `undefined`-able field or a `null` result. */
module Optional {

  datatype Option<T> = None | Some(value: T) {

    /** The value, or `fallback` when there is none (the source's `x ?? fallback`). */
    function GetOr(fallback: T): T {
      match this
      case Some(v) => v
      case None => fallback
    }
  }

  /** JavaScript truthiness of an optional string: absent and "" are both falsy. */
  predicate TruthyString(s: Option<string>) {
    s.Some? && s.value != ""
  }

  /** JavaScript `s || fallback` on an optional string. */
  function OrString(s: Option<string>, fallback: string): string {
    if TruthyString(s) then s.value else fallback
  }

  /** JavaScript `n || fallback` on an optional number: absent and 0 are both falsy. */
  function OrNumber(n: Option<int>, fallback: int): int {
    if n.Some? && n.value != 0 then n.value else fallback
  }
}
