/** The SQL value rules the merge expressions rely on: NULL as `None`, the
    three-valued comparison that falls through to ELSE, and the NULL-skipping
    COALESCE, NULLIF, LEAST and GREATEST. */
module Sql {

  datatype Option<+T> = None | Some(value: T)

  /** A nullable text column. */
  type Text = Option<string>

  /** A nullable timestamp column, in microseconds. */
  type Time = Option<int>

  /** The words of `alpha_tag_source`; any other word breaks the table
      constraints. NULL and the empty string an archive stands for it with are
      both `None`. */
  datatype Label = Manual | Csv | Mqtt | Directory | Other(word: string)

  /** NULLIF(t, ''). */
  function NullIfEmpty(t: Text): Text {
    if t == Some("") then None else t
  }

  /** COALESCE(a, b). */
  function Coalesce<T>(a: Option<T>, b: Option<T>): Option<T> {
    if a.Some? then a else b
  }

  /** COALESCE(t, ''). */
  function OrEmpty(t: Text): string {
    if t.Some? then t.value else ""
  }

  /** `a >= b` as a CASE condition: a comparison with NULL does not hold. */
  predicate AtLeast(a: Time, b: Time) {
    a.Some? && b.Some? && a.value >= b.value
  }

  /** LEAST(a, b), which ignores NULL arguments. */
  function Least(a: Time, b: Time): Time {
    if a.None? then b else if b.None? then a
    else if a.value <= b.value then a else b
  }

  /** GREATEST(a, b), which ignores NULL arguments. */
  function Greatest(a: Time, b: Time): Time {
    if a.None? then b else if b.None? then a
    else if a.value >= b.value then a else b
  }
}
