/** Calendar dates. The source stores them as `YYYY-MM-DD` strings and compares
    them through `moment`; for well-formed strings that is the lexicographic
    order on (year, month, day), which is what `Before` states. `year` is the
    number the four digits spell. */
module Dates {

  datatype Date = Date(year: int, month: int, day: int)

  /** `moment(a).isBefore(b)`. */
  predicate Before(a: Date, b: Date)
  {
    a.year < b.year
    || (a.year == b.year && (a.month < b.month || (a.month == b.month && a.day < b.day)))
  }

  /** `moment(a).isSameOrBefore(b)`. */
  predicate SameOrBefore(a: Date, b: Date)
  {
    !Before(b, a)
  }
}
