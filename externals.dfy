/** Inputs that the modelled sycsvpro files never build, and library
    behaviour the model keeps uninterpreted. */
module Externals {
  import opened Wrappers

  /** A calendar date as Ruby's Date compares it. */
  datatype Date = Date(year: int, month: int, day: int)

  /** Chronological order of dates. */
  predicate DateLe(a: Date, b: Date)
  {
    a.year < b.year || (a.year == b.year && (a.month < b.month || (a.month == b.month && a.day <= b.day)))
  }

  /** One step of `pivot_each_column`: the column text it yields and whether
      the pivot matched the row. */
  datatype PivotHit = PivotHit(column: string, matched: bool)

  /** The foreign functions, each a parameter of the model:
      - matches(line, p):    `line =~ Regexp.new(p)` found a match;
      - pivotEach(key, vs):  what `pivot_each_column` yields for pivot `key`
                             on the fields `vs`;
      - toF(s):              `String#to_f`;
      - strptime(s, fmt):    `Date.strptime(s, fmt)`, None when it raises;
      - unstring(s):         `Dsl#unstring`;
      - scan(s, p):          `s.scan(Regexp.new(p)).flatten[0]`;
      - splitByCommaRegex:   `Dsl#split_by_comma_regex`. */
  datatype Env = Env(
    matches: (string, string) -> bool,
    pivotEach: (string, seq<string>) -> PivotHit,
    toF: string -> real,
    strptime: (string, string) -> Option<Date>,
    unstring: string -> string,
    scan: (string, string) -> Option<string>,
    splitByCommaRegex: Option<string> -> seq<string>)

  /** The compiled fields of a row or column selector:
      - filter:     `filter.flatten`, the row or column positions;
      - pattern:    the regular expressions, as source text;
      - pivot:      the keys of the pivot columns, in order;
      - types:      the type tag ("n", "d", "s") of each projected position;
      - dateFormat: the format used to read 'd' fields. */
  datatype Selector = Selector(
    filter: seq<nat>,
    pattern: seq<string>,
    pivot: seq<string>,
    types: seq<string>,
    dateFormat: string)
}
