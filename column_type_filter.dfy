/** lib/sycsvpro/column_type_filter.rb: the column projection, with each
    field read as a number, a date or a string according to the type tag at
    its position in the projected row. */
module ColumnTypeFilter {
  import opened Wrappers
  import opened Text
  import opened Externals
  import ColumnFilter

  /** A field value after coercion; TNil is the nil a failed date parse
      leaves behind. */
  datatype Typed = TStr(s: string) | TInt(i: int) | TFloat(x: real) | TDate(d: Date) | TNil

  /** The date a blank 'd' field stands for, later than any real date. */
  const BlankDate := Date(9999, 9, 9)

  /** The value of one field under its type tag. */
  function Coerce(sel: Selector, env: Env, tag: Option<string>, value: string): Typed
  {
    if tag == Some("n") then
      if '.' in value then TFloat(env.toF(value)) else TInt(ToI(value))
    else if tag == Some("d") then
      if IsBlank(value) then TDate(BlankDate)
      else
        match env.strptime(value, sel.dateFormat)
        case Some(d) => TDate(d)
        case None => TNil
    else TStr(value)
  }

  /** The coerced fields: field i under the tag `types[i]`. */
  function TypedFields(sel: Selector, env: Env, fields: seq<string>): (r: seq<Typed>)
    ensures |r| == |fields|
    ensures forall i :: 0 <= i < |fields| ==> r[i] == Coerce(sel, env, At(sel.types, i), fields[i])
  {
    seq(|fields|, i requires 0 <= i < |fields| => Coerce(sel, env, At(sel.types, i), fields[i]))
  }

  /** What `ColumnTypeFilter#process` returns; None is nil. */
  function TypedProjection(sel: Selector, env: Env, line: Option<string>): Option<seq<Typed>>
  {
    match ColumnFilter.Projection(sel, env, line)
    case None => None
    case Some(p) => Some(TypedFields(sel, env, Split(p, Sep)))
  }

  /** `ColumnTypeFilter#process`: the fields of the projection, overwritten
      in place by their coerced values. */
  method Process(sel: Selector, env: Env, line: Option<string>) returns (r: Option<seq<Typed>>)
    ensures r == TypedProjection(sel, env, line)
  {
    var filtered := ColumnFilter.Process(sel, env, line);
    if filtered.None? {
      return None;
    }
    var fields := Split(filtered.value, Sep);
    var values := new Typed[|fields|](i requires 0 <= i < |fields| => TStr(fields[i]));
    ghost var typed := TypedFields(sel, env, fields);
    var index := 0;
    while index < values.Length
      invariant 0 <= index <= values.Length == |fields|
      invariant values[..index] == typed[..index]
      invariant forall i :: index <= i < values.Length ==> values[i] == TStr(fields[i])
    {
      var tag := At(sel.types, index);
      if tag == Some("n") {
        if '.' in fields[index] {
          values[index] := TFloat(env.toF(fields[index]));
        } else {
          values[index] := TInt(ToI(fields[index]));
        }
      } else if tag == Some("d") {
        var date: Typed := TNil;
        if IsBlank(fields[index]) {
          date := TDate(BlankDate);
        } else {
          var parsed := env.strptime(fields[index], sel.dateFormat);
          if parsed.Some? {
            date := TDate(parsed.value);
          }
        }
        values[index] := date;
      }
      assert values[index] == typed[index];
      index := index + 1;
    }
    assert values[..] == values[..index] && typed[..index] == typed;
    r := Some(values[..]);
  }

  /** A nil projection stays nil, and otherwise there is one value per
      projected field, in the same order, typed by its position. */
  lemma OnePerField(sel: Selector, env: Env, line: Option<string>)
    ensures ColumnFilter.Projection(sel, env, line).None? ==> TypedProjection(sel, env, line).None?
    ensures ColumnFilter.Projection(sel, env, line).Some? ==>
      var fields := Split(ColumnFilter.Projection(sel, env, line).value, Sep);
      TypedProjection(sel, env, line).Some? && |TypedProjection(sel, env, line).value| == |fields|
  {
  }

  /** A number without '.' is read by `to_i`, so an empty number is 0. */
  lemma EmptyNumberIsZero(sel: Selector, env: Env)
    ensures Coerce(sel, env, Some("n"), "") == TInt(0)
  {
  }

  /** A blank date field becomes the sentinel, which is later than every
      date before the year 9999. */
  lemma BlankDateIsLast(sel: Selector, env: Env, value: string, d: Date)
    requires IsBlank(value)
    requires d.year < 9999
    ensures Coerce(sel, env, Some("d"), value) == TDate(BlankDate)
    ensures DateLe(d, BlankDate) && !DateLe(BlankDate, d)
  {
  }

  /** A date that does not parse becomes nil instead of raising. */
  lemma UnparsedDateIsNil(sel: Selector, env: Env, value: string)
    requires !IsBlank(value) && env.strptime(value, sel.dateFormat).None?
    ensures Coerce(sel, env, Some("d"), value) == TNil
  {
  }

  /** A field whose tag is neither 'n' nor 'd', or that has no tag, stays
      the string it was. */
  lemma OtherTagsKeepStrings(sel: Selector, env: Env, fields: seq<string>, i: nat)
    requires i < |fields|
    requires At(sel.types, i) != Some("n") && At(sel.types, i) != Some("d")
    ensures TypedFields(sel, env, fields)[i] == TStr(fields[i])
  {
  }
}
