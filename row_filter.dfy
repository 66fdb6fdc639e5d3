/** lib/sycsvpro/row_filter.rb: a row is kept when its index is listed, when
    no index is listed, or when any pattern matches it. */
module RowFilter {
  import opened Wrappers
  import opened Text
  import opened Externals

  /** The decision the filter makes for the row `line` at index `row`. */
  predicate Keeps(sel: Selector, env: Env, line: string, row: nat)
  {
    row in sel.filter || |sel.filter| == 0 ||
    exists j :: 0 <= j < |sel.pattern| && env.matches(line, sel.pattern[j])
  }

  /** `RowFilter#process`: the line itself when it is kept, otherwise nil. */
  method Process(sel: Selector, env: Env, line: string, row: nat) returns (r: Option<string>)
    ensures Keeps(sel, env, line, row) ==> r == Some(line)
    ensures !Keeps(sel, env, line, row) ==> r == None
  {
    UniqMembers(sel.filter);
    var filtered := IndexOf(Uniq(sel.filter), row).Some? || |sel.filter| == 0;
    var j := 0;
    while j < |sel.pattern|
      invariant 0 <= j <= |sel.pattern|
      invariant filtered == (row in sel.filter || |sel.filter| == 0 ||
        exists i :: 0 <= i < j && env.matches(line, sel.pattern[i]))
    {
      filtered := filtered || env.matches(line, sel.pattern[j]);
      j := j + 1;
    }
    r := if filtered then Some(line) else None;
  }

  /** Without positions every row is kept, whatever its index. */
  lemma NoPositionsKeepAll(sel: Selector, env: Env, line: string, row: nat)
    requires |sel.filter| == 0
    ensures Keeps(sel, env, line, row)
  {
  }

  /** The positions of "1-5" keep row 1 and reject row 6 of a line no
      pattern matches. */
  lemma RangeOneToFive(sel: Selector, env: Env, line: string)
    requires sel.filter == [1, 2, 3, 4, 5] && sel.pattern == []
    ensures Keeps(sel, env, line, 1)
    ensures !Keeps(sel, env, line, 6)
  {
  }

  /** The kinds combine by OR: a matching pattern keeps an unlisted row. */
  lemma PatternKeepsUnlisted(sel: Selector, env: Env, line: string, row: nat, j: nat)
    requires j < |sel.pattern| && env.matches(line, sel.pattern[j])
    ensures Keeps(sel, env, line, row)
  {
  }

  /** Adding patterns never removes a row. */
  lemma MorePatternsKeepMore(sel: Selector, env: Env, line: string, row: nat, more: seq<string>)
    requires Keeps(sel, env, line, row)
    ensures Keeps(sel.(pattern := sel.pattern + more), env, line, row)
  {
    var wider := sel.pattern + more;
    if !(row in sel.filter || |sel.filter| == 0) {
      var j :| 0 <= j < |sel.pattern| && env.matches(line, sel.pattern[j]);
      assert wider[j] == sel.pattern[j];
    }
  }

  /** Listing a position a second time changes nothing. */
  lemma RepeatedPosition(sel: Selector, env: Env, line: string, row: nat, p: nat)
    requires p in sel.filter
    ensures Keeps(sel.(filter := sel.filter + [p]), env, line, row) == Keeps(sel, env, line, row)
  {
  }
}
