/** lib/sycsvpro/transposer.rb: output line k lists field k of every line
    that survives the filters. */
module Transposer {
  import opened Wrappers
  import opened Text
  import opened Externals
  import opened Dicts
  import RowFilter
  import ColumnFilter

  /** The fields of line `i` after the filters, or None when the line is
      blank or rejected. */
  function Fields(rows: Selector, cols: Selector, env: Env, lines: seq<string>, i: nat): Option<seq<string>>
    requires i < |lines|
  {
    var line := env.unstring(lines[i]);
    if line == "" then None
    else
      match ColumnFilter.Projection(cols, env, if RowFilter.Keeps(rows, env, line, i) then Some(line) else None)
      case None => None
      case Some(result) => Some(Split(result, Sep))
  }

  /** The field lists of the surviving lines below `n`, in input order. */
  function Surviving(rows: Selector, cols: Selector, env: Env, lines: seq<string>, n: nat): seq<seq<string>>
    requires n <= |lines|
  {
    if n == 0 then []
    else
      var f := Fields(rows, cols, env, lines, n - 1);
      Surviving(rows, cols, env, lines, n - 1) + (if f.Some? then [f.value] else [])
  }

  /** Field k of every row that has one, in row order. */
  function Column(rs: seq<seq<string>>, k: nat): seq<string>
  {
    if |rs| == 0 then []
    else
      var last := rs[|rs| - 1];
      Column(rs[..|rs| - 1], k) + (if k < |last| then [last[k]] else [])
  }

  /** `transpose` after the rows `rs`: the keys 0.. up to the longest row,
      each with its column. */
  ghost predicate Transposes(d: Dict<nat, seq<string>>, rs: seq<seq<string>>)
  {
    Holds(d, MaxLength(rs)) && forall k :: 0 <= k < MaxLength(rs) ==> d.values[k] == Column(rs, k)
  }

  /** The keys are 0.. up to `top`, in order. */
  ghost predicate Holds(d: Dict<nat, seq<string>>, top: nat)
  {
    d.keys == Span(top) && forall k: nat :: k in d.values <==> k < top
  }

  /** The output: one line per column position, joined with ';'. */
  function Output(rows: Selector, cols: Selector, env: Env, lines: seq<string>): (r: seq<string>)
    ensures var rs := Surviving(rows, cols, env, lines, |lines|);
      |r| == MaxLength(rs) && forall k :: 0 <= k < |r| ==> r[k] == Join(Column(rs, k), Sep)
  {
    var rs := Surviving(rows, cols, env, lines, |lines|);
    seq(MaxLength(rs), k requires 0 <= k < MaxLength(rs) => Join(Column(rs, k), Sep))
  }

  lemma HoldsValid(d: Dict<nat, seq<string>>, top: nat)
    requires Holds(d, top)
    ensures Valid(d)
  {
    forall k ensures k in d.values <==> k in d.keys {
      if k in d.values {
        assert d.keys[k] == k;
      }
    }
  }

  /** No row reaches a position past the longest row. */
  lemma {:induction false} ColumnBeyond(rs: seq<seq<string>>, k: nat)
    requires k >= MaxLength(rs)
    ensures Column(rs, k) == []
  {
    if |rs| > 0 {
      ColumnBeyond(rs[..|rs| - 1], k);
    }
  }

  lemma ColumnStep(rs: seq<seq<string>>, r: seq<string>, k: nat)
    ensures Column(rs + [r], k) == Column(rs, k) + (if k < |r| then [r[k]] else [])
  {
    assert (rs + [r])[..|rs|] == rs;
  }

  /** Storing at key `index` keeps the keys 0.. in order: an existing key
      keeps its place, key `top` is appended. */
  lemma PutHolds(d: Dict<nat, seq<string>>, top: nat, index: nat, v: seq<string>)
    requires Holds(d, top) && index <= top
    ensures Holds(Put(d, index, v), if index == top then top + 1 else top)
  {
    var d' := Put(d, index, v);
    if index == top {
      assert index !in d.values;
      assert Span(top + 1) == Span(top) + [top];
    } else {
      assert index in d.values;
    }
    forall k: nat ensures k in d'.values <==> k < (if index == top then top + 1 else top) {
      if k != index {
        assert k in d'.values <==> k in d.values;
      }
    }
  }

  /** One turn of the loop in `AddRow`: field `index` joins its column. */
  lemma PutStepHolds(d: Dict<nat, seq<string>>, rs: seq<seq<string>>, fields: seq<string>, index: nat)
    requires index < |fields|
    requires Holds(d, if index > MaxLength(rs) then index else MaxLength(rs))
    requires forall k: nat :: k < (if index > MaxLength(rs) then index else MaxLength(rs)) ==>
        d.values[k] == Column(rs, k) + (if k < index then [fields[k]] else [])
    ensures var d' := Put(d, index, Get(d, index, []) + [fields[index]]);
      Holds(d', if index + 1 > MaxLength(rs) then index + 1 else MaxLength(rs)) &&
      forall k: nat :: k < (if index + 1 > MaxLength(rs) then index + 1 else MaxLength(rs)) ==>
        d'.values[k] == Column(rs, k) + (if k < index + 1 then [fields[k]] else [])
  {
    var m := MaxLength(rs);
    var top := if index > m then index else m;
    var top' := if index + 1 > m then index + 1 else m;
    var v := Get(d, index, []) + [fields[index]];
    var d' := Put(d, index, v);
    if index >= m {
      ColumnBeyond(rs, index);
      assert index !in d.values;
      assert v == Column(rs, index) + [fields[index]];
    } else {
      assert index in d.values;
      assert v == Column(rs, index) + [fields[index]];
    }
    PutHolds(d, top, index, v);
    assert top' == if index == top then top + 1 else top;
    forall k: nat | k < top' ensures d'.values[k] == Column(rs, k) + (if k < index + 1 then [fields[k]] else []) {
      if k != index {
        assert d.values[k] == Column(rs, k) + (if k < index then [fields[k]] else []);
      }
    }
  }

  /** Appending the fields of one row to `transpose`. */
  method AddRow(d0: Dict<nat, seq<string>>, ghost rs: seq<seq<string>>, fields: seq<string>) returns (d: Dict<nat, seq<string>>)
    requires Transposes(d0, rs)
    ensures Transposes(d, rs + [fields])
  {
    d := d0;
    var index := 0;
    ghost var m := MaxLength(rs);
    while index < |fields|
      invariant 0 <= index <= |fields|
      invariant Holds(d, if index > m then index else m)
      invariant forall k: nat :: k < (if index > m then index else m) ==>
        d.values[k] == Column(rs, k) + (if k < index then [fields[k]] else [])
    {
      PutStepHolds(d, rs, fields, index);
      d := Put(d, index, Get(d, index, []) + [fields[index]]);
      index := index + 1;
    }
    MaxLengthStep(rs, fields);
    forall k | 0 <= k < MaxLength(rs + [fields]) ensures d.values[k] == Column(rs + [fields], k) {
      ColumnStep(rs, fields, k);
    }
  }

  /** The reading loop of `Transposer#execute`: `transpose` after every line
      of the input file. */
  method Collect(rows: Selector, cols: Selector, env: Env, lines: seq<string>) returns (transpose: Dict<nat, seq<string>>)
    ensures Transposes(transpose, Surviving(rows, cols, env, lines, |lines|))
  {
    transpose := Empty();
    var index := 0;
    assert Surviving(rows, cols, env, lines, 0) == [];
    while index < |lines|
      invariant 0 <= index <= |lines|
      invariant Transposes(transpose, Surviving(rows, cols, env, lines, index))
    {
      ghost var rs := Surviving(rows, cols, env, lines, index);
      ghost var fields := Fields(rows, cols, env, lines, index);
      ghost var rs' := Surviving(rows, cols, env, lines, index + 1);
      assert rs' == rs + (if fields.Some? then [fields.value] else []);
      var line := env.unstring(lines[index]);
      if line != "" {
        var row := RowFilter.Process(rows, env, line, index);
        var result := ColumnFilter.Process(cols, env, row);
        if result.Some? {
          assert fields == Some(Split(result.value, Sep));
          transpose := AddRow(transpose, rs, Split(result.value, Sep));
          assert rs' == rs + [Split(result.value, Sep)];
        } else {
          assert fields.None?;
          assert rs' == rs;
        }
      } else {
        assert fields.None?;
        assert rs' == rs;
      }
      index := index + 1;
    }
  }

  /** `Transposer#execute` over the lines of the input file. */
  method Execute(rows: Selector, cols: Selector, env: Env, lines: seq<string>) returns (out: seq<string>)
    ensures out == Output(rows, cols, env, lines)
  {
    var transpose := Collect(rows, cols, env, lines);
    ghost var rs := Surviving(rows, cols, env, lines, |lines|);
    HoldsValid(transpose, MaxLength(rs));
    var values := Values(transpose);
    assert |values| == MaxLength(rs) && forall k :: 0 <= k < |values| ==> values[k] == Column(rs, k);
    out := [];
    var k := 0;
    while k < |values|
      invariant 0 <= k <= |values|
      invariant |out| == k && forall m :: 0 <= m < k ==> out[m] == Join(values[m], Sep)
    {
      out := out + [Join(values[k], Sep)];
      k := k + 1;
    }
  }

  // ---------------------------------------------------------------------------
  // Properties

  /** The positions of the rows that have a field k. */
  function LongRows(rs: seq<seq<string>>, k: nat): set<nat>
  {
    set i | 0 <= i < |rs| && k < |rs[i]|
  }

  /** A row without field k adds nothing to column k: rows are not padded,
      and column k has one entry per row that is long enough. */
  lemma {:induction false} ColumnCountsLongRows(rs: seq<seq<string>>, k: nat)
    ensures |Column(rs, k)| == |LongRows(rs, k)|
  {
    if |rs| > 0 {
      var init := rs[..|rs| - 1];
      ColumnCountsLongRows(init, k);
      var a := LongRows(init, k);
      var b := LongRows(rs, k);
      if k < |rs[|rs| - 1]| {
        assert b == a + {|rs| - 1};
      } else {
        assert b == a;
      }
    }
  }

  /** On rows of one length m, column k is field k of every row. */
  lemma {:induction false} RectangularColumn(rs: seq<seq<string>>, m: nat, k: nat)
    requires forall i :: 0 <= i < |rs| ==> |rs[i]| == m
    requires k < m
    ensures Column(rs, k) == seq(|rs|, i requires 0 <= i < |rs| => rs[i][k])
  {
    if |rs| > 0 {
      RectangularColumn(rs[..|rs| - 1], m, k);
    }
  }

  /** The transposed rows of a rectangular table. */
  function Columns(rs: seq<seq<string>>): (r: seq<seq<string>>)
    ensures |r| == MaxLength(rs) && forall k :: 0 <= k < |r| ==> r[k] == Column(rs, k)
  {
    seq(MaxLength(rs), k requires 0 <= k < MaxLength(rs) => Column(rs, k))
  }

  /** Transposing a rectangular table of at least one row and one column
      twice gives the table back. */
  lemma TransposeTwice(rs: seq<seq<string>>, m: nat)
    requires |rs| > 0 && m > 0
    requires forall i :: 0 <= i < |rs| ==> |rs[i]| == m
    ensures Columns(Columns(rs)) == rs
  {
    var t := Columns(rs);
    assert MaxLength(rs) == m by {
      assert |rs[0]| == m;
    }
    forall k | 0 <= k < m ensures t[k] == seq(|rs|, i requires 0 <= i < |rs| => rs[i][k]) {
      RectangularColumn(rs, m, k);
    }
    assert MaxLength(t) == |rs| by {
      assert |t[0]| == |rs|;
    }
    forall i | 0 <= i < |rs| ensures Columns(t)[i] == rs[i] {
      RectangularColumn(t, |rs|, i);
    }
  }
}
