/** lib/sycsvpro/spread_sheet.rb: a rectangular table of cells with row and
    column labels, and element-wise arithmetic that repeats the smaller
    operand cyclically. */
module SpreadSheet {
  import opened Wrappers
  import opened Text
  import opened NotAvailable

  /** An argument of `SpreadSheet.new`: an array of cells, or anything else. */
  datatype RowArg = Row(cells: seq<Value>) | Other(v: Value)

  /** The options hash, as the flags `r:` (row labels) and `c:` (column
      labels). */
  datatype Opts = Opts(r: bool, c: bool)

  const NoOpts := Opts(false, false)

  datatype Sheet = Sheet(rows: seq<seq<Value>>, rowLabels: seq<Value>, colLabels: seq<Value>)

  // ---------------------------------------------------------------------------
  // Construction

  predicate RowsAreArrays(args: seq<RowArg>)
  {
    forall i :: 0 <= i < |args| ==> args[i].Row?
  }

  function Cells(args: seq<RowArg>): (r: seq<seq<Value>>)
    requires RowsAreArrays(args)
    ensures |r| == |args| && forall i :: 0 <= i < |args| ==> r[i] == args[i].cells
  {
    seq(|args|, i requires 0 <= i < |args| => args[i].cells)
  }

  /** A label row does not take part in the column size check. */
  function Offset(opts: Opts): nat
  {
    if opts.c then 1 else 0
  }

  /** Neighbouring rows from `offset` on have the same length. */
  predicate SameColumnSize(rows: seq<seq<Value>>, offset: nat)
  {
    forall i :: offset <= i && i + 1 < |rows| ==> |rows[i]| == |rows[i + 1]|
  }

  /** `check_validity_of`: the first complaint, in the order `check_validity_of` tests. */
  function Validity(args: seq<RowArg>, opts: Opts): Option<string>
  {
    if !RowsAreArrays(args) then Some("rows need to be arrays")
    else if |args| == 0 then Some("needs at least one row")
    else if !SameColumnSize(Cells(args), Offset(opts)) then Some("rows must be of same column size")
    else None
  }

  /** The labels 0, 1, ..., n-1. */
  function Indices(n: nat): (r: seq<Value>)
    ensures |r| == n && forall i :: 0 <= i < n ==> r[i] == Num(i)
  {
    seq(n, i requires 0 <= i < n => Num(i))
  }

  /** `extract_col_labels`: the first row, without its first cell when it is
      as long as the next row; with no next row, `rows[0].size` raises. */
  function ColLabels(rows: seq<seq<Value>>): Result<seq<Value>>
    requires |rows| > 0
  {
    if |rows| < 2 then Err("undefined method 'size' for nil")
    else if |rows[0]| == |rows[1]| && |rows[0]| > 0 then Ok(rows[0][1..])
    else Ok(rows[0])
  }

  /** `row.shift` returns the first cell (nil for an empty row) and leaves
      the rest. */
  function FirstCell(row: seq<Value>): Value
  {
    if |row| == 0 then Nil else row[0]
  }

  function RestCells(row: seq<Value>): (r: seq<Value>)
    ensures |r| == if |row| == 0 then 0 else |row| - 1
  {
    if |row| == 0 then [] else row[1..]
  }

  function RowLabels(rows: seq<seq<Value>>): (r: seq<Value>)
    ensures |r| == |rows| && forall i :: 0 <= i < |rows| ==> r[i] == FirstCell(rows[i])
  {
    seq(|rows|, i requires 0 <= i < |rows| => FirstCell(rows[i]))
  }

  function Unlabelled(rows: seq<seq<Value>>): (r: seq<seq<Value>>)
    ensures |r| == |rows| && forall i :: 0 <= i < |rows| ==> r[i] == RestCells(rows[i])
  {
    seq(|rows|, i requires 0 <= i < |rows| => RestCells(rows[i]))
  }

  /** `SpreadSheet.new(*args, opts)`: validation, then the labels. */
  function Build(args: seq<RowArg>, opts: Opts): Result<Sheet>
  {
    var invalid := Validity(args, opts);
    if invalid.Some? then Err(invalid.value)
    else
      var all := Cells(args);
      var cl := if opts.c then ColLabels(all) else Ok([]);
      if cl.Err? then Err(cl.msg)
      else
        var afterCol := if opts.c then all[1..] else all;
        var rows := if opts.r then Unlabelled(afterCol) else afterCol;
        Ok(Sheet(rows,
                 if opts.r then RowLabels(afterCol) else Indices(|rows|),
                 if opts.c then cl.value else Indices(|rows[0]|)))
  }

  /** `same_column_size?`. */
  method CheckSameColumnSize(rows: seq<seq<Value>>, opts: Opts) returns (same: bool)
    ensures same == SameColumnSize(rows, Offset(opts))
  {
    var offset := if opts.c then 1 else 0;
    if |rows| == 1 + offset {
      return true;
    }
    var i := offset;
    while i + 1 < |rows|
      invariant offset <= i
      invariant forall k :: offset <= k < i && k + 1 < |rows| ==> |rows[k]| == |rows[k + 1]|
    {
      if |rows[i]| != |rows[i + 1]| {
        return false;
      }
      i := i + 1;
    }
    return true;
  }

  /** `SpreadSheet#initialize`: checks the rows, then shifts the label row
      and the label cells off them. */
  method New(args: seq<RowArg>, opts: Opts) returns (r: Result<Sheet>)
    ensures r == Build(args, opts)
  {
    var k := 0;
    while k < |args|
      invariant 0 <= k <= |args|
      invariant forall i :: 0 <= i < k ==> args[i].Row?
    {
      if !args[k].Row? {
        return Err("rows need to be arrays");
      }
      k := k + 1;
    }
    if |args| == 0 {
      return Err("needs at least one row");
    }
    var rows := Cells(args);
    var same := CheckSameColumnSize(rows, opts);
    if !same {
      return Err("rows must be of same column size");
    }
    var colLabels := [];
    if opts.c {
      var cl := ColLabels(rows);
      if cl.Err? {
        return Err(cl.msg);
      }
      colLabels := cl.value;
      rows := rows[1..];
    }
    ghost var afterCol := rows;
    var rowLabels := [];
    if opts.r {
      var i := 0;
      while i < |rows|
        invariant 0 <= i <= |rows| == |afterCol|
        invariant |rowLabels| == i && forall k :: 0 <= k < i ==> rowLabels[k] == FirstCell(afterCol[k])
        invariant forall k :: 0 <= k < i ==> rows[k] == RestCells(afterCol[k])
        invariant forall k :: i <= k < |rows| ==> rows[k] == afterCol[k]
      {
        rowLabels := rowLabels + [FirstCell(rows[i])];
        rows := rows[i := RestCells(rows[i])];
        i := i + 1;
      }
      assert rowLabels == RowLabels(afterCol) && rows == Unlabelled(afterCol);
    } else {
      rowLabels := Indices(|rows|);
    }
    if !opts.c {
      colLabels := Indices(|rows[0]|);
    }
    assert Validity(args, opts).None?;
    r := Ok(Sheet(rows, rowLabels, colLabels));
  }

  // ---------------------------------------------------------------------------
  // Queries

  /** Every sheet that construction returns: at least one row, all of the
      same length. */
  predicate Valid(s: Sheet)
  {
    |s.rows| > 0 && forall i :: 0 <= i < |s.rows| ==> |s.rows[i]| == |s.rows[0]|
  }

  function NRows(s: Sheet): nat
  {
    |s.rows|
  }

  function NCols(s: Sheet): nat
    requires Valid(s)
  {
    |s.rows[0]|
  }

  function Dim(s: Sheet): (nat, nat)
    requires Valid(s)
  {
    (NRows(s), NCols(s))
  }

  function Size(s: Sheet): nat
    requires Valid(s)
  {
    NRows(s) * NCols(s)
  }

  /** The number of cells of all rows together. */
  function CellCount(rows: seq<seq<Value>>): nat
  {
    if |rows| == 0 then 0 else CellCount(rows[..|rows| - 1]) + |rows[|rows| - 1]|
  }

  lemma {:induction false} CellCountUniform(rows: seq<seq<Value>>, m: nat)
    requires forall i :: 0 <= i < |rows| ==> |rows[i]| == m
    ensures CellCount(rows) == |rows| * m
  {
    if |rows| > 0 {
      CellCountUniform(rows[..|rows| - 1], m);
    }
  }

  /** `size` is the number of cells. */
  lemma SizeCountsCells(s: Sheet)
    requires Valid(s)
    ensures Size(s) == CellCount(s.rows)
  {
    CellCountUniform(s.rows, NCols(s));
  }

  lemma {:induction false} NeighboursAllEqual(rows: seq<seq<Value>>, offset: nat, i: nat)
    requires SameColumnSize(rows, offset)
    requires offset <= i < |rows|
    ensures |rows[i]| == |rows[offset]|
  {
    if i > offset {
      NeighboursAllEqual(rows, offset, i - 1);
    }
  }

  /** Construction only returns valid sheets. */
  lemma BuildIsValid(args: seq<RowArg>, opts: Opts)
    requires Build(args, opts).Ok?
    ensures Valid(Build(args, opts).value)
  {
    var all := Cells(args);
    var offset := Offset(opts);
    var afterCol := if opts.c then all[1..] else all;
    forall i | 0 <= i < |afterCol| ensures |afterCol[i]| == |afterCol[0]| {
      NeighboursAllEqual(all, offset, i + offset);
      NeighboursAllEqual(all, offset, offset);
    }
  }

  /** Without options the rows are the arguments, labelled 0.. both ways. */
  lemma DefaultLabels(args: seq<RowArg>)
    requires Build(args, NoOpts).Ok?
    ensures var s := Build(args, NoOpts).value;
      RowsAreArrays(args) && s.rows == Cells(args) && |s.rows| > 0 &&
      s.rowLabels == Indices(|s.rows|) && s.colLabels == Indices(|s.rows[0]|)
  {
  }

  /** Construction fails with the complaints `check_validity_of` makes, in its order. */
  lemma ConstructionErrors(args: seq<RowArg>, opts: Opts)
    ensures !RowsAreArrays(args) ==> Build(args, opts) == Err("rows need to be arrays")
    ensures RowsAreArrays(args) && |args| == 0 ==> Build(args, opts) == Err("needs at least one row")
    ensures RowsAreArrays(args) && |args| > 0 && !SameColumnSize(Cells(args), Offset(opts)) ==>
      Build(args, opts) == Err("rows must be of same column size")
  {
  }

  /** With both label options, the first row gives the column labels and the
      first cell of every later row its row label; putting each label back
      in front of its row restores the arguments. */
  lemma LabelsReassemble(args: seq<RowArg>)
    requires Build(args, Opts(true, true)).Ok?
    requires forall i :: 0 <= i < |args| ==> args[i].Row? && |args[i].cells| > 0
    ensures var s := Build(args, Opts(true, true)).value;
      |s.rows| == |args| - 1 && |s.rowLabels| == |s.rows| &&
      (forall i :: 0 <= i < |s.rows| ==> args[i + 1].cells == [s.rowLabels[i]] + s.rows[i]) &&
      (s.colLabels == args[0].cells || [args[0].cells[0]] + s.colLabels == args[0].cells)
  {
    var s := Build(args, Opts(true, true)).value;
    forall i | 0 <= i < |s.rows| ensures args[i + 1].cells == [s.rowLabels[i]] + s.rows[i] {
      assert Cells(args)[1..][i] == args[i + 1].cells;
    }
  }

  /** SpreadSheet.new(['X','Y'], ['A',1,2], ['B',3,4], r: true, c: true). */
  lemma LabelledExample()
    ensures Build([Row([Str("X"), Str("Y")]), Row([Str("A"), Num(1), Num(2)]), Row([Str("B"), Num(3), Num(4)])], Opts(true, true))
      == Ok(Sheet([[Num(1), Num(2)], [Num(3), Num(4)]], [Str("A"), Str("B")], [Str("X"), Str("Y")]))
  {
    var args := [Row([Str("X"), Str("Y")]), Row([Str("A"), Num(1), Num(2)]), Row([Str("B"), Num(3), Num(4)])];
    var all := Cells(args);
    assert all == [[Str("X"), Str("Y")], [Str("A"), Num(1), Num(2)], [Str("B"), Num(3), Num(4)]];
    assert SameColumnSize(all, 1);
    assert all[1..] == [[Str("A"), Num(1), Num(2)], [Str("B"), Num(3), Num(4)]];
    assert Unlabelled(all[1..]) == [[Num(1), Num(2)], [Num(3), Num(4)]];
    assert RowLabels(all[1..]) == [Str("A"), Str("B")];
  }

  // ---------------------------------------------------------------------------
  // Subsets

  /** nil cells for the nils of `values_at`. */
  function Fill(cells: seq<Option<Value>>): (r: seq<Value>)
    ensures |r| == |cells|
    ensures forall i :: 0 <= i < |cells| ==> r[i] == if cells[i].Some? then cells[i].value else Nil
  {
    seq(|cells|, i requires 0 <= i < |cells| => if cells[i].Some? then cells[i].value else Nil)
  }

  /** Every picked row exists. */
  predicate AllPresent(picked: seq<Option<seq<Value>>>)
  {
    forall i :: 0 <= i < |picked| ==> picked[i].Some?
  }

  /** The arguments `[]` passes to `SpreadSheet.new`: each picked row cut to
      the columns `cs`. */
  function Selection(picked: seq<Option<seq<Value>>>, cs: seq<int>): (r: seq<RowArg>)
    requires AllPresent(picked)
    ensures |r| == |picked|
    ensures forall i :: 0 <= i < |picked| ==> r[i] == Row(Fill(ValuesAt(picked[i].value, cs)))
  {
    seq(|picked|, i requires 0 <= i < |picked| => Row(Fill(ValuesAt(picked[i].value, cs))))
  }

  /** What `[]` returns: a sheet, or, from its second branch, the one-row
      sheet whose cells are picked rows themselves (None for nil), with the
      labels 0 and 0, 1, ...; a Value cannot hold a row, hence the second
      alternative. */
  datatype Picked = Cut(sheet: Sheet) | Nested(cells: seq<Option<seq<Value>>>)

  function AsPicked(t: Result<Sheet>): (r: Result<Picked>)
    ensures r.Ok? <==> t.Ok?
    ensures t.Ok? ==> r.value == Cut(t.value)
    ensures t.Err? ==> r.msg == t.msg
  {
    if t.Ok? then Ok(Cut(t.value)) else Err(t.msg)
  }

  /** The second branch of `[]`, taken when a picked row is nil:
      `row_selection[*c]` indexes the list of picked rows with the column
      arguments, one giving an entry and two a slice, and `SpreadSheet.new`
      takes that as its only row. */
  function Unpicked(picked: seq<Option<seq<Value>>>, cs: seq<int>): Result<Picked>
  {
    if |cs| == 1 then
      var entry := At(picked, cs[0]);
      AsPicked(Build([if entry.Some? && entry.value.Some? then Row(entry.value.value) else Other(Nil)], NoOpts))
    else if |cs| == 2 then
      var slice := Slice(picked, cs[0], cs[1]);
      if slice.Some? then Ok(Nested(slice.value)) else Err("rows need to be arrays")
    else Err("wrong number of arguments (given " + NatToString(|cs|) + ", expected 1..2)")
  }

  /** `s[r, c]`: the rows at the indices of `rsel` (all when nil), each cut
      to the columns at the indices of `csel` (all when nil), as a new sheet
      without options. When an index picks no row, the column indices pick
      from the list of picked rows instead. */
  function SubsetOf(s: Sheet, rsel: Option<seq<int>>, csel: Option<seq<int>>): Result<Picked>
    requires Valid(s)
  {
    var rs := if rsel.Some? then rsel.value else Span(NRows(s));
    var cs := if csel.Some? then csel.value else Span(NCols(s));
    var picked := ValuesAt(s.rows, rs);
    if !AllPresent(picked) then Unpicked(picked, cs)
    else AsPicked(Build(Selection(picked, cs), NoOpts))
  }

  /** `rows_are_arrays?` on the picked rows: `values_at` leaves nil for an
      index outside the sheet. */
  method CheckPresent(picked: seq<Option<seq<Value>>>) returns (present: bool)
    ensures present == AllPresent(picked)
  {
    var i := 0;
    while i < |picked|
      invariant 0 <= i <= |picked|
      invariant forall k :: 0 <= k < i ==> picked[k].Some?
    {
      if picked[i].None? {
        return false;
      }
      i := i + 1;
    }
    return true;
  }

  /** The loop of `[]` over the picked rows, each cut to the columns `cs`. */
  method SelectColumns(picked: seq<Option<seq<Value>>>, cs: seq<int>) returns (selection: seq<RowArg>)
    requires AllPresent(picked)
    ensures selection == Selection(picked, cs)
  {
    selection := [];
    var i := 0;
    while i < |picked|
      invariant 0 <= i <= |picked|
      invariant |selection| == i
      invariant forall k :: 0 <= k < i ==> selection[k] == Row(Fill(ValuesAt(picked[k].value, cs)))
    {
      selection := selection + [Row(Fill(ValuesAt(picked[i].value, cs)))];
      i := i + 1;
    }
  }

  /** `SpreadSheet#[]`. */
  method Subset(s: Sheet, rsel: Option<seq<int>>, csel: Option<seq<int>>) returns (r: Result<Picked>)
    requires Valid(s)
    ensures r == SubsetOf(s, rsel, csel)
  {
    var rs := if rsel.Some? then rsel.value else Span(NRows(s));
    var cs := if csel.Some? then csel.value else Span(NCols(s));
    var picked := ValuesAt(s.rows, rs);
    var present := CheckPresent(picked);
    if !present {
      return Unpicked(picked, cs);
    }
    var selection := SelectColumns(picked, cs);
    var t := New(selection, NoOpts);
    r := AsPicked(t);
  }

  /** When an index picks no row, nothing is cut to columns: the result is
      one whole row of the sheet, or a row of picked rows, or an error. */
  lemma MissingRowCutsNothing(s: Sheet, rs: seq<int>, csel: Option<seq<int>>)
    requires Valid(s)
    requires exists i :: 0 <= i < |rs| && At(s.rows, rs[i]).None?
    ensures var r := SubsetOf(s, Some(rs), csel);
      r.Ok? && r.value.Cut? ==> |r.value.sheet.rows| == 1 && r.value.sheet.rows[0] in s.rows
    ensures var r := SubsetOf(s, Some(rs), csel);
      r.Ok? && r.value.Nested? ==>
        forall j :: 0 <= j < |r.value.cells| && r.value.cells[j].Some? ==> r.value.cells[j].value in s.rows
    ensures var cs := if csel.Some? then csel.value else Span(NCols(s));
      |cs| != 1 && |cs| != 2 ==> SubsetOf(s, Some(rs), csel).Err?
  {
    var cs := if csel.Some? then csel.value else Span(NCols(s));
    var picked := ValuesAt(s.rows, rs);
    assert !AllPresent(picked);
    forall k | 0 <= k < |picked| && picked[k].Some? ensures picked[k].value in s.rows {
      assert picked[k] == At(s.rows, rs[k]);
    }
    if |cs| == 2 {
      var slice := Slice(picked, cs[0], cs[1]);
      if slice.Some? {
        var from := if cs[0] < 0 then cs[0] + |picked| else cs[0];
        assert forall j :: 0 <= j < |slice.value| ==> slice.value[j] == picked[from + j];
      }
    }
  }

  /** On the sheet [1, 2], [3, 4], the out-of-range row 5: `s[[0, 5], [0]]`
      is the sheet [1, 2], `s[[0, 5]]` the one-cell sheet holding the row
      [1, 2], `s[[5, 0], [0]]` raises, and so do three column indices. */
  lemma MissingRowExamples()
    ensures var s := Sheet([[Num(1), Num(2)], [Num(3), Num(4)]], Indices(2), Indices(2));
      Valid(s) &&
      SubsetOf(s, Some([0, 5]), Some([0])) == Ok(Cut(Sheet([[Num(1), Num(2)]], [Num(0)], Indices(2)))) &&
      SubsetOf(s, Some([0, 5]), None) == Ok(Nested([Some([Num(1), Num(2)])])) &&
      SubsetOf(s, Some([5, 0]), Some([0])) == Err("rows need to be arrays") &&
      SubsetOf(s, Some([0, 5]), Some([0, 1, 1])).Err?
  {
    var s := Sheet([[Num(1), Num(2)], [Num(3), Num(4)]], Indices(2), Indices(2));
    assert Span(2) == [0, 1];
    assert ValuesAt(s.rows, [0, 5]) == [Some([Num(1), Num(2)]), None];
    assert ValuesAt(s.rows, [5, 0]) == [None, Some([Num(1), Num(2)])];
    assert Indices(1) == [Num(0)];
    var one := [Row([Num(1), Num(2)])];
    assert Cells(one) == [[Num(1), Num(2)]];
    assert Validity(one, NoOpts) == None;
    assert NCols(s) == 2;
    var picked := [Some([Num(1), Num(2)]), None];
    assert picked[0..1] == [Some([Num(1), Num(2)])];
  }

  /** With row and column indices inside the sheet, cell (i, j) of the subset
      is cell (rs[i], cs[j]) of the sheet. */
  lemma SubsetCells(s: Sheet, rs: seq<int>, cs: seq<int>)
    requires Valid(s) && |rs| > 0
    requires forall i :: 0 <= i < |rs| ==> 0 <= rs[i] < NRows(s)
    requires forall j :: 0 <= j < |cs| ==> 0 <= cs[j] < NCols(s)
    ensures SubsetOf(s, Some(rs), Some(cs)).Ok? && SubsetOf(s, Some(rs), Some(cs)).value.Cut?
    ensures var t := SubsetOf(s, Some(rs), Some(cs)).value.sheet;
      |t.rows| == |rs| &&
      forall i :: 0 <= i < |rs| ==> (|t.rows[i]| == |cs| &&
        forall j :: 0 <= j < |cs| ==>
          0 <= rs[i] < |s.rows| && 0 <= cs[j] < |s.rows[rs[i]]| && t.rows[i][j] == s.rows[rs[i]][cs[j]])
  {
    var picked := ValuesAt(s.rows, rs);
    var args := Selection(picked, cs);
    assert forall i :: 0 <= i < |args| ==> |args[i].cells| == |cs|;
    assert SameColumnSize(Cells(args), 0);
  }

  /** `s[nil, nil]` has the rows of `s`. */
  lemma SubsetAll(s: Sheet)
    requires Valid(s)
    ensures SubsetOf(s, None, None).Ok? && SubsetOf(s, None, None).value.Cut?
    ensures SubsetOf(s, None, None).value.sheet.rows == s.rows
  {
    SubsetCells(s, Span(NRows(s)), Span(NCols(s)));
    var t := SubsetOf(s, None, None).value.sheet;
    assert |t.rows| == |s.rows|;
    forall i | 0 <= i < |s.rows| ensures t.rows[i] == s.rows[i] {
      assert |t.rows[i]| == |s.rows[i]|;
    }
  }

  // ---------------------------------------------------------------------------
  // Arithmetic

  function Max(a: nat, b: nat): nat
  {
    if a >= b then a else b
  }

  /** Cell (r, c) of `a op b`: the cells of `a` and `b` at the indices taken
      modulo their sizes. */
  function CellAt(op: Op, a: Sheet, b: Sheet, r: nat, c: nat): Result<Value>
    requires Valid(a) && Valid(b) && NCols(a) > 0 && NCols(b) > 0
  {
    Apply(op, a.rows[r % NRows(a)][c % NCols(a)], b.rows[r % NRows(b)][c % NCols(b)])
  }

  /** `process(operator, s)`: the result has as many rows and columns as the
      larger operand, and every cell combines the cyclically repeated cells
      of both. One operand without columns against one with columns divides
      by zero; a failing cell fails the whole operation. */
  method Process(op: Op, a: Sheet, b: Sheet) returns (r: Result<Sheet>)
    requires Valid(a) && Valid(b)
    ensures (NCols(a) == 0) != (NCols(b) == 0) ==> r == Err("divided by 0")
    ensures NCols(a) == 0 && NCols(b) == 0 ==>
      var rc := Max(NRows(a), NRows(b));
      r == Ok(Sheet(seq(rc, _ => []), Indices(rc), Indices(0)))
    ensures NCols(a) > 0 && NCols(b) > 0 ==>
      var rc := Max(NRows(a), NRows(b));
      var cc := Max(NCols(a), NCols(b));
      (r.Ok? <==> forall i, j :: 0 <= i < rc && 0 <= j < cc ==> CellAt(op, a, b, i, j).Ok?) &&
      (r.Ok? ==>
        r.value.rowLabels == Indices(rc) && r.value.colLabels == Indices(cc) &&
        |r.value.rows| == rc &&
        forall i :: 0 <= i < rc ==> (|r.value.rows[i]| == cc &&
          forall j :: 0 <= j < cc ==> r.value.rows[i][j] == CellAt(op, a, b, i, j).value))
  {
    var rowCount := Max(NRows(a), NRows(b));
    var colCount := Max(NCols(a), NCols(b));
    if colCount > 0 && (NCols(a) == 0 || NCols(b) == 0) {
      return Err("divided by 0");
    }
    var result: seq<seq<Value>> := [];
    var i := 0;
    while i < rowCount
      invariant 0 <= i <= rowCount
      invariant |result| == i
      invariant forall k :: 0 <= k < i ==> |result[k]| == colCount
      invariant colCount > 0 ==> forall k, j :: 0 <= k < i && 0 <= j < colCount ==>
        CellAt(op, a, b, k, j).Ok? && result[k][j] == CellAt(op, a, b, k, j).value
    {
      var element: seq<Value> := [];
      var j := 0;
      while j < colCount
        invariant 0 <= j <= colCount
        invariant |element| == j
        invariant colCount > 0 ==> forall m :: 0 <= m < j ==>
          CellAt(op, a, b, i, m).Ok? && element[m] == CellAt(op, a, b, i, m).value
      {
        var cell := Apply(op, a.rows[i % NRows(a)][j % NCols(a)], b.rows[i % NRows(b)][j % NCols(b)]);
        if cell.Err? {
          assert CellAt(op, a, b, i, j).Err?;
          return Err(cell.msg);
        }
        element := element + [cell.value];
        j := j + 1;
      }
      result := result + [element];
      i := i + 1;
    }
    if colCount == 0 {
      assert result == seq(rowCount, _ => []);
    }
    r := Ok(Sheet(result, Indices(rowCount), Indices(colCount)));
  }

  /** Sheets of the same dimensions combine cell by cell. */
  lemma SameSizeIsCellwise(op: Op, a: Sheet, b: Sheet, i: nat, j: nat)
    requires Valid(a) && Valid(b) && Dim(a) == Dim(b)
    requires i < NRows(a) && j < NCols(a)
    ensures CellAt(op, a, b, i, j) == Apply(op, a.rows[i][j], b.rows[i][j])
  {
    ModSmall(i, NRows(a));
    ModSmall(j, NCols(a));
  }

  lemma ModSmall(i: int, n: int)
    requires 0 <= i < n
    ensures i % n == i
  {
  }

  /** A one-column sheet times a two-column one: [2],[4] * [5,6],[7,8]
      repeats the single column, giving [10,12],[28,32]. */
  lemma BroadcastExample(op: Op)
    requires op == Mul
    ensures var a := Sheet([[Num(2)], [Num(4)]], Indices(2), Indices(1));
      var b := Sheet([[Num(5), Num(6)], [Num(7), Num(8)]], Indices(2), Indices(2));
      CellAt(op, a, b, 0, 0) == Ok(Num(10)) && CellAt(op, a, b, 0, 1) == Ok(Num(12)) &&
      CellAt(op, a, b, 1, 0) == Ok(Num(28)) && CellAt(op, a, b, 1, 1) == Ok(Num(32))
  {
    var a := Sheet([[Num(2)], [Num(4)]], Indices(2), Indices(1));
    assert 1 % 1 == 0;
    assert a.rows[1][0] == Num(4);
  }

  // ---------------------------------------------------------------------------
  // Equality

  /** `==`: the same dimensions and the same cell everywhere; labels are
      not compared. */
  predicate SameCells(a: Sheet, b: Sheet)
    requires Valid(a) && Valid(b)
  {
    Dim(a) == Dim(b) &&
    forall i, j :: 0 <= i < NRows(a) && 0 <= j < NCols(a) ==> a.rows[i][j] == b.rows[i][j]
  }

  /** `SpreadSheet#==`. */
  method Equals(a: Sheet, b: Sheet) returns (same: bool)
    requires Valid(a) && Valid(b)
    ensures same == SameCells(a, b)
  {
    if Dim(a) != Dim(b) {
      return false;
    }
    var i := 0;
    while i < NRows(a)
      invariant 0 <= i <= NRows(a)
      invariant forall k, j :: 0 <= k < i && 0 <= j < NCols(a) ==> a.rows[k][j] == b.rows[k][j]
    {
      var j := 0;
      while j < NCols(a)
        invariant 0 <= j <= NCols(a)
        invariant forall m :: 0 <= m < j ==> a.rows[i][m] == b.rows[i][m]
      {
        if a.rows[i][j] != b.rows[i][j] {
          return false;
        }
        j := j + 1;
      }
      i := i + 1;
    }
    return true;
  }

  /** Equal cells are equal rows, so `==` is reflexive and compares exactly
      the contents. */
  lemma SameCellsIsRowEquality(a: Sheet, b: Sheet)
    requires Valid(a) && Valid(b)
    ensures SameCells(a, b) <==> a.rows == b.rows
  {
    if SameCells(a, b) {
      forall i | 0 <= i < NRows(a) ensures a.rows[i] == b.rows[i] {
        assert |a.rows[i]| == |b.rows[i]|;
      }
    }
  }
}
