/** lib/sycsvpro/analyzer.rb: the column names, column count, row count and
    a sample row of a file. */
module Analyzer {
  import opened Wrappers
  import opened Text

  /** The `Result` struct; a field is None while it is nil. */
  datatype Analysis = Analysis(cols: Option<seq<string>>, colCount: Option<nat>, rowCount: Option<int>, sampleRow: Option<string>)

  /** `rows[row_number].chomp` once `row_number` is past the last row. */
  const NilChomp := "undefined method 'chomp' for nil"

  predicate Blank(line: string)
  {
    Chomp(line) == ""
  }

  /** Where `row_number += 1 while rows[row_number].chomp.empty?` stops when
      started at `from`: the first non-blank row from there, None when it
      runs off the end. */
  function NextNonBlank(rows: seq<string>, from: nat): (r: Option<nat>)
    requires from <= |rows|
    ensures r.Some? ==> from <= r.value < |rows| && !Blank(rows[r.value])
    ensures r.Some? ==> forall j :: from <= j < r.value ==> Blank(rows[j])
    ensures r.None? ==> forall j :: from <= j < |rows| ==> Blank(rows[j])
    decreases |rows| - from
  {
    if from == |rows| then None
    else if !Blank(rows[from]) then Some(from)
    else NextNonBlank(rows, from + 1)
  }

  /** The outcome of `Analyzer#result` on the rows of a file. */
  function Analyzed(rows: seq<string>): Result<Analysis>
  {
    if |rows| == 0 then Ok(Analysis(None, None, None, None))
    else
      match NextNonBlank(rows, 0)
      case None => Err(NilChomp)
      case Some(h) =>
        match NextNonBlank(rows, h + 1)
        case None => Err(NilChomp)
        case Some(s) =>
          var cols := Split(Chomp(rows[h]), Sep);
          Ok(Analysis(Some(cols), Some(|cols|), Some(|rows| - 1), Some(Chomp(rows[s]))))
  }

  /** One `row_number += 1 while rows[row_number].chomp.empty?` loop. */
  method SkipBlank(rows: seq<string>, from: nat) returns (r: Option<nat>)
    requires from <= |rows|
    ensures r == NextNonBlank(rows, from)
  {
    var rowNumber := from;
    while rowNumber < |rows| && Blank(rows[rowNumber])
      invariant from <= rowNumber <= |rows|
      invariant NextNonBlank(rows, rowNumber) == NextNonBlank(rows, from)
      decreases |rows| - rowNumber
    {
      rowNumber := rowNumber + 1;
    }
    if rowNumber == |rows| {
      return None;
    }
    return Some(rowNumber);
  }

  /** `Analyzer#result`. */
  method Result(rows: seq<string>) returns (r: Result<Analysis>)
    ensures r == Analyzed(rows)
  {
    var result := Analysis(None, None, None, None);
    if |rows| == 0 {
      return Ok(result);
    }
    var header := SkipBlank(rows, 0);
    if header.None? {
      return Err(NilChomp);
    }
    var h := header.value;
    var cols := Split(Chomp(rows[h]), Sep);
    result := result.(cols := Some(cols), colCount := Some(|cols|));
    var sample := SkipBlank(rows, h + 1);
    if sample.None? {
      return Err(NilChomp);
    }
    result := result.(rowCount := Some(|rows| - 1), sampleRow := Some(Chomp(rows[sample.value])));
    AnalyzedFrom(rows, h, sample.value);
    return Ok(result);
  }

  // ---------------------------------------------------------------------------
  // Properties

  /** An empty file leaves all four fields nil. */
  lemma EmptyFileLeavesNil()
    ensures Analyzed([]) == Ok(Analysis(None, None, None, None))
  {
  }

  lemma {:induction false} NextNonBlankAt(rows: seq<string>, from: nat, i: nat)
    requires from <= i < |rows| && !Blank(rows[i])
    requires forall j :: from <= j < i ==> Blank(rows[j])
    ensures NextNonBlank(rows, from) == Some(i)
    decreases i - from
  {
    if from < i {
      NextNonBlankAt(rows, from + 1, i);
    }
  }

  /** With a header row `h` (the first non-blank row) and a sample row `s`
      (the first non-blank row after it): `cols` is the header split on
      ';', `col_count` its length, `row_count` the number of rows less one,
      blank rows included, and `sample_row` the sample. */
  lemma ResultFields(rows: seq<string>, h: nat, s: nat)
    requires h < s < |rows| && !Blank(rows[h]) && !Blank(rows[s])
    requires forall j :: 0 <= j < h ==> Blank(rows[j])
    requires forall j :: h < j < s ==> Blank(rows[j])
    ensures var cols := Split(Chomp(rows[h]), Sep);
      Analyzed(rows) == Ok(Analysis(Some(cols), Some(|cols|), Some(|rows| - 1), Some(Chomp(rows[s]))))
  {
    NextNonBlankAt(rows, 0, h);
    NextNonBlankAt(rows, h + 1, s);
    AnalyzedFrom(rows, h, s);
  }

  lemma AnalyzedFrom(rows: seq<string>, h: nat, s: nat)
    requires h < s < |rows| && NextNonBlank(rows, 0) == Some(h) && NextNonBlank(rows, h + 1) == Some(s)
    ensures var cols := Split(Chomp(rows[h]), Sep);
      Analyzed(rows) == Ok(Analysis(Some(cols), Some(|cols|), Some(|rows| - 1), Some(Chomp(rows[s]))))
  {
  }

  /** A non-empty file with fewer than two non-blank rows makes the second
      loop read past the end. */
  lemma NoSampleRowFails(rows: seq<string>)
    requires |rows| > 0
    requires forall i, j :: 0 <= i < j < |rows| ==> Blank(rows[i]) || Blank(rows[j])
    ensures Analyzed(rows) == Err(NilChomp)
  {
  }

  /** Conversely, a file with two non-blank rows always has a result. */
  lemma TwoRowsSucceed(rows: seq<string>, i: nat, j: nat)
    requires i < j < |rows| && !Blank(rows[i]) && !Blank(rows[j])
    ensures Analyzed(rows).Ok?
  {
    var h := NextNonBlank(rows, 0);
    assert h.Some? && h.value <= i;
    var s := NextNonBlank(rows, h.value + 1);
    assert s.Some?;
  }
}
