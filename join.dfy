/** lib/sycsvpro/join.rb: inserts columns of a source file into each row of
    the input file whose join column matches the source's join column. */
module Join {
  import opened Wrappers
  import opened Text
  import opened Externals
  import opened Sorting
  import RowFilter

  /** The options of a Join after `initialize`:
      - columns:    the source columns to insert (`cols`);
      - positions:  where the inserted cells go (`pos`);
      - joins:      the source and input join columns (`joins` "a=b");
      - header:     what is written for the header line, None when
                    `header.process` gives an empty line; Header with the
                    `pos:` and `insert:` options is not part of this model. */
  datatype Config = Config(rows: Selector, columns: seq<int>, positions: seq<int>, joins: seq<int>,
                           headerless: bool, header: string -> Option<string>)

  /** `lookup_table[:rows]`: the requested columns of a source row by its
      join value; a column past the end of the row is nil. */
  type Lookup = map<Option<string>, seq<Option<string>>>

  /** `values[nil]`, when `joins` names fewer than two columns. */
  const NilIndex := "no implicit conversion from nil to integer"
  /** `insert` or `[]=` at a negative position before the start of the row. */
  const IndexTooSmall := "index too small for array"

  // ---------------------------------------------------------------------------
  // initialize and col_positions

  /** `s.split(sep).collect { |c| c.to_i }`. */
  function ToInts(s: string, sep: char): (r: seq<int>)
    ensures |r| == |Split(s, sep)| && forall i :: 0 <= i < |r| ==> r[i] == ToI(Split(s, sep)[i])
  {
    var parts := Split(s, sep);
    seq(|parts|, i requires 0 <= i < |parts| => ToI(parts[i]))
  }

  /** `col_positions`: without `pos` the inserted columns go to the front,
      one position per column; otherwise the listed positions. */
  function ColPositions(pos: Option<string>, cols: seq<int>): (r: seq<int>)
    ensures pos.None? || pos.value == "" ==> |r| == |cols| && forall i :: 0 <= i < |r| ==> r[i] == i
    ensures pos.Some? && pos.value != "" ==> r == ToInts(pos.value, ',')
  {
    if pos.None? || pos.value == "" then seq(|cols|, i requires 0 <= i < |cols| => i)
    else ToInts(pos.value, ',')
  }

  /** `Join#initialize` on the option values; `headerless` defaults to false. */
  function Configure(rows: Selector, cols: string, pos: Option<string>, joins: string,
                     headerless: Option<bool>, header: string -> Option<string>): (r: Config)
    ensures r.columns == ToInts(cols, ',') && r.joins == ToInts(joins, '=')
    ensures r.positions == ColPositions(pos, r.columns)
    ensures r.headerless <==> headerless == Some(true)
  {
    var columns := ToInts(cols, ',');
    Config(rows, columns, ColPositions(pos, columns), ToInts(joins, '='), headerless == Some(true), header)
  }

  // ---------------------------------------------------------------------------
  // create_lookup_table

  /** The fields of a source line, None for a line the loop skips. */
  function SourceFields(env: Env, line: string): Option<seq<string>>
  {
    if Chomp(line) == "" then None
    else
      var values := Split(Chomp(env.unstring(line)), Sep);
      if values == [] then None else Some(values)
  }

  /** One turn of the loop of `create_lookup_table`. */
  function SourceStep(c: Config, env: Env, t: Result<Lookup>, line: string): Result<Lookup>
  {
    var fields := SourceFields(env, line);
    if t.Err? || fields.None? then t
    else if |c.joins| == 0 then Err(NilIndex)
    else Ok(t.value[At(fields.value, c.joins[0]) := ValuesAt(fields.value, c.columns)])
  }

  /** The lookup table after the first `n` source lines. */
  function LookupTable(c: Config, env: Env, source: seq<string>, n: nat): Result<Lookup>
    requires n <= |source|
  {
    if n == 0 then Ok(map[]) else SourceStep(c, env, LookupTable(c, env, source, n - 1), source[n - 1])
  }

  method AddSourceLine(c: Config, env: Env, table: Lookup, line: string) returns (r: Result<Lookup>)
    ensures r == SourceStep(c, env, Ok(table), line)
  {
    if Chomp(line) == "" {
      return Ok(table);
    }
    var values := Split(Chomp(env.unstring(line)), Sep);
    if values == [] {
      return Ok(table);
    }
    if |c.joins| == 0 {
      return Err(NilIndex);
    }
    var key := At(values, c.joins[0]);
    var row := [];
    var i := 0;
    while i < |c.columns|
      invariant 0 <= i <= |c.columns|
      invariant row == ValuesAt(values, c.columns[..i])
    {
      assert c.columns[..i + 1][..i] == c.columns[..i];
      row := row + [At(values, c.columns[i])];
      i := i + 1;
    }
    assert c.columns[..i] == c.columns;
    return Ok(table[key := row]);
  }

  /** `create_lookup_table` over the lines of the source file. */
  method CreateLookupTable(c: Config, env: Env, source: seq<string>) returns (r: Result<Lookup>)
    ensures r == LookupTable(c, env, source, |source|)
  {
    var table: Lookup := map[];
    var i := 0;
    while i < |source|
      invariant 0 <= i <= |source|
      invariant LookupTable(c, env, source, i) == Ok(table)
    {
      var step := AddSourceLine(c, env, table, source[i]);
      if step.Err? {
        SourceErrSticks(c, env, source, i + 1, |source|);
        return step;
      }
      table := step.value;
      i := i + 1;
    }
    return Ok(table);
  }

  lemma {:induction false} SourceErrSticks(c: Config, env: Env, source: seq<string>, k: nat, n: nat)
    requires k <= n <= |source| && LookupTable(c, env, source, k).Err?
    ensures LookupTable(c, env, source, n) == LookupTable(c, env, source, k)
  {
    if n > k {
      SourceErrSticks(c, env, source, k, n - 1);
    }
  }

  // ---------------------------------------------------------------------------
  // The row insertion of execute

  /** `ps.each { |p| values.insert(p, x) }`. */
  function InsertAll<T>(values: seq<T>, ps: seq<int>, x: T, pad: T): Option<seq<T>>
  {
    if |ps| == 0 then Some(values)
    else
      match InsertAll(values, ps[..|ps| - 1], x, pad)
      case None => None
      case Some(v) => InsertAt(v, ps[|ps| - 1], x, pad)
  }

  /** Entry `i` of the looked-up row: nil past its end. */
  function Cell(row: seq<Option<string>>, i: nat): Option<string>
  {
    if i < |row| then row[i] else None
  }

  /** `ps.each_with_index { |p, i| values[p] = row[i] }`. */
  function FillAll(values: seq<Option<string>>, ps: seq<int>, row: seq<Option<string>>): Option<seq<Option<string>>>
  {
    if |ps| == 0 then Some(values)
    else
      match FillAll(values, ps[..|ps| - 1], row)
      case None => None
      case Some(v) => StoreAt(v, ps[|ps| - 1], Cell(row, |ps| - 1), None)
  }

  /** The source row matched by an input line: the lookup entry of its join
      value, or none. */
  function MatchedRow(c: Config, t: Lookup, fields: seq<string>): seq<Option<string>>
    requires |c.joins| >= 2
  {
    var key := At(fields, c.joins[1]);
    if key in t then t[key] else []
  }

  /** The cells of a kept data line after the insertion. */
  function Cells(c: Config, t: Lookup, line: string): Result<seq<Option<string>>>
  {
    if |c.joins| < 2 then Err(NilIndex)
    else
      var fields := Split(line, Sep);
      match InsertAll(Lift(fields), SortBy(c.positions, IntLe), Some(""), None)
      case None => Err(IndexTooSmall)
      case Some(v) =>
        match FillAll(v, c.positions, MatchedRow(c, t, fields))
        case None => Err(IndexTooSmall)
        case Some(w) => Ok(w)
  }

  /** `values.join(';')`: nil cells print as nothing. */
  function Printed(cells: seq<Option<string>>): (r: string)
  {
    Join(seq(|cells|, i requires 0 <= i < |cells| => OrEmpty(cells[i])), Sep)
  }

  /** The written line for a kept data line. */
  function JoinRow(c: Config, t: Lookup, line: string): Result<string>
  {
    match Cells(c, t, line)
    case Err(m) => Err(m)
    case Ok(w) => Ok(Printed(w))
  }

  method InsertCells(values: seq<Option<string>>, ps: seq<int>) returns (r: Option<seq<Option<string>>>)
    ensures r == InsertAll(values, ps, Some(""), None)
  {
    var v := values;
    var j := 0;
    while j < |ps|
      invariant 0 <= j <= |ps|
      invariant InsertAll(values, ps[..j], Some(""), None) == Some(v)
    {
      assert ps[..j + 1][..j] == ps[..j];
      var next := InsertAt(v, ps[j], Some(""), None);
      if next.None? {
        InsertErrSticks(values, ps, j + 1);
        return None;
      }
      v := next.value;
      j := j + 1;
    }
    assert ps[..j] == ps;
    return Some(v);
  }

  lemma {:induction false} InsertErrSticks(values: seq<Option<string>>, ps: seq<int>, k: nat)
    requires k <= |ps| && InsertAll(values, ps[..k], Some(""), None).None?
    ensures InsertAll(values, ps, Some(""), None).None?
  {
    if k < |ps| {
      assert ps[..|ps| - 1][..k] == ps[..k];
      InsertErrSticks(values, ps[..|ps| - 1], k);
    } else {
      assert ps[..k] == ps;
    }
  }

  lemma {:induction false} FillErrSticks(values: seq<Option<string>>, ps: seq<int>, row: seq<Option<string>>, k: nat)
    requires k <= |ps| && FillAll(values, ps[..k], row).None?
    ensures FillAll(values, ps, row).None?
  {
    if k < |ps| {
      assert ps[..|ps| - 1][..k] == ps[..k];
      FillErrSticks(values, ps[..|ps| - 1], row, k);
    } else {
      assert ps[..k] == ps;
    }
  }

  method FillCells(values: seq<Option<string>>, ps: seq<int>, row: seq<Option<string>>) returns (r: Option<seq<Option<string>>>)
    ensures r == FillAll(values, ps, row)
  {
    var v := values;
    var i := 0;
    while i < |ps|
      invariant 0 <= i <= |ps|
      invariant FillAll(values, ps[..i], row) == Some(v)
    {
      assert ps[..i + 1][..i] == ps[..i];
      var cell := if i < |row| then row[i] else None;
      var next := StoreAt(v, ps[i], cell, None);
      if next.None? {
        FillErrSticks(values, ps, row, i + 1);
        return None;
      }
      v := next.value;
      i := i + 1;
    }
    assert ps[..i] == ps;
    return Some(v);
  }

  /** Lines 110-118 of `execute` for a kept data line. */
  method JoinLine(c: Config, t: Lookup, line: string) returns (r: Result<string>)
    ensures r == JoinRow(c, t, line)
  {
    if |c.joins| < 2 {
      return Err(NilIndex);
    }
    var values := Split(line, Sep);
    var key := At(values, c.joins[1]);
    var row := if key in t then t[key] else [];
    var inserted := InsertCells(Lift(values), SortBy(c.positions, IntLe));
    if inserted.None? {
      return Err(IndexTooSmall);
    }
    var filled := FillCells(inserted.value, c.positions, row);
    if filled.None? {
      return Err(IndexTooSmall);
    }
    return Ok(Printed(filled.value));
  }

  // ---------------------------------------------------------------------------
  // execute

  /** `processed_header` and the lines written so far. */
  datatype Progress = Progress(processedHeader: bool, out: seq<string>)

  /** One turn of the loop of `execute` on the line at `index`. */
  function Step(c: Config, env: Env, t: Lookup, st: Result<Progress>, line: string, index: nat): Result<Progress>
  {
    if st.Err? || Chomp(line) == "" then st
    else
      var text := Chomp(env.unstring(Chomp(line)));
      var p := st.value;
      if !p.processedHeader then
        var h := c.header(text);
        Ok(Progress(true, if h.Some? then p.out + [h.value] else p.out))
      else if !RowFilter.Keeps(c.rows, env, text, index) then st
      else
        match JoinRow(c, t, text)
        case Err(m) => Err(m)
        case Ok(l) => Ok(Progress(true, p.out + [l]))
  }

  /** The state after the first `n` input lines. */
  function Joined(c: Config, env: Env, t: Lookup, lines: seq<string>, n: nat): Result<Progress>
    requires n <= |lines|
  {
    if n == 0 then Ok(Progress(c.headerless, [])) else Step(c, env, t, Joined(c, env, t, lines, n - 1), lines[n - 1], n - 1)
  }

  /** The outcome of `Join.new(...).execute`: the written lines or the error. */
  function Output(c: Config, env: Env, source: seq<string>, lines: seq<string>): Result<seq<string>>
  {
    match LookupTable(c, env, source, |source|)
    case Err(m) => Err(m)
    case Ok(t) =>
      match Joined(c, env, t, lines, |lines|)
      case Err(m) => Err(m)
      case Ok(p) => Ok(p.out)
  }

  lemma {:induction false} JoinErrSticks(c: Config, env: Env, t: Lookup, lines: seq<string>, k: nat, n: nat)
    requires k <= n <= |lines| && Joined(c, env, t, lines, k).Err?
    ensures Joined(c, env, t, lines, n) == Joined(c, env, t, lines, k)
  {
    if n > k {
      JoinErrSticks(c, env, t, lines, k, n - 1);
    }
  }

  /** The body of the loop of `execute`. */
  method ProcessLine(c: Config, env: Env, t: Lookup, p: Progress, line: string, index: nat) returns (r: Result<Progress>)
    ensures r == Step(c, env, t, Ok(p), line, index)
  {
    var text := Chomp(line);
    if text == "" {
      return Ok(p);
    }
    text := Chomp(env.unstring(text));
    if !p.processedHeader {
      var h := c.header(text);
      return Ok(Progress(true, if h.Some? then p.out + [h.value] else p.out));
    }
    var row := RowFilter.Process(c.rows, env, text, index);
    if row.None? {
      return Ok(p);
    }
    var written := JoinLine(c, t, text);
    if written.Err? {
      return Err(written.msg);
    }
    return Ok(Progress(true, p.out + [written.value]));
  }

  lemma JoinedNext(c: Config, env: Env, t: Lookup, lines: seq<string>, n: nat)
    requires n < |lines|
    ensures Joined(c, env, t, lines, n + 1) == Step(c, env, t, Joined(c, env, t, lines, n), lines[n], n)
  {
  }

  /** The loop of `execute` over the input lines. */
  method JoinLines(c: Config, env: Env, t: Lookup, lines: seq<string>) returns (r: Result<Progress>)
    ensures r == Joined(c, env, t, lines, |lines|)
  {
    r := Ok(Progress(c.headerless, []));
    var index := 0;
    while index < |lines| && r.Ok?
      invariant 0 <= index <= |lines|
      invariant Joined(c, env, t, lines, index) == r
    {
      JoinedNext(c, env, t, lines, index);
      r := ProcessLine(c, env, t, r.value, lines[index], index);
      index := index + 1;
    }
    if r.Err? {
      JoinErrSticks(c, env, t, lines, index, |lines|);
    }
  }

  /** `Join.new(...).execute` over the source and input lines. */
  method Execute(c: Config, env: Env, source: seq<string>, lines: seq<string>) returns (r: Result<seq<string>>)
    ensures r == Output(c, env, source, lines)
  {
    var table := CreateLookupTable(c, env, source);
    if table.Err? {
      return Err(table.msg);
    }
    var joined := JoinLines(c, env, table.value, lines);
    if joined.Err? {
      return Err(joined.msg);
    }
    return Ok(joined.value.out);
  }

  // ---------------------------------------------------------------------------
  // Properties

  /** Strictly ascending positions. */
  predicate Ascending(ps: seq<int>)
  {
    forall i, j :: 0 <= i < j < |ps| ==> ps[i] < ps[j]
  }

  /** The number of positions before slot `t`. */
  function CountBelow(ps: seq<int>, t: int): nat
  {
    if |ps| == 0 then 0 else CountBelow(ps[..|ps| - 1], t) + (if ps[|ps| - 1] < t then 1 else 0)
  }

  lemma {:induction false} CountBelowAll(ps: seq<int>, t: int)
    requires forall i :: 0 <= i < |ps| ==> ps[i] < t
    ensures CountBelow(ps, t) == |ps|
  {
    if |ps| > 0 {
      CountBelowAll(ps[..|ps| - 1], t);
    }
  }

  lemma {:induction false} CountBelowNone(ps: seq<int>, t: int)
    requires forall i :: 0 <= i < |ps| ==> ps[i] >= t
    ensures CountBelow(ps, t) == 0
  {
    if |ps| > 0 {
      CountBelowNone(ps[..|ps| - 1], t);
    }
  }

  /** `r` holds `x` at each position of `ps` and the entries of `values`, in
      order, in the other slots. */
  ghost predicate Laid<T>(values: seq<T>, ps: seq<int>, x: T, r: seq<T>)
  {
    |r| == |values| + |ps| &&
    (forall i :: 0 <= i < |ps| ==> 0 <= ps[i] < |r| && r[ps[i]] == x) &&
    (forall t :: 0 <= t < |r| && t !in ps ==> CountBelow(ps, t) <= t < |values| + CountBelow(ps, t)) &&
    (forall t :: 0 <= t < |r| && t !in ps ==> r[t] == values[t - CountBelow(ps, t)])
  }

  /** Inserting at distinct positions in ascending order, none of them
      negative or past the final row length: each inserted cell lands at
      its own position and the original fields fill the other slots in
      their original order. */
  lemma {:induction false} InsertLayout<T>(values: seq<T>, ps: seq<int>, x: T, pad: T)
    requires Ascending(ps) && forall i :: 0 <= i < |ps| ==> 0 <= ps[i] < |values| + |ps|
    ensures InsertAll(values, ps, x, pad).Some?
    ensures Laid(values, ps, x, InsertAll(values, ps, x, pad).value)
  {
    if |ps| > 0 {
      var k := |ps|;
      var init := ps[..k - 1];
      var p := ps[k - 1];
      assert ps == init + [p];
      assert Ascending(init) && forall i :: 0 <= i < |init| ==> 0 <= init[i] < p;
      InsertLayout(values, init, x, pad);
      var r := InsertAll(values, init, x, pad).value;
      assert InsertAll(values, ps, x, pad) == Some(r[..p] + [x] + r[p..]);
      InsertShift(values, init, p, r, x);
    }
  }

  /** One more insertion, after all earlier positions: the slots before it
      stay, the ones after it move up by one. */
  lemma InsertShift<T>(values: seq<T>, init: seq<int>, p: int, r: seq<T>, x: T)
    requires 0 <= p <= |r| && forall i :: 0 <= i < |init| ==> 0 <= init[i] < p
    requires Laid(values, init, x, r)
    ensures Laid(values, init + [p], x, r[..p] + [x] + r[p..])
  {
    var ps := init + [p];
    var r' := r[..p] + [x] + r[p..];
    assert ps[..|ps| - 1] == init;
    forall t | 0 <= t < |r'| && t !in ps
      ensures CountBelow(ps, t) <= t < |values| + CountBelow(ps, t)
      ensures r'[t] == values[t - CountBelow(ps, t)]
    {
      assert t !in init && t != p;
      if t < p {
        assert r'[t] == r[t];
      } else {
        assert t - 1 !in init;
        CountBelowAll(init, t);
        CountBelowAll(init, t - 1);
        assert r'[t] == r[t - 1];
      }
    }
    forall i | 0 <= i < |ps| ensures 0 <= ps[i] < |r'| && r'[ps[i]] == x {
      if i < |init| {
        assert ps[i] == init[i];
      }
    }
  }

  /** Storing at distinct positions inside the row: position `ps[i]` holds
      entry i of the matched row and every other slot is unchanged. */
  lemma {:induction false} FillLayout(values: seq<Option<string>>, ps: seq<int>, row: seq<Option<string>>)
    requires NoDuplicates(ps) && forall i :: 0 <= i < |ps| ==> 0 <= ps[i] < |values|
    ensures FillAll(values, ps, row).Some?
    ensures var r := FillAll(values, ps, row).value;
      |r| == |values| &&
      (forall i :: 0 <= i < |ps| ==> r[ps[i]] == Cell(row, i)) &&
      (forall t :: 0 <= t < |r| && t !in ps ==> r[t] == values[t])
  {
    if |ps| > 0 {
      var k := |ps|;
      var init := ps[..k - 1];
      assert NoDuplicates(init);
      FillLayout(values, init, row);
      var r := FillAll(values, init, row).value;
      var r' := r[ps[k - 1] := Cell(row, k - 1)];
      assert FillAll(values, ps, row) == Some(r');
      forall i | 0 <= i < k ensures r'[ps[i]] == Cell(row, i) {
        if i < k - 1 {
          assert init[i] == ps[i] && ps[i] != ps[k - 1];
        }
      }
      forall t | 0 <= t < |r'| && t !in ps ensures r'[t] == values[t] {
        assert t !in init;
      }
    }
  }

  /** The cells `w` of a row whose own fields are `fields`: cell `ps[i]`
      holds entry i of `row`, and the fields fill the other cells in
      their order. */
  ghost predicate Layout(ps: seq<int>, fields: seq<string>, row: seq<Option<string>>, w: seq<Option<string>>)
  {
    |w| == |fields| + |ps| &&
    (forall i :: 0 <= i < |ps| ==> 0 <= ps[i] < |w| && w[ps[i]] == Cell(row, i)) &&
    (forall k :: 0 <= k < |w| && k !in ps ==> CountBelow(ps, k) <= k < |fields| + CountBelow(ps, k)) &&
    (forall k :: 0 <= k < |w| && k !in ps ==> w[k] == Some(fields[k - CountBelow(ps, k)]))
  }

  /** A kept data line with distinct positions that fit the final row is
      laid out as `Layout` says, with the matched source row: the cells go
      in at the sorted positions and cell i of the source row lands at the
      i-th listed position, in whatever order the positions are listed. */
  lemma RowLayout(c: Config, t: Lookup, line: string)
    requires |c.joins| >= 2 && NoDuplicates(c.positions)
    requires forall i :: 0 <= i < |c.positions| ==> 0 <= c.positions[i] < |Split(line, Sep)| + |c.positions|
    ensures Cells(c, t, line).Ok?
    ensures Layout(c.positions, Split(line, Sep), MatchedRow(c, t, Split(line, Sep)), Cells(c, t, line).value)
  {
    var fields := Split(line, Sep);
    var ps := c.positions;
    var row := MatchedRow(c, t, fields);
    InsertFillLayout(ps, fields, row);
  }

  /** Inserting at the sorted positions, then storing the matched row at
      the positions in their listed order. */
  lemma InsertFillLayout(ps: seq<int>, fields: seq<string>, row: seq<Option<string>>)
    requires NoDuplicates(ps) && forall i :: 0 <= i < |ps| ==> 0 <= ps[i] < |fields| + |ps|
    ensures InsertAll(Lift(fields), SortBy(ps, IntLe), Some(""), None).Some?
    ensures FillAll(InsertAll(Lift(fields), SortBy(ps, IntLe), Some(""), None).value, ps, row).Some?
    ensures Layout(ps, fields, row, FillAll(InsertAll(Lift(fields), SortBy(ps, IntLe), Some(""), None).value, ps, row).value)
  {
    var lf := Lift(fields);
    var sps := SortBy(ps, IntLe);
    SortedDistinct(ps);
    assert InsertAll(lf, sps, Some(""), None).Some? by {
      InsertLayout(lf, sps, Some(""), None);
    }
    var v := InsertAll(lf, sps, Some(""), None).value;
    assert Spread(fields, ps, v) by {
      InsertLayout(lf, sps, Some(""), None);
      LaidPermuted(lf, sps, ps, Some(""), v);
      LiftedLaid(fields, ps, v);
    }
    assert FillAll(v, ps, row).Some? && Filled(v, ps, row, FillAll(v, ps, row).value) by {
      FillLayout(v, ps, row);
    }
    LayoutFrom(ps, fields, row, v, FillAll(v, ps, row).value);
  }

  /** Sorting distinct positions gives them in ascending order, with the
      same members and the same count below every slot. */
  lemma SortedDistinct(ps: seq<int>)
    requires NoDuplicates(ps)
    ensures var sps := SortBy(ps, IntLe);
      Ascending(sps) && |sps| == |ps| &&
      (forall y :: y in sps <==> y in ps) &&
      (forall i :: 0 <= i < |sps| ==> sps[i] in ps) &&
      (forall t :: CountBelow(sps, t) == CountBelow(ps, t))
  {
    var sps := SortBy(ps, IntLe);
    assert TotalPreorder(IntLe);
    SortSorted(ps, IntLe);
    SortPermutes(ps, IntLe);
    assert |sps| == |multiset(sps)| == |multiset(ps)| == |ps|;
    assert forall y :: y in sps <==> y in ps by {
      forall y ensures y in sps <==> y in ps {
        assert y in sps <==> y in multiset(sps);
        assert y in ps <==> y in multiset(ps);
      }
    }
    forall i, j | 0 <= i < j < |sps| ensures sps[i] < sps[j] {
      assert IntLe(sps[i], sps[j]);
      if sps[i] == sps[j] {
        CountTwice(sps, i, j);
        CountOnce(ps, sps[i]);
        assert false;
      }
    }
    forall t ensures CountBelow(sps, t) == CountBelow(ps, t) {
      assert Ascending(sps);
      AscendingDistinct(sps);
      CountBelowSet(sps, t);
      CountBelowSet(ps, t);
      assert (set x | x in sps && x < t) == (set x | x in ps && x < t);
    }
  }

  /** Two equal entries make a value occur twice. */
  lemma CountTwice(s: seq<int>, i: nat, j: nat)
    requires i < j < |s| && s[i] == s[j]
    ensures multiset(s)[s[i]] >= 2
  {
    assert s == s[..j] + s[j..];
    assert s[i] in s[..j] && s[j] in s[j..];
  }

  /** No value occurs twice in a list without duplicates. */
  lemma {:induction false} CountOnce(s: seq<int>, x: int)
    requires NoDuplicates(s)
    ensures multiset(s)[x] <= 1
  {
    if |s| > 0 {
      var init := s[..|s| - 1];
      assert s == init + [s[|s| - 1]];
      assert NoDuplicates(init);
      CountOnce(init, x);
      if s[|s| - 1] == x {
        assert x !in init;
      }
    }
  }

  /** For distinct positions, the count below a slot is the number of
      positions below it. */
  lemma {:induction false} CountBelowSet(ps: seq<int>, t: int)
    requires NoDuplicates(ps)
    ensures CountBelow(ps, t) == |(set x | x in ps && x < t)|
  {
    if |ps| == 0 {
      assert (set x | x in ps && x < t) == {};
    } else {
      var init := ps[..|ps| - 1];
      var p := ps[|ps| - 1];
      assert ps == init + [p];
      assert NoDuplicates(init);
      CountBelowSet(init, t);
      var below := set x | x in init && x < t;
      assert p !in below;
      if p < t {
        assert (set x | x in ps && x < t) == below + {p};
      } else {
        assert (set x | x in ps && x < t) == below;
      }
    }
  }

  /** `Laid` depends only on which slots are positions and how many lie
      below each slot, not on the order the positions are listed in. */
  lemma LaidPermuted<T>(values: seq<T>, sps: seq<int>, ps: seq<int>, x: T, r: seq<T>)
    requires Laid(values, sps, x, r) && |sps| == |ps|
    requires forall y :: y in sps <==> y in ps
    requires forall t :: CountBelow(sps, t) == CountBelow(ps, t)
    ensures Laid(values, ps, x, r)
  {
    forall i | 0 <= i < |ps| ensures 0 <= ps[i] < |r| && r[ps[i]] == x {
      assert ps[i] in sps;
      var j :| 0 <= j < |sps| && sps[j] == ps[i];
    }
    forall k | 0 <= k < |r| && k !in ps
      ensures CountBelow(ps, k) <= k < |values| + CountBelow(ps, k) && r[k] == values[k - CountBelow(ps, k)]
    {
      assert k !in sps && CountBelow(sps, k) == CountBelow(ps, k);
    }
  }

  /** The fields spread over the slots of `v` that are not positions. */
  ghost predicate Spread(fields: seq<string>, ps: seq<int>, v: seq<Option<string>>)
  {
    |v| == |fields| + |ps| &&
    (forall i :: 0 <= i < |ps| ==> 0 <= ps[i] < |v|) &&
    (forall k :: 0 <= k < |v| && k !in ps ==> CountBelow(ps, k) <= k < |fields| + CountBelow(ps, k)) &&
    (forall k :: 0 <= k < |v| && k !in ps ==> v[k] == Some(fields[k - CountBelow(ps, k)]))
  }

  /** `w` is `v` with entry i of `row` stored at each position `ps[i]`. */
  ghost predicate Filled(v: seq<Option<string>>, ps: seq<int>, row: seq<Option<string>>, w: seq<Option<string>>)
  {
    |w| == |v| &&
    (forall i :: 0 <= i < |ps| ==> 0 <= ps[i] < |w| && w[ps[i]] == Cell(row, i)) &&
    (forall k :: 0 <= k < |w| && k !in ps ==> w[k] == v[k])
  }

  lemma AscendingDistinct(ps: seq<int>)
    requires Ascending(ps)
    ensures NoDuplicates(ps)
  {
  }

  /** The slots of the lifted fields hold the fields themselves. */
  lemma LiftedLaid(fields: seq<string>, ps: seq<int>, v: seq<Option<string>>)
    requires Laid(Lift(fields), ps, Some(""), v)
    ensures Spread(fields, ps, v)
  {
    forall k | 0 <= k < |v| && k !in ps ensures v[k] == Some(fields[k - CountBelow(ps, k)]) {
      assert v[k] == Lift(fields)[k - CountBelow(ps, k)];
    }
  }

  lemma LayoutFrom(ps: seq<int>, fields: seq<string>, row: seq<Option<string>>, v: seq<Option<string>>, w: seq<Option<string>>)
    requires Spread(fields, ps, v) && Filled(v, ps, row, w)
    ensures Layout(ps, fields, row, w)
  {
  }

  /** The `k` inserted cells come first, cell i holding entry i of the
      matched row, then the line's own fields in order. */
  ghost predicate FrontCells(k: nat, fields: seq<string>, row: seq<Option<string>>, w: seq<Option<string>>)
  {
    |w| == k + |fields| &&
    (forall i :: 0 <= i < k ==> w[i] == Cell(row, i)) &&
    (forall j :: 0 <= j < |fields| ==> w[k + j] == Some(fields[j]))
  }

  /** Positions 0..k-1: the k inserted cells come first, then the fields. */
  lemma FrontLayout(ps: seq<int>, fields: seq<string>, row: seq<Option<string>>, w: seq<Option<string>>)
    requires forall i :: 0 <= i < |ps| ==> ps[i] == i
    requires Layout(ps, fields, row, w)
    ensures FrontCells(|ps|, fields, row, w)
  {
    forall i | 0 <= i < |ps| ensures w[i] == Cell(row, i) {
      assert w[ps[i]] == Cell(row, i);
    }
    FrontSlots(ps, fields, row, w);
  }

  lemma FrontSlots(ps: seq<int>, fields: seq<string>, row: seq<Option<string>>, w: seq<Option<string>>)
    requires forall i :: 0 <= i < |ps| ==> ps[i] == i
    requires Layout(ps, fields, row, w)
    ensures forall j :: 0 <= j < |fields| ==> w[|ps| + j] == Some(fields[j])
  {
    forall j | 0 <= j < |fields| ensures w[|ps| + j] == Some(fields[j]) {
      FrontField(ps, fields, row, w, j);
    }
  }

  lemma FrontField(ps: seq<int>, fields: seq<string>, row: seq<Option<string>>, w: seq<Option<string>>, j: nat)
    requires forall i :: 0 <= i < |ps| ==> ps[i] == i
    requires Layout(ps, fields, row, w) && j < |fields|
    ensures w[|ps| + j] == Some(fields[j])
  {
    var x := |ps| + j;
    FrontSlot(ps, x);
    assert x - CountBelow(ps, x) == j;
  }

  /** A slot past positions 0..k-1 is not one of them, and all of them are
      below it. */
  lemma FrontSlot(ps: seq<int>, x: int)
    requires forall i :: 0 <= i < |ps| ==> ps[i] == i
    requires x >= |ps|
    ensures x !in ps && CountBelow(ps, x) == |ps|
  {
    CountBelowAll(ps, x);
  }

  /** Without `pos`, the k inserted columns are cells 0..k-1 at the front
      of the row, followed by the line's own fields. */
  lemma InsertedAtFront(c: Config, t: Lookup, line: string)
    requires |c.joins| >= 2 && |c.positions| == |c.columns|
    requires forall i :: 0 <= i < |c.positions| ==> c.positions[i] == i
    ensures Cells(c, t, line).Ok?
    ensures FrontCells(|c.columns|, Split(line, Sep), MatchedRow(c, t, Split(line, Sep)), Cells(c, t, line).value)
  {
    var fields := Split(line, Sep);
    var ps := c.positions;
    assert Ascending(ps) && forall i :: 0 <= i < |ps| ==> 0 <= ps[i] < |fields| + |ps| by {
      FrontAscending(ps, |fields|);
    }
    assert Cells(c, t, line).Ok? && Layout(ps, fields, MatchedRow(c, t, fields), Cells(c, t, line).value) by {
      RowLayout(c, t, line);
    }
    FrontLayout(ps, fields, MatchedRow(c, t, fields), Cells(c, t, line).value);
  }

  lemma FrontAscending(ps: seq<int>, n: nat)
    requires forall i :: 0 <= i < |ps| ==> ps[i] == i
    ensures Ascending(ps) && forall i :: 0 <= i < |ps| ==> 0 <= ps[i] < n + |ps|
  {
  }

  /** A line whose join value has no source row gets its inserted cells
      all the same, printed empty. */
  lemma UnmatchedCellsEmpty(c: Config, t: Lookup, fields: seq<string>, i: nat)
    requires |c.joins| >= 2 && At(fields, c.joins[1]) !in t
    ensures Cell(MatchedRow(c, t, fields), i) == None
  {
  }

  /** Inserted cell i of a matched line is the i-th requested column of the
      matching source row. */
  lemma MatchedCellIsSourceColumn(c: Config, t: Lookup, fields: seq<string>, source: seq<string>, i: nat)
    requires |c.joins| >= 2 && i < |c.columns|
    requires At(fields, c.joins[1]) in t && t[At(fields, c.joins[1])] == ValuesAt(source, c.columns)
    ensures Cell(MatchedRow(c, t, fields), i) == At(source, c.columns[i])
  {
  }

  /** The join value of a source line the lookup loop keeps. */
  function SourceKey(c: Config, env: Env, line: string): Option<string>
    requires |c.joins| > 0 && SourceFields(env, line).Some?
  {
    At(SourceFields(env, line).value, c.joins[0])
  }

  /** The lookup table holds `v` under `k`. */
  ghost predicate Entry(t: Result<Lookup>, k: Option<string>, v: seq<Option<string>>)
  {
    t.Ok? && k in t.value && t.value[k] == v
  }

  /** When several source lines share a join value the last one wins: the
      entry is the requested columns of the last kept source line with
      that value. */
  lemma LastSourceLineWins(c: Config, env: Env, source: seq<string>, i: nat)
    requires |c.joins| > 0 && i < |source| && SourceFields(env, source[i]).Some?
    requires forall j :: i < j < |source| && SourceFields(env, source[j]).Some? ==>
      SourceKey(c, env, source[j]) != SourceKey(c, env, source[i])
    ensures var t := LookupTable(c, env, source, |source|);
      t.Ok? && SourceKey(c, env, source[i]) in t.value &&
      t.value[SourceKey(c, env, source[i])] == ValuesAt(SourceFields(env, source[i]).value, c.columns)
  {
    LastLineWinsUpTo(c, env, source, i, |source|);
  }

  /** The same after the first `n` source lines. */
  lemma {:induction false} LastLineWinsUpTo(c: Config, env: Env, source: seq<string>, i: nat, n: nat)
    requires |c.joins| > 0 && i < n <= |source| && SourceFields(env, source[i]).Some?
    requires forall j :: i < j < n && SourceFields(env, source[j]).Some? ==>
      SourceKey(c, env, source[j]) != SourceKey(c, env, source[i])
    ensures Entry(LookupTable(c, env, source, n), SourceKey(c, env, source[i]), ValuesAt(SourceFields(env, source[i]).value, c.columns))
  {
    var k := SourceKey(c, env, source[i]);
    var v := ValuesAt(SourceFields(env, source[i]).value, c.columns);
    LookupNext(c, env, source, n - 1);
    if i < n - 1 {
      LastLineWinsUpTo(c, env, source, i, n - 1);
      var prev := LookupTable(c, env, source, n - 1);
      assert Entry(prev, k, v);
      SourceStepOther(c, env, prev.value, source[n - 1], k);
    } else {
      LookupTableOk(c, env, source, i);
      SourceStepSets(c, env, LookupTable(c, env, source, i).value, source[i]);
    }
  }

  lemma LookupNext(c: Config, env: Env, source: seq<string>, n: nat)
    requires n < |source|
    ensures LookupTable(c, env, source, n + 1) == SourceStep(c, env, LookupTable(c, env, source, n), source[n])
  {
  }

  /** A kept source line stores its requested columns under its join value. */
  lemma SourceStepSets(c: Config, env: Env, t: Lookup, line: string)
    requires |c.joins| > 0 && SourceFields(env, line).Some?
    ensures Entry(SourceStep(c, env, Ok(t), line), SourceKey(c, env, line), ValuesAt(SourceFields(env, line).value, c.columns))
  {
  }

  /** A source line with another join value leaves entry `k` alone. */
  lemma SourceStepOther(c: Config, env: Env, t: Lookup, line: string, k: Option<string>)
    requires |c.joins| > 0
    requires SourceFields(env, line).Some? ==> SourceKey(c, env, line) != k
    ensures SourceStep(c, env, Ok(t), line).Ok?
    ensures k in t ==> k in SourceStep(c, env, Ok(t), line).value && SourceStep(c, env, Ok(t), line).value[k] == t[k]
  {
  }

  /** With a source join column, the lookup loop never fails. */
  lemma {:induction false} LookupTableOk(c: Config, env: Env, source: seq<string>, n: nat)
    requires |c.joins| > 0 && n <= |source|
    ensures LookupTable(c, env, source, n).Ok?
  {
    if n > 0 {
      LookupTableOk(c, env, source, n - 1);
    }
  }

  /** Blank input lines are skipped; they still count for the line index
      the row filter sees. */
  lemma BlankLinesSkipped(c: Config, env: Env, t: Lookup, lines: seq<string>, n: nat)
    requires n < |lines| && Chomp(lines[n]) == ""
    ensures Joined(c, env, t, lines, n + 1) == Joined(c, env, t, lines, n)
  {
  }

  /** With a header, the first non-blank line is the header line: it is
      never joined, and it is written only as the header. */
  lemma HeaderLineNotJoined(c: Config, env: Env, t: Lookup, lines: seq<string>, n: nat)
    requires !c.headerless && n < |lines| && Chomp(lines[n]) != ""
    requires forall j :: 0 <= j < n ==> Chomp(lines[j]) == ""
    ensures var h := c.header(Chomp(env.unstring(Chomp(lines[n]))));
      Joined(c, env, t, lines, n + 1) == Ok(Progress(true, if h.Some? then [h.value] else []))
  {
    BlankPrefix(c, env, t, lines, n);
    var h := c.header(Chomp(env.unstring(Chomp(lines[n]))));
    assert Joined(c, env, t, lines, n + 1) == Step(c, env, t, Ok(Progress(false, [])), lines[n], n);
    assert Step(c, env, t, Ok(Progress(false, [])), lines[n], n) == Ok(Progress(true, if h.Some? then [] + [h.value] else []));
    assert (if h.Some? then [] + [h.value] else []) == (if h.Some? then [h.value] else []);
  }

  lemma {:induction false} BlankPrefix(c: Config, env: Env, t: Lookup, lines: seq<string>, n: nat)
    requires n <= |lines| && forall j :: 0 <= j < n ==> Chomp(lines[j]) == ""
    ensures Joined(c, env, t, lines, n) == Ok(Progress(c.headerless, []))
  {
    if n > 0 {
      BlankPrefix(c, env, t, lines, n - 1);
    }
  }
}
