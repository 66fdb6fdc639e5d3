/** lib/sycsvpro/aggregator.rb: counts the occurrences of each distinct
    projected row, writes each with its count, and places a sum line with
    the grand total at a chosen output line. */
module Aggregator {
  import opened Wrappers
  import opened Text
  import opened Externals
  import opened Dicts
  import RowFilter
  import ColumnFilter

  /** The options of an Aggregator. */
  datatype Config = Config(rows: Selector, cols: Selector, headerless: bool, sum: Option<string>)

  /** The sum row title and position, and the sum column title. */
  datatype Scheme = Scheme(rowTitle: string, sumRow: int, colTitle: string)

  /** `init_sum_scheme`: the sum option "title:row,column"; a missing
      title is "Total", a missing row 0, a missing column title "Total". */
  function InitSumScheme(sum: Option<string>): Scheme
  {
    var parts := if sum.Some? then Split(sum.value, ',') else [];
    var rowScheme := At(parts, 0);
    var colScheme := At(parts, 1);
    var rowParts := if rowScheme.Some? && rowScheme.value != "" then Split(rowScheme.value, ':') else [];
    var title := At(rowParts, 0);
    var row := At(rowParts, 1);
    Scheme(if title.Some? then title.value else "Total",
           if row.Some? then ToI(row.value) else 0,
           if colScheme.Some? then colScheme.value else "Total")
  }

  /** The projection of line `i`, None when it is nil or empty: the lines
      the loop does not skip. */
  function Projected(c: Config, env: Env, line: string, i: nat): Option<string>
  {
    var chomped := Chomp(line);
    var result := ColumnFilter.Projection(c.cols, env, if RowFilter.Keeps(c.rows, env, chomped, i) then Some(chomped) else None);
    if result.Some? && result.value != "" then result else None
  }


  function Projections(c: Config, env: Env, lines: seq<string>): (r: seq<Option<string>>)
    ensures |r| == |lines| && forall i :: 0 <= i < |lines| ==> r[i] == Projected(c, env, lines[i], i)
  {
    seq(|lines|, i requires 0 <= i < |lines| => Projected(c, env, lines[i], i))
  }

  /** The fields `key_values`, `heading`, `sum_col` and `sums`. */
  datatype State = State(keyValues: Dict<string, nat>, heading: seq<seq<string>>, sumCol: nat, sums: map<string, nat>)

  /** `h[k]` of a `Hash.new(0)`. */
  function Tallied(m: map<string, nat>, k: string): nat
  {
    if k in m then m[k] else 0
  }

  /** One turn of the loop in `process_aggregation`. */
  function Step(s: State, p: Option<string>, headerless: bool, title: string): State
  {
    if p.None? then s
    else if |s.heading| == 0 && !headerless then s.(heading := s.heading + [Split(p.value, Sep)])
    else Record(s, p.value, title)
  }

  /** A counted row: `sum_col` grows to its field count, its count and the
      grand total go up by one. */
  function Record(s: State, x: string, title: string): State
  {
    var n := |Split(x, Sep)|;
    State(Put(s.keyValues, x, Get(s.keyValues, x, 0) + 1), s.heading,
          if n > s.sumCol then n else s.sumCol,
          s.sums[title := Tallied(s.sums, title) + 1])
  }

  /** The fields after the projections `ps`. */
  function Aggregated(ps: seq<Option<string>>, headerless: bool, title: string): State
  {
    if |ps| == 0 then State(Empty(), [], 0, map[])
    else Step(Aggregated(ps[..|ps| - 1], headerless, title), ps[|ps| - 1], headerless, title)
  }

  /** `heading.flatten!` followed by `heading[sum_col] = sum_col_title`; a
      gap is padded with nil, which prints as nothing. */
  function FinalHeading(s: State, title: string): (r: seq<string>)
    ensures |r| > s.sumCol && r[s.sumCol] == title
  {
    SetAt(Flatten(s.heading), s.sumCol, title, "")
  }

  /** The fields of the sum line: its title, `heading.size - 2` empty
      fields and the grand total. */
  function SumLine(rowTitle: string, heading: seq<string>, total: nat): (r: seq<string>)
    ensures |r| == if |heading| >= 2 then |heading| else 2
    ensures r[0] == rowTitle && r[|r| - 1] == NatToString(total)
    ensures forall i :: 0 < i < |r| - 1 ==> r[i] == ""
  {
    [rowTitle] + seq(if |heading| >= 2 then |heading| - 2 else 0, _ => "") + [NatToString(total)]
  }

  /** The written lines without the sum line: the heading, then each
      distinct row with its count, in order of first appearance. */
  function Blocks(heading: seq<string>, kv: Dict<string, nat>): (r: seq<string>)
    requires Valid(kv)
    ensures |r| == |kv.keys| + 1 && r[0] == Join(heading, Sep)
    ensures forall j :: 0 <= j < |kv.keys| ==> r[j + 1] == Join([kv.keys[j], NatToString(kv.values[kv.keys[j]])], Sep)
  {
    [Join(heading, Sep)] + seq(|kv.keys|, j requires 0 <= j < |kv.keys| => Join([kv.keys[j], NatToString(kv.values[kv.keys[j]])], Sep))
  }

  /** The line `sum` placed just before line `row` of `blocks`; a row
      outside them places nothing. */
  function Placed(blocks: seq<string>, sum: string, row: int): (r: seq<string>)
    ensures 0 <= row < |blocks| ==> |r| == |blocks| + 1 && r[row] == sum && r[..row] == blocks[..row] && r[row + 1..] == blocks[row..]
    ensures !(0 <= row < |blocks|) ==> r == blocks
  {
    if 0 <= row < |blocks| then blocks[..row] + [sum] + blocks[row..] else blocks
  }

  /** The output of `Aggregator#execute`. */
  function Output(c: Config, env: Env, lines: seq<string>): seq<string>
  {
    var scheme := InitSumScheme(c.sum);
    var s := Aggregated(Projections(c, env, lines), c.headerless, scheme.colTitle);
    AggregatedValid(Projections(c, env, lines), c.headerless, scheme.colTitle);
    var heading := FinalHeading(s, scheme.colTitle);
    Placed(Blocks(heading, s.keyValues), Join(SumLine(scheme.rowTitle, heading, Tallied(s.sums, scheme.colTitle)), Sep), scheme.sumRow)
  }

  lemma {:induction false} AggregatedValid(ps: seq<Option<string>>, headerless: bool, title: string)
    ensures Valid(Aggregated(ps, headerless, title).keyValues)
  {
    if |ps| > 0 {
      AggregatedValid(ps[..|ps| - 1], headerless, title);
    }
  }

  lemma AggregatedSnoc(ps: seq<Option<string>>, i: nat, headerless: bool, title: string)
    requires i < |ps|
    ensures Aggregated(ps[..i + 1], headerless, title) == Step(Aggregated(ps[..i], headerless, title), ps[i], headerless, title)
  {
    assert ps[..i + 1][..i] == ps[..i];
  }

  /** The body of the loop in `process_aggregation`, on one line. */
  method Advance(c: Config, env: Env, line: string, index: nat, title: string, s0: State) returns (s: State)
    ensures s == Step(s0, Projected(c, env, line, index), c.headerless, title)
  {
    s := s0;
    var row := RowFilter.Process(c.rows, env, Chomp(line), index);
    var result := ColumnFilter.Process(c.cols, env, row);
    if result.None? || result.value == "" {
      return;
    }
    if |s.heading| == 0 && !c.headerless {
      s := s.(heading := s.heading + [Split(result.value, Sep)]);
      return;
    }
    var size := |Split(result.value, Sep)|;
    var sumCol := if size > s.sumCol then size else s.sumCol;
    var keyValues := Put(s.keyValues, result.value, Get(s.keyValues, result.value, 0) + 1);
    var sums := s.sums[title := Tallied(s.sums, title) + 1];
    s := State(keyValues, s.heading, sumCol, sums);
  }

  /** One turn of the loop in `process_aggregation`: the fields after line
      `index` of `lines`. */
  method ProcessLine(c: Config, env: Env, lines: seq<string>, index: nat, title: string, s0: State) returns (s: State)
    requires index < |lines| && s0 == Aggregated(Projections(c, env, lines)[..index], c.headerless, title)
    ensures s == Aggregated(Projections(c, env, lines)[..index + 1], c.headerless, title)
  {
    ghost var ps := Projections(c, env, lines);
    assert ps[index] == Projected(c, env, lines[index], index);
    AggregatedSnoc(ps, index, c.headerless, title);
    s := Advance(c, env, lines[index], index, title, s0);
  }

  /** `process_aggregation`, up to the final heading. */
  method ProcessAggregation(c: Config, env: Env, lines: seq<string>, title: string) returns (s: State)
    ensures s == Aggregated(Projections(c, env, lines), c.headerless, title)
  {
    ghost var ps := Projections(c, env, lines);
    s := State(Empty(), [], 0, map[]);
    var index := 0;
    while index < |lines|
      invariant 0 <= index <= |lines|
      invariant s == Aggregated(ps[..index], c.headerless, title)
    {
      s := ProcessLine(c, env, lines, index, title, s);
      index := index + 1;
    }
    assert ps[..index] == ps;
  }

  /** The first `n` count lines after the heading, written one by one with
      the sum line before the line whose number is `row`: the loop of
      `write_result`. */
  function Emitted(heading: seq<string>, kv: Dict<string, nat>, n: nat, sum: string, row: int): seq<string>
    requires Valid(kv) && n <= |kv.keys|
  {
    if n == 0 then (if row == 0 then [sum] else []) + [Join(heading, Sep)]
    else
      var k := kv.keys[n - 1];
      Emitted(heading, kv, n - 1, sum, row) + (if row == n then [sum] else []) + [Join([k, NatToString(kv.values[k])], Sep)]
  }

  /** Appending a line moves the sum line only when it goes before it. */
  lemma PlacedSnoc(blocks: seq<string>, x: string, sum: string, row: int)
    ensures Placed(blocks + [x], sum, row) == Placed(blocks, sum, row) + (if row == |blocks| then [sum] else []) + [x]
  {
    var bs := blocks + [x];
    if 0 <= row < |blocks| {
      assert bs[..row] == blocks[..row];
      assert bs[row..] == blocks[row..] + [x];
    } else if row == |blocks| {
      assert bs[..row] == blocks;
      assert bs[row..] == [x];
    }
  }

  /** Writing line by line places the sum line as `Placed` says. */
  lemma {:induction false} EmittedPlaced(heading: seq<string>, kv: Dict<string, nat>, n: nat, sum: string, row: int)
    requires Valid(kv) && n <= |kv.keys|
    ensures Emitted(heading, kv, n, sum, row) == Placed(Blocks(heading, kv)[..n + 1], sum, row)
  {
    var all := Blocks(heading, kv);
    if n == 0 {
      assert all[..1] == [] + [Join(heading, Sep)];
      PlacedSnoc([], Join(heading, Sep), sum, row);
    } else {
      var k := kv.keys[n - 1];
      var line := Join([k, NatToString(kv.values[k])], Sep);
      assert all[n] == line;
      TakeStep(all, n);
      EmittedPlaced(heading, kv, n - 1, sum, row);
      PlacedSnoc(all[..n], line, sum, row);
    }
  }

  lemma EmittedAll(heading: seq<string>, kv: Dict<string, nat>, sum: string, row: int)
    requires Valid(kv)
    ensures Emitted(heading, kv, |kv.keys|, sum, row) == Placed(Blocks(heading, kv), sum, row)
  {
    EmittedPlaced(heading, kv, |kv.keys|, sum, row);
    assert Blocks(heading, kv)[..|kv.keys| + 1] == Blocks(heading, kv);
  }

  /** The fields of the sum line, as `write_result` builds them. */
  method BuildSumLine(rowTitle: string, heading: seq<string>, total: nat) returns (sumLine: seq<string>)
    ensures sumLine == SumLine(rowTitle, heading, total)
  {
    sumLine := [rowTitle];
    var i := 0;
    while i < |heading| - 2
      invariant 0 <= i && (|heading| >= 2 ==> i <= |heading| - 2) && (|heading| < 2 ==> i == 0)
      invariant sumLine == [rowTitle] + seq(i, _ => "")
    {
      sumLine := sumLine + [""];
      i := i + 1;
    }
    sumLine := sumLine + [NatToString(total)];
  }

  /** `write_result`: the `row` counter writes the sum line before the
      line it names. */
  method WriteResult(scheme: Scheme, heading: seq<string>, kv: Dict<string, nat>, total: nat) returns (out: seq<string>)
    requires Valid(kv)
    ensures out == Emitted(heading, kv, |kv.keys|, Join(SumLine(scheme.rowTitle, heading, total), Sep), scheme.sumRow)
  {
    var sumLine := BuildSumLine(scheme.rowTitle, heading, total);
    var text := Join(sumLine, Sep);
    var row := 0;
    out := [];
    if row == scheme.sumRow {
      out := out + [text];
    }
    row := row + 1;
    out := out + [Join(heading, Sep)];
    var j := 0;
    while j < |kv.keys|
      invariant 0 <= j <= |kv.keys| && row == j + 1
      invariant out == Emitted(heading, kv, j, text, scheme.sumRow)
    {
      var k := kv.keys[j];
      if row == scheme.sumRow {
        out := out + [text];
      }
      row := row + 1;
      out := out + [Join([k, NatToString(kv.values[k])], Sep)];
      j := j + 1;
    }
  }

  /** `Aggregator#execute`. */
  method Execute(c: Config, env: Env, lines: seq<string>) returns (out: seq<string>)
    ensures out == Output(c, env, lines)
  {
    var scheme := InitSumScheme(c.sum);
    var s := ProcessAggregation(c, env, lines, scheme.colTitle);
    AggregatedValid(Projections(c, env, lines), c.headerless, scheme.colTitle);
    var heading := SetAt(Flatten(s.heading), s.sumCol, scheme.colTitle, "");
    out := WriteResult(scheme, heading, s.keyValues, Tallied(s.sums, scheme.colTitle));
    EmittedAll(heading, s.keyValues, Join(SumLine(scheme.rowTitle, heading, Tallied(s.sums, scheme.colTitle)), Sep), scheme.sumRow);
  }

  // ---------------------------------------------------------------------------
  // Properties

  /** Without a sum option the sum row is "Total" at line 0 and the sum
      column is "Total". */
  lemma DefaultScheme()
    ensures InitSumScheme(None) == Scheme("Total", 0, "Total")
  {
  }

  /** "title:row,column" is read back as the sum row title, the sum row and
      the sum column title, when neither title holds a separator and the
      column title is not empty. */
  lemma SchemeRoundTrip(title: string, row: nat, column: string)
    requires ',' !in title && ':' !in title && ',' !in column && column != ""
    ensures InitSumScheme(Some(title + ":" + NatToString(row) + "," + column)) == Scheme(title, row, column)
  {
    var digits := NatToString(row);
    var rowScheme := title + ":" + digits;
    assert ',' !in digits && ':' !in digits by {
      forall i | 0 <= i < |digits| ensures digits[i] != ',' && digits[i] != ':' {
        assert IsDigit(digits[i]);
      }
    }
    assert ',' !in rowScheme;
    assert Join([rowScheme, column], ',') == title + ":" + digits + "," + column;
    SplitJoin([rowScheme, column], ',');
    assert Join([title, digits], ':') == rowScheme;
    SplitJoin([title, digits], ':');
    ToINatToString(row);
  }

  /** The projections the loop counts: every non-nil one except the first
      when the input has a header. */
  function CountedOf(ps: seq<Option<string>>, headerless: bool): seq<string>
  {
    if |ps| == 0 then []
    else
      var init := ps[..|ps| - 1];
      var p := ps[|ps| - 1];
      CountedOf(init, headerless) + (if p.Some? && (headerless || |Compact(init)| > 0) then [p.value] else [])
  }

  /** The field lists of the counted projections. */
  function FieldLists(rs: seq<string>): seq<seq<string>>
  {
    if |rs| == 0 then [] else FieldLists(rs[..|rs| - 1]) + [Split(rs[|rs| - 1], Sep)]
  }

  /** What the counting fields hold after the counted rows `counted`. */
  ghost predicate Tallies(s: State, counted: seq<string>, title: string)
  {
    Counts(s.keyValues, counted) &&
    Tallied(s.sums, title) == |counted| &&
    s.sumCol == MaxLength(FieldLists(counted))
  }

  /** The meaning of the fields after the projections `ps`. */
  ghost predicate Aggregates(s: State, ps: seq<Option<string>>, headerless: bool, title: string)
  {
    s.heading == (if !headerless && |Compact(ps)| > 0 then [Split(Compact(ps)[0], Sep)] else []) &&
    Tallies(s, CountedOf(ps, headerless), title)
  }

  /** The counts of the counted rows `counted`, in order of first appearance. */
  ghost predicate Counts(d: Dict<string, nat>, counted: seq<string>)
  {
    Valid(d) &&
    d.keys == Uniq(counted) &&
    (forall k :: k in d.values <==> k in counted) &&
    (forall k :: k in d.values ==> d.values[k] == Count(counted, k))
  }

  lemma PutCountValues(d: Dict<string, nat>, counted: seq<string>, x: string)
    requires forall k :: k in d.values <==> k in counted
    requires forall k :: k in d.values ==> d.values[k] == Count(counted, k)
    ensures forall k :: k in Put(d, x, Get(d, x, 0) + 1).values ==> Put(d, x, Get(d, x, 0) + 1).values[k] == Count(counted + [x], k)
  {
    var d' := Put(d, x, Get(d, x, 0) + 1);
    assert (counted + [x])[..|counted|] == counted;
    forall k | k in d'.values ensures d'.values[k] == Count(counted + [x], k) {
      if k == x && x !in counted {
        CountAbsent(counted, x);
      }
    }
  }

  /** `key_values[x] += 1` keeps the counts true. */
  lemma PutCounts(d: Dict<string, nat>, counted: seq<string>, x: string)
    requires Counts(d, counted)
    ensures Counts(Put(d, x, Get(d, x, 0) + 1), counted + [x])
  {
    UniqMembers(counted);
    PutValid(d, x, Get(d, x, 0) + 1);
    PutKeys(d, counted, x, Get(d, x, 0) + 1);
    PutCountValues(d, counted, x);
  }

  /** Recording a row keeps the counts true. */
  lemma RecordTallies(s: State, counted: seq<string>, x: string, title: string)
    requires Tallies(s, counted, title)
    ensures Tallies(Record(s, x, title), counted + [x], title)
  {
    var s' := Record(s, x, title);
    PutCounts(s.keyValues, counted, x);
    assert Counts(s'.keyValues, counted + [x]);
    assert FieldLists(counted + [x]) == FieldLists(counted) + [Split(x, Sep)] by {
      assert (counted + [x])[..|counted|] == counted;
    }
    MaxLengthStep(FieldLists(counted), Split(x, Sep));
    assert s'.sumCol == MaxLength(FieldLists(counted + [x]));
    assert Tallied(s'.sums, title) == |counted + [x]|;
  }

  /** When the input has a header the first non-nil projection becomes the
      heading; the distinct counted rows appear in order of first
      appearance, each with its number of occurrences; the grand total
      counts every counted row; `sum_col` is the largest field count among
      them. */
  lemma {:induction false} AggregatedMeans(ps: seq<Option<string>>, headerless: bool, title: string)
    ensures Aggregates(Aggregated(ps, headerless, title), ps, headerless, title)
  {
    if |ps| > 0 {
      AggregatedMeans(ps[..|ps| - 1], headerless, title);
      AggregatedStep(ps, headerless, title);
    }
  }

  lemma AggregatedStep(ps': seq<Option<string>>, headerless: bool, title: string)
    requires |ps'| > 0
    requires Aggregates(Aggregated(ps'[..|ps'| - 1], headerless, title), ps'[..|ps'| - 1], headerless, title)
    ensures Aggregates(Aggregated(ps', headerless, title), ps', headerless, title)
  {
    var ps := ps'[..|ps'| - 1];
    var p := ps'[|ps'| - 1];
    var s := Aggregated(ps, headerless, title);
    var counted := CountedOf(ps, headerless);
    if p.None? {
      assert Compact(ps') == Compact(ps);
      assert CountedOf(ps', headerless) == counted;
      assert Aggregated(ps', headerless, title) == s;
    } else if !headerless && |Compact(ps)| == 0 {
      assert Compact(ps') == [p.value];
      assert CountedOf(ps', headerless) == counted;
      assert Aggregated(ps', headerless, title) == s.(heading := [Split(p.value, Sep)]);
    } else {
      CountedStep(s, ps', headerless, title);
    }
  }

  /** A projection after the heading is counted. */
  lemma CountedStep(s: State, ps': seq<Option<string>>, headerless: bool, title: string)
    requires |ps'| > 0 && ps'[|ps'| - 1].Some?
    requires headerless || |Compact(ps'[..|ps'| - 1])| > 0
    requires s == Aggregated(ps'[..|ps'| - 1], headerless, title)
    requires Aggregates(s, ps'[..|ps'| - 1], headerless, title)
    ensures Aggregates(Aggregated(ps', headerless, title), ps', headerless, title)
  {
    var ps := ps'[..|ps'| - 1];
    var x := ps'[|ps'| - 1].value;
    var counted := CountedOf(ps, headerless);
    assert Compact(ps') == Compact(ps) + [x];
    assert CountedOf(ps', headerless) == counted + [x];
    assert !headerless ==> |s.heading| > 0;
    assert Aggregated(ps', headerless, title) == Record(s, x, title);
    if !headerless {
      assert Compact(ps')[0] == Compact(ps)[0];
    }
    RecordTallies(s, counted, x, title);
  }

  /** The first non-nil projection is the heading and is not counted when
      the input has a header; otherwise every one is counted. */
  lemma {:induction false} HeaderNotCounted(ps: seq<Option<string>>, headerless: bool)
    ensures CountedOf(ps, headerless) == if !headerless && |Compact(ps)| > 0 then Compact(ps)[1..] else Compact(ps)
  {
    if |ps| > 0 {
      var init := ps[..|ps| - 1];
      HeaderNotCounted(init, headerless);
      assert Compact(ps) == Compact(init) + (if ps[|ps| - 1].Some? then [ps[|ps| - 1].value] else []);
    }
  }

  /** The sum of the counts of the keys `ks` in `xs`. */
  function SumCounts(ks: seq<string>, xs: seq<string>): nat
  {
    if |ks| == 0 then 0 else SumCounts(ks[..|ks| - 1], xs) + Count(xs, ks[|ks| - 1])
  }

  lemma {:induction false} SumCountsAppend(ks: seq<string>, xs: seq<string>, x: string)
    requires NoDuplicates(ks)
    ensures SumCounts(ks, xs + [x]) == SumCounts(ks, xs) + (if x in ks then 1 else 0)
  {
    if |ks| > 0 {
      var init := ks[..|ks| - 1];
      var k := ks[|ks| - 1];
      SumCountsAppend(init, xs, x);
      assert (xs + [x])[..|xs|] == xs;
      assert x in ks <==> x in init || x == k;
      assert k !in init;
    }
  }

  /** Every element of `xs` is counted once under its distinct value. */
  lemma {:induction false} SumCountsUniq(xs: seq<string>)
    ensures SumCounts(Uniq(xs), xs) == |xs|
  {
    if |xs| > 0 {
      var init := xs[..|xs| - 1];
      var x := xs[|xs| - 1];
      var u := Uniq(init);
      SumCountsUniq(init);
      UniqNoDuplicates(init);
      UniqMembers(init);
      assert init + [x] == xs;
      SumCountsAppend(u, init, x);
      if x !in init {
        assert Uniq(xs) == u + [x];
        assert (u + [x])[..|u|] == u;
        CountAbsent(init, x);
        assert Count(xs, x) == 1;
      }
    }
  }

  /** The sum of the values stored under the keys `ks`. */
  function SumValues(ks: seq<string>, m: map<string, nat>): nat
    requires forall k :: k in ks ==> k in m
  {
    if |ks| == 0 then 0 else SumValues(ks[..|ks| - 1], m) + m[ks[|ks| - 1]]
  }

  lemma {:induction false} SumValuesCounts(ks: seq<string>, m: map<string, nat>, xs: seq<string>)
    requires forall k :: k in ks ==> k in m && m[k] == Count(xs, k)
    ensures SumValues(ks, m) == SumCounts(ks, xs)
  {
    if |ks| > 0 {
      SumValuesCounts(ks[..|ks| - 1], m, xs);
    }
  }

  /** The grand total in the sum line is the sum of the written counts. */
  lemma TotalIsSumOfCounts(ps: seq<Option<string>>, headerless: bool, title: string)
    ensures var s := Aggregated(ps, headerless, title);
      (forall k :: k in s.keyValues.keys ==> k in s.keyValues.values) &&
      Tallied(s.sums, title) == SumValues(s.keyValues.keys, s.keyValues.values)
  {
    var s := Aggregated(ps, headerless, title);
    var counted := CountedOf(ps, headerless);
    AggregatedMeans(ps, headerless, title);
    UniqMembers(counted);
    SumValuesCounts(s.keyValues.keys, s.keyValues.values, counted);
    SumCountsUniq(counted);
  }

  /** The sum line is written once, just before output line `sum_row`, when
      that line exists, and not at all otherwise. */
  lemma SumLinePlacement(c: Config, env: Env, lines: seq<string>)
    ensures var scheme := InitSumScheme(c.sum);
      var s := Aggregated(Projections(c, env, lines), c.headerless, scheme.colTitle);
      var out := Output(c, env, lines);
      var n := |s.keyValues.keys| + 1;
      (0 <= scheme.sumRow < n ==> |out| == n + 1) && (!(0 <= scheme.sumRow < n) ==> |out| == n)
  {
    AggregatedValid(Projections(c, env, lines), c.headerless, InitSumScheme(c.sum).colTitle);
  }
}
