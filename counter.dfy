/** lib/sycsvpro/counter.rb: for each key (a column of the kept lines) the
    number of times each projected value occurs; the distinct values,
    sorted, become the columns of the output table. */
module Counter {
  import opened Wrappers
  import opened Text
  import opened Externals
  import opened Dicts
  import opened Sorting
  import RowFilter
  import ColumnFilter

  /** The options of a Counter: rows, counted columns and the key option. */
  datatype Config = Config(rows: Selector, cols: Selector, key: Option<string>)

  /** `options[:key].to_i`; nil gives 0. */
  function KeyColumn(c: Config): int
  {
    ToI(OrEmpty(c.key))
  }

  /** What the loop learns from one line: whether it is counted, its key
      and its counted values. */
  datatype Item = Item(counted: bool, key: Option<string>, columns: seq<string>)

  /** The products of one customer: a count per value, 0 for a value not
      stored (`Hash.new(0)`). */
  type Products = map<string, nat>

  function Tallied(p: Products, col: string): nat
  {
    if col in p then p[col] else 0
  }

  /** The fields `customers` and `heading`. */
  datatype Tally = Tally(customers: Dict<Option<string>, Products>, heading: seq<string>)

  /** The filters applied to line `i`; the row filter sees the chomped line,
      the key is taken from the line itself. */
  function ItemOf(c: Config, env: Env, line: string, i: nat): Item
  {
    var chomped := Chomp(line);
    var result := ColumnFilter.Projection(c.cols, env, if RowFilter.Keeps(c.rows, env, chomped, i) then Some(chomped) else None);
    Item(result.Some? && result.value != "",
         At(Split(line, Sep), KeyColumn(c)),
         if result.Some? then Split(Chomp(result.value), Sep) else [])
  }

  function ItemAt(c: Config, env: Env, lines: seq<string>, i: nat): Item
    requires i < |lines|
  {
    ItemOf(c, env, lines[i], i)
  }

  /** Counter's view of every input line at once. */
  function Items(c: Config, env: Env, lines: seq<string>): (r: seq<Item>)
    ensures |r| == |lines| && forall i :: 0 <= i < |lines| ==> r[i] == ItemAt(c, env, lines, i)
  {
    MapWithIndex(lines, (line, i) => ItemOf(c, env, line, i))
  }

  /** One value counted for `key`: it joins `heading` when new, and the
      customer's count for it goes up by one. */
  function Count1(t: Tally, key: Option<string>, col: string): (r: Tally)
    requires key in t.customers.values
    ensures key in r.customers.values
  {
    var p := t.customers.values[key];
    Tally(Put(t.customers, key, p[col := Tallied(p, col) + 1]),
          if col in t.heading then t.heading else t.heading + [col])
  }

  /** The values `cols` counted for `key`, in order. */
  function CountAll(t: Tally, key: Option<string>, cols: seq<string>): (r: Tally)
    requires key in t.customers.values
    ensures key in r.customers.values
  {
    if |cols| == 0 then t
    else Count1(CountAll(t, key, cols[..|cols| - 1]), key, cols[|cols| - 1])
  }

  /** `customers[key] || customers[key] = {...}`: a new key gets an empty
      count. */
  function Enrol(t: Tally, key: Option<string>): (r: Tally)
    ensures key in r.customers.values
  {
    if key in t.customers.values then t else Tally(Put(t.customers, key, map[]), t.heading)
  }

  /** One turn of the loop in `process_file`. */
  function Step(t: Tally, e: Item): Tally
  {
    if e.counted then CountAll(Enrol(t, e.key), e.key, e.columns) else t
  }

  /** The fields after the items `es`: `process_file`. */
  function Counted(es: seq<Item>): Tally
  {
    if |es| == 0 then Tally(Empty(), []) else Step(Counted(es[..|es| - 1]), es[|es| - 1])
  }

  /** The line of one customer: its key, then its count of each heading
      value. */
  function CustomerLine(key: Option<string>, p: Products, heading: seq<string>): string
  {
    Join([OrEmpty(key)] + seq(|heading|, m requires 0 <= m < |heading| => NatToString(Tallied(p, heading[m]))), Sep)
  }

  /** `write_result`: the sorted heading after "customer", then one line per
      customer in key order. */
  function Report(t: Tally): (r: seq<string>)
    requires Valid(t.customers)
    ensures var hs := SortBy(t.heading, StrLe);
      var ks := t.customers.keys;
      |r| == |ks| + 1 && r[0] == Join(["customer"] + hs, Sep) &&
      forall j :: 0 <= j < |ks| ==> r[j + 1] == CustomerLine(ks[j], t.customers.values[ks[j]], hs)
  {
    var hs := SortBy(t.heading, StrLe);
    var ks := t.customers.keys;
    [Join(["customer"] + hs, Sep)] + seq(|ks|, j requires 0 <= j < |ks| => CustomerLine(ks[j], t.customers.values[ks[j]], hs))
  }

  /** The output of `Counter#execute`. */
  function Output(c: Config, env: Env, lines: seq<string>): seq<string>
  {
    var es := Items(c, env, lines);
    CountedMeans(es);
    Report(Counted(es))
  }

  /** The inner loop of `process_file`: the values of one line counted for
      its key. */
  method CountColumns(t0: Tally, key: Option<string>, columns: seq<string>) returns (t: Tally)
    requires key in t0.customers.values
    ensures t == CountAll(t0, key, columns)
  {
    var customers, heading := t0.customers, t0.heading;
    var m := 0;
    while m < |columns|
      invariant 0 <= m <= |columns|
      invariant Tally(customers, heading) == CountAll(t0, key, columns[..m])
    {
      assert columns[..m + 1][..m] == columns[..m];
      var column := columns[m];
      if IndexOf(heading, column).None? {
        heading := heading + [column];
      }
      var products := customers.values[key];
      customers := Put(customers, key, products[column := Tallied(products, column) + 1]);
      m := m + 1;
    }
    assert columns[..m] == columns;
    t := Tally(customers, heading);
  }

  /** The body of the loop in `process_file`, for line `line` at index
      `index`. */
  method ProcessLine(c: Config, env: Env, line: string, index: nat, t0: Tally) returns (t: Tally)
    ensures t == Step(t0, ItemOf(c, env, line, index))
  {
    ghost var e := ItemOf(c, env, line, index);
    var customers, heading := t0.customers, t0.heading;
    var row := RowFilter.Process(c.rows, env, Chomp(line), index);
    var result := ColumnFilter.Process(c.cols, env, row);
    if result.None? || result.value == "" {
      return t0;
    }
    var key := At(Split(line, Sep), KeyColumn(c));
    if key !in customers.values {
      customers := Put(customers, key, map[]);
    }
    assert Tally(customers, heading) == Enrol(t0, key);
    var columns := Split(Chomp(result.value), Sep);
    assert e.counted && e.key == key && e.columns == columns;
    t := CountColumns(Tally(customers, heading), key, columns);
  }

  /** `process_file`. */
  method ProcessFile(c: Config, env: Env, lines: seq<string>) returns (t: Tally)
    ensures t == Counted(Items(c, env, lines))
  {
    ghost var es := Items(c, env, lines);
    t := Tally(Empty(), []);
    var index := 0;
    while index < |lines|
      invariant 0 <= index <= |lines|
      invariant t == Counted(es[..index])
    {
      assert es[..index + 1][..index] == es[..index];
      t := ProcessLine(c, env, lines[index], index, t);
      index := index + 1;
    }
    assert es[..index] == es;
  }

  /** The line of one customer in `write_result`. */
  method WriteCustomer(k: Option<string>, v: Products, sorted: seq<string>) returns (s: string)
    ensures s == CustomerLine(k, v, sorted)
  {
    ghost var cells := seq(|sorted|, m requires 0 <= m < |sorted| => NatToString(Tallied(v, sorted[m])));
    var line := [OrEmpty(k)];
    var h := 0;
    while h < |sorted|
      invariant 0 <= h <= |sorted|
      invariant line == [OrEmpty(k)] + cells[..h]
    {
      assert cells[..h + 1] == cells[..h] + [cells[h]];
      line := line + [NatToString(Tallied(v, sorted[h]))];
      h := h + 1;
    }
    assert cells[..h] == cells;
    s := Join(line, Sep);
  }

  /** `write_result`. */
  method WriteResult(t: Tally) returns (out: seq<string>)
    requires Valid(t.customers)
    ensures out == Report(t)
  {
    ghost var report := Report(t);
    var sorted := SortBy(t.heading, StrLe);
    out := [Join(["customer"] + sorted, Sep)];
    var j := 0;
    while j < |t.customers.keys|
      invariant 0 <= j <= |t.customers.keys|
      invariant out == report[..j + 1]
    {
      assert report[..j + 2] == report[..j + 1] + [report[j + 1]];
      var k := t.customers.keys[j];
      var line := WriteCustomer(k, t.customers.values[k], sorted);
      out := out + [line];
      j := j + 1;
    }
    assert report[..j + 1] == report;
  }

  /** `Counter#execute`: `process_file`, then `write_result`. */
  method Execute(c: Config, env: Env, lines: seq<string>) returns (out: seq<string>)
    ensures out == Output(c, env, lines)
  {
    var t := ProcessFile(c, env, lines);
    CountedMeans(Items(c, env, lines));
    out := WriteResult(t);
  }

  // ---------------------------------------------------------------------------
  // Properties

  /** The counted values of the counted items, in input order. */
  function CountedColumns(es: seq<Item>): seq<string>
  {
    if |es| == 0 then []
    else
      var e := es[|es| - 1];
      CountedColumns(es[..|es| - 1]) + (if e.counted then e.columns else [])
  }

  /** The keys of the counted items, in input order. */
  function CountedKeys(es: seq<Item>): seq<Option<string>>
  {
    if |es| == 0 then []
    else
      var e := es[|es| - 1];
      CountedKeys(es[..|es| - 1]) + (if e.counted then [e.key] else [])
  }

  /** The counted values of the counted items with key `k`. */
  function ColumnsOfKey(es: seq<Item>, k: Option<string>): seq<string>
  {
    if |es| == 0 then []
    else
      var e := es[|es| - 1];
      ColumnsOfKey(es[..|es| - 1], k) + (if e.counted && e.key == k then e.columns else [])
  }

  lemma {:induction false} ColumnsOfAbsentKey(es: seq<Item>, k: Option<string>)
    requires k !in CountedKeys(es)
    ensures ColumnsOfKey(es, k) == []
  {
    if |es| > 0 {
      ColumnsOfAbsentKey(es[..|es| - 1], k);
    }
  }

  /** Counting `cols` for `key`: `heading` grows by the new values in order
      of first sight. */
  lemma {:induction false} CountAllHeading(t: Tally, key: Option<string>, cols: seq<string>, xs: seq<string>)
    requires key in t.customers.values && t.heading == Uniq(xs)
    ensures CountAll(t, key, cols).heading == Uniq(xs + cols)
  {
    if |cols| > 0 {
      var init := cols[..|cols| - 1];
      var col := cols[|cols| - 1];
      CountAllHeading(t, key, init, xs);
      var r0 := CountAll(t, key, init);
      UniqMembers(xs + init);
      assert (xs + cols)[..|xs + cols| - 1] == xs + init;
      assert col in r0.heading <==> col in xs + init;
    } else {
      assert xs + cols == xs;
    }
  }

  /** Counting `cols` for `key`: no customer is added or removed, other
      customers keep their counts, and each of `key`'s counts grows by the
      number of occurrences in `cols`. */
  lemma {:induction false} CountAllMeans(t: Tally, key: Option<string>, cols: seq<string>)
    requires key in t.customers.values
    ensures var r := CountAll(t, key, cols);
      r.customers.keys == t.customers.keys &&
      (forall k :: k in r.customers.values <==> k in t.customers.values) &&
      (forall k :: k in t.customers.values && k != key ==> r.customers.values[k] == t.customers.values[k]) &&
      forall col :: Tallied(r.customers.values[key], col) == Tallied(t.customers.values[key], col) + Count(cols, col)
  {
    if |cols| > 0 {
      var init := cols[..|cols| - 1];
      var col := cols[|cols| - 1];
      CountAllMeans(t, key, init);
      var r0 := CountAll(t, key, init);
      var r := Count1(r0, key, col);
      assert r == CountAll(t, key, cols);
      forall x ensures Tallied(r.customers.values[key], x) == Tallied(t.customers.values[key], x) + Count(cols, x) {
        assert Count(cols, x) == Count(init, x) + (if col == x then 1 else 0);
      }
    }
  }

  /** The meaning of the counter's fields after the items `es`. */
  ghost predicate Counts(t: Tally, es: seq<Item>)
  {
    Valid(t.customers) &&
    t.heading == Uniq(CountedColumns(es)) &&
    t.customers.keys == Uniq(CountedKeys(es)) &&
    (forall k :: k in t.customers.values <==> k in CountedKeys(es)) &&
    Tallies(t, es)
  }

  /** Each count is the number of occurrences of the value on the key's
      counted lines. */
  ghost predicate Tallies(t: Tally, es: seq<Item>)
  {
    forall k, col :: k in t.customers.values ==> Tallied(t.customers.values[k], col) == Count(ColumnsOfKey(es, k), col)
  }

  /** `heading` lists each counted value once, in order of first sight;
      the customers are the distinct keys of the counted lines in order of
      first appearance; each count is the number of occurrences of that
      value on that key's counted lines. */
  lemma {:induction false} CountedMeans(es: seq<Item>)
    ensures Counts(Counted(es), es)
  {
    if |es| > 0 {
      var init := es[..|es| - 1];
      var e := es[|es| - 1];
      CountedMeans(init);
      if e.counted {
        CountedStep(init, e);
        assert init + [e] == es;
      } else {
        assert CountedColumns(es) == CountedColumns(init);
        assert CountedKeys(es) == CountedKeys(init);
        forall k ensures ColumnsOfKey(es, k) == ColumnsOfKey(init, k) {
        }
      }
    }
  }

  /** Enrolling a key: it joins the customers when new, with no counts. */
  lemma EnrolMeans(t: Tally, es: seq<Item>, key: Option<string>)
    requires Counts(t, es)
    ensures var t1 := Enrol(t, key);
      Valid(t1.customers) && t1.heading == Uniq(CountedColumns(es)) &&
      t1.customers.keys == Uniq(CountedKeys(es) + [key]) &&
      (forall k :: k in t1.customers.values <==> k in CountedKeys(es) + [key]) &&
      Tallies(t1, es)
  {
    var ks := CountedKeys(es);
    PutKeys(t.customers, ks, key, map[]);
    if key in t.customers.values {
      UniqRepeat(ks, key);
    } else {
      EnrolNew(t, es, key);
    }
  }

  lemma EnrolNew(t: Tally, es: seq<Item>, key: Option<string>)
    requires Counts(t, es) && key !in t.customers.values
    ensures Valid(Enrol(t, key).customers) && Tallies(Enrol(t, key), es)
  {
    var t1 := Enrol(t, key);
    ColumnsOfAbsentKey(es, key);
    PutValid(t.customers, key, map[]);
    forall k, col | k in t1.customers.values ensures Tallied(t1.customers.values[k], col) == Count(ColumnsOfKey(es, k), col) {
      if k != key {
        assert t1.customers.values[k] == t.customers.values[k];
      }
    }
  }

  lemma CountedStep(es: seq<Item>, e: Item)
    requires Counts(Counted(es), es) && e.counted
    ensures Counts(Counted(es + [e]), es + [e])
  {
    var es' := es + [e];
    assert es'[..|es|] == es;
    var t1 := Enrol(Counted(es), e.key);
    EnrolMeans(Counted(es), es, e.key);
    CountAllHeading(t1, e.key, e.columns, CountedColumns(es));
    CountAllMeans(t1, e.key, e.columns);
    var r := Counted(es');
    assert r == CountAll(t1, e.key, e.columns);
    assert CountedKeys(es') == CountedKeys(es) + [e.key];
    assert CountedColumns(es') == CountedColumns(es) + e.columns;
    TalliesStep(es, e, t1);
  }

  /** The counts after one more counted item. */
  lemma TalliesStep(es: seq<Item>, e: Item, t1: Tally)
    requires e.counted && e.key in t1.customers.values && Tallies(t1, es)
    ensures Tallies(CountAll(t1, e.key, e.columns), es + [e])
  {
    var es' := es + [e];
    assert es'[..|es|] == es;
    CountAllMeans(t1, e.key, e.columns);
    var r := CountAll(t1, e.key, e.columns);
    forall k, col | k in r.customers.values ensures Tallied(r.customers.values[k], col) == Count(ColumnsOfKey(es', k), col) {
      if k == e.key {
        assert ColumnsOfKey(es', k) == ColumnsOfKey(es, k) + e.columns;
        CountAppend(ColumnsOfKey(es, k), e.columns, col);
      } else {
        assert ColumnsOfKey(es', k) == ColumnsOfKey(es, k);
      }
    }
  }

  /** `heading` never holds a value twice. */
  lemma HeadingDistinct(c: Config, env: Env, lines: seq<string>)
    ensures NoDuplicates(Counted(Items(c, env, lines)).heading)
  {
    var es := Items(c, env, lines);
    CountedMeans(es);
    UniqNoDuplicates(CountedColumns(es));
  }

  /** The output table: a header of "customer" and the distinct counted
      values, sorted; then one line per distinct key of the counted lines
      in order of first appearance, giving for each header value the
      number of its occurrences on that key's lines (0 when none). */
  lemma OutputTable(c: Config, env: Env, lines: seq<string>)
    ensures var es := Items(c, env, lines);
      var hs := SortBy(Uniq(CountedColumns(es)), StrLe);
      var ks := Uniq(CountedKeys(es));
      var out := Output(c, env, lines);
      |out| == |ks| + 1 && out[0] == Join(["customer"] + hs, Sep) &&
      forall j :: 0 <= j < |ks| ==>
        out[j + 1] == Join([OrEmpty(ks[j])] + seq(|hs|, m requires 0 <= m < |hs| => NatToString(Count(ColumnsOfKey(es, ks[j]), hs[m]))), Sep)
  {
    var es := Items(c, env, lines);
    CountedMeans(es);
    ReportMeans(Counted(es), es);
  }

  /** The report of a tally that counts the items `es`. */
  lemma ReportMeans(t: Tally, es: seq<Item>)
    requires Valid(t.customers) && Tallies(t, es)
    ensures var hs := SortBy(t.heading, StrLe);
      var ks := t.customers.keys;
      var out := Report(t);
      |out| == |ks| + 1 && out[0] == Join(["customer"] + hs, Sep) &&
      forall j :: 0 <= j < |ks| ==>
        out[j + 1] == Join([OrEmpty(ks[j])] + seq(|hs|, m requires 0 <= m < |hs| => NatToString(Count(ColumnsOfKey(es, ks[j]), hs[m]))), Sep)
  {
    var hs := SortBy(t.heading, StrLe);
    var ks := t.customers.keys;
    forall j | 0 <= j < |ks|
      ensures Report(t)[j + 1] == Join([OrEmpty(ks[j])] + seq(|hs|, m requires 0 <= m < |hs| => NatToString(Count(ColumnsOfKey(es, ks[j]), hs[m]))), Sep)
    {
      assert ks[j] in t.customers.values;
      CustomerCounts(t, es, ks[j], hs);
    }
  }

  /** A customer's line gives the count of each heading value on its lines. */
  lemma CustomerCounts(t: Tally, es: seq<Item>, k: Option<string>, hs: seq<string>)
    requires k in t.customers.values && forall col :: Tallied(t.customers.values[k], col) == Count(ColumnsOfKey(es, k), col)
    ensures CustomerLine(k, t.customers.values[k], hs) ==
      Join([OrEmpty(k)] + seq(|hs|, m requires 0 <= m < |hs| => NatToString(Count(ColumnsOfKey(es, k), hs[m]))), Sep)
  {
    assert seq(|hs|, m requires 0 <= m < |hs| => NatToString(Tallied(t.customers.values[k], hs[m]))) ==
      seq(|hs|, m requires 0 <= m < |hs| => NatToString(Count(ColumnsOfKey(es, k), hs[m])));
  }

  /** The header values are the distinct counted values, sorted. */
  lemma HeaderSorted(c: Config, env: Env, lines: seq<string>)
    ensures var hs := SortBy(Uniq(CountedColumns(Items(c, env, lines))), StrLe);
      SortedBy(hs, StrLe) && NoDuplicates(hs) &&
      forall x :: x in hs <==> x in CountedColumns(Items(c, env, lines))
  {
    SortedDistinctStrings(CountedColumns(Items(c, env, lines)));
  }

  /** A line whose projection is nil or empty is not counted. */
  lemma EmptyProjectionNotCounted(c: Config, env: Env, lines: seq<string>, i: nat)
    requires i < |lines|
    requires var line := Chomp(lines[i]);
      var result := ColumnFilter.Projection(c.cols, env, if RowFilter.Keeps(c.rows, env, line, i) then Some(line) else None);
      result.None? || result == Some("")
    ensures Counted(Items(c, env, lines)[..i + 1]) == Counted(Items(c, env, lines)[..i])
  {
    var es := Items(c, env, lines);
    assert es[..i + 1][..i] == es[..i];
  }

  /** The key option "0:customer" selects column 0. */
  lemma LabelledKeyColumn(rows: Selector, cols: Selector)
    ensures KeyColumn(Config(rows, cols, Some("0:customer"))) == 0
  {
    assert StripLeft("0:customer") == "0:customer";
    assert LeadingDigits("0:customer") == "0";
  }
}
