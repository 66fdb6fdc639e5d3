/** lib/sycsvpro/collector.rb: gathers the distinct values of the kept rows
    into named categories, each with its own column selection, and writes
    every category followed by its values in string order. */
module Collector {
  import opened Wrappers
  import opened Text
  import opened Externals
  import opened Dicts
  import opened Sorting
  import RowFilter
  import ColumnFilter

  /** The options of a Collector: the row selector and the `cols` text,
      "name:columns+name:columns...". `compile(s)` stands for the compiled
      fields of `ColumnFilter.new(s)`, whose clause compiler is not part of
      this model. */
  datatype Config = Config(rows: Selector, cols: string, compile: Option<string> -> Selector)

  /** One entry of `collection`: the category, its column selector and the
      values gathered so far. */
  datatype Category = Category(name: Option<string>, filter: Selector, entries: seq<string>)

  // ---------------------------------------------------------------------------
  // init_collection

  /** The name and the column text of one '+'-separated declaration. */
  function NameOf(part: string): Option<string>
  {
    At(Split(part, ':'), 0)
  }

  function FilterOf(part: string): Option<string>
  {
    At(Split(part, ':'), 1)
  }

  /** The categories after the declarations `parts`: a repeated name keeps
      its place and takes the later selector. */
  function Declared(compile: Option<string> -> Selector, parts: seq<string>): Dict<Option<string>, Selector>
  {
    if |parts| == 0 then Empty()
    else
      var last := parts[|parts| - 1];
      Put(Declared(compile, parts[..|parts| - 1]), NameOf(last), compile(FilterOf(last)))
  }

  /** The names of the declarations, in declared order. */
  function Names(parts: seq<string>): (r: seq<Option<string>>)
    ensures |r| == |parts| && forall i :: 0 <= i < |parts| ==> r[i] == NameOf(parts[i])
  {
    seq(|parts|, i requires 0 <= i < |parts| => NameOf(parts[i]))
  }

  /** `collection` as `init_collection` leaves it: every category with no
      entries, in the order of the hash. */
  function Initial(d: Dict<Option<string>, Selector>): (r: seq<Category>)
    requires Valid(d)
    ensures |r| == |d.keys|
    ensures forall i :: 0 <= i < |r| ==> r[i] == Category(d.keys[i], d.values[d.keys[i]], [])
  {
    seq(|d.keys|, i requires 0 <= i < |d.keys| => Category(d.keys[i], d.values[d.keys[i]], []))
  }

  lemma {:induction false} DeclaredValid(compile: Option<string> -> Selector, parts: seq<string>)
    ensures Valid(Declared(compile, parts))
  {
    if |parts| > 0 {
      DeclaredValid(compile, parts[..|parts| - 1]);
    }
  }

  /** `init_collection`. */
  method InitCollection(compile: Option<string> -> Selector, cols: string) returns (d: Dict<Option<string>, Selector>)
    ensures d == Declared(compile, Split(cols, '+'))
  {
    var parts := Split(cols, '+');
    d := Empty();
    var i := 0;
    while i < |parts|
      invariant 0 <= i <= |parts|
      invariant d == Declared(compile, parts[..i])
    {
      assert parts[..i + 1][..i] == parts[..i];
      var fields := Split(parts[i], ':');
      d := Put(d, At(fields, 0), compile(At(fields, 1)));
      i := i + 1;
    }
    assert parts[..i] == parts;
  }

  // ---------------------------------------------------------------------------
  // execute

  /** Line `i` is kept by the row filter and is not blank. */
  predicate Gathers(c: Config, env: Env, line: string, i: nat)
  {
    RowFilter.Keeps(c.rows, env, line, i) && Chomp(line) != ""
  }

  /** The kept rows among the first `n` lines. */
  function KeptRows(c: Config, env: Env, lines: seq<string>, n: nat): seq<string>
    requires n <= |lines|
  {
    if n == 0 then []
    else KeptRows(c, env, lines, n - 1) + (if Gathers(c, env, lines[n - 1], n - 1) then [lines[n - 1]] else [])
  }

  /** `value.chomp` of every field. */
  function Chomps(fs: seq<string>): (r: seq<string>)
    ensures |r| == |fs| && forall i :: 0 <= i < |fs| ==> r[i] == Chomp(fs[i])
  {
    seq(|fs|, i requires 0 <= i < |fs| => Chomp(fs[i]))
  }

  /** The values a category's selector yields for one row. */
  function ValuesOf(sel: Selector, env: Env, row: string): seq<string>
  {
    var values := ColumnFilter.Projection(sel, env, Some(row));
    if values.Some? then Chomps(Split(Chomp(values.value), Sep)) else []
  }

  /** The values a category's selector yields for the rows `rows`, in order. */
  function AllValues(sel: Selector, env: Env, rows: seq<string>): seq<string>
  {
    if |rows| == 0 then [] else AllValues(sel, env, rows[..|rows| - 1]) + ValuesOf(sel, env, rows[|rows| - 1])
  }

  /** What the categories hold after the rows `rows`: every distinct value
      of its selector, in order of first appearance. */
  ghost predicate Gathered(cs: seq<Category>, init: seq<Category>, env: Env, rows: seq<string>)
  {
    |cs| == |init| &&
    forall i :: 0 <= i < |cs| ==>
      cs[i] == Category(init[i].name, init[i].filter, Uniq(AllValues(init[i].filter, env, rows)))
  }

  /** Appending the values one by one when not yet present. */
  method AddValues(entries: seq<string>, ghost seen: seq<string>, values: seq<string>) returns (r: seq<string>)
    requires entries == Uniq(seen)
    ensures r == Uniq(seen + values)
  {
    r := entries;
    var j := 0;
    assert seen + values[..0] == seen;
    while j < |values|
      invariant 0 <= j <= |values|
      invariant r == Uniq(seen + values[..j])
    {
      var value := values[j];
      ghost var before := seen + values[..j];
      assert seen + values[..j + 1] == before + [value];
      assert (before + [value])[..|before|] == before;
      UniqMembers(before);
      if IndexOf(r, value).None? {
        r := r + [value];
      }
      j := j + 1;
    }
    assert values[..j] == values;
  }

  /** The inner loops of `execute` for one kept row. */
  method CollectRow(env: Env, cs0: seq<Category>, ghost init: seq<Category>, ghost rows: seq<string>, row: string) returns (cs: seq<Category>)
    requires Gathered(cs0, init, env, rows)
    ensures Gathered(cs, init, env, rows + [row])
  {
    cs := cs0;
    var k := 0;
    while k < |cs|
      invariant 0 <= k <= |cs| && |cs| == |init|
      invariant forall i :: 0 <= i < k ==>
        cs[i] == Category(init[i].name, init[i].filter, Uniq(AllValues(init[i].filter, env, rows + [row])))
      invariant forall i :: k <= i < |cs| ==>
        cs[i] == Category(init[i].name, init[i].filter, Uniq(AllValues(init[i].filter, env, rows)))
    {
      var filter := cs[k].filter;
      var values := ColumnFilter.Process(filter, env, Some(row));
      var fields := if values.Some? then Chomps(Split(Chomp(values.value), Sep)) else [];
      assert (rows + [row])[..|rows|] == rows;
      var entries := AddValues(cs[k].entries, AllValues(filter, env, rows), fields);
      cs := cs[k := cs[k].(entries := entries)];
      k := k + 1;
    }
  }

  /** One turn of the loop over the input lines of `execute`. */
  method CollectLine(c: Config, env: Env, lines: seq<string>, index: nat, cs0: seq<Category>, ghost init: seq<Category>) returns (cs: seq<Category>)
    requires index < |lines| && Gathered(cs0, init, env, KeptRows(c, env, lines, index))
    ensures Gathered(cs, init, env, KeptRows(c, env, lines, index + 1))
  {
    ghost var rows := KeptRows(c, env, lines, index);
    cs := cs0;
    var row := RowFilter.Process(c.rows, env, lines[index], index);
    if row.Some? && Chomp(row.value) != "" {
      assert KeptRows(c, env, lines, index + 1) == rows + [lines[index]];
      cs := CollectRow(env, cs, init, rows, row.value);
    } else {
      assert KeptRows(c, env, lines, index + 1) == rows;
    }
  }

  /** The loop over the input lines of `execute`. */
  method Collect(c: Config, env: Env, lines: seq<string>, init: seq<Category>) returns (cs: seq<Category>)
    requires forall i :: 0 <= i < |init| ==> init[i].entries == []
    ensures Gathered(cs, init, env, KeptRows(c, env, lines, |lines|))
  {
    cs := init;
    var index := 0;
    GatheredNothing(c, env, lines, init);
    while index < |lines|
      invariant 0 <= index <= |lines|
      invariant Gathered(cs, init, env, KeptRows(c, env, lines, index))
    {
      cs := CollectLine(c, env, lines, index, cs, init);
      index := index + 1;
    }
  }

  /** Before the first line the categories hold nothing. */
  lemma GatheredNothing(c: Config, env: Env, lines: seq<string>, init: seq<Category>)
    requires forall i :: 0 <= i < |init| ==> init[i].entries == []
    ensures Gathered(init, init, env, KeptRows(c, env, lines, 0))
  {
    assert KeptRows(c, env, lines, 0) == [];
  }

  /** The lines written for one category. */
  function Section(cat: Category): seq<string>
  {
    ["[" + OrEmpty(cat.name) + "]"] + SortBy(cat.entries, StrLe)
  }

  /** The lines written for the categories `cs`, in order. */
  function Sections(cs: seq<Category>): seq<string>
  {
    if |cs| == 0 then [] else Sections(cs[..|cs| - 1]) + Section(cs[|cs| - 1])
  }

  /** The categories after every line of the input. */
  function Final(c: Config, env: Env, lines: seq<string>): (r: seq<Category>)
    ensures var d := Declared(c.compile, Split(c.cols, '+'));
      |r| == |d.keys| &&
      forall i :: 0 <= i < |r| ==>
        r[i].name == d.keys[i] && d.keys[i] in d.values && r[i].filter == d.values[d.keys[i]] &&
        r[i].entries == Uniq(AllValues(r[i].filter, env, KeptRows(c, env, lines, |lines|)))
  {
    var d := Declared(c.compile, Split(c.cols, '+'));
    DeclaredValid(c.compile, Split(c.cols, '+'));
    var rows := KeptRows(c, env, lines, |lines|);
    seq(|d.keys|, i requires 0 <= i < |d.keys| => Category(d.keys[i], d.values[d.keys[i]], Uniq(AllValues(d.values[d.keys[i]], env, rows))))
  }

  /** The output of `Collector#execute`. */
  function Output(c: Config, env: Env, lines: seq<string>): seq<string>
  {
    Sections(Final(c, env, lines))
  }

  /** The writing loop of `execute`. */
  method WriteSections(cs: seq<Category>) returns (out: seq<string>)
    ensures out == Sections(cs)
  {
    out := [];
    var k := 0;
    while k < |cs|
      invariant 0 <= k <= |cs|
      invariant out == Sections(cs[..k])
    {
      assert cs[..k + 1][..k] == cs[..k];
      var head := "[" + OrEmpty(cs[k].name) + "]";
      var sorted := SortBy(cs[k].entries, StrLe);
      ghost var before := out;
      out := out + [head];
      var j := 0;
      while j < |sorted|
        invariant 0 <= j <= |sorted|
        invariant out == before + [head] + sorted[..j]
      {
        TakeStep(sorted, j);
        out := out + [sorted[j]];
        j := j + 1;
      }
      assert sorted[..j] == sorted;
      k := k + 1;
    }
    assert cs[..k] == cs;
  }

  /** `Collector#execute`. */
  method Execute(c: Config, env: Env, lines: seq<string>) returns (out: seq<string>)
    ensures out == Output(c, env, lines)
  {
    var d := InitCollection(c.compile, c.cols);
    DeclaredValid(c.compile, Split(c.cols, '+'));
    var init := Initial(d);
    var cs := Collect(c, env, lines, init);
    assert cs == Final(c, env, lines);
    out := WriteSections(cs);
  }

  // ---------------------------------------------------------------------------
  // Properties

  /** The categories are the declared names, each once, in order of first
      declaration. */
  lemma {:induction false} DeclaredNames(compile: Option<string> -> Selector, parts: seq<string>)
    ensures Declared(compile, parts).keys == Uniq(Names(parts))
    ensures forall k :: k in Declared(compile, parts).values <==> k in Names(parts)
  {
    if |parts| > 0 {
      var init := parts[..|parts| - 1];
      DeclaredNames(compile, init);
      assert Names(parts) == Names(init) + [NameOf(parts[|parts| - 1])];
      PutKeys(Declared(compile, init), Names(init), NameOf(parts[|parts| - 1]), compile(FilterOf(parts[|parts| - 1])));
    }
  }

  /** A category takes the selector of its last declaration. */
  lemma {:induction false} LastDeclarationWins(compile: Option<string> -> Selector, parts: seq<string>, i: nat)
    requires i < |parts|
    requires forall j :: i < j < |parts| ==> NameOf(parts[j]) != NameOf(parts[i])
    ensures NameOf(parts[i]) in Declared(compile, parts).values
    ensures Declared(compile, parts).values[NameOf(parts[i])] == compile(FilterOf(parts[i]))
  {
    if i < |parts| - 1 {
      LastDeclarationWins(compile, parts[..|parts| - 1], i);
    }
  }

  /** The entries of a category hold no duplicates and are exactly the
      values its selector yields for the kept rows. */
  lemma EntriesAreTheValues(c: Config, env: Env, lines: seq<string>, i: nat)
    requires i < |Final(c, env, lines)|
    ensures var cat := Final(c, env, lines)[i];
      NoDuplicates(cat.entries) &&
      forall x :: x in cat.entries <==> x in AllValues(cat.filter, env, KeptRows(c, env, lines, |lines|))
  {
    var cat := Final(c, env, lines)[i];
    var all := AllValues(cat.filter, env, KeptRows(c, env, lines, |lines|));
    UniqNoDuplicates(all);
    UniqMembers(all);
  }

  /** The kept rows are exactly the lines the row filter keeps that are not
      blank, in input order. */
  lemma {:induction false} KeptRowsAre(c: Config, env: Env, lines: seq<string>, n: nat)
    requires n <= |lines|
    ensures forall r :: r in KeptRows(c, env, lines, n) <==> exists i :: 0 <= i < n && lines[i] == r && Gathers(c, env, r, i)
  {
    if n > 0 {
      KeptRowsAre(c, env, lines, n - 1);
    }
  }

  lemma AllValuesAppend(sel: Selector, env: Env, rows: seq<string>, row: string)
    ensures AllValues(sel, env, rows + [row]) == AllValues(sel, env, rows) + ValuesOf(sel, env, row)
  {
    assert (rows + [row])[..|rows|] == rows;
  }

  lemma {:induction false} ValueListed(sel: Selector, env: Env, rows: seq<string>, j: nat, x: string)
    requires j < |rows| && x in ValuesOf(sel, env, rows[j])
    ensures x in AllValues(sel, env, rows)
  {
    var init := rows[..|rows| - 1];
    var last := rows[|rows| - 1];
    assert rows == init + [last];
    AllValuesAppend(sel, env, init, last);
    if j < |init| {
      assert rows[j] == init[j];
      ValueListed(sel, env, init, j, x);
    } else {
      assert rows[j] == last;
    }
  }

  /** Every value of every kept row is listed in its category. */
  lemma RowValuesListed(c: Config, env: Env, lines: seq<string>, i: nat, sel: Selector, x: string)
    requires i < |lines| && Gathers(c, env, lines[i], i) && x in ValuesOf(sel, env, lines[i])
    ensures x in AllValues(sel, env, KeptRows(c, env, lines, |lines|))
  {
    var rows := KeptRows(c, env, lines, |lines|);
    KeptRowsAre(c, env, lines, |lines|);
    assert lines[i] in rows;
    var j :| 0 <= j < |rows| && rows[j] == lines[i];
    ValueListed(sel, env, rows, j, x);
  }

  /** The section of a category is its bracketed name followed by its
      entries, sorted and each once. */
  lemma SectionLayout(cat: Category)
    requires NoDuplicates(cat.entries)
    ensures Section(cat)[0] == "[" + OrEmpty(cat.name) + "]"
    ensures SortedBy(Section(cat)[1..], StrLe) && NoDuplicates(Section(cat)[1..])
    ensures forall x :: x in Section(cat)[1..] <==> x in cat.entries
  {
    var sorted := SortBy(cat.entries, StrLe);
    SortStrings(cat.entries);
    PermutationNoDuplicates(cat.entries, sorted);
    assert Section(cat)[1..] == sorted;
    assert forall x :: x in sorted <==> x in multiset(cat.entries);
  }
}
