/** lib/sycsvpro/allocator.rb: the column values of the kept lines, grouped
    by the key of each line; one output line per key, in order of first
    appearance, listing the distinct values in string order. */
module Allocator {
  import opened Wrappers
  import opened Text
  import opened Externals
  import opened Dicts
  import opened Sorting
  import RowFilter
  import ColumnFilter

  /** The selectors of an Allocator: rows, the allocated columns and the key. */
  datatype Config = Config(rows: Selector, cols: Selector, key: Selector)

  /** What the loop learns from one line: whether the row filter keeps it,
      its key and its allocated columns (None for nil). */
  datatype Item = Item(kept: bool, key: Option<string>, columns: Option<string>)

  /** `allocation`: for each key, the split column values of its lines. */
  type Allocation = Dict<Option<string>, seq<seq<string>>>

  /** The error raised when the column filter returns nil. */
  const NilSplit := "undefined method 'split' for nil"

  /** The filters applied to `line`, the line with index `i`. */
  function ItemOf(c: Config, env: Env, line: string, i: nat): Item
  {
    Item(RowFilter.Keeps(c.rows, env, line, i),
         ColumnFilter.Projection(c.key, env, Some(line)),
         ColumnFilter.Projection(c.cols, env, Some(line)))
  }

  function ItemAt(c: Config, env: Env, lines: seq<string>, i: nat): Item
    requires i < |lines|
  {
    ItemOf(c, env, lines[i], i)
  }

  /** Allocator's view of every input line at once. */
  function Items(c: Config, env: Env, lines: seq<string>): seq<Item>
  {
    MapWithIndex(lines, (line, i) => ItemOf(c, env, line, i))
  }

  /** `allocation` after the items `es`, or the error that stopped the loop. */
  function Grouped(es: seq<Item>): (r: Result<Allocation>)
    ensures r.Ok? ==> Valid(r.value)
  {
    if |es| == 0 then Ok(Empty())
    else
      var prev := Grouped(es[..|es| - 1]);
      var e := es[|es| - 1];
      if prev.Err? || !e.kept then prev
      else if e.columns.None? then Err(NilSplit)
      else
        var d := prev.value;
        Ok(Put(d, e.key, Get(d, e.key, []) + [Split(e.columns.value, Sep)]))
  }

  /** The distinct values of a key, in string order: `values.flatten.uniq.sort`. */
  function Listed(fields: seq<string>): seq<string>
  {
    SortBy(Uniq(fields), StrLe)
  }

  /** The output line of one key; a nil key prints as nothing. */
  function Line(key: Option<string>, values: seq<seq<string>>): string
  {
    OrEmpty(key) + ";" + Join(Listed(Flatten(values)), Sep)
  }

  /** The output lines, one per key in key order. */
  function Written(d: Allocation): (r: seq<string>)
    requires Valid(d)
    ensures |r| == |d.keys| && forall j :: 0 <= j < |r| ==> r[j] == Line(d.keys[j], d.values[d.keys[j]])
  {
    seq(|d.keys|, j requires 0 <= j < |d.keys| => Line(d.keys[j], d.values[d.keys[j]]))
  }

  /** The outcome of `Allocator#execute`: the output lines, or the error. */
  function Output(c: Config, env: Env, lines: seq<string>): Result<seq<string>>
  {
    match Grouped(Items(c, env, lines))
    case Err(m) => Err(m)
    case Ok(d) => Ok(Written(d))
  }

  /** Once the loop has failed, later lines do not matter. */
  lemma {:induction false} ErrSticks(es: seq<Item>, n: nat)
    requires n <= |es| && Grouped(es[..n]).Err?
    ensures Grouped(es) == Grouped(es[..n])
  {
    if n < |es| {
      assert es[..|es| - 1][..n] == es[..n];
      ErrSticks(es[..|es| - 1], n);
    } else {
      assert es[..n] == es;
    }
  }

  /** The reading loop of `Allocator#execute`. */
  method Collect(c: Config, env: Env, lines: seq<string>) returns (r: Result<Allocation>)
    ensures r == Grouped(Items(c, env, lines))
  {
    ghost var es := Items(c, env, lines);
    var allocation: Allocation := Empty();
    var index := 0;
    while index < |lines|
      invariant 0 <= index <= |lines|
      invariant Grouped(es[..index]) == Ok(allocation)
    {
      assert es[..index + 1][..index] == es[..index];
      var row := RowFilter.Process(c.rows, env, lines[index], index);
      if row.Some? {
        var key := ColumnFilter.Process(c.key, env, row);
        var values := ColumnFilter.Process(c.cols, env, row);
        if values.None? {
          ErrSticks(es, index + 1);
          assert es == es[..|lines|];
          return Err(NilSplit);
        }
        allocation := Put(allocation, key, Get(allocation, key, []) + [Split(values.value, Sep)]);
      }
      index := index + 1;
    }
    assert es[..index] == es;
    return Ok(allocation);
  }

  /** `Allocator#execute` over the lines of the input file. */
  method Execute(c: Config, env: Env, lines: seq<string>) returns (r: Result<seq<string>>)
    ensures r == Output(c, env, lines)
  {
    var grouped := Collect(c, env, lines);
    if grouped.Err? {
      return Err(grouped.msg);
    }
    var allocation := grouped.value;
    ghost var written := Written(allocation);
    var out := [];
    var j := 0;
    while j < |allocation.keys|
      invariant 0 <= j <= |allocation.keys|
      invariant out == written[..j]
    {
      assert written[..j + 1] == written[..j] + [written[j]];
      var key := allocation.keys[j];
      out := out + [Line(key, allocation.values[key])];
      j := j + 1;
    }
    assert written[..j] == written;
    return Ok(out);
  }

  // ---------------------------------------------------------------------------
  // Properties

  /** The keys of the kept items, in input order. */
  function KeptKeys(es: seq<Item>): seq<Option<string>>
  {
    if |es| == 0 then []
    else
      var e := es[|es| - 1];
      KeptKeys(es[..|es| - 1]) + (if e.kept then [e.key] else [])
  }

  /** The column values of the kept items whose key is `k`, in input order. */
  function FieldsOf(es: seq<Item>, k: Option<string>): seq<string>
  {
    if |es| == 0 then []
    else
      var e := es[|es| - 1];
      FieldsOf(es[..|es| - 1], k) + (if e.kept && e.key == k && e.columns.Some? then Split(e.columns.value, Sep) else [])
  }

  /** A kept item whose columns are nil. */
  predicate Fails(e: Item)
  {
    e.kept && e.columns.None?
  }

  /** A key no kept item has has no values. */
  lemma {:induction false} FieldsOfAbsent(es: seq<Item>, k: Option<string>)
    requires k !in KeptKeys(es)
    ensures FieldsOf(es, k) == []
  {
    if |es| > 0 {
      FieldsOfAbsent(es[..|es| - 1], k);
    }
  }

  lemma FlattenAppend(ss: seq<seq<string>>, s: seq<string>)
    ensures Flatten(ss + [s]) == Flatten(ss) + s
  {
    assert (ss + [s])[..|ss|] == ss;
  }

  /** The loop fails exactly when a kept item has nil columns. */
  lemma {:induction false} GroupedFails(es: seq<Item>)
    ensures Grouped(es).Err? <==> exists i :: 0 <= i < |es| && Fails(es[i])
  {
    if |es| > 0 {
      var init := es[..|es| - 1];
      GroupedFails(init);
      if exists i :: 0 <= i < |init| && Fails(init[i]) {
        var i :| 0 <= i < |init| && Fails(init[i]);
        assert es[i] == init[i];
      }
      if exists i :: 0 <= i < |es| && Fails(es[i]) {
        var i :| 0 <= i < |es| && Fails(es[i]);
        if i < |init| {
          assert init[i] == es[i];
        }
      }
    }
  }

  /** The meaning of `allocation` after the items `es`. */
  ghost predicate Allocates(d: Allocation, es: seq<Item>)
  {
    d.keys == Uniq(KeptKeys(es)) &&
    (forall k :: k in d.values <==> k in KeptKeys(es)) &&
    forall k :: k in d.values ==> Flatten(d.values[k]) == FieldsOf(es, k)
  }

  /** When the loop does not fail, `allocation` enumerates the distinct keys
      of the kept lines in order of first appearance, and the values of
      each key are the column values of its lines. */
  lemma {:induction false} GroupedMeans(es: seq<Item>)
    requires Grouped(es).Ok?
    ensures Allocates(Grouped(es).value, es)
  {
    if |es| > 0 {
      var init := es[..|es| - 1];
      var e := es[|es| - 1];
      GroupedMeans(init);
      if e.kept {
        GroupedStep(init, e);
        assert init + [e] == es;
      } else {
        assert KeptKeys(es) == KeptKeys(init);
        forall k ensures FieldsOf(es, k) == FieldsOf(init, k) {
        }
      }
    }
  }

  /** A kept item with columns adds its values under its key. */
  lemma GroupedStep(es: seq<Item>, e: Item)
    requires Grouped(es).Ok? && Allocates(Grouped(es).value, es) && e.kept && e.columns.Some?
    ensures Grouped(es + [e]).Ok? && Allocates(Grouped(es + [e]).value, es + [e])
  {
    var es' := es + [e];
    assert es'[..|es|] == es;
    var d := Grouped(es).value;
    var ks := KeptKeys(es);
    var fs := Split(e.columns.value, Sep);
    var d' := Put(d, e.key, Get(d, e.key, []) + [fs]);
    assert Grouped(es') == Ok(d');
    assert KeptKeys(es') == ks + [e.key];
    PutKeys(d, ks, e.key, Get(d, e.key, []) + [fs]);
    FieldsStep(d, es, e);
  }

  /** The values under each key after one more kept item. */
  lemma FieldsStep(d: Allocation, es: seq<Item>, e: Item)
    requires e.kept && e.columns.Some?
    requires forall k :: k in d.values <==> k in KeptKeys(es)
    requires forall k :: k in d.values ==> Flatten(d.values[k]) == FieldsOf(es, k)
    ensures var d' := Put(d, e.key, Get(d, e.key, []) + [Split(e.columns.value, Sep)]);
      forall k :: k in d'.values ==> Flatten(d'.values[k]) == FieldsOf(es + [e], k)
  {
    var es' := es + [e];
    assert es'[..|es|] == es;
    var fs := Split(e.columns.value, Sep);
    var d' := Put(d, e.key, Get(d, e.key, []) + [fs]);
    forall k | k in d'.values ensures Flatten(d'.values[k]) == FieldsOf(es', k) {
      if k == e.key {
        FlattenAppend(Get(d, e.key, []), fs);
        if e.key !in d.values {
          FieldsOfAbsent(es, e.key);
        }
        assert FieldsOf(es', k) == FieldsOf(es, k) + fs;
      } else {
        assert FieldsOf(es', k) == FieldsOf(es, k);
      }
    }
  }

  /** The only error the loop raises is the nil split. */
  lemma {:induction false} NilSplitOnly(es: seq<Item>)
    ensures Grouped(es).Err? ==> Grouped(es).msg == NilSplit
  {
    if |es| > 0 {
      NilSplitOnly(es[..|es| - 1]);
    }
  }

  /** The listed values of a key are sorted, each once, and exactly its values. */
  lemma ListedIsSortedSet(fields: seq<string>)
    ensures SortedBy(Listed(fields), StrLe) && NoDuplicates(Listed(fields))
    ensures forall x :: x in Listed(fields) <==> x in fields
  {
    SortedDistinctStrings(fields);
  }

  /** A line read from a file holds at least its line break, so a kept
      line is never empty; then output line `j` is the `j`-th distinct key
      of the kept lines followed by the distinct values of that key's
      lines, sorted. */
  lemma OutputLines(c: Config, env: Env, lines: seq<string>)
    requires forall i :: 0 <= i < |lines| && RowFilter.Keeps(c.rows, env, lines[i], i) ==> lines[i] != ""
    ensures var es := Items(c, env, lines);
      var keys := Uniq(KeptKeys(es));
      Output(c, env, lines).Ok? &&
      |Output(c, env, lines).value| == |keys| &&
      forall j :: 0 <= j < |keys| ==>
        Output(c, env, lines).value[j] == OrEmpty(keys[j]) + ";" + Join(Listed(FieldsOf(es, keys[j])), Sep)
  {
    var es := Items(c, env, lines);
    GroupedFails(es);
    GroupedMeans(es);
    var ks := KeptKeys(es);
    UniqMembers(ks);
    var d := Grouped(es).value;
    forall j | 0 <= j < |d.keys| ensures d.keys[j] in d.values {
      assert d.keys[j] in Uniq(ks);
    }
  }
}
