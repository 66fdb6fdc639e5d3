/** lib/sycsvpro/sorter.rb: the lines that pass the row filter and have a
    typed projection, sorted by that projection with the line index as the
    last key element, written as the original lines. */
module Sorter {
  import opened Wrappers
  import opened Text
  import opened Externals
  import opened Sorting
  import opened ColumnTypeFilter
  import RowFilter

  // ---------------------------------------------------------------------------
  // Key order

  /** The kind of a coerced value; values of different kinds are ordered
      by kind. */
  function Rank(t: Typed): nat
  {
    match t
    case TNil => 0
    case TInt(_) => 1
    case TFloat(_) => 1
    case TStr(_) => 2
    case TDate(_) => 3
  }

  function NumValue(t: Typed): real
    requires t.TInt? || t.TFloat?
  {
    if t.TInt? then t.i as real else t.x
  }

  /** `<=>` on two coerced values as a `<=` test: numbers by value, strings
      by `String#<=>`, dates chronologically, nil equal to nil. */
  function TypedLe(a: Typed, b: Typed): bool
  {
    if Rank(a) != Rank(b) then Rank(a) < Rank(b)
    else if a.TStr? then StrLe(a.s, b.s)
    else if a.TDate? then DateLe(a.d, b.d)
    else if a.TNil? then true
    else NumValue(a) <= NumValue(b)
  }

  lemma TypedLeIsTotalPreorder()
    ensures TotalPreorder(TypedLe)
  {
    StrLeIsTotalOrder();
    forall a, b ensures TypedLe(a, b) || TypedLe(b, a) {
    }
    forall a, b, c | TypedLe(a, b) && TypedLe(b, c) ensures TypedLe(a, c) {
    }
  }

  /** `Array#<=>` on two sort keys as a `<=` test. */
  function KeyLe(a: seq<Typed>, b: seq<Typed>): bool
  {
    LexLe(a, b, TypedLe)
  }

  lemma KeyLeIsTotalPreorder()
    ensures TotalPreorder(KeyLe)
  {
    TypedLeIsTotalPreorder();
    forall a, b ensures KeyLe(a, b) || KeyLe(b, a) {
      LexTotalAt(a, b, TypedLe);
    }
    forall a, b, c | KeyLe(a, b) && KeyLe(b, c) ensures KeyLe(a, c) {
      LexTransitiveAt(a, b, c, TypedLe);
    }
  }

  // ---------------------------------------------------------------------------
  // Keys

  /** What the column type filter makes of line `i` after the row filter,
      with the physical line number as the row index. */
  function Projected(rows: Selector, cols: Selector, env: Env, lines: seq<string>, i: nat): Option<seq<Typed>>
    requires i < |lines|
  {
    TypedProjection(cols, env, if RowFilter.Keeps(rows, env, lines[i], i) then Some(lines[i]) else None)
  }

  /** Whether each line has a typed projection. */
  function Projects(rows: Selector, cols: Selector, env: Env, lines: seq<string>): (r: seq<bool>)
    ensures |r| == |lines| && forall i :: 0 <= i < |lines| ==> r[i] == Projected(rows, cols, env, lines, i).Some?
  {
    seq(|lines|, i requires 0 <= i < |lines| => Projected(rows, cols, env, lines, i).Some?)
  }

  /** The indices below `n` of the lines that are sorted, in input order:
      exactly the lines with a typed projection. */
  function Kept(rows: Selector, cols: Selector, env: Env, lines: seq<string>, n: nat): (r: seq<nat>)
    requires n <= |lines|
    ensures forall j :: 0 <= j < |r| ==> r[j] < n && Projected(rows, cols, env, lines, r[j]).Some?
    ensures forall j, k :: 0 <= j < k < |r| ==> r[j] < r[k]
    ensures forall i :: 0 <= i < n && Projected(rows, cols, env, lines, i).Some? ==> i in r
  {
    Selected(Projects(rows, cols, env, lines), n)
  }

  /** The sort key of a kept line: its typed projection and its index. */
  function KeyOf(rows: Selector, cols: Selector, env: Env, lines: seq<string>, i: nat): seq<Typed>
    requires i < |lines| && Projected(rows, cols, env, lines, i).Some?
  {
    Projected(rows, cols, env, lines, i).value + [TInt(i)]
  }

  /** `sorted_rows` after the first `n` lines. */
  function Keys(rows: Selector, cols: Selector, env: Env, lines: seq<string>, n: nat): (r: seq<seq<Typed>>)
    requires n <= |lines|
    ensures var kept := Kept(rows, cols, env, lines, n);
      |r| == |kept| && forall j :: 0 <= j < |kept| ==> r[j] == KeyOf(rows, cols, env, lines, kept[j])
  {
    var kept := Kept(rows, cols, env, lines, n);
    seq(|kept|, j requires 0 <= j < |kept| => KeyOf(rows, cols, env, lines, kept[j]))
  }

  /** The index a key carries as its last element. */
  function LineOf(key: seq<Typed>): int
  {
    if |key| > 0 && key[|key| - 1].TInt? then key[|key| - 1].i else -1
  }

  /** Every key carries the index of a line. */
  predicate Indexed(keys: seq<seq<Typed>>, n: nat)
  {
    forall j :: 0 <= j < |keys| ==> 0 <= LineOf(keys[j]) < n
  }

  /** The sorted keys, as `sorted_rows.compact.sort`. */
  function SortedKeys(rows: Selector, cols: Selector, env: Env, lines: seq<string>): seq<seq<Typed>>
  {
    SortBy(Keys(rows, cols, env, lines, |lines|), KeyLe)
  }

  /** What is written for the sorted keys: the unstrung line each key
      points back to. */
  function Written(env: Env, lines: seq<string>, sorted: seq<seq<Typed>>): (r: seq<string>)
    requires Indexed(sorted, |lines|)
    ensures |r| == |sorted|
    ensures forall j :: 0 <= j < |sorted| ==> r[j] == env.unstring(lines[LineOf(sorted[j])])
  {
    seq(|sorted|, j requires 0 <= j < |sorted| => env.unstring(lines[LineOf(sorted[j])]))
  }

  /** The output of `Sorter#execute`. */
  function Output(rows: Selector, cols: Selector, env: Env, lines: seq<string>): seq<string>
  {
    SortedKeysIndexed(rows, cols, env, lines);
    Written(env, lines, SortedKeys(rows, cols, env, lines))
  }

  lemma KeysIndexed(rows: Selector, cols: Selector, env: Env, lines: seq<string>, n: nat)
    requires n <= |lines|
    ensures var keys := Keys(rows, cols, env, lines, n);
      forall j :: 0 <= j < |keys| ==> LineOf(keys[j]) == Kept(rows, cols, env, lines, n)[j]
  {
    var keys := Keys(rows, cols, env, lines, n);
    var kept := Kept(rows, cols, env, lines, n);
    forall j | 0 <= j < |keys| ensures LineOf(keys[j]) == kept[j] {
      var k := keys[j];
      assert k == Projected(rows, cols, env, lines, kept[j]).value + [TInt(kept[j])];
      assert k[|k| - 1] == TInt(kept[j]);
    }
  }

  lemma SortedKeysIndexed(rows: Selector, cols: Selector, env: Env, lines: seq<string>)
    ensures Indexed(SortedKeys(rows, cols, env, lines), |lines|)
  {
    var keys := Keys(rows, cols, env, lines, |lines|);
    var sorted := SortedKeys(rows, cols, env, lines);
    KeysIndexed(rows, cols, env, lines, |lines|);
    SortPermutes(keys, KeyLe);
    forall j | 0 <= j < |sorted| ensures 0 <= LineOf(sorted[j]) < |lines| {
      assert sorted[j] in multiset(keys);
      var m :| 0 <= m < |keys| && keys[m] == sorted[j];
    }
  }

  lemma KeysStep(rows: Selector, cols: Selector, env: Env, lines: seq<string>, n: nat)
    requires n < |lines|
    ensures Keys(rows, cols, env, lines, n + 1) ==
      Keys(rows, cols, env, lines, n) +
      (if Projected(rows, cols, env, lines, n).Some? then [KeyOf(rows, cols, env, lines, n)] else [])
  {
  }

  // ---------------------------------------------------------------------------
  // The tool

  /** The reading loop of `Sorter#execute`: `sorted_rows` after every line. */
  method CollectKeys(rows: Selector, cols: Selector, env: Env, lines: seq<string>) returns (sortedRows: seq<seq<Typed>>)
    ensures sortedRows == Keys(rows, cols, env, lines, |lines|)
  {
    sortedRows := [];
    var index := 0;
    while index < |lines|
      invariant 0 <= index <= |lines|
      invariant sortedRows == Keys(rows, cols, env, lines, index)
    {
      var kept := RowFilter.Process(rows, env, lines[index], index);
      var filtered := ColumnTypeFilter.Process(cols, env, kept);
      assert filtered == Projected(rows, cols, env, lines, index);
      KeysStep(rows, cols, env, lines, index);
      if filtered.Some? {
        assert filtered.value + [TInt(index)] == KeyOf(rows, cols, env, lines, index);
        sortedRows := sortedRows + [filtered.value + [TInt(index)]];
      }
      index := index + 1;
    }
  }

  /** The writing loop of `Sorter#execute`: the unstrung line of each key. */
  method WriteLines(env: Env, lines: seq<string>, sorted: seq<seq<Typed>>) returns (out: seq<string>)
    requires Indexed(sorted, |lines|)
    ensures out == Written(env, lines, sorted)
  {
    out := [];
    var j := 0;
    while j < |sorted|
      invariant 0 <= j <= |sorted|
      invariant |out| == j
      invariant forall m :: 0 <= m < j ==> out[m] == env.unstring(lines[LineOf(sorted[m])])
    {
      out := out + [env.unstring(lines[LineOf(sorted[j])])];
      j := j + 1;
    }
  }

  /** `Sorter#execute` over the lines of the input file. */
  method Execute(rows: Selector, cols: Selector, env: Env, lines: seq<string>) returns (out: seq<string>)
    ensures out == Output(rows, cols, env, lines)
  {
    var sortedRows := CollectKeys(rows, cols, env, lines);
    var sorted := SortBy(sortedRows, KeyLe);
    SortedKeysIndexed(rows, cols, env, lines);
    out := WriteLines(env, lines, sorted);
  }

  // ---------------------------------------------------------------------------
  // Properties

  /** The line indices in output order. */
  function Order(rows: Selector, cols: Selector, env: Env, lines: seq<string>): (r: seq<int>)
    ensures |r| == |SortedKeys(rows, cols, env, lines)|
  {
    Map(LineOf, SortedKeys(rows, cols, env, lines))
  }

  /** The output order is a rearrangement of the kept indices, so no line is
      written twice. */
  lemma OrderPermutesKept(rows: Selector, cols: Selector, env: Env, lines: seq<string>)
    ensures var order := Order(rows, cols, env, lines);
      multiset(order) == multiset(Kept(rows, cols, env, lines, |lines|)) && NoDuplicates(order)
  {
    var keys := Keys(rows, cols, env, lines, |lines|);
    var kept := Kept(rows, cols, env, lines, |lines|);
    KeysIndexed(rows, cols, env, lines, |lines|);
    SortPermutes(keys, KeyLe);
    MapPermutes(LineOf, keys, SortedKeys(rows, cols, env, lines));
    assert Map(LineOf, keys) == kept;
    assert Map(LineOf, SortedKeys(rows, cols, env, lines)) == Order(rows, cols, env, lines);
    PermutationNoDuplicates(kept, Order(rows, cols, env, lines));
  }

  /** The output is exactly the kept lines, each once: output line j is the
      unstrung input line `Order[j]`, and the order rearranges the kept
      indices. */
  lemma OutputIsKeptLines(rows: Selector, cols: Selector, env: Env, lines: seq<string>)
    ensures var order := Order(rows, cols, env, lines);
      multiset(order) == multiset(Kept(rows, cols, env, lines, |lines|)) && NoDuplicates(order) &&
      |Output(rows, cols, env, lines)| == |order| &&
      forall j :: 0 <= j < |order| ==>
        0 <= order[j] < |lines| && Output(rows, cols, env, lines)[j] == env.unstring(lines[order[j]])
  {
    SortedKeysIndexed(rows, cols, env, lines);
    OrderPermutesKept(rows, cols, env, lines);
  }

  /** The output follows the order of the typed keys. */
  lemma OutputIsSorted(rows: Selector, cols: Selector, env: Env, lines: seq<string>)
    ensures SortedBy(SortedKeys(rows, cols, env, lines), KeyLe)
  {
    KeyLeIsTotalPreorder();
    SortSorted(Keys(rows, cols, env, lines, |lines|), KeyLe);
  }

  /** Keys that agree up to their indices are ordered by index. */
  lemma IndexDecides(p: seq<Typed>, x: int, y: int)
    requires KeyLe(p + [TInt(x)], p + [TInt(y)])
    ensures x <= y
  {
    TypedLeIsTotalPreorder();
    LexCommonPrefix(p, [TInt(x)], [TInt(y)], TypedLe);
  }

  /** A key that carries an index ends with it. */
  lemma IndexedKeySplits(key: seq<Typed>)
    requires LineOf(key) >= 0
    ensures key == key[..|key| - 1] + [TInt(LineOf(key))]
  {
  }

  /** Two kept lines with the same typed projection come out in input
      order: the sort is stable. */
  lemma EqualKeysKeepInputOrder(rows: Selector, cols: Selector, env: Env, lines: seq<string>, j: nat, k: nat)
    requires j < k < |SortedKeys(rows, cols, env, lines)|
    requires var sorted := SortedKeys(rows, cols, env, lines);
      |sorted[j]| == |sorted[k]| > 0 && sorted[j][..|sorted[j]| - 1] == sorted[k][..|sorted[k]| - 1]
    ensures Order(rows, cols, env, lines)[j] < Order(rows, cols, env, lines)[k]
  {
    var sorted := SortedKeys(rows, cols, env, lines);
    var order := Order(rows, cols, env, lines);
    OutputIsSorted(rows, cols, env, lines);
    OrderPermutesKept(rows, cols, env, lines);
    SortedKeysIndexed(rows, cols, env, lines);
    var a := sorted[j];
    var b := sorted[k];
    assert KeyLe(a, b);
    assert LineOf(a) == order[j] && LineOf(b) == order[k];
    IndexedKeySplits(a);
    IndexedKeySplits(b);
    IndexDecides(a[..|a| - 1], order[j], order[k]);
    assert order[j] != order[k];
  }

  /** Distinct kept lines have keys that do not compare equal. */
  lemma KeysAntisymmetric(rows: Selector, cols: Selector, env: Env, lines: seq<string>)
    ensures AntisymmetricOn(Keys(rows, cols, env, lines, |lines|), KeyLe)
  {
    var keys := Keys(rows, cols, env, lines, |lines|);
    var kept := Kept(rows, cols, env, lines, |lines|);
    KeysIndexed(rows, cols, env, lines, |lines|);
    TypedLeIsTotalPreorder();
    forall m, n | 0 <= m < |keys| && 0 <= n < |keys| && KeyLe(keys[m], keys[n]) && KeyLe(keys[n], keys[m])
      ensures keys[m] == keys[n]
    {
      var x := keys[m];
      var y := keys[n];
      LexEquivalent(x, y, TypedLe);
      IndexedKeySplits(x);
      IndexedKeySplits(y);
      var last := |x| - 1;
      assert TypedLe(x[last], y[last]) && TypedLe(y[last], x[last]);
      assert kept[m] == kept[n];
      assert m == n;
    }
  }

  lemma {:induction false} AntisymmetricPermutes<T>(t: seq<T>, u: seq<T>, le: (T, T) -> bool)
    requires multiset(t) == multiset(u) && AntisymmetricOn(t, le)
    ensures AntisymmetricOn(u, le)
  {
    forall a, b | 0 <= a < |u| && 0 <= b < |u| && le(u[a], u[b]) && le(u[b], u[a]) ensures u[a] == u[b] {
      assert u[a] in multiset(t) && u[b] in multiset(t);
      var m :| 0 <= m < |t| && t[m] == u[a];
      var n :| 0 <= n < |t| && t[n] == u[b];
    }
  }

  /** Distinct sort keys never compare equal, so every sorted arrangement of
      the keys is the one computed here, whatever algorithm sorts them. */
  lemma SortIsDetermined(rows: Selector, cols: Selector, env: Env, lines: seq<string>, u: seq<seq<Typed>>)
    requires multiset(u) == multiset(Keys(rows, cols, env, lines, |lines|))
    requires SortedBy(u, KeyLe)
    ensures u == SortedKeys(rows, cols, env, lines)
  {
    var keys := Keys(rows, cols, env, lines, |lines|);
    var sorted := SortedKeys(rows, cols, env, lines);
    OutputIsSorted(rows, cols, env, lines);
    SortPermutes(keys, KeyLe);
    KeysAntisymmetric(rows, cols, env, lines);
    AntisymmetricPermutes(keys, sorted, KeyLe);
    SortedPermutationIsUnique(sorted, u, KeyLe);
  }
}
