/** lib/sycsvpro/unique.rb: the column projection of every line whose key
    has not been seen on an earlier written line. */
module Unique {
  import opened Wrappers
  import opened Text
  import opened Externals
  import RowFilter
  import ColumnFilter

  /** The selectors of a Unique: rows, the written columns and the key. */
  datatype Config = Config(rows: Selector, cols: Selector, key: Selector)

  /** Line `i` as the loop sees it: `unstring(line.chomp).chomp`. */
  function Unstrung(env: Env, lines: seq<string>, i: nat): string
    requires i < |lines|
  {
    Chomp(env.unstring(Chomp(lines[i])))
  }

  /** The text written for line `i`, or None when the line is blank or one
      of the filters rejects it. */
  function Extraction(c: Config, env: Env, lines: seq<string>, i: nat): Option<string>
    requires i < |lines|
  {
    if Chomp(lines[i]) == "" then None
    else
      var line := Unstrung(env, lines, i);
      ColumnFilter.Projection(c.cols, env, if RowFilter.Keeps(c.rows, env, line, i) then Some(line) else None)
  }

  /** The key of line `i`: the key columns of the whole unstrung line. */
  function KeyAt(c: Config, env: Env, lines: seq<string>, i: nat): Option<string>
    requires i < |lines|
  {
    ColumnFilter.Projection(c.key, env, Some(Unstrung(env, lines, i)))
  }

  /** The keys of the extracted lines below `n`: `@keys` after `n` lines. */
  function Seen(c: Config, env: Env, lines: seq<string>, n: nat): set<Option<string>>
    requires n <= |lines|
  {
    set i | 0 <= i < n && Extraction(c, env, lines, i).Some? :: KeyAt(c, env, lines, i)
  }

  /** Line `i` is extracted and no earlier extracted line has its key. */
  predicate FirstWithKey(c: Config, env: Env, lines: seq<string>, i: nat)
    requires i < |lines|
  {
    Extraction(c, env, lines, i).Some? &&
    forall j :: 0 <= j < i && Extraction(c, env, lines, j).Some? ==> KeyAt(c, env, lines, j) != KeyAt(c, env, lines, i)
  }

  /** Whether each line is the first extracted line with its key. */
  function Firsts(c: Config, env: Env, lines: seq<string>): (r: seq<bool>)
    ensures |r| == |lines| && forall i :: 0 <= i < |lines| ==> r[i] == FirstWithKey(c, env, lines, i)
  {
    seq(|lines|, i requires 0 <= i < |lines| => FirstWithKey(c, env, lines, i))
  }

  /** The indices of the written lines below `n`, in input order. */
  function Emitted(c: Config, env: Env, lines: seq<string>, n: nat): (r: seq<nat>)
    requires n <= |lines|
    ensures forall j :: 0 <= j < |r| ==> r[j] < n && FirstWithKey(c, env, lines, r[j])
    ensures forall j, k :: 0 <= j < k < |r| ==> r[j] < r[k]
    ensures forall i :: 0 <= i < n && FirstWithKey(c, env, lines, i) ==> i in r
  {
    Selected(Firsts(c, env, lines), n)
  }

  /** The written text of the emitted lines. */
  function Written(c: Config, env: Env, lines: seq<string>, n: nat): (r: seq<string>)
    requires n <= |lines|
    ensures var e := Emitted(c, env, lines, n);
      |r| == |e| && forall j :: 0 <= j < |e| ==> Extraction(c, env, lines, e[j]) == Some(r[j])
  {
    var e := Emitted(c, env, lines, n);
    seq(|e|, j requires 0 <= j < |e| => Extraction(c, env, lines, e[j]).value)
  }

  lemma SeenStep(c: Config, env: Env, lines: seq<string>, n: nat)
    requires n < |lines|
    ensures Seen(c, env, lines, n + 1) ==
      Seen(c, env, lines, n) + (if Extraction(c, env, lines, n).Some? then {KeyAt(c, env, lines, n)} else {})
    ensures FirstWithKey(c, env, lines, n) <==>
      Extraction(c, env, lines, n).Some? && KeyAt(c, env, lines, n) !in Seen(c, env, lines, n)
  {
    if Extraction(c, env, lines, n).Some? && KeyAt(c, env, lines, n) in Seen(c, env, lines, n) {
      var j :| 0 <= j < n && Extraction(c, env, lines, j).Some? && KeyAt(c, env, lines, j) == KeyAt(c, env, lines, n);
    }
  }

  lemma WrittenStep(c: Config, env: Env, lines: seq<string>, n: nat)
    requires n < |lines|
    ensures Written(c, env, lines, n + 1) ==
      Written(c, env, lines, n) + (if FirstWithKey(c, env, lines, n) then [Extraction(c, env, lines, n).value] else [])
  {
  }

  /** `Unique#execute` over the lines of the input file. */
  method Execute(c: Config, env: Env, lines: seq<string>) returns (out: seq<string>)
    ensures out == Written(c, env, lines, |lines|)
  {
    var keys: set<Option<string>> := {};
    out := [];
    var index := 0;
    while index < |lines|
      invariant 0 <= index <= |lines|
      invariant keys == Seen(c, env, lines, index)
      invariant out == Written(c, env, lines, index)
    {
      SeenStep(c, env, lines, index);
      WrittenStep(c, env, lines, index);
      var line := Chomp(lines[index]);
      if line != "" {
        line := Chomp(env.unstring(line));
        var row := RowFilter.Process(c.rows, env, line, index);
        var extraction := ColumnFilter.Process(c.cols, env, row);
        if extraction.Some? {
          var key := ColumnFilter.Process(c.key, env, Some(line));
          if key !in keys {
            out := out + [extraction.value];
            keys := keys + {key};
          }
        }
      }
      index := index + 1;
    }
  }

  /** Each key is written at most once. */
  lemma EachKeyOnce(c: Config, env: Env, lines: seq<string>)
    ensures var e := Emitted(c, env, lines, |lines|);
      forall j, k :: 0 <= j < k < |e| ==> KeyAt(c, env, lines, e[j]) != KeyAt(c, env, lines, e[k])
  {
  }

  /** The first extracted line with a key is the one written for it: any
      extracted line is written, or an earlier written line has its key. */
  lemma FirstLineWins(c: Config, env: Env, lines: seq<string>, i: nat)
    requires i < |lines| && Extraction(c, env, lines, i).Some?
    ensures var e := Emitted(c, env, lines, |lines|);
      i in e || exists j :: 0 <= j < |e| && e[j] < i && KeyAt(c, env, lines, e[j]) == KeyAt(c, env, lines, i)
  {
    var e := Emitted(c, env, lines, |lines|);
    if i !in e {
      var j := FirstEarlierLineIsEmitted(c, env, lines, i);
      assert e[j] != i;
    }
  }

  /** The earliest extracted line with the key of an extracted line `i` is
      written: `e[j]`. */
  lemma {:induction false} FirstEarlierLineIsEmitted(c: Config, env: Env, lines: seq<string>, i: nat) returns (j: nat)
    requires i < |lines| && Extraction(c, env, lines, i).Some?
    ensures var e := Emitted(c, env, lines, |lines|);
      j < |e| && e[j] <= i && KeyAt(c, env, lines, e[j]) == KeyAt(c, env, lines, i)
    decreases i
  {
    var e := Emitted(c, env, lines, |lines|);
    if FirstWithKey(c, env, lines, i) {
      assert i in e;
      j :| 0 <= j < |e| && e[j] == i;
    } else {
      var k :| 0 <= k < i && Extraction(c, env, lines, k).Some? && KeyAt(c, env, lines, k) == KeyAt(c, env, lines, i);
      j := FirstEarlierLineIsEmitted(c, env, lines, k);
    }
  }

  /** A line a filter rejects records no key: a later extracted line with
      the same key is still written when no extracted line before it has
      that key. */
  lemma RejectedLineDoesNotBlock(c: Config, env: Env, lines: seq<string>, j: nat, i: nat)
    requires j < i < |lines|
    requires Extraction(c, env, lines, j).None? && KeyAt(c, env, lines, j) == KeyAt(c, env, lines, i)
    requires Extraction(c, env, lines, i).Some?
    requires forall k :: 0 <= k < i && Extraction(c, env, lines, k).Some? ==> KeyAt(c, env, lines, k) != KeyAt(c, env, lines, i)
    ensures i in Emitted(c, env, lines, |lines|)
    ensures KeyAt(c, env, lines, i) !in Seen(c, env, lines, i)
  {
  }

  /** A line that is empty after `chomp` is never written. */
  lemma BlankLinesSkipped(c: Config, env: Env, lines: seq<string>, i: nat)
    requires i < |lines| && Chomp(lines[i]) == ""
    ensures i !in Emitted(c, env, lines, |lines|)
  {
  }
}
