/** lib/sycsvpro/mapper.rb: replaces the values of selected columns by the
    values a mapping file assigns to them. */
module Mapper {
  import opened Wrappers
  import opened Text
  import opened Externals
  import RowFilter
  import ColumnFilter

  /** The options of a Mapper: the row selector and the `cols` option.
      `compile(s)` stands for the compiled fields of `ColumnFilter.new(s)`,
      whose clause compiler is not part of this model. */
  datatype Config = Config(rows: Selector, cols: Option<string>, compile: Option<string> -> Selector)

  /** `mapper`: source value to mapped value; nil keys and values come from
      mapping lines without a ':'. */
  type Mapping = map<Option<string>, Option<string>>

  /** The error raised by `nil.chomp` when the row filter rejects a line. */
  const NilChomp := "undefined method 'chomp' for nil"

  // ---------------------------------------------------------------------------
  // init_mapper

  /** `from, to = unstring(line).split(':')`. */
  function From(env: Env, line: string): Option<string>
  {
    At(Split(env.unstring(line), ':'), 0)
  }

  function To(env: Env, line: string): Option<string>
  {
    At(Split(env.unstring(line), ':'), 1)
  }

  /** The mapping after the mapping lines `ms`. */
  function Mappings(env: Env, ms: seq<string>): Mapping
  {
    if |ms| == 0 then map[]
    else
      var line := ms[|ms| - 1];
      Mappings(env, ms[..|ms| - 1])[From(env, line) := To(env, line)]
  }

  /** `init_mapper`. */
  method InitMapper(env: Env, ms: seq<string>) returns (mapper: Mapping)
    ensures mapper == Mappings(env, ms)
  {
    mapper := map[];
    var i := 0;
    while i < |ms|
      invariant 0 <= i <= |ms|
      invariant mapper == Mappings(env, ms[..i])
    {
      assert ms[..i + 1][..i] == ms[..i];
      var fields := Split(env.unstring(ms[i]), ':');
      mapper := mapper[At(fields, 0) := At(fields, 1)];
      i := i + 1;
    }
    assert ms[..i] == ms;
  }

  // ---------------------------------------------------------------------------
  // init_col_filter

  /** The index of the first line that is not empty after `unstring`. */
  function FirstNonEmpty(env: Env, lines: seq<string>): (r: Option<nat>)
    ensures r.Some? ==> r.value < |lines| && env.unstring(lines[r.value]) != ""
    ensures r.Some? ==> forall i :: 0 <= i < r.value ==> env.unstring(lines[i]) == ""
    ensures r.None? ==> forall i :: 0 <= i < |lines| ==> env.unstring(lines[i]) == ""
  {
    if |lines| == 0 then None
    else if env.unstring(lines[0]) != "" then Some(0)
    else
      var r := FirstNonEmpty(env, lines[1..]);
      if r.Some? then Some(r.value + 1) else None
  }

  /** The positions to map: those of `cols`; without it, "0-(size-1)" for
      the field count `size` of the first non-empty line, which selects
      every one of its columns. */
  function ColumnsOf(c: Config, env: Env, lines: seq<string>): seq<nat>
  {
    if c.cols.Some? then c.compile(c.cols).filter
    else
      var first := FirstNonEmpty(env, lines);
      if first.Some? then Span(|Split(ColumnFilter.Padded(env.unstring(lines[first.value])), Sep)|)
      else c.compile(None).filter
  }

  /** `init_col_filter`. */
  method InitColFilter(c: Config, env: Env, lines: seq<string>) returns (positions: seq<nat>)
    ensures positions == ColumnsOf(c, env, lines)
  {
    if c.cols.Some? {
      return c.compile(c.cols).filter;
    }
    var i := 0;
    while i < |lines|
      invariant 0 <= i <= |lines|
      invariant forall j :: 0 <= j < i ==> env.unstring(lines[j]) == ""
    {
      var line := env.unstring(lines[i]);
      if line != "" {
        if SepAtLineEnd(line) {
          line := line + " ";
        }
        var size := |Split(line, Sep)|;
        FirstNonEmptyAt(env, lines, i);
        return Span(size);
      }
      i := i + 1;
    }
    FirstNonEmptyNone(env, lines);
    return c.compile(None).filter;
  }

  lemma {:induction false} FirstNonEmptyAt(env: Env, lines: seq<string>, i: nat)
    requires i < |lines| && env.unstring(lines[i]) != ""
    requires forall j :: 0 <= j < i ==> env.unstring(lines[j]) == ""
    ensures FirstNonEmpty(env, lines) == Some(i)
  {
    if i > 0 {
      FirstNonEmptyAt(env, lines[1..], i - 1);
    }
  }

  lemma {:induction false} FirstNonEmptyNone(env: Env, lines: seq<string>)
    requires forall j :: 0 <= j < |lines| ==> env.unstring(lines[j]) == ""
    ensures FirstNonEmpty(env, lines) == None
  {
    if |lines| > 0 {
      FirstNonEmptyNone(env, lines[1..]);
    }
  }

  // ---------------------------------------------------------------------------
  // execute

  /** `mapper[k]`: nil for a value without a mapping. */
  function Lookup(m: Mapping, k: Option<string>): Option<string>
  {
    if k in m then m[k] else None
  }

  /** `substitute = mapper[cols[key]]; cols[key] = substitute if substitute`. */
  function Substitute(m: Mapping, cols: seq<string>, key: nat): seq<string>
  {
    var substitute := Lookup(m, At(cols, key));
    if substitute.Some? then SetAt(cols, key, substitute.value, "") else cols
  }

  /** The fields after substituting at the positions `ps`, in order. */
  function Substituted(m: Mapping, cols: seq<string>, ps: seq<nat>): seq<string>
  {
    if |ps| == 0 then cols else Substitute(m, Substituted(m, cols, ps[..|ps| - 1]), ps[|ps| - 1])
  }

  /** The written line for a kept, non-blank line. */
  function MapLine(m: Mapping, ps: seq<nat>, line: string): string
  {
    Strip(Join(Substituted(m, Split(ColumnFilter.Padded(line), Sep), ps), Sep))
  }

  /** One turn of the loop of `execute` on line `index`. */
  function Step(c: Config, env: Env, m: Mapping, ps: seq<nat>, prev: Result<seq<string>>, line: string, index: nat): Result<seq<string>>
  {
    if prev.Err? then prev
    else if !RowFilter.Keeps(c.rows, env, line, index) then Err(NilChomp)
    else if Chomp(line) == "" then prev
    else Ok(prev.value + [MapLine(m, ps, line)])
  }

  /** The output after the first `n` lines, or the error that stopped it. */
  function Mapped(c: Config, env: Env, m: Mapping, ps: seq<nat>, lines: seq<string>, n: nat): Result<seq<string>>
    requires n <= |lines|
  {
    if n == 0 then Ok([]) else Step(c, env, m, ps, Mapped(c, env, m, ps, lines, n - 1), lines[n - 1], n - 1)
  }

  /** The outcome of `Mapper#execute` with the mapping lines `ms`. */
  function Output(c: Config, env: Env, ms: seq<string>, lines: seq<string>): Result<seq<string>>
  {
    Mapped(c, env, Mappings(env, ms), ColumnsOf(c, env, lines), lines, |lines|)
  }

  /** Once a line has failed, later lines do not matter. */
  lemma {:induction false} ErrSticks(c: Config, env: Env, m: Mapping, ps: seq<nat>, lines: seq<string>, k: nat, n: nat)
    requires k <= n <= |lines| && Mapped(c, env, m, ps, lines, k).Err?
    ensures Mapped(c, env, m, ps, lines, n) == Mapped(c, env, m, ps, lines, k)
  {
    if n > k {
      ErrSticks(c, env, m, ps, lines, k, n - 1);
    }
  }

  /** The substitution loop over the positions for one line. */
  method MapFields(m: Mapping, ps: seq<nat>, fields: seq<string>) returns (cols: seq<string>)
    ensures cols == Substituted(m, fields, ps)
  {
    cols := fields;
    var j := 0;
    while j < |ps|
      invariant 0 <= j <= |ps|
      invariant cols == Substituted(m, fields, ps[..j])
    {
      assert ps[..j + 1][..j] == ps[..j];
      var key := ps[j];
      var substitute := Lookup(m, At(cols, key));
      if substitute.Some? {
        cols := SetAt(cols, key, substitute.value, "");
      }
      j := j + 1;
    }
    assert ps[..j] == ps;
  }

  /** The body of the loop of `execute` for line `index`. */
  method MapRow(c: Config, env: Env, m: Mapping, ps: seq<nat>, line: string, index: nat, out: seq<string>) returns (r: Result<seq<string>>)
    ensures r == Step(c, env, m, ps, Ok(out), line, index)
  {
    var result := RowFilter.Process(c.rows, env, line, index);
    if result.None? {
      return Err(NilChomp);
    }
    if Chomp(result.value) == "" {
      return Ok(out);
    }
    var text := result.value;
    if SepAtLineEnd(text) {
      text := text + " ";
    }
    var cols := MapFields(m, ps, Split(text, Sep));
    return Ok(out + [Strip(Join(cols, Sep))]);
  }

  lemma MappedNext(c: Config, env: Env, m: Mapping, ps: seq<nat>, lines: seq<string>, n: nat)
    requires n < |lines|
    ensures Mapped(c, env, m, ps, lines, n + 1) == Step(c, env, m, ps, Mapped(c, env, m, ps, lines, n), lines[n], n)
  {
  }

  /** One turn of the loop of `execute`: the outcome after line `index`;
      a failure stays. */
  method MapNext(c: Config, env: Env, m: Mapping, ps: seq<nat>, lines: seq<string>, index: nat, prev: Result<seq<string>>) returns (r: Result<seq<string>>)
    requires index < |lines| && Mapped(c, env, m, ps, lines, index) == prev
    ensures r == Mapped(c, env, m, ps, lines, index + 1)
  {
    MappedNext(c, env, m, ps, lines, index);
    if prev.Err? {
      return prev;
    }
    r := MapRow(c, env, m, ps, lines[index], index, prev.value);
  }

  /** The loop of `execute` over the input lines. */
  method MapLines(c: Config, env: Env, m: Mapping, ps: seq<nat>, lines: seq<string>) returns (r: Result<seq<string>>)
    ensures r == Mapped(c, env, m, ps, lines, |lines|)
  {
    r := Ok([]);
    var index := 0;
    while index < |lines|
      invariant 0 <= index <= |lines|
      invariant Mapped(c, env, m, ps, lines, index) == r
    {
      r := MapNext(c, env, m, ps, lines, index, r);
      index := index + 1;
    }
  }

  /** `Mapper#execute` with the mapping lines `ms`. */
  method Execute(c: Config, env: Env, ms: seq<string>, lines: seq<string>) returns (r: Result<seq<string>>)
    ensures r == Output(c, env, ms, lines)
  {
    var positions := InitColFilter(c, env, lines);
    var mapper := InitMapper(env, ms);
    r := MapLines(c, env, mapper, positions, lines);
  }

  // ---------------------------------------------------------------------------
  // Properties

  /** The mapped value of a field: its mapping, or the field itself. */
  function Mapped1(m: Mapping, v: string): string
  {
    var s := Lookup(m, Some(v));
    if s.Some? then s.value else v
  }

  /** A mapping line with no source value has no target either, so nil
      never maps to a value. */
  lemma {:induction false} NilUnmapped(env: Env, ms: seq<string>)
    ensures Lookup(Mappings(env, ms), None) == None
  {
    if |ms| > 0 {
      NilUnmapped(env, ms[..|ms| - 1]);
    }
  }

  /** With distinct positions, a selected field takes its mapped value and
      every other field is untouched; nothing is added or removed. */
  lemma {:induction false} OnlySelectedFieldsChange(m: Mapping, cols: seq<string>, ps: seq<nat>)
    requires Lookup(m, None) == None && NoDuplicates(ps)
    ensures var r := Substituted(m, cols, ps);
      |r| == |cols| && forall k :: 0 <= k < |cols| ==> r[k] == if k in ps then Mapped1(m, cols[k]) else cols[k]
  {
    if |ps| > 0 {
      var init := ps[..|ps| - 1];
      var key := ps[|ps| - 1];
      assert NoDuplicates(init);
      OnlySelectedFieldsChange(m, cols, init);
      assert key !in init;
      var prev := Substituted(m, cols, init);
      forall k | 0 <= k < |cols|
        ensures Substituted(m, cols, ps)[k] == if k in ps then Mapped1(m, cols[k]) else cols[k]
      {
        assert k in ps <==> k in init || k == key;
      }
    }
  }

  /** A later mapping line for the same source value overrides earlier ones. */
  lemma {:induction false} LastMappingWins(env: Env, ms: seq<string>, i: nat)
    requires i < |ms|
    requires forall j :: i < j < |ms| ==> From(env, ms[j]) != From(env, ms[i])
    ensures Lookup(Mappings(env, ms), From(env, ms[i])) == To(env, ms[i])
  {
    if i < |ms| - 1 {
      LastMappingWins(env, ms[..|ms| - 1], i);
    }
  }

  /** Without `cols`, every column of the first non-empty line is mapped. */
  lemma EveryColumnByDefault(c: Config, env: Env, lines: seq<string>, i: nat)
    requires c.cols.None? && i < |lines| && env.unstring(lines[i]) != ""
    requires forall j :: 0 <= j < i ==> env.unstring(lines[j]) == ""
    ensures var fields := Split(ColumnFilter.Padded(env.unstring(lines[i])), Sep);
      forall k: nat :: k in ColumnsOf(c, env, lines) <==> k < |fields|
  {
    FirstNonEmptyAt(env, lines, i);
    var n := |Split(ColumnFilter.Padded(env.unstring(lines[i])), Sep)|;
    forall k: nat | k < n ensures k in Span(n) {
      assert Span(n)[k] == k;
    }
  }

  lemma {:induction false} StripLeftSpace(s: string)
    ensures StripLeft(s + " ") == if IsBlank(s) then "" else StripLeft(s) + " "
  {
    if |s| > 0 {
      assert (s + " ")[1..] == s[1..] + " ";
      StripLeftSpace(s[1..]);
    } else {
      assert StripLeft(" ") == StripLeft("");
    }
  }

  lemma StripRightSpace(s: string)
    ensures StripRight(s + " ") == StripRight(s)
  {
    assert (s + " ")[..|s|] == s;
  }

  /** The space added to a line ending in ';' is removed again by `strip`. */
  lemma StripRemovesPad(s: string)
    ensures Strip(s + " ") == Strip(s)
  {
    StripLeftSpace(s);
    if IsBlank(s) {
      StripLeftBlank(s);
    } else {
      StripRightSpace(StripLeft(s));
    }
  }

  lemma {:induction false} StripLeftBlank(s: string)
    requires IsBlank(s)
    ensures StripLeft(s) == ""
  {
    if |s| > 0 {
      StripLeftBlank(s[1..]);
    }
  }

  /** Fields without a mapping are left alone. */
  lemma {:induction false} UnmappedUnchanged(m: Mapping, cols: seq<string>, ps: seq<nat>)
    requires Lookup(m, None) == None && forall x :: x in cols ==> Lookup(m, Some(x)) == None
    ensures Substituted(m, cols, ps) == cols
  {
    if |ps| > 0 {
      UnmappedUnchanged(m, cols, ps[..|ps| - 1]);
      var key := ps[|ps| - 1];
      if key < |cols| {
        assert cols[key] in cols;
      }
    }
  }

  /** A line none of whose values has a mapping is written back with only
      its surrounding whitespace removed: the split keeps the empty last
      field of a line ending in ';', and the space added for it is
      stripped again. */
  lemma UnmappedLineKept(env: Env, ms: seq<string>, ps: seq<nat>, line: string)
    requires line != ""
    requires forall x :: x in Split(ColumnFilter.Padded(line), Sep) ==> Lookup(Mappings(env, ms), Some(x)) == None
    ensures MapLine(Mappings(env, ms), ps, line) == Strip(line)
  {
    var padded := ColumnFilter.Padded(line);
    NilUnmapped(env, ms);
    UnmappedUnchanged(Mappings(env, ms), Split(padded, Sep), ps);
    SplitKeepsAllFields(padded, Sep);
    JoinSplitAll(padded, Sep);
    if SepAtLineEnd(line) {
      StripRemovesPad(line);
    }
  }

  /** A line the row filter rejects stops the mapper with an error. */
  lemma RejectedLineFails(c: Config, env: Env, ms: seq<string>, lines: seq<string>, i: nat)
    requires i < |lines| && !RowFilter.Keeps(c.rows, env, lines[i], i)
    ensures Output(c, env, ms, lines).Err?
  {
    var m := Mappings(env, ms);
    var ps := ColumnsOf(c, env, lines);
    if Mapped(c, env, m, ps, lines, i).Err? {
      ErrSticks(c, env, m, ps, lines, i, |lines|);
    } else {
      ErrSticks(c, env, m, ps, lines, i + 1, |lines|);
    }
  }
}
