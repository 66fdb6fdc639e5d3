/** lib/sycsvpro/merger.rb: merges files whose header columns, after a
    regular expression scan, match the target header. */
module Merger {
  import opened Wrappers
  import opened Text
  import opened Externals

  /** The options of a Merger after `initialize`: the target header names,
      one source-header pattern and one key column per file. */
  datatype Config = Config(headerCols: seq<string>, sourceHeader: seq<string>, keys: seq<string>)

  /** `Regexp.new(nil)`, when there are fewer patterns than files. */
  const NilPattern := "no implicit conversion of nil into String"

  /** `Merger#initialize` on the option values. */
  function Configure(header: string, sourceHeader: string, key: string): (r: Config)
    ensures r.headerCols == Split(header, ',') && r.sourceHeader == Split(sourceHeader, ',') && r.keys == Split(key, ',')
  {
    Config(Split(header, ','), Split(sourceHeader, ','), Split(key, ','))
  }

  /** The first output line: ';' and the target header names. */
  function Heading(c: Config): string
  {
    [Sep] + Join(c.headerCols, Sep)
  }

  // ---------------------------------------------------------------------------
  // create_file_header

  /** The header columns after the scan of lines 108-111: the skip on line
      109 compares an Integer with a String and never fires, so every
      column is replaced by its scan result. */
  function Scanned(env: Env, pattern: Option<string>, columns: seq<string>): (r: Result<seq<Option<string>>>)
    ensures r.Err? <==> |columns| > 0 && pattern.None?
    ensures r.Ok? ==> |r.value| == |columns|
    ensures r.Ok? && pattern.Some? ==> forall i :: 0 <= i < |columns| ==> r.value[i] == env.scan(columns[i], pattern.value)
  {
    if |columns| == 0 then Ok([])
    else if pattern.None? then Err(NilPattern)
    else Ok(seq(|columns|, i requires 0 <= i < |columns| => env.scan(columns[i], pattern.value)))
  }

  /** `columns.index(h)`. */
  function Position(scanned: seq<Option<string>>, h: string): Option<int>
  {
    var ix := IndexOf(scanned, Some(h));
    if ix.Some? then Some(ix.value as int) else None
  }

  /** The positions of the target headers, nil for a missing one. */
  function Positions(hs: seq<string>, scanned: seq<Option<string>>): (r: seq<Option<int>>)
    ensures |r| == |hs| && forall j :: 0 <= j < |hs| ==> r[j] == Position(scanned, hs[j])
  {
    seq(|hs|, j requires 0 <= j < |hs| => Position(scanned, hs[j]))
  }

  /** `@file_header`: the key column, then the positions, compacted. */
  function FileHeader(key: Option<string>, hs: seq<string>, scanned: seq<Option<string>>): seq<int>
  {
    Compact([Some(ToI(OrEmpty(key)))] + Positions(hs, scanned))
  }

  /** `create_file_header`, with the scan done by the caller. */
  method CreateFileHeader(key: Option<string>, hs: seq<string>, scanned: seq<Option<string>>) returns (fileHeader: seq<int>)
    ensures fileHeader == FileHeader(key, hs, scanned)
  {
    var positions: seq<Option<int>> := [Some(ToI(OrEmpty(key)))];
    var j := 0;
    while j < |hs|
      invariant 0 <= j <= |hs|
      invariant positions == [Some(ToI(OrEmpty(key)))] + Positions(hs[..j], scanned)
    {
      assert Positions(hs[..j + 1], scanned) == Positions(hs[..j], scanned) + [Position(scanned, hs[j])];
      var ix := IndexOf(scanned, Some(hs[j]));
      positions := positions + [if ix.Some? then Some(ix.value as int) else None];
      j := j + 1;
    }
    assert hs[..j] == hs;
    fileHeader := Compact(positions);
  }

  /** Lines 108-111 of `create_file_header`: each column replaced in place
      by its scan result. */
  method ScanColumns(env: Env, pattern: Option<string>, columns: seq<string>) returns (r: Result<seq<Option<string>>>)
    ensures r == Scanned(env, pattern, columns)
  {
    if |columns| == 0 {
      return Ok([]);
    }
    if pattern.None? {
      return Err(NilPattern);
    }
    var cols := Lift(columns);
    var i := 0;
    while i < |columns|
      invariant 0 <= i <= |columns| && |cols| == |columns|
      invariant forall k :: 0 <= k < i ==> cols[k] == env.scan(columns[k], pattern.value)
    {
      cols := cols[i := env.scan(columns[i], pattern.value)];
      i := i + 1;
    }
    assert cols == Scanned(env, pattern, columns).value;
    return Ok(cols);
  }

  /** `create_line`: the columns the file header selects; nil prints as "". */
  function CreateLine(fileHeader: seq<int>, columns: seq<string>): string
  {
    var vs := ValuesAt(columns, fileHeader);
    Join(seq(|vs|, j requires 0 <= j < |vs| => OrEmpty(vs[j])), Sep)
  }

  // ---------------------------------------------------------------------------
  // execute

  /** The file header once the first non-blank line is read, and the lines
      written for the file so far. */
  datatype FileState = FileState(fileHeader: Option<seq<int>>, out: seq<string>)

  /** One turn of the loop over the lines of one file. */
  function FileStep(c: Config, env: Env, key: Option<string>, pattern: Option<string>, st: Result<FileState>, line: string): Result<FileState>
  {
    if st.Err? || Chomp(line) == "" then st
    else
      var columns := Split(env.unstring(line), Sep);
      match st.value.fileHeader
      case None =>
        (match Scanned(env, pattern, columns)
         case Err(m) => Err(m)
         case Ok(sc) => Ok(FileState(Some(FileHeader(key, c.headerCols, sc)), st.value.out)))
      case Some(fh) => Ok(FileState(Some(fh), st.value.out + [CreateLine(fh, columns)]))
  }

  /** The state after the first `n` lines of one file. */
  function FileRun(c: Config, env: Env, key: Option<string>, pattern: Option<string>, lines: seq<string>, n: nat): Result<FileState>
    requires n <= |lines|
  {
    if n == 0 then Ok(FileState(None, [])) else FileStep(c, env, key, pattern, FileRun(c, env, key, pattern, lines, n - 1), lines[n - 1])
  }

  /** The output after the first `n` files: file i uses key i and pattern i,
      nil once they run out. */
  function Merged(c: Config, env: Env, files: seq<seq<string>>, n: nat): Result<seq<string>>
    requires n <= |files|
  {
    if n == 0 then Ok([Heading(c)])
    else
      var prev := Merged(c, env, files, n - 1);
      if prev.Err? then prev
      else
        var f := files[n - 1];
        match FileRun(c, env, At(c.keys, n - 1), At(c.sourceHeader, n - 1), f, |f|)
        case Err(m) => Err(m)
        case Ok(st) => Ok(prev.value + st.out)
  }

  /** The outcome of `Merger#execute`: the written lines or the error. */
  function Output(c: Config, env: Env, files: seq<seq<string>>): Result<seq<string>>
  {
    Merged(c, env, files, |files|)
  }

  lemma {:induction false} FileErrSticks(c: Config, env: Env, key: Option<string>, pattern: Option<string>, lines: seq<string>, k: nat, n: nat)
    requires k <= n <= |lines| && FileRun(c, env, key, pattern, lines, k).Err?
    ensures FileRun(c, env, key, pattern, lines, n) == FileRun(c, env, key, pattern, lines, k)
  {
    if n > k {
      FileErrSticks(c, env, key, pattern, lines, k, n - 1);
    }
  }

  lemma {:induction false} MergeErrSticks(c: Config, env: Env, files: seq<seq<string>>, k: nat, n: nat)
    requires k <= n <= |files| && Merged(c, env, files, k).Err?
    ensures Merged(c, env, files, n) == Merged(c, env, files, k)
  {
    if n > k {
      MergeErrSticks(c, env, files, k, n - 1);
    }
  }

  /** The body of the line loop of `execute`. */
  method MergeLine(c: Config, env: Env, key: Option<string>, pattern: Option<string>, st: FileState, line: string) returns (r: Result<FileState>)
    ensures r == FileStep(c, env, key, pattern, Ok(st), line)
  {
    if Chomp(line) == "" {
      return Ok(st);
    }
    var columns := Split(env.unstring(line), Sep);
    if st.fileHeader.None? {
      var scanned := ScanColumns(env, pattern, columns);
      if scanned.Err? {
        return Err(scanned.msg);
      }
      var fileHeader := CreateFileHeader(key, c.headerCols, scanned.value);
      return Ok(FileState(Some(fileHeader), st.out));
    }
    return Ok(FileState(st.fileHeader, st.out + [CreateLine(st.fileHeader.value, columns)]));
  }

  /** The line loop of `execute` for one file. */
  method MergeFile(c: Config, env: Env, key: Option<string>, pattern: Option<string>, lines: seq<string>) returns (r: Result<FileState>)
    ensures r == FileRun(c, env, key, pattern, lines, |lines|)
  {
    r := Ok(FileState(None, []));
    var index := 0;
    while index < |lines| && r.Ok?
      invariant 0 <= index <= |lines|
      invariant FileRun(c, env, key, pattern, lines, index) == r
    {
      FileRunNext(c, env, key, pattern, lines, index);
      r := MergeLine(c, env, key, pattern, r.value, lines[index]);
      index := index + 1;
    }
    if r.Err? {
      FileErrSticks(c, env, key, pattern, lines, index, |lines|);
    }
  }

  lemma FileRunNext(c: Config, env: Env, key: Option<string>, pattern: Option<string>, lines: seq<string>, n: nat)
    requires n < |lines|
    ensures FileRun(c, env, key, pattern, lines, n + 1) == FileStep(c, env, key, pattern, FileRun(c, env, key, pattern, lines, n), lines[n])
  {
  }

  lemma MergedNext(c: Config, env: Env, files: seq<seq<string>>, n: nat, out: seq<string>)
    requires n < |files| && Merged(c, env, files, n) == Ok(out)
    ensures var run := FileRun(c, env, At(c.keys, n), At(c.sourceHeader, n), files[n], |files[n]|);
      Merged(c, env, files, n + 1) == if run.Err? then Err(run.msg) else Ok(out + run.value.out)
  {
  }

  /** `Array#shift`: the first element, nil for an empty array, and the rest. */
  method Shift(s: seq<string>) returns (first: Option<string>, rest: seq<string>)
    ensures first == At(s, 0) && rest == (if |s| > 0 then s[1..] else [])
  {
    if |s| > 0 {
      return Some(s[0]), s[1..];
    }
    return None, [];
  }

  /** What is left of `s` after `i` shifts. */
  function Shifted(s: seq<string>, i: nat): seq<string>
  {
    if i <= |s| then s[i..] else []
  }

  /** Shift `i` yields element `i`. */
  lemma ShiftStep(s: seq<string>, i: nat)
    ensures At(Shifted(s, i), 0) == At(s, i)
    ensures Shifted(s, i + 1) == if |Shifted(s, i)| > 0 then Shifted(s, i)[1..] else []
  {
  }

  /** One turn of the file loop of `execute`: shift the key and the pattern
      of file `i` and merge its lines after the output so far. */
  method MergeNext(c: Config, env: Env, files: seq<seq<string>>, i: nat, out: seq<string>, keys: seq<string>, sourceHeader: seq<string>)
    returns (r: Result<seq<string>>, keys': seq<string>, sourceHeader': seq<string>)
    requires i < |files| && Merged(c, env, files, i) == Ok(out)
    requires keys == Shifted(c.keys, i) && sourceHeader == Shifted(c.sourceHeader, i)
    ensures r == Merged(c, env, files, i + 1)
    ensures keys' == Shifted(c.keys, i + 1) && sourceHeader' == Shifted(c.sourceHeader, i + 1)
  {
    ShiftStep(c.keys, i);
    ShiftStep(c.sourceHeader, i);
    var currentKey;
    currentKey, keys' := Shift(keys);
    var currentSourceHeader;
    currentSourceHeader, sourceHeader' := Shift(sourceHeader);
    var file := MergeFile(c, env, currentKey, currentSourceHeader, files[i]);
    MergedNext(c, env, files, i, out);
    if file.Err? {
      return Err(file.msg), keys', sourceHeader';
    }
    return Ok(out + file.value.out), keys', sourceHeader';
  }

  /** `Merger#execute` over the lines of each file, in file order; `@key`
      and `@source_header` are shifted once per file. */
  method Execute(c: Config, env: Env, files: seq<seq<string>>) returns (r: Result<seq<string>>)
    ensures r == Output(c, env, files)
  {
    r := Ok([Heading(c)]);
    var keys := c.keys;
    var sourceHeader := c.sourceHeader;
    var i := 0;
    while i < |files| && r.Ok?
      invariant 0 <= i <= |files|
      invariant Merged(c, env, files, i) == r
      invariant keys == Shifted(c.keys, i) && sourceHeader == Shifted(c.sourceHeader, i)
    {
      r, keys, sourceHeader := MergeNext(c, env, files, i, r.value, keys, sourceHeader);
      i := i + 1;
    }
    if r.Err? {
      MergeErrSticks(c, env, files, i, |files|);
    }
  }

  // ---------------------------------------------------------------------------
  // Properties

  /** The output starts with ';' and the target header names. */
  lemma {:induction false} HeadingFirst(c: Config, env: Env, files: seq<seq<string>>, n: nat)
    requires n <= |files| && Merged(c, env, files, n).Ok?
    ensures |Merged(c, env, files, n).value| > 0 && Merged(c, env, files, n).value[0] == [Sep] + Join(c.headerCols, Sep)
  {
    if n > 0 {
      HeadingFirst(c, env, files, n - 1);
    }
  }

  /** The target headers that some column scans to, in target order. */
  function Present(hs: seq<string>, scanned: seq<Option<string>>): seq<string>
  {
    if |hs| == 0 then []
    else Present(hs[..|hs| - 1], scanned) + (if Some(hs[|hs| - 1]) in scanned then [hs[|hs| - 1]] else [])
  }

  lemma {:induction false} PositionsCompact(hs: seq<string>, scanned: seq<Option<string>>)
    ensures var ps := Compact(Positions(hs, scanned));
      |ps| == |Present(hs, scanned)| &&
      forall j :: 0 <= j < |ps| ==> Position(scanned, Present(hs, scanned)[j]) == Some(ps[j])
  {
    if |hs| > 0 {
      var init := hs[..|hs| - 1];
      var h := hs[|hs| - 1];
      PositionsCompact(init, scanned);
      assert Positions(hs, scanned) == Positions(init, scanned) + [Position(scanned, h)];
      CompactAppend(Positions(init, scanned), [Position(scanned, h)]);
      assert Compact([Position(scanned, h)]) == if Some(h) in scanned then [Position(scanned, h).value] else [];
    }
  }

  /** Column `p` is the first column that scans to `h`. */
  predicate FirstAt(scanned: seq<Option<string>>, h: string, p: int)
  {
    0 <= p < |scanned| && scanned[p] == Some(h) && Some(h) !in scanned[..p]
  }

  /** `columns.index(h)` is the first column holding `h`. */
  lemma PositionIsFirst(scanned: seq<Option<string>>, h: string, p: int)
    requires Position(scanned, h) == Some(p)
    ensures FirstAt(scanned, h, p)
  {
  }

  /** The file header is the key column and the positions of the present
      target headers. */
  lemma FileHeaderPositions(key: Option<string>, hs: seq<string>, scanned: seq<Option<string>>)
    ensures var fh := FileHeader(key, hs, scanned);
      var present := Present(hs, scanned);
      |fh| == 1 + |present| && fh[0] == ToI(OrEmpty(key)) &&
      forall j :: 0 <= j < |present| ==> Position(scanned, present[j]) == Some(fh[j + 1])
  {
    PositionsCompact(hs, scanned);
    CompactAppend([Some(ToI(OrEmpty(key)))], Positions(hs, scanned));
    assert Compact([Some(ToI(OrEmpty(key)))]) == [ToI(OrEmpty(key))];
  }

  /** A data line is the key column followed by, for each target header a
      column scans to, the first such column, in target-header order: a
      missing header is dropped rather than padded, and a header that two
      columns scan to takes the first of them. */
  lemma FileHeaderLayout(key: Option<string>, hs: seq<string>, scanned: seq<Option<string>>)
    ensures |FileHeader(key, hs, scanned)| == 1 + |Present(hs, scanned)|
    ensures FileHeader(key, hs, scanned)[0] == ToI(OrEmpty(key))
    ensures forall j :: 0 <= j < |Present(hs, scanned)| ==>
      FirstAt(scanned, Present(hs, scanned)[j], FileHeader(key, hs, scanned)[j + 1])
  {
    FileHeaderPositions(key, hs, scanned);
    var fh := FileHeader(key, hs, scanned);
    var present := Present(hs, scanned);
    forall j | 0 <= j < |present| ensures FirstAt(scanned, present[j], fh[j + 1]) {
      PositionIsFirst(scanned, present[j], fh[j + 1]);
    }
  }

  /** A present target header is one some column scans to. */
  lemma {:induction false} PresentMembers(hs: seq<string>, scanned: seq<Option<string>>, h: string)
    ensures h in Present(hs, scanned) <==> h in hs && Some(h) in scanned
  {
    if |hs| > 0 {
      PresentMembers(hs[..|hs| - 1], scanned, h);
      assert hs == hs[..|hs| - 1] + [hs[|hs| - 1]];
    }
  }

  /** Without a key for the file, column 0 is the key column. */
  lemma MissingKeyIsColumnZero(hs: seq<string>, scanned: seq<Option<string>>)
    ensures |FileHeader(None, hs, scanned)| > 0 && FileHeader(None, hs, scanned)[0] == 0
  {
    FileHeaderPositions(None, hs, scanned);
    assert StripLeft("") == "" && LeadingDigits("") == "";
  }

  /** The non-blank lines of a file, in order. */
  function NonBlank(lines: seq<string>): seq<string>
  {
    if |lines| == 0 then []
    else NonBlank(lines[..|lines| - 1]) + (if Chomp(lines[|lines| - 1]) == "" then [] else [lines[|lines| - 1]])
  }

  lemma NonBlankStep(lines: seq<string>, n: nat)
    requires 0 < n <= |lines|
    ensures NonBlank(lines[..n]) == NonBlank(lines[..n - 1]) + (if Chomp(lines[n - 1]) == "" then [] else [lines[n - 1]])
  {
    assert lines[..n][..n - 1] == lines[..n - 1];
  }

  /** The lines written for a file with header line `h` and data lines `ds`. */
  function Written(c: Config, env: Env, key: Option<string>, sc: seq<Option<string>>, ds: seq<string>): seq<string>
  {
    var fh := FileHeader(key, c.headerCols, sc);
    seq(|ds|, j requires 0 <= j < |ds| => CreateLine(fh, Split(env.unstring(ds[j]), Sep)))
  }

  /** The header columns of a header line once scanned. */
  function HeaderScan(env: Env, pattern: Option<string>, h: string): Result<seq<Option<string>>>
  {
    Scanned(env, pattern, Split(env.unstring(h), Sep))
  }

  /** The state of a file after the non-blank lines `nb`: no file header
      before the first; then the header built from the first, and one
      written line for each later one. */
  ghost predicate Means(c: Config, env: Env, key: Option<string>, pattern: Option<string>, nb: seq<string>, st: FileState)
  {
    if |nb| == 0 then st == FileState(None, [])
    else
      HeaderScan(env, pattern, nb[0]).Ok? &&
      var sc := HeaderScan(env, pattern, nb[0]).value;
      st == FileState(Some(FileHeader(key, c.headerCols, sc)), Written(c, env, key, sc, nb[1..]))
  }

  lemma MeansStep(c: Config, env: Env, key: Option<string>, pattern: Option<string>, nb: seq<string>, st: FileState, line: string)
    requires Means(c, env, key, pattern, nb, st) && Chomp(line) != ""
    requires FileStep(c, env, key, pattern, Ok(st), line).Ok?
    ensures Means(c, env, key, pattern, nb + [line], FileStep(c, env, key, pattern, Ok(st), line).value)
  {
    var nb' := nb + [line];
    if |nb| > 0 {
      assert nb'[0] == nb[0];
      assert nb'[1..] == nb[1..] + [line];
      var sc := HeaderScan(env, pattern, nb[0]).value;
      assert Written(c, env, key, sc, nb'[1..]) == Written(c, env, key, sc, nb[1..]) + [CreateLine(FileHeader(key, c.headerCols, sc), Split(env.unstring(line), Sep))];
    } else {
      assert nb' == [line] && nb'[1..] == [];
    }
  }

  /** The first non-blank line of a file is its header and is not written;
      blank lines are skipped; every later line is written through the
      file header built from the header line. */
  lemma {:induction false} FileRunMeans(c: Config, env: Env, key: Option<string>, pattern: Option<string>, lines: seq<string>, n: nat)
    requires n <= |lines| && FileRun(c, env, key, pattern, lines, n).Ok?
    ensures Means(c, env, key, pattern, NonBlank(lines[..n]), FileRun(c, env, key, pattern, lines, n).value)
  {
    if n > 0 {
      var line := lines[n - 1];
      var prev := FileRun(c, env, key, pattern, lines, n - 1);
      FileRunNext(c, env, key, pattern, lines, n - 1);
      assert prev.Ok?;
      FileRunMeans(c, env, key, pattern, lines, n - 1);
      NonBlankStep(lines, n);
      if Chomp(line) != "" {
        MeansStep(c, env, key, pattern, NonBlank(lines[..n - 1]), prev.value, line);
      }
    }
  }
}
