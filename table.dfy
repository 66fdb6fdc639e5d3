/** lib/sycsvpro/table.rb, without the parts driven by `eval`: number and
    date reading, the sum row and its placement, and the creation and
    update of table rows. */
module Table {
  import opened Wrappers
  import opened Text
  import opened Externals
  import opened Dicts
  import RowFilter

  // ---------------------------------------------------------------------------
  // to_number, to_date, convert_to_en

  /** A value `to_number` returns. */
  datatype Number = IntValue(i: int) | FloatValue(x: real)

  /** `convert_to_en` under the number format `nf`: in "DE" every '.' becomes
      '_' and then every ',' becomes '.'. */
  function ConvertToEn(nf: string, value: string): (r: string)
  {
    if nf == "DE" then ReplaceChar(ReplaceChar(value, '.', '_'), ',', '.') else value
  }

  /** `to_number`: an integer unless the converted text has a '.'. */
  function ToNumber(env: Env, nf: string, value: string): Number
  {
    var v := ConvertToEn(nf, value);
    if '.' !in v then IntValue(ToI(v)) else FloatValue(env.toF(v))
  }

  /** `Date.strptime` raising on text it cannot read. */
  const InvalidDate := "invalid date"

  /** `to_date`: nil for nil or blank text, else the parsed date. */
  function ToDate(env: Env, dateFormat: string, value: Option<string>): Result<Option<Date>>
  {
    if value.None? || Strip(value.value) == "" then Ok(None)
    else
      match env.strptime(value.value, dateFormat)
      case Some(d) => Ok(Some(d))
      case None => Err(InvalidDate)
  }

  /** What "DE" conversion does to each character. */
  lemma ConvertToEnDE(value: string)
    ensures var r := ConvertToEn("DE", value);
      |r| == |value| &&
      forall i :: 0 <= i < |value| ==> r[i] == (if value[i] == '.' then '_' else if value[i] == ',' then '.' else value[i])
  {
  }

  /** Any other number format leaves the text alone. */
  lemma ConvertToEnOther(nf: string, value: string)
    requires nf != "DE"
    ensures ConvertToEn(nf, value) == value
  {
  }

  /** Text without '.' after conversion is read as an integer, text with one
      as a float. */
  lemma ToNumberKinds(env: Env, nf: string, value: string)
    ensures ToNumber(env, nf, value).IntValue? <==> '.' !in ConvertToEn(nf, value)
    ensures '.' !in ConvertToEn(nf, value) ==> ToNumber(env, nf, value) == IntValue(ToI(ConvertToEn(nf, value)))
  {
  }

  /** In "DE" a '.' groups thousands: "1.234" is the integer 1234, since
      `to_i` skips the underscore it becomes. */
  lemma GermanThousands(env: Env)
    ensures ToNumber(env, "DE", "1.234") == IntValue(1234)
  {
    var v := ConvertToEn("DE", "1.234");
    assert v == "1_234";
    assert StripLeft(v) == v;
    assert LeadingDigits("234") == "234" by {
      LeadingDigitsOfDigits("234");
    }
    assert LeadingDigits(v) == "1234";
    assert DigitsValue("1234") == 1234 by {
      assert "1234"[..3] == "123" && "123"[..2] == "12" && "12"[..1] == "1";
    }
  }

  /** Blank text is no date, whatever the parser would make of it. */
  lemma BlankIsNoDate(env: Env, env': Env, dateFormat: string, value: Option<string>)
    requires value.None? || Strip(value.value) == ""
    ensures ToDate(env, dateFormat, value) == Ok(None) == ToDate(env', dateFormat, value)
  {
  }

  /** Non-blank text is a date exactly when the parser reads it, and an
      error otherwise. */
  lemma ToDateParses(env: Env, dateFormat: string, value: string)
    requires Strip(value) != ""
    ensures ToDate(env, dateFormat, Some(value)).Ok? <==> env.strptime(value, dateFormat).Some?
    ensures ToDate(env, dateFormat, Some(value)).Ok? ==> ToDate(env, dateFormat, Some(value)).value == env.strptime(value, dateFormat)
    ensures ToDate(env, dateFormat, Some(value)).Err? ==> ToDate(env, dateFormat, Some(value)) == Err(InvalidDate)
  {
  }

  // ---------------------------------------------------------------------------
  // prepare_sum_row

  /** `@sum_row_pos` and `@sum_row_patterns` after `prepare_sum_row`. */
  datatype SumScheme = SumScheme(pos: Option<string>, patterns: Option<seq<string>>)

  /** Ruby's `^` matches at position `i` of `s`: the start of the text or
      just after a line break. */
  predicate LineStart(s: string, i: int)
  {
    i == 0 || (0 < i <= |s| && s[i - 1] == '\n')
  }

  /** A ':' that `(?<=^top|^eof):` matches (case-insensitively): it follows
      "top" or "eof" standing at the start of a line. */
  predicate SumSep(p: string, k: int)
  {
    3 <= k < |p| && p[k] == ':' && LineStart(p, k - 3) && PlacementWord(p[k - 3..k])
  }

  /** "top" or "eof" in any case. */
  predicate PlacementWord(w: string)
  {
    Upcase(w) == "TOP" || Upcase(w) == "EOF"
  }

  /** A placement word has three letters, none a colon or a line break. */
  lemma PlacementWordChars(w: string)
    requires PlacementWord(w)
    ensures |w| == 3 && ':' !in w && '\n' !in w
  {
    forall i | 0 <= i < |w| ensures w[i] != ':' && w[i] != '\n' {
      assert Upcase(w)[i] == UpcaseChar(w[i]);
    }
  }

  /** The first such ':' at or after `from`. */
  function NextSumSep(p: string, from: nat): (r: Option<nat>)
    ensures r.Some? ==> from <= r.value < |p| && SumSep(p, r.value)
    ensures forall k :: from <= k < (if r.Some? then r.value else |p|) ==> !SumSep(p, k)
    decreases |p| - from
  {
    if from >= |p| then None
    else if SumSep(p, from) then Some(from)
    else NextSumSep(p, from + 1)
  }

  /** The end of the field that starts at `from`. */
  function FieldEnd(p: string, from: nat): nat
  {
    match NextSumSep(p, from)
    case None => if from <= |p| then |p| else from
    case Some(k) => k
  }

  /** The text after the first separator up to the next one, nil when
      there is no separator or nothing after it. */
  function SecondField(p: string): Option<string>
  {
    match NextSumSep(p, 0)
    case None => None
    case Some(k) => if k + 1 == |p| then None else Some(p[k + 1..FieldEnd(p, k + 1)])
  }

  /** `prepare_sum_row` for a non-empty option: the text before the first
      separator, upper-cased, is the position (the whole option when there
      is none), and the field after it goes to `split_by_comma_regex`. */
  function PrepareSum(env: Env, pattern: Option<string>): (r: SumScheme)
    ensures pattern.None? || pattern.value == "" ==> r == SumScheme(None, None)
    ensures r.pos.Some? <==> r.patterns.Some?
  {
    if pattern.None? || pattern.value == "" then SumScheme(None, None)
    else
      var p := pattern.value;
      SumScheme(Some(Upcase(p[..FieldEnd(p, 0)])), Some(env.splitByCommaRegex(SecondField(p))))
  }

  /** The fields of `p[from..]` between the separators, empty ones
      included: Ruby's `split` on the regex before it drops trailing empty
      fields. */
  function SumFields(p: string, from: nat): (r: seq<string>)
    ensures |r| >= 1
    decreases |p| - from
  {
    if from >= |p| then [""]
    else
      var rest := SumFields(p, from + 1);
      if SumSep(p, from) then [""] + rest else [[p[from]] + rest[0]] + rest[1..]
  }

  /** The first field runs up to the next separator, and the fields after
      it are those after that separator. */
  lemma {:induction false} SumFieldsFirst(p: string, from: nat)
    requires from <= |p|
    ensures SumFields(p, from)[0] == p[from..FieldEnd(p, from)]
    ensures NextSumSep(p, from).Some? ==> SumFields(p, from)[1..] == SumFields(p, NextSumSep(p, from).value + 1)
    ensures NextSumSep(p, from).None? ==> |SumFields(p, from)| == 1
    decreases |p| - from
  {
    if from < |p| && !SumSep(p, from) {
      var rest := SumFields(p, from + 1);
      SumFieldsFirst(p, from + 1);
      assert SumFields(p, from) == [[p[from]] + rest[0]] + rest[1..];
      assert NextSumSep(p, from) == NextSumSep(p, from + 1);
      assert FieldEnd(p, from) == FieldEnd(p, from + 1);
      assert [p[from]] + p[from + 1..FieldEnd(p, from)] == p[from..FieldEnd(p, from)];
    }
  }

  /** A field that follows a separator is empty only at the end of the
      option: a second separator needs three letters before it. */
  lemma FieldAfterSepNonEmpty(p: string, k: nat)
    requires SumSep(p, k) && k + 1 < |p|
    ensures FieldEnd(p, k + 1) > k + 1
  {
  }

  /** The split of a non-empty option keeps its first field, and its second
      is `SecondField`. */
  lemma SumSplitParts(p: string)
    requires p != ""
    ensures var parts := DropTrailingEmpty(SumFields(p, 0));
      |parts| > 0 && parts[0] == p[..FieldEnd(p, 0)] && At(parts, 1) == SecondField(p)
  {
    var fs := SumFields(p, 0);
    var parts := DropTrailingEmpty(fs);
    SumFieldsFirst(p, 0);
    match NextSumSep(p, 0)
    case None =>
      assert fs[0] == p[0..|p|] == p;
      assert fs == [p] && parts == fs;
    case Some(k) =>
      assert fs[0] == p[0..k] != "";
      assert parts[0] == fs[0];
      SumFieldsFirst(p, k + 1);
      if k + 1 == |p| {
        assert fs[1..] == [""];
        assert parts == fs[..1];
      } else {
        FieldAfterSepNonEmpty(p, k);
        assert fs[1] == p[k + 1..FieldEnd(p, k + 1)] != "";
        assert parts[1] == fs[1];
      }
  }

  /** `@sum_row_pos, sum_row_pattern = pattern.split(...)`: the position is
      the first field of the split, upper-cased, and the pattern list text
      its second field, nil when the split has only one. */
  lemma PrepareSumIsSplit(env: Env, p: string)
    requires p != ""
    ensures var parts := DropTrailingEmpty(SumFields(p, 0));
      |parts| > 0 &&
      PrepareSum(env, Some(p)).pos == Some(Upcase(parts[0])) &&
      PrepareSum(env, Some(p)).patterns == Some(env.splitByCommaRegex(At(parts, 1)))
  {
    SumSplitParts(p);
  }

  /** "top:" or "eof:" at the very start, in any case. */
  predicate LeadingPlacement(p: string)
  {
    |p| >= 4 && p[3] == ':' && PlacementWord(p[..3])
  }

  /** The position prefix is matched in any case and stored upper-cased. */
  lemma PlacementAnyCase(env: Env, p: string)
    requires LeadingPlacement(p)
    ensures PrepareSum(env, Some(p)).pos == Some(Upcase(p[..3]))
    ensures PrepareSum(env, Some(p)).pos == Some("TOP") || PrepareSum(env, Some(p)).pos == Some("EOF")
  {
    assert SumSep(p, 3);
  }

  /** In an option of one line the only possible separator is the fourth
      character. */
  lemma OneLineSep(p: string)
    requires '\n' !in p
    ensures !LeadingPlacement(p) ==> NextSumSep(p, 0).None?
    ensures LeadingPlacement(p) ==> NextSumSep(p, 0) == Some(3) && NextSumSep(p, 4).None?
  {
    forall j | 0 <= j < |p| ensures p[j] != '\n' {
      assert p[j] in p;
    }
    if LeadingPlacement(p) {
      assert SumSep(p, 3);
    }
  }

  /** Without a separator the whole option is the position. */
  lemma NoSep(env: Env, p: string)
    requires p != "" && NextSumSep(p, 0).None?
    ensures PrepareSum(env, Some(p)) == SumScheme(Some(Upcase(p)), Some(env.splitByCommaRegex(None)))
  {
    assert p[..|p|] == p;
  }

  /** With a first separator at `k`, the text before it is the position
      and the field after it, up to `e`, the pattern list text. */
  lemma SepThenField(env: Env, p: string, k: nat, e: nat)
    requires NextSumSep(p, 0) == Some(k) && FieldEnd(p, k + 1) == e
    ensures k + 1 <= e <= |p|
    ensures PrepareSum(env, Some(p)) ==
      SumScheme(Some(Upcase(p[..k])), Some(env.splitByCommaRegex(if k + 1 == |p| then None else Some(p[k + 1..e]))))
  {
  }

  /** With the only separator fourth, the rest of the option is the pattern
      list text. */
  lemma OnlyLeadingSep(env: Env, p: string)
    requires NextSumSep(p, 0) == Some(3) && NextSumSep(p, 4).None?
    ensures PrepareSum(env, Some(p)).patterns == Some(env.splitByCommaRegex(if |p| == 4 then None else Some(p[4..])))
  {
    assert p[4..|p|] == p[4..];
  }

  /** For an option of one line: without a leading "top:" or "eof:" the
      whole option, upper-cased, is the position and an empty pattern list
      text is split; with one, the rest of the option after the colon is
      the pattern list text, nil when empty. */
  lemma PrepareSumPlain(env: Env, p: string)
    requires p != "" && '\n' !in p
    ensures !LeadingPlacement(p) ==> PrepareSum(env, Some(p)) == SumScheme(Some(Upcase(p)), Some(env.splitByCommaRegex(None)))
    ensures LeadingPlacement(p) && |p| == 4 ==> PrepareSum(env, Some(p)).patterns == Some(env.splitByCommaRegex(None))
    ensures LeadingPlacement(p) && |p| > 4 ==> PrepareSum(env, Some(p)).patterns == Some(env.splitByCommaRegex(Some(p[4..])))
  {
    OneLineSep(p);
    if LeadingPlacement(p) {
      OnlyLeadingSep(env, p);
    } else {
      NoSep(env, p);
    }
  }

  /** A separator at `k` with no colon between `from` and it is the next
      one. */
  lemma {:induction false} NextSumSepAt(p: string, from: nat, k: nat)
    requires from <= k && SumSep(p, k) && ':' !in p[from..k]
    ensures NextSumSep(p, from) == Some(k)
    decreases k - from
  {
    if from < k {
      assert p[from] == p[from..k][0];
      assert p[from + 1..k] == p[from..k][1..];
      NextSumSepAt(p, from + 1, k);
    }
  }

  /** Without a line break from four characters before `from` on, no
      separator follows `from`. */
  lemma NoSumSepFrom(p: string, from: nat)
    requires 4 <= from <= |p| && '\n' !in p[from - 4..]
    ensures NextSumSep(p, from).None?
  {
    forall k | from <= k < |p| ensures !SumSep(p, k) {
      assert p[from - 4..][k - from] == p[k - 4];
    }
  }

  /** The separators of `a + "\n" + w + ":" + b`: only the colon after `w`. */
  lemma AfterLineSeps(a: string, w: string, b: string)
    requires ':' !in a && PlacementWord(w) && '\n' !in b
    ensures var p := a + "\n" + w + ":" + b;
      NextSumSep(p, 0) == Some(|a| + 4) && FieldEnd(p, |a| + 5) == |p| &&
      p[..|a| + 4] == a + "\n" + w && p[|a| + 5..] == b
  {
    var p := a + "\n" + w + ":" + b;
    var n := |a|;
    PlacementWordChars(w);
    assert p[n + 1..n + 4] == w;
    assert SumSep(p, n + 4);
    assert p[..n + 4] == a + "\n" + w;
    NextSumSepAt(p, 0, n + 4);
    assert p[n + 1..] == w + ":" + b;
    NoSumSepFrom(p, n + 5);
  }

  /** `^` is a line anchor: "top:" or "eof:" at the start of a later line
      separates too, and everything before it, line break included, is the
      position. */
  lemma PlacementAfterLine(env: Env, a: string, w: string, b: string)
    requires ':' !in a && PlacementWord(w) && '\n' !in b
    ensures PrepareSum(env, Some(a + "\n" + w + ":" + b)) ==
      SumScheme(Some(Upcase(a + "\n" + w)), Some(env.splitByCommaRegex(if b == "" then None else Some(b))))
  {
    var p := a + "\n" + w + ":" + b;
    AfterLineSeps(a, w, b);
    SepThenField(env, p, |a| + 4, |p|);
    assert p[|a| + 5..|p|] == b;
  }

  /** A second "top:" or "eof:" on a later line ends the pattern list text
      just before its colon. */
  lemma PatternEndsAtPlacement(env: Env, w1: string, x: string, w2: string, y: string)
    requires PlacementWord(w1) && ':' !in x && PlacementWord(w2)
    ensures PrepareSum(env, Some(w1 + ":" + x + "\n" + w2 + ":" + y)) ==
      SumScheme(Some(Upcase(w1)), Some(env.splitByCommaRegex(Some(x + "\n" + w2))))
  {
    var p := w1 + ":" + x + "\n" + w2 + ":" + y;
    var m := |x| + 8;
    PlacementWordChars(w1);
    PlacementWordChars(w2);
    assert p[..3] == w1;
    assert SumSep(p, 3);
    NextSumSepAt(p, 0, 3);
    assert p[4..m] == x + "\n" + w2;
    assert p[m - 3..m] == w2;
    assert SumSep(p, m);
    NextSumSepAt(p, 4, m);
    SepThenField(env, p, 3, m);
  }

  /** A "top:" on the second line: the first line is part of the position. */
  lemma PlacementOnSecondLine(env: Env)
    ensures PrepareSum(env, Some("a\ntop:b")) == SumScheme(Some("A\nTOP"), Some(env.splitByCommaRegex(Some("b"))))
  {
    var p := "a\ntop:b";
    assert p[2..5] == "top" && Upcase("top") == "TOP";
    assert SumSep(p, 5);
    assert p[0..5] == "a\ntop";
    NextSumSepAt(p, 0, 5);
    assert p[2..] == "top:b";
    NoSumSepFrom(p, 6);
    SepThenField(env, p, 5, 7);
    assert p[6..7] == "b";
    assert Upcase("a\ntop") == "A\nTOP";
  }

  /** An "eof:" on the second line ends the pattern list text of a "top:"
      option. */
  lemma SecondPlacementEndsPattern(env: Env)
    ensures PrepareSum(env, Some("top:x\neof:y")) == SumScheme(Some("TOP"), Some(env.splitByCommaRegex(Some("x\neof"))))
  {
    var p := "top:x\neof:y";
    assert p[0..3] == "top" && Upcase("top") == "TOP";
    assert SumSep(p, 3);
    NextSumSepAt(p, 0, 3);
    assert p[6..9] == "eof" && Upcase("eof") == "EOF";
    assert SumSep(p, 9);
    assert p[4..9] == "x\neof";
    NextSumSepAt(p, 4, 9);
    SepThenField(env, p, 3, 9);
  }

  // ---------------------------------------------------------------------------
  // add_to_sum_row

  /** `\(?c\d+[=~+.]` at the start of `s`. */
  predicate DynamicStart(s: string)
  {
    var q := if |s| > 0 && s[0] == '(' then s[1..] else s;
    |q| >= 2 && q[0] == 'c' && IsDigit(q[1]) && DigitsThenOperator(q[2..])
  }

  /** `pattern =~ /^\(?c\d+[=~+.]/`, a pattern evaluated on the current
      line: the shape at the start of some line of the pattern. */
  predicate IsDynamic(p: string)
  {
    exists i :: 0 <= i < |p| && LineStart(p, i) && DynamicStart(p[i..])
  }

  /** A pattern of one line is dynamic when its text starts with the shape. */
  lemma OneLineDynamic(p: string)
    requires '\n' !in p
    ensures IsDynamic(p) <==> DynamicStart(p)
  {
    if DynamicStart(p) {
      assert p[0..] == p;
    }
    forall i | 0 < i < |p| ensures !LineStart(p, i) {
      assert p[i - 1] in p;
    }
  }

  /** `\d*[=~+.]` at the start of `s`. */
  predicate DigitsThenOperator(s: string)
  {
    |s| > 0 && (s[0] in "=~+." || (IsDigit(s[0]) && DigitsThenOperator(s[1..])))
  }

  /** The header column of a sum pattern: its evaluation on the current
      line (`evaluate`, which `eval` computes) for a dynamic pattern,
      otherwise the pattern itself. */
  function HeaderColumn(p: string, evaluate: string -> string): string
  {
    if IsDynamic(p) then evaluate(p) else p
  }

  /** `h[k]` on a `Hash.new(0)`. */
  function Cell(m: map<string, int>, k: string): int
  {
    if k in m then m[k] else 0
  }

  /** `@sum_row` after `add_to_sum_row(value, column)` with the patterns `ps`. */
  function AddedToSums(sums: map<string, int>, ps: seq<string>, value: int, column: string, evaluate: string -> string): map<string, int>
  {
    if |ps| == 0 then sums
    else
      var prev := AddedToSums(sums, ps[..|ps| - 1], value, column, evaluate);
      var h := HeaderColumn(ps[|ps| - 1], evaluate);
      if h == column then prev[h := Cell(prev, h) + value] else prev
  }

  // ---------------------------------------------------------------------------
  // create_row

  /** A row of the table: its key and its cells (`Hash.new(0)`). */
  datatype Row = Row(key: seq<string>, cols: map<string, int>)

  /** One cell update of `create_row`: the (evaluated) column, and the
      value `eval` makes of the cell's previous value followed by the
      formula, None when that is nil or false. */
  datatype Update = Update(column: string, apply: int -> Option<int>)

  /** The value an update gives its cell, if any. */
  function NewValue(cells: map<string, int>, u: Update): Option<int>
  {
    u.apply(Cell(cells, u.column))
  }

  /** The cells after one update: the new value, if any, replaces the cell. */
  function StepCells(cells: map<string, int>, u: Update): map<string, int>
  {
    var v := NewValue(cells, u);
    if v.Some? then cells[u.column := v.value] else cells
  }

  /** `@sum_row` after one update on the cells `cells`: the new value less
      the previous one goes through `add_to_sum_row`. */
  function StepSums(sums: map<string, int>, patterns: Option<seq<string>>, cells: map<string, int>, u: Update, evaluate: string -> string): map<string, int>
  {
    var v := NewValue(cells, u);
    if v.None? || patterns.None? then sums
    else AddedToSums(sums, patterns.value, v.value - Cell(cells, u.column), u.column, evaluate)
  }

  /** The cells after the updates `us`. */
  function CellsAfter(start: map<string, int>, us: seq<Update>): map<string, int>
  {
    if |us| == 0 then start else StepCells(CellsAfter(start, us[..|us| - 1]), us[|us| - 1])
  }

  /** `@sum_row` after the updates `us`. */
  function SumsAfter(sums: map<string, int>, patterns: Option<seq<string>>, start: map<string, int>, us: seq<Update>, evaluate: string -> string): map<string, int>
  {
    if |us| == 0 then sums
    else
      var init := us[..|us| - 1];
      StepSums(SumsAfter(sums, patterns, start, init, evaluate), patterns, CellsAfter(start, init), us[|us| - 1], evaluate)
  }

  /** The last update unfolded. */
  lemma AfterStep(sums: map<string, int>, patterns: Option<seq<string>>, start: map<string, int>, us: seq<Update>, i: nat, evaluate: string -> string)
    requires i < |us|
    ensures CellsAfter(start, us[..i + 1]) == StepCells(CellsAfter(start, us[..i]), us[i])
    ensures SumsAfter(sums, patterns, start, us[..i + 1], evaluate) ==
      StepSums(SumsAfter(sums, patterns, start, us[..i], evaluate), patterns, CellsAfter(start, us[..i]), us[i], evaluate)
  {
    assert us[..i + 1][..i] == us[..i];
  }

  /** The rows and the sum row of a table. */
  datatype Tab = Tab(sumRow: map<string, int>, rows: Dict<seq<string>, Row>)

  /** The cells a row starts `create_row` with: its own, or all 0 for a key
      seen for the first time. */
  function StartCells(rows: Dict<seq<string>, Row>, key: seq<string>): map<string, int>
  {
    if key in rows.values then rows.values[key].cols else map[]
  }

  /** `create_row(key, line)` with the updates `us`. */
  function CreateRowOf(t: Tab, patterns: Option<seq<string>>, key: seq<string>, us: seq<Update>, evaluate: string -> string): Tab
  {
    var start := StartCells(t.rows, key);
    Tab(SumsAfter(t.sumRow, patterns, start, us, evaluate), Put(t.rows, key, Row(key, CellsAfter(start, us))))
  }

  // ---------------------------------------------------------------------------
  // create_table_data

  /** What `create_table_data` takes from one kept line: its key
      (`create_key`), its cell updates (`@cols` under `eval`) and the
      evaluation of dynamic sum patterns on it. */
  datatype Entry = Entry(key: seq<string>, updates: seq<Update>, evaluate: string -> string)

  /** The table after `create_row` for each of the entries `es`. */
  function Tabulated(t: Tab, patterns: Option<seq<string>>, es: seq<Entry>): Tab
  {
    if |es| == 0 then t
    else
      var e := es[|es| - 1];
      CreateRowOf(Tabulated(t, patterns, es[..|es| - 1]), patterns, e.key, e.updates, e.evaluate)
  }

  lemma TabulatedStep(t: Tab, patterns: Option<seq<string>>, es: seq<Entry>, e: Entry)
    ensures Tabulated(t, patterns, es + [e]) == CreateRowOf(Tabulated(t, patterns, es), patterns, e.key, e.updates, e.evaluate)
  {
    assert (es + [e])[..|es|] == es;
  }

  /** The loop state of `create_table_data` after some lines. */
  datatype Scan = Scan(processedHeader: bool, entries: seq<Entry>)

  /** Line `i` as the loop reads it: chomped, unstrung, chomped. */
  function Unstrung(env: Env, lines: seq<string>, i: nat): string
    requires i < |lines|
  {
    Chomp(env.unstring(Chomp(lines[i])))
  }

  /** `create_table_data` over the first `n` lines: empty lines are skipped,
      the first other line is the header, and each later line the row
      filter keeps becomes an entry (`entryOf` stands for the evaluation
      of the key and column formulas on it). */
  function Scanned(rows: Selector, env: Env, entryOf: string -> Entry, lines: seq<string>, n: nat): Scan
    requires n <= |lines|
  {
    if n == 0 then Scan(false, [])
    else
      var prev := Scanned(rows, env, entryOf, lines, n - 1);
      if Chomp(lines[n - 1]) == "" then prev
      else if !prev.processedHeader then Scan(true, prev.entries)
      else
        var line := Unstrung(env, lines, n - 1);
        if RowFilter.Keeps(rows, env, line, n - 1) then Scan(true, prev.entries + [entryOf(line)]) else prev
  }

  // ---------------------------------------------------------------------------
  // write_to_file

  /** The line of one row: its key values, then the cells of the header
      columns past the key. */
  function RowLine(r: Row, headerCols: seq<string>): string
  {
    var rest := if |r.key| <= |headerCols| then headerCols[|r.key|..] else [];
    Join(r.key + seq(|rest|, j requires 0 <= j < |rest| => IntToString(Cell(r.cols, rest[j]))), Sep)
  }

  /** `create_sum_row`: the sum of each header column, nothing for one
      without a sum. */
  function SumLine(sumRow: map<string, int>, headerCols: seq<string>): string
  {
    Join(seq(|headerCols|, i requires 0 <= i < |headerCols| => if headerCols[i] in sumRow then IntToString(sumRow[headerCols[i]]) else ""), Sep)
  }

  /** The lines of the rows, in order of their keys' first appearance. */
  function RowLines(rows: Dict<seq<string>, Row>, headerCols: seq<string>): (r: seq<string>)
    requires Valid(rows)
    ensures |r| == |rows.keys| && forall j :: 0 <= j < |r| ==> r[j] == RowLine(rows.values[rows.keys[j]], headerCols)
  {
    seq(|rows.keys|, j requires 0 <= j < |rows.keys| => RowLine(rows.values[rows.keys[j]], headerCols))
  }

  /** The lines `write_to_file` writes: the header line, the sum line at
      the top or at the end when so placed, and the rows. */
  function Written(pos: Option<string>, t: Tab, headerLine: string, headerCols: seq<string>): seq<string>
    requires Valid(t.rows)
  {
    var sum := [SumLine(t.sumRow, headerCols)];
    [headerLine] + (if pos == Some("TOP") then sum else []) + RowLines(t.rows, headerCols) + (if pos == Some("EOF") then sum else [])
  }

  // ---------------------------------------------------------------------------
  // The table object

  class Table {
    var numberFormat: string
    var dateFormat: string
    var sumRowPos: Option<string>
    var sumRowPatterns: Option<seq<string>>
    var sumRow: map<string, int>
    var rows: Dict<seq<string>, Row>

    ghost predicate Valid()
      reads this
    {
      Dicts.Valid(rows) && (sumRowPos.Some? <==> sumRowPatterns.Some?)
    }

    /** `Table#initialize` with the options `df`, `nf` and `sum`; the
        header, the row filter, the key and column formulas are not part
        of this model. */
    constructor(env: Env, df: Option<string>, nf: Option<string>, sum: Option<string>)
      ensures Valid()
      ensures dateFormat == (if df.Some? then df.value else "%Y-%m-%d")
      ensures numberFormat == (if nf.Some? then nf.value else "EN")
      ensures SumScheme(sumRowPos, sumRowPatterns) == PrepareSum(env, sum)
      ensures sumRow == map[] && rows == Empty()
    {
      dateFormat := if df.Some? then df.value else "%Y-%m-%d";
      numberFormat := if nf.Some? then nf.value else "EN";
      sumRowPos := None;
      sumRowPatterns := None;
      sumRow := map[];
      rows := Empty();
      new;
      PrepareSumRow(env, sum);
    }

    /** `prepare_sum_row`: nothing for a nil or empty option. */
    method PrepareSumRow(env: Env, pattern: Option<string>)
      modifies this
      requires sumRowPos.None? && sumRowPatterns.None?
      ensures SumScheme(sumRowPos, sumRowPatterns) == PrepareSum(env, pattern)
      ensures sumRow == (if pattern.None? || pattern.value == "" then old(sumRow) else map[])
      ensures rows == old(rows) && numberFormat == old(numberFormat) && dateFormat == old(dateFormat)
    {
      if pattern.None? || pattern.value == "" {
        return;
      }
      var p := pattern.value;
      sumRowPos := Some(Upcase(p[..FieldEnd(p, 0)]));
      sumRow := map[];
      sumRowPatterns := Some(env.splitByCommaRegex(SecondField(p)));
    }

    /** `add_to_sum_row(value, column)`: nothing without sum patterns. */
    method AddToSumRow(value: int, column: string, evaluate: string -> string)
      modifies this
      ensures sumRowPatterns.None? ==> sumRow == old(sumRow)
      ensures sumRowPatterns.Some? ==> sumRow == AddedToSums(old(sumRow), sumRowPatterns.value, value, column, evaluate)
      ensures rows == old(rows) && sumRowPos == old(sumRowPos) && sumRowPatterns == old(sumRowPatterns)
      ensures numberFormat == old(numberFormat) && dateFormat == old(dateFormat)
    {
      if sumRowPatterns.None? {
        return;
      }
      var ps := sumRowPatterns.value;
      var i := 0;
      while i < |ps|
        invariant 0 <= i <= |ps|
        invariant sumRow == AddedToSums(old(sumRow), ps[..i], value, column, evaluate)
        invariant rows == old(rows) && sumRowPos == old(sumRowPos) && sumRowPatterns == old(sumRowPatterns)
        invariant numberFormat == old(numberFormat) && dateFormat == old(dateFormat)
      {
        assert ps[..i + 1][..i] == ps[..i];
        var headerColumn := HeaderColumn(ps[i], evaluate);
        if headerColumn == column {
          sumRow := sumRow[headerColumn := Cell(sumRow, headerColumn) + value];
        }
        i := i + 1;
      }
      assert ps[..i] == ps;
    }

    /** One cell update of `create_row`: the cell takes its new value, if
        any, and the sum row the difference. */
    method Apply(cells: map<string, int>, u: Update, evaluate: string -> string) returns (cells': map<string, int>)
      modifies this
      ensures cells' == StepCells(cells, u)
      ensures sumRow == StepSums(old(sumRow), sumRowPatterns, cells, u, evaluate)
      ensures rows == old(rows) && sumRowPos == old(sumRowPos) && sumRowPatterns == old(sumRowPatterns)
      ensures numberFormat == old(numberFormat) && dateFormat == old(dateFormat)
    {
      cells' := cells;
      var previous := Cell(cells, u.column);
      var value := u.apply(previous);
      if value.Some? {
        cells' := cells[u.column := value.value];
        AddToSumRow(value.value - previous, u.column, evaluate);
      }
    }

    /** The update loop of `create_row` from the cells `start`. */
    method ApplyAll(start: map<string, int>, us: seq<Update>, evaluate: string -> string) returns (cells: map<string, int>)
      modifies this
      ensures cells == CellsAfter(start, us)
      ensures sumRow == SumsAfter(old(sumRow), sumRowPatterns, start, us, evaluate)
      ensures rows == old(rows) && sumRowPos == old(sumRowPos) && sumRowPatterns == old(sumRowPatterns)
      ensures numberFormat == old(numberFormat) && dateFormat == old(dateFormat)
    {
      cells := start;
      ghost var sums0 := sumRow;
      ghost var ps := sumRowPatterns;
      var i := 0;
      while i < |us|
        invariant 0 <= i <= |us|
        invariant cells == CellsAfter(start, us[..i])
        invariant sumRow == SumsAfter(sums0, ps, start, us[..i], evaluate)
        invariant rows == old(rows) && sumRowPos == old(sumRowPos) && sumRowPatterns == ps
        invariant numberFormat == old(numberFormat) && dateFormat == old(dateFormat)
      {
        cells := Apply(cells, us[i], evaluate);
        assert cells == CellsAfter(start, us[..i + 1]) && sumRow == SumsAfter(sums0, ps, start, us[..i + 1], evaluate) by {
          AfterStep(sums0, ps, start, us, i, evaluate);
        }
        i := i + 1;
      }
      assert us[..i] == us;
    }

    /** `create_row(key, line)`: the row of `key`, created with every cell 0
        on first sight, takes each update in turn, and the sum row follows. */
    method CreateRow(key: seq<string>, us: seq<Update>, evaluate: string -> string)
      modifies this
      requires Valid()
      ensures Valid()
      ensures Tab(sumRow, rows) == CreateRowOf(old(Tab(sumRow, rows)), sumRowPatterns, key, us, evaluate)
      ensures sumRowPos == old(sumRowPos) && sumRowPatterns == old(sumRowPatterns)
      ensures numberFormat == old(numberFormat) && dateFormat == old(dateFormat)
    {
      var start := if key in rows.values then rows.values[key].cols else map[];
      var cells := ApplyAll(start, us, evaluate);
      PutValid(rows, key, Row(key, cells));
      rows := Put(rows, key, Row(key, cells));
    }

    /** The reading loop of `create_table_data`, given the lines of the
        input file. */
    method CreateTableData(rowFilter: Selector, env: Env, entryOf: string -> Entry, lines: seq<string>)
      modifies this
      requires Valid()
      ensures Valid()
      ensures Tab(sumRow, rows) == Tabulated(old(Tab(sumRow, rows)), sumRowPatterns, Scanned(rowFilter, env, entryOf, lines, |lines|).entries)
      ensures sumRowPos == old(sumRowPos) && sumRowPatterns == old(sumRowPatterns)
      ensures numberFormat == old(numberFormat) && dateFormat == old(dateFormat)
    {
      var processedHeader := false;
      ghost var t0 := Tab(sumRow, rows);
      ghost var es: seq<Entry> := [];
      var index := 0;
      while index < |lines|
        invariant 0 <= index <= |lines| && Valid()
        invariant Scanned(rowFilter, env, entryOf, lines, index) == Scan(processedHeader, es)
        invariant Tab(sumRow, rows) == Tabulated(t0, sumRowPatterns, es)
        invariant sumRowPos == old(sumRowPos) && sumRowPatterns == old(sumRowPatterns)
        invariant numberFormat == old(numberFormat) && dateFormat == old(dateFormat)
      {
        ScanStep(rowFilter, env, entryOf, lines, index);
        var line := Chomp(lines[index]);
        if line != "" {
          line := Chomp(env.unstring(line));
          if !processedHeader {
            processedHeader := true;
          } else {
            var kept := RowFilter.Process(rowFilter, env, line, index);
            if kept.Some? {
              var e := entryOf(line);
              TabulatedStep(t0, sumRowPatterns, es, e);
              CreateRow(e.key, e.updates, e.evaluate);
              es := es + [e];
            }
          }
        }
        index := index + 1;
      }
    }

    /** `write_to_file`, given the header line and the header columns that
        the header object (not part of this model) provides. */
    method WriteToFile(headerLine: string, headerCols: seq<string>) returns (out: seq<string>)
      requires Valid()
      ensures out == Written(sumRowPos, Tab(sumRow, rows), headerLine, headerCols)
    {
      out := [headerLine];
      if sumRowPos == Some("TOP") {
        out := out + [SumLine(sumRow, headerCols)];
      }
      ghost var top := out;
      var j := 0;
      while j < |rows.keys|
        invariant 0 <= j <= |rows.keys|
        invariant out == top + RowLines(rows, headerCols)[..j]
      {
        assert RowLines(rows, headerCols)[..j + 1] == RowLines(rows, headerCols)[..j] + [RowLine(rows.values[rows.keys[j]], headerCols)];
        out := out + [RowLine(rows.values[rows.keys[j]], headerCols)];
        j := j + 1;
      }
      assert RowLines(rows, headerCols)[..j] == RowLines(rows, headerCols);
      if sumRowPos == Some("EOF") {
        out := out + [SumLine(sumRow, headerCols)];
      }
    }
  }

  // ---------------------------------------------------------------------------
  // Properties

  /** A sum row at the top comes right after the header; at the end, after
      the last row; without a sum option there is none. */
  lemma SumRowPlacement(pos: Option<string>, t: Tab, headerLine: string, headerCols: seq<string>)
    requires Valid(t.rows)
    ensures var w := Written(pos, t, headerLine, headerCols);
      var n := |t.rows.keys|;
      var rs := RowLines(t.rows, headerCols);
      w[0] == headerLine &&
      (pos == Some("TOP") ==> |w| == n + 2 && w[1] == SumLine(t.sumRow, headerCols) && w[2..] == rs) &&
      (pos == Some("EOF") ==> |w| == n + 2 && w[1..n + 1] == rs && w[n + 1] == SumLine(t.sumRow, headerCols)) &&
      (pos != Some("TOP") && pos != Some("EOF") ==> w == [headerLine] + rs)
  {
  }

  /** A nil or empty sum option writes no sum row. */
  lemma NoSumOptionNoSumRow(env: Env, pattern: Option<string>, t: Tab, headerLine: string, headerCols: seq<string>)
    requires Valid(t.rows) && (pattern.None? || pattern.value == "")
    ensures Written(PrepareSum(env, pattern).pos, t, headerLine, headerCols) == [headerLine] + RowLines(t.rows, headerCols)
  {
  }

  /** Without sum patterns the updates leave the sum row alone. */
  lemma {:induction false} NoPatternsNoSums(sums: map<string, int>, start: map<string, int>, us: seq<Update>, evaluate: string -> string)
    ensures SumsAfter(sums, None, start, us, evaluate) == sums
  {
    if |us| > 0 {
      NoPatternsNoSums(sums, start, us[..|us| - 1], evaluate);
    }
  }

  /** Patterns that are not evaluated. */
  predicate Literal(ps: seq<string>)
  {
    forall i :: 0 <= i < |ps| ==> !IsDynamic(ps[i])
  }

  /** With literal patterns, adding `value` in `column` adds it once per
      pattern naming the column, and nothing elsewhere. */
  lemma {:induction false} AddedLiteral(sums: map<string, int>, ps: seq<string>, value: int, column: string, evaluate: string -> string, c: string)
    requires Literal(ps)
    ensures Cell(AddedToSums(sums, ps, value, column, evaluate), c) == Cell(sums, c) + (if c == column then Count(ps, c) * value else 0)
  {
    if |ps| > 0 {
      var init := ps[..|ps| - 1];
      assert Literal(init);
      AddedLiteral(sums, init, value, column, evaluate, c);
      var k := Count(init, c);
      var b := if ps[|ps| - 1] == c then 1 else 0;
      assert (k + b) * value == k * value + b * value;
    }
  }

  /** Adding a value in `column` changes no other entry of the sum row,
      dynamic patterns or not, and adds no other entry. */
  lemma {:induction false} AddedOtherColumns(sums: map<string, int>, ps: seq<string>, value: int, column: string, evaluate: string -> string, c: string)
    requires c != column
    ensures var r := AddedToSums(sums, ps, value, column, evaluate);
      Cell(r, c) == Cell(sums, c) && (c in r <==> c in sums)
  {
    if |ps| > 0 {
      AddedOtherColumns(sums, ps[..|ps| - 1], value, column, evaluate, c);
    }
  }

  /** Dynamic patterns are the ones with a line that starts with a column
      reference followed by an operator. */
  lemma DynamicPatterns()
    ensures IsDynamic("c1+c2") && IsDynamic("(c12=~/x/)") && IsDynamic("c0.to_s")
    ensures !IsDynamic("Value") && !IsDynamic("c") && !IsDynamic("c1") && !IsDynamic("n1+n2")
    ensures IsDynamic("c1\nc2+c3")
  {
    assert DigitsThenOperator("+c2");
    assert DigitsThenOperator("2=~/x/)");
    assert DigitsThenOperator(".to_s");
    OneLineDynamic("c1+c2");
    OneLineDynamic("(c12=~/x/)");
    OneLineDynamic("c0.to_s");
    OneLineDynamic("Value");
    OneLineDynamic("c");
    OneLineDynamic("c1");
    OneLineDynamic("n1+n2");
    assert LineStart("c1\nc2+c3", 3) && "c1\nc2+c3"[3..] == "c2+c3";
    assert DigitsThenOperator("+c3");
  }

  /** The total of one column over the rows with keys `ks`. */
  function SumOver(ks: seq<seq<string>>, vs: map<seq<string>, Row>, c: string): int
  {
    if |ks| == 0 then 0
    else SumOver(ks[..|ks| - 1], vs, c) + (if ks[|ks| - 1] in vs then Cell(vs[ks[|ks| - 1]].cols, c) else 0)
  }

  /** The total of one column over all rows. */
  function ColumnSum(d: Dict<seq<string>, Row>, c: string): int
  {
    SumOver(d.keys, d.values, c)
  }

  lemma {:induction false} SumOverFrame(ks: seq<seq<string>>, vs: map<seq<string>, Row>, k: seq<string>, r: Row, c: string)
    requires k !in ks
    ensures SumOver(ks, vs[k := r], c) == SumOver(ks, vs, c)
  {
    if |ks| > 0 {
      SumOverFrame(ks[..|ks| - 1], vs, k, r, c);
    }
  }

  lemma {:induction false} SumOverUpdate(ks: seq<seq<string>>, vs: map<seq<string>, Row>, k: seq<string>, r: Row, c: string)
    requires NoDuplicates(ks) && k in ks && k in vs
    ensures SumOver(ks, vs[k := r], c) == SumOver(ks, vs, c) - Cell(vs[k].cols, c) + Cell(r.cols, c)
  {
    var init := ks[..|ks| - 1];
    assert NoDuplicates(init);
    if ks[|ks| - 1] == k {
      assert k !in init;
      SumOverFrame(init, vs, k, r, c);
    } else {
      assert k in init;
      SumOverUpdate(init, vs, k, r, c);
    }
  }

  /** Putting a row changes each column total by the change of its cell. */
  lemma ColumnSumPut(d: Dict<seq<string>, Row>, k: seq<string>, r: Row, c: string)
    requires Valid(d)
    ensures ColumnSum(Put(d, k, r), c) == ColumnSum(d, c) - (if k in d.values then Cell(d.values[k].cols, c) else 0) + Cell(r.cols, c)
  {
    if k in d.values {
      SumOverUpdate(d.keys, d.values, k, r, c);
    } else {
      SumOverFrame(d.keys, d.values, k, r, c);
      assert (d.keys + [k])[..|d.keys|] == d.keys;
    }
  }

  /** Every entry of the sum row is the total of its column over the rows,
      once per pattern naming the column. */
  ghost predicate SumsAgree(t: Tab, ps: seq<string>)
  {
    forall c :: Cell(t.sumRow, c) == Count(ps, c) * ColumnSum(t.rows, c)
  }

  /** One update of a row keeps the sum row in agreement. */
  lemma UpdateAgrees(t: Tab, ps: seq<string>, key: seq<string>, cells: map<string, int>, column: string, v: int, evaluate: string -> string)
    requires Literal(ps) && Valid(t.rows) && key in t.rows.values && t.rows.values[key].cols == cells
    requires SumsAgree(t, ps)
    ensures SumsAgree(Tab(AddedToSums(t.sumRow, ps, v - Cell(cells, column), column, evaluate),
                          Put(t.rows, key, Row(key, cells[column := v]))), ps)
  {
    var delta := v - Cell(cells, column);
    var sums' := AddedToSums(t.sumRow, ps, delta, column, evaluate);
    var rows' := Put(t.rows, key, Row(key, cells[column := v]));
    forall c ensures Cell(sums', c) == Count(ps, c) * ColumnSum(rows', c) {
      AddedLiteral(t.sumRow, ps, delta, column, evaluate, c);
      ColumnSumPut(t.rows, key, Row(key, cells[column := v]), c);
      if c == column {
        assert Count(ps, c) * (ColumnSum(t.rows, c) + delta) == Count(ps, c) * ColumnSum(t.rows, c) + Count(ps, c) * delta;
      }
    }
  }

  /** A second insertion under a key replaces the first. */
  lemma PutPut<K, V>(d: Dict<K, V>, k: K, a: V, b: V)
    ensures Put(Put(d, k, a), k, b) == Put(d, k, b)
  {
  }

  /** Inserting a row's own cells changes no total. */
  lemma CreatedRowAgrees(t: Tab, ps: seq<string>, key: seq<string>)
    requires Valid(t.rows) && SumsAgree(t, ps)
    ensures SumsAgree(Tab(t.sumRow, Put(t.rows, key, Row(key, StartCells(t.rows, key)))), ps)
  {
    var rows' := Put(t.rows, key, Row(key, StartCells(t.rows, key)));
    forall c ensures Cell(t.sumRow, c) == Count(ps, c) * ColumnSum(rows', c) {
      ColumnSumPut(t.rows, key, Row(key, StartCells(t.rows, key)), c);
    }
  }

  /** For literal patterns, `create_row` keeps every sum-row entry equal to
      its column's total over all rows: each update adds the new value
      less the previous one, so the changes add up to the final cells. */
  lemma {:induction false} CreateRowAgrees(t: Tab, ps: seq<string>, key: seq<string>, us: seq<Update>, evaluate: string -> string)
    requires Literal(ps) && Valid(t.rows) && SumsAgree(t, ps)
    ensures SumsAgree(CreateRowOf(t, Some(ps), key, us, evaluate), ps)
    ensures Valid(CreateRowOf(t, Some(ps), key, us, evaluate).rows)
  {
    var start := StartCells(t.rows, key);
    PutValid(t.rows, key, Row(key, CellsAfter(start, us)));
    if |us| == 0 {
      CreatedRowAgrees(t, ps, key);
    } else {
      CreateRowAgrees(t, ps, key, us[..|us| - 1], evaluate);
      CreateRowStep(t, ps, key, us, evaluate);
    }
  }

  /** The last update of `create_row` keeps the agreement. */
  lemma CreateRowStep(t: Tab, ps: seq<string>, key: seq<string>, us: seq<Update>, evaluate: string -> string)
    requires Literal(ps) && Valid(t.rows) && |us| > 0
    requires SumsAgree(CreateRowOf(t, Some(ps), key, us[..|us| - 1], evaluate), ps)
    ensures SumsAgree(CreateRowOf(t, Some(ps), key, us, evaluate), ps)
  {
    var start := StartCells(t.rows, key);
    var init := us[..|us| - 1];
    var u := us[|us| - 1];
    var mid := CreateRowOf(t, Some(ps), key, init, evaluate);
    var cells := CellsAfter(start, init);
    var v := NewValue(cells, u);
    PutValid(t.rows, key, Row(key, cells));
    if v.Some? {
      UpdateAgrees(mid, ps, key, cells, u.column, v.value, evaluate);
      PutPut(t.rows, key, Row(key, cells), Row(key, cells[u.column := v.value]));
    }
  }

  /** The keys of the entries. */
  function KeysOf(es: seq<Entry>): (r: seq<seq<string>>)
    ensures |r| == |es| && forall i :: 0 <= i < |es| ==> r[i] == es[i].key
  {
    seq(|es|, i requires 0 <= i < |es| => es[i].key)
  }

  /** A row is created once per distinct key, on first sight: the rows are
      enumerated in order of their keys' first appearance, and a literal
      sum pattern's entry is the total of its column's final cells. */
  lemma {:induction false} TabulatedMeans(ps: seq<string>, es: seq<Entry>)
    requires Literal(ps)
    ensures var t := Tabulated(Tab(map[], Empty()), Some(ps), es);
      Valid(t.rows) && t.rows.keys == Uniq(KeysOf(es)) &&
      (forall k :: k in t.rows.values <==> k in KeysOf(es)) &&
      SumsAgree(t, ps)
  {
    if |es| == 0 {
      assert SumsAgree(Tab(map[], Empty()), ps);
    } else {
      var init := es[..|es| - 1];
      var e := es[|es| - 1];
      TabulatedMeans(ps, init);
      var t := Tabulated(Tab(map[], Empty()), Some(ps), init);
      CreateRowAgrees(t, ps, e.key, e.updates, e.evaluate);
      assert KeysOf(es) == KeysOf(init) + [e.key];
      PutKeys(t.rows, KeysOf(init), e.key, Row(e.key, CellsAfter(StartCells(t.rows, e.key), e.updates)));
    }
  }

  /** One line of `create_table_data`. */
  lemma ScanStep(rows: Selector, env: Env, entryOf: string -> Entry, lines: seq<string>, n: nat)
    requires n < |lines|
    ensures var prev := Scanned(rows, env, entryOf, lines, n);
      var line := Unstrung(env, lines, n);
      Scanned(rows, env, entryOf, lines, n + 1) ==
        if Chomp(lines[n]) == "" then prev
        else if !prev.processedHeader then Scan(true, prev.entries)
        else if RowFilter.Keeps(rows, env, line, n) then Scan(true, prev.entries + [entryOf(line)])
        else prev
  {
  }

  /** Empty lines are skipped and the first other line is the header: it
      never becomes a row. */
  lemma {:induction false} HeaderLineSkipped(rows: Selector, env: Env, entryOf: string -> Entry, lines: seq<string>, i: nat)
    requires i < |lines| && Chomp(lines[i]) != ""
    requires forall j :: 0 <= j < i ==> Chomp(lines[j]) == ""
    ensures Scanned(rows, env, entryOf, lines, i + 1) == Scan(true, [])
  {
    EmptyPrefix(rows, env, entryOf, lines, i);
  }

  lemma {:induction false} EmptyPrefix(rows: Selector, env: Env, entryOf: string -> Entry, lines: seq<string>, n: nat)
    requires n <= |lines| && forall j :: 0 <= j < n ==> Chomp(lines[j]) == ""
    ensures Scanned(rows, env, entryOf, lines, n) == Scan(false, [])
  {
    if n > 0 {
      EmptyPrefix(rows, env, entryOf, lines, n - 1);
    }
  }

  /** After the header, every line the row filter keeps adds its entry and
      any other line adds nothing. */
  lemma ScannedAfterHeader(rows: Selector, env: Env, entryOf: string -> Entry, lines: seq<string>, n: nat)
    requires n < |lines| && Scanned(rows, env, entryOf, lines, n).processedHeader
    ensures var prev := Scanned(rows, env, entryOf, lines, n).entries;
      var line := Unstrung(env, lines, n);
      Scanned(rows, env, entryOf, lines, n + 1).entries ==
        if Chomp(lines[n]) != "" && RowFilter.Keeps(rows, env, line, n) then prev + [entryOf(line)] else prev
  {
  }
}
