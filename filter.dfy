/** The clause classifier of lib/sycsvpro/filter.rb: a comma-separated
    filter string is a list of clauses, and each clause is dispatched by its
    shape to greater, less, equal, range or pattern. */
module Filter {
  import opened Wrappers
  import opened Text

  /** The five clause kinds with what their regular expressions capture. */
  datatype Clause =
    | Greater(n: string)
    | Less(n: string)
    | Equal(n: string)
    | Range(lo: string, hi: string)
    | Pattern(body: string)

  /** `\d+`: one or more decimal digits. */
  predicate AllDigits(s: string)
  {
    |s| > 0 && forall i :: 0 <= i < |s| ==> IsDigit(s[i])
  }

  // The five shapes of one line, each as its regular expression describes
  // it. None of `>`, `<`, `-`, `/`, `\d` or `.` matches a line break.

  /** `^>(\d+)$` */
  predicate IsGreater(id: string)
  {
    |id| > 0 && id[0] == '>' && AllDigits(id[1..])
  }

  /** `^<(\d+)$` */
  predicate IsLess(id: string)
  {
    |id| > 0 && id[0] == '<' && AllDigits(id[1..])
  }

  /** `^(\d+)$` */
  predicate IsEqual(id: string)
  {
    AllDigits(id)
  }

  /** `^(\d+)-(\d+)$`, with the dash at `k`. */
  predicate IsRangeAt(id: string, k: int)
  {
    0 <= k < |id| && id[k] == '-' && AllDigits(id[..k]) && AllDigits(id[k + 1..])
  }

  predicate IsRange(id: string)
  {
    exists k :: 0 <= k < |id| && IsRangeAt(id, k)
  }

  /** `^\/(.*)\/$` */
  predicate IsPattern(id: string)
  {
    |id| >= 2 && id[0] == '/' && id[|id| - 1] == '/'
  }

  /** The lines of a clause. Ruby's `^` and `$` anchor at every line break,
      so an expression matches a clause where it matches one of its lines. */
  function Lines(id: string): seq<string>
  {
    SplitAll(id, '\n')
  }

  /** The five shapes, in the order `method_missing` tests them. */
  datatype Shape = GreaterShape | LessShape | EqualShape | RangeShape | PatternShape

  predicate Has(shape: Shape, line: string)
  {
    match shape
    case GreaterShape => IsGreater(line)
    case LessShape => IsLess(line)
    case EqualShape => IsEqual(line)
    case RangeShape => IsRange(line)
    case PatternShape => IsPattern(line)
  }

  /** Some line of `ls` has the shape. */
  predicate AnyLine(ls: seq<string>, shape: Shape)
  {
    exists i :: 0 <= i < |ls| && Has(shape, ls[i])
  }

  /** Line `i` is the first line of `ls` with the shape: the match `=~`
      finds, since it tries the line starts from left to right. */
  predicate FirstLine(ls: seq<string>, shape: Shape, i: int)
  {
    0 <= i < |ls| && Has(shape, ls[i]) && forall j :: 0 <= j < i ==> !Has(shape, ls[j])
  }

  /** The index of the first line of `ls` with the shape. */
  function FirstOf(ls: seq<string>, shape: Shape): (r: Option<nat>)
    ensures r.Some? <==> AnyLine(ls, shape)
    ensures r.Some? ==> FirstLine(ls, shape, r.value)
  {
    if |ls| == 0 then None
    else if Has(shape, ls[0]) then Some(0)
    else
      var r := FirstOf(ls[1..], shape);
      assert forall i :: 0 < i < |ls| ==> ls[i] == ls[1..][i - 1];
      if r.Some? then Some(r.value + 1) else None
  }

  /** What `^(\d+)-(\d+)$` captures on a line of that shape. */
  function RangeOf(line: string): Option<Clause>
  {
    var dash := IndexOf(line, '-');
    if dash.Some? then Some(Range(line[..dash.value], line[dash.value + 1..])) else None
  }

  /** `method_missing`: the tests in source order, each on the whole clause;
      None is the fall-through to `super`, which raises NoMethodError. */
  function Classify(id: string): Option<Clause>
  {
    ClassifyLines(Lines(id))
  }

  /** The tests on the lines of a clause. */
  function ClassifyLines(ls: seq<string>): Option<Clause>
  {
    var g := FirstOf(ls, GreaterShape);
    var l := FirstOf(ls, LessShape);
    var e := FirstOf(ls, EqualShape);
    var d := FirstOf(ls, RangeShape);
    var p := FirstOf(ls, PatternShape);
    if g.Some? then Some(Greater(ls[g.value][1..]))
    else if l.Some? then Some(Less(ls[l.value][1..]))
    else if e.Some? then Some(Equal(ls[e.value]))
    else if d.Some? then RangeOf(ls[d.value])
    else if p.Some? then Some(Pattern(ls[p.value][1..|ls[p.value]| - 1]))
    else None
  }

  /** No line has two shapes, so on a clause of one line the order of the
      tests is immaterial. */
  lemma ShapesExclusive(id: string)
    ensures IsGreater(id) ==> !IsLess(id) && !IsEqual(id) && !IsRange(id) && !IsPattern(id)
    ensures IsLess(id) ==> !IsEqual(id) && !IsRange(id) && !IsPattern(id)
    ensures IsEqual(id) ==> !IsRange(id) && !IsPattern(id)
    ensures IsRange(id) ==> !IsPattern(id)
  {
    if IsRange(id) {
      var k :| 0 <= k < |id| && IsRangeAt(id, k);
      assert id[..k][0] == id[0];
      assert IsDigit(id[0]);
      assert !IsDigit(id[k]);
    }
  }

  lemma RangeDash(id: string, k: int)
    requires IsRangeAt(id, k)
    ensures IndexOf(id, '-') == Some(k)
    ensures RangeOf(id) == Some(Range(id[..k], id[k + 1..]))
  {
    assert id[k] == '-';
  }

  /** On the lines `ls` of a clause, the first test that matches some line
      decides, and its captures come from the first line it matches; a
      clause none of whose lines has a shape raises. */
  lemma ClassifyByShape(ls: seq<string>)
    ensures forall i :: FirstLine(ls, GreaterShape, i) ==> ClassifyLines(ls) == Some(Greater(ls[i][1..]))
    ensures forall i :: !AnyLine(ls, GreaterShape) && FirstLine(ls, LessShape, i) ==>
      ClassifyLines(ls) == Some(Less(ls[i][1..]))
    ensures forall i :: !AnyLine(ls, GreaterShape) && !AnyLine(ls, LessShape) && FirstLine(ls, EqualShape, i) ==>
      ClassifyLines(ls) == Some(Equal(ls[i]))
    ensures forall i, k :: (!AnyLine(ls, GreaterShape) && !AnyLine(ls, LessShape) && !AnyLine(ls, EqualShape) &&
      FirstLine(ls, RangeShape, i) && IsRangeAt(ls[i], k)) ==>
      ClassifyLines(ls) == Some(Range(ls[i][..k], ls[i][k + 1..]))
    ensures forall i :: (!AnyLine(ls, GreaterShape) && !AnyLine(ls, LessShape) && !AnyLine(ls, EqualShape) &&
      !AnyLine(ls, RangeShape) && FirstLine(ls, PatternShape, i)) ==>
      ClassifyLines(ls) == Some(Pattern(ls[i][1..|ls[i]| - 1]))
    ensures ClassifyLines(ls).None? <==>
      !AnyLine(ls, GreaterShape) && !AnyLine(ls, LessShape) && !AnyLine(ls, EqualShape) &&
      !AnyLine(ls, RangeShape) && !AnyLine(ls, PatternShape)
  {
    ClassifyGreater(ls);
    ClassifyLess(ls);
    ClassifyEqual(ls);
    ClassifyRanges(ls);
    ClassifyPattern(ls);
    ClassifyLinesNone(ls);
  }

  lemma ClassifyGreater(ls: seq<string>)
    ensures forall i :: FirstLine(ls, GreaterShape, i) ==> ClassifyLines(ls) == Some(Greater(ls[i][1..]))
  {
    forall i | FirstLine(ls, GreaterShape, i) ensures ClassifyLines(ls) == Some(Greater(ls[i][1..])) {
      FirstLineUnique(ls, GreaterShape, i);
    }
  }

  lemma ClassifyLess(ls: seq<string>)
    ensures forall i :: !AnyLine(ls, GreaterShape) && FirstLine(ls, LessShape, i) ==>
      ClassifyLines(ls) == Some(Less(ls[i][1..]))
  {
    forall i | !AnyLine(ls, GreaterShape) && FirstLine(ls, LessShape, i)
      ensures ClassifyLines(ls) == Some(Less(ls[i][1..]))
    {
      FirstLineUnique(ls, LessShape, i);
    }
  }

  lemma ClassifyEqual(ls: seq<string>)
    ensures forall i :: !AnyLine(ls, GreaterShape) && !AnyLine(ls, LessShape) && FirstLine(ls, EqualShape, i) ==>
      ClassifyLines(ls) == Some(Equal(ls[i]))
  {
    forall i | !AnyLine(ls, GreaterShape) && !AnyLine(ls, LessShape) && FirstLine(ls, EqualShape, i)
      ensures ClassifyLines(ls) == Some(Equal(ls[i]))
    {
      FirstLineUnique(ls, EqualShape, i);
    }
  }

  lemma ClassifyRanges(ls: seq<string>)
    ensures forall i, k :: (!AnyLine(ls, GreaterShape) && !AnyLine(ls, LessShape) && !AnyLine(ls, EqualShape) &&
      FirstLine(ls, RangeShape, i) && IsRangeAt(ls[i], k)) ==>
      ClassifyLines(ls) == Some(Range(ls[i][..k], ls[i][k + 1..]))
  {
    forall i, k | !AnyLine(ls, GreaterShape) && !AnyLine(ls, LessShape) && !AnyLine(ls, EqualShape) &&
        FirstLine(ls, RangeShape, i) && IsRangeAt(ls[i], k)
      ensures ClassifyLines(ls) == Some(Range(ls[i][..k], ls[i][k + 1..]))
    {
      ClassifyRange(ls, i, k);
    }
  }

  lemma ClassifyPattern(ls: seq<string>)
    ensures forall i :: (!AnyLine(ls, GreaterShape) && !AnyLine(ls, LessShape) && !AnyLine(ls, EqualShape) &&
      !AnyLine(ls, RangeShape) && FirstLine(ls, PatternShape, i)) ==>
      ClassifyLines(ls) == Some(Pattern(ls[i][1..|ls[i]| - 1]))
  {
    forall i | !AnyLine(ls, GreaterShape) && !AnyLine(ls, LessShape) && !AnyLine(ls, EqualShape) &&
        !AnyLine(ls, RangeShape) && FirstLine(ls, PatternShape, i)
      ensures ClassifyLines(ls) == Some(Pattern(ls[i][1..|ls[i]| - 1]))
    {
      FirstLineUnique(ls, PatternShape, i);
    }
  }

  lemma ClassifyLinesNone(ls: seq<string>)
    ensures ClassifyLines(ls).None? <==>
      !AnyLine(ls, GreaterShape) && !AnyLine(ls, LessShape) && !AnyLine(ls, EqualShape) &&
      !AnyLine(ls, RangeShape) && !AnyLine(ls, PatternShape)
  {
    var d := FirstOf(ls, RangeShape);
    if d.Some? {
      var k :| 0 <= k < |ls[d.value]| && IsRangeAt(ls[d.value], k);
      RangeDash(ls[d.value], k);
    }
  }

  lemma ClassifyRange(ls: seq<string>, i: int, k: int)
    requires !AnyLine(ls, GreaterShape) && !AnyLine(ls, LessShape) && !AnyLine(ls, EqualShape)
    requires FirstLine(ls, RangeShape, i) && IsRangeAt(ls[i], k)
    ensures ClassifyLines(ls) == Some(Range(ls[i][..k], ls[i][k + 1..]))
  {
    FirstLineUnique(ls, RangeShape, i);
    RangeDash(ls[i], k);
  }

  /** Only one line is the first of a shape. */
  lemma FirstLineUnique(ls: seq<string>, shape: Shape, i: int)
    requires FirstLine(ls, shape, i)
    ensures FirstOf(ls, shape) == Some(i)
  {
  }

  /** A clause without a line break is its only line, so each shape
      classifies as its kind with what its expression captures. */
  lemma ClassifyOneLine(id: string)
    requires '\n' !in id
    ensures IsGreater(id) ==> Classify(id) == Some(Greater(id[1..]))
    ensures IsLess(id) ==> Classify(id) == Some(Less(id[1..]))
    ensures IsEqual(id) ==> Classify(id) == Some(Equal(id))
    ensures forall k :: IsRangeAt(id, k) ==> Classify(id) == Some(Range(id[..k], id[k + 1..]))
    ensures IsPattern(id) ==> Classify(id) == Some(Pattern(id[1..|id| - 1]))
    ensures Classify(id).None? <==> !IsGreater(id) && !IsLess(id) && !IsEqual(id) && !IsRange(id) && !IsPattern(id)
  {
    SplitAllNoSep(id, '\n');
    assert Lines(id) == [id];
    ShapesExclusive(id);
    ClassifyByShape([id]);
    assert forall shape: Shape :: Has(shape, id) ==> FirstLine([id], shape, 0);
  }

  /** The anchors match at line breaks: "5\n" is an equal clause, */
  lemma EqualBeforeBreak()
    ensures Classify("5\n") == Some(Equal("5"))
  {
    assert !IsGreater("5") && !IsLess("5") && IsEqual("5");
    TwoLines("5", "");
    assert "5\n" == "5" + "\n" + "";
    ClassifyByShape(["5", ""]);
    assert FirstLine(["5", ""], EqualShape, 0);
  }

  /** and so is "x\n5", */
  lemma EqualAfterBreak()
    ensures Classify("x\n5") == Some(Equal("5"))
  {
    assert !IsGreater("5") && !IsLess("5") && IsEqual("5");
    assert !IsGreater("x") && !IsLess("x") && !IsEqual("x");
    TwoLines("x", "5");
    assert "x\n5" == "x" + "\n" + "5";
    ClassifyByShape(["x", "5"]);
    assert FirstLine(["x", "5"], EqualShape, 1);
  }

  /** while in "5\n>3" the greater test, which comes first, wins. */
  lemma GreaterTestedFirst()
    ensures Classify("5\n>3") == Some(Greater("3"))
  {
    assert !IsGreater("5");
    assert IsGreater(">3") && ">3"[1..] == "3";
    TwoLines("5", ">3");
    assert "5\n>3" == "5" + "\n" + ">3";
    ClassifyByShape(["5", ">3"]);
    assert FirstLine(["5", ">3"], GreaterShape, 1);
  }

  lemma TwoLines(a: string, b: string)
    requires '\n' !in a && '\n' !in b
    ensures Lines(a + "\n" + b) == [a, b]
  {
    SplitAllAfterField(a, b, '\n');
    SplitAllNoSep(b, '\n');
  }

  /** The body of a pattern runs from the first to the last slash. */
  lemma PatternIsGreedy()
    ensures Classify("/a/b/") == Some(Pattern("a/b"))
  {
    ClassifyOneLine("/a/b/");
    assert !IsDigit('/');
    assert "/a/b/"[0] == '/';
    assert "/a/b/"[1..4] == "a/b";
  }

  /** The text `method_missing` returns for a clause, where `args` is the
      rendering of the argument list. */
  function Render(c: Clause, args: string): string
  {
    match c
    case Greater(n) => "greater(" + n + ", " + args + ", block)"
    case Less(n) => "less(" + n + ", " + args + ", block)"
    case Equal(n) => "equal(" + n + ", " + args + ", block)"
    case Range(lo, hi) => "range(" + lo + ", " + hi + ", " + args + ", block)"
    case Pattern(b) => "pattern(" + b + ", " + args + ", block)"
  }

  /** The error NoMethodError reports for an unknown clause. */
  function NoMethod(id: string): string
  {
    "undefined method '" + id + "'"
  }

  /** The methods a filter object has, by name: those of Filter (`max?`,
      `process`, `filter`) and those every Ruby object has (`p`, `puts`,
      `==`, ...). `own(f, values)` is the outcome of calling the method
      named `f` with `values`, written as text, or None when there is no
      method of that name. */
  type Methods = (string, seq<string>) -> Option<Result<string>>

  /** `send(f, values)`: a method of that name is called; any other name
      reaches `method_missing`, which renders a clause of known shape and
      raises otherwise. */
  function Send(f: string, values: seq<string>, args: string, own: Methods): Result<string>
  {
    var called := own(f, values);
    if called.Some? then called.value
    else
      var c := Classify(f);
      if c.Some? then Ok(Render(c.value, args)) else Err(NoMethod(f))
  }

  /** A clause without line breaks that names no method gives the rendering
      of its shape, and an error exactly when it has none of the five. */
  lemma SendOneLine(f: string, values: seq<string>, args: string, own: Methods)
    requires '\n' !in f && own(f, values).None?
    ensures IsGreater(f) ==> Send(f, values, args, own) == Ok("greater(" + f[1..] + ", " + args + ", block)")
    ensures IsLess(f) ==> Send(f, values, args, own) == Ok("less(" + f[1..] + ", " + args + ", block)")
    ensures IsEqual(f) ==> Send(f, values, args, own) == Ok("equal(" + f + ", " + args + ", block)")
    ensures forall k :: IsRangeAt(f, k) ==>
      Send(f, values, args, own) == Ok("range(" + f[..k] + ", " + f[k + 1..] + ", " + args + ", block)")
    ensures IsPattern(f) ==> Send(f, values, args, own) == Ok("pattern(" + f[1..|f| - 1] + ", " + args + ", block)")
    ensures Send(f, values, args, own).Err? <==>
      !IsGreater(f) && !IsLess(f) && !IsEqual(f) && !IsRange(f) && !IsPattern(f)
  {
    ClassifyOneLine(f);
  }

  /** `k` is the first clause of `cs` whose call fails. */
  predicate FirstFailure(cs: seq<string>, values: seq<string>, args: string, own: Methods, k: int)
  {
    0 <= k < |cs| && Send(cs[k], values, args, own).Err? &&
    forall i :: 0 <= i < k ==> Send(cs[i], values, args, own).Ok?
  }

  /** `Filter#process`: one result per comma-separated clause, in clause
      order, or the error of the first clause whose call fails. `inspect`
      renders the argument list `[values]`. */
  method Process(filter: string, line: string, inspect: seq<string> -> string, own: Methods) returns (r: Result<seq<string>>)
    ensures var cs, values := Split(filter, ','), Split(line, Sep);
      r.Ok? <==> forall i :: 0 <= i < |cs| ==> Send(cs[i], values, inspect(values), own).Ok?
    ensures var cs, values := Split(filter, ','), Split(line, Sep);
      r.Ok? ==> (|r.value| == |cs| &&
        forall i :: 0 <= i < |cs| ==> r.value[i] == Send(cs[i], values, inspect(values), own).value)
    ensures var cs, values := Split(filter, ','), Split(line, Sep);
      r.Err? ==> exists k :: (FirstFailure(cs, values, inspect(values), own, k) &&
        r.msg == Send(cs[k], values, inspect(values), own).msg)
  {
    var values := Split(line, Sep);
    var args := inspect(values);
    var cs := Split(filter, ',');
    var filtered: seq<string> := [];
    var i := 0;
    while i < |cs|
      invariant 0 <= i <= |cs|
      invariant |filtered| == i
      invariant forall j :: 0 <= j < i ==> Send(cs[j], values, args, own).Ok? && filtered[j] == Send(cs[j], values, args, own).value
    {
      var outcome := Send(cs[i], values, args, own);
      if outcome.Err? {
        assert FirstFailure(cs, values, args, own, i);
        return Err(outcome.msg);
      }
      filtered := filtered + [outcome.value];
      i := i + 1;
    }
    r := Ok(filtered);
  }
}
