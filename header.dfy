/** lib/sycsvpro/header.rb: a comma-separated header template whose first
    entry is replaced by the fields of the header line it is applied to. */
module Header {
  import opened Wrappers
  import opened Text

  /** An entry of `@header_cols`: a template name, or the fields of a line
      stored in slot 0. */
  datatype HeaderCol = Name(name: string) | Fields(fields: seq<string>)

  /** `@header_cols.flatten`. */
  function FlattenCols(cs: seq<HeaderCol>): seq<string>
  {
    if |cs| == 0 then []
    else
      FlattenCols(cs[..|cs| - 1]) +
      (match cs[|cs| - 1] case Name(n) => [n] case Fields(fs) => fs)
  }

  /** The entries a template string stands for: none for a nil or empty
      template, otherwise its comma-separated names. */
  function Template(header: Option<string>): (r: seq<HeaderCol>)
    ensures forall i :: 0 <= i < |r| ==> r[i].Name?
  {
    if header.None? || header.value == "" then []
    else
      var names := Split(header.value, ',');
      seq(|names|, i requires 0 <= i < |names| => Name(names[i]))
  }

  /** The header line `process` writes for the entries `cols`: the line's
      own fields, then every entry after the first. */
  function HeaderLine(cols: seq<HeaderCol>, line: string): string
  {
    if |cols| == 0 then "" else Join(Split(line, Sep) + FlattenCols(cols[1..]), Sep)
  }

  /** The entries after `process` has seen a line: an empty template stays
      empty, otherwise slot 0 holds the line's fields. */
  function Stored(cols: seq<HeaderCol>, line: string): (r: seq<HeaderCol>)
    ensures |r| == |cols| && (|r| > 0 ==> r[0] == Fields(Split(line, Sep)) && r[1..] == cols[1..])
  {
    if cols == [] then [] else cols[0 := Fields(Split(line, Sep))]
  }

  class Header {
    var headerCols: seq<HeaderCol>

    /** `Header#initialize`. */
    constructor(header: Option<string>)
      ensures headerCols == Template(header)
    {
      headerCols := Template(header);
    }

    /** `Header#process`: stores the line's fields in slot 0 and returns the
        flattened entries; an empty template gives "" and stays empty. */
    method Process(line: string) returns (r: string)
      modifies this
      ensures old(headerCols) == [] ==> r == ""
      ensures headerCols == Stored(old(headerCols), line)
      ensures r == HeaderLine(old(headerCols), line)
    {
      if headerCols == [] {
        return "";
      }
      headerCols := headerCols[0 := Fields(Split(line, Sep))];
      r := Join(FlattenCols(headerCols), Sep);
      FlattenFirst(headerCols);
    }
  }

  lemma {:induction false} FlattenAppend(a: seq<HeaderCol>, b: seq<HeaderCol>)
    ensures FlattenCols(a + b) == FlattenCols(a) + FlattenCols(b)
  {
    if |b| == 0 {
      assert a + b == a;
    } else {
      FlattenAppend(a, b[..|b| - 1]);
      assert (a + b)[..|a + b| - 1] == a + b[..|b| - 1];
      assert (a + b)[|a + b| - 1] == b[|b| - 1];
    }
  }

  lemma FlattenFirst(cs: seq<HeaderCol>)
    requires |cs| > 0 && cs[0].Fields?
    ensures FlattenCols(cs) == cs[0].fields + FlattenCols(cs[1..])
  {
    var x := cs[0];
    assert [x][..0] == [];
    assert FlattenCols([x]) == x.fields;
    FlattenAppend([x], cs[1..]);
    assert [x] + cs[1..] == cs;
  }

  /** Whatever slot 0 held before, the header line depends only on the new
      line and the entries after the first: nothing accumulates. */
  lemma SlotZeroForgotten(cols: seq<HeaderCol>, x: HeaderCol, line: string)
    requires |cols| > 0
    ensures HeaderLine(cols[0 := x], line) == HeaderLine(cols, line)
  {
    assert cols[0 := x][1..] == cols[1..];
  }

  /** A second `process` call answers and leaves the entries exactly as if
      the first call had never been made. */
  lemma ProcessTwice(cols: seq<HeaderCol>, line1: string, line2: string)
    ensures Stored(Stored(cols, line1), line2) == Stored(cols, line2)
    ensures HeaderLine(Stored(cols, line1), line2) == HeaderLine(cols, line2)
  {
    if |cols| > 0 {
      SlotZeroForgotten(cols, Fields(Split(line1, Sep)), line2);
    }
  }

  lemma {:induction false} FlattenNames(cs: seq<HeaderCol>)
    requires forall i :: 0 <= i < |cs| ==> cs[i].Name?
    ensures FlattenCols(cs) == seq(|cs|, i requires 0 <= i < |cs| => cs[i].name)
  {
    if |cs| > 0 {
      FlattenNames(cs[..|cs| - 1]);
    }
  }

  lemma StarTemplateEntries()
    ensures Template(Some("*,A,B")) == [Name("*"), Name("A"), Name("B")]
  {
    assert Split("*,A,B", ',') == ["*", "A", "B"] by {
      SplitJoin(["*", "A", "B"], ',');
      assert Join(["*", "A", "B"], ',') == "*,A,B";
    }
  }

  lemma SplitThree()
    ensures Split("a;b;c", Sep) == ["a", "b", "c"]
  {
    SplitJoin(["a", "b", "c"], Sep);
    assert Join(["a", "b", "c"], Sep) == "a;b;c";
  }

  lemma JoinFive()
    ensures Join(["a", "b", "c", "A", "B"], Sep) == "a;b;c;A;B"
  {
    var fs := ["a", "b", "c", "A", "B"];
    assert fs[1..][1..][1..][1..] == ["B"];
    assert Join(fs[1..][1..][1..], Sep) == "A;B";
    assert Join(fs[1..][1..], Sep) == "c;A;B";
    assert Join(fs[1..], Sep) == "b;c;A;B";
  }

  lemma StarTemplateLine()
    ensures Join(Split("a;b;c", Sep) + ["A", "B"], Sep) == "a;b;c;A;B"
  {
    SplitThree();
    JoinFive();
    assert ["a", "b", "c"] + ["A", "B"] == ["a", "b", "c", "A", "B"];
  }

  /** The template "*,A,B" applied to "a;b;c" gives "a;b;c;A;B". */
  lemma StarTemplate()
    ensures HeaderLine(Template(Some("*,A,B")), "a;b;c") == "a;b;c;A;B"
  {
    StarTemplateEntries();
    var rest := [Name("A"), Name("B")];
    assert Template(Some("*,A,B"))[1..] == rest;
    FlattenNames(rest);
    assert FlattenCols(rest) == ["A", "B"];
    StarTemplateLine();
  }
}
