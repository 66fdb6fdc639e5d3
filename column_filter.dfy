/** lib/sycsvpro/column_filter.rb: projects a line onto its selected columns,
    in the order the positions are first listed, followed by the matching
    pivot columns. */
module ColumnFilter {
  import opened Wrappers
  import opened Text
  import opened Externals

  /** A line with a ';' at its end, or just before its line break, gains a
      space, so that a split keeps its last, empty field. */
  function Padded(line: string): string
  {
    if SepAtLineEnd(line) then line + " " else line
  }

  /** The columns `pivot_each_column` yields with a match, in pivot order. */
  function PivotColumns(env: Env, pivot: seq<string>, fields: seq<string>): seq<string>
  {
    if |pivot| == 0 then []
    else
      var hit := env.pivotEach(pivot[|pivot| - 1], fields);
      PivotColumns(env, pivot[..|pivot| - 1], fields) + (if hit.matched then [hit.column] else [])
  }

  /** The `filtered` array: the fields at the de-duplicated positions (nil
      past the end of the line), then the matching pivot columns. */
  function Filtered(sel: Selector, env: Env, fields: seq<string>): seq<Option<string>>
  {
    ValuesAt(fields, Uniq(sel.filter)) + Lift(PivotColumns(env, sel.pivot, fields))
  }

  /** The text returned for `filtered`: its present entries joined, with a
      space added when its last entry is an empty string. */
  function Finish(filtered: seq<Option<string>>): string
  {
    var text := Join(Compact(filtered), Sep);
    if |filtered| > 0 && filtered[|filtered| - 1] == Some("") then text + " " else text
  }

  /** What `ColumnFilter#process` returns for a line; None is nil. The
      line loses its non-ASCII characters after the nil and empty test. */
  function Projection(sel: Selector, env: Env, line: Option<string>): Option<string>
  {
    if line.None? || line.value == "" then None
    else
      var text := Padded(Encoded(line.value));
      if |sel.filter| == 0 && |sel.pivot| == 0 then Some(text)
      else Some(Finish(Filtered(sel, env, Split(text, Sep))))
  }

  /** `ColumnFilter#process`. */
  method Process(sel: Selector, env: Env, line: Option<string>) returns (r: Option<string>)
    ensures r == Projection(sel, env, line)
  {
    if line.None? || line.value == "" {
      return None;
    }
    var text := Encoded(line.value);
    if SepAtLineEnd(text) {
      text := text + " ";
    }
    assert text == Padded(Encoded(line.value));
    if |sel.filter| == 0 && |sel.pivot| == 0 {
      return Some(text);
    }
    var fields := Split(text, Sep);
    var filtered := ValuesAt(fields, Uniq(sel.filter));
    var pivoted := PivotEach(env, sel.pivot, fields);
    filtered := filtered + Lift(pivoted);
    assert filtered == Filtered(sel, env, fields);
    if |filtered| > 0 && filtered[|filtered| - 1].Some? && filtered[|filtered| - 1].value == "" {
      r := Some(Join(Compact(filtered), Sep) + " ");
    } else {
      r := Some(Join(Compact(filtered), Sep));
    }
    assert r == Some(Finish(filtered));
  }

  /** The `pivot_each_column` loop: the matching pivot columns, in order. */
  method PivotEach(env: Env, pivot: seq<string>, fields: seq<string>) returns (columns: seq<string>)
    ensures columns == PivotColumns(env, pivot, fields)
  {
    columns := [];
    var j := 0;
    while j < |pivot|
      invariant 0 <= j <= |pivot|
      invariant columns == PivotColumns(env, pivot[..j], fields)
    {
      var hit := env.pivotEach(pivot[j], fields);
      assert pivot[..j + 1][..j] == pivot[..j];
      if hit.matched {
        columns := columns + [hit.column];
      }
      j := j + 1;
    }
    assert pivot[..j] == pivot;
  }

  // ---------------------------------------------------------------------------
  // Properties

  /** The fields at the positions of `ps` that lie within `fields`, in the
      order of `ps`. */
  function Picked(fields: seq<string>, ps: seq<nat>): (r: seq<string>)
    ensures forall x :: x in r ==> x in fields
  {
    if |ps| == 0 then []
    else Picked(fields, ps[..|ps| - 1]) + (if ps[|ps| - 1] < |fields| then [fields[ps[|ps| - 1]]] else [])
  }

  lemma {:induction false} CompactValuesAt(fields: seq<string>, ps: seq<nat>)
    ensures Compact(ValuesAt(fields, ps)) == Picked(fields, ps)
  {
    if |ps| > 0 {
      CompactValuesAt(fields, ps[..|ps| - 1]);
      assert ValuesAt(fields, ps)[..|ps| - 1] == ValuesAt(fields, ps[..|ps| - 1]);
    }
  }

  /** The projection lists the in-range fields at the positions, each
      position once and in first-listed order, then the matching pivot
      columns; positions past the end of the line contribute no field. */
  lemma ProjectedFields(sel: Selector, env: Env, fields: seq<string>)
    ensures Compact(Filtered(sel, env, fields)) == Picked(fields, Uniq(sel.filter)) + PivotColumns(env, sel.pivot, fields)
  {
    var ps := Uniq(sel.filter);
    CompactAppend(ValuesAt(fields, ps), Lift(PivotColumns(env, sel.pivot, fields)));
    CompactValuesAt(fields, ps);
    CompactLift(PivotColumns(env, sel.pivot, fields));
  }

  /** A nil or empty line gives nil; without positions and pivots a line
      comes back without its non-ASCII characters, with a space after a
      final ';', and a line of ASCII characters comes back as it is save
      that space. */
  lemma Unselected(sel: Selector, env: Env, line: Option<string>)
    ensures line.None? || line == Some("") ==> Projection(sel, env, line).None?
    ensures line.Some? && line.value != "" && |sel.filter| == 0 && |sel.pivot| == 0 ==>
      var e := Encoded(line.value);
      Projection(sel, env, line) == Some(if SepAtLineEnd(e) then e + " " else e)
    ensures (line.Some? && line.value != "" && |sel.filter| == 0 && |sel.pivot| == 0 &&
      forall i :: 0 <= i < |line.value| ==> IsAscii(line.value[i])) ==>
      Projection(sel, env, line) == Some(if SepAtLineEnd(line.value) then line.value + " " else line.value)
  {
    if line.Some? {
      EncodedAscii(line.value);
    }
  }

  /** A non-ASCII character between ASCII text is dropped and the text
      around it closes up: "Müller;5" reads as "Mller;5". */
  lemma NonAsciiCharDropped(a: string, c: char, b: string)
    requires !IsAscii(c)
    requires forall i :: 0 <= i < |a| ==> IsAscii(a[i])
    requires forall i :: 0 <= i < |b| ==> IsAscii(b[i])
    ensures Encoded(a + [c] + b) == a + b
  {
    EncodedAscii(a);
    EncodedAscii(b);
    assert Encoded(a) == a && Encoded(b) == b;
    assert [c][1..] == [];
    assert Encoded([c]) == "" + Encoded([c][1..]);
    EncodedAppend(a, [c]);
    assert Encoded(a + [c]) == a + "";
    assert a + "" == a;
    EncodedAppend(a + [c], b);
  }

  lemma MullerEncoded(line: string)
    requires line == "Müller;5"
    ensures Encoded(line) == "Mller;5"
  {
    assert line == "M" + ['ü'] + "ller;5";
    NonAsciiCharDropped("M", 'ü', "ller;5");
  }

  /** Non-ASCII characters are dropped after the empty test: "é" alone
      comes back as "", not as nil. */
  lemma NonAsciiLineEmpty(sel: Selector, env: Env, line: string)
    requires sel.filter == [] && sel.pivot == [] && line == "é"
    ensures Projection(sel, env, Some(line)) == Some("")
  {
    assert Encoded(line) == "";
  }

  /** A line with some ASCII character projects as its ASCII characters
      alone. */
  lemma EncodedFirst(sel: Selector, env: Env, line: string)
    requires Encoded(line) != ""
    ensures Projection(sel, env, Some(line)) == Projection(sel, env, Some(Encoded(line)))
  {
    EncodedIdempotent(line);
  }

  /** Positions 0 and 1 give a two-field ASCII line back as it is. */
  lemma BothFields(sel: Selector, env: Env, line: string, a: string, b: string)
    requires sel.filter == [0, 1] && sel.pivot == []
    requires line == a + [Sep] + b && Sep !in a && Sep !in b && b != ""
    requires '\n' !in line && forall i :: 0 <= i < |line| ==> IsAscii(line[i])
    ensures Projection(sel, env, Some(line)) == Some(line)
  {
    EncodedAscii(line);
    assert line[|line| - 1] == b[|b| - 1] && b[|b| - 1] in b;
    PlainLine(line);
    ProjectedText(sel, env, line, line);
    TwoFields(line, a, b);
    UniqZeroOne(sel.filter);
    var f := Filtered(sel, env, [a, b]);
    assert f == [Some(a), Some(b)];
    assert Compact(f) == [a, b] by {
      assert f[..1] == [Some(a)];
      assert f[..1][..0] == [];
    }
    assert Join([a, b], Sep) == a + [Sep] + Join([b], Sep);
  }

  lemma TwoFields(line: string, a: string, b: string)
    requires line == a + [Sep] + b && Sep !in a && Sep !in b && b != ""
    ensures Split(line, Sep) == [a, b]
  {
    SplitAllAfterField(a, b, Sep);
    SplitAllNoSep(b, Sep);
    assert SplitAll(line, Sep) == [a, b];
  }

  /** A two-field line projected on 0 and 1 gives the line without its
      non-ASCII characters: "Müller;5" gives "Mller;5" (MullerEncoded). */
  lemma NonAsciiDropped(sel: Selector, env: Env, line: string, a: string, b: string)
    requires sel.filter == [0, 1] && sel.pivot == []
    requires Encoded(line) == a + [Sep] + b && Sep !in a && Sep !in b && b != ""
    requires '\n' !in Encoded(line)
    ensures Projection(sel, env, Some(line)) == Some(Encoded(line))
  {
    EncodedFirst(sel, env, line);
    EncodedAscii(line);
    BothFields(sel, env, Encoded(line), a, b);
  }

  /** Listing a position a second time changes nothing. */
  lemma RepeatedPosition(sel: Selector, env: Env, line: Option<string>, p: nat)
    requires p in sel.filter
    ensures Projection(sel.(filter := sel.filter + [p]), env, line) == Projection(sel, env, line)
  {
    UniqRepeat(sel.filter, p);
  }

  /** Positions apply in the order listed, not in numeric order, and once
      each: "3,1,3" on a four-field line "a;b;c;d" gives "d;b". The fields
      are any ASCII text without ';' or line breaks, the second and last
      not empty. */
  lemma FirstListedOrder(sel: Selector, env: Env, line: string, a: string, b: string, c: string, d: string)
    requires sel.filter == [3, 1, 3] && sel.pivot == []
    requires line == a + [Sep] + b + [Sep] + c + [Sep] + d
    requires Sep !in a && Sep !in b && Sep !in c && Sep !in d && b != "" && d != ""
    requires '\n' !in line && forall i :: 0 <= i < |line| ==> IsAscii(line[i])
    ensures Projection(sel, env, Some(line)) == Some(d + [Sep] + b)
  {
    EncodedAscii(line);
    assert line[|line| - 1] == d[|d| - 1] && d[|d| - 1] in d;
    PlainLine(line);
    ProjectedText(sel, env, line, line);
    FourFields(line, a, b, c, d);
    LaterFieldFirst(sel, env, [a, b, c, d]);
  }

  lemma FourFields(line: string, a: string, b: string, c: string, d: string)
    requires line == a + [Sep] + b + [Sep] + c + [Sep] + d
    requires Sep !in a && Sep !in b && Sep !in c && Sep !in d && d != ""
    ensures Split(line, Sep) == [a, b, c, d]
  {
    var t3 := c + [Sep] + d;
    var t2 := b + [Sep] + t3;
    assert line == a + [Sep] + t2;
    SplitAllAfterField(a, t2, Sep);
    SplitAllAfterField(b, t3, Sep);
    SplitAllAfterField(c, d, Sep);
    SplitAllNoSep(d, Sep);
    assert SplitAll(line, Sep) == [a, b, c, d];
  }

  /** Past the nil and empty test, a projection with positions or pivots
      splits the encoded, padded line. */
  lemma ProjectedText(sel: Selector, env: Env, line: string, text: string)
    requires line != "" && (|sel.filter| > 0 || |sel.pivot| > 0) && Padded(Encoded(line)) == text
    ensures Projection(sel, env, Some(line)) == Some(Finish(Filtered(sel, env, Split(text, Sep))))
  {
  }

  /** A line without a line break or a final ';' is not padded. */
  lemma PlainLine(line: string)
    requires '\n' !in line && !EndsWith(line, Sep)
    ensures Padded(line) == line
  {
    assert forall i :: !SepBeforeBreak(line, i);
  }

  /** The sample lines here are ASCII, which encoding leaves alone. */
  lemma AsciiUnchanged(line: string)
    requires line in {"a;", "a;;b"}
    ensures Encoded(line) == line
  {
  }

  lemma LaterFieldFirst(sel: Selector, env: Env, fields: seq<string>)
    requires sel.filter == [3, 1, 3] && sel.pivot == [] && |fields| == 4 && fields[1] != ""
    ensures Finish(Filtered(sel, env, fields)) == fields[3] + [Sep] + fields[1]
  {
    assert Uniq(sel.filter) == [3, 1] by {
      assert sel.filter[..2][..1][..0] == [];
      assert Uniq(sel.filter[..2][..1]) == [3];
      assert Uniq(sel.filter[..2]) == [3, 1];
    }
    assert Lift(PivotColumns(env, sel.pivot, fields)) == [];
    var f := Filtered(sel, env, fields);
    assert f == [Some(fields[3]), Some(fields[1])];
    assert Compact(f) == [fields[3], fields[1]] by {
      assert f[..1] == [Some(fields[3])];
      assert f[..1][..0] == [];
    }
    assert Join([fields[3], fields[1]], Sep) == fields[3] + [Sep] + Join([fields[1]], Sep);
  }

  /** A line ending in ';' keeps its empty last field through the padding:
      "a;" projected on 0 and 1 gives "a; ". */
  lemma EmptyLastFieldKept(sel: Selector, env: Env)
    requires sel.filter == [0, 1] && sel.pivot == []
    ensures Projection(sel, env, Some("a;")) == Some("a; ")
  {
    var fields := ["a", " "];
    AsciiUnchanged("a;");
    assert Padded("a;") == "a; ";
    SplitPadded();
    UniqZeroOne(sel.filter);
    CompactTwo();
    assert Lift(PivotColumns(env, sel.pivot, fields)) == [];
    assert Filtered(sel, env, fields) == [Some("a"), Some(" ")];
    assert Join(["a", " "], Sep) == "a; ";
  }

  lemma SplitPadded()
    ensures Split("a; ", Sep) == ["a", " "]
  {
    SplitJoin(["a", " "], Sep);
    assert Join(["a", " "], Sep) == "a; ";
  }

  lemma UniqZeroOne(ps: seq<nat>)
    requires ps == [0, 1]
    ensures Uniq(ps) == [0, 1]
  {
    assert ps[..1][..0] == [];
    assert Uniq(ps[..1]) == [0];
  }

  lemma CompactTwo()
    ensures Compact([Some("a"), Some(" ")]) == ["a", " "]
  {
    assert [Some("a"), Some(" ")][..1] == [Some("a")];
    assert [Some("a")][..0] == [];
  }

  lemma {:induction false} JoinExtendLast(fs: seq<string>, x: string)
    requires |fs| > 0
    ensures Join(fs, Sep) + x == Join(fs[..|fs| - 1] + [fs[|fs| - 1] + x], Sep)
  {
    var gs := fs[..|fs| - 1] + [fs[|fs| - 1] + x];
    if |fs| > 1 {
      var tail := fs[1..];
      JoinExtendLast(tail, x);
      assert gs[1..] == tail[..|tail| - 1] + [tail[|tail| - 1] + x];
      assert gs[0] == fs[0];
      assert Join(gs, Sep) == fs[0] + [Sep] + Join(gs[1..], Sep);
      assert Join(fs, Sep) == fs[0] + [Sep] + Join(tail, Sep);
    } else {
      assert gs == [fs[0] + x];
    }
  }

  /** When the last entry of `filtered` is present, splitting the result
      gives back every present entry: an empty last entry comes back as the
      space that was added for it. */
  lemma FinishSplitsBack(filtered: seq<Option<string>>)
    requires |filtered| > 0 && filtered[|filtered| - 1].Some?
    requires forall x :: x in Compact(filtered) ==> Sep !in x
    ensures var fs := Compact(filtered);
      |fs| > 0 &&
      Split(Finish(filtered), Sep) == if fs[|fs| - 1] == "" then fs[..|fs| - 1] + [" "] else fs
  {
    var fs := Compact(filtered);
    assert fs == Compact(filtered[..|filtered| - 1]) + [filtered[|filtered| - 1].value];
    if fs[|fs| - 1] == "" {
      JoinExtendLast(fs, " ");
      var gs := fs[..|fs| - 1] + [" "];
      assert fs[|fs| - 1] + " " == " ";
      forall i | 0 <= i < |gs| ensures Sep !in gs[i] {
        if i < |fs| - 1 {
          assert gs[i] == fs[i] && fs[i] in fs;
        }
      }
      SplitJoin(gs, Sep);
    } else {
      forall i | 0 <= i < |fs| ensures Sep !in fs[i] {
        assert fs[i] in fs;
      }
      SplitJoin(fs, Sep);
    }
  }

  /** A position past the end of the line adds no field, but as the last
      entry of `filtered` it hides an empty field before it from the check
      that appends the space: on "a;;b", position 1 gives " " and positions
      1 and 5 give "". */
  lemma TrailingPastEndHidesEmptyField(sel: Selector, env: Env)
    requires sel.pivot == []
    ensures Projection(sel.(filter := [1]), env, Some("a;;b")) == Some(" ")
    ensures Projection(sel.(filter := [1, 5]), env, Some("a;;b")) == Some("")
  {
    var fields := ["a", "", "b"];
    assert Split("a;;b", Sep) == fields by {
      SplitJoin(fields, Sep);
      assert Join(fields, Sep) == "a;;b";
    }
    AsciiUnchanged("a;;b");
    assert Padded("a;;b") == "a;;b";
    SingleEmptyField(sel.(filter := [1]), env, fields);
    PastEndAfterEmptyField(sel.(filter := [1, 5]), env, fields);
  }

  lemma SingleEmptyField(sel: Selector, env: Env, fields: seq<string>)
    requires sel.pivot == [] && sel.filter == [1] && fields == ["a", "", "b"]
    ensures Finish(Filtered(sel, env, fields)) == " "
  {
    assert Uniq(sel.filter) == [1] by {
      assert sel.filter[..0] == [];
    }
    assert Lift(PivotColumns(env, sel.pivot, fields)) == [];
    var f := Filtered(sel, env, fields);
    assert f == [Some("")];
    assert Compact(f) == [""] by {
      assert f[..0] == [];
    }
  }

  lemma PastEndAfterEmptyField(sel: Selector, env: Env, fields: seq<string>)
    requires sel.pivot == [] && sel.filter == [1, 5] && fields == ["a", "", "b"]
    ensures Finish(Filtered(sel, env, fields)) == ""
  {
    assert Uniq(sel.filter) == [1, 5] by {
      assert sel.filter[..1][..0] == [];
      assert Uniq(sel.filter[..1]) == [1];
    }
    assert Lift(PivotColumns(env, sel.pivot, fields)) == [];
    var f := Filtered(sel, env, fields);
    assert f == [Some(""), None];
    assert Compact(f) == [""] by {
      assert f[..1] == [Some("")];
      assert f[..1][..0] == [];
    }
  }
}
