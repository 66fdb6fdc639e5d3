/** The parts of Ruby's String and Array library that the tools rely on,
    written out so that their edge cases are explicit. */
module Text {
  import opened Wrappers

  /** The field separator of every csv line. */
  const Sep: char := ';'

  // ---------------------------------------------------------------------------
  // String#split with a one-character separator

  /** All fields of `s` between occurrences of `sep`, empty ones included. */
  function SplitAll(s: string, sep: char): (r: seq<string>)
    ensures |r| >= 1
  {
    if |s| == 0 then [""]
    else
      var rest := SplitAll(s[1..], sep);
      if s[0] == sep then [""] + rest else [[s[0]] + rest[0]] + rest[1..]
  }

  /** Removes the empty strings at the end of a field list. */
  function DropTrailingEmpty(fs: seq<string>): (r: seq<string>)
    ensures |r| <= |fs| && r == fs[..|r|]
    ensures |r| > 0 ==> r[|r| - 1] != ""
    ensures forall i :: |r| <= i < |fs| ==> fs[i] == ""
  {
    if |fs| > 0 && fs[|fs| - 1] == "" then DropTrailingEmpty(fs[..|fs| - 1]) else fs
  }

  /** Ruby's `s.split(sep)`: the fields of `s`, without the trailing empty
      ones; so `"".split(';')` is `[]` and `"a;;".split(';')` is `["a"]`. */
  function Split(s: string, sep: char): seq<string>
  {
    DropTrailingEmpty(SplitAll(s, sep))
  }

  /** Ruby's `Array#join(sep)`. */
  function Join(fs: seq<string>, sep: char): string
  {
    if |fs| == 0 then ""
    else if |fs| == 1 then fs[0]
    else fs[0] + [sep] + Join(fs[1..], sep)
  }

  lemma {:induction false} JoinSplitAll(s: string, sep: char)
    ensures Join(SplitAll(s, sep), sep) == s
  {
    if |s| > 0 {
      var rest := SplitAll(s[1..], sep);
      JoinSplitAll(s[1..], sep);
      if s[0] == sep {
        assert SplitAll(s, sep) == [""] + rest;
        assert ([""] + rest)[1..] == rest;
      } else {
        assert SplitAll(s, sep) == [[s[0]] + rest[0]] + rest[1..];
        if |rest| > 1 {
          assert Join(rest, sep) == rest[0] + [sep] + Join(rest[1..], sep);
          assert ([[s[0]] + rest[0]] + rest[1..])[1..] == rest[1..];
        }
      }
    }
  }

  lemma {:induction false} SplitAllFieldsHaveNoSep(s: string, sep: char)
    ensures forall i :: 0 <= i < |SplitAll(s, sep)| ==> sep !in SplitAll(s, sep)[i]
  {
    if |s| > 0 {
      SplitAllFieldsHaveNoSep(s[1..], sep);
    }
  }

  /** The fields of `split` never contain the separator. */
  lemma SplitFieldsHaveNoSep(s: string, sep: char)
    ensures forall i :: 0 <= i < |Split(s, sep)| ==> sep !in Split(s, sep)[i]
  {
    SplitAllFieldsHaveNoSep(s, sep);
  }

  lemma {:induction false} SplitAllLastNonEmpty(s: string, sep: char)
    requires |s| > 0 && s[|s| - 1] != sep
    ensures SplitAll(s, sep)[|SplitAll(s, sep)| - 1] != ""
  {
    if |s| > 1 {
      SplitAllLastNonEmpty(s[1..], sep);
    }
  }

  /** A line that does not end in the separator keeps all its fields,
      which is why the tools append a space to a line ending in ';'. */
  lemma SplitKeepsAllFields(s: string, sep: char)
    requires |s| > 0 && s[|s| - 1] != sep
    ensures Split(s, sep) == SplitAll(s, sep)
  {
    SplitAllLastNonEmpty(s, sep);
  }

  lemma {:induction false} SplitAllNoSep(s: string, sep: char)
    requires sep !in s
    ensures SplitAll(s, sep) == [s]
  {
    if |s| > 0 {
      SplitAllNoSep(s[1..], sep);
      assert [s[0]] + s[1..] == s;
    }
  }

  lemma {:induction false} SplitAllAfterField(a: string, b: string, sep: char)
    requires sep !in a
    ensures SplitAll(a + [sep] + b, sep) == [a] + SplitAll(b, sep)
  {
    if |a| == 0 {
      assert a + [sep] + b == [sep] + b;
      assert ([sep] + b)[1..] == b;
    } else {
      SplitAllAfterField(a[1..], b, sep);
      assert (a + [sep] + b)[1..] == a[1..] + [sep] + b;
      assert [a[0]] + a[1..] == a;
    }
  }

  /** Splitting a join gives the fields back when none holds the separator:
      the inverse of JoinSplitAll. */
  lemma {:induction false} SplitAllJoin(fs: seq<string>, sep: char)
    requires |fs| > 0
    requires forall i :: 0 <= i < |fs| ==> sep !in fs[i]
    ensures SplitAll(Join(fs, sep), sep) == fs
  {
    if |fs| == 1 {
      SplitAllNoSep(fs[0], sep);
    } else {
      SplitAllJoin(fs[1..], sep);
      SplitAllAfterField(fs[0], Join(fs[1..], sep), sep);
      assert [fs[0]] + fs[1..] == fs;
    }
  }

  /** A join whose last field is not empty splits back into its fields. */
  lemma SplitJoin(fs: seq<string>, sep: char)
    requires |fs| > 0 && fs[|fs| - 1] != ""
    requires forall i :: 0 <= i < |fs| ==> sep !in fs[i]
    ensures Split(Join(fs, sep), sep) == fs
  {
    SplitAllJoin(fs, sep);
  }

  // ---------------------------------------------------------------------------
  // Characters and small string functions

  predicate EndsWith(s: string, c: char)
  {
    |s| > 0 && s[|s| - 1] == c
  }

  /** `s =~ /;$/`: a ';' at the end of the text or just before a line
      break, since Ruby's `$` matches at both. */
  predicate SepAtLineEnd(s: string)
  {
    EndsWith(s, Sep) || exists i :: 0 <= i < |s| && SepBeforeBreak(s, i)
  }

  /** A ';' at `i` followed by a line break. */
  predicate SepBeforeBreak(s: string, i: int)
  {
    0 <= i < |s| - 1 && s[i] == Sep && s[i + 1] == '\n'
  }

  predicate IsDigit(c: char)
  {
    '0' <= c <= '9'
  }

  /** Ruby's whitespace as `strip` removes it. */
  predicate IsSpace(c: char)
  {
    c == ' ' || c == '\t' || c == '\n' || c == '\r' || c == '\U{B}' || c == '\U{C}' || c == '\0'
  }

  /** `s.strip.empty?`: nothing but whitespace. */
  predicate IsBlank(s: string)
  {
    forall i :: 0 <= i < |s| ==> IsSpace(s[i])
  }

  function StripLeft(s: string): string
  {
    if |s| > 0 && IsSpace(s[0]) then StripLeft(s[1..]) else s
  }

  function StripRight(s: string): string
  {
    if |s| > 0 && IsSpace(s[|s| - 1]) then StripRight(s[..|s| - 1]) else s
  }

  /** Ruby's `String#strip`. */
  function Strip(s: string): string
  {
    StripRight(StripLeft(s))
  }

  /** Ruby's `String#chomp`: one trailing "\r\n", "\n" or "\r" removed. */
  function Chomp(s: string): (r: string)
    ensures |r| <= |s| && r == s[..|r|]
  {
    if |s| >= 2 && s[|s| - 2..] == "\r\n" then s[..|s| - 2]
    else if |s| >= 1 && (s[|s| - 1] == '\n' || s[|s| - 1] == '\r') then s[..|s| - 1]
    else s
  }

  /** `s.gsub(a, b)` for one-character strings `a` and `b`. */
  function ReplaceChar(s: string, a: char, b: char): (r: string)
    ensures |r| == |s|
    ensures forall i :: 0 <= i < |s| ==> r[i] == (if s[i] == a then b else s[i])
  {
    if |s| == 0 then "" else [if s[0] == a then b else s[0]] + ReplaceChar(s[1..], a, b)
  }

  function UpcaseChar(c: char): char
  {
    if 'a' <= c <= 'z' then (c as int - 32) as char else c
  }

  /** `String#upcase` on ASCII letters. */
  function Upcase(s: string): (r: string)
    ensures |r| == |s|
    ensures forall i :: 0 <= i < |s| ==> r[i] == UpcaseChar(s[i])
  {
    if |s| == 0 then "" else [UpcaseChar(s[0])] + Upcase(s[1..])
  }

  predicate IsAscii(c: char)
  {
    c <= '\U{7F}'
  }

  /** `s.encode('UTF-8', 'binary', invalid: :replace, undef: :replace,
      replace: '')`: read as binary, every byte above 0x7F has no UTF-8
      meaning and is replaced by nothing. A character outside ASCII is made
      of such bytes only, so exactly the ASCII characters stay, in order. */
  function Encoded(s: string): string
  {
    if |s| == 0 then ""
    else (if IsAscii(s[0]) then [s[0]] else "") + Encoded(s[1..])
  }

  /** The encoded text is ASCII, no longer than the input, and the input
      itself when that is ASCII. */
  lemma {:induction false} EncodedAscii(s: string)
    ensures |Encoded(s)| <= |s|
    ensures forall i :: 0 <= i < |Encoded(s)| ==> IsAscii(Encoded(s)[i])
    ensures (forall i :: 0 <= i < |s| ==> IsAscii(s[i])) ==> Encoded(s) == s
  {
    if |s| > 0 {
      EncodedAscii(s[1..]);
      if forall i :: 0 <= i < |s| ==> IsAscii(s[i]) {
        assert forall i :: 0 <= i < |s[1..]| ==> IsAscii(s[1..][i]);
        assert [s[0]] + s[1..] == s;
      }
    }
  }

  lemma {:induction false} EncodedAppend(a: string, b: string)
    ensures Encoded(a + b) == Encoded(a) + Encoded(b)
  {
    if |a| > 0 {
      assert (a + b)[0] == a[0] && (a + b)[1..] == a[1..] + b;
      EncodedAppend(a[1..], b);
    } else {
      assert a + b == b;
    }
  }

  /** Encoding a second time changes nothing. */
  lemma EncodedIdempotent(s: string)
    ensures Encoded(Encoded(s)) == Encoded(s)
  {
    EncodedAscii(s);
    EncodedAscii(Encoded(s));
  }

  // ---------------------------------------------------------------------------
  // Numbers and text

  /** The digits of the longest prefix of the form `d(_?d)*`; Ruby accepts
      single underscores between digits in `to_i`. */
  function LeadingDigits(s: string): (r: string)
    ensures forall i :: 0 <= i < |r| ==> IsDigit(r[i])
  {
    if |s| == 0 || !IsDigit(s[0]) then ""
    else if |s| >= 2 && IsDigit(s[1]) then [s[0]] + LeadingDigits(s[1..])
    else if |s| >= 3 && s[1] == '_' && IsDigit(s[2]) then [s[0]] + LeadingDigits(s[2..])
    else [s[0]]
  }

  /** The value of a string of decimal digits. */
  function DigitsValue(ds: string): nat
    requires forall i :: 0 <= i < |ds| ==> IsDigit(ds[i])
  {
    if |ds| == 0 then 0
    else
      assert IsDigit(ds[|ds| - 1]);
      10 * DigitsValue(ds[..|ds| - 1]) + (ds[|ds| - 1] as int - '0' as int)
  }

  /** Ruby's `String#to_i`: leading whitespace, an optional sign, then
      digits; anything else ends the number, and no digits give 0. */
  function ToI(s: string): int
  {
    var t := StripLeft(s);
    if |t| > 0 && t[0] == '-' then -(DigitsValue(LeadingDigits(t[1..])) as int)
    else if |t| > 0 && t[0] == '+' then DigitsValue(LeadingDigits(t[1..]))
    else DigitsValue(LeadingDigits(t))
  }

  function NatToString(n: nat): (r: string)
    ensures |r| > 0 && forall i :: 0 <= i < |r| ==> IsDigit(r[i])
  {
    if n < 10 then [('0' as int + n) as char]
    else NatToString(n / 10) + [('0' as int + n % 10) as char]
  }

  /** Ruby's `Integer#to_s`. */
  function IntToString(i: int): string
  {
    if i < 0 then "-" + NatToString(-i) else NatToString(i)
  }

  lemma {:induction false} NatToStringValue(n: nat)
    ensures DigitsValue(NatToString(n)) == n
  {
    if n >= 10 {
      NatToStringValue(n / 10);
      var r := NatToString(n);
      assert r[..|r| - 1] == NatToString(n / 10);
    }
  }

  lemma {:induction false} LeadingDigitsOfDigits(ds: string)
    requires forall i :: 0 <= i < |ds| ==> IsDigit(ds[i])
    ensures LeadingDigits(ds) == ds
  {
    if |ds| >= 2 {
      LeadingDigitsOfDigits(ds[1..]);
      assert [ds[0]] + ds[1..] == ds;
    }
  }

  /** `to_i` reads back what `to_s` writes. */
  lemma ToINatToString(n: nat)
    ensures ToI(NatToString(n)) == n
  {
    var r := NatToString(n);
    assert IsDigit(r[0]);
    LeadingDigitsOfDigits(r);
    NatToStringValue(n);
  }

  // ---------------------------------------------------------------------------
  // Arrays

  /** Ruby's `Array#uniq`: every element once, at its first occurrence. */
  function Uniq<T(==)>(s: seq<T>): (r: seq<T>)
  {
    if |s| == 0 then []
    else if s[|s| - 1] in s[..|s| - 1] then Uniq(s[..|s| - 1])
    else Uniq(s[..|s| - 1]) + [s[|s| - 1]]
  }

  ghost predicate NoDuplicates<T>(s: seq<T>)
  {
    forall i, j :: 0 <= i < j < |s| ==> s[i] != s[j]
  }

  lemma {:induction false} UniqMembers<T>(s: seq<T>)
    ensures forall x :: x in Uniq(s) <==> x in s
  {
    if |s| > 0 {
      UniqMembers(s[..|s| - 1]);
      assert s == s[..|s| - 1] + [s[|s| - 1]];
    }
  }

  lemma {:induction false} UniqNoDuplicates<T>(s: seq<T>)
    ensures NoDuplicates(Uniq(s))
  {
    if |s| > 0 {
      UniqNoDuplicates(s[..|s| - 1]);
      UniqMembers(s[..|s| - 1]);
    }
  }

  /** Repeating an element that is already present changes nothing. */
  lemma UniqRepeat<T>(s: seq<T>, x: T)
    requires x in s
    ensures Uniq(s + [x]) == Uniq(s)
  {
    assert (s + [x])[..|s|] == s;
  }

  /** `0..(n-1)`: the indices of an array of size n. */
  function Span(n: nat): (r: seq<nat>)
    ensures |r| == n && forall i :: 0 <= i < n ==> r[i] == i
  {
    if n == 0 then [] else Span(n - 1) + [n - 1]
  }

  /** The positions below `n` whose flag is set, in ascending order. */
  function Selected(flags: seq<bool>, n: nat): (r: seq<nat>)
    requires n <= |flags|
    ensures forall j :: 0 <= j < |r| ==> r[j] < n && flags[r[j]]
    ensures forall j, k :: 0 <= j < k < |r| ==> r[j] < r[k]
    ensures forall i :: 0 <= i < n && flags[i] ==> i in r
  {
    if n == 0 then [] else Selected(flags, n - 1) + (if flags[n - 1] then [n - 1] else [])
  }

  /** Ruby's `a[k]` for an integer index: negative indices count from the
      end, and an index outside the array gives nil. */
  function At<T>(s: seq<T>, k: int): (r: Option<T>)
    ensures 0 <= k < |s| ==> r == Some(s[k])
    ensures k >= |s| ==> r == None
  {
    if 0 <= k < |s| then Some(s[k])
    else if k < 0 && 0 <= |s| + k then Some(s[|s| + k])
    else None
  }

  /** Ruby's `a[start, length]`: a negative start counts from the end; a
      start past the end or a negative length gives nil, and the slice
      stops at the end of the array. */
  function Slice<T>(s: seq<T>, start: int, length: int): (r: Option<seq<T>>)
    ensures 0 <= start <= |s| && 0 <= length ==>
      r == Some(s[start..if start + length <= |s| then start + length else |s|])
    ensures start > |s| || start + |s| < 0 || length < 0 ==> r == None
    ensures r.Some? ==> |r.value| <= length
  {
    var from := if start < 0 then start + |s| else start;
    if from < 0 || from > |s| || length < 0 then None
    else Some(s[from..if from + length <= |s| then from + length else |s|])
  }

  /** Ruby's `a.values_at(*ks)`. */
  function ValuesAt<T>(s: seq<T>, ks: seq<int>): (r: seq<Option<T>>)
    ensures |r| == |ks|
    ensures forall i :: 0 <= i < |ks| ==> r[i] == At(s, ks[i])
  {
    seq(|ks|, i requires 0 <= i < |ks| => At(s, ks[i]))
  }

  /** Ruby's `Array#compact`: the non-nil entries, in order. */
  function Compact<T>(s: seq<Option<T>>): (r: seq<T>)
    ensures |r| <= |s|
  {
    if |s| == 0 then []
    else if s[|s| - 1].Some? then Compact(s[..|s| - 1]) + [s[|s| - 1].value]
    else Compact(s[..|s| - 1])
  }

  /** Every entry of `s` as a present value. */
  function Lift<T>(s: seq<T>): (r: seq<Option<T>>)
    ensures |r| == |s| && forall i :: 0 <= i < |s| ==> r[i] == Some(s[i])
  {
    seq(|s|, i requires 0 <= i < |s| => Some(s[i]))
  }

  lemma {:induction false} CompactAppend<T>(a: seq<Option<T>>, b: seq<Option<T>>)
    ensures Compact(a + b) == Compact(a) + Compact(b)
  {
    if |b| > 0 {
      CompactAppend(a, b[..|b| - 1]);
      assert (a + b)[..|a + b| - 1] == a + b[..|b| - 1];
    } else {
      assert a + b == a;
    }
  }

  lemma {:induction false} CompactLift<T>(s: seq<T>)
    ensures Compact(Lift(s)) == s
  {
    if |s| > 0 {
      CompactLift(s[..|s| - 1]);
      assert Lift(s)[..|s| - 1] == Lift(s[..|s| - 1]);
    }
  }

  /** Values of `nil`-able fields as `join` prints them: nil prints nothing. */
  function OrEmpty(o: Option<string>): string
  {
    if o.Some? then o.value else ""
  }

  /** Ruby's `a.index(x)`: the first position holding `x`. */
  function IndexOf<T(==)>(s: seq<T>, x: T): (r: Option<nat>)
    ensures r.Some? <==> x in s
    ensures r.Some? ==> r.value < |s| && s[r.value] == x && x !in s[..r.value]
  {
    if |s| == 0 then None
    else if s[0] == x then Some(0)
    else
      var r := IndexOf(s[1..], x);
      assert s == [s[0]] + s[1..];
      if r.Some? then Some(r.value + 1) else None
  }

  /** Ruby's `a[k] = v` for k >= 0: an index past the end pads with `pad`
      (nil in Ruby, which `join` prints as nothing). */
  function SetAt<T>(s: seq<T>, k: nat, v: T, pad: T): (r: seq<T>)
    ensures |r| == if k < |s| then |s| else k + 1
    ensures r[k] == v
    ensures forall i :: 0 <= i < |r| && i != k ==> r[i] == (if i < |s| then s[i] else pad)
  {
    if k < |s| then s[k := v] else s + seq(k - |s|, _ => pad) + [v]
  }

  /** Ruby's `a.insert(p, x)`: a negative p counts back from after the last
      element, a p past the end pads with `pad`; None for the IndexError
      of a p before the start. */
  function InsertAt<T>(s: seq<T>, p: int, x: T, pad: T): (r: Option<seq<T>>)
    ensures r.Some? <==> p >= -(|s| + 1)
    ensures 0 <= p <= |s| ==> r == Some(s[..p] + [x] + s[p..])
  {
    if p >= 0 then Some(if p <= |s| then s[..p] + [x] + s[p..] else s + seq(p - |s|, _ => pad) + [x])
    else if p >= -(|s| + 1) then Some(s[..|s| + p + 1] + [x] + s[|s| + p + 1..])
    else None
  }

  /** Ruby's `a[p] = x` for any integer p: a negative p counts back from the
      end; None for the IndexError of a p before the start. */
  function StoreAt<T>(s: seq<T>, p: int, x: T, pad: T): (r: Option<seq<T>>)
    ensures r.Some? <==> p >= -|s|
    ensures 0 <= p < |s| ==> r == Some(s[p := x])
  {
    if p >= 0 then Some(SetAt(s, p, x, pad))
    else if p >= -|s| then Some(s[|s| + p := x])
    else None
  }

  /** One entry per line, computed from the line and its index, as a loop
      over `each_with_index` builds it. */
  function MapWithIndex<T>(lines: seq<string>, f: (string, nat) -> T): (r: seq<T>)
    ensures |r| == |lines| && forall i :: 0 <= i < |lines| ==> r[i] == f(lines[i], i)
  {
    seq(|lines|, i requires 0 <= i < |lines| => f(lines[i], i))
  }

  /** Ruby's `Array#flatten` on an array of arrays. */
  function Flatten<T>(ss: seq<seq<T>>): seq<T>
  {
    if |ss| == 0 then [] else Flatten(ss[..|ss| - 1]) + ss[|ss| - 1]
  }

  /** The number of times `x` occurs in `s`. */
  function Count<T(==)>(s: seq<T>, x: T): nat
  {
    if |s| == 0 then 0 else Count(s[..|s| - 1], x) + (if s[|s| - 1] == x then 1 else 0)
  }

  lemma {:induction false} CountAppend<T>(a: seq<T>, b: seq<T>, x: T)
    ensures Count(a + b, x) == Count(a, x) + Count(b, x)
  {
    if |b| > 0 {
      CountAppend(a, b[..|b| - 1], x);
      assert (a + b)[..|a + b| - 1] == a + b[..|b| - 1];
    } else {
      assert a + b == a;
    }
  }

  lemma {:induction false} CountAbsent<T>(s: seq<T>, x: T)
    requires x !in s
    ensures Count(s, x) == 0
  {
    if |s| > 0 {
      CountAbsent(s[..|s| - 1], x);
    }
  }

  /** Ruby's `Array#max` of lengths, 0 for none. */
  function MaxLength<T>(ss: seq<seq<T>>): (r: nat)
    ensures forall i :: 0 <= i < |ss| ==> |ss[i]| <= r
    ensures |ss| > 0 ==> exists i :: 0 <= i < |ss| && |ss[i]| == r
    ensures |ss| == 0 ==> r == 0
  {
    if |ss| == 0 then 0
    else
      var m := MaxLength(ss[..|ss| - 1]);
      if |ss[|ss| - 1]| > m then |ss[|ss| - 1]| else m
  }

  lemma MaxLengthStep<T>(ss: seq<seq<T>>, s: seq<T>)
    ensures MaxLength(ss + [s]) == if |s| > MaxLength(ss) then |s| else MaxLength(ss)
  {
    assert (ss + [s])[..|ss|] == ss;
  }

  /** A prefix one element longer. */
  lemma TakeStep<T>(s: seq<T>, i: nat)
    requires i < |s|
    ensures s[..i + 1] == s[..i] + [s[i]]
  {
  }
}
