/** Ruby's `Array#sort`, as an insertion sort over a total preorder, and the
    lexicographic order Ruby uses to compare strings and arrays.

    Every sort in the tools sorts elements that are pairwise distinct under
    an order that is antisymmetric on them, and then a sorted permutation is
    unique (SortedPermutationIsUnique): whatever algorithm Ruby uses, its
    result is the one computed here. */
module Sorting {
  import opened Text

  ghost predicate Total<T(!new)>(le: (T, T) -> bool)
  {
    forall a, b :: le(a, b) || le(b, a)
  }

  ghost predicate Transitive<T(!new)>(le: (T, T) -> bool)
  {
    forall a, b, c :: le(a, b) && le(b, c) ==> le(a, c)
  }

  ghost predicate TotalPreorder<T(!new)>(le: (T, T) -> bool)
  {
    Total(le) && Transitive(le)
  }

  ghost predicate SortedBy<T>(s: seq<T>, le: (T, T) -> bool)
  {
    forall i, j :: 0 <= i < j < |s| ==> le(s[i], s[j])
  }

  /** `le` does not identify two different elements of `s`. */
  ghost predicate AntisymmetricOn<T>(s: seq<T>, le: (T, T) -> bool)
  {
    forall i, j :: 0 <= i < |s| && 0 <= j < |s| && le(s[i], s[j]) && le(s[j], s[i]) ==> s[i] == s[j]
  }

  function Insert<T>(x: T, s: seq<T>, le: (T, T) -> bool): seq<T>
  {
    if |s| == 0 then [x]
    else if le(x, s[0]) then [x] + s
    else [s[0]] + Insert(x, s[1..], le)
  }

  /** Insertion sort: the model of Ruby's `sort`. */
  function SortBy<T>(s: seq<T>, le: (T, T) -> bool): seq<T>
  {
    if |s| == 0 then [] else Insert(s[0], SortBy(s[1..], le), le)
  }

  lemma {:induction false} InsertPermutes<T>(x: T, s: seq<T>, le: (T, T) -> bool)
    ensures multiset(Insert(x, s, le)) == multiset(s) + multiset{x}
  {
    if |s| > 0 && !le(x, s[0]) {
      InsertPermutes(x, s[1..], le);
      assert s == [s[0]] + s[1..];
    }
  }

  /** Sorting only rearranges its input. */
  lemma {:induction false} SortPermutes<T>(s: seq<T>, le: (T, T) -> bool)
    ensures multiset(SortBy(s, le)) == multiset(s)
  {
    if |s| > 0 {
      SortPermutes(s[1..], le);
      InsertPermutes(s[0], SortBy(s[1..], le), le);
      assert s == [s[0]] + s[1..];
    }
  }

  lemma {:induction false} InsertSorted<T(!new)>(x: T, s: seq<T>, le: (T, T) -> bool)
    requires TotalPreorder(le)
    requires SortedBy(s, le)
    ensures SortedBy(Insert(x, s, le), le)
  {
    if |s| > 0 && !le(x, s[0]) {
      InsertSorted(x, s[1..], le);
      InsertPermutes(x, s[1..], le);
      var t := Insert(x, s[1..], le);
      assert le(s[0], x);
      forall j | 0 < j < |[s[0]] + t| ensures le(s[0], ([s[0]] + t)[j]) {
        var e := t[j - 1];
        assert e in multiset(t);
        assert e == x || e in multiset(s[1..]);
        if e != x {
          var k :| 0 <= k < |s[1..]| && s[1..][k] == e;
          assert s[k + 1] == e;
        }
      }
    }
  }

  /** Sorting yields an ordered sequence. */
  lemma {:induction false} SortSorted<T(!new)>(s: seq<T>, le: (T, T) -> bool)
    requires TotalPreorder(le)
    ensures SortedBy(SortBy(s, le), le)
  {
    if |s| > 0 {
      SortSorted(s[1..], le);
      InsertSorted(s[0], SortBy(s[1..], le), le);
    }
  }

  lemma SortedHeadsAgree<T>(t: seq<T>, u: seq<T>, le: (T, T) -> bool)
    requires |t| > 0 && multiset(t) == multiset(u)
    requires SortedBy(t, le) && SortedBy(u, le)
    requires AntisymmetricOn(t, le)
    ensures |u| > 0 && t[0] == u[0]
  {
    assert t[0] in multiset(u);
    var i :| 0 <= i < |u| && u[i] == t[0];
    assert u[0] in multiset(t);
    var j :| 0 <= j < |t| && t[j] == u[0];
  }

  lemma MultisetTail<T>(t: seq<T>)
    requires |t| > 0
    ensures multiset(t[1..]) == multiset(t) - multiset{t[0]}
  {
    assert t == [t[0]] + t[1..];
  }

  lemma TailAntisymmetric<T>(t: seq<T>, le: (T, T) -> bool)
    requires |t| > 0 && AntisymmetricOn(t, le)
    ensures AntisymmetricOn(t[1..], le)
  {
    forall a, b | 0 <= a < |t[1..]| && 0 <= b < |t[1..]| && le(t[1..][a], t[1..][b]) && le(t[1..][b], t[1..][a])
      ensures t[1..][a] == t[1..][b]
    {
      assert t[1..][a] == t[a + 1] && t[1..][b] == t[b + 1];
    }
  }

  /** Two sorted permutations of one sequence are equal when the order does
      not identify distinct elements: the sort is determined by its input. */
  lemma {:induction false} SortedPermutationIsUnique<T>(t: seq<T>, u: seq<T>, le: (T, T) -> bool)
    requires multiset(t) == multiset(u)
    requires SortedBy(t, le) && SortedBy(u, le)
    requires AntisymmetricOn(t, le)
    ensures t == u
  {
    if |t| == 0 {
      assert |u| == |multiset(u)| == 0;
    } else {
      SortedHeadsAgree(t, u, le);
      MultisetTail(t);
      MultisetTail(u);
      TailAntisymmetric(t, le);
      SortedPermutationIsUnique(t[1..], u[1..], le);
    }
  }

  lemma {:induction false} NoDuplicatesOnce<T>(t: seq<T>, x: T)
    requires NoDuplicates(t)
    ensures multiset(t)[x] <= 1
  {
    if |t| > 0 {
      var init := t[..|t| - 1];
      assert t == init + [t[|t| - 1]];
      NoDuplicatesOnce(init, x);
      if t[|t| - 1] == x {
        assert x !in init;
      }
    }
  }

  /** A rearrangement of distinct elements has distinct elements. */
  lemma PermutationNoDuplicates<T>(t: seq<T>, u: seq<T>)
    requires multiset(t) == multiset(u) && NoDuplicates(t)
    ensures NoDuplicates(u)
  {
    forall i, j | 0 <= i < j < |u| ensures u[i] != u[j] {
      if u[i] == u[j] {
        var x := u[i];
        assert u == u[..j] + [u[j]] + u[j + 1..];
        assert x in u[..j];
        assert multiset(u)[x] >= 2;
        NoDuplicatesOnce(t, x);
      }
    }
  }

  /** `s.map(&f)`. */
  function Map<T, U>(f: T -> U, s: seq<T>): (r: seq<U>)
    ensures |r| == |s| && forall i :: 0 <= i < |s| ==> r[i] == f(s[i])
  {
    seq(|s|, i requires 0 <= i < |s| => f(s[i]))
  }

  lemma MapConcat<T, U>(f: T -> U, a: seq<T>, b: seq<T>)
    ensures Map(f, a + b) == Map(f, a) + Map(f, b)
  {
  }

  /** Dropping the element at `p`. */
  lemma MultisetRemove<T>(u: seq<T>, p: nat)
    requires p < |u|
    ensures multiset(u[..p] + u[p + 1..]) == multiset(u) - multiset{u[p]}
  {
    assert u == u[..p] + [u[p]] + u[p + 1..];
  }

  /** Mapping around the element at `p`. */
  lemma MapAround<T, U>(f: T -> U, u: seq<T>, p: nat)
    requires p < |u|
    ensures Map(f, u) == Map(f, u[..p]) + [f(u[p])] + Map(f, u[p + 1..])
    ensures Map(f, u[..p] + u[p + 1..]) == Map(f, u[..p]) + Map(f, u[p + 1..])
  {
    MapConcat(f, u[..p], u[p + 1..]);
    assert u == u[..p] + [u[p]] + u[p + 1..];
    MapConcat(f, u[..p] + [u[p]], u[p + 1..]);
    MapConcat(f, u[..p], [u[p]]);
  }

  /** Mapping a rearrangement gives a rearrangement. */
  lemma {:induction false} MapPermutes<T, U>(f: T -> U, t: seq<T>, u: seq<T>)
    requires multiset(t) == multiset(u)
    ensures multiset(Map(f, t)) == multiset(Map(f, u))
    decreases |t|
  {
    if |t| > 0 {
      var x := t[0];
      assert x in multiset(u);
      var p :| 0 <= p < |u| && u[p] == x;
      var rest := u[..p] + u[p + 1..];
      MultisetRemove(u, p);
      MultisetTail(t);
      MapPermutes(f, t[1..], rest);
      MapAround(f, u, p);
      MapAround(f, t, 0);
      var a, b := Map(f, u[..p]), Map(f, u[p + 1..]);
      assert multiset(Map(f, u)) == multiset(a) + multiset{f(x)} + multiset(b);
      assert multiset(Map(f, rest)) == multiset(a) + multiset(b);
    }
  }

  // ---------------------------------------------------------------------------
  // Lexicographic order

  /** Ruby's `Array#<=>` as a `<=` test: the first pair of elements that
      differ under `le` decides, and a proper prefix comes first. */
  function LexLe<T>(a: seq<T>, b: seq<T>, le: (T, T) -> bool): bool
  {
    if |a| == 0 then true
    else if |b| == 0 then false
    else if !le(b[0], a[0]) then true
    else if !le(a[0], b[0]) then false
    else LexLe(a[1..], b[1..], le)
  }

  lemma {:induction false} LexTotalAt<T(!new)>(a: seq<T>, b: seq<T>, le: (T, T) -> bool)
    requires Total(le)
    ensures LexLe(a, b, le) || LexLe(b, a, le)
  {
    if |a| > 0 && |b| > 0 && le(b[0], a[0]) && le(a[0], b[0]) {
      LexTotalAt(a[1..], b[1..], le);
    }
  }

  lemma {:induction false} LexTransitiveAt<T(!new)>(a: seq<T>, b: seq<T>, c: seq<T>, le: (T, T) -> bool)
    requires TotalPreorder(le)
    requires LexLe(a, b, le) && LexLe(b, c, le)
    ensures LexLe(a, c, le)
  {
    if |a| > 0 && |b| > 0 && |c| > 0 {
      if le(b[0], a[0]) && le(a[0], b[0]) && le(c[0], b[0]) && le(b[0], c[0]) {
        LexTransitiveAt(a[1..], b[1..], c[1..], le);
      }
    }
  }

  /** The lexicographic order over a total preorder is a total preorder. */
  lemma LexIsTotalPreorder<T(!new)>(le: (T, T) -> bool)
    requires TotalPreorder(le)
    ensures TotalPreorder((a: seq<T>, b: seq<T>) => LexLe(a, b, le))
  {
    var lex := (a: seq<T>, b: seq<T>) => LexLe(a, b, le);
    forall a: seq<T>, b: seq<T> ensures lex(a, b) || lex(b, a) {
      LexTotalAt(a, b, le);
    }
    forall a: seq<T>, b: seq<T>, c: seq<T> | lex(a, b) && lex(b, c) ensures lex(a, c) {
      LexTransitiveAt(a, b, c, le);
    }
  }

  /** Keys that are each at most the other agree everywhere and have the
      same length. */
  lemma {:induction false} LexEquivalent<T(!new)>(a: seq<T>, b: seq<T>, le: (T, T) -> bool)
    requires Total(le)
    requires LexLe(a, b, le) && LexLe(b, a, le)
    ensures |a| == |b|
    ensures forall i :: 0 <= i < |a| ==> le(a[i], b[i]) && le(b[i], a[i])
  {
    if |a| > 0 && |b| > 0 {
      LexEquivalent(a[1..], b[1..], le);
      forall i | 0 < i < |a| ensures le(a[i], b[i]) && le(b[i], a[i]) {
        assert a[1..][i - 1] == a[i] && b[1..][i - 1] == b[i];
      }
    }
  }

  /** Two keys that agree on a common prefix compare as their rests do. */
  lemma {:induction false} LexCommonPrefix<T(!new)>(p: seq<T>, x: seq<T>, y: seq<T>, le: (T, T) -> bool)
    requires Total(le)
    ensures LexLe(p + x, p + y, le) == LexLe(x, y, le)
  {
    if |p| > 0 {
      assert le(p[0], p[0]);
      assert (p + x)[1..] == p[1..] + x;
      assert (p + y)[1..] == p[1..] + y;
      LexCommonPrefix(p[1..], x, y, le);
    } else {
      assert p + x == x && p + y == y;
    }
  }

  /** Ruby's character order: that of the code points, which is also the
      order of their UTF-8 bytes. */
  function CharLe(a: char, b: char): bool
  {
    a <= b
  }

  /** Ruby's `String#<=>` as a `<=` test. */
  function StrLe(a: string, b: string): bool
  {
    LexLe(a, b, CharLe)
  }

  lemma {:induction false} StrLeAntisymmetricAt(a: string, b: string)
    requires StrLe(a, b) && StrLe(b, a)
    ensures a == b
  {
    if |a| > 0 && |b| > 0 {
      StrLeAntisymmetricAt(a[1..], b[1..]);
      assert a == [a[0]] + a[1..] && b == [b[0]] + b[1..];
    }
  }

  /** String order is a total order: sorting distinct strings has one result. */
  lemma StrLeIsTotalOrder()
    ensures TotalPreorder(StrLe)
    ensures forall a, b :: StrLe(a, b) && StrLe(b, a) ==> a == b
  {
    assert TotalPreorder(CharLe);
    forall a, b ensures StrLe(a, b) || StrLe(b, a) {
      LexTotalAt(a, b, CharLe);
    }
    forall a, b, c | StrLe(a, b) && StrLe(b, c) ensures StrLe(a, c) {
      LexTransitiveAt(a, b, c, CharLe);
    }
    forall a, b | StrLe(a, b) && StrLe(b, a) ensures a == b {
      StrLeAntisymmetricAt(a, b);
    }
  }

  /** Sorting strings yields them in string order, as a permutation. */
  lemma SortStrings(s: seq<string>)
    ensures SortedBy(SortBy(s, StrLe), StrLe)
    ensures multiset(SortBy(s, StrLe)) == multiset(s)
  {
    StrLeIsTotalOrder();
    SortSorted(s, StrLe);
    SortPermutes(s, StrLe);
  }

  /** `s.uniq.sort` on strings: sorted, each element once, and exactly the
      elements of `s`. */
  lemma SortedDistinctStrings(s: seq<string>)
    ensures SortedBy(SortBy(Uniq(s), StrLe), StrLe) && NoDuplicates(SortBy(Uniq(s), StrLe))
    ensures forall x :: x in SortBy(Uniq(s), StrLe) <==> x in s
  {
    var u := Uniq(s);
    SortStrings(u);
    UniqNoDuplicates(s);
    UniqMembers(s);
    PermutationNoDuplicates(u, SortBy(u, StrLe));
    assert forall x :: x in SortBy(u, StrLe) <==> x in multiset(u);
  }

  /** Ruby's Integer order. */
  function IntLe(a: int, b: int): bool
  {
    a <= b
  }
}
