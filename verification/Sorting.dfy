/** Sorting as Go's library promises it: insertion stands in for the library's algorithm. */
module Sorting {

  ghost predicate SortedBy<T>(s: seq<T>, leq: (T, T) -> bool) {
    forall i, j :: 0 <= i < j < |s| ==> leq(s[i], s[j])
  }

  /** leq compares any two of these elements, and transitively. */
  ghost predicate TotalOn<T(!new)>(elems: set<T>, leq: (T, T) -> bool) {
    && (forall a, b :: a in elems && b in elems ==> leq(a, b) || leq(b, a))
    && (forall a, b, c :: a in elems && b in elems && c in elems && leq(a, b) && leq(b, c) ==> leq(a, c))
  }

  ghost function Elems<T>(s: seq<T>): set<T> { set x | x in s }

  /** Before the first element it does not exceed. */
  function Insert<T>(x: T, s: seq<T>, leq: (T, T) -> bool): seq<T> {
    if s == [] then [x] else if leq(x, s[0]) then [x] + s else [s[0]] + Insert(x, s[1..], leq)
  }

  function Sorted<T>(s: seq<T>, leq: (T, T) -> bool): seq<T> {
    if s == [] then [] else Insert(s[0], Sorted(s[1..], leq), leq)
  }

  lemma {:induction false} InsertKeeps<T(!new)>(x: T, s: seq<T>, leq: (T, T) -> bool)
    ensures multiset(Insert(x, s, leq)) == multiset(s) + multiset{x}
  {
    if s != [] && !leq(x, s[0]) {
      InsertKeeps(x, s[1..], leq);
      assert s == [s[0]] + s[1..];
    }
  }

  lemma {:induction false} InsertKeepsElems<T(!new)>(x: T, s: seq<T>, leq: (T, T) -> bool)
    ensures multiset(Insert(x, s, leq)) == multiset(s) + multiset{x}
    ensures Elems(Insert(x, s, leq)) == Elems(s) + {x}
  {
    InsertKeeps(x, s, leq);
    var r := Insert(x, s, leq);
    forall y ensures y in Elems(r) <==> y in Elems(s) + {x} {
      assert y in multiset(r) <==> y in multiset(s) + multiset{x};
      assert y in r <==> y in multiset(r);
    }
  }

  lemma LeastInFront<T(!new)>(y: T, rest: seq<T>, leq: (T, T) -> bool)
    requires SortedBy(rest, leq) && forall z :: z in Elems(rest) ==> leq(y, z)
    ensures SortedBy([y] + rest, leq)
  {
    var s := [y] + rest;
    forall i, j | 0 <= i < j < |s| ensures leq(s[i], s[j]) {
      assert s[j] == rest[j - 1] && rest[j - 1] in Elems(rest);
    }
  }

  lemma FirstIsLeast<T(!new)>(s: seq<T>, leq: (T, T) -> bool)
    requires SortedBy(s, leq) && s != []
    ensures forall z :: z in Elems(s[1..]) ==> leq(s[0], z)
  {
    forall z | z in Elems(s[1..]) ensures leq(s[0], z) {
      var k :| 0 <= k < |s[1..]| && s[1..][k] == z;
      assert s[k + 1] == z;
    }
  }

  lemma FirstAndRest<T(!new)>(s: seq<T>)
    requires s != []
    ensures s == [s[0]] + s[1..] && Elems(s) == Elems(s[1..]) + {s[0]}
  {
    assert s == [s[0]] + s[1..];
  }

  lemma {:induction false} InsertSorts<T(!new)>(x: T, s: seq<T>, leq: (T, T) -> bool)
    requires TotalOn(Elems(s) + {x}, leq) && SortedBy(s, leq)
    ensures SortedBy(Insert(x, s, leq), leq)
  {
    if s != [] {
      FirstAndRest(s);
      FirstIsLeast(s, leq);
      var all := Elems(s) + {x};
      assert x in all && s[0] in all;
      if leq(x, s[0]) {
        forall z | z in Elems(s) ensures leq(x, z) {
          assert z in all && (z == s[0] || z in Elems(s[1..]));
        }
        LeastInFront(x, s, leq);
      } else {
        InsertSorts(x, s[1..], leq);
        InsertKeepsElems(x, s[1..], leq);
        LeastInFront(s[0], Insert(x, s[1..], leq), leq);
      }
    }
  }

  /** The same elements, as often, in order. */
  lemma {:induction false} SortedIsSorted<T(!new)>(s: seq<T>, leq: (T, T) -> bool)
    requires TotalOn(Elems(s), leq)
    ensures SortedBy(Sorted(s, leq), leq)
    ensures multiset(Sorted(s, leq)) == multiset(s) && Elems(Sorted(s, leq)) == Elems(s)
  {
    if s != [] {
      FirstAndRest(s);
      SortedIsSorted(s[1..], leq);
      InsertSorts(s[0], Sorted(s[1..], leq), leq);
      InsertKeepsElems(s[0], Sorted(s[1..], leq), leq);
    }
  }

  // ----- Sequences without repetition --------------------------------------------------------

  ghost predicate Different<T>(s: seq<T>) { forall i, j :: 0 <= i < j < |s| ==> s[i] != s[j] }

  lemma OccursTwice<T>(s: seq<T>, i: nat, j: nat)
    requires i < j < |s| && s[i] == s[j]
    ensures multiset(s)[s[i]] >= 2
  {
    assert s == s[..j] + [s[j]] + s[j + 1..];
    assert s[..j][i] == s[i];
    assert s[i] in multiset(s[..j]);
  }

  lemma {:induction false} OccursOnce<T>(s: seq<T>, x: T)
    requires Different(s)
    ensures multiset(s)[x] <= 1
  {
    if s != [] {
      var init := s[..|s| - 1];
      assert s == init + [s[|s| - 1]];
      OccursOnce(init, x);
      if x == s[|s| - 1] { assert x !in init; }
    }
  }

  lemma DifferentIsOnce<T(!new)>(s: seq<T>)
    ensures Different(s) <==> forall x :: multiset(s)[x] <= 1
  {
    if Different(s) {
      forall x ensures multiset(s)[x] <= 1 { OccursOnce(s, x); }
    }
    forall i, j | 0 <= i < j < |s| && s[i] == s[j] ensures multiset(s)[s[i]] >= 2 { OccursTwice(s, i, j); }
  }

  lemma PermutedStaysDifferent<T(!new)>(s: seq<T>, t: seq<T>)
    requires multiset(s) == multiset(t) && Different(s)
    ensures Different(t)
  {
    DifferentIsOnce(s);
    DifferentIsOnce(t);
  }

  lemma {:induction false} DifferentElems<T>(s: seq<T>)
    requires Different(s)
    ensures |Elems(s)| == |s|
  {
    if s != [] {
      var init, last := s[..|s| - 1], s[|s| - 1];
      assert s == init + [last];
      assert Elems(s) == Elems(init) + {last};
      assert last !in init;
      DifferentElems(init);
    }
  }

  // ----- Strings, compared as Go compares them -----------------------------------------------

  predicate Less(a: string, b: string) {
    b != "" && (a == "" || a[0] < b[0] || (a[0] == b[0] && Less(a[1..], b[1..])))
  }

  predicate AtMost(a: string, b: string) { !Less(b, a) }

  lemma {:induction false} LessTrichotomy(a: string, b: string)
    ensures a == b || Less(a, b) || Less(b, a)
    ensures !(Less(a, b) && Less(b, a)) && !Less(a, a)
  {
    if a != "" && b != "" && a[0] == b[0] {
      LessTrichotomy(a[1..], b[1..]);
      assert a == [a[0]] + a[1..] && b == [b[0]] + b[1..];
    }
    if a != "" { LessTrichotomy(a[1..], a[1..]); }
  }

  lemma {:induction false} LessTransitive(a: string, b: string, c: string)
    requires Less(a, b) && Less(b, c)
    ensures Less(a, c)
  {
    if a != "" && a[0] == b[0] && b[0] == c[0] { LessTransitive(a[1..], b[1..], c[1..]); }
  }

  lemma StringsAreOrdered(elems: set<string>)
    ensures TotalOn(elems, AtMost)
  {
    forall a, b ensures AtMost(a, b) || AtMost(b, a) { LessTrichotomy(a, b); }
    forall a, b, c | AtMost(a, b) && AtMost(b, c) ensures AtMost(a, c) {
      LessTrichotomy(a, b);
      LessTrichotomy(b, c);
      LessTrichotomy(a, c);
      if Less(c, a) {
        if a == b || b == c {
        } else {
          LessTransitive(a, b, c);
        }
      }
    }
  }
}
