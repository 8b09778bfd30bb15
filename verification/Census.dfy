/**
  Counting by name with a cap on how many distinct names are remembered, as the three
  censuses of internal/assess do it: past the cap, new names are counted together
  under one overflow name.
 */
module Census {
  import opened Sorting

  type Counts = map<string, nat>

  datatype Cap = Cap(names: nat, overflow: string)

  /** One addition: `n` constructs called `name`. */
  datatype Addition = Addition(name: string, n: nat)

  function Get(m: Counts, name: string): nat { if name in m then m[name] else 0 }

  predicate Overflows(cap: Cap, m: Counts, name: string) { name !in m && |m| >= cap.names }

  /** The name an addition is filed under. */
  function FiledUnder(cap: Cap, m: Counts, name: string): string {
    if Overflows(cap, m, name) then cap.overflow else name
  }

  function Bump(m: Counts, name: string, n: nat): Counts { m[name := Get(m, name) + n] }

  function Add(cap: Cap, m: Counts, e: Addition): Counts { Bump(m, FiledUnder(cap, m, e.name), e.n) }

  function AddAll(cap: Cap, m: Counts, es: seq<Addition>): Counts {
    if es == [] then m else Add(cap, AddAll(cap, m, es[..|es| - 1]), es[|es| - 1])
  }

  /** Some addition was filed under the overflow name. */
  ghost predicate CapReached(cap: Cap, m: Counts, es: seq<Addition>) {
    es != [] && (CapReached(cap, m, es[..|es| - 1])
                 || Overflows(cap, AddAll(cap, m, es[..|es| - 1]), es[|es| - 1].name))
  }

  lemma {:induction false} AddAllStep(cap: Cap, m: Counts, es: seq<Addition>, i: nat)
    requires i < |es|
    ensures AddAll(cap, m, es[..i + 1]) == Add(cap, AddAll(cap, m, es[..i]), es[i])
    ensures CapReached(cap, m, es[..i + 1]) <==>
              CapReached(cap, m, es[..i]) || Overflows(cap, AddAll(cap, m, es[..i]), es[i].name)
  {
    assert es[..i + 1][..i] == es[..i];
  }

  function One(name: string): Addition { Addition(name, 1) }

  // ----- Totals ---------------------------------------------------------------------

  ghost function Sum(m: Counts): nat
    decreases |m|
  {
    if m == map[] then 0 else
    var k :| k in m;
    m[k] + Sum(m - {k})
  }

  lemma {:induction false} SumSplits(m: Counts, k: string)
    requires k in m
    ensures Sum(m) == m[k] + Sum(m - {k})
    decreases |m|
  {
    var k' :| k' in m && Sum(m) == m[k'] + Sum(m - {k'});
    if k' != k {
      SumSplits(m - {k'}, k);
      SumSplits(m - {k}, k');
      assert m - {k'} - {k} == m - {k} - {k'};
    }
  }

  lemma {:induction false} SumUpdate(m: Counts, k: string, v: nat)
    ensures Sum(m[k := v]) + Get(m, k) == Sum(m) + v
  {
    var m' := m[k := v];
    SumSplits(m', k);
    if k in m {
      SumSplits(m, k);
      assert m' - {k} == m - {k};
    } else {
      assert m' - {k} == m;
    }
  }

  lemma {:induction false} BumpSum(m: Counts, name: string, n: nat)
    ensures Sum(Bump(m, name, n)) == Sum(m) + n
  {
    SumUpdate(m, name, Get(m, name) + n);
  }

  lemma {:induction false} AddSum(cap: Cap, m: Counts, e: Addition)
    ensures Sum(Add(cap, m, e)) == Sum(m) + e.n
  {
    BumpSum(m, FiledUnder(cap, m, e.name), e.n);
  }

  ghost function TotalOf(es: seq<Addition>): nat {
    if es == [] then 0 else TotalOf(es[..|es| - 1]) + es[|es| - 1].n
  }

  /** Naming may be inexact past the cap; the total never is. */
  lemma {:induction false} TotalsStayExact(cap: Cap, m: Counts, es: seq<Addition>)
    ensures Sum(AddAll(cap, m, es)) == Sum(m) + TotalOf(es)
  {
    if es != [] {
      TotalsStayExact(cap, m, es[..|es| - 1]);
      AddSum(cap, AddAll(cap, m, es[..|es| - 1]), es[|es| - 1]);
    }
  }

  ghost predicate Bounded(cap: Cap, m: Counts) {
    |m| <= cap.names || (|m| == cap.names + 1 && cap.overflow in m)
  }

  /** Memory stays bounded: at most one name more than the cap. */
  lemma {:induction false} SizeStaysBounded(cap: Cap, m: Counts, es: seq<Addition>)
    requires Bounded(cap, m)
    ensures Bounded(cap, AddAll(cap, m, es)) && |AddAll(cap, m, es)| <= cap.names + 1
  {
    if es != [] {
      SizeStaysBounded(cap, m, es[..|es| - 1]);
      var before := AddAll(cap, m, es[..|es| - 1]);
      var name := FiledUnder(cap, before, es[|es| - 1].name);
      var after := AddAll(cap, m, es);
      assert after.Keys == before.Keys + {name};
      assert |after| == |after.Keys| && |before| == |before.Keys|;
    }
  }

  // ----- Below the cap ----------------------------------------------------------------

  ghost function NamesOf(es: seq<Addition>): set<string> {
    if es == [] then {} else NamesOf(es[..|es| - 1]) + {es[|es| - 1].name}
  }

  lemma {:induction false} NamesAreListed(es: seq<Addition>, name: string)
    ensures name in NamesOf(es) <==> exists e :: e in es && e.name == name
  {
    if es != [] {
      var init, last := es[..|es| - 1], es[|es| - 1];
      assert es == init + [last];
      NamesAreListed(init, name);
    }
  }

  ghost function CountOf(es: seq<Addition>, name: string): nat {
    if es == [] then 0
    else CountOf(es[..|es| - 1], name) + (if es[|es| - 1].name == name then es[|es| - 1].n else 0)
  }

  lemma RoomForOneMore(cap: Cap, before: Counts, name: string)
    requires |before.Keys + {name}| <= cap.names
    ensures !Overflows(cap, before, name)
  {
    if name !in before {
      assert |before.Keys + {name}| == |before.Keys| + 1;
    }
  }

  lemma AddedName(cap: Cap, before: Counts, e: Addition)
    requires |before.Keys + {e.name}| <= cap.names
    ensures !Overflows(cap, before, e.name)
    ensures Add(cap, before, e).Keys == before.Keys + {e.name}
  {
    RoomForOneMore(cap, before, e.name);
  }

  lemma {:induction false} BelowCapStep(cap: Cap, m: Counts, before: Counts, es: seq<Addition>)
    requires es != [] && |m.Keys + NamesOf(es)| <= cap.names
    requires before.Keys == m.Keys + NamesOf(es[..|es| - 1])
    ensures !Overflows(cap, before, es[|es| - 1].name)
    ensures Add(cap, before, es[|es| - 1]).Keys == m.Keys + NamesOf(es)
  {
    var e := es[|es| - 1];
    assert m.Keys + NamesOf(es) == before.Keys + {e.name};
    AddedName(cap, before, e);
  }

  /** While the distinct names fit under the cap, the map is the exact histogram. */
  lemma {:induction false} BelowCapIsExact(cap: Cap, m: Counts, es: seq<Addition>)
    requires |m.Keys + NamesOf(es)| <= cap.names
    ensures AddAll(cap, m, es).Keys == m.Keys + NamesOf(es)
    ensures forall name :: Get(AddAll(cap, m, es), name) == Get(m, name) + CountOf(es, name)
  {
    if es != [] {
      var init := es[..|es| - 1];
      FitsSmaller(m.Keys + NamesOf(init), m.Keys + NamesOf(es));
      BelowCapIsExact(cap, m, init);
      BelowCapStep(cap, m, AddAll(cap, m, init), es);
    }
  }

  /** ... and the overflow name is never resorted to. */
  lemma {:induction false} CapNotReached(cap: Cap, m: Counts, es: seq<Addition>)
    requires |m.Keys + NamesOf(es)| <= cap.names
    ensures !CapReached(cap, m, es)
  {
    if es != [] {
      var init := es[..|es| - 1];
      FitsSmaller(m.Keys + NamesOf(init), m.Keys + NamesOf(es));
      CapNotReached(cap, m, init);
      BelowCapIsExact(cap, m, init);
      BelowCapStep(cap, m, AddAll(cap, m, init), es);
    }
  }

  lemma FitsSmaller(a: set<string>, b: set<string>)
    requires a <= b
    ensures |a| <= |b|
  {
    assert b == a + (b - a);
  }

  /** Taking one entry out of the middle. */
  lemma {:induction false} CountWithout(b: seq<Addition>, i: nat, name: string)
    requires i < |b|
    ensures CountOf(b, name) == CountOf(b[..i] + b[i + 1..], name) + CountOf([b[i]], name)
  {
    assert b == b[..i] + ([b[i]] + b[i + 1..]);
    CountOfConcat(b[..i], [b[i]] + b[i + 1..], name);
    CountOfConcat([b[i]], b[i + 1..], name);
    CountOfConcat(b[..i], b[i + 1..], name);
  }

  lemma WithoutOne(b: seq<Addition>, i: nat)
    requires i < |b|
    ensures multiset(b) == multiset(b[..i] + b[i + 1..]) + multiset{b[i]}
  {
    assert b == b[..i] + [b[i]] + b[i + 1..];
  }

  lemma SameRest(x: multiset<Addition>, y: multiset<Addition>, e: Addition)
    requires x + multiset{e} == y + multiset{e}
    ensures x == y
  {
    assert x == (x + multiset{e}) - multiset{e};
    assert y == (y + multiset{e}) - multiset{e};
  }

  lemma WithoutBoth(a: seq<Addition>, b: seq<Addition>, i: nat)
    requires a != [] && i < |b| && multiset(a) == multiset(b) && b[i] == a[|a| - 1]
    ensures multiset(a[..|a| - 1]) == multiset(b[..i] + b[i + 1..])
  {
    WithoutOne(b, i);
    assert a == a[..|a| - 1] + [b[i]];
    assert multiset(a) == multiset(a[..|a| - 1]) + multiset{b[i]};
    SameRest(multiset(a[..|a| - 1]), multiset(b[..i] + b[i + 1..]), b[i]);
  }

  lemma {:induction false} CountOfPermutation(a: seq<Addition>, b: seq<Addition>, name: string)
    requires multiset(a) == multiset(b)
    ensures CountOf(a, name) == CountOf(b, name)
  {
    if a == [] {
      assert |multiset(b)| == 0;
    } else {
      var init, last := a[..|a| - 1], a[|a| - 1];
      var i := FindIn(a, b, last);
      CountWithout(b, i, name);
      WithoutBoth(a, b, i);
      CountOfPermutation(init, b[..i] + b[i + 1..], name);
      assert [last][..0] == [];
    }
  }

  lemma FindIn(a: seq<Addition>, b: seq<Addition>, e: Addition) returns (i: nat)
    requires multiset(a) == multiset(b) && e in a
    ensures i < |b| && b[i] == e
  {
    assert e in multiset(a);
    assert e in multiset(b);
    i :| 0 <= i < |b| && b[i] == e;
  }

  lemma {:induction false} CountOfConcat(a: seq<Addition>, b: seq<Addition>, name: string)
    ensures CountOf(a + b, name) == CountOf(a, name) + CountOf(b, name)
  {
    if b == [] {
      assert a + b == a;
    } else {
      assert (a + b)[..|a + b| - 1] == a + b[..|b| - 1];
      CountOfConcat(a, b[..|b| - 1], name);
    }
  }

  /** ... whatever order the additions come in. */
  lemma {:induction false} OrderIsIrrelevantBelowCap(cap: Cap, m: Counts, a: seq<Addition>, b: seq<Addition>)
    requires multiset(a) == multiset(b) && |m.Keys + NamesOf(a)| <= cap.names
    ensures AddAll(cap, m, a) == AddAll(cap, m, b)
  {
    SameNames(a, b);
    BelowCapIsExact(cap, m, a);
    BelowCapIsExact(cap, m, b);
    var x, y := AddAll(cap, m, a), AddAll(cap, m, b);
    forall name | name in x ensures x[name] == y[name] {
      CountOfPermutation(a, b, name);
      assert Get(x, name) == Get(y, name);
    }
  }

  lemma {:induction false} SameNames(a: seq<Addition>, b: seq<Addition>)
    requires multiset(a) == multiset(b)
    ensures NamesOf(a) == NamesOf(b)
  {
    assert forall e :: e in a <==> e in multiset(a);
    assert forall e :: e in b <==> e in multiset(b);
    forall name ensures name in NamesOf(a) <==> name in NamesOf(b) {
      NamesAreListed(a, name);
      NamesAreListed(b, name);
    }
  }

  // ----- Merging one census into another ------------------------------------------------

  /** The entries of a map, one per key, in some order of its keys. */
  ghost predicate Lists(keys: seq<string>, m: Counts) {
    && (forall i, j :: 0 <= i < j < |keys| ==> keys[i] != keys[j])
    && (forall k :: k in keys <==> k in m)
  }

  function EntriesOf(m: Counts, keys: seq<string>): (es: seq<Addition>)
    requires forall k :: k in keys ==> k in m
    ensures |es| == |keys| && forall i :: 0 <= i < |keys| ==> es[i] == Addition(keys[i], m[keys[i]])
  {
    seq(|keys|, i requires 0 <= i < |keys| => Addition(keys[i], m[keys[i]]))
  }

  lemma ListsInit(m: Counts, keys: seq<string>)
    requires Lists(keys, m) && keys != []
    ensures var init, last := keys[..|keys| - 1], keys[|keys| - 1];
            Lists(init, m - {last}) && EntriesOf(m, keys)[..|keys| - 1] == EntriesOf(m - {last}, init)
  {
    var init, last := keys[..|keys| - 1], keys[|keys| - 1];
    assert keys == init + [last];
    assert last !in init;
    assert forall k :: k in init <==> k in m - {last};
  }

  lemma {:induction false} EntriesTotal(m: Counts, keys: seq<string>)
    requires Lists(keys, m)
    ensures TotalOf(EntriesOf(m, keys)) == Sum(m)
    decreases |keys|
  {
    if keys == [] {
      assert m == map[];
    } else {
      var init, last := keys[..|keys| - 1], keys[|keys| - 1];
      SumSplits(m, last);
      ListsInit(m, keys);
      EntriesTotal(m - {last}, init);
    }
  }

  lemma {:induction false} EntriesCount(m: Counts, keys: seq<string>, name: string)
    requires Lists(keys, m)
    ensures CountOf(EntriesOf(m, keys), name) == Get(m, name)
    decreases |keys|
  {
    if keys != [] {
      var init, last := keys[..|keys| - 1], keys[|keys| - 1];
      ListsInit(m, keys);
      EntriesCount(m - {last}, init, name);
    }
  }

  /** Merging adds the totals exactly; below the cap it is the pointwise sum, whatever the key order. */
  lemma {:induction false} MergeAddsUp(cap: Cap, dst: Counts, src: Counts, keys: seq<string>)
    requires Lists(keys, src)
    ensures Sum(AddAll(cap, dst, EntriesOf(src, keys))) == Sum(dst) + Sum(src)
    ensures |dst.Keys + src.Keys| <= cap.names ==>
      forall name :: Get(AddAll(cap, dst, EntriesOf(src, keys)), name) == Get(dst, name) + Get(src, name)
  {
    var es := EntriesOf(src, keys);
    TotalsStayExact(cap, dst, es);
    EntriesTotal(src, keys);
    if |dst.Keys + src.Keys| <= cap.names {
      EntriesNames(src, keys);
      BelowCapIsExact(cap, dst, es);
      forall name ensures Get(AddAll(cap, dst, es), name) == Get(dst, name) + Get(src, name) {
        EntriesCount(src, keys, name);
      }
    }
  }

  lemma {:induction false} EntriesNames(m: Counts, keys: seq<string>)
    requires Lists(keys, m)
    ensures NamesOf(EntriesOf(m, keys)) == m.Keys
    decreases |keys|
  {
    if keys == [] {
      assert m == map[];
    } else {
      var last := keys[|keys| - 1];
      ListsInit(m, keys);
      EntriesNames(m - {last}, keys[..|keys| - 1]);
      assert last in m;
    }
  }

  // ----- Looping over a map ---------------------------------------------------------------------------

  ghost predicate Ordered(keys: seq<string>, m: Counts) { Lists(keys, m) && SortedBy(keys, AtMost) }

  lemma {:induction false} SortingAListing(found: seq<string>, m: Counts)
    requires Lists(found, m)
    ensures Ordered(Sorted(found, AtMost), m)
  {
    var keys := Sorted(found, AtMost);
    StringsAreOrdered(Elems(found));
    SortedIsSorted(found, AtMost);
    PermutedStaysDifferent(found, keys);
    forall k ensures k in keys <==> k in m {
      assert k in keys <==> k in Elems(keys);
      assert k in found <==> k in Elems(found);
    }
  }

  lemma {:induction false} ListingExists(m: Counts) returns (keys: seq<string>)
    ensures Lists(keys, m)
    decreases |m|
  {
    keys := [];
    if m != map[] {
      var k :| k in m;
      var rest := ListingExists(m - {k});
      keys := rest + [k];
    }
  }

  lemma SameLastName(m: Counts, a: seq<string>, b: seq<string>)
    requires Ordered(a, m) && Ordered(b, m) && a != [] && b != []
    ensures a[|a| - 1] == b[|b| - 1]
  {
    var x, y := a[|a| - 1], b[|b| - 1];
    assert x in m && y in m;
    var i :| 0 <= i < |b| && b[i] == x;
    var j :| 0 <= j < |a| && a[j] == y;
    LessTrichotomy(x, y);
  }

  lemma OrderedInit(m: Counts, keys: seq<string>)
    requires Ordered(keys, m) && keys != []
    ensures Ordered(keys[..|keys| - 1], m - {keys[|keys| - 1]})
  {
    ListsInit(m, keys);
    var init := keys[..|keys| - 1];
    forall i, j | 0 <= i < j < |init| ensures AtMost(init[i], init[j]) {
      assert init[i] == keys[i] && init[j] == keys[j];
    }
  }

  lemma NothingListed(m: Counts, keys: seq<string>)
    requires Lists(keys, m)
    ensures keys == [] <==> m == map[]
  {
    if keys != [] { assert keys[0] in keys; }
  }

  lemma SplitLast(a: seq<string>, b: seq<string>)
    requires a != [] && b != [] && a[|a| - 1] == b[|b| - 1] && a[..|a| - 1] == b[..|b| - 1]
    ensures a == b
  {
    assert a == a[..|a| - 1] + [a[|a| - 1]] && b == b[..|b| - 1] + [b[|b| - 1]];
  }

  /** There is one way to put the names in order. */
  lemma {:induction false} OneOrder(m: Counts, a: seq<string>, b: seq<string>)
    requires Ordered(a, m) && Ordered(b, m)
    ensures a == b
    decreases |a|
  {
    NothingListed(m, a);
    NothingListed(m, b);
    if a != [] {
      SameLastName(m, a, b);
      OrderedInit(m, a);
      OrderedInit(m, b);
      OneOrder(m - {a[|a| - 1]}, a[..|a| - 1], b[..|b| - 1]);
      SplitLast(a, b);
    }
  }

  /** The names in order. */
  ghost function InOrder(m: Counts): (keys: seq<string>)
    ensures Ordered(keys, m)
  {
    OrderExists(m);
    var keys :| Ordered(keys, m);
    keys
  }

  lemma OrderExists(m: Counts)
    ensures exists keys :: Ordered(keys, m)
  {
    var found := ListingExists(m);
    SortingAListing(found, m);
  }

  /** Its keys in order, so that what is built from them does not depend on the map's own order. */
  method SortedKeys(m: Counts) returns (keys: seq<string>)
    ensures keys == InOrder(m)
  {
    var pending := m.Keys;
    var found: seq<string> := [];
    while pending != {}
      invariant pending <= m.Keys
      invariant forall k :: k in found <==> k in m && k !in pending
      invariant Different(found)
      decreases |pending|
    {
      var k :| k in pending;
      found := found + [k];
      pending := pending - {k};
    }
    keys := Sorted(found, AtMost);
    SortingAListing(found, m);
    OneOrder(m, keys, InOrder(m));
  }

  lemma {:induction false} ListsLength(keys: seq<string>, m: Counts)
    requires Lists(keys, m)
    ensures |keys| == |m|
    decreases |keys|
  {
    if keys == [] {
      assert m == map[];
    } else {
      var last := keys[|keys| - 1];
      ListsInit(m, keys);
      ListsLength(keys[..|keys| - 1], m - {last});
      assert m.Keys == (m - {last}).Keys + {last};
    }
  }

  ghost function Where(m: Counts, c: string -> nat, i: nat): Counts { map k | k in m && c(k) == i :: m[k] }

  /** The part of the total under the names of class i. */
  ghost function SumWhere(m: Counts, c: string -> nat, i: nat): nat { Sum(Where(m, c, i)) }

  lemma SumWhereSplits(m: Counts, k: string, c: string -> nat, i: nat)
    requires k in m
    ensures SumWhere(m, c, i) == SumWhere(m - {k}, c, i) + (if c(k) == i then m[k] else 0)
  {
    if c(k) == i {
      SumSplits(Where(m, c, i), k);
      assert Where(m, c, i) - {k} == Where(m - {k}, c, i);
    } else {
      assert Where(m, c, i) == Where(m - {k}, c, i);
    }
  }

  /** The same, adding up a list of names. */
  ghost function ListedWhere(m: Counts, keys: seq<string>, c: string -> nat, i: nat): nat {
    if keys == [] then 0
    else
      var last := keys[|keys| - 1];
      ListedWhere(m, keys[..|keys| - 1], c, i) + (if c(last) == i then Get(m, last) else 0)
  }

  lemma {:induction false} ListedStep(m: Counts, keys: seq<string>, j: nat, c: string -> nat)
    requires j < |keys| && keys[j] in m
    ensures forall i: nat :: ListedWhere(m, keys[..j + 1], c, i)
                        == ListedWhere(m, keys[..j], c, i) + (if c(keys[j]) == i then m[keys[j]] else 0)
  {
    assert keys[..j + 1][..j] == keys[..j];
  }

  lemma {:induction false} ListedIsSum(m: Counts, keys: seq<string>, c: string -> nat, i: nat)
    requires Lists(keys, m)
    ensures ListedWhere(m, keys, c, i) == SumWhere(m, c, i)
    decreases |keys|
  {
    if keys == [] {
      assert Where(m, c, i) == map[];
    } else {
      var init, last := keys[..|keys| - 1], keys[|keys| - 1];
      ListsInit(m, keys);
      ListedIsSum(m - {last}, init, c, i);
      ListedLess(m, last, init, c, i);
      assert last in keys;
      SumWhereSplits(m, last, c, i);
    }
  }

  lemma {:induction false} ListedLess(m: Counts, k: string, keys: seq<string>, c: string -> nat, i: nat)
    requires k !in keys
    ensures ListedWhere(m, keys, c, i) == ListedWhere(m - {k}, keys, c, i)
  {
    if keys != [] {
      assert keys[|keys| - 1] in keys;
      ListedLess(m, k, keys[..|keys| - 1], c, i);
    }
  }

  /** Every name in one of four classes: the totals of the classes are the total. */
  lemma {:induction false} ClassesPartition(m: Counts, c: string -> nat)
    requires forall k :: k in m ==> c(k) < 4
    ensures Sum(m) == SumWhere(m, c, 0) + SumWhere(m, c, 1) + SumWhere(m, c, 2) + SumWhere(m, c, 3)
    decreases |m|
  {
    if m == map[] {
      assert forall i: nat :: Where(m, c, i) == map[];
    } else {
      var k :| k in m;
      SumSplits(m, k);
      ClassesPartition(m - {k}, c);
      SumWhereSplits(m, k, c, 0);
      SumWhereSplits(m, k, c, 1);
      SumWhereSplits(m, k, c, 2);
      SumWhereSplits(m, k, c, 3);
    }
  }

  /** Adds up each class, looping over the names in order. */
  method SumClasses(m: Counts, c: string -> nat) returns (n: seq<nat>)
    requires forall k :: k in m ==> c(k) < 4
    ensures |n| == 4 && forall i :: 0 <= i < 4 ==> n[i] == SumWhere(m, c, i)
  {
    var keys := SortedKeys(m);
    n := [0, 0, 0, 0];
    for j := 0 to |keys|
      invariant |n| == 4 && forall i :: 0 <= i < 4 ==> n[i] == ListedWhere(m, keys[..j], c, i)
    {
      assert keys[j] in keys;
      ListedStep(m, keys, j, c);
      var i := c(keys[j]);
      n := n[i := n[i] + m[keys[j]]];
    }
    assert keys[..|keys|] == keys;
    forall i | 0 <= i < 4 ensures n[i] == SumWhere(m, c, i) { ListedIsSum(m, keys, c, i); }
  }

  method SumCounts(m: Counts) returns (total: nat)
    ensures total == Sum(m)
  {
    total := 0;
    var pending := m.Keys;
    assert m - pending == map[];
    while pending != {}
      invariant pending <= m.Keys && total == Sum(m - pending)
      decreases |pending|
    {
      var k :| k in pending;
      SumSplits(m - (pending - {k}), k);
      assert m - (pending - {k}) - {k} == m - pending;
      total := total + m[k];
      pending := pending - {k};
    }
    assert m - {} == m;
  }

  /** Counting names rather than what is counted under them. */
  function Ones(m: Counts): Counts { map k | k in m :: 1 }

  lemma {:induction false} OnesSum(m: Counts)
    ensures Sum(Ones(m)) == |m|
    decreases |m|
  {
    if m != map[] {
      var k :| k in m;
      SumSplits(Ones(m), k);
      assert Ones(m) - {k} == Ones(m - {k});
      OnesSum(m - {k});
      assert m.Keys == (m - {k}).Keys + {k};
    }
  }
}
