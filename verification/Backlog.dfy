/**
  Re-ranking of a backlog, internal/core/projects/backlog.go: list the space, sort by rank,
  take the item out, put it back where it was dropped, and write every rank again.
 */
module Backlog {
  import opened Sorting
  import opened Decimal

  type ID = nat

  datatype Option<T> = None | Some(value: T)

  /** What re-ranking reads and writes of an item. */
  datatype Item = Item(id: ID, rank: string)

  datatype Outcome = Done | ListFailed | NotFound | UpdateFailed

  predicate ByRank(a: Item, b: Item) { AtMost(a.rank, b.rank) }

  ghost predicate Distinct(s: seq<Item>) { forall i, j :: 0 <= i < j < |s| ==> s[i].id != s[j].id }

  /** The first place an id stands, or the length if nowhere. */
  function IndexOf(s: seq<Item>, id: ID): (i: nat)
    ensures i <= |s| && (i < |s| ==> s[i].id == id) && forall j :: 0 <= j < i ==> s[j].id != id
  {
    if s == [] || s[0].id == id then 0 else 1 + IndexOf(s[1..], id)
  }

  function Without(s: seq<Item>, id: ID): seq<Item> {
    if s == [] then []
    else if s[|s| - 1].id == id then Without(s[..|s| - 1], id)
    else Without(s[..|s| - 1], id) + [s[|s| - 1]]
  }

  /** Where the item is put back among the others: `before` decides if it is given at all, and a
      neighbour that is not there means the end. */
  function InsertIndex(rest: seq<Item>, before: Option<ID>, after: Option<ID>): (i: nat)
    ensures i <= |rest|
  {
    match before
    case Some(b) => IndexOf(rest, b)
    case None =>
      match after
      case Some(a) => if IndexOf(rest, a) < |rest| then IndexOf(rest, a) + 1 else |rest|
      case None => |rest|
  }

  function NewOrder(sorted: seq<Item>, id: ID, before: Option<ID>, after: Option<ID>): seq<Item>
    requires IndexOf(sorted, id) < |sorted|
  {
    var rest := Without(sorted, id);
    var i := InsertIndex(rest, before, after);
    rest[..i] + [sorted[IndexOf(sorted, id)]] + rest[i..]
  }

  /** The rank written at a one-based position: "0|%06d:". */
  function RankAt(position: nat): string { "0|" + Padded(position, 6) + ":" }

  // ----- The stored ranks --------------------------------------------------------------------------

  /** `order` with fresh ranks on its first `n` items. */
  function Ranked(order: seq<Item>, n: nat): seq<Item>
    requires n <= |order|
  {
    seq(|order|, i requires 0 <= i < |order| => if i < n then order[i].(rank := RankAt(i + 1)) else order[i])
  }

  /** The store holds exactly these items. */
  ghost predicate Holds(rows: map<ID, string>, s: seq<Item>) {
    && (forall i :: 0 <= i < |s| ==> s[i].id in rows && rows[s[i].id] == s[i].rank)
    && (forall id :: id in rows ==> exists i :: 0 <= i < |s| && s[i].id == id)
    && Distinct(s)
  }

  /** A listing of the store, put in order of rank. */
  ghost predicate IsSortedListing(rows: map<ID, string>, sorted: seq<Item>) {
    Holds(rows, sorted) && SortedBy(sorted, ByRank)
  }

  /** The items of one space, behind the item repository. */
  class ItemRepository {
    var rows: map<ID, string>

    constructor (rows: map<ID, string>)
      ensures this.rows == rows
    {
      this.rows := rows;
    }

    /** Every item, in no particular order. */
    method ListBySpace() returns (all: seq<Item>)
      ensures Holds(rows, all)
    {
      all := [];
      var pending := rows.Keys;
      while pending != {}
        invariant pending <= rows.Keys && Distinct(all)
        invariant forall i :: 0 <= i < |all| ==>
                    all[i].id in rows && rows[all[i].id] == all[i].rank && all[i].id !in pending
        invariant forall id :: id in rows && id !in pending ==> exists i :: 0 <= i < |all| && all[i].id == id
        decreases |pending|
      {
        var id :| id in pending;
        ghost var listed := all;
        all := all + [Item(id, rows[id])];
        pending := pending - {id};
        forall other | other in rows && other !in pending ensures exists i :: 0 <= i < |all| && all[i].id == other {
          if other == id {
            assert all[|listed|].id == other;
          } else {
            var i :| 0 <= i < |listed| && listed[i].id == other;
            assert all[i].id == other;
          }
        }
      }
    }

    /** Writes one item; `fails` when the store does. */
    method Update(it: Item, fails: bool) returns (ok: bool)
      modifies this
      ensures ok == !fails && rows == if ok then old(rows)[it.id := it.rank] else old(rows)
    {
      if fails {
        return false;
      }
      rows := rows[it.id := it.rank];
      return true;
    }
  }

  /** Any listing, sorted, is a sorted listing. */
  lemma {:induction false} SortingAListing(rows: map<ID, string>, all: seq<Item>)
    requires Holds(rows, all)
    ensures IsSortedListing(rows, Sorted(all, ByRank))
  {
    var sorted := Sorted(all, ByRank);
    RanksAreOrdered(Elems(all));
    SortedIsSorted(all, ByRank);
    SameElements(all, sorted);
    forall i | 0 <= i < |sorted| ensures sorted[i].id in rows && rows[sorted[i].id] == sorted[i].rank {
      assert sorted[i] in Elems(sorted);
      var j :| 0 <= j < |all| && all[j] == sorted[i];
    }
    forall id | id in rows ensures exists i :: 0 <= i < |sorted| && sorted[i].id == id {
      var j :| 0 <= j < |all| && all[j].id == id;
      assert all[j] in Elems(sorted);
      var i :| 0 <= i < |sorted| && sorted[i] == all[j];
    }
  }

  lemma RanksAreOrdered(items: set<Item>)
    ensures TotalOn(items, ByRank)
  {
    StringsAreOrdered(set it | it in items :: it.rank);
    forall a, b | a in items && b in items ensures ByRank(a, b) || ByRank(b, a) {}
    forall a, b, c | a in items && b in items && c in items && ByRank(a, b) && ByRank(b, c) ensures ByRank(a, c) {}
  }

  /** A permutation of items with distinct ids has distinct ids. */
  lemma SameElements(s: seq<Item>, t: seq<Item>)
    requires multiset(s) == multiset(t) && Distinct(s)
    ensures Distinct(t)
  {
    PermutedStaysDifferent(s, t);
    forall i, j | 0 <= i < j < |t| ensures t[i].id != t[j].id {
      assert t[i] in multiset(t) && t[j] in multiset(t);
      var k :| 0 <= k < |s| && s[k] == t[i];
      var m :| 0 <= m < |s| && s[m] == t[j];
      assert k != m;
    }
  }

  // ----- The new order ---------------------------------------------------------------------------------

  lemma {:induction false} WithoutAbsent(s: seq<Item>, id: ID)
    requires forall i :: 0 <= i < |s| ==> s[i].id != id
    ensures Without(s, id) == s
  {
    if s != [] { WithoutAbsent(s[..|s| - 1], id); }
  }

  lemma {:induction false} WithoutConcat(a: seq<Item>, b: seq<Item>, id: ID)
    ensures Without(a + b, id) == Without(a, id) + Without(b, id)
  {
    if b == [] {
      assert a + b == a;
    } else {
      assert (a + b)[..|a + b| - 1] == a + b[..|b| - 1];
      WithoutConcat(a, b[..|b| - 1], id);
    }
  }

  /** Taking an item out leaves what was around it. */
  lemma {:induction false} WithoutOne(a: seq<Item>, it: Item, b: seq<Item>)
    requires Distinct(a + [it] + b)
    ensures Without(a + [it] + b, it.id) == a + b && IndexOf(a + [it] + b, it.id) == |a|
  {
    var s := a + [it] + b;
    assert s[|a|] == it;
    forall i | 0 <= i < |a| ensures a[i].id != it.id { assert s[i] == a[i]; }
    forall i | 0 <= i < |b| ensures b[i].id != it.id { assert s[|a| + 1 + i] == b[i]; }
    WithoutAbsent(a, it.id);
    WithoutAbsent(b, it.id);
    assert [it][..0] == [];
    assert Without([it], it.id) == [];
    WithoutConcat(a, [it], it.id);
    WithoutConcat(a + [it], b, it.id);
  }

  lemma {:induction false} WithoutSplit(s: seq<Item>, id: ID)
    requires Distinct(s) && IndexOf(s, id) < |s|
    ensures var i := IndexOf(s, id);
            Without(s, id) == s[..i] + s[i + 1..] && s == s[..i] + [s[i]] + s[i + 1..]
  {
    var i := IndexOf(s, id);
    assert s == s[..i] + [s[i]] + s[i + 1..];
    WithoutOne(s[..i], s[i], s[i + 1..]);
  }

  lemma {:induction false} MovedItems(a: seq<Item>, x: Item, b: seq<Item>, c: seq<Item>, d: seq<Item>)
    requires a + b == c + d && Distinct(a + [x] + b)
    ensures multiset(c + [x] + d) == multiset(a + [x] + b) && Distinct(c + [x] + d)
    ensures Without(c + [x] + d, x.id) == c + d && IndexOf(c + [x] + d, x.id) == |c|
  {
    WithMiddle(a, x, b);
    WithMiddle(c, x, d);
    SameElements(a + [x] + b, c + [x] + d);
    WithoutOne(c, x, d);
  }

  lemma WithMiddle<T>(a: seq<T>, x: T, b: seq<T>)
    ensures multiset(a + [x] + b) == multiset(a + b) + multiset{x}
  {
    assert multiset(a + b) == multiset(a) + multiset(b);
    assert multiset(a + [x] + b) == multiset(a + [x]) + multiset(b);
  }

  lemma {:induction false} NewOrderSplits(sorted: seq<Item>, id: ID, before: Option<ID>, after: Option<ID>)
    requires Distinct(sorted) && IndexOf(sorted, id) < |sorted|
    ensures var order, rest := NewOrder(sorted, id, before, after), Without(sorted, id);
      && multiset(order) == multiset(sorted) && Distinct(order)
      && Without(order, id) == rest && IndexOf(order, id) == InsertIndex(rest, before, after)
  {
    var k, rest := IndexOf(sorted, id), Without(sorted, id);
    var i := InsertIndex(rest, before, after);
    WithoutSplit(sorted, id);
    SplitAt(rest, i);
    MovedItems(sorted[..k], sorted[k], sorted[k + 1..], rest[..i], rest[i..]);
  }

  lemma SplitAt<T>(s: seq<T>, i: nat)
    requires i <= |s|
    ensures s[..i] + s[i..] == s
  {
  }

  /** Nothing is lost or doubled. */
  lemma {:induction false} NewOrderIsAPermutation(sorted: seq<Item>, id: ID, before: Option<ID>, after: Option<ID>)
    requires Distinct(sorted) && IndexOf(sorted, id) < |sorted|
    ensures multiset(NewOrder(sorted, id, before, after)) == multiset(sorted)
    ensures Distinct(NewOrder(sorted, id, before, after))
  {
    NewOrderSplits(sorted, id, before, after);
  }

  /** The other items keep the order they were in. */
  lemma {:induction false} OthersKeepTheirOrder(sorted: seq<Item>, id: ID, before: Option<ID>, after: Option<ID>)
    requires Distinct(sorted) && IndexOf(sorted, id) < |sorted|
    ensures var order, rest := NewOrder(sorted, id, before, after), Without(sorted, id);
      && Without(order, id) == rest && IndexOf(order, id) == InsertIndex(rest, before, after) < |order|
      && order[IndexOf(order, id)] == sorted[IndexOf(sorted, id)]
  {
    NewOrderSplits(sorted, id, before, after);
  }

  /** The moved item stands right before the item it was dropped on, or right after it, or last:
      `before` wins when both are given, and a neighbour that is not another item of the space
      sends the item to the end. */
  lemma {:induction false} LandsWhereDropped(sorted: seq<Item>, id: ID, before: Option<ID>, after: Option<ID>)
    requires Distinct(sorted) && IndexOf(sorted, id) < |sorted|
    ensures var order := NewOrder(sorted, id, before, after);
            var at, rest := IndexOf(order, id), Without(sorted, id);
      if before.Some? && IndexOf(rest, before.value) < |rest|
      then at + 1 < |order| && order[at + 1].id == before.value
      else if before.None? && after.Some? && IndexOf(rest, after.value) < |rest|
      then 0 < at < |order| && order[at - 1].id == after.value
      else at == |order| - 1
  {
    OthersKeepTheirOrder(sorted, id, before, after);
    var rest := Without(sorted, id);
    Around(rest, InsertIndex(rest, before, after), sorted[IndexOf(sorted, id)]);
  }

  lemma Around<T>(rest: seq<T>, i: nat, x: T)
    requires i <= |rest|
    ensures var s := rest[..i] + [x] + rest[i..];
      && |s| == |rest| + 1 && (i < |rest| ==> s[i + 1] == rest[i]) && (i > 0 ==> s[i - 1] == rest[i - 1])
  {
  }

  /** Dropping the item again where it was just dropped changes nothing. */
  lemma {:induction false} MovingTwiceIsMovingOnce(sorted: seq<Item>, id: ID, before: Option<ID>, after: Option<ID>)
    requires Distinct(sorted) && IndexOf(sorted, id) < |sorted|
    ensures var order := NewOrder(sorted, id, before, after);
      IndexOf(order, id) < |order| && NewOrder(order, id, before, after) == order
  {
    OthersKeepTheirOrder(sorted, id, before, after);
  }

  // ----- Writing it back ---------------------------------------------------------------------------------

  lemma HoldsPermuted(rows: map<ID, string>, s: seq<Item>, t: seq<Item>)
    requires Holds(rows, s) && multiset(s) == multiset(t)
    ensures Holds(rows, t)
  {
    SameElements(s, t);
    forall i | 0 <= i < |t| ensures t[i].id in rows && rows[t[i].id] == t[i].rank {
      assert t[i] in multiset(t);
      var k :| 0 <= k < |s| && s[k] == t[i];
    }
    forall id | id in rows ensures exists i :: 0 <= i < |t| && t[i].id == id {
      var k :| 0 <= k < |s| && s[k].id == id;
      assert s[k] in multiset(s);
      var i :| 0 <= i < |t| && t[i] == s[k];
    }
  }

  lemma RankedIDs(order: seq<Item>, n: nat)
    requires n <= |order|
    ensures forall i :: 0 <= i < |order| ==> Ranked(order, n)[i].id == order[i].id
    ensures Distinct(Ranked(order, n)) <==> Distinct(order)
  {
    var s := Ranked(order, n);
    assert forall i :: 0 <= i < |order| ==> s[i].id == order[i].id;
  }

  lemma HoldsOneMore(rows: map<ID, string>, order: seq<Item>, n: nat)
    requires n < |order| && Holds(rows, Ranked(order, n))
    ensures Holds(rows[order[n].id := RankAt(n + 1)], Ranked(order, n + 1))
  {
    var s, t := Ranked(order, n), Ranked(order, n + 1);
    var rows' := rows[order[n].id := RankAt(n + 1)];
    RankedIDs(order, n);
    RankedIDs(order, n + 1);
    forall i | 0 <= i < |t| ensures t[i].id in rows' && rows'[t[i].id] == t[i].rank {
      assert s[i].id == t[i].id && (i != n ==> s[i].id != s[n].id && s[i] == t[i]);
    }
    forall id | id in rows' ensures exists i :: 0 <= i < |t| && t[i].id == id {
      if id != order[n].id {
        var i :| 0 <= i < |s| && s[i].id == id;
        assert t[i].id == id;
      } else {
        assert t[n].id == id;
      }
    }
  }

  /** The item and the others, in order. */
  method TakeOut(all: seq<Item>, id: ID) returns (moving: Option<Item>, rest: seq<Item>)
    requires Distinct(all)
    ensures rest == Without(all, id)
    ensures moving == if IndexOf(all, id) < |all| then Some(all[IndexOf(all, id)]) else None
  {
    moving, rest := None, [];
    for i := 0 to |all|
      invariant rest == Without(all[..i], id)
      invariant moving.None? ==> forall j :: 0 <= j < i ==> all[j].id != id
      invariant moving.Some? ==> moving.value in all[..i] && moving.value.id == id
    {
      assert all[..i + 1][..i] == all[..i];
      if all[i].id == id {
        moving := Some(all[i]);
      } else {
        rest := rest + [all[i]];
      }
    }
    assert all[..|all|] == all;
    if moving.Some? {
      var k :| 0 <= k < |all| && all[k] == moving.value;
      assert IndexOf(all, id) == k;
    }
  }

  /** Searches for the neighbour the item was dropped on. */
  method FindInsertIndex(rest: seq<Item>, before: Option<ID>, after: Option<ID>) returns (at: nat)
    ensures at == InsertIndex(rest, before, after)
  {
    at := |rest|;
    if before.Some? {
      for i := 0 to |rest|
        invariant at == |rest| && forall j :: 0 <= j < i ==> rest[j].id != before.value
      {
        if rest[i].id == before.value {
          at := i;
          break;
        }
      }
    } else if after.Some? {
      for i := 0 to |rest|
        invariant at == |rest| && forall j :: 0 <= j < i ==> rest[j].id != after.value
      {
        if rest[i].id == after.value {
          at := i + 1;
          break;
        }
      }
    }
  }

  method WriteRanks(repo: ItemRepository, order: seq<Item>, failAt: nat) returns (ok: bool)
    requires Holds(repo.rows, order)
    modifies repo
    ensures ok <==> failAt >= |order|
    ensures Holds(repo.rows, Ranked(order, if ok then |order| else failAt))
  {
    assert Ranked(order, 0) == order;
    for i := 0 to |order|
      invariant i <= failAt && Holds(repo.rows, Ranked(order, i))
    {
      HoldsOneMore(repo.rows, order, i);
      ok := repo.Update(order[i].(rank := RankAt(i + 1)), i == failAt);
      if !ok {
        return;
      }
    }
    ok := true;
  }

  /** A move that went through: from some sorted listing of the rows before, put in its new order,
      every rank is written. */
  ghost predicate Moves(rows: map<ID, string>, after: map<ID, string>, id: ID, before: Option<ID>, behind: Option<ID>) {
    exists sorted :: MovesFrom(rows, sorted, after, id, before, behind)
  }

  ghost predicate MovesFrom(rows: map<ID, string>, sorted: seq<Item>, after: map<ID, string>, id: ID,
                            before: Option<ID>, behind: Option<ID>) {
    && IsSortedListing(rows, sorted) && IndexOf(sorted, id) < |sorted|
    && var order := NewOrder(sorted, id, before, behind); Holds(after, Ranked(order, |order|))
  }

  /** `failAt` is the first write that fails, if it is below the number of items.  Whatever happens
      the store holds the same items: the first `failAt` of the new order with their new ranks and
      the others with their old ones.  `sorted` is the listing the order was made from; the sort is
      not stable, so which listing it is, among items of equal rank, is not promised. */
  method RankItemRelative(repo: ItemRepository, itemID: ID, before: Option<ID>, after: Option<ID>,
                          listFails: bool, failAt: nat)
    returns (r: Outcome, ghost sorted: seq<Item>)
    modifies repo
    ensures IsSortedListing(old(repo.rows), sorted)
    ensures r == ListFailed <==> listFails
    ensures r == NotFound <==> !listFails && itemID !in old(repo.rows)
    ensures r == ListFailed || r == NotFound ==> repo.rows == old(repo.rows)
    ensures r == Done || r == UpdateFailed ==>
              && IndexOf(sorted, itemID) < |sorted|
              && var order := NewOrder(sorted, itemID, before, after);
                 && (r == Done <==> failAt >= |order|)
                 && Holds(repo.rows, Ranked(order, if failAt < |order| then failAt else |order|))
    ensures r == Done ==> Moves(old(repo.rows), repo.rows, itemID, before, after)
  {
    var all := repo.ListBySpace();
    SortingAListing(repo.rows, all);
    all := Sorted(all, ByRank);
    sorted := all;
    if listFails {
      return ListFailed, sorted;
    }
    var moving, rest := TakeOut(all, itemID);
    if moving.None? {
      return NotFound, sorted;
    }
    var at := FindInsertIndex(rest, before, after);
    var order := rest[..at] + [moving.value] + rest[at..];
    NewOrderIsAPermutation(all, itemID, before, after);
    HoldsPermuted(repo.rows, all, order);
    var ok := WriteRanks(repo, order, failAt);
    assert ok ==> MovesFrom(old(repo.rows), sorted, repo.rows, itemID, before, after);
    r := if ok then Done else UpdateFailed;
  }

  // ----- The ranks sort back into that order ------------------------------------------------------------

  const LIMIT: nat := 999_999

  /** Up to the limit, later positions have larger ranks. */
  lemma RanksIncrease(i: nat, j: nat)
    requires i < j <= LIMIT
    ensures Less(RankAt(i), RankAt(j))
  {
    assert Pow10(6) == 1_000_000;
    PaddedIsDigits(i, 6);
    PaddedIsDigits(j, 6);
    DigitsCompare(i, j, 6, ":", ":");
    LessAfterPrefix("0|", Digits(i, 6) + ":", Digits(j, 6) + ":");
    assert RankAt(i) == "0|" + (Digits(i, 6) + ":") && RankAt(j) == "0|" + (Digits(j, 6) + ":");
  }

  /** Seven-digit positions that begin with a one sort before six-digit ones that begin with a nine. */
  lemma RanksWrap(p: nat, q: nat)
    requires 1_000_000 <= p < 2_000_000 && 900_000 <= q <= LIMIT
    ensures Less(RankAt(p), RankAt(q))
  {
    assert Scaled(1, 6) == 1_000_000 && Scaled(2, 6) == 2_000_000;
    assert Scaled(9, 5) == 900_000 && Scaled(10, 5) == 1_000_000;
    LeadingDigit(p, 1, 6);
    LeadingDigit(q, 9, 5);
    var a, b := Dec(p) + ":", Dec(q) + ":";
    assert a[0] < b[0];
    LessAfterPrefix("0|", a, b);
    assert RankAt(p) == "0|" + a && RankAt(q) == "0|" + b;
  }

  lemma RankTells(i: nat, j: nat)
    requires RankAt(i) == RankAt(j)
    ensures i == j
  {
    var x, y := Padded(i, 6), Padded(j, 6);
    assert RankAt(i)[2..|RankAt(i)| - 1] == x && RankAt(j)[2..|RankAt(j)| - 1] == y;
    PaddedIsInjective(i, j, 6);
  }

  /** A freshly ranked order is sorted by its ranks exactly when it has at most 999,999 items. */
  lemma RankedIsSorted(order: seq<Item>)
    ensures SortedBy(Ranked(order, |order|), ByRank) <==> |order| <= LIMIT
  {
    var s := Ranked(order, |order|);
    if |order| <= LIMIT {
      forall i, j | 0 <= i < j < |s| ensures ByRank(s[i], s[j]) {
        RanksIncrease(i + 1, j + 1);
        LessTrichotomy(s[i].rank, s[j].rank);
      }
    } else {
      RanksWrap(LIMIT + 1, LIMIT);
      assert !ByRank(s[LIMIT - 1], s[LIMIT]);
    }
  }

  ghost predicate SameItems(s: seq<Item>, t: seq<Item>) { forall it :: it in s <==> it in t }

  /** When all ranks differ, ... */
  ghost predicate StrictlyRanked(s: seq<Item>) { forall i, j :: 0 <= i < j < |s| ==> Less(s[i].rank, s[j].rank) }

  lemma SameLast(s: seq<Item>, t: seq<Item>)
    requires SameItems(s, t) && StrictlyRanked(s) && SortedBy(t, ByRank) && s != []
    ensures t != [] && t[|t| - 1] == s[|s| - 1]
  {
    var last := s[|s| - 1];
    assert last in s;
    var i :| 0 <= i < |t| && t[i] == last;
    assert t[|t| - 1] in t;
    var j :| 0 <= j < |s| && s[j] == t[|t| - 1];
    assert j < |s| - 1 ==> Less(s[j].rank, last.rank);
    assert i < |t| - 1 ==> ByRank(t[i], t[|t| - 1]);
    LessTrichotomy(s[j].rank, last.rank);
  }

  lemma InitItems(s: seq<Item>, it: Item)
    requires Distinct(s) && s != []
    ensures it in s[..|s| - 1] <==> it in s && it != s[|s| - 1]
  {
    var n := |s| - 1;
    if it in s[..n] {
      var i :| 0 <= i < n && s[i] == it;
      assert s[i].id != s[n].id;
    }
    if it in s && it != s[n] {
      var i :| 0 <= i < |s| && s[i] == it;
      assert s[..n][i] == it;
    }
  }

  lemma SameInit(s: seq<Item>, t: seq<Item>)
    requires SameItems(s, t) && Distinct(s) && Distinct(t) && s != [] && t != [] && s[|s| - 1] == t[|t| - 1]
    ensures SameItems(s[..|s| - 1], t[..|t| - 1])
  {
    var a, b := s[..|s| - 1], t[..|t| - 1];
    forall it ensures it in a <==> it in b {
      InitItems(s, it);
      InitItems(t, it);
    }
  }

  lemma SameEmptiness(s: seq<Item>, t: seq<Item>)
    requires SameItems(s, t)
    ensures s == [] <==> t == []
  {
    if s != [] { assert s[0] in t; }
    if t != [] { assert t[0] in s; }
  }

  /** ... there is one way to sort a listing. */
  lemma {:induction false} OneSortedOrder(s: seq<Item>, t: seq<Item>)
    requires SameItems(s, t) && Distinct(s) && Distinct(t)
    requires StrictlyRanked(s) && SortedBy(t, ByRank)
    ensures s == t
    decreases |s|
  {
    SameEmptiness(s, t);
    if s != [] {
      SameLast(s, t);
      SameInit(s, t);
      OneSortedOrder(s[..|s| - 1], t[..|t| - 1]);
      assert s == s[..|s| - 1] + [s[|s| - 1]] && t == t[..|t| - 1] + [t[|t| - 1]];
    }
  }

  lemma SameStoreSameItems(rows: map<ID, string>, s: seq<Item>, t: seq<Item>)
    requires Holds(rows, s) && Holds(rows, t)
    ensures SameItems(s, t)
  {
    forall it | it in s ensures it in t { Listed(rows, s, t, it); }
    forall it | it in t ensures it in s { Listed(rows, t, s, it); }
  }

  lemma Listed(rows: map<ID, string>, s: seq<Item>, t: seq<Item>, it: Item)
    requires Holds(rows, s) && Holds(rows, t) && it in s
    ensures it in t
  {
    var i :| 0 <= i < |s| && s[i] == it;
    assert s[i].id in rows;
    var j :| 0 <= j < |t| && t[j].id == it.id;
    assert t[j] == it;
  }

  lemma FreshRanksAreStrict(order: seq<Item>)
    requires |order| <= LIMIT
    ensures StrictlyRanked(Ranked(order, |order|))
  {
    var s := Ranked(order, |order|);
    forall i, j | 0 <= i < j < |s| ensures Less(s[i].rank, s[j].rank) { RanksIncrease(i + 1, j + 1); }
  }

  lemma StrictListingIsSorted(rows: map<ID, string>, s: seq<Item>, sorted: seq<Item>)
    requires Holds(rows, s) && StrictlyRanked(s) && IsSortedListing(rows, sorted)
    ensures sorted == s
  {
    SameStoreSameItems(rows, s, sorted);
    OneSortedOrder(s, sorted);
  }

  /** Listing and sorting again gives back exactly the order that was written, up to 999,999 items
      and no further. */
  lemma ResortingKeepsTheOrder(rows: map<ID, string>, order: seq<Item>, sorted: seq<Item>)
    requires Holds(rows, Ranked(order, |order|)) && IsSortedListing(rows, sorted)
    ensures sorted == Ranked(order, |order|) <==> |order| <= LIMIT
  {
    RankedIsSorted(order);
    if |order| <= LIMIT {
      FreshRanksAreStrict(order);
      StrictListingIsSorted(rows, Ranked(order, |order|), sorted);
    }
  }

  // ----- Repeating a move ---------------------------------------------------------------------------------

  /** Alike but for the ranks. */
  ghost predicate SameIDs(s: seq<Item>, t: seq<Item>) {
    |s| == |t| && forall i :: 0 <= i < |s| ==> s[i].id == t[i].id
  }

  lemma {:induction false} IndexOfIDs(s: seq<Item>, t: seq<Item>, id: ID)
    requires SameIDs(s, t)
    ensures IndexOf(s, id) == IndexOf(t, id)
  {
    if s != [] && s[0].id != id { IndexOfIDs(s[1..], t[1..], id); }
  }

  lemma {:induction false} WithoutIDs(s: seq<Item>, t: seq<Item>, id: ID)
    requires SameIDs(s, t)
    ensures SameIDs(Without(s, id), Without(t, id))
  {
    if s != [] { WithoutIDs(s[..|s| - 1], t[..|t| - 1], id); }
  }

  lemma InsertIndexIDs(s: seq<Item>, t: seq<Item>, before: Option<ID>, after: Option<ID>)
    requires SameIDs(s, t)
    ensures InsertIndex(s, before, after) == InsertIndex(t, before, after)
  {
    if before.Some? { IndexOfIDs(s, t, before.value); }
    if after.Some? { IndexOfIDs(s, t, after.value); }
  }

  /** Where things go depends on the order of the others and not on any ranks. */
  lemma {:induction false} NewOrderIDs(s: seq<Item>, t: seq<Item>, id: ID, before: Option<ID>, after: Option<ID>)
    requires SameIDs(Without(s, id), Without(t, id)) && IndexOf(s, id) < |s| && IndexOf(t, id) < |t|
    ensures SameIDs(NewOrder(s, id, before, after), NewOrder(t, id, before, after))
  {
    InsertIndexIDs(Without(s, id), Without(t, id), before, after);
  }

  lemma RankedAlike(s: seq<Item>, t: seq<Item>)
    requires SameIDs(s, t)
    ensures Ranked(s, |s|) == Ranked(t, |t|)
  {
  }

  lemma OneStore(a: map<ID, string>, b: map<ID, string>, s: seq<Item>)
    requires Holds(a, s) && Holds(b, s)
    ensures a == b
  {
    forall id ensures id in a <==> id in b {}
    forall id | id in a ensures a[id] == b[id] {
      var i :| 0 <= i < |s| && s[i].id == id;
    }
  }

  lemma StoreSize(rows: map<ID, string>, s: seq<Item>)
    requires Holds(rows, s)
    ensures |s| == |rows|
  {
    var ids := seq(|s|, i requires 0 <= i < |s| => s[i].id);
    DifferentElems(ids);
    assert rows.Keys == Elems(ids) by {
      forall id ensures id in rows.Keys <==> id in Elems(ids) {
        if id in rows {
          var i :| 0 <= i < |s| && s[i].id == id;
          assert ids[i] == id;
        }
      }
    }
  }

  /** A rank says where its item was written. */
  lemma WrittenAt(rows: map<ID, string>, order: seq<Item>, id: ID) returns (k: nat)
    requires Holds(rows, Ranked(order, |order|)) && id in rows
    ensures k < |order| && order[k].id == id && rows[id] == RankAt(k + 1)
  {
    var s := Ranked(order, |order|);
    k :| 0 <= k < |s| && s[k].id == id;
  }

  lemma RankStored(rows: map<ID, string>, order: seq<Item>, k: nat)
    requires Holds(rows, Ranked(order, |order|)) && k < |order|
    ensures order[k].id in rows && rows[order[k].id] == RankAt(k + 1)
  {
    var s := Ranked(order, |order|);
    assert s[k].id == order[k].id && s[k].rank == RankAt(k + 1);
  }

  lemma SameStoreSameIDs(rows: map<ID, string>, a: seq<Item>, b: seq<Item>)
    requires Holds(rows, Ranked(a, |a|)) && Holds(rows, Ranked(b, |b|))
    ensures SameIDs(a, b)
  {
    StoreSize(rows, Ranked(a, |a|));
    StoreSize(rows, Ranked(b, |b|));
    forall i | 0 <= i < |a| ensures a[i].id == b[i].id {
      RankStored(rows, a, i);
      var j := WrittenAt(rows, b, a[i].id);
      RankTells(i + 1, j + 1);
    }
  }

  lemma {:induction false} NewOrderSize(sorted: seq<Item>, id: ID, before: Option<ID>, after: Option<ID>)
    requires Distinct(sorted) && IndexOf(sorted, id) < |sorted|
    ensures |NewOrder(sorted, id, before, after)| == |sorted|
  {
    NewOrderIsAPermutation(sorted, id, before, after);
    assert |multiset(NewOrder(sorted, id, before, after))| == |multiset(sorted)|;
  }

  /** A second move changes nothing exactly when the others are listed in the order they were left in. */
  lemma {:induction false} RestDecides(
      rows: map<ID, string>, sorted: seq<Item>, once: map<ID, string>, again: seq<Item>, twice: map<ID, string>,
      id: ID, before: Option<ID>, behind: Option<ID>)
    requires MovesFrom(rows, sorted, once, id, before, behind) && MovesFrom(once, again, twice, id, before, behind)
    ensures twice == once <==> SameIDs(Without(again, id), Without(NewOrder(sorted, id, before, behind), id))
  {
    var order, order2 := NewOrder(sorted, id, before, behind), NewOrder(again, id, before, behind);
    MovingTwiceIsMovingOnce(sorted, id, before, behind);
    if twice == once {
      SameStoreSameIDs(once, order2, order);
      WithoutIDs(order2, order, id);
      OthersKeepTheirOrder(again, id, before, behind);
    }
    if SameIDs(Without(again, id), Without(order, id)) {
      NewOrderIDs(again, order, id, before, behind);
      RankedAlike(order2, order);
      OneStore(once, twice, Ranked(order, |order|));
    }
  }

  // ----- When the others come back in order --------------------------------------------------------------

  lemma {:induction false} WithoutMembers(s: seq<Item>, id: ID, it: Item)
    ensures it in Without(s, id) <==> it in s && it.id != id
  {
    if s != [] {
      assert s == s[..|s| - 1] + [s[|s| - 1]];
      WithoutMembers(s[..|s| - 1], id, it);
    }
  }

  lemma {:induction false} WithoutKeepsSorted(s: seq<Item>, id: ID)
    requires SortedBy(s, ByRank)
    ensures SortedBy(Without(s, id), ByRank)
  {
    if s != [] {
      var init, last := s[..|s| - 1], s[|s| - 1];
      WithoutKeepsSorted(init, id);
      var rest := Without(init, id);
      forall i | 0 <= i < |rest| ensures ByRank(rest[i], last) {
        WithoutMembers(init, id, rest[i]);
        var k :| 0 <= k < |init| && init[k] == rest[i];
        assert s[k] == rest[i];
      }
    }
  }

  lemma {:induction false} WithoutKeepsDistinct(s: seq<Item>, id: ID)
    requires Distinct(s) && IndexOf(s, id) < |s|
    ensures Distinct(Without(s, id))
  {
    WithoutSplit(s, id);
  }

  lemma {:induction false} WithoutPlace(s: seq<Item>, id: ID, i: nat) returns (a: nat)
    requires Distinct(s) && IndexOf(s, id) < |s| && i < |s| && s[i].id != id
    ensures a == if i < IndexOf(s, id) then i else i - 1
    ensures a < |Without(s, id)| && Without(s, id)[a] == s[i]
  {
    WithoutSplit(s, id);
    var k := IndexOf(s, id);
    if i < k {
      a := i;
      assert (s[..k] + s[k + 1..])[a] == s[..k][a] == s[i];
    } else {
      a := i - 1;
      assert (s[..k] + s[k + 1..])[a] == s[k + 1..][a - k] == s[i];
    }
  }

  /** Two items other than the one taken out stay one before the other. */
  lemma {:induction false} WithoutKeepsPair(s: seq<Item>, id: ID, i: nat, j: nat) returns (a: nat, b: nat)
    requires Distinct(s) && IndexOf(s, id) < |s| && i < j < |s| && s[i].id != id && s[j].id != id
    ensures a < b < |Without(s, id)| && Without(s, id)[a] == s[i] && Without(s, id)[b] == s[j]
  {
    a := WithoutPlace(s, id, i);
    b := WithoutPlace(s, id, j);
  }

  lemma {:induction false} SameMembersWithout(s: seq<Item>, t: seq<Item>, id: ID)
    requires SameItems(s, t)
    ensures SameItems(Without(s, id), Without(t, id))
  {
    forall it ensures it in Without(s, id) <==> it in Without(t, id) {
      WithoutMembers(s, id, it);
      WithoutMembers(t, id, it);
    }
  }

  /** Everything up to the limit is listed in order, if the one item beyond it is the one taken out. */
  lemma {:induction false} OnlyTheLastIsBeyond(once: map<ID, string>, order: seq<Item>, again: seq<Item>, id: ID)
    requires Distinct(order) && |order| == LIMIT + 1 && order[LIMIT].id == id && IndexOf(again, id) < |again|
    requires Holds(once, Ranked(order, |order|)) && IsSortedListing(once, again)
    ensures SameIDs(Without(again, id), Without(order, id))
  {
    var s := Ranked(order, |order|);
    LastOut(order, id);
    RankedIDs(order, |order|);
    LastOut(s, id);
    SameStoreSameItems(once, s, again);
    SameMembersWithout(s, again, id);
    WithoutKeepsSorted(again, id);
    WithoutKeepsDistinct(again, id);
    WithoutKeepsDistinct(s, id);
    UpToTheLimit(order);
    OneSortedOrder(Without(s, id), Without(again, id));
  }

  lemma {:induction false} LastOut(s: seq<Item>, id: ID)
    requires Distinct(s) && s != [] && s[|s| - 1].id == id
    ensures Without(s, id) == s[..|s| - 1] && IndexOf(s, id) == |s| - 1
  {
    var init := s[..|s| - 1];
    assert s == init + [s[|s| - 1]] + [];
    WithoutOne(init, s[|s| - 1], []);
    assert init + [] == init;
  }

  lemma UpToTheLimit(order: seq<Item>)
    requires |order| == LIMIT + 1
    ensures StrictlyRanked(Ranked(order, |order|)[..LIMIT])
  {
    var s := Ranked(order, |order|)[..LIMIT];
    forall i, j | 0 <= i < j < |s| ensures Less(s[i].rank, s[j].rank) { RanksIncrease(i + 1, j + 1); }
  }

  lemma {:induction false} ListedRank(
      once: map<ID, string>, order: seq<Item>, again: seq<Item>, id: ID, m: nat, k: nat)
    requires Holds(once, Ranked(order, |order|)) && Holds(once, again)
    requires m < |Without(again, id)| && k < |order| && Without(again, id)[m].id == order[k].id
    ensures Without(again, id)[m].rank == RankAt(k + 1)
  {
    var it := Without(again, id)[m];
    WithoutMembers(again, id, it);
    StoredRank(once, again, it);
    RankStored(once, order, k);
  }

  /** If the others come back in the order they were left in, their new ranks are in order. */
  lemma {:induction false} PairInOrder(
      once: map<ID, string>, order: seq<Item>, again: seq<Item>, id: ID, i: nat, j: nat)
    requires Distinct(order) && IndexOf(order, id) < |order| && i < j < |order|
    requires order[i].id != id && order[j].id != id
    requires Holds(once, Ranked(order, |order|)) && IsSortedListing(once, again)
    requires SameIDs(Without(again, id), Without(order, id))
    ensures AtMost(RankAt(i + 1), RankAt(j + 1))
  {
    var a, b := WithoutKeepsPair(order, id, i, j);
    WithoutKeepsSorted(again, id);
    ListedRank(once, order, again, id, a, i);
    ListedRank(once, order, again, id, b, j);
  }

  lemma StoredRank(rows: map<ID, string>, s: seq<Item>, it: Item)
    requires Holds(rows, s) && it in s
    ensures it.id in rows && rows[it.id] == it.rank
  {
    var i :| 0 <= i < |s| && s[i] == it;
  }

  /** Beyond the limit, and with more than the moved item beyond it, some pair is swapped. */
  lemma {:induction false} SomePairIsSwapped(once: map<ID, string>, order: seq<Item>, again: seq<Item>, id: ID)
    requires Distinct(order) && IndexOf(order, id) < |order| && |order| > LIMIT
    requires |order| > LIMIT + 1 || order[LIMIT].id != id
    requires Holds(once, Ranked(order, |order|)) && IsSortedListing(once, again)
    ensures !SameIDs(Without(again, id), Without(order, id))
  {
    var k := IndexOf(order, id);
    var i := if k == LIMIT - 1 then LIMIT - 2 else LIMIT - 1;
    var j := if k == LIMIT then LIMIT + 1 else LIMIT;
    RanksWrap(j + 1, i + 1);
    if SameIDs(Without(again, id), Without(order, id)) { PairInOrder(once, order, again, id, i, j); }
  }

  /** Two moves of the same item to the same place, one after the other, each listing, sorting and
      writing the whole store: the second changes nothing if and only if there are at most 999,999
      items, or one more and the moved one was put last. */
  lemma {:induction false} RepeatedMove(
      rows: map<ID, string>, sorted: seq<Item>, once: map<ID, string>, twice: map<ID, string>, id: ID,
      before: Option<ID>, behind: Option<ID>)
    requires MovesFrom(rows, sorted, once, id, before, behind) && Moves(once, twice, id, before, behind)
    ensures |NewOrder(sorted, id, before, behind)| == |rows|
    ensures twice == once <==>
              |rows| <= LIMIT || (|rows| == LIMIT + 1 && NewOrder(sorted, id, before, behind)[LIMIT].id == id)
  {
    var again :| MovesFrom(once, again, twice, id, before, behind);
    var order := NewOrder(sorted, id, before, behind);
    StoreSize(rows, sorted);
    NewOrderSize(sorted, id, before, behind);
    NewOrderIsAPermutation(sorted, id, before, behind);
    MovingTwiceIsMovingOnce(sorted, id, before, behind);
    RestDecides(rows, sorted, once, again, twice, id, before, behind);
    if |order| <= LIMIT {
      ResortingKeepsTheOrder(once, order, again);
      RankedIDs(order, |order|);
      WithoutIDs(again, order, id);
    } else if |order| == LIMIT + 1 && order[LIMIT].id == id {
      OnlyTheLastIsBeyond(once, order, again, id);
    } else {
      SomePairIsSwapped(once, order, again, id);
    }
  }
}
