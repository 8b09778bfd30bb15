/**
  Share coverage of internal/core/access/shares.go: the in-memory check, and the
  arrays a cross-space SQL query binds instead.
 */
module Shares {
  import opened LikePatterns

  /** A uuid; only equality matters. */
  type Id = nat

  datatype Option<T> = None | Some(value: T)

  const PAGE := "page"

  datatype ShareRow = ShareRow(
    entityType: string, entityID: Id, cascade: bool, rootPath: Option<string>, rootSpaceID: Option<Id>)

  datatype CascadeRoot = CascadeRoot(pageID: Id, spaceID: Id, path: string)

  /** A page as the candidate of a coverage check. */
  datatype Page = Page(id: Id, spaceID: Id, path: string)

  /** At or below root in a dot-separated path. */
  predicate PathWithinSubtree(path: string, root: string) {
    path == root || root + "." <= path
  }

  // ----- What the rows mean -----------------------------------------------------

  ghost function DirectOf(rows: seq<ShareRow>, entityType: string): set<Id> {
    set r | r in rows && r.entityType == entityType :: r.entityID
  }

  predicate IsCascadeRoot(r: ShareRow) {
    r.cascade && r.entityType == PAGE && r.rootPath.Some? && r.rootSpaceID.Some?
  }

  function RootOf(r: ShareRow): seq<CascadeRoot> {
    if IsCascadeRoot(r) then [CascadeRoot(r.entityID, r.rootSpaceID.value, r.rootPath.value)] else []
  }

  function RootsOf(rows: seq<ShareRow>): (roots: seq<CascadeRoot>) {
    if rows == [] then []
    else
      var last := rows[|rows| - 1];
      RootsOf(rows[..|rows| - 1]) + RootOf(last)
  }

  lemma {:induction false} ResolveOneMore(rows: seq<ShareRow>, row: ShareRow)
    ensures forall t :: DirectOf(rows + [row], t)
              == DirectOf(rows, t) + (if row.entityType == t then {row.entityID} else {})
    ensures RootsOf(rows + [row]) == RootsOf(rows) + RootOf(row)
  {
    assert (rows + [row])[..|rows|] == rows;
    forall t ensures DirectOf(rows + [row], t)
        == DirectOf(rows, t) + (if row.entityType == t then {row.entityID} else {}) {
    }
  }

  ghost predicate Covers(rows: seq<ShareRow>, page: Page) {
    || page.id in DirectOf(rows, PAGE)
    || exists root :: root in RootsOf(rows) && root.spaceID == page.spaceID && PathWithinSubtree(page.path, root.path)
  }

  function SharedOf(direct: map<string, set<Id>>, entityType: string): set<Id> {
    if entityType in direct then direct[entityType] else {}
  }

  ghost function Listed(ids: seq<Id>): set<Id> { set id | id in ids }

  ghost predicate Once(ids: seq<Id>) { forall i, j :: 0 <= i < j < |ids| ==> ids[i] != ids[j] }

  lemma OneMoreListed(ids: seq<Id>, id: Id)
    requires Once(ids) && id !in Listed(ids)
    ensures Listed(ids + [id]) == Listed(ids) + {id} && Once(ids + [id])
  {
    forall i | 0 <= i < |ids| ensures ids[i] != id { assert ids[i] in Listed(ids); }
  }

  /** The direct shares by type, and the cascading ones in row order. */
  ghost predicate ResolvedTo(direct: map<string, set<Id>>, roots: seq<CascadeRoot>, rows: seq<ShareRow>) {
    roots == RootsOf(rows) && forall t :: SharedOf(direct, t) == DirectOf(rows, t)
  }

  lemma RowResolved(direct: map<string, set<Id>>, roots: seq<CascadeRoot>, rows: seq<ShareRow>, row: ShareRow)
    requires ResolvedTo(direct, roots, rows)
    ensures ResolvedTo(
      direct[row.entityType := SharedOf(direct, row.entityType) + {row.entityID}],
      roots + RootOf(row),
      rows + [row])
  {
    ResolveOneMore(rows, row);
  }

  // ----- The resolved coverage set -----------------------------------------------

  class SharedEntities {
    var direct: map<string, set<Id>>
    var cascadeRoots: seq<CascadeRoot>

    ghost predicate Resolves(rows: seq<ShareRow>)
      reads this
    {
      ResolvedTo(direct, cascadeRoots, rows)
    }

    constructor (rows: seq<ShareRow>)
      ensures Resolves(rows)
    {
      var byType: map<string, set<Id>>, roots := map[], [];
      for i := 0 to |rows|
        invariant ResolvedTo(byType, roots, rows[..i])
      {
        var row := rows[i];
        RowResolved(byType, roots, rows[..i], row);
        assert rows[..i + 1] == rows[..i] + [row];
        byType := byType[row.entityType := SharedOf(byType, row.entityType) + {row.entityID}];
        if IsCascadeRoot(row) {
          roots := roots + [CascadeRoot(row.entityID, row.rootSpaceID.value, row.rootPath.value)];
        }
      }
      assert rows[..|rows|] == rows;
      direct, cascadeRoots := byType, roots;
    }

    predicate CoversEntity(entityType: string, id: Id)
      reads this
    {
      id in SharedOf(direct, entityType)
    }

    /** The in-memory check. */
    method CoversPage(page: Page, ghost rows: seq<ShareRow>) returns (covered: bool)
      requires Resolves(rows)
      ensures covered <==> Covers(rows, page)
    {
      if CoversEntity(PAGE, page.id) {
        return true;
      }
      for i := 0 to |cascadeRoots|
        invariant forall j :: 0 <= j < i ==>
          !(cascadeRoots[j].spaceID == page.spaceID && PathWithinSubtree(page.path, cascadeRoots[j].path))
      {
        var root := cascadeRoots[i];
        if root.spaceID != page.spaceID {
          continue;
        }
        if PathWithinSubtree(page.path, root.path) {
          assert root in cascadeRoots;
          return true;
        }
      }
      return false;
    }

    /** The directly shared ids of one type, in no particular order. */
    method DirectIDs(entityType: string, ghost rows: seq<ShareRow>) returns (ids: seq<Id>)
      requires Resolves(rows)
      ensures Listed(ids) == DirectOf(rows, entityType)
      ensures forall i, j :: 0 <= i < j < |ids| ==> ids[i] != ids[j]
    {
      ids := [];
      var pending := SharedOf(direct, entityType);
      while pending != {}
        invariant pending !! Listed(ids)
        invariant pending + Listed(ids) == DirectOf(rows, entityType)
        invariant Once(ids)
        decreases |pending|
      {
        var id :| id in pending;
        OneMoreListed(ids, id);
        ids := ids + [id];
        pending := pending - {id};
      }
    }

    /** Index-aligned space ids and LIKE patterns, one pair per cascade root. */
    method CascadeSubtreeArrays(ghost rows: seq<ShareRow>) returns (spaceIDs: seq<Id>, patterns: seq<string>)
      requires Resolves(rows)
      ensures |spaceIDs| == |patterns| == |RootsOf(rows)|
      ensures forall i :: 0 <= i < |spaceIDs| ==>
        spaceIDs[i] == RootsOf(rows)[i].spaceID && patterns[i] == SubtreeLikePattern(RootsOf(rows)[i].path)
    {
      spaceIDs, patterns := [], [];
      for i := 0 to |cascadeRoots|
        invariant |spaceIDs| == |patterns| == i
        invariant forall j :: 0 <= j < i ==>
          spaceIDs[j] == cascadeRoots[j].spaceID && patterns[j] == SubtreeLikePattern(cascadeRoots[j].path)
      {
        spaceIDs := spaceIDs + [cascadeRoots[i].spaceID];
        patterns := patterns + [SubtreeLikePattern(cascadeRoots[i].path)];
      }
    }
  }

  // ----- The SQL form --------------------------------------------------------------

  /** id = ANY(ids) OR EXISTS (unnest(spaceIDs, patterns) AS root WHERE space matches AND path LIKE pattern) */
  ghost predicate SqlCovers(ids: set<Id>, spaceIDs: seq<Id>, patterns: seq<string>, page: Page)
    requires |spaceIDs| == |patterns|
  {
    || page.id in ids
    || exists i :: 0 <= i < |spaceIDs| && page.spaceID == spaceIDs[i] && Like(page.path, patterns[i])
  }

  /** The arrays are the ones the rows resolve to. */
  ghost predicate Bound(rows: seq<ShareRow>, ids: set<Id>, spaceIDs: seq<Id>, patterns: seq<string>) {
    && ids == DirectOf(rows, PAGE)
    && |spaceIDs| == |patterns| == |RootsOf(rows)|
    && forall i :: 0 <= i < |spaceIDs| ==>
         spaceIDs[i] == RootsOf(rows)[i].spaceID && patterns[i] == SubtreeLikePattern(RootsOf(rows)[i].path)
  }

  /** The page sits exactly on the path of some cascade root of its own space. */
  ghost predicate OnRootPath(rows: seq<ShareRow>, page: Page) {
    exists root :: root in RootsOf(rows) && root.spaceID == page.spaceID && root.path == page.path
  }

  /** On every input: the in-memory check accepts what the SQL form accepts, and besides it
      exactly the pages standing on a root's own path. */
  lemma CoversIsSqlOrRootPath(
      rows: seq<ShareRow>, ids: set<Id>, spaceIDs: seq<Id>, patterns: seq<string>, page: Page)
    requires Bound(rows, ids, spaceIDs, patterns)
    ensures Covers(rows, page) <==> SqlCovers(ids, spaceIDs, patterns, page) || OnRootPath(rows, page)
  {
    var roots := RootsOf(rows);
    forall i | 0 <= i < |roots|
      ensures Like(page.path, patterns[i]) <==> roots[i].path + "." <= page.path
    {
      SubtreePatternIsPrefix(roots[i].path, page.path);
    }
    if Covers(rows, page) && page.id !in ids {
      var root :| root in roots && root.spaceID == page.spaceID && PathWithinSubtree(page.path, root.path);
      var i :| 0 <= i < |roots| && roots[i] == root;
      assert Like(page.path, patterns[i]) <==> root.path + "." <= page.path;
    }
    if SqlCovers(ids, spaceIDs, patterns, page) && page.id !in ids {
      var i :| 0 <= i < |spaceIDs| && page.spaceID == spaceIDs[i] && Like(page.path, patterns[i]);
      assert roots[i] in roots && PathWithinSubtree(page.path, roots[i].path);
    }
  }

  lemma {:induction false} RootComesFromRow(rows: seq<ShareRow>, root: CascadeRoot) returns (row: ShareRow)
    requires root in RootsOf(rows)
    ensures row in rows && IsCascadeRoot(row)
    ensures root == CascadeRoot(row.entityID, row.rootSpaceID.value, row.rootPath.value)
  {
    var last := rows[|rows| - 1];
    if root in RootsOf(rows[..|rows| - 1]) {
      row := RootComesFromRow(rows[..|rows| - 1], root);
    } else {
      row := last;
    }
  }

  /** Share rows resolved against a table of live pages: a page share carries its page's current place. */
  ghost predicate ResolvedAgainst(pages: map<Id, Page>, rows: seq<ShareRow>) {
    && (forall id :: id in pages ==> pages[id].id == id)
    && forall r :: r in rows && IsCascadeRoot(r) ==>
         r.entityID in pages && pages[r.entityID] == Page(r.entityID, r.rootSpaceID.value, r.rootPath.value)
  }

  ghost predicate DistinctPaths(pages: map<Id, Page>) {
    forall a, b :: a in pages && b in pages ==>
      (pages[a].spaceID == pages[b].spaceID && pages[a].path == pages[b].path ==> a == b)
  }

  /** With distinct paths inside each space the two forms cover the same pages. */
  lemma SqlFormIsExact(
      pages: map<Id, Page>, rows: seq<ShareRow>, ids: set<Id>, spaceIDs: seq<Id>, patterns: seq<string>, id: Id)
    requires ResolvedAgainst(pages, rows) && DistinctPaths(pages) && id in pages
    requires Bound(rows, ids, spaceIDs, patterns)
    ensures Covers(rows, pages[id]) <==> SqlCovers(ids, spaceIDs, patterns, pages[id])
  {
    var page := pages[id];
    CoversIsSqlOrRootPath(rows, ids, spaceIDs, patterns, page);
    if OnRootPath(rows, page) {
      var root :| root in RootsOf(rows) && root.spaceID == page.spaceID && root.path == page.path;
      var row := RootComesFromRow(rows, root);
      assert row.entityID == id;
    }
  }

  /** Without distinct paths they differ: page 2 stands on the path of root page 1 and only the
      in-memory check covers it. */
  lemma EqualPathsSeparateTheForms(rows: seq<ShareRow>, page: Page)
    requires rows == [ShareRow(PAGE, 1, true, Some("a"), Some(7))] && page == Page(2, 7, "a")
    ensures Bound(rows, {1}, [7], [SubtreeLikePattern("a")])
    ensures Covers(rows, page) && !SqlCovers({1}, [7], [SubtreeLikePattern("a")], page)
  {
    assert rows[..0] == [];
    var root := CascadeRoot(1, 7, "a");
    assert RootsOf(rows) == [root];
    assert root in RootsOf(rows) && PathWithinSubtree("a", root.path);
    assert rows[0] in rows;
    SubtreePatternIsPrefix("a", "a");
  }

  /** The space and the pattern bound as two independent arrays. */
  ghost predicate UnpairedCovers(ids: set<Id>, spaceIDs: seq<Id>, patterns: seq<string>, page: Page) {
    || page.id in ids
    || (page.spaceID in spaceIDs && exists i :: 0 <= i < |patterns| && Like(page.path, patterns[i]))
  }

  /** Unpaired arrays accept everything the paired ones do, and pages across the space boundary besides. */
  lemma UnpairedArraysWiden(ids: set<Id>, spaceIDs: seq<Id>, patterns: seq<string>, page: Page)
    requires |spaceIDs| == |patterns|
    ensures SqlCovers(ids, spaceIDs, patterns, page) ==> UnpairedCovers(ids, spaceIDs, patterns, page)
    ensures var leak := Page(9, 1, "b.x");
            var leaky := [SubtreeLikePattern("a"), SubtreeLikePattern("b")];
            UnpairedCovers({}, [1, 2], leaky, leak) && !SqlCovers({}, [1, 2], leaky, leak)
  {
    SubtreePatternIsPrefix("a", "b.x");
    SubtreePatternIsPrefix("b", "b.x");
    var leaky := [SubtreeLikePattern("a"), SubtreeLikePattern("b")];
    assert Like("b.x", leaky[1]) && 1 in [1, 2];
  }
}
