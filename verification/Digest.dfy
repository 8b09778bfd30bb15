/**
  File trees as the digests see them: a map from path to content, listed in path order.
  A character stands for a byte.
 */
module FileTrees {
  import opened Sorting

  datatype File = File(path: string, content: string)

  type Tree = map<string, string>

  /** What the hash has been fed so far; the hash itself is a function of this. */
  class Hash {
    var fed: string

    constructor ()
      ensures fed == ""
    {
      fed := "";
    }

    method Write(bytes: string)
      modifies this
      ensures fed == old(fed) + bytes
    {
      fed := fed + bytes;
    }
  }

  lemma SameSplit(x: string, d: string, y: string, e: string)
    requires x + d == y + e && |x| == |y|
    ensures x == y && d == e
  {
    assert (x + d)[..|x|] == x && (y + e)[..|y|] == y && (x + d)[|x|..] == d && (y + e)[|y|..] == e;
  }

  ghost predicate Increasing(paths: seq<string>) {
    forall i, j :: 0 <= i < j < |paths| ==> Less(paths[i], paths[j])
  }

  /** Every file of the tree once, in increasing order of path. */
  ghost predicate IsListing(t: Tree, fs: seq<File>) {
    && (forall i :: 0 <= i < |fs| ==> fs[i].path in t && t[fs[i].path] == fs[i].content)
    && (forall p :: p in t ==> exists i :: 0 <= i < |fs| && fs[i].path == p)
    && (forall i, j :: 0 <= i < j < |fs| ==> Less(fs[i].path, fs[j].path))
  }

  /** The paths of a tree, whatever order the walk meets them in, sorted. */
  method SortedPaths(t: Tree) returns (paths: seq<string>)
    ensures forall i :: 0 <= i < |paths| ==> paths[i] in t
    ensures forall p :: p in t ==> p in paths
    ensures Increasing(paths)
  {
    var walked: seq<string> := [];
    var pending := t.Keys;
    while pending != {}
      invariant pending <= t.Keys
      invariant forall p :: p in walked ==> p in t && p !in pending
      invariant forall p :: p in t && p !in pending ==> p in walked
      invariant Different(walked)
      decreases |pending|
    {
      var p :| p in pending;
      walked := walked + [p];
      pending := pending - {p};
    }
    paths := Sorted(walked, AtMost);
    SortingDistinct(walked);
  }

  lemma {:induction false} SortingDistinct(s: seq<string>)
    requires Different(s)
    ensures forall p :: p in Sorted(s, AtMost) <==> p in s
    ensures Increasing(Sorted(s, AtMost))
  {
    var t := Sorted(s, AtMost);
    StringsAreOrdered(Elems(s));
    SortedIsSorted(s, AtMost);
    PermutedStaysDifferent(s, t);
    forall p ensures p in t <==> p in s {
      assert p in t <==> p in Elems(t);
    }
    forall i, j | 0 <= i < j < |t| ensures Less(t[i], t[j]) {
      assert AtMost(t[i], t[j]);
      LessTrichotomy(t[i], t[j]);
    }
  }

  /** Files read for all the paths, in order, are the listing. */
  lemma ListsAll(t: Tree, names: seq<string>, fs: seq<File>, unreadable: set<string>)
    requires |fs| == |names| && forall j :: 0 <= j < |fs| ==> names[j] in t && fs[j] == File(names[j], t[names[j]])
    requires forall p :: p in t ==> p in names
    requires Increasing(names)
    requires forall j :: 0 <= j < |names| ==> names[j] !in unreadable
    ensures IsListing(t, fs) && t.Keys !! unreadable
  {
    forall p | p in t ensures p !in unreadable && exists i :: 0 <= i < |fs| && fs[i].path == p {
      assert p in names;
      var i :| 0 <= i < |names| && names[i] == p;
      assert fs[i].path == p;
    }
  }

  /** A tree has one listing: the digest does not depend on the order of the walk. */
  lemma {:induction false} OneListing(t: Tree, fs: seq<File>, gs: seq<File>)
    requires IsListing(t, fs) && IsListing(t, gs)
    ensures fs == gs
    decreases |fs|
  {
    EmptyListing(t, fs);
    EmptyListing(t, gs);
    if fs != [] {
      SameFirst(t, fs, gs);
      RestOfListing(t, fs);
      RestOfListing(t, gs);
      OneListing(t - {fs[0].path}, fs[1..], gs[1..]);
      SplitFirst(fs);
      SplitFirst(gs);
    }
  }

  lemma SplitFirst(fs: seq<File>)
    requires fs != []
    ensures fs == [fs[0]] + fs[1..]
  {
  }

  lemma EmptyListing(t: Tree, fs: seq<File>)
    requires IsListing(t, fs)
    ensures fs == [] <==> t == map[]
  {
    if fs != [] { assert fs[0].path in t; }
    if p :| p in t { var i :| 0 <= i < |fs| && fs[i].path == p; }
  }

  lemma FirstIsSmallest(t: Tree, fs: seq<File>, gs: seq<File>)
    requires IsListing(t, fs) && IsListing(t, gs) && fs != [] && gs != []
    ensures fs[0].path == gs[0].path || Less(fs[0].path, gs[0].path)
  {
    assert gs[0].path in t;
    var i :| 0 <= i < |fs| && fs[i].path == gs[0].path;
  }

  lemma SameFirst(t: Tree, fs: seq<File>, gs: seq<File>)
    requires IsListing(t, fs) && IsListing(t, gs) && fs != [] && gs != []
    ensures fs[0] == gs[0]
  {
    FirstIsSmallest(t, fs, gs);
    FirstIsSmallest(t, gs, fs);
    LessTrichotomy(fs[0].path, gs[0].path);
  }

  lemma RestOfListing(t: Tree, fs: seq<File>)
    requires IsListing(t, fs) && fs != []
    ensures IsListing(t - {fs[0].path}, fs[1..])
  {
    var rest, tail := t - {fs[0].path}, fs[1..];
    forall i | 0 <= i < |tail| ensures tail[i].path in rest && rest[tail[i].path] == tail[i].content {
      assert Less(fs[0].path, fs[i + 1].path);
      LessTrichotomy(fs[0].path, fs[i + 1].path);
    }
    forall p | p in rest ensures exists i :: 0 <= i < |tail| && tail[i].path == p {
      var i :| 0 <= i < |fs| && fs[i].path == p;
      assert tail[i - 1].path == p;
    }
  }

  /** And a listing has one tree. */
  lemma OneTree(t: Tree, u: Tree, fs: seq<File>)
    requires IsListing(t, fs) && IsListing(u, fs)
    ensures t == u
  {
    forall p ensures p in t <==> p in u {
      if p in t { var i :| 0 <= i < |fs| && fs[i].path == p; }
      if p in u { var i :| 0 <= i < |fs| && fs[i].path == p; }
    }
    forall p | p in t ensures t[p] == u[p] {
      var i :| 0 <= i < |fs| && fs[i].path == p;
    }
  }
}

/** The bundle digest of internal/bundle/hash.go: what is fed to the hash, and that it tells trees apart. */
module BundleDigest {
  import opened FileTrees
  import opened Decimal
  import opened Sorting

  datatype Result = Digested(fed: string) | Unreadable(path: string)

  /** "%s\n" of the path, the content, "\n%d\n" of its length. */
  function Record(f: File): string { f.path + "\n" + f.content + "\n" + Dec(|f.content|) + "\n" }

  function StreamOf(fs: seq<File>): string {
    if fs == [] then "" else StreamOf(fs[..|fs| - 1]) + Record(fs[|fs| - 1])
  }

  method HashOne(h: Hash, t: Tree, p: string) returns (ghost f: File)
    requires p in t
    modifies h
    ensures f == File(p, t[p]) && h.fed == old(h.fed) + Record(f)
  {
    var content := t[p];
    f := File(p, content);
    h.Write(p + "\n");
    h.Write(content);
    h.Write("\n" + Dec(|content|) + "\n");
    InPieces(old(h.fed), p, content, Dec(|content|));
  }

  lemma InPieces(a: string, p: string, c: string, d: string)
    ensures ((a + (p + "\n")) + c) + ("\n" + d + "\n") == a + (p + "\n" + c + "\n" + d + "\n")
  {
  }

  /** Feeds every file in path order; stops at the first that cannot be read. */
  method Digest(t: Tree, unreadable: set<string>) returns (r: Result)
    ensures r.Digested? <==> t.Keys !! unreadable
    ensures r.Digested? ==> exists fs :: IsListing(t, fs) && r.fed == StreamOf(fs)
    ensures r.Unreadable? ==> r.path in t && r.path in unreadable
                              && forall p :: p in t && p in unreadable ==> !Less(p, r.path)
  {
    var paths := SortedPaths(t);
    var h := new Hash();
    ghost var fs: seq<File> := [];
    for i := 0 to |paths|
      invariant |fs| == i && forall j :: 0 <= j < i ==> fs[j] == File(paths[j], t[paths[j]])
      invariant h.fed == StreamOf(fs)
      invariant forall j :: 0 <= j < i ==> paths[j] !in unreadable
    {
      if paths[i] in unreadable {
        NoneBefore(paths, i, unreadable);
        return Unreadable(paths[i]);
      }
      ghost var f := HashOne(h, t, paths[i]);
      assert (fs + [f])[..|fs|] == fs;
      fs := fs + [f];
    }
    ListsAll(t, paths, fs, unreadable);
    r := Digested(h.fed);
  }

  lemma NoneBefore(paths: seq<string>, i: nat, unreadable: set<string>)
    requires i < |paths| && forall j :: 0 <= j < i ==> paths[j] !in unreadable
    requires Increasing(paths)
    ensures forall p :: p in paths && p in unreadable ==> !Less(p, paths[i])
  {
    forall p | p in paths && p in unreadable ensures !Less(p, paths[i]) {
      var k :| 0 <= k < |paths| && paths[k] == p;
      LessTrichotomy(p, paths[i]);
    }
  }

  // ----- Decoding from the end ---------------------------------------------------------------------------

  ghost predicate OneLine(s: string) { forall i :: 0 <= i < |s| ==> s[i] != '\n' }

  ghost predicate OneLinePaths(fs: seq<File>) { forall i :: 0 <= i < |fs| ==> OneLine(fs[i].path) }

  /** Empty or ends with a newline. */
  ghost predicate WholeLines(s: string) { s == "" || s[|s| - 1] == '\n' }

  /** The position of the last newline, or -1. */
  ghost function LastBreak(s: string): int {
    if s == "" then -1 else if s[|s| - 1] == '\n' then |s| - 1 else LastBreak(s[..|s| - 1])
  }

  lemma {:induction false} LastBreakOf(x: string, d: string)
    requires WholeLines(x) && OneLine(d)
    ensures LastBreak(x + d) == |x| - 1
  {
    if d == "" {
      assert x + d == x;
    } else {
      assert (x + d)[..|x + d| - 1] == x + d[..|d| - 1];
      LastBreakOf(x, d[..|d| - 1]);
    }
  }

  /** The last line is determined, and so is what comes before it. */
  lemma LastLine(x: string, d: string, y: string, e: string)
    requires WholeLines(x) && WholeLines(y) && OneLine(d) && OneLine(e) && x + d == y + e
    ensures x == y && d == e
  {
    LastBreakOf(x, d);
    LastBreakOf(y, e);
    SameSplit(x, d, y, e);
  }

  /** The trailer gives the content's length, the length gives the content. */
  lemma {:induction false} TrailerTells(a: string, c: string, b: string, d: string)
    requires a + "\n" + c + "\n" + Dec(|c|) + "\n" == b + "\n" + d + "\n" + Dec(|d|) + "\n"
    ensures a == b && c == d
  {
    var x, y := a + "\n" + c + "\n", b + "\n" + d + "\n";
    SameSplit(x + Dec(|c|), "\n", y + Dec(|d|), "\n");
    LastLine(x, Dec(|c|), y, Dec(|d|));
    DecIsInjective(|c|, |d|);
    SameSplit(a + "\n" + c, "\n", b + "\n" + d, "\n");
    SameSplit(a + "\n", c, b + "\n", d);
    SameSplit(a, "\n", b, "\n");
  }

  lemma {:induction false} StreamIsLines(fs: seq<File>)
    ensures WholeLines(StreamOf(fs)) && (fs == [] <==> StreamOf(fs) == "")
  {
  }

  lemma {:induction false} LastRecord(fs: seq<File>)
    requires fs != []
    ensures var f := fs[|fs| - 1];
      StreamOf(fs) == StreamOf(fs[..|fs| - 1]) + f.path + "\n" + f.content + "\n" + Dec(|f.content|) + "\n"
  {
    var f := fs[|fs| - 1];
    RecordAfter(StreamOf(fs[..|fs| - 1]), f);
  }

  lemma RecordAfter(a: string, f: File)
    ensures a + Record(f) == a + f.path + "\n" + f.content + "\n" + Dec(|f.content|) + "\n"
  {
    Regroup(a, f.path, "\n", f.content, "\n", Dec(|f.content|), "\n");
  }

  lemma Regroup(a: string, b: string, c: string, d: string, e: string, f: string, g: string)
    ensures a + (b + c + d + e + f + g) == a + b + c + d + e + f + g
  {
  }

  lemma SplitLast(fs: seq<File>)
    requires fs != []
    ensures fs == fs[..|fs| - 1] + [fs[|fs| - 1]]
  {
  }

  lemma {:induction false} LastRecordTells(fs: seq<File>, gs: seq<File>)
    requires fs != [] && gs != [] && StreamOf(fs) == StreamOf(gs)
    requires OneLine(fs[|fs| - 1].path) && OneLine(gs[|gs| - 1].path)
    ensures StreamOf(fs[..|fs| - 1]) == StreamOf(gs[..|gs| - 1]) && fs[|fs| - 1] == gs[|gs| - 1]
  {
    var f, g, a, b := fs[|fs| - 1], gs[|gs| - 1], fs[..|fs| - 1], gs[..|gs| - 1];
    LastRecord(fs);
    LastRecord(gs);
    TrailerTells(StreamOf(a) + f.path, f.content, StreamOf(b) + g.path, g.content);
    StreamIsLines(a);
    StreamIsLines(b);
    LastLine(StreamOf(a), f.path, StreamOf(b), g.path);
  }

  lemma {:induction false} StreamTells(fs: seq<File>, gs: seq<File>)
    requires StreamOf(fs) == StreamOf(gs) && OneLinePaths(fs) && OneLinePaths(gs)
    ensures fs == gs
    decreases |fs|
  {
    StreamIsLines(fs);
    StreamIsLines(gs);
    if fs != [] {
      LastRecordTells(fs, gs);
      StreamTells(fs[..|fs| - 1], gs[..|gs| - 1]);
      SplitLast(fs);
      SplitLast(gs);
    }
  }

  /** Of the lists that feed the hash the same bytes as files with one-line paths, only the list of
      those files has one-line paths. */
  lemma {:induction false} SameBytesSameFiles(fs: seq<File>, gs: seq<File>)
    requires OneLinePaths(fs) && StreamOf(fs) == StreamOf(gs)
    ensures fs == gs <==> OneLinePaths(gs)
  {
    if OneLinePaths(gs) { StreamTells(fs, gs); }
  }

  /** Such a list always exists from two files on: all but the last record hidden in one path.  So
      the length after the content does not delimit the path. */
  lemma {:induction false} NewlinesHideRecords(fs: seq<File>)
    requires |fs| >= 2
    ensures exists gs :: |gs| == 1 && StreamOf(gs) == StreamOf(fs)
  {
    var hidden := Hidden(fs);
    HiddenStream(fs);
    assert |[hidden]| == 1 && StreamOf([hidden]) == StreamOf(fs);
  }

  /** All records but the last one, taken for a path. */
  ghost function Hidden(fs: seq<File>): File
    requires fs != []
  {
    File(StreamOf(fs[..|fs| - 1]) + fs[|fs| - 1].path, fs[|fs| - 1].content)
  }

  lemma LoneRecord(f: File)
    ensures StreamOf([f]) == f.path + "\n" + f.content + "\n" + Dec(|f.content|) + "\n"
  {
    assert [f][..0] == [];
    assert StreamOf([f]) == "" + Record(f) == Record(f);
  }

  lemma {:induction false} HiddenStream(fs: seq<File>)
    requires fs != []
    ensures StreamOf([Hidden(fs)]) == StreamOf(fs)
  {
    LastRecord(fs);
    LoneRecord(Hidden(fs));
  }

  lemma {:induction false} LoneFileTells(f: File, gs: seq<File>)
    requires OneLine(f.path) && StreamOf(gs) == StreamOf([f])
    ensures gs == [f]
  {
    StreamIsLines([f]);
    StreamIsLines(gs);
    var init, g := gs[..|gs| - 1], gs[|gs| - 1];
    LoneRecord(f);
    LastRecord(gs);
    TrailerTells(f.path, f.content, StreamOf(init) + g.path, g.content);
    StreamIsLines(init);
    LinesInFront(StreamOf(init), g.path);
    SplitLast(gs);
  }

  lemma LinesInFront(a: string, b: string)
    requires WholeLines(a)
    ensures if a == "" then a + b == b else !OneLine(a + b)
  {
    if a != "" { assert (a + b)[|a| - 1] == '\n'; }
  }

  /** A tree with one-line paths shares its bytes with another tree if and only if it has two files or
      more. */
  lemma {:induction false} AnotherTreeNeedsTwoFiles(t: Tree, fs: seq<File>)
    requires IsListing(t, fs) && OneLinePaths(fs)
    ensures (exists u, gs :: IsListing(u, gs) && StreamOf(gs) == StreamOf(fs) && u != t) <==> |fs| >= 2
  {
    if |fs| >= 2 {
      var hidden := Hidden(fs);
      var u := map[hidden.path := hidden.content];
      HiddenStream(fs);
      LoneListing(hidden);
      if u == t { OneListing(t, fs, [hidden]); }
      assert IsListing(u, [hidden]) && StreamOf([hidden]) == StreamOf(fs);
    }
    if u, gs :| IsListing(u, gs) && StreamOf(gs) == StreamOf(fs) && u != t { OtherTreeHasTwo(t, fs, u, gs); }
  }

  lemma LoneListing(f: File)
    ensures IsListing(map[f.path := f.content], [f])
  {
    assert [f][0].path == f.path;
  }

  lemma {:induction false} OtherTreeHasTwo(t: Tree, fs: seq<File>, u: Tree, gs: seq<File>)
    requires IsListing(t, fs) && OneLinePaths(fs) && IsListing(u, gs) && StreamOf(gs) == StreamOf(fs) && u != t
    ensures |fs| >= 2
  {
    if |fs| < 2 {
      if fs == [] {
        StreamIsLines(fs);
        StreamIsLines(gs);
      } else {
        assert fs == [fs[0]];
        LoneFileTells(fs[0], gs);
      }
      OneTree(t, u, fs);
    }
  }

  lemma HiddenPath(f: File, g: File)
    requires f == File("a", "") && g == File("b", "")
    ensures Hidden([f, g]) == File("a\n\n0\nb", "")
  {
    LoneRecord(f);
    assert Dec(0) == "0";
    assert [f, g][..1] == [f];
    assert StreamOf([f]) == "a\n\n0\n";
  }

  lemma PairListing(f: File, g: File)
    requires Less(f.path, g.path) && f.path != g.path
    ensures IsListing(map[f.path := f.content, g.path := g.content], [f, g])
  {
    assert [f, g][0].path == f.path && [f, g][1].path == g.path;
  }

  /** The files "a" and "b", both empty, and one empty file whose path runs over four lines. */
  lemma TwoTreesAlike()
    ensures var fs, gs := [File("a", ""), File("b", "")], [File("a\n\n0\nb", "")];
            && IsListing(map["a" := "", "b" := ""], fs) && IsListing(map["a\n\n0\nb" := ""], gs)
            && StreamOf(fs) == StreamOf(gs)
  {
    var f, g := File("a", ""), File("b", "");
    HiddenPath(f, g);
    HiddenStream([f, g]);
    LoneListing(Hidden([f, g]));
    PairListing(f, g);
  }

  /** Two trees with one-line paths are fed alike exactly when they are the same tree. */
  lemma {:induction false} DigestTellsTreesApart(t: Tree, fs: seq<File>, u: Tree, gs: seq<File>)
    requires IsListing(t, fs) && IsListing(u, gs)
    requires (forall p :: p in t ==> OneLine(p)) && (forall p :: p in u ==> OneLine(p))
    ensures StreamOf(fs) == StreamOf(gs) <==> t == u
  {
    if StreamOf(fs) == StreamOf(gs) {
      StreamTells(fs, gs);
      OneTree(t, u, fs);
    }
    if t == u { OneListing(t, fs, gs); }
  }
}

/** The migration fingerprint of internal/testutil/db.go: the bytes fed, decoded from the front. */
module MigrationFingerprint {
  import opened FileTrees
  import opened Decimal
  import opened Sorting

  datatype Result = Fingerprint(fed: string) | NoMigrations | Unreadable

  /** "%d:%s\n%d:" of the name and the content's length, then the content. */
  function Record(f: File): string {
    Dec(|f.path|) + ":" + f.path + "\n" + Dec(|f.content|) + ":" + f.content
  }

  function StreamOf(fs: seq<File>): string {
    if fs == [] then "" else StreamOf(fs[..|fs| - 1]) + Record(fs[|fs| - 1])
  }

  /** `t` holds the files the pattern *.sql matches. */
  method FingerprintMigrations(t: Tree, unreadable: set<string>) returns (r: Result)
    ensures r.NoMigrations? <==> t == map[]
    ensures r.Unreadable? <==> t != map[] && !(t.Keys !! unreadable)
    ensures r.Fingerprint? ==> exists fs :: IsListing(t, fs) && r.fed == StreamOf(fs)
  {
    var names := SortedPaths(t);
    if names == [] {
      return NoMigrations;
    }
    var sum := new Hash();
    ghost var fs: seq<File> := [];
    assert names[0] in t;
    for i := 0 to |names|
      invariant |fs| == i && forall j :: 0 <= j < i ==> fs[j] == File(names[j], t[names[j]])
      invariant sum.fed == StreamOf(fs)
      invariant forall j :: 0 <= j < i ==> names[j] !in unreadable
    {
      if names[i] in unreadable {
        return Unreadable;
      }
      ghost var f := WriteOne(sum, names[i], t[names[i]]);
      assert (fs + [f])[..|fs|] == fs;
      fs := fs + [f];
    }
    ListsAll(t, names, fs, unreadable);
    r := Fingerprint(sum.fed);
  }

  method WriteOne(sum: Hash, name: string, content: string) returns (ghost f: File)
    modifies sum
    ensures f == File(name, content) && sum.fed == old(sum.fed) + Record(f)
  {
    f := File(name, content);
    sum.Write(Dec(|name|) + ":" + name + "\n" + Dec(|content|) + ":");
    sum.Write(content);
    Associates(old(sum.fed), Dec(|name|) + ":" + name + "\n" + Dec(|content|) + ":", content);
  }

  lemma Associates(a: string, b: string, c: string)
    ensures (a + b) + c == a + (b + c)
  {
  }

  // ----- Decoding from the front --------------------------------------------------------------------------

  /** The position of the first colon, or the length. */
  ghost function FirstColon(s: string): nat {
    if s == "" || s[0] == ':' then 0 else 1 + FirstColon(s[1..])
  }

  lemma {:induction false} FirstColonOf(a: string, u: string)
    requires forall i :: 0 <= i < |a| ==> IsDigit(a[i])
    ensures FirstColon(a + (":" + u)) == |a|
  {
    if a == "" {
      assert a + (":" + u) == ":" + u;
    } else {
      assert (a + (":" + u))[1..] == a[1..] + (":" + u);
      FirstColonOf(a[1..], u);
    }
  }

  /** The first colon ends the number. */
  lemma {:induction false} NumberTells(m: nat, u: string, n: nat, v: string)
    requires Dec(m) + (":" + u) == Dec(n) + (":" + v)
    ensures m == n && u == v
  {
    FirstColonOf(Dec(m), u);
    FirstColonOf(Dec(n), v);
    SameSplit(Dec(m), ":" + u, Dec(n), ":" + v);
    SameSplit(":", u, ":", v);
    DecIsInjective(m, n);
  }

  lemma RecordBefore(f: File, x: string)
    ensures Record(f) + x == Dec(|f.path|) + (":" + (f.path + ("\n" + (Dec(|f.content|) + (":" + (f.content + x))))))
  {
    Regroup(Dec(|f.path|), ":", f.path, "\n", Dec(|f.content|), ":", f.content, x);
  }

  lemma Regroup(a: string, b: string, c: string, d: string, e: string, f: string, g: string, x: string)
    ensures a + b + c + d + e + f + g + x == a + (b + (c + (d + (e + (f + (g + x))))))
  {
  }

  lemma RecordTells(f: File, x: string, g: File, y: string)
    requires Record(f) + x == Record(g) + y
    ensures f == g && x == y
  {
    var c, d := Dec(|f.content|) + (":" + (f.content + x)), Dec(|g.content|) + (":" + (g.content + y));
    RecordBefore(f, x);
    RecordBefore(g, y);
    NumberTells(|f.path|, f.path + ("\n" + c), |g.path|, g.path + ("\n" + d));
    SameSplit(f.path, "\n" + c, g.path, "\n" + d);
    SameSplit("\n", c, "\n", d);
    NumberTells(|f.content|, f.content + x, |g.content|, g.content + y);
    SameSplit(f.content, x, g.content, y);
  }

  lemma {:induction false} StreamFromFront(fs: seq<File>)
    requires fs != []
    ensures StreamOf(fs) == Record(fs[0]) + StreamOf(fs[1..])
  {
    if |fs| == 1 {
      assert fs[..0] == [] && fs[1..] == [];
    } else {
      var init, last := fs[..|fs| - 1], fs[|fs| - 1];
      StreamFromFront(init);
      assert fs[1..][..|fs| - 2] == init[1..];
      Associates(Record(fs[0]), StreamOf(init[1..]), Record(last));
    }
  }

  /** No two lists of files are fed alike, whatever their names and contents. */
  lemma {:induction false} StreamTells(fs: seq<File>, gs: seq<File>)
    requires StreamOf(fs) == StreamOf(gs)
    ensures fs == gs
    decreases |fs|
  {
    if fs != [] && gs != [] {
      StreamFromFront(fs);
      StreamFromFront(gs);
      RecordTells(fs[0], StreamOf(fs[1..]), gs[0], StreamOf(gs[1..]));
      StreamTells(fs[1..], gs[1..]);
      assert fs == [fs[0]] + fs[1..] && gs == [gs[0]] + gs[1..];
    }
  }

  /** Renaming, editing, adding or removing a migration changes what is fed, and nothing else does. */
  lemma {:induction false} FingerprintTellsSetsApart(t: Tree, fs: seq<File>, u: Tree, gs: seq<File>)
    requires IsListing(t, fs) && IsListing(u, gs)
    ensures StreamOf(fs) == StreamOf(gs) <==> t == u
  {
    if StreamOf(fs) == StreamOf(gs) {
      StreamTells(fs, gs);
      OneTree(t, u, fs);
    }
    if t == u { OneListing(t, fs, gs); }
  }
}
