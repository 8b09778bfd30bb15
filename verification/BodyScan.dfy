/**
  The census of one Confluence page body, internal/assess/confluence/storage.go, and
  its accumulation over a whole space.

  The decoder's tokens are the input; the synthetic root that wraps a body and is never
  closed is the first of them.
 */
module BodyScan {
  import opened Text
  import opened Sorting
  import opened Census

  const CAP := Cap(512, "(other — distinct-name cap reached)")
  const UNNAMED := "(macro with no ac:name)"
  const BALANCED := 1

  datatype Attr = Attr(space: string, local: string, value: string)

  datatype Token = Open(space: string, local: string, attrs: seq<Attr>) | Close | Content

  datatype Namespace = HTML | AC | RI

  predicate Contains(s: string, part: string) { part <= s || (s != "" && Contains(s[1..], part)) }

  /** A body that declares no namespaces leaves the prefix where the URI would be. */
  function ClassifyNS(space: string): Namespace {
    if space == "ac" || Contains(space, "atlassian.com/content") then AC
    else if space == "ri" || Contains(space, "resource/identifier") then RI
    else HTML
  }

  function MacroName(attrs: seq<Attr>): string {
    if attrs == [] then UNNAMED
    else
      var a := attrs[0];
      if a.local == "name" && (ClassifyNS(a.space).AC? || a.space == "") && TrimSpace(a.value) != ""
      then TrimSpace(a.value)
      else MacroName(attrs[1..])
  }

  /** What is counted by construct. */
  datatype Body = Body(macros: Counts, elements: Counts, html: Counts, truncated: bool, capReached: bool)

  const EMPTY := Body(map[], map[], map[], false, false)

  function Named(name: string): string { if name == "" then UNNAMED else name }

  /** An opening tag that is content is counted in exactly one of the three maps. */
  function Record(b: Body, space: string, local: string, attrs: seq<Attr>): Body {
    match ClassifyNS(space)
    case AC =>
      if local == "structured-macro" then
        var name := Named(MacroName(attrs));
        b.(capReached := b.capReached || Overflows(CAP, b.macros, name), macros := Add(CAP, b.macros, One(name)))
      else
        var name := Named("ac:" + local);
        b.(capReached := b.capReached || Overflows(CAP, b.elements, name), elements := Add(CAP, b.elements, One(name)))
    case RI =>
      var name := Named("ri:" + local);
      b.(capReached := b.capReached || Overflows(CAP, b.elements, name), elements := Add(CAP, b.elements, One(name)))
    case HTML =>
      var name := Named(ToLower(local));
      b.(capReached := b.capReached || Overflows(CAP, b.html, name), html := Add(CAP, b.html, One(name)))
  }

  function DepthChange(t: Token): int { match t case Open(_, _, _) => 1 case Close => -1 case Content => 0 }

  function ScanFrom(b: Body, ts: seq<Token>, depth: int): Body
    decreases |ts|
  {
    if ts == [] then b.(truncated := b.truncated || depth != BALANCED)
    else
      var t, depth' := ts[0], depth + DepthChange(ts[0]);
      ScanFrom(if t.Open? && depth' > BALANCED then Record(b, t.space, t.local, t.attrs) else b, ts[1..], depth')
  }

  function Scan(ts: seq<Token>): Body { ScanFrom(EMPTY, ts, 0) }

  /** One map of a census folded into another, in the order of the names. */
  ghost function Merged(dst: Counts, src: Counts): Counts { AddAll(CAP, dst, EntriesOf(src, InOrder(src))) }

  /** The fold ran into the cap. */
  ghost predicate MergeOverflows(dst: Counts, src: Counts) { CapReached(CAP, dst, EntriesOf(src, InOrder(src))) }

  class BodyCensus {
    var macros: Counts
    var elements: Counts
    var html: Counts
    var truncated: bool
    var capReached: bool

    function Contents(): Body
      reads this
    {
      Body(macros, elements, html, truncated, capReached)
    }

    constructor ()
      ensures Contents() == EMPTY
    {
      macros, elements, html, truncated, capReached := map[], map[], map[], false, false;
    }

    /** The counts with one more of `name`; notes when the cap was hit. */
    method Count(m: Counts, name: string) returns (counted: Counts)
      modifies this`capReached
      ensures counted == Add(CAP, m, One(Named(name)))
      ensures capReached == (old(capReached) || Overflows(CAP, m, Named(name)))
    {
      var key := if name == "" then UNNAMED else name;
      if key !in m && |m| >= CAP.names {
        capReached := true;
        return m[CAP.overflow := Get(m, CAP.overflow) + 1];
      }
      return m[key := Get(m, key) + 1];
    }

    method RecordElement(space: string, local: string, attrs: seq<Attr>)
      modifies this
      ensures Contents() == Record(old(Contents()), space, local, attrs)
    {
      match ClassifyNS(space) {
        case AC =>
          if local == "structured-macro" {
            macros := Count(macros, MacroName(attrs));
          } else {
            elements := Count(elements, "ac:" + local);
          }
        case RI => elements := Count(elements, "ri:" + local);
        case HTML => html := Count(html, ToLower(local));
      }
    }

    method ScanTokens(ts: seq<Token>)
      modifies this
      ensures Contents() == ScanFrom(old(Contents()), ts, 0)
    {
      var depth := 0;
      for i := 0 to |ts|
        invariant ScanFrom(Contents(), ts[i..], depth) == ScanFrom(old(Contents()), ts, 0)
      {
        assert ts[i..][1..] == ts[i + 1..];
        match ts[i] {
          case Open(space, local, attrs) =>
            depth := depth + 1;
            if depth > BALANCED {
              RecordElement(space, local, attrs);
            }
          case Close => depth := depth - 1;
          case Content =>
        }
      }
      if depth != BALANCED {
        truncated := true;
      }
    }

    /** Adds the counts of `src` to those of `dst`, in the order of the names; notes when the cap was hit. */
    method MergeCounts(dst: Counts, src: Counts) returns (merged: Counts)
      modifies this`capReached
      ensures merged == Merged(dst, src)
      ensures capReached == (old(capReached) || MergeOverflows(dst, src))
    {
      var keys := SortedKeys(src);
      ghost var es := EntriesOf(src, keys);
      merged := dst;
      for i := 0 to |keys|
        invariant merged == AddAll(CAP, dst, es[..i])
        invariant capReached == (old(capReached) || CapReached(CAP, dst, es[..i]))
      {
        var name := keys[i];
        assert name in keys;
        AddAllStep(CAP, dst, es, i);
        if name !in merged && |merged| >= CAP.names {
          capReached := true;
          merged := Bump(merged, CAP.overflow, src[name]);
          continue;
        }
        merged := Bump(merged, name, src[name]);
      }
      assert es[..|keys|] == es;
    }

    method Merge(other: Body)
      modifies this
      ensures Contents() == MergedBody(old(Contents()), other)
    {
      ghost var before := Contents();
      macros := MergeCounts(macros, other.macros);
      elements := MergeCounts(elements, other.elements);
      html := MergeCounts(html, other.html);
      assert macros == Merged(before.macros, other.macros) && elements == Merged(before.elements, other.elements);
      if other.truncated {
        truncated := true;
      }
      capReached := capReached || other.capReached;
    }
  }

  ghost function MergedBody(b: Body, other: Body): Body {
    Body(Merged(b.macros, other.macros), Merged(b.elements, other.elements), Merged(b.html, other.html),
         b.truncated || other.truncated,
         b.capReached || MergeOverflows(b.macros, other.macros) || MergeOverflows(b.elements, other.elements)
         || MergeOverflows(b.html, other.html) || other.capReached)
  }

  /** Merging keeps totals exact and memory bounded; below the cap it is the pointwise sum and the
      overflow name is not used. */
  lemma {:induction false} MergeIsExact(dst: Counts, src: Counts)
    ensures Sum(Merged(dst, src)) == Sum(dst) + Sum(src)
    ensures Bounded(CAP, dst) ==> Bounded(CAP, Merged(dst, src))
    ensures |dst.Keys + src.Keys| <= CAP.names ==>
      && !MergeOverflows(dst, src) && Merged(dst, src).Keys == dst.Keys + src.Keys
      && forall name :: Get(Merged(dst, src), name) == Get(dst, name) + Get(src, name)
  {
    var keys := InOrder(src);
    MergeAddsUp(CAP, dst, src, keys);
    if Bounded(CAP, dst) { SizeStaysBounded(CAP, dst, EntriesOf(src, keys)); }
    if |dst.Keys + src.Keys| <= CAP.names {
      EntriesNames(src, keys);
      BelowCapIsExact(CAP, dst, EntriesOf(src, keys));
      CapNotReached(CAP, dst, EntriesOf(src, keys));
    }
  }

  method ScanBody(ts: seq<Token>) returns (census: Body)
    ensures census == Scan(ts)
  {
    var c := new BodyCensus();
    c.ScanTokens(ts);
    return c.Contents();
  }

  /** Censuses one body into a running total. */
  method Accumulate(total: BodyCensus, ts: seq<Token>) returns (truncated: bool)
    modifies total
    ensures truncated == Scan(ts).truncated
    ensures total.Contents() == MergedBody(old(total.Contents()), Scan(ts))
  {
    var census := ScanBody(ts);
    total.Merge(census);
    return census.truncated;
  }

  // ----- What a scan means ---------------------------------------------------------------------

  ghost function Total(b: Body): nat { Sum(b.macros) + Sum(b.elements) + Sum(b.html) }

  /** Opening tags strictly inside the root. */
  ghost function ElementsIn(ts: seq<Token>, depth: int): nat {
    if ts == [] then 0
    else (if ts[0].Open? && depth + 1 > BALANCED then 1 else 0) + ElementsIn(ts[1..], depth + DepthChange(ts[0]))
  }

  ghost function DepthAfter(ts: seq<Token>, depth: int): int {
    if ts == [] then depth else DepthAfter(ts[1..], depth + DepthChange(ts[0]))
  }

  lemma {:induction false} AddOneSum(m: Counts, name: string)
    ensures Sum(Add(CAP, m, One(name))) == Sum(m) + 1
  {
    var cap := CAP;
    AddSum(cap, m, One(name));
  }

  lemma RecordCountsOnce(b: Body, space: string, local: string, attrs: seq<Attr>)
    ensures Total(Record(b, space, local, attrs)) == Total(b) + 1
    ensures Record(b, space, local, attrs).truncated == b.truncated
  {
    match ClassifyNS(space)
    case AC =>
      if local == "structured-macro" {
        AddOneSum(b.macros, Named(MacroName(attrs)));
      } else {
        AddOneSum(b.elements, Named("ac:" + local));
      }
    case RI => AddOneSum(b.elements, Named("ri:" + local));
    case HTML => AddOneSum(b.html, Named(ToLower(local)));
  }

  lemma StepCounts(b: Body, t: Token, depth: int) returns (b': Body)
    ensures b' == if t.Open? && depth > BALANCED then Record(b, t.space, t.local, t.attrs) else b
    ensures Total(b') == Total(b) + (if t.Open? && depth > BALANCED then 1 else 0) && b'.truncated == b.truncated
  {
    b' := b;
    if t.Open? && depth > BALANCED {
      RecordCountsOnce(b, t.space, t.local, t.attrs);
      b' := Record(b, t.space, t.local, t.attrs);
    }
  }

  /** On any stream, every element inside the root is counted exactly once, and the body is called
      truncated exactly when opening tags outnumber closing ones by anything but the root's one. */
  lemma {:induction false} ScanCountsElements(b: Body, ts: seq<Token>, depth: int)
    ensures var r := ScanFrom(b, ts, depth);
      && Total(r) == Total(b) + ElementsIn(ts, depth)
      && r.truncated == (b.truncated || DepthAfter(ts, depth) != BALANCED)
    decreases |ts|
  {
    if ts != [] {
      var b' := StepCounts(b, ts[0], depth + DepthChange(ts[0]));
      ScanCountsElements(b', ts[1..], depth + DepthChange(ts[0]));
    }
  }

  datatype Node = Elem(space: string, local: string, attrs: seq<Attr>, children: seq<Node>) | Leaf

  function Tokens(n: Node): seq<Token>
    decreases n, 0
  {
    match n
    case Elem(space, local, attrs, children) => [Open(space, local, attrs)] + TokensAll(children) + [Close]
    case Leaf => [Content]
  }

  function TokensAll(ns: seq<Node>): seq<Token>
    decreases ns, 0
  {
    if ns == [] then [] else Tokens(ns[0]) + TokensAll(ns[1..])
  }

  ghost function Size(n: Node): nat
    decreases n, 0
  {
    match n case Elem(_, _, _, children) => 1 + SizeAll(children) case Leaf => 0
  }

  ghost function SizeAll(ns: seq<Node>): nat
    decreases ns, 0
  {
    if ns == [] then 0 else Size(ns[0]) + SizeAll(ns[1..])
  }

  lemma {:induction false} StreamsConcat(a: seq<Token>, b: seq<Token>, depth: int)
    ensures ElementsIn(a + b, depth) == ElementsIn(a, depth) + ElementsIn(b, DepthAfter(a, depth))
    ensures DepthAfter(a + b, depth) == DepthAfter(b, DepthAfter(a, depth))
    decreases |a|
  {
    if a == [] {
      assert a + b == b;
    } else {
      assert (a + b)[1..] == a[1..] + b;
      StreamsConcat(a[1..], b, depth + DepthChange(a[0]));
    }
  }

  lemma {:induction false} OneToken(t: Token, depth: int)
    ensures DepthAfter([t], depth) == depth + DepthChange(t)
    ensures ElementsIn([t], depth) == if t.Open? && depth + 1 > BALANCED then 1 else 0
  {
    assert [t][1..] == [];
  }

  lemma {:induction false} NodeIsBalanced(n: Node, depth: int)
    requires depth >= BALANCED
    ensures DepthAfter(Tokens(n), depth) == depth && ElementsIn(Tokens(n), depth) == Size(n)
    decreases n, 0
  {
    match n
    case Elem(space, local, attrs, children) =>
      var start := Open(space, local, attrs);
      OneToken(start, depth);
      ForestIsBalanced(children, depth + 1);
      OneToken(Close, depth + 1);
      StreamsConcat([start] + TokensAll(children), [Close], depth);
      StreamsConcat([start], TokensAll(children), depth);
    case Leaf => OneToken(Content, depth);
  }

  lemma {:induction false} ForestIsBalanced(ns: seq<Node>, depth: int)
    requires depth >= BALANCED
    ensures DepthAfter(TokensAll(ns), depth) == depth && ElementsIn(TokensAll(ns), depth) == SizeAll(ns)
    decreases ns, 0
  {
    if ns != [] {
      NodeIsBalanced(ns[0], depth);
      ForestIsBalanced(ns[1..], depth);
      StreamsConcat(Tokens(ns[0]), TokensAll(ns[1..]), depth);
    }
  }

  /** A whole fragment, wrapped in the open root: nothing is truncated and every element is counted. */
  lemma {:induction false} FragmentIsCounted(root: Token, ns: seq<Node>)
    requires root.Open?
    ensures Total(Scan([root] + TokensAll(ns))) == SizeAll(ns) && !Scan([root] + TokensAll(ns)).truncated
  {
    var ts := [root] + TokensAll(ns);
    ScanCountsElements(EMPTY, ts, 0);
    OneToken(root, 0);
    StreamsConcat([root], TokensAll(ns), 0);
    ForestIsBalanced(ns, 1);
  }

  // ----- What is not called truncated ----------------------------------------------------------

  /** The root is never closed. */
  ghost predicate StaysInside(ts: seq<Token>, depth: int) {
    depth >= BALANCED && (ts != [] ==> StaysInside(ts[1..], depth + DepthChange(ts[0])))
  }

  lemma {:induction false} InsideConcat(a: seq<Token>, b: seq<Token>, depth: int)
    ensures StaysInside(a + b, depth) <==> StaysInside(a, depth) && StaysInside(b, DepthAfter(a, depth))
    decreases |a|
  {
    if a == [] {
      assert a + b == b;
    } else {
      assert (a + b)[1..] == a[1..] + b;
      InsideConcat(a[1..], b, depth + DepthChange(a[0]));
    }
  }

  lemma {:induction false} OneInside(t: Token, depth: int)
    ensures StaysInside([t], depth) <==> depth >= BALANCED && depth + DepthChange(t) >= BALANCED
  {
    assert [t][1..] == [];
  }

  lemma {:induction false} NodeStaysInside(n: Node, depth: int)
    requires depth >= BALANCED
    ensures StaysInside(Tokens(n), depth)
    decreases n, 0
  {
    match n
    case Elem(space, local, attrs, children) =>
      var start, inner := Open(space, local, attrs), TokensAll(children);
      OneToken(start, depth);
      OneInside(start, depth);
      ForestStaysInside(children, depth + 1);
      ForestIsBalanced(children, depth + 1);
      OneInside(Close, depth + 1);
      StreamsConcat([start], inner, depth);
      InsideConcat([start], inner, depth);
      InsideConcat([start] + inner, [Close], depth);
    case Leaf => OneInside(Content, depth);
  }

  lemma {:induction false} ForestStaysInside(ns: seq<Node>, depth: int)
    requires depth >= BALANCED
    ensures StaysInside(TokensAll(ns), depth)
    decreases ns, 0
  {
    if ns != [] {
      NodeStaysInside(ns[0], depth);
      NodeIsBalanced(ns[0], depth);
      ForestStaysInside(ns[1..], depth);
      InsideConcat(Tokens(ns[0]), TokensAll(ns[1..]), depth);
    }
  }

  /** The rest of some elements that are open, the innermost first, each but the last with its end tag. */
  function TokensOfLevels(levels: seq<seq<Node>>): seq<Token> {
    if levels == [] then []
    else if |levels| == 1 then TokensAll(levels[0])
    else TokensAll(levels[0]) + [Close] + TokensOfLevels(levels[1..])
  }

  lemma {:induction false} InFront(n: Node, levels: seq<seq<Node>>) returns (more: seq<seq<Node>>)
    requires levels != []
    ensures |more| == |levels| && TokensOfLevels(more) == Tokens(n) + TokensOfLevels(levels)
  {
    var first := [n] + levels[0];
    more := [first] + levels[1..];
    assert first[1..] == levels[0] && more[1..] == levels[1..];
    assert TokensAll(first) == Tokens(n) + TokensAll(levels[0]);
    if |levels| > 1 {
      Associates(Tokens(n), TokensAll(levels[0]), [Close], TokensOfLevels(levels[1..]));
    }
  }

  lemma Associates<T>(a: seq<T>, b: seq<T>, c: seq<T>, d: seq<T>)
    ensures (a + b) + c + d == a + (b + c + d)
  {
  }

  /** An opening tag, the content of its element and the end tag are one node in front of what follows. */
  lemma {:induction false} Opened(t: Token, levels: seq<seq<Node>>) returns (more: seq<seq<Node>>)
    requires t.Open? && |levels| >= 2
    ensures |more| == |levels| - 1 && TokensOfLevels(more) == [t] + TokensOfLevels(levels)
  {
    var n := Elem(t.space, t.local, t.attrs, levels[0]);
    more := InFront(n, levels[1..]);
    assert Tokens(n) == [t] + TokensAll(levels[0]) + [Close];
    Associates([t], TokensAll(levels[0]), [Close], TokensOfLevels(levels[1..]));
  }

  /** A stream that never closes the root reads as the rest of the elements it closes. */
  lemma {:induction false} Levels(ts: seq<Token>, depth: nat) returns (levels: seq<seq<Node>>)
    requires StaysInside(ts, depth) && DepthAfter(ts, depth) == BALANCED
    ensures |levels| == depth && TokensOfLevels(levels) == ts
    decreases |ts|
  {
    if ts == [] {
      return [[]];
    }
    var rest := Levels(ts[1..], depth + DepthChange(ts[0]));
    assert ts == [ts[0]] + ts[1..];
    match ts[0]
    case Open(_, _, _) => levels := Opened(ts[0], rest);
    case Close =>
      levels := [[]] + rest;
      assert levels[1..] == rest;
      assert TokensAll([]) + [Close] + TokensOfLevels(rest) == [Close] + TokensOfLevels(rest);
    case Content => levels := InFront(Leaf, rest);
  }

  /** A body in its wrapping root is whole elements and text if and only if it is not called truncated
      and never closes the root. */
  lemma {:induction false} WholeMeansNotTruncated(root: Token, ts: seq<Token>)
    requires root.Open?
    ensures (exists ns :: ts == TokensAll(ns)) <==> !Scan([root] + ts).truncated && StaysInside(ts, BALANCED)
  {
    ScanCountsElements(EMPTY, [root] + ts, 0);
    OneToken(root, 0);
    StreamsConcat([root], ts, 0);
    if ns :| ts == TokensAll(ns) {
      ForestIsBalanced(ns, BALANCED);
      ForestStaysInside(ns, BALANCED);
    }
    if !Scan([root] + ts).truncated && StaysInside(ts, BALANCED) {
      var levels := Levels(ts, BALANCED);
      assert ts == TokensAll(levels[0]);
    }
  }

  /** A body that closes the root and opens another element is not whole, and not called truncated. */
  lemma ReopenedRoot(root: Token, other: Token)
    requires root.Open? && other.Open?
    ensures !Scan([root] + [Close, other]).truncated && !exists ns :: [Close, other] == TokensAll(ns)
  {
    var ts := [Close, other];
    WholeMeansNotTruncated(root, ts);
    ScanCountsElements(EMPTY, [root] + ts, 0);
    assert ts == [Close] + [other];
    OneToken(root, 0);
    OneToken(Close, 1);
    OneToken(other, 0);
    StreamsConcat([root], ts, 0);
    StreamsConcat([Close], [other], 1);
    OneInside(Close, BALANCED);
    InsideConcat([Close], [other], BALANCED);
  }
}
