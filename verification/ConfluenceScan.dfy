/**
  The scan over a whole Confluence entities.xml, internal/assess/confluence/entities.go:
  count every object, materialise the wanted classes one at a time, stop at a fault.
 */
module ConfluenceScan {
  import opened Text
  import opened Xml
  import opened Census
  import opened ConfluenceEntities

  datatype Scan = Scan(objects: Counts, total: nat, truncated: bool, capReached: bool, delivered: seq<Object>)

  const EMPTY := Scan(map[], 0, false, false, [])

  /** Which classes have a handler (lower case), and which objects their handlers fail on. */
  datatype Handlers = Handlers(wanted: set<string>, fails: Object -> bool)

  function ClassOf(attrs: seq<Attr>): string {
    if AttrValue(attrs, "class") == "" then NO_CLASS else AttrValue(attrs, "class")
  }

  function CountObject(s: Scan, cls: string): Scan {
    s.(total := s.total + 1,
       capReached := s.capReached || Overflows(CAP, s.objects, cls),
       objects := Add(CAP, s.objects, One(cls)))
  }

  predicate Wanted(h: Handlers, cls: string) { ToLower(cls) in h.wanted }

  /** A handler that fails ends the scan like a fault. */
  function Deliver(h: Handlers, s: Scan, o: Object): Scan {
    s.(delivered := s.delivered + [o], truncated := s.truncated || h.fails(o))
  }

  /** ok: the scan goes on. */
  function ConsumeObject(h: Handlers, rest: seq<Token>, faulty: bool, s: Scan, attrs: seq<Attr>): Parsed<Scan> {
    var cls := ClassOf(attrs);
    var counted := CountObject(s, cls);
    if !Wanted(h, cls) then
      match SkipFrom(rest, 0)
      case Past(after) => Parsed(counted, after, true)
      case Broken => Parsed(counted.(truncated := true), [], false)
    else
      var p := ObjectFrom(rest, faulty, NewObject(cls));
      if !p.ok then Parsed(counted.(truncated := true), p.rest, false)
      else Parsed(Deliver(h, counted, p.value), p.rest, !h.fails(p.value))
  }

  lemma ConsumeObjectShrinks(h: Handlers, rest: seq<Token>, faulty: bool, s: Scan, attrs: seq<Attr>)
    ensures |ConsumeObject(h, rest, faulty, s, attrs).rest| <= |rest|
  {
    SkipShrinks(rest, 0);
    ObjectShrinks(rest, faulty, NewObject(ClassOf(attrs)));
  }

  predicate OpensObject(t: Token) { t.Start? && EqualFold(t.name, "object") }

  function ScanFrom(h: Handlers, rest: seq<Token>, faulty: bool, s: Scan): Scan
    decreases |rest|
  {
    if rest == [] then (if faulty then s.(truncated := true) else s)
    else if !OpensObject(rest[0]) then ScanFrom(h, rest[1..], faulty, s)
    else
      ConsumeObjectShrinks(h, rest[1..], faulty, s, rest[0].attrs);
      var p := ConsumeObject(h, rest[1..], faulty, s, rest[0].attrs);
      if p.ok then ScanFrom(h, p.rest, faulty, p.value) else p.value
  }

  datatype Outcome = NotAnExport(truncated: bool) | Scanned(scan: Scan)

  function ScanExport(h: Handlers, tokens: seq<Token>, faulty: bool): Outcome {
    if tokens == [] then NotAnExport(faulty)
    else if !tokens[0].Start? then ScanExport(h, tokens[1..], faulty)
    else if !EqualFold(tokens[0].name, ROOT) then NotAnExport(false)
    else Scanned(ScanFrom(h, tokens[1..], faulty, EMPTY))
  }

  class Scanner {
    const handlers: Handlers
    var objects: Counts
    var total: nat
    var truncated: bool
    var capReached: bool
    var delivered: seq<Object>

    ghost function Contents(): Scan
      reads this
    {
      Scan(objects, total, truncated, capReached, delivered)
    }

    constructor (handlers: Handlers)
      ensures this.handlers == handlers && Contents() == EMPTY
    {
      this.handlers := handlers;
      objects, total, truncated, capReached, delivered := map[], 0, false, false, [];
    }

    method Count(cls: string)
      modifies this
      ensures Contents() == CountObject(old(Contents()), cls)
    {
      total := total + 1;
      if cls !in objects && |objects| >= CAP.names {
        capReached := true;
        objects := objects[CAP.overflow := Get(objects, CAP.overflow) + 1];
        return;
      }
      objects := objects[cls := Get(objects, cls) + 1];
    }

    method Consume(dec: Decoder, attrs: seq<Attr>) returns (goOn: bool)
      modifies this, dec
      ensures Parsed(Contents(), dec.rest, goOn)
              == ConsumeObject(handlers, old(dec.rest), dec.faulty, old(Contents()), attrs)
    {
      var cls := AttrValue(attrs, "class");
      if cls == "" {
        cls := NO_CLASS;
      }
      Count(cls);
      if ToLower(cls) !in handlers.wanted {
        var skipped := dec.Skip();
        if !skipped {
          truncated := true;
        }
        return skipped;
      }
      var o, read := DecodeObject(dec, cls);
      if !read {
        truncated := true;
        return false;
      }
      delivered := delivered + [o];
      if handlers.fails(o) {
        truncated := true;
        return false;
      }
      return true;
    }

    method ScanObjects(dec: Decoder)
      modifies this, dec
      ensures Contents() == ScanFrom(handlers, old(dec.rest), dec.faulty, old(Contents()))
    {
      while true
        invariant ScanFrom(handlers, dec.rest, dec.faulty, Contents())
                  == ScanFrom(handlers, old(dec.rest), dec.faulty, old(Contents()))
        decreases |dec.rest|
      {
        var read := dec.Next();
        if read.Eof? {
          return;
        }
        if read.Fault? {
          truncated := true;
          return;
        }
        if !OpensObject(read.token) {
          continue;
        }
        ConsumeObjectShrinks(handlers, dec.rest, dec.faulty, Contents(), read.token.attrs);
        var goOn := Consume(dec, read.token.attrs);
        if !goOn {
          return;
        }
      }
    }

    /** Returns whether the stream is an export; what was read is in the scanner. */
    method ScanStream(dec: Decoder) returns (isExport: bool)
      requires Contents() == EMPTY
      modifies this, dec
      ensures var outcome := ScanExport(handlers, old(dec.rest), dec.faulty);
              if isExport then outcome == Scanned(Contents())
              else outcome == NotAnExport(truncated) && Contents() == EMPTY.(truncated := truncated)
    {
      while true
        invariant Contents() == EMPTY
        invariant ScanExport(handlers, dec.rest, dec.faulty) == ScanExport(handlers, old(dec.rest), dec.faulty)
        decreases |dec.rest|
      {
        var read := dec.Next();
        if !read.Got? {
          truncated := read.Fault?;
          return false;
        }
        if !read.token.Start? {
          continue;
        }
        if !EqualFold(read.token.name, ROOT) {
          return false;
        }
        ScanObjects(dec);
        return true;
      }
    }
  }

  // ----- Trees ----------------------------------------------------------------------------------

  predicate IsObject(n: Node) { n.Elem? && EqualFold(n.name, "object") }

  /** The object elements not inside another object, in document order, at whatever depth. */
  function Outermost(ns: seq<Node>): seq<Node> {
    if ns == [] then [] else OutermostIn(ns[0]) + Outermost(ns[1..])
  }

  function OutermostIn(n: Node): seq<Node> {
    if IsObject(n) then [n] else if n.Elem? then Outermost(n.children) else []
  }

  function ObjectOf(n: Node): Object
    requires n.Elem?
  {
    TreeObject(NewObject(ClassOf(n.attrs)), n.children)
  }

  function TreeStep(h: Handlers, s: Scan, n: Node): Scan
    requires n.Elem?
  {
    var counted := CountObject(s, ClassOf(n.attrs));
    if Wanted(h, ClassOf(n.attrs)) then Deliver(h, counted, ObjectOf(n)) else counted
  }

  ghost predicate AllObjects(objs: seq<Node>) { forall n :: n in objs ==> IsObject(n) }

  function TreeScan(h: Handlers, objs: seq<Node>, s: Scan): Scan
    requires AllObjects(objs)
    decreases |objs|
  {
    if objs == [] then s else assert objs[0] in objs; TreeScan(h, objs[1..], TreeStep(h, s, objs[0]))
  }

  lemma {:induction false} OutermostAreObjects(ns: seq<Node>)
    ensures AllObjects(Outermost(ns))
  {
    if ns != [] {
      OutermostAreObjects(ns[1..]);
      if ns[0].Elem? && !IsObject(ns[0]) { OutermostAreObjects(ns[0].children); }
    }
  }

  ghost predicate NoneFail(h: Handlers, objs: seq<Node>) {
    forall n :: n in objs && IsObject(n) ==> !h.fails(ObjectOf(n))
  }

  lemma {:induction false} TreeScanConcat(h: Handlers, a: seq<Node>, b: seq<Node>, s: Scan)
    requires AllObjects(a) && AllObjects(b) && AllObjects(a + b)
    ensures TreeScan(h, a + b, s) == TreeScan(h, b, TreeScan(h, a, s))
    decreases |a|
  {
    if a == [] {
      assert a + b == b;
    } else {
      assert a[0] in a && (a + b)[1..] == a[1..] + b;
      TreeScanConcat(h, a[1..], b, TreeStep(h, s, a[0]));
    }
  }

  lemma {:induction false} ScansObject(h: Handlers, n: Node, rest: seq<Token>, faulty: bool, s: Scan)
    requires IsObject(n) && !h.fails(ObjectOf(n))
    ensures ScanFrom(h, Tokens(n) + rest, faulty, s) == ScanFrom(h, rest, faulty, TreeStep(h, s, n))
  {
    ElementStream(n, rest);
    SkipIsExact(n.children, n.name, rest);
    ObjectIsExact(NewObject(ClassOf(n.attrs)), n.children, n.name, rest, faulty);
  }

  lemma {:induction false} ScansNode(h: Handlers, n: Node, rest: seq<Token>, faulty: bool, s: Scan)
    requires NoneFail(h, OutermostIn(n))
    ensures AllObjects(OutermostIn(n))
    ensures ScanFrom(h, Tokens(n) + rest, faulty, s) == ScanFrom(h, rest, faulty, TreeScan(h, OutermostIn(n), s))
    decreases n, 0
  {
    if IsObject(n) {
      assert n in OutermostIn(n);
      ScansObject(h, n, rest, faulty, s);
      assert [n][1..] == [];
    } else if n.Elem? {
      OutermostAreObjects(n.children);
      ElementStream(n, rest);
      ScansForest(h, n.children, [End(n.name)] + rest, faulty, s);
      EndStream(n.name, rest);
    } else {
      LeafStream(n, rest);
    }
  }

  lemma {:induction false} ScansForest(h: Handlers, ns: seq<Node>, rest: seq<Token>, faulty: bool, s: Scan)
    requires NoneFail(h, Outermost(ns))
    ensures AllObjects(Outermost(ns))
    ensures ScanFrom(h, TokensAll(ns) + rest, faulty, s) == ScanFrom(h, rest, faulty, TreeScan(h, Outermost(ns), s))
    decreases ns, 0
  {
    OutermostAreObjects(ns);
    if ns == [] {
      EmptyStream(rest);
    } else {
      ForestStream(ns, rest);
      var here, there := OutermostIn(ns[0]), Outermost(ns[1..]);
      OutermostAreObjects(ns[1..]);
      ScansNode(h, ns[0], TokensAll(ns[1..]) + rest, faulty, s);
      ScansForest(h, ns[1..], rest, faulty, TreeScan(h, here, s));
      TreeScanConcat(h, here, there, s);
    }
  }

  /** What one object hands to its handler. */
  function Delivery(h: Handlers, n: Node): seq<Object>
    requires n.Elem?
  {
    if Wanted(h, ClassOf(n.attrs)) then [ObjectOf(n)] else []
  }

  function DeliveredOf(h: Handlers, objs: seq<Node>): seq<Object>
    requires AllObjects(objs)
  {
    if objs == [] then [] else assert objs[0] in objs; Delivery(h, objs[0]) + DeliveredOf(h, objs[1..])
  }

  lemma TreeStepCounts(h: Handlers, s: Scan, n: Node)
    requires IsObject(n) && !h.fails(ObjectOf(n))
    ensures var r := TreeStep(h, s, n);
            r.total == s.total + 1 && r.truncated == s.truncated && r.delivered == s.delivered + Delivery(h, n)
  {
  }

  lemma {:induction false} TreeScanCounts(h: Handlers, objs: seq<Node>, s: Scan)
    requires AllObjects(objs) && NoneFail(h, objs)
    ensures var r := TreeScan(h, objs, s);
      && r.total == s.total + |objs|
      && r.truncated == s.truncated
      && r.delivered == s.delivered + DeliveredOf(h, objs)
    decreases |objs|
  {
    if objs == [] {
      assert s.delivered + [] == s.delivered;
    } else {
      var n, rest := objs[0], objs[1..];
      assert n in objs;
      TreeStepCounts(h, s, n);
      TreeScanCounts(h, rest, TreeStep(h, s, n));
      assert (s.delivered + Delivery(h, n)) + DeliveredOf(h, rest)
          == s.delivered + (Delivery(h, n) + DeliveredOf(h, rest));
    }
  }

  /** A complete export: the total is the number of outermost object elements, and each wanted one
      is delivered once, in document order, as the object its own tree describes. */
  lemma {:induction false} ExportIsItsTree(h: Handlers, rootName: string, attrs: seq<Attr>, ns: seq<Node>)
    requires EqualFold(rootName, ROOT) && NoneFail(h, Outermost(ns))
    ensures AllObjects(Outermost(ns))
    ensures var outcome := ScanExport(h, Tokens(Elem(rootName, attrs, ns)), false);
      && outcome.Scanned?
      && outcome.scan.total == |Outermost(ns)|
      && outcome.scan.delivered == DeliveredOf(h, Outermost(ns))
      && !outcome.scan.truncated
  {
    var tokens := Tokens(Elem(rootName, attrs, ns));
    ElementStream(Elem(rootName, attrs, ns), []);
    assert tokens + [] == tokens && [End(rootName)] + [] == [End(rootName)];
    ScansForest(h, ns, [End(rootName)], false, EMPTY);
    var s := TreeScan(h, Outermost(ns), EMPTY);
    assert [End(rootName)][1..] == [];
    assert ScanFrom(h, [End(rootName)], false, s) == ScanFrom(h, [], false, s) == s;
    TreeScanCounts(h, Outermost(ns), EMPTY);
    assert [] + DeliveredOf(h, Outermost(ns)) == DeliveredOf(h, Outermost(ns));
  }

  // ----- Any stream -----------------------------------------------------------------------------

  /** The named counts add up to the total, and no object is delivered that was not counted. */
  ghost predicate Accounted(s: Scan) {
    Sum(s.objects) == s.total && |s.delivered| <= s.total && Bounded(CAP, s.objects)
  }

  lemma CountKeepsAccount(s: Scan, cls: string)
    requires Accounted(s)
    ensures Accounted(CountObject(s, cls)) && |s.delivered| < CountObject(s, cls).total
  {
    var es := [One(cls)];
    assert es[..0] == [] && AddAll(CAP, s.objects, []) == s.objects;
    assert AddAll(CAP, s.objects, es) == Add(CAP, s.objects, One(cls));
    TotalsStayExact(CAP, s.objects, es);
    SizeStaysBounded(CAP, s.objects, es);
  }

  lemma ConsumeKeepsAccount(h: Handlers, rest: seq<Token>, faulty: bool, s: Scan, attrs: seq<Attr>)
    requires Accounted(s)
    ensures var p := ConsumeObject(h, rest, faulty, s, attrs); Accounted(p.value) && (!p.ok ==> p.value.truncated)
  {
    CountKeepsAccount(s, ClassOf(attrs));
  }

  /** On any stream at all; and a stream that breaks is always reported truncated. */
  lemma {:induction false} AnyStreamIsAccounted(h: Handlers, rest: seq<Token>, faulty: bool, s: Scan)
    requires Accounted(s)
    ensures Accounted(ScanFrom(h, rest, faulty, s))
    ensures faulty ==> ScanFrom(h, rest, faulty, s).truncated
    decreases |rest|
  {
    if rest == [] {
    } else if !OpensObject(rest[0]) {
      AnyStreamIsAccounted(h, rest[1..], faulty, s);
    } else {
      ConsumeKeepsAccount(h, rest[1..], faulty, s, rest[0].attrs);
      ConsumeObjectShrinks(h, rest[1..], faulty, s, rest[0].attrs);
      var p := ConsumeObject(h, rest[1..], faulty, s, rest[0].attrs);
      if p.ok { AnyStreamIsAccounted(h, p.rest, faulty, p.value); }
    }
  }

  // ----- Exports that break off -------------------------------------------------------------------

  // What a reader finished before the break it reads the same way from the whole stream.

  lemma Uncons(p: seq<Token>, q: seq<Token>)
    requires p != []
    ensures (p + q)[0] == p[0] && (p + q)[1..] == p[1..] + q
  {
  }

  lemma {:induction false} TextExtends(p: seq<Token>, q: seq<Token>, faulty: bool, depth: nat, text: string)
    requires ElementTextFrom(p, true, depth, text).ok
    ensures var r := ElementTextFrom(p, true, depth, text);
            ElementTextFrom(p + q, faulty, depth, text) == r.(rest := r.rest + q)
    decreases |p|
  {
    Uncons(p, q);
    match p[0]
    case Chars(more) => TextExtends(p[1..], q, faulty, depth, text + more);
    case Start(_, _) => TextExtends(p[1..], q, faulty, depth + 1, text);
    case End(_) => if depth > 0 { TextExtends(p[1..], q, faulty, depth - 1, text); }
    case Other => TextExtends(p[1..], q, faulty, depth, text);
  }

  lemma TextIfCalledExtends(p: seq<Token>, q: seq<Token>, faulty: bool, name: string, wanted: string)
    requires TextIfCalled(p, true, name, wanted).ok
    ensures var r := TextIfCalled(p, true, name, wanted);
            TextIfCalled(p + q, faulty, name, wanted) == r.(rest := r.rest + q)
  {
    if EqualFold(name, wanted) { TextExtends(p, q, faulty, 0, ""); } else { SkipExtends(p, q, 0); }
  }

  lemma {:induction false} PropertyExtends(p: seq<Token>, q: seq<Token>, faulty: bool, v: Property)
    requires PropertyFrom(p, true, v).ok
    ensures var r := PropertyFrom(p, true, v); PropertyFrom(p + q, faulty, v) == r.(rest := r.rest + q)
    decreases |p|
  {
    Uncons(p, q);
    match p[0]
    case Chars(more) => PropertyExtends(p[1..], q, faulty, v.(text := v.text + more));
    case Start(name, _) =>
      TextIfCalledShrinks(p[1..], true, name, "id");
      TextIfCalledExtends(p[1..], q, faulty, name, "id");
      var id := TextIfCalled(p[1..], true, name, "id");
      PropertyExtends(id.rest, q, faulty, if id.value != "" then v.(refID := id.value) else v);
    case End(_) =>
    case Other => PropertyExtends(p[1..], q, faulty, v);
  }

  lemma {:induction false} ElementIDExtends(p: seq<Token>, q: seq<Token>, faulty: bool, id: string)
    requires ElementIDFrom(p, true, id).ok
    ensures var r := ElementIDFrom(p, true, id); ElementIDFrom(p + q, faulty, id) == r.(rest := r.rest + q)
    decreases |p|
  {
    Uncons(p, q);
    match p[0]
    case Start(name, _) =>
      TextIfCalledShrinks(p[1..], true, name, "id");
      TextIfCalledExtends(p[1..], q, faulty, name, "id");
      var text := TextIfCalled(p[1..], true, name, "id");
      ElementIDExtends(text.rest, q, faulty, if id == "" then text.value else id);
    case End(_) =>
    case _ => ElementIDExtends(p[1..], q, faulty, id);
  }

  lemma {:induction false} CollectionExtends(p: seq<Token>, q: seq<Token>, faulty: bool, ids: seq<string>)
    requires CollectionFrom(p, true, ids).ok
    ensures var r := CollectionFrom(p, true, ids); CollectionFrom(p + q, faulty, ids) == r.(rest := r.rest + q)
    decreases |p|
  {
    Uncons(p, q);
    match p[0]
    case Start(name, _) =>
      CollectionMemberShrinks(p[1..], true, name);
      if EqualFold(name, "element") { ElementIDExtends(p[1..], q, faulty, ""); } else { SkipExtends(p[1..], q, 0); }
      var id := CollectionMember(p[1..], true, name);
      CollectionExtends(id.rest, q, faulty, if id.value != "" then ids + [id.value] else ids);
    case End(_) =>
    case _ => CollectionExtends(p[1..], q, faulty, ids);
  }

  lemma MemberExtends(o: Object, p: seq<Token>, q: seq<Token>, faulty: bool, name: string, attrs: seq<Attr>)
    requires ReadMember(o, p, true, name, attrs).ok
    ensures var r := ReadMember(o, p, true, name, attrs);
            ReadMember(o, p + q, faulty, name, attrs) == r.(rest := r.rest + q)
  {
    var lower := ToLower(name);
    if lower == "id" {
      TextExtends(p, q, faulty, 0, "");
    } else if lower == "property" {
      PropertyExtends(p, q, faulty, Property("", ""));
    } else if lower == "collection" {
      CollectionExtends(p, q, faulty, []);
    } else {
      SkipExtends(p, q, 0);
    }
  }

  lemma {:induction false} ObjectExtends(p: seq<Token>, q: seq<Token>, faulty: bool, o: Object)
    requires ObjectFrom(p, true, o).ok
    ensures var r := ObjectFrom(p, true, o); ObjectFrom(p + q, faulty, o) == r.(rest := r.rest + q)
    decreases |p|
  {
    Uncons(p, q);
    match p[0]
    case Start(name, attrs) =>
      ReadMemberShrinks(o, p[1..], true, name, attrs);
      MemberExtends(o, p[1..], q, faulty, name, attrs);
      var m := ReadMember(o, p[1..], true, name, attrs);
      ObjectExtends(m.rest, q, faulty, m.value);
    case End(name) => if !EqualFold(name, "object") { ObjectExtends(p[1..], q, faulty, o); }
    case _ => ObjectExtends(p[1..], q, faulty, o);
  }

  lemma ConsumeOnlyAdds(h: Handlers, rest: seq<Token>, faulty: bool, s: Scan, attrs: seq<Attr>)
    ensures var p := ConsumeObject(h, rest, faulty, s, attrs);
            s.delivered <= p.value.delivered && s.total <= p.value.total && |p.rest| <= |rest|
  {
    ConsumeObjectShrinks(h, rest, faulty, s, attrs);
  }

  lemma PrefixChain(a: seq<Object>, b: seq<Object>, c: seq<Object>)
    requires a <= b && b <= c
    ensures a <= c
  {
    assert a == b[..|a|] == c[..|b|][..|a|] == c[..|a|];
  }

  /** A scan only ever adds to what it has. */
  lemma {:induction false} ScanOnlyAdds(h: Handlers, rest: seq<Token>, faulty: bool, s: Scan)
    ensures var r := ScanFrom(h, rest, faulty, s); s.delivered <= r.delivered && s.total <= r.total
    decreases |rest|
  {
    if rest == [] {
    } else if !OpensObject(rest[0]) {
      ScanOnlyAdds(h, rest[1..], faulty, s);
    } else {
      ConsumeOnlyAdds(h, rest[1..], faulty, s, rest[0].attrs);
      var p := ConsumeObject(h, rest[1..], faulty, s, rest[0].attrs);
      if p.ok {
        ScanOnlyAdds(h, p.rest, faulty, p.value);
        PrefixChain(s.delivered, p.value.delivered, ScanFrom(h, p.rest, faulty, p.value).delivered);
      }
    }
  }

  /** One object: either both streams read it alike, or the break fell inside it and it was only counted. */
  lemma ConsumeExtends(h: Handlers, p: seq<Token>, q: seq<Token>, faulty: bool, s: Scan, attrs: seq<Attr>)
    ensures var part, whole := ConsumeObject(h, p, true, s, attrs), ConsumeObject(h, p + q, faulty, s, attrs);
            || (whole.value == part.value && whole.ok == part.ok && whole.rest == part.rest + q)
            || (!part.ok && part.value == CountObject(s, ClassOf(attrs)).(truncated := true)
                && part.value.delivered <= whole.value.delivered && part.value.total == whole.value.total)
  {
    var cls := ClassOf(attrs);
    if !Wanted(h, cls) {
      if SkipFrom(p, 0).Past? { SkipExtends(p, q, 0); }
    } else if ObjectFrom(p, true, NewObject(cls)).ok {
      ObjectExtends(p, q, faulty, NewObject(cls));
    }
  }

  /** Wherever a stream breaks, what was delivered is an initial part of what the whole would have
      delivered, object by object the same, and no object is counted that the whole would not count. */
  lemma {:induction false} BrokenIsPrefix(h: Handlers, p: seq<Token>, q: seq<Token>, faulty: bool, s: Scan)
    ensures var part, whole := ScanFrom(h, p, true, s), ScanFrom(h, p + q, faulty, s);
            part.delivered <= whole.delivered && part.total <= whole.total
    decreases |p|
  {
    if p == [] {
      assert p + q == q;
      ScanOnlyAdds(h, q, faulty, s);
    } else {
      Uncons(p, q);
      if !OpensObject(p[0]) {
        BrokenIsPrefix(h, p[1..], q, faulty, s);
      } else {
        var attrs := p[0].attrs;
        ConsumeObjectShrinks(h, p[1..], true, s, attrs);
        ConsumeObjectShrinks(h, p[1..] + q, faulty, s, attrs);
        ConsumeExtends(h, p[1..], q, faulty, s, attrs);
        var part, whole := ConsumeObject(h, p[1..], true, s, attrs), ConsumeObject(h, p[1..] + q, faulty, s, attrs);
        if part.ok {
          BrokenIsPrefix(h, part.rest, q, faulty, part.value);
        } else if whole.ok {
          ScanOnlyAdds(h, whole.rest, faulty, whole.value);
        }
      }
    }
  }
}
