/**
  The streaming reader of a Jira entities.xml, internal/assess/jira/entities.go.

  The reader never builds a tree.  `ScanFrom` is its meaning on raw token streams,
  broken ones included; the lemmas relate it to the element tree a well-formed
  export stands for.
 */
module JiraEntities {
  import opened Text
  import opened Xml
  import opened Census

  const ROOT := "entity-engine-xml"
  const CAP := Cap(2048, "(other — distinct-entity cap reached)")

  type Fields = map<string, string>

  datatype Row = Row(entity: string, fields: Fields)

  /** Row.Get: trimmed, "" when missing. */
  function Get(r: Row, name: string): string { if name in r.fields then TrimSpace(r.fields[name]) else "" }

  // ----- One row --------------------------------------------------------------------

  /** The field being read out of a row's children, and what was read so far. */
  datatype FieldReader = FieldReader(fields: Fields, depth: nat, current: string, text: string)

  /** A later attribute of the same name overwrites an earlier one. */
  function AttrFields(attrs: seq<Attr>): Fields {
    if attrs == [] then map[] else AttrFields(attrs[..|attrs| - 1])[attrs[|attrs| - 1].name := attrs[|attrs| - 1].value]
  }

  function CloseField(r: FieldReader): FieldReader {
    if r.depth != 1 || r.current == "" then r
    else r.(fields := if r.current in r.fields then r.fields else r.fields[r.current := r.text], current := "")
  }

  /** Folds one token in; true when it was the row's own end tag. */
  function Consume(r: FieldReader, t: Token): (FieldReader, bool) {
    match t
    case Start(name, _) =>
      (if r.depth == 0 then r.(depth := 1, current := name, text := "") else r.(depth := r.depth + 1), false)
    case Chars(text) => (if r.depth >= 1 then r.(text := r.text + text) else r, false)
    case End(_) =>
      if r.depth == 0 then (r, true)
      else var closed := CloseField(r); (closed.(depth := closed.depth - 1), false)
    case Other => (r, false)
  }

  function ChildFieldsFrom(rest: seq<Token>, faulty: bool, r: FieldReader): Parsed<Fields> {
    if rest == [] then Parsed(r.fields, [], !faulty)
    else
      var (r', done) := Consume(r, rest[0]);
      if done then Parsed(r'.fields, rest[1..], true) else ChildFieldsFrom(rest[1..], faulty, r')
  }

  function DecodeRow(rest: seq<Token>, faulty: bool, name: string, attrs: seq<Attr>): Parsed<Row> {
    var p := ChildFieldsFrom(rest, faulty, FieldReader(AttrFields(attrs), 0, "", ""));
    Parsed(Row(name, p.value), p.rest, p.ok)
  }

  lemma {:induction false} ChildFieldsShrink(rest: seq<Token>, faulty: bool, r: FieldReader)
    ensures |ChildFieldsFrom(rest, faulty, r).rest| <= |rest|
    decreases |rest|
  {
    if rest != [] { ChildFieldsShrink(rest[1..], faulty, Consume(r, rest[0]).0); }
  }

  class ChildFieldReader {
    var fields: Fields
    var depth: nat
    var current: string
    var text: string

    ghost function Contents(): FieldReader
      reads this
    {
      FieldReader(fields, depth, current, text)
    }

    constructor (fields: Fields)
      ensures Contents() == FieldReader(fields, 0, "", "")
    {
      this.fields, depth, current, text := fields, 0, "", "";
    }

    method ConsumeToken(t: Token) returns (done: bool)
      modifies this
      ensures (Contents(), done) == Consume(old(Contents()), t)
    {
      match t {
        case Start(name, _) =>
          depth := depth + 1;
          if depth == 1 {
            current := name;
            text := "";
          }
        case Chars(chars) =>
          if depth >= 1 {
            text := text + chars;
          }
        case End(_) =>
          if depth == 0 {
            return true;
          }
          Close();
          depth := depth - 1;
        case Other =>
      }
      return false;
    }

    method Close()
      modifies this
      ensures Contents() == CloseField(old(Contents()))
    {
      if depth != 1 || current == "" {
        return;
      }
      if current !in fields {
        fields := fields[current := text];
      }
      current := "";
    }
  }

  method ReadRow(dec: Decoder, name: string, attrs: seq<Attr>) returns (row: Row, ok: bool)
    modifies dec
    ensures Parsed(row, dec.rest, ok) == DecodeRow(old(dec.rest), dec.faulty, name, attrs)
  {
    var fields: Fields := map[];
    for i := 0 to |attrs|
      invariant fields == AttrFields(attrs[..i])
    {
      assert attrs[..i + 1][..i] == attrs[..i];
      fields := fields[attrs[i].name := attrs[i].value];
    }
    assert attrs[..|attrs|] == attrs;
    var r := new ChildFieldReader(fields);
    while true
      invariant ChildFieldsFrom(dec.rest, dec.faulty, r.Contents())
                == ChildFieldsFrom(old(dec.rest), dec.faulty, FieldReader(AttrFields(attrs), 0, "", ""))
      invariant fresh(r)
      decreases |dec.rest|
    {
      var read := dec.Next();
      if !read.Got? {
        return Row(name, r.fields), read.Eof?;
      }
      var done := r.ConsumeToken(read.token);
      if done {
        return Row(name, r.fields), true;
      }
    }
  }

  // ----- The scan ---------------------------------------------------------------------

  /** What has been counted, what was handed to handlers, and whether a handler refused. */
  datatype Scan = Scan(
    entities: Counts, rows: nat, truncated: bool, capReached: bool, delivered: seq<Row>, stopped: bool)

  const EMPTY := Scan(map[], 0, false, false, [], false)

  /** Which entity types have a handler (lower case), and which rows their handlers fail on. */
  datatype Handlers = Handlers(wanted: set<string>, fails: Row -> bool)

  function CountRow(s: Scan, name: string): Scan {
    s.(rows := s.rows + 1,
       capReached := s.capReached || Overflows(CAP, s.entities, name),
       entities := Add(CAP, s.entities, One(name)))
  }

  function Deliver(h: Handlers, s: Scan, row: Row): Scan {
    s.(delivered := s.delivered + [row], stopped := h.fails(row))
  }

  function ConsumeRow(h: Handlers, rest: seq<Token>, faulty: bool, s: Scan, name: string, attrs: seq<Attr>)
    : Parsed<Scan>
  {
    var counted := CountRow(s, name);
    if ToLower(name) !in h.wanted then
      match SkipFrom(rest, 0)
      case Broken => Parsed(counted.(truncated := true), [], true)
      case Past(after) => Parsed(counted, after, true)
    else
      var p := DecodeRow(rest, faulty, name, attrs);
      if !p.ok then Parsed(counted.(truncated := true), p.rest, true)
      else Parsed(Deliver(h, counted, p.value), p.rest, !h.fails(p.value))
  }

  lemma ConsumeRowShrinks(h: Handlers, rest: seq<Token>, faulty: bool, s: Scan, name: string, attrs: seq<Attr>)
    ensures |ConsumeRow(h, rest, faulty, s, name, attrs).rest| <= |rest|
  {
    SkipShrinks(rest, 0);
    ChildFieldsShrink(rest, faulty, FieldReader(AttrFields(attrs), 0, "", ""));
  }

  function ScanFrom(h: Handlers, rest: seq<Token>, faulty: bool, s: Scan): Scan
    decreases |rest|
  {
    if rest == [] then (if faulty then s.(truncated := true) else s)
    else if !rest[0].Start? then ScanFrom(h, rest[1..], faulty, s)
    else
      ConsumeRowShrinks(h, rest[1..], faulty, s, rest[0].name, rest[0].attrs);
      var p := ConsumeRow(h, rest[1..], faulty, s, rest[0].name, rest[0].attrs);
      if p.ok then ScanFrom(h, p.rest, faulty, p.value) else p.value
  }

  datatype Outcome = NotAnExport(truncated: bool) | Scanned(scan: Scan)

  /** The first element decides whether this is an export at all. */
  function ScanExport(h: Handlers, tokens: seq<Token>, faulty: bool): Outcome {
    if tokens == [] then NotAnExport(faulty)
    else if !tokens[0].Start? then ScanExport(h, tokens[1..], faulty)
    else if !EqualFold(tokens[0].name, ROOT) then NotAnExport(false)
    else Scanned(ScanFrom(h, tokens[1..], faulty, EMPTY))
  }

  class Scanner {
    const handlers: Handlers
    var entities: Counts
    var rows: nat
    var truncated: bool
    var capReached: bool
    var delivered: seq<Row>
    var stopped: bool

    ghost function Contents(): Scan
      reads this
    {
      Scan(entities, rows, truncated, capReached, delivered, stopped)
    }

    constructor (handlers: Handlers)
      ensures this.handlers == handlers && Contents() == EMPTY
    {
      this.handlers := handlers;
      entities, rows, truncated, capReached, delivered, stopped := map[], 0, false, false, [], false;
    }

    method Count(name: string)
      modifies this
      ensures Contents() == CountRow(old(Contents()), name)
    {
      rows := rows + 1;
      if name !in entities && |entities| >= CAP.names {
        capReached := true;
        entities := entities[CAP.overflow := Census.Get(entities, CAP.overflow) + 1];
        return;
      }
      entities := entities[name := Census.Get(entities, name) + 1];
    }

    method Consume(dec: Decoder, name: string, attrs: seq<Attr>) returns (ok: bool)
      modifies this, dec
      ensures Parsed(Contents(), dec.rest, ok)
              == ConsumeRow(handlers, old(dec.rest), dec.faulty, old(Contents()), name, attrs)
    {
      Count(name);
      if ToLower(name) !in handlers.wanted {
        var skipped := dec.Skip();
        if !skipped {
          truncated := true;
        }
        return true;
      }
      var row, read := ReadRow(dec, name, attrs);
      if !read {
        truncated := true;
        return true;
      }
      delivered := delivered + [row];
      stopped := handlers.fails(row);
      return !stopped;
    }

    method ScanRows(dec: Decoder)
      modifies this, dec
      ensures Contents() == ScanFrom(handlers, old(dec.rest), dec.faulty, old(Contents()))
    {
      while true
        invariant ScanFrom(handlers, dec.rest, dec.faulty, Contents())
                  == ScanFrom(handlers, old(dec.rest), dec.faulty, old(Contents()))
        decreases |dec.rest|
      {
        ghost var before := dec.rest;
        var read := dec.Next();
        if read.Eof? {
          return;
        }
        if read.Fault? {
          truncated := true;
          return;
        }
        if !read.token.Start? {
          continue;
        }
        ConsumeRowShrinks(handlers, dec.rest, dec.faulty, Contents(), read.token.name, read.token.attrs);
        var ok := Consume(dec, read.token.name, read.token.attrs);
        if !ok {
          return;
        }
      }
    }

    /** Returns whether the stream is an export; what was read is in the scanner. */
    method ScanStream(dec: Decoder) returns (isExport: bool)
      requires Contents() == EMPTY
      modifies this, dec
      ensures var outcome := ScanExport(handlers, old(dec.rest), dec.faulty);
              if isExport then outcome == Scanned(Contents())
              else outcome == NotAnExport(truncated) && Contents() == EMPTY.(truncated := truncated)
    {
      while true
        invariant Contents() == EMPTY
        invariant ScanExport(handlers, dec.rest, dec.faulty) == ScanExport(handlers, old(dec.rest), dec.faulty)
        decreases |dec.rest|
      {
        var read := dec.Next();
        if !read.Got? {
          truncated := read.Fault?;
          return false;
        }
        if !read.token.Start? {
          continue;
        }
        if !EqualFold(read.token.name, ROOT) {
          return false;
        }
        ScanRows(dec);
        return true;
      }
    }
  }

  // ----- The tree an export stands for ---------------------------------------------------

  /** Children in order: the first of a name fills that field, unless an attribute has it already. */
  function TreeFields(attrs: seq<Attr>, children: seq<Node>): Fields {
    if children == [] then AttrFields(attrs)
    else WithChild(TreeFields(attrs, children[..|children| - 1]), children[|children| - 1])
  }

  /** The first child of a name settles that field, unless an attribute already has. */
  function WithChild(f: Fields, n: Node): Fields {
    if n.Elem? && n.name != "" && n.name !in f then f[n.name := TextOfAll(n.children)] else f
  }

  function TreeRow(n: Node): Row
    requires n.Elem?
  {
    Row(n.name, TreeFields(n.attrs, n.children))
  }

  lemma {:induction false} AppendsAll(r: FieldReader, ns: seq<Node>)
    requires ns != []
    ensures var r' := r.(text := r.text + TextOf(ns[0]));
            r'.(text := r'.text + TextOfAll(ns[1..])) == r.(text := r.text + TextOfAll(ns))
  {
    assert (r.text + TextOf(ns[0])) + TextOfAll(ns[1..]) == r.text + (TextOf(ns[0]) + TextOfAll(ns[1..]));
  }

  /** Text anywhere inside an open field is appended, whatever elements it is nested in. */
  lemma {:induction false} ReadsInside(n: Node, rest: seq<Token>, faulty: bool, r: FieldReader)
    requires r.depth >= 1
    ensures ChildFieldsFrom(Tokens(n) + rest, faulty, r)
            == ChildFieldsFrom(rest, faulty, r.(text := r.text + TextOf(n)))
    decreases n, 0
  {
    match n
    case Elem(name, attrs, children) =>
      ElementStream(n, rest);
      ReadsInsideAll(children, [End(name)] + rest, faulty, r.(depth := r.depth + 1));
      EndStream(name, rest);
    case _ =>
      LeafStream(n, rest);
      assert r.text + "" == r.text;
  }

  lemma {:induction false} ReadsInsideAll(ns: seq<Node>, rest: seq<Token>, faulty: bool, r: FieldReader)
    requires r.depth >= 1
    ensures ChildFieldsFrom(TokensAll(ns) + rest, faulty, r)
            == ChildFieldsFrom(rest, faulty, r.(text := r.text + TextOfAll(ns)))
    decreases ns, 0
  {
    if ns == [] {
      EmptyStream(rest);
      assert r.text + "" == r.text;
    } else {
      var after := TokensAll(ns[1..]) + rest;
      ForestStream(ns, rest);
      ReadsInside(ns[0], after, faulty, r);
      var r' := r.(text := r.text + TextOf(ns[0]));
      ReadsInsideAll(ns[1..], rest, faulty, r');
      AppendsAll(r, ns);
    }
  }

  /** Between two children of a row only the fields matter. */
  ghost predicate AtRowLevel(r: FieldReader) { r.depth == 0 && r.current == "" }

  /** Reading one child leaves the reader at row level with that child's field settled. */
  lemma ReadsChild(n: Node, rest: seq<Token>, faulty: bool, r: FieldReader) returns (r': FieldReader)
    requires AtRowLevel(r)
    ensures AtRowLevel(r')
    ensures r'.fields == WithChild(r.fields, n)
    ensures ChildFieldsFrom(Tokens(n) + rest, faulty, r) == ChildFieldsFrom(rest, faulty, r')
  {
    match n
    case Elem(name, attrs, children) =>
      ElementStream(n, rest);
      var inField := FieldReader(r.fields, 1, name, "");
      ReadsInsideAll(children, [End(name)] + rest, faulty, inField);
      EndStream(name, rest);
      assert "" + TextOfAll(children) == TextOfAll(children);
      r' := Consume(inField.(text := TextOfAll(children)), End(name)).0;
    case _ =>
      LeafStream(n, rest);
      r' := r;
  }

  lemma {:induction false} RowEnds(name: string, tail: seq<Token>, faulty: bool, r: FieldReader)
    requires AtRowLevel(r)
    ensures ChildFieldsFrom(TokensAll([]) + ([End(name)] + tail), faulty, r) == Parsed(r.fields, tail, true)
  {
    EmptyStream([End(name)] + tail);
    EndStream(name, tail);
  }

  function WithChildren(f: Fields, ns: seq<Node>): Fields
    decreases |ns|
  {
    if ns == [] then f else WithChildren(WithChild(f, ns[0]), ns[1..])
  }

  lemma {:induction false} InReadingOrder(attrs: seq<Attr>, done: seq<Node>, ns: seq<Node>)
    ensures WithChildren(TreeFields(attrs, done), ns) == TreeFields(attrs, done + ns)
    decreases |ns|
  {
    if ns == [] {
      assert done + ns == done;
    } else {
      assert (done + [ns[0]])[..|done|] == done;
      InReadingOrder(attrs, done + [ns[0]], ns[1..]);
      assert done + [ns[0]] + ns[1..] == done + ns;
    }
  }

  lemma {:induction false} ReadsChildren(ns: seq<Node>, name: string, tail: seq<Token>, faulty: bool, r: FieldReader)
    requires AtRowLevel(r)
    ensures ChildFieldsFrom(TokensAll(ns) + ([End(name)] + tail), faulty, r)
            == Parsed(WithChildren(r.fields, ns), tail, true)
    decreases |ns|
  {
    if ns == [] {
      RowEnds(name, tail, faulty, r);
    } else {
      ForestStream(ns, [End(name)] + tail);
      var r' := ReadsChild(ns[0], TokensAll(ns[1..]) + ([End(name)] + tail), faulty, r);
      ReadsChildren(ns[1..], name, tail, faulty, r');
    }
  }

  /** A row is consumed exactly, and its fields are those of its tree. */
  lemma RowIsExact(n: Node, tail: seq<Token>, faulty: bool)
    requires n.Elem?
    ensures DecodeRow(TokensAll(n.children) + ([End(n.name)] + tail), faulty, n.name, n.attrs)
            == Parsed(TreeRow(n), tail, true)
  {
    ReadsChildren(n.children, n.name, tail, faulty, FieldReader(AttrFields(n.attrs), 0, "", ""));
    InReadingOrder(n.attrs, [], n.children);
    assert [] + n.children == n.children;
  }

  ghost predicate IsFirstNamed(children: seq<Node>, i: nat, name: string) {
    && i < |children| && children[i].Elem? && children[i].name == name
    && forall j :: 0 <= j < i ==> !(children[j].Elem? && children[j].name == name)
  }

  lemma SameFirst(children: seq<Node>, i: nat, name: string)
    requires i + 1 < |children|
    ensures IsFirstNamed(children, i, name) <==> IsFirstNamed(children[..|children| - 1], i, name)
  {
    assert forall j :: 0 <= j <= i ==> children[..|children| - 1][j] == children[j];
  }

  lemma {:induction false} AttrFieldsMean(attrs: seq<Attr>, name: string)
    ensures name in AttrFields(attrs) <==> exists a :: a in attrs && a.name == name
  {
    if attrs != [] {
      var init, last := attrs[..|attrs| - 1], attrs[|attrs| - 1];
      assert attrs == init + [last];
      AttrFieldsMean(init, name);
    }
  }

  /** What a field is: the attribute if there is one, else all the text of the first child of
      that name, and absent if there is neither. */
  lemma {:induction false} FieldMeaning(attrs: seq<Attr>, children: seq<Node>, name: string)
    requires name != ""
    ensures var f := TreeFields(attrs, children);
            && (name in AttrFields(attrs) ==> name in f && f[name] == AttrFields(attrs)[name])
            && (name !in AttrFields(attrs) ==>
                 (name in f <==> exists i: nat :: IsFirstNamed(children, i, name)))
            && (name !in AttrFields(attrs) ==>
                 forall i: nat :: IsFirstNamed(children, i, name)
                                  ==> name in f && f[name] == TextOfAll(children[i].children))
    decreases |children|
  {
    if children != [] {
      var init, m := children[..|children| - 1], |children| - 1;
      FieldMeaning(attrs, init, name);
      forall i: nat | i < m ensures IsFirstNamed(children, i, name) <==> IsFirstNamed(init, i, name) {
        SameFirst(children, i, name);
      }
      var unset := name !in AttrFields(attrs) && name !in TreeFields(attrs, init);
      if unset && children[m].Elem? && children[m].name == name {
        FirstNamedExists(init, name);
        assert IsFirstNamed(children, m, name);
      }
    }
  }

  lemma {:induction false} FirstNamedExists(children: seq<Node>, name: string)
    ensures (exists i: nat :: IsFirstNamed(children, i, name)) <==>
              exists j :: 0 <= j < |children| && children[j].Elem? && children[j].name == name
    decreases |children|
  {
    if children != [] {
      var init, m := children[..|children| - 1], |children| - 1;
      FirstNamedExists(init, name);
      forall i: nat | i < m ensures IsFirstNamed(children, i, name) <==> IsFirstNamed(init, i, name) {
        SameFirst(children, i, name);
      }
      if j :| 0 <= j < |children| && children[j].Elem? && children[j].name == name {
        if exists i: nat :: IsFirstNamed(init, i, name) {
          var i: nat :| IsFirstNamed(init, i, name);
          assert IsFirstNamed(children, i, name);
        } else {
          assert forall k :: 0 <= k < m ==> init[k] == children[k];
          assert IsFirstNamed(children, m, name);
        }
      }
    }
  }

  // ----- Whole exports ----------------------------------------------------------------------

  function RowsOf(ns: seq<Node>): seq<Node> {
    if ns == [] then [] else (if ns[0].Elem? then [ns[0]] else []) + RowsOf(ns[1..])
  }

  function TreeStep(h: Handlers, s: Scan, n: Node): Scan {
    if !n.Elem? then s
    else
      var counted := CountRow(s, n.name);
      if ToLower(n.name) in h.wanted then Deliver(h, counted, TreeRow(n)) else counted
  }

  /** The tree meaning of a scan: every direct child element is a row, counted and, if wanted, delivered. */
  function TreeScan(h: Handlers, ns: seq<Node>, s: Scan): Scan {
    if ns == [] then s else TreeScan(h, ns[1..], TreeStep(h, s, ns[0]))
  }

  ghost predicate NoneFail(h: Handlers, ns: seq<Node>) { forall n :: n in ns && n.Elem? ==> !h.fails(TreeRow(n)) }

  lemma {:induction false} ScansForest(h: Handlers, ns: seq<Node>, rest: seq<Token>, faulty: bool, s: Scan)
    requires NoneFail(h, ns) && !s.stopped
    ensures ScanFrom(h, TokensAll(ns) + rest, faulty, s) == ScanFrom(h, rest, faulty, TreeScan(h, ns, s))
    decreases |ns|
  {
    if ns == [] {
      EmptyStream(rest);
    } else {
      var n, after := ns[0], TokensAll(ns[1..]) + rest;
      assert n in ns;
      ForestStream(ns, rest);
      var s' := TreeStep(h, s, n);
      if n.Elem? {
        ElementStream(n, after);
        SkipIsExact(n.children, n.name, after);
        RowIsExact(n, after, faulty);
      } else {
        LeafStream(n, after);
      }
      ScansForest(h, ns[1..], rest, faulty, s');
    }
  }

  /** What one row hands to its handler. */
  function Delivery(h: Handlers, n: Node): seq<Row> {
    if n.Elem? && ToLower(n.name) in h.wanted then [TreeRow(n)] else []
  }

  function DeliveredOf(h: Handlers, ns: seq<Node>): seq<Row> {
    if ns == [] then [] else Delivery(h, ns[0]) + DeliveredOf(h, ns[1..])
  }

  lemma TreeStepCounts(h: Handlers, s: Scan, n: Node)
    ensures var r := TreeStep(h, s, n);
      && r.rows == s.rows + (if n.Elem? then 1 else 0)
      && r.truncated == s.truncated
      && r.delivered == s.delivered + Delivery(h, n)
  {
  }

  lemma {:induction false} TreeScanCounts(h: Handlers, ns: seq<Node>, s: Scan)
    ensures var r := TreeScan(h, ns, s);
      && r.rows == s.rows + |RowsOf(ns)|
      && r.truncated == s.truncated
      && r.delivered == s.delivered + DeliveredOf(h, ns)
    decreases |ns|
  {
    if ns == [] {
      assert s.delivered + [] == s.delivered;
    } else {
      var n, rest := ns[0], ns[1..];
      TreeStepCounts(h, s, n);
      TreeScanCounts(h, rest, TreeStep(h, s, n));
      assert (s.delivered + Delivery(h, n)) + DeliveredOf(h, rest)
          == s.delivered + (Delivery(h, n) + DeliveredOf(h, rest));
    }
  }

  /** A complete export: its rows are exactly the direct children of the root, each one counted
      once, and each wanted one delivered once, in order, with the fields of its own tree. */
  lemma {:induction false} ExportIsItsTree(h: Handlers, rootName: string, attrs: seq<Attr>, ns: seq<Node>)
    requires EqualFold(rootName, ROOT) && NoneFail(h, ns)
    ensures var outcome := ScanExport(h, Tokens(Elem(rootName, attrs, ns)), false);
      && outcome.Scanned?
      && outcome.scan.rows == |RowsOf(ns)|
      && outcome.scan.delivered == DeliveredOf(h, ns)
      && !outcome.scan.truncated
  {
    var tokens := Tokens(Elem(rootName, attrs, ns));
    ElementStream(Elem(rootName, attrs, ns), []);
    assert tokens + [] == tokens && [End(rootName)] + [] == [End(rootName)];
    ScansForest(h, ns, [End(rootName)], false, EMPTY);
    var s := TreeScan(h, ns, EMPTY);
    assert [End(rootName)][1..] == [];
    assert ScanFrom(h, [End(rootName)], false, s) == ScanFrom(h, [], false, s) == s;
    TreeScanCounts(h, ns, EMPTY);
    assert [] + DeliveredOf(h, ns) == DeliveredOf(h, ns);
  }

  /** On any stream at all, broken ones included: every delivered row was counted, under its own
      type or the overflow name, and the named counts add up to the rows. */
  ghost predicate Accounted(s: Scan) {
    Sum(s.entities) == s.rows && |s.delivered| <= s.rows && Bounded(CAP, s.entities)
  }

  lemma CountKeepsAccount(s: Scan, name: string)
    requires Accounted(s)
    ensures Accounted(CountRow(s, name)) && |s.delivered| < CountRow(s, name).rows
  {
    var es := [One(name)];
    assert es[..0] == [] && AddAll(CAP, s.entities, []) == s.entities;
    assert AddAll(CAP, s.entities, es) == Add(CAP, s.entities, One(name));
    TotalsStayExact(CAP, s.entities, es);
    SizeStaysBounded(CAP, s.entities, es);
  }

  lemma ConsumeAddsOne(h: Handlers, rest: seq<Token>, faulty: bool, s: Scan, name: string, attrs: seq<Attr>)
    ensures var p, counted := ConsumeRow(h, rest, faulty, s, name, attrs), CountRow(s, name);
            && p.value.entities == counted.entities && p.value.rows == counted.rows
            && |p.value.delivered| <= |s.delivered| + 1 && (!p.ok ==> p.value.stopped)
  {
  }

  lemma ConsumeKeepsAccount(h: Handlers, rest: seq<Token>, faulty: bool, s: Scan, name: string, attrs: seq<Attr>)
    requires Accounted(s)
    ensures var p := ConsumeRow(h, rest, faulty, s, name, attrs); Accounted(p.value) && (!p.ok ==> p.value.stopped)
  {
    CountKeepsAccount(s, name);
    ConsumeAddsOne(h, rest, faulty, s, name, attrs);
  }

  lemma {:induction false} AnyStreamIsAccounted(h: Handlers, rest: seq<Token>, faulty: bool, s: Scan)
    requires Accounted(s)
    ensures Accounted(ScanFrom(h, rest, faulty, s))
    ensures faulty && !ScanFrom(h, rest, faulty, s).stopped ==> ScanFrom(h, rest, faulty, s).truncated
    decreases |rest|
  {
    if rest == [] {
    } else if !rest[0].Start? {
      AnyStreamIsAccounted(h, rest[1..], faulty, s);
    } else {
      ConsumeKeepsAccount(h, rest[1..], faulty, s, rest[0].name, rest[0].attrs);
      ConsumeRowShrinks(h, rest[1..], faulty, s, rest[0].name, rest[0].attrs);
      var p := ConsumeRow(h, rest[1..], faulty, s, rest[0].name, rest[0].attrs);
      if p.ok { AnyStreamIsAccounted(h, p.rest, faulty, p.value); }
    }
  }

  /** The handler of one of these rows fails. */
  ghost predicate AnyFails(h: Handlers, rows: seq<Row>) { exists row :: row in rows && h.fails(row) }

  lemma ConsumeStops(h: Handlers, rest: seq<Token>, faulty: bool, s: Scan, name: string, attrs: seq<Attr>)
    requires !s.stopped && !AnyFails(h, s.delivered)
    ensures var p := ConsumeRow(h, rest, faulty, s, name, attrs);
            p.ok == !p.value.stopped && (p.value.stopped <==> AnyFails(h, p.value.delivered))
  {
    var p := ConsumeRow(h, rest, faulty, s, name, attrs);
    if p.value.delivered != s.delivered {
      var row := p.value.delivered[|s.delivered|];
      assert p.value.delivered == s.delivered + [row];
      assert row in p.value.delivered;
    }
  }

  /** On any stream, the scan stops exactly when the handler of a delivered row fails. */
  lemma {:induction false} StopsAtAFailure(h: Handlers, rest: seq<Token>, faulty: bool, s: Scan)
    requires !s.stopped && !AnyFails(h, s.delivered)
    ensures var r := ScanFrom(h, rest, faulty, s); r.stopped <==> AnyFails(h, r.delivered)
    decreases |rest|
  {
    if rest == [] {
    } else if !rest[0].Start? {
      StopsAtAFailure(h, rest[1..], faulty, s);
    } else {
      ConsumeStops(h, rest[1..], faulty, s, rest[0].name, rest[0].attrs);
      ConsumeRowShrinks(h, rest[1..], faulty, s, rest[0].name, rest[0].attrs);
      var p := ConsumeRow(h, rest[1..], faulty, s, rest[0].name, rest[0].attrs);
      if p.ok { StopsAtAFailure(h, p.rest, faulty, p.value); }
    }
  }

  // ----- Exports that break off -------------------------------------------------------------

  lemma {:induction false} ChildFieldsExtend(p: seq<Token>, q: seq<Token>, faulty: bool, r: FieldReader)
    requires ChildFieldsFrom(p, true, r).ok
    ensures var whole, part := ChildFieldsFrom(p + q, faulty, r), ChildFieldsFrom(p, true, r);
            whole == Parsed(part.value, part.rest + q, true)
    decreases |p|
  {
    assert (p + q)[0] == p[0] && (p + q)[1..] == p[1..] + q;
    var (r', done) := Consume(r, p[0]);
    if !done { ChildFieldsExtend(p[1..], q, faulty, r'); }
  }

  lemma ConsumeOnlyAdds(h: Handlers, rest: seq<Token>, faulty: bool, s: Scan, name: string, attrs: seq<Attr>)
    ensures var p := ConsumeRow(h, rest, faulty, s, name, attrs);
            s.delivered <= p.value.delivered && s.rows <= p.value.rows && |p.rest| <= |rest|
  {
    ConsumeRowShrinks(h, rest, faulty, s, name, attrs);
  }

  lemma PrefixChain(a: seq<Row>, b: seq<Row>, c: seq<Row>)
    requires a <= b && b <= c
    ensures a <= c
  {
    assert a == b[..|a|] == c[..|b|][..|a|] == c[..|a|];
  }

  /** A scan only ever adds to what it has. */
  lemma {:induction false} ScanOnlyAdds(h: Handlers, rest: seq<Token>, faulty: bool, s: Scan)
    ensures var r := ScanFrom(h, rest, faulty, s); s.delivered <= r.delivered && s.rows <= r.rows
    decreases |rest|
  {
    if rest == [] {
    } else if !rest[0].Start? {
      ScanOnlyAdds(h, rest[1..], faulty, s);
    } else {
      ConsumeOnlyAdds(h, rest[1..], faulty, s, rest[0].name, rest[0].attrs);
      var p := ConsumeRow(h, rest[1..], faulty, s, rest[0].name, rest[0].attrs);
      if p.ok {
        ScanOnlyAdds(h, p.rest, faulty, p.value);
        PrefixChain(s.delivered, p.value.delivered, ScanFrom(h, p.rest, faulty, p.value).delivered);
      }
    }
  }

  /** One row read before the break is read the same way from the whole stream. */
  lemma ConsumeExtends(h: Handlers, p: seq<Token>, q: seq<Token>, faulty: bool, s: Scan, name: string, attrs: seq<Attr>)
    ensures var part, whole := ConsumeRow(h, p, true, s, name, attrs), ConsumeRow(h, p + q, faulty, s, name, attrs);
            || (whole.value == part.value && whole.rest == part.rest + q && whole.ok == part.ok)
            || (part.rest == [] && part.ok && part.value == CountRow(s, name).(truncated := true)
                && part.value.delivered <= whole.value.delivered && part.value.rows == whole.value.rows)
  {
    var start := FieldReader(AttrFields(attrs), 0, "", "");
    if ToLower(name) !in h.wanted {
      if SkipFrom(p, 0).Past? { SkipExtends(p, q, 0); }
    } else if ChildFieldsFrom(p, true, start).ok {
      ChildFieldsExtend(p, q, faulty, start);
    } else {
      FailedReadIsEmpty(p, start);
    }
  }

  lemma {:induction false} FailedReadIsEmpty(p: seq<Token>, r: FieldReader)
    requires !ChildFieldsFrom(p, true, r).ok
    ensures ChildFieldsFrom(p, true, r).rest == []
    decreases |p|
  {
    if p != [] { FailedReadIsEmpty(p[1..], Consume(r, p[0]).0); }
  }

  /** Wherever a stream breaks, what was delivered is an initial part of what the whole would have
      delivered, row by row with the same fields, and no row is counted that the whole would not count. */
  lemma {:induction false} BrokenIsPrefix(h: Handlers, p: seq<Token>, q: seq<Token>, faulty: bool, s: Scan)
    ensures var part, whole := ScanFrom(h, p, true, s), ScanFrom(h, p + q, faulty, s);
            part.delivered <= whole.delivered && part.rows <= whole.rows
    decreases |p|
  {
    if p == [] {
      assert p + q == q;
      ScanOnlyAdds(h, q, faulty, s);
    } else {
      assert (p + q)[0] == p[0] && (p + q)[1..] == p[1..] + q;
      if !p[0].Start? {
        BrokenIsPrefix(h, p[1..], q, faulty, s);
      } else {
        var name, attrs := p[0].name, p[0].attrs;
        ConsumeRowShrinks(h, p[1..], true, s, name, attrs);
        ConsumeRowShrinks(h, p[1..] + q, faulty, s, name, attrs);
        ConsumeExtends(h, p[1..], q, faulty, s, name, attrs);
        var part := ConsumeRow(h, p[1..], true, s, name, attrs);
        var whole := ConsumeRow(h, p[1..] + q, faulty, s, name, attrs);
        if part.rest == [] && part.ok {
          if whole.ok { ScanOnlyAdds(h, whole.rest, faulty, whole.value); }
        } else if part.ok {
          BrokenIsPrefix(h, part.rest, q, faulty, part.value);
        }
      }
    }
  }
}
