/**
  The streaming reader of a Confluence entities.xml, internal/assess/confluence/entities.go.

  Its readers call one another, and each must eat exactly its own element: an end tag
  left behind is taken by the caller for its own, and the rest of the object is lost.
  The functions `...From` are the readers' meanings on raw token streams; the tree
  functions are what a well-formed object stands for.
 */
module ConfluenceEntities {
  import opened Text
  import opened Xml
  import opened Census

  const ROOT := "hibernate-generic"
  const CAP := Cap(2048, "(other — distinct-class cap reached)")
  const NO_CLASS := "(object with no class)"

  type Strings = map<string, string>

  /** One exported entity: scalar and reference properties apart, collection members in order. */
  datatype Object = Object(
    cls: string, id: string, props: Strings, refs: Strings, collections: map<string, seq<string>>)

  function Prop(o: Object, name: string): string { if name in o.props then TrimSpace(o.props[name]) else "" }

  function AttrValue(attrs: seq<Attr>, name: string): string {
    if attrs == [] then ""
    else if EqualFold(attrs[0].name, name) then TrimSpace(attrs[0].value)
    else AttrValue(attrs[1..], name)
  }

  // ----- The readers' meanings --------------------------------------------------------------

  function ElementTextFrom(rest: seq<Token>, faulty: bool, depth: nat, text: string): Parsed<string> {
    if rest == [] then Parsed(text, [], !faulty)
    else match rest[0]
      case Chars(more) => ElementTextFrom(rest[1..], faulty, depth, text + more)
      case Start(_, _) => ElementTextFrom(rest[1..], faulty, depth + 1, text)
      case End(_) =>
        if depth == 0 then Parsed(text, rest[1..], true) else ElementTextFrom(rest[1..], faulty, depth - 1, text)
      case Other => ElementTextFrom(rest[1..], faulty, depth, text)
  }

  /** The trimmed text of the element just opened if it is called `wanted`; otherwise it is skipped for "". */
  function TextIfCalled(rest: seq<Token>, faulty: bool, name: string, wanted: string): Parsed<string> {
    if EqualFold(name, wanted) then
      var p := ElementTextFrom(rest, faulty, 0, "");
      if p.ok then p.(value := TrimSpace(p.value)) else Parsed("", p.rest, false)
    else match SkipFrom(rest, 0)
      case Past(after) => Parsed("", after, true)
      case Broken => Parsed("", [], false)
  }

  lemma {:induction false} ElementTextShrinks(rest: seq<Token>, faulty: bool, depth: nat, text: string)
    ensures |ElementTextFrom(rest, faulty, depth, text).rest| <= |rest|
    decreases |rest|
  {
    if rest != [] {
      match rest[0]
      case Chars(more) => ElementTextShrinks(rest[1..], faulty, depth, text + more);
      case Start(_, _) => ElementTextShrinks(rest[1..], faulty, depth + 1, text);
      case End(_) => if depth > 0 { ElementTextShrinks(rest[1..], faulty, depth - 1, text); }
      case Other => ElementTextShrinks(rest[1..], faulty, depth, text);
    }
  }

  lemma TextIfCalledShrinks(rest: seq<Token>, faulty: bool, name: string, wanted: string)
    ensures |TextIfCalled(rest, faulty, name, wanted).rest| <= |rest|
  {
    ElementTextShrinks(rest, faulty, 0, "");
    SkipShrinks(rest, 0);
  }

  /** What a reader came back with when its element was closed, or that it never was. */
  datatype Closed<T> = Unclosed | Closed(value: T)

  datatype Property = Property(refID: string, text: string)

  function PropertyFrom(rest: seq<Token>, faulty: bool, p: Property): Parsed<Closed<Property>>
    decreases |rest|
  {
    if rest == [] then Parsed(Unclosed, [], !faulty)
    else match rest[0]
      case Chars(more) => PropertyFrom(rest[1..], faulty, p.(text := p.text + more))
      case Start(name, _) =>
        TextIfCalledShrinks(rest[1..], faulty, name, "id");
        var id := TextIfCalled(rest[1..], faulty, name, "id");
        if id.ok then PropertyFrom(id.rest, faulty, if id.value != "" then p.(refID := id.value) else p)
        else Parsed(Unclosed, id.rest, false)
      case End(_) => Parsed(Closed(p), rest[1..], true)
      case Other => PropertyFrom(rest[1..], faulty, p)
  }

  /** A collection element's id: the first that is not blank. */
  function ElementIDFrom(rest: seq<Token>, faulty: bool, id: string): Parsed<string>
    decreases |rest|
  {
    if rest == [] then Parsed(id, [], !faulty)
    else match rest[0]
      case Start(name, _) =>
        TextIfCalledShrinks(rest[1..], faulty, name, "id");
        var text := TextIfCalled(rest[1..], faulty, name, "id");
        if text.ok then ElementIDFrom(text.rest, faulty, if id == "" then text.value else id)
        else Parsed(id, text.rest, false)
      case End(_) => Parsed(id, rest[1..], true)
      case _ => ElementIDFrom(rest[1..], faulty, id)
  }

  lemma {:induction false} ElementIDShrinks(rest: seq<Token>, faulty: bool, id: string)
    ensures |ElementIDFrom(rest, faulty, id).rest| <= |rest|
    decreases |rest|
  {
    if rest != [] {
      match rest[0]
      case Start(name, _) =>
        TextIfCalledShrinks(rest[1..], faulty, name, "id");
        var text := TextIfCalled(rest[1..], faulty, name, "id");
        if text.ok { ElementIDShrinks(text.rest, faulty, if id == "" then text.value else id); }
      case End(_) =>
      case _ => ElementIDShrinks(rest[1..], faulty, id);
    }
  }

  function CollectionMember(rest: seq<Token>, faulty: bool, name: string): Parsed<string> {
    if EqualFold(name, "element") then ElementIDFrom(rest, faulty, "")
    else match SkipFrom(rest, 0)
      case Past(after) => Parsed("", after, true)
      case Broken => Parsed("", [], false)
  }

  lemma CollectionMemberShrinks(rest: seq<Token>, faulty: bool, name: string)
    ensures |CollectionMember(rest, faulty, name).rest| <= |rest|
  {
    ElementIDShrinks(rest, faulty, "");
    SkipShrinks(rest, 0);
  }

  function CollectionFrom(rest: seq<Token>, faulty: bool, ids: seq<string>): Parsed<Closed<seq<string>>>
    decreases |rest|
  {
    if rest == [] then Parsed(Unclosed, [], !faulty)
    else match rest[0]
      case Start(name, _) =>
        CollectionMemberShrinks(rest[1..], faulty, name);
        var id := CollectionMember(rest[1..], faulty, name);
        if id.ok then CollectionFrom(id.rest, faulty, if id.value != "" then ids + [id.value] else ids)
        else Parsed(Unclosed, id.rest, false)
      case End(_) => Parsed(Closed(ids), rest[1..], true)
      case _ => CollectionFrom(rest[1..], faulty, ids)
  }

  function StoreProperty(o: Object, name: string, p: Property): Object {
    if name == "" then o
    else if p.refID != "" then o.(refs := o.refs[name := p.refID])
    else o.(props := o.props[name := p.text])
  }

  function StoreCollection(o: Object, name: string, ids: seq<string>): Object {
    if name != "" && ids != [] then o.(collections := o.collections[name := ids]) else o
  }

  function ReadMember(o: Object, rest: seq<Token>, faulty: bool, name: string, attrs: seq<Attr>): Parsed<Object> {
    var lower := ToLower(name);
    if lower == "id" then
      var p := ElementTextFrom(rest, faulty, 0, "");
      Parsed(if p.ok then o.(id := TrimSpace(p.value)) else o, p.rest, p.ok)
    else if lower == "property" then
      var p := PropertyFrom(rest, faulty, Property("", ""));
      Parsed(if p.value.Closed? then StoreProperty(o, AttrValue(attrs, "name"), p.value.value) else o, p.rest, p.ok)
    else if lower == "collection" then
      var p := CollectionFrom(rest, faulty, []);
      Parsed(if p.value.Closed? then StoreCollection(o, AttrValue(attrs, "name"), p.value.value) else o, p.rest, p.ok)
    else match SkipFrom(rest, 0)
      case Past(after) => Parsed(o, after, true)
      case Broken => Parsed(o, [], false)
  }

  lemma {:induction false} PropertyShrinks(rest: seq<Token>, faulty: bool, p: Property)
    ensures |PropertyFrom(rest, faulty, p).rest| <= |rest|
    decreases |rest|
  {
    if rest != [] {
      match rest[0]
      case Chars(more) => PropertyShrinks(rest[1..], faulty, p.(text := p.text + more));
      case Start(name, _) =>
        TextIfCalledShrinks(rest[1..], faulty, name, "id");
        var id := TextIfCalled(rest[1..], faulty, name, "id");
        if id.ok { PropertyShrinks(id.rest, faulty, if id.value != "" then p.(refID := id.value) else p); }
      case End(_) =>
      case Other => PropertyShrinks(rest[1..], faulty, p);
    }
  }

  lemma {:induction false} CollectionShrinks(rest: seq<Token>, faulty: bool, ids: seq<string>)
    ensures |CollectionFrom(rest, faulty, ids).rest| <= |rest|
    decreases |rest|
  {
    if rest != [] {
      match rest[0]
      case Start(name, _) =>
        CollectionMemberShrinks(rest[1..], faulty, name);
        var id := CollectionMember(rest[1..], faulty, name);
        if id.ok { CollectionShrinks(id.rest, faulty, if id.value != "" then ids + [id.value] else ids); }
      case End(_) =>
      case _ => CollectionShrinks(rest[1..], faulty, ids);
    }
  }

  lemma ReadMemberShrinks(o: Object, rest: seq<Token>, faulty: bool, name: string, attrs: seq<Attr>)
    ensures |ReadMember(o, rest, faulty, name, attrs).rest| <= |rest|
  {
    ElementTextShrinks(rest, faulty, 0, "");
    PropertyShrinks(rest, faulty, Property("", ""));
    CollectionShrinks(rest, faulty, []);
    SkipShrinks(rest, 0);
  }

  /** Members up to the end tag of the object; stray end tags of other names are passed over. */
  function ObjectFrom(rest: seq<Token>, faulty: bool, o: Object): Parsed<Object>
    decreases |rest|
  {
    if rest == [] then Parsed(o, [], !faulty)
    else match rest[0]
      case Start(name, attrs) =>
        ReadMemberShrinks(o, rest[1..], faulty, name, attrs);
        var p := ReadMember(o, rest[1..], faulty, name, attrs);
        if p.ok then ObjectFrom(p.rest, faulty, p.value) else p
      case End(name) =>
        if EqualFold(name, "object") then Parsed(o, rest[1..], true) else ObjectFrom(rest[1..], faulty, o)
      case _ => ObjectFrom(rest[1..], faulty, o)
  }

  lemma {:induction false} ObjectShrinks(rest: seq<Token>, faulty: bool, o: Object)
    ensures |ObjectFrom(rest, faulty, o).rest| <= |rest|
    decreases |rest|
  {
    if rest != [] {
      match rest[0]
      case Start(name, attrs) =>
        ReadMemberShrinks(o, rest[1..], faulty, name, attrs);
        var p := ReadMember(o, rest[1..], faulty, name, attrs);
        if p.ok { ObjectShrinks(p.rest, faulty, p.value); }
      case End(name) => if !EqualFold(name, "object") { ObjectShrinks(rest[1..], faulty, o); }
      case _ => ObjectShrinks(rest[1..], faulty, o);
    }
  }

  function NewObject(cls: string): Object { Object(cls, "", map[], map[], map[]) }

  // ----- The readers --------------------------------------------------------------------------

  method ElementText(dec: Decoder) returns (text: string, ok: bool)
    modifies dec
    ensures Parsed(text, dec.rest, ok) == ElementTextFrom(old(dec.rest), dec.faulty, 0, "")
  {
    text := "";
    var depth := 0;
    while true
      invariant ElementTextFrom(dec.rest, dec.faulty, depth, text) == ElementTextFrom(old(dec.rest), dec.faulty, 0, "")
      decreases |dec.rest|
    {
      var read := dec.Next();
      if !read.Got? {
        return text, read.Eof?;
      }
      match read.token {
        case Chars(more) => text := text + more;
        case Start(_, _) => depth := depth + 1;
        case End(_) =>
          if depth == 0 {
            return text, true;
          }
          depth := depth - 1;
        case Other =>
      }
    }
  }

  method NestedID(dec: Decoder, name: string) returns (id: string, ok: bool)
    modifies dec
    ensures Parsed(id, dec.rest, ok) == TextIfCalled(old(dec.rest), dec.faulty, name, "id")
  {
    if EqualFold(name, "id") {
      var text, read := ElementText(dec);
      return if read then TrimSpace(text) else "", read;
    }
    var skipped := dec.Skip();
    return "", skipped;
  }

  method ElementID(dec: Decoder) returns (id: string, ok: bool)
    modifies dec
    ensures Parsed(id, dec.rest, ok) == ElementIDFrom(old(dec.rest), dec.faulty, "")
  {
    id := "";
    while true
      invariant ElementIDFrom(dec.rest, dec.faulty, id) == ElementIDFrom(old(dec.rest), dec.faulty, "")
      decreases |dec.rest|
    {
      var read := dec.Next();
      if !read.Got? {
        return id, read.Eof?;
      }
      match read.token {
        case Start(name, _) =>
          TextIfCalledShrinks(dec.rest, dec.faulty, name, "id");
          var text, fine := NestedID(dec, name);
          if !fine {
            return id, false;
          }
          if id == "" {
            id := text;
          }
        case End(_) => return id, true;
        case _ =>
      }
    }
  }

  method Member(dec: Decoder, name: string) returns (id: string, ok: bool)
    modifies dec
    ensures Parsed(id, dec.rest, ok) == CollectionMember(old(dec.rest), dec.faulty, name)
  {
    if EqualFold(name, "element") {
      id, ok := ElementID(dec);
      return;
    }
    var skipped := dec.Skip();
    return "", skipped;
  }

  /** An object being read, filled member by member. */
  class ObjectReader {
    const cls: string
    var id: string
    var props: Strings
    var refs: Strings
    var collections: map<string, seq<string>>

    function Contents(): Object
      reads this
    {
      Object(cls, id, props, refs, collections)
    }

    constructor (cls: string)
      ensures Contents() == NewObject(cls)
    {
      this.cls := cls;
      id, props, refs, collections := "", map[], map[], map[];
    }

    method ReadOneMember(dec: Decoder, name: string, attrs: seq<Attr>) returns (ok: bool)
      modifies this, dec
      ensures Parsed(Contents(), dec.rest, ok) == ReadMember(old(Contents()), old(dec.rest), dec.faulty, name, attrs)
    {
      var lower := ToLower(name);
      if lower == "id" {
        var text, read := ElementText(dec);
        if read {
          id := TrimSpace(text);
        }
        return read;
      } else if lower == "property" {
        ok := ReadProperty(dec, attrs);
        return;
      } else if lower == "collection" {
        ok := ReadCollection(dec, attrs);
        return;
      }
      ok := dec.Skip();
    }

    method ReadProperty(dec: Decoder, attrs: seq<Attr>) returns (ok: bool)
      modifies this, dec
      ensures var p := PropertyFrom(old(dec.rest), dec.faulty, Property("", ""));
        && dec.rest == p.rest && ok == p.ok
        && Contents() == if p.value.Closed? then StoreProperty(old(Contents()), AttrValue(attrs, "name"), p.value.value)
                         else old(Contents())
    {
      var text, refID := "", "";
      while true
        invariant PropertyFrom(dec.rest, dec.faulty, Property(refID, text))
                  == PropertyFrom(old(dec.rest), dec.faulty, Property("", ""))
        invariant Contents() == old(Contents())
        decreases |dec.rest|
      {
        var read := dec.Next();
        if !read.Got? {
          return read.Eof?;
        }
        match read.token {
          case Chars(more) => text := text + more;
          case Start(name, _) =>
            TextIfCalledShrinks(dec.rest, dec.faulty, name, "id");
            var nested, fine := NestedID(dec, name);
            if !fine {
              return false;
            }
            if nested != "" {
              refID := nested;
            }
          case End(_) =>
            var key := AttrValue(attrs, "name");
            if key != "" {
              if refID != "" {
                refs := refs[key := refID];
              } else {
                props := props[key := text];
              }
            }
            return true;
          case Other =>
        }
      }
    }

    method ReadCollection(dec: Decoder, attrs: seq<Attr>) returns (ok: bool)
      modifies this, dec
      ensures var p := CollectionFrom(old(dec.rest), dec.faulty, []);
        && dec.rest == p.rest && ok == p.ok
        && Contents() == if p.value.Closed?
                         then StoreCollection(old(Contents()), AttrValue(attrs, "name"), p.value.value)
                         else old(Contents())
    {
      var ids := [];
      while true
        invariant CollectionFrom(dec.rest, dec.faulty, ids) == CollectionFrom(old(dec.rest), dec.faulty, [])
        invariant Contents() == old(Contents())
        decreases |dec.rest|
      {
        var read := dec.Next();
        if !read.Got? {
          return read.Eof?;
        }
        match read.token {
          case Start(name, _) =>
            CollectionMemberShrinks(dec.rest, dec.faulty, name);
            var member, fine := Member(dec, name);
            if !fine {
              return false;
            }
            if member != "" {
              ids := ids + [member];
            }
          case End(_) =>
            var key := AttrValue(attrs, "name");
            if key != "" && |ids| > 0 {
              collections := collections[key := ids];
            }
            return true;
          case _ =>
        }
      }
    }
  }

  method DecodeObject(dec: Decoder, cls: string) returns (o: Object, ok: bool)
    modifies dec
    ensures Parsed(o, dec.rest, ok) == ObjectFrom(old(dec.rest), dec.faulty, NewObject(cls))
  {
    var reader := new ObjectReader(cls);
    while true
      invariant fresh(reader)
      invariant ObjectFrom(dec.rest, dec.faulty, reader.Contents())
                == ObjectFrom(old(dec.rest), dec.faulty, NewObject(cls))
      decreases |dec.rest|
    {
      var read := dec.Next();
      if !read.Got? {
        return reader.Contents(), read.Eof?;
      }
      match read.token {
        case Start(name, attrs) =>
          ReadMemberShrinks(reader.Contents(), dec.rest, dec.faulty, name, attrs);
          var fine := reader.ReadOneMember(dec, name, attrs);
          if !fine {
            return reader.Contents(), false;
          }
        case End(name) =>
          if EqualFold(name, "object") {
            return reader.Contents(), true;
          }
        case _ =>
      }
    }
  }

  // ----- The tree an object stands for ----------------------------------------------------------

  /** The trimmed text of an element called id; "" for anything else. */
  function IDText(n: Node): string {
    if n.Elem? && EqualFold(n.name, "id") then TrimSpace(TextOfAll(n.children)) else ""
  }

  /** The last id that is not blank. */
  function LastID(ns: seq<Node>, before: string): string {
    if ns == [] then before else LastID(ns[1..], if IDText(ns[0]) != "" then IDText(ns[0]) else before)
  }

  /** The first id that is not blank. */
  function FirstID(ns: seq<Node>): string {
    if ns == [] then "" else if IDText(ns[0]) != "" then IDText(ns[0]) else FirstID(ns[1..])
  }

  /** Character data of the element itself, nested elements excluded. */
  function OwnText(ns: seq<Node>): string {
    if ns == [] then "" else (if ns[0].Text? then ns[0].text else "") + OwnText(ns[1..])
  }

  /** The ids one child adds to a collection. */
  function MemberID(n: Node): seq<string> {
    if n.Elem? && EqualFold(n.name, "element") && FirstID(n.children) != "" then [FirstID(n.children)] else []
  }

  /** The ids of the members, in document order. */
  function MemberIDs(ns: seq<Node>): seq<string> {
    if ns == [] then [] else MemberID(ns[0]) + MemberIDs(ns[1..])
  }

  function AddMember(o: Object, n: Node): Object {
    if !n.Elem? then o
    else
      var lower, name := ToLower(n.name), AttrValue(n.attrs, "name");
      if lower == "id" then o.(id := TrimSpace(TextOfAll(n.children)))
      else if lower == "property" then StoreProperty(o, name, Property(LastID(n.children, ""), OwnText(n.children)))
      else if lower == "collection" then StoreCollection(o, name, MemberIDs(n.children))
      else o
  }

  /** An object is its children, folded in order. */
  function TreeObject(o: Object, ns: seq<Node>): Object
    decreases |ns|
  {
    if ns == [] then o else TreeObject(AddMember(o, ns[0]), ns[1..])
  }

  // ----- Each reader eats exactly its own element ------------------------------------------------

  lemma {:induction false} TextReadsNode(n: Node, rest: seq<Token>, faulty: bool, depth: nat, text: string)
    ensures ElementTextFrom(Tokens(n) + rest, faulty, depth, text)
            == ElementTextFrom(rest, faulty, depth, text + TextOf(n))
    decreases n, 0
  {
    match n
    case Elem(name, _, children) =>
      ElementStream(n, rest);
      TextReadsForest(children, [End(name)] + rest, faulty, depth + 1, text);
      EndStream(name, rest);
    case _ =>
      LeafStream(n, rest);
      assert text + "" == text;
  }

  lemma {:induction false} TextReadsForest(ns: seq<Node>, rest: seq<Token>, faulty: bool, depth: nat, text: string)
    ensures ElementTextFrom(TokensAll(ns) + rest, faulty, depth, text)
            == ElementTextFrom(rest, faulty, depth, text + TextOfAll(ns))
    decreases ns, 0
  {
    if ns == [] {
      EmptyStream(rest);
      assert text + "" == text;
    } else {
      ForestStream(ns, rest);
      TextReadsNode(ns[0], TokensAll(ns[1..]) + rest, faulty, depth, text);
      TextReadsForest(ns[1..], rest, faulty, depth, text + TextOf(ns[0]));
      assert (text + TextOf(ns[0])) + TextOfAll(ns[1..]) == text + (TextOf(ns[0]) + TextOfAll(ns[1..]));
    }
  }

  lemma {:induction false} TextIsExact(ns: seq<Node>, name: string, rest: seq<Token>, faulty: bool)
    ensures ElementTextFrom(TokensAll(ns) + ([End(name)] + rest), faulty, 0, "") == Parsed(TextOfAll(ns), rest, true)
  {
    TextReadsForest(ns, [End(name)] + rest, faulty, 0, "");
    EndStream(name, rest);
    assert "" + TextOfAll(ns) == TextOfAll(ns);
  }

  lemma NestedIsExact(n: Node, rest: seq<Token>, faulty: bool)
    requires n.Elem?
    ensures TextIfCalled(TokensAll(n.children) + ([End(n.name)] + rest), faulty, n.name, "id")
            == Parsed(IDText(n), rest, true)
  {
    TextIsExact(n.children, n.name, rest, faulty);
    SkipIsExact(n.children, n.name, rest);
  }

  lemma PropertyChild(n: Node, after: seq<Token>, faulty: bool, p: Property) returns (p': Property)
    ensures p' == Property(if IDText(n) != "" then IDText(n) else p.refID, p.text + (if n.Text? then n.text else ""))
    ensures PropertyFrom(Tokens(n) + after, faulty, p) == PropertyFrom(after, faulty, p')
  {
    assert p.text + "" == p.text;
    p' := Property(if IDText(n) != "" then IDText(n) else p.refID, p.text + (if n.Text? then n.text else ""));
    if n.Elem? {
      ElementStream(n, after);
      NestedIsExact(n, after, faulty);
    } else {
      LeafStream(n, after);
    }
  }

  /** A property's state after reading a forest. */
  function AfterForest(p: Property, ns: seq<Node>): Property {
    Property(LastID(ns, p.refID), p.text + OwnText(ns))
  }

  lemma AfterForestSteps(p: Property, p': Property, ns: seq<Node>)
    requires ns != []
    requires p' == Property(if IDText(ns[0]) != "" then IDText(ns[0]) else p.refID,
                            p.text + (if ns[0].Text? then ns[0].text else ""))
    ensures AfterForest(p, ns) == AfterForest(p', ns[1..])
  {
    var here := if ns[0].Text? then ns[0].text else "";
    assert (p.text + here) + OwnText(ns[1..]) == p.text + (here + OwnText(ns[1..]));
  }

  lemma {:induction false} PropertyReadsForest(ns: seq<Node>, rest: seq<Token>, faulty: bool, p: Property)
    ensures PropertyFrom(TokensAll(ns) + rest, faulty, p) == PropertyFrom(rest, faulty, AfterForest(p, ns))
    decreases |ns|
  {
    if ns == [] {
      EmptyStream(rest);
      assert p.text + "" == p.text;
    } else {
      ForestStream(ns, rest);
      var p' := PropertyChild(ns[0], TokensAll(ns[1..]) + rest, faulty, p);
      PropertyReadsForest(ns[1..], rest, faulty, p');
      AfterForestSteps(p, p', ns);
    }
  }

  lemma {:induction false} PropertyIsExact(ns: seq<Node>, name: string, rest: seq<Token>, faulty: bool)
    ensures PropertyFrom(TokensAll(ns) + ([End(name)] + rest), faulty, Property("", ""))
            == Parsed(Closed(Property(LastID(ns, ""), OwnText(ns))), rest, true)
  {
    PropertyReadsForest(ns, [End(name)] + rest, faulty, Property("", ""));
    EndStream(name, rest);
    assert "" + OwnText(ns) == OwnText(ns);
  }

  lemma {:induction false} ElementIDIsExact(ns: seq<Node>, name: string, rest: seq<Token>, faulty: bool, id: string)
    ensures ElementIDFrom(TokensAll(ns) + ([End(name)] + rest), faulty, id)
            == Parsed(if id != "" then id else FirstID(ns), rest, true)
    decreases |ns|
  {
    var close := [End(name)] + rest;
    if ns == [] {
      EmptyStream(close);
      EndStream(name, rest);
    } else {
      var n, after := ns[0], TokensAll(ns[1..]) + close;
      ForestStream(ns, close);
      if n.Elem? {
        ElementStream(n, after);
        NestedIsExact(n, after, faulty);
        ElementIDIsExact(ns[1..], name, rest, faulty, if id == "" then IDText(n) else id);
      } else {
        LeafStream(n, after);
        ElementIDIsExact(ns[1..], name, rest, faulty, id);
      }
    }
  }

  lemma MemberIsExact(n: Node, rest: seq<Token>, faulty: bool)
    requires n.Elem?
    ensures CollectionMember(TokensAll(n.children) + ([End(n.name)] + rest), faulty, n.name)
            == Parsed(if EqualFold(n.name, "element") then FirstID(n.children) else "", rest, true)
  {
    ElementIDIsExact(n.children, n.name, rest, faulty, "");
    SkipIsExact(n.children, n.name, rest);
  }

  lemma {:induction false} CollectionChild(n: Node, after: seq<Token>, faulty: bool, ids: seq<string>)
    ensures CollectionFrom(Tokens(n) + after, faulty, ids) == CollectionFrom(after, faulty, ids + MemberID(n))
  {
    assert ids + [] == ids;
    if n.Elem? {
      ElementStream(n, after);
      MemberIsExact(n, after, faulty);
    } else {
      LeafStream(n, after);
    }
  }

  lemma {:induction false} CollectionIsExact(ns: seq<Node>, name: string, rest: seq<Token>, faulty: bool,
                                             ids: seq<string>)
    ensures CollectionFrom(TokensAll(ns) + ([End(name)] + rest), faulty, ids)
            == Parsed(Closed(ids + MemberIDs(ns)), rest, true)
    decreases |ns|
  {
    var close := [End(name)] + rest;
    if ns == [] {
      EmptyStream(close);
      EndStream(name, rest);
      assert ids + [] == ids;
    } else {
      ForestStream(ns, close);
      CollectionChild(ns[0], TokensAll(ns[1..]) + close, faulty, ids);
      CollectionIsExact(ns[1..], name, rest, faulty, ids + MemberID(ns[0]));
      assert (ids + MemberID(ns[0])) + MemberIDs(ns[1..]) == ids + (MemberID(ns[0]) + MemberIDs(ns[1..]));
    }
  }

  lemma ObjectMemberIsExact(o: Object, n: Node, rest: seq<Token>, faulty: bool)
    requires n.Elem?
    ensures ReadMember(o, TokensAll(n.children) + ([End(n.name)] + rest), faulty, n.name, n.attrs)
            == Parsed(AddMember(o, n), rest, true)
  {
    TextIsExact(n.children, n.name, rest, faulty);
    PropertyIsExact(n.children, n.name, rest, faulty);
    CollectionIsExact(n.children, n.name, rest, faulty, []);
    SkipIsExact(n.children, n.name, rest);
    assert [] + MemberIDs(n.children) == MemberIDs(n.children);
  }

  /** decodeObject consumes up to the object's own end tag, no more and no less, and yields the
      object its children describe. */
  lemma {:induction false} ObjectIsExact(o: Object, ns: seq<Node>, name: string, rest: seq<Token>, faulty: bool)
    requires EqualFold(name, "object")
    ensures ObjectFrom(TokensAll(ns) + ([End(name)] + rest), faulty, o) == Parsed(TreeObject(o, ns), rest, true)
    decreases |ns|
  {
    var close := [End(name)] + rest;
    if ns == [] {
      EmptyStream(close);
      EndStream(name, rest);
    } else {
      var n, after := ns[0], TokensAll(ns[1..]) + close;
      ForestStream(ns, close);
      if n.Elem? {
        ElementStream(n, after);
        ObjectMemberIsExact(o, n, after, faulty);
      } else {
        LeafStream(n, after);
      }
      ObjectIsExact(AddMember(o, n), ns[1..], name, rest, faulty);
    }
  }
}
