/**
  The token streams the export readers consume, and the element trees they stand for.

  A decoder hands out tokens one at a time; when they run out the stream has either
  ended or broken.  `Skip` consumes to the end tag of the element just opened.
 */
module Xml {

  datatype Attr = Attr(name: string, value: string)

  /** Other: comments, processing instructions, directives. */
  datatype Token = Start(name: string, attrs: seq<Attr>) | End(name: string) | Chars(text: string) | Other

  datatype Node = Elem(name: string, attrs: seq<Attr>, children: seq<Node>) | Text(text: string) | Misc

  datatype Read = Got(token: Token) | Eof | Fault

  /** The outcome of consuming part of a stream: a value, what is left, and whether no error was met. */
  datatype Parsed<T> = Parsed(value: T, rest: seq<Token>, ok: bool)

  function Tokens(n: Node): seq<Token>
    decreases n, 0
  {
    match n
    case Elem(name, attrs, children) => [Start(name, attrs)] + TokensAll(children) + [End(name)]
    case Text(text) => [Chars(text)]
    case Misc => [Other]
  }

  function TokensAll(ns: seq<Node>): seq<Token>
    decreases ns, 0
  {
    if ns == [] then [] else Tokens(ns[0]) + TokensAll(ns[1..])
  }

  /** What is left after the end tag that closes `depth` elements and the one around them; None if it never comes. */
  datatype Skipped = Broken | Past(rest: seq<Token>)

  function SkipFrom(rest: seq<Token>, depth: nat): Skipped {
    if rest == [] then Broken
    else match rest[0]
      case Start(_, _) => SkipFrom(rest[1..], depth + 1)
      case End(_) => if depth == 0 then Past(rest[1..]) else SkipFrom(rest[1..], depth - 1)
      case _ => SkipFrom(rest[1..], depth)
  }

  class Decoder {
    var rest: seq<Token>
    /** The stream breaks where the tokens run out, rather than ending. */
    const faulty: bool

    constructor (tokens: seq<Token>, faulty: bool)
      ensures rest == tokens && this.faulty == faulty
    {
      rest := tokens;
      this.faulty := faulty;
    }

    method Next() returns (r: Read)
      modifies this
      ensures old(rest) == [] ==> rest == [] && r == if faulty then Fault else Eof
      ensures old(rest) != [] ==> r == Got(old(rest)[0]) && rest == old(rest)[1..]
    {
      if rest == [] {
        return if faulty then Fault else Eof;
      }
      r := Got(rest[0]);
      rest := rest[1..];
    }

    /** Consumes to the matching end tag; an end of stream is an error here. */
    method Skip() returns (ok: bool)
      modifies this
      ensures var s := SkipFrom(old(rest), 0);
              if s.Past? then ok && rest == s.rest else !ok && rest == []
    {
      var depth := 0;
      while rest != []
        invariant SkipFrom(rest, depth) == SkipFrom(old(rest), 0)
        decreases |rest|
      {
        var token := rest[0];
        rest := rest[1..];
        match token
        case Start(_, _) => depth := depth + 1;
        case End(_) =>
          if depth == 0 {
            return true;
          }
          depth := depth - 1;
        case _ =>
      }
      return false;
    }
  }

  // ----- Trees ---------------------------------------------------------------------

  /** Every piece of character data below, in document order. */
  function TextOf(n: Node): string
    decreases n, 0
  {
    match n
    case Elem(_, _, children) => TextOfAll(children)
    case Text(text) => text
    case Misc => ""
  }

  function TextOfAll(ns: seq<Node>): string
    decreases ns, 0
  {
    if ns == [] then "" else TextOf(ns[0]) + TextOfAll(ns[1..])
  }

  /** The stream of one more element: opening tag, contents, end tag, and the rest. */
  lemma {:induction false} ElementStream(n: Node, rest: seq<Token>)
    requires n.Elem?
    ensures var s := Tokens(n) + rest;
            s != [] && s[0] == Start(n.name, n.attrs) && s[1..] == TokensAll(n.children) + ([End(n.name)] + rest)
  {
    assert Tokens(n) + rest == [Start(n.name, n.attrs)] + (TokensAll(n.children) + ([End(n.name)] + rest));
  }

  lemma EndStream(name: string, rest: seq<Token>)
    ensures ([End(name)] + rest)[0] == End(name) && ([End(name)] + rest)[1..] == rest
  {
  }

  lemma {:induction false} LeafStream(n: Node, rest: seq<Token>)
    requires !n.Elem?
    ensures |Tokens(n)| == 1 && (Tokens(n) + rest)[0] == Tokens(n)[0] && (Tokens(n) + rest)[1..] == rest
  {
  }

  lemma {:induction false} ForestStream(ns: seq<Node>, rest: seq<Token>)
    requires ns != []
    ensures TokensAll(ns) + rest == Tokens(ns[0]) + (TokensAll(ns[1..]) + rest)
  {
  }

  lemma EmptyStream(rest: seq<Token>)
    ensures TokensAll([]) + rest == rest
  {
  }

  lemma {:induction false} SkipsNode(n: Node, rest: seq<Token>, depth: nat)
    ensures SkipFrom(Tokens(n) + rest, depth) == SkipFrom(rest, depth)
    decreases n, 0
  {
    match n
    case Elem(name, _, children) =>
      ElementStream(n, rest);
      SkipsForest(children, [End(name)] + rest, depth + 1);
      EndStream(name, rest);
    case _ =>
      LeafStream(n, rest);
  }

  lemma {:induction false} SkipsForest(ns: seq<Node>, rest: seq<Token>, depth: nat)
    ensures SkipFrom(TokensAll(ns) + rest, depth) == SkipFrom(rest, depth)
    decreases ns, 0
  {
    if ns == [] {
      EmptyStream(rest);
    } else {
      ForestStream(ns, rest);
      SkipsNode(ns[0], TokensAll(ns[1..]) + rest, depth);
      SkipsForest(ns[1..], rest, depth);
    }
  }

  /** Skip consumes exactly the element just opened. */
  lemma {:induction false} SkipIsExact(children: seq<Node>, name: string, rest: seq<Token>)
    ensures SkipFrom(TokensAll(children) + ([End(name)] + rest), 0) == Past(rest)
  {
    SkipsForest(children, [End(name)] + rest, 0);
    EndStream(name, rest);
  }

  lemma {:induction false} SkipShrinks(rest: seq<Token>, depth: nat)
    ensures SkipFrom(rest, depth).Past? ==> |SkipFrom(rest, depth).rest| < |rest|
    decreases |rest|
  {
    if rest != [] {
      match rest[0]
      case Start(_, _) => SkipShrinks(rest[1..], depth + 1);
      case End(_) => if depth > 0 { SkipShrinks(rest[1..], depth - 1); }
      case _ => SkipShrinks(rest[1..], depth);
    }
  }

  /** A skip that succeeds does not depend on what comes after. */
  lemma {:induction false} SkipExtends(p: seq<Token>, q: seq<Token>, depth: nat)
    requires SkipFrom(p, depth).Past?
    ensures SkipFrom(p + q, depth) == Past(SkipFrom(p, depth).rest + q)
    decreases |p|
  {
    assert (p + q)[0] == p[0] && (p + q)[1..] == p[1..] + q;
    match p[0]
    case Start(_, _) => SkipExtends(p[1..], q, depth + 1);
    case End(_) => if depth > 0 { SkipExtends(p[1..], q, depth - 1); }
    case _ => SkipExtends(p[1..], q, depth);
  }
}
