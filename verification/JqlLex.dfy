/**
  The JQL lexer of internal/assess/jql/lex.go.

  Each scanning loop is a method proved equal to a recursive function on positions.
  `Lexemes` is the whole token stream with the span each token was read from; the
  lemmas say that the spans tile the input and what each span may look like.
 */
module JqlLex {
  import opened Text

  datatype TokenKind = Word | Str | Operator | LParen | RParen | Comma

  /** A quoted "AND" is a value and not a connective, so quoting is kept. */
  datatype Token = Token(kind: TokenKind, text: string, quoted: bool)

  /** A token and the half-open span of input it was read from. */
  datatype Lexeme = Lexeme(token: Token, start: nat, end: nat)

  const OPEN := Token(LParen, "(", false)
  const CLOSE := Token(RParen, ")", false)
  const COMMA := Token(Comma, ",", false)

  predicate IsOperatorRune(r: char) { r in "=!<>~" }

  predicate EndsWord(r: char) { IsSpace(r) || r in "()," || IsOperatorRune(r) }

  // ----- Scanning functions ------------------------------------------------------

  /** From just after an opening quote: the text, and where the quoted value ends. */
  function QuotedFrom(s: string, i: nat, quote: char): (string, nat)
    requires i <= |s|
    decreases |s| - i
  {
    if i == |s| then ("", i)
    else if s[i] == '\\' && i + 1 < |s| then
      var (text, end) := QuotedFrom(s, i + 2, quote); ([s[i + 1]] + text, end)
    else if s[i] == quote then ("", i + 1)
    else
      var (text, end) := QuotedFrom(s, i + 1, quote); ([s[i]] + text, end)
  }

  lemma {:induction false} QuotedFromBounds(s: string, i: nat, quote: char)
    requires i <= |s|
    ensures i <= QuotedFrom(s, i, quote).1 <= |s|
    decreases |s| - i
  {
    if i == |s| {
    } else if s[i] == '\\' && i + 1 < |s| {
      QuotedFromBounds(s, i + 2, quote);
    } else if s[i] != quote {
      QuotedFromBounds(s, i + 1, quote);
    }
  }

  function OperatorEnd(s: string, i: nat): nat
    requires i <= |s|
    decreases |s| - i
  {
    if i < |s| && IsOperatorRune(s[i]) then OperatorEnd(s, i + 1) else i
  }

  /** Where the call closes that is open `depth` levels deep at `i`, or `fail`. */
  function CallFrom(s: string, i: nat, depth: nat, fail: nat): nat
    requires i <= |s|
    decreases |s| - i
  {
    if i == |s| then fail
    else if s[i] == '(' then CallFrom(s, i + 1, depth + 1, fail)
    else if s[i] == ')' then
      if depth <= 1 then i + 1 else CallFrom(s, i + 1, depth - 1, fail)
    else if IsQuoteRune(s[i]) then
      QuotedFromBounds(s, i + 1, s[i]);
      CallFrom(s, QuotedFrom(s, i + 1, s[i]).1, depth, fail)
    else CallFrom(s, i + 1, depth, fail)
  }

  /** The argument list opening at `open`, or `open` itself when its parens do not balance. */
  function CallEnd(s: string, open: nat): nat
    requires open < |s| && s[open] == '('
  {
    CallFrom(s, open, 0, open)
  }

  lemma {:induction false} CallFromBounds(s: string, i: nat, depth: nat, fail: nat)
    requires i <= |s|
    ensures var e := CallFrom(s, i, depth, fail); e == fail || i < e <= |s|
    decreases |s| - i
  {
    if i < |s| {
      if s[i] == '(' {
        CallFromBounds(s, i + 1, depth + 1, fail);
      } else if s[i] == ')' {
        if depth > 1 { CallFromBounds(s, i + 1, depth - 1, fail); }
      } else if IsQuoteRune(s[i]) {
        QuotedFromBounds(s, i + 1, s[i]);
        CallFromBounds(s, QuotedFrom(s, i + 1, s[i]).1, depth, fail);
      } else {
        CallFromBounds(s, i + 1, depth, fail);
      }
    }
  }

  /** One step inside a bare word: the next position and bracket depth, or None where it ends. */
  datatype WordStep = Ends | Goes(next: nat, depth: nat)

  function StepWord(s: string, start: nat, i: nat, depth: nat): (w: WordStep)
    requires start <= i < |s|
    ensures w.Goes? ==> i < w.next <= |s|
  {
    if s[i] == '[' then Goes(i + 1, depth + 1)
    else if s[i] == ']' && depth > 0 then Goes(i + 1, depth - 1)
    else if s[i] == '(' && i > start then
      CallFromBounds(s, i, 0, i);
      if CallEnd(s, i) > i then Goes(CallEnd(s, i), depth) else Ends
    else if depth == 0 && EndsWord(s[i]) then Ends
    else Goes(i + 1, depth)
  }

  function WordEnd(s: string, start: nat, i: nat, depth: nat): nat
    requires start <= i <= |s|
    decreases |s| - i
  {
    if i == |s| then i
    else match StepWord(s, start, i, depth)
      case Ends => i
      case Goes(next, d) => WordEnd(s, start, next, d)
  }

  /** The token that starts at a position which is not white space. */
  function LexemeAt(s: string, i: nat): Lexeme
    requires i < |s|
  {
    if s[i] == '(' then Lexeme(OPEN, i, i + 1)
    else if s[i] == ')' then Lexeme(CLOSE, i, i + 1)
    else if s[i] == ',' then Lexeme(COMMA, i, i + 1)
    else if IsQuoteRune(s[i]) then
      var (text, end) := QuotedFrom(s, i + 1, s[i]);
      Lexeme(Token(Str, text, true), i, end)
    else if IsOperatorRune(s[i]) then
      OperatorEndBounds(s, i);
      Lexeme(Token(Operator, s[i..OperatorEnd(s, i)], false), i, OperatorEnd(s, i))
    else
      WordEndBounds(s, i, i, 0);
      Lexeme(Token(Word, s[i..WordEnd(s, i, i, 0)], false), i, WordEnd(s, i, i, 0))
  }

  lemma {:induction false} OperatorEndBounds(s: string, i: nat)
    requires i <= |s|
    ensures i <= OperatorEnd(s, i) <= |s|
    ensures forall k :: i <= k < OperatorEnd(s, i) ==> IsOperatorRune(s[k])
    ensures OperatorEnd(s, i) < |s| ==> !IsOperatorRune(s[OperatorEnd(s, i)])
    decreases |s| - i
  {
    if i < |s| && IsOperatorRune(s[i]) { OperatorEndBounds(s, i + 1); }
  }

  /** A word stops at the end of input or in front of a rune that ends words. */
  lemma {:induction false} WordEndBounds(s: string, start: nat, i: nat, depth: nat)
    requires start <= i <= |s|
    ensures i <= WordEnd(s, start, i, depth) <= |s|
    ensures WordEnd(s, start, i, depth) < |s| ==> EndsWord(s[WordEnd(s, start, i, depth)])
    ensures i < |s| && StepWord(s, start, i, depth).Goes? ==> i < WordEnd(s, start, i, depth)
    decreases |s| - i
  {
    if i < |s| {
      match StepWord(s, start, i, depth)
      case Ends =>
      case Goes(next, d) => WordEndBounds(s, start, next, d);
    }
  }

  /** Every step of the lexer moves forward, which is why it terminates. */
  lemma LexemeAdvances(s: string, i: nat)
    requires i < |s| && !IsSpace(s[i])
    ensures var l := LexemeAt(s, i); l.start == i < l.end <= |s|
  {
    if IsQuoteRune(s[i]) {
      QuotedFromBounds(s, i + 1, s[i]);
    } else if IsOperatorRune(s[i]) {
      OperatorEndBounds(s, i);
      OperatorEndBounds(s, i + 1);
    } else {
      WordEndBounds(s, i, i, 0);
    }
  }

  function LexFrom(s: string, i: nat): seq<Lexeme>
    requires i <= |s|
    decreases |s| - i
  {
    if i == |s| then []
    else if IsSpace(s[i]) then LexFrom(s, i + 1)
    else
      LexemeAdvances(s, i);
      [LexemeAt(s, i)] + LexFrom(s, LexemeAt(s, i).end)
  }

  function Lexemes(s: string): seq<Lexeme> { LexFrom(s, 0) }

  function TokensOf(ls: seq<Lexeme>): (ts: seq<Token>)
    ensures |ts| == |ls| && forall k :: 0 <= k < |ls| ==> ts[k] == ls[k].token
  {
    seq(|ls|, k requires 0 <= k < |ls| => ls[k].token)
  }

  function LexTokens(s: string): seq<Token> { TokensOf(Lexemes(s)) }

  // ----- The loops of the source --------------------------------------------------

  method Lex(input: string) returns (out: seq<Token>)
    ensures out == LexTokens(input)
  {
    out := [];
    ghost var done: seq<Lexeme> := [];
    var i := 0;
    while i < |input|
      invariant i <= |input|
      invariant done + LexFrom(input, i) == Lexemes(input)
      invariant out == TokensOf(done)
    {
      var r := input[i];
      if IsSpace(r) {
        i := i + 1;
      } else {
        ghost var l := LexemeAt(input, i);
        LexemeAdvances(input, i);
        assert done + LexFrom(input, i) == (done + [l]) + LexFrom(input, l.end);
        done := done + [l];
        if r == '(' {
          out := out + [OPEN];
          i := i + 1;
        } else if r == ')' {
          out := out + [CLOSE];
          i := i + 1;
        } else if r == ',' {
          out := out + [COMMA];
          i := i + 1;
        } else {
          var tok: Token;
          if IsQuoteRune(r) {
            tok, i := LexQuoted(input, i);
          } else if IsOperatorRune(r) {
            tok, i := LexOperator(input, i);
          } else {
            tok, i := LexWord(input, i);
          }
          out := out + [tok];
        }
        assert i == l.end && out == TokensOf(done);
      }
    }
    assert done + [] == done;
  }

  method LexQuoted(s: string, start: nat) returns (tok: Token, next: nat)
    requires start < |s|
    ensures tok == Token(Str, QuotedFrom(s, start + 1, s[start]).0, true)
    ensures next == QuotedFrom(s, start + 1, s[start]).1 && start < next <= |s|
  {
    QuotedFromBounds(s, start + 1, s[start]);
    var quote := s[start];
    var text := "";
    var i := start + 1;
    assert "" + QuotedFrom(s, i, quote).0 == QuotedFrom(s, i, quote).0;
    while i < |s|
      invariant start < i <= |s|
      invariant After(text, QuotedFrom(s, i, quote)) == QuotedFrom(s, start + 1, quote)
    {
      ReadsOne(s, i, quote, text);
      if s[i] == '\\' && i + 1 < |s| {
        text := text + [s[i + 1]];
        i := i + 2;
        continue;
      }
      if s[i] == quote {
        i := i + 1;
        break;
      }
      text := text + [s[i]];
      i := i + 1;
    }
    assert text + "" == text;
    return Token(Str, text, true), i;
  }

  /** What is read in all, when `text` has been read and `p` is what is still to come. */
  ghost function After(text: string, p: (string, nat)): (string, nat) { (text + p.0, p.1) }

  lemma ReadsOne(s: string, i: nat, quote: char, text: string)
    requires i < |s|
    ensures s[i] == '\\' && i + 1 < |s|
            ==> After(text, QuotedFrom(s, i, quote)) == After(text + [s[i + 1]], QuotedFrom(s, i + 2, quote))
    ensures s[i] == quote && !(s[i] == '\\' && i + 1 < |s|)
            ==> After(text, QuotedFrom(s, i, quote)) == (text, i + 1)
    ensures s[i] != quote && !(s[i] == '\\' && i + 1 < |s|)
            ==> After(text, QuotedFrom(s, i, quote)) == After(text + [s[i]], QuotedFrom(s, i + 1, quote))
  {
    if s[i] == '\\' && i + 1 < |s| {
      AppendRune(text, s[i + 1], QuotedFrom(s, i + 2, quote).0);
    } else if s[i] == quote {
      assert text + "" == text;
    } else {
      AppendRune(text, s[i], QuotedFrom(s, i + 1, quote).0);
    }
  }

  lemma AppendRune(text: string, c: char, rest: string)
    ensures text + ([c] + rest) == (text + [c]) + rest
  {
  }

  method LexOperator(s: string, start: nat) returns (tok: Token, next: nat)
    requires start < |s|
    ensures next == OperatorEnd(s, start) && start <= next <= |s|
    ensures tok == Token(Operator, s[start..next], false)
  {
    var i := start;
    while i < |s| && IsOperatorRune(s[i])
      invariant start <= i <= |s|
      invariant OperatorEnd(s, i) == OperatorEnd(s, start)
    {
      i := i + 1;
    }
    return Token(Operator, s[start..i], false), i;
  }

  method LexWord(s: string, start: nat) returns (tok: Token, next: nat)
    requires start < |s|
    ensures next == WordEnd(s, start, start, 0) && start <= next <= |s|
    ensures tok == Token(Word, s[start..next], false)
  {
    var i := start;
    var depth := 0;
    while i < |s|
      invariant start <= i <= |s|
      invariant WordEnd(s, start, i, depth) == WordEnd(s, start, start, 0)
    {
      var step := StepWordAt(s, start, i, depth);
      if step.Ends? {
        break;
      }
      i, depth := step.next, step.depth;
    }
    return Token(Word, s[start..i], false), i;
  }

  method StepWordAt(s: string, start: nat, i: nat, depth: nat) returns (step: WordStep)
    requires start <= i < |s|
    ensures step == StepWord(s, start, i, depth)
  {
    var r := s[i];
    if r == '[' {
      return Goes(i + 1, depth + 1);
    } else if r == ']' && depth > 0 {
      return Goes(i + 1, depth - 1);
    } else if r == '(' && i > start {
      var consumed := ConsumeCall(s, i);
      return if consumed > i then Goes(consumed, depth) else Ends;
    } else if depth == 0 && EndsWord(r) {
      return Ends;
    }
    return Goes(i + 1, depth);
  }

  method ConsumeCall(s: string, open: nat) returns (end: nat)
    requires open < |s| && s[open] == '('
    ensures end == CallEnd(s, open)
  {
    var depth: nat := 0;
    var i := open;
    while i < |s|
      invariant open <= i <= |s|
      invariant i > open <==> depth > 0
      invariant CallFrom(s, i, depth, open) == CallEnd(s, open)
    {
      if s[i] == '(' {
        depth := depth + 1;
        i := i + 1;
      } else if s[i] == ')' {
        depth := depth - 1;
        i := i + 1;
        if depth == 0 {
          assert i == CallEnd(s, open);
          return i;
        }
      } else if IsQuoteRune(s[i]) {
        var _, next := LexQuoted(s, i);
        i := next;
      } else {
        i := i + 1;
      }
    }
    return open;
  }

  // ----- The spans tile the input ---------------------------------------------------

  /** What one span may look like, read off the input alone. */
  ghost predicate WellRead(s: string, l: Lexeme) {
    && l.start < l.end <= |s|
    && !IsSpace(s[l.start])
    && (l.token.quoted <==> IsQuoteRune(s[l.start]))
    && (!l.token.quoted ==> l.token.text == s[l.start..l.end])
    && match l.token.kind
       case Str => l.token.quoted
       case LParen => s[l.start..l.end] == "("
       case RParen => s[l.start..l.end] == ")"
       case Comma => s[l.start..l.end] == ","
       case Operator =>
         && (forall k :: l.start <= k < l.end ==> IsOperatorRune(s[k]))
         && (l.end < |s| ==> !IsOperatorRune(s[l.end]))
       case Word =>
         && !EndsWord(s[l.start])
         && (l.end < |s| ==> EndsWord(s[l.end]))
  }

  ghost predicate Blank(s: string, from: nat, upto: nat) {
    from <= upto <= |s| && forall p :: from <= p < upto ==> IsSpace(s[p])
  }

  /** From `from` on: only white space up to the first span, and so on from each span's end. */
  ghost predicate Tiles(s: string, ls: seq<Lexeme>, from: nat) {
    if ls == [] then Blank(s, from, |s|)
    else Blank(s, from, ls[0].start) && WellRead(s, ls[0]) && Tiles(s, ls[1..], ls[0].end)
  }

  lemma ParenWellRead(s: string, i: nat)
    requires i < |s| && (s[i] == '(' || s[i] == ')' || s[i] == ',')
    ensures WellRead(s, LexemeAt(s, i))
  {
    assert s[i..i + 1] == [s[i]];
  }

  lemma QuotedWellRead(s: string, i: nat)
    requires i < |s| && IsQuoteRune(s[i])
    ensures WellRead(s, LexemeAt(s, i))
  {
    QuotedFromBounds(s, i + 1, s[i]);
  }

  lemma OperatorWellRead(s: string, i: nat)
    requires i < |s| && IsOperatorRune(s[i])
    ensures WellRead(s, LexemeAt(s, i))
  {
    OperatorEndBounds(s, i);
    OperatorEndBounds(s, i + 1);
  }

  lemma WordWellRead(s: string, i: nat)
    requires i < |s| && !IsSpace(s[i]) && s[i] != '(' && s[i] != ')' && s[i] != ','
    requires !IsQuoteRune(s[i]) && !IsOperatorRune(s[i])
    ensures WellRead(s, LexemeAt(s, i))
  {
    WordEndBounds(s, i, i, 0);
  }

  lemma LexemeWellRead(s: string, i: nat)
    requires i < |s| && !IsSpace(s[i])
    ensures WellRead(s, LexemeAt(s, i))
  {
    if s[i] == '(' || s[i] == ')' || s[i] == ',' {
      ParenWellRead(s, i);
    } else if IsQuoteRune(s[i]) {
      QuotedWellRead(s, i);
    } else if IsOperatorRune(s[i]) {
      OperatorWellRead(s, i);
    } else {
      WordWellRead(s, i);
    }
  }

  lemma {:induction false} LexTilesFrom(s: string, i: nat)
    requires i <= |s|
    ensures Tiles(s, LexFrom(s, i), i)
    decreases |s| - i
  {
    if i == |s| {
    } else if IsSpace(s[i]) {
      LexTilesFrom(s, i + 1);
    } else {
      LexemeAdvances(s, i);
      LexemeWellRead(s, i);
      LexTilesFrom(s, LexemeAt(s, i).end);
    }
  }

  /** On every input the token spans are ordered, disjoint and non-empty, everything outside
      them is white space, and each token is read off its own span. */
  lemma {:induction false} LexTiles(s: string)
    ensures Tiles(s, Lexemes(s), 0)
  {
    LexTilesFrom(s, 0);
  }

  // ----- Quoted values --------------------------------------------------------------

  /** One written character of a quoted value. */
  datatype Unit = Plain(c: char) | Escaped(c: char)

  ghost predicate UnitOk(u: Unit, quote: char) { u.Plain? ==> u.c != quote && u.c != '\\' }

  ghost predicate UnitsOk(us: seq<Unit>, quote: char) { forall u :: u in us ==> UnitOk(u, quote) }

  function Written(us: seq<Unit>): string {
    if us == [] then "" else (if us[0].Plain? then [us[0].c] else ['\\', us[0].c]) + Written(us[1..])
  }

  function Meant(us: seq<Unit>): string { if us == [] then "" else [us[0].c] + Meant(us[1..]) }

  /** Any text can be written between quotes, and the lexer reads it back. */
  function Quote(text: string, quote: char): seq<Unit> {
    if text == "" then []
    else [if text[0] == quote || text[0] == '\\' then Escaped(text[0]) else Plain(text[0])] + Quote(text[1..], quote)
  }

  lemma {:induction false} QuoteMeansText(text: string, quote: char)
    ensures UnitsOk(Quote(text, quote), quote) && Meant(Quote(text, quote)) == text
  {
    if text != "" {
      QuoteMeansText(text[1..], quote);
      var us := Quote(text, quote);
      assert us[1..] == Quote(text[1..], quote);
      assert us == [us[0]] + us[1..];
    }
  }

  /** Units followed by the closing quote are read up to and including that quote. */
  lemma {:induction false} QuotedReadsUnits(s: string, i: nat, us: seq<Unit>, quote: char, rest: string)
    requires i <= |s| && s[i..] == Written(us) + [quote] + rest && UnitsOk(us, quote) && quote != '\\'
    ensures QuotedFrom(s, i, quote) == (Meant(us), i + |Written(us)| + 1)
    decreases |us|
  {
    assert s[i] == s[i..][0];
    if us != [] {
      var w := if us[0].Plain? then [us[0].c] else ['\\', us[0].c];
      assert UnitOk(us[0], quote);
      assert s[i..] == w + (Written(us[1..]) + [quote] + rest);
      assert s[i + |w|..] == s[i..][|w|..] == Written(us[1..]) + [quote] + rest;
      if us[0].Escaped? { assert s[i + 1] == s[i..][1]; }
      QuotedReadsUnits(s, i + |w|, us[1..], quote, rest);
    }
  }

  /** Quoting round trip: any text, written with either quote and escapes, is one token of that text. */
  lemma {:induction false} QuoteRoundTrip(text: string, quote: char, rest: string)
    requires IsQuoteRune(quote)
    ensures var written := [quote] + Written(Quote(text, quote)) + [quote];
            LexemeAt(written + rest, 0) == Lexeme(Token(Str, text, true), 0, |written|)
  {
    var us := Quote(text, quote);
    var s := [quote] + Written(us) + [quote] + rest;
    QuoteMeansText(text, quote);
    assert s[1..] == Written(us) + [quote] + rest;
    QuotedReadsUnits(s, 1, us, quote, rest);
  }

  // ----- Calls ------------------------------------------------------------------------

  /** What an argument list is made of. */
  datatype Piece = Rune(c: char) | Value(quote: char, units: seq<Unit>) | Parens(inner: seq<Piece>)

  ghost predicate PieceOk(p: Piece) {
    match p
    case Rune(c) => c != '(' && c != ')' && !IsQuoteRune(c)
    case Value(quote, units) => IsQuoteRune(quote) && UnitsOk(units, quote)
    case Parens(inner) => PiecesOk(inner)
  }

  ghost predicate PiecesOk(ps: seq<Piece>) { forall p :: p in ps ==> PieceOk(p) }

  function Render(p: Piece): string
    decreases p, 0
  {
    match p
    case Rune(c) => [c]
    case Value(quote, units) => [quote] + Written(units) + [quote]
    case Parens(inner) => "(" + RenderAll(inner) + ")"
  }

  function RenderAll(ps: seq<Piece>): string
    decreases ps, 0
  {
    if ps == [] then "" else Render(ps[0]) + RenderAll(ps[1..])
  }

  lemma {:induction false} CallReadsPiece(s: string, i: nat, depth: nat, fail: nat, p: Piece, rest: string)
    requires i <= |s| && PieceOk(p) && depth > 0 && s[i..] == Render(p) + rest
    ensures i + |Render(p)| <= |s| && s[i + |Render(p)|..] == rest
    ensures CallFrom(s, i, depth, fail) == CallFrom(s, i + |Render(p)|, depth, fail)
    decreases p, 0
  {
    var n := |Render(p)|;
    assert s[i + n..] == s[i..][n..] == rest;
    assert s[i] == s[i..][0];
    match p
    case Rune(c) =>
    case Value(quote, units) =>
      assert s[i + 1..] == s[i..][1..] == Written(units) + [quote] + rest;
      QuotedReadsUnits(s, i + 1, units, quote, rest);
    case Parens(inner) =>
      var after := ")" + rest;
      assert s[i + 1..] == s[i..][1..] == RenderAll(inner) + after;
      CallReadsPieces(s, i + 1, depth + 1, fail, inner, after);
      assert s[i + n - 1] == s[i + n - 1..][0];
  }

  lemma {:induction false} CallReadsPieces(s: string, i: nat, depth: nat, fail: nat, ps: seq<Piece>, rest: string)
    requires i <= |s| && PiecesOk(ps) && depth > 0 && s[i..] == RenderAll(ps) + rest
    ensures i + |RenderAll(ps)| <= |s| && s[i + |RenderAll(ps)|..] == rest
    ensures CallFrom(s, i, depth, fail) == CallFrom(s, i + |RenderAll(ps)|, depth, fail)
    decreases ps, 0
  {
    if ps == [] {
      assert RenderAll(ps) + rest == rest;
    } else {
      var p, after := ps[0], RenderAll(ps[1..]) + rest;
      assert s[i..] == Render(p) + after;
      CallReadsPiece(s, i, depth, fail, p, after);
      CallReadsPieces(s, i + |Render(p)|, depth, fail, ps[1..], rest);
    }
  }

  /** Nested argument lists still to be closed, innermost first. */
  function RenderLevels(levels: seq<seq<Piece>>): string {
    if levels == [] then "" else RenderAll(levels[0]) + ")" + RenderLevels(levels[1..])
  }

  ghost predicate LevelsOk(levels: seq<seq<Piece>>) { forall ps :: ps in levels ==> PiecesOk(ps) }

  lemma PrependPiece(p: Piece, levels: seq<seq<Piece>>) returns (more: seq<seq<Piece>>)
    requires |levels| > 0 && PieceOk(p) && LevelsOk(levels)
    ensures |more| == |levels| && LevelsOk(more)
    ensures RenderLevels(more) == Render(p) + RenderLevels(levels)
  {
    var first := [p] + levels[0];
    assert first[1..] == levels[0];
    assert levels[0] in levels;
    assert PiecesOk(first);
    more := [first] + levels[1..];
    assert more[1..] == levels[1..];
    assert RenderLevels(more) == (Render(p) + RenderAll(levels[0])) + ")" + RenderLevels(levels[1..]);
    assert RenderLevels(levels) == RenderAll(levels[0]) + ")" + RenderLevels(levels[1..]);
  }

  lemma {:induction false} QuotedUnitsOf(s: string, i: nat, quote: char) returns (us: seq<Unit>)
    requires i <= |s| && IsQuoteRune(quote) && QuotedFrom(s, i, quote).1 <= |s|
    ensures var end := QuotedFrom(s, i, quote).1;
            UnitsOk(us, quote) && i <= end && (end < |s| ==> s[i..end] == Written(us) + [quote])
    decreases |s| - i
  {
    us := [];
    QuotedFromBounds(s, i, quote);
    var end := QuotedFrom(s, i, quote).1;
    if i == |s| {
    } else if s[i] == '\\' && i + 1 < |s| {
      var rest := QuotedUnitsOf(s, i + 2, quote);
      us := [Escaped(s[i + 1])] + rest;
      assert us[1..] == rest;
      if end < |s| { assert s[i..end] == [s[i], s[i + 1]] + s[i + 2..end]; }
    } else if s[i] == quote {
      assert s[i..end] == [quote];
    } else {
      var rest := QuotedUnitsOf(s, i + 1, quote);
      if end < |s| {
        assert s[i] != '\\';
        us := [Plain(s[i])] + rest;
        assert us[1..] == rest;
        assert s[i..end] == [s[i]] + s[i + 1..end];
      }
    }
  }

  /** The innermost level, wrapped in its parens, becomes a piece of the next one. */
  lemma CloseInner(inner: seq<seq<Piece>>) returns (levels: seq<seq<Piece>>)
    requires |inner| > 1 && LevelsOk(inner)
    ensures |levels| == |inner| - 1 && LevelsOk(levels)
    ensures RenderLevels(levels) == "(" + RenderLevels(inner)
  {
    var p, outer := Parens(inner[0]), inner[1..];
    assert inner[0] in inner;
    assert PieceOk(p);
    levels := PrependPiece(p, outer);
    assert Render(p) + RenderLevels(outer) == "(" + (RenderAll(inner[0]) + ")" + RenderLevels(outer));
  }

  lemma {:induction false} RunesSplit(s: string, i: nat, k: nat, end: nat)
    requires i <= k <= end <= |s|
    ensures s[i..end] == s[i..k] + s[k..end]
  {
  }

  lemma EmptyLevel(outer: seq<seq<Piece>>) returns (levels: seq<seq<Piece>>)
    requires LevelsOk(outer)
    ensures |levels| == |outer| + 1 && LevelsOk(levels) && RenderLevels(levels) == ")" + RenderLevels(outer)
  {
    levels := [[]] + outer;
    assert levels[1..] == outer;
  }

  lemma PrependValue(s: string, i: nat, end: nat, rest: seq<seq<Piece>>) returns (levels: seq<seq<Piece>>)
    requires i < end <= |s| && IsQuoteRune(s[i]) && QuotedFrom(s, i + 1, s[i]).1 < end
    requires |rest| > 0 && LevelsOk(rest) && s[QuotedFrom(s, i + 1, s[i]).1..end] == RenderLevels(rest)
    ensures |levels| == |rest| && LevelsOk(levels) && s[i..end] == RenderLevels(levels)
  {
    var next := QuotedFrom(s, i + 1, s[i]).1;
    var us := QuotedUnitsOf(s, i + 1, s[i]);
    levels := PrependPiece(Value(s[i], us), rest);
    RunesSplit(s, i, next, end);
    RunesSplit(s, i, i + 1, next);
  }

  /** A successful scan has read complete pieces and the closing paren of every level it was in. */
  lemma {:induction false} CallLevels(s: string, i: nat, depth: nat, fail: nat) returns (levels: seq<seq<Piece>>)
    requires i <= |s| && depth > 0 && CallFrom(s, i, depth, fail) != fail
    ensures var end := CallFrom(s, i, depth, fail);
            i <= end <= |s| && |levels| == depth && LevelsOk(levels)
            && s[i..end] == RenderLevels(levels)
    decreases |s| - i
  {
    CallFromBounds(s, i, depth, fail);
    var end := CallFrom(s, i, depth, fail);
    RunesSplit(s, i, i + 1, end);
    assert s[i..i + 1] == [s[i]];
    if s[i] == '(' {
      var inner := CallLevels(s, i + 1, depth + 1, fail);
      levels := CloseInner(inner);
    } else if s[i] == ')' {
      if depth == 1 {
        levels := EmptyLevel([]);
      } else {
        var outer := CallLevels(s, i + 1, depth - 1, fail);
        levels := EmptyLevel(outer);
      }
    } else if IsQuoteRune(s[i]) {
      QuotedFromBounds(s, i + 1, s[i]);
      var rest := CallLevels(s, QuotedFrom(s, i + 1, s[i]).1, depth, fail);
      levels := PrependValue(s, i, end, rest);
    } else {
      var rest := CallLevels(s, i + 1, depth, fail);
      levels := PrependPiece(Rune(s[i]), rest);
    }
  }

  lemma CallInner(s: string, open: nat, end: nat) returns (inner: seq<Piece>)
    requires open < |s| && s[open] == '(' && open < end <= |s| && CallEnd(s, open) == end
    ensures PiecesOk(inner) && s[open..end] == Render(Parens(inner))
  {
    var levels := CallLevels(s, open + 1, 1, open);
    inner := levels[0];
    assert inner in levels;
    assert levels[1..] == [];
    assert RenderLevels(levels) == RenderAll(inner) + ")";
    assert s[open..end] == "(" + s[open + 1..end];
  }

  lemma {:induction false} BalancedIsCall(s: string, open: nat, end: nat, inner: seq<Piece>)
    requires open < end <= |s| && PiecesOk(inner) && s[open..end] == Render(Parens(inner))
    ensures s[open] == '(' && CallEnd(s, open) == end
  {
    assert s[open] == s[open..end][0];
    var after := ")" + s[end..];
    RunesSplit(s, open, end, |s|);
    assert s[open..] == s[open..|s|] && s[end..] == s[end..|s|];
    assert s[open + 1..] == s[open..][1..] == RenderAll(inner) + after;
    CallReadsPieces(s, open + 1, 1, open, inner, after);
    var close := open + 1 + |RenderAll(inner)|;
    assert s[close] == s[close..][0];
  }

  /** consumeCall consumes a prefix if and only if it is one balanced argument list, quotes
      respected; otherwise it returns where it started. */
  lemma CallIsBalanced(s: string, open: nat, end: nat)
    requires open < |s| && s[open] == '(' && open < end <= |s|
    ensures CallEnd(s, open) == end <==> exists inner :: PiecesOk(inner) && s[open..end] == Render(Parens(inner))
  {
    if CallEnd(s, open) == end {
      var inner := CallInner(s, open, end);
      assert PiecesOk(inner) && s[open..end] == Render(Parens(inner));
    }
    if inner :| PiecesOk(inner) && s[open..end] == Render(Parens(inner)) {
      BalancedIsCall(s, open, end, inner);
    }
  }
}
