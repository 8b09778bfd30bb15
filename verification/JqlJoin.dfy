/**
  Joining two JQL texts.  What the lexer reads from a text that leaves nothing open it reads from
  any longer text too, when white space follows, so the laws about joined token lists are laws
  about joined texts.
 */
module JqlJoin {
  import opened Text
  import opened JqlLex
  import opened JqlSplit
  import opened JqlClassify

  // ----- Texts that leave nothing open ---------------------------------------------------------------

  /** The quoted value is ended by its quote and not by the end of input. */
  predicate QuoteCloses(s: string, i: nat, quote: char)
    requires i <= |s|
    decreases |s| - i
  {
    i < |s| && (
      if s[i] == '\\' && i + 1 < |s| then QuoteCloses(s, i + 2, quote)
      else s[i] == quote || QuoteCloses(s, i + 1, quote))
  }

  /** No parenthesis inside the word is left unbalanced, and no bracket is open at the end of input. */
  predicate WordCloses(s: string, start: nat, i: nat, depth: nat)
    requires start <= i <= |s|
    decreases |s| - i
  {
    if i == |s| then depth == 0
    else
      && (s[i] == '(' && i > start ==> CallEnd(s, i) > i)
      && match StepWord(s, start, i, depth)
         case Ends => true
         case Goes(next, d) => WordCloses(s, start, next, d)
  }

  predicate LexemeCloses(s: string, i: nat)
    requires i < |s|
  {
    if s[i] == '(' || s[i] == ')' || s[i] == ',' then true
    else if IsQuoteRune(s[i]) then QuoteCloses(s, i + 1, s[i])
    else IsOperatorRune(s[i]) || WordCloses(s, i, i, 0)
  }

  predicate ClosesFrom(s: string, i: nat)
    requires i <= |s|
    decreases |s| - i
  {
    if i == |s| then true
    else if IsSpace(s[i]) then ClosesFrom(s, i + 1)
    else
      LexemeAdvances(s, i);
      LexemeCloses(s, i) && ClosesFrom(s, LexemeAt(s, i).end)
  }

  /** Every quote, argument list and bracket that the lexer enters is closed. */
  predicate LeavesNothingOpen(s: string) { ClosesFrom(s, 0) }

  // ----- Reading on ------------------------------------------------------------------------------------

  /** Nothing more, or white space first. */
  predicate Follows(t: string) { t == "" || IsSpace(t[0]) }

  lemma {:induction false} QuoteExtends(s: string, t: string, i: nat, quote: char)
    requires i <= |s| && IsQuoteRune(quote) && QuoteCloses(s, i, quote)
    ensures QuotedFrom(s + t, i, quote) == QuotedFrom(s, i, quote)
    decreases |s| - i
  {
    assert (s + t)[i] == s[i];
    if s[i] == '\\' && i + 1 < |s| {
      assert (s + t)[i + 1] == s[i + 1];
      QuoteExtends(s, t, i + 2, quote);
    } else if s[i] != quote {
      QuoteExtends(s, t, i + 1, quote);
    }
  }

  lemma {:induction false} EndedByItsQuote(s: string, i: nat, quote: char)
    requires i <= |s| && QuotedFrom(s, i, quote).1 < |s|
    ensures QuoteCloses(s, i, quote)
    decreases |s| - i
  {
    if s[i] == '\\' && i + 1 < |s| {
      EndedByItsQuote(s, i + 2, quote);
    } else if s[i] != quote {
      EndedByItsQuote(s, i + 1, quote);
    }
  }

  lemma {:induction false} CallExtends(s: string, t: string, i: nat, depth: nat, fail: nat)
    requires i <= |s| && CallFrom(s, i, depth, fail) != fail
    ensures CallFrom(s + t, i, depth, fail) == CallFrom(s, i, depth, fail)
    decreases |s| - i
  {
    assert (s + t)[i] == s[i];
    if s[i] == '(' {
      CallExtends(s, t, i + 1, depth + 1, fail);
    } else if s[i] == ')' {
      if depth > 1 { CallExtends(s, t, i + 1, depth - 1, fail); }
    } else if IsQuoteRune(s[i]) {
      QuotedFromBounds(s, i + 1, s[i]);
      EndedByItsQuote(s, i + 1, s[i]);
      QuoteExtends(s, t, i + 1, s[i]);
      CallExtends(s, t, QuotedFrom(s, i + 1, s[i]).1, depth, fail);
    } else {
      CallExtends(s, t, i + 1, depth, fail);
    }
  }

  lemma StepExtends(s: string, t: string, start: nat, i: nat, depth: nat)
    requires start <= i < |s| && (s[i] == '(' && i > start ==> CallEnd(s, i) > i)
    ensures StepWord(s + t, start, i, depth) == StepWord(s, start, i, depth)
  {
    assert (s + t)[i] == s[i];
    if s[i] == '(' && i > start { CallExtends(s, t, i, 0, i); }
  }

  lemma {:induction false} WordExtends(s: string, t: string, start: nat, i: nat, depth: nat)
    requires start <= i <= |s| && Follows(t) && WordCloses(s, start, i, depth)
    ensures WordEnd(s + t, start, i, depth) == WordEnd(s, start, i, depth)
    decreases |s| - i
  {
    if i < |s| {
      StepExtends(s, t, start, i, depth);
      match StepWord(s, start, i, depth)
      case Ends =>
      case Goes(next, d) => WordExtends(s, t, start, next, d);
    } else if t != "" {
      assert (s + t)[i] == t[0];
    }
  }

  lemma {:induction false} OperatorExtends(s: string, t: string, i: nat)
    requires i <= |s| && Follows(t)
    ensures OperatorEnd(s + t, i) == OperatorEnd(s, i)
    decreases |s| - i
  {
    if i < |s| {
      assert (s + t)[i] == s[i];
      if IsOperatorRune(s[i]) { OperatorExtends(s, t, i + 1); }
    } else if t != "" {
      assert (s + t)[i] == t[0];
    }
  }

  lemma SliceExtends(s: string, t: string, i: nat, j: nat)
    requires i <= j <= |s|
    ensures (s + t)[i..j] == s[i..j]
  {
  }

  lemma LexemeExtends(s: string, t: string, i: nat)
    requires i < |s| && !IsSpace(s[i]) && LexemeCloses(s, i) && Follows(t)
    ensures LexemeAt(s + t, i) == LexemeAt(s, i)
  {
    assert (s + t)[i] == s[i];
    if s[i] == '(' || s[i] == ')' || s[i] == ',' {
    } else if IsQuoteRune(s[i]) {
      QuoteExtends(s, t, i + 1, s[i]);
    } else if IsOperatorRune(s[i]) {
      OperatorExtends(s, t, i);
      OperatorEndBounds(s, i);
      SliceExtends(s, t, i, OperatorEnd(s, i));
    } else {
      WordExtends(s, t, i, i, 0);
      WordEndBounds(s, i, i, 0);
      SliceExtends(s, t, i, WordEnd(s, i, i, 0));
    }
  }

  /** The tokens read from a position on. */
  function Reads(s: string, i: nat): seq<Token>
    requires i <= |s|
    decreases |s| - i
  {
    if i == |s| then []
    else if IsSpace(s[i]) then Reads(s, i + 1)
    else
      LexemeAdvances(s, i);
      [LexemeAt(s, i).token] + Reads(s, LexemeAt(s, i).end)
  }

  lemma {:induction false} OneRead(s: string, i: nat, token: Token, next: nat)
    requires i < |s| && !IsSpace(s[i]) && LexemeAt(s, i) == Lexeme(token, i, next) && next <= |s|
    ensures Reads(s, i) == [token] + Reads(s, next)
  {
    LexemeAdvances(s, i);
  }

  lemma TokensOneMore(l: Lexeme, ls: seq<Lexeme>)
    ensures TokensOf([l] + ls) == [l.token] + TokensOf(ls)
  {
  }

  lemma {:induction false} ReadsAreTokens(s: string, i: nat)
    requires i <= |s|
    ensures TokensOf(LexFrom(s, i)) == Reads(s, i)
    decreases |s| - i
  {
    if i < |s| {
      if IsSpace(s[i]) {
        ReadsAreTokens(s, i + 1);
      } else {
        LexemeAdvances(s, i);
        ReadsAreTokens(s, LexemeAt(s, i).end);
        TokensOneMore(LexemeAt(s, i), LexFrom(s, LexemeAt(s, i).end));
      }
    }
  }

  lemma Associates<T>(a: seq<T>, b: seq<T>, c: seq<T>)
    ensures a + (b + c) == (a + b) + c
  {
  }

  /** What is read from the longer text is what was read before, and then the rest. */
  lemma {:induction false} ReadsExtend(s: string, t: string, i: nat)
    requires i <= |s| && Follows(t) && ClosesFrom(s, i)
    ensures Reads(s + t, i) == Reads(s, i) + Reads(s + t, |s|)
    decreases |s| - i
  {
    if i < |s| {
      assert (s + t)[i] == s[i];
      if IsSpace(s[i]) {
        ReadsExtend(s, t, i + 1);
      } else {
        LexemeAdvances(s, i);
        LexemeExtends(s, t, i);
        var l := LexemeAt(s, i);
        ReadsExtend(s, t, l.end);
        Associates([l.token], Reads(s, l.end), Reads(s + t, |s|));
      }
    }
  }

  // ----- Reading from further in ---------------------------------------------------------------------

  lemma {:induction false} QuoteShifts(p: string, s: string, i: nat, quote: char)
    requires i <= |s|
    ensures var (text, end) := QuotedFrom(s, i, quote); QuotedFrom(p + s, |p| + i, quote) == (text, |p| + end)
    decreases |s| - i
  {
    if i < |s| {
      assert (p + s)[|p| + i] == s[i];
      if s[i] == '\\' && i + 1 < |s| {
        assert (p + s)[|p| + i + 1] == s[i + 1];
        QuoteShifts(p, s, i + 2, quote);
      } else if s[i] != quote {
        QuoteShifts(p, s, i + 1, quote);
      }
    }
  }

  lemma {:induction false} CallShifts(p: string, s: string, i: nat, depth: nat, fail: nat)
    requires i <= |s|
    ensures CallFrom(p + s, |p| + i, depth, |p| + fail) == |p| + CallFrom(s, i, depth, fail)
    decreases |s| - i
  {
    if i < |s| {
      assert (p + s)[|p| + i] == s[i];
      if s[i] == '(' {
        CallShifts(p, s, i + 1, depth + 1, fail);
      } else if s[i] == ')' {
        if depth > 1 { CallShifts(p, s, i + 1, depth - 1, fail); }
      } else if IsQuoteRune(s[i]) {
        QuotedFromBounds(s, i + 1, s[i]);
        QuoteShifts(p, s, i + 1, s[i]);
        CallShifts(p, s, QuotedFrom(s, i + 1, s[i]).1, depth, fail);
      } else {
        CallShifts(p, s, i + 1, depth, fail);
      }
    }
  }

  function Shifted(n: nat, w: WordStep): WordStep {
    match w case Ends => Ends case Goes(next, depth) => Goes(n + next, depth)
  }

  lemma StepShifts(p: string, s: string, start: nat, i: nat, depth: nat)
    requires start <= i < |s|
    ensures StepWord(p + s, |p| + start, |p| + i, depth) == Shifted(|p|, StepWord(s, start, i, depth))
  {
    assert (p + s)[|p| + i] == s[i];
    if s[i] == '(' && i > start { CallShifts(p, s, i, 0, i); }
  }

  lemma {:induction false} WordShifts(p: string, s: string, start: nat, i: nat, depth: nat)
    requires start <= i <= |s|
    ensures WordEnd(p + s, |p| + start, |p| + i, depth) == |p| + WordEnd(s, start, i, depth)
    decreases |s| - i
  {
    if i < |s| {
      StepShifts(p, s, start, i, depth);
      match StepWord(s, start, i, depth)
      case Ends =>
      case Goes(next, d) => WordShifts(p, s, start, next, d);
    }
  }

  lemma {:induction false} OperatorShifts(p: string, s: string, i: nat)
    requires i <= |s|
    ensures OperatorEnd(p + s, |p| + i) == |p| + OperatorEnd(s, i)
    decreases |s| - i
  {
    if i < |s| {
      assert (p + s)[|p| + i] == s[i];
      if IsOperatorRune(s[i]) { OperatorShifts(p, s, i + 1); }
    }
  }

  lemma SliceShifts(p: string, s: string, i: nat, j: nat)
    requires i <= j <= |s|
    ensures (p + s)[|p| + i..|p| + j] == s[i..j]
  {
  }

  function Moved(n: nat, l: Lexeme): Lexeme { Lexeme(l.token, n + l.start, n + l.end) }

  lemma LexemeShifts(p: string, s: string, i: nat)
    requires i < |s| && !IsSpace(s[i])
    ensures LexemeAt(p + s, |p| + i) == Moved(|p|, LexemeAt(s, i))
  {
    assert (p + s)[|p| + i] == s[i];
    if s[i] == '(' || s[i] == ')' || s[i] == ',' {
    } else if IsQuoteRune(s[i]) {
      QuoteShifts(p, s, i + 1, s[i]);
    } else if IsOperatorRune(s[i]) {
      OperatorShifts(p, s, i);
      OperatorEndBounds(s, i);
      SliceShifts(p, s, i, OperatorEnd(s, i));
    } else {
      WordShifts(p, s, i, i, 0);
      WordEndBounds(s, i, i, 0);
      SliceShifts(p, s, i, WordEnd(s, i, i, 0));
    }
  }

  lemma BothStartOne(p: string, s: string, i: nat) returns (token: Token, next: nat)
    requires i < |s| && !IsSpace(s[i])
    ensures i < next <= |s| && LexemeAt(s, i) == Lexeme(token, i, next)
    ensures (p + s)[|p| + i] == s[i] && LexemeAt(p + s, |p| + i) == Lexeme(token, |p| + i, |p| + next)
  {
    LexemeAdvances(s, i);
    LexemeShifts(p, s, i);
    token, next := LexemeAt(s, i).token, LexemeAt(s, i).end;
  }

  lemma {:induction false} BothReadOne(p: string, s: string, i: nat) returns (token: Token, next: nat)
    requires i < |s| && !IsSpace(s[i])
    ensures i < next <= |s| && Reads(s, i) == [token] + Reads(s, next)
    ensures Reads(p + s, |p| + i) == [token] + Reads(p + s, |p| + next)
  {
    token, next := BothStartOne(p, s, i);
    OneRead(s, i, token, next);
    OneRead(p + s, |p| + i, token, |p| + next);
  }

  /** Reading from further in gives the same tokens. */
  lemma {:induction false} ReadsShift(p: string, s: string, i: nat)
    requires i <= |s|
    ensures Reads(p + s, |p| + i) == Reads(s, i)
    decreases |s| - i
  {
    if i < |s| {
      assert (p + s)[|p| + i] == s[i];
      if IsSpace(s[i]) {
        ReadsShift(p, s, i + 1);
      } else {
        var token, next := BothReadOne(p, s, i);
        ReadsShift(p, s, next);
      }
    }
  }

  /** The tokens of a text that leaves nothing open, followed by white space and more. */
  lemma TokensOfJoin(s: string, t: string)
    requires LeavesNothingOpen(s) && Follows(t)
    ensures LexTokens(s + t) == LexTokens(s) + LexTokens(t)
  {
    ReadsAreTokens(s + t, 0);
    ReadsAreTokens(s, 0);
    ReadsAreTokens(t, 0);
    ReadsExtend(s, t, 0);
    ReadsShift(s, t, 0);
  }

  predicate Blanks(w: string) { forall k :: 0 <= k < |w| ==> IsSpace(w[k]) }

  lemma {:induction false} BlanksGiveNothing(w: string, t: string)
    requires Blanks(w)
    ensures LexTokens(w + t) == LexTokens(t)
    decreases |w|
  {
    if w == "" {
      assert w + t == t;
    } else {
      var rest := w[1..] + t;
      assert w + t == [w[0]] + rest;
      ReadsAreTokens(w + t, 0);
      ReadsAreTokens(rest, 0);
      ReadsShift([w[0]], rest, 0);
      BlanksGiveNothing(w[1..], t);
    }
  }

  /** A word of runes that neither end words nor open anything. */
  predicate IsPlainWord(w: string) {
    w != "" && forall k :: 0 <= k < |w| ==> !EndsWord(w[k]) && !IsQuoteRune(w[k]) && w[k] != '[' && w[k] != ']'
  }

  lemma {:induction false} PlainWordEnds(w: string, i: nat)
    requires IsPlainWord(w) && i <= |w|
    ensures WordEnd(w, 0, i, 0) == |w| && WordCloses(w, 0, i, 0)
    decreases |w| - i
  {
    if i < |w| {
      assert w[i] != '(';
      PlainWordEnds(w, i + 1);
    }
  }

  lemma PlainWord(w: string)
    requires IsPlainWord(w)
    ensures LeavesNothingOpen(w) && LexTokens(w) == [Token(Word, w, false)]
  {
    PlainWordEnds(w, 0);
    assert w[0] != '(' && w[0] != ')' && w[0] != ',';
    assert LexemeAt(w, 0) == Lexeme(Token(Word, w[0..|w|], false), 0, |w|) && w[0..|w|] == w;
    ReadsAreTokens(w, 0);
    assert Reads(w, |w|) == [];
  }

  // ----- Trimming --------------------------------------------------------------------------------------

  /** Neither end is white space. */
  predicate Trimmed(s: string) { s != "" && !IsSpace(s[0]) && !IsSpace(s[|s| - 1]) }

  lemma {:induction false} TrimLeftSplits(s: string) returns (w: string)
    ensures s == w + TrimSpaceLeft(s) && Blanks(w)
    ensures TrimSpaceLeft(s) != "" ==> !IsSpace(TrimSpaceLeft(s)[0])
  {
    w := "";
    if s != "" && IsSpace(s[0]) {
      var rest := TrimLeftSplits(s[1..]);
      w := [s[0]] + rest;
      assert s == [s[0]] + s[1..];
    }
  }

  lemma {:induction false} TrimRightSplits(s: string) returns (w: string)
    ensures s == TrimSpaceRight(s) + w && Blanks(w)
    ensures TrimSpaceRight(s) != "" ==> !IsSpace(TrimSpaceRight(s)[|TrimSpaceRight(s)| - 1])
  {
    w := "";
    if s != "" && IsSpace(s[|s| - 1]) {
      var rest := TrimRightSplits(s[..|s| - 1]);
      w := rest + [s[|s| - 1]];
      assert s == s[..|s| - 1] + [s[|s| - 1]];
    }
  }

  /** A text is its trimmed form with white space around it. */
  lemma TrimSplits(s: string) returns (left: string, right: string)
    ensures s == left + TrimSpace(s) + right && Blanks(left) && Blanks(right)
    ensures TrimSpace(s) != "" ==> Trimmed(TrimSpace(s))
  {
    left := TrimLeftSplits(s);
    right := TrimRightSplits(TrimSpaceLeft(s));
    if TrimSpace(s) != "" { assert TrimSpace(s)[0] == TrimSpaceLeft(s)[0]; }
  }

  lemma {:induction false} TrimLeftDrops(w: string, s: string)
    requires Blanks(w) && (s == "" || !IsSpace(s[0]))
    ensures TrimSpaceLeft(w + s) == s
    decreases |w|
  {
    if w == "" {
      assert w + s == s;
    } else {
      assert (w + s)[1..] == w[1..] + s;
      TrimLeftDrops(w[1..], s);
    }
  }

  lemma {:induction false} TrimRightDrops(s: string, w: string)
    requires Blanks(w) && (s == "" || !IsSpace(s[|s| - 1]))
    ensures TrimSpaceRight(s + w) == s
    decreases |w|
  {
    if w == "" {
      assert s + w == s;
    } else {
      assert (s + w)[..|s + w| - 1] == s + w[..|w| - 1];
      TrimRightDrops(s, w[..|w| - 1]);
    }
  }

  /** ... and nothing else is. */
  lemma TrimmedForm(left: string, s: string, right: string)
    requires Blanks(left) && Blanks(right) && Trimmed(s)
    ensures TrimSpace(left + s + right) == s
  {
    assert left + s + right == left + (s + right);
    TrimLeftDrops(left, s + right);
    TrimRightDrops(s, right);
  }

  // ----- Joined texts ----------------------------------------------------------------------------------

  lemma WordBetween(a: string, blanks: string, word: string, more: string, b: string)
    requires LeavesNothingOpen(a) && IsPlainWord(word)
    requires blanks != "" && Blanks(blanks) && more != "" && Blanks(more)
    ensures LexTokens(a + (blanks + (word + (more + b)))) == LexTokens(a) + [Token(Word, word, false)] + LexTokens(b)
  {
    TokensOfJoin(a, blanks + (word + (more + b)));
    BlanksGiveNothing(blanks, word + (more + b));
    PlainWord(word);
    TokensOfJoin(word, more + b);
    BlanksGiveNothing(more, b);
  }

  /** Two texts around a word, each trimmed, give their tokens around the word's. */
  lemma JoinedTokens(a: string, word: string, b: string)
    requires LeavesNothingOpen(TrimSpace(a)) && IsPlainWord(word) && TrimSpace(a) != "" && TrimSpace(b) != ""
    ensures LexTokens(TrimSpace(a + " " + word + " " + b))
         == LexTokens(TrimSpace(a)) + [Token(Word, word, false)] + LexTokens(TrimSpace(b))
    ensures TrimSpace(a + " " + word + " " + b) != ""
  {
    var la, ra := TrimSplits(a);
    var lb, rb := TrimSplits(b);
    var ta, tb := TrimSpace(a), TrimSpace(b);
    var middle := ta + ((ra + " ") + (word + ((" " + lb) + tb)));
    assert middle[0] == ta[0] && middle[|middle| - 1] == tb[|tb| - 1];
    assert a + " " + word + " " + b == la + middle + rb;
    TrimmedForm(la, middle, rb);
    WordBetween(ta, ra + " ", word, " " + lb, tb);
  }

  /** The verdict on a saved query's text. */
  ghost function TextVerdict(text: string): Expressibility {
    if TrimSpace(text) == "" then NotExpressible else Classified(LexTokens(TrimSpace(text))).verdict
  }

  lemma NoTextNoTokens(text: string)
    requires LexTokens(TrimSpace(text)) != []
    ensures TrimSpace(text) != ""
  {
  }

  /** Joining two queries' texts with AND gives the worse of their verdicts, if the first leaves nothing
      open and has no sort of its own. */
  lemma AndOfTexts(a: string, word: string, b: string)
    requires LeavesNothingOpen(TrimSpace(a)) && IsPlainWord(word) && IsAnd(Token(Word, word, false))
    requires var first, second := LexTokens(TrimSpace(a)), LexTokens(TrimSpace(b));
      && first != [] && second != [] && Detached(first) && Body(first) == first
      && SplitClauses(first) != [] && SplitClauses(Body(second)) != [] && !SplitClauses(Body(second))[0].joinedByOR
    ensures TextVerdict(a + " " + word + " " + b) == Worse(TextVerdict(a), TextVerdict(b))
  {
    NoTextNoTokens(a);
    NoTextNoTokens(b);
    JoinedTokens(a, word, b);
    AndIsWorse(LexTokens(TrimSpace(a)), Token(Word, word, false), LexTokens(TrimSpace(b)));
  }

  /** The clauses of a saved query's text. */
  ghost function TextClauses(text: string): seq<Clause> {
    if TrimSpace(text) == "" then [] else Classified(LexTokens(TrimSpace(text))).clauses
  }

  /** Joining them with OR does too, unless the clauses that meet are on different fields. */
  lemma OrOfTexts(a: string, word: string, b: string)
    requires LeavesNothingOpen(TrimSpace(a)) && IsPlainWord(word) && IsOr(Token(Word, word, false))
    requires var first, second := LexTokens(TrimSpace(a)), LexTokens(TrimSpace(b));
      && first != [] && second != [] && Detached(first) && Body(first) == first
      && SplitClauses(first) != [] && Body(second) != [] && BeginsClause(Body(second)[0])
    ensures TextClauses(a) != [] && TextClauses(b) != []
    ensures TextVerdict(a + " " + word + " " + b) ==
              if TextClauses(a)[|TextClauses(a)| - 1].field != TextClauses(b)[0].field then NotExpressible
              else Worse(TextVerdict(a), TextVerdict(b))
  {
    NoTextNoTokens(a);
    NoTextNoTokens(b);
    JoinedTokens(a, word, b);
    OrNeedsOneField(LexTokens(TrimSpace(a)), Token(Word, word, false), LexTokens(TrimSpace(b)));
  }
}
