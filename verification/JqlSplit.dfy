/**
  The clause splitter of internal/assess/jql/classify.go: a token stream cut into
  clauses at its top-level connectives.
 */
module JqlSplit {
  import opened Text
  import opened JqlLex

  predicate IsConnective(t: Token) { !t.quoted && ToUpper(t.text) in {"AND", "OR", "&&", "||"} }

  predicate IsOR(t: Token) { EqualFold(t.text, "OR") || t.text == "||" }

  predicate IsNot(t: Token) { !t.quoted && (EqualFold(t.text, "NOT") || t.text == "!") }

  predicate IsIN(t: Token) { !t.quoted && EqualFold(t.text, "IN") }

  predicate IsParen(t: Token) { t.kind.LParen? || t.kind.RParen? }

  /** One clause, how it was reached, and whether a NOT or a parenthesis touched it. */
  datatype Group = Group(tokens: seq<Token>, joinedByOR: bool, negated: bool, grouped: bool)

  datatype Splitting = Splitting(groups: seq<Group>, cur: Group, depth: int, valueList: bool)

  function FreshGroup(nextOR: bool, nextNeg: bool): Group { Group([], nextOR, nextNeg, false) }

  const NEW := Splitting([], FreshGroup(false, false), 0, false)

  function Flush(s: Splitting, nextOR: bool, nextNeg: bool): Splitting {
    s.(groups := if s.cur.tokens != [] then s.groups + [s.cur] else s.groups, cur := FreshGroup(nextOR, nextNeg))
  }

  function Feed(s: Splitting, t: Token): Splitting {
    if t.kind.LParen? then
      s.(depth := s.depth + 1, cur := s.cur.(grouped := s.cur.grouped || !s.valueList))
    else if t.kind.RParen? then
      s.(depth := s.depth - 1, valueList := s.valueList && s.depth - 1 != 0)
    else if s.depth == 0 && IsConnective(t) then Flush(s, IsOR(t), false)
    else if s.depth == 0 && IsNot(t) && s.cur.tokens == [] then s.(cur := s.cur.(negated := true))
    else
      s.(valueList := s.valueList || (s.depth == 0 && IsIN(t)),
         cur := s.cur.(tokens := s.cur.tokens + [t]))
  }

  function FeedAll(s: Splitting, ts: seq<Token>): Splitting {
    if ts == [] then s else Feed(FeedAll(s, ts[..|ts| - 1]), ts[|ts| - 1])
  }

  function ClausesFrom(s: Splitting, ts: seq<Token>): seq<Group> { Flush(FeedAll(s, ts), false, false).groups }

  function SplitClauses(ts: seq<Token>): seq<Group> { ClausesFrom(NEW, ts) }

  class Splitter {
    var groups: seq<Group>
    var cur: Group
    var depth: int
    var valueList: bool

    ghost function Contents(): Splitting
      reads this
    {
      Splitting(groups, cur, depth, valueList)
    }

    constructor ()
      ensures Contents() == NEW
    {
      groups, cur, depth, valueList := [], FreshGroup(false, false), 0, false;
    }

    method FlushClause(nextOR: bool, nextNeg: bool)
      modifies this
      ensures Contents() == Flush(old(Contents()), nextOR, nextNeg)
    {
      if |cur.tokens| > 0 {
        groups := groups + [cur];
      }
      cur := FreshGroup(nextOR, nextNeg);
    }

    method FeedToken(t: Token)
      modifies this
      ensures Contents() == Feed(old(Contents()), t)
    {
      if t.kind.LParen? {
        OpenParen();
      } else if t.kind.RParen? {
        CloseParen();
      } else if depth == 0 && IsConnective(t) {
        FlushClause(IsOR(t), false);
      } else if depth == 0 && IsNot(t) && |cur.tokens| == 0 {
        cur := cur.(negated := true);
      } else {
        AppendToken(t);
      }
    }

    method OpenParen()
      modifies this
      ensures Contents() == old(Contents()).(
        depth := old(depth) + 1, cur := old(cur).(grouped := old(cur).grouped || !old(valueList)))
    {
      depth := depth + 1;
      cur := cur.(grouped := cur.grouped || !valueList);
    }

    method CloseParen()
      modifies this
      ensures Contents() == old(Contents()).(
        depth := old(depth) - 1, valueList := old(valueList) && old(depth) - 1 != 0)
    {
      depth := depth - 1;
      valueList := valueList && depth != 0;
    }

    method AppendToken(t: Token)
      modifies this
      ensures Contents() == old(Contents()).(
        valueList := old(valueList) || (old(depth) == 0 && IsIN(t)),
        cur := old(cur).(tokens := old(cur).tokens + [t]))
    {
      valueList := valueList || (depth == 0 && IsIN(t));
      cur := cur.(tokens := cur.tokens + [t]);
    }
  }

  method Split(tokens: seq<Token>) returns (groups: seq<Group>)
    ensures groups == SplitClauses(tokens)
  {
    var s := new Splitter();
    for i := 0 to |tokens|
      invariant s.Contents() == FeedAll(NEW, tokens[..i])
    {
      assert tokens[..i + 1][..i] == tokens[..i];
      s.FeedToken(tokens[i]);
    }
    assert tokens[..|tokens|] == tokens;
    s.FlushClause(false, false);
    return s.groups;
  }

  // ----- Which tokens survive ---------------------------------------------------------

  /** Opening minus closing parentheses. */
  function Depth(ts: seq<Token>): int {
    if ts == [] then 0
    else
      var last := ts[|ts| - 1];
      Depth(ts[..|ts| - 1]) + (if last.kind.LParen? then 1 else if last.kind.RParen? then -1 else 0)
  }

  /** ts[i] is a connective that no parenthesis encloses. */
  ghost predicate CutAt(ts: seq<Token>, i: nat)
    requires i < |ts|
  {
    !IsParen(ts[i]) && Depth(ts[..i]) == 0 && IsConnective(ts[i])
  }

  /** ts[i] is a NOT outside parentheses, connectives aside. */
  ghost predicate TopNotAt(ts: seq<Token>, i: nat)
    requires i < |ts|
  {
    !IsParen(ts[i]) && Depth(ts[..i]) == 0 && !IsConnective(ts[i]) && IsNot(ts[i])
  }

  /** c is the start or just past a cut, and only parentheses and top-level NOTs lie in [c, i). */
  ghost predicate LeadsFrom(ts: seq<Token>, c: nat, i: nat)
    requires c <= i <= |ts|
  {
    (c == 0 || CutAt(ts, c - 1)) && forall j :: c <= j < i ==> IsParen(ts[j]) || TopNotAt(ts, j)
  }

  /** Nothing but parentheses and top-level NOTs since the start or the last cut. */
  ghost predicate LeadsClause(ts: seq<Token>, i: nat)
    requires i <= |ts|
  {
    exists c: nat :: c <= i && LeadsFrom(ts, c, i)
  }

  /** ts[i] is part of some clause: it is not a parenthesis, a cut, or a clause-leading NOT. */
  ghost predicate Kept(ts: seq<Token>, i: nat)
    requires i < |ts|
  {
    !IsParen(ts[i]) && !CutAt(ts, i) && !(TopNotAt(ts, i) && LeadsClause(ts, i))
  }

  ghost function KeptTokens(ts: seq<Token>, n: nat): seq<Token>
    requires n <= |ts|
  {
    if n == 0 then [] else KeptTokens(ts, n - 1) + (if Kept(ts, n - 1) then [ts[n - 1]] else [])
  }

  ghost function TokensIn(gs: seq<Group>): seq<Token> {
    if gs == [] then [] else TokensIn(gs[..|gs| - 1]) + gs[|gs| - 1].tokens
  }

  /** IN was appended at top level at i, and no ')' in between came back to depth 0. */
  ghost predicate OpenListSince(ts: seq<Token>, n: nat, i: nat)
    requires i < n <= |ts|
  {
    && !IsParen(ts[i]) && Depth(ts[..i]) == 0 && IsIN(ts[i])
    && forall j :: i < j < n ==> !(ts[j].kind.RParen? && Depth(ts[..j + 1]) == 0)
  }

  ghost predicate InOpenList(ts: seq<Token>, n: nat)
    requires n <= |ts|
  {
    exists i: nat :: i < n && OpenListSince(ts, n, i)
  }

  lemma DepthStep(ts: seq<Token>, n: nat)
    requires n < |ts|
    ensures Depth(ts[..n + 1]) == Depth(ts[..n]) +
              (if ts[n].kind.LParen? then 1 else if ts[n].kind.RParen? then -1 else 0)
  {
    assert ts[..n + 1][..n] == ts[..n];
  }

  lemma {:induction false} FeedStep(s: Splitting, ts: seq<Token>, n: nat)
    requires n < |ts|
    ensures FeedAll(s, ts[..n + 1]) == Feed(FeedAll(s, ts[..n]), ts[n])
  {
    assert ts[..n + 1][..n] == ts[..n];
  }

  lemma LeadsStep(ts: seq<Token>, n: nat)
    requires n < |ts|
    ensures LeadsClause(ts, n + 1) <==>
              CutAt(ts, n) || (LeadsClause(ts, n) && (IsParen(ts[n]) || TopNotAt(ts, n)))
  {
    if CutAt(ts, n) {
      assert LeadsFrom(ts, n + 1, n + 1);
    }
    var m := n + 1;
    if c: nat :| c <= m && LeadsFrom(ts, c, m) {
      if c <= n { assert LeadsFrom(ts, c, n); }
    }
    if c: nat :| c <= n && LeadsFrom(ts, c, n) {
      if IsParen(ts[n]) || TopNotAt(ts, n) { assert LeadsFrom(ts, c, n + 1); }
    }
  }

  lemma OpenListStep(ts: seq<Token>, n: nat)
    requires n < |ts|
    ensures InOpenList(ts, n + 1) <==>
              || (!IsParen(ts[n]) && Depth(ts[..n]) == 0 && IsIN(ts[n]))
              || (InOpenList(ts, n) && !(ts[n].kind.RParen? && Depth(ts[..n + 1]) == 0))
  {
    var m := n + 1;
    if i: nat :| i < m && OpenListSince(ts, m, i) {
      if i < n { assert OpenListSince(ts, n, i); }
    }
    if !IsParen(ts[n]) && Depth(ts[..n]) == 0 && IsIN(ts[n]) {
      assert OpenListSince(ts, n + 1, n);
    }
    if i: nat :| i < n && OpenListSince(ts, n, i) {
      if !(ts[n].kind.RParen? && Depth(ts[..n + 1]) == 0) { assert OpenListSince(ts, n + 1, i); }
    }
  }

  lemma {:induction false} TokensInMore(gs: seq<Group>, g: Group)
    ensures TokensIn(gs + [g]) == TokensIn(gs) + g.tokens
  {
    assert (gs + [g])[..|gs|] == gs;
  }

  /** Everything cut off so far and the clause in progress. */
  ghost function Pending(s: Splitting): seq<Token> { TokensIn(s.groups) + s.cur.tokens }

  /** What the splitter knows after n tokens, in terms of the tokens alone. */
  ghost predicate Tracks(s: Splitting, ts: seq<Token>, n: nat)
    requires n <= |ts|
  {
    && s.depth == Depth(ts[..n])
    && (s.cur.tokens == [] <==> LeadsClause(ts, n))
    && Pending(s) == KeptTokens(ts, n)
    && (forall g :: g in s.groups ==> g.tokens != [])
    && (s.valueList <==> InOpenList(ts, n))
  }

  /** An IN is neither a connective nor a NOT. */
  lemma InIsPlain(t: Token)
    requires IsIN(t)
    ensures !IsConnective(t) && !IsNot(t)
  {
    assert |ToLower(t.text)| == |ToLower("IN")| == 2 && ToLower("IN")[0] == 'i';
    assert LowerRune(t.text[0]) == ToLower(t.text)[0] == 'i';
    assert ToUpper(t.text)[0] == UpperRune(t.text[0]) == 'I';
    assert |ToLower("NOT")| == 3;
  }

  lemma KeptByState(s: Splitting, ts: seq<Token>, n: nat)
    requires n < |ts| && s.depth == Depth(ts[..n]) && (s.cur.tokens == [] <==> LeadsClause(ts, n))
    ensures Kept(ts, n) <==>
              && !IsParen(ts[n]) && !(s.depth == 0 && IsConnective(ts[n]))
              && !(s.depth == 0 && IsNot(ts[n]) && s.cur.tokens == [])
  {
  }

  lemma FeedPending(s: Splitting, t: Token)
    ensures Pending(Feed(s, t)) == Pending(s) +
              (if !IsParen(t) && !(s.depth == 0 && IsConnective(t)) && !(s.depth == 0 && IsNot(t) && s.cur.tokens == [])
               then [t] else [])
  {
    TokensInMore(s.groups, s.cur);
    assert TokensIn(s.groups) + (s.cur.tokens + [t]) == (TokensIn(s.groups) + s.cur.tokens) + [t];
  }

  /** Every token keeps the account. */
  lemma TrackStep(s: Splitting, ts: seq<Token>, n: nat)
    requires n < |ts| && Tracks(s, ts, n)
    ensures Tracks(Feed(s, ts[n]), ts, n + 1)
  {
    DepthStep(ts, n);
    LeadsStep(ts, n);
    OpenListStep(ts, n);
    KeptByState(s, ts, n);
    FeedPending(s, ts[n]);
    if IsIN(ts[n]) { InIsPlain(ts[n]); }
  }

  lemma {:induction false} SplitterTracks(ts: seq<Token>, n: nat)
    requires n <= |ts|
    ensures Tracks(FeedAll(NEW, ts[..n]), ts, n)
  {
    if n == 0 {
      assert LeadsFrom(ts, 0, 0);
    } else {
      SplitterTracks(ts, n - 1);
      FeedStep(NEW, ts, n - 1);
      TrackStep(FeedAll(NEW, ts[..n - 1]), ts, n - 1);
    }
  }

  /** Nothing is lost or invented: the clauses, in order, are the input minus its parentheses,
      its top-level connectives and its clause-leading top-level NOTs; and no clause is empty. */
  lemma {:induction false} SplitConserves(ts: seq<Token>)
    ensures TokensIn(SplitClauses(ts)) == KeptTokens(ts, |ts|)
    ensures forall g :: g in SplitClauses(ts) ==> g.tokens != []
  {
    SplitterTracks(ts, |ts|);
    assert ts[..|ts|] == ts;
    var s := FeedAll(NEW, ts);
    TokensInMore(s.groups, s.cur);
  }

  /** The splitter is in a value list exactly when an IN at top level is still open. */
  lemma {:induction false} ValueListMeaning(ts: seq<Token>)
    ensures FeedAll(NEW, ts).valueList <==> InOpenList(ts, |ts|)
    ensures FeedAll(NEW, ts).depth == Depth(ts)
  {
    SplitterTracks(ts, |ts|);
    assert ts[..|ts|] == ts;
  }

  // ----- Cutting is compositional ------------------------------------------------------

  lemma {:induction false} FeedAllConcat(s: Splitting, a: seq<Token>, b: seq<Token>)
    ensures FeedAll(s, a + b) == FeedAll(FeedAll(s, a), b)
  {
    if b == [] {
      assert a + b == a;
    } else {
      assert (a + b)[..|a + b| - 1] == a + b[..|b| - 1];
      FeedAllConcat(s, a, b[..|b| - 1]);
    }
  }

  function After(earlier: seq<Group>, s: Splitting): Splitting { s.(groups := earlier + s.groups) }

  /** What was cut off earlier does not influence what follows. */
  lemma {:induction false} EarlierGroupsInert(earlier: seq<Group>, s: Splitting, ts: seq<Token>)
    ensures FeedAll(After(earlier, s), ts) == After(earlier, FeedAll(s, ts))
  {
    if ts != [] {
      EarlierGroupsInert(earlier, s, ts[..|ts| - 1]);
      var r := FeedAll(s, ts[..|ts| - 1]);
      assert earlier + (r.groups + [r.cur]) == (earlier + r.groups) + [r.cur];
    }
  }

  /** The first part can be cut from what follows: parentheses balanced, no value list still open. */
  predicate Detached(ts: seq<Token>) {
    FeedAll(NEW, ts).depth == 0 && !FeedAll(NEW, ts).valueList
  }

  lemma FlushIsAfter(s: Splitting, nextOR: bool)
    requires s.depth == 0 && !s.valueList
    ensures Flush(s, nextOR, false) == After(Flush(s, nextOR, false).groups, NEW.(cur := FreshGroup(nextOR, false)))
  {
    var done := Flush(s, nextOR, false).groups;
    assert done + [] == done;
  }

  lemma ClausesAfter(earlier: seq<Group>, s: Splitting)
    ensures Flush(After(earlier, s), false, false).groups == earlier + Flush(s, false, false).groups
  {
    assert earlier + (s.groups + [s.cur]) == (earlier + s.groups) + [s.cur];
  }

  lemma {:induction false} ConnectiveFlushes(first: seq<Token>, c: Token)
    requires Detached(first) && IsConnective(c) && !IsParen(c)
    ensures FeedAll(NEW, first + [c]) == Flush(FeedAll(NEW, first), IsOR(c), false)
  {
    assert (first + [c])[..|first|] == first;
  }

  /** first CONNECTIVE second is the clauses of first, then those of second reached by that connective. */
  lemma {:induction false} SplitAtConnective(first: seq<Token>, c: Token, second: seq<Token>)
    requires Detached(first) && IsConnective(c) && !IsParen(c)
    ensures SplitClauses(first + [c] + second) ==
              SplitClauses(first) + ClausesFrom(NEW.(cur := FreshGroup(IsOR(c), false)), second)
  {
    var s, started := FeedAll(NEW, first), NEW.(cur := FreshGroup(IsOR(c), false));
    var done := SplitClauses(first);
    FeedAllConcat(NEW, first + [c], second);
    ConnectiveFlushes(first, c);
    FlushIsAfter(s, IsOR(c));
    EarlierGroupsInert(done, started, second);
    ClausesAfter(done, FeedAll(started, second));
  }

  function MarkFirst(gs: seq<Group>, joinedByOR: bool): seq<Group>
    requires gs != []
  {
    [gs[0].(joinedByOR := joinedByOR)] + gs[1..]
  }

  /** The token begins a clause: it is appended whatever came before. */
  predicate BeginsClause(t: Token) { !IsParen(t) && !IsConnective(t) && !IsNot(t) }

  ghost predicate DifferInFlag(a: Splitting, b: Splitting, flag: bool) {
    if a.groups == [] then a.cur.tokens != [] && b == a.(cur := a.cur.(joinedByOR := flag))
    else b == a.(groups := MarkFirst(a.groups, flag))
  }

  lemma FlagFlush(a: Splitting, b: Splitting, flag: bool, nextOR: bool)
    requires DifferInFlag(a, b, flag)
    ensures DifferInFlag(Flush(a, nextOR, false), Flush(b, nextOR, false), flag)
    ensures Flush(a, nextOR, false).groups != []
  {
    if a.groups != [] {
      assert MarkFirst(a.groups + [a.cur], flag) == MarkFirst(a.groups, flag) + [a.cur];
    } else {
      assert [] + [a.cur] == [a.cur] && [] + [b.cur] == [b.cur];
      assert [a.cur][1..] == [];
    }
  }

  lemma FlagStep(a: Splitting, b: Splitting, flag: bool, t: Token)
    requires DifferInFlag(a, b, flag)
    ensures DifferInFlag(Feed(a, t), Feed(b, t), flag)
  {
    if !IsParen(t) && a.depth == 0 && IsConnective(t) { FlagFlush(a, b, flag, IsOR(t)); }
  }

  lemma {:induction false} FlagStaysOnFirst(a: Splitting, b: Splitting, flag: bool, ts: seq<Token>)
    requires DifferInFlag(a, b, flag)
    ensures DifferInFlag(FeedAll(a, ts), FeedAll(b, ts), flag)
  {
    if ts != [] {
      FlagStaysOnFirst(a, b, flag, ts[..|ts| - 1]);
      FlagStep(FeedAll(a, ts[..|ts| - 1]), FeedAll(b, ts[..|ts| - 1]), flag, ts[|ts| - 1]);
    }
  }

  /** Reached by an OR, the same clauses come out with the first one marked. */
  lemma OrMarksFirst(flag: bool, ts: seq<Token>)
    requires ts != [] && BeginsClause(ts[0])
    ensures SplitClauses(ts) != []
    ensures ClausesFrom(NEW.(cur := FreshGroup(flag, false)), ts) == MarkFirst(SplitClauses(ts), flag)
  {
    var started := NEW.(cur := FreshGroup(flag, false));
    var rest := ts[1..];
    assert ts == [ts[0]] + rest;
    FeedAllConcat(NEW, [ts[0]], rest);
    FeedAllConcat(started, [ts[0]], rest);
    assert FeedAll(NEW, [ts[0]]) == Feed(NEW, ts[0]) && FeedAll(started, [ts[0]]) == Feed(started, ts[0]);
    FlagStaysOnFirst(Feed(NEW, ts[0]), Feed(started, ts[0]), flag, rest);
    FlagFlush(FeedAll(NEW, ts), FeedAll(started, ts), flag, false);
  }
}
