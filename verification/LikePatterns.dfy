/**
  SQL LIKE (ISO/IEC 9075-2, section 8.5) with backslash as the escape character,
  and the escaping of internal/core/access/shares.go that makes stored text match
  only itself.
 */
module LikePatterns {

  /** `s LIKE pattern`.  A pattern ending in a lone escape is an SQL error and matches nothing here. */
  predicate Like(s: string, pattern: string)
    decreases |s| + |pattern|
  {
    if pattern == "" then s == ""
    else if pattern[0] == '%' then Like(s, pattern[1..]) || (s != "" && Like(s[1..], pattern))
    else if pattern[0] == '_' then s != "" && Like(s[1..], pattern[1..])
    else if pattern[0] == '\\' then
      |pattern| > 1 && s != "" && s[0] == pattern[1] && Like(s[1..], pattern[2..])
    else s != "" && s[0] == pattern[0] && Like(s[1..], pattern[1..])
  }

  /** strings.ReplaceAll for a one-character needle. */
  function ReplaceAll(s: string, needle: char, repl: string): string {
    if s == "" then "" else (if s[0] == needle then repl else [s[0]]) + ReplaceAll(s[1..], needle, repl)
  }

  /** The three passes of the source, backslash first. */
  function EscapeLike(s: string): string {
    ReplaceAll(ReplaceAll(ReplaceAll(s, '\\', "\\\\"), '%', "\\%"), '_', "\\_")
  }

  predicate IsMeta(c: char) { c == '\\' || c == '%' || c == '_' }

  function EscapeEach(s: string): string {
    if s == "" then "" else (if IsMeta(s[0]) then ['\\', s[0]] else [s[0]]) + EscapeEach(s[1..])
  }

  lemma {:induction false} ReplaceAllSplits(a: string, b: string, needle: char, repl: string)
    ensures ReplaceAll(a + b, needle, repl) == ReplaceAll(a, needle, repl) + ReplaceAll(b, needle, repl)
  {
    if a == "" {
      assert a + b == b;
    } else {
      assert (a + b)[1..] == a[1..] + b;
      ReplaceAllSplits(a[1..], b, needle, repl);
    }
  }

  lemma {:induction false} ReplaceAllShort(a: char, b: char, needle: char, repl: string)
    ensures ReplaceAll([a], needle, repl) == if a == needle then repl else [a]
    ensures ReplaceAll([a, b], needle, repl)
            == (if a == needle then repl else [a]) + (if b == needle then repl else [b])
  {
    assert [a][1..] == "" && [a, b][1..] == [b];
    assert ReplaceAll([b], needle, repl) == if b == needle then repl else [b];
  }

  /** Later passes do not disturb what earlier ones wrote: three passes escape each character once. */
  lemma {:induction false} EscapeIsPerCharacter(s: string)
    ensures EscapeLike(s) == EscapeEach(s)
  {
    if s != "" {
      var c := s[0];
      var one := if c == '\\' then "\\\\" else [c];
      var two := ReplaceAll(one, '%', "\\%");
      var rest1 := ReplaceAll(s[1..], '\\', "\\\\");
      var rest2 := ReplaceAll(rest1, '%', "\\%");
      ReplaceAllSplits(one, rest1, '%', "\\%");
      ReplaceAllSplits(two, rest2, '_', "\\_");
      ReplaceAllShort(c, c, '%', "\\%");
      ReplaceAllShort(c, c, '_', "\\_");
      ReplaceAllShort('\\', c, '_', "\\_");
      ReplaceAllShort('\\', c, '%', "\\%");
      ReplaceAllShort('\\', '%', '_', "\\_");
      EscapeIsPerCharacter(s[1..]);
    }
  }

  lemma {:induction false} PercentMatchesAll(s: string)
    ensures Like(s, "%")
  {
    assert "%"[1..] == "";
    if s != "" { PercentMatchesAll(s[1..]); }
  }

  /** An escaped text matches exactly itself, as a prefix of whatever the pattern goes on with. */
  lemma {:induction false} EscapedIsLiteral(text: string, rest: string, s: string)
    ensures Like(s, EscapeEach(text) + rest) <==> text <= s && Like(s[|text|..], rest)
  {
    if text == "" {
      assert EscapeEach(text) + rest == rest && s[0..] == s;
    } else {
      var c := text[0];
      var pattern := EscapeEach(text) + rest;
      var tail := EscapeEach(text[1..]) + rest;
      assert pattern == (if IsMeta(c) then ['\\', c] else [c]) + tail;
      if IsMeta(c) {
        assert pattern[2..] == tail;
      } else {
        assert pattern[1..] == tail;
      }
      if s != "" && s[0] == c {
        EscapedIsLiteral(text[1..], rest, s[1..]);
        assert text <= s <==> text[1..] <= s[1..] by {
          assert text == [c] + text[1..] && s == [c] + s[1..];
        }
        if text <= s {
          assert s[1..][|text| - 1..] == s[|text|..];
        }
      }
    }
  }

  /** EscapeLike(text) as a whole pattern matches text and nothing else. */
  lemma {:induction false} EscapeMatchesOnlyItself(text: string, s: string)
    ensures Like(s, EscapeLike(text)) <==> s == text
  {
    EscapeIsPerCharacter(text);
    EscapedIsLiteral(text, "", s);
    assert EscapeEach(text) + "" == EscapeEach(text);
    if text <= s && s[|text|..] == "" {
      assert s == text + s[|text|..];
    }
  }

  function SubtreeLikePattern(root: string): string { EscapeLike(root) + ".%" }

  /** The subtree pattern matches exactly the strings that extend root by a dot. */
  lemma {:induction false} SubtreePatternIsPrefix(root: string, s: string)
    ensures Like(s, SubtreeLikePattern(root)) <==> root + "." <= s
  {
    EscapeIsPerCharacter(root);
    EscapedIsLiteral(root, ".%", s);
    if root <= s {
      var t := s[|root|..];
      assert s == root + t;
      assert ".%"[1..] == "%";
      if t != "" { PercentMatchesAll(t[1..]); }
      assert root + "." <= s <==> t != "" && t[0] == '.';
    }
    if root + "." <= s {
      assert root == (root + ".")[..|root|] <= s;
    }
  }
}
