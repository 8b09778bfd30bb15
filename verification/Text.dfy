/** The string helpers of Go's standard library that several parts rely on, folding ASCII only. */
module Text {

  /** unicode.IsSpace. */
  predicate IsSpace(r: char) {
    var c := r as int;
    || 0x09 <= c <= 0x0D || c == 0x20 || c == 0x85 || c == 0xA0 || c == 0x1680
    || 0x2000 <= c <= 0x200A || c == 0x2028 || c == 0x2029 || c == 0x202F || c == 0x205F || c == 0x3000
  }

  function LowerRune(r: char): char { if 'A' <= r <= 'Z' then r - 'A' + 'a' else r }

  function UpperRune(r: char): char { if 'a' <= r <= 'z' then r - 'a' + 'A' else r }

  function ToLower(s: string): string { seq(|s|, i requires 0 <= i < |s| => LowerRune(s[i])) }

  function ToUpper(s: string): string { seq(|s|, i requires 0 <= i < |s| => UpperRune(s[i])) }

  predicate EqualFold(a: string, b: string) { ToLower(a) == ToLower(b) }

  function TrimSpaceLeft(s: string): string { if s != "" && IsSpace(s[0]) then TrimSpaceLeft(s[1..]) else s }

  function TrimSpaceRight(s: string): string {
    if s != "" && IsSpace(s[|s| - 1]) then TrimSpaceRight(s[..|s| - 1]) else s
  }

  function TrimSpace(s: string): string { TrimSpaceRight(TrimSpaceLeft(s)) }

  predicate IsQuoteRune(r: char) { r == '"' || r == '\'' }

  /** strings.Trim with both quote characters as the cutset. */
  function TrimQuotes(s: string): string {
    if s != "" && IsQuoteRune(s[0]) then TrimQuotes(s[1..])
    else if s != "" && IsQuoteRune(s[|s| - 1]) then TrimQuotes(s[..|s| - 1])
    else s
  }

  /** strings.ReplaceAll(s, " ", ""). */
  function DropBlanks(s: string): string {
    if s == "" then "" else (if s[0] == ' ' then "" else [s[0]]) + DropBlanks(s[1..])
  }

  /** What precedes the first occurrence of `c`, or everything. */
  function UpTo(s: string, c: char): string {
    if s == "" || s[0] == c then "" else [s[0]] + UpTo(s[1..], c)
  }
}
