/** Decimal rendering as Go's %d and %0*d verbs write it. */
module Decimal {
  import opened Sorting

  function Digit(d: nat): char
    requires d < 10
  {
    '0' + d as char
  }

  predicate IsDigit(c: char) { '0' <= c <= '9' }

  /** %d of a number that is not negative. */
  function Dec(n: nat): (s: string)
    ensures s != "" && forall i :: 0 <= i < |s| ==> IsDigit(s[i])
  {
    if n < 10 then [Digit(n)] else Dec(n / 10) + [Digit(n % 10)]
  }

  /** What a string of digits stands for. */
  function Value(s: string): nat
    requires forall i :: 0 <= i < |s| ==> IsDigit(s[i])
  {
    if s == "" then 0
    else
      var last := s[|s| - 1];
      assert IsDigit(last);
      10 * Value(s[..|s| - 1]) + (last as int - '0' as int)
  }

  lemma {:induction false} ValueOfDec(n: nat)
    ensures Value(Dec(n)) == n
  {
    if n >= 10 {
      ValueOfDec(n / 10);
      assert Dec(n)[..|Dec(n)| - 1] == Dec(n / 10);
    }
  }

  lemma {:induction false} DecIsInjective(m: nat, n: nat)
    requires Dec(m) == Dec(n)
    ensures m == n
  {
    ValueOfDec(m);
    ValueOfDec(n);
  }

  function Zeros(n: nat): string { seq(n, _ => '0') }

  /** %0*d: at least `width` characters. */
  function Padded(n: nat, width: nat): string {
    if |Dec(n)| < width then Zeros(width - |Dec(n)|) + Dec(n) else Dec(n)
  }

  function Pow10(w: nat): nat { if w == 0 then 1 else 10 * Pow10(w - 1) }

  /** The last `w` digits. */
  function Digits(n: nat, w: nat): (s: string)
    ensures |s| == w
  {
    if w == 0 then "" else Digits(n / 10, w - 1) + [Digit(n % 10)]
  }

  lemma {:induction false} ZeroDigits(w: nat)
    ensures Digits(0, w) == Zeros(w)
  {
    if w > 0 {
      ZeroDigits(w - 1);
      assert Zeros(w) == Zeros(w - 1) + ['0'];
    }
  }

  /** A number that fits is its own last digits. */
  lemma {:induction false} PaddedIsDigits(n: nat, w: nat)
    requires 0 < w && n < Pow10(w)
    ensures Padded(n, w) == Digits(n, w) && |Dec(n)| <= w
  {
    if n < 10 {
      ZeroDigits(w - 1);
      if w == 1 { assert Digits(n / 10, 0) + [Digit(n % 10)] == [Digit(n)]; }
    } else {
      PaddedIsDigits(n / 10, w - 1);
      if |Dec(n)| < w {
        assert Padded(n, w) == Padded(n / 10, w - 1) + [Digit(n % 10)];
      }
    }
  }

  lemma {:induction false} LessAfterPrefix(p: string, a: string, b: string)
    ensures Less(p + a, p + b) <==> Less(a, b)
  {
    if p == "" {
      assert p + a == a && p + b == b;
    } else {
      LessAfterPrefix(p[1..], a, b);
      assert (p + a)[1..] == p[1..] + a && (p + b)[1..] == p[1..] + b;
    }
  }

  /** At one width, strings compare as the numbers do, whatever follows. */
  lemma {:induction false} DigitsCompare(m: nat, n: nat, w: nat, x: string, y: string)
    requires m < n < Pow10(w)
    ensures Less(Digits(m, w) + x, Digits(n, w) + y)
  {
    var a, b := [Digit(m % 10)] + x, [Digit(n % 10)] + y;
    assert Digits(m, w) + x == Digits(m / 10, w - 1) + a && Digits(n, w) + y == Digits(n / 10, w - 1) + b;
    if m / 10 < n / 10 {
      DigitsCompare(m / 10, n / 10, w - 1, a, b);
    } else {
      LessAfterPrefix(Digits(m / 10, w - 1), a, b);
    }
  }

  lemma {:induction false} ValueAfterZeros(k: nat, s: string)
    requires forall i :: 0 <= i < |s| ==> IsDigit(s[i])
    ensures (forall i :: 0 <= i < |Zeros(k) + s| ==> IsDigit((Zeros(k) + s)[i])) && Value(Zeros(k) + s) == Value(s)
    decreases k + |s|
  {
    var padded := Zeros(k) + s;
    if s != "" {
      assert padded[..|padded| - 1] == Zeros(k) + s[..|s| - 1];
      ValueAfterZeros(k, s[..|s| - 1]);
    } else if k > 0 {
      assert padded[..|padded| - 1] == Zeros(k - 1) + "";
      ValueAfterZeros(k - 1, "");
    }
  }

  /** Padding hides no number. */
  lemma {:induction false} PaddedIsInjective(m: nat, n: nat, w: nat)
    requires Padded(m, w) == Padded(n, w)
    ensures m == n
  {
    PaddedValue(m, w);
    PaddedValue(n, w);
  }

  lemma {:induction false} PaddedValue(n: nat, w: nat)
    ensures (forall i :: 0 <= i < |Padded(n, w)| ==> IsDigit(Padded(n, w)[i])) && Value(Padded(n, w)) == n
  {
    ValueOfDec(n);
    if |Dec(n)| < w { ValueAfterZeros(w - |Dec(n)|, Dec(n)); }
  }

  /** d followed by w zeros. */
  function Scaled(d: nat, w: nat): nat { if w == 0 then d else 10 * Scaled(d, w - 1) }

  lemma {:induction false} ScaledPositive(d: nat, w: nat)
    requires d > 0
    ensures Scaled(d, w) > 0
  {
    if w > 0 { ScaledPositive(d, w - 1); }
  }

  /** A number of w + 1 digits, the first of them d. */
  lemma {:induction false} LeadingDigit(n: nat, d: nat, w: nat)
    requires 0 < d < 10 && Scaled(d, w) <= n < Scaled(d + 1, w)
    ensures |Dec(n)| == w + 1 && Dec(n)[0] == Digit(d)
    decreases w
  {
    if w > 0 {
      ScaledPositive(d, w - 1);
      LeadingDigit(n / 10, d, w - 1);
    }
  }
}
