/** Small text helpers shared by both bridge revisions: an Option type, the
    decimal rendering of a non-negative number (what JavaScript's string
    conversion produces for the counters), quoting, and reading up to a
    delimiter (how the web-view side finds the end of an argument). */
module Text {

  datatype Option<+T> = None | Some(value: T)

  /** The character for a decimal digit. */
  function Digit(d: nat): (c: char)
    requires d < 10
    ensures '0' <= c <= '9'
  {
    "0123456789"[d]
  }

  /** The value of a decimal digit character. */
  function DigitValue(c: char): nat
  {
    if '0' <= c <= '9' then (c - '0') as nat else 0
  }

  predicate IsDigits(s: string)
  {
    forall i :: 0 <= i < |s| ==> '0' <= s[i] <= '9'
  }

  /** Decimal rendering of `n`, without sign and without leading zeros,
      as JavaScript renders a non-negative integer counter. */
  function Decimal(n: nat): (s: string)
    ensures 1 <= |s|
    ensures IsDigits(s)
    ensures n < 10 <==> |s| == 1
  {
    if n < 10 then [Digit(n)] else Decimal(n / 10) + [Digit(n % 10)]
  }

  /** Reads a string of decimal digits back as a number. */
  function DecimalValue(s: string): nat
  {
    if s == [] then 0 else 10 * DecimalValue(s[..|s| - 1]) + DigitValue(s[|s| - 1])
  }

  lemma {:induction false} DecimalRoundTrip(n: nat)
    ensures DecimalValue(Decimal(n)) == n
  {
    if n >= 10 {
      var s := Decimal(n);
      assert s[..|s| - 1] == Decimal(n / 10);
      DecimalRoundTrip(n / 10);
    }
  }

  /** Distinct numbers have distinct decimal renderings. */
  lemma DecimalInjective(a: nat, b: nat)
    requires Decimal(a) == Decimal(b)
    ensures a == b
  {
    DecimalRoundTrip(a);
    DecimalRoundTrip(b);
  }

  /** JavaScript's string conversion of an integer-valued number. */
  function IntToString(i: int): (s: string)
    ensures i >= 0 ==> s == Decimal(i)
    ensures i < 0 ==> |s| > 1 && s[0] == '-' && s[1..] == Decimal(-i)
  {
    if i < 0 then "-" + Decimal(-i) else Decimal(i)
  }

  /** `s` wrapped in double quotes, with no escaping. */
  function Quote(s: string): (q: string)
    ensures |q| == |s| + 2 && q[0] == '"' && q[|q| - 1] == '"' && q[1..|q| - 1] == s
  {
    "\"" + s + "\""
  }

  /** The longest prefix of `s` that does not contain `c`. */
  function TakeUntil(s: string, c: char): (r: string)
    ensures r <= s
    ensures c !in r
    ensures |r| < |s| ==> s[|r|] == c
  {
    if s == [] || s[0] == c then [] else [s[0]] + TakeUntil(s[1..], c)
  }

  /** Reading stops no later than the first occurrence of the delimiter. */
  lemma {:induction false} TakeUntilBound(s: string, c: char, i: nat)
    requires i < |s| && s[i] == c
    ensures |TakeUntil(s, c)| <= i
  {
    if s[0] != c {
      TakeUntilBound(s[1..], c, i - 1);
    }
  }

  /** Reading up to a delimiter that the first part does not contain
      recovers exactly that first part. */
  lemma {:induction false} TakeUntilSplit(a: string, c: char, b: string)
    requires c !in a
    ensures TakeUntil(a + [c] + b, c) == a
  {
    if a != [] {
      assert (a + [c] + b)[1..] == a[1..] + [c] + b;
      TakeUntilSplit(a[1..], c, b);
    }
  }
}
