/**
 Unsigned decimal numerals: `strconv.AppendUint` and `strconv.ParseUint(s, 10, 64)`.
 */
module Decimal {
  import opened Wrappers

  const MAX_UINT64: nat := 0xFFFF_FFFF_FFFF_FFFF

  predicate IsDigit(c: char) {
    '0' <= c <= '9'
  }

  predicate AllDigits(s: string) {
    forall c | c in s :: IsDigit(c)
  }

  function DigitChar(d: nat): (c: char)
    requires d < 10
    ensures IsDigit(c)
  {
    '0' + d as char
  }

  function DigitValue(c: char): (d: nat)
    requires IsDigit(c)
    ensures d < 10 && DigitChar(d) == c
  {
    (c - '0') as nat
  }

  function Print(n: nat): (s: string)
    ensures s != "" && AllDigits(s)
  {
    if n < 10 then [DigitChar(n)] else Print(n / 10) + [DigitChar(n % 10)]
  }

  function Value(s: string): nat
    requires AllDigits(s)
  {
    if s == "" then 0
    else
      assert forall c | c in s[..|s| - 1] :: c in s;
      10 * Value(s[..|s| - 1]) + DigitValue(s[|s| - 1])
  }

  /** Reads a numeral of any size. */
  function ParseNat(s: string): Option<nat> {
    if s == "" || !AllDigits(s) then None else Some(Value(s))
  }

  function ParseUint(s: string): Option<nat> {
    match ParseNat(s)
    case None => None
    case Some(n) => if n > MAX_UINT64 then None else Some(n)
  }

  /** The library's test for a number written with redundant zeros. */
  predicate HasLeadingZeroes(s: string) {
    |s| > 1 && s[0] == '0'
  }

  lemma {:induction false} ValueOfPrint(n: nat)
    ensures Value(Print(n)) == n
  {
    if n >= 10 {
      ValueOfPrint(n / 10);
      assert Print(n)[..|Print(n)| - 1] == Print(n / 10);
    }
  }

  lemma {:induction false} PrintHasNoLeadingZeroes(n: nat)
    ensures !HasLeadingZeroes(Print(n))
    ensures n > 0 ==> Print(n)[0] != '0'
  {
    if n >= 10 {
      PrintHasNoLeadingZeroes(n / 10);
    }
  }

  lemma ParsePrint(n: nat)
    requires n <= MAX_UINT64
    ensures ParseUint(Print(n)) == Some(n)
  {
    ValueOfPrint(n);
  }

  lemma {:induction false} ZeroValue(s: string)
    requires s != "" && AllDigits(s) && s[0] != '0'
    ensures Value(s) > 0
  {
    if |s| > 1 {
      assert s[..|s| - 1][0] == s[0];
      assert forall c | c in s[..|s| - 1] :: c in s;
      ZeroValue(s[..|s| - 1]);
    } else {
      assert s[..0] == "";
    }
  }

  /** A numeral without redundant zeros is the printout of its value. */
  lemma {:induction false} PrintOfValue(s: string)
    requires s != "" && AllDigits(s) && !HasLeadingZeroes(s)
    ensures Print(Value(s)) == s
  {
    if |s| == 1 {
      assert s[..0] == "";
    } else {
      var front := s[..|s| - 1];
      assert front[0] == s[0];
      assert forall c | c in front :: c in s;
      PrintOfValue(front);
      ZeroValue(front);
      assert Value(s) / 10 == Value(front);
      assert s == front + [s[|s| - 1]];
    }
  }
}
