/** Decimal text of integers: strconv.Itoa, FormatInt and Atoi. */
module Decimal {
  import opened Text

  const MAX_INT: int := 0x7fff_ffff_ffff_ffff

  predicate IsDigit(c: char) { '0' <= c <= '9' }

  predicate AllDigits(s: string) {
    s != "" && forall i :: 0 <= i < |s| ==> IsDigit(s[i])
  }

  function Digit(d: nat): (c: char)
    requires d < 10
    ensures IsDigit(c) && DigitValue(c) == d
  {
    ('0' as int + d) as char
  }

  function DigitValue(c: char): nat
    requires IsDigit(c)
  {
    c as int - '0' as int
  }

  /** strconv.Itoa on a non-negative integer. */
  function Itoa(n: nat): (s: string)
    ensures AllDigits(s)
    ensures |s| > 1 ==> s[0] != '0'
  {
    if n < 10 then [Digit(n)] else Itoa(n / 10) + [Digit(n % 10)]
  }

  /** strconv.FormatInt in base ten. */
  function FormatInt(n: int): (s: string)
    ensures s != "-"
  {
    if n >= 0 then Itoa(n) else "-" + Itoa(-n)
  }

  /** The integer a digit string denotes. */
  function DigitsValue(s: string): nat
    requires forall i :: 0 <= i < |s| ==> IsDigit(s[i])
  {
    if s == "" then 0 else 10 * DigitsValue(s[..|s| - 1]) + DigitValue(s[|s| - 1])
  }

  /** strconv.Atoi: an optional sign, digits, and a 64-bit range check. */
  function Atoi(s: string): Option<int> {
    var unsigned := if s != "" && (s[0] == '+' || s[0] == '-') then s[1..] else s;
    if !AllDigits(unsigned) then None
    else
      var magnitude: int := DigitsValue(unsigned);
      if s[0] == '-' then (if magnitude <= MAX_INT + 1 then Some(-magnitude) else None)
      else if magnitude <= MAX_INT then Some(magnitude) else None
  }

  lemma {:induction false} ItoaValue(n: nat)
    ensures DigitsValue(Itoa(n)) == n
  {
    if n >= 10 {
      ItoaValue(n / 10);
      var s := Itoa(n);
      assert s[..|s| - 1] == Itoa(n / 10);
    }
  }

  lemma AtoiItoa(n: nat)
    requires n <= MAX_INT
    ensures Atoi(Itoa(n)) == Some(n)
  {
    ItoaValue(n);
    assert IsDigit(Itoa(n)[0]);
  }

  lemma ItoaInjective(a: nat, b: nat)
    requires Itoa(a) == Itoa(b)
    ensures a == b
  {
    ItoaValue(a);
    ItoaValue(b);
  }

  lemma FormatIntInjective(a: int, b: int)
    requires FormatInt(a) == FormatInt(b)
    ensures a == b
  {
    assert a >= 0 ==> IsDigit(FormatInt(a)[0]);
    assert b >= 0 ==> IsDigit(FormatInt(b)[0]);
    if a >= 0 && b >= 0 {
      ItoaInjective(a, b);
    } else if a < 0 && b < 0 {
      assert FormatInt(a)[1..] == Itoa(-a) && FormatInt(b)[1..] == Itoa(-b);
      ItoaInjective(-a, -b);
    }
  }

  /** A digit string without leading zeros is the Itoa of its value. */
  lemma {:induction false} ItoaOfCanonical(s: string)
    requires AllDigits(s) && (|s| > 1 ==> s[0] != '0')
    ensures Itoa(DigitsValue(s)) == s
  {
    var last := |s| - 1;
    if |s| == 1 {
      assert s[..0] == "";
      assert DigitsValue(s) == DigitValue(s[0]);
      assert s == [Digit(DigitValue(s[0]))];
    } else {
      var front := s[..last];
      assert front[0] == s[0] && forall i :: 0 <= i < |front| ==> front[i] == s[i];
      ItoaOfCanonical(front);
      PositiveValue(front);
      assert s == front + [s[last]];
      assert Digit(DigitValue(s[last])) == s[last];
    }
  }

  lemma {:induction false} PositiveValue(s: string)
    requires AllDigits(s) && s[0] != '0'
    ensures DigitsValue(s) > 0
  {
    if |s| > 1 {
      var front := s[..|s| - 1];
      assert front[0] == s[0] && forall i :: 0 <= i < |front| ==> front[i] == s[i];
      PositiveValue(front);
    }
  }
}
