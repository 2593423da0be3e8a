/**
 Base-10 rendering of non-negative integers, the conversion `getUsers` in
 main.go applies to each index with `strconv.Itoa`: the digits of the number,
 most significant first, with no sign, no padding and no leading zero.

 `Itoa` is the rendering; `Atoi` is the reference reading of a digit string as
 the number it denotes. The lemmas show that the two are inverse to each other
 on canonical digit strings, so the rendering is injective and every rendered
 string has exactly the length its magnitude calls for.
 */
module Decimal {

  predicate IsDigit(c: char) {
    '0' <= c <= '9'
  }

  predicate AllDigits(s: string) {
    forall k :: 0 <= k < |s| ==> IsDigit(s[k])
  }

  /** A canonical decimal: non-empty, digits only, and a leading zero only in "0" itself. */
  predicate IsCanonical(s: string) {
    |s| >= 1 && AllDigits(s) && (s[0] == '0' ==> |s| == 1)
  }

  function DigitChar(d: nat): (c: char)
    requires d < 10
    ensures IsDigit(c)
    ensures (c == '0') == (d == 0)
  {
    ('0' as int + d) as char
  }

  function DigitValue(c: char): (d: nat)
    requires IsDigit(c)
    ensures d < 10 && DigitChar(d) == c
  {
    c as int - '0' as int
  }

  function Pow10(k: nat): (p: nat)
    ensures p >= 1
  {
    if k == 0 then 1 else 10 * Pow10(k - 1)
  }

  /** The decimal rendering of `n`, as `strconv.Itoa` produces it for n >= 0. */
  function Itoa(n: nat): (s: string)
    ensures IsCanonical(s)
    ensures (s[0] == '0') == (n == 0)
  {
    if n < 10 then [DigitChar(n)] else Itoa(n / 10) + [DigitChar(n % 10)]
  }

  /** The number a digit string denotes (the empty string reads as 0). */
  function Atoi(s: string): (n: nat)
    requires AllDigits(s)
  {
    if s == [] then 0 else Atoi(s[..|s| - 1]) * 10 + DigitValue(s[|s| - 1])
  }

  /** Reading back a rendered number gives the number. */
  lemma {:induction false} AtoiItoa(n: nat)
    ensures Atoi(Itoa(n)) == n
  {
    var s := Itoa(n);
    if n < 10 {
      assert s[..0] == [];
    } else {
      assert s[..|s| - 1] == Itoa(n / 10);
      AtoiItoa(n / 10);
    }
  }

  /** A digit string that does not start with '0' denotes a positive number. */
  lemma {:induction false} AtoiPositive(s: string)
    requires |s| >= 1 && AllDigits(s) && s[0] != '0'
    ensures Atoi(s) >= 1
  {
    if |s| == 1 {
      assert s[..0] == [];
    } else {
      AtoiPositive(s[..|s| - 1]);
    }
  }

  /** Rendering the number a canonical decimal denotes gives that decimal back. */
  lemma {:induction false} ItoaAtoi(s: string)
    requires IsCanonical(s)
    ensures Itoa(Atoi(s)) == s
  {
    if |s| == 1 {
      assert s[..0] == [];
      assert s == [s[0]];
    } else {
      var p := s[..|s| - 1];
      assert IsCanonical(p);
      AtoiPositive(p);
      ItoaAtoi(p);
      var n := Atoi(s);
      assert n == Atoi(p) * 10 + DigitValue(s[|s| - 1]);
      assert n / 10 == Atoi(p) && n % 10 == DigitValue(s[|s| - 1]);
      assert s == p + [s[|s| - 1]];
    }
  }

  /** Distinct numbers have distinct renderings. */
  lemma {:induction false} ItoaInjective(m: nat, n: nat)
    ensures Itoa(m) == Itoa(n) <==> m == n
  {
    if Itoa(m) == Itoa(n) {
      AtoiItoa(m);
      AtoiItoa(n);
    }
  }

  /** The rendering of `n` has L digits, where 10^(L-1) <= n < 10^L (for n > 0). */
  lemma {:induction false} ItoaLengthBounds(n: nat)
    ensures n < Pow10(|Itoa(n)|)
    ensures n == 0 || Pow10(|Itoa(n)| - 1) <= n
  {
    if n >= 10 {
      ItoaLengthBounds(n / 10);
      assert |Itoa(n)| == |Itoa(n / 10)| + 1;
    }
  }

  lemma {:induction false} Pow10Monotonic(a: nat, b: nat)
    requires a <= b
    ensures Pow10(a) <= Pow10(b)
  {
    if a < b {
      Pow10Monotonic(a, b - 1);
    }
  }

  /** The rendering of `n` fits in k characters exactly when n < 10^k. */
  lemma {:induction false} ItoaLength(n: nat, k: nat)
    requires k >= 1
    ensures |Itoa(n)| <= k <==> n < Pow10(k)
  {
    var len := |Itoa(n)|;
    ItoaLengthBounds(n);
    if len <= k {
      Pow10Monotonic(len, k);
    } else if n != 0 {
      Pow10Monotonic(k, len - 1);
    }
  }
}
