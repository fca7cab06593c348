/** Bytes, and numbers written in them as ASCII digits. */
module Bytes {
  import opened Wrappers

  type Byte = b: int | 0 <= b < 256

  function Power(base: nat, n: nat): (p: nat)
    requires base > 0
    ensures p > 0
  {
    if n == 0 then 1 else base * Power(base, n - 1)
  }

  predicate Digit(b: Byte, base: nat) {
    0x30 <= b < 0x30 + base
  }

  /** A run of digits; `None` when empty or anything else is in it. */
  function Parse(s: seq<Byte>, base: nat): (n: Option<nat>)
    requires 2 <= base <= 10
    ensures n.Some? ==> s != [] && forall b | b in s :: Digit(b, base)
  {
    if s == [] || !Digit(s[|s| - 1], base) then None
    else if |s| == 1 then Some(s[0] - 0x30)
    else
      match Parse(s[..|s| - 1], base)
      case None => None
      case Some(n) => Some(n * base + (s[|s| - 1] - 0x30))
  }

  /** The last `width` digits of `n`. */
  function Print(n: nat, width: nat, base: nat): (s: seq<Byte>)
    requires 2 <= base <= 10
    ensures |s| == width
    ensures forall b | b in s :: Digit(b, base)
  {
    if width == 0 then [] else Print(n / base, width - 1, base) + [0x30 + n % base]
  }

  lemma TimesIsMonotone(a: nat, b: nat, base: nat)
    ensures a >= b ==> base * a >= base * b
  {
  }

  lemma DivideBelow(n: nat, base: nat, p: nat)
    requires base > 0 && n < base * p
    ensures n / base < p && n == n / base * base + n % base
  {
    TimesIsMonotone(n / base, p, base);
    assert n == base * (n / base) + n % base;
  }

  lemma ParseSnoc(s: seq<Byte>, d: nat, base: nat)
    requires 2 <= base <= 10 && d < base && Parse(s, base).Some?
    ensures Parse(s + [0x30 + d], base) == Some(Parse(s, base).value * base + d)
  {
    assert (s + [0x30 + d])[..|s|] == s;
  }

  lemma {:induction false} ParsePrinted(n: nat, width: nat, base: nat)
    requires 2 <= base <= 10 && width > 0 && n < Power(base, width)
    ensures Parse(Print(n, width, base), base) == Some(n)
    decreases width, 1
  {
    DivideBelow(n, base, Power(base, width - 1));
    ParseStep(n, n / base, n % base, width, base, Print(n / base, width - 1, base));
  }

  lemma {:induction false} ParseStep(n: nat, q: nat, d: nat, width: nat, base: nat, rest: seq<Byte>)
    requires 2 <= base <= 10 && width > 0 && q < Power(base, width - 1) && n == q * base + d && d < base
    requires rest == Print(q, width - 1, base)
    ensures Parse(rest + [0x30 + d], base) == Some(n)
    decreases width, 0
  {
    if width > 1 {
      ParsePrinted(q, width - 1, base);
      ParseSnoc(rest, d, base);
    } else {
      assert Power(base, 0) == 1 && q == 0 && n == d && rest == [];
      ParseOneDigit(d, base);
      assert rest + [0x30 + d] == [0x30 + d];
    }
  }

  lemma ParseOneDigit(d: nat, base: nat)
    requires 2 <= base <= 10 && d < base
    ensures Parse([0x30 + d], base) == Some(d)
  {
  }

  /** The last octal digits of two numbers that differ by more than those count. */
  lemma {:induction false} SameLastDigits(n: nat, m: nat, k: nat, width: nat)
    requires n == k * Power(8, width) + m
    ensures Print(n, width, 8) == Print(m, width, 8)
    decreases width
  {
    if width > 0 {
      var p := Power(8, width - 1);
      assert n == 8 * (k * p) + m by { assert Power(8, width) == 8 * p; EightTimes(k, p); }
      assert n / 8 == k * p + m / 8 && n % 8 == m % 8;
      SameLastDigits(n / 8, m / 8, k, width - 1);
    }
  }

  lemma EightTimes(k: nat, p: nat)
    ensures k * (8 * p) == 8 * (k * p)
  {
  }

  // ---- Without leading zeros -----------------------------------------------------

  function Width(n: nat): (w: nat)
    ensures w > 0
  {
    if n < 10 then 1 else 1 + Width(n / 10)
  }

  lemma {:induction false} WidthIsEnough(n: nat)
    ensures n < Power(10, Width(n)) && Width(n) <= n / 10 + 1
  {
    if n < 10 {
      assert Power(10, 1) == 10 * Power(10, 0);
    } else {
      WidthIsEnough(n / 10);
    }
  }

  lemma {:induction false} WidthIsMonotone(m: nat, n: nat)
    requires m <= n
    ensures Width(m) <= Width(n)
  {
    if m >= 10 { WidthIsMonotone(m / 10, n / 10); }
  }

  function Decimal(n: nat): (s: seq<Byte>)
    ensures |s| == Width(n) && forall b | b in s :: Digit(b, 10)
  {
    Print(n, Width(n), 10)
  }

  lemma ParseDecimal(n: nat)
    ensures Parse(Decimal(n), 10) == Some(n)
  {
    WidthIsEnough(n);
    ParsePrinted(n, Width(n), 10);
  }
}
