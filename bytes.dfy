/**
 * Text as the model sees it. Every Python `str` of the bot is represented by
 * its UTF-8 bytes. Python orders `str` values by code point, and UTF-8 keeps
 * that order as lexicographic order on bytes, so `Below` below is the order
 * that `sorted` uses on keys. The decimal rendering of `str(int)` lives here
 * too, with its inverse.
 */
module Bytes {
  import opened Wrappers

  newtype byte = x: int | 0 <= x < 256

  type Text = seq<byte>

  predicate IsAscii(s: string) {
    forall i | 0 <= i < |s| :: s[i] as int < 128
  }

  /** The bytes of an ASCII string literal. */
  function Ascii(s: string): (t: Text)
    requires IsAscii(s)
    ensures |t| == |s|
    ensures forall i | 0 <= i < |s| :: t[i] as int == s[i] as int
  {
    seq(|s|, i requires 0 <= i < |s| => s[i] as int as byte)
  }

  // ---------------------------------------------------------------------
  // Lexicographic order (Python's `<` on str)
  // ---------------------------------------------------------------------

  /** `a` sorts strictly before `b`: a proper prefix, or smaller at the first difference. */
  predicate Below(a: Text, b: Text)
    decreases |a|
  {
    if |a| == 0 then |b| > 0
    else if |b| == 0 then false
    else if a[0] < b[0] then true
    else a[0] == b[0] && Below(a[1..], b[1..])
  }

  lemma {:induction false} BelowIrreflexive(a: Text)
    ensures !Below(a, a)
    decreases |a|
  {
    if |a| > 0 {
      BelowIrreflexive(a[1..]);
    }
  }

  lemma {:induction false} BelowTransitive(a: Text, b: Text, c: Text)
    requires Below(a, b) && Below(b, c)
    ensures Below(a, c)
    decreases |a|
  {
    if |a| > 0 && a[0] == b[0] && b[0] == c[0] {
      BelowTransitive(a[1..], b[1..], c[1..]);
    }
  }

  /** Any two distinct texts are ordered one way or the other. */
  lemma {:induction false} BelowTotal(a: Text, b: Text)
    ensures a == b || Below(a, b) || Below(b, a)
    decreases |a|
  {
    if |a| > 0 && |b| > 0 && a[0] == b[0] {
      BelowTotal(a[1..], b[1..]);
      if a[1..] == b[1..] {
        assert a == [a[0]] + a[1..] && b == [b[0]] + b[1..];
      }
    }
  }

  // ---------------------------------------------------------------------
  // str(n) for a Python int
  // ---------------------------------------------------------------------

  const MINUS: byte := 0x2D

  predicate IsDigit(b: byte) {
    0x30 <= b <= 0x39
  }

  predicate AllDigits(t: Text) {
    forall i | 0 <= i < |t| :: IsDigit(t[i])
  }

  /** The decimal digits of `n`, most significant first, without leading zeros. */
  function Digits(n: nat): (t: Text)
    ensures |t| > 0 && AllDigits(t)
    ensures t[0] == 0x30 ==> n == 0
  {
    if n < 10 then [(0x30 + n) as byte]
    else Digits(n / 10) + [(0x30 + n % 10) as byte]
  }

  /** `str(n)`: an optional minus sign followed by the digits of `|n|`. */
  function Decimal(n: int): (t: Text)
    ensures |t| > 0
    ensures t[0] == MINUS <==> n < 0
    ensures n >= 0 ==> AllDigits(t)
    ensures n < 0 ==> t[1..] == Digits(-n)
  {
    if n < 0 then [MINUS] + Digits(-n) else Digits(n)
  }

  /** The value of a string of decimal digits. */
  function DigitsValue(t: Text): nat
    requires AllDigits(t)
  {
    if t == [] then 0
    else DigitsValue(t[..|t| - 1]) * 10 + t[|t| - 1] as int - 0x30
  }

  /** `int(t)` on the strings `str` produces; anything else is refused. */
  function ParseDecimal(t: Text): Option<int> {
    if |t| > 0 && t[0] == MINUS then
      if |t| > 1 && AllDigits(t[1..]) then Some(0 - DigitsValue(t[1..]) as int) else None
    else if |t| > 0 && AllDigits(t) then Some(DigitsValue(t))
    else None
  }

  lemma {:induction false} DigitsValueOfDigits(n: nat)
    ensures DigitsValue(Digits(n)) == n
  {
    if n >= 10 {
      var t := Digits(n);
      assert t[..|t| - 1] == Digits(n / 10);
      DigitsValueOfDigits(n / 10);
    }
  }

  /** `int(str(n)) == n`: the decimal rendering loses nothing. */
  lemma DecimalRoundTrip(n: int)
    ensures ParseDecimal(Decimal(n)) == Some(n)
  {
    if n < 0 {
      assert Decimal(n)[1..] == Digits(-n);
      DigitsValueOfDigits(-n);
    } else {
      DigitsValueOfDigits(n);
    }
  }

  lemma DecimalInjective(m: int, n: int)
    requires Decimal(m) == Decimal(n)
    ensures m == n
  {
    DecimalRoundTrip(m);
    DecimalRoundTrip(n);
  }
}
