/**
 * Integer#to_s(36): a natural number written in lower-case base 36, the
 * alphabet of every random short key, and its inverse.
 */
module Base36 {

  const Radix: nat := 36

  function Pow(b: nat, e: nat): (r: nat)
    ensures b >= 1 ==> r >= 1
  {
    if e == 0 then 1 else b * Pow(b, e - 1)
  }

  predicate IsDigit(c: char)
  {
    '0' <= c <= '9' || 'a' <= c <= 'z'
  }

  predicate AllDigits(s: string)
  {
    forall i :: 0 <= i < |s| ==> IsDigit(s[i])
  }

  function Digit(d: nat): (c: char)
    requires d < Radix
    ensures IsDigit(c)
  {
    if d < 10 then ('0' as int + d) as char else ('a' as int + d - 10) as char
  }

  function DigitValue(c: char): (d: nat)
    requires IsDigit(c)
    ensures d < Radix && Digit(d) == c
  {
    if c <= '9' then c as int - '0' as int else c as int - 'a' as int + 10
  }

  /** `n.to_s(36)`: most significant digit first, "0" for zero. */
  function Encode(n: nat): (s: string)
    ensures |s| >= 1 && AllDigits(s)
    ensures ':' !in s
  {
    if n < Radix then [Digit(n)] else Encode(n / Radix) + [Digit(n % Radix)]
  }

  /** The value of a string of base-36 digits. */
  function Decode(s: string): nat
    requires AllDigits(s)
  {
    if s == [] then 0 else Decode(s[..|s| - 1]) * Radix + DigitValue(s[|s| - 1])
  }

  lemma {:induction false} DecodeEncode(n: nat)
    ensures Decode(Encode(n)) == n
  {
    if n >= Radix {
      DecodeEncode(n / Radix);
      var s := Encode(n);
      assert s[..|s| - 1] == Encode(n / Radix);
      assert DigitValue(s[|s| - 1]) == n % Radix by {
        assert s[|s| - 1] == Digit(n % Radix);
      }
    }
  }

  /** Two numbers with the same rendering are the same number. */
  lemma EncodeInjective(m: nat, n: nat)
    requires Encode(m) == Encode(n)
    ensures m == n
  {
    DecodeEncode(m);
    DecodeEncode(n);
  }

  /** A number below 36^p needs at most p digits (p >= 1). */
  lemma {:induction false} EncodeLength(n: nat, p: nat)
    requires p >= 1 && n < Pow(Radix, p)
    ensures |Encode(n)| <= p
  {
    if n >= Radix {
      assert Pow(Radix, 1) == Radix;
      assert p >= 2;
      var q := Pow(Radix, p - 1);
      assert Pow(Radix, p) == Radix * q;
      assert Radix * (n / Radix) <= n;
      assert n / Radix < q;
      EncodeLength(n / Radix, p - 1);
    }
  }
}
