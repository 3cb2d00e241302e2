/**
 * Positional numerals as the bench script reads and writes them: Python's
 * `format(v, '02x')` for register values and `int(...)` for the decimal
 * timings the measurement tool prints.
 */
module Numerals {
  import opened Wrappers

  /** The two bases the script uses: 10 for timings, 16 for register bytes. */
  predicate IsBase(base: nat) {
    base == 10 || base == 16
  }

  /** The lower-case digit for d, as Python's hexadecimal formatting writes it. */
  function DigitChar(d: nat): (c: char)
    requires d < 16
  {
    if d < 10 then ('0' as int + d) as char else ('a' as int + d - 10) as char
  }

  /** The value of c as a digit of the given base, or None if it is not one. */
  function DigitValue(c: char, base: nat): (r: Option<nat>)
    requires IsBase(base)
    ensures r.Some? ==> r.value < base && DigitChar(r.value) == c
  {
    if '0' <= c <= '9' then Some(c as int - '0' as int)
    else if base == 16 && 'a' <= c <= 'f' then Some(c as int - 'a' as int + 10)
    else None
  }

  lemma DigitRoundTrip(d: nat, base: nat)
    requires IsBase(base) && d < base
    ensures DigitValue(DigitChar(d), base) == Some(d)
  {
  }

  /** A non-empty string made only of digits of the base. */
  predicate IsNumeral(s: string, base: nat)
    requires IsBase(base)
  {
    |s| > 0 && forall i :: 0 <= i < |s| ==> DigitValue(s[i], base).Some?
  }

  /** The shortest numeral for n (no leading zeros; "0" for zero). */
  function ToNumeral(n: nat, base: nat): (s: string)
    requires IsBase(base)
    decreases n
  {
    if n < base then [DigitChar(n)] else ToNumeral(n / base, base) + [DigitChar(n % base)]
  }

  /** The value of a numeral, most significant digit first; None for anything else. */
  function ParseNumeral(s: string, base: nat): (r: Option<nat>)
    requires IsBase(base)
    ensures r.Some? <==> IsNumeral(s, base)
    decreases |s|
  {
    if |s| == 0 then None
    else
      var d := DigitValue(s[|s| - 1], base);
      if d.None? then None
      else if |s| == 1 then Some(d.value)
      else
        match ParseNumeral(s[..|s| - 1], base)
        case None => None
        case Some(h) => Some(h * base + d.value)
  }

  lemma {:induction false} NumeralRoundTrip(n: nat, base: nat)
    requires IsBase(base)
    ensures ParseNumeral(ToNumeral(n, base), base) == Some(n)
    decreases n
  {
    DigitRoundTrip(n % base, base);
    if n >= base {
      var s := ToNumeral(n, base);
      assert s[..|s| - 1] == ToNumeral(n / base, base);
      NumeralRoundTrip(n / base, base);
    }
  }

  /** Python's `format(v, '02x')`: lower-case hexadecimal, zero-padded to at least two characters. */
  function Format02x(v: int): (s: string) {
    if v < 0 then "-" + ToNumeral(-v, 16)
    else if v < 16 then "0" + ToNumeral(v, 16)
    else ToNumeral(v, 16)
  }

  lemma {:induction false} Format02xRoundTrip(v: nat)
    ensures ParseNumeral(Format02x(v), 16) == Some(v)
    ensures |Format02x(v)| == 2 <==> v < 256
  {
    if v < 16 {
      DigitRoundTrip(0, 16);
      DigitRoundTrip(v, 16);
      assert Format02x(v) == ['0', DigitChar(v)];
    } else {
      NumeralRoundTrip(v, 16);
      assert v >= 256 ==> ToNumeral(v / 16, 16) == ToNumeral(v / 256, 16) + [DigitChar(v / 16 % 16)];
    }
  }

  /** Every character Format02x writes is a hexadecimal digit or a minus sign. */
  lemma {:induction false} Format02xAlphabet(v: int, i: int)
    requires 0 <= i < |Format02x(v)|
    ensures Format02x(v)[i] == '-' || DigitValue(Format02x(v)[i], 16).Some?
  {
    var n := if v < 0 then -v else v;
    NumeralRoundTrip(n, 16);
    var t := ToNumeral(n, 16);
    assert IsNumeral(t, 16);
    if v < 0 || v < 16 {
      assert Format02x(v) == [Format02x(v)[0]] + t;
      if i > 0 {
        assert Format02x(v)[i] == t[i - 1];
      }
    }
  }
}
