/**
 * JavaScript's `Number.prototype.toString(radix)` on integers and
 * `String.prototype.padStart`, together with the parser that undoes them.
 * Digits above 9 are the lower-case letters `a`..`f`, as JavaScript prints them.
 */
module RadixStrings {
  import opened Wrappers

  predicate ValidRadix(radix: nat) {
    2 <= radix <= 16
  }

  /** The character JavaScript prints for digit `d`. */
  function DigitChar(d: nat): (c: char)
    requires d < 16
    ensures DigitValue(c) == Some(d)
    ensures c !in "ABCDEF-"
  {
    if d < 10 then ('0' as int + d) as char else ('a' as int + (d - 10)) as char
  }

  /** The value of a digit character, or None for any other character. */
  function DigitValue(c: char): Option<nat> {
    if '0' <= c <= '9' then Some(c as int - '0' as int)
    else if 'a' <= c <= 'f' then Some(c as int - 'a' as int + 10)
    else None
  }

  predicate IsDigitOf(c: char, radix: nat) {
    DigitValue(c).Some? && DigitValue(c).value < radix
  }

  predicate AllDigits(s: string, radix: nat) {
    forall i :: 0 <= i < |s| ==> IsDigitOf(s[i], radix)
  }

  /** The number a digit string denotes, most significant digit first. */
  function DigitsValue(s: string, radix: nat): nat
    requires AllDigits(s, radix)
  {
    if |s| == 0 then 0
    else DigitsValue(s[..|s| - 1], radix) * radix + DigitValue(s[|s| - 1]).value
  }

  /** `n.toString(radix)` for a non-negative integer `n`. */
  function NatToString(n: nat, radix: nat): (r: string)
    requires ValidRadix(radix)
    ensures |r| >= 1
    ensures AllDigits(r, radix)
    ensures r[0] == '0' ==> n == 0
    ensures n < radix <==> |r| == 1
    ensures '-' !in r
    decreases n
  {
    if n < radix then [DigitChar(n)]
    else
      DivideByRadix(n, radix);
      var init := NatToString(n / radix, radix);
      var r := init + [DigitChar(n % radix)];
      assert r[0] == init[0];
      r
  }

  lemma DivideByRadix(n: nat, radix: nat)
    requires ValidRadix(radix) && n >= radix
    ensures 1 <= n / radix < n
    ensures n % radix < radix
    ensures n == (n / radix) * radix + n % radix
  {
  }

  /** `n.toString(radix)` for any integer: a minus sign, then the digits of `|n|`. */
  function IntToString(n: int, radix: nat): (r: string)
    requires ValidRadix(radix)
    ensures |r| >= 1
    ensures n < 0 <==> r[0] == '-'
    ensures n < 0 ==> r[1..] == NatToString(-n, radix)
    ensures n >= 0 ==> r == NatToString(n, radix)
  {
    if n < 0 then "-" + NatToString(-n, radix) else NatToString(n, radix)
  }

  /** Parses a non-empty digit string; None for the empty string or a non-digit. */
  function ParseNat(s: string, radix: nat): (r: Option<nat>)
    ensures r.Some? <==> |s| > 0 && AllDigits(s, radix)
  {
    if |s| > 0 && AllDigits(s, radix) then Some(DigitsValue(s, radix)) else None
  }

  /** Parses an optional leading minus sign followed by a non-empty digit string. */
  function ParseInt(s: string, radix: nat): (r: Option<int>)
    ensures |s| > 0 && s[0] == '-' ==> (r.Some? <==> ParseNat(s[1..], radix).Some?)
    ensures r.Some? && r.value > 0 ==> |s| > 0 && s[0] != '-'
  {
    if |s| > 0 && s[0] == '-' then
      match ParseNat(s[1..], radix)
      case Some(v) => Some(-(v as int))
      case None => None
    else
      match ParseNat(s, radix)
      case Some(v) => Some(v)
      case None => None
  }

  /** `k` copies of `c`. */
  function Repeat(c: char, k: nat): (r: string)
    ensures |r| == k
    ensures forall i :: 0 <= i < k ==> r[i] == c
  {
    if k == 0 then [] else [c] + Repeat(c, k - 1)
  }

  /** `s.padStart(width, [fill])`: `s` prefixed with `fill` up to `width` characters. */
  function PadStart(s: string, width: nat, fill: char): (r: string)
    ensures |r| == if |s| >= width then |s| else width
    ensures r[|r| - |s|..] == s
    ensures forall i :: 0 <= i < |r| - |s| ==> r[i] == fill
  {
    if |s| >= width then s else Repeat(fill, width - |s|) + s
  }

  lemma {:induction false} ValueOfDigitsAppended(s: string, c: char, radix: nat)
    requires AllDigits(s, radix) && IsDigitOf(c, radix)
    ensures AllDigits(s + [c], radix)
    ensures DigitsValue(s + [c], radix) == DigitsValue(s, radix) * radix + DigitValue(c).value
  {
    assert (s + [c])[..|s + [c]| - 1] == s;
  }

  /** Printing then parsing a non-negative integer gives it back. */
  lemma {:induction false} ParseNatToString(n: nat, radix: nat)
    requires ValidRadix(radix)
    ensures ParseNat(NatToString(n, radix), radix) == Some(n)
    decreases n
  {
    var r := NatToString(n, radix);
    if n < radix {
      assert r == [DigitChar(n)];
      assert r[..|r| - 1] == [];
      assert DigitsValue(r, radix) == DigitsValue([], radix) * radix + DigitValue(r[0]).value;
    } else {
      DivideByRadix(n, radix);
      var q := NatToString(n / radix, radix);
      ParseNatToString(n / radix, radix);
      ValueOfDigitsAppended(q, DigitChar(n % radix), radix);
      assert r == q + [DigitChar(n % radix)];
    }
  }

  /** All-zero digit strings denote 0. */
  lemma {:induction false} ZerosValue(k: nat, radix: nat)
    requires ValidRadix(radix)
    ensures AllDigits(Repeat('0', k), radix)
    ensures DigitsValue(Repeat('0', k), radix) == 0
    decreases k
  {
    var z := Repeat('0', k);
    if k > 0 {
      assert z[..k - 1] == Repeat('0', k - 1) by {
        ZerosPrefix(k);
      }
      ZerosValue(k - 1, radix);
    }
  }

  lemma {:induction false} ZerosPrefix(k: nat)
    requires k > 0
    ensures Repeat('0', k)[..k - 1] == Repeat('0', k - 1)
  {
    var z := Repeat('0', k);
    var y := Repeat('0', k - 1);
    assert |z[..k - 1]| == |y|;
    forall i | 0 <= i < k - 1
      ensures z[..k - 1][i] == y[i]
    {
    }
  }

  /** Leading zeros do not change the value of a digit string. */
  lemma {:induction false} LeadingZerosValue(k: nat, s: string, radix: nat)
    requires ValidRadix(radix) && AllDigits(s, radix)
    ensures AllDigits(Repeat('0', k) + s, radix)
    ensures DigitsValue(Repeat('0', k) + s, radix) == DigitsValue(s, radix)
    decreases |s|
  {
    var z := Repeat('0', k);
    ZerosValue(k, radix);
    if |s| == 0 {
      assert z + s == z;
    } else {
      var init := s[..|s| - 1];
      var last := s[|s| - 1];
      assert s == init + [last];
      assert z + s == (z + init) + [last];
      LeadingZerosValue(k, init, radix);
      ValueOfDigitsAppended(z + init, last, radix);
      ValueOfDigitsAppended(init, last, radix);
    }
  }

  /** Parsing undoes zero padding of a printed non-negative integer. */
  lemma ParsePaddedNat(n: nat, radix: nat, width: nat)
    requires ValidRadix(radix)
    ensures ParseNat(PadStart(NatToString(n, radix), width, '0'), radix) == Some(n)
  {
    var s := NatToString(n, radix);
    ParseNatToString(n, radix);
    if |s| < width {
      LeadingZerosValue(width - |s|, s, radix);
    }
  }

  /**
   * Parsing undoes `IntToString` followed by zero padding, provided the padding
   * cannot land in front of a minus sign.
   */
  lemma ParsePaddedInt(n: int, radix: nat, width: nat)
    requires ValidRadix(radix)
    requires n < 0 ==> width <= 2
    ensures ParseInt(PadStart(IntToString(n, radix), width, '0'), radix) == Some(n)
  {
    if n < 0 {
      ParseNegative(n, radix);
    } else {
      ParsePaddedNat(n, radix, width);
      ParseWithoutSign(PadStart(NatToString(n, radix), width, '0'), radix);
    }
  }

  lemma ParseNegative(n: int, radix: nat)
    requires ValidRadix(radix) && n < 0
    ensures ParseInt(IntToString(n, radix), radix) == Some(n)
  {
    var m: nat := -n;
    var s := IntToString(n, radix);
    ParseNatToString(m, radix);
    assert ParseInt(s, radix) == Some(-(m as int));
  }

  /** A string that parses as a natural number has no sign, so it parses as the same integer. */
  lemma ParseWithoutSign(s: string, radix: nat)
    requires ParseNat(s, radix).Some?
    ensures ParseInt(s, radix) == Some(ParseNat(s, radix).value as int)
  {
    assert IsDigitOf(s[0], radix);
  }
}
