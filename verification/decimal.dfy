/**
  Decimal text as the resolver and the substitution engine see it: Rust's
  `str::parse::<usize>` (on a 64-bit target) and the decimal rendering of
  an integer (`Number::to_string`).
 */
module Decimal {
  import opened Wrappers

  /** Largest `usize` on a 64-bit target. */
  const USIZE_MAX: nat := 0xFFFF_FFFF_FFFF_FFFF

  predicate IsDigit(c: char) {
    '0' <= c <= '9'
  }

  predicate AllDigits(s: string) {
    forall i :: 0 <= i < |s| ==> IsDigit(s[i])
  }

  function DigitValue(c: char): nat
    requires IsDigit(c)
  {
    c as int - '0' as int
  }

  function DigitChar(d: nat): (c: char)
    requires d < 10
    ensures IsDigit(c) && DigitValue(c) == d
  {
    ('0' as int + d) as char
  }

  /** The number a digit string denotes when read left to right after `acc`. */
  function ValueFrom(acc: nat, s: string): nat
    requires AllDigits(s)
    decreases |s|
  {
    if |s| == 0 then acc else ValueFrom(acc * 10 + DigitValue(s[0]), s[1..])
  }

  /**
    The digit loop of `usize::from_str_radix`: every character must be an
    ASCII digit, and the accumulated value may never exceed `USIZE_MAX`
    (the checked multiply and add fail on overflow). From a start value
    that fits, it accepts exactly the all-digit strings whose value fits.
   */
  function ParseDigits(s: string, acc: nat): (r: Option<nat>)
    ensures acc <= USIZE_MAX ==>
              r == if AllDigits(s) && ValueFrom(acc, s) <= USIZE_MAX then Some(ValueFrom(acc, s)) else None
    decreases |s|
  {
    if |s| == 0 then Some(acc)
    else if !IsDigit(s[0]) then None
    else
      var next := acc * 10 + DigitValue(s[0]);
      AllDigitsTail(s);
      if next > USIZE_MAX then
        (if AllDigits(s) then ValueFromAtLeast(next, s[1..]); None else None)
      else ParseDigits(s[1..], next)
  }

  /**
    `s.parse::<usize>()`: the empty string fails, a lone sign fails, one
    leading `+` is skipped (a `-` is just an invalid digit for an unsigned
    type), and the rest goes through the digit loop. It succeeds exactly on
    `IsUsizeText`, with the value the digits denote.
   */
  function ParseUsize(s: string): (r: Option<nat>)
    ensures r == if IsUsizeText(s) then Some(ValueFrom(0, UnsignedDigits(s))) else None
  {
    if |s| == 0 then None
    else if s[0] == '+' then (if |s| == 1 then None else ParseDigits(s[1..], 0))
    else ParseDigits(s, 0)
  }

  /** The digits after an optional leading `+`. */
  function UnsignedDigits(s: string): string {
    if |s| > 0 && s[0] == '+' then s[1..] else s
  }

  /** Declarative reading of the text `parse::<usize>` accepts. */
  predicate IsUsizeText(s: string) {
    var d := UnsignedDigits(s);
    |d| > 0 && AllDigits(d) && ValueFrom(0, d) <= USIZE_MAX
  }

  lemma {:induction false} ValueFromAtLeast(acc: nat, s: string)
    requires AllDigits(s)
    ensures ValueFrom(acc, s) >= acc
    decreases |s|
  {
    if |s| > 0 {
      ValueFromAtLeast(acc * 10 + DigitValue(s[0]), s[1..]);
    }
  }

  lemma AllDigitsTail(s: string)
    requires |s| > 0 && IsDigit(s[0])
    ensures AllDigits(s) <==> AllDigits(s[1..])
  {
    if AllDigits(s[1..]) {
      forall i | 0 <= i < |s| ensures IsDigit(s[i]) {
        if i > 0 { assert s[i] == s[1..][i - 1]; }
      }
    }
  }

  /** Canonical decimal text of a natural number: no sign, no leading zero. */
  function NatToString(n: nat): (r: string)
    ensures |r| > 0 && AllDigits(r)
    ensures r[0] == '0' ==> r == "0"
    ensures ValueFrom(0, r) == n
    decreases n
  {
    if n < 10 then
      var r := [DigitChar(n)];
      assert r[1..] == [];
      r
    else
      var prefix := NatToString(n / 10);
      ValueFromSnoc(0, prefix, DigitChar(n % 10));
      prefix + [DigitChar(n % 10)]
  }

  /** `Number::to_string` for an integer: a `-` for negatives, then the digits. */
  function IntToString(n: int): (r: string)
    ensures |r| > 0
    ensures r[0] == '-' <==> n < 0
    ensures var digits := if n < 0 then r[1..] else r;
            && |digits| > 0 && AllDigits(digits)
            && (digits[0] == '0' ==> digits == "0")
            && ValueFrom(0, digits) == if n < 0 then -n else n
    ensures 0 <= n <= USIZE_MAX ==> ParseUsize(r) == Some(n)
    ensures n < 0 ==> ParseUsize(r).None?
    ensures n < 0 && -n <= USIZE_MAX ==> ParseUsize(r[1..]) == Some(-n)
  {
    if n < 0 then
      var r := "-" + NatToString(-n);
      assert r[1..] == NatToString(-n);
      assert ParseUsize(r).None? by { assert !AllDigits(r) by { assert !IsDigit(r[0]); } }
      if -n <= USIZE_MAX then ParseRendered(-n); r else r
    else
      if n <= USIZE_MAX then ParseRendered(n); NatToString(n) else NatToString(n)
  }

  lemma {:induction false} ValueFromSnoc(acc: nat, s: string, c: char)
    requires AllDigits(s) && IsDigit(c)
    ensures AllDigits(s + [c])
    ensures ValueFrom(acc, s + [c]) == ValueFrom(acc, s) * 10 + DigitValue(c)
    decreases |s|
  {
    if |s| > 0 {
      assert (s + [c])[1..] == s[1..] + [c];
      ValueFromSnoc(acc * 10 + DigitValue(s[0]), s[1..], c);
    } else {
      assert (s + [c])[1..] == [];
    }
  }

  /** Rendering then parsing is the identity on every `usize`. */
  lemma ParseRendered(n: nat)
    requires n <= USIZE_MAX
    ensures ParseUsize(NatToString(n)) == Some(n)
  {
  }

  /**
    `parse::<usize>` is not injective: a leading zero or a leading `+`
    denote the same index as the canonical text, which differs from both.
   */
  lemma NonCanonicalIndexText(n: nat)
    requires n <= USIZE_MAX
    ensures ParseUsize("0" + NatToString(n)) == Some(n)
    ensures ParseUsize("+" + NatToString(n)) == Some(n)
    ensures "0" + NatToString(n) != NatToString(n)
    ensures "+" + NatToString(n) != NatToString(n)
  {
    var d := NatToString(n);
    assert AllDigits("0" + d) by {
      forall i | 0 <= i < |"0" + d| ensures IsDigit(("0" + d)[i]) {
        if i > 0 { assert ("0" + d)[i] == d[i - 1]; }
      }
    }
    assert ("0" + d)[1..] == d;
    assert ValueFrom(0, "0" + d) == ValueFrom(0, d);
    assert ("+" + d)[1..] == d;
    assert |"0" + d| != |d|;
  }
}
