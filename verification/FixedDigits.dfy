/** Numbers as texts of a fixed number of digits, in base 10 or 16. */
module FixedDigits {
  import opened Wrappers

  predicate IsBase(base: nat) {
    base == 10 || base == 16
  }

  function DigitChar(d: nat): char
    requires d < 16
  {
    "0123456789abcdef"[d]
  }

  function DigitValue(c: char, base: nat): (d: Option<nat>)
    requires IsBase(base)
    ensures d.Some? ==> d.value < base
  {
    if '0' <= c <= '9' then Some((c - '0') as nat)
    else if base == 16 && 'a' <= c <= 'f' then Some((c - 'a') as nat + 10)
    else None
  }

  function Times(n: nat, base: nat): nat
    requires IsBase(base)
  {
    if base == 10 then 10 * n else 16 * n
  }

  function Higher(n: nat, base: nat): nat
    requires IsBase(base)
  {
    if base == 10 then n / 10 else n / 16
  }

  function Last(n: nat, base: nat): (d: nat)
    requires IsBase(base)
    ensures d < base
  {
    if base == 10 then n % 10 else n % 16
  }

  lemma Split(n: nat, base: nat)
    requires IsBase(base)
    ensures n == Times(Higher(n, base), base) + Last(n, base)
  {
  }

  lemma Join(higher: nat, last: nat, base: nat)
    requires IsBase(base) && last < base
    ensures Higher(Times(higher, base) + last, base) == higher && Last(Times(higher, base) + last, base) == last
  {
  }

  /** How many numbers a text of this width can hold. */
  function Power(base: nat, width: nat): (p: nat)
    requires IsBase(base)
    ensures p > 0
  {
    if width == 0 then 1 else Times(Power(base, width - 1), base)
  }

  function Digits(n: nat, width: nat, base: nat): (s: string)
    requires IsBase(base)
    ensures |s| == width
  {
    if width == 0 then "" else Digits(Higher(n, base), width - 1, base) + [DigitChar(Last(n, base))]
  }

  /** The number a text of digits stands for. */
  function Number(s: string, base: nat): Option<nat>
    requires IsBase(base)
  {
    if s == "" then Some(0)
    else
      var higher, last := Number(s[..|s| - 1], base), DigitValue(s[|s| - 1], base);
      if higher.None? || last.None? then None else Some(Times(higher.value, base) + last.value)
  }

  lemma DigitReadsBack(d: nat, base: nat)
    requires IsBase(base) && d < base
    ensures DigitValue(DigitChar(d), base) == Some(d)
  {
  }

  lemma DigitWritesBack(c: char, base: nat)
    requires IsBase(base) && DigitValue(c, base).Some?
    ensures DigitChar(DigitValue(c, base).value) == c
  {
  }

  lemma HigherFits(n: nat, width: nat, base: nat)
    requires IsBase(base) && width > 0 && n < Power(base, width)
    ensures Higher(n, base) < Power(base, width - 1)
  {
  }

  /** A number that fits reads back from its digits. */
  lemma {:induction false} DigitsReadBack(n: nat, width: nat, base: nat)
    requires IsBase(base) && n < Power(base, width)
    ensures Number(Digits(n, width, base), base) == Some(n)
  {
    if width > 0 {
      HigherFits(n, width, base);
      DigitsReadBack(Higher(n, base), width - 1, base);
      DigitReadsBack(Last(n, base), base);
      Split(n, base);
      var s := Digits(n, width, base);
      assert s[..|s| - 1] == Digits(Higher(n, base), width - 1, base);
    }
  }

  /** A text of digits stands for a number that fits, and is the text of that number. */
  lemma {:induction false} NumberWritesBack(s: string, base: nat)
    requires IsBase(base) && Number(s, base).Some?
    ensures Number(s, base).value < Power(base, |s|)
    ensures Digits(Number(s, base).value, |s|, base) == s
  {
    if s != "" {
      NumberWritesBack(s[..|s| - 1], base);
      var higher, last := Number(s[..|s| - 1], base).value, DigitValue(s[|s| - 1], base).value;
      DigitWritesBack(s[|s| - 1], base);
      Join(higher, last, base);
      assert Number(s, base).value == Times(higher, base) + last;
      assert s == s[..|s| - 1] + [s[|s| - 1]];
    }
  }

  // ---- order

  /** Texts of one length, compared character by character. */
  predicate TextBelow(s: string, t: string)
    requires |s| == |t|
  {
    s != "" && (s[0] < t[0] || (s[0] == t[0] && TextBelow(s[1..], t[1..])))
  }

  lemma {:induction false} BelowConcat(a: string, b: string, c: string, d: string)
    requires |a| == |b| && |c| == |d|
    ensures TextBelow(a + c, b + d) <==> TextBelow(a, b) || (a == b && TextBelow(c, d))
  {
    if a == "" {
      assert a + c == c && b + d == d;
    } else {
      BelowConcat(a[1..], b[1..], c, d);
      assert (a + c)[1..] == a[1..] + c && (b + d)[1..] == b[1..] + d;
      assert a == b <==> a[0] == b[0] && a[1..] == b[1..];
    }
  }

  /** Numbers of one width are ordered as their texts are. */
  lemma {:induction false} DigitsOrder(a: nat, b: nat, width: nat, base: nat)
    requires IsBase(base) && a < Power(base, width) && b < Power(base, width)
    ensures TextBelow(Digits(a, width, base), Digits(b, width, base)) <==> a < b
  {
    if width > 0 {
      var a', b' := Higher(a, base), Higher(b, base);
      HigherFits(a, width, base);
      HigherFits(b, width, base);
      DigitsOrder(a', b', width - 1, base);
      SameDigits(a', b', width - 1, base);
      HigherThenLast(a, b, base);
      BelowConcat(Digits(a', width - 1, base), Digits(b', width - 1, base),
                  [DigitChar(Last(a, base))], [DigitChar(Last(b, base))]);
      DigitCharOrder(Last(a, base), Last(b, base));
    }
  }

  lemma SameDigits(a: nat, b: nat, width: nat, base: nat)
    requires IsBase(base) && a < Power(base, width) && b < Power(base, width)
    ensures Digits(a, width, base) == Digits(b, width, base) <==> a == b
  {
    DigitsReadBack(a, width, base);
    DigitsReadBack(b, width, base);
  }

  lemma HigherThenLast(a: nat, b: nat, base: nat)
    requires IsBase(base)
    ensures a < b <==> Higher(a, base) < Higher(b, base) ||
                       (Higher(a, base) == Higher(b, base) && Last(a, base) < Last(b, base))
  {
  }

  lemma DigitCharOrder(c: nat, d: nat)
    requires c < 16 && d < 16
    ensures DigitChar(c) < DigitChar(d) <==> c < d
    ensures TextBelow([DigitChar(c)], [DigitChar(d)]) <==> c < d
  {
  }
}
