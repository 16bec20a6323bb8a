/** Decimal text of integers (`Number.prototype.toString` on integer values) and
    `String.prototype.padStart` with a one-character filler. */
module NumberText {
  import opened Rows

  predicate IsDigit(c: char)
  {
    '0' <= c <= '9'
  }

  predicate AllDigits(s: string)
  {
    forall i :: 0 <= i < |s| ==> IsDigit(s[i])
  }

  function DigitChar(d: nat): (c: char)
    requires d < 10
    ensures IsDigit(c)
  {
    ('0' as int + d) as char
  }

  function DigitValue(c: char): (d: nat)
    requires IsDigit(c)
    ensures d < 10
  {
    c as int - '0' as int
  }

  /** `n.toString()` for `n >= 0`: no leading zero except for 0 itself. */
  function NatToString(n: nat): (s: string)
    ensures |s| >= 1 && AllDigits(s)
    ensures n > 0 ==> s[0] != '0'
    ensures n < 10 <==> |s| == 1
  {
    if n < 10 then [DigitChar(n)] else NatToString(n / 10) + [DigitChar(n % 10)]
  }

  /** `n.toString()` for any integer: a minus sign before the digits of `-n`.
      The text starts with '-' exactly for a negative number; otherwise it is all
      digits. */
  function IntToString(n: int): (s: string)
    ensures n >= 0 ==> s == NatToString(n)
    ensures n < 0 ==> s == "-" + NatToString(-n)
    ensures |s| >= 1 && (s[0] == '-' <==> n < 0)
    ensures AllDigits(s) <==> n >= 0
  {
    if n < 0 then "-" + NatToString(-n) else NatToString(n)
  }

  /** The value of a string of decimal digits, most significant first. */
  function DigitsValue(s: string): nat
    requires AllDigits(s)
  {
    if s == [] then 0 else DigitsValue(s[..|s| - 1]) * 10 + DigitValue(s[|s| - 1])
  }

  lemma {:induction false} NatToStringRoundTrip(n: nat)
    ensures DigitsValue(NatToString(n)) == n
  {
    if n >= 10 {
      NatToStringRoundTrip(n / 10);
      var s := NatToString(n);
      assert s[..|s| - 1] == NatToString(n / 10);
    }
  }

  /** The integer a decimal text denotes: one or more digits, possibly after a
      '-'. The empty text, a lone sign and any other character denote none. */
  function ParseDecimal(s: string): (r: Option<int>)
    ensures s == [] || s == "-" ==> r.None?
    ensures r.Some? && s[0] != '-' ==> r.value >= 0
    ensures r.Some? && s[0] == '-' ==> r.value <= 0
  {
    if s != [] && AllDigits(s) then Some(DigitsValue(s))
    else if |s| >= 2 && s[0] == '-' && AllDigits(s[1..]) then Some(0 - DigitsValue(s[1..]) as int)
    else None
  }

  /** A digit text reads as its value. */
  lemma PlainText(digits: string)
    requires |digits| >= 1 && AllDigits(digits)
    ensures ParseDecimal(digits) == Some(DigitsValue(digits) as int)
  {
  }

  /** A '-' before a digit text reads as the negated value of the digits. */
  lemma NegativeText(digits: string)
    requires |digits| >= 1 && AllDigits(digits)
    ensures ParseDecimal("-" + digits) == Some(0 - DigitsValue(digits) as int)
  {
    var s := "-" + digits;
    assert s[1..] == digits;
    assert !IsDigit(s[0]);
  }

  /** `n.toString()` reads back as `n`, for every integer. */
  lemma IntTextRoundTrip(n: int)
    ensures ParseDecimal(IntToString(n)) == Some(n)
  {
    var m: nat := if n < 0 then -n else n;
    var digits := NatToString(m);
    NatToStringRoundTrip(m);
    assert DigitsValue(digits) == m;
    if n < 0 {
      assert IntToString(n) == "-" + digits;
      NegativeText(digits);
    } else {
      assert IntToString(n) == digits;
      PlainText(digits);
    }
  }

  function Repeat(c: char, k: nat): (r: string)
    ensures |r| == k && forall i :: 0 <= i < k ==> r[i] == c
  {
    if k == 0 then [] else [c] + Repeat(c, k - 1)
  }

  /** `s.padStart(width, fill)`: `fill` repeated in front until `width` is reached;
      a string already that long is returned as it is. */
  function PadStart(s: string, width: nat, fill: char): (r: string)
    ensures |r| == if |s| >= width then |s| else width
    ensures r[|r| - |s|..] == s
    ensures forall i :: 0 <= i < |r| - |s| ==> r[i] == fill
  {
    if |s| >= width then s else Repeat(fill, width - |s|) + s
  }

  lemma {:induction false} ZerosValue(k: nat)
    ensures AllDigits(Repeat('0', k)) && DigitsValue(Repeat('0', k)) == 0
  {
    if k > 0 {
      ZerosValue(k - 1);
      var z := Repeat('0', k);
      assert z[..|z| - 1] == Repeat('0', k - 1);
    }
  }

  /** Leading zeros do not change the value of a digit string. */
  lemma {:induction false} LeadingZerosValue(k: nat, s: string)
    requires AllDigits(s)
    ensures AllDigits(Repeat('0', k) + s)
    ensures DigitsValue(Repeat('0', k) + s) == DigitsValue(s)
  {
    var z := Repeat('0', k);
    if s == [] {
      ZerosValue(k);
      assert z + s == z;
    } else {
      var front := s[..|s| - 1];
      LeadingZerosValue(k, front);
      var t := z + s;
      assert t[..|t| - 1] == z + front;
      assert t[|t| - 1] == s[|s| - 1];
    }
  }

  /** Drops every leading '0'. */
  function StripLeadingZeros(s: string): (r: string)
    ensures r == [] || r[0] != '0'
  {
    if s != [] && s[0] == '0' then StripLeadingZeros(s[1..]) else s
  }

  lemma {:induction false} StripRepeatedZeros(k: nat, s: string)
    requires s == [] || s[0] != '0'
    ensures StripLeadingZeros(Repeat('0', k) + s) == s
  {
    if k > 0 {
      StripRepeatedZeros(k - 1, s);
      assert (Repeat('0', k) + s)[1..] == Repeat('0', k - 1) + s;
    }
  }
}
