/** Decimal numerals as Go prints and reads them; a text is its bytes. */
module Decimals {
  import opened Basics

  predicate IsDigit(c: char) {
    '0' <= c <= '9'
  }

  function DigitChar(n: nat): (c: char)
    requires n < 10
    ensures IsDigit(c)
  {
    '0' + n as char
  }

  function DigitValue(c: char): nat
    requires IsDigit(c)
  {
    c as nat - '0' as nat
  }

  predicate AllDigits(s: string) {
    forall i :: 0 <= i < |s| ==> IsDigit(s[i])
  }

  /** A natural number without padding. */
  function Dec(n: nat): (s: string)
    ensures |s| >= 1 && AllDigits(s)
  {
    if n < 10 then [DigitChar(n)] else Dec(n / 10) + [DigitChar(n % 10)]
  }

  function Value(s: string): nat
    requires AllDigits(s)
  {
    if s == "" then 0 else 10 * Value(s[..|s| - 1]) + DigitValue(s[|s| - 1])
  }

  function Zeros(n: nat): (s: string)
    ensures |s| == n && AllDigits(s)
  {
    if n == 0 then "" else Zeros(n - 1) + "0"
  }

  /** At least this many digits, filled up with zeros on the left. */
  function Padded(n: nat, width: nat): (s: string)
    ensures AllDigits(s) && |s| >= 1 && |s| >= width
  {
    var s := Dec(n);
    if |s| >= width then s else Zeros(width - |s|) + s
  }

  function Power10(k: nat): nat {
    if k == 0 then 1 else 10 * Power10(k - 1)
  }

  lemma {:induction false} DecLength(n: nat, k: nat)
    requires k >= 1
    ensures |Dec(n)| <= k <==> n < Power10(k)
    decreases k
  {
    if n >= 10 && k > 1 {
      DecLength(n / 10, k - 1);
    } else if n < 10 {
      PowerGrows(k);
    }
  }

  lemma {:induction false} PowerGrows(k: nat)
    requires k >= 1
    ensures Power10(k) >= 10
  {
    if k > 1 {
      PowerGrows(k - 1);
    }
  }

  lemma {:induction false} DecValue(n: nat)
    ensures Value(Dec(n)) == n
  {
    if n >= 10 {
      DecValue(n / 10);
      assert Dec(n)[..|Dec(n)| - 1] == Dec(n / 10);
    }
  }

  lemma {:induction false} ZerosValue(z: nat, s: string)
    requires AllDigits(s)
    ensures Value(Zeros(z) + s) == Value(s)
  {
    if s == "" {
      assert Zeros(z) + s == Zeros(z);
      if z > 0 {
        ZerosValue(z - 1, "");
        assert Zeros(z - 1) + "" == Zeros(z - 1);
        assert Zeros(z)[..z - 1] == Zeros(z - 1);
      }
    } else {
      var t := Zeros(z) + s;
      assert t[..|t| - 1] == Zeros(z) + s[..|s| - 1];
      ZerosValue(z, s[..|s| - 1]);
    }
  }

  /** Reading a padded numeral gives the number back. */
  lemma PaddedValue(n: nat, width: nat)
    ensures Value(Padded(n, width)) == n
  {
    var s := Dec(n);
    DecValue(n);
    if |s| < width {
      ZerosValue(width - |s|, s);
    }
  }

  /** The width is kept just while the number fits. */
  lemma PaddedLength(n: nat, width: nat)
    requires width >= 1
    ensures |Padded(n, width)| == width <==> n < Power10(width)
  {
    DecLength(n, width);
  }

  lemma {:induction false} ValueBound(s: string)
    requires AllDigits(s)
    ensures Value(s) < Power10(|s|)
  {
    if s != "" {
      ValueBound(s[..|s| - 1]);
    }
  }

  /** Of one length, different digits are different numbers. */
  lemma {:induction false} SameValueSameDigits(a: string, b: string)
    requires |a| == |b| && AllDigits(a) && AllDigits(b) && Value(a) == Value(b)
    ensures a == b
  {
    if a != "" {
      var n := |a| - 1;
      assert DigitValue(a[n]) == Value(a) % 10 && DigitValue(b[n]) == Value(b) % 10;
      SameValueSameDigits(a[..n], b[..n]);
      assert a == a[..n] + [a[n]] && b == b[..n] + [b[n]];
    }
  }

  /** A numeral of just the width is what its number is printed as. */
  lemma PaddedOfValue(s: string)
    requires s != "" && AllDigits(s)
    ensures Padded(Value(s), |s|) == s
  {
    ValueBound(s);
    PaddedLength(Value(s), |s|);
    PaddedValue(Value(s), |s|);
    SameValueSameDigits(Padded(Value(s), |s|), s);
  }

  /** time.Time.Format: the sign does not count towards the width. */
  function FormatInt(x: int, width: nat): string {
    if x < 0 then "-" + Padded(-x, width) else Padded(x, width)
  }

  /** fmt's %0<width>d: the sign does. */
  function SprintfInt(x: int, width: nat): string
    requires width >= 1
  {
    if x < 0 then "-" + Padded(-x, width - 1) else Padded(x, width)
  }

  /** As many digits as there are, from the front. */
  function DigitsAhead(s: string): (n: nat)
    ensures n <= |s| && AllDigits(s[..n]) && (n < |s| ==> !IsDigit(s[n]))
  {
    if s == "" || !IsDigit(s[0]) then 0
    else
      var n := DigitsAhead(s[1..]);
      assert s[..n + 1] == [s[0]] + s[1..][..n];
      n + 1
  }

  /** How many bytes the blank at the front of a text takes in UTF-8; 0 is none. A line's end is not one. */
  function BlankAhead(s: string): (n: nat)
    ensures n <= |s| && (s != "" && (IsDigit(s[0]) || s[0] == '-') ==> n == 0)
  {
    if s == "" then 0
    else if s[0] == ' ' || (9 as char <= s[0] <= 13 as char && s[0] != '\n') then 1
    else if |s| >= 2 && s[0] == 0xc2 as char && (s[1] == 0x85 as char || s[1] == 0xa0 as char) then 2
    else if |s| >= 3 && WideBlank(s[0] as nat, s[1] as nat, s[2] as nat) then 3
    else 0
  }

  predicate WideBlank(a: nat, b: nat, c: nat) {
    || (a == 0xe1 && b == 0x9a && c == 0x80)
    || (a == 0xe2 && b == 0x80 && (0x80 <= c <= 0x8a || c == 0xa8 || c == 0xa9 || c == 0xaf))
    || (a == 0xe2 && b == 0x81 && c == 0x9f)
    || (a == 0xe3 && b == 0x80 && c == 0x80)
  }

  function SkipBlanks(s: string): (rest: string)
    ensures |rest| <= |s| && (s != "" && (IsDigit(s[0]) || s[0] == '-') ==> rest == s)
  {
    if BlankAhead(s) == 0 then s else SkipBlanks(s[BlankAhead(s)..])
  }

  /** An int has 64 bits. */
  predicate Is64Bit(x: int) {
    -0x8000_0000_0000_0000 <= x < 0x8000_0000_0000_0000
  }

  /** Sscanf's %d: blanks, an optional sign and at least one digit; the rest is left for what follows. */
  function ScanInt(s: string): Option<(int, string)> {
    ScanSigned(SkipBlanks(s))
  }

  function ScanSigned(s: string): Option<(int, string)> {
    if s == "" then None
    else
      var sign := if s[0] == '-' then -1 else 1;
      var rest := if s[0] == '-' || s[0] == '+' then s[1..] else s;
      var n := DigitsAhead(rest);
      if n == 0 || !Is64Bit(sign * Value(rest[..n])) then None else Some((sign * Value(rest[..n]), rest[n..]))
  }

  /** A numeral is read to its end, with or without a sign in front. */
  lemma ScanDigits(s: string, rest: string)
    requires s != "" && AllDigits(s) && (rest == "" || !IsDigit(rest[0])) && Is64Bit(Value(s))
    ensures ScanInt(s + rest) == Some((Value(s) as int, rest))
  {
    AheadOfRest(s, rest);
    var t := s + rest;
    assert IsDigit(t[0]) && t[..|s|] == s && t[|s|..] == rest;
  }

  lemma ScanMinusDigits(s: string, rest: string)
    requires s != "" && AllDigits(s) && (rest == "" || !IsDigit(rest[0])) && Is64Bit(-1 * Value(s))
    ensures ScanInt("-" + (s + rest)) == Some((-1 * Value(s), rest))
  {
    AheadOfRest(s, rest);
    var t := s + rest;
    assert ("-" + t)[1..] == t;
    assert t[..|s|] == s && t[|s|..] == rest;
  }

  lemma {:induction false} AheadOfRest(s: string, rest: string)
    requires AllDigits(s) && (rest == "" || !IsDigit(rest[0]))
    ensures DigitsAhead(s + rest) == |s|
  {
    if s != "" {
      assert (s + rest)[1..] == s[1..] + rest;
      AheadOfRest(s[1..], rest);
    } else {
      assert s + rest == rest;
    }
  }
}
