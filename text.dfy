/** Decimal rendering of naturals, zero padding and ASCII lower-casing: the
    string building that validators, backup suffixes and flag parsing rely on. */
module Text {

  predicate IsDigit(c: char) {
    '0' <= c <= '9'
  }

  predicate AllDigits(s: string) {
    forall i :: 0 <= i < |s| ==> IsDigit(s[i])
  }

  function DigitChar(d: nat): (c: char)
    requires d < 10
    ensures IsDigit(c) && (c as int) - ('0' as int) == d
  {
    ('0' as int + d) as char
  }

  /** `String(n)` / template interpolation of a non-negative integer. */
  function NatToString(n: nat): (s: string)
    ensures |s| >= 1 && AllDigits(s)
    ensures n == 0 ==> s == "0"
    ensures n > 0 ==> s[0] != '0'
    decreases n
  {
    if n < 10 then [DigitChar(n)] else NatToString(n / 10) + [DigitChar(n % 10)]
  }

  /** The value of a string of decimal digits, read from the left. */
  function DigitsValue(s: string): nat
    requires AllDigits(s)
  {
    if s == [] then 0
    else DigitsValue(s[..|s| - 1]) * 10 + ((s[|s| - 1] as int) - ('0' as int))
  }

  lemma {:induction false} NatToStringRoundTrip(n: nat)
    ensures DigitsValue(NatToString(n)) == n
    decreases n
  {
    if n >= 10 {
      var s := NatToString(n);
      assert s[..|s| - 1] == NatToString(n / 10);
      NatToStringRoundTrip(n / 10);
    }
  }

  lemma NatToStringInjective(m: nat, n: nat)
    ensures NatToString(m) == NatToString(n) <==> m == n
  {
    if NatToString(m) == NatToString(n) {
      NatToStringRoundTrip(m);
      NatToStringRoundTrip(n);
    }
  }

  function Pow10(k: nat): (p: nat)
    ensures p >= 1
  {
    if k == 0 then 1 else 10 * Pow10(k - 1)
  }

  lemma {:induction false} NatToStringWidth(n: nat, k: nat)
    requires 1 <= k && n < Pow10(k)
    ensures |NatToString(n)| <= k
    decreases n
  {
    if n >= 10 {
      assert n / 10 < Pow10(k - 1);
      NatToStringWidth(n / 10, k - 1);
    }
  }

  function Zeros(k: nat): (z: string)
    ensures |z| == k && forall i :: 0 <= i < k ==> z[i] == '0'
  {
    if k == 0 then [] else ['0'] + Zeros(k - 1)
  }

  /** `s.padStart(width, "0")`: a string already at least `width` long is kept. */
  function PadStart(s: string, width: nat): (r: string)
    ensures |r| == if |s| >= width then |s| else width
    ensures r[|r| - |s|..] == s
    ensures forall i :: 0 <= i < |r| - |s| ==> r[i] == '0'
  {
    if |s| >= width then s else Zeros(width - |s|) + s
  }

  lemma {:induction false} LeadingZeroValue(s: string)
    requires AllDigits(s)
    ensures AllDigits(['0'] + s) && DigitsValue(['0'] + s) == DigitsValue(s)
    decreases |s|
  {
    if s != [] {
      var t := ['0'] + s;
      assert t[..|t| - 1] == ['0'] + s[..|s| - 1];
      LeadingZeroValue(s[..|s| - 1]);
    }
  }

  lemma {:induction false} ZerosValue(k: nat, s: string)
    requires AllDigits(s)
    ensures AllDigits(Zeros(k) + s) && DigitsValue(Zeros(k) + s) == DigitsValue(s)
    decreases k
  {
    if k > 0 {
      var rest := Zeros(k - 1) + s;
      ZerosValue(k - 1, s);
      LeadingZeroValue(rest);
      assert Zeros(k) + s == ['0'] + rest;
    } else {
      assert Zeros(k) + s == s;
    }
  }

  /** Zero padding digits up to `width` keeps their value. */
  lemma PadDigits(d: string, width: nat)
    requires AllDigits(d) && |d| <= width
    ensures var s := PadStart(d, width);
      |s| == width && AllDigits(s) && DigitsValue(s) == DigitsValue(d)
  {
    ZerosValue(width - |d|, d);
    if |d| == width {
      assert Zeros(0) + d == d;
    }
  }

  /** Zero padding a decimal rendering to `width` keeps its value and gives
      exactly `width` characters when the number fits. */
  lemma PaddedDecimal(n: nat, width: nat)
    requires 1 <= width && n < Pow10(width)
    ensures var s := PadStart(NatToString(n), width);
      |s| == width && AllDigits(s) && DigitsValue(s) == n
  {
    NatToStringWidth(n, width);
    NatToStringRoundTrip(n);
    PadDigits(NatToString(n), width);
  }

  function LowerChar(c: char): (l: char)
    ensures 'A' <= c <= 'Z' ==> l as int == c as int + 32
    ensures !('A' <= c <= 'Z') ==> l == c
  {
    if 'A' <= c <= 'Z' then (c as int + 32) as char else c
  }

  /** `toLowerCase()` restricted to ASCII letters. */
  function Lower(s: string): (r: string)
    ensures |r| == |s| && forall i :: 0 <= i < |s| ==> r[i] == LowerChar(s[i])
  {
    if s == [] then [] else [LowerChar(s[0])] + Lower(s[1..])
  }

  predicate StartsWith(s: string, prefix: string) {
    |prefix| <= |s| && s[..|prefix|] == prefix
  }

  lemma SeparatorInsideDigits(a: string, b: string, c: string, d: string, sep: char)
    requires AllDigits(c) && !IsDigit(sep) && |a| < |c|
    ensures a + [sep] + b != c + [sep] + d
  {
    assert (a + [sep] + b)[|a|] == sep;
    assert (c + [sep] + d)[|a|] == c[|a|];
  }

  /** A decimal rendering, a separator that is not a digit and anything else
      split back uniquely: the first separator after the digits is the one. */
  lemma {:induction false} SplitAtSeparator(a: string, b: string, c: string, d: string, sep: char)
    requires AllDigits(a) && AllDigits(c) && !IsDigit(sep)
    requires a + [sep] + b == c + [sep] + d
    ensures a == c && b == d
  {
    var x := a + [sep] + b;
    if |a| < |c| {
      SeparatorInsideDigits(a, b, c, d, sep);
      assert false;
    } else if |c| < |a| {
      SeparatorInsideDigits(c, d, a, b, sep);
      assert false;
    }
    assert a == x[..|a|] == c;
    assert b == x[|a| + 1..] == d;
  }
}
