/** ASCII decimal digits: reading a run of digits as a number (`int(...)`, the
    `\d` of the patterns) and writing a number zero-padded to a fixed width
    (`%04d`, `%02d`). */
module Digits {

  predicate IsDigit(c: char) {
    '0' <= c <= '9'
  }

  predicate AllDigits(s: string) {
    forall i | 0 <= i < |s| :: IsDigit(s[i])
  }

  function Pow10(k: nat): (p: nat)
    ensures p >= 1
  {
    if k == 0 then 1 else 10 * Pow10(k - 1)
  }

  function DigitChar(d: nat): (c: char)
    requires d < 10
    ensures IsDigit(c) && c as int - '0' as int == d
  {
    ('0' as int + d) as char
  }

  /** The value of a run of digits, most significant first. */
  function DigitsValue(s: string): (n: nat)
    requires AllDigits(s)
    ensures n < Pow10(|s|)
  {
    if s == [] then 0
    else
      assert AllDigits(s[..|s| - 1]);
      DigitsValue(s[..|s| - 1]) * 10 + (s[|s| - 1] as int - '0' as int)
  }

  /** The `width` least significant decimal digits of `n`, zero-padded. */
  function Pad(n: nat, width: nat): (s: string)
    ensures |s| == width && AllDigits(s)
  {
    if width == 0 then "" else Pad(n / 10, width - 1) + [DigitChar(n % 10)]
  }

  function Zeros(k: nat): (s: string)
    ensures |s| == k && AllDigits(s)
  {
    if k == 0 then "" else Zeros(k - 1) + "0"
  }

  /** Reading back a padded number gives the number whenever it fits the width. */
  lemma {:induction false} PadValue(n: nat, width: nat)
    requires n < Pow10(width)
    ensures DigitsValue(Pad(n, width)) == n
  {
    if width > 0 {
      var s := Pad(n, width);
      assert s[..|s| - 1] == Pad(n / 10, width - 1);
      PadValue(n / 10, width - 1);
    }
  }

  /** Padding the value of a digit run to its own length gives the run back. */
  lemma {:induction false} ValuePad(s: string)
    requires AllDigits(s)
    ensures Pad(DigitsValue(s), |s|) == s
  {
    if s != [] {
      var p := s[..|s| - 1];
      assert AllDigits(p);
      ValuePad(p);
      var n := DigitsValue(s);
      assert n / 10 == DigitsValue(p) && n % 10 == s[|s| - 1] as int - '0' as int;
      assert s == p + [s[|s| - 1]];
    }
  }

  /** Appending zeros multiplies by a power of ten (how `%f` right-pads a fraction). */
  lemma {:induction false} ZerosScale(s: string, k: nat)
    requires AllDigits(s)
    ensures AllDigits(s + Zeros(k)) && DigitsValue(s + Zeros(k)) == DigitsValue(s) * Pow10(k)
  {
    var t := s + Zeros(k);
    assert AllDigits(t) by {
      forall i | 0 <= i < |t| ensures IsDigit(t[i]) {
        if i < |s| { assert t[i] == s[i]; } else { assert t[i] == Zeros(k)[i - |s|]; }
      }
    }
    if k == 0 {
      assert t == s;
    } else {
      ZerosScale(s, k - 1);
      assert t[..|t| - 1] == s + Zeros(k - 1);
      assert t[|t| - 1] == '0';
      var v := DigitsValue(s);
      var p := Pow10(k - 1);
      assert DigitsValue(t) == (v * p) * 10;
      assert Pow10(k) == 10 * p;
      MulAssoc(v, p);
    }
  }

  lemma MulAssoc(v: int, p: int)
    ensures (v * p) * 10 == v * (10 * p)
  {
  }

  /** Number of leading digits of `s` (how far a greedy `\d*` reaches). */
  function LeadingDigits(s: string): (n: nat)
    ensures n <= |s|
  {
    if s == [] || !IsDigit(s[0]) then 0 else 1 + LeadingDigits(s[1..])
  }

  lemma {:induction false} LeadingDigitsExact(s: string, j: nat)
    requires j <= |s| && AllDigits(s[..j]) && (j == |s| || !IsDigit(s[j]))
    ensures LeadingDigits(s) == j
  {
    if j > 0 {
      assert IsDigit(s[..j][0]);
      assert s[1..][..j - 1] == s[..j][1..];
      LeadingDigitsExact(s[1..], j - 1);
    }
  }

  /** Zero in two digits. */
  lemma PadZeroTwo()
    ensures Pad(0, 2) == "00"
  {
    assert Pad(0, 1) == Pad(0, 0) + [DigitChar(0)];
  }
}
