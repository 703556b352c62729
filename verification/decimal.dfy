/** Decimal digit strings: the unpadded rendering that `stringify!` gives an
    integer literal, the three-digit zero-padded rendering used for RGB
    channels, and the value of a digit string read back. */
module Decimal {

  /** An unsigned byte, the Rust `u8`. */
  type u8 = x: int | 0 <= x < 256

  predicate IsDigit(c: char) {
    '0' <= c <= '9'
  }

  predicate AllDigits(s: string) {
    forall i :: 0 <= i < |s| ==> IsDigit(s[i])
  }

  /** A digit string without leading zeros: the only rendering of a number
      that a decimal integer literal can have. */
  predicate Canonical(s: string) {
    && |s| > 0
    && AllDigits(s)
    && (s[0] != '0' || |s| == 1)
  }

  function DigitChar(d: nat): (c: char)
    requires d < 10
    ensures IsDigit(c)
    ensures c as int - '0' as int == d
  {
    ('0' as int + d) as char
  }

  function DigitValue(c: char): (d: nat)
    requires IsDigit(c)
    ensures d < 10
    ensures DigitChar(d) == c
  {
    c as int - '0' as int
  }

  /** The number a digit string denotes, most significant digit first.
      The empty string denotes 0 (the default value of an omitted
      parameter in ECMA-48). */
  function Value(s: string): nat
    requires AllDigits(s)
  {
    if |s| == 0 then 0
    else 10 * Value(s[..|s| - 1]) + DigitValue(s[|s| - 1])
  }

  /** The unpadded decimal rendering of `n`. */
  function Show(n: nat): (s: string)
    ensures Canonical(s)
  {
    if n < 10 then [DigitChar(n)]
    else Show(n / 10) + [DigitChar(n % 10)]
  }

  /** The three-digit zero-padded rendering of `n` (5 becomes "005"). */
  function Pad3(n: nat): (s: string)
    requires n < 1000
    ensures |s| == 3 && AllDigits(s)
    ensures s[0] as int == '0' as int + n / 100
    ensures s[1] as int == '0' as int + (n / 10) % 10
    ensures s[2] as int == '0' as int + n % 10
  {
    [DigitChar(n / 100), DigitChar((n / 10) % 10), DigitChar(n % 10)]
  }

  /** The unpadded rendering of a number below 1000, spelled out digit by
      digit without recursion. */
  function Spell(n: nat): (s: string)
    requires n < 1000
  {
    if n < 10 then [DigitChar(n)]
    else if n < 100 then [DigitChar(n / 10), DigitChar(n % 10)]
    else [DigitChar(n / 100), DigitChar((n / 10) % 10), DigitChar(n % 10)]
  }

  /** Reading a rendering back gives the number rendered. */
  lemma {:induction false} ValueShow(n: nat)
    ensures Value(Show(n)) == n
  {
    var s := Show(n);
    if n >= 10 {
      assert s[..|s| - 1] == Show(n / 10);
      ValueShow(n / 10);
    }
  }

  /** A canonical string with a non-zero leading digit denotes a positive
      number. */
  lemma {:induction false} ValuePositive(s: string)
    requires |s| > 0 && AllDigits(s) && s[0] != '0'
    ensures Value(s) > 0
  {
    if |s| > 1 {
      ValuePositive(s[..|s| - 1]);
    }
  }

  /** Every canonical digit string is the rendering of its value: a
      canonical string is determined by the number it denotes. */
  lemma {:induction false} ShowValue(s: string)
    requires Canonical(s)
    ensures Show(Value(s)) == s
  {
    if |s| > 1 {
      var p := s[..|s| - 1];
      ValuePositive(p);
      ShowValue(p);
      var n := Value(s);
      assert n / 10 == Value(p) && n % 10 == DigitValue(s[|s| - 1]);
      assert s == p + [s[|s| - 1]];
    }
  }

  /** Show is injective and inverted by Value on the canonical strings. */
  lemma ShowCanonicalIff(n: nat, s: string)
    ensures Show(n) == s <==> Canonical(s) && Value(s) == n
  {
    if Show(n) == s {
      ValueShow(n);
    }
    if Canonical(s) && Value(s) == n {
      ShowValue(s);
    }
  }

  /** The value of a two-digit string. */
  lemma ValueTwo(a: char, b: char)
    requires IsDigit(a) && IsDigit(b)
    ensures Value([a, b]) == 10 * DigitValue(a) + DigitValue(b)
  {
    assert [a][..0] == [];
    assert Value([a]) == DigitValue(a);
    assert [a, b][..1] == [a];
  }

  /** The value of a three-digit string. */
  lemma ValueThree(a: char, b: char, c: char)
    requires IsDigit(a) && IsDigit(b) && IsDigit(c)
    ensures Value([a, b, c]) == 100 * DigitValue(a) + 10 * DigitValue(b) + DigitValue(c)
  {
    assert [a][..0] == [];
    assert Value([a]) == DigitValue(a);
    assert [a, b][..1] == [a];
    assert Value([a, b]) == 10 * DigitValue(a) + DigitValue(b);
    assert [a, b, c][..2] == [a, b];
  }

  /** A number below 1000 from its three decimal digits. */
  lemma ThreeDigits(n: nat)
    requires n < 1000
    ensures n == 100 * (n / 100) + 10 * ((n / 10) % 10) + n % 10
  {
    var q := n / 10;
    assert n == 10 * q + n % 10;
    assert q / 10 == n / 100;
    assert q == 10 * (q / 10) + q % 10;
  }

  /** Reading a padded rendering back gives the number rendered. */
  lemma Pad3Value(n: nat)
    requires n < 1000
    ensures Value(Pad3(n)) == n
  {
    ValueThree(DigitChar(n / 100), DigitChar((n / 10) % 10), DigitChar(n % 10));
    ThreeDigits(n);
  }

  /** The rendering of a number below 1000, digit by digit. */
  lemma ShowDigits(n: nat)
    requires n < 1000
    ensures n < 10 ==> Show(n) == [DigitChar(n)]
    ensures 10 <= n < 100 ==> Show(n) == [DigitChar(n / 10), DigitChar(n % 10)]
    ensures 100 <= n ==> Show(n) == [DigitChar(n / 100), DigitChar((n / 10) % 10), DigitChar(n % 10)]
  {
    if n >= 100 {
      assert Show(n / 10) == [DigitChar(n / 100), DigitChar((n / 10) % 10)];
    }
  }
  /** Below 1000, the spelled-out rendering is the unpadded rendering. */
  lemma SpellShow(n: nat)
    requires n < 1000
    ensures Spell(n) == Show(n)
  {
    ShowDigits(n);
  }

}
