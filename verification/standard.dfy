/** The sixteen standard colours generated by the `colors!` table: the eight
    ECMA-48 colours (SGR 30-37 foreground, 40-47 background) and their eight
    aixterm bright variants (SGR 90-97 and 100-107). */
module Standard {
  import opened Decimal
  import opened Sgr

  datatype StandardColor =
    | Black | Red | Green | Yellow | Blue | Magenta | Cyan | White
    | BrightBlack | BrightRed | BrightGreen | BrightYellow
    | BrightBlue | BrightMagenta | BrightCyan | BrightWhite

  /** The foreground literal of the colour's table row. */
  function FgLiteral(c: StandardColor): (lit: string)
    ensures Canonical(lit)
  {
    match c
    case Black => "30"
    case Red => "31"
    case Green => "32"
    case Yellow => "33"
    case Blue => "34"
    case Magenta => "35"
    case Cyan => "36"
    case White => "37"
    case BrightBlack => "90"
    case BrightRed => "91"
    case BrightGreen => "92"
    case BrightYellow => "93"
    case BrightBlue => "94"
    case BrightMagenta => "95"
    case BrightCyan => "96"
    case BrightWhite => "97"
  }

  /** The background literal of the colour's table row. */
  function BgLiteral(c: StandardColor): (lit: string)
    ensures Canonical(lit)
  {
    match c
    case Black => "40"
    case Red => "41"
    case Green => "42"
    case Yellow => "43"
    case Blue => "44"
    case Magenta => "45"
    case Cyan => "46"
    case White => "47"
    case BrightBlack => "100"
    case BrightRed => "101"
    case BrightGreen => "102"
    case BrightYellow => "103"
    case BrightBlue => "104"
    case BrightMagenta => "105"
    case BrightCyan => "106"
    case BrightWhite => "107"
  }

  /** `ANSI_FG`: the literal spliced between `ESC [` and `m`. */
  function AnsiFg(c: StandardColor): string {
    "\U{1B}[" + FgLiteral(c) + "m"
  }

  /** `ANSI_BG`: the literal spliced between `ESC [` and `m`. */
  function AnsiBg(c: StandardColor): string {
    "\U{1B}[" + BgLiteral(c) + "m"
  }

  /** The SGR foreground code the colour selects. */
  function FgCode(c: StandardColor): nat {
    Value(FgLiteral(c))
  }

  /** Every foreground code is a standard (30-37) or bright (90-97) one,
      and the background literal names the code ten above it. */
  lemma StandardCodes(c: StandardColor)
    ensures 30 <= FgCode(c) <= 37 || 90 <= FgCode(c) <= 97
    ensures Value(BgLiteral(c)) == FgCode(c) + 10
  {
    var f := FgLiteral(c);
    var b := BgLiteral(c);
    assert Value(f[..1]) == DigitValue(f[0]);
    assert Value(b[..1]) == DigitValue(b[0]);
    if |b| == 3 {
      assert b[..2][..1] == b[..1];
    }
  }

  /** The sixteen colours select sixteen different foreground codes. */
  lemma StandardCodesDistinct(c1: StandardColor, c2: StandardColor)
    requires c1 != c2
    ensures FgCode(c1) != FgCode(c2)
  {
    ValueShow(FgCode(c1));
    ShowValue(FgLiteral(c1));
    ShowValue(FgLiteral(c2));
  }

  /** Both constants decode as one-parameter SGR sequences selecting the
      foreground code and the background code ten above it. */
  lemma StandardSgr(c: StandardColor)
    ensures Parse(AnsiFg(c)) == Some([FgCode(c)])
    ensures Parse(AnsiBg(c)) == Some([FgCode(c) + 10])
    ensures IsAscii(AnsiFg(c)) && IsAscii(AnsiBg(c))
  {
    StandardCodes(c);
    assert AnsiFg(c) == Sequence([FgLiteral(c)]);
    assert AnsiBg(c) == Sequence([BgLiteral(c)]);
    ParseSequence([FgLiteral(c)]);
    ParseSequence([BgLiteral(c)]);
    assert Values([FgLiteral(c)]) == [FgCode(c)];
    assert Values([BgLiteral(c)]) == [FgCode(c) + 10];
    SequenceAscii([FgLiteral(c)]);
    SequenceAscii([BgLiteral(c)]);
  }
}
