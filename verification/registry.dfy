/** Every colour that implements the `Color` trait: the sixteen standard
    colours, the 256 xterm palette entries and the custom RGB colours, each
    with its `ANSI_FG` and `ANSI_BG` constants. */
module Registry {
  import opened Decimal
  import opened Sgr
  import Standard
  import Xterm
  import Custom

  datatype Color =
    | Named(name: Standard.StandardColor)
    | Palette(row: u8)
    | Rgb(r: u8, g: u8, b: u8)

  /** `Color::ANSI_FG`. */
  function AnsiFg(c: Color): string {
    match c
    case Named(name) => Standard.AnsiFg(name)
    case Palette(row) => Xterm.AnsiFg(row)
    case Rgb(r, g, b) => Custom.AnsiFg(r, g, b)
  }

  /** `Color::ANSI_BG`. */
  function AnsiBg(c: Color): string {
    match c
    case Named(name) => Standard.AnsiBg(name)
    case Palette(row) => Xterm.AnsiBg(row)
    case Rgb(r, g, b) => Custom.AnsiBg(r, g, b)
  }

  /** The SGR parameters that select the colour for the foreground: one
      colour code (ECMA-48 and aixterm), `38;5;n` for a palette entry, or
      `38;2;r;g;b` for a direct colour (the xterm extensions). */
  function FgParams(c: Color): seq<nat> {
    match c
    case Named(name) => [Standard.FgCode(name)]
    case Palette(row) => [38, 5, row]
    case Rgb(r, g, b) => [38, 2, r, g, b]
  }

  /** The SGR parameters that select the colour for the background: the
      colour code ten above the foreground one, `48;5;n`, or `48;2;r;g;b`. */
  function BgParams(c: Color): seq<nat> {
    match c
    case Named(name) => [Standard.FgCode(name) + 10]
    case Palette(row) => [48, 5, row]
    case Rgb(r, g, b) => [48, 2, r, g, b]
  }


  /** The foreground constant decodes to the foreground selection. */
  lemma FgSgr(c: Color)
    ensures Parse(AnsiFg(c)) == Some(FgParams(c)) && IsAscii(AnsiFg(c))
  {
    match c
    case Named(name) =>
      Standard.StandardSgr(name);
    case Palette(row) =>
      Xterm.XtermSgr(row);
    case Rgb(r, g, b) =>
      Custom.CustomSgr(r, g, b);
  }

  /** The background constant decodes to the background selection. */
  lemma BgSgr(c: Color)
    ensures Parse(AnsiBg(c)) == Some(BgParams(c)) && IsAscii(AnsiBg(c))
  {
    match c
    case Named(name) =>
      Standard.StandardSgr(name);
    case Palette(row) =>
      Xterm.XtermSgr(row);
    case Rgb(r, g, b) =>
      Custom.CustomSgr(r, g, b);
  }

  /** `bgText` and `fgText` both decode, and `bgText`'s parameters are
      `fgText`'s with the first raised by ten and the rest unchanged. */
  predicate RaisedByTen(fgText: string, bgText: string) {
    && Parse(fgText).Some? && Parse(bgText).Some?
    && var f := Parse(fgText).value;
      |f| > 0 && Parse(bgText).value == [f[0] + 10] + f[1..]
  }

  /** The emitted constants themselves, decoded, differ only in their first
      parameter, which is ten higher in `ANSI_BG` than in `ANSI_FG`. */
  lemma BgIsFgPlusTen(c: Color)
    ensures RaisedByTen(AnsiFg(c), AnsiBg(c))
  {
    match c
    case Named(name) => NamedPlusTen(name);
    case Palette(row) => PalettePlusTen(row);
    case Rgb(r, g, b) => RgbPlusTen(r, g, b);
  }

  /** `BgIsFgPlusTen` for each colour population, one per lemma so each
      solver query sees a single population's constants. */
  lemma NamedPlusTen(name: Standard.StandardColor)
    ensures RaisedByTen(AnsiFg(Named(name)), AnsiBg(Named(name)))
  {
    var fgText, bgText := Standard.AnsiFg(name), Standard.AnsiBg(name);
    assert RaisedByTen(fgText, bgText) by {
      var code := Standard.FgCode(name);
      assert Parse(fgText) == Some([code] + []) && Parse(bgText) == Some([code + 10] + []) by {
        Standard.StandardSgr(name);
        assert [code] + [] == [code] && [code + 10] + [] == [code + 10];
      }
      PlusTenOf(fgText, bgText, code, []);
    }
  }

  lemma PalettePlusTen(row: u8)
    ensures RaisedByTen(AnsiFg(Palette(row)), AnsiBg(Palette(row)))
  {
    var fgText, bgText := Xterm.AnsiFg(row), Xterm.AnsiBg(row);
    assert RaisedByTen(fgText, bgText) by {
      assert Parse(fgText) == Some([38] + [5, row]) && Parse(bgText) == Some([48] + [5, row]) by {
        Xterm.XtermSgr(row);
        assert [38] + [5, row] == [38, 5, row] && [48] + [5, row] == [48, 5, row];
      }
      PlusTenOf(fgText, bgText, 38, [5, row]);
    }
  }

  lemma RgbPlusTen(r: u8, g: u8, b: u8)
    ensures RaisedByTen(AnsiFg(Rgb(r, g, b)), AnsiBg(Rgb(r, g, b)))
  {
    var fgText, bgText := Custom.AnsiFg(r, g, b), Custom.AnsiBg(r, g, b);
    assert RaisedByTen(fgText, bgText) by {
      assert Parse(fgText) == Some([38] + [2, r, g, b]) && Parse(bgText) == Some([48] + [2, r, g, b]) by {
        Custom.CustomSgr(r, g, b);
        assert [38] + [2, r, g, b] == [38, 2, r, g, b] && [48] + [2, r, g, b] == [48, 2, r, g, b];
      }
      PlusTenOf(fgText, bgText, 38, [2, r, g, b]);
    }
  }

  /** Two texts that decode to the same parameters but for a first one
      raised by ten. */
  lemma PlusTenOf(fgText: string, bgText: string, lead: nat, rest: seq<nat>)
    requires Parse(fgText) == Some([lead] + rest) && Parse(bgText) == Some([lead + 10] + rest)
    ensures RaisedByTen(fgText, bgText)
  {
    var f := [lead] + rest;
    assert f[0] == lead && f[1..] == rest;
  }

  /** Every colour's two constants are ASCII SGR sequences that decode to
      its foreground and background selections. */
  lemma ColorSgr(c: Color)
    ensures Parse(AnsiFg(c)) == Some(FgParams(c))
    ensures Parse(AnsiBg(c)) == Some(BgParams(c))
    ensures IsAscii(AnsiFg(c)) && IsAscii(AnsiBg(c))
  {
    FgSgr(c);
    BgSgr(c);
  }

  /** A foreground selection never opens with a background code. */
  lemma FgLeadsAreNotBgLeads(c1: Color, c2: Color)
    ensures FgParams(c1)[0] != BgParams(c2)[0]
  {
    if c1.Named? {
      Standard.StandardCodes(c1.name);
    }
    if c2.Named? {
      Standard.StandardCodes(c2.name);
    }
  }

  /** The selection determines the colour. */
  lemma ParamsInjective(c1: Color, c2: Color)
    ensures FgParams(c1) == FgParams(c2) <==> c1 == c2
    ensures BgParams(c1) == BgParams(c2) <==> c1 == c2
  {
    if c1.Named? && c2.Named? && c1 != c2 {
      Standard.StandardCodesDistinct(c1.name, c2.name);
    }
  }

  /** Different colours have different foreground constants. */
  lemma FgDistinct(c1: Color, c2: Color)
    ensures AnsiFg(c1) == AnsiFg(c2) <==> c1 == c2
  {
    if AnsiFg(c1) == AnsiFg(c2) {
      ColorSgr(c1);
      ColorSgr(c2);
      ParamsInjective(c1, c2);
    }
  }

  /** Different colours have different background constants. */
  lemma BgDistinct(c1: Color, c2: Color)
    ensures AnsiBg(c1) == AnsiBg(c2) <==> c1 == c2
  {
    if AnsiBg(c1) == AnsiBg(c2) {
      ColorSgr(c1);
      ColorSgr(c2);
      ParamsInjective(c1, c2);
    }
  }

  /** No colour's foreground constant is any colour's background constant. */
  lemma FgNeverBg(c1: Color, c2: Color)
    ensures AnsiFg(c1) != AnsiBg(c2)
  {
    ColorSgr(c1);
    ColorSgr(c2);
    FgLeadsAreNotBgLeads(c1, c2);
  }
}
