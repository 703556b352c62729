/** The custom RGB colours: `rgb_to_ansi` renders a byte triple into the
    19-byte truecolour sequence `ESC [ 38 ; 2 ; rrr ; ggg ; bbb m` (or `48`
    for the background), every channel zero-padded to three digits by the
    `U8_TO_STR` lookup table, and `CustomColor` reads the buffer as text. */
module Custom {
  import opened Decimal
  import opened Sgr

  /** `U8_TO_STR`, written sixteen entries to a line: the entry for byte v
      is `U8ToStr[v / 16][v % 16]`, three ASCII codes. */
  const U8ToStr: seq<seq<seq<u8>>> := [
    [[48, 48, 48], [48, 48, 49], [48, 48, 50], [48, 48, 51], [48, 48, 52], [48, 48, 53], [48, 48, 54], [48, 48, 55], [48, 48, 56], [48, 48, 57], [48, 49, 48], [48, 49, 49], [48, 49, 50], [48, 49, 51], [48, 49, 52], [48, 49, 53]],
    [[48, 49, 54], [48, 49, 55], [48, 49, 56], [48, 49, 57], [48, 50, 48], [48, 50, 49], [48, 50, 50], [48, 50, 51], [48, 50, 52], [48, 50, 53], [48, 50, 54], [48, 50, 55], [48, 50, 56], [48, 50, 57], [48, 51, 48], [48, 51, 49]],
    [[48, 51, 50], [48, 51, 51], [48, 51, 52], [48, 51, 53], [48, 51, 54], [48, 51, 55], [48, 51, 56], [48, 51, 57], [48, 52, 48], [48, 52, 49], [48, 52, 50], [48, 52, 51], [48, 52, 52], [48, 52, 53], [48, 52, 54], [48, 52, 55]],
    [[48, 52, 56], [48, 52, 57], [48, 53, 48], [48, 53, 49], [48, 53, 50], [48, 53, 51], [48, 53, 52], [48, 53, 53], [48, 53, 54], [48, 53, 55], [48, 53, 56], [48, 53, 57], [48, 54, 48], [48, 54, 49], [48, 54, 50], [48, 54, 51]],
    [[48, 54, 52], [48, 54, 53], [48, 54, 54], [48, 54, 55], [48, 54, 56], [48, 54, 57], [48, 55, 48], [48, 55, 49], [48, 55, 50], [48, 55, 51], [48, 55, 52], [48, 55, 53], [48, 55, 54], [48, 55, 55], [48, 55, 56], [48, 55, 57]],
    [[48, 56, 48], [48, 56, 49], [48, 56, 50], [48, 56, 51], [48, 56, 52], [48, 56, 53], [48, 56, 54], [48, 56, 55], [48, 56, 56], [48, 56, 57], [48, 57, 48], [48, 57, 49], [48, 57, 50], [48, 57, 51], [48, 57, 52], [48, 57, 53]],
    [[48, 57, 54], [48, 57, 55], [48, 57, 56], [48, 57, 57], [49, 48, 48], [49, 48, 49], [49, 48, 50], [49, 48, 51], [49, 48, 52], [49, 48, 53], [49, 48, 54], [49, 48, 55], [49, 48, 56], [49, 48, 57], [49, 49, 48], [49, 49, 49]],
    [[49, 49, 50], [49, 49, 51], [49, 49, 52], [49, 49, 53], [49, 49, 54], [49, 49, 55], [49, 49, 56], [49, 49, 57], [49, 50, 48], [49, 50, 49], [49, 50, 50], [49, 50, 51], [49, 50, 52], [49, 50, 53], [49, 50, 54], [49, 50, 55]],
    [[49, 50, 56], [49, 50, 57], [49, 51, 48], [49, 51, 49], [49, 51, 50], [49, 51, 51], [49, 51, 52], [49, 51, 53], [49, 51, 54], [49, 51, 55], [49, 51, 56], [49, 51, 57], [49, 52, 48], [49, 52, 49], [49, 52, 50], [49, 52, 51]],
    [[49, 52, 52], [49, 52, 53], [49, 52, 54], [49, 52, 55], [49, 52, 56], [49, 52, 57], [49, 53, 48], [49, 53, 49], [49, 53, 50], [49, 53, 51], [49, 53, 52], [49, 53, 53], [49, 53, 54], [49, 53, 55], [49, 53, 56], [49, 53, 57]],
    [[49, 54, 48], [49, 54, 49], [49, 54, 50], [49, 54, 51], [49, 54, 52], [49, 54, 53], [49, 54, 54], [49, 54, 55], [49, 54, 56], [49, 54, 57], [49, 55, 48], [49, 55, 49], [49, 55, 50], [49, 55, 51], [49, 55, 52], [49, 55, 53]],
    [[49, 55, 54], [49, 55, 55], [49, 55, 56], [49, 55, 57], [49, 56, 48], [49, 56, 49], [49, 56, 50], [49, 56, 51], [49, 56, 52], [49, 56, 53], [49, 56, 54], [49, 56, 55], [49, 56, 56], [49, 56, 57], [49, 57, 48], [49, 57, 49]],
    [[49, 57, 50], [49, 57, 51], [49, 57, 52], [49, 57, 53], [49, 57, 54], [49, 57, 55], [49, 57, 56], [49, 57, 57], [50, 48, 48], [50, 48, 49], [50, 48, 50], [50, 48, 51], [50, 48, 52], [50, 48, 53], [50, 48, 54], [50, 48, 55]],
    [[50, 48, 56], [50, 48, 57], [50, 49, 48], [50, 49, 49], [50, 49, 50], [50, 49, 51], [50, 49, 52], [50, 49, 53], [50, 49, 54], [50, 49, 55], [50, 49, 56], [50, 49, 57], [50, 50, 48], [50, 50, 49], [50, 50, 50], [50, 50, 51]],
    [[50, 50, 52], [50, 50, 53], [50, 50, 54], [50, 50, 55], [50, 50, 56], [50, 50, 57], [50, 51, 48], [50, 51, 49], [50, 51, 50], [50, 51, 51], [50, 51, 52], [50, 51, 53], [50, 51, 54], [50, 51, 55], [50, 51, 56], [50, 51, 57]],
    [[50, 52, 48], [50, 52, 49], [50, 52, 50], [50, 52, 51], [50, 52, 52], [50, 52, 53], [50, 52, 54], [50, 52, 55], [50, 52, 56], [50, 52, 57], [50, 53, 48], [50, 53, 49], [50, 53, 50], [50, 53, 51], [50, 53, 52], [50, 53, 53]]
  ]

  /** The table has 256 entries of three codes each: sixteen lines of
      sixteen. */
  lemma TableShape()
    ensures |U8ToStr| == 16
    ensures forall k :: 0 <= k < 16 ==> |U8ToStr[k]| == 16
    ensures forall k, j :: 0 <= k < 16 && 0 <= j < 16 ==> |U8ToStr[k][j]| == 3
  {
  }

  /** The ASCII codes of the three-digit zero-padded decimal form of `v`. */
  function AsciiDigits(v: nat): seq<u8>
    requires v < 1000
  {
    [48 + v / 100, 48 + (v / 10) % 10, 48 + v % 10]
  }

  /** Row k of the table, for each k, holds the digits of 16k to 16k + 15.
      One lemma per row keeps each solver query to sixteen entries;
      `LowRowDigits` and `HighRowDigits` pick the row. */
  lemma Row0Digits(j: nat)
    requires j < 16
    ensures U8ToStr[0][j] == AsciiDigits(0 + j)
  {
  }

  lemma Row1Digits(j: nat)
    requires j < 16
    ensures U8ToStr[1][j] == AsciiDigits(16 + j)
  {
  }

  lemma Row2Digits(j: nat)
    requires j < 16
    ensures U8ToStr[2][j] == AsciiDigits(32 + j)
  {
  }

  lemma Row3Digits(j: nat)
    requires j < 16
    ensures U8ToStr[3][j] == AsciiDigits(48 + j)
  {
  }

  lemma Row4Digits(j: nat)
    requires j < 16
    ensures U8ToStr[4][j] == AsciiDigits(64 + j)
  {
  }

  lemma Row5Digits(j: nat)
    requires j < 16
    ensures U8ToStr[5][j] == AsciiDigits(80 + j)
  {
  }

  lemma Row6Digits(j: nat)
    requires j < 16
    ensures U8ToStr[6][j] == AsciiDigits(96 + j)
  {
  }

  lemma Row7Digits(j: nat)
    requires j < 16
    ensures U8ToStr[7][j] == AsciiDigits(112 + j)
  {
  }

  lemma Row8Digits(j: nat)
    requires j < 16
    ensures U8ToStr[8][j] == AsciiDigits(128 + j)
  {
  }

  lemma Row9Digits(j: nat)
    requires j < 16
    ensures U8ToStr[9][j] == AsciiDigits(144 + j)
  {
  }

  lemma Row10Digits(j: nat)
    requires j < 16
    ensures U8ToStr[10][j] == AsciiDigits(160 + j)
  {
  }

  lemma Row11Digits(j: nat)
    requires j < 16
    ensures U8ToStr[11][j] == AsciiDigits(176 + j)
  {
  }

  lemma Row12Digits(j: nat)
    requires j < 16
    ensures U8ToStr[12][j] == AsciiDigits(192 + j)
  {
  }

  lemma Row13Digits(j: nat)
    requires j < 16
    ensures U8ToStr[13][j] == AsciiDigits(208 + j)
  {
  }

  lemma Row14Digits(j: nat)
    requires j < 16
    ensures U8ToStr[14][j] == AsciiDigits(224 + j)
  {
  }

  lemma Row15Digits(j: nat)
    requires j < 16
    ensures U8ToStr[15][j] == AsciiDigits(240 + j)
  {
  }

  /** Entry `j` of rows 0 to 7 of the table. */
  lemma LowRowDigits(k: nat, j: nat)
    requires k < 8 && j < 16
    ensures U8ToStr[k][j] == AsciiDigits(16 * k + j)
  {
    if k == 0 {
      Row0Digits(j);
    } else if k == 1 {
      Row1Digits(j);
    } else if k == 2 {
      Row2Digits(j);
    } else if k == 3 {
      Row3Digits(j);
    } else if k == 4 {
      Row4Digits(j);
    } else if k == 5 {
      Row5Digits(j);
    } else if k == 6 {
      Row6Digits(j);
    } else {
      Row7Digits(j);
    }
  }

  /** Entry `j` of rows 8 to 15 of the table. */
  lemma HighRowDigits(k: nat, j: nat)
    requires 8 <= k < 16 && j < 16
    ensures U8ToStr[k][j] == AsciiDigits(16 * k + j)
  {
    if k == 8 {
      Row8Digits(j);
    } else if k == 9 {
      Row9Digits(j);
    } else if k == 10 {
      Row10Digits(j);
    } else if k == 11 {
      Row11Digits(j);
    } else if k == 12 {
      Row12Digits(j);
    } else if k == 13 {
      Row13Digits(j);
    } else if k == 14 {
      Row14Digits(j);
    } else {
      Row15Digits(j);
    }
  }

  /** `U8_TO_STR[v]`: the table entry of `v`, which is the three-digit
      zero-padded decimal form of `v`. */
  method Lookup(v: u8) returns (digits: seq<u8>)
    ensures digits == AsciiDigits(v)
  {
    var row, column := v / 16, v % 16;
    digits := U8ToStr[row][column];
    if row < 8 {
      LowRowDigits(row, column);
    } else {
      HighRowDigits(row, column);
    }
  }

  /** The bytes of an ASCII string. */
  function AsciiBytes(s: string): (bs: seq<u8>)
    requires IsAscii(s)
    ensures |bs| == |s|
    ensures forall i :: 0 <= i < |s| ==> bs[i] as char == s[i]
  {
    seq(|s|, i requires 0 <= i < |s| => s[i] as int)
  }

  predicate AsciiBuffer(bs: seq<u8>) {
    forall i :: 0 <= i < |bs| ==> bs[i] < 128
  }

  /** Reading an ASCII byte buffer as a string: what the `transmute` to
      `&str` amounts to once the buffer is known to be ASCII, and so valid
      UTF-8. */
  function BytesToString(bs: seq<u8>): (s: string)
    requires AsciiBuffer(bs)
    ensures |s| == |bs| && IsAscii(s)
    ensures AsciiBytes(s) == bs
  {
    seq(|bs|, i requires 0 <= i < |bs| => bs[i] as char)
  }

  /** The literal buffer `rgb_to_ansi` starts from; the letters mark the
      channel slots it overwrites. */
  function Template(isFg: bool): (t: seq<u8>)
    ensures |t| == 19
  {
    if isFg then AsciiBytes("\U{1B}[38;2;rrr;ggg;bbbm")
    else AsciiBytes("\U{1B}[48;2;rrr;ggg;bbbm")
  }

  /** The buffer positions that receive channel digits. */
  predicate IsChannelSlot(i: int) {
    7 <= i <= 9 || 11 <= i <= 13 || 15 <= i <= 17
  }

  /** The three digits at `k`, read back as `100 * d0 + 10 * d1 + d2`. */
  function DecodeChannel(buf: seq<u8>, k: nat): int
    requires k + 3 <= |buf|
  {
    100 * (buf[k] as int - 48) + 10 * (buf[k + 1] as int - 48) + (buf[k + 2] as int - 48)
  }

  /** The truecolour sequence `ESC [ lead ; 2 ; rrr ; ggg ; bbb m`, every
      channel zero-padded to three digits. */
  function Truecolour(lead: string, r: u8, g: u8, b: u8): string {
    "\U{1B}[" + lead + ";2;" + Pad3(r) + ";" + Pad3(g) + ";" + Pad3(b) + "m"
  }

  /** Where the parts of a truecolour sequence sit. */
  lemma TruecolourLayout(lead: string, r: u8, g: u8, b: u8)
    requires |lead| == 2 && AllDigits(lead)
    ensures var t := Truecolour(lead, r, g, b);
      && |t| == 19 && IsAscii(t)
      && t[..2] == "\U{1B}[" && t[2..4] == lead && t[4..7] == ";2;"
      && t[7..10] == Pad3(r) && t[10] == ';' && t[11..14] == Pad3(g)
      && t[14] == ';' && t[15..18] == Pad3(b) && t[18] == 'm'
  {
    var t := Truecolour(lead, r, g, b);
    assert forall i :: 0 <= i < 19 && IsChannelSlot(i) ==> IsDigit(t[i]);
  }

  /** The three digit codes decode to the byte they render. */
  lemma AsciiDigitsDecode(v: u8)
    ensures var ds := AsciiDigits(v);
      100 * (ds[0] - 48) + 10 * (ds[1] - 48) + (ds[2] - 48) == v
  {
  }

  /** A buffer holding the template outside the channel slots and the
    padded digits of r, g and b inside them spells the truecolour sequence. */
  lemma SpellsTruecolour(buf: seq<u8>, isFg: bool, r: u8, g: u8, b: u8)
    requires |buf| == 19
    requires forall i :: 0 <= i < 19 && !IsChannelSlot(i) ==> buf[i] == Template(isFg)[i]
    requires forall k :: 0 <= k < 3 ==> buf[7 + k] as char == Pad3(r)[k]
    requires forall k :: 0 <= k < 3 ==> buf[11 + k] as char == Pad3(g)[k]
    requires forall k :: 0 <= k < 3 ==> buf[15 + k] as char == Pad3(b)[k]
    ensures AsciiBuffer(buf)
    ensures BytesToString(buf) == Truecolour(if isFg then "38" else "48", r, g, b)
  {
    var lead := if isFg then "38" else "48";
    var t := Truecolour(lead, r, g, b);
    TruecolourLayout(lead, r, g, b);
    forall i | 0 <= i < 19
      ensures buf[i] as char == t[i]
    {
      if i < 2 {
        assert t[i] == t[..2][i];
      } else if i < 4 {
        assert t[i] == t[2..4][i - 2];
      } else if i < 7 {
        assert t[i] == t[4..7][i - 4];
      } else if i < 10 {
        assert t[i] == t[7..10][i - 7];
      } else if i < 11 {
      } else if i < 14 {
        assert t[i] == t[11..14][i - 11];
      } else if i < 15 {
      } else if i < 18 {
        assert t[i] == t[15..18][i - 15];
      }
    }
    assert AsciiBuffer(buf) by {
      forall i | 0 <= i < 19
        ensures buf[i] < 128
      {
        assert t[i] as int < 128;
      }
    }
  }

  /** `rgb_to_ansi`: the template with the table entries for r, g and b
      written over offsets 7, 11 and 15. */
  method RgbToAnsi(r: u8, g: u8, b: u8, isFg: bool) returns (buf: seq<u8>)
    ensures |buf| == 19
    ensures forall i :: 0 <= i < 19 && !IsChannelSlot(i) ==> buf[i] == Template(isFg)[i]
    ensures buf[2] == if isFg then '3' as int else '4' as int
    ensures forall k :: 0 <= k < 3 ==> buf[7 + k] as char == Pad3(r)[k]
    ensures forall k :: 0 <= k < 3 ==> buf[11 + k] as char == Pad3(g)[k]
    ensures forall k :: 0 <= k < 3 ==> buf[15 + k] as char == Pad3(b)[k]
    ensures DecodeChannel(buf, 7) == r && DecodeChannel(buf, 11) == g && DecodeChannel(buf, 15) == b
    ensures AsciiBuffer(buf)
    ensures BytesToString(buf) == Truecolour(if isFg then "38" else "48", r, g, b)
  {
    buf := Template(isFg);
    var rs := Lookup(r);
    var gs := Lookup(g);
    var bs := Lookup(b);
    buf := buf[7 := rs[0]][8 := rs[1]][9 := rs[2]];
    buf := buf[11 := gs[0]][12 := gs[1]][13 := gs[2]];
    buf := buf[15 := bs[0]][16 := bs[1]][17 := bs[2]];
    AsciiDigitsDecode(r);
    AsciiDigitsDecode(g);
    AsciiDigitsDecode(b);
    SpellsTruecolour(buf, isFg, r, g, b);
  }

  /** `CustomColor::ANSI_FG`, the text the foreground buffer spells. */
  function AnsiFg(r: u8, g: u8, b: u8): string {
    Truecolour("38", r, g, b)
  }

  /** `CustomColor::ANSI_BG`, the text the background buffer spells. */
  function AnsiBg(r: u8, g: u8, b: u8): string {
    Truecolour("48", r, g, b)
  }

  /** The `CustomColor` constants: the buffer `rgb_to_ansi` returns, read
      as a string. Reading it is allowed because the buffer is ASCII. */
  method CustomAnsi(r: u8, g: u8, b: u8, isFg: bool) returns (s: string)
    ensures s == if isFg then AnsiFg(r, g, b) else AnsiBg(r, g, b)
  {
    var buf := RgbToAnsi(r, g, b, isFg);
    s := BytesToString(buf);
  }

  /** Both constants decode as the truecolour selections `38;2;r;g;b` and
      `48;2;r;g;b`. */
  lemma CustomSgr(r: u8, g: u8, b: u8)
    ensures Parse(AnsiFg(r, g, b)) == Some([38, 2, r, g, b])
    ensures Parse(AnsiBg(r, g, b)) == Some([48, 2, r, g, b])
    ensures IsAscii(AnsiFg(r, g, b)) && IsAscii(AnsiBg(r, g, b))
  {
    TruecolourSgr(true, r, g, b);
    TruecolourSgr(false, r, g, b);
  }

  lemma TruecolourSgr(isFg: bool, r: u8, g: u8, b: u8)
    ensures var lead := if isFg then "38" else "48";
      && Parse(Truecolour(lead, r, g, b)) == Some([if isFg then 38 else 48, 2, r, g, b])
      && IsAscii(Truecolour(lead, r, g, b))
  {
    var lead := if isFg then "38" else "48";
    var fs := [lead, "2", Pad3(r), Pad3(g), Pad3(b)];
    assert Truecolour(lead, r, g, b) == Sequence(fs) by {
      JoinFive(lead, "2", Pad3(r), Pad3(g), Pad3(b));
    }
    assert NumericFields(fs) && Values(fs) == [if isFg then 38 else 48, 2, r, g, b] by {
      ValuesFive(lead, "2", Pad3(r), Pad3(g), Pad3(b));
      Pad3Value(r);
      Pad3Value(g);
      Pad3Value(b);
      assert lead == [lead[0], '8'];
      ValueTwo(lead[0], '8');
      assert Value("2") == 2;
    }
    assert Parse(Sequence(fs)) == Some(Values(fs)) && IsAscii(Sequence(fs)) by {
      ParseSequence(fs);
      SequenceAscii(fs);
    }
  }

  /** The foreground and background constants of a triple differ at the
      third character (`3` against `4`) and nowhere else. */
  lemma CustomFgBgDiffer(r: u8, g: u8, b: u8)
    ensures |AnsiFg(r, g, b)| == |AnsiBg(r, g, b)| == 19
    ensures AnsiFg(r, g, b)[2] == '3' && AnsiBg(r, g, b)[2] == '4'
    ensures forall i :: 0 <= i < 19 && i != 2 ==> AnsiFg(r, g, b)[i] == AnsiBg(r, g, b)[i]
  {
    var f, k := AnsiFg(r, g, b), AnsiBg(r, g, b);
    TruecolourLayout("38", r, g, b);
    TruecolourLayout("48", r, g, b);
    forall i | 0 <= i < 19 && i != 2
      ensures f[i] == k[i]
    {
      if i < 2 {
        assert f[i] == f[..2][i] && k[i] == k[..2][i];
      } else if i < 4 {
        assert f[i] == f[2..4][i - 2] && k[i] == k[2..4][i - 2];
      } else if i < 7 {
        assert f[i] == f[4..7][i - 4] && k[i] == k[4..7][i - 4];
      } else if i < 10 {
        assert f[i] == f[7..10][i - 7] && k[i] == k[7..10][i - 7];
      } else if i < 11 {
      } else if i < 14 {
        assert f[i] == f[11..14][i - 11] && k[i] == k[11..14][i - 11];
      } else if i < 15 {
      } else if i < 18 {
        assert f[i] == f[15..18][i - 15] && k[i] == k[15..18][i - 15];
      }
    }
    assert f[2] == f[2..4][0] && k[2] == k[2..4][0];
  }

  /** Different triples give different constants. */
  lemma CustomInjective(r: u8, g: u8, b: u8, r': u8, g': u8, b': u8)
    ensures AnsiFg(r, g, b) == AnsiFg(r', g', b') <==> r == r' && g == g' && b == b'
    ensures AnsiBg(r, g, b) == AnsiBg(r', g', b') <==> r == r' && g == g' && b == b'
  {
    CustomSgr(r, g, b);
    CustomSgr(r', g', b');
  }

  /** The worked example: (5, 10, 255) in the foreground. */
  lemma CustomExample()
    ensures AnsiFg(5, 10, 255) == "\U{1B}[38;2;005;010;255m"
  {
  }
}
