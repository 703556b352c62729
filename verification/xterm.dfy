/** The 256-colour xterm palette generated by the `xterm_colors!` table:
    row n selects palette colour n with `ESC [ 38 ; 5 ; n m` (foreground)
    or `ESC [ 48 ; 5 ; n m` (background), n written exactly as the row's
    index literal. The rows' colour names and RGB triples are documentation
    only and are not modelled. */
module Xterm {
  import opened Decimal
  import opened Sgr

  /** The index literals of the table's 256 rows in table order, written
      eight to a line: row n is `IndexLiterals[n / 8][n % 8]`. */
  const IndexLiterals: seq<seq<string>> := [
    ["0", "1", "2", "3", "4", "5", "6", "7"],
    ["8", "9", "10", "11", "12", "13", "14", "15"],
    ["16", "17", "18", "19", "20", "21", "22", "23"],
    ["24", "25", "26", "27", "28", "29", "30", "31"],
    ["32", "33", "34", "35", "36", "37", "38", "39"],
    ["40", "41", "42", "43", "44", "45", "46", "47"],
    ["48", "49", "50", "51", "52", "53", "54", "55"],
    ["56", "57", "58", "59", "60", "61", "62", "63"],
    ["64", "65", "66", "67", "68", "69", "70", "71"],
    ["72", "73", "74", "75", "76", "77", "78", "79"],
    ["80", "81", "82", "83", "84", "85", "86", "87"],
    ["88", "89", "90", "91", "92", "93", "94", "95"],
    ["96", "97", "98", "99", "100", "101", "102", "103"],
    ["104", "105", "106", "107", "108", "109", "110", "111"],
    ["112", "113", "114", "115", "116", "117", "118", "119"],
    ["120", "121", "122", "123", "124", "125", "126", "127"],
    ["128", "129", "130", "131", "132", "133", "134", "135"],
    ["136", "137", "138", "139", "140", "141", "142", "143"],
    ["144", "145", "146", "147", "148", "149", "150", "151"],
    ["152", "153", "154", "155", "156", "157", "158", "159"],
    ["160", "161", "162", "163", "164", "165", "166", "167"],
    ["168", "169", "170", "171", "172", "173", "174", "175"],
    ["176", "177", "178", "179", "180", "181", "182", "183"],
    ["184", "185", "186", "187", "188", "189", "190", "191"],
    ["192", "193", "194", "195", "196", "197", "198", "199"],
    ["200", "201", "202", "203", "204", "205", "206", "207"],
    ["208", "209", "210", "211", "212", "213", "214", "215"],
    ["216", "217", "218", "219", "220", "221", "222", "223"],
    ["224", "225", "226", "227", "228", "229", "230", "231"],
    ["232", "233", "234", "235", "236", "237", "238", "239"],
    ["240", "241", "242", "243", "244", "245", "246", "247"],
    ["248", "249", "250", "251", "252", "253", "254", "255"]
  ]

  /** The table has 256 rows: thirty-two lines of eight. */
  lemma TableShape()
    ensures |IndexLiterals| == 32
    ensures forall k :: 0 <= k < 32 ==> |IndexLiterals[k]| == 8
  {
  }

  /** The index literal of row `row`. */
  function Literal(row: u8): string {
    IndexLiterals[row / 8][row % 8]
  }

  /** The 256-colour selection sequence with a digit substring `lit`:
      `38;5;lit` for the foreground, `48;5;lit` for the background. */
  function Selection(fg: bool, lit: string): string {
    (if fg then "\U{1B}[38;5;" else "\U{1B}[48;5;") + lit + "m"
  }

  /** `ANSI_FG` of row `row`: `stringify!` of its index literal spliced into
      `ESC [ 38 ; 5 ; ... m`. */
  function AnsiFg(row: u8): string {
    Selection(true, Literal(row))
  }

  /** `ANSI_BG` of row `row`: the same literal in `ESC [ 48 ; 5 ; ... m`. */
  function AnsiBg(row: u8): string {
    Selection(false, Literal(row))
  }

  /** Line k of the table, for each k, holds 8k to 8k + 7 spelled out.
      One lemma per line keeps each solver query to eight entries;
      `Quarter0Literals` to `Quarter3Literals` pick the line. */
  lemma Line0Literals(j: nat)
    requires j < 8
    ensures IndexLiterals[0][j] == Spell(0 + j)
  {
  }

  lemma Line1Literals(j: nat)
    requires j < 8
    ensures IndexLiterals[1][j] == Spell(8 + j)
  {
  }

  lemma Line2Literals(j: nat)
    requires j < 8
    ensures IndexLiterals[2][j] == Spell(16 + j)
  {
  }

  lemma Line3Literals(j: nat)
    requires j < 8
    ensures IndexLiterals[3][j] == Spell(24 + j)
  {
  }

  lemma Line4Literals(j: nat)
    requires j < 8
    ensures IndexLiterals[4][j] == Spell(32 + j)
  {
  }

  lemma Line5Literals(j: nat)
    requires j < 8
    ensures IndexLiterals[5][j] == Spell(40 + j)
  {
  }

  lemma Line6Literals(j: nat)
    requires j < 8
    ensures IndexLiterals[6][j] == Spell(48 + j)
  {
  }

  lemma Line7Literals(j: nat)
    requires j < 8
    ensures IndexLiterals[7][j] == Spell(56 + j)
  {
  }

  lemma Line8Literals(j: nat)
    requires j < 8
    ensures IndexLiterals[8][j] == Spell(64 + j)
  {
  }

  lemma Line9Literals(j: nat)
    requires j < 8
    ensures IndexLiterals[9][j] == Spell(72 + j)
  {
  }

  lemma Line10Literals(j: nat)
    requires j < 8
    ensures IndexLiterals[10][j] == Spell(80 + j)
  {
  }

  lemma Line11Literals(j: nat)
    requires j < 8
    ensures IndexLiterals[11][j] == Spell(88 + j)
  {
  }

  lemma Line12Literals(j: nat)
    requires j < 8
    ensures IndexLiterals[12][j] == Spell(96 + j)
  {
  }

  lemma Line13Literals(j: nat)
    requires j < 8
    ensures IndexLiterals[13][j] == Spell(104 + j)
  {
  }

  lemma Line14Literals(j: nat)
    requires j < 8
    ensures IndexLiterals[14][j] == Spell(112 + j)
  {
  }

  lemma Line15Literals(j: nat)
    requires j < 8
    ensures IndexLiterals[15][j] == Spell(120 + j)
  {
  }

  lemma Line16Literals(j: nat)
    requires j < 8
    ensures IndexLiterals[16][j] == Spell(128 + j)
  {
  }

  lemma Line17Literals(j: nat)
    requires j < 8
    ensures IndexLiterals[17][j] == Spell(136 + j)
  {
  }

  lemma Line18Literals(j: nat)
    requires j < 8
    ensures IndexLiterals[18][j] == Spell(144 + j)
  {
  }

  lemma Line19Literals(j: nat)
    requires j < 8
    ensures IndexLiterals[19][j] == Spell(152 + j)
  {
  }

  lemma Line20Literals(j: nat)
    requires j < 8
    ensures IndexLiterals[20][j] == Spell(160 + j)
  {
  }

  lemma Line21Literals(j: nat)
    requires j < 8
    ensures IndexLiterals[21][j] == Spell(168 + j)
  {
  }

  lemma Line22Literals(j: nat)
    requires j < 8
    ensures IndexLiterals[22][j] == Spell(176 + j)
  {
  }

  lemma Line23Literals(j: nat)
    requires j < 8
    ensures IndexLiterals[23][j] == Spell(184 + j)
  {
  }

  lemma Line24Literals(j: nat)
    requires j < 8
    ensures IndexLiterals[24][j] == Spell(192 + j)
  {
  }

  lemma Line25Literals(j: nat)
    requires j < 8
    ensures IndexLiterals[25][j] == Spell(200 + j)
  {
  }

  lemma Line26Literals(j: nat)
    requires j < 8
    ensures IndexLiterals[26][j] == Spell(208 + j)
  {
  }

  lemma Line27Literals(j: nat)
    requires j < 8
    ensures IndexLiterals[27][j] == Spell(216 + j)
  {
  }

  lemma Line28Literals(j: nat)
    requires j < 8
    ensures IndexLiterals[28][j] == Spell(224 + j)
  {
  }

  lemma Line29Literals(j: nat)
    requires j < 8
    ensures IndexLiterals[29][j] == Spell(232 + j)
  {
  }

  lemma Line30Literals(j: nat)
    requires j < 8
    ensures IndexLiterals[30][j] == Spell(240 + j)
  {
  }

  lemma Line31Literals(j: nat)
    requires j < 8
    ensures IndexLiterals[31][j] == Spell(248 + j)
  {
  }

  /** Lines 0 to 7 of the table, rows 0 to 63. */
  lemma Quarter0Literals(k: nat, j: nat)
    requires 0 <= k <= 7 && j < 8
    ensures IndexLiterals[k][j] == Spell(8 * k + j)
  {
    if k == 0 {
      Line0Literals(j);
    } else if k == 1 {
      Line1Literals(j);
    } else if k == 2 {
      Line2Literals(j);
    } else if k == 3 {
      Line3Literals(j);
    } else if k == 4 {
      Line4Literals(j);
    } else if k == 5 {
      Line5Literals(j);
    } else if k == 6 {
      Line6Literals(j);
    } else {
      Line7Literals(j);
    }
  }

  /** Lines 8 to 15 of the table, rows 64 to 127. */
  lemma Quarter1Literals(k: nat, j: nat)
    requires 8 <= k <= 15 && j < 8
    ensures IndexLiterals[k][j] == Spell(8 * k + j)
  {
    if k == 8 {
      Line8Literals(j);
    } else if k == 9 {
      Line9Literals(j);
    } else if k == 10 {
      Line10Literals(j);
    } else if k == 11 {
      Line11Literals(j);
    } else if k == 12 {
      Line12Literals(j);
    } else if k == 13 {
      Line13Literals(j);
    } else if k == 14 {
      Line14Literals(j);
    } else {
      Line15Literals(j);
    }
  }

  /** Lines 16 to 23 of the table, rows 128 to 191. */
  lemma Quarter2Literals(k: nat, j: nat)
    requires 16 <= k <= 23 && j < 8
    ensures IndexLiterals[k][j] == Spell(8 * k + j)
  {
    if k == 16 {
      Line16Literals(j);
    } else if k == 17 {
      Line17Literals(j);
    } else if k == 18 {
      Line18Literals(j);
    } else if k == 19 {
      Line19Literals(j);
    } else if k == 20 {
      Line20Literals(j);
    } else if k == 21 {
      Line21Literals(j);
    } else if k == 22 {
      Line22Literals(j);
    } else {
      Line23Literals(j);
    }
  }

  /** Lines 24 to 31 of the table, rows 192 to 255. */
  lemma Quarter3Literals(k: nat, j: nat)
    requires 24 <= k <= 31 && j < 8
    ensures IndexLiterals[k][j] == Spell(8 * k + j)
  {
    if k == 24 {
      Line24Literals(j);
    } else if k == 25 {
      Line25Literals(j);
    } else if k == 26 {
      Line26Literals(j);
    } else if k == 27 {
      Line27Literals(j);
    } else if k == 28 {
      Line28Literals(j);
    } else if k == 29 {
      Line29Literals(j);
    } else if k == 30 {
      Line30Literals(j);
    } else {
      Line31Literals(j);
    }
  }

  /** Row n of the table carries n spelled out in decimal. */
  lemma LiteralSpelled(n: u8)
    ensures Literal(n) == Spell(n)
  {
    var k: nat, j: nat := n / 8, n % 8;
    assert n == 8 * k + j;
    if k < 8 {
      Quarter0Literals(k, j);
    } else if k < 16 {
      Quarter1Literals(k, j);
    } else if k < 24 {
      Quarter2Literals(k, j);
    } else {
      Quarter3Literals(k, j);
    }
  }

  /** Row n of the table carries the unpadded decimal rendering of n. */
  lemma LiteralIsDecimal(n: u8)
    ensures Literal(n) == Show(n)
  {
    LiteralSpelled(n);
    SpellShow(n);
  }

  /** The index column runs 0, 1, ..., 255: row n carries an unpadded
      decimal literal denoting n. */
  lemma IndexColumn(n: u8)
    ensures Canonical(Literal(n)) && Value(Literal(n)) == n
  {
    LiteralIsDecimal(n);
    ValueShow(n);
  }

  /** No index appears on two rows. */
  lemma IndicesDistinct(m: u8, n: u8)
    ensures Literal(m) == Literal(n) <==> m == n
  {
    IndexColumn(m);
    IndexColumn(n);
  }

  /** A selection decodes as the three numbers it carries. */
  lemma SelectionSgr(fg: bool, lit: string)
    requires AllDigits(lit)
    ensures Parse(Selection(fg, lit)) == Some([if fg then 38 else 48, 5, Value(lit)])
    ensures IsAscii(Selection(fg, lit))
  {
    var lead := if fg then "38" else "48";
    var fs := [lead, "5", lit];
    assert Selection(fg, lit) == Sequence(fs) by {
      JoinThree(lead, "5", lit);
    }
    assert NumericFields(fs) && Values(fs) == [if fg then 38 else 48, 5, Value(lit)] by {
      SelectionValues(fg, lit);
    }
    assert Parse(Sequence(fs)) == Some(Values(fs)) && IsAscii(Sequence(fs)) by {
      ParseSequence(fs);
      SequenceAscii(fs);
    }
  }

  /** The parameter substrings of a selection are numeric and denote
      `38` or `48`, `5` and the literal's value. */
  lemma SelectionValues(fg: bool, lit: string)
    requires AllDigits(lit)
    ensures var lead := if fg then "38" else "48";
      NumericFields([lead, "5", lit]) && Values([lead, "5", lit]) == [if fg then 38 else 48, 5, Value(lit)]
  {
    var lead := if fg then "38" else "48";
    ValuesThree(lead, "5", lit);
    assert lead == [lead[0], '8'];
    ValueTwo(lead[0], '8');
    assert Value("5") == 5;
  }

  /** Both constants of row n decode as the xterm 256-colour selections
      `38;5;n` and `48;5;n`. */
  lemma XtermSgr(n: u8)
    ensures Parse(AnsiFg(n)) == Some([38, 5, n])
    ensures Parse(AnsiBg(n)) == Some([48, 5, n])
    ensures IsAscii(AnsiFg(n)) && IsAscii(AnsiBg(n))
  {
    IndexColumn(n);
    SelectionSgr(true, Literal(n));
    SelectionSgr(false, Literal(n));
  }
}
