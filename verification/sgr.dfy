/** Select Graphic Rendition control sequences (section 8.3.117 of ECMA-48):
    `ESC [ p1 ; p2 ; ... ; pk m`. The decoder here is the reference every
    colour string of the library is checked against. */
module Sgr {
  import opened Decimal

  datatype Option<+T> = None | Some(value: T)

  /** The escape control character, 0x1B. */
  const Esc: char := '\U{1B}'

  /** The sequence written after every wrapped value: SGR 0, all attributes
      back to their defaults. */
  const Reset: string := "\U{1B}[0m"

  predicate IsAscii(s: string) {
    forall i :: 0 <= i < |s| ==> s[i] as int < 128
  }

  predicate NoSeparator(s: string) {
    forall i :: 0 <= i < |s| ==> s[i] != ';'
  }

  predicate NumericFields(fs: seq<string>) {
    forall i :: 0 <= i < |fs| ==> AllDigits(fs[i])
  }

  /** The parameter substrings of a parameter string, split at ';'
      (section 5.4.2 of ECMA-48). */
  function Fields(s: string): (fs: seq<string>)
    ensures |fs| > 0
  {
    if |s| == 0 then [""]
    else
      var rest := Fields(s[1..]);
      if s[0] == ';' then [""] + rest
      else [[s[0]] + rest[0]] + rest[1..]
  }

  /** Parameter substrings joined with ';'. */
  function Join(fs: seq<string>): string
    requires |fs| > 0
  {
    if |fs| == 1 then fs[0] else fs[0] + ";" + Join(fs[1..])
  }

  /** The SGR sequence carrying the given parameter substrings. */
  function Sequence(fs: seq<string>): string
    requires |fs| > 0
  {
    [Esc] + "[" + Join(fs) + "m"
  }

  /** The numbers a list of digit substrings denotes. */
  function Values(fs: seq<string>): (vs: seq<nat>)
    requires NumericFields(fs)
  {
    seq(|fs|, i requires 0 <= i < |fs| => Value(fs[i]))
  }

  /** Decodes an SGR sequence into its numeric parameters. An empty
      parameter substring stands for 0; leading zeros are allowed. */
  function Parse(s: string): Option<seq<nat>> {
    if |s| >= 3 && s[0] == Esc && s[1] == '[' && s[|s| - 1] == 'm' then
      var fs := Fields(s[2..|s| - 1]);
      if NumericFields(fs) then Some(Values(fs))
      else None
    else None
  }

  lemma ValuesThree(a: string, b: string, c: string)
    requires AllDigits(a) && AllDigits(b) && AllDigits(c)
    ensures NumericFields([a, b, c])
    ensures Values([a, b, c]) == [Value(a), Value(b), Value(c)]
  {
  }

  lemma ValuesFive(a: string, b: string, c: string, d: string, e: string)
    requires AllDigits(a) && AllDigits(b) && AllDigits(c) && AllDigits(d) && AllDigits(e)
    ensures NumericFields([a, b, c, d, e])
    ensures Values([a, b, c, d, e]) == [Value(a), Value(b), Value(c), Value(d), Value(e)]
  {
  }

  lemma JoinThree(a: string, b: string, c: string)
    ensures Join([a, b, c]) == a + ";" + b + ";" + c
  {
    assert [a, b, c][1..] == [b, c];
    assert [b, c][1..] == [c];
    assert Join([c]) == c;
    var t := Join([b, c]);
    assert t == b + ";" + c;
    assert Join([a, b, c]) == a + ";" + t;
  }

  lemma JoinFive(a: string, b: string, c: string, d: string, e: string)
    ensures Join([a, b, c, d, e]) == a + ";" + b + ";" + c + ";" + d + ";" + e
  {
    assert [a, b, c, d, e][1..] == [b, c, d, e];
    assert [b, c, d, e][1..] == [c, d, e];
    JoinThree(c, d, e);
    var t := Join([c, d, e]);
    var u := Join([b, c, d, e]);
    assert u == b + ";" + t;
    assert Join([a, b, c, d, e]) == a + ";" + u;
  }

  lemma {:induction false} FieldsSingle(a: string)
    requires NoSeparator(a)
    ensures Fields(a) == [a]
  {
    if |a| > 0 {
      FieldsSingle(a[1..]);
      assert [a[0]] + a[1..] == a;
    }
  }

  lemma {:induction false} FieldsSplit(a: string, b: string)
    requires NoSeparator(a)
    ensures Fields(a + ";" + b) == [a] + Fields(b)
  {
    if |a| == 0 {
      assert a + ";" + b == [';'] + b;
      assert ([';'] + b)[1..] == b;
    } else {
      var s := a + ";" + b;
      assert s[1..] == a[1..] + ";" + b;
      FieldsSplit(a[1..], b);
      assert [a[0]] + a[1..] == a;
    }
  }

  /** Splitting undoes joining, as long as no substring holds a separator. */
  lemma {:induction false} FieldsJoin(fs: seq<string>)
    requires |fs| > 0
    requires forall i :: 0 <= i < |fs| ==> NoSeparator(fs[i])
    ensures Fields(Join(fs)) == fs
  {
    if |fs| == 1 {
      FieldsSingle(fs[0]);
    } else {
      FieldsSplit(fs[0], Join(fs[1..]));
      FieldsJoin(fs[1..]);
      assert [fs[0]] + fs[1..] == fs;
    }
  }

  /** Decoding a sequence built from digit substrings gives back the
      numbers those substrings denote, one per substring. */
  lemma ParseSequence(fs: seq<string>)
    requires |fs| > 0 && NumericFields(fs)
    ensures Parse(Sequence(fs)) == Some(Values(fs))
  {
    var s := Sequence(fs);
    assert s[2..|s| - 1] == Join(fs);
    forall i | 0 <= i < |fs|
      ensures NoSeparator(fs[i])
    {
      assert AllDigits(fs[i]);
    }
    FieldsJoin(fs);
  }

  lemma {:induction false} JoinAscii(fs: seq<string>)
    requires |fs| > 0 && NumericFields(fs)
    ensures IsAscii(Join(fs))
  {
    if |fs| > 1 {
      JoinAscii(fs[1..]);
      assert AllDigits(fs[0]);
    } else {
      assert AllDigits(fs[0]);
    }
  }

  /** A sequence built from digit substrings is plain ASCII. */
  lemma SequenceAscii(fs: seq<string>)
    requires |fs| > 0 && NumericFields(fs)
    ensures IsAscii(Sequence(fs))
  {
    JoinAscii(fs);
  }
}
