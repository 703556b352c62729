/** Worked examples: one wrapped value per colour population, formatted into
    an empty sink that accepts every write. */
module Scenarios {
  import opened Decimal
  import Standard
  import Xterm
  import Custom
  import Registry
  import opened Wrapper

  /** A sink that accepts every write. */
  function AcceptAll(): Refusal {
    _ => false
  }

  /** The output of formatting `st` into an empty sink that accepts every write. */
  function Render(st: Styled): Outcome {
    Fmt(st, Sink("", []), AcceptAll())
  }

  /** 255 in lower-case hexadecimal, in red. */
  lemma RedHex()
    ensures Render(Styled(Fg, Registry.Named(Standard.Red), Chunks(Inner(["ff"], Ok)))).sink.out
         == "\U{1B}[31mff\U{1B}[0m"
  {
    assert Standard.AnsiFg(Standard.Red) == "\U{1B}[31m";
    assert ["ff"][1..] == [];
  }

  /** "hi" on palette entry 208. */
  lemma PaletteBackground()
    ensures Render(Styled(Bg, Registry.Palette(208), Chunks(Inner(["hi"], Ok)))).sink.out
         == "\U{1B}[48;5;208mhi\U{1B}[0m"
  {
    Xterm.LiteralIsDecimal(208);
    ShowDigits(208);
    assert ["hi"][1..] == [];
  }

  /** 0 in the custom colour (5, 10, 255). */
  lemma CustomForeground()
    ensures Render(Styled(Fg, Registry.Rgb(5, 10, 255), Chunks(Inner(["0"], Ok)))).sink.out
         == "\U{1B}[38;2;005;010;255m0\U{1B}[0m"
  {
    Custom.CustomExample();
    assert ["0"][1..] == [];
  }

  /** A wrapped value that writes `text` and returns success whatever the
      sink did with the write, as a `Display` impl that ignores the result
      of `write_str` would. */
  function Lenient(text: string): Formatter {
    (s: Sink, refuses: Refusal) => Outcome(WriteStr(s, refuses, text).sink, Ok)
  }

  /** A sink that refuses only the second call made on it. */
  function RefuseSecond(): Refusal {
    calls => |calls| == 2
  }

  /** When the sink refuses the wrapped value's own write and the value
      swallows the error, the wrapper carries on: red, then the reset
      sequence, with no text between them, and success. */
  lemma SwallowedRefusal()
    ensures Fmt(Styled(Fg, Registry.Named(Standard.Red), Lenient("ff")), Sink("", []), RefuseSecond())
         == Outcome(Sink("\U{1B}[31m\U{1B}[0m", ["\U{1B}[31m", "ff", "\U{1B}[0m"]), Ok)
  {
    assert Standard.AnsiFg(Standard.Red) == "\U{1B}[31m";
  }
}
