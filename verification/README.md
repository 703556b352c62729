# owo-colors: colour escape sequences, modelled in Dafny

This project models `src/colors.rs` of the `owo-colors` crate. That file is where every colour
type gets its two constant strings, `ANSI_FG` and `ANSI_BG`. It is also where the
styled-value wrappers `FgColorDisplay` and `BgColorDisplay` write those constants around
the value they wrap. Every string is an ECMA-48 *Select Graphic Rendition* control sequence
(section 8.3.117 of ECMA-48), `ESC [ p1 ; ... ; pk m`. The sequences come in three families:

- the sixteen standard colours of the `colors!` table: SGR 30-37 and 40-47, plus the aixterm
  bright variants 90-97 and 100-107;
- the 256 palette colours of the `xterm_colors!` table: the xterm selections `38;5;n` and
  `48;5;n`, with `n` written as the table row's unpadded index literal;
- the custom RGB colours: `rgb_to_ansi` fills a 19-byte template with each channel rendered
  as three zero-padded digits taken from the `U8_TO_STR` table. This gives the xterm direct
  colour selections `38;2;rrr;ggg;bbb` and `48;2;rrr;ggg;bbb`. `CustomColor` then reads the
  buffer as a `&str`.

Modules, in dependency order:

- `Decimal` (decimal.dfy): digit strings, the unpadded rendering `Show`, the three-digit
  rendering `Pad3`, and the value `Value` of a digit string read back.
- `Sgr` (sgr.dfy): SGR sequences and a decoder `Parse`. The decoder splits the parameter
  string at `;` as section 5.4.2 of ECMA-48 describes. It is the independent reference that
  every constant is checked against.
- `Standard` (standard.dfy): the `colors!` table.
- `Xterm` (xterm.dfy): the `xterm_colors!` table. Its index literals are stored eight to a
  line.
- `Custom` (custom.dfy): `U8_TO_STR`, stored sixteen entries to a line; `rgb_to_ansi` as the
  method `RgbToAnsi` over a byte sequence; and the `CustomColor` constants.
- `Registry` (registry.dfy): all three families behind one `Color` type.
- `Wrapper` (wrapper.dfy): the `fmt` body generated by `impl_fmt_for!`. It runs over a sink
  whose writes may be refused. The wrapped value is any formatter that only adds to the sink:
  it may make any calls, carry on after a refused write, or return the error on its own. A
  value that writes a list of chunks, each followed by `?`, is the common special case and has
  its own, more detailed lemmas.
- `Scenarios` (scenarios.dfy): three worked examples of a formatted value.

## Model

| member | source | states |
|---|---|---|
| Decimal.ValueShow | src/colors.rs:89-90 | Reading back the unpadded decimal rendering that `stringify!` gives an index literal returns the index. |
| Decimal.ShowValue | src/colors.rs:89-90 | A canonical digit string (no leading zero) is the rendering of its value, so such a literal is determined by the number it denotes. |
| Decimal.ShowCanonicalIff | src/colors.rs:89-90 | `Show(n) == s` exactly when `s` is canonical and denotes `n`, in both directions. |
| Decimal.Pad3Value | src/colors.rs:359 | Reading back the three zero-padded digits of any n below 1000 returns n. |
| Decimal.ShowDigits | src/colors.rs:99-354 | Below 1000, the unpadded rendering has one, two or three digits, with the given digits in order. |
| Sgr.ParseSequence | src/colors.rs:15-16 | An SGR sequence built from digit substrings decodes to the numbers those substrings denote, one parameter per substring. |
| Sgr.FieldsJoin | src/colors.rs:15-16 | Splitting at `;` undoes joining with `;`, provided no substring contains a `;`. |
| Sgr.SequenceAscii | src/colors.rs:15-16 | An SGR sequence built from digit substrings is entirely ASCII. |
| Standard.FgLiteral | src/colors.rs:23-39 | The `$fg` column of the `colors!` table; its contract states the literal is a canonical digit string. |
| Standard.BgLiteral | src/colors.rs:23-39 | The `$bg` column of the `colors!` table; its contract states the literal is a canonical digit string. |
| Standard.AnsiFg | src/colors.rs:15 | Definition of `ANSI_FG` as `ESC[`, the `$fg` literal and `m`; its decoding is stated by `Standard.StandardSgr`. |
| Standard.AnsiBg | src/colors.rs:16 | Definition of `ANSI_BG` as `ESC[`, the `$bg` literal and `m`; its decoding is stated by `Standard.StandardSgr`. |
| Standard.StandardCodes | src/colors.rs:23-39 | Every standard colour's foreground code is in 30-37 or 90-97, and its background literal denotes that code plus 10. |
| Standard.StandardCodesDistinct | src/colors.rs:23-39 | Different standard colours have different foreground codes. |
| Standard.StandardSgr | src/colors.rs:15-16 | `ANSI_FG` decodes to the single parameter `[fg]` and `ANSI_BG` to `[fg + 10]`, and both are ASCII. |
| Xterm.Literal | src/colors.rs:99-354 | Definition: the index literal of a palette row; `Xterm.LiteralIsDecimal` states its value. |
| Xterm.AnsiFg | src/colors.rs:89 | Definition of `ANSI_FG` as `ESC[38;5;`, the row's literal and `m`; `Xterm.XtermSgr` states its decoding. |
| Xterm.AnsiBg | src/colors.rs:90 | Definition of `ANSI_BG` as `ESC[48;5;`, the row's literal and `m`; `Xterm.XtermSgr` states its decoding. |
| Xterm.TableShape | src/colors.rs:99-354 | The palette table has 256 rows. |
| Xterm.LiteralIsDecimal | src/colors.rs:99-354 | Row n of the palette table carries the unpadded decimal rendering of n, for every n from 0 to 255. |
| Xterm.IndexColumn | src/colors.rs:99-354 | Every index literal is canonical and denotes its row number, so the indices run 0..255 in order. |
| Xterm.IndicesDistinct | src/colors.rs:99-354 | Two rows have the same index literal exactly when they are the same row, so no index repeats. |
| Xterm.SelectionSgr | src/colors.rs:89-90 | `ESC[38;5;` or `ESC[48;5;`, then a digit literal, then `m`, decodes to `[38 or 48, 5, value]` and is ASCII. |
| Xterm.XtermSgr | src/colors.rs:89-90 | Row n's `ANSI_FG` decodes to `[38, 5, n]` and its `ANSI_BG` to `[48, 5, n]`, and both are ASCII. |
| Custom.Template | src/colors.rs:363 | The two literal templates; its contract gives their length, 19 bytes, and `Custom.RgbToAnsi` states which of their bytes survive. |
| Custom.AnsiFg | src/colors.rs:392 | The text `CustomColor::ANSI_FG` denotes; `Custom.CustomAnsi` proves the method computing it returns it. |
| Custom.AnsiBg | src/colors.rs:393 | The text `CustomColor::ANSI_BG` denotes; `Custom.CustomAnsi` proves the method computing it returns it. |
| Custom.TableShape | src/colors.rs:359 | `U8_TO_STR` holds 256 entries of three codes each. |
| Custom.Lookup | src/colors.rs:359 | The `U8_TO_STR` entry of every byte v is `[48 + v/100, 48 + (v/10)%10, 48 + v%10]`, the ASCII codes of its three-digit rendering. |
| Custom.AsciiDigitsDecode | src/colors.rs:359 | Decoding an entry as `100*d0 + 10*d1 + d2` returns the byte. |
| Custom.RgbToAnsi | src/colors.rs:362-385 | The buffer has 19 bytes and keeps the template outside offsets 7-9, 11-13 and 15-17. Byte 2 is `3` for the foreground and `4` for the background. The three slots hold the padded digits of r, g and b and decode back to them. Every byte is ASCII, and the buffer spells the truecolour text. |
| Custom.SpellsTruecolour | src/colors.rs:363-382 | A buffer that holds the template outside the slots and the padded digits inside them is ASCII and spells `ESC[lead;2;rrr;ggg;bbbm`. |
| Custom.CustomAnsi | src/colors.rs:391-393 | Reading the buffer as text is permitted because the buffer is ASCII, and the text read is `CustomColor`'s constant. |
| Custom.TruecolourSgr | src/colors.rs:363 | The truecolour text decodes to `[38 or 48, 2, r, g, b]` and is ASCII. |
| Custom.CustomSgr | src/colors.rs:392-393 | `ANSI_FG` decodes to `[38, 2, r, g, b]` and `ANSI_BG` to `[48, 2, r, g, b]`, and both are ASCII. |
| Custom.CustomFgBgDiffer | src/colors.rs:363 | The two constants of a triple both have 19 characters and differ only at position 2, where they hold `3` and `4`. |
| Custom.CustomInjective | src/colors.rs:392-393 | Two triples give the same foreground constant exactly when they are equal, and the same holds for the background constant. |
| Custom.CustomExample | src/colors.rs:365-382 | The triple (5, 10, 255) in the foreground gives `ESC[38;2;005;010;255m`. |
| Registry.AnsiFg | src/colors.rs:15 | Definition: `ANSI_FG` of each of the three colour populations; `Registry.FgSgr` states its decoding. |
| Registry.AnsiBg | src/colors.rs:16 | Definition: `ANSI_BG` of each of the three colour populations; `Registry.BgSgr` states its decoding. |
| Registry.BgIsFgPlusTen | src/colors.rs:23-39 | For every colour, `ANSI_BG` decoded is `ANSI_FG` decoded with its first parameter raised by 10 and the rest unchanged. |
| Registry.FgSgr | src/colors.rs:15 | Every colour's `ANSI_FG` decodes to its foreground selection and is ASCII. |
| Registry.BgSgr | src/colors.rs:16 | Every colour's `ANSI_BG` decodes to its background selection and is ASCII. |
| Registry.ColorSgr | src/colors.rs:15-16 | Both constants of every colour decode to its selections and are ASCII. |
| Registry.ParamsInjective | src/colors.rs:23-39 | The selection determines the colour, for both the foreground and the background. |
| Registry.FgDistinct | src/colors.rs:14-17 | Two colours have the same `ANSI_FG` exactly when they are the same colour. |
| Registry.BgDistinct | src/colors.rs:14-17 | Two colours have the same `ANSI_BG` exactly when they are the same colour. |
| Registry.FgNeverBg | src/colors.rs:15-16 | No colour's `ANSI_FG` equals any colour's `ANSI_BG`. |
| Wrapper.WriteStr | src/colors.rs:48 | Definition of `Formatter::write_str` over the modelled sink: the call is logged, and a refused write adds no text and returns the error. |
| Wrapper.Wrap | src/colors.rs:47-50 | Definition of the `fmt` body for any opening constant; `Wrapper.WrapAccepts` and `Wrapper.WrapHalts` state its contract. |
| Wrapper.Fmt | src/colors.rs:47-50 | Definition of the wrapper's `fmt`; `Wrapper.FmtOutput` and `Wrapper.FmtStopsAtFailure` state its contract. |
| Wrapper.FmtInner | src/colors.rs:49 | Definition of a wrapped value that writes chunks, each followed by `?`, then returns its own result. |
| Wrapper.WrapAccepts | src/colors.rs:47-50 | For any wrapped value that only adds to the sink, `fmt` returns `Ok` exactly when the constant is accepted, the value returns `Ok` and the reset is accepted. The output is then the constant, the value's text and `ESC[0m`, and the calls are the constant, the value's calls and the reset. |
| Wrapper.WrapHalts | src/colors.rs:47-50 | For any wrapped value: a refused constant is the only call; an error from the value is returned with nothing after it; the reset is attempted only after an accepted constant and a successful value, as the last call, and the result is the error exactly when the reset is refused. |
| Wrapper.FmtOutput | src/colors.rs:47-50 | `FgColorDisplay`/`BgColorDisplay` formatting returns `Ok` exactly when `ANSI_FG` or `ANSI_BG` is accepted, the wrapped value returns `Ok` and `ESC[0m` is accepted. The output is then the constant, the value's text, then `ESC[0m`. |
| Wrapper.FmtStopsAtFailure | src/colors.rs:47-50 | That formatting returns at once, making no further call, after a refused constant or an error from the wrapped value. The reset is the last call and decides the result otherwise. |
| Wrapper.ChunksAppend | src/colors.rs:49 | A chunk-writing wrapped value only adds to the sink, so the general lemmas apply to it. |
| Wrapper.WriteAllOutcome | src/colors.rs:48-50 | A run of `?`-chained writes either makes every write and appends their concatenation, or stops at the first refused write with only the earlier text added. |
| Wrapper.WriteAllSplit | src/colors.rs:48-50 | Writing `a + b` is writing `a` and then, only if that succeeded, writing `b`. |
| Wrapper.WrapIsPlan | src/colors.rs:47-50 | For a chunk-writing wrapped value that succeeds, the nested `?` chain is one flat run of writes: the constant, the value's chunks, then the reset. |
| Wrapper.WrapOutput | src/colors.rs:47-50 | For a chunk-writing wrapped value, formatting succeeds exactly when the value's verdict is `Ok` and the sink accepts every write. Then the output gains the constant, the value's chunks and `ESC[0m`, and nothing else. |
| Wrapper.WrapStops | src/colors.rs:47-50 | For a chunk-writing wrapped value, a failed formatting has made a prefix of the plan's calls. They end in the refused write, or in the value's last chunk when its verdict was the error. Every earlier write was accepted, and the reset is never attempted after a failure. |
| Scenarios.RedHex | src/colors.rs:24 | `Red` around a value that writes `ff` gives `ESC[31mffESC[0m`. |
| Scenarios.PaletteBackground | src/colors.rs:307 | Palette entry 208 as the background around `hi` gives `ESC[48;5;208mhiESC[0m`. |
| Scenarios.CustomForeground | src/colors.rs:392 | The custom colour (5, 10, 255) around `0` gives `ESC[38;2;005;010;255m0ESC[0m`. |
| Scenarios.SwallowedRefusal | src/colors.rs:48-50 | A wrapped value that ignores a refusal of its own write does not stop the wrapper: the reset is still written and `Ok` is returned. |

## Left out

- The fan-out over the nine `core::fmt` traits (src/colors.rs:58-78). The bodies are identical,
  so one wrapped value stands for all of them. It is modelled as any function from the sink
  and its refusal policy to an outcome.
- WrapIsPlan: covers only wrapped values that write chunks, each followed by `?`; for any
  other wrapped value the contract is `Wrapper.WrapAccepts` and `Wrapper.WrapHalts`.
- WrapOutput: the same restriction to chunk-writing wrapped values; the general success
  condition and output are `Wrapper.WrapAccepts`.
- WrapStops: the same restriction to chunk-writing wrapped values; what happens after a
  failure for any wrapped value is `Wrapper.WrapHalts`.
- FmtOutput and `Wrapper.WrapAccepts` require the wrapped value to only add to the sink,
  since a `Formatter` offers no way to take back written text; `Wrapper.WrapHalts` and
  `Wrapper.FmtStopsAtFailure` need no such requirement.
- `fmt::Formatter` is modelled as a sink that records accepted text and every call made. A
  refusal policy decides from the call log which write fails. A refused write adds no text;
  a real sink may have written part of it, which the model does not capture.
  Padding, width and flags are not modelled because the wrapper never uses them.
- The colour names and the `(r, g, b)` columns of the palette table (src/colors.rs:83-90). They
  never reach an emitted string.
- Const generics, the zero-sized colour structs and the `custom` feature gate. These are
  compile-time mechanisms with no run-time behaviour.
- The `transmute` itself (src/colors.rs:392-393) is modelled as `BytesToString`, which requires
  an ASCII buffer. `RgbToAnsi` proves that requirement for every triple. UTF-8 validation in
  general is not modelled.
- `CustomColor`'s constants are computed by the method `CustomAnsi`. The `Registry` refers to
  the text that method is proved to return (`Custom.AnsiFg`/`Custom.AnsiBg`), not to the method.
- The tables are stored as lines of sixteen (`U8_TO_STR`) or eight (palette indices) entries
  instead of one flat array. Entry v sits at line `v / width`, position `v % width`.
- Terminals and output streams are not modelled.
