# td3-pattern, modelled in Dafny

td3-pattern moves step-sequencer patterns between a Behringer TD-3 and a text
file. A pattern has sixteen steps, an active step count and a triplet flag.
Each step holds a note, a transpose, an accent flag, a slide flag and a time
class (tie, rest, both or neither). The text format writes the note as 0..12
(12 is the upper C) and the transpose as down, normal or up. The binary
decoder can produce a note up to 23 and a larger raw transpose.
This project models the two codecs at the core of the tool and
proves what they promise:

- **The binary codec** (`sysex_to_pattern`, `pattern_to_sysex`) reads and
  writes the 115-byte pattern payload. That payload holds:
  - a five-byte header;
  - the composed note of each step, split into two nibble bytes;
  - the accent and slide bytes at odd offsets;
  - the triplet flag and the active step count;
  - the tie and rest masks, nibble-interleaved by the `four_u8_to_u16!` and
    `u16_to_four_u8!` macros.

  Both directions are loops over the sixteen steps. They are modelled as
  methods proved equal to the functions `Decode` and `Encode`. Take any
  pattern the text format can express, any group, and any address whose
  byte `pnum + (ab << 3)` does not overflow (the encoder panics on an
  overflow there in a debug build). Then the payload the encoder writes is
  one the decoder accepts without overflow, and decoding it gives the
  pattern back (`BinaryCodec.DecodeEncode`).
- **The text codec** (`pattern_to_string`, `string_to_pattern`,
  `next_nonempty_line`, `split_entries`).
  - The text has a title line, a metadata line (`Active Steps: n, Triplet
    Time: On|Off`), a step-number comment line and five field lines. Each
    field line has a fixed-width label, sixteen comma-separated two-column
    tokens and a legend comment. The text ends with a footer comment.
  - The parser skips comments and blank lines and checks the title, the
    metadata, the five labels in order and sixteen entries per line. It then
    looks every entry up in its field's table.
  - Rendering, then parsing, gives the pattern back
    (`TextRoundTrip.ParseRendered`).
  - Every error the parser reports is the first check that fails, in the
    order the source makes them (`TextErrors.ParseErrorOrder`,
    `TextErrors.ReadColumnsFirstError`, `TextParse.ParseStepRejectedFirst`).
- **The enum tables** of `src/time.rs`, `src/notetime.rs` and `src/step.rs`:
  - discriminants;
  - `FromStr`;
  - `Debug`;
  - `TryFrom<u8>` and `TryFrom<u16>`;
  - the inverse relations between them.

The Rust `u8`/`u16` arithmetic panics on overflow in a debug build. The model
states each such sum or difference as a precondition, stated exactly on the
unbounded value, so a caller must show that no overflow happens. Shifts that
drop bits are written out as `% 0x100` or `% 0x1_0000`.

Files:
- `base.dfy`: `u8`/`u16`, `Option`, `Result` and powers of two.
- `strings.dfy`: the Rust `str` operations used: trim, split, lines, find and
  decimal.
- `time.dfy`, `notetime.dfy` and `step.dfy`: the enum tables.
- `pattern_model.dfy`: the pattern types.
- `masks.dfy`: the mask macros.
- `binary_codec.dfy`: the binary codec.
- `text_format.dfy`: labels, tables, rows and cells.
- `text_render.dfy`: the renderer.
- `text_parse.dfy`: the parser.
- `text_round_trip.dfy`: the text round trip.
- `text_errors.dfy`: the error order of the parser.

## Model

| member | source | states |
|---|---|---|
| PatternModel.DefaultStep | src/pattern.rs:20-24 | the default step is note 0 (C), transpose 1 (normal), no accent, no slide, time Normal, and is a valid step |
| PatternModel.DefaultPattern | src/pattern.rs:32-36 | the default pattern is valid, not triplet, has one active step, and all sixteen steps are the default step |
| Masks.FourU8ToU16 | src/pattern.rs:38-46 | when the four bytes are nibbles, the result holds byte 1 in bits 0-3, byte 0 in bits 4-7, byte 3 in bits 8-11 and byte 2 in bits 12-15; the `u16` additions must not overflow |
| Masks.U16ToFourU8 | src/pattern.rs:233-242 | splits a `u16` into four nibble bytes that `four_u8_to_u16!` packs back into the same value |
| Masks.UnpackPack | src/pattern.rs:39-46 | packing a group of four nibble bytes never overflows, and splitting the packed value gives the same four bytes back |
| Masks.MaskOf | src/pattern.rs:260-261 | the mask built from `k` bits stays below 2^k |
| Masks.MaskOfBit | src/pattern.rs:260-261 | bit `n` of the accumulated mask is the `n`-th bit fed to it |
| Masks.MaskExtend | src/pattern.rs:260-261 | one loop iteration adds `bit << i` to the mask, and sixteen iterations stay within `u16` |
| TimeTable.Code | src/time.rs:6-12 | the discriminants are Tie 0, Normal 1, TieRest 2, Rest 3, each variant its own |
| TimeTable.FromStr | src/time.rs:14-25 | accepts exactly "", "TI", "RE" and "TR", as Normal, Tie, Rest and TieRest; any other text is an error |
| TimeTable.Debug | src/time.rs:27-36 | every variant is rendered in exactly two characters |
| TimeTable.TryFromU8 | src/time.rs:38-50 | succeeds exactly for 0..3, with the variant of that discriminant |
| TimeTable.TryFromU16 | src/time.rs:52-64 | succeeds exactly for 0..3, with the variant of that discriminant |
| TimeTable.CodeInjective | src/time.rs:6-12 | distinct variants have distinct discriminants |
| TimeTable.TryFromInvertsCode | src/time.rs:38-64 | both integer conversions give back the variant whose discriminant they receive |
| TimeTable.DebugRoundTrip | src/time.rs:14-36 | the `Debug` text of a variant, trimmed, parses back to that variant |
| TimeTable.TimeFromBits | src/pattern.rs:68 | `tie + (rest << 1)` always converts (the `unwrap` cannot panic); the result is the variant whose bit 0 is the tie bit and bit 1 the rest bit |
| NotetimeTable.AsTime | src/notetime.rs:6-12 | each `Notetime` variant corresponds to one `Time` variant, and the correspondence is invertible |
| NotetimeTable.Code | src/notetime.rs:6-12 | a `Notetime` discriminant equals that of the corresponding `Time` |
| NotetimeTable.FromStr | src/notetime.rs:14-25 | accepts exactly the tokens `Time` accepts, giving the corresponding variant |
| NotetimeTable.Debug | src/notetime.rs:27-36 | renders as the corresponding `Time` does |
| NotetimeTable.TryFromU8 | src/notetime.rs:38-50 | succeeds exactly for 0..3, with the variant of that discriminant |
| NotetimeTable.TryFromU16 | src/notetime.rs:52-64 | succeeds exactly for 0..3, with the variant of that discriminant |
| NotetimeTable.AsTimeBijective | src/notetime.rs:6-12 | the correspondence with `Time` is a bijection |
| NotetimeTable.TryFromInvertsCode | src/notetime.rs:38-64 | the conversions invert the discriminant and agree with the `Time` conversions |
| NotetimeTable.DebugRoundTrip | src/notetime.rs:14-36 | the two-character `Debug` text, trimmed, parses back to the same variant |
| TypedStep.DefaultStep | src/step.rs:15-19 | the typed default step carries the same information as the default step of the pattern |
| TypedStep.AccentCode | src/step.rs:21-25 | Off is 0 and On is 1 |
| TypedStep.AccentFromStr | src/step.rs:27-36 | accepts exactly "" and "AC", with "AC" meaning On |
| TypedStep.AccentDebug | src/step.rs:38-45 | Off is written as two spaces and On as `AC` |
| TypedStep.AccentTryFromU8 | src/step.rs:47-57 | succeeds exactly for 0 and 1, with the variant of that discriminant |
| TypedStep.SlideCode | src/step.rs:59-63 | Off is 0 and On is 1 |
| TypedStep.SlideFromStr | src/step.rs:65-74 | accepts exactly "" and "SL", with "SL" meaning On |
| TypedStep.SlideDebug | src/step.rs:76-83 | Off is written as two spaces and On as `SL` |
| TypedStep.SlideTryFromU8 | src/step.rs:85-95 | succeeds exactly for 0 and 1, with the variant of that discriminant |
| TypedStep.TryFromInvertsCode | src/step.rs:47-95 | the accent and slide conversions give back the variant whose discriminant they receive |
| TypedStep.AccentDebugRoundTrip | src/step.rs:27-45 | the accent's `Debug` text, trimmed, parses back to it |
| TypedStep.SlideDebugRoundTrip | src/step.rs:65-83 | the slide's `Debug` text, trimmed, parses back to it |
| TypedStep.FromPatternStep | src/step.rs:6-13 | the typed step keeps note, transpose and time, with On exactly where the flag is set |
| TypedStep.ToPatternStep | src/step.rs:6-13 | turning a typed step into a flag step and back gives the typed step |
| TypedStep.SameInformation | src/step.rs:6-13 | the two step representations are in one-to-one correspondence |
| Base.BitThree | src/pattern.rs:57 | `(x & 0x8) >> 3`, written as division and remainder, is bit 3 of `x` |
| BinaryCodec.UpperC | src/pattern.rs:57-61 | the upper-C flag is 1 when the raw note is 0x30 and otherwise bit 3 of the step's first note byte |
| BinaryCodec.DecodeStep | src/pattern.rs:53-68 | the note is below 24; the step's note and transpose give the raw note back as `12 + note + 12 * transpose`; the note is at least 12 exactly when the upper-C flag is set (together these fix note and transpose); accent and slide are set exactly by a byte equal to 1; the time carries the step's tie and rest bits |
| BinaryCodec.Decode | src/pattern.rs:48-87 | triplet is set exactly by byte 0x66 equal to 1, and the active count is `(msg[0x67] << 4) + msg[0x68]` |
| BinaryCodec.DecodeCanLeaveTables | src/pattern.rs:56-64 | a payload the decoder accepts without overflow can give a step note 21 (`33 % 12 + 12`), so a decoded pattern need not be valid for the text tables |
| BinaryCodec.SysexToPattern | src/pattern.rs:48-87 | the decoding loop computes `Decode(msg)` for every payload on which the source does not overflow or index out of range |
| BinaryCodec.ValidEncodable | src/pattern.rs:255 | the composed note of every valid step fits in `u8` |
| Base.FlagValue | src/pattern.rs:258-259 | `b as u8` (and `b as usize` where a flag indexes its table) is 1 exactly for true and 0 otherwise |
| BinaryCodec.TieBits | src/pattern.rs:260 | one tie bit per step, each 0 or 1 |
| BinaryCodec.RestBits | src/pattern.rs:261 | one rest bit per step, each 0 or 1 |
| BinaryCodec.Mask16 | src/pattern.rs:249-261 | bit `n` of the mask is the bit of step `n` |
| BinaryCodec.Encode | src/pattern.rs:244-280 | the payload is 115 bytes long |
| BinaryCodec.PatternToSysex | src/pattern.rs:245-280 | the encoding loop and the appends compute `Encode(p, group, pnum, ab)` whenever no `u8` addition overflows |
| BinaryCodec.FillPair | src/pattern.rs:256-257 | writing entries `2i` and `2i+1` fills one more step of an array |
| BinaryCodec.FillOdd | src/pattern.rs:258-259 | writing entry `2i+1` alone fills one more step when entry `2i` stays zero |
| BinaryCodec.FilledAll | src/pattern.rs:251-265 | after sixteen iterations an array is complete |
| BinaryCodec.NoteIteration | src/pattern.rs:254-257 | one iteration writes the high and low nibble of the composed note of step `i` |
| BinaryCodec.FlagIteration | src/pattern.rs:258-259 | one iteration writes the accent and slide bytes of step `i` |
| BinaryCodec.MaskIteration | src/pattern.rs:260-261 | one iteration adds step `i`'s tie and rest bits at position `i`, staying within `u16` |
| BinaryCodec.EncodeHeader | src/pattern.rs:268-270 | bytes 0..4 are 0x78, the group, `pnum + (ab << 3)`, 0 and 1 |
| BinaryCodec.EncodeTail | src/pattern.rs:274-276 | bytes 101..106 are 0, the triplet flag, the high and low nibble of the active count, 0 and 0 |
| BinaryCodec.EncodeNoteBlock | src/pattern.rs:271 | the note array occupies bytes 5..36 |
| BinaryCodec.EncodeAccentBlock | src/pattern.rs:272 | the accent array occupies bytes 37..68 |
| BinaryCodec.EncodeSlideBlock | src/pattern.rs:273 | the slide array occupies bytes 69..100 |
| BinaryCodec.EncodeMaskBytes | src/pattern.rs:277-278 | the split tie mask occupies bytes 0x6B..0x6E and the rest mask 0x6F..0x72 |
| BinaryCodec.BlocksAt | src/pattern.rs:256-259 | entries `2i` and `2i+1` of the three arrays are the note nibbles, a zero and the flag |
| BinaryCodec.EncodedStepBytes | src/pattern.rs:256-259 | the payload bytes the decoder reads for step `n` hold that step's note nibbles, accent and slide |
| BinaryCodec.NotePairDecodes | src/pattern.rs:55-64 | the nibble pair of a valid step decodes without overflow or underflow to that step's note and transpose |
| BinaryCodec.ActiveNibbles | src/pattern.rs:86 | the two nibbles of the active count add back up to it |
| BinaryCodec.EncodedMasks | src/pattern.rs:49-50 | the decoder reads back the tie and rest masks the encoder accumulated, without overflow |
| BinaryCodec.EncodedDecodable | src/pattern.rs:48-87 | every payload encoded from a valid pattern is one the decoder accepts without overflow |
| BinaryCodec.DecodedEncodedStep | src/pattern.rs:53-68 | each step of an encoded valid pattern decodes to itself |
| BinaryCodec.DecodeEncode | src/pattern.rs:48-87 | decoding the encoding of a valid pattern gives the pattern back, for any group and for every address whose `pnum + (ab << 3)` fits in a byte |
| TextFormat.Label | src/pattern.rs:92-96 | every field label is 11 characters and starts with a non-space |
| TextFormat.Legend | src/pattern.rs:124-128 | every legend starts with a comment marker |
| TextFormat.Pad2 | src/pattern.rs:117-121 | `{:2}` pads a token with spaces to at least two characters and keeps it as its prefix |
| TextFormat.TwoDigits | src/pattern.rs:116 | `{:02?}` writes at least two decimal digits |
| TextFormat.RowPush | src/pattern.rs:112-121 | appending the separator, a space and the next item extends a row by one cell |
| TextFormat.TimeToken | src/pattern.rs:121 | the time token, padded, is its `Debug` text, and `Time::from_str` reads it back |
| TextFormat.TablesWellFormed | src/pattern.rs:98-101 | the note, transpose, accent and slide tables hold short comma-free tokens, each listed once |
| TextFormat.RowSplit | src/pattern.rs:172-173 | splitting a rendered row at commas gives its cells back |
| TextFormat.RowSplitTrimmed | src/pattern.rs:173 | the same holds after the line's trailing whitespace is trimmed |
| TextRender.Tokens | src/pattern.rs:117-121 | one token per step for each field |
| TextRender.Rows | src/pattern.rs:104-122 | the loop builds the step-number row and the five field rows of all sixteen steps |
| TextRender.PushStep | src/pattern.rs:112-121 | one iteration appends step `i`'s cell to all six rows |
| TextRender.PatternToString | src/pattern.rs:103-149 | the text built line by line is `Render(p)`: title, metadata, blank line, step line, five field lines with legends and the footer |
| TextRender.Legends | src/pattern.rs:124-128 | the legend comments appended to the field rows are the legends of the five fields |
| TextParse.Significant | src/pattern.rs:154-157 | a line with its comment cut off and trimmed has no surrounding whitespace and no `//` left |
| TextParse.BeforeCommentFirst | src/pattern.rs:154-156 | the code part of a line is its longest prefix free of `//`: it stops exactly where the first `//` starts, or takes the whole line |
| TextParse.SignificantIsTrimmedCode | src/pattern.rs:154-157 | the significant text of a line is the trimmed text before its first `//` |
| TextParse.FirstKept | src/pattern.rs:153-161 | the search for the next kept line stays within the lines and stops only at a kept line |
| TextParse.NextSignificant | src/pattern.rs:151-163 | `next_nonempty_line` gives the first significant line and the lines after it, or "" with nothing left |
| TextParse.NextSignificantAt | src/pattern.rs:151-163 | when line `n` is the first non-blank line, `next_nonempty_line` returns it and the lines after it |
| TextParse.Lines.constructor | src/pattern.rs:183 | `lines()` yields the lines of the text |
| TextParse.Lines.Next | src/pattern.rs:153 | `next()` yields the first line left and drops it, or nothing at the end |
| TextParse.NextNonemptyLine | src/pattern.rs:151-163 | the loop returns what `NextSignificant` gives and leaves exactly the lines after it |
| TextParse.Entries | src/pattern.rs:169-178 | a line without the label is `MissingLabel`; one whose rest does not split into sixteen is `WrongCount` with the count found; otherwise sixteen trimmed, comma-free entries |
| TextParse.EntriesArePieces | src/pattern.rs:172-173 | entry `j` of a line read is the trimmed `j`-th comma-separated piece of the text after the label |
| Strings.SplitJoin | src/pattern.rs:173 | joining the pieces of `split(",")` with commas gives the text back, so no character is lost or reordered |
| TextParse.SplitEntries | src/pattern.rs:167-179 | reads the next significant line and returns its entries as `Entries` states |
| TextParse.ScanMetadata | src/pattern.rs:191 | the labels scanned up to their colons contain no colon, and a scanned line is exactly `<label>: <digits>, <label>: <value>` with the digits giving the active count |
| TextParse.ReadMetadata | src/pattern.rs:190-200 | succeeds exactly when the line scans and its labels are `Active Steps` and `Triplet Time`, with the scanned count and the triplet set only by `On`; otherwise `BadMetadata` with the line read |
| TextParse.Position | src/pattern.rs:209-224 | a found position indexes the table |
| TextParse.PositionFinds | src/pattern.rs:209-224 | `position` finds a token exactly when it is in the table |
| TextParse.PositionHolds | src/pattern.rs:209-224 | the position found is the first entry equal to the token |
| TextParse.Rank | src/pattern.rs:201-205 | the five fields are read in five places |
| TextParse.ParseStep | src/pattern.rs:207-228 | a step read from entries is valid; a failure is `WrongToken` at that step |
| TextParse.ParseStepAccepted | src/pattern.rs:207-228 | a step reads exactly when each of its five entries is in its field's table |
| TextParse.ParseStepEntries | src/pattern.rs:209-228 | each value of the step read, looked up in its field's table, gives back the entry it was read from |
| TextParse.ParseStepReportsEntry | src/pattern.rs:211-227 | the error names the field and carries the entry it rejected |
| TextParse.ParseStepRejected | src/pattern.rs:211-227 | the rejected entry is not in its field's table |
| TextParse.ParseStepRejectedFirst | src/pattern.rs:209-228 | the field reported is the first of note, transpose, accent, slide, time whose entry is rejected |
| TextParse.FirstBadStep | src/pattern.rs:206-229 | the first step that fails, all those before it reading |
| TextParse.ParseSteps | src/pattern.rs:206-229 | succeeds exactly when all sixteen steps read, giving those valid steps; otherwise the error of the first failing step |
| TextParse.Parse | src/pattern.rs:181-231 | every pattern read from text is valid |
| TextParse.StringToPattern | src/pattern.rs:181-231 | the imperative parser over a line cursor returns `Parse(text)` |
| TextParse.ReadFieldLines | src/pattern.rs:201-205 | the five `split_entries` calls with `?` return `ReadColumns` of the lines left |
| TextParse.FillSteps | src/pattern.rs:206-230 | the step loop returns the first step error, or the pattern with all sixteen steps replaced |
| TextRoundTrip.FieldLineEntries | src/pattern.rs:167-179 | a rendered field line splits back into the tokens of its field |
| TextRoundTrip.MetaLineReads | src/pattern.rs:190-200 | the rendered metadata line reads back as the active count and the triplet flag |
| TextRoundTrip.RenderedLines | src/pattern.rs:130-146 | splitting the rendered text into lines gives back the lines rendered |
| TextRoundTrip.ParseStepsRendered | src/pattern.rs:206-229 | the rendered tokens read back to the pattern's steps |
| TextRoundTrip.ReadRenderedColumns | src/pattern.rs:201-205 | the five field lines of a rendered pattern read back as its columns |
| TextRoundTrip.ParseRendered | src/pattern.rs:181-231 | parsing the text rendered from a valid pattern gives that pattern back |
| TextErrors.ReadColumnsFirstError | src/pattern.rs:201-205 | a field-line error is `MissingLabel` or `WrongCount` of the first field line that fails, every earlier field having read |
| TextErrors.ReadColumnsOk | src/pattern.rs:201-205 | the five field lines read exactly when each does, and the columns are what each gave |
| TextErrors.ParseErrorOrder | src/pattern.rs:181-231 | a failure is `BadTitle` exactly when the first significant line is not the title; `BadMetadata` carries the metadata line; field-line errors come only after good metadata; `WrongToken` only after all five field lines read |
| TextErrors.ParseOkStages | src/pattern.rs:181-231 | a parsed pattern had the title, metadata giving its count and triplet flag, and field lines giving its steps |
| TextParse.Message | src/pattern.rs:167-231 | the messages of the title, metadata and label errors start with `Expecting` and end with the line read; a count error ends with the count found; a token error ends with the rejected token |
| TextErrors.BlankTextRejected | src/pattern.rs:185-188 | a text of only blank and comment lines fails with `BadTitle("")` |

## Left out

- The binary decoder indexes the slice and adds `u8`/`u16` values that panic on overflow in a debug build and wrap in a release build. The model follows the debug build: `BinaryCodec.Decodable`, `BinaryCodec.Encodable` and `BinaryCodec.AddressFits` state that no sum overflows and no index is out of range. The release-build wrap-around is not modelled.
- The decoder keeps `transpose` as a raw `u8` (`raw / 12 - 1 - upperC`) and does not check it against the three transpose values. The model follows the code: a payload giving a transpose above 2 decodes, and one that would underflow is excluded by `Decodable`.
- `scan_fmt!` on the metadata line is modelled by a scanner for the one format used, `<label>: <digits>, <label>: <value>`. It does not model `scan_fmt`'s general whitespace handling or its other formats.
- TextParse.ScanMetadata: the triplet value is the whole text after `Triplet Time: `. `scan_fmt`'s final `{}` stops at whitespace, so a line ending in `On x` sets the triplet flag in the source but not in the model.
- Text is a sequence of Unicode scalar values, and trimming uses the Unicode White_Space set. Byte lengths and byte-indexed slicing of UTF-8 are not modelled.
- `Time` of `src/step.rs` is textually the same enum as `src/time.rs` and is modelled once, by `TimeTable`.
- The debug `println!` traces in both binary loops are left out.
- The SysEx framing, MIDI I/O, the command line and the configuration file (`src/main.rs`, `src/midicomm.rs`, `src/config.rs`) are not part of this model.
- Errors are the structured `TextParse.ParseError`. `TextParse.Message` gives its text, but the `Box<dyn Error>` type is not modelled.
- TextRender.PatternToString: requires a valid pattern, because the source indexes `NOTE[s.note]` and `TRANSPOSE[s.transpose]` and panics outside the tables. A pattern decoded from a payload can have a note up to 23 or a transpose above 2 (`BinaryCodec.DecodeCanLeaveTables` gives one with note 21), and rendering such a pattern crashes the source. The model does not describe that crash.
- TextRender.PatternToString: the output is proved equal to the rendering function and parsed back. No property of the footer or legend texts is stated beyond what the parser needs.
- `std::str::Lines` is modelled as the class `TextParse.Lines` holding the sequence of lines not yet read. It does not model lazy iteration over the borrowed string.
