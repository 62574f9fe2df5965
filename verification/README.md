# morsesrc in Dafny

A model of the core of the `morsesrc` GStreamer element (`src/gstmorsesrc.c`),
a push source that keys a text as International Morse code audio. The
element works in four steps, and the model covers each one:

- **Encoding.** It turns the text into a keying string over `' '`, `'.'` and
  `'-'` with a packed table and `morse_send_char`/`morse_send_string`
  (modules `MorseTable`, `MorseEncoder`). The table is checked against the
  International Morse code alphabet of ITU-R M.1677-1, Part I, section 1
  (module `MorseAlphabet`).
- **Timing.** At caps negotiation it derives how many frames a dot, a dash
  and a space last (module `Timing`). It also selects the sample generator
  for the negotiated format (module `Formats`).
- **Buffers.** On every `create` call it walks the keying string from a
  cursor and fills one buffer of at most 52920 frames, stamping it with a
  presentation time and a duration (module `MorseSource`). The samples are
  written by the `CW_GENERATOR` loops into a cleared, interleaved buffer
  (module `ToneRender`).
- **Lifecycle.** `start` rebuilds the keying string and resets the cursor
  and clock. `stop` discards the string.

Each buffer is described by its segments: one run of frames per keying
symbol consumed, a tone for `.` and `-`, silence for `' '`.
`ToneRender.RenderBuffer` turns segments into samples. The tone itself is
a parameter `tone(t)`, the sample `t` frames into a tone.

Behaviours of the code that the model keeps, although they may surprise:

- A character the table has no pattern for is keyed as eight dots, not
  dropped.
- Line feed and carriage return are keyed `.-.-`, not dropped.
- Gaps are one space between elements, two between letters and four
  around an input space, each space lasting one dot; they are not the
  1, 3 and 7 dot units of section 2 of ITU-R M.1677-1.
- Empty text keys `"   "`. So the first `create` after `start` returns a
  buffer of silence, not end-of-stream.
- A symbol cut at the end of a buffer is passed over, not resumed in the
  next buffer. So the buffers of a run add up to less than the keying's
  nominal duration whenever a cut happens (see Findings).
- `-`, `)` and `@` have zero entries, so they key as eight dots, although
  the standard gives them patterns. `!` and `;` have entries although the
  standard defines no sign for them.

## Model

| member | source | states |
|---|---|---|
| MorseTable.TableShape | src/gstmorsesrc.c:55-72 | the table has 128 entries, 16 rows of 8 |
| MorseTable.TableBounded | src/gstmorsesrc.c:55-72 | every table entry is below `01000`, so it packs into a three-bit count and a six-bit pattern |
| MorseTable.Entry | src/gstmorsesrc.c:201 | the entry looked up for a byte is a nine-bit value: three bits of count above six bits of pattern |
| MorseTable.EntryMasked | src/gstmorsesrc.c:201 | the lookup `morse_table[ch & 0x7f]` gives codes 128 apart the same entry |
| MorseTable.ElementCount | src/gstmorsesrc.c:202-203 | an entry's element count is between 1 and 8 and agrees with bits 6 to 8 modulo eight, so a zero count is read as eight |
| MorseTable.PatternBits | src/gstmorsesrc.c:204 | `bitreg & 077` keeps six pattern bits |
| MorseTable.ShiftBit | src/gstmorsesrc.c:216 | `bitreg >>= 1` moves pattern bit `k + 1` to bit `k` |
| MorseEncoder.ToUpper | src/gstmorsesrc.c:226 | `toupper` in the C locale: `a` to `z` move down by 32 to the capitals, every other byte is unchanged |
| MorseEncoder.Keying | src/gstmorsesrc.c:205-217 | the element loop writes two symbols per element |
| MorseEncoder.KeyingIsKeyingString | src/gstmorsesrc.c:205-217 | the element loop writes only spaces, dots and dashes |
| MorseEncoder.KeyingElements | src/gstmorsesrc.c:205-217 | the element loop writes, for element `k`, a space at `2k` and at `2k+1` a dash exactly when bit `k` of the pattern is set, least significant bit first |
| MorseEncoder.EncodeChar | src/gstmorsesrc.c:190-219 | a space keys to exactly two spaces; any other byte keys to at least three symbols, opening with a space and a tone and closing with a tone and a space |
| MorseEncoder.CharIsKeying | src/gstmorsesrc.c:190-219 | one character keys to symbols over `' '`, `.` and `-` only |
| MorseEncoder.CharShape | src/gstmorsesrc.c:201-218 | a non-space byte with `n` elements keys to exactly `2n+1` symbols: a space before each element, element `k` a dash exactly when pattern bit `k` is set, one trailing space |
| MorseEncoder.EncodeChars | src/gstmorsesrc.c:224-228 | the keying of the characters is at least two symbols per character |
| MorseEncoder.CharsAreKeying | src/gstmorsesrc.c:224-228 | the keying of the characters contains only keying symbols |
| MorseEncoder.EncodeText | src/gstmorsesrc.c:221-230 | the keying of a text ends in the three-space gap; empty text keys to exactly `"   "` |
| MorseEncoder.TextIsKeying | src/gstmorsesrc.c:221-230 | the keying of any text contains only keying symbols |
| MorseEncoder.EncodeCharsAppend | src/gstmorsesrc.c:224-228 | keying a concatenation is the concatenation of the keyings: characters are keyed independently, left to right |
| MorseEncoder.PrefixStep | src/gstmorsesrc.c:224-228 | the keying of the first `k + 1` characters is the keying of the first `k` followed by that of `toupper` of character `k` |
| MorseEncoder.SplitAt | src/gstmorsesrc.c:224-228 | the keying of a text is the keying up to and including character `k` followed by the keying of the rest |
| MorseEncoder.CaseInsensitive | src/gstmorsesrc.c:226 | two texts that agree after `toupper` key identically, so upper and lower case letters key the same |
| MorseEncoder.CharsCaseInsensitive | src/gstmorsesrc.c:224-228 | the character loop keys two texts that agree after `toupper` identically |
| MorseEncoder.UpperKeepsSpace | src/gstmorsesrc.c:195-199 | `toupper` yields a space exactly for a space, so the space branch sees the same bytes before and after upper-casing |
| MorseEncoder.KeyingUpTo | src/gstmorsesrc.c:205-218 | the keying up to and including a non-space character ends with a tone and then one space |
| MorseEncoder.Boundary | src/gstmorsesrc.c:218-229 | the keying of a text is the keying up to a non-space character, which ends with a tone and one space, then the keying of the rest, then the closing gap |
| MorseEncoder.LetterStart | src/gstmorsesrc.c:205-212 | the keying of a text that starts with a non-space character opens with a space and a tone |
| MorseEncoder.SpaceThenLetter | src/gstmorsesrc.c:195-212 | the keying of a text that starts with a space and then a non-space character opens with three spaces and a tone |
| MorseEncoder.LetterGap | src/gstmorsesrc.c:205-218 | between the last tone of a letter and the first tone of the next letter there are exactly two spaces |
| MorseEncoder.WordGap | src/gstmorsesrc.c:195-218 | between letters on either side of one input space there are exactly four spaces |
| MorseAlphabet.SpellsBits | src/gstmorsesrc.c:205-216 | a dot/dash string spells an entry exactly when it has the entry's element count and element `k` is a dash just when pattern bit `k` is set |
| MorseAlphabet.Keyed | src/gstmorsesrc.c:205-218 | keying a dot/dash string writes two symbols per element and one trailing space |
| MorseAlphabet.SpellsKeying | src/gstmorsesrc.c:205-218 | the element loop over an entry that spells a pattern, plus the trailing space, is the pattern keyed with a space before each element |
| MorseAlphabet.SendsKeying | src/gstmorsesrc.c:201-218 | a character whose entry spells a dot/dash pattern keys as that pattern with a space before each element and one after |
| MorseAlphabet.UnknownSendsEightDots | src/gstmorsesrc.c:201-203 | a zero entry sends eight dots, not nothing |
| MorseAlphabet.LineEndsMatchTable | src/gstmorsesrc.c:57 | line feed and carriage return both send `.-.-` |
| MorseAlphabet.LettersAToGMatchItu | src/gstmorsesrc.c:64 | `A` to `G` send their patterns of the international alphabet |
| MorseAlphabet.LettersHToOMatchItu | src/gstmorsesrc.c:65 | `H` to `O` send their patterns of the international alphabet |
| MorseAlphabet.LettersPToWMatchItu | src/gstmorsesrc.c:66 | `P` to `W` send their patterns of the international alphabet |
| MorseAlphabet.LettersXToZMatchItu | src/gstmorsesrc.c:67 | `X` to `Z` send their patterns of the international alphabet |
| MorseAlphabet.FiguresZeroToFourMatchItu | src/gstmorsesrc.c:62 | the figures `0` to `4` send their patterns of the international alphabet |
| MorseAlphabet.FiguresFiveToNineMatchItu | src/gstmorsesrc.c:62-63 | the figures `5` to `9` send their patterns of the international alphabet |
| MorseAlphabet.QuotesAndBracketMatchItu | src/gstmorsesrc.c:60-61 | inverted commas, `&`, apostrophe and `(` send the standard's patterns |
| MorseAlphabet.CrossAndCommaMatchItu | src/gstmorsesrc.c:61 | `+` and comma send the standard's patterns |
| MorseAlphabet.StopsAndQueryMatchItu | src/gstmorsesrc.c:61-63 | full stop, `/`, `:`, `=` and `?` send the standard's patterns |
| MorseAlphabet.ExtraSigns | src/gstmorsesrc.c:60-63 | `!` sends `-.-.--` and `;` sends `-.-.-.` |
| MorseAlphabet.SignsMissingFromTable | src/gstmorsesrc.c:61-64 | hyphen, `)` and `@` have zero entries and send eight dots |
| MorseAlphabet.OtherBytes | src/gstmorsesrc.c:201-203 | `[` sends eight dots; byte 200 is looked up as `200 & 0x7f`, so it sends as `H` |
| MorseAlphabet.SosKeying | src/gstmorsesrc.c:221-230 | "SOS" keys as `...`, `---`, `...`, each with its element spaces, then the closing three spaces |
| MorseAlphabet.TKeying | src/gstmorsesrc.c:221-230 | "T" keys as `" -    "`: the element space, the dash, the character's space and the closing three |
| MorseAlphabet.LowerSosKeying | src/gstmorsesrc.c:226 | "sos" keys exactly as "SOS" |
| Timing.Derive | src/gstmorsesrc.c:426-428 | the dot lasts `rate * 60 / (wpm * 50)` frames rounded down (the largest count whose `wpm * 50` multiple fits in `rate * 60`); a dash lasts three dots and a space one |
| Timing.DefaultDurations | src/gstmorsesrc.c:426-428 | at 44100 Hz and 20 words per minute a dot and a space last 2646 frames and a dash 7938 |
| Timing.SlowestDurations | src/gstmorsesrc.c:426-428 | at 44100 Hz and 1 word per minute a dot lasts 52920 frames, a whole buffer |
| Formats.SelectGenerator | src/gstmorsesrc.c:436-466 | a native format gets the generator of that format and no pack step; any other format gets the 32-bit integer or 64-bit float generator of its unpack format, a pack step, and that generator's sample size; other unpack formats are excluded as the unreachable case |
| MorseSource.Init | src/gstmorsesrc.c:527-531 | the initial stream state is a valid one |
| MorseSource.SymbolFrames | src/gstmorsesrc.c:279-292 | with the derived 1:3:1 durations a dash lasts three dots, a dot and a space one, and any other byte nothing |
| MorseSource.Padding | src/gstmorsesrc.c:300-303 | the padding is zero for a symbol at least a space long; when it applies it tops the symbol up to exactly one space and stays inside the buffer |
| MorseSource.FillBuffer | src/gstmorsesrc.c:276-306 | the fill loop stops at a full buffer or the end of the timeline, never writes more than 52920 frames, consumes one symbol per segment, and always consumes a symbol when there is room and one is left |
| MorseSource.Scale | src/gstmorsesrc.c:332-333 | the duration is `frames * 10^9 / rate` rounded down |
| MorseSource.Create | src/gstmorsesrc.c:251-339 | end-of-stream exactly when there is no timeline or the cursor is at its end, and then nothing changes; otherwise the cursor moves forward, the buffer holds at most 52920 frames, is stamped with the running time, lasts its frames at the rate rounded down, and the running time advances by that duration |
| MorseSource.Start | src/gstmorsesrc.c:341-365 | `start` sets the timeline to the keying of the text, a valid one of at least three symbols, with cursor and running time at zero |
| MorseSource.StartForgets | src/gstmorsesrc.c:346-355 | `start` gives the same state whatever state it is called in |
| MorseSource.Stop | src/gstmorsesrc.c:367-379 | `stop` leaves no timeline |
| MorseSource.PaddingNeverApplies | src/gstmorsesrc.c:301-303 | with the derived 1:3:1 durations the padding branch adds no frames |
| MorseSource.FillTiles | src/gstmorsesrc.c:276-306 | the fill loop lays its segments end to end from its first frame to the frame it stopped at |
| MorseSource.FillPlays | src/gstmorsesrc.c:276-306 | segment `k` of the fill loop plays symbol `k` from the cursor: it starts inside the buffer (no symbol is consumed once the buffer is full), is a tone exactly for a dot or dash, and lasts the symbol's duration unless the buffer end cuts it |
| MorseSource.FillCutsOnlyLast | src/gstmorsesrc.c:294-305 | every segment of the fill loop but the last lasts its symbol's full duration |
| MorseSource.CreateTiles | src/gstmorsesrc.c:276-328 | a returned buffer's segments lie end to end from frame 0 to its last frame, and the buffer is full unless the timeline ran out |
| MorseSource.CreatePlays | src/gstmorsesrc.c:276-328 | segment `k` of a returned buffer plays symbol `k` from the cursor |
| MorseSource.CreateCutsOnlyLast | src/gstmorsesrc.c:294-305 | in a returned buffer only the last symbol can be cut short |
| MorseSource.CreateKeepsValid | src/gstmorsesrc.c:256-305 | `create` keeps the cursor within the timeline |
| MorseSource.StopThenEos | src/gstmorsesrc.c:372-376 | after `stop`, `create` returns end-of-stream and changes nothing |
| MorseSource.InitThenEos | src/gstmorsesrc.c:527-531 | before `start`, `create` returns end-of-stream |
| MorseSource.StartThenBuffer | src/gstmorsesrc.c:351-355 | after `start` the first `create` returns a buffer stamped at time zero, for any text and any earlier state |
| MorseSource.ThreeSpacesFill | src/gstmorsesrc.c:276-306 | the keying `"   "` fills three silent segments of one space each, back to back from frame 0 |
| MorseSource.EmptyTextGivesSilence | src/gstmorsesrc.c:229 | with empty text the first buffer is three silent segments of one space each and only the second `create` ends the stream |
| MorseSource.TilesTotal | src/gstmorsesrc.c:299 | segments laid end to end cover exactly the frames the loop counted |
| MorseSource.Lengths | src/gstmorsesrc.c:299 | the frames each segment adds to the count, in order |
| MorseSource.RunAccounting | src/gstmorsesrc.c:276-306 | over all buffers until end-of-stream every remaining symbol is played exactly once, for at most its duration, and the buffers hold exactly those frames |
| MorseSource.SumBelowSpan | src/gstmorsesrc.c:283-298 | the symbols' played lengths add up to at most their nominal durations, and to exactly those when no length falls short |
| MorseSource.RunNeverExceedsTimeline | src/gstmorsesrc.c:294-305 | the frames of a whole run are at most the timeline's nominal duration, and equal it exactly when no symbol was cut short |
| MorseSource.CutFills | src/gstmorsesrc.c:276-306 | at one dot per buffer the keying of "T" fills a buffer with the first space and then a buffer with the first 52920 frames of the dash, moving past it |
| MorseSource.DashCutAtOneWpm | src/gstmorsesrc.c:294-305 | text "T" at 44100 Hz and 1 word per minute: the second buffer holds one third of the dash, and the cursor then moves past it |
| MorseResume.FillResuming | src/gstmorsesrc.c:276-306 | the fill loop with resumption writes exactly the unplayed frames of the symbols it passes plus the part of the symbol it stops in, and always makes progress |
| MorseResume.CreateResuming | src/gstmorsesrc.c:251-339 | `create` with resumption: end-of-stream as in `create`; otherwise the buffer holds at most 52920 frames, exactly the timeline frames between the old and the new cursor, is stamped with the running time, lasts its frames at the rate rounded down, and the running time advances by that duration |
| MorseResume.StartResuming | src/gstmorsesrc.c:341-365 | the resuming `start` sets a fresh timeline with nothing of it played |
| MorseResume.RunPlaysRestOfTimeline | src/gstmorsesrc.c:276-306 | with resumption a run plays every remaining frame of the timeline |
| MorseResume.RunPlaysWholeTimeline | src/gstmorsesrc.c:276-306 | with resumption the buffers after `start` add up to the whole keying's nominal duration |
| MorseResume.ResumedFills | src/gstmorsesrc.c:276-306 | with resumption the keying of "T" at one dot per buffer fills the first space, then the dash in three buffers of 52920 frames, and then passes to the next symbol |
| MorseResume.DashResumedAtOneWpm | src/gstmorsesrc.c:294-305 | with resumption the 158760-frame dash of "T" at 1 word per minute is played over three full buffers, and only after the third does the cursor pass it |
| ToneRender.WriteFrame | src/gstmorsesrc.c:239-243 | the inner loop writes the same sample to every channel of one frame and nothing else |
| ToneRender.WriteTone | src/gstmorsesrc.c:232-249 | `CW_GENERATOR` writes sample `tone(f - start)` on every channel of frames `[start, start + n)`, at index `f * channels + j`, the phase restarting at the symbol's first frame, and changes nothing else |
| ToneRender.RenderBuffer | src/gstmorsesrc.c:268-328 | the buffer holds `frames * channels` samples; each is the tone of the last tone segment covering its frame, else the silence the buffer was cleared to |
| ToneRender.TilesOrdered | src/gstmorsesrc.c:276-306 | segments laid end to end by the fill loop do not overlap and come in order |
| ToneRender.TilesEnd | src/gstmorsesrc.c:276-306 | every segment laid end to end ends within the frames the loop counted |
| ToneRender.UncoveredIsSilent | src/gstmorsesrc.c:274 | a frame no segment covers keeps the silence the buffer was cleared to |
| ToneRender.SampleInSegment | src/gstmorsesrc.c:296-297 | in non-overlapping segments a frame of a tone segment carries that segment's tone and a frame of a gap is silent |
| ToneRender.BufferSoundsSymbols | src/gstmorsesrc.c:274-297 | every frame of a returned buffer sounds its symbol: the tone counted from the symbol's start for a dot or dash, silence for a space |

## Left out

- The tone samples themselves: `sin`, the volume, the frequency and the full-scale constants are floating point; `tone(t)` is a parameter.
- GObject properties, the pad template, `class_init`, `plugin_init` and the parts of `init` that set the frequency, volume and wpm: framework boilerplate.
- `gst_morse_src_fixate`, `gst_audio_info_from_caps` and the invalid-caps path of `setcaps`: caps negotiation belongs to GStreamer.
- Buffer allocation, mapping and sizing are modelled as sequences of samples; bytes per frame and the `pack_func` conversion (`src/gstmorsesrc.c:308-324`) are foreign calls. `Formats` says only when packing happens and which generator feeds it.
- The segment event `start` sends (`src/gstmorsesrc.c:357-362`): it goes to the base class.
- The NULL-text dereference in `morse_send_string`: the text is modelled as a sequence of non-NUL bytes.
- C integer widths: `wpm * 50` and `rate * 60` in `gint`, the `guint` sample counts and cursor, the 64-bit timestamp and the `gint` loop counters of `CW_GENERATOR` are unbounded here. `Derive` requires `wpm >= 1` and `Create` requires `rate >= 1`, as the property and caps ranges guarantee.
- `toupper` for bytes above 127 in a non-C locale: the C locale is modelled.
- ToneRender.WriteTone: requires at least one channel, which the pad template's channel range guarantees.
- MorseSource.EmptyTextGivesSilence: states the case where three spaces fit in one buffer (`3 * dot <= 52920`), which holds for every rate up to 44100 Hz at 3 words per minute or more.
- MorseResume.FillResuming: the corrected loop drops the padding branch, which never adds frames with the derived durations, and its segments do not carry the tone phase of a resumed symbol.

## Findings

| source | as written | input that shows it | evidently intended | confidence | as-written member | corrected member |
|---|---|---|---|---|---|---|
| src/gstmorsesrc.c:294-305 | a symbol longer than the room left in the buffer is cut to fit and the cursor moves past it, so the rest of it is never played | text "T" at 44100 Hz and 1 word per minute: a dot fills the 52920-frame buffer, the second buffer holds 52920 frames of a 158760-frame dash, and the third starts after the dash | the next buffer resumes the cut symbol, so the buffers of a run add up to the keying's nominal duration with nothing dropped at buffer boundaries | medium, not executed | MorseSource.DashCutAtOneWpm | MorseResume.RunPlaysWholeTimeline |

`MorseSource` stays the model of `create` as written, since that is the
element's behaviour. `MorseSource.RunNeverExceedsTimeline` bounds what it
loses: the run falls short exactly when a symbol is cut. `MorseResume` is
the corrected step, with the frames already played of the current symbol
kept in the state. At 44100 Hz and the default 20 words per minute a buffer holds
exactly twenty dots, so any dash that starts in the last two dot-lengths of
a buffer is cut.
