# Whisper transcription server: request handling and output formats

This project models a small HTTP server that puts a speech-recognition model
behind an OpenAI-style endpoint, `POST /v1/audio/transcriptions`. The model
covers everything the handler decides for itself:

- the checks on a request, in their order: model name, then `file` part,
  then file name, then "no speech", then response format;
- the arguments it passes to the recognition capability, and the fact that
  the capability is called only after the first three checks pass;
- the five ways it renders the recognised segments: `json`, `text`, `srt`,
  `vtt` and `verbose_json`;
- `format_timestamp`, which writes the `HH:MM:SS.mmm` times of the subtitle
  formats.

The recognition capability is a function parameter of the handler, from the
call arguments to a segment list (or none) and a duration. A handler result
records the response and the one call made, if any.

Modules:

- `Decimal`: Python's `str(n)` for non-negative integers and `'{n:0Wd}'`
  zero padding, each with a digit-value reading that undoes it.
- `PyText`: the Python string operations the handler uses, `str.isspace`,
  `str.strip()`, `' '.join` and repeated `+=`. It also holds three readers
  the handler never calls: `str.split(' ')` and taking the first line of a
  string (and what follows it). They exist only to state properties of the
  join and of the cue lines as round trips.
- `Timestamp`: `format_timestamp` on whole milliseconds, and a reader for
  the form it writes.
- `Transcript`: the segment record the capability returns.
- `Render`: the five renderers. The `srt` and `vtt` renderers are each an
  imperative method with the loop of the source, proved equal to a
  functional document definition. The `srt` body has SubRip's cue layout,
  but its times are written `HH:MM:SS.mmm` with a full stop, as
  `format_timestamp` writes them. SubRip itself puts a comma before the
  milliseconds.
- `Handler`: the request, the response, the handler itself as a function
  (`Handle`), and as a method with the source's early returns
  (`Transcribe`).

The `text` format returns a bare string, so the framework sends it with its
default content type, `text/html; charset=utf-8`. It is not `text/plain`,
which is what one might expect from the format's name. The model follows the
code (`ContentType.TextHtml`).

## Model

| member | source | states |
|---|---|---|
| Decimal.NatToString | api_server.py:112 | `str(n)`: a non-empty string of decimal digits, without a leading zero unless it is `0`, whose digit value is `n`; one character exactly when `n < 10` |
| Decimal.NatToStringLength | api_server.py:112 | a number below `10^k` takes at most `k` digits |
| Decimal.ZeroPad | api_server.py:60 | `'{n:0Wd}'`: all digits, value `n`, length the larger of `W` and the unpadded length, and no change when the number is already that wide |
| Decimal.ZeroPadExactWidth | api_server.py:60 | a number below `10^W` is padded to exactly `W` digits |
| PyText.IsSpace | api_server.py:104 | definition: the characters Python's `str.isspace` accepts, namely tab to carriage return, the separators 0x1C-0x1F, space, 0x85, 0xA0, 0x1680, 0x2000-0x200A, 0x2028, 0x2029, 0x202F, 0x205F and 0x3000 |
| PyText.SkipSpaces | api_server.py:104 | the `lstrip()` scan: everything skipped is white space and it stops at the end or at a character that is not |
| PyText.BackOverSpaces | api_server.py:104 | the `rstrip()` scan: everything passed over is white space and it stops at its lower bound or after a character that is not |
| PyText.Strip | api_server.py:104 | `strip()`: the slice of the input between its leading and its trailing white space; neither end of the result is white space |
| PyText.StripFixedPoint | api_server.py:104 | a string is its own strip exactly when it is empty or has no white space at either end |
| PyText.StripIdempotent | api_server.py:104 | stripping twice is stripping once |
| PyText.JoinWithSpace | api_server.py:104 | `' '.join`: empty for no parts, otherwise the parts' lengths plus one per gap |
| PyText.JoinWithSpacePlacement | api_server.py:104 | every part appears in `' '.join(parts)` at the offset of the earlier parts' lengths plus one space each, followed by a space unless it is last |
| PyText.SplitOnSpace | api_server.py:104 | a reader, not used by the handler, for stating properties of the join: Python's `split(' ')`, with at least one piece and no piece holding a space |
| PyText.SplitOnSpaceJoin | api_server.py:104 | the reader `split(' ')` undoes `' '.join` for a non-empty list of space-free parts |
| PyText.Concat | api_server.py:110-114 | `out += piece` per piece: the length is the sum of the pieces' lengths |
| PyText.ConcatSnoc | api_server.py:112-114 | one more `+=` appends exactly that piece |
| PyText.ConcatAppend | api_server.py:110-114 | accumulating two runs one after the other concatenates their results |
| PyText.FirstLineOf | api_server.py:112-114 | the first-line readers, not used by the handler, for stating the cue layout: a break-free line, a break and a rest split back into the line and the rest |
| Timestamp.Decompose | api_server.py:58-59 | the two `divmod(_, 60)` steps: minutes and seconds below 60, milliseconds below 1000, hours unbounded; the parts add back up to `t` |
| Timestamp.DecomposeFields | api_server.py:58-59 | hours are `t / 3600000`, minutes `t / 60000 % 60`, seconds `t / 1000 % 60`, milliseconds `t % 1000` |
| Timestamp.FormatClock | api_server.py:60 | separators at their fixed places from the end, hours padded to at least two digits in front |
| Timestamp.FormatTimestamp | api_server.py:57-60 | `format_timestamp`: at least 12 characters, `':'` at 10 and 7 characters from the end and `'.'` at 4 |
| Timestamp.FormatTimestampFields | api_server.py:57-60 | the whole text: `t / 3600000` padded to two digits, `:`, `t / 60000 % 60` to two, `:`, `t / 1000 % 60` to two, `.`, `t % 1000` to three |
| Timestamp.FormatTimestampHours | api_server.py:59-60 | the text before the first `':'` is the whole hours padded to two digits, never cut to two |
| Timestamp.ParseAssembled | api_server.py:60 | four digit fields joined by `:` `:` `.` read back as those fields |
| Timestamp.ParseFormatTimestamp | api_server.py:57-60 | reading back a formatted time gives the original milliseconds |
| Timestamp.FormatTimestampInjective | api_server.py:57-60 | different times are written differently |
| Timestamp.FormatTimestampShape | api_server.py:57-60 | every formatted time has the `HH:MM:SS.mmm` shape |
| Timestamp.FormatTimestampOneWord | api_server.py:113 | a formatted time holds neither a space nor a line break, so the timing line splits into three words |
| Timestamp.ZeroPadSingleDigit | api_server.py:60 | a digit below 10 is padded to `0` and the digit |
| Timestamp.FormatBelowSecond | api_server.py:57-60 | a time under one second has only its millisecond field |
| Timestamp.FormatClockZero | api_server.py:60 | the zero clock is written `00:00:00.000` |
| Timestamp.FormatTimestampZero | api_server.py:57-60 | time 0 is written `00:00:00.000` |
| Timestamp.ZeroPadExample | api_server.py:60 | 456 padded to three digits is `456` |
| Timestamp.FormatTimestampExample | api_server.py:57-60 | 3 723 456 ms is written `01:02:03.456` |
| Render.PlainText | api_server.py:104-107 | definition: `' '.join` of the stripped segment texts, in order, for both `json` and `text` |
| Render.PlainTextPlacement | api_server.py:104 | for every segment, its stripped text sits in the joined text after the stripped texts before it, each followed by one space, and a space follows it unless it is last |
| Render.PlainTextAppend | api_server.py:104 | the `json`/`text` text is empty for no segments, the stripped text for one, and grows by a space and the next stripped text per segment |
| Render.PlainTextLength | api_server.py:104 | its length is the stripped texts' lengths plus one separator per gap |
| Render.PlainTextRecoversSegments | api_server.py:104 | when no stripped text holds a space, the reader `split(' ')` gives back the stripped texts one per segment in order |
| Render.NumberLine | api_server.py:112 | `f'{i}\n'`: digits whose value is the number, then a line break |
| Render.TimingLine | api_server.py:113 | definition: both times written by `format_timestamp` around ` --> `, then a line break |
| Render.TextBlock | api_server.py:114 | the raw, unstripped segment text, then `\n\n` |
| Render.SrtCue | api_server.py:112-114 | definition: the number line, the timing line and the text block, in that order |
| Render.VttCue | api_server.py:138-139 | definition: the timing line and the text block, with no number |
| Render.SrtDocument | api_server.py:110-114 | definition: the SRT cues, numbered from 1, concatenated in segment order starting from the empty string |
| Render.VttDocument | api_server.py:136-139 | definition: `WEBVTT\n\n` followed by the VTT cues concatenated in segment order |
| Render.Numbered | api_server.py:111 | `enumerate(..., start=1)`: one rendering per item, item `i` rendered with number `i + 1` |
| Render.NumberedSnoc | api_server.py:111 | one more item adds one rendering at the end, numbered one past the count |
| Render.SrtStep | api_server.py:112-114 | the three `srt +=` of one segment extend the accumulated cues by that segment's cue |
| Render.VttStep | api_server.py:138-139 | the two `vtt +=` of one segment extend the accumulated cues by that segment's cue |
| Render.RenderSrt | api_server.py:110-115 | the loop of the `srt` branch builds exactly `SrtDocument` of the segments: numbered cues with `HH:MM:SS.mmm` times |
| Render.RenderVtt | api_server.py:136-140 | the loop of the `vtt` branch builds exactly the header followed by the WebVTT cues |
| Render.EmptyDocuments | api_server.py:110-140 | no segments give an empty `srt` body and a `vtt` body that is the header alone |
| Render.SrtDocumentAppend | api_server.py:110-114 | one more segment appends one cue, numbered one past the previous count |
| Render.VttDocumentAppend | api_server.py:136-139 | one more segment appends one unnumbered cue; the header stays in front |
| Render.ArrowWords | api_server.py:113 | two space-free times around ` --> ` split back into three words |
| Render.TimingWords | api_server.py:113 | a timing line has no line break and splits on spaces into the start time, `-->` and the end time |
| Render.ParseTimingOfSegment | api_server.py:113 | a timing line has no line break and reads back as the segment's start and end |
| Render.VttCueStructure | api_server.py:138-139 | a VTT cue's first line is its timing line, which reads back as the segment's times, followed by the raw text and a blank line |
| Render.CuesLength | api_server.py:111 | there is one SRT cue and one VTT cue per segment |
| Render.CuesAt | api_server.py:111-114 | SRT cue `i` is numbered `i + 1`; VTT cue `i` belongs to segment `i` |
| Render.SrtCueIsNumberedVttCue | api_server.py:112-114 | an SRT cue's first line is its number, and the rest is the VTT cue of the same segment |
| Render.SrtCueStructure | api_server.py:111-114 | SRT cue `i` starts with the line `i + 1`, whose value is `i + 1`, so the numbers run 1..n without gaps; the rest is VTT cue `i` |
| Render.VerboseJson | api_server.py:116-134 | task `transcribe`; requested language and the capability's duration on top; raw texts joined by spaces; one entry per segment with its 0-based position as id, seek 0 and the requested temperature |
| Render.VerboseEntry | api_server.py:122-133 | one entry has the given id, seek 0 and the requested temperature, and carries every field of its segment unchanged |
| Render.VerboseJsonRecoversSegments | api_server.py:122-133 | every segment, with all its fields, can be read back from the entries in order |
| Render.VerboseTextIsPlainTextWhenStripped | api_server.py:104-121 | the verbose text equals the `json` text when stripping changes no segment text |
| Handler.ModelName | api_server.py:65 | definition: the `model` form field, or `tiny.en` when it is absent |
| Handler.CallArgs | api_server.py:85-96 | definition: the named model; `normalise` of the upload's bytes; voice filtering on; the form's silence duration, temperature and language, or 500, 0.0 and `auto` |
| Handler.RenderAs | api_server.py:103-140 | definition: the body and content type of each format, namely `{"text": ...}` as JSON, the bare string as the default `text/html`, the SRT document as `text/plain`, the verbose record as JSON, and the VTT document as `text/vtt` |
| Handler.ParseFormat | api_server.py:103-142 | exactly the five names `json`, `text`, `srt`, `verbose_json`, `vtt` select a format, and each selects the one it names |
| Handler.ParseFormatName | api_server.py:103-142 | every format is selected by its own name |
| Handler.PreCheck | api_server.py:65-76 | passes exactly when the model is known, a file part is present and its name is non-empty; an unknown model gives the error with the model list |
| Handler.Handle | api_server.py:62-142 | the capability is called exactly when the three checks pass, and then with `CallArgs`: a listed model, the normalised upload, voice filtering on and the form values or their defaults; the status is 400 exactly when a check fails, no segments come back, or the format is not one of the five |
| Handler.HandleAfterTranscription | api_server.py:103-142 | past the checks with segments in hand, the answer is the renderer the format selects, or the invalid-format error |
| Handler.HandleRendersFormat | api_server.py:103-140 | once the name selects a format, the response is that format's rendering of the segments |
| Handler.Transcribe | api_server.py:62-142 | the handler written with the source's early returns and the two rendering loops gives the same answer and makes the same call as `Handle` |
| Handler.UnknownModelWins | api_server.py:65-68 | an unknown model is reported first, with the model list, whatever else the request holds, and nothing is transcribed |
| Handler.MissingFileSecond | api_server.py:70-71 | with a known model, a missing file part is reported next, and nothing is transcribed |
| Handler.EmptyFilenameThird | api_server.py:75-76 | with a known model and a file part, an empty file name is reported next, and nothing is transcribed |
| Handler.NoSpeechBeforeFormat | api_server.py:98-99 | after the checks pass, an absent segment list gives "No speech detected" whatever the format |
| Handler.InvalidFormatLast | api_server.py:141-142 | for an unknown format name, the invalid-format error comes exactly when the checks pass and segments come back |
| Handler.HandleUsesOneCall | api_server.py:90-96 | the answer depends on the capability only through the one call made, so the same request and capability answer give the same response |
| Handler.JsonBody | api_server.py:103-105 | with no format or `json`, the body is `{"text": ...}` with the stripped texts joined by spaces, as JSON |
| Handler.TextBody | api_server.py:106-108 | `text` sends the same joined text as a bare string with the framework's default content type |
| Handler.SrtBody | api_server.py:109-115 | `srt` sends `SrtDocument` of the segments as `text/plain` |
| Handler.VttBody | api_server.py:135-140 | `vtt` sends `VttDocument` of the segments as `text/vtt` |
| Handler.VerboseEchoesRequest | api_server.py:116-134 | `verbose_json` carries the requested language (default `auto`) and, in every entry, the requested temperature (default 0.0), with one entry per segment |
| Handler.EmptyTranscriptJson | api_server.py:98-105 | an empty (not absent) segment list with the default format gives `{"text": ""}` with status 200 |

## Left out

- The framework plumbing is not modelled: routing, multipart parsing and the
  serialisation done by `jsonify`. Responses are datatypes, and JSON objects
  are records.
- Audio decoding and re-encoding to 16-bit PCM WAV (api_server.py:79-83)
  uses a foreign library, so it is a function parameter, `normalise`, of the
  handler. The capability receives `normalise` of the upload's bytes. A
  decode failure is an uncaught exception in the source, and that is not
  modelled.
- Device selection and model loading at startup (api_server.py:25-55) are
  left out because they are hardware and library calls. The registry is
  assumed to hold every listed model, as the loading loop ensures.
- The recognition model itself is a function parameter.
- The `int(...)` and `float(...)` conversions of form fields
  (api_server.py:85-86) are left out. In the source they raise an uncaught
  exception on malformed input. The model takes the converted values as
  given.
- Timestamp.FormatTimestamp takes whole milliseconds, not a float number of
  seconds. Binary floating-point representation and the rounding of
  `:06.3f` are not modelled: for example, a value like 59.9996 seconds is
  printed as `60.000` in the source.
- Segment start and end times, in `srt`, `vtt` and `verbose_json`, are whole
  milliseconds for the same reason.
- Temperature, duration and the per-segment scores are opaque 64-bit
  patterns that are only passed along. How they are printed as JSON numbers
  is not modelled.
- The lazy segment generator is modelled as the list it is drained into
  (api_server.py:101). Single-pass iteration is not modelled.
- Concurrency between requests is not modelled; the handler keeps no
  shared mutable state.
- Render.RenderSrt and Render.RenderVtt do not escape segment texts that
  contain `-->` or blank lines, and neither does the source. The cue
  structure lemmas therefore speak of the first line of each cue, not of
  the whole document.
