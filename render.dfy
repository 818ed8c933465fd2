/**
 * The five renderings of a finished transcription: the space-joined text of
 * `json` and `text`, the numbered cues of `srt`, the header and cues of `vtt`
 * and the per-segment record of `verbose_json`.
 */
module Render {
  import opened Options
  import opened Decimal
  import opened PyText
  import opened Timestamp
  import opened Transcript

  // ---------------------------------------------------------------------
  // json and text
  // ---------------------------------------------------------------------

  function StrippedTexts(segs: seq<Segment>): seq<string>
  {
    seq(|segs|, i requires 0 <= i < |segs| => Strip(segs[i].text))
  }

  function RawTexts(segs: seq<Segment>): seq<string>
  {
    seq(|segs|, i requires 0 <= i < |segs| => segs[i].text)
  }

  /** `' '.join(segment.text.strip() for segment in segments_result)`. */
  function PlainText(segs: seq<Segment>): string
  {
    JoinWithSpace(StrippedTexts(segs))
  }

  /**
   * The text grows by one space and the next stripped segment text per
   * segment, in order; no segments give the empty string.
   */
  lemma PlainTextAppend(segs: seq<Segment>, seg: Segment)
    ensures PlainText([]) == ""
    ensures PlainText([seg]) == Strip(seg.text)
    ensures segs != [] ==> PlainText(segs + [seg]) == PlainText(segs) + " " + Strip(seg.text)
  {
    assert StrippedTexts([seg]) == [Strip(seg.text)];
    var parts := StrippedTexts(segs + [seg]);
    assert parts[..|parts| - 1] == StrippedTexts(segs);
  }

  /**
   * Its length is that of the stripped texts plus one separator between
   * each two of them.
   */
  lemma PlainTextLength(segs: seq<Segment>)
    requires segs != []
    ensures |PlainText(segs)| == SumLengths(StrippedTexts(segs)) + |segs| - 1
  {
  }

  /**
   * The stripped text of segment `i` sits in the `json`/`text` string after
   * the stripped texts of the segments before it, each followed by one
   * space, and a space follows it unless it is the last.
   */
  lemma PlainTextPlacement(segs: seq<Segment>, i: nat)
    requires i < |segs|
    ensures |StrippedTexts(segs)| == |segs| && StrippedTexts(segs)[i] == Strip(segs[i].text)
    ensures var r, k, t := PlainText(segs), JoinOffset(StrippedTexts(segs), i), StrippedTexts(segs)[i];
            && k == SumLengths(StrippedTexts(segs)[..i]) + i
            && k + |t| <= |r|
            && r[k..k + |t|] == t
            && (i + 1 < |segs| ==> k + |t| < |r| && r[k + |t|] == ' ')
  {
    JoinWithSpacePlacement(StrippedTexts(segs), i);
  }

  /**
   * When no stripped segment text holds a space, splitting the joined text at
   * spaces gives back exactly the stripped texts, one per segment, in order.
   */
  lemma PlainTextRecoversSegments(segs: seq<Segment>)
    requires segs != []
    requires forall i :: 0 <= i < |segs| ==> ' ' !in Strip(segs[i].text)
    ensures SplitOnSpace(PlainText(segs)) == StrippedTexts(segs)
  {
    SplitOnSpaceJoin(StrippedTexts(segs));
  }

  // ---------------------------------------------------------------------
  // srt and vtt
  // ---------------------------------------------------------------------

  /** `f'{i}\n'`: the cue number line, the digits of the number and a line break. */
  function NumberLine(number: nat): (r: string)
    ensures |r| >= 2 && r[|r| - 1] == '\n'
    ensures AllDigits(r[..|r| - 1]) && ValueOf(r[..|r| - 1]) == number
  {
    assert (NatToString(number) + "\n")[..|NatToString(number)|] == NatToString(number);
    NatToString(number) + "\n"
  }

  /** The words of a timing line, `start --> end`, without its line break. */
  function Timing(seg: Segment): string
  {
    FormatTimestamp(seg.startMs) + " --> " + FormatTimestamp(seg.endMs)
  }

  /** `f'{format_timestamp(segment.start)} --> {format_timestamp(segment.end)}\n'`. */
  function TimingLine(seg: Segment): string
  {
    Timing(seg) + "\n"
  }

  /** `f'{segment.text}\n\n'`: the raw text, unstripped, and the blank line that ends a cue. */
  function TextBlock(seg: Segment): (r: string)
    ensures |r| == |seg.text| + 2
    ensures r[..|seg.text|] == seg.text && r[|seg.text|..] == "\n\n"
  {
    seg.text + "\n\n"
  }

  /** One `srt` cue, laid out as in SubRip but with `HH:MM:SS.mmm` times: its number line, its timing line, then the raw text and a blank line. */
  function SrtCue(number: nat, seg: Segment): string
  {
    NumberLine(number) + TimingLine(seg) + TextBlock(seg)
  }

  /** One WebVTT cue: its timing line, then the raw text and a blank line; no number. */
  function VttCue(seg: Segment): string
  {
    TimingLine(seg) + TextBlock(seg)
  }

  /** `render(i, item)` for each `(i, item)` of `enumerate(items, start=1)`, in order. */
  function Numbered<T>(items: seq<T>, render: (nat, T) -> string): (r: seq<string>)
    ensures |r| == |items|
    ensures forall i :: 0 <= i < |items| ==> r[i] == render(i + 1, items[i])
  {
    seq(|items|, i requires 0 <= i < |items| => render(i + 1, items[i]))
  }

  lemma NumberedSnoc<T>(items: seq<T>, item: T, render: (nat, T) -> string)
    ensures Numbered(items + [item], render) == Numbered(items, render) + [render(|items| + 1, item)]
  {
    var longer := items + [item];
    assert forall k :: 0 <= k < |items| ==> longer[k] == items[k];
  }

  /** The `srt` cues of the segments, numbered from 1 in input order. */
  function SrtCues(segs: seq<Segment>): seq<string>
  {
    Numbered(segs, SrtCue)
  }

  /** The WebVTT cues of the segments, in input order; the number is not used. */
  function VttCues(segs: seq<Segment>): seq<string>
  {
    Numbered(segs, (_, seg) => VttCue(seg))
  }

  /** The `srt` body: its cues one after another. */
  function SrtDocument(segs: seq<Segment>): string
  {
    Concat(SrtCues(segs))
  }

  /** The WebVTT file header: the signature line and the blank line after it. */
  const VttHeader: string := "WEBVTT\n\n"

  /** The `vtt` body: the header, then its cues one after another. */
  function VttDocument(segs: seq<Segment>): string
  {
    VttHeader + Concat(VttCues(segs))
  }

  /** Solver hint: a prefix one longer is the prefix and one more element. */
  lemma PrefixSnoc<T>(s: seq<T>, i: nat)
    requires i < |s|
    ensures s[..i + 1] == s[..i] + [s[i]]
  {
  }

  /** Solver hint: regrouping the three pieces appended after `x`. */
  lemma AppendAssoc(x: string, a: string, b: string, c: string)
    ensures x + a + b + c == x + (a + b + c)
  {
  }

  /** Solver hint: regrouping the two pieces appended after `x`. */
  lemma AppendAssoc2(x: string, b: string, c: string)
    ensures x + b + c == x + (b + c)
  {
  }

  /** One segment's worth of `srt +=`: the accumulated cues grow by that segment's three pieces. */
  lemma SrtStep(segs: seq<Segment>, i: nat)
    requires i < |segs|
    ensures |SrtCues(segs)| == |segs|
    ensures Concat(SrtCues(segs)[..i + 1])
         == Concat(SrtCues(segs)[..i]) + NumberLine(i + 1) + TimingLine(segs[i]) + TextBlock(segs[i])
  {
    var cues := SrtCues(segs);
    PrefixSnoc(cues, i);
    ConcatSnoc(cues[..i], cues[i]);
    AppendAssoc(Concat(cues[..i]), NumberLine(i + 1), TimingLine(segs[i]), TextBlock(segs[i]));
  }

  /** One segment's worth of `vtt +=`: the accumulated cues grow by that segment's two pieces. */
  lemma VttStep(segs: seq<Segment>, i: nat)
    requires i < |segs|
    ensures |VttCues(segs)| == |segs|
    ensures Concat(VttCues(segs)[..i + 1]) == Concat(VttCues(segs)[..i]) + TimingLine(segs[i]) + TextBlock(segs[i])
  {
    var cues := VttCues(segs);
    PrefixSnoc(cues, i);
    ConcatSnoc(cues[..i], cues[i]);
    AppendAssoc2(Concat(cues[..i]), TimingLine(segs[i]), TextBlock(segs[i]));
  }

  /** Solver hint: regrouping pieces appended after a fixed header. */
  lemma AppendAfterHeader(h: string, p: string, a: string, b: string)
    ensures h + (p + a + b) == h + p + a + b
  {
  }

  /** The `srt` branch: three `srt +=` per segment, numbering from 1. */
  method RenderSrt(segs: seq<Segment>) returns (srt: string)
    ensures srt == SrtDocument(segs)
  {
    srt := "";
    for i := 0 to |segs|
      invariant srt == Concat(SrtCues(segs)[..i])
    {
      var number, seg := i + 1, segs[i];
      srt := srt + NumberLine(number);
      srt := srt + TimingLine(seg);
      srt := srt + TextBlock(seg);
      SrtStep(segs, i);
    }
    assert SrtCues(segs)[..|segs|] == SrtCues(segs);
  }

  /** The `vtt` branch: the header, then two `vtt +=` per segment. */
  method RenderVtt(segs: seq<Segment>) returns (vtt: string)
    ensures vtt == VttDocument(segs)
  {
    vtt := "WEBVTT\n\n";
    assert VttCues(segs)[..0] == [];
    for i := 0 to |segs|
      invariant vtt == VttHeader + Concat(VttCues(segs)[..i])
    {
      var seg := segs[i];
      vtt := vtt + TimingLine(seg);
      vtt := vtt + TextBlock(seg);
      VttStep(segs, i);
      AppendAfterHeader(VttHeader, Concat(VttCues(segs)[..i]), TimingLine(seg), TextBlock(seg));
    }
    assert VttCues(segs)[..|segs|] == VttCues(segs);
  }

  /** No segments give an empty `srt` body and a `vtt` body that is the header alone. */
  lemma EmptyDocuments()
    ensures SrtDocument([]) == ""
    ensures VttDocument([]) == VttHeader
  {
    assert SrtCues([]) == [];
    assert VttCues([]) == [];
  }

  /** Solver hint: a string is the prefix of itself followed by anything. */
  lemma PrefixOfAppend(a: string, b: string)
    ensures (a + b)[..|a|] == a
  {
  }

  /** One more segment adds one cue at the end, numbered one past the previous count. */
  lemma SrtDocumentAppend(segs: seq<Segment>, seg: Segment)
    ensures SrtDocument(segs + [seg]) == SrtDocument(segs) + SrtCue(|segs| + 1, seg)
  {
    NumberedSnoc(segs, seg, SrtCue);
    ConcatSnoc(SrtCues(segs), SrtCue(|segs| + 1, seg));
  }

  /** One more segment adds one unnumbered cue at the end; the header stays in front. */
  lemma VttDocumentAppend(segs: seq<Segment>, seg: Segment)
    ensures VttDocument(segs + [seg]) == VttDocument(segs) + VttCue(seg)
    ensures VttDocument(segs)[..|VttHeader|] == VttHeader
  {
    NumberedSnoc(segs, seg, (_, seg) => VttCue(seg));
    ConcatSnoc(VttCues(segs), VttCue(seg));
    AppendAssoc2(VttHeader, Concat(VttCues(segs)), VttCue(seg));
    PrefixOfAppend(VttHeader, Concat(VttCues(segs)));
  }

  /** Reads a cue timing line `start --> end` back into its two times. */
  function ParseTiming(line: string): Option<(nat, nat)>
  {
    var words := SplitOnSpace(line);
    if |words| != 3 || words[1] != "-->" then None
    else
      match (ParseTimestamp(words[0]), ParseTimestamp(words[2]))
      case (Some(start), Some(end)) => Some((start, end))
      case _ => None
  }

  /** Two space-free words around ` --> ` split back into the three words. */
  lemma ArrowWords(a: string, b: string)
    requires ' ' !in a && ' ' !in b
    ensures SplitOnSpace(a + " --> " + b) == [a, "-->", b]
  {
    assert a + " --> " + b == a + " " + "-->" + " " + b;
    SplitOnSpaceThreeWords(a, "-->", b);
  }

  lemma NoBreakAroundArrow(a: string, b: string)
    requires '\n' !in a && '\n' !in b
    ensures '\n' !in a + " --> " + b
  {
    var s := a + " --> " + b;
    forall k | 0 <= k < |s| ensures s[k] != '\n' {
      if k < |a| {
        assert s[k] == a[k];
      } else if k >= |a| + 5 {
        assert s[k] == b[k - |a| - 5];
      }
    }
  }

  /** A timing line has no line break and splits into its two times around the arrow. */
  lemma TimingWords(seg: Segment)
    ensures '\n' !in Timing(seg)
    ensures SplitOnSpace(Timing(seg)) == [FormatTimestamp(seg.startMs), "-->", FormatTimestamp(seg.endMs)]
  {
    var a, b := FormatTimestamp(seg.startMs), FormatTimestamp(seg.endMs);
    FormatTimestampOneWord(seg.startMs);
    FormatTimestampOneWord(seg.endMs);
    NoBreakAroundArrow(a, b);
    ArrowWords(a, b);
  }

  /** A timing line reads back as the segment's start and end times. */
  lemma ParseTimingOfSegment(seg: Segment)
    ensures '\n' !in Timing(seg)
    ensures ParseTiming(Timing(seg)) == Some((seg.startMs, seg.endMs))
  {
    TimingWords(seg);
    ParseFormatTimestamp(seg.startMs);
    ParseFormatTimestamp(seg.endMs);
  }

  /**
   * The first line of a VTT cue is its timing line, which reads back as the
   * segment's times, and what follows it is the raw text and a blank line.
   */
  lemma VttCueStructure(seg: Segment)
    ensures FirstLine(VttCue(seg)) == Timing(seg)
    ensures ParseTiming(FirstLine(VttCue(seg))) == Some((seg.startMs, seg.endMs))
    ensures AfterFirstLine(VttCue(seg)) == TextBlock(seg)
  {
    ParseTimingOfSegment(seg);
    FirstLineOf(Timing(seg), TextBlock(seg));
  }

  lemma CuesLength(segs: seq<Segment>)
    ensures |SrtCues(segs)| == |VttCues(segs)| == |segs|
  {
  }

  lemma CuesAt(segs: seq<Segment>, i: nat)
    requires i < |segs|
    ensures |SrtCues(segs)| == |VttCues(segs)| == |segs|
    ensures SrtCues(segs)[i] == SrtCue(i + 1, segs[i])
    ensures VttCues(segs)[i] == VttCue(segs[i])
  {
  }

  /** The first line of an SRT cue is its number; the rest is the VTT cue of the same segment. */
  lemma SrtCueIsNumberedVttCue(number: nat, seg: Segment)
    ensures FirstLine(SrtCue(number, seg)) == NatToString(number)
    ensures AfterFirstLine(SrtCue(number, seg)) == VttCue(seg)
  {
    var digits := NatToString(number);
    DigitsHoldNoSeparator(digits);
    AppendAssoc2(digits + "\n", TimingLine(seg), TextBlock(seg));
    FirstLineOf(digits, VttCue(seg));
  }

  /**
   * SRT cue i (from 0) starts with the line `i + 1`, so the numbers run 1..n
   * in order without gaps, and the rest of it is exactly the VTT cue of the
   * same segment.
   */
  lemma SrtCueStructure(segs: seq<Segment>, i: nat)
    requires i < |segs|
    ensures |SrtCues(segs)| == |VttCues(segs)| == |segs|
    ensures FirstLine(SrtCues(segs)[i]) == NatToString(i + 1)
    ensures ValueOf(FirstLine(SrtCues(segs)[i])) == i + 1
    ensures AfterFirstLine(SrtCues(segs)[i]) == VttCues(segs)[i]
  {
    CuesAt(segs, i);
    SrtCueIsNumberedVttCue(i + 1, segs[i]);
  }

  // ---------------------------------------------------------------------
  // verbose_json
  // ---------------------------------------------------------------------

  /** One entry of the `segments` list of `verbose_json`. */
  datatype VerboseSegment = VerboseSegment(
    id: nat,
    seek: nat,
    startMs: nat,
    endMs: nat,
    text: string,
    tokens: seq<int>,
    temperature: Float,
    avgLogprob: Float,
    compressionRatio: Float,
    noSpeechProb: Float)

  /** The `verbose_json` object. */
  datatype VerboseTranscript = VerboseTranscript(
    task: string,
    language: string,
    duration: Float,
    text: string,
    segments: seq<VerboseSegment>)

  /**
   * The entry of one segment: its id, seek 0 and the requested temperature,
   * with every field of the segment carried over unchanged.
   */
  function VerboseEntry(id: nat, seg: Segment, temperature: Float): (e: VerboseSegment)
    ensures e.id == id && e.seek == 0 && e.temperature == temperature
    ensures SegmentOfEntry(e) == seg
  {
    VerboseSegment(id, 0, seg.startMs, seg.endMs, seg.text, seg.tokens, temperature,
                   seg.avgLogprob, seg.compressionRatio, seg.noSpeechProb)
  }

  /**
   * The `verbose_json` branch: one entry per segment with its 0-based
   * position as id, seek 0 and the requested temperature; the requested
   * language (not the detected one) and the capability's duration on top,
   * with the raw texts joined by spaces.
   */
  function VerboseJson(segs: seq<Segment>, temperature: Float, language: string, duration: Float): (v: VerboseTranscript)
    ensures v.task == "transcribe" && v.language == language && v.duration == duration
    ensures v.text == JoinWithSpace(RawTexts(segs))
    ensures |v.segments| == |segs|
    ensures forall i :: 0 <= i < |segs| ==>
      v.segments[i].id == i && v.segments[i].seek == 0 && v.segments[i].temperature == temperature
  {
    VerboseTranscript("transcribe", language, duration, JoinWithSpace(RawTexts(segs)),
      seq(|segs|, i requires 0 <= i < |segs| => VerboseEntry(i, segs[i], temperature)))
  }

  /** The segment an entry was made from. */
  function SegmentOfEntry(e: VerboseSegment): Segment
  {
    Segment(e.startMs, e.endMs, e.text, e.tokens, e.avgLogprob, e.compressionRatio, e.noSpeechProb)
  }

  function SegmentsOf(v: VerboseTranscript): seq<Segment>
  {
    seq(|v.segments|, i requires 0 <= i < |v.segments| => SegmentOfEntry(v.segments[i]))
  }

  /** Every segment, with all its fields, can be read back from the entries in order. */
  lemma VerboseJsonRecoversSegments(segs: seq<Segment>, temperature: Float, language: string, duration: Float)
    ensures SegmentsOf(VerboseJson(segs, temperature, language, duration)) == segs
  {
    var v := VerboseJson(segs, temperature, language, duration);
    assert forall i :: 0 <= i < |segs| ==> SegmentOfEntry(v.segments[i]) == segs[i];
  }

  /**
   * The top-level text of `verbose_json` joins the raw texts; it equals the
   * `json` text when stripping changes no segment text.
   */
  lemma VerboseTextIsPlainTextWhenStripped(segs: seq<Segment>, temperature: Float, language: string, duration: Float)
    requires forall i :: 0 <= i < |segs| ==> Strip(segs[i].text) == segs[i].text
    ensures VerboseJson(segs, temperature, language, duration).text == PlainText(segs)
  {
    assert RawTexts(segs) == StrippedTexts(segs);
  }
}
