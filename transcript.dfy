/** The values the speech-recognition capability hands to the request handler. */
module Transcript {

  /**
   * A Python float the handler only passes along (temperature, duration and
   * the per-segment scores), kept as its IEEE-754 binary64 bit pattern.
   */
  datatype Float = Float(bits: bv64)

  /** `0.0`, the all-zero bit pattern. */
  const Zero: Float := Float(0)

  /**
   * One timed span of recognised speech. Start and end are whole
   * milliseconds; `text` is kept exactly as recognised, with its spaces.
   */
  datatype Segment = Segment(
    startMs: nat,
    endMs: nat,
    text: string,
    tokens: seq<int>,
    avgLogprob: Float,
    compressionRatio: Float,
    noSpeechProb: Float)
}
