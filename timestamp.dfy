/**
 * `format_timestamp` of the transcription server, on whole milliseconds, and
 * a reader for the `HH:MM:SS.mmm` form it writes (the cue timestamp form of
 * WebVTT with its hours field present), which undoes it.
 */
module Timestamp {
  import opened Options
  import opened Decimal

  /** A time split into hours, minutes, seconds and milliseconds. */
  datatype Clock = Clock(hours: nat, minutes: nat, seconds: nat, millis: nat)

  /** The number of milliseconds a clock reading stands for. */
  function ClockValue(c: Clock): nat
  {
    ((c.hours * 60 + c.minutes) * 60 + c.seconds) * 1000 + c.millis
  }

  /**
   * The two `divmod(_, 60)` steps of `format_timestamp`, taken on whole
   * milliseconds: minutes, seconds and milliseconds are in range, hours are
   * unbounded, and the parts add up to `t` again.
   */
  function Decompose(t: nat): (c: Clock)
    ensures c.minutes < 60 && c.seconds < 60 && c.millis < 1000
    ensures ClockValue(c) == t
  {
    var totalSeconds, millis := t / 1000, t % 1000;
    var totalMinutes, seconds := totalSeconds / 60, totalSeconds % 60;
    Clock(totalMinutes / 60, totalMinutes % 60, seconds, millis)
  }

  /** Each field of the decomposition, as a quotient and remainder of `t` itself. */
  lemma DecomposeFields(t: nat)
    ensures Decompose(t).hours == t / 3600000
    ensures Decompose(t).minutes == t / 60000 % 60 && Decompose(t).seconds == t / 1000 % 60
    ensures Decompose(t).millis == t % 1000
  {
    assert t / 1000 / 60 == t / 60000;
    assert t / 60000 / 60 == t / 3600000;
  }

  /** The text of a clock reading: hours to at least two digits, minutes and seconds to two, milliseconds to three. */
  function FormatClock(c: Clock): (r: string)
    requires c.minutes < 60 && c.seconds < 60 && c.millis < 1000
    ensures |r| >= 12
    ensures r[|r| - 10] == ':' && r[|r| - 7] == ':' && r[|r| - 4] == '.'
    ensures r[..|r| - 10] == ZeroPad(c.hours, 2)
  {
    ZeroPadExactWidth(c.minutes, 2);
    ZeroPadExactWidth(c.seconds, 2);
    ZeroPadExactWidth(c.millis, 3);
    var r := ZeroPad(c.hours, 2) + ":" + ZeroPad(c.minutes, 2) + ":" + ZeroPad(c.seconds, 2) + "." + ZeroPad(c.millis, 3);
    assert r[..|r| - 10] == ZeroPad(c.hours, 2);
    r
  }

  /**
   * `format_timestamp(t)`, i.e. `f'{int(hours):02d}:{int(minutes):02d}:{seconds:06.3f}'`
   * after the two `divmod` steps; its leading field is the whole hours, padded
   * to at least two digits and never cut.
   */
  function FormatTimestamp(t: nat): (r: string)
    ensures |r| >= 12
    ensures r[|r| - 10] == ':' && r[|r| - 7] == ':' && r[|r| - 4] == '.'
  {
    var c := Decompose(t);
    FormatClock(c)
  }

  /** The text before the first `':'` is the whole hours, padded to two digits and never cut. */
  lemma FormatTimestampHours(t: nat)
    ensures var r := FormatTimestamp(t); r[..|r| - 10] == ZeroPad(t / 3600000, 2)
  {
    DecomposeFields(t);
  }

  /**
   * The whole text of `format_timestamp`: hours padded to two digits, then
   * minutes and seconds to two and milliseconds to three, each field a
   * quotient or remainder of `t`.
   */
  lemma FormatTimestampFields(t: nat)
    ensures FormatTimestamp(t)
         == ZeroPad(t / 3600000, 2) + ":" + ZeroPad(t / 60000 % 60, 2) + ":" + ZeroPad(t / 1000 % 60, 2) + "." + ZeroPad(t % 1000, 3)
  {
    DecomposeFields(t);
  }

  /** The string has the shape digits{2,} ':' dd ':' dd '.' ddd. */
  predicate IsTimestampShape(s: string)
  {
    && |s| >= 12
    && s[|s| - 10] == ':' && s[|s| - 7] == ':' && s[|s| - 4] == '.'
    && AllDigits(s[..|s| - 10]) && AllDigits(s[|s| - 9..|s| - 7])
    && AllDigits(s[|s| - 6..|s| - 4]) && AllDigits(s[|s| - 3..])
  }

  /** The time four digit fields stand for, when minutes and seconds are in range. */
  function FieldsValue(hh: string, mm: string, ss: string, mmm: string): Option<nat>
    requires AllDigits(hh) && AllDigits(mm) && AllDigits(ss) && AllDigits(mmm)
  {
    var c := Clock(ValueOf(hh), ValueOf(mm), ValueOf(ss), ValueOf(mmm));
    if c.minutes < 60 && c.seconds < 60 then Some(ClockValue(c)) else None
  }

  /**
   * Reads `HH:MM:SS.mmm` (two or more hour digits, minutes and seconds below
   * 60) back into milliseconds; any other string gives None.
   */
  function ParseTimestamp(s: string): Option<nat>
  {
    if !IsTimestampShape(s) then None
    else
      var n := |s|;
      FieldsValue(s[..n - 10], s[n - 9..n - 7], s[n - 6..n - 4], s[n - 3..])
  }

  /** Reading a string assembled from four digit fields reads those fields. */
  lemma ParseAssembled(hh: string, mm: string, ss: string, mmm: string)
    requires AllDigits(hh) && AllDigits(mm) && AllDigits(ss) && AllDigits(mmm)
    requires |hh| >= 2 && |mm| == 2 && |ss| == 2 && |mmm| == 3
    ensures ParseTimestamp(hh + ":" + mm + ":" + ss + "." + mmm) == FieldsValue(hh, mm, ss, mmm)
  {
    var r := hh + ":" + mm + ":" + ss + "." + mmm;
    var n := |r|;
    assert r[..n - 10] == hh;
    assert r[n - 9..n - 7] == mm;
    assert r[n - 6..n - 4] == ss;
    assert r[n - 3..] == mmm;
  }

  /** Reading back what `format_timestamp` wrote gives the original time. */
  lemma ParseFormatTimestamp(t: nat)
    ensures ParseTimestamp(FormatTimestamp(t)) == Some(t)
  {
    var c := Decompose(t);
    ZeroPadExactWidth(c.minutes, 2);
    ZeroPadExactWidth(c.seconds, 2);
    ZeroPadExactWidth(c.millis, 3);
    ParseAssembled(ZeroPad(c.hours, 2), ZeroPad(c.minutes, 2), ZeroPad(c.seconds, 2), ZeroPad(c.millis, 3));
  }

  /** Distinct times are written differently. */
  lemma FormatTimestampInjective(t1: nat, t2: nat)
    requires FormatTimestamp(t1) == FormatTimestamp(t2)
    ensures t1 == t2
  {
    ParseFormatTimestamp(t1);
    ParseFormatTimestamp(t2);
  }

  /** Every written time has the timestamp shape, with minutes and seconds in range. */
  lemma FormatTimestampShape(t: nat)
    ensures IsTimestampShape(FormatTimestamp(t))
  {
    ParseFormatTimestamp(t);
  }

  lemma DigitsHoldNoSeparator(d: string)
    requires AllDigits(d)
    ensures ' ' !in d && '\n' !in d
  {
    forall k | 0 <= k < |d| ensures d[k] != ' ' && d[k] != '\n' {
      assert IsDigit(d[k]);
    }
  }

  /** A written timestamp has neither a space nor a line break in it. */
  lemma FormatTimestampOneWord(t: nat)
    ensures ' ' !in FormatTimestamp(t) && '\n' !in FormatTimestamp(t)
  {
    var c := Decompose(t);
    DigitsHoldNoSeparator(ZeroPad(c.hours, 2));
    DigitsHoldNoSeparator(ZeroPad(c.minutes, 2));
    DigitsHoldNoSeparator(ZeroPad(c.seconds, 2));
    DigitsHoldNoSeparator(ZeroPad(c.millis, 3));
  }

  /** A value below 10, padded to two digits, is a zero and its digit. */
  lemma ZeroPadSingleDigit(d: nat)
    requires d < 10
    ensures ZeroPad(d, 2) == ['0', DigitChar(d)]
  {
    assert NatToString(d) == [DigitChar(d)];
    assert Zeros(1) == ['0'];
  }

  /** A time under one second has only its millisecond part. */
  lemma FormatBelowSecond(t: nat)
    requires t < 1000
    ensures FormatTimestamp(t) == FormatClock(Clock(0, 0, 0, t))
  {
    assert Decompose(t) == Clock(0, 0, 0, t);
  }

  lemma FormatClockZero()
    ensures FormatClock(Clock(0, 0, 0, 0)) == "00:00:00.000"
  {
    ZeroPadSingleDigit(0);
    assert NatToString(0) == "0";
    assert Zeros(2) == "00";
  }

  /** Midnight is written `00:00:00.000`. */
  lemma FormatTimestampZero()
    ensures FormatTimestamp(0) == "00:00:00.000"
  {
    FormatBelowSecond(0);
    FormatClockZero();
  }

  lemma ZeroPadExample()
    ensures ZeroPad(456, 3) == "456"
  {
    assert NatToString(4) == "4";
    assert NatToString(45) == "45";
    assert NatToString(456) == "456";
  }

  /** 3 723 456 ms (1 h 2 min 3.456 s) is written `01:02:03.456`. */
  lemma FormatTimestampExample()
    ensures FormatTimestamp(3723456) == "01:02:03.456"
  {
    var c := Decompose(3723456);
    DecomposeFields(3723456);
    assert c == Clock(1, 2, 3, 456);
    ZeroPadSingleDigit(1);
    ZeroPadSingleDigit(2);
    ZeroPadSingleDigit(3);
    ZeroPadExample();
    assert FormatClock(c) == "01" + ":" + "02" + ":" + "03" + "." + "456";
  }
}
