/**
 * The part of chrono's `NaiveTime` that the song rows use: building a time
 * of day from a second count, and printing it through a format string.
 */
module Chrono {
  import opened Wrappers
  import opened Decimal

  const SecondsPerDay: nat := 86400

  /** A time of day, to the second. */
  datatype NaiveTime = NaiveTime(secs: nat)
  {
    ghost predicate Valid() { secs < SecondsPerDay }
    function Hour(): nat { secs / 3600 }
    function Minute(): nat { secs / 60 % 60 }
    function Second(): nat { secs % 60 }
  }

  /**
   * `NaiveTime::from_num_seconds_from_midnight(secs, 0)`. chrono panics for a
   * second count of a whole day or more; that outcome is `None`.
   */
  function FromNumSecondsFromMidnight(secs: nat): (r: Option<NaiveTime>)
    ensures r.None? <==> secs >= SecondsPerDay
    ensures r.Some? ==> r.value.Valid() && r.value.secs == secs
  {
    if secs < SecondsPerDay then Some(NaiveTime(secs)) else None
  }

  /** One item of a strftime-style format string: a literal character, `%H`, `%M`, `%S` or `%T`. */
  datatype Item = Literal(c: char) | HourItem | MinuteItem | SecondItem | TimeItem

  /** `%T`, chrono's shorthand for `%H:%M:%S`. */
  const TimeFormat: seq<Item> := [TimeItem]

  function FormatItem(t: NaiveTime, item: Item): string
    requires t.Valid()
  {
    match item
    case Literal(c) => [c]
    case HourItem => TwoDigits(t.Hour())
    case MinuteItem => TwoDigits(t.Minute())
    case SecondItem => TwoDigits(t.Second())
    case TimeItem => TwoDigits(t.Hour()) + ":" + TwoDigits(t.Minute()) + ":" + TwoDigits(t.Second())
  }

  /** `time.format(fmt).to_string()`: the items printed one after another. */
  function Format(t: NaiveTime, fmt: seq<Item>): (s: string)
    requires t.Valid()
  {
    if fmt == [] then "" else Format(t, fmt[..|fmt| - 1]) + FormatItem(t, fmt[|fmt| - 1])
  }

  /** The three printed fields recombine to the time of day. */
  lemma FieldsRecombine(t: NaiveTime)
    requires t.Valid()
    ensures t.Hour() < 24 && t.Minute() < 60 && t.Second() < 60
    ensures t.Hour() * 3600 + t.Minute() * 60 + t.Second() == t.secs
  {
  }

  /** The literal items that print `sep`. */
  function Literals(sep: string): (r: seq<Item>)
    ensures |r| == |sep|
  {
    if sep == [] then [] else Literals(sep[..|sep| - 1]) + [Literal(sep[|sep| - 1])]
  }

  /** `%M<sep>%S`: minutes and seconds around a literal separator. */
  function ShortClock(sep: string): seq<Item> {
    [MinuteItem] + Literals(sep) + [SecondItem]
  }

  lemma FormatSnoc(t: NaiveTime, f: seq<Item>, x: Item)
    requires t.Valid()
    ensures Format(t, f + [x]) == Format(t, f) + FormatItem(t, x)
  {
    assert (f + [x])[..|f + [x]| - 1] == f;
  }

  lemma {:induction false} FormatLiterals(t: NaiveTime, f: seq<Item>, sep: string)
    requires t.Valid()
    ensures Format(t, f + Literals(sep)) == Format(t, f) + sep
  {
    if sep == [] {
      assert f + Literals(sep) == f;
    } else {
      var init, last := sep[..|sep| - 1], sep[|sep| - 1];
      assert sep == init + [last];
      FormatLiterals(t, f, init);
      assert f + Literals(sep) == (f + Literals(init)) + [Literal(last)];
      FormatSnoc(t, f + Literals(init), Literal(last));
      assert FormatItem(t, Literal(last)) == [last];
      assert Format(t, f + Literals(sep)) == (Format(t, f) + init) + [last];
    }
  }

  /** `%M<sep>%S` prints the two-digit minute, the separator, and the two-digit second. */
  lemma FormatShortClock(t: NaiveTime, sep: string)
    requires t.Valid()
    ensures Format(t, ShortClock(sep)) == TwoDigits(t.Minute()) + sep + TwoDigits(t.Second())
  {
    var f := [MinuteItem] + Literals(sep);
    assert ShortClock(sep)[..|ShortClock(sep)| - 1] == f;
    assert [MinuteItem][..0] == [];
    assert Format(t, [MinuteItem]) == TwoDigits(t.Minute());
    FormatLiterals(t, [MinuteItem], sep);
  }

  /** `%T` prints `HH:MM:SS`. */
  lemma FormatTime(t: NaiveTime)
    requires t.Valid()
    ensures Format(t, TimeFormat) == TwoDigits(t.Hour()) + ":" + TwoDigits(t.Minute()) + ":" + TwoDigits(t.Second())
    ensures |Format(t, TimeFormat)| == 8
  {
    assert TimeFormat[..0] == [];
  }

  /**
   * Reads a printed clock back into seconds: `MM<sep>SS` or `HH:MM:SS`.
   * Anything else is not a clock.
   */
  function ReadClock(s: string, sep: string): (r: Option<nat>)
    requires |sep| != 4
  {
    if |s| == 4 + |sep| && s[2..2 + |sep|] == sep && IsPair(s[..2]) && IsPair(s[2 + |sep|..]) then
      Some(PairValue(s[..2]) * 60 + PairValue(s[2 + |sep|..]))
    else if |s| == 8 && s[2] == ':' && s[5] == ':' && IsPair(s[..2]) && IsPair(s[3..5]) && IsPair(s[6..]) then
      Some(PairValue(s[..2]) * 3600 + PairValue(s[3..5]) * 60 + PairValue(s[6..]))
    else
      None
  }

  /** Two digit pairs around the separator read as minutes and seconds. */
  lemma ReadShortFields(a: string, b: string, sep: string)
    requires IsPair(a) && IsPair(b) && |sep| != 4
    ensures ReadClock(a + sep + b, sep) == Some(PairValue(a) * 60 + PairValue(b))
  {
    var s := a + sep + b;
    assert s[..2] == a && s[2..2 + |sep|] == sep && s[2 + |sep|..] == b;
  }

  /** Three digit pairs joined by colons read as hours, minutes and seconds. */
  lemma ReadLongFields(a: string, b: string, c: string, sep: string)
    requires IsPair(a) && IsPair(b) && IsPair(c) && |sep| != 4
    ensures ReadClock(a + ":" + b + ":" + c, sep) == Some(PairValue(a) * 3600 + PairValue(b) * 60 + PairValue(c))
  {
    var s := a + ":" + b + ":" + c;
    assert s[..2] == a && s[3..5] == b && s[6..] == c;
    assert s[2] == ':' && s[5] == ':';
  }

  /** Below one hour, `%M<sep>%S` reads back to the second count. */
  lemma ShortClockRoundTrip(t: NaiveTime, sep: string)
    requires t.secs < 3600 && |sep| != 4
    ensures |Format(t, ShortClock(sep))| == 4 + |sep|
    ensures ReadClock(Format(t, ShortClock(sep)), sep) == Some(t.secs)
  {
    FormatShortClock(t, sep);
    var m, sec := t.Minute(), t.Second();
    ReadShortFields(TwoDigits(m), TwoDigits(sec), sep);
    TwoDigitsRoundTrip(m);
    TwoDigitsRoundTrip(sec);
    assert m * 60 + sec == t.secs;
  }

  /** Three two-digit fields joined by colons read back to their weighted sum. */
  lemma ReadLongClock(h: nat, m: nat, sec: nat, sep: string)
    requires h < 24 && m < 60 && sec < 60 && |sep| != 4
    ensures ReadClock(TwoDigits(h) + ":" + TwoDigits(m) + ":" + TwoDigits(sec), sep) == Some(h * 3600 + m * 60 + sec)
  {
    ReadLongFields(TwoDigits(h), TwoDigits(m), TwoDigits(sec), sep);
    TwoDigitsRoundTrip(h);
    TwoDigitsRoundTrip(m);
    TwoDigitsRoundTrip(sec);
  }

  /** A printed `HH:MM:SS` reads back to any total its fields recombine to. */
  lemma ReadLongClockOf(s: string, h: nat, m: nat, sec: nat, total: nat, sep: string)
    requires h < 24 && m < 60 && sec < 60 && |sep| != 4
    requires s == TwoDigits(h) + ":" + TwoDigits(m) + ":" + TwoDigits(sec)
    requires h * 3600 + m * 60 + sec == total
    ensures ReadClock(s, sep) == Some(total)
  {
    ReadLongClock(h, m, sec, sep);
  }

  /** `%T` always reads back to the second count. */
  lemma TimeRoundTrip(t: NaiveTime, sep: string)
    requires t.Valid() && |sep| != 4
    ensures ReadClock(Format(t, TimeFormat), sep) == Some(t.secs)
  {
    FieldsRecombine(t);
    FormatTime(t);
    ReadLongClockOf(Format(t, TimeFormat), t.Hour(), t.Minute(), t.Second(), t.secs, sep);
  }
}
